/** Concurrent updates and reads of the cached summary, each under its own lock of the cache
    namespace: exclusive for read-modify-write, shared for reading. Any of them may fail or be
    killed at any point. */
module SummaryWriters {
  import opened Basics
  import opened UpdateSummary
  import Cache = NamespacedCache

  /** What a writer does to the summary. */
  datatype Update =
    | NodeUpdate(remote: string, remoteType: RemoteType, node: string, data: NodeSummary)
    | Refresh(response: seq<RemoteResponse>)

  datatype Phase =
    | Waiting
    | Holding
    | Loaded(content: Summary, failed: bool)
    | Done
    | Seen(content: Summary, failed: bool, at: nat)
    | Failed

  datatype Job = Writer(update: Update) | Reader

  datatype Process = Process(job: Job, phase: Phase)

  /** A completed write, and whether its writer could not read what was there. */
  datatype Commit = Commit(writer: nat, update: Update, blank: bool)

  datatype State = State(
    entry: Option<Cache.File<Summary>>,
    exclusive: Option<nat>,
    shared: set<nat>,
    procs: seq<Process>,
    commits: seq<Commit>)

  /** A process goes on, with the next file or lock operation failing or not, or is killed. A write that
      was handed to the file system lands even if nobody waits for it any more: its writer goes on. */
  datatype Action = Proceed(proc: nat, fails: bool, now: int) | Kill(proc: nat)

  function Edit(update: Update, content: Summary): Summary {
    match update
    case NodeUpdate(remote, remoteType, node, data) => WithNode(content, remote, remoteType, node, data)
    case Refresh(response) => Target(response, content)
  }

  predicate Enabled(s: State, a: Action) {
    && a.proc < |s.procs|
    && var p := s.procs[a.proc];
       && !p.phase.Done? && !p.phase.Seen? && !p.phase.Failed?
       && (a.Proceed? && p.phase.Waiting? && !a.fails ==> s.exclusive.None? && (p.job.Writer? ==> s.shared == {}))
  }

  function Moved(s: State, i: nat, phase: Phase): State
    requires i < |s.procs|
  {
    s.(procs := s.procs[i := s.procs[i].(phase := phase)])
  }

  /** The state without the lock of a process. */
  function Unlocked(s: State, i: nat): State {
    s.(exclusive := if s.exclusive == Some(i) then None else s.exclusive, shared := s.shared - {i})
  }

  /** One step of a process; an action that is not enabled does nothing. */
  function Step(s: State, a: Action): State {
    if !Enabled(s, a) then s else Do(s, a)
  }

  function Do(s: State, a: Action): State
    requires Enabled(s, a)
  {
    var i := a.proc;
    var p := s.procs[i];
    if a.Kill? then Unlocked(Moved(s, i, Failed), i)
    else if p.phase.Waiting? then
      if a.fails then Moved(s, i, Failed)
      else if p.job.Writer? then Moved(s, i, Holding).(exclusive := Some(i))
      else Moved(s, i, Holding).(shared := s.shared + {i})
    else if p.phase.Holding? then
      var content := SummaryOrDefault(s.entry, a.fails);
      if p.job.Writer? then Moved(s, i, Loaded(content, a.fails))
      else Unlocked(Moved(s, i, Seen(content, a.fails, |s.commits|)), i)
    else if a.fails || !p.job.Writer? then Unlocked(Moved(s, i, Failed), i)
    else Unlocked(Moved(s, i, Done), i).(
         entry := Some(Cache.Stored(a.now, Edit(p.job.update, p.phase.content))),
         commits := s.commits + [Commit(i, p.job.update, p.phase.failed)])
  }

  /** The state after a run, that is, any interleaving of steps. */
  function After(s: State, run: seq<Action>): State {
    if run == [] then s else Step(After(s, run[..|run| - 1]), run[|run| - 1])
  }

  lemma {:induction false} AfterPrefix(s: State, run: seq<Action>, k: nat)
    requires k < |run|
    ensures After(s, run[..k + 1]) == Step(After(s, run[..k]), run[k])
  {
    assert run[..k + 1][..k] == run[..k];
  }

  ghost predicate Initial(s: State) {
    && s.exclusive.None? && s.shared == {} && s.commits == []
    && forall i | 0 <= i < |s.procs| :: s.procs[i].phase.Waiting?
  }

  // ---------------------------------------------------------------------------------------------
  // Serializability

  /** The writes done one after the other. */
  function Replay(content: Summary, commits: seq<Commit>): Summary {
    if commits == [] then content
    else
      var n := |commits| - 1;
      Edit(commits[n].update, if commits[n].blank then map[] else Replay(content, commits[..n]))
  }

  function Content(s: State): Summary {
    SummaryOrDefault(s.entry, false)
  }

  ghost predicate LockInv(s: State, i: nat)
    requires i < |s.procs|
  {
    var p := s.procs[i];
    && (s.exclusive == Some(i) <==> p.job.Writer? && (p.phase.Holding? || p.phase.Loaded?))
    && (i in s.shared <==> p.job.Reader? && p.phase.Holding?)
    && (p.phase.Loaded? || p.phase.Done? ==> p.job.Writer?)
  }

  ghost predicate ViewInv(content: Summary, s: State, i: nat)
    requires i < |s.procs|
  {
    var p := s.procs[i];
    && (p.phase.Loaded? ==> p.phase.content == SummaryOrDefault(s.entry, p.phase.failed))
    && (p.phase.Seen? ==>
          && p.phase.at <= |s.commits|
          && p.phase.content == if p.phase.failed then map[] else Replay(content, s.commits[..p.phase.at]))
  }

  ghost predicate Committed(commits: seq<Commit>, i: nat) {
    exists c | 0 <= c < |commits| :: commits[c].writer == i
  }

  /** A commit belongs to a finished writer, and no writer has two. */
  ghost predicate CommitInv(s: State, c: nat)
    requires c < |s.commits|
  {
    var commit := s.commits[c];
    && commit.writer < |s.procs| && s.procs[commit.writer] == Process(Writer(commit.update), Done)
    && forall d | 0 <= d < c :: s.commits[d].writer != commit.writer
  }

  /** `content` is what the cache held at the start. */
  ghost predicate Inv(content: Summary, s: State) {
    && Content(s) == Replay(content, s.commits)
    && (s.exclusive.Some? ==> s.exclusive.value < |s.procs| && s.shared == {})
    && (forall i | 0 <= i < |s.procs| :: LockInv(s, i) && ViewInv(content, s, i))
    && (forall i | 0 <= i < |s.procs| && s.procs[i].phase.Done? :: Committed(s.commits, i))
    && (forall c | 0 <= c < |s.commits| :: CommitInv(s, c))
  }

  lemma {:induction false} ReplayOneMore(content: Summary, commits: seq<Commit>, commit: Commit)
    ensures Replay(content, commits + [commit])
            == Edit(commit.update, if commit.blank then map[] else Replay(content, commits))
  {
    assert (commits + [commit])[..|commits|] == commits;
  }

  lemma {:induction false} StepKeepsContent(content: Summary, s: State, a: Action)
    requires Inv(content, s) && Enabled(s, a)
    ensures Content(Do(s, a)) == Replay(content, Do(s, a).commits)
  {
    var t := Do(s, a);
    assert LockInv(s, a.proc) && ViewInv(content, s, a.proc);
    if |t.commits| > |s.commits| {
      ReplayOneMore(content, s.commits, t.commits[|s.commits|]);
    }
  }

  lemma StepKeepsLock(content: Summary, s: State, a: Action, i: nat)
    requires Inv(content, s) && Enabled(s, a) && i < |s.procs|
    ensures LockInv(Do(s, a), i)
    ensures Do(s, a).exclusive.Some? ==> Do(s, a).exclusive.value < |s.procs| && Do(s, a).shared == {}
  {
    assert LockInv(s, a.proc) && LockInv(s, i);
  }

  lemma StepKeepsView(content: Summary, s: State, a: Action, i: nat)
    requires Inv(content, s) && Enabled(s, a) && i < |s.procs|
    ensures ViewInv(content, Do(s, a), i)
  {
    var t := Do(s, a);
    assert LockInv(s, a.proc) && LockInv(s, i) && ViewInv(content, s, i);
    assert s.commits[..|s.commits|] == s.commits;
    if |t.commits| > |s.commits| {
      var p := s.procs[i];
      if p.phase.Seen? {
        assert t.commits[..p.phase.at] == s.commits[..p.phase.at];
      }
    }
  }

  lemma StepKeepsCommits(content: Summary, s: State, a: Action, c: nat)
    requires Inv(content, s) && Enabled(s, a) && c < |Do(s, a).commits|
    ensures CommitInv(Do(s, a), c)
  {
    var t := Do(s, a);
    if c < |s.commits| {
      assert CommitInv(s, c);
    } else {
      forall d | 0 <= d < c ensures t.commits[d].writer != a.proc {
        assert CommitInv(s, d);
      }
      assert LockInv(s, a.proc);
    }
  }

  lemma StepKeepsDone(content: Summary, s: State, a: Action, i: nat)
    requires Inv(content, s) && Enabled(s, a) && i < |s.procs| && Do(s, a).procs[i].phase.Done?
    ensures Committed(Do(s, a).commits, i)
  {
    var t := Do(s, a);
    if s.procs[i].phase.Done? {
      var c :| 0 <= c < |s.commits| && s.commits[c].writer == i;
      assert t.commits[c].writer == i;
    } else {
      assert t.commits[|s.commits|].writer == i;
    }
  }

  /** One step of any process keeps everything, whether it goes on, fails or is killed. */
  lemma StepKeepsInv(content: Summary, s: State, a: Action)
    requires Inv(content, s)
    ensures Inv(content, Step(s, a))
  {
    if Enabled(s, a) {
      var t := Do(s, a);
      StepKeepsContent(content, s, a);
      StepKeepsLock(content, s, a, a.proc);
      forall i | 0 <= i < |t.procs| ensures LockInv(t, i) && ViewInv(content, t, i) {
        StepKeepsLock(content, s, a, i);
        StepKeepsView(content, s, a, i);
      }
      forall c | 0 <= c < |t.commits| ensures CommitInv(t, c) {
        StepKeepsCommits(content, s, a, c);
      }
      forall i | 0 <= i < |t.procs| && t.procs[i].phase.Done? ensures Committed(t.commits, i) {
        StepKeepsDone(content, s, a, i);
      }
    }
  }

  lemma {:induction false} RunKeepsInv(content: Summary, s: State, run: seq<Action>)
    requires Inv(content, s)
    ensures Inv(content, After(s, run))
  {
    if run != [] {
      RunKeepsInv(content, s, run[..|run| - 1]);
      StepKeepsInv(content, After(s, run[..|run| - 1]), run[|run| - 1]);
    }
  }

  /** What a reader was given is the summary after a prefix of the writes, or nothing. */
  ghost predicate SawPrefix(content: Summary, commits: seq<Commit>, phase: Phase)
    requires phase.Seen?
  {
    phase.at <= |commits| && phase.content == if phase.failed then map[] else Replay(content, commits[..phase.at])
  }

  /** In every run, whatever fails and whoever is killed, the cached summary is the one that the
      completed writes give one after the other. Each of them belongs to a writer that ended well, in
      both directions and once, and every reader saw the summary after some number of them. */
  lemma {:induction false} EveryRunIsSerial(s: State, run: seq<Action>)
    requires Initial(s)
    ensures var t := After(s, run);
            && Content(t) == Replay(Content(s), t.commits)
            && (forall i | 0 <= i < |t.procs| :: t.procs[i].phase.Done? <==> Committed(t.commits, i))
            && (forall c, d | 0 <= c < d < |t.commits| :: t.commits[c].writer != t.commits[d].writer)
            && (forall i | 0 <= i < |t.procs| && t.procs[i].phase.Seen? ::
                  SawPrefix(Content(s), t.commits, t.procs[i].phase))
  {
    RunKeepsInv(Content(s), s, run);
    var t := After(s, run);
    forall i | 0 <= i < |t.procs| && Committed(t.commits, i) ensures t.procs[i].phase.Done? {
      var c :| 0 <= c < |t.commits| && t.commits[c].writer == i;
      assert CommitInv(t, c);
    }
    forall c, d | 0 <= c < d < |t.commits| ensures t.commits[c].writer != t.commits[d].writer {
      assert CommitInv(t, d);
    }
    forall i | 0 <= i < |t.procs| && t.procs[i].phase.Seen?
      ensures SawPrefix(Content(s), t.commits, t.procs[i].phase)
    {
      assert ViewInv(Content(s), t, i);
    }
  }

  /** What the last committed write makes of the cache: a node write sets its node, a refresh reconciles
      with its response, both starting from what the writes before it left, or from nothing if its writer
      could not read that. */
  lemma {:induction false} LastCommitExactly(s: State, run: seq<Action>)
    requires Initial(s) && After(s, run).commits != []
    ensures var t := After(s, run);
            var n := |t.commits| - 1;
            var before := if t.commits[n].blank then map[] else Replay(Content(s), t.commits[..n]);
            match t.commits[n].update
            case NodeUpdate(remote, remoteType, node, data) =>
              Content(t) == WithNode(before, remote, remoteType, node, data)
            case Refresh(response) => Content(t) == Target(response, before)
  {
    EveryRunIsSerial(s, run);
  }

  /** Whatever the cache held and in whatever order the other writes landed, after the final pass of a
      refresh it shows the response and nothing else. */
  lemma {:induction false} RefreshHasTheLastWord(s: State, run: seq<Action>, response: seq<RemoteResponse>)
    requires Initial(s)
    requires var commits := After(s, run).commits;
             commits != [] && commits[|commits| - 1].update == Refresh(response)
    ensures SameView(Content(After(s, run)), Target(response, map[]))
  {
    EveryRunIsSerial(s, run);
    var commits := After(s, run).commits;
    var n := |commits| - 1;
    ResponseDetermines(response, if commits[n].blank then map[] else Replay(Content(s), commits[..n]));
  }

  // ---------------------------------------------------------------------------------------------
  // Which node summaries survive

  /** The latest word on a node: that of the last write that mentions it, unless a later write started
      from nothing or a later refresh replaced it. */
  function LatestWord(content: Summary, commits: seq<Commit>, remote: string, node: string): Option<NodeSummary> {
    if commits == [] then NodeOf(content, remote, node)
    else
      var n := |commits| - 1;
      match commits[n].update
      case NodeUpdate(r, _, m, data) =>
        if r == remote && m == node then Some(data)
        else if commits[n].blank then None
        else LatestWord(content, commits[..n], remote, node)
      case Refresh(response) => NodeOf(Target(response, map[]), remote, node)
  }

  lemma {:induction false} LatestWordStored(content: Summary, commits: seq<Commit>, remote: string, node: string)
    ensures NodeOf(Replay(content, commits), remote, node) == LatestWord(content, commits, remote, node)
  {
    if commits != [] {
      var n := |commits| - 1;
      LatestWordStored(content, commits[..n], remote, node);
      if commits[n].update.Refresh? {
        ResponseDetermines(commits[n].update.response, if commits[n].blank then map[]
                           else Replay(content, commits[..n]));
      }
    }
  }

  /** The commit writes this node. */
  predicate Writes(commit: Commit, remote: string, node: string) {
    commit.update.NodeUpdate? && commit.update.remote == remote && commit.update.node == node
  }

  /** A later write of another node. */
  ghost predicate OthersFollow(commits: seq<Commit>, i: nat, remote: string, node: string) {
    forall j | i < j < |commits| :: commits[j].update.NodeUpdate? && !Writes(commits[j], remote, node)
  }

  ghost predicate NoneBlank(commits: seq<Commit>, i: nat) {
    forall j | i < j < |commits| :: !commits[j].blank
  }

  lemma {:induction false} WordKept(content: Summary, commits: seq<Commit>, i: nat, remote: string, node: string)
    requires i < |commits| && Writes(commits[i], remote, node) && OthersFollow(commits, i, remote, node)
    ensures LatestWord(content, commits, remote, node) == if NoneBlank(commits, i) then Some(commits[i].update.data)
            else None
  {
    var n := |commits| - 1;
    if i < n {
      var before := commits[..n];
      assert commits == before + [commits[n]];
      WordKept(content, before, i, remote, node);
      assert NoneBlank(commits, i) <==> NoneBlank(before, i) && !commits[n].blank;
      assert !Writes(commits[n], remote, node);
    }
  }

  lemma {:induction false} KeptUnlessBlank(content: Summary, commits: seq<Commit>, i: nat, remote: string, node: string)
    requires i < |commits| && Writes(commits[i], remote, node) && OthersFollow(commits, i, remote, node)
    ensures NodeOf(Replay(content, commits), remote, node) == Some(commits[i].update.data) <==> NoneBlank(commits, i)
  {
    LatestWordStored(content, commits, remote, node);
    WordKept(content, commits, i, remote, node);
  }

  /** In this action process `i` reads the cache, and the read fails. */
  predicate ReadFails(t: State, a: Action, i: nat) {
    a.Proceed? && a.proc == i && a.fails && i < |t.procs| && t.procs[i].phase.Holding?
  }

  predicate ReadFailsAt(s: State, run: seq<Action>, k: nat, i: nat)
    requires k < |run|
  {
    ReadFails(After(s, run[..k]), run[k], i)
  }

  /** Before action `hi` of the run, the read of process `i` failed. */
  ghost predicate ReadFailed(s: State, run: seq<Action>, i: nat, hi: nat)
    requires hi <= |run|
  {
    exists k | 0 <= k < hi :: ReadFailsAt(s, run, k, i)
  }

  lemma ReadFailedOneMore(s: State, run: seq<Action>, i: nat, hi: nat)
    requires hi < |run|
    ensures ReadFailed(s, run, i, hi + 1) <==> ReadFailed(s, run, i, hi) || ReadFailsAt(s, run, hi, i)
  {
    if ReadFailsAt(s, run, hi, i) {
      assert ReadFailed(s, run, i, hi + 1);
    }
  }

  /** A process knows whether its read failed, and none failed before it was made. */
  predicate Remembers(t: State, i: nat, failed: bool) {
    i < |t.procs| ==>
      match t.procs[i].phase
      case Waiting => !failed
      case Holding => !failed
      case Loaded(_, f) => f == failed
      case Seen(_, f, _) => f == failed
      case _ => true
  }

  lemma StepRemembers(t: State, a: Action, i: nat, failed: bool)
    requires Remembers(t, i, failed)
    ensures Remembers(Step(t, a), i, failed || ReadFails(t, a, i))
  {
  }

  lemma {:induction false} ReadsRemembered(s: State, run: seq<Action>, hi: nat, i: nat)
    requires Initial(s) && hi <= |run|
    ensures Remembers(After(s, run[..hi]), i, ReadFailed(s, run, i, hi))
    decreases hi
  {
    if hi > 0 {
      ReadsRemembered(s, run, hi - 1, i);
      ReadFailedOneMore(s, run, i, hi - 1);
      AfterPrefix(s, run, hi - 1);
      StepRemembers(After(s, run[..hi - 1]), run[hi - 1], i, ReadFailed(s, run, i, hi - 1));
    }
  }

  /** A step that commits does so for a writer that has read, and no finished process reads. */
  lemma StepCommits(content: Summary, t: State, a: Action, c: nat)
    requires Inv(content, t) && c < |Step(t, a).commits|
    ensures c < |t.commits| ==> Step(t, a).commits[c] == t.commits[c] && !ReadFails(t, a, t.commits[c].writer)
    ensures c >= |t.commits| ==>
              && Enabled(t, a) && t.procs[a.proc].phase.Loaded? && !ReadFails(t, a, a.proc)
              && Step(t, a).commits[c].writer == a.proc && Step(t, a).commits[c].blank == t.procs[a.proc].phase.failed
  {
    if c < |t.commits| {
      assert CommitInv(t, c);
    }
  }

  /** A write starts from nothing exactly if the read of its writer failed in the run. */
  lemma {:induction false} BlankExactly(s: State, run: seq<Action>, hi: nat, c: nat)
    requires Initial(s) && hi <= |run| && c < |After(s, run[..hi]).commits|
    ensures var commit := After(s, run[..hi]).commits[c];
            commit.blank <==> ReadFailed(s, run, commit.writer, hi)
    decreases hi
  {
    if hi > 0 {
      var t := After(s, run[..hi - 1]);
      AfterPrefix(s, run, hi - 1);
      RunKeepsInv(Content(s), s, run[..hi - 1]);
      StepCommits(Content(s), t, run[hi - 1], c);
      ReadFailedOneMore(s, run, Step(t, run[hi - 1]).commits[c].writer, hi - 1);
      if c < |t.commits| {
        BlankExactly(s, run, hi - 1, c);
      } else {
        ReadsRemembered(s, run, hi - 1, run[hi - 1].proc);
      }
    }
  }

  /** The read of none of the writers of later commits failed in the run. */
  ghost predicate LaterReadsWork(s: State, run: seq<Action>, commits: seq<Commit>, i: nat) {
    forall j | i < j < |commits| :: !ReadFailed(s, run, commits[j].writer, |run|)
  }

  /** In every run, a node's update is not lost to later writes of other nodes if and only if the read of
      none of their writers failed. */
  lemma {:induction false} KeptExactly(s: State, run: seq<Action>, i: nat, remote: string, node: string)
    requires Initial(s)
    requires var commits := After(s, run).commits;
             i < |commits| && Writes(commits[i], remote, node) && OthersFollow(commits, i, remote, node)
    ensures var t := After(s, run);
            NodeOf(Content(t), remote, node) == Some(t.commits[i].update.data) <==> LaterReadsWork(s, run, t.commits, i)
  {
    var commits := After(s, run).commits;
    EveryRunIsSerial(s, run);
    KeptUnlessBlank(Content(s), commits, i, remote, node);
    assert run[..|run|] == run;
    forall j | i < j < |commits| ensures commits[j].blank <==> ReadFailed(s, run, commits[j].writer, |run|) {
      BlankExactly(s, run, |run|, j);
    }
  }

  /** Every action of the run is possible when it comes. */
  ghost predicate Executable(s: State, run: seq<Action>) {
    forall k | 0 <= k < |run| :: Enabled(After(s, run[..k]), run[k])
  }

  /** The action leads from one state to the next. */
  predicate Leads(t: State, a: Action, t': State) {
    Enabled(t, a) && t' == Do(t, a)
  }

  /** The run goes through these states. */
  ghost predicate GoesThrough(run: seq<Action>, states: seq<State>) {
    |states| == |run| + 1 && forall k | 0 <= k < |run| :: Leads(states[k], run[k], states[k + 1])
  }

  lemma {:induction false} StatesReached(run: seq<Action>, states: seq<State>, k: nat)
    requires GoesThrough(run, states) && k <= |run|
    ensures After(states[0], run[..k]) == states[k]
    decreases k
  {
    if k > 0 {
      StatesReached(run, states, k - 1);
      AfterPrefix(states[0], run, k - 1);
      assert Leads(states[k - 1], run[k - 1], states[k]);
    }
  }

  lemma {:induction false} RunReaches(run: seq<Action>, states: seq<State>)
    requires GoesThrough(run, states)
    ensures Executable(states[0], run) && After(states[0], run) == states[|run|]
  {
    forall k | 0 <= k < |run| ensures Enabled(After(states[0], run[..k]), run[k]) {
      StatesReached(run, states, k);
      assert Leads(states[k], run[k], states[k + 1]);
    }
    StatesReached(run, states, |run|);
    assert run[..|run|] == run;
  }

  lemma LockStep(t: State, i: nat, now: int)
    requires t.exclusive.None? && t.shared == {} && i < |t.procs| && t.procs[i].job.Writer? && t.procs[i].phase.Waiting?
    ensures Enabled(t, Proceed(i, false, now))
    ensures Do(t, Proceed(i, false, now)) == Moved(t, i, Holding).(exclusive := Some(i))
  {
  }

  lemma ReadStep(t: State, i: nat, fails: bool, now: int)
    requires i < |t.procs| && t.procs[i].job.Writer? && t.procs[i].phase.Holding?
    ensures Enabled(t, Proceed(i, fails, now))
    ensures Do(t, Proceed(i, fails, now)) == Moved(t, i, Loaded(SummaryOrDefault(t.entry, fails), fails))
  {
  }

  lemma WriteStep(t: State, i: nat, now: int)
    requires i < |t.procs| && t.procs[i].job.Writer? && t.procs[i].phase.Loaded? && t.exclusive == Some(i)
    ensures Enabled(t, Proceed(i, false, now))
    ensures var p := t.procs[i];
            Do(t, Proceed(i, false, now))
            == State(Some(Cache.Stored(now, Edit(p.job.update, p.phase.content))), None, t.shared - {i},
                     t.procs[i := Process(p.job, Done)], t.commits + [Commit(i, p.job.update, p.phase.failed)])
  {
  }

  /** What a waiting writer makes of a cache that is not locked. */
  function Written(t: State, i: nat, readFails: bool, now: int): State
    requires i < |t.procs| && t.procs[i].job.Writer?
  {
    var job := t.procs[i].job;
    State(Some(Cache.Stored(now, Edit(job.update, SummaryOrDefault(t.entry, readFails)))), None, {},
          t.procs[i := Process(job, Done)], t.commits + [Commit(i, job.update, readFails)])
  }

  /** A waiting writer that nobody disturbs takes the lock, reads, and commits what it makes of the
      cache, or of nothing. */
  lemma WriterSteps(t: State, i: nat, readFails: bool, now: int) returns (t1: State, t2: State)
    requires t.exclusive.None? && t.shared == {} && i < |t.procs| && t.procs[i].job.Writer? && t.procs[i].phase.Waiting?
    ensures Leads(t, Proceed(i, false, now), t1) && Leads(t1, Proceed(i, readFails, now), t2)
    ensures Leads(t2, Proceed(i, false, now), Written(t, i, readFails, now))
  {
    t1 := Moved(t, i, Holding).(exclusive := Some(i));
    LockStep(t, i, now);
    t2 := Moved(t1, i, Loaded(SummaryOrDefault(t.entry, readFails), readFails));
    ReadStep(t1, i, readFails, now);
    WriteStep(t2, i, now);
    assert t2.procs[i := Process(t.procs[i].job, Done)] == t.procs[i := Process(t.procs[i].job, Done)];
  }

  /** Two writers one after the other, the second one failing to read: lock, read and write of each. */
  function TwoWriters(i: nat, j: nat, now: int): seq<Action> {
    [Proceed(i, false, now), Proceed(i, false, now), Proceed(i, false, now),
     Proceed(j, false, now), Proceed(j, true, now), Proceed(j, false, now)]
  }

  lemma TwoWritersGoThrough(s: State, i: nat, j: nat, now: int) returns (states: seq<State>)
    requires Initial(s) && i < |s.procs| && j < |s.procs| && i != j && s.procs[i].job.Writer? && s.procs[j].job.Writer?
    ensures GoesThrough(TwoWriters(i, j, now), states) && states[0] == s
    ensures states[6] == Written(Written(s, i, false, now), j, true, now)
  {
    var s1, s2 := WriterSteps(s, i, false, now);
    var s3 := Written(s, i, false, now);
    var s4, s5 := WriterSteps(s3, j, true, now);
    states := [s, s1, s2, s3, s4, s5, Written(s3, j, true, now)];
  }

  /** One failed read loses the summaries of all other nodes: a run in which two writers complete and
      only the second one's node is left. */
  lemma {:induction false} FailedReadLosesNodes(s: State, data: NodeSummary)
    requires Initial(s)
    requires s.procs == [Process(Writer(NodeUpdate("a", Pve, "x", data)), Waiting),
                         Process(Writer(NodeUpdate("b", Pve, "y", data)), Waiting)]
    ensures Executable(s, TwoWriters(0, 1, 0))
    ensures var t := After(s, TwoWriters(0, 1, 0));
            && (forall p | p in t.procs :: p.phase.Done?)
            && NodeOf(Content(t), "a", "x") == None && NodeOf(Content(t), "b", "y") == Some(data)
  {
    var states := TwoWritersGoThrough(s, 0, 1, 0);
    RunReaches(TwoWriters(0, 1, 0), states);
  }

  // ---------------------------------------------------------------------------------------------
  // Readers and locks

  /** A reader that has seen the cache when the run is in this state has seen at least `n` commits. */
  predicate SeesAtLeast(t: State, i: nat, n: nat) {
    |t.commits| >= n && (i < |t.procs| && t.procs[i].phase.Seen? ==> t.procs[i].phase.at >= n)
  }

  lemma StepSees(t: State, a: Action, i: nat, n: nat)
    requires SeesAtLeast(t, i, n)
    ensures SeesAtLeast(Step(t, a), i, n)
  {
  }

  lemma {:induction false} SeesEarlier(s: State, run: seq<Action>, lo: nat, hi: nat, i: nat)
    requires lo <= hi <= |run| && SeesAtLeast(After(s, run[..lo]), i, |After(s, run[..lo]).commits|)
    ensures SeesAtLeast(After(s, run[..hi]), i, |After(s, run[..lo]).commits|)
    decreases hi
  {
    if lo < hi {
      SeesEarlier(s, run, lo, hi - 1, i);
      AfterPrefix(s, run, hi - 1);
      StepSees(After(s, run[..hi - 1]), run[hi - 1], i, |After(s, run[..lo]).commits|);
    }
  }

  /** A reader that has not yet got its lock at some point of the run sees every write committed by then,
      and nothing at all exactly if its read fails. */
  lemma {:induction false} ReaderSeesCommits(s: State, run: seq<Action>, lo: nat, i: nat)
    requires Initial(s) && lo <= |run| && i < |s.procs|
    requires i < |After(s, run[..lo]).procs| && After(s, run[..lo]).procs[i].phase.Waiting?
    requires i < |After(s, run).procs| && After(s, run).procs[i].phase.Seen?
    ensures var t := After(s, run);
            var seen := t.procs[i].phase;
            && |After(s, run[..lo]).commits| <= seen.at <= |t.commits|
            && (seen.failed <==> ReadFailed(s, run, i, |run|))
            && seen.content == if seen.failed then map[] else Replay(Content(s), t.commits[..seen.at])
  {
    assert run[..|run|] == run;
    EveryRunIsSerial(s, run);
    ReadsRemembered(s, run, |run|, i);
    SeesEarlier(s, run, lo, |run|, i);
  }

  /** The process holds the lock. */
  predicate InSection(p: Process) {
    p.phase.Holding? || p.phase.Loaded?
  }

  /** In every run a waiting reader can get its lock exactly if no writer has it, so readers share it; a
      waiting writer exactly if nobody has it. */
  lemma {:induction false} LockFreeExactly(s: State, run: seq<Action>, i: nat, now: int)
    requires Initial(s)
    requires var t := After(s, run); i < |t.procs| && t.procs[i].phase.Waiting?
    ensures var t := After(s, run);
            Enabled(t, Proceed(i, false, now)) <==>
            forall p | p in t.procs && InSection(p) :: t.procs[i].job.Reader? && p.job.Reader?
  {
    var t := After(s, run);
    RunKeepsInv(Content(s), s, run);
    forall p | p in t.procs && InSection(p)
      ensures (p.job.Writer? ==> t.exclusive.Some?) && (p.job.Reader? ==> t.shared != {})
    {
      var j :| 0 <= j < |t.procs| && t.procs[j] == p;
      assert LockInv(t, j);
    }
    if t.exclusive.Some? {
      assert LockInv(t, t.exclusive.value) && t.procs[t.exclusive.value] in t.procs;
    } else if t.shared != {} {
      SharedHeld(s, run);
    }
  }

  /** A shared lock is held by a process that is in the run. */
  lemma {:induction false} SharedKnown(s: State, run: seq<Action>)
    requires Initial(s)
    ensures |After(s, run).procs| == |s.procs| && forall j | j in After(s, run).shared :: j < |s.procs|
  {
    if run != [] {
      SharedKnown(s, run[..|run| - 1]);
    }
  }

  lemma {:induction false} SharedHeld(s: State, run: seq<Action>)
    requires Initial(s) && After(s, run).shared != {}
    ensures exists p | p in After(s, run).procs :: InSection(p) && p.job.Reader?
  {
    var t := After(s, run);
    SharedKnown(s, run);
    RunKeepsInv(Content(s), s, run);
    var j :| j in t.shared;
    assert LockInv(t, j);
    assert t.procs[j] in t.procs;
  }

  // ---------------------------------------------------------------------------------------------
  // Who fails

  /** The action ends process `i` badly: it is killed, or it does not get its lock, or its write fails. A
      failing read does not. */
  predicate EndsBadly(t: State, a: Action, i: nat) {
    && Enabled(t, a) && a.proc == i
    && (a.Kill? || (a.fails && (t.procs[i].phase.Waiting? || t.procs[i].phase.Loaded?)))
  }

  predicate EndsBadlyAt(s: State, run: seq<Action>, k: nat, i: nat)
    requires k < |run|
  {
    EndsBadly(After(s, run[..k]), run[k], i)
  }

  lemma StepFails(content: Summary, t: State, a: Action, i: nat)
    requires Inv(content, t) && i < |t.procs|
    ensures i < |Step(t, a).procs|
    ensures Step(t, a).procs[i].phase.Failed? <==> t.procs[i].phase.Failed? || EndsBadly(t, a, i)
  {
    assert LockInv(t, i);
  }

  /** Before action `hi` of the run, process `i` ended badly. */
  ghost predicate EndedBadly(s: State, run: seq<Action>, i: nat, hi: nat)
    requires hi <= |run|
  {
    exists k | 0 <= k < hi :: EndsBadlyAt(s, run, k, i)
  }

  lemma EndedBadlyOneMore(s: State, run: seq<Action>, i: nat, hi: nat)
    requires hi < |run|
    ensures EndedBadly(s, run, i, hi + 1) <==> EndedBadly(s, run, i, hi) || EndsBadlyAt(s, run, hi, i)
  {
    if EndsBadlyAt(s, run, hi, i) {
      assert EndedBadly(s, run, i, hi + 1);
    }
  }

  predicate HasFailed(t: State, i: nat) {
    i < |t.procs| && t.procs[i].phase.Failed?
  }

  /** In every run a process fails exactly if it is killed, does not get its lock, or cannot write: a reader
      that gets its lock is served, and a writer that gets its lock and can write commits. */
  lemma {:induction false} FailsExactly(s: State, run: seq<Action>, hi: nat, i: nat)
    requires Initial(s) && hi <= |run| && i < |s.procs|
    ensures HasFailed(After(s, run[..hi]), i) <==> EndedBadly(s, run, i, hi)
    decreases hi
  {
    if hi > 0 {
      FailsExactly(s, run, hi - 1, i);
      SharedKnown(s, run[..hi - 1]);
      RunKeepsInv(Content(s), s, run[..hi - 1]);
      StepFails(Content(s), After(s, run[..hi - 1]), run[hi - 1], i);
      EndedBadlyOneMore(s, run, i, hi - 1);
      AfterPrefix(s, run, hi - 1);
    }
  }

  /** A process that goes on takes its next step: a reader with its lock has then seen the cache, a writer
      has loaded it, and a writer that has loaded it is done. */
  lemma GoesForward(content: Summary, t: State, a: Action)
    requires Inv(content, t) && Enabled(t, a) && a.Proceed? && !EndsBadly(t, a, a.proc)
    ensures match t.procs[a.proc].phase
            case Waiting => Step(t, a).procs[a.proc].phase == Holding
            case Holding =>
              if t.procs[a.proc].job.Writer? then Step(t, a).procs[a.proc].phase.Loaded?
              else Step(t, a).procs[a.proc].phase.Seen?
            case Loaded(_, _) => Step(t, a).procs[a.proc].phase == Done
            case _ => true
  {
    assert LockInv(t, a.proc);
  }
}
