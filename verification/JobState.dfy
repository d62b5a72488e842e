/** The persisted state of a scheduled job of server/src/jobstate.rs: a state file written under a lock
    by sessions that start and finish the job, and by schedule changes. */
module JobState {
  import opened Basics

  /** A task id as stored, with the start time it names if it is well-formed. */
  datatype Upid = Upid(text: string, starttime: int) | Malformed(text: string)

  datatype TaskResult =
    | TaskOk(endtime: int)
    | TaskWarning(endtime: int, count: nat)
    | TaskError(endtime: int, message: string)
    | TaskUnknown(endtime: int)

  datatype JobState =
    | Created(time: int)
    | Started(upid: Upid)
    | Finished(upid: Upid, result: TaskResult, updated: Option<int>)

  /** A task id in the state file cannot be parsed. */
  datatype LoadError = BadUpid

  // ---------------------------------------------------------------------------------------------
  // Reading

  /** What the system knows about a task: whether it runs, and how it ended if that is recorded. */
  datatype Worker = Worker(active: bool, status: Option<TaskResult>)

  /** The state of a job as read at time `now`. A task that is recorded as started but does not run any
      more has finished. */
  function Load(file: Option<JobState>, now: int, worker: Worker): Result<JobState, LoadError> {
    match file
    case None => Ok(Created(now - 30))
    case Some(Started(upid)) =>
      if upid.Malformed? then Err(BadUpid)
      else if worker.active then Ok(Started(upid))
      else Ok(Finished(upid, if worker.status.Some? then worker.status.value else TaskUnknown(upid.starttime), None))
    case Some(other) => Ok(other)
  }

  function LastRunTime(file: Option<JobState>, now: int, worker: Worker): Result<int, LoadError> {
    match Load(file, now, worker)
    case Err(e) => Err(e)
    case Ok(Created(time)) => Ok(time)
    case Ok(Finished(_, _, Some(time))) => Ok(time)
    case Ok(other) => if other.upid.Malformed? then Err(BadUpid) else Ok(other.upid.starttime)
  }

  /** The last run time that a state file records. */
  function LastRun(state: JobState): Option<int> {
    match state
    case Created(time) => Some(time)
    case Finished(_, _, Some(time)) => Some(time)
    case _ => if state.upid.Malformed? then None else Some(state.upid.starttime)
  }

  /** Whether the task still runs, and how it ended, does not matter for the last run time. */
  lemma LastRunIsRecorded(state: JobState, now: int, worker: Worker)
    ensures LastRunTime(Some(state), now, worker)
            == match LastRun(state) case Some(time) => Ok(time) case None => Err(BadUpid)
  {
  }

  /** Without a state file the job counts as created half a minute ago. */
  lemma MissingFileRead(now: int, worker: Worker)
    ensures Load(None, now, worker) == Ok(Created(now - 30)) && LastRunTime(None, now, worker) == Ok(now - 30)
  {
  }

  /** A task on record as started reads as running while its worker runs; after that as finished, with the
      result the worker left, or with an unknown one as of its start time. A result on record is read as it
      is, and so is the time of creation. */
  lemma RecordRead(state: JobState, now: int, worker: Worker)
    ensures match state
            case Started(Upid(text, starttime)) =>
              if worker.active then Load(Some(state), now, worker) == Ok(state)
              else if worker.status.Some? then
                Load(Some(state), now, worker) == Ok(Finished(state.upid, worker.status.value, None))
              else Load(Some(state), now, worker) == Ok(Finished(state.upid, TaskUnknown(starttime), None))
            case Started(Malformed(_)) => Load(Some(state), now, worker) == Err(BadUpid)
            case _ => Load(Some(state), now, worker) == Ok(state)
  {
  }

  // ---------------------------------------------------------------------------------------------
  // Sessions

  /** A job's state in memory and on disk, and whether the operation that led there succeeded. */
  datatype Outcome = Outcome(state: JobState, file: Option<JobState>, ok: bool)

  function Write(state: JobState, file: Option<JobState>, fails: bool): Outcome {
    Outcome(state, if fails then file else Some(state), !fails)
  }

  function StartOutcome(state: JobState, file: Option<JobState>, upid: Upid, fails: bool): Outcome {
    if state.Started? then Outcome(state, file, false) else Write(Started(upid), file, fails)
  }

  function FinishOutcome(state: JobState, file: Option<JobState>, result: TaskResult, fails: bool): Outcome {
    if state.Created? then Outcome(state, file, false) else Write(Finished(state.upid, result, None), file, fails)
  }

  class StateFile {
    var content: Option<JobState>

    constructor (content: Option<JobState>)
      ensures this.content == content
    {
      this.content := content;
    }
  }

  /** A job whose lock is held. */
  class Job {
    const file: StateFile
    var state: JobState

    constructor (file: StateFile, now: int)
      ensures this.file == file && state == Created(now)
    {
      this.file, state := file, Created(now);
    }

    method WriteState(fails: bool) returns (ok: bool)
      modifies file
      ensures Outcome(state, file.content, ok) == Write(state, old(file.content), fails)
    {
      if !fails {
        file.content := Some(state);
      }
      ok := !fails;
    }

    /** Starts the job with a task, unless it is started already. From then on every reader gets the
        task's start time, whether the task runs or not; an error leaves the file alone. */
    method Start(upid: Upid, fails: bool) returns (ok: bool)
      modifies this, file
      ensures Outcome(state, file.content, ok) == StartOutcome(old(state), old(file.content), upid, fails)
      ensures ok <==> !old(state).Started? && !fails
      ensures ok && upid.Upid? ==> forall now, worker :: LastRunTime(file.content, now, worker) == Ok(upid.starttime)
      ensures ok && upid.Upid? ==> forall now, worker ::
                Load(file.content, now, worker).Ok? && Load(file.content, now, worker).value.Started? == worker.active
      ensures !ok ==> file.content == old(file.content)
    {
      if state.Started? {
        return false;
      }
      state := Started(upid);
      ok := WriteState(fails);
    }

    /** Records how the task ended, unless none was started. Readers get this result and the start time
        of the same task, whatever became of the worker; an error leaves the file alone. */
    method Finish(result: TaskResult, fails: bool) returns (ok: bool)
      modifies this, file
      ensures Outcome(state, file.content, ok) == FinishOutcome(old(state), old(file.content), result, fails)
      ensures ok <==> !old(state).Created? && !fails
      ensures ok ==> forall now, worker ::
                Load(file.content, now, worker) == Ok(Finished(old(state).upid, result, None))
      ensures ok && old(state).upid.Upid? ==> forall now, worker ::
                LastRunTime(file.content, now, worker) == Ok(old(state).upid.starttime)
      ensures !ok ==> file.content == old(file.content)
    {
      match state {
        case Created(_) => return false;
        case Started(upid) => state := Finished(upid, result, None);
        case Finished(upid, _, _) => state := Finished(upid, result, None);
      }
      ok := WriteState(fails);
    }
  }

  /** The state that a schedule change writes, if any. */
  function Rescheduled(file: Option<JobState>, now: int, worker: Worker): Option<JobState> {
    match Load(file, now, worker)
    case Ok(Created(_)) => Some(Created(now))
    case Ok(Finished(upid, result, _)) => Some(Finished(upid, result, Some(now)))
    case _ => None
  }

  /** Sets the last run time when the schedule changes, unless the job is locked or runs. From then on
      every reader gets the current time, whatever became of the worker. */
  method UpdateLastRunTime(file: StateFile, locked: bool, now: int, worker: Worker, fails: bool) returns (ok: bool)
    modifies file
    ensures file.content
            == if !locked && !fails && Rescheduled(old(file.content), now, worker).Some?
               then Rescheduled(old(file.content), now, worker) else old(file.content)
    ensures ok <==> locked || (Load(old(file.content), now, worker).Ok?
                               && (fails ==> Rescheduled(old(file.content), now, worker).None?))
    ensures file.content != old(file.content) ==>
              forall time, w :: LastRunTime(file.content, time, w) == Ok(now)
    ensures !locked && !fails && Load(old(file.content), now, worker).Ok?
            && !Load(old(file.content), now, worker).value.Started? ==>
              forall time, w :: LastRunTime(file.content, time, w) == Ok(now)
    ensures old(file.content).Some? && old(file.content).value.Started? && worker.active ==>
              file.content == old(file.content)
    ensures !locked && !fails && (old(file.content).None? || old(file.content).value.Created?) ==>
              file.content == Some(Created(now)) && ok
    ensures !locked && !fails && old(file.content).Some? ==>
              match old(file.content).value
              case Finished(upid, result, _) => file.content == Some(Finished(upid, result, Some(now))) && ok
              case Started(Upid(text, starttime)) =>
                !worker.active ==>
                  && ok
                  && var result := if worker.status.Some? then worker.status.value else TaskUnknown(starttime);
                     file.content == Some(Finished(Upid(text, starttime), result, Some(now)))
              case _ => true
    ensures locked || fails ==> file.content == old(file.content)
  {
    if locked {
      return true;
    }
    var job := new Job(file, now);
    var loaded := Load(file.content, now, worker);
    match loaded {
      case Err(_) => return false;
      case Ok(Created(_)) => job.state := Created(now);
      case Ok(Started(_)) => return true;
      case Ok(Finished(upid, result, _)) => job.state := Finished(upid, result, Some(now));
    }
    ok := job.WriteState(fails);
  }

  /** Writes a new state file, whatever there was, unless the job is locked. */
  method CreateStateFile(file: StateFile, locked: bool, now: int, fails: bool) returns (ok: bool)
    modifies file
    ensures ok <==> !locked && !fails
    ensures file.content == if ok then Some(Created(now)) else old(file.content)
    ensures ok ==> forall time, w :: LastRunTime(file.content, time, w) == Ok(now)
  {
    if locked {
      return false;
    }
    var job := new Job(file, now);
    ok := job.WriteState(fails);
  }

  // ---------------------------------------------------------------------------------------------
  // Runs

  /** The session that holds the lock. `written` is the start time it last put into the file. */
  datatype Session = Session(since: int, state: JobState, written: Option<int>)

  /** `latest` is the task of the last accepted start; `unsaved` says that no write of it succeeded. */
  datatype State = State(
    now: int,
    file: Option<JobState>,
    session: Option<Session>,
    latest: Option<Upid>,
    unsaved: bool)

  /** Closing stands for the end of a session as well as for a crash. */
  datatype Action =
    | Tick(elapsed: nat)
    | Open
    | Start(upid: Upid, fails: bool)
    | Finish(result: TaskResult, fails: bool)
    | Close
    | Create(fails: bool)
    | Reschedule(worker: Worker, fails: bool)

  function WrittenAfter(session: Session, o: Outcome): Option<int> {
    if o.ok && !o.state.Created? && !o.state.upid.Malformed? then Some(o.state.upid.starttime) else session.written
  }

  function Step(s: State, a: Action): State {
    match a
    case Tick(elapsed) => s.(now := s.now + elapsed)
    case Open => if s.session.Some? then s else s.(session := Some(Session(s.now, Created(s.now), None)))
    case Start(upid, fails) =>
      if s.session.None? || s.session.value.state.Started? then s
      else
        var o := StartOutcome(s.session.value.state, s.file, upid, fails);
        s.(file := o.file, latest := Some(upid), unsaved := !o.ok,
        session := Some(s.session.value.(state := o.state, written := WrittenAfter(s.session.value, o))))
    case Finish(result, fails) =>
      if s.session.None? || s.session.value.state.Created? then s
      else
        var o := FinishOutcome(s.session.value.state, s.file, result, fails);
        s.(file := o.file, unsaved := s.unsaved && !o.ok,
        session := Some(s.session.value.(state := o.state, written := WrittenAfter(s.session.value, o))))
    case Close => s.(session := None)
    case Create(fails) => if s.session.Some? then s else s.(file := Write(Created(s.now), s.file, fails).file)
    case Reschedule(worker, fails) =>
      var r := Rescheduled(s.file, s.now, worker);
      if s.session.Some? || r.None? || fails then s else s.(file := r)
  }

  function After(s: State, run: seq<Action>): State {
    if run == [] then s else Step(After(s, run[..|run| - 1]), run[|run| - 1])
  }

  /** What each action does to the state file. An accepted start or finish, a creation and a schedule change
      write it, unless the write fails; the last two only if no session holds the lock. */
  lemma FileAfter(s: State, a: Action)
    ensures var file := Step(s, a).file;
            match a
            case Start(upid, fails) =>
              file == if s.session.Some? && !s.session.value.state.Started?
                && !fails then Some(Started(upid)) else s.file
            case Finish(result, fails) =>
              file == if s.session.Some? && !s.session.value.state.Created? && !fails
                      then Some(Finished(s.session.value.state.upid, result, None)) else s.file
            case Create(fails) =>
              file == if s.session.None? && !fails then Some(Created(s.now)) else s.file
            case Reschedule(worker, fails) =>
              if s.session.Some? || fails then file == s.file
              else
                (match Load(s.file, s.now, worker)
                 case Ok(Created(_)) => file == Some(Created(s.now))
                 case Ok(Finished(upid, result, _)) => file == Some(Finished(upid, result, Some(s.now)))
                 case _ => file == s.file)
            case _ => file == s.file
  {
  }

  /** What each action does to the session: it is opened in the created state if there is none, holds the
      task of a start it accepts even if the write fails, and is gone after closing. */
  lemma SessionAfter(s: State, a: Action)
    ensures var session := Step(s, a).session;
            match a
            case Open =>
              if s.session.Some? then session == s.session
              else session.Some? && session.value.state == Created(s.now) && session.value.since == s.now
            case Start(upid, _) =>
              if s.session.None? || s.session.value.state.Started? then session == s.session
              else session.Some? && session.value.state == Started(upid)
            case Finish(result, _) =>
              if s.session.None? || s.session.value.state.Created? then session == s.session
              else session.Some? && session.value.state == Finished(s.session.value.state.upid, result, None)
            case Close => session == None
            case _ => session == s.session
  {
  }

  // ---------------------------------------------------------------------------------------------
  // The last run time never decreases

  /** The start time a job state in memory names. */
  function Named(state: JobState): Option<int> {
    if state.Created? || state.upid.Malformed? then None else Some(state.upid.starttime)
  }

  ghost predicate SessionInv(s: State, session: Session, last: int) {
    && session.since <= s.now
    && (session.state.Created? || (Named(session.state).Some? && session.since <= Named(session.state).value <= s.now))
    && (session.written.None? ==> last <= session.since)
    && (session.written.Some? ==> last == session.written.value && session.since <= last)
    && (session.state.Created? ==> session.written.None?)
  }

  /** The state file exists, and no time in it lies in the future. */
  ghost predicate Inv(s: State) {
    && s.file.Some? && LastRun(s.file.value).Some? && LastRun(s.file.value).value <= s.now
    && (s.session.Some? ==> SessionInv(s, s.session.value, LastRun(s.file.value).value))
  }

  /** A task started in a session is created between the opening of the session and the start. */
  ghost predicate Timely(s: State, a: Action) {
    a.Start? && s.session.Some? ==>
      && a.upid.Upid? && s.session.value.since <= a.upid.starttime <= s.now
  }

  /** The task was not created before the one that the session started last. */
  ghost predicate InOrder(s: State, a: Action) {
    a.Start? && s.session.Some? && Named(s.session.value.state).Some? && a.upid.Upid? ==>
      Named(s.session.value.state).value <= a.upid.starttime
  }

  /** What the session wrote is not later than what it has in memory. */
  ghost predicate WrittenInv(s: State) {
    s.session.Some? && s.session.value.written.Some? ==>
      && Named(s.session.value.state).Some?
      && s.session.value.written.value <= Named(s.session.value.state).value
  }

  lemma StepKeepsInv(s: State, a: Action)
    requires Inv(s) && Timely(s, a)
    ensures Inv(Step(s, a))
  {
  }

  lemma StepKeepsOrder(s: State, a: Action)
    requires Inv(s) && WrittenInv(s) && Timely(s, a) && InOrder(s, a)
    ensures WrittenInv(Step(s, a))
    ensures LastRun(Step(s, a).file.value).Some?
    ensures LastRun(s.file.value).value <= LastRun(Step(s, a).file.value).value
  {
  }

  /** Every start of the run is timely, and in order within its session. */
  ghost predicate Orderly(s: State, run: seq<Action>) {
    forall k | 0 <= k < |run| :: Timely(After(s, run[..k]), run[k]) && InOrder(After(s, run[..k]), run[k])
  }

  /** Over any run of sessions, crashes, failed writes and schedule changes, the last run time that an
      unlocked reader gets never decreases. */
  lemma {:induction false} LastRunNeverDecreases(s: State, run: seq<Action>, worker: Worker, worker': Worker)
    requires Inv(s) && WrittenInv(s) && Orderly(s, run)
    ensures Inv(After(s, run)) && WrittenInv(After(s, run))
    ensures var (before, after) := (LastRunTime(s.file, s.now, worker),
                                    LastRunTime(After(s, run).file, After(s, run).now, worker'));
            before.Ok? && after.Ok? && before.value <= after.value
  {
    LastRunIsRecorded(s.file.value, s.now, worker);
    if run != [] {
      var n := |run| - 1;
      var earlier := run[..n];
      assert forall k | 0 <= k < n :: earlier[..k] == run[..k] && earlier[k] == run[k];
      LastRunNeverDecreases(s, earlier, worker, worker');
      LastRunIsRecorded(After(s, earlier).file.value, After(s, earlier).now, worker');
      assert Timely(After(s, earlier), run[n]) && InOrder(After(s, earlier), run[n]);
      StepKeepsInv(After(s, earlier), run[n]);
      StepKeepsOrder(After(s, earlier), run[n]);
    }
    LastRunIsRecorded(After(s, run).file.value, After(s, run).now, worker');
  }

  /** The action writes a task whose start time is before one that its session already wrote. */
  predicate Lowers(s: State, a: Action) {
    && s.session.Some? && s.session.value.written.Some?
    && match a
       case Start(upid, fails) =>
         !fails && !s.session.value.state.Started? && upid.Upid? && upid.starttime < s.session.value.written.value
       case Finish(_, fails) =>
         && !fails && Named(s.session.value.state).Some?
         && Named(s.session.value.state).value < s.session.value.written.value
       case _ => false
  }

  /** Of all actions exactly these lower the last run time. */
  lemma StepLowersExactly(s: State, a: Action)
    requires Inv(s) && Timely(s, a)
    ensures Inv(Step(s, a))
    ensures LastRun(Step(s, a).file.value).value < LastRun(s.file.value).value <==> Lowers(s, a)
  {
    StepKeepsInv(s, a);
  }

  ghost predicate TimelyRun(s: State, run: seq<Action>) {
    forall k | 0 <= k < |run| :: Timely(After(s, run[..k]), run[k])
  }

  lemma {:induction false} TimelyKeepsInv(s: State, run: seq<Action>, k: nat)
    requires Inv(s) && TimelyRun(s, run) && k <= |run|
    ensures Inv(After(s, run[..k]))
    decreases k
  {
    if k > 0 {
      TimelyKeepsInv(s, run, k - 1);
      AfterPrefix(s, run, k - 1);
      StepKeepsInv(After(s, run[..k - 1]), run[k - 1]);
    }
  }

  /** What an unlocked reader gets after the first `k` actions. */
  function ReadAfter(s: State, run: seq<Action>, k: nat, worker: Worker): Result<int, LoadError>
    requires k <= |run|
  {
    LastRunTime(After(s, run[..k]).file, After(s, run[..k]).now, worker)
  }

  /** The last run time that readers get does not go down at action `k`. */
  ghost predicate NotLowerAt(s: State, run: seq<Action>, k: nat, worker: Worker)
    requires k < |run|
  {
    var before, after := ReadAfter(s, run, k, worker), ReadAfter(s, run, k + 1, worker);
    before.Ok? && after.Ok? && before.value <= after.value
  }

  ghost predicate LowersAt(s: State, run: seq<Action>, k: nat)
    requires k < |run|
  {
    Lowers(After(s, run[..k]), run[k])
  }

  /** In a run of timely starts the last run time that readers get never goes down from one action to
      the next if and only if no action of the run is a lowering one. */
  lemma RunLowersExactly(s: State, run: seq<Action>, worker: Worker)
    requires Inv(s) && TimelyRun(s, run)
    ensures (forall k | 0 <= k < |run| :: NotLowerAt(s, run, k, worker))
            <==> (forall k | 0 <= k < |run| :: !LowersAt(s, run, k))
  {
    forall k | 0 <= k < |run| ensures NotLowerAt(s, run, k, worker) <==> !LowersAt(s, run, k) {
      ReadLowersExactly(s, run, k, worker);
    }
  }

  lemma ReadLowersExactly(s: State, run: seq<Action>, k: nat, worker: Worker)
    requires Inv(s) && TimelyRun(s, run) && k < |run|
    ensures NotLowerAt(s, run, k, worker) <==> !LowersAt(s, run, k)
  {
    TimelyKeepsInv(s, run, k);
    AfterPrefix(s, run, k);
    var t, t' := After(s, run[..k]), After(s, run[..k + 1]);
    StepLowersExactly(t, run[k]);
    LastRunIsRecorded(t.file.value, t.now, worker);
    LastRunIsRecorded(t'.file.value, t'.now, worker);
  }

  /** The action leads from one state to the next, and is timely. */
  ghost predicate Leads(t: State, a: Action, t': State) {
    t' == Step(t, a) && Timely(t, a)
  }

  /** The run goes through these states. */
  ghost predicate GoesThrough(run: seq<Action>, states: seq<State>) {
    |states| == |run| + 1 && forall k | 0 <= k < |run| :: Leads(states[k], run[k], states[k + 1])
  }

  lemma {:induction false} StateReached(run: seq<Action>, states: seq<State>, k: nat)
    requires GoesThrough(run, states) && k <= |run|
    ensures After(states[0], run[..k]) == states[k]
    decreases k
  {
    if k > 0 {
      StateReached(run, states, k - 1);
      AfterPrefix(states[0], run, k - 1);
      assert Leads(states[k - 1], run[k - 1], states[k]);
    }
  }

  lemma {:induction false} RunReaches(run: seq<Action>, states: seq<State>)
    requires GoesThrough(run, states)
    ensures TimelyRun(states[0], run) && After(states[0], run) == states[|run|]
  {
    forall k | 0 <= k < |run| ensures Timely(After(states[0], run[..k]), run[k]) {
      StateReached(run, states, k);
      assert Leads(states[k], run[k], states[k + 1]);
    }
    StateReached(run, states, |run|);
    assert run[..|run|] == run;
  }

  /** A job whose session, opened at `since`, has run a first task. */
  function OnceRun(since: int, file: JobState, task: Upid): seq<State>
    requires task.Upid?
  {
    var done := Finished(task, TaskOk(task.starttime), None);
    [State(since, Some(file), None, None, false),
     State(since, Some(file), Some(Session(since, Created(since), None)), None, false),
     State(task.starttime, Some(file), Some(Session(since, Created(since), None)), None, false),
     State(task.starttime, Some(Started(task)), Some(Session(since, Started(task), Some(task.starttime))), Some(task),
           false),
     State(task.starttime, Some(done), Some(Session(since, done, Some(task.starttime))), Some(task), false)]
  }

  lemma OnceRunGoesThrough(since: int, file: JobState, task: Upid, elapsed: nat)
    requires task.Upid? && task.starttime == since + elapsed
    ensures GoesThrough([Open, Tick(elapsed), Start(task, false), Finish(TaskOk(task.starttime), false)],
                        OnceRun(since, file, task))
  {
  }

  /** A second start in one session can lower the last run time although its task was created during
      the session. */
  lemma RestartMayLower() returns (s: State, run: seq<Action>)
    ensures s == State(10, Some(Created(0)), None, None, false) && Inv(s) && TimelyRun(s, run)
    ensures run == [Open, Tick(5), Start(Upid("b", 15), false),
                    Finish(TaskOk(15), false)] + [Start(Upid("a", 12), false)]
    ensures After(s, run[..4]).file == Some(Finished(Upid("b", 15), TaskOk(15), None))
    ensures After(s, run).file == Some(Started(Upid("a", 12)))
  {
    var a, b := Upid("a", 12), Upid("b", 15);
    s := State(10, Some(Created(0)), None, None, false);
    run := [Open, Tick(5), Start(b, false), Finish(TaskOk(15), false)] + [Start(a, false)];
    var states := OnceRun(10, Created(0), b);
    OnceRunGoesThrough(10, Created(0), b, 5);
    var last := Step(states[4], Start(a, false));
    OneMoreState(run[..4], states, Start(a, false), last);
    RunReaches(run, states + [last]);
    StateReached(run, states + [last], 4);
  }

  lemma OneMoreState(run: seq<Action>, states: seq<State>, a: Action, t: State)
    requires GoesThrough(run, states) && Leads(states[|run|], a, t)
    ensures GoesThrough(run + [a], states + [t])
  {
    forall k | 0 <= k < |run + [a]| ensures Leads((states + [t])[k], (run + [a])[k], (states + [t])[k + 1]) {
      if k < |run| {
        assert Leads(states[k], run[k], states[k + 1]);
      }
    }
  }

  /** A finish can lower it too, if the write of a second start failed before. */
  lemma FinishMayLower() returns (s: State, run: seq<Action>)
    ensures s == State(10, Some(Created(0)), None, None, false) && Inv(s) && TimelyRun(s, run)
    ensures run == [Open, Tick(5), Start(Upid("b", 15), false), Finish(TaskOk(15), false)]
                   + [Start(Upid("a", 12), true)] + [Finish(TaskOk(16), false)]
    ensures After(s, run[..5]).file == Some(Finished(Upid("b", 15), TaskOk(15), None))
    ensures After(s, run).file == Some(Finished(Upid("a", 12), TaskOk(16), None))
  {
    var a, b := Upid("a", 12), Upid("b", 15);
    s := State(10, Some(Created(0)), None, None, false);
    var once := [Open, Tick(5), Start(b, false), Finish(TaskOk(15), false)];
    run := once + [Start(a, true)] + [Finish(TaskOk(16), false)];
    var states := OnceRun(10, Created(0), b);
    OnceRunGoesThrough(10, Created(0), b, 5);
    var t5 := Step(states[4], Start(a, true));
    OneMoreState(once, states, Start(a, true), t5);
    var t6 := Step(t5, Finish(TaskOk(16), false));
    OneMoreState(once + [Start(a, true)], states + [t5], Finish(TaskOk(16), false), t6);
    RunReaches(run, states + [t5] + [t6]);
    StateReached(run, states + [t5] + [t6], 5);
  }

  lemma {:induction false} AfterPrefix(s: State, run: seq<Action>, k: nat)
    requires k < |run|
    ensures After(s, run[..k + 1]) == Step(After(s, run[..k]), run[k])
  {
    assert run[..k + 1][..k] == run[..k];
  }

  // ---------------------------------------------------------------------------------------------
  // The recorded task

  /** Memory and file agree with the last accepted start, unless no write of it has succeeded yet. */
  ghost predicate LatestInv(s: State) {
    && (s.session.Some? && !s.session.value.state.Created? ==> s.latest == Some(s.session.value.state.upid))
    && (s.file.Some? && !s.file.value.Created? && !s.unsaved ==> s.latest == Some(s.file.value.upid))
  }

  ghost predicate NoFailedStart(run: seq<Action>) {
    forall k | 0 <= k < |run| && run[k].Start? :: !run[k].fails
  }

  lemma {:induction false} RunKeepsLatest(s: State, run: seq<Action>)
    requires LatestInv(s)
    ensures LatestInv(After(s, run))
    ensures !s.unsaved && NoFailedStart(run) ==> !After(s, run).unsaved
  {
    if run != [] {
      RunKeepsLatest(s, run[..|run| - 1]);
    }
  }

  /** The task of the last accepted start of a run that begins without a session. */
  function LatestStart(s: State, run: seq<Action>): Option<Upid> {
    if run == [] then s.latest
    else
      var n := |run| - 1;
      var t := After(s, run[..n]);
      if run[n].Start? && t.session.Some? && !t.session.value.state.Started? then Some(run[n].upid)
      else LatestStart(s, run[..n])
  }

  /** A recorded task, running or finished, is the one started last, if no write of a start failed. */
  lemma {:induction false} FinishedIsLatest(s: State, run: seq<Action>)
    requires LatestInv(s) && !s.unsaved && NoFailedStart(run)
    ensures var t := After(s, run);
            t.file.Some? && !t.file.value.Created? ==> LatestStart(s, run) == Some(t.file.value.upid)
  {
    RunKeepsLatest(s, run);
    LatestIsLast(s, run);
  }

  lemma {:induction false} LatestIsLast(s: State, run: seq<Action>)
    ensures After(s, run).latest == LatestStart(s, run)
  {
    if run != [] {
      LatestIsLast(s, run[..|run| - 1]);
    }
  }

  /** A start does not reuse the task id in the state file. */
  predicate Fresh(s: State, a: Action) {
    a.Start? && s.file.Some? && !s.file.value.Created? ==> s.file.value.upid != a.upid
  }

  ghost predicate FreshStarts(s: State, run: seq<Action>) {
    forall k | 0 <= k < |run| :: Fresh(After(s, run[..k]), run[k])
  }

  ghost predicate RecordedExactly(s: State) {
    s.file.Some? && !s.file.value.Created? ==> (s.latest == Some(s.file.value.upid) <==> !s.unsaved)
  }

  lemma StepRecords(s: State, a: Action)
    requires LatestInv(s) && RecordedExactly(s) && Fresh(s, a)
    ensures RecordedExactly(Step(s, a))
  {
  }

  lemma {:induction false} RunRecords(s: State, run: seq<Action>)
    requires LatestInv(s) && RecordedExactly(s) && FreshStarts(s, run)
    ensures RecordedExactly(After(s, run))
  {
    if run != [] {
      var n := |run| - 1;
      var earlier := run[..n];
      assert forall k | 0 <= k < n :: earlier[..k] == run[..k] && earlier[k] == run[k];
      RunRecords(s, earlier);
      RunKeepsLatest(s, earlier);
      StepRecords(After(s, earlier), run[n]);
    }
  }

  /** The action is a start that the session accepts. */
  predicate Starts(t: State, a: Action) {
    a.Start? && t.session.Some? && !t.session.value.state.Started?
  }

  /** The action is a finish that the session accepts and writes. */
  predicate FinishWrites(t: State, a: Action) {
    a.Finish? && !a.fails && t.session.Some? && !t.session.value.state.Created?
  }

  predicate StartsAt(s: State, run: seq<Action>, k: nat)
    requires k < |run|
  {
    Starts(After(s, run[..k]), run[k])
  }

  predicate FinishWrittenAt(s: State, run: seq<Action>, j: nat)
    requires j < |run|
  {
    FinishWrites(After(s, run[..j]), run[j])
  }

  lemma StepUnsaved(t: State, a: Action)
    ensures Step(t, a).unsaved
            == if Starts(t, a) then a.fails else if FinishWrites(t, a) then false else t.unsaved
  {
  }

  ghost predicate SameSession(run: seq<Action>, k: nat, j: nat)
    requires j <= |run|
  {
    forall i | k < i < j :: !run[i].Close?
  }

  ghost predicate NoStartIn(s: State, run: seq<Action>, lo: nat, hi: nat)
    requires hi <= |run|
  {
    forall i | lo <= i < hi :: !StartsAt(s, run, i)
  }

  /** Before action `hi`, the start at `k` was written, or a finish after it in the same session was. */
  ghost predicate WrittenFrom(s: State, run: seq<Action>, k: nat, hi: nat)
    requires k < hi <= |run|
  {
    && StartsAt(s, run, k)
    && (!run[k].fails || exists j | k < j < hi :: FinishWrittenAt(s, run, j) && SameSession(run, k, j))
  }

  /** Before action `hi`, the last accepted start was written, or a finish after it in its session; or
      no start was accepted. */
  ghost predicate LastStartWritten(s: State, run: seq<Action>, hi: nat)
    requires hi <= |run|
  {
    NoStartIn(s, run, 0, hi) || exists k | 0 <= k < hi :: WrittenLast(s, run, k, hi)
  }

  /** A session that holds a task accepted a start since it was opened; `k` is the last one. */
  lemma {:induction false} SessionStarted(s: State, run: seq<Action>, hi: nat) returns (k: nat)
    requires s.session.None? && hi <= |run|
    requires var session := After(s, run[..hi]).session; session.Some? && !session.value.state.Created?
    ensures k < hi && StartsAt(s, run, k) && SameSession(run, k, hi) && NoStartIn(s, run, k + 1, hi)
    decreases hi
  {
    AfterPrefix(s, run, hi - 1);
    if StartsAt(s, run, hi - 1) {
      k := hi - 1;
    } else {
      k := SessionStarted(s, run, hi - 1);
    }
  }

  ghost predicate WrittenLast(s: State, run: seq<Action>, k: nat, hi: nat)
    requires k < hi <= |run|
  {
    WrittenFrom(s, run, k, hi) && NoStartIn(s, run, k + 1, hi)
  }

  lemma WrittenLastStays(s: State, run: seq<Action>, k: nat, hi: nat)
    requires k < hi < |run| && !StartsAt(s, run, hi) && !FinishWrittenAt(s, run, hi)
    ensures WrittenLast(s, run, k, hi + 1) <==> WrittenLast(s, run, k, hi)
  {
    assert NoStartIn(s, run, k + 1, hi + 1) <==> NoStartIn(s, run, k + 1, hi);
  }

  lemma WrittenStays(s: State, run: seq<Action>, hi: nat)
    requires hi < |run| && !StartsAt(s, run, hi) && !FinishWrittenAt(s, run, hi)
    ensures LastStartWritten(s, run, hi + 1) <==> LastStartWritten(s, run, hi)
  {
    assert NoStartIn(s, run, 0, hi + 1) <==> NoStartIn(s, run, 0, hi);
    assert !WrittenFrom(s, run, hi, hi + 1);
    if !NoStartIn(s, run, 0, hi) {
      if LastStartWritten(s, run, hi + 1) {
        var k :| 0 <= k < hi + 1 && WrittenLast(s, run, k, hi + 1);
        WrittenLastStays(s, run, k, hi);
      }
      if LastStartWritten(s, run, hi) {
        var k :| 0 <= k < hi && WrittenLast(s, run, k, hi);
        WrittenLastStays(s, run, k, hi);
      }
    }
  }

  lemma StartWritten(s: State, run: seq<Action>, hi: nat)
    requires hi < |run| && StartsAt(s, run, hi)
    ensures LastStartWritten(s, run, hi + 1) <==> !run[hi].fails
  {
    if !run[hi].fails {
      assert WrittenLast(s, run, hi, hi + 1);
    }
  }

  lemma FinishWritten(s: State, run: seq<Action>, hi: nat)
    requires s.session.None? && hi < |run| && FinishWrittenAt(s, run, hi)
    ensures LastStartWritten(s, run, hi + 1)
  {
    var k := SessionStarted(s, run, hi);
    assert WrittenLast(s, run, k, hi + 1);
  }

  lemma {:induction false} UnsavedExactly(s: State, run: seq<Action>, hi: nat)
    requires s.session.None? && !s.unsaved && hi <= |run|
    ensures After(s, run[..hi]).unsaved <==> !LastStartWritten(s, run, hi)
    decreases hi
  {
    if hi > 0 {
      UnsavedExactly(s, run, hi - 1);
      AfterPrefix(s, run, hi - 1);
      StepUnsaved(After(s, run[..hi - 1]), run[hi - 1]);
      if StartsAt(s, run, hi - 1) {
        StartWritten(s, run, hi - 1);
      } else if FinishWrittenAt(s, run, hi - 1) {
        FinishWritten(s, run, hi - 1);
      } else {
        WrittenStays(s, run, hi - 1);
      }
    }
  }

  /** With fresh task ids and failing writes, a recorded task is the one started last if and only if that
      start was written or a finish after it in its session was. */
  lemma {:induction false} RecordedTaskExactly(s: State, run: seq<Action>)
    requires s.session.None? && !s.unsaved && LatestInv(s) && FreshStarts(s, run)
    ensures var file := After(s, run).file;
            file.Some? && !file.value.Created? ==>
              (LatestStart(s, run) == Some(file.value.upid) <==> LastStartWritten(s, run, |run|))
  {
    RunRecords(s, run);
    LatestIsLast(s, run);
    UnsavedExactly(s, run, |run|);
    assert run[..|run|] == run;
  }

  /** If the write of a start fails, the file can go on naming an earlier task as finished. */
  lemma FailedStartKeepsOldTask(former: Upid, next: Upid)
    requires former != next
    ensures var s := State(10, Some(Finished(former, TaskOk(5), None)), None, Some(former), false);
            var run := [Open, Start(next, true), Close];
            && LatestInv(s) && LatestStart(s, run) == Some(next)
            && After(s, run).file == Some(Finished(former, TaskOk(5), None))
  {
    var s := State(10, Some(Finished(former, TaskOk(5), None)), None, Some(former), false);
    var run := [Open, Start(next, true), Close];
    assert run[..0] == [];
    AfterPrefix(s, run, 0);
    AfterPrefix(s, run, 1);
    AfterPrefix(s, run, 2);
    assert run[..3] == run;
    LatestIsLast(s, run);
  }
}
