/** The failover client as the program runs it: the counter and the generator are updated in place,
    and the retry loop sends one request after another while other requests move the counter. */
module MultiClient {
  import opened Basics
  import opened Failover

  /** Which node the client is supposed to use right now; shared by all its requests. */
  class MultiClientState {
    const hosts: seq<string>
    var current: nat

    constructor (hosts: seq<string>, marked: set<string>)
      requires hosts != []
      ensures this.hosts == hosts
      ensures current == SkipTarget(hosts, marked, 0, |hosts|)
    {
      this.hosts := hosts;
      current := 0;
      new;
      SkipUnreachable(marked);
    }

    /** Skip ahead as long as the counter points to an unreachable node, once around at most. */
    method SkipUnreachable(marked: set<string>)
      requires hosts != []
      modifies this
      ensures current == SkipTarget(hosts, marked, old(current), |hosts|)
    {
      for i := 0 to |hosts|
        invariant SkipTarget(hosts, marked, current, |hosts| - i) == SkipTarget(hosts, marked, old(current), |hosts|)
      {
        if HostAt(hosts, current) !in marked {
          return;
        }
        current := current + 1;
      }
    }
  }

  /** The history of a request is complete and free of repeats, as in a system of this request alone. */
  ghost predicate Sound(n: nat, current: nat, t: Task) {
    SystemInv(n, System(current, [t]))
  }

  lemma SoundTask(n: nat, current: nat, t: Task)
    requires Sound(n, current, t)
    ensures TaskInv(n, current, t)
  {
    assert System(current, [t]).tasks[0] == t;
  }

  /** Recording the answer of a call keeps the history complete. */
  lemma RecordKeepsInv(hosts: seq<string>, current: nat, t: Task, skipMarks: set<string>, labelMarks: set<string>)
    requires hosts != [] && Sound(|hosts|, current, t)
    ensures var (current', gen, out) := NextClient(hosts, current, t.gen, skipMarks, labelMarks);
            current <= current' && Sound(|hosts|, current', Record(t, gen, out)) && Record(t, gen, out).gen == gen
  {
    var (current', gen, out) := NextClient(hosts, current, t.gen, skipMarks, labelMarks);
    var s, a := System(current, [t]), Call(0, skipMarks, labelMarks);
    ApplyKeepsInv(hosts, s, a);
    assert [t][0 := Record(t, gen, out)] == [Record(t, gen, out)];
    assert Apply(hosts, s, a) == System(current', [Record(t, gen, out)]);
  }

  /** The generator of nodes to try for one request. */
  class ClientGenerator {
    const state: MultiClientState
    var startCurrent: Option<(nat, nat)>
    var unreachable: seq<nat>
    var tryUnreachable: Option<seq<nat>>
    var fused: bool
    ghost var task: Task

    function View(): Generator
      reads this
    {
      Generator(startCurrent, unreachable, tryUnreachable, fused)
    }

    ghost predicate Valid()
      reads this, state
    {
      state.hosts != [] && task.gen == View() && Sound(|state.hosts|, state.current, task)
    }

    constructor (state: MultiClientState)
      requires state.hosts != []
      ensures this.state == state && Valid() && task == NEW_TASK
    {
      this.state := state;
      startCurrent, unreachable, tryUnreachable, fused := None, [], None, false;
      task := NEW_TASK;
    }

    /** One call: what the generator does under the state lock. */
    method Next(skipMarks: set<string>, labelMarks: set<string>) returns (out: Option<TryClient>)
      requires Valid()
      modifies this, state
      ensures Valid()
      ensures (state.current, View(), out)
           == NextClient(state.hosts, old(state.current), old(View()), skipMarks, labelMarks)
      ensures task == Record(old(task), View(), out)
    {
      ghost var current, t := state.current, task;
      out := Answer(skipMarks, labelMarks);
      RecordKeepsInv(state.hosts, current, t, skipMarks, labelMarks);
      task := Record(task, View(), out);
    }

    method Answer(skipMarks: set<string>, labelMarks: set<string>) returns (out: Option<TryClient>)
      requires Valid()
      modifies this, state
      ensures task == old(task)
      ensures (state.current, View(), out)
           == NextClient(state.hosts, old(state.current), old(View()), skipMarks, labelMarks)
    {
      if fused {
        out := None;
      } else if tryUnreachable.Some? {
        out := Replay();
      } else if startCurrent.None? {
        startCurrent := Some((state.current, state.current));
        out := Some(TryClient(state.current, HostAt(state.hosts, state.current) !in labelMarks));
      } else {
        out := Rotate(skipMarks, labelMarks);
      }
    }

    method Replay() returns (out: Option<TryClient>)
      requires !fused && tryUnreachable.Some?
      modifies this`tryUnreachable, this`fused
      ensures var rest := old(tryUnreachable.value);
              if rest == [] then out == None && View() == old(View()).(fused := true)
              else out == Some(TryClient(rest[0], false)) && View() == old(View()).(tryUnreachable := Some(rest[1..]))
    {
      var rest := tryUnreachable.value;
      if rest == [] {
        fused := true;
        out := None;
      } else {
        tryUnreachable := Some(rest[1..]);
        out := Some(TryClient(rest[0], false));
      }
    }

    method Rotate(skipMarks: set<string>, labelMarks: set<string>) returns (out: Option<TryClient>)
      requires Valid() && !fused && tryUnreachable.None? && startCurrent.Some?
      modifies this, state
      ensures task == old(task)
      ensures (state.current, View(), out)
           == NextClient(state.hosts, old(state.current), old(View()), skipMarks, labelMarks)
    {
      var (start, last) := startCurrent.value;
      if state.current == last {
        state.current := state.current + 1;
        state.SkipUnreachable(skipMarks);
      }
      SoundTask(|state.hosts|, old(state.current), task);
      if state.current - start >= |state.hosts| {
        tryUnreachable := Some(unreachable);
        unreachable := [];
        out := Replay();
      } else {
        var now := state.current;
        startCurrent := Some((start, now));
        RememberSkipped(last + 1, now);
        out := Some(TryClient(now, HostAt(state.hosts, now) !in labelMarks));
      }
    }

    method RememberSkipped(from: nat, now: nat)
      requires from <= now
      modifies this`unreachable
      ensures unreachable == old(unreachable) + Range(from, now)
    {
      var at := from;
      while at != now
        invariant from <= at <= now
        invariant unreachable == old(unreachable) + Range(from, at)
        decreases now - at
      {
        unreachable := unreachable + [at];
        assert Range(from, at + 1) == Range(from, at) + [at];
        at := at + 1;
      }
    }
  }

  // ---------------------------------------------------------------------------------------------
  // The retry loop

  /** How one sent request ends. Only a connect error proves that it never reached a server. */
  datatype Outcome = ConnectError | ClientError | Answer(ok: bool) | TimedOut

  /** What the surroundings do in one turn of the loop: how far other requests move the counter, the
      two reachability snapshots, the host's back-off, and how a request sent now would end. */
  datatype Turn = Turn(advance: nat, skipMarks: set<string>, labelMarks: set<string>, backedOff: bool, outcome: Outcome)

  datatype Send = Send(client: TryClient, outcome: Outcome)

  datatype Mark = Mark(position: nat, reachable: bool)

  datatype CallResult =
    | RemoteBackOff
    | BadParameters
    | Returned(outcome: Outcome)
    | GaveUpTimedOut
    | UnknownError

  /** Whether the loop goes on to another node after this outcome. */
  predicate FailsOver(idempotent: bool, o: Outcome) {
    o.ConnectError? || o.TimedOut? || (o.ClientError? && idempotent)
  }

  /** The shape of every call: `sends` in the loop, each to another entry, all but the last failing
      over, and the final retry exactly if all failed over and the very first could not connect. */
  ghost predicate CallShape(entries: nat, idempotent: bool, sends: seq<Send>, retried: bool)
    requires 0 < entries
  {
    && |sends| <= entries
    && (forall i, j | 0 <= i < j < |sends| :: sends[i].client.position % entries != sends[j].client.position % entries)
    && (forall i | 0 <= i < |sends| - 1 :: FailsOver(idempotent, sends[i].outcome))
    && (retried <==> sends != [] && sends[0].outcome.ConnectError? && FailsOver(idempotent, sends[|sends| - 1].outcome))
  }

  /** The result as a function of what was sent. */
  function ResultOf(idempotent: bool, sends: seq<Send>, retried: bool, retry: Outcome): CallResult {
    if sends == [] then UnknownError
    else if retried && !retry.TimedOut? then Returned(retry)
    else
      var last := sends[|sends| - 1].outcome;
      if last.TimedOut? then GaveUpTimedOut else Returned(last)
  }

  /** The reachability marks one send leaves behind. */
  function MarksOf(idempotent: bool, s: Send): seq<Mark> {
    if FailsOver(idempotent, s.outcome) then [Mark(s.client.position, false)]
    else if s.outcome.Answer? && !s.client.reachable then [Mark(s.client.position, true)]
    else []
  }

  function AllMarks(idempotent: bool, sends: seq<Send>): seq<Mark> {
    if sends == [] then []
    else AllMarks(idempotent, sends[..|sends| - 1]) + MarksOf(idempotent, sends[|sends| - 1])
  }

  lemma {:induction false} AllMarksAppend(idempotent: bool, sends: seq<Send>, s: Send)
    ensures AllMarks(idempotent, sends + [s]) == AllMarks(idempotent, sends) + MarksOf(idempotent, s)
  {
    assert (sends + [s])[..|sends|] == sends;
  }

  /** After these requests a position is marked unreachable exactly if a request to it could not connect,
      timed out, or, for an idempotent method, failed after connecting; it is marked reachable exactly if
      a request to it was answered and its node was labelled unreachable. */
  lemma {:induction false} MarksExactly(idempotent: bool, sends: seq<Send>, p: nat)
    ensures Mark(p, false) in AllMarks(idempotent, sends) <==>
            exists i | 0 <= i < |sends| ::
              && sends[i].client.position == p
              && (sends[i].outcome.ConnectError? || sends[i].outcome.TimedOut?
                  || (idempotent && sends[i].outcome.ClientError?))
    ensures Mark(p, true) in AllMarks(idempotent, sends) <==>
            exists i | 0 <= i < |sends| ::
              sends[i].client.position == p && sends[i].outcome.Answer? && !sends[i].client.reachable
  {
    if sends != [] {
      var n := |sends| - 1;
      MarksExactly(idempotent, sends[..n], p);
      assert forall i | 0 <= i < n :: sends[..n][i] == sends[i];
    }
  }

  /** A client handed out is a new entry, and there are never more than there are entries. */
  lemma NewEntry(hosts: seq<string>, current: nat, t: Task, skipMarks: set<string>, labelMarks: set<string>)
    requires hosts != [] && TaskInv(|hosts|, current, t)
    ensures var (current', gen, out) := NextClient(hosts, current, t.gen, skipMarks, labelMarks);
            var t' := Record(t, gen, out);
            && TaskInv(|hosts|, current', t') && t'.gen == gen
            && |t'.Handed()| <= |hosts|
            && (out.Some? ==>
                 && t'.Handed() == t.Handed() + [out.value.position]
                 && forall q | q in t.Handed() :: q % |hosts| != out.value.position % |hosts|)
  {
    CallKeepsTaskInv(hosts, current, t, skipMarks, labelMarks);
    var (current', gen, out) := NextClient(hosts, current, t.gen, skipMarks, labelMarks);
    var t' := Record(t, gen, out);
    HandedEntriesDiffer(|hosts|, current', t');
    if out.Some? {
      HandsOneMore(hosts, current, t, skipMarks, labelMarks);
      var h := t'.Handed();
      forall q | q in t.Handed() ensures q % |hosts| != out.value.position % |hosts| {
        var i :| 0 <= i < |t.Handed()| && t.Handed()[i] == q;
        assert h[i] == q && h[|h| - 1] == out.value.position;
      }
    }
  }

  lemma HandsOneMore(hosts: seq<string>, current: nat, t: Task, skipMarks: set<string>, labelMarks: set<string>)
    requires hosts != [] && TaskInv(|hosts|, current, t)
    ensures var (current', gen, out) := NextClient(hosts, current, t.gen, skipMarks, labelMarks);
            out.Some? ==> Record(t, gen, out).Handed() == t.Handed() + [out.value.position]
  {
  }

  // ---------------------------------------------------------------------------------------------
  // What a call sends, read off the surroundings

  /** A request as its surroundings see it: where the counter stands when it begins, and what happens in
      each turn, for more turns than there are entries. */
  datatype Surroundings = Surroundings(hosts: seq<string>, start: nat, turns: seq<Turn>)

  /** Counter and generator between two turns. */
  datatype Point = Point(current: nat, task: Task)

  /** The points a request goes through, and what it is handed in each turn. */
  datatype Trace = Trace(points: seq<Point>, offers: seq<Option<TryClient>>)

  /** One turn: others move the counter, then the generator is asked once. */
  predicate Turned(hosts: seq<string>, env: Turn, p: Point, p': Point, offer: Option<TryClient>)
    requires hosts != []
  {
    var (current, gen, out) := NextClient(hosts, p.current + env.advance, p.task.gen, env.skipMarks, env.labelMarks);
    p' == Point(current, Record(p.task, gen, out)) && offer == out
  }

  ghost predicate TurnedAt(e: Surroundings, tr: Trace, k: nat)
    requires e.hosts != [] && k < |tr.offers| <= |e.turns| && |tr.points| == |tr.offers| + 1
  {
    Turned(e.hosts, e.turns[k], tr.points[k], tr.points[k + 1], tr.offers[k])
  }

  /** The trace is what asking the generator once in every turn gives, whatever is sent. */
  ghost predicate Follows(e: Surroundings, tr: Trace)
    requires e.hosts != []
  {
    && |tr.offers| <= |e.turns| && |tr.points| == |tr.offers| + 1
    && tr.points[0] == Point(e.start, NEW_TASK)
    && forall k | 0 <= k < |tr.offers| :: TurnedAt(e, tr, k)
  }

  /** In this turn there is no node left, or a request is sent and does not fail over. */
  predicate Ends(turns: seq<Turn>, idempotent: bool, offers: seq<Option<TryClient>>, k: nat)
    requires k < |offers| <= |turns|
  {
    offers[k].None? || (!turns[k].backedOff && !FailsOver(idempotent, turns[k].outcome))
  }

  ghost predicate GoesOn(turns: seq<Turn>, idempotent: bool, offers: seq<Option<TryClient>>, k: nat)
    requires k <= |offers| <= |turns|
  {
    forall j | 0 <= j < k :: !Ends(turns, idempotent, offers, j)
  }

  /** The last of the turns is the first that ends the loop. */
  ghost predicate EndsLast(turns: seq<Turn>, idempotent: bool, offers: seq<Option<TryClient>>)
    requires |offers| <= |turns|
  {
    offers != [] && Ends(turns, idempotent, offers, |offers| - 1) && GoesOn(turns, idempotent, offers, |offers| - 1)
  }

  /** The requests sent: one to every node handed out that is not backed off. */
  function SendsOf(turns: seq<Turn>, offers: seq<Option<TryClient>>): seq<Send>
    requires |offers| <= |turns|
  {
    if offers == [] then []
    else
      var k := |offers| - 1;
      if offers[k].Some? && !turns[k].backedOff then
        SendsOf(turns, offers[..k]) + [Send(offers[k].value, turns[k].outcome)]
      else SendsOf(turns, offers[..k])
  }

  lemma {:induction false} OneMoreOffer(turns: seq<Turn>, offers: seq<Option<TryClient>>, out: Option<TryClient>)
    requires |offers| < |turns|
    ensures SendsOf(turns, offers + [out])
            == if out.Some? && !turns[|offers|].backedOff then
                 SendsOf(turns, offers) + [Send(out.value, turns[|offers|].outcome)]
               else SendsOf(turns, offers)
  {
    assert (offers + [out])[..|offers|] == offers;
  }

  /** What has been sent so far: every send failed over, and each went to another position. */
  ghost predicate SentSoFar(idempotent: bool, sends: seq<Send>, handed: seq<nat>) {
    && |sends| <= |handed|
    && (forall i | 0 <= i < |sends| :: FailsOver(idempotent, sends[i].outcome))
    && SentTo(sends, handed)
  }

  /** The sends went to different ones of these positions. */
  ghost predicate SentTo(sends: seq<Send>, handed: seq<nat>) {
    && (forall i | 0 <= i < |sends| :: sends[i].client.position in handed)
    && (forall i, j | 0 <= i < j < |sends| :: sends[i].client.position != sends[j].client.position)
  }

  /** The loop's variables, as functions of what was sent: in particular an error and a timeout are
      never remembered together. */
  ghost predicate Remembered(sends: seq<Send>, lastErr: Option<Outcome>, timedOut: bool, first: bool,
                             connectRetry: Option<TryClient>)
  {
    if sends == [] then lastErr.None? && !timedOut && first && connectRetry.None?
    else
      var last := sends[|sends| - 1].outcome;
      && !first
      && timedOut == last.TimedOut?
      && lastErr == (if last.TimedOut? then None else Some(last))
      && connectRetry == (if sends[0].outcome.ConnectError? then Some(sends[0].client) else None)
  }

  lemma SendNew(sends: seq<Send>, handed: seq<nat>, s: Send)
    requires SentTo(sends, handed) && s.client.position !in handed
    ensures SentTo(sends + [s], handed + [s.client.position])
  {
    var all := sends + [s];
    forall i, j | 0 <= i < j < |all| ensures all[i].client.position != all[j].client.position {
      assert i < |sends| && all[i].client.position in handed;
    }
  }

  /** Different positions handed out are different entries. */
  lemma SentToEntries(n: nat, current: nat, t: Task, sends: seq<Send>)
    requires 0 < n && TaskInv(n, current, t) && SentTo(sends, t.Handed())
    ensures forall i, j | 0 <= i < j < |sends| :: sends[i].client.position % n != sends[j].client.position % n
  {
    forall i, j | 0 <= i < j < |sends| ensures sends[i].client.position % n != sends[j].client.position % n {
      PositionsApart(n, current, t, sends[i].client.position, sends[j].client.position);
    }
  }

  lemma PositionsApart(n: nat, current: nat, t: Task, p: nat, q: nat)
    requires 0 < n && TaskInv(n, current, t) && p in t.Handed() && q in t.Handed() && p != q
    ensures p % n != q % n
  {
    HandedEntriesDiffer(n, current, t);
    var i :| 0 <= i < |t.Handed()| && t.Handed()[i] == p;
    var j :| 0 <= j < |t.Handed()| && t.Handed()[j] == q;
  }

  lemma AdvanceKeepsInv(n: nat, current: nat, current': nat, t: Task)
    requires Sound(n, current, t) && current <= current'
    ensures Sound(n, current', t)
  {
    SoundTask(n, current, t);
  }

  /** Whatever other requests do to the counter in a turn, as long as it stays in reach of the request: a
      turn that finds it moved leaves it where it is and hands out the entry it stands at. */
  lemma MovedTurn(hosts: seq<string>, env: Turn, p: Point, p': Point, offer: Option<TryClient>, start: nat, last: nat)
    requires hosts != [] && Turned(hosts, env, p, p', offer) && Rotating(p.task.gen, start, last)
    requires last < p.current + env.advance < start + |hosts|
    ensures var now := p.current + env.advance;
            && p'.current == now && Rotating(p'.task.gen, start, now)
            && offer == Some(TryClient(now, hosts[now % |hosts|] !in env.labelMarks))
            && p'.task.gen.unreachable == p.task.gen.unreachable + Range(last + 1, now)
            && p'.task.Handed() == p.task.first + [now] + p.task.replayed
  {
    MovedOffer(hosts, p.current + env.advance, p.task.gen, start, last, env.skipMarks, env.labelMarks);
  }

  lemma TurnKeepsInv(hosts: seq<string>, env: Turn, p: Point, p': Point, offer: Option<TryClient>)
    requires hosts != [] && Turned(hosts, env, p, p', offer)
    requires Sound(|hosts|, p.current, p.task)
    ensures Sound(|hosts|, p'.current, p'.task) && p.current <= p'.current
  {
    var now := p.current + env.advance;
    AdvanceKeepsInv(|hosts|, p.current, now, p.task);
    RecordKeepsInv(hosts, now, p.task, env.skipMarks, env.labelMarks);
    var r := NextClient(hosts, now, p.task.gen, env.skipMarks, env.labelMarks);
    SamePoint(|hosts|, Point(r.0, Record(p.task, r.1, r.2)), p');
  }

  lemma SamePoint(n: nat, p: Point, p': Point)
    requires p == p' && Sound(n, p.current, p.task)
    ensures Sound(n, p'.current, p'.task)
  {
  }

  /** The node handed out is new to the history. */
  ghost predicate HandsNew(n: nat, handed: seq<nat>, handed': seq<nat>, out: Option<TryClient>) {
    && |handed'| <= n
    && (out.Some? ==> handed' == handed + [out.value.position] && out.value.position !in handed)
  }

  lemma NewPosition(hosts: seq<string>, current: nat, t: Task, skipMarks: set<string>, labelMarks: set<string>)
    requires hosts != [] && Sound(|hosts|, current, t)
    ensures var r := NextClient(hosts, current, t.gen, skipMarks, labelMarks);
            HandsNew(|hosts|, t.Handed(), Record(t, r.1, r.2).Handed(), r.2)
  {
    SoundTask(|hosts|, current, t);
    NewEntry(hosts, current, t, skipMarks, labelMarks);
  }

  lemma TurnHandsNew(hosts: seq<string>, env: Turn, p: Point, p': Point, offer: Option<TryClient>)
    requires hosts != [] && Turned(hosts, env, p, p', offer)
    requires Sound(|hosts|, p.current + env.advance, p.task)
    ensures HandsNew(|hosts|, p.task.Handed(), p'.task.Handed(), offer)
  {
    var r := NextClient(hosts, p.current + env.advance, p.task.gen, env.skipMarks, env.labelMarks);
    NewPosition(hosts, p.current + env.advance, p.task, env.skipMarks, env.labelMarks);
    SameHands(|hosts|, p.task.Handed(), Record(p.task, r.1, r.2), p'.task, offer);
  }

  lemma SameHands(n: nat, handed: seq<nat>, t: Task, t': Task, out: Option<TryClient>)
    requires t == t' && HandsNew(n, handed, t.Handed(), out)
    ensures HandsNew(n, handed, t'.Handed(), out)
  {
  }

  /** The history at a point of the trace is complete and free of repeats. */
  lemma {:induction false} PointInv(e: Surroundings, tr: Trace, k: nat)
    requires e.hosts != [] && Follows(e, tr) && k < |tr.points|
    ensures Sound(|e.hosts|, tr.points[k].current, tr.points[k].task) && e.start <= tr.points[k].current
    decreases k
  {
    if k > 0 {
      PointInv(e, tr, k - 1);
      assert TurnedAt(e, tr, k - 1);
      TurnKeepsInv(e.hosts, e.turns[k - 1], tr.points[k - 1], tr.points[k], tr.offers[k - 1]);
    }
  }

  lemma OfferNew(e: Surroundings, tr: Trace, k: nat)
    requires e.hosts != [] && Follows(e, tr) && k < |tr.offers|
    ensures HandsNew(|e.hosts|, tr.points[k].task.Handed(), tr.points[k + 1].task.Handed(), tr.offers[k])
  {
    PointInv(e, tr, k);
    assert TurnedAt(e, tr, k);
    var p := tr.points[k];
    AdvanceKeepsInv(|e.hosts|, p.current, p.current + e.turns[k].advance, p.task);
    TurnHandsNew(e.hosts, e.turns[k], tr.points[k], tr.points[k + 1], tr.offers[k]);
  }

  lemma {:induction false} OneMoreSent(turns: seq<Turn>, idempotent: bool, offers: seq<Option<TryClient>>, c: TryClient,
                                       handed: seq<nat>)
    requires |offers| < |turns| && SentSoFar(idempotent, SendsOf(turns, offers), handed)
    requires c.position !in handed && (turns[|offers|].backedOff || FailsOver(idempotent, turns[|offers|].outcome))
    ensures SentSoFar(idempotent, SendsOf(turns, offers + [Some(c)]), handed + [c.position])
  {
    OneMoreOffer(turns, offers, Some(c));
    var sends := SendsOf(turns, offers);
    if turns[|offers|].backedOff {
      SkipOne(idempotent, sends, handed, c.position);
    } else {
      SendOne(idempotent, sends, handed, Send(c, turns[|offers|].outcome));
    }
  }

  lemma SkipOne(idempotent: bool, sends: seq<Send>, handed: seq<nat>, p: nat)
    requires SentSoFar(idempotent, sends, handed)
    ensures SentSoFar(idempotent, sends, handed + [p])
  {
  }

  lemma SendOne(idempotent: bool, sends: seq<Send>, handed: seq<nat>, s: Send)
    requires SentSoFar(idempotent, sends, handed) && FailsOver(idempotent, s.outcome) && s.client.position !in handed
    ensures SentSoFar(idempotent, sends + [s], handed + [s.client.position])
  {
    SendNew(sends, handed, s);
  }

  /** While no turn ended the loop, each handed out one more node, each request sent failed over, and
      all went to different positions. */
  lemma {:induction false} SentInTurns(e: Surroundings, idempotent: bool, tr: Trace, k: nat)
    requires e.hosts != [] && Follows(e, tr) && k <= |tr.offers| && GoesOn(e.turns, idempotent, tr.offers, k)
    ensures |tr.points[k].task.Handed()| == k <= |e.hosts|
    ensures SentSoFar(idempotent, SendsOf(e.turns, tr.offers[..k]), tr.points[k].task.Handed())
    decreases k
  {
    if k > 0 {
      var j := k - 1;
      SentInTurns(e, idempotent, tr, j);
      assert !Ends(e.turns, idempotent, tr.offers, j);
      OfferNew(e, tr, j);
      assert tr.offers[..k] == tr.offers[..j] + [tr.offers[j]];
      OneMoreSent(e.turns, idempotent, tr.offers[..j], tr.offers[j].value, tr.points[j].task.Handed());
    }
  }

  /** Whether the final retry is due after these sends. */
  predicate RetryDue(idempotent: bool, sends: seq<Send>) {
    sends != [] && sends[0].outcome.ConnectError? && FailsOver(idempotent, sends[|sends| - 1].outcome)
  }

  /** All requests but the last one failed over. */
  ghost predicate AllButLastFailOver(idempotent: bool, sends: seq<Send>) {
    forall i | 0 <= i < |sends| - 1 :: FailsOver(idempotent, sends[i].outcome)
  }

  /** If the loop ended by itself every request failed over, else the last one is the one that did not. */
  ghost predicate EndedBy(turns: seq<Turn>, idempotent: bool, offers: seq<Option<TryClient>>, sends: seq<Send>)
    requires 0 < |offers| <= |turns|
  {
    var k := |offers| - 1;
    match offers[k]
    case None => forall i | 0 <= i < |sends| :: FailsOver(idempotent, sends[i].outcome)
    case Some(c) =>
      && sends != [] && sends[|sends| - 1] == Send(c, turns[k].outcome)
      && !FailsOver(idempotent, turns[k].outcome)
  }

  lemma {:induction false} LastOffer(turns: seq<Turn>, idempotent: bool, offers: seq<Option<TryClient>>,
                                     out: Option<TryClient>,
                  handed: seq<nat>, handed': seq<nat>)
    requires |offers| < |turns| && SentSoFar(idempotent, SendsOf(turns, offers), handed)
    requires Ends(turns, idempotent, offers + [out], |offers|)
    requires out.Some? ==> handed' == handed + [out.value.position] && out.value.position !in handed
    requires out.None? ==> handed' == handed
    ensures var sends := SendsOf(turns, offers + [out]);
            && SentTo(sends, handed') && |sends| <= |handed'|
            && AllButLastFailOver(idempotent, sends) && EndedBy(turns, idempotent, offers + [out], sends)
  {
    OneMoreOffer(turns, offers, out);
    if out.Some? {
      SendNew(SendsOf(turns, offers), handed, Send(out.value, turns[|offers|].outcome));
    }
  }

  lemma EndOfLoop(e: Surroundings, idempotent: bool, tr: Trace)
    requires e.hosts != [] && Follows(e, tr) && EndsLast(e.turns, idempotent, tr.offers)
    ensures var sends := SendsOf(e.turns, tr.offers);
            && |tr.offers| <= |e.hosts| + 1 && |sends| <= |e.hosts|
            && SentTo(sends, tr.points[|tr.offers|].task.Handed())
            && AllButLastFailOver(idempotent, sends) && EndedBy(e.turns, idempotent, tr.offers, sends)
  {
    var k := |tr.offers| - 1;
    SentInTurns(e, idempotent, tr, k);
    OfferNew(e, tr, k);
    if tr.offers[k].None? {
      NoneHandsNothing(e, tr, k);
    }
    assert tr.offers == tr.offers[..k] + [tr.offers[k]];
    LastOffer(e.turns, idempotent, tr.offers[..k], tr.offers[k], tr.points[k].task.Handed(),
              tr.points[k + 1].task.Handed());
  }

  lemma NoneHandsNothing(e: Surroundings, tr: Trace, k: nat)
    requires e.hosts != [] && Follows(e, tr) && k < |tr.offers| && tr.offers[k].None?
    ensures tr.points[k + 1].task.Handed() == tr.points[k].task.Handed()
  {
    assert TurnedAt(e, tr, k);
  }

  /** What a call sends has the shape of every call. */
  lemma CallHasShape(e: Surroundings, idempotent: bool, tr: Trace)
    requires e.hosts != [] && Follows(e, tr) && EndsLast(e.turns, idempotent, tr.offers)
    ensures var sends := SendsOf(e.turns, tr.offers);
            CallShape(|e.hosts|, idempotent, sends, RetryDue(idempotent, sends))
  {
    EndOfLoop(e, idempotent, tr);
    var k := |tr.offers|;
    PointInv(e, tr, k);
    SoundTask(|e.hosts|, tr.points[k].current, tr.points[k].task);
    SentToEntries(|e.hosts|, tr.points[k].current, tr.points[k].task, SendsOf(e.turns, tr.offers));
  }

  /** The surroundings determine the trace, and with it what is sent. */
  lemma {:induction false} TraceIsUnique(e: Surroundings, tr: Trace, tr': Trace, k: nat)
    requires e.hosts != [] && Follows(e, tr) && Follows(e, tr') && k <= |tr.offers| && k <= |tr'.offers|
    ensures tr.points[k] == tr'.points[k] && tr.offers[..k] == tr'.offers[..k]
    decreases k
  {
    if k > 0 {
      TraceIsUnique(e, tr, tr', k - 1);
      assert TurnedAt(e, tr, k - 1) && TurnedAt(e, tr', k - 1);
      assert tr.offers[..k] == tr.offers[..k - 1] + [tr.offers[k - 1]];
      assert tr'.offers[..k] == tr'.offers[..k - 1] + [tr'.offers[k - 1]];
    }
  }

  /** Two complete calls in the same surroundings end in the same turn and are handed the same nodes, so
      they send the same requests. */
  lemma CallIsDetermined(e: Surroundings, idempotent: bool, tr: Trace, tr': Trace)
    requires e.hosts != [] && Follows(e, tr) && Follows(e, tr')
    requires EndsLast(e.turns, idempotent, tr.offers) && EndsLast(e.turns, idempotent, tr'.offers)
    ensures tr.offers == tr'.offers && SendsOf(e.turns, tr.offers) == SendsOf(e.turns, tr'.offers)
  {
    if |tr.offers| < |tr'.offers| {
      NotShorter(e, idempotent, tr, tr');
    } else if |tr'.offers| < |tr.offers| {
      NotShorter(e, idempotent, tr', tr);
    }
    TraceIsUnique(e, tr, tr', |tr.offers|);
    assert tr.offers[..|tr.offers|] == tr.offers && tr'.offers[..|tr'.offers|] == tr'.offers;
  }

  /** The turn that ends one call ends the other. */
  lemma NotShorter(e: Surroundings, idempotent: bool, tr: Trace, tr': Trace)
    requires e.hosts != [] && Follows(e, tr) && Follows(e, tr')
    requires EndsLast(e.turns, idempotent, tr.offers) && EndsLast(e.turns, idempotent, tr'.offers)
    ensures |tr.offers| >= |tr'.offers|
  {
    if |tr.offers| < |tr'.offers| {
      var k := |tr.offers| - 1;
      TraceIsUnique(e, tr, tr', k + 1);
      SameEnd(e.turns, idempotent, tr.offers, tr'.offers, k);
    }
  }

  lemma SameEnd(turns: seq<Turn>, idempotent: bool, offers: seq<Option<TryClient>>, offers': seq<Option<TryClient>>,
                k: nat)
    requires k < |offers| <= |turns| && k < |offers'| <= |turns| && offers[..k + 1] == offers'[..k + 1]
    ensures Ends(turns, idempotent, offers, k) <==> Ends(turns, idempotent, offers', k)
  {
    assert offers[..k + 1][k] == offers'[..k + 1][k];
  }

  /** A call goes on past a turn exactly if a node is handed out that is backed off, or whose request could
      not connect, timed out, or, for an idempotent method, failed after connecting. It ends in the first
      other turn: there is no node left, or the request is answered, or, for a method that is not
      idempotent, failed after connecting. */
  lemma CallEndsExactly(turns: seq<Turn>, idempotent: bool, offers: seq<Option<TryClient>>)
    requires 0 < |offers| <= |turns|
    ensures EndsLast(turns, idempotent, offers) <==>
            var last := |offers| - 1;
            && (offers[last].None?
                || (!turns[last].backedOff
                    && (turns[last].outcome.Answer? || (!idempotent && turns[last].outcome.ClientError?))))
            && forall k | 0 <= k < last ::
                 && offers[k].Some?
                 && (turns[k].backedOff || turns[k].outcome.ConnectError? || turns[k].outcome.TimedOut?
                     || (idempotent && turns[k].outcome.ClientError?))
  {
    forall k | 0 <= k < |offers|
      ensures Ends(turns, idempotent, offers, k) <==>
              || offers[k].None?
              || (!turns[k].backedOff
                  && (turns[k].outcome.Answer? || (!idempotent && turns[k].outcome.ClientError?)))
    {
    }
  }

  /** In how many of the first `k` turns a request is sent. */
  function SendingTurns(turns: seq<Turn>, offers: seq<Option<TryClient>>, k: nat): nat
    requires k <= |offers| <= |turns|
  {
    if k == 0 then 0
    else SendingTurns(turns, offers, k - 1) + if offers[k - 1].Some? && !turns[k - 1].backedOff then 1 else 0
  }

  lemma {:induction false} SendCount(turns: seq<Turn>, offers: seq<Option<TryClient>>, k: nat)
    requires k <= |offers| <= |turns|
    ensures |SendsOf(turns, offers[..k])| == SendingTurns(turns, offers, k)
    decreases k
  {
    if k > 0 {
      SendCount(turns, offers, k - 1);
      assert offers[..k] == offers[..k - 1] + [offers[k - 1]];
      OneMoreOffer(turns, offers[..k - 1], offers[k - 1]);
    }
  }

  /** The request of this turn stands where the requests of the turns before it end. */
  ghost predicate SentAt(turns: seq<Turn>, offers: seq<Option<TryClient>>, sends: seq<Send>, k: nat)
    requires k < |offers| <= |turns|
  {
    offers[k].Some? && !turns[k].backedOff ==>
      var i := SendingTurns(turns, offers, k);
      i < |sends| && sends[i] == Send(offers[k].value, turns[k].outcome)
  }

  lemma SentAtKept(turns: seq<Turn>, offers: seq<Option<TryClient>>, sends: seq<Send>, more: seq<Send>, k: nat)
    requires k < |offers| <= |turns| && SentAt(turns, offers, sends, k)
    ensures SentAt(turns, offers, sends + more, k)
  {
  }

  lemma {:induction false} SentInLastTurn(turns: seq<Turn>, offers: seq<Option<TryClient>>, k: nat)
    requires k < |offers| <= |turns|
    ensures SentAt(turns, offers, SendsOf(turns, offers[..k + 1]), k)
  {
    SendCount(turns, offers, k);
    assert offers[..k + 1] == offers[..k] + [offers[k]];
    OneMoreOffer(turns, offers[..k], offers[k]);
  }

  lemma SendsGrow(turns: seq<Turn>, offers: seq<Option<TryClient>>, k: nat) returns (more: seq<Send>)
    requires k < |offers| <= |turns|
    ensures SendsOf(turns, offers[..k + 1]) == SendsOf(turns, offers[..k]) + more
  {
    assert offers[..k + 1] == offers[..k] + [offers[k]];
    OneMoreOffer(turns, offers[..k], offers[k]);
    more := if offers[k].Some? && !turns[k].backedOff then [Send(offers[k].value, turns[k].outcome)] else [];
  }

  /** One request is sent in every turn with a node that is not backed off, to that node and in the order
      of the turns, and no other. */
  lemma {:induction false} SendsExactly(turns: seq<Turn>, offers: seq<Option<TryClient>>, hi: nat, k: nat)
    requires k < hi <= |offers| <= |turns|
    ensures |SendsOf(turns, offers[..hi])| == SendingTurns(turns, offers, hi)
    ensures SentAt(turns, offers, SendsOf(turns, offers[..hi]), k)
    decreases hi
  {
    SendCount(turns, offers, hi);
    if k == hi - 1 {
      SentInLastTurn(turns, offers, k);
    } else {
      SendsExactly(turns, offers, hi - 1, k);
      var more := SendsGrow(turns, offers, hi - 1);
      SentAtKept(turns, offers, SendsOf(turns, offers[..hi - 1]), more, k);
    }
  }

  /** A call that sends nothing was handed nodes until there were none left, all of them backed off, and
      only such a call does. */
  lemma NothingSentExactly(e: Surroundings, idempotent: bool, tr: Trace)
    requires e.hosts != [] && Follows(e, tr) && EndsLast(e.turns, idempotent, tr.offers)
    ensures var last := |tr.offers| - 1;
            SendsOf(e.turns, tr.offers) == []
            <==> tr.offers[last].None? && forall k | 0 <= k < last :: tr.offers[k].Some? && e.turns[k].backedOff
  {
    SentNothing(e.turns, tr.offers);
    forall k | 0 <= k < |tr.offers| - 1 ensures tr.offers[k].Some? {
      assert !Ends(e.turns, idempotent, tr.offers, k);
    }
  }

  lemma {:induction false} SentNothing(turns: seq<Turn>, offers: seq<Option<TryClient>>)
    requires |offers| <= |turns|
    ensures SendsOf(turns, offers) == [] <==> forall j | 0 <= j < |offers| :: offers[j].None? || turns[j].backedOff
  {
    if offers != [] {
      SentNothing(turns, offers[..|offers| - 1]);
    }
  }

  /** The loop's variables. */
  datatype Locals = Locals(
    sends: seq<Send>,
    marks: seq<Mark>,
    lastErr: Option<Outcome>,
    timedOut: bool,
    first: bool,
    connectRetry: Option<TryClient>)

  const FRESH_LOCALS := Locals([], [], None, false, true, None)

  /** The variables are what these requests demand. */
  ghost predicate Consistent(idempotent: bool, v: Locals) {
    v.marks == AllMarks(idempotent, v.sends) && Remembered(v.sends, v.lastErr, v.timedOut, v.first, v.connectRetry)
  }

  /** Sends the request to one node and draws the consequences of its outcome. */
  method Settle(idempotent: bool, v: Locals, client: TryClient, outcome: Outcome)
    returns (v': Locals, returned: Option<Outcome>)
    requires Consistent(idempotent, v)
    ensures v'.sends == v.sends + [Send(client, outcome)] && v'.marks == AllMarks(idempotent, v'.sends)
    ensures returned == if FailsOver(idempotent, outcome) then None else Some(outcome)
    ensures returned.None? ==> Consistent(idempotent, v')
  {
    AllMarksAppend(idempotent, v.sends, Send(client, outcome));
    v' := v.(sends := v.sends + [Send(client, outcome)], lastErr := None, timedOut := false, first := false);
    returned := None;
    match outcome {
      case ConnectError =>
        if v.first {
          v' := v'.(connectRetry := Some(client));
        }
        v' := v'.(lastErr := Some(outcome));
      case ClientError =>
        if idempotent {
          v' := v'.(lastErr := Some(outcome));
        } else {
          returned := Some(outcome);
          return;
        }
      case Answer(_) =>
        if !client.reachable {
          v' := v'.(marks := v'.marks + [Mark(client.position, true)]);
        }
        returned := Some(outcome);
        return;
      case TimedOut =>
        v' := v'.(timedOut := true);
    }
    if v'.timedOut || v'.lastErr.Some? {
      v' := v'.(marks := v'.marks + [Mark(client.position, false)]);
    }
  }

  /** The loop has gone through these turns and goes on. */
  ghost predicate Going(turns: seq<Turn>, idempotent: bool, offers: seq<Option<TryClient>>, v: Locals)
    requires |offers| <= |turns|
  {
    GoesOn(turns, idempotent, offers, |offers|) && v.sends == SendsOf(turns, offers) && Consistent(idempotent, v)
  }

  /** The loop has gone through these turns and ended, `returned` being its own result if it has one. */
  ghost predicate Finished(turns: seq<Turn>, idempotent: bool, offers: seq<Option<TryClient>>, v: Locals,
                           returned: Option<Outcome>)
    requires |offers| <= |turns|
  {
    && EndsLast(turns, idempotent, offers)
    && v.sends == SendsOf(turns, offers) && v.marks == AllMarks(idempotent, v.sends)
    && returned == (if offers[|offers| - 1].Some? then Some(turns[|offers| - 1].outcome) else None)
    && (returned.None? ==> Consistent(idempotent, v))
  }

  /** What one turn does once the generator has answered. */
  method Account(turns: seq<Turn>, idempotent: bool, turn: nat, ghost offers: seq<Option<TryClient>>, v: Locals,
                 out: Option<TryClient>)
    returns (v': Locals, returned: Option<Outcome>, done: bool)
    requires turn == |offers| < |turns| && Going(turns, idempotent, offers, v)
    ensures if done then Finished(turns, idempotent, offers + [out], v', returned)
            else returned.None? && Going(turns, idempotent, offers + [out], v')
  {
    OneMoreOffer(turns, offers, out);
    StillGoesOn(turns, idempotent, offers, out);
    v', returned, done := v, None, false;
    if out.None? {
      done := true;
    } else if !turns[turn].backedOff {
      v', returned := Settle(idempotent, v, out.value, turns[turn].outcome);
      done := returned.Some?;
    }
  }

  /** The generator stands where the trace ends. */
  ghost predicate OnTrace(gen: ClientGenerator, e: Surroundings, tr: Trace)
    reads gen, gen.state
  {
    && gen.Valid() && e.hosts == gen.state.hosts && Follows(e, tr)
    && tr.points[|tr.offers|] == Point(gen.state.current, gen.task)
  }

  /** Lets other requests move the counter, asks the generator for the next node, and notes the turn. */
  method NextTurn(gen: ClientGenerator, env: Turn, ghost e: Surroundings, ghost tr: Trace)
    returns (out: Option<TryClient>, ghost tr': Trace)
    requires OnTrace(gen, e, tr) && |tr.offers| < |e.turns| && env == e.turns[|tr.offers|]
    modifies gen, gen.state
    ensures OnTrace(gen, e, tr') && tr'.offers == tr.offers + [out]
  {
    out := Proceed(gen, env);
    FollowOneMore(e, tr, Point(gen.state.current, gen.task), out);
    tr' := Trace(tr.points + [Point(gen.state.current, gen.task)], tr.offers + [out]);
  }

  method Proceed(gen: ClientGenerator, env: Turn) returns (out: Option<TryClient>)
    requires gen.Valid()
    modifies gen, gen.state
    ensures gen.Valid()
    ensures Turned(gen.state.hosts, env, old(Point(gen.state.current, gen.task)), Point(gen.state.current, gen.task),
                   out)
  {
    ghost var p := Point(gen.state.current, gen.task);
    AdvanceKeepsInv(|gen.state.hosts|, p.current, p.current + env.advance, p.task);
    gen.state.current := gen.state.current + env.advance;
    out := gen.Next(env.skipMarks, env.labelMarks);
    IsTurn(gen.state.hosts, env, p, gen.state.current, gen.View(), out);
  }

  lemma IsTurn(hosts: seq<string>, env: Turn, p: Point, current: nat, gen: Generator, out: Option<TryClient>)
    requires hosts != []
    requires (current, gen, out)
          == NextClient(hosts, p.current + env.advance, p.task.gen, env.skipMarks, env.labelMarks)
    ensures Turned(hosts, env, p, Point(current, Record(p.task, gen, out)), out)
  {
  }

  lemma FollowOneMore(e: Surroundings, tr: Trace, p: Point, offer: Option<TryClient>)
    requires e.hosts != [] && Follows(e, tr) && |tr.offers| < |e.turns|
    requires Turned(e.hosts, e.turns[|tr.offers|], tr.points[|tr.offers|], p, offer)
    ensures Follows(e, Trace(tr.points + [p], tr.offers + [offer]))
  {
    var tr' := Trace(tr.points + [p], tr.offers + [offer]);
    forall k | 0 <= k < |tr'.offers| ensures TurnedAt(e, tr', k) {
      if k < |tr.offers| {
        assert TurnedAt(e, tr, k);
      }
    }
  }

  /** The loop over the nodes to try. `returned` is set if it ended with a result of its own. */
  method TryNodes(gen: ClientGenerator, idempotent: bool, turns: seq<Turn>)
    returns (v: Locals, returned: Option<Outcome>, ghost tr: Trace)
    requires gen.Valid() && gen.task == NEW_TASK && |turns| > |gen.state.hosts|
    modifies gen, gen.state
    ensures OnTrace(gen, Surroundings(gen.state.hosts, old(gen.state.current), turns), tr)
    ensures Finished(turns, idempotent, tr.offers, v, returned)
  {
    ghost var e := Surroundings(gen.state.hosts, gen.state.current, turns);
    tr := Trace([Point(gen.state.current, NEW_TASK)], []);
    v, returned := FRESH_LOCALS, None;
    var turn, done := 0, false;
    while !done
      invariant OnTrace(gen, e, tr) && turn == |tr.offers| <= |e.hosts| + 1
      invariant !done ==> turn <= |e.hosts| && Going(turns, idempotent, tr.offers, v)
      invariant done ==> Finished(turns, idempotent, tr.offers, v, returned)
      decreases !done, |e.hosts| - turn
    {
      var out, tr' := NextTurn(gen, turns[turn], e, tr);
      v, returned, done := Account(turns, idempotent, turn, tr.offers, v, out);
      tr, turn := tr', turn + 1;
      if !done {
        TurnsBounded(e, idempotent, tr);
      }
    }
  }

  lemma TurnsBounded(e: Surroundings, idempotent: bool, tr: Trace)
    requires e.hosts != [] && Follows(e, tr) && GoesOn(e.turns, idempotent, tr.offers, |tr.offers|)
    ensures |tr.offers| <= |e.hosts|
  {
    SentInTurns(e, idempotent, tr, |tr.offers|);
  }

  lemma StillGoesOn(turns: seq<Turn>, idempotent: bool, offers: seq<Option<TryClient>>, out: Option<TryClient>)
    requires |offers| < |turns| && GoesOn(turns, idempotent, offers, |offers|)
    ensures GoesOn(turns, idempotent, offers + [out], |offers|)
    ensures out.Some? && (turns[|offers|].backedOff || FailsOver(idempotent, turns[|offers|].outcome)) ==>
              GoesOn(turns, idempotent, offers + [out], |offers| + 1)
  {
    forall j | 0 <= j < |offers| ensures !Ends(turns, idempotent, offers + [out], j) {
      assert !Ends(turns, idempotent, offers, j);
    }
  }

  /** Performs one API request. The n-th turn of the surroundings is `turns[n]`, and `retry` is how
      the final retry would end. Returns the requests sent in the loop, whether the final retry was
      sent, the reachability marks written, and the result. */
  method TryRequest(state: MultiClientState, idempotent: bool, remoteBackedOff: bool, parametersOk: bool,
                    turns: seq<Turn>, retry: Outcome)
    returns (sends: seq<Send>, retried: bool, marks: seq<Mark>, result: CallResult, ghost tr: Trace)
    requires state.hosts != [] && |turns| > |state.hosts|
    modifies state
    ensures remoteBackedOff || !parametersOk ==> sends == [] && !retried && state.current == old(state.current)
    ensures !remoteBackedOff && parametersOk ==>
              && Follows(Surroundings(state.hosts, old(state.current), turns), tr)
              && EndsLast(turns, idempotent, tr.offers)
              && sends == SendsOf(turns, tr.offers) && state.current == tr.points[|tr.offers|].current
    ensures CallShape(|state.hosts|, idempotent, sends, retried) && state.current >= old(state.current)
    ensures forall i | 0 <= i < |sends| - 1 ::
              sends[i].outcome.ConnectError? || sends[i].outcome.TimedOut?
                || (idempotent && sends[i].outcome.ClientError?)
    ensures retried <==>
              && sends != [] && sends[0].outcome.ConnectError?
              && var last := sends[|sends| - 1].outcome;
                 last.ConnectError? || last.TimedOut? || (idempotent && last.ClientError?)
    ensures result == if remoteBackedOff then RemoteBackOff
                      else if !parametersOk then BadParameters
                      else ResultOf(idempotent, sends, retried, retry)
    ensures marks == AllMarks(idempotent, sends)
                     + if retried && retry == Answer(true) then [Mark(sends[0].client.position, true)] else []
  {
    tr := Trace([], []);
    if remoteBackedOff {
      return [], false, [], RemoteBackOff, tr;
    }
    if !parametersOk {
      return [], false, [], BadParameters, tr;
    }
    ghost var e := Surroundings(state.hosts, state.current, turns);
    sends, retried, marks, result, tr := Perform(state, idempotent, turns, retry);
    CallFacts(e, idempotent, tr);
  }

  /** The call past the remote's back-off and the conversion of the parameters. */
  method Perform(state: MultiClientState, idempotent: bool, turns: seq<Turn>, retry: Outcome)
    returns (sends: seq<Send>, retried: bool, marks: seq<Mark>, result: CallResult, ghost tr: Trace)
    requires state.hosts != [] && |turns| > |state.hosts|
    modifies state
    ensures Follows(Surroundings(state.hosts, old(state.current), turns), tr) && EndsLast(turns, idempotent, tr.offers)
    ensures sends == SendsOf(turns, tr.offers) && state.current == tr.points[|tr.offers|].current
    ensures retried == RetryDue(idempotent, sends)
    ensures result == ResultOf(idempotent, sends, retried, retry)
    ensures marks == AllMarks(idempotent, sends)
                     + if retried && retry == Answer(true) then [Mark(sends[0].client.position, true)] else []
  {
    ghost var e := Surroundings(state.hosts, state.current, turns);
    var gen := new ClientGenerator(state);
    var v, returned;
    v, returned, tr := TryNodes(gen, idempotent, turns);
    CallFacts(e, idempotent, tr);
    sends := v.sends;
    if returned.Some? {
      retried, marks, result := false, v.marks, Returned(returned.value);
    } else {
      retried, marks, result := Conclude(idempotent, v, retry);
    }
  }

  lemma CallFacts(e: Surroundings, idempotent: bool, tr: Trace)
    requires e.hosts != [] && Follows(e, tr) && EndsLast(e.turns, idempotent, tr.offers)
    ensures var sends := SendsOf(e.turns, tr.offers);
            && CallShape(|e.hosts|, idempotent, sends, RetryDue(idempotent, sends))
            && EndedBy(e.turns, idempotent, tr.offers, sends)
            && e.start <= tr.points[|tr.offers|].current
  {
    CallHasShape(e, idempotent, tr);
    EndOfLoop(e, idempotent, tr);
    PointInv(e, tr, |tr.offers|);
  }

  /** The end of a call whose loop ended by itself: the final retry, if one is due, and the verdict. */
  method Conclude(idempotent: bool, v: Locals, retry: Outcome)
    returns (retried: bool, marks: seq<Mark>, result: CallResult)
    requires Consistent(idempotent, v) && forall i | 0 <= i < |v.sends| :: FailsOver(idempotent, v.sends[i].outcome)
    ensures retried == RetryDue(idempotent, v.sends) && result == ResultOf(idempotent, v.sends, retried, retry)
    ensures marks == v.marks + if retried && retry == Answer(true) then [Mark(v.sends[0].client.position, true)] else []
  {
    marks, retried := v.marks, false;
    if v.connectRetry.Some? {
      retried := true;
      if !retry.TimedOut? {
        if retry == Answer(true) {
          marks := marks + [Mark(v.connectRetry.value.position, true)];
        }
        return retried, marks, Returned(retry);
      }
    }
    result :=
      if v.lastErr.Some? then Returned(v.lastErr.value)
      else if v.timedOut then GaveUpTimedOut
      else UnknownError;
  }

  // ---------------------------------------------------------------------------------------------
  // How often a request may have reached a server

  /** All requests of a call, the final retry included, in the order they were sent. */
  function AllOutcomes(sends: seq<Send>, retried: bool, retry: Outcome): (r: seq<Outcome>)
    ensures |r| == |sends| + if retried then 1 else 0
    ensures forall i | 0 <= i < |sends| :: r[i] == sends[i].outcome
    ensures retried ==> r[|sends|] == retry
  {
    seq(|sends|, i requires 0 <= i < |sends| => sends[i].outcome) + if retried then [retry] else []
  }

  function Count(p: Outcome -> bool, s: seq<Outcome>): nat {
    if s == [] then 0 else (if p(s[0]) then 1 else 0) + Count(p, s[1..])
  }

  predicate MayHaveArrived(o: Outcome) { !o.ConnectError? }

  predicate IsTimeout(o: Outcome) { o.TimedOut? }

  predicate IsReply(o: Outcome) { o.ClientError? || o.Answer? }

  /** Timeouts and replies are the only ways to arrive; replies other than the last one fail over. */
  lemma {:induction false} ArrivalCount(s: seq<Outcome>)
    requires forall i | 0 <= i < |s| - 1 :: s[i].ConnectError? || s[i].TimedOut?
    ensures Count(MayHaveArrived, s) == Count(IsTimeout, s) + if s != [] && IsReply(s[|s| - 1]) then 1 else 0
  {
    if |s| > 1 {
      ArrivalCount(s[1..]);
    }
  }

  /** For a method that is not idempotent, the requests of one call that may have reached a server are
      its timed-out ones and, if the call ends with a reply, that one: without timeouts, at most one. */
  lemma NonIdempotentArrivals(entries: nat, sends: seq<Send>, retried: bool, retry: Outcome)
    requires 0 < entries && CallShape(entries, false, sends, retried)
    ensures var all := AllOutcomes(sends, retried, retry);
            && |all| <= entries + 1
            && Count(MayHaveArrived, all)
               == Count(IsTimeout, all) + (if all != [] && IsReply(all[|all| - 1]) then 1 else 0)
            && (Count(IsTimeout, all) == 0 ==> Count(MayHaveArrived, all) <= 1)
  {
    ArrivalCount(AllOutcomes(sends, retried, retry));
  }

  /** What the result tells: nothing was sent; the last request of the loop timed out, and so did the
      final retry if there was one; or else how the very last request ended, leaving out a final retry
      that timed out. */
  lemma ResultMeaning(entries: nat, idempotent: bool, sends: seq<Send>, retried: bool, retry: Outcome)
    requires 0 < entries && CallShape(entries, idempotent, sends, retried)
    ensures var result := ResultOf(idempotent, sends, retried, retry);
            var all := AllOutcomes(sends, retried, retry);
            && (result == UnknownError <==> all == [])
            && (result == GaveUpTimedOut
                <==> sends != [] && sends[|sends| - 1].outcome.TimedOut? && (retried ==> retry.TimedOut?))
            && (result.Returned? ==>
                  && all != []
                  && result.outcome == if retried
                    && retry.TimedOut? then sends[|sends| - 1].outcome else all[|all| - 1])
            && (forall ok :: result == Returned(Answer(ok)) <==> all != [] && all[|all| - 1] == Answer(ok))
  {
    var all := AllOutcomes(sends, retried, retry);
    if sends != [] {
      assert all[|sends| - 1] == sends[|sends| - 1].outcome;
      assert retried ==> all[|all| - 1] == retry;
    }
  }

  /** The "unknown error" of a call that got as far as its loop means that the generator handed out nodes
      until it had none left and that all of them were backed off. */
  lemma UnknownErrorExactly(e: Surroundings, idempotent: bool, tr: Trace, retry: Outcome)
    requires e.hosts != [] && Follows(e, tr) && EndsLast(e.turns, idempotent, tr.offers)
    ensures var sends := SendsOf(e.turns, tr.offers);
            var last := |tr.offers| - 1;
            ResultOf(idempotent, sends, RetryDue(idempotent, sends), retry) == UnknownError
            <==> tr.offers[last].None? && forall k | 0 <= k < last :: tr.offers[k].Some? && e.turns[k].backedOff
  {
    NothingSentExactly(e, idempotent, tr);
  }

  /** The first turn hands out the node the counter stands at. */
  lemma FirstTurn(hosts: seq<string>, env: Turn, start: nat)
    requires hosts != [] && env.advance == 0 && HostAt(hosts, start) !in env.labelMarks
    ensures Turned(hosts, env, Point(start, NEW_TASK), Point(start, FirstTried(start)), Some(TryClient(start, true)))
  {
    assert [] + [start] == [start];
  }

  function FirstTried(start: nat): Task {
    Task(Generator(Some((start, start)), [], None, false), [start], [])
  }

  /** A turn that finds another node to try. */
  lemma {:induction false} TurnAdvances(hosts: seq<string>, env: Turn, p: Point)
    requires hosts != [] && env.advance == 0
    requires var g := p.task.gen;
             g.startCurrent.Some? && g.startCurrent.value.1 == p.current && g.tryUnreachable.None? && !g.fused
    requires SkipTarget(hosts, env.skipMarks, p.current + 1, |hosts|) - p.task.gen.startCurrent.value.0 < |hosts|
    ensures var now := SkipTarget(hosts, env.skipMarks, p.current + 1, |hosts|);
            var g := p.task.gen;
            var gen := g.(startCurrent := Some((g.startCurrent.value.0, now)),
                          unreachable := g.unreachable + Range(p.current + 1, now));
            Turned(hosts, env, p, Point(now, Task(gen, p.task.first + [now], p.task.replayed)),
                   Some(TryClient(now, HostAt(hosts, now) !in env.labelMarks)))
  {
    NextAdvances(hosts, p.current, p.task.gen, env.skipMarks, env.labelMarks);
  }

  /** The next turn hands out the next node, if that is not marked. */
  lemma SecondTurn(hosts: seq<string>, env: Turn, start: nat)
    requires |hosts| > 1 && env.advance == 0
    requires HostAt(hosts, start + 1) !in env.skipMarks && HostAt(hosts, start + 1) !in env.labelMarks
    ensures Turned(hosts, env, Point(start, FirstTried(start)), Point(start + 1, SecondTried(start)),
                   Some(TryClient(start + 1, true)))
  {
    assert SkipTarget(hosts, env.skipMarks, start + 1, |hosts|) == start + 1;
    assert [] + Range(start + 1, start + 1) == [] && [start] + [start + 1] == [start, start + 1];
    TurnAdvances(hosts, env, Point(start, FirstTried(start)));
  }

  function SecondTried(start: nat): Task {
    Task(Generator(Some((start, start + 1)), [], None, false), [start, start + 1], [])
  }

  lemma TwoTurns(e: Surroundings) returns (tr: Trace)
    requires |e.hosts| > 1 && |e.turns| > 1 && e.turns[0].advance == 0 && e.turns[1].advance == 0
    requires HostAt(e.hosts, e.start) !in e.turns[0].labelMarks
    requires HostAt(e.hosts, e.start + 1) !in e.turns[1].skipMarks
    requires HostAt(e.hosts, e.start + 1) !in e.turns[1].labelMarks
    ensures Follows(e, tr) && tr.offers == [Some(TryClient(e.start, true)), Some(TryClient(e.start + 1, true))]
  {
    var p0, p1, p2 := Point(e.start, NEW_TASK), Point(e.start, FirstTried(e.start)),
      Point(e.start + 1, SecondTried(e.start));
    FirstTurn(e.hosts, e.turns[0], e.start);
    SecondTurn(e.hosts, e.turns[1], e.start);
    tr := Trace([p0, p1, p2], [Some(TryClient(e.start, true)), Some(TryClient(e.start + 1, true))]);
    assert TurnedAt(e, tr, 0) && TurnedAt(e, tr, 1);
  }

  lemma {:induction false} TwoSends(turns: seq<Turn>, c: TryClient, d: TryClient)
    requires |turns| > 1 && !turns[0].backedOff && !turns[1].backedOff
    ensures SendsOf(turns, [Some(c), Some(d)]) == [Send(c, turns[0].outcome), Send(d, turns[1].outcome)]
  {
    OneMoreOffer(turns, [], Some(c));
    OneMoreOffer(turns, [Some(c)], Some(d));
    assert [] + [Some(c)] == [Some(c)] && [Some(c)] + [Some(d)] == [Some(c), Some(d)];
  }

  lemma TwoArrivals(sends: seq<Send>, retry: Outcome)
    requires |sends| == 2 && MayHaveArrived(sends[0].outcome) && MayHaveArrived(sends[1].outcome)
    ensures Count(MayHaveArrived, AllOutcomes(sends, false, retry)) == 2
  {
    var all := AllOutcomes(sends, false, retry);
    assert all[1..] == [all[1]] && all[1..][1..] == [];
    assert Count(MayHaveArrived, all[1..]) == 1;
  }

  /** Across timeouts a request that is not idempotent can arrive twice: the first of two nodes times out
      and the second one answers. */
  lemma TimeoutMayRepeat() returns (e: Surroundings, tr: Trace)
    ensures e.hosts == ["a", "b"] && e.start == 0 && |e.turns| > |e.hosts|
    ensures Follows(e, tr) && EndsLast(e.turns, false, tr.offers)
    ensures SendsOf(e.turns, tr.offers) == [Send(TryClient(0, true), TimedOut), Send(TryClient(1, true), Answer(true))]
    ensures Count(MayHaveArrived, AllOutcomes(SendsOf(e.turns, tr.offers), false, TimedOut)) == 2
  {
    var answer := Turn(0, {"a"}, {"a"}, false, Answer(true));
    e := Surroundings(["a", "b"], 0, [Turn(0, {}, {}, false, TimedOut), answer, answer]);
    assert HostAt(e.hosts, 0) == "a" && HostAt(e.hosts, 1) == "b";
    tr := TwoTurns(e);
    TwoSends(e.turns, TryClient(0, true), TryClient(1, true));
    TwoArrivals(SendsOf(e.turns, tr.offers), TimedOut);
  }

  /** After a failure past connecting, an idempotent request goes on to the next node: the first of two
      nodes fails and is marked, the second one answers, and its answer is the result. */
  lemma IdempotentFailsOver() returns (e: Surroundings, tr: Trace)
    ensures e.hosts == ["a", "b"] && e.start == 0 && |e.turns| > |e.hosts|
    ensures Follows(e, tr) && EndsLast(e.turns, true, tr.offers)
    ensures var sends := SendsOf(e.turns, tr.offers);
            && sends == [Send(TryClient(0, true), ClientError), Send(TryClient(1, true), Answer(true))]
            && AllMarks(true, sends) == [Mark(0, false)]
            && ResultOf(true, sends, RetryDue(true, sends), TimedOut) == Returned(Answer(true))
  {
    var answer := Turn(0, {"a"}, {"a"}, false, Answer(true));
    e := Surroundings(["a", "b"], 0, [Turn(0, {}, {}, false, ClientError), answer, answer]);
    assert HostAt(e.hosts, 0) == "a" && HostAt(e.hosts, 1) == "b";
    tr := TwoTurns(e);
    TwoSends(e.turns, TryClient(0, true), TryClient(1, true));
    SecondAnswers(SendsOf(e.turns, tr.offers), true);
  }

  lemma {:induction false} SecondAnswers(sends: seq<Send>, ok: bool)
    requires |sends| == 2 && sends[0].outcome == ClientError && sends[1].outcome == Answer(ok)
             && sends[1].client.reachable
    ensures AllMarks(true, sends) == [Mark(sends[0].client.position, false)]
    ensures ResultOf(true, sends, RetryDue(true, sends), TimedOut) == Returned(Answer(ok))
  {
    TwoMarks(true, sends);
  }

  lemma {:induction false} TwoMarks(idempotent: bool, sends: seq<Send>)
    requires |sends| == 2
    ensures AllMarks(idempotent, sends) == MarksOf(idempotent, sends[0]) + MarksOf(idempotent, sends[1])
  {
    AllMarksAppend(idempotent, [], sends[0]);
    AllMarksAppend(idempotent, [sends[0]], sends[1]);
    assert [] + [sends[0]] == [sends[0]] && [sends[0]] + [sends[1]] == sends;
  }
}
