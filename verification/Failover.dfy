/** The node-rotating client of server/src/connection.rs: the shared counter, the per-request
    generator of nodes to try, and every interleaving of such generators. */
module Failover {
  import opened Basics
  import opened Modular

  /** A node handed out to a request: its un-wrapped position, and whether it is labelled reachable. */
  datatype TryClient = TryClient(position: nat, reachable: bool)

  /** The captured variables of one generator; `fused` is set once it has answered `None`. */
  datatype Generator = Generator(
    startCurrent: Option<(nat, nat)>,
    unreachable: seq<nat>,
    tryUnreachable: Option<seq<nat>>,
    fused: bool)

  const FRESH := Generator(None, [], None, false)

  /** The host name of the entry at a position. */
  function HostAt(hosts: seq<string>, position: nat): string
    requires hosts != []
  {
    hosts[position % |hosts|]
  }

  /** First position from `current` on whose host is not marked, giving up after `tries` positions.
      `marked` is a snapshot of the host names the mapping cache holds as unreachable. */
  function SkipTarget(hosts: seq<string>, marked: set<string>, current: nat, tries: nat): (target: nat)
    requires hosts != []
    ensures current <= target <= current + tries
    decreases tries
  {
    if tries == 0 || HostAt(hosts, current) !in marked then current
    else SkipTarget(hosts, marked, current + 1, tries - 1)
  }

  /** Skipping passes marked hosts only, and stops at the first one that is not marked. */
  lemma {:induction false} SkipsMarked(hosts: seq<string>, marked: set<string>, current: nat, tries: nat)
    requires hosts != []
    ensures var target := SkipTarget(hosts, marked, current, tries);
            && (forall p | current <= p < target :: HostAt(hosts, p) in marked)
            && (target < current + tries ==> HostAt(hosts, target) !in marked)
    decreases tries
  {
    if tries > 0 && HostAt(hosts, current) in marked {
      SkipsMarked(hosts, marked, current + 1, tries - 1);
    }
  }

  /** One call of the generator under the state lock: new counter, new generator, node handed out. */
  function NextClient(hosts: seq<string>, current: nat, g: Generator, skipMarks: set<string>, labelMarks: set<string>)
    : (nat, Generator, Option<TryClient>)
    requires hosts != []
  {
    if g.fused then
      (current, g, None)
    else if g.tryUnreachable.Some? then
      var rest := g.tryUnreachable.value;
      if rest == [] then (current, g.(fused := true), None)
      else (current, g.(tryUnreachable := Some(rest[1..])), Some(TryClient(rest[0], false)))
    else if g.startCurrent.None? then
      (current, g.(startCurrent := Some((current, current))),
       Some(TryClient(current, HostAt(hosts, current) !in labelMarks)))
    else
      var (start, last) := g.startCurrent.value;
      var now := if current == last then SkipTarget(hosts, skipMarks, current + 1, |hosts|) else current;
      if now - start >= |hosts| then
        if g.unreachable == [] then
          (now, g.(tryUnreachable := Some([]), fused := true), None)
        else
          (now, g.(unreachable := [], tryUnreachable := Some(g.unreachable[1..])),
           Some(TryClient(g.unreachable[0], false)))
      else
        var skipped := if last + 1 <= now then Range(last + 1, now) else [];
        (now, g.(startCurrent := Some((start, now)), unreachable := g.unreachable + skipped),
         Some(TryClient(now, HostAt(hosts, now) !in labelMarks)))
  }

  /** A generator together with what it handed out: while rotating, and while replaying skipped nodes. */
  datatype Task = Task(gen: Generator, first: seq<nat>, replayed: seq<nat>) {
    function Handed(): seq<nat> { first + replayed }
  }

  const NEW_TASK := Task(FRESH, [], [])

  /** Records the outcome of one generator call in the history. */
  function Record(t: Task, gen: Generator, out: Option<TryClient>): Task {
    match out
    case None => t.(gen := gen)
    case Some(c) =>
      if gen.tryUnreachable.None? then Task(gen, t.first + [c.position], t.replayed)
      else Task(gen, t.first, t.replayed + [c.position])
  }

  /** One generator call with its history: new counter and new task. */
  function CallTask(hosts: seq<string>, current: nat, t: Task, skipMarks: set<string>, labelMarks: set<string>)
    : (nat, Task)
    requires hosts != []
  {
    var (current', gen, out) := NextClient(hosts, current, t.gen, skipMarks, labelMarks);
    (current', Record(t, gen, out))
  }

  /** The client's shared counter and the generators of all requests made so far. */
  datatype System = System(current: nat, tasks: seq<Task>)

  /** What may happen next: a new request starts, or any running one asks for its next node.
      Both snapshots of the reachability marks are arbitrary. */
  datatype Action =
    | Spawn
    | Call(task: nat, skipMarks: set<string>, labelMarks: set<string>)

  function Apply(hosts: seq<string>, s: System, a: Action): System
    requires hosts != []
  {
    match a
    case Spawn => s.(tasks := s.tasks + [NEW_TASK])
    case Call(i, skipMarks, labelMarks) =>
      if i < |s.tasks| then
        var (current, t) := CallTask(hosts, s.current, s.tasks[i], skipMarks, labelMarks);
        System(current, s.tasks[i := t])
      else s
  }

  /** The state after a run, that is, any interleaving of generator calls. */
  function Run(hosts: seq<string>, s: System, actions: seq<Action>): System
    requires hosts != []
    decreases |actions|
  {
    if actions == [] then s
    else Apply(hosts, Run(hosts, s, actions[..|actions| - 1]), actions[|actions| - 1])
  }

  // ---------------------------------------------------------------------------------------------
  // What a call hands out

  /** The generator has started and is still rotating through the positions from `start` on. */
  predicate Rotating(g: Generator, start: nat, last: nat) {
    g.startCurrent == Some((start, last)) && g.tryUnreachable.None? && !g.fused
  }

  /** The first call hands out the entry the counter stands at, marked or not, and leaves the counter. */
  lemma FirstOffer(hosts: seq<string>, current: nat, skipMarks: set<string>, labelMarks: set<string>)
    requires hosts != []
    ensures var r := NextClient(hosts, current, FRESH, skipMarks, labelMarks);
            && r.0 == current && Rotating(r.1, current, current) && r.1.unreachable == []
            && r.2 == Some(TryClient(current, hosts[current % |hosts|] !in labelMarks))
  {
  }

  /** If other requests moved the counter on, a call leaves it there and hands out the entry it stands at,
      whether that is marked or not; the positions in between are remembered. */
  lemma MovedOffer(hosts: seq<string>, current: nat, g: Generator, start: nat, last: nat,
                   skipMarks: set<string>, labelMarks: set<string>)
    requires hosts != [] && Rotating(g, start, last) && last < current < start + |hosts|
    ensures var r := NextClient(hosts, current, g, skipMarks, labelMarks);
            && r.0 == current && Rotating(r.1, start, current)
            && r.1.unreachable == g.unreachable + Range(last + 1, current)
            && r.2 == Some(TryClient(current, hosts[current % |hosts|] !in labelMarks))
  {
  }

  lemma {:induction false} SkipsTo(hosts: seq<string>, marked: set<string>, current: nat, tries: nat, p: nat)
    requires hosts != [] && current <= p <= current + tries
    requires forall q | current <= q < p :: hosts[q % |hosts|] in marked
    requires p == current + tries || hosts[p % |hosts|] !in marked
    ensures SkipTarget(hosts, marked, current, tries) == p
    decreases tries
  {
    if current < p {
      assert HostAt(hosts, current) in marked;
      SkipsTo(hosts, marked, current + 1, tries - 1, p);
    }
  }

  /** If the counter still stands where the request used it, a call moves it to the next entry that is not
      marked, hands that out and remembers the marked ones in between. */
  lemma NextOffer(hosts: seq<string>, g: Generator, start: nat, last: nat, p: nat,
                  skipMarks: set<string>, labelMarks: set<string>)
    requires hosts != [] && Rotating(g, start, last) && start <= last < p < start + |hosts|
    requires forall q | last < q < p :: hosts[q % |hosts|] in skipMarks
    requires hosts[p % |hosts|] !in skipMarks
    ensures var r := NextClient(hosts, last, g, skipMarks, labelMarks);
            && r.0 == p && Rotating(r.1, start, p) && r.1.unreachable == g.unreachable + Range(last + 1, p)
            && r.2 == Some(TryClient(p, hosts[p % |hosts|] !in labelMarks))
  {
    SkipsTo(hosts, skipMarks, last + 1, |hosts|, p);
  }

  /** The generator stops rotating: nothing is handed out if nothing was remembered, else the first
      remembered entry, labelled unreachable, with the others to follow in order. */
  ghost predicate TurnsToRemembered(g: Generator, g': Generator, out: Option<TryClient>) {
    if g.unreachable == [] then
      out == None && g'.fused && g'.startCurrent == g.startCurrent
    else
      && out == Some(TryClient(g.unreachable[0], false))
      && g'.tryUnreachable == Some(g.unreachable[1..]) && !g'.fused && g'.startCurrent == g.startCurrent
  }

  /** A call stops rotating if the counter is as far from the start as there are entries: other requests
      moved it there, or all entries left are marked. */
  lemma GiveUpOffer(hosts: seq<string>, current: nat, g: Generator, start: nat, last: nat,
                    skipMarks: set<string>, labelMarks: set<string>)
    requires hosts != [] && Rotating(g, start, last) && start <= last <= current
    requires if current == last then
               last < start + |hosts| && forall q | last < q < start + |hosts| :: hosts[q % |hosts|] in skipMarks
             else current >= start + |hosts|
    ensures var r := NextClient(hosts, current, g, skipMarks, labelMarks);
            r.0 >= start + |hosts| && (current != last ==> r.0 == current) && TurnsToRemembered(g, r.1, r.2)
  {
    if current == last {
      SkipsMarked(hosts, skipMarks, last + 1, |hosts|);
    }
  }

  /** Then the remembered entries follow in order, labelled unreachable, without moving the counter, and
      after the last one nothing ever again. */
  lemma RememberedOffer(hosts: seq<string>, current: nat, g: Generator, skipMarks: set<string>, labelMarks: set<string>)
    requires hosts != [] && (g.fused || g.tryUnreachable.Some?)
    ensures var r := NextClient(hosts, current, g, skipMarks, labelMarks);
            && r.0 == current
            && if g.fused || g.tryUnreachable.value == [] then
                 r.2 == None && r.1.fused
               else
                 && r.2 == Some(TryClient(g.tryUnreachable.value[0], false))
                 && r.1 == g.(tryUnreachable := Some(g.tryUnreachable.value[1..]))
  {
  }

  // ---------------------------------------------------------------------------------------------
  // What every interleaving keeps

  /** Nodes used while rotating and nodes remembered for later are, each once, exactly the positions
      from the start of the request to the position it used last: fewer than there are entries. */
  ghost predicate Covers(first: seq<nat>, remembered: seq<nat>, start: nat, last: nat) {
    Partition(first, remembered, start, last) && Ordered(first, remembered, start, last)
  }

  ghost predicate Partition(first: seq<nat>, remembered: seq<nat>, start: nat, last: nat) {
    start <= last && multiset(first) + multiset(remembered) == multiset(Range(start, last + 1))
  }

  ghost predicate Ordered(first: seq<nat>, remembered: seq<nat>, start: nat, last: nat) {
    && Increasing(first) && first != [] && first[0] == start && first[|first| - 1] == last
    && Increasing(remembered) && (remembered != [] ==> remembered[|remembered| - 1] < last)
  }

  ghost predicate TaskInv(entries: nat, current: nat, t: Task) {
    match t.gen.startCurrent
    case None => t == NEW_TASK
    case Some((start, last)) =>
      && start <= last <= current && last - start < entries
      && match t.gen.tryUnreachable
         case None => !t.gen.fused && t.replayed == [] && Covers(t.first, t.gen.unreachable, start, last)
         case Some(rest) =>
           && t.gen.unreachable == []
           && (t.gen.fused ==> rest == [])
           && Covers(t.first, t.replayed + rest, start, last)
  }

  ghost predicate SystemInv(entries: nat, s: System) {
    forall i | 0 <= i < |s.tasks| :: TaskInv(entries, s.current, s.tasks[i])
  }

  lemma RangeGrows(start: nat, last: nat, now: nat)
    requires start <= last < now
    ensures Range(start, now + 1) == Range(start, last + 1) + Range(last + 1, now) + [now]
  {
  }

  lemma PartitionExtend(first: seq<nat>, remembered: seq<nat>, start: nat, last: nat, now: nat)
    requires Partition(first, remembered, start, last) && last < now
    ensures Partition(first + [now], remembered + Range(last + 1, now), start, now)
  {
    var skipped := Range(last + 1, now);
    RangeGrows(start, last, now);
    assert multiset(Range(start, last + 1) + skipped + [now])
           == multiset(Range(start, last + 1)) + multiset(skipped) + multiset{now};
    assert multiset(first + [now]) == multiset(first) + multiset{now};
    assert multiset(remembered + skipped) == multiset(remembered) + multiset(skipped);
  }

  lemma OrderedExtend(first: seq<nat>, remembered: seq<nat>, start: nat, last: nat, now: nat)
    requires Ordered(first, remembered, start, last) && last < now
    ensures Ordered(first + [now], remembered + Range(last + 1, now), start, now)
  {
  }

  lemma FirstCallKeepsInv(hosts: seq<string>, current: nat, labelMarks: set<string>)
    requires hosts != []
    ensures var (current', t') := CallTask(hosts, current, NEW_TASK, {}, labelMarks);
            current == current' && TaskInv(|hosts|, current', t')
  {
    assert Range(current, current + 1) == [current];
    assert [] + [current] == [current];
  }

  lemma ReplayCallKeepsInv(hosts: seq<string>, current: nat, t: Task, skipMarks: set<string>, labelMarks: set<string>)
    requires hosts != [] && TaskInv(|hosts|, current, t)
    requires t.gen.tryUnreachable.Some?
    ensures var (current', t') := CallTask(hosts, current, t, skipMarks, labelMarks);
            current == current' && TaskInv(|hosts|, current', t')
  {
    var rest := t.gen.tryUnreachable.value;
    if !t.gen.fused && rest != [] {
      assert t.replayed + rest == t.replayed + [rest[0]] + rest[1..];
    }
  }

  /** The call that gives up rotating turns the remembered positions into the replay. */
  lemma GiveUpCallKeepsInv(n: nat, current: nat, current': nat, t: Task)
    requires TaskInv(n, current, t) && current <= current'
    requires t.gen.startCurrent.Some? && t.gen.tryUnreachable.None?
    ensures t.gen.unreachable == []
            ==> TaskInv(n, current', t.(gen := t.gen.(tryUnreachable := Some([]), fused := true)))
    ensures var u := t.gen.unreachable;
            u != [] ==> TaskInv(n, current',
                                Task(t.gen.(unreachable := [], tryUnreachable := Some(u[1..])), t.first,
                                     t.replayed + [u[0]]))
  {
    var u := t.gen.unreachable;
    assert t.replayed + [] == [];
    if u != [] {
      assert t.replayed + [u[0]] == [u[0]];
      assert [u[0]] + u[1..] == u;
    }
  }

  lemma RotatingCovers(n: nat, current: nat, t: Task, start: nat, last: nat)
    requires TaskInv(n, current, t) && t.gen.startCurrent == Some((start, last)) && t.gen.tryUnreachable.None?
    ensures Partition(t.first, t.gen.unreachable, start, last) && Ordered(t.first, t.gen.unreachable, start, last)
    ensures t.replayed == [] && !t.gen.fused
  {
  }

  lemma RotateCallKeepsInv(n: nat, current: nat, now: nat, t: Task, start: nat, last: nat, gen: Generator)
    requires TaskInv(n, current, t) && t.gen.startCurrent == Some((start, last)) && t.gen.tryUnreachable.None?
    requires last < now < start + n
    requires gen == t.gen.(startCurrent := Some((start, now)), unreachable := t.gen.unreachable + Range(last + 1, now))
    ensures TaskInv(n, now, Task(gen, t.first + [now], t.replayed))
  {
    RotatingCovers(n, current, t, start, last);
    PartitionExtend(t.first, t.gen.unreachable, start, last, now);
    OrderedExtend(t.first, t.gen.unreachable, start, last, now);
  }

  /** One call keeps the history complete and free of repeats, whoever moved the counter before it. */
  lemma CallKeepsTaskInv(hosts: seq<string>, current: nat, t: Task, skipMarks: set<string>, labelMarks: set<string>)
    requires hosts != [] && TaskInv(|hosts|, current, t)
    ensures var (current', t') := CallTask(hosts, current, t, skipMarks, labelMarks);
            current <= current' && TaskInv(|hosts|, current', t')
  {
    var (current', gen, out) := NextClient(hosts, current, t.gen, skipMarks, labelMarks);
    if t.gen.startCurrent.None? {
      FirstCallKeepsInv(hosts, current, labelMarks);
    } else if t.gen.tryUnreachable.Some? {
      ReplayCallKeepsInv(hosts, current, t, skipMarks, labelMarks);
    } else if current' - t.gen.startCurrent.value.0 >= |hosts| {
      GiveUpCallKeepsInv(|hosts|, current, current', t);
    } else {
      var (start, last) := t.gen.startCurrent.value;
      RotateCallKeepsInv(|hosts|, current, current', t, start, last, gen);
    }
  }

  lemma ApplyKeepsInv(hosts: seq<string>, s: System, a: Action)
    requires hosts != [] && SystemInv(|hosts|, s)
    ensures SystemInv(|hosts|, Apply(hosts, s, a))
    ensures s.current <= Apply(hosts, s, a).current
  {
    if a.Call? && a.task < |s.tasks| {
      CallKeepsTaskInv(hosts, s.current, s.tasks[a.task], a.skipMarks, a.labelMarks);
      var s' := Apply(hosts, s, a);
      forall i | 0 <= i < |s'.tasks| ensures TaskInv(|hosts|, s'.current, s'.tasks[i]) {
        assert i != a.task ==> s'.tasks[i] == s.tasks[i];
      }
    }
  }

  /** Under every interleaving of any number of requests, with the reachability marks changing at
      will, every generator's history is complete and free of repeats. */
  lemma {:induction false} EveryRunKeepsInv(hosts: seq<string>, start: nat, actions: seq<Action>)
    requires hosts != []
    ensures SystemInv(|hosts|, Run(hosts, System(start, []), actions))
    decreases |actions|
  {
    if actions != [] {
      var n := |actions| - 1;
      EveryRunKeepsInv(hosts, start, actions[..n]);
      ApplyKeepsInv(hosts, Run(hosts, System(start, []), actions[..n]), actions[n]);
    }
  }

  /** Seen from one request, whatever the others do leaves its generator alone and only moves the
      counter forward. */
  lemma {:induction false} OthersOnlyAdvance(hosts: seq<string>, s: System, actions: seq<Action>, i: nat)
    requires hosts != [] && SystemInv(|hosts|, s) && i < |s.tasks|
    requires forall k | 0 <= k < |actions| :: actions[k].Call? ==> actions[k].task != i
    ensures var s' := Run(hosts, s, actions);
            SystemInv(|hosts|, s') && |s.tasks| <= |s'.tasks| && s'.tasks[i] == s.tasks[i] && s.current <= s'.current
    decreases |actions|
  {
    if actions != [] {
      var n := |actions| - 1;
      OthersOnlyAdvance(hosts, s, actions[..n], i);
      ApplyKeepsInv(hosts, Run(hosts, s, actions[..n]), actions[n]);
    }
  }

  // ---------------------------------------------------------------------------------------------
  // No entry is handed out twice

  /** Handed out or still pending, a started generator's positions are a permutation of a range. */
  lemma HandedIsRange(n: nat, current: nat, t: Task) returns (pending: seq<nat>, start: nat, last: nat)
    requires TaskInv(n, current, t) && t.gen.startCurrent.Some?
    ensures t.gen.startCurrent == Some((start, last)) && start <= last < start + n
    ensures multiset(t.Handed() + pending) == multiset(Range(start, last + 1))
    ensures t.gen.fused ==> pending == []
  {
    start, last := t.gen.startCurrent.value.0, t.gen.startCurrent.value.1;
    if t.gen.tryUnreachable.Some? {
      pending := t.gen.tryUnreachable.value;
      assert t.Handed() + pending == t.first + (t.replayed + pending);
      assert multiset(t.Handed() + pending) == multiset(t.first) + multiset(t.replayed + pending);
    } else {
      pending := t.gen.unreachable;
      assert t.Handed() == t.first;
    }
  }

  lemma PermutedRange(s: seq<nat>, start: nat, last: nat)
    requires start <= last + 1 && multiset(s) == multiset(Range(start, last + 1))
    ensures NoRepeats(s) && |s| == last + 1 - start
    ensures forall p :: p in s <==> start <= p <= last
  {
    var range := Range(start, last + 1);
    NoRepeatsPermuted(s, range);
    assert |s| == |multiset(s)| == |multiset(range)| == |range|;
    forall p ensures p in s <==> start <= p <= last {
      assert p in s <==> p in multiset(s);
      assert p in range <==> p in multiset(range);
      assert start <= p <= last ==> range[p - start] == p;
    }
  }

  /** All positions handed out name different entries. */
  lemma HandedEntriesDiffer(n: nat, current: nat, t: Task)
    requires 0 < n && TaskInv(n, current, t)
    ensures |t.Handed()| <= n
    ensures forall i, j | 0 <= i < j < |t.Handed()| :: t.Handed()[i] % n != t.Handed()[j] % n
  {
    if t.gen.startCurrent.Some? {
      var pending, start, last := HandedIsRange(n, current, t);
      var all := t.Handed() + pending;
      PermutedRange(all, start, last);
      forall i, j | 0 <= i < j < |t.Handed()| ensures t.Handed()[i] % n != t.Handed()[j] % n {
        var p, q := all[i], all[j];
        assert p in all && q in all && p != q;
        if p < q { DistinctEntries(n, p, q); } else { DistinctEntries(n, q, p); }
      }
    }
  }

  /** In every run no request is handed the same entry twice, so at most as many nodes as there are. */
  lemma {:induction false} NoEntryTwice(hosts: seq<string>, start: nat, actions: seq<Action>, i: nat)
    requires hosts != []
    requires i < |Run(hosts, System(start, []), actions).tasks|
    ensures var handed := Run(hosts, System(start, []), actions).tasks[i].Handed();
            && |handed| <= |hosts|
            && forall j, k | 0 <= j < k < |handed| :: handed[j] % |hosts| != handed[k] % |hosts|
  {
    EveryRunKeepsInv(hosts, start, actions);
    var s := Run(hosts, System(start, []), actions);
    HandedEntriesDiffer(|hosts|, s.current, s.tasks[i]);
  }

  // ---------------------------------------------------------------------------------------------
  // Which entries a drained generator has reached

  /** Every entry of the remote was handed out. */
  ghost predicate ReachesAll(n: nat, handed: seq<nat>)
    requires 0 < n
  {
    forall e | 0 <= e < n :: Reaches(n, handed, e)
  }

  ghost predicate Reaches(n: nat, handed: seq<nat>, e: nat)
    requires 0 < n
  {
    exists p :: p in handed && p % n == e
  }

  /** A drained generator has handed out all entries if and only if it used the entry just before
      its starting point: what is skipped in the call that gives up is never remembered. */
  lemma DrainedReach(n: nat, current: nat, t: Task)
    requires 0 < n && TaskInv(n, current, t) && t.gen.fused
    ensures t.gen.startCurrent.Some?
    ensures var (start, last) := t.gen.startCurrent.value;
            ReachesAll(n, t.Handed()) <==> last == start + n - 1
  {
    var pending, start, last := HandedIsRange(n, current, t);
    assert t.Handed() + pending == t.Handed();
    PermutedRange(t.Handed(), start, last);
    if last == start + n - 1 {
      forall e | 0 <= e < n ensures Reaches(n, t.Handed(), e) {
        var p := EntryInWindow(n, start, e);
        assert p in t.Handed();
      }
    } else {
      var missed := start + n - 1;
      forall p | p in t.Handed() ensures p % n != missed % n {
        DistinctEntries(n, p, missed);
      }
      assert 0 <= missed % n < n;
      assert !Reaches(n, t.Handed(), missed % n);
    }
  }

  // ---------------------------------------------------------------------------------------------
  // One request running alone

  /** A request that runs alone from position `start`, with the hosts in `marked` marked beforehand. */
  datatype Walk = Walk(hosts: seq<string>, start: nat, marked: set<string>) {
    function End(): nat { start + |hosts| }
  }

  /** The hosts marked beforehand and those at the positions before `p`. */
  function Seen(w: Walk, p: nat): set<string>
    requires w.hosts != [] && w.start <= p
    decreases p
  {
    if p == w.start then w.marked else Seen(w, p - 1) + {HostAt(w.hosts, p - 1)}
  }

  /** The host at a position was marked beforehand or is that of an earlier entry. */
  predicate Blocked(w: Walk, p: nat)
    requires w.hosts != [] && w.start <= p
  {
    HostAt(w.hosts, p) in Seen(w, p)
  }

  /** The positions after the start and below `hi` that are blocked, or those that are not. */
  function Pick(w: Walk, blocked: bool, hi: nat): seq<nat>
    requires w.hosts != [] && w.start < hi
    decreases hi
  {
    if hi == w.start + 1 then []
    else Pick(w, blocked, hi - 1) + (if Blocked(w, hi - 1) == blocked then [hi - 1] else [])
  }

  /** The positions below `hi` that are tried while rotating. */
  function Tried(w: Walk, hi: nat): seq<nat>
    requires w.hosts != [] && w.start < hi
  {
    [w.start] + Pick(w, false, hi)
  }

  ghost predicate AllBlocked(w: Walk, lo: nat, hi: nat)
    requires w.hosts != [] && w.start <= lo
  {
    forall p | lo <= p < hi :: Blocked(w, p)
  }

  lemma RangeOneMore(lo: nat, hi: nat)
    requires lo <= hi
    ensures Range(lo, hi + 1) == Range(lo, hi) + [hi]
  {
  }

  lemma {:induction false} PickBlocked(w: Walk, mid: nat, hi: nat)
    requires w.hosts != [] && w.start < mid <= hi && AllBlocked(w, mid, hi)
    ensures Pick(w, true, hi) == Pick(w, true, mid) + Range(mid, hi)
    ensures Pick(w, false, hi) == Pick(w, false, mid)
    decreases hi
  {
    if mid < hi {
      PickBlocked(w, mid, hi - 1);
      assert Blocked(w, hi - 1);
      RangeOneMore(mid, hi - 1);
    }
  }

  lemma {:induction false} PickUnblocked(w: Walk, hi: nat)
    requires w.hosts != [] && w.start < hi && forall p | w.start < p < hi :: !Blocked(w, p)
    ensures Tried(w, hi) == Range(w.start, hi) && Pick(w, true, hi) == []
    decreases hi
  {
    if w.start + 1 < hi {
      PickUnblocked(w, hi - 1);
      RangeOneMore(w.start, hi - 1);
      assert Tried(w, hi) == Tried(w, hi - 1) + [hi - 1];
    }
  }

  /** Counter and task after a request ran alone; `marks[k]` is the mark snapshot of its k-th call. */
  function Alone(hosts: seq<string>, start: nat, marks: seq<set<string>>): (nat, Task)
    requires hosts != []
    decreases |marks|
  {
    if marks == [] then (start, NEW_TASK)
    else
      var (current, t) := Alone(hosts, start, marks[..|marks| - 1]);
      CallTask(hosts, current, t, marks[|marks| - 1], marks[|marks| - 1])
  }

  function HostsOf(hosts: seq<string>, handed: seq<nat>): set<string>
    requires hosts != []
  {
    if handed == [] then {}
    else HostsOf(hosts, handed[..|handed| - 1]) + {HostAt(hosts, handed[|handed| - 1])}
  }

  /** Besides those marked beforehand, exactly the hosts this request already tried are marked; if no
      two entries share a name, some of these may also be missing. */
  ghost predicate OwnMarks(w: Walk, m: set<string>, handed: seq<nat>)
    requires w.hosts != []
  {
    || m == w.marked + HostsOf(w.hosts, handed)
    || (NoRepeats(w.hosts) && w.marked <= m <= w.marked + HostsOf(w.hosts, handed))
  }

  ghost predicate OwnMarksOnly(w: Walk, marks: seq<set<string>>)
    requires w.hosts != []
    decreases |marks|
  {
    marks != [] ==>
      var k := |marks| - 1;
      && OwnMarksOnly(w, marks[..k])
      && OwnMarks(w, marks[k], Alone(w.hosts, w.start, marks[..k]).1.Handed())
  }

  /** Having got to `last` alone: the positions not blocked tried, the others remembered. */
  ghost predicate AloneAt(w: Walk, last: nat, first: seq<nat>, remembered: seq<nat>)
    requires w.hosts != []
  {
    && w.start <= last < w.End()
    && (last > w.start ==> !Blocked(w, last))
    && first == Tried(w, last + 1)
    && remembered == Pick(w, true, last + 1)
  }

  ghost predicate AloneInv(w: Walk, current: nat, t: Task)
    requires w.hosts != []
  {
    match t.gen.startCurrent
    case None => t == NEW_TASK && current == w.start
    case Some((start, last)) =>
      && start == w.start
      && match t.gen.tryUnreachable
         case None =>
           && current == last && !t.gen.fused && t.replayed == []
           && AloneAt(w, last, t.first, t.gen.unreachable)
         case Some(rest) =>
           && (t.gen.fused ==> rest == [])
           && AloneAt(w, last, t.first, t.replayed + rest)
           && AllBlocked(w, last + 1, w.End())
  }

  lemma {:induction false} HostsOfOneMore(hosts: seq<string>, tried: seq<nat>, p: nat)
    requires hosts != []
    ensures HostsOf(hosts, tried + [p]) == HostsOf(hosts, tried) + {HostAt(hosts, p)}
  {
    assert (tried + [p])[..|tried|] == tried;
  }

  lemma {:induction false} SeenAtStart(w: Walk)
    requires w.hosts != []
    ensures w.marked + HostsOf(w.hosts, Tried(w, w.start + 1)) == Seen(w, w.start + 1)
  {
    var none: seq<nat> := [];
    assert Tried(w, w.start + 1) == none + [w.start];
    HostsOfOneMore(w.hosts, none, w.start);
    assert Seen(w, w.start + 1) == Seen(w, w.start) + {HostAt(w.hosts, w.start)};
  }

  lemma TriedBlocked(w: Walk, p: nat)
    requires w.hosts != [] && w.start < p && Blocked(w, p)
    ensures Tried(w, p + 1) == Tried(w, p) && Seen(w, p + 1) == Seen(w, p)
  {
  }

  lemma TriedUnblocked(w: Walk, p: nat)
    requires w.hosts != [] && w.start < p && !Blocked(w, p)
    ensures Tried(w, p + 1) == Tried(w, p) + [p]
  {
  }

  lemma SeenOneMore(w: Walk, p: nat, tried: seq<nat>)
    requires w.hosts != [] && w.start < p && w.marked + HostsOf(w.hosts, tried) == Seen(w, p)
    ensures w.marked + HostsOf(w.hosts, tried + [p]) == Seen(w, p + 1)
  {
    HostsOfOneMore(w.hosts, tried, p);
  }

  /** What was tried, with the marks from before, is what was seen. */
  lemma {:induction false} TriedIsSeen(w: Walk, hi: nat)
    requires w.hosts != [] && w.start < hi
    ensures w.marked + HostsOf(w.hosts, Tried(w, hi)) == Seen(w, hi)
    decreases hi
  {
    if hi == w.start + 1 {
      SeenAtStart(w);
    } else {
      TriedIsSeen(w, hi - 1);
      if Blocked(w, hi - 1) {
        TriedBlocked(w, hi - 1);
      } else {
        TriedUnblocked(w, hi - 1);
        SeenOneMore(w, hi - 1, Tried(w, hi - 1));
      }
    }
  }

  /** Blocked positions add nothing to what was seen. */
  lemma {:induction false} BlockedAddsNothing(w: Walk, lo: nat, p: nat)
    requires w.hosts != [] && w.start <= lo <= p && AllBlocked(w, lo, p)
    ensures Seen(w, p) == Seen(w, lo)
    decreases p
  {
    if lo < p {
      BlockedAddsNothing(w, lo, p - 1);
      assert Blocked(w, p - 1);
    }
  }

  /** If no two entries share a name, only the marks from before block. */
  lemma {:induction false} DistinctSeen(w: Walk, hi: nat, p: nat)
    requires w.hosts != [] && NoRepeats(w.hosts) && w.start <= hi <= p < w.End()
    ensures HostAt(w.hosts, p) in Seen(w, hi) <==> HostAt(w.hosts, p) in w.marked
    decreases hi
  {
    if w.start < hi {
      DistinctSeen(w, hi - 1, p);
      DistinctEntries(|w.hosts|, hi - 1, p);
    }
  }

  /** A position with only blocked ones since the last tried one is marked exactly if it is blocked. */
  lemma OwnMarksBlock(w: Walk, m: set<string>, last: nat, p: nat)
    requires w.hosts != [] && w.start <= last < p < w.End()
    requires OwnMarks(w, m, Tried(w, last + 1)) && AllBlocked(w, last + 1, p)
    ensures HostAt(w.hosts, p) in m <==> Blocked(w, p)
  {
    TriedIsSeen(w, last + 1);
    BlockedAddsNothing(w, last + 1, p);
    if NoRepeats(w.hosts) {
      DistinctSeen(w, p, p);
    }
  }

  /** Skipping ahead passes only blocked positions. */
  lemma {:induction false} SkipsBlocked(w: Walk, m: set<string>, last: nat, p: nat)
    requires w.hosts != [] && w.start <= last < p <= w.End()
    requires OwnMarks(w, m, Tried(w, last + 1))
    requires forall q | last < q < p :: HostAt(w.hosts, q) in m
    ensures AllBlocked(w, last + 1, p)
    decreases p
  {
    if last + 1 < p {
      SkipsBlocked(w, m, last, p - 1);
      OwnMarksBlock(w, m, last, p - 1);
    }
  }

  lemma AloneForward(w: Walk, last: nat, now: nat, first: seq<nat>, remembered: seq<nat>)
    requires w.hosts != [] && AloneAt(w, last, first, remembered)
    requires last < now < w.End() && AllBlocked(w, last + 1, now) && !Blocked(w, now)
    ensures AloneAt(w, now, first + [now], remembered + Range(last + 1, now))
  {
    PickBlocked(w, last + 1, now);
    assert Tried(w, now + 1) == Tried(w, last + 1) + [now];
  }

  /** A call that finds another node to try. */
  lemma {:induction false} NextAdvances(hosts: seq<string>, last: nat, g: Generator, skipMarks: set<string>,
                                        labelMarks: set<string>)
    requires hosts != [] && g.startCurrent.Some? && g.startCurrent.value.1 == last && g.tryUnreachable.None? && !g.fused
    requires SkipTarget(hosts, skipMarks, last + 1, |hosts|) - g.startCurrent.value.0 < |hosts|
    ensures var now := SkipTarget(hosts, skipMarks, last + 1, |hosts|);
            var start := g.startCurrent.value.0;
            NextClient(hosts, last, g, skipMarks, labelMarks)
            == (now, g.(startCurrent := Some((start, now)), unreachable := g.unreachable + Range(last + 1, now)),
                Some(TryClient(now, HostAt(hosts, now) !in labelMarks)))
  {
  }

  lemma {:induction false} CallAdvances(hosts: seq<string>, start: nat, last: nat, t: Task, m: set<string>)
    requires hosts != [] && t.gen.startCurrent == Some((start, last)) && t.gen.tryUnreachable.None? && !t.gen.fused
    requires SkipTarget(hosts, m, last + 1, |hosts|) - start < |hosts|
    ensures var now := SkipTarget(hosts, m, last + 1, |hosts|);
            var gen := t.gen.(startCurrent := Some((start, now)),
                              unreachable := t.gen.unreachable + Range(last + 1, now));
            CallTask(hosts, last, t, m, m) == (now, Task(gen, t.first + [now], t.replayed))
  {
    NextAdvances(hosts, last, t.gen, m, m);
  }

  /** A call that gives up rotating. */
  lemma {:induction false} CallGivesUp(hosts: seq<string>, start: nat, last: nat, t: Task, m: set<string>)
    requires hosts != [] && t.gen.startCurrent == Some((start, last)) && t.gen.tryUnreachable.None? && !t.gen.fused
    requires SkipTarget(hosts, m, last + 1, |hosts|) - start >= |hosts|
    ensures var now := SkipTarget(hosts, m, last + 1, |hosts|);
            var u := t.gen.unreachable;
            CallTask(hosts, last, t, m, m)
            == (now, if u == [] then t.(gen := t.gen.(tryUnreachable := Some([]), fused := true))
                     else Task(t.gen.(unreachable := [], tryUnreachable := Some(u[1..])), t.first, t.replayed + [u[0]]))
  {
  }

  lemma {:induction false} AloneAdvances(w: Walk, m: set<string>, last: nat, t: Task)
    requires w.hosts != [] && AloneInv(w, last, t)
    requires t.gen.startCurrent == Some((w.start, last)) && t.gen.tryUnreachable.None?
    requires OwnMarks(w, m, t.first) && SkipTarget(w.hosts, m, last + 1, |w.hosts|) < w.End()
    ensures var r := CallTask(w.hosts, last, t, m, m);
            AloneInv(w, r.0, r.1)
  {
    var now := SkipTarget(w.hosts, m, last + 1, |w.hosts|);
    SkipsMarked(w.hosts, m, last + 1, |w.hosts|);
    SkipsBlocked(w, m, last, now);
    OwnMarksBlock(w, m, last, now);
    AloneForward(w, last, now, t.first, t.gen.unreachable);
    CallAdvances(w.hosts, w.start, last, t, m);
  }

  lemma AllPassed(w: Walk, m: set<string>, last: nat)
    requires w.hosts != [] && w.start <= last < w.End() && OwnMarks(w, m, Tried(w, last + 1))
    requires SkipTarget(w.hosts, m, last + 1, |w.hosts|) >= w.End()
    ensures AllBlocked(w, last + 1, w.End())
  {
    SkipsMarked(w.hosts, m, last + 1, |w.hosts|);
    SkipsBlocked(w, m, last, w.End());
  }

  lemma {:induction false} AloneGivesUp(w: Walk, m: set<string>, last: nat, t: Task)
    requires w.hosts != [] && AloneInv(w, last, t)
    requires t.gen.startCurrent == Some((w.start, last)) && t.gen.tryUnreachable.None?
    requires OwnMarks(w, m, t.first) && SkipTarget(w.hosts, m, last + 1, |w.hosts|) >= w.End()
    ensures var r := CallTask(w.hosts, last, t, m, m);
            AloneInv(w, r.0, r.1)
  {
    AllPassed(w, m, last);
    CallGivesUp(w.hosts, w.start, last, t, m);
    var u := t.gen.unreachable;
    assert [] + u == u;
    if u != [] { assert t.replayed + [u[0]] + u[1..] == u; }
  }

  lemma AloneRotates(w: Walk, m: set<string>, last: nat, t: Task)
    requires w.hosts != [] && AloneInv(w, last, t)
    requires t.gen.startCurrent == Some((w.start, last)) && t.gen.tryUnreachable.None?
    requires OwnMarks(w, m, t.Handed())
    ensures var r := CallTask(w.hosts, last, t, m, m);
            AloneInv(w, r.0, r.1)
  {
    assert t.Handed() == t.first;
    if SkipTarget(w.hosts, m, last + 1, |w.hosts|) < w.End() {
      AloneAdvances(w, m, last, t);
    } else {
      AloneGivesUp(w, m, last, t);
    }
  }

  lemma AloneKeepsInv(w: Walk, m: set<string>, current: nat, t: Task)
    requires w.hosts != [] && AloneInv(w, current, t)
    requires OwnMarks(w, m, t.Handed())
    ensures var (current', t') := CallTask(w.hosts, current, t, m, m);
            AloneInv(w, current', t')
  {
    if t.gen.startCurrent.Some? {
      if t.gen.tryUnreachable.None? {
        AloneRotates(w, m, current, t);
      } else {
        var rest := t.gen.tryUnreachable.value;
        if rest != [] { assert t.replayed + rest == t.replayed + [rest[0]] + rest[1..]; }
      }
    }
  }

  /** A call that does not drain the generator hands out one more position. */
  lemma CallProgress(hosts: seq<string>, current: nat, t: Task, skipMarks: set<string>, labelMarks: set<string>)
    requires hosts != []
    ensures var t' := CallTask(hosts, current, t, skipMarks, labelMarks).1;
            t'.gen.fused || |t'.Handed()| == |t.Handed()| + 1
    ensures t.gen.fused ==> CallTask(hosts, current, t, skipMarks, labelMarks) == (current, t)
  {
  }

  lemma {:induction false} AloneRun(w: Walk, marks: seq<set<string>>)
    requires w.hosts != [] && OwnMarksOnly(w, marks)
    ensures var (current, t) := Alone(w.hosts, w.start, marks);
            AloneInv(w, current, t) && TaskInv(|w.hosts|, current, t)
    ensures var t := Alone(w.hosts, w.start, marks).1;
            t.gen.fused || |t.Handed()| == |marks|
    decreases |marks|
  {
    if marks != [] {
      var k := |marks| - 1;
      var (current, t) := Alone(w.hosts, w.start, marks[..k]);
      AloneRun(w, marks[..k]);
      AloneKeepsInv(w, marks[k], current, t);
      CallKeepsTaskInv(w.hosts, current, t, marks[k], marks[k]);
      CallProgress(w.hosts, current, t, marks[k], marks[k]);
    }
  }

  /** Tried while rotating: what is not blocked, in cyclic order. Replayed: what is, up to `last`. */
  ghost predicate HandedAs(w: Walk, last: nat, t: Task)
    requires w.hosts != []
  {
    && w.start <= last < w.End()
    && t.first == Tried(w, w.End())
    && t.replayed == Pick(w, true, last + 1)
  }

  lemma AloneDrained(w: Walk, current: nat, t: Task) returns (last: nat)
    requires w.hosts != [] && AloneInv(w, current, t) && t.gen.fused
    ensures t.gen.startCurrent == Some((w.start, last)) && HandedAs(w, last, t)
    ensures last == w.End() - 1 <==> |w.hosts| == 1 || !Blocked(w, w.End() - 1)
  {
    last := t.gen.startCurrent.value.1;
    PickBlocked(w, last + 1, w.End());
    assert t.replayed + [] == t.replayed;
  }

  /** A request running alone: it tries its start and then every position that is not blocked, in
      cyclic order, then the blocked ones up to the last one that is not. It is drained after one call
      more than there are entries, and it has then tried all of them if and only if the host of the
      last entry in cyclic order was not marked before and is not that of another entry (or there is
      only one entry). */
  lemma AloneOutcome(w: Walk, marks: seq<set<string>>) returns (last: nat)
    requires w.hosts != [] && OwnMarksOnly(w, marks) && |marks| > |w.hosts|
    ensures Alone(w.hosts, w.start, marks).1.gen.fused
    ensures Alone(w.hosts, w.start, marks).1.gen.startCurrent == Some((w.start, last))
    ensures HandedAs(w, last, Alone(w.hosts, w.start, marks).1)
    ensures ReachesAll(|w.hosts|, Alone(w.hosts, w.start, marks).1.Handed())
       <==> |w.hosts| == 1 || !Blocked(w, w.End() - 1)
  {
    AloneRun(w, marks);
    var (current, t) := Alone(w.hosts, w.start, marks);
    HandedEntriesDiffer(|w.hosts|, current, t);
    DrainedReach(|w.hosts|, current, t);
    last := AloneDrained(w, current, t);
  }

  lemma UnblockedHanded(w: Walk, last: nat, t: Task)
    requires w.hosts != [] && NoRepeats(w.hosts) && w.marked == {} && HandedAs(w, last, t)
    ensures t.Handed() == Range(w.start, w.End())
  {
    forall p | w.start < p < w.End() ensures !Blocked(w, p) {
      DistinctSeen(w, p, p);
    }
    PickUnblocked(w, w.End());
    PickUnblocked(w, last + 1);
  }

  /** With no host marked beforehand and no two entries on one host it tries every entry once, in
      cyclic order, and stops. */
  lemma {:induction false} AloneAllReachable(w: Walk, marks: seq<set<string>>)
    requires w.hosts != [] && NoRepeats(w.hosts) && w.marked == {}
    requires OwnMarksOnly(w, marks) && |marks| > |w.hosts|
    ensures Alone(w.hosts, w.start, marks).1.gen.fused
    ensures Alone(w.hosts, w.start, marks).1.Handed() == Range(w.start, w.End())
  {
    var last := AloneOutcome(w, marks);
    UnblockedHanded(w, last, Alone(w.hosts, w.start, marks).1);
  }

  /** The run of two entries that ends without a try of the second one. */
  lemma {:induction false} SecondIsLost(w: Walk, marks: seq<set<string>>)
    requires |w.hosts| == 2 && w.start == 0 && |marks| == 3
    requires OwnMarks(w, marks[0], [])
    requires OwnMarks(w, marks[1], [0]) && OwnMarks(w, marks[2], [0])
    requires w.hosts[0] in marks[1] && w.hosts[1] in marks[1]
    ensures OwnMarksOnly(w, marks)
    ensures Alone(w.hosts, 0, marks).1.gen.fused && Alone(w.hosts, 0, marks).1.Handed() == [0]
  {
    var hosts := w.hosts;
    var t1 := Task(Generator(Some((0, 0)), [], None, false), [0], []);
    var t2 := Task(Generator(Some((0, 0)), [], Some([]), true), [0], []);
    assert marks[..2][..1] == marks[..1] && marks[..1][..0] == [];
    assert HostAt(hosts, 1) == hosts[1] && HostAt(hosts, 2) == hosts[0];
    assert [] + [0] == [0];
    assert CallTask(hosts, 0, NEW_TASK, marks[0], marks[0]) == (0, t1);
    assert Alone(hosts, 0, marks[..1]) == (0, t1);
    assert SkipTarget(hosts, marks[1], 1, 2) == 3;
    assert CallTask(hosts, 0, t1, marks[1], marks[1]) == (3, t2);
    assert Alone(hosts, 0, marks[..2]) == (3, t2);
    assert t1.Handed() == [0] && t2.Handed() == [0] && NEW_TASK.Handed() == [];
    assert OwnMarksOnly(w, marks[..1]) && OwnMarksOnly(w, marks[..2]);
  }

  /** The skipped node that is never retried: two nodes, the second one marked beforehand. */
  lemma SkippedNodeIsLost()
    ensures var w := Walk(["a", "b"], 0, {"b"});
            var marks := [{"b"}, {"a", "b"}, {"a", "b"}];
            && OwnMarksOnly(w, marks)
            && Alone(w.hosts, 0, marks).1.gen.fused && Alone(w.hosts, 0, marks).1.Handed() == [0]
  {
    var w := Walk(["a", "b"], 0, {"b"});
    assert HostsOf(w.hosts, []) == {} && HostsOf(w.hosts, [0]) == {"a"};
    SecondIsLost(w, [{"b"}, {"a", "b"}, {"a", "b"}]);
  }

  /** Two entries on one host: its first failure marks the second entry too, which is never tried. */
  lemma RepeatedHostIsLost()
    ensures var w := Walk(["a", "a"], 0, {});
            var marks := [{}, {"a"}, {"a"}];
            && OwnMarksOnly(w, marks)
            && Alone(w.hosts, 0, marks).1.gen.fused && Alone(w.hosts, 0, marks).1.Handed() == [0]
  {
    var w := Walk(["a", "a"], 0, {});
    assert HostsOf(w.hosts, []) == {} && HostsOf(w.hosts, [0]) == {"a"};
    SecondIsLost(w, [{}, {"a"}, {"a"}]);
  }
}
