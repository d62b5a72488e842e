/** The multi-remote SDN transaction of server/src/sdn_client.rs: lock every remote, run a callback on
    every remote, then either roll all of them back or apply all of them. */
module Sdn {
  import opened Basics
  import opened Ordering

  // ---------------------------------------------------------------------------------------------
  // The remotes

  /** The SDN configuration of one remote: what it runs, its pending changes, and who holds the lock. */
  datatype Remote = Remote(running: string, pending: string, lock: Option<nat>)

  datatype Kind = Acquire(allowPending: bool) | Release | Change | Rollback | Apply

  datatype Call = Call(kind: Kind, remote: string, token: nat)

  /** A call that was made: whether it took effect on the remote, and whether the client was told so.
      A call can take effect and still be reported as an error, but not the other way around. */
  datatype Entry = Entry(call: Call, effect: bool, ok: bool)

  /** What the network does with a call: whether it gets through, whether the reply does, and which
      configuration a callback leaves behind. */
  datatype Net = Net(arrives: bool, replies: bool, edit: string)

  /** Whether the remote accepts the call: the lock must be free, or held with the call's token. */
  predicate Accepts(r: Remote, call: Call) {
    match call.kind
    case Acquire(allowPending) => r.lock.None? && (allowPending || r.pending == r.running)
    case _ => r.lock == Some(call.token)
  }

  function Effect(r: Remote, call: Call, edit: string): Remote {
    match call.kind
    case Acquire(_) => r.(lock := Some(call.token))
    case Release => r.(lock := None)
    case Change => r.(pending := edit)
    case Rollback => Remote(r.running, r.running, None)
    case Apply => Remote(r.pending, r.pending, None)
  }

  /** All remotes, and the calls made so far. */
  datatype World = World(remotes: map<string, Remote>, log: seq<Entry>)

  /** One call to a remote; `net(k)` is the fate of the k-th call. */
  function Perform(net: nat -> Net, w: World, call: Call): World
    requires call.remote in w.remotes
  {
    var n := net(|w.log|);
    var r := w.remotes[call.remote];
    var effect := n.arrives && Accepts(r, call);
    World(if effect then w.remotes[call.remote := Effect(r, call, n.edit)] else w.remotes,
          w.log + [Entry(call, effect, effect && n.replies)])
  }

  /** A remote whose lock this transaction holds. */
  datatype Client = Client(remote: string, token: nat)

  function RemoteId(c: Client): string { c.remote }

  /** The first `n` targets are remotes that exist. */
  ghost predicate Known(w: World, targets: seq<Client>, n: nat) {
    n <= |targets| && forall i | 0 <= i < n :: targets[i].remote in w.remotes
  }

  ghost predicate Distinct(targets: seq<Client>, n: nat)
    requires n <= |targets|
  {
    forall i, j | 0 <= i < j < n :: targets[i].remote != targets[j].remote
  }

  /** One call of this kind to each of the first `n` targets, one after the other. */
  function PerformAll(net: nat -> Net, kind: Kind, targets: seq<Client>, n: nat, w: World): (w': World)
    requires Known(w, targets, n)
    ensures w'.remotes.Keys == w.remotes.Keys
    ensures |w'.log| == |w.log| + n
    decreases n
  {
    if n == 0 then w
    else
      var c := targets[n - 1];
      Perform(net, PerformAll(net, kind, targets, n - 1, w), Call(kind, c.remote, c.token))
  }

  lemma PerformOneMore(net: nat -> Net, kind: Kind, targets: seq<Client>, n: nat, w: World, call: Call)
    requires Known(w, targets, n + 1) && call == Call(kind, targets[n].remote, targets[n].token)
    ensures PerformAll(net, kind, targets, n + 1, w) == Perform(net, PerformAll(net, kind, targets, n, w), call)
  {
  }

  /** All calls from number `from` on were reported as successful. */
  ghost predicate AllOk(w: World, from: nat) {
    forall k | from <= k < |w.log| :: w.log[k].ok
  }

  lemma {:induction false} SameTargets(net: nat -> Net, kind: Kind, s: seq<Client>, t: seq<Client>, n: nat, w: World)
    requires Known(w, s, n) && n <= |t| && forall i | 0 <= i < n :: s[i] == t[i]
    ensures Known(w, t, n) && PerformAll(net, kind, s, n, w) == PerformAll(net, kind, t, n, w)
    decreases n
  {
    if n > 0 {
      SameTargets(net, kind, s, t, n - 1, w);
    }
  }

  // ---------------------------------------------------------------------------------------------
  // Locking

  datatype LockResult =
    | Locked(clients: seq<Client>)
    | ConfigUnreadable
    | UnknownRemote(index: nat)
    | LockFailed(index: nat)

  /** The clients for these names if their locks are taken one after the other from call `from` on. */
  function Tickets(names: seq<string>, from: nat): (r: seq<Client>)
    ensures |r| == |names|
    ensures forall i | 0 <= i < |names| :: r[i] == Client(names[i], from + i)
  {
    seq(|names|, i requires 0 <= i < |names| => Client(names[i], from + i))
  }

  /** The locks of the first `n` of these remotes were taken, and nothing else happened. */
  ghost predicate LocksTaken(net: nat -> Net, names: seq<string>, n: nat, allowPending: bool, w: World, w': World) {
    var clients := Tickets(names, |w.log|);
    && n <= |names| && Known(w, clients, n)
    && w' == PerformAll(net, Acquire(allowPending), clients, n, w)
    && AllOk(w', |w.log|)
  }

  /** With the locks of the first `k` names taken, locking the next one failed, and then a release was
      sent to each of the first `k`. */
  ghost predicate LockFailure(net: nat -> Net, names: seq<string>, allowPending: bool, k: nat, w: World, w': World) {
    var clients := Tickets(names, |w.log|);
    && k < |names| && Known(w, clients, k + 1)
    && var w1 := PerformAll(net, Acquire(allowPending), clients, k, w);
       var w2 := PerformAll(net, Acquire(allowPending), clients, k + 1, w);
       && AllOk(w1, |w.log|) && !w2.log[|w.log| + k].ok
       && w' == PerformAll(net, Release, clients, k, w2)
  }

  ghost predicate LockOutcome(net: nat -> Net, names: seq<string>, config: Option<set<string>>, allowPending: bool,
                              w: World, w': World, result: LockResult)
  {
    match result
    case ConfigUnreadable => config.None? && w' == w
    case UnknownRemote(k) =>
      && config.Some? && k < |names| && names[k] !in config.value
      && (forall i | 0 <= i < k :: names[i] in config.value)
      && LocksTaken(net, names, k, allowPending, w, w')
    case LockFailed(k) =>
      && config.Some? && k < |names| && (forall i | 0 <= i <= k :: names[i] in config.value)
      && LockFailure(net, names, allowPending, k, w, w')
    case Locked(clients) =>
      && config.Some? && (forall i | 0 <= i < |names| :: names[i] in config.value)
      && LocksTaken(net, names, |names|, allowPending, w, w')
      && Permuted(clients, Tickets(names, |w.log|)) && SortedBy(RemoteId, clients)
  }

  /** The outcome of locking one more remote: the lock is taken, or the releases that follow make this
      a lock failure. */
  lemma {:induction false} NextLock(net: nat -> Net, names: seq<string>, n: nat, allowPending: bool, w: World,
                                    w': World)
    requires n < |names| && LocksTaken(net, names, n, allowPending, w, w') && names[n] in w.remotes
    ensures |w'.log| == |w.log| + n && names[n] in w'.remotes
    ensures var w'' := Perform(net, w', Call(Acquire(allowPending), names[n], |w'.log|));
            && Known(w'', Tickets(names, |w.log|), n)
            && if w''.log[|w'.log|].ok then LocksTaken(net, names, n + 1, allowPending, w, w'')
               else LockFailure(net, names, allowPending, n, w,
                                PerformAll(net, Release, Tickets(names, |w.log|), n, w''))
  {
    var clients := Tickets(names, |w.log|);
    assert Known(w, clients, n + 1);
    PerformOneMore(net, Acquire(allowPending), clients, n, w, Call(Acquire(allowPending), names[n], |w'.log|));
  }

  lemma {:induction false} LockedOutcome(net: nat -> Net, names: seq<string>, config: Option<set<string>>,
                                         allowPending: bool,
                      w: World, w': World, clients: seq<Client>)
    requires config.Some? && forall i | 0 <= i < |names| :: names[i] in config.value
    requires LocksTaken(net, names, |names|, allowPending, w, w')
    requires |clients| == |names| && clients == Tickets(names, |w.log|)[..|names|]
    ensures LockOutcome(net, names, config, allowPending, w, w', Locked(SortBy(RemoteId, clients)))
  {
    assert clients == Tickets(names, |w.log|);
    SortByCorrect(RemoteId, clients);
  }

  // ---------------------------------------------------------------------------------------------
  // Callbacks, rollback and apply

  ghost predicate ForEachOutcome(net: nat -> Net, arrival: seq<Client>, rollbacks: seq<Client>, w: World, w': World,
                                 ok: bool)
    requires Known(w, arrival, |arrival|) && Known(w, rollbacks, |rollbacks|)
  {
    var w1 := PerformAll(net, Change, arrival, |arrival|, w);
    && (ok <==> AllOk(w1, |w.log|))
    && w' == if ok then w1 else PerformAll(net, Rollback, rollbacks, |rollbacks|, w1)
  }

  /** What becomes of the reload task an accepted apply starts: whether its UPID can be parsed, and
      whether polling it ends with success. */
  datatype Reload = Reload(validUpid: bool, succeeds: bool)

  /** Only the task of an accepted apply with a valid UPID is waited for. */
  predicate Polled(w: World, k: nat, reload: nat -> Reload)
    requires k < |w.log|
  {
    w.log[k].ok && reload(k).validUpid
  }

  ghost predicate ReloadsFine(w: World, from: nat, reload: nat -> Reload) {
    forall k | from <= k < |w.log| && Polled(w, k, reload) :: reload(k).succeeds
  }

  lemma PermutedKnown(w: World, s: seq<Client>, t: seq<Client>)
    requires Permuted(s, t) && Known(w, t, |t|)
    ensures Known(w, s, |s|)
  {
    forall i | 0 <= i < |s| ensures s[i].remote in w.remotes {
      PermutedElement(s, t, s[i]);
    }
  }

  /** The remotes this server talks to. */
  class Fabric {
    var w: World
    const net: nat -> Net

    constructor (net: nat -> Net, remotes: map<string, Remote>)
      ensures this.net == net && w == World(remotes, [])
    {
      this.net := net;
      w := World(remotes, []);
    }

    /** Makes one call of this kind to every target, in this order. */
    method Broadcast(kind: Kind, targets: seq<Client>)
      requires Known(w, targets, |targets|)
      modifies this`w
      ensures w == PerformAll(net, kind, targets, |targets|, old(w))
    {
      for i := 0 to |targets|
        invariant w == PerformAll(net, kind, targets, i, old(w))
      {
        w := Perform(net, w, Call(kind, targets[i].remote, targets[i].token));
      }
    }

    /** The same for a beginning of `all`. */
    method BroadcastFirst(kind: Kind, targets: seq<Client>, ghost all: seq<Client>)
      requires |targets| <= |all| && targets == all[..|targets|] && Known(w, all, |targets|)
      modifies this`w
      ensures w == PerformAll(net, kind, all, |targets|, old(w))
    {
      SameTargets(net, kind, all, targets, |targets|, w);
      Broadcast(kind, targets);
    }

    /** Takes the lock of the i-th name, those before it having been taken since `before`. */
    method TakeLock(names: seq<string>, i: nat, allowPending: bool, ghost before: World) returns (c: Client, ok: bool)
      requires i < |names| && LocksTaken(net, names, i, allowPending, before, w) && names[i] in before.remotes
      modifies this`w
      ensures c == Client(names[i], |before.log| + i)
      ensures ok ==> LocksTaken(net, names, i + 1, allowPending, before, w)
      ensures !ok ==>
                && Known(w, Tickets(names, |before.log|), i)
                && LockFailure(net, names, allowPending, i, before,
                               PerformAll(net, Release, Tickets(names, |before.log|), i, w))
    {
      NextLock(net, names, i, allowPending, before, w);
      c := Client(names[i], |w.log|);
      w := Perform(net, w, Call(Acquire(allowPending), c.remote, c.token));
      ok := w.log[|w.log| - 1].ok;
    }

    /** Takes the locks in turn until one cannot be had: `UnknownRemote` or `LockFailed`. */
    method TakeLocks(names: seq<string>, config: set<string>, allowPending: bool)
      returns (clients: seq<Client>, stop: Option<LockResult>)
      requires config <= w.remotes.Keys
      modifies this`w
      ensures |clients| <= |names| && clients == Tickets(names, |old(w).log|)[..|clients|]
      ensures forall k | 0 <= k < |clients| :: names[k] in config
      ensures match stop
              case None => |clients| == |names| && LocksTaken(net, names, |names|, allowPending, old(w), w)
              case Some(reason) =>
                var k := |clients|;
                && k < |names|
                && if names[k] !in config then
                     reason == UnknownRemote(k) && LocksTaken(net, names, k, allowPending, old(w), w)
                   else reason == LockFailed(k) && Known(w, Tickets(names, |old(w).log|), k)
                        && LockFailure(net, names, allowPending, k, old(w),
                                       PerformAll(net, Release, Tickets(names, |old(w).log|), k, w))
    {
      clients := [];
      for i := 0 to |names|
        invariant clients == Tickets(names, |old(w).log|)[..i]
        invariant forall k | 0 <= k < i :: names[k] in config
        invariant LocksTaken(net, names, i, allowPending, old(w), w)
      {
        if names[i] !in config {
          return clients, Some(UnknownRemote(i));
        }
        var c, ok := TakeLock(names, i, allowPending, old(w));
        if !ok {
          return clients, Some(LockFailed(i));
        }
        clients := clients + [c];
      }
      stop := None;
    }

    /** Locks every named remote, in turn, or gives the locks taken so far back if one cannot be
        locked. A name that is not configured ends the attempt at once. */
    method FromRemoteNames(names: seq<string>, config: Option<set<string>>, allowPending: bool)
      returns (result: LockResult)
      requires config.Some? ==> config.value <= w.remotes.Keys
      modifies this`w
      ensures LockOutcome(net, names, config, allowPending, old(w), w, result)
    {
      if config.None? {
        return ConfigUnreadable;
      }
      var clients, stop := TakeLocks(names, config.value, allowPending);
      if stop.Some? {
        if stop.value.LockFailed? {
          BroadcastFirst(Release, clients, Tickets(names, |old(w).log|));
        }
        return stop.value;
      }
      LockedOutcome(net, names, config, allowPending, old(w), w, clients);
      result := Locked(SortBy(RemoteId, clients));
    }

    /** Runs the callback on every client and gives the clients back; if a callback fails, rolls every
        client back and gives nothing back. The callbacks reach their remotes in the order of `arrival`,
        the rollbacks in that of `rollbacks`. */
    method ForEach(clients: seq<Client>, arrival: seq<Client>, rollbacks: seq<Client>) returns (r: Option<seq<Client>>)
      requires Known(w, clients, |clients|) && Permuted(arrival, clients) && Permuted(rollbacks, clients)
      modifies this`w
      ensures Known(old(w), arrival, |arrival|) && Known(old(w), rollbacks, |rollbacks|)
      ensures ForEachOutcome(net, arrival, rollbacks, old(w), w, r.Some?)
      ensures r.Some? ==> r.value == clients
    {
      PermutedKnown(w, arrival, clients);
      PermutedKnown(w, rollbacks, clients);
      var from := |w.log|;
      Broadcast(Change, arrival);
      var errors := false;
      for k := from to |w.log|
        invariant !errors <==> forall j | from <= j < k :: w.log[j].ok
      {
        if !w.log[k].ok {
          errors := true;
        }
      }
      if errors {
        Broadcast(Rollback, rollbacks);
        return None;
      }
      r := Some(clients);
    }

    /** Applies the pending changes of every client and waits for the reload tasks. */
    method ApplyAndRelease(clients: seq<Client>, arrival: seq<Client>, reload: nat -> Reload) returns (ok: bool)
      requires Known(w, clients, |clients|) && Permuted(arrival, clients)
      modifies this`w
      ensures Known(old(w), arrival, |arrival|) && w == PerformAll(net, Apply, arrival, |arrival|, old(w))
      ensures ok <==> ReloadsFine(w, |old(w).log|, reload)
      ensures ok <==> forall k | |old(w).log| <= k < |w.log| && w.log[k].ok && reload(k).validUpid :: reload(k).succeeds
    {
      PermutedKnown(w, arrival, clients);
      var from := |w.log|;
      Broadcast(Apply, arrival);
      ok := true;
      for k := from to |w.log|
        invariant ok <==> forall j | from <= j < k && Polled(w, j, reload) :: reload(j).succeeds
      {
        if w.log[k].ok && reload(k).validUpid && !reload(k).succeeds {
          ok := false;
        }
      }
    }
  }
}
