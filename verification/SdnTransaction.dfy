/** What a whole SDN transaction guarantees, on every remote and whatever the network does. */
module SdnTransaction {
  import opened Basics
  import opened Ordering
  import opened Sdn

  // ---------------------------------------------------------------------------------------------
  // One round of calls

  /** The call with number `k` went to this client, and its remote shows exactly its effect. */
  ghost predicate Answered(net: nat -> Net, kind: Kind, c: Client, k: nat, w: World, w': World) {
    && c.remote in w.remotes && c.remote in w'.remotes && k < |w'.log|
    && var e := w'.log[k];
       && e.call == Call(kind, c.remote, c.token)
       && (e.ok ==> e.effect)
       && (e.effect ==> Accepts(w.remotes[c.remote], e.call))
       && w'.remotes[c.remote]
          == if e.effect then Effect(w.remotes[c.remote], e.call, net(k).edit) else w.remotes[c.remote]
  }

  ghost predicate NotAmong(targets: seq<Client>, n: nat, remote: string)
    requires n <= |targets|
  {
    forall j | 0 <= j < n :: targets[j].remote != remote
  }

  lemma {:induction false} Untouched(net: nat -> Net, kind: Kind, targets: seq<Client>, n: nat, w: World, r: string)
    requires Known(w, targets, n) && NotAmong(targets, n, r) && r in w.remotes
    ensures PerformAll(net, kind, targets, n, w).remotes[r] == w.remotes[r]
    decreases n
  {
    if n > 0 {
      Untouched(net, kind, targets, n - 1, w, r);
    }
  }

  lemma {:induction false} LogKept(net: nat -> Net, kind: Kind, targets: seq<Client>, n: nat, w: World, k: nat)
    requires Known(w, targets, n) && k < |w.log|
    ensures PerformAll(net, kind, targets, n, w).log[k] == w.log[k]
    decreases n
  {
    if n > 0 {
      LogKept(net, kind, targets, n - 1, w, k);
    }
  }

  lemma {:induction false} CallAt(net: nat -> Net, kind: Kind, targets: seq<Client>, n: nat, w: World, j: nat)
    requires Known(w, targets, n) && j < n
    ensures PerformAll(net, kind, targets, n, w).log[|w.log| + j].call
            == Call(kind, targets[j].remote, targets[j].token)
    decreases n
  {
    if j < n - 1 {
      CallAt(net, kind, targets, n - 1, w, j);
    }
  }

  /** A call to another remote does not disturb the effect of an earlier one. */
  lemma AnsweredStays(net: nat -> Net, kind: Kind, c: Client, k: nat, w: World, w': World, call: Call)
    requires Answered(net, kind, c, k, w, w') && call.remote in w'.remotes && call.remote != c.remote
    ensures Answered(net, kind, c, k, w, Perform(net, w', call))
  {
  }

  lemma AnsweredNow(net: nat -> Net, kind: Kind, c: Client, w: World, w': World)
    requires c.remote in w.remotes && c.remote in w'.remotes && w'.remotes[c.remote] == w.remotes[c.remote]
    ensures Answered(net, kind, c, |w'.log|, w, Perform(net, w', Call(kind, c.remote, c.token)))
  {
  }

  /** If the targets differ, each remote shows exactly the effect of its own call. */
  lemma {:induction false} AnsweredAt(net: nat -> Net, kind: Kind, targets: seq<Client>, n: nat, w: World, j: nat)
    requires Known(w, targets, n) && Distinct(targets, n) && j < n
    ensures Answered(net, kind, targets[j], |w.log| + j, w, PerformAll(net, kind, targets, n, w))
    decreases n
  {
    var c := targets[n - 1];
    var w' := PerformAll(net, kind, targets, n - 1, w);
    PerformOneMore(net, kind, targets, n - 1, w, Call(kind, c.remote, c.token));
    if j == n - 1 {
      Untouched(net, kind, targets, n - 1, w, c.remote);
      AnsweredNow(net, kind, c, w, w');
    } else {
      AnsweredAt(net, kind, targets, n - 1, w, j);
      AnsweredStays(net, kind, targets[j], |w.log| + j, w, w', Call(kind, c.remote, c.token));
    }
  }

  lemma {:induction false} KeepsRunning(net: nat -> Net, kind: Kind, targets: seq<Client>, n: nat, w: World, r: string)
    requires Known(w, targets, n) && !kind.Apply? && r in w.remotes
    ensures PerformAll(net, kind, targets, n, w).remotes[r].running == w.remotes[r].running
    decreases n
  {
    if n > 0 {
      KeepsRunning(net, kind, targets, n - 1, w, r);
    }
  }

  /** Taking and giving back locks leaves the configuration of every remote alone. */
  ghost predicate SameConfig(w: World, w': World, r: string) {
    && r in w.remotes && r in w'.remotes
    && w'.remotes[r].running == w.remotes[r].running && w'.remotes[r].pending == w.remotes[r].pending
  }

  lemma {:induction false} KeepsConfig(net: nat -> Net, kind: Kind, targets: seq<Client>, n: nat, w: World, r: string)
    requires Known(w, targets, n) && (kind.Acquire? || kind.Release?) && r in w.remotes
    ensures SameConfig(w, PerformAll(net, kind, targets, n, w), r)
    decreases n
  {
    if n > 0 {
      KeepsConfig(net, kind, targets, n - 1, w, r);
    }
  }

  // ---------------------------------------------------------------------------------------------
  // Locking

  /** The remote was unlocked before and is now locked by the client; its configuration is the same. */
  ghost predicate LockedBy(c: Client, w: World, w': World) {
    && c.remote in w.remotes && c.remote in w'.remotes
    && w.remotes[c.remote].lock.None? && w'.remotes[c.remote] == w.remotes[c.remote].(lock := Some(c.token))
  }

  lemma {:induction false} LocksTakenBefore(net: nat -> Net, names: seq<string>, n: nat, allowPending: bool, w: World,
                                            w': World)
    requires 0 < n && LocksTaken(net, names, n, allowPending, w, w')
    ensures LocksTaken(net, names, n - 1, allowPending, w,
                       PerformAll(net, Acquire(allowPending), Tickets(names, |w.log|), n - 1, w))
  {
    var w1 := PerformAll(net, Acquire(allowPending), Tickets(names, |w.log|), n - 1, w);
    forall k | |w.log| <= k < |w1.log| ensures w1.log[k].ok {
      assert w'.log[k] == w1.log[k];
    }
  }

  lemma {:induction false} GrantedWasFree(net: nat -> Net, names: seq<string>, n: nat, allowPending: bool, w: World,
                                          w': World)
    requires 0 < n && LocksTaken(net, names, n, allowPending, w, w')
    ensures var w1 := PerformAll(net, Acquire(allowPending), Tickets(names, |w.log|), n - 1, w);
            names[n - 1] in w1.remotes && w1.remotes[names[n - 1]].lock.None?
  {
    var clients := Tickets(names, |w.log|);
    PerformOneMore(net, Acquire(allowPending), clients, n - 1, w,
                   Call(Acquire(allowPending), names[n - 1], |w.log| + n - 1));
    assert w'.log[|w.log| + n - 1].ok;
  }

  lemma FreeIsNotHeld(net: nat -> Net, names: seq<string>, allowPending: bool, k: nat, w: World, w1: World)
    requires k < |names| && LocksTaken(net, names, k, allowPending, w, w1) && Distinct(Tickets(names, |w.log|), k)
    requires names[k] in w1.remotes && w1.remotes[names[k]].lock.None?
    ensures NotAmong(Tickets(names, |w.log|), k, names[k])
  {
    var clients := Tickets(names, |w.log|);
    forall i | 0 <= i < k ensures clients[i].remote != names[k] {
      LockHeld(net, names, k, allowPending, w, w1, i);
    }
  }

  lemma NextDiffers(net: nat -> Net, names: seq<string>, n: nat, allowPending: bool, w: World, w1: World, w': World)
    requires 0 < n && LocksTaken(net, names, n, allowPending, w, w')
             && LocksTaken(net, names, n - 1, allowPending, w, w1)
    requires Distinct(Tickets(names, |w.log|), n - 1)
    ensures Distinct(Tickets(names, |w.log|), n)
  {
    GrantedWasFree(net, names, n, allowPending, w, w');
    FreeIsNotHeld(net, names, allowPending, n - 1, w, w1);
    DistinctOneMore(Tickets(names, |w.log|), n - 1);
  }

  /** A remote that is locked refuses another lock, so remotes locked one after the other differ. */
  lemma {:induction false} LocksDiffer(net: nat -> Net, names: seq<string>, n: nat, allowPending: bool, w: World,
                                       w': World)
    requires LocksTaken(net, names, n, allowPending, w, w')
    ensures Distinct(Tickets(names, |w.log|), n)
    decreases n
  {
    if n > 0 {
      var w1 := PerformAll(net, Acquire(allowPending), Tickets(names, |w.log|), n - 1, w);
      LocksTakenBefore(net, names, n, allowPending, w, w');
      LocksDiffer(net, names, n - 1, allowPending, w, w1);
      NextDiffers(net, names, n, allowPending, w, w1, w');
    }
  }

  lemma DistinctOneMore(targets: seq<Client>, n: nat)
    requires n < |targets| && Distinct(targets, n) && NotAmong(targets, n, targets[n].remote)
    ensures Distinct(targets, n + 1)
  {
  }

  lemma LockHeld(net: nat -> Net, names: seq<string>, n: nat, allowPending: bool, w: World, w': World, i: nat)
    requires LocksTaken(net, names, n, allowPending, w, w') && Distinct(Tickets(names, |w.log|), n) && i < n
    ensures LockedBy(Tickets(names, |w.log|)[i], w, w')
  {
    AnsweredAt(net, Acquire(allowPending), Tickets(names, |w.log|), n, w, i);
    assert w'.log[|w.log| + i].ok;
  }

  lemma {:induction false} AttemptsKept(net: nat -> Net, names: seq<string>, allowPending: bool, k: nat, w: World,
                                        w': World, j: nat)
    requires LockFailure(net, names, allowPending, k, w, w') && j <= k
    ensures var w2 := PerformAll(net, Acquire(allowPending), Tickets(names, |w.log|), k + 1, w);
            |w.log| + j < |w2.log| <= |w'.log| && w'.log[|w.log| + j] == w2.log[|w.log| + j]
  {
    var clients := Tickets(names, |w.log|);
    var w2 := PerformAll(net, Acquire(allowPending), clients, k + 1, w);
    LogKept(net, Release, clients, k, w2, |w.log| + j);
  }

  lemma {:induction false} AttemptAnswered(net: nat -> Net, names: seq<string>, allowPending: bool, k: nat, w: World,
                                           w': World, j: nat)
    requires LockFailure(net, names, allowPending, k, w, w') && j <= k
    ensures var w2 := PerformAll(net, Acquire(allowPending), Tickets(names, |w.log|), k + 1, w);
            && w2.log[|w.log| + j].call == Call(Acquire(allowPending), names[j], |w.log| + j)
            && (w2.log[|w.log| + j].ok <==> j < k)
  {
    var clients := Tickets(names, |w.log|);
    CallAt(net, Acquire(allowPending), clients, k + 1, w, j);
    if j < k {
      var w1 := PerformAll(net, Acquire(allowPending), clients, k, w);
      var call := Call(Acquire(allowPending), names[k], |w.log| + k);
      PerformOneMore(net, Acquire(allowPending), clients, k, w, call);
      assert w1.log[|w.log| + j].ok;
    }
  }

  /** A failed attempt to lock asks every name up to the failing one for its lock, in turn. */
  lemma LockFailureAttempts(net: nat -> Net, names: seq<string>, allowPending: bool, k: nat, w: World, w': World,
                            j: nat)
    requires LockFailure(net, names, allowPending, k, w, w') && j <= k
    ensures |w.log| + j < |w'.log|
    ensures w'.log[|w.log| + j].call == Call(Acquire(allowPending), names[j], |w.log| + j)
    ensures w'.log[|w.log| + j].ok <==> j < k
  {
    AttemptsKept(net, names, allowPending, k, w, w', j);
    AttemptAnswered(net, names, allowPending, k, w, w', j);
  }

  /** After that, a release is sent exactly once to each earlier remote, and to no other. */
  lemma LockFailureReleases(net: nat -> Net, names: seq<string>, allowPending: bool, k: nat, w: World, w': World,
                            i: nat)
    requires LockFailure(net, names, allowPending, k, w, w')
    ensures |w'.log| == |w.log| + 2 * k + 1
    ensures i < k ==> w'.log[|w.log| + k + 1 + i].call == Call(Release, names[i], |w.log| + i)
  {
    if i < k {
      var clients := Tickets(names, |w.log|);
      CallAt(net, Release, clients, k, PerformAll(net, Acquire(allowPending), clients, k + 1, w), i);
    }
  }

  /** The remote was unlocked before, and is now as it was, if call `k` took effect, or still locked by
      the client, if not. */
  ghost predicate Restored(c: Client, k: nat, w: World, w': World) {
    && c.remote in w.remotes && c.remote in w'.remotes && k < |w'.log|
    && w.remotes[c.remote].lock.None?
    && w'.remotes[c.remote]
       == if w'.log[k].effect then w.remotes[c.remote] else w.remotes[c.remote].(lock := Some(c.token))
  }

  lemma {:induction false} HeldAfterFailure(net: nat -> Net, names: seq<string>, allowPending: bool, k: nat, w: World,
                                            w': World, i: nat)
    requires LockFailure(net, names, allowPending, k, w, w') && i < k
    ensures Distinct(Tickets(names, |w.log|), k)
    ensures LockedBy(Tickets(names, |w.log|)[i], w,
                     PerformAll(net, Acquire(allowPending), Tickets(names, |w.log|), k + 1, w))
  {
    var clients := Tickets(names, |w.log|);
    var w1 := PerformAll(net, Acquire(allowPending), clients, k, w);
    var call := Call(Acquire(allowPending), names[k], |w.log| + k);
    LocksDiffer(net, names, k, allowPending, w, w1);
    LockHeld(net, names, k, allowPending, w, w1, i);
    PerformOneMore(net, Acquire(allowPending), clients, k, w, call);
    StillLockedBy(net, clients[i], w, w1, call);
  }

  /** If the k-th remote cannot be locked, each earlier remote is as it was before the attempt, or its
      release did not take effect and it is still locked. */
  lemma LockFailureLocks(net: nat -> Net, names: seq<string>, allowPending: bool, k: nat, w: World, w': World, i: nat)
    requires LockFailure(net, names, allowPending, k, w, w') && i < k
    ensures Restored(Client(names[i], |w.log| + i), |w.log| + k + 1 + i, w, w')
  {
    var clients := Tickets(names, |w.log|);
    var w2 := PerformAll(net, Acquire(allowPending), clients, k + 1, w);
    HeldAfterFailure(net, names, allowPending, k, w, w', i);
    AnsweredAt(net, Release, clients, k, w2, i);
    ReleaseRestores(net, clients[i], |w.log| + k + 1 + i, w, w2, w');
  }

  lemma StillLockedBy(net: nat -> Net, c: Client, w: World, w1: World, call: Call)
    requires LockedBy(c, w, w1) && call.kind.Acquire? && call.remote in w1.remotes
    ensures LockedBy(c, w, Perform(net, w1, call))
  {
  }

  lemma ReleaseRestores(net: nat -> Net, c: Client, k: nat, w: World, w2: World, w': World)
    requires LockedBy(c, w, w2) && Answered(net, Release, c, k, w2, w')
    ensures Restored(c, k, w, w')
  {
  }

  /** A failed attempt to lock changes no running or pending configuration anywhere. */
  lemma LockFailureConfigs(net: nat -> Net, names: seq<string>, allowPending: bool, k: nat, w: World, w': World,
                           r: string)
    requires LockFailure(net, names, allowPending, k, w, w') && r in w.remotes
    ensures SameConfig(w, w', r)
  {
    var clients := Tickets(names, |w.log|);
    KeepsConfig(net, Acquire(allowPending), clients, k + 1, w, r);
    KeepsConfig(net, Release, clients, k, PerformAll(net, Acquire(allowPending), clients, k + 1, w), r);
  }

  /** A name that is not configured ends the attempt with the locks taken so far still held and no
      release sent. */
  lemma UnknownRemoteKeepsLocks(net: nat -> Net, names: seq<string>, config: Option<set<string>>, allowPending: bool,
                                k: nat, w: World, w': World, i: nat)
    requires LockOutcome(net, names, config, allowPending, w, w', UnknownRemote(k)) && i < k
    ensures |w'.log| == |w.log| + k && w'.log[|w.log| + i].call.kind.Acquire?
    ensures LockedBy(Client(names[i], |w.log| + i), w, w')
  {
    LocksDiffer(net, names, k, allowPending, w, w');
    LockHeld(net, names, k, allowPending, w, w', i);
    CallAt(net, Acquire(allowPending), Tickets(names, |w.log|), k, w, i);
  }

  // ---------------------------------------------------------------------------------------------
  // When a failed attempt leaves no lock behind

  /** Whether a remote is locked, and by whom, is as it was. */
  ghost predicate LockKept(w: World, w': World, r: string) {
    r in w.remotes && r in w'.remotes && w'.remotes[r].lock == w.remotes[r].lock
  }

  ghost predicate LocksKept(w: World, w': World) {
    forall r | r in w.remotes :: LockKept(w, w', r)
  }

  /** If the refused lock was in fact taken, it stays: no release is sent to that remote. */
  lemma LostReplyKeepsLock(net: nat -> Net, names: seq<string>, allowPending: bool, k: nat, w: World, w': World)
    requires LockFailure(net, names, allowPending, k, w, w')
    requires PerformAll(net, Acquire(allowPending), Tickets(names, |w.log|), k + 1, w).log[|w.log| + k].effect
    ensures names[k] in w.remotes && names[k] in w'.remotes
    ensures w.remotes[names[k]].lock.None? && w'.remotes[names[k]].lock == Some(|w.log| + k)
  {
    var clients := Tickets(names, |w.log|);
    var w1 := PerformAll(net, Acquire(allowPending), clients, k, w);
    var w2 := PerformAll(net, Acquire(allowPending), clients, k + 1, w);
    var call := Call(Acquire(allowPending), names[k], |w.log| + k);
    PerformOneMore(net, Acquire(allowPending), clients, k, w, call);
    LocksDiffer(net, names, k, allowPending, w, w1);
    FreeIsNotHeld(net, names, allowPending, k, w, w1);
    Untouched(net, Acquire(allowPending), clients, k, w, names[k]);
    Untouched(net, Release, clients, k, w2, names[k]);
  }

  /** If it was not, the remotes whose locks were not taken are as they were. */
  lemma {:induction false} OthersAsBefore(net: nat -> Net, names: seq<string>, allowPending: bool, k: nat, w: World,
                                          w': World, r: string)
    requires LockFailure(net, names, allowPending, k, w, w') && r in w.remotes
    requires !PerformAll(net, Acquire(allowPending), Tickets(names, |w.log|), k + 1, w).log[|w.log| + k].effect
    requires NotAmong(Tickets(names, |w.log|), k, r)
    ensures LockKept(w, w', r)
  {
    var clients := Tickets(names, |w.log|);
    var w2 := PerformAll(net, Acquire(allowPending), clients, k + 1, w);
    PerformOneMore(net, Acquire(allowPending), clients, k, w, Call(Acquire(allowPending), names[k], |w.log| + k));
    Untouched(net, Acquire(allowPending), clients, k, w, r);
    Untouched(net, Release, clients, k, w2, r);
  }

  /** The refused lock, call number `from` + `k`, was not taken, and every release after it took effect. */
  ghost predicate CleanFailure(from: nat, k: nat, w': World) {
    && from + k < |w'.log| && !w'.log[from + k].effect
    && forall j | from + k < j < |w'.log| :: w'.log[j].effect
  }

  lemma FailureKeepsLocksExactly(net: nat -> Net, names: seq<string>, allowPending: bool, k: nat, w: World, w': World)
    requires LockFailure(net, names, allowPending, k, w, w')
    ensures LocksKept(w, w') <==> CleanFailure(|w.log|, k, w')
  {
    if LocksKept(w, w') {
      KeptMeansClean(net, names, allowPending, k, w, w');
    } else if CleanFailure(|w.log|, k, w') {
      forall r | r in w.remotes ensures LockKept(w, w', r) {
        CleanFailureKeeps(net, names, allowPending, k, w, w', r);
      }
    }
  }

  lemma KeptMeansClean(net: nat -> Net, names: seq<string>, allowPending: bool, k: nat, w: World, w': World)
    requires LockFailure(net, names, allowPending, k, w, w') && LocksKept(w, w')
    ensures CleanFailure(|w.log|, k, w')
  {
    AttemptsKept(net, names, allowPending, k, w, w', k);
    assert Tickets(names, |w.log|)[k].remote in w.remotes;
    assert LockKept(w, w', names[k]);
    if w'.log[|w.log| + k].effect {
      LostReplyKeepsLock(net, names, allowPending, k, w, w');
    }
    forall j | |w.log| + k < j < |w'.log| ensures w'.log[j].effect {
      KeptMeansReleased(net, names, allowPending, k, w, w', j - |w.log| - k - 1);
    }
  }

  lemma KeptMeansReleased(net: nat -> Net, names: seq<string>, allowPending: bool, k: nat, w: World, w': World, i: nat)
    requires LockFailure(net, names, allowPending, k, w, w') && LocksKept(w, w') && |w.log| + k + 1 + i < |w'.log|
    ensures w'.log[|w.log| + k + 1 + i].effect
  {
    LockFailureReleases(net, names, allowPending, k, w, w', i);
    LockFailureLocks(net, names, allowPending, k, w, w', i);
    assert LockKept(w, w', names[i]);
  }

  lemma CleanFailureKeeps(net: nat -> Net, names: seq<string>, allowPending: bool, k: nat, w: World, w': World,
                          r: string)
    requires LockFailure(net, names, allowPending, k, w, w') && CleanFailure(|w.log|, k, w') && r in w.remotes
    ensures LockKept(w, w', r)
  {
    var clients := Tickets(names, |w.log|);
    if NotAmong(clients, k, r) {
      AttemptsKept(net, names, allowPending, k, w, w', k);
      OthersAsBefore(net, names, allowPending, k, w, w', r);
    } else {
      var i :| 0 <= i < k && clients[i].remote == r;
      ReleasedKeeps(net, names, allowPending, k, w, w', i);
    }
  }

  lemma ReleasedKeeps(net: nat -> Net, names: seq<string>, allowPending: bool, k: nat, w: World, w': World, i: nat)
    requires LockFailure(net, names, allowPending, k, w, w') && CleanFailure(|w.log|, k, w') && i < k
    ensures LockKept(w, w', names[i])
  {
    LockFailureReleases(net, names, allowPending, k, w, w', i);
    LockFailureLocks(net, names, allowPending, k, w, w', i);
    assert w'.log[|w.log| + k + 1 + i].effect;
  }

  /** An attempt to lock that fails leaves the locks of all remotes as they were if and only if it had
      not taken any lock when it met an unknown name, or the refused lock was not in fact taken and
      every release took effect. */
  lemma NoLockLeftExactly(net: nat -> Net, names: seq<string>, config: Option<set<string>>, allowPending: bool,
                          w: World, w': World, result: LockResult)
    requires LockOutcome(net, names, config, allowPending, w, w', result) && !result.Locked?
    ensures LocksKept(w, w') <==>
            match result
            case ConfigUnreadable => true
            case UnknownRemote(k) => k == 0
            case LockFailed(k) => CleanFailure(|w.log|, k, w')
  {
    match result
    case ConfigUnreadable =>
    case UnknownRemote(k) =>
      if k > 0 {
        UnknownRemoteKeepsLocks(net, names, config, allowPending, k, w, w', 0);
        assert !LockKept(w, w', names[0]);
      }
    case LockFailed(k) => FailureKeepsLocksExactly(net, names, allowPending, k, w, w');
  }

  /** Two names, the second one not configured: the lock of the first one stays. */
  lemma UnknownNameLeavesLock()
    ensures var net: nat -> Net := (k: nat) => Net(true, true, "");
            var w := World(map["a" := Remote("x", "x", None)], []);
            var w' := World(map["a" := Remote("x", "x", Some(0))], [Entry(Call(Acquire(false), "a", 0), true, true)]);
            LockOutcome(net, ["a", "b"], Some({"a"}), false, w, w', UnknownRemote(1)) && !LocksKept(w, w')
  {
    var net: nat -> Net := (k: nat) => Net(true, true, "");
    var w := World(map["a" := Remote("x", "x", None)], []);
    var w' := World(map["a" := Remote("x", "x", Some(0))], [Entry(Call(Acquire(false), "a", 0), true, true)]);
    var clients := Tickets(["a", "b"], 0);
    assert clients[0] == Client("a", 0);
    assert PerformAll(net, Acquire(false), clients, 0, w) == w;
    assert PerformAll(net, Acquire(false), clients, 1, w) == w';
    assert !LockKept(w, w', "a");
  }

  /** One remote takes the lock, but the reply is lost: the attempt fails and the lock stays. */
  lemma LostReplyLeavesLock()
    ensures var net: nat -> Net := (k: nat) => Net(true, false, "");
            var w := World(map["a" := Remote("x", "x", None)], []);
            var w' := World(map["a" := Remote("x", "x", Some(0))], [Entry(Call(Acquire(false), "a", 0), true, false)]);
            LockOutcome(net, ["a"], Some({"a"}), false, w, w', LockFailed(0)) && !LocksKept(w, w')
  {
    var net: nat -> Net := (k: nat) => Net(true, false, "");
    var w := World(map["a" := Remote("x", "x", None)], []);
    var w' := World(map["a" := Remote("x", "x", Some(0))], [Entry(Call(Acquire(false), "a", 0), true, false)]);
    var clients := Tickets(["a"], 0);
    assert clients[0] == Client("a", 0);
    assert PerformAll(net, Acquire(false), clients, 0, w) == w;
    assert PerformAll(net, Acquire(false), clients, 1, w) == w';
    assert PerformAll(net, Release, clients, 0, w') == w';
    assert !LockKept(w, w', "a");
  }

  // ---------------------------------------------------------------------------------------------
  // Callbacks and rollback

  lemma PermutedDistinct(s: seq<Client>, t: seq<Client>)
    requires Permuted(s, t) && Distinct(t, |t|)
    ensures |s| == |t| && Distinct(s, |s|)
  {
    assert DistinctKeys(RemoteId, t);
    DistinctKeysPermuted(RemoteId, s, t);
    PermutedLength(s, t);
    forall i, j | 0 <= i < j < |s| ensures s[i].remote != s[j].remote {
      assert RemoteId(s[i]) != RemoteId(s[j]);
    }
  }

  /** What a transaction has once locking succeeded: different remotes, each locked by its client. */
  ghost predicate Holds(clients: seq<Client>, w: World) {
    && Known(w, clients, |clients|) && Distinct(clients, |clients|)
    && forall i | 0 <= i < |clients| :: w.remotes[clients[i].remote].lock == Some(clients[i].token)
  }

  /** Successful locking: one client per name, sorted by remote, all remotes different, each one unlocked
      before and locked now, and otherwise as it was. */
  lemma LockedMeaning(net: nat -> Net, names: seq<string>, config: Option<set<string>>, allowPending: bool,
                      w: World, w': World, clients: seq<Client>)
    requires LockOutcome(net, names, config, allowPending, w, w', Locked(clients))
    ensures Holds(clients, w') && |clients| == |names| && Permuted(clients, Tickets(names, |w.log|))
            && SortedBy(RemoteId, clients)
    ensures forall i | 0 <= i < |clients| :: LockedBy(clients[i], w, w')
    ensures !allowPending ==> forall i | 0 <= i < |clients| :: NothingPending(clients[i], w)
  {
    var tickets := Tickets(names, |w.log|);
    LocksDiffer(net, names, |names|, allowPending, w, w');
    PermutedDistinct(clients, tickets);
    forall i | 0 <= i < |clients| ensures LockedBy(clients[i], w, w') {
      PermutedElement(clients, tickets, clients[i]);
      var k :| 0 <= k < |tickets| && tickets[k] == clients[i];
      LockHeld(net, names, |names|, allowPending, w, w', k);
    }
    forall i | 0 <= i < |clients| && !allowPending ensures NothingPending(clients[i], w) {
      PermutedElement(clients, tickets, clients[i]);
      var k :| 0 <= k < |tickets| && tickets[k] == clients[i];
      LockedWithoutPending(net, names, |names|, w, w', k);
    }
  }

  /** The remote had no pending changes. */
  ghost predicate NothingPending(c: Client, w: World) {
    c.remote in w.remotes && w.remotes[c.remote].pending == w.remotes[c.remote].running
  }

  lemma LockedWithoutPending(net: nat -> Net, names: seq<string>, n: nat, w: World, w': World, i: nat)
    requires LocksTaken(net, names, n, false, w, w') && Distinct(Tickets(names, |w.log|), n) && i < n
    ensures NothingPending(Tickets(names, |w.log|)[i], w)
  {
    AnsweredAt(net, Acquire(false), Tickets(names, |w.log|), n, w, i);
    assert w'.log[|w.log| + i].ok;
  }

  /** A callback can only touch the pending configuration. */
  ghost predicate OnlyPendingChanged(c: Client, w: World, w': World) {
    && c.remote in w.remotes && c.remote in w'.remotes
    && w'.remotes[c.remote].running == w.remotes[c.remote].running
    && w'.remotes[c.remote].lock == w.remotes[c.remote].lock
  }

  lemma {:induction false} CallbackTouchesPending(net: nat -> Net, clients: seq<Client>, arrival: seq<Client>, w: World,
                                                  c: Client)
    requires Holds(clients, w) && Permuted(arrival, clients) && c in clients
    ensures Known(w, arrival, |arrival|)
    ensures OnlyPendingChanged(c, w, PerformAll(net, Change, arrival, |arrival|, w))
  {
    PermutedKnown(w, arrival, clients);
    PermutedDistinct(arrival, clients);
    PermutedElement(arrival, clients, c);
    var i :| 0 <= i < |arrival| && arrival[i] == c;
    AnsweredAt(net, Change, arrival, |arrival|, w, i);
  }

  /** The remote runs what it ran before; if call `k` took effect it has no pending changes and no lock
      left, otherwise its lock is still held. */
  ghost predicate RolledBackOrHeld(c: Client, k: nat, w: World, w': World) {
    && c.remote in w.remotes && c.remote in w'.remotes && k < |w'.log|
    && var running := w.remotes[c.remote].running;
       && w'.log[k].call == Call(Rollback, c.remote, c.token)
       && if w'.log[k].effect then w'.remotes[c.remote] == Remote(running, running, None)
          else w'.remotes[c.remote].running == running && w'.remotes[c.remote].lock == Some(c.token)
  }

  /** If a callback fails, every client is rolled back exactly once: the j-th rollback call goes to
      `rollbacks[j]`, where `rollbacks` is the clients in some order. */
  lemma FailedCallbackRollsBack(net: nat -> Net, clients: seq<Client>, arrival: seq<Client>, rollbacks: seq<Client>,
                                w: World, w': World, j: nat)
    requires Holds(clients, w) && Permuted(arrival, clients) && Permuted(rollbacks, clients)
    requires Known(w, arrival, |arrival|) && Known(w, rollbacks, |rollbacks|)
    requires ForEachOutcome(net, arrival, rollbacks, w, w', false) && j < |clients|
    ensures |arrival| == |rollbacks| == |clients| && |w'.log| == |w.log| + 2 * |clients|
    ensures RolledBackOrHeld(rollbacks[j], |w.log| + |clients| + j, w, w')
  {
    var w1 := PerformAll(net, Change, arrival, |arrival|, w);
    PermutedDistinct(arrival, clients);
    PermutedDistinct(rollbacks, clients);
    PermutedElement(rollbacks, clients, rollbacks[j]);
    CallbackTouchesPending(net, clients, arrival, w, rollbacks[j]);
    HolderLock(clients, w, rollbacks[j]);
    AnsweredAt(net, Rollback, rollbacks, |rollbacks|, w1, j);
  }

  lemma HolderLock(clients: seq<Client>, w: World, c: Client)
    requires Holds(clients, w) && c in clients
    ensures c.remote in w.remotes && w.remotes[c.remote].lock == Some(c.token)
  {
  }

  /** If no callback fails, the same clients come back, all still locked, running what they ran. */
  lemma CallbacksKeepLocks(net: nat -> Net, clients: seq<Client>, arrival: seq<Client>, rollbacks: seq<Client>,
                           w: World, w': World)
    requires Holds(clients, w) && Permuted(arrival, clients) && Permuted(rollbacks, clients)
    requires Known(w, arrival, |arrival|) && Known(w, rollbacks, |rollbacks|)
    requires ForEachOutcome(net, arrival, rollbacks, w, w', true)
    ensures Holds(clients, w') && |w'.log| == |w.log| + |clients| && AllOk(w', |w.log|)
    ensures forall i | 0 <= i < |clients| :: OnlyPendingChanged(clients[i], w, w')
  {
    PermutedLength(arrival, clients);
    forall i | 0 <= i < |clients| ensures OnlyPendingChanged(clients[i], w, w') {
      CallbackTouchesPending(net, clients, arrival, w, clients[i]);
    }
  }

  // ---------------------------------------------------------------------------------------------
  // The whole transaction

  datatype TransactionResult =
    | NotLocked(reason: LockResult)
    | RolledBack(clients: seq<Client>)
    | Applied(clients: seq<Client>, ok: bool)

  /** The orders in which the concurrent calls of each stage arrive. */
  datatype Schedule = Schedule(callbacks: seq<Client> -> seq<Client>, rollbacks: seq<Client> -> seq<Client>,
                               applies: seq<Client> -> seq<Client>)

  ghost predicate Shuffles(order: seq<Client> -> seq<Client>) {
    forall clients :: Permuted(order(clients), clients)
  }

  ghost predicate Fair(s: Schedule) {
    Shuffles(s.callbacks) && Shuffles(s.rollbacks) && Shuffles(s.applies)
  }

  /** Locking took `w` to `w1`, the callbacks (and rollbacks) to `w2`, applying to `w'`. */
  ghost predicate Outcome(net: nat -> Net, names: seq<string>, config: Option<set<string>>, allowPending: bool,
                          schedule: Schedule, w: World, w1: World, w2: World, w': World, result: TransactionResult)
  {
    match result
    case NotLocked(reason) =>
      !reason.Locked? && LockOutcome(net, names, config, allowPending, w, w', reason)
    case RolledBack(clients) =>
      && LockOutcome(net, names, config, allowPending, w, w1, Locked(clients))
      && CallbackStage(net, clients, schedule, w1, w', false)
    case Applied(clients, _) =>
      && LockOutcome(net, names, config, allowPending, w, w1, Locked(clients))
      && CallbackStage(net, clients, schedule, w1, w2, true)
      && Known(w2, schedule.applies(clients), |schedule.applies(clients)|)
      && w' == PerformAll(net, Apply, schedule.applies(clients), |schedule.applies(clients)|, w2)
  }

  ghost predicate CallbackStage(net: nat -> Net, clients: seq<Client>, schedule: Schedule, w1: World, w2: World,
                                ok: bool)
  {
    var arrival, rollbacks := schedule.callbacks(clients), schedule.rollbacks(clients);
    && Known(w1, arrival, |arrival|) && Known(w1, rollbacks, |rollbacks|)
    && ForEachOutcome(net, arrival, rollbacks, w1, w2, ok)
  }

  /** Locks all remotes, runs the callback everywhere, then rolls everything back or applies it. */
  method Transact(fabric: Fabric, names: seq<string>, config: Option<set<string>>, allowPending: bool,
                  schedule: Schedule, reload: nat -> Reload)
    returns (result: TransactionResult, ghost w1: World, ghost w2: World)
    requires config.Some? ==> config.value <= fabric.w.remotes.Keys
    requires Fair(schedule)
    modifies fabric`w
    ensures Outcome(fabric.net, names, config, allowPending, schedule, old(fabric.w), w1, w2, fabric.w, result)
    ensures result.Applied? ==> (result.ok <==> ReloadsFine(fabric.w, |w2.log|, reload))
    ensures result.Applied? ==>
              (result.ok <==>
               forall k | |w2.log| <= k < |fabric.w.log| && fabric.w.log[k].ok && reload(k).validUpid ::
                 reload(k).succeeds)
  {
    var locking := fabric.FromRemoteNames(names, config, allowPending);
    w1, w2 := fabric.w, fabric.w;
    if !locking.Locked? {
      return NotLocked(locking), w1, w2;
    }
    var clients := locking.clients;
    LockedMeaning(fabric.net, names, config, allowPending, old(fabric.w), fabric.w, clients);
    var back := fabric.ForEach(clients, schedule.callbacks(clients), schedule.rollbacks(clients));
    w2 := fabric.w;
    if back.None? {
      return RolledBack(clients), w1, w2;
    }
    CallbacksKeepLocks(fabric.net, clients, schedule.callbacks(clients), schedule.rollbacks(clients), w1, w2);
    var ok := fabric.ApplyAndRelease(back.value, schedule.applies(back.value), reload);
    result := Applied(back.value, ok);
  }

  /** Unless the transaction gets to apply, no remote's running configuration has changed, whatever
      the network did. */
  lemma NothingAppliedNothingChanged(net: nat -> Net, names: seq<string>, config: Option<set<string>>,
                                     allowPending: bool, schedule: Schedule, w: World, w1: World, w2: World, w': World,
                                     result: TransactionResult, r: string)
    requires Outcome(net, names, config, allowPending, schedule, w, w1, w2, w', result)
    requires !result.Applied? && r in w.remotes
    ensures r in w'.remotes && w'.remotes[r].running == w.remotes[r].running
  {
    match result
    case NotLocked(reason) =>
      match reason {
        case ConfigUnreadable =>
        case UnknownRemote(k) => KeepsRunning(net, Acquire(allowPending), Tickets(names, |w.log|), k, w, r);
        case LockFailed(k) => LockFailureConfigs(net, names, allowPending, k, w, w', r);
      }
    case RolledBack(clients) =>
      KeepsRunning(net, Acquire(allowPending), Tickets(names, |w.log|), |names|, w, r);
      var arrival, rollbacks := schedule.callbacks(clients), schedule.rollbacks(clients);
      KeepsRunning(net, Change, arrival, |arrival|, w1, r);
      KeepsRunning(net, Rollback, rollbacks, |rollbacks|, PerformAll(net, Change, arrival, |arrival|, w1), r);
  }

  lemma {:induction false} OnlyKind(net: nat -> Net, kind: Kind, targets: seq<Client>, n: nat, w: World, k: nat)
    requires Known(w, targets, n) && |w.log| <= k < |w.log| + n
    ensures PerformAll(net, kind, targets, n, w).log[k].call.kind == kind
  {
    CallAt(net, kind, targets, n, w, k - |w.log|);
  }

  /** An apply is issued on a remote only if all locks were granted and all callbacks succeeded: the
      calls before it are the granted lock of every name, in turn, and then the successful callback of
      every client, in their order of arrival. */
  lemma ApplyNeedsEverySuccess(net: nat -> Net, names: seq<string>, config: Option<set<string>>, allowPending: bool,
                               schedule: Schedule, w: World, w1: World, w2: World, w': World,
                               result: TransactionResult, k: nat)
    requires Fair(schedule) && Outcome(net, names, config, allowPending, schedule, w, w1, w2, w', result)
    requires |w.log| <= k < |w'.log| && w'.log[k].call.kind.Apply?
    ensures result.Applied? && k >= |w.log| + 2 * |names| && |w'.log| == |w.log| + 3 * |names|
    ensures AllOk(w1, |w.log|) && AllOk(w2, |w1.log|) && |w1.log| == |w.log| + |names| && |w2.log| == |w1.log| + |names|
    ensures forall i | 0 <= i < |names| :: LockGranted(names, allowPending, |w.log|, w', i)
    ensures forall i | 0 <= i < |names| :: CallbackDone(schedule.callbacks(result.clients), |w1.log|, w', i)
  {
    OnlyApplying(net, names, config, allowPending, schedule, w, w1, w2, w', result, k);
    forall i | 0 <= i < |names| ensures LockGranted(names, allowPending, |w.log|, w', i) {
      LockBeforeApply(net, names, config, allowPending, schedule, w, w1, w2, w', result, i);
    }
    forall i | 0 <= i < |names| ensures CallbackDone(schedule.callbacks(result.clients), |w1.log|, w', i) {
      CallbackBeforeApply(net, names, config, allowPending, schedule, w, w1, w2, w', result, i);
    }
  }

  /** Call number `from` + `i` was the request for the lock of the i-th name, and it was granted. */
  ghost predicate LockGranted(names: seq<string>, allowPending: bool, from: nat, w: World, i: nat)
    requires i < |names|
  {
    from + i < |w.log| && w.log[from + i].ok && w.log[from + i].call == Call(Acquire(allowPending), names[i], from + i)
  }

  /** Call number `from` + `i` was the callback of the i-th client to arrive, and it succeeded. */
  ghost predicate CallbackDone(arrival: seq<Client>, from: nat, w: World, i: nat) {
    && i < |arrival| && from + i < |w.log| && w.log[from + i].ok
    && w.log[from + i].call == Call(Change, arrival[i].remote, arrival[i].token)
  }

  /** The calls of locking and of the callbacks stay on record while applying. */
  lemma {:induction false} ApplyKeepsLog(net: nat -> Net, schedule: Schedule, clients: seq<Client>, w1: World,
                                         w2: World, w': World, k: nat)
    requires CallbackStage(net, clients, schedule, w1, w2, true) && k < |w2.log|
    requires Known(w2, schedule.applies(clients), |schedule.applies(clients)|)
    requires w' == PerformAll(net, Apply, schedule.applies(clients), |schedule.applies(clients)|, w2)
    ensures k < |w'.log| && w'.log[k] == w2.log[k]
  {
    LogKept(net, Apply, schedule.applies(clients), |schedule.applies(clients)|, w2, k);
  }

  lemma LockBeforeApply(net: nat -> Net, names: seq<string>, config: Option<set<string>>, allowPending: bool,
                        schedule: Schedule, w: World, w1: World, w2: World, w': World,
                        result: TransactionResult, i: nat)
    requires Fair(schedule) && Outcome(net, names, config, allowPending, schedule, w, w1, w2, w', result)
    requires result.Applied? && i < |names|
    ensures LockGranted(names, allowPending, |w.log|, w', i)
  {
    LocksInOrder(net, names, allowPending, w, w1, i);
    LockLogKept(net, schedule, result.clients, w1, w2, w', |w.log| + i);
  }

  lemma LocksInOrder(net: nat -> Net, names: seq<string>, allowPending: bool, w: World, w1: World, i: nat)
    requires LocksTaken(net, names, |names|, allowPending, w, w1) && i < |names|
    ensures LockGranted(names, allowPending, |w.log|, w1, i)
  {
    CallAt(net, Acquire(allowPending), Tickets(names, |w.log|), |names|, w, i);
    assert w1.log[|w.log| + i].ok;
  }

  lemma {:induction false} LockLogKept(net: nat -> Net, schedule: Schedule, clients: seq<Client>, w1: World, w2: World,
                                       w': World, k: nat)
    requires CallbackStage(net, clients, schedule, w1, w2, true) && k < |w1.log|
    requires Known(w2, schedule.applies(clients), |schedule.applies(clients)|)
    requires w' == PerformAll(net, Apply, schedule.applies(clients), |schedule.applies(clients)|, w2)
    ensures k < |w'.log| && w'.log[k] == w1.log[k]
  {
    NoApplyInCallbacks(net, clients, schedule, w1, w2, true, k);
    LogKept(net, Apply, schedule.applies(clients), |schedule.applies(clients)|, w2, k);
  }

  lemma CallbackBeforeApply(net: nat -> Net, names: seq<string>, config: Option<set<string>>, allowPending: bool,
                            schedule: Schedule, w: World, w1: World, w2: World, w': World,
                            result: TransactionResult, i: nat)
    requires Fair(schedule) && Outcome(net, names, config, allowPending, schedule, w, w1, w2, w', result)
    requires result.Applied? && i < |names|
    ensures CallbackDone(schedule.callbacks(result.clients), |w1.log|, w', i)
  {
    var clients := result.clients;
    LockedMeaning(net, names, config, allowPending, w, w1, clients);
    PermutedLength(schedule.callbacks(clients), clients);
    CallbackInStage(net, clients, schedule, w1, w2, i);
    ApplyKeepsLog(net, schedule, clients, w1, w2, w', |w1.log| + i);
  }

  lemma CallbackInStage(net: nat -> Net, clients: seq<Client>, schedule: Schedule, w1: World, w2: World, i: nat)
    requires CallbackStage(net, clients, schedule, w1, w2, true) && i < |schedule.callbacks(clients)|
    ensures CallbackDone(schedule.callbacks(clients), |w1.log|, w2, i)
  {
    var arrival := schedule.callbacks(clients);
    CallAt(net, Change, arrival, |arrival|, w1, i);
    assert w2.log[|w1.log| + i].ok;
  }

  lemma OnlyApplying(net: nat -> Net, names: seq<string>, config: Option<set<string>>, allowPending: bool,
                     schedule: Schedule, w: World, w1: World, w2: World, w': World, result: TransactionResult, k: nat)
    requires Fair(schedule) && Outcome(net, names, config, allowPending, schedule, w, w1, w2, w', result)
    requires |w.log| <= k < |w'.log| && w'.log[k].call.kind.Apply?
    ensures result.Applied? && k >= |w.log| + 2 * |names| && |w'.log| == |w.log| + 3 * |names|
    ensures AllOk(w1, |w.log|) && AllOk(w2, |w1.log|) && |w1.log| == |w.log| + |names| && |w2.log| == |w1.log| + |names|
  {
    match result
    case NotLocked(reason) => NoApplyWhileLocking(net, names, config, allowPending, w, w', reason, k);
    case RolledBack(clients) =>
      NoApplyWhileLocking(net, names, config, allowPending, w, w1, Locked(clients), k);
      NoApplyInCallbacks(net, clients, schedule, w1, w', false, k);
    case Applied(clients, _) =>
      LockedMeaning(net, names, config, allowPending, w, w1, clients);
      CallbacksKeepLocks(net, clients, schedule.callbacks(clients), schedule.rollbacks(clients), w1, w2);
      PermutedLength(schedule.applies(clients), clients);
      if k < |w2.log| {
        LogKept(net, Apply, schedule.applies(clients), |clients|, w2, k);
        NoApplyWhileLocking(net, names, config, allowPending, w, w1, Locked(clients), k);
        NoApplyInCallbacks(net, clients, schedule, w1, w2, true, k);
      }
  }

  lemma NoApplyWhileLocking(net: nat -> Net, names: seq<string>, config: Option<set<string>>, allowPending: bool,
                            w: World, w': World, result: LockResult, k: nat)
    requires LockOutcome(net, names, config, allowPending, w, w', result)
    ensures |w.log| <= k < |w'.log| ==> !w'.log[k].call.kind.Apply?
  {
    if |w.log| <= k < |w'.log| {
      var tickets := Tickets(names, |w.log|);
      match result
      case ConfigUnreadable =>
      case UnknownRemote(n) => OnlyKind(net, Acquire(allowPending), tickets, n, w, k);
      case Locked(_) => OnlyKind(net, Acquire(allowPending), tickets, |names|, w, k);
      case LockFailed(n) => NoApplyInLockFailure(net, names, allowPending, n, w, w', k);
    }
  }

  lemma NoApplyInLockFailure(net: nat -> Net, names: seq<string>, allowPending: bool, n: nat, w: World, w': World,
                             k: nat)
    requires LockFailure(net, names, allowPending, n, w, w') && |w.log| <= k < |w'.log|
    ensures !w'.log[k].call.kind.Apply?
  {
    var tickets := Tickets(names, |w.log|);
    var w2 := PerformAll(net, Acquire(allowPending), tickets, n + 1, w);
    if k < |w2.log| {
      LogKept(net, Release, tickets, n, w2, k);
      OnlyKind(net, Acquire(allowPending), tickets, n + 1, w, k);
    } else {
      OnlyKind(net, Release, tickets, n, w2, k);
    }
  }

  lemma NoApplyInCallbacks(net: nat -> Net, clients: seq<Client>, schedule: Schedule, w1: World, w2: World, ok: bool,
                           k: nat)
    requires CallbackStage(net, clients, schedule, w1, w2, ok)
    ensures |w1.log| <= k < |w2.log| ==> !w2.log[k].call.kind.Apply?
    ensures k < |w1.log| ==> k < |w2.log| && w2.log[k] == w1.log[k]
  {
    var arrival, rollbacks := schedule.callbacks(clients), schedule.rollbacks(clients);
    var mid := PerformAll(net, Change, arrival, |arrival|, w1);
    if k < |mid.log| {
      if k < |w1.log| {
        LogKept(net, Change, arrival, |arrival|, w1, k);
      } else {
        OnlyKind(net, Change, arrival, |arrival|, w1, k);
      }
      if !ok { LogKept(net, Rollback, rollbacks, |rollbacks|, mid, k); }
    } else if k < |w2.log| {
      OnlyKind(net, Rollback, rollbacks, |rollbacks|, mid, k);
    }
  }

  /** If call `k` took effect the remote now runs what was pending before it, without a lock; if not, it
      is as it was before the call. */
  ghost predicate AppliedOrHeld(c: Client, k: nat, w2: World, w': World) {
    && c.remote in w2.remotes && c.remote in w'.remotes && k < |w'.log|
    && w'.log[k].call == Call(Apply, c.remote, c.token)
    && var pending := w2.remotes[c.remote].pending;
       w'.remotes[c.remote] == if w'.log[k].effect then Remote(pending, pending, None) else w2.remotes[c.remote]
  }

  /** The j-th apply call and the callback of the same client, call number `i`. */
  ghost predicate AppliesEdit(net: nat -> Net, c: Client, i: nat, k: nat, w1: World, w2: World, w': World) {
    && |w1.log| <= i < |w2.log| && w2.log[i].call == Call(Change, c.remote, c.token)
    && c.remote in w2.remotes && w2.remotes[c.remote].pending == net(i).edit
    && w2.remotes[c.remote].lock == Some(c.token)
    && AppliedOrHeld(c, k, w2, w')
  }

  lemma ApplyStage(net: nat -> Net, clients: seq<Client>, arrival: seq<Client>, applies: seq<Client>,
                   w1: World, w2: World, j: nat) returns (i: nat)
    requires Holds(clients, w1) && Holds(clients, w2) && Permuted(arrival, clients) && Permuted(applies, clients)
    requires Known(w1, arrival, |arrival|) && Known(w2, applies, |applies|) && j < |applies|
    requires w2 == PerformAll(net, Change, arrival, |arrival|, w1) && AllOk(w2, |w1.log|)
    ensures AppliesEdit(net, applies[j], i, |w2.log| + j, w1, w2, PerformAll(net, Apply, applies, |applies|, w2))
  {
    PermutedDistinct(applies, clients);
    PermutedElement(applies, clients, applies[j]);
    HolderLock(clients, w2, applies[j]);
    i := CallbackEdit(net, clients, arrival, w1, w2, applies[j]);
    AnsweredAt(net, Apply, applies, |applies|, w2, j);
  }

  /** Applying: one apply call for every client, whose lock is still held, and where it took effect the
      remote runs exactly what its own callback, call number `i`, wrote. */
  lemma AppliedRunsCallbackEdit(net: nat -> Net, names: seq<string>, config: Option<set<string>>, allowPending: bool,
                                schedule: Schedule, w: World, w1: World, w2: World, w': World,
                                result: TransactionResult, j: nat) returns (i: nat)
    requires Fair(schedule) && Outcome(net, names, config, allowPending, schedule, w, w1, w2, w', result)
    requires result.Applied? && j < |result.clients|
    ensures j < |schedule.applies(result.clients)| == |result.clients| == |names| && |w'.log| == |w2.log| + |names|
    ensures AppliesEdit(net, schedule.applies(result.clients)[j], i, |w2.log| + j, w1, w2, w')
  {
    var clients := result.clients;
    LockedMeaning(net, names, config, allowPending, w, w1, clients);
    CallbacksKeepLocks(net, clients, schedule.callbacks(clients), schedule.rollbacks(clients), w1, w2);
    PermutedLength(schedule.applies(clients), clients);
    i := ApplyStage(net, clients, schedule.callbacks(clients), schedule.applies(clients), w1, w2, j);
  }

  lemma CallbackEdit(net: nat -> Net, clients: seq<Client>, arrival: seq<Client>, w1: World, w2: World,
                     c: Client) returns (i: nat)
    requires Holds(clients, w1) && Permuted(arrival, clients) && c in clients && Known(w1, arrival, |arrival|)
    requires w2 == PerformAll(net, Change, arrival, |arrival|, w1) && AllOk(w2, |w1.log|)
    ensures |w1.log| <= i < |w2.log| && w2.log[i].call == Call(Change, c.remote, c.token)
    ensures c.remote in w2.remotes && w2.remotes[c.remote].pending == net(i).edit
  {
    PermutedDistinct(arrival, clients);
    PermutedElement(arrival, clients, c);
    var k :| 0 <= k < |arrival| && arrival[k] == c;
    AnsweredAt(net, Change, arrival, |arrival|, w1, k);
    i := |w1.log| + k;
    assert w2.log[i].ok;
  }

  /** The remote runs what this client's own callback wrote, with nothing pending and no lock. */
  ghost predicate RunsOwnEdit(net: nat -> Net, c: Client, w1: World, w2: World, w': World) {
    && c.remote in w'.remotes
    && exists i | |w1.log| <= i < |w2.log| ::
         w2.log[i].call == Call(Change, c.remote, c.token)
           && w'.remotes[c.remote] == Remote(net(i).edit, net(i).edit, None)
  }

  /** What the documentation promises of success, for the client of the j-th apply call: the remote runs
      the edit, and the reload task that the call started succeeded. */
  ghost predicate InForce(net: nat -> Net, applies: seq<Client>, j: nat, w1: World, w2: World, w': World,
                          reload: nat -> Reload)
    requires j < |applies|
  {
    RunsOwnEdit(net, applies[j], w1, w2, w') && reload(|w2.log| + j).succeeds
  }

  /** What success leaves open about a call: whether it took effect, and, if its reload task was not waited
      for, whether that succeeded. */
  ghost predicate TookEffect(w': World, k: nat, reload: nat -> Reload)
    requires k < |w'.log|
  {
    w'.log[k].effect && (Polled(w', k, reload) || reload(k).succeeds)
  }

  lemma InForceExactly(net: nat -> Net, names: seq<string>, config: Option<set<string>>, allowPending: bool,
                       schedule: Schedule, w: World, w1: World, w2: World, w': World,
                       clients: seq<Client>, reload: nat -> Reload, j: nat)
    requires Fair(schedule) && Outcome(net, names, config, allowPending, schedule, w, w1, w2, w',
                                       Applied(clients, true))
    requires ReloadsFine(w', |w2.log|, reload) && j < |clients|
    ensures |schedule.applies(clients)| == |clients| && |w'.log| == |w2.log| + |clients|
    ensures InForce(net, schedule.applies(clients), j, w1, w2, w', reload) <==> TookEffect(w', |w2.log| + j, reload)
  {
    var i := AppliedRunsCallbackEdit(net, names, config, allowPending, schedule, w, w1, w2, w', Applied(clients, true),
                                     j);
    InForceAt(net, schedule.applies(clients), j, i, w1, w2, w', reload);
  }

  lemma InForceAt(net: nat -> Net, applies: seq<Client>, j: nat, i: nat, w1: World, w2: World, w': World,
                  reload: nat -> Reload)
    requires j < |applies| && AppliesEdit(net, applies[j], i, |w2.log| + j, w1, w2, w')
    requires ReloadsFine(w', |w2.log|, reload)
    ensures InForce(net, applies, j, w1, w2, w', reload) <==> TookEffect(w', |w2.log| + j, reload)
  {
    EditInForce(net, applies[j], i, |w2.log| + j, w1, w2, w');
  }

  /** A client runs its edit after its apply call exactly if the call took effect. */
  lemma EditInForce(net: nat -> Net, c: Client, i: nat, k: nat, w1: World, w2: World, w': World)
    requires AppliesEdit(net, c, i, k, w1, w2, w')
    ensures RunsOwnEdit(net, c, w1, w2, w') <==> w'.log[k].effect
  {
  }

  /** A transaction that reports success has put every callback's edit in force on its remote, unlocked
      and reloaded, if and only if every apply call took effect and no reload task that was not waited
      for failed: a refused apply and an unreadable task id are logged, but not reported. */
  lemma OkMeansApplied(net: nat -> Net, names: seq<string>, config: Option<set<string>>, allowPending: bool,
                       schedule: Schedule, w: World, w1: World, w2: World, w': World,
                       clients: seq<Client>, reload: nat -> Reload)
    requires Fair(schedule) && Outcome(net, names, config, allowPending, schedule, w, w1, w2, w',
                                       Applied(clients, true))
    requires ReloadsFine(w', |w2.log|, reload)
    ensures |schedule.applies(clients)| == |clients| && |w'.log| == |w2.log| + |clients|
    ensures (forall j | 0 <= j < |clients| :: InForce(net, schedule.applies(clients), j, w1, w2, w', reload))
            <==> (forall k | |w2.log| <= k < |w'.log| :: TookEffect(w', k, reload))
  {
    PermutedLength(schedule.applies(clients), clients);
    forall j | 0 <= j < |clients|
      ensures InForce(net, schedule.applies(clients), j, w1, w2, w', reload) <==> TookEffect(w', |w2.log| + j, reload)
    {
      InForceExactly(net, names, config, allowPending, schedule, w, w1, w2, w', clients, reload, j);
    }
    forall k | |w2.log| <= k < |w'.log|
      ensures InForce(net, schedule.applies(clients), k - |w2.log|, w1, w2, w', reload) <==> TookEffect(w', k, reload)
    {
      InForceExactly(net, names, config, allowPending, schedule, w, w1, w2, w', clients, reload, k - |w2.log|);
    }
  }

  /** A round of calls by clients that hold no lock on their remotes changes nothing anywhere. */
  lemma {:induction false} StrangersChangeNothing(net: nat -> Net, kind: Kind, targets: seq<Client>, n: nat, w: World)
    requires Known(w, targets, n) && !kind.Acquire?
    requires forall i | 0 <= i < n :: w.remotes[targets[i].remote].lock != Some(targets[i].token)
    ensures PerformAll(net, kind, targets, n, w).remotes == w.remotes
    decreases n
  {
    if n > 0 {
      StrangersChangeNothing(net, kind, targets, n - 1, w);
    }
  }

  /** A transaction that does not get to apply has a cause: the configuration could not be read, a name is
      not configured, a request for a lock was not granted, or a callback did not succeed. */
  lemma NotAppliedHasCause(net: nat -> Net, names: seq<string>, config: Option<set<string>>, allowPending: bool,
                           schedule: Schedule, w: World, w1: World, w2: World, w': World, result: TransactionResult)
    requires Outcome(net, names, config, allowPending, schedule, w, w1, w2, w', result) && !result.Applied?
    ensures || config.None?
            || (exists name | name in names :: name !in config.value)
            || (exists k | |w.log| <= k < |w'.log| ::
                  !w'.log[k].ok && (w'.log[k].call.kind.Acquire? || w'.log[k].call.kind.Change?))
  {
    match result
    case NotLocked(reason) =>
      match reason {
        case ConfigUnreadable =>
        case UnknownRemote(k) => assert names[k] in names;
        case LockFailed(k) =>
          LockFailureAttempts(net, names, allowPending, k, w, w', k);
          assert !w'.log[|w.log| + k].ok;
      }
    case RolledBack(clients) =>
      var k := FailedCallback(net, clients, schedule, w1, w');
      assert !w'.log[k].ok;
  }

  lemma FailedCallback(net: nat -> Net, clients: seq<Client>, schedule: Schedule, w1: World, w': World) returns (k: nat)
    requires CallbackStage(net, clients, schedule, w1, w', false)
    ensures |w1.log| <= k < |w'.log| && !w'.log[k].ok && w'.log[k].call.kind.Change?
  {
    var arrival, rollbacks := schedule.callbacks(clients), schedule.rollbacks(clients);
    var mid := PerformAll(net, Change, arrival, |arrival|, w1);
    k :| |w1.log| <= k < |mid.log| && !mid.log[k].ok;
    OnlyKind(net, Change, arrival, |arrival|, w1, k);
    LogKept(net, Rollback, rollbacks, |rollbacks|, mid, k);
  }

  const IN_ORDER := Schedule(clients => clients, clients => clients, clients => clients)

  /** One remote whose lock is taken and whose callback succeeds, while the apply call gets lost. */
  lemma {:induction false} LostApply(net: nat -> Net, name: string, running: string, w: World, w1: World, w2: World,
                                     w': World)
    requires net(0).arrives && net(0).replies && net(1).arrives && net(1).replies && !net(2).arrives
    requires w == World(map[name := Remote(running, running, None)], [])
    requires w1 == World(map[name := Remote(running, running, Some(0))],
                         [Entry(Call(Acquire(false), name, 0), true, true)])
    requires w2 == World(map[name := Remote(running, net(1).edit, Some(0))],
                         w1.log + [Entry(Call(Change, name, 0), true, true)])
    requires w' == World(w2.remotes, w2.log + [Entry(Call(Apply, name, 0), false, false)])
    ensures PerformAll(net, Acquire(false), Tickets([name], 0), 1, w) == w1
    ensures PerformAll(net, Change, [Client(name, 0)], 1, w1) == w2
    ensures PerformAll(net, Apply, [Client(name, 0)], 1, w2) == w'
  {
    var clients := [Client(name, 0)];
    assert Tickets([name], 0)[0] == Client(name, 0);
    PerformOneMore(net, Acquire(false), Tickets([name], 0), 0, w, Call(Acquire(false), name, 0));
    assert Perform(net, w, Call(Acquire(false), name, 0)).remotes == w1.remotes;
    PerformOneMore(net, Change, clients, 0, w1, Call(Change, name, 0));
    assert Perform(net, w1, Call(Change, name, 0)).remotes == w2.remotes;
    PerformOneMore(net, Apply, clients, 0, w2, Call(Apply, name, 0));
  }

  /** A refused apply is reported as success: a whole transaction on one unlocked remote whose third call
      is lost. The remote goes on running what it ran, and its lock stays. */
  lemma RefusedApplyReportsOk(net: nat -> Net, name: string, running: string, reload: nat -> Reload)
    returns (w: World, w1: World, w2: World, w': World)
    requires net(0).arrives && net(0).replies && net(1).arrives && net(1).replies && !net(2).arrives
    ensures w == World(map[name := Remote(running, running, None)], [])
    ensures Outcome(net, [name], Some({name}), false, IN_ORDER, w, w1, w2, w', Applied([Client(name, 0)], true))
    ensures ReloadsFine(w', |w2.log|, reload)
    ensures w'.remotes == map[name := Remote(running, net(1).edit, Some(0))]
  {
    w := World(map[name := Remote(running, running, None)], []);
    w1 := World(map[name := Remote(running, running, Some(0))], [Entry(Call(Acquire(false), name, 0), true, true)]);
    w2 := World(map[name := Remote(running, net(1).edit, Some(0))],
                w1.log + [Entry(Call(Change, name, 0), true, true)]);
    w' := World(w2.remotes, w2.log + [Entry(Call(Apply, name, 0), false, false)]);
    LostApply(net, name, running, w, w1, w2, w');
    assert Tickets([name], 0) == [Client(name, 0)];
  }

  /** One remote whose lock is taken and whose callback and apply succeed. */
  lemma {:induction false} AllArrive(net: nat -> Net, name: string, running: string, w: World, w1: World, w2: World,
                                     w': World)
    requires forall k | 0 <= k < 3 :: net(k).arrives && net(k).replies
    requires w == World(map[name := Remote(running, running, None)], [])
    requires w1 == World(map[name := Remote(running, running, Some(0))],
                         [Entry(Call(Acquire(false), name, 0), true, true)])
    requires w2 == World(map[name := Remote(running, net(1).edit, Some(0))],
                         w1.log + [Entry(Call(Change, name, 0), true, true)])
    requires w' == World(map[name := Remote(net(1).edit, net(1).edit, None)],
                         w2.log + [Entry(Call(Apply, name, 0), true, true)])
    ensures PerformAll(net, Acquire(false), Tickets([name], 0), 1, w) == w1
    ensures PerformAll(net, Change, [Client(name, 0)], 1, w1) == w2
    ensures PerformAll(net, Apply, [Client(name, 0)], 1, w2) == w'
  {
    var clients := [Client(name, 0)];
    assert Tickets([name], 0)[0] == Client(name, 0);
    PerformOneMore(net, Acquire(false), Tickets([name], 0), 0, w, Call(Acquire(false), name, 0));
    assert Perform(net, w, Call(Acquire(false), name, 0)).remotes == w1.remotes;
    PerformOneMore(net, Change, clients, 0, w1, Call(Change, name, 0));
    assert Perform(net, w1, Call(Change, name, 0)).remotes == w2.remotes;
    PerformOneMore(net, Apply, clients, 0, w2, Call(Apply, name, 0));
    assert Perform(net, w2, Call(Apply, name, 0)).remotes == w'.remotes;
  }

  /** A whole transaction on one remote in which every call succeeds: it reports success exactly if the
      reload task, if its id can be read, succeeds. The remote runs the edit in any case. */
  lemma ReloadDecides(net: nat -> Net, name: string, running: string, reload: nat -> Reload, ok: bool)
    returns (w: World, w1: World, w2: World, w': World)
    requires forall k | 0 <= k < 3 :: net(k).arrives && net(k).replies
    ensures w == World(map[name := Remote(running, running, None)], []) && |w2.log| == 2
    ensures Outcome(net, [name], Some({name}), false, IN_ORDER, w, w1, w2, w', Applied([Client(name, 0)], ok))
    ensures ReloadsFine(w', |w2.log|, reload) <==> reload(2).validUpid ==> reload(2).succeeds
    ensures w'.remotes == map[name := Remote(net(1).edit, net(1).edit, None)]
  {
    w := World(map[name := Remote(running, running, None)], []);
    w1 := World(map[name := Remote(running, running, Some(0))], [Entry(Call(Acquire(false), name, 0), true, true)]);
    w2 := World(map[name := Remote(running, net(1).edit, Some(0))],
                w1.log + [Entry(Call(Change, name, 0), true, true)]);
    w' := World(map[name := Remote(net(1).edit, net(1).edit, None)],
                w2.log + [Entry(Call(Apply, name, 0), true, true)]);
    AllArrive(net, name, running, w, w1, w2, w');
    assert Tickets([name], 0) == [Client(name, 0)];
    assert w'.log[2] == Entry(Call(Apply, name, 0), true, true);
  }
}
