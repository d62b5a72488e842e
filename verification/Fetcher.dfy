/** The bounded parallel fetcher of server/src/parallel_fetcher.rs: remote tasks, node tasks, the
    global and the per-remote semaphore, as steps that interleave in any order. */
module Fetcher {
  import opened Basics

  // ---------------------------------------------------------------------------------------------
  // What is fetched

  /** The result of the handler function for one node. */
  type Data = Result<string, string>

  /** How a handler call goes: it returns, or its task panics. */
  datatype Call = Replies(data: Data) | Panics

  datatype Node = Node(name: string, call: Call)

  /** What the network has in store for one remote. `Single` is the path without a node listing: PBS
      remotes, and every remote of `do_for_all_remotes`. */
  datatype Plan =
    | Listed(nodes: seq<Node>)
    | ListingFails(message: string)
    | ListingPanics
    | Single(call: Call)

  datatype Job = Job(remote: string, plan: Plan)

  datatype NodeResponse = NodeResponse(node: string, data: Data)

  datatype Response = Nodes(responses: seq<NodeResponse>) | NoNodes(message: string)

  /** A joined response; `job` is the index of the remote it answers for. */
  datatype RemoteResponse = RemoteResponse(job: nat, remote: string, response: Response)

  // ---------------------------------------------------------------------------------------------
  // The tasks

  /** Where a remote's task stands.
      `Spawning`: the node loop and the node join loop. `hand` is the global permit the loop itself
      holds, `running` the node tasks at work, `finished` those waiting to be joined, `joined` those
      joined so far in that order, `free` the permits left in the per-remote semaphore. */
  datatype Phase =
    | WaitFirst
    | Listing
    | Spawning(next: nat, hand: bool, running: set<nat>, finished: set<nat>, joined: seq<nat>, free: nat)
    | Fetching
    | Ended(outcome: Option<Response>)
    | Joined

  datatype Task = Task(job: Job, phase: Phase)

  datatype State = State(free: nat, tasks: seq<Task>, collected: seq<RemoteResponse>)

  /** `maxConnections` and `maxConnectionsPerRemote`. */
  datatype Limits = Limits(total: nat, perRemote: nat)

  function Init(limits: Limits, jobs: seq<Job>): State {
    State(limits.total, seq(|jobs|, i requires 0 <= i < |jobs| => Task(jobs[i], WaitFirst)), [])
  }

  datatype Action =
    | TakeFirst            // the task gets its first global permit
    | FinishListing        // the node listing returns
    | TakeGlobal           // the node loop gets a global permit for its next node
    | SpawnNode            // the node loop gets a per-remote permit and spawns the node task
    | FinishNode(k: nat)   // a node task ends and drops both its permits
    | JoinNode(k: nat)     // the remote's task picks up a finished node task
    | Return               // all node tasks are joined
    | FinishSingle         // the single call ends
    | JoinRemote           // the caller picks up a finished remote's task

  /** Whether a task can take an action while the global semaphore has `free` permits left. */
  predicate Ready(free: nat, t: Task, a: Action) {
    match a
    case TakeFirst => t.phase.WaitFirst? && free > 0
    case FinishListing => t.phase.Listing?
    case TakeGlobal => LoopAt(t) && !t.phase.hand && free > 0
    case SpawnNode => LoopAt(t) && t.phase.hand && t.phase.free > 0
    case FinishNode(k) => t.phase.Spawning? && k in t.phase.running
    case JoinNode(k) => JoiningAt(t) && k in t.phase.finished && k < |t.job.plan.nodes|
    case Return => JoiningAt(t) && t.phase.running == {} && t.phase.finished == {}
    case FinishSingle => t.phase.Fetching?
    case JoinRemote => t.phase.Ended?
  }

  /** The node loop still has a node to spawn. */
  predicate LoopAt(t: Task) {
    t.phase.Spawning? && t.job.plan.Listed? && t.phase.next < |t.job.plan.nodes|
  }

  /** All node tasks are spawned; the task waits for them. */
  predicate JoiningAt(t: Task) {
    t.phase.Spawning? && t.job.plan.Listed? && t.phase.next >= |t.job.plan.nodes|
  }

  /** What the join loop pushes for a node task: nothing if it panicked. */
  function Reply(n: Node): seq<NodeResponse> {
    match n.call
    case Replies(d) => [NodeResponse(n.name, d)]
    case Panics => []
  }

  /** The node responses when the node tasks are joined in this order. */
  function Replies(nodes: seq<Node>, order: seq<nat>): seq<NodeResponse> {
    if order == [] then []
    else
      var k := order[|order| - 1];
      Replies(nodes, order[..|order| - 1]) + (if k < |nodes| then Reply(nodes[k]) else [])
  }

  /** The phase after an action. */
  function PhaseAfter(limits: Limits, free: nat, t: Task, a: Action): Phase
    requires Ready(free, t, a)
  {
    var p := t.phase;
    match a
    case TakeFirst => if t.job.plan.Single? then Fetching else Listing
    case FinishListing =>
      (match t.job.plan
       case Listed(_) => Spawning(0, true, {}, {}, [], limits.perRemote)
       case ListingFails(m) => Ended(Some(NoNodes(m)))
       case _ => Ended(None))
    case TakeGlobal => p.(hand := true)
    case SpawnNode => p.(next := p.next + 1, hand := false, running := p.running + {p.next}, free := p.free - 1)
    case FinishNode(k) => p.(running := p.running - {k}, finished := p.finished + {k}, free := p.free + 1)
    case JoinNode(k) => p.(finished := p.finished - {k}, joined := p.joined + [k])
    case Return => Ended(Some(Nodes(Replies(t.job.plan.nodes, p.joined))))
    case FinishSingle =>
      (match t.job.plan
       case Single(Replies(d)) => Ended(Some(Nodes([NodeResponse("localhost", d)])))
       case _ => Ended(None))
    case JoinRemote => Joined
  }

  /** The free global permits after an action: acquired ones leave, dropped ones come back. */
  function FreeAfter(free: nat, t: Task, a: Action): nat
    requires Ready(free, t, a)
  {
    match a
    case TakeFirst => free - 1
    case TakeGlobal => free - 1
    case FinishListing => if t.job.plan.Listed? then free else free + 1
    case FinishNode(_) => free + 1
    case FinishSingle => free + 1
    case Return => if t.phase.hand then free + 1 else free
    case _ => free
  }

  function Collect(i: nat, t: Task, a: Action): seq<RemoteResponse> {
    if a.JoinRemote? && t.phase.Ended? && t.phase.outcome.Some?
    then [RemoteResponse(i, t.job.remote, t.phase.outcome.value)]
    else []
  }

  /** An action of one task. */
  datatype Event = Event(task: nat, action: Action)

  predicate Enabled(s: State, e: Event) {
    e.task < |s.tasks| && Ready(s.free, s.tasks[e.task], e.action)
  }

  function Step(limits: Limits, s: State, e: Event): State
    requires Enabled(s, e)
  {
    var t := s.tasks[e.task];
    State(FreeAfter(s.free, t, e.action),
          s.tasks[e.task := t.(phase := PhaseAfter(limits, s.free, t, e.action))],
          s.collected + Collect(e.task, t, e.action))
  }

  /** The state after a run, `None` if the events are not a run. */
  function After(limits: Limits, s: State, events: seq<Event>): Option<State>
    decreases |events|
  {
    if events == [] then Some(s)
    else
      var n := |events| - 1;
      match After(limits, s, events[..n])
      case None => None
      case Some(r) => if Enabled(r, events[n]) then Some(Step(limits, r, events[n])) else None
  }

  // ---------------------------------------------------------------------------------------------
  // Permits

  /** Global permits held by a task and its node tasks. */
  function Held(t: Task): nat {
    match t.phase
    case Listing => 1
    case Fetching => 1
    case Spawning(_, hand, running, _, _, _) => (if hand then 1 else 0) + |running|
    case _ => 0
  }

  /** API requests a task has in flight: the node listing or the handler calls. */
  function Outgoing(t: Task): nat {
    match t.phase
    case Listing => 1
    case Fetching => 1
    case Spawning(_, _, running, _, _, _) => |running|
    case _ => 0
  }

  function Sum(f: Task -> nat, tasks: seq<Task>): nat {
    if tasks == [] then 0 else f(tasks[0]) + Sum(f, tasks[1..])
  }

  lemma {:induction false} SumUpdate(f: Task -> nat, tasks: seq<Task>, i: nat, t: Task)
    requires i < |tasks|
    ensures Sum(f, tasks[i := t]) == Sum(f, tasks) - f(tasks[i]) + f(t)
  {
    if i == 0 {
      assert tasks[0 := t][1..] == tasks[1..];
    } else {
      assert tasks[i := t][1..] == tasks[1..][i - 1 := t];
      SumUpdate(f, tasks[1..], i - 1, t);
    }
  }

  lemma {:induction false} SumZero(f: Task -> nat, tasks: seq<Task>)
    requires forall i | 0 <= i < |tasks| :: f(tasks[i]) == 0
    ensures Sum(f, tasks) == 0
  {
    if tasks != [] {
      SumZero(f, tasks[1..]);
    }
  }

  lemma {:induction false} SumAtMost(f: Task -> nat, g: Task -> nat, tasks: seq<Task>)
    requires forall i | 0 <= i < |tasks| :: f(tasks[i]) <= g(tasks[i])
    ensures Sum(f, tasks) <= Sum(g, tasks)
  {
    if tasks != [] {
      SumAtMost(f, g, tasks[1..]);
    }
  }

  // ---------------------------------------------------------------------------------------------
  // What every step keeps

  /** `order` lists the numbers below `n`, each once. */
  ghost predicate Permutes(order: seq<nat>, n: nat) {
    NoRepeats(order) && forall k: nat :: k in order <==> k < n
  }

  ghost predicate AllReplies(nodes: seq<Node>, responses: seq<NodeResponse>) {
    exists order :: Permutes(order, |nodes|) && responses == Replies(nodes, order)
  }

  /** The outcome of a remote's task is what its plan says: of the listed nodes each replies once,
      in any order, leaving out those whose task panicked. */
  ghost predicate Fits(plan: Plan, outcome: Option<Response>) {
    match plan
    case Listed(nodes) => outcome.Some? && outcome.value.Nodes? && AllReplies(nodes, outcome.value.responses)
    case ListingFails(m) => outcome == Some(NoNodes(m))
    case Single(Replies(d)) => outcome == Some(Nodes([NodeResponse("localhost", d)]))
    case _ => outcome.None?
  }

  /** Each node task spawned so far is either running, or finished, or joined; none is joined before all
      are spawned. */
  ghost predicate SpawningInv(perRemote: nat, nodes: seq<Node>, p: Phase)
    requires p.Spawning?
  {
    && p.next <= |nodes|
    && (forall k: nat :: k < p.next <==> k in p.running || k in p.finished || k in p.joined)
    && p.running !! p.finished
    && (forall k | k in p.joined :: k !in p.running && k !in p.finished)
    && NoRepeats(p.joined) && (p.joined != [] ==> p.next == |nodes|)
    && p.free + |p.running| == perRemote
  }

  ghost predicate TaskInv(perRemote: nat, t: Task) {
    match t.phase
    case Listing => !t.job.plan.Single?
    case Fetching => t.job.plan.Single?
    case Spawning(_, _, _, _, _, _) => t.job.plan.Listed? && SpawningInv(perRemote, t.job.plan.nodes, t.phase)
    case Ended(outcome) => Fits(t.job.plan, outcome)
    case _ => true
  }

  lemma SpawnKeepsInv(perRemote: nat, nodes: seq<Node>, p: Phase)
    requires p.Spawning? && SpawningInv(perRemote, nodes, p) && p.next < |nodes| && p.free > 0
    ensures SpawningInv(perRemote, nodes,
                        p.(next := p.next + 1, hand := false, running := p.running + {p.next}, free := p.free - 1))
  {
    assert p.next !in p.running && p.next !in p.finished && p.next !in p.joined;
  }

  lemma FinishKeepsInv(perRemote: nat, nodes: seq<Node>, p: Phase, k: nat)
    requires p.Spawning? && SpawningInv(perRemote, nodes, p) && k in p.running
    ensures SpawningInv(perRemote, nodes,
                        p.(running := p.running - {k}, finished := p.finished + {k}, free := p.free + 1))
  {
  }

  lemma JoinKeepsInv(perRemote: nat, nodes: seq<Node>, p: Phase, k: nat)
    requires p.Spawning? && SpawningInv(perRemote, nodes, p) && k in p.finished && p.next >= |nodes|
    ensures SpawningInv(perRemote, nodes, p.(finished := p.finished - {k}, joined := p.joined + [k]))
  {
  }

  lemma {:induction false} ReturnFits(perRemote: nat, nodes: seq<Node>, p: Phase)
    requires p.Spawning? && SpawningInv(perRemote, nodes, p)
    requires p.next == |nodes| && p.running == {} && p.finished == {}
    ensures AllReplies(nodes, Replies(nodes, p.joined))
  {
    assert Permutes(p.joined, |nodes|);
  }

  lemma PhaseKeepsInv(limits: Limits, free: nat, t: Task, a: Action)
    requires Ready(free, t, a) && TaskInv(limits.perRemote, t)
    ensures TaskInv(limits.perRemote, t.(phase := PhaseAfter(limits, free, t, a)))
  {
    match a
    case SpawnNode => SpawnKeepsInv(limits.perRemote, t.job.plan.nodes, t.phase);
    case FinishNode(k) => FinishKeepsInv(limits.perRemote, t.job.plan.nodes, t.phase, k);
    case JoinNode(k) => JoinKeepsInv(limits.perRemote, t.job.plan.nodes, t.phase, k);
    case Return => ReturnFits(limits.perRemote, t.job.plan.nodes, t.phase);
    case _ =>
  }

  /** Whether a task's answer is lost because the task itself panics. */
  predicate Lost(plan: Plan) {
    plan.ListingPanics? || plan == Single(Panics)
  }

  /** Responses are collected once per joined task, and none is missing. */
  ghost predicate CollectedInv(s: State) {
    && (forall c | c in s.collected ::
          && c.job < |s.tasks| && s.tasks[c.job].phase.Joined?
          && c.remote == s.tasks[c.job].job.remote
          && Fits(s.tasks[c.job].job.plan, Some(c.response)))
    && (forall c, d | 0 <= c < d < |s.collected| :: s.collected[c].job != s.collected[d].job)
    && (forall i | 0 <= i < |s.tasks| && s.tasks[i].phase.Joined? ::
          Lost(s.tasks[i].job.plan) || exists c :: c in s.collected && c.job == i)
  }

  ghost predicate Inv(limits: Limits, s: State) {
    && s.free + Sum(Held, s.tasks) == limits.total
    && (forall i | 0 <= i < |s.tasks| :: TaskInv(limits.perRemote, s.tasks[i]))
    && CollectedInv(s)
  }

  lemma StepConservesPermits(limits: Limits, s: State, e: Event)
    requires Enabled(s, e) && TaskInv(limits.perRemote, s.tasks[e.task])
    ensures var s' := Step(limits, s, e);
            s'.free + Sum(Held, s'.tasks) == s.free + Sum(Held, s.tasks)
  {
    var t := s.tasks[e.task];
    SumUpdate(Held, s.tasks, e.task, t.(phase := PhaseAfter(limits, s.free, t, e.action)));
    if ByNode(e.action) {
      NodeConserves(limits, s.free, t, e.action);
    } else {
      RemoteConserves(limits, s.free, t, e.action);
    }
  }

  /** The actions of the node loop and the node tasks. */
  predicate ByNode(a: Action) {
    a.TakeGlobal? || a.SpawnNode? || a.FinishNode? || a.JoinNode?
  }

  lemma NodeConserves(limits: Limits, free: nat, t: Task, a: Action)
    requires Ready(free, t, a) && TaskInv(limits.perRemote, t) && ByNode(a)
    ensures FreeAfter(free, t, a) + Held(t.(phase := PhaseAfter(limits, free, t, a))) == free + Held(t)
  {
    if a.SpawnNode? {
      assert t.phase.next !in t.phase.running;
    }
  }

  lemma RemoteConserves(limits: Limits, free: nat, t: Task, a: Action)
    requires Ready(free, t, a) && TaskInv(limits.perRemote, t) && !ByNode(a)
    ensures FreeAfter(free, t, a) + Held(t.(phase := PhaseAfter(limits, free, t, a))) == free + Held(t)
  {
  }

  lemma StepKeepsCollected(limits: Limits, s: State, e: Event)
    requires Enabled(s, e) && TaskInv(limits.perRemote, s.tasks[e.task]) && CollectedInv(s)
    ensures CollectedInv(Step(limits, s, e))
  {
    var s' := Step(limits, s, e);
    var t := s.tasks[e.task];
    var more := Collect(e.task, t, e.action);
    assert !t.phase.Joined?;
    forall i | 0 <= i < |s'.tasks| && s'.tasks[i].phase.Joined?
      ensures Lost(s'.tasks[i].job.plan) || exists c :: c in s'.collected && c.job == i
    {
      if i == e.task {
        if more != [] {
          assert more[0] in s'.collected;
        }
      } else if !Lost(s.tasks[i].job.plan) {
        var c :| c in s.collected && c.job == i;
        assert c in s'.collected;
      }
    }
  }

  lemma StepKeepsInv(limits: Limits, s: State, e: Event)
    requires Inv(limits, s) && Enabled(s, e)
    ensures Inv(limits, Step(limits, s, e))
  {
    PhaseKeepsInv(limits, s.free, s.tasks[e.task], e.action);
    StepConservesPermits(limits, s, e);
    StepKeepsCollected(limits, s, e);
  }

  // ---------------------------------------------------------------------------------------------
  // Every run ends

  function NodeCount(plan: Plan): nat {
    if plan.Listed? then |plan.nodes| else 0
  }

  /** A bound on the steps a task can still take. */
  function Weight(t: Task): nat {
    var k := NodeCount(t.job.plan);
    match t.phase
    case WaitFirst => 4 * k + 4
    case Listing => 4 * k + 3
    case Spawning(next, hand, running, finished, _, _) =>
      (if next <= k then 4 * (k - next) else 0) + 2 * |running| + |finished| + (if hand then 2 else 3)
    case Fetching => 2
    case Ended(_) => 1
    case Joined => 0
  }

  lemma NodeWeightDrops(limits: Limits, free: nat, t: Task, a: Action)
    requires Ready(free, t, a) && TaskInv(limits.perRemote, t) && ByNode(a)
    ensures Weight(t.(phase := PhaseAfter(limits, free, t, a))) < Weight(t)
  {
    if a.SpawnNode? {
      assert t.phase.next !in t.phase.running;
    }
  }

  lemma RemoteWeightDrops(limits: Limits, free: nat, t: Task, a: Action)
    requires Ready(free, t, a) && !ByNode(a)
    ensures Weight(t.(phase := PhaseAfter(limits, free, t, a))) < Weight(t)
  {
  }

  lemma WeightDrops(limits: Limits, free: nat, t: Task, a: Action)
    requires Ready(free, t, a) && TaskInv(limits.perRemote, t)
    ensures Weight(t.(phase := PhaseAfter(limits, free, t, a))) < Weight(t)
  {
    if ByNode(a) {
      NodeWeightDrops(limits, free, t, a);
    } else {
      RemoteWeightDrops(limits, free, t, a);
    }
  }

  /** What is known after any run: the invariant, how many steps were taken, and for which jobs. */
  lemma {:induction false} RunFacts(limits: Limits, jobs: seq<Job>, events: seq<Event>)
    requires After(limits, Init(limits, jobs), events).Some?
    ensures var s := After(limits, Init(limits, jobs), events).value;
            && Inv(limits, s)
            && |events| + Sum(Weight, s.tasks) <= Sum(Weight, Init(limits, jobs).tasks)
            && |s.tasks| == |jobs| && forall i | 0 <= i < |jobs| :: s.tasks[i].job == jobs[i]
    decreases |events|
  {
    if events == [] {
      SumZero(Held, Init(limits, jobs).tasks);
    } else {
      var n := |events| - 1;
      RunFacts(limits, jobs, events[..n]);
      var s := After(limits, Init(limits, jobs), events[..n]).value;
      StepKeepsInv(limits, s, events[n]);
      StepWeighsLess(limits, s, events[n]);
    }
  }

  lemma StepWeighsLess(limits: Limits, s: State, e: Event)
    requires Enabled(s, e) && TaskInv(limits.perRemote, s.tasks[e.task])
    ensures Sum(Weight, Step(limits, s, e).tasks) < Sum(Weight, s.tasks)
  {
    var t := s.tasks[e.task];
    WeightDrops(limits, s.free, t, e.action);
    SumUpdate(Weight, s.tasks, e.task, t.(phase := PhaseAfter(limits, s.free, t, e.action)));
  }

  /** In every reachable state the permits are conserved, no more requests are in flight than
      `maxConnections` allows, and of one remote no more node fetches than its own limit allows. */
  lemma {:induction false} LimitsRespected(limits: Limits, jobs: seq<Job>, events: seq<Event>)
    requires After(limits, Init(limits, jobs), events).Some?
    ensures var s := After(limits, Init(limits, jobs), events).value;
            && s.free + Sum(Held, s.tasks) == limits.total
            && Sum(Outgoing, s.tasks) <= limits.total
            && forall i | 0 <= i < |s.tasks| && s.tasks[i].phase.Spawning? ::
                 s.tasks[i].phase.free + |s.tasks[i].phase.running| == limits.perRemote
  {
    RunFacts(limits, jobs, events);
    var s := After(limits, Init(limits, jobs), events).value;
    SumAtMost(Outgoing, Held, s.tasks);
    forall i | 0 <= i < |s.tasks| && s.tasks[i].phase.Spawning?
      ensures s.tasks[i].phase.free + |s.tasks[i].phase.running| == limits.perRemote
    {
      assert TaskInv(limits.perRemote, s.tasks[i]);
    }
  }

  // ---------------------------------------------------------------------------------------------
  // No deadlock

  ghost predicate Stuck(s: State) {
    forall e :: !Enabled(s, e)
  }

  predicate AllJoined(s: State) {
    forall i | 0 <= i < |s.tasks| :: s.tasks[i].phase.Joined?
  }

  /** A step of one task that needs no global permit, if there is one. */
  ghost function OwnStep(t: Task): Option<Action> {
    match t.phase
    case WaitFirst => None
    case Listing => Some(FinishListing)
    case Fetching => Some(FinishSingle)
    case Ended(_) => Some(JoinRemote)
    case Joined => None
    case Spawning(_, hand, running, finished, _, _) =>
      if running != {} then var k :| k in running; Some(FinishNode(k))
      else if finished != {} && JoiningAt(t) then var k :| k in finished; Some(JoinNode(k))
      else if LoopAt(t) then (if hand then Some(SpawnNode) else None)
      else Some(Return)
  }

  /** A task that holds a global permit can always move on its own: this is why waiting for a
      per-remote permit with a global one in hand cannot block. */
  lemma HolderCanMove(limits: Limits, free: nat, t: Task)
    requires TaskInv(limits.perRemote, t)
    requires limits.perRemote >= 1 || NodeCount(t.job.plan) == 0
    ensures OwnStep(t).Some? ==> Ready(free, t, OwnStep(t).value)
    ensures OwnStep(t).None? ==> Held(t) == 0
    ensures OwnStep(t).None? && !t.phase.Joined? ==>
              Ready(1, t, TakeFirst) || Ready(1, t, TakeGlobal)
  {
    if t.phase.Spawning? {
      assert SpawningInv(limits.perRemote, t.job.plan.nodes, t.phase);
    }
  }

  /** Whether the per-remote limit matters at all. */
  ghost predicate LimitsSuffice(limits: Limits, jobs: seq<Job>) {
    limits.total >= 1 && (limits.perRemote >= 1 || forall i | 0 <= i < |jobs| :: NodeCount(jobs[i].plan) == 0)
  }

  lemma Progress(limits: Limits, jobs: seq<Job>, s: State) returns (e: Event)
    requires Inv(limits, s) && LimitsSuffice(limits, jobs) && !AllJoined(s)
    requires |s.tasks| == |jobs| && forall i | 0 <= i < |jobs| :: s.tasks[i].job == jobs[i]
    ensures Enabled(s, e)
  {
    forall i | 0 <= i < |s.tasks|
      ensures OwnStep(s.tasks[i]).Some? ==> Ready(s.free, s.tasks[i], OwnStep(s.tasks[i]).value)
      ensures OwnStep(s.tasks[i]).None? ==> Held(s.tasks[i]) == 0
    {
      HolderCanMove(limits, s.free, s.tasks[i]);
    }
    if i :| 0 <= i < |s.tasks| && OwnStep(s.tasks[i]).Some? {
      e := Event(i, OwnStep(s.tasks[i]).value);
    } else {
      SumZero(Held, s.tasks);
      var i :| 0 <= i < |s.tasks| && !s.tasks[i].phase.Joined?;
      HolderCanMove(limits, s.free, s.tasks[i]);
      e := Event(i, if Ready(1, s.tasks[i], TakeFirst) then TakeFirst else TakeGlobal);
    }
  }

  /** A run that can go no further has joined everything. */
  ghost predicate StuckOnlyWhenDone(limits: Limits, jobs: seq<Job>, events: seq<Event>) {
    var r := After(limits, Init(limits, jobs), events);
    r.Some? && Stuck(r.value) ==> AllJoined(r.value)
  }

  /** Every run can be continued until no step is left. */
  lemma {:induction false} RunToStuck(limits: Limits, jobs: seq<Job>, events: seq<Event>) returns (all: seq<Event>)
    requires After(limits, Init(limits, jobs), events).Some?
    ensures After(limits, Init(limits, jobs), all).Some? && Stuck(After(limits, Init(limits, jobs), all).value)
    decreases Sum(Weight, After(limits, Init(limits, jobs), events).value.tasks)
  {
    var s := After(limits, Init(limits, jobs), events).value;
    if e :| Enabled(s, e) {
      RunFacts(limits, jobs, events);
      StepWeighsLess(limits, s, e);
      assert (events + [e])[..|events|] == events;
      all := RunToStuck(limits, jobs, events + [e]);
    } else {
      all := events;
    }
  }

  /** Without per-remote permits, a task with nodes to fetch never gets past its first node. */
  ghost predicate NeverSpawned(t: Task) {
    match t.phase
    case WaitFirst => true
    case Listing => true
    case Spawning(next, _, running, finished, _, free) => next == 0 && running == {} && finished == {} && free == 0
    case _ => false
  }

  lemma {:induction false} NoPermitNoNode(limits: Limits, jobs: seq<Job>, events: seq<Event>, i: nat)
    requires limits.perRemote == 0 && i < |jobs| && NodeCount(jobs[i].plan) > 0
    requires After(limits, Init(limits, jobs), events).Some?
    ensures var s := After(limits, Init(limits, jobs), events).value;
            i < |s.tasks| && s.tasks[i].job == jobs[i] && NeverSpawned(s.tasks[i])
    decreases |events|
  {
    if events != [] {
      NoPermitNoNode(limits, jobs, events[..|events| - 1], i);
    }
  }

  /** The fetcher never deadlocks, although tasks wait for a per-remote permit with a global one in
      hand, if and only if the limits are not zero (the per-remote one only matters to remotes with
      nodes). */
  lemma NoDeadlock(limits: Limits, jobs: seq<Job>)
    requires jobs != []
    ensures (forall events :: StuckOnlyWhenDone(limits, jobs, events)) <==> LimitsSuffice(limits, jobs)
  {
    if LimitsSuffice(limits, jobs) {
      forall events ensures StuckOnlyWhenDone(limits, jobs, events) {
        var r := After(limits, Init(limits, jobs), events);
        if r.Some? && !AllJoined(r.value) {
          RunFacts(limits, jobs, events);
          var e := Progress(limits, jobs, r.value);
        }
      }
    } else {
      ZeroLimitDeadlocks(limits, jobs);
    }
  }

  lemma ZeroLimitDeadlocks(limits: Limits, jobs: seq<Job>)
    requires jobs != [] && !LimitsSuffice(limits, jobs)
    ensures exists events :: !StuckOnlyWhenDone(limits, jobs, events)
  {
    if limits.total == 0 {
      var s := Init(limits, jobs);
      assert After(limits, s, []) == Some(s);
      assert Stuck(s);
      assert !s.tasks[0].phase.Joined?;
      assert !StuckOnlyWhenDone(limits, jobs, []);
    } else {
      var i :| 0 <= i < |jobs| && NodeCount(jobs[i].plan) > 0;
      assert After(limits, Init(limits, jobs), []).Some?;
      var all := RunToStuck(limits, jobs, []);
      NoPermitNoNode(limits, jobs, all, i);
      assert !StuckOnlyWhenDone(limits, jobs, all);
    }
  }

  /** One remote and a total limit of zero: nothing can happen, and its task is never joined. */
  lemma OneRemoteDeadlocks(perRemote: nat, job: Job)
    ensures var s := Init(Limits(0, perRemote), [job]);
            After(Limits(0, perRemote), s, []) == Some(s) && Stuck(s) && !AllJoined(s)
  {
    var s := Init(Limits(0, perRemote), [job]);
    assert !s.tasks[0].phase.Joined?;
  }

  // ---------------------------------------------------------------------------------------------
  // What comes back

  /** A finished fetch: every permit is back, and each remote whose task did not panic has exactly one
      response, the one its plan says. */
  ghost predicate Complete(limits: Limits, jobs: seq<Job>, s: State) {
    && s.free == limits.total
    && (forall c | c in s.collected ::
          c.job < |jobs| && c.remote == jobs[c.job].remote && !Lost(jobs[c.job].plan)
            && Fits(jobs[c.job].plan, Some(c.response)))
    && (forall c, d | 0 <= c < d < |s.collected| :: s.collected[c].job != s.collected[d].job)
    && (forall i | 0 <= i < |jobs| && !Lost(jobs[i].plan) :: exists c :: c in s.collected && c.job == i)
  }

  /** Every run is bounded, and if the limits suffice every run that can go no further is complete. */
  lemma {:induction false} EveryRunCompletes(limits: Limits, jobs: seq<Job>, events: seq<Event>)
    requires After(limits, Init(limits, jobs), events).Some?
    ensures |events| <= Sum(Weight, Init(limits, jobs).tasks)
    ensures var s := After(limits, Init(limits, jobs), events).value;
            LimitsSuffice(limits, jobs) && Stuck(s) ==> Complete(limits, jobs, s)
  {
    RunFacts(limits, jobs, events);
    var s := After(limits, Init(limits, jobs), events).value;
    if LimitsSuffice(limits, jobs) && Stuck(s) {
      if !AllJoined(s) {
        var e := Progress(limits, jobs, s);
      }
      SumZero(Held, s.tasks);
      forall i | 0 <= i < |jobs| && !Lost(jobs[i].plan) ensures exists c :: c in s.collected && c.job == i {
        assert s.tasks[i].phase.Joined?;
      }
    }
  }

  // ---------------------------------------------------------------------------------------------
  // What a response holds

  /** Node task `k` yields this response. */
  predicate Yields(nodes: seq<Node>, k: nat, r: NodeResponse)
    requires k < |nodes|
  {
    nodes[k].name == r.node && nodes[k].call == Call.Replies(r.data)
  }

  /** Which of these node tasks yield this response. */
  function Yielding(nodes: seq<Node>, ks: set<nat>, r: NodeResponse): set<nat> {
    set k | k in ks && k < |nodes| && Yields(nodes, k, r)
  }

  lemma YieldingOneMore(nodes: seq<Node>, ks: set<nat>, k: nat, r: NodeResponse)
    requires k !in ks
    ensures |Yielding(nodes, ks + {k}, r)|
            == |Yielding(nodes, ks, r)| + if k < |nodes| && Yields(nodes, k, r) then 1 else 0
  {
    if k < |nodes| && Yields(nodes, k, r) {
      assert Yielding(nodes, ks + {k}, r) == Yielding(nodes, ks, r) + {k};
    } else {
      assert Yielding(nodes, ks + {k}, r) == Yielding(nodes, ks, r);
    }
  }

  /** The elements of a sequence. */
  function Elements(order: seq<nat>): (r: set<nat>)
    ensures forall k :: k in r <==> k in order
  {
    set k | k in order
  }

  lemma ReplyCount(nodes: seq<Node>, k: nat, r: NodeResponse)
    ensures multiset(if k < |nodes| then Reply(nodes[k]) else [])[r]
            == if k < |nodes| && Yields(nodes, k, r) then 1 else 0
  {
  }

  lemma MultisetOfSum<T>(s: seq<T>, t: seq<T>, x: T)
    ensures multiset(s + t)[x] == multiset(s)[x] + multiset(t)[x]
  {
  }

  lemma {:induction false} RepliesCount(nodes: seq<Node>, order: seq<nat>, r: NodeResponse)
    requires NoRepeats(order)
    ensures multiset(Replies(nodes, order))[r] == |Yielding(nodes, Elements(order), r)|
  {
    if order != [] {
      var n := |order| - 1;
      var k, before := order[n], order[..n];
      RepliesCount(nodes, before, r);
      ReplyCount(nodes, k, r);
      MultisetOfSum(Replies(nodes, before), if k < |nodes| then Reply(nodes[k]) else [], r);
      assert order == before + [k];
      assert Elements(order) == Elements(before) + {k};
      YieldingOneMore(nodes, Elements(before), k, r);
    }
  }

  /** The numbers below `n`. */
  function Below(n: nat): (r: set<nat>)
    ensures |r| == n && forall k: nat :: k in r <==> k < n
  {
    if n == 0 then {} else Below(n - 1) + {n - 1}
  }

  /** The outcome for a listed remote holds every response exactly as often as there are nodes of that name
      whose handler gave that result, failed handlers included; only panicked ones are missing. */
  lemma {:induction false} FitsExactly(nodes: seq<Node>, outcome: Response, r: NodeResponse)
    requires Fits(Listed(nodes), Some(outcome))
    ensures outcome.Nodes?
    ensures multiset(outcome.responses)[r]
            == |set k | k in Below(|nodes|) && nodes[k].name == r.node && nodes[k].call == Call.Replies(r.data)|
  {
    var order :| Permutes(order, |nodes|) && outcome.responses == Replies(nodes, order);
    RepliesCount(nodes, order, r);
    assert Elements(order) == Below(|nodes|);
    assert Yielding(nodes, Below(|nodes|), r)
           == set k | k in Below(|nodes|) && nodes[k].name == r.node && nodes[k].call == Call.Replies(r.data);
  }

  /** In a finished fetch, a node that was listed and whose handler returned is in its remote's response
      with what the handler returned, and every node in the response is such a node. */
  lemma CollectedExactly(limits: Limits, jobs: seq<Job>, s: State, c: RemoteResponse, r: NodeResponse)
    requires Complete(limits, jobs, s) && c in s.collected && jobs[c.job].plan.Listed?
    ensures c.response.Nodes?
    ensures var nodes := jobs[c.job].plan.nodes;
            multiset(c.response.responses)[r]
            == |set k | k in Below(|nodes|) && nodes[k].name == r.node && nodes[k].call == Call.Replies(r.data)|
    ensures var nodes := jobs[c.job].plan.nodes;
            r in c.response.responses
            <==> exists k | 0 <= k < |nodes| :: nodes[k].name == r.node && nodes[k].call == Call.Replies(r.data)
  {
    var nodes := jobs[c.job].plan.nodes;
    FitsExactly(nodes, c.response, r);
    var ks := set k | k in Below(|nodes|) && nodes[k].name == r.node && nodes[k].call == Call.Replies(r.data);
    assert r in c.response.responses <==> multiset(c.response.responses)[r] > 0;
    if k :| 0 <= k < |nodes| && nodes[k].name == r.node && nodes[k].call == Call.Replies(r.data) {
      assert k in ks;
      assert |ks| == |ks - {k}| + 1;
    } else {
      assert ks == {};
    }
  }

  /** A response for the i-th remote was collected. */
  ghost predicate CollectedAs(s: State, jobs: seq<Job>, i: nat, response: Response)
    requires i < |jobs|
  {
    RemoteResponse(i, jobs[i].remote, response) in s.collected
  }

  /** What a finished fetch holds for each remote: nothing exactly if its task panicked; the error if its
      nodes could not be listed; the one reply, under the name of the local host, if there is no listing;
      and else the replies of its nodes. */
  lemma OutcomeExactly(limits: Limits, jobs: seq<Job>, s: State, i: nat)
    requires Complete(limits, jobs, s) && i < |jobs|
    ensures match jobs[i].plan
            case ListingPanics => forall c | c in s.collected :: c.job != i
            case Single(Panics) => forall c | c in s.collected :: c.job != i
            case ListingFails(m) => CollectedAs(s, jobs, i, NoNodes(m))
            case Single(Replies(d)) => CollectedAs(s, jobs, i, Nodes([NodeResponse("localhost", d)]))
            case Listed(_) => exists rs :: CollectedAs(s, jobs, i, Nodes(rs))
  {
    if !Lost(jobs[i].plan) {
      var c :| c in s.collected && c.job == i;
      assert c == RemoteResponse(i, jobs[i].remote, c.response);
      if jobs[i].plan.Listed? {
        assert CollectedAs(s, jobs, i, Nodes(c.response.responses));
      }
    }
  }

  // ---------------------------------------------------------------------------------------------
  // The limits are reached

  /** The event leads from one state to the next. */
  predicate Leads(limits: Limits, s: State, e: Event, s': State) {
    Enabled(s, e) && s' == Step(limits, s, e)
  }

  lemma {:induction false} AppendEvent(limits: Limits, s: State, events: seq<Event>, e: Event)
    requires After(limits, s, events).Some? && Enabled(After(limits, s, events).value, e)
    ensures After(limits, s, events + [e]) == Some(Step(limits, After(limits, s, events).value, e))
  {
    assert (events + [e])[..|events|] == events;
  }

  /** A lone remote's task whose node loop has spawned `n` node tasks, all of them still running. */
  function Spawned(limits: Limits, job: Job, n: nat, hand: bool): State
    requires n <= limits.perRemote && n + (if hand then 1 else 0) <= limits.total
  {
    State(limits.total - n - (if hand then 1 else 0),
          [Task(job, Spawning(n, hand, Below(n), {}, [], limits.perRemote - n))], [])
  }

  lemma SpawnedBegins(limits: Limits, job: Job) returns (events: seq<Event>)
    requires job.plan.Listed? && limits.total > 0
    ensures After(limits, Init(limits, [job]), events) == Some(Spawned(limits, job, 0, true))
  {
    var s := Init(limits, [job]);
    assert s.tasks == [Task(job, WaitFirst)] && After(limits, s, []) == Some(s);
    var take, list := Event(0, TakeFirst), Event(0, FinishListing);
    AppendEvent(limits, s, [], take);
    var s1 := Step(limits, s, take);
    assert s1.tasks == [Task(job, Listing)] && s1.collected == [];
    AppendEvent(limits, s, [] + [take], list);
    events := [] + [take] + [list];
    var s2 := Step(limits, s1, list);
    assert Below(0) == {};
    assert s2.tasks == Spawned(limits, job, 0, true).tasks && s2.collected == [];
  }

  lemma SpawnOne(limits: Limits, job: Job, n: nat)
    requires job.plan.Listed? && n < |job.plan.nodes| && n < limits.perRemote && n < limits.total
    ensures Leads(limits, Spawned(limits, job, n, true), Event(0, SpawnNode), Spawned(limits, job, n + 1, false))
  {
    var s, s' := Spawned(limits, job, n, true), Spawned(limits, job, n + 1, false);
    assert s.tasks[0].phase.running + {n} == s'.tasks[0].phase.running;
    assert Step(limits, s, Event(0, SpawnNode)).tasks == s'.tasks;
  }

  lemma TakeOne(limits: Limits, job: Job, n: nat)
    requires job.plan.Listed? && n < |job.plan.nodes| && n <= limits.perRemote && n < limits.total
    ensures Leads(limits, Spawned(limits, job, n, false), Event(0, TakeGlobal), Spawned(limits, job, n, true))
  {
    var s, s' := Spawned(limits, job, n, false), Spawned(limits, job, n, true);
    assert Step(limits, s, Event(0, TakeGlobal)).tasks == s'.tasks;
  }

  lemma {:induction false} SpawnsUpTo(limits: Limits, job: Job, n: nat) returns (events: seq<Event>)
    requires job.plan.Listed? && 0 < n <= |job.plan.nodes| && n <= limits.perRemote && n <= limits.total
    ensures After(limits, Init(limits, [job]), events) == Some(Spawned(limits, job, n, false))
    decreases n
  {
    var s := Init(limits, [job]);
    if n == 1 {
      events := SpawnedBegins(limits, job);
    } else {
      events := SpawnsUpTo(limits, job, n - 1);
      TakeOne(limits, job, n - 1);
      AppendEvent(limits, s, events, Event(0, TakeGlobal));
      events := events + [Event(0, TakeGlobal)];
    }
    SpawnOne(limits, job, n - 1);
    AppendEvent(limits, s, events, Event(0, SpawnNode));
    events := events + [Event(0, SpawnNode)];
  }

  /** The bounds are not only kept but reached: a remote with enough nodes can have as many node fetches
      running at once as both limits allow. */
  lemma NodeLimitReached(limits: Limits, job: Job, n: nat) returns (events: seq<Event>)
    requires job.plan.Listed? && 0 < n <= |job.plan.nodes| && n <= limits.perRemote && n <= limits.total
    ensures var r := After(limits, Init(limits, [job]), events);
            && r.Some? && r.value.tasks[0].phase.Spawning?
            && |r.value.tasks[0].phase.running| == n
  {
    events := SpawnsUpTo(limits, job, n);
  }

  /** The first `n` remotes' tasks have sent their first request. */
  function Begun(limits: Limits, jobs: seq<Job>, n: nat): State
    requires n <= |jobs| && n <= limits.total
  {
    State(limits.total - n,
          seq(|jobs|, i requires 0 <= i < |jobs| =>
            Task(jobs[i], if i >= n then WaitFirst else if jobs[i].plan.Single? then Fetching else Listing)), [])
  }

  lemma BeginOne(limits: Limits, jobs: seq<Job>, n: nat)
    requires n < |jobs| && n < limits.total
    ensures Leads(limits, Begun(limits, jobs, n), Event(n, TakeFirst), Begun(limits, jobs, n + 1))
  {
    var s, s' := Begun(limits, jobs, n), Begun(limits, jobs, n + 1);
    var r := Step(limits, s, Event(n, TakeFirst));
    assert |r.tasks| == |s'.tasks| && forall i | 0 <= i < |jobs| :: r.tasks[i] == s'.tasks[i];
    assert r.tasks == s'.tasks && r.collected == [];
  }

  lemma {:induction false} BegunReached(limits: Limits, jobs: seq<Job>, n: nat) returns (events: seq<Event>)
    requires n <= |jobs| && n <= limits.total
    ensures After(limits, Init(limits, jobs), events) == Some(Begun(limits, jobs, n))
    decreases n
  {
    if n == 0 {
      events := [];
      assert Begun(limits, jobs, 0).tasks == Init(limits, jobs).tasks;
    } else {
      events := BegunReached(limits, jobs, n - 1);
      BeginOne(limits, jobs, n - 1);
      AppendEvent(limits, Init(limits, jobs), events, Event(n - 1, TakeFirst));
      events := events + [Event(n - 1, TakeFirst)];
    }
  }

  lemma {:induction false} BegunOutgoing(tasks: seq<Task>, n: nat)
    requires n <= |tasks|
    requires forall i | 0 <= i < |tasks| :: Outgoing(tasks[i]) == if i < n then 1 else 0
    ensures Sum(Outgoing, tasks) == n
  {
    if n == 0 {
      SumZero(Outgoing, tasks);
    } else {
      BegunOutgoing(tasks[1..], n - 1);
    }
  }

  /** With enough remotes as many requests can be in flight at once as the total limit allows. */
  lemma TotalLimitReached(limits: Limits, jobs: seq<Job>) returns (events: seq<Event>)
    requires |jobs| >= limits.total
    ensures var r := After(limits, Init(limits, jobs), events);
            r.Some? && Sum(Outgoing, r.value.tasks) == limits.total
  {
    events := BegunReached(limits, jobs, limits.total);
    BegunOutgoing(Begun(limits, jobs, limits.total).tasks, limits.total);
  }
}
