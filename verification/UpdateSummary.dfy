/** The cached summary of available updates of server/src/remote_updates.rs: the update of one node,
    and the pass that reconciles the cache with a finished fetch. */
module UpdateSummary {
  import opened Basics
  import Cache = NamespacedCache

  datatype NodeStatus = NodeSuccess | NodeError

  datatype RemoteStatus = Success | Error | Unknown

  datatype RepositoryStatus =
    | Good
    | NonProductionReady
    | MissingSubscriptionForEnterprise
    | NoProductRepository
    | RepositoryError

  datatype PackageVersion = PackageVersion(package: string, version: string)

  datatype NodeSummary = NodeSummary(
    numberOfUpdates: nat,
    lastRefresh: int,
    status: NodeStatus,
    message: Option<string>,
    versions: seq<PackageVersion>,
    repository: RepositoryStatus)

  datatype RemoteSummary = RemoteSummary(
    nodes: map<string, NodeSummary>,
    remoteType: RemoteType,
    status: RemoteStatus,
    message: Option<string>)

  type Summary = map<string, RemoteSummary>

  /** What was fetched from a node. */
  datatype NodeInfo = NodeInfo(
    updates: seq<string>,
    lastRefresh: int,
    versions: seq<PackageVersion>,
    repository: RepositoryStatus)

  datatype NodeData = Fetched(info: NodeInfo) | NodeFailed(message: string)

  datatype NodeResponse = NodeResponse(node: string, data: NodeData)

  datatype Nodes = Listed(responses: seq<NodeResponse>) | NotListed(message: string)

  datatype RemoteResponse = RemoteResponse(remote: string, remoteType: RemoteType, nodes: Nodes)

  const KEY := "remote-updates"

  const U32 := 0x1_0000_0000

  /** The summary of one node. The number of updates is truncated to 32 bits. */
  function Summarize(data: NodeData): NodeSummary {
    match data
    case Fetched(info) =>
      NodeSummary(|info.updates| % U32, info.lastRefresh, NodeSuccess, None, info.versions, info.repository)
    case NodeFailed(message) =>
      NodeSummary(0, 0, NodeError, Some(message), [], RepositoryError)
  }

  function EmptyEntry(remoteType: RemoteType): RemoteSummary {
    RemoteSummary(map[], remoteType, Success, None)
  }

  /** The entry of a remote, created if there is none. */
  function EntryOf(content: Summary, remote: string, remoteType: RemoteType): RemoteSummary {
    if remote in content then content[remote] else EmptyEntry(remoteType)
  }

  /** The content with one node's summary set. */
  function WithNode(content: Summary, remote: string, remoteType: RemoteType, node: string,
                    data: NodeSummary): Summary {
    var entry := EntryOf(content, remote, remoteType);
    content[remote := entry.(nodes := entry.nodes[node := data])]
  }

  /** The summary of a node in a cached content. */
  function NodeOf(content: Summary, remote: string, node: string): Option<NodeSummary> {
    if remote in content && node in content[remote].nodes then Some(content[remote].nodes[node]) else None
  }

  // ---------------------------------------------------------------------------------------------
  // What a fetch response says, read off without regard to any cache

  predicate Answers(responses: seq<NodeResponse>, node: string) {
    exists i | 0 <= i < |responses| :: responses[i].node == node
  }

  /** The last answer of a node. */
  function LastAnswer(responses: seq<NodeResponse>, node: string): NodeData
    requires Answers(responses, node)
  {
    var n := |responses| - 1;
    if responses[n].node == node then responses[n].data else LastAnswer(responses[..n], node)
  }

  ghost predicate NodesFit(responses: seq<NodeResponse>, nodes: map<string, NodeSummary>) {
    forall node ::
      && (node in nodes <==> Answers(responses, node))
      && (node in nodes ==> nodes[node] == Summarize(LastAnswer(responses, node)))
  }

  /** The entry shows exactly what the response says about its remote. */
  ghost predicate Shows(entry: RemoteSummary, response: RemoteResponse) {
    match response.nodes
    case Listed(responses) => entry.status == Success && entry.message == None && NodesFit(responses, entry.nodes)
    case NotListed(message) => entry.status == Error && entry.message == Some(message) && entry.nodes == map[]
  }

  predicate Covers(response: seq<RemoteResponse>, remote: string) {
    exists i | 0 <= i < |response| :: response[i].remote == remote
  }

  function FirstResponse(response: seq<RemoteResponse>, remote: string): RemoteResponse
    requires Covers(response, remote)
  {
    if response[0].remote == remote then response[0] else FirstResponse(response[1..], remote)
  }

  function LastResponse(response: seq<RemoteResponse>, remote: string): RemoteResponse
    requires Covers(response, remote)
  {
    var n := |response| - 1;
    if response[n].remote == remote then response[n] else LastResponse(response[..n], remote)
  }

  /** The type kept for a remote: that of an existing entry, else that of its first response. */
  function TypeFor(response: seq<RemoteResponse>, content: Summary, remote: string): RemoteType
    requires Covers(response, remote)
  {
    if remote in content then content[remote].remoteType else FirstResponse(response, remote).remoteType
  }

  /** What the final pass has to make of one remote. */
  ghost predicate ReconciledAt(response: seq<RemoteResponse>, content: Summary, out: Summary, remote: string) {
    && (remote in out <==> Covers(response, remote))
    && (remote in out ==>
          && Shows(out[remote], LastResponse(response, remote))
          && out[remote].remoteType == TypeFor(response, content, remote))
  }

  ghost predicate Reconciled(response: seq<RemoteResponse>, content: Summary, out: Summary) {
    forall remote :: ReconciledAt(response, content, out, remote)
  }

  // ---------------------------------------------------------------------------------------------
  // The loops

  /** Drops the nodes that did not answer and sets those that did. */
  method ReconcileNodes(cached: map<string, NodeSummary>, responses: seq<NodeResponse>) returns (nodes: map<string,
                        NodeSummary>)
    ensures NodesFit(responses, nodes)
  {
    nodes := map node | node in cached && Answers(responses, node) :: cached[node];
    for i := 0 to |responses|
      invariant forall node | node in nodes :: Answers(responses, node)
      invariant forall node | Answers(responses[..i], node) ::
                  node in nodes && nodes[node] == Summarize(LastAnswer(responses[..i], node))
    {
      nodes := nodes[responses[i].node := Summarize(responses[i].data)];
      assert responses[..i + 1][..i] == responses[..i];
      assert forall node | Answers(responses[..i + 1], node)
             && node != responses[i].node :: Answers(responses[..i], node);
    }
    assert responses[..|responses|] == responses;
  }

  /** The effect of one remote's response on its entry. */
  method ReconcileRemote(cached: RemoteSummary, response: RemoteResponse) returns (entry: RemoteSummary)
    ensures Shows(entry, response) && entry.remoteType == cached.remoteType
  {
    match response.nodes {
      case Listed(responses) =>
        var nodes := ReconcileNodes(cached.nodes, responses);
        entry := RemoteSummary(nodes, cached.remoteType, Success, None);
      case NotListed(message) =>
        entry := RemoteSummary(map[], cached.remoteType, Error, Some(message));
    }
  }

  /** The state of one remote after the first `i` responses: reconciled with them if they cover it,
      else as cached or dropped. */
  ghost predicate SoFar(response: seq<RemoteResponse>, i: nat, content: Summary, out: Summary, remote: string)
    requires i <= |response|
  {
    if Covers(response[..i], remote) then
      && remote in out
      && Shows(out[remote], LastResponse(response[..i], remote))
      && out[remote].remoteType == TypeFor(response[..i], content, remote)
    else
      && (remote in out <==> remote in content && Covers(response, remote))
      && (remote in out ==> out[remote] == content[remote])
  }

  /** The final pass over a cached content. */
  method Reconcile(response: seq<RemoteResponse>, content: Summary) returns (out: Summary)
    ensures Reconciled(response, content, out)
  {
    out := map remote | remote in content && Covers(response, remote) :: content[remote];
    for i := 0 to |response|
      invariant forall remote :: SoFar(response, i, content, out, remote)
    {
      ghost var before := out;
      var remote := response[i].remote;
      assert SoFar(response, i, content, out, remote);
      var entry := ReconcileRemote(EntryOf(out, remote, response[i].remoteType), response[i]);
      out := out[remote := entry];
      ghost var next := i + 1;
      forall name ensures SoFar(response, next, content, out, name) {
        assert SoFar(response, i, content, before, name);
        if name == remote {
          CoverThis(response, i);
        } else {
          CoverOther(response, i, name);
        }
      }
    }
    assert response[..|response|] == response;
    forall name ensures ReconciledAt(response, content, out, name) {
      assert SoFar(response, |response|, content, out, name);
    }
  }

  lemma CoverThis(response: seq<RemoteResponse>, i: nat)
    requires i < |response|
    ensures var (before, after, remote) := (response[..i], response[..i + 1], response[i].remote);
            && Covers(after, remote) && Covers(response, remote)
            && LastResponse(after, remote) == response[i]
            && FirstResponse(after, remote) == if Covers(before, remote) then FirstResponse(before, remote)
              else response[i]
  {
    var before, after := response[..i], response[..i + 1];
    assert before + [response[i]] == after;
    assert after[i] == response[i];
    if Covers(before, response[i].remote) {
      FirstStays(before, response[i], response[i].remote);
    } else {
      FirstNew(before, response[i]);
    }
  }

  lemma CoverOther(response: seq<RemoteResponse>, i: nat, remote: string)
    requires i < |response| && response[i].remote != remote
    ensures var (before, after) := (response[..i], response[..i + 1]);
            && (Covers(after, remote) <==> Covers(before, remote))
            && (Covers(before, remote) ==>
                  && LastResponse(after, remote) == LastResponse(before, remote)
                  && FirstResponse(after, remote) == FirstResponse(before, remote))
  {
    var before, after := response[..i], response[..i + 1];
    assert before + [response[i]] == after;
    assert after[..i] == before;
    if Covers(before, remote) {
      FirstStays(before, response[i], remote);
    }
  }

  lemma {:induction false} FirstStays(before: seq<RemoteResponse>, r: RemoteResponse, remote: string)
    requires Covers(before, remote)
    ensures Covers(before + [r], remote)
    ensures FirstResponse(before + [r], remote) == FirstResponse(before, remote)
  {
    var i :| 0 <= i < |before| && before[i].remote == remote;
    assert (before + [r])[i] == before[i];
    if before[0].remote != remote {
      assert before[1..][i - 1] == before[i];
      FirstStays(before[1..], r, remote);
      assert (before + [r])[1..] == before[1..] + [r];
    }
  }

  lemma {:induction false} FirstNew(before: seq<RemoteResponse>, r: RemoteResponse)
    requires !Covers(before, r.remote)
    ensures Covers(before + [r], r.remote)
    ensures FirstResponse(before + [r], r.remote) == r
  {
    assert (before + [r])[|before|] == r;
    if before != [] {
      assert before[0].remote != r.remote;
      assert forall j | 0 <= j < |before[1..]| :: before[1..][j] == before[j + 1];
      FirstNew(before[1..], r);
      assert (before + [r])[1..] == before[1..] + [r];
    }
  }

  // ---------------------------------------------------------------------------------------------
  // What the pass guarantees

  /** The reconciled content as a function. */
  function Target(response: seq<RemoteResponse>, content: Summary): Summary {
    map remote | remote in RemoteNames(response) && Covers(response, remote) ::
      EntryFor(LastResponse(response, remote), TypeFor(response, content, remote))
  }

  function RemoteNames(response: seq<RemoteResponse>): set<string> {
    set i | 0 <= i < |response| :: response[i].remote
  }

  function NodeNames(responses: seq<NodeResponse>): set<string> {
    set i | 0 <= i < |responses| :: responses[i].node
  }

  function EntryFor(response: RemoteResponse, remoteType: RemoteType): RemoteSummary {
    match response.nodes
    case Listed(responses) =>
      RemoteSummary(
        map node | node in NodeNames(responses) && Answers(responses, node) :: Summarize(LastAnswer(responses, node)),
        remoteType, Success, None)
    case NotListed(message) => RemoteSummary(map[], remoteType, Error, Some(message))
  }

  lemma EntryIsUnique(entry: RemoteSummary, response: RemoteResponse)
    ensures Shows(entry, response) <==> entry == EntryFor(response, entry.remoteType)
  {
    if response.nodes.Listed? {
      var responses := response.nodes.responses;
      assert forall node :: Answers(responses, node) <==> node in NodeNames(responses);
      var nodes := EntryFor(response, entry.remoteType).nodes;
      if NodesFit(responses, entry.nodes) {
        assert entry.nodes == nodes;
      }
    }
  }

  /** There is exactly one reconciled content. */
  lemma ReconciledIsTarget(response: seq<RemoteResponse>, content: Summary, out: Summary)
    ensures Reconciled(response, content, out) <==> out == Target(response, content)
  {
    var target := Target(response, content);
    assert forall remote :: Covers(response, remote) <==> remote in RemoteNames(response);
    forall remote ensures ReconciledAt(response, content, target, remote) {
      if remote in target {
        EntryIsUnique(target[remote], LastResponse(response, remote));
      }
    }
    if Reconciled(response, content, out) {
      forall remote ensures remote in out <==> remote in target {
        assert ReconciledAt(response, content, out, remote);
      }
      forall remote | remote in out ensures out[remote] == target[remote] {
        assert ReconciledAt(response, content, out, remote);
        EntryIsUnique(out[remote], LastResponse(response, remote));
      }
      assert out == target;
    }
  }

  /** The same remotes, nodes, node summaries and statuses. */
  ghost predicate SameView(a: Summary, b: Summary) {
    && a.Keys == b.Keys
    && forall remote | remote in a :: a[remote].(remoteType := Pve) == b[remote].(remoteType := Pve)
  }

  /** The type cached for every remote of the response is the type in the response. */
  ghost predicate TypesFit(response: seq<RemoteResponse>, content: Summary) {
    forall remote | remote in content && Covers(response, remote) ::
      content[remote].remoteType == FirstResponse(response, remote).remoteType
  }

  /** Apart from the types of the remotes, the response alone determines the outcome; the types are
      those of the response exactly when no cached type differs from it. */
  lemma ResponseDetermines(response: seq<RemoteResponse>, content: Summary)
    ensures SameView(Target(response, content), Target(response, map[]))
    ensures Target(response, content) == Target(response, map[]) <==> TypesFit(response, content)
  {
    var out, blank := Target(response, content), Target(response, map[]);
    assert forall remote :: Covers(response, remote) <==> remote in RemoteNames(response);
    if out == blank {
      forall remote | remote in content && Covers(response, remote)
        ensures content[remote].remoteType == FirstResponse(response, remote).remoteType
      {
        assert remote in out && out[remote].remoteType == blank[remote].remoteType;
      }
    }
  }

  /** A cached type that differs from the response's stays in the cache. */
  lemma TypeStaysStale()
    ensures var response := [RemoteResponse("a", Pbs, Listed([]))];
            var content := map["a" := EmptyEntry(Pve)];
            "a" in Target(response, content) && Target(response, content)["a"].remoteType == Pve
  {
    var response := [RemoteResponse("a", Pbs, Listed([]))];
    assert response[0].remote == "a";
  }

  /** Running the pass again changes nothing. */
  lemma RerunChangesNothing(response: seq<RemoteResponse>, content: Summary)
    ensures Target(response, Target(response, content)) == Target(response, content)
  {
    assert forall remote :: Covers(response, remote) <==> remote in RemoteNames(response);
  }

  /** No order of node writes before the pass shows in its outcome. */
  lemma EarlierWriteDoesNotShow(
    response: seq<RemoteResponse>, content: Summary, remote: string, remoteType: RemoteType, node: string,
      data: NodeSummary)
    ensures SameView(Target(response, WithNode(content, remote, remoteType, node, data)), Target(response, content))
  {
    ResponseDetermines(response, content);
    ResponseDetermines(response, WithNode(content, remote, remoteType, node, data));
  }

  // ---------------------------------------------------------------------------------------------
  // What the outcome shows, in terms of the response

  /** Entry `i` is the last one of the response about this remote. */
  ghost predicate LastOf(response: seq<RemoteResponse>, remote: string, i: nat) {
    i < |response| && response[i].remote == remote && forall j | i < j < |response| :: response[j].remote != remote
  }

  ghost predicate LastOfNode(responses: seq<NodeResponse>, node: string, i: nat) {
    i < |responses| && responses[i].node == node && forall j | i < j < |responses| :: responses[j].node != node
  }

  lemma {:induction false} LastResponseAt(response: seq<RemoteResponse>, remote: string, i: nat)
    requires LastOf(response, remote, i)
    ensures Covers(response, remote) && LastResponse(response, remote) == response[i]
  {
    var n := |response| - 1;
    if i < n {
      assert response[..n][i] == response[i];
      LastResponseAt(response[..n], remote, i);
    }
  }

  lemma {:induction false} LastAnswerAt(responses: seq<NodeResponse>, node: string, i: nat)
    requires LastOfNode(responses, node, i)
    ensures Answers(responses, node) && LastAnswer(responses, node) == responses[i].data
  {
    var n := |responses| - 1;
    if i < n {
      assert responses[..n][i] == responses[i];
      LastAnswerAt(responses[..n], node, i);
    }
  }

  lemma {:induction false} FirstResponseAt(response: seq<RemoteResponse>, remote: string, i: nat)
    requires i < |response| && response[i].remote == remote && forall j | 0 <= j < i :: response[j].remote != remote
    ensures Covers(response, remote) && FirstResponse(response, remote) == response[i]
  {
    if i > 0 {
      assert response[1..][i - 1] == response[i];
      FirstResponseAt(response[1..], remote, i - 1);
    }
  }

  lemma TargetEntry(response: seq<RemoteResponse>, content: Summary, remote: string, i: nat)
    requires LastOf(response, remote, i)
    ensures remote in Target(response, content)
    ensures Target(response, content)[remote] == EntryFor(response[i], Target(response, content)[remote].remoteType)
  {
    LastResponseAt(response, remote, i);
    assert response[i].remote in RemoteNames(response);
  }

  /** What the pass shows of a remote whose nodes could not be listed. */
  lemma FailedRemoteShown(response: seq<RemoteResponse>, content: Summary, remote: string, i: nat)
    requires LastOf(response, remote, i) && response[i].nodes.NotListed?
    ensures remote in Target(response, content)
    ensures var entry := Target(response, content)[remote];
            entry.status == Error && entry.message == Some(response[i].nodes.message) && entry.nodes == map[]
  {
    TargetEntry(response, content, remote, i);
  }

  /** What it shows of a node: after a fetch the number of updates, as a 32-bit number, the refresh time,
      the versions and the repository status of its last answer, as a success without a message; after a
      failure nothing of these, and the error. */
  lemma NodeShown(response: seq<RemoteResponse>, content: Summary, remote: string, i: nat, node: string, k: nat)
    requires LastOf(response, remote, i) && response[i].nodes.Listed?
             && LastOfNode(response[i].nodes.responses, node, k)
    ensures remote in Target(response, content) && node in Target(response, content)[remote].nodes
    ensures var entry := Target(response, content)[remote];
            entry.status == Success && entry.message == None
    ensures var shown := Target(response, content)[remote].nodes[node];
            match response[i].nodes.responses[k].data
            case Fetched(info) =>
              && shown.status == NodeSuccess && shown.message == None
              && shown.lastRefresh == info.lastRefresh && shown.versions == info.versions
              && shown.repository == info.repository
              && shown.numberOfUpdates == |info.updates| % 0x1_0000_0000
              && (|info.updates| < 0x1_0000_0000 ==> shown.numberOfUpdates == |info.updates|)
            case NodeFailed(message) =>
              && shown.status == NodeError && shown.message == Some(message)
              && shown.numberOfUpdates == 0 && shown.versions == [] && shown.lastRefresh == 0
              && shown.repository == RepositoryError
  {
    TargetEntry(response, content, remote, i);
    LastAnswerAt(response[i].nodes.responses, node, k);
    assert response[i].nodes.responses[k].node in NodeNames(response[i].nodes.responses);
  }

  /** Nothing else is shown: no other remote, and no node that did not answer. */
  lemma NothingElseShown(response: seq<RemoteResponse>, content: Summary, remote: string, node: string)
    ensures remote in Target(response, content) <==> exists i | 0 <= i < |response| :: response[i].remote == remote
    ensures remote in Target(response, content) && node in Target(response, content)[remote].nodes ==>
              exists i | 0 <= i < |response| ::
                && response[i].remote == remote && response[i].nodes.Listed?
                && exists k | 0 <= k < |response[i].nodes.responses| :: response[i].nodes.responses[k].node == node
  {
    if remote in Target(response, content) {
      var i := LastIndex(response, remote);
      LastResponseAt(response, remote, i);
    }
  }

  lemma {:induction false} LastIndex(response: seq<RemoteResponse>, remote: string) returns (i: nat)
    requires Covers(response, remote)
    ensures LastOf(response, remote, i)
  {
    var n := |response| - 1;
    if response[n].remote == remote {
      i := n;
    } else {
      i := LastIndex(response[..n], remote);
    }
  }

  /** The type of a remote that was cached before stays; that of a new one is that of its first entry. */
  lemma TypeShown(response: seq<RemoteResponse>, content: Summary, remote: string, i: nat)
    requires i < |response| && response[i].remote == remote && forall j | 0 <= j < i :: response[j].remote != remote
    ensures remote in Target(response, content)
    ensures Target(response, content)[remote].remoteType
            == if remote in content then content[remote].remoteType else response[i].remoteType
  {
    FirstResponseAt(response, remote, i);
    assert response[i].remote in RemoteNames(response);
  }

  /** This node is set and nothing else: an existing entry keeps its status, message, type and other nodes,
      a new one is a success without a message, and all other remotes stay. */
  ghost predicate OnlyNodeSet(content: Summary, out: Summary, remote: string, remoteType: RemoteType, node: string,
                              data: NodeSummary)
  {
    && out.Keys == content.Keys + {remote}
    && (forall other | other in content && other != remote :: out[other] == content[other])
    && (remote in content ==>
          && out[remote].status == content[remote].status && out[remote].message == content[remote].message
          && out[remote].remoteType == content[remote].remoteType
          && out[remote].nodes == content[remote].nodes[node := data])
    && (remote !in content ==>
          && out[remote].status == Success && out[remote].message == None
          && out[remote].remoteType == remoteType && out[remote].nodes == map[node := data])
  }

  lemma WithNodeSets(content: Summary, remote: string, remoteType: RemoteType, node: string, data: NodeSummary)
    ensures OnlyNodeSet(content, WithNode(content, remote, remoteType, node, data), remote, remoteType, node, data)
  {
  }

  // ---------------------------------------------------------------------------------------------
  // The cached summary

  /** What a writer starts from: nothing when there is no readable entry. */
  function SummaryOrDefault(entry: Option<Cache.File<Summary>>, fails: bool): Summary {
    if fails || entry.None? || entry.value.Corrupt? then map[] else entry.value.value
  }

  method GetSummaryOrDefault(cache: Cache.Namespace<Summary>, fails: bool) returns (content: Summary)
    ensures content == SummaryOrDefault(cache.At(KEY), fails)
  {
    assert SafeId(KEY);
    var r := cache.Get(KEY, None, 0, Cache.Faults(fails, false));
    content := if r.Ok? && r.value.Some? then r.value.value else map[];
  }

  /** Sets the summary of one node in the cache. */
  method UpdateNode(cache: Cache.Namespace<Summary>, remote: string, remoteType: RemoteType,
                    node: string, data: NodeSummary, now: int, faults: Cache.Faults)
    returns (r: Result<(), Cache.CacheError>)
    modifies cache`files
    ensures r.Ok? <==> !faults.write
    ensures r.Err? ==> cache.files == old(cache.files)
    ensures r.Ok? ==>
              var content := SummaryOrDefault(old(cache.At(KEY)), faults.read);
              cache.files == old(cache.files)[
                Cache.EntryPath(cache.base, cache.name, KEY)
                  := Cache.Stored(now, WithNode(content, remote, remoteType, node, data))]
    ensures r.Ok? ==>
              && cache.At(KEY).Some? && cache.At(KEY).value.Stored?
              && var content := SummaryOrDefault(old(cache.At(KEY)), faults.read);
                 OnlyNodeSet(content, cache.At(KEY).value.value, remote, remoteType, node, data)
    ensures r.Ok? && (faults.read || old(cache.At(KEY)) in {None, Some(Cache.Corrupt)}) ==>
              cache.At(KEY)
              == Some(Cache.Stored(now, map[remote := RemoteSummary(map[node := data], remoteType, Success, None)]))
  {
    assert SafeId(KEY);
    var content := GetSummaryOrDefault(cache, faults.read);
    WithNodeSets(content, remote, remoteType, node, data);
    var entry := EntryOf(content, remote, remoteType);
    entry := entry.(nodes := entry.nodes[node := data]);
    content := content[remote := entry];
    r := cache.Set(KEY, content, now, faults);
  }

  /** The end of a refresh: reconciles the cache with the response of the fetch. */
  method FinishRefresh(cache: Cache.Namespace<Summary>, response: seq<RemoteResponse>, now: int, faults: Cache.Faults)
    returns (r: Result<(), Cache.CacheError>)
    modifies cache`files
    ensures r.Ok? <==> !faults.write
    ensures r.Err? ==> cache.files == old(cache.files)
    ensures r.Ok? ==>
              var content := SummaryOrDefault(old(cache.At(KEY)), faults.read);
              cache.files == old(cache.files)[
                Cache.EntryPath(cache.base, cache.name, KEY) := Cache.Stored(now, Target(response, content))]
  {
    assert SafeId(KEY);
    var content := GetSummaryOrDefault(cache, faults.read);
    var out := Reconcile(response, content);
    ReconciledIsTarget(response, content, out);
    r := cache.Set(KEY, out, now, faults);
  }
}
