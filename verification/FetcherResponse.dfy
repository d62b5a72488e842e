/** The response container of the fetcher: sorted by remote name, searched by binary search. */
module FetcherResponse {
  import opened Basics
  import opened Ordering
  import opened Fetcher

  function RemoteOf(r: RemoteResponse): string { r.remote }

  /** The joined responses, sorted by remote name, whatever order the tasks ended in. */
  function Assemble(collected: seq<RemoteResponse>): seq<RemoteResponse> {
    SortBy(RemoteOf, collected)
  }

  /** Looks up the response of a remote by binary search: it agrees with a linear search on whether
      there is one, and with distinct names on which. */
  method GetRemoteResponse(responses: seq<RemoteResponse>, remote: string) returns (r: Option<RemoteResponse>)
    requires SortedBy(RemoteOf, responses)
    ensures r.Some? <==> Find(RemoteOf, responses, remote).Some?
    ensures r.Some? ==> r.value in responses && r.value.remote == remote
    ensures DistinctKeys(RemoteOf, responses) ==> r == Find(RemoteOf, responses, remote)
  {
    r := BinarySearch(RemoteOf, responses, remote);
    if DistinctKeys(RemoteOf, responses) && r.Some? {
      UniqueMatch(RemoteOf, responses, r.value, Find(RemoteOf, responses, remote).value);
    }
  }

  ghost predicate DistinctRemotes(jobs: seq<Job>) {
    forall i, j | 0 <= i < j < |jobs| :: jobs[i].remote != jobs[j].remote
  }

  lemma AssembledKeysDiffer(limits: Limits, jobs: seq<Job>, s: State)
    requires Complete(limits, jobs, s) && DistinctRemotes(jobs)
    ensures DistinctKeys(RemoteOf, Assemble(s.collected))
  {
    SortByCorrect(RemoteOf, s.collected);
    forall c, d | 0 <= c < d < |s.collected| ensures s.collected[c].remote != s.collected[d].remote {
      assert s.collected[c].job != s.collected[d].job;
    }
    DistinctKeysPermuted(RemoteOf, Assemble(s.collected), s.collected);
  }

  /** The response of a complete fetch is sorted by name and holds the collected responses. If the
      remotes have different names, looking one up gives the answer of that remote's own plan, unless
      its task panicked, and any other name gives nothing. */
  lemma ResponseAnswersPlan(limits: Limits, jobs: seq<Job>, s: State)
    requires Complete(limits, jobs, s)
    ensures var out := Assemble(s.collected);
            && SortedBy(RemoteOf, out) && multiset(out) == multiset(s.collected)
            && (DistinctRemotes(jobs) ==> forall i | 0 <= i < |jobs| ::
                  match Find(RemoteOf, out, jobs[i].remote)
                  case None => Lost(jobs[i].plan)
                  case Some(r) => r.job == i && Fits(jobs[i].plan, Some(r.response)))
            && (forall name | (forall i | 0 <= i < |jobs| :: jobs[i].remote != name) :: Find(RemoteOf, out, name).None?)
  {
    var out := Assemble(s.collected);
    SortByCorrect(RemoteOf, s.collected);
    forall r ensures r in out <==> r in s.collected { PermutedElement(out, s.collected, r); }
    if DistinctRemotes(jobs) {
      forall i | 0 <= i < |jobs|
        ensures match Find(RemoteOf, out, jobs[i].remote)
                case None => Lost(jobs[i].plan)
                case Some(r) => r.job == i && Fits(jobs[i].plan, Some(r.response))
      {
      }
    }
  }

  /** Sorts what a complete fetch collected and looks a remote up in it: there is an answer exactly if a
      task for that name did not panic, and it is the answer of such a task's own plan. With distinct
      names it is the one a linear search finds. */
  method LookUp(ghost limits: Limits, ghost jobs: seq<Job>, ghost s: State, collected: seq<RemoteResponse>,
                name: string)
    returns (r: Option<RemoteResponse>)
    requires Complete(limits, jobs, s) && collected == s.collected
    ensures match r
            case Some(response) =>
              && response.job < |jobs| && jobs[response.job].remote == name
              && Fits(jobs[response.job].plan, Some(response.response))
            case None => forall i | 0 <= i < |jobs| && jobs[i].remote == name :: Lost(jobs[i].plan)
    ensures DistinctRemotes(jobs) ==> r == Find(RemoteOf, Assemble(collected), name)
  {
    var out := Assemble(collected);
    SortByCorrect(RemoteOf, collected);
    r := GetRemoteResponse(out, name);
    if DistinctRemotes(jobs) {
      AssembledKeysDiffer(limits, jobs, s);
    }
    if r.Some? {
      PermutedElement(out, collected, r.value);
    } else {
      forall i | 0 <= i < |jobs| && jobs[i].remote == name ensures Lost(jobs[i].plan) {
        NoAnswerLost(limits, jobs, s, name, i);
      }
    }
  }

  lemma {:induction false} NoAnswerLost(limits: Limits, jobs: seq<Job>, s: State, name: string, i: nat)
    requires Complete(limits, jobs, s) && Find(RemoteOf, Assemble(s.collected), name).None?
    requires i < |jobs| && jobs[i].remote == name
    ensures Lost(jobs[i].plan)
  {
    if !Lost(jobs[i].plan) {
      SortByCorrect(RemoteOf, s.collected);
      var c :| c in s.collected && c.job == i;
      PermutedElement(Assemble(s.collected), s.collected, c);
    }
  }
}
