/** The cache of PVE clients of server/src/connection.rs: looked up by remote id, kept only for an
    unchanged remote config, cleaned out when unused. */
module ConnectionCache {
  import opened Basics

  datatype NodeUrl = NodeUrl(hostname: string, fingerprint: Option<string>)

  datatype Remote = Remote(
    remoteType: RemoteType,
    id: string,
    nodes: seq<NodeUrl>,
    authid: string,
    token: string,
    webUrl: Option<string>)

  /** A cached client, known by the number of the connection it was built by. */
  datatype ClientEntry = ClientEntry(lastUsed: int, client: nat, remote: Remote)

  /** The connection could not be made. */
  datatype ConnectError = ConnectError

  const STALE_TIMEOUT := 30

  class ConnectionCache {
    var clients: map<string, ClientEntry>

    /** The config that each client was built from, in the order they were built. */
    ghost var builtFrom: seq<Remote>
    var built: nat

    /** Every cached client was built from the config that is cached with it, under that config's id. */
    ghost predicate Valid()
      reads this
    {
      && built == |builtFrom|
      && forall id | id in clients ::
           && clients[id].remote.id == id
           && clients[id].client < built && builtFrom[clients[id].client] == clients[id].remote
    }

    constructor ()
      ensures Valid() && clients == map[] && builtFrom == []
    {
      clients, builtFrom, built := map[], [], 0;
    }

    /** Drops the clients not used for longer than the timeout, and no others. */
    method CleanupCycle(now: int)
      requires Valid()
      modifies this`clients
      ensures Valid()
      ensures forall id :: id in clients <==> id in old(clients) && old(clients)[id].lastUsed >= now - 30
      ensures forall id | id in clients :: clients[id] == old(clients)[id]
    {
      var oldestTime := now - STALE_TIMEOUT;
      clients := map id | id in clients && clients[id].lastUsed >= oldestTime :: clients[id];
    }

    /** A client built from a config equal to the one asked for: the cached one if there is such, else a
        new one. An outdated client is replaced, but stays cached if the new connection fails. */
    method MakeClient(remote: Remote, now: int, fails: bool) returns (r: Result<nat, ConnectError>)
      requires Valid()
      modifies this
      ensures Valid()
      ensures old(builtFrom) <= builtFrom
      ensures r.Ok? ==> r.value < |builtFrom| && builtFrom[r.value] == remote
      ensures r.Ok? ==> clients == old(clients)[remote.id := ClientEntry(now, r.value, remote)]
      ensures r.Err? ==> clients == old(clients) && builtFrom == old(builtFrom)
      ensures var cached := remote.id in old(clients) && old(clients)[remote.id].remote == remote;
              && (cached ==> r == Ok(old(clients)[remote.id].client) && builtFrom == old(builtFrom))
              && (!cached ==> (r.Err? <==> fails || remote.nodes == []))
              && (!cached && r.Ok? ==> builtFrom == old(builtFrom) + [remote])
    {
      if remote.id in clients {
        var entry := clients[remote.id];
        if entry.remote == remote {
          clients := clients[remote.id := entry.(lastUsed := now)];
          return Ok(entry.client);
        }
      }
      if fails || remote.nodes == [] {
        return Err(ConnectError);
      }
      var client := built;
      builtFrom, built := builtFrom + [remote], built + 1;
      clients := clients[remote.id := ClientEntry(now, client, remote)];
      r := Ok(client);
    }
  }
}
