/** Task ids that name their remote, of lib/pdm-api-types/src/remote_upid.rs, and the command line's
    way of reading them (cli/client/src/upid.rs). */
module RemoteUpid {
  import opened Basics

  datatype RemoteUpid = RemoteUpid(remote: string, remoteType: RemoteType, upid: string)

  datatype Error =
    | MissingSeparator
    | BadRemote
    | BadType
    | InvalidUpid
    | OtherRemote
    | WithoutRemote

  /** Which strings are task ids of a PVE node and of a backup server. */
  datatype Grammar = Grammar(pve: string -> bool, pbs: string -> bool)

  function TypeName(remoteType: RemoteType): string {
    match remoteType case Pve => "pve" case Pbs => "pbs"
  }

  function ParseType(name: string): Option<RemoteType> {
    if name == "pve" then Some(Pve) else if name == "pbs" then Some(Pbs) else None
  }

  function DeduceType(g: Grammar, upid: string): Option<RemoteType> {
    if g.pve(upid) then Some(Pve) else if g.pbs(upid) then Some(Pbs) else None
  }

  /** The parts before and after the first occurrence of a separator. */
  function SplitOnce(s: string, c: char): (r: Option<(string, string)>)
    ensures r.None? <==> c !in s
    ensures r.Some? ==> s == r.value.0 + [c] + r.value.1 && c !in r.value.0
  {
    if s == [] then None
    else if s[0] == c then assert s == [] + [c] + s[1..]; Some(([], s[1..]))
    else
      match SplitOnce(s[1..], c)
      case None => None
      case Some((a, b)) => assert s == [s[0]] + a + [c] + b; Some(([s[0]] + a, b))
  }

  function FromParts(g: Grammar, remote: string, upid: string): Result<RemoteUpid, Error> {
    if !SafeId(remote) then Err(BadRemote)
    else match DeduceType(g, upid)
      case None => Err(InvalidUpid)
      case Some(remoteType) => Ok(RemoteUpid(remote, remoteType, upid))
  }

  function FromTypedParts(name: string, remote: string, upid: string): Result<RemoteUpid, Error> {
    if !SafeId(remote) then Err(BadRemote)
    else match ParseType(name)
      case None => Err(BadType)
      case Some(remoteType) => Ok(RemoteUpid(remote, remoteType, upid))
  }

  function Parse(g: Grammar, s: string): Result<RemoteUpid, Error> {
    match SplitOnce(s, '!')
    case None => Err(MissingSeparator)
    case Some((prefix, upid)) =>
      match SplitOnce(prefix, ':')
      case Some((name, remote)) => FromTypedParts(name, remote, upid)
      case None => FromParts(g, prefix, upid)
  }

  function Print(u: RemoteUpid): string {
    TypeName(u.remoteType) + ":" + u.remote + "!" + u.upid
  }

  /** The older form, without the type. */
  function PrintUntyped(u: RemoteUpid): string {
    u.remote + "!" + u.upid
  }

  /** Splitting at a separator that the first part lacks gives back the parts. */
  lemma {:induction false} SplitJoined(a: string, c: char, b: string)
    requires c !in a
    ensures SplitOnce(a + [c] + b, c) == Some((a, b))
  {
    var s := a + [c] + b;
    assert s[|a|] == c;
    var (a', b') := SplitOnce(s, c).value;
    FirstSeparator(c, a, b, a', b');
  }

  lemma ParseTyped(g: Grammar, name: string, remote: string, upid: string)
    requires ':' !in name && '!' !in name && '!' !in remote
    ensures Parse(g, name + ":" + remote + "!" + upid) == FromTypedParts(name, remote, upid)
  {
    SplitJoined(name + [':'] + remote, '!', upid);
    SplitJoined(name, ':', remote);
  }

  lemma ParseUntyped(g: Grammar, remote: string, upid: string)
    requires ':' !in remote && '!' !in remote
    ensures Parse(g, remote + "!" + upid) == FromParts(g, remote, upid)
  {
    SplitJoined(remote, '!', upid);
  }

  lemma TypeNameRead(remoteType: RemoteType)
    ensures var name := TypeName(remoteType);
            ParseType(name) == Some(remoteType) && ':' !in name && '!' !in name
  {
  }

  lemma TypedRead(g: Grammar, name: string, u: RemoteUpid)
    requires SafeId(u.remote) && ParseType(name) == Some(u.remoteType) && ':' !in name && '!' !in name
    ensures Parse(g, name + ":" + u.remote + "!" + u.upid) == Ok(u)
  {
    ParseTyped(g, name, u.remote, u.upid);
  }

  /** Printing and parsing gives back the task, whatever its own id contains. */
  lemma RoundTrip(g: Grammar, u: RemoteUpid)
    requires SafeId(u.remote)
    ensures Parse(g, Print(u)) == Ok(u)
  {
    TypeNameRead(u.remoteType);
    TypedRead(g, TypeName(u.remoteType), u);
  }

  /** The older form is read if the type can be told from the task id itself. */
  lemma UntypedRead(g: Grammar, u: RemoteUpid)
    requires SafeId(u.remote) && DeduceType(g, u.upid) == Some(u.remoteType)
    ensures Parse(g, PrintUntyped(u)) == Ok(u)
  {
    assert '!' !in u.remote && ':' !in u.remote;
    ParseUntyped(g, u.remote, u.upid);
  }

  /** What is read was in one of the two forms. */
  lemma ReadForms(g: Grammar, s: string, u: RemoteUpid)
    requires Parse(g, s) == Ok(u)
    ensures SafeId(u.remote)
    ensures s == Print(u) || (s == PrintUntyped(u) && DeduceType(g, u.upid) == Some(u.remoteType))
  {
    var prefix := SplitOnce(s, '!').value.0;
    match SplitOnce(prefix, ':') {
      case None =>
      case Some((name, _)) => assert name == TypeName(u.remoteType);
    }
  }

  /** The strings for a task: type, colon, remote, exclamation mark and inner id; or, without the type, if
      the inner id tells the type, where the grammar of PVE comes first. */
  ghost predicate Accepted(g: Grammar, s: string, u: RemoteUpid) {
    && SafeId(u.remote)
    && (|| s == (if u.remoteType == Pve then "pve:" else "pbs:") + u.remote + "!" + u.upid
        || (s == u.remote + "!" + u.upid && TypeTold(g, u.upid, u.remoteType)))
  }

  ghost predicate TypeTold(g: Grammar, upid: string, remoteType: RemoteType) {
    match remoteType
    case Pve => g.pve(upid)
    case Pbs => !g.pve(upid) && g.pbs(upid)
  }

  lemma PrintedForm(u: RemoteUpid)
    ensures Print(u) == (if u.remoteType == Pve then "pve:" else "pbs:") + u.remote + "!" + u.upid
  {
  }

  /** Exactly these strings are read as a task. */
  lemma ParseExactly(g: Grammar, s: string, u: RemoteUpid)
    ensures Parse(g, s) == Ok(u) <==> Accepted(g, s, u)
  {
    PrintedForm(u);
    if Parse(g, s) == Ok(u) {
      ReadForms(g, s, u);
    } else if SafeId(u.remote) {
      RoundTrip(g, u);
      if DeduceType(g, u.upid) == Some(u.remoteType) {
        UntypedRead(g, u);
      }
    }
  }

  /** Which error it is: no exclamation mark, or before the first one a remote that is not safe, or after a
      type that is none, or an inner id that tells no type. */
  lemma ParseErrors(g: Grammar, s: string, name: string, remote: string, upid: string)
    ensures Parse(g, s) == Err(MissingSeparator) <==> '!' !in s
    ensures ':' !in name && '!' !in name && '!' !in remote ==>
              var r := Parse(g, name + ":" + remote + "!" + upid);
              && (r == Err(BadRemote) <==> !SafeId(remote))
              && (r == Err(BadType) <==> SafeId(remote) && name != "pve" && name != "pbs")
              && (r.Ok? <==> SafeId(remote) && (name == "pve" || name == "pbs"))
    ensures ':' !in remote && '!' !in remote ==>
              var r := Parse(g, remote + "!" + upid);
              && (r == Err(BadRemote) <==> !SafeId(remote))
              && (r == Err(InvalidUpid) <==> SafeId(remote) && !g.pve(upid) && !g.pbs(upid))
              && (r.Ok? <==> SafeId(remote) && (g.pve(upid) || g.pbs(upid)))
  {
    if ':' !in name && '!' !in name && '!' !in remote {
      ParseTyped(g, name, remote, upid);
    }
    if ':' !in remote && '!' !in remote {
      ParseUntyped(g, remote, upid);
    }
  }

  /** Whatever form was read, the printed form reads the same, and two strings that read the same have
      one printed form. */
  lemma PrintNormalizes(g: Grammar, s: string, u: RemoteUpid)
    requires Parse(g, s) == Ok(u)
    ensures Parse(g, Print(u)) == Ok(u)
    ensures s == Print(u) || s == PrintUntyped(u)
    ensures forall v: RemoteUpid | SafeId(v.remote) && Print(v) == Print(u) :: v == u
  {
    ReadForms(g, s, u);
    RoundTrip(g, u);
    forall v: RemoteUpid | SafeId(v.remote) && Print(v) == Print(u) ensures v == u {
      RoundTrip(g, v);
    }
  }

  /** Reads a task id for a remote given on the command line. */
  function ParseForRemote(g: Grammar, remote: Option<string>, s: string): Result<RemoteUpid, Error> {
    if '!' in s then
      var r := Parse(g, s);
      if r.Ok? && remote.Some? && r.value.remote != remote.value then Err(OtherRemote) else r
    else
      match remote
      case Some(remote) => Parse(g, remote + "!" + s)
      case None => Err(WithoutRemote)
  }

  /** A task that is read for a remote belongs to it exactly when the string names the remote itself
      or the given name has no separator in it. */
  lemma RemoteExactly(g: Grammar, remote: string, s: string)
    requires ParseForRemote(g, Some(remote), s).Ok?
    ensures ParseForRemote(g, Some(remote), s).value.remote == remote
            <==> '!' in s || ('!' !in remote && ':' !in remote)
  {
    var u := ParseForRemote(g, Some(remote), s).value;
    if '!' !in s {
      ReadForms(g, remote + "!" + s, u);
      assert '!' !in u.remote && ':' !in u.remote;
      if '!' !in remote && ':' !in remote {
        ParseUntyped(g, remote, s);
      }
    }
  }

  /** A task that is read for a remote with a safe name belongs to it. */
  lemma SafeRemoteKept(g: Grammar, remote: string, s: string)
    requires SafeId(remote) && ParseForRemote(g, Some(remote), s).Ok?
    ensures ParseForRemote(g, Some(remote), s).value.remote == remote
  {
    RemoteExactly(g, remote, s);
  }

  /** The function itself reads a type and a separator in front of a name as part of the task id, so that
      the task belongs to another remote than the one named. */
  lemma SeparatorMisleads(g: Grammar, remoteType: RemoteType, remote: string, s: string)
    requires SafeId(remote) && '!' !in s
    ensures ParseForRemote(g, Some(TypeName(remoteType) + ":" + remote), s) == Ok(RemoteUpid(remote, remoteType, s))
  {
    RoundTrip(g, RemoteUpid(remote, remoteType, s));
  }

  /** What is read for a remote: a string that names a remote is read as it is, if that is the remote asked
      for or none was; one that does not is read with the remote in front of it. */
  lemma ParseForRemoteExactly(g: Grammar, remote: Option<string>, s: string, u: RemoteUpid)
    ensures ParseForRemote(g, remote, s) == Ok(u) <==>
            if '!' in s then Accepted(g, s, u) && (remote.None? || remote.value == u.remote)
            else remote.Some? && Accepted(g, remote.value + "!" + s, u)
    ensures ParseForRemote(g, remote, s) == Err(WithoutRemote) <==> '!' !in s && remote.None?
    ensures ParseForRemote(g, remote, s) == Err(OtherRemote) <==>
            '!' in s && remote.Some? && exists v :: Accepted(g, s, v) && v.remote != remote.value
  {
    ParseExactly(g, s, u);
    if remote.Some? {
      ParseExactly(g, remote.value + "!" + s, u);
    }
    forall v ensures Parse(g, s) == Ok(v) <==> Accepted(g, s, v) {
      ParseExactly(g, s, v);
    }
    var r := Parse(g, s);
    assert r.Ok? ==> Accepted(g, s, r.value);
  }
}
