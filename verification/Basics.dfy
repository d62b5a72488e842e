/** Notions shared by several components of the model. */
module Basics {

  datatype Option<+T> = None | Some(value: T)

  datatype Result<+T, +E> = Ok(value: T) | Err(error: E)

  /** What a remote runs. */
  datatype RemoteType = Pve | Pbs

  /** The positions `lo, lo + 1, .., hi - 1`. */
  function Range(lo: nat, hi: nat): (r: seq<nat>)
    requires lo <= hi
    ensures |r| == hi - lo
    ensures forall i | 0 <= i < |r| :: r[i] == lo + i
  {
    seq(hi - lo, i requires 0 <= i => lo + i)
  }

  /** Every element occurs at one index only. */
  ghost predicate NoRepeats<T(!new)>(s: seq<T>) {
    forall i, j | 0 <= i < j < |s| :: s[i] != s[j]
  }

  ghost predicate Increasing(s: seq<nat>) {
    forall i, j | 0 <= i < j < |s| :: s[i] < s[j]
  }

  lemma CountTwice<T>(s: seq<T>, i: nat, j: nat)
    requires i < j < |s| && s[i] == s[j]
    ensures multiset(s)[s[i]] >= 2
  {
    assert s == s[..j] + s[j..];
    assert s[i] in s[..j];
    assert s[j..][0] == s[j];
    assert s[j] in s[j..];
    assert multiset(s) == multiset(s[..j]) + multiset(s[j..]);
  }

  lemma NoRepeatsCount<T(!new)>(s: seq<T>, x: T)
    requires NoRepeats(s)
    ensures multiset(s)[x] <= 1
  {
    if s != [] {
      var n := |s| - 1;
      assert s == s[..n] + [s[n]];
      NoRepeatsCount(s[..n], x);
      if x == s[n] {
        assert x !in s[..n];
        assert multiset(s[..n])[x] == 0;
      }
    }
  }

  /** A sequence with the same elements as one without repeats has no repeats. */
  lemma NoRepeatsPermuted<T(!new)>(s: seq<T>, t: seq<T>)
    requires NoRepeats(t) && multiset(s) == multiset(t)
    ensures NoRepeats(s)
  {
    forall i, j | 0 <= i < j < |s| ensures s[i] != s[j] {
      if s[i] == s[j] {
        CountTwice(s, i, j);
        NoRepeatsCount(t, s[i]);
      }
    }
  }

  /** Where a part that lacks the separator ends is determined by the whole string. */
  lemma FirstSeparator(c: char, s: string, t: string, s': string, t': string)
    requires c !in s && c !in s' && s + [c] + t == s' + [c] + t'
    ensures s == s' && t == t'
  {
    var x, x' := s + [c] + t, s' + [c] + t';
    assert x[|s|] == c && x'[|s'|] == c;
    assert forall k | 0 <= k < |s| :: x[k] == s[k] && s[k] != c;
    assert forall k | 0 <= k < |s'| :: x'[k] == s'[k] && s'[k] != c;
    assert s == x[..|s|] && s' == x'[..|s'|];
    assert t == x[|s| + 1..] && t' == x'[|s'| + 1..];
  }

  predicate WordChar(c: char) {
    'A' <= c <= 'Z' || 'a' <= c <= 'z' || '0' <= c <= '9' || c == '_'
  }

  /** The identifiers that are safe as cache keys, namespaces and remote names. */
  predicate SafeId(id: string) {
    && id != [] && WordChar(id[0])
    && forall i | 0 <= i < |id| :: WordChar(id[i]) || id[i] == '.' || id[i] == '-'
  }

  /** Letters, digits and the underscore may stand anywhere, dots and dashes anywhere but in front. */
  lemma SafeIdExamples()
    ensures SafeId("Az09_") && SafeId("a.b-c") && SafeId("_") && !SafeId("") && !SafeId(".a") && !SafeId("-a")
    ensures forall c | c in "/:! " :: !SafeId(['a', c])
  {
    assert forall c :: ['a', c][1] == c;
  }
}
