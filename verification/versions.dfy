/** Versions, records and the newest-wins choice between two copies.

    A Go string is a `string` here, one `char` per byte; strings are compared
    byte by byte, as Go does. */
module Versions {

  type Bytes = string

  datatype Option<+T> = None | Some(value: T)

  /** Go's `a < b` on strings. */
  predicate Less(a: string, b: string) {
    b != [] && (a == [] || a[0] < b[0] || (a[0] == b[0] && Less(a[1..], b[1..])))
  }

  /** `a` and `b` agree before `i`, and at `i` the string `a` has ended or has the smaller byte. */
  ghost predicate SmallerAt(a: string, b: string, i: nat) {
    i <= |a| && i < |b| && a[..i] == b[..i] && (i == |a| || a[i] < b[i])
  }

  lemma {:induction false} LessHasWitness(a: string, b: string) returns (i: nat)
    requires Less(a, b)
    ensures SmallerAt(a, b, i)
  {
    if a == [] || a[0] < b[0] {
      i := 0;
    } else {
      var j := LessHasWitness(a[1..], b[1..]);
      i := j + 1;
      assert a[..i] == [a[0]] + a[1..][..j];
      assert b[..i] == [b[0]] + b[1..][..j];
    }
  }

  lemma {:induction false} WitnessGivesLess(a: string, b: string, i: nat)
    requires SmallerAt(a, b, i)
    ensures Less(a, b)
  {
    if i > 0 {
      assert a[0] == a[..i][0] == b[..i][0] == b[0];
      assert a[1..][..i-1] == a[..i][1..];
      assert b[1..][..i-1] == b[..i][1..];
      WitnessGivesLess(a[1..], b[1..], i - 1);
    }
  }

  /** The recursive comparison is the usual lexicographic order. */
  lemma LessIffSmallerAt(a: string, b: string)
    ensures Less(a, b) <==> exists i: nat :: SmallerAt(a, b, i)
  {
    if Less(a, b) {
      var i := LessHasWitness(a, b);
    }
    if i: nat :| SmallerAt(a, b, i) {
      WitnessGivesLess(a, b, i);
    }
  }

  lemma {:induction false} LessTransitive(a: string, b: string, c: string)
    requires Less(a, b) && Less(b, c)
    ensures Less(a, c)
  {
    if a != [] && a[0] == b[0] == c[0] {
      LessTransitive(a[1..], b[1..], c[1..]);
    }
  }

  lemma {:induction false} LessAsymmetric(a: string, b: string)
    requires Less(a, b)
    ensures !Less(b, a) && a != b
  {
    if a != [] && a[0] == b[0] {
      LessAsymmetric(a[1..], b[1..]);
    }
  }

  lemma {:induction false} LessTotal(a: string, b: string)
    ensures Less(a, b) || a == b || Less(b, a)
  {
    if a != [] && b != [] {
      LessTotal(a[1..], b[1..]);
      assert a == [a[0]] + a[1..] && b == [b[0]] + b[1..];
    }
  }

  datatype Version = Version(primary: int, secondary: int, tiebreak: string)

  /** v is strictly newer than o. */
  predicate Newer(v: Version, o: Version) {
    if v.primary != o.primary then v.primary > o.primary
    else if v.secondary != o.secondary then v.secondary > o.secondary
    else Less(o.tiebreak, v.tiebreak)
  }

  /** Newer, field by field: the greater primary wins; on a tie of it the greater secondary;
      on a tie of both the tiebreak that is greater at the first difference. */
  lemma NewerIff(v: Version, o: Version)
    ensures Newer(v, o) <==>
            || v.primary > o.primary
            || (v.primary == o.primary && v.secondary > o.secondary)
            || (v.primary == o.primary && v.secondary == o.secondary && exists i: nat :: SmallerAt(o.tiebreak, v.tiebreak, i))
  {
    LessIffSmallerAt(o.tiebreak, v.tiebreak);
  }

  /** "Not newer": the order every guard of the system tests. */
  predicate AtMost(v: Version, o: Version) {
    !Newer(v, o)
  }

  lemma NewerTransitive(a: Version, b: Version, c: Version)
    requires Newer(a, b) && Newer(b, c)
    ensures Newer(a, c)
  {
    if a.primary == b.primary == c.primary && a.secondary == b.secondary == c.secondary {
      LessTransitive(c.tiebreak, b.tiebreak, a.tiebreak);
    }
  }

  lemma NewerTrichotomy(a: Version, b: Version)
    ensures Newer(a, b) ==> !Newer(b, a) && a != b
    ensures Newer(a, b) || a == b || Newer(b, a)
  {
    if Less(a.tiebreak, b.tiebreak) { LessAsymmetric(a.tiebreak, b.tiebreak); }
    if Less(b.tiebreak, a.tiebreak) { LessAsymmetric(b.tiebreak, a.tiebreak); }
    LessTotal(a.tiebreak, b.tiebreak);
  }

  lemma AtMostTransitive(a: Version, b: Version, c: Version)
    requires AtMost(a, b) && AtMost(b, c)
    ensures AtMost(a, c)
  {
    if Newer(a, c) {
      NewerTrichotomy(b, c);
      if b != c {
        NewerTransitive(a, c, b);
      }
    }
  }

  lemma AtMostReflexive(a: Version)
    ensures AtMost(a, a)
  {
    NewerTrichotomy(a, a);
  }

  lemma NewerGivesAtMost(a: Version, b: Version)
    requires Newer(a, b)
    ensures AtMost(b, a)
  {
    NewerTrichotomy(a, b);
  }

  lemma AtMostAntisymmetric(a: Version, b: Version)
    requires AtMost(a, b) && AtMost(b, a)
    ensures a == b
  {
    NewerTrichotomy(a, b);
  }

  datatype Record = Record(
    kind: string,
    key: string,
    version: Version,
    blobs: map<string, Bytes>,
    meta: map<string, string>,
    source: string)

  /** The newer of two copies, either of which may be missing; a tie keeps the second. */
  function PickNewer(a: Option<Record>, b: Option<Record>): (r: Option<Record>)
  {
    if a.None? then b
    else if b.None? then a
    else if Newer(a.value.version, b.value.version) then a
    else b
  }

  /** The choice is one of the two copies, no copy is newer than it, and a tie gives the second. */
  lemma PickNewerIsMaximum(a: Option<Record>, b: Option<Record>)
    ensures PickNewer(a, b) == a || PickNewer(a, b) == b
    ensures PickNewer(a, b).None? <==> a.None? && b.None?
    ensures a.Some? ==> AtMost(a.value.version, PickNewer(a, b).value.version)
    ensures b.Some? ==> AtMost(b.value.version, PickNewer(a, b).value.version)
    ensures a.Some? && b.Some? && a.value.version == b.value.version ==> PickNewer(a, b) == b
  {
    if a.Some? { AtMostReflexive(a.value.version); }
    if b.Some? { AtMostReflexive(b.value.version); }
    if a.Some? && b.Some? { NewerTrichotomy(a.value.version, b.value.version); }
  }

  /** Every record stands under its own key. */
  predicate Keyed(m: map<string, Record>) {
    forall k :: k in m ==> m[k].key == k
  }

  /** The map has version v of k or something newer. */
  predicate Holds(m: map<string, Record>, k: string, v: Version) {
    k in m && AtMost(v, m[k].version)
  }

  predicate NoDups(keys: seq<string>) {
    forall i, j :: 0 <= i < j < |keys| ==> keys[i] != keys[j]
  }

  /** A map looked up the way the sources do it. */
  function Lookup<K, V>(m: map<K, V>, k: K): (r: Option<V>) {
    if k in m then Some(m[k]) else None
  }
}
