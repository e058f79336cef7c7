/** The two version orders of a certificate: the bundle's own and the engine's,
    into which the certs module embeds it. */
module CertVersion {
  import opened Versions

  type Nanos = n: nat | n < 1_000_000_000

  /** An instant: whole seconds since the epoch and nanoseconds within the second. */
  datatype Time = Time(sec: int, nanos: Nanos)

  predicate After(t: Time, u: Time) {
    t.sec > u.sec || (t.sec == u.sec && t.nanos > u.nanos)
  }

  datatype BundleVersion = BundleVersion(notBefore: Time, notAfter: Time, serial: string, sha256: string)

  /** strings.Compare */
  function CompareStrings(a: string, b: string): (c: int) {
    if a == b then 0 else if Less(a, b) then -1 else 1
  }

  function Compare(a: BundleVersion, b: BundleVersion): (c: int) {
    if a.notBefore != b.notBefore then
      if After(a.notBefore, b.notBefore) then 1 else -1
    else if a.notAfter != b.notAfter then
      if After(a.notAfter, b.notAfter) then 1 else -1
    else if CompareStrings(a.serial, b.serial) != 0 then
      CompareStrings(a.serial, b.serial)
    else
      CompareStrings(a.sha256, b.sha256)
  }

  predicate NewerBundle(a: BundleVersion, b: BundleVersion) {
    Compare(a, b) > 0
  }

  /** Nanoseconds since the epoch. */
  function Instant(t: Time): int {
    t.sec * 1_000_000_000 + t.nanos
  }

  lemma AfterIff(t: Time, u: Time)
    ensures After(t, u) <==> Instant(t) > Instant(u)
    ensures t == u <==> Instant(t) == Instant(u)
  {
  }

  /** The string is greater at the first difference. */
  ghost predicate Greater(a: string, b: string) {
    exists i: nat :: SmallerAt(b, a, i)
  }

  /** The bundle order, field by field: the later start of validity wins; on a tie of it the
      later end; then the greater serial; then the greater hash. */
  lemma NewerBundleIff(a: BundleVersion, b: BundleVersion)
    ensures NewerBundle(a, b) <==>
            || Instant(a.notBefore) > Instant(b.notBefore)
            || (Instant(a.notBefore) == Instant(b.notBefore) &&
                (|| Instant(a.notAfter) > Instant(b.notAfter)
                 || (Instant(a.notAfter) == Instant(b.notAfter) &&
                     (Greater(a.serial, b.serial) || (a.serial == b.serial && Greater(a.sha256, b.sha256))))))
  {
    hide Instant, SmallerAt, Less;
    AfterIff(a.notBefore, b.notBefore);
    AfterIff(a.notAfter, b.notAfter);
    GreaterIff(a.serial, b.serial);
    GreaterIff(a.sha256, b.sha256);
  }

  lemma GreaterIff(a: string, b: string)
    ensures Greater(a, b) <==> CompareStrings(a, b) > 0
  {
    LessIffSmallerAt(b, a);
    LessTotal(a, b);
    if Less(a, b) { LessAsymmetric(a, b); }
    if Less(b, a) { LessAsymmetric(b, a); }
  }

  /** The engine version that toRecord computes. */
  function Embed(v: BundleVersion): (e: Version) {
    Version(v.notBefore.sec, v.notAfter.sec, v.serial + ":" + v.sha256)
  }

  predicate IsDigit(c: char) { '0' <= c <= '9' }

  predicate IsHex(c: char) { IsDigit(c) || 'a' <= c <= 'f' }

  predicate HexSerial(s: string) {
    forall i :: 0 <= i < |s| ==> IsHex(s[i])
  }

  /** What the X.509 profile allows: times without a fraction of a second, and a
      positive serial, which prints as lower-case hexadecimal digits. */
  predicate FromCertificate(v: BundleVersion) {
    v.notBefore.nanos == 0 && v.notAfter.nanos == 0 && HexSerial(v.serial)
  }

  /** `short` is a proper prefix of `long`, whose next byte is a decimal digit. */
  predicate DigitExtends(long: string, short: string) {
    |short| < |long| && long[..|short|] == short && IsDigit(long[|short|])
  }

  predicate SameTimes(a: BundleVersion, b: BundleVersion) {
    a.notBefore == b.notBefore && a.notAfter == b.notAfter
  }

  /** The pairs that the embedding puts in the opposite order. */
  predicate Reversed(a: BundleVersion, b: BundleVersion) {
    SameTimes(a, b) && (DigitExtends(a.serial, b.serial) || DigitExtends(b.serial, a.serial))
  }

  lemma CompareStringsIsOrder(a: string, b: string)
    ensures CompareStrings(a, b) == -CompareStrings(b, a)
    ensures CompareStrings(a, b) == 0 <==> a == b
    ensures CompareStrings(a, b) < 0 <==> Less(a, b)
  {
    LessTotal(a, b);
    if Less(a, b) { LessAsymmetric(a, b); }
    if Less(b, a) { LessAsymmetric(b, a); }
  }

  /** Compare is antisymmetric, zero exactly on equal versions. */
  lemma CompareAntisymmetric(a: BundleVersion, b: BundleVersion)
    ensures Compare(a, b) == -Compare(b, a)
    ensures Compare(a, b) == 0 <==> a == b
  {
    CompareStringsIsOrder(a.serial, b.serial);
    CompareStringsIsOrder(a.sha256, b.sha256);
  }

  lemma NewerBundleTransitive(a: BundleVersion, b: BundleVersion, c: BundleVersion)
    requires NewerBundle(a, b) && NewerBundle(b, c)
    ensures NewerBundle(a, c)
  {
    CompareStringsIsOrder(a.serial, b.serial);
    CompareStringsIsOrder(b.serial, c.serial);
    CompareStringsIsOrder(a.serial, c.serial);
    CompareStringsIsOrder(a.sha256, b.sha256);
    CompareStringsIsOrder(b.sha256, c.sha256);
    CompareStringsIsOrder(a.sha256, c.sha256);
    if Less(c.serial, b.serial) && Less(b.serial, a.serial) {
      LessTransitive(c.serial, b.serial, a.serial);
    }
    if Less(c.sha256, b.sha256) && Less(b.sha256, a.sha256) {
      LessTransitive(c.sha256, b.sha256, a.sha256);
    }
  }

  lemma JoinHead(s: string, x: string)
    requires HexSerial(s)
    ensures s == [] <==> (s + ":" + x)[0] == ':'
  {
    if s != [] {
      assert (s + ":" + x)[0] == s[0] && IsHex(s[0]);
    }
  }

  /** The joined tiebreak determines both of its parts. */
  lemma {:induction false} JoinInjective(s: string, x: string, t: string, y: string)
    requires HexSerial(s) && HexSerial(t)
    requires s + ":" + x == t + ":" + y
    ensures s == t && x == y
  {
    var l, r := s + ":" + x, t + ":" + y;
    JoinHead(s, x);
    JoinHead(t, y);
    if s == [] {
      assert x == l[1..] && y == r[1..];
    } else {
      assert s[0] == l[0] && t[0] == r[0];
      assert s[1..] + ":" + x == l[1..] && t[1..] + ":" + y == r[1..];
      JoinInjective(s[1..], x, t[1..], y);
      assert s == [s[0]] + s[1..] && t == [t[0]] + t[1..];
    }
  }

  /** Joined tiebreaks compare as the pair of their parts, except that ':' sorts
      after the digits: a serial extended by a digit sorts first. */
  lemma {:induction false} JoinLess(s: string, x: string, t: string, y: string)
    requires HexSerial(s) && HexSerial(t)
    ensures Less(s + ":" + x, t + ":" + y) <==>
              if s == t then Less(x, y)
              else if DigitExtends(s, t) then true
              else if DigitExtends(t, s) then false
              else Less(s, t)
  {
    var l, r := s + ":" + x, t + ":" + y;
    if s == [] || t == [] {
      assert s == [] ==> l[0] == ':' && l[1..] == x;
      assert t == [] ==> r[0] == ':' && r[1..] == y;
      assert s != [] ==> l[0] == s[0] && IsHex(s[0]);
      assert t != [] ==> r[0] == t[0] && IsHex(t[0]);
    } else {
      assert l[0] == s[0] && r[0] == t[0];
      assert l[1..] == s[1..] + ":" + x && r[1..] == t[1..] + ":" + y;
      JoinLess(s[1..], x, t[1..], y);
      assert s == [s[0]] + s[1..] && t == [t[0]] + t[1..];
      DigitExtendsTail(s, t);
      DigitExtendsTail(t, s);
    }
  }

  lemma DigitExtendsTail(long: string, short: string)
    requires long != [] && short != []
    ensures DigitExtends(long, short) <==> long[0] == short[0] && DigitExtends(long[1..], short[1..])
  {
    if |short| < |long| {
      assert long[..|short|] == [long[0]] + long[1..][..|short| - 1];
      assert short == [short[0]] + short[1..];
      assert long[1..][..|short| - 1] == long[..|short|][1..];
    }
  }

  lemma DigitExtendsIsLess(long: string, short: string)
    requires DigitExtends(long, short)
    ensures Less(short, long)
  {
    assert short[..|short|] == short;
    WitnessGivesLess(short, long, |short|);
  }

  /** Engine versions are equal exactly when bundle versions are. */
  lemma EmbedInjective(a: BundleVersion, b: BundleVersion)
    requires FromCertificate(a) && FromCertificate(b)
    ensures Embed(a) == Embed(b) <==> a == b
  {
    if Embed(a) == Embed(b) {
      JoinInjective(a.serial, a.sha256, b.serial, b.sha256);
    }
  }

  /** The engine order is the bundle order, turned around exactly on the reversed pairs. */
  lemma EmbedOrder(a: BundleVersion, b: BundleVersion)
    requires FromCertificate(a) && FromCertificate(b)
    ensures Newer(Embed(a), Embed(b)) <==> if Reversed(a, b) then NewerBundle(b, a) else NewerBundle(a, b)
  {
    CompareAntisymmetric(a, b);
    if SameTimes(a, b) {
      CompareStringsIsOrder(a.serial, b.serial);
      CompareStringsIsOrder(a.sha256, b.sha256);
      JoinLess(b.serial, b.sha256, a.serial, a.sha256);
      if DigitExtends(a.serial, b.serial) { DigitExtendsIsLess(a.serial, b.serial); LessAsymmetric(b.serial, a.serial); }
      if DigitExtends(b.serial, a.serial) { DigitExtendsIsLess(b.serial, a.serial); LessAsymmetric(a.serial, b.serial); }
    }
  }

  /** The documented agreement of the two orders holds of a pair of distinct
      versions if and only if the pair is not reversed. */
  lemma OrdersAgreeIff(a: BundleVersion, b: BundleVersion)
    requires FromCertificate(a) && FromCertificate(b) && a != b
    ensures (Newer(Embed(a), Embed(b)) <==> NewerBundle(a, b)) <==> !Reversed(a, b)
  {
    EmbedOrder(a, b);
    CompareAntisymmetric(a, b);
  }

  /** Two certificates issued for the same period with serials 1 and 10: the
      bundle order calls the second newer, the engine the first. */
  lemma ReversedPairExists()
    ensures exists a, b :: FromCertificate(a) && FromCertificate(b) && NewerBundle(b, a) && Newer(Embed(a), Embed(b))
  {
    var t, u := Time(0, 0), Time(1, 0);
    var a, b := BundleVersion(t, u, "1", "x"), BundleVersion(t, u, "10", "y");
    DigitExtendsIsLess("10", "1");
    CompareStringsIsOrder("10", "1");
    EmbedOrder(a, b);
    assert Reversed(a, b);
    assert NewerBundle(b, a);
  }
}
