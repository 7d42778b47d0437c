/** Record keys: decimal time stamps, byte order, and the composite keys of the
    "Chunks" and "Replicas" buckets. */
module Keys {

  // ---------------------------------------------------------------- byte order

  /** bytes.Compare(a, b) < 0. */
  predicate Less(a: string, b: string) {
    b != [] && (a == [] || a[0] < b[0] || (a[0] == b[0] && Less(a[1..], b[1..])))
  }

  predicate AtMost(a: string, b: string) {
    a == b || Less(a, b)
  }

  lemma {:induction false} LessTransitive(a: string, b: string, c: string)
    requires Less(a, b) && Less(b, c)
    ensures Less(a, c)
  {
    if a != [] && a[0] == b[0] && b[0] == c[0] {
      LessTransitive(a[1..], b[1..], c[1..]);
    }
  }

  lemma {:induction false} LessTotal(a: string, b: string)
    ensures Less(a, b) || a == b || Less(b, a)
  {
    if a != [] && b != [] && a[0] == b[0] {
      LessTotal(a[1..], b[1..]);
      assert a == [a[0]] + a[1..] && b == [b[0]] + b[1..];
    }
  }

  lemma {:induction false} LessIrreflexive(a: string)
    ensures !Less(a, a)
  {
    if a != [] { LessIrreflexive(a[1..]); }
  }

  /** A common prefix does not affect the order. */
  lemma {:induction false} LessCommonPrefix(p: string, a: string, b: string)
    ensures Less(p + a, p + b) <==> Less(a, b)
  {
    if p == [] {
      assert p + a == a && p + b == b;
    } else {
      assert (p + a)[1..] == p[1..] + a && (p + b)[1..] == p[1..] + b;
      LessCommonPrefix(p[1..], a, b);
    }
  }

  /** A prefix sorts at or before everything it is a prefix of. */
  lemma {:induction false} PrefixFirst(p: string, k: string)
    requires p <= k
    ensures AtMost(p, k)
  {
    if p != [] {
      PrefixFirst(p[1..], k[1..]);
      assert p == [p[0]] + p[1..] && k == [k[0]] + k[1..];
    }
  }

  /** Keys with a common prefix are contiguous in the order. */
  lemma {:induction false} PrefixContiguous(p: string, k: string, m: string)
    requires AtMost(p, k) && Less(k, m) && p <= m
    ensures p <= k
  {
    if p != [] {
      if k == p {
      } else {
        assert k[0] == p[0];
        if k[1..] == p[1..] {
        } else {
          PrefixContiguous(p[1..], k[1..], m[1..]);
        }
        assert p == [p[0]] + p[1..] && k == [k[0]] + k[1..];
      }
    }
  }

  lemma {:induction false} LessLastChar(a: string, c: char, b: string, d: char)
    requires |a| == |b|
    ensures Less(a + [c], b + [d]) <==> (Less(a, b) || (a == b && c < d))
  {
    if a == [] {
      assert a + [c] == [c] && b + [d] == [d];
    } else {
      assert (a + [c])[1..] == a[1..] + [c] && (b + [d])[1..] == b[1..] + [d];
      LessLastChar(a[1..], c, b[1..], d);
      assert a == [a[0]] + a[1..] && b == [b[0]] + b[1..];
    }
  }

  // ------------------------------------------------------------- decimal stamps

  function Digit(d: nat): char
    requires d < 10
  {
    '0' + d as char
  }

  /** "%d" of a non-negative number. */
  function Decimal(n: nat): (s: string)
    ensures s != [] && forall i :: 0 <= i < |s| ==> '0' <= s[i] <= '9'
  {
    if n < 10 then [Digit(n)] else Decimal(n / 10) + [Digit(n % 10)]
  }

  /** What a decimal text stands for. */
  function Value(text: string): int
    decreases |text|
  {
    if text == [] then 0 else 10 * Value(text[..|text| - 1]) + (text[|text| - 1] as int - '0' as int)
  }

  /** The text of a number is its decimal notation, without leading zeros. */
  lemma {:induction false} DecimalValue(n: nat)
    ensures Value(Decimal(n)) == n && (n > 0 ==> Decimal(n)[0] != '0')
  {
    var s := Decimal(n);
    if n < 10 {
      assert s[..|s| - 1] == [];
    } else {
      DecimalValue(n / 10);
      assert s[..|s| - 1] == Decimal(n / 10);
    }
  }

  lemma {:induction false} DecimalInjective(a: nat, b: nat)
    requires Decimal(a) == Decimal(b)
    ensures a == b
  {
    var s, t := Decimal(a), Decimal(b);
    assert s[|s| - 1] == Digit(a % 10) && t[|t| - 1] == Digit(b % 10);
    assert a % 10 == b % 10;
    if a >= 10 && b >= 10 {
      assert s[..|s| - 1] == Decimal(a / 10) && t[..|t| - 1] == Decimal(b / 10);
      DecimalInjective(a / 10, b / 10);
    }
  }

  /** Equal-width stamps sort as numbers, which is what makes a bucket of
      "<file>_v_<stamp>" keys iterate in creation order. */
  lemma {:induction false} DecimalOrder(a: nat, b: nat)
    requires |Decimal(a)| == |Decimal(b)|
    ensures Less(Decimal(a), Decimal(b)) <==> a < b
  {
    if a < 10 || b < 10 {
      assert a < 10 && b < 10;
    } else {
      DecimalOrder(a / 10, b / 10);
      LessLastChar(Decimal(a / 10), Digit(a % 10), Decimal(b / 10), Digit(b % 10));
      if Decimal(a / 10) == Decimal(b / 10) { DecimalInjective(a / 10, b / 10); }
      if a / 10 == b / 10 { LessIrreflexive(Decimal(a / 10)); }
    }
  }

  // --------------------------------------------------------------- record keys

  function ChunkKey(fileID: string, stamp: nat): string {
    fileID + "_chunk_" + Decimal(stamp)
  }

  function VersionID(stamp: nat): string {
    "v_" + Decimal(stamp)
  }

  function VersionKey(fileID: string, versionID: string): string {
    fileID + "_" + versionID
  }

  /** A tail that starts after an underscore and contains none is determined by the whole key. */
  lemma UnderscoreSplit(a: string, s: string, b: string, t: string)
    requires a + "_" + s == b + "_" + t
    requires '_' !in s && '_' !in t
    ensures a == b && s == t
  {
    var k := a + "_" + s;
    assert k == b + "_" + t;
    assert k[|a|] == '_' && k[|b|] == '_';
    assert forall i :: |a| < i < |k| ==> k[i] == s[i - |a| - 1];
    assert forall i :: |b| < i < |k| ==> k[i] == t[i - |b| - 1];
    assert k[..|a|] == a && k[..|b|] == b;
    assert k[|a| + 1..] == s && k[|b| + 1..] == t;
  }

  /** Chunk keys never collide, whatever separators the file names contain. */
  lemma ChunkKeyInjective(f: string, m: nat, g: string, n: nat)
    requires ChunkKey(f, m) == ChunkKey(g, n)
    ensures f == g && m == n
  {
    assert ChunkKey(f, m) == (f + "_chunk") + "_" + Decimal(m);
    assert ChunkKey(g, n) == (g + "_chunk") + "_" + Decimal(n);
    UnderscoreSplit(f + "_chunk", Decimal(m), g + "_chunk", Decimal(n));
    assert (f + "_chunk")[..|f|] == f && (g + "_chunk")[..|g|] == g;
    DecimalInjective(m, n);
  }

  /** Version keys never collide. */
  lemma VersionKeyInjective(f: string, m: nat, g: string, n: nat)
    requires VersionKey(f, VersionID(m)) == VersionKey(g, VersionID(n))
    ensures f == g && m == n
  {
    assert VersionKey(f, VersionID(m)) == (f + "_v") + "_" + Decimal(m);
    assert VersionKey(g, VersionID(n)) == (g + "_v") + "_" + Decimal(n);
    UnderscoreSplit(f + "_v", Decimal(m), g + "_v", Decimal(n));
    assert (f + "_v")[..|f|] == f && (g + "_v")[..|g|] == g;
    DecimalInjective(m, n);
  }

  lemma VersionIDInjective(m: nat, n: nat)
    requires VersionID(m) == VersionID(n)
    ensures m == n
  {
    assert VersionID(m)[2..] == Decimal(m) && VersionID(n)[2..] == Decimal(n);
    DecimalInjective(m, n);
  }

  /** Within one file, version keys with equal-width stamps sort by stamp. */
  lemma VersionKeyOrder(f: string, m: nat, n: nat)
    requires |Decimal(m)| == |Decimal(n)|
    ensures Less(VersionKey(f, VersionID(m)), VersionKey(f, VersionID(n))) <==> m < n
  {
    assert VersionKey(f, VersionID(m)) == (f + "_v_") + Decimal(m);
    assert VersionKey(f, VersionID(n)) == (f + "_v_") + Decimal(n);
    LessCommonPrefix(f + "_v_", Decimal(m), Decimal(n));
    DecimalOrder(m, n);
  }
}
