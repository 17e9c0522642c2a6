/**
 * The names `download_m3u8` gives the downloaded segments (bot.py:63-64):
 * `os.path.join(workdir, f"seg_{idx:05d}.ts")`.
 */
module Naming {

  function Pow10(n: nat): (r: nat)
    ensures r >= 1
  {
    if n == 0 then 1 else 10 * Pow10(n - 1)
  }

  function DigitChar(d: nat): char
    requires d < 10
  {
    ('0' as int + d) as char
  }

  predicate IsDigit(c: char) {
    '0' <= c <= '9'
  }

  /** The last `w` decimal digits of `i`, most significant first. */
  function Digits(i: nat, w: nat): (r: string)
    ensures |r| == w && forall k :: 0 <= k < w ==> IsDigit(r[k])
  {
    if w == 0 then [] else Digits(i / 10, w - 1) + [DigitChar(i % 10)]
  }

  /** The value of a string of decimal digits. */
  function DigitsValue(s: string): nat {
    if s == [] then 0
    else
      var c := s[|s| - 1];
      10 * DigitsValue(s[..|s| - 1]) + (if IsDigit(c) then c as int - '0' as int else 0)
  }

  lemma {:induction false} DigitsRoundTrip(i: nat, w: nat)
    requires i < Pow10(w)
    ensures DigitsValue(Digits(i, w)) == i
  {
    if w > 0 {
      DigitsRoundTrip(i / 10, w - 1);
      var r := Digits(i, w);
      assert r[..w - 1] == Digits(i / 10, w - 1);
    }
  }

  /** The number of decimal digits of `i`. */
  function NumDigits(i: nat): (n: nat)
    ensures 1 <= n && i < Pow10(n)
    ensures n > 1 ==> Pow10(n - 1) <= i
  {
    if i < 10 then 1 else 1 + NumDigits(i / 10)
  }

  /** `f"{i:05d}"`: the decimal digits of `i`, padded with zeros on the left to at least five. */
  function Pad5(i: nat): string {
    Digits(i, if NumDigits(i) < 5 then 5 else NumDigits(i))
  }

  lemma Pow10Monotone(a: nat, b: nat)
    requires a <= b
    ensures Pow10(a) <= Pow10(b)
  {
    if a < b { Pow10Monotone(a, b - 1); }
  }

  /** Reading the padded digits back gives the index. */
  lemma Pad5RoundTrip(i: nat)
    ensures DigitsValue(Pad5(i)) == i
  {
    var n := NumDigits(i);
    if n < 5 { Pow10Monotone(n, 5); }
    DigitsRoundTrip(i, if n < 5 then 5 else n);
  }

  /** Indices below 100000 are written with exactly five digits. */
  lemma Pad5Short(i: nat)
    requires i < 100000
    ensures Pad5(i) == Digits(i, 5)
  {
    var n := NumDigits(i);
    assert Pow10(5) == 100000;
    if n > 5 {
      Pow10Monotone(5, n - 1);
    }
  }

  /** bot.py:64: the file name of the segment with index `idx`. */
  function SegmentName(idx: nat): string {
    "seg_" + Pad5(idx) + ".ts"
  }

  /** The two-argument `os.path.join` of POSIX paths. */
  function PathJoin(dir: string, name: string): string {
    if |name| > 0 && name[0] == '/' then name
    else if dir == [] || dir[|dir| - 1] == '/' then dir + name
    else dir + "/" + name
  }

  function SegmentPath(workdir: string, idx: nat): string {
    PathJoin(workdir, SegmentName(idx))
  }

  /** Different segments get different names, however many there are. */
  lemma SegmentNamesDistinct(i: nat, j: nat)
    requires i != j
    ensures SegmentName(i) != SegmentName(j)
  {
    if SegmentName(i) == SegmentName(j) {
      var a, b := SegmentName(i), SegmentName(j);
      assert Pad5(i) == a[4..|a| - 3];
      assert Pad5(j) == b[4..|b| - 3];
      Pad5RoundTrip(i);
      Pad5RoundTrip(j);
    }
  }

  /** Different segments of one request get different paths in its work directory. */
  lemma SegmentPathsDistinct(workdir: string, i: nat, j: nat)
    requires i != j
    ensures SegmentPath(workdir, i) != SegmentPath(workdir, j)
  {
    SegmentNamesDistinct(i, j);
    var a, b := SegmentName(i), SegmentName(j);
    var d := if workdir == [] || workdir[|workdir| - 1] == '/' then workdir else workdir + "/";
    assert SegmentPath(workdir, i) == d + a;
    assert SegmentPath(workdir, j) == d + b;
    assert (d + a)[|d|..] == a;
    assert (d + b)[|d|..] == b;
  }

  // ---------------------------------------------------------------------------
  // Lexical order of the names
  // ---------------------------------------------------------------------------

  /** Python's `<` on strings: code-point-wise lexicographic order. */
  predicate LexLess(a: string, b: string) {
    if a == [] then b != []
    else if b == [] then false
    else if a[0] != b[0] then a[0] < b[0]
    else LexLess(a[1..], b[1..])
  }

  lemma {:induction false} LexLessCommonPrefix(p: string, a: string, b: string)
    ensures LexLess(p + a, p + b) <==> LexLess(a, b)
  {
    if p == [] {
      assert p + a == a && p + b == b;
    } else {
      assert (p + a)[1..] == p[1..] + a;
      assert (p + b)[1..] == p[1..] + b;
      LexLessCommonPrefix(p[1..], a, b);
    }
  }

  lemma {:induction false} LexLessIrreflexive(a: string)
    ensures !LexLess(a, a)
  {
    if a != [] { LexLessIrreflexive(a[1..]); }
  }

  lemma {:induction false} LexLessAsymmetric(a: string, b: string)
    requires LexLess(a, b)
    ensures !LexLess(b, a)
  {
    if a != [] && b != [] && a[0] == b[0] { LexLessAsymmetric(a[1..], b[1..]); }
  }

  /** Equal-width digit strings compare as their numbers do, whatever follows them. */
  lemma {:induction false} DigitsOrder(i: nat, j: nat, w: nat, t1: string, t2: string)
    requires i < j < Pow10(w)
    ensures LexLess(Digits(i, w) + t1, Digits(j, w) + t2)
  {
    var di := [DigitChar(i % 10)];
    var dj := [DigitChar(j % 10)];
    assert Digits(i, w) + t1 == Digits(i / 10, w - 1) + (di + t1);
    assert Digits(j, w) + t2 == Digits(j / 10, w - 1) + (dj + t2);
    if i / 10 < j / 10 {
      DigitsOrder(i / 10, j / 10, w - 1, di + t1, dj + t2);
    } else {
      LexLessCommonPrefix(Digits(i / 10, w - 1), di + t1, dj + t2);
    }
  }

  /**
   * For fewer than 100000 segments, sorting the names reproduces the
   * playlist order: the name of segment `i` is below that of `j` exactly when `i < j`.
   */
  lemma SegmentNameOrder(i: nat, j: nat)
    requires i < 100000 && j < 100000
    ensures LexLess(SegmentName(i), SegmentName(j)) <==> i < j
  {
    assert Pow10(5) == 100000;
    Pad5Short(i);
    Pad5Short(j);
    if i < j {
      DigitsOrder(i, j, 5, ".ts", ".ts");
      LexLessCommonPrefix("seg_", Digits(i, 5) + ".ts", Digits(j, 5) + ".ts");
      assert SegmentName(i) == "seg_" + (Digits(i, 5) + ".ts");
      assert SegmentName(j) == "seg_" + (Digits(j, 5) + ".ts");
    } else if j < i {
      DigitsOrder(j, i, 5, ".ts", ".ts");
      LexLessCommonPrefix("seg_", Digits(j, 5) + ".ts", Digits(i, 5) + ".ts");
      assert SegmentName(i) == "seg_" + (Digits(i, 5) + ".ts");
      assert SegmentName(j) == "seg_" + (Digits(j, 5) + ".ts");
      LexLessAsymmetric(SegmentName(j), SegmentName(i));
    } else {
      LexLessIrreflexive(SegmentName(i));
    }
  }

  lemma DigitsTimesTen(i: nat, w: nat)
    ensures Digits(10 * i, w + 1) == Digits(i, w) + "0"
  {
    assert 10 * i / 10 == i && 10 * i % 10 == 0;
  }

  lemma NumDigitsOf100000()
    ensures NumDigits(100000) == 6
  {
    assert NumDigits(10) == 2;
    assert NumDigits(100) == 3;
    assert NumDigits(1000) == 4;
    assert NumDigits(10000) == 5;
  }

  lemma Pad5Of100000()
    ensures Pad5(100000) == "100000"
  {
    NumDigitsOf100000();
    assert Digits(1, 1) == "1";
    DigitsTimesTen(1, 1);
    DigitsTimesTen(10, 2);
    DigitsTimesTen(100, 3);
    DigitsTimesTen(1000, 4);
    DigitsTimesTen(10000, 5);
  }

  lemma Pad5Of99999()
    ensures Pad5(99999) == "99999"
  {
    Pad5Short(99999);
    assert Digits(9, 1) == "9";
    assert Digits(99, 2) == "99";
    assert Digits(999, 3) == "999";
    assert Digits(9999, 4) == "9999";
  }

  /** From the 100001st segment on, lexical order and playlist order part. */
  lemma SegmentNameOrderEndsAt100000()
    ensures LexLess(SegmentName(100000), SegmentName(99999))
  {
    Pad5Of100000();
    Pad5Of99999();
    var x, y := Pad5(100000) + ".ts", Pad5(99999) + ".ts";
    assert x[0] == '1' && y[0] == '9';
    assert LexLess(x, y);
    LexLessCommonPrefix("seg_", x, y);
  }
}
