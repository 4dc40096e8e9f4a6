/**
 * Character-string helpers shared by the address parsers, the formatters
 * and the configuration validators: decimal digits, `%d` and `%0Nd`
 * formatting, `find`, `replace('/', '.')`, Python's `str.split` and the
 * NUL-terminated view that C's `c_str()` gives of a string.
 */
module Text {
  import opened Wrappers

  predicate IsDigit(c: char)
  {
    '0' <= c <= '9'
  }

  predicate AllDigits(s: string)
  {
    forall i :: 0 <= i < |s| ==> IsDigit(s[i])
  }

  function DigitChar(d: nat): (c: char)
    requires d < 10
    ensures IsDigit(c) && c as int - '0' as int == d
  {
    ('0' as int + d) as char
  }

  /** The value of a string of decimal digits, as `atol` computes it. */
  function DigitsValue(s: string): nat
    requires AllDigits(s)
  {
    if s == [] then 0
    else 10 * DigitsValue(s[..|s| - 1]) + (s[|s| - 1] as int - '0' as int)
  }

  /** `%d` of a non-negative integer: the shortest decimal numeral. */
  function Dec(n: nat): (s: string)
    ensures 1 <= |s| && AllDigits(s) && DigitsValue(s) == n
    ensures |s| > 1 ==> s[0] != '0'
  {
    if n < 10 then [DigitChar(n)]
    else
      var prefix := Dec(n / 10);
      var s := prefix + [DigitChar(n % 10)];
      assert s[..|s| - 1] == prefix;
      s
  }

  /** `|Dec(n)|` is at most `k` when `n` has at most `k` digits. */
  lemma {:induction false} DecLength(n: nat, k: nat, bound: nat)
    requires 1 <= k && bound == Pow10(k) && n < bound
    ensures |Dec(n)| <= k
    decreases k
  {
    if n >= 10 {
      assert k > 1;
      DecLength(n / 10, k - 1, Pow10(k - 1));
    }
  }

  function Pow10(k: nat): (r: nat)
    ensures r >= 1
  {
    if k == 0 then 1 else 10 * Pow10(k - 1)
  }

  /** `%0<width>d` of a non-negative integer: left-padded with zeros. */
  function ZeroPad(n: nat, width: nat): (s: string)
    ensures |s| == if |Dec(n)| < width then width else |Dec(n)|
    ensures AllDigits(s) && DigitsValue(s) == n
  {
    var digits := Dec(n);
    if |digits| < width then
      var zeros := Zeros(width - |digits|);
      DigitsValueAppend(zeros, digits);
      zeros + digits
    else digits
  }

  function Zeros(k: nat): (s: string)
    ensures |s| == k && AllDigits(s) && DigitsValue(s) == 0
  {
    if k == 0 then [] else
      var s := Zeros(k - 1) + ['0'];
      assert s[..|s| - 1] == Zeros(k - 1);
      s
  }

  /** Leading zeros do not change the value of a numeral. */
  lemma {:induction false} DigitsValueAppend(a: string, b: string)
    requires AllDigits(a) && AllDigits(b) && DigitsValue(a) == 0
    ensures AllDigits(a + b) && DigitsValue(a + b) == DigitsValue(b)
    decreases |b|
  {
    assert AllDigits(a + b);
    if b == [] {
      assert a + b == a;
    } else {
      var b' := b[..|b| - 1];
      assert (a + b)[..|a + b| - 1] == a + b';
      DigitsValueAppend(a, b');
    }
  }

  /**
   * `s.find(c, from)`: the first position at or after `from` holding `c`,
   * or `None` for `std::string::npos`.
   */
  function Find(s: string, c: char, from: nat): (r: Option<nat>)
    ensures r.Some? ==> from <= r.value < |s| && s[r.value] == c
    ensures r.Some? ==> forall k :: from <= k < r.value ==> s[k] != c
    ensures r.None? ==> forall k :: from <= k < |s| ==> s[k] != c
    decreases |s| - from
  {
    if from >= |s| then None
    else if s[from] == c then Some(from)
    else Find(s, c, from + 1)
  }

  /** `std::replace(s, '/', '.')` and Python's `s.replace("/", ".")`. */
  function ReplaceSlash(s: string): (r: string)
    ensures |r| == |s|
    ensures forall i :: 0 <= i < |s| ==> r[i] == (if s[i] == '/' then '.' else s[i])
  {
    seq(|s|, i requires 0 <= i < |s| => if s[i] == '/' then '.' else s[i])
  }

  /** Python's `s.split(sep)` for a one-character separator. */
  function Split(s: string, sep: char): (parts: seq<string>)
    ensures 1 <= |parts|
    ensures forall i, k :: 0 <= i < |parts| && 0 <= k < |parts[i]| ==> parts[i][k] != sep
    ensures Join(parts, sep) == s
    decreases |s|
  {
    match Find(s, sep, 0)
    case None => [s]
    case Some(i) =>
      var rest := Split(s[i + 1..], sep);
      assert s == s[..i] + [sep] + s[i + 1..];
      [s[..i]] + rest
  }

  /** Python's `sep.join(parts)`. */
  function Join(parts: seq<string>, sep: char): string
    requires 1 <= |parts|
  {
    if |parts| == 1 then parts[0] else parts[0] + [sep] + Join(parts[1..], sep)
  }

  lemma Join3(x: string, y: string, z: string, sep: char)
    ensures Join([x, y, z], sep) == x + [sep] + y + [sep] + z
  {
    assert [x, y, z][1..] == [y, z];
    assert [y, z][1..] == [z];
    assert Join([y, z], sep) == y + [sep] + z;
    assert x + [sep] + (y + [sep] + z) == x + [sep] + y + [sep] + z;
  }

  lemma Join4(w: string, x: string, y: string, z: string, sep: char)
    ensures Join([w, x, y, z], sep) == w + [sep] + x + [sep] + y + [sep] + z
  {
    assert [w, x, y, z][1..] == [x, y, z];
    Join3(x, y, z, sep);
    assert w + [sep] + (x + [sep] + y + [sep] + z) == w + [sep] + x + [sep] + y + [sep] + z;
  }

  /** Parts made of digits hold no separator that is not a digit. */
  lemma DigitPartsFree(parts: seq<string>, sep: char)
    requires forall i :: 0 <= i < |parts| ==> AllDigits(parts[i])
    requires !IsDigit(sep)
    ensures forall i, k :: 0 <= i < |parts| && 0 <= k < |parts[i]| ==> parts[i][k] != sep
  {
    forall i, k | 0 <= i < |parts| && 0 <= k < |parts[i]|
      ensures parts[i][k] != sep
    {
      assert AllDigits(parts[i]);
      assert IsDigit(parts[i][k]);
    }
  }

  /** Splitting a joined list of separator-free parts gives the parts back. */
  lemma {:induction false} SplitJoin(parts: seq<string>, sep: char)
    requires 1 <= |parts|
    requires forall i, k :: 0 <= i < |parts| && 0 <= k < |parts[i]| ==> parts[i][k] != sep
    ensures Split(Join(parts, sep), sep) == parts
    decreases |parts|
  {
    var s := Join(parts, sep);
    if |parts| == 1 {
      assert Find(s, sep, 0).None?;
    } else {
      var rest := Join(parts[1..], sep);
      assert s == parts[0] + [sep] + rest;
      assert s[|parts[0]|] == sep;
      assert Find(s, sep, 0) == Some(|parts[0]|);
      assert s[..|parts[0]|] == parts[0];
      assert s[|parts[0]| + 1..] == rest;
      SplitJoin(parts[1..], sep);
    }
  }

  /** The characters a C function sees through `c_str()`: up to the first NUL. */
  function CStr(s: string): (r: string)
    ensures r <= s
    ensures forall i :: 0 <= i < |r| ==> r[i] != '\0'
    ensures |r| < |s| ==> s[|r|] == '\0'
  {
    match Find(s, '\0', 0)
    case None => s
    case Some(i) => s[..i]
  }

  /** Three decimal numerals joined by `sep`, as `"%d<sep>%d<sep>%d"` prints them. */
  function Triple(a: nat, b: nat, c: nat, sep: char): string
  {
    Dec(a) + [sep] + Dec(b) + [sep] + Dec(c)
  }

  /**
   * In three digit strings joined by dots, the dots are found where they
   * were put and the pieces between them are the digit strings.
   */
  lemma DottedTriple(x: string, y: string, z: string)
    requires AllDigits(x) && AllDigits(y) && AllDigits(z)
    ensures var s := x + ['.'] + y + ['.'] + z;
      Find(s, '.', 0) == Some(|x|) &&
      Find(s, '.', |x| + 1) == Some(|x| + 1 + |y|) &&
      s[..|x|] == x && s[|x| + 1..|x| + 1 + |y|] == y && s[|x| + 2 + |y|..] == z
  {
    DottedFirst(x, y, z);
    DottedSecond(x, y, z);
    DottedPieces(x, y, z);
  }

  lemma DottedFirst(x: string, y: string, z: string)
    requires AllDigits(x)
    ensures Find(x + ['.'] + y + ['.'] + z, '.', 0) == Some(|x|)
  {
    var s := x + ['.'] + y + ['.'] + z;
    forall k | 0 <= k < |x|
      ensures s[k] != '.'
    {
      assert s[k] == x[k] && IsDigit(x[k]);
    }
    FindAt(s, '.', 0, |x|);
  }

  lemma DottedSecond(x: string, y: string, z: string)
    requires AllDigits(y)
    ensures Find(x + ['.'] + y + ['.'] + z, '.', |x| + 1) == Some(|x| + 1 + |y|)
  {
    var s := x + ['.'] + y + ['.'] + z;
    forall k | |x| + 1 <= k < |x| + 1 + |y|
      ensures s[k] != '.'
    {
      assert s[k] == y[k - |x| - 1] && IsDigit(y[k - |x| - 1]);
    }
    FindAt(s, '.', |x| + 1, |x| + 1 + |y|);
  }

  lemma DottedPieces(x: string, y: string, z: string)
    ensures var s := x + ['.'] + y + ['.'] + z;
      s[..|x|] == x && s[|x| + 1..|x| + 1 + |y|] == y && s[|x| + 2 + |y|..] == z
  {
    var s := x + ['.'] + y + ['.'] + z;
    var rest := y + ['.'] + z;
    assert s == x + ['.'] + rest;
    assert s[..|x|] == x;
    assert s[|x| + 1..] == rest;
    assert s[|x| + 1..|x| + 1 + |y|] == rest[..|y|];
    assert s[|x| + 2 + |y|..] == rest[|y| + 1..];
  }

  /** `Find` stops at the first occurrence at or after `from`. */
  lemma FindAt(s: string, c: char, from: nat, at: nat)
    requires from <= at < |s| && s[at] == c
    requires forall k :: from <= k < at ==> s[k] != c
    ensures Find(s, c, from) == Some(at)
  {
  }

  lemma ReplaceSlashIdempotent(s: string)
    ensures ReplaceSlash(ReplaceSlash(s)) == ReplaceSlash(s)
  {
  }

  /** Text without a slash is left alone. */
  lemma ReplaceSlashIdentity(s: string)
    requires forall i :: 0 <= i < |s| ==> s[i] != '/'
    ensures ReplaceSlash(s) == s
  {
  }

  lemma ReplaceSlashConcat(a: string, b: string)
    ensures ReplaceSlash(a + b) == ReplaceSlash(a) + ReplaceSlash(b)
  {
  }

  lemma ReplaceSlashDigits(x: string)
    requires AllDigits(x)
    ensures ReplaceSlash(x) == x
  {
    forall i | 0 <= i < |x|
      ensures x[i] != '/'
    {
      assert IsDigit(x[i]);
    }
    ReplaceSlashIdentity(x);
  }

  /** Digit strings joined by dots contain no slash. */
  lemma ReplaceSlashDotted(x: string, y: string, z: string)
    requires AllDigits(x) && AllDigits(y) && AllDigits(z)
    ensures ReplaceSlash(x + ['.'] + y + ['.'] + z) == x + ['.'] + y + ['.'] + z
  {
    ReplaceSlashDigits(x);
    ReplaceSlashDigits(y);
    ReplaceSlashDigits(z);
    ReplaceSlashConcat(x, ['.']);
    ReplaceSlashConcat(x + ['.'], y);
    ReplaceSlashConcat(x + ['.'] + y, ['.']);
    ReplaceSlashConcat(x + ['.'] + y + ['.'], z);
    assert ReplaceSlash(['.']) == ['.'];
  }

  /** Replacing slashes by dots in a slash-separated triple gives the dot-separated one. */
  lemma ReplaceSlashTriple(a: nat, b: nat, c: nat)
    ensures ReplaceSlash(Triple(a, b, c, '/')) == Triple(a, b, c, '.')
    ensures |Triple(a, b, c, '.')| == |Triple(a, b, c, '/')|
  {
    var s, t := Triple(a, b, c, '/'), Triple(a, b, c, '.');
    assert |s| == |t|;
    forall i | 0 <= i < |s|
      ensures ReplaceSlash(s)[i] == t[i]
    {
      if i < |Dec(a)| {
        assert s[i] == Dec(a)[i] && t[i] == Dec(a)[i];
      } else if i == |Dec(a)| {
      } else if i < |Dec(a)| + 1 + |Dec(b)| {
        assert s[i] == Dec(b)[i - |Dec(a)| - 1] && t[i] == Dec(b)[i - |Dec(a)| - 1];
      } else if i == |Dec(a)| + 1 + |Dec(b)| {
      } else {
        assert s[i] == Dec(c)[i - |Dec(a)| - 2 - |Dec(b)|];
        assert t[i] == Dec(c)[i - |Dec(a)| - 2 - |Dec(b)|];
      }
    }
  }

  /** Numbers below 100, 10 and 1000 print as a triple of at most 8 characters. */
  lemma TripleLength(a: nat, b: nat, c: nat, sep: char)
    requires a < 100 && b < 10 && c < 1000
    ensures |Triple(a, b, c, sep)| <= 8
  {
    DecLength(a, 2, 100);
    DecLength(b, 1, 10);
    DecLength(c, 3, 1000);
  }
}
