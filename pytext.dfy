/**
 * The parts of Python's `str` methods and of `posixpath` that the tether
 * program relies on: `lower`, `startswith`, `strip`, `str(n)` for a natural
 * number, `os.path.splitext`, `os.path.basename` and `os.path.join`.
 */
module PyText {

  /** ASCII lower-casing of one character (see README for non-ASCII text). */
  function LowerChar(c: char): char
  {
    if 'A' <= c <= 'Z' then (c as int + 32) as char else c
  }

  /** `s.lower()`. */
  function Lower(s: string): (r: string)
    ensures |r| == |s|
    ensures forall i :: 0 <= i < |s| ==> r[i] == LowerChar(s[i])
  {
    seq(|s|, i requires 0 <= i < |s| => LowerChar(s[i]))
  }

  /** `s.startswith(prefix)`. */
  predicate StartsWith(s: string, prefix: string)
  {
    |prefix| <= |s| && s[..|prefix|] == prefix
  }

  /** `s.endswith(suffix)`. */
  predicate EndsWith(s: string, suffix: string)
  {
    |suffix| <= |s| && s[|s| - |suffix|..] == suffix
  }

  /** `s.rfind(c)`: the last index holding `c`, or -1. */
  function RFind(s: string, c: char): (r: int)
    ensures -1 <= r < |s|
    ensures 0 <= r ==> s[r] == c
    ensures forall i :: r < i < |s| ==> s[i] != c
    decreases |s|
  {
    if |s| == 0 then -1
    else if s[|s| - 1] == c then |s| - 1
    else RFind(s[..|s| - 1], c)
  }

  /** True when every character of `s[lo..hi]` is a dot. */
  predicate AllDots(s: string, lo: int, hi: int)
    requires 0 <= lo <= hi <= |s|
  {
    forall i :: lo <= i < hi ==> s[i] == '.'
  }

  /**
   * `os.path.splitext(p)`: the extension starts at the last dot after the last
   * slash, unless everything between that slash and the dot is dots (so
   * ".bashrc" and "..x" have no extension).
   */
  function SplitExt(p: string): (r: (string, string))
    ensures r.0 + r.1 == p
    ensures r.1 != "" ==> r.1[0] == '.' && forall i :: 1 <= i < |r.1| ==> r.1[i] != '.' && r.1[i] != '/'
  {
    var sep := RFind(p, '/');
    var dot := RFind(p, '.');
    if dot > sep && !AllDots(p, sep + 1, dot) then (p[..dot], p[dot..]) else (p, "")
  }

  /** `os.path.splitext(p)[1]`. */
  function Ext(p: string): string
  {
    SplitExt(p).1
  }

  /** `os.path.splitext(p)[0]`. */
  function Stem(p: string): string
  {
    SplitExt(p).0
  }

  /** `os.path.basename(p)`: everything after the last slash. */
  function Basename(p: string): (r: string)
    ensures '/' !in r
    ensures |r| <= |p| && p[|p| - |r|..] == r
    ensures |r| < |p| ==> p[|p| - |r| - 1] == '/'
  {
    var k := RFind(p, '/') + 1;
    assert forall j :: 0 <= j < |p| - k ==> p[k..][j] == p[k + j];
    p[k..]
  }

  /** `os.path.join(a, b)` for two components on a POSIX system. */
  function Join(a: string, b: string): string
  {
    if StartsWith(b, "/") then b
    else if a == "" || a[|a| - 1] == '/' then a + b
    else a + "/" + b
  }

  function DigitChar(d: nat): char
    requires d < 10
  {
    ('0' as int + d) as char
  }

  /** `str(n)` for a natural number: its decimal digits, without leading zeros. */
  function DecimalString(n: nat): (r: string)
    ensures 1 <= |r|
    ensures forall i :: 0 <= i < |r| ==> '0' <= r[i] <= '9'
  {
    if n < 10 then [DigitChar(n)] else DecimalString(n / 10) + [DigitChar(n % 10)]
  }

  /** Different numbers have different decimal strings. */
  lemma {:induction false} DecimalStringInjective(a: nat, b: nat)
    requires DecimalString(a) == DecimalString(b)
    ensures a == b
  {
    var da, db := DecimalString(a), DecimalString(b);
    if a < 10 && b < 10 {
      assert da[0] == db[0];
    } else if 10 <= a && 10 <= b {
      assert da[|da| - 1] == db[|db| - 1];
      assert DigitChar(a % 10) == DigitChar(b % 10);
      assert a % 10 == b % 10;
      assert DecimalString(a / 10) == da[..|da| - 1];
      assert DecimalString(b / 10) == db[..|db| - 1];
      DecimalStringInjective(a / 10, b / 10);
    }
  }

  /** Python's `str.isspace()` for one character. */
  predicate IsSpace(c: char)
  {
    c == ' ' || '\t' <= c <= '\r' || '\U{1C}' <= c <= '\U{1F}' || c == '\U{85}' || c == '\U{A0}'
    || c == '\U{1680}' || '\U{2000}' <= c <= '\U{200A}' || c == '\U{2028}' || c == '\U{2029}'
    || c == '\U{202F}' || c == '\U{205F}' || c == '\U{3000}'
  }

  function StripLeft(s: string): string
    decreases |s|
  {
    if |s| > 0 && IsSpace(s[0]) then StripLeft(s[1..]) else s
  }

  function StripRight(s: string): string
    decreases |s|
  {
    if |s| > 0 && IsSpace(s[|s| - 1]) then StripRight(s[..|s| - 1]) else s
  }

  /** `s.strip()`. */
  function Strip(s: string): string
  {
    StripRight(StripLeft(s))
  }

  lemma {:induction false} StripLeftEmpty(s: string)
    ensures StripLeft(s) == "" <==> forall i :: 0 <= i < |s| ==> IsSpace(s[i])
    decreases |s|
  {
    if |s| > 0 && IsSpace(s[0]) {
      StripLeftEmpty(s[1..]);
      assert forall i :: 1 <= i < |s| ==> s[i] == s[1..][i - 1];
    }
  }

  lemma {:induction false} StripRightEmpty(s: string)
    ensures StripRight(s) == "" <==> forall i :: 0 <= i < |s| ==> IsSpace(s[i])
    decreases |s|
  {
    if |s| > 0 && IsSpace(s[|s| - 1]) {
      StripRightEmpty(s[..|s| - 1]);
    }
  }

  /** The number of leading whitespace characters `lstrip` removes. */
  function LeadingSpaces(s: string): (k: nat)
    ensures k <= |s|
    decreases |s|
  {
    if |s| > 0 && IsSpace(s[0]) then 1 + LeadingSpaces(s[1..]) else 0
  }

  lemma {:induction false} StripLeftDrops(s: string)
    ensures StripLeft(s) == s[LeadingSpaces(s)..]
    ensures forall i :: 0 <= i < LeadingSpaces(s) ==> IsSpace(s[i])
    decreases |s|
  {
    if |s| > 0 && IsSpace(s[0]) {
      StripLeftDrops(s[1..]);
      var k := LeadingSpaces(s[1..]);
      assert s[1..][k..] == s[k + 1..];
      forall i | 0 <= i < k + 1
        ensures IsSpace(s[i])
      {
        if i > 0 {
          assert s[i] == s[1..][i - 1];
        }
      }
    } else {
      assert s == s[0..];
    }
  }

  /** `s.strip()` is empty exactly when `s` consists of whitespace only. */
  lemma StripEmpty(s: string)
    ensures Strip(s) == "" <==> forall i :: 0 <= i < |s| ==> IsSpace(s[i])
  {
    StripLeftDrops(s);
    var k := LeadingSpaces(s);
    StripRightEmpty(s[k..]);
    forall i | k <= i < |s|
      ensures s[i] == s[k..][i - k]
    {
    }
  }
}
