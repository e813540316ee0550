/**
 * The Python string operations the crash reporter relies on, written out over
 * `string` (a sequence of code points): `startswith`, the `in` substring test,
 * `split` on one character and `join`, `strip`/`rstrip`, `str(n)` for a natural
 * number, `repr` of a string and of a list of strings, and code-point order.
 */
module Text {

  /** Python `s.startswith(p)` */
  predicate StartsWith(s: string, p: string) {
    |p| <= |s| && s[..|p|] == p
  }

  /** `needle` occurs in `hay` at offset `i` */
  predicate OccursAt(hay: string, needle: string, i: int) {
    0 <= i && i + |needle| <= |hay| && hay[i..i + |needle|] == needle
  }

  /** Python `needle in hay` for two strings: the substring test (case-sensitive) */
  predicate Contains(hay: string, needle: string)
    decreases |hay|
  {
    StartsWith(hay, needle) || (|hay| > 0 && Contains(hay[1..], needle))
  }

  /** `Contains` is exactly "occurs at some offset" */
  lemma {:induction false} ContainsIff(hay: string, needle: string)
    ensures Contains(hay, needle) <==> exists i :: OccursAt(hay, needle, i)
    decreases |hay|
  {
    if StartsWith(hay, needle) {
      assert OccursAt(hay, needle, 0);
    } else if |hay| > 0 {
      ContainsIff(hay[1..], needle);
      if Contains(hay[1..], needle) {
        var i :| OccursAt(hay[1..], needle, i);
        assert hay[i + 1..i + 1 + |needle|] == hay[1..][i..i + |needle|];
        assert OccursAt(hay, needle, i + 1);
      }
      if exists i :: OccursAt(hay, needle, i) {
        var i :| OccursAt(hay, needle, i);
        assert i != 0;
        assert hay[1..][i - 1..i - 1 + |needle|] == hay[i..i + |needle|];
        assert OccursAt(hay[1..], needle, i - 1);
      }
    } else {
      assert forall i :: !OccursAt(hay, needle, i);
    }
  }

  /** A string contains whatever sits in its middle */
  lemma ContainsInfix(x: string, y: string, z: string)
    ensures Contains(x + y + z, y)
  {
    assert (x + y + z)[|x|..|x| + |y|] == y;
    assert OccursAt(x + y + z, y, |x|);
    ContainsIff(x + y + z, y);
  }

  /** A substring of a substring is a substring */
  lemma ContainsTransitive(a: string, b: string, c: string)
    requires Contains(a, b) && Contains(b, c)
    ensures Contains(a, c)
  {
    ContainsIff(a, b);
    ContainsIff(b, c);
    var i :| OccursAt(a, b, i);
    var j :| OccursAt(b, c, j);
    var inA := a[i + j..i + j + |c|];
    var inB := b[j..j + |c|];
    forall k | 0 <= k < |c|
      ensures inA[k] == inB[k]
    {
      assert a[i + j + k] == a[i..i + |b|][j + k];
    }
    assert inA == inB;
    assert OccursAt(a, c, i + j);
    ContainsIff(a, c);
  }

  /** Every part shows up in `sep.join(parts)` */
  lemma {:induction false} ContainsJoinPart(sep: string, parts: seq<string>, k: nat)
    requires k < |parts|
    ensures Contains(JoinStrings(sep, parts), parts[k])
    decreases |parts|
  {
    if |parts| == 1 {
      ContainsInfix("", parts[0], "");
      assert "" + parts[0] + "" == parts[0];
    } else if k == 0 {
      ContainsInfix("", parts[0], sep + JoinStrings(sep, parts[1..]));
      assert "" + parts[0] + (sep + JoinStrings(sep, parts[1..])) == JoinStrings(sep, parts);
    } else {
      var rest := JoinStrings(sep, parts[1..]);
      ContainsJoinPart(sep, parts[1..], k - 1);
      ContainsInfix(parts[0] + sep, rest, "");
      assert parts[0] + sep + rest + "" == JoinStrings(sep, parts);
      ContainsTransitive(JoinStrings(sep, parts), rest, parts[k]);
    }
  }

  /** `sep.join(parts)` holds a character only when the separator or a part does */
  lemma {:induction false} JoinAvoids(sep: string, parts: seq<string>, c: char)
    requires c !in sep && forall k :: 0 <= k < |parts| ==> c !in parts[k]
    ensures c !in JoinStrings(sep, parts)
    decreases |parts|
  {
    if |parts| > 1 {
      JoinAvoids(sep, parts[1..], c);
    }
  }

  /** A string holds every character of every string it contains */
  lemma ContainsChar(hay: string, needle: string, c: char)
    requires Contains(hay, needle) && c in needle
    ensures c in hay
  {
    ContainsIff(hay, needle);
    var i :| OccursAt(hay, needle, i);
    var k :| 0 <= k < |needle| && needle[k] == c;
    assert hay[i + k] == hay[i..i + |needle|][k];
  }

  /** The symmetric similarity test of the suggestion lists: either string contains the other */
  predicate Similar(a: string, b: string) {
    Contains(a, b) || Contains(b, a)
  }

  /** Index of the first occurrence of `c` in `s` */
  function IndexOf(s: string, c: char): (i: nat)
    requires c in s
    ensures i < |s| && s[i] == c && c !in s[..i]
  {
    if s[0] == c then 0
    else
      var j := IndexOf(s[1..], c);
      assert s[..j + 1] == [s[0]] + s[1..][..j];
      j + 1
  }

  /** Python `s.split(c)` for a one-character separator */
  function SplitOn(s: string, c: char): (parts: seq<string>)
    ensures |parts| >= 1
    ensures forall k :: 0 <= k < |parts| ==> c !in parts[k]
    decreases |s|
  {
    if c !in s then [s]
    else
      var i := IndexOf(s, c);
      [s[..i]] + SplitOn(s[i + 1..], c)
  }

  /** Python `c.join(parts)` for a one-character separator */
  function JoinOn(parts: seq<string>, c: char): string
    requires |parts| >= 1
  {
    if |parts| == 1 then parts[0] else parts[0] + [c] + JoinOn(parts[1..], c)
  }

  /** Joining the parts of a split gives back the original string */
  lemma {:induction false} JoinSplit(s: string, c: char)
    ensures JoinOn(SplitOn(s, c), c) == s
    decreases |s|
  {
    if c in s {
      var i := IndexOf(s, c);
      var rest := SplitOn(s[i + 1..], c);
      var parts := [s[..i]] + rest;
      assert SplitOn(s, c) == parts;
      assert parts[0] == s[..i] && parts[1..] == rest && |parts| > 1;
      JoinSplit(s[i + 1..], c);
      assert JoinOn(parts, c) == s[..i] + [c] + JoinOn(rest, c);
      assert s == s[..i] + [c] + s[i + 1..];
    }
  }

  /** Splitting a join of separator-free parts gives back the parts */
  lemma {:induction false} SplitJoin(parts: seq<string>, c: char)
    requires |parts| >= 1
    requires forall k :: 0 <= k < |parts| ==> c !in parts[k]
    ensures SplitOn(JoinOn(parts, c), c) == parts
  {
    if |parts| > 1 {
      SplitJoin(parts[1..], c);
      var s := JoinOn(parts, c);
      assert s == parts[0] + [c] + JoinOn(parts[1..], c);
      assert s[|parts[0]|] == c;
      assert s[..|parts[0]|] == parts[0];
      assert IndexOf(s, c) == |parts[0]|;
      assert s[|parts[0]| + 1..] == JoinOn(parts[1..], c);
    }
  }

  /** The text of `s` before its first `c`, or all of `s` when it has none */
  function Before(s: string, c: char): (r: string)
    ensures c !in r && StartsWith(s, r)
    ensures c in s ==> |r| < |s| && s[|r|] == c
  {
    if c in s then s[..IndexOf(s, c)] else s
  }

  /** The text of `s` after its first `c` */
  function After(s: string, c: char): (r: string)
    requires c in s
    ensures s == Before(s, c) + [c] + r
  {
    s[IndexOf(s, c) + 1..]
  }

  /** `split(c)[0]` is the text before the first `c`; `split(c)[1]` is the text between the first and second `c` */
  lemma SplitFields(s: string, c: char)
    ensures SplitOn(s, c)[0] == Before(s, c)
    ensures c in s ==> |SplitOn(s, c)| >= 2 && SplitOn(s, c)[1] == Before(After(s, c), c)
  {
  }

  /** Python `s.lstrip(cs)` */
  function LStrip(s: string, cs: set<char>): (r: string)
    ensures |r| <= |s| && r == s[|s| - |r|..]
    ensures r == [] || r[0] !in cs
    ensures forall k :: 0 <= k < |s| - |r| ==> s[k] in cs
  {
    if |s| > 0 && s[0] in cs then LStrip(s[1..], cs) else s
  }

  /** Python `s.rstrip(cs)` */
  function RStrip(s: string, cs: set<char>): (r: string)
    ensures |r| <= |s| && r == s[..|r|]
    ensures r == [] || r[|r| - 1] !in cs
    ensures forall k :: |r| <= k < |s| ==> s[k] in cs
  {
    if |s| > 0 && s[|s| - 1] in cs then RStrip(s[..|s| - 1], cs) else s
  }

  /** Python `s.strip(cs)`: the longest middle part that neither starts nor ends with a character of `cs` */
  function Strip(s: string, cs: set<char>): (r: string)
    ensures exists i :: OccursAt(s, r, i)
                        && (forall k :: 0 <= k < i ==> s[k] in cs)
                        && (forall k :: i + |r| <= k < |s| ==> s[k] in cs)
    ensures r == [] || (r[0] !in cs && r[|r| - 1] !in cs)
  {
    var l := LStrip(s, cs);
    var r := RStrip(l, cs);
    StripAt(s, l, r, cs);
    r
  }

  /** Where the stripped text sits: `r`, a prefix of the suffix `l` of `s`, occurs in `s` where `l` starts,
      and what follows it in `s` is what `rstrip` removed from `l` */
  lemma StripAt(s: string, l: string, r: string, cs: set<char>)
    requires |l| <= |s| && l == s[|s| - |l|..]
    requires |r| <= |l| && r == l[..|r|]
    requires forall k :: |r| <= k < |l| ==> l[k] in cs
    ensures OccursAt(s, r, |s| - |l|)
    ensures forall k :: |s| - |l| + |r| <= k < |s| ==> s[k] in cs
  {
    var i := |s| - |l|;
    assert s[i..i + |r|] == r;
    forall k | i + |r| <= k < |s| ensures s[k] in cs {
      assert s[k] == l[k - i];
    }
  }

  /** The characters Python's `str.isspace` accepts, which `strip()` and `rstrip()` remove */
  const PyWhitespace: set<char> :=
    {'\U{9}', '\U{A}', '\U{B}', '\U{C}', '\U{D}', '\U{1C}', '\U{1D}', '\U{1E}',
     '\U{1F}', '\U{20}', '\U{85}', '\U{A0}', '\U{1680}', '\U{2000}', '\U{2001}', '\U{2002}',
     '\U{2003}', '\U{2004}', '\U{2005}', '\U{2006}', '\U{2007}', '\U{2008}', '\U{2009}', '\U{200A}',
     '\U{2028}', '\U{2029}', '\U{202F}', '\U{205F}', '\U{3000}'}

  /** `n` copies of `c`, as Python's `c * n` */
  function Repeat(c: char, n: nat): (r: string)
    ensures |r| == n && forall k :: 0 <= k < n ==> r[k] == c
  {
    seq(n, _ => c)
  }

  predicate IsDigit(c: char) {
    '0' <= c <= '9'
  }

  function DigitChar(d: nat): (c: char)
    requires d < 10
    ensures IsDigit(c) && c as int - '0' as int == d
  {
    (48 + d) as char
  }

  /** Python `str(n)` for a natural number: its decimal digits */
  function NatToString(n: nat): (s: string)
    ensures |s| >= 1 && forall k :: 0 <= k < |s| ==> IsDigit(s[k])
    ensures |s| > 1 ==> s[0] != '0'
  {
    if n < 10 then [DigitChar(n)] else NatToString(n / 10) + [DigitChar(n % 10)]
  }

  /** The number a string of decimal digits denotes */
  function DigitsValue(s: string): nat
    requires forall k :: 0 <= k < |s| ==> IsDigit(s[k])
  {
    if s == [] then 0
    else
      assert IsDigit(s[|s| - 1]);
      DigitsValue(s[..|s| - 1]) * 10 + (s[|s| - 1] as int - '0' as int)
  }

  /** Reading back the digits of `str(n)` gives `n` */
  lemma {:induction false} NatToStringRoundTrip(n: nat)
    ensures DigitsValue(NatToString(n)) == n
  {
    if n >= 10 {
      NatToStringRoundTrip(n / 10);
      var s := NatToString(n);
      assert s[..|s| - 1] == NatToString(n / 10);
    }
  }

  /** Python `sep.join(parts)` */
  function JoinStrings(sep: string, parts: seq<string>): string {
    if parts == [] then ""
    else if |parts| == 1 then parts[0]
    else parts[0] + sep + JoinStrings(sep, parts[1..])
  }

  /** The quote Python's `repr` puts around a string */
  function ReprQuote(s: string): char {
    if '\'' in s && '"' !in s then '"' else '\''
  }

  /**
   * Characters below U+0100 that `str.isprintable` rejects, which `repr`
   * writes as `\xNN`: the C0 controls, DEL, the C1 controls, the no-break
   * space and the soft hyphen
   */
  predicate Latin1Unprintable(c: char) {
    c as int < 0x20 || 0x7f <= c as int <= 0xa0 || c as int == 0xad
  }

  /** The lower-case hexadecimal digit for `d` */
  function HexDigit(d: int): char
    requires 0 <= d < 16
  {
    "0123456789abcdef"[d]
  }

  /** The value of a hexadecimal digit (0 for any other character) */
  function HexValue(c: char): (v: int)
    ensures 0 <= v < 16
  {
    if '0' <= c <= '9' then c as int - '0' as int
    else if 'a' <= c <= 'f' then c as int - 'a' as int + 10
    else 0
  }

  /** The character written as `\x` followed by the digits `hi` and `lo` */
  function HexChar(hi: char, lo: char): char {
    (HexValue(hi) * 16 + HexValue(lo)) as char
  }

  lemma HexDigitValue(d: int)
    requires 0 <= d < 16
    ensures HexValue(HexDigit(d)) == d
  {
    var digits := "0123456789abcdef";
    assert digits[d] == HexDigit(d);
    if d < 10 {
      assert digits[d] as int == '0' as int + d;
    } else {
      assert digits[d] as int == 'a' as int + d - 10;
    }
  }

  /** Two hexadecimal digits read back as the character they were written for */
  lemma HexRoundTrip(c: char)
    requires c as int < 0x100
    ensures HexChar(HexDigit(c as int / 16), HexDigit(c as int % 16)) == c
  {
    HexDigitValue(c as int / 16);
    HexDigitValue(c as int % 16);
  }

  /** How `repr` writes one character inside quotes `q` */
  function EscapeChar(c: char, q: char): (r: string)
    ensures |r| == 1 || |r| == 2 || |r| == 4
    ensures |r| == 1 <==> r[0] != '\\'
  {
    if c == q || c == '\\' then ['\\', c]
    else if c == '\n' then "\\n"
    else if c == '\r' then "\\r"
    else if c == '\t' then "\\t"
    else if Latin1Unprintable(c) then ['\\', 'x', HexDigit(c as int / 16), HexDigit(c as int % 16)]
    else [c]
  }

  function Escape(s: string, q: char): string {
    if s == [] then [] else EscapeChar(s[0], q) + Escape(s[1..], q)
  }

  /** Reads back the body of a string literal written by `Escape` */
  function Unescape(t: string): string {
    if t == [] then []
    else if t[0] == '\\' && |t| >= 4 && t[1] == 'x' then
      [HexChar(t[2], t[3])] + Unescape(t[4..])
    else if t[0] == '\\' && |t| >= 2 then
      var c := if t[1] == 'n' then '\n' else if t[1] == 'r' then '\r' else if t[1] == 't' then '\t' else t[1];
      [c] + Unescape(t[2..])
    else [t[0]] + Unescape(t[1..])
  }

  /** Python `repr(s)` for a string `s` */
  function PyStrRepr(s: string): (r: string)
    ensures |r| >= 2 && r[0] == r[|r| - 1] == ReprQuote(s)
  {
    var q := ReprQuote(s);
    [q] + Escape(s, q) + [q]
  }

  /** `repr` loses nothing: the quoted body reads back as the original string */
  lemma {:induction false} EscapeRoundTrip(s: string, q: char)
    requires q == '\'' || q == '"'
    ensures Unescape(Escape(s, q)) == s
  {
    if s != [] {
      EscapeRoundTrip(s[1..], q);
      UnescapeOne(s[0], q, Escape(s[1..], q));
    }
  }

  /** Reading back one escaped character consumes exactly what `EscapeChar` wrote */
  lemma UnescapeOne(c: char, q: char, rest: string)
    requires q == '\'' || q == '"'
    ensures Unescape(EscapeChar(c, q) + rest) == [c] + Unescape(rest)
  {
    var e := EscapeChar(c, q);
    var t := e + rest;
    if |e| == 4 {
      HexRoundTrip(c);
      assert t[4..] == rest;
    } else if |e| == 2 {
      assert t[2..] == rest;
    } else {
      assert t[1..] == rest;
    }
  }

  /** The body `repr` writes holds no character `str.isprintable` rejects below U+0100 */
  lemma {:induction false} EscapePrintable(s: string, q: char)
    requires q == '\'' || q == '"'
    ensures forall k :: 0 <= k < |Escape(s, q)| ==> !Latin1Unprintable(Escape(s, q)[k])
  {
    if s != [] {
      EscapePrintable(s[1..], q);
      var e := EscapeChar(s[0], q);
      var t := Escape(s[1..], q);
      forall k | 0 <= k < |e + t| ensures !Latin1Unprintable((e + t)[k]) {
        if k >= |e| {
          assert (e + t)[k] == t[k - |e|];
        }
      }
    }
  }

  /** `repr` loses nothing, and what it writes has no unprintable Latin-1 character */
  lemma PyStrReprRoundTrip(s: string)
    ensures var r := PyStrRepr(s); Unescape(r[1..|r| - 1]) == s
    ensures var r := PyStrRepr(s); forall k :: 0 <= k < |r| ==> !Latin1Unprintable(r[k])
  {
    var r := PyStrRepr(s);
    var q := ReprQuote(s);
    assert r[1..|r| - 1] == Escape(s, q);
    EscapeRoundTrip(s, q);
    EscapePrintable(s, q);
    forall k | 0 <= k < |r| ensures !Latin1Unprintable(r[k]) {
      if 0 < k < |r| - 1 {
        assert r[k] == Escape(s, q)[k - 1];
      }
    }
  }

  /** Python `str(xs)` for a list whose elements print as `items`: `[a, b, c]` */
  function ListRepr(items: seq<string>): string {
    "[" + JoinStrings(", ", items) + "]"
  }

  /** Python `repr` of a list of strings */
  function StrListRepr(xs: seq<string>): string {
    ListRepr(seq(|xs|, k requires 0 <= k < |xs| => PyStrRepr(xs[k])))
  }

  /** Python's `<=` on strings: code-point-wise lexicographic order */
  predicate LexLe(a: string, b: string)
    decreases |a|
  {
    |a| == 0 || (|b| > 0 && (a[0] < b[0] || (a[0] == b[0] && LexLe(a[1..], b[1..]))))
  }

  lemma {:induction false} LexLeTotal(a: string, b: string)
    ensures LexLe(a, b) || LexLe(b, a)
    decreases |a|
  {
    if |a| > 0 && |b| > 0 && a[0] == b[0] {
      LexLeTotal(a[1..], b[1..]);
    }
  }

  lemma {:induction false} LexLeTransitive(a: string, b: string, c: string)
    requires LexLe(a, b) && LexLe(b, c)
    ensures LexLe(a, c)
    decreases |a|
  {
    if |a| > 0 && a[0] == b[0] && b[0] == c[0] {
      LexLeTransitive(a[1..], b[1..], c[1..]);
    }
  }

  lemma {:induction false} LexLeAntisymmetric(a: string, b: string)
    requires LexLe(a, b) && LexLe(b, a)
    ensures a == b
    decreases |a|
  {
    if |a| > 0 {
      LexLeAntisymmetric(a[1..], b[1..]);
      assert a == [a[0]] + a[1..] && b == [b[0]] + b[1..];
    }
  }
}
