/**
 The Python and JavaScript string operations the system relies on, over `seq<char>`:
 substring test, ASCII lower-casing, `split`, `strip`, and decimal numerals.
 */
module Strings {

  datatype Option<+T> = None | Some(value: T)

  /* ---------- substring test: `w in s`, `s.includes(w)` ---------- */

  predicate MatchesAt(s: string, i: nat, w: string) {
    i <= |s| && w <= s[i..]
  }

  predicate Contains(s: string, w: string) {
    exists i: nat | i <= |s| :: MatchesAt(s, i, w)
  }

  lemma ContainsMiddle(a: string, w: string, b: string)
    ensures Contains(a + w + b, w)
  {
    assert MatchesAt(a + w + b, |a|, w);
  }

  /** A word that does not use the character `c` never straddles it. */
  lemma ContainsAcross(a: string, c: char, b: string, w: string)
    requires c !in w
    ensures Contains(a + [c] + b, w) <==> Contains(a, w) || Contains(b, w)
  {
    var s := a + [c] + b;
    if Contains(a, w) {
      var i: nat :| i <= |a| && MatchesAt(a, i, w);
      assert MatchesAt(s, i, w);
    }
    if Contains(b, w) {
      var i: nat :| i <= |b| && MatchesAt(b, i, w);
      assert s[|a| + 1 + i..] == b[i..];
      assert MatchesAt(s, |a| + 1 + i, w);
    }
    if Contains(s, w) {
      var i: nat :| i <= |s| && MatchesAt(s, i, w);
      MatchAcross(a, c, b, w, i);
    }
  }

  lemma MatchAcross(a: string, c: char, b: string, w: string, i: nat)
    requires c !in w && MatchesAt(a + [c] + b, i, w)
    ensures MatchesAt(a, i, w) || (i > |a| && MatchesAt(b, i - |a| - 1, w))
  {
    var s := a + [c] + b;
    if i > |a| {
      assert s[i..] == b[i - |a| - 1..];
    } else {
      assert s[i..][|a| - i] == c;
      assert s[i..] == a[i..] + [c] + b;
    }
  }

  lemma NotContainsIfMissing(s: string, w: string, k: nat)
    requires k < |w| && w[k] !in s
    ensures !Contains(s, w)
  {
  }

  lemma ContainsTransitive(s: string, w: string, v: string)
    requires Contains(s, w) && Contains(w, v)
    ensures Contains(s, v)
  {
    var i: nat :| i <= |s| && MatchesAt(s, i, w);
    var j: nat :| j <= |w| && MatchesAt(w, j, v);
    assert w[j..] <= s[i..][j..] == s[i + j..];
    assert MatchesAt(s, i + j, v);
  }

  /* ---------- lower-casing, ASCII letters only ---------- */

  function LowerChar(c: char): char {
    if 'A' <= c <= 'Z' then (c as int + 32) as char else c
  }

  function Lower(s: string): (r: string)
    ensures |r| == |s|
    ensures forall i | 0 <= i < |s| :: r[i] == LowerChar(s[i])
  {
    seq(|s|, i requires 0 <= i < |s| => LowerChar(s[i]))
  }

  /** The 26 capitals become their small letters. */
  lemma LowerLetters(i: nat)
    requires i < 26
    ensures LowerChar("ABCDEFGHIJKLMNOPQRSTUVWXYZ"[i]) == "abcdefghijklmnopqrstuvwxyz"[i]
  {
  }

  /** Every other character stays. */
  lemma OnlyLetters(c: char)
    requires LowerChar(c) != c
    ensures c in "ABCDEFGHIJKLMNOPQRSTUVWXYZ"
  {
    assert "ABCDEFGHIJKLMNOPQRSTUVWXYZ"[c as int - 'A' as int] == c;
  }

  predicate IsLower(s: string) {
    forall i | 0 <= i < |s| :: !('A' <= s[i] <= 'Z')
  }

  lemma LowerFixed(s: string)
    requires IsLower(s)
    ensures Lower(s) == s
  {
  }

  lemma LowerConcat(a: string, b: string)
    ensures Lower(a + b) == Lower(a) + Lower(b)
  {
  }

  lemma LowerKeeps(a: string, w: string)
    requires Contains(a, w) && Lower(w) == w
    ensures Contains(Lower(a), w)
  {
    var i: nat :| i <= |a| && MatchesAt(a, i, w);
    assert a == a[..i] + w + a[i + |w|..];
    LowerConcat(a[..i] + w, a[i + |w|..]);
    LowerConcat(a[..i], w);
    ContainsMiddle(Lower(a[..i]), w, Lower(a[i + |w|..]));
  }

  /* ---------- split and join ---------- */

  function IndexOf(s: string, w: string): (r: Option<nat>)
    ensures r.Some? ==> MatchesAt(s, r.value, w) && forall j: nat | j < r.value :: !MatchesAt(s, j, w)
    ensures r.None? ==> !Contains(s, w)
  {
    if w <= s then assert s[0..] == s; Some(0)
    else if s == [] then None
    else
      assert forall j: nat | 0 < j <= |s| :: MatchesAt(s, j, w) == MatchesAt(s[1..], j - 1, w) by {
        assert forall j: nat | 0 < j <= |s| :: s[j..] == s[1..][j - 1..];
      }
      assert s[0..] == s;
      match IndexOf(s[1..], w)
      case None => None
      case Some(i) => Some(i + 1)
  }

  lemma IndexOfIs(s: string, w: string, i: nat)
    requires i <= |s| && MatchesAt(s, i, w)
    requires forall j: nat | j < i :: !MatchesAt(s, j, w)
    ensures IndexOf(s, w) == Some(i)
  {
  }

  /** Python's `s.split(sep)` for a nonempty separator. */
  function Split(s: string, sep: string): (parts: seq<string>)
    requires sep != []
    ensures |parts| >= 1
    decreases |s|
  {
    match IndexOf(s, sep)
    case None => [s]
    case Some(i) => [s[..i]] + Split(s[i + |sep|..], sep)
  }

  function Join(parts: seq<string>, sep: string): string {
    if parts == [] then []
    else if |parts| == 1 then parts[0]
    else parts[0] + sep + Join(parts[1..], sep)
  }

  lemma CutAtMatch(s: string, i: nat, w: string)
    requires MatchesAt(s, i, w)
    ensures s == s[..i] + w + s[i + |w|..]
  {
  }

  /** `sep.join(s.split(sep)) == s` */
  lemma {:induction false} SplitJoin(s: string, sep: string)
    requires sep != []
    ensures Join(Split(s, sep), sep) == s
    decreases |s|
  {
    match IndexOf(s, sep)
    case None =>
    case Some(i) =>
      var rest := s[i + |sep|..];
      SplitJoin(rest, sep);
      JoinCons(s[..i], Split(rest, sep), sep);
      CutAtMatch(s, i, sep);
  }

  lemma IndexFirst(s: string, w: string, i: nat)
    requires w != [] && IndexOf(s, w) == Some(i)
    ensures i <= |s| && !Contains(s[..i], w)
  {
    hide Contains;
    NoneBefore(s, i, w);
  }

  /** No piece of `s.split(sep)` holds the separator. */
  lemma {:induction false} SplitPieces(s: string, sep: string, k: nat)
    requires sep != [] && k < |Split(s, sep)|
    ensures !Contains(Split(s, sep)[k], sep)
    decreases |s|
  {
    hide Contains, MatchesAt, IndexOf, Split;
    SplitOnce(s, sep);
    match IndexOf(s, sep)
    case None =>
    case Some(i) =>
      IndexFirst(s, sep, i);
      if k > 0 {
        SplitPieces(s[i + |sep|..], sep, k - 1);
      }
  }

  lemma SplitOnce(s: string, sep: string)
    requires sep != []
    ensures match IndexOf(s, sep)
            case None => Split(s, sep) == [s] && !Contains(s, sep)
            case Some(i) => i + |sep| <= |s| && Split(s, sep) == [s[..i]] + Split(s[i + |sep|..], sep)
  {
  }

  lemma JoinCons(p: string, rest: seq<string>, sep: string)
    requires rest != []
    ensures Join([p] + rest, sep) == p + sep + Join(rest, sep)
  {
  }

  lemma NoneBefore(s: string, i: nat, w: string)
    requires i <= |s|
    requires forall j: nat | j < i :: !MatchesAt(s, j, w)
    requires w != []
    ensures !Contains(s[..i], w)
  {
    forall j: nat | j <= i && MatchesAt(s[..i], j, w)
      ensures false
    {
      MatchWidens(s, i, j, w);
    }
  }

  lemma MatchWidens(s: string, i: nat, j: nat, w: string)
    requires i <= |s| && MatchesAt(s[..i], j, w)
    ensures MatchesAt(s, j, w) && j + |w| <= i
  {
  }

  /* ---------- whitespace and strip ---------- */

  predicate IsSpace(c: char) {
    c == ' ' || '\t' <= c <= '\r' || '\U{1C}' <= c <= '\U{1F}'
  }

  /** The ASCII characters Python takes for whitespace. */
  lemma SpacesAre(c: char)
    ensures IsSpace(c) <==>
      c in {' ', '\t', '\n', '\U{0B}', '\U{0C}', '\r', '\U{1C}', '\U{1D}', '\U{1E}', '\U{1F}'}
  {
  }

  function StripLeft(s: string): (r: string)
    ensures r == [] || !IsSpace(r[0])
  {
    if s != [] && IsSpace(s[0]) then StripLeft(s[1..]) else s
  }

  /** Only whitespace is cut off. */
  lemma {:induction false} StripLeftSpan(s: string) returns (a: nat)
    ensures a <= |s| && StripLeft(s) == s[a..] && forall i | 0 <= i < a :: IsSpace(s[i])
    ensures a < |s| ==> !IsSpace(s[a])
  {
    hide IsSpace;
    if s != [] && IsSpace(s[0]) {
      var b := StripLeftSpan(s[1..]);
      a := b + 1;
      assert s[1..][b..] == s[a..];
      assert forall i | 0 < i < a :: s[i] == s[1..][i - 1];
    } else {
      a := 0;
      assert s[0..] == s;
    }
  }

  function StripRight(s: string): (r: string)
    ensures r == [] || !IsSpace(r[|r| - 1])
    ensures r <= s && forall i | |r| <= i < |s| :: IsSpace(s[i])
  {
    if s != [] && IsSpace(s[|s| - 1]) then StripRight(s[..|s| - 1]) else s
  }

  function Strip(s: string): string {
    StripRight(StripLeft(s))
  }

  /** No whitespace at either end. */
  predicate Stripped(s: string) {
    s == [] || (!IsSpace(s[0]) && !IsSpace(s[|s| - 1]))
  }

  lemma StripOfStripped(s: string)
    requires Stripped(s)
    ensures Strip(s) == s && Strip(" " + s) == s
  {
  }

  /* ---------- decimal numerals ---------- */

  predicate IsDigit(c: char) {
    '0' <= c <= '9'
  }

  predicate AllDigits(s: string) {
    forall i | 0 <= i < |s| :: IsDigit(s[i])
  }

  function DigitChar(d: nat): (c: char)
    requires d < 10
    ensures IsDigit(c) && c as int - '0' as int == d
  {
    ('0' as int + d) as char
  }

  /** `str(n)` */
  function Decimal(n: nat): (s: string)
    ensures s != [] && AllDigits(s)
  {
    if n < 10 then [DigitChar(n)] else Decimal(n / 10) + [DigitChar(n % 10)]
  }

  /** `int(s)` on a run of digits */
  function ParseDecimal(s: string): nat
    requires AllDigits(s)
  {
    if s == [] then 0
    else 10 * ParseDecimal(s[..|s| - 1]) + (s[|s| - 1] as int - '0' as int)
  }

  lemma {:induction false} ParseOfDecimal(n: nat)
    ensures ParseDecimal(Decimal(n)) == n
  {
    if n >= 10 {
      ParseOfDecimal(n / 10);
      assert Decimal(n)[..|Decimal(n)| - 1] == Decimal(n / 10);
    }
  }

  function PowerOfTen(n: nat): nat {
    if n == 0 then 1 else 10 * PowerOfTen(n - 1)
  }

  lemma TenTimes(x: nat, p: nat)
    ensures 10 * (x * p) == x * (10 * p)
  {
  }

  /** Decimal notation: digits further left count for more. */
  lemma {:induction false} ParseAppend(a: string, b: string)
    requires AllDigits(a) && AllDigits(b)
    ensures ParseDecimal(a + b) == ParseDecimal(a) * PowerOfTen(|b|) + ParseDecimal(b)
  {
    if b == [] {
      assert a + b == a;
    } else {
      var n := |b| - 1;
      assert (a + b)[..|a + b| - 1] == a + b[..n] && (a + b)[|a + b| - 1] == b[n];
      ParseAppend(a, b[..n]);
      TenTimes(ParseDecimal(a), PowerOfTen(n));
      hide AllDigits;
    }
  }
}
