/**
 The quantity pattern `(\d+)\s*(?:x\s*|past..s\s+de\s+)?FLAVOUR` of the order parser:
 what the regular expression means, and the leftmost greedy search that runs it.
 */
module Regex {
  import opened Strings

  /* ---------- regular expressions and what they accept ---------- */

  datatype Class = Space | NotNewline

  datatype Regex =
    | Empty
    | Lit(text: string)
    | One(cls: Class)
    | Many(cls: Class, least: nat)
    | Cat(first: Regex, second: Regex)
    | Alt(left: Regex, right: Regex)

  predicate InClass(c: char, cls: Class) {
    match cls
    case Space => IsSpace(c)
    case NotNewline => c != '\n'
  }

  /** `r` accepts the first `n` characters of `t`. */
  predicate Accepts(r: Regex, t: string, n: nat)
    requires n <= |t|
    decreases r
  {
    match r
    case Empty => n == 0
    case Lit(w) => n == |w| && w <= t
    case One(cls) => n == 1 && InClass(t[0], cls)
    case Many(cls, least) => least <= n && forall i | 0 <= i < n :: InClass(t[i], cls)
    case Cat(a, b) => exists k: nat | k <= n :: Accepts(a, t, k) && Accepts(b, t[k..], n - k)
    case Alt(a, b) => Accepts(a, t, n) || Accepts(b, t, n)
  }

  /** `x\s*` */
  const TIMES := Cat(Lit("x"), Many(Space, 0))

  /** `\s+de\s+` */
  const OF := Cat(Many(Space, 1), Cat(Lit("de"), Many(Space, 1)))

  /** `past..s\s+de\s+` */
  const PASTEIS := Cat(Lit("past"), Cat(One(NotNewline), Cat(One(NotNewline), Cat(Lit("s"), OF))))

  /** `\s*(?:x\s*|past..s\s+de\s+)?FLAVOUR`, what follows the captured digits */
  function Tail(flavour: string): Regex {
    Cat(Many(Space, 0), Cat(Alt(Alt(TIMES, PASTEIS), Empty), Lit(flavour)))
  }

  /** Some prefix of `t` is accepted by what follows the digits. */
  predicate Continues(t: string, flavour: string) {
    exists n: nat | n <= |t| :: Accepts(Tail(flavour), t, n)
  }

  /** What the search needs of a flavour phrase: it starts with neither a digit nor a space. */
  predicate IsPhrase(w: string) {
    w != [] && !IsDigit(w[0]) && !IsSpace(w[0])
  }

  /* ---------- the same test without backtracking ---------- */

  /** `u` starts with `past..s\s+de\s+w` */
  predicate PasteisThen(u: string, w: string) {
    && |u| > 7 && "past" <= u && u[4] != '\n' && u[5] != '\n' && u[6] == 's' && IsSpace(u[7])
    && var v := StripLeft(u[7..]);
       && |v| > 2 && "de" <= v && IsSpace(v[2])
       && w <= StripLeft(v[2..])
  }

  predicate ContinuesDirectly(t: string, w: string) {
    var u := StripLeft(t);
    || w <= u
    || ("x" <= u && w <= StripLeft(u[1..]))
    || PasteisThen(u, w)
  }

  predicate Spaces(t: string, k: nat)
    requires k <= |t|
  {
    forall i | 0 <= i < k :: IsSpace(t[i])
  }

  /** A match of `\s*` followed by something that does not start with a space has one length only. */
  lemma {:induction false} SkipSpacesIs(t: string, k: nat)
    requires k <= |t| && Spaces(t, k)
    requires k == |t| || !IsSpace(t[k])
    ensures StripLeft(t) == t[k..]
  {
    if k > 0 {
      SkipSpacesIs(t[1..], k - 1);
      assert t[1..][k - 1..] == t[k..];
    } else {
      assert t[0..] == t;
    }
  }

  lemma SkippedSpaces(t: string) returns (k: nat)
    ensures k <= |t| && Spaces(t, k) && StripLeft(t) == t[k..]
    ensures t != [] && IsSpace(t[0]) ==> k > 0
  {
    k := StripLeftSpan(t);
  }

  lemma LitThen(w: string, r: Regex, t: string, n: nat)
    requires n <= |t|
    ensures Accepts(Cat(Lit(w), r), t, n) <==> |w| <= n && w <= t && Accepts(r, t[|w|..], n - |w|)
  {
  }

  lemma OneThen(cls: Class, r: Regex, t: string, n: nat)
    requires n <= |t|
    ensures Accepts(Cat(One(cls), r), t, n) <==> n > 0 && InClass(t[0], cls) && Accepts(r, t[1..], n - 1)
  {
  }

  lemma SpacesThen(least: nat, r: Regex, t: string, k: nat, n: nat)
    requires least <= k <= n <= |t| && Spaces(t, k) && Accepts(r, t[k..], n - k)
    ensures Accepts(Cat(Many(Space, least), r), t, n)
  {
  }

  lemma SpacesThenOnly(least: nat, r: Regex, t: string, n: nat) returns (k: nat)
    requires n <= |t| && Accepts(Cat(Many(Space, least), r), t, n)
    ensures least <= k <= n && Spaces(t, k) && Accepts(r, t[k..], n - k)
  {
    k :| k <= n && Accepts(Many(Space, least), t, k) && Accepts(r, t[k..], n - k);
  }

  /** `past..s` followed by `r` */
  lemma PastThen(r: Regex, u: string, n: nat)
    requires n <= |u|
    ensures Accepts(Cat(Lit("past"), Cat(One(NotNewline), Cat(One(NotNewline), Cat(Lit("s"), r)))), u, n)
       <==> n >= 7 && "past" <= u && u[4] != '\n' && u[5] != '\n' && u[6] == 's' && Accepts(r, u[7..], n - 7)
  {
    hide Accepts;
    var s := Cat(Lit("s"), r);
    LitThen("past", Cat(One(NotNewline), Cat(One(NotNewline), s)), u, n);
    if n >= 4 {
      OneThen(NotNewline, Cat(One(NotNewline), s), u[4..], n - 4);
      if n >= 5 {
        assert u[4..][1..] == u[5..];
        OneThen(NotNewline, s, u[5..], n - 5);
        if n >= 6 {
          assert u[5..][1..] == u[6..];
          LitThen("s", r, u[6..], n - 6);
          assert n >= 7 ==> u[6..][1..] == u[7..];
        }
      }
    }
  }

  /** `x\s*` */
  lemma TimesIff(u: string, n: nat)
    requires n <= |u|
    ensures Accepts(TIMES, u, n) <==> n > 0 && "x" <= u && Spaces(u[1..], n - 1)
  {
  }

  /** `\s+de\s+` */
  lemma OfAccepts(t: string, j: nat, k: nat)
    requires 1 <= j <= |t| && Spaces(t, j) && "de" <= t[j..]
    requires 1 <= k <= |t| - j - 2 && Spaces(t[j..][2..], k)
    ensures Accepts(OF, t, j + 2 + k)
  {
  }

  lemma OfOnly(t: string, n: nat) returns (j: nat)
    requires n <= |t| && Accepts(OF, t, n)
    ensures 1 <= j && j + 3 <= n && Spaces(t, j) && "de" <= t[j..] && Spaces(t[j..][2..], n - j - 2)
  {
    j := SpacesThenOnly(1, Cat(Lit("de"), Many(Space, 1)), t, n);
    LitThen("de", Many(Space, 1), t[j..], n - j);
  }

  /** `\s*`, the optional group, then the flavour */
  lemma ContinuesIfGroup(t: string, w: string, k: nat, g: Regex, m: nat)
    requires k <= |t| && Spaces(t, k) && m <= |t| - k && w <= t[k..][m..]
    requires g == Alt(Alt(TIMES, PASTEIS), Empty) && Accepts(g, t[k..], m)
    ensures Continues(t, w)
  {
    GroupThenLit(g, w, t[k..], m);
    SpacesThen(0, Cat(g, Lit(w)), t, k, k + m + |w|);
    assert Accepts(Tail(w), t, k + m + |w|);
  }

  lemma GroupThenLit(g: Regex, w: string, u: string, m: nat)
    requires m <= |u| && Accepts(g, u, m) && w <= u[m..]
    ensures Accepts(Cat(g, Lit(w)), u, m + |w|)
  {
  }

  lemma GroupThenLitOnly(g: Regex, w: string, u: string, n: nat) returns (m: nat)
    requires n <= |u| && Accepts(Cat(g, Lit(w)), u, n)
    ensures m <= n && Accepts(g, u, m) && w <= u[m..]
  {
    m :| m <= n && Accepts(g, u, m) && Accepts(Lit(w), u[m..], n - m);
  }

  lemma GroupCases(u: string, m: nat)
    requires m <= |u|
    ensures Accepts(Alt(Alt(TIMES, PASTEIS), Empty), u, m) <==>
            Accepts(TIMES, u, m) || Accepts(PASTEIS, u, m) || m == 0
  {
  }

  lemma DirectImpliesContinues(t: string, w: string)
    requires ContinuesDirectly(t, w)
    ensures Continues(t, w)
  {
    hide Accepts;
    var g := Alt(Alt(TIMES, PASTEIS), Empty);
    var k := SkippedSpaces(t);
    var u := StripLeft(t);
    if w <= u {
      GroupCases(u, 0);
      ContinuesIfGroup(t, w, k, g, 0);
    } else if "x" <= u && w <= StripLeft(u[1..]) {
      var j := SkippedSpaces(u[1..]);
      TimesIff(u, 1 + j);
      GroupCases(u, 1 + j);
      assert u[1..][j..] == u[1 + j..];
      ContinuesIfGroup(t, w, k, g, 1 + j);
    } else {
      var m := PasteisLength(u, w);
      GroupCases(u, m);
      ContinuesIfGroup(t, w, k, g, m);
    }
  }

  lemma PasteisLength(u: string, w: string) returns (m: nat)
    requires PasteisThen(u, w)
    ensures m <= |u| && Accepts(PASTEIS, u, m) && w <= u[m..]
  {
    hide Accepts;
    var t := u[7..];
    var j := SkippedSpaces(t);
    var v := StripLeft(t);
    var l := SkippedSpaces(v[2..]);
    m := 7 + j + 2 + l;
    OfAccepts(t, j, l);
    PastThen(OF, u, m);
    assert v[2..][l..] == u[m..];
  }

  lemma PasteisOnly(u: string, m: nat, w: string)
    requires IsPhrase(w) && m <= |u| && Accepts(PASTEIS, u, m) && w <= u[m..]
    ensures PasteisThen(u, w) && !IsSpace(u[0])
  {
    hide Accepts;
    PastThen(OF, u, m);
    var t := u[7..];
    var j := OfOnly(t, m - 7);
    SkipSpacesIs(t, j);
    var v := t[j..];
    var l := m - 7 - j - 2;
    assert v[2..][l..] == u[m..];
    assert u[m..][0] == w[0];
    SkipSpacesIs(v[2..], l);
  }

  lemma ContinuesImpliesDirect(t: string, w: string)
    requires IsPhrase(w) && Continues(t, w)
    ensures ContinuesDirectly(t, w)
  {
    hide Accepts;
    var g := Alt(Alt(TIMES, PASTEIS), Empty);
    var n: nat :| n <= |t| && Accepts(Tail(w), t, n);
    var k := SpacesThenOnly(0, Cat(g, Lit(w)), t, n);
    var u := t[k..];
    var m := GroupThenLitOnly(g, w, u, n - k);
    GroupCases(u, m);
    assert u[m..][0] == w[0];
    if m == 0 {
      assert u[0..] == u;
    } else if Accepts(TIMES, u, m) {
      TimesIff(u, m);
      assert u[1..][m - 1..] == u[m..];
      SkipSpacesIs(u[1..], m - 1);
    } else {
      PasteisOnly(u, m, w);
    }
    SkipSpacesIs(t, k);
  }

  /** The backtrack-free test decides exactly the regular expression. */
  lemma ContinuesIff(t: string, w: string)
    requires IsPhrase(w)
    ensures Continues(t, w) <==> ContinuesDirectly(t, w)
  {
    if Continues(t, w) { ContinuesImpliesDirect(t, w); }
    if ContinuesDirectly(t, w) { DirectImpliesContinues(t, w); }
  }

  /* ---------- the same as a cut of the text into pieces ---------- */

  predicate AllSpaces(s: string) {
    forall i | 0 <= i < |s| :: IsSpace(s[i])
  }

  /** `m` is an `x` and spaces. */
  predicate TimesForm(m: string, after: string) {
    AllSpaces(after) && m == "x" + after
  }

  /** `m` is "past", two characters, "s", spaces, "de", spaces. */
  predicate PasteisForm(m: string, c: char, d: char, before: string, after: string) {
    && c != '\n' && d != '\n' && before != "" && after != "" && AllSpaces(before) && AllSpaces(after)
    && m == "past" + [c, d] + "s" + before + "de" + after
  }

  ghost predicate Between(m: string) {
    || m == ""
    || (exists after :: TimesForm(m, after))
    || (exists c, d, before, after :: PasteisForm(m, c, d, before, after))
  }

  /** `t` is spaces, one of the three forms, the flavour, and anything. */
  predicate CutInto(t: string, w: string, gap: string, m: string, rest: string) {
    AllSpaces(gap) && t == gap + m + w + rest
  }

  lemma GroupForm(u: string, m: nat)
    requires m <= |u| && Accepts(Alt(Alt(TIMES, PASTEIS), Empty), u, m)
    ensures Between(u[..m])
  {
    GroupCases(u, m);
    hide Accepts;
    if m == 0 {
    } else if Accepts(TIMES, u, m) {
      TimesIff(u, m);
      assert u[..m] == "x" + u[1..m];
      assert forall i | 0 <= i < m - 1 :: u[1..m][i] == u[1..][i];
      assert TimesForm(u[..m], u[1..m]);
    } else {
      PasteisGroupForm(u, m);
    }
  }

  lemma PasteisGroupForm(u: string, m: nat)
    requires m <= |u| && Accepts(PASTEIS, u, m)
    ensures Between(u[..m])
  {
    hide Accepts;
    PastThen(OF, u, m);
    var t := u[7..];
    var j := OfOnly(t, m - 7);
    var before, after := u[7..7 + j], u[9 + j..m];
    assert t[j..][..2] == "de" && t[j..][..2] == u[7 + j..9 + j];
    assert u[..4] == "past";
    assert forall i | 0 <= i < |before| :: before[i] == t[i];
    assert forall i | 0 <= i < |after| :: after[i] == t[j..][2..][i];
    assert u[..m] == u[..4] + [u[4], u[5]] + [u[6]] + before + u[7 + j..9 + j] + after;
    assert PasteisForm(u[..m], u[4], u[5], before, after);
  }

  lemma FormGroup(m: string, y: string)
    requires Between(m)
    ensures Accepts(Alt(Alt(TIMES, PASTEIS), Empty), m + y, |m|)
  {
    var u := m + y;
    hide Accepts;
    if after :| TimesForm(m, after) {
      assert forall i | 0 <= i < |after| :: u[1..][i] == after[i];
      TimesIff(u, |m|);
    } else if c, d, before, after :| PasteisForm(m, c, d, before, after) {
      FormPasteis(m, y, c, d, before, after);
    }
    GroupCases(u, |m|);
  }

  lemma FormPasteis(m: string, y: string, c: char, d: char, before: string, after: string)
    requires PasteisForm(m, c, d, before, after)
    ensures Accepts(PASTEIS, m + y, |m|)
  {
    var u := m + y;
    hide Accepts;
    var t := u[7..];
    assert t == before + "de" + after + y;
    assert t[|before|..] == "de" + after + y && t[|before|..][2..] == after + y;
    OfAccepts(t, |before|, |after|);
    assert u == "past" + [c, d] + "s" + t;
    PastThen(OF, u, |m|);
  }

  /**
   What may follow the digits, in plain words: spaces, nothing or `x` or `past..s de` with their spaces, the flavour.
   */
  lemma ContinuesForms(t: string, w: string)
    ensures Continues(t, w) <==> exists gap, m, rest :: Between(m) && CutInto(t, w, gap, m, rest)
  {
    hide Continues, Between, CutInto;
    if Continues(t, w) { CutFound(t, w); }
    if gap, m, rest :| Between(m) && CutInto(t, w, gap, m, rest) {
      CutContinues(t, w, gap, m, rest);
    }
  }

  lemma CutContinues(t: string, w: string, gap: string, m: string, rest: string)
    requires Between(m) && CutInto(t, w, gap, m, rest)
    ensures Continues(t, w)
  {
    FormGroup(m, w + rest);
    hide Accepts, Between, Continues;
    CutSpaces(t, w, gap, m, rest);
    ContinuesIfGroup(t, w, |gap|, Alt(Alt(TIMES, PASTEIS), Empty), |m|);
  }

  lemma CutSpaces(t: string, w: string, gap: string, m: string, rest: string)
    requires CutInto(t, w, gap, m, rest)
    ensures |gap| + |m| <= |t| && Spaces(t, |gap|)
    ensures t[|gap|..] == m + (w + rest) && t[|gap|..][|m|..] == w + rest
  {
    assert forall i | 0 <= i < |gap| :: t[i] == gap[i];
    assert t[|gap|..] == m + (w + rest);
  }

  lemma CutFound(t: string, w: string)
    requires Continues(t, w)
    ensures exists gap, m, rest :: Between(m) && CutInto(t, w, gap, m, rest)
  {
    hide Accepts;
    var g := Alt(Alt(TIMES, PASTEIS), Empty);
    var n: nat :| n <= |t| && Accepts(Tail(w), t, n);
    var k := SpacesThenOnly(0, Cat(g, Lit(w)), t, n);
    var u := t[k..];
    var l := GroupThenLitOnly(g, w, u, n - k);
    GroupForm(u, l);
    hide Between, Continues;
    Reassembled(t, k, l, w);
    assert CutInto(t, w, t[..k], u[..l], u[l..][|w|..]);
  }

  lemma Reassembled(t: string, k: nat, l: nat, w: string)
    requires k <= |t| && l <= |t[k..]| && w <= t[k..][l..]
    ensures t == t[..k] + t[k..][..l] + w + t[k..][l..][|w|..]
  {
  }

  /* ---------- leftmost greedy search ---------- */

  /** `s[i..e]` is a possible capture of `(\d+)`. */
  predicate IsGroup(s: string, i: nat, e: nat, w: string) {
    i < e <= |s| && AllDigits(s[i..e]) && Continues(s[e..], w)
  }

  /** What `re.search` returns: the leftmost start, and for it the longest run of digits that still matches. */
  ghost predicate IsCapture(s: string, i: nat, e: nat, w: string) {
    && IsGroup(s, i, e, w)
    && (forall e': nat | e < e' :: !IsGroup(s, i, e', w))
    && (forall i': nat, e': nat | i' < i :: !IsGroup(s, i', e', w))
  }

  /** `s[i..e]` is a complete, maximal run of digits. */
  predicate IsRun(s: string, i: nat, e: nat) {
    && i < e <= |s| && AllDigits(s[i..e])
    && (i == 0 || !IsDigit(s[i - 1]))
    && (e == |s| || !IsDigit(s[e]))
  }

  lemma NoContinuationAtDigit(t: string, w: string)
    requires IsPhrase(w) && Continues(t, w)
    ensures t == [] || !IsDigit(t[0])
  {
    ContinuesIff(t, w);
  }

  lemma ExtendRunLeft(s: string, i: nat, e: nat) returns (b: nat)
    requires i < e <= |s| && AllDigits(s[i..e])
    ensures b <= i && AllDigits(s[b..e]) && (b == 0 || !IsDigit(s[b - 1]))
  {
    b := i;
    while b > 0 && IsDigit(s[b - 1])
      invariant b <= i && AllDigits(s[b..e])
    {
      assert s[b - 1..e] == [s[b - 1]] + s[b..e];
      b := b - 1;
    }
  }

  /** The captured text is always a whole number: the leftmost maximal run of digits whose continuation matches. */
  lemma CaptureIsLeftmostRun(s: string, i: nat, e: nat, w: string)
    requires IsPhrase(w)
    ensures IsCapture(s, i, e, w) <==>
            && IsRun(s, i, e) && Continues(s[e..], w)
            && forall i': nat, e': nat | i' < i && IsRun(s, i', e') :: !Continues(s[e'..], w)
  {
    if IsCapture(s, i, e, w) {
      CaptureIsRun(s, i, e, w);
      forall i': nat, e': nat | i' < i && IsRun(s, i', e')
        ensures !Continues(s[e'..], w)
      {
        assert IsGroup(s, i', e', w) <==> Continues(s[e'..], w);
      }
    }
    if IsRun(s, i, e) && Continues(s[e..], w)
       && forall i': nat, e': nat | i' < i && IsRun(s, i', e') :: !Continues(s[e'..], w)
    {
      RunIsLongest(s, i, e, w);
      forall i': nat, e': nat | i' < i
        ensures !IsGroup(s, i', e', w)
      {
        if IsGroup(s, i', e', w) {
          var b := GroupEndsRun(s, i', e', w);
        }
      }
    }
  }

  lemma CaptureIsRun(s: string, i: nat, e: nat, w: string)
    requires IsPhrase(w) && IsCapture(s, i, e, w)
    ensures IsRun(s, i, e)
  {
    NoContinuationAtDigit(s[e..], w);
    var b := GroupEndsRun(s, i, e, w);
    assert IsGroup(s, b, e, w);
  }

  /** Every possible capture is the end of a complete run of digits. */
  lemma GroupEndsRun(s: string, i: nat, e: nat, w: string) returns (b: nat)
    requires IsPhrase(w) && IsGroup(s, i, e, w)
    ensures b <= i && IsRun(s, b, e)
  {
    NoContinuationAtDigit(s[e..], w);
    b := ExtendRunLeft(s, i, e);
  }

  lemma RunIsLongest(s: string, i: nat, e: nat, w: string)
    requires IsRun(s, i, e)
    ensures forall e': nat | e < e' :: !IsGroup(s, i, e', w)
  {
    forall e': nat | e < e' <= |s|
      ensures !AllDigits(s[i..e'])
    {
      assert s[i..e'][e - i] == s[e];
    }
  }

  /** What follows the digits, tested in place from position `e`. */
  method TestContinuation(s: string, e: nat, w: string) returns (ok: bool)
    requires e <= |s| && IsPhrase(w)
    ensures ok <==> Continues(s[e..], w)
  {
    ContinuesIff(s[e..], w);
    ok := ContinuesDirectly(s[e..], w);
  }

  /** `re.search`: try every start from the left; at each, give the digits back one by one. */
  method SearchQuantity(s: string, w: string) returns (found: bool, i: nat, e: nat)
    requires IsPhrase(w)
    ensures found ==> IsCapture(s, i, e, w)
    ensures !found ==> forall i': nat, e': nat :: !IsGroup(s, i', e', w)
  {
    i := 0;
    while i < |s|
      invariant i <= |s|
      invariant forall i': nat, e': nat | i' < i :: !IsGroup(s, i', e', w)
    {
      e := i;
      while e < |s| && IsDigit(s[e])
        invariant i <= e <= |s| && AllDigits(s[i..e])
      {
        assert s[i..e + 1] == s[i..e] + [s[e]];
        e := e + 1;
      }

      ghost var longest := e;
      assert forall e': nat | longest < e' <= |s| :: s[i..e'][longest - i] == s[longest];
      while e > i
        invariant i <= e <= longest <= |s| && AllDigits(s[i..longest])
        invariant forall e': nat | e < e' :: !IsGroup(s, i, e', w)
      {
        assert s[i..e] == s[i..longest][..e - i];
        var ok := TestContinuation(s, e, w);
        if ok {
          return true, i, e;
        }
        e := e - 1;
      }
      i := i + 1;
    }
    return false, 0, 0;
  }

  /* ---------- the capture as a value, and how it moves through concatenation ---------- */

  /** The captured digits, if the search succeeds. */
  ghost function Captured(s: string, w: string): (c: Option<string>)
    ensures c.Some? ==> c.value != [] && AllDigits(c.value)
  {
    if exists i: nat, e: nat :: IsCapture(s, i, e, w) then
      var i: nat, e: nat :| IsCapture(s, i, e, w);
      Some(s[i..e])
    else None
  }

  lemma CapturedIs(s: string, w: string, i: nat, e: nat)
    requires IsCapture(s, i, e, w)
    ensures i < e <= |s| && Captured(s, w) == Some(s[i..e])
  {
  }

  lemma CaptureExists(s: string, w: string, i: nat, e: nat) returns (i0: nat, e0: nat)
    requires IsPhrase(w) && IsGroup(s, i, e, w)
    ensures IsCapture(s, i0, e0, w)
  {
    i0 := 0;
    while !exists e': nat :: IsGroup(s, i0, e', w)
      invariant i0 <= i
      invariant forall i': nat, e': nat | i' < i0 :: !IsGroup(s, i', e', w)
      decreases i - i0
    {
      i0 := i0 + 1;
    }
    e0 :| IsGroup(s, i0, e0, w);
    while exists e': nat :: e' > e0 && IsGroup(s, i0, e', w)
      invariant IsGroup(s, i0, e0, w)
      decreases |s| - e0
    {
      var e': nat :| e' > e0 && IsGroup(s, i0, e', w);
      e0 := e';
    }
  }

  lemma GroupShift(a: string, b: string, i: nat, e: nat, w: string)
    ensures IsGroup(a + b, |a| + i, |a| + e, w) <==> IsGroup(b, i, e, w)
  {
    if i < e <= |b| {
      assert (a + b)[|a| + i..|a| + e] == b[i..e];
      assert (a + b)[|a| + e..] == b[e..];
    }
  }

  /** A prefix in which no capture can start does not change the capture. */
  lemma CapturedAfter(a: string, b: string, w: string)
    requires IsPhrase(w)
    requires forall i: nat, e: nat | i < |a| :: !IsGroup(a + b, i, e, w)
    ensures Captured(a + b, w) == Captured(b, w)
  {
    if i: nat, e: nat :| IsCapture(b, i, e, w) {
      GroupShift(a, b, i, e, w);
      var j := |a| + i;
      forall e': nat
        ensures |a| + e < e' ==> !IsGroup(a + b, j, e', w)
      {
        if e' >= |a| { GroupShift(a, b, i, e' - |a|, w); }
      }
      forall i': nat, e': nat | i' < |a| + i
        ensures !IsGroup(a + b, i', e', w)
      {
        if i' >= |a| && e' >= |a| { GroupShift(a, b, i' - |a|, e' - |a|, w); }
      }
      CapturedIs(a + b, w, |a| + i, |a| + e);
      CapturedIs(b, w, i, e);
      assert (a + b)[|a| + i..|a| + e] == b[i..e];
    } else if i: nat, e: nat :| IsCapture(a + b, i, e, w) {
      GroupShift(a, b, i - |a|, e - |a|, w);
      var i0, e0 := CaptureExists(b, w, i - |a|, e - |a|);
      assert false;
    }
  }

  /** Digits directly before something that matches are the capture. */
  lemma CapturedAtHead(d: string, t: string, w: string)
    requires IsPhrase(w) && d != [] && AllDigits(d) && Continues(t, w)
    ensures Captured(d + t, w) == Some(d)
  {
    var s := d + t;
    assert s[..|d|] == d && s[0..|d|] == d && s[|d|..] == t;
    NoContinuationAtDigit(t, w);
    CaptureIsLeftmostRun(s, 0, |d|, w);
    CapturedIs(s, w, 0, |d|);
  }

  /** Digits followed by something that does not match are passed over, with the digit-free text behind them. */
  lemma CapturedSkips(d: string, m: string, b: string, w: string)
    requires IsPhrase(w) && AllDigits(d)
    requires m != [] && forall k | 0 <= k < |m| :: !IsDigit(m[k])
    requires !Continues(m + b, w)
    ensures Captured(d + m + b, w) == Captured(b, w)
  {
    var s := d + m + b;
    assert s[|d|..] == m + b;
    assert forall k | |d| <= k < |d + m| :: s[k] == m[k - |d|];
    forall i: nat, e: nat | i < |d + m|
      ensures !IsGroup(s, i, e, w)
    {
      if i < e < |d| {
        assert s[e..][0] == s[e] == d[e];
        if Continues(s[e..], w) { NoContinuationAtDigit(s[e..], w); }
      } else if i < e <= |s| && e != |d| {
        var k := if i < |d| then |d| else i;
        assert s[i..e][k - i] == s[k];
      }
    }
    CapturedAfter(d + m, b, w);
  }

  /* ---------- matches across a comma or a colon ---------- */

  predicate IsStop(c: char) {
    c == ',' || c == ':'
  }

  /** No comma and no colon. */
  predicate Unstopped(w: string) {
    forall i | 0 <= i < |w| :: !IsStop(w[i])
  }

  /** Spaces and then `past`, to the end of `g`. */
  predicate PastTail(g: string) {
    |g| >= 4 && Spaces(g, |g| - 4) && g[|g| - 4..] == "past"
  }

  /** `z` starts with `s\s+de\s+w` */
  predicate SOf(z: string, w: string) {
    && |z| > 1 && z[0] == 's' && IsSpace(z[1])
    && var v := StripLeft(z[1..]);
       && |v| > 2 && "de" <= v && IsSpace(v[2])
       && w <= StripLeft(v[2..])
  }

  lemma DePosition(t: string, w: string) returns (p: nat)
    requires var v := StripLeft(t); |v| > 2 && "de" <= v && w <= StripLeft(v[2..])
    ensures MatchesAt(t, p, w) && forall i | 0 <= i < p :: !IsStop(t[i])
  {
    var j := SkippedSpaces(t);
    var v := StripLeft(t);
    var l := SkippedSpaces(v[2..]);
    p := j + 2 + l;
    assert forall i | 0 <= i < |v| :: v[i] == t[j + i];
    assert forall i | 0 <= i < l :: v[2..][i] == t[j + 2 + i];
    assert v[2..][l..] == t[p..];
  }

  lemma PasteisAcross(g: string, c: char, z: string, w: string, k: nat)
    requires w != [] && IsStop(c) && Unstopped(w) && !Contains(g, w)
    requires k <= |g| && Spaces(g, k)
    requires PasteisThen((g + [c, ' '] + z)[k..], w)
    ensures PastTail(g) && SOf(z, w)
  {
    var t := g + [c, ' '] + z;
    var u := t[k..];
    var n := |g| - k;
    assert forall i | 0 <= i < |u| :: u[i] == t[k + i];
    assert u[n] == c && u[n + 1] == ' ';
    assert forall i | 0 <= i < 4 :: u[i] == "past"[i];
    if n >= 7 {
      var q := DePosition(u[7..], w);
      assert u[7..][q..] == t[k + 7 + q..];
      assert forall i | 0 <= i < q :: u[7..][i] == u[7 + i];
      assert k + 7 + q <= |g|;
      assert t == g + [c] + (" " + z);
      MatchAcross(g, c, " " + z, w, k + 7 + q);
      assert false;
    } else {
      assert n == 4;
      assert u[7..] == z[1..] && u[6] == z[0];
      assert g[k..] == u[..4] == "past";
    }
  }

  lemma AcrossStop(g: string, c: char, z: string, w: string)
    requires IsPhrase(w) && IsStop(c) && Unstopped(w) && !Contains(g, w) && ContinuesDirectly(g + [c, ' '] + z, w)
    ensures PastTail(g) && SOf(z, w)
  {
    hide PasteisThen, SOf;
    var t := g + [c, ' '] + z;
    var k := SkippedSpaces(t);
    var u := StripLeft(t);
    assert t[|g|] == c && t == g + [c] + (" " + z);
    assert k <= |g|;
    if w <= u {
      MatchAcross(g, c, " " + z, w, k);
    } else if "x" <= u && w <= StripLeft(u[1..]) {
      var j := TimesPosition(u, w);
      assert u[j..] == t[k + j..];
      assert forall i | 0 <= i < j :: u[i] == t[k + i];
      assert k + j <= |g|;
      MatchAcross(g, c, " " + z, w, k + j);
    } else {
      assert forall i | 0 <= i < k :: g[i] == t[i];
      PasteisAcross(g, c, z, w, k);
    }
  }

  lemma TimesPosition(u: string, w: string) returns (p: nat)
    requires "x" <= u && w <= StripLeft(u[1..])
    ensures MatchesAt(u, p, w) && forall i | 0 <= i < p :: !IsStop(u[i])
  {
    var j := SkippedSpaces(u[1..]);
    p := 1 + j;
    assert forall i | 1 <= i < p :: u[i] == u[1..][i - 1];
    assert u[1..][j..] == u[p..];
  }

  lemma WildcardsMatch(g: string, c: char, z: string, w: string)
    requires PastTail(g) && IsStop(c) && SOf(z, w)
    ensures ContinuesDirectly(g + [c, ' '] + z, w)
  {
    var t := g + [c, ' '] + z;
    assert t[|g| - 4..] == "past" + [c, ' '] + z;
    SkipSpacesIs(t, |g| - 4);
    var u := "past" + [c, ' '] + z;
    assert u[7..] == z[1..];
  }

  /** The pattern reads across `", "` or `": "` only by taking the two characters for the wildcards of `past..s`. */
  lemma AcrossStopIff(g: string, c: char, z: string, w: string)
    requires IsPhrase(w) && IsStop(c) && Unstopped(w) && !Contains(g, w)
    ensures Continues(g + [c, ' '] + z, w) <==> PastTail(g) && SOf(z, w)
  {
    ContinuesIff(g + [c, ' '] + z, w);
    hide Continues, ContinuesDirectly, PastTail, SOf;
    if ContinuesDirectly(g + [c, ' '] + z, w) { AcrossStop(g, c, z, w); }
    if PastTail(g) && SOf(z, w) { WildcardsMatch(g, c, z, w); }
  }
}
