/**
 Printing a list of order lines and parsing it back: exactly which lists survive.
 */
module ParserRoundTrip {
  import opened Strings
  import opened Regex
  import opened Orders
  import opened OrderParser

  /** The three ways the pattern reads a quantity: "2 carne", "2x carne", "2 pastéis de carne". */
  datatype Style = Plain | Times | Pasteis

  datatype Line = Line(sabor: SaborType, qty: nat, style: Style)

  function Phrase(s: SaborType): string {
    match s
    case CARNE_QUEIJO => "carne com queijo"
    case CARNE => "carne"
    case FRANGO => "frango"
    case QUEIJO => "queijo"
    case PALMITO => "palmito"
  }

  function Infix(style: Style): string {
    match style
    case Plain => " "
    case Times => "x "
    case Pasteis => " pastéis de "
  }

  /** A borda and how it is written: " com borda de queijo", " borda queijo", and so on. */
  datatype Edge = Edge(borda: BordaType, com: bool, de: bool)

  function Suffix(edge: Edge): string {
    if edge.borda == NORMAL then ""
    else
      (if edge.com then " com " else " ") + "borda " + (if edge.de then "de " else "")
      + if edge.borda == BORDA_QUEIJO then "queijo" else "catupiry"
  }

  function Head(l: Line): string {
    Decimal(l.qty) + Infix(l.style)
  }

  /** The lines separated by commas, the common borda at the end. */
  function Print(ls: seq<Line>, edge: Edge): string
    requires ls != []
  {
    if |ls| == 1 then Head(ls[0]) + (Phrase(ls[0].sabor) + Suffix(edge))
    else Head(ls[0]) + (Phrase(ls[0].sabor) + ", ") + Print(ls[1..], edge)
  }

  /** Distinct flavours, in table order. */
  ghost predicate Canonical(ls: seq<Line>) {
    ls != [] && forall i, j | 0 <= i < j < |ls| :: Rank(ls[i].sabor) < Rank(ls[j].sabor)
  }

  /** What the printer meant. */
  function ItemsOf(ls: seq<Line>, b: BordaType): seq<PastelItem> {
    if ls == [] then []
    else [PastelItem(ls[0].sabor, ls[0].qty, b, "")] + ItemsOf(ls[1..], b)
  }

  /* ---------- which phrases a printed list holds ---------- */

  lemma ContainsSkip(a: string, b: string, w: string)
    requires w != [] && w[0] !in a
    ensures Contains(a + b, w) <==> Contains(b, w)
  {
    var s := a + b;
    if Contains(s, w) {
      var i: nat :| i <= |s| && MatchesAt(s, i, w);
      assert s[i..][0] == s[i] == w[0];
      assert s[i..] == b[i - |a|..];
      assert MatchesAt(b, i - |a|, w);
    }
    if Contains(b, w) {
      var i: nat :| i <= |b| && MatchesAt(b, i, w);
      assert s[|a| + i..] == b[i..];
      assert MatchesAt(s, |a| + i, w);
    }
  }

  lemma HeadChars(l: Line, c: char)
    requires c in Head(l)
    ensures IsDigit(c) || c in "x pastéis de "
  {
  }

  /** The part before the flavour plays no role in finding a word. */
  lemma HeadHoldsNothing(l: Line, x: string, w: string)
    requires w in {"carne com queijo", "carne e queijo", "carne", "frango", "queijo", "palmito",
                   "catupiry", "borda de queijo", "borda queijo"}
    ensures Contains(Head(l) + x, w) <==> Contains(x, w)
  {
    if w == "palmito" {
      var a := Head(l)[..|Head(l)| - 1];
      assert Head(l) == a + [' '] by {
        assert Infix(l.style)[|Infix(l.style)| - 1] == ' ';
      }
      assert Head(l) + x == a + [' '] + x;
      ContainsAcross(a, ' ', x, w);
      if 'm' in a { HeadChars(l, 'm'); }
      assert w[3] == 'm';
      NotContainsIfMissing(a, w, 3);
    } else {
      if w[0] in Head(l) { HeadChars(l, w[0]); }
      ContainsSkip(Head(l), x, w);
    }
  }

  /** Row `k` of the table occurs in the phrase of flavour `s`. */
  predicate Mentions(s: SaborType, k: nat) {
    match s
    case CARNE_QUEIJO => k == 0 || k == 2 || k == 4
    case CARNE => k == 2
    case FRANGO => k == 3
    case QUEIJO => k == 4
    case PALMITO => k == 5
  }

  /** Where row `k` has a letter that the phrase of `s` lacks. */
  function LackedAt(s: SaborType, k: nat): nat {
    if k == 0 then if s == QUEIJO then 3 else 10
    else if k == 1 then if s == QUEIJO then 3 else 8
    else if k == 2 then if s == QUEIJO then 1 else 4
    else 0
  }

  lemma PhraseLacks(s: SaborType, k: nat)
    requires k < |TABLE| && !Mentions(s, k) && !(s == CARNE_QUEIJO && k == 1)
    ensures LackedAt(s, k) < |TABLE[k].0| && TABLE[k].0[LackedAt(s, k)] !in Phrase(s) + " com "
  {
  }

  lemma PhraseMentions(s: SaborType, k: nat)
    requires k < |TABLE| && Mentions(s, k)
    ensures Contains(Phrase(s), TABLE[k].0)
  {
    var i := if s == CARNE_QUEIJO && k == 4 then 10 else 0;
    assert MatchesAt(Phrase(s), i, TABLE[k].0);
  }

  lemma CarneComQueijoLacksRow1()
    ensures !Contains("carne com queijo com ", "carne e queijo")
  {
    var w := "carne e queijo";
    ContainsAcross("carne com queijo co", 'm', " ", w);
    assert "carne com queijo com " == "carne com queijo co" + ['m'] + " ";
    CarneComQueijoPart();
    NotContainsIfMissing(" ", w, 8);
  }

  lemma CarneComQueijoPart()
    ensures !Contains("carne com queijo co", "carne e queijo")
  {
    var w := "carne e queijo";
    ContainsAcross("carne co", 'm', " queijo co", w);
    assert "carne com queijo co" == "carne co" + ['m'] + " queijo co";
    NotContainsIfMissing("carne co", w, 8);
    NotContainsIfMissing(" queijo co", w, 3);
  }

  lemma ContainsExtended(p: string, t: string, w: string)
    requires Contains(p, w)
    ensures Contains(p + t, w)
  {
    var i: nat :| i <= |p| && MatchesAt(p, i, w);
    assert MatchesAt(p + t, i, w);
  }

  lemma PhraseComHolds(s: SaborType, k: nat)
    requires k < |TABLE|
    ensures Mentions(s, k) ==> Contains(Phrase(s), TABLE[k].0)
    ensures Contains(Phrase(s) + " com ", TABLE[k].0) ==> Mentions(s, k)
  {
    if Mentions(s, k) {
      PhraseMentions(s, k);
    } else if s == CARNE_QUEIJO && k == 1 {
      CarneComQueijoLacksRow1();
      assert Phrase(s) + " com " == "carne com queijo com ";
    } else {
      PhraseLacks(s, k);
      NotContainsIfMissing(Phrase(s) + " com ", TABLE[k].0, LackedAt(s, k));
    }
  }

  lemma PhraseHolds(s: SaborType, k: nat)
    requires k < |TABLE|
    ensures Contains(Phrase(s), TABLE[k].0) <==> Mentions(s, k)
    ensures Contains(Phrase(s) + " com ", TABLE[k].0) <==> Mentions(s, k)
    ensures Contains(Phrase(s) + " ", TABLE[k].0) <==> Mentions(s, k)
  {
    PhraseComHolds(s, k);
    var p, w := Phrase(s), TABLE[k].0;
    hide Contains, Phrase;
    if Contains(p, w) {
      ContainsExtended(p, " ", w);
    }
    if Contains(p + " ", w) {
      ContainsExtended(p + " ", "com ", w);
      assert p + " " + "com " == p + " com ";
    }
  }

  function Lead(edge: Edge): string {
    if edge.com then " com " else " "
  }

  function BordaTail(edge: Edge): string {
    "orda " + (if edge.de then "de " else "") + if edge.borda == BORDA_QUEIJO then "queijo" else "catupiry"
  }

  lemma TailHolds(edge: Edge, k: nat)
    requires k < |TABLE|
    ensures Contains(BordaTail(edge), TABLE[k].0) <==> k == 4 && edge.borda == BORDA_QUEIJO
  {
    var w := TABLE[k].0;
    if k == 4 && edge.borda == BORDA_QUEIJO {
      var a := "orda " + (if edge.de then "de " else "");
      ContainsMiddle(a, w, "");
      assert a + w + "" == BordaTail(edge);
    } else if k < 4 {
      assert w[3] == 'n';
      NotContainsIfMissing(BordaTail(edge), w, 3);
    } else if k == 4 {
      NotContainsIfMissing(BordaTail(edge), w, 0);
    } else {
      assert w[2] == 'l';
      NotContainsIfMissing(BordaTail(edge), w, 2);
    }
  }

  lemma BordaSplit(p: string, edge: Edge, w: string)
    requires edge.borda != NORMAL && 'b' !in w
    ensures Contains(p + Suffix(edge), w) <==> Contains(p + Lead(edge), w) || Contains(BordaTail(edge), w)
  {
    assert Suffix(edge) == Lead(edge) + ['b'] + BordaTail(edge);
    hide Contains, BordaTail, Suffix;
    assert p + Suffix(edge) == (p + Lead(edge)) + ['b'] + BordaTail(edge);
    ContainsAcross(p + Lead(edge), 'b', BordaTail(edge), w);
  }

  /** A flavour row occurs in a phrase with its borda when the phrase mentions it, or the borda names the cheese. */
  lemma PhraseAndBordaHold(s: SaborType, edge: Edge, k: nat)
    requires k < |TABLE|
    ensures Contains(Phrase(s) + Suffix(edge), TABLE[k].0) <==> Mentions(s, k) || (k == 4 && edge.borda == BORDA_QUEIJO)
  {
    PhraseHolds(s, k);
    if edge.borda == NORMAL {
      assert Phrase(s) + Suffix(edge) == Phrase(s);
    } else {
      RowIsKnown(k);
      BordaSplit(Phrase(s), edge, TABLE[k].0);
      TailHolds(edge, k);
    }
  }

  ghost predicate SomeMentions(ls: seq<Line>, k: nat) {
    exists i | 0 <= i < |ls| :: Mentions(ls[i].sabor, k)
  }

  lemma MentionsRest(ls: seq<Line>, k: nat)
    requires ls != []
    ensures SomeMentions(ls, k) <==> Mentions(ls[0].sabor, k) || SomeMentions(ls[1..], k)
  {
    if i :| 0 < i < |ls| && Mentions(ls[i].sabor, k) { assert ls[1..][i - 1] == ls[i]; }
    if i :| 0 <= i < |ls[1..]| && Mentions(ls[1..][i].sabor, k) { assert ls[1..][i] == ls[i + 1]; }
  }

  /** Row `k` is found in the printed text exactly when a line mentions it, or the borda names the cheese. */
  lemma {:induction false} PrintHolds(ls: seq<Line>, edge: Edge, k: nat)
    requires ls != [] && k < |TABLE|
    ensures Contains(Print(ls, edge), TABLE[k].0) <==> SomeMentions(ls, k) || (k == 4 && edge.borda == BORDA_QUEIJO)
  {
    var w := TABLE[k].0;
    var p := Phrase(ls[0].sabor);
    RowIsKnown(k);
    if |ls| == 1 {
      HeadHoldsNothing(ls[0], p + Suffix(edge), w);
      PhraseAndBordaHold(ls[0].sabor, edge, k);
    } else {
      var rest := Print(ls[1..], edge);
      assert Print(ls, edge) == (Head(ls[0]) + p) + ", " + rest;
      TablePhrases();
      hide Contains;
      InEither(Head(ls[0]) + p, ',', rest, w);
      HeadHoldsNothing(ls[0], p, w);
      PhraseHolds(ls[0].sabor, k);
      PrintHolds(ls[1..], edge, k);
      MentionsRest(ls, k);
    }
  }

  lemma RowIsKnown(k: nat)
    requires k < |TABLE|
    ensures TABLE[k].0 in {"carne com queijo", "carne e queijo", "carne", "frango", "queijo", "palmito"}
  {
  }

  /* ---------- which quantities are captured ---------- */

  /** The phrase of `s` begins with row `k`. */
  predicate Begins(s: SaborType, k: nat) {
    match s
    case CARNE_QUEIJO => k == 0 || k == 2
    case CARNE => k == 2
    case FRANGO => k == 3
    case QUEIJO => k == 4
    case PALMITO => k == 5
  }

  /** What may stand behind a flavour in a printed list. */
  ghost predicate IsBehind(t: string) {
    t == [] || t[0] == ',' || (|t| > 5 && t[..6] == " com b") || (|t| > 1 && t[..2] == " b")
  }

  lemma BeginsIff(s: SaborType, t: string, k: nat)
    requires k < |TABLE| && IsBehind(t)
    ensures TABLE[k].0 <= Phrase(s) + t <==> Begins(s, k)
  {
    var u := Phrase(s) + t;
    if s == CARNE && k == 0 {
      var w := "carne com queijo";
      assert t != [] ==> u[5] == t[0];
      assert |t| > 5 ==> u[10] == t[5];
      assert |t| > 5 && t[..6] == " com b" ==> t[5] == 'b' by { assert |t| > 5 ==> t[..6][5] == t[5]; }
      assert |t| > 1 ==> u[6] == t[1];
      assert |t| > 1 && t[..2] == " b" ==> t[1] == 'b' by { assert |t| > 1 ==> t[..2][1] == t[1]; }
      assert w[5] == ' ' && w[6] == 'c' && w[10] == 'q';
    } else if s == CARNE && k == 1 {
      var w := "carne e queijo";
      assert t != [] ==> u[5] == t[0];
      assert |t| > 5 ==> u[6] == t[1];
      assert |t| > 5 && t[..6] == " com b" ==> t[1] == 'c' by { assert |t| > 5 ==> t[..6][1] == t[1]; }
      assert w[5] == ' ' && w[6] == 'e';
    } else if s == CARNE_QUEIJO && k == 1 {
      assert "carne e queijo"[6] == 'e' && u[6] == 'c';
    } else if Begins(s, k) {
    } else {
      assert TABLE[k].0[0] != u[0];
    }
  }

  lemma SkipOneSpace(x: string)
    requires x != [] && !IsSpace(x[0])
    ensures StripLeft(" " + x) == x && StripLeft(x) == x
  {
  }

  lemma PasteisInfix(x: string, w: string)
    requires w != [] && !IsSpace(w[0]) && w[0] != 'x' && |w| > 2 && w[2] != 's'
    requires x != [] && !IsSpace(x[0])
    ensures ContinuesDirectly(" pastéis de " + x, w) <==> w <= x
  {
    var u := "pastéis de " + x;
    assert " pastéis de " + x == " " + u;
    SkipOneSpace(u);
    assert !(w <= u) by { assert u[2] == 's'; }
    assert PasteisThen(u, w) <==> w <= x by {
      var v := "de " + x;
      assert u[7..] == " " + v;
      SkipOneSpace(v);
      assert v[2..] == " " + x;
      SkipOneSpace(x);
      assert "past" <= u && u[4] != '\n' && u[5] != '\n' && u[6] == 's' && IsSpace(u[7]);
    }
  }

  lemma TimesInfix(x: string, w: string)
    requires w != [] && w[0] != 'x' && x != [] && !IsSpace(x[0])
    ensures ContinuesDirectly("x " + x, w) <==> w <= x
  {
    assert ("x " + x)[1..] == " " + x;
    SkipOneSpace(x);
  }

  /** After the digits, an infix lets exactly the text behind it match. */
  lemma InfixContinues(style: Style, x: string, w: string)
    requires IsPhrase(w) && w[0] != 'x' && |w| > 2 && w[2] != 's'
    requires x != [] && !IsSpace(x[0]) && x[0] != 'x' && !("past" <= x)
    ensures Continues(Infix(style) + x, w) <==> w <= x
  {
    ContinuesIff(Infix(style) + x, w);
    match style
    case Plain => SkipOneSpace(x);
    case Times => TimesInfix(x, w);
    case Pasteis => PasteisInfix(x, w);
  }

  lemma RowForCapture(k: nat)
    requires k < |TABLE|
    ensures var w := TABLE[k].0; IsPhrase(w) && w[0] != 'x' && |w| > 2 && w[2] != 's'
  {
  }

  lemma PhraseStart(s: SaborType, t: string)
    ensures var x := Phrase(s) + t; x != [] && !IsSpace(x[0]) && x[0] != 'x' && !("past" <= x)
  {
    assert s == PALMITO ==> (Phrase(s) + t)[2] == 'l';
  }

  /** Quantity of the first line whose phrase begins with row `k`. */
  function FirstQty(ls: seq<Line>, k: nat): Option<nat> {
    if ls == [] then None
    else if Begins(ls[0].sabor, k) then Some(ls[0].qty)
    else FirstQty(ls[1..], k)
  }

  lemma SegmentCapture(l: Line, t: string, rest: string, k: nat)
    requires k < |TABLE| && IsBehind(t + rest) && forall i | 0 <= i < |t| :: !IsDigit(t[i])
    ensures Captured(Head(l) + (Phrase(l.sabor) + t) + rest, TABLE[k].0) ==
            if Begins(l.sabor, k) then Some(Decimal(l.qty)) else Captured(rest, TABLE[k].0)
  {
    var w, d := TABLE[k].0, Decimal(l.qty);
    var m := Infix(l.style) + (Phrase(l.sabor) + t);
    var x := Phrase(l.sabor) + (t + rest);
    assert Head(l) + (Phrase(l.sabor) + t) + rest == d + m + rest == d + (m + rest);
    assert m + rest == Infix(l.style) + x;
    hide Continues, Infix, Phrase, Decimal, Captured, TABLE;
    RowForCapture(k);
    PhraseStart(l.sabor, t + rest);
    InfixContinues(l.style, x, w);
    BeginsIff(l.sabor, t + rest, k);
    if Begins(l.sabor, k) {
      CapturedAtHead(d, m + rest, w);
    } else {
      NoDigitInside(l, t);
      CapturedSkips(d, m, rest, w);
    }
  }

  lemma NoDigitInside(l: Line, t: string)
    requires forall i | 0 <= i < |t| :: !IsDigit(t[i])
    ensures var m := Infix(l.style) + (Phrase(l.sabor) + t); m != [] && forall i | 0 <= i < |m| :: !IsDigit(m[i])
  {
  }

  lemma NothingCaptured(w: string)
    ensures Captured("", w) == None
  {
  }

  /** The search returns the quantity of the first line that begins with the phrase, as printed. */
  lemma {:induction false} PrintCapture(ls: seq<Line>, edge: Edge, k: nat)
    requires ls != [] && k < |TABLE|
    ensures Captured(Print(ls, edge), TABLE[k].0) ==
            match FirstQty(ls, k) { case Some(q) => Some(Decimal(q)) case None => None }
  {
    if |ls| == 1 {
      SegmentCapture(ls[0], Suffix(edge), "", k);
      assert Head(ls[0]) + (Phrase(ls[0].sabor) + Suffix(edge)) + "" == Print(ls, edge);
      assert Suffix(edge) + "" == Suffix(edge);
      assert FirstQty(ls[1..], k) == None;
    } else {
      var rest := Print(ls[1..], edge);
      assert (", " + rest)[0] == ',';
      SegmentCapture(ls[0], ", ", rest, k);
      PrintCapture(ls[1..], edge, k);
    }
  }

  /* ---------- the borda and the characters of a printed list ---------- */

  lemma {:induction false} PrintChars(ls: seq<Line>, edge: Edge, c: char)
    requires ls != [] && c in Print(ls, edge)
    ensures IsDigit(c) || c in "x pastéis de " || c in "carne com queijo, frango palmito" || c in Suffix(edge)
  {
    var p := Phrase(ls[0].sabor);
    assert c in p ==> c in "carne com queijo, frango palmito" by { PhraseChars(ls[0].sabor, c); }
    if c in Head(ls[0]) {
      HeadChars(ls[0], c);
    } else if |ls| > 1 && c in Print(ls[1..], edge) {
      PrintChars(ls[1..], edge, c);
    } else if |ls| > 1 {
      assert c in p + ", ";
    } else {
      assert c in p + Suffix(edge);
    }
  }

  lemma PhraseChars(s: SaborType, c: char)
    ensures c in Phrase(s) ==> c in "carne com queijo, frango palmito"
  {
  }

  lemma {:induction false} PrintEnds(ls: seq<Line>, edge: Edge) returns (pre: string)
    requires ls != []
    ensures Print(ls, edge) == pre + Suffix(edge)
  {
    if |ls| == 1 {
      pre := Head(ls[0]) + Phrase(ls[0].sabor);
    } else {
      var rest := PrintEnds(ls[1..], edge);
      pre := Head(ls[0]) + (Phrase(ls[0].sabor) + ", ") + rest;
    }
  }

  lemma PrintLacks(ls: seq<Line>, edge: Edge, w: string, k: nat)
    requires ls != [] && k < |w| && !IsDigit(w[k])
    requires w[k] !in "x pastéis de " && w[k] !in "carne com queijo, frango palmito" && w[k] !in Suffix(edge)
    ensures !Contains(Print(ls, edge), w)
  {
    if w[k] in Print(ls, edge) { PrintChars(ls, edge, w[k]); }
    NotContainsIfMissing(Print(ls, edge), w, k);
  }

  lemma PrintHasBorda(ls: seq<Line>, edge: Edge, w: string)
    requires ls != [] && Contains(Suffix(edge), w)
    ensures Contains(Print(ls, edge), w)
  {
    var pre := PrintEnds(ls, edge);
    ContainsMiddle(pre, Suffix(edge), "");
    assert pre + Suffix(edge) + "" == Print(ls, edge);
    ContainsTransitive(Print(ls, edge), Suffix(edge), w);
  }

  lemma SuffixNames(edge: Edge)
    ensures edge.borda == CATUPIRY ==> Contains(Suffix(edge), "catupiry")
    ensures edge.borda == BORDA_QUEIJO ==> Contains(Suffix(edge), if edge.de then "borda de queijo" else "borda queijo")
  {
    hide Contains;
    if edge.borda == CATUPIRY {
      ContainsLast(Lead(edge) + "borda " + (if edge.de then "de " else ""), "catupiry");
    } else if edge.borda == BORDA_QUEIJO && edge.de {
      ContainsLast(Lead(edge), "borda de queijo");
      assert "borda " + "de " + "queijo" == "borda de queijo";
      assert Suffix(edge) == Lead(edge) + "borda de queijo";
    } else if edge.borda == BORDA_QUEIJO {
      ContainsLast(Lead(edge), "borda queijo");
      assert "borda " + "" + "queijo" == "borda queijo";
      assert Suffix(edge) == Lead(edge) + "borda queijo";
    }
  }

  lemma ContainsLast(a: string, w: string)
    ensures Contains(a + w, w)
  {
    ContainsMiddle(a, w, "");
    assert a + w + "" == a + w;
  }

  /** The borda read back is the borda printed. */
  lemma PrintBorda(ls: seq<Line>, edge: Edge)
    requires ls != []
    ensures Borda(Print(ls, edge)) == edge.borda
  {
    hide Print, Contains;
    SuffixNames(edge);
    match edge.borda
    case CATUPIRY =>
      PrintHasBorda(ls, edge, "catupiry");
    case BORDA_QUEIJO =>
      PrintHasBorda(ls, edge, if edge.de then "borda de queijo" else "borda queijo");
      PrintLacks(ls, edge, "catupiry", 7);
    case NORMAL =>
      PrintLacks(ls, edge, "catupiry", 7);
      PrintLacks(ls, edge, "borda de queijo", 0);
      PrintLacks(ls, edge, "borda queijo", 0);
  }

  /** A printed list is already lower case and never holds the name marker. */
  lemma PrintIsPlain(ls: seq<Line>, edge: Edge)
    requires ls != []
    ensures Lower(Print(ls, edge)) == Print(ls, edge) && !Contains(Print(ls, edge), NOME)
    ensures IsDigit(Print(ls, edge)[0])
  {
    PrintIsLower(ls, edge);
    LowerFixed(Print(ls, edge));
    PrintLacks(ls, edge, NOME, 4);
    assert Print(ls, edge)[0] == Head(ls[0])[0] == Decimal(ls[0].qty)[0];
  }

  lemma PrintIsLower(ls: seq<Line>, edge: Edge)
    requires ls != []
    ensures IsLower(Print(ls, edge))
  {
    hide Print;
    forall i | 0 <= i < |Print(ls, edge)|
      ensures !('A' <= Print(ls, edge)[i] <= 'Z')
    {
      PrintChars(ls, edge, Print(ls, edge)[i]);
    }
  }

  /* ---------- items by flavour ---------- */

  datatype Profile = Profile(
    carneQueijo: Option<nat>, carne: Option<nat>, frango: Option<nat>, queijo: Option<nat>, palmito: Option<nat>)

  function One(s: SaborType, q: Option<nat>, b: BordaType): seq<PastelItem> {
    match q
    case None => []
    case Some(n) => [PastelItem(s, n, b, "")]
  }

  function Spread(p: Profile, b: BordaType): seq<PastelItem> {
    One(CARNE_QUEIJO, p.carneQueijo, b) + One(CARNE, p.carne, b) + One(FRANGO, p.frango, b)
    + One(QUEIJO, p.queijo, b) + One(PALMITO, p.palmito, b)
  }

  /** Quantity ordered of flavour `s`. */
  function Ordered(ls: seq<Line>, s: SaborType): Option<nat> {
    if ls == [] then None
    else if ls[0].sabor == s then Some(ls[0].qty)
    else Ordered(ls[1..], s)
  }

  function ProfileOf(ls: seq<Line>): Profile {
    Profile(
      Ordered(ls, CARNE_QUEIJO), Ordered(ls, CARNE), Ordered(ls, FRANGO), Ordered(ls, QUEIJO), Ordered(ls, PALMITO))
  }

  lemma {:induction false} OrderedNone(ls: seq<Line>, s: SaborType)
    requires forall i | 0 <= i < |ls| :: ls[i].sabor != s
    ensures Ordered(ls, s) == None
  {
    if ls != [] { OrderedNone(ls[1..], s); }
  }

  lemma LaterRanks(ls: seq<Line>, s: SaborType)
    requires Canonical(ls) && Rank(s) <= Rank(ls[0].sabor)
    ensures Ordered(ls[1..], s) == None
  {
    forall i | 0 <= i < |ls[1..]|
      ensures ls[1..][i].sabor != s
    {
      assert ls[1..][i] == ls[i + 1];
    }
    OrderedNone(ls[1..], s);
  }

  lemma {:induction false} ItemsAreSpread(ls: seq<Line>, b: BordaType)
    requires Canonical(ls)
    ensures ItemsOf(ls, b) == Spread(ProfileOf(ls), b)
  {
    var l, rest := ls[0], ls[1..];
    forall s: SaborType | Rank(s) <= Rank(l.sabor)
      ensures Ordered(rest, s) == None
    {
      LaterRanks(ls, s);
    }
    if rest != [] {
      assert forall i, j | 0 <= i < j < |rest| :: Rank(rest[i].sabor) < Rank(rest[j].sabor) by {
        assert forall i | 0 <= i < |rest| :: rest[i] == ls[i + 1];
      }
      ItemsAreSpread(rest, b);
    }
    assert forall s: SaborType :: Rank(s) <= Rank(l.sabor) ==> Ordered(rest, s) == None;
    PushLowest(ProfileOf(rest), ProfileOf(ls), l, b);
  }

  function Get(p: Profile, s: SaborType): Option<nat> {
    match s
    case CARNE_QUEIJO => p.carneQueijo
    case CARNE => p.carne
    case FRANGO => p.frango
    case QUEIJO => p.queijo
    case PALMITO => p.palmito
  }

  lemma PushCarneQueijo(p: Profile, q: nat, b: BordaType)
    requires p.carneQueijo.None?
    ensures Spread(p.(carneQueijo := Some(q)), b) == [PastelItem(CARNE_QUEIJO, q, b, "")] + Spread(p, b)
  {
  }

  lemma PushCarne(p: Profile, q: nat, b: BordaType)
    requires p.carneQueijo.None? && p.carne.None?
    ensures Spread(p.(carne := Some(q)), b) == [PastelItem(CARNE, q, b, "")] + Spread(p, b)
  {
  }

  lemma PushFrango(p: Profile, q: nat, b: BordaType)
    requires p.carneQueijo.None? && p.carne.None? && p.frango.None?
    ensures Spread(p.(frango := Some(q)), b) == [PastelItem(FRANGO, q, b, "")] + Spread(p, b)
  {
  }

  lemma PushQueijo(p: Profile, q: nat, b: BordaType)
    requires p.carneQueijo.None? && p.carne.None? && p.frango.None? && p.queijo.None?
    ensures Spread(p.(queijo := Some(q)), b) == [PastelItem(QUEIJO, q, b, "")] + Spread(p, b)
  {
  }

  lemma PushPalmito(p: Profile, q: nat, b: BordaType)
    requires p.carneQueijo.None? && p.carne.None? && p.frango.None? && p.queijo.None? && p.palmito.None?
    ensures Spread(p.(palmito := Some(q)), b) == [PastelItem(PALMITO, q, b, "")] + Spread(p, b)
  {
  }

  lemma ProfileEquals(p: Profile, p': Profile)
    requires forall s: SaborType :: Get(p, s) == Get(p', s)
    ensures p == p'
  {
    assert p == Profile(Get(p, CARNE_QUEIJO), Get(p, CARNE), Get(p, FRANGO), Get(p, QUEIJO), Get(p, PALMITO));
    assert p' == Profile(Get(p', CARNE_QUEIJO), Get(p', CARNE), Get(p', FRANGO), Get(p', QUEIJO), Get(p', PALMITO));
  }

  /** Adding a flavour below all that are ordered puts its item first. */
  lemma PushLowest(p: Profile, p': Profile, l: Line, b: BordaType)
    requires forall s: SaborType | Rank(s) <= Rank(l.sabor) :: Get(p, s) == None
    requires forall s: SaborType :: Get(p', s) == if s == l.sabor then Some(l.qty) else Get(p, s)
    ensures Spread(p', b) == [PastelItem(l.sabor, l.qty, b, "")] + Spread(p, b)
  {
    assert Get(p, CARNE_QUEIJO) == None;
    hide Spread;
    match l.sabor
    case CARNE_QUEIJO =>
      ProfileEquals(p', p.(carneQueijo := Some(l.qty)));
      PushCarneQueijo(p, l.qty, b);
    case CARNE =>
      ProfileEquals(p', p.(carne := Some(l.qty)));
      assert Get(p, CARNE) == None;
      PushCarne(p, l.qty, b);
    case FRANGO =>
      ProfileEquals(p', p.(frango := Some(l.qty)));
      assert Get(p, CARNE) == None && Get(p, FRANGO) == None;
      PushFrango(p, l.qty, b);
    case QUEIJO =>
      ProfileEquals(p', p.(queijo := Some(l.qty)));
      assert Get(p, CARNE) == None && Get(p, FRANGO) == None && Get(p, QUEIJO) == None;
      PushQueijo(p, l.qty, b);
    case PALMITO =>
      ProfileEquals(p', p.(palmito := Some(l.qty)));
      assert Get(p, CARNE) == None && Get(p, FRANGO) == None && Get(p, QUEIJO) == None && Get(p, PALMITO) == None;
      PushPalmito(p, l.qty, b);
  }

  function QtyIn(items: seq<PastelItem>, s: SaborType): Option<nat> {
    if items == [] then None
    else if items[0].sabor == s then Some(items[0].quantidade)
    else QtyIn(items[1..], s)
  }

  lemma QtyInAppend(a: seq<PastelItem>, c: seq<PastelItem>, s: SaborType)
    ensures QtyIn(a + c, s) == if QtyIn(a, s).Some? then QtyIn(a, s) else QtyIn(c, s)
  {
    if a == [] {
      assert a + c == c;
    } else {
      assert (a + c)[1..] == a[1..] + c;
      QtyInAppend(a[1..], c, s);
    }
  }

  /** The items determine the profile. */
  lemma SpreadInjective(p: Profile, b: BordaType, s: SaborType)
    ensures QtyIn(Spread(p, b), s) == Get(p, s)
  {
    var a0, a1, a2 := One(CARNE_QUEIJO, p.carneQueijo, b), One(CARNE, p.carne, b), One(FRANGO, p.frango, b);
    var a3, a4 := One(QUEIJO, p.queijo, b), One(PALMITO, p.palmito, b);
    QtyInAppend(a0 + a1 + a2 + a3, a4, s);
    QtyInAppend(a0 + a1 + a2, a3, s);
    QtyInAppend(a0 + a1, a2, s);
    QtyInAppend(a0, a1, s);
    OneQty(CARNE_QUEIJO, p.carneQueijo, b, s);
    OneQty(CARNE, p.carne, b, s);
    OneQty(FRANGO, p.frango, b, s);
    OneQty(QUEIJO, p.queijo, b, s);
    OneQty(PALMITO, p.palmito, b, s);
  }

  lemma OneQty(f: SaborType, q: Option<nat>, b: BordaType, s: SaborType)
    ensures QtyIn(One(f, q, b), s) == if s == f then q else None
  {
  }

  /* ---------- the round trip ---------- */

  /** What the parser reads out of a printed list. */
  function ReadBack(ls: seq<Line>, b: BordaType): Profile {
    var p := ProfileOf(ls);
    Profile(
      p.carneQueijo,
      if p.carneQueijo.Some? then p.carneQueijo else p.carne,
      p.frango,
      if p.queijo.Some? then p.queijo else if p.carneQueijo.Some? || b == BORDA_QUEIJO then Some(1) else None,
      p.palmito)
  }

  lemma {:induction false} MentionsOrdered(ls: seq<Line>, k: nat)
    requires k < |TABLE|
    ensures SomeMentions(ls, k) <==>
            match k {
              case 0 => Ordered(ls, CARNE_QUEIJO).Some?
              case 1 => false
              case 2 => Ordered(ls, CARNE_QUEIJO).Some? || Ordered(ls, CARNE).Some?
              case 3 => Ordered(ls, FRANGO).Some?
              case 4 => Ordered(ls, CARNE_QUEIJO).Some? || Ordered(ls, QUEIJO).Some?
              case _ => Ordered(ls, PALMITO).Some?
            }
  {
    if ls != [] {
      MentionsOrdered(ls[1..], k);
      MentionsRest(ls, k);
    }
  }

  lemma {:induction false} FirstQtyOrdered(ls: seq<Line>, k: nat)
    requires k < |TABLE| && Canonical(ls)
    ensures FirstQty(ls, k) ==
            match k {
              case 0 => Ordered(ls, CARNE_QUEIJO)
              case 1 => None
              case 2 => if Ordered(ls, CARNE_QUEIJO).Some? then Ordered(ls, CARNE_QUEIJO) else Ordered(ls, CARNE)
              case 3 => Ordered(ls, FRANGO)
              case 4 => Ordered(ls, QUEIJO)
              case _ => Ordered(ls, PALMITO)
            }
  {
    LaterRanks(ls, CARNE_QUEIJO);
    if |ls| > 1 {
      assert Canonical(ls[1..]) by {
        assert forall i | 0 <= i < |ls[1..]| :: ls[1..][i] == ls[i + 1];
      }
      FirstQtyOrdered(ls[1..], k);
    }
  }

  lemma RowRead(ls: seq<Line>, edge: Edge, k: nat)
    requires k < |TABLE| && Canonical(ls)
    ensures Row(Print(ls, edge), k) ==
            match k {
              case 0 => One(CARNE_QUEIJO, ReadBack(ls, edge.borda).carneQueijo, edge.borda)
              case 1 => []
              case 2 => One(CARNE, ReadBack(ls, edge.borda).carne, edge.borda)
              case 3 => One(FRANGO, ReadBack(ls, edge.borda).frango, edge.borda)
              case 4 => One(QUEIJO, ReadBack(ls, edge.borda).queijo, edge.borda)
              case _ => One(PALMITO, ReadBack(ls, edge.borda).palmito, edge.borda)
            }
  {
    PrintHolds(ls, edge, k);
    MentionsOrdered(ls, k);
    PrintCapture(ls, edge, k);
    FirstQtyOrdered(ls, k);
    PrintBorda(ls, edge);
    match FirstQty(ls, k)
    case Some(q) => ParseOfDecimal(q);
    case None =>
  }

  /** Parsing a printed list always reads back the profile `ReadBack`. */
  lemma PrintedItems(ls: seq<Line>, edge: Edge)
    requires Canonical(ls)
    ensures Items(Print(ls, edge)) == Spread(ReadBack(ls, edge.borda), edge.borda)
  {
    hide Row, Print, Ordered, Contains;
    var t, p := Print(ls, edge), ReadBack(ls, edge.borda);
    FoundByRows(t);
    RowRead(ls, edge, 0);
    RowRead(ls, edge, 1);
    RowRead(ls, edge, 2);
    RowRead(ls, edge, 3);
    RowRead(ls, edge, 4);
    RowRead(ls, edge, 5);
    assert Row(t, 0) + [] == Row(t, 0);
    SpreadNonempty(ls, edge.borda);
  }

  lemma SpreadNonempty(ls: seq<Line>, b: BordaType)
    requires Canonical(ls)
    ensures Spread(ReadBack(ls, b), b) != []
  {
  }

  /**
   The lists the parser reads back: an order of carne com queijo also orders carne in the same quantity
   and some queijo, and a cheese borda goes with an order of queijo.
   */
  predicate Faithful(ls: seq<Line>, b: BordaType) {
    && (Ordered(ls, CARNE_QUEIJO).Some? ==>
          Ordered(ls, CARNE) == Ordered(ls, CARNE_QUEIJO) && Ordered(ls, QUEIJO).Some?)
    && (b == BORDA_QUEIJO ==> Ordered(ls, QUEIJO).Some?)
  }

  lemma CanonicalRoundTrip(ls: seq<Line>, edge: Edge)
    requires Canonical(ls)
    ensures Parse(Print(ls, edge)) == Parsed("Cliente", ItemsOf(ls, edge.borda)) <==> Faithful(ls, edge.borda)
  {
    PrintIsPlain(ls, edge);
    PrintedItems(ls, edge);
    ItemsAreSpread(ls, edge.borda);
    if Items(Print(ls, edge)) == ItemsOf(ls, edge.borda) {
      SpreadInjective(ReadBack(ls, edge.borda), edge.borda, CARNE);
      SpreadInjective(ProfileOf(ls), edge.borda, CARNE);
      SpreadInjective(ReadBack(ls, edge.borda), edge.borda, QUEIJO);
      SpreadInjective(ProfileOf(ls), edge.borda, QUEIJO);
    }
  }

  ghost predicate Ascending(items: seq<PastelItem>) {
    forall i, j | 0 <= i < j < |items| :: Rank(items[i].sabor) < Rank(items[j].sabor)
  }

  /** Without "carne e queijo" no two rows of the table stand for the same flavour. */
  lemma {:induction false} FoundAscends(lower: string, n: nat)
    requires n <= |TABLE| && !Contains(lower, TABLE[1].0)
    ensures Ascending(Found(lower, n))
    ensures forall i | 0 <= i < |Found(lower, n)| :: Rank(Found(lower, n)[i].sabor) < if n <= 1 then n else n - 1
  {
    if n > 0 {
      FoundAscends(lower, n - 1);
      TableRanks(n - 1);
      assert Row(lower, n - 1) != [] ==> n != 2 && Row(lower, n - 1)[0].sabor == TABLE[n - 1].1;
      hide Row, Contains;
      AppendAscends(Found(lower, n - 1), Row(lower, n - 1), if n <= 2 then n - 1 else n - 2);
    }
  }

  lemma AppendAscends(items: seq<PastelItem>, row: seq<PastelItem>, r: nat)
    requires Ascending(items) && |row| <= 1 && forall i | 0 <= i < |items| :: Rank(items[i].sabor) < r
    requires row != [] ==> Rank(row[0].sabor) == r
    ensures Ascending(items + row) && forall i | 0 <= i < |items + row| :: Rank((items + row)[i].sabor) <= r
    ensures row == [] ==> items + row == items
  {
  }

  lemma {:induction false} ItemsOfAt(ls: seq<Line>, b: BordaType)
    ensures |ItemsOf(ls, b)| == |ls| && forall i | 0 <= i < |ls| :: ItemsOf(ls, b)[i].sabor == ls[i].sabor
  {
    if ls != [] { ItemsOfAt(ls[1..], b); }
  }

  /** Only a list of distinct flavours in table order can come back. */
  lemma OnlyCanonicalReturns(ls: seq<Line>, edge: Edge)
    requires ls != [] && Items(Print(ls, edge)) == ItemsOf(ls, edge.borda)
    ensures Canonical(ls)
  {
    PrintHolds(ls, edge, 1);
    MentionsOrdered(ls, 1);
    FoundAscends(Print(ls, edge), |TABLE|);
    ItemsOfAt(ls, edge.borda);
    hide Found, Contains, Print;
    forall i, j | 0 <= i < j < |ls|
      ensures Rank(ls[i].sabor) < Rank(ls[j].sabor)
    {
      assert ItemsOf(ls, edge.borda)[i].sabor == ls[i].sabor && ItemsOf(ls, edge.borda)[j].sabor == ls[j].sabor;
    }
  }

  /**
   Printing and parsing give a list back exactly when its flavours are distinct and in table order and it is faithful.
   */
  lemma RoundTripIff(ls: seq<Line>, edge: Edge)
    requires ls != []
    ensures Parse(Print(ls, edge)) == Parsed("Cliente", ItemsOf(ls, edge.borda)) <==>
            Canonical(ls) && Faithful(ls, edge.borda)
  {
    PrintIsPlain(ls, edge);
    if Canonical(ls) {
      CanonicalRoundTrip(ls, edge);
    } else if Items(Print(ls, edge)) == ItemsOf(ls, edge.borda) {
      OnlyCanonicalReturns(ls, edge);
    }
  }

  /** In particular without carne com queijo and without a cheese borda. */
  lemma SimpleRoundTrip(ls: seq<Line>, edge: Edge)
    requires Canonical(ls) && edge.borda != BORDA_QUEIJO
    requires forall i | 0 <= i < |ls| :: ls[i].sabor != CARNE_QUEIJO
    ensures Parse(Print(ls, edge)) == Parsed("Cliente", ItemsOf(ls, edge.borda))
  {
    OrderedNone(ls, CARNE_QUEIJO);
    RoundTripIff(ls, edge);
  }

  /* ---------- the customer's name ---------- */

  predicate NamesNoFlavour(h: string) {
    && (forall k | 0 <= k < |TABLE| :: !Contains(h, TABLE[k].0))
    && !Contains(h, "catupiry")
    && !Contains(h, "borda de queijo") && !Contains(h, "borda queijo")
  }

  /** `h` ends in a number, spaces and `past`, the number standing at `i..e`. */
  predicate NumberPast(h: string, i: nat, e: nat) {
    IsRun(h, i, e) && PastTail(h[e..])
  }

  lemma DigitsAt(s: string, i: nat, e: nat)
    requires i <= e <= |s| && AllDigits(s[i..e])
    ensures forall j | i <= j < e :: IsDigit(s[j])
  {
    assert forall j | i <= j < e :: s[j] == s[i..e][j - i];
  }

  lemma GroupAcross(h: string, c: char, z: string, w: string, i: nat, e: nat) returns (b: nat)
    requires IsPhrase(w) && IsStop(c) && Unstopped(w) && !Contains(h, w) && i < |h| + 2
    requires IsGroup(h + [c, ' '] + z, i, e, w)
    ensures b <= i && e <= |h| && NumberPast(h, b, e) && SOf(z, w)
  {
    var s := h + [c, ' '] + z;
    b := GroupEndsRun(s, i, e, w);
    DigitsAt(s, i, e);
    DigitsAt(s, b, e);
    assert s[|h|] == c && s[|h| + 1] == ' ';
    assert e <= |h|;
    assert s[e..] == h[e..] + [c, ' '] + z && s[b..e] == h[b..e];
    assert forall j | 0 <= j < |h| :: s[j] == h[j];
    if Contains(h[e..], w) { SuffixContains(h, e, w); }
    AcrossStopIff(h[e..], c, z, w);
  }

  /**
   Without such a number, or without `s de` and the flavour behind the stop, the text before the stop is passed over.
   */
  lemma CapturedBehindStop(h: string, c: char, z: string, w: string)
    requires IsPhrase(w) && IsStop(c) && Unstopped(w) && !Contains(h, w)
    requires !SOf(z, w) || forall i, e :: !NumberPast(h, i, e)
    ensures Captured(h + [c, ' '] + z, w) == Captured(z, w)
  {
    forall i: nat, e: nat | i < |h| + 2
      ensures !IsGroup(h + [c, ' '] + z, i, e, w)
    {
      if IsGroup(h + [c, ' '] + z, i, e, w) {
        var b := GroupAcross(h, c, z, w, i, e);
      }
    }
    CapturedAfter(h + [c, ' '], z, w);
  }

  /** Complete runs of digits with the same end have the same start. */
  lemma RunsMeet(s: string, i: nat, e: nat, i': nat)
    requires IsRun(s, i, e) && IsRun(s, i', e)
    ensures i == i'
  {
    DigitsAt(s, i, e);
    DigitsAt(s, i', e);
  }

  /** Only one number can stand directly before the ending. */
  lemma NumberPastUnique(h: string, i: nat, e: nat, i': nat, e': nat)
    requires NumberPast(h, i, e) && NumberPast(h, i', e')
    ensures i == i' && e == e'
  {
    DigitsAt(h, i, e);
    DigitsAt(h, i', e');
    PastEndUnique(h, e, e');
    RunsMeet(h, i, e, i');
  }

  lemma PastEndUnique(h: string, e: nat, e': nat)
    requires 0 < e <= |h| && IsDigit(h[e - 1]) && PastTail(h[e..])
    requires 0 < e' <= |h| && IsDigit(h[e' - 1]) && PastTail(h[e'..])
    ensures e == e'
  {
  }

  /** With both, the number before the stop is the one captured. */
  lemma CapturedAcross(h: string, c: char, z: string, w: string, i: nat, e: nat)
    requires IsPhrase(w) && IsStop(c) && Unstopped(w) && !Contains(h, w) && SOf(z, w) && NumberPast(h, i, e)
    ensures Captured(h + [c, ' '] + z, w) == Some(h[i..e])
  {
    var s := h + [c, ' '] + z;
    assert s[e..] == h[e..] + [c, ' '] + z && s[i..e] == h[i..e];
    assert forall j | 0 <= j < |h| :: s[j] == h[j];
    assert h[e..] != [];
    if Contains(h[e..], w) { SuffixContains(h, e, w); }
    AcrossStopIff(h[e..], c, z, w);
    assert IsRun(s, i, e);
    forall i': nat, e': nat | i' < i && IsRun(s, i', e')
      ensures !Continues(s[e'..], w)
    {
      if Continues(s[e'..], w) {
        var b := GroupAcross(h, c, z, w, i', e');
        NumberPastUnique(h, i, e, b, e');
      }
    }
    CaptureIsLeftmostRun(s, i, e, w);
    CapturedIs(s, w, i, e);
  }

  lemma SuffixContains(h: string, e: nat, w: string)
    requires e <= |h| && Contains(h[e..], w)
    ensures Contains(h, w)
  {
    var i: nat :| i <= |h[e..]| && MatchesAt(h[e..], i, w);
    assert h[e..][i..] == h[e + i..];
    assert MatchesAt(h, e + i, w);
  }

  /**
   The text before the stop ends in a number and `past`, and row `k` behind the stop takes that number for its own.
   */
  ghost predicate Misread(h: string, z: string, k: nat)
    requires k < |TABLE|
  {
    && SOf(z, TABLE[k].0)
    && exists i: nat, e: nat :: NumberPast(h, i, e) && ParseDecimal(h[i..e]) != Quantity(z, TABLE[k].0)
  }

  lemma SOfHolds(z: string, w: string)
    requires SOf(z, w)
    ensures Contains(z, w)
  {
    var p := DePosition(z[1..], w);
    assert z[1..][p..] == z[1 + p..];
    assert MatchesAt(z, 1 + p, w);
  }

  lemma QuantityBehindStop(h: string, c: char, z: string, k: nat)
    requires k < |TABLE| && IsStop(c) && !Contains(h, TABLE[k].0)
    ensures Quantity(h + [c, ' '] + z, TABLE[k].0) == Quantity(z, TABLE[k].0) <==> !Misread(h, z, k)
  {
    var w := TABLE[k].0;
    TablePhrases();
    hide Contains, SOf, NumberPast, IsPhrase;
    if i: nat, e: nat :| SOf(z, w) && NumberPast(h, i, e) {
      CapturedAcross(h, c, z, w, i, e);
      forall i': nat, e': nat | NumberPast(h, i', e')
        ensures i' == i && e' == e
      {
        NumberPastUnique(h, i, e, i', e');
      }
    } else {
      CapturedBehindStop(h, c, z, w);
    }
  }

  lemma BordaBehindStop(h: string, c: char, z: string)
    requires IsStop(c) && NamesNoFlavour(h)
    ensures Borda(h + [c, ' '] + z) == Borda(z)
  {
    InEither(h, c, z, "catupiry");
    InEither(h, c, z, "borda de queijo");
    InEither(h, c, z, "borda queijo");
    hide Contains;
  }

  lemma RowBehindStop(h: string, c: char, z: string, k: nat)
    requires k < |TABLE| && IsStop(c) && NamesNoFlavour(h)
    ensures |Row(h + [c, ' '] + z, k)| == |Row(z, k)|
    ensures Row(h + [c, ' '] + z, k) == Row(z, k) <==> !Misread(h, z, k)
  {
    TablePhrases();
    InEither(h, c, z, TABLE[k].0);
    BordaBehindStop(h, c, z);
    QuantityBehindStop(h, c, z, k);
    if SOf(z, TABLE[k].0) { SOfHolds(z, TABLE[k].0); }
    hide Contains, SOf, Borda, Quantity;
  }

  lemma AppendSame<T>(a: seq<T>, b: seq<T>, c: seq<T>, d: seq<T>)
    requires |a| == |c|
    ensures a + b == c + d <==> a == c && b == d
  {
    assert (a + b)[..|a|] == a && (c + d)[..|a|] == c && (a + b)[|a|..] == b && (c + d)[|a|..] == d;
  }

  lemma {:induction false} FoundSame(s: string, z: string, n: nat)
    requires n <= |TABLE| && forall k | 0 <= k < |TABLE| :: |Row(s, k)| == |Row(z, k)|
    ensures |Found(s, n)| == |Found(z, n)|
    ensures Found(s, n) == Found(z, n) <==> forall k | 0 <= k < n :: Row(s, k) == Row(z, k)
  {
    hide Row;
    if n > 0 {
      FoundSame(s, z, n - 1);
      AppendSame(Found(s, n - 1), Row(s, n - 1), Found(z, n - 1), Row(z, n - 1));
    }
  }

  /**
   Text before a comma or colon that names no flavour and no borda leaves the items alone exactly when no row is
   misread.
   */
  lemma ItemsBehindStop(h: string, c: char, z: string)
    requires IsStop(c) && NamesNoFlavour(h)
    ensures Items(h + [c, ' '] + z) == Items(z) <==> forall k | 0 <= k < |TABLE| :: !Misread(h, z, k)
  {
    var s := h + [c, ' '] + z;
    forall k | 0 <= k < |TABLE|
      ensures |Row(s, k)| == |Row(z, k)| && (Row(s, k) == Row(z, k) <==> !Misread(h, z, k))
    {
      RowBehindStop(h, c, z, k);
    }
    hide Row, Misread;
    FoundSame(s, z, |TABLE|);
  }

  /** The name ends at the first comma, wherever else the marker occurs behind it. */
  lemma NameIsCut(x: string, z: string)
    requires ',' !in x && !Contains(x, NOME) && Stripped(x)
    ensures NameField("nome: " + x + ", " + z) == Some(x)
  {
    var r := " " + x + ", " + z;
    var text := "nome: " + x + ", " + z;
    assert text == NOME + r;
    SplitAtMarker(r);
    ContainsAfterSpace(x, NOME);
    hide Contains, Split, MatchesAt, Strip, Stripped;
    var q := FirstPiece(" " + x, z);
    NameBeforeComma(x, q);
  }

  lemma SplitAtMarker(r: string)
    ensures Split(NOME + r, NOME) == [""] + Split(r, NOME)
  {
    var text := NOME + r;
    assert text[0..] == text && text[5..] == r;
    IndexOfIs(text, NOME, 0);
  }

  /** The first piece of a split at the marker reaches beyond a comma before which there is no marker. */
  lemma FirstPiece(a: string, z: string) returns (q: string)
    requires !Contains(a, NOME)
    ensures Split(a + ", " + z, NOME)[0] == a + [','] + q
  {
    var r := a + ", " + z;
    match IndexOf(r, NOME)
    case None =>
      q := " " + z;
    case Some(i) =>
      assert r == a + [','] + (" " + z);
      MatchAcross(a, ',', " " + z, NOME, i);
      q := r[|a| + 1..i];
      assert r[..i] == a + [','] + q;
  }

  lemma NameBeforeComma(x: string, q: string)
    requires ',' !in x && Stripped(x)
    ensures Strip(Split(" " + x + [','] + q, ",")[0]) == x
  {
    var p := " " + x + [','] + q;
    assert p[|x| + 1..][0] == ',';
    forall j: nat | j < |x| + 1
      ensures !MatchesAt(p, j, ",")
    {
      assert p[j..][0] == p[j] == (" " + x)[j];
    }
    IndexOfIs(p, ",", |x| + 1);
    assert p[..|x| + 1] == " " + x;
    StripOfStripped(x);
  }

  lemma NamePrefixLower(x: string, z: string)
    ensures Lower("nome: " + x + ", " + z) == ("nome: " + Lower(x)) + ", " + Lower(z)
  {
  }

  lemma NamePrefixNeutral(x: string, w: string)
    requires w != [] && w[0] !in "nome: " && ':' !in w
    ensures Contains("nome: " + x, w) <==> Contains(x, w)
  {
    ContainsSkip("nome: ", x, w);
  }

  lemma NamePrefixNames(x: string)
    requires NamesNoFlavour(x)
    ensures NamesNoFlavour("nome: " + x)
  {
    forall k | 0 <= k < |TABLE|
      ensures !Contains("nome: " + x, TABLE[k].0)
    {
      RowIsKnown(k);
      NamePrefixNeutral(x, TABLE[k].0);
    }
    NamePrefixNeutral(x, "catupiry");
    NamePrefixNeutral(x, "borda de queijo");
    NamePrefixNeutral(x, "borda queijo");
  }

  /**
   Prefixing any text with `nome: X, ` returns X as the name, and the items of the text exactly when no row is misread.
   A row can only be misread if X ends in a number and `past`, and the text starts with `s de`.
   */
  lemma NameRoundTrip(x: string, z: string)
    requires ',' !in x && !Contains(x, NOME) && Stripped(x) && NamesNoFlavour(Lower(x))
    ensures Parse("nome: " + x + ", " + z).Parsed? && Parse("nome: " + x + ", " + z).nome == x
    ensures Parse("nome: " + x + ", " + z).itens == Items(Lower(z)) <==>
            forall k | 0 <= k < |TABLE| :: !Misread("nome: " + Lower(x), Lower(z), k)
  {
    var text := "nome: " + x + ", " + z;
    NamePrefixLower(x, z);
    HoldsNome(Lower(x) + ", " + Lower(z));
    assert Lower(text) == "nome: " + (Lower(x) + ", " + Lower(z));
    NameIsCut(x, z);
    NamePrefixNames(Lower(x));
    assert ", " == [',', ' '];
    ItemsBehindStop("nome: " + Lower(x), ',', Lower(z));
    hide Misread, NamesNoFlavour, Contains;
  }

  /** A row is misread only if the name ends in `past` and the text starts with an `s`. */
  lemma NotMisread(h: string, z: string)
    requires z == [] || z[0] != 's' || |h| < 4 || h[|h| - 4..] != "past"
    ensures forall k | 0 <= k < |TABLE| :: !Misread(h, z, k)
  {
    forall i: nat, e: nat | NumberPast(h, i, e)
      ensures |h| >= 4 && h[|h| - 4..] == "past"
    {
      assert h[e..][|h| - e - 4..] == h[|h| - 4..];
    }
    hide NumberPast;
  }

  /** It does happen: "nome: 2 past, s de carne" orders two, although "s de carne" orders one. */
  lemma NameCanBeMisread(x: string, z: string)
    requires x == "2 past" && z == "s de carne"
    ensures Parse("nome: " + x + ", " + z).Parsed? && Parse("nome: " + x + ", " + z).nome == x
    ensures Parse("nome: " + x + ", " + z).itens != Items(Lower(z))
  {
    hide *;
    PlainName(x);
    MisreadPast(x, z);
    NameRoundTrip(x, z);
  }

  lemma PlainName(x: string)
    requires x == "2 past"
    ensures ',' !in x && !Contains(x, NOME) && Stripped(x) && NamesNoFlavour(Lower(x)) && Lower(x) == x
  {
    assert Lower(x) == x;
    NotContainsIfMissing(x, NOME, 0);
    NotContainsIfMissing(x, "catupiry", 0);
    NotContainsIfMissing(x, "borda de queijo", 0);
    NotContainsIfMissing(x, "borda queijo", 0);
    NotContainsIfMissing(x, TABLE[0].0, 0);
    NotContainsIfMissing(x, TABLE[1].0, 0);
    NotContainsIfMissing(x, TABLE[2].0, 0);
    NotContainsIfMissing(x, TABLE[3].0, 0);
    NotContainsIfMissing(x, TABLE[4].0, 0);
    NotContainsIfMissing(x, TABLE[5].0, 2);
  }

  lemma MisreadPast(x: string, z: string)
    requires x == "2 past" && z == "s de carne"
    ensures 2 < |TABLE| && Misread("nome: " + Lower(x), Lower(z), 2)
  {
    assert Lower(x) == x && "nome: " + x == "nome: 2 past" && Lower(z) == z;
    NumberAndPast();
    SDeCarne();
    hide NumberPast, SOf, Quantity;
  }

  lemma NumberAndPast()
    ensures NumberPast("nome: 2 past", 6, 7) && ParseDecimal("nome: 2 past"[6..7]) == 2
  {
    var h := "nome: 2 past";
    assert h[6..7] == "2" && h[7..] == " past" && h[7..][1..] == "past";
  }

  lemma SDeCarne()
    ensures SOf("s de carne", "carne") && Quantity("s de carne", "carne") == 1
  {
    var z := "s de carne";
    assert z[1..] == " " + "de carne" && "de carne"[2..] == " " + "carne";
    SkipOneSpace("de carne");
    SkipOneSpace("carne");
    NoDigitsNoCapture(z, "carne");
  }

  lemma NoDigitsNoCapture(z: string, w: string)
    requires forall i | 0 <= i < |z| :: !IsDigit(z[i])
    ensures Captured(z, w) == None
  {
    forall i: nat, e: nat
      ensures !IsGroup(z, i, e, w)
    {
      if i < e <= |z| { assert z[i..e][0] == z[i]; }
    }
  }

  lemma HoldsNome(r: string)
    ensures Contains("nome: " + r, NOME)
  {
    ContainsMiddle("", NOME, " " + r);
    assert "" + NOME + (" " + r) == "nome: " + r;
  }

  /** Name and list together survive printing and parsing. */
  lemma NamedRoundTrip(x: string, ls: seq<Line>, edge: Edge)
    requires ',' !in x && !Contains(x, NOME) && Stripped(x) && NamesNoFlavour(Lower(x))
    requires ls != []
    ensures Parse("nome: " + x + ", " + Print(ls, edge)) == Parsed(x, ItemsOf(ls, edge.borda)) <==>
            Canonical(ls) && Faithful(ls, edge.borda)
  {
    PrintIsPlain(ls, edge);
    NameRoundTrip(x, Print(ls, edge));
    NotMisread("nome: " + Lower(x), Print(ls, edge));
    RoundTripIff(ls, edge);
  }

  /* ---------- the order text of the web page ---------- */

  /** What the page's order tool sends for customer `x` and order `p`. */
  function FormText(x: string, p: string): string {
    "Novo pedido de " + x + ": " + p
  }

  /** The customer's name and the colon behind it make up a name marker. */
  predicate MarksName(x: string) {
    Contains(Lower(x) + ":", NOME)
  }

  lemma FormLower(x: string, p: string)
    ensures Lower(FormText(x, p)) == "novo pedido de " + Lower(x) + ": " + Lower(p)
  {
    LowerConcat("Novo pedido de " + x + ": ", p);
    LowerConcat("Novo pedido de " + x, ": ");
    LowerConcat("Novo pedido de ", x);
    assert Lower("Novo pedido de ") == "novo pedido de ";
    assert Lower(": ") == ": ";
  }

  lemma FormMarker(y: string, z: string)
    ensures Contains("novo pedido de " + y + ":", NOME) <==> Contains(y + ":", NOME)
    ensures Contains("novo pedido de " + y + ": " + z, NOME) <==> Contains(y + ":", NOME) || Contains(z, NOME)
  {
    var a := "novo pedido de";
    assert "novo pedido de " + y + ":" == a + [' '] + (y + ":");
    assert "novo pedido de " + y + ": " + z == (a + [' '] + (y + ":")) + [' '] + z;
    NotContainsIfMissing(a, NOME, 4);
    hide Contains;
    ContainsAcross(a, ' ', y + ":", NOME);
    ContainsAcross(a + [' '] + (y + ":"), ' ', z, NOME);
  }

  lemma NoEarlierMatch(a: string, b: string, sep: string, i: nat, j: nat)
    requires ' ' !in sep && !Contains(a, sep) && IndexOf(b, sep) == Some(i) && j < |a| + 1 + i
    ensures !MatchesAt(a + " " + b, j, sep)
  {
    assert a + " " + b == a + [' '] + b;
    if MatchesAt(a + " " + b, j, sep) {
      MatchAcross(a, ' ', b, sep, j);
    }
  }

  lemma MatchShift(a: string, b: string, sep: string, i: nat)
    requires MatchesAt(b, i, sep)
    ensures i + |sep| <= |b| && MatchesAt(a + " " + b, |a| + 1 + i, sep)
  {
    assert (a + " " + b)[|a| + 1 + i..] == b[i..];
  }

  lemma IndexBehind(a: string, b: string, sep: string, i: nat)
    requires ' ' !in sep && !Contains(a, sep) && IndexOf(b, sep) == Some(i)
    ensures i + |sep| <= |b| && IndexOf(a + " " + b, sep) == Some(|a| + 1 + i)
  {
    hide Contains, MatchesAt, IndexOf;
    MatchShift(a, b, sep, i);
    forall j: nat | j < |a| + 1 + i
      ensures !MatchesAt(a + " " + b, j, sep)
    {
      NoEarlierMatch(a, b, sep, i, j);
    }
    IndexOfIs(a + " " + b, sep, |a| + 1 + i);
  }

  lemma NothingBehind(a: string, b: string, sep: string)
    requires ' ' !in sep && !Contains(a, sep) && IndexOf(b, sep) == None
    ensures IndexOf(a + " " + b, sep) == None
  {
    assert a + " " + b == a + [' '] + b;
    ContainsAcross(a, ' ', b, sep);
  }

  /** Text before a space that holds no separator only lengthens the first piece. */
  lemma SplitBehind(a: string, b: string, sep: string)
    requires sep != [] && ' ' !in sep && !Contains(a, sep)
    ensures Split(a + " " + b, sep) == [a + " " + Split(b, sep)[0]] + Split(b, sep)[1..]
  {
    hide Contains, MatchesAt, IndexOf;
    match IndexOf(b, sep)
    case None =>
      NothingBehind(a, b, sep);
    case Some(i) =>
      IndexBehind(a, b, sep, i);
      var s, n := a + " " + b, |a| + 1 + i;
      assert s[..n] == a + " " + b[..i];
      assert s[n + |sep|..] == b[i + |sep|..];
  }

  lemma FormUnmarked(x: string)
    requires !MarksName(x)
    ensures !Contains("Novo pedido de " + x + ":", NOME)
  {
    FormPrefixLower(x);
    FormMarker(Lower(x), "");
    hide Contains, Lower;
    if Contains("Novo pedido de " + x + ":", NOME) {
      LowerFixed(NOME);
      LowerKeeps("Novo pedido de " + x + ":", NOME);
    }
  }

  lemma FormPrefixLower(x: string)
    ensures Lower("Novo pedido de " + x + ":") == "novo pedido de " + Lower(x) + ":"
  {
    LowerConcat("Novo pedido de " + x, ":");
    LowerConcat("Novo pedido de ", x);
    assert Lower("Novo pedido de ") == "novo pedido de ";
    assert Lower(":") == ":";
  }

  lemma FormNameField(x: string, p: string)
    requires !MarksName(x)
    ensures NameField(FormText(x, p)) == NameField(p)
  {
    var a := "Novo pedido de " + x + ":";
    FormUnmarked(x);
    assert FormText(x, p) == a + " " + p;
    hide Contains;
    SplitBehind(a, p, NOME);
  }

  lemma FormPrefixNames(y: string)
    requires NamesNoFlavour(y)
    ensures NamesNoFlavour("novo pedido de " + y)
  {
    forall k | 0 <= k < |TABLE|
      ensures !Contains("novo pedido de " + y, TABLE[k].0)
    {
      RowIsKnown(k);
      FormPrefixNeutral(y, TABLE[k].0);
    }
    FormPrefixNeutral(y, "catupiry");
    FormPrefixNeutral(y, "borda de queijo");
    FormPrefixNeutral(y, "borda queijo");
  }

  lemma FormPrefixNeutral(y: string, w: string)
    requires w == "palmito" || (w != [] && w[0] !in "novo pedido de ")
    ensures Contains("novo pedido de " + y, w) <==> Contains(y, w)
  {
    if w == "palmito" {
      var a := "novo pedido de";
      assert "novo pedido de " + y == a + [' '] + y;
      NotContainsIfMissing(a, w, 3);
      ContainsAcross(a, ' ', y, w);
    } else {
      ContainsSkip("novo pedido de ", y, w);
    }
  }

  /**
   The page's text for customer `x` and order `p`: unless `x` makes up a name marker, the parser raises or reads a
   name exactly as from `p` alone, and so takes the order for "Cliente" unless `p` holds the marker itself. For a
   customer without flavour words the items are those of `p` exactly when no row is misread across the colon.
   */
  lemma FormRead(x: string, p: string)
    ensures Contains(Lower(FormText(x, p)), NOME) <==> MarksName(x) || Contains(Lower(p), NOME)
    ensures !MarksName(x) ==> (Parse(FormText(x, p)).IndexError? <==> Parse(p).IndexError?)
    ensures !MarksName(x) && Parse(p).Parsed? ==> Parse(FormText(x, p)).nome == Parse(p).nome
    ensures !MarksName(x) && !Contains(Lower(p), NOME) ==>
      Parse(FormText(x, p)) == Parsed("Cliente", Items(Lower(FormText(x, p))))
    ensures NamesNoFlavour(Lower(x)) && Parse(FormText(x, p)).Parsed? ==>
      (Parse(FormText(x, p)).itens == Items(Lower(p)) <==>
       forall k | 0 <= k < |TABLE| :: !Misread("novo pedido de " + Lower(x), Lower(p), k))
  {
    FormLower(x, p);
    FormMarker(Lower(x), Lower(p));
    if !MarksName(x) {
      FormNameField(x, p);
    }
    if NamesNoFlavour(Lower(x)) {
      FormPrefixNames(Lower(x));
      ItemsBehindStop("novo pedido de " + Lower(x), ':', Lower(p));
      assert ": " == [':', ' '];
    }
    hide FormText, Misread, NamesNoFlavour, Contains, Items, NameField, MarksName;
  }

  /** So a printed order comes back under exactly the same condition, but never under the customer's name. */
  lemma FormRoundTrip(x: string, ls: seq<Line>, edge: Edge)
    requires ls != [] && !MarksName(x) && NamesNoFlavour(Lower(x))
    ensures Parse(FormText(x, Print(ls, edge))) == Parsed("Cliente", ItemsOf(ls, edge.borda)) <==>
            Canonical(ls) && Faithful(ls, edge.borda)
  {
    PrintIsPlain(ls, edge);
    FormRead(x, Print(ls, edge));
    NotMisread("novo pedido de " + Lower(x), Print(ls, edge));
    RoundTripIff(ls, edge);
  }

  /* ---------- a documented form the pattern does not read ---------- */

  lemma SingularDoesNotContinue(s: SaborType)
    ensures IsPhrase(Phrase(s)) && !Continues(" pastel de " + Phrase(s), Phrase(s))
  {
    var w := Phrase(s);
    var u := "pastel de " + w;
    assert " pastel de " + w == " " + u;
    ContinuesIff(" pastel de " + w, w);
    SkipOneSpace(u);
    assert u[0] == 'p' && u[2] == 's' && u[6] == ' ';
    assert s == PALMITO ==> w[2] == 'l';
  }

  lemma SingularNoDigit(s: SaborType)
    ensures forall i | 0 <= i < |" pastel de " + Phrase(s)| :: !IsDigit((" pastel de " + Phrase(s))[i])
  {
  }

  /** "N pastel de S" (singular) is always read as one, whatever N is: "pastel" does not fit `past..s`. */
  lemma SingularPastelIsOne(n: nat, s: SaborType)
    ensures Quantity(Decimal(n) + " pastel de " + Phrase(s), Phrase(s)) == 1
  {
    var m := " pastel de " + Phrase(s);
    var w := Phrase(s);
    SingularDoesNotContinue(s);
    assert m + "" == m;
    SingularNoDigit(s);
    CapturedSkips(Decimal(n), m, "", w);
    NothingCaptured(w);
    assert Decimal(n) + m + "" == Decimal(n) + " pastel de " + Phrase(s);
  }
}
