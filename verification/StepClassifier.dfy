/**
 The chat page's progress bar: `detectStep` reads a step out of a text by keywords, and the effect keeps the largest
 step over all messages. The backend's replies are written so that the two agree.
 */
module StepClassifier {
  import opened Strings
  import opened Orders
  import opened Replies
  import opened SerialRuns

  /** `STEP_KEYWORDS` */
  const KEYWORDS: seq<(string, int)> := [
    ("pedido", 0), ("fila", 1), ("cozinha", 2), ("preparo", 3), ("entrega", 4), ("concluido", 4),
    ("entregue", 4), ("pronto", 3), ("embalando", 3), ("fritando", 2), ("preparando", 2)
  ]

  predicate Mentioned(text: string, i: nat)
    requires i < |KEYWORDS|
  {
    Contains(Lower(text), KEYWORDS[i].0)
  }

  /** No keyword of step `k` or later occurs in the text. */
  ghost predicate Below(text: string, k: int) {
    forall i | 0 <= i < |KEYWORDS| && KEYWORDS[i].1 >= k :: !Mentioned(text, i)
  }

  function Max(a: int, b: int): int {
    if a < b then b else a
  }

  /** The largest step among the first `n` keywords that occur, -1 if none does. */
  function StepAmong(text: string, n: nat): int
    requires n <= |KEYWORDS|
  {
    if n == 0 then -1
    else Max(StepAmong(text, n - 1), if Mentioned(text, n - 1) then KEYWORDS[n - 1].1 else -1)
  }

  function StepOf(text: string): int {
    StepAmong(text, |KEYWORDS|)
  }

  method DetectStep(text: string) returns (maxStep: int)
    ensures maxStep == StepOf(text)
  {
    var lower := Lower(text);
    maxStep := -1;
    for i := 0 to |KEYWORDS|
      invariant maxStep == StepAmong(text, i)
    {
      if Contains(lower, KEYWORDS[i].0) && KEYWORDS[i].1 > maxStep {
        maxStep := KEYWORDS[i].1;
      }
    }
  }

  lemma {:induction false} StepAmongBelow(text: string, n: nat, k: int)
    requires n <= |KEYWORDS| && k >= 0
    ensures StepAmong(text, n) < k <==> forall i | 0 <= i < n && KEYWORDS[i].1 >= k :: !Mentioned(text, i)
  {
    if n > 0 { StepAmongBelow(text, n - 1, k); }
  }

  /** The step stays below `k` exactly when no keyword of step `k` or later occurs. */
  lemma StepBelowIff(text: string, k: int)
    requires k >= 0
    ensures StepOf(text) < k <==> Below(text, k)
  {
    StepAmongBelow(text, |KEYWORDS|, k);
  }

  /** The words of each step, largest step first; the order of the table plays no role. */
  lemma StepByWords(text: string)
    ensures var l := Lower(text);
            StepOf(text) ==
            if Contains(l, "entrega") || Contains(l, "concluido") || Contains(l, "entregue") then 4
            else if Contains(l, "preparo") || Contains(l, "pronto") || Contains(l, "embalando") then 3
            else if Contains(l, "cozinha") || Contains(l, "fritando") || Contains(l, "preparando") then 2
            else if Contains(l, "fila") then 1
            else if Contains(l, "pedido") then 0
            else -1
  {
    hide Contains, Lower;
    FirstWords(text);
    assert StepAmong(text, 7) == Max(StepAmong(text, 6), if Contains(Lower(text), "entregue") then 4 else -1);
    assert StepAmong(text, 8) == Max(StepAmong(text, 7), if Contains(Lower(text), "pronto") then 3 else -1);
    assert StepAmong(text, 9) == Max(StepAmong(text, 8), if Contains(Lower(text), "embalando") then 3 else -1);
    assert StepAmong(text, 10) == Max(StepAmong(text, 9), if Contains(Lower(text), "fritando") then 2 else -1);
    assert StepAmong(text, 11) == Max(StepAmong(text, 10), if Contains(Lower(text), "preparando") then 2 else -1);
  }

  lemma FirstWords(text: string)
    ensures var l := Lower(text);
            StepAmong(text, 6) ==
            if Contains(l, "entrega") || Contains(l, "concluido") then 4
            else if Contains(l, "preparo") then 3
            else if Contains(l, "cozinha") then 2
            else if Contains(l, "fila") then 1
            else if Contains(l, "pedido") then 0
            else -1
  {
    hide Contains, Lower;
    assert StepAmong(text, 1) == Max(StepAmong(text, 0), if Contains(Lower(text), "pedido") then 0 else -1);
    assert StepAmong(text, 2) == Max(StepAmong(text, 1), if Contains(Lower(text), "fila") then 1 else -1);
    assert StepAmong(text, 3) == Max(StepAmong(text, 2), if Contains(Lower(text), "cozinha") then 2 else -1);
    assert StepAmong(text, 4) == Max(StepAmong(text, 3), if Contains(Lower(text), "preparo") then 3 else -1);
    assert StepAmong(text, 5) == Max(StepAmong(text, 4), if Contains(Lower(text), "entrega") then 4 else -1);
    assert StepAmong(text, 6) == Max(StepAmong(text, 5), if Contains(Lower(text), "concluido") then 4 else -1);
  }

  lemma {:induction false} StepAmongBounds(text: string, n: nat)
    requires n <= |KEYWORDS|
    ensures -1 <= StepAmong(text, n) <= 4
  {
    if n > 0 { StepAmongBounds(text, n - 1); }
  }

  /* ---------- the classifier and concatenation ---------- */

  predicate IsLetter(c: char) {
    'a' <= c <= 'z' || 'A' <= c <= 'Z'
  }

  lemma KeywordsAreLetters(i: nat, c: char)
    requires i < |KEYWORDS| && !IsLetter(c)
    ensures c !in KEYWORDS[i].0
  {
  }

  lemma MentionedAcross(a: string, c: char, b: string, i: nat)
    requires i < |KEYWORDS| && !IsLetter(c)
    ensures Mentioned(a + [c] + b, i) <==> Mentioned(a, i) || Mentioned(b, i)
  {
    KeywordsAreLetters(i, c);
    assert Lower(a + [c] + b) == Lower(a) + [c] + Lower(b);
    ContainsAcross(Lower(a), c, Lower(b), KEYWORDS[i].0);
  }

  lemma MaxOfMax(x: int, y: int, inA: bool, inB: bool, i: nat)
    requires i < |KEYWORDS| && x >= -1 && y >= -1
    ensures var k := KEYWORDS[i].1;
            Max(Max(x, y), if inA || inB then k else -1)
            == Max(Max(x, if inA then k else -1), Max(y, if inB then k else -1))
  {
  }

  lemma {:induction false} StepAmongAcross(a: string, c: char, b: string, n: nat)
    requires n <= |KEYWORDS| && !IsLetter(c)
    ensures StepAmong(a + [c] + b, n) == Max(StepAmong(a, n), StepAmong(b, n))
  {
    if n > 0 {
      hide Mentioned, KEYWORDS;
      StepAmongAcross(a, c, b, n - 1);
      MentionedAcross(a, c, b, n - 1);
      StepAmongBounds(a, n - 1);
      StepAmongBounds(b, n - 1);
      MaxOfMax(StepAmong(a, n - 1), StepAmong(b, n - 1), Mentioned(a, n - 1), Mentioned(b, n - 1), n - 1);
    }
  }

  function MaxStep(texts: seq<string>): int {
    if texts == [] then -1 else Max(MaxStep(texts[..|texts| - 1]), StepOf(texts[|texts| - 1]))
  }

  lemma NothingInEmpty()
    ensures StepOf("") == -1
  {
    forall i | 0 <= i < |KEYWORDS|
      ensures !Mentioned("", i)
    {
      NotContainsIfMissing("", KEYWORDS[i].0, 0);
    }
    StepBelowIff("", 0);
    StepAmongBounds("", |KEYWORDS|);
  }

  lemma {:induction false} JoinLast(parts: seq<string>, last: string, sep: string)
    requires parts != []
    ensures Join(parts + [last], sep) == Join(parts, sep) + sep + last
  {
    assert (parts + [last])[1..] == parts[1..] + [last];
    if |parts| > 1 {
      JoinLast(parts[1..], last, sep);
      var rest := Join(parts[1..], sep);
      assert parts[0] + sep + (rest + sep + last) == parts[0] + sep + rest + sep + last;
    } else {
      assert Join([last], sep) == last;
    }
  }

  /** The largest step over any list of texts is the step of the texts joined by spaces. */
  lemma {:induction false} StepOfJoined(texts: seq<string>)
    ensures StepOf(Join(texts, " ")) == MaxStep(texts)
  {
    if texts == [] {
      NothingInEmpty();
    } else {
      var init, last := texts[..|texts| - 1], texts[|texts| - 1];
      StepOfJoined(init);
      StepAmongBounds(last, |KEYWORDS|);
      if init != [] {
        JoinLast(init, last, " ");
        assert init + [last] == texts;
        StepAmongAcross(Join(init, " "), ' ', last, |KEYWORDS|);
      }
    }
  }

  lemma {:induction false} MoreNeverLowers(texts: seq<string>, more: seq<string>)
    ensures MaxStep(texts) <= MaxStep(texts + more)
  {
    if more == [] {
      assert texts + more == texts;
    } else {
      MoreNeverLowers(texts, more[..|more| - 1]);
      assert (texts + more)[..|texts + more| - 1] == texts + more[..|more| - 1];
    }
  }

  /* ---------- the effect ---------- */

  /** `msg.content`: a string, typed parts, or anything else. */
  datatype Content = Text(text: string) | Parts(parts: seq<(string, string)>) | Other

  function TextsOf(parts: seq<(string, string)>): seq<string> {
    if parts == [] then []
    else (if parts[0].0 == "text" then [parts[0].1] else []) + TextsOf(parts[1..])
  }

  function TextOf(c: Content): string {
    match c
    case Text(s) => s
    case Parts(ps) => Join(TextsOf(ps), " ")
    case Other => ""
  }

  function Texts(messages: seq<Content>): seq<string> {
    seq(|messages|, i requires 0 <= i < |messages| => TextOf(messages[i]))
  }

  /** What the bar shows once the effect has run on `messages`, having shown `shown` before. */
  function Bar(shown: int, messages: seq<Content>): int {
    var step := StepOf(Join(Texts(messages), " "));
    if step < 0 then shown else step
  }

  class StepTracker {
    var lastMessageCount: nat
    var currentStep: int

    constructor ()
      ensures lastMessageCount == 0 && currentStep == -1
    {
      lastMessageCount, currentStep := 0, -1;
    }

    /** The effect: skipped while the number of messages is unchanged, otherwise the step of the whole conversation. */
    method OnMessages(messages: seq<Content>)
      modifies this
      ensures lastMessageCount == |messages|
      ensures currentStep ==
        if |messages| == old(lastMessageCount) then old(currentStep) else Bar(old(currentStep), messages)
    {
      if |messages| == lastMessageCount {
        return;
      }
      lastMessageCount := |messages|;
      var maxStep := -1;
      for i := 0 to |messages|
        invariant maxStep == MaxStep(Texts(messages[..i]))
        invariant lastMessageCount == |messages| && currentStep == old(currentStep)
      {
        var step := DetectStep(TextOf(messages[i]));
        assert Texts(messages[..i + 1])[..i] == Texts(messages[..i]);
        if step > maxStep {
          maxStep := step;
        }
      }
      assert messages[..|messages|] == messages;
      StepOfJoined(Texts(messages));
      if maxStep >= 0 {
        currentStep := maxStep;
      }
    }
  }

  /* ---------- what a message counts for ---------- */

  /** The conversation holds the text `t`: as a whole message, or as a part typed "text". */
  ghost predicate Says(messages: seq<Content>, t: string) {
    exists m | 0 <= m < |messages| ::
      messages[m] == Text(t)
      || (messages[m].Parts? && exists i | 0 <= i < |messages[m].parts| :: messages[m].parts[i] == ("text", t))
  }

  lemma {:induction false} TextsOfMembers(parts: seq<(string, string)>, t: string)
    ensures t in TextsOf(parts) <==> exists i | 0 <= i < |parts| :: parts[i] == ("text", t)
  {
    if parts != [] {
      TextsOfMembers(parts[1..], t);
      assert forall i | 0 < i < |parts| :: parts[i] == parts[1..][i - 1];
      if i :| 0 <= i < |parts| && parts[i] == ("text", t) {
        assert i > 0 ==> parts[1..][i - 1] == ("text", t);
      }
    }
  }

  lemma {:induction false} MaxStepIs(texts: seq<string>)
    ensures forall t | t in texts :: StepOf(t) <= MaxStep(texts)
    ensures MaxStep(texts) == -1 || exists t | t in texts :: StepOf(t) == MaxStep(texts)
    ensures MaxStep(texts) >= -1
  {
    if texts != [] {
      var n := |texts| - 1;
      MaxStepIs(texts[..n]);
      StepAmongBounds(texts[n], |KEYWORDS|);
      hide StepOf;
      assert texts == texts[..n] + [texts[n]];
    }
  }

  /** A message counts for the largest step among its own texts. */
  lemma MessageStep(c: Content)
    ensures forall t | Says([c], t) :: StepOf(t) <= StepOf(TextOf(c))
    ensures StepOf(TextOf(c)) == -1 || exists t | Says([c], t) :: StepOf(t) == StepOf(TextOf(c))
    ensures StepOf(TextOf(c)) >= -1
  {
    StepAmongBounds(TextOf(c), |KEYWORDS|);
    hide StepOf;
    match c
    case Text(s) =>
      assert [c][0] == Text(s);
    case Parts(ps) =>
      PartsStep(ps);
    case Other =>
      NothingInEmpty();
  }

  lemma PartsStep(ps: seq<(string, string)>)
    ensures forall t | Says([Parts(ps)], t) :: StepOf(t) <= StepOf(TextOf(Parts(ps)))
    ensures StepOf(TextOf(Parts(ps))) == -1 || exists t | Says([Parts(ps)], t) :: StepOf(t) == StepOf(TextOf(Parts(ps)))
  {
    hide StepOf;
    StepOfJoined(TextsOf(ps));
    MaxStepIs(TextsOf(ps));
    forall t
      ensures Says([Parts(ps)], t) <==> t in TextsOf(ps)
    {
      TextsOfMembers(ps, t);
      assert [Parts(ps)][0] == Parts(ps);
    }
    hide Says;
  }

  lemma SaysOne(messages: seq<Content>, m: nat, t: string)
    requires m < |messages| && Says([messages[m]], t)
    ensures Says(messages, t)
  {
    assert [messages[m]][0] == messages[m];
  }

  lemma OneSays(messages: seq<Content>, t: string) returns (m: nat)
    requires Says(messages, t)
    ensures m < |messages| && Says([messages[m]], t)
  {
    m :| m < |messages| &&
      (messages[m] == Text(t)
       || (messages[m].Parts? && exists i | 0 <= i < |messages[m].parts| :: messages[m].parts[i] == ("text", t)));
    assert [messages[m]][0] == messages[m];
  }

  /**
   The bar after the effect, without the joining of texts: no text said is of a larger step; if some text said is of a
   step at all, one of them is of the step shown; and if none is, the bar stays. Parts that are not typed "text" count
   for nothing.
   */
  lemma BarIsLargestSaid(shown: int, messages: seq<Content>)
    ensures (forall t | Says(messages, t) :: StepOf(t) < 0) ==> Bar(shown, messages) == shown
    ensures (exists t | Says(messages, t) :: StepOf(t) >= 0) ==>
      && (forall t | Says(messages, t) :: StepOf(t) <= Bar(shown, messages))
      && (exists t | Says(messages, t) :: StepOf(t) == Bar(shown, messages))
  {
    var texts := Texts(messages);
    StepOfJoined(texts);
    MaxStepIs(texts);
    forall t | Says(messages, t)
      ensures StepOf(t) <= MaxStep(texts)
    {
      var m := OneSays(messages, t);
      MessageStep(messages[m]);
      assert texts[m] in texts;
    }
    if MaxStep(texts) >= 0 {
      var u :| u in texts && StepOf(u) == MaxStep(texts);
      var m :| 0 <= m < |texts| && texts[m] == u;
      MessageStep(messages[m]);
      var t :| Says([messages[m]], t) && StepOf(t) == StepOf(u);
      SaysOne(messages, m, t);
    }
  }

  /* ---------- texts that mention nothing late ---------- */

  lemma BelowAcross(a: string, c: char, b: string, k: int)
    requires !IsLetter(c) && Below(a, k) && Below(b, k)
    ensures Below(a + [c] + b, k)
  {
    forall i | 0 <= i < |KEYWORDS| && KEYWORDS[i].1 >= k
      ensures !Mentioned(a + [c] + b, i)
    {
      MentionedAcross(a, c, b, i);
    }
  }

  predicate NoLetters(s: string) {
    forall i | 0 <= i < |s| :: !IsLetter(s[i])
  }

  lemma {:induction false} BelowBehind(sep: string, b: string, k: int)
    requires NoLetters(sep) && k >= 0 && Below(b, k)
    ensures Below(sep + b, k)
  {
    if sep == [] {
      assert sep + b == b;
    } else {
      BelowBehind(sep[1..], b, k);
      NothingInEmpty();
      StepBelowIff("", k);
      BelowAcross("", sep[0], sep[1..] + b, k);
      assert "" + [sep[0]] + (sep[1..] + b) == sep + b;
    }
  }

  /** A separator without letters keeps two texts apart. */
  lemma BelowApart(a: string, sep: string, b: string, k: int)
    requires sep != [] && NoLetters(sep) && k >= 0 && Below(a, k) && Below(b, k)
    ensures Below(a + sep + b, k)
  {
    BelowBehind(sep[1..], b, k);
    BelowAcross(a, sep[0], sep[1..] + b, k);
    assert a + [sep[0]] + (sep[1..] + b) == a + sep + b;
  }

  lemma {:induction false} JoinBelow(parts: seq<string>, sep: string, k: int)
    requires sep != [] && NoLetters(sep) && k >= 0
    requires forall i | 0 <= i < |parts| :: Below(parts[i], k)
    ensures Below(Join(parts, sep), k)
  {
    if parts == [] {
      NothingInEmpty();
      StepBelowIff("", k);
    } else if |parts| > 1 {
      JoinBelow(parts[1..], sep, k);
      BelowApart(parts[0], sep, Join(parts[1..], sep), k);
    }
  }

  function Upper(c: char): char {
    if 'a' <= c <= 'z' then (c as int - 32) as char else c
  }

  /** None of the letters of `h` occurs in the text, in either case. */
  predicate Lacks(text: string, h: string) {
    forall j | 0 <= j < |h| :: 'a' <= h[j] <= 'z' && h[j] !in text && Upper(h[j]) !in text
  }

  /** Every keyword of step `k` or later uses one of the letters of `h`. */
  ghost predicate Hits(h: string, k: int) {
    forall i | 0 <= i < |KEYWORDS| && KEYWORDS[i].1 >= k :: exists j | 0 <= j < |h| :: h[j] in KEYWORDS[i].0
  }

  lemma BelowIfLacks(text: string, h: string, k: int)
    requires Hits(h, k) && Lacks(text, h)
    ensures Below(text, k)
  {
    forall i | 0 <= i < |KEYWORDS| && KEYWORDS[i].1 >= k
      ensures !Mentioned(text, i)
    {
      var j :| 0 <= j < |h| && h[j] in KEYWORDS[i].0;
      var m :| 0 <= m < |KEYWORDS[i].0| && KEYWORDS[i].0[m] == h[j];
      LowerLacks(text, h[j]);
      NotContainsIfMissing(Lower(text), KEYWORDS[i].0, m);
    }
  }

  lemma LowerLacks(text: string, c: char)
    requires 'a' <= c <= 'z' && c !in text && Upper(c) !in text
    ensures c !in Lower(text)
  {
  }

  lemma LacksConcat(a: string, b: string, h: string)
    requires Lacks(a, h) && Lacks(b, h)
    ensures Lacks(a + b, h)
  {
  }

  lemma DecimalLacks(n: nat, h: string)
    requires forall j | 0 <= j < |h| :: 'a' <= h[j] <= 'z'
    ensures Lacks(Decimal(n), h)
  {
  }

  /** A hexadecimal id, as `uuid4` gives. */
  predicate IsHex(id: string) {
    forall i | 0 <= i < |id| :: IsDigit(id[i]) || 'a' <= id[i] <= 'f'
  }

  lemma HexLacks(id: string, h: string)
    requires IsHex(id) && forall j | 0 <= j < |h| :: 'g' <= h[j] <= 'z'
    ensures Lacks(id, h)
  {
  }

  lemma HitsLate(h: string)
    requires h in {"nr", "np", "ne", "ptdz", "pdzr"}
    ensures Hits(h, 2)
  {
    forall i | 0 <= i < |KEYWORDS| && KEYWORDS[i].1 >= 2
      ensures exists j | 0 <= j < |h| :: h[j] in KEYWORDS[i].0
    {
      assert h[0] in KEYWORDS[i].0 || h[1] in KEYWORDS[i].0
        || (|h| == 4 && (h[2] in KEYWORDS[i].0 || h[3] in KEYWORDS[i].0));
    }
  }

  lemma HitsLast(h: string)
    requires h in {"gl", "gu", "gc", "tu"}
    ensures Hits(h, 4)
  {
    forall i | 0 <= i < |KEYWORDS| && KEYWORDS[i].1 >= 4
      ensures exists j | 0 <= j < |h| :: h[j] in KEYWORDS[i].0
    {
      assert h[0] in KEYWORDS[i].0 || h[1] in KEYWORDS[i].0;
    }
  }

  /* ---------- the backend's replies ---------- */

  lemma WordBelow(text: string, h: string)
    requires h in {"nr", "np", "ne", "ptdz", "pdzr"} && Lacks(text, h)
    ensures Below(text, 2)
  {
    HitsLate(h);
    BelowIfLacks(text, h, 2);
  }

  lemma SaborBelow(s: SaborType)
    ensures Below(SaborValue(s), 2)
  {
    WordBelow(SaborValue(s), if s == PALMITO then "nr" else "ptdz");
  }

  lemma BordaBelow(b: BordaType)
    ensures Below("(borda" + " " + (BordaValue(b) + ")"), 2)
  {
    var w := BordaValue(b) + ")";
    match b {
      case NORMAL => WordBelow(w, "ptdz");
      case BORDA_QUEIJO => WordBelow(w, "nr");
      case CATUPIRY => WordBelow(w, "ne");
    }
    WordBelow("(borda", "np");
    BelowApart("(borda", " ", w, 2);
  }

  lemma ItemBelow(i: PastelItem)
    ensures Below(ItemText(i), 2)
  {
    var d := Decimal(i.quantidade) + "x pastel de";
    DecimalLacks(i.quantidade, "nr");
    LacksConcat(Decimal(i.quantidade), "x pastel de", "nr");
    WordBelow(d, "nr");
    SaborBelow(i.sabor);
    BordaBelow(i.borda);
    var b := "(borda" + " " + (BordaValue(i.borda) + ")");
    BelowApart(SaborValue(i.sabor), " ", b, 2);
    BelowApart(d, " ", SaborValue(i.sabor) + " " + b, 2);
    assert ItemText(i) == d + " " + (SaborValue(i.sabor) + " " + b);
  }

  lemma SummaryEndsBelow(id: string)
    requires IsHex(id)
    ensures Below("Pedido #" + id + ":", 2) && Below("— Status: " + StatusValue(PEDIDO), 2)
  {
    HexLacks(id, "nr");
    LacksConcat("Pedido #", id, "nr");
    LacksConcat("Pedido #" + id, ":", "nr");
    WordBelow("Pedido #" + id + ":", "nr");
    WordBelow("— Status: pedido", "nr");
    assert "— Status: " + StatusValue(PEDIDO) == "— Status: pedido";
  }

  lemma ItemsBelow(itens: seq<PastelItem>)
    ensures Below(Join(ItemTexts(itens), ", "), 2)
  {
    forall i | 0 <= i < |itens|
      ensures Below(ItemTexts(itens)[i], 2)
    {
      ItemBelow(itens[i]);
    }
    JoinBelow(ItemTexts(itens), ", ", 2);
  }

  lemma SummaryBelow(r: Record)
    requires IsHex(r.id) && r.status == PEDIDO
    ensures Below(Summary(r), 2)
  {
    SummaryEndsBelow(r.id);
    ItemsBelow(r.itens);
    hide Below, Join, ItemTexts;
    var a, items, z := "Pedido #" + r.id + ":", Join(ItemTexts(r.itens), ", "), "— Status: " + StatusValue(r.status);
    BelowApart(items, " ", z, 2);
    BelowApart(a, " ", items + " " + z, 2);
  }

  lemma PositionBelow(position: nat)
    ensures Below(PositionLine(position), 2)
  {
    var f := "fila: " + Decimal(position);
    WordBelow("📍 Posição", "nr");
    WordBelow("na", "ptdz");
    DecimalLacks(position, "nr");
    LacksConcat("fila: ", Decimal(position), "nr");
    WordBelow(f, "nr");
    BelowApart("na", " ", f, 2);
    BelowApart("📍 Posição", " ", "na" + " " + f, 2);
    assert PositionLine(position) == "📍 Posição" + " " + ("na" + " " + f);
  }

  lemma EstimateBelow(n: nat)
    ensures Below(EstimateLine(n), 2)
  {
    var a := "⏳ Tempo estimado: ~" + Decimal(3 * n);
    DecimalLacks(3 * n, "nr");
    LacksConcat("⏳ Tempo estimado: ~", Decimal(3 * n), "nr");
    WordBelow(a, "nr");
    WordBelow("minutos", "pdzr");
    BelowApart(a, " ", "minutos", 2);
    assert EstimateLine(n) == a + " " + "minutos";
  }

  lemma HeaderBelow()
    ensures Below("✅ Pedido recebido!", 2)
  {
    WordBelow("✅ Pedido", "nr");
    WordBelow("recebido!", "np");
    BelowApart("✅ Pedido", " ", "recebido!", 2);
    assert "✅ Pedido recebido!" == "✅ Pedido" + " " + "recebido!";
  }

  lemma MentionedInside(a: string, w: string, b: string, i: nat)
    requires i < |KEYWORDS| && Mentioned(w, i)
    ensures Mentioned(a + w + b, i)
  {
    LowerConcat(a + w, b);
    LowerConcat(a, w);
    ContainsMiddle(Lower(a), Lower(w), Lower(b));
    ContainsTransitive(Lower(a) + Lower(w) + Lower(b), Lower(w), KEYWORDS[i].0);
  }

  lemma MentionedAfter(a: string, w: string, i: nat)
    requires i < |KEYWORDS| && Mentioned(w, i)
    ensures Mentioned(a + w, i)
  {
    MentionedInside(a, w, "", i);
    assert a + w + "" == a + w;
  }

  lemma KeywordMentioned(i: nat)
    requires i < |KEYWORDS|
    ensures Mentioned(KEYWORDS[i].0, i)
  {
    var w := KEYWORDS[i].0;
    LowerFixed(w);
    ContainsMiddle("", w, "");
    assert "" + w + "" == w;
  }

  lemma StepAtLeast(text: string, i: nat)
    requires i < |KEYWORDS| && Mentioned(text, i)
    ensures StepOf(text) >= KEYWORDS[i].1
  {
    assert KEYWORDS[i].1 >= 0;
    StepBelowIff(text, KEYWORDS[i].1);
  }

  lemma PositionMentioned(position: nat)
    ensures Mentioned(PositionLine(position), 1)
  {
    KeywordMentioned(1);
    MentionedInside("📍 Posição na ", "fila", ": ", 1);
    assert "📍 Posição na " + "fila" + ": " == "📍 Posição na fila: ";
    hide Mentioned;
    MentionedInside("", "📍 Posição na fila: ", Decimal(position), 1);
    assert "" + "📍 Posição na fila: " + Decimal(position) == "📍 Posição na fila: " + Decimal(position);
  }

  lemma MentionedInThird(a: string, s: string, p: string, t: string, i: nat)
    requires i < |KEYWORDS| && Mentioned(p, i)
    ensures Mentioned(a + "\n" + (s + "\n" + (p + "\n" + t)), i)
  {
    MentionedInside(a + "\n" + s + "\n", p, "\n" + t, i);
    assert a + "\n" + s + "\n" + p + ("\n" + t) == a + "\n" + (s + "\n" + (p + "\n" + t));
  }

  lemma FilaMentioned(r: Record, position: nat)
    ensures Mentioned(FilaReply(r, position), 1)
  {
    PositionMentioned(position);
    hide Mentioned, Summary, PositionLine, EstimateLine;
    MentionedInThird("✅ Pedido recebido!", Summary(r), PositionLine(position), EstimateLine(|r.itens|), 1);
  }

  /** The reply of Fila is read as step 1, whatever the order holds. */
  lemma FilaReplyStep(r: Record, position: nat)
    requires IsHex(r.id) && r.status == PEDIDO
    ensures StepOf(FilaReply(r, position)) == 1
  {
    var p, t := PositionLine(position), EstimateLine(|r.itens|);
    HeaderBelow();
    SummaryBelow(r);
    PositionBelow(position);
    EstimateBelow(|r.itens|);
    FilaMentioned(r, position);
    hide Below, Summary, PositionLine, EstimateLine, Mentioned;
    BelowApart(p, "\n", t, 2);
    BelowApart(Summary(r), "\n", p + "\n" + t, 2);
    BelowApart("✅ Pedido recebido!", "\n", Summary(r) + "\n" + (p + "\n" + t), 2);
    StepBelowIff(FilaReply(r, position), 2);
    StepAtLeast(FilaReply(r, position), 1);
  }

  lemma LineBelow(text: string, h: string)
    requires h in {"gl", "gu", "gc", "tu"} && Lacks(text, h)
    ensures Below(text, 4)
  {
    HitsLast(h);
    BelowIfLacks(text, h, 4);
  }

  lemma TwoWords(a: string, h: string, b: string, h': string)
    requires h in {"gl", "gu", "gc", "tu"} && Lacks(a, h)
    requires h' in {"gl", "gu", "gc", "tu"} && Lacks(b, h')
    ensures Below(a + " " + b, 4)
  {
    LineBelow(a, h);
    LineBelow(b, h');
    BelowApart(a, " ", b, 4);
  }

  lemma AquecendoBelow()
    ensures Below("🔥 Aquecendo o óleo...", 4)
  {
    TwoWords("🔥 Aquecendo o", "gl", "óleo...", "gu");
    assert "🔥 Aquecendo o" + " " + "óleo..." == "🔥 Aquecendo o óleo...";
  }

  lemma MontandoBelow()
    ensures Below("📐 Montando o pastel...", 4)
  {
    TwoWords("📐 Montando o", "gl", "pastel...", "gu");
    assert "📐 Montando o" + " " + "pastel..." == "📐 Montando o pastel...";
  }

  lemma FritandoWords()
    ensures Below("🍟 Fritando...", 4) && Below("golden & crispy!", 4)
  {
    LineBelow("🍟 Fritando...", "gl");
    LineBelow("golden & crispy!", "tu");
  }

  lemma FritandoBelow()
    ensures Below("🍟 Fritando... golden & crispy!", 4)
  {
    FritandoWords();
    hide Below;
    BelowApart("🍟 Fritando...", " ", "golden & crispy!", 4);
    assert "🍟 Fritando..." + " " + "golden & crispy!" == "🍟 Fritando... golden & crispy!";
  }

  lemma FinalizouWords()
    ensures Below("✅ Cozinha", 4) && Below("finalizou o pedido!", 4)
  {
    LineBelow("✅ Cozinha", "gl");
    LineBelow("finalizou o pedido!", "gc");
  }

  lemma FinalizouBelow()
    ensures Below("✅ Cozinha finalizou o pedido!", 4)
  {
    FinalizouWords();
    hide Below;
    BelowApart("✅ Cozinha", " ", "finalizou o pedido!", 4);
    assert "✅ Cozinha" + " " + "finalizou o pedido!" == "✅ Cozinha finalizou o pedido!";
  }

  lemma MassaBelow()
    ensures Below("🥟 Massa sendo aberta...", 4)
  {
    LineBelow("🥟 Massa sendo aberta...", "gl");
  }

  lemma RecheioWords()
    ensures Below("🥩 Recheio", 4) && Below("sendo preparado...", 4)
  {
    LineBelow("🥩 Recheio", "gl");
    LineBelow("sendo preparado...", "gl");
  }

  lemma RecheioBelow()
    ensures Below("🥩 Recheio sendo preparado...", 4)
  {
    RecheioWords();
    hide Below;
    BelowApart("🥩 Recheio", " ", "sendo preparado...", 4);
    assert "🥩 Recheio" + " " + "sendo preparado..." == "🥩 Recheio sendo preparado...";
  }

  lemma CozinhaStepBelow(i: nat)
    requires i < |COZINHA_STEPS|
    ensures Below(COZINHA_STEPS[i], 4)
  {
    hide Below;
    AquecendoBelow();
    MassaBelow();
    RecheioBelow();
    MontandoBelow();
    FritandoBelow();
    FinalizouBelow();
  }

  lemma EndLacks()
    ensures Lacks(" saiu da cozinha e está no preparo.", "gl")
  {
  }

  lemma CozinhaEndBelow(id: string)
    requires IsHex(id)
    ensures Below("🎯 Pedido #" + id + " saiu da cozinha e está no preparo.", 4)
  {
    HexLacks(id, "gl");
    EndLacks();
    assert Lacks("🎯 Pedido #", "gl");
    hide Lacks, Below;
    LacksConcat("🎯 Pedido #", id, "gl");
    LacksConcat("🎯 Pedido #" + id, " saiu da cozinha e está no preparo.", "gl");
    LineBelow("🎯 Pedido #" + id + " saiu da cozinha e está no preparo.", "gl");
  }

  lemma CozinhaMentioned(id: string)
    ensures Mentioned(CozinhaReply(id), 3)
  {
    var end := "🎯 Pedido #" + id + " saiu da cozinha e está no preparo.";
    KeywordMentioned(3);
    MentionedInside(" saiu da cozinha e está no ", "preparo", ".", 3);
    assert " saiu da cozinha e está no " + "preparo" + "." == " saiu da cozinha e está no preparo.";
    MentionedAfter("🎯 Pedido #" + id, " saiu da cozinha e está no preparo.", 3);
    MentionedAfter(Join(COZINHA_STEPS, "\n") + "\n\n", end, 3);
  }

  /** The reply of a Cozinha run that acted is read as step 3. */
  lemma CozinhaReplyStep(id: string)
    requires IsHex(id)
    ensures StepOf(CozinhaReply(id)) == 3
  {
    var end := "🎯 Pedido #" + id + " saiu da cozinha e está no preparo.";
    forall i | 0 <= i < |COZINHA_STEPS|
      ensures Below(COZINHA_STEPS[i], 4)
    {
      CozinhaStepBelow(i);
    }
    CozinhaEndBelow(id);
    CozinhaMentioned(id);
    hide Below, Join, Mentioned;
    JoinBelow(COZINHA_STEPS, "\n", 4);
    BelowApart(Join(COZINHA_STEPS, "\n"), "\n\n", end, 4);
    StepBelowIff(CozinhaReply(id), 4);
    StepAtLeast(CozinhaReply(id), 3);
  }

  /** The reply of a Preparo run that acted is read as step 4. */
  lemma PreparoReplyStep(id: string)
    ensures StepOf(PreparoReply(id)) == 4
  {
    KeywordMentioned(4);
    MentionedInside(" saiu para ", "entrega", "!", 4);
    assert " saiu para " + "entrega" + "!" == " saiu para entrega!";
    MentionedAfter("🚗 Pedido #" + id, " saiu para entrega!", 4);
    MentionedAfter(Join(PREPARO_STEPS, "\n") + "\n\n", "🚗 Pedido #" + id + " saiu para entrega!", 4);
    StepAtLeast(PreparoReply(id), 4);
    StepAmongBounds(PreparoReply(id), |KEYWORDS|);
  }

  /** The reply of an Entrega run that acted is read as step 4, whatever the customer is called. */
  lemma EntregaReplyStep(id: string, nome: string)
    ensures StepOf(EntregaReply(id, nome)) == 4
  {
    EntregueMentioned();
    hide Mentioned, EntregaDetails;
    EntregueInside("🎉 Pedido #" + id, " entregue com sucesso!\n", EntregaDetails(nome));
    StepAtLeast(EntregaReply(id, nome), 6);
    StepAmongBounds(EntregaReply(id, nome), |KEYWORDS|);
  }

  lemma EntregueMentioned()
    ensures Mentioned(" entregue com sucesso!\n", 6)
  {
    KeywordMentioned(6);
    assert " " + "entregue" + " com sucesso!\n" == " entregue com sucesso!\n";
    hide Mentioned;
    MentionedInside(" ", "entregue", " com sucesso!\n", 6);
  }

  lemma EntregueInside(a: string, w: string, b: string)
    requires Mentioned(w, 6)
    ensures Mentioned(a + (w + b), 6)
  {
    MentionedInside(a, w, b, 6);
    assert a + w + b == a + (w + b);
  }

  /** The stage the progress bar shows for a status. */
  function BarStep(st: OrderStatus): int {
    if Index(st) < 4 then Index(st) else 4
  }

  /** The reply of the agent that acted on an order, given as it stood before the run. */
  function ActedReply(a: Agent, r: Record, position: nat): string {
    match a
    case Fila => FilaReply(r, position)
    case Cozinha => CozinhaReply(r.id)
    case Preparo => PreparoReply(r.id)
    case Entrega => EntregaReply(r.id, r.clienteNome)
  }

  /** In the serial regime the step read from the reply of each run that acted is the stage its order has reached. */
  lemma ReplyAgreesWithStatus(a: Agent, r: Record, position: nat)
    requires IsHex(r.id) && r.status == Source(a)
    ensures StepOf(ActedReply(a, r, position)) == BarStep(Target(a))
  {
    match a
    case Fila => FilaReplyStep(r, position);
    case Cozinha => CozinhaReplyStep(r.id);
    case Preparo => PreparoReplyStep(r.id);
    case Entrega => EntregaReplyStep(r.id, r.clienteNome);
  }

  /** After a reply of step `k` the bar shows `k` exactly when nothing said before is of a later step. */
  lemma BarAfterReply(shown: int, messages: seq<Content>, reply: string)
    requires StepOf(reply) >= 0
    ensures Bar(shown, messages + [Text(reply)]) == Max(MaxStep(Texts(messages)), StepOf(reply))
  {
    var texts := Texts(messages + [Text(reply)]);
    assert texts == Texts(messages) + [reply];
    assert texts[..|texts| - 1] == Texts(messages);
    StepOfJoined(texts);
  }

  /**
   After the effect has run on a conversation to which a serial run added its reply, the bar shows the stage of the
   order that run acted on exactly when nothing said before is read as a later stage.
   */
  lemma BarFollowsRun(shown: int, messages: seq<Content>, a: Agent, s: Store, t: Time, t': Time)
    requires a != Fila && Settled(s) && Newest(s, a).Some? && IsHex(s[Newest(s, a).value].id)
    ensures var k := Newest(s, a).value;
            && |AgentRun(a, s, t, t')| == |s|
            && var status := AgentRun(a, s, t, t')[k].status;
               Bar(shown, messages + [Text(ActedReply(a, s[k], 0))]) == BarStep(status)
               <==> MaxStep(Texts(messages)) <= BarStep(status)
  {
    var r := s[Newest(s, a).value];
    AgentRunMoves(a, s, t, t');
    ReplyAgreesWithStatus(a, r, 0);
    BarAfterReply(shown, messages, ActedReply(a, r, 0));
  }

  /** The same for a new order and Fila's reply. */
  lemma BarFollowsFila(shown: int, messages: seq<Content>, s: Store, id: string, nome: string, itens: seq<PastelItem>,
                       t0: Time, t1: Time, position: nat)
    requires Fresh(s, id) && IsHex(id)
    ensures |FilaRun(s, id, nome, itens, t0, t1)| == |s| + 1 && FilaRun(s, id, nome, itens, t0, t1)[|s|].id == id
    ensures var status := FilaRun(s, id, nome, itens, t0, t1)[|s|].status;
            Bar(shown, messages + [Text(ActedReply(Fila, NewRecord(id, itens, nome, t0), position))]) == BarStep(status)
            <==> MaxStep(Texts(messages)) <= BarStep(status)
  {
    var r := NewRecord(id, itens, nome, t0);
    PutFresh(s, Advanced(r, t1));
    ReplyAgreesWithStatus(Fila, r, position);
    BarAfterReply(shown, messages, ActedReply(Fila, r, position));
  }

  /**
   So once an order is delivered the bar stays at the last step: a second order in the same conversation looks
   delivered at once.
   */
  lemma SecondOrderLooksDelivered(shown: int, id: string, nome: string, more: seq<Content>, r: Record, position: nat)
    requires IsHex(r.id) && r.status == PEDIDO
    ensures Bar(shown, [Text(EntregaReply(id, nome))] + more + [Text(FilaReply(r, position))]) == 4
    ensures BarStep(Target(Fila)) == 1
  {
    var first := [Text(EntregaReply(id, nome))];
    EntregaReplyStep(id, nome);
    FilaReplyStep(r, position);
    hide EntregaReply, FilaReply, StepOf;
    BarAfterReply(shown, first + more, FilaReply(r, position));
    assert Texts(first + more) == Texts(first) + Texts(more);
    MoreNeverLowers(Texts(first), Texts(more));
    assert Texts(first) == [EntregaReply(id, nome)];
    StepOfJoined(Texts(first + more));
    StepAmongBounds(Join(Texts(first + more), " "), |KEYWORDS|);
    assert MaxStep(Texts(first)) == Max(MaxStep([]), StepOf(EntregaReply(id, nome)));
  }

  /* ---------- the replies of runs that found nothing to do ---------- */

  function IdleReply(a: Agent): string
    requires a != Fila
  {
    if a == Cozinha then COZINHA_IDLE else if a == Preparo then PREPARO_IDLE else ENTREGA_IDLE
  }

  lemma HitsIdle(h: string, k: int)
    requires (h == "rl" && k == 3) || ((h == "rlc" || h == "olt") && k == 1)
    ensures Hits(h, k)
  {
    forall i | 0 <= i < |KEYWORDS| && KEYWORDS[i].1 >= k
      ensures exists j | 0 <= j < |h| :: h[j] in KEYWORDS[i].0
    {
      assert h[0] in KEYWORDS[i].0 || h[1] in KEYWORDS[i].0 || (|h| == 3 && h[2] in KEYWORDS[i].0);
    }
  }

  lemma CozinhaIdleStart()
    ensures Lacks("🍳 Nenhum pedido", "rl")
  {
  }

  lemma CozinhaIdleEnd()
    ensures Lacks("na cozinha no momento.", "rl")
  {
  }

  lemma CozinhaIdleBelow()
    ensures Below(COZINHA_IDLE, 3)
  {
    CozinhaIdleStart();
    CozinhaIdleEnd();
    hide Lacks, Below;
    HitsIdle("rl", 3);
    BelowIfLacks("🍳 Nenhum pedido", "rl", 3);
    BelowIfLacks("na cozinha no momento.", "rl", 3);
    BelowApart("🍳 Nenhum pedido", " ", "na cozinha no momento.", 3);
    assert "🍳 Nenhum pedido" + " " + "na cozinha no momento." == COZINHA_IDLE;
  }

  lemma PreparoIdleLacks()
    ensures Lacks("📦 Nenhum pedido", "rlc") && Lacks("para preparar.", "olt")
  {
  }

  lemma CozinhaIdleMentions()
    ensures Mentioned(COZINHA_IDLE, 2)
  {
    KeywordMentioned(2);
    assert COZINHA_IDLE == "🍳 Nenhum pedido na " + "cozinha" + " no momento.";
    hide Mentioned;
    MentionedInside("🍳 Nenhum pedido na ", "cozinha", " no momento.", 2);
  }

  lemma PreparoIdleMentions()
    ensures Mentioned(PREPARO_IDLE, 0)
  {
    KeywordMentioned(0);
    assert PREPARO_IDLE == "📦 Nenhum " + "pedido" + " para preparar.";
    hide Mentioned;
    MentionedInside("📦 Nenhum ", "pedido", " para preparar.", 0);
  }

  lemma IdleCozinhaStep()
    ensures StepOf(COZINHA_IDLE) == 2
  {
    CozinhaIdleMentions();
    CozinhaIdleBelow();
    hide Mentioned, Below, StepOf;
    StepAtLeast(COZINHA_IDLE, 2);
    StepBelowIff(COZINHA_IDLE, 3);
  }

  lemma IdlePreparoStep()
    ensures StepOf(PREPARO_IDLE) == 0
  {
    PreparoIdleMentions();
    PreparoIdleLacks();
    hide Lacks, Mentioned, Below, StepOf;
    StepAtLeast(PREPARO_IDLE, 0);
    HitsIdle("rlc", 1);
    HitsIdle("olt", 1);
    BelowIfLacks("📦 Nenhum pedido", "rlc", 1);
    BelowIfLacks("para preparar.", "olt", 1);
    BelowApart("📦 Nenhum pedido", " ", "para preparar.", 1);
    assert "📦 Nenhum pedido" + " " + "para preparar." == PREPARO_IDLE;
    StepBelowIff(PREPARO_IDLE, 1);
  }

  /** An idle Entrega run delivers nothing, yet its reply is read as the last step: "entregar" starts with "entrega". */
  lemma IdleEntregaReadAsDelivered()
    ensures StepOf(ENTREGA_IDLE) == 4
  {
    KeywordMentioned(4);
    assert ENTREGA_IDLE == "🚚 Nenhum pedido para " + "entrega" + "r.";
    MentionedInside("🚚 Nenhum pedido para ", "entrega", "r.", 4);
    StepAtLeast(ENTREGA_IDLE, 4);
    StepAmongBounds(ENTREGA_IDLE, |KEYWORDS|);
  }

  /** Some order has come as far as a text of step `k` claims. */
  ghost predicate SomeReached(s: Store, k: int) {
    exists i | 0 <= i < |s| :: BarStep(s[i].status) >= k
  }

  /**
   An idle reply is read as a stage too: Cozinha's as COZINHA, Preparo's as PEDIDO, Entrega's as delivered. On any
   store on which the agent is idle, some order has reached that stage exactly if one is past PEDIDO, if there is one,
   if one is concluded.
   */
  lemma IdleReadAsReachedIff(a: Agent, s: Store)
    requires a != Fila && Newest(s, a) == None
    ensures SomeReached(s, StepOf(IdleReply(a))) <==>
            match a {
              case Cozinha => exists i | 0 <= i < |s| :: s[i].status != PEDIDO
              case Entrega => exists i | 0 <= i < |s| :: s[i].status == CONCLUIDO
              case _ => s != []
            }
  {
    match a
    case Cozinha =>
      IdleCozinhaStep();
      assert forall i | 0 <= i < |s| :: BarStep(s[i].status) >= 2 <==> s[i].status != PEDIDO;
    case Preparo =>
      IdlePreparoStep();
      assert s != [] ==> BarStep(s[0].status) >= 0;
    case Entrega =>
      IdleEntregaReadAsDelivered();
      assert forall i | 0 <= i < |s| :: BarStep(s[i].status) >= 4 <==> s[i].status == CONCLUIDO;
  }
}
