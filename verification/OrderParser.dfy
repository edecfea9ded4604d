/**
 `parse_order_text`: the phrase table, the quantity search, the borda and the customer's name.
 */
module OrderParser {
  import opened Strings
  import opened Regex
  import opened Orders

  /** `sabores_map`, in its insertion order. */
  const TABLE: seq<(string, SaborType)> := [
    ("carne com queijo", CARNE_QUEIJO),
    ("carne e queijo", CARNE_QUEIJO),
    ("carne", CARNE),
    ("frango", FRANGO),
    ("queijo", QUEIJO),
    ("palmito", PALMITO)
  ]

  const NOME := "nome:"

  /** The parser's outcome: `text.split("nome:")[1]` raises when only the lower-cased text has the marker. */
  datatype ParseResult = Parsed(nome: string, itens: seq<PastelItem>) | IndexError

  lemma TablePhrases()
    ensures forall k | 0 <= k < |TABLE| :: IsPhrase(TABLE[k].0)
    ensures forall k | 0 <= k < |TABLE| :: Unstopped(TABLE[k].0)
  {
  }

  /* ---------- specification ---------- */

  ghost function Quantity(lower: string, phrase: string): nat {
    match Captured(lower, phrase)
    case Some(digits) => ParseDecimal(digits)
    case None => 1
  }

  function Borda(lower: string): BordaType {
    if Contains(lower, "catupiry") then CATUPIRY
    else if Contains(lower, "borda de queijo") || Contains(lower, "borda queijo") then BORDA_QUEIJO
    else NORMAL
  }

  /** What one row of the table adds. */
  ghost function Row(lower: string, k: nat): seq<PastelItem>
    requires k < |TABLE|
  {
    if Contains(lower, TABLE[k].0)
    then [PastelItem(TABLE[k].1, Quantity(lower, TABLE[k].0), Borda(lower), "")]
    else []
  }

  /** The items found for the first `n` rows of the table. */
  ghost function Found(lower: string, n: nat): seq<PastelItem>
    requires n <= |TABLE|
  {
    if n == 0 then []
    else
      Found(lower, n - 1) + Row(lower, n - 1)
  }

  ghost function Items(lower: string): seq<PastelItem> {
    var found := Found(lower, |TABLE|);
    if found == [] then [PastelItem(CARNE, 1, NORMAL, "")] else found
  }

  /** `text.split("nome:")[1].split(",")[0].strip()`, where the index exists. */
  function NameField(text: string): Option<string> {
    var parts := Split(text, NOME);
    if |parts| < 2 then None else Some(Strip(Split(parts[1], ",")[0]))
  }

  ghost function Parse(text: string): ParseResult {
    var lower := Lower(text);
    if Contains(lower, NOME) then
      match NameField(text)
      case None => IndexError
      case Some(nome) => Parsed(nome, Items(lower))
    else Parsed("Cliente", Items(lower))
  }

  /* ---------- the parser itself ---------- */

  method ReadQuantity(lower: string, phrase: string) returns (qty: nat)
    requires IsPhrase(phrase)
    ensures qty == Quantity(lower, phrase)
  {
    qty := 1;
    var found, i, e := SearchQuantity(lower, phrase);
    if found {
      CapturedIs(lower, phrase, i, e);
      qty := ParseDecimal(lower[i..e]);
    }
  }

  method ParseOrderText(text: string) returns (result: ParseResult)
    ensures result == Parse(text)
  {
    var itens: seq<PastelItem> := [];
    var nome := "Cliente";
    var lower := Lower(text);
    if Contains(lower, NOME) {
      var parts := Split(text, NOME);
      if |parts| < 2 {
        return IndexError;
      }
      nome := Strip(Split(parts[1], ",")[0]);
    }
    TablePhrases();
    for k := 0 to |TABLE|
      invariant itens == Found(lower, k)
    {
      if Contains(lower, TABLE[k].0) {
        var qty := ReadQuantity(lower, TABLE[k].0);
        var borda := NORMAL;
        if Contains(lower, "catupiry") {
          borda := CATUPIRY;
        } else if Contains(lower, "borda de queijo") || Contains(lower, "borda queijo") {
          borda := BORDA_QUEIJO;
        }
        itens := itens + [PastelItem(TABLE[k].1, qty, borda, "")];
      }
    }
    if itens == [] {
      itens := [PastelItem(CARNE, 1, NORMAL, "")];
    }
    result := Parsed(nome, itens);
  }

  /* ---------- what the parser promises of every text ---------- */

  /** The parser raises exactly when the marker is there in some casing but nowhere in lower case. */
  lemma RaisesIff(text: string)
    ensures Parse(text).IndexError? <==> Contains(Lower(text), NOME) && !Contains(text, NOME)
  {
  }

  /** A capitalised "Nome:" is such a text. */
  lemma CapitalisedNomeRaises()
    ensures Parse("Nome: Eva, 2 queijo") == IndexError
  {
    var text := "Nome: Eva, 2 queijo";
    assert Lower(text)[0..] == "nome: eva, 2 queijo";
    assert MatchesAt(Lower(text), 0, NOME);
    NotContainsIfMissing(text, NOME, 0);
    RaisesIff(text);
  }

  /** Rank of a flavour in the table. */
  function Rank(s: SaborType): nat {
    match s
    case CARNE_QUEIJO => 0
    case CARNE => 1
    case FRANGO => 2
    case QUEIJO => 3
    case PALMITO => 4
  }

  ghost predicate InTableOrder(items: seq<PastelItem>) {
    forall i, j | 0 <= i < j < |items| :: Rank(items[i].sabor) <= Rank(items[j].sabor)
  }

  ghost predicate Shaped(items: seq<PastelItem>, borda: BordaType, rank: nat) {
    InTableOrder(items) && forall i | 0 <= i < |items| :: items[i].borda == borda && Rank(items[i].sabor) <= rank
  }

  lemma TableRanks(k: nat)
    requires k < |TABLE|
    ensures Rank(TABLE[k].1) == (if k == 0 then 0 else k - 1)
  {
  }

  lemma AppendShaped(items: seq<PastelItem>, row: seq<PastelItem>, borda: BordaType, r: nat, r': nat)
    requires Shaped(items, borda, r) && r <= r' && |row| <= 1
    requires row != [] ==> row[0].borda == borda && Rank(row[0].sabor) == r'
    ensures Shaped(items + row, borda, r')
  {
  }

  function RankBelow(n: nat): nat {
    if n <= 1 then 0 else n - 2
  }

  lemma {:induction false} FoundShape(lower: string, n: nat)
    requires n <= |TABLE|
    ensures Shaped(Found(lower, n), Borda(lower), RankBelow(n))
  {
    if n > 0 {
      FoundShape(lower, n - 1);
      TableRanks(n - 1);
      AppendShaped(Found(lower, n - 1), Row(lower, n - 1), Borda(lower), RankBelow(n - 1), RankBelow(n));
    }
  }

  lemma {:induction false} FoundNone(lower: string, n: nat)
    requires n <= |TABLE|
    ensures Found(lower, n) == [] <==> forall k | 0 <= k < n :: !Contains(lower, TABLE[k].0)
  {
    hide Contains, Quantity, Borda;
    if n > 0 {
      FoundNone(lower, n - 1);
      assert Row(lower, n - 1) == [] <==> !Contains(lower, TABLE[n - 1].0);
      hide TABLE;
    }
  }

  /** The item a row of the table stands for. */
  ghost function RowItem(lower: string, k: nat): PastelItem
    requires k < |TABLE|
  {
    PastelItem(TABLE[k].1, Quantity(lower, TABLE[k].0), Borda(lower), "")
  }

  lemma {:induction false} FoundMembers(lower: string, n: nat, it: PastelItem)
    requires n <= |TABLE|
    ensures it in Found(lower, n) <==> exists k | 0 <= k < n :: Contains(lower, TABLE[k].0) && it == RowItem(lower, k)
  {
    if n > 0 {
      FoundMembers(lower, n - 1, it);
      assert Row(lower, n - 1) == if Contains(lower, TABLE[n - 1].0) then [RowItem(lower, n - 1)] else [];
    }
  }

  predicate NamesFlavour(lower: string) {
    exists k | 0 <= k < |TABLE| :: Contains(lower, TABLE[k].0)
  }

  /**
   For every text the items are nonempty and follow the table; if the text names a flavour they are exactly the items
   of the rows it names, all with the text's one borda, and otherwise the single fallback.
   */
  lemma ItemsShape(lower: string)
    ensures Items(lower) != [] && InTableOrder(Items(lower))
    ensures NamesFlavour(lower) ==>
      && (forall it :: it in Items(lower) <==>
            exists k | 0 <= k < |TABLE| :: Contains(lower, TABLE[k].0) && it == RowItem(lower, k))
      && (forall i | 0 <= i < |Items(lower)| :: Items(lower)[i].borda == Borda(lower))
    ensures !NamesFlavour(lower) ==> Items(lower) == [PastelItem(CARNE, 1, NORMAL, "")]
    ensures Found(lower, |TABLE|) == [] <==> !NamesFlavour(lower)
  {
    FoundShape(lower, |TABLE|);
    FoundNone(lower, |TABLE|);
    forall it
      ensures it in Found(lower, |TABLE|) <==>
              exists k | 0 <= k < |TABLE| :: Contains(lower, TABLE[k].0) && it == RowItem(lower, k)
    {
      FoundMembers(lower, |TABLE|, it);
    }
    hide Found, RowItem, Contains;
  }

  /** The borda of every item of a text that names a flavour, by the words in the text; catupiry wins. */
  lemma BordaOfItems(text: string)
    requires Parse(text).Parsed? && NamesFlavour(Lower(text))
    ensures var l := Lower(text);
            forall it | it in Parse(text).itens ::
              && (it.borda == CATUPIRY <==> Contains(l, "catupiry"))
              && (it.borda == BORDA_QUEIJO <==>
                  !Contains(l, "catupiry") && (Contains(l, "borda de queijo") || Contains(l, "borda queijo")))
              && (it.borda == NORMAL <==>
                  !Contains(l, "catupiry") && !Contains(l, "borda de queijo") && !Contains(l, "borda queijo"))
  {
    ItemsShape(Lower(text));
    hide Contains, Items, NamesFlavour;
  }

  /* ---------- the customer's name ---------- */

  /** The first piece of a split ends where the separator first begins. */
  lemma FirstPieceEnds(s: string, sep: string, n: nat)
    requires sep != [] && (MatchesAt(s, n, sep) || n == |s|)
    requires forall j: nat | j < n :: !MatchesAt(s, j, sep)
    ensures Split(s, sep)[0] == s[..n]
  {
    if MatchesAt(s, n, sep) {
      IndexOfIs(s, sep, n);
    } else {
      assert s[..n] == s;
    }
  }

  lemma CommaAt(s: string, j: nat)
    ensures MatchesAt(s, j, ",") <==> j < |s| && s[j] == ','
  {
  }

  lemma MatchInSuffix(text: string, o: nat, j: nat, w: string)
    requires o + j <= |text|
    ensures MatchesAt(text[o..], j, w) <==> MatchesAt(text, o + j, w)
  {
    assert text[o..][j..] == text[o + j..];
  }

  /** The first piece of `s` by markers goes on at least as long as no marker begins. */
  lemma NoMarkerBefore(s: string, n: nat) returns (m: nat)
    requires n <= |s| && forall j: nat | j < n :: !MatchesAt(s, j, NOME)
    ensures n <= m <= |s| && Split(s, NOME)[0] == s[..m]
    ensures MatchesAt(s, n, NOME) ==> m == n
  {
    match IndexOf(s, NOME)
    case None =>
      m := |s|;
      assert s[..m] == s;
    case Some(k) =>
      m := k;
  }

  lemma NameEnds(s: string, n: nat)
    requires n <= |s| && forall j: nat | j < n :: s[j] != ',' && !MatchesAt(s, j, NOME)
    requires n == |s| || s[n] == ',' || MatchesAt(s, n, NOME)
    ensures Split(Split(s, NOME)[0], ",")[0] == s[..n]
  {
    hide MatchesAt, Split, IndexOf;
    var m := NoMarkerBefore(s, n);
    var q := s[..m];
    forall j: nat | j < n
      ensures !MatchesAt(q, j, ",")
    {
      CommaAt(q, j);
    }
    CommaAt(q, n);
    FirstPieceEnds(q, ",", n);
    assert q[..n] == s[..n];
  }

  lemma FieldAfterMarker(text: string, i: nat)
    requires MatchesAt(text, i, NOME) && forall j: nat | j < i :: !MatchesAt(text, j, NOME)
    ensures i + 5 <= |text| && NameField(text) == Some(Strip(Split(Split(text[i + 5..], NOME)[0], ",")[0]))
  {
    IndexOfIs(text, NOME, i);
    assert Split(text, NOME) == [text[..i]] + Split(text[i + 5..], NOME);
  }

  lemma HoldsMarker(text: string, i: nat)
    requires MatchesAt(text, i, NOME)
    ensures Contains(Lower(text), NOME)
  {
    LowerFixed(NOME);
    hide Lower;
    assert i <= |text| && Contains(text, NOME);
    LowerKeeps(text, NOME);
  }

  lemma ParsedByField(text: string, i: nat)
    requires MatchesAt(text, i, NOME) && NameField(text).Some?
    ensures Parse(text) == Parsed(NameField(text).value, Items(Lower(text)))
  {
    hide MatchesAt, Contains, NameField, Items, Lower;
    HoldsMarker(text, i);
  }

  /**
   The name reaches from the first marker, at `i`, to the next comma, the next marker or the end of the text,
   whichever comes first, at `e`, and is taken without the spaces around it.
   */
  lemma NameReaches(text: string, i: nat, e: nat)
    requires MatchesAt(text, i, "nome:") && forall j: nat | j < i :: !MatchesAt(text, j, "nome:")
    requires i + 5 <= e <= |text|
    requires forall j: nat | i + 5 <= j < e :: text[j] != ',' && !MatchesAt(text, j, "nome:")
    requires e == |text| || text[e] == ',' || MatchesAt(text, e, "nome:")
    ensures Parse(text) == Parsed(Strip(text[i + 5..e]), Items(Lower(text)))
  {
    hide Split, Strip, Items, MatchesAt, Contains, Lower, NameField, Parse;
    FieldAfterMarker(text, i);
    ParsedByField(text, i);
    var rest, n := text[i + 5..], e - (i + 5);
    forall j: nat | j < n
      ensures rest[j] != ',' && !MatchesAt(rest, j, NOME)
    {
      MatchInSuffix(text, i + 5, j, NOME);
    }
    MatchInSuffix(text, i + 5, n, NOME);
    NameEnds(rest, n);
    assert rest[..n] == text[i + 5..e];
  }

  /**
   A word without commas and colons, such as a flavour phrase, is found in `a, b` or `a: b` exactly when it is found
   in `a` or in `b`.
   */
  lemma InEither(a: string, c: char, b: string, w: string)
    requires IsStop(c) && Unstopped(w) && w != [] && w[0] != ' '
    ensures Contains(a + [c, ' '] + b, w) <==> Contains(a, w) || Contains(b, w)
  {
    assert a + [c, ' '] + b == a + [c] + (" " + b);
    ContainsAcross(a, c, " " + b, w);
    ContainsAfterSpace(b, w);
  }

  lemma ContainsAfterSpace(b: string, w: string)
    requires w != [] && w[0] != ' '
    ensures Contains(" " + b, w) <==> Contains(b, w)
  {
    var s := " " + b;
    if Contains(s, w) {
      var i: nat :| i <= |s| && MatchesAt(s, i, w);
      assert i > 0 by {
        assert s[0..] == s;
      }
      assert s[i..] == b[i - 1..];
      assert MatchesAt(b, i - 1, w);
    }
    if Contains(b, w) {
      var i: nat :| i <= |b| && MatchesAt(b, i, w);
      assert s[i + 1..] == b[i..];
      assert MatchesAt(s, i + 1, w);
    }
  }

  /** The fallback item stands for a joined text exactly when neither part names a flavour. */
  lemma JoinedFallback(a: string, b: string)
    ensures Found(a + ", " + b, |TABLE|) == [] <==> Found(a, |TABLE|) == [] && Found(b, |TABLE|) == []
  {
    FoundNone(a, |TABLE|);
    FoundNone(b, |TABLE|);
    FoundNone(a + ", " + b, |TABLE|);
    forall k: nat | k < |TABLE|
      ensures Contains(a + ", " + b, TABLE[k].0) <==> Contains(a, TABLE[k].0) || Contains(b, TABLE[k].0)
    {
      TablePhrases();
      InEither(a, ',', b, TABLE[k].0);
    }
  }

  /** "carne com queijo" never comes alone: CARNE and QUEIJO items are added for the same words. */
  lemma CarneComQueijoIsSplit(lower: string)
    requires Contains(lower, "carne com queijo") || Contains(lower, "carne e queijo")
    ensures exists i, j, k | 0 <= i < j < k < |Items(lower)| ::
              Items(lower)[i].sabor == CARNE_QUEIJO && Items(lower)[j].sabor == CARNE && Items(lower)[k].sabor == QUEIJO
  {
    MixNames();
    var w := if Contains(lower, "carne com queijo") then "carne com queijo" else "carne e queijo";
    ContainsTransitive(lower, w, "carne");
    ContainsTransitive(lower, w, "queijo");
    FoundByRows(lower);
    var head := Row(lower, 0) + Row(lower, 1);
    assert |head| > 0 && head[0].sabor == CARNE_QUEIJO;
    assert Row(lower, 2) != [] && Row(lower, 2)[0].sabor == CARNE;
    assert Row(lower, 4) != [] && Row(lower, 4)[0].sabor == QUEIJO;
    hide Contains, Row;
    var itens := head + Row(lower, 2) + Row(lower, 3) + Row(lower, 4) + Row(lower, 5);
    var mid := head + Row(lower, 2) + Row(lower, 3);
    assert Items(lower) == itens;
    assert itens[0] == head[0] && itens[|head|] == Row(lower, 2)[0] && itens[|mid|] == Row(lower, 4)[0];
  }

  lemma MixNames()
    ensures Contains("carne com queijo", "carne") && Contains("carne e queijo", "carne")
    ensures Contains("carne com queijo", "queijo") && Contains("carne e queijo", "queijo")
  {
    assert MatchesAt("carne com queijo", 0, "carne");
    assert MatchesAt("carne e queijo", 0, "carne");
    assert MatchesAt("carne com queijo", 10, "queijo");
    assert MatchesAt("carne e queijo", 8, "queijo");
  }

  lemma FoundByRows(lower: string)
    ensures Found(lower, 6) ==
            Row(lower, 0) + Row(lower, 1) + Row(lower, 2) + Row(lower, 3) + Row(lower, 4) + Row(lower, 5)
  {
    assert Found(lower, 1) == Row(lower, 0);
    assert Found(lower, 2) == Found(lower, 1) + Row(lower, 1);
    assert Found(lower, 3) == Found(lower, 2) + Row(lower, 2);
    assert Found(lower, 4) == Found(lower, 3) + Row(lower, 3);
    assert Found(lower, 5) == Found(lower, 4) + Row(lower, 4);
  }
}
