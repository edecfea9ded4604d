/**
 From the customer's words to the concluded order: a printed order typed into the chat is delivered as it was meant,
 exactly when the parser can read it back.
 */
module EndToEnd {
  import opened Strings
  import opened Orders
  import opened OrderParser
  import opened ParserRoundTrip
  import opened ChatTurns

  /** `s'` is `s` and one concluded order more. */
  ghost predicate DeliversOne(s: Store, s': Store, id: string, nome: string) {
    && |s'| == |s| + 1 && s <= s'
    && s'[|s|].id == id && s'[|s|].clienteNome == nome && s'[|s|].status == CONCLUIDO
  }

  /**
   From any store, a failure-free turn delivers one order for "Cliente", and its items are those printed iff they can
   be.
   */
  lemma TypedOrderIsDelivered(s: Store, turn: Turn, ls: seq<Line>, edge: Edge)
    requires ls != [] && turn.text == Print(ls, edge)
    requires Fresh(s, turn.id) && turn.fila == Answered && AllRan(turn)
    ensures DeliversOne(s, AfterTurn(s, turn), turn.id, "Cliente")
    ensures AfterTurn(s, turn)[|s|].itens == ItemsOf(ls, edge.borda) <==> Canonical(ls) && Faithful(ls, edge.borda)
  {
    PrintIsPlain(ls, edge);
    RoundTripIff(ls, edge);
    assert Parse(turn.text) == Parsed("Cliente", Items(Print(ls, edge)));
    hide Parse, Print, ItemsOf, Canonical, Faithful, AfterTurn, Items;
    TurnConcludesItsOrder(s, turn);
  }

  /** With a name in front it is delivered under that name. */
  lemma NamedOrderIsDelivered(s: Store, turn: Turn, x: string, ls: seq<Line>, edge: Edge)
    requires ls != [] && turn.text == "nome: " + x + ", " + Print(ls, edge)
    requires ',' !in x && !Contains(x, NOME) && Stripped(x) && NamesNoFlavour(Lower(x))
    requires Fresh(s, turn.id) && turn.fila == Answered && AllRan(turn)
    ensures DeliversOne(s, AfterTurn(s, turn), turn.id, x)
    ensures AfterTurn(s, turn)[|s|].itens == ItemsOf(ls, edge.borda) <==> Canonical(ls) && Faithful(ls, edge.borda)
  {
    NameRoundTrip(x, Print(ls, edge));
    NamedRoundTrip(x, ls, edge);
    hide Parse, Print, ItemsOf, Canonical, Faithful, AfterTurn, Items, Contains, NamesNoFlavour, Stripped;
    TurnConcludesItsOrder(s, turn);
  }
}
