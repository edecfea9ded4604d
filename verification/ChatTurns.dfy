/**
 The terminal chat: one turn sends the customer's line to Fila and then calls Cozinha, Preparo and Entrega,
 going on after a failed call of the last three and giving the turn up after a failed call of the first.
 */
module ChatTurns {
  import opened Strings
  import opened Orders
  import opened OrderParser
  import opened SerialRuns
  import opened Executors

  /** One `send_message`: answered, executed but failed for the caller, or never executed. */
  datatype Call = Answered | LostReply | NotDelivered

  /** Preparo sleeps: its call may also return at once, so that Entrega is called before Preparo finishes. */
  datatype Packing = InTime(call: Call) | AfterEntrega

  datatype Turn = Turn(
    text: string, id: string,
    fila: Call, cozinha: Call, preparo: Packing, entrega: Call,
    t0: Time, t1: Time, t2: Time, t3: Time, t4: Time, t5: Time)

  function Serve(a: Agent, call: Call, s: Store, t: Time, t': Time): Store {
    if call == NotDelivered then s else AgentRun(a, s, t, t')
  }

  /** Cozinha, Preparo and Entrega, in the order in which they act. */
  function Pipeline(s: Store, turn: Turn): Store {
    Packed(Serve(Cozinha, turn.cozinha, s, turn.t2, turn.t3), turn)
  }

  /** Preparo and Entrega, one after the other or with Entrega called while Preparo sleeps. */
  function Packed(s: Store, turn: Turn): Store {
    match turn.preparo
    case InTime(call) => Serve(Entrega, turn.entrega, Serve(Preparo, call, s, turn.t4, turn.t4), turn.t5, turn.t5)
    case AfterEntrega =>
      var s' := Serve(Entrega, turn.entrega, s, turn.t5, turn.t5);
      match Newest(s, Preparo)
      case None => s'
      case Some(k) => if k < |s'| then AdvanceAt(s', k, turn.t4) else s'
  }

  /** The store after one turn. */
  ghost function AfterTurn(s: Store, turn: Turn): Store {
    if turn.fila == NotDelivered then s
    else
      match Parse(turn.text)
      case IndexError => s
      case Parsed(nome, itens) =>
        var s1 := FilaRun(s, turn.id, nome, itens, turn.t0, turn.t1);
        if turn.fila == Answered then Pipeline(s1, turn) else s1
  }

  /** Every executor the pipeline needs ran, and Preparo finished before Entrega was called. */
  predicate AllRan(turn: Turn) {
    && turn.cozinha != NotDelivered
    && turn.preparo.InTime? && turn.preparo.call != NotDelivered
    && turn.entrega != NotDelivered
  }

  /** The order a turn stores, as it stands after Fila. */
  ghost function Queued(turn: Turn): Record
    requires Parse(turn.text).Parsed?
  {
    Advanced(NewRecord(turn.id, Parse(turn.text).itens, Parse(turn.text).nome, turn.t0), turn.t1)
  }

  lemma ServeNewest(a: Agent, s: Store, r: Record, t: Time, t': Time)
    requires a != Fila && r.status == Source(a)
    ensures AgentRun(a, s + [r], t, t') ==
            s + [if a == Cozinha then Advanced(Advanced(r, t), t') else Advanced(r, t)]
  {
  }

  /** An agent whose statuses do not include that of the last order leaves it alone. */
  lemma ServeOthers(a: Agent, s: Store, r: Record, t: Time, t': Time)
    requires !Eligible(a, r.status)
    ensures |AgentRun(a, s + [r], t, t')| == |s| + 1 && AgentRun(a, s + [r], t, t')[|s|] == r
  {
  }

  /** The order of a failure-free turn: what the parser read, concluded, with all six stages in its timeline. */
  ghost function Concluded(turn: Turn): Record
    requires Parse(turn.text).Parsed?
  {
    Record(
      turn.id, Parse(turn.text).itens, Parse(turn.text).nome, turn.t0, CONCLUIDO,
      map[PEDIDO := turn.t0, FILA := turn.t1, COZINHA := turn.t2, PREPARO := turn.t3, ENTREGA := turn.t4,
          CONCLUIDO := turn.t5])
  }

  /** From any store whatsoever, a turn in which everything ran concludes exactly its own order and touches no other. */
  lemma TurnConcludesItsOrder(s: Store, turn: Turn)
    requires Fresh(s, turn.id) && Parse(turn.text).Parsed? && turn.fila == Answered && AllRan(turn)
    ensures AfterTurn(s, turn) == s + [Concluded(turn)]
  {
    var q := Queued(turn);
    PutFresh(s, q);
    ServeNewest(Cozinha, s, q, turn.t2, turn.t3);
    var c := Advanced(Advanced(q, turn.t2), turn.t3);
    ServeNewest(Preparo, s, c, turn.t4, turn.t4);
    ServeNewest(Entrega, s, Advanced(c, turn.t4), turn.t5, turn.t5);
  }

  /** Where a turn leaves its order, whatever failed. */
  function Reached(turn: Turn): OrderStatus {
    if turn.fila == LostReply || turn.cozinha == NotDelivered then FILA
    else if turn.preparo == InTime(NotDelivered) then PREPARO
    else if turn.preparo == AfterEntrega || turn.entrega == NotDelivered then ENTREGA
    else CONCLUIDO
  }

  /**
   The order stored by a turn ends exactly where the calls that ran took it; it concludes iff all of them ran in
   order.
   */
  lemma TurnReaches(s: Store, turn: Turn)
    requires Fresh(s, turn.id) && Parse(turn.text).Parsed? && turn.fila != NotDelivered
    ensures |AfterTurn(s, turn)| == |s| + 1
    ensures AfterTurn(s, turn)[|s|].id == turn.id && AfterTurn(s, turn)[|s|].status == Reached(turn)
    ensures AfterTurn(s, turn)[|s|].status == CONCLUIDO <==> turn.fila == Answered && AllRan(turn)
  {
    var q := Queued(turn);
    QueuedRecord(turn);
    PutFresh(s, q);
    hide Parse, Queued, Advanced, Fresh;
    if turn.fila == Answered {
      PipelineReaches(s, q, turn);
    }
  }

  lemma QueuedRecord(turn: Turn)
    requires Parse(turn.text).Parsed?
    ensures Queued(turn).id == turn.id && Queued(turn).status == FILA
  {
  }

  lemma PipelineReaches(s: Store, q: Record, turn: Turn)
    requires q.status == FILA && turn.fila == Answered
    ensures |Pipeline(s + [q], turn)| == |s| + 1
    ensures Pipeline(s + [q], turn)[|s|].id == q.id && Pipeline(s + [q], turn)[|s|].status == Reached(turn)
  {
    if turn.cozinha == NotDelivered {
      QueuedStays(s, q, turn);
    } else {
      var c := Advanced(Advanced(q, turn.t2), turn.t3);
      ServeNewest(Cozinha, s, q, turn.t2, turn.t3);
      PackedReaches(s, q, c, turn);
    }
  }

  /** After Cozinha: Preparo and Entrega act on the order if they run in time. */
  lemma PackedReaches(s: Store, q: Record, c: Record, turn: Turn)
    requires c.status == PREPARO && turn.fila == Answered && turn.cozinha != NotDelivered
    requires AgentRun(Cozinha, s + [q], turn.t2, turn.t3) == s + [c]
    ensures |Pipeline(s + [q], turn)| == |s| + 1
    ensures Pipeline(s + [q], turn)[|s|].id == c.id && Pipeline(s + [q], turn)[|s|].status == Reached(turn)
  {
    match turn.preparo
    case InTime(call) =>
      if call == NotDelivered {
        ServeOthers(Entrega, s, c, turn.t5, turn.t5);
      } else {
        ServeNewest(Preparo, s, c, turn.t4, turn.t4);
        ServeNewest(Entrega, s, Advanced(c, turn.t4), turn.t5, turn.t5);
      }
    case AfterEntrega =>
      NewestIs(s + [c], Preparo, |s|);
      ServeOthers(Entrega, s, c, turn.t5, turn.t5);
  }

  /** Without Cozinha the order waits at FILA: the later agents only ever take older orders. */
  lemma QueuedStays(s: Store, q: Record, turn: Turn)
    requires q.status == FILA && turn.cozinha == NotDelivered
    ensures |Pipeline(s + [q], turn)| == |s| + 1 && Pipeline(s + [q], turn)[|s|] == q
  {
  }

  /* ---------- the orders stored before ---------- */

  ghost predicate SomeAt(s: Store, st: OrderStatus) {
    exists i | 0 <= i < |s| :: s[i].status == st
  }

  /** The turn's Preparo run, having no order of its own turn, takes an older one. */
  ghost predicate PacksOlder(s: Store, turn: Turn) {
    turn.cozinha == NotDelivered && turn.preparo != InTime(NotDelivered) && SomeAt(s, PREPARO)
  }

  /** So does its Entrega run. */
  ghost predicate DeliversOlder(s: Store, turn: Turn) {
    turn.entrega != NotDelivered && !AllRan(turn) && SomeAt(s, ENTREGA)
  }

  ghost predicate ServesOlder(s: Store, turn: Turn) {
    turn.fila == Answered && Parse(turn.text).Parsed? && (PacksOlder(s, turn) || DeliversOlder(s, turn))
  }

  lemma PrefixIff(s: Store, s': Store, q: Record)
    requires |s'| == |s| + 1
    ensures s <= s' <==> forall i | 0 <= i < |s| :: s'[i] == s[i]
  {
  }

  /** What a run of Preparo or Entrega on `s + [q]` does to `s`. */
  lemma ServeSplit(a: Agent, s: Store, q: Record, t: Time)
    requires a == Preparo || a == Entrega
    ensures |AgentRun(a, s + [q], t, t)| == |s| + 1
    ensures Eligible(a, q.status) ==> s <= AgentRun(a, s + [q], t, t)
    ensures !Eligible(a, q.status) ==>
      && AgentRun(a, s + [q], t, t) == AgentRun(a, s, t, t) + [q]
      && (s <= AgentRun(a, s + [q], t, t) <==> !SomeAt(s, Source(a)))
  {
    var s1 := AgentRun(a, s + [q], t, t);
    if Eligible(a, q.status) {
      NewestIs(s + [q], a, |s|);
    } else {
      assert (s + [q])[..|s|] == s;
      assert Newest(s + [q], a) == Newest(s, a);
      match Newest(s, a)
      case None =>
      case Some(k) =>
        assert s1[k] != s[k];
    }
  }

  /** `Serve` on `s + [q]` when the run is not of Cozinha. */
  lemma ServeOlder(a: Agent, call: Call, s: Store, q: Record, t: Time)
    requires a == Preparo || a == Entrega
    ensures |Serve(a, call, s + [q], t, t)| == |s| + 1
    ensures s <= Serve(a, call, s + [q], t, t) <==>
            call == NotDelivered || Eligible(a, q.status) || !SomeAt(s, Source(a))
  {
    ServeSplit(a, s, q, t);
  }

  /** Preparo has moved an older order; Entrega cannot undo that. */
  lemma DeliveryKeepsChange(call: Call, s: Store, s': Store, t: Time, k: nat)
    requires k < |s| == |s'| - 1 && s[k].status == PREPARO && s'[k].status != PREPARO
    ensures !(s <= Serve(Entrega, call, s', t, t))
  {
    var s'' := Serve(Entrega, call, s', t, t);
    assert |s''| == |s'| && s''[k].status != PREPARO;
  }

  /** Cozinha was not delivered: the turn's order waits at FILA. */
  lemma QueuedServesOlder(s: Store, q: Record, turn: Turn)
    requires q.status == FILA && turn.cozinha == NotDelivered
    ensures s <= Packed(s + [q], turn) <==> !PacksOlder(s, turn) && !DeliversOlder(s, turn)
  {
    var s1 := s + [q];
    assert s1[..|s|] == s;
    ServeOlder(Entrega, turn.entrega, s, q, turn.t5);
    match turn.preparo
    case InTime(call) =>
      if call != NotDelivered {
        ServeSplit(Preparo, s, q, turn.t4);
        match Newest(s, Preparo)
        case None =>
          assert AgentRun(Preparo, s, turn.t4, turn.t4) == s;
        case Some(k) =>
          assert AgentRun(Preparo, s1, turn.t4, turn.t4)[k].status == ENTREGA;
          DeliveryKeepsChange(turn.entrega, s, AgentRun(Preparo, s1, turn.t4, turn.t4), turn.t5, k);
      }
    case AfterEntrega =>
      var s' := Serve(Entrega, turn.entrega, s1, turn.t5, turn.t5);
      assert Newest(s1, Preparo) == Newest(s, Preparo);
      match Newest(s, Preparo)
      case None =>
      case Some(k) =>
        assert s'[k] == s1[k];
        assert AdvanceAt(s', k, turn.t4)[k].status == ENTREGA;
  }

  /** Cozinha took the turn's order to PREPARO. */
  lemma CookedServesOlder(s: Store, c: Record, turn: Turn)
    requires c.status == PREPARO && turn.cozinha != NotDelivered
    ensures s <= Packed(s + [c], turn) <==> !DeliversOlder(s, turn)
  {
    match turn.preparo
    case InTime(call) =>
      if call == NotDelivered {
        ServeOlder(Entrega, turn.entrega, s, c, turn.t5);
      } else {
        ServeNewest(Preparo, s, c, turn.t4, turn.t4);
        ServeOlder(Entrega, turn.entrega, s, Advanced(c, turn.t4), turn.t5);
      }
    case AfterEntrega =>
      NewestIs(s + [c], Preparo, |s|);
      ServeOlder(Entrega, turn.entrega, s, c, turn.t5);
      var s' := Serve(Entrega, turn.entrega, s + [c], turn.t5, turn.t5);
      PrefixIff(s, s', c);
      PrefixIff(s, AdvanceAt(s', |s|, turn.t4), c);
  }

  /**
   Whatever fails, a turn leaves all older orders alone, unless Cozinha was not called and Preparo finds an older
   order at PREPARO, or the turn's own order has not reached ENTREGA in time and Entrega finds an older one there.
   */
  lemma OlderAloneIff(s: Store, turn: Turn)
    requires Fresh(s, turn.id)
    ensures s <= AfterTurn(s, turn) <==> !ServesOlder(s, turn)
  {
    if turn.fila != NotDelivered && Parse(turn.text).Parsed? {
      var q := Queued(turn);
      QueuedRecord(turn);
      PutFresh(s, q);
      hide Parse, Queued, Advanced, Fresh;
      if turn.fila == Answered {
        if turn.cozinha == NotDelivered {
          QueuedServesOlder(s, q, turn);
        } else {
          CookedOlder(s, q, turn);
        }
      }
    }
  }

  lemma CookedOlder(s: Store, q: Record, turn: Turn)
    requires q.status == FILA && turn.cozinha != NotDelivered
    ensures s <= Pipeline(s + [q], turn) <==> !DeliversOlder(s, turn)
  {
    ServeNewest(Cozinha, s, q, turn.t2, turn.t3);
    CookedServesOlder(s, Advanced(Advanced(q, turn.t2), turn.t3), turn);
  }

  /* ---------- conversations ---------- */

  ghost function AfterTurns(s: Store, turns: seq<Turn>): Store
    decreases |turns|
  {
    if turns == [] then s else AfterTurns(AfterTurn(s, turns[0]), turns[1..])
  }

  /** Every turn parses, every call is answered in time, and no id repeats. */
  ghost predicate FailureFree(s: Store, turns: seq<Turn>) {
    && (forall i | 0 <= i < |turns| ::
          Parse(turns[i].text).Parsed? && turns[i].fila == Answered && AllRan(turns[i]) && Fresh(s, turns[i].id))
    && (forall i, j | 0 <= i < j < |turns| :: turns[i].id != turns[j].id)
  }

  /**
   Failure-free turns only append concluded orders, one a turn: from an empty store n turns leave n concluded orders,
   and from any other the orders already there stay as they are.
   */
  lemma {:induction false} TurnsOnlyAppend(s: Store, turns: seq<Turn>)
    requires FailureFree(s, turns)
    ensures |AfterTurns(s, turns)| == |s| + |turns| && s <= AfterTurns(s, turns)
    ensures forall i | 0 <= i < |turns| ::
      Parse(turns[i].text).Parsed? && AfterTurns(s, turns)[|s| + i] == Concluded(turns[i])
    decreases |turns|
  {
    if turns != [] {
      TurnConcludesItsOrder(s, turns[0]);
      var s1 := s + [Concluded(turns[0])];
      FailureFreeRest(s, turns);
      TurnsOnlyAppend(s1, turns[1..]);
      assert forall i | 0 < i < |turns| :: turns[i] == turns[1..][i - 1];
      AppendedAt(AfterTurns(s, turns), s, s1, turns);
    }
  }

  lemma AppendedAt(s': Store, s: Store, s1: Store, turns: seq<Turn>)
    requires turns != [] && forall i | 0 <= i < |turns| :: Parse(turns[i].text).Parsed?
    requires s1 == s + [Concluded(turns[0])] && s1 <= s' && |s'| == |s| + |turns|
    requires forall i | 0 <= i < |turns[1..]| :: s'[|s1| + i] == Concluded(turns[1..][i])
    ensures s <= s' && forall i | 0 <= i < |turns| :: s'[|s| + i] == Concluded(turns[i])
  {
    forall i | 0 <= i < |turns|
      ensures s'[|s| + i] == Concluded(turns[i])
    {
      if i == 0 {
        assert s'[|s|] == s1[|s|];
      } else {
        assert s'[|s1| + (i - 1)] == Concluded(turns[1..][i - 1]);
      }
    }
  }

  lemma FailureFreeRest(s: Store, turns: seq<Turn>)
    requires turns != [] && FailureFree(s, turns)
    ensures FailureFree(s + [Concluded(turns[0])], turns[1..])
  {
  }

  /** No turn repeats an id. */
  ghost predicate FreshTurns(s: Store, turns: seq<Turn>) {
    && (forall i | 0 <= i < |turns| :: Fresh(s, turns[i].id))
    && (forall i, j | 0 <= i < j < |turns| :: turns[i].id != turns[j].id)
  }

  /** `s'` holds the orders of `s` under their ids, order `k` untouched. */
  ghost predicate Keeps(s: Store, s': Store, k: nat) {
    && k < |s| <= |s'| && s'[k] == s[k]
    && forall i | 0 <= i < |s| :: s'[i].id == s[i].id
  }

  lemma ServeKeeps(a: Agent, call: Call, s: Store, t: Time, t': Time, k: nat)
    requires a != Fila && k < |s| && (!Eligible(a, s[k].status) || exists j | k < j < |s| :: Eligible(a, s[j].status))
    ensures Keeps(s, Serve(a, call, s, t, t'), k) && |Serve(a, call, s, t, t')| == |s|
  {
  }

  lemma PackedKeeps(s: Store, turn: Turn, k: nat)
    requires k < |s| && s[k].status !in {PREPARO, ENTREGA}
    ensures Keeps(s, Packed(s, turn), k) && |Packed(s, turn)| == |s|
  {
    match turn.preparo
    case InTime(call) =>
      ServeKeeps(Preparo, call, s, turn.t4, turn.t4, k);
      ServeKeeps(Entrega, turn.entrega, Serve(Preparo, call, s, turn.t4, turn.t4), turn.t5, turn.t5, k);
    case AfterEntrega =>
      ServeKeeps(Entrega, turn.entrega, s, turn.t5, turn.t5, k);
  }

  lemma PipelineKeeps(s: Store, q: Record, turn: Turn, k: nat)
    requires k < |s| && s[k].status !in {PREPARO, ENTREGA} && q.status == FILA
    ensures Keeps(s, Pipeline(s + [q], turn), k) && |Pipeline(s + [q], turn)| == |s| + 1
    ensures Pipeline(s + [q], turn)[|s|].id == q.id
  {
    var s1 := s + [q];
    assert Eligible(Cozinha, s1[|s|].status);
    ServeKeeps(Cozinha, turn.cozinha, s1, turn.t2, turn.t3, k);
    var s2 := Serve(Cozinha, turn.cozinha, s1, turn.t2, turn.t3);
    PackedKeeps(s2, turn, k);
    assert s1[|s|] == q;
  }

  /** An older order that is not yet packed, or delivered already, is beyond the reach of a turn. */
  lemma TurnKeeps(s: Store, turn: Turn, k: nat)
    requires Fresh(s, turn.id) && k < |s| && s[k].status !in {PREPARO, ENTREGA}
    ensures Keeps(s, AfterTurn(s, turn), k)
    ensures |AfterTurn(s, turn)| == |s| || (|AfterTurn(s, turn)| == |s| + 1 && AfterTurn(s, turn)[|s|].id == turn.id)
  {
    if turn.fila != NotDelivered && Parse(turn.text).Parsed? {
      var q := Queued(turn);
      QueuedRecord(turn);
      PutFresh(s, q);
      hide Parse, Queued, Advanced, Fresh;
      if turn.fila == Answered {
        PipelineKeeps(s, q, turn, k);
      }
    }
  }

  lemma FreshRest(s: Store, s': Store, turns: seq<Turn>, k: nat)
    requires turns != [] && FreshTurns(s, turns) && Keeps(s, s', k)
    requires |s'| == |s| || (|s'| == |s| + 1 && s'[|s|].id == turns[0].id)
    ensures FreshTurns(s', turns[1..])
  {
    assert forall i | 0 <= i < |turns[1..]| :: turns[1..][i] == turns[i + 1];
  }

  /**
   An order that is left at FILA is never served again, whatever later turns do and however they fail: Cozinha always
   has the newer order of the turn itself to take.
   */
  lemma {:induction false} LeftBehindStays(s: Store, turns: seq<Turn>, k: nat)
    requires FreshTurns(s, turns) && k < |s| && s[k].status !in {PREPARO, ENTREGA}
    ensures k < |AfterTurns(s, turns)| && AfterTurns(s, turns)[k] == s[k]
    decreases |turns|
  {
    if turns != [] {
      TurnKeeps(s, turns[0], k);
      FreshRest(s, AfterTurn(s, turns[0]), turns, k);
      LeftBehindStays(AfterTurn(s, turns[0]), turns[1..], k);
    }
  }

  /** One missed call to Cozinha is enough: this order waits at FILA for ever. */
  lemma OrderLeftBehind() returns (turn: Turn)
    ensures turn.fila == Answered && turn.preparo == InTime(Answered) && turn.entrega == Answered
    ensures forall turns: seq<Turn> | FreshTurns([], [turn] + turns) ::
      AfterTurns([], [turn] + turns) != [] && AfterTurns([], [turn] + turns)[0].status == FILA
  {
    turn := Turn("2 carne", "a", Answered, NotDelivered, InTime(Answered), Answered, 0, 0, 0, 0, 0, 0);
    var text := turn.text;
    assert Lower(text) == "2 carne";
    NotContainsIfMissing(Lower(text), NOME, 4);
    assert Parse(text).Parsed?;
    TurnReaches([], turn);
    forall turns: seq<Turn> | FreshTurns([], [turn] + turns)
      ensures AfterTurns([], [turn] + turns) != [] && AfterTurns([], [turn] + turns)[0].status == FILA
    {
      hide Parse, AfterTurn;
      AfterOne(turn, turns);
      LeftBehindStays(AfterTurn([], turn), turns, 0);
    }
  }

  lemma AfterOne(turn: Turn, turns: seq<Turn>)
    requires |AfterTurn([], turn)| == 1 && AfterTurn([], turn)[0].id == turn.id && FreshTurns([], [turn] + turns)
    ensures AfterTurns([], [turn] + turns) == AfterTurns(AfterTurn([], turn), turns)
    ensures FreshTurns(AfterTurn([], turn), turns)
  {
    hide AfterTurn;
    assert ([turn] + turns)[1..] == turns;
    forall i | 0 <= i < |turns|
      ensures turns[i].id != turn.id
    {
      assert ([turn] + turns)[i + 1] == turns[i] && ([turn] + turns)[0] == turn;
    }
    forall i, j | 0 <= i < j < |turns|
      ensures turns[i].id != turns[j].id
    {
      assert ([turn] + turns)[i + 1] == turns[i] && ([turn] + turns)[j + 1] == turns[j];
    }
  }

  /* ---------- the loop over the customer's lines ---------- */

  predicate IsQuit(text: string) {
    Lower(text) == "sair" || Lower(text) == "exit" || Lower(text) == "quit"
  }

  /** The lines before the first that quits, without the blank ones, stripped. */
  function Served(lines: seq<Turn>): seq<Turn>
    decreases |lines|
  {
    if lines == [] || IsQuit(Strip(lines[0].text)) then []
    else if Strip(lines[0].text) == "" then Served(lines[1..])
    else [lines[0].(text := Strip(lines[0].text))] + Served(lines[1..])
  }

  /** A line that says "sair", "exit" or "quit", in any casing, ends the conversation: nothing from it on is served. */
  lemma {:induction false} QuitStops(lines: seq<Turn>, i: nat)
    requires i < |lines| && Lower(Strip(lines[i].text)) in {"sair", "exit", "quit"}
    ensures Served(lines) == Served(lines[..i])
    decreases |lines|
  {
    hide Strip, Lower;
    if i > 0 {
      QuitStops(lines[1..], i - 1);
      assert lines[1..][..i - 1] == lines[..i][1..];
    }
  }

  /** `f` ascends over the positions of the lines that are not blank, and leaves none of them out. */
  ghost predicate NonblankAt(lines: seq<Turn>, f: seq<nat>) {
    && (forall j, k | 0 <= j < k < |f| :: f[j] < f[k])
    && (forall i: nat :: i in f <==> i < |lines| && Strip(lines[i].text) != "")
  }

  /** `served` is the lines at the positions `f`, stripped. */
  ghost predicate StrippedFrom(lines: seq<Turn>, served: seq<Turn>, f: seq<nat>) {
    && |f| == |served|
    && forall j | 0 <= j < |f| :: f[j] < |lines| && served[j] == lines[f[j]].(text := Strip(lines[f[j]].text))
  }

  /** Without such a line every line is served, in order and stripped, except the blank ones. */
  lemma {:induction false} NoQuitServesAll(lines: seq<Turn>)
    requires forall i | 0 <= i < |lines| :: Lower(Strip(lines[i].text)) !in {"sair", "exit", "quit"}
    ensures exists f :: NonblankAt(lines, f) && StrippedFrom(lines, Served(lines), f)
    decreases |lines|
  {
    hide Strip, Lower, NonblankAt, StrippedFrom;
    if lines == [] {
      NothingServed();
    } else {
      assert forall i | 0 <= i < |lines[1..]| :: lines[1..][i] == lines[i + 1];
      NoQuitServesAll(lines[1..]);
      var f :| NonblankAt(lines[1..], f) && StrippedFrom(lines[1..], Served(lines[1..]), f);
      assert !IsQuit(Strip(lines[0].text));
      hide IsQuit;
      OneMoreServed(lines, f);
    }
  }

  lemma NothingServed()
    ensures NonblankAt([], []) && StrippedFrom([], Served([]), [])
  {
  }

  lemma OneMoreServed(lines: seq<Turn>, f: seq<nat>)
    requires lines != [] && !IsQuit(Strip(lines[0].text))
    requires NonblankAt(lines[1..], f) && StrippedFrom(lines[1..], Served(lines[1..]), f)
    ensures exists g :: NonblankAt(lines, g) && StrippedFrom(lines, Served(lines), g)
  {
    hide Strip, IsQuit, NonblankAt, StrippedFrom, Next;
    NextNonblank(lines, f);
    NextStripped(lines, Served(lines[1..]), f);
    var g := if Strip(lines[0].text) == "" then Next(f) else [0] + Next(f);
    assert NonblankAt(lines, g) && StrippedFrom(lines, Served(lines), g);
  }

  function Next(f: seq<nat>): (g: seq<nat>)
    ensures |g| == |f| && forall j | 0 <= j < |f| :: g[j] == f[j] + 1
  {
    seq(|f|, j requires 0 <= j < |f| => f[j] + 1)
  }

  lemma NextMembers(f: seq<nat>, i: nat)
    ensures i in Next(f) <==> i > 0 && i - 1 in f
  {
    if i > 0 && i - 1 in f {
      var j :| 0 <= j < |f| && f[j] == i - 1;
      assert Next(f)[j] == i;
    }
  }

  lemma NextNonblank(lines: seq<Turn>, f: seq<nat>)
    requires lines != [] && NonblankAt(lines[1..], f)
    ensures NonblankAt(lines, if Strip(lines[0].text) == "" then Next(f) else [0] + Next(f))
  {
    hide Strip;
    var g := if Strip(lines[0].text) == "" then Next(f) else [0] + Next(f);
    forall i: nat
      ensures i in g <==> i < |lines| && Strip(lines[i].text) != ""
    {
      NextMembers(f, i);
      assert 0 < i < |lines| ==> lines[i] == lines[1..][i - 1];
    }
  }

  lemma NextStripped(lines: seq<Turn>, served: seq<Turn>, f: seq<nat>)
    requires lines != [] && StrippedFrom(lines[1..], served, f)
    ensures StrippedFrom(lines, served, Next(f))
    ensures StrippedFrom(lines, [lines[0].(text := Strip(lines[0].text))] + served, [0] + Next(f))
  {
    hide Strip;
    assert forall j | 0 <= j < |f| :: lines[f[j] + 1] == lines[1..][f[j]];
  }

  lemma {:induction false} AfterTurnsAppend(s: Store, a: seq<Turn>, b: seq<Turn>)
    ensures AfterTurns(s, a + b) == AfterTurns(AfterTurns(s, a), b)
    decreases |a|
  {
    if a == [] {
      assert a + b == b;
    } else {
      assert (a + b)[1..] == a[1..] + b;
      AfterTurnsAppend(AfterTurn(s, a[0]), a[1..], b);
    }
  }

  /** One turn of the terminal chat. Replies are only printed, so only the store is kept. */
  method ServeTurn(store: OrderStore, turn: Turn)
    requires store.Valid() && turn.text != ""
    modifies store, store.orders
    ensures store.Valid() && store.Contents() == AfterTurn(old(store.Contents()), turn)
    ensures forall k | 0 <= k < |store.orders| :: store.orders[k] in old(store.orders) || fresh(store.orders[k])
  {
    if turn.fila == NotDelivered {
      return;
    }
    assert FirstText([Some(turn.text)]) == turn.text;
    var reply := FilaExecute(store, [Some(turn.text)], turn.id, turn.t0, turn.t1);
    if reply == None || turn.fila != Answered {
      return;
    }
    ServePipeline(store, turn);
  }

  method ServePipeline(store: OrderStore, turn: Turn)
    requires store.Valid()
    modifies store.orders
    ensures store.Valid() && store.Contents() == Pipeline(old(store.Contents()), turn)
  {
    hide AgentRun, Newest, Eligible, Advanced;
    if turn.cozinha != NotDelivered {
      var reply := CozinhaExecute(store, turn.t2, turn.t3);
    }
    if turn.preparo == AfterEntrega {
      ServeLatePacking(store, turn);
    } else {
      if turn.preparo.call != NotDelivered {
        var reply := PreparoExecute(store, turn.t4);
      }
      if turn.entrega != NotDelivered {
        var reply := EntregaExecute(store, turn.t5);
      }
    }
  }

  /** Preparo sleeps while Entrega is called. */
  method ServeLatePacking(store: OrderStore, turn: Turn)
    requires store.Valid() && turn.preparo == AfterEntrega
    modifies store.orders
    ensures store.Valid() && store.Contents() == Packed(old(store.Contents()), turn)
  {
    hide AgentRun, Newest, Eligible, Advanced;
    var held, k := PreparoStart(store);
    if turn.entrega != NotDelivered {
      var reply := EntregaExecute(store, turn.t5);
    }
    if held != null {
      AdvanceStored(store, held, k, turn.t4);
    }
  }

  /** `main`: serve the lines until one of them quits, skipping the blank ones. */
  method Converse(store: OrderStore, lines: seq<Turn>)
    requires store.Valid()
    modifies store, store.orders
    ensures store.Valid() && store.Contents() == AfterTurns(old(store.Contents()), Served(lines))
  {
    hide AfterTurn, AfterTurns, IsQuit, Strip;
    var i := 0;
    ghost var before := store.Contents();
    ghost var served: seq<Turn> := [];
    NoTurns(before);
    while i < |lines|
      invariant i <= |lines| && store.Valid()
      invariant forall k | 0 <= k < |store.orders| :: store.orders[k] in old(store.orders) || fresh(store.orders[k])
      invariant served + Served(lines[i..]) == Served(lines)
      invariant store.Contents() == AfterTurns(before, served)
    {
      var text := Strip(lines[i].text);
      ServedStep(lines, i);
      if IsQuit(text) {
        break;
      }
      if text != "" {
        var turn := lines[i].(text := text);
        ServeTurn(store, turn);
        OneMoreTurn(before, served, turn);
        served := served + [turn];
      }
      i := i + 1;
    }
    assert served + [] == served;
  }

  lemma NoTurns(s: Store)
    ensures AfterTurns(s, []) == s
  {
  }

  lemma OneMoreTurn(s: Store, served: seq<Turn>, turn: Turn)
    ensures AfterTurns(s, served + [turn]) == AfterTurn(AfterTurns(s, served), turn)
  {
    AfterTurnsAppend(s, served, [turn]);
    var s' := AfterTurns(s, served);
    assert AfterTurns(s', [turn]) == AfterTurns(AfterTurn(s', turn), []);
  }

  lemma ServedStep(lines: seq<Turn>, i: nat)
    requires i < |lines|
    ensures Served(lines[i..]) ==
      if IsQuit(Strip(lines[i].text)) then []
      else
        (if Strip(lines[i].text) == "" then [] else [lines[i].(text := Strip(lines[i].text))])
        + Served(lines[i + 1..])
  {
  }
}
