/**
 The four executors as they act on the shared store. An executor that sleeps is two methods,
 the part before the sleep and the part after it; `Execute` runs both with nothing in between.
 */
module Executors {
  import opened Strings
  import opened Orders
  import opened OrderParser
  import opened SerialRuns
  import opened Replies

  /** The first nonempty text among the parts of a message; "" if there is none. */
  function FirstText(parts: seq<Option<string>>): string {
    if parts == [] then ""
    else if parts[0].Some? && parts[0].value != "" then parts[0].value
    else FirstText(parts[1..])
  }

  /** It is that of the first part that has one, whatever stands behind it. */
  lemma {:induction false} FirstTextIs(parts: seq<Option<string>>, i: nat)
    requires i <= |parts| && forall j | 0 <= j < i :: parts[j] == None || parts[j] == Some("")
    ensures i < |parts| && parts[i].Some? && parts[i].value != "" ==> FirstText(parts) == parts[i].value
    ensures i == |parts| ==> FirstText(parts) == ""
  {
    if i > 0 { FirstTextIs(parts[1..], i - 1); }
  }

  lemma {:induction false} PutUpdate(s: Store, r: Record, r': Record, k: nat)
    requires r.id == r'.id && k < |Put(s, r)| && DistinctIds(Put(s, r)) && Put(s, r)[k] == r
    ensures Put(s, r)[k := r'] == Put(s, r')
  {
    if s != [] && s[0].id != r.id {
      var p := Put(s[1..], r);
      assert Put(s, r) == [s[0]] + p;
      assert forall i | 0 <= i < |p| :: p[i] == Put(s, r)[i + 1];
      PutUpdate(s[1..], r, r', k - 1);
    } else if s != [] {
      assert k == 0 by { assert Put(s, r)[0].id == r.id; }
    }
  }

  /** `order.advance()` on an order of the store changes that one record of the contents. */
  method AdvanceStored(store: OrderStore, order: Order, ghost k: nat, now: Time)
    requires store.Valid() && k < |store.orders| && store.orders[k] == order
    modifies order
    ensures store.Valid() && store.Contents() == AdvanceAt(old(store.Contents()), k, now)
    ensures order.View() == Advanced(old(order.View()), now)
  {
    assert forall j | 0 <= j < |store.orders| && j != k :: store.orders[j].id != order.id;
    var status := order.Advance(now);
  }

  /** `active[-1]` of the orders the agent may take, or null when there are none. */
  method SelectNewest(store: OrderStore, a: Agent) returns (order: Order?, ghost k: nat)
    requires store.Valid()
    ensures order == null <==> Newest(store.Contents(), a) == None
    ensures order != null ==> k < |store.orders| && order == store.orders[k] && Newest(store.Contents(), a) == Some(k)
  {
    var active: seq<Order> := [];
    k := 0;
    for i := 0 to |store.orders|
      invariant active == [] ==> forall j | 0 <= j < i :: !Eligible(a, store.orders[j].status)
      invariant active != [] ==> k < i && active[|active| - 1] == store.orders[k] && Eligible(a, store.orders[k].status)
      invariant active != [] ==> forall j | k < j < i :: !Eligible(a, store.orders[j].status)
    {
      if Eligible(a, store.orders[i].status) {
        active := active + [store.orders[i]];
        k := i;
      }
    }
    if active == [] {
      order := null;
    } else {
      order := active[|active| - 1];
      NewestIs(store.Contents(), a, k);
    }
  }

  method ReadText(parts: seq<Option<string>>) returns (text: string)
    ensures text == FirstText(parts)
  {
    text := "";
    for i := 0 to |parts|
      invariant FirstText(parts) == FirstText(parts[i..])
    {
      if parts[i].Some? && parts[i].value != "" {
        return parts[i].value;
      }
      assert parts[i..][1..] == parts[i + 1..];
    }
  }

  /** `FilaExecutor.execute`; no reply when the parser raises. */
  method FilaExecute(store: OrderStore, parts: seq<Option<string>>, id: string, t0: Time, t1: Time)
    returns (reply: Option<string>)
    requires store.Valid()
    modifies store
    ensures store.Valid()
    ensures forall k | 0 <= k < |store.orders| :: store.orders[k] in old(store.orders) || fresh(store.orders[k])
    ensures Parse(FirstText(parts)).IndexError? ==>
      reply == None && store.Contents() == old(store.Contents()) && store.queueCounter == old(store.queueCounter)
    ensures Parse(FirstText(parts)).Parsed? ==>
      var p := Parse(FirstText(parts));
      && store.Contents() == FilaRun(old(store.Contents()), id, p.nome, p.itens, t0, t1)
      && store.queueCounter == old(store.queueCounter) + 1
      && reply == Some(FilaReply(NewRecord(id, p.itens, p.nome, t0), store.queueCounter))
  {
    hide Parse, FilaReply, Put, Advanced, FirstText;
    var text := ReadText(parts);
    var parsed := ParseOrderText(text);
    if parsed.IndexError? {
      return None;
    }
    var order, k := store.CreateOrder(id, parsed.nome, parsed.itens, t0);
    store.queueCounter := store.queueCounter + 1;
    var position := store.queueCounter;
    reply := Some(FilaReply(order.View(), position));
    ghost var stored := order.View();
    AdvanceStored(store, order, k, t1);
    PutUpdate(old(store.Contents()), stored, order.View(), k);
  }

  /** Cozinha before its sleep: pick the newest order and advance it. */
  method CozinhaStart(store: OrderStore, now: Time) returns (held: Order?, ghost k: nat)
    requires store.Valid()
    modifies store.orders
    ensures store.Valid()
    ensures held == null <==> Newest(old(store.Contents()), Cozinha) == None
    ensures held == null ==> store.Contents() == old(store.Contents())
    ensures held != null ==>
      && k < |store.orders| && held == store.orders[k]
      && Newest(old(store.Contents()), Cozinha) == Some(k)
      && store.Contents() == AdvanceAt(old(store.Contents()), k, now)
  {
    held, k := SelectNewest(store, Cozinha);
    if held != null {
      AdvanceStored(store, held, k, now);
    }
  }

  /** Cozinha after its sleep: advance the order it holds, whatever has happened to it meanwhile. */
  method CozinhaFinish(held: Order, now: Time) returns (reply: string)
    modifies held
    ensures held.View() == Advanced(old(held.View()), now) && reply == CozinhaReply(held.id)
  {
    var status := held.Advance(now);
    reply := CozinhaReply(held.id);
  }

  method CozinhaExecute(store: OrderStore, t: Time, t': Time) returns (reply: string)
    requires store.Valid()
    modifies store.orders
    ensures store.Valid() && store.Contents() == AgentRun(Cozinha, old(store.Contents()), t, t')
    ensures reply == match Newest(old(store.Contents()), Cozinha) {
                       case None => COZINHA_IDLE
                       case Some(k) => CozinhaReply(old(store.Contents())[k].id)
                     }
  {
    hide CozinhaReply, Advanced, Newest, Eligible;
    var held, k := CozinhaStart(store, t);
    if held == null {
      return COZINHA_IDLE;
    }
    ghost var asleep := store.Contents();
    assert forall j | 0 <= j < |store.orders| && j != k :: store.orders[j].id != held.id;
    reply := CozinhaFinish(held, t');
    assert store.Contents() == AdvanceAt(asleep, k, t');
  }

  /** Preparo before its sleep: pick the newest order, change nothing. */
  method PreparoStart(store: OrderStore) returns (held: Order?, ghost k: nat)
    requires store.Valid()
    ensures held == null <==> Newest(store.Contents(), Preparo) == None
    ensures held != null ==>
      k < |store.orders| && held == store.orders[k] && Newest(store.Contents(), Preparo) == Some(k)
  {
    held, k := SelectNewest(store, Preparo);
  }

  method PreparoFinish(held: Order, now: Time) returns (reply: string)
    modifies held
    ensures held.View() == Advanced(old(held.View()), now) && reply == PreparoReply(held.id)
  {
    var status := held.Advance(now);
    reply := PreparoReply(held.id);
  }

  method PreparoExecute(store: OrderStore, t: Time) returns (reply: string)
    requires store.Valid()
    modifies store.orders
    ensures store.Valid() && store.Contents() == AgentRun(Preparo, old(store.Contents()), t, t)
    ensures reply == match Newest(old(store.Contents()), Preparo) {
                       case None => PREPARO_IDLE
                       case Some(k) => PreparoReply(old(store.Contents())[k].id)
                     }
  {
    hide PreparoReply, Advanced, Newest, Eligible;
    var held, k := PreparoStart(store);
    if held == null {
      return PREPARO_IDLE;
    }
    assert forall j | 0 <= j < |store.orders| && j != k :: store.orders[j].id != held.id;
    reply := PreparoFinish(held, t);
    assert store.Contents() == AdvanceAt(old(store.Contents()), k, t);
  }

  method EntregaExecute(store: OrderStore, t: Time) returns (reply: string)
    requires store.Valid()
    modifies store.orders
    ensures store.Valid() && store.Contents() == AgentRun(Entrega, old(store.Contents()), t, t)
    ensures reply == match Newest(old(store.Contents()), Entrega) {
                       case None => ENTREGA_IDLE
                       case Some(k) => EntregaReply(old(store.Contents())[k].id, old(store.Contents())[k].clienteNome)
                     }
  {
    var order, k := SelectNewest(store, Entrega);
    if order == null {
      return ENTREGA_IDLE;
    }
    AdvanceStored(store, order, k, t);
    reply := EntregaReply(order.id, order.clienteNome);
  }
}
