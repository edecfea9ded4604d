/** The texts the executors answer with. */
module Replies {
  import opened Strings
  import opened Orders

  function SaborValue(s: SaborType): string {
    match s
    case CARNE => "carne"
    case FRANGO => "frango"
    case QUEIJO => "queijo"
    case PALMITO => "palmito"
    case CARNE_QUEIJO => "carne_com_queijo"
  }

  function BordaValue(b: BordaType): string {
    match b
    case NORMAL => "normal"
    case BORDA_QUEIJO => "queijo"
    case CATUPIRY => "catupiry"
  }

  function StatusValue(s: OrderStatus): string {
    match s
    case PEDIDO => "pedido"
    case FILA => "fila"
    case COZINHA => "cozinha"
    case PREPARO => "preparo"
    case ENTREGA => "entrega"
    case CONCLUIDO => "concluido"
  }

  function ItemText(i: PastelItem): string {
    Decimal(i.quantidade) + "x pastel de " + SaborValue(i.sabor) + " (borda " + BordaValue(i.borda) + ")"
  }

  function ItemTexts(itens: seq<PastelItem>): seq<string> {
    seq(|itens|, i requires 0 <= i < |itens| => ItemText(itens[i]))
  }

  /** `Order.to_summary` */
  function Summary(r: Record): string {
    ("Pedido #" + r.id + ":") + " " + (Join(ItemTexts(r.itens), ", ") + " " + ("— Status: " + StatusValue(r.status)))
  }

  function PositionLine(position: nat): string {
    "📍 Posição na fila: " + Decimal(position)
  }

  function EstimateLine(items: nat): string {
    "⏳ Tempo estimado: ~" + Decimal(3 * items) + " minutos"
  }

  function FilaReply(r: Record, position: nat): string {
    "✅ Pedido recebido!" + "\n" + (Summary(r) + "\n" + (PositionLine(position) + "\n" + EstimateLine(|r.itens|)))
  }

  const COZINHA_IDLE := "🍳 Nenhum pedido na cozinha no momento."

  const COZINHA_STEPS := [
    "🔥 Aquecendo o óleo...",
    "🥟 Massa sendo aberta...",
    "🥩 Recheio sendo preparado...",
    "📐 Montando o pastel...",
    "🍟 Fritando... golden & crispy!",
    "✅ Cozinha finalizou o pedido!"
  ]

  function CozinhaReply(id: string): string {
    Join(COZINHA_STEPS, "\n") + "\n\n" + ("🎯 Pedido #" + id + " saiu da cozinha e está no preparo.")
  }

  const PREPARO_IDLE := "📦 Nenhum pedido para preparar."

  const PREPARO_STEPS := [
    "📦 Enfatando a embalagem...",
    "🏷️ Colocando etiqueta do pedido...",
    "✅ Pronto para entrega!"
  ]

  function PreparoReply(id: string): string {
    Join(PREPARO_STEPS, "\n") + "\n\n" + ("🚗 Pedido #" + id + " saiu para entrega!")
  }

  const ENTREGA_IDLE := "🚚 Nenhum pedido para entregar."

  function EntregaReply(id: string, nome: string): string {
    "🎉 Pedido #" + id + (" entregue com sucesso!\n" + EntregaDetails(nome))
  }

  function EntregaDetails(nome: string): string {
    "Cliente: " + nome + "\n" + "Status: CONCLUÍDO\n" + "Obrigado pela preferência! 🥟"
  }

  /* ---------- what the replies tell ---------- */

  lemma ContainsInside(t: string, a: string, w: string, b: string)
    requires t == a + w + b
    ensures Contains(t, w)
  {
    ContainsMiddle(a, w, b);
  }

  lemma Assembled(i: PastelItem, whole: string)
    requires "x pastel de " + SaborValue(i.sabor) + " (borda " + BordaValue(i.borda) + ")" == whole
    ensures ItemText(i) == Decimal(i.quantidade) + whole
  {
    hide SaborValue, BordaValue, Decimal;
  }

  lemma CarneReads(n: nat, note: string)
    ensures ItemText(PastelItem(CARNE, n, NORMAL, note)) == Decimal(n) + "x pastel de carne (borda normal)"
  {
    Assembled(PastelItem(CARNE, n, NORMAL, note), "x pastel de carne (borda normal)");
  }

  lemma FrangoReads(n: nat, note: string)
    ensures ItemText(PastelItem(FRANGO, n, BORDA_QUEIJO, note)) == Decimal(n) + "x pastel de frango (borda queijo)"
  {
    Assembled(PastelItem(FRANGO, n, BORDA_QUEIJO, note), "x pastel de frango (borda queijo)");
  }

  lemma QueijoReads(n: nat, note: string)
    ensures ItemText(PastelItem(QUEIJO, n, CATUPIRY, note)) == Decimal(n) + "x pastel de queijo (borda catupiry)"
  {
    Assembled(PastelItem(QUEIJO, n, CATUPIRY, note), "x pastel de queijo (borda catupiry)");
  }

  lemma PalmitoReads(n: nat, note: string)
    ensures ItemText(PastelItem(PALMITO, n, NORMAL, note)) == Decimal(n) + "x pastel de palmito (borda normal)"
  {
    Assembled(PastelItem(PALMITO, n, NORMAL, note), "x pastel de palmito (borda normal)");
  }

  lemma MixReads(n: nat, note: string)
    ensures ItemText(PastelItem(CARNE_QUEIJO, n, NORMAL, note)) ==
            Decimal(n) + "x pastel de carne_com_queijo (borda normal)"
  {
    Assembled(PastelItem(CARNE_QUEIJO, n, NORMAL, note), "x pastel de carne_com_queijo (borda normal)");
  }

  /** How an item reads, for every quantity. */
  lemma ItemTextReads(n: nat, note: string)
    ensures ItemText(PastelItem(CARNE, n, NORMAL, note)) == Decimal(n) + "x pastel de carne (borda normal)"
    ensures ItemText(PastelItem(FRANGO, n, BORDA_QUEIJO, note)) == Decimal(n) + "x pastel de frango (borda queijo)"
    ensures ItemText(PastelItem(QUEIJO, n, CATUPIRY, note)) == Decimal(n) + "x pastel de queijo (borda catupiry)"
    ensures ItemText(PastelItem(PALMITO, n, NORMAL, note)) == Decimal(n) + "x pastel de palmito (borda normal)"
    ensures ItemText(PastelItem(CARNE_QUEIJO, n, NORMAL, note)) ==
            Decimal(n) + "x pastel de carne_com_queijo (borda normal)"
  {
    hide Decimal, ItemText;
    CarneReads(n, note);
    FrangoReads(n, note);
    QueijoReads(n, note);
    PalmitoReads(n, note);
    MixReads(n, note);
  }

  lemma DigitsThenX(d: string, t: string, d': string, t': string)
    requires AllDigits(d) && AllDigits(d') && d + "x" + t == d' + "x" + t'
    ensures d == d' && t == t'
  {
    var s := d + "x" + t;
    assert s[|d|] == 'x' && s[|d'|] == 'x';
    assert (forall k | 0 <= k < |d| :: s[k] == d[k]) && (forall k | 0 <= k < |d'| :: s[k] == d'[k]);
    assert |d| == |d'|;
    assert s[..|d|] == d && s[|d| + 1..] == t && s[..|d'|] == d' && s[|d'| + 1..] == t';
  }

  function AfterX(i: PastelItem): string {
    " pastel de " + SaborValue(i.sabor) + " (borda " + BordaValue(i.borda) + ")"
  }

  lemma SplitAtX(i: PastelItem)
    ensures ItemText(i) == Decimal(i.quantidade) + "x" + AfterX(i)
  {
    hide SaborValue, BordaValue, Decimal;
    assert "x pastel de " == "x" + " pastel de ";
  }

  /** The text of an item determines its quantity, flavour and borda. */
  lemma ItemTextTells(i: PastelItem, j: PastelItem)
    requires ItemText(i) == ItemText(j)
    ensures i.quantidade == j.quantidade && i.sabor == j.sabor && i.borda == j.borda
  {
    SplitAtX(i);
    SplitAtX(j);
    ParseOfDecimal(i.quantidade);
    ParseOfDecimal(j.quantidade);
    ValuesDiffer(i, j);
    ValuesDiffer(j, i);
    hide ItemText, Decimal, SaborValue, BordaValue;
    DigitsThenX(Decimal(i.quantidade), AfterX(i), Decimal(j.quantidade), AfterX(j));
    ValuesTell(SaborValue(i.sabor), BordaValue(i.borda), SaborValue(j.sabor), BordaValue(j.borda));
  }

  lemma ValuesTell(a: string, b: string, a': string, b': string)
    requires ' ' !in a && ' ' !in a'
    requires " pastel de " + a + " (borda " + b + ")" == " pastel de " + a' + " (borda " + b' + ")"
    ensures a == a' && b == b'
  {
    var s, s' := a + " (borda " + b + ")", a' + " (borda " + b' + ")";
    assert " pastel de " + a + " (borda " + b + ")" == " pastel de " + s;
    assert " pastel de " + a' + " (borda " + b' + ")" == " pastel de " + s';
    assert (" pastel de " + s)[11..] == s && (" pastel de " + s')[11..] == s';
    assert s[|a|] == ' ' && s'[|a'|] == ' ';
    assert |a| == |a'|;
    assert s[..|a|] == a && s'[..|a'|] == a';
    assert s[|a| + 8..|s| - 1] == b && s'[|a'| + 8..|s'| - 1] == b';
  }

  lemma ValuesDiffer(i: PastelItem, j: PastelItem)
    ensures ' ' !in SaborValue(i.sabor)
    ensures SaborValue(i.sabor) == SaborValue(j.sabor) ==> i.sabor == j.sabor
    ensures BordaValue(i.borda) == BordaValue(j.borda) ==> i.borda == j.borda
  {
    assert SaborValue(i.sabor)[0] == SaborValue(j.sabor)[0] && |SaborValue(i.sabor)| == |SaborValue(j.sabor)|
           ==> i.sabor == j.sabor;
    assert BordaValue(i.borda)[0] == BordaValue(j.borda)[0] ==> i.borda == j.borda;
  }

  lemma {:induction false} JoinHolds(parts: seq<string>, sep: string, k: nat)
    requires k < |parts|
    ensures Contains(Join(parts, sep), parts[k])
  {
    hide Contains;
    if k == 0 {
      ContainsInside(Join(parts, sep), "", parts[0], if |parts| == 1 then "" else sep + Join(parts[1..], sep));
    } else {
      JoinHolds(parts[1..], sep, k - 1);
      ContainsInside(Join(parts, sep), parts[0] + sep, Join(parts[1..], sep), "");
      ContainsTransitive(Join(parts, sep), Join(parts[1..], sep), parts[k]);
    }
  }

  /** Fila's reply tells the id, every item, the position and the waiting time of three minutes an item. */
  lemma FilaReplyTells(r: Record, position: nat)
    ensures Contains(FilaReply(r, position), "Pedido #" + r.id + ": ")
    ensures forall k | 0 <= k < |r.itens| :: Contains(FilaReply(r, position), ItemText(r.itens[k]))
    ensures Contains(FilaReply(r, position), "Posição na fila: " + Decimal(position) + "\n")
    ensures Contains(FilaReply(r, position), "~" + Decimal(|r.itens| + |r.itens| + |r.itens|) + " minutos")
  {
    TellsId(r, position);
    TellsTimes(r, position);
    forall k | 0 <= k < |r.itens|
      ensures Contains(FilaReply(r, position), ItemText(r.itens[k]))
    {
      TellsItem(r, position, k);
    }
  }

  lemma TellsId(r: Record, position: nat)
    ensures Contains(FilaReply(r, position), "Pedido #" + r.id + ": ")
  {
    SummaryTellsId(r);
    hide Contains, Summary;
    TellsSummary(r, position);
    ContainsTransitive(FilaReply(r, position), Summary(r), "Pedido #" + r.id + ": ");
  }

  lemma SummaryTellsId(r: Record)
    ensures Contains(Summary(r), "Pedido #" + r.id + ": ")
  {
    hide Contains, Join, StatusValue;
    var b := Join(ItemTexts(r.itens), ", ") + " " + ("— Status: " + StatusValue(r.status));
    assert "Pedido #" + r.id + ":" + " " == "Pedido #" + r.id + ": ";
    ContainsInside(Summary(r), "", "Pedido #" + r.id + ": ", b);
  }

  lemma TellsSummary(r: Record, position: nat)
    ensures Contains(FilaReply(r, position), Summary(r))
  {
    hide Contains, Summary, PositionLine, EstimateLine;
    var b := "\n" + (PositionLine(position) + "\n" + EstimateLine(|r.itens|));
    ContainsInside(FilaReply(r, position), "✅ Pedido recebido!" + "\n", Summary(r), b);
  }

  lemma TellsItem(r: Record, position: nat, k: nat)
    requires k < |r.itens|
    ensures Contains(FilaReply(r, position), ItemText(r.itens[k]))
  {
    SummaryTellsItem(r, k);
    hide Contains, Summary, ItemText;
    TellsSummary(r, position);
    ContainsTransitive(FilaReply(r, position), Summary(r), ItemText(r.itens[k]));
  }

  lemma SummaryTellsItem(r: Record, k: nat)
    requires k < |r.itens|
    ensures Contains(Summary(r), ItemText(r.itens[k]))
  {
    var items := Join(ItemTexts(r.itens), ", ");
    hide Contains, Join, StatusValue, ItemText;
    JoinHolds(ItemTexts(r.itens), ", ", k);
    ContainsInside(Summary(r), "Pedido #" + r.id + ":" + " ", items, " " + ("— Status: " + StatusValue(r.status)));
    ContainsTransitive(Summary(r), items, ItemText(r.itens[k]));
  }

  lemma TellsTimes(r: Record, position: nat)
    ensures Contains(FilaReply(r, position), "Posição na fila: " + Decimal(position) + "\n")
    ensures Contains(FilaReply(r, position), "~" + Decimal(|r.itens| + |r.itens| + |r.itens|) + " minutos")
  {
    var head := "✅ Pedido recebido!" + "\n" + Summary(r) + "\n";
    hide Contains, Summary, PositionLine, EstimateLine;
    assert FilaReply(r, position) == head + (PositionLine(position) + "\n") + EstimateLine(|r.itens|);
    TellsPosition(head, position, EstimateLine(|r.itens|));
    TellsWait(head + (PositionLine(position) + "\n"), |r.itens|);
  }

  lemma TellsPosition(a: string, position: nat, b: string)
    ensures Contains(a + (PositionLine(position) + "\n") + b, "Posição na fila: " + Decimal(position) + "\n")
  {
    assert "📍 Posição na fila: " == "📍 " + "Posição na fila: ";
    hide Contains, Decimal;
    ContainsInside(
      a + (PositionLine(position) + "\n") + b, a + "📍 ", "Posição na fila: " + Decimal(position) + "\n", b);
  }

  lemma TellsWait(a: string, n: nat)
    ensures Contains(a + EstimateLine(n), "~" + Decimal(n + n + n) + " minutos")
  {
    assert "⏳ Tempo estimado: ~" == "⏳ Tempo estimado: " + "~";
    assert 3 * n == n + n + n;
    hide Contains, Decimal;
    ContainsInside(a + EstimateLine(n), a + "⏳ Tempo estimado: ", "~" + Decimal(n + n + n) + " minutos", "");
  }

  /** Cozinha's reply lists its six steps. */
  lemma CozinhaSteps(id: string)
    ensures Contains(CozinhaReply(id), "🔥 Aquecendo o óleo...")
    ensures Contains(CozinhaReply(id), "🥟 Massa sendo aberta...")
    ensures Contains(CozinhaReply(id), "🥩 Recheio sendo preparado...")
    ensures Contains(CozinhaReply(id), "📐 Montando o pastel...")
    ensures Contains(CozinhaReply(id), "🍟 Fritando... golden & crispy!")
    ensures Contains(CozinhaReply(id), "✅ Cozinha finalizou o pedido!")
  {
    assert COZINHA_STEPS[0] == "🔥 Aquecendo o óleo..." && COZINHA_STEPS[1] == "🥟 Massa sendo aberta...";
    assert COZINHA_STEPS[2] == "🥩 Recheio sendo preparado..." && COZINHA_STEPS[3] == "📐 Montando o pastel...";
    assert COZINHA_STEPS[4] == "🍟 Fritando... golden & crispy!" && COZINHA_STEPS[5] == "✅ Cozinha finalizou o pedido!";
    hide Contains, Join, COZINHA_STEPS;
    forall k | 0 <= k < |COZINHA_STEPS|
      ensures Contains(CozinhaReply(id), COZINHA_STEPS[k])
    {
      CozinhaStepTold(id, k);
    }
  }

  lemma CozinhaStepTold(id: string, k: nat)
    requires k < |COZINHA_STEPS|
    ensures Contains(CozinhaReply(id), COZINHA_STEPS[k])
  {
    hide Contains, Join, COZINHA_STEPS;
    JoinHolds(COZINHA_STEPS, "\n", k);
    ContainsInside(
      CozinhaReply(id), "", Join(COZINHA_STEPS, "\n"),
      "\n\n" + ("🎯 Pedido #" + id + " saiu da cozinha e está no preparo."));
    ContainsTransitive(CozinhaReply(id), Join(COZINHA_STEPS, "\n"), COZINHA_STEPS[k]);
  }

  /** Preparo's reply lists its three steps. */
  lemma PreparoSteps(id: string)
    ensures Contains(PreparoReply(id), "📦 Enfatando a embalagem...")
    ensures Contains(PreparoReply(id), "🏷️ Colocando etiqueta do pedido...")
    ensures Contains(PreparoReply(id), "✅ Pronto para entrega!")
  {
    assert PREPARO_STEPS[0] == "📦 Enfatando a embalagem..." && PREPARO_STEPS[2] == "✅ Pronto para entrega!";
    assert PREPARO_STEPS[1] == "🏷️ Colocando etiqueta do pedido..." && |PREPARO_STEPS| == 3;
    hide Contains, Join, PREPARO_STEPS;
    forall k | 0 <= k < 3
      ensures Contains(PreparoReply(id), PREPARO_STEPS[k])
    {
      JoinHolds(PREPARO_STEPS, "\n", k);
      ContainsInside(
        PreparoReply(id), "", Join(PREPARO_STEPS, "\n"), "\n\n" + ("🚗 Pedido #" + id + " saiu para entrega!"));
      ContainsTransitive(PreparoReply(id), Join(PREPARO_STEPS, "\n"), PREPARO_STEPS[k]);
    }
  }

  /** The summary of an order ends with the word of its status. */
  lemma SummaryTellsStatus(r: Record)
    ensures var w := match r.status {
                       case PEDIDO => "pedido"
                       case FILA => "fila"
                       case COZINHA => "cozinha"
                       case PREPARO => "preparo"
                       case ENTREGA => "entrega"
                       case CONCLUIDO => "concluido"
                     };
            Contains(Summary(r), "— Status: " + w)
  {
    var a := "Pedido #" + r.id + ":" + " " + Join(ItemTexts(r.itens), ", ") + " ";
    hide Contains, Join;
    ContainsInside(Summary(r), a, "— Status: " + StatusValue(r.status), "");
  }

  /** The other replies name the order, and the last one the customer. */
  lemma LaterRepliesTell(id: string, nome: string)
    ensures Contains(CozinhaReply(id), "Pedido #" + id + " saiu da cozinha e está no preparo.")
    ensures Contains(PreparoReply(id), "Pedido #" + id + " saiu para entrega!")
    ensures Contains(EntregaReply(id, nome), "Pedido #" + id + " entregue com sucesso!")
    ensures Contains(EntregaReply(id, nome), "Cliente: " + nome + "\n")
  {
    CozinhaTells(id);
    PreparoTells(id);
    EntregaTellsId(id, nome);
    EntregaTellsName(id, nome);
  }

  lemma CozinhaTells(id: string)
    ensures Contains(CozinhaReply(id), "Pedido #" + id + " saiu da cozinha e está no preparo.")
  {
    hide Contains, Join, COZINHA_STEPS;
    var a, w := Join(COZINHA_STEPS, "\n") + "\n\n", "Pedido #" + id + " saiu da cozinha e está no preparo.";
    OnTarget(id);
    ContainsInside(CozinhaReply(id), a + "🎯 ", w, "");
  }

  lemma OnTarget(id: string)
    ensures "🎯 Pedido #" + id + " saiu da cozinha e está no preparo."
         == "🎯 " + ("Pedido #" + id + " saiu da cozinha e está no preparo.")
  {
    assert "🎯 Pedido #" == "🎯 " + "Pedido #";
  }

  lemma PreparoTells(id: string)
    ensures Contains(PreparoReply(id), "Pedido #" + id + " saiu para entrega!")
  {
    assert "🚗 Pedido #" == "🚗 " + "Pedido #";
    hide Contains, Join;
    var a := Join(PREPARO_STEPS, "\n") + "\n\n";
    hide PREPARO_STEPS;
    ContainsInside(PreparoReply(id), a + "🚗 ", "Pedido #" + id + " saiu para entrega!", "");
  }

  lemma EntregaTellsId(id: string, nome: string)
    ensures Contains(EntregaReply(id, nome), "Pedido #" + id + " entregue com sucesso!")
  {
    assert "🎉 Pedido #" == "🎉 " + "Pedido #" && " entregue com sucesso!\n" == " entregue com sucesso!" + "\n";
    hide Contains, EntregaDetails;
    ContainsInside(
      EntregaReply(id, nome), "🎉 ", "Pedido #" + id + " entregue com sucesso!", "\n" + EntregaDetails(nome));
  }

  lemma EntregaTellsName(id: string, nome: string)
    ensures Contains(EntregaReply(id, nome), "Cliente: " + nome + "\n")
  {
    hide Contains;
    var a := "🎉 Pedido #" + id + " entregue com sucesso!\n";
    var b := "Status: CONCLUÍDO\n" + "Obrigado pela preferência! 🥟";
    assert EntregaReply(id, nome) == a + EntregaDetails(nome);
    ContainsInside(EntregaReply(id, nome), a, "Cliente: " + nome + "\n", b);
  }
}
