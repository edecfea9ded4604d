# Pastelaria Virtual: a verified model

Four agents (Fila, Cozinha, Preparo, Entrega) take pastel orders from the customer's text to delivery. They are threads of one
process over one in-memory order store. This project models, in Dafny 4.11, the store, the agents and their interleavings, the
deterministic order parser, the terminal chat, the polling client, the planner's JSON cutting, and the chat page's progress bar,
and proves what they do for all inputs and all runs. Check it with `dafny verify dfyconfig.toml`.

| file | what it models |
|---|---|
| `Strings.dfy` | substring test, ASCII lower-casing, `split`, `strip`, decimal numerals |
| `Regex.dfy` | the quantity pattern as a regular expression with its meaning, and the leftmost greedy search |
| `Orders.dfy` | order statuses, `Order.advance`, the insertion-ordered store |
| `OrderParser.dfy` | `parse_order_text` |
| `ParserRoundTrip.dfy` | printing order lines and parsing them back |
| `SerialRuns.dfy` | executors that never overlap: stack refinement, draining |
| `Replies.dfy`, `Executors.dfy` | the executors as methods on the shared store, and their replies |
| `ChatTurns.dfy` | the terminal chat with its failure branches |
| `EndToEnd.dfy` | from the typed words to the delivered order |
| `Interleaving.dfy` | at most one run per agent in flight, `advance` split into three steps, the scan into one step per order |
| `FreeRuns.dfy` | any number of overlapping runs, `advance` atomic |
| `StepClassifier.dfy` | `detectStep`, the page's effect, agreement with the backend's replies |
| `TaskClient.dfy` | `extract_reply_text`, `poll_task` |
| `FenceExtraction.dfy` | the fenced JSON block in a chat completion |

## What the proofs found

Where a natural expectation is false of the code, the code is kept, a concrete input shows the failure, and the exact condition is
proved.

- **A capitalised `Nome:` raises.** The marker is looked for in the lower-cased text but the text is split with its own casing:
  the parser raises `IndexError` exactly when the marker occurs in some casing but nowhere in lower case.
- **Carne com queijo never comes alone.** Its phrase also contains "carne" and "queijo", so both are ordered as well; a cheese
  borda orders cheese pastéis too, as in the documented example "5 pastéis de palmito borda queijo". Printing and parsing give a list back exactly when its flavours are distinct and in table
  order, an order of carne com queijo comes with the same quantity of carne and some queijo, and a cheese borda comes with an
  order of queijo.
- **A name can change a quantity.** `past..s` reads across the comma behind the name: "nome: 2 past, s de carne" orders two. The
  items are those of the text without the name exactly when no row of the table takes over such a number; a name that does not
  end in "past", or a text that does not start with "s", is always safe.
- **The web page's orders lose the customer's name.** It sends "Novo pedido de X: P", which holds no name marker of its own: the
  order is Cliente's unless P holds one, or X makes one up together with the colon. Its items are those of P under the same condition.
- **"N pastel de S" in the singular is always one pastel.** The documented example "1 pastel de frango" works only because N is 1.
- **An order left at FILA stays there.** Every agent takes the newest order, so one missed call to Cozinha strands the order: no
  later turn of the chat serves it, whatever succeeds or fails (ids being fresh). A turn touches an older order exactly when Cozinha was not called
  and Preparo finds one at PREPARO, or when the turn's own order is not at ENTREGA in time and Entrega finds an older one there.
- **Overlapping runs can conclude an order alone.** Two Cozinha runs, or two Preparo runs, on one order carry it past the agents
  meant to follow. Once all runs are over, every advance was its commented transition exactly when no run had selected an order
  that an unfinished run still held. One run per agent, the rule the page's prompt states, is enough but not necessary.
- **A timeline can lose FILA, PREPARO and ENTREGA, and no other stage.** Between the status write and the timeline write of one
  agent another agent can move the order on; the late write is then filed under the later status. A stage is missing exactly when
  its own write came late and no other late write was filed under it. One order can lose all three.
- **The bar shows an order's stage only while nothing later was said.** It is the maximum over all messages: after a reply it
  shows the stage of the order acted on exactly when no earlier message is read as a later stage, so a second order in the same
  conversation looks delivered at once.
- **Idle replies are read as stages.** Entrega's is read as a delivery, because "entregar" starts with the keyword "entrega",
  Cozinha's as COZINHA, Preparo's as PEDIDO. Some order has really come so far exactly when one is concluded, when one is past
  PEDIDO, when there is one at all.
- **Text behind the closing fence matters.** The planner recovers the JSON body unless that text starts with "`json" or "``json"
  (or the body itself holds a fence or ends in a backtick, with one exception stated in `Clean`).

## Model

| member | source | states |
|---|---|---|
| Strings.SplitJoin | backend/server/executors/fila_executor.py:28 | joining the pieces of a split with the separator gives the text back |
| Strings.SplitPieces | backend/server/executors/fila_executor.py:28 | no piece of a split holds the separator |
| Strings.ContainsAcross | backend/server/executors/fila_executor.py:40 | a word without the character c is found around a c exactly when it is found on one of the two sides |
| Strings.ParseOfDecimal | backend/server/executors/fila_executor.py:46 | reading a printed number gives the number back, for every natural number |
| Strings.ParseAppend | backend/server/executors/fila_executor.py:46 | digits further left count for more by a power of ten each |
| Strings.LowerLetters | backend/server/executors/fila_executor.py:26 | the 26 capitals become their small letters |
| Strings.OnlyLetters | backend/server/executors/fila_executor.py:26 | every other character stays as it is |
| Regex.ContinuesIff | backend/server/executors/fila_executor.py:43 | the backtrack-free test decides exactly the language of the pattern behind the digits, whose regular expression is written out with its own semantics |
| Regex.ContinuesForms | backend/server/executors/fila_executor.py:42-43 | what may follow the digits, as a cut of the text: spaces, then nothing, or x and spaces, or past, two characters, s, spaces, de, spaces, and then the flavour |
| Regex.SearchQuantity | backend/server/executors/fila_executor.py:43-44 | the search loop finds the leftmost start and for it the longest digits that match, and fails only when no position matches, for every text and phrase |
| Regex.CaptureIsLeftmostRun | backend/server/executors/fila_executor.py:44-46 | the capture is exactly the leftmost complete run of digits whose continuation matches, so quantities are whole numbers |
| Regex.AcrossStopIff | backend/server/executors/fila_executor.py:43 | the pattern reads across a comma or colon and the space behind it exactly when the text before ends in spaces and `past` and the text behind starts with `s de` and the phrase |
| Orders.AdvancedComplete | backend/models/order.py:51-57 | one advance moves one stage up to the last, keeps the timeline exactly the stages reached with times in order, and changes nothing else |
| Orders.Order.Advance | backend/models/order.py:51-57 | the mutable order after `advance` is the specified record, and the new status is returned |
| Orders.PutFresh | backend/models/order.py:70-74 | storing under a new id appends at the end of the listing |
| Orders.PutExisting | backend/models/order.py:70-74 | storing under a known id replaces that order in its place |
| Orders.OrderStore.CreateOrder | backend/models/order.py:70-74 | the new order is fresh, holds the id, name, items and time it was given, stands at PEDIDO with exactly that stage recorded, and the store is the old one with it put under its id |
| Orders.OrderStore.GetOrder | backend/models/order.py:77-78 | null exactly when no stored order has the id, otherwise the stored order with it |
| OrderParser.ParseOrderText | backend/server/executors/fila_executor.py:20-57 | the loop over the phrase table computes the specified name and items, or raises |
| OrderParser.RaisesIff | backend/server/executors/fila_executor.py:26-28 | the parser raises exactly when the name marker occurs after lower-casing but not before |
| OrderParser.CapitalisedNomeRaises | backend/server/executors/fila_executor.py:26-28 | "Nome: Eva, 2 queijo" is such a text |
| OrderParser.ItemsShape | backend/server/executors/fila_executor.py:39-55 | items are nonempty and follow the table; they are exactly the items of the rows named, all with one borda, or the single plain CARNE when none is named |
| OrderParser.BordaOfItems | backend/server/executors/fila_executor.py:47-51 | in every text that names a flavour all items have borda catupiry iff the text says catupiry, otherwise queijo iff it says "borda de queijo" or "borda queijo", and normal iff it says none of these |
| OrderParser.NameReaches | backend/server/executors/fila_executor.py:27-28 | the name is the stripped text from the first marker to the next comma, the next marker or the end |
| OrderParser.InEither | backend/server/executors/fila_executor.py:39-40 | a word without commas and colons, such as every flavour phrase, is found in two texts joined by a comma or colon exactly when it is found in one of them |
| OrderParser.JoinedFallback | backend/server/executors/fila_executor.py:54-55 | the fallback stands for a joined text exactly when neither part names a flavour |
| OrderParser.CarneComQueijoIsSplit | backend/server/executors/fila_executor.py:30-40 | every text that orders carne com queijo also yields a CARNE and a QUEIJO item, in this order |
| ParserRoundTrip.PrintHolds | backend/server/executors/fila_executor.py:40 | a row is found in a printed list exactly when a line mentions it or the borda names the cheese: nothing matches across lines |
| ParserRoundTrip.PrintCapture | backend/server/executors/fila_executor.py:43-46 | for a printed list of any length the search returns the printed quantity of the first line that begins with the phrase |
| ParserRoundTrip.RoundTripIff | backend/server/executors/fila_executor.py:20-57 | printing and parsing give a nonempty list of order lines back exactly when its flavours are distinct and in table order and it is faithful, for all quantities, the three readable forms, the three bordas and every spelling of them (with or without "com" and "de") |
| ParserRoundTrip.SimpleRoundTrip | backend/server/executors/fila_executor.py:20-57 | in particular every list without carne com queijo and without a cheese borda comes back |
| ParserRoundTrip.NameRoundTrip | backend/server/executors/fila_executor.py:26-57 | prefixing any text whatsoever with a name returns the name, and the items of the text exactly when no row is misread, for every name without comma, marker, outer spaces or flavour words |
| ParserRoundTrip.NotMisread | backend/server/executors/fila_executor.py:43-44 | a row can be misread only if the name ends in "past" and the text starts with an s |
| ParserRoundTrip.NameCanBeMisread | backend/server/executors/fila_executor.py:43-46 | "nome: 2 past, s de carne" is read differently from "s de carne" |
| ParserRoundTrip.NamedRoundTrip | backend/server/executors/fila_executor.py:20-57 | name and list together come back exactly when the list is canonical and faithful |
| ParserRoundTrip.FormRead | frontend/app/api/copilotkit/[...slug]/route.ts:130-134 | the web page's "Novo pedido de X: P" is read under the name, or raises, as P alone would, unless X makes up a marker with the colon; for X without flavour words the items are those of P exactly when no row is misread across the colon |
| ParserRoundTrip.FormRoundTrip | frontend/app/api/copilotkit/[...slug]/route.ts:130-134 | a printed list sent by the page comes back, for "Cliente" whatever X is, exactly when it is canonical and faithful |
| ParserRoundTrip.SingularPastelIsOne | backend/server/executors/fila_executor.py:42-46 | "N pastel de S" is read with quantity one for every N |
| SerialRuns.AgentRunMoves | backend/server/executors/cozinha_executor.py:27-51 | between runs no order rests at COZINHA, and a run moves exactly the newest order at its source to its target and no other |
| SerialRuns.FilaStores | backend/server/executors/fila_executor.py:72-85 | under a new id the order stored last is at FILA and holds exactly the id, name, items and times it was made of |
| SerialRuns.RefinesStack | backend/server/executors/cozinha_executor.py:27-35 | along every serial schedule with fresh ids the store refines a stack that Fila pushes and Cozinha pops and two pools from which the order created last is taken |
| SerialRuns.WorkRemaining | backend/server/executors/preparo_executor.py:27-47 | a productive run lowers the steps left by exactly 2, 1, 1, and a run is idle exactly when nothing stands at its source |
| SerialRuns.RunsCount | backend/server/executors/preparo_executor.py:27-47 | any number of runs of an agent move as many orders as there were runs or orders at the source, whichever is less, and change no other stage |
| SerialRuns.RunsEmpty | backend/server/executors/entrega_executor.py:22-32 | at least as many runs as there are orders at the source move exactly those orders to the target and change no other |
| SerialRuns.DrainConcludes | backend/server/executors/entrega_executor.py:22-32 | Cozinha, Preparo, Entrega run as often as there are orders to move conclude every order of any settled store |
| SerialRuns.OrdersDrain | backend/server/executors/fila_executor.py:72-85 | after n Fila runs from the empty store as many orders are concluded as each of the other agents had runs for; all n exactly when each ran at least n times |
| Executors.SelectNewest | backend/server/executors/cozinha_executor.py:27-35 | the filtering loop returns the newest eligible order, or null exactly when there is none |
| Executors.FirstTextIs | backend/server/executors/fila_executor.py:66-70 | the customer's text is that of the first part with a nonempty one, and empty when there is none |
| Executors.FilaExecute | backend/server/executors/fila_executor.py:64-87 | stores the parsed order at FILA, counts it, answers with its position; a parser error leaves store and counter alone |
| Executors.CozinhaStart | backend/server/executors/cozinha_executor.py:27-36 | before the sleep: the newest eligible order is held and advanced once |
| Executors.CozinhaExecute | backend/server/executors/cozinha_executor.py:22-53 | an uninterrupted run is two advances of that order, with the reply naming it |
| Executors.PreparoExecute | backend/server/executors/preparo_executor.py:22-49 | an uninterrupted run advances the newest order at PREPARO |
| Executors.EntregaExecute | backend/server/executors/entrega_executor.py:21-48 | a run concludes the newest order at ENTREGA |
| ChatTurns.TurnConcludesItsOrder | backend/chat.py:53-114 | from any store, a turn in which everything ran appends exactly its own order, with the items and name the parser read, concluded with all six stages recorded at their times, and touches no other |
| ChatTurns.TurnReaches | backend/chat.py:53-114 | whatever failed, the turn's order ends exactly where the calls that ran took it; it concludes iff all ran and Preparo finished before Entrega was called |
| ChatTurns.OlderAloneIff | backend/chat.py:53-114 | whatever failed, a turn leaves all older orders alone exactly when neither Preparo without a Cozinha call finds one at PREPARO nor Entrega, the own order not being at ENTREGA in time, finds one there |
| ChatTurns.LeftBehindStays | backend/chat.py:53-114 | an older order at FILA is never changed by any later turns, however they succeed or fail |
| ChatTurns.OrderLeftBehind | backend/chat.py:70-81 | one missed call to Cozinha leaves an order that waits at FILA through every continuation |
| ChatTurns.TurnsOnlyAppend | backend/chat.py:40-114 | n failure-free turns append n concluded orders in order and never serve an older one |
| ChatTurns.Converse | backend/chat.py:40-116 | the loop over the customer's lines leaves the store that the served turns produce, skipping blank lines and stopping at the first quit word |
| ChatTurns.QuitStops | backend/chat.py:47-49 | from a line that says sair, exit or quit in any casing on, nothing is served |
| ChatTurns.NoQuitServesAll | backend/chat.py:41-51 | without such a line the turns served are all lines that are not blank, in order, each stripped |
| EndToEnd.TypedOrderIsDelivered | backend/chat.py:53-114 | a printed order typed into a failure-free turn is delivered for "Cliente" as one concluded order, whose items are those printed exactly when the list is canonical and faithful |
| EndToEnd.NamedOrderIsDelivered | backend/chat.py:53-114 | with a name in front it is delivered under that name, with the same items under the same condition |
| Interleaving.AlwaysSafe | backend/server/executors/cozinha_executor.py:27-51 | in every interleaving a run's order is where its next step expects it, an order is at COZINHA only in Cozinha's hands and at PEDIDO only in Fila's |
| Interleaving.EveryWriteIsCommented | backend/server/executors/cozinha_executor.py:36-51 | in every interleaving, even with `advance` split, the writes on each order are exactly the commented transitions up to its status, once each, in order, by their own agents |
| Interleaving.StatusNeverDecreases | backend/models/order.py:52-57 | no step lowers a status or changes an order's id or items |
| Interleaving.TimelineSafe | backend/models/order.py:52-57 | in every interleaving no unreached stage is recorded, and a reached one is recorded exactly when its own write is over and was not late, or a late write was filed under it |
| Interleaving.MissingIff | backend/models/order.py:52-57 | a reached stage whose write is over is missing exactly when that write came late and no late write was filed under it; only FILA, PREPARO and ENTREGA can be |
| Interleaving.TimelineCanLoseThree | backend/models/order.py:55-56 | a schedule after which a concluded order has recorded only PEDIDO, COZINHA and CONCLUIDO |
| Interleaving.LateWriteCovers | backend/models/order.py:55-56 | a schedule in which Fila's late write records PREPARO, whose own write is late too |
| Interleaving.FlowConserved | backend/server/executors/cozinha_executor.py:27-51 | in every interleaving the orders at a stage are those that the agents owning the transition into it brought there less those that the owner of the next transition took on; the stages together hold every order |
| Interleaving.PositionsConsecutive | backend/server/executors/fila_executor.py:74-75 | in every interleaving the n-th order stored gets queue position n |
| Interleaving.ListedInOrder | backend/models/order.py:81-82 | with fresh ids the listing is every order in creation order, and between Fila runs its length is the queue counter |
| Interleaving.UninterruptedAdvance | backend/models/order.py:51-57 | three uninterrupted steps from reading the index make the atomic advance and leave the run where it goes on |
| Interleaving.UninterruptedScanIsNewest | backend/server/executors/preparo_executor.py:27-36 | an uninterrupted scan finds what the serial model calls the newest order |
| Interleaving.UninterruptedRun | backend/server/executors/cozinha_executor.py:27-51 | from idle to idle, an uninterrupted run of Cozinha, Preparo or Entrega makes exactly the run of the serial model |
| Interleaving.UninterruptedFila | backend/server/executors/fila_executor.py:72-85 | an uninterrupted Fila run under a new id is the Fila run of the serial model |
| Interleaving.ScanChooses | backend/server/executors/cozinha_executor.py:27-35 | however a scan is interrupted, it ends without an order only if none stood at the source when it began; otherwise the agent goes on with one that is at its source, was stored before, and is at least as new as every order that stood there when the scan began |
| FreeRuns.CountedAlways | backend/models/order.py:51-57 | however runs overlap, an order has moved one stage per advance made on it up to CONCLUIDO, and its timeline is exactly the stages reached at times that never go back |
| FreeRuns.ConcludedAbsorbs | backend/models/order.py:54-57 | a concluded order never changes again |
| FreeRuns.CommentedIff | backend/server/executors/cozinha_executor.py:28-51 | in every schedule in which no run selects an order an unfinished run holds, every advance is its commented transition; when all runs are over, only in those |
| FreeRuns.OneEachExclusive | frontend/components/Chat.tsx:99 | with at most one unfinished run of each agent, no run selects an order that is held |
| FreeRuns.ClashIsOverSleep | backend/server/executors/cozinha_executor.py:35-51 | with one event loop per agent, the first run to select a held order is a Cozinha run taking an order left at COZINHA by a sleeping one, or a Preparo run taking an order a sleeping one took at PREPARO |
| FreeRuns.OverlapOnTwoOrders | backend/server/executors/cozinha_executor.py:35-51 | in a schedule that event loops allow, two Cozinha runs sleep at once on two different orders, and both orders reach PREPARO with every advance as commented |
| FreeRuns.TwoCozinhaRunsConclude | backend/server/executors/cozinha_executor.py:28-51 | in a schedule that event loops allow, two overlapping Cozinha runs conclude an order although Preparo and Entrega never ran |
| FreeRuns.TwoPreparoRunsConclude | backend/server/executors/preparo_executor.py:28-47 | in a schedule that event loops allow, two overlapping Preparo runs conclude an order although Entrega never ran |
| StepClassifier.DetectStep | frontend/components/Chat.tsx:24-33 | the keyword loop computes the specified step |
| StepClassifier.StepBelowIff | frontend/components/Chat.tsx:24-33 | the step stays below k exactly when no keyword of step k or later occurs |
| StepClassifier.StepByWords | frontend/components/Chat.tsx:10-33 | the step of a text by the words it holds in any casing, each of the eleven keywords written out |
| StepClassifier.StepOfJoined | frontend/components/Chat.tsx:60-74 | the largest step over any list of texts is the step of the texts joined by spaces |
| StepClassifier.MoreNeverLowers | frontend/components/Chat.tsx:60-78 | appending messages never lowers the largest step |
| StepClassifier.StepTracker.OnMessages | frontend/components/Chat.tsx:56-79 | the effect shows `Bar`, the step of the whole conversation or the old one if no keyword occurs, when the number of messages changed, and otherwise keeps the old one |
| StepClassifier.BarIsLargestSaid | frontend/components/Chat.tsx:60-78 | over string messages and the parts typed "text", the bar shows the largest step of any text said, and stays when no text is of a step; other parts and other contents count for nothing |
| Replies.FilaReplyTells | backend/server/executors/fila_executor.py:77-83 | Fila's reply tells the id, every item, the queue position and three minutes for each item |
| Replies.ItemTextReads | backend/models/order.py:60-62 | how an item of each flavour reads, for every quantity |
| Replies.ItemTextTells | backend/models/order.py:60-62 | the text of an item determines its quantity, flavour and borda |
| Replies.SummaryTellsStatus | backend/models/order.py:63 | the summary ends with the word of the order's status |
| Replies.LaterRepliesTell | backend/server/executors/entrega_executor.py:34-44 | the replies of Cozinha, Preparo and Entrega name the order, and Entrega's the customer |
| Replies.CozinhaSteps | backend/server/executors/cozinha_executor.py:38-52 | Cozinha's reply lists its six steps |
| Replies.PreparoSteps | backend/server/executors/preparo_executor.py:38-48 | Preparo's reply lists its three steps |
| StepClassifier.FilaReplyStep | backend/server/executors/fila_executor.py:77-83 | Fila's reply is read as step 1 for every item list, quantity, position and hexadecimal id |
| StepClassifier.CozinhaReplyStep | backend/server/executors/cozinha_executor.py:38-52 | the reply of a Cozinha run that acted is read as step 3 |
| StepClassifier.EntregaReplyStep | backend/server/executors/entrega_executor.py:34-44 | the reply of an Entrega run that acted is read as step 4, whatever the customer is called |
| StepClassifier.ReplyAgreesWithStatus | frontend/components/Chat.tsx:10-33 | the step read from the reply of each agent that acted is the stage its order has reached |
| StepClassifier.BarFollowsRun | frontend/components/Chat.tsx:56-79 | after the effect has run on a conversation extended by the reply of a serial run, the bar shows the stage of the order it acted on exactly when no earlier message is read as a later stage |
| StepClassifier.BarFollowsFila | frontend/components/Chat.tsx:56-79 | the same for a new order and Fila's reply |
| StepClassifier.SecondOrderLooksDelivered | frontend/components/Chat.tsx:60-78 | after a delivery, the bar shows the last step on the reply to any new order in the same conversation |
| StepClassifier.IdleEntregaReadAsDelivered | backend/server/executors/entrega_executor.py:25-29 | the idle reply of Entrega is read as the last step |
| StepClassifier.IdleReadAsReachedIff | backend/server/executors/cozinha_executor.py:30-33 | on any store on which an agent is idle, some order has come as far as its idle reply is read exactly if one is past PEDIDO (Cozinha), if there is one (Preparo), if one is concluded (Entrega) |
| TaskClient.ExtractReplyText | backend/client/sdk_client.py:42-63 | the first nonempty text of artifacts, status message, message, parts, or the clipped rendering when there is none |
| TaskClient.ArtifactFirst | backend/client/sdk_client.py:44-47 | the reply is the first part with a text of the task's first artifact that has one |
| TaskClient.StatusSecond | backend/client/sdk_client.py:48-54 | without such an artifact it is the first text of the task's status message |
| TaskClient.MessageThird | backend/client/sdk_client.py:55-59 | without either it is the first text of the result's own message |
| TaskClient.PartsFourth | backend/client/sdk_client.py:60-62 | then the first text of the result's own parts |
| TaskClient.RenderingLast | backend/client/sdk_client.py:63 | with no text anywhere it is the first 200 characters of the rendered result |
| TaskClient.WrappingKeepsText | backend/client/sdk_client.py:43 | a task with some artifact or status text gives the same reply bare or wrapped |
| TaskClient.DistinctMembers | backend/client/sdk_client.py:121-125 | the reported texts are exactly the texts seen, each once |
| TaskClient.DistinctOrder | backend/client/sdk_client.py:121-125 | what was reported after fewer responses is a prefix of what is reported after more |
| TaskClient.PollTask | backend/client/sdk_client.py:94-131 | at most `max_polls` requests, stopping at the first terminal response with its ending; with a callback each distinct nonempty text once in first-seen order up to that response |
| TaskClient.EndsAt | backend/client/sdk_client.py:103-131 | after k responses that go on polling ends at the next by what it is: an error, a malformed status, COMPLETED before CANCELED or FAILED, or a timeout when no poll is left |
| TaskClient.ReportedIff | backend/client/sdk_client.py:117-125 | a text is reported exactly when it is nonempty and some polled response shows it in its status message |
| TaskClient.ReturnsIff | backend/client/sdk_client.py:126-131 | polling returns exactly when the first terminal response comes within `max_polls` and says COMPLETED |
| FenceExtraction.ExtractsBodyIff | backend/client/llm_planner.py:67-70 | behind any text without a JSON fence the trimmed body is recovered exactly when body and rest are clean |
| FenceExtraction.TickJsonDefeats | backend/client/llm_planner.py:67-70 | a rest of "`json" defeats even a plain body |
| FenceExtraction.PlainFenceIff | backend/client/llm_planner.py:71-73 | without a JSON fence, behind the first plain fence the trimmed body is recovered exactly when it closes at its end |
| FenceExtraction.UnclosedFence | backend/client/llm_planner.py:67-73 | a fence that is never closed, JSON or plain, gives everything behind it, trimmed |
| FenceExtraction.NothingIff | backend/client/llm_planner.py:67-75 | nothing is extracted exactly when the completion holds no fence |

## Assumptions

- Strings are sequences of characters; lower-casing, digits and whitespace are the ASCII ones, other characters are opaque.
- A timeline is keyed by status rather than by the status's string; the six strings are distinct.
- Time is a natural number read from a clock; the two clock reads of a new order count as one. Ids are inputs; where a statement
  needs them new, it says so.
- In the chat turns an executor that was called finishes before the next call, except Preparo, which may also finish after the
  call of Entrega; the SDK's treatment of `return_immediately` is not part of this model.
- In `Interleaving.dfy` one step is one read or write of an order's status, of the dict, or of the counter. Three steps do more: a
  timeline write also reads the status it is filed under, a count also records the position it gives out, and a new order is
  built and stored at once.
- `FreeRuns.dfy` lets any run move at any time. The program allows less: an agent's runs share one event loop and let each other in
  only while they sleep. What holds of all schedules holds of those; the schedules that show a failure or an overlap meet the
  restriction, `OneLoopEach`.

## Left out

- HTTP, JSON-RPC transport, agent servers and cards, environment variables, CORS: plumbing around code not in the repository.
- The OpenAI call and JSON decoding: foreign calls; only the string cutting around them is modelled.
- Unicode case mapping, non-ASCII digits and whitespace, and Python's limit on the length of integer literals.
- JSON values of the wrong type in a task (a list where a dict is expected), except where the client itself tests for a dict.
- `plan_deterministic`, `plan_order`, `get_task_id`, `_clean_api_key`: they only repackage results of modelled members.
- React components, styling, CopilotKit wiring, progress-bar percentages.
- Agent discovery and the printed texts of the terminal chat.
- The interleaved regimes are stated on values with references into a list of orders, so they say nothing about the Python heap
  beyond order identity; the methods in `Executors.dfy` cover update in place.
