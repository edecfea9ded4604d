/**
 The protocol client: picking the reply text out of a result, and polling a task until it ends.
 */
module TaskClient {
  import opened Strings

  /* ---------- JSON results, as far as the client looks into them ---------- */

  /** A part; `text` is None when the key is missing. Anything that is not a dict is skipped. */
  datatype Part = NotADict | Dict(text: Option<string>)

  /** The value under "message": missing, not a dict, or a dict with its parts. */
  datatype Message = NoMessage | OtherMessage | Message(parts: seq<Part>)

  /** The value under "status": missing, not a dict, or a dict with its state and message. */
  datatype Status = NoStatus | OtherStatus | Status(state: string, message: Message)

  datatype Fields = Fields(artifacts: seq<seq<Part>>, status: Status, message: Message, parts: seq<Part>)

  /**
   A result with its `str()`: the task's fields bare, or a task wrapped under "task" beside the result's own fields.
   */
  datatype Result = Bare(fields: Fields, repr: string) | Wrapped(task: Fields, fields: Fields, repr: string)

  /** `result.get("task", result)` */
  function TaskOf(r: Result): Fields {
    if r.Wrapped? then r.task else r.fields
  }

  /** The nonempty texts of some parts, in order. */
  function TextsIn(parts: seq<Part>): (ts: seq<string>)
    ensures forall t | t in ts :: t != ""
  {
    if parts == [] then []
    else
      var rest := TextsIn(parts[1..]);
      if parts[0].Dict? && parts[0].text.Some? && parts[0].text.value != "" then [parts[0].text.value] + rest else rest
  }

  function TextsInAll(artifacts: seq<seq<Part>>): seq<string> {
    if artifacts == [] then [] else TextsIn(artifacts[0]) + TextsInAll(artifacts[1..])
  }

  function MessageTexts(m: Message): seq<string> {
    if m.Message? then TextsIn(m.parts) else []
  }

  function StatusTexts(s: Status): seq<string> {
    if s.Status? then MessageTexts(s.message) else []
  }

  /** All candidate texts, in the order in which the client looks for them. */
  function Candidates(r: Result): seq<string> {
    TextsInAll(TaskOf(r).artifacts) + StatusTexts(TaskOf(r).status)
    + MessageTexts(r.fields.message) + TextsIn(r.fields.parts)
  }

  function Clip(s: string): string {
    if |s| <= 200 then s else s[..200]
  }

  function ReplyText(r: Result): string {
    if Candidates(r) == [] then Clip(r.repr) else Candidates(r)[0]
  }

  method FirstTextIn(parts: seq<Part>) returns (text: Option<string>)
    ensures text == if TextsIn(parts) == [] then None else Some(TextsIn(parts)[0])
  {
    for i := 0 to |parts|
      invariant TextsIn(parts) == TextsIn(parts[i..])
    {
      assert parts[i..][1..] == parts[i + 1..];
      if parts[i].Dict? && parts[i].text.Some? && parts[i].text.value != "" {
        return parts[i].text;
      }
    }
    return None;
  }

  method FirstArtifactText(artifacts: seq<seq<Part>>) returns (text: Option<string>)
    ensures text == if TextsInAll(artifacts) == [] then None else Some(TextsInAll(artifacts)[0])
  {
    for i := 0 to |artifacts|
      invariant TextsInAll(artifacts) == TextsInAll(artifacts[i..])
    {
      assert artifacts[i..][1..] == artifacts[i + 1..];
      text := FirstTextIn(artifacts[i]);
      if text.Some? {
        return;
      }
      assert [] + TextsInAll(artifacts[i + 1..]) == TextsInAll(artifacts[i + 1..]);
    }
    return None;
  }

  /** `extract_reply_text`: the first nonempty text of the artifacts, the status message, the message, the parts. */
  method ExtractReplyText(r: Result) returns (text: string)
    ensures text == ReplyText(r)
  {
    var task := TaskOf(r);
    var found := FirstArtifactText(task.artifacts);
    if found.Some? {
      return found.value;
    }
    if task.status.Status? && task.status.message.Message? {
      found := FirstTextIn(task.status.message.parts);
      if found.Some? {
        return found.value;
      }
    }
    if r.fields.message.Message? {
      found := FirstTextIn(r.fields.message.parts);
      if found.Some? {
        return found.value;
      }
    }
    found := FirstTextIn(r.fields.parts);
    if found.Some? {
      return found.value;
    }
    return Clip(r.repr);
  }

  /* ---------- which text that is, by position ---------- */

  /** `isinstance(part, dict) and part.get("text")` */
  predicate HasText(part: Part) {
    part.Dict? && part.text.Some? && part.text.value != ""
  }

  predicate Silent(parts: seq<Part>) {
    forall i | 0 <= i < |parts| :: !HasText(parts[i])
  }

  predicate FirstAt(parts: seq<Part>, i: nat) {
    i < |parts| && HasText(parts[i]) && Silent(parts[..i])
  }

  lemma {:induction false} SilentTexts(parts: seq<Part>)
    ensures TextsIn(parts) == [] <==> Silent(parts)
  {
    if parts != [] {
      SilentTexts(parts[1..]);
      assert forall i | 0 < i < |parts| :: parts[i] == parts[1..][i - 1];
    }
  }

  lemma {:induction false} FirstAtTexts(parts: seq<Part>, i: nat)
    requires FirstAt(parts, i)
    ensures TextsIn(parts) != [] && TextsIn(parts)[0] == parts[i].text.value
  {
    if i > 0 {
      assert parts[1..][..i - 1] == parts[..i][1..];
      assert !HasText(parts[..i][0]);
      FirstAtTexts(parts[1..], i - 1);
    }
  }

  predicate SilentAll(artifacts: seq<seq<Part>>) {
    forall i | 0 <= i < |artifacts| :: Silent(artifacts[i])
  }

  lemma {:induction false} SilentAllTexts(artifacts: seq<seq<Part>>)
    ensures TextsInAll(artifacts) == [] <==> SilentAll(artifacts)
  {
    if artifacts != [] {
      hide Silent;
      SilentTexts(artifacts[0]);
      SilentAllTexts(artifacts[1..]);
      assert forall i | 0 < i < |artifacts| :: artifacts[i] == artifacts[1..][i - 1];
    }
  }

  lemma {:induction false} FirstAtAllTexts(artifacts: seq<seq<Part>>, k: nat, i: nat)
    requires k < |artifacts| && SilentAll(artifacts[..k]) && FirstAt(artifacts[k], i)
    ensures TextsInAll(artifacts) != [] && TextsInAll(artifacts)[0] == artifacts[k][i].text.value
  {
    hide Silent, FirstAt;
    if k == 0 {
      FirstAtTexts(artifacts[0], i);
    } else {
      assert artifacts[1..][..k - 1] == artifacts[..k][1..];
      assert Silent(artifacts[..k][0]);
      SilentTexts(artifacts[0]);
      FirstAtAllTexts(artifacts[1..], k - 1, i);
    }
  }

  predicate SilentMessage(m: Message) {
    m.Message? ==> Silent(m.parts)
  }

  predicate SilentStatus(s: Status) {
    s.Status? ==> SilentMessage(s.message)
  }

  lemma SilentSources(task: Fields, outer: Fields)
    ensures TextsInAll(task.artifacts) == [] <==> SilentAll(task.artifacts)
    ensures StatusTexts(task.status) == [] <==> SilentStatus(task.status)
    ensures MessageTexts(outer.message) == [] <==> SilentMessage(outer.message)
    ensures TextsIn(outer.parts) == [] <==> Silent(outer.parts)
  {
    SilentAllTexts(task.artifacts);
    if task.status.Status? && task.status.message.Message? { SilentTexts(task.status.message.parts); }
    if outer.message.Message? { SilentTexts(outer.message.parts); }
    SilentTexts(outer.parts);
  }

  /** `task` is what the client takes for the task: the one under "task", or else the result's own fields. */
  predicate IsTask(r: Result, task: Fields) {
    match r
    case Bare(fields, _) => task == fields
    case Wrapped(inner, _, _) => task == inner
  }

  /** The task's artifacts come first: the first part with a text of the first artifact that has one. */
  lemma ArtifactFirst(r: Result, task: Fields, k: nat, i: nat)
    requires IsTask(r, task) && k < |task.artifacts|
    requires SilentAll(task.artifacts[..k]) && FirstAt(task.artifacts[k], i)
    ensures ReplyText(r) == task.artifacts[k][i].text.value
  {
    FirstAtAllTexts(task.artifacts, k, i);
  }

  /** Then the message of the task's status. */
  lemma StatusSecond(r: Result, task: Fields, i: nat)
    requires IsTask(r, task) && SilentAll(task.artifacts)
    requires task.status.Status? && task.status.message.Message? && FirstAt(task.status.message.parts, i)
    ensures ReplyText(r) == task.status.message.parts[i].text.value
  {
    SilentSources(task, r.fields);
    FirstAtTexts(task.status.message.parts, i);
  }

  /** Then the result's own message. */
  lemma MessageThird(r: Result, task: Fields, i: nat)
    requires IsTask(r, task) && SilentAll(task.artifacts) && SilentStatus(task.status)
    requires r.fields.message.Message? && FirstAt(r.fields.message.parts, i)
    ensures ReplyText(r) == r.fields.message.parts[i].text.value
  {
    SilentSources(task, r.fields);
    FirstAtTexts(r.fields.message.parts, i);
  }

  /** Then the result's own parts. */
  lemma PartsFourth(r: Result, task: Fields, i: nat)
    requires IsTask(r, task)
    requires SilentAll(task.artifacts) && SilentStatus(task.status) && SilentMessage(r.fields.message)
    requires FirstAt(r.fields.parts, i)
    ensures ReplyText(r) == r.fields.parts[i].text.value
  {
    SilentSources(task, r.fields);
    FirstAtTexts(r.fields.parts, i);
  }

  /** With no text anywhere the reply is the first 200 characters of the result as a string. */
  lemma RenderingLast(r: Result, task: Fields)
    requires IsTask(r, task) && SilentAll(task.artifacts) && SilentStatus(task.status)
    requires SilentMessage(r.fields.message) && Silent(r.fields.parts)
    ensures |r.repr| <= 200 ==> ReplyText(r) == r.repr
    ensures |r.repr| > 200 ==> ReplyText(r) == r.repr[..200]
  {
    SilentSources(task, r.fields);
  }

  /** A task that has some artifact or status text gives the same text bare or wrapped, whatever surrounds it. */
  lemma WrappingKeepsText(task: Fields, repr: string, outer: Fields, repr': string)
    requires TextsInAll(task.artifacts) + StatusTexts(task.status) != []
    ensures ReplyText(Bare(task, repr)) == ReplyText(Wrapped(task, outer, repr'))
    ensures ReplyText(Bare(task, repr)) == (TextsInAll(task.artifacts) + StatusTexts(task.status))[0]
  {
  }

  /* ---------- polling ---------- */

  /** One poll: a JSON-RPC error, or a result. */
  datatype Response = RpcError | Polled(result: Result)

  datatype Outcome =
    | Returned(text: string)
    | TaskFailed(text: string)
    | PollError
    | BadStatus
    | TimedOut

  function StateOf(r: Result): string {
    match TaskOf(r).status
    case Status(state, _) => state
    case _ => ""
  }

  predicate Completed(r: Result) {
    Contains(StateOf(r), "COMPLETED")
  }

  predicate Failed(r: Result) {
    Contains(StateOf(r), "CANCELED") || Contains(StateOf(r), "FAILED")
  }

  /** Polling stops at this response. */
  predicate Terminal(p: Response) {
    p.RpcError? || TaskOf(p.result).status.OtherStatus? || Completed(p.result) || Failed(p.result)
  }

  function Ending(p: Response): Outcome
    requires Terminal(p)
  {
    match p
    case RpcError => PollError
    case Polled(r) =>
      if TaskOf(r).status.OtherStatus? then BadStatus
      else if Completed(r) then Returned(ReplyText(r))
      else TaskFailed(ReplyText(r))
  }

  /** The first terminal response among the first `n`, if any. */
  function FirstTerminal(responses: nat -> Response, n: nat): (k: Option<nat>)
    ensures k.Some? ==>
      k.value < n && Terminal(responses(k.value)) && forall i | 0 <= i < k.value :: !Terminal(responses(i))
    ensures k.None? ==> forall i | 0 <= i < n :: !Terminal(responses(i))
  {
    if n == 0 then None
    else
      match FirstTerminal(responses, n - 1)
      case Some(k) => Some(k)
      case None => if Terminal(responses(n - 1)) then Some(n - 1) else None
  }

  /** How many responses polling uses, and how it ends. */
  function PollsUsed(responses: nat -> Response, maxPolls: nat): nat {
    match FirstTerminal(responses, maxPolls)
    case None => maxPolls
    case Some(k) => k + 1
  }

  function PollOutcome(responses: nat -> Response, maxPolls: nat): Outcome {
    match FirstTerminal(responses, maxPolls)
    case None => TimedOut
    case Some(k) => Ending(responses(k))
  }

  lemma FirstTerminalStays(responses: nat -> Response, k: nat, n: nat)
    requires k < n && FirstTerminal(responses, k) == None && Terminal(responses(k))
    ensures FirstTerminal(responses, n) == Some(k)
  {
  }

  /**
   Polling returns normally exactly when the first terminal response comes in time, is well formed and says COMPLETED.
   */
  lemma ReturnsIff(responses: nat -> Response, maxPolls: nat)
    ensures PollOutcome(responses, maxPolls).Returned? <==>
      exists k: nat | k < maxPolls ::
        && (forall i | 0 <= i < k :: !Terminal(responses(i)))
        && responses(k).Polled? && !TaskOf(responses(k).result).status.OtherStatus? && Completed(responses(k).result)
  {
  }

  /** The response is a result whose task has no status, or one that names none of the three final states. */
  predicate GoesOn(p: Response, task: Fields) {
    && p.Polled? && IsTask(p.result, task)
    && match task.status {
      case NoStatus => true
      case OtherStatus => false
      case Status(state, _) =>
        !Contains(state, "COMPLETED") && !Contains(state, "CANCELED") && !Contains(state, "FAILED")
    }
  }

  lemma GoesOnIff(p: Response)
    ensures Terminal(p) <==> p.RpcError? || !GoesOn(p, TaskOf(p.result))
  {
    NothingInNothing("COMPLETED");
    NothingInNothing("CANCELED");
    NothingInNothing("FAILED");
    hide Contains;
  }

  lemma NothingInNothing(w: string)
    requires w != ""
    ensures !Contains("", w)
  {
    NotContainsIfMissing("", w, 0);
  }

  lemma {:induction false} FirstTerminalIs(responses: nat -> Response, k: nat, n: nat)
    requires k <= n && forall i | 0 <= i < k :: !Terminal(responses(i))
    requires k < n ==> Terminal(responses(k))
    ensures FirstTerminal(responses, n) == if k < n then Some(k) else None
  {
    hide Terminal;
    if k < n && k < n - 1 { FirstTerminalIs(responses, k, n - 1); }
  }

  /**
   How polling ends, in the words of the states: after the first `k` responses that go on, at the next one by what it
   says, COMPLETED before the two failures; or with a timeout when there is no poll left.
   */
  lemma EndsAt(responses: nat -> Response, tasks: seq<Fields>, k: nat, maxPolls: nat)
    requires k <= |tasks| && k <= maxPolls && forall i | 0 <= i < k :: GoesOn(responses(i), tasks[i])
    ensures k == maxPolls ==> PollOutcome(responses, maxPolls) == TimedOut && PollsUsed(responses, maxPolls) == maxPolls
    ensures k < maxPolls && responses(k).RpcError? ==>
      PollOutcome(responses, maxPolls) == PollError && PollsUsed(responses, maxPolls) == k + 1
    ensures k < maxPolls && k < |tasks| && responses(k).Polled? && IsTask(responses(k).result, tasks[k]) ==>
      var o, r := PollOutcome(responses, maxPolls), responses(k).result;
      && (!GoesOn(responses(k), tasks[k]) ==> PollsUsed(responses, maxPolls) == k + 1)
      && (tasks[k].status.OtherStatus? ==> o == BadStatus)
      && (tasks[k].status.Status? && Contains(tasks[k].status.state, "COMPLETED") ==> o == Returned(ReplyText(r)))
      && (tasks[k].status.Status? && !Contains(tasks[k].status.state, "COMPLETED")
          && (Contains(tasks[k].status.state, "CANCELED") || Contains(tasks[k].status.state, "FAILED"))
          ==> o == TaskFailed(ReplyText(r)))
  {
    hide Contains, ReplyText;
    forall i | 0 <= i < k
      ensures !Terminal(responses(i))
    {
      GoesOnIff(responses(i));
    }
    if k == maxPolls {
      FirstTerminalIs(responses, k, maxPolls);
    } else {
      GoesOnIff(responses(k));
      if Terminal(responses(k)) { FirstTerminalIs(responses, k, maxPolls); }
    }
  }

  /** The progress texts one response carries. */
  function ProgressOf(p: Response): seq<string> {
    if p.RpcError? then [] else StatusTexts(TaskOf(p.result).status)
  }

  /** The progress texts of the first `n` responses. */
  function ProgressUpTo(responses: nat -> Response, n: nat): seq<string> {
    if n == 0 then [] else ProgressUpTo(responses, n - 1) + ProgressOf(responses(n - 1))
  }

  /** The response's status message has a part with this text. */
  ghost predicate Shows(p: Response, task: Fields, t: string) {
    && t != "" && p.Polled? && IsTask(p.result, task) && task.status.Status? && task.status.message.Message?
    && exists i | 0 <= i < |task.status.message.parts| :: task.status.message.parts[i] == Dict(Some(t))
  }

  lemma {:induction false} TextsMembers(parts: seq<Part>, t: string)
    ensures t in TextsIn(parts) <==> t != "" && exists i | 0 <= i < |parts| :: parts[i] == Dict(Some(t))
  {
    if parts != [] {
      TextsMembers(parts[1..], t);
      assert forall i | 0 < i < |parts| :: parts[i] == parts[1..][i - 1];
      if i :| 0 <= i < |parts| && parts[i] == Dict(Some(t)) {
        assert i > 0 ==> parts[1..][i - 1] == Dict(Some(t));
      }
    }
  }

  lemma ProgressMembers(p: Response, t: string)
    ensures t in ProgressOf(p) <==> p.Polled? && Shows(p, TaskOf(p.result), t)
  {
    if p.Polled? && TaskOf(p.result).status.Status? && TaskOf(p.result).status.message.Message? {
      TextsMembers(TaskOf(p.result).status.message.parts, t);
    }
  }

  lemma ShownIn(p: Response, task: Fields, t: string)
    requires p.RpcError? || IsTask(p.result, task)
    ensures t in ProgressOf(p) <==> Shows(p, task, t)
  {
    ProgressMembers(p, t);
  }

  /** What is reported over the first `n` responses: the nonempty texts their status messages show, and nothing else. */
  lemma {:induction false} ReportedIff(responses: nat -> Response, tasks: seq<Fields>, n: nat, t: string)
    requires n <= |tasks| && forall i | 0 <= i < n :: responses(i).RpcError? || IsTask(responses(i).result, tasks[i])
    ensures t in Distinct(ProgressUpTo(responses, n)) <==> exists i | 0 <= i < n :: Shows(responses(i), tasks[i], t)
  {
    DistinctMembers(ProgressUpTo(responses, n));
    hide Distinct, Shows, IsTask, ProgressOf;
    if n > 0 {
      ReportedIff(responses, tasks, n - 1, t);
      DistinctMembers(ProgressUpTo(responses, n - 1));
      ShownIn(responses(n - 1), tasks[n - 1], t);
      OneMoreShown(responses, tasks, n, t);
    }
  }

  lemma OneMoreShown(responses: nat -> Response, tasks: seq<Fields>, n: nat, t: string)
    requires 0 < n <= |tasks|
    ensures (exists i | 0 <= i < n :: Shows(responses(i), tasks[i], t)) <==>
            (exists i | 0 <= i < n - 1 :: Shows(responses(i), tasks[i], t)) || Shows(responses(n - 1), tasks[n - 1], t)
  {
    hide Shows;
  }

  /** Each text once, in first-seen order. */
  function Distinct(ts: seq<string>): seq<string> {
    if ts == [] then []
    else
      var d, t := Distinct(ts[..|ts| - 1]), ts[|ts| - 1];
      if t in d then d else d + [t]
  }

  lemma DistinctAppend(ts: seq<string>, t: string)
    ensures Distinct(ts + [t]) == if t in Distinct(ts) then Distinct(ts) else Distinct(ts) + [t]
  {
  }

  lemma {:induction false} DistinctMembers(ts: seq<string>)
    ensures forall t :: t in Distinct(ts) <==> t in ts
    ensures forall i, j | 0 <= i < j < |Distinct(ts)| :: Distinct(ts)[i] != Distinct(ts)[j]
  {
    if ts != [] {
      DistinctMembers(ts[..|ts| - 1]);
      assert ts == ts[..|ts| - 1] + [ts[|ts| - 1]];
    }
  }

  /** Order of first sight: what is reported earlier was first seen earlier. */
  lemma {:induction false} DistinctOrder(ts: seq<string>, n: nat)
    requires n <= |ts|
    ensures Distinct(ts[..n]) <= Distinct(ts)
    decreases |ts| - n
  {
    if n < |ts| {
      assert ts[..n + 1] == ts[..n] + [ts[n]];
      DistinctAppend(ts[..n], ts[n]);
      DistinctOrder(ts, n + 1);
    } else {
      assert ts[..n] == ts;
    }
  }

  /** Adds the new texts of one response to what has been seen and reported. */
  method Report(texts: seq<string>, seen: set<string>, reported: seq<string>, ghost before: seq<string>)
    returns (seen': set<string>, reported': seq<string>)
    requires reported == Distinct(before) && forall t :: t in seen <==> t in reported
    ensures reported' == Distinct(before + texts) && forall t :: t in seen' <==> t in reported'
  {
    seen', reported' := seen, reported;
    assert before + [] == before;
    for i := 0 to |texts|
      invariant reported' == Distinct(before + texts[..i]) && forall t :: t in seen' <==> t in reported'
    {
      DistinctAppend(before + texts[..i], texts[i]);
      assert before + texts[..i + 1] == before + texts[..i] + [texts[i]];
      if texts[i] !in seen' {
        seen' := seen' + {texts[i]};
        reported' := reported' + [texts[i]];
      }
    }
    assert texts[..|texts|] == texts;
  }

  /**
   `poll_task`: poll at most `maxPolls` times and stop at the first terminal response; with a callback, report every
   distinct nonempty progress text once, in first-seen order, over the responses up to and including that one.
   */
  method PollTask(responses: nat -> Response, hasCallback: bool, maxPolls: nat)
    returns (outcome: Outcome, polls: nat, reported: seq<string>)
    ensures polls == PollsUsed(responses, maxPolls) <= maxPolls
    ensures outcome == PollOutcome(responses, maxPolls)
    ensures reported == if hasCallback then Distinct(ProgressUpTo(responses, polls)) else []
  {
    hide Contains, Completed, Failed, ReplyText, TaskOf, MessageTexts, StatusTexts, Terminal, Ending, FirstTerminal,
      PollOutcome, PollsUsed, ProgressOf, ProgressUpTo, Distinct;
    var seen: set<string> := {};
    reported := [];
    polls := 0;
    NothingYet(responses);
    while polls < maxPolls
      invariant polls <= maxPolls
      invariant FirstTerminal(responses, polls) == None
      invariant if hasCallback then reported == Distinct(ProgressUpTo(responses, polls)) else reported == []
      invariant hasCallback ==> forall t :: t in seen <==> t in reported
    {
      var response := responses(polls);
      ghost var before := ProgressUpTo(responses, polls);
      OnePoll(responses, polls, maxPolls);
      polls := polls + 1;
      if response.RpcError? {
        return PollError, polls, reported;
      }
      var r := response.result;
      var status := TaskOf(r).status;
      if status.OtherStatus? {
        assert before + [] == before;
        return BadStatus, polls, reported;
      }
      if hasCallback {
        seen, reported := Report(StatusTexts(status), seen, reported, before);
      }
      if Completed(r) {
        var text := ExtractReplyText(r);
        return Returned(text), polls, reported;
      }
      if Failed(r) {
        var text := ExtractReplyText(r);
        return TaskFailed(text), polls, reported;
      }
    }
    NoneAtLast(responses, maxPolls);
    outcome := TimedOut;
  }

  lemma NothingYet(responses: nat -> Response)
    ensures FirstTerminal(responses, 0) == None && Distinct(ProgressUpTo(responses, 0)) == []
  {
  }

  lemma NoneAtLast(responses: nat -> Response, maxPolls: nat)
    requires FirstTerminal(responses, maxPolls) == None
    ensures PollOutcome(responses, maxPolls) == TimedOut && PollsUsed(responses, maxPolls) == maxPolls
  {
  }

  /** What poll `k` shows and, if it is the last one, how it ends. */
  lemma OnePoll(responses: nat -> Response, k: nat, maxPolls: nat)
    requires k < maxPolls && FirstTerminal(responses, k) == None
    ensures responses(k).RpcError? ==>
      EndsWith(responses, k, maxPolls, PollError) && ProgressUpTo(responses, k + 1) == ProgressUpTo(responses, k)
    ensures responses(k).Polled? ==>
      var r := responses(k).result;
      var status := TaskOf(r).status;
      && ProgressUpTo(responses, k + 1) ==
         ProgressUpTo(responses, k) + (if status.OtherStatus? then [] else StatusTexts(status))
      && (status.OtherStatus? ==> EndsWith(responses, k, maxPolls, BadStatus))
      && (!status.OtherStatus? && Completed(r) ==> EndsWith(responses, k, maxPolls, Returned(ReplyText(r))))
      && (!status.OtherStatus? && !Completed(r) && Failed(r)
          ==> EndsWith(responses, k, maxPolls, TaskFailed(ReplyText(r))))
      && (!status.OtherStatus? && !Completed(r) && !Failed(r) ==> FirstTerminal(responses, k + 1) == None)
  {
    hide Completed, Failed, ReplyText, MessageTexts, TaskOf;
    if Terminal(responses(k)) {
      FirstTerminalStays(responses, k, maxPolls);
    }
    assert ProgressUpTo(responses, k) + [] == ProgressUpTo(responses, k);
  }

  predicate EndsWith(responses: nat -> Response, k: nat, maxPolls: nat, outcome: Outcome) {
    PollOutcome(responses, maxPolls) == outcome && PollsUsed(responses, maxPolls) == k + 1
  }
}
