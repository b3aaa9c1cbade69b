/**
 One turn of the app-server protocol: what a log of JSON-RPC messages means, stated on the log
 itself and not on the way the read loops walk through it (internal/appserver/client.go,
 internal/appserver/session.go).

 A message is given after JSON decoding: a string field that is missing or of another type is "",
 the printed form of an error message is given as text.
 */
module TurnModel {
  import opened Text

  datatype Item = Item(typ: string, text: string, file: string, path: string, filename: string, detail: string)

  datatype Usage = Usage(inputTokens: int, promptTokens: int, totalTokens: int, maxTokens: int, contextWindow: int)

  datatype Body =
    | ItemCompleted(item: Option<Item>)
    | TurnCompleted(turnId: string, usage: Option<Usage>)
    | AgentMessage(text: string)
    | TaskComplete(text: string)
    | ContextCompact
    | ErrorNote(note: Option<string>)
    | OtherMethod

  datatype Message = Message(
    approval: Option<string>,  // the request, when the method asks for an approval
    id: Option<int>,           // the JSON-RPC id, when it is a number
    error: Option<string>,     // the printed error message, when there is an error object
    resultTurnId: string,
    body: Body)

  datatype Event =
    | ThreadStarted(threadId: string)
    | ApprovalRequest(threadId: string, turnId: string, approval: string)
    | Failure(threadId: string, turnId: string, error: string)
    | TurnStarted(threadId: string, turnId: string)
    | ItemDone(threadId: string, turnId: string, typ: string, detail: string)
    | TurnDone(threadId: string, turnId: string, message: string)
    | AssistantText(threadId: string, turnId: string, message: string, delta: string)
    | ContextUsage(threadId: string, used: int, max: int)
    | Compacted(threadId: string, turnId: string)

  datatype Outcome =
    | ReadFailed
    | RpcError(text: string)
    | Reported(text: string)
    | EmptyMessage(turnId: string)
    | Done(turnId: string, message: string, files: seq<string>)

  // ----- single messages -----

  predicate Answer(m: Message, rpc: int) {
    m.approval.None? && m.id == Some(rpc)
  }

  predicate Plain(m: Message, rpc: int) {
    m.approval.None? && m.id != Some(rpc)
  }

  predicate IsAgentItem(m: Message, rpc: int) {
    Plain(m, rpc) && m.body.ItemCompleted? && m.body.item.Some? && m.body.item.value.typ == "agentMessage"
  }

  /** Messages after which a loop neither shows text nor considers itself done. */
  predicate Skips(m: Message, rpc: int) {
    m.approval.Some? || Answer(m, rpc) || IsAgentItem(m, rpc)
  }

  predicate Accepts(m: Message, rpc: int) {
    Answer(m, rpc) && m.error.None?
  }

  predicate Completes(m: Message, rpc: int) {
    Plain(m, rpc) && m.body.TurnCompleted?
  }

  function NoteText(note: Option<string>): string {
    match note
    case None => ""
    case Some(raw) => if TrimSpace(raw) == "<nil>" then "" else TrimSpace(raw)
  }

  predicate Fatal(m: Message, rpc: int) {
    || (Answer(m, rpc) && m.error.Some?)
    || (Plain(m, rpc) && m.body.ErrorNote? && NoteText(m.body.note) != "")
  }

  function NonBlank(s: string): string {
    if TrimSpace(s) != "" then s else ""
  }

  /** The assistant text that a message carries, "" if none or blank. */
  function TextOf(m: Message, rpc: int): string {
    if !Plain(m, rpc) then "" else
      match m.body
      case ItemCompleted(Some(item)) => if item.typ == "agentMessage" then NonBlank(item.text) else ""
      case AgentMessage(text) => NonBlank(text)
      case TaskComplete(text) => NonBlank(text)
      case _ => ""
  }

  function TurnIdOf(m: Message, rpc: int): string {
    if Accepts(m, rpc) then NonBlank(m.resultTurnId)
    else if Completes(m, rpc) then NonBlank(m.body.turnId)
    else ""
  }

  function FilePath(item: Item): string {
    if TrimSpace(item.file) != "" then TrimSpace(item.file)
    else if TrimSpace(item.path) != "" then TrimSpace(item.path)
    else TrimSpace(item.filename)
  }

  function FilesOf(m: Message, rpc: int): seq<string> {
    if Plain(m, rpc) && m.body.ItemCompleted? && m.body.item.Some?
       && m.body.item.value.typ == "fileChange" && FilePath(m.body.item.value) != ""
    then [FilePath(m.body.item.value)] else []
  }

  // ----- logs -----

  ghost predicate Accepted(log: seq<Message>, rpc: int, n: nat)
    requires n <= |log|
  {
    exists i :: 0 <= i < n && Accepts(log[i], rpc)
  }

  ghost predicate Completed(log: seq<Message>, rpc: int, n: nat)
    requires n <= |log|
  {
    exists i :: 0 <= i < n && Completes(log[i], rpc)
  }

  /** The turn is over at message i: answered and completed by then, and i is not one to skip. */
  ghost predicate StopsAt(log: seq<Message>, rpc: int, i: nat)
    requires i < |log|
  {
    !Skips(log[i], rpc) && Accepted(log, rpc, i + 1) && Completed(log, rpc, i + 1)
  }

  ghost predicate EndsAt(log: seq<Message>, rpc: int, i: nat)
    requires i < |log|
  {
    Fatal(log[i], rpc) || StopsAt(log, rpc, i)
  }

  /** The last non-blank assistant text among the first n messages. */
  function LastText(log: seq<Message>, rpc: int, n: nat): string
    requires n <= |log|
  {
    if n == 0 then ""
    else if TextOf(log[n - 1], rpc) != "" then TextOf(log[n - 1], rpc)
    else LastText(log, rpc, n - 1)
  }

  function TurnId(log: seq<Message>, rpc: int, n: nat): string
    requires n <= |log|
  {
    if n == 0 then ""
    else if TurnIdOf(log[n - 1], rpc) != "" then TurnIdOf(log[n - 1], rpc)
    else TurnId(log, rpc, n - 1)
  }

  function Files(log: seq<Message>, rpc: int, n: nat): seq<string>
    requires n <= |log|
  {
    if n == 0 then [] else Files(log, rpc, n - 1) + FilesOf(log[n - 1], rpc)
  }

  function Approvals(log: seq<Message>, n: nat): seq<string>
    requires n <= |log|
  {
    if n == 0 then []
    else Approvals(log, n - 1) + (match log[n - 1].approval case Some(a) => [a] case None => [])
  }

  /** What message m makes of a turn that it ends, given the turn's id, text and files by then. */
  function OutcomeOf(m: Message, rpc: int, turnId: string, text: string, files: seq<string>): Outcome {
    if Answer(m, rpc) && m.error.Some? then RpcError(TrimSpace(m.error.value))
    else if Plain(m, rpc) && m.body.ErrorNote? && NoteText(m.body.note) != "" then Reported(NoteText(m.body.note))
    else if TrimSpace(text) == "" then EmptyMessage(turnId)
    else Done(turnId, TrimSpace(text), files)
  }

  /** How a turn ends whose last message is i. */
  function OutcomeAt(log: seq<Message>, rpc: int, i: nat): Outcome
    requires i < |log|
  {
    OutcomeOf(log[i], rpc, TurnId(log, rpc, i + 1), LastText(log, rpc, i + 1), Files(log, rpc, i + 1))
  }

  // ----- events -----

  function CommonPrefix(a: string, b: string): (n: nat)
    ensures n <= |a| && n <= |b| && a[..n] == b[..n]
    ensures n < |a| && n < |b| ==> a[n] != b[n]
  {
    if a == "" || b == "" || a[0] != b[0] then 0 else
      var n := CommonPrefix(a[1..], b[1..]);
      assert a[..n + 1] == [a[0]] + a[1..][..n] && b[..n + 1] == [b[0]] + b[1..][..n];
      n + 1
  }

  lemma CommonPrefixUnique(a: string, b: string, n: nat)
    requires n <= |a| && n <= |b| && a[..n] == b[..n]
    requires n < |a| && n < |b| ==> a[n] != b[n]
    ensures n == CommonPrefix(a, b)
  {
    PrefixAgrees(a, b, n);
    PrefixAgrees(a, b, CommonPrefix(a, b));
  }

  lemma PrefixAgrees(a: string, b: string, n: nat)
    requires n <= |a| && n <= |b| && a[..n] == b[..n]
    ensures forall k :: 0 <= k < n ==> a[k] == b[k]
  {
    forall k | 0 <= k < n
      ensures a[k] == b[k]
    {
      assert a[..n][k] == b[..n][k];
    }
  }

  function Delta(previous: string, current: string): string {
    current[CommonPrefix(previous, current)..]
  }

  /** The text shown after message m, when it was `before` and the assistant text is now `text`. */
  function ShownOf(m: Message, rpc: int, before: string, text: string): string {
    if Skips(m, rpc) || Fatal(m, rpc) then before else TrimSpace(text)
  }

  /** The text a listener has been shown after n messages. */
  function Shown(log: seq<Message>, rpc: int, n: nat): string
    requires n <= |log|
  {
    if n == 0 then "" else ShownOf(log[n - 1], rpc, Shown(log, rpc, n - 1), LastText(log, rpc, n))
  }

  predicate AboutContext(e: Event) {
    e.ContextUsage? || e.Compacted?
  }

  /** What both loops emit for message m itself, given the turn's id and text by then. */
  function OwnOf(m: Message, rpc: int, thread: string, id: string, text: string): (es: seq<Event>)
    ensures es == [] || (|es| == 1 && !AboutContext(es[0]) && !es[0].AssistantText?)
  {
    if m.approval.Some? then [ApprovalRequest(thread, id, m.approval.value)]
    else if Answer(m, rpc) then
      [if m.error.Some? then Failure(thread, id, TrimSpace(m.error.value)) else TurnStarted(thread, id)]
    else
      match m.body
      case ItemCompleted(Some(item)) =>
        if item.typ == "agentMessage" || item.typ == "" then []
        else
          var detail := if item.typ == "fileChange" && item.detail == "" then FilePath(item) else item.detail;
          [ItemDone(thread, id, item.typ, detail)]
      case TurnCompleted(_, _) => [TurnDone(thread, id, TrimSpace(text))]
      case ErrorNote(note) => if NoteText(note) != "" then [Failure(thread, id, NoteText(note))] else []
      case _ => []
  }

  /** What a listener sees of one message: its own event, then the change of the shown text, if any. */
  datatype Part = Part(own: seq<Event>, turnId: string, before: string, now: string)

  type Step = p: Part | p.own == [] || (|p.own| == 1 && !AboutContext(p.own[0]) && !p.own[0].AssistantText?)
    witness Part([], "", "", "")

  type Extra = es: seq<Event> | es == [] || (|es| == 1 && AboutContext(es[0])) witness []

  function StepOf(m: Message, rpc: int, thread: string, id: string, text: string, before: string): Step {
    Part(OwnOf(m, rpc, thread, id, text), id, before, ShownOf(m, rpc, before, text))
  }

  function StepAt(log: seq<Message>, rpc: int, thread: string, n: nat): Step
    requires 0 < n <= |log|
  {
    StepOf(log[n - 1], rpc, thread, TurnId(log, rpc, n), LastText(log, rpc, n), Shown(log, rpc, n - 1))
  }

  function Steps(log: seq<Message>, rpc: int, thread: string, n: nat): (steps: seq<Step>)
    requires n <= |log|
    ensures |steps| == n
  {
    if n == 0 then [] else Steps(log, rpc, thread, n - 1) + [StepAt(log, rpc, thread, n)]
  }

  function TextEvents(p: Step, thread: string): seq<Event> {
    if p.now == p.before then [] else [AssistantText(thread, p.turnId, p.now, Delta(p.before, p.now))]
  }

  /** The event stream of the client loop. */
  function ClientView(steps: seq<Step>, thread: string): seq<Event> {
    if steps == [] then []
    else
      var last := steps[|steps| - 1];
      ClientView(steps[..|steps| - 1], thread) + (last.own + TextEvents(last, thread))
  }

  /** The event stream of the session loop, which puts token usage and compaction in front. */
  function SessionView(extras: seq<Extra>, steps: seq<Step>, thread: string): seq<Event>
    requires |extras| == |steps|
  {
    if steps == [] then []
    else
      var last := steps[|steps| - 1];
      SessionView(extras[..|steps| - 1], steps[..|steps| - 1], thread)
      + (extras[|steps| - 1] + (last.own + TextEvents(last, thread)))
  }

  function ClientEvents(log: seq<Message>, rpc: int, thread: string, n: nat): seq<Event>
    requires n <= |log|
  {
    ClientView(Steps(log, rpc, thread, n), thread)
  }

  datatype Context = Context(used: int, max: int)

  function FirstNonZero(a: int, b: int): int {
    if a != 0 then a else b
  }

  /** A count that was `was` is now the first of the given ones that is not 0, if that one is positive. */
  ghost predicate Taken(was: int, now: int, counts: seq<int>) {
    if counts == [] then now == was
    else if counts[0] == 0 then Taken(was, now, counts[1..])
    else now == (if counts[0] > 0 then counts[0] else was)
  }

  function WithUsage(c: Context, u: Usage): Context {
    var used := FirstNonZero(u.inputTokens, FirstNonZero(u.promptTokens, u.totalTokens));
    var max := FirstNonZero(u.maxTokens, u.contextWindow);
    Context(if used > 0 then used else c.used, if max > 0 then max else c.max)
  }

  lemma TakesFirst(was: int, now: int, count: int, rest: seq<int>)
    ensures Taken(was, now, [count] + rest)
            == if count == 0 then Taken(was, now, rest) else now == if count > 0 then count else was
  {
    assert ([count] + rest)[1..] == rest;
  }

  lemma TakesOneOf(was: int, now: int, count: int)
    ensures Taken(was, now, [count]) == (now == if count > 0 then count else was)
  {
    TakesFirst(was, now, count, []);
    assert [count] + [] == [count];
  }

  lemma CountsAreTaken(c: Context, u: Usage)
    ensures Taken(c.used, WithUsage(c, u).used, [u.inputTokens, u.promptTokens, u.totalTokens])
    ensures Taken(c.max, WithUsage(c, u).max, [u.maxTokens, u.contextWindow])
  {
    var now := WithUsage(c, u);
    TakesOneOf(c.used, now.used, u.totalTokens);
    TakesFirst(c.used, now.used, u.promptTokens, [u.totalTokens]);
    TakesFirst(c.used, now.used, u.inputTokens, [u.promptTokens, u.totalTokens]);
    assert [u.promptTokens] + [u.totalTokens] == [u.promptTokens, u.totalTokens];
    assert [u.inputTokens] + [u.promptTokens, u.totalTokens] == [u.inputTokens, u.promptTokens, u.totalTokens];
    TakesOneOf(c.max, now.max, u.contextWindow);
    TakesFirst(c.max, now.max, u.maxTokens, [u.contextWindow]);
    assert [u.maxTokens] + [u.contextWindow] == [u.maxTokens, u.contextWindow];
  }

  function ContextOf(c: Context, m: Message, rpc: int): Context {
    if Completes(m, rpc) && m.body.usage.Some? then WithUsage(c, m.body.usage.value) else c
  }

  /** The session's token counts after n messages of a turn that starts with c. */
  function ContextAfter(c: Context, log: seq<Message>, rpc: int, n: nat): Context
    requires n <= |log|
  {
    if n == 0 then c else ContextOf(ContextAfter(c, log, rpc, n - 1), log[n - 1], rpc)
  }

  /** What only the session loop emits for message m, given its token counts and the turn's id by then. */
  function ExtraOf(c: Context, m: Message, rpc: int, thread: string, id: string): Extra {
    if !Plain(m, rpc) then []
    else if m.body.ContextCompact? then [Compacted(thread, id)]
    else if m.body.TurnCompleted? && m.body.usage.Some? && c.used > 0 then [ContextUsage(thread, c.used, c.max)]
    else []
  }

  function ExtraAt(c: Context, log: seq<Message>, rpc: int, thread: string, n: nat): Extra
    requires 0 < n <= |log|
  {
    ExtraOf(ContextAfter(c, log, rpc, n), log[n - 1], rpc, thread, TurnId(log, rpc, n))
  }

  function Extras(c: Context, log: seq<Message>, rpc: int, thread: string, n: nat): (extras: seq<Extra>)
    requires n <= |log|
    ensures |extras| == n
  {
    if n == 0 then [] else Extras(c, log, rpc, thread, n - 1) + [ExtraAt(c, log, rpc, thread, n)]
  }

  function SessionEvents(c: Context, log: seq<Message>, rpc: int, thread: string, n: nat): seq<Event>
    requires n <= |log|
  {
    SessionView(Extras(c, log, rpc, thread, n), Steps(log, rpc, thread, n), thread)
  }

  lemma ViewsGrow(extras: seq<Extra>, steps: seq<Step>, extra: Extra, step: Step, thread: string)
    requires |extras| == |steps|
    ensures ClientView(steps + [step], thread) == ClientView(steps, thread) + (step.own + TextEvents(step, thread))
    ensures SessionView(extras + [extra], steps + [step], thread) ==
            SessionView(extras, steps, thread) + (extra + (step.own + TextEvents(step, thread)))
  {
    assert (steps + [step])[..|steps|] == steps && (extras + [extra])[..|extras|] == extras;
  }

  function Closing(outcome: Outcome, thread: string): seq<Event> {
    if outcome.EmptyMessage?
    then [Failure(thread, outcome.turnId, "app-server returned an empty assistant message")] else []
  }

  function WithoutContext(es: seq<Event>): seq<Event> {
    if es == [] then []
    else
      var last := es[|es| - 1];
      WithoutContext(es[..|es| - 1]) + (if AboutContext(last) then [] else [last])
  }

  lemma {:induction false} WithoutContextAdds(a: seq<Event>, b: seq<Event>)
    ensures WithoutContext(a + b) == WithoutContext(a) + WithoutContext(b)
    decreases |b|
  {
    if b == [] {
      assert a + b == a;
    } else {
      assert (a + b)[..|a + b| - 1] == a + b[..|b| - 1];
      WithoutContextAdds(a, b[..|b| - 1]);
    }
  }

  lemma WithoutContextOfOne(es: seq<Event>)
    requires |es| <= 1
    ensures WithoutContext(es) == (if es == [] || AboutContext(es[0]) then [] else es)
  {
    if es != [] {
      assert es[..|es| - 1] == [];
      assert es == [es[0]];
    }
  }

  lemma StepWithoutContext(extra: Extra, step: Step, thread: string)
    ensures var es := step.own + TextEvents(step, thread); WithoutContext(extra + es) == es
  {
    var text := TextEvents(step, thread);
    WithoutContextAdds(extra, step.own + text);
    WithoutContextAdds(step.own, text);
    WithoutContextOfOne(extra);
    WithoutContextOfOne(step.own);
    WithoutContextOfOne(text);
  }

  lemma {:induction false} SessionViewShowsClientView(extras: seq<Extra>, steps: seq<Step>, thread: string)
    requires |extras| == |steps|
    ensures WithoutContext(SessionView(extras, steps, thread)) == ClientView(steps, thread)
    decreases |steps|
  {
    if steps != [] {
      var k := |steps| - 1;
      SessionViewShowsClientView(extras[..k], steps[..k], thread);
      StepWithoutContext(extras[k], steps[k], thread);
      WithoutContextAdds(SessionView(extras[..k], steps[..k], thread),
                         extras[k] + (steps[k].own + TextEvents(steps[k], thread)));
    }
  }

  /** Leaving out context_usage and context_compact, a session shows what a one-shot client shows. */
  lemma SessionShowsClientEvents(c: Context, log: seq<Message>, rpc: int, thread: string, n: nat)
    requires n <= |log|
    ensures WithoutContext(SessionEvents(c, log, rpc, thread, n)) == ClientEvents(log, rpc, thread, n)
  {
    SessionViewShowsClientView(Extras(c, log, rpc, thread, n), Steps(log, rpc, thread, n), thread);
  }

  // ----- what a listener can rely on -----

  /** The assistant_message events, oldest first, as pairs of message and delta. */
  function Texts(es: seq<Event>): seq<(string, string)> {
    if es == [] then []
    else
      var last := es[|es| - 1];
      Texts(es[..|es| - 1]) + (if last.AssistantText? then [(last.message, last.delta)] else [])
  }

  lemma {:induction false} TextsAdds(a: seq<Event>, b: seq<Event>)
    ensures Texts(a + b) == Texts(a) + Texts(b)
    decreases |b|
  {
    if b == [] {
      assert a + b == a;
    } else {
      assert (a + b)[..|a + b| - 1] == a + b[..|b| - 1];
      TextsAdds(a, b[..|b| - 1]);
    }
  }

  function Before(ts: seq<(string, string)>, i: nat): string
    requires i <= |ts|
  {
    if i == 0 then "" else ts[i - 1].0
  }

  predicate Link(previous: string, t: (string, string)) {
    t.0 != previous && t.1 == Delta(previous, t.0)
  }

  /** Each text differs from the one before it, and its delta is what follows their common prefix. */
  ghost predicate Chained(ts: seq<(string, string)>) {
    forall i {:trigger Before(ts, i)} :: 0 <= i < |ts| ==> Link(Before(ts, i), ts[i])
  }

  lemma TextsOfOne(es: seq<Event>)
    requires |es| <= 1
    ensures Texts(es) == (if es == [] || !es[0].AssistantText? then [] else [(es[0].message, es[0].delta)])
  {
    if es != [] {
      assert es[..|es| - 1] == [];
      assert es == [es[0]];
    }
  }

  lemma TextsOfStep(step: Step, thread: string)
    ensures Texts(step.own + TextEvents(step, thread)) ==
            (if step.now == step.before then [] else [(step.now, Delta(step.before, step.now))])
  {
    TextsAdds(step.own, TextEvents(step, thread));
    TextsOfOne(step.own);
    TextsOfOne(TextEvents(step, thread));
  }

  /** Each message starts from the text that the one before it left. */
  ghost predicate Connected(steps: seq<Step>) {
    && (steps != [] ==> steps[0].before == "")
    && (forall i :: 0 < i < |steps| ==> steps[i].before == steps[i - 1].now)
  }

  lemma ConnectedGrows(steps: seq<Step>, step: Step)
    requires Connected(steps) && step.before == if steps == [] then "" else steps[|steps| - 1].now
    ensures Connected(steps + [step]) && (steps + [step])[|steps|] == step
  {
  }

  lemma {:induction false} StepsConnected(log: seq<Message>, rpc: int, thread: string, n: nat)
    requires n <= |log|
    ensures var steps := Steps(log, rpc, thread, n);
            Connected(steps) && (n > 0 ==> steps[n - 1].now == Shown(log, rpc, n))
  {
    if n > 0 {
      StepsConnected(log, rpc, thread, n - 1);
      ConnectedGrows(Steps(log, rpc, thread, n - 1), StepAt(log, rpc, thread, n));
    }
  }

  function LastNow(steps: seq<Step>): string {
    if steps == [] then "" else steps[|steps| - 1].now
  }

  lemma {:induction false} ViewIsChained(steps: seq<Step>, thread: string)
    requires Connected(steps)
    ensures var ts := Texts(ClientView(steps, thread)); Chained(ts) && Before(ts, |ts|) == LastNow(steps)
    decreases |steps|
  {
    if steps != [] {
      var k := |steps| - 1;
      ViewIsChained(steps[..k], thread);
      var before := ClientView(steps[..k], thread);
      TextsAdds(before, steps[k].own + TextEvents(steps[k], thread));
      TextsOfStep(steps[k], thread);
      assert LastNow(steps[..k]) == steps[k].before;
      if steps[k].now == steps[k].before {
        assert Texts(before) + [] == Texts(before);
      } else {
        ChainGrows(Texts(before), steps[k].now);
      }
    }
  }

  /** Over a whole turn the listener sees texts that always change, each with the right delta. */
  lemma TextsAreChained(log: seq<Message>, rpc: int, thread: string, n: nat)
    requires n <= |log|
    ensures var ts := Texts(ClientEvents(log, rpc, thread, n));
            Chained(ts) && Before(ts, |ts|) == Shown(log, rpc, n)
  {
    StepsConnected(log, rpc, thread, n);
    ViewIsChained(Steps(log, rpc, thread, n), thread);
  }

  lemma ChainGrows(ts: seq<(string, string)>, now: string)
    requires Chained(ts) && now != Before(ts, |ts|)
    ensures var us := ts + [(now, Delta(Before(ts, |ts|), now))];
            Chained(us) && Before(us, |us|) == now
  {
    var us := ts + [(now, Delta(Before(ts, |ts|), now))];
    forall i | 0 <= i < |us|
      ensures Link(Before(us, i), us[i])
    {
      assert Before(us, i) == Before(ts, i);
    }
  }

  /**
   A turn that ends well returns the last non-blank assistant text of the log it consumed, trimmed, and
   that is also the message of the last assistant_message event.
   */
  lemma ReturnedTextWasShown(log: seq<Message>, rpc: int, thread: string, i: nat)
    requires i < |log| && EndsAt(log, rpc, i) && OutcomeAt(log, rpc, i).Done?
    ensures var ts := Texts(ClientEvents(log, rpc, thread, i + 1));
            && ts != []
            && ts[|ts| - 1].0 == OutcomeAt(log, rpc, i).message == TrimSpace(LastText(log, rpc, i + 1))
  {
    DoneIsShown(log, rpc, i);
    TextsAreChained(log, rpc, thread, i + 1);
  }

  lemma DoneIsShown(log: seq<Message>, rpc: int, i: nat)
    requires i < |log| && EndsAt(log, rpc, i) && OutcomeAt(log, rpc, i).Done?
    ensures OutcomeAt(log, rpc, i).message == TrimSpace(LastText(log, rpc, i + 1)) == Shown(log, rpc, i + 1) != ""
  {
  }

  function Deltas(ts: seq<(string, string)>, n: nat): string
    requires n <= |ts|
  {
    if n == 0 then "" else Deltas(ts, n - 1) + ts[n - 1].1
  }

  ghost predicate OnlyExtends(ts: seq<(string, string)>) {
    forall i {:trigger Before(ts, i)} :: 0 <= i < |ts| ==> Before(ts, i) <= ts[i].0
  }

  lemma DeltaOfExtension(previous: string, current: string, delta: string)
    requires previous <= current && delta == Delta(previous, current)
    ensures previous + delta == current
  {
    assert forall k :: 0 <= k < |previous| ==> previous[k] == current[k];
    assert CommonPrefix(previous, current) == |previous|;
  }

  lemma {:induction false} DeltasOfExtensions(ts: seq<(string, string)>, n: nat)
    requires n <= |ts|
    requires forall i {:trigger Before(ts, i)} :: 0 <= i < |ts| ==> Before(ts, i) + ts[i].1 == ts[i].0
    ensures Deltas(ts, n) == Before(ts, n)
  {
    if n > 0 {
      DeltasOfExtensions(ts, n - 1);
      assert Before(ts, n - 1) + ts[n - 1].1 == ts[n - 1].0;
    }
  }

  /** If the assistant only ever extends its message, the deltas put together are the returned text. */
  lemma DeltasSpellTheResult(log: seq<Message>, rpc: int, thread: string, i: nat)
    requires i < |log| && EndsAt(log, rpc, i) && OutcomeAt(log, rpc, i).Done?
    requires OnlyExtends(Texts(ClientEvents(log, rpc, thread, i + 1)))
    ensures var ts := Texts(ClientEvents(log, rpc, thread, i + 1));
            Deltas(ts, |ts|) == OutcomeAt(log, rpc, i).message
  {
    ReturnedTextWasShown(log, rpc, thread, i);
    TextsAreChained(log, rpc, thread, i + 1);
    var ts := Texts(ClientEvents(log, rpc, thread, i + 1));
    forall k | 0 <= k < |ts|
      ensures Before(ts, k) + ts[k].1 == ts[k].0
    {
      assert Link(Before(ts, k), ts[k]);
      DeltaOfExtension(Before(ts, k), ts[k].0, ts[k].1);
    }
    DeltasOfExtensions(ts, |ts|);
  }

  /** In general a listener rebuilds each text by keeping a prefix of the previous one and appending the delta. */
  lemma DeltaRebuilds(previous: string, current: string)
    ensures var delta := Delta(previous, current);
            && |delta| <= |current| && |current| - |delta| <= |previous|
            && previous[..|current| - |delta|] + delta == current
            && (forall d :: d <= current && d <= previous ==> |d| <= |current| - |delta|)
  {
    var n := CommonPrefix(previous, current);
    forall d | d <= current && d <= previous
      ensures |d| <= n
    {
      assert forall k :: 0 <= k < |d| ==> d[k] == current[k] && d[k] == previous[k];
    }
  }

  /** What has been shown is never taken back to nothing, and texts are never blank. */
  lemma {:induction false} ShownComesFromText(log: seq<Message>, rpc: int, n: nat)
    requires n <= |log|
    ensures LastText(log, rpc, n) == "" <==> TrimSpace(LastText(log, rpc, n)) == ""
    ensures Shown(log, rpc, n) != "" ==> LastText(log, rpc, n) != ""
  {
    if n > 0 {
      ShownComesFromText(log, rpc, n - 1);
    }
  }
}

/** Deltas of texts in UTF-8, which is what JSON brings: strings here have one `char` per byte. */
module DeltaText {
  import opened Text
  import opened TurnModel

  predicate IsContinuation(c: char) {
    0x80 <= c as int < 0xc0
  }

  /** The bytes of the character that this byte begins, 0 if it begins none. */
  function CharLength(lead: char): nat {
    var c := lead as int;
    if c < 0x80 then 1 else if c < 0xc2 then 0 else if c < 0xe0 then 2 else if c < 0xf0 then 3 else if c < 0xf5 then 4 else 0
  }

  predicate IsChar(c: string) {
    c != "" && CharLength(c[0]) == |c| && forall i :: 0 < i < |c| ==> IsContinuation(c[i])
  }

  predicate AllChars(cs: seq<string>) {
    forall i :: 0 <= i < |cs| ==> IsChar(cs[i])
  }

  ghost predicate WholeChars(s: string) {
    exists cs :: AllChars(cs) && s == Flatten(cs)
  }

  /** How many characters the texts have in common before they differ. */
  function Shared(a: seq<string>, b: seq<string>): (k: nat)
    ensures k <= |a| && k <= |b|
  {
    if a == [] || b == [] || a[0] != b[0] then 0 else 1 + Shared(a[1..], b[1..])
  }

  /** The first characters in which the texts differ begin with the same byte. */
  predicate BeginAlike(a: seq<string>, b: seq<string>)
    requires AllChars(a) && AllChars(b)
  {
    var k := Shared(a, b);
    k < |a| && k < |b| && IsChar(a[k]) && IsChar(b[k]) && a[k][0] == b[k][0]
  }

  lemma DeltaSkips(c: string, x: string, y: string)
    ensures Delta(c + x, c + y) == Delta(x, y)
  {
    var n := CommonPrefix(x, y);
    assert (c + x)[..|c| + n] == c + x[..n] && (c + y)[..|c| + n] == c + y[..n];
    CommonPrefixUnique(c + x, c + y, |c| + n);
    assert (c + y)[|c| + n..] == y[n..];
  }

  /** Two characters of equal length that differ, but not in the first byte, differ in a continuation byte. */
  lemma DifferInside(c: string, d: string, x: string, y: string)
    requires IsChar(c) && IsChar(d) && c != d && c[0] == d[0]
    ensures var delta := Delta(c + x, d + y); delta != "" && IsContinuation(delta[0])
  {
    var n := CommonPrefix(c, d);
    assert n < |c|;
    assert n > 0;
    assert (c + x)[..n] == c[..n] && (d + y)[..n] == d[..n];
    CommonPrefixUnique(c + x, d + y, n);
    assert (d + y)[n..][0] == d[n];
  }

  lemma DifferAtOnce(c: string, d: string, x: string, y: string)
    requires c != "" && d != "" && c[0] != d[0]
    ensures Delta(c + x, d + y) == d + y
  {
    CommonPrefixUnique(c + x, d + y, 0);
  }

  lemma FlattenBegins(cs: seq<string>)
    requires AllChars(cs) && Flatten(cs) != ""
    ensures CharLength(Flatten(cs)[0]) > 0
  {
    assert IsChar(cs[0]);
  }

  lemma ContinuationIsNotWhole(s: string)
    requires s != "" && IsContinuation(s[0])
    ensures !WholeChars(s)
  {
    forall cs | AllChars(cs)
      ensures s != Flatten(cs)
    {
      if Flatten(cs) != "" {
        FlattenBegins(cs);
      }
    }
  }

  lemma SharedFirst(a: seq<string>, b: seq<string>)
    requires AllChars(a) && AllChars(b) && a != [] && b != [] && a[0] == b[0]
    ensures AllChars(a[1..]) && AllChars(b[1..])
    ensures BeginAlike(a, b) <==> BeginAlike(a[1..], b[1..])
    ensures b[Shared(a, b)..] == b[1..][Shared(a[1..], b[1..])..]
  {
    var k := Shared(a[1..], b[1..]);
    assert Shared(a, b) == k + 1;
    assert k < |a| - 1 ==> a[k + 1] == a[1..][k];
    assert k < |b| - 1 ==> b[k + 1] == b[1..][k];
  }

  /** What a delta is, by whether the texts begin to differ inside a character. */
  ghost predicate RightDelta(a: seq<string>, b: seq<string>)
    requires AllChars(a) && AllChars(b)
  {
    var delta := Delta(Flatten(a), Flatten(b));
    if BeginAlike(a, b) then delta != "" && IsContinuation(delta[0]) else delta == Flatten(b[Shared(a, b)..])
  }

  lemma DeltaOfDifferent(a: seq<string>, b: seq<string>)
    requires AllChars(a) && AllChars(b) && (a == [] || b == [] || a[0] != b[0])
    ensures RightDelta(a, b)
  {
    assert b[0..] == b;
    if a != [] && b != [] {
      assert IsChar(a[0]) && IsChar(b[0]);
      if a[0][0] == b[0][0] {
        DifferInside(a[0], b[0], Flatten(a[1..]), Flatten(b[1..]));
      } else {
        DifferAtOnce(a[0], b[0], Flatten(a[1..]), Flatten(b[1..]));
      }
    }
  }

  lemma {:induction false} DeltaFromDifference(a: seq<string>, b: seq<string>)
    requires AllChars(a) && AllChars(b)
    ensures RightDelta(a, b)
    decreases |a|
  {
    if a != [] && b != [] && a[0] == b[0] {
      SharedFirst(a, b);
      DeltaFromDifference(a[1..], b[1..]);
      DeltaSkips(a[0], Flatten(a[1..]), Flatten(b[1..]));
    } else {
      DeltaOfDifferent(a, b);
    }
  }

  /**
   The delta is made of whole characters exactly when the first characters in which the texts differ do not begin
   with the same byte; it is then what follows the characters that they share.
   */
  lemma DeltaIsWholeIff(a: seq<string>, b: seq<string>)
    requires AllChars(a) && AllChars(b)
    ensures WholeChars(Delta(Flatten(a), Flatten(b))) <==> !BeginAlike(a, b)
    ensures !BeginAlike(a, b) ==> Delta(Flatten(a), Flatten(b)) == Flatten(b[Shared(a, b)..])
  {
    DeltaFromDifference(a, b);
    if BeginAlike(a, b) {
      ContinuationIsNotWhole(Delta(Flatten(a), Flatten(b)));
    } else {
      assert AllChars(b[Shared(a, b)..]);
    }
  }

  const E_ACUTE: string := [0xc3 as char, 0xa9 as char]
  const E_GRAVE: string := [0xc3 as char, 0xa8 as char]

  /** After an e with an acute accent, an e with a grave accent is told as half a character. */
  lemma AccentIsSplit()
    ensures IsChar(E_ACUTE) && IsChar(E_GRAVE)
    ensures Delta(E_ACUTE, E_GRAVE) == [0xa8 as char] && !WholeChars(Delta(E_ACUTE, E_GRAVE))
  {
    CommonPrefixUnique(E_ACUTE, E_GRAVE, 1);
    ContinuationIsNotWhole(Delta(E_ACUTE, E_GRAVE));
  }
}
