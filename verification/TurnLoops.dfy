/** The two read loops of a turn, and the session object around the second one. */
module TurnLoops {
  import opened Text
  import opened TurnModel

  /** computeSuffixDelta */
  method ComputeSuffixDelta(previous: string, current: string) returns (delta: string)
    ensures delta == Delta(previous, current)
  {
    if previous == "" {
      return current;
    }
    var i := 0;
    var max := if |current| < |previous| then |current| else |previous|;
    while i < max && previous[i] == current[i]
      invariant i <= max && previous[..i] == current[..i]
    {
      i := i + 1;
    }
    CommonPrefixUnique(previous, current, i);
    delta := current[i..];
  }

  /** extractFileChangePath */
  method ExtractFileChangePath(item: Item) returns (path: string)
    ensures path == FilePath(item)
  {
    var values := [item.file, item.path, item.filename];
    for i := 0 to |values|
      invariant forall k :: 0 <= k < i ==> TrimSpace(values[k]) == ""
    {
      if TrimSpace(values[i]) != "" {
        assert i > 0 ==> TrimSpace(values[0]) == "";
        assert i > 1 ==> TrimSpace(values[1]) == "";
        return TrimSpace(values[i]);
      }
    }
    assert TrimSpace(values[0]) == TrimSpace(values[1]) == TrimSpace(values[2]) == "";
    path := "";
  }

  // ----- the loops as functions of the messages still to come -----

  /** The local variables of a read loop. */
  datatype Progress = Progress(
    turnId: string, message: string, previous: string, seen: bool, completed: bool, files: seq<string>)

  /** What one message leads to: straight to the next one, on to the checks, or out with an error. */
  datatype Handled =
    | Skip(p: Progress, own: seq<Event>)
    | Check(p: Progress, own: seq<Event>)
    | Abort(outcome: Outcome, own: seq<Event>)

  datatype Result = Result(outcome: Outcome, events: seq<Event>, cancelled: seq<string>, read: nat)

  const START := Progress("", "", "", false, false, [])

  function Or(s: string, fallback: string): string {
    if TrimSpace(s) != "" then s else fallback
  }

  function HandleBody(p: Progress, body: Body, thread: string): Handled {
    match body
    case ItemCompleted(Some(item)) =>
      if item.typ == "agentMessage" then Skip(p.(message := Or(item.text, p.message)), [])
      else
        var path := if item.typ == "fileChange" then FilePath(item) else "";
        Check(if path != "" then p.(files := p.files + [path]) else p,
              if item.typ == "" then []
              else [ItemDone(thread, p.turnId, item.typ, if item.detail == "" then path else item.detail)])
    case TurnCompleted(id, _) =>
      Check(p.(completed := true, turnId := Or(id, p.turnId)),
            [TurnDone(thread, Or(id, p.turnId), TrimSpace(p.message))])
    case AgentMessage(text) => Check(p.(message := Or(text, p.message)), [])
    case TaskComplete(text) => Check(p.(message := Or(text, p.message)), [])
    case ErrorNote(note) =>
      if NoteText(note) != "" then Abort(Reported(NoteText(note)), [Failure(thread, p.turnId, NoteText(note))])
      else Check(p, [])
    case _ => Check(p, [])
  }

  function Handle(p: Progress, m: Message, rpc: int, thread: string): Handled {
    if m.approval.Some? then Skip(p, [ApprovalRequest(thread, p.turnId, m.approval.value)])
    else if m.id == Some(rpc) then
      if m.error.Some? then
        Abort(RpcError(TrimSpace(m.error.value)), [Failure(thread, p.turnId, TrimSpace(m.error.value))])
      else
        var id := Or(m.resultTurnId, p.turnId);
        Skip(p.(seen := true, turnId := id), [TurnStarted(thread, id)])
    else HandleBody(p, m.body, thread)
  }

  /** The assistant text to show after a checked message. */
  function NewText(p: Progress, thread: string): seq<Event> {
    var text := TrimSpace(p.message);
    if text == "" || text == p.previous then []
    else [AssistantText(thread, p.turnId, text, Delta(p.previous, text))]
  }

  function Final(p: Progress): Outcome {
    var text := TrimSpace(p.message);
    if text == "" then EmptyMessage(p.turnId) else Done(p.turnId, text, p.files)
  }

  function Ending(p: Progress): Option<Outcome> {
    if p.seen && p.completed then Some(Final(p)) else None
  }

  /** What a listener is told once a message has been handled: the new text, and that there is none at the end. */
  function Told(p: Progress, thread: string): seq<Event> {
    NewText(p, thread) + (if Ending(p).Some? then Closing(Ending(p).value, thread) else [])
  }

  function Heard(listening: bool, es: seq<Event>): seq<Event> {
    if listening then es else []
  }

  function Cancels(listening: bool, m: Message): seq<string> {
    if !listening && m.approval.Some? then [m.approval.value] else []
  }

  /** The local variables once the text, if it is new, has been shown. */
  function Checked(p: Progress, listening: bool): Progress {
    if listening && TrimSpace(p.message) != "" then p.(previous := TrimSpace(p.message)) else p
  }

  /** One pass through a loop: the new local variables, what was told, and the result if the loop returns. */
  datatype Pass = Pass(p: Progress, events: seq<Event>, cancelled: seq<string>, outcome: Option<Outcome>)

  function ClientPass(p: Progress, m: Message, rpc: int, thread: string, listening: bool): Pass {
    match Handle(p, m, rpc, thread)
    case Skip(q, own) => Pass(q, Heard(listening, own), Cancels(listening, m), None)
    case Abort(outcome, own) => Pass(p, Heard(listening, own), [], Some(outcome))
    case Check(q, own) =>
      Pass(Checked(q, listening), Heard(listening, own + Told(q, thread)), [], Ending(q))
  }

  function SessionPass(c: Context, p: Progress, m: Message, rpc: int, thread: string, listening: bool): Pass {
    match Handle(p, m, rpc, thread)
    case Skip(q, own) => Pass(q, Heard(listening, own), Cancels(listening, m), None)
    case Abort(outcome, own) => Pass(p, Heard(listening, own), [], Some(outcome))
    case Check(q, own) =>
      Pass(Checked(q, listening),
           Heard(listening, ExtraOf(c, m, rpc, thread, q.turnId) + (own + Told(q, thread))), [], Ending(q))
  }

  /** The rest of the client loop from message n on. */
  function ClientRun(log: seq<Message>, rpc: int, thread: string, listening: bool,
                     n: nat, p: Progress, events: seq<Event>, cancelled: seq<string>): Result
    requires n <= |log|
    decreases |log| - n
  {
    if n == |log| then Result(ReadFailed, events, cancelled, n) else
      var pass := ClientPass(p, log[n], rpc, thread, listening);
      var events', cancelled' := events + pass.events, cancelled + pass.cancelled;
      match pass.outcome
      case Some(outcome) => Result(outcome, events', cancelled', n + 1)
      case None => ClientRun(log, rpc, thread, listening, n + 1, pass.p, events', cancelled')
  }

  /** The rest of the session loop from message n on, and the token counts it leaves. */
  function SessionRun(log: seq<Message>, rpc: int, thread: string, listening: bool,
                      n: nat, c: Context, p: Progress, events: seq<Event>, cancelled: seq<string>): (Result, Context)
    requires n <= |log|
    decreases |log| - n
  {
    if n == |log| then (Result(ReadFailed, events, cancelled, n), c) else
      var c' := ContextOf(c, log[n], rpc);
      var pass := SessionPass(c', p, log[n], rpc, thread, listening);
      var events', cancelled' := events + pass.events, cancelled + pass.cancelled;
      match pass.outcome
      case Some(outcome) => (Result(outcome, events', cancelled', n + 1), c')
      case None => SessionRun(log, rpc, thread, listening, n + 1, c', pass.p, events', cancelled')
  }

  // ----- the loops and the log -----

  /** The local variables of a loop after n messages, said of the log. */
  ghost predicate Tracks(p: Progress, log: seq<Message>, rpc: int, listening: bool, n: nat)
    requires n <= |log|
  {
    p == Progress(TurnId(log, rpc, n), LastText(log, rpc, n), if listening then Shown(log, rpc, n) else "",
                  Accepted(log, rpc, n), Completed(log, rpc, n), Files(log, rpc, n))
  }

  lemma SeenOneMore(log: seq<Message>, rpc: int, n: nat)
    requires n < |log|
    ensures Accepted(log, rpc, n + 1) <==> Accepted(log, rpc, n) || Accepts(log[n], rpc)
    ensures Completed(log, rpc, n + 1) <==> Completed(log, rpc, n) || Completes(log[n], rpc)
  {
  }

  /** What handling one message does, in the terms in which the log is described. */
  lemma HandleMeans(p: Progress, m: Message, rpc: int, thread: string)
    ensures var h := Handle(p, m, rpc, thread);
            && (h.Abort? <==> Fatal(m, rpc))
            && (h.Skip? <==> Skips(m, rpc) && !Fatal(m, rpc))
            && (!h.Abort? ==> h.p == Advance(p, m, rpc))
            && (h.Abort? ==> Advance(p, m, rpc) == p && h.outcome == OutcomeOf(m, rpc, p.turnId, p.message, p.files))
            && h.own == OwnOf(m, rpc, thread, Advance(p, m, rpc).turnId, Advance(p, m, rpc).message)
  {
    if Plain(m, rpc) {
      HandleBodyMeans(p, m, rpc, thread);
    }
  }

  lemma HandleBodyMeans(p: Progress, m: Message, rpc: int, thread: string)
    requires Plain(m, rpc)
    ensures var h := HandleBody(p, m.body, thread);
            && (h.Abort? <==> Fatal(m, rpc))
            && (h.Skip? <==> Skips(m, rpc))
            && (!h.Abort? ==> h.p == Advance(p, m, rpc))
            && (h.Abort? ==> Advance(p, m, rpc) == p && h.outcome == OutcomeOf(m, rpc, p.turnId, p.message, p.files))
            && h.own == OwnOf(m, rpc, thread, Advance(p, m, rpc).turnId, Advance(p, m, rpc).message)
  {
  }

  function Advance(p: Progress, m: Message, rpc: int): Progress {
    Progress(if TurnIdOf(m, rpc) != "" then TurnIdOf(m, rpc) else p.turnId,
             if TextOf(m, rpc) != "" then TextOf(m, rpc) else p.message,
             p.previous, p.seen || Accepts(m, rpc), p.completed || Completes(m, rpc), p.files + FilesOf(m, rpc))
  }

  lemma AdvanceTracks(p: Progress, log: seq<Message>, rpc: int, listening: bool, n: nat)
    requires n < |log| && Tracks(p, log, rpc, listening, n)
    ensures Advance(p, log[n], rpc) ==
            Progress(TurnId(log, rpc, n + 1), LastText(log, rpc, n + 1), p.previous,
                     Accepted(log, rpc, n + 1), Completed(log, rpc, n + 1), Files(log, rpc, n + 1))
  {
    SeenOneMore(log, rpc, n);
  }

  /** What a checked message shows is the step from the text shown before to the text now. */
  lemma TextStep(q: Progress, m: Message, rpc: int, thread: string, listening: bool, before: string)
    requires !Skips(m, rpc) && !Fatal(m, rpc)
    requires q.previous == (if listening then before else "") && (before != "" ==> TrimSpace(q.message) != "")
    ensures var step := StepOf(m, rpc, thread, q.turnId, q.message, before);
            && Checked(q, listening) == q.(previous := if listening then step.now else "")
            && (listening ==> NewText(q, thread) == TextEvents(step, thread))
  {
  }

  /** What is told of message m: its own event, the new text and, if the turn ends with it, that it was empty. */
  function Shows(m: Message, rpc: int, thread: string, q: Progress, before: string): seq<Event> {
    var step := StepOf(m, rpc, thread, q.turnId, q.message, before);
    step.own + TextEvents(step, thread)
  }

  predicate Ends(m: Message, rpc: int, q: Progress) {
    Fatal(m, rpc) || (!Skips(m, rpc) && q.seen && q.completed)
  }

  /** One pass of the client loop, in the terms in which the log is described. */
  lemma ClientPassMeans(p: Progress, m: Message, rpc: int, thread: string, listening: bool, before: string)
    requires p.previous == (if listening then before else "")
    requires before != "" ==> TrimSpace(Advance(p, m, rpc).message) != ""
    ensures var pass := ClientPass(p, m, rpc, thread, listening);
            var q := Advance(p, m, rpc);
            var outcome := OutcomeOf(m, rpc, q.turnId, q.message, q.files);
            && pass.outcome == (if Ends(m, rpc, q) then Some(outcome) else None)
            && pass.p == q.(previous := if listening then ShownOf(m, rpc, before, q.message) else "")
            && pass.events == Heard(listening, Shows(m, rpc, thread, q, before)
                                               + if Ends(m, rpc, q) then Closing(outcome, thread) else [])
            && pass.cancelled == Cancels(listening, m)
  {
    HandleMeans(p, m, rpc, thread);
    var h := Handle(p, m, rpc, thread);
    if h.Check? {
      TextStep(h.p, m, rpc, thread, listening, before);
    }
  }

  ghost predicate Unended(log: seq<Message>, rpc: int, n: nat)
    requires n <= |log|
  {
    forall i :: 0 <= i < n ==> !EndsAt(log, rpc, i)
  }

  function Cancelled(log: seq<Message>, listening: bool, n: nat): seq<string>
    requires n <= |log|
  {
    if listening then [] else Approvals(log, n)
  }

  /** How a turn was read: up to the first message that ends it, with the outcome of that message. */
  ghost predicate ReadsTurn(r: Result, log: seq<Message>, rpc: int, listening: bool) {
    && r.read <= |log|
    && r.cancelled == Cancelled(log, listening, r.read)
    && (if r.outcome == ReadFailed then r.read == |log| && Unended(log, rpc, |log|)
        else
          && r.read > 0 && EndsAt(log, rpc, r.read - 1) && Unended(log, rpc, r.read - 1)
          && r.outcome == OutcomeAt(log, rpc, r.read - 1))
  }

  lemma ClientEventsGrow(log: seq<Message>, rpc: int, thread: string, n: nat)
    requires n < |log|
    ensures var step := StepAt(log, rpc, thread, n + 1);
            ClientEvents(log, rpc, thread, n + 1) ==
            ClientEvents(log, rpc, thread, n) + (step.own + TextEvents(step, thread))
  {
    var extras := Extras(Context(0, 0), log, rpc, thread, n);
    ViewsGrow(extras, Steps(log, rpc, thread, n), [], StepAt(log, rpc, thread, n + 1), thread);
  }

  /** Once a text has been shown there is one to show. */
  lemma TextStays(p: Progress, log: seq<Message>, rpc: int, listening: bool, n: nat)
    requires n < |log| && Tracks(p, log, rpc, listening, n)
    ensures Shown(log, rpc, n) != "" ==> TrimSpace(Advance(p, log[n], rpc).message) != ""
  {
    ShownComesFromText(log, rpc, n);
    ShownComesFromText(log, rpc, n + 1);
    AdvanceTracks(p, log, rpc, listening, n);
  }

  lemma ClientPassTracks(p: Progress, log: seq<Message>, rpc: int, thread: string, listening: bool, n: nat)
    requires n < |log| && Tracks(p, log, rpc, listening, n)
    ensures var pass := ClientPass(p, log[n], rpc, thread, listening);
            var step := StepAt(log, rpc, thread, n + 1);
            var outcome := OutcomeAt(log, rpc, n);
            && pass.outcome == (if EndsAt(log, rpc, n) then Some(outcome) else None)
            && Tracks(pass.p, log, rpc, listening, n + 1)
            && pass.events == Heard(listening, step.own + TextEvents(step, thread)
                                               + if EndsAt(log, rpc, n) then Closing(outcome, thread) else [])
            && pass.cancelled == Cancels(listening, log[n])
  {
    TextStays(p, log, rpc, listening, n);
    AdvanceTracks(p, log, rpc, listening, n);
    ClientPassMeans(p, log[n], rpc, thread, listening, Shown(log, rpc, n));
  }

  ghost predicate ClientShowed(r: Result, log: seq<Message>, rpc: int, thread: string, listening: bool) {
    && r.read <= |log|
    && r.events == Heard(listening, ClientEvents(log, rpc, thread, r.read) + Closing(r.outcome, thread))
  }

  lemma HeardAdds(listening: bool, a: seq<Event>, b: seq<Event>, c: seq<Event>)
    ensures Heard(listening, a) + Heard(listening, b + c) == Heard(listening, (a + b) + c)
    ensures Heard(listening, a) + Heard(listening, b + c) == Heard(listening, a + (b + c))
    ensures (Heard(listening, a) + Heard(listening, b)) + Heard(listening, c) == Heard(listening, a + (b + c))
  {
    assert a + (b + c) == (a + b) + c;
  }

  lemma ClientShowsMore(log: seq<Message>, rpc: int, thread: string, listening: bool, n: nat, outcome: Outcome,
                        events: seq<Event>, shown: seq<Event>, cancelled: seq<string>)
    requires n < |log| && events == Heard(listening, ClientEvents(log, rpc, thread, n))
    requires ClientEvents(log, rpc, thread, n + 1) == ClientEvents(log, rpc, thread, n) + shown
    ensures events + Heard(listening, shown + []) == Heard(listening, ClientEvents(log, rpc, thread, n + 1))
    ensures var told := events + Heard(listening, shown + Closing(outcome, thread));
            ClientShowed(Result(outcome, told, cancelled, n + 1), log, rpc, thread, listening)
  {
    var before := ClientEvents(log, rpc, thread, n);
    HeardAdds(listening, before, shown, []);
    HeardAdds(listening, before, shown, Closing(outcome, thread));
    assert (before + shown) + [] == before + shown;
  }

  lemma ClientShowsNext(log: seq<Message>, rpc: int, thread: string, listening: bool, n: nat, p: Progress,
                        events: seq<Event>, cancelled: seq<string>)
    requires n < |log| && Tracks(p, log, rpc, listening, n)
    requires events == Heard(listening, ClientEvents(log, rpc, thread, n))
    ensures var events' := events + ClientPass(p, log[n], rpc, thread, listening).events;
            && (!EndsAt(log, rpc, n) ==> events' == Heard(listening, ClientEvents(log, rpc, thread, n + 1)))
            && (EndsAt(log, rpc, n) ==>
                  ClientShowed(Result(OutcomeAt(log, rpc, n), events', cancelled, n + 1), log, rpc, thread, listening))
  {
    ClientPassTracks(p, log, rpc, thread, listening, n);
    ClientEventsGrow(log, rpc, thread, n);
    var step := StepAt(log, rpc, thread, n + 1);
    ClientShowsMore(log, rpc, thread, listening, n, OutcomeAt(log, rpc, n), events,
                    step.own + TextEvents(step, thread), cancelled);
  }

  lemma ClientShowedAll(log: seq<Message>, rpc: int, thread: string, listening: bool,
                        events: seq<Event>, cancelled: seq<string>)
    requires events == Heard(listening, ClientEvents(log, rpc, thread, |log|))
    ensures ClientShowed(Result(ReadFailed, events, cancelled, |log|), log, rpc, thread, listening)
  {
    var es := ClientEvents(log, rpc, thread, |log|);
    assert es + [] == es;
  }

  lemma CancelledNext(log: seq<Message>, listening: bool, n: nat, cancelled: seq<string>)
    requires n < |log| && cancelled == Cancelled(log, listening, n)
    ensures cancelled + Cancels(listening, log[n]) == Cancelled(log, listening, n + 1)
  {
  }

  lemma StandsNext(log: seq<Message>, rpc: int, listening: bool, n: nat, events: seq<Event>, cancelled: seq<string>)
    requires n < |log| && Unended(log, rpc, n) && cancelled == Cancelled(log, listening, n)
    ensures var cancelled' := cancelled + Cancels(listening, log[n]);
            && cancelled' == Cancelled(log, listening, n + 1)
            && (!EndsAt(log, rpc, n) ==> Unended(log, rpc, n + 1))
            && (EndsAt(log, rpc, n) ==>
                  ReadsTurn(Result(OutcomeAt(log, rpc, n), events, cancelled', n + 1), log, rpc, listening))
  {
    CancelledNext(log, listening, n, cancelled);
  }

  lemma {:induction false} ClientRunMeetsLog(log: seq<Message>, rpc: int, thread: string, listening: bool,
                                             n: nat, p: Progress, events: seq<Event>, cancelled: seq<string>)
    requires n <= |log| && Tracks(p, log, rpc, listening, n) && Unended(log, rpc, n)
    requires cancelled == Cancelled(log, listening, n)
    requires events == Heard(listening, ClientEvents(log, rpc, thread, n))
    ensures var r := ClientRun(log, rpc, thread, listening, n, p, events, cancelled);
            ReadsTurn(r, log, rpc, listening) && ClientShowed(r, log, rpc, thread, listening)
    decreases |log| - n
  {
    if n < |log| {
      var pass := ClientPass(p, log[n], rpc, thread, listening);
      ClientPassTracks(p, log, rpc, thread, listening, n);
      var events', cancelled' := events + pass.events, cancelled + pass.cancelled;
      ClientShowsNext(log, rpc, thread, listening, n, p, events, cancelled');
      StandsNext(log, rpc, listening, n, events', cancelled);
      if pass.outcome.None? {
        ClientRunMeetsLog(log, rpc, thread, listening, n + 1, pass.p, events', cancelled');
      }
    } else {
      ClientShowedAll(log, rpc, thread, listening, events, cancelled);
    }
  }

  /** The client loop reads the turn as the log says, and shows what the log says. */
  lemma ClientMeetsLog(log: seq<Message>, rpc: int, thread: string, listening: bool)
    ensures var r := ClientRun(log, rpc, thread, listening, 0, START, [], []);
            ReadsTurn(r, log, rpc, listening) && ClientShowed(r, log, rpc, thread, listening)
  {
    ClientRunMeetsLog(log, rpc, thread, listening, 0, START, [], []);
  }

  // ----- the session loop and the log -----

  lemma SessionPassMeans(c: Context, p: Progress, m: Message, rpc: int, thread: string, listening: bool, before: string)
    requires p.previous == (if listening then before else "")
    requires before != "" ==> TrimSpace(Advance(p, m, rpc).message) != ""
    ensures var client := ClientPass(p, m, rpc, thread, listening);
            var extra := ExtraOf(c, m, rpc, thread, Advance(p, m, rpc).turnId);
            SessionPass(c, p, m, rpc, thread, listening) == client.(events := Heard(listening, extra) + client.events)
  {
    HandleMeans(p, m, rpc, thread);
  }

  lemma SessionEventsGrow(c: Context, log: seq<Message>, rpc: int, thread: string, n: nat)
    requires n < |log|
    ensures var step := StepAt(log, rpc, thread, n + 1);
            SessionEvents(c, log, rpc, thread, n + 1) ==
            SessionEvents(c, log, rpc, thread, n)
            + (ExtraAt(c, log, rpc, thread, n + 1) + (step.own + TextEvents(step, thread)))
  {
    ViewsGrow(Extras(c, log, rpc, thread, n), Steps(log, rpc, thread, n),
              ExtraAt(c, log, rpc, thread, n + 1), StepAt(log, rpc, thread, n + 1), thread);
  }

  lemma ExtraTracks(c: Context, p: Progress, log: seq<Message>, rpc: int, thread: string, listening: bool, n: nat)
    requires n < |log| && Tracks(p, log, rpc, listening, n)
    ensures ExtraOf(ContextAfter(c, log, rpc, n + 1), log[n], rpc, thread, Advance(p, log[n], rpc).turnId) ==
            ExtraAt(c, log, rpc, thread, n + 1)
  {
    AdvanceTracks(p, log, rpc, listening, n);
  }

  lemma SessionPassTracks(c: Context, p: Progress, log: seq<Message>, rpc: int, thread: string, listening: bool, n: nat)
    requires n < |log| && Tracks(p, log, rpc, listening, n)
    ensures var pass := SessionPass(ContextAfter(c, log, rpc, n + 1), p, log[n], rpc, thread, listening);
            var step := StepAt(log, rpc, thread, n + 1);
            var outcome := OutcomeAt(log, rpc, n);
            && pass.outcome == (if EndsAt(log, rpc, n) then Some(outcome) else None)
            && Tracks(pass.p, log, rpc, listening, n + 1)
            && pass.events == Heard(listening, ExtraAt(c, log, rpc, thread, n + 1))
                              + Heard(listening, step.own + TextEvents(step, thread)
                                                 + if EndsAt(log, rpc, n) then Closing(outcome, thread) else [])
            && pass.cancelled == Cancels(listening, log[n])
  {
    TextStays(p, log, rpc, listening, n);
    ExtraTracks(c, p, log, rpc, thread, listening, n);
    ClientPassTracks(p, log, rpc, thread, listening, n);
    SessionPassMeans(ContextAfter(c, log, rpc, n + 1), p, log[n], rpc, thread, listening, Shown(log, rpc, n));
  }

  ghost predicate SessionShowed(c: Context, r: Result, c': Context, log: seq<Message>, rpc: int, thread: string,
                                listening: bool) {
    && r.read <= |log|
    && c' == ContextAfter(c, log, rpc, r.read)
    && r.events == Heard(listening, SessionEvents(c, log, rpc, thread, r.read) + Closing(r.outcome, thread))
  }

  lemma HeardAddsExtra(listening: bool, a: seq<Event>, e: seq<Event>, b: seq<Event>, c: seq<Event>)
    ensures Heard(listening, a) + (Heard(listening, e) + Heard(listening, b + c)) ==
            Heard(listening, (a + (e + b)) + c)
  {
    assert a + (e + (b + c)) == (a + (e + b)) + c;
  }

  lemma SessionShowsMore(c: Context, log: seq<Message>, rpc: int, thread: string, listening: bool, n: nat,
                         outcome: Outcome, events: seq<Event>, extra: seq<Event>, shown: seq<Event>,
                         cancelled: seq<string>)
    requires n < |log| && events == Heard(listening, SessionEvents(c, log, rpc, thread, n))
    requires SessionEvents(c, log, rpc, thread, n + 1) == SessionEvents(c, log, rpc, thread, n) + (extra + shown)
    ensures events + (Heard(listening, extra) + Heard(listening, shown + [])) ==
            Heard(listening, SessionEvents(c, log, rpc, thread, n + 1))
    ensures var told := events + (Heard(listening, extra) + Heard(listening, shown + Closing(outcome, thread)));
            SessionShowed(c, Result(outcome, told, cancelled, n + 1), ContextAfter(c, log, rpc, n + 1),
                          log, rpc, thread, listening)
  {
    var before := SessionEvents(c, log, rpc, thread, n);
    HeardAddsExtra(listening, before, extra, shown, []);
    HeardAddsExtra(listening, before, extra, shown, Closing(outcome, thread));
    assert (before + (extra + shown)) + [] == before + (extra + shown);
  }

  lemma SessionShowsNext(c: Context, log: seq<Message>, rpc: int, thread: string, listening: bool, n: nat, p: Progress,
                         events: seq<Event>, cancelled: seq<string>)
    requires n < |log| && Tracks(p, log, rpc, listening, n)
    requires events == Heard(listening, SessionEvents(c, log, rpc, thread, n))
    ensures var c' := ContextAfter(c, log, rpc, n + 1);
            var events' := events + SessionPass(c', p, log[n], rpc, thread, listening).events;
            && (!EndsAt(log, rpc, n) ==> events' == Heard(listening, SessionEvents(c, log, rpc, thread, n + 1)))
            && (EndsAt(log, rpc, n) ==>
                  SessionShowed(c, Result(OutcomeAt(log, rpc, n), events', cancelled, n + 1), c',
                                log, rpc, thread, listening))
  {
    SessionPassTracks(c, p, log, rpc, thread, listening, n);
    SessionEventsGrow(c, log, rpc, thread, n);
    var step := StepAt(log, rpc, thread, n + 1);
    SessionShowsMore(c, log, rpc, thread, listening, n, OutcomeAt(log, rpc, n), events,
                     ExtraAt(c, log, rpc, thread, n + 1), step.own + TextEvents(step, thread), cancelled);
  }

  lemma SessionShowedAll(c: Context, log: seq<Message>, rpc: int, thread: string, listening: bool,
                         events: seq<Event>, cancelled: seq<string>)
    requires events == Heard(listening, SessionEvents(c, log, rpc, thread, |log|))
    ensures SessionShowed(c, Result(ReadFailed, events, cancelled, |log|), ContextAfter(c, log, rpc, |log|),
                          log, rpc, thread, listening)
  {
    var es := SessionEvents(c, log, rpc, thread, |log|);
    assert es + [] == es;
  }

  lemma {:induction false} SessionRunMeetsLog(c: Context, log: seq<Message>, rpc: int, thread: string, listening: bool,
                                              n: nat, now: Context, p: Progress,
                                              events: seq<Event>, cancelled: seq<string>)
    requires n <= |log| && Tracks(p, log, rpc, listening, n) && Unended(log, rpc, n)
    requires now == ContextAfter(c, log, rpc, n) && cancelled == Cancelled(log, listening, n)
    requires events == Heard(listening, SessionEvents(c, log, rpc, thread, n))
    ensures var run := SessionRun(log, rpc, thread, listening, n, now, p, events, cancelled);
            ReadsTurn(run.0, log, rpc, listening) && SessionShowed(c, run.0, run.1, log, rpc, thread, listening)
    decreases |log| - n
  {
    if n < |log| {
      var next := ContextOf(now, log[n], rpc);
      assert next == ContextAfter(c, log, rpc, n + 1);
      var pass := SessionPass(next, p, log[n], rpc, thread, listening);
      SessionPassTracks(c, p, log, rpc, thread, listening, n);
      var events', cancelled' := events + pass.events, cancelled + pass.cancelled;
      SessionShowsNext(c, log, rpc, thread, listening, n, p, events, cancelled');
      StandsNext(log, rpc, listening, n, events', cancelled);
      if pass.outcome.None? {
        SessionRunMeetsLog(c, log, rpc, thread, listening, n + 1, next, pass.p, events', cancelled');
      }
    } else {
      SessionShowedAll(c, log, rpc, thread, listening, events, cancelled);
    }
  }

  /** So does the session loop, which also leaves the token counts that the log says. */
  lemma SessionMeetsLog(c: Context, log: seq<Message>, rpc: int, thread: string, listening: bool)
    ensures var run := SessionRun(log, rpc, thread, listening, 0, c, START, [], []);
            ReadsTurn(run.0, log, rpc, listening) && SessionShowed(c, run.0, run.1, log, rpc, thread, listening)
  {
    SessionRunMeetsLog(c, log, rpc, thread, listening, 0, c, START, [], []);
  }

  lemma ReadsTurnOneWay(a: Result, b: Result, log: seq<Message>, rpc: int, listening: bool)
    requires ReadsTurn(a, log, rpc, listening) && ReadsTurn(b, log, rpc, listening)
    ensures a.outcome == b.outcome && a.read == b.read && a.cancelled == b.cancelled
  {
  }

  lemma ClosingIsNotContext(outcome: Outcome, thread: string)
    ensures WithoutContext(Closing(outcome, thread)) == Closing(outcome, thread)
  {
    WithoutContextOfOne(Closing(outcome, thread));
  }

  /**
   Whatever the log, the two loops read equally many messages, answer the same approvals, end with the same
   result or error, and tell a listener the same apart from context_usage and context_compact.
   */
  lemma SessionAgreesWithClient(c: Context, log: seq<Message>, rpc: int, thread: string, listening: bool)
    ensures var client := ClientRun(log, rpc, thread, listening, 0, START, [], []);
            var session := SessionRun(log, rpc, thread, listening, 0, c, START, [], []).0;
            && session.outcome == client.outcome && session.read == client.read && session.cancelled == client.cancelled
            && WithoutContext(session.events) == client.events
  {
    ClientMeetsLog(log, rpc, thread, listening);
    SessionMeetsLog(c, log, rpc, thread, listening);
    var client := ClientRun(log, rpc, thread, listening, 0, START, [], []);
    var session := SessionRun(log, rpc, thread, listening, 0, c, START, [], []).0;
    ReadsTurnOneWay(session, client, log, rpc, listening);
    SessionShowsClientEvents(c, log, rpc, thread, client.read);
    WithoutContextAdds(SessionEvents(c, log, rpc, thread, client.read), Closing(client.outcome, thread));
    ClosingIsNotContext(client.outcome, thread);
  }

  // ----- what both loops do in the same words -----

  /** The answer to turn/start, in the terms in which the log is described. */
  method OnAnswer(p: Progress, msg: Message, rpc: int, thread: string, listening: bool)
    returns (p': Progress, events: seq<Event>, outcome: Option<Outcome>)
    requires Answer(msg, rpc)
    ensures p' == Advance(p, msg, rpc)
    ensures events == Heard(listening, OwnOf(msg, rpc, thread, p'.turnId, p'.message))
    ensures outcome == if Fatal(msg, rpc) then Some(OutcomeOf(msg, rpc, p.turnId, p.message, p.files)) else None
  {
    p', events, outcome := p, [], None;
    if msg.error.Some? {
      var errText := TrimSpace(msg.error.value);
      if listening {
        events := [Failure(thread, p.turnId, errText)];
      }
      outcome := Some(RpcError(errText));
      return;
    }
    p' := p'.(seen := true);
    if TrimSpace(msg.resultTurnId) != "" {
      p' := p'.(turnId := msg.resultTurnId);
    }
    if listening {
      events := [TurnStarted(thread, p'.turnId)];
    }
  }

  /** An item that is not an agent message. */
  method OnItem(p: Progress, item: Item, thread: string, listening: bool) returns (p': Progress, events: seq<Event>)
    requires item.typ != "agentMessage"
    ensures var handled := HandleBody(p, ItemCompleted(Some(item)), thread);
            handled.Check? && p' == handled.p && events == Heard(listening, handled.own)
  {
    p', events := p, [];
    var detail := item.detail;
    if item.typ == "fileChange" {
      var path := ExtractFileChangePath(item);
      if path != "" {
        p' := p'.(files := p'.files + [path]);
      }
      if detail == "" {
        detail := path;
      }
    }
    if item.typ != "" && listening {
      events := [ItemDone(thread, p'.turnId, item.typ, detail)];
    }
  }

  /** What follows a message that is handled and not skipped. */
  method ShowText(p: Progress, thread: string, listening: bool)
    returns (p': Progress, events: seq<Event>, outcome: Option<Outcome>)
    ensures p' == Checked(p, listening) && outcome == Ending(p)
    ensures events == Heard(listening, Told(p, thread))
  {
    p', events, outcome := p, [], None;
    var trimmed := TrimSpace(p.message);
    if listening && trimmed != "" && trimmed != p.previous {
      var delta := ComputeSuffixDelta(p.previous, trimmed);
      events := [AssistantText(thread, p.turnId, trimmed, delta)];
      p' := p.(previous := trimmed);
    }
    if p'.seen && p'.completed {
      var final := TrimSpace(p'.message);
      if final == "" {
        if listening {
          events := events + [Failure(thread, p'.turnId, "app-server returned an empty assistant message")];
        }
        outcome := Some(EmptyMessage(p'.turnId));
      } else {
        outcome := Some(Done(p'.turnId, final, p'.files));
      }
    }
  }

  // ----- Client.readTurnUntilComplete -----

  /** The body of the client loop for one message. */
  method ClientOnMessage(p: Progress, msg: Message, rpc: int, thread: string, listening: bool)
    returns (p': Progress, events: seq<Event>, cancelled: seq<string>, outcome: Option<Outcome>)
    ensures Pass(p', events, cancelled, outcome) == ClientPass(p, msg, rpc, thread, listening)
  {
    p', events, cancelled, outcome := p, [], [], None;
    if msg.approval.Some? {
      if listening {
        events := [ApprovalRequest(thread, p.turnId, msg.approval.value)];
      } else {
        cancelled := [msg.approval.value];
      }
      return;
    }
    if msg.id == Some(rpc) {
      p', events, outcome := OnAnswer(p, msg, rpc, thread, listening);
      HandleMeans(p, msg, rpc, thread);
      return;
    }
    match msg.body {
      case ItemCompleted(Some(item)) =>
        if item.typ == "agentMessage" {
          if TrimSpace(item.text) != "" {
            p' := p'.(message := item.text);
          }
          return;
        }
        p', events := OnItem(p, item, thread, listening);
      case TurnCompleted(id, _) =>
        p' := p'.(completed := true);
        if TrimSpace(id) != "" {
          p' := p'.(turnId := id);
        }
        if listening {
          events := [TurnDone(thread, p'.turnId, TrimSpace(p'.message))];
        }
      case AgentMessage(text) =>
        if TrimSpace(text) != "" {
          p' := p'.(message := text);
        }
      case TaskComplete(text) =>
        if TrimSpace(text) != "" {
          p' := p'.(message := text);
        }
      case ErrorNote(Some(note)) =>
        var errText := TrimSpace(note);
        if errText != "" && errText != "<nil>" {
          if listening {
            events := [Failure(thread, p'.turnId, errText)];
          }
          outcome := Some(Reported(errText));
          return;
        }
      case _ =>
    }
    ghost var handled := Handle(p, msg, rpc, thread);
    assert handled.Check? && handled.p == p' && events == Heard(listening, handled.own);
    var told;
    p', told, outcome := ShowText(p', thread, listening);
    events := events + told;
  }

  /** `read` is the number of messages taken from the connection, which fails after the last of `log`. */
  method ClientReadTurn(log: seq<Message>, rpc: int, thread: string, listening: bool)
    returns (outcome: Outcome, events: seq<Event>, cancelled: seq<string>, read: nat)
    ensures var r := Result(outcome, events, cancelled, read);
            && r == ClientRun(log, rpc, thread, listening, 0, START, [], [])
            && ReadsTurn(r, log, rpc, listening) && ClientShowed(r, log, rpc, thread, listening)
  {
    var p := START;
    events, cancelled, read := [], [], 0;
    while read < |log|
      invariant read <= |log|
      invariant ClientRun(log, rpc, thread, listening, 0, START, [], [])
             == ClientRun(log, rpc, thread, listening, read, p, events, cancelled)
    {
      var p', told, answered, end := ClientOnMessage(p, log[read], rpc, thread, listening);
      p, events, cancelled, read := p', events + told, cancelled + answered, read + 1;
      if end.Some? {
        ClientMeetsLog(log, rpc, thread, listening);
        return end.value, events, cancelled, read;
      }
    }
    ClientMeetsLog(log, rpc, thread, listening);
    outcome := ReadFailed;
  }

  // ----- waitForResponse -----

  datatype Reply = ConnectionLost | Rejected(error: string) | Response(at: nat)

  /** The first message with the awaited id decides; those before it are dropped. */
  method WaitForResponse(log: seq<Message>, id: int) returns (reply: Reply, read: nat)
    ensures read <= |log|
    ensures reply.ConnectionLost? <==> forall i :: 0 <= i < |log| ==> log[i].id != Some(id)
    ensures reply.ConnectionLost? ==> read == |log|
    ensures !reply.ConnectionLost? ==>
              && read > 0 && log[read - 1].id == Some(id) && (forall i :: 0 <= i < read - 1 ==> log[i].id != Some(id))
              && reply == match log[read - 1].error
                          case Some(error) => Rejected(TrimSpace(error))
                          case None => Response(read - 1)
  {
    read := 0;
    while read < |log|
      invariant read <= |log| && forall i :: 0 <= i < read ==> log[i].id != Some(id)
      decreases |log| - read
    {
      var msg := log[read];
      read := read + 1;
      if msg.id != Some(id) {
        continue;
      }
      if msg.error.Some? {
        return Rejected(TrimSpace(msg.error.value)), read;
      }
      return Response(read - 1), read;
    }
    reply := ConnectionLost;
  }

  // ----- Session -----

  datatype TurnReply =
    | SessionClosed
    | InputRequired
    | SendFailed(id: int)
    | TurnFailed(id: int, outcome: Outcome)
    | Answered(id: int, turnId: string, message: string, files: seq<string>)

  class Session {
    const threadId: string
    var nextId: int
    var closed: bool
    var contextUsed: int
    var contextMax: int

    /** An open session: ids 1 and 2 went to initialize and thread/start, so its first turn is request 3. */
    constructor (threadId: string)
      ensures this.threadId == threadId && nextId == 3 && !closed && Tokens() == Context(0, 0)
    {
      this.threadId := threadId;
      nextId, closed, contextUsed, contextMax := 1, false, 0, 0;
      new;
      var initId := AllocId();
      var startId := AllocId();
    }

    function Tokens(): Context
      reads this
    {
      Context(contextUsed, contextMax)
    }

    method AllocId() returns (id: int)
      modifies this`nextId
      ensures id == old(nextId) && nextId == id + 1
    {
      nextId := nextId + 1;
      id := nextId - 1;
    }

    method MarkClosed()
      modifies this`closed
      ensures closed
    {
      closed := true;
    }

    /** extractUsage */
    method ExtractUsage(usage: Option<Usage>, listening: bool) returns (events: seq<Event>)
      modifies this`contextUsed, this`contextMax
      ensures Tokens() == if usage.Some? then WithUsage(old(Tokens()), usage.value) else old(Tokens())
      ensures events == Heard(listening, if usage.Some? && contextUsed > 0
                                         then [ContextUsage(threadId, contextUsed, contextMax)] else [])
      ensures usage.Some? ==>
                var u := usage.value;
                && Taken(old(contextUsed), contextUsed, [u.inputTokens, u.promptTokens, u.totalTokens])
                && Taken(old(contextMax), contextMax, [u.maxTokens, u.contextWindow])
    {
      events := [];
      if usage.None? {
        return;
      }
      CountsAreTaken(Tokens(), usage.value);
      var used := usage.value.inputTokens;
      if used == 0 {
        used := usage.value.promptTokens;
      }
      if used == 0 {
        used := usage.value.totalTokens;
      }
      var max := usage.value.maxTokens;
      if max == 0 {
        max := usage.value.contextWindow;
      }
      if used > 0 {
        contextUsed := used;
      }
      if max > 0 {
        contextMax := max;
      }
      if listening && contextUsed > 0 {
        events := [ContextUsage(threadId, contextUsed, contextMax)];
      }
    }

    /** The session loop on a message that is neither an approval request nor the awaited response. */
    method OnBody(p: Progress, msg: Message, rpc: int, listening: bool)
      returns (p': Progress, events: seq<Event>, skip: bool, outcome: Option<Outcome>)
      requires Plain(msg, rpc)
      modifies this`contextUsed, this`contextMax
      ensures Tokens() == ContextOf(old(Tokens()), msg, rpc)
      ensures var handled := HandleBody(p, msg.body, threadId);
              && skip == handled.Skip?
              && outcome == (if handled.Abort? then Some(handled.outcome) else None)
              && p' == (if handled.Abort? then p else handled.p)
              && events == Heard(listening, ExtraOf(Tokens(), msg, rpc, threadId, p'.turnId))
                           + Heard(listening, handled.own)
    {
      p', events, skip, outcome := p, [], false, None;
      match msg.body {
        case ItemCompleted(Some(item)) =>
          if item.typ == "agentMessage" {
            if TrimSpace(item.text) != "" {
              p' := p'.(message := item.text);
            }
            skip := true;
            return;
          }
          p', events := OnItem(p, item, threadId, listening);
        case TurnCompleted(id, usage) =>
          p' := p'.(completed := true);
          if TrimSpace(id) != "" {
            p' := p'.(turnId := id);
          }
          events := ExtractUsage(usage, listening);
          if listening {
            events := events + [TurnDone(threadId, p'.turnId, TrimSpace(p'.message))];
          }
        case AgentMessage(text) =>
          if TrimSpace(text) != "" {
            p' := p'.(message := text);
          }
        case TaskComplete(text) =>
          if TrimSpace(text) != "" {
            p' := p'.(message := text);
          }
        case ContextCompact =>
          if listening {
            events := [Compacted(threadId, p'.turnId)];
          }
        case ErrorNote(Some(note)) =>
          var errText := TrimSpace(note);
          if errText != "" && errText != "<nil>" {
            if listening {
              events := [Failure(threadId, p'.turnId, errText)];
            }
            outcome := Some(Reported(errText));
          }
        case _ =>
      }
    }

    /** The body of the session loop for one message. */
    method OnMessage(p: Progress, msg: Message, rpc: int, listening: bool)
      returns (p': Progress, events: seq<Event>, cancelled: seq<string>, outcome: Option<Outcome>)
      modifies this`contextUsed, this`contextMax
      ensures Tokens() == ContextOf(old(Tokens()), msg, rpc)
      ensures Pass(p', events, cancelled, outcome) == SessionPass(Tokens(), p, msg, rpc, threadId, listening)
    {
      p', events, cancelled, outcome := p, [], [], None;
      if msg.approval.Some? {
        if listening {
          events := [ApprovalRequest(threadId, p.turnId, msg.approval.value)];
        } else {
          cancelled := [msg.approval.value];
        }
        return;
      }
      if msg.id == Some(rpc) {
        p', events, outcome := OnAnswer(p, msg, rpc, threadId, listening);
        HandleMeans(p, msg, rpc, threadId);
        return;
      }
      var skip;
      p', events, skip, outcome := OnBody(p, msg, rpc, listening);
      if skip || outcome.Some? {
        return;
      }
      HeardAdds(listening, ExtraOf(Tokens(), msg, rpc, threadId, p'.turnId),
                HandleBody(p, msg.body, threadId).own, Told(p', threadId));
      var told;
      p', told, outcome := ShowText(p', threadId, listening);
      events := events + told;
    }

    /** readTurnUntilComplete */
    method ReadTurn(log: seq<Message>, rpc: int, listening: bool)
      returns (outcome: Outcome, events: seq<Event>, cancelled: seq<string>, read: nat)
      modifies this`contextUsed, this`contextMax
      ensures var r := Result(outcome, events, cancelled, read);
              && (r, Tokens()) == SessionRun(log, rpc, threadId, listening, 0, old(Tokens()), START, [], [])
              && ReadsTurn(r, log, rpc, listening)
              && SessionShowed(old(Tokens()), r, Tokens(), log, rpc, threadId, listening)
    {
      var p := START;
      events, cancelled, read := [], [], 0;
      while read < |log|
        invariant read <= |log|
        invariant SessionRun(log, rpc, threadId, listening, 0, old(Tokens()), START, [], [])
               == SessionRun(log, rpc, threadId, listening, read, Tokens(), p, events, cancelled)
      {
        var p', told, answered, end := OnMessage(p, log[read], rpc, listening);
        p, events, cancelled, read := p', events + told, cancelled + answered, read + 1;
        if end.Some? {
          SessionMeetsLog(old(Tokens()), log, rpc, threadId, listening);
          return end.value, events, cancelled, read;
        }
      }
      SessionMeetsLog(old(Tokens()), log, rpc, threadId, listening);
      outcome := ReadFailed;
    }

    /**
     SendTurnInputWithParams: `sent` tells whether writing the request works, `log` is what the connection
     delivers from then on.
     */
    method SendTurn(hasInput: bool, sent: bool, log: seq<Message>, listening: bool)
      returns (reply: TurnReply, events: seq<Event>, cancelled: seq<string>, read: nat)
      modifies this`nextId, this`closed, this`contextUsed, this`contextMax
      ensures reply.SessionClosed? <==> old(closed)
      ensures reply.InputRequired? <==> !old(closed) && !hasInput
      ensures reply.SendFailed? <==> !old(closed) && hasInput && !sent
      // an id is used up exactly when a request is attempted, and no id is used twice
      ensures reply.SessionClosed? || reply.InputRequired? ==> unchanged(this)
      ensures !reply.SessionClosed? && !reply.InputRequired? ==> reply.id == old(nextId) && nextId == old(nextId) + 1
      // the first turn that goes wrong closes the session for good
      ensures closed <==> old(closed) || reply.SendFailed? || reply.TurnFailed?
      ensures !reply.TurnFailed? && !reply.Answered? ==> events == [] && cancelled == [] && read == 0
      ensures !reply.TurnFailed? && !reply.Answered? ==> Tokens() == old(Tokens())
      ensures reply.TurnFailed? || reply.Answered? ==>
                exists told: seq<Event>, outcome: Outcome ::
                  && events == Heard(listening, [ThreadStarted(threadId)]) + told
                  && (if outcome.Done? then reply == Answered(old(nextId), outcome.turnId, outcome.message, outcome.files)
                      else reply == TurnFailed(old(nextId), outcome))
                  && ReadsTurn(Result(outcome, told, cancelled, read), log, old(nextId), listening)
                  && SessionShowed(old(Tokens()), Result(outcome, told, cancelled, read), Tokens(), log, old(nextId),
                                   threadId, listening)
    {
      events, cancelled, read := [], [], 0;
      if closed {
        reply := SessionClosed;
        return;
      }
      if !hasInput {
        reply := InputRequired;
        return;
      }
      var turnRpcId := AllocId();
      if !sent {
        MarkClosed();
        reply := SendFailed(turnRpcId);
        return;
      }
      if listening {
        events := [ThreadStarted(threadId)];
      }
      var outcome, told;
      outcome, told, cancelled, read := ReadTurn(log, turnRpcId, listening);
      events := events + told;
      if !outcome.Done? {
        MarkClosed();
        reply := TurnFailed(turnRpcId, outcome);
        return;
      }
      reply := Answered(turnRpcId, outcome.turnId, outcome.message, outcome.files);
    }
  }
}

/** What a turn returns, said of the texts that its messages carry and of the white space around them. */
module TurnText {
  import opened Sequences
  import opened Text
  import opened Trimming
  import opened TurnModel
  import opened TurnLoops

  // ----- messages in their own terms -----

  ghost predicate Replies(m: Message, rpc: int) {
    m.approval.None? && m.id == Some(rpc)
  }

  ghost predicate Notifies(m: Message, rpc: int) {
    m.approval.None? && m.id != Some(rpc)
  }

  /** A message with an assistant text. */
  ghost predicate Carries(m: Message, rpc: int, text: string) {
    && Notifies(m, rpc)
    && (|| m.body == AgentMessage(text) || m.body == TaskComplete(text)
        || (m.body.ItemCompleted? && m.body.item.Some? && m.body.item.value.typ == "agentMessage"
            && m.body.item.value.text == text))
  }

  /** A message with the id of the turn. */
  ghost predicate Names(m: Message, rpc: int, id: string) {
    || (Replies(m, rpc) && m.error.None? && m.resultTurnId == id)
    || (Notifies(m, rpc) && m.body.TurnCompleted? && m.body.turnId == id)
  }

  /** A message about a changed file: the first of three fields that is not blank. */
  ghost predicate Changes(m: Message, rpc: int, path: string) {
    && Notifies(m, rpc) && m.body.ItemCompleted? && m.body.item.Some? && path != ""
    && var item := m.body.item.value;
       && item.typ == "fileChange"
       && (|| Padded(item.file, path)
           || (Blank(item.file) && Padded(item.path, path))
           || (Blank(item.file) && Blank(item.path) && Padded(item.filename, path)))
  }

  /** No message with an error to report; an error message that is blank or a printed nil is none. */
  ghost predicate Quiet(m: Message, rpc: int) {
    && (Replies(m, rpc) ==> m.error.None?)
    && (Notifies(m, rpc) && m.body.ErrorNote? && m.body.note.Some? ==>
          Blank(m.body.note.value) || Padded(m.body.note.value, "<nil>"))
  }

  /** The turn is answered and completed by message i, which is neither of an agent's items nor an answer or request. */
  ghost predicate Settled(log: seq<Message>, rpc: int, i: nat)
    requires i < |log|
  {
    && Notifies(log[i], rpc)
    && !(log[i].body.ItemCompleted? && log[i].body.item.Some? && log[i].body.item.value.typ == "agentMessage")
    && (exists a :: 0 <= a <= i && Replies(log[a], rpc) && log[a].error.None?)
    && (exists b :: 0 <= b <= i && Notifies(log[b], rpc) && log[b].body.TurnCompleted?)
  }

  /** Nothing before message i ends the turn. */
  ghost predicate GoesOnTo(log: seq<Message>, rpc: int, i: nat)
    requires i <= |log|
  {
    forall m :: 0 <= m < i ==> Quiet(log[m], rpc) && !Settled(log, rpc, m)
  }

  /** The last id that is not blank among the first n messages, "" if there is none. */
  ghost predicate IdIs(log: seq<Message>, rpc: int, n: nat, id: string)
    requires n <= |log|
  {
    if n == 0 then id == ""
    else if exists x :: Names(log[n - 1], rpc, x) && !Blank(x) then Names(log[n - 1], rpc, id) && !Blank(id)
    else IdIs(log, rpc, n - 1, id)
  }

  ghost predicate ChangesAre(m: Message, rpc: int, paths: seq<string>) {
    if |paths| == 1 then Changes(m, rpc, paths[0])
    else paths == [] && forall x {:trigger Changes(m, rpc, x)} :: !Changes(m, rpc, x)
  }

  /** The files of the first n messages, in order. */
  ghost predicate FilesAre(log: seq<Message>, rpc: int, n: nat, files: seq<string>)
    requires n <= |log|
  {
    if n == 0 then files == []
    else exists k :: 0 <= k <= |files| && ChangesAre(log[n - 1], rpc, files[k..]) && FilesAre(log, rpc, n - 1, files[..k])
  }

  lemma QuietIff(m: Message, rpc: int)
    ensures Quiet(m, rpc) <==> !Fatal(m, rpc)
  {
    if m.body.ErrorNote? && m.body.note.Some? {
      BlankIff(m.body.note.value);
      PaddedIff(m.body.note.value, "<nil>");
    }
  }

  lemma SettledIff(log: seq<Message>, rpc: int, i: nat)
    requires i < |log|
    ensures Settled(log, rpc, i) <==> StopsAt(log, rpc, i)
  {
    assert forall a :: 0 <= a <= i ==> (Accepts(log[a], rpc) <==> Replies(log[a], rpc) && log[a].error.None?);
    assert forall b :: 0 <= b <= i ==> (Completes(log[b], rpc) <==> Notifies(log[b], rpc) && log[b].body.TurnCompleted?);
  }

  lemma GoesOnToIff(log: seq<Message>, rpc: int, i: nat)
    requires i <= |log|
    ensures GoesOnTo(log, rpc, i) <==> Unended(log, rpc, i)
  {
    forall m | 0 <= m < i
      ensures EndsAt(log, rpc, m) <==> !Quiet(log[m], rpc) || Settled(log, rpc, m)
    {
      QuietIff(log[m], rpc);
      SettledIff(log, rpc, m);
    }
  }

  lemma NamesIs(m: Message, rpc: int)
    ensures forall id :: Names(m, rpc, id) && !Blank(id) ==> TurnIdOf(m, rpc) == id && id != ""
    ensures TurnIdOf(m, rpc) != "" ==> Names(m, rpc, TurnIdOf(m, rpc)) && !Blank(TurnIdOf(m, rpc))
  {
    EmptyIsBlank();
    forall id | Names(m, rpc, id) && !Blank(id)
      ensures TurnIdOf(m, rpc) == id && id != ""
    {
      BlankIff(id);
    }
    BlankIff(TurnIdOf(m, rpc));
  }

  lemma IdOneMore(log: seq<Message>, rpc: int, n: nat, before: string, named: string)
    requires n < |log| && IdIs(log, rpc, n, before) && named == TurnIdOf(log[n], rpc)
    ensures IdIs(log, rpc, n + 1, if named != "" then named else before)
  {
    NamesIs(log[n], rpc);
  }

  lemma {:induction false} TurnIdIs(log: seq<Message>, rpc: int, n: nat, id: string)
    requires n <= |log| && id == TurnId(log, rpc, n)
    ensures IdIs(log, rpc, n, id)
  {
    if n > 0 {
      var before := TurnId(log, rpc, n - 1);
      TurnIdIs(log, rpc, n - 1, before);
      IdOneMore(log, rpc, n - 1, before, TurnIdOf(log[n - 1], rpc));
    }
  }

  lemma FileIs(item: Item, path: string)
    ensures FilePath(item) == path <==>
            || (path != "" && Padded(item.file, path))
            || (Blank(item.file) && path != "" && Padded(item.path, path))
            || (Blank(item.file) && Blank(item.path) && Padded(item.filename, path))
  {
    BlankIff(item.file);
    BlankIff(item.path);
    PaddedIff(item.file, path);
    PaddedIff(item.path, path);
    PaddedIff(item.filename, path);
  }

  lemma ChangesIs(m: Message, rpc: int, path: string)
    ensures Changes(m, rpc, path) <==> FilesOf(m, rpc) == [path]
  {
    if m.body.ItemCompleted? && m.body.item.Some? {
      FileIs(m.body.item.value, path);
    }
  }

  lemma FilesOfMessage(m: Message, rpc: int)
    ensures ChangesAre(m, rpc, FilesOf(m, rpc))
  {
    forall x
      ensures Changes(m, rpc, x) <==> FilesOf(m, rpc) == [x]
    {
      ChangesIs(m, rpc, x);
    }
  }

  lemma FilesOneMore(log: seq<Message>, rpc: int, n: nat, before: seq<string>, paths: seq<string>)
    requires 0 < n <= |log| && FilesAre(log, rpc, n - 1, before) && ChangesAre(log[n - 1], rpc, paths)
    ensures FilesAre(log, rpc, n, before + paths)
  {
    assert (before + paths)[..|before|] == before && (before + paths)[|before|..] == paths;
  }

  lemma {:induction false} FilesOfLog(log: seq<Message>, rpc: int, n: nat, files: seq<string>)
    requires n <= |log| && files == Files(log, rpc, n)
    ensures FilesAre(log, rpc, n, files)
  {
    if n > 0 {
      var before, paths := Files(log, rpc, n - 1), FilesOf(log[n - 1], rpc);
      FilesOfLog(log, rpc, n - 1, before);
      FilesOfMessage(log[n - 1], rpc);
      FilesOneMore(log, rpc, n, before, paths);
    }
  }

  // ----- the texts -----

  /** Blank texts are passed over, and others are taken as they stand. */
  lemma TextIsTaken(m: Message, rpc: int, text: string)
    requires Carries(m, rpc, text)
    ensures TextOf(m, rpc) == if Blank(text) then "" else text
  {
    BlankIff(text);
    EmptyIsBlank();
  }

  lemma NoTextIsTaken(m: Message, rpc: int)
    requires forall text :: Carries(m, rpc, text) ==> Blank(text)
    ensures TextOf(m, rpc) == ""
  {
    if TextOf(m, rpc) != "" {
      assert Carries(m, rpc, TextOf(m, rpc));
      TextIsTaken(m, rpc, TextOf(m, rpc));
    }
  }

  /** Up to message i, message k is the last one with a text that is not blank. */
  ghost predicate LastCarried(log: seq<Message>, rpc: int, k: nat, i: nat, text: string)
    requires i < |log|
  {
    && k <= i && Carries(log[k], rpc, text) && !Blank(text)
    && forall m :: k < m <= i ==> Later(log[m], rpc)
  }

  ghost predicate Later(m: Message, rpc: int) {
    forall text :: Carries(m, rpc, text) ==> Blank(text)
  }

  lemma {:induction false} LastTextIs(log: seq<Message>, rpc: int, k: nat, i: nat, text: string)
    requires i < |log| && LastCarried(log, rpc, k, i, text)
    ensures LastText(log, rpc, i + 1) == text
    decreases i
  {
    if i == k {
      TextIsTaken(log[k], rpc, text);
      EmptyIsBlank();
    } else {
      assert Later(log[i], rpc);
      NoTextIsTaken(log[i], rpc);
      LastTextIs(log, rpc, k, i - 1, text);
    }
  }

  lemma OneFirstEnd(log: seq<Message>, rpc: int, i: nat, j: nat)
    requires i < |log| && EndsAt(log, rpc, i) && Unended(log, rpc, i)
    requires j < |log| && EndsAt(log, rpc, j) && Unended(log, rpc, j)
    ensures i == j
  {
  }

  lemma EndsSomewhere(log: seq<Message>, rpc: int, i: nat)
    requires i < |log| && EndsAt(log, rpc, i)
    ensures !Unended(log, rpc, |log|)
  {
  }

  lemma RunEndsAt(r: Result, log: seq<Message>, rpc: int, listening: bool, i: nat)
    requires ReadsTurn(r, log, rpc, listening) && i < |log| && EndsAt(log, rpc, i) && Unended(log, rpc, i)
    ensures r.read == i + 1 && r.outcome == OutcomeAt(log, rpc, i)
  {
    EndsSomewhere(log, rpc, i);
    OneFirstEnd(log, rpc, i, r.read - 1);
  }

  /** What a turn returns when message i ends it and `text` is its last text that is not blank. */
  ghost predicate ReturnsText(r: Outcome, log: seq<Message>, rpc: int, i: nat, text: string)
    requires i < |log|
  {
    r.Done? && Padded(text, r.message) && IdIs(log, rpc, i + 1, r.turnId) && FilesAre(log, rpc, i + 1, r.files)
  }

  lemma {:induction false} NoText(log: seq<Message>, rpc: int, n: nat)
    requires n <= |log| && forall m :: 0 <= m < n ==> Later(log[m], rpc)
    ensures LastText(log, rpc, n) == ""
  {
    if n > 0 {
      assert Later(log[n - 1], rpc);
      NoTextIsTaken(log[n - 1], rpc);
      NoText(log, rpc, n - 1);
    }
  }

  lemma OutcomeOfText(log: seq<Message>, rpc: int, i: nat, k: nat, text: string)
    requires i < |log| && Quiet(log[i], rpc) && LastCarried(log, rpc, k, i, text)
    ensures ReturnsText(OutcomeAt(log, rpc, i), log, rpc, i, text)
  {
    QuietIff(log[i], rpc);
    LastTextIs(log, rpc, k, i, text);
    BlankIff(text);
    PaddedIff(text, TrimSpace(text));
    TurnIdIs(log, rpc, i + 1, TurnId(log, rpc, i + 1));
    FilesOfLog(log, rpc, i + 1, Files(log, rpc, i + 1));
  }

  lemma OutcomeWithoutText(log: seq<Message>, rpc: int, i: nat)
    requires i < |log| && Quiet(log[i], rpc) && forall m :: 0 <= m <= i ==> Later(log[m], rpc)
    ensures var r := OutcomeAt(log, rpc, i); r.EmptyMessage? && IdIs(log, rpc, i + 1, r.turnId)
  {
    QuietIff(log[i], rpc);
    NoText(log, rpc, i + 1);
    EmptyIsBlank();
    BlankIff("");
    TurnIdIs(log, rpc, i + 1, TurnId(log, rpc, i + 1));
  }

  lemma OutcomeOfError(log: seq<Message>, rpc: int, i: nat)
    requires i < |log| && !Quiet(log[i], rpc)
    ensures var m, r := log[i], OutcomeAt(log, rpc, i);
            if Replies(m, rpc) then r.RpcError? && m.error.Some? && Padded(m.error.value, r.text)
            else r.Reported? && m.body.ErrorNote? && m.body.note.Some? && Padded(m.body.note.value, r.text)
  {
    QuietIff(log[i], rpc);
    var m := log[i];
    if Replies(m, rpc) {
      PaddedIff(m.error.value, TrimSpace(m.error.value));
    } else {
      PaddedIff(m.body.note.value, TrimSpace(m.body.note.value));
    }
  }

  /** Both loops stop at the first message that settles the turn or reports an error, and so end as it says. */
  lemma BothEndAt(log: seq<Message>, rpc: int, thread: string, listening: bool, c: Context, i: nat)
    requires i < |log| && GoesOnTo(log, rpc, i) && (Settled(log, rpc, i) || !Quiet(log[i], rpc))
    ensures var r, q := ClientRun(log, rpc, thread, listening, 0, START, [], []),
                        SessionRun(log, rpc, thread, listening, 0, c, START, [], []).0;
            r.outcome == q.outcome == OutcomeAt(log, rpc, i) && r.read == q.read == i + 1
  {
    GoesOnToIff(log, rpc, i);
    SettledIff(log, rpc, i);
    QuietIff(log[i], rpc);
    ClientMeetsLog(log, rpc, thread, listening);
    RunEndsAt(ClientRun(log, rpc, thread, listening, 0, START, [], []), log, rpc, listening, i);
    SessionMeetsLog(c, log, rpc, thread, listening);
    RunEndsAt(SessionRun(log, rpc, thread, listening, 0, c, START, [], []).0, log, rpc, listening, i);
  }

  /**
   A settled turn returns its last text that is not blank without the white space around it, its last id and its
   files, in both loops.
   */
  lemma TurnReturnsText(log: seq<Message>, rpc: int, thread: string, listening: bool, c: Context, i: nat, k: nat,
                        text: string)
    requires i < |log| && GoesOnTo(log, rpc, i) && Settled(log, rpc, i) && Quiet(log[i], rpc)
    requires LastCarried(log, rpc, k, i, text)
    ensures var r, q := ClientRun(log, rpc, thread, listening, 0, START, [], []),
                        SessionRun(log, rpc, thread, listening, 0, c, START, [], []).0;
            r.outcome == q.outcome && ReturnsText(r.outcome, log, rpc, i, text)
  {
    BothEndAt(log, rpc, thread, listening, c, i);
    OutcomeOfText(log, rpc, i, k, text);
  }

  /** One whose texts are all blank fails for want of a text. */
  lemma TurnWithoutTextFails(log: seq<Message>, rpc: int, thread: string, listening: bool, c: Context, i: nat)
    requires i < |log| && GoesOnTo(log, rpc, i) && Settled(log, rpc, i) && Quiet(log[i], rpc)
    requires forall m :: 0 <= m <= i ==> Later(log[m], rpc)
    ensures var r, q := ClientRun(log, rpc, thread, listening, 0, START, [], []),
                        SessionRun(log, rpc, thread, listening, 0, c, START, [], []).0;
            r.outcome == q.outcome && r.outcome.EmptyMessage? && IdIs(log, rpc, i + 1, r.outcome.turnId)
  {
    BothEndAt(log, rpc, thread, listening, c, i);
    OutcomeWithoutText(log, rpc, i);
  }

  /** The first error ends the turn, with its text. */
  lemma TurnReportsError(log: seq<Message>, rpc: int, thread: string, listening: bool, c: Context, i: nat)
    requires i < |log| && GoesOnTo(log, rpc, i) && !Quiet(log[i], rpc)
    ensures var r, q := ClientRun(log, rpc, thread, listening, 0, START, [], []),
                        SessionRun(log, rpc, thread, listening, 0, c, START, [], []).0;
            && r.outcome == q.outcome
            && if Replies(log[i], rpc) then r.outcome.RpcError? && Padded(log[i].error.value, r.outcome.text)
               else r.outcome.Reported? && Padded(log[i].body.note.value, r.outcome.text)
  {
    BothEndAt(log, rpc, thread, listening, c, i);
    OutcomeOfError(log, rpc, i);
  }

  /** And a log that neither settles the turn nor reports an error is read to its end. */
  lemma TurnNeedsMore(log: seq<Message>, rpc: int, thread: string, listening: bool, c: Context)
    requires GoesOnTo(log, rpc, |log|)
    ensures ClientRun(log, rpc, thread, listening, 0, START, [], []).outcome == ReadFailed
    ensures SessionRun(log, rpc, thread, listening, 0, c, START, [], []).0.outcome == ReadFailed
  {
    GoesOnToIff(log, rpc, |log|);
    ClientMeetsLog(log, rpc, thread, listening);
    SessionMeetsLog(c, log, rpc, thread, listening);
  }

  // ----- the events -----

  /** What kind of event it is; shown text and the session's own events have no part in this. */
  function KindOf(e: Event): seq<string> {
    match e
    case ApprovalRequest(_, _, approval) => ["approval_request", approval]
    case Failure(_, _, _) => ["error"]
    case TurnStarted(_, _) => ["turn_started"]
    case ItemDone(_, _, typ, _) => ["item_completed", typ]
    case TurnDone(_, _, _) => ["turn_completed"]
    case _ => []
  }

  /** What is to be told of a message, in its own terms. */
  ghost function Told(m: Message, rpc: int): seq<string> {
    if m.approval.Some? then ["approval_request", m.approval.value]
    else if !Quiet(m, rpc) then ["error"]
    else if Replies(m, rpc) then ["turn_started"]
    else if m.body.TurnCompleted? then ["turn_completed"]
    else if m.body.ItemCompleted? && m.body.item.Some? && m.body.item.value.typ !in {"", "agentMessage"} then
      ["item_completed", m.body.item.value.typ]
    else []
  }

  ghost function Telling(rpc: int): Message -> seq<string> {
    m => Told(m, rpc)
  }

  lemma OwnIsTold(m: Message, rpc: int, thread: string, id: string, text: string)
    ensures var own := OwnOf(m, rpc, thread, id, text); Told(m, rpc) == if own == [] then [] else KindOf(own[0])
  {
    QuietIff(m, rpc);
  }

  lemma StepIsTold(before: seq<Event>, step: Step, thread: string, told: seq<string>)
    requires told == if step.own == [] then [] else KindOf(step.own[0])
    ensures Gather(before + (step.own + TextEvents(step, thread)), KindOf) == Gather(before, KindOf) + told
  {
    GatherThenSilent(before, step.own, TextEvents(step, thread), KindOf);
  }

  lemma NextIsTold(log: seq<Message>, rpc: int, thread: string, n: nat, before: seq<Event>, after: seq<Event>)
    requires n < |log| && before == ClientEvents(log, rpc, thread, n) && after == ClientEvents(log, rpc, thread, n + 1)
    ensures Gather(after, KindOf) == Gather(before, KindOf) + Told(log[n], rpc)
  {
    var id, text := TurnId(log, rpc, n + 1), LastText(log, rpc, n + 1);
    var step := StepOf(log[n], rpc, thread, id, text, Shown(log, rpc, n));
    ClientEventsGrow(log, rpc, thread, n);
    OwnIsTold(log[n], rpc, thread, id, text);
    StepIsTold(before, step, thread, Told(log[n], rpc));
  }

  lemma ToldOneMore(log: seq<Message>, rpc: int, n: nat)
    requires n < |log|
    ensures Gather(log[..n + 1], Telling(rpc)) == Gather(log[..n], Telling(rpc)) + Told(log[n], rpc)
  {
    assert log[..n + 1] == log[..n] + [log[n]];
    GatherOneMore(log[..n], log[n], Telling(rpc));
  }

  /** A listener is told of each message once, in the order of the log. */
  lemma {:induction false} EventsAreTold(log: seq<Message>, rpc: int, thread: string, n: nat)
    requires n <= |log|
    ensures Gather(ClientEvents(log, rpc, thread, n), KindOf) == Gather(log[..n], Telling(rpc))
  {
    if n == 0 {
      NothingTold(log, rpc, thread);
    } else {
      EventsAreTold(log, rpc, thread, n - 1);
      NextIsTold(log, rpc, thread, n - 1, ClientEvents(log, rpc, thread, n - 1), ClientEvents(log, rpc, thread, n));
      ToldOneMore(log, rpc, n - 1);
    }
  }

  lemma NothingTold(log: seq<Message>, rpc: int, thread: string)
    ensures Gather(ClientEvents(log, rpc, thread, 0), KindOf) == [] && Gather(log[..0], Telling(rpc)) == []
  {
    assert Steps(log, rpc, thread, 0) == [] && ClientEvents(log, rpc, thread, 0) == [];
  }

  /** So a client with a listener tells of each message that it has read, and at the end of a missing text. */
  lemma ClientTells(log: seq<Message>, rpc: int, thread: string)
    ensures var r := ClientRun(log, rpc, thread, true, 0, START, [], []);
            && r.read <= |log|
            && Gather(r.events, KindOf) ==
               Gather(log[..r.read], Telling(rpc)) + if r.outcome.EmptyMessage? then ["error"] else []
  {
    ClientMeetsLog(log, rpc, thread, true);
    var r := ClientRun(log, rpc, thread, true, 0, START, [], []);
    EventsAreTold(log, rpc, thread, r.read);
    ClosingIsTold(ClientEvents(log, rpc, thread, r.read), r.outcome, thread);
  }

  lemma ClosingIsTold(before: seq<Event>, outcome: Outcome, thread: string)
    ensures Gather(before + Closing(outcome, thread), KindOf) ==
            Gather(before, KindOf) + if outcome.EmptyMessage? then ["error"] else []
  {
    GatherUpToOne(before, Closing(outcome, thread), KindOf);
  }

  // ----- an example -----

  const ANSWERED := Message(None, Some(3), None, "turn", OtherMethod)
  const COMPLETED := Message(None, None, None, "", TurnCompleted("", None))

  /** The shortest turn with this text: answered, said, completed. */
  function ShortTurn(text: string): seq<Message> {
    [ANSWERED, Message(None, None, None, "", AgentMessage(text)), COMPLETED]
  }

  lemma ShortTurnEnds(text: string)
    ensures var log := ShortTurn(text); GoesOnTo(log, 3, 2) && Settled(log, 3, 2) && Quiet(log[2], 3)
  {
    var log := ShortTurn(text);
    assert Replies(log[0], 3) && Notifies(log[2], 3);
    assert !log[0].body.TurnCompleted? && !log[1].body.TurnCompleted?;
  }

  lemma ShortTurnId(text: string)
    ensures var log := ShortTurn(text); TurnId(log, 3, 3) == "turn" && Files(log, 3, 3) == []
  {
    var log := ShortTurn(text);
    NotTrimmed("turn");
    assert TurnIdOf(log[2], 3) == "" && TurnIdOf(log[1], 3) == "" && TurnIdOf(log[0], 3) == "turn";
    assert TurnId(log, 3, 1) == "turn" && TurnId(log, 3, 2) == "turn";
    assert Files(log, 3, 0) == [] && Files(log, 3, 1) == [] && Files(log, 3, 2) == [];
  }

  lemma NotBlank(w: string, t: string, v: string)
    requires Blank(w) && Blank(v) && Untrimmed(t) && t != ""
    ensures !Blank(w + t + v)
  {
    TrimSpaceUnique(w, t, v);
    BlankIff(w + t + v);
  }

  lemma ShortTurnReturns(w: string, t: string, v: string, thread: string, listening: bool)
    requires Blank(w) && Blank(v) && Untrimmed(t) && t != ""
    ensures ClientRun(ShortTurn(w + t + v), 3, thread, listening, 0, START, [], []).outcome == Done("turn", t, [])
  {
    var log := ShortTurn(w + t + v);
    ShortTurnEnds(w + t + v);
    ShortTurnId(w + t + v);
    NotBlank(w, t, v);
    assert LastCarried(log, 3, 1, 2, w + t + v);
    LastTextIs(log, 3, 1, 2, w + t + v);
    TrimSpaceUnique(w, t, v);
    QuietIff(log[2], 3);
    BothEndAt(log, 3, thread, listening, Context(0, 0), 2);
  }

  /** So a turn that says "Done." and a newline returns "Done.". */
  lemma DoneIsReturned(thread: string, listening: bool)
    ensures ClientRun(ShortTurn("Done.\n"), 3, thread, listening, 0, START, [], []).outcome == Done("turn", "Done.", [])
  {
    EmptyIsBlank();
    OneSpaceIsBlank("\n");
    PlainIsUntrimmed("Done.");
    assert "" + "Done." + "\n" == "Done.\n";
    ShortTurnReturns("", "Done.", "\n", thread, listening);
  }
}
