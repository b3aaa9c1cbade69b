/**
 Exchange search (internal/email/exchange_ews_provider.go, internal/ews/client.go): the full message
 filter, the weaker restriction that the server is given, and the loop that pages through folders.

 Times are nanoseconds since the zero time of Go, so a time that is not set is 0.
 */
module ExchangeFilter {
  import opened Sequences
  import opened Text

  datatype Mailbox = Mailbox(name: string, email: string)

  datatype Message = Message(
    id: string, subject: string, body: string, from: Mailbox, to: seq<Mailbox>, cc: seq<Mailbox>,
    displayTo: string, displayCc: string, isRead: bool, hasAttachments: bool, flagStatus: string, received: int)

  datatype Options = Options(
    text: string, subject: string, from: string, to: string, after: int, before: int, since: int, until: int,
    hasAttachment: Option<bool>, isRead: Option<bool>, isFlagged: Option<bool>, maxResults: int)

  datatype Restriction = Restriction(from: string, hasAttachment: Option<bool>, after: int, before: int)

  function JoinLines(parts: seq<string>): string {
    if parts == [] then "" else if |parts| == 1 then parts[0] else parts[0] + "\n" + JoinLines(parts[1..])
  }

  function Names(boxes: seq<Mailbox>): seq<string> {
    if boxes == [] then [] else [boxes[0].name, boxes[0].email] + Names(boxes[1..])
  }

  predicate Asks(haystack: string, wanted: string) {
    wanted == "" || Contains(Lower(haystack), Lower(TrimSpace(wanted)))
  }

  predicate Fits(wanted: Option<bool>, actual: bool) {
    wanted.None? || wanted.value == actual
  }

  // ----- the full filter -----

  predicate Flagged(m: Message) {
    Lower(TrimSpace(m.flagStatus)) == "flagged"
  }

  predicate FromAsked(m: Message, from: string) {
    Asks(m.from.name + "\n" + m.from.email, from)
  }

  /** The conditions that the server is never given. */
  predicate ClientOnly(m: Message, o: Options) {
    && Fits(o.isRead, m.isRead) && Fits(o.isFlagged, Flagged(m))
    && Asks(JoinLines([m.subject, m.body, m.from.name, m.from.email, m.displayTo, m.displayCc]), o.text)
    && Asks(m.subject, o.subject)
    && Asks(JoinLines(Names(m.to + m.cc)), o.to)
  }

  predicate InTime(o: Options, received: int) {
    && (o.after != 0 ==> received != 0 && received >= o.after)
    && (o.before != 0 && received != 0 ==> received < o.before)
    && (o.since != 0 ==> received != 0 && received >= o.since)
    && (o.until != 0 && received != 0 ==> received <= o.until)
  }

  predicate MatchesButTime(m: Message, o: Options) {
    ClientOnly(m, o) && Fits(o.hasAttachment, m.hasAttachments) && FromAsked(m, o.from)
  }

  /** matchExchangeEWSMessage, as a statement. */
  predicate Matches(m: Message, o: Options) {
    MatchesButTime(m, o) && InTime(o, m.received)
  }

  /** matchExchangeEWSMessage, condition by condition. */
  method MatchMessage(m: Message, o: Options) returns (matched: bool)
    ensures matched == Matches(m, o)
  {
    if o.isRead.Some? && m.isRead != o.isRead.value {
      return false;
    }
    if o.hasAttachment.Some? && m.hasAttachments != o.hasAttachment.value {
      return false;
    }
    if o.isFlagged.Some? && Flagged(m) != o.isFlagged.value {
      return false;
    }
    var haystack := JoinLines([m.subject, m.body, m.from.name, m.from.email, m.displayTo, m.displayCc]);
    if !Asks(haystack, o.text) || !Asks(m.subject, o.subject) || !FromAsked(m, o.from) {
      return false;
    }
    if !Asks(JoinLines(Names(m.to + m.cc)), o.to) {
      return false;
    }
    if o.after != 0 && (m.received == 0 || m.received < o.after) {
      return false;
    }
    if o.before != 0 && m.received != 0 && !(m.received < o.before) {
      return false;
    }
    if o.since != 0 && (m.received == 0 || m.received < o.since) {
      return false;
    }
    if o.until != 0 && m.received != 0 && m.received > o.until {
      return false;
    }
    matched := true;
  }

  predicate NeedsMessageFilter(o: Options) {
    || o.isRead.Some? || o.hasAttachment.Some? || o.isFlagged.Some?
    || o.text != "" || o.subject != "" || o.from != "" || o.to != ""
    || o.after != 0 || o.before != 0 || o.since != 0 || o.until != 0
  }

  predicate NeedsClientFilter(o: Options) {
    o.isRead.Some? || o.isFlagged.Some? || o.text != "" || o.subject != "" || o.to != ""
  }

  // ----- the restriction -----

  /** The later of the lower bounds that are set. */
  function LowerBound(o: Options): int {
    if o.since != 0 && (o.after == 0 || o.since > o.after) then o.since else o.after
  }

  function UpperBound(o: Options): int {
    if o.until != 0 && (o.before == 0 || o.until < o.before) then o.until else o.before
  }

  /** exchangeEWSBuildRestriction */
  function BuildRestriction(o: Options): Option<Restriction> {
    if !NeedsMessageFilter(o) then None else
      var r := Restriction(TrimSpace(o.from), o.hasAttachment, LowerBound(o), UpperBound(o));
      if r.from == "" && r.hasAttachment.None? && r.after == 0 && r.before == 0 then None else Some(r)
  }

  const SECOND := 1_000_000_000

  /** What time.RFC3339 keeps of a time. */
  function Truncate(t: int): int {
    t / SECOND * SECOND
  }

  predicate WholeSeconds(t: int) {
    t % SECOND == 0
  }

  /** What the XML built from a restriction asks of a message that has a received time. */
  predicate Restricted(m: Message, r: Restriction) {
    && FromAsked(m, r.from) && Fits(r.hasAttachment, m.hasAttachments)
    && (r.after != 0 ==> m.received >= Truncate(r.after))
    && (r.before != 0 ==> m.received <= Truncate(r.before))
  }

  predicate Admitted(m: Message, o: Options) {
    BuildRestriction(o).Some? ==> Restricted(m, BuildRestriction(o).value)
  }

  lemma TrimmedFromAsks(m: Message, o: Options)
    ensures FromAsked(m, TrimSpace(o.from)) <==> FromAsked(m, o.from)
  {
    TrimTwice(o.from);
    if TrimSpace(o.from) == "" {
      var from := Lower(m.from.name + "\n" + m.from.email);
      assert from[0..0] == "" == Lower("");
      assert OccursAt(from, "", 0);
    }
  }

  lemma TruncateBelow(t: int)
    ensures Truncate(t) <= t < Truncate(t) + SECOND
    ensures WholeSeconds(t) <==> Truncate(t) == t
  {
  }

  /** Times are in nanoseconds: the last whole second that is not after t. */
  lemma TruncateIs(t: int)
    ensures Truncate(t) <= t < Truncate(t) + 1_000_000_000
    ensures exists n :: Truncate(t) == 1_000_000_000 * n
  {
    assert Truncate(t) == 1_000_000_000 * (t / SECOND);
  }

  lemma TimeAdmitted(o: Options, received: int)
    requires received != 0 && InTime(o, received)
    ensures LowerBound(o) != 0 ==> received >= Truncate(LowerBound(o))
    ensures UpperBound(o) != 0 ==> received <= UpperBound(o)
  {
    TruncateBelow(LowerBound(o));
  }

  /** Of the matching messages the server keeps back those received after the printed upper bound, and no others. */
  lemma MatchingAreAdmittedUpTo(m: Message, o: Options)
    requires m.received != 0 && Matches(m, o)
    ensures Admitted(m, o) <==> UpperBound(o) == 0 || m.received <= Truncate(UpperBound(o))
  {
    TimeAdmitted(o, m.received);
    TrimmedFromAsks(m, o);
  }

  /** With an upper bound in whole seconds it keeps none back. */
  lemma MatchingAreAdmitted(m: Message, o: Options)
    requires m.received != 0 && Matches(m, o) && WholeSeconds(UpperBound(o))
    ensures Admitted(m, o)
  {
    TimeAdmitted(o, m.received);
    TruncateBelow(UpperBound(o));
    MatchingAreAdmittedUpTo(m, o);
  }

  /** The last instant that the filter accepts, when there is an upper bound. */
  function LastInstant(o: Options): int {
    if o.before != 0 && UpperBound(o) == o.before then o.before - 1 else o.until
  }

  /** No instant is accepted that lies after the printed upper bound. */
  predicate LosesNothing(o: Options) {
    || UpperBound(o) == 0
    || LastInstant(o) <= Truncate(UpperBound(o))
    || (LowerBound(o) != 0 && LastInstant(o) < LowerBound(o))
  }

  /** What the filter says of a received time, in two bounds. */
  lemma LastInstantIsLast(o: Options, received: int)
    requires received != 0 && UpperBound(o) != 0
    ensures InTime(o, received) <==> (LowerBound(o) != 0 ==> received >= LowerBound(o)) && received <= LastInstant(o)
  {
  }

  /**
   The server keeps back no match exactly when the options lose nothing: for any message that the other
   conditions accept, whenever it may have been received.
   */
  lemma AdmissionIsCompleteIff(m: Message, o: Options)
    requires MatchesButTime(m, o)
    ensures (forall t :: t != 0 && InTime(o, t) ==> Admitted(m.(received := t), o)) <==> LosesNothing(o)
  {
    forall t | t != 0 && InTime(o, t)
      ensures Admitted(m.(received := t), o) <==> UpperBound(o) == 0 || t <= Truncate(UpperBound(o))
    {
      SameButTime(m, o, t);
      MatchingAreAdmittedUpTo(m.(received := t), o);
    }
    if UpperBound(o) != 0 {
      forall t | t != 0
        ensures InTime(o, t) <==> (LowerBound(o) != 0 ==> t >= LowerBound(o)) && t <= LastInstant(o)
      {
        LastInstantIsLast(o, t);
      }
      TruncateBelow(UpperBound(o));
      if !LosesNothing(o) {
        assert InTime(o, LastInstant(o));
      }
    }
  }

  lemma SameButTime(m: Message, o: Options, t: int)
    requires MatchesButTime(m, o)
    ensures MatchesButTime(m.(received := t), o)
  {
  }

  // ----- what the restriction lets through -----

  /** The received times that the server lets through. */
  predicate TimeLetThrough(o: Options, t: int) {
    (LowerBound(o) != 0 ==> t >= Truncate(LowerBound(o))) && (UpperBound(o) != 0 ==> t <= Truncate(UpperBound(o)))
  }

  /** The first of them when there is a lower bound, and the last when there is an upper one: time 0 is no time. */
  function FirstLetThrough(o: Options): int {
    if Truncate(LowerBound(o)) == 0 then 1 else Truncate(LowerBound(o))
  }

  function LastLetThrough(o: Options): int {
    if Truncate(UpperBound(o)) == 0 then -1 else Truncate(UpperBound(o))
  }

  /** The server lets no time through that the filter would not accept. */
  predicate AddsNothing(o: Options) {
    || (LowerBound(o) != 0 && UpperBound(o) != 0 && FirstLetThrough(o) > LastLetThrough(o))
    || ((LowerBound(o) != 0 ==> LowerBound(o) <= FirstLetThrough(o))
        && (UpperBound(o) != 0 ==> LastLetThrough(o) <= LastInstant(o)))
  }

  lemma TimesAreSoundIff(o: Options)
    ensures (forall t :: t != 0 && TimeLetThrough(o, t) ==> InTime(o, t)) <==> AddsNothing(o)
  {
    forall t | t != 0 && UpperBound(o) != 0
      ensures InTime(o, t) <==> (LowerBound(o) != 0 ==> t >= LowerBound(o)) && t <= LastInstant(o)
    {
      LastInstantIsLast(o, t);
    }
    var first, last := FirstLetThrough(o), LastLetThrough(o);
    TruncateBelow(LowerBound(o));
    if !AddsNothing(o) {
      var t := if LowerBound(o) != 0 && first < LowerBound(o) then first else last;
      assert t != 0 && TimeLetThrough(o, t) && !InTime(o, t);
    }
  }

  /**
   Where no client filter is needed, the server lets only matches through, whenever received, exactly when the
   options let it add nothing: for any message that the other conditions accept.
   */
  lemma AdmissionIsSoundIff(m: Message, o: Options)
    requires MatchesButTime(m, o) && BuildRestriction(o).Some?
    ensures (forall t :: t != 0 && Admitted(m.(received := t), o) ==> InTime(o, t)) <==> AddsNothing(o)
  {
    forall t
      ensures Admitted(m.(received := t), o) <==> TimeLetThrough(o, t)
    {
      SameButTime(m, o, t);
      TrimmedFromAsks(m.(received := t), o);
    }
    TimesAreSoundIff(o);
  }

  /** With bounds of a second or more: a lower bound in whole seconds, and no exclusive upper bound in whole seconds. */
  lemma AddsNothingMeans(o: Options)
    requires (LowerBound(o) != 0 ==> LowerBound(o) >= SECOND) && (UpperBound(o) != 0 ==> UpperBound(o) >= SECOND)
    ensures AddsNothing(o) <==>
            || (LowerBound(o) != 0 && UpperBound(o) != 0 && Truncate(LowerBound(o)) > Truncate(UpperBound(o)))
            || (WholeSeconds(LowerBound(o))
                && !(UpperBound(o) != 0 && UpperBound(o) == o.before && WholeSeconds(o.before)))
  {
    TruncateBelow(LowerBound(o));
    TruncateBelow(UpperBound(o));
  }

  /** Where no client filter is needed, the server's answer is right but for messages at an exclusive bound. */
  lemma AdmittedMatch(m: Message, o: Options)
    requires m.received != 0 && BuildRestriction(o).Some? && !NeedsClientFilter(o)
    requires WholeSeconds(LowerBound(o)) && WholeSeconds(UpperBound(o))
    ensures Matches(m, o) <==> Admitted(m, o) && !(o.before != 0 && m.received == o.before)
    ensures Admitted(m, o) && o.before != 0 && m.received == o.before ==> UpperBound(o) == o.before
  {
    TruncateBelow(UpperBound(o));
    TruncateBelow(LowerBound(o));
    TrimmedFromAsks(m, o);
  }

  /** An admitted message is a match as soon as its time is accepted. */
  lemma AdmittedMatchesIff(m: Message, o: Options)
    requires BuildRestriction(o).Some? && !NeedsClientFilter(o) && Admitted(m, o)
    ensures Matches(m, o) <==> InTime(o, m.received)
    ensures TimeLetThrough(o, m.received)
  {
    TrimmedFromAsks(m, o);
  }

  // ----- which fields are searched -----

  predicate Mentions(field: string, wanted: string) {
    Contains(Lower(field), Lower(TrimSpace(wanted)))
  }

  function Mentioning(wanted: string): string -> bool {
    field => Mentions(field, wanted)
  }

  predicate OneLine(wanted: string) {
    '\n' !in Lower(TrimSpace(wanted))
  }

  lemma LowerJoins(a: string, b: string)
    ensures Lower(a + "\n" + b) == Lower(a) + "\n" + Lower(b)
  {
  }

  lemma Across(a: string, b: string, p: string, i: nat)
    requires i <= |a| < i + |p| && OccursAt(a + "\n" + b, p, i)
    ensures '\n' in p
  {
    var s := a + "\n" + b;
    assert p[|a| - i] == s[i..i + |p|][|a| - i] == s[|a|];
  }

  lemma FoundInParts(a: string, b: string, p: string)
    requires Contains(a, p) || Contains(b, p)
    ensures Contains(a + "\n" + b, p)
  {
    var s, n := a + "\n" + b, |a| + 1;
    if Contains(a, p) {
      var i :| 0 <= i <= |a| && OccursAt(a, p, i);
      assert s[i..i + |p|] == a[i..i + |p|];
      assert OccursAt(s, p, i);
    } else {
      var i :| 0 <= i <= |b| && OccursAt(b, p, i);
      assert s[n + i..n + i + |p|] == b[i..i + |p|];
      assert OccursAt(s, p, n + i);
    }
  }

  lemma FoundInOnePart(a: string, b: string, p: string)
    requires '\n' !in p && Contains(a + "\n" + b, p)
    ensures Contains(a, p) || Contains(b, p)
  {
    var s, n := a + "\n" + b, |a| + 1;
    var i :| 0 <= i <= |s| && OccursAt(s, p, i);
    if i + |p| <= |a| {
      assert a[i..i + |p|] == s[i..i + |p|];
      assert OccursAt(a, p, i);
    } else if i >= n {
      assert b[i - n..i - n + |p|] == s[i..i + |p|];
      assert OccursAt(b, p, i - n);
    } else {
      Across(a, b, p, i);
    }
  }

  lemma JoinMentions(a: string, b: string, wanted: string)
    requires OneLine(wanted)
    ensures Mentions(a + "\n" + b, wanted) <==> Mentions(a, wanted) || Mentions(b, wanted)
  {
    var p := Lower(TrimSpace(wanted));
    LowerJoins(a, b);
    if Mentions(a + "\n" + b, wanted) {
      FoundInOnePart(Lower(a), Lower(b), p);
    }
    if Mentions(a, wanted) || Mentions(b, wanted) {
      FoundInParts(Lower(a), Lower(b), p);
    }
  }

  /** A text of one line is found in lines put together exactly when it is found in one of them. */
  lemma {:induction false} LinesMention(parts: seq<string>, wanted: string)
    requires parts != [] && OneLine(wanted)
    ensures Mentions(JoinLines(parts), wanted) <==> Any(parts, Mentioning(wanted))
    decreases |parts|
  {
    AnyFirst(parts, Mentioning(wanted));
    if |parts| > 1 {
      LinesMention(parts[1..], wanted);
      JoinMentions(parts[0], JoinLines(parts[1..]), wanted);
    }
  }

  predicate BoxMentions(box: Mailbox, wanted: string) {
    Mentions(box.name, wanted) || Mentions(box.email, wanted)
  }

  function BoxMentioning(wanted: string): Mailbox -> bool {
    box => BoxMentions(box, wanted)
  }

  lemma TwoMore<T>(a: T, b: T, rest: seq<T>, p: T -> bool)
    ensures Any([a, b] + rest, p) <==> p(a) || p(b) || Any(rest, p)
  {
    var all := [a, b] + rest;
    AnyFirst(all, p);
    AnyFirst(all[1..], p);
    assert all[1..][1..] == rest;
  }

  lemma {:induction false} NamesMention(boxes: seq<Mailbox>, wanted: string)
    ensures Any(Names(boxes), Mentioning(wanted)) <==> Any(boxes, BoxMentioning(wanted))
    decreases |boxes|
  {
    if boxes != [] {
      NamesMention(boxes[1..], wanted);
      TwoMore(boxes[0].name, boxes[0].email, Names(boxes[1..]), Mentioning(wanted));
      AnyFirst(boxes, BoxMentioning(wanted));
    }
  }

  const NOTHING_ASKED := Options("", "", "", "", 0, 0, 0, 0, None, None, None, 0)

  lemma SixMention(a: string, b: string, c: string, d: string, e: string, f: string, p: string -> bool)
    ensures Any([a, b, c, d, e, f], p) <==> p(a) || p(b) || p(c) || p(d) || p(e) || p(f)
  {
    TwoMore(a, b, [c, d, e, f], p);
    TwoMore(c, d, [e, f], p);
    TwoMore(e, f, [], p);
    assert [a, b] + [c, d, e, f] == [a, b, c, d, e, f] && [c, d] + [e, f] == [c, d, e, f] && [e, f] + [] == [e, f];
  }

  /** A search for a text looks at subject, body, the sender's name and address and the two display lines. */
  lemma TextIsFoundIff(m: Message, wanted: string)
    requires wanted != "" && OneLine(wanted)
    ensures Matches(m, NOTHING_ASKED.(text := wanted)) <==>
            || Mentions(m.subject, wanted) || Mentions(m.body, wanted) || Mentions(m.from.name, wanted)
            || Mentions(m.from.email, wanted) || Mentions(m.displayTo, wanted) || Mentions(m.displayCc, wanted)
  {
    LinesMention([m.subject, m.body, m.from.name, m.from.email, m.displayTo, m.displayCc], wanted);
    SixMention(m.subject, m.body, m.from.name, m.from.email, m.displayTo, m.displayCc, Mentioning(wanted));
  }

  /** A search by sender looks at the sender's name and address, one by recipient at those of all recipients. */
  lemma PeopleAreFoundIff(m: Message, wanted: string)
    requires wanted != "" && OneLine(wanted)
    ensures Matches(m, NOTHING_ASKED.(from := wanted)) <==> BoxMentions(m.from, wanted)
    ensures m.to + m.cc != [] ==>
              (Matches(m, NOTHING_ASKED.(to := wanted)) <==> Any(m.to + m.cc, BoxMentioning(wanted)))
    ensures Matches(m, NOTHING_ASKED.(subject := wanted)) <==> Mentions(m.subject, wanted)
  {
    JoinMentions(m.from.name, m.from.email, wanted);
    if m.to + m.cc != [] {
      LinesMention(Names(m.to + m.cc), wanted);
      NamesMention(m.to + m.cc, wanted);
    }
  }

  /** Flags and times are compared one by one; a message without a time is neither late nor early enough. */
  lemma FlagsAndTimesAreFoundIff(m: Message, b: bool, t: int)
    requires t != 0
    ensures Matches(m, NOTHING_ASKED.(isRead := Some(b))) <==> m.isRead == b
    ensures Matches(m, NOTHING_ASKED.(hasAttachment := Some(b))) <==> m.hasAttachments == b
    ensures Matches(m, NOTHING_ASKED.(isFlagged := Some(b))) <==> (Lower(TrimSpace(m.flagStatus)) == "flagged") == b
    ensures Matches(m, NOTHING_ASKED.(after := t)) <==> m.received != 0 && m.received >= t
    ensures Matches(m, NOTHING_ASKED.(since := t)) <==> m.received != 0 && m.received >= t
    ensures Matches(m, NOTHING_ASKED.(before := t)) <==> m.received == 0 || m.received < t
    ensures Matches(m, NOTHING_ASKED.(until := t)) <==> m.received == 0 || m.received <= t
  {
  }

  /** And a search asks for all of its conditions. */
  lemma TimesEach(o: Options, t: int)
    ensures InTime(o, t) <==>
            && InTime(NOTHING_ASKED.(after := o.after), t) && InTime(NOTHING_ASKED.(before := o.before), t)
            && InTime(NOTHING_ASKED.(since := o.since), t) && InTime(NOTHING_ASKED.(until := o.until), t)
  {
  }

  lemma MatchesEach(m: Message, o: Options)
    ensures Matches(m, o) <==>
            && Matches(m, NOTHING_ASKED.(text := o.text)) && Matches(m, NOTHING_ASKED.(subject := o.subject))
            && Matches(m, NOTHING_ASKED.(from := o.from)) && Matches(m, NOTHING_ASKED.(to := o.to))
            && Matches(m, NOTHING_ASKED.(after := o.after)) && Matches(m, NOTHING_ASKED.(before := o.before))
            && Matches(m, NOTHING_ASKED.(since := o.since)) && Matches(m, NOTHING_ASKED.(until := o.until))
            && Matches(m, NOTHING_ASKED.(hasAttachment := o.hasAttachment))
            && Matches(m, NOTHING_ASKED.(isRead := o.isRead)) && Matches(m, NOTHING_ASKED.(isFlagged := o.isFlagged))
  {
    TimesEach(o, m.received);
  }

  // ----- a message for any options -----

  lemma {:induction false} JoinContains(parts: seq<string>, k: nat)
    requires k < |parts|
    ensures Contains(JoinLines(parts), parts[k])
    decreases |parts|
  {
    var s := JoinLines(parts);
    if k == 0 {
      assert s[0..0 + |parts[0]|] == parts[0];
      assert OccursAt(s, parts[0], 0);
    } else {
      var rest, n := JoinLines(parts[1..]), |parts[0]| + 1;
      JoinContains(parts[1..], k - 1);
      var i :| 0 <= i <= |rest| && OccursAt(rest, parts[k], i);
      assert s == (parts[0] + "\n") + rest;
      assert s[n + i..n + i + |parts[k]|] == rest[i..i + |parts[k]|];
      assert OccursAt(s, parts[k], n + i);
    }
  }

  lemma LowerContains(s: string, part: string)
    requires Contains(s, part)
    ensures Contains(Lower(s), Lower(part))
  {
    var i :| 0 <= i <= |s| && OccursAt(s, part, i);
    forall k | 0 <= k < |part|
      ensures Lower(s)[i..i + |part|][k] == Lower(part)[k]
    {
      assert s[i..i + |part|][k] == s[i + k];
    }
    assert Lower(s)[i..i + |part|] == Lower(part);
    assert OccursAt(Lower(s), Lower(part), i);
  }

  lemma JoinAsks(parts: seq<string>, k: nat, wanted: string)
    requires k < |parts| && parts[k] == TrimSpace(wanted)
    ensures Asks(JoinLines(parts), wanted)
  {
    JoinContains(parts, k);
    LowerContains(JoinLines(parts), parts[k]);
  }

  function BoolOr(wanted: Option<bool>): bool {
    if wanted.None? then false else wanted.value
  }

  /** A message with everything that the options ask for but a time. */
  function Suited(o: Options, id: string): Message {
    Message(id, TrimSpace(o.subject), TrimSpace(o.text), Mailbox(TrimSpace(o.from), ""), [Mailbox(TrimSpace(o.to), "")],
            [], "", "", BoolOr(o.isRead), BoolOr(o.hasAttachment), if BoolOr(o.isFlagged) then "flagged" else "", 0)
  }

  lemma FlagWords()
    ensures Lower(TrimSpace("flagged")) == "flagged" && Lower(TrimSpace("")) == ""
  {
    assert SpaceAt("flagged", 0) == 0 && SpaceBeforeEnd("flagged") == 0;
  }

  lemma SuitedMatches(o: Options, id: string)
    ensures MatchesButTime(Suited(o, id), o)
  {
    var m := Suited(o, id);
    FlagWords();
    JoinAsks([m.subject, m.body, m.from.name, m.from.email, m.displayTo, m.displayCc], 1, o.text);
    JoinAsks([m.subject], 0, o.subject);
    JoinAsks([m.from.name, m.from.email], 0, o.from);
    assert JoinLines([m.from.email]) == m.from.email && [m.from.name, m.from.email][1..] == [m.from.email];
    SuitedNames(o, id);
  }

  lemma SuitedNames(o: Options, id: string)
    ensures var m := Suited(o, id); Asks(JoinLines(Names(m.to + m.cc)), o.to)
  {
    var box := Mailbox(TrimSpace(o.to), "");
    assert Names([]) == [];
    assert Names([box]) == [box.name, box.email] + Names([]) == [box.name, box.email];
    assert [box] + [] == [box];
    JoinAsks([box.name, box.email], 0, o.to);
  }
}

/** The paging loop. The mailbox does not change while it is searched, and the server keeps to the page contract. */
module ExchangeSearch {
  import opened Text
  import opened ExchangeFilter
  import opened Order

  datatype ServerPage = ServerPage(ids: seq<string>, nextOffset: int, last: bool)

  /** The ids in each folder, in the server's order, and the messages behind them. */
  datatype Mail = Mail(folders: seq<seq<string>>, messages: map<string, Message>)

  /** The server's ids have no white space around them. */
  predicate Clean(id: string) {
    id != "" && TrimSpace(id) == id
  }

  predicate Sound(mail: Mail) {
    && (forall id :: id in mail.messages ==> mail.messages[id].id == id)
    && (forall id {:trigger Clean(id)} :: id in mail.messages ==> Clean(id))
    && (forall f :: 0 <= f < |mail.folders| ==> forall id :: id in mail.folders[f] ==> id in mail.messages)
  }

  /** The part of a folder that a restriction leaves. */
  function View(mail: Mail, ids: seq<string>, o: Options): (view: seq<string>)
    requires forall id :: id in ids ==> id in mail.messages
    ensures forall id :: id in view <==> id in ids && Admitted(mail.messages[id], o)
  {
    if ids == [] then []
    else (if Admitted(mail.messages[ids[0]], o) then [ids[0]] else []) + View(mail, ids[1..], o)
  }

  /** A page of a view: some items from the offset on, none only at the end, and whether it reaches the end. */
  predicate Honours(page: ServerPage, view: seq<string>, offset: nat) {
    var k := |page.ids|;
    && (k == 0 <==> offset >= |view|)
    && (k > 0 ==>
          && offset + k <= |view| && page.ids == view[offset..offset + k]
          && (page.last <==> offset + k == |view|)
          && (page.nextOffset <= offset || page.nextOffset == offset + k))
  }

  /** GetMessages returns the message of each id, in order. */
  predicate Fetched(messages: seq<Message>, mail: Mail, ids: seq<string>) {
    && |messages| == |ids|
    && forall i :: 0 <= i < |ids| ==> ids[i] in mail.messages && messages[i] == mail.messages[ids[i]]
  }

  predicate UsesRestriction(o: Options) {
    BuildRestriction(o).Some?
  }

  /** Whether the search looks at a message itself, or takes whatever the server returns. */
  predicate Checks(o: Options) {
    if UsesRestriction(o) then NeedsClientFilter(o) else NeedsMessageFilter(o)
  }

  /** The ids of a folder that a complete search would take. */
  function Taken(mail: Mail, o: Options, f: nat): set<string>
    requires Sound(mail) && f < |mail.folders|
  {
    set id | id in mail.folders[f] && (UsesRestriction(o) ==> Admitted(mail.messages[id], o))
             && (Checks(o) ==> Matches(mail.messages[id], o))
  }

  function Kept(ids: seq<string>, taken: set<string>): set<string> {
    set id | id in ids && id in taken
  }

  lemma KeptOneMore(ids: seq<string>, i: nat, taken: set<string>)
    requires i < |ids|
    ensures Kept(ids[..i + 1], taken) == Kept(ids[..i], taken) + if ids[i] in taken then {ids[i]} else {}
    ensures Kept(ids[..i + 1], taken) <= Kept(ids, taken)
  {
    assert ids[..i + 1] == ids[..i] + [ids[i]];
  }

  lemma KeptOfParts(ids: seq<string>, more: seq<string>, taken: set<string>)
    ensures Kept(ids + more, taken) == Kept(ids, taken) + Kept(more, taken)
  {
  }

  /** Some of these ids have been added, as far as they are to be taken: all of them unless that would be too many. */
  ghost predicate Collected(found: set<string>, before: set<string>, ids: seq<string>, taken: set<string>, max: nat) {
    && before <= found && found <= before + Kept(ids, taken) && |found| <= max
    && (|found| < max ==> found == before + Kept(ids, taken))
  }

  lemma CollectedMore(found: set<string>, between: set<string>, before: set<string>, view: seq<string>, offset: nat,
                      k: nat, ids: seq<string>, taken: set<string>, max: nat)
    requires offset <= k <= |view| && |between| < max && ids == view[offset..k]
    requires Collected(between, before, view[..offset], taken, max) && Collected(found, between, ids, taken, max)
    ensures Collected(found, before, view[..k], taken, max)
  {
    assert view[..k] == view[..offset] + view[offset..k];
    KeptOfParts(view[..offset], ids, taken);
  }

  /** What ends the search of a folder: there are enough results, or these were its last items. */
  lemma CollectedRest(found: set<string>, before: set<string>, view: seq<string>, offset: nat, end: nat,
                      ids: seq<string>, taken: set<string>, max: nat)
    requires offset <= end <= |view| && ids == view[offset..end] && Collected(found, before, ids, taken, max)
    requires |found| == max || end == |view|
    ensures Collected(found, before, view[offset..], taken, max)
  {
    assert view[offset..] == ids + view[end..];
    KeptOfParts(ids, view[end..], taken);
    if end == |view| {
      assert Kept(view[end..], taken) == {};
    }
  }

  lemma CollectedNone(before: set<string>, view: seq<string>, offset: nat, taken: set<string>, max: nat)
    requires offset == |view| && |before| <= max
    ensures Collected(before, before, view[offset..], taken, max)
  {
    assert Kept(view[offset..], taken) == {};
  }

  method CollectIds(before: set<string>, ids: seq<string>, ghost taken: set<string>, max: nat)
    returns (found: set<string>)
    requires |before| < max && forall id :: id in ids ==> Clean(id) && id in taken
    ensures Collected(found, before, ids, taken, max)
  {
    found := before;
    for i := 0 to |ids|
      invariant found == before + Kept(ids[..i], taken) && |found| < max
    {
      assert ids[i] in ids && Clean(ids[i]);
      KeptOneMore(ids, i, taken);
      var clean := TrimSpace(ids[i]);
      if clean != "" {
        found := found + {clean};
      }
      if |found| >= max {
        return;
      }
    }
    assert ids[..|ids|] == ids;
  }

  /** One message of a page: it is added if it matches. */
  method CollectMatch(found: set<string>, message: Message, o: Options, ghost before: set<string>, ghost ids: seq<string>,
                      ghost i: nat, ghost taken: set<string>)
    returns (more: set<string>)
    requires i < |ids| && message.id == ids[i] && (ids[i] in taken <==> Matches(message, o))
    requires found == before + Kept(ids[..i], taken)
    ensures more == before + Kept(ids[..i + 1], taken) && more <= before + Kept(ids, taken) && |more| <= |found| + 1
  {
    KeptOneMore(ids, i, taken);
    more := found;
    var matched := MatchMessage(message, o);
    if matched {
      more := found + {message.id};
    }
  }

  method CollectMatches(before: set<string>, messages: seq<Message>, o: Options, ghost mail: Mail, ghost ids: seq<string>,
                        ghost taken: set<string>, max: nat)
    returns (found: set<string>)
    requires |before| < max && Sound(mail) && Fetched(messages, mail, ids)
    requires forall id :: id in ids ==> (id in taken <==> Matches(mail.messages[id], o))
    ensures Collected(found, before, ids, taken, max)
  {
    found := before;
    for i := 0 to |messages|
      invariant found == before + Kept(ids[..i], taken) && |found| < max
    {
      assert ids[i] in ids && messages[i].id == ids[i];
      found := CollectMatch(found, messages[i], o, before, ids, i, taken);
      if |found| >= max {
        return;
      }
    }
    assert ids[..|ids|] == ids;
  }

  /** The server: a page of a folder at an offset, restricted or not, and messages by id; a call may fail. */
  datatype Server = Server(
    find: (nat, nat) -> Option<ServerPage>,
    fetch: seq<string> -> Option<seq<Message>>)

  ghost predicate Serves(server: Server, mail: Mail, o: Options) {
    && Sound(mail)
    && (forall f: nat, offset: nat :: f < |mail.folders| && server.find(f, offset).Some? ==>
          Honours(server.find(f, offset).value, Source(mail, o, f), offset))
    && (forall ids :: server.fetch(ids).Some? && (forall id :: id in ids ==> id in mail.messages) ==>
          Fetched(server.fetch(ids).value, mail, ids))
  }

  /** The server answers every call about the folders and messages that there are. */
  ghost predicate AllAnswered(server: Server, mail: Mail) {
    && (forall f: nat, offset: nat :: f < |mail.folders| ==> server.find(f, offset).Some?)
    && (forall ids :: (forall id :: id in ids ==> id in mail.messages) ==> server.fetch(ids).Some?)
  }

  /** What the server pages through for these options. */
  function Source(mail: Mail, o: Options, f: nat): seq<string>
    requires Sound(mail) && f < |mail.folders|
  {
    if UsesRestriction(o) then View(mail, mail.folders[f], o) else mail.folders[f]
  }

  /** One page of results, looked at or not; None if the messages cannot be fetched. */
  method TakePage(server: Server, ghost mail: Mail, o: Options, ghost f: nat, before: set<string>, ids: seq<string>,
                  max: nat)
    returns (found: Option<set<string>>)
    requires Serves(server, mail, o) && f < |mail.folders| && |before| < max
    requires forall id :: id in ids ==> id in Source(mail, o, f)
    ensures found.Some? ==> Collected(found.value, before, ids, Taken(mail, o, f), max)
    ensures AllAnswered(server, mail) ==> found.Some?
  {
    ghost var taken := Taken(mail, o, f);
    if !Checks(o) {
      var all := CollectIds(before, ids, taken, max);
      return Some(all);
    }
    var messages := server.fetch(ids);
    if messages.None? {
      return None;
    }
    var some := CollectMatches(before, messages.value, o, mail, ids, taken, max);
    found := Some(some);
  }

  /** What is to be done with the page of a folder that starts at an offset. */
  datatype Paged = Failed | Over(found: set<string>) | Next(found: set<string>, offset: nat)

  /** The view has been searched from the offset on: to its end, or as far as there were enough results, or a bit. */
  ghost predicate Advances(paged: Paged, before: set<string>, view: seq<string>, offset: nat, taken: set<string>, max: nat)
    requires offset <= |view|
  {
    match paged
    case Failed => true
    case Over(found) => Collected(found, before, view[offset..], taken, max)
    case Next(found, next) =>
      offset < next <= |view| && |found| < max && Collected(found, before, view[offset..next], taken, max)
  }

  lemma PageEndsSearch(page: ServerPage, found: set<string>, before: set<string>, view: seq<string>, offset: nat,
                       taken: set<string>, max: nat)
    requires offset < |view| && Honours(page, view, offset) && Collected(found, before, page.ids, taken, max)
    requires |found| >= max || page.last
    ensures Advances(Over(found), before, view, offset, taken, max)
  {
    CollectedRest(found, before, view, offset, offset + |page.ids|, page.ids, taken, max);
  }

  lemma PageGoesOn(page: ServerPage, found: set<string>, before: set<string>, view: seq<string>, offset: nat,
                   taken: set<string>, max: nat)
    requires offset < |view| && Honours(page, view, offset) && Collected(found, before, page.ids, taken, max)
    requires |found| < max
    ensures Advances(Next(found, offset + |page.ids|), before, view, offset, taken, max)
  {
  }

  /** What follows in the loop once a page has been taken. */
  method GoOn(page: ServerPage, found: set<string>, ghost before: set<string>, ghost view: seq<string>, offset: nat,
              ghost taken: set<string>, max: nat)
    returns (paged: Paged)
    requires offset < |view| && Honours(page, view, offset) && Collected(found, before, page.ids, taken, max)
    ensures !paged.Failed? && Advances(paged, before, view, offset, taken, max)
  {
    if |found| >= max || page.last {
      PageEndsSearch(page, found, before, view, offset, taken, max);
      return Over(found);
    }
    PageGoesOn(page, found, before, view, offset, taken, max);
    var nextOffset := page.nextOffset;
    if nextOffset <= offset {
      nextOffset := offset + |page.ids|;
    }
    paged := Next(found, nextOffset);
  }

  /** FindMessagesRestricted and what follows it in the loop. */
  method SearchPage(server: Server, ghost mail: Mail, o: Options, f: nat, before: set<string>, offset: nat, max: nat)
    returns (paged: Paged)
    requires Serves(server, mail, o) && f < |mail.folders| && |before| < max
    requires offset <= |Source(mail, o, f)|
    ensures Advances(paged, before, Source(mail, o, f), offset, Taken(mail, o, f), max)
    ensures AllAnswered(server, mail) ==> !paged.Failed?
  {
    var reply := server.find(f, offset);
    if reply.None? {
      return Failed;
    }
    var page := reply.value;
    ghost var view := Source(mail, o, f);
    assert Honours(page, view, offset);
    if |page.ids| == 0 {
      CollectedNone(before, view, offset, Taken(mail, o, f), max);
      return Over(before);
    }
    var more := TakePage(server, mail, o, f, before, page.ids, max);
    if more.None? {
      return Failed;
    }
    paged := GoOn(page, more.value, before, view, offset, Taken(mail, o, f), max);
  }

  /** The pages of one folder from offset 0 on, until there are enough results. */
  method SearchFolder(server: Server, ghost mail: Mail, o: Options, f: nat, before: set<string>, max: nat)
    returns (found: Option<set<string>>)
    requires Serves(server, mail, o) && f < |mail.folders| && |before| < max
    ensures found.Some? ==> Collected(found.value, before, Source(mail, o, f), Taken(mail, o, f), max)
    ensures AllAnswered(server, mail) ==> found.Some?
  {
    ghost var view, taken := Source(mail, o, f), Taken(mail, o, f);
    var all, offset: nat := before, 0;
    while |all| < max
      invariant offset <= |view| && Collected(all, before, view[..offset], taken, max) && |all| < max
      decreases |view| - offset
    {
      var paged := SearchPage(server, mail, o, f, all, offset, max);
      match paged {
        case Failed =>
          return None;
        case Over(more) =>
          CollectedMore(more, all, before, view, offset, |view|, view[offset..], taken, max);
          assert view[..|view|] == view;
          return Some(more);
        case Next(more, next) =>
          CollectedMore(more, all, before, view, offset, next, view[offset..next], taken, max);
          all, offset := more, next;
      }
    }
    assert false;
  }

  function Limit(o: Options): (max: nat)
    ensures max > 0
  {
    if o.maxResults <= 0 then 100 else o.maxResults
  }

  /** What is looked through in a folder: all that the server has for the restriction, else its first page. */
  function Searched(server: Server, mail: Mail, o: Options, f: nat): seq<string>
    requires Sound(mail) && f < |mail.folders|
  {
    if UsesRestriction(o) then Source(mail, o, f)
    else match server.find(f, 0)
         case None => []
         case Some(page) => page.ids
  }

  function Wanted(server: Server, mail: Mail, o: Options, f: nat): set<string>
    requires Sound(mail) && f < |mail.folders|
  {
    Kept(Searched(server, mail, o, f), Taken(mail, o, f))
  }

  function WantedUpTo(server: Server, mail: Mail, o: Options, n: nat): set<string>
    requires Sound(mail) && n <= |mail.folders|
  {
    if n == 0 then {} else WantedUpTo(server, mail, o, n - 1) + Wanted(server, mail, o, n - 1)
  }

  lemma {:induction false} WantedEach(server: Server, mail: Mail, o: Options, n: nat, f: nat)
    requires Sound(mail) && f < n <= |mail.folders|
    ensures Wanted(server, mail, o, f) <= WantedUpTo(server, mail, o, n)
  {
    if f < n - 1 {
      WantedEach(server, mail, o, n - 1, f);
    }
  }

  lemma {:induction false} WantedSomewhere(server: Server, mail: Mail, o: Options, n: nat, id: string)
    requires Sound(mail) && n <= |mail.folders| && id in WantedUpTo(server, mail, o, n)
    ensures exists f :: 0 <= f < n && id in Wanted(server, mail, o, f)
  {
    if id !in Wanted(server, mail, o, n - 1) {
      WantedSomewhere(server, mail, o, n - 1, id);
    }
  }

  /** What a search returns. */
  ghost predicate Listing(ids: seq<string>, server: Server, mail: Mail, o: Options)
    requires Sound(mail)
  {
    && Ascending(ids) && |ids| <= Limit(o)
    && (forall id :: id in ids ==> exists f :: 0 <= f < |mail.folders| && id in Wanted(server, mail, o, f))
    && (|ids| < Limit(o) ==>
          forall f :: 0 <= f < |mail.folders| ==> forall id :: id in Wanted(server, mail, o, f) ==> id in ids)
  }

  /** sortedMessageIDs at any of the returns: `n` folders have been looked through, or there are enough results. */
  method Results(found: set<string>, ghost server: Server, ghost mail: Mail, ghost o: Options, ghost n: nat)
    returns (ids: seq<string>)
    requires Sound(mail) && n <= |mail.folders| && found <= WantedUpTo(server, mail, o, n) && |found| <= Limit(o)
    requires |found| < Limit(o) ==> n == |mail.folders| && WantedUpTo(server, mail, o, n) <= found
    ensures Listing(ids, server, mail, o)
  {
    ids := SortedIds(found);
    forall id | id in ids
      ensures exists f :: 0 <= f < |mail.folders| && id in Wanted(server, mail, o, f)
    {
      WantedSomewhere(server, mail, o, n, id);
    }
    if |found| < Limit(o) {
      forall f | 0 <= f < |mail.folders|
        ensures forall id :: id in Wanted(server, mail, o, f) ==> id in ids
      {
        WantedEach(server, mail, o, n, f);
      }
    }
  }

  /** One folder of ListMessages. */
  method SearchOne(server: Server, ghost mail: Mail, o: Options, f: nat, before: set<string>, max: nat)
    returns (found: Option<set<string>>)
    requires Serves(server, mail, o) && f < |mail.folders| && |before| < max
    ensures found.Some? ==> Collected(found.value, before, Searched(server, mail, o, f), Taken(mail, o, f), max)
    ensures AllAnswered(server, mail) ==> found.Some?
  {
    if UsesRestriction(o) {
      found := SearchFolder(server, mail, o, f, before, max);
      return;
    }
    var page := server.find(f, 0);
    if page.None? {
      return None;
    }
    if |page.value.ids| == 0 {
      return Some(before);
    }
    found := TakePage(server, mail, o, f, before, page.value.ids, max);
  }

  method SearchNext(server: Server, ghost mail: Mail, o: Options, f: nat, before: set<string>, max: nat)
    returns (found: Option<set<string>>)
    requires Serves(server, mail, o) && f < |mail.folders| && |before| < max
    requires before == WantedUpTo(server, mail, o, f)
    ensures found.Some? ==> found.value <= WantedUpTo(server, mail, o, f + 1) && |found.value| <= max
    ensures found.Some? && |found.value| < max ==> found.value == WantedUpTo(server, mail, o, f + 1)
    ensures AllAnswered(server, mail) ==> found.Some?
  {
    found := SearchOne(server, mail, o, f, before, max);
  }

  method ListMessages(server: Server, ghost mail: Mail, o: Options, folders: nat) returns (result: Option<seq<string>>)
    requires Serves(server, mail, o) && folders == |mail.folders|
    ensures result.Some? ==> Listing(result.value, server, mail, o)
    ensures result.Some? ==>
              var n, max := |result.value|, if o.maxResults > 0 then o.maxResults else 100;
              && n <= max
              && (n < max ==>
                    forall f :: 0 <= f < folders ==> forall id :: id in Wanted(server, mail, o, f) ==> id in result.value)
    ensures AllAnswered(server, mail) ==> result.Some?
  {
    var max := Limit(o);
    var found: set<string> := {};
    for f := 0 to folders
      invariant found == WantedUpTo(server, mail, o, f) && |found| < max
    {
      var more := SearchNext(server, mail, o, f, found, max);
      if more.None? {
        return None;
      }
      found := more.value;
      if |found| >= max {
        var ids := Results(found, server, mail, o, f + 1);
        return Some(ids);
      }
    }
    var ids := Results(found, server, mail, o, folders);
    result := Some(ids);
  }

  // ----- what a search finds -----

  /** Below the limit a search returns exactly what it has come across and is to take. */
  lemma FoundIff(ids: seq<string>, server: Server, mail: Mail, o: Options, id: string)
    requires Sound(mail) && Listing(ids, server, mail, o) && |ids| < Limit(o)
    ensures id in ids <==>
            exists f :: 0 <= f < |mail.folders| && id in Searched(server, mail, o, f) && id in Taken(mail, o, f)
  {
    if id in ids {
      var f :| 0 <= f < |mail.folders| && id in Wanted(server, mail, o, f);
      assert id in Searched(server, mail, o, f) && id in Taken(mail, o, f);
    }
    if f :| 0 <= f < |mail.folders| && id in Searched(server, mail, o, f) && id in Taken(mail, o, f) {
      assert id in Wanted(server, mail, o, f);
    }
  }

  /** Below the limit, a search with a restriction that loses nothing has found every matching message. */
  lemma MissesNothing(ids: seq<string>, server: Server, mail: Mail, o: Options, f: nat, id: string)
    requires Sound(mail) && Listing(ids, server, mail, o) && |ids| < Limit(o)
    requires UsesRestriction(o) && LosesNothing(o)
    requires f < |mail.folders| && id in mail.folders[f]
    requires mail.messages[id].received != 0 && Matches(mail.messages[id], o)
    ensures id in ids
  {
    var m := mail.messages[id];
    AdmissionIsCompleteIff(m, o);
    assert m.(received := m.received) == m;
    assert id in Wanted(server, mail, o, f);
  }

  predicate OnFirstPage(server: Server, f: nat, id: string) {
    server.find(f, 0).Some? && id in server.find(f, 0).value.ids
  }

  /** Without a restriction a match is found, below the limit, exactly when it is on the first page of some folder. */
  lemma FoundIffOnFirstPage(ids: seq<string>, server: Server, mail: Mail, o: Options, id: string)
    requires Serves(server, mail, o) && Listing(ids, server, mail, o) && |ids| < Limit(o) && !UsesRestriction(o)
    requires id in mail.messages && Matches(mail.messages[id], o)
    ensures id in ids <==> exists f :: 0 <= f < |mail.folders| && OnFirstPage(server, f, id)
  {
    FoundIff(ids, server, mail, o, id);
    if id in ids {
      var f :| 0 <= f < |mail.folders| && id in Searched(server, mail, o, f) && id in Taken(mail, o, f);
      assert OnFirstPage(server, f, id);
    }
    if f :| 0 <= f < |mail.folders| && OnFirstPage(server, f, id) {
      assert Honours(server.find(f, 0).value, Source(mail, o, f), 0);
      assert id in mail.folders[f];
      assert id in Searched(server, mail, o, f) && id in Taken(mail, o, f);
    }
  }

  /** So first pages are enough for a folder that fits on its own. */
  lemma FirstPageIsEnough(ids: seq<string>, server: Server, mail: Mail, o: Options, f: nat, id: string)
    requires Serves(server, mail, o) && Listing(ids, server, mail, o) && |ids| < Limit(o) && !UsesRestriction(o)
    requires f < |mail.folders| && server.find(f, 0).Some? && id in mail.folders[f]
    requires server.find(f, 0).value.last && Matches(mail.messages[id], o)
    ensures id in ids
  {
    var page, view := server.find(f, 0).value, mail.folders[f];
    assert Honours(page, view, 0);
    assert view[0..|view|] == view;
    assert OnFirstPage(server, f, id);
    FoundIffOnFirstPage(ids, server, mail, o, id);
  }

  /** And whatever the limit, it returns only matching messages when it looks at them or the restriction adds nothing. */
  lemma ReturnsMatches(ids: seq<string>, server: Server, mail: Mail, o: Options, id: string)
    requires Serves(server, mail, o) && Listing(ids, server, mail, o) && id in ids
    ensures id in mail.messages
    ensures Checks(o) || !NeedsMessageFilter(o) ==> Matches(mail.messages[id], o)
    ensures var m := mail.messages[id];
            !Checks(o) && m.received != 0 && AddsNothing(o) ==> Matches(m, o)
  {
    var f :| 0 <= f < |mail.folders| && id in Wanted(server, mail, o, f);
    var m := mail.messages[id];
    if UsesRestriction(o) && !Checks(o) && m.received != 0 && AddsNothing(o) {
      AdmittedMatchesIff(m, o);
      TimesAreSoundIff(o);
    }
  }

  // ----- mailboxes on which a search goes wrong -----

  function PageOf(view: seq<string>, offset: nat, size: nat): (page: ServerPage)
    requires size > 0
    ensures Honours(page, view, offset)
  {
    if offset >= |view| then ServerPage([], 0, true) else
      var end := if offset + size < |view| then offset + size else |view|;
      ServerPage(view[offset..end], end, end == |view|)
  }

  const BLANK := Message("", "", "", Mailbox("", ""), [], [], "", "", false, false, "", 0)

  function MessageOf(mail: Mail, id: string): Message {
    if id in mail.messages then mail.messages[id] else BLANK
  }

  /** A server that gives pages of this size and answers every call. */
  function PagingServer(mail: Mail, o: Options, size: nat): Server
    requires Sound(mail) && size > 0
  {
    Server((f: nat, offset: nat) => if f < |mail.folders| then Some(PageOf(Source(mail, o, f), offset, size)) else None,
           ids => Some(seq(|ids|, i requires 0 <= i < |ids| => MessageOf(mail, ids[i]))))
  }

  lemma PagingServerServes(mail: Mail, o: Options, size: nat)
    requires Sound(mail) && size > 0
    ensures var server := PagingServer(mail, o, size); Serves(server, mail, o) && AllAnswered(server, mail)
  {
  }

  lemma CleanIds()
    ensures Clean("a") && Clean("b")
  {
    assert SpaceAt("a", 0) == 0 && SpaceBeforeEnd("a") == 0;
    assert SpaceAt("b", 0) == 0 && SpaceBeforeEnd("b") == 0;
  }

  /** A mailbox of one folder with two messages. */
  function Two(a: Message, b: Message): Mail {
    Mail([[a.id, b.id]], map[a.id := a, b.id := b])
  }

  lemma TwoIsSound(a: Message, b: Message)
    requires Clean(a.id) && Clean(b.id) && a.id != b.id
    ensures Sound(Two(a, b)) && b.id in Two(a, b).folders[0]
  {
    assert Two(a, b).folders[0][1] == b.id;
  }

  lemma NothingWanted(o: Options, miss: Message, hit: Message)
    requires !UsesRestriction(o) && Checks(o) && !Matches(miss, o)
    requires Sound(Two(miss, hit)) && miss.id != hit.id
    ensures Wanted(PagingServer(Two(miss, hit), o, 1), Two(miss, hit), o, 0) == {}
  {
    var mail := Two(miss, hit);
    assert mail.folders[0][0..1] == [miss.id];
    assert Searched(PagingServer(mail, o, 1), mail, o, 0) == [miss.id];
  }

  lemma EmptyOrNot(ids: seq<string>)
    ensures ids == [] || exists id :: id in ids
  {
    if ids != [] {
      assert ids[0] in ids;
    }
  }

  lemma NothingListed(ids: seq<string>, server: Server, mail: Mail, o: Options)
    requires Sound(mail) && Listing(ids, server, mail, o)
    requires forall f :: 0 <= f < |mail.folders| ==> Wanted(server, mail, o, f) == {}
    ensures ids == []
  {
    EmptyOrNot(ids);
  }

  /**
   Without a restriction a match on the second page is missed, whatever the limit, by every search of such a mailbox
   that looks at messages.
   */
  lemma SecondPageIsMissed(o: Options, miss: Message, hit: Message)
    requires !UsesRestriction(o) && Checks(o) && Clean(miss.id) && Clean(hit.id) && miss.id != hit.id
    requires Matches(hit, o) && !Matches(miss, o)
    ensures var mail := Two(miss, hit);
            && Sound(mail) && hit.id in mail.folders[0]
            && var server := PagingServer(mail, o, 1);
               && Serves(server, mail, o) && AllAnswered(server, mail)
               && forall ids :: Listing(ids, server, mail, o) ==> ids == []
  {
    TwoIsSound(miss, hit);
    var mail := Two(miss, hit);
    var server := PagingServer(mail, o, 1);
    PagingServerServes(mail, o, 1);
    NothingWanted(o, miss, hit);
    forall ids | Listing(ids, server, mail, o)
      ensures ids == []
    {
      NothingListed(ids, server, mail, o);
    }
  }

  /** For one, a search for one unread message, whose first page of one message holds a message that has been read. */
  lemma UnreadMailIsMissed() returns (o: Options, server: Server, mail: Mail, id: string)
    ensures Serves(server, mail, o) && AllAnswered(server, mail) && !UsesRestriction(o) && Limit(o) == 1
    ensures |mail.folders| == 1 && id in mail.folders[0] && Matches(mail.messages[id], o)
    ensures forall ids :: Listing(ids, server, mail, o) ==> ids == []
  {
    o := Options("", "", "", "", 0, 0, 0, 0, None, Some(false), None, 1);
    var miss, hit := Suited(o, "a").(isRead := true), Suited(o, "b");
    CleanIds();
    SuitedMatches(o, "b");
    SecondPageIsMissed(o, miss, hit);
    mail, id := Two(miss, hit), "b";
    server := PagingServer(mail, o, 1);
  }

  /** A mailbox of one message. */
  function One(m: Message): Mail {
    Mail([[m.id]], map[m.id := m])
  }

  lemma OneIsListed(o: Options, m: Message)
    requires UsesRestriction(o) && Clean(m.id) && Admitted(m, o) && (Checks(o) ==> Matches(m, o))
    ensures Sound(One(m)) && Listing([m.id], PagingServer(One(m), o, 1), One(m), o)
  {
    var mail := One(m);
    assert Sound(mail);
    assert mail.folders[0] == [m.id] && mail.folders[0][1..] == [];
    assert Source(mail, o, 0) == [m.id] + View(mail, [], o) == [m.id];
    assert Wanted(PagingServer(mail, o, 1), mail, o, 0) == {m.id};
  }

  lemma NoneIsListed(o: Options, m: Message)
    requires UsesRestriction(o) && Clean(m.id) && !Admitted(m, o)
    ensures Sound(One(m)) && Listing([], PagingServer(One(m), o, 1), One(m), o)
  {
    var mail := One(m);
    assert Sound(mail);
    assert mail.folders[0] == [m.id] && mail.folders[0][1..] == [];
    assert Source(mail, o, 0) == [] + View(mail, [], o) == [];
  }

  ghost predicate ReturnsOnlyMatches(o: Options) {
    forall server, mail, ids, id {:trigger Listing(ids, server, mail, o), MessageOf(mail, id)} ::
      Serves(server, mail, o) && Listing(ids, server, mail, o) && id in ids && MessageOf(mail, id).received != 0 ==>
        Matches(MessageOf(mail, id), o)
  }

  /** A search that trusts the server returns only matches exactly when the restriction adds nothing. */
  lemma SearchIsSoundIff(o: Options)
    requires UsesRestriction(o) && !NeedsClientFilter(o)
    ensures ReturnsOnlyMatches(o) <==> AddsNothing(o)
  {
    if AddsNothing(o) {
      forall server, mail, ids, id | Serves(server, mail, o) && Listing(ids, server, mail, o) && id in ids
                                     && MessageOf(mail, id).received != 0
        ensures Matches(MessageOf(mail, id), o)
      {
        ReturnsMatches(ids, server, mail, o, id);
      }
    } else {
      SuitedMatches(o, "a");
      AdmissionIsSoundIff(Suited(o, "a"), o);
      var t :| t != 0 && Admitted(Suited(o, "a").(received := t), o) && !InTime(o, t);
      WrongTimeIsReturned(o, Suited(o, "a").(received := t));
    }
  }

  lemma WrongTimeIsReturned(o: Options, m: Message)
    requires UsesRestriction(o) && !NeedsClientFilter(o) && m.id == "a" && m.received != 0
    requires Admitted(m, o) && !InTime(o, m.received)
    ensures !ReturnsOnlyMatches(o)
  {
    CleanIds();
    OneIsListed(o, m);
    PagingServerServes(One(m), o, 1);
    assert MessageOf(One(m), "a") == m && "a" in ["a"];
  }

  ghost predicate FindsAllMatches(o: Options) {
    forall server, mail, ids, f, id {:trigger Listing(ids, server, mail, o), InFolder(mail, f, id)} ::
      (Serves(server, mail, o) && Listing(ids, server, mail, o) && |ids| < Limit(o) && InFolder(mail, f, id)
       && MessageOf(mail, id).received != 0 && Matches(MessageOf(mail, id), o)) ==>
        id in ids
  }

  predicate InFolder(mail: Mail, f: nat, id: string) {
    f < |mail.folders| && id in mail.folders[f]
  }

  /** A search with a restriction finds every match, below the limit, exactly when the options lose nothing. */
  lemma SearchIsCompleteIff(o: Options)
    requires UsesRestriction(o)
    ensures FindsAllMatches(o) <==> LosesNothing(o)
  {
    if LosesNothing(o) {
      forall server, mail, ids, f: nat, id |
        Serves(server, mail, o) && Listing(ids, server, mail, o) && |ids| < Limit(o) && InFolder(mail, f, id)
        && MessageOf(mail, id).received != 0 && Matches(MessageOf(mail, id), o)
        ensures id in ids
      {
        MissesNothing(ids, server, mail, o, f, id);
      }
    } else {
      SuitedMatches(o, "a");
      AdmissionIsCompleteIff(Suited(o, "a"), o);
      var t :| t != 0 && InTime(o, t) && !Admitted(Suited(o, "a").(received := t), o);
      SameButTime(Suited(o, "a"), o, t);
      LateMatchIsMissed(o, Suited(o, "a").(received := t));
    }
  }

  lemma LateMatchIsMissed(o: Options, m: Message)
    requires UsesRestriction(o) && m.id == "a" && m.received != 0 && Matches(m, o) && !Admitted(m, o)
    ensures !FindsAllMatches(o)
  {
    CleanIds();
    NoneIsListed(o, m);
    PagingServerServes(One(m), o, 1);
    assert InFolder(One(m), 0, "a") && MessageOf(One(m), "a") == m;
  }
}
