/**
 The latest-value broadcast of the hotword manager (internal/hotwordtrain/manager.go): a publisher that
 holds the manager's lock walks over the subscribers and sends to each with three non-blocking channel
 operations, while subscribers receive whenever they like. Every channel operation is one step here,
 so a receive can fall between any two of them. The statuses are numbered in the order of publication;
 status 0 is the one the manager starts with.
 */
module StatusBroadcast {
  import Machine

  const CAPACITY := 1

  /** `got` is what the subscriber has received, oldest first. */
  datatype Chan = Chan(buffer: seq<nat>, got: seq<nat>, open: bool) {
    function Stream(): seq<nat> { got + buffer }
  }

  /** The three select statements of sendLatestStatus. */
  datatype Point = TrySend | TakeStale | SendAgain

  datatype Lock = Free | Publishing(todo: set<nat>) | Sending(todo: set<nat>, id: nat, at: Point)

  /**
   `lost` counts the publications given up in the last select; `panics` counts sends on a closed channel
   and closings of a closed one.
   */
  datatype State = State(chans: map<nat, Chan>, subs: set<nat>, latest: nat, lock: Lock, lost: nat, panics: nat)

  datatype Action =
    | Publish              // take the lock and set the new status
    | Pick(id: nat)        // go to the next subscriber, in any order
    | Send                 // the next select statement for the picked subscriber
    | Unlock
    | Receive(id: nat)     // by the subscriber
    | Subscribe(id: nat)   // takes the lock for its whole duration
    | Unsubscribe(id: nat) // likewise

  const INIT := State(map[], {}, 0, Free, 0, 0)

  predicate Enabled(s: State, a: Action) {
    match a
    case Publish => s.lock.Free?
    case Pick(id) => s.lock.Publishing? && id in s.lock.todo
    case Send => s.lock.Sending? && s.lock.id in s.chans
    case Unlock => s.lock.Publishing? && s.lock.todo == {}
    case Receive(id) => id in s.chans && s.chans[id].buffer != []
    case Subscribe(id) => s.lock.Free? && id !in s.chans
    case Unsubscribe(id) => s.lock.Free? && id in s.subs && id in s.chans
  }

  function Put(s: State, id: nat): State
    requires id in s.chans && |s.chans[id].buffer| < CAPACITY
  {
    var ch := s.chans[id];
    s.(chans := s.chans[id := ch.(buffer := ch.buffer + [s.latest])],
       panics := if ch.open then s.panics else s.panics + 1)
  }

  function SendStep(s: State): State
    requires Enabled(s, Send)
  {
    var id, ch, todo := s.lock.id, s.chans[s.lock.id], s.lock.todo;
    match s.lock.at
    case TrySend =>
      if |ch.buffer| < CAPACITY then Put(s, id).(lock := Publishing(todo))
      else s.(lock := Sending(todo, id, TakeStale))
    case TakeStale =>
      var chans := if ch.buffer == [] then s.chans else s.chans[id := ch.(buffer := ch.buffer[1..])];
      s.(chans := chans, lock := Sending(todo, id, SendAgain))
    case SendAgain =>
      if |ch.buffer| < CAPACITY then Put(s, id).(lock := Publishing(todo))
      else s.(lost := s.lost + 1, lock := Publishing(todo))
  }

  function Step(s: State, a: Action): State
    requires Enabled(s, a)
  {
    match a
    case Publish => s.(latest := s.latest + 1, lock := Publishing(s.subs))
    case Pick(id) => s.(lock := Sending(s.lock.todo - {id}, id, TrySend))
    case Send => SendStep(s)
    case Unlock => s.(lock := Free)
    case Receive(id) =>
      var ch := s.chans[id];
      s.(chans := s.chans[id := ch.(buffer := ch.buffer[1..], got := ch.got + [ch.buffer[0]])])
    case Subscribe(id) => s.(chans := s.chans[id := Chan([s.latest], [], true)], subs := s.subs + {id})
    case Unsubscribe(id) =>
      var ch := s.chans[id];
      s.(chans := s.chans[id := ch.(open := false)], subs := s.subs - {id},
         panics := if ch.open then s.panics else s.panics + 1)
  }

  predicate Next(s: State, a: Action, t: State) {
    Enabled(s, a) && t == Step(s, a)
  }

  ghost predicate Run(actions: seq<Action>, s: State) {
    Machine.Run(INIT, Next, actions, s)
  }

  predicate Increasing(vs: seq<nat>) {
    forall i, j :: 0 <= i < j < |vs| ==> vs[i] < vs[j]
  }

  /** v is the last status that was put into the channel and not taken out again by the publisher. */
  predicate EndsWith(ch: Chan, v: int) {
    ch.Stream() != [] && ch.Stream()[|ch.Stream()| - 1] == v
  }

  predicate Below(vs: seq<nat>, bound: int) {
    forall i :: 0 <= i < |vs| ==> vs[i] < bound
  }

  predicate GoodChan(ch: Chan, latest: nat) {
    |ch.buffer| <= CAPACITY && Increasing(ch.Stream()) && Below(ch.Stream(), latest + 1)
  }

  /** What holds of a subscriber's channel depending on how far the publisher has come. */
  predicate Served(ch: Chan, id: nat, latest: nat, lock: Lock) {
    && ch.open
    && match lock
       case Free => EndsWith(ch, latest)
       case Publishing(todo) => EndsWith(ch, if id in todo then latest - 1 else latest)
       case Sending(todo, current, at) =>
         if id != current then EndsWith(ch, if id in todo then latest - 1 else latest)
         else if at == SendAgain then ch.buffer == [] && Below(ch.Stream(), latest)
         else EndsWith(ch, latest - 1)
  }

  ghost predicate Inv(s: State) {
    && s.lost == 0 && s.panics == 0
    && (forall id :: id in s.chans ==> GoodChan(s.chans[id], s.latest))
    && (forall id :: id in s.subs ==> id in s.chans && Served(s.chans[id], id, s.latest, s.lock))
    && (s.lock.Publishing? ==> s.lock.todo <= s.subs)
    && (s.lock.Sending? ==> s.lock.todo <= s.subs && s.lock.id in s.subs && s.lock.id !in s.lock.todo)
  }

  lemma PutServes(ch: Chan, latest: nat)
    requires GoodChan(ch, latest) && |ch.buffer| < CAPACITY && Below(ch.Stream(), latest)
    ensures var ch' := ch.(buffer := ch.buffer + [latest]); GoodChan(ch', latest) && EndsWith(ch', latest)
  {
    assert ch.(buffer := ch.buffer + [latest]).Stream() == ch.Stream() + [latest];
  }

  lemma TakeKeeps(ch: Chan, latest: nat)
    requires GoodChan(ch, latest) && ch.buffer != [] && EndsWith(ch, latest - 1)
    ensures var ch' := ch.(buffer := ch.buffer[1..]);
            GoodChan(ch', latest) && ch'.buffer == [] && Below(ch'.Stream(), latest)
  {
    var ch' := ch.(buffer := ch.buffer[1..]);
    assert ch'.Stream() == ch.Stream()[..|ch.got|];
  }

  lemma EndsBelow(ch: Chan, latest: nat)
    requires GoodChan(ch, latest) && EndsWith(ch, latest - 1)
    ensures Below(ch.Stream(), latest)
  {
    var vs := ch.Stream();
    forall i | 0 <= i < |vs|
      ensures vs[i] < latest
    {
      assert i < |vs| - 1 ==> vs[i] < vs[|vs| - 1];
    }
  }

  /** Receiving moves the buffered status to the subscriber; the stream is the same. */
  lemma ReceiveKeepsStream(ch: Chan)
    requires ch.buffer != []
    ensures ch.(buffer := ch.buffer[1..], got := ch.got + [ch.buffer[0]]).Stream() == ch.Stream()
  {
    assert ch.buffer == [ch.buffer[0]] + ch.buffer[1..];
  }

  predicate ChanInv(s: State, id: nat) {
    (id in s.chans ==> GoodChan(s.chans[id], s.latest))
    && (id in s.subs ==> id in s.chans && Served(s.chans[id], id, s.latest, s.lock))
  }

  lemma SentChanKeepsInv(s: State)
    requires Inv(s) && Enabled(s, Send)
    ensures ChanInv(SendStep(s), s.lock.id)
    ensures SendStep(s).lost == 0 && SendStep(s).panics == 0
  {
    var ch := s.chans[s.lock.id];
    if s.lock.at == SendAgain {
      PutServes(ch, s.latest);
    } else {
      EndsBelow(ch, s.latest);
      if s.lock.at == TakeStale {
        if ch.buffer != [] {
          TakeKeeps(ch, s.latest);
        }
      } else if |ch.buffer| < CAPACITY {
        PutServes(ch, s.latest);
      }
    }
  }

  lemma SendKeepsInv(s: State)
    requires Inv(s) && Enabled(s, Send)
    ensures Inv(SendStep(s))
  {
    var t := SendStep(s);
    SentChanKeepsInv(s);
    forall id | id in t.chans
      ensures ChanInv(t, id)
    {
      if id != s.lock.id {
        assert ChanInv(s, id) && t.chans[id] == s.chans[id];
      }
    }
  }

  lemma PublishKeepsInv(s: State)
    requires Inv(s) && Enabled(s, Publish)
    ensures Inv(Step(s, Publish))
  {
    var t := Step(s, Publish);
    forall id | id in t.chans
      ensures ChanInv(t, id)
    {
      assert ChanInv(s, id);
    }
  }

  lemma ReceiveKeepsInv(s: State, id: nat)
    requires Inv(s) && Enabled(s, Receive(id))
    ensures Inv(Step(s, Receive(id)))
  {
    var t := Step(s, Receive(id));
    ReceiveKeepsStream(s.chans[id]);
    forall other | other in t.chans
      ensures ChanInv(t, other)
    {
      assert ChanInv(s, other);
      if other != id {
        assert t.chans[other] == s.chans[other];
      }
    }
  }

  lemma StepKeepsInv(s: State, a: Action)
    requires Inv(s) && Enabled(s, a)
    ensures Inv(Step(s, a))
  {
    match a
    case Publish => PublishKeepsInv(s);
    case Send => SendKeepsInv(s);
    case Receive(id) => ReceiveKeepsInv(s, id);
    case Unsubscribe(id) =>
      var ch := s.chans[id];
      assert ch.(open := false).Stream() == ch.Stream();
    case _ =>
  }

  lemma RunKeepsInv(actions: seq<Action>, s: State)
    requires Run(actions, s)
    ensures Inv(s)
  {
    forall s, a, t | Inv(s) && Next(s, a, t)
      ensures Inv(t)
    {
      StepKeepsInv(s, a);
    }
    Machine.RunKeeps(INIT, Next, x => Inv(x), actions, s);
  }

  // ----- what subscribers can rely on -----

  /** In every interleaving a subscriber receives statuses in the order of publication, none of them twice. */
  lemma ReceivedInOrder(actions: seq<Action>, s: State, id: nat)
    requires Run(actions, s) && id in s.chans
    ensures Increasing(s.chans[id].got) && Below(s.chans[id].got, s.latest + 1)
    ensures |s.chans[id].buffer| <= CAPACITY
  {
    RunKeepsInv(actions, s);
    var ch := s.chans[id];
    assert forall i :: 0 <= i < |ch.got| ==> ch.got[i] == ch.Stream()[i];
  }

  /** The default of the last select is never taken, and no channel is used after it has been closed. */
  lemma NoStatusGivenUp(actions: seq<Action>, s: State)
    requires Run(actions, s)
    ensures s.lost == 0 && s.panics == 0
  {
    RunKeepsInv(actions, s);
  }

  /** Somebody has subscribed with this id and not unsubscribed since. */
  ghost predicate Subscribed(actions: seq<Action>, id: nat) {
    Machine.Since(actions, Subscribe(id), Unsubscribe(id))
  }

  predicate Listens(s: State, id: nat) {
    id in s.subs && id in s.chans && s.chans[id].open
  }

  predicate IsGone(s: State, id: nat) {
    id !in s.subs && (id in s.chans ==> !s.chans[id].open)
  }

  lemma StepSubscribes(s: State, a: Action, id: nat)
    requires Enabled(s, a) && (Listens(s, id) || IsGone(s, id))
    ensures var t := Step(s, a);
            if a == Subscribe(id) || (a != Unsubscribe(id) && Listens(s, id)) then Listens(t, id) else IsGone(t, id)
  {
  }

  /** The channels that are open and served are those of the subscribers. */
  lemma {:induction false} SubscribersAre(actions: seq<Action>, s: State, id: nat)
    requires Run(actions, s)
    ensures if Subscribed(actions, id) then Listens(s, id) else IsGone(s, id)
    decreases |actions|
  {
    if actions != [] {
      var n := |actions| - 1;
      var before := Machine.LastAction(INIT, Next, actions, s);
      SubscribersAre(actions[..n], before, id);
      Machine.SinceOneMore(actions[..n], actions[n], Subscribe(id), Unsubscribe(id));
      StepSubscribes(before, actions[n], id);
    }
  }

  /** A subscription begins with Subscribe and nothing but its Unsubscribe ends it; its channel is open till then. */
  lemma OnlyUnsubscribeEnds(actions: seq<Action>, s: State, a: Action, id: nat)
    requires Run(actions, s) && Enabled(s, a)
    ensures var chans := Step(s, a).chans;
            var begun, goesOn := a == Subscribe(id), a != Unsubscribe(id) && id in s.chans && s.chans[id].open;
            id in chans && chans[id].open <==> begun || goesOn
    ensures Subscribed(actions, id) <==> id in s.chans && s.chans[id].open
  {
    SubscribersAre(actions, s, id);
    StepSubscribes(s, a, id);
  }

  lemma StepPublishes(s: State, a: Action, id: nat)
    requires Enabled(s, a)
    ensures Step(s, a).latest == s.latest + (if a == Publish then 1 else 0)
    ensures var t := Step(s, a);
            Received(t, id) == Received(s, id) + (if a == Receive(id) then 1 else 0)
  {
  }

  function Received(s: State, id: nat): nat {
    if id in s.chans then |s.chans[id].got| else 0
  }

  /** The latest status is the number of publications, and a subscriber has received as often as it tried. */
  lemma {:induction false} LatestIsCounted(actions: seq<Action>, s: State, id: nat)
    requires Run(actions, s)
    ensures s.latest == Machine.Times(actions, Publish) && Received(s, id) == Machine.Times(actions, Receive(id))
    decreases |actions|
  {
    if actions != [] {
      var n := |actions| - 1;
      var before := Machine.LastAction(INIT, Next, actions, s);
      LatestIsCounted(actions[..n], before, id);
      StepPublishes(before, actions[n], id);
      Machine.TimesOneMore(actions[..n], actions[n], Publish);
      Machine.TimesOneMore(actions[..n], actions[n], Receive(id));
    }
  }

  /** Whenever no publication is under way, each subscriber has the latest status or finds it in its channel. */
  lemma LatestIsThere(actions: seq<Action>, s: State, id: nat)
    requires Run(actions, s) && s.lock.Free? && Subscribed(actions, id)
    ensures id in s.chans && s.latest == Machine.Times(actions, Publish)
    ensures var ch := s.chans[id];
            if ch.buffer == [] then ch.got != [] && ch.got[|ch.got| - 1] == s.latest else ch.buffer == [s.latest]
  {
    RunKeepsInv(actions, s);
    SubscribersAre(actions, s, id);
    LatestIsCounted(actions, s, id);
    var ch := s.chans[id];
    assert Served(ch, id, s.latest, s.lock);
    if ch.buffer == [] {
      assert ch.Stream() == ch.got;
    }
  }

  /** Once unsubscribed, a channel gets nothing more: what is left in it is all there is to receive. */
  lemma ClosedChannelIsLeftAlone(actions: seq<Action>, s: State, a: Action, id: nat)
    requires Run(actions, s) && Enabled(s, a) && id in s.chans && !s.chans[id].open
    ensures id in Step(s, a).chans && !Step(s, a).chans[id].open
    ensures Step(s, a).chans[id].Stream() == s.chans[id].Stream()
  {
    RunKeepsInv(actions, s);
    if a.Receive? && a.id == id {
      ReceiveKeepsStream(s.chans[id]);
    }
  }

  predicate ByPublisher(a: Action) {
    a.Pick? || a.Send? || a.Unlock?
  }

  /** An upper bound on the channel operations a publication has before it, whatever the subscribers do. */
  function Work(lock: Lock): nat {
    match lock
    case Free => 0
    case Publishing(todo) => 1 + 4 * |todo|
    case Sending(todo, _, at) => 1 + 4 * |todo| + (match at case TrySend => 3 case TakeStale => 2 case SendAgain => 1)
  }

  /** A publisher never waits for a subscriber: its next step is always possible, and every one brings it nearer. */
  lemma PublisherNeverWaits(actions: seq<Action>, s: State)
    requires Run(actions, s) && !s.lock.Free?
    ensures exists a :: ByPublisher(a) && Enabled(s, a)
    ensures forall a :: ByPublisher(a) && Enabled(s, a) ==> Work(Step(s, a).lock) < Work(s.lock)
    ensures forall a :: !ByPublisher(a) && Enabled(s, a) ==> Work(Step(s, a).lock) == Work(s.lock)
  {
    RunKeepsInv(actions, s);
    if s.lock.Sending? {
      assert ByPublisher(Send) && Enabled(s, Send);
    } else if s.lock.todo == {} {
      assert ByPublisher(Unlock) && Enabled(s, Unlock);
    } else {
      var id :| id in s.lock.todo;
      assert ByPublisher(Pick(id)) && Enabled(s, Pick(id));
    }
  }
}
