/** internal/realtime/hub.go: events for every subscriber, dropped for those whose
    channel is full. Publishes share the read lock, so their sends may interleave;
    subscribing and cancelling take the write lock. */
module Hub {
  import opened Basics

  datatype Event = Event(kind: string, data: string, at: string)

  /** A buffered Go channel with its history: `accepted` is every event it took, with the
      number of the publish it came from, `taken` what its reader has received, `lost` the
      publishes whose event it had no room for. */
  datatype Channel = Channel(
    queue: seq<Event>,
    closed: bool,
    accepted: seq<(nat, Event)>,
    taken: seq<Event>,
    lost: set<nat>)

  /** A call of `Publish` that holds the read lock, and the subscribers still to come. */
  datatype Open = Open(event: Event, left: set<Id>)

  /** `sent` is the event of every publish, in the order in which they got the lock; a publish
      is numbered by its place there. Sending on a closed channel or closing one twice
      panics. */
  datatype State = State(
    buffer: nat,
    channels: map<Id, Channel>,
    subscribers: set<Id>,
    open: map<nat, Open>,
    sent: seq<Event>,
    panicked: bool)

  function Init(buffer: nat): State { State(buffer, map[], {}, map[], [], false) }

  function Stamped(event: Event, now: string): Event { if event.at == "" then event.(at := now) else event }

  /** An event without a time gets the current one; one with a time is sent as it is. */
  lemma StampedMeans(event: Event, now: string)
    ensures event.at != "" ==> Stamped(event, now) == event
    ensures event.at == "" ==> Stamped(event, now) == Event(event.kind, event.data, now)
  {
  }

  /** The send of a `select` with a default: takes the event if there is room. */
  function Offer(ch: Channel, buffer: nat, n: nat, event: Event): Channel {
    if |ch.queue| < buffer then ch.(queue := ch.queue + [event], accepted := ch.accepted + [(n, event)])
    else ch.(lost := ch.lost + {n})
  }

  function TakeOne(ch: Channel): Channel
    requires ch.queue != []
  {
    ch.(queue := ch.queue[1..], taken := ch.taken + [ch.queue[0]])
  }

  // ---------- steps ----------

  datatype Step =
    | BeginPublish(event: Event, now: string)
    | Send(n: nat, ch: Id)
    | EndPublish(n: nat)
    | Receive(ch: Id)
    | Subscribe(ch: Id)
    | Cancel(ch: Id)

  predicate Enabled(s: State, step: Step) {
    match step
    case BeginPublish(_, _) => true
    case Send(n, ch) => n in s.open && ch in s.open[n].left && ch in s.channels
    case EndPublish(n) => n in s.open && s.open[n].left == {}
    case Receive(ch) => ch in s.channels && s.channels[ch].queue != []
    case Subscribe(ch) => s.open == map[] && ch !in s.channels
    case Cancel(ch) => s.open == map[] && ch in s.channels
  }

  function Next(s: State, step: Step): State
    requires Enabled(s, step)
  {
    match step
    case BeginPublish(event, now) =>
      var stamped := Stamped(event, now);
      s.(open := s.open[|s.sent| := Open(stamped, s.subscribers)], sent := s.sent + [stamped])
    case Send(n, ch) =>
      if s.channels[ch].closed then s.(panicked := true)
      else
        s.(channels := s.channels[ch := Offer(s.channels[ch], s.buffer, n, s.open[n].event)],
           open := s.open[n := s.open[n].(left := s.open[n].left - {ch})])
    case EndPublish(n) => s.(open := s.open - {n})
    case Receive(ch) => s.(channels := s.channels[ch := TakeOne(s.channels[ch])])
    case Subscribe(ch) =>
      s.(channels := s.channels[ch := Channel([], false, [], [], {})], subscribers := s.subscribers + {ch})
    case Cancel(ch) =>
      if ch !in s.subscribers then s
      else if s.channels[ch].closed then s.(panicked := true)
      else s.(channels := s.channels[ch := s.channels[ch].(closed := true)], subscribers := s.subscribers - {ch})
  }

  predicate CanRun(s: State, steps: seq<Step>)
    decreases |steps|, 0
  {
    steps == [] || (CanRun(s, steps[..|steps| - 1]) && Enabled(After(s, steps[..|steps| - 1]), steps[|steps| - 1]))
  }

  function After(s: State, steps: seq<Step>): State
    requires CanRun(s, steps)
    decreases |steps|, 1
  {
    if steps == [] then s else Next(After(s, steps[..|steps| - 1]), steps[|steps| - 1])
  }

  lemma RunOneMore(s: State, steps: seq<Step>, step: Step)
    requires CanRun(s, steps) && Enabled(After(s, steps), step)
    ensures CanRun(s, steps + [step]) && After(s, steps + [step]) == Next(After(s, steps), step)
  {
    assert (steps + [step])[..|steps|] == steps;
  }

  // ---------- what every run keeps ----------

  function Events(accepted: seq<(nat, Event)>): seq<Event> {
    seq(|accepted|, i requires 0 <= i < |accepted| => accepted[i].1)
  }

  predicate Took(ch: Channel, n: nat) { exists i :: 0 <= i < |ch.accepted| && ch.accepted[i].0 == n }

  /** What was accepted under a publish's number is the event of that publish. */
  predicate EventsOk(ch: Channel, sent: seq<Event>) {
    forall i | 0 <= i < |ch.accepted| :: ch.accepted[i].0 < |sent| && ch.accepted[i].1 == sent[ch.accepted[i].0]
  }

  /** Received and queued events are exactly the accepted ones, in order, each the event
      published under its number; no publish is accepted twice, or both accepted and lost;
      the buffer is never exceeded. */
  ghost predicate ChannelOk(ch: Channel, buffer: nat, sent: seq<Event>) {
    && |ch.queue| <= buffer
    && ch.taken + ch.queue == Events(ch.accepted)
    && (forall i, j :: 0 <= i < j < |ch.accepted| ==> ch.accepted[i].0 != ch.accepted[j].0)
    && EventsOk(ch, sent)
    && (forall n: nat | Took(ch, n) :: n < |sent| && n !in ch.lost)
    && (forall n | n in ch.lost :: n < |sent|)
  }

  /** A publish under way has been offered to exactly the subscribers it has passed. */
  ghost predicate OpenOk(s: State, n: nat)
    requires n in s.open
  {
    && n < |s.sent| && s.open[n].event == s.sent[n]
    && s.open[n].left <= s.subscribers <= s.channels.Keys
    && forall ch | ch in s.subscribers ::
         ch in s.open[n].left <==> !Took(s.channels[ch], n) && n !in s.channels[ch].lost
  }

  ghost predicate Inv(s: State) {
    && !s.panicked
    && s.subscribers <= s.channels.Keys
    && (forall ch | ch in s.channels :: ch in s.subscribers <==> !s.channels[ch].closed)
    && (forall ch | ch in s.channels :: ChannelOk(s.channels[ch], s.buffer, s.sent))
    && (forall n | n in s.open :: OpenOk(s, n))
  }

  lemma OfferTakes(ch: Channel, buffer: nat, n: nat, event: Event)
    ensures forall m :: Took(Offer(ch, buffer, n, event), m) <==> Took(ch, m) || (m == n && |ch.queue| < buffer)
  {
    var ch' := Offer(ch, buffer, n, event);
    forall m
      ensures Took(ch', m) <==> Took(ch, m) || (m == n && |ch.queue| < buffer)
    {
      if Took(ch, m) {
        var i :| 0 <= i < |ch.accepted| && ch.accepted[i].0 == m;
        assert ch'.accepted[i].0 == m;
      }
      if |ch.queue| < buffer {
        assert ch'.accepted[|ch.accepted|].0 == n;
      }
    }
  }

  lemma OfferKeepsChannel(ch: Channel, buffer: nat, sent: seq<Event>, n: nat)
    requires ChannelOk(ch, buffer, sent) && n < |sent| && !Took(ch, n) && n !in ch.lost
    ensures ChannelOk(Offer(ch, buffer, n, sent[n]), buffer, sent)
  {
    OfferTakes(ch, buffer, n, sent[n]);
    var ch' := Offer(ch, buffer, n, sent[n]);
    if |ch.queue| < buffer {
      assert Events(ch'.accepted) == Events(ch.accepted) + [sent[n]];
      assert ch'.taken + ch'.queue == (ch.taken + ch.queue) + [sent[n]];
    }
  }

  lemma KeptBySend(s: State, step: Step)
    requires Inv(s) && Enabled(s, step) && step.Send?
    ensures Inv(Next(s, step))
  {
    hide ChannelOk, Took, Offer;
    var n, id, event := step.n, step.ch, s.open[step.n].event;
    assert OpenOk(s, n);
    OfferTakes(s.channels[id], s.buffer, n, event);
    OfferLoses(s.channels[id], s.buffer, n, event);
    OfferKeepsChannel(s.channels[id], s.buffer, s.sent, n);
    var s' := Next(s, step);
    forall m | m in s'.open
      ensures OpenOk(s', m)
    {
      assert OpenOk(s, m);
    }
  }

  lemma OfferLoses(ch: Channel, buffer: nat, n: nat, event: Event)
    ensures var ch' := Offer(ch, buffer, n, event);
      && ch'.closed == ch.closed && ch'.taken == ch.taken
      && ch'.lost == if |ch.queue| < buffer then ch.lost else ch.lost + {n}
  {
  }

  lemma TakeKeepsChannel(ch: Channel, buffer: nat, sent: seq<Event>)
    requires ChannelOk(ch, buffer, sent) && ch.queue != []
    ensures ChannelOk(TakeOne(ch), buffer, sent)
  {
    assert TakeOne(ch).taken + TakeOne(ch).queue == ch.taken + ch.queue;
    assert forall n :: Took(TakeOne(ch), n) <==> Took(ch, n);
  }

  lemma KeptByReceive(s: State, step: Step)
    requires Inv(s) && Enabled(s, step) && step.Receive?
    ensures Inv(Next(s, step))
  {
    hide ChannelOk;
    TakeKeepsChannel(s.channels[step.ch], s.buffer, s.sent);
    var s' := Next(s, step);
    forall m | m in s'.open
      ensures OpenOk(s', m)
    {
      assert OpenOk(s, m);
    }
  }

  lemma KeptByPublish(s: State, step: Step)
    requires Inv(s) && Enabled(s, step) && (step.BeginPublish? || step.EndPublish?)
    ensures Inv(Next(s, step))
  {
    hide Took;
    var s' := Next(s, step);
    forall m | m in s'.open
      ensures OpenOk(s', m)
    {
      assert m in s.open ==> OpenOk(s, m);
    }
  }

  lemma KeptBySubscription(s: State, step: Step)
    requires Inv(s) && Enabled(s, step) && (step.Subscribe? || step.Cancel?)
    ensures Inv(Next(s, step))
  {
    var s' := Next(s, step);
    forall ch | ch in s'.channels
      ensures ChannelOk(s'.channels[ch], s'.buffer, s'.sent)
    {
      if ch in s.channels {
        assert ChannelOk(s.channels[ch], s.buffer, s.sent);
        assert forall n :: Took(s'.channels[ch], n) <==> Took(s.channels[ch], n);
      }
    }
  }

  lemma StepKeepsInv(s: State, step: Step)
    requires Inv(s) && Enabled(s, step)
    ensures Inv(Next(s, step))
  {
    hide Inv, Next;
    match step
    case Send(_, _) => KeptBySend(s, step);
    case Receive(_) => KeptByReceive(s, step);
    case BeginPublish(_, _) => KeptByPublish(s, step);
    case EndPublish(_) => KeptByPublish(s, step);
    case _ => KeptBySubscription(s, step);
  }

  /** However publishes, readers, subscriptions and cancellations are interleaved: nothing
      panics, so no send ever reaches a closed channel; the subscribers are exactly the
      open channels; every channel is in order. */
  lemma {:induction false} RunKeepsInv(s: State, steps: seq<Step>)
    requires Inv(s) && CanRun(s, steps)
    ensures Inv(After(s, steps))
  {
    if steps != [] {
      hide Inv, Enabled, Next;
      RunKeepsInv(s, steps[..|steps| - 1]);
      StepKeepsInv(After(s, steps[..|steps| - 1]), steps[|steps| - 1]);
    }
  }

  /** What a reader has received is a prefix, without gaps, of what its channel took, and
      the rest is still queued. */
  lemma ReadsInOrder(s: State, id: Id)
    requires Inv(s) && id in s.channels
    ensures var ch := s.channels[id];
      && |ch.taken| + |ch.queue| == |ch.accepted|
      && (forall i | 0 <= i < |ch.taken| :: ch.taken[i] == ch.accepted[i].1)
      && (forall i | 0 <= i < |ch.queue| :: ch.queue[i] == ch.accepted[|ch.taken| + i].1)
  {
    hide EventsOk, OpenOk;
    var ch := s.channels[id];
    assert ChannelOk(ch, s.buffer, s.sent);
    var all := ch.taken + ch.queue;
    assert |all| == |Events(ch.accepted)|;
    assert forall i | 0 <= i < |ch.taken| :: all[i] == ch.taken[i];
    assert forall i | 0 <= i < |ch.queue| :: all[|ch.taken| + i] == ch.queue[i];
  }

  /** When a publish gives the lock back, it has been offered to every subscriber: each
      has taken the event or lost it, never both. */
  lemma PublishReachesAll(s: State, n: nat)
    requires Inv(s) && Enabled(s, EndPublish(n))
    ensures forall id | id in s.subscribers :: Took(s.channels[id], n) <==> n !in s.channels[id].lost
  {
    hide Took;
    assert OpenOk(s, n);
    forall id | id in s.subscribers
      ensures Took(s.channels[id], n) <==> n !in s.channels[id].lost
    {
      assert ChannelOk(s.channels[id], s.buffer, s.sent);
    }
  }

  /** A channel that took a publish took the very event that was published, the same for
      every subscriber. */
  lemma TookItsEvent(s: State, id: Id, n: nat)
    requires Inv(s) && id in s.channels && n < |s.sent|
    ensures Took(s.channels[id], n) <==> (n, s.sent[n]) in s.channels[id].accepted
  {
    var accepted := s.channels[id].accepted;
    assert ChannelOk(s.channels[id], s.buffer, s.sent);
    if Took(s.channels[id], n) {
      var i :| 0 <= i < |accepted| && accepted[i].0 == n;
      assert accepted[i] == (n, s.sent[n]);
    }
    if (n, s.sent[n]) in accepted {
      var i :| 0 <= i < |accepted| && accepted[i] == (n, s.sent[n]);
      assert accepted[i].0 == n;
    }
  }

  // ---------- exactly which events are lost ----------

  /** The `k`-th step offers publish `n` to the channel while its queue is full, or while
      it is not. */
  ghost predicate Offered(s: State, steps: seq<Step>, k: nat, n: nat, id: Id, full: bool)
    requires CanRun(s, steps) && k < |steps|
  {
    RunPrefix(s, steps, k);
    && steps[k] == Send(n, id)
    && id in After(s, steps[..k]).channels
    && (full <==> |After(s, steps[..k]).channels[id].queue| >= s.buffer)
  }

  lemma {:induction false} RunPrefix(s: State, steps: seq<Step>, k: nat)
    requires CanRun(s, steps) && k <= |steps|
    ensures CanRun(s, steps[..k])
  {
    if k < |steps| {
      RunPrefix(s, steps[..|steps| - 1], k);
      assert steps[..|steps| - 1][..k] == steps[..k];
    } else {
      assert steps[..k] == steps;
    }
  }

  lemma {:induction false} BufferStays(s: State, steps: seq<Step>)
    requires CanRun(s, steps)
    ensures After(s, steps).buffer == s.buffer
  {
    if steps != [] {
      BufferStays(s, steps[..|steps| - 1]);
    }
  }

  lemma OfferedBefore(s: State, steps: seq<Step>, n: nat, id: Id, full: bool)
    requires CanRun(s, steps) && steps != []
    ensures var init := steps[..|steps| - 1];
      forall k | 0 <= k < |init| :: Offered(s, steps, k, n, id, full) <==> Offered(s, init, k, n, id, full)
  {
    var init := steps[..|steps| - 1];
    assert forall k | 0 <= k < |init| :: steps[..k] == init[..k];
  }

  ghost predicate EverOffered(s: State, steps: seq<Step>, n: nat, id: Id, full: bool)
    requires CanRun(s, steps)
  {
    exists k | 0 <= k < |steps| :: Offered(s, steps, k, n, id, full)
  }

  lemma EverOfferedStep(s: State, steps: seq<Step>, n: nat, id: Id, full: bool)
    requires CanRun(s, steps) && steps != []
    ensures EverOffered(s, steps, n, id, full)
      <==> EverOffered(s, steps[..|steps| - 1], n, id, full) || Offered(s, steps, |steps| - 1, n, id, full)
  {
    hide Offered, After;
    OfferedBefore(s, steps, n, id, full);
    var init := steps[..|steps| - 1];
    if EverOffered(s, init, n, id, full) {
      var k :| 0 <= k < |init| && Offered(s, init, k, n, id, full);
      assert Offered(s, steps, k, n, id, full);
    }
    if EverOffered(s, steps, n, id, full) && !Offered(s, steps, |steps| - 1, n, id, full) {
      var k :| 0 <= k < |steps| && Offered(s, steps, k, n, id, full);
      assert Offered(s, init, k, n, id, full);
    }
  }

  lemma FateMoves(s: State, step: Step, n: nat, id: Id)
    requires Inv(s) && Enabled(s, step)
    ensures id in s.channels ==> id in Next(s, step).channels
    ensures id in Next(s, step).channels ==>
      var before := if id in s.channels then s.channels[id] else Channel([], false, [], [], {});
      var after := Next(s, step).channels[id];
      var offered := step == Send(n, id);
      && (n in after.lost <==> n in before.lost || (offered && |before.queue| >= s.buffer))
      && (Took(after, n) <==> Took(before, n) || (offered && |before.queue| < s.buffer))
  {
    if step.Send? {
      assert OpenOk(s, step.n);
      OfferTakes(s.channels[step.ch], s.buffer, step.n, s.open[step.n].event);
    }
  }

  /** Over every run: a channel has lost an event exactly when it was offered while the
      queue was full, and has taken it exactly when it was offered while there was room. */
  lemma {:induction false} FateOfAnEvent(buffer: nat, steps: seq<Step>, n: nat, id: Id)
    requires CanRun(Init(buffer), steps) && id in After(Init(buffer), steps).channels
    ensures n in After(Init(buffer), steps).channels[id].lost <==> EverOffered(Init(buffer), steps, n, id, true)
    ensures Took(After(Init(buffer), steps).channels[id], n) <==> EverOffered(Init(buffer), steps, n, id, false)
  {
    hide Inv, Enabled, Next, Took, EverOffered;
    var start := Init(buffer);
    var init, step := steps[..|steps| - 1], steps[|steps| - 1];
    var s := After(start, init);
    InitInv(buffer);
    RunKeepsInv(start, init);
    BufferStays(start, init);
    FateMoves(s, step, n, id);
    EverOfferedStep(start, steps, n, id, true);
    EverOfferedStep(start, steps, n, id, false);
    if id in s.channels {
      FateOfAnEvent(buffer, init, n, id);
    } else {
      NotYetOffered(start, init, n, id, true);
      NotYetOffered(start, init, n, id, false);
      SendNeedsChannel(s, step, n, id);
      NothingTaken(n);
    }
  }

  lemma InitInv(buffer: nat)
    ensures Inv(Init(buffer)) && Init(buffer).channels == map[]
  {
  }

  lemma NothingTaken(n: nat)
    ensures !Took(Channel([], false, [], [], {}), n)
  {
  }

  lemma SendNeedsChannel(s: State, step: Step, n: nat, id: Id)
    requires Enabled(s, step) && id !in s.channels
    ensures step != Send(n, id)
  {
  }

  lemma {:induction false} NotYetOffered(s: State, steps: seq<Step>, n: nat, id: Id, full: bool)
    requires CanRun(s, steps) && id !in After(s, steps).channels
    ensures !EverOffered(s, steps, n, id, full)
  {
    if steps != [] {
      hide EverOffered, Enabled, Next;
      EverOfferedStep(s, steps, n, id, full);
      ChannelsStay(After(s, steps[..|steps| - 1]), steps[|steps| - 1]);
      NotYetOffered(s, steps[..|steps| - 1], n, id, full);
    }
  }

  lemma ChannelsStay(s: State, step: Step)
    requires Enabled(s, step)
    ensures s.channels.Keys <= Next(s, step).channels.Keys
  {
  }

  // ---------- order across publishes ----------

  function Accepted(s: State, id: Id): seq<(nat, Event)> { if id in s.channels then s.channels[id].accepted else [] }

  /** From `s` to `s'` channels only take more, and only from publishes that were under
      way in `s` or have begun since. */
  ghost predicate MovesOn(s: State, s': State) {
    && s.sent <= s'.sent
    && (forall n | n in s'.open :: n in s.open || |s.sent| <= n)
    && (forall id :: Accepted(s, id) <= Accepted(s', id))
    && (forall id, i | |Accepted(s, id)| <= i < |Accepted(s', id)| ::
          Accepted(s', id)[i].0 in s.open || |s.sent| <= Accepted(s', id)[i].0)
  }

  lemma StepAccepts(s: State, step: Step, id: Id)
    requires Enabled(s, step)
    ensures Accepted(Next(s, step), id) ==
      if step.Send? && step.ch == id && !s.channels[id].closed && |s.channels[id].queue| < s.buffer
      then Accepted(s, id) + [(step.n, s.open[step.n].event)] else Accepted(s, id)
  {
  }

  lemma StepMovesOn(s: State, step: Step)
    requires Enabled(s, step)
    ensures MovesOn(s, Next(s, step))
  {
    hide Accepted;
    forall id
      ensures Accepted(s, id) <= Accepted(Next(s, step), id)
      ensures forall i | |Accepted(s, id)| <= i < |Accepted(Next(s, step), id)| ::
        Accepted(Next(s, step), id)[i].0 in s.open
    {
      StepAccepts(s, step, id);
    }
  }

  lemma MovesOnTransitive(a: State, b: State, c: State)
    requires MovesOn(a, b) && MovesOn(b, c)
    ensures MovesOn(a, c)
  {
    forall id
      ensures Accepted(a, id) <= Accepted(c, id)
      ensures forall i | |Accepted(a, id)| <= i < |Accepted(c, id)| ::
        Accepted(c, id)[i].0 in a.open || |a.sent| <= Accepted(c, id)[i].0
    {
      assert Accepted(a, id) <= Accepted(b, id) <= Accepted(c, id);
      forall i | |Accepted(a, id)| <= i < |Accepted(c, id)|
        ensures Accepted(c, id)[i].0 in a.open || |a.sent| <= Accepted(c, id)[i].0
      {
        if i < |Accepted(b, id)| {
          assert Accepted(c, id)[i] == Accepted(b, id)[i];
        }
      }
    }
  }

  lemma {:induction false} RunMovesOn(s: State, steps: seq<Step>)
    requires CanRun(s, steps)
    ensures MovesOn(s, After(s, steps))
  {
    if steps != [] {
      hide Enabled, Next, MovesOn;
      var mid := After(s, steps[..|steps| - 1]);
      RunMovesOn(s, steps[..|steps| - 1]);
      StepMovesOn(mid, steps[|steps| - 1]);
      MovesOnTransitive(s, mid, After(s, steps));
    }
  }

  /** A publish that has returned before another begins comes first in every channel that
      takes both: publishes of one goroutine stay in order. */
  lemma SequentialStayInOrder(s: State, steps: seq<Step>, id: Id, i: nat, j: nat)
    requires Inv(s) && CanRun(s, steps) && id in After(s, steps).channels
    requires i < |After(s, steps).channels[id].accepted| && j < |After(s, steps).channels[id].accepted|
    requires var first := After(s, steps).channels[id].accepted[i].0; first < |s.sent| && first !in s.open
    requires |s.sent| <= After(s, steps).channels[id].accepted[j].0
    ensures i < j
  {
    RunMovesOn(s, steps);
    var before, after := Accepted(s, id), Accepted(After(s, steps), id);
    NumbersAreOld(s, id);
    assert before <= after && i < |before|;
    assert forall k | 0 <= k < |before| :: after[k] == before[k];
  }

  lemma NumbersAreOld(s: State, id: Id)
    requires Inv(s)
    ensures forall k | 0 <= k < |Accepted(s, id)| :: Accepted(s, id)[k].0 < |s.sent|
  {
    if id in s.channels {
      assert ChannelOk(s.channels[id], s.buffer, s.sent);
      assert forall k | 0 <= k < |Accepted(s, id)| :: Took(s.channels[id], Accepted(s, id)[k].0);
    }
  }

  lemma {:induction false} RunAppend(s: State, a: seq<Step>, b: seq<Step>)
    requires CanRun(s, a) && CanRun(After(s, a), b)
    ensures CanRun(s, a + b) && After(s, a + b) == After(After(s, a), b)
  {
    if b == [] {
      assert a + b == a;
    } else {
      assert (a + b)[..|a + b| - 1] == a + b[..|b| - 1];
      RunAppend(s, a, b[..|b| - 1]);
    }
  }

  // ---------- when two publishes can cross ----------

  predicate TakenBy(s: State, id: Id, n: nat) { id in s.channels && Took(s.channels[id], n) }

  /** The channel took `m` and later `n`. */
  predicate Precedes(s: State, id: Id, m: nat, n: nat) {
    var accepted := Accepted(s, id);
    exists i, j :: 0 <= i < j < |accepted| && accepted[i].0 == m && accepted[j].0 == n
  }

  /** Two channels took `m` and `n` in opposite orders. */
  ghost predicate Crossed(s: State, m: nat, n: nat) {
    exists x, y :: Precedes(s, x, m, n) && Precedes(s, y, n, m)
  }

  /** Publish `m` is under way and has a subscriber still to come, beside another one that it
      has reached or that is still to come as well. */
  predicate CanBeCrossed(s: State, m: nat) {
    && m in s.open
    && exists a, c | a in s.open[m].left && c in s.subscribers ::
         a != c && (c in s.open[m].left || TakenBy(s, c, m))
  }

  /** A publish is only taken by channels it has still to come to, and those only get fewer. */
  ghost predicate OldPublishes(s: State, s': State) {
    && |s.sent| <= |s'.sent|
    && (forall k | k in s'.open && k < |s.sent| :: k in s.open && s'.open[k].left <= s.open[k].left)
    && (forall k: nat, id | k < |s.sent| && TakenBy(s', id, k) ::
          TakenBy(s, id, k) || (k in s.open && id in s.open[k].left))
  }

  lemma StepTakes(s: State, step: Step, id: Id, k: nat)
    requires Enabled(s, step) && TakenBy(Next(s, step), id, k) && !TakenBy(s, id, k)
    ensures k in s.open && id in s.open[k].left
  {
    hide Took;
    NothingTaken(k);
    if step.Send? {
      OfferTakes(s.channels[step.ch], s.buffer, step.n, s.open[step.n].event);
    } else if id in s.channels {
      SameTaken(s.channels[id], Next(s, step).channels[id], k);
    }
  }

  lemma SameTaken(ch: Channel, ch': Channel, k: nat)
    requires ch.accepted == ch'.accepted
    ensures Took(ch, k) <==> Took(ch', k)
  {
  }

  lemma StepKeepsOld(s: State, step: Step)
    requires Enabled(s, step)
    ensures OldPublishes(s, Next(s, step))
  {
    hide TakenBy;
    forall k: nat, id | TakenBy(Next(s, step), id, k) && !TakenBy(s, id, k)
      ensures k in s.open && id in s.open[k].left
    {
      StepTakes(s, step, id, k);
    }
  }

  lemma {:induction false} RunKeepsOld(s: State, steps: seq<Step>)
    requires CanRun(s, steps)
    ensures OldPublishes(s, After(s, steps))
  {
    if steps != [] {
      hide Enabled, Next, TakenBy;
      RunKeepsOld(s, steps[..|steps| - 1]);
      StepKeepsOld(After(s, steps[..|steps| - 1]), steps[|steps| - 1]);
    }
  }

  lemma OneIndex(s: State, id: Id, i: nat, j: nat)
    requires Inv(s) && i < |Accepted(s, id)| && j < |Accepted(s, id)|
    requires Accepted(s, id)[i].0 == Accepted(s, id)[j].0
    ensures i == j
  {
    assert ChannelOk(s.channels[id], s.buffer, s.sent);
  }

  lemma PrecedesTaken(s: State, id: Id, m: nat, n: nat)
    requires Precedes(s, id, m, n)
    ensures TakenBy(s, id, m) && TakenBy(s, id, n)
  {
  }

  /** If `n` came later than `s` and was taken before `m`, then `m` was not taken in `s`. */
  lemma NotTakenBefore(s: State, s': State, id: Id, m: nat, n: nat)
    requires Inv(s') && Accepted(s, id) <= Accepted(s', id) && !TakenBy(s, id, n) && Precedes(s', id, n, m)
    ensures !TakenBy(s, id, m)
  {
    hide Inv;
    var before, after := Accepted(s, id), Accepted(s', id);
    var i, j :| 0 <= i < j < |after| && after[i].0 == n && after[j].0 == m;
    assert forall k | 0 <= k < |before| :: before[k] == after[k] && before[k].0 != n;
    if TakenBy(s, id, m) {
      var q :| 0 <= q < |before| && before[q].0 == m;
      OneIndex(s', id, q, j);
    }
  }

  lemma OneOrder(s: State, id: Id, m: nat, n: nat)
    requires Inv(s) && Precedes(s, id, m, n)
    ensures !Precedes(s, id, n, m)
  {
    hide Inv;
    var accepted := Accepted(s, id);
    if Precedes(s, id, n, m) {
      var i, j :| 0 <= i < j < |accepted| && accepted[i].0 == m && accepted[j].0 == n;
      var k, l :| 0 <= k < l < |accepted| && accepted[k].0 == n && accepted[l].0 == m;
      OneIndex(s, id, i, l);
      OneIndex(s, id, j, k);
    }
  }

  lemma BeginsUntaken(s: State, e: Event, now: string)
    requires Inv(s)
    ensures var s1 := Next(s, BeginPublish(e, now));
      && Inv(s1) && s1.open[|s.sent|].left == s.subscribers
      && (forall id :: !TakenBy(s1, id, |s.sent|))
      && (forall id, k: nat :: TakenBy(s1, id, k) <==> TakenBy(s, id, k))
      && (forall k | k in s.open :: k < |s.sent| && k in s1.open && s1.open[k] == s.open[k])
      && (forall k | k in s1.open && k != |s.sent| :: k in s.open)
  {
    StepKeepsInv(s, BeginPublish(e, now));
    forall id
      ensures !TakenBy(s, id, |s.sent|)
    {
      if id in s.channels {
        assert ChannelOk(s.channels[id], s.buffer, s.sent);
      }
    }
    forall k | k in s.open
      ensures k < |s.sent|
    {
      assert OpenOk(s, k);
    }
  }

  lemma CrossingNeeds(s: State, m: nat, e: Event, now: string, steps: seq<Step>)
    requires Inv(s) && m < |s.sent|
    requires CanRun(Next(s, BeginPublish(e, now)), steps)
    requires Crossed(After(Next(s, BeginPublish(e, now)), steps), m, |s.sent|)
    ensures CanBeCrossed(s, m)
  {
    var s1, n := Next(s, BeginPublish(e, now)), |s.sent|;
    var s2 := After(s1, steps);
    hide Inv, Next, CanRun, After, TakenBy, Precedes;
    BeginsUntaken(s, e, now);
    assert n < |s1.sent| by {
      NextSent(s, e, now);
    }
    RunKeepsInv(s1, steps);
    RunMovesOn(s1, steps);
    RunKeepsOld(s1, steps);
    var x, y :| Precedes(s2, x, m, n) && Precedes(s2, y, n, m);
    PrecedesTaken(s2, x, m, n);
    PrecedesTaken(s2, y, n, m);
    NotTakenBefore(s1, s2, y, m, n);
    if x == y {
      OneOrder(s2, x, m, n);
    }
    assert y in s.open[m].left && x in s.subscribers;
  }

  lemma NextSent(s: State, e: Event, now: string)
    ensures |Next(s, BeginPublish(e, now)).sent| == |s.sent| + 1
  {
  }

  // ---------- making them cross ----------

  ghost predicate Reaches(s: State, s': State) { exists steps :: CanRun(s, steps) && After(s, steps) == s' }

  lemma ReachesTransitive(a: State, b: State, c: State)
    requires Reaches(a, b) && Reaches(b, c)
    ensures Reaches(a, c)
  {
    hide CanRun, After;
    var first :| CanRun(a, first) && After(a, first) == b;
    var second :| CanRun(b, second) && After(b, second) == c;
    RunAppend(a, first, second);
  }

  lemma ReachesNext(s: State, step: Step)
    requires Enabled(s, step)
    ensures Reaches(s, Next(s, step))
  {
    EmptyRun(s);
    RunOneMore(s, [], step);
    assert CanRun(s, [] + [step]);
  }

  lemma ReachesSame(s: State)
    ensures Reaches(s, s)
  {
    EmptyRun(s);
  }

  /** Readers have taken some events, and nothing else has changed. */
  ghost predicate OnlyRead(s: State, s': State) {
    && s' == s.(channels := s'.channels) && s'.channels.Keys == s.channels.Keys
    && forall id :: Accepted(s', id) == Accepted(s, id)
  }

  /** A reader takes all that is queued. */
  lemma {:induction false} Drain(s: State, id: Id) returns (s': State)
    requires Inv(s) && id in s.channels
    ensures Reaches(s, s') && Inv(s') && OnlyRead(s, s') && s'.channels[id].queue == []
    decreases |s.channels[id].queue|
  {
    hide Inv;
    if s.channels[id].queue == [] {
      ReachesSame(s);
      s' := s;
    } else {
      var mid := Next(s, Receive(id));
      StepKeepsInv(s, Receive(id));
      ReachesNext(s, Receive(id));
      hide Reaches;
      s' := Drain(mid, id);
      ReachesTransitive(s, mid, s');
    }
  }

  /** A publish under way reaches a channel that has room because its reader has kept up. */
  lemma DrainThenSend(s: State, n: nat, id: Id) returns (s': State)
    requires Inv(s) && s.buffer > 0 && n in s.open && id in s.open[n].left
    ensures Reaches(s, s') && Inv(s') && s'.buffer == s.buffer && s'.subscribers == s.subscribers
    ensures s'.open == s.open[n := s.open[n].(left := s.open[n].left - {id})]
    ensures forall other ::
      Accepted(s', other) == Accepted(s, other) + (if other == id then [(n, s.open[n].event)] else [])
  {
    assert OpenOk(s, n);
    var mid := Drain(s, id);
    assert OpenOk(mid, n);
    s' := Next(mid, Send(n, id));
    StepKeepsInv(mid, Send(n, id));
    ReachesNext(mid, Send(n, id));
    hide Reaches, Inv;
    ReachesTransitive(s, mid, s');
  }

  lemma PrecedesAtEnd(s: State, id: Id, accepted: seq<(nat, Event)>, m: nat, n: nat, e: Event, f: Event)
    requires Accepted(s, id) == accepted + [(m, e)] + [(n, f)]
    ensures Precedes(s, id, m, n)
  {
    var i := |accepted|;
    assert Accepted(s, id)[i].0 == m && Accepted(s, id)[i + 1].0 == n;
  }

  lemma PrecedesNow(s: State, s': State, id: Id, m: nat, n: nat, f: Event)
    requires TakenBy(s, id, m) && Accepted(s', id) == Accepted(s, id) + [(n, f)]
    ensures Precedes(s', id, m, n)
  {
    var i :| 0 <= i < |Accepted(s, id)| && Accepted(s, id)[i].0 == m;
    assert Accepted(s', id)[i].0 == m && Accepted(s', id)[|Accepted(s, id)|].0 == n;
  }

  /** `n` comes to `a` first, then `m`. */
  lemma Overtake(s: State, m: nat, n: nat, a: Id) returns (s': State)
    requires Inv(s) && s.buffer > 0 && m in s.open && n in s.open && m != n
    requires a in s.open[m].left && a in s.open[n].left
    ensures Reaches(s, s') && Inv(s') && s'.buffer == s.buffer && m in s'.open && n in s'.open
    ensures s'.open[m].left == s.open[m].left - {a} && s'.open[n].left == s.open[n].left - {a}
    ensures Precedes(s', a, n, m) && forall id | id != a :: Accepted(s', id) == Accepted(s, id)
  {
    hide Inv, Reaches, Accepted, Precedes;
    var mid := DrainThenSend(s, n, a);
    s' := DrainThenSend(mid, m, a);
    ReachesTransitive(s, mid, s');
    PrecedesAtEnd(s', a, Accepted(s, a), n, m, s.open[n].event, mid.open[m].event);
  }

  /** `m` is already there, or comes to `c` first; then `n`. */
  lemma KeepOrder(s: State, m: nat, n: nat, c: Id) returns (s': State)
    requires Inv(s) && s.buffer > 0 && n in s.open && c in s.open[n].left && m != n
    requires (m in s.open && c in s.open[m].left) || TakenBy(s, c, m)
    ensures Reaches(s, s') && Precedes(s', c, m, n)
    ensures forall id | id != c :: Accepted(s', id) == Accepted(s, id)
  {
    hide Inv, Reaches, Accepted, Precedes, TakenBy;
    if TakenBy(s, c, m) {
      s' := DrainThenSend(s, n, c);
      PrecedesNow(s, s', c, m, n, s.open[n].event);
    } else {
      var mid := DrainThenSend(s, m, c);
      s' := DrainThenSend(mid, n, c);
      ReachesTransitive(s, mid, s');
      PrecedesAtEnd(s', c, Accepted(s, c), m, n, s.open[m].event, mid.open[n].event);
    }
  }

  lemma PrecedesSame(s: State, s': State, id: Id, m: nat, n: nat)
    requires Accepted(s, id) == Accepted(s', id)
    ensures Precedes(s, id, m, n) <==> Precedes(s', id, m, n)
  {
  }

  lemma TakenSame(s: State, s': State, id: Id, n: nat)
    requires Accepted(s, id) == Accepted(s', id)
    ensures TakenBy(s, id, n) <==> TakenBy(s', id, n)
  {
    if TakenBy(s, id, n) {
      var i :| 0 <= i < |Accepted(s, id)| && Accepted(s, id)[i].0 == n;
      assert Accepted(s', id)[i].0 == n;
    }
    if TakenBy(s', id, n) {
      var i :| 0 <= i < |Accepted(s', id)| && Accepted(s', id)[i].0 == n;
      assert Accepted(s, id)[i].0 == n;
    }
  }

  lemma CrossingFound(s: State, m: nat, n: nat, a: Id, c: Id) returns (s': State)
    requires Inv(s) && s.buffer > 0 && m in s.open && n in s.open && m != n && a != c
    requires a in s.open[m].left && a in s.open[n].left && c in s.open[n].left
    requires c in s.open[m].left || TakenBy(s, c, m)
    ensures Reaches(s, s') && Crossed(s', m, n)
  {
    hide Inv, Reaches, Accepted, Precedes, TakenBy;
    var mid := Overtake(s, m, n, a);
    TakenSame(s, mid, c, m);
    s' := KeepOrder(mid, m, n, c);
    ReachesTransitive(s, mid, s');
    PrecedesSame(mid, s', a, n, m);
  }

  /** Some continuation makes the two publishes cross. */
  ghost predicate CrossedLater(s: State, m: nat, n: nat) { exists s' :: Reaches(s, s') && Crossed(s', m, n) }

  lemma LaterMeansNow(s: State, m: nat, e: Event, now: string)
    requires Inv(s) && m < |s.sent| && CrossedLater(Next(s, BeginPublish(e, now)), m, |s.sent|)
    ensures CanBeCrossed(s, m)
  {
    hide Inv, Next, CanRun, After, Crossed, CanBeCrossed;
    var s1 := Next(s, BeginPublish(e, now));
    var s' :| Reaches(s1, s') && Crossed(s', m, |s.sent|);
    var steps :| CanRun(s1, steps) && After(s1, steps) == s';
    CrossingNeeds(s, m, e, now, steps);
  }

  lemma NowMeansLater(s: State, m: nat, e: Event, now: string)
    requires Inv(s) && s.buffer > 0 && CanBeCrossed(s, m)
    ensures CrossedLater(Next(s, BeginPublish(e, now)), m, |s.sent|)
  {
    hide Inv, Next, Reaches, Crossed, TakenBy;
    var a, c :|
      a in s.open[m].left && c in s.subscribers && a != c && (c in s.open[m].left || TakenBy(s, c, m));
    BeginsUntaken(s, e, now);
    LeftSubscribed(s, m);
    SameBuffer(s, e, now);
    var s' := CrossingFound(Next(s, BeginPublish(e, now)), m, |s.sent|, a, c);
  }

  /** Exactly when a publish can still be crossed by one that begins now, in some channels the
      one coming first and in some the other: when it is under way, with one subscriber still
      to come and another one that it has reached or is still to reach. */
  lemma MayCrossExactly(s: State, m: nat, e: Event, now: string)
    requires Inv(s) && s.buffer > 0 && m < |s.sent|
    ensures CrossedLater(Next(s, BeginPublish(e, now)), m, |s.sent|) <==> CanBeCrossed(s, m)
  {
    hide Inv, Next, CanBeCrossed, CrossedLater;
    if CrossedLater(Next(s, BeginPublish(e, now)), m, |s.sent|) {
      LaterMeansNow(s, m, e, now);
    }
    if CanBeCrossed(s, m) {
      NowMeansLater(s, m, e, now);
    }
  }

  lemma SameBuffer(s: State, e: Event, now: string)
    ensures Next(s, BeginPublish(e, now)).buffer == s.buffer && |s.sent| in Next(s, BeginPublish(e, now)).open
  {
  }

  lemma LeftSubscribed(s: State, m: nat)
    requires Inv(s) && m in s.open
    ensures s.open[m].left <= s.subscribers
  {
    assert OpenOk(s, m);
  }

  const NEW: Channel := Channel([], false, [], [], {})

  /** As in this run: two subscribers, one publish that can be crossed, and a second one that
      holds the lock beside it. */
  lemma TwoUnderWay(e: Event, f: Event)
    requires e.at != "" && f.at != ""
    ensures var steps := [Subscribe("a"), Subscribe("b"), BeginPublish(e, "")];
      && CanRun(Init(64), steps) && CanBeCrossed(After(Init(64), steps), 0)
      && CanRun(Init(64), steps + [BeginPublish(f, "")])
      && After(Init(64), steps + [BeginPublish(f, "")]) ==
           State(64, map["a" := NEW, "b" := NEW], {"a", "b"},
             map[0 := Open(e, {"a", "b"}), 1 := Open(f, {"a", "b"})], [e, f], false)
  {
    hide CanRun, After, Took;
    var s := Init(64);
    EmptyRun(s);
    RunOneMore(s, [], Subscribe("a"));
    var one := [] + [Subscribe("a")];
    RunOneMore(s, one, Subscribe("b"));
    var two := one + [Subscribe("b")];
    RunOneMore(s, two, BeginPublish(e, ""));
    var three := two + [BeginPublish(e, "")];
    assert three == [Subscribe("a"), Subscribe("b"), BeginPublish(e, "")];
    assert "a" in After(s, three).open[0].left && "b" in After(s, three).subscribers;
    var s3 := After(s, three);
    assert s3 == State(64, map["a" := NEW, "b" := NEW], {"a", "b"}, map[0 := Open(e, {"a", "b"})], [e], false) by {
      assert s3.subscribers == {"a", "b"};
      assert s3.channels == map["a" := NEW, "b" := NEW];
    }
    RunOneMore(s, three, BeginPublish(f, ""));
    assert [e] + [f] == [e, f];
    assert s3.open[1 := Open(f, {"a", "b"})] == map[0 := Open(e, {"a", "b"}), 1 := Open(f, {"a", "b"})];
  }

  lemma EmptyRun(s: State)
    ensures CanRun(s, []) && After(s, []) == s
  {
  }

  // ---------- cancelling ----------

  lemma ClosedStep(s: State, step: Step, id: Id)
    requires Inv(s) && Enabled(s, step) && id in s.channels && s.channels[id].closed
    ensures id in Next(s, step).channels
    ensures var ch, ch' := s.channels[id], Next(s, step).channels[id];
      ch'.closed && ch'.accepted == ch.accepted && ch'.lost == ch.lost
  {
    if step.Send? {
      assert OpenOk(s, step.n);
    }
  }

  /** After its cancellation a channel stays closed and is offered nothing more, whatever
      goes on; what is queued can still be read. */
  lemma {:induction false} ClosedForGood(s: State, steps: seq<Step>, id: Id)
    requires Inv(s) && CanRun(s, steps) && id in s.channels && s.channels[id].closed
    ensures id in After(s, steps).channels
    ensures var ch, ch' := s.channels[id], After(s, steps).channels[id];
      ch'.closed && ch'.accepted == ch.accepted && ch'.lost == ch.lost
  {
    if steps != [] {
      hide Inv, Enabled, Next;
      var init := steps[..|steps| - 1];
      ClosedForGood(s, init, id);
      RunKeepsInv(s, init);
      ClosedStep(After(s, init), steps[|steps| - 1], id);
    }
  }

  // ---------- the hub ----------

  class EventHub {
    const buffer: nat
    var channels: map<Id, Channel>
    var subscribers: set<Id>
    /** The calls of `Publish` that hold the read lock. */
    var open: map<nat, Open>
    /** The event of every publish so far. */
    var sent: seq<Event>
    ghost var steps: seq<Step>

    function Sys(): State
      reads this
    {
      State(buffer, channels, subscribers, open, sent, false)
    }

    /** The history of this hub is a run of the machine that ends in its state. */
    ghost predicate Valid()
      reads this
    {
      buffer > 0 && CanRun(Init(buffer), steps) && After(Init(buffer), steps) == Sys()
    }

    constructor (buffer: int)
      ensures Valid() && subscribers == {} && open == map[]
      ensures this.buffer == if buffer <= 0 then 64 else buffer
    {
      this.buffer := if buffer <= 0 then 64 else buffer;
      channels, subscribers, open, sent, steps := map[], {}, map[], [], [];
    }

    lemma InvHolds()
      requires Valid()
      ensures Inv(Sys())
    {
      InitInv(buffer);
      RunKeepsInv(Init(buffer), steps);
    }

    ghost method Record(before: State, step: Step)
      requires buffer > 0 && CanRun(Init(buffer), steps) && After(Init(buffer), steps) == before
      requires Enabled(before, step) && Sys() == Next(before, step)
      modifies this`steps
      ensures Valid()
    {
      RunOneMore(Init(buffer), steps, step);
      steps := steps + [step];
    }

    /** Takes the read lock. */
    method Begin(event: Event, now: string) returns (number: nat)
      requires Valid()
      modifies this
      ensures Valid() && number == |old(sent)| && sent == old(sent) + [Stamped(event, now)]
      ensures open == old(open)[number := Open(Stamped(event, now), subscribers)] && number !in old(open)
      ensures subscribers == old(subscribers) && channels == old(channels)
    {
      ghost var before := Sys();
      InvHolds();
      assert forall n | n in open :: OpenOk(Sys(), n);
      number := |sent|;
      open, sent := open[number := Open(Stamped(event, now), subscribers)], sent + [Stamped(event, now)];
      Record(before, BeginPublish(event, now));
    }

    /** Sends without blocking; the channel is open. */
    method TrySend(number: nat, id: Id)
      requires Valid() && number in open && id in open[number].left
      modifies this
      ensures Valid() && subscribers == old(subscribers) && sent == old(sent)
      ensures open == old(open)[number := old(open[number]).(left := old(open[number].left) - {id})]
      ensures id in old(channels) && !old(channels[id]).closed
      ensures channels == old(channels)[id := Offer(old(channels[id]), buffer, number, old(open[number].event))]
      ensures MovesOn(old(Sys()), Sys())
    {
      ghost var before := Sys();
      InvHolds();
      assert OpenOk(Sys(), number);
      var ch := channels[id];
      if |ch.queue| < buffer {
        ch := ch.(queue := ch.queue + [open[number].event], accepted := ch.accepted + [(number, open[number].event)]);
      } else {
        ch := ch.(lost := ch.lost + {number});
      }
      channels := channels[id := ch];
      open := open[number := open[number].(left := open[number].left - {id})];
      StepMovesOn(before, Send(number, id));
      Record(before, Send(number, id));
    }

    /** Gives the read lock back. */
    method End(number: nat)
      requires Valid() && number in open && open[number].left == {}
      modifies this
      ensures Valid() && open == old(open) - {number}
      ensures subscribers == old(subscribers) && channels == old(channels) && sent == old(sent)
    {
      ghost var before := Sys();
      open := open - {number};
      Record(before, EndPublish(number));
    }

    /** Receives the oldest queued event, also from a closed channel. */
    method Receive(id: Id) returns (event: Option<Event>)
      requires Valid() && id in channels
      modifies this
      ensures Valid() && open == old(open) && subscribers == old(subscribers) && sent == old(sent)
      ensures event == if old(channels[id].queue) == [] then None else Some(old(channels[id].queue)[0])
      ensures channels == if event.None? then old(channels) else old(channels)[id := TakeOne(old(channels[id]))]
    {
      ghost var before := Sys();
      var ch := channels[id];
      if ch.queue == [] {
        return None;
      }
      event := Some(ch.queue[0]);
      channels := channels[id := ch.(queue := ch.queue[1..], taken := ch.taken + [ch.queue[0]])];
      Record(before, Step.Receive(id));
    }

    /** Entered once the write lock is granted: no publish is under way. */
    method Subscribe(id: Id)
      requires Valid() && open == map[] && id !in channels
      modifies this
      ensures Valid() && open == map[] && sent == old(sent)
      ensures channels == old(channels)[id := NEW] && subscribers == old(subscribers) + {id}
    {
      ghost var before := Sys();
      channels, subscribers := channels[id := NEW], subscribers + {id};
      Record(before, Step.Subscribe(id));
    }

    /** The cancel function of a subscription, entered once the write lock is granted.
        Calling it again does nothing. */
    method Cancel(id: Id)
      requires Valid() && open == map[] && id in channels
      modifies this
      ensures Valid() && open == map[] && sent == old(sent)
      ensures subscribers == old(subscribers) - {id}
      ensures channels == old(channels)[id := old(channels[id]).(closed := true)]
      ensures id !in old(subscribers) ==> channels == old(channels)
    {
      ghost var before := Sys();
      InvHolds();
      if id in subscribers {
        channels, subscribers := channels[id := channels[id].(closed := true)], subscribers - {id};
      }
      Record(before, Step.Cancel(id));
    }

    /** What other goroutines do in a gap while the caller holds the read lock with publish
        `mine`: each acts if it can. */
    method Interfere(env: seq<Step>, mine: nat)
      requires Valid() && mine in open
      modifies this
      ensures Valid() && mine in open && open[mine] == old(open[mine]) && subscribers == old(subscribers)
      ensures MovesOn(old(Sys()), Sys())
    {
      hide MovesOn;
      SameMovesOn(Sys());
      for i := 0 to |env|
        invariant Valid() && mine in open && open[mine] == old(open[mine]) && subscribers == old(subscribers)
        invariant MovesOn(old(Sys()), Sys())
      {
        ghost var mid := Sys();
        OtherRequest(env[i], mine);
        MovesOnTransitive(old(Sys()), mid, Sys());
      }
    }

    lemma SameMovesOn(s: State)
      ensures MovesOn(s, s)
    {
    }

    /** Subscribing and cancelling have to wait for the lock. */
    method OtherRequest(step: Step, mine: nat)
      requires Valid() && mine in open
      modifies this
      ensures Valid() && mine in open && open[mine] == old(open[mine]) && subscribers == old(subscribers)
      ensures MovesOn(old(Sys()), Sys())
    {
      ghost var before := Sys();
      SameMovesOn(before);
      match step {
        case BeginPublish(event, now) =>
          var _ := Begin(event, now);
          StepMovesOn(before, step);
        case Send(n, id) =>
          if n != mine && n in open && id in open[n].left {
            TrySend(n, id);
          }
        case EndPublish(n) =>
          if n != mine && n in open && open[n].left == {} {
            End(n);
            StepMovesOn(before, step);
          }
        case Receive(id) =>
          if id in channels && channels[id].queue != [] {
            var _ := Receive(id);
            StepMovesOn(before, step);
          }
        case _ =>
      }
    }

    /** Whatever the other goroutines do between the sends: every subscriber has the event
        exactly once afterwards or has lost it, and nothing taken before is disturbed. */
    method Publish(event: Event, now: string, gaps: nat -> seq<Step>) returns (number: nat)
      requires Valid()
      modifies this
      ensures Valid() && number == |old(sent)| && number !in open && subscribers == old(subscribers)
      ensures old(sent) + [Stamped(event, now)] <= sent
      ensures forall id | id in subscribers ::
        && id in channels && old(Accepted(Sys(), id)) <= channels[id].accepted
        && ((number, Stamped(event, now)) in channels[id].accepted <==> number !in channels[id].lost)
    {
      hide CanRun, After, Enabled, Next, Took, MovesOn;
      number := Begin(event, now);
      ghost var begun := Sys();
      SameMovesOn(begun);
      var left := subscribers;
      var i := 0;
      while left != {}
        invariant Valid() && number in open && open[number] == Open(Stamped(event, now), left)
        invariant subscribers == old(subscribers) && MovesOn(begun, Sys())
        decreases |left|
      {
        ghost var was := Sys();
        Interfere(gaps(i), number);
        ghost var mid := Sys();
        MovesOnTransitive(begun, was, mid);
        var id :| id in left;
        TrySend(number, id);
        MovesOnTransitive(begun, mid, Sys());
        left, i := left - {id}, i + 1;
      }
      InvHolds();
      Finished(begun, number);
      End(number);
    }

    lemma Finished(begun: State, number: nat)
      requires Inv(Sys()) && number in open && open[number].left == {} && MovesOn(begun, Sys())
      ensures begun.sent <= sent
      ensures forall id | id in subscribers ::
        && id in channels && Accepted(begun, id) <= channels[id].accepted
        && ((number, open[number].event) in channels[id].accepted <==> number !in channels[id].lost)
    {
      assert OpenOk(Sys(), number);
      forall id | id in subscribers
        ensures Accepted(begun, id) <= channels[id].accepted
        ensures (number, open[number].event) in channels[id].accepted <==> number !in channels[id].lost
      {
        assert Accepted(Sys(), id) == channels[id].accepted;
        TookItsEvent(Sys(), id, number);
      }
    }
  }
}
