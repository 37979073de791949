/** The online status of one client's device row, and what the session-id guard on
    disconnects achieves when a client takes its connection over (section 3.1.4 of
    MQTT 3.1.1). */
module Takeover {
  import opened Basics
  import opened Ingestion
  import opened Partitions

  /** What a step means for the row of one client. */
  datatype Touch = Connected(session: string) | Active(session: string) | Disconnected(session: string) | Restarted

  datatype RowView = Absent | Present(online: bool, session: string)

  function Apply(row: RowView, touch: Touch): RowView {
    match touch
    case Connected(session) => Present(true, session)
    case Active(session) => Present(row.Absent? || row.online, session)
    case Disconnected(session) =>
      if row.Present? && (session == "" || session == row.session) then row.(online := false) else row
    case Restarted => if row.Present? then row.(online := false) else row
  }

  function RowAfter(touches: seq<Touch>): RowView {
    if touches == [] then Absent
    else Apply(RowAfter(touches[..|touches| - 1]), touches[|touches| - 1])
  }

  function TouchOf(step: Step, client: string): Option<Touch> {
    match step
    case Connect(c, session, _, _, _) => if c == client then Some(Connected(session)) else None
    case Subscribe(c, session, _, _, _) => if c == client then Some(Active(session)) else None
    case Persist(ev, _, _, _) => if ev.clientId == client && client != INLINE then Some(Active(ev.sessionId)) else None
    case Disconnect(c, session, _) => if c == client then Some(Disconnected(session)) else None
    case StaleOnline(_) => Some(Restarted)
    case _ => None
  }

  function Touches(steps: seq<Step>, client: string): seq<Touch> {
    if steps == [] then []
    else
      var init := Touches(steps[..|steps| - 1], client);
      var touch := TouchOf(steps[|steps| - 1], client);
      if touch.Some? then init + [touch.value] else init
  }

  function View(db: Db, client: string): RowView {
    if client in db.devices then Present(db.devices[client].status.Online?, db.devices[client].sessionId) else Absent
  }

  lemma StepTouches(db: Db, step: Step, client: string)
    requires Enabled(db, step)
    ensures View(Next(db, step), client) ==
      if TouchOf(step, client).Some? then Apply(View(db, client), TouchOf(step, client).value) else View(db, client)
  {
    hide CannotInsert, DeviceIdUsed, Refused, IsPlace, TableName, MonthRange, MonthOfInstant, MessageIdUsed,
      UpsertTopic, UpsertFilters;
  }

  lemma RowAfterAppend(touches: seq<Touch>, touch: Touch)
    ensures RowAfter(touches + [touch]) == Apply(RowAfter(touches), touch)
  {
    assert (touches + [touch])[..|touches|] == touches;
  }

  /** The database row is a function of the touches of its client alone. */
  lemma {:induction false} RowFollowsTouches(steps: seq<Step>, client: string)
    requires CanRun(EMPTY, steps)
    ensures View(After(EMPTY, steps), client) == RowAfter(Touches(steps, client))
  {
    if steps != [] {
      var init, last := steps[..|steps| - 1], steps[|steps| - 1];
      RowFollowsTouches(init, client);
      StepTouches(After(EMPTY, init), last, client);
      if TouchOf(last, client).Some? {
        RowAfterAppend(Touches(init, client), TouchOf(last, client).value);
      }
    }
  }

  // ---------- the status in general ----------

  /** The session that last connected or was active. */
  function LastSession(touches: seq<Touch>): Option<string> {
    if touches == [] then None
    else
      var last := touches[|touches| - 1];
      if last.Connected? || last.Active? then Some(last.session) else LastSession(touches[..|touches| - 1])
  }

  /** Brings the row online: any connect, or the activity that creates the row. */
  predicate Opens(touches: seq<Touch>, i: nat)
    requires i < |touches|
  {
    touches[i].Connected? || (touches[i].Active? && LastSession(touches[..i]).None?)
  }

  /** Takes the row offline: a restart, or a disconnect that names no session or the
      one that was last seen. */
  predicate Closes(touches: seq<Touch>, j: nat)
    requires j < |touches|
  {
    || touches[j].Restarted?
    || (touches[j].Disconnected? && (touches[j].session == "" || Some(touches[j].session) == LastSession(touches[..j])))
  }

  predicate OpenSince(touches: seq<Touch>, i: nat)
    requires i < |touches|
  {
    Opens(touches, i) && forall j | i < j < |touches| :: !Closes(touches, j)
  }

  ghost predicate StaysOpen(touches: seq<Touch>) {
    exists i | 0 <= i < |touches| :: OpenSince(touches, i)
  }

  lemma SamePrefix(touches: seq<Touch>, i: nat)
    requires i < |touches| - 1
    ensures var init := touches[..|touches| - 1];
      (Opens(touches, i) <==> Opens(init, i)) && (Closes(touches, i) <==> Closes(init, i))
  {
    var init := touches[..|touches| - 1];
    assert touches[..i] == init[..i];
  }

  lemma StaysOpenStep(touches: seq<Touch>)
    requires touches != []
    ensures var init, k := touches[..|touches| - 1], |touches| - 1;
      StaysOpen(touches) <==> Opens(touches, k) || (StaysOpen(init) && !Closes(touches, k))
  {
    var init, k := touches[..|touches| - 1], |touches| - 1;
    forall i | 0 <= i < k
      ensures Opens(touches, i) <==> Opens(init, i)
      ensures Closes(touches, i) <==> Closes(init, i)
    {
      SamePrefix(touches, i);
    }
    if StaysOpen(init) && !Closes(touches, k) {
      var i :| 0 <= i < |init| && OpenSince(init, i);
      assert OpenSince(touches, i);
    }
    if Opens(touches, k) {
      assert OpenSince(touches, k);
    }
    if StaysOpen(touches) && !Opens(touches, k) {
      var i :| 0 <= i < |touches| && OpenSince(touches, i);
      assert OpenSince(init, i);
    }
  }

  /** For every sequence of touches, without any assumption: the row is online exactly
      when something opened it and nothing has closed it since. */
  lemma {:induction false} OnlineExactly(touches: seq<Touch>)
    ensures RowAfter(touches).Present? <==> LastSession(touches).Some?
    ensures RowAfter(touches).Present? ==> RowAfter(touches).session == LastSession(touches).value
    ensures RowAfter(touches).Present? && RowAfter(touches).online <==> StaysOpen(touches)
  {
    if touches != [] {
      OnlineExactly(touches[..|touches| - 1]);
      StaysOpenStep(touches);
    }
  }

  // ---------- takeovers ----------

  /** The session of the latest connect. */
  function Newest(touches: seq<Touch>): Option<string> {
    if touches == [] then None
    else
      var last := touches[|touches| - 1];
      if last.Connected? then Some(last.session) else Newest(touches[..|touches| - 1])
  }

  /** Session ids are fresh and not empty, disconnects name a session, and once a session
      has connected only the newest one is active. */
  predicate WellBehaved(touches: seq<Touch>) {
    && (forall i, j :: 0 <= i < j < |touches| && touches[i].Connected? && touches[j].Connected? ==>
          touches[i].session != touches[j].session)
    && (forall i :: 0 <= i < |touches| && (touches[i].Connected? || touches[i].Disconnected?) ==>
          touches[i].session != "")
    && (forall i :: 0 <= i < |touches| && touches[i].Active? ==> Newest(touches[..i]) == Some(touches[i].session))
  }

  lemma {:induction false} NewestIsLast(touches: seq<Touch>)
    requires WellBehaved(touches)
    ensures LastSession(touches) == Newest(touches)
  {
    if touches != [] {
      var init := touches[..|touches| - 1];
      assert forall i | 0 <= i < |init| :: touches[..i] == init[..i];
      NewestIsLast(init);
    }
  }

  /** The row is online exactly when the newest session has neither been marked
      disconnected nor seen a restart since it connected. */
  predicate NewestStillOn(touches: seq<Touch>, i: nat)
    requires i < |touches|
  {
    && touches[i].Connected?
    && forall j | i < j < |touches| ::
         !touches[j].Connected? && !touches[j].Restarted? && touches[j] != Disconnected(touches[i].session)
  }

  lemma {:induction false} NewestSince(touches: seq<Touch>, i: nat)
    requires i < |touches| && touches[i].Connected?
    requires forall j | i < j < |touches| :: !touches[j].Connected?
    ensures Newest(touches) == Some(touches[i].session)
  {
    if i < |touches| - 1 {
      NewestSince(touches[..|touches| - 1], i);
    }
  }

  lemma {:induction false} LatestConnect(touches: seq<Touch>) returns (i: nat)
    requires Newest(touches).Some?
    ensures i < |touches| && touches[i].Connected? && touches[i].session == Newest(touches).value
    ensures forall j | i < j < |touches| :: !touches[j].Connected?
  {
    if touches[|touches| - 1].Connected? {
      i := |touches| - 1;
    } else {
      i := LatestConnect(touches[..|touches| - 1]);
    }
  }

  lemma WellBehavedPrefix(touches: seq<Touch>, n: nat)
    requires WellBehaved(touches) && n <= |touches|
    ensures WellBehaved(touches[..n])
  {
    assert forall i | 0 <= i < n :: touches[..n][..i] == touches[..i];
  }

  /** After the newest connect, closing means a restart or that session's disconnect. */
  lemma ClosesNewest(touches: seq<Touch>, i: nat, j: nat)
    requires WellBehaved(touches) && i < j < |touches| && touches[i].Connected?
    requires forall k | i < k < |touches| :: !touches[k].Connected?
    ensures Closes(touches, j) <==> touches[j].Restarted? || touches[j] == Disconnected(touches[i].session)
  {
    WellBehavedPrefix(touches, j);
    NewestIsLast(touches[..j]);
    NewestSince(touches[..j], i);
  }

  lemma TakeoverSafe(touches: seq<Touch>)
    requires WellBehaved(touches)
    ensures RowAfter(touches).Present? && RowAfter(touches).online
      <==> exists i | 0 <= i < |touches| :: NewestStillOn(touches, i)
  {
    OnlineExactly(touches);
    NewestIsLast(touches);
    if Newest(touches).Some? {
      var i := LatestConnect(touches);
      forall j | i < j < |touches|
        ensures Closes(touches, j) <==> touches[j].Restarted? || touches[j] == Disconnected(touches[i].session)
      {
        ClosesNewest(touches, i, j);
      }
      if NewestStillOn(touches, i) {
        assert OpenSince(touches, i);
      }
      if StaysOpen(touches) {
        var k :| 0 <= k < |touches| && OpenSince(touches, k);
        NothingOpensLater(touches, i, k);
        assert NewestStillOn(touches, i);
      }
      forall k | 0 <= k < |touches| && NewestStillOn(touches, k)
        ensures k == i
      {
        assert touches[k].Connected? && touches[i].Connected?;
      }
    } else {
      forall i | 0 <= i < |touches|
        ensures !NewestStillOn(touches, i)
      {
        if NewestStillOn(touches, i) {
          NewestSince(touches, i);
        }
      }
    }
  }

  /** After the newest connect nothing else opens the row. */
  lemma NothingOpensLater(touches: seq<Touch>, i: nat, k: nat)
    requires i < |touches| && k < |touches| && touches[i].Connected? && Opens(touches, k)
    requires forall j | i < j < |touches| :: !touches[j].Connected?
    ensures k <= i
  {
    if k > i {
      NewestSince(touches[..k], i);
      SessionSeen(touches[..k], i);
    }
  }

  lemma {:induction false} SessionSeen(touches: seq<Touch>, i: nat)
    requires i < |touches| && touches[i].Connected?
    ensures LastSession(touches).Some?
  {
    if i < |touches| - 1 {
      SessionSeen(touches[..|touches| - 1], i);
    }
  }

  // ---------- on the database ----------

  /** Disconnects that name the given sessions at the given times. */
  function Disconnects(client: string, late: seq<(string, Time)>): seq<Step> {
    seq(|late|, i requires 0 <= i < |late| => Disconnect(client, late[i].0, late[i].1))
  }

  /** The disconnects of older sessions, however many, in whatever order and whenever they
      arrive, leave the database as it is. */
  lemma {:induction false} LateDisconnectsIgnored(steps: seq<Step>, client: string, late: seq<(string, Time)>)
    requires CanRun(EMPTY, steps) && WellBehaved(Touches(steps, client))
    requires forall d | d in late :: d.0 != "" && Some(d.0) != Newest(Touches(steps, client))
    ensures CanRun(EMPTY, steps + Disconnects(client, late))
    ensures After(EMPTY, steps + Disconnects(client, late)) == After(EMPTY, steps)
  {
    hide WellBehaved, Touches, Newest, MarkDisconnected, CanRun, After, Enabled, Next;
    var all := Disconnects(client, late);
    if late == [] {
      assert steps + all == steps;
    } else {
      var init, last := late[..|late| - 1], late[|late| - 1];
      var fewer := Disconnects(client, init);
      assert forall d | d in init :: d in late;
      assert last in late;
      LateDisconnectsIgnored(steps, client, init);
      assert steps + all == steps + fewer + [Disconnect(client, last.0, last.1)];
      DisconnectStep(After(EMPTY, steps), client, last.0, last.1);
      RunOneMore(EMPTY, steps + fewer, Disconnect(client, last.0, last.1));
      LateDisconnectIgnored(steps, client, last.0, last.1);
    }
  }

  lemma DisconnectStep(db: Db, client: string, session: string, at: Time)
    ensures Enabled(db, Disconnect(client, session, at))
    ensures Next(db, Disconnect(client, session, at)) ==
      db.(devices := MarkDisconnected(db.devices, client, session, at))
  {
  }

  lemma LateDisconnectIgnored(steps: seq<Step>, client: string, session: string, at: Time)
    requires CanRun(EMPTY, steps) && WellBehaved(Touches(steps, client))
    requires session != "" && Some(session) != Newest(Touches(steps, client))
    ensures MarkDisconnected(After(EMPTY, steps).devices, client, session, at) == After(EMPTY, steps).devices
  {
    hide MarkDisconnected;
    RowFollowsTouches(steps, client);
    OnlineExactly(Touches(steps, client));
    NewestIsLast(Touches(steps, client));
    DisconnectWrites(After(EMPTY, steps).devices, client, session, at);
  }

  /** Exactly which disconnects write: those that name no session, or the session the row
      holds, for a client that has a row. */
  lemma DisconnectWrites(devices: map<string, Device>, client: string, session: string, at: Time)
    ensures MarkDisconnected(devices, client, session, at) != devices ==>
      client in devices && (session == "" || session == devices[client].sessionId)
    ensures client in devices && (session == "" || session == devices[client].sessionId) ==>
      var d := MarkDisconnected(devices, client, session, at)[client];
      d.status.Offline? && d.lastDisconnectedAt == Some(at) && d.id == devices[client].id
  {
  }
}
