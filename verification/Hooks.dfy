/** internal/broker/hook.go with the checks of internal/service/ingestor.go. Between any two
    statements of a hook the hooks of other connections may act; every execution is a run
    of the machine in Sessions, and its statements are a run of the one in Ingestion. The
    hooks of one connection are called one after the other. */
module BrokerHooks {
  import opened Basics
  import opened Domain
  import opened Partitions
  import opened Ingestion
  import opened IngestService
  import opened LimiterTheory
  import opened RateLimiter
  import opened Sessions

  /** The packet goes on, or the reason code it is refused with. */
  datatype Verdict =
    | Pass | ServerBusy | ServerUnavailable | ClientIdentifierNotValid | PayloadFormatInvalid | RejectPacket

  predicate IsInvalidCode(code: string) { "invalid_" <= code }

  function PublishVerdict(error: Option<string>, timedOut: bool, qos: nat): Verdict {
    match error
    case None => Pass
    case Some(code) =>
      if code == "unsupported_payload" then (if qos > 0 then PayloadFormatInvalid else RejectPacket)
      else if (timedOut || !IsInvalidCode(code)) && qos > 0 then ServerBusy
      else RejectPacket
  }

  /** A filter no subscription is granted for. */
  const UNSUBSCRIBABLE: string := "#/#"

  lemma UnsubscribableIsInvalid()
    ensures ValidateSubscribeFilter(UNSUBSCRIBABLE) == Some("invalid_topic_filter")
  {
    assert UNSUBSCRIBABLE[..2][0] == '#';
  }

  /** Whether the broker lets a client publish to a topic or subscribe to a filter. */
  predicate OnACLCheck(topic: string, write: bool) {
    if write then ValidatePublishTopic(topic).None? else ValidateSubscribeFilter(topic).None?
  }

  /** A client id, topic and quality of service that are accepted. */
  predicate WellFormed(client: string, topic: string, qos: nat) {
    (client == "inline" || ValidateClientID(client).None?) && ValidatePublishTopic(topic).None? && qos <= 1
  }

  method ValidateFilters(filters: seq<(string, nat)>) returns (error: Option<string>)
    ensures error.None? <==> forall f | f in filters :: ValidateSubscribeFilter(f.0).None? && ValidateQoS(f.1).None?
  {
    for i := 0 to |filters|
      invariant forall k | 0 <= k < i :: ValidateSubscribeFilter(filters[k].0).None? && ValidateQoS(filters[k].1).None?
    {
      error := ValidateSubscribeFilter(filters[i].0);
      if error.None? {
        error := ValidateQoS(filters[i].1);
      }
      if error.Some? {
        assert filters[i] in filters;
        return;
      }
    }
    error := None;
  }

  // ---------- a connection among others ----------

  /** The statements made by the hooks of one connection. */
  function Own(calls: seq<Call>, conn: Conn): seq<Step> {
    if calls == [] then []
    else
      var init, last := Own(calls[..|calls| - 1], conn), calls[|calls| - 1];
      if last.Commit? && last.conn == conn then init + [last.step] else init
  }

  lemma OwnAppend(calls: seq<Call>, call: Call, conn: Conn)
    ensures Own(calls + [call], conn) ==
      Own(calls, conn) + (if call.Commit? && call.conn == conn then [call.step] else [])
  {
    assert (calls + [call])[..|calls|] == calls;
  }

  predicate SameFor(h: Hooks, h': Hooks, conn: Conn) {
    && (conn in h.sessions <==> conn in h'.sessions) && SessionOf(h, conn) == SessionOf(h', conn)
    && (conn in h.given <==> conn in h'.given)
    && (conn in h.connected <==> conn in h'.connected)
  }

  /** More has happened, but nothing by or to this connection. */
  ghost predicate Undisturbed(before: seq<Call>, after: seq<Call>, conn: Conn) {
    && before <= after && Own(after, conn) == Own(before, conn)
    && Sessions.CanRun(before) && Sessions.CanRun(after)
    && SameFor(Sessions.After(before), Sessions.After(after), conn)
  }

  lemma OneMoreCall(before: seq<Call>, calls: seq<Call>, call: Call, mine: Conn)
    requires Undisturbed(before, calls, mine) && Sessions.Enabled(Sessions.After(calls), call)
    requires !call.Restart? && !call.Other? ==> call.conn != mine
    requires !call.Restart?
    ensures Undisturbed(before, calls + [call], mine)
  {
    OwnAppend(calls, call, mine);
    CallOneMore(calls, call);
  }

  // ---------- the hooks ----------

  class Hook {
    const store: IngestStore
    const limiter: ConnectLimiter
    const maxPayload: int
    const boot: nat
    /** The session of each connection that got one. */
    var sessions: map<Conn, string>
    /** Everything the hooks of all connections have done. */
    var calls: seq<Call>

    /** The history of the hooks is a run of the machine in Sessions that ends in this
        session map and accounts for every statement committed. */
    ghost predicate Logged()
      reads this, store
    {
      && Sessions.CanRun(calls)
      && Sessions.After(calls).boot == boot && Sessions.After(calls).sessions == sessions
      && StepsOf(calls) == store.steps
    }

    ghost predicate Valid()
      reads this, store
    {
      store.Valid() && Logged()
    }

    constructor (store: IngestStore, maxPayload: int, past: seq<Call>)
      requires store.Valid() && Sessions.CanRun(past) && Sessions.After(past).sessions == map[]
      requires StepsOf(past) == store.steps
      ensures Valid() && limiter.Valid() && fresh(limiter) && fresh(limiter.Buffers())
      ensures limiter.limit == 120 && limiter.window == 60_000_000_000 && limiter.calls == []
      ensures this.store == store && this.maxPayload == maxPayload && calls == past && sessions == map[]
    {
      this.store, this.maxPayload, this.boot := store, maxPayload, Sessions.After(past).boot;
      this.limiter := new ConnectLimiter(120, MINUTE);
      this.sessions, this.calls := map[], past;
    }

    function SessionOf(conn: Conn): string
      reads this
    {
      if conn in sessions then sessions[conn] else ""
    }

    /** Enters a call that has just been carried out into the history. */
    method Record(call: Call)
      requires Sessions.CanRun(calls) && Sessions.Enabled(Sessions.After(calls), call)
      modifies this`calls
      ensures calls == old(calls) + [call]
      ensures Sessions.CanRun(calls) && Sessions.After(calls) == Sessions.Next(Sessions.After(old(calls)), call)
      ensures StepsOf(calls) == StepsOf(old(calls)) + (if StepOf(call).Some? then [StepOf(call).value] else [])
      ensures forall conn ::
        Own(calls, conn) == Own(old(calls), conn) + (if call.Commit? && call.conn == conn then [call.step] else [])
    {
      CallOneMore(calls, call);
      StepsOfAppend(calls, call);
      forall conn
        ensures Own(calls + [call], conn) ==
          Own(calls, conn) + (if call.Commit? && call.conn == conn then [call.step] else [])
      {
        OwnAppend(calls, call, conn);
      }
      calls := calls + [call];
    }

    method AssignSession(conn: Conn, session: string)
      requires Valid() && conn.boot == boot && conn !in Sessions.After(calls).given
      modifies this
      ensures Valid() && sessions == old(sessions)[conn := session]
      ensures calls == old(calls) + [Assign(conn, session)] && Own(calls, conn) == Own(old(calls), conn)
      ensures conn in Sessions.After(calls).given
      ensures conn in Sessions.After(calls).connected <==> conn in old(Sessions.After(calls).connected)
    {
      hide Sessions.CanRun, Sessions.After, Own;
      sessions := sessions[conn := session];
      Record(Assign(conn, session));
    }

    method DropSession(conn: Conn)
      requires Valid() && conn.boot == boot
      modifies this
      ensures Valid() && sessions == old(sessions) - {conn}
      ensures calls == old(calls) + [Forget(conn)] && Own(calls, conn) == Own(old(calls), conn)
    {
      hide Sessions.CanRun, Sessions.After, Own;
      sessions := sessions - {conn};
      Record(Forget(conn));
    }

    /** The store has just committed a statement of this connection that the history does
        not show yet. */
    ghost predicate Behind(conn: Conn, step: Step)
      reads this, store
    {
      && store.Valid()
      && Sessions.CanRun(calls)
      && Sessions.After(calls).boot == boot == conn.boot && Sessions.After(calls).sessions == sessions
      && store.steps == StepsOf(calls) + [step]
      && BelongsTo(step, conn.client, SessionOf(conn))
    }

    method RecordOwn(conn: Conn, step: Step)
      requires Behind(conn, step)
      requires step.Connect? ==> conn in sessions && conn !in Sessions.After(calls).connected
      modifies this`calls
      ensures Valid() && old(calls) <= calls && Own(calls, conn) == Own(old(calls), conn) + [step]
    {
      hide Sessions.CanRun, Sessions.After, IngestStore.Valid, BelongsTo, Own;
      Record(Commit(conn, step));
    }

    /** A statement of another hook or of an administrator, if it can be carried out. */
    method OtherStatement(call: Call, mine: Conn)
      requires Valid() && Sessions.Enabled(Sessions.After(calls), call)
      requires call.Other? || (call.Commit? && call.conn != mine)
      modifies this`calls, store
      ensures Valid() && sessions == old(sessions) && Undisturbed(old(calls), calls, mine)
      ensures old(store.messages) <= store.messages && old(store.parts.Keys) <= store.parts.Keys
    {
      hide Sessions.CanRun, Sessions.After, Sessions.Enabled, Sessions.Next, IngestStore.Valid;
      hide BelongsTo, WithPlace, Own, Undisturbed;
      StillUndisturbed(mine);
      var done, place := store.Perform(call.step);
      if done {
        var made := call.(step := WithPlace(call.step, place));
        PlaceIsFree(call, place);
        OneMoreCall(calls, calls, made, mine);
        Record(made);
      }
    }

    lemma StillUndisturbed(mine: Conn)
      requires Logged()
      ensures Undisturbed(calls, calls, mine)
    {
    }

    /** Which partition a message goes to is not for the hooks to say. */
    lemma PlaceIsFree(call: Call, place: Option<string>)
      requires Sessions.CanRun(calls) && Sessions.Enabled(Sessions.After(calls), call) && (call.Commit? || call.Other?)
      ensures var made := call.(step := WithPlace(call.step, place));
        && Sessions.Enabled(Sessions.After(calls), made)
        && Sessions.Next(Sessions.After(calls), made) == Sessions.Next(Sessions.After(calls), call)
        && Sessions.Next(Sessions.After(calls), call).sessions == Sessions.After(calls).sessions
        && Sessions.Next(Sessions.After(calls), call).boot == Sessions.After(calls).boot
    {
    }

    method OtherCall(call: Call, mine: Conn)
      requires Valid()
      modifies this, store
      ensures Valid() && Undisturbed(old(calls), calls, mine)
      ensures old(store.messages) <= store.messages && old(store.parts.Keys) <= store.parts.Keys
    {
      hide Sessions.CanRun, Sessions.After, IngestStore.Valid, BelongsTo, Own, Undisturbed;
      StillUndisturbed(mine);
      if !Sessions.Enabled(Sessions.After(calls), call) {
        return;
      }
      match call {
        case Assign(conn, session) =>
          if conn != mine {
            OneMoreCall(calls, calls, call, mine);
            AssignSession(conn, session);
          }
        case Forget(conn) =>
          if conn != mine {
            OneMoreCall(calls, calls, call, mine);
            DropSession(conn);
          }
        case Commit(conn, step) =>
          if conn != mine {
            OtherStatement(call, mine);
          }
        case Other(step) => OtherStatement(call, mine);
        case Restart(_) =>
      }
    }

    /** What happens in one gap of a hook of `mine`: each call acts if it can. */
    method Interfere(gap: seq<Call>, mine: Conn)
      requires Valid()
      modifies this, store
      ensures Valid() && old(calls) <= calls && Own(calls, mine) == Own(old(calls), mine)
      ensures (mine in sessions <==> mine in old(sessions)) && SessionOf(mine) == old(SessionOf(mine))
      ensures mine in Sessions.After(calls).given <==> mine in old(Sessions.After(calls).given)
      ensures mine in Sessions.After(calls).connected <==> mine in old(Sessions.After(calls).connected)
      ensures old(store.messages) <= store.messages && old(store.parts.Keys) <= store.parts.Keys
    {
      hide Sessions.CanRun, Sessions.After, Own;
      StillUndisturbed(mine);
      for i := 0 to |gap|
        invariant Valid() && Undisturbed(old(calls), calls, mine)
        invariant old(store.messages) <= store.messages && old(store.parts.Keys) <= store.parts.Keys
      {
        ghost var mid := calls;
        OtherCall(gap[i], mine);
        UndisturbedTransitive(old(calls), mid, calls, mine);
      }
    }

    lemma UndisturbedTransitive(a: seq<Call>, b: seq<Call>, c: seq<Call>, mine: Conn)
      requires Undisturbed(a, b, mine) && Undisturbed(b, c, mine)
      ensures Undisturbed(a, c, mine)
    {
    }

    // ---------- OnConnect ----------

    /** The limiter has room for an attempt that comes after the earlier ones. */
    ghost predicate LetsIn(earlier: seq<(string, Time)>, attempt: (string, Time)) {
      var l := LedgerOf(TimesOf(earlier, attempt.0), limiter.limit, limiter.window);
      Admits(l.hits, attempt.1, limiter.limit, limiter.window)
    }

    /** Asks the limiter, other attempts coming before and after. */
    method AskLimiter(key: string, now: Time, before: seq<(string, Time)>, after: seq<(string, Time)>)
      returns (ok: bool)
      requires limiter.Valid()
      modifies limiter, limiter.Buffers()
      ensures limiter.Valid() && fresh(limiter.Buffers() - old(limiter.Buffers()))
      ensures limiter.calls == old(limiter.calls) + before + [(key, now)] + after
      ensures ok <==> LetsIn(old(limiter.calls) + before, (key, now))
    {
      hide LedgerOf, TimesOf, Admits, Ask, ConnectLimiter.Holds;
      OthersArrive(before);
      ok := limiter.Allow(key, now);
      OthersArrive(after);
    }

    method OthersArrive(attempts: seq<(string, Time)>)
      requires limiter.Valid()
      modifies limiter, limiter.Buffers()
      ensures limiter.Valid() && fresh(limiter.Buffers() - old(limiter.Buffers()))
      ensures limiter.calls == old(limiter.calls) + attempts
    {
      hide LedgerOf, TimesOf, Admits, Ask;
      for i := 0 to |attempts|
        invariant limiter.Valid() && fresh(limiter.Buffers() - old(limiter.Buffers()))
        invariant limiter.calls == old(limiter.calls) + attempts[..i]
      {
        var _ := limiter.Allow(attempts[i].0, attempts[i].1);
        assert attempts[..i + 1] == attempts[..i] + [attempts[i]];
      }
      assert attempts[..|attempts|] == attempts;
    }

    /** `Ingestor.EnsureConnected`: the code of what went wrong, if anything. */
    method EnsureConnected(conn: Conn, session: string, at: Time, metadata: map<string, string>,
                           freshId: Id, fault: bool) returns (error: Option<string>)
      requires Valid() && conn.boot == boot && conn in sessions && sessions[conn] == session
      requires conn !in Sessions.After(calls).connected
      modifies this`calls, store
      ensures Valid()
      ensures error.None? ==>
        && ValidateClientID(conn.client).None?
        && Own(calls, conn) == Own(old(calls), conn) + [Connect(conn.client, session, at, metadata, freshId)]
        && conn.client in store.devices && store.devices[conn.client].status.Online?
        && store.devices[conn.client].sessionId == session
      ensures error.Some? ==> Own(calls, conn) == Own(old(calls), conn)
      ensures error == Some("invalid_client_id") <==> ValidateClientID(conn.client).Some?
    {
      ClientIDCode(conn.client);
      hide Sessions.CanRun, Sessions.After, IngestStore.Valid, StepsOf, Own, ValidateClientID, CannotInsert;
      error := ValidateClientID(conn.client);
      if error.Some? {
        return;
      }
      error := store.UpsertConnected(conn.client, session, at, metadata, freshId, fault);
      if error.None? {
        RecordOwn(conn, Connect(conn.client, session, at, metadata, freshId));
      }
    }

    lemma ClientIDCode(client: string)
      ensures ValidateClientID(client).Some? ==> ValidateClientID(client) == Some("invalid_client_id")
    {
    }

    /** Past the limiter: the session is handed out, then the row is written. */
    method Register(conn: Conn, session: string, at: Time, metadata: map<string, string>, freshId: Id, fault: bool,
                    beforeAssign: seq<Call>, beforeUpsert: seq<Call>) returns (error: Option<string>)
      requires Valid() && conn.boot == boot && conn !in Sessions.After(calls).given
      modifies this, store
      ensures Valid() && conn in sessions && sessions[conn] == session
      ensures error.None? ==>
        && Own(calls, conn) == Own(old(calls), conn) + [Connect(conn.client, session, at, metadata, freshId)]
        && conn.client in store.devices && store.devices[conn.client].status.Online?
        && store.devices[conn.client].sessionId == session
      ensures error.Some? ==> Own(calls, conn) == Own(old(calls), conn)
      ensures error == Some("invalid_client_id") <==> ValidateClientID(conn.client).Some?
    {
      GivenCovers(calls);
      hide Sessions.CanRun, Sessions.After, Own, IngestStore.Valid, StepsOf, ValidateClientID;
      Interfere(beforeAssign, conn);
      AssignSession(conn, session);
      Interfere(beforeUpsert, conn);
      error := EnsureConnected(conn, session, at, metadata, freshId, fault);
    }

    /** A connect goes through only if the limiter has room and the device row is online
        under the new session; one the limiter refuses makes no statement and gets no
        session. */
    method OnConnect(conn: Conn, remote: string, metadata: map<string, string>, now: Time, sessionId: string,
                     freshId: Id, fault: bool, before: seq<(string, Time)>, after: seq<(string, Time)>,
                     beforeAssign: seq<Call>, beforeUpsert: seq<Call>) returns (verdict: Verdict)
      requires Valid() && limiter.Valid() && conn.boot == boot && conn !in Sessions.After(calls).given
      modifies this, store, limiter, limiter.Buffers()
      ensures Valid() && limiter.Valid() && fresh(limiter.Buffers() - old(limiter.Buffers()))
      ensures limiter.calls ==
        old(limiter.calls) + before + [(if remote != "" then remote else conn.client, now)] + after
      ensures
        if LetsIn(old(limiter.calls) + before, (if remote != "" then remote else conn.client, now)) then
          && SessionOf(conn) == sessionId
          && (verdict.ClientIdentifierNotValid? <==> ValidateClientID(conn.client).Some?)
          && (verdict.Pass? || verdict.ClientIdentifierNotValid? || verdict.ServerUnavailable?)
        else verdict.ServerBusy? && conn !in sessions
      ensures verdict.Pass? ==>
        && Own(calls, conn) == Own(old(calls), conn) + [Connect(conn.client, sessionId, now, metadata, freshId)]
        && conn.client in store.devices && store.devices[conn.client].status.Online?
        && store.devices[conn.client].sessionId == sessionId
      ensures !verdict.Pass? ==> Own(calls, conn) == Own(old(calls), conn)
    {
      GivenCovers(calls);
      hide Sessions.CanRun, Sessions.After, Own, IngestStore.Valid, Hook.Logged, LetsIn, ConnectLimiter.Holds;
      hide ValidateClientID;
      var key := remote;
      if key == "" {
        key := conn.client;
      }
      var ok := AskLimiter(key, now, before, after);
      if !ok {
        return ServerBusy;
      }
      var error := Register(conn, sessionId, now, metadata, freshId, fault, beforeAssign, beforeUpsert);
      if error.None? {
        return Pass;
      }
      verdict := if error.value == "invalid_client_id" then ClientIdentifierNotValid else ServerUnavailable;
    }

    /** Attempts from elsewhere do not count: with another key before it, an attempt is decided
        as if they had not been made, wherever they come. */
    lemma OthersDoNotCount(earlier: seq<(string, Time)>, other: (string, Time), later: seq<(string, Time)>,
                           attempt: (string, Time))
      requires other.0 != attempt.0
      ensures LetsIn(earlier + [other] + later, attempt) <==> LetsIn(earlier + later, attempt)
    {
      hide LedgerOf, Admits;
      TimesWithout(earlier, other, later, attempt.0);
    }

    lemma {:induction false} TimesWithout(earlier: seq<(string, Time)>, other: (string, Time),
                                          later: seq<(string, Time)>, key: string)
      requires other.0 != key
      ensures TimesOf(earlier + [other] + later, key) == TimesOf(earlier + later, key)
    {
      if later == [] {
        TimesOfAppend(earlier, other, key);
        assert earlier + [other] + later == earlier + [other] && earlier + later == earlier;
      } else {
        var init, last := later[..|later| - 1], later[|later| - 1];
        TimesWithout(earlier, other, init, key);
        assert earlier + [other] + later == (earlier + [other] + init) + [last];
        assert earlier + later == (earlier + init) + [last];
        TimesOfAppend(earlier + [other] + init, last, key);
        TimesOfAppend(earlier + init, last, key);
      }
    }

    // ---------- OnDisconnect ----------

    /** Reports the end of exactly the session this connection was given, however many other
        connections of the client have come since, and forgets it. */
    method OnDisconnect(conn: Conn, at: Time, fault: bool, beforeMark: seq<Call>, beforeForget: seq<Call>)
      requires Valid() && conn.boot == boot
      modifies this, store
      ensures Valid() && conn !in sessions
      ensures Own(calls, conn) == Own(old(calls), conn) +
        (if conn.client == "" || fault then [] else [Disconnect(conn.client, old(SessionOf(conn)), at)])
    {
      hide Sessions.CanRun, Sessions.After, Own, IngestStore.Valid, StepsOf;
      var session := SessionOf(conn);
      Interfere(beforeMark, conn);
      if conn.client != "" {
        var error := store.MarkDisconnected(conn.client, session, at, fault);
        if error.None? {
          RecordOwn(conn, Disconnect(conn.client, session, at));
        }
      }
      Interfere(beforeForget, conn);
      DropSession(conn);
    }

    // ---------- OnPublish ----------

    /** `PersistPublish`: first the partition, then one transaction, with other requests in
        between. Statement number `failAt` fails, if there is one; after a failure no part
        of the transaction is left behind. */
    method PersistPublish(conn: Conn, ev: PublishEvent, freshId: Id, messageId: Id, failAt: nat, between: seq<Call>)
      returns (error: Option<string>)
      requires Valid() && conn.boot == boot && ev.clientId == conn.client && ev.sessionId == SessionOf(conn)
      modifies this, store
      ensures Valid() && old(store.messages) <= store.messages
      ensures error.None? ==>
        && failAt >= 6
        && Own(calls, conn) == Own(old(calls), conn) + Persisted(ev, freshId, messageId)
        && |store.messages| > |old(store.messages)|
        && IsRowOf(store.messages[|store.messages| - 1], ev, messageId)
      ensures error.Some? ==>
        || Own(calls, conn) == Own(old(calls), conn)
        || Own(calls, conn) == Own(old(calls), conn) + [EnsurePartition(ev.receivedAt)]
      ensures error.Some? ==>
        || failAt < 6 || (ev.clientId != INLINE && CannotInsert(store.devices, ev.clientId, freshId))
        || MessageIdUsed(store.Tables(), messageId, ev.receivedAt)
      ensures error.Some? ==> error == Some(INTERNAL)
    {
      hide Sessions.CanRun, Sessions.After, Own, IngestStore.Valid, StepsOf, TableName, MonthOfInstant;
      hide CannotInsert, MessageIdUsed, IsRowOf;
      error := store.EnsureMessagePartition(ev.receivedAt, failAt == 0);
      if error.Some? {
        return;
      }
      RecordOwn(conn, EnsurePartition(ev.receivedAt));
      Interfere(between, conn);
      error := CommitMessage(conn, ev, freshId, messageId, failAt);
    }

    method CommitMessage(conn: Conn, ev: PublishEvent, freshId: Id, messageId: Id, failAt: nat)
      returns (error: Option<string>)
      requires Valid() && conn.boot == boot && ev.clientId == conn.client && ev.sessionId == SessionOf(conn)
      requires TableName(MonthOfInstant(ev.receivedAt)) in store.parts
      modifies this`calls, store
      ensures Valid() && old(store.messages) <= store.messages
      ensures error.None? ==>
        && failAt >= 6
        && Own(calls, conn) == Own(old(calls), conn) +
             [Persist(ev, freshId, messageId, Some(TableName(MonthOfInstant(ev.receivedAt))))]
        && |store.messages| == |old(store.messages)| + 1
        && IsRowOf(store.messages[|store.messages| - 1], ev, messageId)
      ensures error.Some? ==> Own(calls, conn) == Own(old(calls), conn)
      ensures error.Some? ==>
        || failAt < 6 || (ev.clientId != INLINE && CannotInsert(store.devices, ev.clientId, freshId))
        || MessageIdUsed(store.Tables(), messageId, ev.receivedAt)
      ensures error.Some? ==> error == Some(INTERNAL)
    {
      hide Sessions.CanRun, Sessions.After, Own, IngestStore.Valid, StepsOf, TableName, MonthOfInstant;
      hide CannotInsert, MessageIdUsed, MessageOk;
      error := store.PersistTransaction(ev, freshId, messageId, failAt);
      if error.None? {
        store.MessagesHold();
        RecordOwn(conn, Persist(ev, freshId, messageId, store.messages[|store.messages| - 1].place));
      }
    }

    /** The row is the event's, under the given id, in the month's partition and with its
        topic and device. */
    predicate IsRowOf(row: Stored, ev: PublishEvent, messageId: Id)
      reads store
    {
      && row.message.id == messageId && row.message.event == ev
      && MessageOk(store.Tables(), row)
    }

    /** Persist before route: the packet passes exactly when this call has committed its
        message, and then the row is there; otherwise the call has committed nothing but,
        at most, the month's partition. A payload of None is one that is not UTF-8 text. */
    method OnPublish(conn: Conn, topic: string, payload: Option<string>, qos: nat, retain: bool, now: Time,
                     freshId: Id, messageId: Id, failAt: nat, timedOut: bool, before: seq<Call>, between: seq<Call>)
      returns (verdict: Verdict)
      requires Valid() && conn.boot == boot
      modifies this, store
      ensures Valid() && old(store.messages) <= store.messages
      ensures verdict.Pass? ==>
        && payload.Some?
        && var ev := PublishEvent(conn.client, old(SessionOf(conn)), topic, payload.value, qos, retain, now);
        && Own(calls, conn) == Own(old(calls), conn) + Persisted(ev, freshId, messageId)
        && |store.messages| > |old(store.messages)|
        && IsRowOf(store.messages[|store.messages| - 1], ev, messageId)
      ensures !verdict.Pass? ==>
        || Own(calls, conn) == Own(old(calls), conn)
        || Own(calls, conn) == Own(old(calls), conn) + [EnsurePartition(now)]
      ensures !verdict.Pass? ==>
        verdict ==
          if !WellFormed(conn.client, topic, qos) || qos == 0 then RejectPacket
          else if payload.None? then PayloadFormatInvalid else ServerBusy
    {
      hide Sessions.CanRun, Sessions.After, Own, IngestStore.Valid, StepsOf, IsRowOf, Persisted;
      hide PublishVerdict, IsInvalidCode;
      hide ValidateClientID, ValidatePublishTopic, ValidateTextPayload, CannotInsert, MessageIdUsed;
      var text := if payload.None? then "" else payload.value;
      var ev := PublishEvent(conn.client, SessionOf(conn), topic, text, qos, retain, now);
      var error := CheckPublish(ev, payload.None?);
      Interfere(before, conn);
      VerdictByCode(error, false, qos);
      if error.Some? {
        return PublishVerdict(error, false, qos);
      }
      error := PersistPublish(conn, ev, freshId, messageId, failAt, between);
      VerdictByCode(error, timedOut, qos);
      verdict := PublishVerdict(error, timedOut, qos);
    }

    /** The codes of the checks: all but the one on the size begin with "invalid_". */
    lemma CheckCodes(client: string, topic: string, qos: nat, payload: string)
      ensures ValidateClientID(client).Some? ==> IsInvalidCode(ValidateClientID(client).value)
      ensures ValidatePublishTopic(topic).Some? ==> IsInvalidCode(ValidatePublishTopic(topic).value)
      ensures ValidateQoS(qos).Some? <==> qos > 1
      ensures ValidateQoS(qos).Some? ==> IsInvalidCode(ValidateQoS(qos).value)
      ensures ValidateTextPayload(payload, maxPayload).Some? ==>
        ValidateTextPayload(payload, maxPayload) == Some("payload_too_large")
    {
      assert "invalid_" <= "invalid_client_id" && "invalid_" <= "invalid_topic" && "invalid_" <= "invalid_qos";
    }

    /** What a packet is refused with, by the code of what went wrong. */
    lemma VerdictByCode(error: Option<string>, timedOut: bool, qos: nat)
      ensures error.None? ==> PublishVerdict(error, timedOut, qos) == Pass
      ensures error.Some? && IsInvalidCode(error.value) ==> PublishVerdict(error, false, qos) == RejectPacket
      ensures error == Some("unsupported_payload") ==>
        PublishVerdict(error, timedOut, qos) == if qos > 0 then PayloadFormatInvalid else RejectPacket
      ensures error == Some(INTERNAL) || error == Some("payload_too_large") ==>
        PublishVerdict(error, timedOut, qos) == if qos > 0 then ServerBusy else RejectPacket
    {
      assert "invalid_"[0] == 'i' && "invalid_"[2] == 'v';
      assert "unsupported_payload"[0] == 'u' && "payload_too_large"[0] == 'p';
      assert INTERNAL[0] == 'i' && INTERNAL[2] == 't';
    }

    /** The checks of `Ingestor.PersistBeforeRoute`, in order. */
    method CheckPublish(ev: PublishEvent, notText: bool) returns (error: Option<string>)
      ensures error.None? ==> !notText
      ensures error.Some? ==>
        if !WellFormed(ev.clientId, ev.topic, ev.qos) then IsInvalidCode(error.value)
        else error == Some(if notText then "unsupported_payload" else "payload_too_large")
      ensures error.None? <==>
        && (ev.clientId == INLINE || ValidateClientID(ev.clientId).None?)
        && ValidatePublishTopic(ev.topic).None? && ValidateQoS(ev.qos).None?
        && !notText && ValidateTextPayload(ev.payload, maxPayload).None?
    {
      CheckCodes(ev.clientId, ev.topic, ev.qos, ev.payload);
      hide ValidateClientID, ValidatePublishTopic, ValidateTextPayload, ValidateQoS, IsInvalidCode;
      error := if ev.clientId == INLINE then None else ValidateClientID(ev.clientId);
      if error.None? {
        error := ValidatePublishTopic(ev.topic);
      }
      if error.None? {
        error := ValidateQoS(ev.qos);
      }
      if error.None? {
        error := if notText then Some("unsupported_payload") else ValidateTextPayload(ev.payload, maxPayload);
      }
    }

    // ---------- OnSubscribe ----------

    /** The filters that go on to the broker: the client's own exactly if this call has
        recorded them, else filters that the access check refuses. */
    method OnSubscribe(conn: Conn, filters: seq<(string, nat)>, now: Time, freshId: Id, failAt: nat, before: seq<Call>)
      returns (out: seq<(string, nat)>)
      requires Valid() && conn.boot == boot
      modifies this, store
      ensures Valid() && |out| == |filters|
      ensures
        if Own(calls, conn) == Own(old(calls), conn) then forall f | f in out :: !OnACLCheck(f.0, false)
        else
          && out == filters && ValidateClientID(conn.client).None?
          && (forall f | f in filters :: ValidateSubscribeFilter(f.0).None? && ValidateQoS(f.1).None?)
          && Own(calls, conn) ==
               Own(old(calls), conn) + [Subscribe(conn.client, old(SessionOf(conn)), filters, now, freshId)]
    {
      hide Sessions.CanRun, Sessions.After, Own, IngestStore.Valid, StepsOf;
      hide ValidateClientID, ValidateSubscribeFilter, CannotInsert;
      var session := SessionOf(conn);
      var error := ValidateClientID(conn.client);
      if error.None? {
        error := ValidateFilters(filters);
      }
      Interfere(before, conn);
      if error.None? {
        error := store.RecordSubscription(conn.client, session, filters, now, freshId, failAt);
        if error.None? {
          RecordOwn(conn, Subscribe(conn.client, session, filters, now, freshId));
          return filters;
        }
      }
      out := Unsubscribable(filters);
    }

    method Unsubscribable(filters: seq<(string, nat)>) returns (out: seq<(string, nat)>)
      ensures |out| == |filters| && forall f | f in out :: f.0 == UNSUBSCRIBABLE && !OnACLCheck(f.0, false)
    {
      UnsubscribableIsInvalid();
      hide ValidateSubscribeFilter;
      out := filters;
      for i := 0 to |filters|
        invariant |out| == |filters|
        invariant forall k | 0 <= k < i :: out[k].0 == UNSUBSCRIBABLE
      {
        out := out[i := (UNSUBSCRIBABLE, out[i].1)];
      }
    }
  }

  /** The status of a device, for everything these hooks can do in any interleaving: with
      fresh session ids and harmless calls it is online exactly while the client's newest
      connection stands. */
  lemma DeviceStatus(hook: Hook, client: string)
    requires hook.Valid() && FreshIds(hook.calls) && Harmless(hook.calls, client)
    ensures client in hook.store.devices && hook.store.devices[client].status.Online?
      <==> Standing(hook.calls, client).Some?
  {
    OnlineWhileStanding(hook.calls, client);
  }

  /** What a persisted publish commits. */
  function Persisted(ev: PublishEvent, freshId: Id, messageId: Id): seq<Step> {
    [EnsurePartition(ev.receivedAt), Persist(ev, freshId, messageId, Some(TableName(MonthOfInstant(ev.receivedAt))))]
  }

  // ---------- starting the server ----------

  /** A start takes over the tables as earlier processes left them: no row stays online, and
      no connection has a session. It fails if the statement does. */
  method StartServer(store: IngestStore, past: seq<Call>, maxPayload: int, at: Time, fault: bool)
    returns (hook: Result<Hook>)
    requires store.Valid() && Sessions.CanRun(past) && StepsOf(past) == store.steps
    modifies store
    ensures store.Valid() && (hook.Ok? <==> !fault)
    ensures hook.Err? ==> store.steps == old(store.steps)
    ensures hook.Ok? ==>
      && fresh(hook.value) && hook.value.store == store && hook.value.Valid() && hook.value.limiter.Valid()
      && hook.value.calls == past + [Restart(at)] && hook.value.sessions == map[]
      && forall c | c in store.devices :: !store.devices[c].status.Online?
  {
    var count := store.MarkStaleOnline(at, fault);
    if count.Err? {
      return Err(count.code);
    }
    CallOneMore(past, Restart(at));
    StepsOfAppend(past, Restart(at));
    var started := new Hook(store, maxPayload, past + [Restart(at)]);
    hook := Ok(started);
  }
}
