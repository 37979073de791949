/** The ingestion half of internal/storage/postgres/store.go over mutable tables. */
module IngestService {
  import opened Basics
  import opened Partitions
  import opened Ingestion

  const INTERNAL: string := "internal_error"

  class IngestStore {
    var devices: map<string, Device>
    var observed: map<TopicKey, ObservedTopic>
    var messages: seq<Stored>
    var parts: Parts
    var changes: seq<TypeChange>
    /** Everything committed so far. */
    ghost var steps: seq<Step>

    function Tables(): Db
      reads this
    {
      Db(devices, observed, messages, parts, changes)
    }

    ghost predicate Valid()
      reads this
    {
      CanRun(EMPTY, steps) && After(EMPTY, steps) == Tables()
    }

    constructor ()
      ensures Valid() && Tables() == EMPTY && steps == []
    {
      devices, observed, messages, parts, changes, steps := map[], map[], [], map[], [], [];
    }

    lemma InvHolds()
      requires Valid()
      ensures Inv(Tables())
    {
      RunKeepsInv(steps);
    }

    lemma MessagesHold()
      requires Valid()
      ensures forall m | m in messages ::
        MessageOk(Tables(), m) && m.place == Some(TableName(MonthOfInstant(m.message.event.receivedAt)))
    {
      InvHolds();
      hide TableName, MonthOfInstant;
    }

    ghost method Record(before: Db, step: Step)
      requires CanRun(EMPTY, steps) && After(EMPTY, steps) == before
      requires Enabled(before, step) && Tables() == Next(before, step)
      modifies this`steps
      ensures Valid() && steps == old(steps) + [step]
    {
      RunOneMore(EMPTY, steps, step);
      steps := steps + [step];
    }

    method UpsertConnected(client: string, session: string, at: Time, metadata: map<string, string>,
                           freshId: Id, fault: bool) returns (error: Option<string>)
      requires Valid()
      modifies this
      ensures Valid()
      ensures error == if fault || CannotInsert(old(devices), client, freshId) then Some(INTERNAL) else None
      ensures steps == old(steps) + (if error.None? then [Connect(client, session, at, metadata, freshId)] else [])
      ensures error.None? ==>
        client in devices && devices[client].status.Online? && devices[client].sessionId == session
    {
      if fault || CannotInsert(devices, client, freshId) {
        return Some(INTERNAL);
      }
      ghost var before := Tables();
      if client in devices {
        var d := devices[client];
        devices := devices[client :=
          d.(status := Online, sessionId := session, lastSeenAt := at, metadata := d.metadata + metadata)];
      } else {
        devices := devices[client := Device(freshId, UNKNOWN, Online, session, at, at, None, metadata)];
      }
      Record(before, Connect(client, session, at, metadata, freshId));
      return None;
    }

    /** One transaction: the device row, then one row for each filter. Statement number
        `failAt` fails, if there is one. */
    method RecordSubscription(client: string, session: string, subs: seq<(string, nat)>, at: Time,
                              freshId: Id, failAt: nat) returns (error: Option<string>)
      requires Valid()
      modifies this
      ensures Valid()
      ensures error.None? <==> failAt >= |subs| + 3 && !CannotInsert(old(devices), client, freshId)
      ensures steps == if error.None? then old(steps) + [Subscribe(client, session, subs, at, freshId)] else old(steps)
    {
      if failAt <= 1 || CannotInsert(devices, client, freshId) {
        return Some(INTERNAL);
      }
      var rows := EnsureDevice(devices, client, session, at, freshId);
      var topics := observed;
      for i := 0 to |subs|
        invariant topics == UpsertFilters(observed, client, subs[..i], rows[client].id, at)
        invariant failAt >= i + 2
      {
        if failAt == i + 2 {
          return Some(INTERNAL);
        }
        assert subs[..i + 1][..i] == subs[..i];
        var key := TopicKey(client, subs[i].0, SubscribeFilter);
        topics := UpsertTopic(topics, key, Some(rows[client].id), subs[i].1, at);
      }
      assert subs[..|subs|] == subs;
      if failAt == |subs| + 2 {
        return Some(INTERNAL);
      }
      ghost var before := Tables();
      devices, observed := rows, topics;
      Record(before, Subscribe(client, session, subs, at, freshId));
      return None;
    }

    /** Refuses nothing: the month's partition is there afterwards unless the statement
        fails. */
    method EnsureMessagePartition(at: Time, fault: bool) returns (error: Option<string>)
      requires Valid()
      modifies this
      ensures Valid()
      ensures error == if fault then Some(INTERNAL) else None
      ensures error.None? ==> TableName(MonthOfInstant(at)) in parts
      ensures steps == if error.None? then old(steps) + [EnsurePartition(at)] else old(steps)
      ensures Tables().(parts := old(parts)) == old(Tables())
    {
      if fault {
        return Some(INTERNAL);
      }
      ghost var before := Tables();
      var month := MonthOfInstant(at);
      var name := TableName(month);
      PartitionsHold(steps, Stored(Message("", None, PublishEvent("", "", "", "", 0, false, 0)), None), at);
      if name !in parts {
        parts := parts[name := MonthRange(month)];
      }
      Record(before, EnsurePartition(at));
      return None;
    }

    /** Finds the partition for an instant. */
    method Route(at: Time) returns (place: Option<string>)
      ensures IsPlace(parts, at, place)
    {
      var left := parts.Keys;
      while left != {}
        invariant left <= parts.Keys
        invariant forall name | name in parts && name !in left :: !parts[name].Contains(at)
        decreases |left|
      {
        var name :| name in left;
        if parts[name].Contains(at) {
          return Some(name);
        }
        left := left - {name};
      }
      place := None;
    }

    /** The transaction of `PersistPublish`: device row, observed topic, message. Statement
        number `failAt` fails, if there is one; it commits as a whole or changes nothing. */
    method PersistTransaction(ev: PublishEvent, freshId: Id, messageId: Id, failAt: nat) returns (error: Option<string>)
      requires Valid() && TableName(MonthOfInstant(ev.receivedAt)) in parts
      modifies this
      ensures Valid()
      ensures error.Some? ==> error == Some(INTERNAL)
      ensures error.None? <==>
        && failAt >= 6
        && (ev.clientId == INLINE || !CannotInsert(old(devices), ev.clientId, freshId))
        && !MessageIdUsed(old(Tables()), messageId, ev.receivedAt)
      ensures error.None? ==>
        && |messages| == |old(messages)| + 1 && messages[..|old(messages)|] == old(messages)
        && messages[|old(messages)|].message.id == messageId
        && messages[|old(messages)|].message.event == ev
        && steps == old(steps) + [Persist(ev, freshId, messageId, messages[|old(messages)|].place)]
      ensures error.Some? ==> Tables() == old(Tables()) && steps == old(steps)
    {
      if failAt == 1 {
        return Some(INTERNAL);
      }
      var rows := devices;
      var deviceId: Option<Id> := None;
      var kind := PublishTopic;
      if ev.clientId == INLINE {
        kind := AdminPublishTopic;
      } else {
        if failAt == 2 || CannotInsert(devices, ev.clientId, freshId) {
          return Some(INTERNAL);
        }
        rows := EnsureDevice(devices, ev.clientId, ev.sessionId, ev.receivedAt, freshId);
        deviceId := Some(rows[ev.clientId].id);
      }
      if failAt <= 3 {
        return Some(INTERNAL);
      }
      var topics := UpsertTopic(observed, TopicKey(ev.clientId, ev.topic, kind), deviceId, ev.qos, ev.receivedAt);
      if failAt == 4 || MessageIdUsed(Tables(), messageId, ev.receivedAt) {
        return Some(INTERNAL);
      }
      var place := Route(ev.receivedAt);
      if failAt == 5 {
        return Some(INTERNAL);
      }
      ghost var before := Tables();
      devices, observed, messages := rows, topics, messages + [Stored(Message(messageId, deviceId, ev), place)];
      Record(before, Persist(ev, freshId, messageId, place));
      return None;
    }

    method MarkDisconnected(client: string, session: string, at: Time, fault: bool) returns (error: Option<string>)
      requires Valid()
      modifies this
      ensures Valid()
      ensures error.None? <==> !fault
      ensures steps == if error.None? then old(steps) + [Disconnect(client, session, at)] else old(steps)
    {
      if fault {
        return Some(INTERNAL);
      }
      ghost var before := Tables();
      if client in devices && (session == "" || devices[client].sessionId == session) {
        var d := devices[client];
        devices := devices[client := d.(status := Offline, lastDisconnectedAt := Some(at), lastSeenAt := at)];
      }
      Record(before, Disconnect(client, session, at));
      return None;
    }

    /** Returns how many rows were online; none is afterwards. */
    method MarkStaleOnline(at: Time, fault: bool) returns (count: Result<nat>)
      requires Valid()
      modifies this
      ensures Valid()
      ensures count.Ok? <==> !fault
      ensures count.Ok? ==>
        && count.value == |set c | c in old(devices) && old(devices)[c].status.Online?|
        && forall c | c in devices :: !devices[c].status.Online?
      ensures steps == if count.Ok? then old(steps) + [StaleOnline(at)] else old(steps)
    {
      if fault {
        return Err(INTERNAL);
      }
      ghost var before := Tables();
      var online := set c | c in devices && devices[c].status.Online?;
      devices := Ingestion.MarkStaleOnline(devices, at);
      Record(before, StaleOnline(at));
      return Ok(|online|);
    }

    method RecordAdminPublishTopic(topic: string, qos: nat, at: Time, fault: bool) returns (error: Option<string>)
      requires Valid()
      modifies this
      ensures Valid()
      ensures error.None? <==> !fault
      ensures steps == if error.None? then old(steps) + [AdminTopic(topic, qos, at)] else old(steps)
    {
      if fault {
        return Some(INTERNAL);
      }
      ghost var before := Tables();
      observed := RecordAdminTopic(observed, topic, qos, at);
      Record(before, AdminTopic(topic, qos, at));
      return None;
    }

    /** One transaction: the row with the device id is locked, its type replaced and the
        change logged. Statement number `failAt` fails, if there is one. */
    method ChangeDeviceType(deviceId: Id, newKind: string, actorId: Id, at: Time, failAt: nat)
      returns (error: Option<string>)
      requires Valid()
      modifies this
      ensures Valid()
      ensures error.None? <==> DeviceIdUsed(old(devices), deviceId) && failAt >= 5
      ensures steps == if error.None? then old(steps) + [ChangeType(deviceId, newKind, actorId, at)] else old(steps)
      ensures error.Some? ==> Tables() == old(Tables())
    {
      if failAt == 0 {
        return Some(INTERNAL);
      }
      // Statements work on the transaction's view until it commits.
      ghost var before := Tables();
      var view := Tables();
      if failAt == 1 || !DeviceIdUsed(view.devices, deviceId) {
        return Some(INTERNAL);
      }
      var client :| client in view.devices && view.devices[client].id == deviceId;
      var oldKind := view.devices[client].kind;
      if failAt == 2 {
        return Some(INTERNAL);
      }
      view := view.(devices := view.devices[client := view.devices[client].(kind := newKind)]);
      if failAt == 3 {
        return Some(INTERNAL);
      }
      view := view.(changes := view.changes + [TypeChange(deviceId, oldKind, newKind, actorId, at)]);
      if failAt == 4 {
        return Some(INTERNAL);
      }
      InvHolds();
      assert client == ClientOf(devices, deviceId);
      devices, changes := view.devices, view.changes;
      Record(before, ChangeType(deviceId, newKind, actorId, at));
      return None;
    }

    // ---------- statements of other requests ----------

    /** Carries out the statement if it can be; a message goes to whatever partition there
        is for it. */
    method Perform(step: Step) returns (done: bool, place: Option<string>)
      requires Valid()
      modifies this
      ensures Valid()
      ensures steps == if done then old(steps) + [WithPlace(step, place)] else old(steps)
      ensures old(messages) <= messages && old(parts.Keys) <= parts.Keys
    {
      hide CanRun, After, Enabled, Next, TableName, MonthOfInstant, MonthRange, CannotInsert, MessageIdUsed;
      var error: Option<string> := Some(INTERNAL);
      place := None;
      ghost var before := steps;
      match step {
        case Connect(client, session, at, metadata, freshId) =>
          error := UpsertConnected(client, session, at, metadata, freshId, false);
        case Subscribe(client, session, subs, at, freshId) =>
          error := RecordSubscription(client, session, subs, at, freshId, |subs| + 3);
        case EnsurePartition(at) =>
          error := EnsureMessagePartition(at, false);
        case Persist(ev, freshId, messageId, _) =>
          if TableName(MonthOfInstant(ev.receivedAt)) in parts {
            error := PersistTransaction(ev, freshId, messageId, 6);
            if error.None? {
              place := messages[|messages| - 1].place;
            }
          }
        case AdminTopic(topic, qos, at) =>
          error := RecordAdminPublishTopic(topic, qos, at, false);
        case Disconnect(client, session, at) =>
          error := MarkDisconnected(client, session, at, false);
        case StaleOnline(at) =>
          var count := MarkStaleOnline(at, false);
          error := None;
        case ChangeType(deviceId, newKind, actorId, at) =>
          error := ChangeDeviceType(deviceId, newKind, actorId, at, 5);
      }
      done := error.None?;
      if done {
        RunGrows(before, WithPlace(step, place));
      }
    }
  }

  function WithPlace(step: Step, place: Option<string>): Step {
    if step.Persist? then step.(place := place) else step
  }

  /** Messages and partitions are never removed. */
  lemma RunGrows(steps: seq<Step>, step: Step)
    requires CanRun(EMPTY, steps + [step])
    ensures CanRun(EMPTY, steps)
    ensures var db, db' := After(EMPTY, steps), After(EMPTY, steps + [step]);
      db.messages <= db'.messages && db.parts.Keys <= db'.parts.Keys
  {
    assert (steps + [step])[..|steps|] == steps;
    RunKeepsInv(steps);
    PartsKept(After(EMPTY, steps), step);
  }
}
