/** What the statements of the ingestion tables write, field by field. */
module IngestionWrites {
  import opened Basics
  import opened Partitions
  import opened Ingestion

  // ---------- device rows ----------

  predicate OnlyDevice(db: Db, db': Db, client: string) {
    && db'.devices.Keys == db.devices.Keys + {client}
    && forall other | other in db.devices && other != client :: db'.devices[other] == db.devices[other]
  }

  /** A connect brings the row online under its session and adds what it reports to the
      metadata; a new row starts with a fresh id, of unknown kind and never disconnected. */
  lemma ConnectWrites(db: Db, client: string, session: string, at: Time, metadata: map<string, string>, freshId: Id)
    requires Enabled(db, Connect(client, session, at, metadata, freshId))
    ensures var db' := Next(db, Connect(client, session, at, metadata, freshId));
      && OnlyDevice(db, db', client) && db' == db.(devices := db'.devices)
      && var d := db'.devices[client];
      && d.status == Online && d.sessionId == session && d.lastSeenAt == at
      && (forall k | k in metadata :: k in d.metadata && d.metadata[k] == metadata[k])
      && (client in db.devices ==>
            var was := db.devices[client];
            && d.id == was.id && d.kind == was.kind && d.firstSeenAt == was.firstSeenAt
            && d.lastDisconnectedAt == was.lastDisconnectedAt
            && d.metadata.Keys == was.metadata.Keys + metadata.Keys
            && forall k | k in was.metadata && k !in metadata :: d.metadata[k] == was.metadata[k])
      && (client !in db.devices ==>
            && d.id == freshId && d.kind == "unknown" && d.firstSeenAt == at
            && d.lastDisconnectedAt == None && d.metadata == metadata)
  {
  }

  /** Activity moves the row to its session and time; the status of an existing row stays,
      a new row starts online. */
  predicate ActiveRow(db: Db, client: string, d: Device, session: string, at: Time, freshId: Id) {
    if client in db.devices then
      d == db.devices[client].(sessionId := session, lastSeenAt := at)
    else
      && d.id == freshId && d.kind == "unknown" && d.status == Online && d.sessionId == session
      && d.firstSeenAt == at && d.lastSeenAt == at && d.lastDisconnectedAt == None && d.metadata == map[]
  }

  /** A disconnect that names no session, or the session of the row, takes the row offline;
      any other changes nothing. */
  lemma DisconnectWrites(db: Db, client: string, session: string, at: Time)
    ensures var db' := Next(db, Disconnect(client, session, at));
      && db' == db.(devices := db'.devices) && db'.devices.Keys == db.devices.Keys
      && (forall other | other in db.devices && other != client :: db'.devices[other] == db.devices[other])
      && (client in db.devices ==>
            var d, was := db'.devices[client], db.devices[client];
            if session == "" || session == was.sessionId then
              && d.status == Offline && d.lastDisconnectedAt == Some(at) && d.lastSeenAt == at
              && d.sessionId == was.sessionId && d.id == was.id && d.kind == was.kind
              && d.firstSeenAt == was.firstSeenAt && d.metadata == was.metadata
            else d == was)
  {
  }

  /** A start marks what is online as stale and leaves everything else alone. */
  lemma StaleWrites(db: Db, at: Time)
    ensures var db' := Next(db, StaleOnline(at));
      && db' == db.(devices := db'.devices) && db'.devices.Keys == db.devices.Keys
      && forall c | c in db.devices ::
           var d, was := db'.devices[c], db.devices[c];
           if was.status == Online then
             && d.status == StaleOffline && d.lastDisconnectedAt == Some(at)
             && d.lastSeenAt == was.lastSeenAt && d.sessionId == was.sessionId && d.id == was.id
             && d.kind == was.kind && d.firstSeenAt == was.firstSeenAt && d.metadata == was.metadata
           else d == was
  {
  }

  /** A change of type is of the one row with the id, and logged with both types. */
  lemma ChangeTypeWrites(db: Db, client: string, newKind: string, actorId: Id, at: Time)
    requires DevicesOk(db.devices) && client in db.devices
    ensures var id := db.devices[client].id;
      && Enabled(db, ChangeType(id, newKind, actorId, at))
      && var db' := Next(db, ChangeType(id, newKind, actorId, at));
      && db'.devices == db.devices[client := db.devices[client].(kind := newKind)]
      && db'.changes == db.changes + [TypeChange(id, db.devices[client].kind, newKind, actorId, at)]
      && db'.observed == db.observed && db'.messages == db.messages && db'.parts == db.parts
  {
    assert ClientOf(db.devices, db.devices[client].id) == client;
  }

  // ---------- observed topics ----------

  /** A topic seen: with this device, quality of service and time, and first seen now if it
      had not been seen before. */
  predicate SeenAs(observed: map<TopicKey, ObservedTopic>, key: TopicKey, t: ObservedTopic, deviceId: Option<Id>,
                   qos: nat, at: Time) {
    && t.deviceId == deviceId && t.qos == qos && t.lastSeenAt == at
    && t.firstSeenAt == if key in observed then observed[key].firstSeenAt else at
  }

  /** The quality of service of the last of the filters with a topic. */
  function LastQoS(subs: seq<(string, nat)>, topic: string): nat
    requires exists sub :: sub in subs && sub.0 == topic
  {
    var init, last := subs[..|subs| - 1], subs[|subs| - 1];
    if last.0 == topic then last.1
    else
      assert forall sub | sub in subs :: sub in init || sub == last;
      LastQoS(init, topic)
  }

  predicate Named(subs: seq<(string, nat)>, client: string, key: TopicKey) {
    key.clientId == client && key.kind == SubscribeFilter && exists sub :: sub in subs && sub.0 == key.topic
  }

  lemma {:induction false} FiltersWrite(observed: map<TopicKey, ObservedTopic>, client: string,
                                        subs: seq<(string, nat)>, deviceId: Id, at: Time)
    ensures var observed' := UpsertFilters(observed, client, subs, deviceId, at);
      forall key ::
        if Named(subs, client, key) then
          key in observed' && SeenAs(observed, key, observed'[key], Some(deviceId), LastQoS(subs, key.topic), at)
        else if key in observed then key in observed' && observed'[key] == observed[key]
        else key !in observed'
  {
    if subs != [] {
      var init, last := subs[..|subs| - 1], subs[|subs| - 1];
      FiltersWrite(observed, client, init, deviceId, at);
      forall key
        ensures Named(subs, client, key) <==>
          Named(init, client, key) || key == TopicKey(client, last.0, SubscribeFilter)
      {
        NamedMore(init, last, client, key);
        assert subs == init + [last];
      }
    }
  }

  lemma NamedMore(init: seq<(string, nat)>, last: (string, nat), client: string, key: TopicKey)
    ensures Named(init + [last], client, key) <==>
      Named(init, client, key) || key == TopicKey(client, last.0, SubscribeFilter)
  {
    if Named(init, client, key) {
      var sub :| sub in init && sub.0 == key.topic;
      assert sub in init + [last];
    }
    if key == TopicKey(client, last.0, SubscribeFilter) {
      assert last in init + [last];
    }
  }

  /** A subscription: the device row active, and each filter seen with the device. */
  lemma SubscribeWrites(db: Db, client: string, session: string, subs: seq<(string, nat)>, at: Time, freshId: Id)
    requires Enabled(db, Subscribe(client, session, subs, at, freshId))
    ensures var db' := Next(db, Subscribe(client, session, subs, at, freshId));
      && OnlyDevice(db, db', client) && ActiveRow(db, client, db'.devices[client], session, at, freshId)
      && db' == db.(devices := db'.devices, observed := db'.observed)
      && forall key ::
           if Named(subs, client, key) then
             && key in db'.observed
             && SeenAs(db.observed, key, db'.observed[key], Some(db'.devices[client].id), LastQoS(subs, key.topic), at)
           else if key in db.observed then key in db'.observed && db'.observed[key] == db.observed[key]
           else key !in db'.observed
  {
    hide UpsertFilters, SeenAs, LastQoS, Named;
    var db' := Next(db, Subscribe(client, session, subs, at, freshId));
    FiltersWrite(db.observed, client, subs, db'.devices[client].id, at);
  }

  /** An administrator's topic, seen under the inline client with no device of its own. */
  lemma AdminTopicWrites(db: Db, topic: string, qos: nat, at: Time)
    ensures var db' := Next(db, AdminTopic(topic, qos, at));
      var key := TopicKey("inline", topic, AdminPublishTopic);
      && db' == db.(observed := db'.observed) && db'.observed.Keys == db.observed.Keys + {key}
      && (forall other | other in db.observed && other != key :: db'.observed[other] == db.observed[other])
      && var t := db'.observed[key];
      && t.qos == qos && t.lastSeenAt == at
      && (key in db.observed ==>
            t.firstSeenAt == db.observed[key].firstSeenAt && t.deviceId == db.observed[key].deviceId)
      && (key !in db.observed ==> t.firstSeenAt == at && t.deviceId == None)
  {
  }

  // ---------- messages ----------

  /** A message of a client: its device row active, its topic seen with the device, and the
      message with the device. */
  lemma PersistWrites(db: Db, ev: PublishEvent, freshId: Id, messageId: Id, place: Option<string>)
    requires Enabled(db, Persist(ev, freshId, messageId, place)) && ev.clientId != "inline"
    ensures var db' := Next(db, Persist(ev, freshId, messageId, place));
      var key := TopicKey(ev.clientId, ev.topic, PublishTopic);
      && OnlyDevice(db, db', ev.clientId)
      && ActiveRow(db, ev.clientId, db'.devices[ev.clientId], ev.sessionId, ev.receivedAt, freshId)
      && db'.observed.Keys == db.observed.Keys + {key}
      && (forall other | other in db.observed && other != key :: db'.observed[other] == db.observed[other])
      && SeenAs(db.observed, key, db'.observed[key], Some(db'.devices[ev.clientId].id), ev.qos, ev.receivedAt)
      && db'.messages == db.messages + [Stored(Message(messageId, Some(db'.devices[ev.clientId].id), ev), place)]
      && db'.parts == db.parts && db'.changes == db.changes
  {
    hide IsPlace, TableName, MonthOfInstant, MessageIdUsed;
  }

  /** A message of the inline client has no device, and its topic is an administrator's. */
  lemma InlineWrites(db: Db, ev: PublishEvent, freshId: Id, messageId: Id, place: Option<string>)
    requires Enabled(db, Persist(ev, freshId, messageId, place)) && ev.clientId == "inline"
    ensures var db' := Next(db, Persist(ev, freshId, messageId, place));
      var key := TopicKey("inline", ev.topic, AdminPublishTopic);
      && db'.devices == db.devices && db'.observed.Keys == db.observed.Keys + {key}
      && (forall other | other in db.observed && other != key :: db'.observed[other] == db.observed[other])
      && SeenAs(db.observed, key, db'.observed[key], None, ev.qos, ev.receivedAt)
      && db'.messages == db.messages + [Stored(Message(messageId, None, ev), place)]
      && db'.parts == db.parts && db'.changes == db.changes
  {
    hide IsPlace, TableName, MonthOfInstant, MessageIdUsed;
  }

  // ---------- partitions ----------

  /** Creating the partition of an instant adds that of its month, or nothing if the name is
      taken. */
  lemma EnsurePartitionWrites(db: Db, at: Time)
    requires Enabled(db, EnsurePartition(at))
    ensures var db' := Next(db, EnsurePartition(at));
      var name := TableName(MonthOfInstant(at));
      && db' == db.(parts := db'.parts)
      && db'.parts == if name in db.parts then db.parts else db.parts[name := MonthRange(MonthOfInstant(at))]
  {
    hide TableName, MonthOfInstant, MonthRange;
  }
}
