/** The device and message tables of internal/storage/postgres/store.go as a state
    machine: connects, activity, disconnects, restarts and published messages. Each
    step is one committed statement or transaction. */
module Ingestion {
  import opened Basics
  import opened Partitions

  datatype DeviceStatus = Online | Offline | StaleOffline

  datatype Device = Device(
    id: Id,
    kind: string,
    status: DeviceStatus,
    sessionId: string,
    firstSeenAt: Time,
    lastSeenAt: Time,
    lastDisconnectedAt: Option<Time>,
    metadata: map<string, string>)

  datatype TopicKind = SubscribeFilter | PublishTopic | AdminPublishTopic

  datatype TopicKey = TopicKey(clientId: string, topic: string, kind: TopicKind)

  datatype ObservedTopic = ObservedTopic(deviceId: Option<Id>, qos: nat, firstSeenAt: Time, lastSeenAt: Time)

  datatype PublishEvent = PublishEvent(
    clientId: string,
    sessionId: string,
    topic: string,
    payload: string,
    qos: nat,
    retain: bool,
    receivedAt: Time)

  datatype Message = Message(id: Id, deviceId: Option<Id>, event: PublishEvent)

  /** A message row and the partition it went to; None is the default partition. */
  datatype Stored = Stored(message: Message, place: Option<string>)

  datatype TypeChange = TypeChange(deviceId: Id, oldKind: string, newKind: string, actorId: Id, changedAt: Time)

  datatype Db = Db(
    devices: map<string, Device>,   // by client id
    observed: map<TopicKey, ObservedTopic>,
    messages: seq<Stored>,
    parts: Parts,
    changes: seq<TypeChange>)

  const INLINE: string := "inline"
  const UNKNOWN: string := "unknown"

  // ---------- statements ----------

  predicate DeviceIdUsed(devices: map<string, Device>, id: Id) {
    exists c | c in devices :: devices[c].id == id
  }

  /** The client whose row has the id. */
  ghost function ClientOf(devices: map<string, Device>, id: Id): (client: string)
    requires DeviceIdUsed(devices, id)
    ensures client in devices && devices[client].id == id
  {
    var client :| client in devices && devices[client].id == id;
    client
  }

  /** An insert would repeat a primary key. */
  predicate CannotInsert(devices: map<string, Device>, client: string, freshId: Id) {
    client !in devices && DeviceIdUsed(devices, freshId)
  }

  function UpsertConnected(devices: map<string, Device>, client: string, session: string, at: Time,
                           metadata: map<string, string>, freshId: Id): map<string, Device>
  {
    if client in devices then
      var d := devices[client];
      devices[client := d.(status := Online, sessionId := session, lastSeenAt := at, metadata := d.metadata + metadata)]
    else
      devices[client := Device(freshId, UNKNOWN, Online, session, at, at, None, metadata)]
  }

  /** Activity takes over the session but leaves the status of an existing row alone. */
  function EnsureDevice(devices: map<string, Device>, client: string, session: string, at: Time,
                        freshId: Id): map<string, Device>
  {
    if client in devices then devices[client := devices[client].(sessionId := session, lastSeenAt := at)]
    else devices[client := Device(freshId, UNKNOWN, Online, session, at, at, None, map[])]
  }

  function MarkDisconnected(devices: map<string, Device>, client: string, session: string, at: Time):
    map<string, Device>
  {
    if client in devices && (session == "" || devices[client].sessionId == session) then
      devices[client := devices[client].(status := Offline, lastDisconnectedAt := Some(at), lastSeenAt := at)]
    else devices
  }

  function MarkStaleOnline(devices: map<string, Device>, at: Time): map<string, Device> {
    map c | c in devices ::
      if devices[c].status.Online? then devices[c].(status := StaleOffline, lastDisconnectedAt := Some(at))
      else devices[c]
  }

  function UpsertTopic(observed: map<TopicKey, ObservedTopic>, key: TopicKey, deviceId: Option<Id>, qos: nat, at: Time):
    map<TopicKey, ObservedTopic>
  {
    if key in observed then observed[key := observed[key].(deviceId := deviceId, qos := qos, lastSeenAt := at)]
    else observed[key := ObservedTopic(deviceId, qos, at, at)]
  }

  function UpsertFilters(observed: map<TopicKey, ObservedTopic>, client: string, subs: seq<(string, nat)>, deviceId: Id,
                         at: Time): map<TopicKey, ObservedTopic>
  {
    if subs == [] then observed
    else
      var sub := subs[|subs| - 1];
      var others := UpsertFilters(observed, client, subs[..|subs| - 1], deviceId, at);
      UpsertTopic(others, TopicKey(client, sub.0, SubscribeFilter), Some(deviceId), sub.1, at)
  }

  function RecordAdminTopic(observed: map<TopicKey, ObservedTopic>, topic: string, qos: nat, at: Time):
    map<TopicKey, ObservedTopic>
  {
    var key := TopicKey(INLINE, topic, AdminPublishTopic);
    if key in observed then observed[key := observed[key].(qos := qos, lastSeenAt := at)]
    else observed[key := ObservedTopic(None, qos, at, at)]
  }

  function KindOf(ev: PublishEvent): TopicKind { if ev.clientId == INLINE then AdminPublishTopic else PublishTopic }

  function KeyOf(ev: PublishEvent): TopicKey { TopicKey(ev.clientId, ev.topic, KindOf(ev)) }

  /** The transaction of `PersistPublish`: device row, observed topic, message. */
  function PersistMessage(db: Db, ev: PublishEvent, freshId: Id, messageId: Id, place: Option<string>): Db {
    var devices :=
      if ev.clientId == INLINE then db.devices
      else EnsureDevice(db.devices, ev.clientId, ev.sessionId, ev.receivedAt, freshId);
    var deviceId := if ev.clientId == INLINE then None else Some(devices[ev.clientId].id);
    db.(devices := devices,
        observed := UpsertTopic(db.observed, KeyOf(ev), deviceId, ev.qos, ev.receivedAt),
        messages := db.messages + [Stored(Message(messageId, deviceId, ev), place)])
  }

  predicate MessageIdUsed(db: Db, id: Id, at: Time) {
    exists m | m in db.messages :: m.message.id == id && m.message.event.receivedAt == at
  }

  function DefaultTimes(db: Db): set<Time> {
    set m | m in db.messages && m.place.None? :: m.message.event.receivedAt
  }

  // ---------- steps ----------

  datatype Step =
    | Connect(clientId: string, sessionId: string, at: Time, metadata: map<string, string>, freshId: Id)
    | Subscribe(clientId: string, sessionId: string, subs: seq<(string, nat)>, at: Time, freshId: Id)
    | EnsurePartition(at: Time)
    | Persist(event: PublishEvent, freshId: Id, messageId: Id, place: Option<string>)
    | AdminTopic(topic: string, qos: nat, at: Time)
    | Disconnect(clientId: string, sessionId: string, at: Time)
    | StaleOnline(at: Time)
    | ChangeType(deviceId: Id, newKind: string, actorId: Id, at: Time)

  ghost predicate Enabled(db: Db, step: Step) {
    match step
    case Connect(client, _, _, _, freshId) => !CannotInsert(db.devices, client, freshId)
    case Subscribe(client, _, _, _, freshId) => !CannotInsert(db.devices, client, freshId)
    case EnsurePartition(at) =>
      !Refused(db.parts, DefaultTimes(db), TableName(MonthOfInstant(at)), MonthRange(MonthOfInstant(at)))
    case Persist(ev, freshId, messageId, place) =>
      && (ev.clientId != INLINE ==> !CannotInsert(db.devices, ev.clientId, freshId))
      && TableName(MonthOfInstant(ev.receivedAt)) in db.parts   // ensured just before
      && !MessageIdUsed(db, messageId, ev.receivedAt)
      && IsPlace(db.parts, ev.receivedAt, place)
    case ChangeType(deviceId, _, _, _) => DeviceIdUsed(db.devices, deviceId)
    case _ => true
  }

  ghost function Next(db: Db, step: Step): Db
    requires Enabled(db, step)
  {
    match step
    case Connect(client, session, at, metadata, freshId) =>
      db.(devices := UpsertConnected(db.devices, client, session, at, metadata, freshId))
    case Subscribe(client, session, subs, at, freshId) =>
      var devices := EnsureDevice(db.devices, client, session, at, freshId);
      db.(devices := devices, observed := UpsertFilters(db.observed, client, subs, devices[client].id, at))
    case EnsurePartition(at) => db.(parts := Ensured(db.parts, at))
    case Persist(ev, freshId, messageId, place) => PersistMessage(db, ev, freshId, messageId, place)
    case AdminTopic(topic, qos, at) => db.(observed := RecordAdminTopic(db.observed, topic, qos, at))
    case Disconnect(client, session, at) => db.(devices := MarkDisconnected(db.devices, client, session, at))
    case StaleOnline(at) => db.(devices := MarkStaleOnline(db.devices, at))
    case ChangeType(deviceId, newKind, actorId, at) =>
      var client := ClientOf(db.devices, deviceId);
      var d := db.devices[client];
      db.(devices := db.devices[client := d.(kind := newKind)],
          changes := db.changes + [TypeChange(d.id, d.kind, newKind, actorId, at)])
  }

  ghost predicate CanRun(db: Db, steps: seq<Step>)
    decreases |steps|, 0
  {
    steps == [] || (CanRun(db, steps[..|steps| - 1]) && Enabled(After(db, steps[..|steps| - 1]), steps[|steps| - 1]))
  }

  ghost function After(db: Db, steps: seq<Step>): Db
    requires CanRun(db, steps)
    decreases |steps|, 1
  {
    if steps == [] then db else Next(After(db, steps[..|steps| - 1]), steps[|steps| - 1])
  }

  const EMPTY: Db := Db(map[], map[], [], map[], [])

  lemma RunOneMore(db: Db, steps: seq<Step>, step: Step)
    requires CanRun(db, steps) && Enabled(After(db, steps), step)
    ensures CanRun(db, steps + [step]) && After(db, steps + [step]) == Next(After(db, steps), step)
  {
    assert (steps + [step])[..|steps|] == steps;
  }

  // ---------- what every run keeps ----------

  ghost predicate DevicesOk(devices: map<string, Device>) {
    forall a, b | a in devices && b in devices && devices[a].id == devices[b].id :: a == b
  }

  /** An observed topic belongs to the one device of its client; topics published by
      administrators belong to none. */
  predicate TopicOk(devices: map<string, Device>, key: TopicKey, deviceId: Option<Id>) {
    if key.kind.AdminPublishTopic? then key.clientId == INLINE && deviceId.None?
    else key.clientId in devices && deviceId == Some(devices[key.clientId].id)
  }

  predicate MessageOk(db: Db, stored: Stored) {
    var ev := stored.message.event;
    && KeyOf(ev) in db.observed
    && (if ev.clientId == INLINE then stored.message.deviceId.None?
        else ev.clientId in db.devices && stored.message.deviceId == Some(db.devices[ev.clientId].id))
    && stored.place == Some(TableName(MonthOfInstant(ev.receivedAt)))
    && stored.place.value in db.parts
  }

  /** The kind a device has after the recorded changes. */
  function KindAfter(changes: seq<TypeChange>, id: Id): string {
    if changes == [] then UNKNOWN
    else
      var last := changes[|changes| - 1];
      if last.deviceId == id then last.newKind else KindAfter(changes[..|changes| - 1], id)
  }

  /** Each change starts from the kind the ones before it left. */
  ghost predicate ChangesLinked(changes: seq<TypeChange>) {
    forall i | 0 <= i < |changes| :: changes[i].oldKind == KindAfter(changes[..i], changes[i].deviceId)
  }

  ghost predicate KindsOk(db: Db) {
    && ChangesLinked(db.changes)
    && (forall c | c in db.devices :: db.devices[c].kind == KindAfter(db.changes, db.devices[c].id))
    && (forall i | 0 <= i < |db.changes| :: DeviceIdUsed(db.devices, db.changes[i].deviceId))
  }

  ghost predicate Inv(db: Db) {
    && DevicesOk(db.devices)
    && (forall key | key in db.observed :: TopicOk(db.devices, key, db.observed[key].deviceId))
    && (forall m | m in db.messages :: MessageOk(db, m))
    && Monthly(db.parts)
    && KindsOk(db)
  }

  /** Existing rows keep their id; a new row has an id of its own. */
  ghost predicate IdsKept(devices: map<string, Device>, devices': map<string, Device>) {
    && DevicesOk(devices')
    && (forall c | c in devices :: c in devices' && devices'[c].id == devices[c].id)
    && (forall c | c in devices' && c !in devices :: !DeviceIdUsed(devices, devices'[c].id))
  }

  lemma RowKeepsIds(devices: map<string, Device>, client: string, d: Device)
    requires DevicesOk(devices)
    requires if client in devices then d.id == devices[client].id else !DeviceIdUsed(devices, d.id)
    ensures IdsKept(devices, devices[client := d])
  {
  }

  lemma StepKeepsIds(db: Db, step: Step)
    requires DevicesOk(db.devices) && Enabled(db, step)
    ensures IdsKept(db.devices, Next(db, step).devices)
  {
    hide Refused, IsPlace, TableName, MonthRange, MonthOfInstant, DeviceIdUsed;
    var devices := Next(db, step).devices;
    match step
    case Connect(client, _, _, _, _) => RowKeepsIds(db.devices, client, devices[client]);
    case Subscribe(client, _, _, _, _) => RowKeepsIds(db.devices, client, devices[client]);
    case Persist(ev, _, _, _) =>
      if ev.clientId != INLINE {
        RowKeepsIds(db.devices, ev.clientId, devices[ev.clientId]);
      }
    case ChangeType(id, _, _, _) =>
      var client := ClientOf(db.devices, id);
      RowKeepsIds(db.devices, client, devices[client]);
    case Disconnect(client, _, _) =>
      if client in db.devices {
        RowKeepsIds(db.devices, client, devices[client]);
      }
    case _ =>
  }

  lemma {:induction false} FiltersKept(devices: map<string, Device>, observed: map<TopicKey, ObservedTopic>,
                                       client: string, subs: seq<(string, nat)>, at: Time)
    requires client in devices
    requires forall key | key in observed :: TopicOk(devices, key, observed[key].deviceId)
    ensures var observed' := UpsertFilters(observed, client, subs, devices[client].id, at);
      && observed.Keys <= observed'.Keys
      && (forall key | key in observed' :: TopicOk(devices, key, observed'[key].deviceId))
      && (forall sub | sub in subs :: TopicKey(client, sub.0, SubscribeFilter) in observed')
      && (forall key | key in observed :: observed'[key].firstSeenAt == observed[key].firstSeenAt)
  {
    if subs != [] {
      FiltersKept(devices, observed, client, subs[..|subs| - 1], at);
      assert subs == subs[..|subs| - 1] + [subs[|subs| - 1]];
    }
  }

  lemma TopicsKept(db: Db, step: Step)
    requires Inv(db) && Enabled(db, step)
    ensures var db' := Next(db, step);
      && db.observed.Keys <= db'.observed.Keys
      && (forall key | key in db'.observed :: TopicOk(db'.devices, key, db'.observed[key].deviceId))
  {
    hide Refused, IsPlace, TableName, MonthRange, MonthOfInstant, KindsOk, MessageOk, Monthly, UpsertFilters;
    StepKeepsIds(db, step);
    var db' := Next(db, step);
    forall key | key in db.observed
      ensures TopicOk(db'.devices, key, db.observed[key].deviceId)
    {
      assert TopicOk(db.devices, key, db.observed[key].deviceId);
    }
    if step.Subscribe? {
      FiltersKept(db'.devices, db.observed, step.clientId, step.subs, step.at);
    }
  }

  /** What messages refer to stays: topics, device ids and partitions. */
  lemma MessageCarried(db: Db, db': Db, m: Stored)
    requires MessageOk(db, m) && db.observed.Keys <= db'.observed.Keys && IdsKept(db.devices, db'.devices)
    requires db.parts.Keys <= db'.parts.Keys
    ensures MessageOk(db', m)
  {
    hide TableName, MonthOfInstant;
  }

  lemma PersistedMessage(db: Db, step: Step)
    requires Monthly(db.parts) && DevicesOk(db.devices) && Enabled(db, step) && step.Persist?
    ensures MessageOk(Next(db, step), Next(db, step).messages[|db.messages|])
  {
    PlaceIsOwnMonth(db.parts, step.event.receivedAt, step.place);
    hide TableName, MonthOfInstant, MonthRange, Monthly, IsPlace;
  }

  lemma PartsKept(db: Db, step: Step)
    requires Monthly(db.parts) && Enabled(db, step)
    ensures Monthly(Next(db, step).parts) && db.parts.Keys <= Next(db, step).parts.Keys
    ensures Next(db, step).messages ==
      if step.Persist? then db.messages + [Next(db, step).messages[|db.messages|]] else db.messages
  {
    if step.EnsurePartition? {
      EnsureSucceeds(db.parts, step.at);
    }
    hide Refused, IsPlace, TableName, MonthRange, MonthOfInstant, Monthly, EnsureDevice, UpsertConnected, UpsertTopic;
  }

  lemma MessagesCarried(db: Db, db': Db)
    requires forall m | m in db.messages :: MessageOk(db, m)
    requires db.observed.Keys <= db'.observed.Keys && IdsKept(db.devices, db'.devices)
    requires db.parts.Keys <= db'.parts.Keys
    ensures forall m | m in db.messages :: MessageOk(db', m)
  {
    hide MessageOk, IdsKept;
    forall m | m in db.messages
      ensures MessageOk(db', m)
    {
      MessageCarried(db, db', m);
    }
  }

  lemma MessagesKept(db: Db, step: Step)
    requires Inv(db) && Enabled(db, step)
    ensures var db' := Next(db, step);
      Monthly(db'.parts) && forall m | m in db'.messages :: MessageOk(db', m)
  {
    hide Enabled, Next, Monthly, MessageOk, IdsKept, TopicOk, KindsOk, DevicesOk;
    TopicsKept(db, step);
    StepKeepsIds(db, step);
    PartsKept(db, step);
    MessagesCarried(db, Next(db, step));
    if step.Persist? {
      PersistedMessage(db, step);
    }
  }

  lemma DefaultEmpty(db: Db)
    requires Inv(db)
    ensures DefaultTimes(db) == {}
  {
    assert forall m | m in db.messages :: MessageOk(db, m);
  }

  lemma KindAfterAppend(changes: seq<TypeChange>, change: TypeChange, id: Id)
    ensures KindAfter(changes + [change], id) ==
      if change.deviceId == id then change.newKind else KindAfter(changes, id)
  {
    assert (changes + [change])[..|changes|] == changes;
  }

  lemma {:induction false} UnchangedKind(changes: seq<TypeChange>, id: Id)
    requires forall i | 0 <= i < |changes| :: changes[i].deviceId != id
    ensures KindAfter(changes, id) == UNKNOWN
  {
    if changes != [] {
      UnchangedKind(changes[..|changes| - 1], id);
    }
  }

  /** Only a change of type touches kinds; new devices are of unknown kind. */
  lemma KindsFrame(db: Db, step: Step)
    requires Enabled(db, step) && !step.ChangeType?
    ensures var db' := Next(db, step);
      && db'.changes == db.changes
      && (forall c | c in db'.devices :: db'.devices[c].kind == if c in db.devices then db.devices[c].kind else UNKNOWN)
  {
    hide Refused, IsPlace, TableName, MonthRange, MonthOfInstant;
  }

  lemma KindCarried(db: Db, db': Db, c: string)
    requires KindsOk(db) && IdsKept(db.devices, db'.devices) && db'.changes == db.changes && c in db'.devices
    requires db'.devices[c].kind == if c in db.devices then db.devices[c].kind else UNKNOWN
    ensures db'.devices[c].kind == KindAfter(db'.changes, db'.devices[c].id)
  {
    if c !in db.devices {
      assert forall i | 0 <= i < |db.changes| :: DeviceIdUsed(db.devices, db.changes[i].deviceId);
      UnchangedKind(db.changes, db'.devices[c].id);
    }
  }

  lemma IdCarried(devices: map<string, Device>, devices': map<string, Device>, id: Id)
    requires IdsKept(devices, devices') && DeviceIdUsed(devices, id)
    ensures DeviceIdUsed(devices', id)
  {
    var c :| c in devices && devices[c].id == id;
    assert devices'[c].id == id;
  }

  lemma KindsKeptByOthers(db: Db, step: Step)
    requires DevicesOk(db.devices) && KindsOk(db) && Enabled(db, step) && !step.ChangeType?
    ensures KindsOk(Next(db, step))
  {
    hide Enabled, Next, IdsKept, DeviceIdUsed, KindAfter;
    StepKeepsIds(db, step);
    KindsFrame(db, step);
    var db' := Next(db, step);
    forall c | c in db'.devices
      ensures db'.devices[c].kind == KindAfter(db'.changes, db'.devices[c].id)
    {
      KindCarried(db, db', c);
    }
    forall i | 0 <= i < |db'.changes|
      ensures DeviceIdUsed(db'.devices, db'.changes[i].deviceId)
    {
      IdCarried(db.devices, db'.devices, db.changes[i].deviceId);
    }
  }

  lemma ChangeFrame(db: Db, step: Step)
    requires DevicesOk(db.devices) && Enabled(db, step) && step.ChangeType?
    ensures var db' := Next(db, step);
      && db'.devices.Keys == db.devices.Keys
      && (forall c | c in db.devices :: db'.devices[c].id == db.devices[c].id)
      && (forall c | c in db.devices ::
            db'.devices[c].kind == if db.devices[c].id == step.deviceId then step.newKind else db.devices[c].kind)
      && var client := ClientOf(db.devices, step.deviceId);
      db'.changes == db.changes +
        [TypeChange(step.deviceId, db.devices[client].kind, step.newKind, step.actorId, step.at)]
  {
    hide DeviceIdUsed, ClientOf;
  }

  lemma LinkOneMore(changes: seq<TypeChange>, change: TypeChange)
    requires ChangesLinked(changes) && change.oldKind == KindAfter(changes, change.deviceId)
    ensures ChangesLinked(changes + [change])
  {
    var all := changes + [change];
    forall i | 0 <= i < |all|
      ensures all[i].oldKind == KindAfter(all[..i], all[i].deviceId)
    {
      assert all[..i] == if i < |changes| then changes[..i] else changes;
    }
  }

  lemma KindsKeptByChange(db: Db, step: Step)
    requires DevicesOk(db.devices) && KindsOk(db) && Enabled(db, step) && step.ChangeType?
    ensures KindsOk(Next(db, step))
  {
    hide Next, KindAfter, ChangesLinked, DeviceIdUsed;
    ChangeFrame(db, step);
    StepKeepsIds(db, step);
    var db' := Next(db, step);
    LinkOneMore(db.changes, db'.changes[|db.changes|]);
    forall c | c in db'.devices
      ensures db'.devices[c].kind == KindAfter(db'.changes, db'.devices[c].id)
    {
      KindAfterAppend(db.changes, db'.changes[|db.changes|], db.devices[c].id);
    }
    forall i | 0 <= i < |db'.changes|
      ensures DeviceIdUsed(db'.devices, db'.changes[i].deviceId)
    {
      IdCarried(db.devices, db'.devices, if i < |db.changes| then db.changes[i].deviceId else step.deviceId);
    }
  }

  lemma KindsKept(db: Db, step: Step)
    requires DevicesOk(db.devices) && KindsOk(db) && Enabled(db, step)
    ensures KindsOk(Next(db, step))
  {
    hide Enabled, Next, KindsOk;
    if step.ChangeType? {
      KindsKeptByChange(db, step);
    } else {
      KindsKeptByOthers(db, step);
    }
  }

  lemma StepKeepsInv(db: Db, step: Step)
    requires Inv(db) && Enabled(db, step)
    ensures Inv(Next(db, step))
  {
    StepKeepsIds(db, step);
    TopicsKept(db, step);
    MessagesKept(db, step);
    KindsKept(db, step);
  }

  lemma {:induction false} RunKeepsInv(steps: seq<Step>)
    requires CanRun(EMPTY, steps)
    ensures Inv(After(EMPTY, steps))
  {
    if steps != [] {
      hide Inv, Enabled, Next;
      RunKeepsInv(steps[..|steps| - 1]);
      StepKeepsInv(After(EMPTY, steps[..|steps| - 1]), steps[|steps| - 1]);
    } else {
      EmptyInv();
    }
  }

  lemma EmptyInv()
    ensures Inv(EMPTY)
  {
  }

  // ---------- the guarantees ----------

  /** Every stored message has its observed topic; it names no device exactly when it
      came from the inline client, and otherwise the one device of its client. */
  lemma MessagesAccountedFor(steps: seq<Step>, m: Stored)
    requires CanRun(EMPTY, steps) && m in After(EMPTY, steps).messages
    ensures var db := After(EMPTY, steps);
      var ev := m.message.event;
      && KeyOf(ev) in db.observed
      && (m.message.deviceId.None? <==> ev.clientId == INLINE)
      && (m.message.deviceId.Some? ==>
            ev.clientId in db.devices && m.message.deviceId.value == db.devices[ev.clientId].id)
      && db.observed[KeyOf(ev)].deviceId == m.message.deviceId
  {
    hide Enabled, Next, After, CanRun, Monthly, KindsOk, TableName, MonthOfInstant;
    var db := After(EMPTY, steps);
    RunKeepsInv(steps);
    assert MessageOk(db, m);
    assert TopicOk(db.devices, KeyOf(m.message.event), db.observed[KeyOf(m.message.event)].deviceId);
  }

  /** On every run the partitions do not meet, every message lies in the one that has
      its time, the default partition stays empty, and creating the partition for any
      instant is therefore never refused. */
  lemma PartitionsHold(steps: seq<Step>, m: Stored, at: Time)
    requires CanRun(EMPTY, steps)
    ensures var db := After(EMPTY, steps);
      && Enabled(db, EnsurePartition(at))
      && DefaultTimes(db) == {}
      && (forall a, b | a in db.parts && b in db.parts && a != b :: !Overlap(db.parts[a], db.parts[b]))
      && (m in db.messages ==>
            && m.place.Some? && m.place.value in db.parts
            && forall name | name in db.parts ::
                 db.parts[name].Contains(m.message.event.receivedAt) <==> name == m.place.value)
  {
    hide After, CanRun, TableName, MonthOfInstant, MonthRange, DevicesOk, KindsOk, TopicOk, Refused, Overlap;
    var db := After(EMPTY, steps);
    RunKeepsInv(steps);
    DefaultEmpty(db);
    EnsureSucceeds(db.parts, at);
    var t := m.message.event.receivedAt;
    if m in db.messages {
      assert MessageOk(db, m);
      OwnPartition(db.parts, t);
    }
    SomePlace(db.parts, t);
  }

  lemma OwnPartition(parts: Parts, t: Time)
    requires Monthly(parts) && TableName(MonthOfInstant(t)) in parts
    ensures forall name | name in parts :: parts[name].Contains(t) <==> name == TableName(MonthOfInstant(t))
  {
    var own := TableName(MonthOfInstant(t));
    forall name | name in parts && parts[name].Contains(t)
      ensures name == own
    {
      PlaceIsOwnMonth(parts, t, Some(name));
    }
    var m: Month :| m.Valid() && own == TableName(m) && parts[own] == MonthRange(m);
    TableNamesDiffer(m, MonthOfInstant(t));
    MonthCovers(t);
  }

  lemma SomePlace(parts: Parts, t: Time)
    requires Monthly(parts)
    ensures forall a, b | a in parts && b in parts && a != b :: !Overlap(parts[a], parts[b])
  {
    var place := if exists name :: name in parts && parts[name].Contains(t) then
      var name :| name in parts && parts[name].Contains(t); Some(name) else None;
    PlaceIsOwnMonth(parts, t, place);
  }

  /** A client's device keeps its id for good, and its kind is what the log of changes
      says, each change starting from where the one before left off. */
  lemma DeviceIdentity(steps: seq<Step>, step: Step, client: string)
    requires CanRun(EMPTY, steps) && Enabled(After(EMPTY, steps), step)
    requires client in After(EMPTY, steps).devices
    ensures var db, db' := After(EMPTY, steps), Next(After(EMPTY, steps), step);
      && client in db'.devices
      && db'.devices[client].id == db.devices[client].id
      && db'.devices[client].kind == KindAfter(db'.changes, db'.devices[client].id)
      && ChangesLinked(db'.changes)
  {
    hide Next, Enabled, After, CanRun, Monthly;
    var db := After(EMPTY, steps);
    RunKeepsInv(steps);
    StepKeepsIds(db, step);
    KindsKept(db, step);
  }

  lemma DevicesFirstSeen(db: Db, step: Step)
    requires Enabled(db, step)
    ensures forall c | c in db.devices ::
      && c in Next(db, step).devices
      && Next(db, step).devices[c].firstSeenAt == db.devices[c].firstSeenAt
      && db.devices[c].metadata.Keys <= Next(db, step).devices[c].metadata.Keys
  {
    hide CannotInsert, Refused, IsPlace, TableName, MonthRange, MonthOfInstant, MessageIdUsed;
    hide UpsertTopic, UpsertFilters;
  }

  lemma TopicsFirstSeen(db: Db, step: Step)
    requires Inv(db) && Enabled(db, step)
    ensures forall key | key in db.observed ::
      key in Next(db, step).observed && Next(db, step).observed[key].firstSeenAt == db.observed[key].firstSeenAt
  {
    hide CannotInsert, Refused, IsPlace, TableName, MonthRange, MonthOfInstant, MessageIdUsed;
    hide Monthly, KindsOk, MessageOk, UpsertFilters, EnsureDevice;
    if step.Subscribe? {
      SubscribedTopics(db, step);
    }
  }

  lemma SubscribedTopics(db: Db, step: Step)
    requires Inv(db) && Enabled(db, step) && step.Subscribe?
    ensures step.clientId in Next(db, step).devices
    ensures var id := Next(db, step).devices[step.clientId].id;
      var observed := UpsertFilters(db.observed, step.clientId, step.subs, id, step.at);
      forall key | key in db.observed :: key in observed && observed[key].firstSeenAt == db.observed[key].firstSeenAt
  {
    hide MessageOk, KindsOk, Monthly, UpsertFilters;
    StepKeepsIds(db, step);
    var devices := Next(db, step).devices;
    forall key | key in db.observed
      ensures TopicOk(devices, key, db.observed[key].deviceId)
    {
      assert TopicOk(db.devices, key, db.observed[key].deviceId);
    }
    FiltersKept(devices, db.observed, step.clientId, step.subs, step.at);
  }

  /** What a later statement never takes back: when a device or topic was first seen, and
      the metadata keys ever reported for a device. */
  lemma FirstSightingsKept(db: Db, step: Step)
    requires Inv(db) && Enabled(db, step)
    ensures var db' := Next(db, step);
      && (forall c | c in db.devices ::
            && c in db'.devices
            && db'.devices[c].firstSeenAt == db.devices[c].firstSeenAt
            && db.devices[c].metadata.Keys <= db'.devices[c].metadata.Keys)
      && (forall key | key in db.observed ::
            key in db'.observed && db'.observed[key].firstSeenAt == db.observed[key].firstSeenAt)
  {
    DevicesFirstSeen(db, step);
    TopicsFirstSeen(db, step);
  }
}
