/** The values that pass between the scheduler, the publisher and the database,
    and the checks on a publish request. */
module Domain {
  import opened Basics

  datatype ScheduleType = Once | Daily | Weekly | Other(name: string)

  datatype TaskStatus = Active | Canceled | Completed | Failed

  datatype RunStatus = RunPublished | RunFailed

  datatype PublishStatus = Pending | Published | PublishFailed

  datatype PublishCommand = PublishCommand(adminUserId: Id, topic: string, payload: string, qos: nat, retain: bool)

  /** A scheduled publish as requested. `W` is how the weekdays are held: a list of
      numbers in memory, comma-separated text in the database. */
  datatype Command<W> = Command(
    deviceId: Id,
    name: string,
    publish: PublishCommand,
    kind: ScheduleType,
    runAt: Option<Time>,
    timeOfDay: string,
    weekdays: W,
    timezone: string)

  type Weekdays = seq<Int64>

  /** A task: the command and what has become of it. */
  datatype Task<W> = Task(
    command: Command<W>,
    status: TaskStatus,
    nextRunAt: Option<Time>,
    lastRunAt: Option<Time>,
    lastError: string,
    runCount: nat,
    createdAt: Time,
    updatedAt: Time)

  /** A task as read from the database. */
  datatype ScannedTask = ScannedTask(id: Id, task: Task<Weekdays>)

  /** The outcome of one run, as handed to the database. */
  datatype Finish = Finish(
    taskId: Id,
    runId: Id,
    commandId: Option<Id>,
    runStatus: RunStatus,
    taskStatus: TaskStatus,
    error: string,
    scheduledFor: Time,
    startedAt: Time,
    finishedAt: Time,
    nextRunAt: Option<Time>)

  // ---------- validation; None is the nil error ----------

  const MAX_TOPIC_LENGTH: nat := 512

  function Utf8Length(s: string): nat {
    if s == "" then 0
    else
      var c := s[0];
      (if c < '\U{0080}' then 1 else if c < '\U{0800}' then 2 else if c < '\U{10000}' then 3 else 4)
      + Utf8Length(s[1..])
  }

  /** The letters whose upper case, or simple case folding, is S. */
  predicate FoldsToS(c: char) { c == 's' || c == 'S' || c == '\U{017F}' }

  /** `$SYS` itself or anything below it, in any letter case. */
  predicate IsSystemTopic(topic: string) {
    && |topic| >= 4 && topic[0] == '$' && FoldsToS(topic[1])
    && (topic[2] == 'y' || topic[2] == 'Y') && FoldsToS(topic[3])
    && (|topic| == 4 || topic[4] == '/')
  }

  function ValidatePublishTopic(topic: string): Option<string> {
    if topic == "" || Utf8Length(topic) > MAX_TOPIC_LENGTH || '+' in topic || '#' in topic || IsSystemTopic(topic)
    then Some("invalid_topic")
    else None
  }

  const MAX_CLIENT_ID_LENGTH: nat := 128

  predicate ClientIdChar(c: char) {
    || 'A' <= c <= 'Z' || 'a' <= c <= 'z' || '0' <= c <= '9'
    || c == '.' || c == '_' || c == ':' || c == '@' || c == '-'
  }

  function ValidateClientID(clientId: string): Option<string> {
    if clientId == "" || Utf8Length(clientId) > MAX_CLIENT_ID_LENGTH || exists c | c in clientId :: !ClientIdChar(c)
    then Some("invalid_client_id")
    else None
  }

  /** A `#` is only allowed as the last character. */
  function ValidateSubscribeFilter(filter: string): Option<string> {
    if filter == "" || Utf8Length(filter) > MAX_TOPIC_LENGTH || '#' in filter[..|filter| - 1]
    then Some("invalid_topic_filter")
    else None
  }

  function ValidateQoS(qos: nat): Option<string> {
    if qos > 1 then Some("invalid_qos") else None
  }

  function ValidateTextPayload(payload: string, maxBytes: int): Option<string> {
    if maxBytes > 0 && Utf8Length(payload) > maxBytes then Some("payload_too_large") else None
  }

  /** The checks `PublishService.Publish` makes before anything else. */
  function ValidatePublish(p: PublishCommand, maxBytes: int): Option<string> {
    if ValidatePublishTopic(p.topic).Some? then ValidatePublishTopic(p.topic)
    else if ValidateQoS(p.qos).Some? then ValidateQoS(p.qos)
    else ValidateTextPayload(p.payload, maxBytes)
  }

  // ---------- where the checks draw the line ----------

  lemma {:induction false} PlainLength(s: string)
    requires forall c | c in s :: c < '\U{0080}'
    ensures Utf8Length(s) == |s|
  {
    if s != "" {
      assert s[0] in s && forall c | c in s[1..] :: c in s;
      PlainLength(s[1..]);
    }
  }

  /** Of plain letters, 1 to 512 make a topic or a filter and 1 to 128 a client id. */
  lemma Lengths(n: nat)
    ensures var s := seq(n, _ => 'a');
      && (ValidatePublishTopic(s).None? <==> 1 <= n <= 512)
      && (ValidateSubscribeFilter(s).None? <==> 1 <= n <= 512)
      && (ValidateClientID(s).None? <==> 1 <= n <= 128)
  {
    PlainLength(seq(n, _ => 'a'));
  }

  /** Wildcards are refused for publishing; a filter may have a # at its end only. */
  lemma WildcardRules(s: string, rest: string)
    ensures '+' in s || '#' in s ==> ValidatePublishTopic(s) == Some("invalid_topic")
    ensures rest != "" ==> ValidateSubscribeFilter(s + "#" + rest) == Some("invalid_topic_filter")
    ensures '#' !in s && Utf8Length(s + "#") <= 512 ==> ValidateSubscribeFilter(s + "#").None?
  {
    hide Utf8Length;
    if rest != "" {
      assert (s + "#" + rest)[..|s + "#" + rest| - 1][|s|] == '#';
    }
    assert (s + "#")[..|s|] == s;
  }

  /** $SYS and everything below it is refused in any letter case, but not what only begins
      like it. */
  lemma SystemTopicRules(y: char, rest: string)
    ensures ValidatePublishTopic("$SYS") == Some("invalid_topic")
    ensures y == 'y' || y == 'Y' ==> ValidatePublishTopic("$s" + [y] + "S/" + rest) == Some("invalid_topic")
    ensures !IsSystemTopic("$SYSTEM") && !IsSystemTopic("a/$SYS") && !IsSystemTopic("$SY")
  {
    hide Utf8Length;
    var t := "$s" + [y] + "S/" + rest;
    assert t[0] == '$' && t[1] == 's' && t[2] == y && t[3] == 'S' && t[4] == '/';
    assert "$SYSTEM"[4] == 'T' && "a/$SYS"[0] == 'a';
  }

  /** Quality of service 0 or 1, and payloads up to the limit, if there is one. */
  lemma PublishLimits(payload: string, max: int)
    ensures ValidateQoS(0).None? && ValidateQoS(1).None?
    ensures forall q: nat | q > 1 :: ValidateQoS(q) == Some("invalid_qos")
    ensures ValidateTextPayload(payload, max) ==
      if max <= 0 || Utf8Length(payload) <= max then None else Some("payload_too_large")
  {
  }

  /** Letters of other scripts take two to four bytes, and a client id has none of them. */
  lemma Bytes(c: char)
    ensures Utf8Length([c]) ==
      if c as int < 0x80 then 1 else if c as int < 0x800 then 2 else if c as int < 0x1_0000 then 3 else 4
    ensures c as int >= 0x80 ==> ValidateClientID([c]) == Some("invalid_client_id")
  {
    assert [c][1..] == "" && c in [c];
  }

  /** A client id is made of letters, digits and five signs. */
  lemma ClientIdSigns(s: string, c: char, rest: string)
    requires c < '-' || c == '/' || ';' <= c < '@' || '[' <= c < '_' || c == '`' || '{' <= c
    ensures ValidateClientID(s + [c] + rest) == Some("invalid_client_id")
    ensures ValidateClientID("Az09._:@-").None?
  {
    assert c in s + [c] + rest && !ClientIdChar(c) by {
      assert (s + [c] + rest)[|s|] == c;
    }
    PlainLength("Az09._:@-");
  }
}
