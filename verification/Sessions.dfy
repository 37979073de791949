/** The hooks of all connections, in any interleaving: which session the statements of a
    connection name, and what that means for the device rows. */
module Sessions {
  import opened Basics
  import opened Ingestion
  import opened Takeover

  /** A client's connection to one start of the server; the `*mqtt.Client` of the source. */
  datatype Conn = Conn(boot: nat, number: nat, client: string)

  datatype Call =
    | Assign(conn: Conn, session: string)  // OnConnect gives the connection its session id
    | Commit(conn: Conn, step: Step)       // a statement of one of the connection's hooks
    | Forget(conn: Conn)                   // OnDisconnect deletes the entry
    | Other(step: Step)                    // a statement of an administrator
    | Restart(at: Time)                    // a new process, which marks online rows as stale

  /** `sessions` is the map of the hook; `given` is every session id it has ever handed out,
      and `connected` the connections whose row has been written. */
  datatype Hooks = Hooks(boot: nat, sessions: map<Conn, string>, given: map<Conn, string>, connected: set<Conn>)

  const START: Hooks := Hooks(0, map[], map[], {})

  function SessionOf(h: Hooks, conn: Conn): string { if conn in h.sessions then h.sessions[conn] else "" }

  /** The statement is one a hook makes for this client with this session. */
  predicate BelongsTo(step: Step, client: string, session: string) {
    match step
    case Connect(c, s, _, _, _) => c == client && s == session
    case Subscribe(c, s, _, _, _) => c == client && s == session
    case EnsurePartition(_) => true
    case Persist(ev, _, _, _) => ev.clientId == client && ev.sessionId == session
    case Disconnect(c, s, _) => c == client && s == session
    case _ => false
  }

  /** A connection is given a session once and writes its row once; its statements name the
      session it has at the time, which is empty if it has none. */
  predicate Enabled(h: Hooks, call: Call) {
    match call
    case Assign(conn, _) => conn.boot == h.boot && conn !in h.given
    case Commit(conn, step) =>
      && conn.boot == h.boot && BelongsTo(step, conn.client, SessionOf(h, conn))
      && (step.Connect? ==> conn in h.sessions && conn !in h.connected)
    case Forget(conn) => conn.boot == h.boot
    case Other(step) => step.AdminTopic? || step.ChangeType?
    case Restart(_) => true
  }

  function Next(h: Hooks, call: Call): Hooks
    requires Enabled(h, call)
  {
    match call
    case Assign(conn, session) => h.(sessions := h.sessions[conn := session], given := h.given[conn := session])
    case Commit(conn, step) => if step.Connect? then h.(connected := h.connected + {conn}) else h
    case Forget(conn) => h.(sessions := h.sessions - {conn})
    case Other(_) => h
    case Restart(_) => h.(boot := h.boot + 1, sessions := map[])
  }

  predicate CanRun(calls: seq<Call>)
    decreases |calls|, 0
  {
    calls == [] || (CanRun(calls[..|calls| - 1]) && Enabled(After(calls[..|calls| - 1]), calls[|calls| - 1]))
  }

  function After(calls: seq<Call>): Hooks
    requires CanRun(calls)
    decreases |calls|, 1
  {
    if calls == [] then START else Next(After(calls[..|calls| - 1]), calls[|calls| - 1])
  }

  lemma CallOneMore(calls: seq<Call>, call: Call)
    requires CanRun(calls) && Enabled(After(calls), call)
    ensures CanRun(calls + [call]) && After(calls + [call]) == Next(After(calls), call)
  {
    assert (calls + [call])[..|calls|] == calls;
  }

  lemma {:induction false} GivenCovers(calls: seq<Call>)
    requires CanRun(calls)
    ensures After(calls).sessions.Keys <= After(calls).given.Keys
    ensures After(calls).connected <= After(calls).given.Keys
  {
    if calls != [] {
      GivenCovers(calls[..|calls| - 1]);
    }
  }

  /** What a call does to the database, if anything. */
  function StepOf(call: Call): Option<Step> {
    match call
    case Commit(_, step) => Some(step)
    case Other(step) => Some(step)
    case Restart(at) => Some(StaleOnline(at))
    case _ => None
  }

  function StepsOf(calls: seq<Call>): seq<Step> {
    if calls == [] then []
    else
      var init, step := StepsOf(calls[..|calls| - 1]), StepOf(calls[|calls| - 1]);
      if step.Some? then init + [step.value] else init
  }

  lemma StepsOfAppend(calls: seq<Call>, call: Call)
    ensures StepsOf(calls + [call]) == StepsOf(calls) + (if StepOf(call).Some? then [StepOf(call).value] else [])
  {
    assert (calls + [call])[..|calls|] == calls;
  }

  function TouchOfCall(call: Call, client: string): Option<Touch> {
    if StepOf(call).Some? then TouchOf(StepOf(call).value, client) else None
  }

  function TouchesOf(calls: seq<Call>, client: string): seq<Touch> { Touches(StepsOf(calls), client) }

  lemma TouchesStep(calls: seq<Call>, client: string)
    requires calls != []
    ensures var init, touch := TouchesOf(calls[..|calls| - 1], client), TouchOfCall(calls[|calls| - 1], client);
      TouchesOf(calls, client) == if touch.Some? then init + [touch.value] else init
  {
    var steps, step := StepsOf(calls[..|calls| - 1]), StepOf(calls[|calls| - 1]);
    if step.Some? {
      assert (steps + [step.value])[..|steps|] == steps;
    }
  }

  // ---------- fresh sessions ----------

  /** Session ids are not empty and never repeat. */
  predicate FreshIds(calls: seq<Call>)
    requires CanRun(calls)
  {
    calls != [] ==>
      var init, last := calls[..|calls| - 1], calls[|calls| - 1];
      && FreshIds(init)
      && (last.Assign? ==> last.session != "" && last.session !in After(init).given.Values)
  }

  /** The connection that wrote the client's row last. */
  function NewestConn(calls: seq<Call>, client: string): Option<Conn> {
    if calls == [] then None
    else
      var last := calls[|calls| - 1];
      if last.Commit? && last.step.Connect? && last.step.clientId == client then Some(last.conn)
      else NewestConn(calls[..|calls| - 1], client)
  }

  ghost predicate GivenOk(h: Hooks) {
    && (forall c | c in h.sessions :: c in h.given && h.given[c] == h.sessions[c])
    && h.connected <= h.given.Keys
    && (forall c | c in h.given :: h.given[c] != "")
    && (forall c, d | c in h.given && d in h.given && c != d :: h.given[c] != h.given[d])
  }

  /** The connects among the touches are those of connected connections. */
  ghost predicate ConnectsOk(h: Hooks, touches: seq<Touch>, newest: Option<Conn>) {
    && h.connected <= h.given.Keys
    && (forall i | 0 <= i < |touches| && touches[i].Connected? ::
          exists c :: c in h.connected && h.given[c] == touches[i].session)
    && (newest.Some? ==> newest.value in h.connected)
    && Newest(touches) == if newest.Some? then Some(h.given[newest.value]) else None
  }

  lemma GivenStep(h: Hooks, call: Call)
    requires GivenOk(h) && Enabled(h, call)
    requires call.Assign? ==> call.session != "" && call.session !in h.given.Values
    ensures GivenOk(Next(h, call))
  {
    if call.Assign? {
      assert forall c | c in h.given :: h.given[c] in h.given.Values;
    }
  }

  lemma NewestAppend(touches: seq<Touch>, touch: Touch)
    ensures Newest(touches + [touch]) == if touch.Connected? then Some(touch.session) else Newest(touches)
  {
    assert (touches + [touch])[..|touches|] == touches;
  }

  lemma ConnectsStay(h: Hooks, h': Hooks, touches: seq<Touch>, newest: Option<Conn>)
    requires ConnectsOk(h, touches, newest) && h.connected <= h'.connected <= h'.given.Keys
    requires forall c | c in h.connected :: h'.given[c] == h.given[c]
    ensures ConnectsOk(h', touches, newest)
  {
    hide Newest;
    forall i | 0 <= i < |touches| && touches[i].Connected?
      ensures exists c :: c in h'.connected && h'.given[c] == touches[i].session
    {
      var c :| c in h.connected && h.given[c] == touches[i].session;
      assert c in h'.connected;
    }
  }

  lemma ConnectsAppend(h: Hooks, touches: seq<Touch>, newest: Option<Conn>, touch: Touch, conn: Conn)
    requires ConnectsOk(h, touches, newest)
    requires touch.Connected? ==> conn in h.connected && h.given[conn] == touch.session
    ensures ConnectsOk(h, touches + [touch], if touch.Connected? then Some(conn) else newest)
  {
    hide Newest;
    NewestAppend(touches, touch);
    var all := touches + [touch];
    forall i | 0 <= i < |all| && all[i].Connected?
      ensures exists c :: c in h.connected && h.given[c] == all[i].session
    {
      assert i < |touches| ==> all[i] == touches[i];
    }
  }

  /** What a call does to the records: the row is written under the session given. */
  lemma RecordsMove(h: Hooks, call: Call)
    requires GivenOk(h) && Enabled(h, call)
    ensures var h' := Next(h, call);
      && h.connected <= h'.connected <= h'.given.Keys
      && (forall c | c in h.connected :: h'.given[c] == h.given[c])
      && (call.Commit? && call.step.Connect? ==>
            call.conn in h'.connected && h'.given[call.conn] == call.step.sessionId)
  {
  }

  function NewestAfter(newest: Option<Conn>, call: Call, client: string): Option<Conn> {
    if call.Commit? && call.step.Connect? && call.step.clientId == client then Some(call.conn) else newest
  }

  lemma ConnectsStep(h: Hooks, touches: seq<Touch>, newest: Option<Conn>, call: Call, client: string)
    requires GivenOk(h) && ConnectsOk(h, touches, newest) && Enabled(h, call)
    ensures var touch := TouchOfCall(call, client);
      var touches' := if touch.Some? then touches + [touch.value] else touches;
      ConnectsOk(Next(h, call), touches', NewestAfter(newest, call, client))
  {
    hide ConnectsOk, GivenOk, Next;
    var touch, h' := TouchOfCall(call, client), Next(h, call);
    RecordsMove(h, call);
    ConnectsStay(h, h', touches, newest);
    if touch.Some? {
      var conn := if call.Commit? then call.conn else Conn(0, 0, "");
      ConnectsAppend(h', touches, newest, touch.value, conn);
    }
  }

  lemma {:induction false} SessionsHold(calls: seq<Call>, client: string)
    requires CanRun(calls) && FreshIds(calls)
    ensures GivenOk(After(calls)) && ConnectsOk(After(calls), TouchesOf(calls, client), NewestConn(calls, client))
  {
    if calls != [] {
      hide Enabled, Next, GivenOk, ConnectsOk, TouchesOf, TouchOfCall;
      var init, last := calls[..|calls| - 1], calls[|calls| - 1];
      SessionsHold(init, client);
      GivenStep(After(init), last);
      TouchesStep(calls, client);
      ConnectsStep(After(init), TouchesOf(init, client), NewestConn(init, client), last, client);
    }
  }

  // ---------- when the touches are well behaved ----------

  /** Of the connections of a client only the one that connected last is active, and only
      connections that have a session are reported as disconnected. */
  predicate Orderly(calls: seq<Call>, client: string)
    requires CanRun(calls)
  {
    calls != [] ==>
      var init, last := calls[..|calls| - 1], calls[|calls| - 1];
      && Orderly(init, client)
      && InOrder(After(init), NewestConn(init, client), last, client)
  }

  predicate InOrder(h: Hooks, newest: Option<Conn>, call: Call, client: string) {
    var touch := TouchOfCall(call, client);
    call.Commit? && touch.Some? ==>
      && (touch.value.Active? ==> call.conn in h.sessions && newest == Some(call.conn))
      && (touch.value.Disconnected? ==> call.conn in h.sessions)
  }

  /** What one more touch has to meet. */
  predicate Fits(touches: seq<Touch>, touch: Touch) {
    match touch
    case Connected(s) => s != "" && forall i | 0 <= i < |touches| && touches[i].Connected? :: touches[i].session != s
    case Disconnected(s) => s != ""
    case Active(s) => Newest(touches) == Some(s)
    case Restarted => true
  }

  lemma WellBehavedAppend(touches: seq<Touch>, touch: Touch)
    ensures WellBehaved(touches + [touch]) <==> WellBehaved(touches) && Fits(touches, touch)
  {
    var all := touches + [touch];
    assert all[..|touches|] == touches;
    assert forall i | 0 <= i < |touches| :: all[i] == touches[i] && all[..i] == touches[..i];
    if WellBehaved(all) {
      WellBehavedPrefix(all, |touches|);
    }
  }

  lemma FitsInOrder(h: Hooks, touches: seq<Touch>, newest: Option<Conn>, call: Call, client: string)
    requires GivenOk(h) && ConnectsOk(h, touches, newest) && Enabled(h, call)
    requires TouchOfCall(call, client).Some?
    ensures Fits(touches, TouchOfCall(call, client).value) <==> InOrder(h, newest, call, client)
  {
    hide Newest;
    var touch := TouchOfCall(call, client).value;
    if touch.Connected? {
      forall i | 0 <= i < |touches| && touches[i].Connected?
        ensures touches[i].session != touch.session
      {
        var c :| c in h.connected && h.given[c] == touches[i].session;
        assert h.given[call.conn] == touch.session;
      }
    }
  }

  /** For hook runs with fresh session ids, the assumption of `TakeoverSafe` on the touches of
      a client says exactly this of the calls: no connection of the client is active once
      another has connected, and none without a session is reported as disconnected. */
  lemma {:induction false} HooksBehave(calls: seq<Call>, client: string)
    requires CanRun(calls) && FreshIds(calls)
    ensures WellBehaved(TouchesOf(calls, client)) <==> Orderly(calls, client)
  {
    if calls == [] {
      assert TouchesOf(calls, client) == [];
    } else {
      hide Enabled, Next, GivenOk, ConnectsOk, TouchesOf, TouchOfCall, WellBehaved, Fits;
      var init, last := calls[..|calls| - 1], calls[|calls| - 1];
      HooksBehave(init, client);
      SessionsHold(init, client);
      TouchesStep(calls, client);
      if TouchOfCall(last, client).Some? {
        WellBehavedAppend(TouchesOf(init, client), TouchOfCall(last, client).value);
        FitsInOrder(After(init), TouchesOf(init, client), NewestConn(init, client), last, client);
      }
    }
  }

  // ---------- the device row follows the newest connection ----------

  /** The connection that wrote the row last, unless it has been reported as disconnected
      or the server has been restarted since. */
  function Standing(calls: seq<Call>, client: string): Option<Conn> {
    if calls == [] then None
    else
      var before, last := Standing(calls[..|calls| - 1], client), calls[|calls| - 1];
      match last
      case Commit(conn, Connect(c, _, _, _, _)) => if c == client then Some(conn) else before
      case Commit(conn, Disconnect(c, _, _)) => if c == client && before == Some(conn) then None else before
      case Restart(_) => None
      case _ => before
  }

  lemma {:induction false} StandingIsNewest(calls: seq<Call>, client: string)
    ensures Standing(calls, client).Some? ==> Standing(calls, client) == NewestConn(calls, client)
  {
    if calls != [] {
      StandingIsNewest(calls[..|calls| - 1], client);
    }
  }

  /** There is a row once a connection has written it; it holds the newest connection's
      session and is online exactly while that connection stands. */
  ghost predicate RowOk(h: Hooks, row: RowView, newest: Option<Conn>, standing: Option<Conn>) {
    && (row.Present? <==> newest.Some?)
    && (newest.Some? ==> newest.value in h.given && row.session == h.given[newest.value])
    && (row.Present? && row.online <==> standing.Some?)
  }

  /** The client's row is right after these calls. */
  ghost predicate RowRight(calls: seq<Call>, client: string)
    requires CanRun(calls)
  {
    RowOk(After(calls), RowAfter(TouchesOf(calls, client)), NewestConn(calls, client), Standing(calls, client))
  }

  /** An activity is harmless if its connection is the client's newest and has its session. A
      disconnect is harmless if its connection has a session, its own or not the row's, or if
      there is nothing standing that it could take down by naming no session. */
  predicate Spares(h: Hooks, newest: Option<Conn>, standing: Option<Conn>, call: Call, client: string) {
    var touch := TouchOfCall(call, client);
    call.Commit? && touch.Some? ==>
      && (touch.value.Active? ==> call.conn in h.sessions && newest == Some(call.conn))
      && (touch.value.Disconnected? ==> call.conn in h.sessions || standing.None? || standing == Some(call.conn))
  }

  /** Every call is harmless when it is made. */
  predicate Harmless(calls: seq<Call>, client: string)
    requires CanRun(calls)
  {
    calls != [] ==>
      var init, last := calls[..|calls| - 1], calls[|calls| - 1];
      && Harmless(init, client)
      && Spares(After(init), NewestConn(init, client), Standing(init, client), last, client)
  }

  function StandingAfter(standing: Option<Conn>, call: Call, client: string): Option<Conn> {
    match call
    case Commit(conn, Connect(c, _, _, _, _)) => if c == client then Some(conn) else standing
    case Commit(conn, Disconnect(c, _, _)) => if c == client && standing == Some(conn) then None else standing
    case Restart(_) => None
    case _ => standing
  }

  /** From a row that is right, a call leads to one that is right exactly if it is harmless. */
  lemma RowStep(h: Hooks, row: RowView, newest: Option<Conn>, standing: Option<Conn>, call: Call, client: string)
    requires GivenOk(h) && Enabled(h, call) && RowOk(h, row, newest, standing)
    requires newest.Some? ==> newest.value in h.connected
    requires standing.Some? ==> standing == newest
    ensures var touch := TouchOfCall(call, client);
      var row' := if touch.Some? then Apply(row, touch.value) else row;
      RowOk(Next(h, call), row', NewestAfter(newest, call, client), StandingAfter(standing, call, client)) <==>
        Spares(h, newest, standing, call, client)
  {
  }

  lemma RightStep(calls: seq<Call>, client: string)
    requires CanRun(calls) && FreshIds(calls) && calls != [] && RowRight(calls[..|calls| - 1], client)
    ensures var init := calls[..|calls| - 1];
      RowRight(calls, client) <==>
        Spares(After(init), NewestConn(init, client), Standing(init, client), calls[|calls| - 1], client)
  {
    var init, last := calls[..|calls| - 1], calls[|calls| - 1];
    var touch := TouchOfCall(last, client);
    assert NewestConn(calls, client) == NewestAfter(NewestConn(init, client), last, client);
    assert Standing(calls, client) == StandingAfter(Standing(init, client), last, client);
    hide Enabled, Next, GivenOk, RowOk, TouchesOf, TouchOfCall, NewestConn, Standing, Apply, RowAfter, Spares, Newest;
    hide NewestAfter, StandingAfter;
    SessionsHold(init, client);
    StandingIsNewest(init, client);
    TouchesStep(calls, client);
    var row := RowAfter(TouchesOf(init, client));
    RowStep(After(init), row, NewestConn(init, client), Standing(init, client), last, client);
    if touch.Some? {
      RowAfterAppend(TouchesOf(init, client), touch.value);
    }
  }

  /** The row is right after the first `n` calls. */
  ghost predicate RightAt(calls: seq<Call>, n: nat, client: string)
    requires n <= |calls|
  {
    CanRun(calls[..n]) && RowRight(calls[..n], client)
  }

  lemma RightAtAll(calls: seq<Call>, client: string)
    requires CanRun(calls) && calls != []
    ensures var init := calls[..|calls| - 1];
      (forall n | 0 <= n <= |calls| :: RightAt(calls, n, client))
        <==> (forall n | 0 <= n <= |init| :: RightAt(init, n, client)) && RowRight(calls, client)
  {
    hide RowRight;
    var init := calls[..|calls| - 1];
    assert calls[..|calls|] == calls;
    assert forall n | 0 <= n <= |init| :: init[..n] == calls[..n];
    assert forall n | 0 <= n <= |init| :: RightAt(init, n, client) <==> RightAt(calls, n, client);
    assert RightAt(calls, |calls|, client) <==> RowRight(calls, client);
  }

  /** Exactly when the session-id guard works: with fresh session ids, the client's row is
      right after every call if and only if every call is harmless. */
  lemma {:induction false} RowRightExactly(calls: seq<Call>, client: string)
    requires CanRun(calls) && FreshIds(calls)
    ensures (forall n | 0 <= n <= |calls| :: RightAt(calls, n, client)) <==> Harmless(calls, client)
  {
    if calls == [] {
      assert TouchesOf(calls, client) == [] && calls[..0] == calls;
    } else {
      hide RightAt, RowRight, Spares;
      var init := calls[..|calls| - 1];
      RowRightExactly(init, client);
      RightAtAll(calls, client);
      if forall n | 0 <= n <= |init| :: RightAt(init, n, client) {
        RightAtEnd(init, client);
        RightStep(calls, client);
      }
    }
  }

  lemma RightAtEnd(calls: seq<Call>, client: string)
    requires CanRun(calls) && RightAt(calls, |calls|, client)
    ensures RowRight(calls, client)
  {
    assert calls[..|calls|] == calls;
  }

  /** What well-behaved touches need is more than enough. */
  lemma {:induction false} OrderlyIsHarmless(calls: seq<Call>, client: string)
    requires CanRun(calls) && Orderly(calls, client)
    ensures Harmless(calls, client)
  {
    if calls != [] {
      OrderlyIsHarmless(calls[..|calls| - 1], client);
    }
  }

  /** On the database: whatever the interleaving of harmless calls, a device is online
      exactly while the connection that connected last stands; disconnects of older
      connections, however late, do not matter. */
  lemma OnlineWhileStanding(calls: seq<Call>, client: string)
    requires CanRun(calls) && FreshIds(calls) && Harmless(calls, client)
    requires Ingestion.CanRun(EMPTY, StepsOf(calls))
    ensures var devices := Ingestion.After(EMPTY, StepsOf(calls)).devices;
      && (client in devices <==> NewestConn(calls, client).Some?)
      && (client in devices && devices[client].status.Online? <==> Standing(calls, client).Some?)
      && (client in devices ==>
            && NewestConn(calls, client).value in After(calls).given
            && devices[client].sessionId == After(calls).given[NewestConn(calls, client).value])
  {
    hide CanRun, After, FreshIds, Harmless, NewestConn, Standing, RowAfter, RightAt;
    RowRightExactly(calls, client);
    RightAtEnd(calls, client);
    RowFollowsTouches(StepsOf(calls), client);
  }

  /** What has been done is a run of the hooks and of the database. */
  ghost predicate Done(calls: seq<Call>, h: Hooks, client: string, row: RowView, standing: Option<Conn>) {
    && CanRun(calls) && FreshIds(calls) && After(calls) == h
    && Ingestion.CanRun(EMPTY, StepsOf(calls)) && View(Ingestion.After(EMPTY, StepsOf(calls)), client) == row
    && Standing(calls, client) == standing
  }

  /** One more call of a connection of the client; the first one writes the row. */
  lemma DoneOneMore(calls: seq<Call>, h: Hooks, client: string, row: RowView, standing: Option<Conn>, call: Call)
    requires Done(calls, h, client, row, standing) && Enabled(h, call)
    requires (call.Assign? && call.session != "" && call.session !in h.given.Values)
          || (call.Commit? && call.conn.client == client && (row.Present? || StepsOf(calls) == [])
              && (call.step.Connect? || call.step.Subscribe? || call.step.Disconnect?))
    ensures var touch := TouchOfCall(call, client);
      var row' := if touch.Some? then Apply(row, touch.value) else row;
      Done(calls + [call], Next(h, call), client, row', StandingAfter(standing, call, client))
  {
    CallOneMore(calls, call);
    StepsOfAppend(calls, call);
    assert (calls + [call])[..|calls|] == calls;
    if call.Commit? {
      var db := Ingestion.After(EMPTY, StepsOf(calls));
      CanBeDone(db, call.step, client);
      Ingestion.RunOneMore(EMPTY, StepsOf(calls), call.step);
      StepTouches(db, call.step, client);
    }
  }

  lemma CanBeDone(db: Db, step: Step, client: string)
    requires View(db, client).Present? || db == EMPTY
    requires (step.Connect? || step.Subscribe? || step.Disconnect?) && step.clientId == client
    ensures Ingestion.Enabled(db, step)
  {
  }

  lemma NothingDoneYet(client: string)
    ensures Done([], START, client, Absent, None) && StepsOf([]) == []
  {
  }

  /** A connection is given its session and writes the row. */
  lemma Connecting(calls: seq<Call>, h: Hooks, row: RowView, standing: Option<Conn>, conn: Conn, session: string,
                   at: Time, id: Id) returns (h': Hooks)
    requires Done(calls, h, conn.client, row, standing) && (row.Present? || StepsOf(calls) == [])
    requires conn.boot == h.boot && conn !in h.given && conn !in h.connected
    requires session != "" && session !in h.given.Values
    ensures h' == Hooks(h.boot, h.sessions[conn := session], h.given[conn := session], h.connected + {conn})
    ensures Done(calls + [Assign(conn, session), Commit(conn, Connect(conn.client, session, at, map[], id))],
      h', conn.client, Present(true, session), Some(conn))
  {
    hide Done;
    var assign, connect := Assign(conn, session), Commit(conn, Connect(conn.client, session, at, map[], id));
    DoneOneMore(calls, h, conn.client, row, standing, assign);
    StepsOfAppend(calls, assign);
    hide StepsOf;
    DoneOneMore(calls + [assign], Next(h, assign), conn.client, row, standing, connect);
    assert calls + [assign] + [connect] == calls + [assign, connect];
    h' := Next(Next(h, assign), connect);
  }

  /** Harm done: two connections, then a subscription of the older one. The row follows the
      old session again, so the report that the newest connection has gone is ignored and
      the device stays online with nothing standing. */
  lemma LateActivityDefeatsGuard(first: Conn, second: Conn, before: string, after: string,
                                 filters: seq<(string, nat)>, id: Id)
    requires first.boot == second.boot == 0 && first != second && first.client == second.client
    requires before != "" && after != "" && before != after && filters != []
    ensures var client := first.client;
      var calls := [Assign(first, before), Commit(first, Connect(client, before, 0, map[], id)),
                    Assign(second, after), Commit(second, Connect(client, after, 1, map[], id)),
                    Commit(first, Subscribe(client, before, filters, 2, id)),
                    Commit(second, Disconnect(client, after, 3))];
      && CanRun(calls) && FreshIds(calls) && Ingestion.CanRun(EMPTY, StepsOf(calls))
      && Standing(calls, client).None?
      && View(Ingestion.After(EMPTY, StepsOf(calls)), client) == Present(true, before)
  {
    var client := first.client;
    NothingDoneYet(client);
    hide Done, Standing, FreshIds, CanRun, After, StepsOf;
    var one := [Assign(first, before), Commit(first, Connect(client, before, 0, map[], id))];
    var h1 := Connecting([], START, Absent, None, first, before, 0, id);
    assert [] + one == one;
    var two := one + [Assign(second, after), Commit(second, Connect(client, after, 1, map[], id))];
    var h2 := Connecting(one, h1, Present(true, before), Some(first), second, after, 1, id);
    var late := Commit(first, Subscribe(client, before, filters, 2, id));
    var gone := Commit(second, Disconnect(client, after, 3));
    DoneOneMore(two, h2, client, Present(true, after), Some(second), late);
    DoneOneMore(two + [late], h2, client, Present(true, before), Some(second), gone);
    assert two + [late] + [gone] ==
      [Assign(first, before), Commit(first, Connect(client, before, 0, map[], id)),
       Assign(second, after), Commit(second, Connect(client, after, 1, map[], id)), late, gone];
    UnfoldDone(two + [late] + [gone], h2, client, Present(true, before), None);
  }

  lemma UnfoldDone(calls: seq<Call>, h: Hooks, client: string, row: RowView, standing: Option<Conn>)
    requires Done(calls, h, client, row, standing)
    ensures CanRun(calls) && FreshIds(calls) && Ingestion.CanRun(EMPTY, StepsOf(calls))
    ensures Standing(calls, client) == standing && View(Ingestion.After(EMPTY, StepsOf(calls)), client) == row
  {
  }
}
