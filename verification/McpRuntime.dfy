/**
 The MCP session lifecycle: connects that start a process outside the lock, tool calls, reconciliation with exited
 processes, and enabling or disabling of servers, all interleaved on one shared table.
 */
module McpRuntime {
  import opened Results

  type ServerId = string
  type SessionId = nat

  datatype RowState = Connecting | Connected | Failed

  /** A tool as listed by a session: its name when it has one. */
  type Tool = Option<string>

  datatype Row = Row(state: RowState, discoveredTools: seq<Tool>)

  /** A running process and the id of the next request to it. */
  datatype Session = Session(id: SessionId, nextId: nat)

  datatype Entry = Entry(row: Row, session: Option<Session>)

  type Table = map<ServerId, Entry>

  /** What comes back for a request: nothing readable, or a response with an id, an error and a result. */
  datatype Reply = Broken | Response(id: Option<nat>, hasError: bool, hasResult: bool)

  /** A request sent to a session. */
  datatype Sent = Sent(session: SessionId, requestId: nat, tool: string, succeeded: bool)

  /** A reply counts only under the id of the request it answers, without an error, and with a result. */
  predicate Accepts(requestId: nat, reply: Reply) {
    reply.Response? && reply.id == Some(requestId) && !reply.hasError && reply.hasResult
  }

  datatype CallOutcome = MissingArguments | NotApproved | NotConnected | ToolNotDiscovered | Executed | CallFailed

  // ---------- what each locked section does to the table ----------

  function WithConnecting(table: Table, server: ServerId): Table {
    table[server := Entry(Row(Connecting, []), None)]
  }

  function WithConnected(table: Table, server: ServerId, session: Session, tools: seq<Tool>): Table {
    table[server := Entry(Row(Connected, tools), Some(session))]
  }

  function WithFailed(table: Table, server: ServerId): Table {
    table[server := Entry(Row(Failed, []), None)]
  }

  /** The entry after a tool request was sent: a failed one loses its session but keeps its list of tools. */
  function AfterCall(entry: Entry, accepted: bool): Entry
    requires entry.session.Some?
  {
    if accepted then entry.(session := Some(entry.session.value.(nextId := entry.session.value.nextId + 1)))
    else entry.(row := entry.row.(state := Failed), session := None)
  }

  function CallTool(table: Table, server: ServerId, tool: string, approved: bool, reply: Reply): (CallOutcome, Table, Option<Sent>) {
    if server == "" || tool == "" then (MissingArguments, table, None)
    else if !approved then (NotApproved, table, None)
    else if server !in table || table[server].row.state != Connected || table[server].session.None? then
      (NotConnected, table, None)
    else if Some(tool) !in table[server].row.discoveredTools then (ToolNotDiscovered, table, None)
    else
      var requestId := table[server].session.value.nextId;
      var accepted := Accepts(requestId, reply);
      (if accepted then Executed else CallFailed,
       table[server := AfterCall(table[server], accepted)],
       Some(Sent(table[server].session.value.id, requestId, tool, accepted)))
  }

  /** The table after a look at which processes have exited or cannot be waited for. */
  function Reconcile(table: Table, gone: set<SessionId>): Table {
    map server | server in table ::
      if table[server].session.Some? && table[server].session.value.id in gone then Entry(Row(Failed, []), None)
      else table[server]
  }

  /** A session is held exactly by a connected row, whose tools are those this very session listed. */
  predicate EntrySound(entry: Entry, listed: map<SessionId, seq<Tool>>) {
    && (entry.session.Some? <==> entry.row.state == Connected)
    && (entry.session.Some? ==>
          entry.session.value.id in listed && entry.row.discoveredTools == listed[entry.session.value.id])
  }

  predicate TableSound(table: Table, listed: map<SessionId, seq<Tool>>) {
    forall server | server in table :: EntrySound(table[server], listed)
  }

  /** A request went to a session that had listed the tool. */
  predicate SentSound(sent: Sent, listed: map<SessionId, seq<Tool>>) {
    sent.session in listed && Some(sent.tool) in listed[sent.session]
  }

  /**
   The table shared by all requests; each method is one section under its lock. `listed` records what each session
   answered when it was asked for its tools.
   */
  class Runtime {
    var table: Table
    ghost var listed: map<SessionId, seq<Tool>>

    ghost predicate Valid()
      reads this
    {
      TableSound(table, listed)
    }

    constructor ()
      ensures table == map[] && listed == map[] && Valid()
    {
      table, listed := map[], map[];
    }

    method InsertConnecting(server: ServerId)
      requires Valid()
      modifies `table
      ensures Valid()
      ensures table == WithConnecting(old(table), server)
    {
      table := table[server := Entry(Row(Connecting, []), None)];
    }

    /** The session is a process that has just been started, so it is none of those that answered before. */
    method InsertConnected(server: ServerId, session: Session, tools: seq<Tool>)
      requires Valid() && session.id !in listed
      modifies this
      ensures Valid() && listed == old(listed)[session.id := tools]
      ensures table == WithConnected(old(table), server, session, tools)
    {
      listed := listed[session.id := tools];
      table := table[server := Entry(Row(Connected, tools), Some(session))];
    }

    method RecordFailed(server: ServerId)
      requires Valid()
      modifies `table
      ensures Valid()
      ensures table == WithFailed(old(table), server)
    {
      table := table[server := Entry(Row(Failed, []), None)];
    }

    method Call(server: ServerId, tool: string, approved: bool, reply: Reply) returns (outcome: CallOutcome, sent: Option<Sent>)
      requires Valid()
      modifies `table
      ensures Valid() && (sent.Some? ==> SentSound(sent.value, listed))
      ensures (outcome, table, sent) == CallTool(old(table), server, tool, approved, reply)
    {
      sent := None;
      if server == "" || tool == "" {
        return MissingArguments, None;
      }
      if !approved {
        return NotApproved, None;
      }
      if server !in table {
        return NotConnected, None;
      }
      var entry := table[server];
      if entry.row.state != Connected {
        return NotConnected, None;
      }
      if entry.session.None? {
        return NotConnected, None;
      }
      if Some(tool) !in entry.row.discoveredTools {
        return ToolNotDiscovered, None;
      }
      var session := entry.session.value;
      var requestId := session.nextId;
      session := session.(nextId := session.nextId + 1);
      if Accepts(requestId, reply) {
        table := table[server := entry.(session := Some(session))];
        return Executed, Some(Sent(session.id, requestId, tool, true));
      }
      table := table[server := Entry(entry.row.(state := Failed), None)];
      return CallFailed, Some(Sent(session.id, requestId, tool, false));
    }

    method ReconcileSessions(gone: set<SessionId>)
      requires Valid()
      modifies `table
      ensures Valid()
      ensures table == Reconcile(old(table), gone)
    {
      var pending := table.Keys;
      while pending != {}
        invariant Valid() && pending <= table.Keys == old(table).Keys
        invariant forall server | server in pending :: table[server] == old(table)[server]
        invariant forall server | server in table && server !in pending ::
                    table[server] == Reconcile(old(table), gone)[server]
        decreases pending
      {
        var server :| server in pending;
        pending := pending - {server};
        var entry := table[server];
        if entry.session.Some? && entry.session.value.id in gone {
          table := table[server := Entry(Row(Failed, []), None)];
        }
      }
    }

    method Remove(server: ServerId)
      requires Valid()
      modifies `table
      ensures Valid()
      ensures table == old(table) - {server}
    {
      table := table - {server};
    }
  }

  // ---------- all requests together ----------

  datatype Transport = Stdio | Http | Invalid

  datatype Config = Config(enabled: bool, transport: Transport)

  /** How far a request in flight has come. */
  datatype Flight =
    | Checked(server: ServerId)
    | Starting(server: ServerId)
    | Started(server: ServerId, session: Session, tools: seq<Tool>)
    | Failing(server: ServerId)
    | Removing(server: ServerId)

  type RequestId = nat

  /** `listed` records what each session answered to tools/list, `sent` every tool request. */
  datatype World = World(
    table: Table,
    configs: map<ServerId, Config>,
    flights: map<RequestId, Flight>,
    listed: map<SessionId, seq<Tool>>,
    sent: seq<Sent>)

  datatype Event =
    | BeginConnect(request: RequestId, server: ServerId, gone: set<SessionId>)
    | MarkConnecting(request: RequestId)
    | StartSucceeds(request: RequestId, session: SessionId, tools: seq<Tool>)
    | StartFails(request: RequestId)
    | MarkConnected(request: RequestId)
    | MarkFailed(request: RequestId)
    | Call(server: ServerId, tool: string, approved: bool, reply: Reply)
    | LookAround(gone: set<SessionId>)
    | SetEnabled(request: RequestId, server: ServerId, enabled: bool)
    | DropEntry(request: RequestId)

  function Launch(w: World, request: RequestId, flight: Flight): World {
    w.(flights := w.flights[request := flight])
  }

  function Land(w: World, request: RequestId, table: Table): World {
    w.(flights := w.flights - {request}, table := table)
  }

  /** Where a connect goes after it read the table and the configuration. */
  function Dispatch(w: World, request: RequestId, server: ServerId): World {
    if server !in w.configs || !w.configs[server].enabled then w
    else if w.configs[server].transport == Stdio then Launch(w, request, Checked(server))
    else Launch(w, request, Failing(server))
  }

  /** One step; a step that is not due changes nothing. */
  function Apply(w: World, event: Event): World {
    match event
    case BeginConnect(request, server, gone) =>
      if request in w.flights then w else Dispatch(w.(table := Reconcile(w.table, gone)), request, server)
    case MarkConnecting(request) =>
      if request in w.flights && w.flights[request].Checked? then
        Launch(w.(table := WithConnecting(w.table, w.flights[request].server)), request, Starting(w.flights[request].server))
      else w
    case StartSucceeds(request, session, tools) =>
      if request in w.flights && w.flights[request].Starting? && session !in w.listed then
        Launch(w.(listed := w.listed[session := tools]), request,
               Started(w.flights[request].server, Session(session, 3), tools))
      else w
    case StartFails(request) =>
      if request in w.flights && w.flights[request].Starting? then Launch(w, request, Failing(w.flights[request].server)) else w
    case MarkConnected(request) =>
      if request in w.flights && w.flights[request].Started? then
        var f := w.flights[request];
        Land(w, request, WithConnected(w.table, f.server, f.session, f.tools))
      else w
    case MarkFailed(request) =>
      if request in w.flights && w.flights[request].Failing? then
        Land(w, request, WithFailed(w.table, w.flights[request].server))
      else w
    case Call(server, tool, approved, reply) =>
      var (outcome, table, sent) := CallTool(w.table, server, tool, approved, reply);
      w.(table := table, sent := w.sent + if sent.Some? then [sent.value] else [])
    case LookAround(gone) => w.(table := Reconcile(w.table, gone))
    case SetEnabled(request, server, enabled) =>
      if request in w.flights || server !in w.configs then w
      else
        var changed := w.(configs := w.configs[server := w.configs[server].(enabled := enabled)]);
        if enabled then changed else Launch(changed, request, Removing(server))
    case DropEntry(request) =>
      if request in w.flights && w.flights[request].Removing? then Land(w, request, w.table - {w.flights[request].server}) else w
  }

  function Run(w: World, events: seq<Event>): World
    decreases events
  {
    if events == [] then w else Run(Apply(w, events[0]), events[1..])
  }

  function Initial(configs: map<ServerId, Config>): World {
    World(map[], configs, map[], map[], [])
  }

  // ---------- sessions and rows ----------

  predicate FlightSound(flight: Flight, listed: map<SessionId, seq<Tool>>) {
    flight.Started? ==>
      flight.session.id in listed && listed[flight.session.id] == flight.tools && flight.session.nextId == 3
  }

  ghost predicate Sound(w: World) {
    && TableSound(w.table, w.listed)
    && (forall request | request in w.flights :: FlightSound(w.flights[request], w.listed))
    && (forall i | 0 <= i < |w.sent| :: SentSound(w.sent[i], w.listed))
  }

  lemma CallKeepsSound(w: World, event: Event)
    requires Sound(w) && event.Call?
    ensures Sound(Apply(w, event))
  {
    var sent := CallTool(w.table, event.server, event.tool, event.approved, event.reply).2;
    if sent.Some? {
      assert EntrySound(w.table[event.server], w.listed);
      assert SentSound(sent.value, w.listed);
    }
  }

  lemma ReconcileKeepsSound(w: World, gone: set<SessionId>)
    requires Sound(w)
    ensures Sound(w.(table := Reconcile(w.table, gone)))
  {
  }

  lemma LaunchKeepsSound(w: World, event: Event)
    requires Sound(w) && (event.BeginConnect? || event.SetEnabled? || event.StartFails?)
    ensures Sound(Apply(w, event))
  {
    if event.BeginConnect? {
      ReconcileKeepsSound(w, event.gone);
    }
  }

  lemma StartKeepsSound(w: World, event: Event)
    requires Sound(w) && event.StartSucceeds?
    ensures Sound(Apply(w, event))
  {
  }

  lemma MarkKeepsSound(w: World, event: Event)
    requires Sound(w) && (event.MarkConnecting? || event.MarkConnected? || event.MarkFailed? || event.DropEntry?)
    ensures Sound(Apply(w, event))
  {
  }

  lemma ApplyKeepsSound(w: World, event: Event)
    requires Sound(w)
    ensures Sound(Apply(w, event))
  {
    match event
    case Call(_, _, _, _) => CallKeepsSound(w, event);
    case LookAround(gone) => ReconcileKeepsSound(w, gone);
    case StartSucceeds(_, _, _) => StartKeepsSound(w, event);
    case BeginConnect(_, _, _) => LaunchKeepsSound(w, event);
    case SetEnabled(_, _, _) => LaunchKeepsSound(w, event);
    case StartFails(_) => LaunchKeepsSound(w, event);
    case MarkConnecting(_) => MarkKeepsSound(w, event);
    case MarkConnected(_) => MarkKeepsSound(w, event);
    case MarkFailed(_) => MarkKeepsSound(w, event);
    case DropEntry(_) => MarkKeepsSound(w, event);
  }

  lemma {:induction false} RunKeepsSound(w: World, events: seq<Event>)
    requires Sound(w)
    ensures Sound(Run(w, events))
    decreases events
  {
    if events != [] {
      ApplyKeepsSound(w, events[0]);
      RunKeepsSound(Apply(w, events[0]), events[1..]);
    }
  }

  /**
   In every state that any interleaving reaches: an entry holds a session exactly when its row is connected, a connected
   row shows the tools its own session listed, and every tool request went to a session that had listed the tool.
   */
  lemma SessionsMatchRows(configs: map<ServerId, Config>, events: seq<Event>)
    ensures var w := Run(Initial(configs), events);
            && (forall server | server in w.table ::
                  && (w.table[server].session.Some? <==> w.table[server].row.state == Connected)
                  && (w.table[server].row.state == Connected ==>
                        w.table[server].session.value.id in w.listed
                        && w.table[server].row.discoveredTools == w.listed[w.table[server].session.value.id]))
            && (forall i | 0 <= i < |w.sent| ::
                  w.sent[i].session in w.listed && Some(w.sent[i].tool) in w.listed[w.sent[i].session])
  {
    RunKeepsSound(Initial(configs), events);
  }

  // ---------- request ids ----------

  predicate HasSession(w: World, server: ServerId) {
    server in w.table && w.table[server].session.Some?
  }

  function SessionOf(w: World, server: ServerId): Session
    requires HasSession(w, server)
  {
    w.table[server].session.value
  }

  predicate InFlight(w: World, request: RequestId) {
    request in w.flights && w.flights[request].Started?
  }

  /** Every session is in one place only: one entry, or one connect about to enter it. */
  ghost predicate OnePlace(w: World) {
    && (forall a, b | HasSession(w, a) && HasSession(w, b) && a != b :: SessionOf(w, a).id != SessionOf(w, b).id)
    && (forall r, q | InFlight(w, r) && InFlight(w, q) && r != q :: w.flights[r].session.id != w.flights[q].session.id)
    && (forall a, r | HasSession(w, a) && InFlight(w, r) :: SessionOf(w, a).id != w.flights[r].session.id)
  }

  /** Ids go up: the next id of a session is above all it was sent, and a session in flight was sent no tool request. */
  ghost predicate IdsGoUp(w: World) {
    && (forall a, i | HasSession(w, a) && 0 <= i < |w.sent| && w.sent[i].session == SessionOf(w, a).id ::
          w.sent[i].requestId < SessionOf(w, a).nextId)
    && (forall r, i | InFlight(w, r) && 0 <= i < |w.sent| :: w.sent[i].session != w.flights[r].session.id)
    && (forall i, j | 0 <= i < j < |w.sent| && w.sent[i].session == w.sent[j].session ::
          w.sent[i].requestId < w.sent[j].requestId)
  }

  /** Sessions may go, but none appears or changes, and nothing is sent. */
  ghost predicate OnlyLoses(w: World, after: World) {
    && after.sent == w.sent
    && (forall a | HasSession(after, a) :: HasSession(w, a) && SessionOf(after, a) == SessionOf(w, a))
    && (forall r | InFlight(after, r) :: InFlight(w, r) && after.flights[r].session == w.flights[r].session)
  }

  lemma LosingKeepsIds(w: World, after: World)
    requires OnePlace(w) && IdsGoUp(w) && OnlyLoses(w, after)
    ensures OnePlace(after) && IdsGoUp(after)
  {
  }

  lemma StartKeepsIds(w: World, request: RequestId, session: SessionId, tools: seq<Tool>)
    requires Sound(w) && OnePlace(w) && IdsGoUp(w)
    requires request in w.flights && w.flights[request].Starting? && session !in w.listed
    ensures OnePlace(Apply(w, StartSucceeds(request, session, tools)))
    ensures IdsGoUp(Apply(w, StartSucceeds(request, session, tools)))
  {
    var after := Apply(w, StartSucceeds(request, session, tools));
    forall a | HasSession(w, a) ensures SessionOf(w, a).id != session {
      assert EntrySound(w.table[a], w.listed);
    }
    forall r | InFlight(w, r) ensures w.flights[r].session.id != session {
      assert FlightSound(w.flights[r], w.listed);
    }
    forall i | 0 <= i < |w.sent| ensures w.sent[i].session != session {
      assert SentSound(w.sent[i], w.listed);
    }
    NewFlightKeepsIds(w, after, request, session);
  }

  /** A session that is new everywhere, in flight. */
  lemma NewFlightKeepsIds(w: World, after: World, request: RequestId, session: SessionId)
    requires OnePlace(w) && IdsGoUp(w) && after.table == w.table && after.sent == w.sent
    requires InFlight(after, request) && after.flights[request].session.id == session
    requires forall r | r != request && InFlight(after, r) :: InFlight(w, r) && after.flights[r] == w.flights[r]
    requires forall a | HasSession(w, a) :: SessionOf(w, a).id != session
    requires forall r | InFlight(w, r) :: w.flights[r].session.id != session
    requires forall i | 0 <= i < |w.sent| :: w.sent[i].session != session
    ensures OnePlace(after) && IdsGoUp(after)
  {
    assert forall a :: HasSession(after, a) <==> HasSession(w, a);
  }

  lemma ConnectKeepsIds(w: World, request: RequestId)
    requires OnePlace(w) && IdsGoUp(w) && InFlight(w, request)
    ensures OnePlace(Apply(w, MarkConnected(request))) && IdsGoUp(Apply(w, MarkConnected(request)))
  {
    var after, f := Apply(w, MarkConnected(request)), w.flights[request];
    assert HasSession(after, f.server) && SessionOf(after, f.server) == f.session;
    assert forall a | HasSession(after, a) && a != f.server :: HasSession(w, a) && SessionOf(after, a) == SessionOf(w, a);
    assert forall r | InFlight(after, r) :: r != request && InFlight(w, r) && after.flights[r] == w.flights[r];
  }

  lemma CallKeepsIds(w: World, event: Event)
    requires Sound(w) && OnePlace(w) && IdsGoUp(w) && event.Call?
    ensures OnePlace(Apply(w, event)) && IdsGoUp(Apply(w, event))
  {
    var after, server := Apply(w, event), event.server;
    var sent := CallTool(w.table, server, event.tool, event.approved, event.reply).2;
    if sent.None? {
      assert after == w.(sent := w.sent + []) == w;
    } else {
      var session := SessionOf(w, server);
      assert after.sent == w.sent + [sent.value] && after.flights == w.flights;
      assert sent.value.session == session.id && sent.value.requestId == session.nextId;
      assert forall a | HasSession(after, a) && a != server :: HasSession(w, a) && SessionOf(after, a) == SessionOf(w, a);
      assert HasSession(after, server) ==> SessionOf(after, server) == session.(nextId := session.nextId + 1);
      SendingKeepsIds(w, after, server);
    }
  }

  /** One request more to the session of `server`, under its next id. */
  lemma SendingKeepsIds(w: World, after: World, server: ServerId)
    requires OnePlace(w) && IdsGoUp(w) && HasSession(w, server) && after.flights == w.flights
    requires |after.sent| == |w.sent| + 1 && after.sent[..|w.sent|] == w.sent
    requires var last := after.sent[|w.sent|];
             last.session == SessionOf(w, server).id && last.requestId == SessionOf(w, server).nextId
    requires forall a | HasSession(after, a) && a != server :: HasSession(w, a) && SessionOf(after, a) == SessionOf(w, a)
    requires HasSession(after, server) ==>
               SessionOf(after, server) == SessionOf(w, server).(nextId := SessionOf(w, server).nextId + 1)
    ensures OnePlace(after) && IdsGoUp(after)
  {
    assert forall i | 0 <= i < |w.sent| :: after.sent[i] == w.sent[i];
    assert forall r :: InFlight(after, r) <==> InFlight(w, r);
  }

  lemma ApplyKeepsIds(w: World, event: Event)
    requires Sound(w) && OnePlace(w) && IdsGoUp(w)
    ensures OnePlace(Apply(w, event)) && IdsGoUp(Apply(w, event))
  {
    match event
    case Call(_, _, _, _) => CallKeepsIds(w, event);
    case StartSucceeds(request, session, tools) =>
      if request in w.flights && w.flights[request].Starting? && session !in w.listed {
        StartKeepsIds(w, request, session, tools);
      }
    case MarkConnected(request) =>
      if InFlight(w, request) {
        ConnectKeepsIds(w, request);
      }
    case _ =>
      LosingOnly(w, event);
      LosingKeepsIds(w, Apply(w, event));
  }

  lemma LosingOnly(w: World, event: Event)
    requires !event.Call? && !event.StartSucceeds? && !event.MarkConnected?
    ensures OnlyLoses(w, Apply(w, event))
  {
  }

  lemma {:induction false} RunKeepsIds(w: World, events: seq<Event>)
    requires Sound(w) && OnePlace(w) && IdsGoUp(w)
    ensures IdsGoUp(Run(w, events))
    decreases events
  {
    if events != [] {
      ApplyKeepsSound(w, events[0]);
      ApplyKeepsIds(w, events[0]);
      RunKeepsIds(Apply(w, events[0]), events[1..]);
    }
  }

  /** No session is ever sent two tool requests under one id, so a reply accepted for one was not meant for another. */
  lemma RequestIdsAreFresh(configs: map<ServerId, Config>, events: seq<Event>, i: nat, j: nat)
    requires i < j < |Run(Initial(configs), events).sent|
    ensures var sent := Run(Initial(configs), events).sent;
            sent[i].session == sent[j].session ==> sent[i].requestId < sent[j].requestId
  {
    RunKeepsIds(Initial(configs), events);
  }

  // ---------- disabling ----------

  /** A connect to the server is on its way past the check of the configuration. */
  ghost predicate ConnectUnderWay(w: World, server: ServerId) {
    exists request | request in w.flights :: ConnectOf(w.flights[request], server)
  }

  predicate ConnectOf(flight: Flight, server: ServerId) {
    (flight.Checked? || flight.Starting? || flight.Started?) && flight.server == server
  }

  predicate Disabled(w: World, server: ServerId) {
    server in w.configs && !w.configs[server].enabled
  }

  predicate Enables(event: Event, server: ServerId) {
    event.SetEnabled? && event.server == server && event.enabled
  }

  /** The server has no session and no connect that could bring one. */
  ghost predicate Quiet(w: World, server: ServerId) {
    Disabled(w, server) && !HasSession(w, server) && !ConnectUnderWay(w, server)
  }

  lemma NoNewConnect(w: World, event: Event, server: ServerId)
    requires Disabled(w, server) && !ConnectUnderWay(w, server) && !Enables(event, server)
    ensures Disabled(Apply(w, event), server) && !ConnectUnderWay(Apply(w, event), server)
  {
    var after := Apply(w, event);
    forall request | request in after.flights ensures !ConnectOf(after.flights[request], server) {
      if request in w.flights {
        assert !ConnectOf(w.flights[request], server);
      }
    }
  }

  lemma NoNewSession(w: World, event: Event, server: ServerId)
    requires !HasSession(w, server) && !ConnectUnderWay(w, server)
    ensures !HasSession(Apply(w, event), server)
  {
    if event.MarkConnected? && InFlight(w, event.request) {
      assert !ConnectOf(w.flights[event.request], server);
    }
  }

  lemma StaysQuiet(w: World, event: Event, server: ServerId)
    requires Quiet(w, server) && !Enables(event, server)
    ensures Quiet(Apply(w, event), server)
  {
    NoNewConnect(w, event, server);
    NoNewSession(w, event, server);
  }

  lemma {:induction false} RunStaysQuiet(w: World, events: seq<Event>, server: ServerId)
    requires Quiet(w, server) && forall i | 0 <= i < |events| :: !Enables(events[i], server)
    ensures Quiet(Run(w, events), server)
    decreases events
  {
    if events != [] {
      StaysQuiet(w, events[0], server);
      RunStaysQuiet(Apply(w, events[0]), events[1..], server);
    }
  }

  /** Some continuation that never enables the server gives it a live session again. */
  ghost predicate CanRevive(w: World, server: ServerId) {
    exists events: seq<Event> ::
      (forall i | 0 <= i < |events| :: !Enables(events[i], server)) && HasSession(Run(w, events), server)
  }

  lemma {:induction false} UpperBound(ids: set<nat>) returns (bound: nat)
    ensures forall id | id in ids :: id < bound
  {
    if ids == {} {
      bound := 0;
    } else {
      var id :| id in ids;
      var rest := UpperBound(ids - {id});
      bound := if id < rest then rest else id + 1;
      assert forall x | x in ids :: x == id || x in ids - {id};
    }
  }

  function StepsLeft(flight: Flight): nat {
    match flight case Checked(_) => 2 case Starting(_) => 1 case _ => 0
  }

  /** A connect past the check can always run to its end, which puts a live session in the table. */
  lemma {:induction false} ConnectFinishes(w: World, request: RequestId, server: ServerId) returns (events: seq<Event>)
    requires request in w.flights && ConnectOf(w.flights[request], server)
    ensures forall i | 0 <= i < |events| :: !Enables(events[i], server)
    ensures HasSession(Run(w, events), server)
    decreases StepsLeft(w.flights[request])
  {
    var unused := UpperBound(w.listed.Keys);
    var event := match w.flights[request]
      case Checked(_) => MarkConnecting(request)
      case Starting(_) => StartSucceeds(request, unused, [])
      case _ => MarkConnected(request);
    var next := Apply(w, event);
    var more: seq<Event> := [];
    if w.flights[request].Started? {
      assert Run(next, more) == next;
    } else {
      more := ConnectFinishes(next, request, server);
    }
    events := [event] + more;
    assert events[1..] == more;
  }

  /**
   Disabling a server does not by itself keep it off: once its entry is dropped, a live session can come back without
   enabling it exactly when a connect was already past the check.
   */
  lemma DisabledRevivesIff(w: World, server: ServerId)
    requires Disabled(w, server) && server !in w.table
    ensures CanRevive(w, server) <==> ConnectUnderWay(w, server)
  {
    if ConnectUnderWay(w, server) {
      var request :| request in w.flights && ConnectOf(w.flights[request], server);
      var events := ConnectFinishes(w, request, server);
    } else {
      forall events: seq<Event> | forall i | 0 <= i < |events| :: !Enables(events[i], server)
        ensures !HasSession(Run(w, events), server)
      {
        RunStaysQuiet(w, events, server);
      }
    }
  }

  // ---------- request ids, exactly ----------

  /** How many requests went to a session. */
  function SentTo(sent: seq<Sent>, session: SessionId): nat {
    if sent == [] then 0
    else SentTo(sent[..|sent| - 1], session) + if sent[|sent| - 1].session == session then 1 else 0
  }

  lemma SentToOneMore(sent: seq<Sent>, last: Sent, session: SessionId)
    ensures SentTo(sent + [last], session) == SentTo(sent, session) + if last.session == session then 1 else 0
  {
    assert (sent + [last])[..|sent|] == sent;
  }

  lemma {:induction false} NoneSentTo(sent: seq<Sent>, session: SessionId)
    requires forall i | 0 <= i < |sent| :: sent[i].session != session
    ensures SentTo(sent, session) == 0
  {
    if sent != [] {
      NoneSentTo(sent[..|sent| - 1], session);
    }
  }

  ghost predicate SessionsCounted(w: World) {
    forall a | HasSession(w, a) :: SessionOf(w, a).nextId == 3 + SentTo(w.sent, SessionOf(w, a).id)
  }

  ghost predicate SentCounted(sent: seq<Sent>) {
    forall i | 0 <= i < |sent| :: sent[i].requestId == 3 + SentTo(sent[..i], sent[i].session)
  }

  lemma SentCountedOneMore(sent: seq<Sent>, last: Sent)
    requires SentCounted(sent) && last.requestId == 3 + SentTo(sent, last.session)
    ensures SentCounted(sent + [last])
  {
    var more := sent + [last];
    forall i | 0 <= i < |more| ensures more[i].requestId == 3 + SentTo(more[..i], more[i].session) {
      assert more[..i] == sent[..i];
    }
    assert sent[..|sent|] == sent;
  }

  lemma CallCounts(w: World, event: Event)
    requires OnePlace(w) && SessionsCounted(w) && SentCounted(w.sent) && event.Call?
    ensures SessionsCounted(Apply(w, event)) && SentCounted(Apply(w, event).sent)
  {
    var after, server := Apply(w, event), event.server;
    var sent := CallTool(w.table, server, event.tool, event.approved, event.reply).2;
    if sent.None? {
      assert after == w.(sent := w.sent + []) == w;
    } else {
      assert HasSession(w, server) && sent.value.requestId == SessionOf(w, server).nextId;
      SentCountedOneMore(w.sent, sent.value);
      forall a | HasSession(after, a) ensures SessionOf(after, a).nextId == 3 + SentTo(after.sent, SessionOf(after, a).id) {
        SentToOneMore(w.sent, sent.value, SessionOf(after, a).id);
        if a != server {
          assert HasSession(w, a) && SessionOf(after, a) == SessionOf(w, a);
        }
      }
    }
  }

  lemma ConnectCounts(w: World, request: RequestId)
    requires Sound(w) && IdsGoUp(w) && SessionsCounted(w) && InFlight(w, request)
    ensures SessionsCounted(Apply(w, MarkConnected(request)))
  {
    var after, f := Apply(w, MarkConnected(request)), w.flights[request];
    assert FlightSound(f, w.listed);
    NoneSentTo(w.sent, f.session.id);
    assert forall a | HasSession(after, a) && a != f.server :: HasSession(w, a) && SessionOf(after, a) == SessionOf(w, a);
  }

  lemma ApplyCounts(w: World, event: Event)
    requires Sound(w) && OnePlace(w) && IdsGoUp(w) && SessionsCounted(w) && SentCounted(w.sent)
    ensures SessionsCounted(Apply(w, event)) && SentCounted(Apply(w, event).sent)
  {
    match event
    case Call(_, _, _, _) => CallCounts(w, event);
    case StartSucceeds(request, session, tools) =>
      assert forall a :: HasSession(Apply(w, event), a) <==> HasSession(w, a);
    case MarkConnected(request) =>
      if InFlight(w, request) {
        ConnectCounts(w, request);
      }
    case _ => LosingOnly(w, event);
  }

  lemma {:induction false} RunCounts(w: World, events: seq<Event>)
    requires Sound(w) && OnePlace(w) && IdsGoUp(w) && SessionsCounted(w) && SentCounted(w.sent)
    ensures SentCounted(Run(w, events).sent)
    decreases events
  {
    if events != [] {
      ApplyKeepsSound(w, events[0]);
      ApplyKeepsIds(w, events[0]);
      ApplyCounts(w, events[0]);
      RunCounts(Apply(w, events[0]), events[1..]);
    }
  }

  /** The tool requests of a session are numbered 3, 4, 5 and so on: 1 and 2 went into starting it. */
  lemma RequestIdsCount(configs: map<ServerId, Config>, events: seq<Event>, i: nat)
    requires i < |Run(Initial(configs), events).sent|
    ensures var sent := Run(Initial(configs), events).sent;
            sent[i].requestId == 3 + SentTo(sent[..i], sent[i].session)
  {
    RunCounts(Initial(configs), events);
  }

  // ---------- what one section does, spelled out ----------

  /** When a tool call is refused and why, when it is sent and what comes of it. */
  lemma CallIs(table: Table, server: ServerId, tool: string, approved: bool, reply: Reply)
    ensures var (outcome, after, sent) := CallTool(table, server, tool, approved, reply);
            var named := server != "" && tool != "";
            var ready := server in table && table[server].row.state == Connected && table[server].session.Some?;
            var listed := ready && Some(tool) in table[server].row.discoveredTools;
            && (outcome == MissingArguments <==> !named)
            && (outcome == NotApproved <==> named && !approved)
            && (outcome == NotConnected <==> named && approved && !ready)
            && (outcome == ToolNotDiscovered <==> named && approved && ready && !listed)
            && (sent.Some? <==> named && approved && listed)
            && (sent.None? ==> after == table)
  {
  }

  /** Nothing is sent without approval, and an unapproved call changes nothing. */
  lemma OnlyApprovedCalls(table: Table, server: ServerId, tool: string, approved: bool, reply: Reply)
    ensures var (outcome, after, sent) := CallTool(table, server, tool, approved, reply);
            && (sent.Some? ==> approved)
            && (!approved ==> after == table && outcome in {MissingArguments, NotApproved})
  {
  }

  /** What a request that was sent does: it uses the next id, and a reply that does not answer it costs the session. */
  lemma SentIs(table: Table, server: ServerId, tool: string, approved: bool, reply: Reply)
    requires CallTool(table, server, tool, approved, reply).2.Some?
    ensures var (outcome, after, sent) := CallTool(table, server, tool, approved, reply);
            var row, session := table[server].row, table[server].session.value;
            var answered := reply.Response? && reply.id == Some(session.nextId) && !reply.hasError && reply.hasResult;
            && outcome == (if answered then Executed else CallFailed)
            && sent.value == Sent(session.id, session.nextId, tool, answered)
            && after.Keys == table.Keys && (forall other | other in table && other != server :: after[other] == table[other])
            && after[server] == if answered then Entry(row, Some(Session(session.id, session.nextId + 1)))
                                else Entry(Row(Failed, row.discoveredTools), None)
  {
  }

  /** Reconciling touches exactly the entries whose process is gone. */
  lemma ReconcileIs(table: Table, gone: set<SessionId>)
    ensures Reconcile(table, gone).Keys == table.Keys
    ensures forall server | server in table ::
              Reconcile(table, gone)[server] == if table[server].session.Some? && table[server].session.value.id in gone
                                                then Entry(Row(Failed, []), None) else table[server]
  {
  }

  /** The rows that a connect shows: none of them but the connected one has a session or lists tools. */
  lemma RowsAre(table: Table, server: ServerId, session: Session, tools: seq<Tool>)
    ensures WithConnecting(table, server) == table[server := Entry(Row(Connecting, []), None)]
    ensures WithConnected(table, server, session, tools) == table[server := Entry(Row(Connected, tools), Some(session))]
    ensures WithFailed(table, server) == table[server := Entry(Row(Failed, []), None)]
  {
  }

  /** A connect starts a process only for a server that is configured, enabled and run over stdio. */
  lemma BeginIs(w: World, request: RequestId, server: ServerId, gone: set<SessionId>)
    requires request !in w.flights
    ensures var after := Apply(w, BeginConnect(request, server, gone));
            var enabled := server in w.configs && w.configs[server].enabled;
            && (request in after.flights <==> enabled)
            && (enabled && w.configs[server].transport == Stdio ==> after.flights[request] == Checked(server))
            && (enabled && w.configs[server].transport != Stdio ==> after.flights[request] == Failing(server))
            && after.table == Reconcile(w.table, gone) && after.configs == w.configs
  {
  }

  /** A connect that went past the check shows its row first, and only then is the process started. */
  lemma MarkConnectingIs(w: World, request: RequestId)
    ensures var after, due := Apply(w, MarkConnecting(request)), request in w.flights && w.flights[request].Checked?;
            && (!due ==> after == w)
            && (due ==> after == w.(table := w.table[w.flights[request].server := Entry(Row(Connecting, []), None)],
                                    flights := w.flights[request := Starting(w.flights[request].server)]))
  {
  }

  /** A start gives a session of its own, two of whose request ids are used up, or a row still to be marked as failed. */
  lemma StartIs(w: World, request: RequestId, session: SessionId, tools: seq<Tool>)
    ensures var due := request in w.flights && w.flights[request].Starting?;
            var started, failed := Apply(w, StartSucceeds(request, session, tools)), Apply(w, StartFails(request));
            && (!due || session in w.listed ==> started == w)
            && (due && session !in w.listed ==>
                  started == w.(listed := w.listed[session := tools],
                                flights := w.flights[request := Started(w.flights[request].server, Session(session, 3), tools)]))
            && (!due ==> failed == w)
            && (due ==> failed == w.(flights := w.flights[request := Failing(w.flights[request].server)]))
  {
  }

  /** A connect ends with the row of a started process or of a failure; nothing else ends it. */
  lemma ConnectEndsAs(w: World, request: RequestId)
    ensures var after, started := Apply(w, MarkConnected(request)), request in w.flights && w.flights[request].Started?;
            && (!started ==> after == w)
            && (started ==>
                  var f := w.flights[request];
                  after == w.(table := w.table[f.server := Entry(Row(Connected, f.tools), Some(f.session))],
                              flights := w.flights - {request}))
    ensures var after, failing := Apply(w, MarkFailed(request)), request in w.flights && w.flights[request].Failing?;
            && (!failing ==> after == w)
            && (failing ==> after == w.(table := w.table[w.flights[request].server := Entry(Row(Failed, []), None)],
                                        flights := w.flights - {request}))
  {
  }

  /** Switching a configured server changes its flag alone; switching it off leads to the drop of its entry, later. */
  lemma SwitchIs(w: World, request: RequestId, server: ServerId, enabled: bool)
    ensures var after, due := Apply(w, SetEnabled(request, server, enabled)), request !in w.flights && server in w.configs;
            && (!due ==> after == w)
            && (due ==> after == w.(configs := w.configs[server := Config(enabled, w.configs[server].transport)],
                                    flights := if enabled then w.flights else w.flights[request := Removing(server)]))
    ensures var after, due := Apply(w, DropEntry(request)), request in w.flights && w.flights[request].Removing?;
            && (!due ==> after == w)
            && (due ==> after == w.(table := w.table - {w.flights[request].server}, flights := w.flights - {request}))
    ensures forall other :: Enables(SetEnabled(request, server, enabled), other) <==> enabled && other == server
  {
  }

  lemma {:induction false} RunSendsApproved(w: World, events: seq<Event>, i: nat) returns (j: nat)
    requires |w.sent| <= i < |Run(w, events).sent|
    ensures j < |events| && events[j].Call? && events[j].approved && events[j].tool == Run(w, events).sent[i].tool
    decreases events
  {
    var next := Apply(w, events[0]);
    assert |next.sent| > |w.sent| ==> events[0].Call?;
    if i < |next.sent| {
      SentStays(next, events[1..], i);
      OnlyApprovedCalls(w.table, events[0].server, events[0].tool, events[0].approved, events[0].reply);
      j := 0;
    } else {
      j := RunSendsApproved(next, events[1..], i);
      j := j + 1;
    }
  }

  lemma SentOnlyGrows(w: World, event: Event)
    ensures w.sent <= Apply(w, event).sent
  {
  }

  lemma {:induction false} SentStays(w: World, events: seq<Event>, i: nat)
    requires i < |w.sent|
    ensures i < |Run(w, events).sent| && Run(w, events).sent[i] == w.sent[i]
    decreases events
  {
    if events != [] {
      SentOnlyGrows(w, events[0]);
      SentStays(Apply(w, events[0]), events[1..], i);
    }
  }

  /** In every interleaving each tool request came from a call that was approved, for that tool. */
  lemma SentWasApproved(configs: map<ServerId, Config>, events: seq<Event>, i: nat) returns (j: nat)
    requires i < |Run(Initial(configs), events).sent|
    ensures j < |events| && events[j].Call? && events[j].approved
    ensures events[j].tool == Run(Initial(configs), events).sent[i].tool
  {
    j := RunSendsApproved(Initial(configs), events, i);
  }
}
