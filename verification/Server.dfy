/** Frame processing: many connections share one verifier; each frame is verified, judged by policy, then dispatched. */
module Server {
  import opened Results
  import opened CanonicalJson
  import opened Envelope

  const SYSTEM_METHODS: set<string> := {
    "system.health", "system.ready", "system.status", "system.shutdown", "runtime.status",
    "ledger.verify", "ledger.repair_segmented", "ledger.record_mutation", "ledger.reconcile_mismatches",
    "session.get", "session.login", "session.logout", "session.compact",
    "projects.list", "projects.create", "sessions.list", "sessions.create", "sessions.detail", "sessions.set_active",
    "sessions.rename", "sessions.hierarchy", "ui.contract.snapshot", "ui.inspector.target",
    "settings.get", "settings.set", "permissions.get", "permissions.set_profile", "permissions.grant_root",
    "permissions.revoke_root", "permissions.grants.list", "permissions.grants.create", "permissions.grants.revoke",
    "permissions.grants.check", "tool.check_gate", "nightly.tree", "nightly.dry_run", "nightly.run",
    "import.list", "import.pack", "export.brain", "brain.backup", "brain.purge"
  }
  const DIAGNOSTICS_METHODS: set<string> := {
    "monitoring.snapshot", "diagnostics.trust", "diagnostics.recall", "diagnostics.capability", "paper.registry",
    "reasoning.artifacts", "reasoning.bridge.list", "reasoning.bridge.integrity", "reasoning.causal_chain",
    "reasoning.tool_quality"
  }
  const SECURITY_METHODS: set<string> := {
    "security.saber_dry_run", "security.canary_timeline", "security.audit_log"
  }
  const SAVING_METHODS: set<string> := {
    "memory.save", "reasoning.run", "reasoning.bridge.backfill_imports", "reasoning.tool_event.record"
  }
  const GATE_READS: set<string> := {
    "gates.plan.current", "gates.runtime.snapshot", "gates.decisions.list", "gates.evidence.list", "gates.argument.inspect"
  }
  const GATE_WRITES: set<string> := {
    "gates.prompt.create", "gates.plan.propose", "gates.plan.approve", "gates.tasks.derive", "gates.tasks.preflight",
    "gates.amendment.request", "gates.amendment.approve", "gates.runtime.verify", "gates.evidence.submit",
    "gates.tasks.complete", "gates.argument.build", "gates.argument.accept"
  }

  /** The scope a method demands; nothing for methods the server does not know. */
  function RequiredScope(rpcMethod: string): Option<string> {
    if rpcMethod in SYSTEM_METHODS then Some("system")
    else if rpcMethod in SAVING_METHODS then Some("memory:save")
    else if rpcMethod == "memory.recall" || rpcMethod == "memory.recall.smart" then Some("memory:recall")
    else if rpcMethod == "memory.open" then Some("memory:open")
    else if rpcMethod == "memory.answer" then Some("memory:answer")
    else if rpcMethod == "events.list" then Some("events:read")
    else if rpcMethod == "events.security" then Some("events:write")
    else if rpcMethod in DIAGNOSTICS_METHODS then Some("diagnostics:read")
    else if rpcMethod in SECURITY_METHODS then Some("security:read")
    else if rpcMethod in GATE_READS then Some("gates:read")
    else if rpcMethod in GATE_WRITES then Some("gates:write")
    else None
  }

  // ---------- which scope which method demands ----------

  lemma DemandsSystem(rpcMethod: string)
    ensures RequiredScope(rpcMethod) == Some("system") <==>
            rpcMethod in {"system.health", "system.ready", "system.status", "system.shutdown", "runtime.status",
                          "ledger.verify", "ledger.repair_segmented", "ledger.record_mutation",
                          "ledger.reconcile_mismatches", "session.get", "session.login", "session.logout",
                          "session.compact", "projects.list", "projects.create", "sessions.list", "sessions.create",
                          "sessions.detail", "sessions.set_active", "sessions.rename", "sessions.hierarchy",
                          "ui.contract.snapshot", "ui.inspector.target", "settings.get", "settings.set",
                          "permissions.get", "permissions.set_profile", "permissions.grant_root",
                          "permissions.revoke_root", "permissions.grants.list", "permissions.grants.create",
                          "permissions.grants.revoke", "permissions.grants.check", "tool.check_gate", "nightly.tree",
                          "nightly.dry_run", "nightly.run", "import.list", "import.pack", "export.brain",
                          "brain.backup", "brain.purge"}
  {
  }

  lemma DemandsSave(rpcMethod: string)
    ensures RequiredScope(rpcMethod) == Some("memory:save") <==>
            rpcMethod in {"memory.save", "reasoning.run", "reasoning.bridge.backfill_imports",
                          "reasoning.tool_event.record"}
  {
  }

  lemma DemandsRecall(rpcMethod: string)
    ensures RequiredScope(rpcMethod) == Some("memory:recall") <==>
            rpcMethod in {"memory.recall", "memory.recall.smart"}
  {
  }

  lemma DemandsOpen(rpcMethod: string)
    ensures RequiredScope(rpcMethod) == Some("memory:open") <==>
            rpcMethod in {"memory.open"}
  {
  }

  lemma DemandsAnswer(rpcMethod: string)
    ensures RequiredScope(rpcMethod) == Some("memory:answer") <==>
            rpcMethod in {"memory.answer"}
  {
  }

  lemma DemandsEventsRead(rpcMethod: string)
    ensures RequiredScope(rpcMethod) == Some("events:read") <==>
            rpcMethod in {"events.list"}
  {
  }

  lemma DemandsEventsWrite(rpcMethod: string)
    ensures RequiredScope(rpcMethod) == Some("events:write") <==>
            rpcMethod in {"events.security"}
  {
  }

  lemma DiagnosticsApart(rpcMethod: string)
    requires rpcMethod in DIAGNOSTICS_METHODS
    ensures rpcMethod !in SYSTEM_METHODS && rpcMethod !in SAVING_METHODS
    ensures RequiredScope(rpcMethod) == Some("diagnostics:read")
  {
  }

  lemma DemandsDiagnostics(rpcMethod: string)
    ensures RequiredScope(rpcMethod) == Some("diagnostics:read") <==>
            rpcMethod in {"monitoring.snapshot", "diagnostics.trust", "diagnostics.recall", "diagnostics.capability",
                          "paper.registry", "reasoning.artifacts", "reasoning.bridge.list",
                          "reasoning.bridge.integrity", "reasoning.causal_chain", "reasoning.tool_quality"}
  {
    if rpcMethod in DIAGNOSTICS_METHODS {
      DiagnosticsApart(rpcMethod);
    }
  }

  lemma DemandsSecurity(rpcMethod: string)
    ensures RequiredScope(rpcMethod) == Some("security:read") <==>
            rpcMethod in {"security.saber_dry_run", "security.canary_timeline", "security.audit_log"}
  {
  }

  /** No method of another family starts like those of the gates. */
  lemma OthersStartElse(rpcMethod: string)
    requires rpcMethod != [] && rpcMethod[0] == 'g'
    ensures rpcMethod !in SYSTEM_METHODS && rpcMethod !in SAVING_METHODS
    ensures rpcMethod !in DIAGNOSTICS_METHODS && rpcMethod !in SECURITY_METHODS
    ensures RequiredScope(rpcMethod) ==
            if rpcMethod in GATE_READS then Some("gates:read") else if rpcMethod in GATE_WRITES then Some("gates:write") else None
  {
  }

  lemma DemandsGatesRead(rpcMethod: string)
    ensures RequiredScope(rpcMethod) == Some("gates:read") <==>
            rpcMethod in {"gates.plan.current", "gates.runtime.snapshot", "gates.decisions.list",
                          "gates.evidence.list", "gates.argument.inspect"}
  {
    if rpcMethod in GATE_READS || rpcMethod in GATE_WRITES {
      OthersStartElse(rpcMethod);
    }
  }

  lemma DemandsGatesWrite(rpcMethod: string)
    ensures RequiredScope(rpcMethod) == Some("gates:write") <==>
            rpcMethod in {"gates.prompt.create", "gates.plan.propose", "gates.plan.approve", "gates.tasks.derive",
                          "gates.tasks.preflight", "gates.amendment.request", "gates.amendment.approve",
                          "gates.runtime.verify", "gates.evidence.submit", "gates.tasks.complete",
                          "gates.argument.build", "gates.argument.accept"}
  {
    if rpcMethod in GATE_READS || rpcMethod in GATE_WRITES {
      OthersStartElse(rpcMethod);
    }
  }

  /** There are no scopes but these eleven, and every other method is unknown. */
  lemma DemandsNothingElse(rpcMethod: string)
    ensures RequiredScope(rpcMethod).Some? ==>
            RequiredScope(rpcMethod).value in {
              "system", "memory:save", "memory:recall", "memory:open", "memory:answer", "events:read", "events:write",
              "diagnostics:read", "security:read", "gates:read", "gates:write"}
  {
  }

  // ---------- the shared state and its steps ----------

  type ConnectionId = nat

  /** Where a connection stands with its current frame. */
  datatype Phase = Idle | Verified(request: Request) | Cleared(request: Request)

  datatype ServerState = ServerState(seen: set<string>, phases: map<ConnectionId, Phase>, dispatched: seq<Request>)

  /** The security policy: a judgement of method and parameters. */
  type Policy = (string, Json) -> bool

  datatype Event =
    | Verify(connection: ConnectionId, request: Request, now: int)
    | Judge(connection: ConnectionId)
    | Dispatch(connection: ConnectionId)

  const INITIAL: ServerState := ServerState({}, map[], [])

  function PhaseOf(state: ServerState, connection: ConnectionId): Phase {
    if connection in state.phases then state.phases[connection] else Idle
  }

  function SetPhase(state: ServerState, connection: ConnectionId, phase: Phase): ServerState {
    state.(phases := state.phases[connection := phase])
  }

  /** The verifier call that a frame leads to, when its method is known and it carries an envelope. */
  function CallOf(request: Request, now: int): Option<Call> {
    if request.hom.None? || RequiredScope(request.rpcMethod).None? then None
    else Some(Call(request.params, request.hom.value, RequiredScope(request.rpcMethod), now))
  }

  /** One step of one connection; a step that is not due leaves the state alone. */
  ghost function Apply(settings: Settings, policy: Policy, state: ServerState, event: Event): ServerState {
    match event
    case Verify(connection, request, now) =>
      if !PhaseOf(state, connection).Idle? then state
      else
        (match CallOf(request, now)
         case None => state
         case Some(call) =>
           var (verdict, seen) := Step(settings, state.seen, call, true);
           var phase := if verdict.Ok? then Verified(request) else Idle;
           SetPhase(state, connection, phase).(seen := seen))
    case Judge(connection) =>
      (match PhaseOf(state, connection)
       case Verified(request) =>
         SetPhase(state, connection, if policy(request.rpcMethod, request.params) then Cleared(request) else Idle)
       case _ => state)
    case Dispatch(connection) =>
      (match PhaseOf(state, connection)
       case Cleared(request) => SetPhase(state, connection, Idle).(dispatched := state.dispatched + [request])
       case _ => state)
  }

  /** What verifying leaves: a request past all checks is held for judgement, and the cache has forgotten what expired. */
  lemma VerifyStepIs(settings: Settings, policy: Policy, state: ServerState, connection: ConnectionId, request: Request, now: int)
    requires PhaseOf(state, connection) == Idle && CallOf(request, now).Some?
    ensures var call, after := CallOf(request, now).value, Apply(settings, policy, state, Verify(connection, request, now));
            var kept := set key | key in state.seen && KeyTs(key).Some? && now - KeyTs(key).value <= settings.ttl;
            var unseen := ReachesCache(settings, call) && KeyOf(call.hom) !in kept;
            && after.dispatched == state.dispatched
            && after.seen == (if !ReachesCache(settings, call) then state.seen else kept + {KeyOf(call.hom)})
            && PhaseOf(after, connection) == (if unseen && Checks(settings, call).Ok? then Verified(request) else Idle)
            && forall other :: other != connection ==> PhaseOf(after, other) == PhaseOf(state, other)
  {
  }

  /** Only a verified request is judged, and only a cleared one is dispatched, behind all others. */
  lemma JudgedThenDispatched(settings: Settings, policy: Policy, state: ServerState, connection: ConnectionId)
    ensures var phase, after := PhaseOf(state, connection), Apply(settings, policy, state, Judge(connection));
            && (!phase.Verified? ==> after == state)
            && (phase.Verified? ==>
                  && after.seen == state.seen && after.dispatched == state.dispatched
                  && PhaseOf(after, connection) == if policy(phase.request.rpcMethod, phase.request.params)
                                                   then Cleared(phase.request) else Idle)
    ensures var phase, after := PhaseOf(state, connection), Apply(settings, policy, state, Dispatch(connection));
            && (!phase.Cleared? ==> after == state)
            && (phase.Cleared? ==>
                  && after.seen == state.seen && after.dispatched == state.dispatched + [phase.request]
                  && PhaseOf(after, connection) == Idle)
  {
  }

  ghost function Run(settings: Settings, policy: Policy, state: ServerState, events: seq<Event>): ServerState
    decreases events
  {
    if events == [] then state
    else Run(settings, policy, Apply(settings, policy, state, events[0]), events[1..])
  }

  datatype Reply = ParseError | MethodNotFound | Rejected(e: EnvelopeError) | PolicyRejected | Dispatched

  /** One frame taken through all its steps by a single connection; `frame` is nothing when it does not parse. */
  method ProcessFrame(verifier: EnvelopeVerifier, policy: Policy, frame: Option<Request>, now: int) returns (reply: Reply)
    requires frame.Some? ==> WellFormed(frame.value.params)
    modifies verifier
    ensures frame.None? ==> reply == ParseError && verifier.seenNonces == old(verifier.seenNonces)
    ensures frame.Some? ==>
      var request := frame.value;
      var before := ServerState(old(verifier.seenNonces), map[], []);
      var after := Run(verifier.settings, policy, before, [Verify(0, request, now), Judge(0), Dispatch(0)]);
      && verifier.seenNonces == after.seen && (reply.Dispatched? <==> after.dispatched == [request])
      && reply == match CallOf(request, now)
                  case None => if RequiredScope(request.rpcMethod).None? then MethodNotFound else Rejected(Malformed)
                  case Some(call) =>
                    match Step(verifier.settings, old(verifier.seenNonces), call, true).0
                    case Err(e) => Rejected(e)
                    case Ok(_) => if policy(request.rpcMethod, request.params) then Dispatched else PolicyRejected
  {
    if frame.None? {
      return ParseError;
    }
    var request := frame.value;
    ghost var before := ServerState(verifier.seenNonces, map[], []);
    ThreeSteps(verifier.settings, policy, before, Verify(0, request, now), Judge(0), Dispatch(0));
    var required := RequiredScope(request.rpcMethod);
    if required.None? {
      return MethodNotFound;
    }
    var verdict := verifier.VerifyRequest(request, required, now);
    if verdict.Err? {
      return Rejected(verdict.error);
    }
    if !policy(request.rpcMethod, request.params) {
      return PolicyRejected;
    }
    return Dispatched;
  }

  lemma ThreeSteps(settings: Settings, policy: Policy, state: ServerState, a: Event, b: Event, c: Event)
    ensures Run(settings, policy, state, [a, b, c])
            == Apply(settings, policy, Apply(settings, policy, Apply(settings, policy, state, a), b), c)
  {
    var state1 := Apply(settings, policy, state, a);
    var state2 := Apply(settings, policy, state1, b);
    assert [a, b, c][1..] == [b, c] && [b, c][1..] == [c] && [c][1..] == [];
    assert Run(settings, policy, state2, [c]) == Apply(settings, policy, state2, c);
    assert Run(settings, policy, state1, [b, c]) == Run(settings, policy, state2, [c]);
  }

  // ---------- every interleaving ----------

  /** The request passed the verifier: a registered client holds its scopes and one of them is the required one. */
  predicate Authorized(settings: Settings, request: Request) {
    && request.hom.Some? && Registered(settings, request.hom.value)
    && ScopesGranted(settings.clients[request.hom.value.clientId], request.hom.value.scope)
    && RequiredScope(request.rpcMethod).Some?
    && RequiredScope(request.rpcMethod).value in request.hom.value.scope
  }

  predicate Permitted(settings: Settings, policy: Policy, request: Request) {
    Authorized(settings, request) && policy(request.rpcMethod, request.params)
  }

  function KeyOfRequest(request: Request): string
    requires request.hom.Some?
  {
    KeyOf(request.hom.value)
  }

  /** What holds of in-flight and dispatched requests, for a cache `whole` that never forgets. */
  ghost predicate Inv(settings: Settings, policy: Policy, state: ServerState, whole: set<string>) {
    && (forall c | c in state.phases && !state.phases[c].Idle? ::
          Authorized(settings, state.phases[c].request) && KeyOfRequest(state.phases[c].request) in whole)
    && (forall c | c in state.phases && state.phases[c].Cleared? :: Permitted(settings, policy, state.phases[c].request))
    && (forall i | 0 <= i < |state.dispatched| ::
          Permitted(settings, policy, state.dispatched[i]) && KeyOfRequest(state.dispatched[i]) in whole)
    && DistinctInFlight(state)
    && DistinctFromDispatched(state)
    && DistinctDispatched(state)
  }

  ghost predicate DistinctInFlight(state: ServerState) {
    forall c, d | c in state.phases && d in state.phases && c != d
      && !state.phases[c].Idle? && !state.phases[d].Idle?
      && state.phases[c].request.hom.Some? && state.phases[d].request.hom.Some? ::
      KeyOfRequest(state.phases[c].request) != KeyOfRequest(state.phases[d].request)
  }

  ghost predicate DistinctFromDispatched(state: ServerState) {
    forall c, i | c in state.phases && 0 <= i < |state.dispatched|
      && !state.phases[c].Idle? && state.phases[c].request.hom.Some? && state.dispatched[i].hom.Some? ::
      KeyOfRequest(state.phases[c].request) != KeyOfRequest(state.dispatched[i])
  }

  ghost predicate DistinctDispatched(state: ServerState) {
    forall i, j | 0 <= i < j < |state.dispatched| && state.dispatched[i].hom.Some? && state.dispatched[j].hom.Some? ::
      KeyOfRequest(state.dispatched[i]) != KeyOfRequest(state.dispatched[j])
  }

  predicate TypedEvent(event: Event) {
    event.Verify? && CallOf(event.request, event.now).Some? ==> Typed(CallOf(event.request, event.now).value)
  }

  predicate ReadsClock(settings: Settings, event: Event) {
    event.Verify? && CallOf(event.request, event.now).Some? && ReachesCache(settings, CallOf(event.request, event.now).value)
  }

  /** The clock hypothesis of the verifier, over the frames of all connections together. */
  ghost predicate SteadyEvents(settings: Settings, events: seq<Event>) {
    forall i, j | 0 <= i < j < |events| && ReadsClock(settings, events[i]) && ReadsClock(settings, events[j]) ::
      events[j].now >= events[i].now - (settings.ttl - settings.skew)
  }

  /** The never-forgetting cache after an event. */
  ghost function Whole(settings: Settings, state: ServerState, whole: set<string>, event: Event): set<string> {
    if event.Verify? && PhaseOf(state, event.connection).Idle? && CallOf(event.request, event.now).Some? then
      Step(settings, whole, CallOf(event.request, event.now).value, false).1
    else whole
  }

  /** Accepting a call means its key was new to the cache that never forgets, and that its scopes hold. */
  lemma AcceptedIsNew(settings: Settings, whole: set<string>, request: Request, now: int)
    requires CallOf(request, now).Some?
    ensures whole <= Step(settings, whole, CallOf(request, now).value, false).1
    ensures Step(settings, whole, CallOf(request, now).value, false).0.Ok? ==>
              && Authorized(settings, request)
              && KeyOfRequest(request) !in whole
              && KeyOfRequest(request) in Step(settings, whole, CallOf(request, now).value, false).1
  {
  }

  lemma GrowingKeepsInv(settings: Settings, policy: Policy, state: ServerState, whole: set<string>, more: set<string>)
    requires Inv(settings, policy, state, whole) && whole <= more
    ensures forall seen :: Inv(settings, policy, state.(seen := seen), more)
  {
  }

  lemma EnterKeepsInv(settings: Settings, policy: Policy, state: ServerState, whole: set<string>, more: set<string>,
                      connection: ConnectionId, request: Request)
    requires Inv(settings, policy, state, whole) && whole <= more
    requires Authorized(settings, request) && KeyOfRequest(request) !in whole && KeyOfRequest(request) in more
    ensures Inv(settings, policy, SetPhase(state, connection, Verified(request)), more)
  {
  }

  lemma LeaveKeepsInv(settings: Settings, policy: Policy, state: ServerState, whole: set<string>, connection: ConnectionId)
    requires Inv(settings, policy, state, whole)
    ensures Inv(settings, policy, SetPhase(state, connection, Idle), whole)
  {
  }

  lemma ClearKeepsInv(settings: Settings, policy: Policy, state: ServerState, whole: set<string>, connection: ConnectionId,
                      request: Request)
    requires Inv(settings, policy, state, whole)
    requires PhaseOf(state, connection) == Verified(request) && policy(request.rpcMethod, request.params)
    ensures Inv(settings, policy, SetPhase(state, connection, Cleared(request)), whole)
  {
  }

  lemma DispatchKeepsInv(settings: Settings, policy: Policy, state: ServerState, whole: set<string>,
                         connection: ConnectionId, request: Request)
    requires Inv(settings, policy, state, whole) && PhaseOf(state, connection) == Cleared(request)
    ensures Inv(settings, policy,
                SetPhase(state, connection, Idle).(dispatched := state.dispatched + [request]), whole)
  {
    var left := SetPhase(state, connection, Idle);
    LeaveKeepsInv(settings, policy, state, whole, connection);
    assert state.phases[connection] == Cleared(request);
    forall c | c in left.phases && !left.phases[c].Idle?
      ensures KeyOfRequest(left.phases[c].request) != KeyOfRequest(request)
    {
      assert c != connection && state.phases[c] == left.phases[c];
    }
    forall i | 0 <= i < |left.dispatched| ensures KeyOfRequest(left.dispatched[i]) != KeyOfRequest(request) {
    }
    AppendKeepsInv(settings, policy, left, whole, request);
  }

  lemma AppendKeepsInv(settings: Settings, policy: Policy, state: ServerState, whole: set<string>, request: Request)
    requires Inv(settings, policy, state, whole)
    requires Permitted(settings, policy, request) && KeyOfRequest(request) in whole
    requires forall c | c in state.phases && !state.phases[c].Idle? ::
               KeyOfRequest(state.phases[c].request) != KeyOfRequest(request)
    requires forall i | 0 <= i < |state.dispatched| :: KeyOfRequest(state.dispatched[i]) != KeyOfRequest(request)
    ensures Inv(settings, policy, state.(dispatched := state.dispatched + [request]), whole)
  {
  }

  lemma VerifyKeepsInv(settings: Settings, policy: Policy, state: ServerState, whole: set<string>, past: set<int>,
                       connection: ConnectionId, request: Request, now: int)
    requires settings.skew <= settings.ttl && CallOf(request, now).Some? && Typed(CallOf(request, now).value)
    requires Inv(settings, policy, state, whole) && Forgotten(settings, state.seen, whole, past)
    requires ReachesCache(settings, CallOf(request, now).value) ==> NotBefore(settings, past, now)
    requires PhaseOf(state, connection).Idle?
    ensures Inv(settings, policy, Apply(settings, policy, state, Verify(connection, request, now)),
                Step(settings, whole, CallOf(request, now).value, false).1)
  {
    var call := CallOf(request, now).value;
    var more := Step(settings, whole, call, false).1;
    StepAgrees(settings, state.seen, whole, past, call);
    AcceptedIsNew(settings, whole, request, now);
    var (verdict, seen) := Step(settings, state.seen, call, true);
    if verdict.Ok? {
      EnterKeepsInv(settings, policy, state, whole, more, connection, request);
      GrowingKeepsInv(settings, policy, SetPhase(state, connection, Verified(request)), more, more);
    } else {
      LeaveKeepsInv(settings, policy, state, whole, connection);
      GrowingKeepsInv(settings, policy, SetPhase(state, connection, Idle), whole, more);
    }
  }

  lemma {:induction false} ApplyKeepsInv(settings: Settings, policy: Policy, state: ServerState, whole: set<string>,
                                         past: set<int>, event: Event)
    requires settings.skew <= settings.ttl && TypedEvent(event)
    requires Inv(settings, policy, state, whole) && Forgotten(settings, state.seen, whole, past)
    requires ReadsClock(settings, event) ==> NotBefore(settings, past, event.now)
    ensures Inv(settings, policy, Apply(settings, policy, state, event), Whole(settings, state, whole, event))
  {
    match event
    case Verify(connection, request, now) =>
      if PhaseOf(state, connection).Idle? && CallOf(request, now).Some? {
        VerifyKeepsInv(settings, policy, state, whole, past, connection, request, now);
      }
    case Judge(connection) =>
      if PhaseOf(state, connection).Verified? {
        var request := PhaseOf(state, connection).request;
        if policy(request.rpcMethod, request.params) {
          ClearKeepsInv(settings, policy, state, whole, connection, request);
        } else {
          LeaveKeepsInv(settings, policy, state, whole, connection);
        }
      }
    case Dispatch(connection) =>
      if PhaseOf(state, connection).Cleared? {
        DispatchKeepsInv(settings, policy, state, whole, connection, PhaseOf(state, connection).request);
      }
  }

  lemma ApplyKeepsForgotten(settings: Settings, policy: Policy, state: ServerState, whole: set<string>, past: set<int>,
                            event: Event)
    requires settings.skew <= settings.ttl && TypedEvent(event)
    requires Forgotten(settings, state.seen, whole, past)
    requires ReadsClock(settings, event) ==> NotBefore(settings, past, event.now)
    ensures Forgotten(settings, Apply(settings, policy, state, event).seen, Whole(settings, state, whole, event),
                      PastAfter(settings, past, event))
  {
    if event.Verify? && PhaseOf(state, event.connection).Idle? && CallOf(event.request, event.now).Some? {
      StepAgrees(settings, state.seen, whole, past, CallOf(event.request, event.now).value);
    } else {
      assert past <= PastAfter(settings, past, event);
    }
  }

  function PastAfter(settings: Settings, past: set<int>, event: Event): set<int> {
    if ReadsClock(settings, event) then past + {event.now} else past
  }

  lemma {:induction false} RunKeepsInv(settings: Settings, policy: Policy, state: ServerState, whole: set<string>,
                                       past: set<int>, events: seq<Event>) returns (final: set<string>)
    requires settings.skew <= settings.ttl && forall i | 0 <= i < |events| :: TypedEvent(events[i])
    requires SteadyEvents(settings, events)
    requires Inv(settings, policy, state, whole) && Forgotten(settings, state.seen, whole, past)
    requires forall i | 0 <= i < |events| && ReadsClock(settings, events[i]) :: NotBefore(settings, past, events[i].now)
    ensures Inv(settings, policy, Run(settings, policy, state, events), final)
    decreases events
  {
    if events == [] {
      final := whole;
    } else {
      ApplyKeepsInv(settings, policy, state, whole, past, events[0]);
      ApplyKeepsForgotten(settings, policy, state, whole, past, events[0]);
      var past' := PastAfter(settings, past, events[0]);
      final := RunKeepsInv(settings, policy, Apply(settings, policy, state, events[0]),
                           Whole(settings, state, whole, events[0]), past', events[1..]);
    }
  }

  /**
   Under every interleaving of the connections, a dispatched request carried a scope that covers its method and was
   granted to its client, the policy allowed it, and no client, nonce and time stamp is dispatched twice.
   */
  lemma DispatchIsSafe(settings: Settings, policy: Policy, events: seq<Event>)
    requires settings.skew <= settings.ttl && forall i | 0 <= i < |events| :: TypedEvent(events[i])
    requires SteadyEvents(settings, events)
    ensures var dispatched := Run(settings, policy, INITIAL, events).dispatched;
            && (forall i | 0 <= i < |dispatched| :: Permitted(settings, policy, dispatched[i]))
            && (forall i, j | 0 <= i < j < |dispatched| :: KeyOfRequest(dispatched[i]) != KeyOfRequest(dispatched[j]))
  {
    var final := RunKeepsInv(settings, policy, INITIAL, {}, {}, events);
  }

  /**
   What a dispatched request held, spelled out: it came from a registered client under its registered key, the scope its
   method demands was asked for and is among those of the client, and the policy allowed it.
   */
  lemma DispatchedHeld(settings: Settings, policy: Policy, events: seq<Event>, i: nat)
    requires settings.skew <= settings.ttl && forall k | 0 <= k < |events| :: TypedEvent(events[k])
    requires SteadyEvents(settings, events) && i < |Run(settings, policy, INITIAL, events).dispatched|
    ensures var request := Run(settings, policy, INITIAL, events).dispatched[i];
            && request.hom.Some? && RequiredScope(request.rpcMethod).Some?
            && var hom, scope := request.hom.value, RequiredScope(request.rpcMethod).value;
            && hom.clientId in settings.clients && settings.clients[hom.clientId].clientPub == hom.clientPub
            && scope in hom.scope && scope in settings.clients[hom.clientId].scopes
            && policy(request.rpcMethod, request.params)
  {
    DispatchIsSafe(settings, policy, events);
    var request := Run(settings, policy, INITIAL, events).dispatched[i];
    assert Permitted(settings, policy, request);
    var scope := RequiredScope(request.rpcMethod).value;
    var k :| 0 <= k < |request.hom.value.scope| && request.hom.value.scope[k] == scope;
  }

  /** So nothing writes to the gates for a client that was not granted it. */
  lemma GateWritesHeld(settings: Settings, policy: Policy, events: seq<Event>, i: nat)
    requires settings.skew <= settings.ttl && forall k | 0 <= k < |events| :: TypedEvent(events[k])
    requires SteadyEvents(settings, events) && i < |Run(settings, policy, INITIAL, events).dispatched|
    requires Run(settings, policy, INITIAL, events).dispatched[i].rpcMethod in {
               "gates.prompt.create", "gates.plan.propose", "gates.plan.approve", "gates.tasks.derive",
               "gates.tasks.preflight", "gates.amendment.request", "gates.amendment.approve", "gates.runtime.verify",
               "gates.evidence.submit", "gates.tasks.complete", "gates.argument.build", "gates.argument.accept"}
    ensures var request := Run(settings, policy, INITIAL, events).dispatched[i];
            && request.hom.Some? && "gates:write" in request.hom.value.scope
            && request.hom.value.clientId in settings.clients
            && "gates:write" in settings.clients[request.hom.value.clientId].scopes
  {
    DemandsGatesWrite(Run(settings, policy, INITIAL, events).dispatched[i].rpcMethod);
    DispatchedHeld(settings, policy, events, i);
  }
}
