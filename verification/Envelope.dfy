/** The envelope verifier: who may call, how fresh a call must be, and the cache that stops replays. */
module Envelope {
  import opened Results
  import opened Sequences
  import opened CanonicalJson
  import opened CanonicalParser
  import opened Crypto
  import Decimal

  datatype KnownClient = KnownClient(clientId: string, clientPub: string, scopes: seq<string>)

  datatype HomEnvelope = HomEnvelope(
    clientId: string,
    clientPub: string,
    ts: int,
    nonce: string,
    scope: seq<string>,
    bodyHash: string,
    signature: string)

  datatype Request = Request(id: Json, rpcMethod: string, params: Json, hom: Option<HomEnvelope>)

  datatype Identity = Identity(clientId: string, scopes: seq<string>)

  datatype EnvelopeError =
    | UnknownClient
    | SignatureInvalid
    | NonceReplay
    | ClockSkew
    | BodyHashMismatch
    | Malformed
    | ScopeInsufficient
    | CryptoFailed(e: CryptoError)
    | NotCanonical

  type Verdict = Result<Identity, EnvelopeError>

  datatype Settings = Settings(clients: map<string, KnownClient>, skew: int, ttl: int, primitives: Primitives)

  /** One call of the verifier together with the clock reading it gets. */
  datatype Call = Call(body: Json, hom: HomEnvelope, required: Option<string>, now: int)

  /** What the types of the request promise: well-formed JSON and a 64-bit time stamp. */
  predicate Typed(call: Call) {
    WellFormed(call.body) && Decimal.I64_MIN <= call.hom.ts <= Decimal.I64_MAX
  }

  // ---------- the nonce cache ----------

  function NonceKey(clientId: string, nonce: string, ts: int): string {
    clientId + ":" + nonce + ":" + Decimal.OfInt(ts)
  }

  function KeyOf(hom: HomEnvelope): string {
    NonceKey(hom.clientId, hom.nonce, hom.ts)
  }

  /** The text after the last colon, or all of it when there is none. */
  function AfterLastColon(key: string): string {
    if key == [] || key[|key| - 1] == ':' then [] else AfterLastColon(key[..|key| - 1]) + [key[|key| - 1]]
  }

  function KeyTs(key: string): Option<int> {
    Decimal.ParseI64(AfterLastColon(key))
  }

  function Prune(seen: set<string>, now: int, ttl: int): set<string> {
    set key | key in seen && KeyTs(key).Some? && now - KeyTs(key).value <= ttl
  }

  lemma {:induction false} AfterLastColonOf(front: string, tail: string)
    requires ':' !in tail
    ensures AfterLastColon(front + ":" + tail) == tail
  {
    var key := front + ":" + tail;
    if tail != [] {
      var shorter := tail[..|tail| - 1];
      AfterLastColonOf(front, shorter);
      assert key[|key| - 1] == tail[|tail| - 1] && tail[|tail| - 1] in tail;
      assert key[..|key| - 1] == front + ":" + shorter;
      assert tail == shorter + [tail[|tail| - 1]];
    }
  }

  /** The time stamp parsed back out of a cache key is exactly the one formatted into it. */
  lemma KeyTsOfNonceKey(clientId: string, nonce: string, ts: int)
    requires Decimal.I64_MIN <= ts <= Decimal.I64_MAX
    ensures KeyTs(NonceKey(clientId, nonce, ts)) == Some(ts)
  {
    AfterLastColonOf(clientId + ":" + nonce, Decimal.OfInt(ts));
    Decimal.ParseI64OfInt(ts);
  }

  // ---------- one call ----------

  predicate Complete(hom: HomEnvelope) {
    hom.clientId != "" && hom.clientPub != "" && hom.nonce != "" && hom.signature != ""
  }

  predicate Registered(settings: Settings, hom: HomEnvelope) {
    hom.clientId in settings.clients && settings.clients[hom.clientId].clientPub == hom.clientPub
  }

  predicate InWindow(settings: Settings, call: Call) {
    -settings.skew <= call.now - call.hom.ts <= settings.skew
  }

  /** The call gets as far as consulting the cache. */
  predicate ReachesCache(settings: Settings, call: Call) {
    Complete(call.hom) && Registered(settings, call.hom) && InWindow(settings, call)
  }

  predicate ScopesGranted(client: KnownClient, scope: seq<string>) {
    forall i | 0 <= i < |scope| :: scope[i] in client.scopes
  }

  predicate ScopeCovers(scope: seq<string>, required: Option<string>) {
    required.Some? ==> required.value in scope
  }

  /** The checks that follow the cache: body hash, scopes, signature. */
  ghost function Checks(settings: Settings, call: Call): Verdict
    requires Registered(settings, call.hom)
  {
    var hom, client := call.hom, settings.clients[call.hom.clientId];
    if Canonical(call.body).Err? then Err(NotCanonical)
    else if settings.primitives.sha256Hex(Text(call.body)) != hom.bodyHash then Err(BodyHashMismatch)
    else if !ScopesGranted(client, hom.scope) || !ScopeCovers(hom.scope, call.required) then Err(ScopeInsufficient)
    else
      match Verification(settings.primitives, client.clientPub, PayloadText(call.body, hom.nonce, hom.ts), hom.signature)
      case Err(e) => Err(CryptoFailed(e))
      case Ok(genuine) => if genuine then Ok(Identity(hom.clientId, hom.scope)) else Err(SignatureInvalid)
  }

  /** The cache a call consults: pruned at the clock reading, or kept whole forever. */
  function Consulted(settings: Settings, seen: set<string>, now: int, pruning: bool): set<string> {
    if pruning then Prune(seen, now, settings.ttl) else seen
  }

  /** The verdict on a call and the cache it leaves. */
  ghost function Step(settings: Settings, seen: set<string>, call: Call, pruning: bool): (Verdict, set<string>) {
    if !Complete(call.hom) then (Err(Malformed), seen)
    else if !Registered(settings, call.hom) then (Err(UnknownClient), seen)
    else if !InWindow(settings, call) then (Err(ClockSkew), seen)
    else
      var cache := Consulted(settings, seen, call.now, pruning);
      if KeyOf(call.hom) in cache then (Err(NonceReplay), cache)
      else (Checks(settings, call), cache + {KeyOf(call.hom)})
  }

  class EnvelopeVerifier {
    const settings: Settings
    var seenNonces: set<string>

    constructor WithClock(clients: seq<KnownClient>, skew: int, ttl: int, primitives: Primitives)
      ensures seenNonces == {}
      ensures settings == Settings(ById(clients), skew, ttl, primitives)
    {
      settings := Settings(ById(clients), skew, ttl, primitives);
      seenNonces := {};
    }

    method PruneNonces(now: int)
      modifies this
      ensures seenNonces == Prune(old(seenNonces), now, settings.ttl)
    {
      seenNonces := set key | key in seenNonces && KeyTs(key).Some? && now - KeyTs(key).value <= settings.ttl;
    }

    method VerifyBody(body: Json, hom: HomEnvelope, required: Option<string>, now: int) returns (r: Verdict)
      requires WellFormed(body)
      modifies this
      ensures (r, seenNonces) == Step(settings, old(seenNonces), Call(body, hom, required, now), true)
    {
      if hom.clientId == "" || hom.clientPub == "" || hom.nonce == "" || hom.signature == "" {
        return Err(Malformed);
      }
      if hom.clientId !in settings.clients {
        return Err(UnknownClient);
      }
      var client := settings.clients[hom.clientId];
      if client.clientPub != hom.clientPub {
        return Err(UnknownClient);
      }
      var distance := if now < hom.ts then hom.ts - now else now - hom.ts;
      if distance > settings.skew {
        return Err(ClockSkew);
      }
      PruneNonces(now);
      var key := NonceKey(hom.clientId, hom.nonce, hom.ts);
      if key in seenNonces {
        return Err(NonceReplay);
      }
      seenNonces := seenNonces + {key};
      var canonical := CanonicalJson.CanonicalJson(body);
      if canonical.Err? {
        return Err(NotCanonical);
      }
      if settings.primitives.sha256Hex(canonical.value) != hom.bodyHash {
        return Err(BodyHashMismatch);
      }
      if !ScopesGranted(client, hom.scope) {
        return Err(ScopeInsufficient);
      }
      if required.Some? && required.value !in hom.scope {
        return Err(ScopeInsufficient);
      }
      var genuine := VerifyPayload(settings.primitives, client.clientPub, body, hom.nonce, hom.ts, hom.signature);
      match genuine
      case Err(e) => return Err(CryptoFailed(e));
      case Ok(false) => return Err(SignatureInvalid);
      case Ok(true) => return Ok(Identity(hom.clientId, hom.scope));
    }

    method VerifyRequest(request: Request, required: Option<string>, now: int) returns (r: Verdict)
      requires WellFormed(request.params)
      modifies this
      ensures request.hom.None? ==> r == Err(Malformed) && seenNonces == old(seenNonces)
      ensures request.hom.Some? ==>
        (r, seenNonces) == Step(settings, old(seenNonces), Call(request.params, request.hom.value, required, now), true)
    {
      match request.hom
      case None => r := Err(Malformed);
      case Some(hom) => r := VerifyBody(request.params, hom, required, now);
    }
  }

  /** The registry by client id; a later registration of the same id replaces an earlier one. */
  function ById(clients: seq<KnownClient>): map<string, KnownClient> {
    if clients == [] then map[]
    else ById(clients[..|clients| - 1])[clients[|clients| - 1].clientId := clients[|clients| - 1]]
  }

  lemma {:induction false} ByIdMembers(clients: seq<KnownClient>, id: string)
    ensures id in ById(clients) <==> exists i | 0 <= i < |clients| :: clients[i].clientId == id
  {
    if clients != [] {
      var n := |clients| - 1;
      ByIdMembers(clients[..n], id);
      if i :| 0 <= i < n && clients[..n][i].clientId == id {
        assert clients[i].clientId == id;
      }
      if i :| 0 <= i < |clients| && clients[i].clientId == id {
        assert i < n ==> clients[..n][i].clientId == id;
      }
    }
  }

  /** The registration found under an id is the last one with this id. */
  lemma {:induction false} ByIdIsLast(clients: seq<KnownClient>, id: string) returns (i: nat)
    requires id in ById(clients)
    ensures i < |clients| && clients[i].clientId == id && ById(clients)[id] == clients[i]
    ensures forall j | i < j < |clients| :: clients[j].clientId != id
  {
    i := |clients| - 1;
    if clients[i].clientId != id {
      i := ByIdIsLast(clients[..i], id);
    }
  }

  // ---------- what each verdict means ----------

  /**
   Refusals that leave the cache alone, in this order: an empty name, nonce or signature; a client that is not registered
   with this key; a time stamp more than the skew away from the clock, in either direction.
   */
  lemma RefusedUntouched(settings: Settings, seen: set<string>, call: Call)
    ensures var hom, (verdict, after) := call.hom, Step(settings, seen, call, true);
            var empty := hom.clientId == "" || hom.clientPub == "" || hom.nonce == "" || hom.signature == "";
            var known := hom.clientId in settings.clients && settings.clients[hom.clientId].clientPub == hom.clientPub;
            var skewed := hom.ts - call.now > settings.skew || call.now - hom.ts > settings.skew;
            && (verdict == Err(Malformed) <==> empty)
            && (verdict == Err(UnknownClient) <==> !empty && !known)
            && (verdict == Err(ClockSkew) <==> !empty && known && skewed)
            && (empty || !known || skewed ==> after == seen)
  {
  }

  /**
   A call that gets as far as the cache leaves in it the keys whose time stamp is at most the time to live old, and its
   own; it is a replay exactly when its own was among them.
   */
  lemma RefusedAsReplay(settings: Settings, seen: set<string>, call: Call)
    requires call.hom.clientId != "" && call.hom.clientPub != "" && call.hom.nonce != "" && call.hom.signature != ""
    requires call.hom.clientId in settings.clients && settings.clients[call.hom.clientId].clientPub == call.hom.clientPub
    requires call.hom.ts - call.now <= settings.skew && call.now - call.hom.ts <= settings.skew
    ensures var hom, (verdict, after) := call.hom, Step(settings, seen, call, true);
            var key := hom.clientId + ":" + hom.nonce + ":" + Decimal.OfInt(hom.ts);
            && (verdict == Err(NonceReplay) <==> key in seen && KeyTs(key).Some? && call.now - KeyTs(key).value <= settings.ttl)
            && forall k :: k in after <==>
                 (k in seen && KeyTs(k).Some? && call.now - KeyTs(k).value <= settings.ttl) || k == key
  {
  }

  /** The checks that follow the cache, in their order, and what passes them all. */
  lemma CheckedInOrder(settings: Settings, call: Call)
    requires call.hom.clientId in settings.clients && settings.clients[call.hom.clientId].clientPub == call.hom.clientPub
    ensures var hom, client, verdict := call.hom, settings.clients[call.hom.clientId], Checks(settings, call);
            var p := settings.primitives;
            var payload := Text(call.body) + "\n" + hom.nonce + "\n" + Decimal.OfInt(hom.ts);
            var shallow := Canonical(call.body).Ok?;
            var hashed := p.sha256Hex(Text(call.body)) == hom.bodyHash;
            var granted := (forall scope | scope in hom.scope :: scope in client.scopes)
                           && (call.required.Some? ==> call.required.value in hom.scope);
            var key, signature := p.verifyingKey(hom.clientPub), p.signature(hom.signature);
            && (verdict == Err(NotCanonical) <==> !shallow)
            && (verdict == Err(BodyHashMismatch) <==> shallow && !hashed)
            && (verdict == Err(ScopeInsufficient) <==> shallow && hashed && !granted)
            && (verdict.Err? && verdict.error.CryptoFailed? <==> shallow && hashed && granted && (key.Err? || signature.Err?))
            && (verdict == Err(SignatureInvalid) <==>
                  shallow && hashed && granted && key.Ok? && signature.Ok? && !p.check(key.value, payload, signature.value))
            && (verdict.Ok? <==>
                  shallow && hashed && granted && key.Ok? && signature.Ok? && p.check(key.value, payload, signature.value))
            && (verdict.Ok? ==> verdict.value == Identity(hom.clientId, hom.scope))
  {
    var hom, client := call.hom, settings.clients[call.hom.clientId];
    assert ScopesGranted(client, hom.scope) <==> forall scope | scope in hom.scope :: scope in client.scopes;
    assert PayloadText(call.body, hom.nonce, hom.ts) == Text(call.body) + "\n" + hom.nonce + "\n" + Decimal.OfInt(hom.ts);
  }

  /** A call that is neither refused before the cache nor a replay gets the verdict of these checks. */
  lemma VerdictIs(settings: Settings, seen: set<string>, call: Call)
    requires call.hom.clientId in settings.clients && settings.clients[call.hom.clientId].clientPub == call.hom.clientPub
    ensures var verdict := Step(settings, seen, call, true).0;
            verdict !in {Err(Malformed), Err(ClockSkew), Err(NonceReplay)} ==> verdict == Checks(settings, call)
    ensures Step(settings, seen, call, true).0.Ok? ==>
      Checks(settings, call).Ok? && call.hom.ts - call.now <= settings.skew && call.now - call.hom.ts <= settings.skew
  {
  }

  // ---------- runs ----------

  ghost function Verdicts(settings: Settings, seen: set<string>, calls: seq<Call>, pruning: bool): (r: seq<Verdict>)
    ensures |r| == |calls|
    decreases calls
  {
    if calls == [] then []
    else
      var (verdict, after) := Step(settings, seen, calls[0], pruning);
      [verdict] + Verdicts(settings, after, calls[1..], pruning)
  }

  /** A later reading of the clock never falls more than `ttl - skew` below an earlier one. */
  ghost predicate SteadyClock(settings: Settings, calls: seq<Call>) {
    forall i, j | 0 <= i < j < |calls| && ReachesCache(settings, calls[i]) && ReachesCache(settings, calls[j]) ::
      calls[j].now >= calls[i].now - (settings.ttl - settings.skew)
  }

  /** What the pruned cache has dropped from the whole one had already expired at some earlier reading. */
  ghost predicate Forgotten(settings: Settings, pruned: set<string>, whole: set<string>, past: set<int>) {
    && pruned <= whole
    && (forall key | key in whole :: KeyTs(key).Some?)
    && (forall key | key in whole && key !in pruned :: exists now | now in past :: now - KeyTs(key).value > settings.ttl)
  }

  ghost predicate NotBefore(settings: Settings, past: set<int>, now: int) {
    forall earlier | earlier in past :: now >= earlier - (settings.ttl - settings.skew)
  }

  /** Within the skew window a dropped key would need a clock that ran back too far. */
  lemma SameMembership(settings: Settings, pruned: set<string>, whole: set<string>, past: set<int>, call: Call)
    requires settings.skew <= settings.ttl && Typed(call) && ReachesCache(settings, call)
    requires Forgotten(settings, pruned, whole, past) && NotBefore(settings, past, call.now)
    ensures KeyOf(call.hom) in Prune(pruned, call.now, settings.ttl) <==> KeyOf(call.hom) in whole
  {
    KeyTsOfNonceKey(call.hom.clientId, call.hom.nonce, call.hom.ts);
  }

  lemma StepAgrees(settings: Settings, pruned: set<string>, whole: set<string>, past: set<int>, call: Call)
    requires settings.skew <= settings.ttl && Typed(call)
    requires Forgotten(settings, pruned, whole, past)
    requires ReachesCache(settings, call) ==> NotBefore(settings, past, call.now)
    ensures Step(settings, pruned, call, true).0 == Step(settings, whole, call, false).0
    ensures Forgotten(settings, Step(settings, pruned, call, true).1, Step(settings, whole, call, false).1,
                      if ReachesCache(settings, call) then past + {call.now} else past)
  {
    if ReachesCache(settings, call) {
      SameMembership(settings, pruned, whole, past, call);
      KeyTsOfNonceKey(call.hom.clientId, call.hom.nonce, call.hom.ts);
      var pruned', whole' := Step(settings, pruned, call, true).1, Step(settings, whole, call, false).1;
      forall key | key in whole' && key !in pruned'
        ensures exists now | now in past + {call.now} :: now - KeyTs(key).value > settings.ttl
      {
        if key in pruned {
          assert call.now in past + {call.now};
        } else {
          var now :| now in past && now - KeyTs(key).value > settings.ttl;
          assert now in past + {call.now};
        }
      }
    }
  }

  lemma {:induction false} RunAgrees(settings: Settings, pruned: set<string>, whole: set<string>, past: set<int>,
                                     calls: seq<Call>)
    requires settings.skew <= settings.ttl && forall i | 0 <= i < |calls| :: Typed(calls[i])
    requires SteadyClock(settings, calls)
    requires Forgotten(settings, pruned, whole, past)
    requires forall i | 0 <= i < |calls| && ReachesCache(settings, calls[i]) :: NotBefore(settings, past, calls[i].now)
    ensures Verdicts(settings, pruned, calls, true) == Verdicts(settings, whole, calls, false)
    decreases calls
  {
    if calls != [] {
      StepAgrees(settings, pruned, whole, past, calls[0]);
      var past' := if ReachesCache(settings, calls[0]) then past + {calls[0].now} else past;
      RunAgrees(settings, Step(settings, pruned, calls[0], true).1, Step(settings, whole, calls[0], false).1, past', calls[1..]);
    }
  }

  /**
   Pruning is invisible: when the skew is at most the time to live and the clock is steady, every call of every run
   gets the verdict it would get from a cache that never forgets.
   */
  lemma {:induction false} PruningIsInvisible(settings: Settings, calls: seq<Call>)
    requires settings.skew <= settings.ttl && forall i | 0 <= i < |calls| :: Typed(calls[i])
    requires SteadyClock(settings, calls)
    ensures Verdicts(settings, {}, calls, true) == Verdicts(settings, {}, calls, false)
  {
    RunAgrees(settings, {}, {}, {}, calls);
  }

  lemma {:induction false} RememberedIsRefused(settings: Settings, seen: set<string>, calls: seq<Call>, j: nat)
    requires j < |calls| && KeyOf(calls[j].hom) in seen
    ensures Verdicts(settings, seen, calls, false)[j].Err?
    decreases calls
  {
    if j > 0 {
      RememberedIsRefused(settings, Step(settings, seen, calls[0], false).1, calls[1..], j - 1);
    }
  }

  lemma {:induction false} WholeCacheNeverRepeats(settings: Settings, seen: set<string>, calls: seq<Call>, i: nat, j: nat)
    requires i < j < |calls|
    requires Verdicts(settings, seen, calls, false)[i].Ok? && Verdicts(settings, seen, calls, false)[j].Ok?
    ensures KeyOf(calls[i].hom) != KeyOf(calls[j].hom)
    decreases calls
  {
    var after := Step(settings, seen, calls[0], false).1;
    if i > 0 {
      WholeCacheNeverRepeats(settings, after, calls[1..], i - 1, j - 1);
    } else if KeyOf(calls[0].hom) == KeyOf(calls[j].hom) {
      RememberedIsRefused(settings, after, calls[1..], j - 1);
    }
  }

  /** No client, nonce and time stamp is accepted twice in any run, however the calls interleave. */
  lemma {:induction false} NeverAcceptedTwice(settings: Settings, calls: seq<Call>, i: nat, j: nat)
    requires settings.skew <= settings.ttl && forall k | 0 <= k < |calls| :: Typed(calls[k])
    requires SteadyClock(settings, calls)
    requires i < j < |calls|
    requires Verdicts(settings, {}, calls, true)[i].Ok? && Verdicts(settings, {}, calls, true)[j].Ok?
    ensures KeyOf(calls[i].hom) != KeyOf(calls[j].hom)
    ensures (calls[i].hom.clientId, calls[i].hom.nonce, calls[i].hom.ts)
            != (calls[j].hom.clientId, calls[j].hom.nonce, calls[j].hom.ts)
  {
    PruningIsInvisible(settings, calls);
    WholeCacheNeverRepeats(settings, {}, calls, i, j);
  }

  /**
   The clock bound cannot be relaxed: whenever the clock may fall by more than `ttl - skew` (or the skew exceeds the time
   to live), a call that passes the other checks is accepted, forgotten while another call is served, and accepted again.
   */
  lemma ClockBoundIsTight(settings: Settings, call: Call, drop: nat)
    requires settings.skew >= 0 && drop > settings.ttl - settings.skew
    requires Typed(call) && call.hom.ts + settings.skew + drop <= Decimal.I64_MAX
    requires ReachesCache(settings, call) && Checks(settings, call).Ok?
    ensures var late := call.hom.ts + settings.skew;
            var accepted, between := call.(now := late), call.(now := late + drop, hom := call.hom.(ts := late + drop));
            var verdicts := Verdicts(settings, {}, [accepted, between, accepted], true);
            verdicts[0].Ok? && verdicts[2].Ok?
  {
    var late := call.hom.ts + settings.skew;
    var accepted, between := call.(now := late), call.(now := late + drop, hom := call.hom.(ts := late + drop));
    ForgottenAndReplayed(settings, accepted, between);
  }

  /** A call that a call served in between makes the cache forget is accepted before and after it. */
  lemma ForgottenAndReplayed(settings: Settings, accepted: Call, between: Call)
    requires Typed(accepted) && ReachesCache(settings, accepted) && ReachesCache(settings, between)
    requires Checks(settings, accepted).Ok? && between.now - accepted.hom.ts > settings.ttl
    requires between.hom.ts != accepted.hom.ts || accepted.now - accepted.hom.ts > settings.ttl
    ensures var verdicts := Verdicts(settings, {}, [accepted, between, accepted], true);
            verdicts[0].Ok? && verdicts[2].Ok?
  {
    var seen1 := Step(settings, {}, accepted, true).1;
    var seen2 := Step(settings, seen1, between, true).1;
    FreshVerdict(settings, {}, accepted);
    DroppedWhenLate(settings, seen1, accepted.hom, between.now);
    DroppedOrAbsent(settings, seen1, between, accepted.hom, accepted.now);
    FreshVerdict(settings, seen2, accepted);
    ThreeVerdicts(settings, {}, accepted, between, accepted);
  }

  /** A call in the window whose key the cache lacks is judged by the later checks alone. */
  lemma FreshVerdict(settings: Settings, seen: set<string>, call: Call)
    requires ReachesCache(settings, call) && KeyOf(call.hom) !in Prune(seen, call.now, settings.ttl)
    ensures Step(settings, seen, call, true).0 == Checks(settings, call)
  {
  }

  lemma DroppedWhenLate(settings: Settings, seen: set<string>, hom: HomEnvelope, now: int)
    requires Decimal.I64_MIN <= hom.ts <= Decimal.I64_MAX && now - hom.ts > settings.ttl
    ensures KeyOf(hom) !in Prune(seen, now, settings.ttl)
  {
    KeyTsOfNonceKey(hom.clientId, hom.nonce, hom.ts);
  }

  /** After a call that pruned `hom` away, a reading at `late` finds no key of it: it was dropped, or is expired anyway. */
  lemma DroppedOrAbsent(settings: Settings, seen: set<string>, between: Call, hom: HomEnvelope, late: int)
    requires ReachesCache(settings, between) && KeyOf(hom) !in Prune(seen, between.now, settings.ttl)
    requires Decimal.I64_MIN <= hom.ts <= Decimal.I64_MAX
    requires between.hom.ts != hom.ts || late - hom.ts > settings.ttl
    ensures KeyOf(hom) !in Prune(Step(settings, seen, between, true).1, late, settings.ttl)
  {
    KeyTsOfNonceKey(hom.clientId, hom.nonce, hom.ts);
    NonceKeyEqual(hom.clientId, hom.nonce, hom.ts, between.hom.clientId, between.hom.nonce, between.hom.ts);
  }

  lemma ThreeVerdicts(settings: Settings, seen: set<string>, a: Call, b: Call, c: Call)
    ensures var seen1 := Step(settings, seen, a, true).1;
            var seen2 := Step(settings, seen1, b, true).1;
            var verdicts := Verdicts(settings, seen, [a, b, c], true);
            verdicts[0] == Step(settings, seen, a, true).0 && verdicts[2] == Step(settings, seen2, c, true).0
  {
    var seen1 := Step(settings, seen, a, true).1;
    var seen2 := Step(settings, seen1, b, true).1;
    assert [a, b, c][1..] == [b, c] && [b, c][1..] == [c];
    assert Verdicts(settings, seen1, [b, c], true)[1] == Verdicts(settings, seen2, [c], true)[0];
  }

  // ---------- what a cache key identifies ----------

  /** Two cache keys are equal exactly when the time stamps agree and `client:nonce` reads the same. */
  lemma NonceKeyEqual(c1: string, n1: string, t1: int, c2: string, n2: string, t2: int)
    ensures NonceKey(c1, n1, t1) == NonceKey(c2, n2, t2) <==> c1 + ":" + n1 == c2 + ":" + n2 && t1 == t2
  {
    if NonceKey(c1, n1, t1) == NonceKey(c2, n2, t2) {
      SplitAtLast(c1 + ":" + n1, Decimal.OfInt(t1), c2 + ":" + n2, Decimal.OfInt(t2), ':');
      Decimal.OfIntInjective(t1, t2);
    }
  }

  /** Some nonces of the two clients share a cache key. */
  ghost predicate KeysCollide(c1: string, c2: string) {
    exists n1: string, n2: string, ts: int :: n1 != "" && n2 != "" && NonceKey(c1, n1, ts) == NonceKey(c2, n2, ts)
  }

  /**
   Keys do not always tell two clients apart: the two share a key for some nonces exactly when one id continues the
   other after a colon, as "a" and "a:b" do.
   */
  lemma KeysCollideIff(c1: string, c2: string)
    requires c1 != c2
    ensures KeysCollide(c1, c2) <==> c1 + ":" <= c2 || c2 + ":" <= c1
  {
    if KeysCollide(c1, c2) {
      var n1, n2, ts :| n1 != "" && n2 != "" && NonceKey(c1, n1, ts) == NonceKey(c2, n2, ts);
      NonceKeyEqual(c1, n1, ts, c2, n2, ts);
      CommonStart(c1, n1, c2, n2);
    }
    if c1 + ":" <= c2 {
      CollidingNonces(c1, c2);
    }
    if c2 + ":" <= c1 {
      CollidingNonces(c2, c1);
      var n2, n1, ts :| n2 != "" && n1 != "" && NonceKey(c2, n2, ts) == NonceKey(c1, n1, ts);
      assert KeysCollide(c1, c2);
    }
  }

  lemma CommonStart(c1: string, n1: string, c2: string, n2: string)
    requires c1 != c2 && c1 + ":" + n1 == c2 + ":" + n2
    ensures c1 + ":" <= c2 || c2 + ":" <= c1
  {
    var whole := c1 + ":" + n1;
    assert c1 == whole[..|c1|] && c2 == whole[..|c2|];
    assert c1 + ":" == whole[..|c1| + 1] && c2 + ":" == whole[..|c2| + 1];
  }

  lemma CollidingNonces(c1: string, c2: string)
    requires c1 + ":" <= c2
    ensures KeysCollide(c1, c2)
  {
    var rest := c2[|c1| + 1..];
    assert c2 == c1 + ":" + rest;
    assert NonceKey(c1, rest + ":n", 0) == NonceKey(c2, "n", 0) by {
      NonceKeyEqual(c1, rest + ":n", 0, c2, "n", 0);
      assert c1 + ":" + (rest + ":n") == c2 + ":" + "n";
    }
  }

  /** Clients whose ids hold no colon are never confused: their keys determine client, nonce and time stamp. */
  lemma ColonFreeKeysAreFaithful(c1: string, n1: string, t1: int, c2: string, n2: string, t2: int)
    requires ':' !in c1 && ':' !in c2
    ensures NonceKey(c1, n1, t1) == NonceKey(c2, n2, t2) <==> c1 == c2 && n1 == n2 && t1 == t2
  {
    NonceKeyEqual(c1, n1, t1, c2, n2, t2);
    if c1 + ":" + n1 == c2 + ":" + n2 {
      SplitAtFirst(c1, n1, c2, n2, ':');
    }
  }

  // ---------- building requests ----------

  method BuildRequest(primitives: Primitives, id: Json, rpcMethod: string, params: Json, clientId: string,
                      clientPub: string, privateKey: string, scopes: seq<string>, nonce: string, ts: int)
    returns (r: Result<Request, EnvelopeError>)
    requires WellFormed(params)
    ensures Canonical(params).Err? ==> r == Err(NotCanonical)
    ensures Canonical(params).Ok? && Signature(primitives, privateKey, PayloadText(params, nonce, ts)).Err? ==>
      r == Err(CryptoFailed(Signature(primitives, privateKey, PayloadText(params, nonce, ts)).error))
    ensures Canonical(params).Ok? && Signature(primitives, privateKey, PayloadText(params, nonce, ts)).Ok? ==>
      r == Ok(Request(id, rpcMethod, params, Some(Sealed(primitives, params, clientId, clientPub, scopes, nonce, ts,
        Signature(primitives, privateKey, PayloadText(params, nonce, ts)).value))))
    ensures r.Ok? ==> r.value.hom.Some? && BuiltBy(primitives, params, privateKey, r.value.hom.value)
    ensures r.Ok? ==>
      var request, hom := r.value, r.value.hom.value;
      && request.id == id && request.rpcMethod == rpcMethod && request.params == params
      && hom.clientId == clientId && hom.clientPub == clientPub && hom.scope == scopes && hom.nonce == nonce && hom.ts == ts
  {
    var canonical := CanonicalJson.CanonicalJson(params);
    if canonical.Err? {
      return Err(NotCanonical);
    }
    var bodyHash := primitives.sha256Hex(canonical.value);
    var signature := SignPayload(primitives, privateKey, params, nonce, ts);
    match signature
    case Err(e) => return Err(CryptoFailed(e));
    case Ok(text) =>
      return Ok(Request(id, rpcMethod, params, Some(HomEnvelope(clientId, clientPub, ts, nonce, scopes, bodyHash, text))));
  }

  /** The envelope a client puts around `params`. */
  function Sealed(primitives: Primitives, params: Json, clientId: string, clientPub: string, scopes: seq<string>,
                  nonce: string, ts: int, signature: string): HomEnvelope
  {
    HomEnvelope(clientId, clientPub, ts, nonce, scopes, primitives.sha256Hex(Text(params)), signature)
  }

  /** Whatever the private key signs checks under the public key; signatures are not empty. */
  ghost predicate KeyPair(primitives: Primitives, privateKey: string, publicKey: string) {
    forall message | Signature(primitives, privateKey, message).Ok? ::
      Signature(primitives, privateKey, message).value != ""
      && Verification(primitives, publicKey, message, Signature(primitives, privateKey, message).value) == Ok(true)
  }

  /** `hom` is what `BuildRequest` puts on a request with these parts. */
  ghost predicate BuiltBy(primitives: Primitives, params: Json, privateKey: string, hom: HomEnvelope) {
    && Canonical(params).Ok?
    && hom.bodyHash == primitives.sha256Hex(Text(params))
    && Signature(primitives, privateKey, PayloadText(params, hom.nonce, hom.ts)) == Ok(hom.signature)
  }

  /**
   A request built with the key of a registered client is accepted exactly when its nonce and client names are not
   empty, its time stamp lies in the window, its key is not in the pruned cache, its scopes are granted and the required
   one is among them; the verdict then names that client and those scopes.
   */
  lemma BuiltRequestAccepted(settings: Settings, seen: set<string>, call: Call, privateKey: string)
    requires Registered(settings, call.hom) && KeyPair(settings.primitives, privateKey, call.hom.clientPub)
    requires BuiltBy(settings.primitives, call.body, privateKey, call.hom)
    ensures Step(settings, seen, call, true).0.Ok?
            <==> call.hom.clientId != "" && call.hom.clientPub != "" && call.hom.nonce != ""
                 && InWindow(settings, call) && KeyOf(call.hom) !in Prune(seen, call.now, settings.ttl)
                 && ScopesGranted(settings.clients[call.hom.clientId], call.hom.scope)
                 && ScopeCovers(call.hom.scope, call.required)
    ensures Step(settings, seen, call, true).0.Ok? ==>
              Step(settings, seen, call, true).0.value == Identity(call.hom.clientId, call.hom.scope)
  {
    assert Signature(settings.primitives, privateKey, PayloadText(call.body, call.hom.nonce, call.hom.ts)).Ok?;
  }

  /** The hash tells the two texts apart. */
  predicate NoCollision(hash: string -> string, a: string, b: string) {
    hash(a) == hash(b) ==> a == b
  }

  /**
   Other parameters under a built envelope are never accepted, unless they differ from the signed ones in member order
   alone, and then the verdict and the cache are the same.
   */
  lemma TamperedParamsRefused(settings: Settings, seen: set<string>, call: Call, privateKey: string, other: Json)
    requires WellFormed(call.body) && WellFormed(other)
    requires NoCollision(settings.primitives.sha256Hex, Text(call.body), Text(other))
    requires BuiltBy(settings.primitives, call.body, privateKey, call.hom)
    ensures SameUpToOrder(call.body, other) ==> Step(settings, seen, call.(body := other), true) == Step(settings, seen, call, true)
    ensures !SameUpToOrder(call.body, other) ==> Step(settings, seen, call.(body := other), true).0.Err?
  {
    SameTextIffSame(call.body, other);
    if SameUpToOrder(call.body, other) {
      CanonicalIffSame(call.body, other);
      SameTextSameChecks(settings, call, other);
    } else if Registered(settings, call.hom) {
      OtherTextRefused(settings, call, other);
    }
  }

  lemma SameTextSameChecks(settings: Settings, call: Call, other: Json)
    requires Text(call.body) == Text(other) && Canonical(call.body) == Canonical(other)
    ensures Registered(settings, call.hom) ==> Checks(settings, call.(body := other)) == Checks(settings, call)
  {
  }

  lemma OtherTextRefused(settings: Settings, call: Call, other: Json)
    requires Registered(settings, call.hom) && Text(call.body) != Text(other)
    requires NoCollision(settings.primitives.sha256Hex, Text(call.body), Text(other))
    requires call.hom.bodyHash == settings.primitives.sha256Hex(Text(call.body))
    ensures Checks(settings, call.(body := other)).Err?
  {
  }

  /** Nobody else can make a signature: what checks under the key is a payload of one of the signed triples. */
  ghost predicate OnlySigned(primitives: Primitives, publicKey: string, signed: seq<(Json, string, int)>) {
    forall message, signature | Verification(primitives, publicKey, message, signature) == Ok(true) ::
      exists k | 0 <= k < |signed| :: message == PayloadText(signed[k].0, signed[k].1, signed[k].2)
  }

  /**
   What is accepted was signed: the owner of the registered key signed that very body (up to member order), nonce and
   time stamp.
   */
  lemma AcceptedWasSigned(settings: Settings, seen: set<string>, call: Call, signed: seq<(Json, string, int)>) returns (k: nat)
    requires Typed(call) && forall i | 0 <= i < |signed| :: WellFormed(signed[i].0)
    requires OnlySigned(settings.primitives, call.hom.clientPub, signed)
    requires Step(settings, seen, call, true).0.Ok?
    ensures k < |signed| && SameUpToOrder(call.body, signed[k].0) && signed[k].1 == call.hom.nonce && signed[k].2 == call.hom.ts
  {
    var message := PayloadText(call.body, call.hom.nonce, call.hom.ts);
    assert Verification(settings.primitives, call.hom.clientPub, message, call.hom.signature) == Ok(true);
    k :| 0 <= k < |signed| && message == PayloadText(signed[k].0, signed[k].1, signed[k].2);
    PayloadDeterminesParts(call.body, call.hom.nonce, call.hom.ts, signed[k].0, signed[k].1, signed[k].2);
  }

  /**
   The payload covers neither the method nor the scopes: an accepted call that comes with other scopes, or for a method
   with another required scope, is accepted just as well exactly when these scopes are granted and cover the required
   one, and then under these scopes.
   */
  lemma ScopesAreNotSigned(settings: Settings, seen: set<string>, call: Call, scope: seq<string>, required: Option<string>)
    requires Step(settings, seen, call, true).0.Ok?
    ensures var client := settings.clients[call.hom.clientId];
            var other := Step(settings, seen, call.(hom := call.hom.(scope := scope), required := required), true);
            && (other.0.Ok? <==> ScopesGranted(client, scope) && ScopeCovers(scope, required))
            && (other.0.Ok? ==> other.0.value == Identity(call.hom.clientId, scope))
            && other.1 == Step(settings, seen, call, true).1
  {
  }
}
