/**
 Preview and apply calls as the server runs them. No lock is held from reading the store to writing it back, so the calls
 of different requests interleave between any two accesses to a file: measuring the target, reading the store, writing the
 target, writing the temporary store file, renaming it into place.
 */
module FileWriteSteps {
  import opened Results
  import opened Sequences
  import opened FileWrites
  import opened Strings
  import Utf8

  type RequestId = nat

  /** A preview adds its record to the store; an apply that made effect number `at` swaps the preview for a certificate. */
  datatype Purpose = ForPreview | ForApply(at: nat)

  /** How far a call has come; `held` is the store as it read it. */
  datatype Flight =
    | Sized(id: PreviewId, record: Record)
    | Found(id: PreviewId, record: Record, held: Store)
    | Ready(id: PreviewId, record: Record, held: Store, purpose: Purpose)
    | Staged(id: PreviewId, record: Record, held: Store, purpose: Purpose)

  /**
   The files and the calls in flight, with logs: the previews that were offered to the store, those whose calls succeeded,
   the writes that reached the disk with whether their calls succeeded, the certificates handed out, and how many renames
   put a stale store into place.
   */
  datatype Shared = Shared(
    disk: Disk,
    store: Store,
    staging: Option<Store>,
    flights: map<RequestId, Flight>,
    offered: seq<Previewed>,
    previewed: seq<Previewed>,
    written: seq<Effect>,
    issued: seq<Certificate>,
    stale: nat)

  datatype Act =
    | BeginPreview(request: RequestId, path: Option<string>, content: Option<string>, mode: Option<string>)
    | ReadStore(request: RequestId, reading: Reading)
    | BeginApply(request: RequestId, previewId: Option<string>, approved: bool, reading: Reading)
    | WriteFile(request: RequestId, ok: bool)
    | StageStore(request: RequestId, ok: bool)
    | PublishStore(request: RequestId, ok: bool)

  function Start(disk: Disk): Shared {
    Shared(disk, Store(map[], []), None, map[], [], [], [], [], 0)
  }

  function Launch(s: Shared, request: RequestId, flight: Flight): Shared {
    s.(flights := s.flights[request := flight])
  }

  function Land(s: Shared, request: RequestId): Shared {
    s.(flights := s.flights - {request})
  }

  // ---------- the steps ----------

  /** The certificate that a call adds to the log, as a list of at most one. */
  function Own(flight: Flight): seq<Certificate>
    requires flight.Ready? || flight.Staged?
  {
    if flight.purpose.ForApply? then [CertificateFor(flight.id, flight.record)] else []
  }

  /** The store that a call writes back. */
  function Saved(flight: Flight): Store
    requires flight.Ready? || flight.Staged?
  {
    Store(if flight.purpose.ForApply? then flight.held.previews - {flight.id}
          else flight.held.previews[flight.id := flight.record],
          flight.held.applied + Own(flight))
  }

  /** The store that is renamed into place is the call's own and brings back no preview that is gone. */
  predicate IsFresh(s: Shared, flight: Flight)
    requires flight.Staged?
  {
    s.staging == Some(Saved(flight)) && flight.held.previews.Keys <= s.store.previews.Keys
  }

  function Recorded(written: seq<Effect>, at: nat): seq<Effect> {
    if at < |written| then written[at := written[at].(recorded := true)] else written
  }

  /** What stops an apply before it writes its target. */
  function LookFault(store: Store, previewId: Option<string>, approved: bool): Option<WriteError> {
    if RequiredString(previewId).None? then Some(MissingField)
    else if !approved then Some(NotApproved)
    else if RequiredString(previewId).value !in store.previews then Some(PreviewNotFound)
    else None
  }

  function Look(s: Shared, request: RequestId, previewId: Option<string>, approved: bool, reading: Reading): Shared {
    var held := AsRead(s.store, reading);
    if LookFault(held, previewId, approved).Some? then s
    else Launch(s, request, Found(RequiredString(previewId).value, held.previews[RequiredString(previewId).value], held))
  }

  function Write(s: Shared, request: RequestId, flight: Flight, ok: bool): Shared
    requires flight.Found?
  {
    var disk := Written(s.disk, flight.record);
    if disk.None? || !ok then Land(s, request)
    else
      Launch(s.(disk := disk.value, written := s.written + [Effect(flight.id, flight.record, false)]), request,
             Ready(flight.id, flight.record, flight.held, ForApply(|s.written|)))
  }

  function Stage(s: Shared, request: RequestId, flight: Flight, ok: bool): Shared
    requires flight.Ready?
  {
    if !ok then Land(s, request)
    else
      Launch(s.(staging := Some(Saved(flight)),
                offered := s.offered + if flight.purpose.ForPreview? then [Previewed(flight.id, flight.record)] else []),
             request, Staged(flight.id, flight.record, flight.held, flight.purpose))
  }

  /** Renaming fails when another call has taken the temporary file. */
  function Publish(s: Shared, request: RequestId, flight: Flight, ok: bool): Shared
    requires flight.Staged?
  {
    if !ok || s.staging.None? then Land(s, request)
    else
      var after := Land(s, request).(store := s.staging.value, staging := None, issued := s.issued + Own(flight),
                                     stale := s.stale + if IsFresh(s, flight) then 0 else 1);
      match flight.purpose
      case ForPreview => after.(previewed := s.previewed + [Previewed(flight.id, flight.record)])
      case ForApply(at) => after.(written := Recorded(s.written, at))
  }

  /** One step of one call; a step that is not due changes nothing. */
  function Do(sha: string -> string, s: Shared, act: Act): Shared {
    match act
    case BeginPreview(request, path, content, mode) =>
      if request in s.flights || ArgumentFault(path, content, mode).Some? then s
      else
        var record := NewRecord(sha, s.disk, path, content, mode);
        Launch(s, request, Sized(IdFor(sha, record), record))
    case ReadStore(request, reading) =>
      if request in s.flights && s.flights[request].Sized? then
        var f := s.flights[request];
        Launch(s, request, Ready(f.id, f.record, AsRead(s.store, reading), ForPreview))
      else s
    case BeginApply(request, previewId, approved, reading) =>
      if request in s.flights then s else Look(s, request, previewId, approved, reading)
    case WriteFile(request, ok) =>
      if request in s.flights && s.flights[request].Found? then Write(s, request, s.flights[request], ok) else s
    case StageStore(request, ok) =>
      if request in s.flights && s.flights[request].Ready? then Stage(s, request, s.flights[request], ok) else s
    case PublishStore(request, ok) =>
      if request in s.flights && s.flights[request].Staged? then Publish(s, request, s.flights[request], ok) else s
  }

  function DoAll(sha: string -> string, s: Shared, acts: seq<Act>): Shared
    decreases acts
  {
    if acts == [] then s else DoAll(sha, Do(sha, s, acts[0]), acts[1..])
  }

  // ---------- where everything comes from ----------

  /** Each stored preview was offered under its id. */
  ghost predicate From(store: Store, offered: seq<Previewed>) {
    forall id | id in store.previews :: Previewed(id, store.previews[id]) in offered
  }

  ghost predicate FlightFrom(flight: Flight, offered: seq<Previewed>) {
    !flight.Sized? ==>
      && From(flight.held, offered)
      && (flight.Found? || flight.purpose.ForApply? ==>
            flight.id in flight.held.previews && flight.held.previews[flight.id] == flight.record)
  }

  ghost predicate Sources(s: Shared) {
    && From(s.store, s.offered)
    && (s.staging.Some? ==> From(s.staging.value, s.offered))
    && (forall r | r in s.flights :: FlightFrom(s.flights[r], s.offered))
    && (forall i | 0 <= i < |s.written| :: Previewed(s.written[i].id, s.written[i].record) in s.offered)
  }

  lemma StageKeepsSources(s: Shared, request: RequestId, flight: Flight, ok: bool)
    requires Sources(s) && flight.Ready? && FlightFrom(flight, s.offered)
    ensures Sources(Stage(s, request, flight, ok))
  {
    if ok {
      var after := Stage(s, request, flight, ok);
      assert forall p | p in s.offered :: p in after.offered;
      assert flight.purpose.ForPreview? ==> Previewed(flight.id, flight.record) in after.offered;
    }
  }

  lemma WriteKeepsSources(s: Shared, request: RequestId, flight: Flight, ok: bool)
    requires Sources(s) && flight.Found? && FlightFrom(flight, s.offered)
    ensures Sources(Write(s, request, flight, ok))
  {
  }

  lemma PublishKeepsSources(s: Shared, request: RequestId, flight: Flight, ok: bool)
    requires Sources(s) && flight.Staged?
    ensures Sources(Publish(s, request, flight, ok))
  {
  }

  lemma DoKeepsSources(sha: string -> string, s: Shared, act: Act)
    requires Sources(s)
    ensures Sources(Do(sha, s, act))
  {
    if act.request in s.flights {
      var flight := s.flights[act.request];
      match act
      case WriteFile(request, ok) => if flight.Found? { WriteKeepsSources(s, request, flight, ok); }
      case StageStore(request, ok) => if flight.Ready? { StageKeepsSources(s, request, flight, ok); }
      case PublishStore(request, ok) => if flight.Staged? { PublishKeepsSources(s, request, flight, ok); }
      case _ =>
    }
  }

  lemma {:induction false} DoAllKeepsSources(sha: string -> string, s: Shared, acts: seq<Act>)
    requires Sources(s)
    ensures Sources(DoAll(sha, s, acts))
    decreases acts
  {
    if acts != [] {
      DoKeepsSources(sha, s, acts[0]);
      DoAllKeepsSources(sha, Do(sha, s, acts[0]), acts[1..]);
    }
  }

  // ---------- effects ----------

  predicate IsApplying(flight: Flight) {
    (flight.Ready? || flight.Staged?) && flight.purpose.ForApply?
  }

  predicate Applying(s: Shared, r: RequestId) {
    r in s.flights && IsApplying(s.flights[r])
  }

  /** Each apply past its write stands for one unrecorded effect of its own. */
  ghost predicate Owned(s: Shared) {
    && (forall r | Applying(s, r) :: EffectOf(s.flights[r], s.written))
    && (forall r, q | Applying(s, r) && Applying(s, q) && r != q :: s.flights[r].purpose.at != s.flights[q].purpose.at)
  }

  /** The disk is the fold of the effects, and the recorded ones are those with a certificate. */
  ghost predicate Logged(start: Disk, s: Shared) {
    Fold(start, s.written) == Some(s.disk) && multiset(s.issued) == multiset(Certificates(s.written))
  }

  predicate EffectOf(flight: Flight, written: seq<Effect>)
    requires IsApplying(flight)
  {
    flight.purpose.at < |written| && written[flight.purpose.at] == Effect(flight.id, flight.record, false)
  }

  lemma {:induction false} RecordedFolds(disk: Disk, written: seq<Effect>, at: nat)
    ensures Fold(disk, Recorded(written, at)) == Fold(disk, written)
  {
    FoldSameRecords(disk, Recorded(written, at), written);
  }

  lemma RecordedFront(written: seq<Effect>, at: nat)
    requires at < |written|
    ensures var n := |written| - 1;
            Recorded(written, at)[..n] == if at < n then Recorded(written[..n], at) else written[..n]
  {
  }

  /** Recording an effect adds its certificate. */
  lemma {:induction false} RecordedCertificates(written: seq<Effect>, at: nat)
    requires at < |written| && !written[at].recorded
    ensures multiset(Certificates(Recorded(written, at)))
            == multiset(Certificates(written)) + multiset{CertificateFor(written[at].id, written[at].record)}
    decreases |written|
  {
    RecordedFront(written, at);
    if at < |written| - 1 {
      RecordedCertificates(written[..|written| - 1], at);
    }
  }

  /** Recording an effect takes it off the lost ones. */
  lemma {:induction false} RecordedCounts(written: seq<Effect>, at: nat, id: PreviewId)
    requires at < |written| && !written[at].recorded
    ensures AppliesOf(Recorded(written, at), id) == AppliesOf(written, id)
    ensures LostOf(written, id) == LostOf(Recorded(written, at), id) + if written[at].id == id then 1 else 0
    decreases |written|
  {
    RecordedFront(written, at);
    if at < |written| - 1 {
      RecordedCounts(written[..|written| - 1], at, id);
    }
  }

  predicate Writes(s: Shared, act: Act) {
    act.WriteFile? && act.request in s.flights && s.flights[act.request].Found?
  }

  predicate Renames(s: Shared, act: Act) {
    act.PublishStore? && act.request in s.flights && s.flights[act.request].Staged?
  }

  /** Only writes and renames touch the target files, the store, and the logs of what was done. */
  lemma NothingDone(sha: string -> string, s: Shared, act: Act)
    requires !Writes(s, act) && !Renames(s, act)
    ensures var after := Do(sha, s, act);
            && after.disk == s.disk && after.store == s.store && after.written == s.written && after.issued == s.issued
            && after.previewed == s.previewed && after.stale == s.stale
  {
  }

  lemma DoKeepsOwned(sha: string -> string, s: Shared, act: Act)
    requires Owned(s)
    ensures Owned(Do(sha, s, act))
  {
    var after := Do(sha, s, act);
    if Writes(s, act) {
      assert forall r | r != act.request && Applying(after, r) :: Applying(s, r) && after.flights[r] == s.flights[r];
    } else if Renames(s, act) && Applying(s, act.request) {
      assert forall r | Applying(after, r) :: r != act.request && Applying(s, r) && after.flights[r] == s.flights[r];
    } else {
      OthersStay(sha, s, act);
    }
  }

  /** Apart from writes and renames, a step leaves effects alone and makes no apply of what was none. */
  lemma OthersStay(sha: string -> string, s: Shared, act: Act)
    requires !Writes(s, act) && (Renames(s, act) ==> !Applying(s, act.request))
    ensures var after := Do(sha, s, act);
            && after.written == s.written
            && forall r | Applying(after, r) ::
                 && Applying(s, r) && after.flights[r].purpose == s.flights[r].purpose
                 && after.flights[r].id == s.flights[r].id && after.flights[r].record == s.flights[r].record
  {
  }

  lemma IssuingKeepsCertificates(issued: seq<Certificate>, written: seq<Effect>, at: nat)
    requires multiset(issued) == multiset(Certificates(written)) && at < |written| && !written[at].recorded
    ensures multiset(issued + [CertificateFor(written[at].id, written[at].record)]) == multiset(Certificates(Recorded(written, at)))
  {
    RecordedCertificates(written, at);
  }

  lemma PublishKeepsLogged(start: Disk, s: Shared, request: RequestId, flight: Flight, ok: bool)
    requires Logged(start, s) && Owned(s) && request in s.flights && flight == s.flights[request] && flight.Staged?
    ensures Logged(start, Publish(s, request, flight, ok))
  {
    if ok && s.staging.Some? {
      if flight.purpose.ForApply? {
        assert Applying(s, request);
        RecordedFolds(start, s.written, flight.purpose.at);
        IssuingKeepsCertificates(s.issued, s.written, flight.purpose.at);
      } else {
        assert s.issued + Own(flight) == s.issued;
      }
    }
  }

  lemma WriteKeepsLogged(start: Disk, s: Shared, request: RequestId, flight: Flight, ok: bool)
    requires Logged(start, s) && flight.Found?
    ensures Logged(start, Write(s, request, flight, ok))
  {
    LastOf(s.written, Effect(flight.id, flight.record, false));
  }

  lemma DoKeepsLogged(sha: string -> string, start: Disk, s: Shared, act: Act)
    requires Logged(start, s) && Owned(s)
    ensures Logged(start, Do(sha, s, act))
  {
    if Writes(s, act) {
      WriteKeepsLogged(start, s, act.request, s.flights[act.request], act.ok);
    } else if Renames(s, act) {
      PublishKeepsLogged(start, s, act.request, s.flights[act.request], act.ok);
    } else {
      NothingDone(sha, s, act);
    }
  }

  lemma {:induction false} DoAllKeepsLogged(sha: string -> string, start: Disk, s: Shared, acts: seq<Act>)
    requires Logged(start, s) && Owned(s)
    ensures Logged(start, DoAll(sha, s, acts)) && Owned(DoAll(sha, s, acts))
    decreases acts
  {
    if acts != [] {
      DoKeepsOwned(sha, s, acts[0]);
      DoKeepsLogged(sha, start, s, acts[0]);
      DoAllKeepsLogged(sha, start, Do(sha, s, acts[0]), acts[1..]);
    }
  }

  // ---------- how often an id is applied ----------

  function Kept(store: Store, id: PreviewId): nat {
    if id in store.previews then 1 else 0
  }

  /** Applies and what is left to apply, against previews, unrecorded effects and twice the stale renames. */
  predicate Accounted(s: Shared, id: PreviewId) {
    AppliesOf(s.written, id) + Kept(s.store, id) <= PreviewsOf(s.previewed, id) + LostOf(s.written, id) + 2 * s.stale
  }

  lemma PublishKeepsAccount(s: Shared, request: RequestId, flight: Flight, ok: bool, id: PreviewId)
    requires Sources(s) && Owned(s) && Accounted(s, id)
    requires request in s.flights && flight == s.flights[request] && flight.Staged?
    ensures Accounted(Publish(s, request, flight, ok), id)
  {
    if ok && s.staging.Some? {
      if flight.purpose.ForApply? {
        assert Applying(s, request) && FlightFrom(flight, s.offered);
        RecordedCounts(s.written, flight.purpose.at, id);
      } else {
        LastOf(s.previewed, Previewed(flight.id, flight.record));
      }
    }
  }

  lemma DoKeepsAccount(sha: string -> string, s: Shared, act: Act, id: PreviewId)
    requires Sources(s) && Owned(s) && Accounted(s, id)
    ensures Accounted(Do(sha, s, act), id)
  {
    if Writes(s, act) {
      LastOf(s.written, Effect(s.flights[act.request].id, s.flights[act.request].record, false));
    } else if Renames(s, act) {
      PublishKeepsAccount(s, act.request, s.flights[act.request], act.ok, id);
    } else {
      NothingDone(sha, s, act);
    }
  }

  lemma {:induction false} DoAllKeepsAccount(sha: string -> string, s: Shared, acts: seq<Act>, id: PreviewId)
    requires Sources(s) && Owned(s) && Accounted(s, id)
    ensures Accounted(DoAll(sha, s, acts), id)
    decreases acts
  {
    if acts != [] {
      DoKeepsSources(sha, s, acts[0]);
      DoKeepsOwned(sha, s, acts[0]);
      DoKeepsAccount(sha, s, acts[0], id);
      DoAllKeepsAccount(sha, Do(sha, s, acts[0]), acts[1..], id);
    }
  }

  /**
   Every interleaving of previews and applies, whatever cannot be read or written on the way: the disk is the initial disk
   with exactly the logged writes folded in order, each of them one that was previewed under its id; each write whose call
   succeeded has its certificate, and there are no others; and the applies of an id never outnumber its previews by more
   than the applies whose call did not succeed and twice the renames that put a stale store into place.
   */
  lemma EveryInterleaving(sha: string -> string, disk: Disk, acts: seq<Act>, id: PreviewId)
    ensures var s := DoAll(sha, Start(disk), acts);
            && Fold(disk, s.written) == Some(s.disk)
            && (forall i | 0 <= i < |s.written| :: Previewed(s.written[i].id, s.written[i].record) in s.offered)
            && multiset(s.issued) == multiset(Certificates(s.written))
            && AppliesOf(s.written, id) <= PreviewsOf(s.previewed, id) + LostOf(s.written, id) + 2 * s.stale
  {
    var s := Start(disk);
    DoAllKeepsSources(sha, s, acts);
    DoAllKeepsLogged(sha, disk, s, acts);
    DoAllKeepsAccount(sha, s, acts, id);
  }

  // ---------- when the log is up to date ----------

  /** The store holds every certificate that was handed out, in order, and no other. */
  predicate Current(s: Shared) {
    s.store.applied == s.issued
  }

  /** What is renamed into place is the log then stored, with the call's own certificate. */
  predicate InStep(s: Shared, act: Act) {
    Renames(s, act) && act.ok && s.staging.Some? ==>
      s.staging.value.applied == s.store.applied + Own(s.flights[act.request])
  }

  ghost predicate AlwaysCurrent(sha: string -> string, s: Shared, acts: seq<Act>)
    decreases acts
  {
    Current(s) && (acts != [] ==> AlwaysCurrent(sha, Do(sha, s, acts[0]), acts[1..]))
  }

  ghost predicate AllInStep(sha: string -> string, s: Shared, acts: seq<Act>)
    decreases acts
  {
    acts != [] ==> InStep(s, acts[0]) && AllInStep(sha, Do(sha, s, acts[0]), acts[1..])
  }

  lemma StaysCurrentIff(sha: string -> string, s: Shared, act: Act)
    requires Current(s)
    ensures Current(Do(sha, s, act)) <==> InStep(s, act)
  {
    if !Writes(s, act) && !Renames(s, act) {
      NothingDone(sha, s, act);
    }
  }

  /**
   In every interleaving: the store holds all certificates handed out, in order, at every moment exactly when each rename
   puts into place the log then stored, with the call's own certificate.
   */
  lemma {:induction false} LogCurrentIff(sha: string -> string, s: Shared, acts: seq<Act>)
    requires Current(s)
    ensures AlwaysCurrent(sha, s, acts) <==> AllInStep(sha, s, acts)
    decreases acts
  {
    if acts != [] {
      StaysCurrentIff(sha, s, acts[0]);
      if Current(Do(sha, s, acts[0])) {
        LogCurrentIff(sha, Do(sha, s, acts[0]), acts[1..]);
      }
    }
  }

  /** A call that renames its own store into place is in step exactly when the log is still the one it read. */
  lemma InStepIff(s: Shared, act: Act)
    requires Renames(s, act) && act.ok && s.staging == Some(Saved(s.flights[act.request]))
    ensures InStep(s, act) <==> s.flights[act.request].held.applied == s.store.applied
  {
    var flight := s.flights[act.request];
    if flight.purpose.ForApply? {
      SameButLast(flight.held.applied, s.store.applied, CertificateFor(flight.id, flight.record));
    } else {
      assert flight.held.applied + [] == flight.held.applied && s.store.applied + [] == s.store.applied;
    }
  }

  // ---------- calls that do not overlap ----------

  predicate Begins(act: Act) {
    act.BeginPreview? || act.BeginApply?
  }

  /** Every call begins when no other is in flight. */
  ghost predicate Alone(sha: string -> string, s: Shared, acts: seq<Act>)
    decreases acts
  {
    acts != [] ==>
      (Begins(acts[0]) ==> s.flights == map[]) && Alone(sha, Do(sha, s, acts[0]), acts[1..])
  }

  /** A call reads the store as it stays until the call renames its own into place. */
  predicate Undisturbed(s: Shared, flight: Flight) {
    && (!flight.Sized? ==>
          && flight.held.previews.Keys <= s.store.previews.Keys
          && (flight.held.applied == s.store.applied || flight.held.applied == []))
    && (flight.Staged? ==> s.staging == Some(Saved(flight)))
  }

  ghost predicate Single(s: Shared) {
    && (forall r, q | r in s.flights && q in s.flights :: r == q)
    && (forall r | r in s.flights :: Undisturbed(s, s.flights[r]))
  }

  lemma DoKeepsSingle(sha: string -> string, s: Shared, act: Act)
    requires Single(s) && (Begins(act) ==> s.flights == map[])
    ensures Single(Do(sha, s, act)) && Do(sha, s, act).stale == s.stale
  {
    var after := Do(sha, s, act);
    assert act.request in s.flights ==> forall r | r in after.flights :: r == act.request;
  }

  lemma {:induction false} AloneNeverStale(sha: string -> string, s: Shared, acts: seq<Act>)
    requires Single(s) && Alone(sha, s, acts)
    ensures DoAll(sha, s, acts).stale == s.stale
    decreases acts
  {
    if acts != [] {
      DoKeepsSingle(sha, s, acts[0]);
      AloneNeverStale(sha, Do(sha, s, acts[0]), acts[1..]);
    }
  }

  /** Calls that do not overlap never bring more applies of an id than previews and unrecorded effects. */
  lemma AloneIsAccounted(sha: string -> string, disk: Disk, acts: seq<Act>, id: PreviewId)
    requires Alone(sha, Start(disk), acts)
    ensures var s := DoAll(sha, Start(disk), acts);
            AppliesOf(s.written, id) <= PreviewsOf(s.previewed, id) + LostOf(s.written, id)
  {
    AloneNeverStale(sha, Start(disk), acts);
    EveryInterleaving(sha, disk, acts, id);
  }

  /** A rename of a call that nothing disturbed is out of step exactly when the call found none of the log there was. */
  lemma AloneInStepIff(s: Shared, act: Act)
    requires Single(s) && Renames(s, act) && act.ok
    ensures InStep(s, act) <==> s.flights[act.request].held.applied == [] ==> s.store.applied == []
  {
    assert Undisturbed(s, s.flights[act.request]);
    InStepIff(s, act);
  }

  // ---------- overlapping applies ----------

  lemma {:induction false} DoAllConcat(sha: string -> string, s: Shared, acts: seq<Act>, more: seq<Act>)
    ensures DoAll(sha, s, acts + more) == DoAll(sha, DoAll(sha, s, acts), more)
    decreases acts
  {
    if acts == [] {
      assert acts + more == more;
    } else {
      assert (acts + more)[0] == acts[0] && (acts + more)[1..] == acts[1..] + more;
      DoAllConcat(sha, Do(sha, s, acts[0]), acts[1..], more);
    }
  }

  /** Requests 0 to n - 1 look up the same preview. */
  function Looks(id: PreviewId, n: nat): seq<Act> {
    if n == 0 then [] else Looks(id, n - 1) + [BeginApply(n - 1, Some(id), true, WHOLE)]
  }

  function Finish(r: RequestId): seq<Act> {
    [WriteFile(r, true), StageStore(r, true), PublishStore(r, true)]
  }

  /** Requests k to n - 1 write their target and the store, one after the other. */
  function Finishes(k: nat, n: nat): seq<Act>
    requires k <= n
    decreases n - k
  {
    if k == n then [] else Finish(k) + Finishes(k + 1, n)
  }

  /** Each request has found the record in the same store. */
  ghost predicate AllFound(s: Shared, id: PreviewId, record: Record, held: Store, k: nat, n: nat) {
    forall r | k <= r < n :: r in s.flights && s.flights[r] == Found(id, record, held)
  }

  lemma LookIs(sha: string -> string, s: Shared, id: PreviewId, r: RequestId)
    requires r !in s.flights && id in s.store.previews && RequiredString(Some(id)) == Some(id)
    ensures DoAll(sha, s, [BeginApply(r, Some(id), true, WHOLE)])
            == Launch(s, r, Found(id, s.store.previews[id], s.store))
  {
    var act := BeginApply(r, Some(id), true, WHOLE);
    assert AsRead(s.store, WHOLE) == s.store;
    assert DoAll(sha, s, [act]) == DoAll(sha, Do(sha, s, act), []);
  }

  /** The flights of requests 0 to n - 1 that have found the same preview in the same store. */
  function AllLooking(flight: Flight, n: nat): map<RequestId, Flight> {
    if n == 0 then map[] else AllLooking(flight, n - 1)[n - 1 := flight]
  }

  lemma {:induction false} AllLookingAre(flight: Flight, n: nat)
    ensures forall r: RequestId :: r in AllLooking(flight, n) <==> r < n
    ensures forall r: RequestId | r in AllLooking(flight, n) :: AllLooking(flight, n)[r] == flight
  {
    if n > 0 {
      AllLookingAre(flight, n - 1);
    }
  }

  /** `run(n)` stands for what n lookups lead to. */
  lemma {:induction false} LooksFind(run: nat -> Shared, s: Shared, flight: Flight, n: nat)
    requires s.flights == map[] && run(0) == s
    requires forall k: nat | k !in run(k).flights && run(k).store == s.store :: run(k + 1) == Launch(run(k), k, flight)
    ensures run(n) == s.(flights := AllLooking(flight, n))
  {
    if n > 0 {
      LooksFind(run, s, flight, n - 1);
      AllLookingAre(flight, n - 1);
    }
  }

  lemma DoThree(sha: string -> string, s: Shared, a: Act, b: Act, c: Act)
    ensures DoAll(sha, s, [a, b, c]) == Do(sha, Do(sha, Do(sha, s, a), b), c)
  {
    var s1 := Do(sha, s, a);
    var s2 := Do(sha, s1, b);
    assert [a, b, c][1..] == [b, c] && [b, c][1..] == [c] && [c][1..] == [];
    assert DoAll(sha, s2, [c]) == DoAll(sha, Do(sha, s2, c), []);
    assert DoAll(sha, s1, [b, c]) == DoAll(sha, s2, [c]);
  }

  lemma WriteIs(sha: string -> string, s: Shared, r: RequestId)
    requires r in s.flights && s.flights[r].Found? && Written(s.disk, s.flights[r].record).Some?
    ensures var f := s.flights[r];
            Do(sha, s, WriteFile(r, true))
            == s.(disk := Written(s.disk, f.record).value, written := s.written + [Effect(f.id, f.record, false)],
                  flights := s.flights[r := Ready(f.id, f.record, f.held, ForApply(|s.written|))])
  {
  }

  lemma StageIs(sha: string -> string, s: Shared, r: RequestId)
    requires r in s.flights && s.flights[r].Ready? && s.flights[r].purpose.ForApply?
    ensures var f := s.flights[r];
            Do(sha, s, StageStore(r, true))
            == s.(staging := Some(Saved(f)), flights := s.flights[r := Staged(f.id, f.record, f.held, f.purpose)])
  {
    assert s.offered + [] == s.offered;
  }

  predicate CanFinish(s: Shared, r: RequestId) {
    r in s.flights && s.flights[r].Found? && Written(s.disk, s.flights[r].record).Some?
  }

  /** The state after an apply that found its preview has taken its remaining steps and nothing failed. */
  function Done(s: Shared, r: RequestId): Shared
    requires CanFinish(s, r)
  {
    var f := s.flights[r];
    var own := Ready(f.id, f.record, f.held, ForApply(|s.written|));
    s.(disk := Written(s.disk, f.record).value, store := Saved(own), staging := None, flights := s.flights - {r},
       written := s.written + [Effect(f.id, f.record, true)], issued := s.issued + Own(own),
       stale := s.stale + if f.held.previews.Keys <= s.store.previews.Keys then 0 else 1)
  }

  lemma FinishIs(sha: string -> string, s: Shared, r: RequestId)
    requires CanFinish(s, r)
    ensures DoAll(sha, s, Finish(r)) == Done(s, r)
  {
    DoThree(sha, s, WriteFile(r, true), StageStore(r, true), PublishStore(r, true));
    WriteIs(sha, s, r);
    var s1 := Do(sha, s, WriteFile(r, true));
    StageIs(sha, s1, r);
    var f := s.flights[r];
    assert Recorded(s.written + [Effect(f.id, f.record, false)], |s.written|) == s.written + [Effect(f.id, f.record, true)];
    assert s.flights[r := Staged(f.id, f.record, f.held, ForApply(|s.written|))] - {r} == s.flights - {r};
  }

  /** The disk after the same record was written n times. */
  function WrittenTimes(disk: Disk, record: Record, n: nat): Disk
    requires Repeatable(record)
    decreases n
  {
    if n == 0 then disk else WrittenTimes(Written(disk, record).value, record, n - 1)
  }

  /** What an apply can change: files, and how often `id` was applied, applied without success and certified by anybody. */
  datatype Tally = Tally(disk: Disk, store: Store, previewed: seq<Previewed>, applies: nat, lost: nat, issued: nat)

  function TallyOf(s: Shared, id: PreviewId): Tally {
    Tally(s.disk, s.store, s.previewed, AppliesOf(s.written, id), LostOf(s.written, id), |s.issued|)
  }

  function Swapped(held: Store, id: PreviewId, record: Record): Store {
    Store(held.previews - {id}, held.applied + [CertificateFor(id, record)])
  }

  /** `m` applies of `record` that all read the store as `held`. */
  function AppliedTimes(t: Tally, id: PreviewId, record: Record, held: Store, m: nat): Tally
    requires Repeatable(record)
    decreases m
  {
    if m == 0 then t
    else
      var next := Tally(Written(t.disk, record).value, Swapped(held, id, record), t.previewed, t.applies + 1, t.lost, t.issued + 1);
      AppliedTimes(next, id, record, held, m - 1)
  }

  lemma {:induction false} AppliedTimesIs(t: Tally, id: PreviewId, record: Record, held: Store, m: nat)
    requires Repeatable(record) && m >= 1
    ensures AppliedTimes(t, id, record, held, m)
            == Tally(WrittenTimes(t.disk, record, m), Swapped(held, id, record), t.previewed, t.applies + m, t.lost, t.issued + m)
    decreases m
  {
    var next := Tally(Written(t.disk, record).value, Swapped(held, id, record), t.previewed, t.applies + 1, t.lost, t.issued + 1);
    if m > 1 {
      AppliedTimesIs(next, id, record, held, m - 1);
    } else {
      assert AppliedTimes(next, id, record, held, 0) == next && WrittenTimes(next.disk, record, 0) == next.disk;
    }
  }

  lemma FinishHead(sha: string -> string, s: Shared, k: nat, n: nat)
    requires k < n && CanFinish(s, k)
    ensures DoAll(sha, s, Finishes(k, n)) == DoAll(sha, Done(s, k), Finishes(k + 1, n))
  {
    FinishIs(sha, s, k);
    DoAllConcat(sha, s, Finish(k), Finishes(k + 1, n));
  }

  lemma DoneTally(s: Shared, id: PreviewId, record: Record, held: Store, k: nat, n: nat)
    requires k < n && AllFound(s, id, record, held, k, n) && Repeatable(record)
    ensures AllFound(Done(s, k), id, record, held, k + 1, n)
    ensures AppliedTimes(TallyOf(s, id), id, record, held, n - k)
            == AppliedTimes(TallyOf(Done(s, k), id), id, record, held, n - (k + 1))
  {
    LastOf(s.written, Effect(id, record, true));
  }

  /** `run(t, k)` stands for what follows from `t` when requests k to n - 1 finish. */
  lemma {:induction false} FinishesAre(run: (Shared, nat) -> Shared, s: Shared, id: PreviewId, record: Record, held: Store, k: nat, n: nat)
    requires k <= n && AllFound(s, id, record, held, k, n) && Repeatable(record)
    requires forall t :: run(t, n) == t
    requires forall t, j: nat | j < n && CanFinish(t, j) :: run(t, j) == run(Done(t, j), j + 1)
    ensures TallyOf(run(s, k), id) == AppliedTimes(TallyOf(s, id), id, record, held, n - k)
    decreases n - k
  {
    if k < n {
      DoneTally(s, id, record, held, k, n);
      FinishesAre(run, Done(s, k), id, record, held, k + 1, n);
    }
  }

  /**
   n applies of one stored replace or append that all read the store before any of them writes it, all reads and writes
   succeeding: each writes the file and hands out a certificate, no preview is added and nothing is lost, yet the log grows
   by a single certificate.
   */
  lemma OverlappingApplies(sha: string -> string, s: Shared, id: PreviewId, n: nat)
    requires s.flights == map[] && id in s.store.previews && n >= 1
    requires Repeatable(s.store.previews[id]) && RequiredString(Some(id)) == Some(id)
    ensures var record := s.store.previews[id];
            var after := DoAll(sha, s, Looks(id, n) + Finishes(0, n));
            && AppliesOf(after.written, id) == AppliesOf(s.written, id) + n
            && LostOf(after.written, id) == LostOf(s.written, id) && after.previewed == s.previewed
            && |after.issued| == |s.issued| + n
            && after.store.applied == s.store.applied + [CertificateFor(id, record)]
            && after.disk == WrittenTimes(s.disk, record, n)
  {
    OverlapFinishes(sha, s, id, n);
  }

  lemma LooksAre(sha: string -> string, s: Shared, id: PreviewId, n: nat)
    requires s.flights == map[] && id in s.store.previews && RequiredString(Some(id)) == Some(id)
    ensures DoAll(sha, s, Looks(id, n)) == s.(flights := AllLooking(Found(id, s.store.previews[id], s.store), n))
  {
    var flight := Found(id, s.store.previews[id], s.store);
    var run: nat -> Shared := (k: nat) => DoAll(sha, s, Looks(id, k));
    forall k: nat | k !in run(k).flights && run(k).store == s.store ensures run(k + 1) == Launch(run(k), k, flight) {
      DoAllConcat(sha, s, Looks(id, k), [BeginApply(k, Some(id), true, WHOLE)]);
      LookIs(sha, run(k), id, k);
    }
    LooksFind(run, s, flight, n);
  }

  lemma FinishAll(sha: string -> string, s: Shared, id: PreviewId, record: Record, held: Store, n: nat)
    requires AllFound(s, id, record, held, 0, n) && Repeatable(record)
    ensures TallyOf(DoAll(sha, s, Finishes(0, n)), id) == AppliedTimes(TallyOf(s, id), id, record, held, n)
  {
    var run: (Shared, nat) -> Shared := (t: Shared, k: nat) => if k <= n then DoAll(sha, t, Finishes(k, n)) else t;
    forall t, j: nat | j < n && CanFinish(t, j) ensures run(t, j) == run(Done(t, j), j + 1) {
      FinishHead(sha, t, j, n);
    }
    FinishesAre(run, s, id, record, held, 0, n);
  }

  lemma OverlapFinishes(sha: string -> string, s: Shared, id: PreviewId, n: nat)
    requires s.flights == map[] && id in s.store.previews && n >= 1
    requires Repeatable(s.store.previews[id]) && RequiredString(Some(id)) == Some(id)
    ensures var record := s.store.previews[id];
            TallyOf(DoAll(sha, s, Looks(id, n) + Finishes(0, n)), id)
            == Tally(WrittenTimes(s.disk, record, n), Swapped(s.store, id, record), s.previewed,
                     AppliesOf(s.written, id) + n, LostOf(s.written, id), |s.issued| + n)
  {
    var record := s.store.previews[id];
    var looked := s.(flights := AllLooking(Found(id, record, s.store), n));
    DoAllConcat(sha, s, Looks(id, n), Finishes(0, n));
    LooksAre(sha, s, id, n);
    AllLookingAre(Found(id, record, s.store), n);
    FinishAll(sha, looked, id, record, s.store, n);
    AppliedTimesIs(TallyOf(s, id), id, record, s.store, n);
    assert TallyOf(looked, id) == TallyOf(s, id);
  }

  /** So equal certificates can stand for different disks: one apply of an append, and two overlapping ones. */
  lemma SameLogOtherDisk(sha: string -> string, s: Shared, id: PreviewId)
    requires s.flights == map[] && id in s.store.previews && RequiredString(Some(id)) == Some(id)
    requires s.store.previews[id].mode == "append" && s.store.previews[id].content != ""
    ensures var once := DoAll(sha, s, Looks(id, 1) + Finishes(0, 1));
            var twice := DoAll(sha, s, Looks(id, 2) + Finishes(0, 2));
            once.store == twice.store && once.disk != twice.disk
  {
    var record := s.store.previews[id];
    OverlapFinishes(sha, s, id, 1);
    OverlapFinishes(sha, s, id, 2);
    AppendGrows(s.disk, record);
  }

  lemma AppendGrows(disk: Disk, record: Record)
    requires record.mode == "append" && record.content != ""
    ensures WrittenTimes(disk, record, 1) != WrittenTimes(disk, record, 2)
  {
    var once := Written(disk, record).value;
    var twice := Written(once, record).value;
    assert "append" != "create" && "append" != "replace";
    assert |twice[record.path]| == |once[record.path]| + |Utf8.Encode(record.content)|;
    assert WrittenTimes(twice, record, 0) == twice && WrittenTimes(once, record, 0) == once;
    assert WrittenTimes(once, record, 1) == twice && WrittenTimes(disk, record, 1) == once;
  }

  // ---------- how often one preview can be applied ----------

  ghost predicate NoPreviews(acts: seq<Act>) {
    forall i | 0 <= i < |acts| :: !acts[i].BeginPreview?
  }

  /** Every file can be read and written whenever a call comes to it. */
  predicate Succeeds(act: Act) {
    match act
    case BeginPreview(_, _, _, _) => true
    case ReadStore(_, reading) => reading == WHOLE
    case BeginApply(_, _, _, reading) => reading == WHOLE
    case WriteFile(_, ok) => ok
    case StageStore(_, ok) => ok
    case PublishStore(_, ok) => ok
  }

  ghost predicate NothingFails(acts: seq<Act>) {
    forall i | 0 <= i < |acts| :: Succeeds(acts[i])
  }

  lemma SucceedsIs(r: RequestId, path: Option<string>, reading: Reading, ok: bool)
    ensures Succeeds(BeginPreview(r, path, path, path))
    ensures Succeeds(ReadStore(r, reading)) && Succeeds(BeginApply(r, path, ok, reading)) ==>
              forall store :: AsRead(store, reading) == store
    ensures Succeeds(ReadStore(r, WHOLE)) && Succeeds(BeginApply(r, path, ok, WHOLE))
    ensures Succeeds(WriteFile(r, ok)) == Succeeds(StageStore(r, ok)) == Succeeds(PublishStore(r, ok)) == ok
  {
  }

  lemma {:induction false} LooksSucceed(id: PreviewId, n: nat)
    ensures NoPreviews(Looks(id, n)) && NothingFails(Looks(id, n))
  {
    if n > 0 {
      LooksSucceed(id, n - 1);
    }
  }

  lemma {:induction false} FinishesSucceed(k: nat, n: nat)
    requires k <= n
    ensures NoPreviews(Finishes(k, n)) && NothingFails(Finishes(k, n))
    decreases n - k
  {
    if k < n {
      FinishesSucceed(k + 1, n);
    }
  }

  /** What the store holds under `id`, if anything, is `record`. */
  predicate Holds(store: Store, id: PreviewId, record: Record) {
    id in store.previews ==> store.previews[id] == record
  }

  predicate Carries(s: Shared, flight: Flight, id: PreviewId, record: Record) {
    && !flight.Sized? && (flight.Found? || flight.purpose.ForApply?)
    && Holds(flight.held, id, record) && (flight.id == id ==> flight.record == record)
    && (flight.Staged? && s.staging.Some? ==> Holds(s.staging.value, id, record))
  }

  /** Only applies are in flight, and nothing but `record` stands for `id` anywhere. */
  ghost predicate OneRecord(s: Shared, id: PreviewId, record: Record) {
    Holds(s.store, id, record) && forall r | r in s.flights :: Carries(s, s.flights[r], id, record)
  }

  /** How often the id was applied, and once more if it can still be. */
  function LeftToApply(s: Shared, id: PreviewId, record: Record): nat {
    AppliesOf(s.written, id) + if Written(s.disk, record).None? then 0 else 1
  }

  lemma DoKeepsOneRecord(sha: string -> string, s: Shared, act: Act, id: PreviewId, record: Record)
    requires OneRecord(s, id, record) && !act.BeginPreview?
    ensures OneRecord(Do(sha, s, act), id, record)
  {
    var after := Do(sha, s, act);
    forall r | r in after.flights ensures Carries(after, after.flights[r], id, record) {
      if r != act.request {
        assert after.flights[r] == s.flights[r];
      }
      if act.request in s.flights {
        assert Carries(s, s.flights[act.request], id, record);
      }
    }
  }

  lemma CreateLeavesLess(sha: string -> string, s: Shared, act: Act, id: PreviewId, record: Record)
    requires OneRecord(s, id, record) && !Repeatable(record)
    ensures LeftToApply(Do(sha, s, act), id, record) <= LeftToApply(s, id, record)
  {
    if Writes(s, act) {
      var flight := s.flights[act.request];
      LastOf(s.written, Effect(flight.id, flight.record, false));
      assert Carries(s, flight, id, record);
    } else if Renames(s, act) {
      var flight := s.flights[act.request];
      if flight.purpose.ForApply? {
        RecordingCountsNothing(s.written, flight.purpose.at, id);
      }
    } else {
      NothingDone(sha, s, act);
    }
  }

  lemma {:induction false} RecordingCountsNothing(written: seq<Effect>, at: nat, id: PreviewId)
    ensures AppliesOf(Recorded(written, at), id) == AppliesOf(written, id)
    decreases |written|
  {
    if at < |written| {
      RecordedFront(written, at);
      RecordingCountsNothing(written[..|written| - 1], at, id);
    }
  }

  lemma {:induction false} CreatedOnceInAll(sha: string -> string, s: Shared, acts: seq<Act>, id: PreviewId, record: Record)
    requires OneRecord(s, id, record) && !Repeatable(record) && NoPreviews(acts)
    ensures LeftToApply(DoAll(sha, s, acts), id, record) <= LeftToApply(s, id, record)
    decreases acts
  {
    if acts != [] {
      DoKeepsOneRecord(sha, s, acts[0], id, record);
      CreateLeavesLess(sha, s, acts[0], id, record);
      CreatedOnceInAll(sha, Do(sha, s, acts[0]), acts[1..], id, record);
    }
  }

  ghost predicate NoneUnder(s: Shared, id: PreviewId) {
    forall r | r in s.flights :: s.flights[r].id != id
  }

  lemma UnnamedStep(sha: string -> string, s: Shared, act: Act, id: PreviewId)
    requires NoneUnder(s, id) && !act.BeginPreview? && RequiredString(Some(id)) != Some(id)
    ensures NoneUnder(Do(sha, s, act), id) && AppliesOf(Do(sha, s, act).written, id) == AppliesOf(s.written, id)
  {
    if act.BeginApply? && RequiredString(act.previewId).Some? {
      TrimTwice(act.previewId.value);
    } else if Writes(s, act) {
      LastOf(s.written, Effect(s.flights[act.request].id, s.flights[act.request].record, false));
    } else if Renames(s, act) && s.flights[act.request].purpose.ForApply? {
      RecordingCountsNothing(s.written, s.flights[act.request].purpose.at, id);
    }
  }

  lemma {:induction false} UnnamedNeverApplied(sha: string -> string, s: Shared, acts: seq<Act>, id: PreviewId)
    requires NoneUnder(s, id) && NoPreviews(acts) && RequiredString(Some(id)) != Some(id)
    ensures AppliesOf(DoAll(sha, s, acts).written, id) == AppliesOf(s.written, id)
    decreases acts
  {
    if acts != [] {
      UnnamedStep(sha, s, acts[0], id);
      UnnamedNeverApplied(sha, Do(sha, s, acts[0]), acts[1..], id);
    }
  }

  /**
   With a file system that never fails, some interleaving of applies takes a stored preview to the disk twice exactly when
   the preview replaces or appends (and can be named at all: calls trim the ids they are given).
   */
  lemma OverlapAppliesTwiceIff(sha: string -> string, s: Shared, id: PreviewId)
    requires s.flights == map[] && id in s.store.previews
    ensures (exists acts | NoPreviews(acts) && NothingFails(acts) ::
               AppliesOf(DoAll(sha, s, acts).written, id) >= AppliesOf(s.written, id) + 2)
            <==> Repeatable(s.store.previews[id]) && RequiredString(Some(id)) == Some(id)
  {
    var record := s.store.previews[id];
    if Repeatable(record) && RequiredString(Some(id)) == Some(id) {
      var acts := Looks(id, 2) + Finishes(0, 2);
      LooksSucceed(id, 2);
      FinishesSucceed(0, 2);
      OverlappingApplies(sha, s, id, 2);
      assert NoPreviews(acts) && NothingFails(acts);
    } else {
      forall acts | NoPreviews(acts) ensures AppliesOf(DoAll(sha, s, acts).written, id) < AppliesOf(s.written, id) + 2 {
        if RequiredString(Some(id)) != Some(id) {
          UnnamedNeverApplied(sha, s, acts, id);
        } else {
          CreatedOnceInAll(sha, s, acts, id, record);
        }
      }
    }
  }

  // ---------- what an id stands for ----------

  predicate IsPreviewing(flight: Flight) {
    flight.Sized? || (!flight.Found? && flight.purpose.ForPreview?)
  }

  /** Whatever was offered, or is about to be, stands under the id its parts hash to. */
  ghost predicate Named(sha: string -> string, s: Shared) {
    && (forall p | p in s.offered :: NamedByHash(sha, p))
    && (forall r | r in s.flights && IsPreviewing(s.flights[r]) ::
          NamedByHash(sha, Previewed(s.flights[r].id, s.flights[r].record)))
  }

  lemma NewIsNamed(sha: string -> string, disk: Disk, path: Option<string>, content: Option<string>, mode: Option<string>)
    requires ArgumentFault(path, content, mode).None?
    ensures var record := NewRecord(sha, disk, path, content, mode);
            NamedByHash(sha, Previewed(IdFor(sha, record), record))
  {
  }

  /** Only the beginning of a preview brings a new record into flight. */
  lemma PreviewsStay(sha: string -> string, s: Shared, act: Act)
    requires !act.BeginPreview?
    ensures var after := Do(sha, s, act);
            && (forall r | r in after.flights && IsPreviewing(after.flights[r]) ::
                  && r in s.flights && IsPreviewing(s.flights[r])
                  && after.flights[r].id == s.flights[r].id && after.flights[r].record == s.flights[r].record)
            && (forall p | p in after.offered && p !in s.offered ::
                  act.request in s.flights && IsPreviewing(s.flights[act.request])
                  && p == Previewed(s.flights[act.request].id, s.flights[act.request].record))
  {
  }

  lemma DoKeepsNamed(sha: string -> string, s: Shared, act: Act)
    requires Named(sha, s)
    ensures Named(sha, Do(sha, s, act))
  {
    if act.BeginPreview? {
      if ArgumentFault(act.path, act.content, act.mode).None? {
        NewIsNamed(sha, s.disk, act.path, act.content, act.mode);
      }
    } else {
      PreviewsStay(sha, s, act);
    }
  }

  lemma {:induction false} DoAllKeepsNamed(sha: string -> string, s: Shared, acts: seq<Act>)
    requires Named(sha, s)
    ensures Named(sha, DoAll(sha, s, acts))
    decreases acts
  {
    if acts != [] {
      DoKeepsNamed(sha, s, acts[0]);
      DoAllKeepsNamed(sha, Do(sha, s, acts[0]), acts[1..]);
    }
  }

  /** Without collisions among its previews, every apply of every interleaving writes what each preview of its id showed. */
  lemma InterleavedAsPreviewed(sha: string -> string, disk: Disk, acts: seq<Act>, i: nat, p: Previewed)
    requires var s := DoAll(sha, Start(disk), acts);
             CollisionFree(sha, s.offered) && i < |s.written| && p in s.offered && p.id == s.written[i].id
    ensures DoAll(sha, Start(disk), acts).written[i].record == p.record
  {
    var s := DoAll(sha, Start(disk), acts);
    DoAllKeepsSources(sha, Start(disk), acts);
    DoAllKeepsNamed(sha, Start(disk), acts);
    SameIdSameRecord(sha, s.offered, Previewed(s.written[i].id, s.written[i].record), p);
  }

  /** The write step, spelled out: what the file of the record holds afterwards, and that no other file is touched. */
  lemma WriteStepIs(sha: string -> string, s: Shared, r: RequestId, ok: bool)
    requires r in s.flights && s.flights[r].Found?
    ensures var after, record := Do(sha, s, WriteFile(r, ok)), s.flights[r].record;
            var bytes, before := Utf8.Encode(record.content), if record.path in s.disk then s.disk[record.path] else [];
            var writes := ok && ((record.mode == "create" && record.path !in s.disk) || record.mode == "replace"
                                 || record.mode == "append");
            && (!writes ==> after.disk == s.disk && after.written == s.written && r !in after.flights)
            && (writes ==> after.disk == s.disk[record.path := if record.mode == "append" then before + bytes else bytes])
            && (writes ==> after.written == s.written + [Effect(s.flights[r].id, record, false)])
  {
  }

  /** An apply gets as far as its write only if it was approved, and then with a preview that the store held. */
  lemma LookStepIs(sha: string -> string, s: Shared, r: RequestId, previewId: Option<string>, approved: bool, reading: Reading)
    requires r !in s.flights
    ensures var after := Do(sha, s, BeginApply(r, previewId, approved, reading));
            var id := RequiredString(previewId);
            && (r in after.flights <==> approved && reading.previews && id.Some? && id.value in s.store.previews)
            && (r in after.flights ==>
                  after.flights[r] == Found(id.value, s.store.previews[id.value], AsRead(s.store, reading)))
  {
  }

  // ---------- a call that nothing interrupts ----------

  /** The world that calls see which do not overlap. */
  function Serial(s: Shared): World {
    World(s.disk, s.store, s.previewed, s.written)
  }

  /** The steps of a call; when the store cannot be written, `staged` says whether at least the temporary file was. */
  function StepsOf(event: Event, r: RequestId, staged: bool): seq<Act> {
    var writing := [StageStore(r, event.storeOk || staged), PublishStore(r, event.storeOk)];
    match event
    case Preview(path, content, mode, reading, _) => [BeginPreview(r, path, content, mode), ReadStore(r, reading)] + writing
    case Apply(id, approved, reading, fileOk, _) => [BeginApply(r, id, approved, reading), WriteFile(r, fileOk)] + writing
  }

  /** Writing back the store of a call, uninterrupted. */
  function Saving(s: Shared, own: Flight, ok: bool, staged: bool): Shared
    requires own.Ready?
  {
    if !ok && !staged then s
    else
      var offering := s.(staging := Some(Saved(own)),
                         offered := s.offered + if own.purpose.ForPreview? then [Previewed(own.id, own.record)] else []);
      if !ok then offering
      else
        var saved := offering.(store := Saved(own), staging := None, issued := s.issued + Own(own),
                               stale := s.stale + if own.held.previews.Keys <= s.store.previews.Keys then 0 else 1);
        match own.purpose
        case ForPreview => saved.(previewed := s.previewed + [Previewed(own.id, own.record)])
        case ForApply(at) => saved.(written := Recorded(s.written, at))
  }

  /** What a whole call does. */
  function Called(sha: string -> string, s: Shared, event: Event, staged: bool): Shared {
    match event
    case Preview(path, content, mode, reading, ok) =>
      if ArgumentFault(path, content, mode).Some? then s
      else
        var record := NewRecord(sha, s.disk, path, content, mode);
        Saving(s, Ready(IdFor(sha, record), record, AsRead(s.store, reading), ForPreview), ok, staged)
    case Apply(_, _, reading, _, ok) =>
      if ApplyFault(Serial(s), event).Some? then s
      else
        var id, held := RequiredString(event.previewId).value, AsRead(s.store, reading);
        var record := held.previews[id];
        var after := s.(disk := Written(s.disk, record).value, written := s.written + [Effect(id, record, false)]);
        Saving(after, Ready(id, record, held, ForApply(|s.written|)), ok, staged)
  }

  lemma CalledIsStep(sha: string -> string, s: Shared, event: Event, staged: bool)
    ensures Serial(Called(sha, s, event, staged)) == Step(sha, Serial(s), event)
  {
    if event.Apply? && ApplyFault(Serial(s), event).None? {
      var id, held := RequiredString(event.previewId).value, AsRead(s.store, event.reading);
      var record := held.previews[id];
      assert Recorded(s.written + [Effect(id, record, false)], |s.written|) == s.written + [Effect(id, record, true)];
    } else if event.Preview? && PreviewFault(event).None? {
      var held := AsRead(s.store, event.reading);
      assert held.applied + [] == held.applied;
    }
  }

  lemma DoFour(sha: string -> string, s: Shared, a: Act, b: Act, c: Act, d: Act)
    ensures DoAll(sha, s, [a, b] + [c, d]) == Do(sha, Do(sha, Do(sha, Do(sha, s, a), b), c), d)
  {
    var s1 := Do(sha, s, a);
    var s2 := Do(sha, s1, b);
    var s3 := Do(sha, s2, c);
    DoAllConcat(sha, s, [a, b], [c, d]);
    assert [a, b][1..] == [b] && [b][1..] == [] && [c, d][1..] == [d] && [d][1..] == [];
    assert DoAll(sha, s1, [b]) == DoAll(sha, s2, []);
    assert DoAll(sha, s, [a, b]) == DoAll(sha, s1, [b]);
    assert DoAll(sha, s3, [d]) == DoAll(sha, Do(sha, s3, d), []);
    assert DoAll(sha, s2, [c, d]) == DoAll(sha, s3, [d]);
  }

  lemma SavingIs(sha: string -> string, s: Shared, t: Shared, r: RequestId, own: Flight, ok: bool, staged: bool)
    requires s.flights == map[] && own.Ready? && t == Launch(s, r, own)
    ensures Do(sha, Do(sha, t, StageStore(r, ok || staged)), PublishStore(r, ok)) == Saving(s, own, ok, staged)
  {
    assert t.flights - {r} == map[];
    assert t.flights[r := Staged(own.id, own.record, own.held, own.purpose)] - {r} == map[];
  }

  lemma LandedStays(sha: string -> string, s: Shared, r: RequestId, stageOk: bool, ok: bool)
    requires s.flights == map[]
    ensures Do(sha, Do(sha, s, StageStore(r, stageOk)), PublishStore(r, ok)) == s
  {
  }

  lemma ReadsPreview(sha: string -> string, s: Shared, r: RequestId, path: Option<string>, content: Option<string>,
                     mode: Option<string>, reading: Reading)
    requires s.flights == map[]
    ensures var read := Do(sha, Do(sha, s, BeginPreview(r, path, content, mode)), ReadStore(r, reading));
            if ArgumentFault(path, content, mode).Some? then read == s
            else
              var record := NewRecord(sha, s.disk, path, content, mode);
              read == Launch(s, r, Ready(IdFor(sha, record), record, AsRead(s.store, reading), ForPreview))
  {
    if ArgumentFault(path, content, mode).None? {
      var record := NewRecord(sha, s.disk, path, content, mode);
      var sized := Sized(IdFor(sha, record), record);
      var own := Ready(IdFor(sha, record), record, AsRead(s.store, reading), ForPreview);
      assert Do(sha, s, BeginPreview(r, path, content, mode)) == Launch(s, r, sized);
      assert s.flights[r := sized][r := own] == s.flights[r := own];
    }
  }

  lemma PreviewCalled(sha: string -> string, s: Shared, event: Event, r: RequestId, staged: bool)
    requires s.flights == map[] && event.Preview?
    ensures DoAll(sha, s, StepsOf(event, r, staged)) == Called(sha, s, event, staged)
  {
    var a, b := BeginPreview(r, event.path, event.content, event.mode), ReadStore(r, event.reading);
    DoFour(sha, s, a, b, StageStore(r, event.storeOk || staged), PublishStore(r, event.storeOk));
    ReadsPreview(sha, s, r, event.path, event.content, event.mode, event.reading);
    var read := Do(sha, Do(sha, s, a), b);
    if ArgumentFault(event.path, event.content, event.mode).Some? {
      LandedStays(sha, s, r, event.storeOk || staged, event.storeOk);
    } else {
      var record := NewRecord(sha, s.disk, event.path, event.content, event.mode);
      var own := Ready(IdFor(sha, record), record, AsRead(s.store, event.reading), ForPreview);
      SavingIs(sha, s, read, r, own, event.storeOk, staged);
    }
  }

  lemma ApplyCalled(sha: string -> string, s: Shared, event: Event, r: RequestId, staged: bool)
    requires s.flights == map[] && event.Apply?
    ensures DoAll(sha, s, StepsOf(event, r, staged)) == Called(sha, s, event, staged)
  {
    var a, b := BeginApply(r, event.previewId, event.approved, event.reading), WriteFile(r, event.fileOk);
    DoFour(sha, s, a, b, StageStore(r, event.storeOk || staged), PublishStore(r, event.storeOk));
    var begun := Do(sha, s, a);
    var written := Do(sha, begun, b);
    if ApplyFault(Serial(s), event).Some? {
      assert begun.flights - {r} == map[];
      assert written == s;
      LandedStays(sha, s, r, event.storeOk || staged, event.storeOk);
    } else {
      var id, held := RequiredString(event.previewId).value, AsRead(s.store, event.reading);
      var record := held.previews[id];
      var after := s.(disk := Written(s.disk, record).value, written := s.written + [Effect(id, record, false)]);
      var own := Ready(id, record, held, ForApply(|s.written|));
      assert begun == Launch(s, r, Found(id, record, held));
      assert written == Launch(after, r, own);
      SavingIs(sha, after, written, r, own, event.storeOk, staged);
    }
  }

  /** A call whose steps nothing interrupts does what the call as one event does, and no call is left in flight. */
  lemma UninterruptedCall(sha: string -> string, s: Shared, event: Event, r: RequestId, staged: bool)
    requires s.flights == map[]
    ensures var after := DoAll(sha, s, StepsOf(event, r, staged));
            && after == Called(sha, s, event, staged)
            && after.flights == map[] && Serial(after) == Step(sha, Serial(s), event)
  {
    if event.Preview? {
      PreviewCalled(sha, s, event, r, staged);
    } else {
      ApplyCalled(sha, s, event, r, staged);
    }
    CalledIsStep(sha, s, event, staged);
  }

  /** The steps of calls one after the other; `staged` says for each what it left of a store that could not be written. */
  function StepsOfAll(events: seq<Event>, staged: seq<bool>): seq<Act>
    requires |staged| == |events|
  {
    if events == [] then [] else StepsOf(events[0], 0, staged[0]) + StepsOfAll(events[1..], staged[1..])
  }

  /** Runs of calls that do not overlap are runs of whole calls, so what holds of these holds of them. */
  lemma {:induction false} SerialRuns(sha: string -> string, s: Shared, events: seq<Event>, staged: seq<bool>)
    requires s.flights == map[] && |staged| == |events|
    ensures var after := DoAll(sha, s, StepsOfAll(events, staged));
            after.flights == map[] && Serial(after) == Run(sha, Serial(s), events)
    decreases events
  {
    if events != [] {
      var next := DoAll(sha, s, StepsOf(events[0], 0, staged[0]));
      UninterruptedCall(sha, s, events[0], 0, staged[0]);
      DoAllConcat(sha, s, StepsOf(events[0], 0, staged[0]), StepsOfAll(events[1..], staged[1..]));
      SerialRuns(sha, next, events[1..], staged[1..]);
    }
  }

  /**
   So, step by step: while the store can always be written, applies of calls that do not overlap never outnumber previews,
   and the stored log is that of the writes, in order, exactly when no call erased it.
   */
  lemma SerialCertified(sha: string -> string, disk: Disk, events: seq<Event>, staged: seq<bool>, id: PreviewId)
    requires |staged| == |events| && StoreNeverFails(events)
    ensures var s := DoAll(sha, Start(disk), StepsOfAll(events, staged));
            && AppliesOf(s.written, id) <= PreviewsOf(s.previewed, id)
            && (s.store.applied == Certificates(s.written) <==> LogNeverErased(sha, Initial(disk), events))
  {
    SerialRuns(sha, Start(disk), events, staged);
    CertifiedRun(sha, disk, events, id);
    LogIsCompleteIff(sha, disk, events);
  }

  /** The tools as one request runs them when no other comes in between, with the logs kept for the proofs. */
  class FileTools {
    var disk: Disk
    var store: Store
    var staging: Option<Store>
    ghost var offered: seq<Previewed>
    ghost var previewed: seq<Previewed>
    ghost var written: seq<Effect>
    ghost var issued: seq<Certificate>
    ghost var stale: nat

    ghost function State(): Shared
      reads this
    {
      Shared(disk, store, staging, map[], offered, previewed, written, issued, stale)
    }

    constructor (disk: Disk)
      ensures State() == Start(disk)
    {
      this.disk := disk;
      store, staging := Store(map[], []), None;
      offered, previewed, written, issued, stale := [], [], [], [], 0;
    }

    method ReadToolPreviewStore(reading: Reading) returns (held: Store)
      ensures held == AsRead(store, reading)
    {
      held := Store(map[], []);
      if reading.previews {
        held := held.(previews := store.previews);
      }
      if reading.applied {
        held := held.(applied := store.applied);
      }
    }

    method WriteToolPreviewStore(held: Store, stageOk: bool, publishOk: bool) returns (ok: bool)
      modifies `store, `staging
      ensures ok == (stageOk && publishOk)
      ensures store == if ok then held else old(store)
      ensures staging == if ok then None else if stageOk then Some(held) else old(staging)
    {
      if !stageOk {
        return false;
      }
      staging := Some(held);
      if !publishOk {
        return false;
      }
      store, staging := staging.value, None;
      return true;
    }

    ghost method Log(after: Shared)
      modifies `offered, `previewed, `written, `issued, `stale
      ensures offered == after.offered && previewed == after.previewed && written == after.written
      ensures issued == after.issued && stale == after.stale
    {
      offered, previewed, written, issued, stale :=
        after.offered, after.previewed, after.written, after.issued, after.stale;
    }

    method SavePreview(id: PreviewId, record: Record, held: Store, stageOk: bool, publishOk: bool) returns (ok: bool)
      modifies this
      ensures ok == (stageOk && publishOk)
      ensures State() == Saving(old(State()), Ready(id, record, held, ForPreview), ok, stageOk)
    {
      ghost var after := Saving(State(), Ready(id, record, held, ForPreview), stageOk && publishOk, stageOk);
      assert held.applied + [] == held.applied;
      ok := WriteToolPreviewStore(held.(previews := held.previews[id := record]), stageOk, publishOk);
      Log(after);
    }

    method PreviewFileWrite(sha: string -> string, path: Option<string>, content: Option<string>, mode: Option<string>,
                            reading: Reading, stageOk: bool, publishOk: bool)
      returns (r: Result<PreviewId, WriteError>)
      modifies this
      ensures var event := Preview(path, content, mode, reading, stageOk && publishOk);
              && State() == Called(sha, old(State()), event, stageOk)
              && r == PreviewStep(sha, Serial(old(State())), event).0
    {
      var target := RequiredString(path);
      if target.None? {
        return Err(MissingField);
      }
      if target.value[..1] != "/" {
        return Err(AbsolutePathRequired);
      }
      var text := RequiredString(content);
      if text.None? {
        return Err(MissingField);
      }
      var how := RequiredString(mode);
      if how.None? {
        return Err(MissingField);
      }
      if how.value != "create" && how.value != "replace" && how.value != "append" {
        return Err(InvalidWriteMode);
      }
      var record := Record(target.value, how.value, text.value, sha(text.value), ExistingBytes(disk, target.value));
      var id := IdFor(sha, record);
      var held := ReadToolPreviewStore(reading);
      var ok := SavePreview(id, record, held, stageOk, publishOk);
      return if ok then Ok(id) else Err(StoreWriteFailed);
    }

    method ApplyFileWrite(sha: string -> string, previewId: Option<string>, approved: bool, reading: Reading, fileOk: bool,
                          stageOk: bool, publishOk: bool)
      returns (r: Result<Certificate, WriteError>)
      modifies this
      ensures var event := Apply(previewId, approved, reading, fileOk, stageOk && publishOk);
              && State() == Called(sha, old(State()), event, stageOk)
              && r == ApplyStep(Serial(old(State())), event).0
    {
      ghost var event, before := Apply(previewId, approved, reading, fileOk, stageOk && publishOk), State();
      var id := RequiredString(previewId);
      if id.None? {
        return Err(MissingField);
      }
      if !approved {
        return Err(NotApproved);
      }
      var held := ReadToolPreviewStore(reading);
      if id.value !in held.previews {
        return Err(PreviewNotFound);
      }
      var record := held.previews[id.value];
      var after := Written(disk, record);
      if after.None? || !fileOk {
        return Err(FileWriteFailed);
      }
      disk := after.value;
      var certificate := CertificateFor(id.value, record);
      var ok := WriteToolPreviewStore(Store(held.previews - {id.value}, held.applied + [certificate]), stageOk, publishOk);
      assert before.offered + [] == before.offered;
      Log(Called(sha, before, event, stageOk));
      return if ok then Ok(certificate) else Err(StoreWriteFailed);
    }
  }
}
