/**
 Previewed file writes: a preview stores what would be written, an approved apply writes it and certifies it. Here each
 call is one event, as it is for calls that do not overlap; `FileWriteSteps` takes the calls apart.
 */
module FileWrites {
  import opened Results
  import opened Sequences
  import opened CanonicalJson
  import opened CanonicalParser
  import opened Strings
  import Utf8

  type Path = string
  type PreviewId = string
  type Disk = map<Path, seq<Utf8.byte>>

  /** A stored preview; `existing` is the size the file had when it was previewed. */
  datatype Record = Record(path: Path, mode: string, content: string, contentSha: string, existing: Option<nat>)

  datatype Certificate = Certificate(previewId: PreviewId, path: Path, mode: string, contentSha: string)

  datatype Store = Store(previews: map<PreviewId, Record>, applied: seq<Certificate>)

  /**
   Which parts of the store file a call finds as they were last written. A file that cannot be read, is no JSON or is no
   object gives neither; a part of the wrong kind is replaced by an empty one.
   */
  datatype Reading = Reading(previews: bool, applied: bool)

  const WHOLE: Reading := Reading(true, true)

  /** The store as a call works with it: what it does not find it takes to be empty. */
  function AsRead(store: Store, reading: Reading): Store {
    Store(if reading.previews then store.previews else map[], if reading.applied then store.applied else [])
  }

  datatype WriteError =
    | MissingField
    | AbsolutePathRequired
    | InvalidWriteMode
    | NotApproved
    | PreviewNotFound
    | FileWriteFailed
    | StoreWriteFailed

  /** A required argument: present and not blank, and trimmed. */
  function RequiredString(value: Option<string>): Option<string> {
    if value.None? || Trim(value.value) == "" then None else Some(Trim(value.value))
  }

  function CertificateFor(id: PreviewId, record: Record): Certificate {
    Certificate(id, record.path, record.mode, record.contentSha)
  }

  // ---------- preview ids ----------

  /** The canonical text that a preview id is the hash of. */
  function FingerprintText(path: Path, contentSha: string, mode: string, existing: Option<nat>): string {
    Text(FingerprintValue(path, contentSha, mode, existing))
  }

  function FingerprintValue(path: Path, contentSha: string, mode: string, existing: Option<nat>): Json {
    Object([Entry("path", Str(path)), Entry("content_sha256", Str(contentSha)), Entry("mode", Str(mode)),
            Entry("existing_bytes", if existing.Some? then Int(existing.value) else Null)])
  }

  function Short(hash: string): string {
    if |hash| <= 16 then hash else hash[..16]
  }

  /** The canonical text behind the id of a preview. */
  function TextBehind(record: Record): string {
    FingerprintText(record.path, record.contentSha, record.mode, record.existing)
  }

  function IdFor(sha: string -> string, record: Record): PreviewId {
    "preview_" + Short(sha(TextBehind(record)))
  }

  function ExistingBytes(disk: Disk, path: Path): Option<nat> {
    if path in disk then Some(|disk[path]|) else None
  }

  // ---------- writing ----------

  /** The disk after a write, if the mode allows it. */
  function Written(disk: Disk, record: Record): Option<Disk> {
    var bytes := Utf8.Encode(record.content);
    if record.mode == "create" then
      if record.path in disk then None else Some(disk[record.path := bytes])
    else if record.mode == "replace" then Some(disk[record.path := bytes])
    else if record.mode == "append" then
      Some(disk[record.path := (if record.path in disk then disk[record.path] else []) + bytes])
    else None
  }

  /**
   The disk, the store, and two logs: the previews the store took, and the writes that reached the disk, each with
   whether the store took its certificate.
   */
  datatype World = World(disk: Disk, store: Store, previewed: seq<Previewed>, written: seq<Effect>)

  datatype Previewed = Previewed(id: PreviewId, record: Record)

  datatype Effect = Effect(id: PreviewId, record: Record, recorded: bool)

  /** `reading` says what a call finds of the store; `storeOk` and `fileOk` whether the store and the file can be written. */
  datatype Event =
    | Preview(path: Option<string>, content: Option<string>, mode: Option<string>, reading: Reading, storeOk: bool)
    | Apply(previewId: Option<string>, approved: bool, reading: Reading, fileOk: bool, storeOk: bool)

  /** What is wrong with the arguments of a preview, in the order in which it is found out. */
  function ArgumentFault(path: Option<string>, content: Option<string>, mode: Option<string>): Option<WriteError> {
    if RequiredString(path).None? then Some(MissingField)
    else if RequiredString(path).value[..1] != "/" then Some(AbsolutePathRequired)
    else if RequiredString(content).None? || RequiredString(mode).None? then Some(MissingField)
    else if RequiredString(mode).value !in {"create", "replace", "append"} then Some(InvalidWriteMode)
    else None
  }

  /** The record that a preview with good arguments makes of the disk it sees. */
  function NewRecord(sha: string -> string, disk: Disk, path: Option<string>, content: Option<string>, mode: Option<string>): Record
    requires ArgumentFault(path, content, mode).None?
  {
    var target, text := RequiredString(path).value, RequiredString(content).value;
    Record(target, RequiredString(mode).value, text, sha(text), ExistingBytes(disk, target))
  }

  /** What stops a preview, in the order in which it is found out. */
  function PreviewFault(event: Event): Option<WriteError>
    requires event.Preview?
  {
    var fault := ArgumentFault(event.path, event.content, event.mode);
    if fault.None? && !event.storeOk then Some(StoreWriteFailed) else fault
  }

  function PreviewStep(sha: string -> string, w: World, event: Event): (Result<PreviewId, WriteError>, World)
    requires event.Preview?
  {
    match PreviewFault(event)
    case Some(e) => (Err(e), w)
    case None =>
      var record := NewRecord(sha, w.disk, event.path, event.content, event.mode);
      var id, held := IdFor(sha, record), AsRead(w.store, event.reading);
      (Ok(id),
       w.(store := held.(previews := held.previews[id := record]), previewed := w.previewed + [Previewed(id, record)]))
  }

  /** What stops an apply before anything is written, in the order in which it is found out. */
  function ApplyFault(w: World, event: Event): Option<WriteError>
    requires event.Apply?
  {
    var id, held := RequiredString(event.previewId), AsRead(w.store, event.reading);
    if id.None? then Some(MissingField)
    else if !event.approved then Some(NotApproved)
    else if id.value !in held.previews then Some(PreviewNotFound)
    else if Written(w.disk, held.previews[id.value]).None? || !event.fileOk then Some(FileWriteFailed)
    else None
  }

  function ApplyStep(w: World, event: Event): (Result<Certificate, WriteError>, World)
    requires event.Apply?
  {
    match ApplyFault(w, event)
    case Some(e) => (Err(e), w)
    case None =>
      var id, held := RequiredString(event.previewId).value, AsRead(w.store, event.reading);
      var record := held.previews[id];
      var certificate := CertificateFor(id, record);
      var after := w.(disk := Written(w.disk, record).value, written := w.written + [Effect(id, record, event.storeOk)]);
      if !event.storeOk then (Err(StoreWriteFailed), after)
      else (Ok(certificate), after.(store := Store(held.previews - {id}, held.applied + [certificate])))
  }

  function Step(sha: string -> string, w: World, event: Event): World {
    match event
    case Preview(_, _, _, _, _) => PreviewStep(sha, w, event).1
    case Apply(_, _, _, _, _) => ApplyStep(w, event).1
  }

  function Run(sha: string -> string, w: World, events: seq<Event>): World
    decreases events
  {
    if events == [] then w else Run(sha, Step(sha, w, events[0]), events[1..])
  }

  function Initial(disk: Disk): World {
    World(disk, Store(map[], []), [], [])
  }

  // ---------- the disk is the fold of what was written ----------

  /** Writing the records one after the other, each of which the mode must allow. */
  function Fold(disk: Disk, effects: seq<Effect>): Option<Disk> {
    if effects == [] then Some(disk)
    else
      match Fold(disk, effects[..|effects| - 1])
      case None => None
      case Some(before) => Written(before, effects[|effects| - 1].record)
  }

  function Certificates(effects: seq<Effect>): seq<Certificate> {
    if effects == [] then []
    else
      var last := effects[|effects| - 1];
      Certificates(effects[..|effects| - 1]) + if last.recorded then [CertificateFor(last.id, last.record)] else []
  }

  lemma LastOf<T>(xs: seq<T>, x: T)
    ensures (xs + [x])[..|xs + [x]| - 1] == xs && (xs + [x])[|xs + [x]| - 1] == x
  {
  }

  /** How often an id was previewed. */
  function PreviewsOf(previewed: seq<Previewed>, id: PreviewId): nat {
    if previewed == [] then 0
    else PreviewsOf(previewed[..|previewed| - 1], id) + if previewed[|previewed| - 1].id == id then 1 else 0
  }

  /** How often an id was applied to the disk. */
  function AppliesOf(effects: seq<Effect>, id: PreviewId): nat {
    if effects == [] then 0
    else AppliesOf(effects[..|effects| - 1], id) + if effects[|effects| - 1].id == id then 1 else 0
  }

  /** How often an id was applied to the disk without the store taking note. */
  function LostOf(effects: seq<Effect>, id: PreviewId): nat {
    if effects == [] then 0
    else LostOf(effects[..|effects| - 1], id)
         + if effects[|effects| - 1].id == id && !effects[|effects| - 1].recorded then 1 else 0
  }

  /** Counting one preview or one write more. */
  lemma CountsAre(previewed: seq<Previewed>, effects: seq<Effect>, preview: Previewed, effect: Effect, id: PreviewId)
    ensures PreviewsOf([], id) == 0 && AppliesOf([], id) == 0 && LostOf([], id) == 0
    ensures PreviewsOf(previewed + [preview], id) == PreviewsOf(previewed, id) + if preview.id == id then 1 else 0
    ensures AppliesOf(effects + [effect], id) == AppliesOf(effects, id) + if effect.id == id then 1 else 0
    ensures LostOf(effects + [effect], id) == LostOf(effects, id) + if effect.id == id && !effect.recorded then 1 else 0
  {
    LastOf(previewed, preview);
    LastOf(effects, effect);
  }

  function Stored(w: World, id: PreviewId): nat {
    if id in w.store.previews then 1 else 0
  }

  ghost predicate Inv(start: Disk, w: World) {
    && Fold(start, w.written) == Some(w.disk)
    && (forall id :: AppliesOf(w.written, id) + Stored(w, id) <= PreviewsOf(w.previewed, id) + LostOf(w.written, id))
    && (forall id | id in w.store.previews :: Previewed(id, w.store.previews[id]) in w.previewed)
    && (forall i | 0 <= i < |w.written| :: Previewed(w.written[i].id, w.written[i].record) in w.previewed)
  }

  lemma PreviewKeepsInv(sha: string -> string, start: Disk, w: World, event: Event)
    requires Inv(start, w) && event.Preview?
    ensures Inv(start, Step(sha, w, event))
  {
    var after := Step(sha, w, event);
    if |after.previewed| > |w.previewed| {
      LastOf(w.previewed, after.previewed[|w.previewed|]);
    }
  }

  lemma {:induction false} ApplyKeepsInv(sha: string -> string, start: Disk, w: World, event: Event)
    requires Inv(start, w) && event.Apply?
    ensures Inv(start, Step(sha, w, event))
  {
    var after := Step(sha, w, event);
    if |after.written| > |w.written| {
      LastOf(w.written, after.written[|w.written|]);
    }
  }

  lemma {:induction false} RunKeepsInv(sha: string -> string, start: Disk, w: World, events: seq<Event>)
    requires Inv(start, w)
    ensures Inv(start, Run(sha, w, events))
    decreases events
  {
    if events != [] {
      if events[0].Preview? {
        PreviewKeepsInv(sha, start, w, events[0]);
      } else {
        ApplyKeepsInv(sha, start, w, events[0]);
      }
      RunKeepsInv(sha, start, Step(sha, w, events[0]), events[1..]);
    }
  }

  // ---------- when the log of certificates survives ----------

  /** The call gets as far as writing the store, and the store is written. */
  predicate SavesStore(w: World, event: Event) {
    if event.Preview? then PreviewFault(event).None? else ApplyFault(w, event).None? && event.storeOk
  }

  /** The call writes back a store in which it found none of the certificates there were. */
  predicate Erases(w: World, event: Event) {
    SavesStore(w, event) && !event.reading.applied && w.store.applied != []
  }

  /** The call adds to an empty log the one certificate that the store held. */
  predicate Renews(w: World, event: Event) {
    && event.Apply? && ApplyFault(w, event).None?
    && var id := RequiredString(event.previewId).value;
       w.store.applied == [CertificateFor(id, w.store.previews[id])]
  }

  /**
   One call keeps every certificate in its place exactly when it does not erase the log, or puts back the only
   certificate that it erases.
   */
  lemma LogSurvivesIff(sha: string -> string, w: World, event: Event)
    ensures w.store.applied <= Step(sha, w, event).store.applied <==> !Erases(w, event) || Renews(w, event)
  {
    var before, after := w.store.applied, Step(sha, w, event).store.applied;
    if Erases(w, event) && event.Apply? {
      assert |after| == 1;
      assert before <= after ==> before == after;
    }
  }

  /** A preview that finds no store but can write one leaves nothing of the log and of the other pending previews. */
  lemma UnreadStoreLosesAll(sha: string -> string, w: World, event: Event)
    requires event.Preview? && PreviewFault(event).None? && event.reading == Reading(false, false)
    ensures var record := NewRecord(sha, w.disk, event.path, event.content, event.mode);
            Step(sha, w, event).store == Store(map[IdFor(sha, record) := record], [])
    ensures w.store.applied != [] ==> !(w.store.applied <= Step(sha, w, event).store.applied)
  {
  }

  ghost predicate LogNeverErased(sha: string -> string, w: World, events: seq<Event>)
    decreases events
  {
    events == [] || (!Erases(w, events[0]) && LogNeverErased(sha, Step(sha, w, events[0]), events[1..]))
  }

  /** As long as no call erases the log, it only grows. */
  lemma {:induction false} CertificatesOnlyGrow(sha: string -> string, w: World, events: seq<Event>)
    requires LogNeverErased(sha, w, events)
    ensures w.store.applied <= Run(sha, w, events).store.applied
    decreases events
  {
    if events != [] {
      LogSurvivesIff(sha, w, events[0]);
      CertificatesOnlyGrow(sha, Step(sha, w, events[0]), events[1..]);
    }
  }

  /** A complete log stays complete exactly if the call does not erase it, and an incomplete one stays incomplete. */
  lemma StepLog(sha: string -> string, w: World, event: Event)
    requires |w.store.applied| <= |Certificates(w.written)|
    ensures var after := Step(sha, w, event);
            && |after.store.applied| <= |Certificates(after.written)|
            && (after.store.applied == Certificates(after.written)
                <==> w.store.applied == Certificates(w.written) && !Erases(w, event))
  {
    var after := Step(sha, w, event);
    if |after.written| > |w.written| {
      var last := after.written[|w.written|];
      LastOf(w.written, last);
      if last.recorded {
        SameButLast(AsRead(w.store, event.reading).applied, Certificates(w.written), CertificateFor(last.id, last.record));
      }
    }
  }

  lemma SameButLast<T>(xs: seq<T>, ys: seq<T>, x: T)
    ensures xs + [x] == ys + [x] <==> xs == ys
  {
    if xs + [x] == ys + [x] {
      LastOf(xs, x);
      LastOf(ys, x);
    }
  }

  lemma {:induction false} RunLog(sha: string -> string, w: World, events: seq<Event>)
    requires |w.store.applied| <= |Certificates(w.written)|
    ensures var after := Run(sha, w, events);
            after.store.applied == Certificates(after.written)
            <==> w.store.applied == Certificates(w.written) && LogNeverErased(sha, w, events)
    decreases events
  {
    if events != [] {
      StepLog(sha, w, events[0]);
      RunLog(sha, Step(sha, w, events[0]), events[1..]);
    }
  }

  /** Over any run the store holds the certificates of all recorded writes, in order, exactly when no call erased its log. */
  lemma LogIsCompleteIff(sha: string -> string, disk: Disk, events: seq<Event>)
    ensures var w := Run(sha, Initial(disk), events);
            w.store.applied == Certificates(w.written) <==> LogNeverErased(sha, Initial(disk), events)
  {
    RunLog(sha, Initial(disk), events);
  }

  // ---------- whole runs ----------

  /** The store can be written whenever a call comes to it; what the calls read of it is another matter. */
  ghost predicate StoreNeverFails(events: seq<Event>) {
    forall i | 0 <= i < |events| :: events[i].storeOk
  }

  ghost predicate AllRecorded(w: World) {
    forall i | 0 <= i < |w.written| :: w.written[i].recorded
  }

  lemma {:induction false} RunRecordsAll(sha: string -> string, w: World, events: seq<Event>)
    requires StoreNeverFails(events) && AllRecorded(w)
    ensures AllRecorded(Run(sha, w, events))
    decreases events
  {
    if events != [] {
      RunRecordsAll(sha, Step(sha, w, events[0]), events[1..]);
    }
  }

  lemma {:induction false} NothingLost(effects: seq<Effect>, id: PreviewId)
    requires forall i | 0 <= i < |effects| :: effects[i].recorded
    ensures LostOf(effects, id) == 0
  {
    if effects != [] {
      NothingLost(effects[..|effects| - 1], id);
    }
  }

  lemma {:induction false} OneCertificateEach(effects: seq<Effect>)
    requires forall i | 0 <= i < |effects| :: effects[i].recorded
    ensures |Certificates(effects)| == |effects|
    ensures forall i | 0 <= i < |effects| :: Certificates(effects)[i] == CertificateFor(effects[i].id, effects[i].record)
  {
    if effects != [] {
      OneCertificateEach(effects[..|effects| - 1]);
    }
  }

  /**
   Every run of calls that do not overlap, whatever cannot be read or written on the way: the disk is the initial disk with exactly the logged writes
   folded in order, each of them a write that was previewed under its id, and the applies of an id never outnumber its
   previews by more than the applies whose certificate the store failed to take.
   */
  lemma EveryRun(sha: string -> string, disk: Disk, events: seq<Event>, id: PreviewId)
    ensures var w := Run(sha, Initial(disk), events);
            && Fold(disk, w.written) == Some(w.disk)
            && (forall i | 0 <= i < |w.written| :: Previewed(w.written[i].id, w.written[i].record) in w.previewed)
            && AppliesOf(w.written, id) <= PreviewsOf(w.previewed, id) + LostOf(w.written, id)
  {
    RunKeepsInv(sha, disk, Initial(disk), events);
  }

  /**
   When calls do not overlap and the store can always be written, the applies of an id never outnumber its previews; the writes folded into the
   disk are then, one by one and in order, those of the certificates exactly when no call erased the log.
   */
  lemma CertifiedRun(sha: string -> string, disk: Disk, events: seq<Event>, id: PreviewId)
    requires StoreNeverFails(events)
    ensures var w := Run(sha, Initial(disk), events);
            && AppliesOf(w.written, id) <= PreviewsOf(w.previewed, id)
            && Fold(disk, w.written) == Some(w.disk)
            && (|w.store.applied| == |w.written|
                && (forall i | 0 <= i < |w.written| ::
                      w.store.applied[i] == CertificateFor(w.written[i].id, w.written[i].record))
                <==> LogNeverErased(sha, Initial(disk), events))
  {
    var w := Run(sha, Initial(disk), events);
    RunKeepsInv(sha, disk, Initial(disk), events);
    RunRecordsAll(sha, Initial(disk), events);
    NothingLost(w.written, id);
    OneCertificateEach(w.written);
    LogIsCompleteIff(sha, disk, events);
    assert w.store.applied == Certificates(w.written)
      <==> |w.store.applied| == |w.written|
           && forall i | 0 <= i < |w.written| :: w.store.applied[i] == Certificates(w.written)[i];
  }

  // ---------- how often one preview can be applied ----------

  ghost predicate OnlyApplies(events: seq<Event>) {
    forall i | 0 <= i < |events| :: events[i].Apply?
  }

  predicate Repeatable(record: Record) {
    record.mode == "replace" || record.mode == "append"
  }

  /** Nothing is stored under this id, or it cannot be written now or ever: its file exists already. */
  predicate Spent(w: World, id: PreviewId) {
    id !in w.store.previews || Written(w.disk, w.store.previews[id]).None?
  }

  /** How often the id was applied, and once more if it can still be. */
  function Potential(w: World, id: PreviewId): nat {
    AppliesOf(w.written, id) + if Spent(w, id) then 0 else 1
  }

  /** An apply of what neither replaces nor appends uses up the one write that was possible, and opens no new one. */
  lemma PotentialFalls(sha: string -> string, w: World, event: Event, id: PreviewId)
    requires event.Apply? && (id in w.store.previews ==> !Repeatable(w.store.previews[id]))
    ensures var after := Step(sha, w, event);
            && (id in after.store.previews ==> !Repeatable(after.store.previews[id]))
            && Potential(after, id) <= Potential(w, id)
  {
    var after := Step(sha, w, event);
    if |after.written| > |w.written| {
      LastOf(w.written, after.written[|w.written|]);
    }
  }

  lemma {:induction false} CreatedOnce(sha: string -> string, w: World, events: seq<Event>, id: PreviewId)
    requires OnlyApplies(events) && (id in w.store.previews ==> !Repeatable(w.store.previews[id]))
    ensures Potential(Run(sha, w, events), id) <= Potential(w, id)
    decreases events
  {
    if events != [] {
      PotentialFalls(sha, w, events[0], id);
      CreatedOnce(sha, Step(sha, w, events[0]), events[1..], id);
    }
  }

  /** Calls trim the ids they are given, so an id with white space around it is never looked up. */
  lemma {:induction false} UnreachableId(sha: string -> string, w: World, events: seq<Event>, id: PreviewId)
    requires OnlyApplies(events) && RequiredString(Some(id)) != Some(id)
    ensures AppliesOf(Run(sha, w, events).written, id) == AppliesOf(w.written, id)
    decreases events
  {
    if events != [] {
      var after := Step(sha, w, events[0]);
      if |after.written| > |w.written| {
        LastOf(w.written, after.written[|w.written|]);
        TrimTwice(events[0].previewId.value);
      }
      UnreachableId(sha, after, events[1..], id);
    }
  }

  /** Applies under one id, each of which reaches the disk but not the store. */
  function LostApplies(id: PreviewId, n: nat): (events: seq<Event>)
    ensures |events| == n && OnlyApplies(events)
  {
    if n == 0 then [] else [Apply(Some(id), true, WHOLE, true, false)] + LostApplies(id, n - 1)
  }

  /** An approved apply of a replace or an append always reaches the disk; the store follows or not. */
  lemma ApplyReachesDisk(sha: string -> string, w: World, id: PreviewId, storeOk: bool)
    requires id in w.store.previews && Repeatable(w.store.previews[id]) && RequiredString(Some(id)) == Some(id)
    ensures var record := w.store.previews[id];
            var after := Step(sha, w, Apply(Some(id), true, WHOLE, true, storeOk));
            && Written(w.disk, record).Some? && after.disk == Written(w.disk, record).value
            && after.written == w.written + [Effect(id, record, storeOk)] && after.previewed == w.previewed
            && (!storeOk ==> after.store == w.store)
  {
  }

  /** As long as the store takes no certificate, a replace or an append can be applied any number of times. */
  lemma {:induction false} AppliedAnyNumberOfTimes(sha: string -> string, w: World, id: PreviewId, n: nat)
    requires id in w.store.previews && Repeatable(w.store.previews[id]) && RequiredString(Some(id)) == Some(id)
    ensures var after := Run(sha, w, LostApplies(id, n));
            AppliesOf(after.written, id) == AppliesOf(w.written, id) + n && after.previewed == w.previewed
    decreases n
  {
    if n > 0 {
      ApplyReachesDisk(sha, w, id, false);
      LastOf(w.written, Effect(id, w.store.previews[id], false));
      assert LostApplies(id, n)[1..] == LostApplies(id, n - 1);
      AppliedAnyNumberOfTimes(sha, Step(sha, w, LostApplies(id, n)[0]), id, n - 1);
    }
  }

  /**
   A lost certificate leaves the preview in place. A stored preview can reach the disk twice by applies alone exactly when
   it replaces or appends: a created file blocks its own second creation.
   */
  lemma AppliedTwiceIff(sha: string -> string, w: World, id: PreviewId)
    requires id in w.store.previews
    ensures (exists events | OnlyApplies(events) ::
               AppliesOf(Run(sha, w, events).written, id) >= AppliesOf(w.written, id) + 2)
            <==> Repeatable(w.store.previews[id]) && RequiredString(Some(id)) == Some(id)
  {
    if Repeatable(w.store.previews[id]) && RequiredString(Some(id)) == Some(id) {
      AppliedAnyNumberOfTimes(sha, w, id, 2);
      assert OnlyApplies(LostApplies(id, 2));
    } else {
      forall events | OnlyApplies(events)
        ensures AppliesOf(Run(sha, w, events).written, id) < AppliesOf(w.written, id) + 2
      {
        if RequiredString(Some(id)) != Some(id) {
          UnreachableId(sha, w, events, id);
        } else {
          CreatedOnce(sha, w, events, id);
        }
      }
    }
  }

  lemma RunOfTwo(sha: string -> string, w: World, first: Event, second: Event)
    ensures Run(sha, w, [first, second]) == Step(sha, Step(sha, w, first), second)
  {
    var once := Step(sha, w, first);
    assert [first, second][1..] == [second] && [second][1..] == [];
    assert Run(sha, once, [second]) == Run(sha, Step(sha, once, second), []);
  }

  /** After a lost certificate the approved write is done once more: an append then stands in its file twice. */
  lemma LostCertificateAppliesTwice(sha: string -> string, w: World, id: PreviewId)
    requires id in w.store.previews && Repeatable(w.store.previews[id]) && RequiredString(Some(id)) == Some(id)
    ensures var record := w.store.previews[id];
            var after := Run(sha, w, [Apply(Some(id), true, WHOLE, true, false), Apply(Some(id), true, WHOLE, true, true)]);
            && after.previewed == w.previewed
            && after.written == w.written + [Effect(id, record, false), Effect(id, record, true)]
            && after.disk == w.disk[record.path := TwiceWritten(w.disk, record)]
  {
    var record := w.store.previews[id];
    var first, second := Apply(Some(id), true, WHOLE, true, false), Apply(Some(id), true, WHOLE, true, true);
    RunOfTwo(sha, w, first, second);
    ApplyReachesDisk(sha, w, id, false);
    ApplyReachesDisk(sha, Step(sha, w, first), id, true);
    Regroup(w.written, [Effect(id, record, false)], [Effect(id, record, true)]);
    WrittenTwice(w.disk, record);
  }

  /** What a file holds after the same replace or append was written to it twice. */
  function TwiceWritten(disk: Disk, record: Record): seq<Utf8.byte> {
    var bytes := Utf8.Encode(record.content);
    if record.mode == "append" then (if record.path in disk then disk[record.path] else []) + bytes + bytes else bytes
  }

  lemma WrittenTwice(disk: Disk, record: Record)
    requires Repeatable(record)
    ensures Written(disk, record).Some? && Written(Written(disk, record).value, record)
            == Some(disk[record.path := TwiceWritten(disk, record)])
  {
    var once := Written(disk, record).value;
    assert once[record.path := TwiceWritten(disk, record)] == disk[record.path := TwiceWritten(disk, record)];
    assert once[record.path] + Utf8.Encode(record.content) == TwiceWritten(disk, record) || record.mode == "replace";
  }

  // ---------- what an id and a certificate stand for ----------

  lemma FieldAt(ms: seq<Entry<Json>>, ns: seq<Entry<Json>>, i: nat)
    requires WellFormed(Object(ms)) && WellFormed(Object(ns)) && SameUpToOrder(Object(ms), Object(ns))
    requires i < |ms| && i < |ns| && ms[i].key == ns[i].key
    ensures SameUpToOrder(ms[i].value, ns[i].value)
  {
    GetAt(ns, i);
  }

  lemma FingerprintWellFormed(path: Path, contentSha: string, mode: string, existing: Option<nat>)
    ensures WellFormed(FingerprintValue(path, contentSha, mode, existing))
  {
    assert "path"[0] == 'p' && "content_sha256"[0] == 'c' && "mode"[0] == 'm' && "existing_bytes"[0] == 'e';
  }

  /** The text behind a preview id determines path, content hash, mode and the size seen when previewing. */
  lemma FingerprintDeterminesParts(p1: Path, s1: string, m1: string, e1: Option<nat>, p2: Path, s2: string, m2: string, e2: Option<nat>)
    ensures FingerprintText(p1, s1, m1, e1) == FingerprintText(p2, s2, m2, e2)
            <==> p1 == p2 && s1 == s2 && m1 == m2 && e1 == e2
  {
    var v1, v2 := FingerprintValue(p1, s1, m1, e1), FingerprintValue(p2, s2, m2, e2);
    FingerprintWellFormed(p1, s1, m1, e1);
    FingerprintWellFormed(p2, s2, m2, e2);
    SameTextIffSame(v1, v2);
    if SameUpToOrder(v1, v2) {
      FieldAt(v1.members, v2.members, 0);
      FieldAt(v1.members, v2.members, 1);
      FieldAt(v1.members, v2.members, 2);
      FieldAt(v1.members, v2.members, 3);
    }
  }

  /** Among these previews the first sixteen digits of the hash tell texts apart, and the hash tells contents apart. */
  ghost predicate CollisionFree(sha: string -> string, previews: seq<Previewed>) {
    forall a, b | a in previews && b in previews ::
      && (Short(sha(TextBehind(a.record))) == Short(sha(TextBehind(b.record))) ==> TextBehind(a.record) == TextBehind(b.record))
      && (sha(a.record.content) == sha(b.record.content) ==> a.record.content == b.record.content)
  }

  /** A logged preview stands under the id that its own parts hash to. */
  predicate NamedByHash(sha: string -> string, p: Previewed) {
    p.record.contentSha == sha(p.record.content) && p.id == IdFor(sha, p.record)
  }

  lemma {:induction false} RunNamesByHash(sha: string -> string, w: World, events: seq<Event>)
    requires forall i | 0 <= i < |w.previewed| :: NamedByHash(sha, w.previewed[i])
    ensures forall p | p in Run(sha, w, events).previewed :: NamedByHash(sha, p)
    decreases events
  {
    if events != [] {
      var next := Step(sha, w, events[0]);
      RunNamesByHash(sha, next, events[1..]);
    }
  }

  lemma SameIdSameRecord(sha: string -> string, previews: seq<Previewed>, a: Previewed, b: Previewed)
    requires CollisionFree(sha, previews) && a in previews && b in previews
    requires NamedByHash(sha, a) && NamedByHash(sha, b) && a.id == b.id
    ensures a.record == b.record
  {
    assert Short(sha(TextBehind(a.record))) == a.id[|"preview_"|..];
    assert Short(sha(TextBehind(b.record))) == b.id[|"preview_"|..];
    FingerprintDeterminesParts(a.record.path, a.record.contentSha, a.record.mode, a.record.existing,
                               b.record.path, b.record.contentSha, b.record.mode, b.record.existing);
  }

  /** Without collisions among its previews, what an apply of a run writes is what every preview of its id showed. */
  lemma AppliedAsPreviewed(sha: string -> string, disk: Disk, events: seq<Event>, i: nat, p: Previewed)
    requires var w := Run(sha, Initial(disk), events);
             CollisionFree(sha, w.previewed) && i < |w.written| && p in w.previewed && p.id == w.written[i].id
    ensures Run(sha, Initial(disk), events).written[i].record == p.record
  {
    var w := Run(sha, Initial(disk), events);
    RunKeepsInv(sha, disk, Initial(disk), events);
    RunNamesByHash(sha, Initial(disk), events);
    SameIdSameRecord(sha, w.previewed, Previewed(w.written[i].id, w.written[i].record), p);
  }

  lemma SameCertificateSameRecord(sha: string -> string, previews: seq<Previewed>, x: Effect, y: Effect)
    requires CollisionFree(sha, previews) && forall p | p in previews :: NamedByHash(sha, p)
    requires Previewed(x.id, x.record) in previews && Previewed(y.id, y.record) in previews
    requires CertificateFor(x.id, x.record) == CertificateFor(y.id, y.record)
    ensures x.record == y.record
  {
    SameIdSameRecord(sha, previews, Previewed(x.id, x.record), Previewed(y.id, y.record));
  }

  lemma {:induction false} FoldSameRecords(disk: Disk, xs: seq<Effect>, ys: seq<Effect>)
    requires |xs| == |ys| && forall i | 0 <= i < |xs| :: xs[i].record == ys[i].record
    ensures Fold(disk, xs) == Fold(disk, ys)
  {
    if xs != [] {
      FoldSameRecords(disk, xs[..|xs| - 1], ys[..|ys| - 1]);
    }
  }

  /**
   The certificates tell the whole story: two runs over the same initial disk in which the store can always be written, no
   call erases the log, and which end with the same certificates end with the same disk, unless hashes collide among
   their previews.
   */
  lemma {:induction false} CertificatesDetermineDisk(sha: string -> string, disk: Disk, events: seq<Event>, others: seq<Event>)
    requires StoreNeverFails(events) && StoreNeverFails(others)
    requires LogNeverErased(sha, Initial(disk), events) && LogNeverErased(sha, Initial(disk), others)
    requires var w, v := Run(sha, Initial(disk), events), Run(sha, Initial(disk), others);
             CollisionFree(sha, w.previewed + v.previewed) && w.store.applied == v.store.applied
    ensures Run(sha, Initial(disk), events).disk == Run(sha, Initial(disk), others).disk
  {
    var w, v := Run(sha, Initial(disk), events), Run(sha, Initial(disk), others);
    CertifiedRun(sha, disk, events, "");
    CertifiedRun(sha, disk, others, "");
    RunKeepsInv(sha, disk, Initial(disk), events);
    RunKeepsInv(sha, disk, Initial(disk), others);
    RunNamesByHash(sha, Initial(disk), events);
    RunNamesByHash(sha, Initial(disk), others);
    forall i | 0 <= i < |w.written| ensures w.written[i].record == v.written[i].record {
      assert w.store.applied[i] == v.store.applied[i];
      SameCertificateSameRecord(sha, w.previewed + v.previewed, w.written[i], v.written[i]);
    }
    FoldSameRecords(disk, w.written, v.written);
  }

  // ---------- what one call does, spelled out ----------

  /** An argument counts as it is without the white space around it, and must not be empty then. */
  lemma RequiredStringIs(value: Option<string>)
    ensures RequiredString(value).Some? <==> value.Some? && Trim(value.value) != ""
    ensures RequiredString(value).Some? ==> RequiredString(value).value == Trim(value.value)
  {
  }

  /** What is wrong with a preview: a missing argument, a path that is not absolute, an unknown mode, an unwritable store. */
  lemma PreviewFaultIs(event: Event)
    requires event.Preview?
    ensures var path, content, mode := RequiredString(event.path), RequiredString(event.content), RequiredString(event.mode);
            var fault := PreviewFault(event);
            var named := path.Some? && path.value[0] == '/' && content.Some? && mode.Some?;
            && (fault == Some(AbsolutePathRequired) <==> path.Some? && path.value[0] != '/')
            && (fault == Some(MissingField) <==>
                  path.None? || (path.value[0] == '/' && (content.None? || mode.None?)))
            && (fault == Some(InvalidWriteMode) <==>
                  named && mode.value != "create" && mode.value != "replace" && mode.value != "append")
            && (fault == Some(StoreWriteFailed) <==>
                  named && (mode.value == "create" || mode.value == "replace" || mode.value == "append") && !event.storeOk)
            && (fault.Some? ==> fault.value in {AbsolutePathRequired, MissingField, InvalidWriteMode, StoreWriteFailed})
  {
  }

  /** What a good preview stores, and under which id; it writes nothing else. */
  lemma PreviewIs(sha: string -> string, w: World, event: Event)
    requires event.Preview? && PreviewFault(event).None? && event.reading == WHOLE
    ensures var (r, after) := PreviewStep(sha, w, event);
            && r.Ok? && r.value in after.store.previews && after.disk == w.disk && after.written == w.written
            && var record := after.store.previews[r.value];
            && record.path == Trim(event.path.value) && record.content == Trim(event.content.value)
            && record.mode == Trim(event.mode.value) && record.contentSha == sha(Trim(event.content.value))
            && record.existing == (if record.path in w.disk then Some(|w.disk[record.path]|) else None)
            && after.store.applied == w.store.applied && after.store.previews == w.store.previews[r.value := record]
            && after.previewed == w.previewed + [Previewed(r.value, record)]
  {
  }

  /** An id is `preview_` and the first sixteen digits of the hash of a canonical object with these four members. */
  lemma IdIs(sha: string -> string, record: Record)
    ensures var fields := Object([Entry("path", Str(record.path)), Entry("content_sha256", Str(record.contentSha)),
                                  Entry("mode", Str(record.mode)),
                                  Entry("existing_bytes", if record.existing.Some? then Int(record.existing.value) else Null)]);
            var hash := sha(Text(fields));
            |hash| >= 16 ==> IdFor(sha, record) == "preview_" + hash[..16]
  {
  }

  /** What reaches a file: a create makes it, a replace makes it anew, an append leaves what was there in front. */
  lemma WrittenIs(disk: Disk, record: Record)
    ensures var bytes, before := Utf8.Encode(record.content), if record.path in disk then disk[record.path] else [];
            var after := Written(disk, record);
            && (after.Some? <==> (record.mode == "create" && record.path !in disk) || record.mode == "replace" || record.mode == "append")
            && (after.Some? ==>
                  && record.path in after.value
                  && after.value[record.path] == (if record.mode == "append" then before + bytes else bytes)
                  && after.value.Keys == disk.Keys + {record.path}
                  && forall other | other in disk && other != record.path :: after.value[other] == disk[other])
  {
  }

  /**
   An apply that reaches the disk was approved, and found a preview under its id; the file then holds what the preview
   showed, no other file is touched, and a create found none.
   */
  lemma ApplyIs(w: World, event: Event)
    requires event.Apply? && ApplyStep(w, event).1.disk != w.disk
    ensures var after, id := ApplyStep(w, event).1, RequiredString(event.previewId);
            && event.approved && event.fileOk && id.Some? && id.value in w.store.previews
            && var record := w.store.previews[id.value];
            var bytes, before := Utf8.Encode(record.content), if record.path in w.disk then w.disk[record.path] else [];
            && (record.mode == "create" ==> record.path !in w.disk)
            && record.mode in {"create", "replace", "append"}
            && after.disk == w.disk[record.path := if record.mode == "append" then before + bytes else bytes]
  {
    WrittenIs(w.disk, w.store.previews[RequiredString(event.previewId).value]);
  }

  /** What comes of an apply, and what it certifies. */
  lemma CertifiedIs(w: World, event: Event)
    requires event.Apply? && ApplyStep(w, event).0.Ok?
    ensures var (r, after) := ApplyStep(w, event);
            var id := Trim(event.previewId.value);
            && event.approved && event.fileOk && event.storeOk && id in w.store.previews
            && var record := w.store.previews[id];
            && r.value == Certificate(id, record.path, record.mode, record.contentSha)
            && after.store.previews == AsRead(w.store, event.reading).previews - {id}
            && after.store.applied == (if event.reading.applied then w.store.applied else []) + [r.value]
            && |after.written| == |w.written| + 1 && after.written[|w.written|] == Effect(id, record, true)
  {
  }

  /** Why an apply is refused: nothing is written then. */
  lemma ApplyRefusedIs(w: World, event: Event)
    requires event.Apply?
    ensures var (r, after) := ApplyStep(w, event);
            var id := RequiredString(event.previewId);
            var known := id.Some? && event.reading.previews && id.value in w.store.previews;
            && (r == Err(MissingField) <==> id.None?)
            && (r == Err(NotApproved) <==> id.Some? && !event.approved)
            && (r == Err(PreviewNotFound) <==> id.Some? && event.approved && !known)
            && (r in {Err(MissingField), Err(NotApproved), Err(PreviewNotFound), Err(FileWriteFailed)} ==> after == w)
            && (r == Err(FileWriteFailed) ==> event.approved && known)
            && (r == Err(StoreWriteFailed) ==> !event.storeOk && after.store == w.store)
  {
  }
}
