/** The weighted queue: three priority classes served in a cyclic schedule of 21 slots that skips empty classes. */
module Router {
  import opened Results
  import opened Sequences

  datatype Priority = Hi | Md | Lo

  datatype QueueCaps = QueueCaps(hi: nat, md: nat, lo: nat) {
    function For(p: Priority): nat {
      match p case Hi => hi case Md => md case Lo => lo
    }
  }

  datatype QueueFull = QueueFull(priority: Priority, len: nat, cap: nat)

  const SLOTS: nat := 21

  /** A position in the schedule; the cursor never leaves this range. */
  type Slot = s: nat | s < 21

  const SCHEDULE: seq<Priority> :=
    [Hi, Hi, Hi, Hi, Md, Hi, Hi, Hi, Hi, Md, Hi, Hi, Hi, Hi, Md, Hi, Hi, Hi, Hi, Md, Lo]

  // ---------- the queue as a value ----------

  datatype Queue<T> = Queue(hi: seq<T>, md: seq<T>, lo: seq<T>, caps: QueueCaps, cursor: Slot) {
    function For(p: Priority): seq<T> {
      match p case Hi => hi case Md => md case Lo => lo
    }

    function With(p: Priority, items: seq<T>): Queue<T> {
      match p case Hi => this.(hi := items) case Md => this.(md := items) case Lo => this.(lo := items)
    }

    function Total(): nat {
      |hi| + |md| + |lo|
    }

    /** What every operation keeps: no class outgrows its cap. */
    predicate Valid() {
      |hi| <= caps.hi && |md| <= caps.md && |lo| <= caps.lo
    }
  }

  /** The position `k` places after `cursor`, going round. */
  function Advance(cursor: Slot, k: nat): Slot
    requires k <= SLOTS
  {
    if cursor + k < SLOTS then cursor + k else cursor + k - SLOTS
  }

  /** The class a position of the schedule belongs to. */
  function ClassOf(i: Slot): Priority {
    if i == 20 then Lo else if i in {4, 9, 14, 19} then Md else Hi
  }

  lemma ScheduleClass(i: Slot)
    ensures SCHEDULE[i] == ClassOf(i)
    ensures SCHEDULE[i] == if i == 20 then Lo else if i in {4, 9, 14, 19} then Md else Hi
  {
  }

  /** The class that the slot `k` places after `cursor` belongs to. */
  function SlotAt(cursor: Slot, k: nat): Priority
    requires k <= SLOTS
  {
    ClassOf(Advance(cursor, k))
  }

  /** How far after `cursor`, from offset `from` on, the first slot of one of the given classes lies; 21 if none does. */
  function FirstSlot(cursor: Slot, classes: set<Priority>, from: nat): (d: nat)
    requires from <= SLOTS
    ensures from <= d <= SLOTS
    ensures d < SLOTS ==> SlotAt(cursor, d) in classes
    decreases SLOTS - from
  {
    if from == SLOTS || SlotAt(cursor, from) in classes then from else FirstSlot(cursor, classes, from + 1)
  }

  lemma {:induction false} BeforeFirst(cursor: Slot, classes: set<Priority>, from: nat, k: nat)
    requires from <= k && from <= SLOTS && k < FirstSlot(cursor, classes, from)
    ensures SlotAt(cursor, k) !in classes
    decreases SLOTS - from
  {
    if from < k {
      BeforeFirst(cursor, classes, from + 1, k);
    }
  }

  lemma {:induction false} FirstSlotIs(cursor: Slot, classes: set<Priority>, from: nat, d: nat)
    requires from <= d < SLOTS && SlotAt(cursor, d) in classes
    requires forall k | from <= k < d :: SlotAt(cursor, k) !in classes
    ensures FirstSlot(cursor, classes, from) == d
    decreases SLOTS - from
  {
    if from < d {
      FirstSlotIs(cursor, classes, from + 1, d);
    }
  }

  /** More classes are met no later. */
  lemma {:induction false} MoreClassesSooner(cursor: Slot, few: set<Priority>, many: set<Priority>, from: nat)
    requires few <= many && from <= SLOTS
    ensures FirstSlot(cursor, many, from) <= FirstSlot(cursor, few, from)
    decreases SLOTS - from
  {
    if from < SLOTS && SlotAt(cursor, from) !in many {
      MoreClassesSooner(cursor, few, many, from + 1);
    }
  }

  function Waiting<T>(q: Queue<T>): set<Priority> {
    set p: Priority | p in {Hi, Md, Lo} && q.For(p) != []
  }

  /** The class the next pop serves, if any class waits. */
  function Served<T>(q: Queue<T>): Option<Priority> {
    var d := FirstSlot(q.cursor, Waiting(q), 0);
    if d == SLOTS then None else Some(SlotAt(q.cursor, d))
  }

  function Popped<T>(q: Queue<T>): (Option<T>, Queue<T>) {
    var d := FirstSlot(q.cursor, Waiting(q), 0);
    if d == SLOTS then (None, q)
    else
      var p := SlotAt(q.cursor, d);
      (Some(q.For(p)[0]), q.With(p, q.For(p)[1..]).(cursor := Advance(q.cursor, d + 1)))
  }

  function Pushed<T>(q: Queue<T>, p: Priority, item: T): Queue<T> {
    if |q.For(p)| >= q.caps.For(p) then q else q.With(p, q.For(p) + [item])
  }

  // ---------- the queue as an object ----------

  class WeightedQueue<T> {
    var hi: seq<T>
    var md: seq<T>
    var lo: seq<T>
    const caps: QueueCaps
    var cursor: Slot

    function State(): Queue<T>
      reads this
    {
      Queue(hi, md, lo, caps, cursor)
    }

    constructor (caps: QueueCaps)
      ensures State() == Queue([], [], [], caps, 0) && State().Valid()
    {
      this.caps := caps;
      hi, md, lo, cursor := [], [], [], 0;
    }

    function LenFor(p: Priority): nat
      reads this
    {
      match p case Hi => |hi| case Md => |md| case Lo => |lo|
    }

    function IsFull(p: Priority): bool
      reads this
    {
      LenFor(p) >= caps.For(p)
    }

    method Push(p: Priority, item: T) returns (r: Result<(), QueueFull>)
      requires State().Valid()
      modifies this
      ensures State() == Pushed(old(State()), p, item) && State().Valid()
      ensures r == if |old(State()).For(p)| >= caps.For(p)
                   then Err(QueueFull(p, |old(State()).For(p)|, caps.For(p))) else Ok(())
    {
      if IsFull(p) {
        return Err(QueueFull(p, LenFor(p), caps.For(p)));
      }
      match p {
        case Hi => hi := hi + [item];
        case Md => md := md + [item];
        case Lo => lo := lo + [item];
      }
      return Ok(());
    }

    method PopFront(p: Priority) returns (item: T)
      requires LenFor(p) > 0
      modifies this
      ensures item == old(State()).For(p)[0]
      ensures State() == old(State()).With(p, old(State()).For(p)[1..])
    {
      match p {
        case Hi => item := hi[0]; hi := hi[1..];
        case Md => item := md[0]; md := md[1..];
        case Lo => item := lo[0]; lo := lo[1..];
      }
    }

    /** The class of the slot `offset` places after the cursor, and the position that follows it. */
    method Scan(offset: nat) returns (p: Priority, next: Slot)
      requires offset < SLOTS
      ensures p == SlotAt(cursor, offset) && next == Advance(cursor, offset + 1)
    {
      var idx := (cursor + offset) % SLOTS;
      p := SCHEDULE[idx];
      next := (idx + 1) % SLOTS;
      assert idx == Advance(cursor, offset);
      ScheduleClass(idx);
    }

    method Pop() returns (r: Option<T>)
      requires State().Valid()
      modifies this
      ensures (r, State()) == Popped(old(State())) && State().Valid()
      ensures r.None? <==> old(State()).Total() == 0
    {
      if |hi| + |md| + |lo| == 0 {
        return None;
      }
      ghost var d := FirstSlot(cursor, Waiting(State()), 0);
      for offset := 0 to SLOTS
        invariant State() == old(State()) && offset <= d
      {
        var p, next := Scan(offset);
        WaitingIff(State(), p);
        if LenFor(p) == 0 {
          assert offset != d;
          continue;
        }
        if offset < d {
          BeforeFirst(cursor, Waiting(State()), 0, offset);
        }
        ghost var q := State();
        PoppedAt(q, offset, p);
        cursor := next;
        assert State() == q.(cursor := next);
        var item := PopFront(p);
        return Some(item);
      }
      ScanFindsAClass(State());
      assert false;
    }
  }

  lemma PoppedAt<T>(q: Queue<T>, d: nat, p: Priority)
    requires d < SLOTS && d == FirstSlot(q.cursor, Waiting(q), 0) && p == SlotAt(q.cursor, d)
    ensures q.For(p) != []
    ensures Popped(q) == (Some(q.For(p)[0]), q.(cursor := Advance(q.cursor, d + 1)).With(p, q.For(p)[1..]))
  {
  }

  lemma WaitingIff<T>(q: Queue<T>, p: Priority)
    ensures p in Waiting(q) <==> q.For(p) != []
  {
  }

  /** The longest stretch of slots that holds no slot of the class, and one more. */
  function Gap(p: Priority): nat {
    match p case Hi => 3 case Md => 6 case Lo => 21
  }

  /** Every class comes round within its gap. */
  lemma GapBoundsTurn(cursor: Slot, p: Priority)
    ensures FirstSlot(cursor, {p}, 0) < Gap(p)
  {
    var k := match p
      case Hi => if cursor == 19 then 2 else if cursor in {4, 9, 14, 20} then 1 else 0
      case Md => if cursor <= 4 then 4 - cursor else if cursor <= 9 then 9 - cursor else if cursor <= 14 then 14 - cursor
                 else if cursor <= 19 then 19 - cursor else 5
      case Lo => 20 - cursor;
    assert SlotAt(cursor, k) == p;
    if k < FirstSlot(cursor, {p}, 0) {
      BeforeFirst(cursor, {p}, 0, k);
    }
  }

  /** The scan cannot pass all slots of a queue that holds something, so its fall-through is never reached. */
  lemma {:induction false} ScanFindsAClass<T>(q: Queue<T>)
    ensures Served(q).None? <==> q.Total() == 0
    ensures forall p | q.For(p) != [] :: FirstSlot(q.cursor, Waiting(q), 0) <= FirstSlot(q.cursor, {p}, 0) < SLOTS
  {
    forall p | q.For(p) != [] ensures FirstSlot(q.cursor, Waiting(q), 0) <= FirstSlot(q.cursor, {p}, 0) < SLOTS {
      GapBoundsTurn(q.cursor, p);
      WaitingIff(q, p);
      MoreClassesSooner(q.cursor, {p}, Waiting(q), 0);
    }
    if q.Total() > 0 {
      var p := if q.hi != [] then Hi else if q.md != [] then Md else Lo;
      assert q.For(p) != [];
    }
  }

  // ---------- runs ----------

  datatype Op<T> = Push(priority: Priority, item: T) | Pop

  function Apply<T>(q: Queue<T>, op: Op<T>): Queue<T> {
    match op case Push(p, item) => Pushed(q, p, item) case Pop => Popped(q).1
  }

  function Run<T>(q: Queue<T>, ops: seq<Op<T>>): Queue<T>
    decreases ops
  {
    if ops == [] then q else Run(Apply(q, ops[0]), ops[1..])
  }

  function Pops<T>(ops: seq<Op<T>>): nat {
    if ops == [] then 0 else (if ops[0].Pop? then 1 else 0) + Pops(ops[1..])
  }

  /** The item of class `p` that `op` takes out, as a list of at most one. */
  function Taken<T>(q: Queue<T>, op: Op<T>, p: Priority): seq<T> {
    if op.Pop? && Served(q) == Some(p) then [Popped(q).0.value] else []
  }

  /** The item of class `p` that `op` puts in, as a list of at most one. */
  function Accepted<T>(q: Queue<T>, op: Op<T>, p: Priority): seq<T> {
    if op.Push? && op.priority == p && |q.For(p)| < q.caps.For(p) then [op.item] else []
  }

  function AllTaken<T>(q: Queue<T>, ops: seq<Op<T>>, p: Priority): seq<T>
    decreases ops
  {
    if ops == [] then [] else Taken(q, ops[0], p) + AllTaken(Apply(q, ops[0]), ops[1..], p)
  }

  function AllAccepted<T>(q: Queue<T>, ops: seq<Op<T>>, p: Priority): seq<T>
    decreases ops
  {
    if ops == [] then [] else Accepted(q, ops[0], p) + AllAccepted(Apply(q, ops[0]), ops[1..], p)
  }

  lemma NothingBefore<T>(xs: seq<T>)
    ensures [] + xs == xs
  {
  }

  lemma WithFor<T>(q: Queue<T>, r: Priority, items: seq<T>, p: Priority)
    ensures q.With(r, items).For(p) == if p == r then items else q.For(p)
  {
  }

  lemma FrontAndRest<T>(xs: seq<T>)
    requires xs != []
    ensures [xs[0]] + xs[1..] == xs
  {
  }

  lemma PopConserves<T>(q: Queue<T>, p: Priority)
    ensures Taken(q, Pop, p) + Popped(q).1.For(p) == q.For(p)
  {
    var d := FirstSlot(q.cursor, Waiting(q), 0);
    NothingBefore(q.For(p));
    if d < SLOTS {
      var r := SlotAt(q.cursor, d);
      PoppedAt(q, d, r);
      WithFor(q.(cursor := Advance(q.cursor, d + 1)), r, q.For(r)[1..], p);
      FrontAndRest(q.For(r));
    }
  }

  lemma PopKeepsValid<T>(q: Queue<T>)
    requires q.Valid()
    ensures Popped(q).1.Valid()
  {
  }

  /** One operation moves at most one item and keeps every class within its cap. */
  lemma StepConserves<T>(q: Queue<T>, op: Op<T>, p: Priority)
    requires q.Valid()
    ensures Apply(q, op).Valid()
    ensures Taken(q, op, p) + Apply(q, op).For(p) == q.For(p) + Accepted(q, op, p)
  {
    if op.Pop? {
      PopConserves(q, p);
      PopKeepsValid(q);
      assert q.For(p) + [] == q.For(p);
    }
  }

  /**
   Over any run, what a class gave out followed by what it still holds is what it held followed by what it accepted: order
   is kept, and nothing is lost or made up. Caps hold throughout.
   */
  lemma {:induction false} FirstInFirstOut<T>(q: Queue<T>, ops: seq<Op<T>>, p: Priority)
    requires q.Valid()
    ensures Run(q, ops).Valid()
    ensures AllTaken(q, ops, p) + Run(q, ops).For(p) == q.For(p) + AllAccepted(q, ops, p)
    decreases ops
  {
    if ops != [] {
      var next := Apply(q, ops[0]);
      StepConserves(q, ops[0], p);
      FirstInFirstOut(next, ops[1..], p);
      Regroup(Taken(q, ops[0], p), AllTaken(next, ops[1..], p), Run(q, ops).For(p));
      Regroup(Taken(q, ops[0], p), next.For(p), AllAccepted(next, ops[1..], p));
      Regroup(q.For(p), Accepted(q, ops[0], p), AllAccepted(next, ops[1..], p));
    }
  }

  // ---------- how long an item waits ----------

  /** The slots gone through until class `p` has had its next turn. */
  function Turn(cursor: Slot, p: Priority): (t: nat)
    ensures 1 <= t <= Gap(p)
  {
    GapBoundsTurn(cursor, p);
    FirstSlot(cursor, {p}, 0) + 1
  }

  /** The slots gone through until class `p` has had its turn `ahead + 1` times. */
  function Wait(cursor: Slot, p: Priority, ahead: nat): nat
    decreases ahead
  {
    Turn(cursor, p) + if ahead == 0 then 0 else Wait(Advance(cursor, Turn(cursor, p)), p, ahead - 1)
  }

  lemma WaitFrom(cursor: Slot, p: Priority, ahead: nat, after: Slot)
    requires after == Advance(cursor, Turn(cursor, p))
    ensures Wait(cursor, p, ahead) == Turn(cursor, p) + if ahead == 0 then 0 else Wait(after, p, ahead - 1)
  {
  }

  lemma {:induction false} WaitBound(cursor: Slot, p: Priority, ahead: nat)
    ensures ahead < Wait(cursor, p, ahead) <= Gap(p) * (ahead + 1)
    decreases ahead
  {
    if ahead > 0 {
      WaitBound(Advance(cursor, Turn(cursor, p)), p, ahead - 1);
    }
  }

  /** Going `d` slots on brings the next turn of `p` nearer by `d`, as long as it is not passed. */
  lemma TurnComesNearer(cursor: Slot, p: Priority, d: nat)
    requires d <= FirstSlot(cursor, {p}, 0)
    ensures FirstSlot(Advance(cursor, d), {p}, 0) == FirstSlot(cursor, {p}, 0) - d
  {
    GapBoundsTurn(cursor, p);
    var there, turn := Advance(cursor, d), FirstSlot(cursor, {p}, 0);
    forall k | 0 <= k < turn - d ensures SlotAt(there, k) !in {p} {
      BeforeFirst(cursor, {p}, 0, d + k);
      assert Advance(there, k) == Advance(cursor, d + k);
    }
    assert Advance(there, turn - d) == Advance(cursor, turn);
    FirstSlotIs(there, {p}, 0, turn - d);
  }

  lemma WaitShrinks(cursor: Slot, p: Priority, ahead: nat, d: nat)
    requires d + 1 < Turn(cursor, p)
    ensures Wait(Advance(cursor, d + 1), p, ahead) == Wait(cursor, p, ahead) - (d + 1)
  {
    var turn := Turn(cursor, p);
    TurnComesNearer(cursor, p, d + 1);
    assert Turn(Advance(cursor, d + 1), p) == turn - (d + 1);
    assert Advance(Advance(cursor, d + 1), turn - (d + 1)) == Advance(cursor, turn);
    WaitFrom(cursor, p, ahead, Advance(cursor, turn));
    WaitFrom(Advance(cursor, d + 1), p, ahead, Advance(cursor, turn));
  }

  /** A pop that serves `p` meets it at its next turn; a pop that serves another class does so before that turn. */
  lemma ServedWhere<T>(q: Queue<T>, p: Priority)
    requires q.For(p) != []
    ensures Served(q) == Some(p) ==> FirstSlot(q.cursor, Waiting(q), 0) == FirstSlot(q.cursor, {p}, 0) < SLOTS
    ensures Served(q) != Some(p) ==> FirstSlot(q.cursor, Waiting(q), 0) < FirstSlot(q.cursor, {p}, 0) < SLOTS
  {
    GapBoundsTurn(q.cursor, p);
    WaitingIff(q, p);
    MoreClassesSooner(q.cursor, {p}, Waiting(q), 0);
    var d, turn := FirstSlot(q.cursor, Waiting(q), 0), FirstSlot(q.cursor, {p}, 0);
    if Served(q) == Some(p) && d < turn {
      BeforeFirst(q.cursor, {p}, 0, d);
    }
  }

  /** A pop that serves another class leaves `p` alone and brings its next turn nearer. */
  lemma OtherServed<T>(q: Queue<T>, p: Priority, ahead: nat)
    requires q.For(p) != [] && Served(q) != Some(p)
    ensures Popped(q).1.For(p) == q.For(p)
    ensures Wait(Popped(q).1.cursor, p, ahead) < Wait(q.cursor, p, ahead)
  {
    ServedWhere(q, p);
    var d := FirstSlot(q.cursor, Waiting(q), 0);
    PoppedAt(q, d, SlotAt(q.cursor, d));
    WaitShrinks(q.cursor, p, ahead, d);
  }

  /** A pop that serves `p` takes its front item, and what waited behind it has one turn less to wait for. */
  lemma SelfServed<T>(q: Queue<T>, p: Priority, ahead: nat)
    requires q.For(p) != [] && Served(q) == Some(p)
    ensures Popped(q).0 == Some(q.For(p)[0]) && Popped(q).1.For(p) == q.For(p)[1..]
    ensures ahead > 0 ==> Wait(Popped(q).1.cursor, p, ahead - 1) < Wait(q.cursor, p, ahead)
  {
    ServedWhere(q, p);
    var d := FirstSlot(q.cursor, Waiting(q), 0);
    PoppedAt(q, d, p);
    WaitFrom(q.cursor, p, ahead, Advance(q.cursor, d + 1));
  }

  /** The run `ops` takes out, as number `ahead` of class `p`, the item that stood there in the queue. */
  ghost predicate TakesOut<T>(q: Queue<T>, ops: seq<Op<T>>, p: Priority, ahead: nat) {
    ahead < |q.For(p)| && ahead < |AllTaken(q, ops, p)| && AllTaken(q, ops, p)[ahead] == q.For(p)[ahead]
  }

  /** An operation that takes nothing from the class leaves item number `ahead` where it is. */
  lemma NothingTaken<T>(q: Queue<T>, ops: seq<Op<T>>, p: Priority, ahead: nat)
    requires q.Valid() && ops != [] && Taken(q, ops[0], p) == [] && ahead < |q.For(p)|
    ensures ahead < |Apply(q, ops[0]).For(p)|
    ensures TakesOut(Apply(q, ops[0]), ops[1..], p, ahead) ==> TakesOut(q, ops, p, ahead)
  {
    StepConserves(q, ops[0], p);
    NothingBefore(Apply(q, ops[0]).For(p));
    NothingBefore(AllTaken(Apply(q, ops[0]), ops[1..], p));
  }

  /** A pop of the class takes its front item and moves the others up by one. */
  lemma FrontTaken<T>(q: Queue<T>, ops: seq<Op<T>>, p: Priority, ahead: nat)
    requires q.Valid() && ops != [] && ops[0].Pop? && Served(q) == Some(p) && ahead < |q.For(p)|
    requires Popped(q).0 == Some(q.For(p)[0]) && Popped(q).1.For(p) == q.For(p)[1..]
    requires ahead > 0 ==> TakesOut(Apply(q, ops[0]), ops[1..], p, ahead - 1)
    ensures TakesOut(q, ops, p, ahead)
  {
    assert AllTaken(q, ops, p) == [q.For(p)[0]] + AllTaken(Apply(q, ops[0]), ops[1..], p);
  }

  /** An operation that does not serve the class leaves no longer a wait: one slot fewer at least if it is a pop. */
  lemma WaitAfterOther<T>(q: Queue<T>, op: Op<T>, p: Priority, ahead: nat)
    requires q.For(p) != [] && (op.Pop? ==> Served(q) != Some(p))
    ensures Taken(q, op, p) == []
    ensures Wait(Apply(q, op).cursor, p, ahead) + (if op.Pop? then 1 else 0) <= Wait(q.cursor, p, ahead)
  {
    if op.Pop? {
      OtherServed(q, p, ahead);
    } else {
      PushKeepsCursor(q, op);
    }
  }

  lemma ApplyKeepsValid<T>(q: Queue<T>, op: Op<T>)
    requires q.Valid()
    ensures Apply(q, op).Valid()
  {
    StepConserves(q, op, Hi);
  }

  /** A pop of the class brings the item out, or one place and one turn nearer. */
  lemma NearerBySelf<T>(q: Queue<T>, ops: seq<Op<T>>, p: Priority, ahead: nat)
    requires q.Valid() && ops != [] && ops[0].Pop? && Served(q) == Some(p) && ahead < |q.For(p)|
    ensures Apply(q, ops[0]).Valid()
    ensures ahead == 0 ==> TakesOut(q, ops, p, ahead)
    ensures ahead > 0 ==>
      var next := Apply(q, ops[0]);
      && ahead - 1 < |next.For(p)| && Wait(next.cursor, p, ahead - 1) < Wait(q.cursor, p, ahead)
      && (TakesOut(next, ops[1..], p, ahead - 1) ==> TakesOut(q, ops, p, ahead))
  {
    ApplyKeepsValid(q, ops[0]);
    SelfServed(q, p, ahead);
    if ahead == 0 || TakesOut(Apply(q, ops[0]), ops[1..], p, ahead - 1) {
      FrontTaken(q, ops, p, ahead);
    }
  }

  /** Any other operation leaves the item its place, and a pop brings its turn nearer. */
  lemma NearerByOther<T>(q: Queue<T>, ops: seq<Op<T>>, p: Priority, ahead: nat)
    requires q.Valid() && ops != [] && (ops[0].Pop? ==> Served(q) != Some(p)) && ahead < |q.For(p)|
    ensures var next := Apply(q, ops[0]);
            && next.Valid() && ahead < |next.For(p)|
            && Wait(next.cursor, p, ahead) + (if ops[0].Pop? then 1 else 0) <= Wait(q.cursor, p, ahead)
            && (TakesOut(next, ops[1..], p, ahead) ==> TakesOut(q, ops, p, ahead))
  {
    ApplyKeepsValid(q, ops[0]);
    WaitAfterOther(q, ops[0], p, ahead);
    NothingTaken(q, ops, p, ahead);
  }

  /** However pushes are interleaved, after `Wait` pops the item with `ahead` items before it in its class is out. */
  lemma {:induction false} ServedAfterWait<T>(q: Queue<T>, ops: seq<Op<T>>, p: Priority, ahead: nat)
    requires q.Valid() && ahead < |q.For(p)| && Pops(ops) >= Wait(q.cursor, p, ahead)
    ensures TakesOut(q, ops, p, ahead)
    decreases ops
  {
    WaitBound(q.cursor, p, ahead);
    if ops[0].Pop? && Served(q) == Some(p) {
      NearerBySelf(q, ops, p, ahead);
      if ahead > 0 {
        ServedAfterWait(Apply(q, ops[0]), ops[1..], p, ahead - 1);
      }
    } else {
      NearerByOther(q, ops, p, ahead);
      ServedAfterWait(Apply(q, ops[0]), ops[1..], p, ahead);
    }
  }

  lemma PushKeepsCursor<T>(q: Queue<T>, op: Op<T>)
    requires op.Push?
    ensures Apply(q, op).cursor == q.cursor
  {
  }

  /**
   No class starves: whatever the cursor and whatever is pushed meanwhile, an item with `ahead` items before it in its
   class comes out within 3, 6 or 21 times `ahead + 1` pops, by class.
   */
  lemma ServedWithinGap<T>(q: Queue<T>, ops: seq<Op<T>>, p: Priority, ahead: nat)
    requires q.Valid() && ahead < |q.For(p)|
    requires Pops(ops) >= (match p case Hi => 3 case Md => 6 case Lo => 21) * (ahead + 1)
    ensures TakesOut(q, ops, p, ahead)
  {
    WaitBound(q.cursor, p, ahead);
    ServedAfterWait(q, ops, p, ahead);
  }

  lemma GapGrows(p: Priority, a: nat, b: nat)
    requires a <= b
    ensures Gap(p) * a <= Gap(p) * b
  {
  }

  /** An item that a push admitted is out after at most `Gap * cap` pops. */
  lemma AdmittedItemIsServed<T>(q: Queue<T>, p: Priority, item: T, ops: seq<Op<T>>)
    requires q.Valid() && |q.For(p)| < q.caps.For(p)
    requires Pops(ops) >= Gap(p) * q.caps.For(p)
    ensures var admitted := Pushed(q, p, item);
            |q.For(p)| < |AllTaken(admitted, ops, p)| && AllTaken(admitted, ops, p)[|q.For(p)|] == item
  {
    var admitted, ahead := Pushed(q, p, item), |q.For(p)|;
    StepConserves(q, Push(p, item), p);
    assert admitted.For(p) == q.For(p) + [item];
    GapGrows(p, ahead + 1, q.caps.For(p));
    ServedWithinGap(admitted, ops, p, ahead);
  }

  /** The bounds are met: from these cursors a class waits the full 3, 6 or 21 slots for its turn. */
  lemma GapIsAttained()
    ensures Wait(19, Hi, 0) == Gap(Hi) && Wait(20, Md, 0) == Gap(Md) && Wait(0, Lo, 0) == Gap(Lo)
  {
    FirstSlotIs(19, {Hi}, 0, 2);
    FirstSlotIs(20, {Md}, 0, 5);
    FirstSlotIs(0, {Lo}, 0, 20);
  }

  // ---------- shares under load ----------

  /** How many of the `n` slots from `cursor` on belong to class `p`. */
  function CountSlots(cursor: Slot, n: nat, p: Priority): nat
    decreases n
  {
    if n == 0 then 0
    else (if SlotAt(cursor, 0) == p then 1 else 0) + CountSlots(Advance(cursor, 1), n - 1, p)
  }

  function Share(p: Priority): nat {
    match p case Hi => 16 case Md => 4 case Lo => 1
  }

  lemma {:induction false} CountOneMore(cursor: Slot, n: nat, p: Priority)
    requires n <= SLOTS
    ensures CountSlots(cursor, n + 1, p) == CountSlots(cursor, n, p) + (if SlotAt(cursor, n) == p then 1 else 0)
    decreases n
  {
    if n > 0 {
      CountOneMore(Advance(cursor, 1), n - 1, p);
      assert Advance(Advance(cursor, 1), n - 1) == Advance(cursor, n);
    }
  }

  /** Class `Md` places among the first `n` of the schedule. */
  function MdAmong(n: nat): nat {
    (if n > 4 then 1 else 0) + (if n > 9 then 1 else 0) + (if n > 14 then 1 else 0) + (if n > 19 then 1 else 0)
  }

  /** Counting from the start of the schedule. */
  lemma {:induction false} CountFromStart(n: nat, p: Priority)
    requires n <= 20
    ensures CountSlots(0, n, p) == match p case Hi => n - MdAmong(n) case Md => MdAmong(n) case Lo => 0
  {
    if n > 0 {
      CountFromStart(n - 1, p);
      CountOneMore(0, n - 1, p);
    }
  }

  /** Any 21 consecutive slots hold 16, 4 and 1 of the classes. */
  lemma {:induction false} RoundShares(cursor: Slot, p: Priority)
    ensures CountSlots(cursor, SLOTS, p) == Share(p)
  {
    if cursor == 0 {
      CountFromStart(20, p);
      CountOneMore(0, 20, p);
    } else {
      RoundShares(cursor - 1, p);
      CountOneMore(cursor - 1, SLOTS, p);
    }
  }

  /** Every class holds at least as many items as it has slots among the next `n`. */
  ghost predicate Stocked<T>(q: Queue<T>, n: nat) {
    forall p :: |q.For(p)| >= CountSlots(q.cursor, n, p)
  }

  lemma StockedPop<T>(q: Queue<T>, n: nat)
    requires q.Valid() && n > 0 && Stocked(q, n)
    ensures Served(q) == Some(SlotAt(q.cursor, 0)) && Popped(q).1.cursor == Advance(q.cursor, 1)
    ensures Stocked(Popped(q).1, n - 1)
  {
    var p := SlotAt(q.cursor, 0);
    assert CountSlots(q.cursor, n, p) >= 1;
    LoadedPopServesCursor(q);
    PoppedAt(q, 0, p);
    var next := Popped(q).1;
    forall r ensures |next.For(r)| >= CountSlots(next.cursor, n - 1, r) {
      assert CountSlots(q.cursor, n, r) == (if p == r then 1 else 0) + CountSlots(next.cursor, n - 1, r);
      assert |next.For(r)| == |q.For(r)| - if p == r then 1 else 0;
    }
  }

  lemma StockedPush<T>(q: Queue<T>, n: nat, op: Op<T>)
    requires Stocked(q, n) && op.Push?
    ensures Stocked(Apply(q, op), n)
  {
    forall p ensures |Apply(q, op).For(p)| >= |q.For(p)| {
    }
  }

  /** While no class runs short, one operation serves the class at the cursor, or none if it is a push. */
  lemma StockedStep<T>(q: Queue<T>, op: Op<T>, n: nat, p: Priority)
    requires q.Valid() && Stocked(q, n) && (op.Pop? ==> n > 0)
    ensures var next := Apply(q, op);
            && next.Valid() && Stocked(next, if op.Pop? then n - 1 else n)
            && next.cursor == (if op.Pop? then Advance(q.cursor, 1) else q.cursor)
            && |Taken(q, op, p)| == (if op.Pop? && SlotAt(q.cursor, 0) == p then 1 else 0)
  {
    StepConserves(q, op, p);
    if op.Pop? {
      StockedPop(q, n);
    } else {
      StockedPush(q, n, op);
      PushKeepsCursor(q, op);
    }
  }

  lemma TakenFirst<T>(q: Queue<T>, ops: seq<Op<T>>, p: Priority)
    requires ops != []
    ensures |AllTaken(q, ops, p)| == |Taken(q, ops[0], p)| + |AllTaken(Apply(q, ops[0]), ops[1..], p)|
  {
  }

  /** While no class runs short, pops serve exactly the slots the cursor passes. */
  lemma {:induction false} LoadedPopsFollowSchedule<T>(q: Queue<T>, ops: seq<Op<T>>, p: Priority)
    requires q.Valid() && Stocked(q, Pops(ops))
    ensures |AllTaken(q, ops, p)| == CountSlots(q.cursor, Pops(ops), p)
    decreases ops
  {
    if ops != [] {
      StockedStep(q, ops[0], Pops(ops), p);
      TakenFirst(q, ops, p);
      LoadedPopsFollowSchedule(Apply(q, ops[0]), ops[1..], p);
    }
  }

  lemma AdvanceOneMore(cursor: Slot, n: nat)
    requires 0 < n <= SLOTS
    ensures Advance(Advance(cursor, 1), n - 1) == Advance(cursor, n)
  {
  }

  lemma {:induction false} LoadedPopsMoveCursor<T>(q: Queue<T>, ops: seq<Op<T>>)
    requires q.Valid() && Stocked(q, Pops(ops)) && Pops(ops) <= SLOTS
    ensures Run(q, ops).cursor == Advance(q.cursor, Pops(ops))
    decreases ops
  {
    if ops != [] {
      StockedStep(q, ops[0], Pops(ops), Hi);
      LoadedPopsMoveCursor(Apply(q, ops[0]), ops[1..]);
      if ops[0].Pop? {
        AdvanceOneMore(q.cursor, Pops(ops));
      }
    }
  }

  lemma LoadedPopServesCursor<T>(q: Queue<T>)
    requires q.For(SlotAt(q.cursor, 0)) != []
    ensures FirstSlot(q.cursor, Waiting(q), 0) == 0 && Served(q) == Some(SlotAt(q.cursor, 0))
    ensures Popped(q).1.cursor == Advance(q.cursor, 1)
  {
    WaitingIff(q, SlotAt(q.cursor, 0));
  }

  // ---------- the wait is met ----------

  /** How one slot shortens the wait. */
  lemma WaitAfterSlot(cursor: Slot, p: Priority, ahead: nat)
    ensures SlotAt(cursor, 0) == p && ahead == 0 ==> Wait(cursor, p, ahead) == 1
    ensures SlotAt(cursor, 0) == p && ahead > 0 ==> Wait(Advance(cursor, 1), p, ahead - 1) == Wait(cursor, p, ahead) - 1
    ensures SlotAt(cursor, 0) != p ==> Wait(Advance(cursor, 1), p, ahead) == Wait(cursor, p, ahead) - 1
  {
    if SlotAt(cursor, 0) == p {
      FirstSlotIs(cursor, {p}, 0, 0);
      WaitFrom(cursor, p, ahead, Advance(cursor, 1));
    } else {
      assert FirstSlot(cursor, {p}, 0) > 0;
      WaitShrinks(cursor, p, ahead, 0);
    }
  }

  /** Before the slots until its turn are gone through, a class has not come round `ahead + 1` times. */
  lemma {:induction false} CountBeforeWait(cursor: Slot, n: nat, p: Priority, ahead: nat)
    requires n < Wait(cursor, p, ahead)
    ensures CountSlots(cursor, n, p) <= ahead
    decreases n
  {
    if n > 0 {
      WaitAfterSlot(cursor, p, ahead);
      CountBeforeWait(Advance(cursor, 1), n - 1, p, if SlotAt(cursor, 0) == p then ahead - 1 else ahead);
    }
  }

  /**
   While no class runs short, the item with `ahead` items before it in its class is out exactly when the pops have
   reached the slots until its turn: the wait can be no shorter.
   */
  lemma ServedExactlyAtWait<T>(q: Queue<T>, ops: seq<Op<T>>, p: Priority, ahead: nat)
    requires q.Valid() && Stocked(q, Pops(ops)) && ahead < |q.For(p)|
    ensures TakesOut(q, ops, p, ahead) <==> Pops(ops) >= Wait(q.cursor, p, ahead)
  {
    LoadedPopsFollowSchedule(q, ops, p);
    if Pops(ops) < Wait(q.cursor, p, ahead) {
      CountBeforeWait(q.cursor, Pops(ops), p, ahead);
    } else {
      ServedAfterWait(q, ops, p, ahead);
    }
  }

  function Copies<T>(x: T, n: nat): (xs: seq<T>)
    ensures |xs| == n
  {
    if n == 0 then [] else [x] + Copies(x, n - 1)
  }

  lemma {:induction false} PopsOfCopies<T>(n: nat)
    ensures Pops(Copies<Op<T>>(Pop, n)) == n
  {
    if n > 0 {
      PopsOfCopies<T>(n - 1);
      assert Copies<Op<T>>(Pop, n)[1..] == Copies<Op<T>>(Pop, n - 1);
    }
  }

  lemma {:induction false} CountAtMost(cursor: Slot, n: nat, p: Priority)
    ensures CountSlots(cursor, n, p) <= n
    decreases n
  {
    if n > 0 {
      CountAtMost(Advance(cursor, 1), n - 1, p);
    }
  }

  /** For every cursor, class and place there is a queue in which one pop fewer than the wait leaves the item where it is. */
  lemma WaitIsAttained<T>(cursor: Slot, p: Priority, ahead: nat, item: T) returns (q: Queue<T>, ops: seq<Op<T>>)
    ensures q.Valid() && q.cursor == cursor && ahead < |q.For(p)|
    ensures Pops(ops) == Wait(cursor, p, ahead) - 1 && !TakesOut(q, ops, p, ahead)
  {
    var n := Wait(cursor, p, ahead);
    assert ahead < n by {
      WaitBound(cursor, p, ahead);
    }
    var items := Copies(item, n);
    q := Queue(items, items, items, QueueCaps(n, n, n), cursor);
    ops := Copies(Pop, n - 1);
    PopsOfCopies<T>(n - 1);
    forall r ensures |q.For(r)| >= CountSlots(q.cursor, n - 1, r) {
      CountAtMost(cursor, n - 1, r);
    }
    ServedExactlyAtWait(q, ops, p, ahead);
  }

  // ---------- rounds ----------

  ghost predicate Loaded<T>(q: Queue<T>) {
    q.Valid() && |q.hi| >= 16 && |q.md| >= 4 && |q.lo| >= 1
  }

  /** From any cursor, 21 pops of a loaded queue serve 16, 4 and 1 items and bring the cursor back where it was. */
  lemma RoundServesShares<T>(q: Queue<T>, ops: seq<Op<T>>)
    requires Loaded(q) && Pops(ops) == 21
    ensures |AllTaken(q, ops, Hi)| == 16 && |AllTaken(q, ops, Md)| == 4 && |AllTaken(q, ops, Lo)| == 1
    ensures Run(q, ops).cursor == q.cursor
  {
    forall p ensures CountSlots(q.cursor, 21, p) == Share(p) && |q.For(p)| >= Share(p) {
      RoundShares(q.cursor, p);
    }
    LoadedPopsFollowSchedule(q, ops, Hi);
    LoadedPopsFollowSchedule(q, ops, Md);
    LoadedPopsFollowSchedule(q, ops, Lo);
    LoadedPopsMoveCursor(q, ops);
  }

  /** Each round has 21 pops and finds the queue loaded. */
  ghost predicate LoadedRounds<T>(q: Queue<T>, rounds: seq<seq<Op<T>>>)
    decreases rounds
  {
    rounds == [] || (Loaded(q) && Pops(rounds[0]) == 21 && LoadedRounds(Run(q, rounds[0]), rounds[1..]))
  }

  function TakenInRounds<T>(q: Queue<T>, rounds: seq<seq<Op<T>>>, p: Priority): nat
    decreases rounds
  {
    if rounds == [] then 0 else |AllTaken(q, rounds[0], p)| + TakenInRounds(Run(q, rounds[0]), rounds[1..], p)
  }

  /** Over m such rounds the classes get 16m, 4m and m of the 21m pops. */
  lemma {:induction false} LongRunShares<T>(q: Queue<T>, rounds: seq<seq<Op<T>>>)
    requires LoadedRounds(q, rounds)
    ensures TakenInRounds(q, rounds, Hi) == 16 * |rounds|
    ensures TakenInRounds(q, rounds, Md) == 4 * |rounds|
    ensures TakenInRounds(q, rounds, Lo) == |rounds|
    decreases rounds
  {
    if rounds != [] {
      RoundServesShares(q, rounds[0]);
      LongRunShares(Run(q, rounds[0]), rounds[1..]);
    }
  }

  // ---------- one push and one pop, spelled out ----------

  /** A push goes to the back of its own class exactly while that holds less than its own cap; nothing else changes. */
  lemma PushIs<T>(q: Queue<T>, item: T)
    ensures Pushed(q, Hi, item) == if |q.hi| < q.caps.hi then q.(hi := q.hi + [item]) else q
    ensures Pushed(q, Md, item) == if |q.md| < q.caps.md then q.(md := q.md + [item]) else q
    ensures Pushed(q, Lo, item) == if |q.lo| < q.caps.lo then q.(lo := q.lo + [item]) else q
  {
  }

  /** The queue of one class. */
  lemma ClassIs<T>(q: Queue<T>)
    ensures q.For(Hi) == q.hi && q.For(Md) == q.md && q.For(Lo) == q.lo
    ensures q.caps.For(Hi) == q.caps.hi && q.caps.For(Md) == q.caps.md && q.caps.For(Lo) == q.caps.lo
  {
  }

  /** The class whose turn it is `k` places after the cursor. */
  function TurnOf(cursor: Slot, k: nat): Priority {
    SCHEDULE[(cursor + k) % 21]
  }

  lemma TurnIsSlot(cursor: Slot, k: nat)
    requires k <= SLOTS
    ensures Advance(cursor, k) == (cursor + k) % 21 && TurnOf(cursor, k) == SlotAt(cursor, k)
  {
    ScheduleClass(Advance(cursor, k));
  }

  lemma EmptyBeforeServed<T>(q: Queue<T>, k: nat)
    requires k < FirstSlot(q.cursor, Waiting(q), 0)
    ensures q.For(TurnOf(q.cursor, k)) == []
  {
    BeforeFirst(q.cursor, Waiting(q), 0, k);
    TurnIsSlot(q.cursor, k);
    WaitingIff(q, TurnOf(q.cursor, k));
  }

  /**
   A pop serves the first slot of the schedule, from the cursor on and round, whose class holds something: it takes the
   front of that class, moves the cursor behind the slot and changes nothing else.
   */
  lemma PopIs<T>(q: Queue<T>) returns (d: nat)
    requires q.hi != [] || q.md != [] || q.lo != []
    ensures d < 21 && forall k | 0 <= k < d :: q.For(TurnOf(q.cursor, k)) == []
    ensures var p, after := TurnOf(q.cursor, d), Popped(q).1;
            && q.For(p) != [] && Popped(q).0 == Some(q.For(p)[0])
            && after == q.(hi := after.hi, md := after.md, lo := after.lo, cursor := (q.cursor + d + 1) % 21)
            && after.hi == (if p == Hi then q.hi[1..] else q.hi)
            && after.md == (if p == Md then q.md[1..] else q.md)
            && after.lo == (if p == Lo then q.lo[1..] else q.lo)
  {
    d := FirstSlot(q.cursor, Waiting(q), 0);
    SomeClassWaits(q);
    TurnIsSlot(q.cursor, d);
    TurnIsSlot(q.cursor, d + 1);
    PoppedAt(q, d, TurnOf(q.cursor, d));
    forall k | 0 <= k < d ensures q.For(TurnOf(q.cursor, k)) == [] {
      EmptyBeforeServed(q, k);
    }
  }

  lemma SomeClassWaits<T>(q: Queue<T>)
    requires q.hi != [] || q.md != [] || q.lo != []
    ensures FirstSlot(q.cursor, Waiting(q), 0) < SLOTS
  {
    ScanFindsAClass(q);
  }
}
