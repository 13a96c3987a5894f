/**
 The work-stealing deque as a concurrent protocol: one owner at `bottom`, any number of
 thieves at `top`, every operation a program counter over sequentially consistent steps.
 A weak compare-and-swap may fail although the expected value is there.
 */
module DequeProtocol {
  import opened Bits
  import opened Options

  /** Where the owner is; `b` and `t` are its local copies of `bottom` and `top`. */
  datatype OwnerPc<T> =
    | OwnerIdle
    | PushLoadTop(task: T, b: nat)
    | PushReserve(task: T, b: nat, t: nat)
    | PushWrite(task: T, b: nat)
    | PushPublish(task: T, b: nat)
    | PopStore(b: nat)
    | PopLoadTop(b: nat)
    | PopRead(b: nat, t: nat)
    | PopCas(b: nat, t: nat, task: T)
    | PopRestore(b: nat, got: Option<T>)

  datatype ThiefPc<T> =
    | ThiefIdle
    | StealLoadBottom(t: nat)
    | StealRead(t: nat)
    | StealCas(t: nat, task: T)

  /**
   The shared words (`top`, `bottom`, the ring and its capacity), the program counters, and
   the tasks whose push, pop and steal have completed, in completion order.
   */
  datatype State<T> = State(
    top: nat, bottom: nat, slots: seq<T>,
    owner: OwnerPc<T>, thieves: seq<ThiefPc<T>>,
    pushed: seq<T>, popped: seq<T>, stolen: seq<T>)

  /** One atomic step: who moves, the push argument, and whether a weak CAS fails spuriously. */
  datatype Action<T> =
    | BeginPush(task: T)
    | BeginPop
    | OwnerStep(spurious: bool)
    | ThiefStep(thief: nat, spurious: bool)

  /** `i & (capacity - 1)`. */
  function Slot(i: nat, capacity: nat): (r: nat)
    requires IsPow2(capacity)
    ensures r == i % capacity && r < capacity
  {
    AndMaskIsMod(i, capacity);
    And(i, capacity - 1)
  }

  // ---- Growing the ring ----

  /** The new ring: slot `i & (c - 1)` holds old slot `i & mask` for every `i` in `[top, bottom)`. */
  function Grow<T>(slots: seq<T>, top: nat, bottom: nat, c: nat, blank: T): (r: seq<T>)
    requires IsPow2(|slots|) && IsPow2(c)
    ensures |r| == c
    decreases bottom - top
  {
    if top >= bottom then seq(c, _ => blank)
    else Grow(slots, top, bottom - 1, c, blank)[Slot(bottom - 1, c) := slots[Slot(bottom - 1, |slots|)]]
  }

  lemma {:induction false} GrowKeepsWindow<T>(slots: seq<T>, top: nat, bottom: nat, c: nat, blank: T, i: nat)
    requires IsPow2(|slots|) && IsPow2(c)
    requires bottom - top <= c && top <= i < bottom
    ensures Grow(slots, top, bottom, c, blank)[Slot(i, c)] == slots[Slot(i, |slots|)]
    decreases bottom
  {
    if i < bottom - 1 {
      GrowKeepsWindow(slots, top, bottom - 1, c, blank, i);
      ModDistinct(i, bottom - 1, c);
    }
  }

  // ---- Steps ----

  predicate Enabled<T>(s: State<T>, a: Action<T>) {
    match a
    case BeginPush(_) => s.owner.OwnerIdle?
    case BeginPop => s.owner.OwnerIdle?
    case OwnerStep(_) => !s.owner.OwnerIdle?
    case ThiefStep(i, _) => i < |s.thieves|
  }

  /** The check for a full ring, growing it when the limit allows: the new ring and whether there is room. */
  function Reserve<T>(s: State<T>, task: T, b: nat, t: nat, maxCapacity: nat): (seq<T>, bool)
    requires IsPow2(|s.slots|)
  {
    if b - t < |s.slots| - 1 then (s.slots, true)
    else
      var slots := if |s.slots| < maxCapacity && 2 * |s.slots| <= maxCapacity
                   then Grow(s.slots, s.top, s.bottom, 2 * |s.slots|, task) else s.slots;
      (slots, b - t < |slots| - 1)
  }

  function StepOwner<T>(s: State<T>, spurious: bool, maxCapacity: nat): (r: State<T>)
    requires IsPow2(|s.slots|) && !s.owner.OwnerIdle?
    ensures IsPow2(|r.slots|) && r.thieves == s.thieves
  {
    match s.owner
    case PushLoadTop(task, b) => s.(owner := PushReserve(task, b, s.top))
    case PushReserve(task, b, t) =>
      var (slots, room) := Reserve(s, task, b, t, maxCapacity);
      s.(slots := slots, owner := if room then PushWrite(task, b) else OwnerIdle)
    case PushWrite(task, b) =>
      s.(slots := s.slots[Slot(b, |s.slots|) := task], owner := PushPublish(task, b))
    case PushPublish(task, b) =>
      s.(bottom := b + 1, owner := OwnerIdle, pushed := s.pushed + [task])
    case PopStore(b) => s.(bottom := b, owner := PopLoadTop(b))
    case PopLoadTop(b) =>
      s.(owner := if s.top <= b then PopRead(b, s.top) else PopRestore(b, None))
    case PopRead(b, t) =>
      var task := s.slots[Slot(b, |s.slots|)];
      if t == b then s.(owner := PopCas(b, t, task))
      else s.(owner := OwnerIdle, popped := s.popped + [task])
    case PopCas(b, t, task) =>
      if s.top == t && !spurious then s.(top := t + 1, owner := PopRestore(b, Some(task)))
      else s.(owner := PopRestore(b, None))
    case PopRestore(b, got) =>
      s.(bottom := b + 1, owner := OwnerIdle,
         popped := if got.Some? then s.popped + [got.value] else s.popped)
  }

  function StepThief<T>(s: State<T>, i: nat, spurious: bool): (r: State<T>)
    requires IsPow2(|s.slots|) && i < |s.thieves|
    ensures r.slots == s.slots && r.owner == s.owner && r.bottom == s.bottom && |r.thieves| == |s.thieves|
  {
    match s.thieves[i]
    case ThiefIdle => s.(thieves := s.thieves[i := StealLoadBottom(s.top)])
    case StealLoadBottom(t) =>
      s.(thieves := s.thieves[i := if t >= s.bottom then ThiefIdle else StealRead(t)])
    case StealRead(t) =>
      s.(thieves := s.thieves[i := StealCas(t, s.slots[Slot(t, |s.slots|)])])
    case StealCas(t, task) =>
      var s' := s.(thieves := s.thieves[i := ThiefIdle]);
      if s.top == t && !spurious then s'.(top := t + 1, stolen := s.stolen + [task]) else s'
  }

  function Step<T>(s: State<T>, a: Action<T>, maxCapacity: nat): (r: State<T>)
    requires IsPow2(|s.slots|) && Enabled(s, a)
    ensures IsPow2(|r.slots|) && |r.thieves| == |s.thieves|
  {
    match a
    case BeginPush(task) => s.(owner := PushLoadTop(task, s.bottom))
    case BeginPop => if s.bottom == 0 then s else s.(owner := PopStore(s.bottom - 1))
    case OwnerStep(spurious) => StepOwner(s, spurious, maxCapacity)
    case ThiefStep(i, spurious) => StepThief(s, i, spurious)
  }

  // ---- The abstract deque ----

  /** One past the last index still in the deque: `bottom`, or one more while a pop is undecided. */
  function Hi<T>(s: State<T>): nat {
    match s.owner
    case PopLoadTop(b) => b + 1
    case PopRead(b, t) => if t == b then b + 1 else b
    case PopCas(b, _, _) => b + 1
    case PopRestore(b, _) => b + 1
    case _ => s.bottom
  }

  /** The live window: the tasks at indices `[top, Hi)`, oldest first. */
  function Window<T>(s: State<T>): (w: seq<T>)
    requires IsPow2(|s.slots|) && s.top <= Hi(s)
    ensures |w| == Hi(s) - s.top
  {
    seq(Hi(s) - s.top, k requires 0 <= k < Hi(s) - s.top => s.slots[Slot(s.top + k, |s.slots|)])
  }

  /** The task an in-flight pop has taken out of the window and not yet returned. */
  function Reserved<T>(s: State<T>): seq<T>
    requires IsPow2(|s.slots|)
  {
    match s.owner
    case PopRead(b, t) => if t == b then [] else [s.slots[Slot(b, |s.slots|)]]
    case PopRestore(_, Some(task)) => [task]
    case _ => []
  }

  // ---- The invariant ----

  ghost predicate OwnerInv<T>(s: State<T>)
    requires IsPow2(|s.slots|)
  {
    match s.owner
    case OwnerIdle => true
    case PushLoadTop(_, b) => b == s.bottom
    case PushReserve(_, b, t) => b == s.bottom && t <= s.top && b - t <= |s.slots| - 1
    case PushWrite(_, b) => b == s.bottom && b - s.top < |s.slots| - 1
    case PushPublish(task, b) =>
      b == s.bottom && b - s.top < |s.slots| - 1 && s.slots[Slot(b, |s.slots|)] == task
    case PopStore(b) => s.bottom == b + 1
    case PopLoadTop(b) => s.bottom == b
    case PopRead(b, t) => s.bottom == b && t <= b && t <= s.top
    case PopCas(b, t, task) => s.bottom == b == t <= s.top && task == s.slots[Slot(b, |s.slots|)]
    case PopRestore(b, got) => s.bottom == b && (got.Some? ==> s.top == b + 1)
  }

  ghost predicate ThiefInv<T>(s: State<T>, p: ThiefPc<T>)
    requires IsPow2(|s.slots|)
  {
    match p
    case ThiefIdle => true
    case StealLoadBottom(t) => t <= s.top
    case StealRead(t) => t <= s.top && (t == s.top ==> t < Hi(s))
    case StealCas(t, task) =>
      t <= s.top && (t == s.top ==> t < Hi(s) && task == s.slots[Slot(t, |s.slots|)])
  }

  /** Pointers, capacity and every program counter's local facts. */
  ghost predicate Shape<T>(s: State<T>) {
    && IsPow2(|s.slots|)
    && s.top <= Hi(s) <= s.top + |s.slots| - 1
    && OwnerInv(s)
    && (forall i :: 0 <= i < |s.thieves| ==> ThiefInv(s, s.thieves[i]))
  }

  /** Conservation: pushed tasks are those returned, those in the window and the one reserved. */
  ghost predicate Conserved<T>(s: State<T>)
    requires Shape(s)
  {
    multiset(s.pushed) == multiset(s.popped + Reserved(s)) + multiset(s.stolen) + multiset(Window(s))
  }

  ghost predicate Inv<T>(s: State<T>) {
    Shape(s) && Conserved(s)
  }

  ghost predicate Init<T>(s: State<T>) {
    && s.top == s.bottom == 0 && IsPow2(|s.slots|) && s.owner.OwnerIdle?
    && (forall i :: 0 <= i < |s.thieves| ==> s.thieves[i].ThiefIdle?)
    && s.pushed == s.popped == s.stolen == []
  }

  // ---- What a step does to the abstract deque ----

  datatype Effect<T> = Stutter | Append(task: T) | RemoveLast(task: T) | RemoveFirst(task: T)

  /** The linearization: publishing appends, loading `top` below `b` or winning the CAS removes. */
  function EffectOf<T>(s: State<T>, a: Action<T>): Effect<T>
    requires IsPow2(|s.slots|) && Enabled(s, a)
  {
    match a
    case OwnerStep(spurious) => (
      match s.owner
      case PushPublish(task, _) => Append(task)
      case PopLoadTop(b) => if s.top < b then RemoveLast(s.slots[Slot(b, |s.slots|)]) else Stutter
      case PopCas(_, t, task) => if s.top == t && !spurious then RemoveLast(task) else Stutter
      case _ => Stutter)
    case ThiefStep(i, spurious) => (
      match s.thieves[i]
      case StealCas(t, task) => if s.top == t && !spurious then RemoveFirst(task) else Stutter
      case _ => Stutter)
    case _ => Stutter
  }

  /** The effect is a legal double-ended-queue operation taking `w` to `w'`. */
  ghost predicate DequeOp<T>(w: seq<T>, e: Effect<T>, w': seq<T>) {
    match e
    case Stutter => w' == w
    case Append(task) => w' == w + [task]
    case RemoveLast(task) => w == w' + [task]
    case RemoveFirst(task) => w == [task] + w'
  }

  // ---- Every step keeps the invariant and refines the abstract deque ----

  lemma WindowAt<T>(s: State<T>, i: nat)
    requires Shape(s) && s.top <= i < Hi(s)
    ensures Window(s)[i - s.top] == s.slots[Slot(i, |s.slots|)]
  {
  }

  /** Live indices never share a slot. */
  lemma LiveSlotsDistinct<T>(s: State<T>, i: nat, j: nat)
    requires Shape(s) && s.top <= i < j < Hi(s)
    ensures Slot(i, |s.slots|) != Slot(j, |s.slots|)
  {
    ModDistinct(i, j, |s.slots|);
  }

  /** Writing at index `b` beyond the window leaves the window alone. */
  lemma WriteOutside<T>(s: State<T>, b: nat, i: nat)
    requires IsPow2(|s.slots|) && s.top <= i < b < s.top + |s.slots|
    ensures Slot(i, |s.slots|) != Slot(b, |s.slots|)
  {
    ModDistinct(i, b, |s.slots|);
  }

  /** What a thief relies on: while `top` stands still, the oldest task stays where it is. */
  ghost predicate FrontKept<T>(s: State<T>, s': State<T>)
    requires Shape(s) && IsPow2(|s'.slots|)
  {
    && s'.thieves == s.thieves && s.top <= s'.top
    && (s'.top == s.top < Hi(s) ==>
          s.top < Hi(s') && s'.slots[Slot(s.top, |s'.slots|)] == s.slots[Slot(s.top, |s.slots|)])
  }

  lemma ThievesKeepInv<T>(s: State<T>, s': State<T>, i: nat)
    requires Shape(s) && IsPow2(|s'.slots|) && FrontKept(s, s') && i < |s.thieves|
    ensures ThiefInv(s', s'.thieves[i])
  {
    assert ThiefInv(s, s.thieves[i]);
  }

  /** The reservation step, whether or not it grows the ring, keeps shape and window. */
  lemma ReserveKeepsWindow<T>(s: State<T>, spurious: bool, maxCapacity: nat)
    requires Shape(s) && s.owner.PushReserve?
    ensures var s' := StepOwner(s, spurious, maxCapacity);
      OwnerStepOk(s, s') && Window(s') == Window(s)
  {
    var s' := StepOwner(s, spurious, maxCapacity);
    var b := s.owner.b;
    if |s'.slots| != |s.slots| {
      assert IsPow2(2 * |s.slots|);
      forall i: nat | s.top <= i < b
        ensures s'.slots[Slot(i, |s'.slots|)] == s.slots[Slot(i, |s.slots|)]
      {
        GrowKeepsWindow(s.slots, s.top, b, 2 * |s.slots|, s.owner.task, i);
      }
    }
  }

  /** The owner's part of the invariant after a step, and its promise to the thieves. */
  ghost predicate OwnerStepOk<T>(s: State<T>, s': State<T>)
    requires Shape(s)
  {
    && IsPow2(|s'.slots|)
    && s'.top <= Hi(s') <= s'.top + |s'.slots| - 1
    && OwnerInv(s')
    && FrontKept(s, s')
  }

  /** The slot write of a push is outside the window. */
  lemma WriteKeepsWindow<T>(s: State<T>, spurious: bool, maxCapacity: nat)
    requires Shape(s) && s.owner.PushWrite?
    ensures var s' := StepOwner(s, spurious, maxCapacity);
      OwnerStepOk(s, s') && Window(s') == Window(s)
  {
    var s' := StepOwner(s, spurious, maxCapacity);
    forall i: nat | s.top <= i < s.owner.b
      ensures s'.slots[Slot(i, |s.slots|)] == s.slots[Slot(i, |s.slots|)]
    {
      WriteOutside(s, s.owner.b, i);
    }
  }

  lemma PushKeepsWindow<T>(s: State<T>, spurious: bool, maxCapacity: nat)
    requires Shape(s) && (s.owner.PushLoadTop? || s.owner.PushPublish?)
    ensures var s' := StepOwner(s, spurious, maxCapacity);
      && OwnerStepOk(s, s')
      && DequeOp(Window(s), EffectOf(s, OwnerStep(spurious)), Window(s'))
  {
  }

  lemma PopKeepsWindow<T>(s: State<T>, spurious: bool, maxCapacity: nat)
    requires Shape(s) && (s.owner.PopStore? || s.owner.PopLoadTop? || s.owner.PopRead?)
    ensures var s' := StepOwner(s, spurious, maxCapacity);
      && OwnerStepOk(s, s')
      && DequeOp(Window(s), EffectOf(s, OwnerStep(spurious)), Window(s'))
  {
    var s' := StepOwner(s, spurious, maxCapacity);
    assert s'.slots == s.slots && s'.top == s.top;
    if s.owner.PopLoadTop? && s.top < s.owner.b {
      WindowAt(s, s.owner.b);
      assert Window(s) == Window(s') + [s.slots[Slot(s.owner.b, |s.slots|)]];
    } else {
      assert Hi(s') == Hi(s);
    }
  }

  lemma PopEndKeepsWindow<T>(s: State<T>, spurious: bool, maxCapacity: nat)
    requires Shape(s) && (s.owner.PopCas? || s.owner.PopRestore?)
    ensures var s' := StepOwner(s, spurious, maxCapacity);
      && OwnerStepOk(s, s')
      && DequeOp(Window(s), EffectOf(s, OwnerStep(spurious)), Window(s'))
  {
    var s' := StepOwner(s, spurious, maxCapacity);
    assert s'.slots == s.slots && Hi(s') == Hi(s);
    if s'.top != s.top {
      WindowAt(s, s.owner.b);
      assert Window(s) == [s.owner.task];
    }
  }

  lemma OwnerRefines<T>(s: State<T>, spurious: bool, maxCapacity: nat)
    requires Shape(s) && !s.owner.OwnerIdle?
    ensures var s' := StepOwner(s, spurious, maxCapacity);
      && Shape(s') && s.top <= s'.top
      && DequeOp(Window(s), EffectOf(s, OwnerStep(spurious)), Window(s'))
  {
    var s' := StepOwner(s, spurious, maxCapacity);
    match s.owner {
      case PushReserve(_, _, _) => ReserveKeepsWindow(s, spurious, maxCapacity);
      case PushWrite(_, _) => WriteKeepsWindow(s, spurious, maxCapacity);
      case PushLoadTop(_, _) => PushKeepsWindow(s, spurious, maxCapacity);
      case PushPublish(_, _) => PushKeepsWindow(s, spurious, maxCapacity);
      case PopCas(_, _, _) => PopEndKeepsWindow(s, spurious, maxCapacity);
      case PopRestore(_, _) => PopEndKeepsWindow(s, spurious, maxCapacity);
      case _ => PopKeepsWindow(s, spurious, maxCapacity);
    }
    assert OwnerStepOk(s, s');
    forall i | 0 <= i < |s'.thieves| ensures ThiefInv(s', s'.thieves[i]) {
      ThievesKeepInv(s, s', i);
    }
  }

  lemma ThiefKeepsInv<T>(s: State<T>, i: nat, spurious: bool, j: nat)
    requires Shape(s) && i < |s.thieves| && j < |s.thieves|
    ensures var s' := StepThief(s, i, spurious);
      s.top <= s'.top <= Hi(s) && ThiefInv(s', s'.thieves[j])
  {
    assert ThiefInv(s, s.thieves[i]) && ThiefInv(s, s.thieves[j]);
  }

  /** A thief's step changes nothing but `top`, its own program counter and the log of stolen tasks. */
  lemma ThiefKeepsOwner<T>(s: State<T>, i: nat, spurious: bool)
    requires Shape(s) && i < |s.thieves|
    ensures var s' := StepThief(s, i, spurious);
      && s'.owner == s.owner && s'.slots == s.slots && s'.bottom == s.bottom && |s'.thieves| == |s.thieves|
      && Hi(s') == Hi(s) && OwnerInv(s')
  {
    assert ThiefInv(s, s.thieves[i]);
  }

  lemma ThiefTakes<T>(s: State<T>, i: nat, spurious: bool)
    requires Shape(s) && i < |s.thieves|
    ensures var s' := StepThief(s, i, spurious);
      && IsPow2(|s'.slots|) && s'.top <= Hi(s')
      && DequeOp(Window(s), EffectOf(s, ThiefStep(i, spurious)), Window(s'))
  {
    ThiefKeepsOwner(s, i, spurious);
    ThiefKeepsInv(s, i, spurious, i);
    var s' := StepThief(s, i, spurious);
    if s'.top != s.top {
      assert ThiefInv(s, s.thieves[i]);
      WindowAt(s, s.top);
    } else {
      assert Window(s') == Window(s);
    }
  }

  lemma ThiefRefines<T>(s: State<T>, i: nat, spurious: bool)
    requires Shape(s) && i < |s.thieves|
    ensures var s' := StepThief(s, i, spurious);
      && Shape(s') && s.top <= s'.top
      && DequeOp(Window(s), EffectOf(s, ThiefStep(i, spurious)), Window(s'))
  {
    hide StepThief, ThiefInv, OwnerInv, DequeOp, EffectOf, Window;
    var s' := StepThief(s, i, spurious);
    ThiefKeepsOwner(s, i, spurious);
    ThiefTakes(s, i, spurious);
    ThiefKeepsInv(s, i, spurious, i);
    forall j | 0 <= j < |s'.thieves| ensures ThiefInv(s', s'.thieves[j]) {
      ThiefKeepsInv(s, i, spurious, j);
    }
  }

  /** Every step performs exactly its effect on the window, and `top` never decreases. */
  lemma StepRefinesDeque<T>(s: State<T>, a: Action<T>, maxCapacity: nat)
    requires Shape(s) && Enabled(s, a)
    ensures var s' := Step(s, a, maxCapacity);
      && Shape(s') && s.top <= s'.top
      && DequeOp(Window(s), EffectOf(s, a), Window(s'))
  {
    var s' := Step(s, a, maxCapacity);
    match a
    case OwnerStep(spurious) => OwnerRefines(s, spurious, maxCapacity);
    case ThiefStep(i, spurious) => ThiefRefines(s, i, spurious);
    case _ =>
      assert Window(s') == Window(s);
      forall i | 0 <= i < |s.thieves| ensures ThiefInv(s', s.thieves[i]) {
        assert ThiefInv(s, s.thieves[i]);
      }
  }

  // ---- Conservation ----

  /** How an effect shows in the logs of pushed, popped (or reserved) and stolen tasks. */
  ghost predicate LogOp<T>(s: State<T>, e: Effect<T>, s': State<T>)
    requires IsPow2(|s.slots|) && IsPow2(|s'.slots|)
  {
    && s'.pushed == (if e.Append? then s.pushed + [e.task] else s.pushed)
    && s'.popped + Reserved(s') ==
       (if e.RemoveLast? then s.popped + Reserved(s) + [e.task] else s.popped + Reserved(s))
    && s'.stolen == (if e.RemoveFirst? then s.stolen + [e.task] else s.stolen)
  }

  lemma PushLogs<T>(s: State<T>, spurious: bool, maxCapacity: nat)
    requires IsPow2(|s.slots|)
    requires s.owner.PushLoadTop? || s.owner.PushReserve? || s.owner.PushWrite? || s.owner.PushPublish?
    ensures LogOp(s, EffectOf(s, OwnerStep(spurious)), StepOwner(s, spurious, maxCapacity))
  {
  }

  lemma PopLogs<T>(s: State<T>, spurious: bool, maxCapacity: nat)
    requires IsPow2(|s.slots|)
    requires s.owner.PopStore? || s.owner.PopLoadTop? || s.owner.PopRead?
    ensures LogOp(s, EffectOf(s, OwnerStep(spurious)), StepOwner(s, spurious, maxCapacity))
  {
  }

  lemma PopEndLogs<T>(s: State<T>, spurious: bool, maxCapacity: nat)
    requires IsPow2(|s.slots|)
    requires s.owner.PopCas? || s.owner.PopRestore?
    ensures LogOp(s, EffectOf(s, OwnerStep(spurious)), StepOwner(s, spurious, maxCapacity))
  {
  }

  lemma StepLogs<T>(s: State<T>, a: Action<T>, maxCapacity: nat)
    requires IsPow2(|s.slots|) && Enabled(s, a)
    ensures LogOp(s, EffectOf(s, a), Step(s, a, maxCapacity))
  {
    match a
    case OwnerStep(spurious) =>
      if s.owner.PopCas? || s.owner.PopRestore? {
        PopEndLogs(s, spurious, maxCapacity);
      } else if s.owner.PopStore? || s.owner.PopLoadTop? || s.owner.PopRead? {
        PopLogs(s, spurious, maxCapacity);
      } else {
        PushLogs(s, spurious, maxCapacity);
      }
    case ThiefStep(i, spurious) =>
      assert Reserved(StepThief(s, i, spurious)) == Reserved(s);
    case _ =>
  }

  lemma MultisetSnoc<T>(s: seq<T>, x: T)
    ensures multiset(s + [x]) == multiset(s) + multiset{x}
    ensures multiset([x] + s) == multiset(s) + multiset{x}
  {
  }

  /** The bookkeeping of one effect over any logs and window. */
  lemma Balance<T>(e: Effect<T>, pushed: seq<T>, log: seq<T>, stolen: seq<T>, w: seq<T>, w': seq<T>)
    requires multiset(pushed) == multiset(log) + multiset(stolen) + multiset(w)
    requires DequeOp(w, e, w')
    ensures multiset(if e.Append? then pushed + [e.task] else pushed)
         == multiset(if e.RemoveLast? then log + [e.task] else log)
          + multiset(if e.RemoveFirst? then stolen + [e.task] else stolen) + multiset(w')
  {
    match e
    case Stutter =>
    case Append(x) =>
      MultisetSnoc(pushed, x);
      MultisetSnoc(w, x);
      Regroup(multiset(log), multiset(stolen), multiset(w), x);
    case RemoveLast(x) =>
      MultisetSnoc(log, x);
      MultisetSnoc(w', x);
      Regroup(multiset(log), multiset(stolen), multiset(w'), x);
    case RemoveFirst(x) =>
      MultisetSnoc(stolen, x);
      MultisetSnoc(w', x);
      Regroup(multiset(log), multiset(stolen), multiset(w'), x);
  }

  lemma Regroup<T>(a: multiset<T>, b: multiset<T>, c: multiset<T>, x: T)
    ensures a + b + (c + multiset{x}) == a + b + c + multiset{x}
    ensures (a + multiset{x}) + b + c == a + (b + multiset{x}) + c == a + b + c + multiset{x}
  {
  }

  /** Every step keeps the whole invariant. */
  lemma StepKeepsInv<T>(s: State<T>, a: Action<T>, maxCapacity: nat)
    requires Inv(s) && Enabled(s, a)
    ensures Inv(Step(s, a, maxCapacity))
  {
    StepRefinesDeque(s, a, maxCapacity);
    StepLogs(s, a, maxCapacity);
    Balance(EffectOf(s, a), s.pushed, s.popped + Reserved(s), s.stolen,
            Window(s), Window(Step(s, a, maxCapacity)));
  }

  // ---- Runs ----

  predicate Runs<T>(s: State<T>, actions: seq<Action<T>>, maxCapacity: nat)
    requires IsPow2(|s.slots|)
    decreases |actions|
  {
    actions == [] || (Enabled(s, actions[0]) && Runs(Step(s, actions[0], maxCapacity), actions[1..], maxCapacity))
  }

  function Run<T>(s: State<T>, actions: seq<Action<T>>, maxCapacity: nat): (r: State<T>)
    requires IsPow2(|s.slots|) && Runs(s, actions, maxCapacity)
    ensures IsPow2(|r.slots|)
    decreases |actions|
  {
    if actions == [] then s else Run(Step(s, actions[0], maxCapacity), actions[1..], maxCapacity)
  }

  /** The effects of a run, in order. */
  function Effects<T>(s: State<T>, actions: seq<Action<T>>, maxCapacity: nat): seq<Effect<T>>
    requires IsPow2(|s.slots|) && Runs(s, actions, maxCapacity)
    decreases |actions|
  {
    if actions == [] then []
    else [EffectOf(s, actions[0])] + Effects(Step(s, actions[0], maxCapacity), actions[1..], maxCapacity)
  }

  /** `effects` is a legal history of a sequential double-ended queue from `w` to `w'`. */
  ghost predicate DequeHistory<T(!new)>(w: seq<T>, effects: seq<Effect<T>>, w': seq<T>)
    decreases |effects|
  {
    if effects == [] then w' == w
    else exists v :: DequeOp(w, effects[0], v) && DequeHistory(v, effects[1..], w')
  }

  lemma HistoryCons<T(!new)>(w: seq<T>, e: Effect<T>, v: seq<T>, rest: seq<Effect<T>>, w': seq<T>)
    requires DequeOp(w, e, v) && DequeHistory(v, rest, w')
    ensures DequeHistory(w, [e] + rest, w')
  {
    assert ([e] + rest)[1..] == rest;
  }

  /** `p` holds in every state of the run. */
  ghost predicate Always<T(!new)>(p: State<T> -> bool, s: State<T>, actions: seq<Action<T>>, maxCapacity: nat)
    requires IsPow2(|s.slots|) && Runs(s, actions, maxCapacity)
    decreases |actions|
  {
    p(s) && (actions != [] ==> Always(p, Step(s, actions[0], maxCapacity), actions[1..], maxCapacity))
  }

  lemma {:induction false} AlwaysByInduction<T(!new)>(
      p: State<T> -> bool, s: State<T>, actions: seq<Action<T>>, maxCapacity: nat)
    requires IsPow2(|s.slots|) && Runs(s, actions, maxCapacity) && p(s)
    requires forall x: State<T>, a: Action<T> {:trigger Step(x, a, maxCapacity)} |
      IsPow2(|x.slots|) && Enabled(x, a) && p(x) :: p(Step(x, a, maxCapacity))
    ensures Always(p, s, actions, maxCapacity)
    decreases |actions|
  {
    if actions != [] {
      AlwaysByInduction(p, Step(s, actions[0], maxCapacity), actions[1..], maxCapacity);
    }
  }

  /** Safety over every interleaving of the owner and any number of thieves. */
  lemma RunKeepsInv<T(!new)>(s: State<T>, actions: seq<Action<T>>, maxCapacity: nat)
    requires Inv(s) && Runs(s, actions, maxCapacity)
    ensures Always(x => Inv(x), s, actions, maxCapacity)
  {
    var p := (x: State<T>) => Inv(x);
    forall x: State<T>, a: Action<T> | IsPow2(|x.slots|) && Enabled(x, a) && p(x)
      ensures p(Step(x, a, maxCapacity))
    {
      StepKeepsInv(x, a, maxCapacity);
    }
    AlwaysByInduction(p, s, actions, maxCapacity);
  }

  datatype Operation = Push | Pop | Steal

  /** The task of an effect of the operation. */
  function TaskOf<T>(e: Effect<T>, op: Operation): seq<T> {
    match e
    case Append(x) => if op.Push? then [x] else []
    case RemoveLast(x) => if op.Pop? then [x] else []
    case RemoveFirst(x) => if op.Steal? then [x] else []
    case Stutter => []
  }

  /** The tasks of the operation's effects, in order. */
  function Tasks<T>(effects: seq<Effect<T>>, op: Operation): seq<T> {
    if effects == [] then [] else TaskOf(effects[0], op) + Tasks(effects[1..], op)
  }

  lemma TasksCons<T>(e: Effect<T>, rest: seq<Effect<T>>, op: Operation)
    ensures Tasks([e] + rest, op) == TaskOf(e, op) + Tasks(rest, op)
  {
    assert ([e] + rest)[1..] == rest;
  }

  /** The logs of a run are the tasks of its effects: what pushes, pops and steals were given or returned. */
  ghost predicate LogsOf<T>(s: State<T>, effects: seq<Effect<T>>, s': State<T>)
    requires IsPow2(|s.slots|) && IsPow2(|s'.slots|)
  {
    && s'.pushed == s.pushed + Tasks(effects, Push)
    && s'.popped + Reserved(s') == s.popped + Reserved(s) + Tasks(effects, Pop)
    && s'.stolen == s.stolen + Tasks(effects, Steal)
  }

  lemma NoLogs<T>(s: State<T>)
    requires IsPow2(|s.slots|)
    ensures LogsOf(s, [], s)
  {
  }

  lemma LogsCons<T>(s: State<T>, e: Effect<T>, s1: State<T>, rest: seq<Effect<T>>, s': State<T>)
    requires IsPow2(|s.slots|) && IsPow2(|s1.slots|) && IsPow2(|s'.slots|)
    requires LogOp(s, e, s1) && LogsOf(s1, rest, s')
    ensures LogsOf(s, [e] + rest, s')
  {
    hide Reserved, Tasks;
    TasksCons(e, rest, Push);
    TasksCons(e, rest, Pop);
    TasksCons(e, rest, Steal);
  }

  /**
   Every run is a history of the sequential double-ended queue, in which pushes append what they were given, and what
   pops and steals take from the ends is what they return.
   */
  lemma {:induction false} RunRefinesDeque<T(!new)>(s: State<T>, actions: seq<Action<T>>, maxCapacity: nat)
    requires Shape(s) && Runs(s, actions, maxCapacity)
    ensures var s' := Run(s, actions, maxCapacity);
      && s'.top <= Hi(s')
      && DequeHistory(Window(s), Effects(s, actions, maxCapacity), Window(s'))
      && LogsOf(s, Effects(s, actions, maxCapacity), s')
    decreases |actions|
  {
    hide LogsOf, LogOp;
    if actions == [] {
      NoLogs(s);
    } else {
      var s1 := Step(s, actions[0], maxCapacity);
      StepRefinesDeque(s, actions[0], maxCapacity);
      RunRefinesDeque(s1, actions[1..], maxCapacity);
      StepLogs(s, actions[0], maxCapacity);
      LogsCons(s, EffectOf(s, actions[0]), s1, Effects(s1, actions[1..], maxCapacity), Run(s1, actions[1..], maxCapacity));
      HistoryCons(Window(s), EffectOf(s, actions[0]), Window(s1), Effects(s1, actions[1..], maxCapacity),
                  Window(Run(s1, actions[1..], maxCapacity)));
    }
  }

  lemma {:induction false} AlwaysAtEnd<T(!new)>(
      p: State<T> -> bool, s: State<T>, actions: seq<Action<T>>, maxCapacity: nat)
    requires IsPow2(|s.slots|) && Runs(s, actions, maxCapacity)
    requires Always(p, s, actions, maxCapacity)
    ensures p(Run(s, actions, maxCapacity))
    decreases |actions|
  {
    if actions != [] {
      AlwaysAtEnd(p, Step(s, actions[0], maxCapacity), actions[1..], maxCapacity);
    }
  }

  lemma InitInv<T>(s: State<T>)
    requires Init(s)
    ensures Inv(s) && Window(s) == []
  {
    assert Reserved(s) == [];
  }

  /** From an empty deque, no run returns a task more often than it was pushed. */
  lemma NoTaskReturnedTwice<T(!new)>(s: State<T>, actions: seq<Action<T>>, maxCapacity: nat, x: T)
    requires Init(s) && Runs(s, actions, maxCapacity)
    ensures var s' := Run(s, actions, maxCapacity);
      multiset(s'.popped)[x] + multiset(s'.stolen)[x] <= multiset(s'.pushed)[x]
  {
    InitInv(s);
    RunKeepsInv(s, actions, maxCapacity);
    AlwaysAtEnd((y: State<T>) => Inv(y), s, actions, maxCapacity);
    ReturnedAtMostOnce(Run(s, actions, maxCapacity), x);
  }

  // ---- Consequences in every reachable state ----

  /** Tasks pushed once are returned at most once, by popping or stealing; none is invented. */
  lemma ReturnedAtMostOnce<T>(s: State<T>, x: T)
    requires Inv(s)
    ensures multiset(s.popped)[x] + multiset(s.stolen)[x] <= multiset(s.pushed)[x]
  {
    assert multiset(s.popped + Reserved(s)) == multiset(s.popped) + multiset(Reserved(s));
  }

  /** With the owner idle and the window empty every pushed task has been returned. */
  lemma NothingLost<T>(s: State<T>)
    requires Inv(s) && s.owner.OwnerIdle? && s.bottom == s.top
    ensures multiset(s.pushed) == multiset(s.popped) + multiset(s.stolen)
  {
    assert Window(s) == [];
    assert s.popped + Reserved(s) == s.popped;
  }

  /** A thief about to CAS holds the oldest task or is bound to fail. */
  lemma StaleThiefFails<T>(s: State<T>, i: nat, spurious: bool)
    requires Shape(s) && i < |s.thieves| && s.thieves[i].StealCas?
    requires var t := s.thieves[i].t;
      || s.slots[Slot(t, |s.slots|)] != s.thieves[i].task
      || exists j :: s.top <= j < Hi(s) && j != t && Slot(j, |s.slots|) == Slot(t, |s.slots|)
    ensures StepThief(s, i, spurious).stolen == s.stolen && StepThief(s, i, spurious).top == s.top
  {
    var t := s.thieves[i].t;
    assert ThiefInv(s, s.thieves[i]);
    if j :| s.top <= j < Hi(s) && j != t && Slot(j, |s.slots|) == Slot(t, |s.slots|) {
      if t == s.top {
        LiveSlotsDistinct(s, t, j);
      }
    }
  }

  /** A pop gives up without a CAS only on an empty deque. */
  lemma PopFindsEmpty<T>(s: State<T>, spurious: bool, maxCapacity: nat)
    requires Shape(s) && s.owner.PopLoadTop?
    ensures StepOwner(s, spurious, maxCapacity).owner.PopRestore? <==> Window(s) == []
  {
  }

  /** A pop whose CAS fails lost its last task to a thief, unless the failure was spurious. */
  lemma PopLosesRace<T>(s: State<T>, maxCapacity: nat)
    requires Shape(s) && s.owner.PopCas?
    ensures StepOwner(s, false, maxCapacity).owner == PopRestore(s.owner.b, None) <==> Window(s) == []
  {
  }

  /** A steal gives up without a CAS only when nothing is left or the owner's pop contends for one task. */
  lemma StealFindsEmpty<T>(s: State<T>, i: nat, spurious: bool)
    requires Shape(s) && i < |s.thieves| && s.thieves[i].StealLoadBottom?
    requires StepThief(s, i, spurious).thieves[i].ThiefIdle?
    ensures Window(s) == [] || (|Window(s)| == 1 && Hi(s) == s.bottom + 1)
  {
    assert ThiefInv(s, s.thieves[i]);
  }

  /** A push is refused only when the window, as last seen, fills a ring that cannot grow. */
  lemma PushRefusedOnlyWhenFull<T>(s: State<T>, spurious: bool, maxCapacity: nat)
    requires Shape(s) && s.owner.PushReserve?
    ensures StepOwner(s, spurious, maxCapacity).owner.OwnerIdle? <==>
      s.bottom - s.owner.t == |s.slots| - 1 && 2 * |s.slots| > maxCapacity
  {
  }

  // ---- Progress ----

  /** Steps the owner still has before it, at most. */
  function OwnerRank<T>(p: OwnerPc<T>): nat {
    match p
    case OwnerIdle => 0
    case PushLoadTop(_, _) => 4
    case PushReserve(_, _, _) => 3
    case PushWrite(_, _) => 2
    case PushPublish(_, _) => 1
    case PopStore(_) => 5
    case PopLoadTop(_) => 4
    case PopRead(_, _) => 3
    case PopCas(_, _, _) => 2
    case PopRestore(_, _) => 1
  }

  function ThiefRank<T>(p: ThiefPc<T>): nat {
    match p
    case ThiefIdle => 0
    case StealLoadBottom(_) => 3
    case StealRead(_) => 2
    case StealCas(_, _) => 1
  }

  /** The owner's operation run to its end with nobody else moving and no spurious failure. */
  function OwnerAlone<T>(s: State<T>, maxCapacity: nat): (r: State<T>)
    requires IsPow2(|s.slots|)
    ensures IsPow2(|r.slots|) && r.owner.OwnerIdle? && r.thieves == s.thieves
    decreases OwnerRank(s.owner)
  {
    if s.owner.OwnerIdle? then s else OwnerAlone(Step(s, OwnerStep(false), maxCapacity), maxCapacity)
  }

  /** The same for a thief that is under way. */
  function ThiefAlone<T>(s: State<T>, i: nat, maxCapacity: nat): (r: State<T>)
    requires IsPow2(|s.slots|) && i < |s.thieves|
    ensures IsPow2(|r.slots|) && |r.thieves| == |s.thieves| && r.thieves[i].ThiefIdle?
    decreases ThiefRank(s.thieves[i])
  {
    if s.thieves[i].ThiefIdle? then s else ThiefAlone(Step(s, ThiefStep(i, false), maxCapacity), i, maxCapacity)
  }

  /** `s'` is `s` after an operation that changed the window to `w` and the logs to these. */
  ghost predicate Became<T>(s': State<T>, w: seq<T>, pushed: seq<T>, popped: seq<T>, stolen: seq<T>) {
    Shape(s') && Window(s') == w && s'.pushed == pushed && s'.popped == popped && s'.stolen == stolen
  }

  /** One undisturbed owner step, seen from the abstract deque. */
  lemma OwnerStepAlone<T>(s: State<T>, maxCapacity: nat)
    requires Shape(s) && !s.owner.OwnerIdle?
    ensures var s', e := Step(s, OwnerStep(false), maxCapacity), EffectOf(s, OwnerStep(false));
      && Shape(s') && DequeOp(Window(s), e, Window(s')) && LogOp(s, e, s')
      && OwnerAlone(s, maxCapacity) == OwnerAlone(s', maxCapacity)
  {
    StepRefinesDeque(s, OwnerStep(false), maxCapacity);
    StepLogs(s, OwnerStep(false), maxCapacity);
  }

  /** A pop under way, with its local view still current, returns the newest task; on an empty deque nothing. */
  lemma {:induction false} PopGoesOn<T>(s: State<T>, maxCapacity: nat)
    requires Shape(s) && (s.owner.PopStore? || s.owner.PopLoadTop?)
    ensures var s', w := OwnerAlone(s, maxCapacity), Window(s);
      if w == [] then Became(s', w, s.pushed, s.popped, s.stolen)
      else Became(s', w[..|w| - 1], s.pushed, s.popped + [w[|w| - 1]], s.stolen)
    decreases OwnerRank(s.owner)
  {
    OwnerStepAlone(s, maxCapacity);
    var s1 := Step(s, OwnerStep(false), maxCapacity);
    if s.owner.PopStore? {
      PopGoesOn(s1, maxCapacity);
    } else {
      PopEnds(s1, maxCapacity);
    }
  }

  lemma {:induction false} PopEnds<T>(s: State<T>, maxCapacity: nat)
    requires Shape(s) && (s.owner.PopRead? || s.owner.PopCas? || s.owner.PopRestore?)
    requires s.owner.PopRead? || s.owner.PopCas? ==> s.owner.t == s.top
    ensures var s', w := OwnerAlone(s, maxCapacity), Window(s);
      if Reserved(s) != [] || w == [] then Became(s', w, s.pushed, s.popped + Reserved(s), s.stolen)
      else if s.owner.PopRestore? then Became(s', w, s.pushed, s.popped, s.stolen)
      else Became(s', [], s.pushed, s.popped + w, s.stolen) && |w| == 1
    decreases OwnerRank(s.owner)
  {
    OwnerStepAlone(s, maxCapacity);
    var s1 := Step(s, OwnerStep(false), maxCapacity);
    if !s1.owner.OwnerIdle? {
      PopEnds(s1, maxCapacity);
    }
  }

  /** A push under way has room in the ring as it is, or in one twice as large if that is allowed. */
  predicate HasRoom<T>(s: State<T>, maxCapacity: nat)
    requires IsPow2(|s.slots|) && s.top <= Hi(s)
  {
    |Window(s)| < |s.slots| - 1 || 2 * |s.slots| <= maxCapacity
  }

  lemma {:induction false} PushGoesOn<T>(s: State<T>, maxCapacity: nat)
    requires Shape(s)
    requires s.owner.PushLoadTop? || s.owner.PushReserve? || s.owner.PushWrite? || s.owner.PushPublish?
    requires s.owner.PushReserve? ==> s.owner.t == s.top
    ensures var s', w, x := OwnerAlone(s, maxCapacity), Window(s), s.owner.task;
      if s.owner.PushWrite? || s.owner.PushPublish? || HasRoom(s, maxCapacity)
      then Became(s', w + [x], s.pushed + [x], s.popped, s.stolen)
      else Became(s', w, s.pushed, s.popped, s.stolen)
    decreases OwnerRank(s.owner)
  {
    OwnerStepAlone(s, maxCapacity);
    var s1 := Step(s, OwnerStep(false), maxCapacity);
    if !s1.owner.OwnerIdle? {
      PushGoesOn(s1, maxCapacity);
    }
  }

  /** Undisturbed, a pop returns the newest task of a deque that holds one, and leaves an empty deque as it was. */
  lemma PopSucceeds<T>(s: State<T>, maxCapacity: nat)
    requires Shape(s) && s.owner.OwnerIdle?
    ensures var s', w := OwnerAlone(Step(s, BeginPop, maxCapacity), maxCapacity), Window(s);
      if w == [] then Became(s', w, s.pushed, s.popped, s.stolen)
      else Became(s', w[..|w| - 1], s.pushed, s.popped + [w[|w| - 1]], s.stolen)
  {
    StepRefinesDeque(s, BeginPop, maxCapacity);
    StepLogs(s, BeginPop, maxCapacity);
    var s1 := Step(s, BeginPop, maxCapacity);
    if s1.owner.PopStore? {
      PopGoesOn(s1, maxCapacity);
    }
  }

  /** Undisturbed, a push appends its task exactly when there is room, and otherwise changes nothing. */
  lemma PushSucceeds<T>(s: State<T>, x: T, maxCapacity: nat)
    requires Shape(s) && s.owner.OwnerIdle?
    ensures var s', w := OwnerAlone(Step(s, BeginPush(x), maxCapacity), maxCapacity), Window(s);
      if HasRoom(s, maxCapacity) then Became(s', w + [x], s.pushed + [x], s.popped, s.stolen)
      else Became(s', w, s.pushed, s.popped, s.stolen)
  {
    StepRefinesDeque(s, BeginPush(x), maxCapacity);
    StepLogs(s, BeginPush(x), maxCapacity);
    PushGoesOn(Step(s, BeginPush(x), maxCapacity), maxCapacity);
  }

  lemma ThiefStepAlone<T>(s: State<T>, i: nat, maxCapacity: nat)
    requires Shape(s) && i < |s.thieves| && !s.thieves[i].ThiefIdle?
    ensures var s', e := Step(s, ThiefStep(i, false), maxCapacity), EffectOf(s, ThiefStep(i, false));
      && Shape(s') && DequeOp(Window(s), e, Window(s')) && LogOp(s, e, s')
      && ThiefAlone(s, i, maxCapacity) == ThiefAlone(s', i, maxCapacity)
  {
    StepRefinesDeque(s, ThiefStep(i, false), maxCapacity);
    StepLogs(s, ThiefStep(i, false), maxCapacity);
  }

  lemma {:induction false} StealGoesOn<T>(s: State<T>, i: nat, maxCapacity: nat)
    requires Shape(s) && i < |s.thieves| && !s.thieves[i].ThiefIdle? && s.thieves[i].t == s.top
    requires s.top < s.bottom || !s.thieves[i].StealLoadBottom?
    ensures var s', w := ThiefAlone(s, i, maxCapacity), Window(s);
      w != [] && Shape(s') && Window(s') == w[1..] && s'.stolen == s.stolen + [w[0]]
      && s'.pushed == s.pushed && s'.popped + Reserved(s') == s.popped + Reserved(s)
    decreases ThiefRank(s.thieves[i])
  {
    assert ThiefInv(s, s.thieves[i]);
    ThiefStepAlone(s, i, maxCapacity);
    var s1 := Step(s, ThiefStep(i, false), maxCapacity);
    if !s1.thieves[i].ThiefIdle? {
      StealGoesOn(s1, i, maxCapacity);
    }
  }

  /**
   Undisturbed, a thief that finds `top` below `bottom` takes the oldest task, whatever the owner and the other thieves
   are in the middle of; otherwise it changes nothing.
   */
  lemma StealSucceeds<T>(s: State<T>, i: nat, maxCapacity: nat)
    requires Shape(s) && i < |s.thieves| && s.thieves[i].ThiefIdle?
    ensures var s', w := ThiefAlone(Step(s, ThiefStep(i, false), maxCapacity), i, maxCapacity), Window(s);
      && Shape(s') && s'.pushed == s.pushed && s'.popped + Reserved(s') == s.popped + Reserved(s)
      && if s.top < s.bottom then w != [] && Window(s') == w[1..] && s'.stolen == s.stolen + [w[0]]
         else Window(s') == w && s'.stolen == s.stolen
  {
    StepRefinesDeque(s, ThiefStep(i, false), maxCapacity);
    StepLogs(s, ThiefStep(i, false), maxCapacity);
    var s1 := Step(s, ThiefStep(i, false), maxCapacity);
    if s.top < s.bottom {
      StealGoesOn(s1, i, maxCapacity);
    } else {
      ThiefStepAlone(s1, i, maxCapacity);
    }
  }
}
