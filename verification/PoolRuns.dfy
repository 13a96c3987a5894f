/** The pool's queues as values: what the operations do to them, and what every run keeps. */
module PoolRuns {
  import opened Options

  /** `node` is the memory node of the task's preferred CPU, if it has one. */
  datatype Task = Task(id: nat, node: Option<nat>)

  /** Queue 0 is the global queue, queue `i + 1` belongs to worker `i`. */
  type Queues = seq<seq<Task>>

  function Pending(qs: Queues): nat {
    if qs == [] then 0 else |qs[0]| + Pending(qs[1..])
  }

  ghost function Total(qs: Queues): multiset<Task> {
    if qs == [] then multiset{} else multiset(qs[0]) + Total(qs[1..])
  }

  lemma {:induction false} PendingIsTotal(qs: Queues)
    ensures |Total(qs)| == Pending(qs)
  {
    if qs != [] {
      PendingIsTotal(qs[1..]);
    }
  }

  lemma Cancel(a: multiset<Task>, b: multiset<Task>, c: multiset<Task>)
    requires a + c == b + c
    ensures a == b
  {
    forall x ensures a[x] == b[x] {
      assert (a + c)[x] == a[x] + c[x] && (b + c)[x] == b[x] + c[x];
    }
  }

  lemma AddLeft(m: multiset<Task>, a: multiset<Task>, b: multiset<Task>, c: multiset<Task>, d: multiset<Task>)
    requires a + b == c + d
    ensures (m + a) + b == (m + c) + d
  {
    assert (m + a) + b == m + (a + b);
  }

  lemma Chain(a: multiset<Task>, i: multiset<Task>, b: multiset<Task>, o: multiset<Task>,
              j: multiset<Task>, c: multiset<Task>, p: multiset<Task>)
    requires a + i == b + o && b + j == c + p
    ensures a + (i + j) == c + (o + p)
  {
    forall x ensures (a + (i + j))[x] == (c + (o + p))[x] {
      assert (a + i)[x] == (b + o)[x] && (b + j)[x] == (c + p)[x];
    }
  }

  /** Replacing one queue changes the total by the difference of the two. */
  lemma {:induction false} TotalReplace(qs: Queues, k: nat, q: seq<Task>)
    requires k < |qs|
    ensures Total(qs[k := q]) + multiset(qs[k]) == Total(qs) + multiset(q)
  {
    var qs' := qs[k := q];
    if k == 0 {
      assert qs'[1..] == qs[1..];
      assert Total(qs') == multiset(q) + Total(qs[1..]);
    } else {
      assert qs'[1..] == qs[1..][k - 1 := q] && qs[1..][k - 1] == qs[k];
      TotalReplace(qs[1..], k - 1, q);
      assert Total(qs') == multiset(qs[0]) + Total(qs'[1..]);
      AddLeft(multiset(qs[0]), Total(qs'[1..]), multiset(qs[k]), Total(qs[1..]), multiset(q));
    }
  }

  lemma TotalAppend(qs: Queues, k: nat, task: Task)
    requires k < |qs|
    ensures Total(qs[k := qs[k] + [task]]) == Total(qs) + multiset{task}
  {
    TotalReplace(qs, k, qs[k] + [task]);
    assert multiset(qs[k] + [task]) == multiset(qs[k]) + multiset{task};
    Cancel(Total(qs[k := qs[k] + [task]]), Total(qs) + multiset{task}, multiset(qs[k]));
  }

  lemma TotalRemove(qs: Queues, k: nat, q: seq<Task>, task: Task)
    requires k < |qs| && (qs[k] == q + [task] || qs[k] == [task] + q)
    ensures Total(qs) == Total(qs[k := q]) + multiset{task}
  {
    TotalReplace(qs, k, q);
    assert multiset(q + [task]) == multiset(q) + multiset{task};
    assert multiset([task] + q) == multiset{task} + multiset(q);
    Cancel(Total(qs), Total(qs[k := q]) + multiset{task}, multiset(q));
  }

  // ---- Placement ----

  /** The index the scan for the least load ends with; workers without a load are skipped. */
  function LeastLoaded(loads: seq<Option<nat>>): (best: Option<nat>)
    ensures best.Some? ==> best.value < |loads|
  {
    if loads == [] then None
    else
      var last := |loads| - 1;
      var before := LeastLoaded(loads[..last]);
      if loads[last].Some? && (before.None? || loads[before.value].None? || loads[last].value < loads[before.value].value)
      then Some(last) else before
  }

  /** It is the first worker among those with the smallest load. */
  lemma {:induction false} LeastLoadedIsLeast(loads: seq<Option<nat>>)
    ensures var best := LeastLoaded(loads);
      if best.None? then forall i :: 0 <= i < |loads| ==> loads[i].None?
      else
        && loads[best.value].Some?
        && (forall i :: 0 <= i < |loads| && loads[i].Some? ==> loads[best.value].value <= loads[i].value)
        && (forall i :: 0 <= i < best.value && loads[i].Some? ==> loads[best.value].value < loads[i].value)
  {
    if loads != [] {
      var last := |loads| - 1;
      LeastLoadedIsLeast(loads[..last]);
      assert forall i :: 0 <= i < last ==> loads[..last][i] == loads[i];
    }
  }

  /** What the scan knows after `i` workers. */
  ghost predicate Scanned(loads: seq<Option<nat>>, i: nat, best: nat, bestLoad: Option<nat>)
    requires i <= |loads|
  {
    if bestLoad.None? then best == 0 && LeastLoaded(loads[..i]) == None
    else best < i && LeastLoaded(loads[..i]) == Some(best) && loads[best] == bestLoad
  }

  predicate Better(load: Option<nat>, bestLoad: Option<nat>) {
    load.Some? && (bestLoad.None? || load.value < bestLoad.value)
  }

  lemma ScanStep(loads: seq<Option<nat>>, i: nat, best: nat, bestLoad: Option<nat>)
    requires i < |loads| && Scanned(loads, i, best, bestLoad)
    ensures if Better(loads[i], bestLoad) then Scanned(loads, i + 1, i, loads[i])
            else Scanned(loads, i + 1, best, bestLoad)
  {
    assert loads[..i + 1][..i] == loads[..i];
  }

  lemma ScanEnd(loads: seq<Option<nat>>, best: nat, bestLoad: Option<nat>)
    requires Scanned(loads, |loads|, best, bestLoad)
    ensures best == if LeastLoaded(loads).Some? then LeastLoaded(loads).value else 0
  {
    assert loads[..|loads|] == loads;
  }

  // ---- Runs ----

  datatype Event =
    | Submitted(task: Task)
    | Refused
    | Popped(queue: nat, task: Task)
    | Stolen(queue: nat, task: Task)
    | Rebalanced

  /** What each operation may do to the queues under the limit `maxPending`. */
  ghost predicate Step(qs: Queues, e: Event, qs': Queues, maxPending: nat) {
    match e
    case Submitted(task) =>
      Pending(qs) < maxPending && exists k :: 0 <= k < |qs| && qs' == qs[k := qs[k] + [task]]
    case Refused => qs' == qs
    case Popped(k, task) => k < |qs| == |qs'| && qs[k] == qs'[k] + [task] && qs' == qs[k := qs'[k]]
    case Stolen(k, task) => k < |qs| == |qs'| && qs[k] == [task] + qs'[k] && qs' == qs[k := qs'[k]]
    case Rebalanced => |qs'| == |qs| && Total(qs') == Total(qs)
  }

  ghost predicate Run(qs: Queues, events: seq<Event>, qs': Queues, maxPending: nat)
    decreases |events|
  {
    if events == [] then qs' == qs
    else exists mid :: Step(qs, events[0], mid, maxPending) && Run(mid, events[1..], qs', maxPending)
  }

  lemma SubmittedIsStep(qs: Queues, k: nat, task: Task, maxPending: nat)
    requires k < |qs| && Pending(qs) < maxPending
    ensures Step(qs, Submitted(task), qs[k := qs[k] + [task]], maxPending)
  {
  }

  lemma RefusedIsStep(qs: Queues, maxPending: nat)
    ensures Step(qs, Refused, qs, maxPending)
  {
  }

  function Accepted(events: seq<Event>): seq<Task> {
    if events == [] then []
    else (if events[0].Submitted? then [events[0].task] else []) + Accepted(events[1..])
  }

  function Taken(events: seq<Event>): seq<Task> {
    if events == [] then []
    else (if events[0].Popped? || events[0].Stolen? then [events[0].task] else []) + Taken(events[1..])
  }

  lemma StepKeepsLimit(qs: Queues, e: Event, qs': Queues, maxPending: nat)
    requires Step(qs, e, qs', maxPending) && Pending(qs) <= maxPending
    ensures Pending(qs') <= maxPending
    ensures Total(qs) + multiset(Accepted([e])) == Total(qs') + multiset(Taken([e]))
  {
    PendingIsTotal(qs);
    PendingIsTotal(qs');
    match e
    case Submitted(task) =>
      var k :| 0 <= k < |qs| && qs' == qs[k := qs[k] + [task]];
      TotalAppend(qs, k, task);
      assert Accepted([e]) == [task] && Taken([e]) == [];
    case Popped(k, task) =>
      TotalRemove(qs, k, qs'[k], task);
      assert Accepted([e]) == [] && Taken([e]) == [task];
    case Stolen(k, task) =>
      TotalRemove(qs, k, qs'[k], task);
      assert Accepted([e]) == [] && Taken([e]) == [task];
    case _ =>
      assert Accepted([e]) == [] && Taken([e]) == [];
  }

  lemma LogsSplit(events: seq<Event>)
    requires events != []
    ensures Accepted(events) == Accepted([events[0]]) + Accepted(events[1..])
    ensures Taken(events) == Taken([events[0]]) + Taken(events[1..])
  {
    var e := events[0];
    assert [e][1..] == [];
    assert Accepted([e]) == (if e.Submitted? then [e.task] else []);
    assert Taken([e]) == (if e.Popped? || e.Stolen? then [e.task] else []);
  }

  /** The books balance: what was there and came in is what is there and went out. */
  ghost predicate Balanced(before: multiset<Task>, accepted: seq<Task>, after: multiset<Task>, taken: seq<Task>) {
    before + multiset(accepted) == after + multiset(taken)
  }

  lemma BalanceJoins(a: multiset<Task>, i: seq<Task>, b: multiset<Task>, o: seq<Task>,
                     j: seq<Task>, c: multiset<Task>, p: seq<Task>)
    requires Balanced(a, i, b, o) && Balanced(b, j, c, p)
    ensures Balanced(a, i + j, c, o + p)
  {
    assert multiset(i + j) == multiset(i) + multiset(j);
    assert multiset(o + p) == multiset(o) + multiset(p);
    Chain(a, multiset(i), b, multiset(o), multiset(j), c, multiset(p));
  }

  lemma FirstStep(qs: Queues, events: seq<Event>, qs': Queues, maxPending: nat) returns (mid: Queues)
    requires events != [] && Run(qs, events, qs', maxPending) && Pending(qs) <= maxPending
    ensures Run(mid, events[1..], qs', maxPending) && Pending(mid) <= maxPending
    ensures Balanced(Total(qs), Accepted([events[0]]), Total(mid), Taken([events[0]]))
  {
    mid :| Step(qs, events[0], mid, maxPending) && Run(mid, events[1..], qs', maxPending);
    StepKeepsLimit(qs, events[0], mid, maxPending);
  }

  /** Over every run the pending tasks stay within the limit and no task is lost or duplicated. */
  lemma {:induction false} RunConserves(qs: Queues, events: seq<Event>, qs': Queues, maxPending: nat)
    requires Run(qs, events, qs', maxPending) && Pending(qs) <= maxPending
    ensures Pending(qs') <= maxPending
    ensures Balanced(Total(qs), Accepted(events), Total(qs'), Taken(events))
    decreases |events|
  {
    if events != [] {
      var e := events[0];
      var mid := FirstStep(qs, events, qs', maxPending);
      RunConserves(mid, events[1..], qs', maxPending);
      LogsSplit(events);
      BalanceJoins(Total(qs), Accepted([e]), Total(mid), Taken([e]), Accepted(events[1..]), Total(qs'), Taken(events[1..]));
    }
  }

  // ---- Rebalancing ----

  /** Tasks only move from the end of the global queue to the ends of workers' queues. */
  ghost predicate Rebalances(qs: Queues, qs': Queues) {
    && |qs'| == |qs| > 0 && Total(qs') == Total(qs)
    && qs'[0] <= qs[0]
    && (forall i :: 1 <= i < |qs| ==> qs[i] <= qs'[i])
  }

  /** What one successful round of the balancer does. */
  function MoveLast(qs: Queues, k: nat): Queues
    requires 0 < k < |qs| && |qs[0]| > 0
  {
    var last := |qs[0]| - 1;
    qs[0 := qs[0][..last]][k := qs[k] + [qs[0][last]]]
  }

  /** After a pop from the global queue, pushing the task back undoes it, and pushing it on a worker moves it. */
  lemma PoppedMoves(qs: Queues, task: Task, mid: Queues, limit: nat)
    requires Step(qs, Popped(0, task), mid, limit)
    ensures |qs| == |mid| > 0 && |qs[0]| > 0 && task == qs[0][|qs[0]| - 1]
    ensures mid[0 := mid[0] + [task]] == qs
    ensures forall k :: 0 < k < |qs| ==> mid[k := mid[k] + [task]] == MoveLast(qs, k)
  {
    assert mid[0 := mid[0] + [task]] == qs;
  }

  lemma MoveRebalances(qs: Queues, k: nat)
    requires 0 < k < |qs| && |qs[0]| > 0
    ensures Rebalances(qs, MoveLast(qs, k))
  {
    var last := |qs[0]| - 1;
    var q := qs[0][..last];
    assert qs[0] == q + [qs[0][last]];
    TotalRemove(qs, 0, q, qs[0][last]);
    TotalAppend(qs[0 := q], k, qs[0][last]);
  }

  lemma RebalancesSame(qs: Queues)
    requires qs != []
    ensures Rebalances(qs, qs)
  {
  }

  lemma RebalancesIsStep(qs: Queues, qs': Queues, maxPending: nat)
    requires Rebalances(qs, qs')
    ensures Step(qs, Rebalanced, qs', maxPending)
  {
  }

  lemma RebalancesChain(a: Queues, b: Queues, c: Queues)
    requires Rebalances(a, b) && Rebalances(b, c)
    ensures Rebalances(a, c)
  {
  }
}
