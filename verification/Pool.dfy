/** The work-stealing pool: placement, back-pressure, and rebalancing of the global queue. */
module Pools {
  import opened Bits
  import opened Options
  import opened Deques
  import opened PoolRuns

  class Pool {
    var global: Deque<Task>
    var deques: seq<Deque<Task>>
    var terminating: seq<bool>
    var nodes: seq<nat>
    var loadScores: seq<nat>
    var shutdown: bool
    var paused: bool
    var adaptive: bool
    var highWater: nat
    var balancing: bool
    var lastBalance: word
    var submitted: nat
    var rejected: nat
    const maxPending: nat
    ghost var Repr: set<object>

    ghost function All(): seq<Deque<Task>>
      reads `global, `deques
    {
      [global] + deques
    }

    ghost function At(k: nat): Deque<Task>
      requires k < |All()|
      reads this
    {
      All()[k]
    }

    ghost predicate Valid()
      reads this, Repr
    {
      |terminating| == |nodes| == |loadScores| == |deques| && Separate()
    }

    /** Every queue is well formed and no two share an object. */
    ghost predicate Separate()
      reads this, Repr
    {
      && this !in Repr
      && (forall i :: 0 <= i < |All()| ==> All()[i] in Repr && All()[i].tasks in Repr && All()[i].Valid())
      && (forall i, j :: 0 <= i < j < |All()| ==> All()[i] != All()[j] && All()[i].tasks != All()[j].tasks)
    }

    /** The abstract value: the contents of every queue, the global one first. */
    ghost function Contents(): (qs: Queues)
      requires Separate()
      reads this, Repr
      ensures |qs| == 1 + |deques|
    {
      seq(|All()|, i requires 0 <= i < |All()| && Separate() reads this, Repr => All()[i].Contents())
    }

    /** An empty pool: the limit is 100 pending tasks per allowed thread. */
    constructor (nodes: seq<nat>, maxThreads: nat, dequeCapacity: nat, defaultCapacity: nat, maxCapacity: nat)
      requires defaultCapacity > 0
      ensures Valid() && fresh(Repr)
      ensures Contents() == seq(1 + |nodes|, _ => []) && maxPending == 100 * maxThreads
      ensures !shutdown && !paused && adaptive && highWater == 80 * maxThreads
    {
      ghost var objects;
      var ds;
      ds, objects := CreateDeques(|nodes|, dequeCapacity, defaultCapacity, maxCapacity);
      var g := new Deque<Task>(2 * dequeCapacity, defaultCapacity, maxCapacity);
      global, deques, this.nodes := g, ds, nodes;
      terminating := seq(|nodes|, _ => false);
      loadScores := seq(|nodes|, _ => 0);
      shutdown, paused, adaptive, balancing := false, false, true, false;
      maxPending := 100 * maxThreads;
      highWater := 80 * maxThreads;
      lastBalance, submitted, rejected := 0, 0, 0;
      Repr := {g as object, g.tasks as object} + objects;
      new;
      assert All()[0] == g && All()[1..] == ds;
      forall i | 0 <= i < |All()|
        ensures All()[i] in Repr && All()[i].tasks in Repr && All()[i].Valid() && All()[i].Contents() == []
      {
        if i > 0 {
          assert All()[i] == ds[i - 1];
        }
      }
    }

    /** The workers' deques, created when the pool starts. */
    static method CreateDeques(n: nat, dequeCapacity: nat, defaultCapacity: nat, maxCapacity: nat)
      returns (ds: seq<Deque<Task>>, ghost objects: set<object>)
      requires defaultCapacity > 0
      ensures |ds| == n && fresh(objects)
      ensures forall i :: 0 <= i < n ==> ds[i] in objects && ds[i].tasks in objects
      ensures forall i :: 0 <= i < n ==> fresh(ds[i]) && fresh(ds[i].tasks) && ds[i].Valid() && ds[i].Contents() == []
      ensures forall i, j :: 0 <= i < j < n ==> ds[i] != ds[j] && ds[i].tasks != ds[j].tasks
    {
      ds, objects := [], {};
      while |ds| < n
        invariant |ds| <= n && fresh(objects)
        invariant forall i :: 0 <= i < |ds| ==> ds[i] in objects && ds[i].tasks in objects
        invariant forall i :: 0 <= i < |ds| ==> fresh(ds[i]) && fresh(ds[i].tasks) && ds[i].Valid() && ds[i].Contents() == []
        invariant forall i, j :: 0 <= i < j < |ds| ==> ds[i] != ds[j] && ds[i].tasks != ds[j].tasks
      {
        var d := new Deque<Task>(dequeCapacity, defaultCapacity, maxCapacity);
        ds, objects := ds + [d], objects + {d, d.tasks};
      }
    }

    /** Framing: when only queue `k` has been worked on, only its contents can differ. */
    twostate lemma OnlyQueue(k: nat)
      requires old(Valid()) && unchanged(`global, `deques, `terminating, `nodes, `loadScores)
      requires k < |All()| && All()[k].Valid() && Repr == old(Repr) + {All()[k].tasks}
      requires forall i :: 0 <= i < |All()| && i != k ==> unchanged(All()[i]) && unchanged(All()[i].tasks)
      requires All()[k].tasks == old(All()[k].tasks) || fresh(All()[k].tasks)
      ensures Valid() && Contents() == old(Contents())[k := All()[k].Contents()]
      ensures fresh(Repr - old(Repr))
    {
      forall i | 0 <= i < |All()| && i != k
        ensures All()[i].Valid() && All()[i].Contents() == old(All()[i].Contents())
      {
      }
    }

    /** Framing: the queues do not depend on the load scores or the counters. */
    twostate lemma QueuesUntouched()
      requires old(Valid()) && unchanged(`global, `deques, `nodes, `terminating, `Repr) && |loadScores| == |deques|
      requires forall o | o in Repr :: unchanged(o)
      ensures Valid() && Contents() == old(Contents())
    {
      assert All() == old(All());
    }

    /** `work_stealing_deque_push_bottom` on one of the pool's queues. */
    method PushTo(k: nat, task: Task) returns (ok: bool)
      requires Valid() && k < |All()|
      modifies this`Repr, All()[k], All()[k].tasks
      ensures Valid()
      ensures Contents() == if ok then old(Contents())[k := old(Contents())[k] + [task]] else old(Contents())
      ensures fresh(Repr - old(Repr))
      ensures ok <==> old(!All()[k].Full())
      ensures !ok ==> unchanged(All()[k]) && All()[k].Full()
    {
      var d := if k == 0 then global else deques[k - 1];
      assert d == All()[k];
      ok := d.PushBottom(task);
      Repr := Repr + {d.tasks};
      OnlyQueue(k);
    }

    /** A worker popping its own queue, or the balancer popping the global one. */
    method PopFrom(k: nat, spurious: bool) returns (r: Option<Task>)
      requires Valid() && k < |All()|
      modifies At(k)`top, At(k)`bottom
      ensures Valid() && Repr == old(Repr)
      ensures r.None? <==> |old(Contents())[k]| == 0 || (|old(Contents())[k]| == 1 && spurious)
      ensures if r.Some? then Step(old(Contents()), Popped(k, r.value), Contents(), maxPending)
              else Contents() == old(Contents())
      ensures r.Some? ==> |All()[k].Contents()| < All()[k].mask
    {
      var d := if k == 0 then global else deques[k - 1];
      assert d == All()[k];
      r := d.PopBottom(spurious);
      OnlyQueue(k);
    }

    method StealFrom(k: nat, spurious: bool) returns (r: Option<Task>)
      requires Valid() && k < |All()|
      modifies At(k)`top
      ensures Valid() && Repr == old(Repr)
      ensures r.None? <==> |old(Contents())[k]| == 0 || spurious
      ensures if r.Some? then Step(old(Contents()), Stolen(k, r.value), Contents(), maxPending)
              else Contents() == old(Contents())
    {
      var d := if k == 0 then global else deques[k - 1];
      assert d == All()[k];
      r := d.StealTop(spurious);
      OnlyQueue(k);
    }

    /** The sum of the sizes of the global queue and every worker's. */
    method PendingTasks() returns (n: nat)
      requires Valid()
      ensures n == Pending(Contents())
    {
      assert global == All()[0];
      n := global.Size();
      var i := 0;
      while i < |deques|
        invariant i <= |deques| && n + Pending(Contents()[1 + i..]) == Pending(Contents())
      {
        assert deques[i] == All()[i + 1];
        assert Contents()[1 + i..][0] == deques[i].Contents();
        assert Contents()[1 + i..][1..] == Contents()[2 + i..];
        n := n + deques[i].Size();
        i := i + 1;
      }
    }

    /** A worker's load as the placement scan sees it: none while it is terminating. */
    ghost function Load(i: nat, task: Task): Option<nat>
      requires Valid() && i < |deques|
      reads this, Repr
    {
      if terminating[i] then None
      else Some(|Contents()[i + 1]| * 1000 + loadScores[i]
                + (if task.node.Some? && task.node.value != nodes[i] then 10000 else 0))
    }

    ghost function Loads(task: Task): (loads: seq<Option<nat>>)
      requires Valid()
      reads this, Repr
      ensures |loads| == |deques|
    {
      seq(|deques|, i requires 0 <= i < |deques| && Valid() reads this, Repr => Load(i, task))
    }

    /** The queue a task goes to: the least loaded worker's, the first worker's when all are terminating. */
    ghost function Target(task: Task): (k: nat)
      requires Valid() && |deques| > 0
      reads this, Repr
      ensures 1 <= k < |All()|
    {
      1 + (if LeastLoaded(Loads(task)).Some? then LeastLoaded(Loads(task)).value else 0)
    }

    /** The worker's memory node is not the task's preferred one. */
    predicate Away(i: nat, task: Task)
      requires i < |nodes|
      reads this
    {
      task.node.Some? && task.node.value != nodes[i]
    }

    /**
     Worker `i` is placed on rather than `j`: among workers that are both on the preferred node or both not, one more
     queued task outweighs any difference of scores below 1000; with queues alike the lower score counts, and with all
     alike the earlier worker. Being on the preferred node is worth ten queued tasks.
     */
    ghost predicate PlacedBefore(i: nat, j: nat, task: Task)
      requires Valid() && i < |deques| && j < |deques|
      reads this, Repr
    {
      var qi, qj, si, sj := |Contents()[i + 1]|, |Contents()[j + 1]|, loadScores[i], loadScores[j];
      && (Away(i, task) == Away(j, task) && sj < si + 1000 ==> qi <= qj)
      && (Away(i, task) == Away(j, task) && qi == qj ==> si <= sj && (si == sj ==> i <= j))
      && (Away(i, task) && !Away(j, task) && sj < si + 1000 ==> qi + 10 <= qj)
      && (!Away(i, task) && Away(j, task) && sj < si + 1000 ==> qi <= qj + 10)
    }

    /** The target is a worker that is not terminating, if there is one, and is placed on before every other such worker. */
    lemma TargetIsBest(task: Task, j: nat)
      requires Valid() && j < |deques| && !terminating[j]
      ensures var i := Target(task) - 1; !terminating[i] && PlacedBefore(i, j, task)
    {
      hide Valid, Contents;
      LeastLoadedIsLeast(Loads(task));
      assert Loads(task)[j].Some?;
    }

    /** When all workers are terminating the first one is taken. */
    lemma TargetWithoutWorkers(task: Task)
      requires Valid() && |deques| > 0 && forall i :: 0 <= i < |deques| ==> terminating[i]
      ensures Target(task) == 1
    {
      LeastLoadedIsLeast(Loads(task));
      assert forall i :: 0 <= i < |deques| ==> Loads(task)[i].None?;
    }

    lemma TargetLaws(task: Task)
      requires Valid() && |deques| > 0
      ensures var i := Target(task) - 1;
        && (forall j :: 0 <= j < |deques| && !terminating[j] ==> !terminating[i] && PlacedBefore(i, j, task))
        && ((forall j :: 0 <= j < |deques| ==> terminating[j]) ==> i == 0)
    {
      var i := Target(task) - 1;
      hide Target, PlacedBefore;
      forall j | 0 <= j < |deques| && !terminating[j]
        ensures !terminating[i] && PlacedBefore(i, j, task)
      {
        TargetIsBest(task, j);
      }
      if forall j :: 0 <= j < |deques| ==> terminating[j] {
        TargetWithoutWorkers(task);
      }
    }

    /** No worker takes the task: there is none, or the target's ring is full and may not grow. */
    ghost predicate Refuses(task: Task)
      requires Valid()
      reads this, Repr
    {
      |deques| > 0 ==> All()[Target(task)].Full()
    }

    /** Some queue takes the task: the target's or, when that refuses, the global one. */
    ghost predicate HasRoom(task: Task)
      requires Valid()
      reads this, Repr
    {
      !Refuses(task) || !All()[0].Full()
    }

    /** Where a task that is accepted goes: the target, or the global queue when that refuses. */
    ghost function Destination(task: Task): (k: nat)
      requires Valid()
      reads this, Repr
      ensures k <= |deques|
    {
      if Refuses(task) then 0 else Target(task)
    }

    /** The target depends only on the workers' queues, scores and nodes. */
    twostate lemma SameTarget(task: Task)
      requires old(Valid()) && Valid() && unchanged(`deques, `nodes, `terminating, `loadScores) && |deques| > 0
      requires Contents()[1..] == old(Contents())[1..]
      ensures Target(task) == old(Target(task))
    {
      forall i | 0 <= i < |deques| ensures Load(i, task) == old(Load(i, task)) {
        assert Contents()[i + 1] == Contents()[1..][i] && old(Contents()[i + 1]) == old(Contents())[1..][i];
      }
      assert Loads(task) == old(Loads(task));
    }

    method LoadOf(i: nat, task: Task) returns (load: Option<nat>)
      requires Valid() && i < |deques|
      ensures load == Loads(task)[i]
    {
      if terminating[i] {
        return None;
      }
      assert deques[i] == All()[i + 1];
      var score := deques[i].Size() * 1000 + loadScores[i];
      if task.node.Some? && task.node.value != nodes[i] {
        score := score + 10000;
      }
      load := Some(score);
    }

    /** One round of the scan. */
    method Consider(i: nat, task: Task, best: nat, bestLoad: Option<nat>, ghost loads: seq<Option<nat>>)
      returns (best': nat, bestLoad': Option<nat>)
      requires Valid() && i < |deques| && loads == Loads(task) && Scanned(loads, i, best, bestLoad)
      ensures Scanned(loads, i + 1, best', bestLoad')
    {
      hide Scanned, LeastLoaded;
      ScanStep(loads, i, best, bestLoad);
      var load := LoadOf(i, task);
      best', bestLoad' := best, bestLoad;
      if Better(load, bestLoad) {
        bestLoad', best' := load, i;
      }
    }

    /** The scan of `distribute_task_to_worker`: the best available worker, or the first when none is available. */
    method FindTarget(task: Task) returns (k: nat)
      requires Valid() && |deques| > 0
      ensures k == Target(task)
      ensures forall j :: 0 <= j < |deques| && !terminating[j] ==> !terminating[k - 1] && PlacedBefore(k - 1, j, task)
      ensures (forall j :: 0 <= j < |deques| ==> terminating[j]) ==> k == 1
    {
      hide Target, PlacedBefore;
      k := ScanWorkers(task);
      TargetLaws(task);
    }

    method ScanWorkers(task: Task) returns (k: nat)
      requires Valid() && |deques| > 0
      ensures k == Target(task)
    {
      var best, bestLoad: Option<nat> := 0, None;
      ghost var loads := Loads(task);
      assert Scanned(loads, 0, best, bestLoad);
      hide Scanned, LeastLoaded, Loads;
      var i := 0;
      while i < |deques|
        invariant i <= |deques| == |loads| && Scanned(loads, i, best, bestLoad)
      {
        best, bestLoad := Consider(i, task, best, bestLoad, loads);
        i := i + 1;
      }
      ScanEnd(loads, best, bestLoad);
      k := 1 + best;
    }

    /** A worker looks busier by 100 for a task it was given; the global queue has no score. */
    static function Busier(scores: seq<nat>, k: nat): seq<nat>
      requires k <= |scores|
    {
      if k == 0 then scores else scores[k - 1 := scores[k - 1] + 100]
    }

    /** Pushes on queue `k` and makes its worker look busier. */
    method Place(k: nat, task: Task) returns (ok: bool)
      requires Valid() && 1 <= k < |All()|
      modifies this`loadScores, this`Repr, Repr
      ensures Valid() && fresh(Repr - old(Repr)) && unchanged(global)
      ensures Contents() == if ok then old(Contents())[k := old(Contents())[k] + [task]] else old(Contents())
      ensures ok <==> old(!All()[k].Full())
      ensures !ok ==> All()[k].Full()
      ensures loadScores == if ok then Busier(old(loadScores), k) else old(loadScores)
    {
      assert global == All()[0];
      ok := PushTo(k, task);
      if ok {
        label Pushed:
        loadScores := loadScores[k - 1 := loadScores[k - 1] + 100];
        QueuesUntouched@Pushed();
      }
    }

    method Distribute(task: Task) returns (ok: bool, ghost k: nat)
      requires Valid()
      modifies this`loadScores, this`Repr, Repr
      ensures Valid() && fresh(Repr - old(Repr)) && unchanged(global)
      ensures k < |old(Contents())| && (ok ==> |deques| > 0 && k == old(Target(task)))
      ensures ok <==> old(!Refuses(task))
      ensures !ok ==> Refuses(task)
      ensures Contents() == if ok then old(Contents())[k := old(Contents())[k] + [task]] else old(Contents())
      ensures loadScores == if ok then Busier(old(loadScores), k) else old(loadScores)
    {
      ok, k := false, 0;
      if |deques| > 0 {
        var i := FindTarget(task);
        k := i;
        ok := Place(i, task);
        if !ok {
          SameTarget(task);
        }
      }
    }

    /** Counts a refusal. */
    method Reject()
      requires Valid()
      modifies this`rejected
      ensures Valid() && Contents() == old(Contents()) && rejected == old(rejected) + 1
    {
      rejected := rejected + 1;
      QueuesUntouched();
    }

    method Admit(ghost task: Task)
      requires Valid()
      modifies this`submitted
      ensures Valid() && Contents() == old(Contents()) && submitted == old(submitted) + 1
      ensures Destination(task) == old(Destination(task)) && HasRoom(task) == old(HasRoom(task))
    {
      submitted := submitted + 1;
      QueuesUntouched();
      if |deques| > 0 {
        SameTarget(task);
      }
    }

    /** Back-pressure, then a worker's queue, then the global one. `draw` is the random draw in [0, 1]. */
    method Submit(task: Task, draw: real) returns (ok: bool, ghost k: nat)
      requires Valid()
      modifies this`loadScores, this`submitted, this`rejected, this`Repr, Repr
      ensures Valid() && fresh(Repr - old(Repr))
      ensures var n := Pending(old(Contents()));
        ok <==> !shutdown && !paused && n < maxPending && !Sheds(n, draw) && old(HasRoom(task))
      ensures k < |old(Contents())| && (ok ==> k == old(Destination(task)))
      ensures Contents() == if ok then old(Contents())[k := old(Contents())[k] + [task]] else old(Contents())
      ensures loadScores == if ok then Busier(old(loadScores), k) else old(loadScores)
      ensures Step(old(Contents()), if ok then Submitted(task) else Refused, Contents(), maxPending)
    {
      hide Destination, HasRoom, Step, Pending, Sheds, Busier;
      RefusedIsStep(Contents(), maxPending);
      ok, k := false, 0;
      if !shutdown && !paused {
        var pending := PendingTasks();
        if pending >= maxPending || Sheds(pending, draw) {
          Reject();
        } else {
          ok, k := Accept(task);
          if ok {
            SubmittedIsStep(old(Contents()), k, task, maxPending);
          }
        }
      }
    }

    /** Past the back-pressure checks: counted as submitted, and as rejected too when every queue is full. */
    method Accept(task: Task) returns (ok: bool, ghost k: nat)
      requires Valid()
      modifies this`loadScores, this`submitted, this`rejected, this`Repr, Repr
      ensures Valid() && fresh(Repr - old(Repr))
      ensures k < |old(Contents())| && (ok ==> k == old(Destination(task)))
      ensures Contents() == if ok then old(Contents())[k := old(Contents())[k] + [task]] else old(Contents())
      ensures loadScores == if ok then Busier(old(loadScores), k) else old(loadScores)
      ensures submitted == old(submitted) + 1 && rejected == old(rejected) + (if ok then 0 else 1)
      ensures ok <==> old(HasRoom(task))
    {
      hide Destination, HasRoom;
      Admit(task);
      ok, k := Enqueue(task);
      if !ok {
        Reject();
      }
    }

    /** The adaptive rejection above the high-water mark, linear from 80% to 100% of the limit. */
    predicate Sheds(pending: nat, draw: real)
      requires pending < maxPending
      reads `adaptive, `highWater
    {
      adaptive && pending >= highWater &&
      var probability := (pending as real / maxPending as real - 0.8) / 0.2;
      probability > 0.0 && draw < probability
    }

    /**
     Nothing is shed below the high-water mark or up to 80% of the limit; above, what is shed at one fill level is shed at
     every higher one, and the share shed rises linearly to everything at the limit.
     */
    lemma ShedsLinearly(n: nat, m: nat, draw: real)
      requires n <= m < maxPending && 0.0 <= draw < 1.0
      ensures n < highWater || n as real <= 0.8 * maxPending as real || !adaptive ==> !Sheds(n, draw)
      ensures Sheds(n, draw) ==> Sheds(m, draw)
      ensures adaptive && n >= highWater ==>
        (Sheds(n, draw) <==> (1.0 - draw) * maxPending as real > 5.0 * (maxPending as real - n as real))
    {
      var total, x, y := maxPending as real, n as real / maxPending as real, m as real / maxPending as real;
      var p, q := (x - 0.8) / 0.2, (y - 0.8) / 0.2;
      assert Sheds(n, draw) <==> adaptive && n >= highWater && p > 0.0 && draw < p;
      assert Sheds(m, draw) <==> adaptive && m >= highWater && q > 0.0 && draw < q;
      FillLevels(n as real, m as real, total);
      Share(n as real, total, draw);
    }

    /** A worker if one takes the task, the global queue otherwise. */
    method Enqueue(task: Task) returns (ok: bool, ghost k: nat)
      requires Valid()
      modifies this`loadScores, this`Repr, Repr
      ensures Valid() && fresh(Repr - old(Repr))
      ensures k < |old(Contents())| && (ok ==> k == old(Destination(task)))
      ensures Contents() == if ok then old(Contents())[k := old(Contents())[k] + [task]] else old(Contents())
      ensures loadScores == if ok then Busier(old(loadScores), k) else old(loadScores)
      ensures ok <==> old(HasRoom(task))
    {
      hide Refuses, Target;
      assert All()[0] == global;
      ok, k := Distribute(task);
      if !ok {
        ok := PushTo(0, task);
        k := 0;
      }
    }

    /** The periodic decay: 95% of each score, rounded down, plus 50 per queued task. */
    method UpdateScores()
      requires Valid()
      modifies this`loadScores
      ensures Valid() && Contents() == old(Contents())
      ensures forall i :: 0 <= i < |deques| ==>
        loadScores[i] == (old(loadScores)[i] as real * 0.95).Floor + 50 * |Contents()[i + 1]|
    {
      ghost var qs := Contents();
      var scores := loadScores;
      var i := 0;
      while i < |deques|
        invariant i <= |deques| == |scores|
        invariant forall j :: 0 <= j < i ==> scores[j] == (loadScores[j] as real * 0.95).Floor + 50 * |qs[j + 1]|
        invariant forall j :: i <= j < |deques| ==> scores[j] == loadScores[j]
      {
        assert deques[i] == All()[i + 1];
        scores := scores[i := (scores[i] as real * 0.95).Floor + 50 * deques[i].Size()];
        i := i + 1;
      }
      loadScores := scores;
      QueuesUntouched();
    }

    /** Returning a refused task to the global queue it was popped from. */
    method PutBack(task: Task)
      requires Valid() && Refuses(task) && All()[0] == global && |global.Contents()| < global.mask
      modifies this`Repr, global, global.tasks
      ensures Valid() && fresh(Repr - old(Repr)) && Refuses(task)
      ensures Contents() == old(Contents())[0 := old(Contents())[0] + [task]]
    {
      assert global == All()[0];
      var ok := PushTo(0, task);
      if |deques| > 0 {
        SameTarget(task);
      }
    }

    /**
     One round of the balancer on a non-empty global queue. A pop that fails (spuriously) and a
     distribution that fails both leave every queue exactly as it was: the push-back always succeeds.
     */
    method MoveOne(spurious: bool) returns (r: Round, ghost k: nat)
      requires Valid() && |Contents()[0]| > 0
      modifies this`loadScores, this`Repr, Repr
      ensures Valid() && fresh(Repr - old(Repr))
      ensures r.Missed? ==> spurious
      ensures k < |old(Contents())| && (r.Moved? ==> k > 0)
      ensures Contents() == if r.Moved? then MoveLast(old(Contents()), k) else old(Contents())
      ensures r.Stuck? ==> Refuses(Contents()[0][|Contents()[0]| - 1])
    {
      hide Refuses, Target, Busier, Step, MoveLast, Contents;
      k := 0;
      var popped := PopFrom(0, spurious);
      if popped.None? {
        return Missed, 0;
      }
      assert global == All()[0];
      PoppedMoves(old(Contents()), popped.value, Contents(), maxPending);
      var ok;
      ok, k := Distribute(popped.value);
      if ok {
        return Moved, k;
      }
      assert All()[0] == global && |global.Contents()| < global.mask;
      PutBack(popped.value);
      r := Stuck;
    }

    /**
     Empties the global queue into the workers' queues until a distribution fails. `spurious` lists
     the outcomes of the pops' weak CAS; with finitely many spurious failures the loop terminates.
     */
    method LoadBalance(now: word, interval: nat, spurious: seq<bool>)
      requires Valid()
      modifies this`loadScores, this`lastBalance, this`Repr, Repr
      ensures Valid() && fresh(Repr - old(Repr))
      ensures Rebalances(old(Contents()), Contents())
      ensures Step(old(Contents()), Rebalanced, Contents(), maxPending)
      ensures if !balancing || Elapsed(now, old(lastBalance)) < interval then Contents() == old(Contents()) else Drained()
    {
      hide Refuses, Drained, Rebalances, Step;
      RebalancesSame(Contents());
      if balancing && Elapsed(now, lastBalance) >= interval {
        UpdateScores();
        Drain(spurious);
        Stamp(now);
      }
      RebalancesIsStep(old(Contents()), Contents(), maxPending);
    }

    method Stamp(now: word)
      requires Valid()
      modifies this`lastBalance
      ensures Valid() && Contents() == old(Contents()) && (old(Drained()) ==> Drained())
    {
      lastBalance := now;
      QueuesUntouched();
      if |deques| > 0 && Contents()[0] != [] {
        SameTarget(Contents()[0][|Contents()[0]| - 1]);
      }
    }

    /** Nothing is left in the global queue, or no worker takes its next task. */
    ghost predicate Drained()
      requires Valid()
      reads this, Repr
    {
      Contents()[0] == [] || Refuses(Contents()[0][|Contents()[0]| - 1])
    }

    method Drain(spurious: seq<bool>)
      requires Valid()
      modifies this`loadScores, this`Repr, Repr
      ensures Valid() && fresh(Repr - old(Repr))
      ensures Rebalances(old(Contents()), Contents()) && Drained()
    {
      hide Refuses, Rebalances;
      RebalancesSame(Contents());
      var used, stuck := 0, false;
      assert global == All()[0];
      while !stuck && global.Size() > 0
        invariant Valid() && fresh(Repr - old(Repr)) && used <= |spurious|
        invariant Rebalances(old(Contents()), Contents())
        invariant stuck ==> Drained()
        decreases |Contents()[0]|, |spurious| - used, !stuck
      {
        assert global == All()[0];
        ghost var qs := Contents();
        var miss := used < |spurious| && spurious[used];
        if used < |spurious| {
          used := used + 1;
        }
        var round;
        ghost var k;
        round, k := MoveOne(miss);
        stuck := round.Stuck?;
        if round.Moved? {
          MoveRebalances(qs, k);
          RebalancesChain(old(Contents()), qs, Contents());
        }
      }
    }
  }

  lemma FillLevels(n: real, m: real, total: real)
    requires n <= m && total > 0.0
    ensures n / total <= m / total && (n / total) * total == n
  {
  }

  /** The share shed with `n` pending of `total`, without the divisions. */
  lemma Share(n: real, total: real, draw: real)
    requires total > 0.0
    ensures draw < (n / total - 0.8) / 0.2 <==> (1.0 - draw) * total > 5.0 * (total - n)
    ensures n <= 0.8 * total ==> (n / total - 0.8) / 0.2 <= 0.0
  {
    var x := n / total;
    var d := 5.0 * x - 4.0 - draw;
    assert (x - 0.8) / 0.2 == 5.0 * x - 4.0 && x * total == n;
    assert d * total == 5.0 * (x * total) - 4.0 * total - draw * total;
    assert d > 0.0 <==> d * total > 0.0;
    assert x > 0.8 ==> x * total > 0.8 * total;
  }

  datatype Round = Moved | Missed | Stuck
}
