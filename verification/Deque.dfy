/**
 The work-stealing deque as an object, for a caller that serialises its operations.
 What interleaved operations keep is proved in DequeProtocol.
 */
module Deques {
  import opened Bits
  import opened Options

  class Deque<T(0)> {
    var tasks: array<T>
    var capacity: nat
    var mask: nat
    var top: nat
    var bottom: nat
    const maxCapacity: nat

    ghost predicate Valid()
      reads this, tasks
    {
      && IsPow2(capacity) && capacity == tasks.Length && mask == capacity - 1
      && top <= bottom <= top + mask
    }

    /** The tasks at indices `[top, bottom)`, oldest first. */
    ghost function Contents(): (s: seq<T>)
      requires Valid()
      reads this, tasks
      ensures |s| == bottom - top
    {
      seq(bottom - top, k requires 0 <= k < bottom - top && tasks.Length > 0 reads this, tasks => tasks[(top + k) % tasks.Length])
    }

    /** The ring has the least power of two at or above the requested capacity. */
    constructor (initialCapacity: nat, defaultCapacity: nat, maxCapacity: nat)
      requires defaultCapacity > 0
      ensures Valid() && fresh(tasks) && Contents() == [] && this.maxCapacity == maxCapacity
      ensures var wanted := if initialCapacity == 0 then defaultCapacity else initialCapacity;
        wanted <= capacity && (capacity == 1 || capacity / 2 < wanted)
    {
      var wanted := if initialCapacity == 0 then defaultCapacity else initialCapacity;
      var c := 1;
      while c < wanted
        invariant c > 0 && IsPow2(c) && (c == 1 || c / 2 < wanted)
        decreases wanted - c
      {
        c := 2 * c;
      }
      tasks := new T[c];
      capacity := c;
      mask := c - 1;
      top := 0;
      bottom := 0;
      this.maxCapacity := maxCapacity;
    }

    function Size(): (n: nat)
      requires Valid()
      reads this, tasks
      ensures n == |Contents()|
    {
      if bottom > top then bottom - top else 0
    }

    /** The copy loop of growing: slot `i & (c - 1)` gets slot `i & mask`. */
    method CopyWindow(wider: array<T>)
      requires Valid() && wider != tasks && capacity < wider.Length && IsPow2(wider.Length)
      modifies wider
      ensures forall j :: top <= j < bottom ==> wider[j % wider.Length] == tasks[j % tasks.Length]
    {
      var i := top;
      while i < bottom
        invariant top <= i <= bottom
        invariant forall j :: top <= j < i ==> wider[j % wider.Length] == tasks[j % tasks.Length]
      {
        AndMaskIsMod(i, wider.Length);
        AndMaskIsMod(i, capacity);
        WindowApart(top, i, wider.Length);
        wider[And(i, wider.Length - 1)] := tasks[And(i, mask)];
        i := i + 1;
      }
    }

    /** All slots but one are in use and the ring may not double. */
    ghost predicate Full()
      requires Valid()
      reads this, tasks
    {
      |Contents()| >= mask && 2 * capacity > maxCapacity
    }

    /** Copies the live window into a larger ring; refused beyond the limit. */
    method Resize(newCapacity: nat) returns (ok: bool)
      requires Valid()
      modifies this
      ensures Valid() && Contents() == old(Contents())
      ensures ok <==> old(capacity) < newCapacity <= maxCapacity
      ensures top == old(top) && bottom == old(bottom)
      ensures if ok then fresh(tasks) && newCapacity <= capacity < 2 * newCapacity
              else unchanged(this)
    {
      if newCapacity <= capacity || newCapacity > maxCapacity {
        return false;
      }
      var c := capacity;
      while c < newCapacity
        invariant IsPow2(c) && capacity <= c < 2 * newCapacity
        decreases newCapacity - c
      {
        c := 2 * c;
      }
      var wider := new T[c];
      CopyWindow(wider);
      tasks := wider;
      capacity := c;
      mask := c - 1;
      ok := true;
    }

    /** The slot write and publication of a push that has found room. */
    method Publish(task: T)
      requires Valid() && bottom - top < mask
      modifies this`bottom, tasks
      ensures Valid() && Contents() == old(Contents()) + [task]
      ensures bottom == old(bottom) + 1
    {
      AndMaskIsMod(bottom, capacity);
      WindowApart(top, bottom, capacity);
      tasks[And(bottom, mask)] := task;
      bottom := bottom + 1;
    }

    method PushBottom(task: T) returns (ok: bool)
      requires Valid()
      modifies this, tasks
      ensures Valid() && (tasks == old(tasks) || fresh(tasks))
      ensures ok <==> old(!Full())
      ensures Contents() == if ok then old(Contents()) + [task] else old(Contents())
      ensures top == old(top) && (!ok ==> unchanged(this) && Full())
    {
      if bottom - top >= capacity - 1 {
        if capacity < maxCapacity {
          var _ := Resize(2 * capacity);
        }
        if bottom - top >= capacity - 1 {
          return false;
        }
      }
      Publish(task);
      ok := true;
    }

    /** `spurious` is the weak CAS failing for no reason; it matters only for the last task. */
    method PopBottom(spurious: bool) returns (r: Option<T>)
      requires Valid()
      modifies this`top, this`bottom
      ensures Valid()
      ensures r.None? <==> old(|Contents()|) == 0 || (old(|Contents()|) == 1 && spurious)
      ensures if r.Some? then old(Contents()) == Contents() + [r.value] else Contents() == old(Contents())
    {
      var b := bottom;
      if b == 0 {
        return None;
      }
      b := b - 1;
      bottom := b;
      if top <= b {
        AndMaskIsMod(b, capacity);
        r := Some(tasks[And(b, mask)]);
        if top == b {
          if spurious {
            r := None;
          } else {
            top := top + 1;
          }
          bottom := b + 1;
        }
      } else {
        bottom := b + 1;
        r := None;
      }
    }

    method StealTop(spurious: bool) returns (r: Option<T>)
      requires Valid()
      modifies this`top
      ensures Valid()
      ensures r.None? <==> old(|Contents()|) == 0 || spurious
      ensures if r.Some? then old(Contents()) == [r.value] + Contents() else Contents() == old(Contents())
    {
      if top >= bottom {
        return None;
      }
      AndMaskIsMod(top, capacity);
      var task := tasks[And(top, mask)];
      if spurious {
        return None;
      }
      top := top + 1;
      r := Some(task);
    }
  }
}
