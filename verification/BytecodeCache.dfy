/** The chained hash table of compiled scripts, and the map it implements. */
module BytecodeCache {
  import opened Options

  type byte = n: nat | n < 256

  /** Script paths as the bytes of their C strings. */
  type Path = seq<byte>

  datatype Script = Script(sourceHash: Option<string>, bytes: seq<byte>)

  const TABLE_SIZE: nat := 1009

  // ---- The hash ----

  /** A `char` is signed. */
  function Signed(b: byte): int {
    if b < 128 then b else b - 256
  }

  /** djb2 over 32-bit words. */
  function HashFrom(hash: nat, path: Path): (h: nat)
    decreases |path|
  {
    if path == [] then hash else HashFrom((hash * 33 + Signed(path[0])) % 0x1_0000_0000, path[1..])
  }

  function Bucket(path: Path): (b: nat)
    ensures b < TABLE_SIZE
  {
    HashFrom(5381, path) % TABLE_SIZE
  }

  method HashString(path: Path) returns (hash: nat)
    ensures hash == HashFrom(5381, path)
  {
    hash := 5381;
    var i := 0;
    while i < |path|
      invariant 0 <= i <= |path| && HashFrom(hash, path[i..]) == HashFrom(5381, path)
    {
      hash := (hash * 33 + Signed(path[i])) % 0x1_0000_0000;
      assert path[i..][1..] == path[i + 1..];
      i := i + 1;
    }
  }

  // ---- The table ----

  class Entry {
    const path: Path
    var script: Script
    var accessCount: nat
    var next: Entry?

    constructor (path: Path, script: Script, next: Entry?)
      ensures this.path == path && this.script == script && this.next == next && accessCount == 0
    {
      this.path, this.script, this.next, accessCount := path, script, next, 0;
    }
  }

  /** The entry at `i`, or null behind the last. */
  function Nth(chain: seq<Entry>, i: nat): Entry? {
    if i < |chain| then chain[i] else null
  }

  /** The entries from `head` on are `chain`, and hold the paths and scripts of `bucket`. */
  ghost predicate Linked(head: Entry?, chain: seq<Entry>, bucket: seq<(Path, Script)>)
    reads chain
  {
    && head == Nth(chain, 0) && |chain| == |bucket|
    && forall i :: 0 <= i < |chain| ==>
      chain[i].path == bucket[i].0 && chain[i].script == bucket[i].1 && chain[i].next == Nth(chain, i + 1)
  }

  /** Bucket `b` holds exactly the scripts of `contents` that belong there, each once. */
  ghost predicate Holds(bucket: seq<(Path, Script)>, b: nat, contents: map<Path, Script>) {
    && (forall i :: 0 <= i < |bucket| ==>
      Bucket(bucket[i].0) == b && bucket[i].0 in contents && contents[bucket[i].0] == bucket[i].1)
    && (forall i, j :: 0 <= i < j < |bucket| ==> bucket[i].0 != bucket[j].0)
    && (forall p :: p in contents && Bucket(p) == b ==> exists i :: 0 <= i < |bucket| && bucket[i].0 == p)
  }

  function Entries(buckets: seq<seq<(Path, Script)>>): nat {
    if buckets == [] then 0 else |buckets[0]| + Entries(buckets[1..])
  }

  /** The buckets implement the map, and the number of entries is its size. */
  ghost predicate Implements(buckets: seq<seq<(Path, Script)>>, contents: map<Path, Script>) {
    && |buckets| == TABLE_SIZE && Entries(buckets) == |contents|
    && forall b :: 0 <= b < TABLE_SIZE ==> Holds(buckets[b], b, contents)
  }

  // ---- Buckets and maps ----

  lemma {:induction false} EntriesUpdate(buckets: seq<seq<(Path, Script)>>, b: nat, bucket: seq<(Path, Script)>)
    requires b < |buckets|
    ensures Entries(buckets[b := bucket]) == Entries(buckets) - |buckets[b]| + |bucket|
    decreases |buckets|
  {
    if b > 0 {
      EntriesUpdate(buckets[1..], b - 1, bucket);
      assert buckets[b := bucket][1..] == buckets[1..][b - 1 := bucket];
    }
  }

  lemma {:induction false} EntriesEmpty(n: nat)
    ensures Entries(seq(n, i => [])) == 0
    decreases n
  {
    if n > 0 {
      EntriesEmpty(n - 1);
      assert seq(n, i => [])[1..] == seq<seq<(Path, Script)>>(n - 1, i => []);
    }
  }

  /** A bucket that a path does not belong to holds what it held. */
  lemma HoldsElsewhere(bucket: seq<(Path, Script)>, b: nat, contents: map<Path, Script>, changed: map<Path, Script>, p: Path)
    requires Holds(bucket, b, contents) && Bucket(p) != b
    requires forall q :: q != p ==> (q in changed <==> q in contents) && (q in contents ==> changed[q] == contents[q])
    ensures Holds(bucket, b, changed)
  {
    hide Bucket;
  }

  /** One bucket has changed with the map; the others are as before. */
  lemma Changes(buckets: seq<seq<(Path, Script)>>, contents: map<Path, Script>, bucket: seq<(Path, Script)>,
                changed: map<Path, Script>, p: Path)
    requires Implements(buckets, contents) && Holds(bucket, Bucket(p), changed)
    requires |changed| - |contents| == |bucket| - |buckets[Bucket(p)]|
    requires forall q :: q != p ==> (q in changed <==> q in contents) && (q in contents ==> changed[q] == contents[q])
    ensures Implements(buckets[Bucket(p) := bucket], changed)
  {
    hide Bucket, Holds;
    var b := Bucket(p);
    var next := buckets[b := bucket];
    EntriesUpdate(buckets, b, bucket);
    forall c | 0 <= c < TABLE_SIZE
      ensures Holds(next[c], c, changed)
    {
      if c != b {
        HoldsElsewhere(buckets[c], c, contents, changed, p);
      }
    }
  }

  lemma ReplacesIn(buckets: seq<seq<(Path, Script)>>, contents: map<Path, Script>, at: nat, p: Path, s: Script)
    requires Implements(buckets, contents) && at < |buckets[Bucket(p)]| && buckets[Bucket(p)][at].0 == p
    ensures var b := Bucket(p);
      Implements(buckets[b := buckets[b][at := (p, s)]], contents[p := s]) && p in contents
  {
    hide Bucket;
    var b := Bucket(p);
    var was, bucket, more := buckets[b], buckets[b][at := (p, s)], contents[p := s];
    assert Holds(was, b, contents) && p in contents;
    assert more.Keys == contents.Keys;
    forall q | q in more && Bucket(q) == b
      ensures exists i :: 0 <= i < |bucket| && bucket[i].0 == q
    {
      var i :| 0 <= i < |was| && was[i].0 == q;
      assert bucket[i].0 == q;
    }
    Changes(buckets, contents, bucket, more, p);
  }

  lemma HoldsInserted(bucket: seq<(Path, Script)>, b: nat, contents: map<Path, Script>, p: Path, s: Script)
    requires Holds(bucket, b, contents) && Bucket(p) == b && p !in contents
    ensures Holds([(p, s)] + bucket, b, contents[p := s])
  {
    hide Bucket;
    var more := [(p, s)] + bucket;
    assert forall i :: 1 <= i < |more| ==> more[i] == bucket[i - 1];
    forall q | q in contents[p := s] && Bucket(q) == b
      ensures exists i :: 0 <= i < |more| && more[i].0 == q
    {
      if q == p {
        assert more[0].0 == q;
      } else {
        var i :| 0 <= i < |bucket| && bucket[i].0 == q;
        assert more[i + 1].0 == q;
      }
    }
  }

  lemma InsertsIn(buckets: seq<seq<(Path, Script)>>, contents: map<Path, Script>, p: Path, s: Script)
    requires Implements(buckets, contents) && p !in contents
    ensures var b := Bucket(p); Implements(buckets[b := [(p, s)] + buckets[b]], contents[p := s])
  {
    hide Bucket, Holds;
    var b := Bucket(p);
    assert contents[p := s].Keys == contents.Keys + {p};
    HoldsInserted(buckets[b], b, contents, p, s);
    Changes(buckets, contents, [(p, s)] + buckets[b], contents[p := s], p);
  }

  function Without<T>(s: seq<T>, at: nat): (r: seq<T>)
    requires at < |s|
    ensures |r| == |s| - 1 && forall i :: 0 <= i < |r| ==> r[i] == s[if i < at then i else i + 1]
  {
    s[..at] + s[at + 1..]
  }

  lemma WithoutKeeps<T>(s: seq<T>, at: nat, all: set<T>)
    requires at < |s| && forall x :: x in s ==> x in all
    ensures forall x :: x in Without(s, at) ==> x in all
  {
  }

  lemma HoldsWithout(bucket: seq<(Path, Script)>, b: nat, contents: map<Path, Script>, at: nat)
    requires Holds(bucket, b, contents) && at < |bucket|
    ensures Holds(Without(bucket, at), b, contents - {bucket[at].0})
  {
    hide Bucket, Without;
    var p, rest := bucket[at].0, Without(bucket, at);
    forall i | 0 <= i < |rest|
      ensures rest[i].0 != p
    {
      assert rest[i] == bucket[if i < at then i else i + 1];
    }
    forall q | q in contents && q != p && Bucket(q) == b
      ensures exists i :: 0 <= i < |rest| && rest[i].0 == q
    {
      var i :| 0 <= i < |bucket| && bucket[i].0 == q;
      var j := if i < at then i else i - 1;
      assert rest[j] == bucket[i];
    }
  }

  lemma RemovesFrom(buckets: seq<seq<(Path, Script)>>, contents: map<Path, Script>, at: nat, p: Path)
    requires Implements(buckets, contents) && at < |buckets[Bucket(p)]| && buckets[Bucket(p)][at].0 == p
    ensures Implements(buckets[Bucket(p) := Without(buckets[Bucket(p)], at)], contents - {p}) && p in contents
  {
    hide Bucket, Without;
    var b := Bucket(p);
    var less := contents - {p};
    assert Holds(buckets[b], b, contents) && p in contents;
    assert contents.Keys == less.Keys + {p};
    HoldsWithout(buckets[b], b, contents, at);
    Changes(buckets, contents, Without(buckets[b], at), less, p);
  }

  lemma NothingIn(buckets: seq<seq<(Path, Script)>>)
    requires buckets == seq(TABLE_SIZE, i => [])
    ensures Implements(buckets, map[])
  {
    hide Bucket;
    EntriesEmpty(TABLE_SIZE);
  }

  // ---- Runs of operations ----

  datatype Operation =
    | Stores(path: Path, sourceHash: Option<string>, bytecode: seq<byte>) | LooksUp(path: Path) | Invalidates(path: Path) | Clears

  /** A store takes effect when caching is on, there is bytecode, and the cache is not full. */
  predicate Accepts(limit: nat, enabled: bool, m: map<Path, Script>, bytecode: seq<byte>) {
    enabled && bytecode != [] && |m| < limit
  }

  function Apply(limit: nat, enabled: bool, m: map<Path, Script>, op: Operation): map<Path, Script> {
    match op
    case Stores(p, h, code) => if Accepts(limit, enabled, m, code) then m[p := Script(h, code)] else m
    case LooksUp(_) => m
    case Invalidates(p) => m - {p}
    case Clears => map[]
  }

  function Run(limit: nat, enabled: bool, m: map<Path, Script>, ops: seq<Operation>): map<Path, Script>
    decreases |ops|
  {
    if ops == [] then m else Run(limit, enabled, Apply(limit, enabled, m, ops[0]), ops[1..])
  }

  /** No run of operations exceeds the limit. */
  lemma {:induction false} NeverAboveLimit(limit: nat, enabled: bool, m: map<Path, Script>, ops: seq<Operation>)
    requires |m| <= limit
    ensures |Run(limit, enabled, m, ops)| <= limit
    decreases |ops|
  {
    if ops != [] {
      var op, next := ops[0], Apply(limit, enabled, m, ops[0]);
      if op.Stores? && next != m {
        assert next.Keys == m.Keys + {op.path};
      } else if op.Invalidates? {
        assert m.Keys == if op.path in m then next.Keys + {op.path} else next.Keys;
      }
      NeverAboveLimit(limit, enabled, next, ops[1..]);
    }
  }

  predicate Affects(op: Operation, p: Path) {
    op.Clears? || (op.Stores? && op.path == p) || (op.Invalidates? && op.path == p)
  }

  /** What is cached stays cached, unchanged, until its path is stored or invalidated or the cache is cleared. */
  lemma {:induction false} StaysCached(limit: nat, enabled: bool, m: map<Path, Script>, ops: seq<Operation>, p: Path)
    requires forall op :: op in ops ==> !Affects(op, p)
    ensures var r := Run(limit, enabled, m, ops); (p in r <==> p in m) && (p in m ==> r[p] == m[p])
    decreases |ops|
  {
    if ops != [] {
      assert !Affects(ops[0], p);
      StaysCached(limit, enabled, Apply(limit, enabled, m, ops[0]), ops[1..], p);
    }
  }

  /**
   A full cache ignores every store, even of a script it holds: nothing is refreshed until something is invalidated.
   */
  lemma {:induction false} FullNeverRefreshes(limit: nat, enabled: bool, m: map<Path, Script>, ops: seq<Operation>)
    requires |m| >= limit && forall op :: op in ops ==> op.Stores? || op.LooksUp?
    ensures Run(limit, enabled, m, ops) == m
    decreases |ops|
  {
    if ops != [] {
      assert ops[0] in ops;
      FullNeverRefreshes(limit, enabled, m, ops[1..]);
    }
  }

  lemma {:induction false} RunJoins(limit: nat, enabled: bool, m: map<Path, Script>, a: seq<Operation>, b: seq<Operation>)
    ensures Run(limit, enabled, m, a + b) == Run(limit, enabled, Run(limit, enabled, m, a), b)
    decreases |a|
  {
    if a == [] {
      assert a + b == b;
    } else {
      assert (a + b)[1..] == a[1..] + b;
      RunJoins(limit, enabled, Apply(limit, enabled, m, a[0]), a[1..], b);
    }
  }

  /** A path holds what was last stored for it, whether or not it was cached before, as long as that store had room. */
  lemma LastStoreHolds(limit: nat, m: map<Path, Script>, before: seq<Operation>, p: Path, hash: Option<string>,
                       code: seq<byte>, after: seq<Operation>)
    requires code != [] && |Run(limit, true, m, before)| < limit && forall op :: op in after ==> !Affects(op, p)
    ensures var r := Run(limit, true, m, before + ([Stores(p, hash, code)] + after));
      p in r && r[p] == Script(hash, code)
  {
    var ops, m1 := [Stores(p, hash, code)] + after, Run(limit, true, m, before);
    RunJoins(limit, true, m, before, ops);
    assert ops[1..] == after;
    StaysCached(limit, true, m1[p := Script(hash, code)], after, p);
  }

  /** A path that was invalidated, or lost when the cache was cleared, is not cached until it is stored again. */
  lemma GoneUntilStored(limit: nat, enabled: bool, m: map<Path, Script>, before: seq<Operation>, p: Path, op: Operation,
                        after: seq<Operation>)
    requires (op == Invalidates(p) || op == Clears) && forall o :: o in after ==> !Affects(o, p)
    ensures p !in Run(limit, enabled, m, before + ([op] + after))
  {
    var m1 := Run(limit, enabled, m, before);
    RunJoins(limit, enabled, m, before, [op] + after);
    assert ([op] + after)[1..] == after;
    StaysCached(limit, enabled, Apply(limit, enabled, m1, op), after, p);
  }

  // ---- The cache ----

  /** A chain with its head and what it holds, and a place in it. */
  datatype Place = Place(head: Entry?, chain: seq<Entry>, bucket: seq<(Path, Script)>, at: nat)

  /** The entry at the place has got another script. */
  twostate lemma ReplacedLinked(p: Place)
    requires p.at < |p.chain| && old(Linked(p.head, p.chain, p.bucket))
    requires forall i :: 0 <= i < |p.chain| ==> p.chain[i].next == old(p.chain[i].next)
    requires forall i :: 0 <= i < |p.chain| && i != p.at ==> p.chain[i].script == old(p.chain[i].script)
    ensures Linked(p.head, p.chain, p.bucket[p.at := (p.chain[p.at].path, p.chain[p.at].script)])
  {
  }

  /** The entry at the place has been spliced out. */
  twostate lemma UnlinkedLinked(p: Place)
    requires p.at < |p.chain| && old(Linked(p.head, p.chain, p.bucket))
    requires forall i :: 0 <= i < |p.chain| ==> p.chain[i].script == old(p.chain[i].script)
    requires forall i :: 0 <= i < |p.chain| && i + 1 != p.at ==> p.chain[i].next == old(p.chain[i].next)
    requires p.at > 0 ==> p.chain[p.at - 1].next == old(p.chain[p.at].next)
    ensures Linked(if p.at == 0 then old(p.chain[0].next) else p.head, Without(p.chain, p.at), Without(p.bucket, p.at))
  {
    hide Without;
  }

  /** A new entry stands in front of the chain. */
  lemma InsertedLinked(head: Entry?, chain: seq<Entry>, bucket: seq<(Path, Script)>, entry: Entry)
    requires Linked(head, chain, bucket) && entry.next == head
    ensures Linked(entry, [entry] + chain, [(entry.path, entry.script)] + bucket)
  {
  }

  class Cache {
    const limit: nat
    const enabled: bool
    const table: array<Entry?>
    var cachedScripts: nat
    var hits: nat
    var misses: nat
    ghost var chains: seq<seq<Entry>>
    ghost var buckets: seq<seq<(Path, Script)>>
    ghost var contents: map<Path, Script>
    ghost var Repr: set<Entry>

    ghost predicate Valid()
      reads this, table, Repr
    {
      && table.Length == TABLE_SIZE == |chains| == |buckets|
      && (forall b, e :: 0 <= b < TABLE_SIZE && e in chains[b] ==> e in Repr)
      && Implements(buckets, contents)
      && (forall b :: 0 <= b < TABLE_SIZE ==> Linked(table[b], chains[b], buckets[b]))
      && cachedScripts == |contents| <= limit
    }

    /** Buckets other than `b` whose heads and entries are unchanged are linked as before. */
    twostate lemma OthersStillLinked(b: nat)
      requires old(Valid()) && chains == old(chains) && buckets == old(buckets)
      requires forall c :: 0 <= c < TABLE_SIZE && c != b ==> table[c] == old(table[c])
      requires forall c, e :: 0 <= c < TABLE_SIZE && c != b && e in chains[c] ==> e.script == old(e.script)
      requires forall c, e :: 0 <= c < TABLE_SIZE && c != b && e in chains[c] ==> e.next == old(e.next)
      ensures forall c :: 0 <= c < TABLE_SIZE && c != b ==> Linked(table[c], chains[c], buckets[c])
    {
      hide Implements;
      forall c | 0 <= c < TABLE_SIZE && c != b
        ensures Linked(table[c], chains[c], buckets[c])
      {
        assert old(Linked(table[c], chains[c], buckets[c]));
      }
    }

    constructor (limit: nat, enabled: bool)
      ensures Valid() && fresh(table) && fresh(Repr) && this.limit == limit && this.enabled == enabled
      ensures contents == map[] && hits == 0 && misses == 0
    {
      this.limit, this.enabled := limit, enabled;
      table := new Entry?[TABLE_SIZE](i => null);
      cachedScripts, hits, misses := 0, 0, 0;
      chains, buckets := seq(TABLE_SIZE, i => []), seq(TABLE_SIZE, i => []);
      contents, Repr := map[], {};
      new;
      NothingIn(buckets);
    }

    /** The entry of the path in its bucket; there is one exactly when the path is cached. */
    method Find(path: Path) returns (entry: Entry?, ghost at: nat)
      requires Valid()
      ensures entry != null <==> path in contents
      ensures entry != null ==> entry.path == path && entry.script == contents[path]
      ensures var b := Bucket(path);
        entry != null ==> at < |chains[b]| == |buckets[b]| && chains[b][at] == entry && buckets[b][at].0 == path
    {
      hide Bucket, HashFrom, Implements;
      var hash := HashString(path);
      var b := hash % TABLE_SIZE;
      BucketIs(path);
      ghost var chain, bucket := chains[b], buckets[b];
      HoldsIn(b);
      assert Linked(table[b], chain, bucket);
      entry := table[b];
      at := 0;
      while entry != null
        invariant at <= |chain| && entry == Nth(chain, at)
        invariant forall i :: 0 <= i < at ==> bucket[i].0 != path
        decreases |chain| - at
      {
        if entry.path == path {
          return;
        }
        entry := entry.next;
        at := at + 1;
      }
    }

    lemma HoldsIn(b: nat)
      requires Valid() && b < TABLE_SIZE
      ensures Holds(buckets[b], b, contents)
    {
    }

    method Lookup(path: Path) returns (entry: Entry?)
      requires Valid()
      modifies this, Repr
      ensures Valid() && contents == old(contents) && cachedScripts == old(cachedScripts) && Repr == old(Repr)
      ensures (entry != null) == (enabled && path in contents)
      ensures entry != null ==> entry in Repr && entry.script == contents[path] && entry.accessCount == old(entry.accessCount) + 1
      ensures hits == old(hits) + (if entry != null then 1 else 0)
      ensures misses == old(misses) + (if enabled && entry == null then 1 else 0)
    {
      hide Bucket, Linked, Holds, Implements;
      entry := null;
      if enabled {
        ghost var at;
        entry, at := Find(path);
        if entry != null {
          EntryHolds(path, at);
          Touch(entry);
          hits := hits + 1;
        } else {
          misses := misses + 1;
        }
      }
    }

    method Touch(entry: Entry)
      requires Valid() && entry in Repr
      modifies entry`accessCount
      ensures Valid() && entry.accessCount == old(entry.accessCount) + 1
    {
      hide Bucket, Holds, Implements;
      entry.accessCount := entry.accessCount + 1;
      forall b | 0 <= b < TABLE_SIZE
        ensures Linked(table[b], chains[b], buckets[b])
      {
        assert old(Linked(table[b], chains[b], buckets[b]));
      }
    }

    /** A full cache refuses every store, also of a script it holds; nothing is evicted. */
    method Store(path: Path, sourceHash: Option<string>, bytecode: seq<byte>) returns (status: int)
      requires Valid()
      modifies this, table, Repr
      ensures Valid() && hits == old(hits) && misses == old(misses) && fresh(Repr - old(Repr)) && old(Repr) <= Repr
      ensures status == (if bytecode == [] || (enabled && |old(contents)| >= limit) then -1 else 0)
      ensures contents == Apply(limit, enabled, old(contents), Stores(path, sourceHash, bytecode))
      ensures contents ==
        if status == 0 && enabled then old(contents)[path := Script(sourceHash, bytecode)] else old(contents)
    {
      hide Bucket, Linked, Holds, Implements;
      if bytecode == [] {
        return -1;
      }
      if !enabled {
        return 0;
      }
      if cachedScripts >= limit {
        return -1;
      }
      var existing, at := Find(path);
      if existing != null {
        Replace(path, existing, at, Script(sourceHash, bytecode));
      } else {
        Insert(path, Script(sourceHash, bytecode));
      }
      return 0;
    }

    method Replace(path: Path, existing: Entry, ghost at: nat, script: Script)
      requires Valid() && at < |chains[Bucket(path)]| && chains[Bucket(path)][at] == existing
      requires at < |buckets[Bucket(path)]| && buckets[Bucket(path)][at].0 == path && existing.path == path
      modifies `contents, `buckets, Repr
      ensures Valid() && contents == old(contents)[path := script] && Repr == old(Repr)
    {
      hide Bucket, Linked, Holds, Implements;
      ghost var b := Bucket(path);
      OthersDiffer(b, at);
      assert existing in chains[b];
      existing.script, existing.accessCount := script, 0;
      OthersStillLinked(b);
      ReplacedLinked(Place(table[b], chains[b], buckets[b], at));
      ReplacesIn(buckets, contents, at, path, script);
      buckets := buckets[b := buckets[b][at := (path, script)]];
      assert contents[path := script].Keys == contents.Keys;
      contents := contents[path := script];
    }

    /** No other place in the table holds the same entry. */
    lemma OthersDiffer(b: nat, at: nat)
      requires Valid() && b < TABLE_SIZE && at < |chains[b]|
      ensures forall c, i :: 0 <= c < TABLE_SIZE && 0 <= i < |chains[c]| && (c != b || i != at) ==>
        chains[c][i] != chains[b][at]
    {
      hide Bucket;
      forall c, i | 0 <= c < TABLE_SIZE && 0 <= i < |chains[c]| && (c != b || i != at)
        ensures chains[c][i] != chains[b][at]
      {
        assert Linked(table[b], chains[b], buckets[b]) && Linked(table[c], chains[c], buckets[c]);
        assert Holds(buckets[b], b, contents) && Holds(buckets[c], c, contents);
        assert chains[c][i].path == buckets[c][i].0;
        assert c == b ==> (i < at || at < i);
      }
    }

    /** A new entry goes to the head of its chain. */
    method Insert(path: Path, script: Script)
      requires Valid() && path !in contents && cachedScripts < limit
      modifies this, table
      ensures Valid() && contents == old(contents)[path := script] && hits == old(hits) && misses == old(misses)
      ensures fresh(Repr - old(Repr)) && old(Repr) <= Repr
    {
      hide Bucket, HashFrom, Linked, Holds, Implements;
      var hash := HashString(path);
      var b := hash % TABLE_SIZE;
      BucketIs(path);
      var entry := Prepend(b, path, script);
      InsertsIn(buckets, contents, path, script);
      assert contents[path := script].Keys == contents.Keys + {path};
      cachedScripts := cachedScripts + 1;
      Settle(b, [entry] + chains[b], [(path, script)] + buckets[b], contents[path := script], {entry});
    }

    /** The table once one bucket and the map have changed together. */
    ghost method Settle(b: nat, chain: seq<Entry>, bucket: seq<(Path, Script)>, after: map<Path, Script>, added: set<Entry>)
      requires table.Length == TABLE_SIZE == |chains| == |buckets| && b < TABLE_SIZE
      requires forall c, e :: 0 <= c < TABLE_SIZE && e in chains[c] ==> e in Repr
      requires forall c :: 0 <= c < TABLE_SIZE && c != b ==> Linked(table[c], chains[c], buckets[c])
      requires Linked(table[b], chain, bucket) && forall e :: e in chain ==> e in Repr + added
      requires Implements(buckets[b := bucket], after) && cachedScripts == |after| <= limit
      modifies `chains, `buckets, `contents, `Repr
      ensures Valid() && contents == after && Repr == old(Repr) + added
    {
      hide Linked, Implements;
      chains, buckets, contents, Repr := chains[b := chain], buckets[b := bucket], after, Repr + added;
    }

    method Prepend(b: nat, path: Path, script: Script) returns (entry: Entry)
      requires Valid() && b < TABLE_SIZE
      modifies table
      ensures fresh(entry)
      ensures forall c :: 0 <= c < TABLE_SIZE && c != b ==> Linked(table[c], chains[c], buckets[c])
      ensures Linked(table[b], [entry] + chains[b], [(path, script)] + buckets[b])
    {
      hide Bucket, Linked, Holds, Implements;
      entry := new Entry(path, script, table[b]);
      InsertedLinked(table[b], chains[b], buckets[b], entry);
      table[b] := entry;
    }

    /** The entry is spliced out of its chain; invalidating an absent path changes nothing. */
    method Invalidate(path: Path)
      requires Valid()
      modifies this, table, Repr
      ensures Valid() && contents == old(contents) - {path}
      ensures hits == old(hits) && misses == old(misses) && Repr == old(Repr)
    {
      hide Bucket, HashFrom, Holds, Implements;
      var hash := HashString(path);
      var b := hash % TABLE_SIZE;
      BucketIs(path);
      ghost var chain, bucket, at := chains[b], buckets[b], 0;
      assert Linked(table[b], chain, bucket);
      var previous: Entry?, current := null, table[b];
      while current != null && current.path != path
        invariant at <= |chain| && current == Nth(chain, at) && previous == (if at == 0 then null else chain[at - 1])
        invariant forall i :: 0 <= i < at ==> bucket[i].0 != path
        decreases |chain| - at
      {
        previous := current;
        current := current.next;
        at := at + 1;
      }
      if current != null {
        Unlink(path, b, previous, current, at);
      } else {
        AbsentUnlessFound(path);
        assert contents - {path} == contents;
      }
    }

    lemma AbsentUnlessFound(path: Path)
      requires Valid() && forall i :: 0 <= i < |buckets[Bucket(path)]| ==> buckets[Bucket(path)][i].0 != path
      ensures path !in contents
    {
      assert Holds(buckets[Bucket(path)], Bucket(path), contents);
      hide Bucket;
    }

    method Unlink(path: Path, b: nat, previous: Entry?, current: Entry, ghost at: nat)
      requires Valid() && b == Bucket(path) && at < |chains[b]| && chains[b][at] == current && current.path == path
      requires previous == if at == 0 then null else chains[b][at - 1]
      modifies this, table, Repr
      ensures Valid() && contents == old(contents) - {path}
      ensures hits == old(hits) && misses == old(misses) && Repr == old(Repr)
    {
      hide Bucket, Linked, Holds, Implements, Without;
      LinksOf(b, at);
      Splice(b, previous, current, at);
      RemovesFrom(buckets, contents, at, path);
      assert contents.Keys == (contents - {path}).Keys + {path};
      cachedScripts := cachedScripts - 1;
      WithoutKeeps(chains[b], at, Repr);
      Settle(b, Without(chains[b], at), Without(buckets[b], at), contents - {path}, {});
    }

    /** The predecessor's link, or the bucket's head, skips the entry. */
    method Splice(b: nat, previous: Entry?, current: Entry, ghost at: nat)
      requires Valid() && b < TABLE_SIZE && at < |chains[b]| == |buckets[b]| && chains[b][at] == current
      requires previous == if at == 0 then null else chains[b][at - 1]
      modifies table, Repr
      ensures forall c :: 0 <= c < TABLE_SIZE && c != b ==> Linked(table[c], chains[c], buckets[c])
      ensures Linked(table[b], Without(chains[b], at), Without(buckets[b], at))
    {
      hide Bucket, Linked, Holds, Implements, Without;
      LinksOf(b, at);
      if previous == null {
        table[b] := current.next;
      } else {
        OthersDiffer(b, at - 1);
        assert previous in chains[b];
        previous.next := current.next;
      }
      OthersStillLinked(b);
      UnlinkedLinked(Place(old(table[b]), chains[b], buckets[b], at));
    }

    lemma LinksOf(b: nat, at: nat)
      requires Valid() && b < TABLE_SIZE && at < |chains[b]|
      ensures at < |buckets[b]| == |chains[b]| && chains[b][at].path == buckets[b][at].0 && chains[b][at].next == Nth(chains[b], at + 1)
    {
      assert Linked(table[b], chains[b], buckets[b]);
    }

    method Clear()
      requires Valid()
      modifies this, table
      ensures Valid() && contents == map[] && hits == old(hits) && misses == old(misses)
    {
      hide Bucket, Holds, Implements;
      var i := 0;
      while i < TABLE_SIZE
        invariant 0 <= i <= TABLE_SIZE == table.Length && forall c :: 0 <= c < i ==> table[c] == null
        modifies table
      {
        table[i] := null;
        i := i + 1;
      }
      cachedScripts := 0;
      chains, buckets := seq(TABLE_SIZE, c => []), seq(TABLE_SIZE, c => []);
      contents, Repr := map[], {};
      NothingIn(buckets);
    }

    lemma EntryHolds(path: Path, at: nat)
      requires Valid() && at < |chains[Bucket(path)]| && buckets[Bucket(path)][at].0 == path
      ensures var e := chains[Bucket(path)][at];
        e in Repr && e.path == path && path in contents && e.script == contents[path]
    {
      hide Bucket;
      var b := Bucket(path);
      assert Linked(table[b], chains[b], buckets[b]) && Holds(buckets[b], b, contents);
    }
  }

  lemma BucketIs(path: Path)
    ensures Bucket(path) == HashFrom(5381, path) % TABLE_SIZE
  {
  }
}
