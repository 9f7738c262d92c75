/**
 * The specification of the per-path reader/writer locks (server/src/filelock.c): a map in which an absent path is idle.
 */
module LockSpec {
  import opened Common

  type Path = string

  datatype Mode = Shared | Exclusive

  datatype Counts = Counts(readers: nat, writers: nat, waiting: nat) {
    predicate Idle() { readers == 0 && writers == 0 && waiting == 0 }
  }

  type LockMap = map<Path, Counts>

  const NO_LOCKS := Counts(0, 0, 0)

  function At(m: LockMap, p: Path): Counts {
    if p in m then m[p] else NO_LOCKS
  }

  /** Stores a path's counters; a path whose counters are all zero has no entry. */
  function Put(m: LockMap, p: Path, c: Counts): LockMap {
    if c.Idle() then m - {p} else m[p := c]
  }

  lemma PutAt(m: LockMap, p: Path, c: Counts)
    ensures At(Put(m, p, c), p) == c
    ensures forall q | q != p :: At(Put(m, p, c), q) == At(m, q)
  {
  }

  predicate PathValid(p: Path) { 0 < |p| < PATH_SIZE }

  /** May an acquisition in this mode proceed at once? Readers also give way to waiting writers. */
  predicate Free(c: Counts, mode: Mode) {
    match mode
    case Shared => c.writers == 0 && c.waiting == 0
    case Exclusive => c.writers == 0 && c.readers == 0
  }

  function Granted(c: Counts, mode: Mode): Counts {
    match mode
    case Shared => c.(readers := c.readers + 1)
    case Exclusive => c.(writers := 1)
  }

  function Dropped(c: Counts, mode: Mode): Counts {
    match mode
    case Shared => if c.readers == 0 then c else c.(readers := c.readers - 1)
    case Exclusive => c.(writers := 0)
  }

  predicate CanAcquire(m: LockMap, p: Path, mode: Mode) {
    PathValid(p) && Free(At(m, p), mode)
  }

  function TryAcquire(m: LockMap, p: Path, mode: Mode): LockMap {
    if CanAcquire(m, p, mode) then Put(m, p, Granted(At(m, p), mode)) else m
  }

  function Release(m: LockMap, p: Path, mode: Mode): LockMap {
    if p in m then Put(m, p, Dropped(m[p], mode)) else m
  }

  /** A writer joins the queue of blocked writers. */
  function Enqueue(m: LockMap, p: Path): LockMap {
    var c := At(m, p);
    Put(m, p, c.(waiting := c.waiting + 1))
  }

  /** A blocked writer whose guard holds takes the lock. */
  function Promote(m: LockMap, p: Path): LockMap
    requires At(m, p).waiting > 0
  {
    var c := At(m, p);
    Put(m, p, c.(waiting := c.waiting - 1, writers := 1))
  }

  /** No idle entry, at most one writer, and never a writer beside a reader. */
  ghost predicate Sound(m: LockMap) {
    forall p | p in m :: !m[p].Idle() && m[p].writers <= 1 && (m[p].writers == 1 ==> m[p].readers == 0)
  }

  // ----- what every operation keeps -----

  lemma SoundAfterAcquire(m: LockMap, p: Path, mode: Mode)
    requires Sound(m)
    ensures Sound(TryAcquire(m, p, mode))
  {
  }

  lemma SoundAfterRelease(m: LockMap, p: Path, mode: Mode)
    requires Sound(m)
    ensures Sound(Release(m, p, mode))
  {
  }

  lemma SoundAfterWait(m: LockMap, p: Path)
    requires Sound(m)
    ensures Sound(Enqueue(m, p))
    ensures At(m, p).waiting > 0 && Free(At(m, p), Exclusive) ==> Sound(Promote(m, p))
  {
  }

  lemma PutBack(m: LockMap, p: Path, c: Counts)
    requires Sound(m)
    ensures Put(m[p := c], p, At(m, p)) == m
  {
    if p in m {
      assert m[p := c][p := m[p]] == m;
    } else {
      assert m[p := c] - {p} == m;
    }
  }

  lemma DroppedUndoesGranted(c: Counts, mode: Mode)
    requires Free(c, mode)
    ensures Dropped(Granted(c, mode), mode) == c && !Granted(c, mode).Idle()
  {
  }

  /** A release undoes the acquisition it matches, restoring the map exactly: a created entry is removed again. */
  lemma ReleaseUndoesAcquire(m: LockMap, p: Path, mode: Mode)
    requires Sound(m) && CanAcquire(m, p, mode)
    ensures Release(TryAcquire(m, p, mode), p, mode) == m
  {
    DroppedUndoesGranted(At(m, p), mode);
    PutBack(m, p, Granted(At(m, p), mode));
  }

  /** An unmatched release changes no other path, never goes below zero and grants nothing. */
  lemma UnmatchedRelease(m: LockMap, p: Path, mode: Mode)
    requires Sound(m)
    requires mode.Shared? ==> At(m, p).readers == 0
    requires mode.Exclusive? ==> At(m, p).writers == 0
    ensures Release(m, p, mode) == m
  {
    if p in m {
      assert Dropped(m[p], mode) == m[p];
      assert m[p := m[p]] == m;
    }
  }

  /** Exclusion: a reader shuts out every writer, a writer shuts out everybody. */
  lemma GrantsExclude(m: LockMap, p: Path, first: Mode, second: Mode)
    requires Sound(m) && CanAcquire(m, p, first)
    ensures CanAcquire(TryAcquire(m, p, first), p, second) <==> first == Shared && second == Shared
  {
  }
}

/** The global linked list of lock entries, with head insertion and unlinking through the predecessor. */
module LockTable {
  import opened LockSpec

  class Entry {
    const path: Path
    var readers: nat
    var writers: nat
    var waiting: nat
    var next: Entry?

    constructor (path: Path)
      ensures this.path == path && readers == 0 && writers == 0 && waiting == 0 && next == null
    {
      this.path := path;
      readers, writers, waiting, next := 0, 0, 0, null;
    }

    function Counters(): Counts
      reads this`readers, this`writers, this`waiting
    {
      Counts(readers, writers, waiting)
    }
  }

  class FileLocks {
    var head: Entry?
    /** The entries in list order, and the entry of each listed path. */
    ghost var nodes: seq<Entry>
    ghost var index: map<Path, Entry>
    /** The map the list stands for. */
    ghost var locks: LockMap

    static ghost function NodeAt(nodes: seq<Entry>, i: nat): Entry? {
      if i < |nodes| then nodes[i] else null
    }

    static ghost function Without(nodes: seq<Entry>, k: nat): (r: seq<Entry>)
      requires k < |nodes|
      ensures |r| == |nodes| - 1
      ensures forall i | 0 <= i < |r| :: r[i] == if i < k then nodes[i] else nodes[i + 1]
      ensures forall n | n in nodes :: n in r || n == nodes[k]
    {
      nodes[..k] + nodes[k + 1..]
    }

    static ghost predicate NoRepeats(nodes: seq<Entry>) {
      forall i, j | 0 <= i < j < |nodes| :: nodes[i] != nodes[j]
    }

    ghost function Entries(): set<Entry>
      reads this`nodes
    {
      set n | n in nodes
    }

    /** The heap holds the chain of `nodes`. */
    ghost predicate Linked()
      reads this`head, this`nodes, nodes`next
    {
      && head == NodeAt(nodes, 0)
      && (forall i {:trigger nodes[i].next} | 0 <= i < |nodes| :: nodes[i].next == NodeAt(nodes, i + 1))
    }

    /** Every listed path has one entry. */
    static ghost predicate IndexOf(nodes: seq<Entry>, index: map<Path, Entry>) {
      && NoRepeats(nodes)
      && (forall n | n in nodes :: n.path in index && index[n.path] == n)
      && (forall p | p in index :: index[p] in nodes && index[p].path == p)
    }

    /** The counters in the list are those of the map, except perhaps one path's. */
    static ghost predicate CountedExcept(index: map<Path, Entry>, locks: LockMap, except: Path)
      reads set p | p in index && p != except :: index[p]
    {
      forall p | p in index && p != except :: p in locks && locks[p] == index[p].Counters()
    }

    /** All is in order but for the counters of one listed entry. */
    ghost predicate Pending(entry: Entry)
      reads this, nodes`next, set p | p in index && p != entry.path :: index[p]
    {
      && Linked() && IndexOf(nodes, index) && Sound(locks)
      && entry.path in index && index[entry.path] == entry
      && CountedExcept(index, locks, entry.path)
      && locks.Keys <= index.Keys <= locks.Keys + {entry.path}
    }

    ghost predicate Valid()
      reads this, nodes, index.Values
    {
      && Linked() && IndexOf(nodes, index) && Sound(locks)
      && locks.Keys == index.Keys
      && (forall p | p in index :: locks[p] == index[p].Counters())
    }

    lemma ValidIsSound()
      requires Valid()
      ensures Sound(locks)
    {
    }

    constructor ()
      ensures Valid() && locks == map[] && nodes == []
    {
      head, nodes, index, locks := null, [], map[], map[];
    }

    method Find(path: Path) returns (prev: Entry?, entry: Entry?, ghost k: nat)
      requires Valid()
      ensures entry == null <==> path !in locks
      ensures entry == null ==> prev == null
      ensures entry != null ==> k < |nodes| && nodes[k] == entry && entry.path == path
      ensures entry != null ==> prev == (if k == 0 then null else nodes[k - 1])
      ensures entry != null ==> Pending(entry) && entry.Counters() == locks[path]
    {
      prev, entry, k := null, head, 0;
      while entry != null
        invariant 0 <= k <= |nodes|
        invariant entry == NodeAt(nodes, k)
        invariant prev == (if k == 0 then null else nodes[k - 1])
        invariant forall j | 0 <= j < k :: nodes[j].path != path
        decreases |nodes| - k
      {
        if entry.path == path { return; }
        prev, entry := entry, entry.next;
        k := k + 1;
      }
      prev := null;
    }

    /** Finds the path's entry or links a fresh idle one in front; fails only when memory runs out. */
    method GetOrCreate(path: Path, canAllocate: bool) returns (entry: Entry?)
      requires Valid()
      modifies this`head, this`nodes, this`index
      ensures entry == null <==> path !in locks && !canAllocate
      ensures entry == null || path in locks ==> Valid() && nodes == old(nodes)
      ensures entry != null ==> entry.path == path && entry.Counters() == At(locks, path)
      ensures entry != null ==> Pending(entry) && (entry in old(nodes) || fresh(entry))
      ensures forall n | n in old(nodes) :: n in nodes
      ensures fresh(Entries() - old(Entries()))
    {
      var prev, found, k := Find(path);
      if found != null { return found; }
      if !canAllocate { return null; }
      entry := new Entry(path);
      entry.next := head;
      head := entry;
      nodes := [entry] + nodes;
      index := index[path := entry];
    }

    method RemoveEntry(ghost k: nat, entry: Entry, prev: Entry?)
      requires Linked() && NoRepeats(nodes) && k < |nodes| && nodes[k] == entry
      requires prev == (if k == 0 then null else nodes[k - 1])
      modifies this`head, this`nodes, nodes`next
      ensures Linked() && nodes == Without(old(nodes), k)
    {
      if prev != null {
        prev.next := entry.next;
      } else {
        head := entry.next;
      }
      ghost var was := nodes;
      nodes := Without(was, k);
      forall i | 0 <= i < |nodes| ensures nodes[i].next == NodeAt(nodes, i + 1) {
        var w := if i < k then i else i + 1;
        assert nodes[i] == was[w] && (w != k - 1 ==> was[w].next == NodeAt(was, w + 1));
      }
    }

    /** Moves the map along once the counters of one entry have been changed. */
    ghost method Commit(entry: Entry, m: LockMap)
      requires Pending(entry)
      requires m == Put(locks, entry.path, entry.Counters()) && !entry.Counters().Idle() && Sound(m)
      modifies this`locks
      ensures Valid() && locks == m
    {
      locks := m;
    }

    /** Drops an unlinked path from the map. */
    ghost method Forget(path: Path)
      requires Linked() && IndexOf(nodes, index) && path !in index && Sound(locks)
      requires CountedExcept(index, locks, path) && locks.Keys == index.Keys + {path}
      modifies this`locks
      ensures Valid() && locks == old(locks) - {path}
    {
      locks := locks - {path};
    }

    static lemma IndexWithout(nodes: seq<Entry>, index: map<Path, Entry>, k: nat)
      requires IndexOf(nodes, index) && k < |nodes|
      ensures IndexOf(Without(nodes, k), index - {nodes[k].path})
    {
    }

    /** Counts one more holder on the entry. */
    method Count(entry: Entry, mode: Mode)
      requires Pending(entry) && PathValid(entry.path) && entry.Counters() == At(locks, entry.path)
               && Free(entry.Counters(), mode)
      modifies this`locks, entry`readers, entry`writers
      ensures Valid() && locks == TryAcquire(old(locks), entry.path, mode)
    {
      SoundAfterAcquire(locks, entry.path, mode);
      if mode.Shared? { entry.readers := entry.readers + 1; } else { entry.writers := 1; }
      Commit(entry, TryAcquire(locks, entry.path, mode));
    }

    method TryAcquireShared(path: Path, canAllocate: bool) returns (ok: bool)
      requires Valid()
      modifies this, Entries()
      ensures Valid()
      ensures ok <==> CanAcquire(old(locks), path, Shared) && (path in old(locks) || canAllocate)
      ensures ok ==> locks == TryAcquire(old(locks), path, Shared)
      ensures !ok ==> locks == old(locks) && nodes == old(nodes)
      ensures forall n | n in old(nodes) :: n in nodes
      ensures fresh(Entries() - old(Entries()))
    {
      hide FileLocks.Valid, FileLocks.Pending;
      if !PathValid(path) { return false; }
      var entry := GetOrCreate(path, canAllocate);
      if entry == null { return false; }
      if entry.writers > 0 || entry.waiting > 0 { return false; }
      Count(entry, Shared);
      return true;
    }

    method TryAcquireExclusive(path: Path, canAllocate: bool) returns (ok: bool)
      requires Valid()
      modifies this, Entries()
      ensures Valid()
      ensures ok <==> CanAcquire(old(locks), path, Exclusive) && (path in old(locks) || canAllocate)
      ensures ok ==> locks == TryAcquire(old(locks), path, Exclusive)
      ensures !ok ==> locks == old(locks) && nodes == old(nodes)
      ensures forall n | n in old(nodes) :: n in nodes
      ensures fresh(Entries() - old(Entries()))
    {
      hide FileLocks.Valid, FileLocks.Pending;
      if !PathValid(path) { return false; }
      var entry := GetOrCreate(path, canAllocate);
      if entry == null { return false; }
      if entry.writers > 0 || entry.readers > 0 { return false; }
      Count(entry, Exclusive);
      return true;
    }

    /** Takes one holder off the entry; an unmatched release changes nothing. */
    method Uncount(entry: Entry, mode: Mode)
      requires Pending(entry)
      modifies entry`readers, entry`writers
      ensures Pending(entry) && entry.Counters() == Dropped(old(entry.Counters()), mode)
    {
      if mode.Exclusive? {
        entry.writers := 0;
      } else if entry.readers != 0 {
        entry.readers := entry.readers - 1;
      }
    }

    /** Unlinks an entry and drops its path from the map. */
    method Discard(ghost k: nat, entry: Entry, prev: Entry?)
      requires Pending(entry) && k < |nodes| && nodes[k] == entry
      requires prev == (if k == 0 then null else nodes[k - 1])
      requires entry.path in locks
      modifies this, nodes`next
      ensures Valid() && locks == old(locks) - {entry.path}
      ensures forall n | n in old(nodes) && n != entry :: n in nodes
      ensures Entries() <= old(Entries())
    {
      IndexWithout(nodes, index, k);
      RemoveEntry(k, entry, prev);
      index := index - {entry.path};
      Forget(entry.path);
    }

    /** Discards an entry nobody uses any more; otherwise keeps it with its new counters. */
    method Settle(ghost k: nat, entry: Entry, prev: Entry?)
      requires Pending(entry) && k < |nodes| && nodes[k] == entry
      requires prev == (if k == 0 then null else nodes[k - 1])
      requires entry.path in locks
      requires Sound(Put(locks, entry.path, entry.Counters()))
      modifies this, nodes`next
      ensures Valid() && locks == Put(old(locks), entry.path, entry.Counters())
      ensures forall n | n in old(nodes) && n.waiting > 0 :: n in nodes
      ensures Entries() <= old(Entries())
    {
      if entry.readers == 0 && entry.writers == 0 && entry.waiting == 0 {
        Discard(k, entry, prev);
      } else {
        Commit(entry, Put(locks, entry.path, entry.Counters()));
      }
    }

    method ReleaseCommon(path: Path, exclusive: bool)
      requires Valid()
      modifies this, Entries()
      ensures Valid()
      ensures locks == if PathValid(path) then Release(old(locks), path, if exclusive then Exclusive else Shared)
                       else old(locks)
      ensures forall n | n in old(nodes) && old(n.waiting) > 0 :: n in nodes
      ensures Entries() <= old(Entries())
    {
      if !PathValid(path) { return; }
      var prev, entry, k := Find(path);
      if entry == null { return; }
      var mode := if exclusive then Exclusive else Shared;
      SoundAfterRelease(locks, path, mode);
      Uncount(entry, mode);
      Settle(k, entry, prev);
    }

    // ----- the critical sections of the blocking exclusive acquisition -----

    /** Counts one more blocked writer on the entry. */
    method Await(entry: Entry)
      requires Pending(entry) && entry.Counters() == At(locks, entry.path)
      modifies this`locks, entry`waiting
      ensures Valid() && locks == Enqueue(old(locks), entry.path) && entry.waiting == old(entry.waiting) + 1
    {
      SoundAfterWait(locks, entry.path);
      entry.waiting := entry.waiting + 1;
      Commit(entry, Enqueue(locks, entry.path));
    }

    lemma PendingIsListed(entry: Entry)
      requires Pending(entry)
      ensures entry in nodes
    {
    }

    /**
     * Up to the first test of the guard: the caller is counted as a waiting writer and then either granted or left to
     * wait.
     */
    method BeginExclusive(path: Path, canAllocate: bool) returns (entry: Entry?, granted: bool)
      requires Valid()
      modifies this, nodes
      ensures Valid()
      ensures entry == null <==> !PathValid(path) || (path !in old(locks) && !canAllocate)
      ensures entry == null ==> locks == old(locks) && nodes == old(nodes) && !granted
      ensures entry != null ==> entry in nodes && entry.path == path
      ensures forall n | n in old(nodes) :: n in nodes
      ensures entry != null ==> granted == Free(At(old(locks), path), Exclusive)
      ensures entry != null ==> locks == if granted then Promote(Enqueue(old(locks), path), path)
                                         else Enqueue(old(locks), path)
    {
      hide FileLocks.Valid, FileLocks.Pending, Sound;
      if !PathValid(path) { return null, false; }
      entry := GetOrCreate(path, canAllocate);
      if entry == null { return null, false; }
      PendingIsListed(entry);
      Await(entry);
      granted := RetestExclusive(entry);
    }

    /** From a wake-up to the next wait: the guard is tested again on the entry the writer has kept. */
    method RetestExclusive(entry: Entry) returns (granted: bool)
      requires Valid() && entry in nodes && entry.waiting > 0
      modifies this`locks, entry
      ensures Valid()
      ensures granted == Free(old(entry.Counters()), Exclusive)
      ensures locks == if granted then Promote(old(locks), entry.path) else old(locks)
    {
      if entry.writers > 0 || entry.readers > 0 { return false; }
      entry.waiting := entry.waiting - 1;
      entry.writers := 1;
      SoundAfterWait(locks, entry.path);
      Commit(entry, Promote(locks, entry.path));
      return true;
    }

    // ----- queries -----

    method IsExclusiveLocked(path: Path) returns (result: int)
      requires Valid()
      ensures result == if !PathValid(path) then -1 else if At(locks, path).writers > 0 then 1 else 0
    {
      if !PathValid(path) { return -1; }
      var prev, entry, k := Find(path);
      if entry == null { return 0; }
      result := if entry.writers > 0 then 1 else 0;
    }

    method SharedLockCount(path: Path) returns (result: int)
      requires Valid()
      ensures result == if !PathValid(path) then -1 else At(locks, path).readers
    {
      if !PathValid(path) { return -1; }
      var prev, entry, k := Find(path);
      if entry == null { return 0; }
      result := entry.readers;
    }
  }
}
