/** The pool of revision worktrees: reference counted, bounded in bytes and in number, and
    evicted in least-recently-used order.  Its byte counter is only ever adjusted, so its
    exactness rests on the sizes of growing file sets being monotone. */
module WorkspacePool {
  import opened Options
  import opened Ordering
  import opened Sums

  /** Blob sizes of one revision, by path. */
  type Tree = map<string, nat>

  datatype Entry = Entry(files: set<string>, estimatedBytes: nat, leases: nat, full: bool, lastUsed: int)

  datatype Limits = Limits(maxRevisions: nat, maxBytes: nat, reserve: nat)

  datatype Failure = DiskSpaceInsufficient | GitFailed | RemovalFailed

  // ---------------------------------------------------------------- sizes

  function BlobSize(tree: Tree, path: string): nat {
    if path in tree then tree[path] else 0
  }

  ghost function SizeOf(tree: Tree, paths: set<string>): nat {
    Sum(paths, (p: string) => BlobSize(tree, p))
  }

  ghost function TotalBytes(tree: Tree): nat {
    SizeOf(tree, tree.Keys)
  }

  lemma SizeWithout(tree: Tree, paths: set<string>, p: string)
    requires p in paths
    ensures SizeOf(tree, paths) == BlobSize(tree, p) + SizeOf(tree, paths - {p})
  {
    SumWithout(paths, (q: string) => BlobSize(tree, q), p);
  }

  /** The estimate of a sparse entry never shrinks as its files grow. */
  lemma SizeMonotone(tree: Tree, small: set<string>, large: set<string>)
    requires small <= large
    ensures SizeOf(tree, small) <= SizeOf(tree, large)
  {
    SumSubset(small, large, (p: string) => BlobSize(tree, p));
  }

  /** No file set is larger than the whole tree. */
  lemma {:induction false} SizeAtMostTotal(tree: Tree, paths: set<string>)
    ensures SizeOf(tree, paths) <= TotalBytes(tree)
    decreases paths
  {
    if paths <= tree.Keys {
      SizeMonotone(tree, paths, tree.Keys);
    } else {
      var p :| p in paths && p !in tree;
      SizeWithout(tree, paths, p);
      SizeAtMostTotal(tree, paths - {p});
    }
  }

  /** RevisionTreeIndex::size_of. */
  method ComputeSize(tree: Tree, paths: set<string>) returns (bytes: nat)
    ensures bytes == SizeOf(tree, paths)
  {
    bytes := 0;
    var rest := paths;
    while rest != {}
      invariant bytes + SizeOf(tree, rest) == SizeOf(tree, paths)
    {
      var p :| p in rest;
      SizeWithout(tree, rest, p);
      if p in tree {
        bytes := bytes + tree[p];
      }
      rest := rest - {p};
    }
  }

  // ---------------------------------------------------------------- entries

  function EstimateAt(entries: map<string, Entry>, key: string): nat {
    if key in entries then entries[key].estimatedBytes else 0
  }

  ghost function SumBytes(entries: map<string, Entry>): nat {
    Sum(entries.Keys, (k: string) => EstimateAt(entries, k))
  }

  lemma BytesWithout(entries: map<string, Entry>, k: string)
    requires k in entries
    ensures SumBytes(entries) == entries[k].estimatedBytes + SumBytes(entries - {k})
  {
    var left := entries - {k};
    SumWithout(entries.Keys, (x: string) => EstimateAt(entries, x), k);
    assert left.Keys == entries.Keys - {k};
    SumAgrees(left.Keys, (x: string) => EstimateAt(entries, x), (x: string) => EstimateAt(left, x));
  }

  lemma BytesUpdated(entries: map<string, Entry>, k: string, e: Entry)
    ensures k in entries ==>
      SumBytes(entries[k := e]) + entries[k].estimatedBytes == SumBytes(entries) + e.estimatedBytes
    ensures k !in entries ==> SumBytes(entries[k := e]) == SumBytes(entries) + e.estimatedBytes
  {
    BytesWithout(entries[k := e], k);
    assert entries[k := e] - {k} == entries - {k};
    if k in entries {
      BytesWithout(entries, k);
    } else {
      assert entries - {k} == entries;
    }
  }

  lemma CountUpdated(entries: map<string, Entry>, k: string, e: Entry)
    ensures |entries[k := e]| == |entries| + if k in entries then 0 else 1
  {
    assert entries[k := e].Keys == entries.Keys + {k};
  }

  ghost predicate Exact(tree: Tree, e: Entry) {
    e.estimatedBytes == if e.full then TotalBytes(tree) else SizeOf(tree, e.files)
  }

  const DEFAULT_MAX_BYTES := 10 * 1024 * 1024 * 1024

  /** A byte limit of zero stands for what the disk offers beyond the reserve, at most the default. */
  function ByteLimit(limits: Limits, available: nat): nat {
    if limits.maxBytes != 0 then limits.maxBytes
    else
      var usable := if available > limits.reserve then available - limits.reserve else 0;
      if usable < DEFAULT_MAX_BYTES then usable else DEFAULT_MAX_BYTES
  }

  /** The configured limit counts; without one it is ten gibibytes, or what is free beyond the reserve if that is
      less. */
  lemma ByteLimitIs(limits: Limits, available: nat)
    ensures limits.maxBytes > 0 ==> ByteLimit(limits, available) == limits.maxBytes
    ensures limits.maxBytes == 0 ==>
      var bytes := ByteLimit(limits, available);
      && bytes <= 10_737_418_240 && (bytes == 0 || bytes + limits.reserve <= available)
      && (bytes == 10_737_418_240 || bytes + limits.reserve == available || (bytes == 0 && available <= limits.reserve))
  {
  }

  // ---------------------------------------------------------------- eviction

  lemma ExactStored(tree: Tree, e: Entry, stored: Entry)
    requires Exact(tree, e) && stored == e.(leases := stored.leases, lastUsed := stored.lastUsed)
    ensures Exact(tree, stored)
  {
  }

  /** What evict_for needs before it may return. */
  predicate Fits(limits: Limits, bytes: nat, count: nat, addBytes: nat, addEntries: nat, available: nat) {
    && addBytes <= limits.maxBytes && bytes <= limits.maxBytes - addBytes
    && count + addEntries <= limits.maxRevisions
    && addBytes <= available && available - addBytes >= limits.reserve
  }

  predicate Evictable(entries: map<string, Entry>, key: string, protectedKey: Option<string>) {
    key in entries && entries[key].leases == 0 && Some(key) != protectedKey
  }

  ghost predicate NothingEvictable(entries: map<string, Entry>, protectedKey: Option<string>) {
    forall k :: !Evictable(entries, k, protectedKey)
  }

  ghost function Without(entries: map<string, Entry>, victims: seq<string>): map<string, Entry> {
    entries - (set v | v in victims)
  }

  /** Of two entries the one that is evicted first: the less recently used, then the lesser key. */
  predicate Sooner(entries: map<string, Entry>, a: string, b: string)
    requires a in entries && b in entries
  {
    entries[a].lastUsed < entries[b].lastUsed || (entries[a].lastUsed == entries[b].lastUsed && Less(a, b))
  }

  lemma SoonerChains(entries: map<string, Entry>, a: string, b: string, c: string)
    requires a in entries && b in entries && c in entries && Sooner(entries, a, b) && Sooner(entries, b, c)
    ensures Sooner(entries, a, c)
  {
    if Less(a, b) && Less(b, c) {
      LessTransitive(a, b, c);
    }
  }

  /** Only unleased, unprotected entries leave, least recently used first. */
  ghost predicate LeastRecentFirst(entries: map<string, Entry>, victims: seq<string>, protectedKey: Option<string>) {
    && (forall i | 0 <= i < |victims| :: Evictable(entries, victims[i], protectedKey))
    && (forall i, j | 0 <= i < j < |victims| :: victims[i] != victims[j] && Sooner(entries, victims[i], victims[j]))
    && (forall i, k | 0 <= i < |victims| && k !in victims && Evictable(entries, k, protectedKey) ::
          Sooner(entries, victims[i], k))
  }

  /** Each victim left because a limit was exceeded at that moment; `free(n)` is the space
      available after n removals. */
  ghost predicate EachNeeded(entries: map<string, Entry>, victims: seq<string>,
                             limits: Limits, addBytes: nat, addEntries: nat, free: nat -> nat)
  {
    forall n | 0 <= n < |victims| ::
      !FitsNow(Without(entries, victims[..n]), limits, addBytes, addEntries, free(n))
  }

  ghost predicate FitsNow(entries: map<string, Entry>, limits: Limits, addBytes: nat, addEntries: nat, available: nat) {
    Fits(limits, SumBytes(entries), |entries|, addBytes, addEntries, available)
  }

  /** With the entry stored under the key, the bytes and the number of all entries are within the limits, and its
      growth leaves the reserve free. */
  ghost predicate HasRoom(kept: map<string, Entry>, key: string, entry: Entry, limits: Limits, available: nat) {
    && SumBytes(kept[key := entry]) <= limits.maxBytes && |kept[key := entry]| <= limits.maxRevisions
    && entry.estimatedBytes - EstimateAt(kept, key) + limits.reserve <= available
  }

  lemma FitIs(entries: map<string, Entry>, limits: Limits, addBytes: nat, addEntries: nat, available: nat)
    ensures FitsNow(entries, limits, addBytes, addEntries, available) <==>
      && SumBytes(entries) + addBytes <= limits.maxBytes && |entries| + addEntries <= limits.maxRevisions
      && addBytes + limits.reserve <= available
  {
  }

  lemma RoomIsFit(kept: map<string, Entry>, key: string, entry: Entry, limits: Limits, additional: nat, available: nat)
    requires entry.estimatedBytes == EstimateAt(kept, key) + additional
    ensures HasRoom(kept, key, entry, limits, available) <==>
      FitsNow(kept, limits, additional, if key in kept then 0 else 1, available)
  {
    BytesUpdated(kept, key, entry);
    CountUpdated(kept, key, entry);
    hide SumBytes;
  }

  /** Before each victim left there was no room, and each removal succeeded. */
  ghost predicate RightlyEvicted(entries: map<string, Entry>, victims: seq<string>, key: string, entry: Entry,
                                 limits: Limits, free: nat -> nat, removal: nat -> bool)
  {
    forall n | 0 <= n < |victims| :: !HasRoom(Without(entries, victims[..n]), key, entry, limits, free(n)) && removal(n)
  }

  ghost predicate AllRemoved(victims: seq<string>, removal: nat -> bool) {
    forall n | 0 <= n < |victims| :: removal(n)
  }

  lemma NoneEvicted(entries: map<string, Entry>, protectedKey: Option<string>, limits: Limits, addBytes: nat,
                    addEntries: nat, free: nat -> nat, removal: nat -> bool)
    ensures Without(entries, []) == entries && LeastRecentFirst(entries, [], protectedKey)
    ensures EachNeeded(entries, [], limits, addBytes, addEntries, free) && AllRemoved([], removal)
  {
  }

  lemma OneMoreRemoved(victims: seq<string>, v: string, removal: nat -> bool)
    requires AllRemoved(victims, removal) && removal(|victims|)
    ensures AllRemoved(victims + [v], removal)
  {
  }

  lemma EstimateStays(entries: map<string, Entry>, victims: seq<string>, key: string)
    requires key in entries ==> LeastRecentFirst(entries, victims, Some(key))
    ensures EstimateAt(Without(entries, victims), key) == EstimateAt(entries, key)
    ensures key in Without(entries, victims) <==> key in entries
  {
  }

  lemma EvictedRightly(entries: map<string, Entry>, victims: seq<string>, key: string, entry: Entry, limits: Limits,
                       additional: nat, free: nat -> nat, removal: nat -> bool)
    requires LeastRecentFirst(entries, victims, if key in entries then Some(key) else None)
    requires entry.estimatedBytes == EstimateAt(entries, key) + additional
    requires EachNeeded(entries, victims, limits, additional, if key in entries then 0 else 1, free)
    requires AllRemoved(victims, removal)
    ensures RightlyEvicted(entries, victims, key, entry, limits, free, removal)
  {
    hide FitsNow, HasRoom, Without;
    forall n | 0 <= n < |victims|
      ensures !HasRoom(Without(entries, victims[..n]), key, entry, limits, free(n))
    {
      SomeEvicted(entries, victims, n, key);
      RoomIsFit(Without(entries, victims[..n]), key, entry, limits, additional, free(n));
    }
  }

  lemma SomeEvicted(entries: map<string, Entry>, victims: seq<string>, n: nat, key: string)
    requires n <= |victims| && LeastRecentFirst(entries, victims, if key in entries then Some(key) else None)
    ensures EstimateAt(Without(entries, victims[..n]), key) == EstimateAt(entries, key)
    ensures key in Without(entries, victims[..n]) <==> key in entries
  {
    if key in entries {
      forall i | 0 <= i < |victims|
        ensures victims[i] != key
      {
        assert Evictable(entries, victims[i], Some(key));
      }
    }
  }

  /** What an eviction decides about the room for an entry. */
  lemma RoomDecided(entries: map<string, Entry>, victims: seq<string>, key: string, entry: Entry, limits: Limits,
                    additional: nat, free: nat -> nat, removal: nat -> bool)
    requires LeastRecentFirst(entries, victims, if key in entries then Some(key) else None)
    requires EachNeeded(entries, victims, limits, additional, if key in entries then 0 else 1, free)
    requires AllRemoved(victims, removal)
    requires entry.estimatedBytes == if key in entries then entries[key].estimatedBytes + additional else additional
    ensures RightlyEvicted(entries, victims, key, entry, limits, free, removal)
    ensures var left := Without(entries, victims);
      && (HasRoom(left, key, entry, limits, free(|victims|)) <==>
            FitsNow(left, limits, additional, if key in entries then 0 else 1, free(|victims|)))
      && (HasRoom(left, key, entry, limits, free(|victims|)) ==>
            && SumBytes(left) + additional <= limits.maxBytes
            && |left| + (if key in entries then 0 else 1) <= limits.maxRevisions)
      && if key in entries then key in left && left[key] == entries[key] else key !in left
  {
    hide HasRoom, SumBytes, LeastRecentFirst, EachNeeded, AllRemoved, RightlyEvicted, Without, FitsNow;
    var left := Without(entries, victims);
    EvictedRightly(entries, victims, key, entry, limits, additional, free, removal);
    EstimateStays(entries, victims, key);
    RoomIsFit(left, key, entry, limits, additional, free(|victims|));
    FitIs(left, limits, additional, if key in entries then 0 else 1, free(|victims|));
    if key in entries {
      ProtectedStays(entries, victims, key);
    }
  }

  lemma VictimAppended(entries: map<string, Entry>, victims: seq<string>, v: string, protectedKey: Option<string>)
    requires LeastRecentFirst(entries, victims, protectedKey)
    requires v !in victims && Evictable(entries, v, protectedKey)
    requires forall k | k !in victims && k != v && Evictable(entries, k, protectedKey) :: Sooner(entries, v, k)
    ensures LeastRecentFirst(entries, victims + [v], protectedKey)
    ensures Without(entries, victims + [v]) == Without(entries, victims) - {v}
  {
    var more := victims + [v];
    forall i, k | 0 <= i < |more| && k !in more && Evictable(entries, k, protectedKey)
      ensures Sooner(entries, more[i], k)
    {
      assert k !in victims;
    }
  }

  lemma NextVictim(entries: map<string, Entry>, victims: seq<string>, left: map<string, Entry>, v: string,
                   protectedKey: Option<string>)
    requires LeastRecentFirst(entries, victims, protectedKey) && left == Without(entries, victims)
    requires Evictable(left, v, protectedKey)
    requires forall k | k != v && Evictable(left, k, protectedKey) :: Sooner(left, v, k)
    ensures LeastRecentFirst(entries, victims + [v], protectedKey)
    ensures Without(entries, victims + [v]) == left - {v}
  {
    forall k | k !in victims && k != v && Evictable(entries, k, protectedKey)
      ensures Sooner(entries, v, k)
    {
      assert Evictable(left, k, protectedKey);
    }
    VictimAppended(entries, victims, v, protectedKey);
  }

  lemma NeedAppended(entries: map<string, Entry>, victims: seq<string>, v: string,
                     limits: Limits, addBytes: nat, addEntries: nat, free: nat -> nat)
    requires EachNeeded(entries, victims, limits, addBytes, addEntries, free)
    requires !FitsNow(Without(entries, victims), limits, addBytes, addEntries, free(|victims|))
    ensures EachNeeded(entries, victims + [v], limits, addBytes, addEntries, free)
  {
    var more := victims + [v];
    assert more[..|victims|] == victims;
    assert forall n | 0 <= n < |victims| :: more[..n] == victims[..n];
  }

  // ---------------------------------------------------------------- the pool

  /** What an entry becomes to serve a request; None is a key without an entry. */
  ghost function Serving(tree: Tree, entry: Option<Entry>, requested: set<string>, full: bool): Entry {
    match entry
    case None => Entry(requested, if full then TotalBytes(tree) else SizeOf(tree, requested), 0, full, 0)
    case Some(e) =>
      if e.full then e
      else if full then e.(estimatedBytes := TotalBytes(tree), full := true)
      else e.(files := requested + e.files, estimatedBytes := SizeOf(tree, requested + e.files))
  }

  /** Serving a request never lowers the estimate, so the counter only has to be raised. */
  lemma ServingGrows(tree: Tree, e: Entry, requested: set<string>, full: bool)
    requires Exact(tree, e)
    ensures e.estimatedBytes <= Serving(tree, Some(e), requested, full).estimatedBytes <= TotalBytes(tree)
    ensures Exact(tree, Serving(tree, Some(e), requested, full))
  {
    SizeMonotone(tree, e.files, requested + e.files);
    SizeAtMostTotal(tree, e.files);
    SizeAtMostTotal(tree, requested + e.files);
  }

  /** A request is served by its own files and those already there, or by the whole tree if it or the entry asks for
      that, and the estimate is the size of what is served. */
  lemma ServingSuffices(tree: Tree, entry: Option<Entry>, requested: set<string>, full: bool)
    requires entry.Some? ==> Exact(tree, entry.value)
    ensures var e := Serving(tree, entry, requested, full);
      && Exact(tree, e) && e.full == (full || (entry.Some? && entry.value.full))
      && (!e.full ==> e.files == requested + if entry.Some? then entry.value.files else {})
      && (entry.Some? ==> e.leases == entry.value.leases && e.lastUsed == entry.value.lastUsed)
      && (entry.None? ==> e.leases == 0)
      && (entry.Some? && entry.value.full ==> e == entry.value)
  {
  }

  /** A release counts as a use; it lowers the count by one, and only a full entry goes with its last lease. */
  lemma ReleasedIs(entries: map<string, Entry>, key: string, now: int, removed: bool, k: string)
    ensures var left := Released(entries, key, now, removed);
      && (k in left <==> k in entries && !(k == key && removed && entries[k].full && entries[k].leases == 1))
      && (k in left && k != key ==> left[k] == entries[k])
      && (k in left && k == key ==>
            left[k] == if entries[k].leases == 0 then entries[k]
                       else entries[k].(leases := entries[k].leases - 1, lastUsed := now))
  {
  }

  /** The last lease of a full entry goes. */
  predicate Leaves(entries: map<string, Entry>, key: string) {
    key in entries && entries[key].full && entries[key].leases == 1
  }

  /** A full entry goes with its last lease, unless its removal fails. */
  ghost function Released(entries: map<string, Entry>, key: string, now: int, removed: bool): map<string, Entry> {
    if key !in entries || entries[key].leases == 0 then entries
    else if entries[key].full && entries[key].leases == 1 && removed then entries - {key}
    else entries[key := entries[key].(leases := entries[key].leases - 1, lastUsed := now)]
  }

  function Lookup(entries: map<string, Entry>, key: string): Option<Entry> {
    if key in entries then Some(entries[key]) else None
  }

  lemma ProtectedStays(entries: map<string, Entry>, victims: seq<string>, key: string)
    requires LeastRecentFirst(entries, victims, Some(key)) && key in entries
    ensures key in Without(entries, victims) && Without(entries, victims)[key] == entries[key]
  {
  }

  /** The sparse entry as it will be, and by how much its estimate grows. */
  method Grow(tree: Tree, entry: Entry, requested: set<string>, full: bool) returns (grown: Entry, additional: nat)
    requires Exact(tree, entry) && !entry.full
    ensures grown == Serving(tree, Some(entry), requested, full) && Exact(tree, grown)
    ensures grown.estimatedBytes == entry.estimatedBytes + additional && grown.leases == entry.leases
    ensures entry.files <= grown.files && (grown.full || requested <= grown.files)
  {
    ServingGrows(tree, entry, requested, full);
    var files := if full then entry.files else requested + entry.files;
    var bytes := ComputeSize(tree, if full then tree.Keys else files);
    additional := if bytes > entry.estimatedBytes then bytes - entry.estimatedBytes else 0;
    grown := entry.(files := files, estimatedBytes := bytes, full := full);
  }

  // ---------------------------------------------------------------- leases

  /** What a live lease stands for. */
  datatype Ticket = Ticket(key: string, full: bool, requested: set<string>)

  ghost function TicketsFor<L>(live: map<L, Ticket>, key: string): set<L> {
    set l | l in live && live[l].key == key
  }

  lemma TicketAdded<L>(live: map<L, Ticket>, l: L, t: Ticket, key: string)
    requires l !in live
    ensures |TicketsFor(live[l := t], key)| == |TicketsFor(live, key)| + (if t.key == key then 1 else 0)
  {
    if t.key == key {
      assert TicketsFor(live[l := t], key) == TicketsFor(live, key) + {l};
    } else {
      assert TicketsFor(live[l := t], key) == TicketsFor(live, key);
    }
  }

  lemma TicketRemoved<L>(live: map<L, Ticket>, l: L, key: string)
    requires l in live
    ensures |TicketsFor(live - {l}, key)| == |TicketsFor(live, key)| - (if live[l].key == key then 1 else 0)
  {
    assert live == (live - {l})[l := live[l]];
    TicketAdded(live - {l}, l, live[l], key);
  }

  /** The entry of a ticket exists and has every file the ticket asked for. */
  predicate Covers(entries: map<string, Entry>, t: Ticket) {
    && t.key in entries && (t.full ==> entries[t.key].full)
    && (entries[t.key].full || t.requested <= entries[t.key].files)
  }

  /** Lease counts are the numbers of live leases, and every live lease is covered. */
  ghost predicate Counted<L>(entries: map<string, Entry>, live: map<L, Ticket>) {
    && (forall k <- entries :: entries[k].leases == |TicketsFor(live, k)|)
    && (forall l <- live :: Covers(entries, live[l]))
  }

  lemma LiveIsLeased<L>(entries: map<string, Entry>, live: map<L, Ticket>, l: L)
    requires Counted(entries, live) && l in live
    ensures entries[live[l].key].leases > 0
  {
    assert l in TicketsFor(live, live[l].key);
  }

  lemma EvictionKeepsCounted<L>(entries: map<string, Entry>, live: map<L, Ticket>, victims: seq<string>,
                                protectedKey: Option<string>)
    requires Counted(entries, live) && LeastRecentFirst(entries, victims, protectedKey)
    ensures Counted(Without(entries, victims), live)
  {
    forall l <- live
      ensures Covers(Without(entries, victims), live[l])
    {
      LiveIsLeased(entries, live, l);
    }
  }

  lemma ReleaseKeepsCounted<L>(entries: map<string, Entry>, live: map<L, Ticket>, l: L, now: int, removed: bool)
    requires Counted(entries, live) && l in live
    ensures Counted(Released(entries, live[l].key, now, removed), live - {l})
  {
    LiveIsLeased(entries, live, l);
    var entries', key := Released(entries, live[l].key, now, removed), live[l].key;
    forall k <- entries'
      ensures entries'[k].leases == |TicketsFor(live - {l}, k)|
    {
      TicketRemoved(live, l, k);
    }
    forall h <- live - {l}
      ensures Covers(entries', live[h])
    {
      if live[h].key == key {
        assert {h, l} <= TicketsFor(live, key);
        TicketRemoved(live, l, key);
        assert h in TicketsFor(live - {l}, key);
      }
    }
  }

  lemma GrantKeepsCounted<L>(entries: map<string, Entry>, live: map<L, Ticket>, l: L, t: Ticket, e: Entry)
    requires Counted(entries, live) && l !in live
    requires t.key in entries ==>
      && e.leases == entries[t.key].leases + 1 && entries[t.key].files <= e.files && (entries[t.key].full ==> e.full)
    requires t.key !in entries ==> e.leases == 1
    requires Covers(entries[t.key := e], t)
    ensures Counted(entries[t.key := e], live[l := t])
  {
    var entries' := entries[t.key := e];
    forall k <- entries'
      ensures entries'[k].leases == |TicketsFor(live[l := t], k)|
    {
      TicketAdded(live, l, t, k);
      if k !in entries {
        assert TicketsFor(live, k) == {};
      }
    }
  }

  lemma MoveKeepsCounted<L>(entries: map<string, Entry>, live: map<L, Ticket>, source: L, target: L)
    requires Counted(entries, live) && source in live && target !in live
    ensures Counted(entries, (live - {source})[target := live[source]])
  {
    forall k <- entries
      ensures entries[k].leases == |TicketsFor((live - {source})[target := live[source]], k)|
    {
      TicketRemoved(live, source, k);
      TicketAdded(live - {source}, target, live[source], k);
    }
  }

  /** How an eviction ends: room is made, or is lacking with nothing left to evict, or a removal fails. */
  datatype Room = Made | Lacking | Broken

  datatype Acquisition = Granted(lease: Lease) | Refused(failure: Failure)

  /** What a request is answered: it is granted with room and Git; without room it fails for lack of space when nothing
      is left to evict, and otherwise because a removal failed. */
  predicate Answers(r: Acquisition, hasRoom: bool, gitOk: bool, nothingEvictable: bool) {
    && (r.Granted? <==> hasRoom && gitOk)
    && (r == Refused(GitFailed) <==> hasRoom && !gitOk)
    && (r == Refused(DiskSpaceInsufficient) <==> !hasRoom && nothingEvictable)
    && (r == Refused(RemovalFailed) <==> !hasRoom && !nothingEvictable)
  }

  /** The move-only handle of a caller; `requested` is what the caller asked for. */
  class Lease {
    var owner: Pool?
    var key: string
    var full: bool
    ghost var requested: set<string>

    constructor (owner: Pool, key: string, full: bool, ghost requested: set<string>)
      ensures this.owner == owner && this.key == key && this.full == full && this.requested == requested
    {
      this.owner, this.key, this.full, this.requested := owner, key, full, requested;
    }

    /** A lease that owns something is counted by its pool. */
    ghost predicate Held()
      reads this, owner, if owner != null then owner.live.Keys else {}
    {
      owner != null ==> owner.Valid() && this in owner.live
    }

    /** An exception of the release is swallowed; `removed` says whether a removal succeeds. */
    method Reset(now: int, removed: bool)
      requires Held()
      modifies this, owner
      ensures owner == null && key == old(key)
      ensures old(owner) != null ==>
        && old(owner).Valid() && old(owner).live == old(owner.live) - {this}
        && old(owner).entries == Released(old(owner.entries), old(key), now, removed)
        && old(owner).stuck <= old(owner.stuck) + if removed then {} else {old(key)}
    {
      hide Pool.Accounted, Counted, Released;
      if owner != null {
        ReleaseKeepsCounted(owner.entries, owner.live, this, now, removed);
        var _ := owner.Release(key, now, removed);
        owner.live := owner.live - {this};
      }
      owner := null;
    }

    /** Move construction and, after a reset, move assignment: the other lease lets go. */
    method TakeFrom(other: Lease)
      requires owner == null && other != this && other.Held()
      modifies this, other, other.owner
      ensures Held() && other.owner == null
      ensures owner == old(other.owner) && key == old(other.key) && full == old(other.full)
      ensures requested == old(other.requested)
      ensures owner != null ==>
        && owner.live == old((other.owner.live - {other})[this := other.owner.live[other]])
        && owner.entries == old(other.owner.entries)
    {
      owner, key, full, requested := other.owner, other.key, other.full, other.requested;
      other.owner := null;
      if owner != null {
        owner.Transfer(other, this);
      }
    }
  }

  class Pool {
    const limits: Limits
    const trees: string -> Tree
    var entries: map<string, Entry>
    var estimatedBytes: nat
    /** The live Lease objects of this pool. */
    ghost var live: map<Lease, Ticket>
    /** Full entries that were to go with their last lease when their removal failed. */
    ghost var stuck: set<string>

    /** The counter is exact, the limits hold, and a full entry is in use or its removal has failed. */
    ghost predicate Accounted()
      reads this`entries, this`estimatedBytes, this`stuck
    {
      && estimatedBytes == SumBytes(entries) && estimatedBytes <= limits.maxBytes
      && |entries| <= limits.maxRevisions
      && (forall k <- entries :: Exact(trees(k), entries[k]))
      && (forall k <- entries :: entries[k].full && entries[k].leases == 0 ==> k in stuck)
      && (forall k <- stuck :: k in entries && entries[k].full)
    }

    /** `live` holds leases of this pool only, with what they stand for. */
    ghost predicate Faithful()
      reads this, live.Keys
    {
      forall l <- live :: l.owner == this && live[l] == Ticket(l.key, l.full, l.requested)
    }

    ghost predicate Valid()
      reads this, live.Keys
    {
      Accounted() && Counted(entries, live) && Faithful()
    }

    lemma CounterIsExact()
      requires Valid()
      ensures estimatedBytes == SumBytes(entries)
    {
    }

    constructor (limits: Limits, trees: string -> Tree, available: nat)
      requires limits.maxRevisions > 0
      ensures Valid() && entries == map[] && live == map[] && stuck == {} && this.trees == trees
      ensures this.limits == limits.(maxBytes := ByteLimit(limits, available))
    {
      this.limits := limits.(maxBytes := ByteLimit(limits, available));
      this.trees, entries, estimatedBytes, live, stuck := trees, map[], 0, map[], {};
    }

    /** A pool that may hold no revision is refused. */
    static method Open(limits: Limits, trees: string -> Tree, available: nat) returns (pool: Option<Pool>)
      ensures pool.Some? <==> limits.maxRevisions > 0
      ensures pool.Some? ==> fresh(pool.value) && pool.value.Valid() && pool.value.entries == map[]
      ensures pool.Some? ==> pool.value.limits == limits.(maxBytes := ByteLimit(limits, available))
    {
      if limits.maxRevisions == 0 {
        return None;
      }
      var created := new Pool(limits, trees, available);
      return Some(created);
    }

    /** A move puts one lease object in the place of another. */
    ghost method Transfer(source: Lease, target: Lease)
      requires Accounted() && Counted(entries, live) && source in live && target !in live
      requires target.owner == this && live[source] == Ticket(target.key, target.full, target.requested)
      requires forall l <- live :: l != source ==> l.owner == this && live[l] == Ticket(l.key, l.full, l.requested)
      modifies this`live
      ensures Valid() && live == old((live - {source})[target := live[source]])
    {
      MoveKeepsCounted(entries, live, source, target);
      live := (live - {source})[target := live[source]];
    }

    /** The Git commands of a removal can throw, and then nothing is erased. */
    method RemoveEntry(key: string, removed: bool) returns (ok: bool)
      requires Accounted()
      modifies this`entries, this`estimatedBytes, this`stuck
      ensures ok <==> removed || key !in old(entries)
      ensures Accounted() && entries == if ok then old(entries) - {key} else old(entries)
      ensures stuck == if ok then old(stuck) - {key} else old(stuck)
    {
      ok := true;
      if key in entries {
        if !removed {
          return false;
        }
        BytesWithout(entries, key);
        estimatedBytes := estimatedBytes - entries[key].estimatedBytes;
        entries := entries - {key};
        stuck := stuck - {key};
        assert entries.Keys == old(entries.Keys) - {key};
      } else {
        assert entries - {key} == entries && stuck - {key} == stuck;
      }
    }

    /** One lease less; a full entry without leases is on record until it is removed. */
    method Lower(key: string, now: int)
      requires Accounted() && key in entries && entries[key].leases > 0
      modifies this`entries, this`stuck
      ensures Accounted()
      ensures entries ==
        old(entries)[key := old(entries[key]).(leases := old(entries[key].leases) - 1, lastUsed := now)]
      ensures stuck == old(stuck) + if Leaves(old(entries), key) then {key} else {}
    {
      hide SumBytes, Exact;
      var entry := entries[key].(leases := entries[key].leases - 1, lastUsed := now);
      BytesUpdated(entries, key, entry);
      ExactStored(trees(key), entries[key], entry);
      if Leaves(entries, key) {
        stuck := stuck + {key};
      }
      assert entries[key := entry].Keys == entries.Keys;
      entries := entries[key := entry];
    }

    /** The count is lowered first, so a removal that fails leaves a full entry without leases. */
    method Release(key: string, now: int, removed: bool) returns (ok: bool)
      requires Accounted()
      modifies this`entries, this`estimatedBytes, this`stuck
      ensures Accounted() && entries == Released(old(entries), key, now, removed)
      ensures stuck <= old(stuck) + if ok then {} else {key}
      ensures ok <==> removed || !Leaves(old(entries), key)
    {
      hide Accounted;
      ok := true;
      if key in entries && entries[key].leases > 0 {
        ghost var before := entries;
        Lower(key, now);
        if entries[key].full && entries[key].leases == 0 {
          ok := RemoveEntry(key, removed);
          assert before[key := before[key].(leases := 0, lastUsed := now)] - {key} == before - {key};
        }
      }
    }

    /** Frees room; `removal(n)` says whether the removal after n victims succeeds. */
    method EvictFor(addBytes: nat, addEntries: nat, protectedKey: Option<string>, free: nat -> nat,
                    removal: nat -> bool)
      returns (room: Room, victims: seq<string>)
      requires Accounted()
      modifies this`entries, this`estimatedBytes, this`stuck
      ensures Accounted() && entries == Without(old(entries), victims) && stuck <= old(stuck)
      ensures LeastRecentFirst(old(entries), victims, protectedKey)
      ensures EachNeeded(old(entries), victims, limits, addBytes, addEntries, free)
      ensures room.Made? <==> FitsNow(entries, limits, addBytes, addEntries, free(|victims|))
      ensures room.Lacking? <==> !room.Made? && NothingEvictable(entries, protectedKey)
      ensures room.Broken? ==> !removal(|victims|)
      ensures AllRemoved(victims, removal)
    {
      hide LeastRecentFirst, EachNeeded, AllRemoved, Exact, SumBytes, Without;
      ghost var before := entries;
      victims := [];
      NoneEvicted(before, protectedKey, limits, addBytes, addEntries, free, removal);
      while true
        invariant Accounted() && entries == Without(before, victims) && stuck <= old(stuck)
        invariant LeastRecentFirst(before, victims, protectedKey)
        invariant EachNeeded(before, victims, limits, addBytes, addEntries, free) && AllRemoved(victims, removal)
        decreases |entries|
      {
        if Fits(limits, estimatedBytes, |entries|, addBytes, addEntries, free(|victims|)) {
          return Made, victims;
        }
        var victim := LeastRecent(protectedKey);
        if victim.None? {
          return Lacking, victims;
        }
        NextVictim(before, victims, entries, victim.value, protectedKey);
        NeedAppended(before, victims, victim.value, limits, addBytes, addEntries, free);
        var ok := RemoveEntry(victim.value, removal(|victims|));
        if !ok {
          return Broken, victims;
        }
        OneMoreRemoved(victims, victim.value, removal);
        victims := victims + [victim.value];
      }
    }

    method LeastRecent(protectedKey: Option<string>) returns (victim: Option<string>)
      ensures victim.None? ==> NothingEvictable(entries, protectedKey)
      ensures victim.Some? ==> Evictable(entries, victim.value, protectedKey)
      ensures victim.Some? ==> forall k | k != victim.value && Evictable(entries, k, protectedKey) ::
                                 Sooner(entries, victim.value, k)
    {
      victim := None;
      var rest := entries.Keys;
      while rest != {}
        invariant rest <= entries.Keys
        invariant victim.Some? ==> Evictable(entries, victim.value, protectedKey)
        invariant forall k | Evictable(entries, k, protectedKey) && k !in rest ::
                    victim.Some? && (k == victim.value || Sooner(entries, victim.value, k))
      {
        var k :| k in rest;
        if Some(k) != protectedKey && entries[k].leases == 0
           && (victim.None? || Sooner(entries, k, victim.value)) {
          if victim.Some? {
            forall other | other in entries && Sooner(entries, victim.value, other) ensures Sooner(entries, k, other) {
              SoonerChains(entries, k, victim.value, other);
            }
          }
          victim := Some(k);
        } else if victim.Some? {
          LessTotal(k, victim.value);
        }
        rest := rest - {k};
      }
    }

    /** Stores the entry that serves a request, leased once more, and hands out the lease. */
    method Grant(key: string, entry: Entry, additional: nat, requested: set<string>, now: int) returns (l: Lease)
      requires Valid() && Exact(trees(key), entry)
      requires estimatedBytes + additional <= limits.maxBytes
      requires key in entries ==>
        && entry.estimatedBytes == entries[key].estimatedBytes + additional && entry.leases == entries[key].leases
        && entries[key].files <= entry.files && (entries[key].full ==> entry.full)
      requires key !in entries ==>
        entry.estimatedBytes == additional && entry.leases == 0 && |entries| < limits.maxRevisions
      requires entry.full || requested <= entry.files
      modifies this
      ensures Valid() && stuck == old(stuck)
        && entries == old(entries)[key := entry.(leases := entry.leases + 1, lastUsed := now)]
      ensures fresh(l) && l.owner == this && l.key == key && l.full == entry.full && l.requested == requested
      ensures live == old(live)[l := Ticket(key, entry.full, requested)]
    {
      hide Counted, Accounted, Exact;
      var stored := entry.(leases := entry.leases + 1, lastUsed := now);
      ExactStored(trees(key), entry, stored);
      l := new Lease(this, key, entry.full, requested);
      GrantKeepsCounted(entries, live, l, Ticket(key, entry.full, requested), stored);
      Store(key, stored, additional);
      live := live[l := Ticket(key, entry.full, requested)];
    }

    /** A leased entry, new or grown. */
    method Store(key: string, stored: Entry, additional: nat)
      requires Accounted() && Exact(trees(key), stored) && stored.leases > 0
      requires estimatedBytes + additional <= limits.maxBytes
      requires if key in entries
        then stored.estimatedBytes == entries[key].estimatedBytes + additional && (entries[key].full ==> stored.full)
        else stored.estimatedBytes == additional && |entries| < limits.maxRevisions
      modifies this`entries, this`estimatedBytes
      ensures Accounted() && entries == old(entries)[key := stored]
    {
      hide SumBytes, Exact;
      BytesUpdated(entries, key, stored);
      CountUpdated(entries, key, stored);
      estimatedBytes := estimatedBytes + additional;
      entries := entries[key := stored];
    }

    /** evict_for keeps every live lease. */
    method MakeRoom(addBytes: nat, addEntries: nat, protectedKey: Option<string>, free: nat -> nat,
                    removal: nat -> bool)
      returns (room: Room, victims: seq<string>)
      requires Valid()
      modifies this`entries, this`estimatedBytes, this`stuck
      ensures Valid() && entries == Without(old(entries), victims) && stuck <= old(stuck)
      ensures LeastRecentFirst(old(entries), victims, protectedKey)
      ensures room.Made? <==> FitsNow(entries, limits, addBytes, addEntries, free(|victims|))
      ensures room.Lacking? <==> !room.Made? && NothingEvictable(entries, protectedKey)
      ensures room.Broken? ==> !removal(|victims|)
      ensures EachNeeded(old(entries), victims, limits, addBytes, addEntries, free) && AllRemoved(victims, removal)
    {
      ghost var before := entries;
      room, victims := EvictFor(addBytes, addEntries, protectedKey, free, removal);
      EvictionKeepsCounted(before, live, victims, protectedKey);
    }

    /** The lease `l` was granted on top of `kept` and the leases `was`. */
    ghost predicate Served(l: Lease, kept: map<string, Entry>, was: map<Lease, Ticket>, key: string, e: Entry,
                           requested: set<string>, now: int)
      reads this, l
    {
      && entries == kept[key := e.(leases := e.leases + 1, lastUsed := now)]
      && l.owner == this && l.key == key && l.full == e.full && l.requested == requested
      && live == was[l := Ticket(key, e.full, requested)]
    }

    /** Makes room for the entry that serves a request, runs Git, and stores the entry. */
    method Materialize(key: string, entry: Entry, additional: nat, requested: set<string>,
                       free: nat -> nat, removal: nat -> bool, gitOk: bool, now: int)
      returns (r: Acquisition, victims: seq<string>)
      requires Valid() && Exact(trees(key), entry) && (entry.full || requested <= entry.files)
      requires key in entries ==>
        && entry.estimatedBytes == entries[key].estimatedBytes + additional && entry.leases == entries[key].leases
        && entries[key].files <= entry.files && (entries[key].full ==> entry.full)
      requires key !in entries ==> entry.estimatedBytes == additional && entry.leases == 0
      modifies this
      ensures Valid() && stuck <= old(stuck)
      ensures LeastRecentFirst(old(entries), victims, if key in old(entries) then Some(key) else None)
      ensures r.Refused? ==> entries == Without(old(entries), victims) && live == old(live)
      ensures RightlyEvicted(old(entries), victims, key, entry, limits, free, removal)
      ensures Answers(r, HasRoom(Without(old(entries), victims), key, entry, limits, free(|victims|)), gitOk,
                      NothingEvictable(Without(old(entries), victims), if key in old(entries) then Some(key) else None))
      ensures r == Refused(RemovalFailed) ==> !removal(|victims|)
      ensures r.Granted? ==>
        && fresh(r.lease)
        && Served(r.lease, Without(old(entries), victims), old(live), key, entry, requested, now)
    {
      hide HasRoom, SumBytes, Exact, NothingEvictable, LeastRecentFirst, EachNeeded, AllRemoved, RightlyEvicted, Valid,
           Without, FitsNow, EstimateAt;
      var protectedKey := if key in entries then Some(key) else None;
      var room;
      room, victims := MakeRoom(additional, if key in entries then 0 else 1, protectedKey, free, removal);
      RoomDecided(old(entries), victims, key, entry, limits, additional, free, removal);
      CounterIsExact();
      if room.Lacking? {
        r := Refused(DiskSpaceInsufficient);
      } else if room.Broken? {
        r := Refused(RemovalFailed);
      } else if !gitOk {
        r := Refused(GitFailed);
      } else {
        var l := Grant(key, entry, additional, requested, now);
        r := Granted(l);
      }
    }

    /** RevisionWorkspacePool::acquire, after the paths are normalized and the tree is indexed.
        `gitOk` says whether the Git commands of this call succeed, `removal` those of its evictions. */
    method Acquire(key: string, requested: set<string>, full: bool, free: nat -> nat, removal: nat -> bool,
                   gitOk: bool, now: int)
      returns (r: Acquisition, victims: seq<string>)
      requires Valid()
      modifies this
      ensures Valid() && stuck <= old(stuck)
      ensures LeastRecentFirst(old(entries), victims, if key in old(entries) then Some(key) else None)
      ensures r.Refused? ==> entries == Without(old(entries), victims) && live == old(live)
      ensures var asked := Serving(trees(key), Lookup(old(entries), key), requested, full);
        if key in old(entries) && old(entries)[key].full then r.Granted? && victims == []
        else
          && RightlyEvicted(old(entries), victims, key, asked, limits, free, removal)
          && Answers(r, HasRoom(Without(old(entries), victims), key, asked, limits, free(|victims|)),
                     gitOk || (!full && key in old(entries) && requested <= old(entries)[key].files),
                     NothingEvictable(Without(old(entries), victims), if key in old(entries) then Some(key) else None))
      ensures r == Refused(RemovalFailed) ==> !removal(|victims|)
      ensures r.Granted? ==>
        && fresh(r.lease)
        && Served(r.lease, Without(old(entries), victims), old(live), key,
                  Serving(trees(key), Lookup(old(entries), key), requested, full), requested, now)
    {
      hide NothingEvictable, Counted, SumBytes, SizeOf, HasRoom, RightlyEvicted, LeastRecentFirst;
      if key !in entries {
        var bytes := ComputeSize(trees(key), if full then trees(key).Keys else requested);
        r, victims := Materialize(key, Entry(requested, bytes, 0, full, 0), bytes, requested, free, removal, gitOk,
          now);
      } else if !entries[key].full {
        var entry, additional := Grow(trees(key), entries[key], requested, full);
        var settled := !full && entry.files == entries[key].files;
        assert settled <==> !full && requested <= entries[key].files;
        r, victims := Materialize(key, entry, additional, requested, free, removal, gitOk || settled, now);
      } else {
        victims := [];
        NoneEvicted(entries, Some(key), limits, 0, 0, free, removal);
        var l := Grant(key, entries[key], 0, requested, now);
        r := Granted(l);
      }
    }
  }
}
