/** The sleep-mode allocator over runs of malloc, free, sleep and wake, in any
    order, with a driver that may fail at any call. */
module SleepAllocator {
  import opened Arithmetic
  import opened Wrappers
  import opened SleepChunks
  import opened SleepDriver

  /** What is kept per pointer: the reserved size, the chunk sizes, the handles in
      the chunks' cells, and whether the allocation is asleep. */
  datatype Entry = Entry(size: nat, sizes: seq<nat>, handles: seq<nat>, asleep: bool)

  type Table = map<nat, Entry>

  datatype Pointer = Crash | Null | Address(addr: nat)

  /** A free passes the size that was reserved, or some other one. */
  datatype Request = DoMalloc(size: nat) | DoFree(ptr: nat, other: Option<nat>) | DoSleep(ptr: nat) | DoWake(ptr: nat)

  /** The events after which the books no longer agree with the device. */
  datatype Cause =
    | Nothing
    | Teardown                   // an unmap, release or address free failed
    | DivideByZero               // the rounded chunk size wrapped to 0
    | NoChunks(ptr: nat)         // the chunk count wrapped to 0
    | LostReservation(ptr: nat)  // the malloc callback raised
    | StaleEntry(ptr: nat)       // chunks could not be created or mapped; the entry stays
    | Unfreeable(ptr: nat)       // access could not be set; the range is mapped when freed
    | WrongSize(ptr: nat)        // freed with another size than was reserved
    | LostPlaceholder(ptr: nat)  // sleep did not get the address back
    | LeakedHandle(handle: nat)  // wake with an error pending
    | MappedAsleep(ptr: nat)     // wake could not set access

  // ---- The books agree with the device ------------------------------------------------------

  predicate EntryOk(m: Memory, p: nat, e: Entry) {
    && p > 0 && p in m.reserved && m.reserved[p] == e.size && e.size > 0 && Tiles(e.sizes, e.size)
    && if e.asleep then Unmapped(m.mapped, p, e.size) else Held(m, p, e.sizes, e.handles)
  }

  predicate PairOk(p: nat, e: Entry, q: nat, f: Entry) {
    && (p + e.size <= q || q + f.size <= p)
    && (!e.asleep && !f.asleep ==> forall h :: h in e.handles ==> h !in f.handles)
  }

  predicate OwnsMap(table: Table, p: nat, a: nat) {
    p in table && !table[p].asleep && a in Starts(p, table[p].sizes, |table[p].sizes|)
  }

  predicate OwnsHandle(table: Table, p: nat, h: nat) {
    p in table && !table[p].asleep && h in table[p].handles
  }

  ghost predicate EntriesOk(m: Memory, table: Table) {
    forall p :: p in table ==> EntryOk(m, p, table[p])
  }

  ghost predicate PairsOk(table: Table) {
    forall p, q :: p in table && q in table && p != q ==> PairOk(p, table[p], q, table[q])
  }

  /** Nothing is mapped or held but by an awake allocation. */
  ghost predicate AllOwned(m: Memory, table: Table) {
    && (forall a :: a in m.mapped ==> exists p :: OwnsMap(table, p, a))
    && (forall h :: h in m.handles ==> exists p :: OwnsHandle(table, p, h))
  }

  /** Every allocation keeps its own address range; an awake one is tiled by its
      own live chunks, an asleep one has nothing mapped and holds no chunk; and
      nothing else is reserved, mapped or held. */
  ghost predicate Good(m: Memory, table: Table) {
    m.reserved.Keys == table.Keys && EntriesOk(m, table) && PairsOk(table) && AllOwned(m, table)
  }

  /** With everything asleep no physical memory is held at all, and every address
      is still reserved. */
  lemma AsleepHoldsNothing(m: Memory, table: Table)
    requires Good(m, table) && forall p :: p in table ==> table[p].asleep
    ensures m.handles == map[] && m.mapped == map[] && m.reserved.Keys == table.Keys
  {
    assert forall h :: h in m.handles ==> exists p :: OwnsHandle(table, p, h);
    assert forall h :: h !in m.handles;
    assert forall a :: a !in m.mapped;
  }

  // ---- The four changes -------------------------------------------------------------------------

  lemma StartInRange(p: nat, sizes: seq<nat>, total: nat, a: nat) returns (i: nat)
    requires Tiles(sizes, total) && a in Starts(p, sizes, |sizes|)
    ensures i < |sizes| && a == p + Offset(sizes, i) && p <= a && a + sizes[i] <= p + total
  {
    i := StartIndex(p, sizes, |sizes|, a);
    OffsetGrows(sizes, 0, i);
    OffsetGrows(sizes, i, |sizes|);
  }

  /** A reservation begins as an allocation that is asleep. */
  lemma ReserveKeeps(m: Memory, table: Table, p: nat, e: Entry, alignment: nat)
    requires Good(m, table) && CanReserve(m, p, e.size, alignment) && e.asleep && Tiles(e.sizes, e.size)
    ensures p !in table && Good(m.(reserved := m.reserved[p := e.size]), table[p := e])
  {
    hide Tiles, Held, Unmapped, AllOwned;
    var m', table' := m.(reserved := m.reserved[p := e.size]), table[p := e];
    assert EntryOk(m', p, e);
    forall q | q in table ensures EntryOk(m', q, table[q]) && PairOk(p, e, q, table[q]) && PairOk(q, table[q], p, e) {
      assert EntryOk(m, q, table[q]);
      HeldFrame(m, m', q, table[q]);
    }
    OwnersKept(m, table, table', p);
    OwnedFrame(m, m', table');
  }

  lemma OwnedFrame(m: Memory, m': Memory, table: Table)
    requires AllOwned(m, table) && m'.mapped.Keys <= m.mapped.Keys && m'.handles.Keys <= m.handles.Keys
    ensures AllOwned(m', table)
  {
    hide OwnsMap, OwnsHandle;
  }

  lemma HeldFrame(m: Memory, m': Memory, q: nat, e: Entry)
    requires m.handles == m'.handles && m.mapped == m'.mapped
    ensures Held(m, q, e.sizes, e.handles) <==> Held(m', q, e.sizes, e.handles)
  {}

  /** Owners other than `p` keep what they own. */
  lemma OwnersKept(m: Memory, table: Table, table': Table, p: nat)
    requires AllOwned(m, table) && (p in table ==> table[p].asleep)
    requires forall q :: q in table && q != p ==> q in table' && table'[q] == table[q]
    ensures AllOwned(m, table')
  {
    hide Starts;
    forall a | a in m.mapped ensures exists q :: OwnsMap(table', q, a) {
      var q :| OwnsMap(table, q, a);
      assert OwnsMap(table', q, a);
    }
    forall h | h in m.handles ensures exists q :: OwnsHandle(table', q, h) {
      var q :| OwnsHandle(table, q, h);
      assert OwnsHandle(table', q, h);
    }
  }

  // ---- Waking ---------------------------------------------------------------------------------

  lemma WakeKeeps(m: Memory, table: Table, p: nat, m': Memory, hs: seq<nat>)
    requires Good(m, table) && p in table && table[p].asleep && Filled(m, m', p, table[p].sizes, hs)
    ensures Good(m', table[p := table[p].(handles := hs, asleep := false)])
  {
    hide Tiles, Held, Unmapped, AllOwned, Filled, HandlesAdded, MapsAdded;
    var e := table[p];
    var e' := e.(handles := hs, asleep := false);
    assert EntryOk(m, p, e);
    WokenEntry(m, p, e, m', hs);
    forall q | q in table && q != p ensures EntryOk(m', q, table[q]) && PairOk(p, e', q, table[q]) && PairOk(q, table[q], p, e') {
      assert EntryOk(m, q, table[q]);
      assert PairOk(p, e, q, table[q]);
      OtherWoken(m, p, e, m', hs, q, table[q]);
      NewHandlesApart(m, p, e, m', hs, q, table[q]);
    }
    WokenOwned(m, table, p, m', hs);
    FilledReserved(m, m', p, e.sizes, hs);
  }

  lemma FilledReserved(m: Memory, m': Memory, p: nat, sizes: seq<nat>, hs: seq<nat>)
    requires Filled(m, m', p, sizes, hs)
    ensures m'.reserved == m.reserved
  {}

  lemma WokenEntry(m: Memory, p: nat, e: Entry, m': Memory, hs: seq<nat>)
    requires EntryOk(m, p, e) && e.asleep && Filled(m, m', p, e.sizes, hs)
    ensures EntryOk(m', p, e.(handles := hs, asleep := false))
  {
    FillThenEmpty(m, m', p, e.sizes, hs);
  }

  /** New chunks land outside every other allocation's range. */
  lemma OtherWoken(m: Memory, p: nat, e: Entry, m': Memory, hs: seq<nat>, q: nat, f: Entry)
    requires EntryOk(m, p, e) && e.asleep && Filled(m, m', p, e.sizes, hs)
    requires EntryOk(m, q, f) && PairOk(p, e, q, f)
    ensures EntryOk(m', q, f)
  {
    hide Offset, Starts;
    if f.asleep {
      forall a | a in m'.mapped ensures (a < q && a + m'.mapped[a].size <= q) || q + f.size <= a {
        if a !in m.mapped {
          var i := StartInRange(p, e.sizes, e.size, a);
        }
      }
    }
  }

  lemma NewHandlesApart(m: Memory, p: nat, e: Entry, m': Memory, hs: seq<nat>, q: nat, f: Entry)
    requires Filled(m, m', p, e.sizes, hs) && EntryOk(m, q, f) && PairOk(p, e, q, f)
    ensures PairOk(p, e.(handles := hs, asleep := false), q, f) && PairOk(q, f, p, e.(handles := hs, asleep := false))
  {
    hide Offset, Starts, MapsAdded;
  }

  lemma WokenOwned(m: Memory, table: Table, p: nat, m': Memory, hs: seq<nat>)
    requires AllOwned(m, table) && p in table && table[p].asleep && Filled(m, m', p, table[p].sizes, hs)
    ensures AllOwned(m', table[p := table[p].(handles := hs, asleep := false)])
  {
    hide Offset, Starts;
    var table' := table[p := table[p].(handles := hs, asleep := false)];
    OwnersKept(m, table, table', p);
    forall a | a in m'.mapped ensures exists q :: OwnsMap(table', q, a) {
      if a !in m.mapped { assert OwnsMap(table', p, a); }
    }
    forall h | h in m'.handles ensures exists q :: OwnsHandle(table', q, h) {
      if h !in m.handles { assert OwnsHandle(table', p, h); }
    }
  }

  // ---- Going to sleep ---------------------------------------------------------------------------

  lemma SleepKeeps(m: Memory, table: Table, p: nat)
    requires Good(m, table) && p in table && !table[p].asleep
    ensures Held(m, p, table[p].sizes, table[p].handles)
    ensures Good(Emptied(m, p, table[p].sizes, table[p].handles), table[p := table[p].(asleep := true)])
  {
    hide Tiles, Held, Unmapped, AllOwned, OwnsMap, OwnsHandle;
    var e := table[p];
    var m', table' := Emptied(m, p, e.sizes, e.handles), table[p := e.(asleep := true)];
    assert EntryOk(m, p, e);
    SleeperUnmapped(m, table, p);
    forall q | q in table && q != p ensures EntryOk(m', q, table[q]) && PairOk(p, e.(asleep := true), q, table[q]) && PairOk(q, table[q], p, e.(asleep := true)) {
      assert EntryOk(m, q, table[q]);
      assert PairOk(p, e, q, table[q]) && PairOk(q, table[q], p, e);
      OtherUntouched(m, p, e, q, table[q]);
    }
    SleptOwned(m, table, p);
  }

  /** What is mapped in the sleeper's range was its own. */
  lemma SleeperUnmapped(m: Memory, table: Table, p: nat)
    requires Good(m, table) && p in table && !table[p].asleep
    ensures Unmapped(Emptied(m, p, table[p].sizes, table[p].handles).mapped, p, table[p].size)
  {
    hide EntryOk, PairOk, Starts, OwnsHandle;
    var e := table[p];
    var m' := Emptied(m, p, e.sizes, e.handles);
    forall a | a in m'.mapped ensures (a < p && a + m'.mapped[a].size <= p) || p + e.size <= a {
      var q :| OwnsMap(table, q, a);
      assert q != p;
      MappedOutside(m, p, e, q, table[q], a);
    }
  }

  lemma MappedOutside(m: Memory, p: nat, e: Entry, q: nat, f: Entry, a: nat)
    requires EntryOk(m, q, f) && !f.asleep && PairOk(p, e, q, f) && a in Starts(q, f.sizes, |f.sizes|)
    ensures a in m.mapped && ((a < p && a + m.mapped[a].size <= p) || p + e.size <= a)
  {
    hide Offset, Starts;
    var i := StartInRange(q, f.sizes, f.size, a);
  }

  lemma OtherUntouched(m: Memory, p: nat, e: Entry, q: nat, f: Entry)
    requires EntryOk(m, p, e) && !e.asleep && EntryOk(m, q, f) && PairOk(p, e, q, f) && PairOk(q, f, p, e)
    ensures EntryOk(Emptied(m, p, e.sizes, e.handles), q, f)
  {
    hide Offset, Starts;
    if !f.asleep {
      forall i {:trigger Offset(f.sizes, i)} | 0 <= i < |f.sizes| ensures q + Offset(f.sizes, i) !in Starts(p, e.sizes, |e.sizes|) {
        OffsetGrows(f.sizes, 0, i);
        OffsetGrows(f.sizes, i, |f.sizes|);
        if q + Offset(f.sizes, i) in Starts(p, e.sizes, |e.sizes|) {
          var j := StartInRange(p, e.sizes, e.size, q + Offset(f.sizes, i));
        }
      }
    }
  }

  lemma SleptOwned(m: Memory, table: Table, p: nat)
    requires AllOwned(m, table) && p in table && !table[p].asleep
    ensures AllOwned(Emptied(m, p, table[p].sizes, table[p].handles), table[p := table[p].(asleep := true)])
  {
    hide Offset, Starts;
    var e := table[p];
    var m', table' := Emptied(m, p, e.sizes, e.handles), table[p := e.(asleep := true)];
    forall a | a in m'.mapped ensures exists q :: OwnsMap(table', q, a) {
      var q :| OwnsMap(table, q, a);
      assert OwnsMap(table', q, a);
    }
    forall h | h in m'.handles ensures exists q :: OwnsHandle(table', q, h) {
      var q :| OwnsHandle(table, q, h);
      assert OwnsHandle(table', q, h);
    }
  }

  // ---- Giving the address back ------------------------------------------------------------------

  lemma DropKeeps(m: Memory, table: Table, p: nat)
    requires Good(m, table) && p in table && table[p].asleep
    ensures CanFree(m, p, table[p].size)
    ensures Good(m.(reserved := m.reserved - {p}), table - {p})
  {
    hide Tiles, Held, Unmapped, AllOwned;
    var m', table' := m.(reserved := m.reserved - {p}), table - {p};
    assert EntryOk(m, p, table[p]);
    forall q | q in table' ensures EntryOk(m', q, table'[q]) {
      assert EntryOk(m, q, table[q]);
      HeldFrame(m, m', q, table[q]);
    }
    OwnersKept(m, table, table', p);
    OwnedFrame(m, m', table');
  }

  /** An address that was just given back can be had again. */
  lemma DroppedCanReserve(m: Memory, table: Table, p: nat)
    requires Good(m, table) && p in table && table[p].asleep
    ensures CanReserve(m.(reserved := m.reserved - {p}), p, table[p].size, 0)
  {
    hide Tiles, Held, AllOwned;
    assert EntryOk(m, p, table[p]);
    forall r | r in m.reserved && r != p ensures r + m.reserved[r] <= p || p + table[p].size <= r {
      assert EntryOk(m, r, table[r]) && PairOk(p, table[p], r, table[r]);
    }
  }

  // ---- The allocator ----------------------------------------------------------------------------

  /** The least multiple of g that is at least `bytes`. */
  ghost predicate LeastMultiple(chunk: nat, g: nat, bytes: nat)
    requires g > 0
  {
    chunk % g == 0 && bytes <= chunk < bytes + g
  }

  lemma LeastMultipleIs(g: nat, bytes: nat, k: nat) returns (chunk: nat)
    requires g > 0 && k % g == 0 && k >= bytes
    ensures LeastMultiple(chunk, g, bytes) && chunk <= k
  {
    DivBounds(bytes + g - 1, g);
    chunk := (bytes + g - 1) / g * g;
    SameMultiple(g, bytes, chunk, k);
  }

  lemma SameMultiple(g: nat, bytes: nat, chunk: nat, k: nat)
    requires g > 0 && chunk % g == 0 && k % g == 0 && bytes <= chunk < bytes + g && k >= bytes
    ensures chunk <= k
  {
    var a, b := chunk / g, k / g;
    assert chunk == a * g && k == b * g;
    if b < a { Scale(b, a, g); }
  }

  /** Full chunks, and a last one that is positive and no larger. */
  ghost predicate Cut(sizes: seq<nat>, chunk: nat) {
    && sizes != [] && 0 < sizes[|sizes| - 1] <= chunk
    && forall i :: 0 <= i < |sizes| - 1 ==> sizes[i] == chunk
  }

  /** Large enough by less than one granule, in whole granules, cut into chunks of the
      configured size rounded up to the granularity. */
  ghost predicate Fits(e: Entry, size: nat, g: nat, bytes: nat)
    requires g > 0
  {
    && 0 < size <= e.size < size + g && e.size % g == 0
    && (forall i :: 0 <= i < |e.sizes| ==> e.sizes[i] % g == 0)
    && (forall chunk: nat :: LeastMultiple(chunk, g, bytes) ==> Cut(e.sizes, chunk))
  }

  lemma CutIs(sizes: seq<nat>, chunk: nat, g: nat, bytes: nat)
    requires g > 0 && LeastMultiple(chunk, g, bytes) && Cut(sizes, chunk)
    ensures forall c: nat :: LeastMultiple(c, g, bytes) ==> Cut(sizes, c)
  {
    hide Cut;
    forall c: nat | LeastMultiple(c, g, bytes) ensures c == chunk {
      SameMultiple(g, bytes, c, chunk);
      SameMultiple(g, bytes, chunk, c);
    }
  }

  lemma ReservedFacts(m: Memory, p: nat, size: nat, alignment: nat)
    requires CanReserve(m, p, size, alignment)
    ensures size > 0 && p !in m.reserved && (alignment > 0 ==> p % alignment == 0)
  {}

  lemma BooksCover(m: Memory, table: Table)
    requires Good(m, table)
    ensures m.reserved.Keys == table.Keys
  {}

  lemma EntryFacts(m: Memory, table: Table, p: nat)
    requires Good(m, table) && p in table
    ensures p in m.reserved && m.reserved[p] == table[p].size && table[p].size > 0
    ensures !table[p].asleep ==> |table[p].handles| == |table[p].sizes|
  {
    assert EntryOk(m, p, table[p]);
  }

  lemma PlaceholderReady(m: Memory, table: Table, p: nat)
    requires Good(m, table) && p in table && table[p].asleep
    ensures p in m.reserved && m.reserved[p] == table[p].size > 0
    ensures Tiles(table[p].sizes, table[p].size) && Unmapped(m.mapped, p, table[p].size)
  {
    assert EntryOk(m, p, table[p]);
  }

  /** A range that was just filled is not free. */
  lemma MappedIsNotFree(m: Memory, m': Memory, p: nat, sizes: seq<nat>, hs: seq<nat>)
    requires Filled(m, m', p, sizes, hs) && p in m.reserved && m.reserved[p] > 0 && Tiles(sizes, m.reserved[p])
    ensures !Unmapped(m'.mapped, p, m.reserved[p])
  {
    NotEmpty(sizes, m.reserved[p]);
    assert Offset(sizes, 0) == 0;
    assert p + Offset(sizes, 0) in m'.mapped;
  }

  lemma NothingThere(m: Memory, p: nat, size: nat, alignment: nat)
    requires CanReserve(m, p, size, alignment)
    ensures CanFree(m.(reserved := m.reserved[p := size]), p, size) && m.reserved[p := size] - {p} == m.reserved
  {}

  lemma FreshCanFree(m: Memory, p: nat, q: nat, size: nat)
    requires p in m.reserved && CanReserve(m.(reserved := m.reserved - {p}), q, size, 0) && q != p
    ensures CanFree(m.(reserved := (m.reserved - {p})[q := size]), q, size)
    ensures (m.reserved - {p})[q := size] - {q} == m.reserved - {p}
  {}

  lemma RemoveThenAdd(reserved: map<nat, nat>, p: nat, size: nat)
    requires p in reserved && reserved[p] == size
    ensures (reserved - {p})[p := size] == reserved
  {}

  predicate SameChunks(e: Entry, f: Entry) { e.size == f.size && e.sizes == f.sizes }

  /** The same pointers, with the same sizes and chunks. */
  predicate SameLayout(t: Table, u: Table) {
    t.Keys == u.Keys && forall p :: p in t ==> SameChunks(t[p], u[p])
  }

  predicate Frees(requests: seq<Request>, p: nat) {
    exists i :: 0 <= i < |requests| && requests[i].DoFree? && requests[i].ptr == p
  }

  /** The address can be freed and reserved again at the same place. */
  predicate CanGoAround(m: Memory, p: nat, size: nat) {
    CanFree(m, p, size) && CanReserve(m.(reserved := m.reserved - {p}), p, size, 0)
  }

  /** The malloc callback raises at none of the calls from `from` on. */
  ghost predicate NeverRaises(raises: nat -> bool, from: nat) {
    forall n :: n >= from ==> !raises(n)
  }

  class Allocator {
    const dev: Device
    const granularity: nat
    const env: Option<nat>
    /** Whether the n-th call of the malloc callback raises. */
    const raises: nat -> bool
    var callbacks: nat
    var table: Table
    /** The first event that put the books at odds with the device, if any. */
    var cause: Cause

    ghost predicate Valid()
      reads this, dev
    {
      && 0 < granularity < TWO_TO_64 && (env.Some? ==> env.value < TWO_TO_64)
      && cause == Nothing && dev.clean && !dev.misused && Good(dev.m, table)
    }

    /** No driver call will fail and no callback raise. */
    ghost predicate Untroubled()
      reads this, dev
    {
      dev.Calmly() && dev.Steadily() && NeverRaises(raises, callbacks)
    }

    /** A positive size for which no rounding wraps. */
    ghost predicate Plain(size: nat)
      requires 0 < granularity < TWO_TO_64 && (env.Some? ==> env.value < TWO_TO_64)
    {
      && 0 < size && size + granularity - 1 < TWO_TO_64 && ChunkSize(env) + granularity - 1 < TWO_TO_64
      && RoundUp(size, granularity) + RoundUp(ChunkSize(env), granularity) - 1 < TWO_TO_64
    }

    constructor (granularity: nat, env: Option<nat>, replies: nat -> Reply, teardowns: nat -> int, raises: nat -> bool)
      requires 0 < granularity < TWO_TO_64 && (env.Some? ==> env.value < TWO_TO_64)
      ensures Valid() && fresh(dev) && table == map[] && dev.errorCode == 0
      ensures this.granularity == granularity && this.env == env
      ensures Calm(replies, 0) && Steady(teardowns, 0) && NeverRaises(raises, 0) ==> Untroubled()
    {
      this.granularity, this.env, this.raises := granularity, env, raises;
      callbacks, table, cause := 0, map[], Nothing;
      dev := new Device(replies, teardowns);
    }

    /** `my_malloc`. While an error is pending it does nothing and returns null, and
        it never clears the error. A pointer comes with a range of its own, aligned,
        large enough by less than one granule, and fully mapped; a plain size gets
        one whenever no driver call fails and the callback does not raise. Null
        without a named cause means nothing changed. */
    method Malloc(size: nat) returns (r: Pointer)
      requires Valid() && size < TWO_TO_64
      modifies this, dev
      ensures old(Untroubled()) ==> Untroubled()
      ensures old(dev.Steadily()) ==> dev.Steadily() && !cause.Teardown?
      ensures old(Untroubled()) && Plain(size) && old(dev.errorCode) == 0 ==> cause == Nothing && r.Address?
      ensures cause == Nothing ==> Valid()
      ensures old(dev.errorCode) != 0 ==> r == Null && cause == Nothing && dev.errorCode != 0
      ensures cause == Nothing && r == Null ==> dev.errorCode != 0 && table == old(table) && dev.m == old(dev.m)
      ensures cause == Nothing && r.Address? ==> dev.errorCode == 0 && r.addr !in old(table) && r.addr % granularity == 0
      ensures cause == Nothing && r.Address? ==>
        r.addr in table && table == old(table)[r.addr := table[r.addr]] && !table[r.addr].asleep && Fits(table[r.addr], size, granularity, ChunkSize(env))
      ensures cause == Nothing && r.Address? ==> RoundUp(size, granularity) + RoundUp(ChunkSize(env), granularity) - 1 < TWO_TO_64
      ensures r == Crash <==> cause == DivideByZero
      ensures cause == DivideByZero ==> ChunkSize(env) + granularity - 1 >= TWO_TO_64
      ensures cause.NoChunks? ==> RoundUp(size, granularity) + RoundUp(ChunkSize(env), granularity) - 1 >= TWO_TO_64
      ensures cause.NoChunks? ==> Unchunked(old(dev.m), old(table), cause.ptr, RoundUp(size, granularity), r)
      ensures cause.LostReservation? ==> cause.ptr in dev.m.reserved && cause.ptr !in table
      ensures cause.StaleEntry? ==> cause.ptr in table && cause.ptr !in dev.m.reserved
      ensures cause.Unfreeable? ==> cause.ptr in dev.m.reserved && dev.misused
      ensures cause.Teardown? <==> !dev.clean
      ensures !cause.WrongSize? && !cause.LostPlaceholder? && !cause.LeakedHandle? && !cause.MappedAsleep?
    {
      hide Good, Tiles, CanReserve, RoundUp, ChunkSize, ChunkCount, Calm, Steady, Unchunked, Cut, LeastMultiple;
      dev.EnsureContext();
      var status := dev.Query();
      dev.Check(status);
      if dev.errorCode != 0 { return Null; }
      var aligned, chunk := Measure(size);
      var p;
      status, p := dev.ReserveAddress(aligned, granularity, 0);
      dev.Check(status);
      if dev.errorCode != 0 {
        if !dev.clean { cause := Teardown; }
        return Null;
      }
      ReservedFacts(old(dev.m), p, aligned, granularity);
      r := Furnish(p, aligned, chunk, old(dev.m));
      if cause == Nothing { CutIs(table[p].sizes, chunk, granularity, ChunkSize(env)); }
    }

    /** From the reserved range on: plan the chunks, call back, map. */
    method Furnish(p: nat, aligned: nat, chunk: nat, ghost before: Memory) returns (r: Pointer)
      requires 0 < granularity < TWO_TO_64 && (env.Some? ==> env.value < TWO_TO_64)
      requires cause == Nothing && dev.clean && !dev.misused && dev.errorCode == 0 && Good(before, table)
      requires CanReserve(before, p, aligned, granularity) && dev.m == before.(reserved := before.reserved[p := aligned])
      requires aligned < TWO_TO_64 && chunk < TWO_TO_64 && aligned % granularity == 0 && chunk % granularity == 0
      modifies this, dev
      ensures old(Untroubled()) ==> Untroubled()
      ensures old(dev.Steadily()) ==> dev.Steadily() && !cause.Teardown?
      ensures old(Untroubled()) && chunk > 0 && aligned + chunk - 1 < TWO_TO_64 ==> cause == Nothing
      ensures cause == Nothing ==> Valid() && r == Address(p) && dev.errorCode == 0 && p !in old(table) && p in table
      ensures cause == Nothing ==> table == old(table)[p := table[p]] && !table[p].asleep && table[p].size == aligned
      ensures cause == Nothing ==> forall i :: 0 <= i < |table[p].sizes| ==> table[p].sizes[i] % granularity == 0
      ensures cause == Nothing ==> chunk > 0 && Cut(table[p].sizes, chunk) && aligned + chunk - 1 < TWO_TO_64
      ensures r == Crash <==> cause == DivideByZero
      ensures cause == DivideByZero ==> chunk == 0
      ensures cause.NoChunks? ==> aligned + chunk - 1 >= TWO_TO_64 && Unchunked(before, old(table), cause.ptr, aligned, r)
      ensures cause.LostReservation? ==> cause.ptr in dev.m.reserved && cause.ptr !in table
      ensures cause.StaleEntry? ==> cause.ptr in table && cause.ptr !in dev.m.reserved
      ensures cause.Unfreeable? ==> cause.ptr in dev.m.reserved && dev.misused
      ensures cause.Teardown? <==> !dev.clean
      ensures !cause.WrongSize? && !cause.LostPlaceholder? && !cause.LeakedHandle? && !cause.MappedAsleep?
    {
      hide Good, Tiles, CanReserve, Calm, Steady, Unchunked;
      ReservedFacts(before, p, aligned, granularity);
      BooksCover(before, table);
      if chunk == 0 {
        cause := DivideByZero;
        return Crash;
      }
      var sizes := Chop(aligned, chunk);
      var raised := raises(callbacks);
      callbacks := callbacks + 1;
      if raised {
        cause := LostReservation(p);
        return Null;
      }
      r := Populate(p, aligned, sizes, before);
    }

    /** The callback's entry, and the mapping behind it. */
    method Populate(p: nat, aligned: nat, sizes: seq<nat>, ghost before: Memory) returns (r: Pointer)
      requires 0 < granularity < TWO_TO_64 && (env.Some? ==> env.value < TWO_TO_64)
      requires cause == Nothing && dev.clean && !dev.misused && dev.errorCode == 0 && Good(before, table)
      requires CanReserve(before, p, aligned, granularity) && dev.m == before.(reserved := before.reserved[p := aligned])
      requires sizes != [] ==> Tiles(sizes, aligned)
      modifies this`table, this`cause, dev
      ensures old(dev.Calmly()) ==> dev.Calmly() && (sizes != [] ==> cause == Nothing)
      ensures old(dev.Steadily()) ==> dev.Steadily() && dev.clean
      ensures p !in old(table) && p in table && table == old(table)[p := Entry(aligned, sizes, table[p].handles, false)]
      ensures cause == Nothing ==> Valid() && r == Address(p) && dev.errorCode == 0
      ensures cause == Nothing || cause == Teardown || cause == StaleEntry(p) || cause == Unfreeable(p) || cause == NoChunks(p)
      ensures cause == Nothing ==> sizes != []
      ensures cause.NoChunks? ==> sizes == [] && Unchunked(before, old(table), p, aligned, r)
      ensures r != Crash
      ensures cause.StaleEntry? ==> p !in dev.m.reserved
      ensures cause.Unfreeable? ==> p in dev.m.reserved && dev.misused
      ensures cause.Teardown? <==> !dev.clean
    {
      hide Good, Tiles, CanReserve, Calm, Steady, Unchunked;
      ReservedFacts(before, p, aligned, granularity);
      BooksCover(before, table);
      table := table[p := Entry(aligned, sizes, [], false)];
      if sizes == [] {
        r := MapNothing(p, aligned, before, old(table));
        return;
      }
      ReserveKeeps(before, old(table), p, Entry(aligned, sizes, [], true), granularity);
      assert table[p := Entry(aligned, sizes, [], true)] == old(table)[p := Entry(aligned, sizes, [], true)];
      r := MapNew(p, aligned, sizes);
    }

    /** What a malloc whose chunk count wrapped to 0 leaves behind: an entry without
        chunks, and nothing created or mapped. With a pointer the range is handed
        out unmapped; with null it has been given back. */
    ghost predicate Unchunked(m: Memory, t: Table, p: nat, size: int, r: Pointer)
      reads this, dev
    {
      && p !in m.reserved && p in table && table[p].size == size && table == t[p := Entry(table[p].size, [], [], false)]
      && (r == Address(p) || r == Null)
      && (r == Address(p) ==> dev.errorCode == 0 && dev.m == m.(reserved := m.reserved[p := table[p].size]))
      && (r == Null ==> dev.errorCode != 0 && dev.m == m)
    }

    /** The end of `my_malloc` for an empty list of chunks: only access is set. */
    method MapNothing(p: nat, aligned: nat, ghost before: Memory, ghost t: Table) returns (r: Pointer)
      requires cause == Nothing && dev.clean && !dev.misused && dev.errorCode == 0
      requires CanReserve(before, p, aligned, granularity) && dev.m == before.(reserved := before.reserved[p := aligned])
      requires table == t[p := Entry(aligned, [], [], false)]
      modifies this`cause, dev
      ensures old(dev.Steadily()) ==> dev.Steadily() && dev.clean
      ensures old(dev.Calmly()) ==> dev.Calmly()
      ensures (cause == NoChunks(p) && dev.clean) || (cause == Teardown && !dev.clean)
      ensures r != Crash
      ensures dev.clean ==> Unchunked(before, t, p, aligned, r)
    {
      hide Unmapped, Filled, CanReserve, Calm, Steady;
      ReservedFacts(before, p, aligned, granularity);
      NothingThere(before, p, aligned, granularity);
      var _, _, _, _ := dev.CreateAndMap(p, []);
      if dev.errorCode != 0 {
        var status := dev.AddressFree(p, aligned);
        dev.Check(status);
        r := Null;
      } else {
        r := Address(p);
      }
      cause := if dev.clean then NoChunks(p) else Teardown;
    }

    /** The size of the reservation and of its chunks. */
    method Measure(size: nat) returns (aligned: nat, chunk: nat)
      requires 0 < granularity < TWO_TO_64 && (env.Some? ==> env.value < TWO_TO_64) && size < TWO_TO_64
      ensures aligned == RoundUp(size, granularity) && chunk == RoundUp(ChunkSize(env), granularity)
      ensures aligned < TWO_TO_64 && aligned % granularity == 0 && (aligned > 0 ==> size <= aligned < size + granularity)
      ensures chunk > 0 ==> LeastMultiple(chunk, granularity, ChunkSize(env))
      ensures chunk < TWO_TO_64 && chunk % granularity == 0 && (chunk == 0 <==> ChunkSize(env) + granularity - 1 >= TWO_TO_64)
      ensures size == 0 ==> aligned == 0
      ensures size > 0 && size + granularity - 1 < TWO_TO_64 ==> aligned > 0
    {
      hide RoundUp, ChunkSize;
      RoundUpExact(size, granularity);
      RoundUpExact(ChunkSize(env), granularity);
      aligned, chunk := RoundUp(size, granularity), RoundUp(ChunkSize(env), granularity);
    }

    method Chop(aligned: nat, chunk: nat) returns (sizes: seq<nat>)
      requires 0 < granularity && 0 < aligned < TWO_TO_64 && 0 < chunk < TWO_TO_64
      requires aligned % granularity == 0 && chunk % granularity == 0
      ensures if sizes == [] then aligned + chunk - 1 >= TWO_TO_64 else Tiles(sizes, aligned) && Cut(sizes, chunk) && aligned + chunk - 1 < TWO_TO_64
      ensures forall i :: 0 <= i < |sizes| ==> sizes[i] % granularity == 0
    {
      sizes := PlanChunks(aligned, chunk);
      ChunksAreMultiples(aligned, chunk, sizes, granularity);
    }

    /** The end of `my_malloc`: map the reserved range, or give it back. */
    method MapNew(p: nat, aligned: nat, sizes: seq<nat>) returns (r: Pointer)
      requires 0 < granularity < TWO_TO_64 && (env.Some? ==> env.value < TWO_TO_64)
      requires cause == Nothing && dev.clean && !dev.misused && dev.errorCode == 0
      requires p in table && table[p] == Entry(aligned, sizes, [], false)
      requires Good(dev.m, table[p := Entry(aligned, sizes, [], true)])
      modifies this`table, this`cause, dev
      ensures old(dev.Steadily()) ==> dev.Steadily() && dev.clean
      ensures old(dev.Calmly()) ==> dev.Calmly() && cause == Nothing
      ensures cause == Nothing ==> Valid() && r == Address(p) && dev.errorCode == 0
      ensures p in table && table == old(table)[p := Entry(aligned, sizes, table[p].handles, false)]
      ensures cause == Nothing || cause == Teardown || cause == StaleEntry(p) || cause == Unfreeable(p)
      ensures cause != Nothing ==> r == Null && dev.errorCode != 0
      ensures cause.StaleEntry? ==> p !in dev.m.reserved
      ensures cause.Unfreeable? ==> p in dev.m.reserved && dev.misused
      ensures cause.Teardown? <==> !dev.clean
    {
      hide Good, Tiles, Filled, Unmapped, Calm, Steady;
      ghost var placed := table[p := Entry(aligned, sizes, [], true)];
      PlaceholderReady(dev.m, placed, p);
      ghost var was := dev.m;
      var hs, pending, leak, noAccess := dev.CreateAndMap(p, sizes);
      if dev.errorCode != 0 {
        if noAccess { MappedIsNotFree(was, dev.m, p, sizes, hs); }
        var status := dev.AddressFree(p, aligned);
        dev.Check(status);
        cause := if !dev.clean then Teardown else if noAccess then Unfreeable(p) else StaleEntry(p);
        return Null;
      }
      WakeKeeps(was, placed, p, dev.m, hs);
      table := table[p := Entry(aligned, sizes, hs, false)];
      assert table == placed[p := placed[p].(handles := hs, asleep := false)];
      r := Address(p);
    }

    /** `my_free`. An unknown pointer changes nothing. Otherwise the allocation is
        gone, chunks and address, unless the caller's size is not the reserved one:
        then the address stays reserved for good. */
    method Free(ptr: nat, size: nat)
      requires Valid()
      modifies this, dev
      ensures old(Untroubled()) ==> Untroubled()
      ensures old(dev.Steadily()) ==> dev.Steadily() && !cause.Teardown?
      ensures old(Untroubled()) && old(dev.errorCode) == 0 && (ptr in old(table) ==> size == old(table)[ptr].size) ==>
        cause == Nothing && dev.errorCode == 0
      ensures cause == Nothing ==> Valid() && table == old(table) - {ptr}
      ensures ptr !in old(table) ==> cause == Nothing && dev.m == old(dev.m) && dev.errorCode == old(dev.errorCode)
      ensures cause == Nothing || cause == Teardown || cause == WrongSize(ptr)
      ensures cause == Teardown <==> !dev.clean
      ensures dev.clean && ptr in old(table) ==> (cause.WrongSize? <==> size != old(table)[ptr].size)
      ensures cause.WrongSize? ==> ptr in dev.m.reserved && ptr !in table && dev.misused
      ensures old(dev.errorCode) != 0 ==> dev.errorCode != 0
    {
      hide Good, Tiles, Held, Starts, Calm, Steady, FirstError;
      if ptr !in table { return; }
      var e := table[ptr];
      ghost var slept := table[ptr := e.(asleep := true)];
      EntryFacts(dev.m, table, ptr);
      table := table - {ptr};
      if !e.asleep {
        SleepKeeps(dev.m, old(table), ptr);
        var _ := dev.UnmapAndRelease(ptr, e.sizes, e.handles);
      } else {
        assert slept == old(table);
      }
      if dev.clean { DropKeeps(dev.m, slept, ptr); EntryFacts(dev.m, slept, ptr); }
      assert slept - {ptr} == table;
      var status := dev.AddressFree(ptr, size);
      dev.Check(status);
      cause := if !dev.clean then Teardown else if size != e.size then WrongSize(ptr) else Nothing;
    }

    /** `python_unmap_and_release`, and the flag the caller sets whatever happens.
        The chunks go, and the address stays: given back to the driver and reserved
        again at the same place, so that no memory sits there, or simply kept, with
        its memory, when an error was pending. It succeeds whenever no error is
        pending and no driver call fails. */
    method Sleep(ptr: nat) returns (ok: bool)
      requires Valid() && ptr in table && !table[ptr].asleep
      modifies this, dev
      ensures old(Untroubled()) ==> Untroubled()
      ensures old(dev.Steadily()) ==> dev.Steadily() && !cause.Teardown?
      ensures old(Untroubled()) && old(dev.errorCode) == 0 ==> ok
      ensures dev.errorCode == 0 && table == old(table)[ptr := old(table)[ptr].(asleep := true)]
      ensures cause == Nothing ==> Valid() && dev.m == Emptied(old(dev.m), ptr, table[ptr].sizes, table[ptr].handles)
      ensures cause == Nothing || cause == Teardown || cause == LostPlaceholder(ptr)
      ensures cause == Teardown <==> !dev.clean
      ensures cause.LostPlaceholder? ==> !ok && ptr !in dev.m.reserved
      ensures ok ==> Outside(dev.resident, ptr, table[ptr].size) == dev.resident
      ensures ok ==> cause == Nothing && old(dev.errorCode) == 0
      ensures old(dev.errorCode) != 0 && dev.clean ==> cause == Nothing
    {
      hide Good, Tiles, Held, Starts, Unmapped, Calm, Steady, FirstError, CanReserve;
      var e := table[ptr];
      EntryFacts(dev.m, table, ptr);
      SleepKeeps(dev.m, table, ptr);
      table := table[ptr := e.(asleep := true)];
      var _ := dev.UnmapAndRelease(ptr, e.sizes, e.handles);
      if dev.clean {
        DropKeeps(dev.m, table, ptr);
        DroppedCanReserve(dev.m, table, ptr);
      }
      ghost var slept := dev.m;
      if dev.errorCode == 0 { Reclaim(ptr, e.size); }
      ok := dev.errorCode == 0;
      cause := if !dev.clean then Teardown else if ptr !in dev.m.reserved then LostPlaceholder(ptr) else Nothing;
      dev.errorCode := 0;
      assert slept.reserved == old(dev.m.reserved);
    }

    /** Free the address, so that the driver gives up the memory, and take it back. */
    method Reclaim(ptr: nat, size: nat)
      requires dev.errorCode == 0
      modifies dev
      ensures old(dev.Steadily()) ==> dev.Steadily() && dev.clean == old(dev.clean)
      ensures old(dev.Calmly()) ==> dev.Calmly()
      ensures old(dev.Calmly()) && old(dev.Steadily()) && old(dev.clean) && old(CanGoAround(dev.m, ptr, size)) ==> dev.errorCode == 0
      ensures (dev.clean ==> old(dev.clean)) && (dev.errorCode == 0 ==> dev.clean == old(dev.clean))
      ensures dev.clean && old(CanFree(dev.m, ptr, size)) ==> dev.misused == old(dev.misused)
      ensures dev.clean && old(CanFree(dev.m, ptr, size)) ==>
        dev.m == if dev.errorCode == 0 then old(dev.m) else old(dev.m).(reserved := old(dev.m.reserved) - {ptr})
      ensures dev.errorCode == 0 ==> Outside(dev.resident, ptr, size) == dev.resident
    {
      hide Unmapped, CanReserve, Calm, Steady;
      ghost var was := dev.m;
      if CanGoAround(was, ptr, size) { ReservedFacts(was.(reserved := was.reserved - {ptr}), ptr, size, 0); }
      var status := dev.AddressFree(ptr, size);
      dev.Check(status);
      if dev.errorCode == 0 {
        var reserved;
        status, reserved := dev.ReserveAddress(size, 0, ptr);
        if status == 0 { ReservedFacts(was.(reserved := was.reserved - {ptr}), reserved, size, 0); }
        dev.Check(status);
        if dev.errorCode == 0 && reserved != ptr {
          FreshCanFree(was, ptr, reserved, size);
          var _ := dev.AddressFree(reserved, size);
          dev.errorCode := 1;
        } else if dev.errorCode == 0 {
          RemoveThenAdd(was.reserved, ptr, size);
        }
      }
    }

    /** `python_create_and_map`, and the flag the caller clears when it returns. On
        success the same address holds the same chunk layout, in new chunks; on
        failure nothing changed, but for a chunk lost to a pending error or a
        range left mapped without access. It succeeds whenever no error is pending
        and no driver call fails. */
    method Wake(ptr: nat) returns (ok: bool)
      requires Valid() && ptr in table && table[ptr].asleep
      modifies this, dev
      ensures old(Untroubled()) ==> Untroubled()
      ensures old(dev.Steadily()) ==> dev.Steadily() && !cause.Teardown?
      ensures old(dev.Calmly()) && old(dev.errorCode) == 0 ==> ok
      ensures dev.errorCode == 0 && dev.m.reserved == old(dev.m.reserved)
      ensures cause == Nothing ==> Valid()
      ensures cause == Nothing && ok ==>
        ptr in table && table == old(table)[ptr := old(table)[ptr].(handles := table[ptr].handles, asleep := false)]
      ensures !ok ==> table == old(table) && (cause == Nothing ==> dev.m == old(dev.m))
      ensures cause == Nothing || cause == Teardown || cause == MappedAsleep(ptr) || cause.LeakedHandle?
      ensures cause == Teardown <==> !dev.clean
      ensures ok ==> cause == Nothing && old(dev.errorCode) == 0
      ensures cause.LeakedHandle? ==> !ok && dev.m.handles.Keys == old(dev.m.handles.Keys) + {cause.handle} && cause.handle !in old(dev.m.handles)
      ensures cause.MappedAsleep? ==> !ok && table == old(table) && !Unmapped(dev.m.mapped, ptr, table[ptr].size)
    {
      hide Good, Tiles, Filled, Unmapped, Calm, Steady;
      var e := table[ptr];
      EntryFacts(dev.m, table, ptr);
      PlaceholderReady(dev.m, table, ptr);
      var hs, pending, leak, noAccess := dev.CreateAndMap(ptr, e.sizes);
      ok := dev.errorCode == 0;
      dev.errorCode := 0;
      if noAccess { MappedIsNotFree(old(dev.m), dev.m, ptr, e.sizes, hs); }
      if ok {
        WakeKeeps(old(dev.m), table, ptr, dev.m, hs);
        table := table[ptr := e.(handles := hs, asleep := false)];
      }
      cause := if !dev.clean then Teardown else if noAccess then MappedAsleep(ptr) else if leak.Some? then LeakedHandle(leak.value) else Nothing;
    }

    // ---- All allocations at once ----------------------------------------------------------------

    /** `sleep` over the whole table. If it gets through, and it does whenever no
        error is pending and no driver call fails, no physical memory is held, and
        every address, size and chunk layout is what it was. */
    method SleepAll() returns (ok: bool)
      requires Valid()
      modifies this, dev
      ensures old(Untroubled()) ==> Untroubled()
      ensures old(Untroubled()) && old(dev.errorCode) == 0 ==> ok && cause == Nothing && dev.errorCode == 0
      ensures SameLayout(old(table), table)
      ensures cause == Nothing ==> Valid() && dev.m.reserved == old(dev.m.reserved)
      ensures cause == Nothing && ok ==> dev.m.handles == map[] && dev.m.mapped == map[]
    {
      hide Good, Calm, Steady, NeverRaises;
      var todo := table.Keys;
      while todo != {}
        invariant todo <= table.Keys && SameLayout(old(table), table)
        invariant Valid() && dev.m.reserved == old(dev.m.reserved)
        invariant old(Untroubled()) ==> Untroubled()
        invariant old(dev.errorCode) == 0 ==> dev.errorCode == 0
        invariant forall p :: p in table && p !in todo ==> table[p].asleep
        decreases |todo|
      {
        var p :| p in todo;
        todo := todo - {p};
        if !table[p].asleep {
          ok := Sleep(p);
          if !ok { return; }
        }
      }
      AsleepHoldsNothing(dev.m, table);
      ok := true;
    }

    /** `wake_up` over the chosen pointers: if it gets through, and it does whenever no
        error is pending and no driver call fails, all of them are awake again at
        the same address in the same chunk layout. */
    method WakeAll(chosen: set<nat>) returns (ok: bool)
      requires Valid()
      modifies this, dev
      ensures old(Untroubled()) ==> Untroubled()
      ensures old(Untroubled()) && old(dev.errorCode) == 0 ==> ok && dev.errorCode == 0
      ensures dev.m.reserved == old(dev.m.reserved) && SameLayout(old(table), table)
      ensures cause == Nothing ==> Valid()
      ensures ok ==> cause == Nothing && forall p :: p in table && p in chosen ==> !table[p].asleep
      ensures forall p :: p in old(table) && p !in chosen ==> p in table && table[p] == old(table)[p]
    {
      hide Good, Calm, Steady, NeverRaises;
      var todo := table.Keys;
      while todo != {}
        invariant todo <= table.Keys && SameLayout(old(table), table)
        invariant Valid() && dev.m.reserved == old(dev.m.reserved)
        invariant old(Untroubled()) ==> Untroubled()
        invariant old(dev.errorCode) == 0 ==> dev.errorCode == 0
        invariant forall p :: p in table && p in chosen && p !in todo ==> !table[p].asleep
        invariant forall p :: p in old(table) && p !in chosen ==> p in table && table[p] == old(table)[p]
        decreases |todo|
      {
        var p :| p in todo;
        todo := todo - {p};
        if table[p].asleep && p in chosen {
          ok := Wake(p);
          if !ok { return; }
        }
      }
      ok := true;
    }

    // ---- Runs -------------------------------------------------------------------------------------

    /** A request after which nothing can be wrong but by a failing call: a plain
        size, and a free with the size that was reserved. */
    ghost predicate Proper(request: Request)
      requires 0 < granularity < TWO_TO_64 && (env.Some? ==> env.value < TWO_TO_64)
    {
      match request
      case DoMalloc(size) => size < TWO_TO_64 && Plain(size)
      case DoFree(_, other) => other.None?
      case _ => true
    }

    /** What a request does to the table: a new awake allocation that fits, one less,
        one asleep, one awake again with the same chunks. A sleep or wake of a
        pointer that is not there, or is already so, does nothing. */
    ghost predicate Effect(t: Table, request: Request, u: Table)
      requires granularity > 0 && (env.Some? ==> env.value < TWO_TO_64)
    {
      match request
      case DoMalloc(size) =>
        exists p :: p in u && p !in t && u == t[p := u[p]] && !u[p].asleep && Fits(u[p], size, granularity, ChunkSize(env))
      case DoFree(ptr, _) => u == t - {ptr}
      case DoSleep(ptr) => u == if ptr in t then t[ptr := t[ptr].(asleep := true)] else t
      case DoWake(ptr) =>
        if ptr in t && t[ptr].asleep then ptr in u && u == t[ptr := t[ptr].(handles := u[ptr].handles, asleep := false)]
        else u == t
    }

    /** Any sequence of requests, up to the first event that has a name. Before each
        request that is served, the books agree with the device. Whatever the
        requests, an allocation nobody frees keeps its address, size and chunk
        layout. And if no driver call fails, no callback raises, no error was
        pending and all requests are proper, then no event happens: every request
        is served and does exactly what it should. */
    method Serve(requests: seq<Request>) returns (served: nat, ghost tables: seq<Table>, ghost memories: seq<Memory>)
      requires Valid()
      modifies this, dev
      ensures served <= |requests| && (served < |requests| ==> cause != Nothing)
      ensures |tables| == |memories| == served + 1 && tables[0] == old(table) && tables[served] == table && memories[served] == dev.m
      ensures forall i :: 0 <= i < served ==> Good(memories[i], tables[i])
      ensures cause == Nothing ==> Valid()
      ensures cause == Nothing ==> forall p :: p in old(table) && !Frees(requests, p) ==> p in table && SameChunks(old(table)[p], table[p])
      ensures old(Untroubled()) && old(dev.errorCode) == 0 && (forall i :: 0 <= i < |requests| ==> Proper(requests[i])) ==>
        cause == Nothing && forall i :: 0 <= i < served ==> Effect(tables[i], requests[i], tables[i+1])
    {
      hide Good, Calm, Steady, NeverRaises, Proper, Effect;
      served, tables, memories := 0, [table], [dev.m];
      ghost var proper := old(Untroubled()) && old(dev.errorCode) == 0 && forall i :: 0 <= i < |requests| ==> Proper(requests[i]);
      while served < |requests| && cause == Nothing
        invariant served <= |requests|
        invariant |tables| == |memories| == served + 1 && tables[0] == old(table) && tables[served] == table && memories[served] == dev.m
        invariant forall i :: 0 <= i < served ==> Good(memories[i], tables[i])
        invariant cause == Nothing ==> Valid()
        invariant cause == Nothing ==>
          forall p :: p in old(table) && !Frees(requests, p) ==> p in table && SameChunks(old(table)[p], table[p])
        invariant proper ==> Untroubled() && dev.errorCode == 0 && cause == Nothing
        invariant proper ==> forall i :: 0 <= i < served ==> Effect(tables[i], requests[i], tables[i+1])
        decreases |requests| - served
      {
        ServeOne(requests[served]);
        tables, memories := tables + [table], memories + [dev.m];
        served := served + 1;
      }
    }

    method ServeOne(request: Request)
      requires Valid()
      modifies this, dev
      ensures cause == Nothing ==> Valid()
      ensures old(Untroubled()) ==> Untroubled()
      ensures old(Untroubled()) && old(dev.errorCode) == 0 && Proper(request) ==>
        cause == Nothing && dev.errorCode == 0 && Effect(old(table), request, table)
      ensures cause == Nothing ==>
        forall p :: p in old(table) && !(request.DoFree? && request.ptr == p) ==> p in table && SameChunks(old(table)[p], table[p])
    {
      hide Good, Calm, Steady, NeverRaises, ChunkSize, RoundUp;
      match request {
        case DoMalloc(size) => if size < TWO_TO_64 { var _ := Malloc(size); }
        case DoFree(ptr, other) =>
          var size := if other.Some? then other.value else if ptr in table then table[ptr].size else 0;
          Free(ptr, size);
        case DoSleep(ptr) =>
          if ptr in table && !table[ptr].asleep { var _ := Sleep(ptr); }
          else { assert ptr in table ==> table[ptr := table[ptr].(asleep := true)] == table; }
        case DoWake(ptr) => if ptr in table && table[ptr].asleep { var _ := Wake(ptr); }
      }
    }
  }
}
