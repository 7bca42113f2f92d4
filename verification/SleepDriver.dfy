/** The device driver as the sleep-mode allocator sees it: any call may fail and
    then changes nothing, a call that makes no sense always fails; and the two
    helpers that map and unmap the chunks of one allocation through it. */
module SleepDriver {
  import opened Arithmetic
  import opened Wrappers
  import opened SleepChunks

  /** `size` bytes of a physical chunk, at some address. */
  datatype Mapping = Mapping(size: nat, handle: nat)

  /** Reserved address ranges, physical chunks, and where chunks are mapped. */
  datatype Memory = Memory(reserved: map<nat, nat>, handles: map<nat, nat>, mapped: map<nat, Mapping>)

  // ---- Which calls make sense -----------------------------------------------------------------

  /** No mapping touches `size` bytes from `base`. */
  predicate Unmapped(mapped: map<nat, Mapping>, base: nat, size: nat) {
    forall a :: a in mapped ==> (a < base && a + mapped[a].size <= base) || base + size <= a
  }

  predicate Inside(reserved: map<nat, nat>, addr: nat, size: nat) {
    exists r :: r in reserved && r <= addr && addr + size <= r + reserved[r]
  }

  predicate CanMap(m: Memory, addr: nat, size: nat, handle: nat) {
    size > 0 && handle in m.handles && Inside(m.reserved, addr, size) && Unmapped(m.mapped, addr, size)
  }

  predicate CanUnmap(m: Memory, addr: nat, size: nat) {
    addr in m.mapped && m.mapped[addr].size == size
  }

  predicate CanFree(m: Memory, addr: nat, size: nat) {
    addr in m.reserved && m.reserved[addr] == size && Unmapped(m.mapped, addr, size)
  }

  /** A range the driver may hand out: unused and aligned. */
  predicate CanReserve(m: Memory, addr: nat, size: nat, alignment: nat) {
    && addr > 0 && size > 0 && addr !in m.reserved
    && (alignment > 0 ==> addr % alignment == 0)
    && (forall r :: r in m.reserved ==> r + m.reserved[r] <= addr || addr + size <= r)
    && Unmapped(m.mapped, addr, size)
  }

  // ---- Chunks of one allocation ---------------------------------------------------------------

  predicate Distinct(hs: seq<nat>) {
    forall i, j :: 0 <= i < j < |hs| ==> hs[i] != hs[j]
  }

  function Members(hs: seq<nat>): set<nat> { set h | h in hs }

  /** Where the first `n` chunks start. */
  function Starts(base: nat, sizes: seq<nat>, n: nat): set<nat>
    requires n <= |sizes|
  {
    if n == 0 then {} else Starts(base, sizes, n - 1) + {base + Offset(sizes, n - 1)}
  }

  lemma {:induction false} StartIndex(base: nat, sizes: seq<nat>, n: nat, a: nat) returns (i: nat)
    requires n <= |sizes| && a in Starts(base, sizes, n)
    ensures i < n && a == base + Offset(sizes, i)
  {
    i := n - 1;
    if a != base + Offset(sizes, i) { i := StartIndex(base, sizes, n - 1, a); }
  }

  /** Positive chunks start at different addresses. */
  lemma StartIsNew(base: nat, sizes: seq<nat>, n: nat)
    requires n < |sizes| && forall i :: 0 <= i < |sizes| ==> sizes[i] > 0
    ensures base + Offset(sizes, n) !in Starts(base, sizes, n)
  {
    if base + Offset(sizes, n) in Starts(base, sizes, n) {
      var i := StartIndex(base, sizes, n, base + Offset(sizes, n));
      OffsetGrows(sizes, i, n);
    }
  }

  /** `after` is `before` and one new physical chunk for each of the sizes. */
  predicate HandlesAdded(before: map<nat, nat>, after: map<nat, nat>, sizes: seq<nat>, hs: seq<nat>) {
    && |hs| <= |sizes| && Distinct(hs)
    && after.Keys == before.Keys + Members(hs)
    && (forall h :: h in before ==> h in after && after[h] == before[h])
    && (forall i :: 0 <= i < |hs| ==> hs[i] !in before && hs[i] in after && after[hs[i]] == sizes[i])
  }

  /** `after` is `before` and the first `n` chunks mapped one after the other from `base`. */
  predicate MapsAdded(before: map<nat, Mapping>, after: map<nat, Mapping>, base: nat, sizes: seq<nat>, hs: seq<nat>, n: nat) {
    && n <= |hs| == |sizes|
    && after.Keys == before.Keys + Starts(base, sizes, n)
    && (forall a :: a in before ==> a in after && after[a] == before[a])
    && (forall i {:trigger Offset(sizes, i)} :: 0 <= i < n ==>
          base + Offset(sizes, i) !in before && base + Offset(sizes, i) in after
          && after[base + Offset(sizes, i)] == Mapping(sizes[i], hs[i]))
  }

  /** The allocation is fully mapped by live, distinct chunks. */
  predicate Held(m: Memory, base: nat, sizes: seq<nat>, hs: seq<nat>) {
    && |hs| == |sizes| && Distinct(hs) && (forall i :: 0 <= i < |sizes| ==> sizes[i] > 0)
    && (forall i :: 0 <= i < |hs| ==> hs[i] in m.handles && m.handles[hs[i]] == sizes[i])
    && (forall i {:trigger Offset(sizes, i)} :: 0 <= i < |hs| ==>
          base + Offset(sizes, i) in m.mapped && m.mapped[base + Offset(sizes, i)] == Mapping(sizes[i], hs[i]))
  }

  predicate MapsPresent(mapped: map<nat, Mapping>, base: nat, sizes: seq<nat>, n: nat) {
    && n <= |sizes| && (forall i :: 0 <= i < |sizes| ==> sizes[i] > 0)
    && (forall i {:trigger Offset(sizes, i)} :: 0 <= i < n ==>
          base + Offset(sizes, i) in mapped && mapped[base + Offset(sizes, i)].size == sizes[i])
  }

  predicate HandlesPresent(handles: map<nat, nat>, hs: seq<nat>) {
    Distinct(hs) && forall i :: 0 <= i < |hs| ==> hs[i] in handles
  }

  /** The memory without the chunks of one allocation. */
  function Emptied(m: Memory, base: nat, sizes: seq<nat>, hs: seq<nat>): Memory {
    Memory(m.reserved, m.handles - Members(hs), m.mapped - Starts(base, sizes, |sizes|))
  }

  /** The memory with them. */
  ghost predicate Filled(before: Memory, after: Memory, base: nat, sizes: seq<nat>, hs: seq<nat>) {
    && after.reserved == before.reserved
    && HandlesAdded(before.handles, after.handles, sizes, hs)
    && MapsAdded(before.mapped, after.mapped, base, sizes, hs, |sizes|)
  }

  /** Unmapping and releasing undoes creating and mapping. */
  lemma FillThenEmpty(before: Memory, after: Memory, base: nat, sizes: seq<nat>, hs: seq<nat>)
    requires Filled(before, after, base, sizes, hs) && (forall i :: 0 <= i < |sizes| ==> sizes[i] > 0)
    ensures Held(after, base, sizes, hs) && Emptied(after, base, sizes, hs) == before
  {
    MapsUndone(before.mapped, after.mapped, base, sizes, hs, |sizes|);
    assert after.handles - Members(hs) == before.handles;
  }

  lemma HandleAdded(before: map<nat, nat>, after: map<nat, nat>, sizes: seq<nat>, hs: seq<nat>, h: nat)
    requires HandlesAdded(before, after, sizes, hs) && |hs| < |sizes| && h !in after
    ensures HandlesAdded(before, after[h := sizes[|hs|]], sizes, hs + [h])
  {
    assert Members(hs + [h]) == Members(hs) + {h};
    assert forall i :: 0 <= i < |hs| ==> hs[i] in Members(hs);
  }

  /** The next chunk finds its range free. */
  lemma NextCanMap(m: Memory, after: Memory, base: nat, sizes: seq<nat>, hs: seq<nat>, n: nat)
    requires MapsAdded(m.mapped, after.mapped, base, sizes, hs, n) && n < |sizes| && after.reserved == m.reserved
    requires base in m.reserved && Tiles(sizes, m.reserved[base])
    requires Unmapped(m.mapped, base, m.reserved[base]) && hs[n] in after.handles
    ensures CanMap(after, base + Offset(sizes, n), sizes[n], hs[n])
  {
    hide Offset, Starts;
    OffsetGrows(sizes, n, |sizes|);
    var addr := base + Offset(sizes, n);
    forall a | a in after.mapped ensures (a < addr && a + after.mapped[a].size <= addr) || addr + sizes[n] <= a {
      if a in Starts(base, sizes, n) {
        var i := StartIndex(base, sizes, n, a);
        OffsetGrows(sizes, i, n);
      }
    }
  }

  lemma MapAdded(before: map<nat, Mapping>, after: map<nat, Mapping>, base: nat, sizes: seq<nat>, hs: seq<nat>, n: nat)
    requires MapsAdded(before, after, base, sizes, hs, n) && n < |sizes|
    requires (forall i :: 0 <= i < |sizes| ==> sizes[i] > 0) && base + Offset(sizes, n) !in before
    ensures MapsAdded(before, after[base + Offset(sizes, n) := Mapping(sizes[n], hs[n])], base, sizes, hs, n + 1)
  {
    hide Offset, Starts;
    var addr := base + Offset(sizes, n);
    var next := after[addr := Mapping(sizes[n], hs[n])];
    StartsNext(base, sizes, n);
    assert next.Keys == after.Keys + {addr};
    forall i {:trigger Offset(sizes, i)} | 0 <= i < n + 1
      ensures base + Offset(sizes, i) !in before && base + Offset(sizes, i) in next
      ensures next[base + Offset(sizes, i)] == Mapping(sizes[i], hs[i])
    {
      if i < n { OffsetGrows(sizes, i, n); }
    }
  }

  lemma StartOutside(mapped: map<nat, Mapping>, base: nat, sizes: seq<nat>, n: nat)
    requires n < |sizes| && sizes[n] > 0 && Unmapped(mapped, base, Offset(sizes, |sizes|))
    ensures base + Offset(sizes, n) !in mapped
  {
    OffsetGrows(sizes, n, |sizes|);
  }

  lemma NoneMapped(mapped: map<nat, Mapping>, base: nat, sizes: seq<nat>, hs: seq<nat>)
    requires |hs| == |sizes|
    ensures MapsAdded(mapped, mapped, base, sizes, hs, 0)
  {}

  lemma HandleHeld(handles: map<nat, nat>, hs: seq<nat>, i: nat)
    requires HandlesPresent(handles, hs) && i < |hs|
    ensures hs[i] in handles
  {}

  lemma StartsNext(base: nat, sizes: seq<nat>, n: nat)
    requires n < |sizes|
    ensures Starts(base, sizes, n + 1) == Starts(base, sizes, n) + {base + Offset(sizes, n)}
    ensures Offset(sizes, n + 1) == Offset(sizes, n) + sizes[n]
  {}

  /** The status of the first of the calls that failed, or 0. */
  function FirstError(statuses: seq<int>): int {
    if statuses == [] then 0
    else if FirstError(statuses[..|statuses|-1]) != 0 then FirstError(statuses[..|statuses|-1])
    else statuses[|statuses|-1]
  }

  lemma {:induction false} FirstErrorIsFirst(statuses: seq<int>, k: nat)
    requires k < |statuses| && statuses[k] != 0 && forall i :: 0 <= i < k ==> statuses[i] == 0
    ensures FirstError(statuses) == statuses[k] && FirstError(statuses[..k]) == 0
    decreases |statuses|
  {
    var init := statuses[..|statuses|-1];
    if k < |init| {
      FirstErrorIsFirst(init, k);
      assert statuses[..k] == init[..k];
    } else {
      assert statuses[..k] == init;
      NoError(init);
    }
  }

  lemma {:induction false} NoError(statuses: seq<int>)
    requires forall i :: 0 <= i < |statuses| ==> statuses[i] == 0
    ensures FirstError(statuses) == 0
  {
    if statuses != [] { NoError(statuses[..|statuses|-1]); }
  }

  lemma FirstErrorNext(statuses: seq<int>, status: int)
    ensures FirstError([]) == 0
    ensures FirstError(statuses + [status]) == if FirstError(statuses) != 0 then FirstError(statuses) else status
  {
    assert (statuses + [status])[..|statuses|] == statuses;
  }

  lemma PresentIfAdded(before: map<nat, nat>, after: map<nat, nat>, sizes: seq<nat>, hs: seq<nat>)
    requires HandlesAdded(before, after, sizes, hs)
    ensures HandlesPresent(after, hs) && after - Members(hs) == before
  {}

  lemma NotEmpty(sizes: seq<nat>, total: nat)
    requires Tiles(sizes, total) && total > 0
    ensures sizes != []
  {}

  lemma {:induction false} FirstErrorConcat(a: seq<int>, b: seq<int>)
    ensures FirstError(a + b) == if FirstError(a) != 0 then FirstError(a) else FirstError(b)
    decreases |b|
  {
    if b == [] {
      assert a + b == a;
    } else {
      FirstErrorConcat(a, b[..|b|-1]);
      assert (a + b)[..|a + b|-1] == a + b[..|b|-1];
    }
  }

  lemma MapsUndone(before: map<nat, Mapping>, after: map<nat, Mapping>, base: nat, sizes: seq<nat>, hs: seq<nat>, n: nat)
    requires MapsAdded(before, after, base, sizes, hs, n) && (forall i :: 0 <= i < |sizes| ==> sizes[i] > 0)
    ensures MapsPresent(after, base, sizes, n) && after - Starts(base, sizes, n) == before
  {
    hide Offset, Starts;
    forall a | a in Starts(base, sizes, n) ensures a !in before {
      var i := StartIndex(base, sizes, n, a);
    }
  }

  lemma NoStarts(base: nat, sizes: seq<nat>)
    ensures Starts(base, sizes, 0) == {} && Offset(sizes, 0) == 0 && FirstError([]) == 0
  {}

  const NOT_SUPPORTED := 801

  /** Those of `addrs` outside `size` bytes from `base`. */
  function Outside(addrs: set<nat>, base: nat, size: nat): set<nat> {
    set a | a in addrs && !(base <= a < base + size)
  }

  /** How the driver answers a set-up call: a status, and for a reservation whether
      it goes elsewhere although the hinted range is free. */
  datatype Reply = Reply(status: int, moved: bool)

  /** From call `from` on, no set-up call fails and no reservation is moved. */
  ghost predicate Calm(replies: nat -> Reply, from: nat) {
    forall n :: n >= from ==> replies(n) == Reply(0, false)
  }

  /** From call `from` on, no sensible teardown call fails. */
  ghost predicate Steady(teardowns: nat -> int, from: nat) {
    forall n :: n >= from ==> teardowns(n) == 0
  }

  lemma UnusedHandle(handles: map<nat, nat>)
    ensures exists h: nat :: h !in handles
  {
    var bound := AboveAll(handles.Keys, 0);
    assert bound !in handles;
  }

  lemma {:induction false} AboveAll(used: set<nat>, least: nat) returns (bound: nat)
    ensures bound >= least && forall n :: n in used ==> n < bound
    decreases |used|
  {
    bound := least;
    if used != {} {
      var n :| n in used;
      var rest := AboveAll(used - {n}, least);
      bound := if n < rest then rest else n + 1;
      assert forall k :: k in used ==> k == n || k in used - {n};
    }
  }

  /** Addresses do not run out. */
  lemma RoomExists(m: Memory, size: nat, alignment: nat)
    requires size > 0
    ensures exists a: nat :: CanReserve(m, a, size, alignment)
  {
    var ends := set r | r in m.reserved :: r + m.reserved[r];
    var tops := set a | a in m.mapped :: a + m.mapped[a].size;
    var bound := AboveAll(ends + tops + m.reserved.Keys + m.mapped.Keys, 1);
    var a := if alignment == 0 then bound else bound * alignment;
    if alignment > 0 {
      NonNegative(bound, alignment - 1);
      assert bound * alignment == bound + bound * (alignment - 1);
      DivUnique(bound * alignment, alignment, bound, 0);
    }
    forall r | r in m.reserved ensures r + m.reserved[r] <= a && r < a { assert r + m.reserved[r] in ends; }
    forall b | b in m.mapped ensures b < a && b + m.mapped[b].size <= a { assert b + m.mapped[b].size in tops; }
    assert CanReserve(m, a, size, alignment);
  }

  /** The driver's state and the extension's one error code. The driver answers its
      calls from two given lists, one for set-up and one for teardown calls. It
      gives up the memory behind an address only when the address is freed,
      unmapped and released or not: `resident` is where memory may still sit.
      `clean` records that no sensible teardown call has failed so far, `misused`
      that some call made no sense. */
  class Device {
    const replies: nat -> Reply
    const teardowns: nat -> int
    var calls: nat
    var torn: nat
    var m: Memory
    var errorCode: int
    var resident: set<nat>
    var clean: bool
    var misused: bool

    /** No set-up call will fail. */
    ghost predicate Calmly()
      reads this`calls
    {
      Calm(replies, calls)
    }

    /** No sensible teardown call will fail. */
    ghost predicate Steadily()
      reads this`torn
    {
      Steady(teardowns, torn)
    }

    constructor (replies: nat -> Reply, teardowns: nat -> int)
      ensures m == Memory(map[], map[], map[]) && errorCode == 0 && resident == {} && clean && !misused
      ensures this.replies == replies && this.teardowns == teardowns && calls == 0 && torn == 0
    {
      this.replies, this.teardowns, calls, torn := replies, teardowns, 0, 0;
      m, errorCode, resident, clean, misused := Memory(map[], map[], map[]), 0, {}, true, false;
    }

    // ---- Driver calls -----------------------------------------------------------------------

    method Ask() returns (reply: Reply)
      modifies this`calls
      ensures old(Calmly()) ==> Calmly() && reply == Reply(0, false)
    {
      reply := replies(calls);
      calls := calls + 1;
    }

    method TearDown() returns (status: int)
      modifies this`torn
      ensures old(Steadily()) ==> Steadily() && status == 0
    {
      status := teardowns(torn);
      torn := torn + 1;
    }

    /** A call that changes nothing here: context, granularity, access. */
    method Query() returns (status: int)
      modifies this`calls
      ensures old(Calmly()) ==> Calmly() && status == 0
    {
      var reply := Ask();
      status := reply.status;
    }

    method Create(size: nat) returns (status: int, handle: nat)
      modifies this`m, this`calls
      ensures old(Calmly()) ==> Calmly() && status == 0
      ensures m == if status == 0 then old(m).(handles := old(m.handles)[handle := size]) else old(m)
      ensures status == 0 ==> handle !in old(m.handles)
    {
      var reply := Ask();
      status := reply.status;
      UnusedHandle(m.handles);
      handle :| handle !in m.handles;
      if status == 0 { m := m.(handles := m.handles[handle := size]); }
    }

    method Map(addr: nat, size: nat, handle: nat) returns (status: int)
      modifies this`m, this`calls, this`resident, this`misused
      ensures old(Calmly()) ==> Calmly() && (CanMap(old(m), addr, size, handle) ==> status == 0)
      ensures m == if status == 0 then old(m).(mapped := old(m.mapped)[addr := Mapping(size, handle)]) else old(m)
      ensures resident == if status == 0 then old(resident) + {addr} else old(resident)
      ensures !CanMap(old(m), addr, size, handle) ==> status != 0
      ensures misused == (old(misused) || !CanMap(old(m), addr, size, handle))
    {
      var reply := Ask();
      status := reply.status;
      if !CanMap(m, addr, size, handle) {
        misused := true;
        status := if status == 0 then 1 else status;
      }
      if status == 0 {
        m := m.(mapped := m.mapped[addr := Mapping(size, handle)]);
        resident := resident + {addr};
      }
    }

    method Unmap(addr: nat, size: nat) returns (status: int)
      modifies this`m, this`torn, this`clean, this`misused
      ensures old(Steadily()) ==> Steadily() && clean == old(clean)
      ensures m == if status == 0 then old(m).(mapped := old(m.mapped) - {addr}) else old(m)
      ensures !CanUnmap(old(m), addr, size) ==> status != 0
      ensures misused == (old(misused) || !CanUnmap(old(m), addr, size))
      ensures clean == (old(clean) && (CanUnmap(old(m), addr, size) ==> status == 0))
    {
      status := TearDown();
      if !CanUnmap(m, addr, size) {
        misused := true;
        status := if status == 0 then 1 else status;
      } else {
        clean := clean && status == 0;
      }
      if status == 0 { m := m.(mapped := m.mapped - {addr}); }
    }

    method Release(handle: nat) returns (status: int)
      modifies this`m, this`torn, this`clean, this`misused
      ensures old(Steadily()) ==> Steadily() && clean == old(clean)
      ensures m == if status == 0 then old(m).(handles := old(m.handles) - {handle}) else old(m)
      ensures handle !in old(m.handles) ==> status != 0
      ensures misused == (old(misused) || handle !in old(m.handles))
      ensures clean == (old(clean) && (handle in old(m.handles) ==> status == 0))
    {
      status := TearDown();
      if handle !in m.handles {
        misused := true;
        status := if status == 0 then 1 else status;
      } else {
        clean := clean && status == 0;
      }
      if status == 0 { m := m.(handles := m.handles - {handle}); }
    }

    method AddressFree(addr: nat, size: nat) returns (status: int)
      modifies this`m, this`torn, this`resident, this`clean, this`misused
      ensures old(Steadily()) ==> Steadily() && clean == old(clean)
      ensures resident == if status == 0 then Outside(old(resident), addr, size) else old(resident)
      ensures m == if status == 0 then old(m).(reserved := old(m.reserved) - {addr}) else old(m)
      ensures !CanFree(old(m), addr, size) ==> status != 0
      ensures misused == (old(misused) || !CanFree(old(m), addr, size))
      ensures clean == (old(clean) && (CanFree(old(m), addr, size) ==> status == 0))
    {
      status := TearDown();
      if !CanFree(m, addr, size) {
        misused := true;
        status := if status == 0 then 1 else status;
      } else {
        clean := clean && status == 0;
      }
      if status == 0 {
        m := m.(reserved := m.reserved - {addr});
        resident := Outside(resident, addr, size);
      }
    }

    /** A reservation, at `hint` if that range is free and the driver does not move it.
        A reservation of nothing always fails. */
    method AddressReserve(size: nat, alignment: nat, hint: nat) returns (status: int, addr: nat)
      modifies this`m, this`calls
      ensures old(Calmly()) ==> Calmly() && (size > 0 ==> status == 0)
      ensures old(Calmly()) && CanReserve(old(m), hint, size, alignment) ==> addr == hint
      ensures m == if status == 0 then old(m).(reserved := old(m.reserved)[addr := size]) else old(m)
      ensures status == 0 ==> CanReserve(old(m), addr, size, alignment)
    {
      var reply := Ask();
      status, addr := reply.status, hint;
      if size == 0 {
        status := if status == 0 then 1 else status;
      } else if reply.moved || !CanReserve(m, hint, size, alignment) {
        RoomExists(m, size, alignment);
        addr :| CanReserve(m, addr, size, alignment);
      }
      if status == 0 { m := m.(reserved := m.reserved[addr := size]); }
    }

    /** A failing status becomes the error code; a good one leaves it alone. */
    method Check(status: int)
      modifies this`errorCode
      ensures errorCode == if status != 0 then status else old(errorCode)
    {
      if status != 0 { errorCode := status; }
    }

    method EnsureContext()
      modifies this`calls, this`errorCode
      ensures errorCode == old(errorCode) || errorCode != 0
      ensures old(Calmly()) ==> Calmly() && errorCode == old(errorCode)
    {
      var status := Query();
      Check(status);
      var missing: bool := *;
      if missing {
        status := Query();
        Check(status);
        status := Query();
        Check(status);
      }
    }

    // ---- Reserving ----------------------------------------------------------------------------

    /** An aligned range, asked for first with and then without the alignment; a
        range that comes back unaligned is given back. */
    method ReserveAddress(size: nat, alignment: nat, hint: nat) returns (status: int, addr: nat)
      modifies this`m, this`calls, this`torn, this`resident, this`clean, this`misused
      ensures old(Steadily()) ==> Steadily() && clean == old(clean)
      ensures old(Calmly()) ==> Calmly() && (size > 0 ==> status == 0)
      ensures old(Calmly()) && CanReserve(old(m), hint, size, alignment) ==> addr == hint
      ensures resident <= old(resident)
      ensures status == 0 ==> CanReserve(old(m), addr, size, alignment) && m == old(m).(reserved := old(m.reserved)[addr := size])
      ensures status != 0 && clean ==> m == old(m)
      ensures clean ==> old(clean)
      ensures misused == old(misused)
      ensures status == 0 || alignment == 0 ==> clean == old(clean)
    {
      status, addr := AddressReserve(size, alignment, hint);
      if status == 0 || alignment == 0 { return; }
      status, addr := AddressReserve(size, 0, hint);
      if status != 0 { return; }
      if addr % alignment == 0 { return; }
      assert old(m).reserved[addr := size] - {addr} == old(m).reserved;
      var _ := AddressFree(addr, size);
      status := NOT_SUPPORTED;
    }

    // ---- Teardown loops -----------------------------------------------------------------------

    /** One pass over the chunks, whatever fails on the way: each is unmapped once,
        where it was mapped, and the first failure is kept. */
    method UnmapEach(base: nat, sizes: seq<nat>, n: nat, first: int) returns (error: int, ghost statuses: seq<int>)
      requires n <= |sizes|
      modifies this`m, this`torn, this`clean, this`misused
      ensures old(Steadily()) ==> Steadily() && clean == old(clean)
      ensures |statuses| == n && error == (if first != 0 then first else FirstError(statuses))
      ensures FirstError(statuses) == 0 ==> clean == old(clean)
      ensures m.reserved == old(m.reserved) && m.handles == old(m.handles) && (clean ==> old(clean))
      ensures MapsPresent(old(m.mapped), base, sizes, n) && clean ==>
        error == first && misused == old(misused) && m.mapped == old(m.mapped) - Starts(base, sizes, n)
    {
      hide Offset, FirstError, Starts;
      error, statuses := first, [];
      NoStarts(base, sizes);
      var i, offset := 0, 0;
      while i < n
        invariant 0 <= i <= n && |statuses| == i && offset == Offset(sizes, i)
        invariant old(Steadily()) ==> Steadily() && clean == old(clean)
        invariant error == if first != 0 then first else FirstError(statuses)
        invariant FirstError(statuses) == 0 ==> clean == old(clean)
        invariant m.reserved == old(m.reserved) && m.handles == old(m.handles) && (clean ==> old(clean))
        invariant MapsPresent(old(m.mapped), base, sizes, n) && clean ==>
          error == first && misused == old(misused) && m.mapped == old(m.mapped) - Starts(base, sizes, i)
      {
        StartsNext(base, sizes, i);
        if forall k :: 0 <= k < |sizes| ==> sizes[k] > 0 { StartIsNew(base, sizes, i); }
        var status := Unmap(base + offset, sizes[i]);
        FirstErrorNext(statuses, status);
        statuses := statuses + [status];
        if status != 0 && error == 0 { error := status; }
        offset := offset + sizes[i];
        i := i + 1;
      }
    }

    method ReleaseEach(hs: seq<nat>, first: int) returns (error: int, ghost statuses: seq<int>)
      modifies this`m, this`torn, this`clean, this`misused
      ensures old(Steadily()) ==> Steadily() && clean == old(clean)
      ensures |statuses| == |hs| && error == (if first != 0 then first else FirstError(statuses))
      ensures FirstError(statuses) == 0 ==> clean == old(clean)
      ensures m.reserved == old(m.reserved) && m.mapped == old(m.mapped) && (clean ==> old(clean))
      ensures HandlesPresent(old(m.handles), hs) && clean ==>
        error == first && misused == old(misused) && m.handles == old(m.handles) - Members(hs)
      ensures hs == [] ==> m == old(m) && clean == old(clean) && misused == old(misused)
    {
      hide FirstError;
      error, statuses := first, [];
      NoError([]);
      var i := 0;
      while i < |hs|
        invariant 0 <= i <= |hs| && |statuses| == i
        invariant old(Steadily()) ==> Steadily() && clean == old(clean)
        invariant error == if first != 0 then first else FirstError(statuses)
        invariant FirstError(statuses) == 0 ==> clean == old(clean)
        invariant m.reserved == old(m.reserved) && m.mapped == old(m.mapped) && (clean ==> old(clean))
        invariant HandlesPresent(old(m.handles), hs) && clean ==>
          error == first && misused == old(misused) && m.handles == old(m.handles) - Members(hs[..i])
        invariant i == 0 ==> m == old(m) && clean == old(clean) && misused == old(misused)
      {
        assert Members(hs[..i+1]) == Members(hs[..i]) + {hs[i]};
        assert HandlesPresent(old(m.handles), hs) ==> hs[i] !in Members(hs[..i]);
        var status := Release(hs[i]);
        FirstErrorNext(statuses, status);
        statuses := statuses + [status];
        if status != 0 && error == 0 { error := status; }
        i := i + 1;
      }
      assert hs[..|hs|] == hs;
    }

    /** All chunks of an allocation unmapped and released, each once, going on past
        failures; the first failure becomes the error code. */
    method UnmapAndRelease(base: nat, sizes: seq<nat>, hs: seq<nat>) returns (ghost statuses: seq<int>)
      requires |hs| == |sizes|
      modifies this
      ensures old(Steadily()) ==> Steadily() && clean == old(clean)
      ensures old(Calmly()) ==> Calmly() && (FirstError(statuses) == 0 ==> errorCode == old(errorCode))
      ensures m.reserved == old(m.reserved) && (clean ==> old(clean)) && |statuses| == 2 * |sizes|
      ensures Held(old(m), base, sizes, hs) && clean ==>
        m == Emptied(old(m), base, sizes, hs) && misused == old(misused) && FirstError(statuses) == 0
      ensures FirstError(statuses) != 0 ==> errorCode == FirstError(statuses)
      ensures FirstError(statuses) == 0 ==> clean == old(clean) && (errorCode == old(errorCode) || errorCode != 0)
    {
      hide FirstError, Offset, Starts;
      EnsureContext();
      var error, unmaps := UnmapEach(base, sizes, |sizes|, 0);
      ghost var releases;
      error, releases := ReleaseEach(hs, error);
      statuses := unmaps + releases;
      FirstErrorConcat(unmaps, releases);
      if error != 0 { Check(error); }
    }

    // ---- Creating and mapping -----------------------------------------------------------------

    /** The first loop. With an error already pending, the first chunk that gets
        created is the one nobody releases: it comes back as `leak`. */
    method CreateChunks(sizes: seq<nat>) returns (ok: bool, hs: seq<nat>, leak: Option<nat>)
      modifies this
      ensures old(Steadily()) ==> Steadily() && clean == old(clean)
      ensures old(Calmly()) ==> Calmly() && (old(errorCode) == 0 ==> ok && errorCode == 0)
      ensures m.reserved == old(m.reserved) && m.mapped == old(m.mapped)
      ensures clean ==> old(clean) && misused == old(misused)
      ensures ok <==> sizes == [] || errorCode == 0
      ensures old(errorCode) != 0 ==> errorCode != 0
      ensures ok ==> clean == old(clean) && errorCode == old(errorCode) && |hs| == |sizes| && HandlesAdded(old(m.handles), m.handles, sizes, hs)
      ensures !ok && old(errorCode) == 0 && clean ==> m == old(m)
      ensures ok || old(errorCode) == 0 ==> leak.None?
      ensures !ok && old(errorCode) != 0 ==>
        m.handles == (if leak.None? then old(m.handles) else old(m.handles)[leak.value := sizes[0]])
      ensures leak.Some? ==> leak.value !in old(m.handles)
      ensures sizes == [] ==> m == old(m) && misused == old(misused)
    {
      hs, leak := [], None;
      var i := 0;
      while i < |sizes|
        invariant 0 <= i == |hs| <= |sizes|
        invariant m.reserved == old(m.reserved) && m.mapped == old(m.mapped)
        invariant old(Calmly()) ==> Calmly()
        invariant torn == old(torn)
        invariant clean == old(clean) && misused == old(misused) && errorCode == old(errorCode)
        invariant HandlesAdded(old(m.handles), m.handles, sizes, hs)
        invariant i > 0 ==> errorCode == 0
        invariant i == 0 ==> m == old(m)
      {
        ghost var was := m.handles;
        var status, h := Create(sizes[i]);
        Check(status);
        if errorCode != 0 {
          leak := if status == 0 then Some(h) else None;
          assert status != 0 ==> HandlesPresent(m.handles, hs) && m.handles - Members(hs) == old(m.handles);
          var _, _ := ReleaseEach(hs, 0);
          assert Members([]) == {};
          ok := false;
          return;
        }
        HandleAdded(old(m.handles), was, sizes, hs, h);
        hs := hs + [h];
        i := i + 1;
      }
      ok := true;
    }

    /** The second loop: all chunks mapped one after the other, or none mapped and
        none kept. */
    method MapChunks(base: nat, sizes: seq<nat>, hs: seq<nat>) returns (ok: bool)
      requires sizes != [] ==> errorCode == 0
      requires |hs| == |sizes| && HandlesPresent(m.handles, hs)
      requires sizes != [] ==> base in m.reserved && Tiles(sizes, m.reserved[base]) && Unmapped(m.mapped, base, m.reserved[base])
      modifies this
      ensures old(Steadily()) ==> Steadily() && clean == old(clean)
      ensures old(Calmly()) ==> Calmly() && ok
      ensures m.reserved == old(m.reserved) && (clean ==> old(clean) && misused == old(misused))
      ensures ok <==> sizes == [] || errorCode == 0
      ensures ok ==> clean == old(clean) && errorCode == old(errorCode)
      ensures ok ==> m.handles == old(m.handles) && MapsAdded(old(m.mapped), m.mapped, base, sizes, hs, |sizes|)
      ensures !ok && clean ==> m.mapped == old(m.mapped) && m.handles == old(m.handles) - Members(hs)
      ensures sizes == [] ==> m == old(m) && misused == old(misused)
    {
      hide Offset, Starts, MapsAdded, HandlesPresent, Tiles, Unmapped, Calm, Steady, Members;
      NoStarts(base, sizes);
      NoneMapped(m.mapped, base, sizes, hs);
      var i, offset := 0, 0;
      while i < |sizes|
        invariant 0 <= i <= |sizes| && offset == Offset(sizes, i) && errorCode == old(errorCode)
        invariant m.reserved == old(m.reserved) && m.handles == old(m.handles)
        invariant old(Calmly()) ==> Calmly()
        invariant torn == old(torn) && clean == old(clean) && misused == old(misused)
        invariant MapsAdded(old(m.mapped), m.mapped, base, sizes, hs, i)
        invariant i == 0 ==> m == old(m)
      {
        StartsNext(base, sizes, i);
        var status := MapNext(base, sizes, hs, i, offset, old(m));
        Check(status);
        if errorCode != 0 {
          UndoMaps(base, sizes, hs, i, old(m.mapped), m.reserved[base]);
          ok := false;
          return;
        }
        offset := offset + sizes[i];
        i := i + 1;
      }
      ok := true;
    }

    /** One chunk, next to those already mapped. */
    method MapNext(base: nat, sizes: seq<nat>, hs: seq<nat>, i: nat, offset: nat, ghost before: Memory) returns (status: int)
      requires i < |sizes| == |hs| && offset == Offset(sizes, i) && HandlesPresent(m.handles, hs)
      requires base in before.reserved && Tiles(sizes, before.reserved[base]) && Unmapped(before.mapped, base, before.reserved[base])
      requires m.reserved == before.reserved && MapsAdded(before.mapped, m.mapped, base, sizes, hs, i)
      modifies this`m, this`calls, this`resident, this`misused
      ensures old(Calmly()) ==> Calmly() && status == 0
      ensures m.reserved == old(m.reserved) && m.handles == old(m.handles) && misused == old(misused)
      ensures if status == 0 then MapsAdded(before.mapped, m.mapped, base, sizes, hs, i + 1) else m == old(m)
    {
      hide Offset, Starts, MapsAdded, CanMap, Calm, Unmapped;
      HandleHeld(m.handles, hs, i);
      NextCanMap(before, m, base, sizes, hs, i);
      ghost var was := m.mapped;
      status := Map(base + offset, sizes[i], hs[i]);
      StartOutside(before.mapped, base, sizes, i);
      MapAdded(before.mapped, was, base, sizes, hs, i);
    }

    /** Undo the first `n` mappings and let go of every chunk. */
    method UndoMaps(base: nat, sizes: seq<nat>, hs: seq<nat>, n: nat, ghost before: map<nat, Mapping>, ghost total: nat)
      requires n <= |sizes| && HandlesPresent(m.handles, hs) && Tiles(sizes, total)
      requires MapsAdded(before, m.mapped, base, sizes, hs, n)
      modifies this`m, this`torn, this`clean, this`misused
      ensures old(Steadily()) ==> Steadily() && clean == old(clean)
      ensures m.reserved == old(m.reserved) && (clean ==> old(clean) && misused == old(misused))
      ensures clean ==> m.mapped == before && m.handles == old(m.handles) - Members(hs)
    {
      hide Starts, Offset, FirstError, Members, HandlesPresent;
      MapsUndone(before, m.mapped, base, sizes, hs, n);
      var _, _ := UnmapEach(base, sizes, n, 0);
      var _, _ := ReleaseEach(hs, 0);
    }

    /** Create the chunks, map them, open them for access. Entered with no error
        pending, a failure in either loop leaves everything as it was; a failure
        to set access leaves everything mapped; with an error pending nothing is
        mapped but one created chunk may be lost; and an allocation of no chunks
        has nothing created or mapped either way. */
    method CreateAndMap(base: nat, sizes: seq<nat>) returns (hs: seq<nat>, ghost pending: int, leak: Option<nat>, noAccess: bool)
      requires sizes != [] ==> base in m.reserved && Tiles(sizes, m.reserved[base]) && Unmapped(m.mapped, base, m.reserved[base])
      modifies this
      ensures old(Steadily()) ==> Steadily() && clean == old(clean)
      ensures old(Calmly()) ==> Calmly() && pending == old(errorCode)
      ensures old(Calmly()) && old(errorCode) == 0 ==> errorCode == 0
      ensures m.reserved == old(m.reserved) && (clean ==> old(clean) && misused == old(misused))
      ensures pending == old(errorCode) || pending != 0
      ensures errorCode == 0 ==> clean == old(clean) && pending == 0 && !noAccess && Filled(old(m), m, base, sizes, hs)
      ensures noAccess ==> pending == 0 && errorCode != 0 && Filled(old(m), m, base, sizes, hs)
      ensures errorCode != 0 && pending == 0 && !noAccess && clean ==> m == old(m)
      ensures pending == 0 ==> leak.None?
      ensures leak.Some? ==> sizes != [] && leak.value !in old(m.handles)
      ensures pending != 0 ==>
        m == old(m).(handles := if leak.None? then old(m.handles) else old(m.handles)[leak.value := sizes[0]])
      ensures sizes == [] ==> m == old(m) && clean == old(clean) && misused == old(misused)
    {
      hide Offset, Starts, Distinct;
      noAccess := false;
      EnsureContext();
      pending := errorCode;
      var ok;
      ok, hs, leak := CreateChunks(sizes);
      if !ok { return; }
      PresentIfAdded(old(m.handles), m.handles, sizes, hs);
      ok := MapChunks(base, sizes, hs);
      if !ok { return; }
      var before := errorCode;
      var status := Query();
      Check(status);
      noAccess := status != 0 && before == 0;
    }
  }
}
