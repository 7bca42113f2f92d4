/** The store and load calls as the extension makes them, one system call after
    another, with every other process free to act in between; and the batch
    loops on top, with the Python buffers they hold. */
module BlockBatch {
  import opened Wrappers
  import opened BlockStore

  /** A source buffer: what identifies it to the interpreter, and its bytes. */
  datatype Source = Source(id: nat, bytes: Bytes)

  /** A destination buffer, written in place. */
  datatype Target = Target(id: nat, bytes: array<bv8>)

  /** What a batch call ends in: None, a ValueError or the exception already set
      by an argument, or an OSError for the block at `index`. */
  datatype Outcome = Done | BadArguments | Failed(index: nat, errno: int)

  /** What the kernel answers to a call: the errno it fails with, 0 if it does not,
      and how many bytes a write leaves out. */
  datatype Answer = Answer(errno: int, dropped: nat)

  /** `open` and `read` of a file that is there do not fail with ENOENT. */
  function Fault(a: Answer): int { if a.errno == ENOENT then 0 else a.errno }

  function Sub(n: nat, m: nat): nat { if m <= n then n - m else 0 }

  predicate Present(s: State, path: Path, bytes: Bytes) {
    path in s.fs.names && s.fs.names[path] in s.fs.data && s.fs.data[s.fs.names[path]] == bytes
  }

  /** No guarded destination has been lost. */
  ghost predicate Kept(content: Content, s: State, t: State) {
    forall a :: a in s.fs.names && Guarded(content, a) ==> a in t.fs.names
  }

  lemma KeptChain(content: Content, s: State, t: State, u: State)
    requires Kept(content, s, t) && Kept(content, t, u)
    ensures Kept(content, s, u)
  {}

  lemma KeptSame(content: Content, s: State)
    ensures Kept(content, s, s)
  {}

  lemma PresentIfNamed(content: Content, s: State, path: Path)
    requires Inv(content, s) && content(path).Some?
    ensures path in s.fs.names ==> Present(s, path, content(path).value.bytes)
  {}

  lemma StoredMeansPresent(content: Content, s: State, pid: nat)
    requires Inv(content, s) && pid in s.procs && s.procs[pid].Store? && s.procs[pid].spc.Stored?
    ensures s.procs[pid].spc.err == 0 && Guarded(content, s.procs[pid].dest) ==>
      Present(s, s.procs[pid].dest, s.procs[pid].data)
    ensures s.procs[pid].spc.created && s.procs[pid].spc.cleaned ==>
      forall a :: a in s.fs.names && s.fs.names[a] == s.procs[pid].ino ==> content(a).Some?
  {
    var p := s.procs[pid];
    assert ProcOk(content, s.fs, p);
    PresentIfNamed(content, s, p.dest);
  }

  lemma LoadedMeansContent(content: Content, s: State, pid: nat)
    requires Inv(content, s) && pid in s.procs && s.procs[pid].Load?
    requires s.procs[pid].lpc.CloseSource? || s.procs[pid].lpc.Loaded?
    ensures content(s.procs[pid].path).Some?
    ensures s.procs[pid].lpc.err == 0 ==>
      s.procs[pid].buf <= content(s.procs[pid].path).value.bytes && |s.procs[pid].buf| == s.procs[pid].size
  {
    assert ProcOk(content, s.fs, s.procs[pid]);
  }

  lemma ReadSees(content: Content, s: State, pid: nat)
    requires Inv(content, s) && pid in s.procs && s.procs[pid].Load? && s.procs[pid].lpc.Read?
    ensures s.procs[pid].ino in s.fs.data && content(s.procs[pid].path).Some?
    ensures s.fs.data[s.procs[pid].ino] == content(s.procs[pid].path).value.bytes
  {
    assert ProcOk(content, s.fs, s.procs[pid]);
  }

  lemma OwnsTemp(content: Content, s: State, pid: nat)
    requires Inv(content, s) && pid in s.procs && Owns(s.procs[pid])
    ensures s.procs[pid].tmp in s.fs.names
    ensures content(s.procs[pid].tmp).None? && content(s.procs[pid].dest).Some?
  {
    assert ProcOk(content, s.fs, s.procs[pid]);
  }

  lemma UnusedNumber(used: set<nat>)
    ensures exists n: nat :: n !in used
  {
    var bound := Above(used);
    assert bound !in used;
  }

  lemma {:induction false} Above(used: set<nat>) returns (bound: nat)
    ensures forall n :: n in used ==> n < bound
    decreases |used|
  {
    bound := 0;
    if used != {} {
      var n :| n in used;
      var rest := Above(used - {n});
      bound := if n < rest then rest else n + 1;
      assert forall m :: m in used ==> m == n || m in used - {n};
    }
  }

  /** The block is stored: its destination holds it, if guarded. */
  ghost predicate InPlace(content: Content, s: State, path: Path) {
    Guarded(content, path) ==> Present(s, path, content(path).value.bytes)
  }

  lemma NowInPlace(content: Content, s: State, path: Path, bytes: Bytes)
    requires content(path).Some? && content(path).value.bytes == bytes && (Guarded(content, path) ==> Present(s, path, bytes))
    ensures InPlace(content, s, path)
  {}

  lemma StaysInPlace(content: Content, s: State, t: State, path: Path)
    requires InPlace(content, s, path) && Kept(content, s, t) && Inv(content, t)
    ensures InPlace(content, t, path)
  {}

  /** A load of a guarded path asks for no more than the block. */
  predicate Fits(content: Content, path: Path, target: Target) {
    Guarded(content, path) ==> content(path).Some? && target.bytes.Length <= |content(path).value.bytes|
  }

  ghost function Contents(targets: seq<Target>): (c: seq<Bytes>)
    reads set t | t in targets :: t.bytes
    ensures |c| == |targets|
    ensures forall i :: 0 <= i < |c| ==> c[i] == targets[i].bytes[..]
  {
    if targets == [] then [] else [targets[0].bytes[..]] + Contents(targets[1..])
  }

  /** Some attempt from `lo` to `hi` writes to the buffer of target `i`. */
  predicate Written(targets: seq<Target>, i: nat, lo: nat, hi: nat)
    requires i < |targets| && hi <= |targets|
  {
    exists j :: lo <= j < hi && targets[j].bytes == targets[i].bytes
  }

  /** Of `tried` attempts the first `done` succeeded: their buffers, now holding
      `now`, have what was asked for, unless a later attempt wrote to the same one. */
  ghost predicate LoadedUpTo(content: Content, paths: seq<Path>, targets: seq<Target>, now: seq<Bytes>, done: nat, tried: nat)
    requires done <= tried <= |paths| == |targets| == |now|
    requires forall i :: 0 <= i < |paths| ==> content(paths[i]).Some?
  {
    forall i :: 0 <= i < done && !Written(targets, i, i + 1, tried) ==> now[i] <= content(paths[i]).value.bytes
  }

  /** Buffers none of the first `tried` attempts wrote to are as they were. */
  ghost predicate Untouched(targets: seq<Target>, tried: nat, was: seq<Bytes>, now: seq<Bytes>)
    requires tried <= |targets| == |was| == |now|
  {
    forall i :: 0 <= i < |targets| && !Written(targets, i, 0, tried) ==> now[i] == was[i]
  }

  lemma NothingLoaded(content: Content, paths: seq<Path>, targets: seq<Target>, now: seq<Bytes>)
    requires |paths| == |targets| == |now|
    requires forall i :: 0 <= i < |paths| ==> content(paths[i]).Some?
    ensures LoadedUpTo(content, paths, targets, now, 0, 0) && Untouched(targets, 0, now, now)
  {}

  /** One more attempt, on target `k`. */
  lemma LoadedNext(content: Content, paths: seq<Path>, targets: seq<Target>, was: seq<Bytes>, now: seq<Bytes>, next: seq<Bytes>, k: nat, ok: bool)
    requires k < |paths| == |targets| == |was| == |now| == |next|
    requires forall i :: 0 <= i < |paths| ==> content(paths[i]).Some?
    requires LoadedUpTo(content, paths, targets, now, k, k) && Untouched(targets, k, was, now)
    requires forall j :: 0 <= j < |targets| && targets[j].bytes != targets[k].bytes ==> next[j] == now[j]
    requires ok ==> next[k] <= content(paths[k]).value.bytes
    ensures LoadedUpTo(content, paths, targets, next, if ok then k + 1 else k, k + 1) && Untouched(targets, k + 1, was, next)
  {
    forall i | 0 <= i < k && !Written(targets, i, i + 1, k + 1) ensures next[i] <= content(paths[i]).value.bytes {
      assert targets[k].bytes != targets[i].bytes;
      assert !Written(targets, i, i + 1, k);
    }
    forall i | 0 <= i < |targets| && !Written(targets, i, 0, k + 1) ensures next[i] == was[i] {
      assert targets[k].bytes != targets[i].bytes;
      assert !Written(targets, i, 0, k);
    }
  }

  lemma NamedIfInPlace(content: Content, s: State, path: Path)
    requires InPlace(content, s, path) && Guarded(content, path)
    ensures path in s.fs.names
  {}

  /** Distinct buffers of the blocks' own sizes hold the blocks themselves. */
  lemma WholeBlocks(content: Content, paths: seq<Path>, targets: seq<Target>, now: seq<Bytes>, done: nat, tried: nat)
    requires done <= tried <= |paths| == |targets| == |now|
    requires forall i :: 0 <= i < |paths| ==> content(paths[i]).Some? && |now[i]| == |content(paths[i]).value.bytes|
    requires LoadedUpTo(content, paths, targets, now, done, tried)
    requires forall i, j :: 0 <= i < j < |targets| ==> targets[i].bytes != targets[j].bytes
    ensures forall i :: 0 <= i < done ==> now[i] == content(paths[i]).value.bytes
  {
    forall i | 0 <= i < done ensures now[i] == content(paths[i]).value.bytes {
      assert !Written(targets, i, i + 1, tried);
    }
  }

  lemma ReleasedNext(before: multiset<nat>, held: multiset<nat>, ids: seq<nat>, j: nat)
    requires j < |ids| && multiset(ids[j..]) <= held && held == before - multiset(ids) + multiset(ids[j..])
    ensures ids[j] in held && multiset(ids[j + 1..]) <= held - multiset{ids[j]}
    ensures held - multiset{ids[j]} == before - multiset(ids) + multiset(ids[j + 1..])
  {
    assert ids[j..] == [ids[j]] + ids[j + 1..];
    var rest := multiset(ids[j + 1..]);
    assert multiset(ids[j..]) == multiset{ids[j]} + rest;
  }

  /** On top of what was held before, the first `n` buffers of the list. */
  ghost predicate Holding(before: multiset<nat>, held: multiset<nat>, ids: seq<nat>, n: nat)
    requires n <= |ids|
  {
    held == before + multiset(ids[..n])
  }

  lemma HoldingNone(before: multiset<nat>, ids: seq<nat>)
    ensures Holding(before, before, ids, 0)
  {}

  lemma HoldingNext(before: multiset<nat>, held: multiset<nat>, ids: seq<nat>, i: nat)
    requires i < |ids| && Holding(before, held, ids, i)
    ensures Holding(before, held + multiset{ids[i]}, ids, i + 1)
  {
    assert ids[..i + 1] == ids[..i] + [ids[i]];
  }

  lemma HoldingAll(before: multiset<nat>, held: multiset<nat>, ids: seq<nat>)
    requires Holding(before, held, ids, |ids|)
    ensures held == before + multiset(ids)
  {
    assert ids[..|ids|] == ids;
  }

  lemma HoldingSome(before: multiset<nat>, held: multiset<nat>, ids: seq<nat>, i: nat)
    requires i <= |ids| && Holding(before, held, ids, i)
    ensures multiset(ids[..i]) <= held && held - multiset(ids[..i]) == before
  {}

  /** Acquiring and releasing leaves what was held. */
  lemma BackAgain(before: multiset<nat>, ids: seq<nat>)
    ensures multiset(ids) <= before + multiset(ids) && before + multiset(ids) - multiset(ids) == before
  {}

  /** Attempts that all returned 0. */
  function Cleanly(paths: seq<Path>): seq<(Path, int)> {
    seq(|paths|, i requires 0 <= i < |paths| => (paths[i], 0))
  }

  lemma NothingTried(paths: seq<Path>)
    ensures Cleanly(paths[..0]) == []
  {}

  lemma CleanlyNext(paths: seq<Path>, i: nat)
    requires i < |paths|
    ensures Cleanly(paths[..i + 1]) == Cleanly(paths[..i]) + [(paths[i], 0)]
  {}

  /** Why a load fails with `errno` when no call does: the block, unless guarded and
      there at `s`, is missing; or it is shorter than the buffer. */
  ghost predicate Absent(content: Content, s: State, path: Path, target: Target, errno: int)
    requires content(path).Some?
  {
    || (errno == ENOENT && !(Guarded(content, path) && path in s.fs.names))
    || (errno == EIO && target.bytes.Length > |content(path).value.bytes|)
  }

  class Machine {
    const content: Content
    /** What the system calls answer, one after another. */
    const answers: nat -> Answer
    /** Where the other processes have brought the files when each call is made. */
    const others: nat -> Option<State>
    /** The arguments the interpreter cannot convert, in the order it is asked. */
    const refuses: nat -> bool
    /** The temp names made up here. */
    const own: set<Path>
    var s: State
    var calls: nat
    var asked: nat
    /** Python buffers acquired and not yet released. */
    var held: multiset<nat>
    /** The paths whose block was attempted, in order, and what each attempt returned. */
    ghost var attempts: seq<(Path, int)>

    /** The machine is in order and process `pid` stands at `p`. */
    ghost predicate Here(pid: nat, p: Proc)
      reads this`s
    {
      Inv(content, s) && pid in s.procs && s.procs[pid] == p
    }

    /** None of the calls from number `lo` up to `hi` fails. */
    ghost predicate Faultless(lo: nat, hi: nat) {
      forall n :: lo <= n < hi ==> answers(n) == Answer(0, 0)
    }

    /** Some argument from number `lo` up to `hi` is refused. */
    ghost predicate Refused(lo: nat, hi: nat) {
      exists n :: lo <= n < hi && refuses(n)
    }

    /** Going from `t` to `u` made no temp name of our own but those in `but`. */
    ghost predicate NoneNew(t: State, u: State, but: set<Path>) {
      forall a :: a in own && content(a).None? && a !in but && a in u.fs.names ==> a in t.fs.names
    }

    /** The last call failed. */
    ghost predicate LastFailed()
      reads this`calls
    {
      calls > 0 && answers(calls - 1).errno != 0
    }

    lemma Chain(t: State, u: State, v: State, but: set<Path>)
      requires Kept(content, t, u) && Kept(content, u, v)
      requires (NoneNew(t, u, but) || NoneNew(t, u, {})) && (NoneNew(u, v, but) || NoneNew(u, v, {}))
      ensures Kept(content, t, v) && NoneNew(t, v, but)
    {}

    lemma NoneNewSame(t: State)
      ensures NoneNew(t, t, {})
    {}

    lemma NotNamed(t: State, u: State, a: Path)
      requires NoneNew(t, u, {}) && content(a).None?
      ensures a in own && a !in t.fs.names ==> a !in u.fs.names
    {}

    lemma LastAnswer(lo: nat)
      requires lo < calls && Faultless(lo, calls)
      ensures !LastFailed()
    {}

    lemma Halves(lo: nat, mid: nat, hi: nat)
      requires lo <= mid <= hi && Faultless(lo, hi)
      ensures Faultless(lo, mid) && Faultless(mid, hi)
    {}

    lemma Gone(t: State, u: State, a: Path)
      requires NoneNew(t, u, {a}) && a !in u.fs.names
      ensures NoneNew(t, u, {})
    {}

    /** Names of our own, not in use. */
    ghost predicate Fresh(tmps: seq<Path>, t: State) {
      forall i :: 0 <= i < |tmps| ==> tmps[i] in own && tmps[i] !in t.fs.names
    }

    // ---- Scheduling ---------------------------------------------------------------------

    /** The files as call `n` of process `pid` finds them. */
    function Found(n: nat, pid: nat, t: State): (u: State)
      ensures Rely(content, own, t, pid, u)
    {
      if others(n).Some? && Rely(content, own, t, pid, others(n).value) then others(n).value else t
    }

    /** Other processes run, and a call gets its answer. */
    method Enter(pid: nat) returns (a: Answer)
      modifies this`s, this`calls
      ensures s == Found(old(calls), pid, old(s)) && a == answers(old(calls)) && calls == old(calls) + 1
    {
      s := Found(calls, pid, s);
      a := answers(calls);
      calls := calls + 1;
    }

    method Begin(p: Proc) returns (pid: nat)
      requires Inv(content, s) && Starts(content, p)
      modifies this`s
      ensures Here(pid, p) && pid !in old(s.procs) && s == At(old(s), pid, p)
      ensures Kept(content, old(s), s) && NoneNew(old(s), s, {})
    {
      hide Inv;
      UnusedNumber(s.procs.Keys);
      pid :| pid !in s.procs;
      var t := At(s, pid, p);
      StepKeeps(content, s, pid, t);
      s := t;
    }

    method Advance(pid: nat, p: Proc, fs: Fs, q: Proc)
      requires Here(pid, p) && ProcStep(s.fs, p, fs, q)
      modifies this`s
      ensures Here(pid, q) && Kept(content, old(s), s) && s == State(fs, old(s).procs[pid := q])
    {
      hide Inv, ProcStep;
      var t := State(fs, s.procs[pid := q]);
      StepKeeps(content, s, pid, t);
      s := t;
    }

    /** A call that leaves the files as it finds them. */
    method Pass(pid: nat, p: Proc, q: Proc)
      requires Here(pid, p) && ProcStep(s.fs, p, s.fs, q)
      modifies this`s
      ensures Here(pid, q) && Kept(content, old(s), s) && s == At(old(s), pid, q)
    {
      hide Inv, ProcStep;
      Advance(pid, p, s.fs, q);
    }

    // ---- System calls of a store ------------------------------------------------------------

    method SysAccess(pid: nat, p: Proc) returns (found: bool)
      requires Here(pid, p) && p.Store? && p.spc == Access
      modifies this`s, this`calls
      ensures Here(pid, p.(spc := if found then Stored(0, false, true) else Dirs)) && Kept(content, old(s), s)
      ensures s == At(Found(old(calls), pid, old(s)), pid, s.procs[pid]) && NoneNew(old(s), s, {}) && calls == old(calls) + 1
      ensures found <==> answers(old(calls)).errno == 0 && p.dest in s.fs.names
    {
      hide Inv, Found;
      var a := Enter(pid);
      found := a.errno == 0 && p.dest in s.fs.names;
      Pass(pid, p, p.(spc := if found then Stored(0, false, true) else Dirs));
    }

    method EnsureParentDirs(pid: nat, p: Proc) returns (err: int)
      requires Here(pid, p) && p.Store? && p.spc == Dirs
      modifies this`s, this`calls
      ensures Here(pid, p.(spc := if err != 0 then Stored(err, false, true) else Open)) && Kept(content, old(s), s)
      ensures s == At(Found(old(calls), pid, old(s)), pid, s.procs[pid]) && NoneNew(old(s), s, {}) && calls == old(calls) + 1
      ensures err == answers(old(calls)).errno
    {
      hide Inv, Found;
      var a := Enter(pid);
      err := a.errno;
      Pass(pid, p, p.(spc := if err != 0 then Stored(err, false, true) else Open));
    }

    /** `open` with O_CREAT and O_EXCL; `errno` when `fd` is negative. */
    method SysCreate(pid: nat, p: Proc) returns (fd: int, errno: int, ghost q: Proc)
      requires Here(pid, p) && p.Store? && p.spc == Open
      modifies this`s, this`calls
      ensures Here(pid, q) && Kept(content, old(s), s) && q.Store? && calls == old(calls) + 1
      ensures fd < 0 <==> answers(old(calls)).errno != 0 || p.tmp in Found(old(calls), pid, old(s)).fs.names
      ensures fd < 0 ==> errno == if answers(old(calls)).errno != 0 then answers(old(calls)).errno else EEXIST
      ensures fd < 0 ==> q == p.(spc := Stored(errno, false, true)) && NoneNew(old(s), s, {})
      ensures fd >= 0 ==> q == p.(spc := Write, ino := q.ino) && NoneNew(old(s), s, {p.tmp})
    {
      hide Inv, Found;
      var a := Enter(pid);
      if a.errno != 0 || p.tmp in s.fs.names {
        fd, errno := -1, if a.errno != 0 then a.errno else EEXIST;
        q := p.(spc := Stored(errno, false, true));
        Pass(pid, p, p.(spc := Stored(errno, false, true)));
      } else {
        fd, errno := 3, 0;
        UnusedNumber(s.fs.data.Keys);
        var ino: nat :| ino !in s.fs.data;
        q := p.(spc := Write, ino := ino);
        Advance(pid, p, Fs(s.fs.names[p.tmp := ino], s.fs.data[ino := []]), p.(spc := Write, ino := ino));
      }
    }

    /** `write`: -1 with `errno`, or the number of bytes written. */
    method SysWrite(pid: nat, p: Proc) returns (written: int, errno: int)
      requires Here(pid, p) && p.Store? && p.spc == Write
      modifies this`s, this`calls
      ensures Kept(content, old(s), s) && NoneNew(old(s), s, {}) && calls == old(calls) + 1 && errno == answers(old(calls)).errno
      ensures written == if errno != 0 then -1 else Sub(|p.data|, answers(old(calls)).dropped)
      ensures Here(pid, p.(spc := if written == |p.data| then Close else CloseFailed(if written < 0 then errno else EIO)))
    {
      hide Inv, Found;
      var a := Enter(pid);
      errno := a.errno;
      var n := Sub(|p.data|, a.dropped);
      written := if errno != 0 then -1 else n;
      var pc := if written == |p.data| then Close else CloseFailed(if written < 0 then errno else EIO);
      Advance(pid, p, s.fs.(data := s.fs.data[p.ino := p.data[..n]]), p.(spc := pc));
    }

    method SysCloseWritten(pid: nat, p: Proc) returns (err: int)
      requires Here(pid, p) && p.Store? && p.spc == Close
      modifies this`s, this`calls
      ensures Here(pid, p.(spc := if err != 0 then Unlink(err) else Rename)) && Kept(content, old(s), s) && NoneNew(old(s), s, {})
      ensures err == answers(old(calls)).errno && calls == old(calls) + 1
    {
      hide Inv, Found;
      var a := Enter(pid);
      err := a.errno;
      Pass(pid, p, p.(spc := if err != 0 then Unlink(err) else Rename));
    }

    /** `close` on the failure path, its result ignored. */
    method SysCloseQuiet(pid: nat, p: Proc)
      requires Here(pid, p) && p.Store? && p.spc.CloseFailed?
      modifies this`s, this`calls
      ensures Here(pid, p.(spc := Unlink(p.spc.err))) && Kept(content, old(s), s) && NoneNew(old(s), s, {}) && calls == old(calls) + 1
    {
      hide Inv, Found;
      var a := Enter(pid);
      Pass(pid, p, p.(spc := Unlink(p.spc.err)));
    }

    /** `rename`, which finds its target in the way only when it is there. */
    method SysRename(pid: nat, p: Proc) returns (err: int)
      requires Here(pid, p) && p.Store? && p.spc == Rename
      modifies this`s, this`calls
      ensures Here(pid, p.(spc := if err != 0 then Unlink(RenameFailure(err)) else Stored(0, true, true))) && Kept(content, old(s), s)
      ensures err == answers(old(calls)).errno || (err == 0 && answers(old(calls)).errno == EEXIST)
      ensures NoneNew(old(s), s, {}) && calls == old(calls) + 1
      ensures err == 0 ==> p.dest in s.fs.names && p.tmp !in s.fs.names
    {
      hide Inv, Found;
      var a := Enter(pid);
      OwnsTemp(content, s, pid);
      err := if a.errno == EEXIST && p.dest !in s.fs.names then 0 else a.errno;
      if err == 0 {
        Advance(pid, p, s.fs.(names := (s.fs.names - {p.tmp})[p.dest := s.fs.names[p.tmp]]), p.(spc := Stored(0, true, true)));
      } else {
        Pass(pid, p, p.(spc := Unlink(RenameFailure(err))));
      }
    }

    /** `unlink` of the temp path, its result ignored by the caller. */
    method SysUnlink(pid: nat, p: Proc) returns (ghost cleaned: bool)
      requires Here(pid, p) && p.Store? && p.spc.Unlink?
      modifies this`s, this`calls
      ensures Here(pid, p.(spc := Stored(p.spc.err, true, cleaned))) && Kept(content, old(s), s)
      ensures cleaned == (answers(old(calls)).errno == 0) && calls == old(calls) + 1
      ensures NoneNew(old(s), s, {}) && (cleaned ==> p.tmp !in s.fs.names)
    {
      hide Inv, Found;
      var a := Enter(pid);
      OwnsTemp(content, s, pid);
      var done := a.errno == 0;
      cleaned := done;
      Advance(pid, p, if done then s.fs.(names := s.fs.names - {p.tmp}) else s.fs, p.(spc := Stored(p.spc.err, true, done)));
    }

    // ---- Store ----------------------------------------------------------------------------------

    /** The files as `access` finds them, when a store begins at `t` with call `k`. */
    ghost function AtAccess(t: State, k: nat, pid: nat, p: Proc): State
      requires p.Store?
    {
      Found(k, pid, At(t, pid, p))
    }

    /** The files as the `open` of the temp path finds them. */
    ghost function AtCreate(t: State, k: nat, pid: nat, p: Proc): State
      requires p.Store?
    {
      Found(k + 2, pid, At(Found(k + 1, pid, At(AtAccess(t, k, pid, p), pid, p.(spc := Dirs))), pid, p.(spc := Open)))
    }

    /** The errno of the first call that fails, when `found` is whether `access` sees
        the block and `taken` whether the temp name is in use. */
    ghost function StoreErr(k: nat, found: bool, taken: bool, size: nat): int {
      if found && answers(k).errno == 0 then 0
      else if answers(k + 1).errno != 0 then answers(k + 1).errno
      else if answers(k + 2).errno != 0 then answers(k + 2).errno
      else if taken then EEXIST
      else PublishErr(k + 3, size)
    }

    /** From the write on. A rename that finds the block published already is no failure. */
    ghost function PublishErr(k: nat, size: nat): int {
      if answers(k).errno != 0 then answers(k).errno
      else if answers(k).dropped > 0 && size > 0 then EIO
      else if answers(k + 1).errno != 0 then answers(k + 1).errno
      else if answers(k + 2).errno != EEXIST then answers(k + 2).errno
      else 0
    }

    ghost predicate StoreEnds(t: State, k: nat, pid: nat, tmp: Path, dest: Path, bytes: Bytes, err: int) {
      var p := Store(tmp, dest, bytes, Access, 0);
      err == StoreErr(k, dest in AtAccess(t, k, pid, p).fs.names, tmp in AtCreate(t, k, pid, p).fs.names, |bytes|)
    }

    /** Whatever other processes do meanwhile, and whichever call fails: the result
        is the errno of the first call that failed; 0 means the destination, if
        guarded, holds the whole block; a temp file that was created and whose
        unlink did not fail has no name left but a destination's; and no guarded
        destination is lost. With no failing call and a temp name of its own, the
        block is stored. */
    method StoreBlock(tmp: Path, dest: Path, bytes: Bytes) returns (err: int, ghost pid: nat, ghost q: Proc)
      requires Inv(content, s) && content(tmp).None? && content(dest).Some? && content(dest).value.bytes == bytes
      modifies this`s, this`calls, this`attempts
      ensures Here(pid, q) && pid !in old(s.procs) && Kept(content, old(s), s) && attempts == old(attempts) + [(dest, err)]
      ensures q.Store? && q.tmp == tmp && q.dest == dest && q.data == bytes && q.spc.Stored? && q.spc.err == err
      ensures StoreEnds(old(s), old(calls), pid, tmp, dest, bytes, err)
      ensures err == 0 && Guarded(content, dest) ==> Present(s, dest, bytes)
      ensures q.spc.created && q.spc.cleaned ==>
        forall a :: a in s.fs.names && s.fs.names[a] == q.ino ==> content(a).Some?
      ensures NoneNew(old(s), s, if q.spc.cleaned then {} else {tmp})
      ensures !q.spc.cleaned ==> LastFailed()
      ensures old(calls) < calls <= old(calls) + 7
      ensures Faultless(old(calls), calls) ==> NoneNew(old(s), s, {})
      ensures Faultless(old(calls), calls) && tmp in own && tmp !in old(s.fs.names) ==> err == 0
    {
      hide Inv, Present, Found, Kept, NoneNew, Faultless, StoreEnds, Guarded;
      err, pid, q := StoreCalls(tmp, dest, bytes);
      attempts := attempts + [(dest, err)];
      if Faultless(old(calls), calls) { LastAnswer(old(calls)); }
      StoredMeansPresent(content, s, pid);
    }

    method StoreCalls(tmp: Path, dest: Path, bytes: Bytes) returns (err: int, ghost pid: nat, ghost q: Proc)
      requires Inv(content, s) && content(tmp).None? && content(dest).Some? && content(dest).value.bytes == bytes
      modifies this`s, this`calls
      ensures Here(pid, q) && pid !in old(s.procs) && Kept(content, old(s), s)
      ensures q.Store? && q.tmp == tmp && q.dest == dest && q.data == bytes && q.spc.Stored? && q.spc.err == err
      ensures StoreEnds(old(s), old(calls), pid, tmp, dest, bytes, err)
      ensures NoneNew(old(s), s, if q.spc.cleaned then {} else {tmp})
      ensures !q.spc.cleaned ==> LastFailed()
      ensures old(calls) < calls <= old(calls) + 7
      ensures Faultless(old(calls), calls) && tmp in own && tmp !in old(s.fs.names) ==> err == 0
    {
      hide Inv, Found, PublishErr, Kept, NoneNew, AtAccess;
      ghost var was := s;
      var ready, id;
      ready, err, id, q := Prepare(tmp, dest, bytes);
      pid := id;
      if !ready { return; }
      var fd, errno;
      ghost var mid := s;
      FreshStill(was, mid, calls, pid, tmp);
      fd, errno, q := SysCreate(id, s.procs[id]);
      Chain(was, mid, s, if fd < 0 then {} else {tmp});
      if fd < 0 { return errno, pid, q; }
      mid := s;
      err, q := WriteAndPublish(id, s.procs[id]);
      Chain(was, mid, s, {tmp});
      if q.spc.cleaned { Gone(was, s, tmp); }
    }

    /** A temp name of our own that was not in use when the store began is not in use
        when it is opened. */
    lemma FreshStill(t: State, u: State, k: nat, pid: nat, tmp: Path)
      requires NoneNew(t, u, {}) && Inv(content, u) && content(tmp).None?
      ensures tmp in own && tmp !in t.fs.names ==> tmp !in Found(k, pid, u).fs.names
    {
      hide Inv, Found;
    }

    /** Up to the directories: the store is over, or ready to open its temp file. */
    method Prepare(tmp: Path, dest: Path, bytes: Bytes) returns (ready: bool, err: int, pid: nat, ghost q: Proc)
      requires Inv(content, s) && content(tmp).None? && content(dest).Some? && content(dest).value.bytes == bytes
      modifies this`s, this`calls
      ensures Here(pid, q) && pid !in old(s.procs) && Kept(content, old(s), s) && NoneNew(old(s), s, {})
      ensures old(calls) < calls <= old(calls) + 2
      ensures q == Store(tmp, dest, bytes, if ready then Open else Stored(err, false, true), 0)
      ensures var p := Store(tmp, dest, bytes, Access, 0);
        var seen := AtAccess(old(s), old(calls), pid, p);
        var found := answers(old(calls)).errno == 0 && dest in seen.fs.names;
        && (ready <==> !found && answers(old(calls) + 1).errno == 0)
        && (!ready ==> err == if found then 0 else answers(old(calls) + 1).errno)
        && calls == old(calls) + (if found then 1 else 2)
        && (ready ==> s == At(Found(old(calls) + 1, pid, At(seen, pid, p.(spc := Dirs))), pid, p.(spc := Open)))
    {
      hide Inv, Found, Kept, NoneNew;
      ghost var was := s;
      var p := Store(tmp, dest, bytes, Access, 0);
      pid := Begin(p);
      ghost var mid := s;
      var found := SysAccess(pid, p);
      Chain(was, mid, s, {});
      if found { return false, 0, pid, p.(spc := Stored(0, false, true)); }
      mid := s;
      err := EnsureParentDirs(pid, p.(spc := Dirs));
      Chain(was, mid, s, {});
      if err != 0 { return false, err, pid, p.(spc := Stored(err, false, true)); }
      return true, 0, pid, p.(spc := Open);
    }

    /** From the open temp file to the end. */
    method WriteAndPublish(pid: nat, p: Proc) returns (err: int, ghost q: Proc)
      requires Here(pid, p) && p.Store? && p.spc == Write
      modifies this`s, this`calls
      ensures Here(pid, q) && Kept(content, old(s), s)
      ensures q.Store? && q.tmp == p.tmp && q.dest == p.dest && q.data == p.data && q.spc.Stored? && q.spc.err == err
      ensures err == PublishErr(old(calls), |p.data|)
      ensures err != 0 ==> !Faultless(old(calls), calls)
      ensures NoneNew(old(s), s, {}) && (q.spc.cleaned ==> p.tmp !in s.fs.names)
      ensures !q.spc.cleaned ==> LastFailed()
      ensures old(calls) + 3 <= calls <= old(calls) + 4
    {
      hide Inv, Kept, NoneNew;
      ghost var was := s;
      var written, errno := SysWrite(pid, p);
      ghost var wrote := s;
      if written < 0 || written != |p.data| {
        err := if written < 0 then errno else EIO;
        SysCloseQuiet(pid, p.(spc := CloseFailed(err)));
        Chain(was, wrote, s, {});
        err, q := Discard(pid, p.(spc := Unlink(err)), was);
        return;
      }
      err := SysCloseWritten(pid, p.(spc := Close));
      Chain(was, wrote, s, {});
      if err != 0 {
        err, q := Discard(pid, p.(spc := Unlink(err)), was);
        return;
      }
      ghost var closed := s;
      err := SysRename(pid, p.(spc := Rename));
      Chain(was, closed, s, {});
      if err != 0 {
        err, q := Discard(pid, p.(spc := Unlink(if err == EEXIST then 0 else err)), was);
        return;
      }
      q := p.(spc := Stored(0, true, true));
    }

    /** Remove the temp file and return the error already captured. */
    method Discard(pid: nat, p: Proc, ghost was: State) returns (err: int, ghost q: Proc)
      requires Here(pid, p) && p.Store? && p.spc.Unlink? && Kept(content, was, s) && NoneNew(was, s, {})
      modifies this`s, this`calls
      ensures Here(pid, q) && Kept(content, was, s) && NoneNew(was, s, {})
      ensures err == p.spc.err && q.Store? && q.spc.Stored? && q == p.(spc := Stored(err, true, q.spc.cleaned))
      ensures q.spc.cleaned ==> p.tmp !in s.fs.names
      ensures !q.spc.cleaned ==> LastFailed()
      ensures calls == old(calls) + 1
    {
      hide Inv, Kept, NoneNew;
      ghost var mid := s;
      ghost var cleaned := SysUnlink(pid, p);
      Chain(was, mid, s, {});
      return p.spc.err, p.(spc := Stored(p.spc.err, true, cleaned));
    }

    // ---- Load -----------------------------------------------------------------------------------

    method SysOpen(pid: nat, p: Proc) returns (fd: int, errno: int, ghost q: Proc)
      requires Here(pid, p) && p.Load? && p.lpc == OpenSource
      modifies this`s, this`calls
      ensures Here(pid, q) && Kept(content, old(s), s) && NoneNew(old(s), s, {}) && q.Load? && calls == old(calls) + 1
      ensures fd < 0 <==> p.path !in Found(old(calls), pid, old(s)).fs.names || Fault(answers(old(calls))) != 0
      ensures fd < 0 ==> q == p.(lpc := Loaded(errno))
      ensures fd < 0 ==> errno == if p.path !in Found(old(calls), pid, old(s)).fs.names then ENOENT else Fault(answers(old(calls)))
      ensures fd >= 0 ==> q == p.(lpc := Read, ino := q.ino)
    {
      hide Inv, Found;
      var a := Enter(pid);
      fd, errno := -1, 0;
      if p.path !in s.fs.names {
        errno := ENOENT;
      } else if Fault(a) != 0 {
        errno := Fault(a);
      } else {
        fd := 3;
      }
      var pc := if fd < 0 then Loaded(errno) else Read;
      var r := p.(lpc := pc, ino := if fd < 0 then p.ino else s.fs.names[p.path]);
      q := r;
      Pass(pid, p, r);
    }

    /** `read` into `dst`: -1 with `errno`, or the number of bytes read, which falls
        short only when the block does. */
    method SysRead(pid: nat, p: Proc, dst: array<bv8>) returns (count: int, errno: int)
      requires Here(pid, p) && p.Load? && p.lpc == Read && dst.Length == p.size && content(p.path).Some?
      modifies this`s, this`calls, dst
      ensures Kept(content, old(s), s) && NoneNew(old(s), s, {}) && calls == old(calls) + 1 && errno == Fault(answers(old(calls)))
      ensures var block := content(p.path).value.bytes;
        count == if errno != 0 then -1 else if |block| < p.size then |block| else p.size
      ensures count < 0 ==> Here(pid, p.(lpc := CloseSource(errno))) && dst[..] == old(dst[..])
      ensures 0 <= count < p.size ==> Here(pid, p.(lpc := CloseShort, buf := content(p.path).value.bytes))
      ensures count >= p.size ==> Here(pid, p.(lpc := CloseSource(0), buf := dst[..]))
    {
      hide Inv, Found;
      var a := Enter(pid);
      ReadSees(content, s, pid);
      errno := Fault(a);
      if errno != 0 {
        count := -1;
        Pass(pid, p, p.(lpc := CloseSource(errno)));
      } else {
        var got := Prefix(s.fs.data[p.ino], p.size);
        forall i | 0 <= i < |got| { dst[i] := got[i]; }
        count := |got|;
        assert count == p.size ==> dst[..] == got;
        Pass(pid, p, p.(buf := got, lpc := if |got| < p.size then CloseShort else CloseSource(0)));
      }
    }

    /** `close`, its result ignored. */
    method SysCloseSource(pid: nat, p: Proc)
      requires Here(pid, p) && p.Load? && (p.lpc.CloseSource? || p.lpc.CloseShort?)
      modifies this`s, this`calls
      ensures Here(pid, p.(lpc := if p.lpc.CloseShort? then UnlinkShort else Loaded(p.lpc.err)))
      ensures Kept(content, old(s), s) && NoneNew(old(s), s, {}) && calls == old(calls) + 1
    {
      hide Inv, Found;
      var a := Enter(pid);
      Pass(pid, p, p.(lpc := if p.lpc.CloseShort? then UnlinkShort else Loaded(p.lpc.err)));
    }

    /** `unlink` after a short read, its result ignored. */
    method SysUnlinkShort(pid: nat, p: Proc)
      requires Here(pid, p) && p.Load? && p.lpc == UnlinkShort
      modifies this`s, this`calls
      ensures Here(pid, p.(lpc := Loaded(EIO))) && Kept(content, old(s), s) && NoneNew(old(s), s, {}) && calls == old(calls) + 1
      ensures answers(old(calls)).errno == 0 ==> p.path !in s.fs.names
    {
      hide Inv, Found;
      var a := Enter(pid);
      Advance(pid, p, if a.errno == 0 then s.fs.(names := s.fs.names - {p.path}) else s.fs, p.(lpc := Loaded(EIO)));
    }

    /** The open of a load of `path` finds it. */
    ghost predicate Sees(t: State, k: nat, pid: nat, path: Path, size: nat) {
      path in Found(k, pid, At(t, pid, Load(path, size, OpenSource, 0, []))).fs.names
    }

    /** The errno of the first call that fails, ENOENT when the block is missing, and
        EIO when it is all read and falls short. */
    ghost function LoadErr(k: nat, there: bool, short: bool): int {
      if !there then ENOENT
      else if Fault(answers(k)) != 0 then Fault(answers(k))
      else if Fault(answers(k + 1)) != 0 then Fault(answers(k + 1))
      else if short then EIO
      else 0
    }

    /** How many calls that takes: after the open, a read and a close, and an unlink
        if the read fell short. */
    ghost function LoadCalls(k: nat, there: bool, short: bool): nat {
      if !there || Fault(answers(k)) != 0 then 1
      else if Fault(answers(k + 1)) == 0 && short then 4
      else 3
    }

    /** The process went through all its calls to `Loaded`, and the result is the
        errno of the first that failed; a short read is EIO, after which the path is
        gone unless the unlink failed. 0 means the buffer holds the bytes asked for, and any
        other failure leaves it alone. A guarded block that was there when the load
        began is found. */
    method LoadBlock(path: Path, dst: array<bv8>) returns (err: int, ghost pid: nat, ghost q: Proc)
      requires Inv(content, s) && content(path).Some?
      requires Guarded(content, path) ==> dst.Length <= |content(path).value.bytes|
      modifies this`s, this`calls, this`attempts, dst
      ensures Here(pid, q) && pid !in old(s.procs) && Kept(content, old(s), s) && NoneNew(old(s), s, {})
      ensures q.Load? && q.path == path && q.size == dst.Length && q.lpc == Loaded(err) && attempts == old(attempts) + [(path, err)]
      ensures err == LoadErr(old(calls), Sees(old(s), old(calls), pid, path, dst.Length), dst.Length > |content(path).value.bytes|)
      ensures err == 0 ==> dst[..] == content(path).value.bytes[..dst.Length]
      ensures err != 0 && dst.Length <= |content(path).value.bytes| ==> dst[..] == old(dst[..])
      ensures calls == old(calls) + LoadCalls(old(calls), Sees(old(s), old(calls), pid, path, dst.Length), dst.Length > |content(path).value.bytes|)
      ensures calls == old(calls) + 4 && !LastFailed() ==> path !in s.fs.names
      ensures Guarded(content, path) && old(path in s.fs.names) ==> Sees(old(s), old(calls), pid, path, dst.Length)
    {
      hide Inv, Found;
      var p := Load(path, dst.Length, OpenSource, 0, []);
      var id := Begin(p);
      pid := id;
      var fd, errno;
      fd, errno, q := SysOpen(id, p);
      if fd < 0 {
        err := errno;
      } else {
        err, q := ReadAndClose(id, s.procs[id], dst);
      }
      attempts := attempts + [(path, err)];
    }

    /** From the open file to the end. */
    method ReadAndClose(pid: nat, p: Proc, dst: array<bv8>) returns (err: int, ghost q: Proc)
      requires Here(pid, p) && p.Load? && p.lpc == Read && dst.Length == p.size && content(p.path).Some?
      modifies this`s, this`calls, dst
      ensures Here(pid, q) && Kept(content, old(s), s) && NoneNew(old(s), s, {})
      ensures q.Load? && q.path == p.path && q.size == dst.Length && q.lpc == Loaded(err)
      ensures var fault, short := Fault(answers(old(calls))), dst.Length > |content(p.path).value.bytes|;
        && err == (if fault != 0 then fault else if short then EIO else 0)
        && calls == old(calls) + (if fault == 0 && short then 3 else 2)
        && (calls == old(calls) + 3 && !LastFailed() ==> p.path !in s.fs.names)
        && (fault != 0 ==> dst[..] == old(dst[..]))
      ensures err == 0 ==> dst[..] == content(p.path).value.bytes[..dst.Length]
    {
      hide Inv, Found;
      var count, errno := SysRead(pid, p, dst);
      if count < 0 {
        SysCloseSource(pid, p.(lpc := CloseSource(errno)));
        return errno, p.(lpc := Loaded(errno));
      }
      if count < dst.Length {
        var r := s.procs[pid];
        SysCloseSource(pid, r);
        SysUnlinkShort(pid, r.(lpc := UnlinkShort));
        return EIO, r.(lpc := Loaded(EIO));
      }
      var r := s.procs[pid];
      LoadedMeansContent(content, s, pid);
      SysCloseSource(pid, r);
      return 0, r.(lpc := Loaded(0));
    }

    // ---- Arguments --------------------------------------------------------------------------------

    /** Ask the interpreter for one argument. */
    method Convert() returns (ok: bool)
      modifies this`asked
      ensures asked == old(asked) + 1 && ok == !refuses(old(asked))
    {
      ok := !refuses(asked);
      asked := asked + 1;
    }

    /** A list of path strings: stops at the first that cannot be converted. */
    method ExtractPaths(n: nat) returns (ok: bool)
      modifies this`asked
      ensures ok <==> !Refused(old(asked), old(asked) + n)
      ensures ok ==> asked == old(asked) + n
    {
      var i := 0;
      while i < n
        invariant 0 <= i <= n && asked == old(asked) + i
        invariant !Refused(old(asked), asked)
      {
        ok := Convert();
        if !ok { return; }
        i := i + 1;
      }
      ok := true;
    }

    method Acquire(id: nat) returns (ok: bool)
      modifies this`held, this`asked
      ensures held == if ok then old(held) + multiset{id} else old(held)
      ensures asked == old(asked) + 1 && ok == !refuses(old(asked))
    {
      ok := Convert();
      if ok { held := held + multiset{id}; }
    }

    method Release(id: nat)
      requires id in held
      modifies this`held
      ensures held == old(held) - multiset{id}
    {
      held := held - multiset{id};
    }

    /** All buffers, or none: those acquired before a failure are released. */
    method ExtractBuffers(ids: seq<nat>) returns (ok: bool)
      modifies this`held, this`asked
      ensures held == if ok then old(held) + multiset(ids) else old(held)
      ensures ok <==> !Refused(old(asked), old(asked) + |ids|)
      ensures ok ==> asked == old(asked) + |ids|
    {
      hide Holding;
      HoldingNone(held, ids);
      var i := 0;
      while i < |ids|
        invariant 0 <= i <= |ids| && asked == old(asked) + i
        invariant Holding(old(held), held, ids, i)
        invariant !Refused(old(asked), asked)
      {
        ghost var now := held;
        ok := Acquire(ids[i]);
        if !ok {
          HoldingSome(old(held), held, ids, i);
          ReleaseBuffers(ids[..i]);
          return;
        }
        HoldingNext(old(held), now, ids, i);
        i := i + 1;
      }
      HoldingAll(old(held), held, ids);
      ok := true;
    }

    /** A list of paths and a list of buffers of the same length. */
    method ExtractLists(ids: seq<nat>) returns (ok: bool)
      modifies this`held, this`asked
      ensures held == if ok then old(held) + multiset(ids) else old(held)
      ensures ok <==> !Refused(old(asked), old(asked) + 2 * |ids|)
      ensures ok ==> asked == old(asked) + 2 * |ids|
    {
      ok := ExtractPaths(|ids|);
      if ok { ok := ExtractBuffers(ids); }
    }

    /** Each buffer of the list once. */
    method ReleaseBuffers(ids: seq<nat>)
      requires multiset(ids) <= held
      modifies this`held
      ensures held == old(held) - multiset(ids)
    {
      var j := 0;
      while j < |ids|
        invariant 0 <= j <= |ids|
        invariant multiset(ids[j..]) <= held
        invariant held == old(held) - multiset(ids) + multiset(ids[j..])
      {
        ReleasedNext(old(held), held, ids, j);
        Release(ids[j]);
        j := j + 1;
      }
    }

    // ---- Batches ----------------------------------------------------------------------------------

    /** A batch raises for its arguments exactly when the lists differ in length or an
        argument is refused. Blocks are stored in order up to the first failure and
        no further: when `Failed(k, e)` is raised, blocks before `k` are in place,
        the attempt at `k` returned `e` and the rest were never tried; when nothing
        is raised, all are in place. With no failing call, only a temp name in use
        stops it. Every buffer acquired is released, on every path. */
    method BatchStoreBlock(tmps: seq<Path>, dests: seq<Path>, sources: seq<Source>) returns (out: Outcome)
      requires Inv(content, s)
      requires forall i :: 0 <= i < |dests| && i < |tmps| && i < |sources| ==> content(tmps[i]).None?
      requires forall i :: 0 <= i < |dests| && i < |tmps| && i < |sources| ==>
        content(dests[i]).Some? && content(dests[i]).value.bytes == sources[i].bytes
      modifies this
      ensures Inv(content, s) && Kept(content, old(s), s) && held == old(held)
      ensures out == BadArguments <==>
        |dests| != |tmps| || |sources| != |tmps| || Refused(old(asked), old(asked) + 3 * |tmps|)
      ensures out == BadArguments ==> s == old(s) && calls == old(calls) && attempts == old(attempts)
      ensures out != BadArguments ==> asked == old(asked) + 3 * |tmps|
      ensures out == Done ==> attempts == old(attempts) + Cleanly(dests)
      ensures out == Done ==> forall i :: 0 <= i < |dests| ==> InPlace(content, s, dests[i])
      ensures out.Failed? ==> out.errno != 0 && out.index < |dests|
      ensures out.Failed? ==> attempts == old(attempts) + Cleanly(dests[..out.index]) + [(dests[out.index], out.errno)]
      ensures out.Failed? ==> forall i :: 0 <= i < out.index ==> InPlace(content, s, dests[i])
      ensures old(calls) <= calls <= old(calls) + 7 * |tmps|
      ensures out.Failed? && out.index < |tmps| && Faultless(old(calls), calls) ==>
        tmps[out.index] !in own || tmps[out.index] in old(s.fs.names)
    {
      hide Inv, InPlace, Faultless, Kept;
      KeptSame(content, s);
      var n := |tmps|;
      if |dests| != n || |sources| != n { return BadArguments; }
      var readable := ExtractPaths(n);
      if !readable { return BadArguments; }
      var ids := seq(n, i requires 0 <= i < n => sources[i].id);
      var acquired := ExtractLists(ids);
      if !acquired { return BadArguments; }
      out := StoreLoop(tmps, dests, sources);
      BackAgain(old(held), ids);
      ReleaseBuffers(ids);
    }

    method StoreLoop(tmps: seq<Path>, dests: seq<Path>, sources: seq<Source>) returns (out: Outcome)
      requires Inv(content, s) && |tmps| == |dests| == |sources|
      requires forall i :: 0 <= i < |dests| ==> content(tmps[i]).None?
      requires forall i :: 0 <= i < |dests| ==> content(dests[i]).Some? && content(dests[i]).value.bytes == sources[i].bytes
      modifies this`s, this`calls, this`attempts
      ensures Inv(content, s) && Kept(content, old(s), s) && out != BadArguments
      ensures out == Done ==> attempts == old(attempts) + Cleanly(dests)
      ensures out == Done ==> forall i :: 0 <= i < |dests| ==> InPlace(content, s, dests[i])
      ensures out.Failed? ==> out.errno != 0 && out.index < |dests|
      ensures out.Failed? ==> attempts == old(attempts) + Cleanly(dests[..out.index]) + [(dests[out.index], out.errno)]
      ensures out.Failed? ==> forall i :: 0 <= i < out.index ==> InPlace(content, s, dests[i])
      ensures old(calls) <= calls <= old(calls) + 7 * |tmps|
      ensures out.Failed? && Faultless(old(calls), calls) ==> tmps[out.index] !in own || tmps[out.index] in old(s.fs.names)
    {
      hide Inv, Present, Found, StoreEnds, Kept, NoneNew, Faultless, InPlace, Cleanly;
      KeptSame(content, s);
      NothingTried(dests);
      NoneNewSame(s);
      var i := 0;
      while i < |dests|
        invariant 0 <= i <= |dests| && old(calls) <= calls <= old(calls) + 7 * i
        invariant Inv(content, s) && Kept(content, old(s), s) && attempts == old(attempts) + Cleanly(dests[..i])
        invariant forall j :: 0 <= j < i ==> InPlace(content, s, dests[j])
        invariant Faultless(old(calls), calls) ==> NoneNew(old(s), s, {})
      {
        ghost var was, k := s, calls;
        var err, _, q := StoreBlock(tmps[i], dests[i], sources[i].bytes);
        if Faultless(old(calls), calls) {
          Halves(old(calls), k, calls);
          Chain(old(s), was, s, {});
          NotNamed(old(s), was, tmps[i]);
        }
        forall j | 0 <= j < i ensures InPlace(content, s, dests[j]) {
          StaysInPlace(content, was, s, dests[j]);
        }
        KeptChain(content, old(s), was, s);
        CleanlyNext(dests, i);
        if err != 0 { return Failed(i, err); }
        NowInPlace(content, s, dests[i], sources[i].bytes);
        i := i + 1;
      }
      assert dests[..|dests|] == dests;
      out := Done;
    }

    /** Loads stop at the first failure. `Failed(k, e)` carries the number of
        blocks loaded before it and what the attempt at `k` returned: each of those
        buffers that no later attempt wrote over holds its block, and buffers after
        `k` are untouched. With no failing call, only a missing block or one shorter
        than its buffer stops it, and a guarded block that was there is neither. */
    method BatchLoadBlock(paths: seq<Path>, targets: seq<Target>) returns (out: Outcome)
      requires Inv(content, s)
      requires forall i :: 0 <= i < |paths| && i < |targets| ==> content(paths[i]).Some? && Fits(content, paths[i], targets[i])
      modifies this, set t | t in targets :: t.bytes
      ensures Inv(content, s) && Kept(content, old(s), s) && held == old(held)
      ensures out == BadArguments <==> |targets| != |paths| || Refused(old(asked), old(asked) + 2 * |paths|)
      ensures out == BadArguments ==> s == old(s) && calls == old(calls) && attempts == old(attempts)
      ensures out == BadArguments ==> Contents(targets) == old(Contents(targets))
      ensures out == Done ==> attempts == old(attempts) + Cleanly(paths) && LoadedUpTo(content, paths, targets, Contents(targets), |paths|, |paths|)
      ensures out.Failed? ==> out.errno != 0 && out.index < |paths|
      ensures out.Failed? ==> attempts == old(attempts) + Cleanly(paths[..out.index]) + [(paths[out.index], out.errno)]
      ensures out.Failed? ==> LoadedUpTo(content, paths, targets, Contents(targets), out.index, out.index + 1)
      ensures out.Failed? ==> Untouched(targets, out.index + 1, old(Contents(targets)), Contents(targets))
      ensures old(calls) <= calls <= old(calls) + 4 * |paths|
      ensures out.Failed? && Faultless(old(calls), calls) ==> Absent(content, old(s), paths[out.index], targets[out.index], out.errno)
    {
      hide Inv, Fits, Faultless, Kept, Absent, LoadedUpTo, Untouched, Contents, Cleanly;
      KeptSame(content, s);
      var n := |paths|;
      if |targets| != n { return BadArguments; }
      var ids := seq(n, i requires 0 <= i < n => targets[i].id);
      var acquired := ExtractLists(ids);
      assert Contents(targets) == old(Contents(targets));
      if !acquired { return BadArguments; }
      BackAgain(old(held), ids);
      out := LoadAndRelease(paths, targets, ids);
    }

    method LoadAndRelease(paths: seq<Path>, targets: seq<Target>, ids: seq<nat>) returns (out: Outcome)
      requires Inv(content, s) && |paths| == |targets| && multiset(ids) <= held
      requires forall i :: 0 <= i < |paths| ==> content(paths[i]).Some? && Fits(content, paths[i], targets[i])
      modifies this`s, this`calls, this`attempts, this`held, set t | t in targets :: t.bytes
      ensures Inv(content, s) && Kept(content, old(s), s) && out != BadArguments && held == old(held) - multiset(ids)
      ensures out == Done ==> attempts == old(attempts) + Cleanly(paths) && LoadedUpTo(content, paths, targets, Contents(targets), |paths|, |paths|)
      ensures out.Failed? ==> out.errno != 0 && out.index < |paths|
      ensures out.Failed? ==> attempts == old(attempts) + Cleanly(paths[..out.index]) + [(paths[out.index], out.errno)]
      ensures out.Failed? ==> LoadedUpTo(content, paths, targets, Contents(targets), out.index, out.index + 1)
      ensures out.Failed? ==> Untouched(targets, out.index + 1, old(Contents(targets)), Contents(targets))
      ensures old(calls) <= calls <= old(calls) + 4 * |paths|
      ensures out.Failed? && Faultless(old(calls), calls) ==> Absent(content, old(s), paths[out.index], targets[out.index], out.errno)
    {
      hide Inv, Fits, Faultless, Kept, Absent, LoadedUpTo, Untouched, Contents, Cleanly;
      out := LoadLoop(paths, targets);
      ghost var now := Contents(targets);
      ReleaseBuffers(ids);
      assert Contents(targets) == now;
    }

    /** One attempt: only buffers that are the target's own can change. */
    method LoadNext(paths: seq<Path>, targets: seq<Target>, i: nat, ghost was: seq<Bytes>) returns (err: int)
      requires Inv(content, s) && i < |paths| == |targets| == |was|
      requires forall j :: 0 <= j < |paths| ==> content(paths[j]).Some? && Fits(content, paths[j], targets[j])
      requires LoadedUpTo(content, paths, targets, Contents(targets), i, i)
      requires Untouched(targets, i, was, Contents(targets))
      modifies this`s, this`calls, this`attempts, targets[i].bytes
      ensures Inv(content, s) && Kept(content, old(s), s) && attempts == old(attempts) + [(paths[i], err)]
      ensures LoadedUpTo(content, paths, targets, Contents(targets), if err == 0 then i + 1 else i, i + 1)
      ensures Untouched(targets, i + 1, was, Contents(targets))
      ensures old(calls) <= calls <= old(calls) + 4
      ensures err != 0 && Faultless(old(calls), calls) ==> Absent(content, old(s), paths[i], targets[i], err)
    {
      hide Inv, LoadedUpTo, Untouched, Contents, Kept, Found, NoneNew;
      ghost var now := Contents(targets);
      ghost var pid, q;
      err, pid, q := LoadBlock(paths[i], targets[i].bytes);
      LoadedNext(content, paths, targets, was, now, Contents(targets), i, err == 0);
    }

    method LoadLoop(paths: seq<Path>, targets: seq<Target>) returns (out: Outcome)
      requires Inv(content, s) && |paths| == |targets|
      requires forall i :: 0 <= i < |paths| ==> content(paths[i]).Some? && Fits(content, paths[i], targets[i])
      modifies this`s, this`calls, this`attempts, set t | t in targets :: t.bytes
      ensures Inv(content, s) && Kept(content, old(s), s) && out != BadArguments
      ensures out == Done ==> attempts == old(attempts) + Cleanly(paths) && LoadedUpTo(content, paths, targets, Contents(targets), |paths|, |paths|)
      ensures out.Failed? ==> out.errno != 0 && out.index < |paths|
      ensures out.Failed? ==> attempts == old(attempts) + Cleanly(paths[..out.index]) + [(paths[out.index], out.errno)]
      ensures out.Failed? ==> LoadedUpTo(content, paths, targets, Contents(targets), out.index, out.index + 1)
      ensures out.Failed? ==> Untouched(targets, out.index + 1, old(Contents(targets)), Contents(targets))
      ensures old(calls) <= calls <= old(calls) + 4 * |paths|
      ensures out.Failed? && Faultless(old(calls), calls) ==> Absent(content, old(s), paths[out.index], targets[out.index], out.errno)
    {
      hide Inv, LoadedUpTo, Untouched, Contents, Fits;
      NothingLoaded(content, paths, targets, Contents(targets));
      var i := 0;
      while i < |paths|
        invariant 0 <= i <= |paths| && old(calls) <= calls <= old(calls) + 4 * i
        invariant Inv(content, s) && Kept(content, old(s), s) && attempts == old(attempts) + Cleanly(paths[..i])
        invariant LoadedUpTo(content, paths, targets, Contents(targets), i, i)
        invariant Untouched(targets, i, old(Contents(targets)), Contents(targets))
      {
        assert targets[i] in targets;
        var err := LoadNext(paths, targets, i, old(Contents(targets)));
        CleanlyNext(paths, i);
        if err != 0 { return Failed(i, err); }
        i := i + 1;
      }
      assert paths[..|paths|] == paths;
      out := Done;
    }

    /** Store a batch, let others run, load it into buffers of the same sizes: what
        was loaded is what was stored, in the same order, block by block up to the
        first failure. With temp names of its own, no refused argument and no failing
        call, both return and every buffer holds its block. */
    method StoreThenLoad(tmps: seq<Path>, dests: seq<Path>, sources: seq<Source>, targets: seq<Target>) returns (stored: Outcome, loaded: Outcome)
      requires Inv(content, s) && |tmps| == |dests| == |sources| == |targets|
      requires forall i :: 0 <= i < |tmps| ==> content(tmps[i]).None?
      requires forall i :: 0 <= i < |dests| ==> content(dests[i]) == Some(Block(sources[i].bytes, true))
      requires forall i :: 0 <= i < |targets| ==> targets[i].bytes.Length == |sources[i].bytes|
      requires forall i, j :: 0 <= i < j < |targets| ==> targets[i].bytes != targets[j].bytes
      modifies this, set t | t in targets :: t.bytes
      ensures old(calls) <= calls
      ensures Faultless(old(calls), calls) && !Refused(old(asked), old(asked) + 5 * |tmps|) && Fresh(tmps, old(s)) ==>
        stored == Done && loaded == Done
      ensures stored == Done && loaded == Done ==>
        forall i :: 0 <= i < |targets| ==> targets[i].bytes[..] == sources[i].bytes
      ensures stored == Done && loaded.Failed? ==> loaded.index < |targets| && !Faultless(old(calls), calls)
      ensures stored == Done && loaded.Failed? ==>
        forall i :: 0 <= i < loaded.index ==> targets[i].bytes[..] == sources[i].bytes
    {
      hide Inv, Contents, Present;
      stored := BatchStoreBlock(tmps, dests, sources);
      loaded := BadArguments;
      if stored != Done { return; }
      ghost var was := s;
      var _ := Enter(0);
      forall i | 0 <= i < |dests| ensures dests[i] in s.fs.names {
        NamedIfInPlace(content, was, dests[i]);
      }
      loaded := LoadBack(dests, targets);
    }

    method LoadBack(paths: seq<Path>, targets: seq<Target>) returns (out: Outcome)
      requires Inv(content, s) && |paths| == |targets|
      requires forall i :: 0 <= i < |paths| ==> Guarded(content, paths[i]) && paths[i] in s.fs.names
      requires forall i :: 0 <= i < |paths| ==> content(paths[i]).Some? && targets[i].bytes.Length == |content(paths[i]).value.bytes|
      requires forall i, j :: 0 <= i < j < |targets| ==> targets[i].bytes != targets[j].bytes
      modifies this, set t | t in targets :: t.bytes
      ensures old(calls) <= calls
      ensures out == BadArguments <==> Refused(old(asked), old(asked) + 2 * |paths|)
      ensures out == Done ==> forall i :: 0 <= i < |targets| ==> targets[i].bytes[..] == content(paths[i]).value.bytes
      ensures out.Failed? ==> out.index < |targets| && !Faultless(old(calls), calls)
      ensures out.Failed? ==> forall i :: 0 <= i < out.index ==> targets[i].bytes[..] == content(paths[i]).value.bytes
    {
      hide Inv, Contents, Untouched, LoadedUpTo, Kept, Present;
      out := BatchLoadBlock(paths, targets);
      if out == BadArguments { return; }
      ghost var count := if out == Done then |paths| else out.index;
      WholeBlocks(content, paths, targets, Contents(targets), count, if out == Done then count else count + 1);
    }
  }
}
