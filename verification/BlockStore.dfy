/** Block files published by rename: any number of stores and loads interleaved
    one system call at a time, any call allowed to fail. File names are content
    hashes, so a destination path has one possible content; temp paths have none.
    A load that finds fewer bytes than it asked for removes the file, so the
    destinations are told apart by whether every load of them asks for no more
    than the block: those are guarded. */
module BlockStore {
  import opened Wrappers

  type Path = string
  type Inode = nat
  type Bytes = seq<bv8>

  /** The one content of a destination. */
  datatype Block = Block(bytes: Bytes, guarded: bool)

  type Content = Path -> Option<Block>

  predicate Guarded(content: Content, a: Path) { content(a).Some? && content(a).value.guarded }

  const ENOENT := 2
  const EIO := 5
  const EEXIST := 17

  /** Names, and the content of every inode ever created. */
  datatype Fs = Fs(names: map<Path, Inode>, data: map<Inode, Bytes>)

  datatype StorePc =
    | Access | Dirs | Open | Write | Close | Rename
    | CloseFailed(err: int)
    | Unlink(err: int)
    | Stored(err: int, created: bool, cleaned: bool)

  datatype LoadPc =
    | OpenSource | Read
    | CloseSource(err: int)
    | CloseShort | UnlinkShort
    | Loaded(err: int)

  datatype Proc =
    | Store(tmp: Path, dest: Path, data: Bytes, spc: StorePc, ino: Inode)
    | Load(path: Path, size: nat, lpc: LoadPc, ino: Inode, buf: Bytes)

  datatype State = State(fs: Fs, procs: map<nat, Proc>)

  // ---- One system call ----------------------------------------------------------------

  /** A system call of a store: `_store_block` from `access` to `rename`. */
  ghost predicate StoreStep(fs: Fs, p: Proc, fs': Fs, q: Proc)
    requires p.Store?
  {
    match p.spc
    case Access =>
      fs' == fs && (q == p.(spc := Dirs) || (p.dest in fs.names && q == p.(spc := Stored(0, false, true))))
    case Dirs =>
      fs' == fs && (q == p.(spc := Open) || exists e {:trigger Stored(e, false, true)} :: e != 0 && q == p.(spc := Stored(e, false, true)))
    case Open =>
      || (fs' == fs && exists e {:trigger Stored(e, false, true)} :: e != 0 && q == p.(spc := Stored(e, false, true)))
      || (p.tmp !in fs.names && q.Store? && q.ino !in fs.data && q == p.(spc := Write, ino := q.ino)
          && fs' == Fs(fs.names[p.tmp := q.ino], fs.data[q.ino := []]))
    case Write =>
      exists n {:trigger p.data[..n]} :: 0 <= n <= |p.data| && fs' == fs.(data := fs.data[p.ino := p.data[..n]])
        && ((n == |p.data| && q == p.(spc := Close)) || exists e {:trigger CloseFailed(e)} :: e != 0 && q == p.(spc := CloseFailed(e)))
    case CloseFailed(e) =>
      fs' == fs && q == p.(spc := Unlink(e))
    case Close =>
      fs' == fs && (q == p.(spc := Rename) || exists e {:trigger Unlink(e)} :: e != 0 && q == p.(spc := Unlink(e)))
    case Rename =>
      || (p.tmp in fs.names && q == p.(spc := Stored(0, true, true))
          && fs' == fs.(names := (fs.names - {p.tmp})[p.dest := fs.names[p.tmp]]))
      || (fs' == fs && exists e {:trigger RenameFailure(e)} ::
            e != 0 && (e == EEXIST ==> p.dest in fs.names) && q == p.(spc := Unlink(RenameFailure(e))))
    case Unlink(e) =>
      || (fs' == fs && q == p.(spc := Stored(e, true, false)))
      || (p.tmp in fs.names && fs' == fs.(names := fs.names - {p.tmp}) && q == p.(spc := Stored(e, true, true)))
    case Stored(_, _, _) => false
  }

  /** A rename that fails because the block is already there counts as stored. */
  function RenameFailure(e: int): int { if e == EEXIST then 0 else e }

  function Prefix(b: Bytes, n: nat): Bytes { if n <= |b| then b[..n] else b }

  /** A system call of a load. A read that succeeds returns what the file holds,
      up to the requested size. */
  ghost predicate LoadStep(fs: Fs, p: Proc, fs': Fs, q: Proc)
    requires p.Load?
  {
    match p.lpc
    case OpenSource =>
      fs' == fs && ((exists e {:trigger Loaded(e)} :: e != 0 && (e == ENOENT ==> p.path !in fs.names) && q == p.(lpc := Loaded(e)))
                    || (p.path in fs.names && q == p.(lpc := Read, ino := fs.names[p.path])))
    case Read =>
      fs' == fs && ((exists e {:trigger CloseSource(e)} :: e != 0 && q == p.(lpc := CloseSource(e)))
                    || (p.ino in fs.data
                        && var got := Prefix(fs.data[p.ino], p.size);
                           q == p.(buf := got, lpc := if |got| < p.size then CloseShort else CloseSource(0))))
    case CloseSource(e) => fs' == fs && q == p.(lpc := Loaded(e))
    case CloseShort => fs' == fs && q == p.(lpc := UnlinkShort)
    case UnlinkShort =>
      (fs' == fs || fs' == fs.(names := fs.names - {p.path})) && q == p.(lpc := Loaded(EIO))
    case Loaded(_) => false
  }

  ghost predicate ProcStep(fs: Fs, p: Proc, fs': Fs, q: Proc) {
    if p.Store? then StoreStep(fs, p, fs', q) else LoadStep(fs, p, fs', q)
  }

  ghost predicate Starts(content: Content, p: Proc) {
    if p.Store? then
      p.spc == Access && content(p.tmp).None? && content(p.dest).Some? && content(p.dest).value.bytes == p.data
    else
      p.lpc == OpenSource && content(p.path).Some? && (Guarded(content, p.path) ==> p.size <= |content(p.path).value.bytes|)
  }

  /** Process `pid` makes a system call, or a new store or load begins. */
  ghost predicate Next(content: Content, s: State, pid: nat, t: State) {
    if pid in s.procs then
      pid in t.procs && ProcStep(s.fs, s.procs[pid], t.fs, t.procs[pid]) && t.procs == s.procs[pid := t.procs[pid]]
    else
      pid in t.procs && Starts(content, t.procs[pid]) && t.procs == s.procs[pid := t.procs[pid]] && t.fs == s.fs
  }

  // ---- The invariant ------------------------------------------------------------------------

  /** The store has created its temp file and has not yet let go of it. */
  predicate Owns(p: Proc) {
    p.Store? && (p.spc.Write? || p.spc.Close? || p.spc.Rename? || p.spc.CloseFailed? || p.spc.Unlink?)
  }

  predicate FsOk(content: Content, fs: Fs) {
    && (forall a :: a in fs.names ==> fs.names[a] in fs.data)
    && (forall a, b :: a in fs.names && b in fs.names && a != b ==> fs.names[a] != fs.names[b])
    && (forall a :: a in fs.names && content(a).Some? ==> fs.data[fs.names[a]] == content(a).value.bytes)
  }

  /** What holds of one process and the files. */
  predicate ProcOk(content: Content, fs: Fs, p: Proc) {
    match p
    case Store(tmp, dest, data, spc, ino) =>
      && content(tmp).None? && content(dest).Some? && content(dest).value.bytes == data
      && (Owns(p) ==> tmp in fs.names && fs.names[tmp] == ino && ino in fs.data)
      && (spc.Close? || spc.Rename? ==> fs.data[ino] == data)
      && (spc.CloseFailed? ==> spc.err != 0)
      && ((spc.Stored? || spc.Unlink?) && spc.err == 0 && Guarded(content, dest) ==> dest in fs.names)
      && (spc.Stored? && spc.created ==> ino in fs.data)
      && (spc.Stored? && spc.created && spc.cleaned ==> forall a :: a in fs.names && fs.names[a] == ino ==> content(a).Some?)
    case Load(path, size, lpc, ino, buf) =>
      && content(path).Some? && (Guarded(content, path) ==> size <= |content(path).value.bytes|)
      && (lpc.CloseShort? || lpc.UnlinkShort? ==> size > |content(path).value.bytes|)
      && (lpc.Read? ==> ino in fs.data && fs.data[ino] == content(path).value.bytes)
      && ((lpc.CloseSource? || lpc.Loaded?) && lpc.err == 0 ==>
            size <= |content(path).value.bytes| && buf == content(path).value.bytes[..size])
  }

  /** Two processes: a temp path has one owner, and nobody writes a file that is
      being read. */
  predicate PairOk(p: Proc, q: Proc) {
    && (Owns(p) && Owns(q) ==> p.tmp != q.tmp)
    && (Owns(p) && q.Load? && q.lpc.Read? ==> p.ino != q.ino)
    && (Owns(p) && q.Store? && q.spc.Stored? && q.spc.created ==> p.ino != q.ino)
  }

  predicate Inv(content: Content, s: State) {
    && FsOk(content, s.fs)
    && (forall i :: i in s.procs ==> ProcOk(content, s.fs, s.procs[i]))
    && (forall i, j :: i in s.procs && j in s.procs && i != j ==> PairOk(s.procs[i], s.procs[j]))
  }

  // ---- Every step keeps it ----------------------------------------------------------------------

  /** How one process's call changes the files, as all others see it: no guarded
      destination disappears, no temp file but the caller's own is touched, only
      the caller's own inode changes content, and no old inode gets a temp name. */
  ghost predicate Guarantee(content: Content, fs: Fs, p: Proc, fs': Fs) {
    && (forall a :: a in fs.names && Guarded(content, a) ==> a in fs'.names)
    && (forall a :: a in fs.names && content(a).None? && !(Owns(p) && a == p.tmp) ==>
          a in fs'.names && fs'.names[a] == fs.names[a])
    && (forall i :: i in fs.data ==> i in fs'.data && (fs'.data[i] == fs.data[i] || (Owns(p) && i == p.ino)))
    && (forall a :: a in fs'.names && fs'.names[a] in fs.data && content(a).None? ==> a in fs.names && fs.names[a] == fs'.names[a])
  }

  lemma OpenKeeps(content: Content, fs: Fs, p: Proc, fs': Fs, q: Proc)
    requires p.Store? && p.spc.Open? && FsOk(content, fs) && ProcOk(content, fs, p) && StoreStep(fs, p, fs', q)
    ensures FsOk(content, fs') && ProcOk(content, fs', q) && Guarantee(content, fs, p, fs')
  {}

  lemma WriteKeeps(content: Content, fs: Fs, p: Proc, fs': Fs, q: Proc)
    requires p.Store? && p.spc.Write? && FsOk(content, fs) && ProcOk(content, fs, p) && StoreStep(fs, p, fs', q)
    ensures FsOk(content, fs') && ProcOk(content, fs', q) && Guarantee(content, fs, p, fs')
  {
    assert p.data[..|p.data|] == p.data;
  }

  /** The rename gives the destination a complete file and the temp path nothing. */
  lemma RenameKeeps(content: Content, fs: Fs, p: Proc, fs': Fs, q: Proc)
    requires p.Store? && p.spc.Rename? && FsOk(content, fs) && ProcOk(content, fs, p) && StoreStep(fs, p, fs', q)
    ensures FsOk(content, fs') && ProcOk(content, fs', q) && Guarantee(content, fs, p, fs')
  {}

  lemma UnlinkKeeps(content: Content, fs: Fs, p: Proc, fs': Fs, q: Proc)
    requires p.Store? && p.spc.Unlink? && FsOk(content, fs) && ProcOk(content, fs, p) && StoreStep(fs, p, fs', q)
    ensures FsOk(content, fs') && ProcOk(content, fs', q) && Guarantee(content, fs, p, fs')
  {}

  lemma StoreStepKeeps(content: Content, fs: Fs, p: Proc, fs': Fs, q: Proc)
    requires p.Store? && FsOk(content, fs) && ProcOk(content, fs, p) && StoreStep(fs, p, fs', q)
    ensures FsOk(content, fs') && ProcOk(content, fs', q) && Guarantee(content, fs, p, fs')
  {
    match p.spc {
      case Open => OpenKeeps(content, fs, p, fs', q);
      case Write => WriteKeeps(content, fs, p, fs', q);
      case Rename => RenameKeeps(content, fs, p, fs', q);
      case Unlink(_) => UnlinkKeeps(content, fs, p, fs', q);
      case _ => assert fs' == fs;
    }
  }

  lemma LoadStepKeeps(content: Content, fs: Fs, p: Proc, fs': Fs, q: Proc)
    requires p.Load? && FsOk(content, fs) && ProcOk(content, fs, p) && LoadStep(fs, p, fs', q)
    ensures FsOk(content, fs') && ProcOk(content, fs', q) && Guarantee(content, fs, p, fs')
  {}

  lemma OthersKept(content: Content, fs: Fs, p: Proc, fs': Fs, r: Proc)
    requires FsOk(content, fs) && Guarantee(content, fs, p, fs') && ProcOk(content, fs, p) && ProcOk(content, fs, r)
    requires PairOk(p, r) && PairOk(r, p)
    ensures ProcOk(content, fs', r)
  {}

  lemma PairKept(content: Content, fs: Fs, p: Proc, fs': Fs, q: Proc, r: Proc)
    requires FsOk(content, fs) && ProcOk(content, fs, p) && ProcOk(content, fs, r) && ProcStep(fs, p, fs', q)
    requires PairOk(p, r) && PairOk(r, p)
    ensures PairOk(q, r) && PairOk(r, q)
  {}

  lemma StepKeeps(content: Content, s: State, pid: nat, t: State)
    requires Inv(content, s) && Next(content, s, pid, t)
    ensures Inv(content, t)
    ensures forall a :: a in s.fs.names && Guarded(content, a) ==> a in t.fs.names
  {
    hide FsOk, ProcOk, PairOk, StoreStep, LoadStep, Guarantee;
    if pid in s.procs {
      var p, q := s.procs[pid], t.procs[pid];
      CallKeeps(content, s.fs, p, t.fs, q);
      forall i | i in t.procs && i != pid
        ensures ProcOk(content, t.fs, t.procs[i]) && PairOk(q, t.procs[i]) && PairOk(t.procs[i], q)
      {
        OthersKept(content, s.fs, p, t.fs, s.procs[i]);
        PairKept(content, s.fs, p, t.fs, q, s.procs[i]);
      }
    } else {
      forall i | i in s.procs ensures PairOk(t.procs[pid], s.procs[i]) && PairOk(s.procs[i], t.procs[pid]) {
        NewPair(content, t.procs[pid], s.procs[i]);
      }
      NewProc(content, s.fs, t.procs[pid]);
    }
  }

  lemma CallKeeps(content: Content, fs: Fs, p: Proc, fs': Fs, q: Proc)
    requires FsOk(content, fs) && ProcOk(content, fs, p) && ProcStep(fs, p, fs', q)
    ensures FsOk(content, fs') && ProcOk(content, fs', q) && Guarantee(content, fs, p, fs')
    ensures forall a :: a in fs.names && Guarded(content, a) ==> a in fs'.names
  {
    if p.Store? { StoreStepKeeps(content, fs, p, fs', q); } else { LoadStepKeeps(content, fs, p, fs', q); }
  }

  lemma NewPair(content: Content, p: Proc, r: Proc)
    requires Starts(content, p)
    ensures PairOk(p, r) && PairOk(r, p)
  {}

  lemma NewProc(content: Content, fs: Fs, p: Proc)
    requires Starts(content, p)
    ensures ProcOk(content, fs, p)
  {}

  // ---- Runs -------------------------------------------------------------------------------------

  /** A run: any number of processes, their calls in any order. */
  ghost predicate Run(content: Content, states: seq<State>, pids: seq<nat>) {
    && |states| == |pids| + 1
    && forall k :: 0 <= k < |pids| ==> Next(content, states[k], pids[k], states[k+1])
  }

  /** Before any process starts, destinations are absent or complete; temp files
      of crashed processes may lie around. */
  ghost predicate Initial(content: Content, s: State) {
    FsOk(content, s.fs) && s.procs == map[]
  }

  lemma {:induction false} RunKeeps(content: Content, states: seq<State>, pids: seq<nat>, k: nat)
    requires Run(content, states, pids) && Initial(content, states[0]) && k < |states|
    ensures Inv(content, states[k])
  {
    hide FsOk, Next;
    if k > 0 {
      hide Inv;
      RunKeeps(content, states, pids, k - 1);
      StepKeeps(content, states[k-1], pids[k-1], states[k]);
    }
  }

  /** In every reachable state, each destination is absent or holds its whole
      block; and a guarded destination once there is never lost. */
  lemma PublishedBlocks(content: Content, states: seq<State>, pids: seq<nat>, j: nat, k: nat, dest: Path)
    requires Run(content, states, pids) && Initial(content, states[0]) && j <= k < |states| && content(dest).Some?
    ensures dest in states[k].fs.names ==>
      states[k].fs.names[dest] in states[k].fs.data && states[k].fs.data[states[k].fs.names[dest]] == content(dest).value.bytes
    ensures Guarded(content, dest) && dest in states[j].fs.names ==> dest in states[k].fs.names
  {
    if Guarded(content, dest) && dest in states[j].fs.names {
      NeverLost(content, states, pids, j, k, dest);
    }
    RunKeeps(content, states, pids, k);
  }

  lemma {:induction false} NeverLost(content: Content, states: seq<State>, pids: seq<nat>, j: nat, k: nat, dest: Path)
    requires Run(content, states, pids) && Initial(content, states[0]) && j <= k < |states|
    requires Guarded(content, dest) && dest in states[j].fs.names
    ensures dest in states[k].fs.names
    decreases k
  {
    hide Inv, Next, Initial;
    if j < k {
      NeverLost(content, states, pids, j, k - 1, dest);
      RunKeeps(content, states, pids, k - 1);
      StepKeeps(content, states[k-1], pids[k-1], states[k]);
    }
  }

  /** Only a load that asks for more than the block comes to the unlink of its
      source, and one that returns 0 has read exactly the bytes it asked for. */
  lemma LoadsAreExact(content: Content, states: seq<State>, pids: seq<nat>, k: nat, i: nat)
    requires Run(content, states, pids) && Initial(content, states[0]) && k < |states|
    requires i in states[k].procs && states[k].procs[i].Load?
    ensures content(states[k].procs[i].path).Some?
    ensures states[k].procs[i].lpc.UnlinkShort? ==> states[k].procs[i].size > |content(states[k].procs[i].path).value.bytes|
    ensures states[k].procs[i].lpc == Loaded(0) ==>
      states[k].procs[i].buf <= content(states[k].procs[i].path).value.bytes && |states[k].procs[i].buf| == states[k].procs[i].size
  {
    RunKeeps(content, states, pids, k);
  }

  /** A temp file has one owner at a time; a store that returns 0 leaves its
      guarded destination in place; one that returns with its cleanup done leaves no
      temp name on the file it created. */
  lemma StoresAreClean(content: Content, states: seq<State>, pids: seq<nat>, k: nat, i: nat, j: nat)
    requires Run(content, states, pids) && Initial(content, states[0]) && k < |states|
    requires i in states[k].procs && j in states[k].procs && states[k].procs[i].Store?
    ensures Owns(states[k].procs[i]) && Owns(states[k].procs[j]) && states[k].procs[i].tmp == states[k].procs[j].tmp ==> i == j
    ensures states[k].procs[i].spc.Stored? && states[k].procs[i].spc.err == 0 && Guarded(content, states[k].procs[i].dest) ==>
      states[k].procs[i].dest in states[k].fs.names
    ensures states[k].procs[i].spc.Stored? && states[k].procs[i].spc.created && states[k].procs[i].spc.cleaned ==>
      forall a :: a in states[k].fs.names && states[k].fs.names[a] == states[k].procs[i].ino ==> content(a).Some?
  {
    RunKeeps(content, states, pids, k);
  }

  // ---- Who can lose a block ---------------------------------------------------------------------

  /** A load of `dest` that asks for more than the block has. */
  predicate Oversized(content: Content, p: Proc, dest: Path) {
    p.Load? && p.path == dest && content(dest).Some? && p.size > |content(dest).value.bytes|
  }

  /** The one call that can take a destination away is the unlink of an oversized load. */
  lemma StepLoses(content: Content, s: State, pid: nat, t: State, dest: Path)
    requires Inv(content, s) && Next(content, s, pid, t) && content(dest).Some?
    requires dest in s.fs.names && dest !in t.fs.names
    ensures pid in s.procs && Oversized(content, s.procs[pid], dest)
  {
    assert pid in s.procs;
    assert ProcOk(content, s.fs, s.procs[pid]);
  }

  /** In any run, a destination that was there and is gone was taken by an oversized
      load in between. */
  lemma {:induction false} LostToOversized(content: Content, states: seq<State>, pids: seq<nat>, j: nat, k: nat, dest: Path)
    returns (m: nat)
    requires Run(content, states, pids) && Initial(content, states[0]) && j <= k < |states| && content(dest).Some?
    requires dest in states[j].fs.names && dest !in states[k].fs.names
    ensures j <= m < k && pids[m] in states[m].procs && Oversized(content, states[m].procs[pids[m]], dest)
    decreases k
  {
    hide Inv, Next, Initial, Oversized;
    if dest in states[k-1].fs.names {
      m := k - 1;
      RunKeeps(content, states, pids, k - 1);
      StepLoses(content, states[k-1], pids[k-1], states[k], dest);
    } else {
      m := LostToOversized(content, states, pids, j, k - 1, dest);
    }
  }

  /** From `s`, process `pid` loads `size` bytes of `path` and nobody else acts. */
  ghost predicate LoneLoad(content: Content, s: State, pid: nat, path: Path, size: nat, states: seq<State>) {
    && |states| > 0 && states[0] == s
    && (forall k :: 0 <= k < |states| - 1 ==> Next(content, states[k], pid, states[k+1]))
    && (|states| > 1 ==> pid in states[1].procs && states[1].procs[pid] == Load(path, size, OpenSource, 0, []))
  }

  /** Some such load ends with the file gone. */
  ghost predicate CanLose(content: Content, s: State, pid: nat, path: Path, size: nat) {
    exists states: seq<State> :: LoneLoad(content, s, pid, path, size, states) && |states| > 0 && path !in states[|states| - 1].fs.names
  }

  /** A load of a destination that is there can take it away if and only if it asks
      for more than the block has. */
  lemma LostIffOversized(content: Content, s: State, pid: nat, path: Path, size: nat)
    requires Inv(content, s) && pid !in s.procs && path in s.fs.names
    requires content(path).Some? && !Guarded(content, path)
    ensures CanLose(content, s, pid, path, size) <==> size > |content(path).value.bytes|
  {
    hide Inv, Next, LoneLoad;
    if size > |content(path).value.bytes| {
      var states := LosingRun(content, s, pid, path, size);
    }
    if CanLose(content, s, pid, path, size) {
      var states: seq<State> :| LoneLoad(content, s, pid, path, size, states) && |states| > 0 && path !in states[|states| - 1].fs.names;
      LoneLoadKeeps(content, s, pid, path, size, states, |states| - 1);
    }
  }

  /** Open, a short read, close, unlink. */
  lemma LosingRun(content: Content, s: State, pid: nat, path: Path, size: nat) returns (states: seq<State>)
    requires Inv(content, s) && pid !in s.procs && path in s.fs.names
    requires content(path).Some? && !Guarded(content, path) && size > |content(path).value.bytes|
    ensures LoneLoad(content, s, pid, path, size, states) && |states| > 0 && path !in states[|states| - 1].fs.names
  {
    hide Inv;
    var ino := s.fs.names[path];
    FileIsBlock(content, s, path);
    var got := s.fs.data[ino];
    var p0 := Load(path, size, OpenSource, 0, []);
    var p1 := p0.(lpc := Read, ino := ino);
    var p2 := p1.(buf := got, lpc := CloseShort);
    var p3 := p2.(lpc := UnlinkShort);
    var p4 := p3.(lpc := Loaded(EIO));
    var s0, s1, s2, s3 := At(s, pid, p0), At(s, pid, p1), At(s, pid, p2), At(s, pid, p3);
    var s4 := State(s.fs.(names := s.fs.names - {path}), s.procs[pid := p4]);
    LoadMoves(content, s0, pid, p0, s.fs, p1);
    LoadMoves(content, s1, pid, p1, s.fs, p2);
    LoadMoves(content, s2, pid, p2, s.fs, p3);
    LoadMoves(content, s3, pid, p3, s4.fs, p4);
    hide Next;
    states := [s, s0, s1, s2, s3, s4];
  }

  lemma FileIsBlock(content: Content, s: State, path: Path)
    requires Inv(content, s) && path in s.fs.names && content(path).Some?
    ensures s.fs.names[path] in s.fs.data && s.fs.data[s.fs.names[path]] == content(path).value.bytes
  {}

  lemma LoadMoves(content: Content, s: State, pid: nat, p: Proc, fs: Fs, q: Proc)
    requires p.Load? && pid in s.procs && s.procs[pid] == p && LoadStep(s.fs, p, fs, q)
    ensures Next(content, s, pid, State(fs, s.procs[pid := q]))
  {
    hide LoadStep;
  }

  function At(s: State, pid: nat, p: Proc): State { State(s.fs, s.procs[pid := p]) }

  /** A load that fits keeps its source, and stays the same load. */
  lemma {:induction false} LoneLoadKeeps(content: Content, s: State, pid: nat, path: Path, size: nat, states: seq<State>, k: nat)
    requires Inv(content, s) && pid !in s.procs && path in s.fs.names && content(path).Some?
    requires LoneLoad(content, s, pid, path, size, states) && k < |states|
    ensures Inv(content, states[k])
    ensures k > 0 ==> pid in states[k].procs && states[k].procs[pid].Load? && states[k].procs[pid].path == path && states[k].procs[pid].size == size
    ensures size <= |content(path).value.bytes| ==> path in states[k].fs.names
  {
    hide Inv, Next;
    if k > 0 {
      LoneLoadKeeps(content, s, pid, path, size, states, k - 1);
      var a, b := states[k-1], states[k];
      assert Next(content, a, pid, b);
      StepKeeps(content, a, pid, b);
      if k > 1 { SameLoad(content, a, pid, b); }
      if path in a.fs.names && path !in b.fs.names { StepLoses(content, a, pid, b, path); }
    }
  }

  lemma SameLoad(content: Content, s: State, pid: nat, t: State)
    requires Next(content, s, pid, t) && pid in s.procs && s.procs[pid].Load?
    ensures pid in t.procs && t.procs[pid].Load? && t.procs[pid].path == s.procs[pid].path && t.procs[pid].size == s.procs[pid].size
  {}

  // ---- What a process may count on --------------------------------------------------------------

  /** What the calls of all other processes may do while `pid` is between two of
      its own: anything that keeps the invariant, leaves `pid` where it is, loses
      no guarded destination, and makes none of the names in `own`. */
  predicate Rely(content: Content, own: set<Path>, s: State, pid: nat, t: State) {
    && (Inv(content, s) ==> Inv(content, t))
    && (pid in s.procs ==> pid in t.procs && t.procs[pid] == s.procs[pid])
    && (Inv(content, s) ==> forall a :: a in s.fs.names && Guarded(content, a) ==> a in t.fs.names)
    && (Inv(content, s) ==> forall a :: a in own && a in t.fs.names ==> a in s.fs.names)
  }

  /** Process `i` uses none of the temp names in `own`. */
  predicate Foreign(own: set<Path>, t: State, i: nat) {
    i in t.procs && (t.procs[i].Store? ==> t.procs[i].tmp !in own)
  }

  lemma ForeignStep(content: Content, own: set<Path>, s: State, i: nat, t: State)
    requires Inv(content, s) && Next(content, s, i, t) && Foreign(own, t, i)
    requires forall a :: a in own ==> content(a).None?
    ensures forall a :: a in own && a in t.fs.names ==> a in s.fs.names
  {
    if i in s.procs { assert ProcOk(content, s.fs, s.procs[i]); }
  }

  /** Every run made of calls of processes with other temp names is covered by `Rely`. */
  lemma {:induction false} RelyCoversOthers(content: Content, own: set<Path>, states: seq<State>, pids: seq<nat>, pid: nat, k: nat)
    requires Run(content, states, pids) && pid !in pids && k < |states|
    requires forall a :: a in own ==> content(a).None?
    requires forall j :: 0 <= j < |pids| ==> Foreign(own, states[j+1], pids[j])
    ensures Rely(content, own, states[0], pid, states[k])
  {
    hide Inv, ProcStep, Starts, Foreign;
    if k > 0 {
      RelyCoversOthers(content, own, states, pids, pid, k - 1);
      assert pids[k-1] in pids;
      if Inv(content, states[k-1]) {
        StepKeeps(content, states[k-1], pids[k-1], states[k]);
        ForeignStep(content, own, states[k-1], pids[k-1], states[k]);
      }
    }
  }
}
