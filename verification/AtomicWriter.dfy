/** `write_atomic` as it runs: a sequence of system calls of one process, with steps of other
    processes and of the file system between any two of them. Each execution is a run of the
    machine in `AtomicWrite`, so what is proved of runs there holds of it. */
module AtomicWriter {
  import opened Wrappers
  import opened AtomicWrite

  function Replay(s: State, moves: seq<Move>): Option<State>
    decreases |moves|
  {
    if moves == [] then Some(s)
    else
      var before := Replay(s, moves[..|moves| - 1]);
      if before.None? then None else Next(before.value, moves[|moves| - 1].0, moves[|moves| - 1].1)
  }

  lemma ReplayOneMore(s: State, moves: seq<Move>, m: Move)
    requires Replay(s, moves).Some?
    ensures Replay(s, moves + [m]) == Next(Replay(s, moves).value, m.0, m.1)
  {
    assert (moves + [m])[..|moves|] == moves;
  }

  lemma {:induction false} ReplayOk(s: State, moves: seq<Move>)
    requires Init(s) && Replay(s, moves).Some?
    ensures Inv(Replay(s, moves).value)
    decreases |moves|
  {
    if moves != [] {
      ReplayOk(s, moves[..|moves| - 1]);
      var m := moves[|moves| - 1];
      StepKeeps(Replay(s, moves[..|moves| - 1]).value, m.0, m.1);
    }
  }

  // All the states a replay goes through.
  ghost function States(s: State, moves: seq<Move>): seq<State>
    requires Replay(s, moves).Some?
    decreases |moves|
  {
    if moves == [] then [s] else States(s, moves[..|moves| - 1]) + [Replay(s, moves).value]
  }

  /** A replay is a run, so the theorems about runs apply to it. */
  lemma {:induction false} ReplayIsRun(s: State, moves: seq<Move>)
    requires Init(s) && Replay(s, moves).Some?
    ensures Run(States(s, moves), moves)
    ensures States(s, moves)[|moves|] == Replay(s, moves).value
    decreases |moves|
  {
    if moves != [] {
      var n := |moves| - 1;
      ReplayIsRun(s, moves[..n]);
      var before, states := States(s, moves[..n]), States(s, moves);
      forall i | 0 <= i < |moves|
        ensures Moved(states[i], moves[i], states[i + 1])
      {
        if i < n {
          assert Moved(before[i], moves[..n][i], before[i + 1]);
        }
      }
    }
  }

  // Process `me` stands at `pc`, doing `job`.
  predicate Doing(s: State, me: Pid, job: Job, pc: Pc) {
    me in s.pcs && me in s.jobs && s.pcs[me] == pc && s.jobs[me] == job
  }

  predicate Absent(s: State, me: Pid) {
    me !in s.pcs && me !in s.jobs
  }

  // The bytes of a temp.
  function BytesOf(s: State, temp: Inode): Option<Data> {
    if temp in s.files.data then Some(s.files.data[temp]) else None
  }

  predicate NotBy(me: Pid, moves: seq<Move>) {
    forall k :: 0 <= k < |moves| ==> moves[k].0 != me
  }

  // What the steps of others leave alone: where `me` stands, its job, its own temp's bytes.
  predicate Kept(s: State, s': State, me: Pid) {
    && (Absent(s, me) ==> Absent(s', me))
    && (me in s.pcs && me in s.jobs ==>
          && Doing(s', me, s.jobs[me], s.pcs[me])
          && (Own(s.pcs[me]).Some? && Own(s.pcs[me]).value in s.files.data ==>
                BytesOf(s', Own(s.pcs[me]).value) == BytesOf(s, Own(s.pcs[me]).value)))
  }

  lemma OthersKeepMine(s: State, q: Pid, l: Label, me: Pid)
    requires TempsApart(s.pcs) && Next(s, q, l).Some? && q != me && !l.PowerLoss?
    ensures Kept(s, Next(s, q, l).value, me)
  {
    if q in s.pcs && me in s.pcs {
      assert !SameTemp(s.pcs[q], s.pcs[me]);
    }
  }

  /** One directory, as its processes share it. Every method is one system call of `me`. */
  class Directory {
    var st: State
    ghost const origin: State
    ghost var trace: seq<Move>

    // The state is that of a run of the machine, from a directory at rest.
    ghost predicate Valid()
      reads this
    {
      Init(origin) && Replay(origin, trace) == Some(st)
    }

    constructor (st: State)
      requires Init(st)
      ensures Valid() && this.st == st
    {
      this.st, origin, trace := st, st, [];
    }

    method Call(me: Pid, l: Label)
      requires Valid() && Next(st, me, l).Some?
      modifies this
      ensures Valid() && Some(st) == Next(old(st), me, l) && trace == old(trace) + [(me, l)]
    {
      ReplayOneMore(origin, trace, (me, l));
      st := Next(st, me, l).value;
      trace := trace + [(me, l)];
    }

    // Anything the other processes and the file system do, short of the power failing.
    method Others(me: Pid)
      requires Valid()
      modifies this
      ensures Valid() && Kept(old(st), st, me)
      ensures old(trace) <= trace && NotBy(me, trace[|old(trace)|..])
    {
      var n: int := *;
      while 0 < n
        invariant Valid() && Kept(old(st), st, me)
        invariant old(trace) <= trace && NotBy(me, trace[|old(trace)|..])
      {
        var q: Pid, l: Label := *, *;
        if q != me && !l.PowerLoss? && Next(st, q, l).Some? {
          ReplayOk(origin, trace);
          OthersKeepMine(st, q, l, me);
          Call(q, l);
        }
        n := n - 1;
      }
    }

    method Begin(me: Pid, job: Job)
      requires Valid() && Absent(st, me)
      modifies this
      ensures Valid() && Doing(st, me, job, Scan)
      ensures old(trace) <= trace
    {
      Call(me, Spawn(job));
    }

    // An error at any point: the destructors unlink the temp and drop the lock.
    method GiveUp(me: Pid, ghost job: Job)
      requires Valid() && me in st.pcs && Doing(st, me, job, st.pcs[me]) && Running(st.pcs[me])
      modifies this
      ensures Valid() && Doing(st, me, job, DoneErr(old(st.pcs)[me].Renamed?))
      ensures trace == old(trace) + [(me, IoError)]
    {
      Call(me, IoError);
    }

    method Open(me: Pid, suffix: nat, ghost job: Job) returns (found: Option<Inode>)
      requires Valid() && Doing(st, me, job, Scan)
      modifies this
      ensures Valid() && Doing(st, me, job, if found.Some? then Found(found.value) else Scan)
      ensures trace == old(trace) + [(me, ScanOpen(suffix))]
    {
      Call(me, ScanOpen(suffix));
      return if st.pcs[me].Found? then Some(st.pcs[me].temp) else None;
    }

    method TryLock(me: Pid, temp: Inode, ghost job: Job) returns (locked: bool)
      requires Valid() && Doing(st, me, job, Found(temp))
      modifies this
      ensures Valid() && Doing(st, me, job, if locked then Holding(temp) else Scan)
      ensures trace == old(trace) + [(me, ScanLock)]
    {
      Call(me, ScanLock);
      return st.pcs[me].Holding?;
    }

    method Remove(me: Pid, temp: Inode, ghost job: Job) returns (ok: bool)
      requires Valid() && Doing(st, me, job, Holding(temp))
      modifies this
      ensures Valid() && Doing(st, me, job, if ok then Scan else DoneErr(false))
      ensures trace == old(trace) + [(me, ScanUnlink)]
    {
      Call(me, ScanUnlink);
      return st.pcs[me].Scan?;
    }

    // A fresh temp in the directory, or an error when the suffix drawn is taken.
    method NewTemp(me: Pid, ghost job: Job) returns (temp: Option<Inode>)
      requires Valid() && Doing(st, me, job, Scan)
      modifies this
      ensures Valid() && Doing(st, me, job, if temp.Some? then Created(temp.value) else DoneErr(false))
      ensures temp.Some? ==> BytesOf(st, temp.value) == Some([])
      ensures old(trace) <= trace
    {
      Call(me, ScanEnd);
      var suffix: nat := *;
      if suffix in st.files.data {
        Call(me, IoError);
        return None;
      }
      Call(me, CreateTemp(suffix));
      return Some(suffix);
    }

    method LockTempFile(me: Pid, temp: Inode, ghost job: Job) returns (ok: bool)
      requires Valid() && Doing(st, me, job, Created(temp)) && BytesOf(st, temp) == Some([])
      modifies this
      ensures Valid() && Doing(st, me, job, if ok then Writing(temp) else DoneErr(false))
      ensures old(trace) <= trace
      ensures ok ==> BytesOf(st, temp) == Some([])
    {
      Call(me, LockTemp);
      return st.pcs[me].Writing?;
    }

    method WriteChunk(me: Pid, temp: Inode, count: nat, ghost job: Job)
      requires Valid() && Doing(st, me, job, Writing(temp)) && BytesOf(st, temp).Some?
      requires |BytesOf(st, temp).value| + count <= |job.value|
      modifies this
      ensures Valid() && Doing(st, me, job, Writing(temp))
      ensures old(trace) <= trace
      ensures BytesOf(st, temp) == Some(job.value[..|BytesOf(old(st), temp).value| + count])
    {
      Call(me, Write(count));
    }

    method SyncAll(me: Pid, temp: Inode, ghost job: Job)
      requires Valid() && Doing(st, me, job, Writing(temp)) && BytesOf(st, temp) == Some(job.value)
      modifies this
      ensures Valid() && Doing(st, me, job, Synced(temp))
      ensures old(trace) <= trace
    {
      Call(me, Fsync);
    }

    method PersistTemp(me: Pid, temp: Inode, ghost job: Job) returns (file: Option<Inode>)
      requires Valid() && Doing(st, me, job, Synced(temp))
      modifies this
      ensures Valid() && Doing(st, me, job, if file.Some? then Renamed(file.value) else DoneErr(false))
      ensures old(trace) <= trace
    {
      Call(me, Rename);
      return if st.pcs[me].Renamed? then Some(st.pcs[me].file) else None;
    }

    method SyncParentDir(me: Pid, file: Inode, ghost job: Job)
      requires Valid() && Doing(st, me, job, Renamed(file))
      modifies this
      ensures Valid() && Doing(st, me, job, DoneOk(file))
      ensures old(trace) <= trace
    {
      Call(me, FsyncDir);
    }
  }

  // A step of the scan. It unlinks only a temp that it holds locked, and nobody else does.
  predicate ScanStep(before: Option<State>, me: Pid, l: Label) {
    || l.ScanOpen? || l.ScanLock? || l.IoError?
    || (l.ScanUnlink? && before.Some? && me in before.value.pcs && before.value.pcs[me].Holding?
        && before.value.pcs[me].temp in before.value.locks && before.value.locks[before.value.pcs[me].temp] == me)
  }

  // From position `start` of the trace on, `me` has only scanned.
  ghost predicate Scanned(origin: State, trace: seq<Move>, start: nat, me: Pid) {
    forall k :: start <= k < |trace| && trace[k].0 == me ==> ScanStep(Replay(origin, trace[..k]), me, trace[k].1)
  }

  lemma ScannedOthers(origin: State, trace: seq<Move>, trace': seq<Move>, start: nat, me: Pid)
    requires Scanned(origin, trace, start, me) && trace <= trace' && NotBy(me, trace'[|trace|..])
    ensures Scanned(origin, trace', start, me)
  {
    forall k | |trace| <= k < |trace'|
      ensures trace'[k].0 != me
    {
      assert trace'[|trace|..][k - |trace|] == trace'[k];
    }
    forall k | start <= k < |trace|
      ensures trace'[..k] == trace[..k] && trace'[k] == trace[k]
    {
    }
  }

  lemma ScannedMore(origin: State, trace: seq<Move>, start: nat, me: Pid, l: Label)
    requires Scanned(origin, trace, start, me) && ScanStep(Replay(origin, trace), me, l)
    ensures Scanned(origin, trace + [(me, l)], start, me)
  {
    var trace' := trace + [(me, l)];
    forall k | start <= k < |trace'| && trace'[k].0 == me
      ensures ScanStep(Replay(origin, trace'[..k]), me, trace'[k].1)
    {
      assert trace'[..k] == trace[..k];
      assert k == |trace| ==> trace[..k] == trace;
    }
  }

  lemma HeldIsLocked(origin: State, trace: seq<Move>, me: Pid, job: Job, temp: Inode)
    requires Init(origin) && Replay(origin, trace).Some? && Doing(Replay(origin, trace).value, me, job, Holding(temp))
    ensures ScanStep(Replay(origin, trace), me, ScanUnlink)
  {
    ReplayOk(origin, trace);
    var s := Replay(origin, trace).value;
    assert HoldsItsLock(s.locks, me, s.pcs[me]);
  }

  // The directory scan: opens each temp it meets, skips the locked ones, unlinks the rest.
  method CleanupStaleTempFiles(dir: Directory, me: Pid, ghost job: Job) returns (ok: bool)
    requires dir.Valid() && Doing(dir.st, me, job, Scan)
    modifies dir
    ensures dir.Valid() && Doing(dir.st, me, job, if ok then Scan else DoneErr(false))
    ensures old(dir.trace) <= dir.trace && Scanned(dir.origin, dir.trace, |old(dir.trace)|, me)
  {
    ghost var start := |dir.trace|;
    var entries: int := *;
    while 0 < entries
      invariant dir.Valid() && Doing(dir.st, me, job, Scan)
      invariant old(dir.trace) <= dir.trace && Scanned(dir.origin, dir.trace, start, me)
    {
      entries := entries - 1;
      ok := CleanupEntry(dir, me, job, start);
      if !ok {
        return;
      }
    }
    return true;
  }

  // One entry of the directory.
  method CleanupEntry(dir: Directory, me: Pid, ghost job: Job, ghost start: nat) returns (ok: bool)
    requires dir.Valid() && Doing(dir.st, me, job, Scan) && Scanned(dir.origin, dir.trace, start, me)
    modifies dir
    ensures dir.Valid() && Doing(dir.st, me, job, if ok then Scan else DoneErr(false))
    ensures old(dir.trace) <= dir.trace && Scanned(dir.origin, dir.trace, start, me)
  {
    OthersInScan(dir, me, start);
    if * {
      ScannedMore(dir.origin, dir.trace, start, me, IoError);
      dir.GiveUp(me, job);
      return false;
    }
    var suffix: nat := *;
    ScannedMore(dir.origin, dir.trace, start, me, ScanOpen(suffix));
    var found := dir.Open(me, suffix, job);
    if found.None? {
      return true;
    }
    ok := TakeFound(dir, me, found.value, job, start);
  }

  // The lock, and then the unlink if it was free.
  method TakeFound(dir: Directory, me: Pid, temp: Inode, ghost job: Job, ghost start: nat) returns (ok: bool)
    requires dir.Valid() && Doing(dir.st, me, job, Found(temp)) && Scanned(dir.origin, dir.trace, start, me)
    modifies dir
    ensures dir.Valid() && Doing(dir.st, me, job, if ok then Scan else DoneErr(false))
    ensures old(dir.trace) <= dir.trace && Scanned(dir.origin, dir.trace, start, me)
  {
    OthersInScan(dir, me, start);
    if * {
      ScannedMore(dir.origin, dir.trace, start, me, IoError);
      dir.GiveUp(me, job);
      return false;
    }
    ScannedMore(dir.origin, dir.trace, start, me, ScanLock);
    var locked := dir.TryLock(me, temp, job);
    if !locked {
      return true;
    }
    OthersInScan(dir, me, start);
    HeldIsLocked(dir.origin, dir.trace, me, job, temp);
    ScannedMore(dir.origin, dir.trace, start, me, ScanUnlink);
    ok := dir.Remove(me, temp, job);
  }

  // What others do while `me` scans.
  method OthersInScan(dir: Directory, me: Pid, ghost start: nat)
    requires dir.Valid() && Scanned(dir.origin, dir.trace, start, me)
    modifies dir
    ensures dir.Valid() && Kept(old(dir.st), dir.st, me)
    ensures old(dir.trace) <= dir.trace && Scanned(dir.origin, dir.trace, start, me)
  {
    ghost var before := dir.trace;
    dir.Others(me);
    ScannedOthers(dir.origin, before, dir.trace, start, me);
  }

  // Fills the locked temp, in chunks of any size.
  method WriteAll(dir: Directory, me: Pid, temp: Inode, bytes: Data, ghost job: Job) returns (ok: bool)
    requires dir.Valid() && Doing(dir.st, me, job, Writing(temp)) && BytesOf(dir.st, temp) == Some([])
    requires job.value == bytes
    modifies dir
    ensures dir.Valid() && Doing(dir.st, me, job, if ok then Writing(temp) else DoneErr(false))
    ensures ok ==> BytesOf(dir.st, temp) == Some(bytes)
    ensures old(dir.trace) <= dir.trace
  {
    var done := 0;
    while done < |bytes|
      invariant 0 <= done <= |bytes|
      invariant dir.Valid() && Doing(dir.st, me, job, Writing(temp))
      invariant BytesOf(dir.st, temp) == Some(bytes[..done])
      invariant old(dir.trace) <= dir.trace
    {
      dir.Others(me);
      if * {
        dir.GiveUp(me, job);
        return false;
      }
      var some: nat := *;
      var count := if 0 < some <= |bytes| - done then some else |bytes| - done;
      dir.WriteChunk(me, temp, count, job);
      done := done + count;
    }
    assert bytes[..|bytes|] == bytes;
    return true;
  }

  // A temp with all the bytes, safely on disk.
  method StageTemp(dir: Directory, me: Pid, bytes: Data, ghost job: Job) returns (temp: Option<Inode>)
    requires dir.Valid() && Doing(dir.st, me, job, Scan) && job.value == bytes
    modifies dir
    ensures dir.Valid() && old(dir.trace) <= dir.trace
    ensures Doing(dir.st, me, job, if temp.Some? then Synced(temp.value) else DoneErr(false))
  {
    dir.Others(me);
    temp := dir.NewTemp(me, job);
    if temp.None? {
      return;
    }
    var ok := FillTemp(dir, me, temp.value, bytes, job);
    if !ok {
      return None;
    }
  }

  // The new temp: locked, filled and fsynced.
  method FillTemp(dir: Directory, me: Pid, temp: Inode, bytes: Data, ghost job: Job) returns (ok: bool)
    requires dir.Valid() && Doing(dir.st, me, job, Created(temp)) && BytesOf(dir.st, temp) == Some([])
    requires job.value == bytes
    modifies dir
    ensures dir.Valid() && old(dir.trace) <= dir.trace
    ensures Doing(dir.st, me, job, if ok then Synced(temp) else DoneErr(false))
  {
    dir.Others(me);
    ok := dir.LockTempFile(me, temp, job);
    if !ok {
      return;
    }
    ok := WriteAll(dir, me, temp, bytes, job);
    if !ok {
      return;
    }
    dir.Others(me);
    if * {
      dir.GiveUp(me, job);
      return false;
    }
    dir.SyncAll(me, temp, job);
  }

  /** Replaces `target` by `bytes`, as one process among others. Ok: this very rename is done
      and durable. Err: nothing was renamed, unless only the last fsync failed. */
  method WriteAtomic(dir: Directory, me: Pid, target: nat, bytes: Data) returns (ok: bool)
    requires dir.Valid() && Absent(dir.st, me)
    modifies dir
    ensures dir.Valid() && old(dir.trace) <= dir.trace
    ensures me in dir.st.pcs && Doing(dir.st, me, Job(target, bytes), dir.st.pcs[me])
    ensures ok <==> dir.st.pcs[me].DoneOk?
    ensures !ok <==> dir.st.pcs[me].DoneErr?
    ensures ok ==> var file := dir.st.pcs[me].file;
                   && file in dir.st.sealed && dir.st.sealed[file].job == Job(target, bytes)
                   && DurableSince(dir.st, target, dir.st.sealed[file].rank)
    ensures ok ==> BytesOf(dir.st, dir.st.pcs[me].file) == Some(bytes)
  {
    ghost var job := Job(target, bytes);
    dir.Begin(me, Job(target, bytes));
    ok := CleanupStaleTempFiles(dir, me, job);
    if !ok {
      return;
    }
    var temp := StageTemp(dir, me, bytes, job);
    if temp.None? {
      return false;
    }
    dir.Others(me);
    if * {
      dir.GiveUp(me, job);
      return false;
    }
    var file := dir.PersistTemp(me, temp.value, job);
    if file.None? {
      return false;
    }
    dir.Others(me);
    if * {
      dir.GiveUp(me, job);
      return false;
    }
    dir.SyncParentDir(me, file.value, job);
    OkMeansDurable(dir.origin, dir.trace, me, job, file.value);
    return true;
  }

  lemma OkMeansDurable(origin: State, trace: seq<Move>, me: Pid, job: Job, file: Inode)
    requires Init(origin) && Replay(origin, trace).Some?
    requires Doing(Replay(origin, trace).value, me, job, DoneOk(file))
    ensures var s := Replay(origin, trace).value;
            && file in s.sealed && s.sealed[file].job == job
            && DurableSince(s, job.target, s.sealed[file].rank)
            && BytesOf(s, file) == Some(job.value)
  {
    ReplayOk(origin, trace);
    var s := Replay(origin, trace).value;
    assert PcOk(s.files, s.sealed, s.jobs[me], s.pcs[me]);
  }
}
