/** The crash-safe file writer: any number of processes in one directory, each cleaning
    stale temp files and then replacing its target by temp, fsync, rename and directory
    fsync. A process may be killed, and the power may fail, between any two steps. */
module AtomicWrite {
  import opened Wrappers

  type Pid = nat
  type Inode = nat
  type Data = seq<bv8>

  // Temp suffixes are fresh, as inodes are, so a temp's suffix also serves as its inode.
  datatype Name = Target(id: nat) | Temp(suffix: Inode)

  // One call of the writer: the file to replace and the bytes to put there.
  datatype Job = Job(target: nat, value: Data)

  datatype Pc =
    | Scan
    | Found(temp: Inode)
    | Holding(temp: Inode)
    | Create
    | Created(temp: Inode)
    | Writing(temp: Inode)
    | Synced(temp: Inode)
    | Renamed(file: Inode)
    | DoneOk(file: Inode)
    | DoneErr(renamed: bool)
    | Dead

  // `names` is what processes see and `durable` what a power loss leaves behind.
  datatype Files = Files(
    names: map<Name, Inode>, durable: map<Name, Inode>, data: map<Inode, Data>, synced: set<Inode>)

  // What is recorded of an inode renamed onto a target: the job and the place in the order
  // of all renames.
  datatype Seal = Seal(job: Job, rank: nat)

  datatype State = State(
    files: Files, sealed: map<Inode, Seal>, clock: nat,
    locks: map<Inode, Pid>, jobs: map<Pid, Job>, pcs: map<Pid, Pc>)

  datatype Label =
    | Spawn(job: Job)
    | ScanOpen(suffix: nat)
    | ScanLock
    | ScanUnlink
    | ScanEnd
    | CreateTemp(suffix: nat)
    | LockTemp
    | Write(count: nat)
    | Fsync
    | Rename
    | FsyncDir
    | IoError
    | Kill
    | Flush(name: Name)
    | PowerLoss(garbage: map<Inode, Data>)

  /* ---------------------------- Steps ---------------------------- */

  // The inode a process holds a lock on.
  function Held(pc: Pc): Option<Inode> {
    match pc
    case Holding(i) => Some(i)
    case Writing(i) => Some(i)
    case Synced(i) => Some(i)
    case Renamed(i) => Some(i)
    case _ => None
  }

  // The temp a process has created and not yet renamed.
  function Own(pc: Pc): Option<Inode> {
    match pc
    case Created(i) => Some(i)
    case Writing(i) => Some(i)
    case Synced(i) => Some(i)
    case _ => None
  }

  predicate Running(pc: Pc) {
    !pc.DoneOk? && !pc.DoneErr? && !pc.Dead?
  }

  // Locks follow the process: taken when it comes to hold an inode, dropped when it leaves it.
  function Relock(locks: map<Inode, Pid>, p: Pid, before: Option<Inode>, after: Option<Inode>): map<Inode, Pid> {
    var dropped := if before.Some? then locks - {before.value} else locks;
    if after.Some? then dropped[after.value := p] else dropped
  }

  function Go(s: State, p: Pid, pc: Pc): State
    requires p in s.pcs
  {
    s.(pcs := s.pcs[p := pc], locks := Relock(s.locks, p, Held(s.pcs[p]), Held(pc)))
  }

  function Unlink(f: Files, temp: Inode): Files {
    f.(names := f.names - {Temp(temp)})
  }

  // What the temp file's destructor leaves: it unlinks by name, if there is a temp.
  function Dropped(f: Files, pc: Pc): Files {
    if Own(pc).Some? then Unlink(f, Own(pc).value) else f
  }

  function Failed(s: State, p: Pid): State
    requires p in s.pcs
  {
    Go(s.(files := Dropped(s.files, s.pcs[p])), p, DoneErr(s.pcs[p].Renamed?))
  }

  function WithTemp(f: Files, temp: Inode): Files {
    f.(names := f.names[Temp(temp) := temp], data := f.data[temp := []])
  }

  // What the temp holds after `count` more bytes.
  function Appended(f: Files, temp: Inode, value: Data, count: nat): Files
    requires temp in f.data && |f.data[temp]| + count <= |value|
  {
    f.(data := f.data[temp := value[..|f.data[temp]| + count]])
  }

  function Fsynced(f: Files, i: Inode): Files {
    f.(synced := f.synced + {i})
  }

  function Installed(f: Files, temp: Inode, t: nat): Files
    requires Temp(temp) in f.names
  {
    f.(names := (f.names - {Temp(temp)})[Target(t) := f.names[Temp(temp)]])
  }

  // The rename has put the temp, whatever inode it names, under the target.
  function InPlace(s: State, p: Pid, temp: Inode, job: Job): State
    requires p in s.pcs && Temp(temp) in s.files.names
  {
    var i := s.files.names[Temp(temp)];
    Go(s.(files := Installed(s.files, temp, job.target), sealed := s.sealed[i := Seal(job, s.clock)],
          clock := s.clock + 1), p, Renamed(i))
  }

  function OwnStep(s: State, p: Pid, l: Label): Option<State>
    requires p in s.pcs && p in s.jobs
  {
    var f, job := s.files, s.jobs[p];
    match (l, s.pcs[p])
    case (ScanOpen(n), Scan) =>
      if Temp(n) in f.names then Some(Go(s, p, Found(f.names[Temp(n)]))) else Some(s)
    case (ScanLock, Found(i)) =>
      Some(Go(s, p, if i in s.locks then Scan else Holding(i)))
    case (ScanUnlink, Holding(i)) =>
      if Temp(i) in f.names then Some(Go(s.(files := Unlink(f, i)), p, Scan)) else Some(Failed(s, p))
    case (ScanEnd, Scan) => Some(Go(s, p, Create))
    case (CreateTemp(n), Create) =>
      if n in f.data then None else Some(Go(s.(files := WithTemp(f, n)), p, Created(n)))
    case (LockTemp, Created(i)) =>
      if i in s.locks then Some(Failed(s, p)) else Some(Go(s, p, Writing(i)))
    case (Write(k), Writing(i)) =>
      if i in f.data && |f.data[i]| + k <= |job.value|
      then Some(Go(s.(files := Appended(f, i, job.value, k)), p, Writing(i))) else None
    case (Fsync, Writing(i)) =>
      if i in f.data && f.data[i] == job.value
      then Some(Go(s.(files := Fsynced(f, i)), p, Synced(i))) else None
    case (Rename, Synced(i)) =>
      if Temp(i) in f.names then Some(InPlace(s, p, i, job)) else Some(Failed(s, p))
    case (FsyncDir, Renamed(i)) => Some(Go(s.(files := f.(durable := f.names)), p, DoneOk(i)))
    case (IoError, pc) => if Running(pc) then Some(Failed(s, p)) else None
    case (Kill, pc) => if Running(pc) then Some(Go(s, p, Dead)) else None
    case _ => None
  }

  // The file system writes one directory entry out of its own accord.
  function Flushed(f: Files, name: Name): Files {
    f.(durable := if name in f.names then f.durable[name := f.names[name]] else f.durable - {name})
  }

  // What a power loss leaves: the durable names; files never fsynced may hold anything.
  function Recovered(f: Files, garbage: map<Inode, Data>): Files {
    f.(names := f.durable,
       data := map i | i in f.data :: if i in f.synced || i !in garbage then f.data[i] else garbage[i])
  }

  function Stopped(pc: Pc): Pc {
    if Running(pc) then Dead else pc
  }

  function Restarted(s: State, garbage: map<Inode, Data>): State {
    s.(files := Recovered(s.files, garbage),
       locks := map[],
       pcs := map p | p in s.pcs :: Stopped(s.pcs[p]))
  }

  function Next(s: State, p: Pid, l: Label): Option<State> {
    match l
    case Spawn(job) =>
      if p in s.pcs || p in s.jobs then None
      else Some(s.(jobs := s.jobs[p := job], pcs := s.pcs[p := Scan]))
    case Flush(name) => Some(s.(files := Flushed(s.files, name)))
    case PowerLoss(garbage) => Some(Restarted(s, garbage))
    case _ => if p in s.pcs && p in s.jobs then OwnStep(s, p, l) else None
  }

  /* ---------------------------- Invariant ---------------------------- */

  // An inode is locked by `p` exactly when `p` holds it.
  ghost predicate LocksOk(locks: map<Inode, Pid>, pcs: map<Pid, Pc>) {
    && (forall i :: i in locks ==> locks[i] in pcs && Held(pcs[locks[i]]) == Some(i))
    && (forall p :: p in pcs ==> HoldsItsLock(locks, p, pcs[p]))
  }

  predicate HoldsItsLock(locks: map<Inode, Pid>, p: Pid, pc: Pc) {
    Held(pc).Some? ==> Held(pc).value in locks && locks[Held(pc).value] == p
  }

  // A temp name only ever means the inode it was created with.
  ghost predicate TempsOk(f: Files) {
    && (forall n :: Temp(n) in f.names ==> f.names[Temp(n)] == n && n in f.data)
    && (forall n :: Temp(n) in f.durable ==> f.durable[Temp(n)] == n && n in f.data)
    && f.synced <= f.data.Keys
  }

  // What was renamed into place is fsynced and complete.
  ghost predicate SealedOk(f: Files, sealed: map<Inode, Seal>, clock: nat) {
    forall i :: i in sealed ==>
      i in f.data && i in f.synced && f.data[i] == sealed[i].job.value && sealed[i].rank < clock
  }

  // The file under target `t` in `names` was put there by a rename of rank at least `rank`.
  predicate PlacedSince(names: map<Name, Inode>, sealed: map<Inode, Seal>, t: nat, rank: nat) {
    && Target(t) in names && names[Target(t)] in sealed
    && sealed[names[Target(t)]].job.target == t
    && rank <= sealed[names[Target(t)]].rank
  }

  // Every target, seen or durable, is a sealed file of its own; the durable one is not newer.
  ghost predicate TargetsOk(f: Files, sealed: map<Inode, Seal>) {
    && (forall t :: Target(t) in f.names ==> PlacedSince(f.names, sealed, t, 0))
    && (forall t :: Target(t) in f.durable ==>
          PlacedSince(f.durable, sealed, t, 0)
          && PlacedSince(f.names, sealed, t, sealed[f.durable[Target(t)]].rank))
  }

  predicate PcOk(f: Files, sealed: map<Inode, Seal>, job: Job, pc: Pc) {
    match pc
    case Created(i) => i in f.data && i !in sealed && f.data[i] == []
    case Writing(i) => i in f.data && i !in sealed && f.data[i] <= job.value
    case Synced(i) => i in f.data && i !in sealed && f.data[i] == job.value && i in f.synced
    case Renamed(i) => i in sealed && sealed[i].job == job && PlacedSince(f.names, sealed, job.target, sealed[i].rank)
    case DoneOk(i) => i in sealed && sealed[i].job == job && PlacedSince(f.durable, sealed, job.target, sealed[i].rank)
    case _ => true
  }

  ghost predicate PcsOk(f: Files, sealed: map<Inode, Seal>, jobs: map<Pid, Job>, pcs: map<Pid, Pc>) {
    pcs.Keys == jobs.Keys && forall p :: p in pcs ==> PcOk(f, sealed, jobs[p], pcs[p])
  }

  predicate SameTemp(a: Pc, b: Pc) {
    Own(a).Some? && Own(a) == Own(b)
  }

  ghost predicate TempsApart(pcs: map<Pid, Pc>) {
    forall p, q :: p in pcs && q in pcs && p != q ==> !SameTemp(pcs[p], pcs[q])
  }

  ghost predicate DiskOk(f: Files, sealed: map<Inode, Seal>, clock: nat) {
    TempsOk(f) && SealedOk(f, sealed, clock) && TargetsOk(f, sealed)
  }

  ghost predicate Inv(s: State) {
    && LocksOk(s.locks, s.pcs)
    && DiskOk(s.files, s.sealed, s.clock)
    && PcsOk(s.files, s.sealed, s.jobs, s.pcs)
    && TempsApart(s.pcs)
  }

  predicate DurableSince(s: State, t: nat, rank: nat) {
    PlacedSince(s.files.durable, s.sealed, t, rank)
  }

  // The durable file of a target only moves forward in the order of renames.
  ghost predicate DurableLater(s: State, s': State) {
    forall t, rank :: DurableSince(s, t, rank) ==> DurableSince(s', t, rank)
  }

  /* ---------------------------- Preservation ---------------------------- */

  lemma RelockKeeps(locks: map<Inode, Pid>, pcs: map<Pid, Pc>, p: Pid, pc: Pc)
    requires LocksOk(locks, pcs) && p in pcs
    requires Held(pc).Some? ==> Held(pc) == Held(pcs[p]) || Held(pc).value !in locks
    ensures LocksOk(Relock(locks, p, Held(pcs[p]), Held(pc)), pcs[p := pc])
  {
  }

  // What a step of one process leaves true for the others: `own` is the only inode it may
  // write to or seal, and targets only move to later renames.
  ghost predicate Later(f: Files, sealed: map<Inode, Seal>, f': Files, sealed': map<Inode, Seal>, own: set<Inode>) {
    && (forall i :: i in f.data ==> i in f'.data && (i !in own ==> f'.data[i] == f.data[i]))
    && f.synced <= f'.synced
    && (forall i :: i in sealed ==> i in sealed' && sealed'[i] == sealed[i])
    && (forall i :: i in sealed' && i in f.data && i !in own ==> i in sealed)
    && (forall t, r :: PlacedSince(f.names, sealed, t, r) ==> PlacedSince(f'.names, sealed', t, r))
    && (forall t, r :: PlacedSince(f.durable, sealed, t, r) ==> PlacedSince(f'.durable, sealed', t, r))
  }

  lemma PcStays(f: Files, sealed: map<Inode, Seal>, f': Files, sealed': map<Inode, Seal>, own: set<Inode>, job: Job, pc: Pc)
    requires PcOk(f, sealed, job, pc) && Later(f, sealed, f', sealed', own)
    requires Own(pc).Some? ==> Own(pc).value !in own
    ensures PcOk(f', sealed', job, pc)
  {
  }

  function OwnSet(pc: Pc): set<Inode> {
    if Own(pc).Some? then {Own(pc).value} else {}
  }

  lemma PcsStay(s: State, p: Pid, f: Files, sealed: map<Inode, Seal>, pc: Pc)
    requires PcsOk(s.files, s.sealed, s.jobs, s.pcs) && TempsApart(s.pcs) && p in s.pcs
    requires Later(s.files, s.sealed, f, sealed, OwnSet(s.pcs[p]))
    requires PcOk(f, sealed, s.jobs[p], pc)
    ensures PcsOk(f, sealed, s.jobs, s.pcs[p := pc])
  {
    forall q | q in s.pcs && q != p
      ensures PcOk(f, sealed, s.jobs[q], s.pcs[q])
    {
      assert !SameTemp(s.pcs[q], s.pcs[p]);
      PcStays(s.files, s.sealed, f, sealed, OwnSet(s.pcs[p]), s.jobs[q], s.pcs[q]);
    }
  }

  lemma TempsStayApart(s: State, p: Pid, pc: Pc)
    requires PcsOk(s.files, s.sealed, s.jobs, s.pcs) && TempsApart(s.pcs) && p in s.pcs
    requires Own(pc).Some? ==> Own(pc) == Own(s.pcs[p]) || Own(pc).value !in s.files.data
    ensures TempsApart(s.pcs[p := pc])
  {
    forall q | q in s.pcs && q != p
      ensures !SameTemp(s.pcs[q], pc) && !SameTemp(pc, s.pcs[q])
    {
      assert !SameTemp(s.pcs[q], s.pcs[p]);
      assert PcOk(s.files, s.sealed, s.jobs[q], s.pcs[q]);
    }
  }

  // One process moves on, with new files and seals.
  lemma GoKeeps(s: State, p: Pid, f: Files, sealed: map<Inode, Seal>, clock: nat, pc: Pc)
    requires Inv(s) && p in s.pcs
    requires Held(pc).Some? ==> Held(pc) == Held(s.pcs[p]) || Held(pc).value !in s.locks
    requires DiskOk(f, sealed, clock) && Later(s.files, s.sealed, f, sealed, OwnSet(s.pcs[p]))
    requires PcOk(f, sealed, s.jobs[p], pc)
    requires Own(pc).Some? ==> Own(pc) == Own(s.pcs[p]) || Own(pc).value !in s.files.data
    ensures Inv(Go(s.(files := f, sealed := sealed, clock := clock), p, pc))
    ensures DurableLater(s, Go(s.(files := f, sealed := sealed, clock := clock), p, pc))
  {
    RelockKeeps(s.locks, s.pcs, p, pc);
    PcsStay(s, p, f, sealed, pc);
    TempsStayApart(s, p, pc);
  }

  // The same when the step does not touch the disk.
  lemma GoOnlyKeeps(s: State, p: Pid, pc: Pc)
    requires Inv(s) && p in s.pcs
    requires Held(pc).Some? ==> Held(pc) == Held(s.pcs[p]) || Held(pc).value !in s.locks
    requires PcOk(s.files, s.sealed, s.jobs[p], pc)
    requires Own(pc).Some? ==> Own(pc) == Own(s.pcs[p])
    ensures Inv(Go(s, p, pc)) && DurableLater(s, Go(s, p, pc))
  {
    GoKeeps(s, p, s.files, s.sealed, s.clock, pc);
  }

  lemma UnlinkKeeps(f: Files, sealed: map<Inode, Seal>, clock: nat, i: Inode)
    requires DiskOk(f, sealed, clock)
    ensures DiskOk(Unlink(f, i), sealed, clock)
    ensures forall own :: Later(f, sealed, Unlink(f, i), sealed, own)
  {
  }

  lemma FailedKeeps(s: State, p: Pid)
    requires Inv(s) && p in s.pcs
    ensures Inv(Failed(s, p)) && DurableLater(s, Failed(s, p))
  {
    if Own(s.pcs[p]).Some? {
      UnlinkKeeps(s.files, s.sealed, s.clock, Own(s.pcs[p]).value);
    }
    GoKeeps(s, p, Dropped(s.files, s.pcs[p]), s.sealed, s.clock, DoneErr(s.pcs[p].Renamed?));
  }

  // The scan removes nothing but temp names.
  lemma ScanKeeps(s: State, p: Pid, l: Label)
    requires Inv(s) && p in s.pcs && OwnStep(s, p, l).Some?
    requires l.ScanOpen? || l.ScanLock? || l.ScanUnlink? || l.ScanEnd?
    ensures Inv(OwnStep(s, p, l).value) && DurableLater(s, OwnStep(s, p, l).value)
  {
    var pc := s.pcs[p];
    match l
    case ScanOpen(n) =>
      if Temp(n) in s.files.names {
        GoOnlyKeeps(s, p, Found(s.files.names[Temp(n)]));
      }
    case ScanLock =>
      GoOnlyKeeps(s, p, if pc.temp in s.locks then Scan else Holding(pc.temp));
    case ScanUnlink =>
      if Temp(pc.temp) in s.files.names {
        UnlinkKeeps(s.files, s.sealed, s.clock, pc.temp);
        GoKeeps(s, p, Unlink(s.files, pc.temp), s.sealed, s.clock, Scan);
      } else {
        FailedKeeps(s, p);
      }
    case ScanEnd => GoOnlyKeeps(s, p, Create);
  }

  lemma WithTempKeeps(f: Files, sealed: map<Inode, Seal>, clock: nat, n: Inode)
    requires DiskOk(f, sealed, clock) && n !in f.data
    ensures DiskOk(WithTemp(f, n), sealed, clock)
    ensures Later(f, sealed, WithTemp(f, n), sealed, {})
  {
  }

  lemma WrittenKeeps(f: Files, sealed: map<Inode, Seal>, clock: nat, i: Inode, d: Data)
    requires DiskOk(f, sealed, clock) && i in f.data && i !in sealed
    ensures DiskOk(f.(data := f.data[i := d]), sealed, clock)
    ensures Later(f, sealed, f.(data := f.data[i := d]), sealed, {i})
  {
  }

  lemma SyncedKeeps(f: Files, sealed: map<Inode, Seal>, clock: nat, i: Inode)
    requires DiskOk(f, sealed, clock) && i in f.data
    ensures DiskOk(Fsynced(f, i), sealed, clock)
    ensures Later(f, sealed, Fsynced(f, i), sealed, {i})
  {
  }

  // What each step on a temp comes to.
  lemma CreateIs(s: State, p: Pid, n: Inode)
    requires p in s.pcs && p in s.jobs && OwnStep(s, p, CreateTemp(n)).Some?
    ensures s.pcs[p].Create? && n !in s.files.data
    ensures OwnStep(s, p, CreateTemp(n)).value == Go(s.(files := WithTemp(s.files, n)), p, Created(n))
  {
  }

  lemma LockIs(s: State, p: Pid)
    requires p in s.pcs && p in s.jobs && OwnStep(s, p, LockTemp).Some?
    ensures s.pcs[p].Created?
    ensures OwnStep(s, p, LockTemp).value ==
              if s.pcs[p].temp in s.locks then Failed(s, p) else Go(s, p, Writing(s.pcs[p].temp))
  {
  }

  lemma WriteIs(s: State, p: Pid, k: nat)
    requires p in s.pcs && p in s.jobs && OwnStep(s, p, Write(k)).Some?
    ensures s.pcs[p].Writing? && s.pcs[p].temp in s.files.data
    ensures var i := s.pcs[p].temp;
            && |s.files.data[i]| + k <= |s.jobs[p].value|
            && OwnStep(s, p, Write(k)).value == Go(s.(files := Appended(s.files, i, s.jobs[p].value, k)), p, s.pcs[p])
  {
  }

  lemma FsyncIs(s: State, p: Pid)
    requires p in s.pcs && p in s.jobs && OwnStep(s, p, Fsync).Some?
    ensures s.pcs[p].Writing? && s.pcs[p].temp in s.files.data
    ensures var i := s.pcs[p].temp;
            && s.files.data[i] == s.jobs[p].value
            && OwnStep(s, p, Fsync).value == Go(s.(files := Fsynced(s.files, i)), p, Synced(i))
  {
  }

  lemma RenameIs(s: State, p: Pid)
    requires p in s.pcs && p in s.jobs && OwnStep(s, p, Rename).Some?
    ensures s.pcs[p].Synced?
    ensures OwnStep(s, p, Rename).value ==
              if Temp(s.pcs[p].temp) in s.files.names then InPlace(s, p, s.pcs[p].temp, s.jobs[p]) else Failed(s, p)
  {
  }

  // The temp: created fresh, locked, filled by its owner alone, fsynced when full.
  lemma CreateKeeps(s: State, p: Pid, n: Inode)
    requires Inv(s) && p in s.pcs && OwnStep(s, p, CreateTemp(n)).Some?
    ensures Inv(OwnStep(s, p, CreateTemp(n)).value) && DurableLater(s, OwnStep(s, p, CreateTemp(n)).value)
  {
    CreateIs(s, p, n);
    WithTempKeeps(s.files, s.sealed, s.clock, n);
    FreshTemp(s.files, s.sealed, s.clock, n, s.jobs[p]);
    GoKeeps(s, p, WithTemp(s.files, n), s.sealed, s.clock, Created(n));
  }

  lemma FreshTemp(f: Files, sealed: map<Inode, Seal>, clock: nat, n: Inode, job: Job)
    requires DiskOk(f, sealed, clock) && n !in f.data
    ensures PcOk(WithTemp(f, n), sealed, job, Created(n))
  {
  }

  lemma LockKeeps(s: State, p: Pid)
    requires Inv(s) && p in s.pcs && OwnStep(s, p, LockTemp).Some?
    ensures Inv(OwnStep(s, p, LockTemp).value) && DurableLater(s, OwnStep(s, p, LockTemp).value)
  {
    LockIs(s, p);
    var pc := s.pcs[p];
    assert PcOk(s.files, s.sealed, s.jobs[p], pc);
    if pc.temp in s.locks {
      FailedKeeps(s, p);
    } else {
      GoOnlyKeeps(s, p, Writing(pc.temp));
    }
  }

  lemma AppendedKeeps(s: State, p: Pid, count: nat)
    requires Inv(s) && p in s.pcs && s.pcs[p].Writing? && s.pcs[p].temp in s.files.data
    requires |s.files.data[s.pcs[p].temp]| + count <= |s.jobs[p].value|
    ensures var s' := Go(s.(files := Appended(s.files, s.pcs[p].temp, s.jobs[p].value, count)), p, s.pcs[p]);
            Inv(s') && DurableLater(s, s')
  {
    var i, f, job := s.pcs[p].temp, s.files, s.jobs[p];
    var d := job.value[..|f.data[i]| + count];
    assert PcOk(f, s.sealed, job, s.pcs[p]);
    WrittenKeeps(f, s.sealed, s.clock, i, d);
    WrittenPc(f, s.sealed, i, d, job);
    GoKeeps(s, p, Appended(f, i, job.value, count), s.sealed, s.clock, s.pcs[p]);
  }

  lemma WrittenPc(f: Files, sealed: map<Inode, Seal>, i: Inode, d: Data, job: Job)
    requires PcOk(f, sealed, job, Writing(i)) && d <= job.value
    ensures PcOk(f.(data := f.data[i := d]), sealed, job, Writing(i))
  {
  }

  lemma FsyncKeeps(s: State, p: Pid)
    requires Inv(s) && p in s.pcs && OwnStep(s, p, Fsync).Some?
    ensures Inv(OwnStep(s, p, Fsync).value) && DurableLater(s, OwnStep(s, p, Fsync).value)
  {
    FsyncIs(s, p);
    var pc, f := s.pcs[p], s.files;
    assert PcOk(f, s.sealed, s.jobs[p], pc);
    SyncedKeeps(f, s.sealed, s.clock, pc.temp);
    GoKeeps(s, p, Fsynced(f, pc.temp), s.sealed, s.clock, Synced(pc.temp));
  }

  lemma InstalledKeeps(f: Files, sealed: map<Inode, Seal>, clock: nat, i: Inode, job: Job)
    requires DiskOk(f, sealed, clock) && Temp(i) in f.names
    requires i !in sealed && i in f.synced && f.data[i] == job.value
    ensures DiskOk(Installed(f, i, job.target), sealed[i := Seal(job, clock)], clock + 1)
    ensures Later(f, sealed, Installed(f, i, job.target), sealed[i := Seal(job, clock)], {i})
  {
  }

  lemma InstalledPlaced(f: Files, sealed: map<Inode, Seal>, clock: nat, i: Inode, job: Job)
    requires Temp(i) in f.names && f.names[Temp(i)] == i
    ensures PcOk(Installed(f, i, job.target), sealed[i := Seal(job, clock)], job, Renamed(i))
  {
  }

  lemma FsyncedDirKeeps(f: Files, sealed: map<Inode, Seal>, clock: nat)
    requires DiskOk(f, sealed, clock)
    ensures DiskOk(f.(durable := f.names), sealed, clock)
    ensures Later(f, sealed, f.(durable := f.names), sealed, {})
  {
    assert forall t, r :: PlacedSince(f.durable, sealed, t, r) ==> Target(t) in f.durable;
  }

  lemma InPlaceKeeps(s: State, p: Pid)
    requires Inv(s) && p in s.pcs && s.pcs[p].Synced? && Temp(s.pcs[p].temp) in s.files.names
    ensures var s' := InPlace(s, p, s.pcs[p].temp, s.jobs[p]);
            Inv(s') && DurableLater(s, s')
  {
    var i, f, job := s.pcs[p].temp, s.files, s.jobs[p];
    assert PcOk(f, s.sealed, job, s.pcs[p]);
    InstalledKeeps(f, s.sealed, s.clock, i, job);
    InstalledPlaced(f, s.sealed, s.clock, i, job);
    GoKeeps(s, p, Installed(f, i, job.target), s.sealed[i := Seal(job, s.clock)], s.clock + 1, Renamed(i));
  }

  lemma RenameKeeps(s: State, p: Pid)
    requires Inv(s) && p in s.pcs && OwnStep(s, p, Rename).Some?
    ensures Inv(OwnStep(s, p, Rename).value) && DurableLater(s, OwnStep(s, p, Rename).value)
  {
    RenameIs(s, p);
    if Temp(s.pcs[p].temp) in s.files.names {
      InPlaceKeeps(s, p);
    } else {
      FailedKeeps(s, p);
    }
  }

  lemma FsyncDirKeeps(s: State, p: Pid)
    requires Inv(s) && p in s.pcs && OwnStep(s, p, FsyncDir).Some?
    ensures Inv(OwnStep(s, p, FsyncDir).value) && DurableLater(s, OwnStep(s, p, FsyncDir).value)
  {
    var pc, f := s.pcs[p], s.files;
    assert PcOk(f, s.sealed, s.jobs[p], pc);
    FsyncedDirKeeps(f, s.sealed, s.clock);
    GoKeeps(s, p, f.(durable := f.names), s.sealed, s.clock, DoneOk(pc.file));
  }

  lemma SpawnKeeps(s: State, p: Pid, job: Job)
    requires Inv(s) && p !in s.pcs && p !in s.jobs
    ensures Inv(s.(jobs := s.jobs[p := job], pcs := s.pcs[p := Scan]))
    ensures DurableLater(s, s.(jobs := s.jobs[p := job], pcs := s.pcs[p := Scan]))
  {
    var pcs := s.pcs[p := Scan];
    assert LocksOk(s.locks, pcs);
    forall q, r | q in pcs && r in pcs && q != r
      ensures !SameTemp(pcs[q], pcs[r])
    {
      if q != p && r != p {
        assert !SameTemp(s.pcs[q], s.pcs[r]);
      }
    }
  }

  lemma FlushedKeeps(f: Files, sealed: map<Inode, Seal>, clock: nat, name: Name)
    requires DiskOk(f, sealed, clock)
    ensures DiskOk(Flushed(f, name), sealed, clock)
    ensures Later(f, sealed, Flushed(f, name), sealed, {})
  {
    assert forall t, r :: PlacedSince(f.durable, sealed, t, r) ==> Target(t) in f.durable;
  }

  lemma FlushKeeps(s: State, name: Name)
    requires Inv(s)
    ensures Inv(s.(files := Flushed(s.files, name))) && DurableLater(s, s.(files := Flushed(s.files, name)))
  {
    FlushedKeeps(s.files, s.sealed, s.clock, name);
    forall q | q in s.pcs
      ensures PcOk(Flushed(s.files, name), s.sealed, s.jobs[q], s.pcs[q])
    {
      PcStays(s.files, s.sealed, Flushed(s.files, name), s.sealed, {}, s.jobs[q], s.pcs[q]);
    }
  }

  lemma RecoveredKeeps(f: Files, sealed: map<Inode, Seal>, clock: nat, garbage: map<Inode, Data>)
    requires DiskOk(f, sealed, clock)
    ensures DiskOk(Recovered(f, garbage), sealed, clock)
  {
  }

  lemma StoppedKeeps(f: Files, sealed: map<Inode, Seal>, job: Job, pc: Pc, garbage: map<Inode, Data>)
    requires PcOk(f, sealed, job, pc)
    ensures PcOk(Recovered(f, garbage), sealed, job, Stopped(pc))
    ensures Held(Stopped(pc)) == None && Own(Stopped(pc)) == None
  {
  }

  lemma RestartKeeps(s: State, garbage: map<Inode, Data>)
    requires Inv(s)
    ensures Inv(Restarted(s, garbage)) && DurableLater(s, Restarted(s, garbage))
  {
    RecoveredKeeps(s.files, s.sealed, s.clock, garbage);
    var f, pcs := Recovered(s.files, garbage), Restarted(s, garbage).pcs;
    forall q | q in pcs
      ensures PcOk(f, s.sealed, s.jobs[q], pcs[q]) && Held(pcs[q]) == None && Own(pcs[q]) == None
    {
      StoppedKeeps(s.files, s.sealed, s.jobs[q], s.pcs[q], garbage);
    }
    assert PcsOk(f, s.sealed, s.jobs, pcs);
    assert LocksOk(map[], pcs);
  }

  lemma StopIs(s: State, p: Pid, l: Label)
    requires p in s.pcs && p in s.jobs && OwnStep(s, p, l).Some? && (l.IoError? || l.Kill?)
    ensures OwnStep(s, p, l).value == if l.IoError? then Failed(s, p) else Go(s, p, Dead)
  {
  }

  lemma OwnStepKeeps(s: State, p: Pid, l: Label)
    requires Inv(s) && p in s.pcs && OwnStep(s, p, l).Some?
    ensures Inv(OwnStep(s, p, l).value) && DurableLater(s, OwnStep(s, p, l).value)
  {
    match l
    case IoError =>
      StopIs(s, p, l);
      FailedKeeps(s, p);
    case Kill =>
      StopIs(s, p, l);
      GoOnlyKeeps(s, p, Dead);
    case CreateTemp(n) => CreateKeeps(s, p, n);
    case LockTemp => LockKeeps(s, p);
    case Write(k) =>
      WriteIs(s, p, k);
      AppendedKeeps(s, p, k);
    case Fsync => FsyncKeeps(s, p);
    case Rename => RenameKeeps(s, p);
    case FsyncDir => FsyncDirKeeps(s, p);
    case _ => ScanKeeps(s, p, l);
  }

  /** Every step keeps the invariant, and never takes a durable target back. */
  lemma StepKeeps(s: State, p: Pid, l: Label)
    requires Inv(s) && Next(s, p, l).Some?
    ensures Inv(Next(s, p, l).value) && DurableLater(s, Next(s, p, l).value)
  {
    match l
    case Spawn(job) => SpawnKeeps(s, p, job);
    case Flush(name) => FlushKeeps(s, name);
    case PowerLoss(garbage) => RestartKeeps(s, garbage);
    case _ => OwnStepKeeps(s, p, l);
  }

  /* ---------------------------- What the invariant gives ---------------------------- */

  // Under target `t` stands the whole value of one job for `t`.
  ghost predicate Whole(f: Files, sealed: map<Inode, Seal>, t: nat) {
    Target(t) in f.names ==>
      && f.names[Target(t)] in sealed && f.names[Target(t)] in f.data
      && sealed[f.names[Target(t)]].job.target == t
      && f.data[f.names[Target(t)]] == sealed[f.names[Target(t)]].job.value
  }

  /** Wherever the power fails, every target comes back as one complete written value. */
  lemma CrashLeavesWholeValues(s: State, p: Pid, garbage: map<Inode, Data>, t: nat)
    requires Inv(s)
    ensures Whole(s.files, s.sealed, t)
    ensures var after := Next(s, p, PowerLoss(garbage)).value;
            && Whole(after.files, after.sealed, t)
            && (Target(t) in after.files.names <==> Target(t) in s.files.durable)
  {
    RecoveredKeeps(s.files, s.sealed, s.clock, garbage);
  }

  // What a target shows changes only when a rename onto it succeeds, or the power fails.
  lemma TargetMovesOnlyByRename(s: State, p: Pid, l: Label, t: nat)
    requires Next(s, p, l).Some? && !l.PowerLoss?
    ensures var after := Next(s, p, l).value;
            (Target(t) in s.files.names && Target(t) in after.files.names
             && s.files.names[Target(t)] == after.files.names[Target(t)])
            || (Target(t) !in s.files.names && Target(t) !in after.files.names)
            || (l.Rename? && p in s.jobs && s.jobs[p].target == t && p in after.pcs && after.pcs[p].Renamed?)
  {
  }

  // A process unlinks or renames away only a temp it holds locked or has made.
  lemma OwnStepRemoves(s: State, p: Pid, l: Label, n: Inode)
    requires p in s.pcs && p in s.jobs && OwnStep(s, p, l).Some?
    requires Temp(n) in s.files.names && Held(s.pcs[p]) != Some(n) && Own(s.pcs[p]) != Some(n)
    ensures Temp(n) in OwnStep(s, p, l).value.files.names
  {
  }

  /** Cleanup never removes a temp that its writer has locked and not yet renamed. */
  lemma LockedTempStays(s: State, p: Pid, l: Label, q: Pid)
    requires Inv(s) && Next(s, p, l).Some? && !l.PowerLoss? && p != q
    requires q in s.pcs && (s.pcs[q].Writing? || s.pcs[q].Synced?) && Temp(s.pcs[q].temp) in s.files.names
    ensures q in Next(s, p, l).value.pcs && Next(s, p, l).value.pcs[q] == s.pcs[q]
    ensures Temp(s.pcs[q].temp) in Next(s, p, l).value.files.names
  {
    OthersKeepPlace(s, p, l, q);
    if !l.Spawn? && !l.Flush? {
      TempsDiffer(s, p, q);
      OwnStepRemoves(s, p, l, s.pcs[q].temp);
    }
  }

  lemma OthersKeepPlace(s: State, p: Pid, l: Label, q: Pid)
    requires Next(s, p, l).Some? && !l.PowerLoss? && p != q && q in s.pcs
    ensures q in Next(s, p, l).value.pcs && Next(s, p, l).value.pcs[q] == s.pcs[q]
  {
  }

  // Nobody else holds, or has made, the temp a writer has locked.
  lemma TempsDiffer(s: State, p: Pid, q: Pid)
    requires Inv(s) && p != q && p in s.pcs && q in s.pcs && (s.pcs[q].Writing? || s.pcs[q].Synced?)
    ensures Held(s.pcs[p]) != Some(s.pcs[q].temp) && Own(s.pcs[p]) != Some(s.pcs[q].temp)
  {
    assert HoldsItsLock(s.locks, q, s.pcs[q]) && HoldsItsLock(s.locks, p, s.pcs[p]);
    assert !SameTemp(s.pcs[p], s.pcs[q]);
  }

  /* ---------------------------- Whole runs ---------------------------- */

  type Move = (Pid, Label)

  predicate Moved(s: State, m: Move, s': State) {
    Next(s, m.0, m.1) == Some(s')
  }

  // A directory at rest: no process, every target complete and durable, any stale temps.
  ghost predicate Init(s: State) {
    && s.pcs == map[] && s.jobs == map[] && s.locks == map[]
    && s.files.names == s.files.durable
    && DiskOk(s.files, s.sealed, s.clock)
  }

  ghost predicate Run(states: seq<State>, moves: seq<Move>) {
    && |states| == |moves| + 1
    && Init(states[0])
    && forall i :: 0 <= i < |moves| ==> Moved(states[i], moves[i], states[i + 1])
  }

  lemma {:induction false} RunOk(states: seq<State>, moves: seq<Move>, j: nat)
    requires Run(states, moves) && j < |states|
    ensures Inv(states[j])
  {
    if j > 0 {
      RunOk(states, moves, j - 1);
      assert Moved(states[j - 1], moves[j - 1], states[j]);
      StepKeeps(states[j - 1], moves[j - 1].0, moves[j - 1].1);
    }
  }

  lemma RunForward(states: seq<State>, moves: seq<Move>, i: nat)
    requires Run(states, moves) && i < |moves|
    ensures DurableLater(states[i], states[i + 1])
  {
    RunOk(states, moves, i);
    assert Moved(states[i], moves[i], states[i + 1]);
    StepKeeps(states[i], moves[i].0, moves[i].1);
  }

  lemma {:induction false} DurableForwardInRun(states: seq<State>, moves: seq<Move>, i: nat, j: nat, t: nat, rank: nat)
    requires Run(states, moves) && i <= j < |states|
    requires DurableSince(states[i], t, rank)
    ensures DurableSince(states[j], t, rank)
    decreases j
  {
    if i < j {
      DurableForwardInRun(states, moves, i, j - 1, t, rank);
      RunForward(states, moves, j - 1);
    }
  }

  /** Once a writer has returned Ok, whatever happens next, the power failing included, its
      target durably holds its value or the value of a later rename. */
  lemma OkIsDurable(states: seq<State>, moves: seq<Move>, p: Pid, i: nat, j: nat)
    requires Run(states, moves) && i <= j < |states|
    requires p in states[i].pcs && states[i].pcs[p].DoneOk?
    ensures p in states[i].jobs && states[i].pcs[p].file in states[i].sealed
    ensures var seal := states[i].sealed[states[i].pcs[p].file];
            seal.job == states[i].jobs[p]
            && DurableSince(states[j], seal.job.target, seal.rank)
  {
    RunOk(states, moves, i);
    assert PcOk(states[i].files, states[i].sealed, states[i].jobs[p], states[i].pcs[p]);
    var seal := states[i].sealed[states[i].pcs[p].file];
    DurableForwardInRun(states, moves, i, j, seal.job.target, seal.rank);
  }

  predicate PastRename(pc: Pc) {
    pc.Renamed? || pc.DoneOk? || pc.Dead? || pc == DoneErr(true)
  }

  lemma StaysPastRename(s: State, p: Pid, l: Label, q: Pid)
    requires Next(s, p, l).Some? && q in s.pcs && PastRename(s.pcs[q])
    ensures q in Next(s, p, l).value.pcs && PastRename(Next(s, p, l).value.pcs[q])
  {
  }

  /** An Err reported before the rename means no step of that writer moved any target. */
  lemma {:induction false} ErrBeforeRenameKeepsTargets(states: seq<State>, moves: seq<Move>, p: Pid, i: nat, j: nat, t: nat)
    requires Run(states, moves) && i < j < |states|
    requires p in states[j].pcs && states[j].pcs[p] == DoneErr(false)
    requires moves[i].0 == p && !moves[i].1.PowerLoss?
    ensures p in states[i + 1].pcs ==> !PastRename(states[i + 1].pcs[p])
    ensures Target(t) in states[i].files.names <==> Target(t) in states[i + 1].files.names
    ensures Target(t) in states[i].files.names ==>
              states[i].files.names[Target(t)] == states[i + 1].files.names[Target(t)]
  {
    if p in states[i + 1].pcs && PastRename(states[i + 1].pcs[p]) {
      NeverBackFromRename(states, moves, p, i + 1, j);
    }
    RunOk(states, moves, i);
    assert Moved(states[i], moves[i], states[i + 1]);
    TargetMovesOnlyByRename(states[i], p, moves[i].1, t);
  }

  lemma {:induction false} NeverBackFromRename(states: seq<State>, moves: seq<Move>, p: Pid, i: nat, j: nat)
    requires Run(states, moves) && i <= j < |states|
    requires p in states[i].pcs && PastRename(states[i].pcs[p])
    ensures p in states[j].pcs && PastRename(states[j].pcs[p])
    decreases j
  {
    if i < j {
      NeverBackFromRename(states, moves, p, i, j - 1);
      assert Moved(states[j - 1], moves[j - 1], states[j]);
      StaysPastRename(states[j - 1], moves[j - 1].0, moves[j - 1].1, p);
    }
  }

  // A writer whose temp is gone, or that has failed before its rename.
  predicate Doomed(s: State, q: Pid) {
    && q in s.pcs
    && (s.pcs[q].Dead? || s.pcs[q] == DoneErr(false)
        || (Own(s.pcs[q]).Some? && Own(s.pcs[q]).value in s.files.data && Temp(Own(s.pcs[q]).value) !in s.files.names))
  }

  // A temp name that is gone stays gone.
  lemma TempStaysGone(s: State, p: Pid, l: Label, i: Inode)
    requires Next(s, p, l).Some? && !l.PowerLoss?
    requires i in s.files.data && Temp(i) !in s.files.names
    ensures i in Next(s, p, l).value.files.data && Temp(i) !in Next(s, p, l).value.files.names
  {
  }

  lemma DoomedStays(s: State, p: Pid, l: Label, q: Pid)
    requires Next(s, p, l).Some? && Doomed(s, q)
    ensures Doomed(Next(s, p, l).value, q)
  {
    if !l.PowerLoss? && Own(s.pcs[q]).Some? {
      TempStaysGone(s, p, l, Own(s.pcs[q]).value);
    }
    if p == q && p in s.jobs && !l.PowerLoss? && !l.Flush? && !l.Spawn? {
      DoomedOwnStep(s, p, l);
    }
  }

  lemma DoomedOwnStep(s: State, p: Pid, l: Label)
    requires p in s.pcs && p in s.jobs && OwnStep(s, p, l).Some? && Doomed(s, p)
    ensures var pc := OwnStep(s, p, l).value.pcs[p];
            pc.Dead? || pc == DoneErr(false) || (Own(pc) == Own(s.pcs[p]) && Own(pc).Some?)
  {
  }

  /** A writer whose temp was removed under it, as cleanup may do before the writer has locked
      it, never gets to rename: it ends in an error or dead. */
  lemma {:induction false} LostTempNeverRenamed(states: seq<State>, moves: seq<Move>, q: Pid, i: nat, j: nat)
    requires Run(states, moves) && i <= j < |states|
    requires Doomed(states[i], q)
    ensures Doomed(states[j], q) && !states[j].pcs[q].Renamed? && !states[j].pcs[q].DoneOk?
    decreases j
  {
    if i < j {
      LostTempNeverRenamed(states, moves, q, i, j - 1);
      assert Moved(states[j - 1], moves[j - 1], states[j]);
      DoomedStays(states[j - 1], moves[j - 1].0, moves[j - 1].1, q);
    }
  }
}
