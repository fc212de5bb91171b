/** The processes that share `vaults.toml`, each from what it does: it loads the registry into its
    memory, changes it there, and saves it or updates a field under the lock. Every step of any
    process may fall between any two of another's, and a process may crash anywhere. */
module RegistryProtocol {
  import opened Wrappers
  import opened Registry
  import opened SyncTargets
  import T = SyncTypes
  import F = LockedFile

  // What is written in the end: the whole memory, or one vault's `lock` key.
  datatype Task = Save | Update(name: string, change: Option<Value> -> Option<Value>)

  // One process's registry. `task` is what its lock was taken for last.
  datatype Memory = Memory(vaults: seq<RegisteredVault>, extra: Table, baseline: Contents, task: Task)

  datatype State = State(shared: F.State<Contents>, memories: map<F.Pid, Memory>)

  datatype Label =
    | Load
    // in memory
    | Register(name: string, path: string, createdAt: string, keyfile: Option<string>)
    | Deregister(name: string)
    | SetLock(name: string, change: Option<Value> -> Option<Value>)
    | Configure(name: string, s3: S3Config)
    | RecordSync(name: string, cfg: SyncConfig)
    // under the lock; `ok` is false when the write is reported to have failed though it took place
    | Begin(task: Task) | Read | Write(ok: bool) | Release
    | Crash

  /* ---------------------------- In memory ---------------------------- */

  const LOCK_KEY := "lock"

  function WithLock(t: Table, change: Option<Value> -> Option<Value>): Table {
    var value := change(if LOCK_KEY in t then Some(t[LOCK_KEY]) else None);
    if value.Some? then t[LOCK_KEY := value.value] else t - {LOCK_KEY}
  }

  // What a call that works in memory makes of the vaults; none if it is refused.
  function Edited(vaults: seq<RegisteredVault>, l: Label): Option<seq<RegisteredVault>> {
    match l
    case Register(name, path, createdAt, keyfile) =>
      if Position(vaults, name).Some? then None
      else Some(vaults + [RegisteredVault(name, path, createdAt, keyfile, map[])])
    case Deregister(name) =>
      var i := Position(vaults, name);
      if i.None? then None else Some(vaults[..i.value] + vaults[i.value + 1..])
    case SetLock(name, change) =>
      var i := Position(vaults, name);
      if i.None? then None
      else
        var v := vaults[i.value];
        Some(PutBack(vaults, i.value, v.(extra := WithLock(v.extra, change))))
    case Configure(name, s3) =>
      var i := Position(vaults, name);
      var target := CanonicalizeTarget(s3.endpoint, s3.bucket, s3.key);
      if i.None? || FindDuplicateTarget(vaults, target, name).Some? then None
      else Some(PutBack(vaults, i.value, ToVaultEntry(Fresh(s3), vaults[i.value])))
    case RecordSync(name, cfg) =>
      // the block a sync read, with its pair and verdict renewed
      var i := Position(vaults, name);
      if i.None? || TargetOf(vaults[i.value]) != TargetOfConfig(cfg) then None
      else Some(PutBack(vaults, i.value, ToVaultEntry(cfg, vaults[i.value])))
    case _ => None
  }

  /* ---------------------------- Under the lock ---------------------------- */

  // Computed from this process's own memory.
  function EditOf(m: Memory, task: Task): F.Edit<Contents> {
    match task
    case Save => SaveEdit(m.baseline, m.vaults, m.extra)
    case Update(name, change) => ExtraEdit(name, (t: Table) => WithLock(t, change))
  }

  // The step of the lock file that a step of a process is, if it is one.
  function Locked(s: State, p: F.Pid, l: Label): Option<F.Label<Contents>> {
    match l
    case Begin(task) => if p in s.memories then Some(F.Acquire(EditOf(s.memories[p], task))) else None
    case Read => Some(F.Read)
    case Write(_) => Some(F.Write)
    case Release => Some(F.Release)
    case Crash => Some(F.Crash)
    case _ => None
  }

  function Loaded(c: Contents, task: Task): Option<Memory> {
    var doc := Parse(c);
    if doc.Err? then None else Some(Memory(doc.value.vaults, doc.value.extra, c, task))
  }

  // The memory after a write that is reported as done.
  function AfterWrite(m: Memory, file: Contents): Memory {
    var latest := Loaded(file, m.task);
    if m.task.Save? || latest.None? then m.(baseline := file) else latest.value
  }

  function MemoriesAfter(s: State, p: F.Pid, l: Label, file: Contents): map<F.Pid, Memory> {
    if l.Crash? then s.memories - {p}
    else if p !in s.memories then s.memories
    else if l.Begin? then s.memories[p := s.memories[p].(task := l.task)]
    else if l.Write? && l.ok then s.memories[p := AfterWrite(s.memories[p], file)]
    else s.memories
  }

  function Next(s: State, p: F.Pid, l: Label): Option<State> {
    var locked := Locked(s, p, l);
    if locked.Some? then
      var shared := F.Next(s.shared, p, locked.value);
      if shared.None? then None else Some(State(shared.value, MemoriesAfter(s, p, l, shared.value.file)))
    else if !F.PcOf(s.shared, p).Idle? then None
    else if l.Load? then
      var m := Loaded(s.shared.file, Save);
      if m.None? then None else Some(s.(memories := s.memories[p := m.value]))
    else if p !in s.memories then None
    else
      var vaults := Edited(s.memories[p].vaults, l);
      if vaults.None? then None
      else Some(s.(memories := s.memories[p := s.memories[p].(vaults := vaults.value)]))
  }

  ghost predicate Init(s: State) {
    F.Init(s.shared) && CleanContents(s.shared.file) && s.memories == map[]
  }

  // Nothing in the file, in a memory or on its way into the file has two vaults on one target.
  ghost predicate Inv(s: State, start: Contents) {
    && F.Inv(s.shared, start) && CleanContents(start)
    && F.AllKeep(s.shared, CleanContents)
    && forall p :: p in s.memories ==> Clean(s.memories[p].vaults)
  }

  lemma FileIsClean(s: State, start: Contents)
    requires Inv(s, start)
    ensures CleanContents(s.shared.file)
  {
    F.AppliedKeeps(start, s.shared.log, CleanContents);
  }

  /* ---------------------------- Every step keeps it ---------------------------- */

  lemma RenamedLockKeepsTarget(v: RegisteredVault, change: Option<Value> -> Option<Value>)
    ensures TargetOf(v.(extra := WithLock(v.extra, change))) == TargetOf(v)
  {
  }

  /** No call that works in memory brings two vaults onto one target or one name. */
  lemma EditedStaysClean(vaults: seq<RegisteredVault>, l: Label)
    requires Clean(vaults) && Edited(vaults, l).Some?
    ensures Clean(Edited(vaults, l).value)
  {
    match l
    case Register(_, _, _, _) =>
    case Deregister(name) => CleanWithout(vaults, Position(vaults, name).value);
    case SetLock(name, change) =>
      var i := Position(vaults, name).value;
      RenamedLockKeepsTarget(vaults[i], change);
      PutBackKeepsClean(vaults, i, vaults[i].(extra := WithLock(vaults[i].extra, change)));
    case Configure(name, s3) =>
      var i := Position(vaults, name).value;
      FreeTargetMoves(vaults, i, ToVaultEntry(Fresh(s3), vaults[i]),
                      CanonicalizeTarget(s3.endpoint, s3.bucket, s3.key));
    case RecordSync(name, cfg) =>
      var i := Position(vaults, name).value;
      PutBackKeepsClean(vaults, i, ToVaultEntry(cfg, vaults[i]));
  }

  lemma EditOfKeepsClean(m: Memory, task: Task)
    requires Clean(m.vaults)
    ensures F.Keeps(EditOf(m, task), CleanContents)
  {
    match task
    case Save => SavingCleanKeepsClean(m.baseline, m.vaults, m.extra, CleanContents);
    case Update(name, change) =>
      ExtraEditKeepsClean(name, (t: Table) => WithLock(t, change), CleanContents);
  }

  lemma LockedKeepsClean(s: State, p: F.Pid, l: Label, start: Contents)
    requires Inv(s, start) && Locked(s, p, l).Some?
    ensures F.LabelKeeps(Locked(s, p, l).value, CleanContents)
  {
    if l.Begin? {
      EditOfKeepsClean(s.memories[p], l.task);
    }
  }

  lemma StepKeeps(s: State, p: F.Pid, l: Label, start: Contents)
    requires Inv(s, start) && Next(s, p, l).Some?
    ensures Inv(Next(s, p, l).value, start)
  {
    var s' := Next(s, p, l).value;
    FileIsClean(s, start);
    if Locked(s, p, l).Some? {
      LockedKeepsClean(s, p, l, start);
      F.StepKeeps(s.shared, p, Locked(s, p, l).value, start);
      F.StepAllKeep(s.shared, p, Locked(s, p, l).value, CleanContents);
      F.AppliedKeeps(start, s'.shared.log, CleanContents);
    } else if !l.Load? {
      EditedStaysClean(s.memories[p].vaults, l);
    }
  }

  /* ---------------------------- Runs ---------------------------- */

  type Move = (F.Pid, Label)

  ghost predicate Moved(s: State, m: Move, s': State) {
    Next(s, m.0, m.1) == Some(s')
  }

  ghost predicate Run(states: seq<State>, moves: seq<Move>) {
    && |states| == |moves| + 1
    && Init(states[0])
    && forall i :: 0 <= i < |moves| ==> Moved(states[i], moves[i], states[i + 1])
  }

  lemma {:induction false} RunOk(states: seq<State>, moves: seq<Move>, j: nat)
    requires Run(states, moves) && j < |states|
    ensures Inv(states[j], states[0].shared.file)
  {
    if j > 0 {
      RunOk(states, moves, j - 1);
      assert Moved(states[j - 1], moves[j - 1], states[j]);
      StepKeeps(states[j - 1], moves[j - 1].0, moves[j - 1].1, states[0].shared.file);
    }
  }

  /** From a clean file, whatever the processes do and however their steps interleave, the file
      and every process's memory never hold two vaults on one target; and the file is at every
      moment the fold of what was written, each write applied to exactly what was there. */
  lemma NeverTwoOnOneTarget(states: seq<State>, moves: seq<Move>, j: nat)
    requires Run(states, moves) && j < |states|
    ensures CleanContents(states[j].shared.file)
    ensures forall p :: p in states[j].memories ==> Clean(states[j].memories[p].vaults)
    ensures F.Applied(states[0].shared.file, states[j].shared.log) == Some(states[j].shared.file)
  {
    RunOk(states, moves, j);
    FileIsClean(states[j], states[0].shared.file);
  }

  // The first `j` steps as the lock file sees them.
  function Schedule(states: seq<State>, moves: seq<Move>, j: nat): seq<F.Move<Contents>>
    requires j <= |moves| <= |states|
  {
    if j == 0 then []
    else
      var locked := Locked(states[j - 1], moves[j - 1].0, moves[j - 1].1);
      Schedule(states, moves, j - 1) + if locked.Some? then [(moves[j - 1].0, locked.value)] else []
  }

  function Replay(s: F.State<Contents>, schedule: seq<F.Move<Contents>>): Option<F.State<Contents>>
    decreases |schedule|
  {
    if schedule == [] then Some(s)
    else
      var n := |schedule| - 1;
      var before := Replay(s, schedule[..n]);
      if before.None? then None else F.Next(before.value, schedule[n].0, schedule[n].1)
  }

  ghost predicate AllKeepClean(schedule: seq<F.Move<Contents>>) {
    forall k :: 0 <= k < |schedule| ==> F.LabelKeeps(schedule[k].1, CleanContents)
  }

  // Steps any registry may share the file with, that lead from one state of it to another.
  ghost predicate IsSchedule(
      start: F.State<Contents>, schedule: seq<F.Move<Contents>>, end: F.State<Contents>) {
    AllKeepClean(schedule) && Replay(start, schedule) == Some(end)
  }

  lemma ScheduleMore(
      start: F.State<Contents>, schedule: seq<F.Move<Contents>>, before: F.State<Contents>,
      m: F.Move<Contents>, after: F.State<Contents>)
    requires IsSchedule(start, schedule, before)
    requires F.LabelKeeps(m.1, CleanContents) && F.Next(before, m.0, m.1) == Some(after)
    ensures IsSchedule(start, schedule + [m], after)
  {
    assert (schedule + [m])[..|schedule|] == schedule;
  }

  // What one more step of the run adds.
  lemma ScheduleStep(states: seq<State>, moves: seq<Move>, j: nat)
    requires Run(states, moves) && 0 < j < |states| && Inv(states[j - 1], states[0].shared.file)
    requires IsSchedule(states[0].shared, Schedule(states, moves, j - 1), states[j - 1].shared)
    ensures IsSchedule(states[0].shared, Schedule(states, moves, j), states[j].shared)
  {
    var s, p, l := states[j - 1], moves[j - 1].0, moves[j - 1].1;
    assert Moved(s, moves[j - 1], states[j]);
    var before, locked := Schedule(states, moves, j - 1), Locked(s, p, l);
    if locked.Some? {
      LockedKeepsClean(s, p, l, states[0].shared.file);
      ScheduleMore(states[0].shared, before, s.shared, (p, locked.value), states[j].shared);
    } else {
      assert Schedule(states, moves, j) == before;
    }
  }

  lemma ScheduleStart(states: seq<State>, moves: seq<Move>)
    requires Run(states, moves)
    ensures IsSchedule(states[0].shared, Schedule(states, moves, 0), states[0].shared)
  {
  }

  /** What the processes do to the lock file is a schedule that any registry may share it with:
      every edit on it keeps the file clean, and replaying it gives the same file, lock and log. */
  lemma {:induction false} RunIsSchedule(states: seq<State>, moves: seq<Move>, j: nat)
    requires Run(states, moves) && j < |states|
    ensures IsSchedule(states[0].shared, Schedule(states, moves, j), states[j].shared)
  {
    if j == 0 {
      ScheduleStart(states, moves);
    } else {
      RunIsSchedule(states, moves, j - 1);
      RunOk(states, moves, j - 1);
      ScheduleStep(states, moves, j);
    }
  }
}
