/** Any number of devices sharing one versioned remote object. Every network call, every
    local save and every pointer write is one step of one device; a device may fail or
    crash between any two. */
module SyncProtocol {
  import opened Wrappers
  import opened SyncTypes

  type DeviceId = nat

  // Where a device stands inside one sync run; `Idle` outside any run.
  datatype Pc =
    | Idle
    | HeadDone(remoteNow: Option<Version>)
    | PushPut
    | FastGet
    | FastBackup(snap: Snapshot)
    | FastSwap(snap: Snapshot)
    | FastSave(snap: Snapshot)
    | MergeBackup
    | MergeGet
    | Merging(snap: Snapshot)
    | MergeSave(base: Version)
    | MergePut(base: Version)
    | Persist(pointers: Pointers)

  // `live` is the pair in the loaded registry, `saved` the pair in `vaults.toml`.
  datatype Device = Device(
    key: nat, file: Bytes, memory: Database, backup: Option<Bytes>,
    live: Pointers, saved: Pointers, pc: Pc)

  // `history` remembers the bytes each version ever named.
  datatype System = System(
    remote: Option<Snapshot>, history: map<Version, Bytes>, devices: map<DeviceId, Device>)

  datatype Label =
    | EditAndSave(added: set<Edit>, key: nat, nonce: nat)
    | Reconfigure
    | Head
    | Compare
    | PutPush(version: Version)
    | GetChanged
    | BackUpFast
    | Swap
    | SaveFast(nonce: nat)
    | BackUpMerge
    | Get
    | Reconcile(merged: Database)
    | SaveMerge(nonce: nat)
    | PutMerge(version: Version)
    | PutRefused(retry: bool)
    | KeepPointers
    | SavePointers
    | Fail
    | Crash

  /* ---------------------------- Steps ---------------------------- */

  function Put(s: System, d: DeviceId, version: Version, bytes: Bytes): System
    requires d in s.devices
  {
    var dev := s.devices[d];
    System(Some(Snapshot(version, bytes)), s.history[version := bytes],
           s.devices[d := dev.(pc := Persist(Pointers(Some(version), Some(Hash(bytes)))))])
  }

  // A version identifies bytes: a server may answer with a new one, or with one that
  // named these very bytes before.
  predicate Mints(s: System, version: Version, bytes: Bytes) {
    version in s.history ==> s.history[version] == bytes
  }

  predicate Opens(dev: Device, bytes: Bytes) {
    bytes.key == dev.key && bytes.database.kdf == dev.memory.kdf
  }

  // The step `l` of a device that only touches its own state.
  function Local(s: System, dev: Device, l: Label): Option<Device> {
    match (l, dev.pc)
    case (EditAndSave(added, key, nonce), Idle) =>
      var db := dev.memory.(edits := dev.memory.edits + added);
      Some(dev.(key := key, memory := db, file := Bytes(key, db, nonce)))
    case (Reconfigure, Idle) =>
      Some(dev.(live := UNSYNCED, saved := UNSYNCED))
    case (Head, Idle) =>
      Some(dev.(pc := HeadDone(VersionOf(s.remote))))
    case (Compare, HeadDone(remoteNow)) =>
      Some(dev.(pc := match Decide(remoteNow, Hash(dev.file), dev.live)
                      case InSync => Persist(dev.live)
                      case Push => PushPut
                      case FastReplace => FastGet
                      case Merge => MergeBackup))
    case (GetChanged, FastGet) =>
      if s.remote.None? then None
      else if VersionOf(s.remote) == dev.live.remoteEtag then Some(dev.(pc := Persist(dev.live)))
      else Some(dev.(pc := FastBackup(s.remote.value)))
    case (BackUpFast, FastBackup(snap)) =>
      if Opens(dev, snap.bytes) then Some(dev.(backup := Some(dev.file), pc := FastSwap(snap))) else None
    case (Swap, FastSwap(snap)) =>
      if snap.bytes.database.root == dev.memory.root
      then Some(dev.(memory := snap.bytes.database, pc := FastSave(snap))) else None
    case (SaveFast(nonce), FastSave(snap)) =>
      var file := Bytes(dev.key, dev.memory, nonce);
      Some(dev.(file := file, pc := Persist(Pointers(Some(snap.version), Some(Hash(file))))))
    case (BackUpMerge, MergeBackup) =>
      Some(dev.(backup := Some(dev.file), pc := MergeGet))
    case (Get, MergeGet) =>
      if s.remote.Some? then Some(dev.(pc := Merging(s.remote.value))) else None
    case (Reconcile(merged), Merging(snap)) =>
      if Opens(dev, snap.bytes) && dev.memory.edits + snap.bytes.database.edits <= merged.edits
      then Some(dev.(memory := merged, pc := MergeSave(snap.version))) else None
    case (SaveMerge(nonce), MergeSave(base)) =>
      Some(dev.(file := Bytes(dev.key, dev.memory, nonce), pc := MergePut(base)))
    case (PutRefused(retry), MergePut(base)) =>
      if Matches(s.remote, Some(base)) then None
      else Some(dev.(pc := if retry then MergeGet else Idle))
    case (KeepPointers, Persist(pointers)) =>
      Some(dev.(live := pointers, pc := Idle))
    case (SavePointers, Idle) =>
      Some(dev.(saved := dev.live))
    case (Fail, _) =>
      Some(dev.(memory := dev.file.database, pc := Idle))
    case (Crash, _) =>
      Some(dev.(memory := dev.file.database, live := dev.saved, pc := Idle))
    case _ => None
  }

  // The system after device `d` takes step `l`, or None when it cannot.
  function Next(s: System, d: DeviceId, l: Label): Option<System> {
    if d !in s.devices then None else
    var dev := s.devices[d];
    match (l, dev.pc)
    case (PutPush(version), PushPut) =>
      if Matches(s.remote, dev.live.remoteEtag) && Mints(s, version, dev.file)
      then Some(Put(s, d, version, dev.file)) else None
    case (PutMerge(version), MergePut(base)) =>
      if Matches(s.remote, Some(base)) && Mints(s, version, dev.file)
      then Some(Put(s, d, version, dev.file)) else None
    case _ =>
      var moved := Local(s, dev, l);
      if moved.Some? then Some(s.(devices := s.devices[d := moved.value])) else None
  }

  // A first seed sends no `If-Match`; this one would land on an object that exists.
  predicate SeedsOverObject(s: System, d: DeviceId, l: Label) {
    && d in s.devices
    && l.PutPush?
    && s.devices[d].pc.PushPut?
    && s.devices[d].live.remoteEtag.None?
    && s.remote.Some?
  }

  /* ---------------------------- Invariant ---------------------------- */

  // A pair is both set or both unset, and a set pair names a remote version and a
  // local file holding the same database.
  predicate Agree(p: Pointers, history: map<Version, Bytes>) {
    && (p.remoteEtag.Some? <==> p.localSha.Some?)
    && (p.remoteEtag.Some? ==>
          && p.remoteEtag.value in history
          && history[p.remoteEtag.value].database == p.localSha.value.of.database)
  }

  // The file holds at least what the remote held at the version the pair names.
  predicate Covers(file: Bytes, p: Pointers, history: map<Version, Bytes>) {
    p.remoteEtag.Some? && p.remoteEtag.value in history ==>
      history[p.remoteEtag.value].database.edits <= file.database.edits
  }

  predicate PcOk(dev: Device, history: map<Version, Bytes>) {
    match dev.pc
    case FastGet =>
      && dev.memory == dev.file.database
      && dev.live.localSha == Some(Hash(dev.file))
    case FastBackup(snap) =>
      && dev.memory == dev.file.database
      && snap.version in history && history[snap.version] == snap.bytes
      && dev.file.database.edits <= snap.bytes.database.edits
    case FastSwap(snap) =>
      && dev.memory == dev.file.database
      && snap.version in history && history[snap.version] == snap.bytes
      && dev.file.database.edits <= snap.bytes.database.edits
    case FastSave(snap) =>
      && dev.memory == snap.bytes.database
      && snap.version in history && history[snap.version] == snap.bytes
      && dev.file.database.edits <= snap.bytes.database.edits
    case Merging(snap) =>
      && dev.memory == dev.file.database
      && snap.version in history && history[snap.version] == snap.bytes
    case MergeSave(base) =>
      && base in history
      && dev.file.database.edits <= dev.memory.edits
      && history[base].database.edits <= dev.memory.edits
    case MergePut(base) =>
      && dev.memory == dev.file.database
      && base in history
      && history[base].database.edits <= dev.file.database.edits
    case Persist(p) =>
      && dev.memory == dev.file.database
      && Agree(p, history)
      && p.localSha == Some(Hash(dev.file))
    case _ => dev.memory == dev.file.database
  }

  predicate DeviceOk(dev: Device, history: map<Version, Bytes>) {
    && Agree(dev.live, history) && Agree(dev.saved, history)
    && Covers(dev.file, dev.live, history) && Covers(dev.file, dev.saved, history)
    && PcOk(dev, history)
  }

  // The current object is in the history and holds everything any version ever held.
  predicate RemoteOk(remote: Option<Snapshot>, history: map<Version, Bytes>) {
    && (remote.Some? ==>
          && remote.value.version in history
          && history[remote.value.version] == remote.value.bytes)
    && forall v :: v in history ==> history[v].database.edits <= EditsOf(remote)
  }

  ghost predicate Inv(s: System) {
    && RemoteOk(s.remote, s.history)
    && forall d :: d in s.devices ==> DeviceOk(s.devices[d], s.history)
  }

  // Before the first sync: nothing remote, no pointers, memory as on disk.
  ghost predicate Init(s: System) {
    && s.remote.None? && s.history == map[]
    && forall d :: d in s.devices ==>
         && s.devices[d].pc.Idle?
         && s.devices[d].memory == s.devices[d].file.database
         && s.devices[d].live == s.devices[d].saved == UNSYNCED
  }

  lemma InitOk(s: System)
    requires Init(s)
    ensures Inv(s)
  {
  }

  // A device keeps its invariant when the history grows around it.
  lemma HistoryGrows(dev: Device, h: map<Version, Bytes>, h': map<Version, Bytes>)
    requires DeviceOk(dev, h)
    requires forall v :: v in h ==> v in h' && h'[v] == h[v]
    requires dev.live.remoteEtag.Some? ==> dev.live.remoteEtag.value in h
    ensures DeviceOk(dev, h')
  {
  }

  lemma FastKeeps(s: System, dev: Device, l: Label)
    requires l.GetChanged? || l.BackUpFast? || l.Swap? || l.SaveFast?
    requires RemoteOk(s.remote, s.history) && DeviceOk(dev, s.history)
    ensures var m := Local(s, dev, l);
            m.Some? ==> DeviceOk(m.value, s.history)
                        && dev.file.database.edits <= m.value.file.database.edits
  {
  }

  lemma MergeKeeps(s: System, dev: Device, l: Label)
    requires l.BackUpMerge? || l.Get? || l.Reconcile? || l.SaveMerge? || l.PutRefused?
    requires RemoteOk(s.remote, s.history) && DeviceOk(dev, s.history)
    ensures var m := Local(s, dev, l);
            m.Some? ==> DeviceOk(m.value, s.history)
                        && dev.file.database.edits <= m.value.file.database.edits
  {
  }

  lemma LocalKeeps(s: System, dev: Device, l: Label)
    requires RemoteOk(s.remote, s.history) && DeviceOk(dev, s.history)
    ensures var m := Local(s, dev, l);
            m.Some? ==> DeviceOk(m.value, s.history)
                        && dev.file.database.edits <= m.value.file.database.edits
  {
    if l.GetChanged? || l.BackUpFast? || l.Swap? || l.SaveFast? {
      FastKeeps(s, dev, l);
    } else if l.BackUpMerge? || l.Get? || l.Reconcile? || l.SaveMerge? || l.PutRefused? {
      MergeKeeps(s, dev, l);
    }
  }

  lemma PutKeeps(s: System, d: DeviceId, version: Version)
    requires Inv(s) && d in s.devices
    requires Mints(s, version, s.devices[d].file)
    requires s.devices[d].memory == s.devices[d].file.database
    requires EditsOf(s.remote) <= s.devices[d].file.database.edits
    ensures Inv(Put(s, d, version, s.devices[d].file))
  {
    var s' := Put(s, d, version, s.devices[d].file);
    forall e | e in s'.devices
      ensures DeviceOk(s'.devices[e], s'.history)
    {
      HistoryGrows(s.devices[e], s.history, s'.history);
    }
  }

  // Under `If-Match`, the object replaced is the one the local file was built on.
  lemma MatchedPutCovers(s: System, d: DeviceId, l: Label)
    requires Inv(s) && !SeedsOverObject(s, d, l) && Next(s, d, l).Some?
    requires (l.PutPush? && s.devices[d].pc.PushPut?) || (l.PutMerge? && s.devices[d].pc.MergePut?)
    ensures EditsOf(s.remote) <= s.devices[d].file.database.edits
  {
    var dev := s.devices[d];
    assert DeviceOk(dev, s.history);
  }

  /** One step keeps the invariant, and neither the remote nor any device's file loses an
      edit, unless the step seeds over an existing object. */
  lemma StepKeeps(s: System, d: DeviceId, l: Label)
    requires Inv(s) && Next(s, d, l).Some? && !SeedsOverObject(s, d, l)
    ensures Inv(Next(s, d, l).value)
    ensures EditsOf(s.remote) <= EditsOf(Next(s, d, l).value.remote)
    ensures Next(s, d, l).value.devices.Keys == s.devices.Keys
    ensures forall e :: e in s.devices ==>
              s.devices[e].file.database.edits <= Next(s, d, l).value.devices[e].file.database.edits
  {
    var dev := s.devices[d];
    if (l.PutPush? && dev.pc.PushPut?) || (l.PutMerge? && dev.pc.MergePut?) {
      MatchedPutCovers(s, d, l);
      PutKeeps(s, d, l.version);
    } else {
      LocalKeeps(s, dev, l);
    }
  }

  /* ---------------------------- Whole runs ---------------------------- */

  type Move = (DeviceId, Label)

  predicate Moved(s: System, move: Move, s': System) {
    Next(s, move.0, move.1) == Some(s')
  }

  ghost predicate Run(states: seq<System>, moves: seq<Move>) {
    && |states| == |moves| + 1
    && Init(states[0])
    && forall i :: 0 <= i < |moves| ==> Moved(states[i], moves[i], states[i + 1])
  }

  predicate BlindSeed(s: System, move: Move) {
    SeedsOverObject(s, move.0, move.1)
  }

  ghost predicate NoBlindSeed(states: seq<System>, moves: seq<Move>)
    requires |states| == |moves| + 1
  {
    forall i :: 0 <= i < |moves| ==> !BlindSeed(states[i], moves[i])
  }

  // The step out of state `i` of a run, with all that `StepKeeps` says of it.
  lemma RunStep(states: seq<System>, moves: seq<Move>, i: nat)
    requires Run(states, moves) && NoBlindSeed(states, moves) && i < |moves|
    requires Inv(states[i])
    ensures Next(states[i], moves[i].0, moves[i].1) == Some(states[i + 1])
    ensures !SeedsOverObject(states[i], moves[i].0, moves[i].1)
    ensures Inv(states[i + 1])
    ensures EditsOf(states[i].remote) <= EditsOf(states[i + 1].remote)
    ensures states[i + 1].devices.Keys == states[i].devices.Keys
    ensures forall e :: e in states[i].devices ==>
              states[i].devices[e].file.database.edits <= states[i + 1].devices[e].file.database.edits
  {
    assert Moved(states[i], moves[i], states[i + 1]) && !BlindSeed(states[i], moves[i]);
    StepKeeps(states[i], moves[i].0, moves[i].1);
  }

  lemma {:induction false} RunOk(states: seq<System>, moves: seq<Move>, j: nat)
    requires Run(states, moves) && NoBlindSeed(states, moves) && j < |states|
    ensures Inv(states[j]) && states[j].devices.Keys == states[0].devices.Keys
  {
    if j == 0 {
      InitOk(states[0]);
    } else {
      RunOk(states, moves, j - 1);
      RunStep(states, moves, j - 1);
    }
  }

  /** No edit is ever lost: over any interleaving of edits, syncs, failures and crashes,
      what the remote object or a device's file once held, it holds from then on. */
  lemma {:induction false} NoEditLost(states: seq<System>, moves: seq<Move>, i: nat, j: nat)
    requires Run(states, moves) && NoBlindSeed(states, moves) && i <= j < |states|
    ensures EditsOf(states[i].remote) <= EditsOf(states[j].remote)
    ensures states[i].devices.Keys == states[j].devices.Keys
    ensures forall d :: d in states[i].devices ==>
              states[i].devices[d].file.database.edits <= states[j].devices[d].file.database.edits
    decreases j
  {
    RunOk(states, moves, i);
    if i < j {
      NoEditLost(states, moves, i, j - 1);
      RunOk(states, moves, j - 1);
      RunStep(states, moves, j - 1);
    }
  }

  /** Once a run of `d` has come to its Ok, whatever its file held is on the remote for good. */
  lemma PublishedForGood(states: seq<System>, moves: seq<Move>, d: DeviceId, i: nat, j: nat)
    requires Run(states, moves) && NoBlindSeed(states, moves) && i <= j < |states|
    requires d in states[i].devices && states[i].devices[d].pc.Persist?
    requires states[i].devices[d].pc.pointers.localSha.Some?
    ensures states[i].devices[d].file.database.edits <= EditsOf(states[j].remote)
  {
    RunOk(states, moves, i);
    NoEditLost(states, moves, i, j);
    assert DeviceOk(states[i].devices[d], states[i].history);
  }

  /* ---------------------------- Replays ---------------------------- */

  function Replay(s: System, moves: seq<Move>): Option<System>
    decreases |moves|
  {
    if moves == [] then Some(s)
    else
      var before := Replay(s, moves[..|moves| - 1]);
      if before.None? then None else Next(before.value, moves[|moves| - 1].0, moves[|moves| - 1].1)
  }

  // No step of the replay is a first seed over an existing object.
  predicate Sighted(s: System, moves: seq<Move>)
    decreases |moves|
  {
    moves != [] ==>
      var n := |moves| - 1;
      && Sighted(s, moves[..n])
      && (Replay(s, moves[..n]).Some? ==> !BlindSeed(Replay(s, moves[..n]).value, moves[n]))
  }

  lemma ReplayOneMore(s: System, moves: seq<Move>, move: Move)
    requires Replay(s, moves).Some?
    ensures Replay(s, moves + [move]) == Next(Replay(s, moves).value, move.0, move.1)
    ensures Sighted(s, moves + [move]) <==> Sighted(s, moves) && !BlindSeed(Replay(s, moves).value, move)
  {
    assert (moves + [move])[..|moves|] == moves;
  }

  lemma {:induction false} ReplayOk(s: System, moves: seq<Move>)
    requires Init(s) && Sighted(s, moves) && Replay(s, moves).Some?
    ensures Inv(Replay(s, moves).value)
    decreases |moves|
  {
    if moves == [] {
      InitOk(s);
    } else {
      var n := |moves| - 1;
      ReplayOk(s, moves[..n]);
      StepKeeps(Replay(s, moves[..n]).value, moves[n].0, moves[n].1);
    }
  }

  /** A replay is a run, so the theorems about runs apply to it. */
  lemma {:induction false} ReplayIsRun(s: System, moves: seq<Move>) returns (states: seq<System>)
    requires Init(s) && Replay(s, moves).Some?
    ensures Run(states, moves) && states[0] == s && states[|moves|] == Replay(s, moves).value
    ensures Sighted(s, moves) ==> NoBlindSeed(states, moves)
    decreases |moves|
  {
    if moves == [] {
      states := [s];
    } else {
      var n := |moves| - 1;
      var before := ReplayIsRun(s, moves[..n]);
      states := before + [Replay(s, moves).value];
      forall i | 0 <= i < |moves|
        ensures Moved(states[i], moves[i], states[i + 1])
        ensures Sighted(s, moves) ==> !BlindSeed(states[i], moves[i])
      {
        if i < n {
          assert Moved(before[i], moves[..n][i], before[i + 1]);
          assert Sighted(s, moves) ==> !BlindSeed(before[i], moves[..n][i]);
        }
      }
    }
  }

  /* ---------------------------- Delivery ---------------------------- */

  // What a run that began when the remote held `floor` has secured so far.
  predicate Secured(dev: Device, s: System, floor: set<Edit>) {
    && floor <= EditsOf(s.remote)
    && match dev.pc
       case HeadDone(remoteNow) =>
         if remoteNow.None? then floor == {}
         else remoteNow.value in s.history && floor <= s.history[remoteNow.value].database.edits
       case FastBackup(snap) => floor <= snap.bytes.database.edits
       case FastSwap(snap) => floor <= snap.bytes.database.edits
       case FastSave(snap) => floor <= snap.bytes.database.edits
       case Merging(snap) => floor <= snap.bytes.database.edits
       case MergeSave(base) => base in s.history && floor <= s.history[base].database.edits
       case MergePut(base) => base in s.history && floor <= s.history[base].database.edits
       case Persist(_) => floor <= dev.file.database.edits
       case _ => true
  }

  lemma LocalSecures(s: System, dev: Device, l: Label, floor: set<Edit>)
    requires RemoteOk(s.remote, s.history) && DeviceOk(dev, s.history)
    requires Local(s, dev, l).Some? && Secured(dev, s, floor) && !dev.pc.Idle?
    ensures Secured(Local(s, dev, l).value, s, floor)
  {
  }

  lemma OwnStepSecures(s: System, d: DeviceId, l: Label, floor: set<Edit>)
    requires Inv(s) && Next(s, d, l).Some? && !SeedsOverObject(s, d, l)
    requires Secured(s.devices[d], s, floor) && !s.devices[d].pc.Idle?
    ensures Secured(Next(s, d, l).value.devices[d], Next(s, d, l).value, floor)
  {
    var dev := s.devices[d];
    if (l.PutPush? && dev.pc.PushPut?) || (l.PutMerge? && dev.pc.MergePut?) {
      MatchedPutCovers(s, d, l);
    } else {
      LocalSecures(s, dev, l, floor);
    }
  }

  // A step leaves the other devices alone, and every version keeps its bytes.
  lemma OthersStay(s: System, d: DeviceId, e: DeviceId, l: Label)
    requires Next(s, e, l).Some? && d in s.devices && d != e
    ensures d in Next(s, e, l).value.devices && Next(s, e, l).value.devices[d] == s.devices[d]
    ensures forall v :: v in s.history ==>
              v in Next(s, e, l).value.history && Next(s, e, l).value.history[v] == s.history[v]
  {
  }

  lemma OthersStepSecures(s: System, d: DeviceId, e: DeviceId, l: Label, floor: set<Edit>)
    requires Inv(s) && Next(s, e, l).Some? && !SeedsOverObject(s, e, l)
    requires d in s.devices && d != e && Secured(s.devices[d], s, floor)
    ensures d in Next(s, e, l).value.devices && Secured(Next(s, e, l).value.devices[d], Next(s, e, l).value, floor)
  {
    OthersStay(s, d, e, l);
    StepKeeps(s, e, l);
    SecuredStays(s.devices[d], s, Next(s, e, l).value, floor);
  }

  lemma SecuredStays(dev: Device, s: System, s': System, floor: set<Edit>)
    requires Secured(dev, s, floor) && EditsOf(s.remote) <= EditsOf(s'.remote)
    requires forall v :: v in s.history ==> v in s'.history && s'.history[v] == s.history[v]
    ensures Secured(dev, s', floor)
  {
  }

  predicate HasSecured(s: System, d: DeviceId, floor: set<Edit>) {
    d in s.devices && Secured(s.devices[d], s, floor)
  }

  predicate InsideRun(s: System, d: DeviceId) {
    d in s.devices && !s.devices[d].pc.Idle?
  }

  // Asking for the version pins down what the run must come to hold.
  lemma HeadSecures(s: System, d: DeviceId, s': System)
    requires Inv(s) && Moved(s, (d, Head), s')
    ensures HasSecured(s', d, EditsOf(s.remote))
  {
  }

  lemma StepSecures(s: System, move: Move, s': System, d: DeviceId, floor: set<Edit>)
    requires Inv(s) && Moved(s, move, s') && !BlindSeed(s, move)
    requires HasSecured(s, d, floor) && InsideRun(s, d)
    ensures HasSecured(s', d, floor)
  {
    if move.0 == d {
      OwnStepSecures(s, d, move.1, floor);
    } else {
      OthersStepSecures(s, d, move.0, move.1, floor);
    }
  }

  // The steps `i < k < j` all find `d` inside the run that began with the HEAD at `i`.
  ghost predicate SameRun(states: seq<System>, moves: seq<Move>, d: DeviceId, i: nat, j: nat)
    requires i < j < |states| == |moves| + 1
  {
    moves[i] == (d, Head) && forall k :: i < k < j ==> InsideRun(states[k], d)
  }

  lemma {:induction false} RunSecures(states: seq<System>, moves: seq<Move>, d: DeviceId, i: nat, j: nat)
    requires Run(states, moves) && NoBlindSeed(states, moves) && i < j < |states|
    requires SameRun(states, moves, d, i, j)
    ensures HasSecured(states[j], d, EditsOf(states[i].remote))
    decreases j
  {
    RunOk(states, moves, j - 1);
    assert Moved(states[j - 1], moves[j - 1], states[j]) && !BlindSeed(states[j - 1], moves[j - 1]);
    if j - 1 == i {
      HeadSecures(states[i], d, states[j]);
    } else {
      RunSecures(states, moves, d, i, j - 1);
      assert InsideRun(states[j - 1], d);
      StepSecures(states[j - 1], moves[j - 1], states[j], d, EditsOf(states[i].remote));
    }
  }

  /** Delivery: a run of `d` that asked for the remote's version at step `i` and comes to its
      Ok at step `j` leaves in the file of `d` everything the remote held at `i`, whatever
      the other devices did in between. */
  lemma SyncDelivers(states: seq<System>, moves: seq<Move>, d: DeviceId, i: nat, j: nat)
    requires Run(states, moves) && NoBlindSeed(states, moves) && i < j < |states|
    requires SameRun(states, moves, d, i, j)
    requires InsideRun(states[j], d) && states[j].devices[d].pc.Persist?
    ensures EditsOf(states[i].remote) <= states[j].devices[d].file.database.edits
  {
    RunSecures(states, moves, d, i, j);
  }

  /* ---------------------------- Agreement and quiescence ---------------------------- */

  // The device's pair names the current object and the current file.
  predicate UpToDate(s: System, d: DeviceId)
    requires d in s.devices
  {
    && s.remote.Some?
    && s.devices[d].live == Pointers(VersionOf(s.remote), Some(Hash(s.devices[d].file)))
  }

  // Devices that are all up to date all hold the very database the remote holds.
  lemma UpToDateDevicesAgree(s: System, d: DeviceId, e: DeviceId)
    requires Inv(s) && d in s.devices && e in s.devices
    requires UpToDate(s, d) && UpToDate(s, e)
    ensures s.devices[d].file.database == s.remote.value.bytes.database == s.devices[e].file.database
  {
    assert DeviceOk(s.devices[d], s.history) && DeviceOk(s.devices[e], s.history);
  }

  // A PUT, and then recording its pair, leaves the device up to date and the object its file.
  lemma PutLeavesUpToDate(s: System, d: DeviceId, l: Label)
    requires Next(s, d, l).Some?
    requires (l.PutPush? && s.devices[d].pc.PushPut?) || (l.PutMerge? && s.devices[d].pc.MergePut?)
    ensures var s' := Next(Next(s, d, l).value, d, KeepPointers);
            s'.Some? && UpToDate(s'.value, d) && s'.value.devices[d].pc.Idle?
            && s'.value.remote.value.bytes == s'.value.devices[d].file
  {
  }

  /** A fast replacement leaves the device up to date if and only if the object is still the one it
      fetched. Its file holds that object's database in any case, and lost no edit. */
  lemma FastReplaceUpToDateExactly(s: System, d: DeviceId, nonce: nat)
    requires Inv(s) && Next(s, d, SaveFast(nonce)).Some?
    ensures s.devices[d].pc.FastSave? &&
            var snap := s.devices[d].pc.snap;
            var s' := Next(Next(s, d, SaveFast(nonce)).value, d, KeepPointers);
            && s'.Some? && (UpToDate(s'.value, d) <==> VersionOf(s.remote) == Some(snap.version))
            && s'.value.devices[d].file.database == snap.bytes.database
            && s.devices[d].file.database.edits <= s'.value.devices[d].file.database.edits
  {
    assert DeviceOk(s.devices[d], s.history);
  }

  /** Whatever the outcome, and whatever the others did since: recording the pair leaves the device
      up to date if and only if the object is still the one the pair names. */
  lemma RecordedUpToDateExactly(s: System, d: DeviceId)
    requires Inv(s) && d in s.devices && s.devices[d].pc.Persist?
    ensures var pair := s.devices[d].pc.pointers;
            var s' := Next(s, d, KeepPointers);
            s'.Some? && (UpToDate(s'.value, d) <==> s.remote.Some? && VersionOf(s.remote) == pair.remoteEtag)
  {
    assert DeviceOk(s.devices[d], s.history);
  }

  /** A sync with no change by anyone is AlreadyInSync, and leaves the whole system,
      the pair included, exactly as it was. */
  lemma QuietSyncChangesNothing(s: System, d: DeviceId)
    requires d in s.devices && UpToDate(s, d) && s.devices[d].pc.Idle?
    ensures var s1 := Next(s, d, Head);
            s1.Some? && var s2 := Next(s1.value, d, Compare);
            s2.Some? && s2.value.devices[d].pc == Persist(s.devices[d].live)
            && Next(s2.value, d, KeepPointers) == Some(s)
  {
    var s2 := Next(Next(s, d, Head).value, d, Compare).value;
    var s3 := Next(s2, d, KeepPointers).value;
    assert s3.devices[d] == s.devices[d];
    assert s3.devices == s.devices;
  }

  // Only the recording step, a crash or a reconfiguration changes the live pair, and only
  // saving or a reconfiguration changes the pair on disk: an Err leaves both as they were.
  lemma PointersMoveOnlyOnOk(s: System, d: DeviceId, l: Label)
    requires Next(s, d, l).Some?
    ensures var before, after := s.devices[d], Next(s, d, l).value.devices[d];
            && (before.live != after.live ==> (l.KeepPointers? && before.pc.Persist?) || l.Crash? || l.Reconfigure?)
            && (before.saved != after.saved ==> l.SavePointers? || l.Reconfigure?)
            && (l.Crash? ==> after.live == before.saved)
            && (l.Fail? ==> after.live == before.live && after.file == before.file)
  {
  }

  /* ---------------------------- The first seed ---------------------------- */

  /** A step takes an edit off the remote exactly when it is a first seed landing on an
      existing object that holds an edit the seeding file lacks. */
  lemma LosesExactlyWhenSeedingOver(s: System, d: DeviceId, l: Label)
    requires Inv(s) && Next(s, d, l).Some?
    ensures EditsOf(s.remote) <= EditsOf(Next(s, d, l).value.remote) <==>
            !(SeedsOverObject(s, d, l) && exists e :: e in EditsOf(s.remote) && e !in s.devices[d].file.database.edits)
  {
    if !SeedsOverObject(s, d, l) {
      StepKeeps(s, d, l);
    }
  }

  // A race of two first syncs that both found the target empty: the second seed replaces the
  // first object, and the first device, seeing a new version and an unchanged file, then
  // fast-replaces its own copy away.
  function Unsynced(db: Database, nonce: nat): Device {
    Device(0, Bytes(0, db, nonce), db, None, UNSYNCED, UNSYNCED, Idle)
  }

  // The two devices and the remote after `k` of the fourteen steps of that race.
  function RaceDevice0(k: nat): Device {
    var db0, db1 := Database(0, 0, {7}), Database(0, 0, {8});
    var start := Unsynced(db0, 0);
    var snap := Snapshot(2, Bytes(0, db1, 1));
    var pair := Pointers(Some(1), Some(Hash(start.file)));
    var seeded := start.(live := pair);
    var file := Bytes(0, db1, 2);
    if k < 1 then start
    else if k < 3 then start.(pc := HeadDone(None))
    else if k < 5 then start.(pc := PushPut)
    else if k < 6 then start.(pc := Persist(pair))
    else if k < 8 then seeded
    else if k < 9 then seeded.(pc := HeadDone(Some(2)))
    else if k < 10 then seeded.(pc := FastGet)
    else if k < 11 then seeded.(pc := FastBackup(snap))
    else if k < 12 then seeded.(backup := Some(start.file), pc := FastSwap(snap))
    else if k < 13 then seeded.(backup := Some(start.file), memory := db1, pc := FastSave(snap))
    else seeded.(backup := Some(start.file), memory := db1, file := file,
                 pc := Persist(Pointers(Some(2), Some(Hash(file)))))
  }

  function RaceDevice1(k: nat): Device {
    var start := Unsynced(Database(0, 0, {8}), 1);
    var pair := Pointers(Some(2), Some(Hash(start.file)));
    if k < 2 then start
    else if k < 4 then start.(pc := HeadDone(None))
    else if k < 7 then start.(pc := PushPut)
    else start.(pc := Persist(pair))
  }

  function RaceSystem(k: nat): System {
    var file0, file1 := Bytes(0, Database(0, 0, {7}), 0), Bytes(0, Database(0, 0, {8}), 1);
    var devices := map[0 := RaceDevice0(k), 1 := RaceDevice1(k)];
    if k < 5 then System(None, map[], devices)
    else if k < 7 then System(Some(Snapshot(1, file0)), map[1 := file0], devices)
    else System(Some(Snapshot(2, file1)), map[1 := file0, 2 := file1], devices)
  }

  function RaceMove(k: nat): Move {
    if k == 0 then (0, Head) else if k == 1 then (1, Head)
    else if k == 2 then (0, Compare) else if k == 3 then (1, Compare)
    else if k == 4 then (0, PutPush(1)) else if k == 5 then (0, KeepPointers)
    else if k == 6 then (1, PutPush(2))
    else if k == 7 then (0, Head) else if k == 8 then (0, Compare)
    else if k == 9 then (0, GetChanged) else if k == 10 then (0, BackUpFast)
    else if k == 11 then (0, Swap) else (0, SaveFast(2))
  }

  // Both devices look, and both decide to seed.
  lemma RaceBothDecide(k: nat)
    requires k < 4
    ensures Moved(RaceSystem(k), RaceMove(k), RaceSystem(k + 1))
  {
    assert Next(RaceSystem(k), RaceMove(k).0, RaceMove(k).1).value.devices == RaceSystem(k + 1).devices;
  }

  // Both seed.
  lemma RaceBothSeed(k: nat)
    requires 4 <= k < 7
    ensures Moved(RaceSystem(k), RaceMove(k), RaceSystem(k + 1))
  {
    var n := Next(RaceSystem(k), RaceMove(k).0, RaceMove(k).1).value;
    assert n.devices == RaceSystem(k + 1).devices;
    assert n.history == RaceSystem(k + 1).history;
  }

  // The first device fast-replaces.
  lemma RaceReplace(k: nat)
    requires 7 <= k < 13
    ensures Moved(RaceSystem(k), RaceMove(k), RaceSystem(k + 1))
  {
    assert Next(RaceSystem(k), RaceMove(k).0, RaceMove(k).1).value.devices == RaceSystem(k + 1).devices;
  }

  lemma RaceMoves(k: nat)
    requires k < 13
    ensures Moved(RaceSystem(k), RaceMove(k), RaceSystem(k + 1))
  {
    if k < 4 {
      RaceBothDecide(k);
    } else if k < 7 {
      RaceBothSeed(k);
    } else {
      RaceReplace(k);
    }
  }

  ghost predicate Survives(e: Edit, s: System) {
    e in EditsOf(s.remote) || exists d :: d in s.devices && e in s.devices[d].file.database.edits
  }

  /** An edit that reached the remote can end up nowhere but in a backup. */
  lemma FirstSeedRaceLosesAnEdit()
    ensures exists states: seq<System>, moves: seq<Move>, i: nat, e: Edit ::
              && Run(states, moves) && i < |states|
              && e in EditsOf(states[i].remote)
              && !Survives(e, states[|moves|])
  {
    var states, moves := seq(14, (k: nat) => RaceSystem(k)), seq(13, (k: nat) => RaceMove(k));
    forall k | 0 <= k < |moves|
      ensures Moved(states[k], moves[k], states[k + 1])
    {
      RaceMoves(k);
    }
    assert Run(states, moves);
    assert 7 in EditsOf(states[5].remote);
    assert !Survives(7, states[13]);
  }

  /* ---------------------------- Another key derivation ---------------------------- */

  // Device 1 seeds a database of another key derivation; device 0, never synced, goes to merge.
  function MismatchDevice0(k: nat): Device {
    var start := Unsynced(Database(0, 0, {7}), 0);
    var snap := Snapshot(1, Bytes(0, Database(0, 1, {8}), 1));
    if k < 4 then start
    else if k < 5 then start.(pc := HeadDone(Some(1)))
    else if k < 6 then start.(pc := MergeBackup)
    else if k < 7 then start.(backup := Some(start.file), pc := MergeGet)
    else start.(backup := Some(start.file), pc := Merging(snap))
  }

  function MismatchDevice1(k: nat): Device {
    var start := Unsynced(Database(0, 1, {8}), 1);
    if k < 1 then start
    else if k < 2 then start.(pc := HeadDone(None))
    else if k < 3 then start.(pc := PushPut)
    else start.(pc := Persist(Pointers(Some(1), Some(Hash(start.file)))))
  }

  function MismatchSystem(k: nat): System {
    var seed := Bytes(0, Database(0, 1, {8}), 1);
    var devices := map[0 := MismatchDevice0(k), 1 := MismatchDevice1(k)];
    if k < 3 then System(None, map[], devices) else System(Some(Snapshot(1, seed)), map[1 := seed], devices)
  }

  function MismatchMove(k: nat): Move {
    if k == 0 then (1, Head) else if k == 1 then (1, Compare) else if k == 2 then (1, PutPush(1))
    else if k == 3 then (0, Head) else if k == 4 then (0, Compare)
    else if k == 5 then (0, BackUpMerge) else (0, Get)
  }

  lemma MismatchSeed(k: nat)
    requires k < 3
    ensures Moved(MismatchSystem(k), MismatchMove(k), MismatchSystem(k + 1))
    ensures !BlindSeed(MismatchSystem(k), MismatchMove(k))
  {
    var n := Next(MismatchSystem(k), MismatchMove(k).0, MismatchMove(k).1).value;
    assert n.devices == MismatchSystem(k + 1).devices;
    assert n.history == MismatchSystem(k + 1).history;
  }

  lemma MismatchMoves(k: nat)
    requires k < 7
    ensures Moved(MismatchSystem(k), MismatchMove(k), MismatchSystem(k + 1))
    ensures !BlindSeed(MismatchSystem(k), MismatchMove(k))
  {
    if k < 3 {
      MismatchSeed(k);
    } else {
      assert Next(MismatchSystem(k), MismatchMove(k).0, MismatchMove(k).1).value.devices == MismatchSystem(k + 1).devices;
    }
  }

  /** A run on the merge path that has written its backup when it meets another key derivation:
      whatever the merge would give, it cannot go on, and ends with an error and the file as it was. */
  lemma MismatchAfterBackup()
    ensures var systems := seq(8, k requires 0 <= k < 8 => MismatchSystem(k));
            var moves := seq(7, k requires 0 <= k < 7 => MismatchMove(k));
            var dev := systems[7].devices[0];
            && Run(systems, moves) && NoBlindSeed(systems, moves)
            && dev.backup == Some(dev.file) && systems[0].devices[0].backup == None
            && dev.pc.Merging? && !Opens(dev, dev.pc.snap.bytes)
            && (forall merged :: Next(systems[7], 0, Reconcile(merged)) == None)
            && Next(systems[7], 0, Fail).Some? && Next(systems[7], 0, Fail).value.devices[0].file == dev.file
  {
    forall k | 0 <= k < 7
      ensures Moved(MismatchSystem(k), MismatchMove(k), MismatchSystem(k + 1))
      ensures !BlindSeed(MismatchSystem(k), MismatchMove(k))
    {
      MismatchMoves(k);
    }
  }
}
