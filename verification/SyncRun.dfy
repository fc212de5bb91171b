/** One sync run against a live remote: the vault on disk, the transport, and the
    state machine that drives them. Other devices write between any two calls, and any
    file or network operation may fail. */
module SyncRun {
  import opened Wrappers
  import opened SyncTypes
  import P = SyncProtocol

  datatype SyncError =
    | Network
    | NotFound
    | PreconditionFailed
    | VaultIo
    | BackupFailed
    | SaveFailed
    | AuthenticationFailed
    | MasterPasswordMismatch
    | DatabaseIdentityMismatch
    | Unresolvable
    | ConditionalPutExhausted(attempts: nat)

  predicate IsPreconditionFailure(e: SyncError) {
    e.PreconditionFailed?
  }

  datatype Outcome =
    | AlreadyInSync
    | Pushed(isFirstSeed: bool)
    | FastReplaced
    | Merged(delta: set<Edit>, attempts: nat)

  // `Clash` leaves the local database partly merged.
  datatype MergeResult = Folded(database: Database) | Clash(partial: Database)

  type MergeFunction = (Database, Database) -> MergeResult

  // All that is assumed of the merge: its result holds both inputs and stays the same vault.
  ghost predicate KeepsBoth(merge: MergeFunction) {
    forall local, remote :: merge(local, remote).Folded? ==>
      && local.edits + remote.edits <= merge(local, remote).database.edits
      && merge(local, remote).database.root == local.root
      && merge(local, remote).database.kdf == local.kdf
  }

  // The remote databases folded into the local one, one turn of the loop after another.
  function FoldAll(merge: MergeFunction, local: Database, fetched: seq<Database>): Option<Database>
    decreases |fetched|
  {
    if fetched == [] then Some(local)
    else
      var before := FoldAll(merge, local, fetched[..|fetched| - 1]);
      if before.None? then None
      else
        var last := merge(before.value, fetched[|fetched| - 1]);
        if last.Folded? then Some(last.database) else None
  }

  lemma {:induction false} FoldGrows(merge: MergeFunction, local: Database, fetched: seq<Database>, k: nat)
    requires KeepsBoth(merge) && FoldAll(merge, local, fetched).Some? && k <= |fetched|
    ensures FoldAll(merge, local, fetched[..k]).Some?
    ensures FoldAll(merge, local, fetched[..k]).value.edits <= FoldAll(merge, local, fetched).value.edits
    decreases |fetched|
  {
    if k < |fetched| {
      FoldGrows(merge, local, fetched[..|fetched| - 1], k);
      assert fetched[..|fetched| - 1][..k] == fetched[..k];
    } else {
      assert fetched[..k] == fetched;
    }
  }

  // A fold holds all that was folded into it.
  lemma {:induction false} TurnsAreKept(merge: MergeFunction, local: Database, fetched: seq<Database>)
    requires KeepsBoth(merge) && FoldAll(merge, local, fetched).Some?
    ensures forall k :: 0 <= k < |fetched| ==> fetched[k].edits <= FoldAll(merge, local, fetched).value.edits
    decreases |fetched|
  {
    if fetched != [] {
      var n := |fetched| - 1;
      TurnsAreKept(merge, local, fetched[..n]);
      forall k | 0 <= k < n
        ensures fetched[k].edits <= FoldAll(merge, local, fetched).value.edits
      {
        assert fetched[..n][k] == fetched[k];
      }
    }
  }

  // All that was handed out since has its edits kept.
  ghost predicate AllKept(before: seq<Database>, handed: seq<Database>, edits: set<Edit>) {
    before <= handed && forall k :: |before| <= k < |handed| ==> handed[k].edits <= edits
  }

  // What a merged run reports: the gain of its last turn.
  function LastDelta(merge: MergeFunction, local: Database, fetched: seq<Database>): set<Edit>
    requires fetched != [] && FoldAll(merge, local, fetched).Some?
  {
    FoldAll(merge, local, fetched).value.edits
    - FoldAll(merge, local, fetched[..|fetched| - 1]).value.edits
  }

  // The `n` databases handed out since `before`, folded one after another into `local`, give `now`.
  ghost predicate Taken(
      merge: MergeFunction, local: Database, before: seq<Database>, handed: seq<Database>, now: Database, n: nat)
  {
    before <= handed && |handed| == |before| + n && FoldAll(merge, local, handed[|before|..]) == Some(now)
  }

  lemma TakenMore(
      merge: MergeFunction, local: Database, before: seq<Database>, handed: seq<Database>, now: Database, n: nat,
      turn: Database, next: Database)
    requires Taken(merge, local, before, handed, now, n) && merge(now, turn) == Folded(next)
    ensures Taken(merge, local, before, handed + [turn], next, n + 1)
    ensures LastDelta(merge, local, (handed + [turn])[|before|..]) == next.edits - now.edits
  {
    var turns := handed[|before|..];
    assert (handed + [turn])[|before|..] == turns + [turn];
    assert (turns + [turn])[..|turns|] == turns;
  }

  lemma TakenIsKept(
      merge: MergeFunction, local: Database, before: seq<Database>, handed: seq<Database>, now: Database, n: nat)
    requires KeepsBoth(merge) && Taken(merge, local, before, handed, now, n)
    ensures AllKept(before, handed, now.edits)
  {
    var turns := handed[|before|..];
    TurnsAreKept(merge, local, turns);
    forall k | |before| <= k < |handed|
      ensures handed[k].edits <= now.edits
    {
      assert turns[k - |before|] == handed[k];
    }
  }

  /** The reported delta is all that the run gained exactly when no turn before the last gained
      anything. */
  lemma DeltaIsWholeExactly(merge: MergeFunction, local: Database, fetched: seq<Database>)
    requires KeepsBoth(merge) && fetched != [] && FoldAll(merge, local, fetched).Some?
    ensures var whole := FoldAll(merge, local, fetched).value.edits - local.edits;
            && LastDelta(merge, local, fetched) <= whole
            && (LastDelta(merge, local, fetched) == whole
                <==> FoldAll(merge, local, fetched[..|fetched| - 1]).value.edits == local.edits)
  {
    var n := |fetched| - 1;
    FoldGrows(merge, local, fetched, 0);
    FoldGrows(merge, local, fetched, n);
    FoldGrows(merge, local, fetched[..n], 0);
    assert fetched[..0] == [] && fetched[..n][..0] == [];
    var before, after := FoldAll(merge, local, fetched[..n]).value.edits, FoldAll(merge, local, fetched).value.edits;
    if before != local.edits {
      var e :| e in before && e !in local.edits;
      assert e in after - local.edits && e !in after - before;
    }
  }

  // The plainest merge there is.
  function Union(local: Database, remote: Database): MergeResult {
    Folded(local.(edits := local.edits + remote.edits))
  }

  /** Two turns, of which the first brings edit 1 and the second edit 2: the run gained both, and
      reports only the second. */
  lemma DeltaFallsShort()
    ensures var local, fetched := Database(0, 0, {}), [Database(0, 0, {1}), Database(0, 0, {1, 2})];
            && KeepsBoth(Union) && FoldAll(Union, local, fetched) == Some(Database(0, 0, {1, 2}))
            && LastDelta(Union, local, fetched) == {2}
  {
    var local, first, second := Database(0, 0, {}), Database(0, 0, {1}), Database(0, 0, {1, 2});
    var fetched := [first, second];
    assert fetched[..1] == [first] && [first][..0] == [];
    assert FoldAll(Union, local, []) == Some(local);
    assert local.edits + first.edits == {1};
    assert FoldAll(Union, local, [first]) == Some(first);
    assert first.edits + second.edits == {1, 2};
  }

  function OpenFromBytes(bytes: Bytes, key: nat): Result<Database, SyncError> {
    if bytes.key == key then Ok(bytes.database) else Err(AuthenticationFailed)
  }

  /** An open vault: the file on disk, its `.bak` sibling and the decrypted database. */
  class Vault {
    const key: nat
    var file: Bytes
    var database: Database
    var backup: Option<Bytes>
    var nextNonce: nat            // seeds and IVs are fresh: no two saves agree
    ghost var saves: nat          // calls to Save
    ghost var backups: nat        // times the backup was rewritten

    ghost predicate Valid()
      reads this
    {
      file.nonce < nextNonce && file.key == key
    }

    constructor (file: Bytes)
      ensures Valid() && this.file == file && database == file.database && key == file.key
      ensures backup == None && saves == 0 && backups == 0
    {
      key, this.file, database, backup := file.key, file, file.database, None;
      nextNonce, saves, backups := file.nonce + 1, 0, 0;
    }

    method Read() returns (r: Result<Bytes, SyncError>)
      ensures r.Ok? ==> r.value == file
      ensures r.Err? ==> r.error == VaultIo
    {
      if * {
        return Err(VaultIo);
      }
      return Ok(file);
    }

    // Writes the in-memory database over the file. An error may come before the rename
    // (old file) or after it (new file); the file is whole either way.
    method Save() returns (r: Result<(), SyncError>)
      requires Valid()
      modifies this`file, this`nextNonce, this`saves
      ensures Valid() && saves == old(saves) + 1 && nextNonce >= old(nextNonce)
      ensures r.Ok? ==> file != old(file)
      ensures file == old(file) || (file.key == key && file.database == database && file.nonce >= old(nextNonce))
      ensures r.Err? ==> r.error == SaveFailed
    {
      saves := saves + 1;
      if * {
        return Err(SaveFailed);
      }
      file := Bytes(key, database, nextNonce);
      nextNonce := nextNonce + 1;
      if * {
        return Err(SaveFailed);
      }
      return Ok(());
    }

    method ReplaceDatabase(newDb: Database) returns (r: Result<(), SyncError>)
      modifies this`database
      ensures r.Ok? <==> newDb.root == old(database).root
      ensures database == if r.Ok? then newDb else old(database)
      ensures r.Err? ==> r.error == DatabaseIdentityMismatch
    {
      if database.root != newDb.root {
        return Err(DatabaseIdentityMismatch);
      }
      database := newDb;
      return Ok(());
    }

    // Copies the file to its `.bak` sibling, with the same two kinds of error as `Save`.
    method SnapshotPreMerge() returns (r: Result<(), SyncError>)
      modifies this`backup, this`backups
      ensures r.Ok? ==> backup == Some(file) && backups == old(backups) + 1
      ensures (backup == old(backup) && backups == old(backups))
              || (backup == Some(file) && backups == old(backups) + 1)
      ensures r.Err? ==> r.error == BackupFailed
    {
      if * {
        return Err(BackupFailed);
      }
      backup := Some(file);
      backups := backups + 1;
      if * {
        return Err(BackupFailed);
      }
      return Ok(());
    }
  }

  /* ------------------------------ The remote, and the others ------------------------------ */

  // Every version named so far is below `counter`.
  ghost predicate VersionsBelow(s: P.System, counter: nat) {
    && (s.remote.Some? ==> s.remote.value.version < counter)
    && forall v :: v in s.history ==> v < counter
  }

  // The version a step mints, if it does.
  function Minted(l: P.Label): Option<Version> {
    match l
    case PutPush(version) => Some(version)
    case PutMerge(version) => Some(version)
    case _ => None
  }

  predicate MintsFresh(l: P.Label, counter: nat) {
    Minted(l).Some? ==> counter <= Minted(l).value
  }

  function CounterAfter(l: P.Label, counter: nat): nat {
    if Minted(l).Some? then Max(counter, Minted(l).value + 1) else counter
  }

  lemma CounterKeeps(s: P.System, d: P.DeviceId, l: P.Label, counter: nat)
    requires VersionsBelow(s, counter) && MintsFresh(l, counter) && P.Next(s, d, l).Some?
    ensures VersionsBelow(P.Next(s, d, l).value, CounterAfter(l, counter))
    ensures P.Next(s, d, l).value.remote == s.remote || NewerThan(P.Next(s, d, l).value.remote, counter)
    ensures P.Next(s, d, l).value.devices.Keys == s.devices.Keys
  {
  }

  predicate NewerThan(remote: Option<Snapshot>, counter: nat) {
    remote.Some? && counter <= remote.value.version
  }

  // The object is the one it was, or a later one.
  predicate Onward(before: Option<Snapshot>, counter: nat, after: Option<Snapshot>) {
    after == before || NewerThan(after, counter)
  }

  predicate Unmoved(before: P.System, after: P.System) {
    after.remote == before.remote && after.history == before.history
  }

  predicate Remembered(snap: Snapshot, history: map<Version, Bytes>) {
    snap.version in history && history[snap.version] == snap.bytes
  }

  predicate Remembers(before: map<Version, Bytes>, after: map<Version, Bytes>) {
    forall v :: v in before ==> v in after && after[v] == before[v]
  }

  // A world before the first sync.
  type Beginning = s: P.System | P.Init(s) ghost witness P.System(None, map[], map[])

  /** The remote object as device `me` sees it, behind an enforcing backend that mints a new version
      for every write. `world` is the whole system of the protocol: the object, and all devices. */
  class Transport {
    const me: P.DeviceId
    var world: P.System
    var counter: nat
    ghost const origin: Beginning
    ghost var trace: seq<P.Move>
    ghost var blind: bool              // a first seed went over an existing object
    ghost var handed: seq<Database>    // the databases it was handed, in order
    ghost var puts: nat
    ghost var refused: nat

    // The world is where the trace of all steps, this device's and the others', has led.
    ghost predicate Valid()
      reads this
    {
      && P.Replay(origin, trace) == Some(world)
      && (!blind ==> P.Sighted(origin, trace))
      && me in world.devices && VersionsBelow(world, counter)
    }

    constructor (origin: Beginning, me: P.DeviceId)
      requires me in origin.devices
      ensures Valid() && world == origin && !blind && this.me == me && this.origin == origin
      ensures trace == [] && puts == refused == 0 && handed == []
    {
      this.me, world, counter := me, origin, 0;
      this.origin, trace, blind, handed, puts, refused := origin, [], false, [], 0, 0;
    }

    // This device, in the world.
    function Mine(): P.Device
      requires me in world.devices
      reads this
    {
      world.devices[me]
    }

    lemma WorldOk()
      requires Valid() && !blind
      ensures P.Inv(world)
    {
      P.ReplayOk(origin, trace);
    }

    lemma MineOk()
      requires Valid() && !blind
      ensures P.DeviceOk(Mine(), world.history)
    {
      WorldOk();
    }

    // One step of one device.
    method Step(d: P.DeviceId, l: P.Label)
      requires Valid() && P.Next(world, d, l).Some? && MintsFresh(l, counter)
      modifies this`world, this`counter, this`trace, this`blind
      ensures Valid() && Some(world) == P.Next(old(world), d, l) && trace == old(trace) + [(d, l)]
      ensures blind == (old(blind) || P.SeedsOverObject(old(world), d, l))
      ensures counter == CounterAfter(l, old(counter)) && Onward(old(world).remote, old(counter), world.remote)
      ensures !blind ==> EditsOf(old(world).remote) <= EditsOf(world.remote)
    {
      CounterKeeps(world, d, l, counter);
      P.ReplayOneMore(origin, trace, (d, l));
      if !blind && !P.SeedsOverObject(world, d, l) {
        WorldOk();
        P.StepKeeps(world, d, l);
      }
      blind := blind || P.SeedsOverObject(world, d, l);
      world, counter, trace := P.Next(world, d, l).value, CounterAfter(l, counter), trace + [(d, l)];
    }

    // Anything the other devices do, short of a first seed over an existing object.
    method Others()
      requires Valid()
      modifies this`world, this`counter, this`trace, this`blind
      ensures Valid() && blind == old(blind) && Mine() == old(Mine()) && old(trace) <= trace
      ensures old(counter) <= counter && Onward(old(world).remote, old(counter), world.remote)
      ensures !blind ==> EditsOf(old(world).remote) <= EditsOf(world.remote)
      ensures Remembers(old(world).history, world.history)
    {
      var n: int := *;
      while 0 < n
        invariant Valid() && blind == old(blind) && Mine() == old(Mine()) && old(trace) <= trace
        invariant old(counter) <= counter && Onward(old(world).remote, old(counter), world.remote)
        invariant !blind ==> EditsOf(old(world).remote) <= EditsOf(world.remote)
        invariant Remembers(old(world).history, world.history)
      {
        var d: P.DeviceId, l: P.Label := *, *;
        if d != me && P.Next(world, d, l).Some? && MintsFresh(l, counter) && !P.SeedsOverObject(world, d, l) {
          P.OthersStay(world, me, d, l);
          Step(d, l);
        }
        n := n - 1;
      }
    }

    method Head() returns (r: Result<Option<Version>, SyncError>)
      requires Valid() && !blind && Mine().pc.Idle?
      modifies this`world, this`counter, this`trace, this`blind
      ensures Valid() && !blind && old(trace) <= trace
      ensures old(counter) <= counter && Onward(old(world).remote, old(counter), world.remote)
      ensures EditsOf(old(world).remote) <= EditsOf(world.remote)
      ensures r.Ok? ==> r.value == VersionOf(world.remote)
      ensures Mine() == if r.Ok? then old(Mine()).(pc := P.HeadDone(r.value)) else old(Mine())
      ensures r.Err? ==> r.error == Network
    {
      Others();
      if * {
        return Err(Network);
      }
      var remoteNow := VersionOf(world.remote);
      Step(me, P.Head);
      return Ok(remoteNow);
    }

    // What the GET brings, to a fast replacement or to a turn of the merge loop.
    lemma FetchedIs(s: P.System)
      requires me in s.devices && s.remote.Some? && (s.devices[me].pc.FastGet? || s.devices[me].pc.MergeGet?)
      ensures var dev, snap := s.devices[me], s.remote.value;
              P.Next(s, me, if dev.pc.FastGet? then P.GetChanged else P.Get) ==
                Some(s.(devices := s.devices[me := dev.(pc :=
                  if dev.pc.MergeGet? then P.Merging(snap)
                  else if Some(snap.version) == dev.live.remoteEtag then P.Persist(dev.live)
                  else P.FastBackup(snap))]))
    {
    }

    // On the way to a fast replacement, or in a turn of the merge loop.
    method FetchIfChanged(prev: Option<Version>) returns (r: Result<Option<Snapshot>, SyncError>)
      requires Valid() && !blind
      requires (Mine().pc.FastGet? && prev == Mine().live.remoteEtag) || (Mine().pc.MergeGet? && prev.None?)
      modifies this`world, this`counter, this`trace, this`blind, this`handed
      ensures Valid() && !blind && old(trace) <= trace
      ensures old(counter) <= counter && Onward(old(world).remote, old(counter), world.remote)
      ensures EditsOf(old(world).remote) <= EditsOf(world.remote)
      ensures r.Ok? ==> world.remote.Some? && Remembered(world.remote.value, world.history)
      ensures r.Ok? ==> r.value == if VersionOf(world.remote) == prev then None else world.remote
      ensures Mine() == old(Mine()).(pc :=
                if r.Err? then old(Mine()).pc
                else if r.value.None? then P.Persist(old(Mine()).live)
                else if old(Mine()).pc.FastGet? then P.FastBackup(r.value.value)
                else P.Merging(r.value.value))
      ensures r.Ok? && r.value.Some? ==> handed == old(handed) + [r.value.value.bytes.database]
      ensures !(r.Ok? && r.value.Some?) ==> handed == old(handed)
      ensures r.Err? ==> r.error in {Network, NotFound}
    {
      Others();
      if * {
        return Err(Network);
      }
      if world.remote.None? {
        return Err(NotFound);
      }
      WorldOk();
      FetchedIs(world);
      Step(me, if Mine().pc.FastGet? then P.GetChanged else P.Get);
      if Some(world.remote.value.version) == prev {
        return Ok(None);
      }
      handed := handed + [world.remote.value.bytes.database];
      return Ok(world.remote);
    }

    // The decision of the truth table.
    method Compare()
      requires Valid() && Mine().pc.HeadDone?
      modifies this`world, this`counter, this`trace, this`blind
      ensures Valid() && blind == old(blind) && old(trace) <= trace
      ensures Mine() == old(Mine()).(pc :=
                match Decide(old(Mine()).pc.remoteNow, Hash(old(Mine()).file), old(Mine()).live)
                case InSync => P.Persist(old(Mine()).live)
                case Push => P.PushPut
                case FastReplace => P.FastGet
                case Merge => P.MergeBackup)
      ensures counter == old(counter) && Unmoved(old(world), world)
    {
      Step(me, P.Compare);
    }

    // The run ends with an error; a later one starts from the file.
    method GiveUp()
      requires Valid()
      modifies this`world, this`counter, this`trace, this`blind
      ensures Valid() && blind == old(blind) && old(trace) <= trace
      ensures Mine() == old(Mine()).(memory := Mine().file.database, pc := P.Idle)
      ensures counter == old(counter) && Unmoved(old(world), world)
    {
      Step(me, P.Fail);
    }

    // The precondition of the PUT this device is about to send, if it is about to send one.
    function IfMatchNow(): Option<Option<Version>>
      requires me in world.devices
      reads this
    {
      match Mine().pc
      case PushPut => Some(Mine().live.remoteEtag)
      case MergePut(base) => Some(Some(base))
      case _ => None
    }

    // A PUT under `If-Match` when a version is given, unconditional otherwise. A network
    // error may hide a write that took place.
    method PutConditional(bytes: Bytes, ifMatch: Option<Version>) returns (r: Result<Version, SyncError>)
      requires Valid() && !blind && IfMatchNow() == Some(ifMatch) && bytes == Mine().file
      modifies this`world, this`counter, this`trace, this`blind, this`puts, this`refused
      ensures Valid() && old(trace) <= trace
      ensures old(counter) <= counter && puts == old(puts) + 1
      ensures r.Ok? ==>
                && world.remote == Some(Snapshot(r.value, bytes)) && old(counter) <= r.value
                && r.value in world.history && world.history[r.value] == bytes
                && Mine() == old(Mine()).(pc := P.Persist(Pointers(Some(r.value), Some(Hash(bytes)))))
      ensures r.Err? ==> r.error in {Network, PreconditionFailed} && Mine() == old(Mine()).(pc := Mine().pc)
      ensures refused == old(refused) + if r == Err(PreconditionFailed) then 1 else 0
      ensures r == Err(PreconditionFailed) ==>
                && ifMatch.Some? && VersionOf(world.remote) != ifMatch && Mine() == old(Mine())
                && Onward(old(world).remote, old(counter), world.remote)
      ensures ifMatch.Some? ==> !blind
      ensures !blind ==> EditsOf(old(world).remote) <= EditsOf(world.remote)
    {
      puts := puts + 1;
      Others();
      if * {
        return Err(Network);
      }
      if !Matches(world.remote, ifMatch) {
        refused := refused + 1;
        return Err(PreconditionFailed);
      }
      var version := counter;
      Step(me, if Mine().pc.PushPut? then P.PutPush(version) else P.PutMerge(version));
      if * {
        return Err(Network);
      }
      return Ok(version);
    }
  }

  // What a pair recorded by earlier syncs says of the file and of the remote. The protocol
  // keeps it true.
  predicate PairTells(last: Pointers, file: Bytes, current: Option<Snapshot>) {
    && (last.remoteEtag.Some? <==> last.localSha.Some?)
    && (last.remoteEtag.Some? && VersionOf(current) == last.remoteEtag ==>
          EditsOf(current) <= file.database.edits)
    && (last.localSha == Some(Hash(file)) ==> file.database.edits <= EditsOf(current))
  }

  lemma PairTellsInProtocol(s: P.System, d: P.DeviceId)
    requires P.Inv(s) && d in s.devices
    ensures PairTells(s.devices[d].live, s.devices[d].file, s.remote)
    ensures PairTells(s.devices[d].saved, s.devices[d].file, s.remote)
  {
    assert P.DeviceOk(s.devices[d], s.history);
  }

  // A run that never reached a save left the file alone; one that did has backed up the
  // bytes it started from, exactly once.
  ghost predicate Recoverable(vault: Vault, file: Bytes, backup: Option<Bytes>, saves: nat, backups: nat)
    reads vault
  {
    && (vault.saves == saves ==> vault.file == file)
    && (vault.saves != saves ==> vault.backup == Some(file) && vault.backups == backups + 1)
    && (vault.backups == backups ==> vault.backup == backup)
    && backups <= vault.backups <= backups + 1
  }

  type RunResult = Result<(Outcome, Pointers), SyncError>

  function Max(a: nat, b: nat): nat {
    if a < b then b else a
  }

  // Which outcomes each state of the truth table can come to.
  predicate Belongs(outcome: Outcome, branch: Branch, last: Pointers) {
    match outcome
    case AlreadyInSync => branch.InSync? || branch.FastReplace?
    case Pushed(first) => branch.Push? && first == last.remoteEtag.None?
    case FastReplaced => branch.FastReplace?
    case Merged(_, _) => branch.Merge?
  }

  /* ------------------------------ The run, in the world ------------------------------ */

  // The device `was` once the run stands at `pc`, with this file, open database and backup.
  function Standing(was: P.Device, file: Bytes, memory: Database, backup: Option<Bytes>, pc: P.Pc): P.Device {
    was.(file := file, memory := memory, backup := backup, pc := pc)
  }

  // The same, but an error may have left the open database behind or ahead.
  predicate Stopped(was: P.Device, file: Bytes, backup: Option<Bytes>, dev: P.Device) {
    dev == Standing(was, file, dev.memory, backup, dev.pc)
  }

  // An error has ended the run: the next one starts from the file.
  function Ended(was: P.Device, file: Bytes, backup: Option<Bytes>): P.Device {
    Standing(was, file, file.database, backup, P.Idle)
  }

  // Before a run: nothing under way, and the open database is that of the file.
  predicate Ready(was: P.Device, vault: Vault, last: Pointers)
    reads vault
  {
    && was.pc.Idle? && was.file == vault.file && was.memory == vault.database && was.backup == vault.backup
    && was.key == vault.key && vault.database == vault.file.database && was.live == last
  }

  // The pair is about the past: later saves and later writes get other names.
  predicate PairIsPast(last: Pointers, nextNonce: nat, counter: nat) {
    HashIsPast(last, nextNonce) && (last.remoteEtag.Some? ==> last.remoteEtag.value < counter)
  }

  predicate HashIsPast(last: Pointers, nextNonce: nat) {
    last.localSha.Some? ==> last.localSha.value.of.nonce < nextNonce
  }

  // The pair names a version the object has or had, with just the file's database.
  predicate NamesFile(pair: Pointers, file: Bytes, world: P.System) {
    && pair.remoteEtag.Some? && pair.localSha == Some(Hash(file))
    && pair.remoteEtag.value in world.history
    && world.history[pair.remoteEtag.value].database == file.database
  }

  /** The four-state run. `seen` is the version the HEAD gave, and `branch` the state the truth table
      picked, if it got that far. What it does, interleaved with the steps of the others, is a run of
      the protocol, at the end of which this device stands at its outcome or is idle again. */
  method RunStateMachine(vault: Vault, transport: Transport, last: Pointers, maxRetries: nat, merge: MergeFunction)
    returns (r: RunResult, ghost branch: Option<Branch>, ghost seen: Option<Version>)
    requires vault.Valid() && transport.Valid() && !transport.blind
    requires Ready(transport.Mine(), vault, last) && HashIsPast(last, vault.nextNonce)
    requires KeepsBoth(merge)
    modifies vault, transport
    ensures vault.Valid() && transport.Valid() && old(transport.trace) <= transport.trace
    // Where it leaves the device.
    ensures r.Ok? ==>
              transport.Mine() ==
                Standing(old(transport.Mine()), vault.file, vault.database, vault.backup, P.Persist(r.value.1))
    ensures r.Err? ==>
              transport.Mine() == Ended(old(transport.Mine()), vault.file, vault.backup)
    ensures r.Ok? ==> vault.database == vault.file.database && HashIsPast(r.value.1, vault.nextNonce)
    // Which state the truth table picked.
    ensures branch.Some? ==> branch.value == Decide(seen, Hash(old(vault.file)), last)
    ensures branch.Some? ==>
              seen == VersionOf(old(transport.world).remote) || (seen.Some? && old(transport.counter) <= seen.value)
    // Bounded work.
    ensures transport.puts <= old(transport.puts) + Max(1, maxRetries)
    ensures r.Ok? && r.value.0.Merged? ==>
              && 1 <= r.value.0.attempts <= Max(1, maxRetries)
              && transport.puts == old(transport.puts) + r.value.0.attempts
              && transport.refused == old(transport.refused) + r.value.0.attempts - 1
    ensures r.Err? && r.error.ConditionalPutExhausted? ==>
              && r.error.attempts == Max(1, maxRetries)
              && transport.puts == old(transport.puts) + r.error.attempts
              && transport.refused == old(transport.refused) + r.error.attempts
    // Which outcome each branch can come to.
    ensures r.Ok? ==> branch.Some? && Belongs(r.value.0, branch.value, last)
    // Pointers.
    ensures r.Ok? ==> if r.value.0.AlreadyInSync? then r.value.1 == last
                      else NamesFile(r.value.1, vault.file, transport.world)
    ensures r.Ok? && (r.value.0.Pushed? || r.value.0.Merged?) ==>
              transport.world.remote == Some(Snapshot(r.value.1.remoteEtag.value, vault.file))
    ensures r.Ok? && r.value.0.FastReplaced? ==>
              VersionOf(transport.world.remote) == r.value.1.remoteEtag
              && transport.world.remote.value.bytes.database == vault.file.database
    // Recoverability.
    ensures Recoverable(vault, old(vault.file), old(vault.backup), old(vault.saves), old(vault.backups))
    ensures branch.None? || branch.value.InSync? || branch.value.Push? ==>
              vault.saves == old(vault.saves) && vault.backups == old(vault.backups)
    ensures r.Ok? && r.value.0.AlreadyInSync? ==>
              vault.file == old(vault.file) && vault.saves == old(vault.saves) && vault.backups == old(vault.backups)
    ensures r.Err? && r.error.MasterPasswordMismatch? ==>
              branch.Some? && (branch.value.Merge? || branch.value.FastReplace?)
              && (branch.value.Merge? <==> vault.backups == old(vault.backups) + 1)
    // Nothing is lost, and what was fetched is kept.
    ensures old(vault.file.database.edits) <= vault.file.database.edits
    ensures r.Ok? && (r.value.0.FastReplaced? || r.value.0.Merged?) ==>
              && AllKept(old(transport.handed), transport.handed, vault.file.database.edits)
              && EditsOf(old(transport.world).remote) <= vault.file.database.edits
    ensures r.Err? && r.error.ConditionalPutExhausted? ==>
              AllKept(old(transport.handed), transport.handed, vault.file.database.edits)
    ensures branch != Some(Push) || last.remoteEtag.Some? ==>
              !transport.blind && EditsOf(old(transport.world).remote) <= EditsOf(transport.world.remote)
    // The turns of a merge are what it was handed, and Merged reports the gain of the last.
    ensures r.Ok? && r.value.0.Merged? ==>
              && Taken(merge, old(vault.database), old(transport.handed), transport.handed, vault.file.database,
                       r.value.0.attempts)
              && r.value.0.delta == LastDelta(merge, old(vault.database), transport.handed[|old(transport.handed)|..])
    ensures r.Err? && r.error.ConditionalPutExhausted? ==>
              Taken(merge, old(vault.database), old(transport.handed), transport.handed, vault.file.database,
                    r.error.attempts)
    // After exhaustion the next run merges again.
    ensures r.Err? && r.error.ConditionalPutExhausted? ==>
              Decide(VersionOf(transport.world.remote), Hash(vault.file), last) == Merge
  {
    branch, seen := None, None;
    ghost var was := transport.Mine();
    var looked := Look(vault, transport, last);
    if looked.Err? {
      return Err(looked.error), branch, seen;
    }
    var (remoteNow, localBytes) := looked.value;
    var localSha := Hash(localBytes);
    var remoteChanged := remoteNow != last.remoteEtag;
    var localChanged := Some(localSha) != last.localSha;
    seen, branch := remoteNow, Some(Decide(remoteNow, localSha, last));

    if !remoteChanged && !localChanged {
      return Ok((AlreadyInSync, last)), branch, seen;
    } else if !remoteChanged {
      r := PushRun(vault, transport, localBytes, last, was);
    } else if !localChanged {
      r := FastReplaceRun(vault, transport, last, was);
    } else {
      r := MergeRun(vault, transport, maxRetries, merge, last, was);
    }
  }

  // The HEAD and the file's hash, and where the truth table then sends the run.
  method Look(vault: Vault, transport: Transport, last: Pointers)
    returns (r: Result<(Option<Version>, Bytes), SyncError>)
    requires transport.Valid() && !transport.blind && Ready(transport.Mine(), vault, last)
    modifies transport`world, transport`counter, transport`trace, transport`blind
    ensures transport.Valid() && !transport.blind && old(transport.trace) <= transport.trace
    ensures old(transport.counter) <= transport.counter
    ensures Onward(old(transport.world).remote, old(transport.counter), transport.world.remote)
    ensures EditsOf(old(transport.world).remote) <= EditsOf(transport.world.remote)
    ensures last.remoteEtag.Some? ==> last.remoteEtag.value < old(transport.counter)
    ensures r.Ok? ==>
              && r.value == (VersionOf(transport.world.remote), vault.file)
              && transport.Mine() == Standing(old(transport.Mine()), vault.file, vault.database, vault.backup,
                   match Decide(r.value.0, Hash(vault.file), last)
                   case InSync => P.Persist(last)
                   case Push => P.PushPut
                   case FastReplace => P.FastGet
                   case Merge => P.MergeBackup)
    ensures r.Err? ==> r.error in {Network, VaultIo}
    ensures r.Err? ==> transport.Mine() == Ended(old(transport.Mine()), vault.file, vault.backup)
  {
    transport.MineOk();
    var head := transport.Head();
    if head.Err? {
      transport.GiveUp();
      return Err(head.error);
    }
    var read := vault.Read();
    if read.Err? {
      transport.GiveUp();
      return Err(read.error);
    }
    transport.Compare();
    return Ok((head.value, read.value));
  }

  // File changed, remote not: put the file there.
  method PushRun(vault: Vault, transport: Transport, localBytes: Bytes, last: Pointers, ghost was: P.Device)
    returns (r: RunResult)
    requires transport.Valid() && !transport.blind && localBytes == vault.file && was.live == last
    requires transport.Mine() == Standing(was, vault.file, vault.database, vault.backup, P.PushPut)
    modifies transport
    ensures transport.Valid() && old(transport.trace) <= transport.trace && transport.puts == old(transport.puts) + 1
    ensures transport.handed == old(transport.handed)
    ensures r.Ok? ==>
              && r.value.0 == Pushed(last.remoteEtag.None?)
              && transport.Mine() == Standing(was, vault.file, vault.database, vault.backup, P.Persist(r.value.1))
              && NamesFile(r.value.1, vault.file, transport.world)
              && transport.world.remote == Some(Snapshot(r.value.1.remoteEtag.value, vault.file))
    ensures r.Err? ==> r.error in {Network, PreconditionFailed}
    ensures r.Err? ==> transport.Mine() == Ended(was, vault.file, vault.backup)
    ensures last.remoteEtag.Some? ==>
              !transport.blind && EditsOf(old(transport.world).remote) <= EditsOf(transport.world.remote)
  {
    var put := transport.PutConditional(localBytes, last.remoteEtag);
    if put.Err? {
      transport.GiveUp();
      return Err(put.error);
    }
    return Ok((Pushed(last.remoteEtag.None?), Pointers(Some(put.value), Some(Hash(localBytes)))));
  }

  // Saves, and records the step if the file is the new one.
  method SaveInWorld(vault: Vault, transport: Transport, ghost was: P.Device) returns (r: Result<(), SyncError>)
    requires vault.Valid() && transport.Valid() && !transport.blind && vault.key == was.key
    requires var pc := transport.Mine().pc;
             && (pc.FastSave? || pc.MergeSave?)
             && transport.Mine() == Standing(was, vault.file, vault.database, vault.backup, pc)
    modifies vault`file, vault`nextNonce, vault`saves
    modifies transport`world, transport`counter, transport`trace, transport`blind
    ensures vault.Valid() && vault.saves == old(vault.saves) + 1 && old(vault.nextNonce) <= vault.nextNonce
    ensures vault.file == old(vault.file)
            || (vault.file.database == vault.database && old(vault.nextNonce) <= vault.file.nonce)
    ensures r.Ok? ==> vault.file != old(vault.file)
    ensures r.Err? ==> r.error == SaveFailed
    ensures transport.Valid() && !transport.blind && old(transport.trace) <= transport.trace
    ensures transport.counter == old(transport.counter)
    ensures Unmoved(old(transport.world), transport.world)
    ensures vault.file == old(vault.file) ==> transport.Mine() == old(transport.Mine())
    ensures vault.file != old(vault.file) ==>
              var next := match old(transport.Mine()).pc
                case FastSave(snap) => P.Persist(Pointers(Some(snap.version), Some(Hash(vault.file))))
                case MergeSave(base) => P.MergePut(base)
                case pc => pc;
              transport.Mine() == Standing(was, vault.file, vault.database, vault.backup, next)
  {
    var before := vault.file;
    r := vault.Save();
    if vault.file != before {
      var nonce := vault.file.nonce;
      transport.Step(transport.me, if transport.Mine().pc.FastSave? then P.SaveFast(nonce) else P.SaveMerge(nonce));
    }
  }

  // Backs up, and records the step if the backup is the file.
  method BackUpInWorld(vault: Vault, transport: Transport, ghost was: P.Device) returns (r: Result<(), SyncError>)
    requires transport.Valid() && !transport.blind
    requires transport.Mine().pc.FastBackup? ==> P.Opens(transport.Mine(), transport.Mine().pc.snap.bytes)
    requires var pc := transport.Mine().pc;
             && (pc.FastBackup? || pc.MergeBackup?)
             && transport.Mine() == Standing(was, vault.file, vault.database, vault.backup, pc)
    modifies vault`backup, vault`backups
    modifies transport`world, transport`counter, transport`trace, transport`blind
    ensures transport.Valid() && !transport.blind && old(transport.trace) <= transport.trace
    ensures r.Ok? ==> vault.backup == Some(vault.file) && vault.backups == old(vault.backups) + 1
    ensures (vault.backup == old(vault.backup) && vault.backups == old(vault.backups))
            || (vault.backup == Some(vault.file) && vault.backups == old(vault.backups) + 1)
    ensures r.Err? ==> r.error == BackupFailed && Stopped(was, vault.file, vault.backup, transport.Mine())
    ensures transport.counter == old(transport.counter)
    ensures Unmoved(old(transport.world), transport.world)
    ensures r.Ok? ==> transport.Mine() == Standing(was, vault.file, vault.database, vault.backup,
              match old(transport.Mine()).pc
              case FastBackup(snap) => P.FastSwap(snap)
              case _ => P.MergeGet)
  {
    r := vault.SnapshotPreMerge();
    if vault.backup == Some(vault.file) {
      transport.Step(transport.me, if transport.Mine().pc.FastBackup? then P.BackUpFast else P.BackUpMerge);
    }
  }

  // Remote changed, file unchanged: replace the local database by the remote one.
  method FastReplaceRun(vault: Vault, transport: Transport, last: Pointers, ghost was: P.Device) returns (r: RunResult)
    requires vault.Valid() && vault.database == vault.file.database && vault.key == was.key && was.live == last
    requires transport.Valid() && !transport.blind
    requires transport.Mine() == Standing(was, vault.file, vault.database, vault.backup, P.FastGet)
    modifies vault, transport
    ensures vault.Valid() && transport.Valid() && !transport.blind && old(transport.trace) <= transport.trace
    ensures r.Ok? ==> transport.Mine() == Standing(was, vault.file, vault.database, vault.backup, P.Persist(r.value.1))
    ensures r.Err? ==> transport.Mine() == Ended(was, vault.file, vault.backup)
    ensures transport.puts == old(transport.puts)
    ensures EditsOf(old(transport.world).remote) <= EditsOf(transport.world.remote)
    ensures old(vault.file.database.edits) <= vault.file.database.edits
    ensures Recoverable(vault, old(vault.file), old(vault.backup), old(vault.saves), old(vault.backups))
    ensures r.Ok? ==> r.value.0.AlreadyInSync? || r.value.0.FastReplaced?
    ensures r.Ok? ==> vault.database == vault.file.database && vault.nextNonce >= old(vault.nextNonce)
    ensures r.Ok? && r.value.0.AlreadyInSync? ==> r.value.1 == last
    ensures r.Ok? && r.value.0.AlreadyInSync? ==>
              vault.file == old(vault.file) && vault.saves == old(vault.saves) && vault.backups == old(vault.backups)
    ensures r.Ok? && r.value.0.FastReplaced? ==>
              && transport.world.remote.Some?
              && r.value.1 == Pointers(VersionOf(transport.world.remote), Some(Hash(vault.file)))
              && NamesFile(r.value.1, vault.file, transport.world)
              && transport.world.remote.value.bytes.database == vault.file.database
              && AllKept(old(transport.handed), transport.handed, vault.file.database.edits)
    ensures r.Err? ==> !r.error.ConditionalPutExhausted?
    ensures r.Err? && r.error.MasterPasswordMismatch? ==> vault.backups == old(vault.backups)
  {
    var fetched := transport.FetchIfChanged(last.remoteEtag);
    if fetched.Err? {
      transport.GiveUp();
      return Err(fetched.error);
    }
    if fetched.value.None? {
      return Ok((AlreadyInSync, last));
    }
    var snapshot := fetched.value.value;
    var replaced := ReplaceBy(vault, transport, snapshot, was);
    if replaced.Err? {
      transport.GiveUp();
      return Err(replaced.error);
    }
    var read := vault.Read();
    if read.Err? {
      transport.GiveUp();
      return Err(read.error);
    }
    return Ok((FastReplaced, Pointers(Some(snapshot.version), Some(Hash(read.value)))));
  }

  // The file becomes the database of `snapshot`, after a backup.
  method ReplaceBy(vault: Vault, transport: Transport, snapshot: Snapshot, ghost was: P.Device)
    returns (r: Result<(), SyncError>)
    requires vault.Valid() && vault.database == vault.file.database && vault.key == was.key
    requires transport.Valid() && !transport.blind
    requires transport.Mine() == Standing(was, vault.file, vault.database, vault.backup, P.FastBackup(snapshot))
    modifies vault, transport`world, transport`counter, transport`trace, transport`blind
    ensures vault.Valid() && transport.Valid() && !transport.blind && old(transport.trace) <= transport.trace
    ensures Unmoved(old(transport.world), transport.world) && transport.counter == old(transport.counter)
    ensures old(vault.file.database.edits) <= vault.file.database.edits
    ensures Recoverable(vault, old(vault.file), old(vault.backup), old(vault.saves), old(vault.backups))
    ensures r.Ok? ==> vault.file.database == vault.database == snapshot.bytes.database
    ensures vault.nextNonce >= old(vault.nextNonce)
    ensures r.Ok? ==>
              var pair := Pointers(Some(snapshot.version), Some(Hash(vault.file)));
              transport.Mine() == Standing(was, vault.file, vault.database, vault.backup, P.Persist(pair))
    ensures r.Err? ==> !r.error.ConditionalPutExhausted? && Stopped(was, vault.file, vault.backup, transport.Mine())
    ensures r.Err? && r.error.MasterPasswordMismatch? ==> vault.backups == old(vault.backups)
  {
    transport.MineOk();
    var decrypted := OpenFromBytes(snapshot.bytes, vault.key);
    if decrypted.Err? {
      return Err(decrypted.error);
    }
    var remoteDb := decrypted.value;
    if vault.database.kdf != remoteDb.kdf {
      return Err(MasterPasswordMismatch);
    }
    r := BackUpInWorld(vault, transport, was);
    if r.Err? {
      return;
    }
    r := SwapIn(vault, transport, snapshot, remoteDb, was);
    if r.Err? {
      return;
    }
    r := SaveInWorld(vault, transport, was);
  }

  // The open database swapped for the remote one.
  method SwapIn(vault: Vault, transport: Transport, snapshot: Snapshot, remoteDb: Database, ghost was: P.Device)
    returns (r: Result<(), SyncError>)
    requires transport.Valid() && !transport.blind && remoteDb == snapshot.bytes.database
    requires transport.Mine() == Standing(was, vault.file, vault.database, vault.backup, P.FastSwap(snapshot))
    modifies vault`database, transport`world, transport`counter, transport`trace, transport`blind
    ensures transport.Valid() && !transport.blind && old(transport.trace) <= transport.trace
    ensures Unmoved(old(transport.world), transport.world) && transport.counter == old(transport.counter)
    ensures r.Ok? ==> vault.database == remoteDb
    ensures r.Ok? ==>
              transport.Mine() == Standing(was, vault.file, vault.database, vault.backup, P.FastSave(snapshot))
    ensures r.Err? ==> r.error == DatabaseIdentityMismatch && Stopped(was, vault.file, vault.backup, transport.Mine())
  {
    r := vault.ReplaceDatabase(remoteDb);
    if r.Ok? {
      transport.Step(transport.me, P.Swap);
    }
  }

  // One round of the merge loop up to its PUT: fetch the remote, merge it in, save.
  method FetchMergeSave(vault: Vault, transport: Transport, merge: MergeFunction, ghost was: P.Device)
    returns (r: Result<(Version, Bytes, set<Edit>), SyncError>, ghost fetched: Database)
    requires vault.Valid() && vault.database == vault.file.database && vault.key == was.key
    requires transport.Valid() && !transport.blind
    requires transport.Mine() == Standing(was, vault.file, vault.database, vault.backup, P.MergeGet)
    requires KeepsBoth(merge)
    modifies vault`file, vault`database, vault`nextNonce, vault`saves
    modifies transport`world, transport`counter, transport`trace, transport`blind, transport`handed
    ensures vault.Valid() && transport.Valid() && !transport.blind && old(transport.trace) <= transport.trace
    ensures r.Ok? ==> transport.Mine() == Standing(was, vault.file, vault.database, vault.backup, P.MergePut(r.value.0))
    ensures r.Err? ==> Stopped(was, vault.file, vault.backup, transport.Mine())
    ensures vault.nextNonce >= old(vault.nextNonce) && transport.counter >= old(transport.counter)
    ensures Onward(old(transport.world).remote, old(transport.counter), transport.world.remote)
    ensures EditsOf(old(transport.world).remote) <= EditsOf(transport.world.remote)
    ensures old(vault.file.database.edits) <= vault.file.database.edits
    ensures vault.saves >= old(vault.saves)
    ensures vault.saves == old(vault.saves) ==> vault.file == old(vault.file)
    ensures r.Ok? ==>
              && transport.world.remote.Some?
              && r.value.0 == transport.world.remote.value.version
              && r.value.1 == vault.file
              && merge(old(vault.database), fetched) == Folded(vault.file.database)
              && r.value.2 == vault.file.database.edits - old(vault.file.database.edits)
              && vault.saves == old(vault.saves) + 1
              && vault.database == vault.file.database
              && vault.file.nonce >= old(vault.nextNonce)
              && EditsOf(transport.world.remote) <= vault.file.database.edits
              && transport.handed == old(transport.handed) + [fetched]
    ensures r.Err? ==> !r.error.ConditionalPutExhausted? && !r.error.PreconditionFailed?
  {
    fetched := vault.database;
    var snap := transport.FetchIfChanged(None);
    if snap.Err? {
      return Err(snap.error), fetched;
    }
    if snap.value.None? {
      return Err(NotFound), fetched;
    }
    var snapshot := snap.value.value;
    fetched := snapshot.bytes.database;
    var merged := MergeIn(vault, transport, snapshot, merge, was);
    if merged.Err? {
      return Err(merged.error), fetched;
    }
    var read := vault.Read();
    if read.Err? {
      return Err(read.error), fetched;
    }
    return Ok((snapshot.version, read.value, merged.value)), fetched;
  }

  // The snapshot merged into the open database, and that saved.
  method MergeIn(vault: Vault, transport: Transport, snapshot: Snapshot, merge: MergeFunction, ghost was: P.Device)
    returns (r: Result<set<Edit>, SyncError>)
    requires vault.Valid() && vault.database == vault.file.database && vault.key == was.key
    requires transport.Valid() && !transport.blind
    requires transport.Mine() == Standing(was, vault.file, vault.database, vault.backup, P.Merging(snapshot))
    requires KeepsBoth(merge)
    modifies vault`file, vault`database, vault`nextNonce, vault`saves
    modifies transport`world, transport`counter, transport`trace, transport`blind
    ensures vault.Valid() && transport.Valid() && !transport.blind && old(transport.trace) <= transport.trace
    ensures Unmoved(old(transport.world), transport.world) && transport.counter == old(transport.counter)
    ensures old(vault.file.database.edits) <= vault.file.database.edits && vault.nextNonce >= old(vault.nextNonce)
    ensures vault.saves >= old(vault.saves)
    ensures vault.saves == old(vault.saves) ==> vault.file == old(vault.file)
    ensures r.Ok? ==>
              && (var next := P.MergePut(snapshot.version);
                  transport.Mine() == Standing(was, vault.file, vault.database, vault.backup, next))
              && merge(old(vault.database), snapshot.bytes.database) == Folded(vault.file.database)
              && r.value == vault.file.database.edits - old(vault.file.database.edits)
              && vault.saves == old(vault.saves) + 1
              && vault.database == vault.file.database
              && vault.file.nonce >= old(vault.nextNonce)
              && snapshot.bytes.database.edits <= vault.file.database.edits
    ensures r.Err? ==> Stopped(was, vault.file, vault.backup, transport.Mine())
    ensures r.Err? ==> !r.error.ConditionalPutExhausted? && !r.error.PreconditionFailed?
  {
    var decrypted := OpenFromBytes(snapshot.bytes, vault.key);
    if decrypted.Err? {
      return Err(decrypted.error);
    }
    var remoteDb := decrypted.value;
    if vault.database.kdf != remoteDb.kdf {
      return Err(MasterPasswordMismatch);
    }
    var merged := merge(vault.database, remoteDb);
    if merged.Clash? {
      vault.database := merged.partial;
      return Err(Unresolvable);
    }
    var delta := merged.database.edits - vault.database.edits;
    vault.database := merged.database;
    transport.Step(transport.me, P.Reconcile(merged.database));
    var saved := SaveInWorld(vault, transport, was);
    if saved.Err? {
      return Err(saved.error);
    }
    return Ok(delta);
  }

  // How a turn of the loop ends that does not fail: its PUT goes through, or is refused.
  datatype Turn = Published(delta: set<Edit>, pair: Pointers) | Refused

  // One turn of the loop. `again` says whether there will be another if its PUT is refused.
  method MergeTurn(vault: Vault, transport: Transport, merge: MergeFunction, again: bool, ghost was: P.Device)
    returns (r: Result<Turn, SyncError>, ghost fetched: Database)
    requires vault.Valid() && vault.database == vault.file.database && vault.key == was.key
    requires transport.Valid() && !transport.blind
    requires transport.Mine() == Standing(was, vault.file, vault.database, vault.backup, P.MergeGet)
    requires KeepsBoth(merge)
    modifies vault`file, vault`database, vault`nextNonce, vault`saves
    modifies transport
    ensures vault.Valid() && transport.Valid() && !transport.blind && old(transport.trace) <= transport.trace
    ensures transport.counter >= old(transport.counter) && vault.nextNonce >= old(vault.nextNonce)
    ensures EditsOf(old(transport.world).remote) <= EditsOf(transport.world.remote)
    ensures old(vault.file.database.edits) <= vault.file.database.edits
    ensures vault.saves >= old(vault.saves)
    ensures vault.saves == old(vault.saves) ==> vault.file == old(vault.file)
    ensures transport.puts <= old(transport.puts) + 1
    ensures r.Ok? ==>
              && merge(old(vault.database), fetched) == Folded(vault.file.database)
              && vault.saves == old(vault.saves) + 1
              && vault.database == vault.file.database && vault.file.nonce >= old(vault.nextNonce)
              && EditsOf(old(transport.world).remote) <= vault.file.database.edits
              && transport.handed == old(transport.handed) + [fetched]
              && transport.puts == old(transport.puts) + 1
              && transport.refused == old(transport.refused) + if r.value.Refused? then 1 else 0
    ensures r.Ok? && r.value.Refused? ==>
              && Onward(old(transport.world).remote, old(transport.counter), transport.world.remote)
              && var next := if again then P.MergeGet else P.Idle;
                 transport.Mine() == Standing(was, vault.file, vault.database, vault.backup, next)
    ensures r.Ok? && r.value.Published? ==>
              && transport.Mine() == Standing(was, vault.file, vault.database, vault.backup, P.Persist(r.value.pair))
              && NamesFile(r.value.pair, vault.file, transport.world)
              && transport.world.remote == Some(Snapshot(r.value.pair.remoteEtag.value, vault.file))
              && r.value.delta == vault.file.database.edits - old(vault.file.database.edits)
    ensures r.Err? ==> !r.error.ConditionalPutExhausted? && Stopped(was, vault.file, vault.backup, transport.Mine())
  {
    var once;
    once, fetched := FetchMergeSave(vault, transport, merge, was);
    if once.Err? {
      return Err(once.error), fetched;
    }
    var (base, mergedBytes, delta) := once.value;
    r := PutTurn(vault, transport, base, mergedBytes, delta, again, was);
  }

  // The PUT that ends a turn.
  method PutTurn(
      vault: Vault, transport: Transport, base: Version, mergedBytes: Bytes, delta: set<Edit>, again: bool,
      ghost was: P.Device)
    returns (r: Result<Turn, SyncError>)
    requires transport.Valid() && !transport.blind && mergedBytes == vault.file
    requires transport.Mine() == Standing(was, vault.file, vault.database, vault.backup, P.MergePut(base))
    modifies transport`world, transport`counter, transport`trace, transport`blind, transport`puts, transport`refused
    ensures transport.Valid() && !transport.blind && old(transport.trace) <= transport.trace
    ensures transport.counter >= old(transport.counter)
    ensures EditsOf(old(transport.world).remote) <= EditsOf(transport.world.remote)
    ensures transport.puts == old(transport.puts) + 1
    ensures r.Ok? ==> transport.refused == old(transport.refused) + if r.value.Refused? then 1 else 0
    ensures r.Ok? && r.value.Refused? ==>
              && Onward(old(transport.world).remote, old(transport.counter), transport.world.remote)
              && var next := if again then P.MergeGet else P.Idle;
                 transport.Mine() == Standing(was, vault.file, vault.database, vault.backup, next)
    ensures r.Ok? && r.value.Published? ==>
              && transport.Mine() == Standing(was, vault.file, vault.database, vault.backup, P.Persist(r.value.pair))
              && NamesFile(r.value.pair, vault.file, transport.world)
              && transport.world.remote == Some(Snapshot(r.value.pair.remoteEtag.value, vault.file))
              && r.value.delta == delta
    ensures r.Err? ==> !r.error.ConditionalPutExhausted? && !r.error.MasterPasswordMismatch?
    ensures r.Err? ==> Stopped(was, vault.file, vault.backup, transport.Mine())
  {
    var put := transport.PutConditional(mergedBytes, Some(base));
    if put.Ok? {
      return Ok(Published(delta, Pointers(Some(put.value), Some(Hash(mergedBytes)))));
    }
    if !IsPreconditionFailure(put.error) {
      return Err(put.error);
    }
    transport.Step(transport.me, P.PutRefused(again));
    return Ok(Refused);
  }

  // Both changed: back up once, then fetch, merge, save and PUT until the PUT goes through.
  method MergeRun(
      vault: Vault, transport: Transport, maxRetries: nat, merge: MergeFunction, last: Pointers, ghost was: P.Device)
    returns (r: RunResult)
    requires vault.Valid() && vault.database == vault.file.database && vault.key == was.key
    requires transport.Valid() && !transport.blind
    requires transport.Mine() == Standing(was, vault.file, vault.database, vault.backup, P.MergeBackup)
    requires PairIsPast(last, vault.nextNonce, transport.counter)
    requires VersionOf(transport.world.remote) != last.remoteEtag
    requires KeepsBoth(merge)
    modifies vault, transport
    ensures vault.Valid() && transport.Valid() && !transport.blind && old(transport.trace) <= transport.trace
    ensures r.Ok? ==>
              transport.Mine() == Standing(was, vault.file, vault.database, vault.backup, P.Persist(r.value.1))
    ensures r.Err? ==> transport.Mine() == Ended(was, vault.file, vault.backup)
    ensures transport.puts <= old(transport.puts) + Max(1, maxRetries)
    ensures EditsOf(old(transport.world).remote) <= EditsOf(transport.world.remote)
    ensures old(vault.file.database.edits) <= vault.file.database.edits
    ensures Recoverable(vault, old(vault.file), old(vault.backup), old(vault.saves), old(vault.backups))
    ensures r.Ok? ==>
              && r.value.0.Merged? && vault.database == vault.file.database
              && 1 <= r.value.0.attempts <= Max(1, maxRetries)
              && transport.puts == old(transport.puts) + r.value.0.attempts
              && transport.refused == old(transport.refused) + r.value.0.attempts - 1
              && NamesFile(r.value.1, vault.file, transport.world)
              && transport.world.remote == Some(Snapshot(r.value.1.remoteEtag.value, vault.file))
              && EditsOf(old(transport.world).remote) <= vault.file.database.edits
    ensures r.Err? && r.error.ConditionalPutExhausted? ==>
              && r.error.attempts == Max(1, maxRetries)
              && transport.puts == old(transport.puts) + r.error.attempts
              && transport.refused == old(transport.refused) + r.error.attempts
              && Decide(VersionOf(transport.world.remote), Hash(vault.file), last) == Merge
    ensures r.Ok? || r.error.ConditionalPutExhausted? ==>
              && AllKept(old(transport.handed), transport.handed, vault.file.database.edits)
              && Taken(merge, old(vault.database), old(transport.handed), transport.handed, vault.file.database,
                       if r.Ok? then r.value.0.attempts else r.error.attempts)
    ensures r.Ok? ==>
              r.value.0.delta == LastDelta(merge, old(vault.database), transport.handed[|old(transport.handed)|..])
    ensures r.Err? && r.error.MasterPasswordMismatch? ==> vault.backups == old(vault.backups) + 1
  {
    var backed := BackUpInWorld(vault, transport, was);
    if backed.Err? {
      transport.GiveUp();
      return Err(backed.error);
    }
    r := MergeLoop(vault, transport, Max(1, maxRetries), merge, last, was);
    if r.Ok? || r.error.ConditionalPutExhausted? {
      TakenIsKept(merge, old(vault.database), old(transport.handed), transport.handed, vault.file.database,
                  if r.Ok? then r.value.0.attempts else r.error.attempts);
    }
  }

  // The loop itself: `max` turns at most.
  method MergeLoop(
      vault: Vault, transport: Transport, max: nat, merge: MergeFunction, last: Pointers, ghost was: P.Device)
    returns (r: RunResult)
    requires 0 < max && vault.Valid() && vault.database == vault.file.database && vault.key == was.key
    requires transport.Valid() && !transport.blind
    requires transport.Mine() == Standing(was, vault.file, vault.database, vault.backup, P.MergeGet)
    requires PairIsPast(last, vault.nextNonce, transport.counter)
    requires VersionOf(transport.world.remote) != last.remoteEtag
    requires KeepsBoth(merge)
    modifies vault`file, vault`database, vault`nextNonce, vault`saves, transport
    ensures vault.Valid() && transport.Valid() && !transport.blind && old(transport.trace) <= transport.trace
    ensures r.Ok? ==>
              transport.Mine() == Standing(was, vault.file, vault.database, vault.backup, P.Persist(r.value.1))
    ensures r.Err? ==> transport.Mine() == Ended(was, vault.file, vault.backup)
    ensures transport.puts <= old(transport.puts) + max
    ensures EditsOf(old(transport.world).remote) <= EditsOf(transport.world.remote)
    ensures old(vault.file.database.edits) <= vault.file.database.edits
    ensures vault.saves == old(vault.saves) ==> vault.file == old(vault.file)
    ensures r.Ok? ==>
              && r.value.0.Merged? && 1 <= r.value.0.attempts <= max
              && transport.puts == old(transport.puts) + r.value.0.attempts
              && transport.refused == old(transport.refused) + r.value.0.attempts - 1
              && NamesFile(r.value.1, vault.file, transport.world)
              && transport.world.remote == Some(Snapshot(r.value.1.remoteEtag.value, vault.file))
    ensures r.Err? && r.error.ConditionalPutExhausted? ==>
              && r.error.attempts == max
              && transport.puts == old(transport.puts) + max && transport.refused == old(transport.refused) + max
              && Decide(VersionOf(transport.world.remote), Hash(vault.file), last) == Merge
    ensures r.Ok? || r.error.ConditionalPutExhausted? ==>
              && vault.database == vault.file.database && vault.saves > old(vault.saves)
              && EditsOf(old(transport.world).remote) <= vault.file.database.edits
              && Taken(merge, old(vault.database), old(transport.handed), transport.handed, vault.file.database,
                       if r.Ok? then r.value.0.attempts else r.error.attempts)
    ensures r.Ok? ==>
              r.value.0.delta == LastDelta(merge, old(vault.database), transport.handed[|old(transport.handed)|..])
  {
    var attempts := 0;
    while true
      invariant 0 <= attempts < max
      invariant Taken(merge, old(vault.database), old(transport.handed), transport.handed, vault.database, attempts)
      invariant vault.Valid() && vault.database == vault.file.database && vault.nextNonce >= old(vault.nextNonce)
      invariant transport.Valid() && !transport.blind && old(transport.trace) <= transport.trace
      invariant transport.Mine() == Standing(was, vault.file, vault.database, vault.backup, P.MergeGet)
      invariant transport.counter >= old(transport.counter)
      invariant transport.puts == old(transport.puts) + attempts
      invariant transport.refused == old(transport.refused) + attempts
      invariant EditsOf(old(transport.world).remote) <= EditsOf(transport.world.remote)
      invariant VersionOf(transport.world.remote) != last.remoteEtag
      invariant if attempts == 0 then vault.file == old(vault.file) && vault.saves == old(vault.saves)
                else vault.saves > old(vault.saves)
      invariant old(vault.file.database.edits) <= vault.file.database.edits
      decreases max - attempts
    {
      attempts := attempts + 1;
      ghost var turn;
      ghost var now, handed := vault.database, transport.handed;
      var once;
      once, turn := MergeTurn(vault, transport, merge, attempts < max, was);
      if once.Err? {
        transport.GiveUp();
        return Err(once.error);
      }
      TakenMore(merge, old(vault.database), old(transport.handed), handed, now, attempts - 1, turn, vault.database);
      if once.value.Published? {
        return Ok((Merged(once.value.delta, attempts), once.value.pair));
      }
      if attempts >= max {
        return Err(ConditionalPutExhausted(max));
      }
    }
  }
}
