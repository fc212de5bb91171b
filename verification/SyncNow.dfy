/** A sync as its callers see it: the run, and then the pair it came to written into the
    registry and the registry saved. */
module SyncNow {
  import opened Wrappers
  import opened LockedFile
  import opened Registry
  import opened SyncTargets
  import T = SyncTypes
  import S = SyncRun
  import P = SyncProtocol

  datatype NowError = NotConfigured | FromRun(run: S.SyncError) | FromRegistry(registry: Registry.Error)

  function PairOf(vaults: seq<RegisteredVault>, name: string): Option<T.Pointers> {
    var i := Position(vaults, name);
    if i.Some? && FromVaultEntry(vaults[i.value]).Some?
    then Some(FromVaultEntry(vaults[i.value]).value.pointers) else None
  }

  // The block a run leaves: its pair, and whatever the backend was found to support.
  function AfterRun(cfg: SyncConfig, support: IfMatchSupport): SyncConfig {
    if cfg.s3.Some? then cfg.(s3 := Some(cfg.s3.value.(ifMatch := support))) else cfg
  }

  // The vaults once the block of `name` has been rewritten.
  ghost predicate Rewritten(before: seq<RegisteredVault>, after: seq<RegisteredVault>, name: string, cfg: SyncConfig) {
    && Position(before, name).Some?
    && var i := Position(before, name).value;
       after == PutBack(before, i, ToVaultEntry(cfg, before[i]))
  }

  lemma RewrittenPair(before: seq<RegisteredVault>, after: seq<RegisteredVault>, name: string, cfg: SyncConfig)
    requires Clean(before) && Rewritten(before, after, name, cfg)
    requires TargetOfConfig(cfg) == TargetOf(before[Position(before, name).value])
    ensures Clean(after) && PairOf(after, name) == Some(cfg.pointers)
  {
    var i := Position(before, name).value;
    var v := ToVaultEntry(cfg, before[i]);
    PutBackKeepsClean(before, i, v);
    assert after[|after| - 1] == v;
    var p := Position(after, name).value;
    if p < |after| - 1 {
      assert Clash(after[p], after[|after| - 1]);
    }
  }

  /** Rewriting a block moves the vault to the end. It leaves the list as it was exactly when the
      vault was last already and has the block it had. */
  lemma RewrittenStaysExactly(
      before: seq<RegisteredVault>, after: seq<RegisteredVault>, name: string, cfg: SyncConfig)
    requires Clean(before) && Rewritten(before, after, name, cfg)
    ensures var i := Position(before, name).value;
            after == before <==> i == |before| - 1 && FromVaultEntry(before[i]) == Some(cfg)
  {
    var i := Position(before, name).value;
    var v := ToVaultEntry(cfg, before[i]);
    var n := |before| - 1;
    assert after[n] == v;
    if i < n {
      assert !Clash(before[i], before[n]);
    } else {
      assert after == before[..n] + [v] && before == before[..n] + [before[n]];
      if FromVaultEntry(before[i]) == Some(cfg) {
        assert v.extra == before[i].extra;
      }
    }
  }

  /** Two vaults, of which the first fails to sync: its unchanged block is written back, and the
      list comes out in the other order. */
  lemma FailedSyncReorders()
    ensures var cfg := SyncConfig(None, T.UNSYNCED, 0);
            var a := RegisteredVault("a", "", "", None, map[SYNC_KEY := SyncBlock(cfg)]);
            var b := RegisteredVault("b", "", "", None, map[]);
            Clean([a, b]) && Rewritten([a, b], [b, a], "a", cfg) && AfterRun(cfg, Unknown) == cfg
  {
    var cfg := SyncConfig(None, T.UNSYNCED, 0);
    var a := RegisteredVault("a", "", "", None, map[SYNC_KEY := SyncBlock(cfg)]);
    assert ToVaultEntry(cfg, a).extra == a.extra;
  }

  // What a failed sync leaves of the registry in memory and of the saved file.
  ghost predicate LeftBehind(
      before: seq<RegisteredVault>, registry: VaultRegistry, st: State<Contents>, name: string)
    reads registry, registry.file
  {
    && PairOf(registry.vaults, name) == PairOf(before, name)
    && (WroteNothing(registry.me, st, registry.file.st)
        || (WroteLast(registry.me, st, registry.file.st)
            && registry.file.st.file == Some(Serialize(registry.vaults, registry.extraTopLevel))))
  }

  // The block is rewritten with what the probe found; the list is what it was exactly when the
  // vault stood last and the probe found what was known.
  ghost predicate FailedRewrite(
      before: seq<RegisteredVault>, after: seq<RegisteredVault>, name: string, support: IfMatchSupport)
  {
    && Position(before, name).Some?
    && var i := Position(before, name).value;
    && FromVaultEntry(before[i]).Some?
    && var cfg := FromVaultEntry(before[i]).value;
    && Rewritten(before, after, name, AfterRun(cfg, support))
    && (after == before <==> i == |before| - 1 && cfg == AfterRun(cfg, support))
  }

  // Rewrites the vault's block and saves the registry.
  method Record(registry: VaultRegistry, name: string, cfg: SyncConfig) returns (saved: Result<(), Registry.Error>)
    requires registry.Valid() && Clean(registry.vaults) && Position(registry.vaults, name).Some?
    requires TargetOfConfig(cfg) == TargetOf(registry.vaults[Position(registry.vaults, name).value])
    requires forall c :: registry.file.good(c) <==> CleanContents(c)
    modifies registry`vaults, registry`baseline, registry`files, registry.file
    ensures registry.Valid() && Clean(registry.vaults) && registry.files == old(registry.files)
    ensures Rewritten(old(registry.vaults), registry.vaults, name, cfg)
    ensures PairOf(registry.vaults, name) == Some(cfg.pointers)
    ensures saved.Ok? ==>
              && WroteLast(registry.me, old(registry.file.st), registry.file.st)
              && registry.file.st.file == Some(Serialize(registry.vaults, registry.extraTopLevel))
    ensures WroteNothing(registry.me, old(registry.file.st), registry.file.st)
            || (WroteLast(registry.me, old(registry.file.st), registry.file.st)
                && registry.file.st.file == Some(Serialize(registry.vaults, registry.extraTopLevel)))
  {
    ghost var before := registry.vaults;
    var updated := UpdateRegistrySyncBlock(registry, name, cfg);
    RewrittenPair(before, registry.vaults, name, cfg);
    SavingCleanKeepsClean(registry.baseline, registry.vaults, registry.extraTopLevel, registry.file.good);
    ghost var found;
    saved, found := registry.Save();
  }

  // The run, and what others do before its pair is recorded.
  method RunThenOthers(
      vault: S.Vault, transport: S.Transport, last: T.Pointers, maxRetries: nat, merge: S.MergeFunction)
    returns (r: S.RunResult)
    requires vault.Valid() && transport.Valid() && !transport.blind
    requires S.Ready(transport.Mine(), vault, last) && S.HashIsPast(last, vault.nextNonce)
    requires S.KeepsBoth(merge)
    modifies vault, transport
    ensures vault.Valid() && transport.Valid() && old(transport.trace) <= transport.trace
    ensures transport.Mine().live == last && transport.Mine().pc == if r.Ok? then P.Persist(r.value.1) else P.Idle
    ensures r.Ok? ==> if r.value.0.AlreadyInSync? then r.value.1 == last
                      else S.NamesFile(r.value.1, vault.file, transport.world)
    ensures r.Ok? ==>
              && vault.key == transport.Mine().key && vault.backup == transport.Mine().backup
              && vault.database == vault.file.database == transport.Mine().memory
              && S.HashIsPast(r.value.1, vault.nextNonce)
    ensures transport.Mine().file == vault.file && old(vault.file.database.edits) <= vault.file.database.edits
  {
    ghost var branch, seen;
    r, branch, seen := S.RunStateMachine(vault, transport, last, maxRetries, merge);
    transport.Others();
  }

  // The device has the pair in memory, and on disk if the registry was saved.
  method KeepPair(transport: S.Transport, pair: T.Pointers, onDisk: bool)
    requires transport.Valid() && transport.Mine().pc in {P.Idle, P.Persist(pair)}
    requires transport.Mine().pc.Idle? ==> transport.Mine().live == pair
    modifies transport`world, transport`counter, transport`trace, transport`blind
    ensures transport.Valid() && old(transport.trace) <= transport.trace
    ensures S.Unmoved(old(transport.world), transport.world)
    ensures transport.Mine() == old(transport.Mine()).(
              pc := P.Idle, live := pair, saved := if onDisk then pair else old(transport.Mine().saved))
  {
    if transport.Mine().pc.Persist? {
      transport.Step(transport.me, P.KeepPointers);
    }
    if onDisk {
      transport.Step(transport.me, P.SavePointers);
    }
  }

  // The vault's block rewritten and the registry saved, and both told to the device.
  method Conclude(transport: S.Transport, registry: VaultRegistry, name: string, cfg: SyncConfig)
    returns (saved: Result<(), Registry.Error>)
    requires registry.Valid() && Clean(registry.vaults) && Position(registry.vaults, name).Some?
    requires TargetOfConfig(cfg) == TargetOf(registry.vaults[Position(registry.vaults, name).value])
    requires forall c :: registry.file.good(c) <==> CleanContents(c)
    requires transport.Valid() && transport.Mine().pc in {P.Idle, P.Persist(cfg.pointers)}
    requires transport.Mine().pc.Idle? ==> transport.Mine().live == cfg.pointers
    modifies registry`vaults, registry`baseline, registry`files, registry.file
    modifies transport`world, transport`counter, transport`trace, transport`blind
    ensures registry.Valid() && Clean(registry.vaults) && registry.files == old(registry.files)
    ensures Rewritten(old(registry.vaults), registry.vaults, name, cfg)
    ensures PairOf(registry.vaults, name) == Some(cfg.pointers)
    ensures saved.Ok? ==>
              && WroteLast(registry.me, old(registry.file.st), registry.file.st)
              && registry.file.st.file == Some(Serialize(registry.vaults, registry.extraTopLevel))
    ensures WroteNothing(registry.me, old(registry.file.st), registry.file.st)
            || (WroteLast(registry.me, old(registry.file.st), registry.file.st)
                && registry.file.st.file == Some(Serialize(registry.vaults, registry.extraTopLevel)))
    ensures transport.Valid() && old(transport.trace) <= transport.trace
    ensures S.Unmoved(old(transport.world), transport.world)
    ensures var was := old(transport.Mine());
            transport.Mine() == was.(pc := P.Idle, live := cfg.pointers, saved := transport.Mine().saved)
    ensures saved.Ok? ==> transport.Mine().saved == cfg.pointers
  {
    saved := Record(registry, name, cfg);
    var onDisk := registry.file.st.file == Some(Serialize(registry.vaults, registry.extraTopLevel));
    KeepPair(transport, cfg.pointers, onDisk);
  }

  /** Runs one sync of a registered vault. Ok: the pair in the saved file is the pair the run
      came to; others may have written to the object since, and the device is up to date exactly if
      none has. An error of the run: the pair is what it was, in memory and in whatever this
      process saved; but the vault's block has been rewritten, with what the probe found. */
  method SyncNowWithTransport(
      vault: S.Vault, transport: S.Transport, registry: VaultRegistry, name: string,
      maxRetries: nat, merge: S.MergeFunction)
    returns (r: Result<S.Outcome, NowError>, ghost support: IfMatchSupport)
    requires registry.Valid() && Clean(registry.vaults)
    requires forall c :: registry.file.good(c) <==> CleanContents(c)
    requires vault.Valid() && transport.Valid() && !transport.blind
    requires PairOf(registry.vaults, name).Some? ==>
               var last := PairOf(registry.vaults, name).value;
               S.Ready(transport.Mine(), vault, last) && S.HashIsPast(last, vault.nextNonce)
    requires S.KeepsBoth(merge)
    modifies vault, transport, registry`vaults, registry`baseline, registry`files, registry.file
    ensures transport.Valid() && old(transport.trace) <= transport.trace
    ensures PairOf(old(registry.vaults), name).Some? ==> transport.Mine().pc.Idle?
    ensures registry.Valid() && Clean(registry.vaults) && registry.files == old(registry.files)
    ensures r.Ok? ==>
              && WroteLast(registry.me, old(registry.file.st), registry.file.st)
              && registry.file.st.file == Some(Serialize(registry.vaults, registry.extraTopLevel))
              && PairOf(registry.vaults, name).Some?
              && var pair := PairOf(registry.vaults, name).value;
                 && S.Ready(transport.Mine(), vault, pair) && S.HashIsPast(pair, vault.nextNonce)
                 && transport.Mine().saved == pair
                 && if r.value.AlreadyInSync? then Some(pair) == PairOf(old(registry.vaults), name)
                    else S.NamesFile(pair, vault.file, transport.world)
                         && (P.UpToDate(transport.world, transport.me)
                             <==> T.VersionOf(transport.world.remote) == pair.remoteEtag)
    ensures r.Err? && r.error.FromRun? ==>
              && LeftBehind(old(registry.vaults), registry, old(registry.file.st), name)
              && FailedRewrite(old(registry.vaults), registry.vaults, name, support)
              && transport.Mine().live == old(transport.Mine().live)
    ensures r == Err(NotConfigured) ==>
              registry.vaults == old(registry.vaults) && registry.file.st == old(registry.file.st)
    ensures old(vault.file.database.edits) <= vault.file.database.edits
  {
    support := Unknown;
    var entry := registry.Get(name);
    if entry.None? {
      return Err(FromRegistry(NotRegistered)), support;
    }
    var block := FromVaultEntry(entry.value);
    if block.None? {
      return Err(NotConfigured), support;
    }
    var cfg := block.value;
    ghost var before := registry.vaults;
    var run := RunThenOthers(vault, transport, cfg.pointers, maxRetries, merge);
    var found: IfMatchSupport := *;
    support := found;
    cfg := AfterRun(cfg, found);
    if run.Ok? {
      cfg := cfg.(pointers := run.value.1);
    }
    var saved := Conclude(transport, registry, name, cfg);
    RewrittenStaysExactly(before, registry.vaults, name, cfg);
    if run.Err? {
      return Err(FromRun(run.error)), support;
    }
    if saved.Err? {
      return Err(FromRegistry(saved.error)), support;
    }
    return Ok(run.value.0), support;
  }
}
