/** The registry of vaults: `vaults.toml`, loaded into memory, edited there, and written back
    only over the very contents it was loaded from; or edited field by field under the lock. */
module Registry {
  import opened Wrappers
  import opened LockedFile
  import T = SyncTypes

  datatype IfMatchSupport = Unknown | Supported | Degraded

  datatype S3Config = S3Config(
    bucket: string, key: string, endpoint: Option<string>, region: string,
    pathStyle: bool, credentials: nat, ifMatch: IfMatchSupport)

  // The `[sync]` block. `extra` stands for the keys this build does not know.
  datatype SyncConfig = SyncConfig(s3: Option<S3Config>, pointers: T.Pointers, extra: nat)

  // A TOML value; any other value under `sync` fails to parse as a block.
  datatype Value = SyncBlock(config: SyncConfig) | Other(id: nat)
  type Table = map<string, Value>

  datatype RegisteredVault = RegisteredVault(
    name: string, path: string, createdAt: string, keyfile: Option<string>, extra: Table)

  datatype Doc = Doc(version: nat, vaults: seq<RegisteredVault>, extra: Table)

  // The text of a file: what it parses to, if anything, and how it happens to be laid out.
  datatype Text = Text(doc: Option<Doc>, layout: nat)
  type Contents = Option<Text>

  const SCHEMA_VERSION := 1

  datatype Error =
    | Contended
    | RegistryChanged
    | RegistryMalformed
    | NotRegistered
    | AlreadyRegistered
    | DuplicateTarget(existing: string)
    | BadEndpoint
    | Io

  function FromLock(f: Failure): Error {
    if f.Busy? then Contended else Io
  }

  function Serialize(vaults: seq<RegisteredVault>, extra: Table): Text {
    Text(Some(Doc(SCHEMA_VERSION, vaults, extra)), 0)
  }

  // A missing file is an empty registry.
  function Parse(c: Contents): Result<Doc, Error> {
    if c.None? then Ok(Doc(SCHEMA_VERSION, [], map[]))
    else if c.value.doc.None? || c.value.doc.value.version != SCHEMA_VERSION then Err(RegistryMalformed)
    else Ok(c.value.doc.value)
  }

  // The position of the first vault of that name.
  function Position(vaults: seq<RegisteredVault>, name: string): (r: Option<nat>)
    ensures r.Some? ==> r.value < |vaults| && vaults[r.value].name == name
    ensures r.Some? ==> forall i :: 0 <= i < r.value ==> vaults[i].name != name
    ensures r.None? ==> forall i :: 0 <= i < |vaults| ==> vaults[i].name != name
    decreases |vaults|
  {
    if vaults == [] then None
    else if vaults[0].name == name then Some(0)
    else
      var rest := Position(vaults[1..], name);
      if rest.Some? then Some(rest.value + 1) else None
  }

  function WithExtra(vaults: seq<RegisteredVault>, i: nat, extra: Table): seq<RegisteredVault>
    requires i < |vaults|
  {
    vaults[i := vaults[i].(extra := extra)]
  }

  /* ---------------------------- The two ways of writing ---------------------------- */

  // `save`: only over the contents it was loaded from.
  function SaveEdit(baseline: Contents, vaults: seq<RegisteredVault>, extra: Table): Edit<Contents> {
    (c: Contents) => if c == baseline then Some(Some(Serialize(vaults, extra))) else None
  }

  // `update_registered_extra`: the named vault's extra table of whatever is there now.
  function ExtraEdit(name: string, update: Table -> Table): Edit<Contents> {
    (c: Contents) =>
      var doc := Parse(c);
      if doc.Err? then None
      else
        var i := Position(doc.value.vaults, name);
        if i.None? then None
        else Some(Some(Serialize(
          WithExtra(doc.value.vaults, i.value, update(doc.value.vaults[i.value].extra)), doc.value.extra)))
  }

  /** A field-level update changes the named vault's extra table and nothing else: the other
      vaults, their order and every unknown key stay. */
  lemma ExtraEditIsLocal(name: string, update: Table -> Table, c: Contents)
    requires ExtraEdit(name, update)(c).Some?
    ensures var before, after := Parse(c), Parse(ExtraEdit(name, update)(c).value);
            && before.Ok? && after.Ok?
            && after.value.extra == before.value.extra
            && |after.value.vaults| == |before.value.vaults|
            && exists i ::
                 && 0 <= i < |before.value.vaults| && before.value.vaults[i].name == name
                 && after.value.vaults[i] == before.value.vaults[i].(extra := update(before.value.vaults[i].extra))
                 && forall k :: 0 <= k < |before.value.vaults| && k != i ==>
                      after.value.vaults[k] == before.value.vaults[k]
  {
    var i := Position(Parse(c).value.vaults, name).value;
    assert Parse(c).value.vaults[i].name == name;
    ExtraEditAt(name, update, c, i);
  }

  lemma ExtraEditAt(name: string, update: Table -> Table, c: Contents, i: nat)
    requires Parse(c).Ok? && Position(Parse(c).value.vaults, name) == Some(i)
    ensures ExtraEdit(name, update)(c) == Some(Some(Serialize(
              WithExtra(Parse(c).value.vaults, i, update(Parse(c).value.vaults[i].extra)), Parse(c).value.extra)))
  {
  }

  /** Field-level updates of two different vaults by two processes commute, so both survive
      whichever comes first. */
  lemma ExtraEditsOfDifferentVaultsCommute(a: string, f: Table -> Table, b: string, g: Table -> Table, c: Contents)
    requires a != b && ExtraEdit(a, f)(c).Some? && ExtraEdit(b, g)(c).Some?
    ensures ExtraEdit(b, g)(ExtraEdit(a, f)(c).value).Some?
    ensures ExtraEdit(a, f)(ExtraEdit(b, g)(c).value).Some?
    ensures ExtraEdit(b, g)(ExtraEdit(a, f)(c).value) == ExtraEdit(a, f)(ExtraEdit(b, g)(c).value)
  {
    var vaults := Parse(c).value.vaults;
    var i, j := Position(vaults, a).value, Position(vaults, b).value;
    var fa, gb := f(vaults[i].extra), g(vaults[j].extra);
    PositionIgnoresExtra(vaults, i, fa, b);
    PositionIgnoresExtra(vaults, j, gb, a);
    var first, second := WithExtra(vaults, i, fa), WithExtra(vaults, j, gb);
    assert vaults[i].name == a && vaults[j].name == b;
    assert ExtraEdit(a, f)(c).value == Some(Serialize(first, Parse(c).value.extra));
    assert ExtraEdit(b, g)(c).value == Some(Serialize(second, Parse(c).value.extra));
    assert first[j].extra == vaults[j].extra && second[i].extra == vaults[i].extra;
    ExtraEditAt(b, g, Some(Serialize(first, Parse(c).value.extra)), j);
    ExtraEditAt(a, f, Some(Serialize(second, Parse(c).value.extra)), i);
    assert WithExtra(first, j, gb) == WithExtra(second, i, fa);
  }

  lemma {:induction false} PositionIgnoresExtra(vaults: seq<RegisteredVault>, i: nat, extra: Table, name: string)
    requires i < |vaults|
    ensures Position(WithExtra(vaults, i, extra), name) == Position(vaults, name)
    decreases |vaults|
  {
    var changed := WithExtra(vaults, i, extra);
    if i == 0 {
      assert changed[1..] == vaults[1..];
    } else {
      assert changed[1..] == WithExtra(vaults[1..], i - 1, extra);
      PositionIgnoresExtra(vaults[1..], i - 1, extra, name);
    }
  }

  /* ---------------------------- The registry in memory ---------------------------- */

  class VaultRegistry {
    const file: SharedFile<Contents>
    const me: Pid
    var vaults: seq<RegisteredVault>
    var extraTopLevel: Table
    var baseline: Contents
    // The paths at which a vault file exists.
    var files: set<string>

    // Nothing of this process is under way in the file.
    ghost predicate Valid()
      reads this, file
    {
      file.Valid() && PcOf(file.st, me).Idle?
    }

    // An empty registry.
    constructor WithPaths(file: SharedFile<Contents>, me: Pid, files: set<string>)
      requires file.Valid() && PcOf(file.st, me).Idle?
      ensures Valid() && this.file == file && this.me == me
      ensures vaults == [] && extraTopLevel == map[] && baseline == None && this.files == files
    {
      this.file, this.me, this.files := file, me, files;
      vaults, extraTopLevel, baseline := [], map[], None;
    }

    // What `Get` finds by name.
    method Get(name: string) returns (r: Option<RegisteredVault>)
      ensures r.Some? <==> Position(vaults, name).Some?
      ensures r.Some? ==> r.value == vaults[Position(vaults, name).value]
    {
      for i := 0 to |vaults|
        invariant forall k :: 0 <= k < i ==> vaults[k].name != name
      {
        if vaults[i].name == name {
          return Some(vaults[i]);
        }
      }
      return None;
    }

    // Replaces this registry by the one on disk.
    method Load() returns (r: Result<(), Error>)
      requires Valid()
      modifies this`vaults, this`extraTopLevel, this`baseline, file
      ensures Valid() && old(file.st.log) <= file.st.log
      ensures r.Ok? ==>
                && baseline == file.st.file && file.good(baseline)
                && Parse(baseline) == Ok(Doc(SCHEMA_VERSION, vaults, extraTopLevel))
      ensures r.Err? ==> vaults == old(vaults) && extraTopLevel == old(extraTopLevel) && baseline == old(baseline)
    {
      if * {
        return Err(Io);
      }
      var contents := file.ReadUnlocked(me);
      var doc := Parse(contents);
      if doc.Err? {
        return Err(doc.error);
      }
      vaults, extraTopLevel, baseline := doc.value.vaults, doc.value.extra, contents;
      return Ok(());
    }

    method Register(vault: RegisteredVault) returns (r: Result<(), Error>)
      modifies this`vaults
      ensures r.Ok? <==> Position(old(vaults), vault.name).None?
      ensures r.Err? ==> r.error == AlreadyRegistered
      ensures vaults == if r.Ok? then old(vaults) + [vault] else old(vaults)
    {
      var found := Get(vault.name);
      if found.Some? {
        return Err(AlreadyRegistered);
      }
      vaults := vaults + [vault];
      return Ok(());
    }

    // Forgets a vault, and deletes its file first if asked to. A file that is missing counts as
    // deleted; one that cannot be deleted stops the removal.
    method Deregister(name: string, deleteFile: bool) returns (r: Result<RegisteredVault, Error>)
      modifies this`vaults, this`files
      ensures r == Err(NotRegistered) <==> Position(old(vaults), name).None?
      ensures !deleteFile ==> (r.Ok? <==> Position(old(vaults), name).Some?) && files == old(files)
      ensures r.Ok? ==>
                var i := Position(old(vaults), name).value;
                && r.value == old(vaults)[i] && vaults == old(vaults)[..i] + old(vaults)[i + 1..]
                && (deleteFile ==> files == old(files) - {r.value.path})
      ensures r.Err? ==> r.error in {NotRegistered, Io} && vaults == old(vaults) && files == old(files)
    {
      var i := Position(vaults, name);
      if i.None? {
        return Err(NotRegistered);
      }
      if deleteFile {
        if * {
          return Err(Io);
        }
        files := files - {vaults[i.value].path};
      }
      r := Ok(vaults[i.value]);
      vaults := vaults[..i.value] + vaults[i.value + 1..];
    }

    /** Writes the registry back. Ok: the contents replaced were exactly those of the baseline,
        and the file is this registry. RegistryChanged: they were not, and nothing is written. */
    method Save() returns (r: Result<(), Error>, ghost found: Contents)
      requires Valid()
      requires Keeps(SaveEdit(baseline, vaults, extraTopLevel), file.good)
      modifies this`baseline, file
      ensures Valid() && old(file.st.log) <= file.st.log
      ensures r.Ok? ==>
                && found == old(baseline)
                && file.st.file == Some(Serialize(vaults, extraTopLevel)) && baseline == file.st.file
                && file.Replaced(found)
      ensures r == Err(RegistryChanged) ==> found != old(baseline) && file.st.file == found
      ensures r.Err? ==> r.error in {Contended, RegistryChanged, Io}
      ensures r.Ok? ==> WroteLast(me, old(file.st), file.st)
      ensures r.Err? ==>
                || WroteNothing(me, old(file.st), file.st)
                || (r.error == Io && WroteLast(me, old(file.st), file.st)
                    && file.st.file == Some(Serialize(vaults, extraTopLevel)))
      ensures r.Err? ==> baseline == old(baseline)
    {
      ghost var edit := SaveEdit(baseline, vaults, extraTopLevel);
      found := file.st.file;
      var read := file.LockAndRead(me, SaveEdit(baseline, vaults, extraTopLevel));
      if read.Err? {
        return Err(FromLock(read.error)), found;
      }
      var current := read.value;
      found := current;
      if current != baseline {
        file.Unlock(me);
        return Err(RegistryChanged), found;
      }
      var body := Serialize(vaults, extraTopLevel);
      var written := file.WriteAndUnlock(me, edit, current);
      if !written {
        return Err(Io), found;
      }
      baseline := Some(body);
      return Ok(()), found;
    }

    // The write of an edit's result, and then the memory takes it over.
    method WriteBack(ghost edit: Edit<Contents>, ghost seen: Contents, updated: seq<RegisteredVault>, extra: Table)
      returns (ok: bool)
      requires file.Valid() && PcOf(file.st, me) == Seen(edit, seen) && file.st.file == seen
      requires edit(seen) == Some(Some(Serialize(updated, extra)))
      modifies this`vaults, this`extraTopLevel, this`baseline, file
      ensures Valid() && old(file.st.log) <= file.st.log
      ensures ok ==> WroteLast(me, old(file.st), file.st)
      ensures ok ==> vaults == updated && extraTopLevel == extra && baseline == Some(Serialize(updated, extra))
      ensures !ok ==> vaults == old(vaults) && extraTopLevel == old(extraTopLevel) && baseline == old(baseline)
      ensures WroteLast(me, old(file.st), file.st) || WroteNothing(me, old(file.st), file.st)
      ensures WroteLast(me, old(file.st), file.st) ==>
                file.st.file == Some(Serialize(updated, extra)) && file.Replaced(seen)
    {
      ok := file.WriteAndUnlock(me, edit, seen);
      if ok {
        vaults, extraTopLevel, baseline := updated, extra, Some(Serialize(updated, extra));
      }
    }

    /** Updates one vault's extra table in the latest contents, under the lock. Ok: the file is
        what it was with that one change, and this registry is the file. */
    method UpdateRegisteredExtra(name: string, update: Table -> Table) returns (r: Result<(), Error>, ghost found: Contents)
      requires Valid()
      requires Keeps(ExtraEdit(name, update), file.good)
      modifies this`vaults, this`extraTopLevel, this`baseline, file
      ensures Valid() && old(file.st.log) <= file.st.log
      ensures r.Ok? ==>
                && ExtraEdit(name, update)(found).Some?
                && file.st.file == ExtraEdit(name, update)(found).value && baseline == file.st.file
                && Parse(baseline) == Ok(Doc(SCHEMA_VERSION, vaults, extraTopLevel))
                && file.Replaced(found)
      ensures r == Err(NotRegistered) ==>
                Parse(found).Ok? && Position(Parse(found).value.vaults, name).None? && file.st.file == found
      ensures r.Ok? ==> WroteLast(me, old(file.st), file.st)
      ensures r.Err? ==>
                || WroteNothing(me, old(file.st), file.st)
                || (WroteLast(me, old(file.st), file.st) && Some(file.st.file) == ExtraEdit(name, update)(found))
      ensures r.Err? ==> vaults == old(vaults) && extraTopLevel == old(extraTopLevel) && baseline == old(baseline)
    {
      ghost var edit := ExtraEdit(name, update);
      found := file.st.file;
      var read := file.LockAndRead(me, ExtraEdit(name, update));
      if read.Err? {
        return Err(FromLock(read.error)), found;
      }
      var contents := read.value;
      found := contents;
      var doc := Parse(contents);
      if doc.Err? {
        file.Unlock(me);
        return Err(doc.error), found;
      }
      var latest := doc.value;
      var i := Position(latest.vaults, name);
      if i.None? {
        file.Unlock(me);
        return Err(NotRegistered), found;
      }
      var updated := WithExtra(latest.vaults, i.value, update(latest.vaults[i.value].extra));
      ExtraEditAt(name, update, contents, i.value);
      ghost var seen := file.st;
      var written := WriteBack(edit, contents, updated, latest.extra);
      NothingBefore(me, old(file.st), seen, file.st);
      return if written then Ok(()) else Err(Io), found;
    }
  }
}
