/** The user's preferences, `config.toml`: read leniently, and changed one setting at a time by
    reloading the latest file under its lock. */
module UserConfig {
  import opened Wrappers
  import opened LockedFile

  const TREE_RATIO_MIN := 20
  const TREE_RATIO_MAX := 60

  datatype Field =
    | DefaultSort | SyncOnUnlock | SyncOnLockQuit | ConfirmQuit
    | Mouse | Keymap
    | Dark | Light | Mode
    | Scope | EnterAction
    | TreeRatio

  datatype Value = Choice(n: nat) | Flag(on: bool) | Name(name: string)

  datatype Config = Config(
    defaultSort: nat, syncOnUnlock: bool, syncOnLockQuit: bool, confirmQuit: bool,
    mouse: bool, keymap: nat,
    dark: string, light: string, mode: nat,
    scope: string, enterAction: nat,
    treeRatio: nat)

  const DEFAULT :=
    Config(0, false, false, false, true, 0, "default-dark", "default-light", 0, "all", 0, 35)

  function Get(c: Config, f: Field): Value {
    match f
    case DefaultSort => Choice(c.defaultSort)
    case SyncOnUnlock => Flag(c.syncOnUnlock)
    case SyncOnLockQuit => Flag(c.syncOnLockQuit)
    case ConfirmQuit => Flag(c.confirmQuit)
    case Mouse => Flag(c.mouse)
    case Keymap => Choice(c.keymap)
    case Dark => Name(c.dark)
    case Light => Name(c.light)
    case Mode => Choice(c.mode)
    case Scope => Name(c.scope)
    case EnterAction => Choice(c.enterAction)
    case TreeRatio => Choice(c.treeRatio)
  }

  // The text of a file: what it parses to, if anything, and its comments and layout.
  datatype Text = Text(config: Option<Config>, layout: nat)
  type Contents = Option<Text>

  const CATALOG := Text(Some(DEFAULT), 1)

  function Serialize(c: Config): Text {
    Text(Some(c), 0)
  }

  /* ------------------------------------ Clamping ------------------------------------ */

  predicate InRange(c: Config) {
    c.scope in {"all", "group", "tag"} && TREE_RATIO_MIN <= c.treeRatio <= TREE_RATIO_MAX
  }

  // The settings put right, and how many warnings that took.
  function Clamp(c: Config): (r: (Config, nat))
    ensures InRange(r.0)
    ensures r.1 == 0 <==> InRange(c)
    ensures r.1 == 0 ==> r.0 == c
    ensures forall f :: f !in {Scope, TreeRatio} ==> Get(r.0, f) == Get(c, f)
    ensures c.scope in {"all", "group", "tag"} ==> r.0.scope == c.scope
    ensures forall ratio :: TREE_RATIO_MIN <= ratio <= TREE_RATIO_MAX ==>
              Distance(r.0.treeRatio, c.treeRatio) <= Distance(ratio, c.treeRatio)
  {
    var badScope := c.scope !in {"all", "group", "tag"};
    var c1 := if badScope then c.(scope := "all") else c;
    var ratio :=
      if c1.treeRatio < TREE_RATIO_MIN then TREE_RATIO_MIN
      else if TREE_RATIO_MAX < c1.treeRatio then TREE_RATIO_MAX
      else c1.treeRatio;
    var badRatio := ratio != c1.treeRatio;
    (c1.(treeRatio := ratio), (if badScope then 1 else 0) + (if badRatio then 1 else 0))
  }

  function Distance(a: int, b: int): nat {
    if a < b then b - a else a - b
  }

  // What a write may build on: a file that parses and needs nothing put right.
  function ParseStrict(c: Contents): Option<Config> {
    if c.None? then Some(DEFAULT)
    else if c.value.config.None? || !InRange(c.value.config.value) then None
    else c.value.config
  }

  function ParseAndClamp(t: Text): (Config, nat) {
    if t.config.None? then (DEFAULT, 1) else Clamp(t.config.value)
  }

  /* ------------------------------------ Edits ------------------------------------ */

  type Update = Config -> Config

  function Updated(update: Update, c: Contents): Option<Contents> {
    var latest := ParseStrict(c);
    if latest.None? then None else Some(Some(Serialize(update(latest.value))))
  }

  // The first run's commented catalog; an existing file is never replaced by it.
  function Generated(c: Contents): Option<Contents> {
    if c.None? then Some(Some(CATALOG)) else None
  }

  datatype Change = Set(update: Update) | Generate

  function Changed(change: Change, c: Contents): Option<Contents> {
    match change
    case Set(update) => Updated(update, c)
    case Generate => Generated(c)
  }

  predicate Agree(a: Config, b: Config, fields: set<Field>) {
    forall f :: f in fields ==> Get(a, f) == Get(b, f)
  }

  // The update reads and writes no field outside `fields`.
  ghost predicate Within(update: Update, fields: set<Field>) {
    && (forall c, f :: f !in fields ==> Get(update(c), f) == Get(c, f))
    && (forall a, b :: Agree(a, b, fields) ==> Agree(update(a), update(b), fields))
  }

  ghost predicate Outside(update: Update, fields: set<Field>) {
    forall c, f :: f in fields ==> Get(update(c), f) == Get(c, f)
  }

  ghost predicate OneOrTheOther(changes: seq<Change>, mine: set<Field>) {
    forall k :: 0 <= k < |changes| ==> OneSide(changes[k], mine)
  }

  ghost predicate OneSide(change: Change, mine: set<Field>) {
    change.Set? ==> Within(change.update, mine) || Outside(change.update, mine)
  }

  // Only the changes to `mine`, as one session alone would have made them.
  ghost function Alone(c: Config, changes: seq<Change>, mine: set<Field>): Config
    decreases |changes|
  {
    if changes == [] then c
    else
      var before := Alone(c, changes[..|changes| - 1], mine);
      var last := changes[|changes| - 1];
      if last.Set? && Within(last.update, mine) then last.update(before) else before
  }

  // The changes the Settings tab makes.
  datatype Setter = SetDefaultSort(sort: nat) | SetSyncOnUnlock(on: bool) | SetSyncOnLockQuit(on: bool)

  function FieldOf(s: Setter): Field {
    match s
    case SetDefaultSort(_) => DefaultSort
    case SetSyncOnUnlock(_) => SyncOnUnlock
    case SetSyncOnLockQuit(_) => SyncOnLockQuit
  }

  function Setting(s: Setter): Update {
    match s
    case SetDefaultSort(sort) => (c: Config) => c.(defaultSort := sort)
    case SetSyncOnUnlock(on) => (c: Config) => c.(syncOnUnlock := on)
    case SetSyncOnLockQuit(on) => (c: Config) => c.(syncOnLockQuit := on)
  }

  function Given(s: Setter): Value {
    match s
    case SetDefaultSort(sort) => Choice(sort)
    case SetSyncOnUnlock(on) => Flag(on)
    case SetSyncOnLockQuit(on) => Flag(on)
  }

  lemma SetterAt(s: Setter, c: Config, f: Field)
    ensures Get(Setting(s)(c), f) == if f == FieldOf(s) then Given(s) else Get(c, f)
    ensures InRange(Setting(s)(c)) <==> InRange(c)
  {
    match s
    case SetDefaultSort(_) =>
    case SetSyncOnUnlock(_) =>
    case SetSyncOnLockQuit(_) =>
  }

  // So sessions using them are always on one side.
  lemma SettersAreOneSided(s: Setter, mine: set<Field>)
    ensures OneSide(Set(Setting(s)), mine)
  {
    var update := Setting(s);
    forall c, f
      ensures f != FieldOf(s) ==> Get(update(c), f) == Get(c, f)
      ensures f == FieldOf(s) ==> Get(update(c), f) == Given(s)
    {
      SetterAt(s, c, f);
    }
  }

  ghost predicate Is(edit: Edit<Contents>, change: Change) {
    forall c :: edit(c) == Changed(change, c)
  }

  ghost predicate AreAll(log: seq<Edit<Contents>>, changes: seq<Change>) {
    |log| == |changes| && forall k :: 0 <= k < |log| ==> Is(log[k], changes[k])
  }

  // What the strict reader would find, before asking whether it is in range.
  function View(c: Contents): Config {
    if c.None? || c.value.config.None? then DEFAULT else c.value.config.value
  }

  lemma {:induction false} AppliedAlone(
      file: Contents, log: seq<Edit<Contents>>, changes: seq<Change>, mine: set<Field>)
    requires AreAll(log, changes) && OneOrTheOther(changes, mine)
    requires Applied(file, log).Some?
    ensures Agree(View(Applied(file, log).value), Alone(View(file), changes, mine), mine)
    decreases |log|
  {
    if log != [] {
      var n := |log| - 1;
      assert forall k :: 0 <= k < n ==> log[..n][k] == log[k] && changes[..n][k] == changes[k];
      AppliedAlone(file, log[..n], changes[..n], mine);
      var before := Applied(file, log[..n]).value;
      assert Is(log[n], changes[n]) && OneSide(changes[n], mine);
      assert log[n](before) == Changed(changes[n], before);
    }
  }

  /** Sessions changing different settings never lose each other's changes: at every moment of
      every run, each group of fields is what the changes to those fields alone would make it. */
  lemma EverySettingSurvives(
      states: seq<State<Contents>>, moves: seq<Move<Contents>>, j: nat,
      changes: seq<Change>, mine: set<Field>)
    requires Run(states, moves) && j < |states|
    requires AreAll(states[j].log, changes) && OneOrTheOther(changes, mine)
    ensures Agree(View(states[j].file), Alone(View(states[0].file), changes, mine), mine)
  {
    NoLostUpdate(states, moves, j);
    AppliedAlone(states[0].file, states[j].log, changes, mine);
  }

  /** A file that is malformed or out of range is never replaced, by anyone, in any run. */
  lemma RefusedFileStays(states: seq<State<Contents>>, moves: seq<Move<Contents>>, j: nat, changes: seq<Change>)
    requires Run(states, moves) && j < |states|
    requires AreAll(states[j].log, changes) && ParseStrict(states[0].file).None?
    ensures states[j].file == states[0].file
  {
    NoLostUpdate(states, moves, j);
    if states[j].log != [] {
      assert Is(states[j].log[0], changes[0]);
      FirstRefused(states[0].file, states[j].log);
    }
  }

  lemma {:induction false} FirstRefused(file: Contents, log: seq<Edit<Contents>>)
    requires log != [] && log[0](file) == None
    ensures Applied(file, log) == None
    decreases |log|
  {
    assert log[..0] == [];
    if 1 < |log| {
      FirstRefused(file, log[..|log| - 1]);
    }
  }

  /* ------------------------------------ The two calls ------------------------------------ */

  datatype Error = NoDirectory | Locked | Refused | Io

  /** Ok: the file was one the strict reader accepts, and is now that with the update applied.
      Refused: the file is malformed or out of range, and untouched. */
  method UpdateAt(file: SharedFile<Contents>, me: Pid, update: Update)
    returns (r: Result<Config, Error>, ghost found: Contents)
    requires file.Valid() && PcOf(file.st, me).Idle?
    requires Keeps((c: Contents) => Updated(update, c), file.good)
    modifies file
    ensures file.Valid() && PcOf(file.st, me).Idle? && old(file.st.log) <= file.st.log
    ensures r.Ok? ==>
              && ParseStrict(found).Some? && r.value == update(ParseStrict(found).value)
              && file.st.file == Some(Serialize(r.value))
              && file.Replaced(found)
    ensures r == Err(Refused) ==> ParseStrict(found).None? && file.st.file == found
  {
    found := file.st.file;
    if * {
      return Err(NoDirectory), found;
    }
    var edit := (c: Contents) => Updated(update, c);
    var read := file.LockAndRead(me, edit);
    if read.Err? {
      return Err(if read.error.Busy? then Locked else Io), found;
    }
    var contents := read.value;
    found := contents;
    var latest := ParseStrict(contents);
    if latest.None? {
      file.Unlock(me);
      return Err(Refused), found;
    }
    var written := file.WriteAndUnlock(me, edit, contents);
    if !written {
      return Err(Io), found;
    }
    return Ok(update(latest.value)), found;
  }

  /** Never fails. A file already there is read and never written; a missing one is generated,
      and whoever generates it first, every reader gets the defaults. */
  method LoadOrGenerate(file: SharedFile<Contents>, me: Pid)
    returns (config: Config, warnings: nat, ghost found: Contents)
    requires file.Valid() && PcOf(file.st, me).Idle?
    requires Keeps((c: Contents) => Generated(c), file.good)
    modifies file
    ensures file.Valid() && PcOf(file.st, me).Idle? && old(file.st.log) <= file.st.log
    ensures InRange(config)
    ensures warnings == 0 ==> ParseStrict(found) == Some(config)
    ensures found.Some? ==> file.st.file == found
    ensures file.st.file == found || (found == None && file.st.file == Some(CATALOG))
    ensures warnings == 0 && found.None? ==> file.st.file == Some(CATALOG)
  {
    var edit := (c: Contents) => Generated(c);
    if * {
      found := file.st.file;
      return DEFAULT, 1, found;
    }
    var contents := file.ReadUnlocked(me);
    found := contents;
    if contents.Some? {
      var parsed := ParseAndClamp(contents.value);
      return parsed.0, parsed.1, found;
    }
    var acquired := file.TryAcquire(me, edit);
    if !acquired {
      found := file.st.file;
      return DEFAULT, 1, found;
    }
    contents := file.ReadLocked(me, edit);
    found := contents;
    if contents.Some? {
      file.Unlock(me);
      var parsed := ParseAndClamp(contents.value);
      return parsed.0, parsed.1, found;
    }
    if * {
      file.Unlock(me);
      return DEFAULT, 1, found;
    }
    var written := file.WriteLocked(me, edit, contents);
    file.Unlock(me);
    return DEFAULT, if written then 0 else 1, found;
  }
}
