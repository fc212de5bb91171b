/** Sync targets in the registry: the canonical form two targets are compared by, the duplicate
    check, and `configure_remote`, which keeps `vaults.toml` free of duplicates. */
module SyncTargets {
  import opened Wrappers
  import opened LockedFile
  import opened Registry
  import T = SyncTypes

  /* ---------------------------- Canonical targets ---------------------------- */

  function LowerChar(c: char): char {
    if 'A' <= c <= 'Z' then (c as int + 32) as char else c
  }

  function Lower(s: string): (r: string)
    ensures |r| == |s|
  {
    seq(|s|, i requires 0 <= i < |s| => LowerChar(s[i]))
  }

  const HTTPS := "https://"
  const HTTP := "http://"
  const AWS_DEFAULT := "<aws-default>"

  function StripScheme(s: string): string {
    if HTTPS <= s then s[|HTTPS|..]
    else if HTTP <= s then s[|HTTP|..]
    else s
  }

  function TrimSlashes(s: string): string {
    if s != [] && s[|s| - 1] == '/' then TrimSlashes(s[..|s| - 1]) else s
  }

  function CanonicalizeEndpoint(s: string): string {
    TrimSlashes(StripScheme(Lower(s)))
  }

  function EndpointPart(endpoint: Option<string>): string {
    if endpoint.Some? then CanonicalizeEndpoint(endpoint.value) else AWS_DEFAULT
  }

  function Join(endpoint: string, bucket: string, key: string): string {
    endpoint + "|" + bucket + "|" + key
  }

  function CanonicalizeTarget(endpoint: Option<string>, bucket: string, key: string): string {
    Join(EndpointPart(endpoint), bucket, key)
  }

  lemma {:induction false} TrimOneSlash(s: string)
    ensures TrimSlashes(s + "/") == TrimSlashes(s)
  {
    assert (s + "/")[..|s|] == s;
  }

  lemma LowerAppends(a: string, b: string)
    ensures Lower(a + b) == Lower(a) + Lower(b)
  {
  }

  /** Scheme, letter case and trailing slashes do not tell two endpoints apart. */
  lemma EndpointSpellingsAgree(host: string, other: string)
    requires Lower(host) == Lower(other)
    ensures CanonicalizeEndpoint(HTTPS + host) == CanonicalizeEndpoint(HTTP + other)
    ensures CanonicalizeEndpoint(HTTPS + host + "/") == CanonicalizeEndpoint(HTTPS + other)
    ensures CanonicalizeEndpoint("HTTPS://" + host) == CanonicalizeEndpoint(HTTPS + other)
  {
    LowerAppends(HTTPS, host);
    LowerAppends(HTTP, other);
    LowerAppends("HTTPS://", host);
    LowerAppends(HTTPS + host, "/");
    LowerAppends(HTTPS, other);
    assert Lower(HTTPS) == HTTPS && Lower("HTTPS://") == HTTPS && Lower(HTTP) == HTTP && Lower("/") == "/";
    TrimOneSlash(Lower(host));
    assert StripScheme(HTTPS + Lower(host)) == Lower(host);
    assert (HTTP + Lower(host))[4] == ':' && HTTPS[4] == 's';
    assert StripScheme(HTTP + Lower(host)) == Lower(host);
    assert HTTPS + Lower(host) + "/" == HTTPS + (Lower(host) + "/");
    assert StripScheme(HTTPS + (Lower(host) + "/")) == Lower(host) + "/";
  }

  predicate NoBar(s: string) {
    '|' !in s
  }

  function FirstBar(s: string): nat {
    if s == [] || s[0] == '|' then 0 else 1 + FirstBar(s[1..])
  }

  lemma {:induction false} FirstBarEndsFirstPart(a: string, rest: string)
    requires NoBar(a)
    ensures FirstBar(a + "|" + rest) == |a|
    decreases |a|
  {
    if a != [] {
      assert (a + "|" + rest)[1..] == a[1..] + "|" + rest;
      FirstBarEndsFirstPart(a[1..], rest);
    }
  }

  lemma FirstPartUnique(a: string, rest: string, a': string, rest': string)
    requires NoBar(a) && NoBar(a')
    requires a + "|" + rest == a' + "|" + rest'
    ensures a == a' && rest == rest'
  {
    var s := a + "|" + rest;
    FirstBarEndsFirstPart(a, rest);
    FirstBarEndsFirstPart(a', rest');
    assert a == s[..|a|] && a' == s[..|a'|];
    assert rest == s[|a| + 1..] && rest' == s[|a'| + 1..];
  }

  /** The joined form tells targets apart as long as endpoint and bucket hold no bar. */
  lemma JoinInjective(e: string, b: string, k: string, e': string, b': string, k': string)
    requires NoBar(e) && NoBar(b) && NoBar(e') && NoBar(b')
    requires Join(e, b, k) == Join(e', b', k')
    ensures e == e' && b == b' && k == k'
  {
    assert Join(e, b, k) == e + "|" + (b + "|" + k);
    assert Join(e', b', k') == e' + "|" + (b' + "|" + k');
    FirstPartUnique(e, b + "|" + k, e', b' + "|" + k');
    FirstPartUnique(b, k, b', k');
  }

  lemma SplitAtBar(s: string) returns (a: string, b: string)
    requires !NoBar(s)
    ensures s == a + "|" + b
  {
    var i :| 0 <= i < |s| && s[i] == '|';
    a, b := s[..i], s[i + 1..];
  }

  /** A joined form stands for one triple only, exactly when none of its parts holds a bar. */
  lemma JoinUniqueExactly(e: string, b: string, k: string)
    ensures (NoBar(e) && NoBar(b) && NoBar(k)) <==>
            (forall e', b', k' :: Join(e', b', k') == Join(e, b, k) ==> (e', b', k') == (e, b, k))
  {
    if !NoBar(e) {
      var x, y := SplitAtBar(e);
      assert Join(x, y, b + "|" + k) == Join(e, b, k);
      assert |x| < |e|;
    } else if !NoBar(b) {
      var x, y := SplitAtBar(b);
      assert Join(e, x, y + "|" + k) == Join(e, b, k);
      assert |x| < |b|;
    } else if !NoBar(k) {
      var x, y := SplitAtBar(k);
      assert Join(e + "|" + b, x, y) == Join(e, b, k);
      assert |e + "|" + b| > |e|;
    } else {
      forall e', b', k' | Join(e', b', k') == Join(e, b, k)
        ensures (e', b', k') == (e, b, k)
      {
        NoOtherBars(e', b', k', e, b, k);
        JoinInjective(e', b', k', e, b, k);
      }
    }
  }

  function Bars(s: string): nat {
    if s == [] then 0 else Bars(s[..|s| - 1]) + if s[|s| - 1] == '|' then 1 else 0
  }

  lemma {:induction false} BarsAppend(a: string, b: string)
    ensures Bars(a + b) == Bars(a) + Bars(b)
    decreases |b|
  {
    if b == [] {
      assert a + b == a;
    } else {
      BarsAppend(a, b[..|b| - 1]);
      assert (a + b)[..|a + b| - 1] == a + b[..|b| - 1];
    }
  }

  lemma {:induction false} NoBars(s: string)
    ensures Bars(s) == 0 <==> NoBar(s)
    decreases |s|
  {
    if s != [] {
      NoBars(s[..|s| - 1]);
      assert s == s[..|s| - 1] + [s[|s| - 1]];
    }
  }

  lemma JoinBars(e: string, b: string, k: string)
    ensures Bars(Join(e, b, k)) == Bars(e) + Bars(b) + Bars(k) + 2
  {
    BarsAppend(e + "|" + b + "|", k);
    BarsAppend(e + "|" + b, "|");
    BarsAppend(e + "|", b);
    BarsAppend(e, "|");
    assert Bars("|") == Bars([]) + 1;
  }

  lemma NoOtherBars(e: string, b: string, k: string, e': string, b': string, k': string)
    requires Join(e, b, k) == Join(e', b', k') && NoBar(e') && NoBar(b') && NoBar(k')
    ensures NoBar(e) && NoBar(b) && NoBar(k)
  {
    JoinBars(e, b, k);
    JoinBars(e', b', k');
    NoBars(e);
    NoBars(b);
    NoBars(k);
    NoBars(e');
    NoBars(b');
    NoBars(k');
  }

  /* ---------------------------- Duplicates in the registry ---------------------------- */

  const SYNC_KEY := "sync"

  function FromVaultEntry(v: RegisteredVault): Option<SyncConfig> {
    if SYNC_KEY in v.extra && v.extra[SYNC_KEY].SyncBlock? then Some(v.extra[SYNC_KEY].config) else None
  }

  function ToVaultEntry(cfg: SyncConfig, v: RegisteredVault): RegisteredVault {
    v.(extra := v.extra[SYNC_KEY := SyncBlock(cfg)])
  }

  function TargetOfConfig(cfg: SyncConfig): Option<string> {
    if cfg.s3.Some? then Some(CanonicalizeTarget(cfg.s3.value.endpoint, cfg.s3.value.bucket, cfg.s3.value.key)) else None
  }

  function TargetOf(v: RegisteredVault): Option<string> {
    if FromVaultEntry(v).Some? then TargetOfConfig(FromVaultEntry(v).value) else None
  }

  // The name of another vault on the same canonical target.
  function FindDuplicateTarget(vaults: seq<RegisteredVault>, target: string, exclude: string): (r: Option<string>)
    ensures r.None? <==> forall i :: 0 <= i < |vaults| && vaults[i].name != exclude ==> TargetOf(vaults[i]) != Some(target)
    ensures r.Some? ==> exists i :: 0 <= i < |vaults| && vaults[i].name == r.value && r.value != exclude
                                    && TargetOf(vaults[i]) == Some(target)
    decreases |vaults|
  {
    if vaults == [] then None
    else if vaults[0].name != exclude && TargetOf(vaults[0]) == Some(target) then Some(vaults[0].name)
    else
      var rest := FindDuplicateTarget(vaults[1..], target, exclude);
      assert forall i :: 0 < i < |vaults| ==> vaults[i] == vaults[1..][i - 1];
      rest
  }

  predicate Clash(v: RegisteredVault, w: RegisteredVault) {
    v.name == w.name || (TargetOf(v).Some? && TargetOf(v) == TargetOf(w))
  }

  // No two vaults share a name or a target.
  predicate Clean(vaults: seq<RegisteredVault>) {
    forall i, j :: 0 <= i < j < |vaults| ==> !Clash(vaults[i], vaults[j])
  }

  predicate CleanContents(c: Contents) {
    Parse(c).Ok? ==> Clean(Parse(c).value.vaults)
  }

  lemma CleanWithout(vaults: seq<RegisteredVault>, i: nat)
    requires Clean(vaults) && i < |vaults|
    ensures Clean(vaults[..i] + vaults[i + 1..])
  {
    var rest := vaults[..i] + vaults[i + 1..];
    forall a, b | 0 <= a < b < |rest|
      ensures !Clash(rest[a], rest[b])
    {
      var x, y := if a < i then a else a + 1, if b < i then b else b + 1;
      assert rest[a] == vaults[x] && rest[b] == vaults[y];
    }
  }

  // Taken out and put back at the end.
  function PutBack(vaults: seq<RegisteredVault>, i: nat, v: RegisteredVault): seq<RegisteredVault>
    requires i < |vaults|
  {
    vaults[..i] + vaults[i + 1..] + [v]
  }

  // Moving a vault to the end with a target nobody else has.
  lemma CleanMoved(vaults: seq<RegisteredVault>, i: nat, v: RegisteredVault)
    requires Clean(vaults) && i < |vaults| && v.name == vaults[i].name
    requires forall k :: 0 <= k < |vaults| && k != i && TargetOf(v).Some? ==> TargetOf(vaults[k]) != TargetOf(v)
    ensures Clean(PutBack(vaults, i, v))
  {
    CleanWithout(vaults, i);
    var rest := vaults[..i] + vaults[i + 1..];
    forall a | 0 <= a < |rest|
      ensures !Clash(rest[a], v)
    {
      var x := if a < i then a else a + 1;
      assert rest[a] == vaults[x];
      if x < i {
        assert !Clash(vaults[x], vaults[i]);
      } else {
        assert !Clash(vaults[i], vaults[x]);
      }
    }
  }

  // A vault put back with the target it had.
  lemma PutBackKeepsClean(vaults: seq<RegisteredVault>, i: nat, v: RegisteredVault)
    requires Clean(vaults) && i < |vaults| && v.name == vaults[i].name && TargetOf(v) == TargetOf(vaults[i])
    ensures Clean(PutBack(vaults, i, v))
  {
    forall k | 0 <= k < |vaults| && k != i && TargetOf(v).Some?
      ensures TargetOf(vaults[k]) != TargetOf(v)
    {
      assert k < i ==> !Clash(vaults[k], vaults[i]);
      assert i < k ==> !Clash(vaults[i], vaults[k]);
    }
    CleanMoved(vaults, i, v);
  }

  lemma SavingCleanKeepsClean(baseline: Contents, vaults: seq<RegisteredVault>, extra: Table, good: Contents -> bool)
    requires Clean(vaults) && forall c :: good(c) <==> CleanContents(c)
    ensures Keeps(SaveEdit(baseline, vaults, extra), good)
  {
  }

  /** A field-level update that leaves the sync block alone cannot create a duplicate. */
  lemma ExtraEditKeepsClean(name: string, update: Table -> Table, good: Contents -> bool)
    requires forall c :: good(c) <==> CleanContents(c)
    requires forall t :: LeavesSync(update, t)
    ensures Keeps(ExtraEdit(name, update), good)
  {
    forall c | good(c) && ExtraEdit(name, update)(c).Some?
      ensures good(ExtraEdit(name, update)(c).value)
    {
      var before := Parse(c).value.vaults;
      ExtraEditAt(name, update, c, Position(before, name).value);
      var after := Parse(ExtraEdit(name, update)(c).value).value.vaults;
      var p := Position(before, name).value;
      assert LeavesSync(update, before[p].extra);
      forall i, j | 0 <= i < j < |after|
        ensures !Clash(after[i], after[j])
      {
        assert !Clash(before[i], before[j]);
      }
    }
  }

  predicate LeavesSync(update: Table -> Table, t: Table) {
    && (SYNC_KEY in update(t) <==> SYNC_KEY in t)
    && (SYNC_KEY in t ==> update(t)[SYNC_KEY] == t[SYNC_KEY])
  }

  /* ---------------------------- Configuring ---------------------------- */

  // Rewrites one vault's sync block: take the entry out, put it back at the end.
  method UpdateRegistrySyncBlock(registry: VaultRegistry, name: string, cfg: SyncConfig) returns (r: Result<(), Error>)
    requires Clean(registry.vaults)
    modifies registry`vaults, registry`files
    ensures registry.files == old(registry.files)
    ensures r.Ok? <==> Position(old(registry.vaults), name).Some?
    ensures r.Err? ==> registry.vaults == old(registry.vaults)
    ensures r.Ok? ==>
              var i := Position(old(registry.vaults), name).value;
              registry.vaults == PutBack(old(registry.vaults), i, ToVaultEntry(cfg, old(registry.vaults)[i]))
  {
    var original := registry.Get(name);
    if original.None? {
      return Err(NotRegistered);
    }
    var updated := ToVaultEntry(cfg, original.value);
    ghost var i := Position(registry.vaults, name).value;
    CleanWithout(registry.vaults, i);
    ghost var before := registry.vaults;
    var removed := registry.Deregister(name, false);
    forall k | 0 <= k < |registry.vaults|
      ensures registry.vaults[k].name != name
    {
      var x := if k < i then k else k + 1;
      assert registry.vaults[k] == before[x];
      assert x < i ==> !Clash(before[x], before[i]);
      assert i < x ==> !Clash(before[i], before[x]);
    }
    r := registry.Register(updated);
  }

  // A fresh block: no pointers from an earlier target.
  function Fresh(s3: S3Config): SyncConfig {
    SyncConfig(Some(s3), T.UNSYNCED, 0)
  }

  // A vault moved to a target that the duplicate check found free.
  lemma FreeTargetMoves(before: seq<RegisteredVault>, i: nat, v: RegisteredVault, target: string)
    requires Clean(before) && i < |before| && v.name == before[i].name && TargetOf(v) == Some(target)
    requires forall k :: 0 <= k < |before| && before[k].name != v.name ==> TargetOf(before[k]) != Some(target)
    ensures Clean(PutBack(before, i, v))
  {
    forall k | 0 <= k < |before| && k != i
      ensures TargetOf(before[k]) != Some(target)
    {
      assert k < i ==> !Clash(before[k], before[i]);
      assert i < k ==> !Clash(before[i], before[k]);
    }
    CleanMoved(before, i, v);
  }

  /** Points a vault at a target, unless another vault is already there. Ok: the file now has
      the vault on that target with no pointers; and the registry, in memory and in the file,
      stays free of duplicates. */
  method ConfigureRemote(registry: VaultRegistry, name: string, s3: S3Config, validates: S3Config -> bool)
    returns (r: Result<(), Error>)
    requires registry.Valid() && Clean(registry.vaults)
    requires forall c :: registry.file.good(c) <==> CleanContents(c)
    modifies registry`vaults, registry`baseline, registry`files, registry.file
    ensures registry.files == old(registry.files)
    ensures registry.Valid() && Clean(registry.vaults) && CleanContents(registry.file.st.file)
    ensures r == Err(NotRegistered) <==> Position(old(registry.vaults), name).None?
    ensures r.Err? && (r.error.NotRegistered? || r.error.BadEndpoint? || r.error.DuplicateTarget?) ==>
              registry.vaults == old(registry.vaults) && registry.file.st == old(registry.file.st)
    ensures r.Err? && r.error.DuplicateTarget? ==> exists i ::
              && 0 <= i < |registry.vaults| && registry.vaults[i].name == r.error.existing != name
              && TargetOf(registry.vaults[i]) == TargetOfConfig(Fresh(s3))
    ensures r.Ok? ==>
              && registry.file.st.file == Some(Serialize(registry.vaults, registry.extraTopLevel))
              && var i := Position(old(registry.vaults), name).value;
                 registry.vaults == PutBack(old(registry.vaults), i, ToVaultEntry(Fresh(s3), old(registry.vaults)[i]))
  {
    registry.file.FileIsGood();
    var entry := registry.Get(name);
    if entry.None? {
      return Err(NotRegistered);
    }
    if !validates(s3) {
      return Err(BadEndpoint);
    }
    var target := CanonicalizeTarget(s3.endpoint, s3.bucket, s3.key);
    var existing := FindDuplicateTarget(registry.vaults, target, name);
    if existing.Some? {
      return Err(DuplicateTarget(existing.value));
    }
    ghost var i := Position(registry.vaults, name).value;
    ghost var before := registry.vaults;
    FreeTargetMoves(before, i, ToVaultEntry(Fresh(s3), before[i]), target);
    var updated := UpdateRegistrySyncBlock(registry, name, Fresh(s3));
    SavingCleanKeepsClean(registry.baseline, registry.vaults, registry.extraTopLevel, registry.file.good);
    var saved, _ := registry.Save();
    registry.file.FileIsGood();
    return saved;
  }

  /* ---------------------------- The cached If-Match verdict ---------------------------- */

  // One call of an `S3Config` setter.
  datatype Setting =
    | Endpoint(endpoint: Option<string>)
    | Bucket(bucket: string)
    | Key(key: string)
    | PathStyle(on: bool)
    | Credentials(id: nat)
    | Verdict(support: IfMatchSupport)

  function Set(c: S3Config, x: Setting): S3Config {
    match x
    case Endpoint(e) => c.(endpoint := e, ifMatch := Unknown)
    case Bucket(b) => c.(bucket := b, ifMatch := Unknown)
    case Key(k) => c.(key := k, ifMatch := Unknown)
    case PathStyle(on) => c.(pathStyle := on)
    case Credentials(id) => c.(credentials := id)
    case Verdict(support) => c.(ifMatch := support)
  }

  function SetAll(c: S3Config, xs: seq<Setting>): S3Config {
    if xs == [] then c else Set(SetAll(c, xs[..|xs| - 1]), xs[|xs| - 1])
  }

  // The verdict in force was given at `i`, for the endpoint, bucket and key in force now.
  ghost predicate GivenAt(c: S3Config, xs: seq<Setting>, i: nat) {
    var now := SetAll(c, xs);
    && i < |xs| && xs[i] == Verdict(now.ifMatch)
    && var then_ := SetAll(c, xs[..i]);
       (then_.endpoint, then_.bucket, then_.key) == (now.endpoint, now.bucket, now.key)
  }

  /** After any run of setters a known verdict was given for the target in force. */
  lemma {:induction false} VerdictIsAboutThisTarget(c: S3Config, xs: seq<Setting>)
    requires c.ifMatch.Unknown?
    ensures !SetAll(c, xs).ifMatch.Unknown? ==> exists i: nat :: GivenAt(c, xs, i)
    decreases |xs|
  {
    if xs != [] && !SetAll(c, xs).ifMatch.Unknown? {
      var n := |xs| - 1;
      if xs[n].Verdict? {
        assert GivenAt(c, xs, n);
      } else {
        VerdictIsAboutThisTarget(c, xs[..n]);
        var i: nat :| GivenAt(c, xs[..n], i);
        assert xs[..n][..i] == xs[..i];
        assert GivenAt(c, xs, i);
      }
    }
  }
}
