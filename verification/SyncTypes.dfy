/** The values a sync works on: databases, encrypted bytes, versions and the
    divergence pointers, with the four-state decision taken on them. */
module SyncTypes {
  import opened Wrappers

  // One entry version. A deletion is an edit too: the merge keeps versions, it never drops them.
  type Edit = nat

  datatype Database = Database(root: nat, kdf: nat, edits: set<Edit>)

  // An encrypted vault file: the key that opens it, what it holds, and the fresh
  // seed and IV of the save that produced it.
  datatype Bytes = Bytes(key: nat, database: Database, nonce: nat)

  // An injective hash of a file.
  datatype Hash = Hash(of: Bytes)

  type Version = nat

  datatype Snapshot = Snapshot(version: Version, bytes: Bytes)

  // The persisted pair: last remote version and last local hash.
  datatype Pointers = Pointers(remoteEtag: Option<Version>, localSha: Option<Hash>)

  const UNSYNCED := Pointers(None, None)

  datatype Branch = InSync | Push | FastReplace | Merge

  // The truth table over (remote changed?, local changed?).
  function Decide(remoteNow: Option<Version>, localSha: Hash, last: Pointers): Branch {
    var remoteChanged := remoteNow != last.remoteEtag;
    var localChanged := Some(localSha) != last.localSha;
    match (remoteChanged, localChanged)
    case (false, false) => InSync
    case (false, true) => Push
    case (true, false) => FastReplace
    case (true, true) => Merge
  }

  function VersionOf(remote: Option<Snapshot>): Option<Version> {
    if remote.Some? then Some(remote.value.version) else None
  }

  function EditsOf(remote: Option<Snapshot>): set<Edit> {
    if remote.Some? then remote.value.bytes.database.edits else {}
  }

  // Whether an `If-Match` precondition (RFC 9110, section 13.1.1) lets a PUT through.
  predicate Matches(remote: Option<Snapshot>, ifMatch: Option<Version>) {
    ifMatch.Some? ==> VersionOf(remote) == ifMatch
  }
}
