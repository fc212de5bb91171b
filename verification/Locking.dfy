/** Advisory locks on a sidecar file: one exclusive holder or any number of shared ones. */
module Locking {
  import opened Wrappers

  // One open handle on the lock file. Two handles conflict even inside one process.
  type Handle = nat
  datatype Kind = Exclusive | Shared
  datatype LockError = Contended | Io

  datatype LockState = LockState(writer: Option<Handle>, readers: set<Handle>)

  const FREE := LockState(None, {})

  predicate Holds(s: LockState, h: Handle, kind: Kind) {
    if kind.Exclusive? then s.writer == Some(h) else h in s.readers
  }

  predicate Conflicts(s: LockState, kind: Kind) {
    s.writer.Some? || (kind.Exclusive? && s.readers != {})
  }

  function Taken(s: LockState, h: Handle, kind: Kind): LockState {
    if kind.Exclusive? then s.(writer := Some(h)) else s.(readers := s.readers + {h})
  }

  function Dropped(s: LockState, h: Handle): LockState {
    LockState(if s.writer == Some(h) then None else s.writer, s.readers - {h})
  }

  predicate LockOk(s: LockState) {
    s.writer.Some? ==> s.readers == {}
  }

  // A run of acquisitions, each refused when it conflicts, and of drops.
  datatype Event = Acquire(h: Handle, kind: Kind) | Drop(h: Handle)

  function After(s: LockState, events: seq<Event>): LockState
    decreases |events|
  {
    if events == [] then s
    else
      var before := After(s, events[..|events| - 1]);
      match events[|events| - 1]
      case Acquire(h, kind) => if Conflicts(before, kind) then before else Taken(before, h, kind)
      case Drop(h) => Dropped(before, h)
  }

  /** Mutual exclusion over every run: an exclusive holder is alone. */
  lemma {:induction false} ExclusiveIsAlone(events: seq<Event>, h: Handle, other: Handle, kind: Kind)
    requires Holds(After(FREE, events), h, Exclusive) && Holds(After(FREE, events), other, kind)
    ensures kind == Exclusive && other == h
  {
    AfterOk(events);
  }

  lemma {:induction false} AfterOk(events: seq<Event>)
    ensures LockOk(After(FREE, events))
    decreases |events|
  {
    if events != [] {
      AfterOk(events[..|events| - 1]);
    }
  }

  /** The lock file that processes share, with the handles open on it. */
  class LockFile {
    var state: LockState

    constructor ()
      ensures state == FREE
    {
      state := FREE;
    }

    // Tries once, and again as long as a signal interrupts the call.
    method TryAcquireWithEintrRetry(h: Handle, kind: Kind) returns (r: Result<(), LockError>)
      requires LockOk(state)
      modifies this
      ensures LockOk(state)
      ensures r.Ok? ==> !Conflicts(old(state), kind) && state == Taken(old(state), h, kind) && Holds(state, h, kind)
      ensures r == Err(Contended) ==> Conflicts(old(state), kind)
      ensures r.Err? ==> state == old(state)
    {
      var interrupts: int := *;
      while true
        invariant state == old(state)
        decreases interrupts
      {
        if 0 < interrupts {
          interrupts := interrupts - 1;
        } else if * {
          return Err(Io);
        } else if Conflicts(state, kind) {
          return Err(Contended);
        } else {
          state := Taken(state, h, kind);
          return Ok(());
        }
      }
    }

    // Dropping a guard, or the death of its process.
    method Release(h: Handle)
      requires LockOk(state)
      modifies this
      ensures LockOk(state) && state == Dropped(old(state), h)
      ensures !Holds(state, h, Exclusive) && !Holds(state, h, Shared)
    {
      state := Dropped(state, h);
    }
  }
}
