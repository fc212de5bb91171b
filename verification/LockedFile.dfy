/** Read, change and atomically replace one file under an exclusive lock: the pattern behind
    `vaults.toml` and `config.toml`. Any number of processes; each may crash anywhere. */
module LockedFile {
  import opened Wrappers
  import L = Locking

  type Pid = nat

  // What a lock holder does to the contents it finds; None when it refuses them.
  type Edit<!C> = C -> Option<C>

  datatype Pc<!C> =
    | Idle
    | Holding(edit: Edit<C>)
    | Seen(edit: Edit<C>, contents: C)
    | Written

  // `log` is the list of edits written so far, and `writers` who wrote them.
  datatype State<!C> = State(
    file: C, lock: L.LockState, pcs: map<Pid, Pc<C>>, log: seq<Edit<C>>, writers: seq<Pid>)

  datatype Label<!C> = Acquire(edit: Edit<C>) | Read | Write | Release | Crash

  function PcOf<C>(s: State<C>, p: Pid): Pc<C> {
    if p in s.pcs then s.pcs[p] else Idle
  }

  function Next<C>(s: State<C>, p: Pid, l: Label<C>): Option<State<C>> {
    match (l, PcOf(s, p))
    case (Acquire(edit), Idle) =>
      if L.Conflicts(s.lock, L.Exclusive) then None
      else Some(s.(lock := L.Taken(s.lock, p, L.Exclusive), pcs := s.pcs[p := Holding(edit)]))
    case (Read, Holding(edit)) => Some(s.(pcs := s.pcs[p := Seen(edit, s.file)]))
    case (Write, Seen(edit, contents)) =>
      var result := edit(contents);
      if result.Some?
      then Some(s.(file := result.value, log := s.log + [edit], writers := s.writers + [p],
                   pcs := s.pcs[p := Written]))
      else None
    case (Release, pc) => if pc.Idle? then None else Some(Freed(s, p))
    case (Crash, _) => Some(Freed(s, p))
    case _ => None
  }

  // The guard is dropped, or the kernel closes the dead process's handle.
  function Freed<C>(s: State<C>, p: Pid): State<C> {
    s.(lock := L.Dropped(s.lock, p), pcs := s.pcs[p := Idle])
  }

  // The edits of `log`, each applied to exactly what the one before it left.
  function Applied<C>(file: C, log: seq<Edit<C>>): Option<C>
    decreases |log|
  {
    if log == [] then Some(file)
    else
      var before := Applied(file, log[..|log| - 1]);
      if before.None? then None else log[|log| - 1](before.value)
  }

  ghost predicate Init<C>(s: State<C>) {
    s.lock == L.FREE && s.pcs == map[] && s.log == [] && s.writers == []
  }

  // Only the lock holder is in the middle of an edit, so what it has read is still there.
  ghost predicate Inv<C(!new)>(s: State<C>, start: C) {
    && s.lock.readers == {} && |s.writers| == |s.log|
    && (forall p: Pid :: !PcOf(s, p).Idle? <==> s.lock.writer == Some(p))
    && (forall p: Pid :: PcOf(s, p).Seen? ==> PcOf(s, p).contents == s.file)
    && Applied(start, s.log) == Some(s.file)
  }

  lemma StepKeeps<C(!new)>(s: State<C>, p: Pid, l: Label<C>, start: C)
    requires Inv(s, start) && Next(s, p, l).Some?
    ensures Inv(Next(s, p, l).value, start)
  {
    var s' := Next(s, p, l).value;
    assert forall q: Pid :: q != p ==> PcOf(s', q) == PcOf(s, q);
    if l.Write? {
      assert s'.log[..|s.log|] == s.log;
    }
  }

  type Move<!C> = (Pid, Label<C>)

  ghost predicate Moved<C(!new)>(s: State<C>, m: Move<C>, s': State<C>) {
    Next(s, m.0, m.1) == Some(s')
  }

  ghost predicate Run<C(!new)>(states: seq<State<C>>, moves: seq<Move<C>>) {
    && |states| == |moves| + 1
    && Init(states[0])
    && forall i :: 0 <= i < |moves| ==> Moved(states[i], moves[i], states[i + 1])
  }

  /** No lost update: over any interleaving the file is the fold of all the edits written, in
      the order they were written, each applied to what the one before it left. */
  lemma {:induction false} NoLostUpdate<C(!new)>(states: seq<State<C>>, moves: seq<Move<C>>, j: nat)
    requires Run(states, moves) && j < |states|
    ensures Inv(states[j], states[0].file)
    ensures Applied(states[0].file, states[j].log) == Some(states[j].file)
  {
    if j > 0 {
      NoLostUpdate(states, moves, j - 1);
      assert Moved(states[j - 1], moves[j - 1], states[j]);
      StepKeeps(states[j - 1], moves[j - 1].0, moves[j - 1].1, states[0].file);
    }
  }

  // A property that every edit keeps.
  ghost predicate Keeps<C(!new)>(edit: Edit<C>, good: C -> bool) {
    forall c :: good(c) && edit(c).Some? ==> good(edit(c).value)
  }

  lemma {:induction false} AppliedKeeps<C(!new)>(file: C, log: seq<Edit<C>>, good: C -> bool)
    requires good(file) && Applied(file, log).Some?
    requires forall k :: 0 <= k < |log| ==> Keeps(log[k], good)
    ensures good(Applied(file, log).value)
    decreases |log|
  {
    if log != [] {
      var n := |log| - 1;
      assert forall k :: 0 <= k < n ==> log[..n][k] == log[k];
      AppliedKeeps(file, log[..n], good);
      assert Keeps(log[n], good);
    }
  }

  /** What every edit keeps holds of the file at every moment of every run. */
  lemma RunStaysGood<C(!new)>(states: seq<State<C>>, moves: seq<Move<C>>, j: nat, good: C -> bool)
    requires Run(states, moves) && j < |states|
    requires good(states[0].file)
    requires forall k :: 0 <= k < |states[j].log| ==> Keeps(states[j].log[k], good)
    ensures good(states[j].file)
  {
    NoLostUpdate(states, moves, j);
    AppliedKeeps(states[0].file, states[j].log, good);
  }

  lemma {:induction false} AppliedAppend<C(!new)>(file: C, log: seq<Edit<C>>, more: seq<Edit<C>>)
    requires Applied(file, log).Some?
    ensures Applied(file, log + more) == Applied(Applied(file, log).value, more)
    decreases |more|
  {
    if more == [] {
      assert log + more == log;
    } else {
      var n := |more| - 1;
      AppliedAppend(file, log, more[..n]);
      assert (log + more)[..|log| + n] == log + more[..n];
    }
  }

  // Every edit written or under way keeps `good`.
  ghost predicate AllKeep<C(!new)>(s: State<C>, good: C -> bool) {
    && (forall k :: 0 <= k < |s.log| ==> Keeps(s.log[k], good))
    && (forall p: Pid :: PcKeeps(PcOf(s, p), good))
  }

  ghost predicate PcKeeps<C(!new)>(pc: Pc<C>, good: C -> bool) {
    (pc.Holding? || pc.Seen?) ==> Keeps(pc.edit, good)
  }

  ghost predicate LabelKeeps<C(!new)>(l: Label<C>, good: C -> bool) {
    l.Acquire? ==> Keeps(l.edit, good)
  }

  lemma StepAllKeep<C(!new)>(s: State<C>, p: Pid, l: Label<C>, good: C -> bool)
    requires AllKeep(s, good) && LabelKeeps(l, good) && Next(s, p, l).Some?
    ensures AllKeep(Next(s, p, l).value, good)
  {
    var s' := Next(s, p, l).value;
    assert PcKeeps(PcOf(s, p), good);
    forall q: Pid
      ensures PcKeeps(PcOf(s', q), good)
    {
      assert PcKeeps(PcOf(s, q), good);
    }
  }

  // Process `me` wrote nothing between the two states.
  predicate WroteNothing<C(!new)>(me: Pid, s: State<C>, s': State<C>) {
    && s.writers <= s'.writers
    && forall k :: |s.writers| <= k < |s'.writers| ==> s'.writers[k] != me
  }

  // Of what was written between the two states, `me` wrote the last and nothing else.
  predicate WroteLast<C(!new)>(me: Pid, s: State<C>, s': State<C>) {
    && s.writers <= s'.writers && |s.writers| < |s'.writers| && s'.writers[|s'.writers| - 1] == me
    && forall k :: |s.writers| <= k < |s'.writers| - 1 ==> s'.writers[k] != me
  }

  lemma NothingBefore<C(!new)>(me: Pid, s: State<C>, s1: State<C>, s2: State<C>)
    requires WroteNothing(me, s, s1)
    ensures WroteLast(me, s1, s2) ==> WroteLast(me, s, s2)
    ensures WroteNothing(me, s1, s2) ==> WroteNothing(me, s, s2)
  {
  }

  // Why a locked edit did not get as far as reading the file.
  datatype Failure = Busy | Unreadable

  /** The file as processes share it. `schedule` is what the other processes will do. */
  class SharedFile<!C(!new)> {
    var st: State<C>
    var schedule: seq<Move<C>>
    ghost const start: C
    ghost const good: C -> bool

    ghost predicate Valid()
      reads this
    {
      && Inv(st, start) && good(start) && AllKeep(st, good)
      && forall k :: 0 <= k < |schedule| ==> LabelKeeps(schedule[k].1, good)
    }

    constructor (file: C, schedule: seq<Move<C>>, ghost good: C -> bool)
      requires good(file) && forall k :: 0 <= k < |schedule| ==> LabelKeeps(schedule[k].1, good)
      ensures Valid() && st.file == file && st.log == [] && start == file && this.good == good
      ensures forall p: Pid :: PcOf(st, p).Idle?
    {
      st := State(file, L.FREE, map[], [], []);
      this.schedule, start, this.good := schedule, file, good;
    }

    lemma FileIsGood()
      requires Valid()
      ensures good(st.file)
    {
      AppliedKeeps(start, st.log, good);
    }

    method Step(me: Pid, l: Label<C>)
      requires Valid() && Next(st, me, l).Some? && LabelKeeps(l, good)
      modifies this`st
      ensures Valid() && Some(st) == Next(old(st), me, l)
    {
      StepKeeps(st, me, l, start);
      StepAllKeep(st, me, l, good);
      st := Next(st, me, l).value;
    }

    // Some of what the others have scheduled happens.
    method Others(me: Pid)
      requires Valid()
      modifies this
      ensures Valid() && PcOf(st, me) == PcOf(old(st), me)
      ensures old(st.log) <= st.log
      ensures WroteNothing(me, old(st), st)
      ensures old(st).lock.writer == Some(me) ==>
                st.file == old(st.file) && st.log == old(st.log) && st.writers == old(st.writers)
    {
      var n: int := *;
      while 0 < n && schedule != []
        invariant Valid() && PcOf(st, me) == PcOf(old(st), me)
        invariant old(st.log) <= st.log
        invariant WroteNothing(me, old(st), st)
        invariant old(st).lock.writer == Some(me) ==>
                    st.file == old(st.file) && st.log == old(st.log) && st.writers == old(st.writers)
        invariant old(st).lock.writer == Some(me) ==> st.lock.writer == Some(me)
        decreases n
      {
        var m := schedule[0];
        schedule := schedule[1..];
        if m.0 != me && Next(st, m.0, m.1).Some? {
          Step(m.0, m.1);
        }
        n := n - 1;
      }
    }

    method ReadUnlocked(me: Pid) returns (contents: C)
      requires Valid()
      modifies this
      ensures Valid() && PcOf(st, me) == PcOf(old(st), me) && old(st.log) <= st.log
      ensures contents == st.file && good(contents) && WroteNothing(me, old(st), st)
    {
      Others(me);
      FileIsGood();
      return st.file;
    }

    method TryAcquire(me: Pid, edit: Edit<C>) returns (ok: bool)
      requires Valid() && PcOf(st, me).Idle? && Keeps(edit, good)
      modifies this
      ensures Valid() && old(st.log) <= st.log
      ensures PcOf(st, me) == (if ok then Holding(edit) else Idle) && WroteNothing(me, old(st), st)
    {
      Others(me);
      if L.Conflicts(st.lock, L.Exclusive) {
        return false;
      }
      Step(me, Acquire(edit));
      return true;
    }

    method ReadLocked(me: Pid, ghost edit: Edit<C>) returns (contents: C)
      requires Valid() && PcOf(st, me) == Holding(edit)
      modifies this
      ensures Valid() && PcOf(st, me) == Seen(edit, contents) && contents == st.file && good(contents)
      ensures st.log == old(st.log) && st.file == old(st.file) && st.writers == old(st.writers)
    {
      Others(me);
      Step(me, Read);
      FileIsGood();
      return st.file;
    }

    // The atomic write. An error leaves the old contents, or the new ones when only the last
    // fsync failed.
    method WriteLocked(me: Pid, ghost edit: Edit<C>, ghost seen: C) returns (ok: bool)
      requires Valid() && PcOf(st, me) == Seen(edit, seen) && edit(seen).Some?
      modifies this
      ensures Valid() && !PcOf(st, me).Idle?
      ensures (st.file == edit(seen).value && st.log == old(st.log) + [edit] && st.writers == old(st.writers) + [me])
              || (!ok && st.file == old(st.file) && st.log == old(st.log) && st.writers == old(st.writers))
    {
      Others(me);
      if * {
        return false;
      }
      Step(me, Write);
      if * {
        return false;
      }
      return true;
    }

    method Unlock(me: Pid)
      requires Valid() && !PcOf(st, me).Idle?
      modifies this`st
      ensures Valid() && PcOf(st, me).Idle?
      ensures st.file == old(st.file) && st.log == old(st.log) && st.writers == old(st.writers)
    {
      Step(me, Release);
    }

    // The lock, and then a read under it; on an error the lock is dropped again.
    method LockAndRead(me: Pid, edit: Edit<C>) returns (r: Result<C, Failure>)
      requires Valid() && PcOf(st, me).Idle? && Keeps(edit, good)
      modifies this
      ensures Valid() && old(st.log) <= st.log && WroteNothing(me, old(st), st)
      ensures r.Ok? ==> PcOf(st, me) == Seen(edit, r.value) && r.value == st.file && good(r.value)
      ensures r.Err? ==> PcOf(st, me).Idle?
    {
      var acquired := TryAcquire(me, edit);
      if !acquired {
        return Err(Busy);
      }
      if * {
        Unlock(me);
        return Err(Unreadable);
      }
      var contents := ReadLocked(me, edit);
      return Ok(contents);
    }

    // The last write replaced exactly these contents.
    ghost predicate Replaced(contents: C)
      reads this
    {
      |st.log| > 0 && Applied(start, st.log[..|st.log| - 1]) == Some(contents)
    }

    // The write, and then the guard is dropped.
    method WriteAndUnlock(me: Pid, ghost edit: Edit<C>, ghost seen: C) returns (ok: bool)
      requires Valid() && PcOf(st, me) == Seen(edit, seen) && edit(seen).Some? && st.file == seen
      modifies this
      ensures Valid() && PcOf(st, me).Idle?
      ensures ok ==> WroteLast(me, old(st), st)
      ensures WroteLast(me, old(st), st) ==> Replaced(seen)
      ensures if WroteLast(me, old(st), st) then st.file == edit(seen).value && st.log == old(st.log) + [edit]
              else WroteNothing(me, old(st), st) && st.file == old(st.file) && st.log == old(st.log)
    {
      ghost var log := st.log;
      ok := WriteLocked(me, edit, seen);
      Unlock(me);
      assert (log + [edit])[..|log|] == log;
    }
  }
}
