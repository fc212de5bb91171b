/** The background sync worker: the vault is moved to it, and comes back in its last message. */
module SyncRuntime {
  import opened Wrappers

  // An open vault.
  type Vid = nat

  datatype Msg = Activity | Done(vault: Vid) | WorkerLost

  predicate Terminal(m: Msg) {
    !m.Activity?
  }

  predicate AllActivity(ms: seq<Msg>) {
    forall k :: 0 <= k < |ms| ==> ms[k].Activity?
  }

  // Activity messages and one last Done.
  predicate EndsDone(ms: seq<Msg>, vault: Vid) {
    ms != [] && ms[|ms| - 1] == Done(vault) && AllActivity(ms[..|ms| - 1])
  }

  datatype Worker = Absent | Running(vault: Vid) | Ended

  // `vault` is the vault last opened. `drained` is every message the caller has received, and
  // `since` how many of them came before the last start.
  datatype State = State(
    vault: Vid, caller: Option<Vid>, worker: Worker, queue: seq<Msg>, inflight: bool,
    drained: seq<Msg>, since: nat, starts: nat, panics: nat)

  datatype Label =
    // the caller; Open is an unlock after a lost vault
    | Start | Recv | Open(vault: Vid)
    // the worker
    | Ping | Finish | Panic

  function Next(s: State, l: Label): Option<State> {
    match l
    case Start => if s.caller.Some? && !s.inflight then Some(Started(s)) else None
    case Open(v) => if s.caller.None? && !s.inflight then Some(s.(vault := v, caller := Some(v))) else None
    case Recv => if s.inflight then Some(Received(s)) else None
    case Ping => if s.worker.Running? then Some(s.(queue := s.queue + [Activity])) else None
    case Finish =>
      if s.worker.Running? then Some(s.(queue := s.queue + [Done(s.worker.vault)], worker := Ended)) else None
    case Panic => if s.worker.Running? then Some(s.(worker := Ended, panics := s.panics + 1)) else None
  }

  function Started(s: State): State
    requires s.caller.Some?
  {
    s.(caller := None, worker := Running(s.caller.value), queue := [], inflight := true,
       since := |s.drained|, starts := s.starts + 1)
  }

  // One `try_recv`: a message, or the sender is gone without a Done, or nothing yet.
  function Received(s: State): State {
    if s.queue != [] then
      var m := s.queue[0];
      var popped := s.(queue := s.queue[1..], drained := s.drained + [m]);
      if m.Done? then popped.(caller := Some(m.vault), inflight := false) else popped
    else if s.worker.Ended? then s.(drained := s.drained + [WorkerLost], inflight := false)
    else s
  }

  ghost predicate Init(s: State) {
    s.caller == Some(s.vault) && s.worker.Absent? && s.queue == [] && !s.inflight
    && s.drained == [] && s.since == s.starts == s.panics == 0
  }

  function Dones(ms: seq<Msg>): nat
    decreases |ms|
  {
    if ms == [] then 0 else Dones(ms[..|ms| - 1]) + if ms[|ms| - 1].Done? then 1 else 0
  }

  function Losses(ms: seq<Msg>): nat
    decreases |ms|
  {
    if ms == [] then 0 else Losses(ms[..|ms| - 1]) + if ms[|ms| - 1].WorkerLost? then 1 else 0
  }

  lemma OneMore(ms: seq<Msg>, m: Msg)
    ensures Dones(ms + [m]) == Dones(ms) + if m.Done? then 1 else 0
    ensures Losses(ms + [m]) == Losses(ms) + if m.WorkerLost? then 1 else 0
  {
    assert (ms + [m])[..|ms|] == ms;
  }

  lemma {:induction false} NoneDone(ms: seq<Msg>)
    requires AllActivity(ms)
    ensures Dones(ms) == 0
    decreases |ms|
  {
    if ms != [] {
      NoneDone(ms[..|ms| - 1]);
    }
  }

  // How many places hold the open vault: the caller, the worker, a message on its way.
  function Holders(s: State): nat {
    (if s.caller.Some? then 1 else 0) + (if s.worker.Running? then 1 else 0) + Dones(s.queue)
  }

  // The vault unwound with its worker, and none was opened since.
  predicate Lost(s: State) {
    s.caller.None? && s.worker.Ended? && AllActivity(s.queue)
  }

  // The messages of the last start.
  function Latest(s: State): seq<Msg>
    requires s.since <= |s.drained|
  {
    s.drained[s.since..]
  }

  ghost predicate FlightOk(s: State)
    requires s.since <= |s.drained|
  {
    && s.caller.None? && AllActivity(Latest(s))
    && match s.worker
       case Absent => false
       case Running(v) => v == s.vault && AllActivity(s.queue)
       case Ended => AllActivity(s.queue) || EndsDone(s.queue, s.vault)
  }

  ghost predicate LandedOk(s: State)
    requires s.since <= |s.drained|
  {
    && s.queue == [] && !s.worker.Running?
    && (s.caller.Some? ==> s.caller.value == s.vault)
    && (s.caller.None? ==> s.worker.Ended?)
    && (0 < s.starts ==>
          Latest(s) != [] && Terminal(Latest(s)[|Latest(s)| - 1]) && AllActivity(Latest(s)[..|Latest(s)| - 1]))
  }

  ghost predicate Inv(s: State) {
    && s.since <= |s.drained|
    && (if s.inflight then FlightOk(s) else LandedOk(s))
    && Dones(s.drained) + Losses(s.drained) + (if s.inflight then 1 else 0) == s.starts
    && Losses(s.drained) + (if s.inflight && Lost(s) then 1 else 0) == s.panics
  }

  lemma StepKeeps(s: State, l: Label)
    requires Inv(s) && Next(s, l).Some?
    ensures Inv(Next(s, l).value)
  {
    match l
    case Start =>
    case Open(_) =>
    case Recv => RecvKeeps(s);
    case Ping =>
    case Finish => FinishKeeps(s);
    case Panic =>
  }

  lemma FinishKeeps(s: State)
    requires Inv(s) && s.worker.Running?
    ensures Inv(s.(queue := s.queue + [Done(s.worker.vault)], worker := Ended))
  {
    var queue := s.queue + [Done(s.vault)];
    assert queue[|s.queue|] == Done(s.vault) && queue[..|s.queue|] == s.queue;
    assert EndsDone(queue, s.vault) && !AllActivity(queue);
  }

  lemma RecvKeeps(s: State)
    requires Inv(s) && s.inflight
    ensures Inv(Received(s))
  {
    if s.queue == [] {
      if s.worker.Ended? {
        LatestOneMore(s, WorkerLost);
      }
    } else {
      LatestOneMore(s, s.queue[0]);
      QueueTail(s.queue, s.vault);
    }
  }

  lemma LatestOneMore(s: State, m: Msg)
    requires s.since <= |s.drained|
    ensures (s.drained + [m])[s.since..] == Latest(s) + [m]
    ensures (Latest(s) + [m])[..|Latest(s)|] == Latest(s)
    ensures Dones(s.drained + [m]) == Dones(s.drained) + if m.Done? then 1 else 0
    ensures Losses(s.drained + [m]) == Losses(s.drained) + if m.WorkerLost? then 1 else 0
  {
    OneMore(s.drained, m);
  }

  lemma QueueTail(queue: seq<Msg>, vault: Vid)
    requires queue != []
    ensures AllActivity(queue) ==> queue[0].Activity? && AllActivity(queue[1..])
    ensures EndsDone(queue, vault) && queue[0].Activity? ==> EndsDone(queue[1..], vault) && !AllActivity(queue[1..])
    ensures EndsDone(queue, vault) && !queue[0].Activity? ==> queue == [Done(vault)]
  {
    if EndsDone(queue, vault) && 1 < |queue| {
      assert queue[..|queue| - 1][0] == queue[0];
      assert queue[1..][..|queue| - 2] == queue[..|queue| - 1][1..];
    }
  }

  ghost predicate Moved(s: State, l: Label, s': State) {
    Next(s, l) == Some(s')
  }

  ghost predicate Run(states: seq<State>, labels: seq<Label>) {
    && |states| == |labels| + 1
    && Init(states[0])
    && forall i :: 0 <= i < |labels| ==> Moved(states[i], labels[i], states[i + 1])
  }

  lemma {:induction false} RunOk(states: seq<State>, labels: seq<Label>, j: nat)
    requires Run(states, labels) && j < |states|
    ensures Inv(states[j])
  {
    if j > 0 {
      RunOk(states, labels, j - 1);
      assert Moved(states[j - 1], labels[j - 1], states[j]);
      StepKeeps(states[j - 1], labels[j - 1]);
    }
  }

  /** Ownership is conserved: at every moment the open vault is held in exactly one place, or,
      after a panic and until one is opened again, in none; and what is held is that vault. */
  lemma OneHolder(states: seq<State>, labels: seq<Label>, j: nat)
    requires Run(states, labels) && j < |states|
    ensures var s := states[j];
            && Holders(s) == (if Lost(s) then 0 else 1)
            && (s.caller.Some? ==> s.caller.value == s.vault)
            && (s.worker.Running? ==> s.worker.vault == s.vault)
            && (forall v :: Done(v) in s.queue ==> v == s.vault)
  {
    RunOk(states, labels, j);
    var s := states[j];
    if AllActivity(s.queue) {
      NoneDone(s.queue);
    } else {
      var n := |s.queue| - 1;
      NoneDone(s.queue[..n]);
      OneMore(s.queue[..n], s.queue[n]);
      assert s.queue == s.queue[..n] + [s.queue[n]];
    }
  }

  /** Each start yields one terminal message, the last of its messages, and a sync is in flight
      exactly until it is drained. WorkerLost comes once for each panic, and for nothing else:
      never in place of a Done that was sent. */
  lemma OneTerminalForEachStart(states: seq<State>, labels: seq<Label>, j: nat)
    requires Run(states, labels) && j < |states|
    ensures var s := states[j];
            && s.since <= |s.drained|
            && Dones(s.drained) + Losses(s.drained) == s.starts - (if s.inflight then 1 else 0)
            && (s.inflight ==> AllActivity(Latest(s)))
            && (!s.inflight && 0 < s.starts ==>
                  && Latest(s) != [] && Terminal(Latest(s)[|Latest(s)| - 1])
                  && AllActivity(Latest(s)[..|Latest(s)| - 1]))
            && Losses(s.drained) <= s.panics <= Losses(s.drained) + 1
            && (!s.inflight ==> Losses(s.drained) == s.panics)
  {
    RunOk(states, labels, j);
  }

  /* ------------------------------ The runtime ------------------------------ */

  // What a drain hands over: activity alone, or that and the terminal message.
  predicate Handed(s: State, msgs: seq<Msg>) {
    if s.inflight then AllActivity(msgs) && s.caller.None?
    else msgs != [] && AllActivity(msgs[..|msgs| - 1]) && HandedLast(s, msgs[|msgs| - 1])
  }

  predicate HandedLast(s: State, m: Msg) {
    match m
    case Activity => false
    case Done(vault) => vault == s.vault && s.caller == Some(vault)
    case WorkerLost => s.caller.None?
  }

  lemma HandedOneMore(s: State, msgs: seq<Msg>, s': State, m: Msg)
    requires s.inflight && Handed(s, msgs)
    requires if m.Activity? then s'.inflight && s'.caller.None? else !s'.inflight && HandedLast(s', m)
    ensures Handed(s', msgs + [m])
  {
    assert (msgs + [m])[..|msgs|] == msgs;
  }

  class SyncRuntime {
    var st: State
    var schedule: seq<Label>

    ghost predicate Valid()
      reads this
    {
      Inv(st)
    }

    constructor (vault: Vid, schedule: seq<Label>)
      ensures Valid() && Init(st) && st.vault == vault
    {
      st := State(vault, Some(vault), Absent, [], false, [], 0, 0, 0);
      this.schedule := schedule;
    }

    method Step(l: Label)
      requires Valid() && Next(st, l).Some?
      modifies this`st
      ensures Valid() && Some(st) == Next(old(st), l)
    {
      StepKeeps(st, l);
      st := Next(st, l).value;
    }

    // The worker runs on.
    method Others()
      requires Valid()
      modifies this
      ensures Valid() && st.inflight == old(st.inflight) && st.drained == old(st.drained)
      ensures st.caller == old(st.caller) && st.vault == old(st.vault)
      ensures |schedule| + |st.queue| <= old(|schedule| + |st.queue|)
    {
      var n: int := *;
      while 0 < n && schedule != []
        invariant Valid() && st.inflight == old(st.inflight) && st.drained == old(st.drained)
        invariant st.caller == old(st.caller) && st.vault == old(st.vault)
        invariant |schedule| + |st.queue| <= old(|schedule| + |st.queue|)
        decreases n
      {
        var l := schedule[0];
        schedule := schedule[1..];
        if (l.Ping? || l.Finish? || l.Panic?) && Next(st, l).Some? {
          Step(l);
        }
        n := n - 1;
      }
    }

    method IsSyncing() returns (r: bool)
      ensures r <==> st.inflight
    {
      return st.inflight;
    }

    // The caller gives up its vault. Only when no sync is in flight.
    method Start()
      requires Valid() && st.caller.Some? && !st.inflight
      modifies this`st
      ensures Valid() && st.inflight && st.caller.None? && st.drained == old(st.drained)
    {
      Step(Label.Start);
    }

    // A message, or the loss of the worker; an empty channel is the caller's to check.
    method TryRecv() returns (m: Msg)
      requires Valid() && st.inflight && (st.queue != [] || st.worker.Ended?)
      modifies this`st
      ensures Valid() && st.drained == old(st.drained) + [m] && st.inflight == m.Activity?
      ensures if m.Activity? then st.caller.None? else HandedLast(st, m)
      ensures |st.queue| < |old(st.queue)| || !st.inflight
      ensures |st.queue| <= |old(st.queue)|
    {
      m := if st.queue != [] then st.queue[0] else WorkerLost;
      if st.queue != [] {
        QueueTail(st.queue, st.vault);
      }
      Step(Recv);
    }

    /** All that is pending, up to and including the terminal message: exactly what was added to
        the history. If one came the sync is over, and after a Done the caller has its vault. */
    method Drain() returns (msgs: seq<Msg>)
      requires Valid()
      modifies this
      ensures Valid() && st.drained == old(st.drained) + msgs
      ensures if old(st.inflight) then Handed(st, msgs) else msgs == [] && st == old(st)
    {
      msgs := [];
      while st.inflight
        invariant Valid() && st.drained == old(st.drained) + msgs
        invariant if old(st.inflight) then Handed(st, msgs) else msgs == [] && st == old(st)
        decreases |schedule| + |st.queue|, if st.inflight then 1 else 0
      {
        Others();
        if st.queue == [] && !st.worker.Ended? {
          break;
        }
        ghost var before := st;
        var got := TryRecv();
        HandedOneMore(before, msgs, st, got);
        msgs := msgs + [got];
      }
    }
  }
}
