/** Secrets on the clipboard: each copy arms a timer that reads, compares and maybe clears; the
    sink keeps at most eight of the guards, and dropping a guard cancels its timer. The desktop's
    other programs write whenever they like. */
module Clipboard {
  import opened Wrappers

  const MAX_GUARDS := 8

  type Tid = nat

  // Armed waits for the deadline or a cancel; Due is past it; Matched has read its own payload.
  datatype Stage = Armed | Cancelled | Due | Matched | Done
  datatype Timer = Timer(payload: string, stage: Stage)

  // Where the sink is in a copy.
  datatype Pc = Idle | Wrote(text: string) | Spawned(id: Tid)

  datatype State = State(content: string, timers: seq<Timer>, guards: seq<Tid>, pc: Pc, alive: bool)

  datatype Label =
    // the sink
    | Write(text: string) | SpawnFails | Spawn | Evict | Keep | DropSink
    // a timer; `ok` is false when the backend call fails
    | Fire(id: Tid) | Read(id: Tid, ok: bool) | Clear(id: Tid, ok: bool)
    // another program
    | OtherWrite(text: string)

  function StageIn(timers: seq<Timer>, id: Tid): Option<Stage> {
    if id < |timers| then Some(timers[id].stage) else None
  }

  function StageOf(s: State, id: Tid): Option<Stage> {
    StageIn(s.timers, id)
  }

  function WithStage(s: State, id: Tid, stage: Stage): State
    requires id < |s.timers|
  {
    s.(timers := s.timers[id := s.timers[id].(stage := stage)])
  }

  // The cancel reaches only a timer still waiting.
  function Dropped(s: State, id: Tid): State {
    if StageOf(s, id) == Some(Armed) then WithStage(s, id, Cancelled) else s
  }

  function DroppedAll(s: State, ids: seq<Tid>): State
    decreases |ids|
  {
    if ids == [] then s else DroppedAll(Dropped(s, ids[0]), ids[1..])
  }

  function Held(s: State): seq<Tid> {
    s.guards + if s.pc.Spawned? then [s.pc.id] else []
  }

  function Next(s: State, l: Label): Option<State> {
    match l
    case Write(text) => if s.alive && s.pc.Idle? then Some(s.(content := text, pc := Wrote(text))) else None
    case SpawnFails => if s.pc.Wrote? then Some(s.(pc := Idle)) else None
    case Spawn =>
      if s.pc.Wrote?
      then Some(s.(timers := s.timers + [Timer(s.pc.text, Armed)], pc := Spawned(|s.timers|))) else None
    case Evict =>
      if s.pc.Spawned? && |s.guards| >= MAX_GUARDS
      then Some(Dropped(s, s.guards[0]).(guards := s.guards[1..])) else None
    case Keep =>
      if s.pc.Spawned? && |s.guards| < MAX_GUARDS
      then Some(s.(guards := s.guards + [s.pc.id], pc := Idle)) else None
    case DropSink => if s.pc.Idle? then Some(DroppedAll(s, s.guards).(guards := [], alive := false)) else None
    case Fire(id) => if StageOf(s, id) == Some(Armed) then Some(WithStage(s, id, Due)) else None
    case Read(id, ok) =>
      if StageOf(s, id) == Some(Due)
      then Some(WithStage(s, id, if ok && s.content == s.timers[id].payload then Matched else Done)) else None
    case Clear(id, ok) =>
      if StageOf(s, id) == Some(Matched)
      then Some(WithStage(s, id, Done).(content := if ok then "" else s.content)) else None
    case OtherWrite(text) => Some(s.(content := text))
  }

  ghost predicate Init(s: State) {
    s.timers == [] && s.guards == [] && s.pc.Idle? && s.alive
  }

  // Copies that have their guard: all those with a timer, but the one under way.
  function Kept(s: State): nat {
    if s.pc.Spawned? && |s.timers| > 0 then |s.timers| - 1 else |s.timers|
  }

  // The guards are those of the newest copies, in order; nothing newer was ever cancelled, and
  // every waiting timer is still guarded.
  ghost predicate Inv(s: State) {
    && (s.pc.Spawned? ==> |s.timers| > 0 && s.pc.id == |s.timers| - 1)
    && (!s.alive ==> s.pc.Idle?)
    && |s.guards| <= MAX_GUARDS && |s.guards| <= Kept(s)
    && (s.alive && |s.guards| < Kept(s) ==> |s.guards| >= MAX_GUARDS - if s.pc.Spawned? then 1 else 0)
    && (forall k :: 0 <= k < |s.guards| ==> s.guards[k] == Kept(s) - |s.guards| + k)
    && (s.alive ==> forall id: Tid :: StageIn(s.timers, id) == Some(Cancelled) ==> id + MAX_GUARDS < |s.timers|)
    && (forall id: Tid :: StageIn(s.timers, id) == Some(Armed) ==>
          id in s.guards || (s.pc.Spawned? && id == s.pc.id))
  }

  lemma {:induction false} DroppedAllStages(s: State, ids: seq<Tid>, id: Tid)
    ensures var s' := DroppedAll(s, ids);
            && |s'.timers| == |s.timers| && s'.content == s.content && s'.guards == s.guards && s'.pc == s.pc
            && StageOf(s', id) == (if StageOf(s, id) == Some(Armed) && id in ids then Some(Cancelled) else StageOf(s, id))
            && (id < |s.timers| ==> s'.timers[id].payload == s.timers[id].payload)
    decreases |ids|
  {
    if ids != [] {
      DroppedAllStages(Dropped(s, ids[0]), ids[1..], id);
    }
  }

  lemma StepKeeps(s: State, l: Label)
    requires Inv(s) && Next(s, l).Some?
    ensures Inv(Next(s, l).value)
  {
    match l
    case Write(_) =>
    case SpawnFails =>
    case Spawn => SpawnKeeps(s);
    case Evict => EvictKeeps(s);
    case Keep =>
    case DropSink => DropKeeps(s);
    case Fire(id) => StageKeeps(s, id, Due);
    case Read(id, ok) => StageKeeps(s, id, if ok && s.content == s.timers[id].payload then Matched else Done);
    case Clear(id, ok) => StageKeeps(s, id, Done);
    case OtherWrite(_) =>
  }

  lemma SpawnKeeps(s: State)
    requires Inv(s) && Next(s, Spawn).Some?
    ensures Inv(Next(s, Spawn).value)
  {
    var s' := Next(s, Spawn).value;
    assert forall id: Tid :: id < |s.timers| ==> StageIn(s'.timers, id) == StageIn(s.timers, id);
  }

  lemma EvictKeeps(s: State)
    requires Inv(s) && Next(s, Evict).Some?
    ensures Inv(Next(s, Evict).value)
  {
    var s' := Next(s, Evict).value;
    assert s.guards == [s.guards[0]] + s'.guards;
    assert forall id: Tid :: id != s.guards[0] ==> StageIn(s'.timers, id) == StageIn(s.timers, id);
  }

  lemma DropKeeps(s: State)
    requires Inv(s) && Next(s, DropSink).Some?
    ensures Inv(Next(s, DropSink).value)
  {
    var s' := Next(s, DropSink).value;
    forall id: Tid
      ensures StageIn(s'.timers, id) != Some(Armed)
    {
      DroppedAllStages(s, s.guards, id);
    }
    DroppedAllStages(s, s.guards, 0);
  }

  lemma StageKeeps(s: State, id: Tid, stage: Stage)
    requires Inv(s) && id < |s.timers| && stage in {Due, Matched, Done}
    ensures Inv(WithStage(s, id, stage))
  {
    var s' := WithStage(s, id, stage);
    assert forall k: Tid :: k != id ==> StageIn(s'.timers, k) == StageIn(s.timers, k);
  }

  ghost predicate Moved(s: State, l: Label, s': State) {
    Next(s, l) == Some(s')
  }

  ghost predicate Run(states: seq<State>, labels: seq<Label>) {
    && |states| == |labels| + 1
    && Init(states[0])
    && forall i :: 0 <= i < |labels| ==> Moved(states[i], labels[i], states[i + 1])
  }

  lemma {:induction false} RunOk(states: seq<State>, labels: seq<Label>, j: nat)
    requires Run(states, labels) && j < |states|
    ensures Inv(states[j])
  {
    if j > 0 {
      RunOk(states, labels, j - 1);
      assert Moved(states[j - 1], labels[j - 1], states[j]);
      StepKeeps(states[j - 1], labels[j - 1]);
    }
  }

  function ArmedTimers(s: State): set<Tid> {
    set id: Tid | id < |s.timers| && s.timers[id].stage.Armed?
  }

  /** While the sink lives, the newest eight copies are never cancelled, the newest of all
      included: each still waits or has fired. And no more than nine timers ever wait. */
  lemma NewestCopiesAreCleared(states: seq<State>, labels: seq<Label>, j: nat)
    requires Run(states, labels) && j < |states|
    ensures var s := states[j];
            && (s.alive ==> forall id: Tid :: |s.timers| <= id + MAX_GUARDS && id < |s.timers| ==>
                  StageOf(s, id) != Some(Cancelled))
            && |ArmedTimers(s)| <= MAX_GUARDS + 1
            && (s.pc.Idle? ==> |ArmedTimers(s)| <= MAX_GUARDS)
  {
    RunOk(states, labels, j);
    var s := states[j];
    SetOfSize(Held(s));
    forall id | id in ArmedTimers(s)
      ensures id in Held(s)
    {
      assert StageOf(s, id) == Some(Armed);
    }
    var held := set id: Tid | id in Held(s);
    assert ArmedTimers(s) <= held;
    SubsetSize(ArmedTimers(s), held);
  }

  lemma {:induction false} SetOfSize(ids: seq<Tid>)
    ensures |set id: Tid | id in ids| <= |ids|
  {
    if ids != [] {
      SetOfSize(ids[1..]);
      assert (set id: Tid | id in ids) == (set id: Tid | id in ids[1..]) + {ids[0]};
    } else {
      assert (set id: Tid | id in ids) == {};
    }
  }

  lemma SubsetSize(a: set<Tid>, b: set<Tid>)
    requires a <= b
    ensures |a| <= |b|
  {
    assert b == a + (b - a);
  }

  /** The eviction cancels exactly the copy that eight newer ones have followed. */
  lemma EvictedIsNinth(s: State)
    requires Inv(s) && s.alive && Next(s, Evict).Some?
    ensures s.guards[0] + MAX_GUARDS + 1 == |s.timers|
  {
  }

  /* ------------------------------ Compare and clear ------------------------------ */

  // Step `k` is the read in which timer `id` found its own payload.
  ghost predicate OwnRead(states: seq<State>, labels: seq<Label>, k: nat, id: Tid)
    requires Run(states, labels)
  {
    && k < |labels| && labels[k] == Read(id, true)
    && id < |states[k].timers| && states[k].content == states[k].timers[id].payload
  }

  lemma PayloadStays(s: State, l: Label, id: Tid)
    requires Next(s, l).Some? && id < |s.timers|
    ensures id < |Next(s, l).value.timers| && Next(s, l).value.timers[id].payload == s.timers[id].payload
  {
    if l.DropSink? {
      DroppedAllStages(s, s.guards, id);
    }
  }

  lemma StagesElsewhere(s: State, l: Label, id: Tid)
    requires Next(s, l).Some? && StageOf(Next(s, l).value, id) == Some(Matched)
    ensures StageOf(s, id) == Some(Matched)
            || (l == Read(id, true) && id < |s.timers| && s.content == s.timers[id].payload)
  {
    if l.DropSink? {
      DroppedAllStages(s, s.guards, id);
    }
  }

  lemma {:induction false} MatchedHasRead(states: seq<State>, labels: seq<Label>, j: nat, id: Tid) returns (k: nat)
    requires Run(states, labels) && j < |states| && StageOf(states[j], id) == Some(Matched)
    ensures k < j && OwnRead(states, labels, k, id) && states[k].timers[id].payload == states[j].timers[id].payload
    ensures forall m :: k < m <= j ==> StageOf(states[m], id) == Some(Matched)
  {
    assert Moved(states[j - 1], labels[j - 1], states[j]);
    StagesElsewhere(states[j - 1], labels[j - 1], id);
    if StageOf(states[j - 1], id) == Some(Matched) {
      k := MatchedHasRead(states, labels, j - 1, id);
    } else {
      k := j - 1;
    }
    PayloadStays(states[j - 1], labels[j - 1], id);
  }

  /** A timer clears only after it has itself read its own payload, and clears once. */
  lemma ClearsOnlyAfterOwnRead(states: seq<State>, labels: seq<Label>, j: nat, id: Tid) returns (k: nat)
    requires Run(states, labels) && j < |labels| && labels[j].Clear? && labels[j].id == id
    ensures k < j && OwnRead(states, labels, k, id)
    ensures forall m :: k < m < j ==> labels[m] != Clear(id, true) && labels[m] != Clear(id, false)
  {
    assert Moved(states[j], labels[j], states[j + 1]);
    k := MatchedHasRead(states, labels, j, id);
    forall m | k < m < j
      ensures labels[m] != Clear(id, true) && labels[m] != Clear(id, false)
    {
      assert Moved(states[m], labels[m], states[m + 1]);
      assert StageOf(states[m + 1], id) == Some(Matched);
    }
  }

  function Written(l: Label): Option<string> {
    match l
    case Write(text) => Some(text)
    case OtherWrite(text) => Some(text)
    case Clear(_, ok) => if ok then Some("") else None
    case _ => None
  }

  // What the last write among the labels leaves, if any writes.
  function LastWrite(labels: seq<Label>): Option<string>
    decreases |labels|
  {
    if labels == [] then None
    else if Written(labels[|labels| - 1]).Some? then Written(labels[|labels| - 1])
    else LastWrite(labels[..|labels| - 1])
  }

  function Else(text: Option<string>, otherwise: string): string {
    if text.Some? then text.value else otherwise
  }

  lemma ContentStep(s: State, l: Label, s': State)
    requires Moved(s, l, s')
    ensures s'.content == Else(Written(l), s.content)
  {
    if l.DropSink? {
      DroppedAllStages(s, s.guards, 0);
    }
  }

  // One more step after the labels `before`.
  lemma ContentMore(s: State, before: seq<Label>, l: Label, s': State, otherwise: string)
    requires Moved(s, l, s') && s.content == Else(LastWrite(before), otherwise)
    ensures s'.content == Else(LastWrite(before + [l]), otherwise)
  {
    assert (before + [l])[..|before|] == before;
    ContentStep(s, l, s');
  }

  lemma {:induction false} ContentIsLastWrite(states: seq<State>, labels: seq<Label>, k: nat, j: nat)
    requires Run(states, labels) && k <= j < |states|
    ensures states[j].content == Else(LastWrite(labels[k..j]), states[k].content)
    decreases j - k
  {
    if j == k {
      assert labels[k..j] == [];
    } else {
      var before := labels[k..j - 1];
      ContentIsLastWrite(states, labels, k, j - 1);
      assert labels[k..j] == before + [labels[j - 1]];
      ContentMore(states[j - 1], before, labels[j - 1], states[j], states[k].content);
    }
  }

  /** A clear takes away the timer's own payload if and only if no write came between its read
      and its clear, or the last of them wrote the same text. */
  lemma ClearIsSafeExactly(states: seq<State>, labels: seq<Label>, j: nat, id: Tid) returns (k: nat)
    requires Run(states, labels) && j < |labels| && labels[j] == Clear(id, true)
    ensures k < j && OwnRead(states, labels, k, id)
    ensures var payload := states[k].timers[id].payload;
            states[j].content == payload <==> LastWrite(labels[k + 1..j]) in {None, Some(payload)}
  {
    k := ClearsOnlyAfterOwnRead(states, labels, j, id);
    assert Moved(states[k], labels[k], states[k + 1]);
    ContentStep(states[k], labels[k], states[k + 1]);
    ContentIsLastWrite(states, labels, k + 1, j);
  }

  const RACE: seq<Label> := [Write("pw"), Spawn, Keep, Fire(0), Read(0, true), OtherWrite("note"), Clear(0, true)]

  function RaceState(k: nat): State
    requires k <= |RACE|
  {
    var timer := (stage: Stage) => [Timer("pw", stage)];
    match k
    case 0 => State("", [], [], Idle, true)
    case 1 => State("pw", [], [], Wrote("pw"), true)
    case 2 => State("pw", timer(Armed), [], Spawned(0), true)
    case 3 => State("pw", timer(Armed), [0], Idle, true)
    case 4 => State("pw", timer(Due), [0], Idle, true)
    case 5 => State("pw", timer(Matched), [0], Idle, true)
    case 6 => State("note", timer(Matched), [0], Idle, true)
    case _ => State("", timer(Done), [0], Idle, true)
  }

  /** The race is real: another program's text, copied between the read and the clear, is lost. */
  lemma AnothersTextCanBeCleared()
    ensures var states := seq(8, k requires 0 <= k < 8 => RaceState(k));
            Run(states, RACE) && states[6].content == "note" && states[7].content == ""
  {
    forall k | 0 <= k < 7
      ensures Moved(RaceState(k), RACE[k], RaceState(k + 1))
    {
      RaceStep(k);
    }
  }

  lemma RaceStep(k: nat)
    requires k < 7
    ensures Moved(RaceState(k), RACE[k], RaceState(k + 1))
  {
    var s, s' := RaceState(k), Next(RaceState(k), RACE[k]);
    assert s'.Some?;
    assert s'.value.timers == RaceState(k + 1).timers && s'.value.guards == RaceState(k + 1).guards;
  }

  /* ------------------------------ A timer that is not armed ------------------------------ */

  /** What a copy whose timer never started leaves is there later if and only if nothing was written
      since, or the last thing written is the same text. */
  lemma FailedSpawnLeavesText(states: seq<State>, labels: seq<Label>, k: nat, j: nat)
    requires Run(states, labels) && k < j < |states| && labels[k].SpawnFails?
    ensures states[j].content == states[k].content
            <==> LastWrite(labels[k + 1..j]) in {None, Some(states[k].content)}
  {
    assert Moved(states[k], labels[k], states[k + 1]);
    ContentStep(states[k], labels[k], states[k + 1]);
    ContentIsLastWrite(states, labels, k + 1, j);
  }

  /** And the first clear that takes it away, if nobody has copied since, is of a timer that had
      already found its own payload before, or that was armed for the very same text. */
  lemma ClearedAfterFailedSpawn(states: seq<State>, labels: seq<Label>, k: nat, j: nat, id: Tid)
    requires Run(states, labels) && k < j < |labels| && labels[k].SpawnFails? && labels[j] == Clear(id, true)
    requires LastWrite(labels[k + 1..j]) == None
    ensures StageOf(states[k], id) == Some(Matched)
            || (id < |states[j].timers| && states[j].timers[id].payload == states[k].content)
  {
    assert Moved(states[j], labels[j], states[j + 1]);
    var read := MatchedHasRead(states, labels, j, id);
    if read < k {
      assert StageOf(states[k], id) == Some(Matched);
    } else {
      FailedSpawnLeavesText(states, labels, k, j);
      NoWriteInPrefix(labels[k + 1..j], read - k - 1);
      assert labels[k + 1..j][..read - k - 1] == labels[k + 1..read];
      ContentIsLastWrite(states, labels, k + 1, read);
      assert Moved(states[k], labels[k], states[k + 1]);
      ContentStep(states[k], labels[k], states[k + 1]);
    }
  }

  lemma {:induction false} NoWriteInPrefix(labels: seq<Label>, n: nat)
    requires LastWrite(labels) == None && n <= |labels|
    ensures LastWrite(labels[..n]) == None
    decreases |labels|
  {
    if n < |labels| {
      NoWriteInPrefix(labels[..|labels| - 1], n);
      assert labels[..|labels| - 1][..n] == labels[..n];
    } else {
      assert labels[..n] == labels;
    }
  }

  /** Such a run: the password is on the clipboard and there is no timer. */
  lemma FailedSpawnRun()
    ensures var states := [RaceState(0), RaceState(1), RaceState(1).(pc := Idle)];
            && Run(states, [Write("pw"), SpawnFails])
            && states[2].content == "pw" && states[2].timers == []
  {
  }

  /* ------------------------------ The sink ------------------------------ */

  function Replay(s: State, trace: seq<Label>): Option<State>
    decreases |trace|
  {
    if trace == [] then Some(s)
    else
      var before := Replay(s, trace[..|trace| - 1]);
      if before.None? then None else Next(before.value, trace[|trace| - 1])
  }

  // A replay is a run of the machine.
  lemma {:induction false} ReplayIsRun(s: State, trace: seq<Label>) returns (states: seq<State>)
    requires Init(s) && Replay(s, trace).Some?
    ensures Run(states, trace) && states[0] == s && states[|trace|] == Replay(s, trace).value
    decreases |trace|
  {
    if trace == [] {
      states := [s];
    } else {
      var n := |trace| - 1;
      var before := ReplayIsRun(s, trace[..n]);
      states := before + [Replay(s, trace).value];
      forall i | 0 <= i < |trace|
        ensures Moved(states[i], trace[i], states[i + 1])
      {
        assert i < n ==> Moved(before[i], trace[..n][i], before[i + 1]);
      }
    }
  }

  lemma {:induction false} ContentOfReplay(s: State, before: seq<Label>, trace: seq<Label>)
    requires before <= trace && Replay(s, before).Some? && Replay(s, trace).Some?
    ensures Replay(s, trace).value.content == Else(LastWrite(trace[|before|..]), Replay(s, before).value.content)
    decreases |trace|
  {
    if trace == before {
      assert trace[|before|..] == [];
    } else {
      var n := |trace| - 1;
      ContentOfReplay(s, before, trace[..n]);
      assert trace[|before|..] == trace[..n][|before|..] + [trace[n]];
      ContentMore(Replay(s, trace[..n]).value, trace[..n][|before|..], trace[n], Replay(s, trace).value,
                  Replay(s, before).value.content);
    }
  }

  predicate WritesOf(labels: seq<Label>, texts: set<string>) {
    forall l :: l in labels && l.Write? ==> l.text in texts
  }

  datatype SecurityError = ClipboardUnavailable | ClipboardIo | EventSourceStart

  predicate SamePayloads(a: seq<Timer>, b: seq<Timer>) {
    |a| == |b| && forall id :: 0 <= id < |a| ==> a[id].payload == b[id].payload
  }

  // A write with only steps of others around it.
  lemma OneWrite(start: seq<Label>, before: seq<Label>, after: seq<Label>, text: string)
    requires start <= before && before + [Write(text)] <= after
    requires WritesOf(before[|start|..], {}) && WritesOf(after[|before| + 1..], {})
    ensures start <= after && WritesOf(after[|start|..], {text}) && Write(text) in after[|start|..]
  {
    assert after[|start|..] == before[|start|..] + [Write(text)] + after[|before| + 1..];
  }

  // The sink is where it was, and so are the timers' texts.
  predicate Undisturbed(s: State, s': State) {
    s'.guards == s.guards && s'.pc == s.pc && s'.alive == s.alive && SamePayloads(s.timers, s'.timers)
  }

  /** The desktop as the sink sees it; `schedule` is what the others will do. */
  class SystemClipboard {
    var st: State
    var schedule: seq<Label>
    ghost const start: State
    ghost var trace: seq<Label>

    // The state is what the trace of all steps so far leads to.
    ghost predicate Valid()
      reads this
    {
      Inv(st) && Init(start) && Replay(start, trace) == Some(st)
    }

    constructor (content: string, schedule: seq<Label>)
      ensures Valid() && st == State(content, [], [], Idle, true) && trace == []
    {
      st, this.schedule := State(content, [], [], Idle, true), schedule;
      start, trace := State(content, [], [], Idle, true), [];
    }

    // The steps since the trace was `before`.
    ghost function Since(before: seq<Label>): seq<Label>
      reads this
      requires before <= trace
    {
      trace[|before|..]
    }

    method Step(l: Label)
      requires Valid() && Next(st, l).Some?
      modifies this`st, this`trace
      ensures Valid() && Some(st) == Next(old(st), l) && trace == old(trace) + [l]
      ensures st.content == Else(Written(l), old(st.content))
    {
      StepKeeps(st, l);
      ContentStep(st, l, Next(st, l).value);
      assert (trace + [l])[..|trace|] == trace;
      st := Next(st, l).value;
      trace := trace + [l];
    }

    // Timers and other programs run on.
    method Others()
      requires Valid()
      modifies this
      ensures Valid() && Undisturbed(old(st), st)
      ensures old(trace) <= trace && WritesOf(Since(old(trace)), {})
    {
      var n: int := *;
      while 0 < n && schedule != []
        invariant Valid() && Undisturbed(old(st), st)
        invariant old(trace) <= trace && WritesOf(Since(old(trace)), {})
        decreases n
      {
        var l := schedule[0];
        schedule := schedule[1..];
        if (l.Fire? || l.Read? || l.Clear? || l.OtherWrite?) && Next(st, l).Some? {
          Step(l);
        }
        n := n - 1;
      }
    }

    // Opens the clipboard and writes to it.
    method SetText(text: string) returns (r: Result<(), SecurityError>)
      requires Valid() && st.alive && st.pc.Idle?
      modifies this
      ensures Valid() && Undisturbed(old(st).(pc := if r.Ok? then Wrote(text) else Idle), st)
      ensures old(trace) <= trace && WritesOf(Since(old(trace)), {text})
      ensures r.Ok? <==> Write(text) in Since(old(trace))
      ensures r.Err? ==> r.error in {ClipboardUnavailable, ClipboardIo}
    {
      Others();
      if * {
        return Err(ClipboardUnavailable);
      }
      if * {
        return Err(ClipboardIo);
      }
      ghost var before := trace;
      Step(Write(text));
      Others();
      OneWrite(old(trace), before, trace, text);
      return Ok(());
    }

    /** Writes the text and arms its timer. An error leaves no timer. If and only if it was the
        timer that failed to start, the text was written all the same, and the clipboard has it
        unless another program or timer wrote since. */
    method CopyWithAutoclear(text: string) returns (r: Result<Tid, SecurityError>)
      requires Valid() && st.alive && st.pc.Idle?
      modifies this
      ensures Valid() && st.alive && st.guards == old(st.guards)
      ensures r.Ok? ==>
                && r.value == |old(st.timers)| && st.pc == Spawned(r.value)
                && |st.timers| == r.value + 1 && st.timers[r.value].payload == text
      ensures r.Err? ==> st.pc.Idle? && SamePayloads(old(st.timers), st.timers)
      ensures old(trace) <= trace && WritesOf(Since(old(trace)), {text})
      ensures Write(text) in Since(old(trace)) <==> r.Ok? || r.error == EventSourceStart
      ensures st.content == Else(LastWrite(Since(old(trace))), old(st.content))
    {
      ghost var before := trace;
      var written := SetText(text);
      if written.Err? {
        r := Err(written.error);
      } else if * {
        Step(SpawnFails);
        r := Err(EventSourceStart);
      } else {
        Step(Spawn);
        r := Ok(st.pc.id);
      }
      ContentOfReplay(start, before, trace);
    }

    // Keeps the guard of the copy just made; the oldest goes if there are eight.
    method KeepGuard()
      requires Valid() && st.alive && st.pc.Spawned?
      modifies this
      ensures Valid() && st.alive && st.pc.Idle? && SamePayloads(old(st.timers), st.timers)
      ensures st.guards ==
                (if |old(st.guards)| >= MAX_GUARDS then old(st.guards)[1..] else old(st.guards)) + [old(st.pc.id)]
      ensures old(trace) <= trace && WritesOf(Since(old(trace)), {})
    {
      Others();
      if |st.guards| >= MAX_GUARDS {
        Step(Evict);
        Others();
      }
      Step(Keep);
    }

    /** Ok: the newest timer is this copy's, uncancelled, and its guard the last of at most
        eight; the oldest was dropped only to make room. Err: no guard is lost. */
    method Copy(text: string) returns (r: Result<(), SecurityError>)
      requires Valid() && st.alive && st.pc.Idle?
      modifies this
      ensures Valid() && st.alive && st.pc.Idle?
      ensures r.Ok? ==>
                && |st.timers| == |old(st.timers)| + 1
                && st.timers[|old(st.timers)|].payload == text && !st.timers[|old(st.timers)|].stage.Cancelled?
                && st.guards ==
                     (if |old(st.guards)| >= MAX_GUARDS then old(st.guards)[1..] else old(st.guards))
                     + [|old(st.timers)|]
      ensures r.Err? ==> SamePayloads(old(st.timers), st.timers) && st.guards == old(st.guards)
      ensures old(trace) <= trace && WritesOf(Since(old(trace)), {text})
      ensures Write(text) in Since(old(trace)) <==> r.Ok? || r.error == EventSourceStart
    {
      var guard := CopyWithAutoclear(text);
      if guard.Err? {
        return Err(guard.error);
      }
      KeepGuard();
      assert StageIn(st.timers, guard.value) != Some(Cancelled);
      return Ok(());
    }
  }
}
