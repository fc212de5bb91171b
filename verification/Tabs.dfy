/** The tab bar: Secrets, at most five pinned secrets, Settings; and which pin goes when a sixth
    comes. */
module Tabs {
  import opened Wrappers
  import opened Lists

  const MAX_PINS := 5

  datatype Tab = Secrets | Pinned(uuid: Uuid) | Settings
  datatype PinChange = PinAdded | PinAddedEvicting(victim: Uuid) | Unpinned

  // `activation` has the newest first. `events` is the history: every pinning and every
  // activation of a pinned tab, oldest first.
  datatype Bar = Bar(active: nat, pinned: seq<Uuid>, activation: seq<Uuid>, events: seq<Uuid>)

  function Count(b: Bar): nat {
    |b.pinned| + 2
  }

  function Resolve(b: Bar, index: nat): Option<Tab> {
    if index == 0 then Some(Secrets)
    else if index <= |b.pinned| then Some(Pinned(b.pinned[index - 1]))
    else if index == |b.pinned| + 1 then Some(Settings)
    else None
  }

  // When something last happened to a pin.
  function LastAt(events: seq<Uuid>, u: Uuid): (r: int)
    ensures -1 <= r < |events|
    ensures u in events <==> 0 <= r
    ensures 0 <= r ==> events[r] == u && u !in events[r + 1..]
    decreases |events|
  {
    if events == [] then -1
    else if events[|events| - 1] == u then |events| - 1
    else
      assert events == events[..|events| - 1] + [events[|events| - 1]];
      LastAt(events[..|events| - 1], u)
  }

  // Something happened to `u` after anything happened to the others.
  predicate Newer(events: seq<Uuid>, u: Uuid, others: seq<Uuid>) {
    u in events && forall v :: v in others ==> LastAt(events, v) < LastAt(events, u)
  }

  // The newest first.
  predicate ByRecency(activation: seq<Uuid>, events: seq<Uuid>)
    decreases |activation|
  {
    activation != [] ==> Newer(events, activation[0], activation[1..]) && ByRecency(activation[1..], events)
  }

  ghost predicate Inv(b: Bar) {
    && NoDuplicates(b.pinned) && NoDuplicates(b.activation)
    && (forall u :: u in b.pinned <==> u in b.activation)
    && |b.activation| == |b.pinned| <= MAX_PINS
    && b.active < Count(b)
    && ByRecency(b.activation, b.events)
  }

  /* ------------------------------ Operations ------------------------------ */

  function Restored(pins: seq<Uuid>): Bar {
    var kept := First(Firsts(pins), MAX_PINS);
    Bar(0, kept, Reversed(kept), kept)
  }

  // The active tab, if it is a pin, becomes the newest.
  function Recorded(b: Bar): Bar
    requires b.active < Count(b)
  {
    var tab := Resolve(b, b.active).value;
    if tab.Pinned?
    then b.(activation := [tab.uuid] + Without(b.activation, tab.uuid), events := b.events + [tab.uuid])
    else b
  }

  function Activated(b: Bar, tab: nat): Bar
    requires tab < Count(b)
  {
    Recorded(b.(active := tab))
  }

  function Clamped(b: Bar): Bar {
    if b.active > Count(b) - 1 then b.(active := Count(b) - 1) else b
  }

  function Removed(b: Bar, u: Uuid): Bar {
    b.(pinned := Without(b.pinned, u), activation := Without(b.activation, u))
  }

  function Added(b: Bar, u: Uuid): Bar {
    b.(pinned := b.pinned + [u], activation := [u] + b.activation, events := b.events + [u])
  }

  function Evicted(b: Bar): Bar {
    if |b.pinned| >= MAX_PINS && b.activation != [] then Removed(b, b.activation[|b.activation| - 1]) else b
  }

  function Toggled(b: Bar, u: Uuid): Bar {
    if u in b.pinned then Clamped(Removed(b, u)) else Clamped(Added(Evicted(b), u))
  }

  datatype Op = GoNext | GoPrev | JumpTo(n: nat) | Toggle(uuid: Uuid)

  function Step(b: Bar, op: Op): Bar
    requires b.active < Count(b)
  {
    match op
    case GoNext => Activated(b, if b.active + 1 == Count(b) then 0 else b.active + 1)
    case GoPrev => Activated(b, if b.active == 0 then Count(b) - 1 else b.active - 1)
    case JumpTo(n) => if 1 <= n <= Count(b) then Activated(b, n - 1) else b
    case Toggle(u) => Toggled(b, u)
  }

  /* ------------------------------ What every step keeps ------------------------------ */

  lemma LastAtSnoc(events: seq<Uuid>, u: Uuid, v: Uuid)
    ensures LastAt(events + [u], v) == if u == v then |events| else LastAt(events, v)
  {
    assert (events + [u])[..|events|] == events;
  }

  lemma {:induction false} WithoutByRecency(activation: seq<Uuid>, events: seq<Uuid>, u: Uuid)
    requires ByRecency(activation, events)
    ensures ByRecency(Without(activation, u), events)
    decreases |activation|
  {
    if activation != [] {
      var first, rest := activation[0], Without(activation[1..], u);
      WithoutByRecency(activation[1..], events, u);
      WithoutFacts(activation[1..], u);
      if first == u {
        assert Without(activation, u) == rest;
      } else {
        NewestFirst(first, rest, events);
        assert Without(activation, u) == [first] + rest;
      }
    }
  }

  lemma NewestFirst(first: Uuid, rest: seq<Uuid>, events: seq<Uuid>)
    requires Newer(events, first, rest) && ByRecency(rest, events)
    ensures ByRecency([first] + rest, events)
  {
    assert ([first] + rest)[1..] == rest;
  }

  // The order depends on the last events alone.
  lemma {:induction false} SameByRecency(activation: seq<Uuid>, events: seq<Uuid>, later: seq<Uuid>)
    requires ByRecency(activation, events)
    requires forall v :: v in activation ==> LastAt(later, v) == LastAt(events, v)
    ensures ByRecency(activation, later)
    decreases |activation|
  {
    if activation != [] {
      assert activation[0] in activation;
      SameByRecency(activation[1..], events, later);
    }
  }

  lemma NewestByRecency(activation: seq<Uuid>, events: seq<Uuid>, u: Uuid)
    requires ByRecency(activation, events) && u !in activation
    ensures ByRecency([u] + activation, events + [u])
  {
    forall v | v in activation
      ensures LastAt(events + [u], v) == LastAt(events, v) < |events|
    {
      LastAtSnoc(events, u, v);
    }
    SameByRecency(activation, events, events + [u]);
    LastAtSnoc(events, u, u);
    NewestFirst(u, activation, events + [u]);
  }

  lemma {:induction false} OldestIsLast(activation: seq<Uuid>, events: seq<Uuid>, p: Uuid)
    requires ByRecency(activation, events) && p in activation && p != activation[|activation| - 1]
    ensures LastAt(events, activation[|activation| - 1]) < LastAt(events, p)
    decreases |activation|
  {
    var last := activation[|activation| - 1];
    if p == activation[0] {
      assert last in activation[1..];
    } else {
      assert activation == [activation[0]] + activation[1..];
      OldestIsLast(activation[1..], events, p);
    }
  }

  lemma SizeWithout(s: seq<Uuid>, u: Uuid)
    requires NoDuplicates(s)
    ensures |Without(s, u)| == if u in s then |s| - 1 else |s|
  {
    WithoutFacts(s, u);
    WithoutLoses(s, u);
    if u in s {
      WithoutShrinks(s, u);
    }
  }

  // All but the place of the active tab.
  ghost predicate PinsOk(b: Bar) {
    && NoDuplicates(b.pinned) && NoDuplicates(b.activation)
    && (forall u :: u in b.pinned <==> u in b.activation)
    && |b.activation| == |b.pinned|
    && ByRecency(b.activation, b.events)
  }

  lemma RemovedOk(b: Bar, u: Uuid)
    requires PinsOk(b)
    ensures PinsOk(Removed(b, u)) && |Removed(b, u).pinned| == if u in b.pinned then |b.pinned| - 1 else |b.pinned|
  {
    WithoutFacts(b.pinned, u);
    WithoutFacts(b.activation, u);
    WithoutNoDuplicates(b.pinned, u);
    WithoutNoDuplicates(b.activation, u);
    SizeWithout(b.pinned, u);
    SizeWithout(b.activation, u);
    WithoutByRecency(b.activation, b.events, u);
  }

  lemma AddedOk(b: Bar, u: Uuid)
    requires PinsOk(b) && u !in b.pinned
    ensures PinsOk(Added(b, u))
  {
    NewestByRecency(b.activation, b.events, u);
  }

  lemma RecordedKeeps(b: Bar)
    requires Inv(b)
    ensures Inv(Recorded(b))
  {
    var tab := Resolve(b, b.active).value;
    if tab.Pinned? {
      var u := tab.uuid;
      assert u in b.pinned;
      WithoutFacts(b.activation, u);
      WithoutNoDuplicates(b.activation, u);
      SizeWithout(b.activation, u);
      WithoutByRecency(b.activation, b.events, u);
      NewestByRecency(Without(b.activation, u), b.events, u);
    }
  }

  lemma ToggledKeeps(b: Bar, u: Uuid)
    requires Inv(b)
    ensures Inv(Toggled(b, u))
  {
    if u in b.pinned {
      RemovedOk(b, u);
    } else {
      if |b.pinned| >= MAX_PINS {
        var victim := b.activation[|b.activation| - 1];
        assert victim in b.activation;
        RemovedOk(b, victim);
        WithoutFacts(b.pinned, victim);
      }
      AddedOk(Evicted(b), u);
    }
  }

  lemma ActivatedKeeps(b: Bar, tab: nat)
    requires Inv(b) && tab < Count(b)
    ensures Inv(Activated(b, tab))
  {
    RecordedKeeps(b.(active := tab));
  }

  lemma StepKeeps(b: Bar, op: Op)
    requires Inv(b)
    ensures Inv(Step(b, op))
  {
    match op
    case GoNext => ActivatedKeeps(b, if b.active + 1 == Count(b) then 0 else b.active + 1);
    case GoPrev => ActivatedKeeps(b, if b.active == 0 then Count(b) - 1 else b.active - 1);
    case JumpTo(n) =>
      if 1 <= n <= Count(b) {
        ActivatedKeeps(b, n - 1);
      }
    case Toggle(u) => ToggledKeeps(b, u);
  }

  lemma ReversedFacts(s: seq<Uuid>)
    requires NoDuplicates(s)
    ensures NoDuplicates(Reversed(s)) && forall u :: u in s <==> u in Reversed(s)
  {
    forall u
      ensures u in s <==> u in Reversed(s)
    {
      if u in s {
        var k :| 0 <= k < |s| && s[k] == u;
        assert Reversed(s)[|s| - 1 - k] == u;
      }
    }
  }

  lemma PlaceIsLastAt(s: seq<Uuid>, k: nat)
    requires NoDuplicates(s) && k < |s|
    ensures LastAt(s, s[k]) == k
  {
    assert s[k] in s;
    assert s[LastAt(s, s[k])] == s[k];
  }

  lemma {:induction false} ReversedByRecency(s: seq<Uuid>, k: nat)
    requires NoDuplicates(s) && k <= |s|
    ensures ByRecency(Reversed(s[..k]), s)
  {
    if 0 < k {
      ReversedByRecency(s, k - 1);
      assert s[..k][..k - 1] == s[..k - 1];
      PlaceIsLastAt(s, k - 1);
      forall v | v in Reversed(s[..k - 1])
        ensures LastAt(s, v) < k - 1
      {
        var i :| 0 <= i < k - 1 && Reversed(s[..k - 1])[i] == v;
        PlaceIsLastAt(s, k - 2 - i);
      }
      assert Reversed(s[..k])[1..] == Reversed(s[..k - 1]);
    }
  }

  lemma RestoredOk(pins: seq<Uuid>)
    ensures Inv(Restored(pins))
  {
    FirstsFacts(pins);
    var kept := First(Firsts(pins), MAX_PINS);
    assert NoDuplicates(kept);
    ReversedFacts(kept);
    ReversedByRecency(kept, |kept|);
    assert kept[..|kept|] == kept;
  }

  function After(b: Bar, ops: seq<Op>): Bar
    requires Inv(b)
    ensures Inv(After(b, ops))
    decreases |ops|
  {
    if ops == [] then b
    else
      StepKeeps(After(b, ops[..|ops| - 1]), ops[|ops| - 1]);
      Step(After(b, ops[..|ops| - 1]), ops[|ops| - 1])
  }

  lemma SameMultiset(a: seq<Uuid>, b: seq<Uuid>)
    requires NoDuplicates(a) && NoDuplicates(b) && forall u :: u in a <==> u in b
    ensures multiset(a) == multiset(b)
  {
    forall u
      ensures multiset(a)[u] == multiset(b)[u]
    {
      OnceEach(a, u);
      OnceEach(b, u);
    }
  }

  lemma {:induction false} OnceEach(s: seq<Uuid>, u: Uuid)
    requires NoDuplicates(s)
    ensures multiset(s)[u] == if u in s then 1 else 0
  {
    if s != [] {
      OnceEach(s[1..], u);
      assert s == [s[0]] + s[1..] && s[0] !in s[1..];
    }
  }

  /** Over every run, from any saved list: the activation order is a permutation of the pins
      without duplicates, there are at most five, and the active index names a tab. */
  lemma BarStaysOk(pins: seq<Uuid>, ops: seq<Op>)
    ensures Inv(Restored(pins))
    ensures var b := After(Restored(pins), ops);
            && multiset(b.activation) == multiset(b.pinned) && NoDuplicates(b.pinned)
            && |b.pinned| <= MAX_PINS && Resolve(b, b.active).Some?
  {
    RestoredOk(pins);
    var b := After(Restored(pins), ops);
    SameMultiset(b.activation, b.pinned);
  }

  /** The pin evicted for a sixth is the one whose last pinning or activation, in the whole
      history, is the oldest; every other pin stays, in its place. */
  lemma OldestIsEvicted(b: Bar, u: Uuid) returns (victim: Uuid)
    requires Inv(b) && u !in b.pinned && |b.pinned| == MAX_PINS
    ensures victim in b.pinned && Toggled(b, u).pinned == Without(b.pinned, victim) + [u]
    ensures forall p :: p in b.pinned && p != victim ==> LastAt(b.events, victim) < LastAt(b.events, p)
  {
    victim := b.activation[|b.activation| - 1];
    assert victim in b.activation;
    forall p | p in b.pinned && p != victim
      ensures LastAt(b.events, victim) < LastAt(b.events, p)
    {
      OldestIsLast(b.activation, b.events, p);
    }
  }

  lemma LastIsNotFirst(s: seq<Uuid>, u: Uuid)
    requires NoDuplicates(s) && 2 <= |s| && s[0] == u
    ensures s[|s| - 1] != u
  {
  }

  /** A pin just made is never the next to go, as long as there is another. */
  lemma NewPinIsSafe(b: Bar, u: Uuid, v: Uuid)
    requires Inv(b) && u !in b.pinned && |b.pinned| > 0 && v != u
    ensures u in Toggled(Toggled(b, u), v).pinned
  {
    ToggledKeeps(b, u);
    ToggleAdds(b, u);
    NewestIsSafe(Toggled(b, u), u, v);
  }

  lemma NewestIsSafe(c: Bar, u: Uuid, v: Uuid)
    requires Inv(c) && u in c.pinned && 2 <= |c.activation| && c.activation[0] == u && v != u
    ensures u in Toggled(c, v).pinned
  {
    LastIsNotFirst(c.activation, u);
    ToggledHas(c, u, v);
  }

  lemma ToggledHas(c: Bar, u: Uuid, v: Uuid)
    requires u in c.pinned && c.activation != [] && c.activation[|c.activation| - 1] != u && v != u
    ensures u in Toggled(c, v).pinned
  {
    WithoutFacts(c.pinned, v);
    WithoutFacts(c.pinned, c.activation[|c.activation| - 1]);
  }

  lemma ToggleAdds(b: Bar, u: Uuid)
    requires Inv(b) && u !in b.pinned && |b.pinned| > 0
    ensures var c := Toggled(b, u);
            u in c.pinned && 2 <= |c.activation| && c.activation[0] == u
  {
    if |b.pinned| >= MAX_PINS {
      SizeWithout(b.activation, b.activation[|b.activation| - 1]);
    }
  }

  /** Next and previous undo each other. */
  lemma NextThenPrev(b: Bar)
    requires Inv(b)
    ensures Step(Step(b, GoNext), GoPrev).active == b.active
    ensures Step(Step(b, GoPrev), GoNext).active == b.active
  {
  }

  lemma {:induction false} WithoutAt(s: seq<Uuid>, p: nat)
    requires NoDuplicates(s) && p < |s|
    ensures Without(s, s[p]) == s[..p] + s[p + 1..]
  {
    if p == 0 {
      WithoutFacts(s[1..], s[0]);
    } else {
      WithoutAt(s[1..], p - 1);
      assert s[1..][..p - 1] == s[1..p] && s[1..][p..] == s[p + 1..];
      assert s[..p] == [s[0]] + s[1..p];
    }
  }

  /** Unpinning leaves the same tab active exactly when the active tab stands to its left, or is
      Settings; otherwise the next tab becomes active. */
  lemma UnpinShiftsExactly(b: Bar, p: nat)
    requires Inv(b) && p < |b.pinned|
    ensures var after := Toggled(b, b.pinned[p]);
            && after.active < Count(after)
            && (Resolve(after, after.active) == Resolve(b, b.active)
                <==> b.active <= p || b.active == |b.pinned| + 1)
            && (p < b.active <= |b.pinned| ==> Resolve(after, after.active) == Resolve(b, b.active + 1))
  {
    WithoutAt(b.pinned, p);
    ToggledKeeps(b, b.pinned[p]);
  }

  // Going round once at most.
  lemma WrappedBack(active: nat, count: nat)
    requires active < count
    ensures var prev := (active + count - 1) % count;
            prev == (if active == 0 then count - 1 else active - 1) && (prev + 1) % count == active
  {
    Wrapped(active + count - 1, count);
    Wrapped((active + count - 1) % count + 1, count);
  }

  lemma Wrapped(x: nat, n: nat)
    requires x < 2 * n
    ensures x % n == if x < n then x else x - n
  {
    if n <= x {
      assert x / n == 1;
    }
  }

  /* ------------------------------ The tab bar ------------------------------ */

  class TabBar {
    var active: nat
    var pinned: seq<Uuid>
    var activation: seq<Uuid>
    ghost var events: seq<Uuid>

    ghost function View(): Bar
      reads this
    {
      Bar(active, pinned, activation, events)
    }

    ghost predicate Valid()
      reads this
    {
      Inv(View())
    }

    constructor New()
      ensures Valid() && View() == Bar(0, [], [], [])
    {
      active, pinned, activation, events := 0, [], [], [];
    }

    constructor WithPins(pins: seq<Uuid>)
      ensures Valid() && View() == Restored(pins)
    {
      var kept := FirstDistinct(pins, MAX_PINS);
      active, pinned, activation, events := 0, kept, Reversed(kept), kept;
      RestoredOk(pins);
    }

    method ActiveTab() returns (tab: Tab)
      requires Valid()
      ensures Resolve(View(), active) == Some(tab)
    {
      if active == 0 {
        return Secrets;
      }
      if active <= |pinned| {
        return Pinned(pinned[active - 1]);
      }
      return Settings;
    }

    method Next()
      requires Valid()
      modifies this
      ensures Valid() && View() == Step(old(View()), GoNext)
      ensures active == (old(active) + 1) % (|pinned| + 2) && pinned == old(pinned)
    {
      Wrapped(active + 1, |pinned| + 2);
      active := (active + 1) % (|pinned| + 2);
      RecordActivation();
    }

    method Prev()
      requires Valid()
      modifies this
      ensures Valid() && View() == Step(old(View()), GoPrev)
      ensures (active + 1) % (|pinned| + 2) == old(active) && pinned == old(pinned)
    {
      var count := |pinned| + 2;
      WrappedBack(active, count);
      active := (active + count - 1) % count;
      RecordActivation();
    }

    method JumpTo(n: nat)
      requires Valid()
      modifies this
      ensures Valid() && View() == Step(old(View()), Op.JumpTo(n))
      ensures active == (if 1 <= n <= |pinned| + 2 then n - 1 else old(active)) && pinned == old(pinned)
    {
      if 1 <= n <= |pinned| + 2 {
        active := n - 1;
        RecordActivation();
      }
    }

    method TogglePin(u: Uuid) returns (change: PinChange)
      requires Valid()
      modifies this
      ensures Valid() && View() == Step(old(View()), Toggle(u))
      ensures match change
              case Unpinned => u in old(pinned) && pinned == Without(old(pinned), u)
              case PinAdded => u !in old(pinned) && |old(pinned)| < MAX_PINS && pinned == old(pinned) + [u]
              case PinAddedEvicting(victim) =>
                && u !in old(pinned) && victim in old(pinned) && |old(pinned)| == MAX_PINS
                && pinned == Without(old(pinned), victim) + [u]
    {
      ToggledKeeps(View(), u);
      if u in pinned {
        pinned := Without(pinned, u);
        activation := Without(activation, u);
        ClampActive();
        return Unpinned;
      }
      var victim := MakeRoom();
      pinned := pinned + [u];
      activation := [u] + activation;
      events := events + [u];
      ClampActive();
      return if victim.Some? then PinAddedEvicting(victim.value) else PinAdded;
    }

    // Drops the least recently activated pin if the bar is full.
    method MakeRoom() returns (victim: Option<Uuid>)
      requires Valid()
      modifies this`pinned, this`activation
      ensures View() == Evicted(old(View()))
      ensures victim.Some? <==> |old(pinned)| == MAX_PINS
      ensures victim.Some? ==> victim.value in old(pinned) && pinned == Without(old(pinned), victim.value)
    {
      if |pinned| < MAX_PINS || activation == [] {
        return None;
      }
      var oldest := activation[|activation| - 1];
      assert oldest in activation;
      pinned := Without(pinned, oldest);
      activation := Without(activation, oldest);
      return Some(oldest);
    }

    method RecordActivation()
      requires Valid()
      modifies this`activation, this`events
      ensures Valid() && View() == Recorded(old(View()))
    {
      RecordedKeeps(View());
      if 0 < active <= |pinned| {
        var u := pinned[active - 1];
        activation := Without(activation, u);
        activation := [u] + activation;
        events := events + [u];
      }
    }

    method ClampActive()
      modifies this`active
      ensures View() == Clamped(old(View()))
    {
      var max := |pinned| + 2 - 1;
      if active > max {
        active := max;
      }
    }
  }
}
