/** Back and forward over visited nodes: a trail of at most 100, kept as two stacks. */
module JumpHistory {
  import opened Wrappers
  import opened Lists

  const JUMP_HISTORY_CAP := 100

  // Both stacks have their top last; the top of `back` is the node shown.
  datatype History = History(back: seq<Uuid>, forward: seq<Uuid>)

  predicate Anchored(h: History, current: Uuid) {
    h.back != [] && h.back[|h.back| - 1] == current
  }

  function Last(s: seq<Uuid>, n: nat): seq<Uuid> {
    if |s| <= n then s else s[|s| - n..]
  }

  function Pushed(h: History, id: Uuid): History {
    if Anchored(h, id) then h else History(Last(h.back + [id], JUMP_HISTORY_CAP), [])
  }

  function Realigned(h: History, current: Uuid): History {
    if Anchored(h, current) then h else Pushed(h, current)
  }

  function SteppedBack(h: History, current: Uuid): (r: (History, Option<Uuid>)) {
    var a := Realigned(h, current);
    if |a.back| < 2 then (a, None)
    else
      var n := |a.back| - 1;
      (History(a.back[..n], a.forward + [a.back[n]]), Some(a.back[n - 1]))
  }

  function SteppedForward(h: History, current: Uuid): (r: (History, Option<Uuid>)) {
    if h.forward == [] then (h, None)
    else
      var n := |h.forward| - 1;
      var next := h.forward[n];
      var back := if Anchored(h, current) then h.back else h.back + [current];
      (History(Last(back + [next], JUMP_HISTORY_CAP), h.forward[..n]), Some(next))
  }

  // The whole trail, the visited part and the part ahead.
  function Trail(h: History): seq<Uuid> {
    h.back + Reversed(h.forward)
  }

  predicate NoRepeat(s: seq<Uuid>) {
    forall k :: 0 <= k < |s| - 1 ==> s[k] != s[k + 1]
  }

  predicate Bounded(h: History) {
    |h.back| <= JUMP_HISTORY_CAP && (h.forward != [] ==> h.back != [])
  }

  predicate Good(h: History) {
    Bounded(h) && |Trail(h)| <= JUMP_HISTORY_CAP && NoRepeat(Trail(h))
  }

  /* ------------------------------ There and back ------------------------------ */

  /** Forward after an anchored back restores both stacks. */
  lemma BackThenForward(h: History, current: Uuid)
    requires Bounded(h) && Anchored(h, current)
    ensures var back := SteppedBack(h, current);
            back.1.Some? ==> SteppedForward(back.0, back.1.value) == (h, Some(current))
  {
    var n := |h.back| - 1;
    assert h.back[..n] + [h.back[n]] == h.back;
    assert (h.forward + [h.back[n]])[..|h.forward|] == h.forward;
  }

  /** Back after an anchored forward restores both stacks exactly when the trail had room. */
  lemma ForwardThenBack(h: History, current: Uuid)
    requires Bounded(h) && Anchored(h, current) && h.forward != []
    ensures var forward := SteppedForward(h, current);
            && SteppedBack(forward.0, forward.1.value).1 == Some(current)
            && (SteppedBack(forward.0, forward.1.value).0 == h <==> |h.back| < JUMP_HISTORY_CAP)
  {
    var n := |h.forward| - 1;
    var next := h.forward[n];
    assert h.forward[..n] + [next] == h.forward;
    if |h.back| < JUMP_HISTORY_CAP {
      assert (h.back + [next])[..|h.back|] == h.back;
    } else {
      var full := h.back + [next];
      assert Last(full, JUMP_HISTORY_CAP) == full[1..];
    }
  }

  /* ------------------------------ The trail ------------------------------ */

  lemma ReversedSnoc(s: seq<Uuid>, u: Uuid)
    ensures Reversed(s + [u]) == [u] + Reversed(s)
  {
    assert (s + [u])[..|s|] == s;
  }

  // A realigned history is good again: the push that realigns drops the part ahead.
  lemma PushKeepsGood(h: History, id: Uuid)
    requires Bounded(h) && NoRepeat(h.back) && (Anchored(h, id) ==> Good(h))
    ensures Good(Pushed(h, id))
  {
    if !Anchored(h, id) {
      var back := h.back + [id];
      assert NoRepeat(back);
      assert Trail(Pushed(h, id)) == Last(back, JUMP_HISTORY_CAP);
    }
  }

  lemma GoodBack(h: History)
    requires Good(h)
    ensures NoRepeat(h.back)
  {
    forall k | 0 <= k < |h.back| - 1
      ensures h.back[k] != h.back[k + 1]
    {
      assert Trail(h)[k] == h.back[k] && Trail(h)[k + 1] == h.back[k + 1];
    }
  }

  /** An anchored step back moves along the trail and leaves the trail alone. */
  lemma BackKeepsTrail(h: History, current: Uuid)
    requires Anchored(h, current)
    ensures Trail(SteppedBack(h, current).0) == Trail(h)
  {
    if 2 <= |h.back| {
      var n := |h.back| - 1;
      ReversedSnoc(h.forward, h.back[n]);
      assert h.back == h.back[..n] + [h.back[n]];
    }
  }

  /** So does an anchored step forward, on a trail within the bound. */
  lemma ForwardKeepsTrail(h: History, current: Uuid)
    requires Anchored(h, current) && |Trail(h)| <= JUMP_HISTORY_CAP
    ensures Trail(SteppedForward(h, current).0) == Trail(h)
  {
    if h.forward != [] {
      var n := |h.forward| - 1;
      ReversedSnoc(h.forward[..n], h.forward[n]);
      assert h.forward == h.forward[..n] + [h.forward[n]];
    }
  }

  /** A step forward leaves no consecutive duplicates exactly when it is anchored or the live
      selection is not already the node ahead. */
  lemma ForwardRepeatsExactly(h: History, current: Uuid)
    requires Good(h) && h.forward != []
    ensures NoRepeat(Trail(SteppedForward(h, current).0))
            <==> Anchored(h, current) || current != h.forward[|h.forward| - 1]
  {
    if Anchored(h, current) {
      ForwardKeepsTrail(h, current);
    } else {
      var n := |h.forward| - 1;
      var next, ahead := h.forward[n], Reversed(h.forward[..n]);
      ReversedSnoc(h.forward[..n], next);
      assert h.forward == h.forward[..n] + [next];
      assert Trail(h) == h.back + ([next] + ahead);
      SpliceRepeats(h.back, current, next, ahead);
      var longer := h.back + [current] + [next];
      assert Trail(SteppedForward(h, current).0) == Last(longer, JUMP_HISTORY_CAP) + ahead;
      SuffixRepeats(longer, ahead, current, next);
    }
  }

  lemma SpliceRepeats(back: seq<Uuid>, current: Uuid, next: Uuid, ahead: seq<Uuid>)
    requires NoRepeat(back + ([next] + ahead)) && (back != [] ==> back[|back| - 1] != current)
    ensures current != next ==> NoRepeat(back + [current] + [next] + ahead)
  {
    var s, t, b := back + ([next] + ahead), back + [current] + [next] + ahead, |back|;
    if current != next {
      forall k | 0 <= k < |t| - 1
        ensures t[k] != t[k + 1]
      {
        if k < b - 1 {
          assert s[k] == t[k] && s[k + 1] == t[k + 1];
        } else if b < k {
          assert s[k - 1] == t[k] && s[k - 1 + 1] == t[k + 1];
        }
      }
    }
  }

  // Evicting from the front keeps the last two nodes, and repeats nothing new.
  lemma SuffixRepeats(longer: seq<Uuid>, ahead: seq<Uuid>, current: Uuid, next: Uuid)
    requires 2 <= |longer| && longer[|longer| - 2] == current && longer[|longer| - 1] == next
    requires current != next ==> NoRepeat(longer + ahead)
    ensures NoRepeat(Last(longer, JUMP_HISTORY_CAP) + ahead) <==> current != next
  {
    var kept := Last(longer, JUMP_HISTORY_CAP);
    var gone := |longer| - |kept|;
    var s, t := longer + ahead, kept + ahead;
    assert t[|kept| - 2] == current && t[|kept| - 2 + 1] == next;
    if current != next {
      forall k | 0 <= k < |t| - 1
        ensures t[k] != t[k + 1]
      {
        assert t[k] == s[gone + k] && t[k + 1] == s[gone + k + 1];
      }
    }
  }

  /* ------------------------------ Whole runs ------------------------------ */

  datatype Op = Push(id: Uuid) | Back(current: Uuid) | Forward(current: Uuid) | Clear

  function Step(h: History, op: Op): History {
    match op
    case Push(id) => Pushed(h, id)
    case Back(current) => SteppedBack(h, current).0
    case Forward(current) => SteppedForward(h, current).0
    case Clear => History([], [])
  }

  function After(ops: seq<Op>): History
    decreases |ops|
  {
    if ops == [] then History([], []) else Step(After(ops[..|ops| - 1]), ops[|ops| - 1])
  }

  // Steps forward are taken from the node shown.
  predicate ForwardsAnchored(ops: seq<Op>) {
    forall k :: 0 <= k < |ops| && ops[k].Forward? ==> Anchored(After(ops[..k]), ops[k].current)
  }

  lemma StepBounded(h: History, op: Op)
    requires Bounded(h)
    ensures Bounded(Step(h, op))
  {
  }

  lemma BackGood(h: History, current: Uuid)
    requires Good(h) && NoRepeat(h.back)
    ensures Good(SteppedBack(h, current).0)
  {
    PushKeepsGood(h, current);
    BackKeepsTrail(Realigned(h, current), current);
  }

  lemma StepGood(h: History, op: Op)
    requires Good(h) && (op.Forward? ==> Anchored(h, op.current))
    ensures Good(Step(h, op))
  {
    GoodBack(h);
    match op
    case Push(id) => PushKeepsGood(h, id);
    case Back(current) => BackGood(h, current);
    case Forward(current) => ForwardKeepsTrail(h, current);
    case Clear =>
  }

  /** Whatever is called, at most 100 nodes lie behind. When every step forward is anchored, and
      whether or not the steps back are, the whole trail has at most 100 nodes and no consecutive
      duplicates. */
  lemma {:induction false} TrailStaysGood(ops: seq<Op>)
    ensures Bounded(After(ops))
    ensures ForwardsAnchored(ops) ==> Good(After(ops))
    decreases |ops|
  {
    if ops != [] {
      var n := |ops| - 1;
      TrailStaysGood(ops[..n]);
      StepBounded(After(ops[..n]), ops[n]);
      if ForwardsAnchored(ops) {
        assert forall k :: 0 <= k < n ==> ops[..n][k] == ops[k] && ops[..n][..k] == ops[..k];
        StepGood(After(ops[..n]), ops[n]);
      }
    }
  }

  // A trail without a bound: every visit, consecutive duplicates collapsed.
  function Collapsed(ids: seq<Uuid>): seq<Uuid>
    decreases |ids|
  {
    if ids == [] then []
    else
      var before, id := Collapsed(ids[..|ids| - 1]), ids[|ids| - 1];
      if before != [] && before[|before| - 1] == id then before else before + [id]
  }

  function Visits(ids: seq<Uuid>): (r: seq<Op>)
    ensures |r| == |ids|
  {
    seq(|ids|, i requires 0 <= i < |ids| => Op.Push(ids[i]))
  }

  /** After any run of visits the trail is the last 100 nodes of the unbounded one, the latest on
      top. */
  lemma {:induction false} VisitsAreLast(ids: seq<Uuid>)
    ensures After(Visits(ids)) == History(Last(Collapsed(ids), JUMP_HISTORY_CAP), [])
    ensures ids != [] ==> Anchored(After(Visits(ids)), ids[|ids| - 1])
    decreases |ids|
  {
    if ids != [] {
      var n := |ids| - 1;
      VisitsAreLast(ids[..n]);
      assert Visits(ids)[..n] == Visits(ids[..n]);
      LastOfLonger(Collapsed(ids[..n]), ids[n]);
    }
  }

  lemma LastOfLonger(s: seq<Uuid>, id: Uuid)
    ensures Last(Last(s, JUMP_HISTORY_CAP) + [id], JUMP_HISTORY_CAP) == Last(s + [id], JUMP_HISTORY_CAP)
    ensures s != [] ==> Last(s, JUMP_HISTORY_CAP) != [] && Last(s, JUMP_HISTORY_CAP)[|Last(s, JUMP_HISTORY_CAP)| - 1] == s[|s| - 1]
  {
  }

  const ADRIFT: seq<Op> := [Push(1), Push(2), Back(2), Forward(2)]

  /** A step forward from a selection moved there by hand repeats the node. */
  lemma UnanchoredForwardRepeats()
    ensures After(ADRIFT) == History([1, 2, 2], [])
  {
    assert ADRIFT[..3][..2][..1][..0] == [];
    assert ADRIFT[..3][..2][..1] == [Push(1)] && ADRIFT[..3][..2] == [Push(1), Push(2)];
    assert ADRIFT[..3] == [Push(1), Push(2), Back(2)];
    assert After(ADRIFT[..3][..2][..1]) == History([1], []);
    assert After(ADRIFT[..3][..2]) == History([1, 2], []);
    assert After(ADRIFT[..3]) == History([1], [2]);
  }

  /* ------------------------------ The history ------------------------------ */

  class JumpHistory {
    var back: seq<Uuid>
    var forward: seq<Uuid>

    function View(): History
      reads this
    {
      History(back, forward)
    }

    constructor ()
      ensures View() == History([], [])
    {
      back, forward := [], [];
    }

    method Push(id: Uuid)
      modifies this
      ensures View() == Step(old(View()), Op.Push(id))
    {
      if back != [] && back[|back| - 1] == id {
        return;
      }
      forward := [];
      back := back + [id];
      Cap();
    }

    method StepBack(current: Uuid) returns (r: Option<Uuid>)
      modifies this
      ensures View() == Step(old(View()), Op.Back(current)) && r == SteppedBack(old(View()), current).1
    {
      if back == [] || back[|back| - 1] != current {
        Push(current);
      }
      if |back| < 2 {
        return None;
      }
      var left := back[|back| - 1];
      back := back[..|back| - 1];
      forward := forward + [left];
      return Some(back[|back| - 1]);
    }

    method StepForward(current: Uuid) returns (r: Option<Uuid>)
      modifies this
      ensures View() == Step(old(View()), Op.Forward(current)) && r == SteppedForward(old(View()), current).1
    {
      if forward == [] {
        return None;
      }
      var next := forward[|forward| - 1];
      forward := forward[..|forward| - 1];
      if back == [] || back[|back| - 1] != current {
        back := back + [current];
      }
      back := back + [next];
      Cap();
      return Some(next);
    }

    method Clear()
      modifies this
      ensures View() == Step(old(View()), Op.Clear)
    {
      back, forward := [], [];
    }

    method Cap()
      modifies this`back
      ensures back == Last(old(back), JUMP_HISTORY_CAP)
    {
      if |back| > JUMP_HISTORY_CAP {
        var excess := |back| - JUMP_HISTORY_CAP;
        back := back[excess..];
      }
    }
  }
}
