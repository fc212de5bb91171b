/** The Fisher-Yates loop: what it does for given choices, and why the choices and the
    arrangements correspond one to one. */
module Shuffle {
  import opened Wrappers
  import opened Sampling

  function Swapped<T>(s: seq<T>, i: nat, j: nat): seq<T>
    requires i < |s| && j < |s|
  {
    s[i := s[j]][j := s[i]]
  }

  // The choices for positions i, i - 1, ... of at least 1: each at most its position.
  predicate Choosable(js: seq<nat>, i: nat)
    decreases |js|
  {
    js != [] ==> 0 < i && js[0] <= i && Choosable(js[1..], i - 1)
  }

  // Choices all the way down to position 1.
  predicate Complete(js: seq<nat>, i: nat) {
    |js| == i && Choosable(js, i)
  }

  // Positions i, i - 1, ... exchanged with the chosen ones, in that order.
  function Shuffled<T>(s: seq<T>, i: nat, js: seq<nat>): (r: seq<T>)
    requires i < |s| && Choosable(js, i)
    ensures |r| == |s|
    decreases |js|
  {
    if js == [] then s else Shuffled(Swapped(s, i, js[0]), i - 1, js[1..])
  }

  /** Shuffling only rearranges. */
  lemma {:induction false} ShuffleKeepsAll<T>(s: seq<T>, i: nat, js: seq<nat>)
    requires i < |s| && Choosable(js, i)
    ensures multiset(Shuffled(s, i, js)) == multiset(s)
    decreases |js|
  {
    if js != [] {
      SwapKeepsAll(s, i, js[0]);
      ShuffleKeepsAll(Swapped(s, i, js[0]), i - 1, js[1..]);
    }
  }

  lemma SwapKeepsAll<T>(s: seq<T>, i: nat, j: nat)
    requires i < |s| && j < |s|
    ensures multiset(Swapped(s, i, j)) == multiset(s)
  {
  }

  // Positions above `i` are out of reach.
  lemma {:induction false} TopStays<T>(s: seq<T>, i: nat, js: seq<nat>, k: nat)
    requires i < |s| && Choosable(js, i) && i < k < |s|
    ensures Shuffled(s, i, js)[k] == s[k]
    decreases |js|
  {
    if js != [] {
      TopStays(Swapped(s, i, js[0]), i - 1, js[1..], k);
    }
  }

  // One more step at the end.
  lemma {:induction false} ShuffledStep<T>(s: seq<T>, i: nat, js: seq<nat>, j: nat)
    requires i < |s| && Choosable(js, i) && |js| < i && j <= i - |js|
    ensures Choosable(js + [j], i)
    ensures Shuffled(s, i, js + [j]) == Swapped(Shuffled(s, i, js), i - |js|, j)
    decreases |js|
  {
    if js == [] {
      assert [j][1..] == [] && js + [j] == [j];
    } else {
      ShuffledStep(Swapped(s, i, js[0]), i - 1, js[1..], j);
      assert (js + [j])[1..] == js[1..] + [j];
    }
  }

  predicate Distinct<T(==)>(s: seq<T>) {
    forall a, b :: 0 <= a < b < |s| ==> s[a] != s[b]
  }

  /** Different choices give different arrangements of distinct elements. */
  lemma {:induction false} ShuffleInjective<T>(s: seq<T>, i: nat, js: seq<nat>, ks: seq<nat>)
    requires i < |s| && Distinct(s) && Complete(js, i) && Complete(ks, i)
    requires Shuffled(s, i, js) == Shuffled(s, i, ks)
    ensures js == ks
    decreases i
  {
    if i > 0 {
      var a, b := Swapped(s, i, js[0]), Swapped(s, i, ks[0]);
      TopStays(a, i - 1, js[1..], i);
      TopStays(b, i - 1, ks[1..], i);
      assert s[js[0]] == a[i] == b[i] == s[ks[0]];
      assert js[0] == ks[0];
      assert Distinct(a);
      ShuffleInjective(a, i - 1, js[1..], ks[1..]);
      assert js == [js[0]] + js[1..] && ks == [ks[0]] + ks[1..];
    }
  }

  /** Every arrangement is reached, repeated elements or not. */
  lemma {:induction false} ShuffleSurjective<T>(s: seq<T>, i: nat, t: seq<T>) returns (js: seq<nat>)
    requires i < |s| == |t| && multiset(s) == multiset(t) && s[i + 1..] == t[i + 1..]
    ensures Complete(js, i) && Shuffled(s, i, js) == t
    decreases i
  {
    if i == 0 {
      js := [];
      LastAgrees(s, t);
    } else {
      var j := SourceOf(s, i, t);
      var rest := ShuffleSurjective(Swapped(s, i, j), i - 1, t);
      js := [j] + rest;
      assert js[1..] == rest;
    }
  }

  lemma LastAgrees<T>(s: seq<T>, t: seq<T>)
    requires 0 < |s| == |t| && multiset(s) == multiset(t) && s[1..] == t[1..]
    ensures s == t
  {
    HeadsAgree(s, t, 1);
    assert s[..1] == [s[0]] && t[..1] == [t[0]];
    assert multiset([s[0]])[s[0]] == 1;
    assert s == s[..1] + s[1..] && t == t[..1] + t[1..];
  }

  // Where position `i` of `t` comes from.
  lemma SourceOf<T>(s: seq<T>, i: nat, t: seq<T>) returns (j: nat)
    requires i < |s| == |t| && multiset(s) == multiset(t) && s[i + 1..] == t[i + 1..]
    ensures j <= i
    ensures multiset(Swapped(s, i, j)) == multiset(t) && Swapped(s, i, j)[i..] == t[i..]
  {
    HeadsAgree(s, t, i + 1);
    assert t[..i + 1][i] in multiset(s[..i + 1]);
    j :| j < |s[..i + 1]| && s[..i + 1][j] == t[i];
    SwapKeepsAll(s, i, j);
    assert Swapped(s, i, j)[i..] == [t[i]] + s[i + 1..];
    assert t[i..] == [t[i]] + t[i + 1..];
  }

  lemma HeadsAgree<T>(s: seq<T>, t: seq<T>, n: nat)
    requires n <= |s| == |t| && multiset(s) == multiset(t) && s[n..] == t[n..]
    ensures multiset(s[..n]) == multiset(t[..n])
  {
    assert s == s[..n] + s[n..] && t == t[..n] + t[n..];
    assert multiset(s[..n]) == multiset(s) - multiset(s[n..]);
    assert multiset(t[..n]) == multiset(t) - multiset(t[n..]);
  }

  // The ranges drawn for: i + 1, i, ..., 2.
  function Downward(i: nat): (r: seq<Range>)
    requires i < U32_MAX
    ensures |r| == i
  {
    if i == 0 then [] else [i + 1] + Downward(i - 1)
  }

  lemma NextRange(ranges: seq<Range>, i: nat)
    requires 0 < i < U32_MAX
    ensures ranges + Downward(i) == ranges + [i + 1] + Downward(i - 1)
  {
  }

  // Indices below those ranges are choices.
  lemma {:induction false} DrawnAreChoices(js: seq<nat>, i: nat)
    requires |js| == i < U32_MAX && forall k :: 0 <= k < |js| ==> js[k] < Downward(i)[k]
    ensures Complete(js, i)
    decreases |js|
  {
    if js != [] {
      assert forall k :: 0 <= k < |js| - 1 ==> js[1..][k] == js[k + 1] && Downward(i - 1)[k] == Downward(i)[k + 1];
      DrawnAreChoices(js[1..], i - 1);
    }
  }

  // And choices are below those ranges.
  lemma {:induction false} ChoiceInRange(js: seq<nat>, i: nat, k: nat)
    requires i < U32_MAX && Complete(js, i) && k < i
    ensures js[k] < Downward(i)[k]
    decreases i
  {
    if 0 < k {
      ChoiceInRange(js[1..], i - 1, k - 1);
    }
  }

  // `now` is what the choices made so far have turned `start` into.
  ghost predicate Arranged<T>(now: seq<T>, start: seq<T>, js: seq<nat>) {
    0 < |start| == |now| && Choosable(js, |start| - 1) && now == Shuffled(start, |start| - 1, js)
  }

  lemma ArrangedStep<T>(now: seq<T>, start: seq<T>, js: seq<nat>, j: nat)
    requires Arranged(now, start, js) && |js| + 1 < |start| && j < |start| - |js|
    ensures Arranged(Swapped(now, |start| - 1 - |js|, j), start, js + [j])
  {
    ShuffledStep(start, |start| - 1, js, j);
  }

  // Position `i` is next: the choices so far are drawn and made.
  ghost predicate ShuffledSoFar<T>(
      now: seq<T>, start: seq<T>, js: seq<nat>, cursor: ByteCursor, all: seq<Range>, i: nat)
    reads cursor
  {
    && Arranged(now, start, js) && |js| + i + 1 == |start| <= U32_MAX
    && cursor.Fresh() && cursor.ranges + Downward(i) == all
  }

  // One draw and one exchange.
  method ShuffleOne<T>(
      a: array<T>, cursor: ByteCursor, i: nat, ghost start: seq<T>, ghost js: seq<nat>, ghost all: seq<Range>)
    returns (r: Result<nat, GenError>)
    requires 0 < i < a.Length && ShuffledSoFar(a[..], start, js, cursor, all, i)
    modifies a, cursor
    ensures r.Ok? ==> ShuffledSoFar(a[..], start, js + [r.value], cursor, all, i - 1)
    ensures cursor.indices == old(cursor.indices) + if r.Ok? then [r.value] else []
    ensures r.Err? ==> r.error == Csprng && cursor.Valid() && cursor.pos + BYTES_PER_DRAW > |cursor.bytes|
    ensures r.Err? ==> a[..] == old(a[..]) && DrawAll(cursor.bytes, all).None?
  {
    ghost var ranges := cursor.ranges;
    NextRange(ranges, i);
    var j := cursor.UniformIndex(i + 1);
    if j.Err? {
      DrawAllFails(cursor.bytes, ranges + [i + 1], Downward(i - 1));
      return Err(j.error);
    }
    ArrangedStep(a[..], start, js, j.value);
    Swap(a, i, j.value);
    return Ok(j.value);
  }

  /** Shuffles in place, one accepted draw for each position from the last down to 1. */
  method ShuffleInPlace<T>(a: array<T>, cursor: ByteCursor)
    returns (r: Result<(), GenError>, ghost js: seq<nat>)
    requires cursor.Fresh() && 0 < a.Length <= U32_MAX
    modifies a, cursor
    ensures Arranged(a[..], old(a[..]), js)
    ensures cursor.Valid() && cursor.indices == old(cursor.indices) + js
    ensures r.Ok? ==> cursor.Fresh() && cursor.ranges == old(cursor.ranges) + Downward(a.Length - 1)
    ensures r.Ok? ==> |js| == a.Length - 1
    ensures r.Err? ==> r.error == Csprng && |js| < a.Length - 1 && cursor.pos + BYTES_PER_DRAW > |cursor.bytes|
    ensures r.Err? ==> DrawAll(cursor.bytes, old(cursor.ranges) + Downward(a.Length - 1)).None?
  {
    js := [];
    ghost var start, all := a[..], cursor.ranges + Downward(a.Length - 1);
    var i := a.Length - 1;
    while 1 <= i
      invariant 0 <= i < a.Length && ShuffledSoFar(a[..], start, js, cursor, all, i)
      invariant cursor.indices == old(cursor.indices) + js
    {
      var j := ShuffleOne(a, cursor, i, start, js, all);
      if j.Err? {
        return Err(j.error), js;
      }
      js := js + [j.value];
      i := i - 1;
    }
    return Ok(()), js;
  }

  method Swap<T>(a: array<T>, i: nat, j: nat)
    requires i < a.Length && j < a.Length
    modifies a
    ensures a[..] == Swapped(old(a[..]), i, j)
  {
    a[i], a[j] := a[j], a[i];
  }
}
