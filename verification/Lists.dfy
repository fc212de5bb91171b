/** Lists of identifiers without duplicates. */
module Lists {
  type Uuid = nat

  predicate NoDuplicates(s: seq<Uuid>) {
    forall i, j :: 0 <= i < j < |s| ==> s[i] != s[j]
  }

  function Without(s: seq<Uuid>, u: Uuid): seq<Uuid> {
    if s == [] then [] else (if s[0] == u then [] else [s[0]]) + Without(s[1..], u)
  }

  function First(s: seq<Uuid>, cap: nat): seq<Uuid> {
    if |s| <= cap then s else s[..cap]
  }

  lemma {:induction false} WithoutFacts(s: seq<Uuid>, u: Uuid)
    ensures |Without(s, u)| <= |s| && u !in Without(s, u)
    ensures u !in s ==> Without(s, u) == s
    ensures forall v :: v in Without(s, u) <==> v in s && v != u
  {
    if s != [] {
      WithoutFacts(s[1..], u);
      assert s == [s[0]] + s[1..];
    }
  }

  lemma {:induction false} WithoutNoDuplicates(s: seq<Uuid>, u: Uuid)
    requires NoDuplicates(s)
    ensures NoDuplicates(Without(s, u))
  {
    if s != [] {
      WithoutNoDuplicates(s[1..], u);
      WithoutFacts(s[1..], u);
      assert s[0] !in s[1..];
    }
  }

  lemma {:induction false} WithoutConcat(a: seq<Uuid>, b: seq<Uuid>, u: Uuid)
    ensures Without(a + b, u) == Without(a, u) + Without(b, u)
  {
    if a == [] {
      assert a + b == b;
    } else {
      WithoutConcat(a[1..], b, u);
      assert (a + b)[1..] == a[1..] + b;
      var head := if a[0] == u then [] else [a[0]];
      assert Without(a + b, u) == head + (Without(a[1..], u) + Without(b, u));
      assert head + (Without(a[1..], u) + Without(b, u)) == head + Without(a[1..], u) + Without(b, u);
    }
  }

  lemma {:induction false} WithoutLoses(s: seq<Uuid>, u: Uuid)
    requires NoDuplicates(s)
    ensures |Without(s, u)| + 1 >= |s|
  {
    if s != [] {
      if s[0] == u {
        WithoutFacts(s[1..], u);
      } else {
        WithoutLoses(s[1..], u);
      }
    }
  }

  lemma {:induction false} WithoutShrinks(s: seq<Uuid>, u: Uuid)
    requires u in s
    ensures |Without(s, u)| < |s|
  {
    if s[0] == u {
      WithoutFacts(s[1..], u);
    } else {
      assert s == [s[0]] + s[1..];
      WithoutShrinks(s[1..], u);
    }
  }

  lemma WithoutSnoc(s: seq<Uuid>, v: Uuid, u: Uuid)
    ensures Without(s + [v], u) == Without(s, u) + if v == u then [] else [v]
  {
    WithoutConcat(s, [v], u);
    assert [v][1..] == [];
  }

  lemma WithoutHas(s: seq<Uuid>, v: Uuid, u: Uuid)
    ensures v in [u] + Without(s, u) <==> v == u || v in s
  {
    WithoutFacts(s, u);
  }

  // The first occurrences of a list, in order.
  function Firsts(list: seq<Uuid>): seq<Uuid>
    decreases |list|
  {
    if list == [] then []
    else
      var before, last := Firsts(list[..|list| - 1]), list[|list| - 1];
      if last in before then before else before + [last]
  }

  lemma {:induction false} FirstsFacts(list: seq<Uuid>)
    ensures NoDuplicates(Firsts(list)) && |Firsts(list)| <= |list|
    ensures forall u :: u in Firsts(list) <==> u in list
    ensures NoDuplicates(list) ==> Firsts(list) == list
    decreases |list|
  {
    if list != [] {
      FirstsFacts(list[..|list| - 1]);
      assert list == list[..|list| - 1] + [list[|list| - 1]];
    }
  }

  // The first occurrences of a prefix come first.
  lemma {:induction false} FirstsPrefix(list: seq<Uuid>, more: seq<Uuid>)
    ensures Firsts(list) <= Firsts(list + more)
    decreases |more|
  {
    if more == [] {
      assert list + more == list;
    } else {
      var n := |more| - 1;
      FirstsPrefix(list, more[..n]);
      assert (list + more)[..|list| + n] == list + more[..n];
    }
  }

  // The first `cap` distinct elements, in order: how a saved list is read back.
  method FirstDistinct(list: seq<Uuid>, cap: nat) returns (kept: seq<Uuid>)
    ensures kept == First(Firsts(list), cap)
  {
    kept := [];
    var i := 0;
    while i < |list| && |kept| < cap
      invariant 0 <= i <= |list| && kept == Firsts(list[..i]) && |kept| <= cap
    {
      assert list[..i + 1][..i] == list[..i];
      if list[i] !in kept {
        kept := kept + [list[i]];
      }
      i := i + 1;
    }
    FirstsPrefix(list[..i], list[i..]);
    assert list == list[..i] + list[i..];
    assert i == |list| ==> list[..i] == list;
  }

  function Reversed(s: seq<Uuid>): (r: seq<Uuid>)
    ensures |r| == |s|
    ensures forall k :: 0 <= k < |s| ==> r[k] == s[|s| - 1 - k]
    decreases |s|
  {
    if s == [] then [] else [s[|s| - 1]] + Reversed(s[..|s| - 1])
  }
}
