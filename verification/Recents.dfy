/** The most-recently-used list: at most 50 entries, the newest first. */
module Recents {
  import opened Wrappers
  import opened Lists

  const RECENTS_CAP := 50

  // The list without a bound, and the bounded list.
  function Bump(s: seq<Uuid>, u: Uuid): seq<Uuid> {
    [u] + Without(s, u)
  }

  function BumpCapped(s: seq<Uuid>, u: Uuid): seq<Uuid> {
    First(Bump(s, u), RECENTS_CAP)
  }

  // All bumps of a run, oldest first.
  function Bumps(s: seq<Uuid>, us: seq<Uuid>): seq<Uuid>
    decreases |us|
  {
    if us == [] then s else Bumps(Bump(s, us[0]), us[1..])
  }

  function BumpsCapped(s: seq<Uuid>, us: seq<Uuid>): seq<Uuid>
    decreases |us|
  {
    if us == [] then s else BumpsCapped(BumpCapped(s, us[0]), us[1..])
  }

  // Dropping one element of what is kept makes room for at most one.
  lemma BumpOfFirst(s: seq<Uuid>, u: Uuid)
    requires NoDuplicates(s)
    ensures BumpCapped(First(s, RECENTS_CAP), u) == First(Bump(s, u), RECENTS_CAP)
  {
    if RECENTS_CAP < |s| {
      var head, tail := s[..RECENTS_CAP], s[RECENTS_CAP..];
      assert s == head + tail;
      WithoutConcat(head, tail, u);
      WithoutLoses(head, u);
      WithoutFacts(head, u);
      assert ([u] + Without(head, u) + Without(tail, u))[..RECENTS_CAP] == ([u] + Without(head, u))[..RECENTS_CAP];
      assert Bump(s, u) == [u] + Without(head, u) + Without(tail, u);
      WithoutLoses(s, u);
    }
  }

  lemma BumpNoDuplicates(s: seq<Uuid>, u: Uuid)
    requires NoDuplicates(s)
    ensures NoDuplicates(Bump(s, u))
  {
    WithoutFacts(s, u);
    WithoutNoDuplicates(s, u);
  }

  /** After any run of bumps the list is the first 50 of the unbounded list. */
  lemma {:induction false} CappedIsFirst(s: seq<Uuid>, us: seq<Uuid>)
    requires NoDuplicates(s)
    ensures NoDuplicates(Bumps(s, us))
    ensures BumpsCapped(First(s, RECENTS_CAP), us) == First(Bumps(s, us), RECENTS_CAP)
    decreases |us|
  {
    if us != [] {
      BumpNoDuplicates(s, us[0]);
      BumpOfFirst(s, us[0]);
      CappedIsFirst(Bump(s, us[0]), us[1..]);
    }
  }

  /* ------------------------------ Persistence ------------------------------ */

  lemma {:induction false} FirstsCons(u: Uuid, list: seq<Uuid>)
    ensures Firsts([u] + list) == [u] + Without(Firsts(list), u)
    decreases |list|
  {
    if list == [] {
      assert [u] + list == [u] && [u][..0] == [];
    } else {
      var n := |list| - 1;
      FirstsCons(u, list[..n]);
      assert ([u] + list)[..n + 1] == [u] + list[..n];
      WithoutSnoc(Firsts(list[..n]), list[n], u);
      WithoutHas(Firsts(list[..n]), list[n], u);
    }
  }

  lemma {:induction false} BumpsSnoc(s: seq<Uuid>, us: seq<Uuid>, u: Uuid)
    ensures Bumps(s, us + [u]) == Bump(Bumps(s, us), u)
    decreases |us|
  {
    if us == [] {
      assert us + [u] == [u] && [u][1..] == [];
    } else {
      BumpsSnoc(Bump(s, us[0]), us[1..], u);
      assert (us + [u])[1..] == us[1..] + [u];
    }
  }

  /** The list is its own history read backwards, first occurrences only; so reading a saved list
      back gives it again, and so would reading the whole history. */
  lemma {:induction false} ListIsHistory(us: seq<Uuid>)
    ensures Bumps([], us) == Firsts(Reversed(us))
    decreases |us|
  {
    if us != [] {
      var n := |us| - 1;
      ListIsHistory(us[..n]);
      BumpsSnoc([], us[..n], us[n]);
      assert us == us[..n] + [us[n]];
      FirstsCons(us[n], Reversed(us[..n]));
    }
  }

  lemma SavedListIsReadBack(us: seq<Uuid>)
    ensures var list := BumpsCapped([], us);
            First(Firsts(list), RECENTS_CAP) == list && First(Firsts(Reversed(us)), RECENTS_CAP) == list
  {
    CappedIsFirst([], us);
    ListIsHistory(us);
    FirstsFacts(BumpsCapped([], us));
  }

  /* ------------------------------ Forgetting ------------------------------ */

  /** Forgetting a kept entry of a list that was longer than the bound leaves 49, and what was cut
      does not come back: only then does the list stop being the first 50 of the unbounded one. */
  lemma ForgetOfFirst(s: seq<Uuid>, u: Uuid)
    requires NoDuplicates(s)
    ensures Without(First(s, RECENTS_CAP), u) == First(Without(s, u), RECENTS_CAP)
            <==> |s| <= RECENTS_CAP || u !in s[..RECENTS_CAP]
  {
    WithoutFacts(s, u);
    if RECENTS_CAP < |s| {
      var head, tail := s[..RECENTS_CAP], s[RECENTS_CAP..];
      assert s == head + tail;
      WithoutConcat(head, tail, u);
      WithoutFacts(head, u);
      WithoutLoses(s, u);
      if u in head {
        WithoutShrinks(head, u);
      } else {
        assert (head + Without(tail, u))[..RECENTS_CAP] == head;
      }
    }
  }

  /* ------------------------------ The list ------------------------------ */

  class Recents {
    var order: seq<Uuid>

    ghost predicate Valid()
      reads this
    {
      NoDuplicates(order) && |order| <= RECENTS_CAP
    }

    constructor New()
      ensures Valid() && order == []
    {
      order := [];
    }

    // A saved list, whatever a hand edit made of it.
    constructor FromPersisted(list: seq<Uuid>)
      ensures Valid() && order == First(Firsts(list), RECENTS_CAP)
    {
      var kept := FirstDistinct(list, RECENTS_CAP);
      order := kept;
      FirstsFacts(list);
    }

    method Bump(u: Uuid)
      requires Valid()
      modifies this
      ensures Valid() && order == BumpCapped(old(order), u)
    {
      WithoutFacts(order, u);
      WithoutNoDuplicates(order, u);
      order := Without(order, u);
      order := [u] + order;
      order := First(order, RECENTS_CAP);
    }

    method Remove(u: Uuid)
      requires Valid()
      modifies this
      ensures Valid() && order == Without(old(order), u)
    {
      WithoutFacts(order, u);
      WithoutNoDuplicates(order, u);
      order := Without(order, u);
    }

    // The place of an entry: the inverse of indexing.
    method Rank(u: Uuid) returns (r: Option<nat>)
      requires Valid()
      ensures r.Some? <==> u in order
      ensures forall k: nat :: (k < |order| && order[k] == u) <==> r == Some(k)
    {
      for i := 0 to |order|
        invariant forall k :: 0 <= k < i ==> order[k] != u
      {
        if order[i] == u {
          return Some(i);
        }
      }
      return None;
    }
  }
}
