/** The normaliser behind the interoperability comparison of exported vaults: time stamps blanked,
    volatile custom data removed, entries sorted by UUID among their siblings. */
module XmlNormalizer {
  import opened Wrappers

  datatype Node = Node(tag: string, text: string, children: seq<Node>)

  const ENTRY := "Entry"
  const UUID := "UUID"
  const NORMALIZED := "<normalized>"

  /* ------------------------------ String order ------------------------------ */

  predicate Leq(a: string, b: string) {
    a == "" || (b != "" && (a[0] < b[0] || (a[0] == b[0] && Leq(a[1..], b[1..]))))
  }

  lemma {:induction false} LeqTotal(a: string, b: string)
    ensures Leq(a, b) || Leq(b, a)
    ensures Leq(a, b) && Leq(b, a) ==> a == b
  {
    if a != "" && b != "" {
      LeqTotal(a[1..], b[1..]);
      if a[0] == b[0] && a[1..] == b[1..] {
        assert a == [a[0]] + a[1..] && b == [b[0]] + b[1..];
      }
    }
  }

  lemma {:induction false} LeqTransitive(a: string, b: string, c: string)
    requires Leq(a, b) && Leq(b, c)
    ensures Leq(a, c)
  {
    if a != "" && a[0] == b[0] == c[0] {
      LeqTransitive(a[1..], b[1..], c[1..]);
    }
  }

  /* ------------------------------ Sorting ------------------------------ */

  // The text of the first child with that tag.
  function FindText(children: seq<Node>, tag: string): Option<string> {
    if children == [] then None
    else if children[0].tag == tag then Some(children[0].text)
    else FindText(children[1..], tag)
  }

  function UuidOf(n: Node): string {
    var uuid := FindText(n.children, UUID);
    if uuid.Some? then uuid.value else ""
  }

  // What decides a child's place: nothing but its old one, or its UUID.
  datatype Kind = Plain | EntryOf(uuid: string)

  function KindOf(n: Node): Kind {
    if n.tag == ENTRY then EntryOf(UuidOf(n)) else Plain
  }

  // The children of a kind, in their order.
  function Picked(ns: seq<Node>, kind: Kind): seq<Node> {
    if ns == [] then [] else (if KindOf(ns[0]) == kind then [ns[0]] else []) + Picked(ns[1..], kind)
  }

  predicate Before(a: Kind, b: Kind) {
    a.Plain? || (b.EntryOf? && Leq(a.uuid, b.uuid))
  }

  // A stable sort: plain children first, then entries by UUID.
  function Insert(n: Node, sorted: seq<Node>): seq<Node> {
    if sorted == [] || Before(KindOf(n), KindOf(sorted[0])) then [n] + sorted
    else [sorted[0]] + Insert(n, sorted[1..])
  }

  function Arranged(ns: seq<Node>): seq<Node> {
    if ns == [] then [] else Insert(ns[0], Arranged(ns[1..]))
  }

  function Sort(n: Node): Node {
    n.(children := Arranged(seq(|n.children|, i requires 0 <= i < |n.children| => Sort(n.children[i]))))
  }

  function SortAll(ns: seq<Node>): (r: seq<Node>)
    ensures |r| == |ns| && forall i :: 0 <= i < |ns| ==> r[i] == Sort(ns[i])
  {
    seq(|ns|, i requires 0 <= i < |ns| => Sort(ns[i]))
  }

  lemma SortIs(n: Node)
    ensures Sort(n) == n.(children := Arranged(SortAll(n.children)))
  {
    assert SortAll(n.children) == seq(|n.children|, i requires 0 <= i < |n.children| => Sort(n.children[i]));
  }

  /* ------------------------------ The order of kinds ------------------------------ */

  lemma BeforeTotal(a: Kind, b: Kind)
    ensures Before(a, b) || Before(b, a)
    ensures Before(a, b) && Before(b, a) ==> a == b
  {
    if a.EntryOf? && b.EntryOf? {
      LeqTotal(a.uuid, b.uuid);
    }
  }

  lemma BeforeTransitive(a: Kind, b: Kind, c: Kind)
    requires Before(a, b) && Before(b, c)
    ensures Before(a, c)
  {
    if a.EntryOf? {
      LeqTransitive(a.uuid, b.uuid, c.uuid);
    }
  }

  predicate Ordered(ns: seq<Node>) {
    forall i, j :: 0 <= i < j < |ns| ==> Before(KindOf(ns[i]), KindOf(ns[j]))
  }

  lemma {:induction false} InsertFacts(n: Node, sorted: seq<Node>)
    requires Ordered(sorted)
    ensures Ordered(Insert(n, sorted)) && multiset(Insert(n, sorted)) == multiset(sorted) + multiset{n}
    ensures forall m :: m in Insert(n, sorted) <==> m == n || m in sorted
  {
    if sorted == [] {
    } else if Before(KindOf(n), KindOf(sorted[0])) {
      forall j | 0 <= j < |sorted|
        ensures Before(KindOf(n), KindOf(sorted[j]))
      {
        if 0 < j {
          BeforeTransitive(KindOf(n), KindOf(sorted[0]), KindOf(sorted[j]));
        }
      }
    } else {
      BeforeTotal(KindOf(n), KindOf(sorted[0]));
      InsertFacts(n, sorted[1..]);
      var rest := Insert(n, sorted[1..]);
      assert sorted == [sorted[0]] + sorted[1..];
      forall j | 0 <= j < |rest|
        ensures Before(KindOf(sorted[0]), KindOf(rest[j]))
      {
        assert rest[j] in rest;
      }
    }
  }

  /** Sorting siblings keeps every one of them and puts them in order. */
  lemma {:induction false} ArrangedFacts(ns: seq<Node>)
    ensures Ordered(Arranged(ns)) && multiset(Arranged(ns)) == multiset(ns)
  {
    if ns != [] {
      ArrangedFacts(ns[1..]);
      InsertFacts(ns[0], Arranged(ns[1..]));
      assert ns == [ns[0]] + ns[1..];
    }
  }

  lemma {:induction false} InsertPicked(n: Node, sorted: seq<Node>, kind: Kind)
    ensures Picked(Insert(n, sorted), kind) == (if KindOf(n) == kind then [n] else []) + Picked(sorted, kind)
  {
    if sorted == [] || Before(KindOf(n), KindOf(sorted[0])) {
      assert ([n] + sorted)[1..] == sorted;
    } else {
      InsertPicked(n, sorted[1..], kind);
      BeforeTotal(KindOf(n), KindOf(sorted[0]));
      assert ([sorted[0]] + Insert(n, sorted[1..]))[1..] == Insert(n, sorted[1..]);
    }
  }

  /** The sort is stable: it keeps the order within each kind. */
  lemma {:induction false} ArrangedPicked(ns: seq<Node>, kind: Kind)
    ensures Picked(Arranged(ns), kind) == Picked(ns, kind)
  {
    if ns != [] {
      ArrangedPicked(ns[1..], kind);
      InsertPicked(ns[0], Arranged(ns[1..]), kind);
    }
  }

  lemma {:induction false} PickedHas(ns: seq<Node>, n: Node)
    ensures n in ns ==> n in Picked(ns, KindOf(n))
    ensures forall kind :: n in Picked(ns, kind) ==> n in ns && KindOf(n) == kind
  {
    if ns != [] {
      assert ns == [ns[0]] + ns[1..];
      PickedHas(ns[1..], n);
    }
  }

  ghost predicate SamePicked(xs: seq<Node>, ys: seq<Node>) {
    forall kind :: Picked(xs, kind) == Picked(ys, kind)
  }

  lemma PickedTail(ns: seq<Node>, kind: Kind)
    requires ns != []
    ensures if KindOf(ns[0]) == kind
            then Picked(ns, kind) != [] && Picked(ns, kind)[1..] == Picked(ns[1..], kind)
            else Picked(ns, kind) == Picked(ns[1..], kind)
  {
  }

  lemma HeadsAgree(xs: seq<Node>, ys: seq<Node>)
    requires Ordered(xs) && Ordered(ys) && SamePicked(xs, ys) && xs != [] && ys != []
    ensures xs[0] == ys[0]
  {
    PickedHas(xs, xs[0]);
    PickedHas(ys, ys[0]);
    var kx, ky := KindOf(xs[0]), KindOf(ys[0]);
    var a :| a in Picked(ys, kx);
    PickedHas(ys, a);
    var b :| b in Picked(xs, ky);
    PickedHas(xs, b);
    assert Before(ky, kx) by {
      BeforeTotal(ky, ky);
      assert a in ys;
    }
    assert Before(kx, ky) by {
      BeforeTotal(kx, kx);
      assert b in xs;
    }
    BeforeTotal(kx, ky);
    assert Picked(xs, kx)[0] == xs[0] && Picked(ys, kx)[0] == ys[0];
  }

  lemma NoneTogether(xs: seq<Node>, ys: seq<Node>)
    requires SamePicked(xs, ys)
    ensures ys == [] ==> xs == []
  {
    if xs != [] {
      PickedHas(xs, xs[0]);
      assert Picked(ys, KindOf(xs[0])) != [];
    }
  }

  /** An ordered list is determined by what it holds of each kind. */
  lemma {:induction false} OrderedIsDetermined(xs: seq<Node>, ys: seq<Node>)
    requires Ordered(xs) && Ordered(ys) && SamePicked(xs, ys)
    ensures xs == ys
  {
    if xs == [] || ys == [] {
      NoneTogether(xs, ys);
      NoneTogether(ys, xs);
    } else {
      HeadsAgree(xs, ys);
      forall kind
        ensures Picked(xs[1..], kind) == Picked(ys[1..], kind)
      {
        assert Picked(xs, kind) == Picked(ys, kind);
        PickedTail(xs, kind);
        PickedTail(ys, kind);
      }
      OrderedIsDetermined(xs[1..], ys[1..]);
      assert xs == [xs[0]] + xs[1..] && ys == [ys[0]] + ys[1..];
    }
  }

  lemma ArrangedIsCanonical(xs: seq<Node>, ys: seq<Node>)
    ensures Arranged(xs) == Arranged(ys) <==> SamePicked(xs, ys)
  {
    ArrangedFacts(xs);
    ArrangedFacts(ys);
    forall kind
      ensures Picked(Arranged(xs), kind) == Picked(xs, kind) && Picked(Arranged(ys), kind) == Picked(ys, kind)
    {
      ArrangedPicked(xs, kind);
      ArrangedPicked(ys, kind);
    }
    if SamePicked(xs, ys) {
      forall kind
        ensures Picked(Arranged(xs), kind) == Picked(Arranged(ys), kind)
      {
        assert Picked(xs, kind) == Picked(ys, kind);
      }
      OrderedIsDetermined(Arranged(xs), Arranged(ys));
    }
    if Arranged(xs) == Arranged(ys) {
      forall kind
        ensures Picked(xs, kind) == Picked(ys, kind)
      {
        assert Picked(Arranged(xs), kind) == Picked(Arranged(ys), kind);
      }
    }
  }

  /* ------------------------------ Whole trees ------------------------------ */

  // A child's tag that is no entry's keeps its first text.
  lemma {:induction false} InsertFindText(n: Node, sorted: seq<Node>, tag: string)
    requires tag != ENTRY
    ensures FindText(Insert(n, sorted), tag) == FindText([n] + sorted, tag)
  {
    assert ([n] + sorted)[1..] == sorted;
    if sorted != [] && !Before(KindOf(n), KindOf(sorted[0])) {
      InsertFindText(n, sorted[1..], tag);
      assert ([sorted[0]] + Insert(n, sorted[1..]))[1..] == Insert(n, sorted[1..]);
      assert ([n] + sorted[1..])[1..] == sorted[1..];
    }
  }

  lemma {:induction false} ArrangedFindText(ns: seq<Node>, tag: string)
    requires tag != ENTRY
    ensures FindText(Arranged(ns), tag) == FindText(ns, tag)
  {
    if ns != [] {
      ArrangedFindText(ns[1..], tag);
      InsertFindText(ns[0], Arranged(ns[1..]), tag);
      assert ([ns[0]] + Arranged(ns[1..]))[1..] == Arranged(ns[1..]);
    }
  }

  lemma {:induction false} SortAllFindText(ns: seq<Node>, tag: string)
    ensures FindText(SortAll(ns), tag) == FindText(ns, tag)
  {
    if ns != [] {
      SortIs(ns[0]);
      SortAllFindText(ns[1..], tag);
      assert SortAll(ns)[1..] == SortAll(ns[1..]);
    }
  }

  /** Sorting below a child moves nothing that decides where the child goes. */
  lemma SortKeepsKind(n: Node)
    ensures KindOf(Sort(n)) == KindOf(n)
  {
    SortIs(n);
    ArrangedFindText(SortAll(n.children), UUID);
    SortAllFindText(n.children, UUID);
  }

  // The places of the children of a kind.
  function Places(ns: seq<Node>, kind: Kind): (r: seq<nat>)
    ensures forall k :: 0 <= k < |r| ==> r[k] < |ns|
    decreases |ns|
  {
    if ns == [] then []
    else
      var n := |ns| - 1;
      Places(ns[..n], kind) + if KindOf(ns[n]) == kind then [n] else []
  }

  /** The two trees differ only in where entries stand among their siblings: at every depth the
      other children are alike in order, and so are the entries of each UUID. */
  ghost predicate Alike(a: Node, b: Node)
    decreases a
  {
    && a.tag == b.tag && a.text == b.text
    && forall kind ::
         && |Places(a.children, kind)| == |Places(b.children, kind)|
         && forall k :: 0 <= k < |Places(a.children, kind)| ==>
              Alike(a.children[Places(a.children, kind)[k]], b.children[Places(b.children, kind)[k]])
  }

  lemma PickedFirst(n: Node, rest: seq<Node>, kind: Kind)
    ensures Picked([n] + rest, kind) == (if KindOf(n) == kind then [n] else []) + Picked(rest, kind)
  {
    assert ([n] + rest)[1..] == rest;
  }

  lemma {:induction false} PickedConcat(a: seq<Node>, b: seq<Node>, kind: Kind)
    ensures Picked(a + b, kind) == Picked(a, kind) + Picked(b, kind)
  {
    if a == [] {
      assert a + b == b;
    } else {
      var n, rest := a[0], a[1..];
      assert a == [n] + rest && a + b == [n] + (rest + b);
      PickedConcat(rest, b, kind);
      PickedFirst(n, rest, kind);
      PickedFirst(n, rest + b, kind);
    }
  }

  lemma {:induction false} PickedByPlaces(ns: seq<Node>, kind: Kind)
    ensures |Picked(ns, kind)| == |Places(ns, kind)|
    ensures forall k :: 0 <= k < |Places(ns, kind)| ==> Picked(ns, kind)[k] == ns[Places(ns, kind)[k]]
    decreases |ns|
  {
    if ns != [] {
      var n := |ns| - 1;
      PickedByPlaces(ns[..n], kind);
      PickedConcat(ns[..n], [ns[n]], kind);
      assert ns == ns[..n] + [ns[n]] && [ns[n]][1..] == [];
    }
  }

  lemma {:induction false} PlacesOfSorted(ns: seq<Node>, kind: Kind)
    ensures Places(SortAll(ns), kind) == Places(ns, kind)
    decreases |ns|
  {
    if ns != [] {
      var n := |ns| - 1;
      PlacesOfSorted(ns[..n], kind);
      SortKeepsKind(ns[n]);
      assert SortAll(ns)[..n] == SortAll(ns[..n]);
    }
  }

  // At every place of every kind, the two lists sort to the same child.
  ghost predicate SortAlike(xs: seq<Node>, ys: seq<Node>) {
    forall kind ::
      && |Places(xs, kind)| == |Places(ys, kind)|
      && forall k :: 0 <= k < |Places(xs, kind)| ==> Sort(xs[Places(xs, kind)[k]]) == Sort(ys[Places(ys, kind)[k]])
  }

  lemma PickedOfSorted(ns: seq<Node>, kind: Kind)
    ensures |Picked(SortAll(ns), kind)| == |Places(ns, kind)|
    ensures forall k :: 0 <= k < |Places(ns, kind)| ==> Picked(SortAll(ns), kind)[k] == Sort(ns[Places(ns, kind)[k]])
  {
    PickedByPlaces(SortAll(ns), kind);
    PlacesOfSorted(ns, kind);
  }

  lemma SamePickedIsSortAlike(xs: seq<Node>, ys: seq<Node>)
    ensures SamePicked(SortAll(xs), SortAll(ys)) <==> SortAlike(xs, ys)
  {
    forall kind
      ensures Picked(SortAll(xs), kind) == Picked(SortAll(ys), kind) <==>
              && |Places(xs, kind)| == |Places(ys, kind)|
              && forall k :: 0 <= k < |Places(xs, kind)| ==> Sort(xs[Places(xs, kind)[k]]) == Sort(ys[Places(ys, kind)[k]])
    {
      PickedOfSorted(xs, kind);
      PickedOfSorted(ys, kind);
    }
  }

  /** The sort is a canonical form: two trees sort to the same tree if and only if they differ only
      in where entries stand among their siblings, at any depth. */
  lemma {:induction false} SortIsCanonical(a: Node, b: Node)
    ensures Sort(a) == Sort(b) <==> Alike(a, b)
    decreases a
  {
    SortIs(a);
    SortIs(b);
    ArrangedIsCanonical(SortAll(a.children), SortAll(b.children));
    SamePickedIsSortAlike(a.children, b.children);
    forall kind, k | |Places(a.children, kind)| == |Places(b.children, kind)| && 0 <= k < |Places(a.children, kind)|
      ensures Sort(a.children[Places(a.children, kind)[k]]) == Sort(b.children[Places(b.children, kind)[k]])
              <==> Alike(a.children[Places(a.children, kind)[k]], b.children[Places(b.children, kind)[k]])
    {
      SortIsCanonical(a.children[Places(a.children, kind)[k]], b.children[Places(b.children, kind)[k]]);
    }
  }

  lemma OrderedIsArranged(ns: seq<Node>)
    requires Ordered(ns)
    ensures Arranged(ns) == ns
  {
    ArrangedFacts(ns);
    forall kind
      ensures Picked(Arranged(ns), kind) == Picked(ns, kind)
    {
      ArrangedPicked(ns, kind);
    }
    OrderedIsDetermined(Arranged(ns), ns);
  }

  lemma SameMembers(xs: seq<Node>, ys: seq<Node>)
    requires multiset(xs) == multiset(ys)
    ensures forall n :: n in xs <==> n in ys
  {
    forall n
      ensures n in xs <==> n in ys
    {
      assert n in xs <==> n in multiset(xs);
      assert n in ys <==> n in multiset(ys);
    }
  }

  /** Sorting is idempotent, and keeps each node's children but for their order. */
  lemma {:induction false} SortIsIdempotent(n: Node)
    ensures Sort(Sort(n)) == Sort(n)
    ensures multiset(Sort(n).children) == multiset(SortAll(n.children))
    decreases n
  {
    SortIs(n);
    var sorted := SortAll(n.children);
    var arranged := Arranged(sorted);
    ArrangedFacts(sorted);
    SameMembers(arranged, sorted);
    forall k | 0 <= k < |n.children|
      ensures Sort(sorted[k]) == sorted[k]
    {
      SortIsIdempotent(n.children[k]);
    }
    SortIs(Sort(n));
    forall i | 0 <= i < |arranged|
      ensures SortAll(arranged)[i] == arranged[i]
    {
      assert arranged[i] in sorted;
    }
    assert SortAll(arranged) == arranged;
    OrderedIsArranged(arranged);
  }

  /** A tree and its sorted form differ only in where entries stand. */
  lemma SortedIsAlike(n: Node)
    ensures Alike(n, Sort(n))
  {
    SortIsIdempotent(n);
    SortIsCanonical(n, Sort(n));
  }

  /* ------------------------------ What is cleaned away ------------------------------ */

  const CUSTOM_DATA := "CustomData"
  const ITEM := "Item"
  const KEY := "Key"
  const IGNORED_META_KEYS := {"KPXC_RANDOM_SLUG", "_LAST_MODIFIED"}

  predicate EndsWith(s: string, end: string) {
    |end| <= |s| && s[|s| - |end|..] == end
  }

  predicate IsTimeTag(tag: string) {
    EndsWith(tag, "Time") || EndsWith(tag, "Changed")
  }

  predicate IsIgnored(n: Node) {
    n.tag == ITEM && FindText(n.children, KEY).Some? && FindText(n.children, KEY).value in IGNORED_META_KEYS
  }

  function Unignored(ns: seq<Node>): seq<Node> {
    if ns == [] then [] else (if IsIgnored(ns[0]) then [] else [ns[0]]) + Unignored(ns[1..])
  }

  function Blanked(n: Node): Node {
    Node(n.tag, if IsTimeTag(n.tag) then NORMALIZED else n.text,
         seq(|n.children|, i requires 0 <= i < |n.children| => Blanked(n.children[i])))
  }

  // `below` is false of the root alone: a search for descendants does not find the root.
  function Stripped(n: Node, below: bool): Node {
    var children := seq(|n.children|, i requires 0 <= i < |n.children| => Stripped(n.children[i], true));
    n.(children := if below && n.tag == CUSTOM_DATA then Unignored(children) else children)
  }

  function Cleaned(root: Node): Node {
    Stripped(Blanked(root), false)
  }

  function Normalized(root: Node): Node {
    Sort(Cleaned(root))
  }

  predicate IsClean(n: Node, below: bool) {
    && (IsTimeTag(n.tag) ==> n.text == NORMALIZED)
    && (forall i :: 0 <= i < |n.children| ==> IsClean(n.children[i], true))
    && (below && n.tag == CUSTOM_DATA ==> forall i :: 0 <= i < |n.children| ==> !IsIgnored(n.children[i]))
  }

  /** Two exports compare equal exactly when, time stamps and volatile items apart, they differ only
      in where entries stand. */
  lemma ComparesEqualExactly(a: Node, b: Node)
    ensures Normalized(a) == Normalized(b) <==> Alike(Cleaned(a), Cleaned(b))
  {
    SortIsCanonical(Cleaned(a), Cleaned(b));
  }

  lemma {:induction false} UnignoredFacts(ns: seq<Node>)
    ensures forall n :: n in Unignored(ns) <==> n in ns && !IsIgnored(n)
    ensures (forall n :: n in ns ==> !IsIgnored(n)) ==> Unignored(ns) == ns
  {
    if ns != [] {
      UnignoredFacts(ns[1..]);
      assert ns == [ns[0]] + ns[1..];
    }
  }

  // Every time tag below is blank.
  predicate IsBlank(n: Node) {
    (IsTimeTag(n.tag) ==> n.text == NORMALIZED) && forall i :: 0 <= i < |n.children| ==> IsBlank(n.children[i])
  }

  lemma {:induction false} BlankedIsBlank(n: Node)
    ensures IsBlank(Blanked(n))
  {
    forall i | 0 <= i < |n.children|
      ensures IsBlank(Blanked(n.children[i]))
    {
      BlankedIsBlank(n.children[i]);
    }
  }

  lemma {:induction false} StrippedIsClean(n: Node, below: bool)
    requires IsBlank(n)
    ensures IsClean(Stripped(n, below), below)
    decreases n
  {
    var children := seq(|n.children|, i requires 0 <= i < |n.children| => Stripped(n.children[i], true));
    forall i | 0 <= i < |n.children|
      ensures IsClean(children[i], true)
    {
      StrippedIsClean(n.children[i], true);
    }
    UnignoredFacts(children);
    forall i | 0 <= i < |Stripped(n, below).children|
      ensures IsClean(Stripped(n, below).children[i], true)
    {
      assert Stripped(n, below).children[i] in children;
    }
  }

  lemma {:induction false} CleanStays(n: Node, below: bool)
    requires IsClean(n, below)
    ensures Blanked(n) == n && Stripped(n, below) == n
    decreases n
  {
    forall i | 0 <= i < |n.children|
      ensures Blanked(n.children[i]) == n.children[i] && Stripped(n.children[i], true) == n.children[i]
    {
      CleanStays(n.children[i], true);
    }
    var children := seq(|n.children|, i requires 0 <= i < |n.children| => Stripped(n.children[i], true));
    assert children == n.children;
    assert seq(|n.children|, i requires 0 <= i < |n.children| => Blanked(n.children[i])) == n.children;
    if below && n.tag == CUSTOM_DATA {
      UnignoredFacts(children);
    }
  }

  lemma SortKeepsIgnored(n: Node)
    ensures IsIgnored(Sort(n)) <==> IsIgnored(n)
  {
    SortIs(n);
    ArrangedFindText(SortAll(n.children), KEY);
    SortAllFindText(n.children, KEY);
  }

  lemma {:induction false} SortKeepsClean(n: Node, below: bool)
    requires IsClean(n, below)
    ensures IsClean(Sort(n), below)
    decreases n
  {
    SortIs(n);
    var sorted := SortAll(n.children);
    ArrangedFacts(sorted);
    SameMembers(Arranged(sorted), sorted);
    forall i | 0 <= i < |n.children|
      ensures IsClean(sorted[i], true) && (IsIgnored(sorted[i]) <==> IsIgnored(n.children[i]))
    {
      SortKeepsClean(n.children[i], true);
      SortKeepsIgnored(n.children[i]);
    }
    var arranged := Arranged(sorted);
    forall i | 0 <= i < |arranged|
      ensures IsClean(arranged[i], true)
      ensures below && n.tag == CUSTOM_DATA ==> !IsIgnored(arranged[i])
    {
      assert arranged[i] in sorted;
      var k :| 0 <= k < |sorted| && sorted[k] == arranged[i];
    }
  }

  /** Normalising a normalised export changes nothing. */
  lemma NormalizeIsIdempotent(root: Node)
    ensures Normalized(Normalized(root)) == Normalized(root)
  {
    BlankedIsBlank(root);
    StrippedIsClean(Blanked(root), false);
    SortKeepsClean(Cleaned(root), false);
    CleanStays(Normalized(root), false);
    SortIsIdempotent(Cleaned(root));
  }
}
