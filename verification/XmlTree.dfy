/** The normaliser as it works: three passes over a tree of elements, whose texts are overwritten
    and whose child lists are reassigned in place. */
module XmlTree {
  import opened Wrappers
  import opened XmlNormalizer

  // Every element is valid and lies within `all`, apart from the others.
  ghost predicate Forest(es: seq<Element>, all: set<Element>)
    reads all
    decreases all, 1
  {
    && (forall i :: 0 <= i < |es| ==> es[i] in all && es[i].repr <= all && es[i].Valid())
    && (forall i, j :: 0 <= i < j < |es| ==> es[i].repr !! es[j].repr)
  }

  ghost function Trees(es: seq<Element>, all: set<Element>): (r: seq<Node>)
    requires Forest(es, all)
    reads all
    ensures |r| == |es| && forall i :: 0 <= i < |es| ==> r[i] == es[i].Tree()
    decreases all, |es| + 2
  {
    if es == [] then [] else [es[0].Tree()] + Trees(es[1..], all)
  }

  lemma PlainIsArranged(ns: seq<Node>)
    requires forall n :: n in ns ==> n.tag != ENTRY
    ensures Arranged(ns) == ns
  {
    OrderedIsArranged(ns);
  }

  // What the normaliser does to an element and everything below it.
  datatype Pass = Blanking | Stripping | Sorting

  function Passed(pass: Pass, n: Node): Node {
    match pass
    case Blanking => Blanked(n)
    case Stripping => Stripped(n, true)
    case Sorting => Sort(n)
  }

  function PassedAll(pass: Pass, ns: seq<Node>): (r: seq<Node>)
    ensures |r| == |ns| && forall i :: 0 <= i < |ns| ==> r[i] == Passed(pass, ns[i])
  {
    seq(|ns|, i requires 0 <= i < |ns| => Passed(pass, ns[i]))
  }

  // Each pass in terms of itself on the children.
  lemma PassesAre(n: Node, below: bool)
    ensures Blanked(n) ==
              Node(n.tag, if IsTimeTag(n.tag) then NORMALIZED else n.text, PassedAll(Blanking, n.children))
    ensures Stripped(n, below) ==
              n.(children := var stripped := PassedAll(Stripping, n.children);
                             if below && n.tag == CUSTOM_DATA then Unignored(stripped) else stripped)
    ensures Sort(n) == n.(children := Arranged(PassedAll(Sorting, n.children)))
  {
    assert PassedAll(Blanking, n.children) ==
           seq(|n.children|, i requires 0 <= i < |n.children| => Blanked(n.children[i]));
    assert PassedAll(Stripping, n.children) ==
           seq(|n.children|, i requires 0 <= i < |n.children| => Stripped(n.children[i], true));
    SortIs(n);
    assert PassedAll(Sorting, n.children) == SortAll(n.children);
  }

  // The first `n` have been passed over, the others not yet.
  ghost function PassedPrefix(pass: Pass, before: seq<Node>, n: nat): (r: seq<Node>)
    requires n <= |before|
    ensures |r| == |before|
  {
    PassedAll(pass, before[..n]) + before[n..]
  }

  lemma PassOneMore(pass: Pass, before: seq<Node>, n: nat)
    requires n < |before|
    ensures PassedPrefix(pass, before, n)[n] == before[n]
    ensures PassedPrefix(pass, before, n)[n := Passed(pass, before[n])] == PassedPrefix(pass, before, n + 1)
  {
    assert before[..n + 1] == before[..n] + [before[n]];
  }

  lemma PassedEnds(pass: Pass, before: seq<Node>)
    ensures PassedPrefix(pass, before, 0) == before
    ensures PassedPrefix(pass, before, |before|) == PassedAll(pass, before)
  {
    assert before[..|before|] == before;
  }

  // `e` is valid, within `all`, and apart from the others.
  ghost predicate Apart(e: Element, es: seq<Element>, all: set<Element>)
    reads all
  {
    && e in all && e.repr <= all && e.Valid()
    && forall i :: 0 <= i < |es| ==> es[i] in all && es[i].repr !! e.repr
  }

  lemma ForestCons(e: Element, es: seq<Element>, all: set<Element>)
    requires Forest(es, all) && Apart(e, es, all)
    ensures Forest([e] + es, all) && Trees([e] + es, all) == [e.Tree()] + Trees(es, all)
  {
    assert ([e] + es)[1..] == es;
  }

  lemma ForestTail(es: seq<Element>, all: set<Element>)
    requires Forest(es, all) && es != []
    ensures Forest(es[1..], all) && Apart(es[0], es[1..], all)
    ensures Trees(es, all) == [es[0].Tree()] + Trees(es[1..], all)
  {
  }

  lemma ApartSubset(e: Element, es: seq<Element>, some: seq<Element>, all: set<Element>)
    requires Apart(e, es, all) && forall i :: 0 <= i < |some| ==> some[i] in es
    ensures Apart(e, some, all)
  {
    forall i | 0 <= i < |some|
      ensures some[i] in all && some[i].repr !! e.repr
    {
      assert some[i] in es;
    }
  }

  predicate OneMore<T(==)>(r: seq<T>, e: T, es: seq<T>) {
    forall i :: 0 <= i < |r| ==> r[i] == e || r[i] in es
  }

  lemma OneMoreCons<T>(es: seq<T>, e: T, rest: seq<T>)
    requires es != [] && OneMore(rest, e, es[1..])
    ensures OneMore([es[0]] + rest, e, es)
  {
    assert es == [es[0]] + es[1..];
  }

  // `e` put before the first element it need not follow.
  method InsertElement(e: Element, sorted: seq<Element>, ghost all: set<Element>) returns (r: seq<Element>)
    requires Forest(sorted, all) && Apart(e, sorted, all)
    ensures Forest(r, all) && Trees(r, all) == Insert(e.Tree(), Trees(sorted, all))
    ensures OneMore(r, e, sorted)
  {
    if sorted == [] {
      ForestCons(e, sorted, all);
      return [e] + sorted;
    }
    var kind := e.Kind();
    var first := sorted[0].Kind();
    if Before(kind, first) {
      ForestCons(e, sorted, all);
      return [e] + sorted;
    }
    ForestTail(sorted, all);
    ApartSubset(e, sorted, sorted[1..], all);
    var rest := InsertElement(e, sorted[1..], all);
    PutPast(e, sorted, rest, all);
    return [sorted[0]] + rest;
  }

  lemma PutPast(e: Element, sorted: seq<Element>, rest: seq<Element>, all: set<Element>)
    requires sorted != [] && Forest(sorted, all) && Apart(e, sorted, all)
    requires !Before(KindOf(e.Tree()), KindOf(sorted[0].Tree()))
    requires Forest(rest, all) && OneMore(rest, e, sorted[1..])
    requires Forest(sorted[1..], all) && Trees(rest, all) == Insert(e.Tree(), Trees(sorted[1..], all))
    ensures Forest([sorted[0]] + rest, all) && OneMore([sorted[0]] + rest, e, sorted)
    ensures Trees([sorted[0]] + rest, all) == Insert(e.Tree(), Trees(sorted, all))
  {
    ForestTail(sorted, all);
    StillApart(sorted[0], e, sorted[1..], rest, all);
    ForestCons(sorted[0], rest, all);
    OneMoreCons(sorted, e, rest);
  }

  lemma StillApart(x: Element, e: Element, es: seq<Element>, rest: seq<Element>, all: set<Element>)
    requires Apart(x, es, all) && e in all && e.repr !! x.repr
    requires OneMore(rest, e, es)
    ensures Apart(x, rest, all)
  {
    forall i | 0 <= i < |rest|
      ensures rest[i] in all && rest[i].repr !! x.repr
    {
      assert rest[i] == e || rest[i] in es;
    }
  }

  // The stable sort of the children by place and UUID.
  method Sorted(es: seq<Element>, ghost all: set<Element>) returns (r: seq<Element>)
    requires Forest(es, all)
    ensures Forest(r, all) && Trees(r, all) == Arranged(Trees(es, all))
    ensures forall i :: 0 <= i < |r| ==> r[i] in es
  {
    if es == [] {
      return [];
    }
    ForestTail(es, all);
    var rest := Sorted(es[1..], all);
    ApartSubset(es[0], es[1..], rest, all);
    r := InsertElement(es[0], rest, all);
    assert es == [es[0]] + es[1..];
  }

  // All but the volatile items, in order.
  method Kept(es: seq<Element>, ghost all: set<Element>) returns (r: seq<Element>)
    requires Forest(es, all)
    ensures Forest(r, all) && Trees(r, all) == Unignored(Trees(es, all))
    ensures forall i :: 0 <= i < |r| ==> r[i] in es
  {
    if es == [] {
      return [];
    }
    ForestTail(es, all);
    var rest := Kept(es[1..], all);
    var ignored := es[0].IsVolatile();
    KeepStep(es, rest, all);
    return if ignored then rest else [es[0]] + rest;
  }

  lemma KeepStep(es: seq<Element>, rest: seq<Element>, all: set<Element>)
    requires es != [] && Forest(es, all) && Forest(es[1..], all)
    requires Forest(rest, all) && Trees(rest, all) == Unignored(Trees(es[1..], all))
    requires forall i :: 0 <= i < |rest| ==> rest[i] in es[1..]
    ensures Forest([es[0]] + rest, all)
    ensures Trees(if IsIgnored(es[0].Tree()) then rest else [es[0]] + rest, all) == Unignored(Trees(es, all))
    ensures forall i :: 0 <= i < |rest| ==> rest[i] in es
  {
    assert es == [es[0]] + es[1..];
    ForestTail(es, all);
    assert Trees(es, all)[1..] == Trees(es[1..], all);
    ApartSubset(es[0], es[1..], rest, all);
    ForestCons(es[0], rest, all);
  }

  class Element {
    var tag: string
    var text: string
    var children: seq<Element>
    // This element and everything below it.
    ghost var repr: set<Element>

    ghost predicate Valid()
      reads this, repr
      decreases repr, 0
    {
      this in repr && Forest(children, repr - {this})
    }

    // The value of the tree.
    ghost function Tree(): Node
      requires Valid()
      reads this, repr
      decreases repr, 0
    {
      Node(tag, text, Trees(children, repr - {this}))
    }

    // The text of the first child with that tag.
    method FindText(wanted: string) returns (r: Option<string>)
      requires Valid()
      ensures r == XmlNormalizer.FindText(Tree().children, wanted)
    {
      ghost var trees := Tree().children;
      for i := 0 to |children|
        invariant XmlNormalizer.FindText(trees, wanted) == XmlNormalizer.FindText(trees[i..], wanted)
      {
        assert trees[i..][1..] == trees[i + 1..];
        if children[i].tag == wanted {
          return Some(children[i].text);
        }
      }
      return None;
    }

    // The key a child is sorted by.
    method Kind() returns (r: Kind)
      requires Valid()
      ensures r == KindOf(Tree())
    {
      if tag != ENTRY {
        return Plain;
      }
      var uuid := FindText(UUID);
      return EntryOf(if uuid.Some? then uuid.value else "");
    }

    ghost function ChildTrees(): (r: seq<Node>)
      requires Valid()
      reads this, repr
      ensures |r| == |children|
    {
      Trees(children, repr - {this})
    }

    method IsVolatile() returns (r: bool)
      requires Valid()
      ensures r <==> IsIgnored(Tree())
    {
      if tag != ITEM {
        return false;
      }
      var key := FindText(KEY);
      return key.Some? && key.value in IGNORED_META_KEYS;
    }

    // One pass over this element and everything below it.
    method Run(pass: Pass)
      requires Valid()
      modifies repr
      ensures Valid() && repr == old(repr) && Tree() == Passed(pass, old(Tree()))
      decreases repr, 4
    {
      match pass
      case Blanking => BlankTimes();
      case Stripping => RemoveVolatile(true);
      case Sorting => SortEntryChildren();
    }

    // One pass over one child. The others are not touched.
    method RunChild(pass: Pass, i: nat)
      requires Valid() && i < |children|
      modifies repr
      ensures Valid() && repr == old(repr) && children == old(children) && tag == old(tag) && text == old(text)
      ensures ChildTrees() == old(ChildTrees())[i := Passed(pass, old(ChildTrees())[i])]
      decreases repr, 1
    {
      ghost var all, before := repr - {this}, ChildTrees();
      assert Forest(children, all);
      var child := children[i];
      ghost var was := child.Tree();
      child.Run(pass);
      assert child.Tree() == Passed(pass, was);
      forall k | 0 <= k < |children| && k != i
        ensures children[k].Valid() && children[k].Tree() == before[k]
      {
      }
      assert Forest(children, all);
    }

    // One pass over every child.
    method RunBelow(pass: Pass)
      requires Valid()
      modifies repr
      ensures Valid() && repr == old(repr) && children == old(children) && tag == old(tag) && text == old(text)
      ensures ChildTrees() == PassedAll(pass, old(ChildTrees()))
      decreases repr, 2
    {
      ghost var before := ChildTrees();
      PassedEnds(pass, before);
      for i := 0 to |children|
        invariant Valid() && children == old(children) && repr == old(repr) && tag == old(tag) && text == old(text)
        invariant ChildTrees() == PassedPrefix(pass, before, i)
      {
        PassOneMore(pass, before, i);
        RunChild(pass, i);
      }
    }

    /** Overwrites the text of every element that records a time. */
    method BlankTimes()
      requires Valid()
      modifies repr
      ensures Valid() && repr == old(repr) && Tree() == Blanked(old(Tree()))
      decreases repr, 3
    {
      PassesAre(Tree(), true);
      RunBelow(Blanking);
      if IsTimeTag(tag) {
        SetText(NORMALIZED);
      }
    }

    method SetText(value: string)
      requires Valid()
      modifies this`text
      ensures Valid() && ChildTrees() == old(ChildTrees()) && text == value
    {
      ghost var all := repr - {this};
      text := value;
      assert Forest(children, all);
    }

    /** Removes the volatile items of every custom-data element below, and of this one when it is
        not the root. */
    method RemoveVolatile(below: bool)
      requires Valid()
      modifies repr
      ensures Valid() && repr == old(repr) && Tree() == Stripped(old(Tree()), below)
      decreases repr, 3
    {
      PassesAre(Tree(), below);
      RunBelow(Stripping);
      if below && tag == CUSTOM_DATA {
        KeepChildren();
      }
    }

    method SetChildren(value: seq<Element>)
      requires Valid() && Forest(value, repr - {this})
      modifies this`children
      ensures Valid() && children == value && ChildTrees() == old(Trees(value, repr - {this}))
    {
      ghost var all := repr - {this};
      children := value;
      assert Forest(children, all);
    }

    method KeepChildren()
      requires Valid()
      modifies this`children
      ensures Valid() && ChildTrees() == Unignored(old(ChildTrees()))
    {
      ghost var all := repr - {this};
      var rest := Kept(children, all);
      SetChildren(rest);
    }

    // Reassigns this element's child list.
    method SortChildren()
      requires Valid()
      modifies this`children
      ensures Valid() && ChildTrees() == Arranged(old(ChildTrees()))
    {
      if forall i :: 0 <= i < |children| ==> children[i].tag != ENTRY {
        PlainIsArranged(ChildTrees());
        return;
      }
      ghost var all := repr - {this};
      var sorted := Sorted(children, all);
      SetChildren(sorted);
    }

    /** Sorts every level below this element, and then its own children. */
    method SortEntryChildren()
      requires Valid()
      modifies repr
      ensures Valid() && repr == old(repr) && Tree() == Sort(old(Tree()))
      decreases repr, 3
    {
      PassesAre(Tree(), true);
      RunBelow(Sorting);
      SortChildren();
    }

    /** Normalises the tree under this root in place. */
    method Normalize()
      requires Valid()
      modifies repr
      ensures Valid() && repr == old(repr) && Tree() == Normalized(old(Tree()))
    {
      BlankTimes();
      RemoveVolatile(false);
      SortEntryChildren();
    }
  }
}
