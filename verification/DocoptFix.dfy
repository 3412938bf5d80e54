// fix: sharing equal leaves and retyping the repeated ones, on the heap.
module DocoptFix {
  import opened DocoptPattern
  import opened DocoptTransform
  import opened DocoptWords
  import opened DocoptRepeats

  class Leaf {
    const id: Id
    var value: Value
    ghost const given: Value    // the value it was created with

    constructor (id: Id, value: Value)
      ensures this.id == id && this.value == given == value
    {
      this.id, this.value, given := id, value, value;
    }
  }

  lemma LeavesOfChild(t: Pattern<Leaf>, i: nat, leaves: set<Leaf>)
    requires t.Branch? && i < |t.children| && forall l <- Flat(t) :: l in leaves
    ensures forall l <- Flat(t.children[i]) :: l in leaves
    ensures t.children[i].Tip? ==> t.children[i].leaf in leaves
  {
    FlatChild(t.children, i);
    assert t.children[i].Tip? ==> Flat(t.children[i]) == [t.children[i].leaf];
  }

  datatype Child = LeafChild(leaf: Leaf) | NodeChild(node: Node)

  /** An inner node; repr is the set of nodes of its subtree. */
  class Node {
    const kind: Kind
    var children: seq<Child>
    ghost const repr: set<Node>

    constructor (kind: Kind, children: seq<Child>, ghost repr: set<Node>)
      ensures this.kind == kind && this.children == children && this.repr == repr + {this}
    {
      this.kind := kind;
      this.children := children;
      this.repr := repr + {this};
    }

    /** The node is the root of the tree t, whose inner nodes are not shared. */
    ghost predicate Valid(t: Pattern<Leaf>)
      reads repr, this
      decreases t, 1
    {
      && this in repr
      && t.Branch? && t.kind == kind && |t.children| == |children|
      && (forall i :: 0 <= i < |children| ==> Holds(children[i], t.children[i]))
      && Unshared()
    }

    /** A child below this node stands for the tree p. */
    ghost predicate Holds(c: Child, p: Pattern<Leaf>)
      requires this in repr
      reads repr
      decreases p, 2
    {
      match c
      case LeafChild(l) => p == Tip(l)
      case NodeChild(n) => n in repr && n.repr <= repr && this !in n.repr && n.Valid(p)
    }

    ghost predicate Unshared()
      reads this
    {
      forall i, j :: 0 <= i < j < |children| && children[i].NodeChild? && children[j].NodeChild? ==>
        children[i].node.repr !! children[j].node.repr
    }

    /** The tree as a value; the heap is only read. */
    method Snapshot(ghost t: Pattern<Leaf>) returns (p: Pattern<Leaf>)
      requires Valid(t)
      ensures p == t
      decreases t
    {
      var ps := [];
      for i := 0 to |children|
        invariant ps == t.children[..i]
      {
        assert Holds(children[i], t.children[i]);
        match children[i] {
          case LeafChild(l) => ps := ps + [Tip(l)];
          case NodeChild(n) =>
            var c := n.Snapshot(t.children[i]);
            ps := ps + [c];
        }
      }
      assert t.children[..|children|] == t.children;
      p := Branch(kind, ps);
    }

    /** Replaces every leaf below by the listed leaf that equals it. */
    method FixIdentities(uniq: seq<Leaf>, ghost leaves: set<Leaf>, ghost t: Pattern<Leaf>, ghost f: Leaf -> Leaf)
      requires Valid(t)
      requires Represents(uniq, leaves, f)
      requires forall l <- Flat(t) :: l in leaves
      modifies repr`children
      ensures Valid(MapTree(f, t))
      decreases t
    {
      hide Represents, Flat, FlatAll, MapAll;
      ghost var cs, image := t.children, MapAll(f, t.children);
      for i := 0 to |children|
        invariant |children| == |cs| == |image| && Unshared()
        invariant forall j :: 0 <= j < i ==> Holds(children[j], image[j])
        invariant forall j :: i <= j < |cs| ==> Holds(children[j], cs[j])
      {
        MapAllAt(f, cs, i);
        LeavesOfChild(t, i, leaves);
        match children[i] {
          case LeafChild(child) =>
            var k := IndexOf(uniq, child, leaves, f);
            children := children[i := LeafChild(uniq[k])];
          case NodeChild(child) =>
            child.FixIdentities(uniq, leaves, cs[i], f);
        }
      }
    }
  }

  /** Leaves compare by everything they show: class, names and current value. */
  predicate Equal(a: Leaf, b: Leaf)
    reads a`value, b`value
  {
    a.id == b.id && a.value == b.value
  }

  /** The list holds exactly one leaf equal to each of the given leaves, and f finds it. */
  ghost predicate Represents(uniq: seq<Leaf>, leaves: set<Leaf>, f: Leaf -> Leaf)
    reads leaves`value, uniq`value
  {
    && (forall u <- uniq :: u in leaves)
    && (forall l <- leaves :: f(l) in uniq && forall u <- uniq :: Equal(u, l) <==> u == f(l))
  }

  method IndexOf(uniq: seq<Leaf>, leaf: Leaf, ghost leaves: set<Leaf>, ghost f: Leaf -> Leaf) returns (k: nat)
    requires Represents(uniq, leaves, f) && leaf in leaves
    ensures k < |uniq| && uniq[k] == f(leaf)
  {
    ghost var w :| 0 <= w < |uniq| && uniq[w] == f(leaf);
    k := 0;
    while !Equal(uniq[k], leaf)
      invariant k <= w
      decreases w - k
    {
      k := k + 1;
    }
  }

  /** A list with one leaf for every class of equal leaves. */
  method Unique(flat: seq<Leaf>) returns (uniq: seq<Leaf>, ghost f: Leaf -> Leaf)
    ensures Represents(uniq, (set l <- flat), f)
  {
    uniq := [];
    ghost var rep: map<Leaf, Leaf> := map[];
    for i := 0 to |flat|
      invariant rep.Keys == set l <- flat[..i]
      invariant forall u <- uniq :: u in rep.Keys
      invariant forall l <- rep.Keys :: rep[l] in uniq && forall u <- uniq :: Equal(u, l) <==> u == rep[l]
    {
      var leaf, k := flat[i], 0;
      while k < |uniq| && !Equal(uniq[k], leaf)
        invariant k <= |uniq| && forall j :: 0 <= j < k ==> !Equal(uniq[j], leaf)
      {
        k := k + 1;
      }
      assert flat[..i + 1] == flat[..i] + [leaf];
      if k == |uniq| {
        uniq := uniq + [leaf];
        rep := rep[leaf := leaf];
      } else {
        rep := rep[leaf := uniq[k]];
      }
    }
    assert flat[..|flat|] == flat;
    f := l => if l in rep then rep[l] else l;
  }

  // ----- retyping repeated leaves

  predicate Valued(id: Id) {
    id.Arg? || (id.Opt? && id.argcount != 0)
  }

  /** The accumulating form of a value. */
  function Accumulator(id: Id, v: Value): Value {
    if !Valued(id) then Num(0)
    else if v.Null? then List([])
    else if v.Str? then List(Split(v.s))
    else v
  }

  method Retype(e: Leaf)
    requires Valued(e.id) ==> e.value.Null? || e.value.Str? || e.value.List?
    modifies e`value
    ensures e.value == Accumulator(e.id, old(e.value))
  {
    if e.id.Arg? || (e.id.Opt? && e.id.argcount != 0) {
      if e.value.Null? {
        e.value := List([]);
      } else if !e.value.List? {
        e.value := List(Split(e.value.s));
      }
    }
    if e.id.Cmd? || (e.id.Opt? && e.id.argcount == 0) {
      e.value := Num(0);
    }
  }

  /** What count() returns. */
  function Count(group: seq<Leaf>, leaf: Leaf): nat
    reads group`value, leaf`value
  {
    if group == [] then 0
    else (if Equal(group[0], leaf) then 1 else 0) + Count(group[1..], leaf)
  }

  ghost predicate DistinctIds(leaves: set<Leaf>) {
    forall a <- leaves, b <- leaves :: a.id == b.id ==> a == b
  }

  lemma {:induction false} CountIsMultiplicity(leaves: set<Leaf>, group: seq<Leaf>, leaf: Leaf)
    requires DistinctIds(leaves) && leaf in leaves && forall l <- group :: l in leaves
    ensures Count(group, leaf) == multiset(group)[leaf]
  {
    if group != [] {
      CountIsMultiplicity(leaves, group[1..], leaf);
      assert group == [group[0]] + group[1..];
    }
  }

  method RepeatedLeaves(group: seq<Leaf>, ghost leaves: set<Leaf>) returns (r: seq<Leaf>)
    requires DistinctIds(leaves) && forall l <- group :: l in leaves
    ensures forall l :: l in r <==> multiset(group)[l] >= 2
  {
    r := [];
    for i := 0 to |group|
      invariant forall l :: l in r <==> l in group[..i] && multiset(group)[l] >= 2
    {
      CountIsMultiplicity(leaves, group, group[i]);
      if Count(group, group[i]) > 1 {
        r := r + [group[i]];
      }
    }
    assert group[..|group|] == group;
  }

  ghost predicate RepeatedIn(alts: seq<seq<Leaf>>, leaf: Leaf) {
    exists alt: seq<Leaf> :: alt in alts && multiset(alt)[leaf] >= 2
  }

  /** Each leaf holds its accumulating form if it was retyped, else its first value. */
  ghost predicate Retyped(first: map<Leaf, Value>, retyped: set<Leaf>)
    reads first.Keys`value
  {
    forall l <- first.Keys :: l.value == if l in retyped then Accumulator(l.id, first[l]) else first[l]
  }

  ghost predicate Scalar(l: Leaf)
    reads l`value
  {
    Valued(l.id) ==> l.value.Null? || l.value.Str?
  }

  ghost predicate ScalarValues(first: map<Leaf, Value>) {
    forall l <- first.Keys :: Valued(l.id) ==> first[l].Null? || first[l].Str?
  }

  method RetypeAll(es: seq<Leaf>, ghost first: map<Leaf, Value>, ghost done: set<Leaf>)
    requires (forall e <- es :: e in first) && ScalarValues(first) && Retyped(first, done)
    modifies first.Keys`value
    ensures Retyped(first, done + set e <- es)
  {
    for i := 0 to |es|
      invariant Retyped(first, done + set e <- es[..i])
    {
      assert es[..i + 1] == es[..i] + [es[i]];
      Retype(es[i]);
    }
    assert es[..|es|] == es;
  }

  /** The leaves that some of the first k alternatives repeat. */
  ghost function RepeatedBefore(alts: seq<seq<Leaf>>, k: nat, leaves: set<Leaf>): set<Leaf>
    requires k <= |alts|
  {
    set l <- leaves | RepeatedIn(alts[..k], l)
  }

  lemma RepeatedNext(alts: seq<seq<Leaf>>, k: nat, leaves: set<Leaf>, repeated: seq<Leaf>)
    requires k < |alts| && (forall l <- repeated :: l in leaves)
    requires forall l :: l in repeated <==> multiset(alts[k])[l] >= 2
    ensures RepeatedBefore(alts, k + 1, leaves) == RepeatedBefore(alts, k, leaves) + set l <- repeated
  {}

  method FixRepeatingArguments(root: Node, ghost t: Pattern<Leaf>, ghost leaves: set<Leaf>)
    requires root.Valid(t) && leaves == set l <- Flat(t)
    requires DistinctIds(leaves) && forall l <- leaves :: Scalar(l)
    modifies leaves`value
    ensures forall l <- leaves ::
              l.value == if RepeatedInExpansion(t, l) then Accumulator(l.id, old(l.value)) else old(l.value)
  {
    var p := root.Snapshot(t);
    var either := Transform(p);
    UnionOfFlat(either.children);
    ghost var alts, first := Expand(either), map l <- leaves :: l.value;
    for k := 0 to |either.children|
      invariant Retyped(first, RepeatedBefore(alts, k, leaves))
    {
      var group := Leaves(either.children[k].children);
      assert group == alts[k];
      AlternativeUsesLeaves(t, either, k);
      var repeated := RepeatedLeaves(group, leaves);
      assert forall l <- repeated :: l in group;
      RepeatedNext(alts, k, leaves, repeated);
      RetypeAll(repeated, first, RepeatedBefore(alts, k, leaves));
    }
    assert alts[..|alts|] == alts;
    forall l <- leaves ensures RepeatedIn(alts, l) <==> RepeatedInExpansion(t, l) {
      SameBagsRepeatSame(either, t, l);
    }
  }

  lemma SameBagsRepeatSame<L>(p: Pattern<L>, q: Pattern<L>, leaf: L)
    requires Bags(Expand(p)) == Bags(Expand(q))
    ensures RepeatedInExpansion(p, leaf) <==> RepeatedInExpansion(q, leaf)
  {
    if RepeatedInExpansion(p, leaf) { BagsRepeat(p, q, leaf); }
    if RepeatedInExpansion(q, leaf) { BagsRepeat(q, p, leaf); }
  }

  lemma BagsRepeat<L>(p: Pattern<L>, q: Pattern<L>, leaf: L)
    requires Bags(Expand(p)) == Bags(Expand(q)) && RepeatedInExpansion(p, leaf)
    ensures RepeatedInExpansion(q, leaf)
  {
    var alt :| alt in Expand(p) && multiset(alt)[leaf] >= 2;
    var i :| 0 <= i < |Expand(p)| && Expand(p)[i] == alt;
    BagsMember(Expand(p), i);
    var j := BagsWitness(Expand(q), multiset(alt));
    assert Expand(q)[j] in Expand(q);
  }

  lemma AlternativeUsesLeaves(t: Pattern<Leaf>, either: Pattern<Leaf>, k: nat)
    requires Bags(Expand(either)) == Bags(Expand(t)) && k < |Expand(either)|
    ensures forall l <- Expand(either)[k] :: l in Flat(t)
  {
    var alt := Expand(either)[k];
    BagsMember(Expand(either), k);
    var j := BagsWitness(Expand(t), multiset(alt));
    forall l <- alt ensures l in Flat(t) {
      assert l in multiset(alt);
      assert l in multiset(Expand(t)[j]);
      ExpandUsesLeaves(t, Expand(t)[j], l);
    }
  }

  lemma {:induction false} ExpandUsesLeaves<L>(p: Pattern<L>, alt: seq<L>, l: L)
    requires alt in Expand(p) && l in alt
    ensures l in Flat(p)
    decreases p, 1
  {
    match p
    case Tip(_) =>
    case Branch(Either, cs) => UnionUsesLeaves(cs, alt, l);
    case Branch(OneOrMore, cs) =>
      var x, y := TimesFrom(Product(cs), Product(cs), alt);
      ProductUsesLeaves(cs, if l in x then x else y, l);
    case Branch(_, cs) => ProductUsesLeaves(cs, alt, l);
  }

  lemma {:induction false} ProductUsesLeaves<L>(ps: seq<Pattern<L>>, alt: seq<L>, l: L)
    requires alt in Product(ps) && l in alt
    ensures l in FlatAll(ps)
    decreases ps, 0
  {
    if ps != [] {
      var x, y := TimesFrom(Expand(ps[0]), Product(ps[1..]), alt);
      if l in x { ExpandUsesLeaves(ps[0], x, l); } else { ProductUsesLeaves(ps[1..], y, l); }
    }
  }

  lemma {:induction false} UnionUsesLeaves<L>(ps: seq<Pattern<L>>, alt: seq<L>, l: L)
    requires alt in Union(ps) && l in alt
    ensures l in FlatAll(ps)
    decreases ps, 0
  {
    if alt in Expand(ps[0]) { ExpandUsesLeaves(ps[0], alt, l); } else { UnionUsesLeaves(ps[1..], alt, l); }
  }

  // ----- the two passes together

  lemma {:induction false} FlatMap<L, M>(f: L -> M, p: Pattern<L>, m: M) returns (l: L)
    requires m in Flat(MapTree(f, p))
    ensures l in Flat(p) && m == f(l)
    decreases p, 1
  {
    match p
    case Tip(leaf) => l := leaf;
    case Branch(_, cs) => l := FlatMapAll(f, cs, m);
  }

  lemma {:induction false} FlatMapAll<L, M>(f: L -> M, ps: seq<Pattern<L>>, m: M) returns (l: L)
    requires m in FlatAll(MapAll(f, ps))
    ensures l in FlatAll(ps) && m == f(l)
    decreases ps, 0
  {
    if m in Flat(MapTree(f, ps[0])) {
      l := FlatMap(f, ps[0], m);
    } else {
      l := FlatMapAll(f, ps[1..], m);
    }
  }

  /** Leaves with one class and names also start with one value. */
  ghost predicate Consistent(leaves: set<Leaf>)
    reads leaves`value
  {
    forall a <- leaves, b <- leaves :: a.id == b.id ==> a.value == b.value
  }

  /** The tree keeps its shape, and each class and set of names has one object. */
  ghost predicate OneObjectEach(t: Pattern<Leaf>, shared: Pattern<Leaf>, f: Leaf -> Leaf, leaves: set<Leaf>) {
    && shared == MapTree(f, t)
    && (forall a <- leaves :: f(a) in leaves && f(a).id == a.id)
    && (forall a <- leaves, b <- leaves :: a.id == b.id <==> f(a) == f(b))
  }

  /** The first pass: leaves that were equal become one object. */
  method Share(root: Node, ghost t: Pattern<Leaf>, ghost leaves: set<Leaf>)
    returns (ghost shared: Pattern<Leaf>, ghost f: Leaf -> Leaf)
    requires root.Valid(t) && Consistent(leaves) && leaves == set l <- Flat(t)
    modifies root.repr`children
    ensures root.Valid(shared) && OneObjectEach(t, shared, f, leaves)
  {
    var flat := root.Snapshot(t);
    var uniq: seq<Leaf>;
    uniq, f := Unique(Flat(flat));
    shared := MapTree(f, t);
    root.FixIdentities(uniq, leaves, t, f);
  }

  lemma SharedLeaves(t: Pattern<Leaf>, f: Leaf -> Leaf, leaves: set<Leaf>)
    requires leaves == set l <- Flat(t)
    requires forall a <- leaves :: f(a) in leaves
    ensures forall m <- Flat(MapTree(f, t)) :: m in leaves && exists l <- leaves :: m == f(l)
  {
    forall m <- Flat(MapTree(f, t)) ensures m in leaves && exists l <- leaves :: m == f(l) {
      var l := FlatMap(f, t, m);
      assert l in leaves;
    }
  }

  /** After fix the tree has the same shape, leaves that were equal are one object,
      and exactly the leaves that some alternative repeats accumulate. */
  method Fix(root: Node, ghost t: Pattern<Leaf>, ghost leaves: set<Leaf>)
    returns (ghost shared: Pattern<Leaf>, ghost f: Leaf -> Leaf)
    requires root.Valid(t) && leaves == set l <- Flat(t)
    requires Consistent(leaves) && forall l <- leaves :: Scalar(l)
    modifies root.repr`children, leaves`value
    ensures root.Valid(shared) && OneObjectEach(t, shared, f, leaves)
    ensures forall l <- Flat(shared) :: l in leaves &&
              l.value == if RepeatedInExpansion(shared, l) then Accumulator(l.id, old(l.value)) else old(l.value)
  {
    shared, f := Share(root, t, leaves);
    SharedLeaves(t, f, leaves);
    ghost var kept := set l <- Flat(shared);
    FixRepeatingArguments(root, shared, kept);
  }

  // ----- shared leaves stand for their names

  function IdOf(l: Leaf): Id {
    l.id
  }

  ghost function Ids(p: Pattern<Leaf>): Pattern<Id> {
    MapTree(IdOf, p)
  }

  ghost function MapAlternative<L, M>(f: L -> M, alt: seq<L>): (r: seq<M>)
    ensures |r| == |alt|
  {
    seq(|alt|, i requires 0 <= i < |alt| => f(alt[i]))
  }

  ghost function MapAlternatives<L, M>(f: L -> M, alts: seq<seq<L>>): (r: seq<seq<M>>)
    ensures |r| == |alts|
  {
    seq(|alts|, i requires 0 <= i < |alts| => MapAlternative(f, alts[i]))
  }

  lemma MapPrefixed<L, M>(f: L -> M, x: seq<L>, b: seq<seq<L>>)
    ensures MapAlternatives(f, Prefixed(x, b)) == Prefixed(MapAlternative(f, x), MapAlternatives(f, b))
  {
    forall i | 0 <= i < |b|
      ensures MapAlternatives(f, Prefixed(x, b))[i] == Prefixed(MapAlternative(f, x), MapAlternatives(f, b))[i]
    {
      assert MapAlternative(f, x + b[i]) == MapAlternative(f, x) + MapAlternative(f, b[i]);
    }
  }

  lemma MapAppend<L, M>(f: L -> M, a: seq<seq<L>>, b: seq<seq<L>>)
    ensures MapAlternatives(f, a + b) == MapAlternatives(f, a) + MapAlternatives(f, b)
  {}

  lemma {:induction false} MapTimes<L, M>(f: L -> M, a: seq<seq<L>>, b: seq<seq<L>>)
    ensures MapAlternatives(f, Times(a, b)) == Times(MapAlternatives(f, a), MapAlternatives(f, b))
  {
    if a != [] {
      MapAppend(f, Prefixed(a[0], b), Times(a[1..], b));
      MapPrefixed(f, a[0], b);
      MapTimes(f, a[1..], b);
      assert MapAlternatives(f, a)[1..] == MapAlternatives(f, a[1..]);
    }
  }

  /** Renaming leaves commutes with expansion. */
  lemma {:induction false} ExpandMap<L, M>(f: L -> M, p: Pattern<L>)
    ensures Expand(MapTree(f, p)) == MapAlternatives(f, Expand(p))
    decreases p, 1
  {
    match p
    case Tip(l) => assert MapAlternative(f, [l]) == [f(l)];
    case Branch(Either, cs) => UnionMap(f, cs);
    case Branch(OneOrMore, cs) =>
      ProductMap(f, cs);
      MapTimes(f, Product(cs), Product(cs));
    case Branch(_, cs) => ProductMap(f, cs);
  }

  lemma {:induction false} ProductMap<L, M>(f: L -> M, ps: seq<Pattern<L>>)
    ensures Product(MapAll(f, ps)) == MapAlternatives(f, Product(ps))
    decreases ps, 0
  {
    if ps == [] {
      assert MapAlternative<L, M>(f, []) == [];
    } else {
      ExpandMap(f, ps[0]);
      ProductMap(f, ps[1..]);
      MapTimes(f, Expand(ps[0]), Product(ps[1..]));
    }
  }

  lemma {:induction false} UnionMap<L, M>(f: L -> M, ps: seq<Pattern<L>>)
    ensures Union(MapAll(f, ps)) == MapAlternatives(f, Union(ps))
    decreases ps, 0
  {
    if ps != [] {
      ExpandMap(f, ps[0]);
      UnionMap(f, ps[1..]);
      MapAppend(f, Expand(ps[0]), Union(ps[1..]));
    }
  }

  lemma {:induction false} MapMultiplicity(alt: seq<Leaf>, leaf: Leaf)
    requires forall l <- alt :: l.id == leaf.id ==> l == leaf
    ensures multiset(MapAlternative(IdOf, alt))[leaf.id] == multiset(alt)[leaf]
  {
    var ids := MapAlternative(IdOf, alt);
    if alt != [] {
      MapMultiplicity(alt[1..], leaf);
      assert ids[1..] == MapAlternative(IdOf, alt[1..]);
      assert ids == [ids[0]] + ids[1..];
      assert alt == [alt[0]] + alt[1..];
    }
  }

  /** On a tree whose leaves are shared, fix retypes a leaf exactly when some use
      of the program can give it at least twice. */
  lemma RetypedIffReusable(p: Pattern<Leaf>, leaf: Leaf)
    requires leaf in Flat(p) && DistinctIds(set l <- Flat(p)) && Inhabited(Ids(p))
    ensures RepeatedInExpansion(p, leaf) <==> Reusable(Ids(p), leaf.id)
  {
    ExpandMap(IdOf, p);
    RepeatedIffReusable(Ids(p), leaf.id);
    var alts, ids := Expand(p), Expand(Ids(p));
    forall i | 0 <= i < |alts| ensures multiset(ids[i])[leaf.id] == multiset(alts[i])[leaf] {
      forall l <- alts[i] ensures l in Flat(p) { ExpandUsesLeaves(p, alts[i], l); }
      MapMultiplicity(alts[i], leaf);
    }
    if RepeatedInExpansion(p, leaf) {
      var alt: seq<Leaf> :| alt in alts && multiset(alt)[leaf] >= 2;
      var i :| 0 <= i < |alts| && alts[i] == alt;
      assert ids[i] in ids;
    }
    if RepeatedInExpansion(Ids(p), leaf.id) {
      var alt :| alt in ids && multiset(alt)[leaf.id] >= 2;
      var i :| 0 <= i < |ids| && ids[i] == alt;
      assert alts[i] in alts;
    }
  }
}
