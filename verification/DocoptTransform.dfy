// transform: the worklist that expands a pattern into one Either of flat
// alternatives, and its meaning as a recursive expansion.
module DocoptTransform {
  import opened DocoptPattern

  // ----- the meaning: alternatives of a pattern, each a list of leaves

  ghost function Prefixed<L>(x: seq<L>, b: seq<seq<L>>): (r: seq<seq<L>>)
    ensures |r| == |b|
  {
    seq(|b|, i requires 0 <= i < |b| => x + b[i])
  }

  /** Every choice from a followed by every choice from b. */
  ghost function Times<L>(a: seq<seq<L>>, b: seq<seq<L>>): seq<seq<L>> {
    if a == [] then [] else Prefixed(a[0], b) + Times(a[1..], b)
  }

  /** Branches are products, Either is union, OneOrMore is its product with itself. */
  ghost function Expand<L>(p: Pattern<L>): seq<seq<L>>
    decreases p, 1
  {
    match p
    case Tip(l) => [[l]]
    case Branch(Either, cs) => Union(cs)
    case Branch(OneOrMore, cs) => Times(Product(cs), Product(cs))
    case Branch(_, cs) => Product(cs)
  }

  ghost function Product<L>(ps: seq<Pattern<L>>): seq<seq<L>>
    decreases ps, 0
  {
    if ps == [] then [[]] else Times(Expand(ps[0]), Product(ps[1..]))
  }

  ghost function Union<L>(ps: seq<Pattern<L>>): seq<seq<L>>
    decreases ps, 0
  {
    if ps == [] then [] else Expand(ps[0]) + Union(ps[1..])
  }

  ghost function Bag<L>(alts: seq<seq<L>>): (r: seq<multiset<L>>)
    ensures |r| == |alts|
  {
    seq(|alts|, i requires 0 <= i < |alts| => multiset(alts[i]))
  }

  /** Alternatives up to order: a bag of bags of leaves. */
  ghost function Bags<L>(alts: seq<seq<L>>): multiset<multiset<L>> {
    multiset(Bag(alts))
  }

  // ----- algebra of products and bags

  lemma BagsAppend<L>(a: seq<seq<L>>, b: seq<seq<L>>)
    ensures Bags(a + b) == Bags(a) + Bags(b)
  {
    assert Bag(a + b) == Bag(a) + Bag(b);
  }

  lemma BagsMember<L>(a: seq<seq<L>>, i: nat)
    requires i < |a|
    ensures multiset(a[i]) in Bags(a)
  {
    assert Bag(a)[i] == multiset(a[i]);
  }

  lemma BagsWitness<L>(a: seq<seq<L>>, m: multiset<L>) returns (i: nat)
    requires m in Bags(a)
    ensures i < |a| && multiset(a[i]) == m
  {
    i :| i < |Bag(a)| && Bag(a)[i] == m;
  }

  lemma {:induction false} TimesUnion<L>(a: seq<seq<L>>, b: seq<seq<L>>, c: seq<seq<L>>)
    ensures Times(a + b, c) == Times(a, c) + Times(b, c)
  {
    if a == [] {
      assert a + b == b;
    } else {
      assert (a + b)[1..] == a[1..] + b;
      TimesUnion(a[1..], b, c);
    }
  }

  lemma PrefixedTwice<L>(x: seq<L>, y: seq<L>, c: seq<seq<L>>)
    ensures Prefixed(x + y, c) == Prefixed(x, Prefixed(y, c))
  {
    forall i | 0 <= i < |c|
      ensures Prefixed(x + y, c)[i] == Prefixed(x, Prefixed(y, c))[i]
    {
      assert (x + y) + c[i] == x + (y + c[i]);
    }
  }

  lemma PrefixedEmpty<L>(c: seq<seq<L>>)
    ensures Prefixed([], c) == c
  {
    forall i | 0 <= i < |c| ensures Prefixed([], c)[i] == c[i] {
      assert [] + c[i] == c[i];
    }
  }

  lemma {:induction false} PrefixedTimes<L>(x: seq<L>, b: seq<seq<L>>, c: seq<seq<L>>)
    ensures Times(Prefixed(x, b), c) == Prefixed(x, Times(b, c))
  {
    if b == [] {
    } else {
      assert Prefixed(x, b)[1..] == Prefixed(x, b[1..]);
      PrefixedTwice(x, b[0], c);
      PrefixedTimes(x, b[1..], c);
      assert Prefixed(x, Times(b, c)) == Prefixed(x, Prefixed(b[0], c)) + Prefixed(x, Times(b[1..], c));
    }
  }

  lemma {:induction false} TimesAssociative<L>(a: seq<seq<L>>, b: seq<seq<L>>, c: seq<seq<L>>)
    ensures Times(Times(a, b), c) == Times(a, Times(b, c))
  {
    if a != [] {
      TimesUnion(Prefixed(a[0], b), Times(a[1..], b), c);
      PrefixedTimes(a[0], b, c);
      TimesAssociative(a[1..], b, c);
    }
  }

  lemma TimesOne<L>(x: seq<L>, b: seq<seq<L>>)
    ensures Times([x], b) == Prefixed(x, b)
  {}

  lemma {:induction false} ProductAppend<L>(a: seq<Pattern<L>>, b: seq<Pattern<L>>)
    ensures Product(a + b) == Times(Product(a), Product(b))
  {
    if a == [] {
      assert a + b == b;
      TimesOne([], Product(b));
      PrefixedEmpty(Product(b));
    } else {
      assert (a + b)[1..] == a[1..] + b;
      ProductAppend(a[1..], b);
      TimesAssociative(Expand(a[0]), Product(a[1..]), Product(b));
    }
  }

  lemma ProductOne<L>(p: Pattern<L>)
    ensures Product([p]) == Expand(p)
  {
    TimesUnit(Expand(p));
  }

  lemma {:induction false} TimesUnit<L>(a: seq<seq<L>>)
    ensures Times(a, [[]]) == a
  {
    if a != [] {
      TimesUnit(a[1..]);
      assert a[0] + [] == a[0];
      assert Prefixed(a[0], [[]]) == [a[0]];
    }
  }

  /** A fixed prefix may be moved behind a free choice: the bags do not change. */
  lemma {:induction false} PrefixCommutes<L>(x: seq<L>, e: seq<seq<L>>, r: seq<seq<L>>)
    ensures Bags(Prefixed(x, Times(e, r))) == Bags(Times(e, Prefixed(x, r)))
  {
    if e != [] {
      var front, back := Prefixed(e[0], r), Times(e[1..], r);
      assert Prefixed(x, front + back) == Prefixed(x, front) + Prefixed(x, back);
      BagsAppend(Prefixed(x, front), Prefixed(x, back));
      BagsAppend(Prefixed(e[0], Prefixed(x, r)), Times(e[1..], Prefixed(x, r)));
      PrefixCommutes(x, e[1..], r);
      forall i | 0 <= i < |r|
        ensures multiset(Prefixed(x, front)[i]) == multiset(Prefixed(e[0], Prefixed(x, r))[i])
      {
        assert Prefixed(x, front)[i] == x + (e[0] + r[i]);
        assert Prefixed(e[0], Prefixed(x, r))[i] == e[0] + (x + r[i]);
      }
      assert Bag(Prefixed(x, front)) == Bag(Prefixed(e[0], Prefixed(x, r)));
    }
  }

  // ----- groups of the worklist

  ghost predicate AllTips<L>(g: seq<Pattern<L>>) {
    forall p <- g :: p.Tip?
  }

  function Leaves<L>(g: seq<Pattern<L>>): (r: seq<L>)
    requires AllTips(g)
    ensures |r| == |g|
  {
    seq(|g|, i requires 0 <= i < |g| => g[i].leaf)
  }

  lemma {:induction false} ProductOfTips<L>(g: seq<Pattern<L>>)
    requires AllTips(g)
    ensures Product(g) == [Leaves(g)]
  {
    if g == [] {
    } else {
      ProductOfTips(g[1..]);
      TimesOne([g[0].leaf], Product(g[1..]));
      assert [g[0].leaf] + Leaves(g[1..]) == Leaves(g);
    }
  }

  /** Moving a child in front of the leaves that precede it keeps the bags. */
  lemma Reorder<L>(tips: seq<Pattern<L>>, c: seq<Pattern<L>>, rest: seq<Pattern<L>>)
    requires AllTips(tips)
    ensures Bags(Product(tips + c + rest)) == Bags(Product(c + (tips + rest)))
  {
    ProductOfTips(tips);
    var x := Leaves(tips);
    assert tips + c + rest == tips + (c + rest);
    ProductAppend(tips, c + rest);
    ProductAppend(c, rest);
    TimesOne(x, Product(c + rest));
    ProductAppend(c, tips + rest);
    ProductAppend(tips, rest);
    TimesOne(x, Product(rest));
    PrefixCommutes(x, Product(c), Product(rest));
  }

  ghost function GroupBags<L>(groups: seq<seq<Pattern<L>>>): multiset<multiset<L>> {
    if groups == [] then multiset{} else Bags(Product(groups[0])) + GroupBags(groups[1..])
  }

  lemma {:induction false} GroupBagsAppend<L>(a: seq<seq<Pattern<L>>>, b: seq<seq<Pattern<L>>>)
    ensures GroupBags(a + b) == GroupBags(a) + GroupBags(b)
  {
    if a == [] {
      assert a + b == b;
    } else {
      assert (a + b)[1..] == a[1..] + b;
      GroupBagsAppend(a[1..], b);
    }
  }

  /** The groups that replace a group whose first branch is an Either. */
  function Distribute<L>(cs: seq<Pattern<L>>, rest: seq<Pattern<L>>): seq<seq<Pattern<L>>> {
    if cs == [] then [] else [[cs[0]] + rest] + Distribute(cs[1..], rest)
  }

  lemma {:induction false} DistributeAppend<L>(a: seq<Pattern<L>>, b: seq<Pattern<L>>, rest: seq<Pattern<L>>)
    ensures Distribute(a + b, rest) == Distribute(a, rest) + Distribute(b, rest)
  {
    if a == [] {
      assert a + b == b;
    } else {
      assert (a + b)[1..] == a[1..] + b;
      DistributeAppend(a[1..], b, rest);
    }
  }

  lemma {:induction false} DistributeBags<L>(cs: seq<Pattern<L>>, rest: seq<Pattern<L>>)
    ensures GroupBags(Distribute(cs, rest)) == Bags(Times(Union(cs), Product(rest)))
  {
    if cs == [] {
      assert Bag<L>([]) == [];
    } else {
      var first := [cs[0]] + rest;
      assert Distribute(cs, rest)[1..] == Distribute(cs[1..], rest);
      DistributeBags(cs[1..], rest);
      assert first[1..] == rest;
      TimesUnion(Expand(cs[0]), Union(cs[1..]), Product(rest));
      BagsAppend(Times(Expand(cs[0]), Product(rest)), Times(Union(cs[1..]), Product(rest)));
    }
  }

  /** What one turn of the worklist puts in place of a group with branch c. */
  function Replacement<L>(c: Pattern<L>, others: seq<Pattern<L>>): seq<seq<Pattern<L>>>
    requires c.Branch?
  {
    match c.kind
    case Either => Distribute(c.children, others)
    case OneOrMore => [c.children + c.children + others]
    case _ => [c.children + others]
  }

  /** One turn of the worklist keeps the bags of alternatives. */
  lemma TurnKeepsBags<L>(tips: seq<Pattern<L>>, c: Pattern<L>, rest: seq<Pattern<L>>)
    requires AllTips(tips) && c.Branch?
    ensures GroupBags(Replacement(c, tips + rest)) == Bags(Product(tips + [c] + rest))
  {
    Reorder(tips, [c], rest);
    ProductAppend([c], tips + rest);
    ProductOne(c);
    var cs := c.children;
    if c.kind == Either {
      DistributeBags(cs, tips + rest);
    } else {
      var g := if c.kind == OneOrMore then cs + cs + (tips + rest) else cs + (tips + rest);
      ProductAppend(cs, cs);
      ProductAppend(cs + cs, tips + rest);
      ProductAppend(cs, tips + rest);
      assert GroupBags([g]) == Bags(Product(g)) + GroupBags([g][1..]);
    }
  }

  // ----- termination: a weight that every turn lowers

  /** Weight of a tree: leaves weigh 1, products multiply, unions add, repetition squares. */
  ghost function Weight<L>(p: Pattern<L>): (w: nat)
    ensures w >= 1
    decreases p, 1
  {
    match p
    case Tip(_) => 1
    case Branch(Either, cs) => 1 + SumWeight(cs)
    case Branch(OneOrMore, cs) => 1 + GroupWeight(cs) * GroupWeight(cs)
    case Branch(_, cs) => 1 + GroupWeight(cs)
  }

  ghost function GroupWeight<L>(g: seq<Pattern<L>>): (w: nat)
    ensures w >= 1
    decreases g, 0
  {
    if g == [] then 1 else
      MulPositive(Weight(g[0]), GroupWeight(g[1..]));
      Weight(g[0]) * GroupWeight(g[1..])
  }

  ghost function SumWeight<L>(ps: seq<Pattern<L>>): nat
    decreases ps, 0
  {
    if ps == [] then 0 else Weight(ps[0]) + SumWeight(ps[1..])
  }

  ghost function TotalWeight<L>(groups: seq<seq<Pattern<L>>>): nat {
    if groups == [] then 0 else GroupWeight(groups[0]) + TotalWeight(groups[1..])
  }

  lemma MulPositive(a: nat, b: nat)
    requires a >= 1 && b >= 1
    ensures a * b >= 1
  {}

  lemma {:induction false} GroupWeightAppend<L>(a: seq<Pattern<L>>, b: seq<Pattern<L>>)
    ensures GroupWeight(a + b) == GroupWeight(a) * GroupWeight(b)
  {
    if a == [] {
      assert a + b == b;
    } else {
      assert (a + b)[1..] == a[1..] + b;
      GroupWeightAppend(a[1..], b);
      MulAssociative(Weight(a[0]), GroupWeight(a[1..]), GroupWeight(b));
    }
  }

  lemma MulAssociative(a: nat, b: nat, c: nat)
    ensures a * b * c == a * (b * c)
  {}

  lemma {:induction false} TipsWeighOne<L>(tips: seq<Pattern<L>>)
    requires AllTips(tips)
    ensures GroupWeight(tips) == 1
  {
    if tips != [] { TipsWeighOne(tips[1..]); }
  }

  lemma {:induction false} TotalWeightAppend<L>(a: seq<seq<Pattern<L>>>, b: seq<seq<Pattern<L>>>)
    ensures TotalWeight(a + b) == TotalWeight(a) + TotalWeight(b)
  {
    if a == [] {
      assert a + b == b;
    } else {
      assert (a + b)[1..] == a[1..] + b;
      TotalWeightAppend(a[1..], b);
    }
  }

  lemma {:induction false} DistributeWeight<L>(cs: seq<Pattern<L>>, rest: seq<Pattern<L>>)
    ensures TotalWeight(Distribute(cs, rest)) == SumWeight(cs) * GroupWeight(rest)
  {
    if cs != [] {
      assert ([cs[0]] + rest)[1..] == rest;
      assert Distribute(cs, rest)[1..] == Distribute(cs[1..], rest);
      DistributeWeight(cs[1..], rest);
      Distributes(Weight(cs[0]), SumWeight(cs[1..]), GroupWeight(rest));
    }
  }

  lemma Distributes(a: nat, b: nat, c: nat)
    ensures (a + b) * c == a * c + b * c
  {}

  /** One turn of the worklist lowers the total weight, whatever it duplicates. */
  lemma TurnLowersWeight<L>(tips: seq<Pattern<L>>, c: Pattern<L>, rest: seq<Pattern<L>>)
    requires AllTips(tips) && c.Branch?
    ensures TotalWeight(Replacement(c, tips + rest)) < GroupWeight(tips + [c] + rest)
  {
    var cs, w := c.children, GroupWeight(rest);
    TipsWeighOne(tips);
    GroupWeightAppend(tips, rest);
    GroupWeightAppend(tips, [c]);
    GroupWeightAppend(tips + [c], rest);
    assert [c][1..] == [];
    assert GroupWeight(tips + [c] + rest) == Weight(c) * w;
    if c.kind == Either {
      DistributeWeight(cs, tips + rest);
      Distributes(1, SumWeight(cs), w);
    } else {
      var inner := if c.kind == OneOrMore then cs + cs else cs;
      GroupWeightAppend(cs, cs);
      GroupWeightAppend(inner, tips + rest);
      Distributes(1, GroupWeight(inner), w);
      assert [inner + (tips + rest)][1..] == [];
    }
  }

  // ----- finished groups

  /** One Either of Requireds of leaves. */
  ghost predicate Flattened<L>(p: Pattern<L>) {
    && p.Branch? && p.kind == Either
    && forall c <- p.children :: c.Branch? && c.kind == Required && AllTips(c.children)
  }

  lemma {:induction false} UnionOfFlat<L>(cs: seq<Pattern<L>>)
    requires forall c <- cs :: c.Branch? && c.kind == Required && AllTips(c.children)
    ensures |Union(cs)| == |cs|
    ensures forall i :: 0 <= i < |cs| ==> Union(cs)[i] == Leaves(cs[i].children)
  {
    if cs != [] {
      UnionOfFlat(cs[1..]);
      ProductOfTips(cs[0].children);
    }
  }

  /** Position of the first branch in a group, or its length. */
  function FirstBranch<L>(g: seq<Pattern<L>>): (i: nat)
    ensures i <= |g| && AllTips(g[..i]) && (i < |g| ==> g[i].Branch?)
  {
    if g == [] || g[0].Branch? then 0 else 1 + FirstBranch(g[1..])
  }

  /** Finished groups as the children of the resulting Either. */
  function Wrap<L>(result: seq<seq<Pattern<L>>>): Pattern<L> {
    Branch(Either, seq(|result|, i requires 0 <= i < |result| => Branch(Required, result[i])))
  }

  lemma {:induction false} WrapKeepsBags<L>(result: seq<seq<Pattern<L>>>)
    ensures Bags(Expand(Wrap(result))) == GroupBags(result)
  {
    if result == [] {
      assert Bag<L>([]) == [];
    } else {
      var cs := Wrap(result).children;
      assert cs[1..] == Wrap(result[1..]).children;
      WrapKeepsBags(result[1..]);
      BagsAppend(Expand(cs[0]), Union(cs[1..]));
    }
  }

  // ----- the worklist

  ghost predicate Progress<L>(pattern: Pattern<L>, result: seq<seq<Pattern<L>>>, groups: seq<seq<Pattern<L>>>) {
    && (forall g <- result :: AllTips(g))
    && GroupBags(result) + GroupBags(groups) == Bags(Expand(pattern))
  }

  /** Expanding the group at the front keeps the progress and lowers the weight. */
  lemma ExpandTurn<L>(pattern: Pattern<L>, result: seq<seq<Pattern<L>>>, groups: seq<seq<Pattern<L>>>, i: nat)
    requires Progress(pattern, result, groups)
    requires groups != [] && i < |groups[0]| && groups[0][i].Branch? && AllTips(groups[0][..i])
    ensures var g := groups[0];
            var next := groups[1..] + Replacement(g[i], g[..i] + g[i + 1..]);
            Progress(pattern, result, next) && TotalWeight(next) < TotalWeight(groups)
  {
    var g := groups[0];
    assert g == g[..i] + [g[i]] + g[i + 1..];
    TurnKeepsBags(g[..i], g[i], g[i + 1..]);
    TurnLowersWeight(g[..i], g[i], g[i + 1..]);
    GroupBagsAppend(groups[1..], Replacement(g[i], g[..i] + g[i + 1..]));
    TotalWeightAppend(groups[1..], Replacement(g[i], g[..i] + g[i + 1..]));
  }

  lemma FinishTurn<L>(pattern: Pattern<L>, result: seq<seq<Pattern<L>>>, groups: seq<seq<Pattern<L>>>)
    requires Progress(pattern, result, groups) && groups != [] && AllTips(groups[0])
    ensures Progress(pattern, result + [groups[0]], groups[1..])
    ensures TotalWeight(groups[1..]) < TotalWeight(groups)
  {
    GroupBagsAppend(result, [groups[0]]);
    assert [groups[0]][1..] == [];
  }

  /** Appends one group for every child of an Either. */
  method Spread<L>(groups: seq<seq<Pattern<L>>>, cs: seq<Pattern<L>>, others: seq<Pattern<L>>)
    returns (r: seq<seq<Pattern<L>>>)
    ensures r == groups + Distribute(cs, others)
  {
    r := groups;
    for k := 0 to |cs|
      invariant r == groups + Distribute(cs[..k], others)
    {
      assert cs[..k + 1] == cs[..k] + [cs[k]];
      DistributeAppend(cs[..k], [cs[k]], others);
      assert [cs[k]][1..] == [];
      r := r + [[cs[k]] + others];
    }
    assert cs[..|cs|] == cs;
  }

  /** Appends what replaces a group. */
  method Replace<L>(groups: seq<seq<Pattern<L>>>, child: Pattern<L>, others: seq<Pattern<L>>)
    returns (r: seq<seq<Pattern<L>>>)
    requires child.Branch?
    ensures r == groups + Replacement(child, others)
  {
    match child.kind {
      case Either => r := Spread(groups, child.children, others);
      case OneOrMore => r := groups + [child.children + child.children + others];
      case _ => r := groups + [child.children + others];
    }
  }

  lemma StartsWith<L>(pattern: Pattern<L>)
    ensures Progress(pattern, [], [[pattern]])
  {
    ProductOne(pattern);
    assert [[pattern]][1..] == [];
  }

  lemma EndsWith<L>(pattern: Pattern<L>, result: seq<seq<Pattern<L>>>)
    requires Progress(pattern, result, [])
    ensures GroupBags(result) == Bags(Expand(pattern))
  {}

  method Transform<L>(pattern: Pattern<L>) returns (r: Pattern<L>)
    ensures Flattened(r)
    ensures Bags(Expand(r)) == Bags(Expand(pattern))
  {
    hide Expand, Bags, GroupBags, Product;
    var result: seq<seq<Pattern<L>>> := [];
    var groups := [[pattern]];
    StartsWith(pattern);
    assert groups[1..] == [];
    while groups != []
      invariant Progress(pattern, result, groups)
      decreases TotalWeight(groups)
    {
      var children := groups[0];
      var i := FirstBranch(children);
      if i < |children| {
        ExpandTurn(pattern, result, groups, i);
        var child, others := children[i], children[..i] + children[i + 1..];
        groups := Replace(groups[1..], child, others);
      } else {
        assert children[..i] == children;
        FinishTurn(pattern, result, groups);
        groups := groups[1..];
        result := result + [children];
      }
    }
    EndsWith(pattern, result);
    WrapKeepsBags(result);
    r := Wrap(result);
  }
}
