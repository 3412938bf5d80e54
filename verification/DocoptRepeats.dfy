// Why transform finds the leaves that must accumulate: a leaf occurs twice in
// some alternative of the expansion exactly when some use of the program can
// give it twice.
module DocoptRepeats {
  import opened Basics
  import opened DocoptPattern
  import opened DocoptTransform
  import opened DocoptMatch

  function UsedLeaves(w: seq<Use>): (r: seq<Id>)
    ensures |r| == |w|
  {
    seq(|w|, i requires 0 <= i < |w| => w[i].leaf)
  }

  /** How often a word uses a leaf. */
  ghost function Uses(w: seq<Use>, id: Id): nat {
    multiset(UsedLeaves(w))[id]
  }

  /** The most occurrences of a leaf in any alternative. */
  ghost function Occurrences(p: Pattern<Id>, id: Id): nat
    decreases p, 1
  {
    match p
    case Tip(leaf) => if leaf == id then 1 else 0
    case Branch(Either, cs) => OccurrencesMax(cs, id)
    case Branch(OneOrMore, cs) => 2 * OccurrencesSum(cs, id)
    case Branch(_, cs) => OccurrencesSum(cs, id)
  }

  ghost function OccurrencesSum(ps: seq<Pattern<Id>>, id: Id): nat
    decreases ps, 0
  {
    if ps == [] then 0 else Occurrences(ps[0], id) + OccurrencesSum(ps[1..], id)
  }

  ghost function OccurrencesMax(ps: seq<Pattern<Id>>, id: Id): nat
    decreases ps, 0
  {
    if ps == [] then 0 else Max(Occurrences(ps[0], id), OccurrencesMax(ps[1..], id))
  }

  lemma UsesAppend(u: seq<Use>, v: seq<Use>, id: Id)
    ensures Uses(u + v, id) == Uses(u, id) + Uses(v, id)
  {
    assert UsedLeaves(u + v) == UsedLeaves(u) + UsedLeaves(v);
  }

  lemma UsesSplit(w: seq<Use>, k: nat, id: Id)
    requires k <= |w|
    ensures Uses(w, id) == Uses(w[..k], id) + Uses(w[k..], id)
  {
    assert w == w[..k] + w[k..];
    UsesAppend(w[..k], w[k..], id);
  }

  // ----- a word uses no leaf more often than the expansion shows

  lemma {:induction false} MaxBounds(ps: seq<Pattern<Id>>, i: nat, id: Id)
    requires i < |ps|
    ensures Occurrences(ps[i], id) <= OccurrencesMax(ps, id)
  {
    if i > 0 { MaxBounds(ps[1..], i - 1, id); }
  }

  lemma {:induction false} LangBounded(p: Pattern<Id>, w: seq<Use>, id: Id)
    requires Lang(p, w) && Occurrences(p, id) <= 1
    ensures Uses(w, id) <= Occurrences(p, id)
    decreases p, 2, 0
  {
    match p
    case Tip(leaf) =>
      assert UsedLeaves(w) == [leaf];
    case Branch(Either, cs) =>
      var i :| 0 <= i < |cs| && Lang(cs[i], w);
      MaxBounds(cs, i, id);
      LangBounded(cs[i], w, id);
    case Branch(OneOrMore, cs) =>
      var n: nat :| n >= 1 && LangPower(cs, w, n);
      PowerBounded(cs, w, n, id);
    case Branch(Required, cs) => SeqBounded(cs, w, false, id);
    case Branch(_, cs) => SeqBounded(cs, w, true, id);
  }

  lemma {:induction false} SeqBounded(ps: seq<Pattern<Id>>, w: seq<Use>, droppable: bool, id: Id)
    requires LangSeq(ps, w, droppable) && OccurrencesSum(ps, id) <= 1
    ensures Uses(w, id) <= OccurrencesSum(ps, id)
    decreases ps, 0, 0
  {
    if ps == [] {
      assert UsedLeaves(w) == [];
    } else {
      var k :| 0 <= k <= |w| && LangPart(ps[0], w[..k], droppable) && LangSeq(ps[1..], w[k..], droppable);
      UsesSplit(w, k, id);
      SeqBounded(ps[1..], w[k..], droppable, id);
      if droppable && w[..k] == [] {
        assert UsedLeaves(w[..k]) == [];
      } else {
        LangBounded(ps[0], w[..k], id);
      }
    }
  }

  lemma {:induction false} PowerBounded(ps: seq<Pattern<Id>>, w: seq<Use>, n: nat, id: Id)
    requires LangPower(ps, w, n) && OccurrencesSum(ps, id) == 0
    ensures Uses(w, id) == 0
    decreases ps, 1, n
  {
    if n == 0 {
      assert UsedLeaves(w) == [];
    } else {
      var k :| 0 <= k <= |w| && LangSeq(ps, w[..k], false) && LangPower(ps, w[k..], n - 1);
      UsesSplit(w, k, id);
      SeqBounded(ps, w[..k], false, id);
      PowerBounded(ps, w[k..], n - 1, id);
    }
  }

  // ----- some alternative reaches the bound

  lemma {:induction false} TimesHas<L>(a: seq<seq<L>>, b: seq<seq<L>>, x: seq<L>, y: seq<L>)
    requires x in a && y in b
    ensures x + y in Times(a, b)
  {
    if x == a[0] {
      var j :| 0 <= j < |b| && b[j] == y;
      assert Prefixed(a[0], b)[j] == x + y;
    } else {
      assert x in a[1..];
      TimesHas(a[1..], b, x, y);
    }
  }

  lemma {:induction false} TimesFrom<L>(a: seq<seq<L>>, b: seq<seq<L>>, z: seq<L>) returns (x: seq<L>, y: seq<L>)
    requires z in Times(a, b)
    ensures x in a && y in b && z == x + y
  {
    if z in Prefixed(a[0], b) {
      var j :| 0 <= j < |b| && Prefixed(a[0], b)[j] == z;
      x, y := a[0], b[j];
    } else {
      x, y := TimesFrom(a[1..], b, z);
    }
  }

  lemma {:induction false} AlternativeBounded(p: Pattern<Id>, alt: seq<Id>, id: Id)
    requires alt in Expand(p)
    ensures multiset(alt)[id] <= Occurrences(p, id)
    decreases p, 1
  {
    match p
    case Tip(leaf) =>
      assert alt == [leaf];
    case Branch(Either, cs) => UnionBounded(cs, alt, id);
    case Branch(OneOrMore, cs) =>
      var x, y := TimesFrom(Product(cs), Product(cs), alt);
      ProductBounded(cs, x, id);
      ProductBounded(cs, y, id);
    case Branch(_, cs) => ProductBounded(cs, alt, id);
  }

  lemma {:induction false} ProductBounded(ps: seq<Pattern<Id>>, alt: seq<Id>, id: Id)
    requires alt in Product(ps)
    ensures multiset(alt)[id] <= OccurrencesSum(ps, id)
    decreases ps, 0
  {
    if ps == [] {
      assert alt == [];
    } else {
      var x, y := TimesFrom(Expand(ps[0]), Product(ps[1..]), alt);
      AlternativeBounded(ps[0], x, id);
      ProductBounded(ps[1..], y, id);
    }
  }

  lemma {:induction false} UnionBounded(ps: seq<Pattern<Id>>, alt: seq<Id>, id: Id)
    requires alt in Union(ps)
    ensures multiset(alt)[id] <= OccurrencesMax(ps, id)
    decreases ps, 0
  {
    if alt in Expand(ps[0]) {
      AlternativeBounded(ps[0], alt, id);
    } else {
      UnionBounded(ps[1..], alt, id);
    }
  }

  lemma {:induction false} AlternativeReached(p: Pattern<Id>, id: Id) returns (alt: seq<Id>)
    requires Inhabited(p)
    ensures alt in Expand(p) && multiset(alt)[id] == Occurrences(p, id)
    decreases p, 1
  {
    match p
    case Tip(leaf) => alt := [leaf];
    case Branch(Either, cs) => alt := UnionReached(cs, id);
    case Branch(OneOrMore, cs) =>
      var x := ProductReached(cs, id);
      TimesHas(Product(cs), Product(cs), x, x);
      alt := x + x;
    case Branch(_, cs) => alt := ProductReached(cs, id);
  }

  lemma {:induction false} ProductReached(ps: seq<Pattern<Id>>, id: Id) returns (alt: seq<Id>)
    requires forall p <- ps :: Inhabited(p)
    ensures alt in Product(ps) && multiset(alt)[id] == OccurrencesSum(ps, id)
    decreases ps, 0
  {
    if ps == [] {
      alt := [];
    } else {
      var x := AlternativeReached(ps[0], id);
      var y := ProductReached(ps[1..], id);
      TimesHas(Expand(ps[0]), Product(ps[1..]), x, y);
      alt := x + y;
    }
  }

  lemma {:induction false} UnionReached(ps: seq<Pattern<Id>>, id: Id) returns (alt: seq<Id>)
    requires ps != [] && forall p <- ps :: Inhabited(p)
    ensures alt in Union(ps) && multiset(alt)[id] == OccurrencesMax(ps, id)
    decreases ps, 0
  {
    alt := AlternativeReached(ps[0], id);
    if |ps| > 1 && Occurrences(ps[0], id) < OccurrencesMax(ps[1..], id) {
      alt := UnionReached(ps[1..], id);
    }
  }

  // ----- every alternative can be given on a command line

  function Sample(leaf: Id): (item: Item)
    ensures Fits(leaf, item)
  {
    match leaf
    case Arg(_) => Item(Arg(Nothing), Null)
    case Cmd(name) => Item(Arg(Nothing), Str(name))
    case Opt(_, _, _) => Item(leaf, Null)
  }

  function Samples(alt: seq<Id>): (w: seq<Use>)
    ensures |w| == |alt|
  {
    seq(|alt|, i requires 0 <= i < |alt| => Use(alt[i], Sample(alt[i])))
  }

  lemma SamplesAppend(a: seq<Id>, b: seq<Id>)
    ensures Samples(a + b) == Samples(a) + Samples(b)
  {}

  /** Giving every leaf of an alternative once is a word of the language. */
  lemma {:induction false} AlternativeDerivable(p: Pattern<Id>, alt: seq<Id>)
    requires alt in Expand(p)
    ensures Lang(p, Samples(alt))
    decreases p, 1
  {
    match p
    case Tip(leaf) => assert alt == [leaf];
    case Branch(Either, cs) => UnionDerivable(cs, alt);
    case Branch(OneOrMore, cs) =>
      var x, y := TimesFrom(Product(cs), Product(cs), alt);
      ProductDerivable(cs, x, false);
      ProductDerivable(cs, y, false);
      SamplesAppend(x, y);
      LangPowerCons(cs, Samples(y), [], 0);
      assert Samples(y) + [] == Samples(y);
      LangPowerCons(cs, Samples(x), Samples(y), 1);
    case Branch(Required, cs) => ProductDerivable(cs, alt, false);
    case Branch(_, cs) => ProductDerivable(cs, alt, true);
  }

  lemma {:induction false} ProductDerivable(ps: seq<Pattern<Id>>, alt: seq<Id>, droppable: bool)
    requires alt in Product(ps)
    ensures LangSeq(ps, Samples(alt), droppable)
    decreases ps, 0
  {
    if ps == [] {
      assert alt == [];
    } else {
      var x, y := TimesFrom(Expand(ps[0]), Product(ps[1..]), alt);
      AlternativeDerivable(ps[0], x);
      ProductDerivable(ps[1..], y, droppable);
      SamplesAppend(x, y);
      LangSeqCons(ps[0], ps[1..], Samples(x), Samples(y), droppable);
      assert [ps[0]] + ps[1..] == ps;
    }
  }

  lemma {:induction false} UnionDerivable(ps: seq<Pattern<Id>>, alt: seq<Id>)
    requires alt in Union(ps)
    ensures exists i :: 0 <= i < |ps| && Lang(ps[i], Samples(alt))
    decreases ps, 0
  {
    if alt in Expand(ps[0]) {
      AlternativeDerivable(ps[0], alt);
    } else {
      UnionDerivable(ps[1..], alt);
      var i :| 0 <= i < |ps[1..]| && Lang(ps[1..][i], Samples(alt));
      assert ps[i + 1] == ps[1..][i];
    }
  }

  // ----- the two readings of "repeated" agree

  /** The leaf occurs at least twice in some alternative. */
  ghost predicate RepeatedInExpansion<L>(p: Pattern<L>, leaf: L) {
    exists alt :: alt in Expand(p) && multiset(alt)[leaf] >= 2
  }

  /** Some derivable use of the program gives the leaf at least twice. */
  ghost predicate Reusable(p: Pattern<Id>, id: Id) {
    exists w :: Lang(p, w) && Uses(w, id) >= 2
  }

  lemma RepeatedIffReusable(p: Pattern<Id>, id: Id)
    requires Inhabited(p)
    ensures RepeatedInExpansion(p, id) <==> Reusable(p, id)
  {
    if RepeatedInExpansion(p, id) {
      var alt :| alt in Expand(p) && multiset(alt)[id] >= 2;
      AlternativeDerivable(p, alt);
      assert UsedLeaves(Samples(alt)) == alt;
    }
    if Reusable(p, id) {
      var w :| Lang(p, w) && Uses(w, id) >= 2;
      if Occurrences(p, id) <= 1 {
        LangBounded(p, w, id);
      }
      var alt := AlternativeReached(p, id);
    }
  }

  /** A leaf that no alternative repeats is collected at most once, so its value
      is never overwritten. */
  lemma MatchedAtMostOnce(p: Pattern<Id>, left: seq<Item>, id: Id)
    requires Unary(p) && Named(p) && Inhabited(p) && ParsedArgv(left)
    requires !RepeatedInExpansion(p, id) && Match(p, left).ok
    ensures Uses(Match(p, left).uses, id) <= 1
  {
    MatchSound(p, left);
    RepeatedIffReusable(p, id);
  }
}
