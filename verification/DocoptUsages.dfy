// Usages just outside the classes on which greedy matching is complete, and that of
// the release script.
module DocoptUsages {
  import opened Basics
  import opened DocoptPattern
  import opened DocoptMatch
  import opened DocoptNeeds
  import opened DocoptComplete

  // ----- just outside

  /** Greedy refuses a command line that the pattern derives. */
  ghost predicate Refuses(p: Pattern<Id>, left: seq<Item>)
    requires Unary(p)
  {
    Derivable(p, left) && !Match(p, left).ok
  }

  function Positional(v: string): Item {
    Item(Arg(Nothing), Str(v))
  }

  lemma DerivedBy(p: Pattern<Id>, left: seq<Item>, w: seq<Use>)
    requires Lang(p, w) && Items(w) == left
    ensures Derivable(p, left)
  {
    assert Positionals(left) == Positionals(Items(w)) + [];
    assert multiset(Items(w)) + multiset([]) == multiset(left);
    assert Took(left, w, []);
  }

  ghost function Both(p: Pattern<Id>, q: Pattern<Id>): (r: Pattern<Id>)
    ensures Unary(p) && Unary(q) ==> Unary(r)
  {
    Branch(Required, [p, q])
  }

  ghost function OneOf(p: Pattern<Id>, q: Pattern<Id>): (r: Pattern<Id>)
    ensures Unary(p) && Unary(q) ==> Unary(r)
  {
    Branch(Either, [p, q])
  }

  ghost function Possibly(p: Pattern<Id>): (r: Pattern<Id>)
    ensures Unary(p) ==> Unary(r)
  {
    Branch(Optional, [p])
  }

  ghost function Many(p: Pattern<Id>): (r: Pattern<Id>)
    ensures Unary(p) ==> Unary(r)
  {
    Branch(OneOrMore, [p])
  }

  lemma BothDerive(p: Pattern<Id>, q: Pattern<Id>, u: seq<Use>, v: seq<Use>)
    requires Lang(p, u) && Lang(q, v)
    ensures Lang(Both(p, q), u + v)
  {
    LangSeqOne(q, v);
    LangSeqCons(p, [q], u, v, false);
    assert [p] + [q] == [p, q];
  }

  lemma FirstDerives(p: Pattern<Id>, q: Pattern<Id>, u: seq<Use>)
    requires Lang(p, u)
    ensures Lang(OneOf(p, q), u)
  {
    assert Lang(OneOf(p, q).children[0], u);
  }

  lemma PossiblyNot(p: Pattern<Id>)
    ensures Lang(Possibly(p), [])
  {
    LangSeqCons(p, [], [], [], true);
    assert [p] + [] == [p];
  }

  lemma BothMatched(p: Pattern<Id>, q: Pattern<Id>, left: seq<Item>)
    requires Unary(p) && Unary(q)
    ensures var o, o' := Match(p, left), Match(q, Match(p, left).rest);
            && (Match(Both(p, q), left).ok <==> o.ok && o'.ok)
            && (o.ok && o'.ok ==> Match(Both(p, q), left).rest == o'.rest)
  {
    hide MatchEvery;
    assert [p, q][1..] == [q];
    EveryOne(q, Match(p, left).rest);
    EveryFirst([p, q], left);
  }

  lemma EveryFirst(ps: seq<Pattern<Id>>, left: seq<Item>)
    requires ps != [] && forall p <- ps :: Unary(p)
    ensures var o := Match(ps[0], left);
            && (MatchEvery(ps, left).ok <==> o.ok && MatchEvery(ps[1..], o.rest).ok)
            && MatchEvery(ps, left).rest == if o.ok then MatchEvery(ps[1..], o.rest).rest else o.rest
  {}

  lemma EveryOne(q: Pattern<Id>, left: seq<Item>)
    requires Unary(q)
    ensures MatchEvery([q], left).ok <==> Match(q, left).ok
    ensures MatchEvery([q], left).rest == Match(q, left).rest
  {
    assert [q][1..] == [];
    EveryFirst([q], left);
  }

  lemma PossiblyMatched(p: Pattern<Id>, left: seq<Item>)
    requires Unary(p)
    ensures Match(Possibly(p), left).rest == Match(p, left).rest
  {
    assert [p][1..] == [];
    assert MatchAny([p], left).rest == MatchAny([], Match(p, left).rest).rest;
  }

  lemma SecondShorter(p: Pattern<Id>, q: Pattern<Id>, left: seq<Item>)
    requires Unary(p) && Unary(q) && Match(q, left).ok && |Match(q, left).rest| < |Match(p, left).rest|
    ensures Match(OneOf(p, q), left) == Match(q, left)
  {
    assert [p, q][1..] == [q] && [q][1..] == [];
    assert MatchBest([q], left) == Just(Match(q, left));
  }

  function Argument(name: string): Pattern<Id> {
    Tip(Arg(Just(name)))
  }

  /** An argument takes the first of some positionals. */
  lemma ArgumentMatched(name: string, v: string, rest: seq<Item>)
    ensures var o := Match(Argument(name), [Positional(v)] + rest); o.ok && o.rest == rest
    ensures !Match(Argument(name), []).ok
  {
    assert Without([Positional(v)] + rest, 0) == rest;
  }

  /** `[<a>] <b>`: an argument that may be left out before one that may not. */
  lemma OptionalBefore(v: string)
    ensures Refuses(Both(Possibly(Argument("<a>")), Argument("<b>")), [Positional(v)])
  {
    var a, b, left := Argument("<a>"), Argument("<b>"), [Positional(v)];
    var w := [Use(b.leaf, left[0])];
    PossiblyNot(a);
    BothDerive(Possibly(a), b, [], w);
    assert [] + w == w;
    DerivedBy(Both(Possibly(a), b), left, w);
    BothMatched(Possibly(a), b, left);
    PossiblyMatched(a, left);
    ArgumentMatched("<a>", v, []);
    assert left + [] == left;
    ArgumentMatched("<b>", v, []);
  }

  /** `[-a] -a`: an option that may be left out before the same option. */
  lemma OptionBefore(value: Value)
    ensures var o := Tip(Opt(Just("-a"), Nothing, 0)); Refuses(Both(Possibly(o), o), [Item(o.leaf, value)])
  {
    var o := Tip(Opt(Just("-a"), Nothing, 0));
    var left := [Item(o.leaf, value)];
    var w := [Use(o.leaf, left[0])];
    PossiblyNot(o);
    BothDerive(Possibly(o), o, [], w);
    assert [] + w == w;
    DerivedBy(Both(Possibly(o), o), left, w);
    BothMatched(Possibly(o), o, left);
    PossiblyMatched(o, left);
    OptionMatched(o.leaf, value);
  }

  lemma OptionMatched(leaf: Id, value: Value)
    requires leaf.Opt?
    ensures var o := Match(Tip(leaf), [Item(leaf, value)]); o.ok && o.rest == []
    ensures !Match(Tip(leaf), []).ok
  {
    assert Without([Item(leaf, value)], 0) == [];
  }

  /** `<a>... <b>`: a repeated argument before another. */
  lemma RepeatedBefore(v: string, w: string)
    ensures Refuses(Both(Many(Argument("<a>")), Argument("<b>")), [Positional(v), Positional(w)])
  {
    var a, b, left := Argument("<a>"), Argument("<b>"), [Positional(v), Positional(w)];
    var u, u' := [Use(a.leaf, left[0])], [Use(b.leaf, left[1])];
    LangSeqOne(a, u);
    LangPowerCons([a], u, [], 0);
    assert u + [] == u;
    BothDerive(Many(a), b, u, u');
    DerivedBy(Both(Many(a), b), left, u + u');
    BothMatched(Many(a), b, left);
    ManyTakeAll(a, v, w);
    ArgumentMatched("<b>", v, []);
  }

  lemma LastTurn(p: Pattern<Id>, l: seq<Item>)
    requires Unary(p) && !Match(p, l).ok
    ensures Repeat(p, l, false).rest == l
  {}

  lemma NextTurn(p: Pattern<Id>, l: seq<Item>, first: bool)
    requires Unary(p) && Match(p, l).ok && Match(p, l).rest != l
    ensures var more := Repeat(p, Match(p, l).rest, false);
            Repeat(p, l, first).rest == more.rest && Repeat(p, l, first).times == 1 + more.times
  {}

  lemma ManyTurns(p: Pattern<Id>, l: seq<Item>)
    requires Unary(p) && Repeat(p, l, true).times >= 1
    ensures Match(Many(p), l).rest == Repeat(p, l, true).rest
  {}

  lemma ManyTakeAll(a: Pattern<Id>, v: string, w: string)
    requires a == Argument("<a>")
    ensures Match(Many(a), [Positional(v), Positional(w)]).rest == []
  {
    hide Match, Repeat;
    var x, y := Positional(v), Positional(w);
    ArgumentMatched("<a>", v, [y]);
    ArgumentMatched("<a>", w, []);
    assert [x] + [y] == [x, y] && [y] + [] == [y];
    LastTurn(a, []);
    NextTurn(a, [y], false);
    NextTurn(a, [x, y], true);
    ManyTurns(a, [x, y]);
  }

  /** `(<a> | <a> <b>) <c>`: branches that take different numbers of arguments before another. */
  lemma BranchesBefore(v: string, w: string)
    ensures var a, b, c := Argument("<a>"), Argument("<b>"), Argument("<c>");
            Refuses(Both(OneOf(a, Both(a, b)), c), [Positional(v), Positional(w)])
  {
    var a, b, c := Argument("<a>"), Argument("<b>"), Argument("<c>");
    var left := [Positional(v), Positional(w)];
    var branches, u, u' := OneOf(a, Both(a, b)), [Use(a.leaf, left[0])], [Use(c.leaf, left[1])];
    FirstDerives(a, Both(a, b), u);
    BothDerive(branches, c, u, u');
    DerivedBy(Both(branches, c), left, u + u');
    BranchesTakeAll(v, w);
    BothMatched(branches, c, left);
    ArgumentMatched("<c>", v, []);
  }

  lemma BranchesTakeAll(v: string, w: string)
    ensures var a, b := Argument("<a>"), Argument("<b>");
            Match(OneOf(a, Both(a, b)), [Positional(v), Positional(w)]).rest == []
  {
    var a, b, left := Argument("<a>"), Argument("<b>"), [Positional(v), Positional(w)];
    assert [Positional(v)] + [Positional(w)] == left && [Positional(w)] + [] == [Positional(w)];
    ArgumentMatched("<a>", v, [Positional(w)]);
    ArgumentMatched("<b>", w, []);
    BothMatched(a, b, left);
    SecondShorter(a, Both(a, b), left);
  }

  // ----- the usage of the release script

  lemma ArgumentMissing(name: string, left: seq<Item>)
    requires Positionals(left) == []
    ensures !Match(Argument(name), left).ok
  {
    var r := SingleMatch(Arg(Just(name)), left);
    if r.Just? { SomePositional(left, r.value); }
  }

  lemma {:induction false} SomePositional(left: seq<Item>, i: nat)
    requires i < |left| && left[i].id.Arg?
    ensures Positionals(left) != []
  {
    if !left[0].id.Arg? { SomePositional(left[1..], i - 1); }
  }

  lemma ArgumentStep(name: string, left: seq<Item>)
    requires ParsedArgv(left)
    ensures var o := Match(Argument(name), left);
            && (o.ok <==> Positionals(left) != []) && ParsedArgv(o.rest)
            && Positionals(o.rest) == if o.ok then Positionals(left)[1..] else Positionals(left)
  {
    hide SingleMatch;
    var pos := Positionals(left);
    if pos == [] {
      ArgumentMissing(name, left);
    } else {
      PositionalsAreArgs(left);
      assert pos[0] in pos;
      assert [pos[0]] + pos[1..] == pos;
      PositionalTakes(Arg(Just(name)), pos[0], left, pos[1..], OptNames(left));
    }
  }

  /** `( [<branch>] )` */
  ghost function ReleaseUsage(): (p: Pattern<Id>)
    ensures Matchable(p)
  {
    var branch := Possibly(Argument("<branch>"));
    assert Matchable(Argument("<branch>")) && Matchable(branch);
    Branch(Required, [Branch(Required, [branch])])
  }

  /** It is tame, and accepted are no arguments or a single positional. */
  lemma ReleaseAccepts(left: seq<Item>)
    requires ParsedArgv(left)
    ensures Tame(ReleaseUsage(), true, {})
    ensures Accepts(ReleaseUsage(), left) <==> left == [] || (|left| == 1 && left[0].id.Arg?)
  {
    var a := Argument("<branch>");
    var branch := Possibly(a);
    var inner := Branch(Required, [branch]);
    assert [branch][1..] == [] && [inner][1..] == [] && [a][1..] == [];
    assert Slot(branch, false) && SlackSeq([branch], {}, false);
    EveryOne(branch, left);
    EveryOne(inner, left);
    PossiblyMatched(a, left);
    ArgumentStep("<branch>", left);
    var rest := Match(a, left).rest;
    assert Accepts(ReleaseUsage(), left) <==> rest == [];
    if left != [] && rest == [] { assert |left| == 1; }
    if |left| == 1 { OneItem(left[0]); assert left == [left[0]]; }
  }
}
