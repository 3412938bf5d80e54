// From a parsed usage pattern to the answer: fix the pattern, then match argv.
module Docopt {
  import opened Basics
  import opened DocoptPattern
  import opened DocoptMatch
  import opened DocoptRepeats
  import opened DocoptFix
  import opened DocoptRun
  import opened DocoptTally
  import DocoptComplete

  /** The command line as it stands on the heap. */
  ghost function Shown(argv: seq<Leaf>): (r: seq<Item>)
    reads argv
    ensures |r| == |argv|
  {
    seq(|argv|, i requires 0 <= i < |argv| reads argv => Item(argv[i].id, if argv[i].id.Arg? then argv[i].value else argv[i].given))
  }

  /** What the parser leaves in a pattern: equal leaves start alike, flags and
      commands as booleans, the others with a text or nothing. */
  ghost predicate Parsed(leaves: set<Leaf>)
    reads leaves`value
  {
    Consistent(leaves) && forall l <- leaves :: if Valued(l.id) then l.value.Null? || l.value.Str? else l.value.Flag?
  }

  /** What parsing argv gives: unnamed positionals with their text, and options. */
  ghost predicate GivenFor(leaves: set<Leaf>, argv: seq<Leaf>)
    reads argv`value
  {
    forall a <- argv :: a !in leaves && if a.id.Arg? then a.id.argName.Nothing? && a.value.Str? else a.value == a.given
  }

  /** The leaves of a fixed pattern, each accumulating or not. */
  ghost predicate Fixed(flat: seq<Leaf>)
    reads flat`value
  {
    forall s <- flat :: if Valued(s.id) then !s.value.Num? else s.value.Num? || s.value.Flag?
  }

  /** The leaves of the name accumulate alike, and the options on the command line
      under it hold what they add. */
  ghost predicate Alike(flat: seq<Leaf>, argv: seq<Leaf>, n: Maybe<string>)
    reads flat`value, argv`value
  {
    && (forall a <- flat, b <- flat :: Name(a.id) == n && Name(b.id) == n ==> ModeOf(a.value) == ModeOf(b.value))
    && (forall a <- argv, s <- flat :: !a.id.Arg? && Name(a.id) == n && Name(s.id) == n ==> Offered(ModeOf(s.value), a.given, a.value))
  }

  ghost function AlikeNames(flat: seq<Leaf>, argv: seq<Leaf>): iset<Maybe<string>>
    reads flat`value, argv`value
  {
    iset n: Maybe<string> | Alike(flat, argv, n)
  }

  /** Where modes rule, the names that accumulate are those of leaves fixed to do so. */
  ghost predicate PlainUnless(ctx: Context, flat: seq<Leaf>)
    reads flat`value
  {
    forall s <- flat :: ctx.ruled(Name(s.id)) ==> (ctx.modes(Name(s.id)).Plain? <==> !s.value.Num? && !s.value.List?)
  }

  /** Leaves accumulate by their class and names. */
  ghost predicate OfKinds(kinds: Id -> Mode, flat: seq<Leaf>)
    reads flat`value
  {
    forall s <- flat :: kinds(s.id) == ModeOf(s.value)
  }

  /** Exactly the used names are collected; the leaves collected of plain names are, in
      order, what the uses tell. */
  ghost predicate Answers(ctx: Context, c: seq<Leaf>, uses: seq<Use>)
    reads c`value
  {
    && Names(c) == UsedNames(uses)
    && Worth(ctx, c) == AllTold(ctx, uses)
    && (forall x <- c :: PlainName(ctx, Name(x.id)) ==> x.value == x.given)
  }

  /** The mode of a name: that of the first leaf that has it. */
  function ModeIn(flat: seq<Leaf>, kept: map<Leaf, Value>, n: Maybe<string>): Mode {
    var k := FirstNamed(flat, n);
    if k.Just? && flat[k.value] in kept then ModeOf(kept[flat[k.value]]) else Plain
  }

  /** Where the leaves of a name are alike, its mode is that of any of them. */
  lemma ModeHeld(flat: seq<Leaf>, argv: seq<Leaf>, kept: map<Leaf, Value>, s: Leaf)
    requires Alike(flat, argv, Name(s.id)) && s in flat && forall x <- flat :: x in kept && kept[x] == x.value
    ensures ModeIn(flat, kept, Name(s.id)) == ModeOf(s.value)
  {
    assert flat[FirstNamed(flat, Name(s.id)).value] in flat;
  }

  /** And an option on the command line holds what its name's mode adds. */
  lemma ModeOffered(flat: seq<Leaf>, argv: seq<Leaf>, kept: map<Leaf, Value>, a: Leaf)
    requires Alike(flat, argv, Name(a.id)) && a in argv && !a.id.Arg? && a.value == a.given
    requires forall x <- flat :: x in kept && kept[x] == x.value
    ensures Offered(ModeIn(flat, kept, Name(a.id)), a.given, a.value)
  {
    var k := FirstNamed(flat, Name(a.id));
    assert k.Just? ==> flat[k.value] in flat;
  }

  /** Any fixed pattern and parsed command line can be run on; modes rule exactly
      the names whose leaves accumulate alike, where the options given hold what
      they add. */
  lemma RunsOn(flat: seq<Leaf>, argv: seq<Leaf>, kinds: Id -> Mode) returns (ctx: Context)
    requires Fixed(flat) && GivenFor((set s <- flat), argv)
    ensures ctx.kinds == kinds && (OfKinds(kinds, flat) ==> ByKind(ctx, flat))
    ensures Frozen(ctx) && Argv(ctx, argv) && Typed(ctx, argv, []) && AllGoverned(ctx, flat)
    ensures (forall n :: ctx.ruled(n) <==> n in AlikeNames(flat, argv)) && PlainUnless(ctx, flat)
  {
    hide Alike, ModeIn, Offered;
    var kept := map x | x in (set s <- flat) + (set a <- argv | a.id.Arg?) :: x.value;
    var ruled := AlikeNames(flat, argv);
    ctx := Context(kept, n => ModeIn(flat, kept, n), n => n in ruled, kinds);
    forall s <- flat | ctx.ruled(Name(s.id)) ensures ctx.modes(Name(s.id)) == ModeOf(s.value) {
      ModeHeld(flat, argv, kept, s);
    }
    forall a <- argv | !a.id.Arg? && ctx.ruled(Name(a.id)) ensures Offered(ctx.modes(Name(a.id)), a.given, a.value) {
      ModeOffered(flat, argv, kept, a);
    }
    assert forall item <- Views(ctx, argv) :: item.id.Arg? ==> item.id.argName.Nothing?;
  }

  lemma ShownAsViewed(ctx: Context, l: seq<Leaf>)
    requires Frozen(ctx) && Argv(ctx, l)
    ensures Shown(l) == Views(ctx, l)
  {}

  lemma {:induction false} SameIds(f: Leaf -> Leaf, p: Pattern<Leaf>)
    requires forall l <- Flat(p) :: f(l).id == l.id
    ensures Ids(MapTree(f, p)) == Ids(p)
    decreases p, 1
  {
    match p
    case Tip(_) =>
    case Branch(_, cs) => SameIdsAll(f, cs);
  }

  lemma {:induction false} SameIdsAll(f: Leaf -> Leaf, ps: seq<Pattern<Leaf>>)
    requires forall l <- FlatAll(ps) :: f(l).id == l.id
    ensures MapAll(IdOf, MapAll(f, ps)) == MapAll(IdOf, ps)
    decreases ps, 0
  {
    if ps != [] {
      SameIds(f, ps[0]);
      SameIdsAll(f, ps[1..]);
    }
  }

  /** The fixed tree: a leaf accumulates exactly when a use of the program can give it twice. */
  ghost predicate Accumulates(shared: Pattern<Leaf>, first: map<Leaf, Value>)
    reads (set l <- Flat(shared))`value
  {
    forall l <- Flat(shared) :: l in first &&
      l.value == if Reusable(Ids(shared), l.id) then Accumulator(l.id, first[l]) else first[l]
  }

  /** pattern.fix(), for a pattern that is then matched. */
  method FixPattern(root: Node, ghost t: Pattern<Leaf>, ghost leaves: set<Leaf>) returns (ghost shared: Pattern<Leaf>)
    requires root.Valid(t) && leaves == (set l <- Flat(t)) && Inhabited(Ids(t)) && Parsed(leaves)
    modifies root.repr`children, leaves`value
    ensures root.Valid(shared) && Ids(shared) == Ids(t) && Fixed(Flat(shared))
    ensures (forall l <- Flat(shared) :: l in leaves) && Accumulates(shared, old(map l <- leaves :: l.value))
  {
    ghost var first := map l <- leaves :: l.value;
    ghost var f;
    shared, f := Fix(root, t, leaves);
    SameIds(f, t);
    SharedLeaves(t, f, leaves);
    ghost var flat := Flat(shared);
    assert DistinctIds(set l <- flat);
    forall s <- flat ensures s.value == if Reusable(Ids(shared), s.id) then Accumulator(s.id, first[s]) else first[s] {
      RetypedIffReusable(shared, s);
    }
  }

  /** The outcome is that of the specification: it takes each element once, positionals
      from the front, it is derivable on success, and the answers are what was given. */
  ghost predicate Solves(ctx: Context, p: Pattern<Id>, shown: seq<Item>, ok: bool, l: seq<Leaf>, c: seq<Leaf>)
    requires Unary(p)
    reads l, c`value
  {
    var o := Match(p, shown);
    && ok == o.ok && Shown(l) == o.rest && Answers(ctx, c, o.uses)
    && Took(shown, o.uses, o.rest) && (ok ==> Lang(p, o.uses))
  }

  lemma Solved(ctx: Context, p: Pattern<Id>, argv: seq<Leaf>, ok: bool, l: seq<Leaf>, c: seq<Leaf>)
    requires Runnable(p) && Argv(ctx, argv) && Frozen(ctx) && Argv(ctx, l) && Typed(ctx, argv, c)
    requires Reports(ctx, [], ok, l, c, Match(p, Views(ctx, argv)))
    ensures Solves(ctx, p, Views(ctx, argv), ok, l, c)
  {
    MatchSound(p, Views(ctx, argv));
    ShownAsViewed(ctx, l);
  }

  /** On tame patterns it succeeds with nothing left over exactly on derivable command lines. */
  lemma SolvedExactly(ctx: Context, p: Pattern<Id>, shown: seq<Item>, ok: bool, l: seq<Leaf>, c: seq<Leaf>)
    requires Runnable(p) && ParsedArgv(shown) && Solves(ctx, p, shown, ok, l, c) && DocoptComplete.Tame(p, true, {})
    ensures ok && l == [] <==> DocoptComplete.Derivable(p, shown)
  {
    DocoptComplete.AcceptsIff(p, shown);
  }

  lemma ShownParsed(leaves: set<Leaf>, argv: seq<Leaf>)
    requires GivenFor(leaves, argv)
    ensures ParsedArgv(Shown(argv))
  {}

  /** An addition failed exactly if some accumulating leaf's increment does not add to
      what the first use of its name left; and what is collected otherwise is the sum. */
  ghost predicate Tallies(kinds: Id -> Mode, d: Outcome, raised: bool, ok: bool, c: seq<Leaf>)
    reads c
  {
    && (raised <==> SomeClash(kinds, d.uses))
    && (!raised && ok ==> Tally(kinds, [], d.uses) == Just(Contents(c)))
  }

  lemma TalliesAsTracked(ctx: Context, p: Pattern<Id>, shown: seq<Item>, raised: bool, ok: bool, l: seq<Leaf>, c: seq<Leaf>)
    requires Runnable(p) && ParsedArgv(shown) && Tracked(ctx, Steady(p), [], Draw(p, shown), raised, ok, l, c)
    ensures Tallies(ctx.kinds, Draw(p, shown), raised, ok, c)
  {
    DrawTells(p, shown);
    TallyFailsIff(ctx.kinds, Draw(p, shown).uses);
  }

  lemma PlainAsGoverned(ctx: Context, flat: seq<Leaf>)
    requires Frozen(ctx) && AllGoverned(ctx, flat)
    ensures PlainUnless(ctx, flat)
  {}

  /** pattern.match(argv), for a fixed pattern: no addition fails when the leaves of
      each name accumulate alike and the options given hold what they add; whenever
      none fails the outcome is as specified; on straight patterns it is known exactly
      when one fails, and what the sums are. */
  method MatchFixed(p: Pattern<Leaf>, argv: seq<Leaf>, ghost kinds: Id -> Mode)
    returns (raised: bool, ok: bool, l: seq<Leaf>, c: seq<Leaf>, ghost ctx: Context)
    requires Runnable(Ids(p)) && Fixed(Flat(p)) && GivenFor((set l <- Flat(p)), argv)
    modifies argv`value
    ensures forall n :: ctx.ruled(n) <==> n in old(AlikeNames(Flat(p), argv))
    ensures raised ==> !AllRuled(ctx)
    ensures !raised ==> Solves(ctx, Ids(p), old(Shown(argv)), ok, l, c)
    ensures PlainUnless(ctx, Flat(p))
    ensures Straight(Ids(p)) && old(OfKinds(kinds, Flat(p))) && Distinct(argv) ==>
              Tallies(kinds, Draw(Ids(p), old(Shown(argv))), raised, ok, c)
  {
    ctx := RunsOn(Flat(p), argv, kinds);
    ShownAsViewed(ctx, argv);
    ShownParsed((set s <- Flat(p)), argv);
    ghost var shown := Shown(argv);
    ghost var tracked := Straight(Ids(p)) && OfKinds(kinds, Flat(p)) && Distinct(argv);
    assert tracked ==> Untouched(argv, []);
    hide Fixed, GivenFor, Frozen, Typed, Reports, Solves, PlainUnless, AlikeNames, Tracked, Tallies, Straight, Steady;
    raised, ok, l, c := Run(p, argv, [], ctx);
    if tracked {
      TalliesAsTracked(ctx, Ids(p), shown, raised, ok, l, c);
    }
    if !raised {
      Solved(ctx, Ids(p), argv, ok, l, c);
    }
    PlainAsGoverned(ctx, Flat(p));
  }

  // ----- fix and match

  /** How fix makes the leaves with this class and names accumulate. */
  ghost function KindOf(p: Pattern<Id>, id: Id): Mode {
    if !Reusable(p, id) then Plain else if Valued(id) then Listing else Counting
  }

  ghost function KindsOf(p: Pattern<Id>): Id -> Mode {
    id => KindOf(p, id)
  }

  /** The leaves with the name are of one kind: all plain, all counts or all lists; and
      the options on the command line under it hold what that kind adds. */
  ghost predicate Agreed(p: Pattern<Id>, leaves: set<Leaf>, argv: seq<Leaf>, n: Maybe<string>)
    reads argv`value
  {
    && (forall a <- leaves, b <- leaves :: Name(a.id) == n && Name(b.id) == n ==> KindOf(p, a.id) == KindOf(p, b.id))
    && (forall a <- argv, s <- leaves :: !a.id.Arg? && Name(a.id) == n && Name(s.id) == n ==> Offered(KindOf(p, s.id), a.given, a.value))
  }

  /** Where modes rule, a name is plain exactly when no use of the program can give its leaf twice. */
  ghost predicate PlainUnlessReusable(ctx: Context, p: Pattern<Leaf>) {
    forall s <- Flat(p) :: ctx.ruled(Name(s.id)) ==> (ctx.modes(Name(s.id)).Plain? <==> !Reusable(Ids(p), s.id))
  }

  ghost predicate Scalars(first: map<Leaf, Value>) {
    forall s <- first.Keys :: if Valued(s.id) then first[s].Null? || first[s].Str? else first[s].Flag?
  }

  /** After fix a leaf holds a value of its kind. */
  lemma KindsHeld(p: Pattern<Leaf>, first: map<Leaf, Value>)
    requires Accumulates(p, first) && Scalars(first)
    ensures forall s <- Flat(p) :: ModeOf(s.value) == KindOf(Ids(p), s.id)
  {}

  lemma KindsByUse(p: Pattern<Leaf>, first: map<Leaf, Value>)
    requires Accumulates(p, first) && Scalars(first)
    ensures OfKinds(KindsOf(Ids(p)), Flat(p))
  {
    KindsHeld(p, first);
  }

  ghost function AgreedNames(p: Pattern<Id>, leaves: set<Leaf>, argv: seq<Leaf>): iset<Maybe<string>>
    reads argv`value
  {
    iset n: Maybe<string> | Agreed(p, leaves, argv, n)
  }

  lemma AgreedAlike(p: Pattern<Leaf>, first: map<Leaf, Value>, argv: seq<Leaf>)
    requires Accumulates(p, first) && Scalars(first)
    ensures AgreedNames(Ids(p), first.Keys, argv) <= AlikeNames(Flat(p), argv)
  {
    KindsHeld(p, first);
  }

  lemma PlainByUse(ctx: Context, p: Pattern<Leaf>, first: map<Leaf, Value>)
    requires Accumulates(p, first) && Scalars(first) && PlainUnless(ctx, Flat(p))
    ensures PlainUnlessReusable(ctx, p)
  {
    KindsHeld(p, first);
  }

  /** pattern.fix().match(argv): succeeds only on a derivable use of the program,
      which takes its positionals from the front, and collects exactly the names
      used. Of a name whose leaves are of one kind, where the options given hold what
      that kind adds, what no use can give twice is collected exactly as it was given;
      where all names are like that nothing raises. On straight patterns it raises exactly if two uses clash,
      and what is collected otherwise is their tally. */
  method FixAndMatch(root: Node, ghost t: Pattern<Leaf>, ghost leaves: set<Leaf>, argv: seq<Leaf>)
    returns (raised: bool, ok: bool, l: seq<Leaf>, c: seq<Leaf>, ghost shared: Pattern<Leaf>, ghost ctx: Context)
    requires root.Valid(t) && leaves == set l <- Flat(t)
    requires Runnable(Ids(t)) && Inhabited(Ids(t)) && Parsed(leaves) && GivenFor(leaves, argv)
    modifies root.repr`children, leaves`value, argv`value
    ensures root.Valid(shared) && Ids(shared) == Ids(t) && Accumulates(shared, old(map l <- leaves :: l.value))
    ensures forall n <- old(AgreedNames(Ids(t), leaves, argv)) :: ctx.ruled(n)
    ensures (raised ==> !AllRuled(ctx)) && PlainUnlessReusable(ctx, shared)
    ensures !raised ==> Solves(ctx, Ids(t), old(Shown(argv)), ok, l, c)
    ensures !raised && DocoptComplete.Tame(Ids(t), true, {}) ==>
              (ok && l == [] <==> DocoptComplete.Derivable(Ids(t), old(Shown(argv))))
    ensures Straight(Ids(t)) && Distinct(argv) ==>
              Tallies(KindsOf(Ids(t)), Draw(Ids(t), old(Shown(argv))), raised, ok, c)
  {
    hide DocoptComplete.Tame, DocoptComplete.Derivable;
    hide Solves, PlainUnless, PlainUnlessReusable, AlikeNames, AgreedNames, Tallies, Straight, OfKinds, Fixed, Match, Draw, Shown, Flat;
    ghost var first := map l <- leaves :: l.value;
    assert first.Keys == leaves;
    ShownParsed(leaves, argv);
    shared := FixPattern(root, t, leaves);
    AgreedAlike(shared, first, argv);
    var p := root.Snapshot(shared);
    KindsByUse(shared, first);
    raised, ok, l, c, ctx := MatchFixed(p, argv, KindsOf(Ids(t)));
    PlainByUse(ctx, shared, first);
    if !raised && DocoptComplete.Tame(Ids(t), true, {}) {
      SolvedExactly(ctx, Ids(t), old(Shown(argv)), ok, l, c);
    }
  }
}
