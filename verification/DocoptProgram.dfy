// From the tokens of a usage to the answer: parse them, fix the pattern, match argv.
module DocoptProgram {
  import opened Basics
  import opened DocoptPattern
  import opened DocoptMatch
  import opened DocoptFix
  import opened DocoptRun
  import opened DocoptTally
  import opened Docopt
  import opened DocoptReply
  import DocoptComplete
  import L = DocoptLeaves
  import P = DocoptParser

  // ----- the objects that the parser creates

  ghost predicate ChildValid(c: Child, h: Pattern<Leaf>)
    reads if c.NodeChild? then c.node.repr + {c.node} else {}
  {
    match c
    case LeafChild(l) => h == Tip(l)
    case NodeChild(n) => n.Valid(h)
  }

  /** A tree of leaf objects for a tree of what they hold. */
  ghost predicate Copied(h: Pattern<Leaf>, t: P.Tree)
  {
    Ids(h) == MapTree(P.SpecId, t) && forall l <- Flat(h) :: P.LeafSpec(l.id, l.given) in Flat(t)
  }

  ghost predicate AllCopied(hs: seq<Pattern<Leaf>>, ts: seq<P.Tree>)
  {
    MapAll(IdOf, hs) == MapAll(P.SpecId, ts) && forall l <- FlatAll(hs) :: P.LeafSpec(l.id, l.given) in FlatAll(ts)
  }

  lemma {:induction false} MapAllAppend<A, B>(f: A -> B, a: seq<Pattern<A>>, p: Pattern<A>)
    ensures MapAll(f, a + [p]) == MapAll(f, a) + [MapTree(f, p)]
  {
    if a == [] {
      assert [] + [p] == [p] && [p][1..] == [];
    } else {
      assert (a + [p])[1..] == a[1..] + [p];
      MapAllAppend(f, a[1..], p);
    }
  }

  lemma OneMoreCopied(hs: seq<Pattern<Leaf>>, ts: seq<P.Tree>, h: Pattern<Leaf>, t: P.Tree)
    requires AllCopied(hs, ts) && Copied(h, t)
    ensures AllCopied(hs + [h], ts + [t]) && FlatAll(hs + [h]) == FlatAll(hs) + Flat(h)
  {
    MapAllAppend(IdOf, hs, h);
    MapAllAppend(P.SpecId, ts, t);
    FlatAllAppend(hs, [h]);
    FlatAllAppend(ts, [t]);
    assert [h][1..] == [] && [t][1..] == [];
  }

  lemma LeafCopied(l: Leaf, spec: P.LeafSpec)
    requires l.id == spec.id && l.given == spec.value
    ensures Flat(Tip(l)) == [l] && Copied(Tip(l), Tip(spec))
  {}

  lemma BranchCopied(kind: Kind, hs: seq<Pattern<Leaf>>, ts: seq<P.Tree>)
    requires AllCopied(hs, ts)
    ensures Flat(Branch(kind, hs)) == FlatAll(hs) && Copied(Branch(kind, hs), Branch(kind, ts))
  {}

  lemma NothingCopied()
    ensures FlatAll<Leaf>([]) == [] && AllCopied([], [])
  {}

  method Grow(t: P.Tree) returns (c: Child, ghost h: Pattern<Leaf>, ghost leaves: seq<Leaf>)
    ensures c.NodeChild? ==> fresh(c.node) && fresh(c.node.repr)
    ensures ChildValid(c, h) && Copied(h, t) && Flat(h) == leaves && forall l <- leaves :: fresh(l) && l.value == l.given
    ensures t.Branch? ==> c.NodeChild?
    decreases t
  {
    hide Copied, AllCopied, Flat, FlatAll;
    match t {
      case Tip(spec) =>
        var l := new Leaf(spec.id, spec.value);
        c, h, leaves := LeafChild(l), Tip(l), [l];
        LeafCopied(l, spec);
      case Branch(kind, ts) =>
        var children: seq<Child> := [];
        ghost var hs: seq<Pattern<Leaf>>, repr: set<Node> := [], {};
        leaves := [];
        NothingCopied();
        for i := 0 to |ts|
          invariant |children| == |hs| == i && fresh(repr)
          invariant forall j :: 0 <= j < i ==> ChildValid(children[j], hs[j])
          invariant forall j :: 0 <= j < i && children[j].NodeChild? ==> children[j].node in children[j].node.repr && children[j].node.repr <= repr
          invariant forall j, k :: 0 <= j < k < i && children[j].NodeChild? && children[k].NodeChild? ==>
                      children[j].node.repr !! children[k].node.repr
          invariant AllCopied(hs, ts[..i]) && FlatAll(hs) == leaves && forall l <- leaves :: fresh(l) && l.value == l.given
        {
          var child, hi, li := Grow(ts[i]);
          OneMoreCopied(hs, ts[..i], hi, ts[i]);
          assert ts[..i + 1] == ts[..i] + [ts[i]];
          children, hs, leaves := children + [child], hs + [hi], leaves + li;
          repr := repr + if child.NodeChild? then child.node.repr else {};
        }
        assert ts[..|ts|] == ts;
        var n := new Node(kind, children, repr);
        c, h := NodeChild(n), Branch(kind, hs);
        BranchCopied(kind, hs, ts);
        assert n.Valid(h) by {
          forall j | 0 <= j < |children| ensures n.Holds(children[j], hs[j]) { assert ChildValid(children[j], hs[j]); }
        }
    }
  }

  // ----- the whole program

  /** What the program does: it refuses its usage, fails on an addition, exits with the
      usage, or answers with a dictionary. */
  datatype Reply = Refuses(error: P.Error) | TypeError | Exits | Answer(values: Values)

  /** The objects of a parsed pattern are what fix and match ask for. */
  lemma ParsedHolds(toks: seq<string>, options: seq<P.LeafSpec>, h: Pattern<Leaf>, leaves: set<Leaf>)
    requires L.Documented(options) && P.ParsePattern(toks, options).Ok? && !P.RepeatsBundle(toks, options)
    requires Copied(h, P.ParsePattern(toks, options).patterns[0]) && leaves == set l <- Flat(h)
    requires forall l <- leaves :: l.value == l.given
    ensures Runnable(Ids(h)) && Inhabited(Ids(h)) && Parsed(leaves)
  {
    P.ParsedRuns(toks, options);
    L.ParsedLeaves(toks, options);
    var t := P.ParsePattern(toks, options).patterns[0];
    forall l <- leaves ensures if Valued(l.id) then l.value.Null? || l.value.Str? else l.value.Flag? {
      assert L.Initial(P.LeafSpec(l.id, l.given));
    }
    forall a <- leaves, b <- leaves | a.id == b.id ensures a.value == b.value {
      assert P.LeafSpec(a.id, a.given) in Flat(t) && P.LeafSpec(b.id, b.given) in Flat(t);
    }
  }

  /** The leaves with the name are of one kind, and the options on the command line under
      it hold what that kind adds. */
  ghost predicate AgreedName(p: Pattern<Id>, argv: seq<Leaf>, n: Maybe<string>)
    reads argv`value
  {
    && (forall a <- Flat(p), b <- Flat(p) :: Name(a) == n && Name(b) == n ==> KindOf(p, a) == KindOf(p, b))
    && (forall a <- argv, i <- Flat(p) :: !a.id.Arg? && Name(a.id) == n && Name(i) == n ==> Offered(KindOf(p, i), a.given, a.value))
  }

  ghost function AgreedIn(p: Pattern<Id>, argv: seq<Leaf>): iset<Maybe<string>>
    reads argv`value
  {
    iset n: Maybe<string> | AgreedName(p, argv, n)
  }

  lemma AgreedLeaves(h: Pattern<Leaf>, leaves: set<Leaf>, argv: seq<Leaf>)
    requires leaves == set l <- Flat(h)
    ensures AgreedIn(Ids(h), argv) <= AgreedNames(Ids(h), leaves, argv)
  {
    FlatMapped(IdOf, h);
    forall l <- leaves ensures l.id in Flat(Ids(h)) {
      var k :| 0 <= k < |Flat(h)| && Flat(h)[k] == l;
      assert Flat(Ids(h))[k] == l.id;
    }
  }

  /** The leaves of a tree as the parser leaves them: one value for each class and names. */
  ghost predicate Settled(t: P.Tree) {
    forall l <- Flat(t), m <- Flat(t) :: l.id == m.id ==> l == m
  }

  lemma FixedLeaves(shared: Pattern<Leaf>, first: map<Leaf, Value>)
    requires Accumulates(shared, first)
    ensures forall l <- Flat(shared) :: l in first
  {}

  /** The fixed tree stands for what was parsed. */
  lemma FixedStands(h: Pattern<Leaf>, t: P.Tree, shared: Pattern<Leaf>, first: map<Leaf, Value>)
    requires Copied(h, t) && Settled(t) && Ids(shared) == Ids(h)
    requires first.Keys == (set l <- Flat(h)) && (forall l <- first.Keys :: first[l] == l.given) && forall l <- Flat(shared) :: l in first
    ensures StandsFor(shared, t, first)
  {}

  /** What the answer holds: a value for every name of the usage; under names that no use
      has the default of the last leaf with that name; under agreed names that do not
      accumulate what the last use tells; and on straight usages what the uses add up to:
      what the last one tells, the number of uses, or their texts in order. */
  ghost predicate Holds(values: Values, t: P.Tree, p: Pattern<Id>, uses: seq<Use>, agreed: iset<Maybe<string>>, distinct: bool) {
    && Complete(values, t) && Defaulted(values, p, t, uses)
    && Tells(values, p, uses, agreed)
    && (Straight(p) && distinct ==> SumsUp(values, p, uses))
  }

  /** The reply to a command line: an answer if and only if the match succeeds with
      nothing left over; on a tame usage if and only if the command line is derivable.
      Where all names agree no addition fails; on a straight usage one does if and only if
      two of its uses clash. */
  ghost predicate Replies(r: Reply, t: P.Tree, shown: seq<Item>, agreed: iset<Maybe<string>>, distinct: bool)
    requires Unary(MapTree(P.SpecId, t))
  {
    var p := MapTree(P.SpecId, t);
    var o := Match(p, shown);
    && !r.Refuses? && ((forall n :: n in agreed) ==> !r.TypeError?)
    && (!r.TypeError? ==> (r.Answer? <==> o.ok && o.rest == []) && (o.ok ==> Lang(p, o.uses) && Took(shown, o.uses, o.rest)))
    && (!r.TypeError? && DocoptComplete.Tame(p, true, {}) ==> (r.Answer? <==> DocoptComplete.Derivable(p, shown)))
    && (Straight(p) && distinct ==> (r.TypeError? <==> SomeClash(KindsOf(p), Draw(p, shown).uses)))
    && (r.Answer? ==> Holds(r.values, t, p, o.uses, agreed, distinct))
  }

  /** What fix and match found, and the dictionary made of it, is the reply. */
  lemma RepliesAsSolved(r: Reply, t: P.Tree, shared: Pattern<Leaf>, first: map<Leaf, Value>, ctx: Context, shown: seq<Item>,
                        agreed: iset<Maybe<string>>, distinct: bool, ok: bool, l: seq<Leaf>, c: seq<Leaf>)
    requires StandsFor(shared, t, first) && Accumulates(shared, first) && Runnable(Ids(shared)) && ParsedArgv(shown)
    requires var p := Ids(shared);
             && Solves(ctx, p, shown, ok, l, c) && PlainUnlessReusable(ctx, shared)
             && (Straight(p) && distinct ==> Tallies(KindsOf(p), Draw(p, shown), false, ok, c))
             && (DocoptComplete.Tame(p, true, {}) ==> (ok && l == [] <==> DocoptComplete.Derivable(p, shown)))
    requires forall n <- agreed :: ctx.ruled(n)
    requires if ok && l == [] then r.Answer? && IsDictionary(r.values, Flat(shared), c) else r.Exits?
    ensures Unary(MapTree(P.SpecId, t)) && Replies(r, t, shown, agreed, distinct)
  {
    var p, o := Ids(shared), Match(Ids(shared), shown);
    assert p == MapTree(P.SpecId, t);
    assert l == [] <==> Shown(l) == [];
    hide StandsFor, Accumulates, PlainUnlessReusable, Draw, Lang, Took, IsDictionary, DocoptComplete.Tame, DocoptComplete.Derivable, SomeClash;
    if r.Answer? {
      AnswerHolds(r.values, t, shared, first, ctx, shown, agreed, l, c);
    }
  }

  lemma RepliesAsRaised(t: P.Tree, shown: seq<Item>, agreed: iset<Maybe<string>>, distinct: bool, ok: bool, c: seq<Leaf>)
    requires var p := MapTree(P.SpecId, t);
             Unary(p) && !(forall n :: n in agreed) && (Straight(p) && distinct ==> Tallies(KindsOf(p), Draw(p, shown), true, ok, c))
    ensures Replies(TypeError, t, shown, agreed, distinct)
  {}

  lemma AnswerHolds(values: Values, t: P.Tree, shared: Pattern<Leaf>, first: map<Leaf, Value>, ctx: Context, shown: seq<Item>,
                    agreed: iset<Maybe<string>>, l: seq<Leaf>, c: seq<Leaf>)
    requires StandsFor(shared, t, first) && Accumulates(shared, first) && IsDictionary(values, Flat(shared), c)
    requires var p := Ids(shared); Runnable(p) && ParsedArgv(shown) && Solves(ctx, p, shown, true, l, c)
    requires PlainUnlessReusable(ctx, shared) && forall n <- agreed :: ctx.ruled(n)
    ensures var p, o := Ids(shared), Match(Ids(shared), shown);
            && Complete(values, t) && Defaulted(values, p, t, o.uses)
            && Tells(values, p, o.uses, agreed)
            && (Tallies(KindsOf(p), Draw(p, shown), false, true, c) ==> SumsUp(values, p, o.uses))
  {
    var p, o := Ids(shared), Match(Ids(shared), shown);
    DrawIsMatch(p, shown);
    DrawTells(p, shown);
    CompleteHeld(values, shared, t, first, c, o.uses);
    DefaultedHeld(values, shared, t, first, c, o.uses);
    hide Complete, Defaulted, Tells, SumsUp, StandsFor, Accumulates, IsDictionary, PlainUnlessReusable, Match, Draw, Lang, Took;
    TellsHeld(values, shared, ctx, c, o.uses, agreed);
    if Tallies(KindsOf(p), Draw(p, shown), false, true, c) { SumsHeld(values, Flat(shared), p, c, o.uses); }
  }

  /** From the objects of a parsed usage to the reply. */
  method Answered(root: Node, ghost h: Pattern<Leaf>, ghost leaves: set<Leaf>, argv: seq<Leaf>, ghost t: P.Tree) returns (r: Reply)
    requires root.Valid(h) && leaves == (set l <- Flat(h)) && Copied(h, t) && Settled(t)
    requires Runnable(Ids(h)) && Inhabited(Ids(h)) && Parsed(leaves) && GivenFor(leaves, argv)
    requires forall l <- leaves :: l.value == l.given
    modifies root.repr`children, leaves`value, argv`value
    ensures Unary(MapTree(P.SpecId, t)) && Replies(r, t, old(Shown(argv)), old(AgreedIn(Ids(h), argv)), Distinct(argv))
  {
    hide Replies, Holds, AgreedIn, AgreedNames, StandsFor, PlainUnlessReusable, Accumulates, Settled, Solves, Tallies, Straight;
    hide DocoptComplete.Tame, DocoptComplete.Derivable;
    ghost var shown, first: map<Leaf, Value> := Shown(argv), map x: Leaf | x in leaves :: x.value;
    ghost var agreed := AgreedIn(Ids(h), argv);
    ShownParsed(leaves, argv);
    AgreedLeaves(h, leaves, argv);
    ghost var shared, ctx;
    var raised, ok, l, collected;
    raised, ok, l, collected, shared, ctx := FixAndMatch(root, h, leaves, argv);
    if raised {
      RepliesAsRaised(t, shown, agreed, Distinct(argv), ok, collected);
      return TypeError;
    }
    FixedLeaves(shared, first);
    FixedStands(h, t, shared, first);
    r := Exits;
    if ok && l == [] {
      var pattern := root.Snapshot(shared);
      var values := Dictionary(Flat(pattern), collected);
      r := Answer(values);
    }
    RepliesAsSolved(r, t, shared, first, ctx, shown, agreed, Distinct(argv), ok, l, collected);
  }

  /** From the tokens of the usage to the reply: its error if it does not parse. */
  method Respond(toks: seq<string>, options: seq<P.LeafSpec>, argv: seq<Leaf>) returns (r: Reply)
    requires L.Documented(options) && !P.RepeatsBundle(toks, options) && GivenFor({}, argv)
    modifies argv`value
    ensures var spec := P.ParsePattern(toks, options);
            if spec.Fail? then r == Refuses(spec.error)
            else
              && |spec.patterns| == 1
              && var t := spec.patterns[0];
                 && Unary(MapTree(P.SpecId, t)) && (forall l <- Flat(t) :: L.Initial(l))
                 && Replies(r, t, old(Shown(argv)), old(AgreedIn(MapTree(P.SpecId, t), argv)), Distinct(argv))
  {
    hide Replies, AgreedIn, MapTree, Flat;
    var parser := new P.Parser(toks, options);
    var parsed := parser.Parse();
    if parsed.Raised? {
      return Refuses(parsed.error);
    }
    P.ParsedRuns(toks, options);
    L.ParsedLeaves(toks, options);
    var c, h, leaves := Grow(parsed.patterns[0]);
    ghost var all := set l <- leaves;
    ParsedHolds(toks, options, h, all);
    r := Answered(c.node, h, all, argv, parsed.patterns[0]);
  }
}
