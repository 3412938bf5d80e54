// When a match succeeds, with anything left over: on willing patterns, whenever
// the command line has what some use of the program needs.
module DocoptWilling {
  import opened Basics
  import opened DocoptPattern
  import opened DocoptMatch
  import opened DocoptNeeds
  import opened DocoptComplete

  /** The command line has at least what the word needs, its positionals first. */
  ghost predicate Covers(left: seq<Item>, w: seq<Use>) {
    Pos(w) <= Positionals(left) && Opts(w) <= OptNames(left)
  }

  /** Success is complete on the pattern: parts before the last that must succeed
      take only what they need, or only options that are not used later. */
  ghost predicate Willing(p: Pattern<Id>)
    decreases p, 1
  {
    match p
    case Tip(_) => true
    case Branch(Required, cs) => WillingSeq(cs)
    case Branch(OneOrMore, cs) => |cs| == 1 && Willing(cs[0])
    case Branch(Either, cs) => forall c <- cs :: Willing(c)
    case Branch(_, _) => true
  }

  ghost predicate WillingSeq(ps: seq<Pattern<Id>>)
    decreases ps, 0
  {
    ps == [] ||
    (&& (if forall c <- ps[1..] :: Obliging(c) then Willing(ps[0]) else Forward(ps[0], NamesOf(FlatAll(ps[1..]))))
     && WillingSeq(ps[1..]))
  }

  /** The part always succeeds. */
  predicate Obliging(p: Pattern<Id>) {
    p.Branch? && (p.kind == Optional || p.kind == OptionsShortcut)
  }

  /** The part leaves what is needed after it. */
  ghost predicate Forward(p: Pattern<Id>, later: set<Maybe<string>>)
    decreases p, 2
  {
    match p
    case Tip(_) => true
    case Branch(Required, cs) => ForwardSeq(cs, later)
    case Branch(_, _) => AllOptions(Flat(p)) && Willing(p) && NamesOf(Flat(p)) !! later
  }

  ghost predicate ForwardSeq(ps: seq<Pattern<Id>>, later: set<Maybe<string>>)
    decreases ps, 0
  {
    ps == [] || (Forward(ps[0], later + NamesOf(FlatAll(ps[1..]))) && ForwardSeq(ps[1..], later))
  }

  /** The command line has what comes first and what comes after it. */
  ghost predicate Has(left: seq<Item>, u: seq<Use>, pos: seq<Item>, opts: multiset<Maybe<string>>) {
    ParsedArgv(left) && Pos(u) + pos <= Positionals(left) && Opts(u) + opts <= OptNames(left)
  }

  lemma HasSplit(left: seq<Item>, u: seq<Use>, k: nat, pos: seq<Item>, opts: multiset<Maybe<string>>)
    requires k <= |u| && Has(left, u, pos, opts)
    ensures Has(left, u[..k], Pos(u[k..]) + pos, Opts(u[k..]) + opts)
  {
    NeedsSplit(u, k, pos, opts);
  }

  lemma {:induction false} ForwardTakes(p: Pattern<Id>, later: set<Maybe<string>>, u: seq<Use>, left: seq<Item>,
                                        pos: seq<Item>, opts: multiset<Maybe<string>>)
    requires Matchable(p) && Forward(p, later) && Lang(p, u) && Has(left, u, pos, opts) && forall n <- opts :: n in later
    ensures var o := Match(p, left); o.ok && Has(o.rest, [], pos, opts)
    decreases p, 2
  {
    match p
    case Tip(leaf) => ForwardLeaf(leaf, u, left, pos, opts);
    case Branch(Required, cs) => ForwardSeqTakes(cs, later, u, left, pos, opts);
    case Branch(_, _) =>
      HasCovers(left, u, pos, opts);
      WillingMatches(p, u, left);
      OptionsLeave(p, later, left, opts);
      LangUses(p, u);
      NeedsWithin(Flat(p), u);
      assert Pos(u) + pos == [] + pos && multiset{} + opts == opts;
  }

  lemma HasCovers(left: seq<Item>, u: seq<Use>, pos: seq<Item>, opts: multiset<Maybe<string>>)
    requires Has(left, u, pos, opts)
    ensures Covers(left, u) && opts <= OptNames(left)
  {}

  lemma ForwardLeaf(leaf: Id, u: seq<Use>, left: seq<Item>, pos: seq<Item>, opts: multiset<Maybe<string>>)
    requires Named(Tip(leaf)) && Lang(Tip(leaf), u) && Has(left, u, pos, opts)
    ensures var o := Match(Tip(leaf), left); o.ok && Has(o.rest, [], pos, opts)
  {
    HasCovers(left, u, pos, opts);
    var surplus, more := Surplus(left, u);
    assert u == [u[0]];
    LeafTakes(leaf, u[0], left, surplus, more);
    Ahead(Pos(u), pos, surplus);
    AheadBags(Opts(u), opts, more);
    assert [] + pos == pos && multiset{} + opts == opts;
  }

  /** What a command line has beyond a word. */
  lemma Surplus(left: seq<Item>, u: seq<Use>) returns (pos: seq<Item>, opts: multiset<Maybe<string>>)
    requires Covers(left, u)
    ensures Positionals(left) == Pos(u) + pos && OptNames(left) == Opts(u) + opts
  {
    pos, opts := Positionals(left)[|Pos(u)|..], OptNames(left) - Opts(u);
  }

  lemma AheadBags<T>(a: multiset<T>, b: multiset<T>, c: multiset<T>)
    requires a + b <= a + c
    ensures b <= c
  {
    forall n ensures b[n] <= c[n] { assert (a + b)[n] <= (a + c)[n]; }
  }

  lemma Ahead(a: seq<Item>, b: seq<Item>, c: seq<Item>)
    requires a + b <= a + c
    ensures b <= c
  {
    assert (a + b)[|a|..] == b && (a + c)[|a|..] == c;
  }

  /** A match of options alone leaves the positionals and all other options. */
  lemma OptionsLeave(p: Pattern<Id>, later: set<Maybe<string>>, left: seq<Item>, opts: multiset<Maybe<string>>)
    requires Matchable(p) && ParsedArgv(left) && AllOptions(Flat(p)) && NamesOf(Flat(p)) !! later
    requires opts <= OptNames(left) && forall n <- opts :: n in later
    ensures var o := Match(p, left);
            ParsedArgv(o.rest) && Positionals(o.rest) == Positionals(left) && opts <= OptNames(o.rest)
  {
    var o := Match(p, left);
    Consumes(p, left, Positionals(left), OptNames(left));
    NeedsWithin(Flat(p), o.uses);
    assert [] + Positionals(o.rest) == Positionals(o.rest);
    forall n ensures opts[n] <= OptNames(o.rest)[n] {
      assert n in opts ==> n !in Opts(o.uses);
      assert OptNames(left)[n] == Opts(o.uses)[n] + OptNames(o.rest)[n];
    }
  }

  lemma {:induction false} ForwardSeqTakes(ps: seq<Pattern<Id>>, later: set<Maybe<string>>, u: seq<Use>, left: seq<Item>,
                                           pos: seq<Item>, opts: multiset<Maybe<string>>)
    requires (forall p <- ps :: Unary(p)) && (forall p <- ps :: Named(p)) && ForwardSeq(ps, later) && LangSeq(ps, u, false)
    requires Has(left, u, pos, opts) && forall n <- opts :: n in later
    ensures var o := MatchEvery(ps, left); o.ok && Has(o.rest, [], pos, opts)
    decreases ps, 0
  {
    if ps != [] {
      var k :| 0 <= k <= |u| && LangPart(ps[0], u[..k], false) && LangSeq(ps[1..], u[k..], false);
      HasSplit(left, u, k, pos, opts);
      LangSeqUses(ps[1..], u[k..], false);
      NeedsWithin(FlatAll(ps[1..]), u[k..]);
      ForwardTakes(ps[0], later + NamesOf(FlatAll(ps[1..])), u[..k], left, Pos(u[k..]) + pos, Opts(u[k..]) + opts);
      var rest := Match(ps[0], left).rest;
      assert [] + (Pos(u[k..]) + pos) == Pos(u[k..]) + pos && multiset{} + (Opts(u[k..]) + opts) == Opts(u[k..]) + opts;
      ForwardSeqTakes(ps[1..], later, u[k..], rest, pos, opts);
    }
  }

  lemma {:induction false} WillingMatches(p: Pattern<Id>, u: seq<Use>, left: seq<Item>)
    requires Matchable(p) && Willing(p) && Lang(p, u) && ParsedArgv(left) && Covers(left, u)
    ensures Match(p, left).ok
    decreases p, 1
  {
    match p
    case Tip(leaf) => CoveredLeaf(p, u, left);
    case Branch(Required, cs) => WillingSeqMatches(cs, u, left);
    case Branch(OneOrMore, cs) =>
      var n: nat :| n >= 1 && LangPower(cs, u, n);
      var k :| 0 <= k <= |u| && LangSeq(cs, u[..k], false) && LangPower(cs, u[k..], n - 1);
      assert cs == [cs[0]];
      LangSeqSingle(cs[0], u[..k]);
      CoversFirst(left, u, k);
      WillingMatches(cs[0], u[..k], left);
    case Branch(Either, cs) =>
      var i :| 0 <= i < |cs| && Lang(cs[i], u);
      WillingMatches(cs[i], u, left);
      var j := BestIsFirstShortest(cs, left);
    case Branch(_, _) =>
  }

  lemma CoveredLeaf(p: Pattern<Id>, u: seq<Use>, left: seq<Item>)
    requires p.Tip? && Named(p) && Lang(p, u) && ParsedArgv(left) && Covers(left, u)
    ensures Match(p, left).ok
  {
    var surplus, more := Surplus(left, u);
    assert u == [u[0]];
    LeafTakes(p.leaf, u[0], left, surplus, more);
  }

  lemma CoversFirst(left: seq<Item>, u: seq<Use>, k: nat)
    requires k <= |u| && Covers(left, u)
    ensures Covers(left, u[..k])
  {
    assert u == u[..k] + u[k..];
    NeedsAppend(u[..k], u[k..]);
  }

  lemma {:induction false} WillingSeqMatches(ps: seq<Pattern<Id>>, u: seq<Use>, left: seq<Item>)
    requires (forall p <- ps :: Unary(p)) && (forall p <- ps :: Named(p)) && WillingSeq(ps) && LangSeq(ps, u, false)
    requires ParsedArgv(left) && Covers(left, u)
    ensures MatchEvery(ps, left).ok
    decreases ps, 0
  {
    if ps != [] {
      var k :| 0 <= k <= |u| && LangPart(ps[0], u[..k], false) && LangSeq(ps[1..], u[k..], false);
      if forall c <- ps[1..] :: Obliging(c) {
        CoversFirst(left, u, k);
        WillingMatches(ps[0], u[..k], left);
        ObligingMatch(ps[1..], Match(ps[0], left).rest);
      } else {
        NeedsSplit(u, k, [], multiset{});
        assert Pos(u) + [] == Pos(u) && Opts(u) + multiset{} == Opts(u);
        assert Pos(u[k..]) + [] == Pos(u[k..]) && Opts(u[k..]) + multiset{} == Opts(u[k..]);
        LangSeqUses(ps[1..], u[k..], false);
        NeedsWithin(FlatAll(ps[1..]), u[k..]);
        ForwardTakes(ps[0], NamesOf(FlatAll(ps[1..])), u[..k], left, Pos(u[k..]), Opts(u[k..]));
        WillingSeqMatches(ps[1..], u[k..], Match(ps[0], left).rest);
      }
    }
  }

  lemma {:induction false} ObligingMatch(ps: seq<Pattern<Id>>, left: seq<Item>)
    requires (forall p <- ps :: Unary(p)) && forall p <- ps :: Obliging(p)
    ensures MatchEvery(ps, left).ok
  {
    if ps != [] {
      assert Match(ps[0], left).ok;
      ObligingMatch(ps[1..], Match(ps[0], left).rest);
    }
  }

  /** On willing patterns a match succeeds if and only if the command line has what
      some use of the program needs. */
  lemma MatchesIff(p: Pattern<Id>, left: seq<Item>)
    requires Matchable(p) && Willing(p) && ParsedArgv(left)
    ensures Match(p, left).ok <==> exists w :: Lang(p, w) && Covers(left, w)
  {
    var o := Match(p, left);
    if o.ok {
      MatchSound(p, left);
      WordNeeds(p, o.uses, left, o.rest);
      assert Covers(left, o.uses);
    }
    if w :| Lang(p, w) && Covers(left, w) { WillingMatches(p, w, left); }
  }

  /** Patterns of leaves that must be given are in both classes. */
  lemma {:induction false} FirmIsWilling(p: Pattern<Id>, later: set<Maybe<string>>)
    requires Firm(p)
    ensures Willing(p) && Forward(p, later)
    decreases p, 1
  {
    match p
    case Tip(_) =>
    case Branch(_, cs) => FirmAreWilling(cs, later);
  }

  lemma {:induction false} FirmAreWilling(ps: seq<Pattern<Id>>, later: set<Maybe<string>>)
    requires forall p <- ps :: Firm(p)
    ensures WillingSeq(ps) && ForwardSeq(ps, later)
    decreases ps, 0
  {
    if ps != [] {
      FirmIsWilling(ps[0], later + NamesOf(FlatAll(ps[1..])));
      FirmIsWilling(ps[0], NamesOf(FlatAll(ps[1..])));
      FirmAreWilling(ps[1..], later);
    }
  }
}
