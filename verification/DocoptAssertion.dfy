// The matcher with its assertion on repetitions as an outcome, and when it fails.
module DocoptAssertion {
  import opened Basics
  import opened DocoptPattern
  import opened DocoptMatch
  import opened DocoptWilling
  import opened DocoptUsages
  import P = DocoptParser
  import R = DocoptPrinter

  datatype Attempt<T> = Done(value: T) | AssertionError

  /** The matcher on any pattern; a repetition of other than one child fails its assertion. */
  function Try(p: Pattern<Id>, left: seq<Item>): (r: Attempt<Outcome>)
    ensures r.Done? ==> |r.value.rest| <= |left| && (|r.value.rest| == |left| ==> r.value.rest == left)
    decreases p, 1, 0, 0
  {
    match p
    case Tip(_) => Done(Match(p, left))
    case Branch(Required, cs) =>
      var r := TryEvery(cs, left);
      if r.Done? && !r.value.ok then Done(Outcome(false, left, [])) else r
    case Branch(OneOrMore, cs) =>
      if |cs| != 1 then AssertionError
      else
        var r := TryRepeat(cs[0], left, true);
        if r.AssertionError? then AssertionError
        else if r.value.times >= 1 then Done(Outcome(true, r.value.rest, r.value.uses))
        else Done(Outcome(false, left, []))
    case Branch(Either, cs) =>
      var r := TryBest(cs, left);
      if r.AssertionError? then AssertionError
      else if r.value.Just? then Done(r.value.value)
      else Done(Outcome(false, left, []))
    case Branch(_, cs) => TryAny(cs, left)
  }

  function TryEvery(ps: seq<Pattern<Id>>, left: seq<Item>): (r: Attempt<Outcome>)
    ensures r.Done? ==> |r.value.rest| <= |left| && (|r.value.rest| == |left| ==> r.value.rest == left)
    decreases ps, 0, 0, 0
  {
    if ps == [] then Done(Outcome(true, left, []))
    else
      var o := Try(ps[0], left);
      if o.AssertionError? || !o.value.ok then o
      else
        var tail := TryEvery(ps[1..], o.value.rest);
        if tail.AssertionError? then AssertionError
        else Done(Outcome(tail.value.ok, tail.value.rest, o.value.uses + tail.value.uses))
  }

  function TryAny(ps: seq<Pattern<Id>>, left: seq<Item>): (r: Attempt<Outcome>)
    ensures r.Done? ==> |r.value.rest| <= |left| && (|r.value.rest| == |left| ==> r.value.rest == left)
    decreases ps, 0, 0, 0
  {
    if ps == [] then Done(Outcome(true, left, []))
    else
      var o := Try(ps[0], left);
      if o.AssertionError? then AssertionError
      else
        var tail := TryAny(ps[1..], o.value.rest);
        if tail.AssertionError? then AssertionError
        else Done(Outcome(true, tail.value.rest, o.value.uses + tail.value.uses))
  }

  /** Every branch is tried, whatever the others give. */
  function TryBest(ps: seq<Pattern<Id>>, left: seq<Item>): (r: Attempt<Maybe<Outcome>>)
    ensures r.Done? && r.value.Just? ==> |r.value.value.rest| <= |left|
    ensures r.Done? && r.value.Just? ==> |r.value.value.rest| == |left| ==> r.value.value.rest == left
    decreases ps, 0, 0, 0
  {
    if ps == [] then Done(Nothing)
    else
      var o, tail := Try(ps[0], left), TryBest(ps[1..], left);
      if o.AssertionError? || tail.AssertionError? then AssertionError
      else if o.value.ok && (tail.value.Nothing? || |o.value.rest| <= |tail.value.value.rest|) then Done(Just(o.value))
      else tail
  }

  function TryRepeat(p: Pattern<Id>, l: seq<Item>, first: bool): (r: Attempt<Repetition>)
    ensures r.Done? ==> |r.value.rest| <= |l| && (|r.value.rest| == |l| ==> r.value.rest == l)
    decreases p, 2, |l|, if first then 1 else 0
  {
    var o := Try(p, l);
    if o.AssertionError? then AssertionError
    else if !o.value.ok then Done(Repetition(0, 1, l, []))
    else if !first && o.value.rest == l then Done(Repetition(1, 1, o.value.rest, o.value.uses))
    else
      var more := TryRepeat(p, o.value.rest, false);
      if more.AssertionError? then AssertionError
      else Done(Repetition(1 + more.value.times, 1 + more.value.calls, more.value.rest, o.value.uses + more.value.uses))
  }

  // ----- one child each: the assertion never fails

  /** Where every repetition has one child, the outcome is that of the matcher. */
  lemma {:induction false} TryIsMatch(p: Pattern<Id>, left: seq<Item>)
    requires Unary(p)
    ensures Try(p, left) == Done(Match(p, left))
    decreases p, 1, 0, 0
  {
    match p
    case Tip(_) =>
    case Branch(Required, cs) => TryEveryIsMatch(cs, left);
    case Branch(OneOrMore, cs) => TryRepeatIsRepeat(cs[0], left, true);
    case Branch(Either, cs) => TryBestIsMatch(cs, left);
    case Branch(_, cs) => TryAnyIsMatch(cs, left);
  }

  lemma {:induction false} TryEveryIsMatch(ps: seq<Pattern<Id>>, left: seq<Item>)
    requires forall p <- ps :: Unary(p)
    ensures var o := MatchEvery(ps, left);
            TryEvery(ps, left).Done? && TryEvery(ps, left).value.ok == o.ok && (o.ok ==> TryEvery(ps, left).value == o)
    decreases ps, 0, 0, 0
  {
    if ps != [] {
      TryIsMatch(ps[0], left);
      TryEveryIsMatch(ps[1..], Match(ps[0], left).rest);
    }
  }

  lemma {:induction false} TryAnyIsMatch(ps: seq<Pattern<Id>>, left: seq<Item>)
    requires forall p <- ps :: Unary(p)
    ensures TryAny(ps, left) == Done(MatchAny(ps, left))
    decreases ps, 0, 0, 0
  {
    if ps != [] {
      TryIsMatch(ps[0], left);
      TryAnyIsMatch(ps[1..], Match(ps[0], left).rest);
    }
  }

  lemma {:induction false} TryBestIsMatch(ps: seq<Pattern<Id>>, left: seq<Item>)
    requires forall p <- ps :: Unary(p)
    ensures TryBest(ps, left) == Done(MatchBest(ps, left))
    decreases ps, 0, 0, 0
  {
    if ps != [] {
      TryIsMatch(ps[0], left);
      TryBestIsMatch(ps[1..], left);
    }
  }

  lemma {:induction false} TryRepeatIsRepeat(p: Pattern<Id>, l: seq<Item>, first: bool)
    requires Unary(p)
    ensures TryRepeat(p, l, first) == Done(Repeat(p, l, first))
    decreases p, 2, |l|, if first then 1 else 0
  {
    hide Match, Try;
    var o := Match(p, l);
    TryIsMatch(p, l);
    if o.ok && (first || o.rest != l) { TryRepeatIsRepeat(p, o.rest, false); }
  }

  /** Whatever the tokens and whatever the command line: on a parsed pattern in which
      no bundle of several options is repeated, the assertion is never reached to fail. */
  lemma ParsedNeverFails(toks: seq<string>, options: seq<P.LeafSpec>, left: seq<Item>)
    requires P.IsOptions(options) && P.ParsePattern(toks, options).Ok? && !P.RepeatsBundle(toks, options)
    ensures var r := P.ParsePattern(toks, options);
            |r.patterns| == 1
            && var p := MapTree(P.SpecId, r.patterns[0]); Unary(p) && Try(p, left) == Done(Match(p, left))
  {
    P.ParsedRuns(toks, options);
    TryIsMatch(MapTree(P.SpecId, P.ParsePattern(toks, options).patterns[0]), left);
  }

  // ----- a repetition that is always reached

  /** The assertion fails on every command line: the bad repetition is tried first,
      or after parts that always succeed, or among parts that are all tried. */
  predicate Eager(p: Pattern<Id>)
    decreases p, 1
  {
    match p
    case Tip(_) => false
    case Branch(Required, cs) => EagerEvery(cs)
    case Branch(OneOrMore, cs) => |cs| != 1 || Eager(cs[0])
    case Branch(_, cs) => EagerAny(cs)
  }

  predicate EagerEvery(ps: seq<Pattern<Id>>)
    decreases ps, 0
  {
    ps != [] && (Eager(ps[0]) || (Obliging(ps[0]) && EagerEvery(ps[1..])))
  }

  predicate EagerAny(ps: seq<Pattern<Id>>)
    decreases ps, 0
  {
    ps != [] && (Eager(ps[0]) || EagerAny(ps[1..]))
  }

  lemma {:induction false} EagerFails(p: Pattern<Id>, left: seq<Item>)
    requires Eager(p)
    ensures Try(p, left) == AssertionError
    decreases p, 1
  {
    match p
    case Branch(Required, cs) => EagerEveryFails(cs, left);
    case Branch(OneOrMore, cs) => if |cs| == 1 { EagerFails(cs[0], left); }
    case Branch(Either, cs) => EagerBestFails(cs, left);
    case Branch(_, cs) => EagerAnyFails(cs, left);
  }

  lemma {:induction false} EagerEveryFails(ps: seq<Pattern<Id>>, left: seq<Item>)
    requires EagerEvery(ps)
    ensures TryEvery(ps, left) == AssertionError
    decreases ps, 0
  {
    if Eager(ps[0]) {
      EagerFails(ps[0], left);
    } else if Try(ps[0], left).Done? {
      ObligingSucceeds(ps[0], left);
      EagerEveryFails(ps[1..], Try(ps[0], left).value.rest);
    }
  }

  lemma ObligingSucceeds(p: Pattern<Id>, left: seq<Item>)
    requires Obliging(p) && Try(p, left).Done?
    ensures Try(p, left).value.ok
  {
    assert Try(p, left) == TryAny(p.children, left);
  }

  lemma {:induction false} EagerAnyFails(ps: seq<Pattern<Id>>, left: seq<Item>)
    requires EagerAny(ps)
    ensures TryAny(ps, left) == AssertionError
    decreases ps, 0
  {
    if Eager(ps[0]) {
      EagerFails(ps[0], left);
    } else if Try(ps[0], left).Done? {
      EagerAnyFails(ps[1..], Try(ps[0], left).value.rest);
    }
  }

  lemma {:induction false} EagerBestFails(ps: seq<Pattern<Id>>, left: seq<Item>)
    requires EagerAny(ps)
    ensures TryBest(ps, left) == AssertionError
    decreases ps, 0
  {
    if Eager(ps[0]) {
      EagerFails(ps[0], left);
    } else {
      EagerBestFails(ps[1..], left);
    }
  }

  /** After parts with one child per repetition, a bad repetition is reached exactly on
      the command lines on which those parts succeed. */
  lemma FailsIff(front: seq<Pattern<Id>>, bad: Pattern<Id>, back: seq<Pattern<Id>>, left: seq<Item>)
    requires (forall p <- front :: Unary(p)) && Eager(bad)
    ensures Try(Branch(Required, front + [bad] + back), left) == AssertionError <==> MatchEvery(front, left).ok
  {
    FailsAfter(front, bad, back, left);
  }

  lemma {:induction false} FailsAfter(front: seq<Pattern<Id>>, bad: Pattern<Id>, back: seq<Pattern<Id>>, left: seq<Item>)
    requires (forall p <- front :: Unary(p)) && Eager(bad)
    ensures TryEvery(front + [bad] + back, left) == AssertionError <==> MatchEvery(front, left).ok
    ensures !MatchEvery(front, left).ok ==> !TryEvery(front + [bad] + back, left).value.ok
    decreases front
  {
    var all := front + [bad] + back;
    if front == [] {
      EagerFails(all[0], left);
    } else {
      assert all[0] == front[0] && all[1..] == front[1..] + [bad] + back;
      TryIsMatch(front[0], left);
      FailsAfter(front[1..], bad, back, Match(front[0], left).rest);
    }
  }

  /** So some command line reaches it when the parts before it are willing and some
      use has what it needs; on other command lines nothing fails. */
  lemma ReachedIff(front: seq<Pattern<Id>>, bad: Pattern<Id>, back: seq<Pattern<Id>>, left: seq<Item>)
    requires (forall p <- front :: Unary(p)) && (forall p <- front :: Named(p)) && WillingSeq(front)
    requires ParsedArgv(left) && Eager(bad)
    ensures Try(Branch(Required, front + [bad] + back), left) == AssertionError <==>
              exists w :: Lang(Branch(Required, front), w) && Covers(left, w)
  {
    FailsIff(front, bad, back, left);
    MatchesIff(Branch(Required, front), left);
  }

  // ----- two usages

  ghost function IdsOf(ps: seq<P.Tree>): seq<Pattern<Id>> {
    MapAll(P.SpecId, ps)
  }

  /** `-ab...`: the assertion fails on every command line. */
  lemma RepeatedBundleFails(left: seq<Item>)
    ensures var r := P.ParsePattern(["-ab", "..."], []);
            r.Ok? && |r.patterns| == 1 && Try(MapTree(P.SpecId, r.patterns[0]), left) == AssertionError
  {
    R.RepeatedBundleIsNotUnary();
    var two := [Tip(R.Flagged('a')), Tip(R.Flagged('b'))];
    var repeated := Branch(OneOrMore, two);
    assert |IdsOf(two)| == 2;
    assert MapTree(P.SpecId, repeated) == Branch(OneOrMore, IdsOf(two));
    MapAllAt(P.SpecId, [repeated], 0);
    assert Eager(IdsOf([repeated])[0]);
    EagerFails(Branch(Required, IdsOf([repeated])), left);
  }

  /** A repeated argument that may be left out takes every positional. */
  lemma {:induction false} TakesEveryPositional(a: Pattern<Id>, l: seq<Item>, first: bool)
    requires a.Tip? && a.leaf.Arg?
    ensures Unary(Branch(Optional, [a]))
    ensures forall item <- Repeat(Branch(Optional, [a]), l, first).rest :: !item.id.Arg?
    decreases |l|, first
  {
    var opt := Branch(Optional, [a]);
    PossiblyMatched(a, l);
    var o := Match(opt, l);
    if o.rest == l {
      assert SingleMatch(a.leaf, l).Nothing?;
      assert Repeat(opt, l, false).rest == l;
    } else {
      TakesEveryPositional(a, o.rest, false);
    }
  }

  /** After arguments that take every positional nothing is left for <b>. */
  lemma NothingForB(left: seq<Item>)
    ensures var front := [Branch(OneOrMore, [Branch(Optional, [Argument("<a>")])]), Argument("<b>")];
            (forall p <- front :: Unary(p)) && !MatchEvery(front, left).ok
  {
    hide SingleMatch, MatchAny;
    var a, b := Argument("<a>"), Argument("<b>");
    var more := Branch(OneOrMore, [Branch(Optional, [a])]);
    TakesEveryPositional(a, left, true);
    EveryFirst([more, b], left);
    assert [more, b][1..] == [b];
    EveryOne(b, Match(more, left).rest);
    NoArgument("<b>", Repeat(Branch(Optional, [a]), left, true).rest);
    assert Match(more, left).ok ==> Match(more, left).rest == Repeat(Branch(Optional, [a]), left, true).rest;
  }

  /** `[<a>]... <b> -cd...`: a bundle is repeated, yet no command line reaches it, for
      nothing is left for <b>. */
  lemma NeverReached(left: seq<Item>)
    ensures var toks := ["[", "<a>", "]", "...", "<b>", "-cd", "..."];
            var r := P.ParsePattern(toks, []);
            && r.Ok? && |r.patterns| == 1 && P.RepeatsBundle(toks, [])
            && Try(MapTree(P.SpecId, r.patterns[0]), left) == Done(Outcome(false, left, []))
  {
    hide Match, MatchEvery, Unary, MapTree, P.ParsePattern, P.RepeatsBundle, Eager;
    R.BundleBehind();
    P.ParsedRuns(["[", "<a>", "]", "...", "<b>", "-cd", "..."], []);
    BehindIds();
    var more, b, bad := Branch(OneOrMore, [Branch(Optional, [Argument("<a>")])]), Argument("<b>"), BadPart();
    NothingForB(left);
    FailsAfter([more, b], bad, [], left);
    assert [more, b] + [bad] + [] == [more, b, bad];
  }

  lemma NoArgument(name: string, rest: seq<Item>)
    requires forall item <- rest :: !item.id.Arg?
    ensures !Match(Argument(name), rest).ok
  {}

  ghost function BadPart(): Pattern<Id> {
    Branch(OneOrMore, [Tip(R.Flagged('c').id), Tip(R.Flagged('d').id)])
  }

  lemma BehindIds()
    ensures var a, b := Argument("<a>"), Argument("<b>");
            var p := Branch(Required, [Branch(OneOrMore, [Branch(Optional, [a])]), b, BadPart()]);
            MapTree(P.SpecId, Branch(Required, R.BehindParts())) == p && Eager(BadPart()) && !Unary(p)
  {
    var parts := R.BehindParts();
    var a := R.Angled("<a>");
    MapOne(a);
    MapOne(Branch(Optional, [a]));
    assert parts[1..][1..] == [parts[2]] && [parts[2]][1..] == [];
    var c, d := Tip(R.Flagged('c')), Tip(R.Flagged('d'));
    assert [c, d][1..] == [d] && [d][1..] == [];
    assert MapAll(P.SpecId, [c, d]) == [MapTree(P.SpecId, c)] + [MapTree(P.SpecId, d)];
    assert MapTree(P.SpecId, parts[2]) == BadPart();
    assert MapTree(P.SpecId, parts[0]) == Branch(OneOrMore, [Branch(Optional, [Argument("<a>")])]);
    assert MapAll(P.SpecId, parts) == [MapTree(P.SpecId, parts[0])] + ([MapTree(P.SpecId, parts[1])] + [MapTree(P.SpecId, parts[2])]);
    var p := Branch(Required, MapAll(P.SpecId, parts));
    assert p.children[2] == BadPart() && BadPart() in p.children && !Unary(BadPart());
  }

  lemma MapOne(p: P.Tree)
    ensures MapAll(P.SpecId, [p]) == [MapTree(P.SpecId, p)]
  {
    assert [p][1..] == [];
  }
}
