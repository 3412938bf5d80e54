// When the greedy matcher is complete: patterns that a caller can recognize, on
// which it accepts every command line that some use of the program has.
module DocoptComplete {
  import opened Basics
  import opened DocoptPattern
  import opened DocoptMatch
  import opened DocoptNeeds

  // ----- patterns on which greedy is complete

  ghost function NamesOf(flat: seq<Id>): set<Maybe<string>> {
    set l <- flat | l.Opt? :: Name(l)
  }

  ghost predicate AllOptions(flat: seq<Id>) {
    forall l <- flat :: l.Opt?
  }

  /** Leaves that must all be given. */
  ghost predicate Firm(p: Pattern<Id>)
    decreases p
  {
    match p
    case Tip(_) => true
    case Branch(k, cs) => k == Required && forall c <- cs :: Firm(c)
  }

  /** The part uses no option name that is used later, and positionals only if none
      is used later: what it leaves out cannot be mistaken for what follows. */
  ghost predicate Loose(p: Pattern<Id>, last: bool, later: set<Maybe<string>>) {
    NamesOf(Flat(p)) !! later && (last || AllOptions(Flat(p)))
  }

  /** What is repeated: leaves that must be given, or that as an option. */
  ghost predicate Turnable(c: Pattern<Id>) {
    Firm(Core(c))
  }

  ghost function Core(c: Pattern<Id>): Pattern<Id> {
    if c.Branch? && (c.kind == Optional || c.kind == OptionsShortcut) && |c.children| == 1 then c.children[0] else c
  }

  /** The command that a branch begins with. */
  function Key(p: Pattern<Id>): Maybe<string> {
    match p
    case Tip(Cmd(name)) => Just(name)
    case Branch(Required, cs) => if cs != [] && cs[0].Tip? && cs[0].leaf.Cmd? then Just(cs[0].leaf.cmdName) else Nothing
    case _ => Nothing
  }

  /** The branches begin with different commands. */
  ghost predicate Keyed(cs: seq<Pattern<Id>>) {
    && (forall i :: 0 <= i < |cs| ==> Key(cs[i]).Just?)
    && (forall i, j :: 0 <= i < j < |cs| ==> Key(cs[i]) != Key(cs[j]))
  }

  /** Greedy matching is complete on the pattern, when it is followed by positionals
      unless `last`, and by options with names in `later`. Parts that may be left
      out, and branches without commands of their own, must be loose: options whose
      names are not used later, and positionals only where none follows. */
  ghost predicate Tame(p: Pattern<Id>, last: bool, later: set<Maybe<string>>)
    decreases p, 1
  {
    match p
    case Tip(_) => true
    case Branch(Required, cs) => TameSeq(cs, last, later, false)
    case Branch(OneOrMore, cs) => |cs| == 1 && Turnable(cs[0]) && Loose(p, last, later)
    case Branch(Either, cs) => (forall c <- cs :: Tame(c, last, later)) && (Keyed(cs) || Loose(p, last, later))
    case Branch(_, cs) => TameSeq(cs, last, later, true)
  }

  ghost predicate TameSeq(ps: seq<Pattern<Id>>, last: bool, later: set<Maybe<string>>, droppable: bool)
    decreases ps, 1
  {
    ps == [] || (last && SlackSeq(ps, later, droppable)) ||
    (var lastHere, laterHere := last && AllOptions(FlatAll(ps[1..])), later + NamesOf(FlatAll(ps[1..]));
     && Tame(ps[0], lastHere, laterHere) && (droppable ==> Loose(ps[0], lastHere, laterHere))
     && TameSeq(ps[1..], last, later, droppable))
  }

  /** An argument that may be left out. */
  ghost predicate Slot(p: Pattern<Id>, droppable: bool) {
    || (droppable && p.Tip? && p.leaf.Arg?)
    || (p.Branch? && p.kind == Optional && |p.children| == 1 && p.children[0].Tip? && p.children[0].leaf.Arg?)
  }

  /** Arguments that may all be left out, with options in between: whichever of them
      a word fills, greedy fills the first ones. */
  ghost predicate SlackSeq(ps: seq<Pattern<Id>>, later: set<Maybe<string>>, droppable: bool)
    decreases ps, 0
  {
    ps == [] ||
    (var laterHere := later + NamesOf(FlatAll(ps[1..]));
     && (Slot(ps[0], droppable)
         || (AllOptions(Flat(ps[0])) && Tame(ps[0], false, laterHere) && (droppable ==> Loose(ps[0], false, laterHere))))
     && SlackSeq(ps[1..], later, droppable))
  }

  /** What follows a part on the command line. */
  ghost predicate Follows(last: bool, later: set<Maybe<string>>, pos: seq<Item>, opts: multiset<Maybe<string>>) {
    (last ==> pos == []) && forall n <- opts :: n in later
  }

  lemma {:induction false} NeedsWithin(flat: seq<Id>, w: seq<Use>)
    requires UsesOf(flat, w)
    ensures forall n <- Opts(w) :: n in NamesOf(flat)
    ensures AllOptions(flat) ==> Pos(w) == []
  {
    if w != [] {
      assert w[0] in w && forall u <- w[1..] :: u in w;
      NeedsWithin(flat, w[1..]);
      if w[0].leaf.Opt? { assert Name(w[0].leaf) in NamesOf(flat); }
    }
  }

  lemma SomeNeed(w: seq<Use>)
    ensures w != [] ==> Pos(w) != [] || Opts(w) != multiset{}
  {
    if w != [] && w[0].leaf.Opt? { assert Name(w[0].leaf) in Opts(w); }
  }

  lemma {:induction false} FirmIsTame(p: Pattern<Id>, last: bool, later: set<Maybe<string>>)
    requires Firm(p)
    ensures Tame(p, last, later)
    decreases p, 1
  {
    match p
    case Tip(_) =>
    case Branch(_, cs) => FirmAreTame(cs, last, later);
  }

  lemma {:induction false} FirmAreTame(ps: seq<Pattern<Id>>, last: bool, later: set<Maybe<string>>)
    requires forall p <- ps :: Firm(p)
    ensures TameSeq(ps, last, later, false)
    decreases ps, 0
  {
    if ps != [] {
      FirmIsTame(ps[0], last && AllOptions(FlatAll(ps[1..])), later + NamesOf(FlatAll(ps[1..])));
      FirmAreTame(ps[1..], last, later);
    }
  }

  /** A loose part takes nothing of what follows it. */
  lemma Idle(p: Pattern<Id>, last: bool, later: set<Maybe<string>>, left: seq<Item>, pos: seq<Item>, opts: multiset<Maybe<string>>)
    requires Matchable(p) && Loose(p, last, later) && Line(left, pos, opts) && Follows(last, later, pos, opts)
    ensures Match(p, left).rest == left
  {
    var o := Match(p, left);
    Consumes(p, left, pos, opts);
    NeedsWithin(Flat(p), o.uses);
    assert forall n <- Opts(o.uses) :: n in opts;
    assert forall n :: n !in Opts(o.uses);
    assert Opts(o.uses) == multiset{};
    SomeNeed(o.uses);
  }

  // ----- the repetition

  /** Turns of `[x]` that take nothing may be forgotten. */
  lemma {:induction false} CorePower(c: Pattern<Id>, u: seq<Use>, n: nat) returns (m: nat)
    requires LangPower([c], u, n)
    ensures LangPower([Core(c)], u, m) && (Core(c) == c ==> m == n)
    decreases n
  {
    m := n;
    if n > 0 && Core(c) != c {
      var k :| 0 <= k <= |u| && LangSeq([c], u[..k], false) && LangPower([c], u[k..], n - 1);
      var j := CorePower(c, u[k..], n - 1);
      LangSeqSingle(c, u[..k]);
      OptionalTurnIs(c, u[..k]);
      if u[..k] == [] {
        assert u == u[k..];
        m := j;
      } else {
        LangSeqOne(Core(c), u[..k]);
        LangPowerCons([Core(c)], u[..k], u[k..], j);
        assert u == u[..k] + u[k..];
        m := j + 1;
      }
    }
  }

  lemma LangSeqSingle(c: Pattern<Id>, w: seq<Use>)
    requires LangSeq([c], w, false)
    ensures Lang(c, w)
  {
    var k :| 0 <= k <= |w| && LangPart([c][0], w[..k], false) && LangSeq([c][1..], w[k..], false);
    assert w[..k] == w;
  }

  /** A turn of `[x]` takes nothing, or what x takes. */
  lemma OptionalTurnIs(c: Pattern<Id>, w: seq<Use>)
    requires Core(c) != c && Lang(c, w)
    ensures w == [] || Lang(Core(c), w)
  {
    var cs := c.children;
    var k :| 0 <= k <= |w| && LangPart(cs[0], w[..k], true) && LangSeq(cs[1..], w[k..], true);
    assert w[k..] == [] && w[..k] == w;
  }

  lemma {:induction false} FirmLength(p: Pattern<Id>, w: seq<Use>)
    requires Firm(p) && Lang(p, w)
    ensures |w| == |Flat(p)|
    decreases p, 1
  {
    match p
    case Tip(_) =>
    case Branch(_, cs) => FirmLengths(cs, w);
  }

  lemma {:induction false} FirmLengths(ps: seq<Pattern<Id>>, w: seq<Use>)
    requires (forall p <- ps :: Firm(p)) && LangSeq(ps, w, false)
    ensures |w| == |FlatAll(ps)|
    decreases ps, 0
  {
    if ps != [] {
      var k :| 0 <= k <= |w| && LangPart(ps[0], w[..k], false) && LangSeq(ps[1..], w[k..], false);
      FirmLength(ps[0], w[..k]);
      FirmLengths(ps[1..], w[k..]);
    }
  }

  /** If one turn of leaves that must be given takes nothing, no turn does. */
  lemma EmptyTurns(f: Pattern<Id>, u: seq<Use>, m: nat)
    requires Firm(f) && Lang(f, []) && LangPower([f], u, m)
    ensures u == []
  {
    FirmLength(f, []);
    LangPowerUses([f], u, m);
    assert FlatAll([f]) == Flat(f) + FlatAll([f][1..]);
    assert u != [] ==> u[0] in u && u[0].leaf in FlatAll([f]);
  }

  /** A turn of the repetition takes what its core takes. */
  lemma TurnOf(c: Pattern<Id>, left: seq<Item>)
    requires Unary(c)
    ensures Unary(Core(c)) && Match(c, left).rest == Match(Core(c), left).rest
    ensures Core(c) != c || Match(Core(c), left).ok ==> Match(c, left).ok
  {
    if Core(c) != c {
      assert c.children == [Core(c)];
      assert MatchAny([Core(c)], left).rest == MatchAny([Core(c)][1..], Match(Core(c), left).rest).rest;
    }
  }

  lemma CoreNamed(c: Pattern<Id>)
    requires Matchable(c)
    ensures Matchable(Core(c))
  {}

  /** Splitting the needs of a word that comes before others. */
  lemma NeedsSplit(u: seq<Use>, k: nat, pos: seq<Item>, opts: multiset<Maybe<string>>)
    requires k <= |u|
    ensures Pos(u) + pos == Pos(u[..k]) + (Pos(u[k..]) + pos)
    ensures Opts(u) + opts == Opts(u[..k]) + (Opts(u[k..]) + opts)
  {
    assert u == u[..k] + u[k..];
    NeedsAppend(u[..k], u[k..]);
    Associative(Pos(u[..k]), Pos(u[k..]), pos);
    AssociativeBags(Opts(u[..k]), Opts(u[k..]), opts);
  }

  lemma AssociativeBags<T>(a: multiset<T>, b: multiset<T>, c: multiset<T>)
    ensures (a + b) + c == a + (b + c)
  {}

  /** With no turn ahead the loop stops where it is. */
  lemma RepeatStops(c: Pattern<Id>, last: bool, later: set<Maybe<string>>, left: seq<Item>, pos: seq<Item>,
                    opts: multiset<Maybe<string>>, first: bool)
    requires Matchable(c) && Loose(c, last, later) && Line(left, pos, opts) && Follows(last, later, pos, opts)
    ensures var r := Repeat(c, left, first); r.rest == left && (Match(c, left).ok ==> r.times >= 1)
  {
    var o := Match(c, left);
    Idle(c, last, later, left, pos, opts);
    if o.ok {
      assert Repeat(c, left, false) == Repetition(1, 1, left, o.uses);
    } else {
      assert Repeat(c, left, first) == Repetition(0, 1, left, []);
    }
  }

  /** One turn takes the first of the words that are ahead. */
  lemma TurnTakes(c: Pattern<Id>, u: seq<Use>, k: nat, left: seq<Item>, pos: seq<Item>, opts: multiset<Maybe<string>>)
    requires Matchable(c) && Turnable(c) && k <= |u| && Lang(Core(c), u[..k])
    requires Line(left, Pos(u) + pos, Opts(u) + opts)
    ensures var o := Match(c, left); o.ok && Line(o.rest, Pos(u[k..]) + pos, Opts(u[k..]) + opts)
    ensures Match(c, left).rest == left ==> u[..k] == []
    decreases c, 2, 0, 0
  {
    var f, pos', opts' := Core(c), Pos(u[k..]) + pos, Opts(u[k..]) + opts;
    TurnOf(c, left);
    CoreNamed(c);
    NeedsSplit(u, k, pos, opts);
    var names := set n | n in opts';
    FirmIsTame(f, false, names);
    Takes(f, false, names, u[..k], left, pos', opts');
    if Match(c, left).rest == left { AddsNothing(u[..k], pos', opts'); }
  }

  /** The loop takes all turns of a word and stops before what follows. */
  lemma {:induction false} RepeatTakes(c: Pattern<Id>, last: bool, later: set<Maybe<string>>, u: seq<Use>, m: nat,
                                       left: seq<Item>, pos: seq<Item>, opts: multiset<Maybe<string>>, first: bool)
    requires Matchable(c) && Turnable(c) && Loose(c, last, later) && LangPower([Core(c)], u, m)
    requires Line(left, Pos(u) + pos, Opts(u) + opts) && Follows(last, later, pos, opts)
    ensures var r := Repeat(c, left, first);
            Line(r.rest, pos, opts) && (m >= 1 || Core(c) != c ==> r.times >= 1)
    decreases c, 2, 1, m
  {
    var o := Match(c, left);
    if m == 0 {
      assert Pos(u) + pos == pos && Opts(u) + opts == opts;
      TurnOf(c, left);
      RepeatStops(c, last, later, left, pos, opts, first);
    } else {
      var k :| 0 <= k <= |u| && LangSeq([Core(c)], u[..k], false) && LangPower([Core(c)], u[k..], m - 1);
      LangSeqSingle(Core(c), u[..k]);
      TurnTakes(c, u, k, left, pos, opts);
      if !first && o.rest == left {
        EmptyTurns(Core(c), u, m);
        assert Pos(u) + pos == pos && Opts(u) + opts == opts;
        assert Repeat(c, left, first) == Repetition(1, 1, left, o.uses);
      } else {
        RepeatTakes(c, last, later, u[k..], m - 1, o.rest, pos, opts, false);
        assert Repeat(c, left, first).rest == Repeat(c, o.rest, false).rest;
      }
    }
  }

  /** A word that adds nothing to what follows is empty. */
  lemma AddsNothing(u: seq<Use>, pos: seq<Item>, opts: multiset<Maybe<string>>)
    requires Pos(u) + pos == pos && Opts(u) + opts == opts
    ensures u == []
  {
    assert |Pos(u) + pos| == |pos|;
    assert |Opts(u) + opts| == |opts|;
    SomeNeed(u);
  }

  // ----- branches

  lemma KeyNeeded(p: Pattern<Id>, u: seq<Use>)
    requires Key(p).Just? && Lang(p, u)
    ensures Pos(u) != [] && Pos(u)[0].value == Str(Key(p).value)
  {
    if p.Branch? {
      var cs := p.children;
      assert p == Branch(Required, cs) && LangSeq(cs, u, false);
      var k :| 0 <= k <= |u| && LangPart(cs[0], u[..k], false) && LangSeq(cs[1..], u[k..], false);
      assert Lang(cs[0], u[..k]) && cs[0].Tip?;
      assert |u[..k]| == 1 && u[..k][0] == u[0];
    }
  }

  lemma KeyChecked(p: Pattern<Id>, left: seq<Item>)
    requires Unary(p) && Key(p).Just? && Positionals(left) != [] && Positionals(left)[0].value != Str(Key(p).value)
    ensures !Match(p, left).ok
  {
    CommandFound(Key(p).value, left);
    if p.Branch? {
      assert !Match(p.children[0], left).ok;
    }
  }

  /** Of loose branches any that leaves no more leaves the same. */
  lemma LeavesNoMore(p: Pattern<Id>, q: Pattern<Id>, last: bool, later: set<Maybe<string>>, left: seq<Item>, rest: seq<Item>,
                     needs: multiset<Maybe<string>>, pos: seq<Item>, opts: multiset<Maybe<string>>)
    requires Loose(p, last, later) && Matchable(q) && (forall l <- Flat(q) :: l in Flat(p)) && Follows(last, later, pos, opts)
    requires Line(left, if last then Positionals(left) else pos, needs + opts) && (forall n <- needs :: n in NamesOf(Flat(p)))
    requires Line(rest, pos, opts) && Match(q, left).ok && |Match(q, left).rest| <= |rest|
    ensures Line(Match(q, left).rest, pos, opts)
  {
    var o := Match(q, left);
    Consumes(q, left, Positionals(left), needs + opts);
    NeedsWithin(Flat(q), o.uses);
    var kept := OptNames(o.rest);
    assert forall n <- Opts(o.uses) :: n in NamesOf(Flat(p));
    assert opts <= kept by {
      forall n ensures opts[n] <= kept[n] {
        assert n in opts ==> n in later && n !in needs && n !in Opts(o.uses);
        assert (needs + opts)[n] == Opts(o.uses)[n] + kept[n];
      }
    }
    Lengths(rest);
    Lengths(o.rest);
    if !last { assert Pos(o.uses) == []; }
    assert |kept| <= |opts|;
    assert kept == opts + (kept - opts);
    assert |kept - opts| == 0;
  }

  lemma {:induction false} BestTakes(p: Pattern<Id>, last: bool, later: set<Maybe<string>>, u: seq<Use>, i: nat,
                                     left: seq<Item>, pos: seq<Item>, opts: multiset<Maybe<string>>)
    requires p.Branch? && p.kind == Either && Matchable(p) && Tame(p, last, later)
    requires i < |p.children| && Lang(p.children[i], u)
    requires Line(left, Pos(u) + pos, Opts(u) + opts) && Follows(last, later, pos, opts)
    ensures var o := Match(p, left); o.ok && Line(o.rest, pos, opts)
    decreases p, 0
  {
    var cs := p.children;
    Takes(cs[i], last, later, u, left, pos, opts);
    var j := BestIsFirstShortest(cs, left);
    FlatChild(cs, i);
    FlatChild(cs, j);
    if Keyed(cs) {
      KeyNeeded(cs[i], u);
      assert Positionals(left)[0] == Pos(u)[0];
      if j != i { KeyChecked(cs[j], left); }
    } else {
      LangUses(cs[i], u);
      NeedsWithin(Flat(cs[i]), u);
      if !last { assert AllOptions(Flat(cs[i])); }
      LeavesNoMore(p, cs[j], last, later, left, Match(cs[i], left).rest, Opts(u), pos, opts);
    }
  }

  // ----- arguments that may be left out

  /** A word of a slot is empty or one positional. */
  lemma {:induction false} SlotWord(p: Pattern<Id>, droppable: bool, u: seq<Use>)
    requires Slot(p, droppable) && LangPart(p, u, droppable)
    ensures u == [] || (|u| == 1 && u[0].leaf.Arg? && u[0].item.id.Arg?)
    ensures LangPart(p, [], droppable)
  {
    if p.Branch? {
      var cs := p.children;
      if u != [] {
        assert LangSeq(cs, u, true);
        var k :| 0 <= k <= |u| && LangPart(cs[0], u[..k], true) && LangSeq(cs[1..], u[k..], true);
        assert u[k..] == [] && u[..k] == u;
        assert Lang(cs[0], u);
      }
      assert LangPart(cs[0], [], true) && LangSeq(cs[1..], [], true);
      LangSeqCons(cs[0], cs[1..], [], [], true);
      assert [cs[0]] + cs[1..] == cs;
    }
  }

  lemma SlotNames(p: Pattern<Id>, droppable: bool)
    requires Slot(p, droppable)
    ensures NamesOf(Flat(p)) == {}
  {
    if p.Branch? {
      assert FlatAll(p.children) == Flat(p.children[0]) + FlatAll(p.children[1..]);
    }
  }

  /** A slot takes the first positional. */
  lemma SlotTakes(p: Pattern<Id>, droppable: bool, left: seq<Item>, pos: seq<Item>, opts: multiset<Maybe<string>>)
    requires Unary(p) && Slot(p, droppable) && Line(left, pos, opts) && pos != []
    ensures var o := Match(p, left); o.ok && Line(o.rest, pos[1..], opts)
  {
    PositionalsAreArgs(left);
    assert pos == [pos[0]] + pos[1..];
    if p.Tip? {
      PositionalTakes(p.leaf, pos[0], left, pos[1..], opts);
    } else {
      var c := p.children[0];
      PositionalTakes(c.leaf, pos[0], left, pos[1..], opts);
      assert p.children == [c] && [c][1..] == [];
      assert MatchAny([c], left).rest == Match(c, left).rest;
    }
  }

  lemma {:induction false} PositionalsAreArgs(items: seq<Item>)
    ensures forall item <- Positionals(items) :: item.id.Arg?
  {
    if items != [] { PositionalsAreArgs(items[1..]); }
  }

  /** The first part fills a slot: it may be left empty. */
  lemma DropHere(p: Pattern<Id>, ps: seq<Pattern<Id>>, droppable: bool, u: seq<Use>, v: seq<Use>)
    requires Slot(p, droppable) && LangPart(p, u, droppable) && u != [] && LangSeq(ps, v, droppable)
    ensures LangSeq([p] + ps, v, droppable) && Pos(u + v) != [] && Pos(v) == Pos(u + v)[1..] && Opts(v) == Opts(u + v)
  {
    SlotWord(p, droppable, u);
    LangSeqCons(p, ps, [], v, droppable);
    assert [] + v == v;
    OneUse(u);
    NeedsAppend(u, v);
    assert multiset{} + Opts(v) == Opts(v);
    assert ([u[0].item] + Pos(v))[1..] == Pos(v);
  }

  /** The first part has no positional: the others do without one. */
  lemma DropLater(p: Pattern<Id>, ps: seq<Pattern<Id>>, droppable: bool, u: seq<Use>, v: seq<Use>, t: seq<Use>)
    requires LangPart(p, u, droppable) && Pos(u) == [] && LangSeq(ps, t, droppable)
    requires Pos(v) != [] && Pos(t) == Pos(v)[1..] && Opts(t) == Opts(v)
    ensures LangSeq([p] + ps, u + t, droppable) && Pos(u + v) != [] && Pos(u + t) == Pos(u + v)[1..] && Opts(u + t) == Opts(u + v)
  {
    LangSeqCons(p, ps, u, t, droppable);
    NeedsAppend(u, t);
    NeedsAppend(u, v);
    assert [] + Pos(v) == Pos(v) && [] + Pos(t) == Pos(t);
  }

  /** A word of slack parts may do without its first positional. */
  lemma {:induction false} DropFirst(ps: seq<Pattern<Id>>, later: set<Maybe<string>>, droppable: bool, w: seq<Use>) returns (v: seq<Use>)
    requires SlackSeq(ps, later, droppable) && LangSeq(ps, w, droppable) && Pos(w) != []
    ensures LangSeq(ps, v, droppable) && Pos(v) == Pos(w)[1..] && Opts(v) == Opts(w)
    decreases ps
  {
    var k :| 0 <= k <= |w| && LangPart(ps[0], w[..k], droppable) && LangSeq(ps[1..], w[k..], droppable);
    var u, more := w[..k], w[k..];
    assert w == u + more && ps == [ps[0]] + ps[1..];
    if Slot(ps[0], droppable) && u != [] {
      v := more;
      DropHere(ps[0], ps[1..], droppable, u, more);
    } else {
      NoPositional(ps[0], droppable, u);
      NeedsAppend(u, more);
      assert [] + Pos(more) == Pos(more);
      var t := DropFirst(ps[1..], later, droppable, more);
      v := u + t;
      DropLater(ps[0], ps[1..], droppable, u, more, t);
    }
  }

  lemma NoPositional(p: Pattern<Id>, droppable: bool, u: seq<Use>)
    requires LangPart(p, u, droppable) && (u == [] || AllOptions(Flat(p)))
    ensures Pos(u) == []
  {
    if u != [] {
      LangUses(p, u);
      NeedsWithin(Flat(p), u);
    }
  }

  lemma OneUse(w: seq<Use>)
    requires |w| == 1 && !w[0].leaf.Opt?
    ensures Pos(w) == [w[0].item] && Opts(w) == multiset{}
  {
    assert w[1..] == [];
  }

  lemma {:induction false} SlackTakes(ps: seq<Pattern<Id>>, later: set<Maybe<string>>, droppable: bool, u: seq<Use>,
                                      left: seq<Item>, opts: multiset<Maybe<string>>)
    requires (forall p <- ps :: Unary(p)) && (forall p <- ps :: Named(p)) && SlackSeq(ps, later, droppable)
    requires LangSeq(ps, u, droppable) && Line(left, Pos(u), Opts(u) + opts) && forall n <- opts :: n in later
    ensures var o := if droppable then MatchAny(ps, left) else MatchEvery(ps, left); o.ok && Line(o.rest, [], opts)
    decreases ps, 0
  {
    if ps == [] {
      assert Opts(u) + opts == opts;
    } else {
      var k :| 0 <= k <= |u| && LangPart(ps[0], u[..k], droppable) && LangSeq(ps[1..], u[k..], droppable);
      NeedsSplit(u, k, [], opts);
      assert Pos(u[k..]) + [] == Pos(u[k..]) && Pos(u) + [] == Pos(u);
      var laterHere := later + NamesOf(FlatAll(ps[1..]));
      var v := u[k..];
      LangSeqUses(ps[1..], v, droppable);
      NeedsWithin(FlatAll(ps[1..]), v);
      if Slot(ps[0], droppable) {
        SlotWord(ps[0], droppable, u[..k]);
        if u[..k] != [] { OneUse(u[..k]); }
        assert Opts(u) + opts == Opts(v) + opts;
        if Pos(u) == [] {
          SlotNames(ps[0], droppable);
          var need := Opts(v) + opts;
          Idle(ps[0], true, (set n | n in need), left, [], need);
        } else {
          SlotTakes(ps[0], droppable, left, Pos(u), Opts(v) + opts);
          if u[..k] == [] { v := DropFirst(ps[1..], later, droppable, u[k..]); }
        }
      } else if Lang(ps[0], u[..k]) {
        LangUses(ps[0], u[..k]);
        NeedsWithin(Flat(ps[0]), u[..k]);
        Takes(ps[0], false, laterHere, u[..k], left, Pos(v), Opts(v) + opts);
      } else {
        assert Pos(u[..k]) + Pos(v) == Pos(v) && Opts(u[..k]) + (Opts(v) + opts) == Opts(v) + opts;
        Idle(ps[0], false, laterHere, left, Pos(v), Opts(v) + opts);
      }
      SlackTakes(ps[1..], later, droppable, v, Match(ps[0], left).rest, opts);
    }
  }

  // ----- completeness

  /** Greedy takes exactly a word's needs and leaves what follows, whatever else of
      the language it might have taken. */
  lemma {:induction false} Takes(p: Pattern<Id>, last: bool, later: set<Maybe<string>>, u: seq<Use>, left: seq<Item>,
                                 pos: seq<Item>, opts: multiset<Maybe<string>>)
    requires Matchable(p) && Tame(p, last, later) && Lang(p, u)
    requires Line(left, Pos(u) + pos, Opts(u) + opts) && Follows(last, later, pos, opts)
    ensures var o := Match(p, left); o.ok && Line(o.rest, pos, opts)
    decreases p, 1
  {
    match p
    case Tip(leaf) =>
      assert u == [u[0]];
      LeafTakes(leaf, u[0], left, pos, opts);
    case Branch(Required, cs) => TakesSeq(cs, last, later, false, u, left, pos, opts);
    case Branch(OneOrMore, cs) =>
      var n: nat :| n >= 1 && LangPower(cs, u, n);
      assert cs == [cs[0]] && FlatAll(cs) == Flat(cs[0]) + FlatAll(cs[1..]);
      var m := CorePower(cs[0], u, n);
      RepeatTakes(cs[0], last, later, u, m, left, pos, opts, true);
    case Branch(Either, cs) =>
      var i :| 0 <= i < |cs| && Lang(cs[i], u);
      BestTakes(p, last, later, u, i, left, pos, opts);
    case Branch(_, cs) => TakesSeq(cs, last, later, true, u, left, pos, opts);
  }

  lemma {:induction false} TakesSeq(ps: seq<Pattern<Id>>, last: bool, later: set<Maybe<string>>, droppable: bool, u: seq<Use>,
                                    left: seq<Item>, pos: seq<Item>, opts: multiset<Maybe<string>>)
    requires (forall p <- ps :: Unary(p)) && (forall p <- ps :: Named(p)) && TameSeq(ps, last, later, droppable) && LangSeq(ps, u, droppable)
    requires Line(left, Pos(u) + pos, Opts(u) + opts) && Follows(last, later, pos, opts)
    ensures var o := if droppable then MatchAny(ps, left) else MatchEvery(ps, left); o.ok && Line(o.rest, pos, opts)
    decreases ps, 1
  {
    if ps == [] {
      assert Pos(u) + pos == pos && Opts(u) + opts == opts;
    } else if last && SlackSeq(ps, later, droppable) {
      assert Pos(u) + [] == Pos(u);
      SlackTakes(ps, later, droppable, u, left, opts);
    } else {
      var k :| 0 <= k <= |u| && LangPart(ps[0], u[..k], droppable) && LangSeq(ps[1..], u[k..], droppable);
      NeedsSplit(u, k, pos, opts);
      LangSeqUses(ps[1..], u[k..], droppable);
      NeedsWithin(FlatAll(ps[1..]), u[k..]);
      var lastHere, laterHere := last && AllOptions(FlatAll(ps[1..])), later + NamesOf(FlatAll(ps[1..]));
      var pos', opts' := Pos(u[k..]) + pos, Opts(u[k..]) + opts;
      assert Follows(lastHere, laterHere, pos', opts');
      if Lang(ps[0], u[..k]) {
        Takes(ps[0], lastHere, laterHere, u[..k], left, pos', opts');
      } else {
        assert Pos(u[..k]) + pos' == pos' && Opts(u[..k]) + opts' == opts';
        Idle(ps[0], lastHere, laterHere, left, pos', opts');
      }
      TakesSeq(ps[1..], last, later, droppable, u[k..], Match(ps[0], left).rest, pos, opts);
    }
  }

  /** What docopt asks of a match: success, and nothing left over. */
  ghost predicate Accepts(p: Pattern<Id>, left: seq<Item>)
    requires Unary(p)
  {
    Match(p, left).ok && Match(p, left).rest == []
  }

  /** Some use of the program has exactly these elements, its positionals in this order. */
  ghost predicate Derivable(p: Pattern<Id>, left: seq<Item>) {
    exists w :: Lang(p, w) && Took(left, w, [])
  }

  /** On tame patterns greedy matching is exact: a command line is accepted if and
      only if it is derivable. */
  lemma AcceptsIff(p: Pattern<Id>, left: seq<Item>)
    requires Matchable(p) && Tame(p, true, {}) && ParsedArgv(left)
    ensures Accepts(p, left) <==> Derivable(p, left)
  {
    if Accepts(p, left) { MatchSound(p, left); }
    if Derivable(p, left) {
      var w :| Lang(p, w) && Took(left, w, []);
      WordNeeds(p, w, left, []);
      assert Pos(w) + [] == Pos(w) && Opts(w) + multiset{} == Opts(w);
      Takes(p, true, {}, w, left, [], multiset{});
      Lengths(Match(p, left).rest);
    }
  }
}
