// What the leaves of a parsed pattern hold: equal leaves hold equal values, of the
// type of their class.
module DocoptLeaves {
  import opened Basics
  import opened DocoptPattern
  import opened DocoptParser

  /** Flags start as False; options with an argument with their default text, or None. */
  predicate Initial(l: LeafSpec) {
    match l.id
    case Arg(_) => l.value == Null
    case Cmd(_) => l.value == Flag(false)
    case Opt(_, _, n) => if n == 0 then l.value == Flag(false) else l.value.Null? || l.value.Str?
  }

  /** The options that a documentation lists. */
  ghost predicate Documented(options: seq<LeafSpec>) {
    IsOptions(options) && forall o <- options :: Initial(o)
  }

  /** The option is listed, and nothing else has its names. */
  ghost predicate Sole(o: LeafSpec, options: seq<LeafSpec>) {
    o in options && forall e <- options :: e.id == o.id ==> e == o
  }

  /** A leaf of a pattern: its value is fixed by its names. */
  ghost predicate Proper(l: LeafSpec, options: seq<LeafSpec>) {
    Initial(l) && (l.id.Opt? ==> Sole(l, options))
  }

  ghost predicate AllProper(ps: seq<Tree>, options: seq<LeafSpec>) {
    forall l <- FlatAll(ps) :: Proper(l, options)
  }

  /** A longer list of options: what was sole stays so. */
  ghost predicate Extends(options: seq<LeafSpec>, more: seq<LeafSpec>) {
    Documented(more) && forall o :: Sole(o, options) ==> Sole(o, more)
  }

  /** What a part of the parser gives: proper leaves, and an extended list. */
  ghost predicate Gives(options: seq<LeafSpec>, r: Parsed) {
    r.Ok? ==> Extends(options, r.options) && AllProper(r.patterns, r.options)
  }

  /** An option found under a name that only it has. */
  lemma FoundSole(options: seq<LeafSpec>, long: bool, name: string)
    requires Documented(options) && |Similar(options, long, name)| == 1
    ensures var o := Similar(options, long, name)[0]; Sole(o, options) && o == NewOption(o.id.short, o.id.long, o.id.argcount, o.value)
    ensures !long ==> Similar(options, long, name)[0].id.short == Just(name)
  {
    var similar := Similar(options, long, name);
    var o := similar[0];
    SimilarHas(options, long, name, o);
    forall e <- options | e.id == o.id ensures e == o {
      SimilarHas(options, long, name, e);
      var i :| 0 <= i < |similar| && similar[i] == e;
    }
  }

  /** An option added under a name that no other has. */
  lemma AddedSole(options: seq<LeafSpec>, long: bool, name: string, o: LeafSpec)
    requires Documented(options) && Similar(options, long, name) == []
    requires o.id.Opt? && Initial(o) && (if long then o.id.long else o.id.short) == Just(name)
    ensures Extends(options, options + [o]) && Sole(o, options + [o])
  {
    forall e <- options ensures e.id != o.id { SimilarHas(options, long, name, e); }
  }

  lemma ExtendsTwice(a: seq<LeafSpec>, b: seq<LeafSpec>, c: seq<LeafSpec>)
    requires Extends(a, b) && Extends(b, c)
    ensures Extends(a, c)
  {}

  /** Parts in turn: what came first stays proper. */
  lemma GivesThen(options: seq<LeafSpec>, front: seq<Tree>, middle: seq<LeafSpec>, r: Parsed)
    requires Extends(options, middle) && AllProper(front, middle) && Gives(middle, r)
    ensures Gives(options, Prepend(front, r))
  {
    if r.Ok? {
      FlatAllAppend(front, r.patterns);
      ExtendsTwice(options, middle, r.options);
    }
  }

  lemma ProperTip(l: LeafSpec, options: seq<LeafSpec>)
    requires Proper(l, options)
    ensures AllProper([Tip(l)], options)
  {
    FlatOne(Tip(l));
  }

  lemma FlatOne(p: Tree)
    ensures FlatAll([p]) == Flat(p)
  {
    assert [p][1..] == [];
  }

  lemma ProperBranch(kind: Kind, ps: seq<Tree>, options: seq<LeafSpec>)
    requires AllProper(ps, options)
    ensures AllProper([Branch(kind, ps)], options)
  {
    FlatOne(Branch(kind, ps));
  }

  lemma {:induction false} BundleGives(left: string, rest: seq<string>, options: seq<LeafSpec>)
    requires Documented(options)
    ensures Gives(options, ParseBundle(left, rest, options))
    decreases |left|
  {
    if left != "" {
      var short := ['-', left[0]];
      var similar := Similar(options, false, short);
      if similar == [] {
        var o := NewOption(Just(short), Nothing, 0, Flag(false));
        AddedSole(options, false, short, o);
        ProperTip(o, options + [o]);
        BundleGives(left[1..], rest, options + [o]);
        GivesThen(options, [Tip(o)], options + [o], ParseBundle(left[1..], rest, options + [o]));
      } else if |similar| == 1 {
        var o := similar[0];
        FoundSole(options, false, short);
        ProperTip(o, options);
        BundleGives(left[1..], rest, options);
        GivesThen(options, [Tip(o)], options, ParseBundle(left[1..], rest, options));
      }
    }
  }

  lemma LongGives(toks: seq<string>, options: seq<LeafSpec>)
    requires toks != [] && Documented(options)
    ensures Gives(options, ParseLong(toks, options))
  {
    var long := toks[0][..EqualsAt(toks[0])];
    var similar := Similar(options, true, long);
    if similar == [] {
      var o := NewOption(Nothing, Just(long), if EqualsAt(toks[0]) < |toks[0]| then 1 else 0, Flag(false));
      AddedSole(options, true, long, o);
      ProperTip(o, options + [o]);
    } else if |similar| == 1 {
      FoundSole(options, true, long);
      ProperTip(similar[0], options);
    }
  }

  lemma {:induction false} AtomGives(toks: seq<string>, options: seq<LeafSpec>)
    requires toks != [] && Documented(options)
    ensures Gives(options, ParseAtom(toks, options))
    decreases |toks|, 0
  {
    var token := toks[0];
    if token == "(" || token == "[" {
      ExprGives(toks[1..], options);
      var r := ParseExpr(toks[1..], options);
      if r.Ok? { ProperBranch(if token == "(" then Required else Optional, r.patterns, r.options); }
    } else if token == "options" {
      ProperBranch(OptionsShortcut, [], options);
    } else if StartsWith(token, "--") && token != "--" {
      LongGives(toks, options);
    } else if StartsWith(token, "-") && token != "-" && token != "--" {
      BundleGives(StripDashes(token), toks[1..], options);
    } else {
      ProperTip(LeafSpec(Arg(Just(token)), Null), options);
      ProperTip(LeafSpec(Cmd(token), Flag(false)), options);
    }
  }

  lemma {:induction false} SeqGives(toks: seq<string>, options: seq<LeafSpec>)
    requires Documented(options)
    ensures Gives(options, ParseSeq(toks, options))
    decreases |toks|, 1
  {
    if !Stops(toks) {
      AtomGives(toks, options);
      var a := ParseAtom(toks, options);
      if a.Ok? {
        var repeated := Next(a.rest, "...");
        var tail := if repeated then a.rest[1..] else a.rest;
        SeqGives(tail, a.options);
        ProperBranch(OneOrMore, a.patterns, a.options);
        GivesThen(options, if repeated then [Branch(OneOrMore, a.patterns)] else a.patterns, a.options, ParseSeq(tail, a.options));
      }
    }
  }

  lemma ProperGrouped(ps: seq<Tree>, options: seq<LeafSpec>)
    requires AllProper(ps, options)
    ensures AllProper(Grouped(ps), options)
  {
    ProperBranch(Required, ps, options);
  }

  lemma {:induction false} AlternativesGive(toks: seq<string>, options: seq<LeafSpec>)
    requires Documented(options)
    ensures Gives(options, ParseAlternatives(toks, options))
    decreases |toks|, 2
  {
    if Next(toks, "|") {
      SeqGives(toks[1..], options);
      var s := ParseSeq(toks[1..], options);
      if s.Ok? {
        AlternativesGive(s.rest, s.options);
        ProperGrouped(s.patterns, s.options);
        GivesThen(options, Grouped(s.patterns), s.options, ParseAlternatives(s.rest, s.options));
      }
    }
  }

  lemma {:induction false} ExprGives(toks: seq<string>, options: seq<LeafSpec>)
    requires Documented(options)
    ensures Gives(options, ParseExpr(toks, options))
    decreases |toks|, 3
  {
    SeqGives(toks, options);
    var s := ParseSeq(toks, options);
    if s.Ok? && Next(s.rest, "|") {
      AlternativesGive(s.rest, s.options);
      ProperGrouped(s.patterns, s.options);
      var more := Prepend(Grouped(s.patterns), ParseAlternatives(s.rest, s.options));
      GivesThen(options, Grouped(s.patterns), s.options, ParseAlternatives(s.rest, s.options));
      if more.Ok? { ProperBranch(Either, more.patterns, more.options); }
    }
  }

  /** Whatever the tokens, in a parsed pattern leaves of one class and names hold one
      value, flags and commands a boolean and the others a text or nothing. */
  lemma {:induction false} ParsedLeaves(toks: seq<string>, options: seq<LeafSpec>)
    requires Documented(options) && ParsePattern(toks, options).Ok?
    ensures var leaves := Flat(ParsePattern(toks, options).patterns[0]);
            && (forall l <- leaves :: Initial(l))
            && forall l <- leaves, m <- leaves :: l.id == m.id ==> l == m
  {
    ExprGives(toks, options);
    var e := ParseExpr(toks, options);
    assert Flat(ParsePattern(toks, options).patterns[0]) == FlatAll(e.patterns);
    forall l <- FlatAll(e.patterns), m <- FlatAll(e.patterns) | l.id == m.id ensures l == m {
      assert Proper(l, e.options) && Proper(m, e.options);
    }
  }
}
