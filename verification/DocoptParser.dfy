// The recursive-descent parser for usage patterns, over token lists.
module DocoptParser {
  import opened Basics
  import opened DocoptPattern
  import M = DocoptMatch

  datatype LeafSpec = LeafSpec(id: Id, value: Value)

  type Tree = Pattern<LeafSpec>

  datatype Error = UnexpectedEnding | Unmatched | BadBracket | NotUnique | NoArgument | RequiresArgument | Ambiguous

  /** A parse of a prefix of the tokens; the list of known options may have grown. */
  datatype Parsed = Ok(patterns: seq<Tree>, rest: seq<string>, options: seq<LeafSpec>) | Fail(error: Error)

  // ----- strings

  predicate StartsWith(s: string, prefix: string) {
    prefix <= s
  }

  predicate EndsWith(s: string, c: char) {
    s != "" && s[|s| - 1] == c
  }

  /** isupper() on ASCII: some letter, and no lower-case one. */
  predicate IsUpper(s: string) {
    (exists c <- s :: 'A' <= c <= 'Z') && forall c <- s :: !('a' <= c <= 'z')
  }

  /** Position of the first '=', or the length. */
  function EqualsAt(s: string): (i: nat)
    ensures i <= |s| && (forall j :: 0 <= j < i ==> s[j] != '=') && (i < |s| ==> s[i] == '=')
  {
    if s == "" || s[0] == '=' then 0 else 1 + EqualsAt(s[1..])
  }

  // ----- options

  function NewOption(short: Maybe<string>, long: Maybe<string>, argcount: nat, value: Value): LeafSpec {
    LeafSpec(Opt(short, long, argcount), if value == Flag(false) && argcount != 0 then Null else value)
  }

  predicate IsOptions(options: seq<LeafSpec>) {
    forall i :: 0 <= i < |options| ==> options[i].id.Opt?
  }

  /** The options of that long, or short, name. */
  function Similar(options: seq<LeafSpec>, long: bool, name: string): (r: seq<LeafSpec>)
    requires IsOptions(options)
    ensures IsOptions(r)
    ensures long ==> forall o <- r :: o.id.long == Just(name)
  {
    if options == [] then []
    else
      var own := if long then options[0].id.long else options[0].id.short;
      (if own == Just(name) then [options[0]] else []) + Similar(options[1..], long, name)
  }

  lemma {:induction false} SimilarHas(options: seq<LeafSpec>, long: bool, name: string, e: LeafSpec)
    requires IsOptions(options)
    ensures e in Similar(options, long, name) <==> e in options && (if long then e.id.long else e.id.short) == Just(name)
  {
    if options != [] { SimilarHas(options[1..], long, name, e); }
  }

  predicate NeedsToken(rest: seq<string>) {
    rest == [] || rest[0] == "--"
  }

  /** parse_long on a usage pattern. */
  function ParseLong(toks: seq<string>, options: seq<LeafSpec>): (r: Parsed)
    requires toks != [] && IsOptions(options)
    ensures r.Ok? ==> |r.rest| < |toks| && IsOptions(r.options)
  {
    var token, rest := toks[0], toks[1..];
    var i := EqualsAt(token);
    var long, hasValue := token[..i], i < |token|;
    var similar := Similar(options, true, long);
    if |similar| > 1 then Fail(NotUnique)
    else if similar == [] then
      var o := NewOption(Nothing, Just(long), if hasValue then 1 else 0, Flag(false));
      Ok([Tip(o)], rest, options + [o])
    else
      var o := NewOption(similar[0].id.short, similar[0].id.long, similar[0].id.argcount, similar[0].value);
      if o.id.argcount == 0 then
        if hasValue then Fail(NoArgument) else Ok([Tip(o)], rest, options)
      else if hasValue then Ok([Tip(o)], rest, options)
      else if NeedsToken(rest) then Fail(RequiresArgument)
      else Ok([Tip(o)], rest[1..], options)
  }

  /** The letters of a bundle of short options, after the dash. */
  function ParseBundle(left: string, rest: seq<string>, options: seq<LeafSpec>): (r: Parsed)
    requires IsOptions(options)
    ensures r.Ok? ==> |r.rest| <= |rest| && IsOptions(r.options)
    decreases |left|
  {
    if left == "" then Ok([], rest, options)
    else
      var short := ['-', left[0]];
      var similar := Similar(options, false, short);
      if |similar| > 1 then Fail(Ambiguous)
      else if similar == [] then
        var o := NewOption(Just(short), Nothing, 0, Flag(false));
        Prepend([Tip(o)], ParseBundle(left[1..], rest, options + [o]))
      else
        var o := NewOption(Just(short), similar[0].id.long, similar[0].id.argcount, similar[0].value);
        if o.id.argcount == 0 then Prepend([Tip(o)], ParseBundle(left[1..], rest, options))
        else if left[1..] != "" then Ok([Tip(o)], rest, options)
        else if NeedsToken(rest) then Fail(RequiresArgument)
        else Ok([Tip(o)], rest[1..], options)
  }

  function Prepend(front: seq<Tree>, r: Parsed): Parsed {
    if r.Fail? then r else r.(patterns := front + r.patterns)
  }

  function StripDashes(token: string): string {
    if token != "" && token[0] == '-' then StripDashes(token[1..]) else token
  }

  /** parse_shorts on a usage pattern. */
  function ParseShorts(toks: seq<string>, options: seq<LeafSpec>): (r: Parsed)
    requires toks != [] && IsOptions(options)
    ensures r.Ok? ==> |r.rest| < |toks| && IsOptions(r.options)
  {
    ParseBundle(StripDashes(toks[0]), toks[1..], options)
  }

  // ----- the grammar

  predicate Stops(toks: seq<string>) {
    toks == [] || toks[0] == "]" || toks[0] == ")" || toks[0] == "|"
  }

  predicate Next(toks: seq<string>, token: string) {
    toks != [] && toks[0] == token
  }

  predicate LooksArgument(token: string) {
    (StartsWith(token, "<") && EndsWith(token, '>')) || IsUpper(token)
  }

  /** atom: a group, an optional group, the options marker, an option, an argument or a command. */
  function ParseAtom(toks: seq<string>, options: seq<LeafSpec>): (r: Parsed)
    requires toks != [] && IsOptions(options)
    ensures r.Ok? ==> |r.rest| < |toks| && IsOptions(r.options)
    decreases |toks|, 0
  {
    var token := toks[0];
    if token == "(" || token == "[" then
      var r := ParseExpr(toks[1..], options);
      if r.Fail? then r
      else if !Next(r.rest, if token == "(" then ")" else "]") then Fail(Unmatched)
      else Ok([Branch(if token == "(" then Required else Optional, r.patterns)], r.rest[1..], r.options)
    else if token == "" || token == "([" then Fail(BadBracket)
    else if token == "options" then Ok([Branch(OptionsShortcut, [])], toks[1..], options)
    else if StartsWith(token, "--") && token != "--" then ParseLong(toks, options)
    else if StartsWith(token, "-") && token != "-" && token != "--" then ParseShorts(toks, options)
    else if LooksArgument(token) then Ok([Tip(LeafSpec(Arg(Just(token)), Null))], toks[1..], options)
    else Ok([Tip(LeafSpec(Cmd(token), Flag(false)))], toks[1..], options)
  }

  /** seq: atoms, each of which may be followed by '...'. */
  function ParseSeq(toks: seq<string>, options: seq<LeafSpec>): (r: Parsed)
    requires IsOptions(options)
    ensures r.Ok? ==> |r.rest| <= |toks| && IsOptions(r.options) && Stops(r.rest)
    decreases |toks|, 1
  {
    if Stops(toks) then Ok([], toks, options)
    else
      var a := ParseAtom(toks, options);
      if a.Fail? then a
      else if Next(a.rest, "...") then
        Prepend([Branch(OneOrMore, a.patterns)], ParseSeq(a.rest[1..], a.options))
      else
        Prepend(a.patterns, ParseSeq(a.rest, a.options))
  }

  /** A branch of an alternative: several atoms become one group. */
  function Grouped(ps: seq<Tree>): seq<Tree> {
    if |ps| > 1 then [Branch(Required, ps)] else ps
  }

  /** The branches after the first: ( '|' seq )*. */
  function ParseAlternatives(toks: seq<string>, options: seq<LeafSpec>): (r: Parsed)
    requires IsOptions(options)
    ensures r.Ok? ==> |r.rest| <= |toks| && IsOptions(r.options)
    decreases |toks|, 2
  {
    if !Next(toks, "|") then Ok([], toks, options)
    else
      var s := ParseSeq(toks[1..], options);
      if s.Fail? then s
      else Prepend(Grouped(s.patterns), ParseAlternatives(s.rest, s.options))
  }

  /** expr: one seq, or an Either of the non-empty branches. */
  function ParseExpr(toks: seq<string>, options: seq<LeafSpec>): (r: Parsed)
    requires IsOptions(options)
    ensures r.Ok? ==> |r.rest| <= |toks| && IsOptions(r.options)
    decreases |toks|, 3
  {
    var s := ParseSeq(toks, options);
    if s.Fail? || !Next(s.rest, "|") then s
    else
      var more := Prepend(Grouped(s.patterns), ParseAlternatives(s.rest, s.options));
      if more.Fail? || |more.patterns| <= 1 then more
      else more.(patterns := [Branch(Either, more.patterns)])
  }

  /** The whole usage pattern: nothing may be left over. */
  function ParsePattern(toks: seq<string>, options: seq<LeafSpec>): Parsed
    requires IsOptions(options)
  {
    var r := ParseExpr(toks, options);
    if r.Fail? then r
    else if r.rest != [] then Fail(UnexpectedEnding)
    else r.(patterns := [Branch(Required, r.patterns)])
  }

  // ----- what the parser never builds

  /** Every option has a name. */
  ghost predicate Nameable(p: Tree)
    decreases p
  {
    match p
    case Tip(leaf) => leaf.id.Opt? ==> Name(leaf.id).Just?
    case Branch(_, cs) => forall c <- cs :: Nameable(c)
  }

  ghost predicate Sound(ps: seq<Tree>) {
    forall p <- ps :: Inhabited(p) && Nameable(p)
  }

  lemma SoundPrepend(front: seq<Tree>, r: Parsed)
    requires Sound(front) && (r.Ok? ==> Sound(r.patterns))
    ensures Prepend(front, r).Ok? ==> Sound(Prepend(front, r).patterns)
  {}

  lemma {:induction false} BundleSound(left: string, rest: seq<string>, options: seq<LeafSpec>)
    requires IsOptions(options)
    ensures var r := ParseBundle(left, rest, options); r.Ok? ==> Sound(r.patterns) && (left != "" ==> r.patterns != [])
    decreases |left|
  {
    if left != "" {
      var short := ['-', left[0]];
      var similar := Similar(options, false, short);
      if similar == [] {
        BundleSound(left[1..], rest, options + [NewOption(Just(short), Nothing, 0, Flag(false))]);
      } else {
        BundleSound(left[1..], rest, options);
      }
    }
  }

  lemma LongSound(toks: seq<string>, options: seq<LeafSpec>)
    requires toks != [] && IsOptions(options) && StartsWith(toks[0], "--")
    ensures var r := ParseLong(toks, options); r.Ok? ==> |r.patterns| == 1 && Sound(r.patterns)
  {
    var long := toks[0][..EqualsAt(toks[0])];
    assert toks[0][0] == "--"[0];
  }

  lemma {:induction false} AtomSound(toks: seq<string>, options: seq<LeafSpec>)
    requires toks != [] && IsOptions(options)
    ensures var r := ParseAtom(toks, options); r.Ok? ==> Sound(r.patterns) && r.patterns != []
    decreases |toks|, 0
  {
    if toks[0] == "(" || toks[0] == "[" { ExprSound(toks[1..], options); }
    if StartsWith(toks[0], "--") { LongSound(toks, options); }
    if StartsWith(toks[0], "-") && !StartsWith(toks[0], "--") && toks[0] != "-" { Stripped(toks[0]); }
    BundleSound(StripDashes(toks[0]), toks[1..], options);
  }

  lemma Stripped(token: string)
    requires StartsWith(token, "-") && !StartsWith(token, "--") && token != "-"
    ensures StripDashes(token) != ""
  {}

  lemma {:induction false} SeqSound(toks: seq<string>, options: seq<LeafSpec>)
    requires IsOptions(options)
    ensures var r := ParseSeq(toks, options); r.Ok? ==> Sound(r.patterns)
    decreases |toks|, 1
  {
    if !Stops(toks) {
      AtomSound(toks, options);
      var a := ParseAtom(toks, options);
      if a.Ok? {
        var repeated := Next(a.rest, "...");
        var tail := if repeated then a.rest[1..] else a.rest;
        SeqSound(tail, a.options);
        SoundPrepend(if repeated then [Branch(OneOrMore, a.patterns)] else a.patterns, ParseSeq(tail, a.options));
      }
    }
  }

  lemma {:induction false} AlternativesSound(toks: seq<string>, options: seq<LeafSpec>)
    requires IsOptions(options)
    ensures var r := ParseAlternatives(toks, options); r.Ok? ==> Sound(r.patterns)
    decreases |toks|, 2
  {
    if Next(toks, "|") {
      SeqSound(toks[1..], options);
      var s := ParseSeq(toks[1..], options);
      if s.Ok? {
        AlternativesSound(s.rest, s.options);
        SoundPrepend(Grouped(s.patterns), ParseAlternatives(s.rest, s.options));
      }
    }
  }

  lemma {:induction false} ExprSound(toks: seq<string>, options: seq<LeafSpec>)
    requires IsOptions(options)
    ensures var r := ParseExpr(toks, options); r.Ok? ==> Sound(r.patterns)
    decreases |toks|, 3
  {
    SeqSound(toks, options);
    var s := ParseSeq(toks, options);
    if s.Ok? && Next(s.rest, "|") {
      AlternativesSound(s.rest, s.options);
      SoundPrepend(Grouped(s.patterns), ParseAlternatives(s.rest, s.options));
    }
  }

  // ----- when the matcher's assertion on repetitions holds

  ghost predicate AllUnary(ps: seq<Tree>) {
    forall p <- ps :: Unary(p)
  }

  /** Some bundle that stands for several options is directly followed by the
      repetition mark; found in one pass over the tokens, without a grammar. */
  ghost predicate RepeatsBundle(toks: seq<string>, options: seq<LeafSpec>)
    requires IsOptions(options)
    decreases |toks|
  {
    if toks == [] then false
    else
      var token := toks[0];
      if StartsWith(token, "--") && token != "--" then
        var r := ParseLong(toks, options);
        r.Ok? && RepeatsBundle(r.rest, r.options)
      else if StartsWith(token, "-") && token != "-" && token != "--" then
        var r := ParseShorts(toks, options);
        r.Ok? && ((|r.patterns| > 1 && Next(r.rest, "...")) || RepeatsBundle(r.rest, r.options))
      else RepeatsBundle(toks[1..], options)
  }

  /** What is wrong in a parsed part, or in the tokens after it. */
  ghost predicate Refused(r: Parsed)
    requires r.Ok? && IsOptions(r.options)
  {
    !AllUnary(r.patterns) || RepeatsBundle(r.rest, r.options)
  }

  lemma BranchUnary(kind: Kind, ps: seq<Tree>)
    ensures AllUnary([Branch(kind, ps)]) <==> AllUnary(ps) && (kind == OneOrMore ==> |ps| == 1)
  {
    var p := Branch(kind, ps);
    assert [p][0] in [p];
  }

  lemma {:induction false} AtomUnary(toks: seq<string>, options: seq<LeafSpec>)
    requires toks != [] && IsOptions(options)
    ensures var r := ParseAtom(toks, options);
            r.Ok? ==> (RepeatsBundle(toks, options) <==> Refused(r) || (|r.patterns| > 1 && Next(r.rest, "...")))
    decreases |toks|, 0
  {
    if toks[0] == "(" || toks[0] == "[" {
      ExprUnary(toks[1..], options);
      var e := ParseExpr(toks[1..], options);
      if e.Ok? { BranchUnary(if toks[0] == "(" then Required else Optional, e.patterns); }
    } else if StartsWith(toks[0], "--") && toks[0] != "--" {
      LongSound(toks, options);
    } else {
      BundleUnary(StripDashes(toks[0]), toks[1..], options);
    }
  }

  lemma {:induction false} BundleUnary(left: string, rest: seq<string>, options: seq<LeafSpec>)
    requires IsOptions(options)
    ensures var r := ParseBundle(left, rest, options); r.Ok? ==> AllUnary(r.patterns)
    decreases |left|
  {
    if left != "" {
      var short := ['-', left[0]];
      if Similar(options, false, short) == [] {
        BundleUnary(left[1..], rest, options + [NewOption(Just(short), Nothing, 0, Flag(false))]);
      } else {
        BundleUnary(left[1..], rest, options);
      }
    }
  }

  lemma {:induction false} SeqUnary(toks: seq<string>, options: seq<LeafSpec>)
    requires IsOptions(options)
    ensures var r := ParseSeq(toks, options); r.Ok? ==> (RepeatsBundle(toks, options) <==> Refused(r))
    decreases |toks|, 1
  {
    if !Stops(toks) {
      AtomUnary(toks, options);
      AtomSound(toks, options);
      var a := ParseAtom(toks, options);
      if a.Ok? {
        var repeated := Next(a.rest, "...");
        var tail := if repeated then a.rest[1..] else a.rest;
        var found := if repeated then [Branch(OneOrMore, a.patterns)] else a.patterns;
        SeqUnary(tail, a.options);
        UnaryPrepend(found, ParseSeq(tail, a.options));
        BranchUnary(OneOrMore, a.patterns);
      }
    }
  }

  lemma UnaryPrepend(front: seq<Tree>, r: Parsed)
    ensures r.Ok? ==> (AllUnary(Prepend(front, r).patterns) <==> AllUnary(front) && AllUnary(r.patterns))
  {}

  lemma {:induction false} AlternativesUnary(toks: seq<string>, options: seq<LeafSpec>)
    requires IsOptions(options)
    ensures var r := ParseAlternatives(toks, options); r.Ok? ==> (RepeatsBundle(toks, options) <==> Refused(r))
    decreases |toks|, 2
  {
    if Next(toks, "|") {
      SeqUnary(toks[1..], options);
      var s := ParseSeq(toks[1..], options);
      if s.Ok? {
        AlternativesUnary(s.rest, s.options);
        GroupedUnary(s.patterns);
        UnaryPrepend(Grouped(s.patterns), ParseAlternatives(s.rest, s.options));
      }
    }
  }

  lemma GroupedUnary(ps: seq<Tree>)
    ensures AllUnary(Grouped(ps)) <==> AllUnary(ps)
  {
    if |ps| > 1 { assert Grouped(ps)[0] in Grouped(ps); }
  }

  lemma {:induction false} ExprUnary(toks: seq<string>, options: seq<LeafSpec>)
    requires IsOptions(options)
    ensures var r := ParseExpr(toks, options); r.Ok? ==> (RepeatsBundle(toks, options) <==> Refused(r))
    decreases |toks|, 3
  {
    SeqUnary(toks, options);
    var s := ParseSeq(toks, options);
    if s.Ok? && Next(s.rest, "|") {
      AlternativesUnary(s.rest, s.options);
      GroupedUnary(s.patterns);
      var more := Prepend(Grouped(s.patterns), ParseAlternatives(s.rest, s.options));
      UnaryPrepend(Grouped(s.patterns), ParseAlternatives(s.rest, s.options));
      if more.Ok? && |more.patterns| > 1 {
        var r := ParseExpr(toks, options);
        assert r.patterns[0] in r.patterns;
      }
    }
  }

  lemma {:induction false} NamedIds<L>(f: L -> Id, p: Pattern<L>)
    requires forall l <- Flat(p) :: f(l).Opt? ==> Name(f(l)).Just?
    ensures M.Named(MapTree(f, p))
    decreases p, 1
  {
    match p
    case Tip(_) =>
    case Branch(_, cs) =>
      forall i | 0 <= i < |cs| ensures M.Named(MapAll(f, cs)[i]) {
        MapAllAt(f, cs, i);
        FlatChild(cs, i);
        NamedIds(f, cs[i]);
      }
  }

  lemma {:induction false} UnaryIds<L>(f: L -> Id, p: Pattern<L>)
    ensures Unary(MapTree(f, p)) <==> Unary(p)
    decreases p, 1
  {
    match p
    case Tip(_) =>
    case Branch(_, cs) =>
      forall i | 0 <= i < |cs| ensures MapAll(f, cs)[i] == MapTree(f, cs[i]) && (Unary(MapAll(f, cs)[i]) <==> Unary(cs[i])) {
        MapAllAt(f, cs, i);
        UnaryIds(f, cs[i]);
      }
      var ms := MapAll(f, cs);
      if forall c <- cs :: Unary(c) { forall m <- ms ensures Unary(m) { var i :| 0 <= i < |ms| && ms[i] == m; } }
      if forall m <- ms :: Unary(m) { forall c <- cs ensures Unary(c) { var i :| 0 <= i < |cs| && cs[i] == c; assert ms[i] in ms; } }
  }

  lemma {:induction false} InhabitedIds<L>(f: L -> Id, p: Pattern<L>)
    requires Inhabited(p)
    ensures Inhabited(MapTree(f, p))
    decreases p, 1
  {
    match p
    case Tip(_) =>
    case Branch(_, cs) =>
      forall i | 0 <= i < |cs| ensures Inhabited(MapAll(f, cs)[i]) {
        MapAllAt(f, cs, i);
        InhabitedIds(f, cs[i]);
      }
  }

  lemma {:induction false} NameableLeaves(p: Tree)
    requires Nameable(p)
    ensures forall l <- Flat(p) :: l.id.Opt? ==> Name(l.id).Just?
    decreases p, 1
  {
    match p
    case Tip(_) =>
    case Branch(_, cs) => NameableAll(cs);
  }

  lemma {:induction false} NameableAll(ps: seq<Tree>)
    requires forall p <- ps :: Nameable(p)
    ensures forall l <- FlatAll(ps) :: l.id.Opt? ==> Name(l.id).Just?
    decreases ps, 0
  {
    if ps != [] {
      NameableLeaves(ps[0]);
      NameableAll(ps[1..]);
    }
  }

  function SpecId(l: LeafSpec): Id {
    l.id
  }

  /** Whatever the tokens, every repetition of a parsed pattern has one child exactly
      when no bundle of several options is repeated; no Either is without branches. */
  lemma ParsedRuns(toks: seq<string>, options: seq<LeafSpec>)
    requires IsOptions(options) && ParsePattern(toks, options).Ok?
    ensures var r := ParsePattern(toks, options);
            && |r.patterns| == 1
            && var ids := MapTree(SpecId, r.patterns[0]);
               Inhabited(ids) && M.Named(ids) && (Unary(ids) <==> !RepeatsBundle(toks, options))
  {
    ExprSound(toks, options);
    ExprUnary(toks, options);
    var p, e := ParsePattern(toks, options).patterns[0], ParseExpr(toks, options);
    assert Nameable(p) && Inhabited(p);
    NameableLeaves(p);
    NamedIds(SpecId, p);
    InhabitedIds(SpecId, p);
    UnaryIds(SpecId, p);
  }

  // ----- the parser as it runs, popping tokens and growing the list of options

  datatype Result = Done(patterns: seq<Tree>) | Raised(error: Error)

  class Parser {
    var tokens: seq<string>
    var options: seq<LeafSpec>

    constructor (tokens: seq<string>, options: seq<LeafSpec>)
      ensures this.tokens == tokens && this.options == options
    {
      this.tokens := tokens;
      this.options := options;
    }

    /** The run returned what the grammar says and stands where it says. */
    ghost predicate Agrees(spec: Parsed, r: Result)
      reads this
    {
      if spec.Fail? then r == Raised(spec.error)
      else r == Done(spec.patterns) && tokens == spec.rest && options == spec.options
    }

    method Move() returns (token: string)
      requires tokens != []
      modifies this`tokens
      ensures token == old(tokens)[0] && tokens == old(tokens)[1..]
    {
      token := tokens[0];
      tokens := tokens[1..];
    }

    method LongOption() returns (r: Result)
      requires tokens != [] && IsOptions(options)
      modifies this
      ensures Agrees(ParseLong(old(tokens), old(options)), r)
    {
      var token := Move();
      var i := EqualsAt(token);
      var long, hasValue := token[..i], i < |token|;
      var similar := Similar(options, true, long);
      if |similar| > 1 {
        return Raised(NotUnique);
      }
      if similar == [] {
        var added := NewOption(Nothing, Just(long), if hasValue then 1 else 0, Flag(false));
        options := options + [added];
        return Done([Tip(added)]);
      }
      var o := NewOption(similar[0].id.short, similar[0].id.long, similar[0].id.argcount, similar[0].value);
      if o.id.argcount == 0 {
        if hasValue { return Raised(NoArgument); }
      } else if !hasValue {
        if NeedsToken(tokens) { return Raised(RequiresArgument); }
        var _ := Move();
      }
      return Done([Tip(o)]);
    }

    method ShortOptions() returns (r: Result)
      requires tokens != [] && IsOptions(options)
      modifies this
      ensures Agrees(ParseShorts(old(tokens), old(options)), r)
    {
      var token := Move();
      var left := StripDashes(token);
      var parsed: seq<Tree> := [];
      ghost var spec := ParseBundle(left, tokens, options);
      while left != ""
        invariant IsOptions(options)
        invariant spec == Prepend(parsed, ParseBundle(left, tokens, options))
        decreases |left|
      {
        var short := ['-', left[0]];
        left := left[1..];
        var similar := Similar(options, false, short);
        if |similar| > 1 {
          return Raised(Ambiguous);
        }
        var o: LeafSpec;
        if similar == [] {
          o := NewOption(Just(short), Nothing, 0, Flag(false));
          options := options + [o];
        } else {
          o := NewOption(Just(short), similar[0].id.long, similar[0].id.argcount, similar[0].value);
          if o.id.argcount != 0 {
            if left == "" {
              if NeedsToken(tokens) { return Raised(RequiresArgument); }
              var _ := Move();
            } else {
              left := "";
            }
          }
        }
        PrependTwice(parsed, [Tip(o)], ParseBundle(left, tokens, options));
        parsed := parsed + [Tip(o)];
      }
      return Done(parsed);
    }

    method Atom() returns (r: Result)
      requires tokens != [] && IsOptions(options)
      modifies this
      ensures Agrees(ParseAtom(old(tokens), old(options)), r)
      decreases |tokens|, 0
    {
      var token := tokens[0];
      if token == "(" || token == "[" {
        var _ := Move();
        r := Expr();
        if r.Done? {
          if !Next(tokens, if token == "(" then ")" else "]") {
            return Raised(Unmatched);
          }
          var _ := Move();
          r := Done([Branch(if token == "(" then Required else Optional, r.patterns)]);
        }
      } else if token == "" || token == "([" {
        r := Raised(BadBracket);
      } else if token == "options" {
        var _ := Move();
        r := Done([Branch(OptionsShortcut, [])]);
      } else if StartsWith(token, "--") && token != "--" {
        r := LongOption();
      } else if StartsWith(token, "-") && token != "-" && token != "--" {
        r := ShortOptions();
      } else if LooksArgument(token) {
        var name := Move();
        r := Done([Tip(LeafSpec(Arg(Just(name)), Null))]);
      } else {
        var name := Move();
        r := Done([Tip(LeafSpec(Cmd(name), Flag(false)))]);
      }
    }

    method Seq() returns (r: Result)
      requires IsOptions(options)
      modifies this
      ensures Agrees(ParseSeq(old(tokens), old(options)), r)
      decreases |tokens|, 1
    {
      ghost var spec := ParseSeq(tokens, options);
      var result: seq<Tree> := [];
      while !Stops(tokens)
        invariant IsOptions(options) && |tokens| <= |old(tokens)|
        invariant spec == Prepend(result, ParseSeq(tokens, options))
        decreases |tokens|
      {
        ghost var a := ParseAtom(tokens, options);
        var atom := Atom();
        if atom.Raised? {
          return atom;
        }
        var found := atom.patterns;
        if Next(tokens, "...") {
          found := [Branch(OneOrMore, found)];
          var _ := Move();
        }
        PrependTwice(result, found, ParseSeq(tokens, options));
        result := result + found;
      }
      assert result + [] == result;
      return Done(result);
    }

    method Expr() returns (r: Result)
      requires IsOptions(options)
      modifies this
      ensures Agrees(ParseExpr(old(tokens), old(options)), r)
      decreases |tokens|, 3
    {
      r := Seq();
      if r.Raised? || !Next(tokens, "|") {
        return;
      }
      var result := Grouped(r.patterns);
      ghost var spec := Prepend(result, ParseAlternatives(tokens, options));
      while Next(tokens, "|")
        invariant IsOptions(options) && |tokens| <= |old(tokens)|
        invariant spec == Prepend(result, ParseAlternatives(tokens, options))
        decreases |tokens|
      {
        var _ := Move();
        r := Seq();
        if r.Raised? {
          return;
        }
        PrependTwice(result, Grouped(r.patterns), ParseAlternatives(tokens, options));
        result := result + Grouped(r.patterns);
      }
      assert result + [] == result;
      r := Done(if |result| > 1 then [Branch(Either, result)] else result);
    }

    /** parse_pattern: the result or the error is the grammar's, for every token list. */
    method Parse() returns (r: Result)
      requires IsOptions(options)
      modifies this
      ensures var spec := ParsePattern(old(tokens), old(options));
              if spec.Fail? then r == Raised(spec.error) else r == Done(spec.patterns) && options == spec.options
    {
      r := Expr();
      if r.Done? {
        if tokens != [] {
          return Raised(UnexpectedEnding);
        }
        r := Done([Branch(Required, r.patterns)]);
      }
    }
  }

  lemma PrependTwice(a: seq<Tree>, b: seq<Tree>, r: Parsed)
    ensures Prepend(a, Prepend(b, r)) == Prepend(a + b, r)
  {}
}
