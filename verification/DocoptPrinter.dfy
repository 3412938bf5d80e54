// Printing usage patterns in any of the spellings the parser knows, and what parsing
// makes of them.
module DocoptPrinter {
  import opened Basics
  import opened DocoptPattern
  import opened DocoptParser

  // ----- printing normal-form trees

  /** How an option is written: under which of its names, and its argument, if it has
      one, in the same token or in the next one. */
  datatype Spelling = Spelling(short: bool, joined: bool, argument: string)

  type Style = LeafSpec -> Spelling

  predicate ByShort(o: LeafSpec, s: Spelling)
    requires o.id.Opt?
  {
    o.id.long.Nothing? || (s.short && o.id.short.Just?)
  }

  /** What of its argument is in the option's own token. */
  function Attached(o: LeafSpec, s: Spelling): string {
    if o.id.Opt? && o.id.argcount != 0 && s.joined then s.argument else ""
  }

  function Following(o: LeafSpec, s: Spelling): seq<string> {
    if o.id.Opt? && o.id.argcount != 0 && !s.joined then [s.argument] else []
  }

  /** `-s`, `-sARG` or `-s ARG`; `--long`, `--long=ARG` or `--long ARG`. */
  function OptionTokens(o: LeafSpec, s: Spelling): seq<string>
    requires o.id.Opt?
  {
    if ByShort(o, s) then
      [(if o.id.short.Just? then o.id.short.value else "") + Attached(o, s)] + Following(o, s)
    else
      [o.id.long.value + (if o.id.argcount != 0 && s.joined then "=" + s.argument else "")] + Following(o, s)
  }

  /** The tokens of one atom. */
  function RenderAtom(p: Tree, style: Style): seq<string>
    decreases p, 1
  {
    match p
    case Tip(LeafSpec(Arg(Just(name)), _)) => [name]
    case Tip(LeafSpec(Cmd(name), _)) => [name]
    case Tip(o) => if o.id.Opt? then OptionTokens(o, style(o)) else []
    case Branch(Required, cs) => ["("] + RenderExpr(cs, style) + [")"]
    case Branch(Optional, cs) => ["["] + RenderExpr(cs, style) + ["]"]
    case Branch(OptionsShortcut, _) => ["options"]
    case Branch(OneOrMore, cs) => if cs == [] then [] else RenderAtom(cs[0], style) + ["..."]
    case Branch(Either, _) => []
  }

  function RenderSeq(ps: seq<Tree>, style: Style): seq<string>
    decreases ps, 0
  {
    if ps == [] then [] else RenderAtom(ps[0], style) + RenderSeq(ps[1..], style)
  }

  function RenderExpr(ps: seq<Tree>, style: Style): seq<string>
    decreases ps, 3
  {
    if IsEither(ps) && ps[0].children != [] then
      var bs := ps[0].children;
      RenderBranch(bs[0], style) + RenderAlternatives(bs[1..], style)
    else RenderSeq(ps, style)
  }

  function RenderAlternatives(bs: seq<Tree>, style: Style): seq<string>
    decreases bs, 3
  {
    if bs == [] then [] else ["|"] + RenderBranch(bs[0], style) + RenderAlternatives(bs[1..], style)
  }

  /** A branch of several atoms needs no brackets of its own. */
  function RenderBranch(b: Tree, style: Style): seq<string>
    decreases b, 2
  {
    if IsGroup(b) then RenderSeq(b.children, style) else RenderAtom(b, style)
  }

  predicate IsEither(ps: seq<Tree>) {
    |ps| == 1 && ps[0].Branch? && ps[0].kind == Either
  }

  predicate IsGroup(b: Tree) {
    b.Branch? && b.kind == Required && |b.children| > 1
  }

  /** A token that is neither punctuation, nor the options marker, nor an option. */
  predicate IsWord(token: string) {
    && token !in {"", "(", "[", "([", "]", ")", "|", "...", "options"}
    && (StartsWith(token, "-") ==> token == "-" || token == "--")
  }

  /** The options known under the long name of an option, or its short name if it has no other. */
  function KnownAs(o: LeafSpec, options: seq<LeafSpec>): seq<LeafSpec>
    requires IsOptions(options) && o.id.Opt?
  {
    if o.id.long.Just? then Similar(options, true, o.id.long.value)
    else if o.id.short.Just? then Similar(options, false, o.id.short.value)
    else []
  }

  ghost predicate LongName(name: string) {
    StartsWith(name, "--") && name != "--" && EqualsAt(name) == |name|
  }

  predicate ShortNamed(o: LeafSpec) {
    o.id.Opt? && o.id.short.Just? && |o.id.short.value| == 2 && o.id.short.value[0] == '-'
  }

  /** The parser knows the option under that name, and no other. */
  ghost predicate Known(o: LeafSpec, long: bool, name: string, options: seq<LeafSpec>)
    requires IsOptions(options)
  {
    o.id.Opt? && o == NewOption(o.id.short, o.id.long, o.id.argcount, o.value) && Similar(options, long, name) == [o]
  }

  /** Options in a bundle: each known under its letter, or new and a flag; only the
      last one has an argument. */
  ghost predicate Bundled(os: seq<LeafSpec>, s: Spelling, options: seq<LeafSpec>)
    requires IsOptions(options)
    decreases |os|
  {
    os != [] ==>
      var o := os[0];
      && ShortNamed(o)
      && (Known(o, false, o.id.short.value, options)
          || (Similar(options, false, o.id.short.value) == [] && o == NewOption(o.id.short, Nothing, 0, Flag(false))))
      && (o.id.argcount != 0 ==> |os| == 1 && if s.joined then s.argument != "" else s.argument != "--")
      && Bundled(os[1..], s, Learned([o], options))
  }

  /** The option is the only one known under the name it is printed with; or none is,
      and it says nothing about itself but how it is written. */
  ghost predicate Writable(o: LeafSpec, s: Spelling, options: seq<LeafSpec>)
    requires IsOptions(options)
  {
    && o.id.Opt?
    && if ByShort(o, s) then
         Bundled([o], s, options) && o.id.short.value[1] != '-'
       else
         var long := o.id.long.value;
         && LongName(long)
         && (Known(o, true, long, options)
             || (Similar(options, true, long) == [] && (o.id.argcount != 0 ==> s.joined)
                 && o == NewOption(Nothing, Just(long), if o.id.argcount == 0 then 0 else 1, Flag(false))))
         && (o.id.argcount != 0 && !s.joined ==> s.argument != "--")
  }

  /** The known options after some leaves were parsed: new ones were added in order of
      their first occurrence. */
  function Learned(leaves: seq<LeafSpec>, options: seq<LeafSpec>): (r: seq<LeafSpec>)
    requires IsOptions(options)
    ensures IsOptions(r) && options <= r
    decreases |leaves|
  {
    if leaves == [] then options
    else if leaves[0].id.Opt? && KnownAs(leaves[0], options) == [] then Learned(leaves[1..], options + [leaves[0]])
    else Learned(leaves[1..], options)
  }

  lemma {:induction false} LearnedAppend(a: seq<LeafSpec>, b: seq<LeafSpec>, options: seq<LeafSpec>)
    requires IsOptions(options)
    ensures Learned(a + b, options) == Learned(b, Learned(a, options))
    decreases |a|
  {
    if a == [] {
      assert a + b == b;
    } else {
      assert (a + b)[1..] == a[1..] + b;
      LearnedAppend(a[1..], b, if a[0].id.Opt? && KnownAs(a[0], options) == [] then options + [a[0]] else options);
    }
  }

  lemma FlatSingle(kind: Kind, p: Tree)
    ensures FlatAll([p]) == Flat(p) && Flat(Branch(kind, [p])) == Flat(p)
  {
    assert [p][1..] == [];
    assert Flat(p) + [] == Flat(p);
  }

  /** Where every option is known under its name, none is added. */
  lemma {:induction false} LearnedNothing(leaves: seq<LeafSpec>, options: seq<LeafSpec>)
    requires IsOptions(options) && forall l <- leaves :: l.id.Opt? ==> KnownAs(l, options) != []
    ensures Learned(leaves, options) == options
  {
    if leaves != [] {
      assert leaves[0] in leaves && forall l <- leaves[1..] :: l in leaves;
      LearnedNothing(leaves[1..], options);
    }
  }

  lemma LearnedOne(o: LeafSpec, options: seq<LeafSpec>)
    requires IsOptions(options)
    ensures Learned([o], options) == if o.id.Opt? && KnownAs(o, options) == [] then options + [o] else options
  {
    assert [o][1..] == [];
  }

  /** Normal form of an atom. */
  ghost predicate IsAtom(p: Tree, options: seq<LeafSpec>, style: Style)
    requires IsOptions(options)
    decreases p, 1
  {
    match p
    case Tip(LeafSpec(Arg(Just(name)), v)) => v == Null && IsWord(name) && LooksArgument(name)
    case Tip(LeafSpec(Cmd(name), v)) => v == Flag(false) && IsWord(name) && !LooksArgument(name)
    case Tip(o) => o.id.Opt? && Writable(o, style(o), options)
    case Branch(OptionsShortcut, cs) => cs == []
    case Branch(OneOrMore, cs) =>
      |cs| == 1 && IsAtom(cs[0], options, style) && !(cs[0].Branch? && cs[0].kind == OneOrMore)
    case Branch(Either, _) => false
    case Branch(_, cs) => IsExpr(cs, options, style)
  }

  /** Normal form of an expression: atoms, or one Either of at least two atoms. */
  ghost predicate IsExpr(ps: seq<Tree>, options: seq<LeafSpec>, style: Style)
    requires IsOptions(options)
    decreases ps, 1
  {
    if IsEither(ps) then
      |ps[0].children| > 1 && IsSeq(ps[0].children, options, style)
    else
      IsSeq(ps, options, style)
  }

  /** Atoms in turn, each of which may add options. */
  ghost predicate IsSeq(ps: seq<Tree>, options: seq<LeafSpec>, style: Style)
    requires IsOptions(options)
    decreases ps, 0
  {
    ps != [] ==> IsAtom(ps[0], options, style) && IsSeq(ps[1..], Learned(Flat(ps[0]), options), style)
  }

  // ----- parsing inverts printing

  /** Neither an atom nor a branch starts with the repetition mark. */
  lemma {:induction false} AtomStarts(p: Tree, options: seq<LeafSpec>, rest: seq<string>, style: Style)
    requires IsOptions(options) && IsAtom(p, options, style)
    ensures RenderAtom(p, style) != []
    ensures var toks := RenderAtom(p, style) + rest; !Stops(toks) && !Next(toks, "...")
    decreases p
  {
    match p
    case Tip(o) => if o.id.Opt? { OptionStarts(o, style(o), options); }
    case Branch(OneOrMore, cs) =>
      AtomStarts(cs[0], options, ["..."] + rest, style);
      assert RenderAtom(p, style) + rest == RenderAtom(cs[0], style) + (["..."] + rest);
    case Branch(_, cs) =>
  }

  lemma OptionStarts(o: LeafSpec, s: Spelling, options: seq<LeafSpec>)
    requires IsOptions(options) && o.id.Opt? && Writable(o, s, options)
    ensures var token := OptionTokens(o, s)[0];
            && |token| > 1 && token[0] == '-' && (StartsWith(token, "--") <==> !ByShort(o, s))
            && token !in {"--", "-", "([", "options", "...", "(", ")", "[", "]", "|", ""}
  {
    var token := OptionTokens(o, s)[0];
    if ByShort(o, s) {
      assert token[..2] == o.id.short.value;
    } else {
      assert token[..|o.id.long.value|] == o.id.long.value;
      assert token[2] == o.id.long.value[2];
    }
  }

  lemma {:induction false} EqualsAtPrefix(s: string, t: string)
    requires EqualsAt(s) == |s|
    ensures EqualsAt(s + "=" + t) == |s|
  {
    var u := s + "=" + t;
    if s != "" {
      assert u[0] == s[0] && u[1..] == s[1..] + "=" + t;
      EqualsAtPrefix(s[1..], t);
    }
  }

  /** An option that is known is not added again, whichever of its names is used. */
  lemma KnownStays(o: LeafSpec, long: bool, name: string, options: seq<LeafSpec>)
    requires IsOptions(options) && Known(o, long, name, options)
    requires (if long then o.id.long else o.id.short) == Just(name)
    ensures Learned([o], options) == options
  {
    assert o in Similar(options, long, name);
    SimilarHas(options, long, name, o);
    if o.id.long.Just? {
      SimilarHas(options, true, o.id.long.value, o);
    } else {
      SimilarHas(options, false, name, o);
    }
    LearnedOne(o, options);
  }

  function Tips(os: seq<LeafSpec>): seq<Tree> {
    if os == [] then [] else [Tip(os[0])] + Tips(os[1..])
  }

  function Letters(os: seq<LeafSpec>): string {
    if os == [] then ""
    else (if ShortNamed(os[0]) then [os[0].id.short.value[1]] else "") + Letters(os[1..])
  }

  /** A bundle after its dash: all letters, and the argument of the last one if joined. */
  function Left(os: seq<LeafSpec>, s: Spelling): string
    requires os != []
  {
    Letters(os) + Attached(os[|os| - 1], s)
  }

  function BundleTokens(os: seq<LeafSpec>, s: Spelling): seq<string>
    requires os != []
  {
    ["-" + Left(os, s)] + Following(os[|os| - 1], s)
  }

  lemma LeftFirst(os: seq<LeafSpec>, s: Spelling)
    requires os != [] && ShortNamed(os[0])
    ensures Left(os, s) == [os[0].id.short.value[1]] + if |os| == 1 then Attached(os[0], s) else Left(os[1..], s)
  {
    hide Attached;
    var c, attached := [os[0].id.short.value[1]], Attached(os[|os| - 1], s);
    Associative(c, Letters(os[1..]), attached);
    if |os| == 1 {
      assert Letters(os) == c + [];
      assert c + [] + attached == c + attached;
    } else {
      assert os[1..][|os[1..]| - 1] == os[|os| - 1];
    }
  }

  lemma BundledFirst(os: seq<LeafSpec>, s: Spelling, options: seq<LeafSpec>)
    requires IsOptions(options) && os != [] && Bundled(os, s, options)
    ensures ShortNamed(os[0]) && Bundled([os[0]], s, options) && Bundled(os[1..], s, Learned([os[0]], options))
    ensures |os| > 1 ==> os[0].id.argcount == 0
  {
    assert [os[0]][1..] == [];
  }

  /** The parser's step over one letter without an argument. */
  lemma LetterStep(o: LeafSpec, s: Spelling, left: string, rest: seq<string>, options: seq<LeafSpec>)
    requires IsOptions(options) && Bundled([o], s, options) && o.id.argcount == 0
    ensures ParseBundle([o.id.short.value[1]] + left, rest, options)
         == Prepend([Tip(o)], ParseBundle(left, rest, Learned([o], options)))
  {
    var short, all := o.id.short.value, [o.id.short.value[1]] + left;
    assert short == ['-', all[0]] && all[1..] == left;
    LearnedOne(o, options);
    if Similar(options, false, short) != [] { KnownStays(o, false, short, options); }
  }

  /** The parser's step over a letter with its argument. */
  lemma ArgumentStep(o: LeafSpec, s: Spelling, rest: seq<string>, options: seq<LeafSpec>)
    requires IsOptions(options) && Bundled([o], s, options) && o.id.argcount != 0
    ensures ParseBundle([o.id.short.value[1]] + Attached(o, s), Following(o, s) + rest, options) == Ok([Tip(o)], rest, options)
    ensures Learned([o], options) == options
  {
    var short, all := o.id.short.value, [o.id.short.value[1]] + Attached(o, s);
    assert short == ['-', all[0]] && all[1..] == Attached(o, s);
    KnownStays(o, false, short, options);
    assert s.joined ==> Following(o, s) + rest == rest;
    assert !s.joined ==> (Following(o, s) + rest)[1..] == rest;
  }

  lemma FollowingThen(o: LeafSpec, s: Spelling, rest: seq<string>)
    ensures var toks := Following(o, s) + rest;
            if o.id.Opt? && o.id.argcount != 0 && !s.joined then toks != [] && toks[0] == s.argument && toks[1..] == rest
            else toks == rest
  {}

  /** The last option of a bundle. */
  lemma BundleOne(os: seq<LeafSpec>, s: Spelling, rest: seq<string>, options: seq<LeafSpec>)
    requires IsOptions(options) && |os| == 1 && Bundled(os, s, options)
    ensures ParseBundle(Left(os, s), Following(os[0], s) + rest, options) == Ok(Tips(os), rest, Learned(os, options))
  {
    var o := os[0];
    LeftFirst(os, s);
    LearnedFirst(os, options);
    TipsFirst(os);
    FollowingThen(o, s, rest);
    if o.id.argcount != 0 {
      ArgumentStep(o, s, rest, options);
    } else {
      LetterStep(o, s, "", rest, options);
      EmptyBundle(rest, Learned(os, options));
    }
  }

  /** One more option in front. */
  lemma BundleMore(os: seq<LeafSpec>, s: Spelling, after: seq<string>, rest: seq<string>, options: seq<LeafSpec>)
    requires IsOptions(options) && |os| > 1 && Bundled(os, s, options)
    requires ParseBundle(Left(os[1..], s), after, Learned([os[0]], options)) == Ok(Tips(os[1..]), rest, Learned(os[1..], Learned([os[0]], options)))
    ensures ParseBundle(Left(os, s), after, options) == Ok(Tips(os), rest, Learned(os, options))
  {
    BundledFirst(os, s, options);
    LearnedFirst(os, options);
    TipsFirst(os);
    LeftFirst(os, s);
    LetterStep(os[0], s, Left(os[1..], s), after, options);
    hide ParseBundle, Bundled, Learned, Left, Tips;
  }

  /** A bundle of any length, the argument of its last option in either spelling. */
  lemma {:induction false} BundleBack(os: seq<LeafSpec>, s: Spelling, rest: seq<string>, options: seq<LeafSpec>)
    requires IsOptions(options) && os != [] && Bundled(os, s, options)
    ensures ParseBundle(Left(os, s), Following(os[|os| - 1], s) + rest, options) == Ok(Tips(os), rest, Learned(os, options))
    decreases |os|
  {
    hide ParseBundle, Learned, Left, Tips, Following;
    if |os| == 1 {
      BundleOne(os, s, rest, options);
    } else {
      BundleBack(os[1..], s, rest, Learned([os[0]], options));
      BundleMore(os, s, Following(os[|os| - 1], s) + rest, rest, options);
    }
  }

  lemma LearnedFirst(os: seq<LeafSpec>, options: seq<LeafSpec>)
    requires IsOptions(options) && os != []
    ensures Learned(os, options) == Learned(os[1..], Learned([os[0]], options))
    ensures |os| == 1 ==> os == [os[0]]
  {
    LearnedAppend([os[0]], os[1..], options);
    assert [os[0]] + os[1..] == os;
  }

  lemma TipsFirst(os: seq<LeafSpec>)
    requires os != []
    ensures Tips(os) == [Tip(os[0])] + Tips(os[1..])
    ensures |os| == 1 ==> Tips(os) == [Tip(os[0])] == [Tip(os[0])] + []
  {}

  lemma EmptyBundle(rest: seq<string>, options: seq<LeafSpec>)
    requires IsOptions(options)
    ensures ParseBundle("", rest, options) == Ok([], rest, options)
  {}

  lemma BundleTokensThen(os: seq<LeafSpec>, s: Spelling, rest: seq<string>)
    requires os != []
    ensures BundleTokens(os, s) + rest == ["-" + Left(os, s)] + (Following(os[|os| - 1], s) + rest)
  {
    hide Left, Following;
  }

  /** A bundle as an atom: as many options as letters. */
  lemma BundleAtom(os: seq<LeafSpec>, s: Spelling, rest: seq<string>, options: seq<LeafSpec>)
    requires IsOptions(options) && os != [] && Bundled(os, s, options) && os[0].id.short.value[1] != '-'
    ensures ParseAtom(BundleTokens(os, s) + rest, options) == Ok(Tips(os), rest, Learned(os, options))
  {
    BundleBack(os, s, rest, options);
    LeftFirst(os, s);
    BundleTokensThen(os, s, rest);
    hide Left, ParseAtom, ParseBundle, Bundled, Learned, Tips, BundleTokens, Following, Attached;
    ShortsStep(Left(os, s), Following(os[|os| - 1], s) + rest, options);
  }

  /** The parser's step over a token of short options. */
  lemma ShortsStep(left: string, rest: seq<string>, options: seq<LeafSpec>)
    requires IsOptions(options) && left != "" && left[0] != '-'
    ensures ParseAtom(["-" + left] + rest, options) == ParseBundle(left, rest, options)
  {
    hide ParseBundle;
    var token := "-" + left;
    assert token[0] == '-' && token[1] == left[0] && token[1..] == left;
    assert StripDashes(token) == StripDashes(left) == left;
    assert ([token] + rest)[1..] == rest;
  }

  /** The parser's step over a long option that it knows, or sees for the first time. */
  lemma LongStep(o: LeafSpec, token: string, rest: seq<string>, options: seq<LeafSpec>)
    requires IsOptions(options) && o.id.Opt? && o.id.long.Just? && Known(o, true, o.id.long.value, options)
    requires EqualsAt(token) == |o.id.long.value| && token[..EqualsAt(token)] == o.id.long.value
    requires o.id.argcount == 0 ==> EqualsAt(token) == |token|
    requires o.id.argcount != 0 && EqualsAt(token) == |token| ==> rest != [] && rest[0] != "--"
    ensures ParseLong([token] + rest, options)
         == Ok([Tip(o)], if o.id.argcount != 0 && EqualsAt(token) == |token| then rest[1..] else rest, options)
  {
    assert ([token] + rest)[1..] == rest;
  }

  lemma NewLongStep(long: string, token: string, rest: seq<string>, options: seq<LeafSpec>)
    requires IsOptions(options) && Similar(options, true, long) == []
    requires EqualsAt(token) == |long| && token[..EqualsAt(token)] == long
    ensures var o := NewOption(Nothing, Just(long), if EqualsAt(token) == |token| then 0 else 1, Flag(false));
            ParseLong([token] + rest, options) == Ok([Tip(o)], rest, options + [o])
  {
    assert ([token] + rest)[1..] == rest;
  }

  /** Where the name ends in the token of a long option. */
  lemma LongToken(o: LeafSpec, s: Spelling)
    requires o.id.Opt? && !ByShort(o, s) && EqualsAt(o.id.long.value) == |o.id.long.value|
    ensures var token, long := OptionTokens(o, s)[0], o.id.long.value;
            && EqualsAt(token) == |long| <= |token| && token[..|long|] == long
            && (|token| == |long| <==> o.id.argcount == 0 || !s.joined)
  {
    var token, long := OptionTokens(o, s)[0], o.id.long.value;
    if o.id.argcount != 0 && s.joined {
      EqualsAtPrefix(long, s.argument);
      assert token == long + "=" + s.argument;
    } else {
      assert token == long;
    }
  }

  lemma LongTokens(o: LeafSpec, s: Spelling, rest: seq<string>)
    requires o.id.Opt? && !ByShort(o, s)
    ensures OptionTokens(o, s) + rest == [OptionTokens(o, s)[0]] + (Following(o, s) + rest)
  {}

  lemma LongBack(o: LeafSpec, s: Spelling, rest: seq<string>, options: seq<LeafSpec>)
    requires IsOptions(options) && o.id.Opt? && Writable(o, s, options) && !ByShort(o, s)
    ensures ParseLong(OptionTokens(o, s) + rest, options) == Ok([Tip(o)], rest, Learned([o], options))
  {
    var token, long := OptionTokens(o, s)[0], o.id.long.value;
    LongToken(o, s);
    LongTokens(o, s, rest);
    FollowingThen(o, s, rest);
    LearnedOne(o, options);
    hide ParseLong, OptionTokens, EqualsAt, Following, Learned, StartsWith;
    if Known(o, true, long, options) {
      KnownStays(o, true, long, options);
      LongStep(o, token, Following(o, s) + rest, options);
    } else {
      NewLongStep(long, token, Following(o, s) + rest, options);
    }
  }

  lemma OneLetter(o: LeafSpec, s: Spelling)
    requires ShortNamed(o) && ByShort(o, s)
    ensures Tips([o]) == [Tip(o)] && BundleTokens([o], s) == OptionTokens(o, s)
  {
    LeftFirst([o], s);
    assert "-" + Left([o], s) == o.id.short.value + Attached(o, s);
  }

  /** An option that is known, or says nothing about itself, is parsed as it was
      written: by either name, its argument joined or in the next token. */
  lemma OptionBack(o: LeafSpec, s: Spelling, rest: seq<string>, options: seq<LeafSpec>)
    requires IsOptions(options) && o.id.Opt? && Writable(o, s, options)
    ensures ParseAtom(OptionTokens(o, s) + rest, options) == Ok([Tip(o)], rest, Learned([o], options))
  {
    if ByShort(o, s) {
      BundleAtom([o], s, rest, options);
      OneLetter(o, s);
    } else {
      hide ParseLong, Writable, Learned;
      OptionStarts(o, s, options);
      LongBack(o, s, rest, options);
      assert (OptionTokens(o, s) + rest)[0] == OptionTokens(o, s)[0];
    }
  }

  /** A leaf is named as it is written: a word by itself, an option by its long name, or
      its short one if it has no other. */
  lemma NamedAsWritten(p: Tree, options: seq<LeafSpec>, style: Style)
    requires IsOptions(options) && p.Tip? && IsAtom(p, options, style)
    ensures var n, tokens := Name(p.leaf.id), RenderAtom(p, style);
            && n.Just?
            && (!p.leaf.id.Opt? ==> tokens == [n.value])
            && (p.leaf.id.Opt? && !ByShort(p.leaf, style(p.leaf)) ==> n.value <= tokens[0] && StartsWith(n.value, "--"))
            && (p.leaf.id.Opt? && p.leaf.id.long.Nothing? ==> n.value == tokens[0][..2] && n.value[0] == '-' && n.value[1] != '-')
  {
    if p.leaf.id.Opt? {
      OptionStarts(p.leaf, style(p.leaf), options);
      if !ByShort(p.leaf, style(p.leaf)) { assert p.leaf.id.long.value[0] == '-'; }
    }
  }

  /** Tokens with a meaning of their own: the options marker, the two dashes that are
      words, a repetition mark with nothing before it, and what is taken for a bracket
      but is none. */
  lemma SpecialTokens(rest: seq<string>, options: seq<LeafSpec>)
    requires IsOptions(options)
    ensures ParseAtom(["options"] + rest, options) == Ok([Branch(OptionsShortcut, [])], rest, options)
    ensures forall w <- ["-", "--", "..."] :: ParseAtom([w] + rest, options) == Ok([Tip(LeafSpec(Cmd(w), Flag(false)))], rest, options)
    ensures forall w <- ["", "(["] :: ParseAtom([w] + rest, options) == Fail(BadBracket)
    ensures forall w <- ["options", "-", "--", "...", "", "(["] :: !Stops([w] + rest)
  {
    assert "-"[0] != '<' && "--"[0] != '<' && "..."[0] != '<';
    assert "..."[0] != "-"[0] && "..."[0] != "--"[0];
  }

  lemma WordBack(p: Tree, rest: seq<string>, options: seq<LeafSpec>, style: Style)
    requires IsOptions(options) && IsAtom(p, options, style) && p.Tip? && !p.leaf.id.Opt?
    ensures ParseAtom(RenderAtom(p, style) + rest, options) == Ok([p], rest, Learned(Flat(p), options))
  {
    LearnedOne(p.leaf, options);
  }

  /** The parser's step over a bracketed expression. */
  lemma GroupStep(toks: seq<string>, kind: Kind, cs: seq<Tree>, rest: seq<string>, options: seq<LeafSpec>, more: seq<LeafSpec>)
    requires IsOptions(options) && (kind == Required || kind == Optional)
    requires Next(toks, if kind == Required then "(" else "[")
    requires ParseExpr(toks[1..], options) == Ok(cs, [if kind == Required then ")" else "]"] + rest, more)
    ensures ParseAtom(toks, options) == Ok([Branch(kind, cs)], rest, more)
  {}

  lemma {:induction false} AtomBack(p: Tree, rest: seq<string>, options: seq<LeafSpec>, style: Style)
    requires IsOptions(options) && IsAtom(p, options, style) && !(p.Branch? && p.kind == OneOrMore)
    ensures RenderAtom(p, style) + rest != []
    ensures ParseAtom(RenderAtom(p, style) + rest, options) == Ok([p], rest, Learned(Flat(p), options))
    decreases p, 1
  {
    if p.Tip? {
      if p.leaf.id.Opt? { OptionBack(p.leaf, style(p.leaf), rest, options); } else { WordBack(p, rest, options, style); }
    } else if p.kind == OptionsShortcut {
      assert (["options"] + rest)[1..] == rest;
    } else {
      var open, close := if p.kind == Required then "(" else "[", if p.kind == Required then ")" else "]";
      var inner := RenderExpr(p.children, style) + ([close] + rest);
      assert RenderAtom(p, style) + rest == [open] + inner;
      assert ([open] + inner)[1..] == inner;
      ExprBack(p.children, [close] + rest, options, style);
      GroupStep([open] + inner, p.kind, p.children, rest, options, Learned(Flat(p), options));
    }
  }

  /** The parser's step over an atom that is not repeated. */
  lemma PlainStep(toks: seq<string>, p: Tree, more: seq<string>, options: seq<LeafSpec>, known: seq<LeafSpec>)
    requires IsOptions(options) && IsOptions(known) && !Stops(toks) && !Next(more, "...")
    requires ParseAtom(toks, options) == Ok([p], more, known)
    ensures ParseSeq(toks, options) == Prepend([p], ParseSeq(more, known))
  {}

  /** The parser's step over an atom and its repetition mark. */
  lemma RepeatStep(toks: seq<string>, a: Tree, more: seq<string>, options: seq<LeafSpec>, known: seq<LeafSpec>)
    requires IsOptions(options) && IsOptions(known) && !Stops(toks)
    requires ParseAtom(toks, options) == Ok([a], ["..."] + more, known)
    ensures ParseSeq(toks, options) == Prepend([Branch(OneOrMore, [a])], ParseSeq(more, known))
  {}

  lemma RenderedRepeat(a: Tree, more: seq<string>, style: Style)
    ensures RenderAtom(Branch(OneOrMore, [a]), style) + more == RenderAtom(a, style) + (["..."] + more)
  {}

  /** One atom, repeated or not, in front of a sequence. */
  lemma {:induction false} AtomThenSeq(p: Tree, more: seq<string>, options: seq<LeafSpec>, style: Style)
    requires IsOptions(options) && IsAtom(p, options, style) && !Next(more, "...")
    ensures ParseSeq(RenderAtom(p, style) + more, options) == Prepend([p], ParseSeq(more, Learned(Flat(p), options)))
    decreases p, 2
  {
    var known := Learned(Flat(p), options);
    var toks := RenderAtom(p, style) + more;
    AtomStarts(p, options, more, style);
    if p.Branch? && p.kind == OneOrMore {
      var a := p.children[0];
      assert p == Branch(OneOrMore, [a]);
      RenderedRepeat(a, more, style);
      AtomBack(a, ["..."] + more, options, style);
      FlatSingle(OneOrMore, a);
      RepeatStep(toks, a, more, options, known);
    } else {
      AtomBack(p, more, options, style);
      PlainStep(toks, p, more, options, known);
    }
  }

  lemma {:induction false} SeqBack(ps: seq<Tree>, rest: seq<string>, options: seq<LeafSpec>, style: Style)
    requires IsOptions(options) && IsSeq(ps, options, style) && Stops(rest)
    ensures ParseSeq(RenderSeq(ps, style) + rest, options) == Ok(ps, rest, Learned(FlatAll(ps), options))
    ensures !Next(RenderSeq(ps, style) + rest, "...")
    decreases ps, 0
  {
    if ps == [] {
      assert [] + rest == rest;
    } else {
      var p, more := ps[0], RenderSeq(ps[1..], style) + rest;
      assert RenderSeq(ps, style) + rest == RenderAtom(p, style) + more;
      SeqBack(ps[1..], rest, Learned(Flat(p), options), style);
      LearnedAppend(Flat(p), FlatAll(ps[1..]), options);
      AtomThenSeq(p, more, options, style);
      AtomStarts(p, options, more, style);
      assert [p] + ps[1..] == ps;
    }
  }

  /** A branch of an alternative, with or without its brackets. */
  lemma {:induction false} BranchBack(b: Tree, rest: seq<string>, options: seq<LeafSpec>, style: Style)
    requires IsOptions(options) && IsAtom(b, options, style) && Stops(rest)
    ensures var r := ParseSeq(RenderBranch(b, style) + rest, options);
            r.Ok? && Grouped(r.patterns) == [b] && r.rest == rest && r.options == Learned(Flat(b), options)
    decreases b, 3
  {
    if IsGroup(b) {
      assert !IsEither(b.children);
      SeqBack(b.children, rest, options, style);
    } else {
      AtomThenSeq(b, rest, options, style);
      assert [b] + [] == [b];
    }
  }

  /** The parser's step over one further branch. */
  lemma AlternativeStep(toks: seq<string>, more: seq<string>, b: Tree, options: seq<LeafSpec>, known: seq<LeafSpec>)
    requires IsOptions(options) && IsOptions(known) && Next(toks, "|")
    requires var r := ParseSeq(toks[1..], options);
             r.Ok? && Grouped(r.patterns) == [b] && r.rest == more && r.options == known
    ensures ParseAlternatives(toks, options) == Prepend([b], ParseAlternatives(more, known))
  {}

  lemma RenderedBranch(bs: seq<Tree>, rest: seq<string>, style: Style)
    requires bs != []
    ensures var toks := RenderAlternatives(bs, style) + rest;
            Next(toks, "|") && toks[1..] == RenderBranch(bs[0], style) + (RenderAlternatives(bs[1..], style) + rest)
  {
    AfterBar(RenderBranch(bs[0], style), RenderAlternatives(bs[1..], style), rest);
  }

  lemma AfterBar(a: seq<string>, b: seq<string>, c: seq<string>)
    ensures var toks := ["|"] + a + b + c; Next(toks, "|") && toks[1..] == a + (b + c)
  {}

  lemma {:induction false} AlternativesBack(bs: seq<Tree>, rest: seq<string>, options: seq<LeafSpec>, style: Style)
    requires IsOptions(options) && IsSeq(bs, options, style) && Stops(rest) && !Next(rest, "|")
    ensures ParseAlternatives(RenderAlternatives(bs, style) + rest, options) == Ok(bs, rest, Learned(FlatAll(bs), options))
    ensures Stops(RenderAlternatives(bs, style) + rest)
    ensures bs != [] ==> Next(RenderAlternatives(bs, style) + rest, "|")
    decreases bs, 1
  {
    var toks := RenderAlternatives(bs, style) + rest;
    if bs == [] {
      assert toks == rest;
    } else {
      var more := RenderAlternatives(bs[1..], style) + rest;
      var known := Learned(Flat(bs[0]), options);
      AlternativesBack(bs[1..], rest, known, style);
      LearnedAppend(Flat(bs[0]), FlatAll(bs[1..]), options);
      BranchBack(bs[0], more, options, style);
      RenderedBranch(bs, rest, style);
      AlternativeStep(toks, more, bs[0], options, known);
      assert [bs[0]] + bs[1..] == bs;
    }
  }

  /** The parser's step over the first branch of several. */
  lemma EitherStep(toks: seq<string>, more: seq<string>, bs: seq<Tree>, rest: seq<string>, options: seq<LeafSpec>,
                   known: seq<LeafSpec>, all: seq<LeafSpec>)
    requires IsOptions(options) && IsOptions(known) && |bs| > 1 && Next(more, "|")
    requires var r := ParseSeq(toks, options);
             r.Ok? && Grouped(r.patterns) == [bs[0]] && r.rest == more && r.options == known
    requires ParseAlternatives(more, known) == Ok(bs[1..], rest, all)
    ensures ParseExpr(toks, options) == Ok([Branch(Either, bs)], rest, all)
  {
    assert [bs[0]] + bs[1..] == bs;
  }

  lemma SeqIsExpr(toks: seq<string>, options: seq<LeafSpec>)
    requires IsOptions(options)
    requires var r := ParseSeq(toks, options); r.Ok? && !Next(r.rest, "|")
    ensures ParseExpr(toks, options) == ParseSeq(toks, options)
  {}

  lemma RenderedEither(ps: seq<Tree>, rest: seq<string>, style: Style)
    requires IsEither(ps) && ps[0].children != []
    ensures var bs := ps[0].children;
            RenderExpr(ps, style) + rest == RenderBranch(bs[0], style) + (RenderAlternatives(bs[1..], style) + rest)
  {}

  lemma {:induction false} ExprBack(ps: seq<Tree>, rest: seq<string>, options: seq<LeafSpec>, style: Style)
    requires IsOptions(options) && IsExpr(ps, options, style) && Stops(rest) && !Next(rest, "|")
    ensures ParseExpr(RenderExpr(ps, style) + rest, options) == Ok(ps, rest, Learned(FlatAll(ps), options))
    decreases ps, 4
  {
    hide ParseSeq, ParseAlternatives, ParseExpr, Learned, IsAtom;
    if IsEither(ps) {
      var bs := ps[0].children;
      var more := RenderAlternatives(bs[1..], style) + rest;
      var known := Learned(Flat(bs[0]), options);
      AlternativesBack(bs[1..], rest, known, style);
      BranchBack(bs[0], more, options, style);
      LearnedAppend(Flat(bs[0]), FlatAll(bs[1..]), options);
      RenderedEither(ps, rest, style);
      EitherStep(RenderExpr(ps, style) + rest, more, bs, rest, options, known, Learned(FlatAll(bs), options));
      assert ps == [Branch(Either, bs)];
      FlatSingle(Either, Branch(Either, bs));
    } else {
      SeqBack(ps, rest, options, style);
      SeqIsExpr(RenderExpr(ps, style) + rest, options);
    }
  }

  /** Printing a usage tree and parsing it gives the tree back, with no tokens left, and
      the list of options grown by the new ones in order of their first occurrence. */
  lemma PatternRoundTrip(ps: seq<Tree>, options: seq<LeafSpec>, style: Style)
    requires IsOptions(options) && IsExpr(ps, options, style)
    ensures ParsePattern(RenderExpr(ps, style), options) == Ok([Branch(Required, ps)], [], Learned(FlatAll(ps), options))
  {
    ExprBack(ps, [], options, style);
    assert RenderExpr(ps, style) + [] == RenderExpr(ps, style);
  }

  // ----- bundles, and branches that may be empty, wherever they stand

  /** A bundle in a sequence gives all its options, or one repetition of all of them. */
  lemma BundleThenSeq(os: seq<LeafSpec>, s: Spelling, repeated: bool, more: seq<string>, options: seq<LeafSpec>)
    requires IsOptions(options) && os != [] && Bundled(os, s, options) && os[0].id.short.value[1] != '-'
    requires !repeated ==> !Next(more, "...")
    ensures ParseSeq(BundleTokens(os, s) + ((if repeated then ["..."] else []) + more), options)
         == Prepend(if repeated then [Branch(OneOrMore, Tips(os))] else Tips(os), ParseSeq(more, Learned(os, options)))
  {
    var rest := (if repeated then ["..."] else []) + more;
    BundleAtom(os, s, rest, options);
    LeftFirst(os, s);
    hide Left, ParseAtom, ParseBundle, Bundled, Learned, Tips;
    assert repeated ==> rest[1..] == more;
    assert !repeated ==> rest == more;
    var toks := BundleTokens(os, s) + rest;
    assert toks[0] == "-" + Left(os, s) && toks[0][0] == '-';
    assert !Stops(toks);
  }

  /** Branches, each a sequence of atoms that may be empty, with bars in between. */
  function RenderSlots(slots: seq<seq<Tree>>, style: Style): seq<string> {
    if slots == [] then []
    else RenderSeq(slots[0], style) + RenderMoreSlots(slots[1..], style)
  }

  function RenderMoreSlots(slots: seq<seq<Tree>>, style: Style): seq<string> {
    if slots == [] then [] else ["|"] + RenderSeq(slots[0], style) + RenderMoreSlots(slots[1..], style)
  }

  ghost predicate AreSlots(slots: seq<seq<Tree>>, options: seq<LeafSpec>, style: Style)
    requires IsOptions(options)
    decreases |slots|
  {
    slots != [] ==> IsSeq(slots[0], options, style) && AreSlots(slots[1..], Learned(FlatAll(slots[0]), options), style)
  }

  /** The branches that they are: an empty one counts for nothing, several atoms are a group. */
  function Branches(slots: seq<seq<Tree>>): seq<Tree> {
    if slots == [] then []
    else
      (match |slots[0]|
       case 0 => []
       case 1 => [slots[0][0]]
       case _ => [Branch(Required, slots[0])]) + Branches(slots[1..])
  }

  lemma BranchesFirst(slots: seq<seq<Tree>>)
    requires slots != []
    ensures var atoms := slots[0];
            Branches(slots) == (if |atoms| > 1 then [Branch(Required, atoms)] else atoms) + Branches(slots[1..])
  {
    if |slots[0]| == 1 { assert slots[0] == [slots[0][0]]; }
  }

  function LearnedSlots(slots: seq<seq<Tree>>, options: seq<LeafSpec>): (r: seq<LeafSpec>)
    requires IsOptions(options)
    ensures IsOptions(r)
    decreases |slots|
  {
    if slots == [] then options else LearnedSlots(slots[1..], Learned(FlatAll(slots[0]), options))
  }

  lemma {:induction false} MoreSlotsBack(slots: seq<seq<Tree>>, rest: seq<string>, options: seq<LeafSpec>, style: Style)
    requires IsOptions(options) && AreSlots(slots, options, style) && Stops(rest) && !Next(rest, "|")
    ensures var toks := RenderMoreSlots(slots, style) + rest;
            && Stops(toks) && (slots != [] ==> Next(toks, "|"))
            && ParseAlternatives(toks, options) == Ok(Branches(slots), rest, LearnedSlots(slots, options))
    decreases |slots|
  {
    if slots == [] {
      assert [] + rest == rest;
    } else {
      var more, known := RenderMoreSlots(slots[1..], style) + rest, Learned(FlatAll(slots[0]), options);
      MoreSlotsBack(slots[1..], rest, known, style);
      SeqBack(slots[0], more, options, style);
      AfterBar(RenderSeq(slots[0], style), RenderMoreSlots(slots[1..], style), rest);
      BranchesFirst(slots);
      hide ParseSeq, Branches, Learned, RenderSeq, IsSeq;
    }
  }

  /** The parser's step over the first of several branches. */
  lemma SlotStep(toks: seq<string>, slots: seq<seq<Tree>>, more: seq<string>, rest: seq<string>, options: seq<LeafSpec>,
                 known: seq<LeafSpec>, all: seq<LeafSpec>)
    requires IsOptions(options) && IsOptions(known) && slots != [] && Next(more, "|")
    requires ParseSeq(toks, options) == Ok(slots[0], more, known)
    requires ParseAlternatives(more, known) == Ok(Branches(slots[1..]), rest, all)
    ensures var bs := Branches(slots);
            ParseExpr(toks, options) == Ok(if |bs| > 1 then [Branch(Either, bs)] else bs, rest, all)
  {
    hide ParseSeq, ParseAlternatives, Branches;
    BranchesFirst(slots);
  }

  /** Any expression: one branch is itself, several are an Either of those not empty,
      unless no more than one is left. */
  lemma SlotsBack(slots: seq<seq<Tree>>, rest: seq<string>, options: seq<LeafSpec>, style: Style)
    requires IsOptions(options) && AreSlots(slots, options, style) && slots != [] && Stops(rest) && !Next(rest, "|")
    ensures var bs := if |slots| == 1 then slots[0] else Branches(slots);
            var found := if |slots| > 1 && |bs| > 1 then [Branch(Either, bs)] else bs;
            ParseExpr(RenderSlots(slots, style) + rest, options) == Ok(found, rest, LearnedSlots(slots, options))
  {
    var toks, more := RenderSlots(slots, style) + rest, RenderMoreSlots(slots[1..], style) + rest;
    var known := Learned(FlatAll(slots[0]), options);
    SlotsFirst(slots, rest, options, style);
    MoreSlotsBack(slots[1..], rest, known, style);
    SeqBack(slots[0], more, options, style);
    hide ParseSeq, ParseAlternatives, ParseExpr, RenderSeq, RenderSlots, RenderMoreSlots, Learned, LearnedSlots, Branches, IsSeq, Grouped;
    if |slots| > 1 {
      SlotStep(toks, slots, more, rest, options, known, LearnedSlots(slots, options));
    } else {
      LastSlot(slots[1..], rest, known, style);
      SeqIsExpr(toks, options);
    }
  }

  lemma SlotsFirst(slots: seq<seq<Tree>>, rest: seq<string>, options: seq<LeafSpec>, style: Style)
    requires IsOptions(options) && slots != []
    ensures RenderSlots(slots, style) + rest == RenderSeq(slots[0], style) + (RenderMoreSlots(slots[1..], style) + rest)
    ensures LearnedSlots(slots, options) == LearnedSlots(slots[1..], Learned(FlatAll(slots[0]), options))
  {
    Associative(RenderSeq(slots[0], style), RenderMoreSlots(slots[1..], style), rest);
  }

  lemma LastSlot(slots: seq<seq<Tree>>, rest: seq<string>, options: seq<LeafSpec>, style: Style)
    requires IsOptions(options) && slots == []
    ensures RenderMoreSlots(slots, style) + rest == rest && LearnedSlots(slots, options) == options
  {}

  // ----- what the parser refuses

  /** Several options are known under a name. */
  ghost predicate Several(options: seq<LeafSpec>, long: bool, name: string)
    requires IsOptions(options)
  {
    exists i, j :: 0 <= i < j < |options| && Bears(options[i], long, name) && Bears(options[j], long, name)
  }

  predicate Bears(o: LeafSpec, long: bool, name: string)
    requires o.id.Opt?
  {
    (if long then o.id.long else o.id.short) == Just(name)
  }

  lemma {:induction false} SimilarSeveral(options: seq<LeafSpec>, long: bool, name: string)
    requires IsOptions(options)
    ensures |Similar(options, long, name)| > 1 <==> Several(options, long, name)
  {
    if options != [] {
      var rest := options[1..];
      SimilarSeveral(rest, long, name);
      if Several(rest, long, name) {
        var i, j :| 0 <= i < j < |rest| && Bears(rest[i], long, name) && Bears(rest[j], long, name);
        assert options[i + 1] == rest[i] && options[j + 1] == rest[j];
      }
      if Several(options, long, name) {
        var i, j :| 0 <= i < j < |options| && Bears(options[i], long, name) && Bears(options[j], long, name);
        assert options[j] == rest[j - 1];
        if i > 0 { assert options[i] == rest[i - 1]; }
        SimilarHas(rest, long, name, options[j]);
      }
      if |Similar(options, long, name)| > 1 && |Similar(rest, long, name)| <= 1 {
        var o := Similar(rest, long, name)[0];
        SimilarHas(rest, long, name, o);
        var j :| 0 <= j < |rest| && rest[j] == o;
        assert options[j + 1] == o;
      }
    }
  }

  ghost predicate Nobody(options: seq<LeafSpec>, long: bool, name: string)
    requires IsOptions(options)
  {
    forall o <- options :: !Bears(o, long, name)
  }

  lemma SimilarOne(options: seq<LeafSpec>, long: bool, name: string, o: LeafSpec)
    requires IsOptions(options) && o in options && Bears(o, long, name) && !Several(options, long, name)
    ensures Similar(options, long, name) == [o]
  {
    SimilarSeveral(options, long, name);
    SimilarHas(options, long, name, o);
  }

  lemma SimilarNone(options: seq<LeafSpec>, long: bool, name: string)
    requires IsOptions(options) && Nobody(options, long, name)
    ensures Similar(options, long, name) == []
  {
    if Similar(options, long, name) != [] { SimilarHas(options, long, name, Similar(options, long, name)[0]); }
  }

  /** A long option that nobody knows: a flag, off, or with one argument, unset. */
  lemma NewLong(name: string, text: string, rest: seq<string>, options: seq<LeafSpec>)
    requires IsOptions(options) && LongName(name) && Nobody(options, true, name)
    ensures var o := LeafSpec(Opt(Nothing, Just(name), 0), Flag(false));
            ParseAtom([name] + rest, options) == Ok([Tip(o)], rest, options + [o])
    ensures var o := LeafSpec(Opt(Nothing, Just(name), 1), Null);
            ParseAtom([name + "=" + text] + rest, options) == Ok([Tip(o)], rest, options + [o])
  {
    SimilarNone(options, true, name);
    EqualsAtPrefix(name, text);
    var token := name + "=" + text;
    assert token[..|name|] == name && token[2] == (if |name| > 2 then name[2] else '=');
    assert name[..|name|] == name;
    assert name[0] == '-' && token[0] == '-';
    NewLongStep(name, name, rest, options);
    NewLongStep(name, token, rest, options);
    LongAtom(name, rest, options);
    LongAtom(token, rest, options);
  }

  lemma LongAtom(token: string, rest: seq<string>, options: seq<LeafSpec>)
    requires IsOptions(options) && StartsWith(token, "--") && |token| > 2
    ensures ParseAtom([token] + rest, options) == ParseLong([token] + rest, options)
  {
    hide ParseLong;
    assert token[0] == '-';
  }

  /** A letter that nobody knows: a flag, off. */
  lemma NewLetter(c: char, left: string, rest: seq<string>, options: seq<LeafSpec>)
    requires IsOptions(options) && Nobody(options, false, ['-', c])
    ensures var o := LeafSpec(Opt(Just(['-', c]), Nothing, 0), Flag(false));
            ParseBundle([c] + left, rest, options) == Prepend([Tip(o)], ParseBundle(left, rest, options + [o]))
  {
    SimilarNone(options, false, ['-', c]);
    assert ['-', ([c] + left)[0]] == ['-', c] && ([c] + left)[1..] == left;
  }

  /** A word: an argument, unset, or a command, not given. */
  lemma NewWord(w: string, rest: seq<string>, options: seq<LeafSpec>)
    requires IsOptions(options) && IsWord(w)
    ensures ParseAtom([w] + rest, options)
         == Ok([Tip(if LooksArgument(w) then LeafSpec(Arg(Just(w)), Null) else LeafSpec(Cmd(w), Flag(false)))], rest, options)
  {
    assert ([w] + rest)[1..] == rest;
  }

  function LongWritten(name: string, value: Maybe<string>): string {
    match value
    case Nothing => name
    case Just(v) => name + "=" + v
  }

  /** A long option is refused if and only if its name is known several times, or it is
      a flag given a value, or it needs an argument and neither holds one nor is
      followed by one. */
  lemma LongRefused(name: string, value: Maybe<string>, rest: seq<string>, options: seq<LeafSpec>)
    requires IsOptions(options) && LongName(name)
    ensures var r := ParseAtom([LongWritten(name, value)] + rest, options);
            && (Several(options, true, name) ==> r == Fail(NotUnique))
            && (Nobody(options, true, name) ==> r.Ok?)
            && forall o <- options :: Bears(o, true, name) && !Several(options, true, name) ==>
                 if o.id.argcount == 0 then (if value.Just? then r == Fail(NoArgument) else r.Ok?)
                 else if value.Nothing? && (rest == [] || rest[0] == "--") then r == Fail(RequiresArgument) else r.Ok?
  {
    var token := LongWritten(name, value);
    var toks := [token] + rest;
    LongWrittenAt(name, value);
    assert toks[1..] == rest;
    assert StartsWith(token, "--") && |token| > 2 && token[0] == '-' by { assert token[..|name|] == name; }
    assert ParseAtom(toks, options) == ParseLong(toks, options);
    SimilarSeveral(options, true, name);
    hide ParseAtom, EqualsAt, Several, Similar;
    forall o <- options | Bears(o, true, name) && !Several(options, true, name)
      ensures Similar(options, true, name) == [o]
    {
      SimilarOne(options, true, name, o);
    }
    if Nobody(options, true, name) { SimilarNone(options, true, name); }
  }

  lemma LongWrittenAt(name: string, value: Maybe<string>)
    requires EqualsAt(name) == |name|
    ensures var token := LongWritten(name, value);
            EqualsAt(token) == |name| <= |token| && token[..|name|] == name && (|token| == |name| <==> value.Nothing?)
  {
    if value.Just? { EqualsAtPrefix(name, value.value); }
  }

  /** A letter is refused if and only if it is known several times, or it needs an
      argument, and neither its token nor a next one holds one. */
  lemma LetterRefused(c: char, text: string, rest: seq<string>, options: seq<LeafSpec>)
    requires IsOptions(options)
    ensures var r, name := ParseBundle([c] + text, rest, options), ['-', c];
            && (Several(options, false, name) ==> r == Fail(Ambiguous))
            && forall o <- options :: Bears(o, false, name) && !Several(options, false, name) && o.id.argcount != 0 ==>
                 if text == "" && (rest == [] || rest[0] == "--") then r == Fail(RequiresArgument) else r.Ok?
  {
    var name, all := ['-', c], [c] + text;
    assert ['-', all[0]] == name && all[1..] == text;
    SimilarSeveral(options, false, name);
    forall o <- options | Bears(o, false, name) && !Several(options, false, name)
      ensures Similar(options, false, name) == [o]
    {
      SimilarOne(options, false, name, o);
    }
    hide Several, Similar;
  }

  /** A bracket that is not closed, or closed by the other kind. */
  lemma Unclosed(kind: Kind, ps: seq<Tree>, rest: seq<string>, options: seq<LeafSpec>, style: Style)
    requires IsOptions(options) && (kind == Required || kind == Optional)
    requires IsExpr(ps, options, style) && Stops(rest) && !Next(rest, "|") && !Next(rest, if kind == Required then ")" else "]")
    ensures ParseAtom([if kind == Required then "(" else "["] + (RenderExpr(ps, style) + rest), options) == Fail(Unmatched)
  {
    var inner := RenderExpr(ps, style) + rest;
    ExprBack(ps, rest, options, style);
    hide ParseExpr;
    assert ([if kind == Required then "(" else "["] + inner)[1..] == inner;
  }

  /** A closing bracket too many. */
  lemma Unopened(ps: seq<Tree>, rest: seq<string>, options: seq<LeafSpec>, style: Style)
    requires IsOptions(options) && IsExpr(ps, options, style) && (Next(rest, ")") || Next(rest, "]"))
    ensures ParsePattern(RenderExpr(ps, style) + rest, options) == Fail(UnexpectedEnding)
  {
    ExprBack(ps, rest, options, style);
  }

  // ----- arguments and commands

  function UpperCase(s: string): string {
    seq(|s|, i requires 0 <= i < |s| => if 'a' <= s[i] <= 'z' then s[i] - 32 as char else s[i])
  }

  function LowerCase(s: string): string {
    seq(|s|, i requires 0 <= i < |s| => if 'A' <= s[i] <= 'Z' then s[i] + 32 as char else s[i])
  }

  /** An argument is written in angle brackets, or in letters that are all upper case. */
  lemma LooksArgumentIff(token: string)
    ensures LooksArgument(token) <==> (exists name :: token == "<" + name + ">") || (UpperCase(token) == token && LowerCase(token) != token)
  {
    if StartsWith(token, "<") && EndsWith(token, '>') {
      assert token == "<" + token[1..|token| - 1] + ">";
    }
    if IsUpper(token) {
      var i :| 0 <= i < |token| && 'A' <= token[i] <= 'Z';
      assert LowerCase(token)[i] != token[i];
      forall j | 0 <= j < |token| ensures UpperCase(token)[j] == token[j] { assert token[j] in token; }
      assert UpperCase(token) == token;
    }
    if UpperCase(token) == token && LowerCase(token) != token {
      var i :| 0 <= i < |token| && LowerCase(token)[i] != token[i];
      assert token[i] in token;
      forall c <- token ensures !('a' <= c <= 'z') {
        var j :| 0 <= j < |token| && token[j] == c;
        assert UpperCase(token)[j] == token[j];
      }
    }
  }

  // ----- a bundle that is repeated

  function Flagged(c: char): LeafSpec {
    NewOption(Just(['-', c]), Nothing, 0, Flag(false))
  }

  /** A repeated bundle of two new flags parses to a repetition of two children. */
  lemma RepeatedBundle(x: char, y: char)
    requires x != y && x != '-'
    ensures ParseSeq([['-', x, y], "..."], []) ==
              Ok([Branch(OneOrMore, [Tip(Flagged(x)), Tip(Flagged(y))])], [], [Flagged(x), Flagged(y)])
  {
    var toks, a, b := [['-', x, y], "..."], Flagged(x), Flagged(y);
    BundleOfTwo(x, y);
    assert toks[0][1..] == [x, y] && StripDashes([x, y]) == [x, y];
    assert StripDashes(toks[0]) == [x, y];
    assert toks[1..] == ["..."] && ["..."][1..] == [];
    assert ParseAtom(toks, []) == Ok([Tip(a), Tip(b)], ["..."], [a, b]);
    assert ParseSeq([], [a, b]) == Ok([], [], [a, b]);
    assert [Branch(OneOrMore, [Tip(a), Tip(b)])] + [] == [Branch(OneOrMore, [Tip(a), Tip(b)])];
  }

  lemma BundleOfTwo(x: char, y: char)
    requires x != y
    ensures ParseBundle([x, y], ["..."], []) == Ok([Tip(Flagged(x)), Tip(Flagged(y))], ["..."], [Flagged(x), Flagged(y)])
  {
    var a, b := Flagged(x), Flagged(y);
    assert [x, y][1..] == [y] && [y][1..] == [] && [] + [a] == [a] && [a] + [b] == [a, b];
    assert ['-', x][1] != ['-', y][1] && Similar([a], false, ['-', y]) == [];
    assert ParseBundle([], ["..."], [a, b]) == Ok([], ["..."], [a, b]);
    assert [Tip(b)] + [] == [Tip(b)] && [Tip(a)] + [Tip(b)] == [Tip(a), Tip(b)];
    assert ParseBundle([y], ["..."], [a]) == Ok([Tip(b)], ["..."], [a, b]);
  }

  /** A repeated bundle of short options parses to a repetition of two children. */
  lemma RepeatedBundleIsNotUnary()
    ensures var repeated := Branch(OneOrMore, [Tip(Flagged('a')), Tip(Flagged('b'))]);
            && ParsePattern(["-ab", "..."], []) == Ok([Branch(Required, [repeated])], [], [Flagged('a'), Flagged('b')])
            && !Unary(Branch(Required, [repeated]))
  {
    assert "-ab" == ['-', 'a', 'b'];
    RepeatedBundle('a', 'b');
    var repeated := Branch(OneOrMore, [Tip(Flagged('a')), Tip(Flagged('b'))]);
    assert !Unary(repeated) && repeated in [repeated];
  }

  function Angled(name: string): Tree {
    Tip(LeafSpec(Arg(Just(name)), Null))
  }

  lemma AngledAtom(name: string, style: Style)
    requires name == "<a>" || name == "<b>"
    ensures IsAtom(Angled(name), [], style) && RenderAtom(Angled(name), style) == [name]
  {
    assert EndsWith(name, '>') && StartsWith(name, "<") && name[0] != "-"[0];
  }

  lemma OptionalAtom(p: Tree, style: Style)
    requires IsAtom(p, [], style) && !IsEither([p])
    ensures IsAtom(Branch(Optional, [p]), [], style) && RenderAtom(Branch(Optional, [p]), style) == ["["] + RenderAtom(p, style) + ["]"]
  {
    assert RenderSeq([p], style) == RenderAtom(p, style) + RenderSeq([p][1..], style) == RenderAtom(p, style);
    assert IsExpr([p], [], style);
  }

  /** Three parts: `[<a>]...`, `<b>` and `-cd...`. */
  ghost function BehindParts(): seq<Tree> {
    [Branch(OneOrMore, [Branch(Optional, [Angled("<a>")])]), Angled("<b>"),
     Branch(OneOrMore, [Tip(Flagged('c')), Tip(Flagged('d'))])]
  }

  const PLAIN: Style := (o: LeafSpec) => Spelling(false, true, "ARG")

  ghost function BehindTokens(): seq<string> {
    RenderAtom(Branch(Optional, [Angled("<a>")]), PLAIN) + ["..."] + (RenderAtom(Angled("<b>"), PLAIN) + [['-', 'c', 'd'], "..."])
  }

  lemma BehindParsed()
    ensures ParseSeq(BehindTokens(), []) == Ok(BehindParts(), [], [Flagged('c'), Flagged('d')])
  {
    var opt, b, bundle := Branch(Optional, [Angled("<a>")]), Angled("<b>"), [['-', 'c', 'd'], "..."];
    var parts := BehindParts();
    AngledAtom("<a>", PLAIN);
    AngledAtom("<b>", PLAIN);
    OptionalAtom(Angled("<a>"), PLAIN);
    FlatSingle(Optional, Angled("<a>"));
    hide ParseSeq, IsAtom, RenderAtom;
    MoreBehind(opt, b, bundle, PLAIN);
    RepeatedBundle('c', 'd');
    assert [parts[1]] + [parts[2]] == parts[1..] && [parts[0]] + parts[1..] == parts;
  }

  lemma BehindSpelled()
    ensures BehindTokens() == ["[", "<a>", "]", "...", "<b>", "-cd", "..."]
  {
    AngledAtom("<a>", PLAIN);
    AngledAtom("<b>", PLAIN);
    OptionalAtom(Angled("<a>"), PLAIN);
    assert "-cd" == ['-', 'c', 'd'];
  }

  /** The same behind `[<a>]... <b>`. */
  lemma BundleBehind()
    ensures ParsePattern(["[", "<a>", "]", "...", "<b>", "-cd", "..."], []) ==
              Ok([Branch(Required, BehindParts())], [], [Flagged('c'), Flagged('d')])
  {
    hide ParsePattern, ParseSeq, BehindTokens, BehindParts;
    BehindSpelled();
    BehindParsed();
    PatternOfSeq(BehindTokens(), BehindParts(), [Flagged('c'), Flagged('d')]);
  }

  lemma PatternOfSeq(toks: seq<string>, ps: seq<Tree>, options: seq<LeafSpec>)
    requires ParseSeq(toks, []) == Ok(ps, [], options)
    ensures ParsePattern(toks, []) == Ok([Branch(Required, ps)], [], options)
  {}

  lemma MoreBehind(opt: Tree, b: Tree, rest: seq<string>, style: Style)
    requires IsAtom(opt, [], style) && opt.Branch? && opt.kind == Optional && IsAtom(b, [], style) && !Next(rest, "...")
    requires (forall l <- Flat(opt) :: !l.id.Opt?) && forall l <- Flat(b) :: !l.id.Opt?
    ensures ParseSeq(RenderAtom(opt, style) + ["..."] + (RenderAtom(b, style) + rest), []) ==
              Prepend([Branch(OneOrMore, [opt])], Prepend([b], ParseSeq(rest, [])))
  {
    LearnedNothing(Flat(opt), []);
    LearnedNothing(Flat(b), []);
    FlatSingle(OneOrMore, opt);
    AtomThenSeq(b, rest, [], style);
    AtomStarts(b, [], rest, style);
    AtomThenSeq(Branch(OneOrMore, [opt]), RenderAtom(b, style) + rest, [], style);
  }
}
