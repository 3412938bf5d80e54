// The greedy matcher over a parsed command line, as a function of what is left
// to consume, and the usage language it is sound for.
module DocoptMatch {
  import opened Basics
  import opened DocoptPattern

  /** An element of the parsed command line; a positional has no name of its own. */
  datatype Item = Item(id: Id, value: Value)

  /** One consumed element together with the leaf that consumed it. */
  datatype Use = Use(leaf: Id, item: Item)

  datatype Outcome = Outcome(ok: bool, rest: seq<Item>, uses: seq<Use>)

  /** One run of the repetition loop: successful and attempted matches of its child. */
  datatype Repetition = Repetition(times: nat, calls: nat, rest: seq<Item>, uses: seq<Use>)

  predicate Fits(leaf: Id, item: Item) {
    match leaf
    case Arg(_) => item.id.Arg?
    case Cmd(name) => item.id.Arg? && item.value == Str(name)
    case Opt(_, _, _) => Name(leaf) == Name(item.id)
  }

  function Shift(r: Maybe<nat>): Maybe<nat> {
    if r.Just? then Just(r.value + 1) else Nothing
  }

  /** Arguments take the first positional, commands only when it is their own
      name, options the first element that carries their name. */
  function SingleMatch(leaf: Id, left: seq<Item>): (r: Maybe<nat>)
    ensures r.Just? ==> r.value < |left| && Fits(leaf, left[r.value])
    ensures r.Just? && !leaf.Opt? ==> forall i :: 0 <= i < r.value ==> !left[i].id.Arg?
    ensures r.Nothing? && !leaf.Cmd? ==> forall item <- left :: !Fits(leaf, item)
  {
    if left == [] then Nothing
    else if leaf.Opt? then
      if Name(leaf) == Name(left[0].id) then Just(0) else Shift(SingleMatch(leaf, left[1..]))
    else if left[0].id.Arg? then
      if leaf.Arg? || left[0].value == Str(leaf.cmdName) then Just(0) else Nothing
    else Shift(SingleMatch(leaf, left[1..]))
  }

  /** An argument takes the first positional; a command the first one too, if it is the
      command's name; an option the first element that has its long name, or its short
      one if it has no other. */
  lemma {:induction false} SingleMatchIff(leaf: Id, left: seq<Item>, k: nat)
    requires k < |left|
    ensures var first := left[k].id.Arg? && forall i :: 0 <= i < k ==> !left[i].id.Arg?;
            SingleMatch(leaf, left) == Just(k) <==>
              match leaf
              case Arg(_) => first
              case Cmd(name) => first && left[k].value == Str(name)
              case Opt(_, _, _) => Name(left[k].id) == Name(leaf) && forall i :: 0 <= i < k ==> Name(left[i].id) != Name(leaf)
  {
    if k > 0 {
      SingleMatchIff(leaf, left[1..], k - 1);
      assert forall i :: 0 <= i < k - 1 ==> left[1..][i] == left[i + 1];
      assert forall i :: 1 <= i < k ==> left[i] == left[1..][i - 1];
    }
  }

  function Match(p: Pattern<Id>, left: seq<Item>): (o: Outcome)
    requires Unary(p)
    ensures |o.rest| <= |left| && (|o.rest| == |left| ==> o.rest == left)
    ensures !o.ok ==> o.rest == left && o.uses == []
    decreases p, 1, 0, 0
  {
    match p
    case Tip(leaf) =>
      var r := SingleMatch(leaf, left);
      if r.Nothing? then Outcome(false, left, [])
      else Outcome(true, Without(left, r.value), [Use(leaf, left[r.value])])
    case Branch(Required, cs) =>
      var o := MatchEvery(cs, left);
      if o.ok then o else Outcome(false, left, [])
    case Branch(OneOrMore, cs) =>
      var r := Repeat(cs[0], left, true);
      if r.times >= 1 then Outcome(true, r.rest, r.uses) else Outcome(false, left, [])
    case Branch(Either, cs) =>
      var best := MatchBest(cs, left);
      if best.Just? then best.value else Outcome(false, left, [])
    case Branch(_, cs) => MatchAny(cs, left)
  }

  function MatchEvery(ps: seq<Pattern<Id>>, left: seq<Item>): (o: Outcome)
    requires forall p <- ps :: Unary(p)
    ensures |o.rest| <= |left| && (|o.rest| == |left| ==> o.rest == left)
    decreases ps, 0, 0, 0
  {
    if ps == [] then Outcome(true, left, [])
    else
      var o := Match(ps[0], left);
      if !o.ok then o
      else
        var tail := MatchEvery(ps[1..], o.rest);
        Outcome(tail.ok, tail.rest, o.uses + tail.uses)
  }

  function MatchAny(ps: seq<Pattern<Id>>, left: seq<Item>): (o: Outcome)
    requires forall p <- ps :: Unary(p)
    ensures o.ok && |o.rest| <= |left| && (|o.rest| == |left| ==> o.rest == left)
    decreases ps, 0, 0, 0
  {
    if ps == [] then Outcome(true, left, [])
    else
      var o := Match(ps[0], left);
      var tail := MatchAny(ps[1..], o.rest);
      Outcome(true, tail.rest, o.uses + tail.uses)
  }

  /** The first of the successful outcomes that leave the fewest elements. */
  function MatchBest(ps: seq<Pattern<Id>>, left: seq<Item>): (r: Maybe<Outcome>)
    requires forall p <- ps :: Unary(p)
    ensures r.Just? ==> r.value.ok && |r.value.rest| <= |left|
    ensures r.Just? ==> |r.value.rest| == |left| ==> r.value.rest == left
    decreases ps, 0, 0, 0
  {
    if ps == [] then Nothing
    else
      var o, tail := Match(ps[0], left), MatchBest(ps[1..], left);
      if o.ok && (tail.Nothing? || |o.rest| <= |tail.value.rest|) then Just(o) else tail
  }

  /** The repetition loop; unless it is the first turn, the previous turn left l as well. */
  function Repeat(p: Pattern<Id>, l: seq<Item>, first: bool): (r: Repetition)
    requires Unary(p)
    ensures |r.rest| <= |l| && (|r.rest| == |l| ==> r.rest == l)
    ensures r.calls <= |l| + (if first then 2 else 1)
    decreases p, 2, |l|, if first then 1 else 0
  {
    var o := Match(p, l);
    if !o.ok then Repetition(0, 1, l, [])
    else if !first && o.rest == l then Repetition(1, 1, o.rest, o.uses)
    else
      var more := Repeat(p, o.rest, false);
      Repetition(1 + more.times, 1 + more.calls, more.rest, o.uses + more.uses)
  }

  // ----- what is consumed and what remains

  function Items(uses: seq<Use>): (r: seq<Item>)
    ensures |r| == |uses|
  {
    seq(|uses|, i requires 0 <= i < |uses| => uses[i].item)
  }

  function Positionals(items: seq<Item>): seq<Item> {
    if items == [] then []
    else if items[0].id.Arg? then [items[0]] + Positionals(items[1..])
    else Positionals(items[1..])
  }

  ghost predicate Subsequence<T>(a: seq<T>, b: seq<T>) {
    a == [] || (b != [] && ((a[0] == b[0] && Subsequence(a[1..], b[1..])) || Subsequence(a, b[1..])))
  }

  /** The uses and the rest partition the command line; positionals go from the
      front in order, and the rest keeps its order. */
  ghost predicate Took(left: seq<Item>, uses: seq<Use>, rest: seq<Item>) {
    && multiset(Items(uses)) + multiset(rest) == multiset(left)
    && Positionals(left) == Positionals(Items(uses)) + Positionals(rest)
    && Subsequence(rest, left)
  }

  lemma {:induction false} PositionalsAppend(a: seq<Item>, b: seq<Item>)
    ensures Positionals(a + b) == Positionals(a) + Positionals(b)
  {
    if a == [] {
      assert a + b == b;
    } else {
      assert (a + b)[1..] == a[1..] + b;
      PositionalsAppend(a[1..], b);
    }
  }

  lemma {:induction false} NoPositionals(a: seq<Item>)
    requires forall item <- a :: !item.id.Arg?
    ensures Positionals(a) == []
  {
    if a != [] { NoPositionals(a[1..]); }
  }

  lemma {:induction false} SubsequenceSelf<T>(a: seq<T>)
    ensures Subsequence(a, a)
  {
    if a != [] { SubsequenceSelf(a[1..]); }
  }

  lemma {:induction false} SubsequenceTransitive<T>(a: seq<T>, b: seq<T>, c: seq<T>)
    requires Subsequence(a, b) && Subsequence(b, c)
    ensures Subsequence(a, c)
    decreases |b| + |c|
  {
    if a != [] {
      if b[0] == c[0] && Subsequence(b[1..], c[1..]) {
        if a[0] == b[0] && Subsequence(a[1..], b[1..]) {
          SubsequenceTransitive(a[1..], b[1..], c[1..]);
        } else {
          SubsequenceTransitive(a, b[1..], c[1..]);
        }
      } else {
        SubsequenceTransitive(a, b, c[1..]);
      }
    }
  }

  lemma {:induction false} SubsequenceWithout<T>(s: seq<T>, i: nat)
    requires i < |s|
    ensures Subsequence(Without(s, i), s)
  {
    if i == 0 {
      SubsequenceSelf(s[1..]);
      assert Without(s, 0) == s[1..];
    } else {
      SubsequenceWithout(s[1..], i - 1);
      assert Without(s, i)[1..] == Without(s[1..], i - 1);
    }
  }

  lemma TookNothing(left: seq<Item>)
    ensures Took(left, [], left)
  {
    SubsequenceSelf(left);
    assert Items([]) == [];
  }

  lemma PositionalsThen(left: seq<Item>, a: seq<Item>, mid: seq<Item>, b: seq<Item>, rest: seq<Item>)
    requires Positionals(left) == Positionals(a) + Positionals(mid)
    requires Positionals(mid) == Positionals(b) + Positionals(rest)
    ensures Positionals(left) == Positionals(a + b) + Positionals(rest)
  {
    PositionalsAppend(a, b);
    Associative(Positionals(a), Positionals(b), Positionals(rest));
  }

  lemma ItemsAppend(u: seq<Use>, v: seq<Use>)
    ensures Items(u + v) == Items(u) + Items(v)
  {}

  lemma TookThen(left: seq<Item>, u: seq<Use>, mid: seq<Item>, v: seq<Use>, rest: seq<Item>)
    requires Took(left, u, mid) && Took(mid, v, rest)
    ensures Took(left, u + v, rest)
  {
    ItemsAppend(u, v);
    PositionalsThen(left, Items(u), mid, Items(v), rest);
    SubsequenceTransitive(rest, mid, left);
  }

  lemma PositionalsWithout(before: seq<Item>, item: Item, after: seq<Item>)
    requires item.id.Arg? ==> forall x <- before :: !x.id.Arg?
    ensures Positionals(before + ([item] + after)) == Positionals([item]) + Positionals(before + after)
  {
    PositionalsAppend(before, [item] + after);
    PositionalsAppend([item], after);
    PositionalsAppend(before, after);
    if item.id.Arg? {
      NoPositionals(before);
    }
  }

  lemma TookOne(left: seq<Item>, i: nat, leaf: Id)
    requires i < |left|
    requires left[i].id.Arg? ==> forall j :: 0 <= j < i ==> !left[j].id.Arg?
    ensures Took(left, [Use(leaf, left[i])], Without(left, i))
  {
    var before, after := left[..i], left[i + 1..];
    assert left == before + ([left[i]] + after);
    PositionalsWithout(before, left[i], after);
    SubsequenceWithout(left, i);
    assert Items([Use(leaf, left[i])]) == [left[i]];
  }

  // ----- the usage language

  /** A word of uses is in the language of a pattern: options may be given in
      any order on the command line, Optional parts may be dropped. */
  ghost predicate Lang(p: Pattern<Id>, w: seq<Use>)
    decreases p, 2, 0
  {
    match p
    case Tip(leaf) => |w| == 1 && w[0].leaf == leaf && Fits(leaf, w[0].item)
    case Branch(Required, cs) => LangSeq(cs, w, false)
    case Branch(OneOrMore, cs) => exists n: nat :: n >= 1 && LangPower(cs, w, n)
    case Branch(Either, cs) => exists i :: 0 <= i < |cs| && Lang(cs[i], w)
    case Branch(_, cs) => LangSeq(cs, w, true)
  }

  ghost predicate LangSeq(ps: seq<Pattern<Id>>, w: seq<Use>, droppable: bool)
    decreases ps, 0, 0
  {
    if ps == [] then w == []
    else exists k :: 0 <= k <= |w| && LangPart(ps[0], w[..k], droppable) && LangSeq(ps[1..], w[k..], droppable)
  }

  ghost predicate LangPart(p: Pattern<Id>, w: seq<Use>, droppable: bool)
    decreases p, 3, 0
  {
    (droppable && w == []) || Lang(p, w)
  }

  ghost predicate LangPower(ps: seq<Pattern<Id>>, w: seq<Use>, n: nat)
    decreases ps, 1, n
  {
    if n == 0 then w == []
    else exists k :: 0 <= k <= |w| && LangSeq(ps, w[..k], false) && LangPower(ps, w[k..], n - 1)
  }

  lemma LangSeqCons(p: Pattern<Id>, ps: seq<Pattern<Id>>, u: seq<Use>, v: seq<Use>, droppable: bool)
    requires LangPart(p, u, droppable) && LangSeq(ps, v, droppable)
    ensures LangSeq([p] + ps, u + v, droppable)
  {
    assert (u + v)[..|u|] == u && (u + v)[|u|..] == v;
    assert ([p] + ps)[1..] == ps;
  }

  lemma LangPowerCons(ps: seq<Pattern<Id>>, u: seq<Use>, v: seq<Use>, n: nat)
    requires LangSeq(ps, u, false) && LangPower(ps, v, n)
    ensures LangPower(ps, u + v, n + 1)
  {
    assert (u + v)[..|u|] == u && (u + v)[|u|..] == v;
  }

  lemma LangSeqOne(p: Pattern<Id>, w: seq<Use>)
    requires Lang(p, w)
    ensures LangSeq([p], w, false)
  {
    LangSeqCons(p, [], w, [], false);
    assert [p] + [] == [p] && w + [] == w;
  }

  // ----- soundness

  ghost predicate Named(p: Pattern<Id>)
    decreases p
  {
    match p
    case Tip(leaf) => leaf.Opt? ==> Name(leaf).Just?
    case Branch(_, cs) => forall c <- cs :: Named(c)
  }

  ghost predicate ParsedArgv(left: seq<Item>) {
    forall item <- left :: item.id.Arg? ==> item.id.argName.Nothing?
  }

  lemma TookParsed(left: seq<Item>, uses: seq<Use>, rest: seq<Item>)
    requires Took(left, uses, rest) && ParsedArgv(left)
    ensures ParsedArgv(rest)
  {
    forall item <- rest ensures item in left {
      assert item in multiset(rest);
      assert item in multiset(left);
    }
  }

  /** Whatever matches is derivable, and it was taken from the command line
      once, positionals from the front. */
  lemma {:induction false} MatchSound(p: Pattern<Id>, left: seq<Item>)
    requires Unary(p) && Named(p) && ParsedArgv(left)
    ensures var o := Match(p, left); Took(left, o.uses, o.rest) && (o.ok ==> Lang(p, o.uses))
    decreases p, 1, 0, 0
  {
    TookNothing(left);
    match p
    case Tip(leaf) =>
      var r := SingleMatch(leaf, left);
      if r.Just? { TookOne(left, r.value, leaf); }
    case Branch(Required, cs) =>
      EverySound(cs, left);
    case Branch(OneOrMore, cs) =>
      RepeatSound(cs[0], left, true);
      assert cs == [cs[0]];
    case Branch(Either, cs) =>
      BestSound(cs, left);
    case Branch(_, cs) =>
      AnySound(cs, left);
  }

  lemma {:induction false} EverySound(ps: seq<Pattern<Id>>, left: seq<Item>)
    requires (forall p <- ps :: Unary(p) && Named(p)) && ParsedArgv(left)
    ensures var o := MatchEvery(ps, left); Took(left, o.uses, o.rest) && (o.ok ==> LangSeq(ps, o.uses, false))
    decreases ps, 0, 0, 0
  {
    TookNothing(left);
    if ps != [] {
      MatchSound(ps[0], left);
      var o := Match(ps[0], left);
      if o.ok {
        TookParsed(left, o.uses, o.rest);
        EverySound(ps[1..], o.rest);
        var tail := MatchEvery(ps[1..], o.rest);
        TookThen(left, o.uses, o.rest, tail.uses, tail.rest);
        if tail.ok {
          LangSeqCons(ps[0], ps[1..], o.uses, tail.uses, false);
          assert [ps[0]] + ps[1..] == ps;
        }
      }
    }
  }

  lemma {:induction false} AnySound(ps: seq<Pattern<Id>>, left: seq<Item>)
    requires (forall p <- ps :: Unary(p) && Named(p)) && ParsedArgv(left)
    ensures var o := MatchAny(ps, left); Took(left, o.uses, o.rest) && LangSeq(ps, o.uses, true)
    decreases ps, 0, 0, 0
  {
    TookNothing(left);
    if ps != [] {
      MatchSound(ps[0], left);
      var o := Match(ps[0], left);
      TookParsed(left, o.uses, o.rest);
      AnySound(ps[1..], o.rest);
      var tail := MatchAny(ps[1..], o.rest);
      TookThen(left, o.uses, o.rest, tail.uses, tail.rest);
      LangSeqCons(ps[0], ps[1..], o.uses, tail.uses, true);
      assert [ps[0]] + ps[1..] == ps;
    }
  }

  lemma {:induction false} BestSound(ps: seq<Pattern<Id>>, left: seq<Item>)
    requires (forall p <- ps :: Unary(p) && Named(p)) && ParsedArgv(left)
    ensures var r := MatchBest(ps, left);
            r.Just? ==> Took(left, r.value.uses, r.value.rest) && exists i :: 0 <= i < |ps| && Lang(ps[i], r.value.uses)
    decreases ps, 0, 0, 0
  {
    if ps != [] {
      MatchSound(ps[0], left);
      BestSound(ps[1..], left);
      var tail := MatchBest(ps[1..], left);
      if tail.Just? {
        var i :| 0 <= i < |ps[1..]| && Lang(ps[1..][i], tail.value.uses);
        assert ps[i + 1] == ps[1..][i];
      }
    }
  }

  ghost predicate Repeated(p: Pattern<Id>, l: seq<Item>, times: nat, rest: seq<Item>, uses: seq<Use>) {
    Took(l, uses, rest) && LangPower([p], uses, times)
  }

  lemma {:induction false} RepeatSound(p: Pattern<Id>, l: seq<Item>, first: bool)
    requires Unary(p) && Named(p) && ParsedArgv(l)
    ensures var r := Repeat(p, l, first); Repeated(p, l, r.times, r.rest, r.uses)
    decreases p, 2, |l|, if first then 1 else 0
  {
    var o := Match(p, l);
    MatchSound(p, l);
    RepeatNone(p, l);
    if !o.ok {
      assert Repeat(p, l, first) == Repetition(0, 1, l, []);
    } else if !first && o.rest == l {
      assert Repeat(p, l, first) == Repetition(1, 1, l, o.uses);
      RepeatMore(p, l, o, 0, l, []);
      assert o.uses + [] == o.uses;
    } else {
      RepeatOn(p, l, o, first);
    }
  }

  lemma {:induction false} RepeatOn(p: Pattern<Id>, l: seq<Item>, o: Outcome, first: bool)
    requires Unary(p) && Named(p) && ParsedArgv(l)
    requires o == Match(p, l) && o.ok && (first || o.rest != l) && Took(l, o.uses, o.rest) && Lang(p, o.uses)
    ensures var r := Repeat(p, l, first); Repeated(p, l, r.times, r.rest, r.uses)
    decreases p, 2, |l|, if first then 1 else 0, 0
  {
    TookParsed(l, o.uses, o.rest);
    RepeatSound(p, o.rest, false);
    var more := Repeat(p, o.rest, false);
    RepeatMore(p, l, o, more.times, more.rest, more.uses);
  }

  lemma RepeatNone(p: Pattern<Id>, l: seq<Item>)
    ensures Repeated(p, l, 0, l, [])
  {
    TookNothing(l);
  }

  lemma RepeatMore(p: Pattern<Id>, l: seq<Item>, o: Outcome, times: nat, rest: seq<Item>, uses: seq<Use>)
    requires Took(l, o.uses, o.rest) && Lang(p, o.uses) && Repeated(p, o.rest, times, rest, uses)
    ensures Repeated(p, l, 1 + times, rest, o.uses + uses)
  {
    LangSeqOne(p, o.uses);
    TookThen(l, o.uses, o.rest, uses, rest);
    LangPowerCons([p], o.uses, uses, times);
  }

  /** Branch i succeeds, no branch leaves less, and every earlier success leaves more. */
  ghost predicate FirstShortest(ps: seq<Pattern<Id>>, left: seq<Item>, i: nat)
    requires forall p <- ps :: Unary(p)
  {
    && i < |ps| && Match(ps[i], left).ok
    && (forall j :: 0 <= j < |ps| && Match(ps[j], left).ok ==> |Match(ps[i], left).rest| <= |Match(ps[j], left).rest|)
    && (forall j :: 0 <= j < i && Match(ps[j], left).ok ==> |Match(ps[i], left).rest| < |Match(ps[j], left).rest|)
  }

  /** Either picks, among its successful branches, the first that leaves least. */
  lemma {:induction false} BestIsFirstShortest(ps: seq<Pattern<Id>>, left: seq<Item>) returns (i: nat)
    requires forall p <- ps :: Unary(p)
    ensures MatchBest(ps, left).Nothing? ==> forall p <- ps :: !Match(p, left).ok
    ensures MatchBest(ps, left).Just? ==> FirstShortest(ps, left, i) && MatchBest(ps, left).value == Match(ps[i], left)
  {
    i := 0;
    if ps != [] {
      var k := BestIsFirstShortest(ps[1..], left);
      var o, tail := Match(ps[0], left), MatchBest(ps[1..], left);
      assert forall j :: 0 < j < |ps| ==> ps[j] == ps[1..][j - 1];
      if tail.Just? && !(o.ok && |o.rest| <= |tail.value.rest|) {
        i := k + 1;
      }
    }
  }

  /** Greedy matching is sound, not complete: [<a>] <b> accepts one word of one
      positional, yet the matcher gives the only positional to <a> and fails. */
  lemma GreedyIsIncomplete(v: string)
    ensures var a, b := Arg(Just("<a>")), Arg(Just("<b>"));
            var p := Branch(Required, [Branch(Optional, [Tip(a)]), Tip(b)]);
            var item := Item(Arg(Nothing), Str(v));
            Lang(p, [Use(b, item)]) && !Match(p, [item]).ok
  {
    var a, b := Arg(Just("<a>")), Arg(Just("<b>"));
    var item := Item(Arg(Nothing), Str(v));
    var w, opt := [Use(b, item)], Branch(Optional, [Tip(a)]);
    LangSeqOne(Tip(b), w);
    LangSeqCons(Tip(a), [], [], [], true);
    assert [Tip(a)] + [] == [Tip(a)];
    LangSeqCons(opt, [Tip(b)], [], w, false);
    assert [opt] + [Tip(b)] == [opt, Tip(b)] && [] + w == w;
    assert MatchAny([Tip(a)], [item]).rest == [] by {
      assert Match(Tip(a), [item]).rest == [];
      assert [Tip(a)][1..] == [];
    }
    assert Match(opt, [item]).rest == [];
    assert [opt, Tip(b)][1..] == [Tip(b)];
    assert !MatchEvery([Tip(b)], []).ok;
    assert !MatchEvery([opt, Tip(b)], [item]).ok;
  }
}
