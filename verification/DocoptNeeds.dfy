// What a use of a program needs of a command line, and what leaves and matches take.
module DocoptNeeds {
  import opened Basics
  import opened DocoptPattern
  import opened DocoptMatch

  // ----- what a word needs, and what a command line has

  /** The positionals of a word, in order. */
  function Pos(w: seq<Use>): seq<Item> {
    if w == [] then [] else if w[0].leaf.Opt? then Pos(w[1..]) else [w[0].item] + Pos(w[1..])
  }

  /** The names of its options. */
  ghost function Opts(w: seq<Use>): multiset<Maybe<string>> {
    if w == [] then multiset{}
    else if w[0].leaf.Opt? then multiset{Name(w[0].leaf)} + Opts(w[1..])
    else Opts(w[1..])
  }

  /** The names of the options on a command line. */
  ghost function OptNames(items: seq<Item>): multiset<Maybe<string>> {
    if items == [] then multiset{}
    else if items[0].id.Arg? then OptNames(items[1..])
    else multiset{Name(items[0].id)} + OptNames(items[1..])
  }

  lemma {:induction false} NeedsAppend(u: seq<Use>, v: seq<Use>)
    ensures Pos(u + v) == Pos(u) + Pos(v) && Opts(u + v) == Opts(u) + Opts(v)
  {
    if u == [] {
      assert u + v == v;
    } else {
      assert (u + v)[1..] == u[1..] + v;
      NeedsAppend(u[1..], v);
    }
  }

  lemma {:induction false} OptNamesAppend(a: seq<Item>, b: seq<Item>)
    ensures OptNames(a + b) == OptNames(a) + OptNames(b)
  {
    if a == [] {
      assert a + b == b;
    } else {
      assert (a + b)[1..] == a[1..] + b;
      OptNamesAppend(a[1..], b);
    }
  }

  lemma Cancel<T>(m: multiset<T>, a: multiset<T>, b: multiset<T>)
    requires m + a == m + b
    ensures a == b
  {
    assert (m + a) - m == a && (m + b) - m == b;
  }

  lemma Swap<T>(a: multiset<T>, b: multiset<T>, c: multiset<T>)
    ensures a + (b + c) == b + (a + c)
  {}

  lemma {:induction false} OptNamesHas(items: seq<Item>, n: Maybe<string>)
    ensures n in OptNames(items) <==> exists item <- items :: !item.id.Arg? && Name(item.id) == n
  {
    if items != [] {
      OptNamesHas(items[1..], n);
      assert forall item <- items :: item == items[0] || item in items[1..];
      assert items[0] in items && forall item <- items[1..] :: item in items;
    }
  }

  /** Taking out one element takes out its name. */
  lemma OptNamesWithout(items: seq<Item>, i: nat)
    requires i < |items|
    ensures OptNames(items) == OptNames([items[i]]) + OptNames(Without(items, i))
  {
    var front, back := items[..i], items[i + 1..];
    OptNamesAppend(front, [items[i]] + back);
    OptNamesAppend([items[i]], back);
    OptNamesAppend(front, back);
    Swap(OptNames(front), OptNames([items[i]]), OptNames(back));
    assert items == front + ([items[i]] + back);
  }

  lemma BagWithout(s: seq<Item>, i: nat)
    requires i < |s|
    ensures multiset(s) == multiset{s[i]} + multiset(Without(s, i))
  {
    assert s == s[..i] + ([s[i]] + s[i + 1..]);
  }

  lemma {:induction false} OptNamesPermuted(a: seq<Item>, b: seq<Item>)
    requires multiset(a) == multiset(b)
    ensures OptNames(a) == OptNames(b)
    decreases |a|
  {
    if a == [] {
      assert |multiset(b)| == 0;
    } else {
      assert a[0] in multiset(b);
      var i :| 0 <= i < |b| && b[i] == a[0];
      BagWithout(a, 0);
      BagWithout(b, i);
      Cancel(multiset{a[0]}, multiset(Without(a, 0)), multiset(Without(b, i)));
      OptNamesPermuted(Without(a, 0), Without(b, i));
      OptNamesWithout(b, i);
      OptNamesWithout(a, 0);
    }
  }

  lemma {:induction false} Lengths(items: seq<Item>)
    ensures |items| == |Positionals(items)| + |OptNames(items)|
  {
    if items != [] { Lengths(items[1..]); }
  }

  /** What is taken and what remains share out the options. */
  lemma TookOptNames(left: seq<Item>, uses: seq<Use>, rest: seq<Item>)
    requires Took(left, uses, rest)
    ensures OptNames(left) == OptNames(Items(uses)) + OptNames(rest)
  {
    OptNamesAppend(Items(uses), rest);
    OptNamesPermuted(left, Items(uses) + rest);
  }

  // ----- words and their leaves

  /** Every use is of a leaf of the pattern, which fits it. */
  ghost predicate UsesOf(flat: seq<Id>, w: seq<Use>) {
    forall u <- w :: u.leaf in flat && Fits(u.leaf, u.item)
  }

  lemma UsesJoined(flat: seq<Id>, all: seq<Id>, rest: seq<Id>, w: seq<Use>, k: nat)
    requires k <= |w| && UsesOf(flat, w[..k]) && UsesOf(rest, w[k..])
    requires (forall l <- flat :: l in all) && forall l <- rest :: l in all
    ensures UsesOf(all, w)
  {
    assert w == w[..k] + w[k..];
  }

  lemma {:induction false} LangUses(p: Pattern<Id>, w: seq<Use>)
    requires Lang(p, w)
    ensures UsesOf(Flat(p), w)
    decreases p, 2, 0
  {
    match p
    case Tip(_) =>
    case Branch(Required, cs) => LangSeqUses(cs, w, false);
    case Branch(OneOrMore, cs) =>
      var n: nat :| n >= 1 && LangPower(cs, w, n);
      LangPowerUses(cs, w, n);
    case Branch(Either, cs) =>
      var i :| 0 <= i < |cs| && Lang(cs[i], w);
      LangUses(cs[i], w);
      FlatChild(cs, i);
    case Branch(_, cs) => LangSeqUses(cs, w, true);
  }

  lemma {:induction false} LangSeqUses(ps: seq<Pattern<Id>>, w: seq<Use>, droppable: bool)
    requires LangSeq(ps, w, droppable)
    ensures UsesOf(FlatAll(ps), w)
    decreases ps, 0, 0
  {
    if ps != [] {
      var k :| 0 <= k <= |w| && LangPart(ps[0], w[..k], droppable) && LangSeq(ps[1..], w[k..], droppable);
      if Lang(ps[0], w[..k]) { LangUses(ps[0], w[..k]); }
      LangSeqUses(ps[1..], w[k..], droppable);
      UsesJoined(Flat(ps[0]), FlatAll(ps), FlatAll(ps[1..]), w, k);
    }
  }

  lemma {:induction false} LangPowerUses(ps: seq<Pattern<Id>>, w: seq<Use>, n: nat)
    requires LangPower(ps, w, n)
    ensures UsesOf(FlatAll(ps), w)
    decreases ps, 1, n
  {
    if n > 0 {
      var k :| 0 <= k <= |w| && LangSeq(ps, w[..k], false) && LangPower(ps, w[k..], n - 1);
      LangSeqUses(ps, w[..k], false);
      LangPowerUses(ps, w[k..], n - 1);
      UsesJoined(FlatAll(ps), FlatAll(ps), FlatAll(ps), w, k);
    }
  }

  ghost predicate NamedLeaves(flat: seq<Id>) {
    forall l <- flat :: l.Opt? ==> Name(l).Just?
  }

  lemma {:induction false} NamedFlat(p: Pattern<Id>)
    requires Named(p)
    ensures NamedLeaves(Flat(p))
    decreases p, 1
  {
    match p
    case Tip(_) =>
    case Branch(_, cs) => NamedFlatAll(cs);
  }

  lemma {:induction false} NamedFlatAll(ps: seq<Pattern<Id>>)
    requires forall p <- ps :: Named(p)
    ensures NamedLeaves(FlatAll(ps))
    decreases ps, 0
  {
    if ps != [] {
      NamedFlat(ps[0]);
      NamedFlatAll(ps[1..]);
    }
  }

  /** On parsed elements, what a word needs is what its elements are. */
  lemma {:induction false} NeedsAreItems(flat: seq<Id>, w: seq<Use>)
    requires UsesOf(flat, w) && NamedLeaves(flat) && ParsedArgv(Items(w))
    ensures Pos(w) == Positionals(Items(w)) && Opts(w) == OptNames(Items(w))
  {
    if w != [] {
      var u := w[0];
      assert Items(w)[0] == u.item && Items(w)[1..] == Items(w[1..]);
      assert u in w && u.item in Items(w);
      forall item <- Items(w[1..]) ensures item in Items(w) { assert item in Items(w)[1..]; }
      NeedsAreItems(flat, w[1..]);
    }
  }

  // ----- single leaves

  ghost predicate Line(left: seq<Item>, pos: seq<Item>, opts: multiset<Maybe<string>>) {
    ParsedArgv(left) && Positionals(left) == pos && OptNames(left) == opts
  }

  /** Taking one element splits both shares. */
  lemma OneTaken(left: seq<Item>, i: nat)
    requires i < |left| && ParsedArgv(left)
    requires left[i].id.Arg? ==> forall j :: 0 <= j < i ==> !left[j].id.Arg?
    ensures Positionals(left) == Positionals([left[i]]) + Positionals(Without(left, i))
    ensures OptNames(left) == OptNames([left[i]]) + OptNames(Without(left, i))
    ensures ParsedArgv(Without(left, i))
  {
    var uses := [Use(left[i].id, left[i])];
    TookOne(left, i, left[i].id);
    assert Items(uses) == [left[i]];
    TookParsed(left, uses, Without(left, i));
    OptNamesWithout(left, i);
  }

  lemma {:induction false} CommandFound(name: string, left: seq<Item>)
    requires Positionals(left) != []
    ensures SingleMatch(Cmd(name), left).Just? <==> Positionals(left)[0].value == Str(name)
  {
    if !left[0].id.Arg? { CommandFound(name, left[1..]); }
  }

  lemma OptionTakes(leaf: Id, left: seq<Item>, pos: seq<Item>, opts: multiset<Maybe<string>>)
    requires leaf.Opt? && Name(leaf).Just? && Line(left, pos, multiset{Name(leaf)} + opts)
    ensures var o := Match(Tip(leaf), left); o.ok && Line(o.rest, pos, opts)
  {
    var r := SingleMatch(leaf, left);
    assert Name(leaf) in OptNames(left);
    OptNamesHas(left, Name(leaf));
    var i := r.value;
    assert left[i] in left;
    OneTaken(left, i);
    OneItem(left[i]);
    Cancel(multiset{Name(leaf)}, opts, OptNames(Without(left, i)));
  }

  lemma OneItem(item: Item)
    ensures Positionals([item]) == if item.id.Arg? then [item] else []
    ensures OptNames([item]) == if item.id.Arg? then multiset{} else multiset{Name(item.id)}
  {
    assert [item][1..] == [];
  }

  lemma PositionalTakes(leaf: Id, item: Item, left: seq<Item>, pos: seq<Item>, opts: multiset<Maybe<string>>)
    requires !leaf.Opt? && Fits(leaf, item) && Line(left, [item] + pos, opts)
    ensures var o := Match(Tip(leaf), left); o.ok && Line(o.rest, pos, opts)
  {
    var r := SingleMatch(leaf, left);
    assert Positionals(left)[0] == item;
    if leaf.Cmd? { CommandFound(leaf.cmdName, left); } else { FirstPositional(left); }
    var i := r.value;
    OneTaken(left, i);
    OneItem(left[i]);
    assert Positionals(left)[1..] == pos;
    assert ([left[i]] + Positionals(Without(left, i)))[1..] == Positionals(Without(left, i));
    assert multiset{} + OptNames(Without(left, i)) == OptNames(Without(left, i));
  }

  /** Whatever follows it, a leaf takes exactly its own use. */
  lemma LeafTakes(leaf: Id, u: Use, left: seq<Item>, pos: seq<Item>, opts: multiset<Maybe<string>>)
    requires u.leaf == leaf && Fits(leaf, u.item) && (leaf.Opt? ==> Name(leaf).Just?)
    requires Line(left, Pos([u]) + pos, Opts([u]) + opts)
    ensures var o := Match(Tip(leaf), left); o.ok && Line(o.rest, pos, opts)
  {
    assert [u][1..] == [] && Opts([]) == multiset{} && Pos([]) == [];
    if leaf.Opt? {
      assert Pos([u]) + pos == pos && Opts([u]) == multiset{Name(leaf)};
      OptionTakes(leaf, left, pos, opts);
    } else {
      assert Pos([u]) == [u.item] && Opts([u]) + opts == opts;
      PositionalTakes(leaf, u.item, left, pos, opts);
    }
  }

  lemma {:induction false} FirstPositional(left: seq<Item>)
    requires Positionals(left) != []
    ensures exists item <- left :: item.id.Arg?
  {
    if left[0].id.Arg? {
      assert left[0] in left;
    } else {
      FirstPositional(left[1..]);
      assert forall item <- left[1..] :: item in left;
    }
  }

  // ----- what a match consumes

  ghost predicate Matchable(p: Pattern<Id>) {
    Unary(p) && Named(p)
  }

  /** What a match of p takes is of its leaves, and both shares split accordingly. */
  lemma Consumes(p: Pattern<Id>, left: seq<Item>, pos: seq<Item>, opts: multiset<Maybe<string>>)
    requires Matchable(p) && Line(left, pos, opts)
    ensures var o := Match(p, left);
            && UsesOf(Flat(p), o.uses) && ParsedArgv(o.rest) && (o.ok ==> Lang(p, o.uses))
            && pos == Pos(o.uses) + Positionals(o.rest) && opts == Opts(o.uses) + OptNames(o.rest)
            && |o.uses| + |o.rest| == |left|
  {
    var o := Match(p, left);
    MatchSound(p, left);
    if o.ok { LangUses(p, o.uses); }
    NamedFlat(p);
    TookParsed(left, o.uses, o.rest);
    forall item <- Items(o.uses) ensures item in left {
      assert item in multiset(Items(o.uses)) && item in multiset(left);
    }
    NeedsAreItems(Flat(p), o.uses);
    TookOptNames(left, o.uses, o.rest);
    assert |multiset(left)| == |multiset(Items(o.uses))| + |multiset(o.rest)|;
  }

  /** What a word took from a parsed command line is what it needs. */
  lemma WordNeeds(p: Pattern<Id>, w: seq<Use>, left: seq<Item>, rest: seq<Item>)
    requires Named(p) && Lang(p, w) && Took(left, w, rest) && ParsedArgv(left)
    ensures Positionals(left) == Pos(w) + Positionals(rest) && OptNames(left) == Opts(w) + OptNames(rest)
  {
    LangUses(p, w);
    NamedFlat(p);
    forall item <- Items(w) ensures item in left {
      assert item in multiset(Items(w)) && item in multiset(left);
    }
    NeedsAreItems(Flat(p), w);
    TookOptNames(left, w, rest);
  }
}
