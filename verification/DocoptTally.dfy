// What the matcher adds up of the elements it takes, as a function of them: when
// an addition of two values fails, and what the sums are when none does.
module DocoptTally {
  import opened Basics
  import opened DocoptPattern
  import opened DocoptMatch
  import DocoptNeeds

  // ----- values

  /** How the leaves of one name accumulate. */
  datatype Mode = Plain | Counting | Listing

  function ModeOf(v: Value): Mode {
    match v
    case Num(_) => Counting
    case List(_) => Listing
    case _ => Plain
  }

  function Number(v: Value): Maybe<int> {
    match v
    case Flag(on) => Just(if on then 1 else 0)
    case Num(n) => Just(n)
    case _ => Nothing
  }

  /** Addition as += on a collected value; Nothing is a TypeError. */
  function Plus(v: Value, increment: Value): Maybe<Value> {
    if Number(v).Just? && Number(increment).Just? then Just(Num(Number(v).value + Number(increment).value))
    else if v.List? && increment.List? then Just(List(v.items + increment.items))
    else Nothing
  }

  function Increment(mode: Mode, found: Value): Value {
    if mode.Counting? then Num(1) else if found.Str? then List([found.s]) else found
  }

  /** What a leaf makes of the first element that is collected under its name. */
  function Collected(mode: Mode, found: Value): Value {
    if mode.Plain? then found else Increment(mode, found)
  }

  /** Numbers add to numbers, flags being numbers, and lists to lists. */
  predicate Adds(v: Value, increment: Value) {
    (Number(v).Just? && Number(increment).Just?) || (v.List? && increment.List?)
  }

  /** Values to which the same increments can be added. */
  predicate SameSort(v: Value, w: Value) {
    (Number(v).Just? <==> Number(w).Just?) && (v.List? <==> w.List?)
  }

  /** What a use tells: the text of an argument, that a command was given, the option as it is. */
  function Told(u: Use): Item {
    match u.leaf
    case Arg(_) => Item(u.leaf, u.item.value)
    case Cmd(_) => Item(u.leaf, Flag(true))
    case Opt(_, _, _) => u.item
  }

  // ----- collecting one after the other

  function FirstItem(st: seq<Item>, name: Maybe<string>): (r: Maybe<nat>)
    ensures r.Just? ==> r.value < |st| && Name(st[r.value].id) == name
    ensures r.Just? ==> forall j :: 0 <= j < r.value ==> Name(st[j].id) != name
    ensures r.Nothing? ==> forall e <- st :: Name(e.id) != name
  {
    if st == [] then Nothing
    else if Name(st[0].id) == name then Just(0)
    else Shift(FirstItem(st[1..], name))
  }

  /** Collecting one element: the first collected element of its name takes the
      increment of an accumulating leaf in; else it is collected itself. */
  function Add(mode: Mode, st: seq<Item>, e: Item): Maybe<seq<Item>> {
    var k := FirstItem(st, Name(e.id));
    if mode.Plain? then Just(st + [e])
    else if k.Nothing? then Just(st + [Item(e.id, Increment(mode, e.value))])
    else
      var sum := Plus(st[k.value].value, Increment(mode, e.value));
      if sum.Nothing? then Nothing else Just(st[k.value := Item(st[k.value].id, sum.value)])
  }

  /** Collecting what the uses tell, in order. */
  ghost function Tally(kinds: Id -> Mode, st: seq<Item>, uses: seq<Use>): Maybe<seq<Item>>
    decreases |uses|
  {
    if uses == [] then Just(st)
    else
      var next := Add(kinds(uses[0].leaf), st, Told(uses[0]));
      if next.Nothing? then Nothing else Tally(kinds, next.value, uses[1..])
  }

  lemma {:induction false} TallyAppend(kinds: Id -> Mode, st: seq<Item>, u: seq<Use>, v: seq<Use>)
    ensures var t := Tally(kinds, st, u);
            Tally(kinds, st, u + v) == if t.Nothing? then Nothing else Tally(kinds, t.value, v)
    decreases |u|
  {
    if u == [] {
      assert u + v == v;
    } else {
      assert (u + v)[1..] == u[1..] + v;
      var next := Add(kinds(u[0].leaf), st, Told(u[0]));
      if next.Just? { TallyAppend(kinds, next.value, u[1..], v); }
    }
  }

  lemma TallyOne(kinds: Id -> Mode, st: seq<Item>, u: Use)
    ensures Tally(kinds, st, [u]) == Add(kinds(u.leaf), st, Told(u))
  {
    assert [u][1..] == [];
  }

  // ----- when an addition fails

  /** The first use under a name. */
  function FirstUse(uses: seq<Use>, name: Maybe<string>): (r: Maybe<nat>)
    ensures r.Just? ==> r.value < |uses| && Name(uses[r.value].leaf) == name
    ensures r.Just? ==> forall j :: 0 <= j < r.value ==> Name(uses[j].leaf) != name
    ensures r.Nothing? ==> forall u <- uses :: Name(u.leaf) != name
  {
    if uses == [] then Nothing
    else if Name(uses[0].leaf) == name then Just(0)
    else Shift(FirstUse(uses[1..], name))
  }

  /** Use j is of an accumulating leaf, and its increment does not add to what the
      first use of its name, an earlier one, left: not both are numbers, nor both lists. */
  ghost predicate Clash(kinds: Id -> Mode, uses: seq<Use>, j: nat)
    requires j < |uses|
  {
    var mode, i := kinds(uses[j].leaf), FirstUse(uses, Name(uses[j].leaf)).value;
    !mode.Plain? && i < j
    && !Adds(Collected(kinds(uses[i].leaf), Told(uses[i]).value), Increment(mode, Told(uses[j]).value))
  }

  ghost predicate SomeClash(kinds: Id -> Mode, uses: seq<Use>) {
    exists j :: 0 <= j < |uses| && Clash(kinds, uses, j)
  }

  /** Each use names what it is told under. */
  ghost predicate Telling(uses: seq<Use>) {
    forall u <- uses :: Name(Told(u).id) == Name(u.leaf)
  }

  /** Under every name, what is collected first is of the sort that its first use left. */
  ghost predicate Sorted(kinds: Id -> Mode, done: seq<Use>, st: seq<Item>) {
    forall n: Maybe<string> ::
      var k, i := FirstItem(st, n), FirstUse(done, n);
      (k.Just? <==> i.Just?)
      && (k.Just? ==> SameSort(st[k.value].value, Collected(kinds(done[i.value].leaf), Told(done[i.value]).value)))
  }

  lemma {:induction false} FirstItemAppend(st: seq<Item>, e: Item, n: Maybe<string>)
    ensures var k := FirstItem(st, n);
            FirstItem(st + [e], n) == if k.Just? then k else if Name(e.id) == n then Just(|st|) else Nothing
  {
    if st == [] {
      assert st + [e] == [e] && [e][1..] == [];
    } else {
      assert (st + [e])[1..] == st[1..] + [e];
      FirstItemAppend(st[1..], e, n);
    }
  }

  lemma {:induction false} FirstItemSet(st: seq<Item>, k: nat, v: Value, n: Maybe<string>)
    requires k < |st|
    ensures FirstItem(st[k := Item(st[k].id, v)], n) == FirstItem(st, n)
  {
    var w := st[k := Item(st[k].id, v)];
    if k == 0 {
      assert w[1..] == st[1..];
    } else {
      assert w[1..] == st[1..][k - 1 := Item(st[k].id, v)];
      FirstItemSet(st[1..], k - 1, v, n);
    }
  }

  lemma {:induction false} FirstUseAppend(uses: seq<Use>, more: seq<Use>, n: Maybe<string>)
    ensures var i, j := FirstUse(uses, n), FirstUse(more, n);
            FirstUse(uses + more, n) == if i.Just? then i else if j.Just? then Just(|uses| + j.value) else Nothing
  {
    if uses == [] {
      assert uses + more == more;
    } else {
      assert (uses + more)[1..] == uses[1..] + more;
      FirstUseAppend(uses[1..], more, n);
    }
  }

  /** Collecting one more use keeps the sorts, and fails exactly on a clash. */
  lemma AddSorted(kinds: Id -> Mode, done: seq<Use>, u: Use, rest: seq<Use>, st: seq<Item>)
    requires Sorted(kinds, done, st) && Name(Told(u).id) == Name(u.leaf)
    ensures var next, uses := Add(kinds(u.leaf), st, Told(u)), done + ([u] + rest);
            && (next.Nothing? <==> Clash(kinds, uses, |done|))
            && (next.Just? ==> Sorted(kinds, done + [u], next.value))
  {
    var next, uses, mode, e, n := Add(kinds(u.leaf), st, Told(u)), done + ([u] + rest), kinds(u.leaf), Told(u), Name(u.leaf);
    FirstUseAppend(done, [u] + rest, n);
    assert uses[|done|] == u;
    var k, i := FirstItem(st, n), FirstUse(done, n);
    assert k.Just? <==> i.Just?;
    if k.Just? { assert uses[i.value] == done[i.value]; }
    if next.Just? {
      forall m: Maybe<string>
        ensures var k, i := FirstItem(next.value, m), FirstUse(done + [u], m);
                (k.Just? <==> i.Just?)
                && (k.Just? ==> SameSort(next.value[k.value].value, Collected(kinds((done + [u])[i.value].leaf), Told((done + [u])[i.value]).value)))
      {
        FirstUseAppend(done, [u], m);
        assert [u][1..] == [];
        if k.Just? && !mode.Plain? {
          FirstItemSet(st, k.value, next.value[k.value].value, m);
        } else {
          FirstItemAppend(st, Item(e.id, Collected(mode, e.value)), m);
        }
        var k', i' := FirstItem(st, m), FirstUse(done, m);
        assert k'.Just? <==> i'.Just?;
      }
    }
  }

  lemma {:induction false} TallyClashes(kinds: Id -> Mode, done: seq<Use>, st: seq<Item>, rest: seq<Use>)
    requires Sorted(kinds, done, st) && Telling(rest)
    ensures Tally(kinds, st, rest).Nothing? <==> exists j :: |done| <= j < |done + rest| && Clash(kinds, done + rest, j)
    decreases |rest|
  {
    if rest != [] {
      var u, all := rest[0], done + rest;
      assert u in rest && forall v <- rest[1..] :: v in rest;
      assert done + ([u] + rest[1..]) == all && (done + [u]) + rest[1..] == all;
      AddSorted(kinds, done, u, rest[1..], st);
      var next := Add(kinds(u.leaf), st, Told(u));
      if next.Just? { TallyClashes(kinds, done + [u], next.value, rest[1..]); }
    }
  }

  /** Exactly when adding up fails: some accumulating leaf's increment does not add to
      what the first use of its name left. */
  lemma TallyFailsIff(kinds: Id -> Mode, uses: seq<Use>)
    requires Telling(uses)
    ensures Tally(kinds, [], uses).Nothing? <==> SomeClash(kinds, uses)
  {
    TallyClashes(kinds, [], [], uses);
    assert [] + uses == uses;
  }

  // ----- what the sums are

  /** Every use under the name is of a leaf of this mode. */
  ghost predicate AllOfMode(kinds: Id -> Mode, uses: seq<Use>, n: Maybe<string>, mode: Mode) {
    forall u <- uses :: Name(u.leaf) == n ==> kinds(u.leaf) == mode
  }

  function CountOf(uses: seq<Use>, n: Maybe<string>): nat {
    if uses == [] then 0 else (if Name(uses[0].leaf) == n then 1 else 0) + CountOf(uses[1..], n)
  }

  /** A text is one text, a list all its own. */
  function TextsIn(v: Value): seq<string> {
    match v
    case Str(s) => [s]
    case List(items) => items
    case _ => []
  }

  /** The texts told under a name, in order. */
  function TextsOf(uses: seq<Use>, n: Maybe<string>): seq<string> {
    if uses == [] then []
    else (if Name(uses[0].leaf) == n then TextsIn(Told(uses[0]).value) else []) + TextsOf(uses[1..], n)
  }

  ghost predicate TellTexts(uses: seq<Use>, n: Maybe<string>) {
    forall u <- uses :: Name(u.leaf) == n ==> Told(u).value.Str? || Told(u).value.List?
  }

  /** Nothing is collected under the name, or first this value. */
  ghost predicate Holds(st: seq<Item>, n: Maybe<string>, nothing: bool, v: Value) {
    var k := FirstItem(st, n);
    if nothing then k.Nothing? else k.Just? && st[k.value].value == v
  }

  /** What is collected under other names leaves a name as it was. */
  lemma HoldsStill(mode: Mode, st: seq<Item>, e: Item, n: Maybe<string>, nothing: bool, v: Value)
    requires Holds(st, n, nothing, v) && Add(mode, st, e).Just? && Name(e.id) != n
    ensures Holds(Add(mode, st, e).value, n, nothing, v)
  {
    var k := FirstItem(st, Name(e.id));
    if k.Just? && !mode.Plain? {
      FirstItemSet(st, k.value, Add(mode, st, e).value[k.value].value, n);
    } else {
      FirstItemAppend(st, Item(e.id, Collected(mode, e.value)), n);
    }
  }

  /** What is collected under the name itself. */
  lemma HoldsMore(mode: Mode, st: seq<Item>, e: Item, nothing: bool, v: Value)
    requires Holds(st, Name(e.id), nothing, v) && Add(mode, st, e).Just? && !mode.Plain?
    ensures var w := Increment(mode, e.value);
            (nothing || Plus(v, w).Just?) && Holds(Add(mode, st, e).value, Name(e.id), false, if nothing then w else Plus(v, w).value)
  {
    var k := FirstItem(st, Name(e.id));
    if k.Just? {
      FirstItemSet(st, k.value, Add(mode, st, e).value[k.value].value, Name(e.id));
    } else {
      FirstItemAppend(st, Item(e.id, Increment(mode, e.value)), Name(e.id));
    }
  }

  lemma {:induction false} CountsFrom(kinds: Id -> Mode, st: seq<Item>, uses: seq<Use>, n: Maybe<string>, c: nat)
    requires Telling(uses) && AllOfMode(kinds, uses, n, Counting) && Holds(st, n, c == 0, Num(c)) && Tally(kinds, st, uses).Just?
    ensures var m := c + CountOf(uses, n); Holds(Tally(kinds, st, uses).value, n, m == 0, Num(m))
    decreases |uses|
  {
    hide Holds, Add, Told;
    if uses != [] {
      var u, e := uses[0], Told(uses[0]);
      assert u in uses && forall v <- uses[1..] :: v in uses;
      if Name(u.leaf) == n { HoldsMore(Counting, st, e, c == 0, Num(c)); } else { HoldsStill(kinds(u.leaf), st, e, n, c == 0, Num(c)); }
      CountsFrom(kinds, Add(kinds(u.leaf), st, e).value, uses[1..], n, if Name(u.leaf) == n then c + 1 else c);
    }
  }

  /** A name whose leaves all count ends with the number of its uses. */
  lemma CountsUses(kinds: Id -> Mode, uses: seq<Use>, n: Maybe<string>)
    requires Telling(uses) && AllOfMode(kinds, uses, n, Counting) && Tally(kinds, [], uses).Just?
    ensures var m := CountOf(uses, n); Holds(Tally(kinds, [], uses).value, n, m == 0, Num(m))
  {
    CountsFrom(kinds, [], uses, n, 0);
  }

  /** Counting uses add to what was collected first: to a flag as to one or nothing. */
  lemma {:induction false} CountsOnto(kinds: Id -> Mode, st: seq<Item>, uses: seq<Use>, n: Maybe<string>, v: Value)
    requires Telling(uses) && AllOfMode(kinds, uses, n, Counting) && Holds(st, n, false, v) && Tally(kinds, st, uses).Just?
    requires v.Flag? || v.Num?
    ensures var before, m := if v.Num? then v.n else if v.on then 1 else 0, CountOf(uses, n);
            Holds(Tally(kinds, st, uses).value, n, false, if m == 0 then v else Num(before + m))
    decreases |uses|
  {
    hide Holds, Add, Told;
    if uses != [] {
      var u, e := uses[0], Told(uses[0]);
      assert u in uses && forall w <- uses[1..] :: w in uses;
      var next := Add(kinds(u.leaf), st, e).value;
      if Name(u.leaf) == n {
        HoldsMore(Counting, st, e, false, v);
        CountsOnto(kinds, next, uses[1..], n, Plus(v, Num(1)).value);
      } else {
        HoldsStill(kinds(u.leaf), st, e, n, false, v);
        CountsOnto(kinds, next, uses[1..], n, v);
      }
    }
  }

  lemma {:induction false} CountSnoc(uses: seq<Use>, u: Use, n: Maybe<string>)
    ensures CountOf(uses + [u], n) == CountOf(uses, n) + if Name(u.leaf) == n then 1 else 0
  {
    if uses == [] {
      assert uses + [u] == [u] && [u][1..] == [];
    } else {
      assert (uses + [u])[1..] == uses[1..] + [u];
      CountSnoc(uses[1..], u, n);
    }
  }

  /** The positions of the uses of a name. */
  ghost function UsesAt(uses: seq<Use>, n: Maybe<string>): set<int> {
    set i | 0 <= i < |uses| && Name(uses[i].leaf) == n
  }

  lemma UsesAtSnoc(uses: seq<Use>, u: Use, n: Maybe<string>)
    ensures UsesAt(uses + [u], n) == UsesAt(uses, n) + if Name(u.leaf) == n then {|uses|} else {}
    ensures |uses| !in UsesAt(uses, n)
  {
    var all := uses + [u];
    assert all[|uses|] == u;
    assert forall i :: 0 <= i < |uses| ==> all[i] == uses[i];
  }

  /** The count is how many uses there are. */
  lemma {:induction false} CountIsSize(uses: seq<Use>, n: Maybe<string>)
    ensures CountOf(uses, n) == |UsesAt(uses, n)|
  {
    if uses == [] {
      assert UsesAt(uses, n) == {};
    } else {
      var k := |uses| - 1;
      CountIsSize(uses[..k], n);
      CountSnoc(uses[..k], uses[k], n);
      UsesAtSnoc(uses[..k], uses[k], n);
      assert uses == uses[..k] + [uses[k]];
      hide UsesAt, Name;
    }
  }

  lemma {:induction false} ListsFrom(kinds: Id -> Mode, st: seq<Item>, uses: seq<Use>, n: Maybe<string>, nothing: bool, texts: seq<string>)
    requires Telling(uses) && AllOfMode(kinds, uses, n, Listing) && Holds(st, n, nothing, List(texts)) && Tally(kinds, st, uses).Just?
    requires (nothing ==> texts == []) && TellTexts(uses, n)
    ensures Holds(Tally(kinds, st, uses).value, n, nothing && CountOf(uses, n) == 0, List(texts + TextsOf(uses, n)))
    decreases |uses|
  {
    hide Holds, Add, Told;
    if uses == [] {
      assert texts + [] == texts;
    } else {
      var u, e := uses[0], Told(uses[0]);
      assert u in uses && forall v <- uses[1..] :: v in uses;
      var next := Add(kinds(u.leaf), st, e).value;
      if Name(u.leaf) == n {
        var more := TextsIn(e.value);
        HoldsMore(Listing, st, e, nothing, List(texts));
        assert nothing ==> texts + more == more;
        ListsFrom(kinds, next, uses[1..], n, false, texts + more);
        Associative(texts, more, TextsOf(uses[1..], n));
      } else {
        HoldsStill(kinds(u.leaf), st, e, n, nothing, List(texts));
        ListsFrom(kinds, next, uses[1..], n, nothing, texts);
        assert [] + TextsOf(uses[1..], n) == TextsOf(uses[1..], n);
      }
    }
  }

  /** A name whose leaves all list, and take texts or lists of them, ends with all the
      texts in order. */
  lemma ListsUses(kinds: Id -> Mode, uses: seq<Use>, n: Maybe<string>)
    requires Telling(uses) && AllOfMode(kinds, uses, n, Listing) && Tally(kinds, [], uses).Just?
    requires TellTexts(uses, n)
    ensures Holds(Tally(kinds, [], uses).value, n, CountOf(uses, n) == 0, List(TextsOf(uses, n)))
  {
    ListsFrom(kinds, [], uses, n, true, []);
    assert [] + TextsOf(uses, n) == TextsOf(uses, n);
  }

  // ----- what is taken, also by a match that fails

  /** The part takes nothing when it fails: no part after its first one may fail. */
  ghost predicate Steady(p: Pattern<Id>)
    decreases p
  {
    match p
    case Tip(_) => true
    case Branch(Either, _) => false
    case Branch(Required, cs) => |cs| <= 1 && forall c <- cs :: Steady(c)
    case Branch(_, cs) => forall c <- cs :: Steady(c)
  }

  /** What a part took is only given back when the whole match fails. */
  ghost predicate Straight(p: Pattern<Id>)
    decreases p
  {
    match p
    case Branch(Required, cs) => forall c <- cs :: Straight(c)
    case _ => Steady(p)
  }

  /** The outcome with what was taken until it failed. */
  ghost function Draw(p: Pattern<Id>, left: seq<Item>): Outcome
    requires Unary(p)
    decreases p, 1
  {
    match p
    case Branch(Required, cs) => DrawEvery(cs, left)
    case _ => Match(p, left)
  }

  ghost function DrawEvery(ps: seq<Pattern<Id>>, left: seq<Item>): Outcome
    requires forall p <- ps :: Unary(p)
    decreases ps, 0
  {
    if ps == [] then Outcome(true, left, [])
    else
      var o := Draw(ps[0], left);
      if !o.ok then o
      else
        var tail := DrawEvery(ps[1..], o.rest);
        Outcome(tail.ok, tail.rest, o.uses + tail.uses)
  }

  lemma {:induction false} DrawIsMatch(p: Pattern<Id>, left: seq<Item>)
    requires Unary(p)
    ensures var d, o := Draw(p, left), Match(p, left); d.ok == o.ok && (d.ok || Steady(p) ==> d == o)
    decreases p, 1
  {
    if p.Branch? && p.kind == Required {
      var cs := p.children;
      DrawEveryIsMatch(cs, left);
      if Steady(p) && cs != [] { DrawIsMatch(cs[0], left); }
    }
  }

  lemma {:induction false} DrawEveryIsMatch(ps: seq<Pattern<Id>>, left: seq<Item>)
    requires forall p <- ps :: Unary(p)
    ensures var d, o := DrawEvery(ps, left), MatchEvery(ps, left); d.ok == o.ok && (d.ok ==> d == o)
    decreases ps, 0
  {
    if ps != [] {
      DrawIsMatch(ps[0], left);
      DrawEveryIsMatch(ps[1..], Match(ps[0], left).rest);
    }
  }

  lemma {:induction false} SteadyIsStraight(p: Pattern<Id>)
    requires Steady(p)
    ensures Straight(p)
    decreases p
  {
    if p.Branch? && p.kind == Required && p.children != [] { SteadyIsStraight(p.children[0]); }
  }

  lemma {:induction false} DrawTells(p: Pattern<Id>, left: seq<Item>)
    requires Unary(p) && Named(p) && ParsedArgv(left)
    ensures Telling(Draw(p, left).uses)
    decreases p, 1
  {
    if p.Branch? && p.kind == Required {
      DrawEveryTells(p.children, left);
    } else {
      MatchSound(p, left);
      var o := Match(p, left);
      if o.ok { DocoptNeeds.LangUses(p, o.uses); }
    }
  }

  lemma {:induction false} DrawEveryTells(ps: seq<Pattern<Id>>, left: seq<Item>)
    requires (forall p <- ps :: Unary(p)) && (forall p <- ps :: Named(p)) && ParsedArgv(left)
    ensures Telling(DrawEvery(ps, left).uses)
    decreases ps, 0
  {
    if ps != [] {
      DrawTells(ps[0], left);
      DrawIsMatch(ps[0], left);
      var o := Match(ps[0], left);
      MatchSound(ps[0], left);
      TookParsed(left, o.uses, o.rest);
      if o.ok { DrawEveryTells(ps[1..], o.rest); }
    }
  }
}
