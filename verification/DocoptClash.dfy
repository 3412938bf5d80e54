// When adding collected values raises: on leaves of one name, and on whole runs
// of usages that list their leaves.
module DocoptClash {
  import opened Basics
  import opened DocoptPattern
  import opened DocoptTransform
  import opened DocoptMatch
  import opened DocoptRepeats
  import opened DocoptFix
  import opened DocoptRun
  import opened DocoptTally
  import opened Docopt
  import DocoptComplete

  // ----- two values

  /** Of values of every kind: what a leaf of mode x left of a takes the increment of a
      leaf of mode y for b in, if and only if both are numbers or both are lists. */
  lemma AddsIff(x: Mode, a: Value, y: Mode, b: Value)
    requires !y.Plain?
    ensures var aNumber, aList := x.Counting? || Number(a).Just?, !x.Counting? && (a.List? || (x.Listing? && a.Str?));
            var bNumber, bList := y.Counting? || Number(b).Just?, y.Listing? && (b.Str? || b.List?);
            Plus(Collected(x, a), Increment(y, b)).Just? <==> (aNumber && bNumber) || (aList && bList)
  {}

  // ----- leaves of one name

  /** How leaves accumulate, and what values they hold. */
  ghost function Modes(leaves: seq<Leaf>): (r: seq<Mode>)
    reads leaves
    ensures |r| == |leaves|
  {
    seq(|leaves|, i requires 0 <= i < |leaves| reads leaves => ModeOf(leaves[i].value))
  }

  ghost function Held(leaves: seq<Leaf>): (r: seq<Value>)
    reads leaves
    ensures |r| == |leaves|
  {
    seq(|leaves|, i requires 0 <= i < |leaves| reads leaves => leaves[i].value)
  }

  /** Leaf j was retyped, and its increment does not add to what the first one left. */
  ghost predicate Unfit(modes: seq<Mode>, values: seq<Value>, j: nat)
    requires |modes| == |values| && j < |modes|
  {
    !modes[j].Plain? && !Adds(Collected(modes[0], values[0]), Increment(modes[j], values[j]))
  }

  lemma UnfitBySort(modes: seq<Mode>, values: seq<Value>, j: nat, v: Value)
    requires |modes| == |values| && j < |modes| && SameSort(v, Collected(modes[0], values[0]))
    ensures Unfit(modes, values, j) <==> !modes[j].Plain? && !Adds(v, Increment(modes[j], values[j]))
  {}

  /** The first k leaves have taken their elements, and the first one keeps its sort. */
  ghost predicate InTurn(selves: seq<Leaf>, found: seq<Leaf>, name: Maybe<string>, k: nat, c: seq<Leaf>,
                         modes: seq<Mode>, values: seq<Value>)
    reads selves, found, c
  {
    && k <= |found| == |selves| == |modes| == |values| && Distinct(found) && (k == 0 <==> c == [])
    && (forall i :: 0 <= i < |found| ==> Name(selves[i].id) == Name(found[i].id) == name && selves[i] !in found)
    && (forall i :: 0 <= i < |found| ==> ModeOf(selves[i].value) == modes[i])
    && (forall i :: k <= i < |found| ==> found[i].value == values[i] && found[i] !in c)
    && (forall i :: 0 <= i < |c| ==> c[i] in found)
    && (k > 0 ==> c[0] == found[0] && SameSort(c[0].value, Collected(modes[0], values[0])))
  }

  lemma NoneTaken(selves: seq<Leaf>, found: seq<Leaf>, name: Maybe<string>)
    requires |selves| == |found| && Distinct(found)
    requires forall i :: 0 <= i < |found| ==> Name(selves[i].id) == Name(found[i].id) == name && selves[i] !in found
    ensures InTurn(selves, found, name, 0, [], Modes(selves), Held(found))
  {}

  method GatherNext(selves: seq<Leaf>, found: seq<Leaf>, name: Maybe<string>, k: nat, collected: seq<Leaf>,
                    ghost modes: seq<Mode>, ghost values: seq<Value>)
    returns (raised: bool, c: seq<Leaf>)
    requires k < |found| && InTurn(selves, found, name, k, collected, modes, values)
    modifies found`value
    ensures raised <==> k > 0 && Unfit(modes, values, k)
    ensures !raised ==> InTurn(selves, found, name, k + 1, c, modes, values)
  {
    if k > 0 {
      UnfitBySort(modes, values, k, collected[0].value);
    }
    raised, c := Gather(selves[k], found[k], collected);
  }

  /** Any number of leaves of one name that take an element each, in turn: the run
      raises if and only if some later leaf was retyped and its increment does not add
      to what the first one left. */
  method GatherInTurn(selves: seq<Leaf>, found: seq<Leaf>, name: Maybe<string>) returns (raised: bool, c: seq<Leaf>)
    requires |selves| == |found| && Distinct(found)
    requires forall i :: 0 <= i < |found| ==> Name(selves[i].id) == Name(found[i].id) == name && selves[i] !in found
    modifies found`value
    ensures raised <==> exists j :: 1 <= j < |found| && Unfit(old(Modes(selves)), old(Held(found)), j)
  {
    hide InTurn, Unfit, Distinct, Modes, Held;
    ghost var modes, values := Modes(selves), Held(found);
    raised, c := false, [];
    NoneTaken(selves, found, name);
    for k := 0 to |found|
      invariant InTurn(selves, found, name, k, c, modes, values)
      invariant forall j :: 1 <= j < k ==> !Unfit(modes, values, j)
    {
      raised, c := GatherNext(selves, found, name, k, c, modes, values);
      if raised {
        return;
      }
    }
  }

  /** Patterns of leaves that must be given are straight. */
  lemma {:induction false} FirmIsStraight(p: Pattern<Id>)
    requires DocoptComplete.Firm(p)
    ensures Straight(p)
    decreases p
  {
    if p.Branch? {
      forall c <- p.children ensures Straight(c) { FirmIsStraight(c); }
    }
  }

  // ----- usages that list their leaves

  /** A usage like `-b <y> -a <x> -a <x>`. */
  ghost function Listed(ids: seq<Id>): (p: Pattern<Id>)
    ensures Straight(p) && Inhabited(p) && Unary(p)
  {
    var tips := seq(|ids|, i requires 0 <= i < |ids| => Tip(ids[i]));
    assert forall t <- tips :: Straight(t) && Inhabited(t) && Unary(t);
    Branch(Required, tips)
  }

  function KindListedAs(ids: seq<Id>, id: Id): Mode {
    if multiset(ids)[id] < 2 then Plain else if Valued(id) then Listing else Counting
  }

  /** A leaf of it accumulates exactly when it is listed twice. */
  lemma KindListed(ids: seq<Id>, id: Id)
    ensures KindOf(Listed(ids), id) == KindListedAs(ids, id)
  {
    hide Reusable;
    var tips := Listed(ids).children;
    ProductOfTips(tips);
    assert Leaves(tips) == ids;
    assert Expand(Listed(ids)) == [ids];
    RepeatedIffReusable(Listed(ids), id);
    assert [ids][0] in [ids];
  }

  function Zip(ids: seq<Id>, items: seq<Item>): (r: seq<Use>)
    requires |ids| == |items|
    ensures |r| == |ids|
  {
    seq(|ids|, i requires 0 <= i < |ids| => Use(ids[i], items[i]))
  }

  /** Options given in the order listed are taken in that order. */
  lemma {:induction false} DrawInOrder(ids: seq<Id>, items: seq<Item>)
    requires |ids| == |items| && forall i :: 0 <= i < |ids| ==> ids[i].Opt? && Name(ids[i]) == Name(items[i].id)
    ensures DrawEvery(Listed(ids).children, items) == Outcome(true, [], Zip(ids, items))
    decreases |ids|
  {
    hide Match, Zip;
    var tips := Listed(ids).children;
    if ids != [] {
      assert tips[1..] == Listed(ids[1..]).children;
      FirstTaken(ids[0], items);
      DrawInOrder(ids[1..], items[1..]);
      ZipFirst(ids, items);
    }
  }

  lemma {:induction false} FirstTaken(id: Id, items: seq<Item>)
    requires items != [] && id.Opt? && Name(id) == Name(items[0].id)
    ensures Match(Tip(id), items) == Outcome(true, items[1..], [Use(id, items[0])])
  {
    assert Without(items, 0) == items[1..];
  }

  lemma {:induction false} ZipFirst(ids: seq<Id>, items: seq<Item>)
    requires |ids| == |items| > 0
    ensures Zip(ids, items) == [Use(ids[0], items[0])] + Zip(ids[1..], items[1..])
  {}

  /** The value a leaf has before any is given. */
  function Start(id: Id): Value {
    if Valued(id) then Null else Flag(false)
  }

  method LeavesOf(ids: seq<Id>) returns (leaves: seq<Leaf>)
    ensures |leaves| == |ids| && Distinct(leaves) && fresh(leaves)
    ensures forall i :: 0 <= i < |ids| ==> leaves[i].id == ids[i] && leaves[i].value == leaves[i].given == Start(ids[i])
  {
    leaves := [];
    for k := 0 to |ids|
      invariant |leaves| == k && Distinct(leaves) && fresh(leaves)
      invariant forall i :: 0 <= i < k ==> leaves[i].id == ids[i] && leaves[i].value == leaves[i].given == Start(ids[i])
    {
      var x := new Leaf(ids[k], Start(ids[k]));
      leaves := leaves + [x];
    }
  }

  method Argv(items: seq<Item>) returns (argv: seq<Leaf>)
    ensures |argv| == |items| && Distinct(argv) && fresh(argv)
    ensures forall i :: 0 <= i < |items| ==> argv[i].id == items[i].id && argv[i].value == argv[i].given == items[i].value
  {
    argv := [];
    for k := 0 to |items|
      invariant |argv| == k && Distinct(argv) && fresh(argv)
      invariant forall i :: 0 <= i < k ==> argv[i].id == items[i].id && argv[i].value == argv[i].given == items[i].value
    {
      var x := new Leaf(items[k].id, items[k].value);
      argv := argv + [x];
    }
  }

  ghost predicate Given(items: seq<Item>) {
    forall e <- items :: e.id.Arg? ==> e.id.argName.Nothing? && e.value.Str?
  }

  /** The node above some leaves. */
  method NodeOf(leaves: seq<Leaf>) returns (root: Node, ghost t: Pattern<Leaf>)
    ensures fresh(root) && root.repr == {root} && root.Valid(t) && Flat(t) == leaves
    ensures Ids(t) == Listed(seq(|leaves|, i requires 0 <= i < |leaves| => leaves[i].id))
  {
    root := new Node(Required, seq(|leaves|, i requires 0 <= i < |leaves| => LeafChild(leaves[i])), {});
    t := Branch(Required, seq(|leaves|, i requires 0 <= i < |leaves| => Tip(leaves[i])));
    FlatOfTips(leaves);
    TipIds(leaves);
  }

  lemma {:induction false} FlatOfTips(leaves: seq<Leaf>)
    ensures FlatAll(seq(|leaves|, i requires 0 <= i < |leaves| => Tip(leaves[i]))) == leaves
  {
    var tips := seq(|leaves|, i requires 0 <= i < |leaves| => Tip(leaves[i]));
    if leaves != [] {
      assert tips[1..] == seq(|leaves[1..]|, i requires 0 <= i < |leaves[1..]| => Tip(leaves[1..][i]));
      FlatOfTips(leaves[1..]);
    }
  }

  lemma TipIds(leaves: seq<Leaf>)
    ensures var tips := seq(|leaves|, i requires 0 <= i < |leaves| => Tip(leaves[i]));
            MapAll(IdOf, tips) == seq(|leaves|, i requires 0 <= i < |leaves| => Tip(leaves[i].id))
  {
    var tips := seq(|leaves|, i requires 0 <= i < |leaves| => Tip(leaves[i]));
    forall i | 0 <= i < |tips| ensures MapAll(IdOf, tips)[i] == Tip(leaves[i].id) { MapAllAt(IdOf, tips, i); }
  }

  /** fix and match on such a usage: exactly when the run raises. */
  method RunListed(ids: seq<Id>, items: seq<Item>) returns (raised: bool)
    requires Given(items) && forall id <- ids :: id.Opt? ==> Name(id).Just?
    ensures raised <==> SomeClash(KindsOf(Listed(ids)), Draw(Listed(ids), items).uses)
  {
    var leaves := LeavesOf(ids);
    var root, t := NodeOf(leaves);
    var argv := Argv(items);
    assert Ids(t) == Listed(ids) by { assert seq(|leaves|, i requires 0 <= i < |leaves| => leaves[i].id) == ids; }
    assert Shown(argv) == items;
    assert Named(Listed(ids)) by { assert forall c <- Listed(ids).children :: Named(c); }
    var ok, l, c;
    ghost var shared, ctx;
    raised, ok, l, c, shared, ctx := FixAndMatch(root, t, (set x <- leaves), argv);
  }

  /** Option j is listed twice, and what it adds is not of the sort that the first one left. */
  ghost predicate AddsOther(ids: seq<Id>, items: seq<Item>, j: nat)
    requires |ids| == |items| && j < |ids|
  {
    && multiset(ids)[ids[j]] >= 2
    && !Adds(Collected(KindListedAs(ids, ids[0]), items[0].value), Increment(KindListedAs(ids, ids[j]), items[j].value))
  }

  /** When options of one name are listed and given in order, the run raises if and only
      if one that is listed twice adds something else than what the first one left. */
  lemma {:induction false} RaisesInOrder(ids: seq<Id>, items: seq<Item>)
    requires |ids| == |items| && ids != []
    requires forall i :: 0 <= i < |ids| ==> ids[i].Opt? && Name(ids[i]) == Name(items[i].id) == Name(ids[0])
    ensures SomeClash(KindsOf(Listed(ids)), Draw(Listed(ids), items).uses) <==> exists j :: 1 <= j < |ids| && AddsOther(ids, items, j)
  {
    hide KindOf;
    var kinds, uses := KindsOf(Listed(ids)), Zip(ids, items);
    DrawInOrder(ids, items);
    assert Draw(Listed(ids), items).uses == uses;
    KindListed(ids, ids[0]);
    forall j | 0 <= j < |ids|
      ensures Clash(kinds, uses, j) <==> j >= 1 && AddsOther(ids, items, j)
    {
      KindListed(ids, ids[j]);
      assert FirstUse(uses, Name(ids[j])) == Just(0);
    }
  }

  // ----- three usages

  lemma Twice(a: Id, b: Id)
    ensures multiset([a, a, b, b])[b] >= 2
  {
    assert multiset([a, a, b, b]) == multiset{a, a, b, b};
  }

  /** Options -a, --all <x> and -b, --all <y>, usage `-b <y> -a <x> -a <x>`: fix retypes
      one of them, and `-b 1 -a 2 -a 3` adds a list to a text. */
  method ClashingRun() returns (raised: bool)
    ensures raised
  {
    var a, b := Opt(Just("-a"), Just("--all"), 1), Opt(Just("-b"), Just("--all"), 1);
    var ids, items := [b, a, a], [Item(b, Str("1")), Item(a, Str("2")), Item(a, Str("3"))];
    raised := RunListed(ids, items);
    RaisesInOrder(ids, items);
    assert multiset(ids) == multiset{b, a, a};
    assert AddsOther(ids, items, 1);
  }

  /** Options -a, --all <x> and -b, --all, usage `-a <x> -a <x> -b -b`: fix retypes both, one
      to a list and one to a count, and `-a 1 -a 2 -b -b` adds a number to a list. */
  method MixedRun() returns (raised: bool)
    ensures raised
  {
    var a, b := Opt(Just("-a"), Just("--all"), 1), Opt(Just("-b"), Just("--all"), 0);
    var ids := [a, a, b, b];
    var items := [Item(a, Str("1")), Item(a, Str("2")), Item(b, Flag(true)), Item(b, Flag(true))];
    raised := RunListed(ids, items);
    RaisesInOrder(ids, items);
    Twice(a, b);
    assert AddsOther(ids, items, 2);
  }

  /** Options -b, --all <y> and -a, --all, usage `-b <y> -b <y>`: all leaves are retyped to
      lists, and `-a -b 1` adds a list to a flag that was given under their name. */
  method FlagGivenRun() returns (raised: bool)
    ensures raised
  {
    var a, b := Opt(Just("-a"), Just("--all"), 0), Opt(Just("-b"), Just("--all"), 1);
    var ids, items := [b, b], [Item(a, Flag(true)), Item(b, Str("1"))];
    raised := RunListed(ids, items);
    RaisesInOrder(ids, items);
    assert multiset(ids) == multiset{b, b};
    assert AddsOther(ids, items, 1);
  }
}
