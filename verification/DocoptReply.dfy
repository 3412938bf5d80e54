// The dictionary that the program answers with: a value for every name of the usage.
module DocoptReply {
  import opened Basics
  import opened DocoptPattern
  import opened DocoptMatch
  import opened DocoptFix
  import opened DocoptRun
  import opened DocoptTally
  import opened DocoptWords
  import opened DocoptRepeats
  import opened Docopt
  import DocoptNeeds
  import P = DocoptParser

  type Values = map<Maybe<string>, Value>

  /** Position k holds the last leaf with its name. */
  ghost predicate LastNamed(ids: seq<Id>, k: nat) {
    k < |ids| && forall j :: k < j < |ids| ==> Name(ids[j]) != Name(ids[k])
  }

  // ----- the last value under a name

  ghost function LastItem(items: seq<Item>, n: Maybe<string>): Maybe<Value> {
    if items == [] then Nothing
    else
      var r := LastItem(items[1..], n);
      if r.Nothing? && Name(items[0].id) == n then Just(items[0].value) else r
  }

  /** What the last use of a name tells. */
  ghost function LastTold(uses: seq<Use>, n: Maybe<string>): Maybe<Value> {
    if uses == [] then Nothing
    else
      var r := LastTold(uses[1..], n);
      if r.Nothing? && Name(uses[0].leaf) == n then Just(Told(uses[0]).value) else r
  }

  ghost predicate LastUse(uses: seq<Use>, k: nat) {
    k < |uses| && forall j :: k < j < |uses| ==> Name(uses[j].leaf) != Name(uses[k].leaf)
  }

  lemma {:induction false} LastToldAt(uses: seq<Use>, k: nat)
    requires LastUse(uses, k)
    ensures LastTold(uses, Name(uses[k].leaf)) == Just(Told(uses[k]).value)
  {
    if k > 0 {
      assert uses[1..][k - 1] == uses[k];
      assert LastUse(uses[1..], k - 1);
      LastToldAt(uses[1..], k - 1);
    } else {
      NotTold(uses[1..], Name(uses[0].leaf));
    }
  }

  lemma {:induction false} NotTold(uses: seq<Use>, n: Maybe<string>)
    requires forall u <- uses :: Name(u.leaf) != n
    ensures LastTold(uses, n) == Nothing
  {
    if uses != [] { NotTold(uses[1..], n); }
  }

  lemma {:induction false} NoItem(items: seq<Item>, n: Maybe<string>)
    requires forall e <- items :: Name(e.id) != n
    ensures LastItem(items, n) == Nothing
  {
    if items != [] { NoItem(items[1..], n); }
  }

  lemma {:induction false} LastItemAppend(a: seq<Item>, b: seq<Item>, n: Maybe<string>)
    ensures LastItem(a + b, n) == if LastItem(b, n).Just? then LastItem(b, n) else LastItem(a, n)
  {
    if a == [] {
      assert a + b == b;
    } else {
      assert (a + b)[1..] == a[1..] + b;
      LastItemAppend(a[1..], b, n);
    }
  }

  lemma LastItemOne(st: seq<Item>, e: Item, n: Maybe<string>)
    ensures LastItem(st + [e], n) == if Name(e.id) == n then Just(e.value) else LastItem(st, n)
  {
    LastItemAppend(st, [e], n);
    assert [e][1..] == [];
  }

  /** A name has a last value among leaves if and only if some leaf has the name. */
  lemma {:induction false} LastIffNamed(c: seq<Leaf>, n: Maybe<string>)
    ensures LastItem(Contents(c), n).Just? <==> n in Names(c)
  {
    if c != [] {
      assert Contents(c)[1..] == Contents(c[1..]);
      assert forall x :: x in c <==> x == c[0] || x in c[1..];
      LastIffNamed(c[1..], n);
    }
  }

  lemma {:induction false} LastItemAt(c: seq<Leaf>, ids: seq<Id>, k: nat)
    requires |ids| == |c| && (forall i :: 0 <= i < |c| ==> c[i].id == ids[i]) && LastNamed(ids, k)
    ensures LastItem(Contents(c), Name(ids[k])) == Just(c[k].value)
  {
    assert Contents(c)[1..] == Contents(c[1..]);
    if k > 0 {
      assert LastNamed(ids[1..], k - 1);
      LastItemAt(c[1..], ids[1..], k - 1);
    } else {
      forall e <- Contents(c[1..]) ensures Name(e.id) != Name(ids[0]) {
        var j :| 0 <= j < |c[1..]| && Contents(c[1..])[j] == e;
        assert e.id == ids[j + 1];
      }
      NoItem(Contents(c[1..]), Name(ids[0]));
    }
  }

  lemma ContentsMore(all: seq<Leaf>, i: nat)
    requires i < |all|
    ensures Contents(all[..i + 1]) == Contents(all[..i]) + [Item(all[i].id, all[i].value)]
  {
    assert all[..i + 1] == all[..i] + [all[i]];
  }

  /** Entries in order: of those with one name the last one counts. */
  method Dictionary(flat: seq<Leaf>, collected: seq<Leaf>) returns (values: Values)
    ensures values.Keys == Names(flat + collected)
    ensures forall n <- values.Keys :: LastItem(Contents(flat + collected), n) == Just(values[n])
  {
    hide Contents;
    var all := flat + collected;
    values := map[];
    for i := 0 to |all|
      invariant values.Keys == Names(all[..i])
      invariant forall n <- values.Keys :: LastItem(Contents(all[..i]), n) == Just(values[n])
    {
      ContentsMore(all, i);
      assert all[..i + 1] == all[..i] + [all[i]];
      var e := all[i];
      ghost var before := values;
      values := values[Name(e.id) := e.value];
      forall n <- values.Keys ensures LastItem(Contents(all[..i + 1]), n) == Just(values[n]) {
        assert Name(e.id) != n ==> n in before.Keys;
        LastItemOne(Contents(all[..i]), Item(e.id, e.value), n);
      }
    }
    assert all[..|all|] == all;
  }

  // ----- plain names

  lemma {:induction false} WorthLast(ctx: Context, c: seq<Leaf>, n: Maybe<string>)
    requires PlainName(ctx, n) && forall x <- c :: PlainName(ctx, Name(x.id)) ==> x.value == x.given
    ensures LastItem(Worth(ctx, c), n) == LastItem(Contents(c), n)
  {
    if c != [] {
      assert Contents(c)[1..] == Contents(c[1..]);
      assert c[0] in c && forall x <- c[1..] :: x in c;
      WorthLast(ctx, c[1..], n);
      if PlainName(ctx, Name(c[0].id)) {
        assert Worth(ctx, c)[1..] == Worth(ctx, c[1..]);
      }
    }
  }

  lemma {:induction false} AllToldLast(ctx: Context, uses: seq<Use>, n: Maybe<string>)
    requires PlainName(ctx, n) && Telling(uses)
    ensures LastItem(AllTold(ctx, uses), n) == LastTold(uses, n)
  {
    if uses != [] {
      assert uses[0] in uses && forall u <- uses[1..] :: u in uses;
      AllToldLast(ctx, uses[1..], n);
      if PlainName(ctx, Name(uses[0].leaf)) {
        assert AllTold(ctx, uses)[1..] == AllTold(ctx, uses[1..]);
      }
    }
  }

  // ----- names in what adds up

  lemma {:induction false} LastItemSet(st: seq<Item>, k: nat, v: Value, n: Maybe<string>)
    requires k < |st| && Name(st[k].id) != n
    ensures LastItem(st[k := Item(st[k].id, v)], n) == LastItem(st, n)
  {
    var w := st[k := Item(st[k].id, v)];
    if k == 0 {
      assert w[1..] == st[1..];
    } else {
      assert w[1..] == st[1..][k - 1 := Item(st[k].id, v)];
      LastItemSet(st[1..], k - 1, v, n);
    }
  }

  /** What a step does to the last value under a name that does not accumulate. */
  lemma AddLast(mode: Mode, st: seq<Item>, e: Item, n: Maybe<string>)
    requires Add(mode, st, e).Just? && (Name(e.id) == n ==> mode.Plain?)
    ensures LastItem(Add(mode, st, e).value, n) == if Name(e.id) == n then Just(e.value) else LastItem(st, n)
  {
    var k := FirstItem(st, Name(e.id));
    if k.Just? && !mode.Plain? {
      LastItemSet(st, k.value, Add(mode, st, e).value[k.value].value, n);
    } else {
      LastItemOne(st, Item(e.id, Collected(mode, e.value)), n);
    }
  }

  lemma {:induction false} PlainFrom(kinds: Id -> Mode, st: seq<Item>, uses: seq<Use>, n: Maybe<string>)
    requires Telling(uses) && AllOfMode(kinds, uses, n, Plain) && Tally(kinds, st, uses).Just?
    ensures LastItem(Tally(kinds, st, uses).value, n) == if LastTold(uses, n).Just? then LastTold(uses, n) else LastItem(st, n)
    decreases |uses|
  {
    hide Add, Told;
    if uses != [] {
      var u, e := uses[0], Told(uses[0]);
      assert u in uses && forall v <- uses[1..] :: v in uses;
      AddLast(kinds(u.leaf), st, e, n);
      PlainFrom(kinds, Add(kinds(u.leaf), st, e).value, uses[1..], n);
    }
  }

  /** No two entries have the name. */
  ghost predicate OneEntry(st: seq<Item>, n: Maybe<string>) {
    forall i, j :: 0 <= i < j < |st| ==> Name(st[i].id) != n || Name(st[j].id) != n
  }

  lemma AddOneEntry(mode: Mode, st: seq<Item>, e: Item, n: Maybe<string>)
    requires OneEntry(st, n) && Add(mode, st, e).Just? && (Name(e.id) == n ==> !mode.Plain?)
    ensures OneEntry(Add(mode, st, e).value, n)
  {}

  lemma {:induction false} TallyOneEntry(kinds: Id -> Mode, st: seq<Item>, uses: seq<Use>, n: Maybe<string>)
    requires Telling(uses) && OneEntry(st, n) && Tally(kinds, st, uses).Just?
    requires forall u <- uses :: Name(u.leaf) == n ==> !kinds(u.leaf).Plain?
    ensures OneEntry(Tally(kinds, st, uses).value, n)
    decreases |uses|
  {
    hide Add, Told;
    if uses != [] {
      var u, e := uses[0], Told(uses[0]);
      assert u in uses && forall v <- uses[1..] :: v in uses;
      AddOneEntry(kinds(u.leaf), st, e, n);
      TallyOneEntry(kinds, Add(kinds(u.leaf), st, e).value, uses[1..], n);
    }
  }

  /** Of a single entry the first value is the last. */
  lemma {:induction false} OneIsLast(st: seq<Item>, n: Maybe<string>)
    requires OneEntry(st, n)
    ensures LastItem(st, n) == if FirstItem(st, n).Just? then Just(st[FirstItem(st, n).value].value) else Nothing
  {
    if st != [] {
      assert forall i, j :: 0 <= i < j < |st[1..]| ==> st[1..][i] == st[i + 1] && st[1..][j] == st[j + 1];
      OneIsLast(st[1..], n);
      if Name(st[0].id) == n {
        forall e <- st[1..] ensures Name(e.id) != n { var j :| 0 <= j < |st[1..]| && st[1..][j] == e; assert st[j + 1] == e; }
        NoItem(st[1..], n);
      }
    }
  }

  /** The value that a name must have after some uses: for a plain one what its last
      use tells, for a counting one the number of its uses, for a listing one that
      takes texts these in order. */
  ghost predicate Sums(kinds: Id -> Mode, uses: seq<Use>, k: nat, v: Value)
    requires LastUse(uses, k)
  {
    var n := Name(uses[k].leaf);
    && (AllOfMode(kinds, uses, n, Plain) ==> v == if uses[k].leaf.Cmd? then Flag(true) else uses[k].item.value)
    && (AllOfMode(kinds, uses, n, Counting) ==> v == Num(CountOf(uses, n)))
    && (AllOfMode(kinds, uses, n, Listing) && TellTexts(uses, n) ==> v == List(TextsOf(uses, n)))
  }

  lemma {:induction false} CountedOnce(uses: seq<Use>, k: nat)
    requires k < |uses|
    ensures CountOf(uses, Name(uses[k].leaf)) > 0
  {
    if k > 0 { CountedOnce(uses[1..], k - 1); }
  }

  /** A use tells the text of its argument, that its command was given, or the value its
      option was given with. */
  lemma ToldValue(u: Use)
    ensures Told(u).value == if u.leaf.Cmd? then Flag(true) else u.item.value
  {}

  /** That is the last value among what adds up. */
  lemma TallySums(kinds: Id -> Mode, uses: seq<Use>, k: nat)
    requires Telling(uses) && Tally(kinds, [], uses).Just? && LastUse(uses, k)
    ensures var v := LastItem(Tally(kinds, [], uses).value, Name(uses[k].leaf)); v.Just? ==> Sums(kinds, uses, k, v.value)
  {
    var n, st := Name(uses[k].leaf), Tally(kinds, [], uses).value;
    ToldValue(uses[k]);
    hide Tally, Told, LastItem, TextsOf, TellTexts;
    CountedOnce(uses, k);
    LastToldAt(uses, k);
    if AllOfMode(kinds, uses, n, Plain) { PlainFrom(kinds, [], uses, n); }
    if AllOfMode(kinds, uses, n, Counting) || AllOfMode(kinds, uses, n, Listing) {
      TallyOneEntry(kinds, [], uses, n);
      OneIsLast(st, n);
    }
    if AllOfMode(kinds, uses, n, Counting) { CountsUses(kinds, uses, n); }
    if AllOfMode(kinds, uses, n, Listing) && TellTexts(uses, n) { ListsUses(kinds, uses, n); }
  }

  // ----- the dictionary of a match

  lemma {:induction false} FlatMapped<A, B>(f: A -> B, p: Pattern<A>)
    ensures |Flat(MapTree(f, p))| == |Flat(p)|
    ensures forall k :: 0 <= k < |Flat(p)| ==> Flat(MapTree(f, p))[k] == f(Flat(p)[k])
    decreases p, 1
  {
    match p
    case Tip(_) =>
    case Branch(_, cs) => FlatAllMapped(f, cs);
  }

  lemma {:induction false} FlatAllMapped<A, B>(f: A -> B, ps: seq<Pattern<A>>)
    ensures |FlatAll(MapAll(f, ps))| == |FlatAll(ps)|
    ensures forall k :: 0 <= k < |FlatAll(ps)| ==> FlatAll(MapAll(f, ps))[k] == f(FlatAll(ps)[k])
    decreases ps, 0
  {
    if ps != [] {
      FlatMapped(f, ps[0]);
      FlatAllMapped(f, ps[1..]);
    }
  }

  /** What a leaf that no use has is answered with: the value it was created with, or,
      if a use could give it twice, no words, the words of its text, or zero. */
  ghost function Default(p: Pattern<Id>, spec: P.LeafSpec): Value {
    if !Reusable(p, spec.id) then spec.value
    else
      match spec.id
      case Cmd(_) => Num(0)
      case Opt(_, _, 0) => Num(0)
      case _ => if spec.value.Null? then List([]) else if spec.value.Str? then List(Split(spec.value.s)) else spec.value
  }

  /** Exactly the names of the usage have a value. */
  ghost predicate Complete(values: Values, t: P.Tree) {
    values.Keys == set l <- Flat(t) :: Name(l.id)
  }

  /** Every name that no use has, has the default of the last leaf with that name. */
  ghost predicate Defaulted(values: Values, p: Pattern<Id>, t: P.Tree, uses: seq<Use>) {
    forall k: nat :: LastNamed(Flat(p), k) && k < |Flat(t)| && Name(Flat(p)[k]) !in UsedNames(uses) ==>
      Name(Flat(p)[k]) in values && values[Name(Flat(p)[k])] == Default(p, Flat(t)[k])
  }

  /** Every agreed name that is used, and whose leaf no use can give twice, has what its
      last use tells: the text of an argument, that a command was given, the value of an
      option. */
  ghost predicate Tells(values: Values, p: Pattern<Id>, uses: seq<Use>, agreed: iset<Maybe<string>>) {
    forall k: nat :: LastUse(uses, k) && Name(uses[k].leaf) in agreed && !Reusable(p, uses[k].leaf) ==>
      && Name(uses[k].leaf) in values
      && values[Name(uses[k].leaf)] == if uses[k].leaf.Cmd? then Flag(true) else uses[k].item.value
  }

  /** Every name that is used has what its uses add up to. */
  ghost predicate SumsUp(values: Values, p: Pattern<Id>, uses: seq<Use>) {
    forall k: nat :: LastUse(uses, k) ==>
      Name(uses[k].leaf) in values && Sums(KindsOf(p), uses, k, values[Name(uses[k].leaf)])
  }

  /** What the dictionary holds of the two lists. */
  ghost predicate IsDictionary(values: Values, flat: seq<Leaf>, c: seq<Leaf>)
    reads flat, c
  {
    && values.Keys == Names(flat + c)
    && forall n <- values.Keys :: LastItem(Contents(flat + c), n) == Just(values[n])
  }

  lemma NamesJoined(a: seq<Leaf>, b: seq<Leaf>)
    ensures Names(a + b) == Names(a) + Names(b)
  {}

  /** A collected name has its last collected value, another one that of its last leaf. */
  lemma DictionaryAt(values: Values, flat: seq<Leaf>, c: seq<Leaf>, n: Maybe<string>)
    requires IsDictionary(values, flat, c) && n in Names(flat) + Names(c)
    ensures n in values && LastItem(Contents(if n in Names(c) then c else flat), n) == Just(values[n])
  {
    NamesJoined(flat, c);
    assert Contents(flat + c) == Contents(flat) + Contents(c);
    LastItemAppend(Contents(flat), Contents(c), n);
    LastIffNamed(c, n);
  }

  /** The fixed tree stands for the parsed tree: each leaf started with what was parsed. */
  ghost predicate StandsFor(shared: Pattern<Leaf>, t: P.Tree, first: map<Leaf, Value>) {
    && Ids(shared) == MapTree(P.SpecId, t)
    && (forall l <- Flat(shared) :: l in first && P.LeafSpec(l.id, first[l]) in Flat(t))
    && forall l <- Flat(t), m <- Flat(t) :: l.id == m.id ==> l == m
  }

  lemma LeavesStand(shared: Pattern<Leaf>, t: P.Tree, first: map<Leaf, Value>)
    requires StandsFor(shared, t, first)
    ensures var p := MapTree(P.SpecId, t);
            |Flat(shared)| == |Flat(t)| == |Flat(p)|
            && forall k :: 0 <= k < |Flat(t)| ==> Flat(p)[k] == Flat(t)[k].id == Flat(shared)[k].id && Flat(t)[k].value == first[Flat(shared)[k]]
  {
    FlatMapped(P.SpecId, t);
    FlatMapped(IdOf, shared);
    forall k | 0 <= k < |Flat(t)| ensures Flat(t)[k].value == first[Flat(shared)[k]] {
      var l := Flat(shared)[k];
      assert l in Flat(shared) && P.LeafSpec(l.id, first[l]) in Flat(t) && Flat(t)[k] in Flat(t);
    }
  }

  ghost function IdNames(ids: seq<Id>): set<Maybe<string>> {
    set i <- ids :: Name(i)
  }

  lemma UsedAreNamed(p: Pattern<Id>, uses: seq<Use>)
    requires Lang(p, uses)
    ensures UsedNames(uses) <= IdNames(Flat(p))
  {
    DocoptNeeds.LangUses(p, uses);
  }

  lemma NamesByIds(flat: seq<Leaf>, ids: seq<Id>)
    requires |flat| == |ids| && forall k :: 0 <= k < |ids| ==> flat[k].id == ids[k]
    ensures Names(flat) == IdNames(ids)
  {
    forall i <- ids ensures Name(i) in Names(flat) {
      var k :| 0 <= k < |ids| && ids[k] == i;
      assert flat[k] in flat;
    }
  }

  lemma SpecsByIds(specs: seq<P.LeafSpec>, ids: seq<Id>)
    requires |specs| == |ids| && forall k :: 0 <= k < |ids| ==> specs[k].id == ids[k]
    ensures (set l <- specs :: Name(l.id)) == IdNames(ids)
  {
    forall i <- ids ensures Name(i) in set l <- specs :: Name(l.id) {
      var k :| 0 <= k < |ids| && ids[k] == i;
      assert specs[k] in specs;
    }
  }

  lemma CompleteHeld(values: Values, shared: Pattern<Leaf>, t: P.Tree, first: map<Leaf, Value>, c: seq<Leaf>, uses: seq<Use>)
    requires IsDictionary(values, Flat(shared), c) && StandsFor(shared, t, first)
    requires Names(c) == UsedNames(uses) && Lang(MapTree(P.SpecId, t), uses)
    ensures Complete(values, t)
  {
    var p := MapTree(P.SpecId, t);
    LeavesStand(shared, t, first);
    hide StandsFor, Names, UsedNames, IdNames, Contents, LastItem, Lang;
    NamesJoined(Flat(shared), c);
    NamesByIds(Flat(shared), Flat(p));
    SpecsByIds(Flat(t), Flat(p));
    UsedAreNamed(p, uses);
  }

  lemma DefaultedHeld(values: Values, shared: Pattern<Leaf>, t: P.Tree, first: map<Leaf, Value>, c: seq<Leaf>, uses: seq<Use>)
    requires IsDictionary(values, Flat(shared), c) && StandsFor(shared, t, first) && Accumulates(shared, first)
    requires Names(c) == UsedNames(uses)
    ensures Defaulted(values, MapTree(P.SpecId, t), t, uses)
  {
    var p, flat := MapTree(P.SpecId, t), Flat(shared);
    LeavesStand(shared, t, first);
    forall k: nat | LastNamed(Flat(p), k) && k < |Flat(t)| && Name(Flat(p)[k]) !in UsedNames(uses)
      ensures Name(Flat(p)[k]) in values && values[Name(Flat(p)[k])] == Default(p, Flat(t)[k])
    {
      var l := flat[k];
      assert l in flat && Name(l.id) in Names(flat);
      DictionaryAt(values, flat, c, Name(l.id));
      LastItemAt(flat, Flat(p), k);
    }
  }

  lemma TellsHeld(values: Values, shared: Pattern<Leaf>, ctx: Context, c: seq<Leaf>, uses: seq<Use>, agreed: iset<Maybe<string>>)
    requires IsDictionary(values, Flat(shared), c) && Answers(ctx, c, uses) && Telling(uses)
    requires PlainUnlessReusable(ctx, shared) && Lang(Ids(shared), uses) && forall n <- agreed :: ctx.ruled(n)
    ensures Tells(values, Ids(shared), uses, agreed)
  {
    var p := Ids(shared);
    DocoptNeeds.LangUses(p, uses);
    FlatMapped(IdOf, shared);
    forall k: nat | LastUse(uses, k) && Name(uses[k].leaf) in agreed && !Reusable(p, uses[k].leaf)
      ensures Name(uses[k].leaf) in values && values[Name(uses[k].leaf)] == if uses[k].leaf.Cmd? then Flag(true) else uses[k].item.value
    {
      ToldValue(uses[k]);
      var n := Name(uses[k].leaf);
      assert uses[k] in uses;
      var i :| 0 <= i < |Flat(p)| && Flat(p)[i] == uses[k].leaf;
      assert Flat(shared)[i] in Flat(shared) && PlainName(ctx, n);
      DictionaryAt(values, Flat(shared), c, n);
      WorthLast(ctx, c, n);
      AllToldLast(ctx, uses, n);
      LastToldAt(uses, k);
    }
  }

  lemma SumsHeld(values: Values, flat: seq<Leaf>, p: Pattern<Id>, c: seq<Leaf>, uses: seq<Use>)
    requires IsDictionary(values, flat, c) && Names(c) == UsedNames(uses) && Telling(uses)
    requires Tally(KindsOf(p), [], uses) == Just(Contents(c))
    ensures SumsUp(values, p, uses)
  {
    forall k: nat | LastUse(uses, k)
      ensures Name(uses[k].leaf) in values && Sums(KindsOf(p), uses, k, values[Name(uses[k].leaf)])
    {
      assert uses[k] in uses;
      DictionaryAt(values, flat, c, Name(uses[k].leaf));
      TallySums(KindsOf(p), uses, k);
    }
  }
}
