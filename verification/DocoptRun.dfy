// The matcher on the heap: leaves are shared objects whose values it rewrites,
// also on branches that fail in the end. What it consumes is nevertheless a
// function of the command line alone. No addition of values fails when the leaves
// of each name accumulate alike and the command line holds what they add; where no
// failed part takes anything, additions fail exactly where adding up the uses does.
module DocoptRun {
  import opened Basics
  import opened DocoptPattern
  import opened DocoptMatch
  import opened DocoptFix
  import opened DocoptTally

  // ----- what a run relies on

  /** The values of the leaves that a run leaves alone, the positionals of the
      command line and the leaves of the pattern, and the mode of each name. What
      is said of modes is said only of names where they rule: where the leaves of
      the name accumulate alike, and the command line offers what they add. Kinds are the
      modes of single leaves, by their class and names. */
  datatype Context = Context(kept: map<Leaf, Value>, modes: Maybe<string> -> Mode, ruled: Maybe<string> -> bool, kinds: Id -> Mode)

  /** How one element of the command line looks to the matcher: the text of a
      positional, the value an option was given with. */
  ghost function View(ctx: Context, a: Leaf): Item {
    Item(a.id, if a in ctx.kept then ctx.kept[a] else a.given)
  }

  ghost function Views(ctx: Context, left: seq<Leaf>): (r: seq<Item>)
    ensures |r| == |left|
  {
    seq(|left|, i requires 0 <= i < |left| => View(ctx, left[i]))
  }

  ghost predicate Frozen(ctx: Context)
    reads ctx.kept.Keys`value
  {
    forall a <- ctx.kept.Keys :: a.value == ctx.kept[a]
  }

  ghost predicate Argv(ctx: Context, left: seq<Leaf>) {
    && (forall a <- left :: a.id.Arg? <==> a in ctx.kept)
    && (forall a <- left :: a.id.Arg? ==> ctx.kept[a].Str?)
    && ParsedArgv(Views(ctx, left))
  }

  ghost predicate Apart(ctx: Context, collected: seq<Leaf>) {
    forall c <- collected :: c !in ctx.kept
  }

  /** A leaf of the pattern accumulates as its name does; commands never hold lists. */
  ghost predicate Governed(ctx: Context, s: Leaf) {
    s in ctx.kept && (ctx.ruled(Name(s.id)) ==> ModeOf(ctx.kept[s]) == ctx.modes(Name(s.id)) && (s.id.Cmd? ==> !ctx.kept[s].List?))
  }

  ghost predicate AllGoverned(ctx: Context, leaves: seq<Leaf>) {
    forall s <- leaves :: Governed(ctx, s)
  }

  /** A value that an option on the command line may hold. */
  predicate Offered(mode: Mode, given: Value, v: Value) {
    match mode
    case Plain => v == given
    case Counting => Number(v).Just?
    case Listing => v.Str? || v.List?
  }

  /** A value that a collected leaf may hold. */
  predicate Gathered(mode: Mode, given: Value, v: Value) {
    match mode
    case Plain => v == given
    case Counting => Number(v).Just?
    case Listing => v.List?
  }

  ghost predicate Typed(ctx: Context, left: seq<Leaf>, collected: seq<Leaf>)
    reads left`value, collected`value
  {
    && (forall a <- left :: !a.id.Arg? && ctx.ruled(Name(a.id)) ==> Offered(ctx.modes(Name(a.id)), a.given, a.value))
    && (forall c <- collected :: ctx.ruled(Name(c.id)) ==> Gathered(ctx.modes(Name(c.id)), c.given, c.value))
  }

  /** A value is either kept or becomes an accumulated one. */
  predicate Rewritten(mode: Mode, before: Value, after: Value) {
    after == before || (mode.Counting? && after.Num?) || (mode.Listing? && after.List?)
  }

  /** Every leaf held `before` its value or one that was rewritten since. */
  ghost predicate Since(ctx: Context, before: map<Leaf, Value>)
    reads before.Keys`value
  {
    forall x <- before.Keys :: ctx.ruled(Name(x.id)) ==> Rewritten(ctx.modes(Name(x.id)), before[x], x.value)
  }

  ghost function Values(left: seq<Leaf>, collected: seq<Leaf>): map<Leaf, Value>
    reads left`value, collected`value
  {
    map x | x in (set a <- left) + (set c <- collected) :: x.value
  }

  /** The leaves were typed before and only rewritten since. */
  ghost predicate TypedBefore(ctx: Context, before: map<Leaf, Value>, left: seq<Leaf>, collected: seq<Leaf>) {
    && (forall a <- left :: a in before && (ctx.ruled(Name(a.id)) && !a.id.Arg? ==> Offered(ctx.modes(Name(a.id)), a.given, before[a])))
    && (forall c <- collected :: c in before && (ctx.ruled(Name(c.id)) ==> Gathered(ctx.modes(Name(c.id)), c.given, before[c])))
  }

  lemma AllTyped(ctx: Context, left: seq<Leaf>, collected: seq<Leaf>)
    requires Typed(ctx, left, collected)
    ensures TypedBefore(ctx, Values(left, collected), left, collected) && Since(ctx, Values(left, collected))
  {}

  lemma StillTyped(ctx: Context, before: map<Leaf, Value>, left: seq<Leaf>, collected: seq<Leaf>)
    requires TypedBefore(ctx, before, left, collected) && Since(ctx, before)
    ensures Typed(ctx, left, collected)
  {}

  // ----- leaves

  function FirstNamed(collected: seq<Leaf>, name: Maybe<string>): (r: Maybe<nat>)
    ensures r.Just? ==> r.value < |collected| && Name(collected[r.value].id) == name
    ensures r.Just? ==> forall j :: 0 <= j < r.value ==> Name(collected[j].id) != name
    ensures r.Nothing? ==> forall c <- collected :: Name(c.id) != name
  {
    if collected == [] then Nothing
    else if Name(collected[0].id) == name then Just(0)
    else Shift(FirstNamed(collected[1..], name))
  }

  ghost function Names(collected: seq<Leaf>): set<Maybe<string>> {
    set c <- collected :: Name(c.id)
  }

  ghost function UsedNames(uses: seq<Use>): set<Maybe<string>> {
    set u <- uses :: Name(u.leaf)
  }

  /** Modes rule the name, and it does not accumulate. */
  ghost predicate PlainName(ctx: Context, n: Maybe<string>) {
    ctx.ruled(n) && ctx.modes(n).Plain?
  }

  ghost predicate AllRuled(ctx: Context) {
    forall n: Maybe<string> :: ctx.ruled(n)
  }

  /** The collected leaves of plain names, with their values. */
  ghost function Worth(ctx: Context, c: seq<Leaf>): seq<Item> {
    if c == [] then []
    else if PlainName(ctx, Name(c[0].id)) then [Item(c[0].id, c[0].given)] + Worth(ctx, c[1..])
    else Worth(ctx, c[1..])
  }

  /** What the uses of plain names tell. */
  ghost function AllTold(ctx: Context, uses: seq<Use>): seq<Item> {
    if uses == [] then []
    else if PlainName(ctx, Name(uses[0].leaf)) then [Told(uses[0])] + AllTold(ctx, uses[1..])
    else AllTold(ctx, uses[1..])
  }

  lemma {:induction false} WorthAppend(ctx: Context, a: seq<Leaf>, b: seq<Leaf>)
    ensures Worth(ctx, a + b) == Worth(ctx, a) + Worth(ctx, b)
  {
    if a == [] {
      assert a + b == b;
    } else {
      assert (a + b)[1..] == a[1..] + b;
      WorthAppend(ctx, a[1..], b);
    }
  }

  lemma WorthOne(ctx: Context, collected: seq<Leaf>, x: Leaf)
    ensures Worth(ctx, collected + [x]) == Worth(ctx, collected) + if PlainName(ctx, Name(x.id)) then [Item(x.id, x.given)] else []
  {
    WorthAppend(ctx, collected, [x]);
    assert [x][1..] == [];
  }

  lemma {:induction false} AllToldAppend(ctx: Context, a: seq<Use>, b: seq<Use>)
    ensures AllTold(ctx, a + b) == AllTold(ctx, a) + AllTold(ctx, b)
  {
    if a == [] {
      assert a + b == b;
    } else {
      assert (a + b)[1..] == a[1..] + b;
      AllToldAppend(ctx, a[1..], b);
    }
  }

  /** What was collected is kept; the names grow by those used, and the leaves of plain
      names by what the uses tell, in order. */
  ghost predicate Grew(ctx: Context, collected: seq<Leaf>, c: seq<Leaf>, uses: seq<Use>) {
    && collected <= c
    && Names(c) == Names(collected) + UsedNames(uses)
    && Worth(ctx, c) == Worth(ctx, collected) + AllTold(ctx, uses)
  }

  lemma GrewNot(ctx: Context, collected: seq<Leaf>)
    ensures Grew(ctx, collected, collected, [])
  {}

  lemma GrewTwice(ctx: Context, collected: seq<Leaf>, c: seq<Leaf>, d: seq<Leaf>, u: seq<Use>, v: seq<Use>)
    requires Grew(ctx, collected, c, u) && Grew(ctx, c, d, v)
    ensures Grew(ctx, collected, d, u + v)
  {
    assert UsedNames(u + v) == UsedNames(u) + UsedNames(v);
    AllToldAppend(ctx, u, v);
  }

  lemma GrewOne(ctx: Context, collected: seq<Leaf>, c: seq<Leaf>, u: Use)
    requires collected <= c && Names(c) == Names(collected) + {Name(u.leaf)}
    requires Worth(ctx, c) == Worth(ctx, collected) + if PlainName(ctx, Name(u.leaf)) then [Told(u)] else []
    ensures Grew(ctx, collected, c, [u])
  {
    assert [u][0] in [u] && [u][1..] == [];
  }

  /** The state after a run that was given (left, collected) and hands on (l, c). */
  ghost predicate Handed(ctx: Context, left: seq<Leaf>, l: seq<Leaf>, c: seq<Leaf>) {
    && Apart(ctx, c)
    && (forall a <- l :: a in left) && Argv(ctx, l)
    && |l| <= |left| && (|l| == |left| ==> l == left)
  }

  /** The run agrees with an outcome that does not know what was collected. */
  ghost predicate Agrees(ctx: Context, ok: bool, l: seq<Leaf>, o: Outcome) {
    ok == o.ok && Views(ctx, l) == o.rest
  }

  /** The outcome of a run from (left, collected): it agrees with the outcome,
      keeps what was collected and adds exactly what was used. */
  ghost predicate Reports(ctx: Context, collected: seq<Leaf>, ok: bool, l: seq<Leaf>, c: seq<Leaf>, o: Outcome) {
    && Agrees(ctx, ok, l, o)
    && Grew(ctx, collected, c, o.uses)
  }

  /** The search, one element on. */
  lemma SingleOn(id: Id, v: seq<Item>, i: nat)
    requires i < |v|
    ensures SingleMatch(id, v[i..]) ==
              if id.Opt? then (if Name(id) == Name(v[i].id) then Just(0) else Shift(SingleMatch(id, v[i + 1..])))
              else if v[i].id.Arg? then (if id.Arg? || v[i].value == Str(id.cmdName) then Just(0) else Nothing)
              else Shift(SingleMatch(id, v[i + 1..]))
  {
    assert v[i..][1..] == v[i + 1..] && v[i..][0] == v[i];
  }

  method SingleMatchAt(leaf: Leaf, left: seq<Leaf>, ghost ctx: Context) returns (r: Maybe<nat>)
    requires Frozen(ctx) && Argv(ctx, left)
    ensures r == SingleMatch(leaf.id, Views(ctx, left))
  {
    hide SingleMatch;
    ghost var v := Views(ctx, left);
    assert v[0..] == v;
    for i := 0 to |left|
      invariant SingleMatch(leaf.id, v) == ShiftBy(SingleMatch(leaf.id, v[i..]), i)
    {
      var a := left[i];
      assert v[i] == View(ctx, a);
      SingleOn(leaf.id, v, i);
      if leaf.id.Opt? {
        if Name(leaf.id) == Name(a.id) { return Just(i); }
      } else if a.id.Arg? {
        return if leaf.id.Arg? || a.value == Str(leaf.id.cmdName) then Just(i) else Nothing;
      }
    }
    NoneLeft(leaf.id, v);
    return Nothing;
  }

  lemma NoneLeft(id: Id, v: seq<Item>)
    ensures SingleMatch(id, v[|v|..]) == Nothing
  {}

  function ShiftBy(r: Maybe<nat>, n: nat): Maybe<nat> {
    if r.Just? then Just(r.value + n) else Nothing
  }

  /** Adding the increment of a found value to the collected value raises a TypeError. */
  predicate Clashes(self: Leaf, found: Value, collected: seq<Leaf>)
    reads self`value, collected`value
  {
    var k := FirstNamed(collected, Name(self.id));
    ModeOf(self.value) != Plain && k.Just? && Plus(collected[k.value].value, Increment(ModeOf(self.value), found)).Nothing?
  }

  /** What was collected, as values. */
  ghost function Contents(c: seq<Leaf>): (r: seq<Item>)
    reads c
    ensures |r| == |c|
  {
    seq(|c|, i requires 0 <= i < |c| reads c => Item(c[i].id, c[i].value))
  }

  ghost predicate Distinct(s: seq<Leaf>) {
    forall i, j :: 0 <= i < j < |s| ==> s[i] != s[j]
  }

  /** The elements left are objects of their own, and none was rewritten yet. */
  ghost predicate Untouched(l: seq<Leaf>, c: seq<Leaf>)
    reads l`value
  {
    && Distinct(l) && Distinct(c) && (forall a <- l :: a !in c)
    && (forall a <- l :: !a.id.Arg? ==> a.value == a.given)
  }

  lemma {:induction false} FirstOfContents(c: seq<Leaf>, name: Maybe<string>)
    ensures FirstItem(Contents(c), name) == FirstNamed(c, name)
  {
    if c != [] {
      assert Contents(c)[1..] == Contents(c[1..]);
      FirstOfContents(c[1..], name);
    }
  }

  /** Adds a found leaf to what was collected; an accumulating leaf that was
      collected before takes the value in instead, or the addition raises. */
  method Gather(self: Leaf, found: Leaf, collected: seq<Leaf>) returns (raised: bool, c: seq<Leaf>)
    requires Name(found.id) == Name(self.id) && (ModeOf(self.value) != Plain ==> self != found && self !in collected)
    modifies found`value, collected`value
    ensures raised <==> old(Clashes(self, found.value, collected))
    ensures Distinct(collected) && found !in collected ==>
              var sum := Add(ModeOf(old(self.value)), old(Contents(collected)), old(Item(found.id, found.value)));
              Distinct(c) && (raised <==> sum.Nothing?) && (!raised ==> Contents(c) == sum.value)
    ensures var k := FirstNamed(collected, Name(self.id));
            if raised then
              c == collected && unchanged(found`value) && unchanged(collected`value)
            else if ModeOf(self.value) == Plain then
              c == collected + [found] && unchanged(found`value) && unchanged(collected`value)
            else if k.Nothing? then
              c == collected + [found] && found.value == Increment(ModeOf(self.value), old(found.value)) && unchanged(collected`value)
            else
              && c == collected
              && Plus(old(collected[k.value].value), Increment(ModeOf(self.value), old(found.value))) == Just(collected[k.value].value)
              && forall x :: (x in collected || x == found) && x != collected[k.value] ==> x.value == old(x.value)
  {
    FirstOfContents(collected, Name(self.id));
    if ModeOf(self.value) == Plain {
      return false, collected + [found];
    }
    var increment := if self.value.Num? then Num(1)
                     else if found.value.Str? then List([found.value.s]) else found.value;
    var k := 0;
    while k < |collected| && Name(collected[k].id) != Name(self.id)
      invariant k <= |collected| && forall j :: 0 <= j < k ==> Name(collected[j].id) != Name(self.id)
    {
      k := k + 1;
    }
    if k == |collected| {
      found.value := increment;
      return false, collected + [found];
    }
    var sum := Plus(collected[k].value, increment);
    if sum.Nothing? {
      return true, collected;
    }
    collected[k].value := sum.value;
    return false, collected;
  }

  /** An increment, and what it adds up to, are of the mode of their name. */
  lemma SumsGathered(mode: Mode, found: Value, v: Value)
    requires !mode.Plain? && (mode.Listing? ==> found.Str? || found.List?)
    ensures Gathered(mode, Null, Increment(mode, found))
    ensures mode.Counting? ==> Increment(mode, found).Num?
    ensures var sum := Plus(v, Increment(mode, found));
            Gathered(mode, Null, v) && sum.Just? ==> Gathered(mode, Null, sum.value) && (if mode.Counting? then sum.value.Num? else sum.value.List?)
  {}

  lemma NoClash(ctx: Context, self: Leaf, found: Value, collected: seq<Leaf>)
    requires Typed(ctx, [], collected) && ctx.ruled(Name(self.id)) && ModeOf(self.value) == ctx.modes(Name(self.id))
    requires self.value.List? ==> found.Str? || found.List?
    ensures !Clashes(self, found, collected)
  {
    var k := FirstNamed(collected, Name(self.id));
    if k.Just? { assert collected[k.value] in collected; }
  }

  /** What gathering keeps: values stay within the mode of their name, and where
      modes rule nothing is raised. */
  method Take(self: Leaf, found: Leaf, collected: seq<Leaf>, ghost before: map<Leaf, Value>, ghost ctx: Context)
    returns (raised: bool, c: seq<Leaf>)
    requires Name(found.id) == Name(self.id) && self != found && self !in collected && Typed(ctx, [], collected)
    requires ctx.ruled(Name(self.id)) ==>
               && ModeOf(self.value) == ctx.modes(Name(self.id))
               && (self.value.List? ==> found.value.Str? || found.value.List?)
               && (ModeOf(self.value) == Plain ==> found.value == found.given)
    modifies found`value, collected`value
    ensures raised <==> old(Clashes(self, found.value, collected))
    ensures Distinct(collected) && found !in collected ==>
              var sum := Add(ModeOf(old(self.value)), old(Contents(collected)), old(Item(found.id, found.value)));
              Distinct(c) && (raised <==> sum.Nothing?) && (!raised ==> Contents(c) == sum.value)
    ensures raised ==> !ctx.ruled(Name(self.id)) && c == collected && unchanged(found`value) && unchanged(collected`value)
    ensures Typed(ctx, [], c) && collected <= c && forall x <- c :: x in collected || x == found
    ensures old(Since(ctx, before)) ==> Since(ctx, before)
    ensures !raised ==> Names(c) == Names(collected) + {Name(self.id)}
    ensures !raised ==>
              Worth(ctx, c) == Worth(ctx, collected) + if PlainName(ctx, Name(self.id)) then [Item(found.id, found.given)] else []
  {
    hide Contents, Add, Clashes, Plus, Worth, Increment;
    ghost var k := FirstNamed(collected, Name(self.id));
    if ctx.ruled(Name(self.id)) {
      NoClash(ctx, self, found.value, collected);
      if !ctx.modes(Name(self.id)).Plain? {
        SumsGathered(ctx.modes(Name(self.id)), found.value, if k.Just? then collected[k.value].value else Null);
      }
    }
    raised, c := Gather(self, found, collected);
    WorthOne(ctx, collected, found);
    if k.Just? {
      assert Name(collected[k.value].id) in Names(collected);
    }
  }

  /** The leaf that stands for a hit: options are the element itself, the others are new. */
  method Stand(self: Leaf, hit: Leaf) returns (m: Leaf)
    requires hit.id.Arg? <==> !self.id.Opt?
    ensures self.id.Opt? ==> m == hit
    ensures !self.id.Opt? ==> fresh(m) && m.id == self.id && m.value == m.given == if self.id.Arg? then hit.value else Flag(true)
  {
    match self.id {
      case Arg(_) => m := new Leaf(self.id, hit.value);
      case Cmd(_) => m := new Leaf(self.id, Flag(true));
      case Opt(_, _, _) => m := hit;
    }
  }

  /** The value of what stands for a hit. */
  function Found(id: Id, hit: Leaf): Value
    reads hit`value
  {
    if id.Cmd? then Flag(true) else hit.value
  }

  lemma ViewsWithout(ctx: Context, left: seq<Leaf>, pos: nat)
    requires Argv(ctx, left) && pos < |left|
    ensures Views(ctx, Without(left, pos)) == Without(Views(ctx, left), pos) && Argv(ctx, Without(left, pos))
  {}

  /** The outcome of taking the element at pos, on the command line alone. */
  lemma LeafTaken(ctx: Context, id: Id, left: seq<Leaf>, pos: nat)
    requires Argv(ctx, left) && SingleMatch(id, Views(ctx, left)) == Just(pos)
    ensures var o, l := Match(Tip(id), Views(ctx, left)), Without(left, pos);
            Agrees(ctx, true, l, o) && Argv(ctx, l) && o.uses == [Use(id, View(ctx, left[pos]))]
    ensures id.Opt? && Name(id).Just? ==> Name(left[pos].id) == Name(id)
    ensures left[pos].id.Arg? ==> !id.Opt? || Name(id).Nothing?
    ensures !id.Opt? ==> left[pos].id.Arg?
  {
    var v, l := Views(ctx, left), Without(left, pos);
    assert v[pos] == View(ctx, left[pos]);
    ViewsWithout(ctx, left, pos);
    var o := Match(Tip(id), v);
    assert o.uses == [Use(id, v[pos])];
  }

  /** A hit was gathered, as adding it to what was collected has it; no other element
      of the command line was touched. */
  ghost predicate Struck(ctx: Context, self: Leaf, left: seq<Leaf>, hit: Leaf, st: seq<Item>, raised: bool, c: seq<Leaf>)
    requires self in ctx.kept
    reads left`value, c
  {
    && Distinct(left) && Distinct(c) && (forall x <- c :: x == hit || x !in left)
    && (forall a <- left :: a != hit && !a.id.Arg? ==> a.value == a.given)
    && var sum := Add(ModeOf(ctx.kept[self]), st, Told(Use(self.id, View(ctx, hit))));
       (raised <==> sum.Nothing?) && (!raised ==> Contents(c) == sum.value)
  }

  lemma MissTracked(ctx: Context, self: Leaf, left: seq<Leaf>, collected: seq<Leaf>)
    requires SingleMatch(self.id, Views(ctx, left)).Nothing?
    ensures Untouched(left, collected) ==>
              Tracked(ctx, true, Contents(collected), Match(Tip(self.id), Views(ctx, left)), false, false, left, collected)
  {}

  lemma HitTracked(ctx: Context, self: Leaf, left: seq<Leaf>, pos: nat, st: seq<Item>, raised: bool, c: seq<Leaf>)
    requires self in ctx.kept && ByKind(ctx, [self])
    requires SingleMatch(self.id, Views(ctx, left)) == Just(pos) && Struck(ctx, self, left, left[pos], st, raised, c)
    ensures Tracked(ctx, true, st, Match(Tip(self.id), Views(ctx, left)), raised, !raised, if raised then left else Without(left, pos), c)
  {
    hide SingleMatch;
    assert [self][0] in [self];
    assert Match(Tip(self.id), Views(ctx, left)).uses == [Use(self.id, View(ctx, left[pos]))];
    TallyOne(ctx.kinds, st, Use(self.id, View(ctx, left[pos])));
  }

  /** What stands for a hit is what its use tells, and is offered where modes rule. */
  lemma StandTells(ctx: Context, self: Leaf, hit: Leaf, standIn: Leaf)
    requires if self.id.Opt? then standIn == hit else standIn.id == self.id && standIn.value == Found(self.id, hit)
    requires if self.id.Opt? then Name(hit.id) == Name(self.id) && !hit.id.Arg? && hit !in ctx.kept
             else hit.id.Arg? && hit in ctx.kept && hit.value == ctx.kept[hit]
    ensures Name(standIn.id) == Name(self.id) && Name(Told(Use(self.id, View(ctx, hit))).id) == Name(self.id)
    ensures !self.id.Opt? || hit.value == hit.given ==> Item(standIn.id, standIn.value) == Told(Use(self.id, View(ctx, hit)))
    ensures standIn.given == standIn.value || self.id.Opt? ==> Item(standIn.id, standIn.given) == Told(Use(self.id, View(ctx, hit)))
  {}

  lemma StandTyped(ctx: Context, self: Leaf, left: seq<Leaf>, hit: Leaf, standIn: Leaf, collected: seq<Leaf>)
    requires Typed(ctx, left, collected) && Frozen(ctx) && Argv(ctx, left) && Governed(ctx, self) && hit in left
    requires if self.id.Opt? then standIn == hit && !hit.id.Arg? && Name(hit.id) == Name(self.id)
             else hit.id.Arg? && standIn.value == standIn.given == Found(self.id, hit)
    ensures Typed(ctx, [], collected)
    ensures ctx.ruled(Name(self.id)) ==>
              && (self.value.List? ==> standIn.value.Str? || standIn.value.List?)
              && (ModeOf(self.value) == Plain ==> standIn.value == standIn.given)
  {}

  lemma TypedJoined(ctx: Context, left: seq<Leaf>, collected: seq<Leaf>, c: seq<Leaf>)
    requires Typed(ctx, left, collected) && Typed(ctx, [], c)
    ensures Typed(ctx, left, c)
  {}

  /** Gathers what stands for a hit; the other leaves at hand keep their modes. */
  method TakeHit(self: Leaf, hit: Leaf, ghost left: seq<Leaf>, collected: seq<Leaf>, ghost ctx: Context)
    returns (raised: bool, c: seq<Leaf>)
    requires Frozen(ctx) && Argv(ctx, left) && Apart(ctx, collected) && Typed(ctx, left, collected)
    requires Governed(ctx, self) && hit in left
    requires if self.id.Opt? then Name(hit.id) == Name(self.id) && !hit.id.Arg? else hit.id.Arg?
    modifies left`value, collected`value
    ensures Frozen(ctx) && Apart(ctx, c) && Typed(ctx, left, c)
    ensures Since(ctx, old(Values(left, collected)))
    ensures forall x <- c :: x in collected || x in left || fresh(x)
    ensures raised ==> !ctx.ruled(Name(self.id)) && c == collected
    ensures raised <==> old(Clashes(self, Found(self.id, hit), collected))
    ensures old(Untouched(left, collected)) ==> Struck(ctx, self, left, hit, old(Contents(collected)), raised, c)
    ensures !raised ==> Grew(ctx, collected, c, [Use(self.id, View(ctx, hit))])
  {
    hide Contents, Add, Worth, Grew, Clashes, TypedBefore, Told, View, Typed, Offered, Gathered, Rewritten, Distinct, Since;
    ghost var before := Values(left, collected);
    AllTyped(ctx, left, collected);
    var standIn := Stand(self, hit);
    StandTells(ctx, self, hit, standIn);
    StandTyped(ctx, self, left, hit, standIn, collected);
    raised, c := Take(self, standIn, collected, before, ctx);
    StillTyped(ctx, before, left, collected);
    TypedJoined(ctx, left, collected, c);
    if !raised {
      GrewOne(ctx, collected, c, Use(self.id, View(ctx, hit)));
    }
  }

  /** Leaves accumulate by their class and names. */
  ghost predicate ByKind(ctx: Context, flat: seq<Leaf>) {
    forall s <- flat :: s in ctx.kept && ctx.kinds(s.id) == ModeOf(ctx.kept[s])
  }

  /** The run raised exactly when adding up what was taken fails; else, on success or
      when it takes nothing on failure, the sums are what was collected. */
  ghost predicate Tracked(ctx: Context, steady: bool, st: seq<Item>, d: Outcome, raised: bool, ok: bool, l: seq<Leaf>, c: seq<Leaf>)
    reads l`value, c
  {
    var t := Tally(ctx.kinds, st, d.uses);
    && (raised <==> t.Nothing?)
    && (!raised && (ok || steady) ==> Untouched(l, c) && Contents(c) == t.value)
  }

  method MatchLeaf(self: Leaf, left: seq<Leaf>, collected: seq<Leaf>, ghost ctx: Context)
    returns (raised: bool, ok: bool, l: seq<Leaf>, c: seq<Leaf>)
    requires Frozen(ctx) && Argv(ctx, left) && Apart(ctx, collected) && Typed(ctx, left, collected)
    requires Governed(ctx, self) && (self.id.Opt? ==> Name(self.id).Just?)
    modifies left`value, collected`value
    ensures Frozen(ctx) && Handed(ctx, left, l, c) && Typed(ctx, left, c) && (raised ==> !AllRuled(ctx))
    ensures Since(ctx, old(Values(left, collected)))
    ensures forall x <- c :: x in collected || x in left || fresh(x)
    ensures !raised ==> Reports(ctx, collected, ok, l, c, Match(Tip(self.id), Views(ctx, left)))
    ensures var pos := SingleMatch(self.id, Views(ctx, left));
            raised <==> pos.Just? && old(Clashes(self, Found(self.id, left[pos.value]), collected))
    ensures old(Untouched(left, collected)) && ByKind(ctx, [self]) ==>
              Tracked(ctx, true, old(Contents(collected)), Match(Tip(self.id), Views(ctx, left)), raised, ok, l, c)
  {
    hide Struck, Contents, Untouched, Tally, Since, Typed, Frozen;
    l, c := left, collected;
    ghost var st, untouched := Contents(collected), Untouched(left, collected) && ByKind(ctx, [self]);
    GrewNot(ctx, collected);
    var pos := SingleMatchAt(self, left, ctx);
    if pos.Nothing? {
      AllTyped(ctx, left, collected);
      MissTracked(ctx, self, left, collected);
      return false, false, left, collected;
    }
    LeafTaken(ctx, self.id, left, pos.value);
    raised, c := TakeHit(self, left[pos.value], left, collected, ctx);
    if untouched {
      HitTracked(ctx, self, left, pos.value, st, raised, c);
    }
    if raised {
      return true, false, left, collected;
    }
    return false, true, Without(left, pos.value), c;
  }

  // ----- branches

  ghost predicate Runnable(p: Pattern<Id>) {
    Unary(p) && Named(p)
  }

  ghost predicate AllRunnable(ps: seq<Pattern<Id>>) {
    (forall p <- ps :: Unary(p)) && (forall p <- ps :: Named(p))
  }

  method Run(p: Pattern<Leaf>, left: seq<Leaf>, collected: seq<Leaf>, ghost ctx: Context)
    returns (raised: bool, ok: bool, l: seq<Leaf>, c: seq<Leaf>)
    requires Frozen(ctx) && Argv(ctx, left) && Apart(ctx, collected) && Typed(ctx, left, collected)
    requires Runnable(Ids(p)) && AllGoverned(ctx, Flat(p))
    modifies left`value, collected`value
    ensures Frozen(ctx) && Handed(ctx, left, l, c) && Typed(ctx, left, c) && (raised ==> !AllRuled(ctx))
    ensures Since(ctx, old(Values(left, collected)))
    ensures forall x <- c :: x in collected || x in left || fresh(x)
    ensures !raised ==> Reports(ctx, collected, ok, l, c, Match(Ids(p), Views(ctx, left)))
    ensures Straight(Ids(p)) && ByKind(ctx, Flat(p)) && old(Untouched(left, collected)) ==>
              Tracked(ctx, Steady(Ids(p)), old(Contents(collected)), Draw(Ids(p), Views(ctx, left)), raised, ok, l, c)
    decreases p, 1
  {
    hide Frozen, Argv, Apart, Typed, Since, Handed, Reports, Contents, Untouched, Views, MatchEvery, MatchAny, MatchBest, DrawEvery;
    match p {
      case Tip(leaf) =>
        raised, ok, l, c := MatchLeaf(leaf, left, collected, ctx);
      case Branch(Required, cs) =>
        raised, ok, l, c := RunEvery(cs, left, collected, ctx);
      case Branch(OneOrMore, cs) =>
        assert Runnable(MapAll(IdOf, cs)[0]);
        MapAllAt(IdOf, cs, 0);
        FlatChild(cs, 0);
        raised, ok, l, c := RunRepeat(cs, left, collected, ctx);
      case Branch(Either, cs) =>
        raised, ok, l, c := RunBest(cs, left, collected, ctx);
      case Branch(_, cs) =>
        raised, ok, l, c := RunAny(cs, left, collected, ctx);
    }
  }

  /** Between two children: the state is as if only `done` had been used so far. */
  ghost predicate Between(ctx: Context, left: seq<Leaf>, collected: seq<Leaf>, l: seq<Leaf>, c: seq<Leaf>, done: seq<Use>) {
    && Handed(ctx, left, l, c)
    && Grew(ctx, collected, c, done)
  }

  /** The whole outcome, when `done` is behind and `tail` is still ahead. */
  ghost predicate Continues(whole: Outcome, done: seq<Use>, tail: Outcome) {
    whole.ok == tail.ok && whole.rest == tail.rest && whole.uses == done + tail.uses
  }

  lemma BetweenStep(ctx: Context, left: seq<Leaf>, collected: seq<Leaf>, l: seq<Leaf>, c: seq<Leaf>,
                    done: seq<Use>, ok: bool, l': seq<Leaf>, c': seq<Leaf>, o: Outcome)
    requires Between(ctx, left, collected, l, c, done)
    requires Handed(ctx, l, l', c') && Reports(ctx, c, ok, l', c', o)
    ensures Between(ctx, left, collected, l', c', done + o.uses)
  {
    GrewTwice(ctx, collected, c, c', done, o.uses);
  }

  /** The outcome of the children that are still ahead. */
  ghost function Tail(every: bool, ps: seq<Pattern<Id>>, v: seq<Item>): Outcome
    requires forall p <- ps :: Unary(p)
  {
    if every then MatchEvery(ps, v) else MatchAny(ps, v)
  }

  lemma TailOn(every: bool, whole: Outcome, done: seq<Use>, ps: seq<Pattern<Id>>, k: nat, v: seq<Item>)
    requires k < |ps| && (forall p <- ps :: Unary(p)) && Continues(whole, done, Tail(every, ps[k..], v))
    ensures var o := Match(ps[k], v);
            if o.ok || !every then Continues(whole, done + o.uses, Tail(every, ps[k + 1..], o.rest)) else !whole.ok
  {
    assert ps[k..][1..] == ps[k + 1..];
  }

  /** What holds between two children or turns. */
  ghost predicate Going(ctx: Context, left: seq<Leaf>, collected: seq<Leaf>, l: seq<Leaf>, c: seq<Leaf>, done: seq<Use>,
                        before: map<Leaf, Value>)
    reads ctx.kept.Keys`value, l`value, c`value, before.Keys`value
  {
    Frozen(ctx) && Between(ctx, left, collected, l, c, done) && Typed(ctx, l, c) && Since(ctx, before)
  }

  lemma GoingFrom(ctx: Context, left: seq<Leaf>, collected: seq<Leaf>)
    requires Frozen(ctx) && Argv(ctx, left) && Apart(ctx, collected) && Typed(ctx, left, collected)
    ensures Going(ctx, left, collected, left, collected, [], Values(left, collected))
  {}

  lemma GoingEnds(ctx: Context, left: seq<Leaf>, collected: seq<Leaf>, l: seq<Leaf>, c: seq<Leaf>, done: seq<Use>, before: map<Leaf, Value>)
    requires Going(ctx, left, collected, l, c, done, before) && TypedBefore(ctx, before, left, collected)
    ensures Frozen(ctx) && Since(ctx, before) && Typed(ctx, left, c)
    ensures Handed(ctx, left, l, c) && Grew(ctx, collected, c, done)
  {}

  lemma GoingBack(ctx: Context, left: seq<Leaf>, collected: seq<Leaf>, l: seq<Leaf>, c: seq<Leaf>, done: seq<Use>, before: map<Leaf, Value>)
    requires Going(ctx, left, collected, l, c, done, before) && TypedBefore(ctx, before, left, collected)
    ensures Frozen(ctx) && Since(ctx, before) && Typed(ctx, left, collected)
    ensures Argv(ctx, left) && Apart(ctx, collected) ==> Handed(ctx, left, left, collected)
  {}

  /** Where an addition failed, everything is handed back. */
  lemma Abandoned(ctx: Context, left: seq<Leaf>, collected: seq<Leaf>, before: map<Leaf, Value>)
    requires Since(ctx, before) && TypedBefore(ctx, before, left, collected) && Argv(ctx, left) && Apart(ctx, collected)
    ensures Handed(ctx, left, left, collected) && Typed(ctx, left, collected)
  {}

  lemma AllAhead(every: bool, ps: seq<Pattern<Id>>, v: seq<Item>) returns (whole: Outcome)
    requires AllRunnable(ps)
    ensures whole == (if every then MatchEvery(ps, v) else MatchAny(ps, v)) && Continues(whole, [], Tail(every, ps[0..], v))
  {
    whole := Tail(every, ps, v);
    assert ps[0..] == ps;
  }

  /** With no child ahead, what is done is the whole outcome. */
  lemma ReportsAll(ctx: Context, every: bool, whole: Outcome, collected: seq<Leaf>, l: seq<Leaf>, c: seq<Leaf>, done: seq<Use>)
    requires Continues(whole, done, Tail(every, [], Views(ctx, l))) && Grew(ctx, collected, c, done)
    ensures whole.ok && Reports(ctx, collected, true, l, c, whole)
  {
    assert done + [] == done;
  }

  /** Handing everything back reports a failure. */
  lemma ReportsNothing(ctx: Context, left: seq<Leaf>, collected: seq<Leaf>)
    ensures Reports(ctx, collected, false, left, collected, Outcome(false, Views(ctx, left), []))
  {}

  /** What was used so far adds up to what was collected, and the rest is untouched. */
  ghost predicate OnTrack(ctx: Context, st: seq<Item>, done: seq<Use>, l: seq<Leaf>, c: seq<Leaf>)
    reads l`value, c
  {
    Untouched(l, c) && Tally(ctx.kinds, st, done) == Just(Contents(c))
  }

  ghost predicate StraightAll(every: bool, ps: seq<Pattern<Id>>) {
    forall p <- ps :: if every then Straight(p) else Steady(p)
  }

  /** What the children that are still ahead take, until one fails. */
  ghost function Ahead(every: bool, ps: seq<Pattern<Id>>, v: seq<Item>): Outcome
    requires forall p <- ps :: Unary(p)
  {
    if every then DrawEvery(ps, v) else MatchAny(ps, v)
  }

  lemma AheadOn(every: bool, drawn: Outcome, done: seq<Use>, ps: seq<Pattern<Id>>, k: nat, v: seq<Item>)
    requires k < |ps| && (forall p <- ps :: Unary(p)) && StraightAll(every, ps)
    requires Continues(drawn, done, Ahead(every, ps[k..], v))
    ensures var o, d := Match(ps[k], v), Draw(ps[k], v);
            && d.ok == o.ok && done + d.uses <= drawn.uses
            && (if o.ok || !every then d.uses == o.uses && Continues(drawn, done + o.uses, Ahead(every, ps[k + 1..], o.rest))
                else drawn.uses == done + d.uses)
            && (Steady(ps[k]) ==> d.uses == o.uses)
  {
    assert ps[k..][1..] == ps[k + 1..] && ps[k..][0] == ps[k];
    DrawIsMatch(ps[k], v);
    if Match(ps[k], v).ok || !every {
      var o, tail := Match(ps[k], v), Ahead(every, ps[k + 1..], Match(ps[k], v).rest);
      assert Ahead(every, ps[k..], v).uses == o.uses + tail.uses;
      Associative(done, o.uses, tail.uses);
    }
  }

  /** Once adding up fails it fails for good. */
  lemma StillFails(kinds: Id -> Mode, st: seq<Item>, some: seq<Use>, all: seq<Use>)
    requires some <= all && Tally(kinds, st, some).Nothing?
    ensures Tally(kinds, st, all).Nothing?
  {
    TallyAppend(kinds, st, some, all[|some|..]);
    assert some + all[|some|..] == all;
  }

  /** Where nothing was used, what was collected is what it was. */
  lemma BackOnTrack(ctx: Context, left: seq<Leaf>, collected: seq<Leaf>, c: seq<Leaf>, st: seq<Item>, before: map<Leaf, Value>)
    requires Going(ctx, left, collected, left, c, [], before) && OnTrack(ctx, st, [], left, c) && |st| == |collected|
    ensures Untouched(left, collected) && Contents(collected) == st
  {
    assert c == collected;
  }

  /** Runs the next child, from a state between two children to the next such state. */
  method RunNext(p: Pattern<Leaf>, ghost left: seq<Leaf>, ghost collected: seq<Leaf>, l: seq<Leaf>, c: seq<Leaf>,
                 ghost done: seq<Use>, ghost before: map<Leaf, Value>, ghost ctx: Context, ghost st: seq<Item>)
    returns (raised: bool, ok: bool, l': seq<Leaf>, c': seq<Leaf>)
    requires Going(ctx, left, collected, l, c, done, before)
    requires Runnable(Ids(p)) && AllGoverned(ctx, Flat(p))
    modifies l`value, c`value
    ensures Frozen(ctx) && Since(ctx, before) && (raised ==> !AllRuled(ctx))
    ensures forall i :: 0 <= i < |l'| ==> l'[i] in l
    ensures |l'| <= |l| && (|l'| == |l| ==> l' == l)
    ensures forall i :: 0 <= i < |c'| ==> c'[i] in c || c'[i] in l || fresh(c'[i])
    ensures !raised ==>
              var o := Match(Ids(p), Views(ctx, l));
              Agrees(ctx, ok, l', o) && Going(ctx, left, collected, l', c', done + o.uses, before)
    ensures Straight(Ids(p)) && ByKind(ctx, Flat(p)) && old(OnTrack(ctx, st, done, l, c)) ==>
              var d := Draw(Ids(p), Views(ctx, l));
              && (raised <==> Tally(ctx.kinds, st, done + d.uses).Nothing?)
              && (!raised && (ok || Steady(Ids(p))) ==> OnTrack(ctx, st, done + d.uses, l', c'))
    decreases p, 2
  {
    TallyAppend(ctx.kinds, st, done, Draw(Ids(p), Views(ctx, l)).uses);
    raised, ok, l', c' := Run(p, l, c, ctx);
    if !raised {
      BetweenStep(ctx, left, collected, l, c, done, ok, l', c', Match(Ids(p), Views(ctx, l)));
    }
  }

  /** Between two children of several that are all straight. */
  ghost predicate Tracking(ctx: Context, every: bool, ps: seq<Pattern<Leaf>>, k: nat, st: seq<Item>, done: seq<Use>,
                           drawn: Outcome, l: seq<Leaf>, c: seq<Leaf>)
    requires k <= |ps| && AllRunnable(MapAll(IdOf, ps))
    reads l`value, c
  {
    var ids := MapAll(IdOf, ps);
    && StraightAll(every, ids) && ByKind(ctx, FlatAll(ps))
    && OnTrack(ctx, st, done, l, c) && Continues(drawn, done, Ahead(every, ids[k..], Views(ctx, l)))
  }

  lemma ChildTracked(ctx: Context, every: bool, ps: seq<Pattern<Leaf>>, k: nat)
    requires k < |ps| && StraightAll(every, MapAll(IdOf, ps)) && ByKind(ctx, FlatAll(ps))
    ensures Straight(MapAll(IdOf, ps)[k]) && (!every ==> Steady(MapAll(IdOf, ps)[k])) && ByKind(ctx, Flat(ps[k]))
  {
    FlatChild(ps, k);
    if !every { SteadyIsStraight(MapAll(IdOf, ps)[k]); }
  }

  /** Runs child k of several, on the way to the outcome of all. */
  method RunChild(ps: seq<Pattern<Leaf>>, k: nat, ghost left: seq<Leaf>, ghost collected: seq<Leaf>, l: seq<Leaf>, c: seq<Leaf>,
                  ghost done: seq<Use>, ghost before: map<Leaf, Value>, ghost ctx: Context, ghost every: bool, ghost whole: Outcome,
                  ghost st: seq<Item>, ghost drawn: Outcome)
    returns (raised: bool, ok: bool, l': seq<Leaf>, c': seq<Leaf>, ghost used: seq<Use>)
    requires k < |ps| && AllRunnable(MapAll(IdOf, ps)) && AllGoverned(ctx, FlatAll(ps))
    requires Going(ctx, left, collected, l, c, done, before)
    requires Continues(whole, done, Tail(every, MapAll(IdOf, ps)[k..], Views(ctx, l)))
    modifies l`value, c`value
    ensures Frozen(ctx) && Since(ctx, before) && (raised ==> !AllRuled(ctx))
    ensures !raised ==> Going(ctx, left, collected, l', c', done + used, before)
    ensures forall i :: 0 <= i < |l'| ==> l'[i] in l
    ensures forall i :: 0 <= i < |c'| ==> c'[i] in c || c'[i] in l || fresh(c'[i])
    ensures !raised && (ok || !every) ==> Continues(whole, done + used, Tail(every, MapAll(IdOf, ps)[k + 1..], Views(ctx, l')))
    ensures !raised && every && !ok ==> !whole.ok
    ensures !raised && !ok ==> l' == l && used == []
    ensures old(Tracking(ctx, every, ps, k, st, done, drawn, l, c)) ==>
              && (raised ==> Tally(ctx.kinds, st, drawn.uses).Nothing?)
              && (!raised && (ok || !every) ==> Tracking(ctx, every, ps, k + 1, st, done + used, drawn, l', c'))
              && (!raised && every && !ok ==> Tally(ctx.kinds, st, drawn.uses).Just?)
              && (!raised && every && !ok && Steady(MapAll(IdOf, ps)[k]) ==>
                    drawn.uses == done + used && OnTrack(ctx, st, done + used, l', c'))
    decreases ps, 0
  {
    hide Going;
    ghost var ids := MapAll(IdOf, ps);
    MapAllAt(IdOf, ps, k);
    FlatChild(ps, k);
    TailOn(every, whole, done, ids, k, Views(ctx, l));
    used := Match(ids[k], Views(ctx, l)).uses;
    ghost var tracked := Tracking(ctx, every, ps, k, st, done, drawn, l, c);
    if tracked {
      AheadOn(every, drawn, done, ids, k, Views(ctx, l));
      ChildTracked(ctx, every, ps, k);
    }
    raised, ok, l', c' := RunNext(ps[k], left, collected, l, c, done, before, ctx, st);
    assert done + [] == done;
    if tracked && raised {
      StillFails(ctx.kinds, st, done + Draw(ids[k], Views(ctx, l)).uses, drawn.uses);
    }
  }

  lemma TrackingFrom(ctx: Context, every: bool, ps: seq<Pattern<Leaf>>, left: seq<Leaf>, collected: seq<Leaf>)
    requires AllRunnable(MapAll(IdOf, ps)) && StraightAll(every, MapAll(IdOf, ps)) && ByKind(ctx, FlatAll(ps))
    requires Untouched(left, collected)
    ensures var ids, v := MapAll(IdOf, ps), Views(ctx, left);
            Tracking(ctx, every, ps, 0, Contents(collected), [], if every then DrawEvery(ids, v) else MatchAny(ids, v), left, collected)
  {
    var ids := MapAll(IdOf, ps);
    assert ids[0..] == ids;
  }

  /** All children succeeded. */
  lemma TrackingEnds(ctx: Context, every: bool, ps: seq<Pattern<Leaf>>, st: seq<Item>, done: seq<Use>, drawn: Outcome,
                     l: seq<Leaf>, c: seq<Leaf>, steady: bool)
    requires AllRunnable(MapAll(IdOf, ps)) && Tracking(ctx, every, ps, |ps|, st, done, drawn, l, c)
    ensures Tracked(ctx, steady, st, drawn, false, true, l, c)
  {
    hide OnTrack, Ahead, StraightAll, ByKind, AllRunnable, Unary, MapAll, Tracked;
    assert MapAll(IdOf, ps)[|ps|..] == [];
    NoneAhead(every, Views(ctx, l));
    assert done + [] == done;
    TrackEnded(ctx, st, done, drawn, l, c, steady);
  }

  lemma TrackEnded(ctx: Context, st: seq<Item>, done: seq<Use>, drawn: Outcome, l: seq<Leaf>, c: seq<Leaf>, steady: bool)
    requires OnTrack(ctx, st, done, l, c) && drawn.uses == done
    ensures Tracked(ctx, steady, st, drawn, false, true, l, c)
  {}

  lemma NoneAhead(every: bool, v: seq<Item>)
    ensures Ahead(every, [], v).uses == []
  {}

  /** Child k failed, and everything is handed back. */
  lemma TrackingBack(ctx: Context, ps: seq<Pattern<Leaf>>, k: nat, st: seq<Item>, done: seq<Use>, drawn: Outcome,
                     left: seq<Leaf>, collected: seq<Leaf>, l: seq<Leaf>, c: seq<Leaf>, before: map<Leaf, Value>)
    requires k < |ps| && Going(ctx, left, collected, l, c, done, before) && |st| == |collected|
    requires (k == 0 ==> l == left && done == []) && Tally(ctx.kinds, st, drawn.uses).Just?
    requires Steady(MapAll(IdOf, ps)[k]) ==> drawn.uses == done && OnTrack(ctx, st, done, l, c)
    ensures Tracked(ctx, |ps| <= 1 && StraightAll(false, MapAll(IdOf, ps)), st, drawn, false, false, left, collected)
  {
    if |ps| <= 1 && StraightAll(false, MapAll(IdOf, ps)) {
      assert MapAll(IdOf, ps)[k] in MapAll(IdOf, ps);
      BackOnTrack(ctx, left, collected, c, st, before);
    }
  }

  method RunEvery(ps: seq<Pattern<Leaf>>, left: seq<Leaf>, collected: seq<Leaf>, ghost ctx: Context)
    returns (raised: bool, ok: bool, l: seq<Leaf>, c: seq<Leaf>)
    requires Frozen(ctx) && Argv(ctx, left) && Apart(ctx, collected) && Typed(ctx, left, collected)
    requires AllRunnable(MapAll(IdOf, ps)) && AllGoverned(ctx, FlatAll(ps))
    modifies left`value, collected`value
    ensures Frozen(ctx) && Handed(ctx, left, l, c) && Typed(ctx, left, c) && (raised ==> !AllRuled(ctx))
    ensures Since(ctx, old(Values(left, collected)))
    ensures forall x <- c :: x in collected || x in left || fresh(x)
    ensures !raised ==> var o := MatchEvery(MapAll(IdOf, ps), Views(ctx, left));
            Reports(ctx, collected, ok, l, c, if o.ok then o else Outcome(false, Views(ctx, left), []))
    ensures StraightAll(true, MapAll(IdOf, ps)) && ByKind(ctx, FlatAll(ps)) && old(Untouched(left, collected)) ==>
              Tracked(ctx, |ps| <= 1 && StraightAll(false, MapAll(IdOf, ps)), old(Contents(collected)), DrawEvery(MapAll(IdOf, ps), Views(ctx, left)), raised, ok, l, c)
    decreases ps, 1
  {
    hide Going, Grew, Handed, Typed, TypedBefore, Frozen, Since, Argv, Apart, Continues, Reports, Tail, AllGoverned;
    hide MatchEvery, MatchAny, Match, Values, Tracking, Ahead, Contents, Untouched, OnTrack, StraightAll, ByKind, Tally, DrawEvery, Steady;
    l, c := left, collected;
    ghost var ids, done, before := MapAll(IdOf, ps), [], Values(left, collected);
    AllTyped(ctx, left, collected);
    GoingFrom(ctx, left, collected);
    ghost var whole := AllAhead(true, ids, Views(ctx, left));
    ghost var st, drawn := Contents(collected), DrawEvery(ids, Views(ctx, left));
    ghost var tracked := StraightAll(true, ids) && ByKind(ctx, FlatAll(ps)) && Untouched(left, collected);
    if tracked {
      TrackingFrom(ctx, true, ps, left, collected);
    }
    for k := 0 to |ps|
      invariant Going(ctx, left, collected, l, c, done, before)
      invariant forall i :: 0 <= i < |l| ==> l[i] in left
      invariant forall i :: 0 <= i < |c| ==> c[i] in collected || c[i] in left || fresh(c[i])
      invariant Continues(whole, done, Tail(true, ids[k..], Views(ctx, l)))
      invariant tracked ==> Tracking(ctx, true, ps, k, st, done, drawn, l, c)
      invariant k == 0 ==> l == left && done == []
    {
      var failed, matched, l', c', used := RunChild(ps, k, left, collected, l, c, done, before, ctx, true, whole, st, drawn);
      if failed {
        Abandoned(ctx, left, collected, before);
        return true, false, left, collected;
      }
      done, l, c := done + used, l', c';
      if !matched {
        if tracked {
          TrackingBack(ctx, ps, k, st, done, drawn, left, collected, l, c, before);
        }
        GoingBack(ctx, left, collected, l, c, done, before);
        ReportsNothing(ctx, left, collected);
        return false, false, left, collected;
      }
    }
    if tracked {
      TrackingEnds(ctx, true, ps, st, done, drawn, l, c, |ps| <= 1 && StraightAll(false, ids));
    }
    GoingEnds(ctx, left, collected, l, c, done, before);
    ReportsAll(ctx, true, whole, collected, l, c, done);
    return false, true, l, c;
  }

  method RunAny(ps: seq<Pattern<Leaf>>, left: seq<Leaf>, collected: seq<Leaf>, ghost ctx: Context)
    returns (raised: bool, ok: bool, l: seq<Leaf>, c: seq<Leaf>)
    requires Frozen(ctx) && Argv(ctx, left) && Apart(ctx, collected) && Typed(ctx, left, collected)
    requires AllRunnable(MapAll(IdOf, ps)) && AllGoverned(ctx, FlatAll(ps))
    modifies left`value, collected`value
    ensures Frozen(ctx) && Handed(ctx, left, l, c) && Typed(ctx, left, c) && (raised ==> !AllRuled(ctx))
    ensures Since(ctx, old(Values(left, collected)))
    ensures forall x <- c :: x in collected || x in left || fresh(x)
    ensures !raised ==> Reports(ctx, collected, ok, l, c, MatchAny(MapAll(IdOf, ps), Views(ctx, left)))
    ensures StraightAll(false, MapAll(IdOf, ps)) && ByKind(ctx, FlatAll(ps)) && old(Untouched(left, collected)) ==>
              Tracked(ctx, true, old(Contents(collected)), MatchAny(MapAll(IdOf, ps), Views(ctx, left)), raised, ok, l, c)
    decreases ps, 1
  {
    hide Going, Grew, Handed, Typed, TypedBefore, Frozen, Since, Argv, Apart, Continues, Reports, Tail, AllGoverned;
    hide MatchEvery, MatchAny, Match, Values, Tracking, Ahead, Contents, Untouched, OnTrack, StraightAll, ByKind, Tally, DrawEvery, Steady;
    l, c := left, collected;
    ghost var ids, done, before := MapAll(IdOf, ps), [], Values(left, collected);
    AllTyped(ctx, left, collected);
    GoingFrom(ctx, left, collected);
    ghost var whole := AllAhead(false, ids, Views(ctx, left));
    ghost var st, drawn := Contents(collected), MatchAny(ids, Views(ctx, left));
    ghost var tracked := StraightAll(false, ids) && ByKind(ctx, FlatAll(ps)) && Untouched(left, collected);
    if tracked {
      TrackingFrom(ctx, false, ps, left, collected);
    }
    for k := 0 to |ps|
      invariant Going(ctx, left, collected, l, c, done, before)
      invariant forall i :: 0 <= i < |l| ==> l[i] in left
      invariant forall i :: 0 <= i < |c| ==> c[i] in collected || c[i] in left || fresh(c[i])
      invariant Continues(whole, done, Tail(false, ids[k..], Views(ctx, l)))
      invariant tracked ==> Tracking(ctx, false, ps, k, st, done, drawn, l, c)
    {
      var failed, _, l', c', used := RunChild(ps, k, left, collected, l, c, done, before, ctx, false, whole, st, drawn);
      if failed {
        Abandoned(ctx, left, collected, before);
        return true, false, left, collected;
      }
      done, l, c := done + used, l', c';
    }
    if tracked {
      TrackingEnds(ctx, false, ps, st, done, drawn, l, c, true);
    }
    GoingEnds(ctx, left, collected, l, c, done, before);
    ReportsAll(ctx, false, whole, collected, l, c, done);
    return false, true, l, c;
  }

  /** The loop's outcome: what is done and, while it goes on, what is still ahead. */
  ghost function Total(times: nat, calls: nat, done: seq<Use>, p: Pattern<Id>, v: seq<Item>, first: bool, goesOn: bool): Repetition
    requires Unary(p)
  {
    if goesOn then
      var ahead := Repeat(p, v, first);
      Repetition(times + ahead.times, calls + ahead.calls, ahead.rest, done + ahead.uses)
    else Repetition(times, calls, v, done)
  }

  /** One turn of the loop, on what is left alone; it stops after a turn that
      left as much as the turn before. */
  lemma TurnTaken(times: nat, calls: nat, done: seq<Use>, p: Pattern<Id>, v: seq<Item>, first: bool)
    requires Unary(p)
    ensures var o := Match(p, v);
            var goesOn := o.ok && (first || |o.rest| < |v|);
            Total(times, calls, done, p, v, first, true)
              == Total(times + if o.ok then 1 else 0, calls + 1, done + o.uses, p, o.rest, false, goesOn)
  {}

  /** Between two turns: what is behind and what is still ahead make up the whole loop. */
  ghost predicate Looping(ctx: Context, left: seq<Leaf>, collected: seq<Leaf>, l: seq<Leaf>, c: seq<Leaf>, done: seq<Use>,
                          before: map<Leaf, Value>, p: Pattern<Id>, whole: Repetition, times: nat, calls: nat, first: bool,
                          goesOn: bool, st: seq<Item>, tracked: bool)
    requires Unary(p)
    reads ctx.kept.Keys`value, l`value, c, before.Keys`value
  {
    && Going(ctx, left, collected, l, c, done, before) && (tracked ==> OnTrack(ctx, st, done, l, c))
    && whole == Total(times, calls, done, p, Views(ctx, l), first, goesOn)
  }

  lemma LoopStarts(ctx: Context, left: seq<Leaf>, collected: seq<Leaf>, before: map<Leaf, Value>, p: Pattern<Id>, tracked: bool)
    requires Unary(p) && Going(ctx, left, collected, left, collected, [], before) && (tracked ==> Untouched(left, collected))
    ensures Looping(ctx, left, collected, left, collected, [], before, p, Repeat(p, Views(ctx, left), true), 0, 0, true, true,
                    Contents(collected), tracked)
  {
    var r := Repeat(p, Views(ctx, left), true);
    assert [] + r.uses == r.uses;
  }

  lemma LoopEnds(ctx: Context, left: seq<Leaf>, collected: seq<Leaf>, l: seq<Leaf>, c: seq<Leaf>, done: seq<Use>, before: map<Leaf, Value>,
                 p: Pattern<Id>, whole: Repetition, times: nat, calls: nat, first: bool, st: seq<Item>, tracked: bool)
    requires Unary(p)
    ensures Looping(ctx, left, collected, l, c, done, before, p, whole, times, calls, first, false, st, tracked) ==>
              && Going(ctx, left, collected, l, c, done, before) && (tracked ==> OnTrack(ctx, st, done, l, c))
              && whole == Repetition(times, calls, Views(ctx, l), done)
  {}

  lemma LoopEnded(ctx: Context, left: seq<Leaf>, collected: seq<Leaf>, l: seq<Leaf>, c: seq<Leaf>, done: seq<Use>, before: map<Leaf, Value>,
                  p: Pattern<Id>, whole: Repetition, times: nat, calls: nat, first: bool, st: seq<Item>, tracked: bool)
    requires Unary(p)
    ensures Looping(ctx, left, collected, l, c, done, before, p, whole, times, calls, first, false, st, tracked) ==>
              Looping(ctx, left, collected, l, c, done, before, p, whole, times, calls, false, false, st, tracked)
  {}

  /** One turn of the loop, from a state between two turns to the next such state. */
  method RunTurn(p: Pattern<Leaf>, ghost left: seq<Leaf>, ghost collected: seq<Leaf>, l: seq<Leaf>, c: seq<Leaf>,
                 ghost done: seq<Use>, ghost before: map<Leaf, Value>, ghost ctx: Context,
                 ghost whole: Repetition, ghost times: nat, ghost calls: nat, ghost first: bool, ghost st: seq<Item>, ghost tracked: bool)
    returns (raised: bool, ok: bool, l': seq<Leaf>, c': seq<Leaf>, ghost used: seq<Use>)
    requires Runnable(Ids(p)) && AllGoverned(ctx, Flat(p)) && (tracked ==> Steady(Ids(p)) && ByKind(ctx, Flat(p)))
    requires Looping(ctx, left, collected, l, c, done, before, Ids(p), whole, times, calls, first, true, st, tracked)
    modifies l`value, c`value
    ensures Frozen(ctx) && Since(ctx, before) && (raised ==> !AllRuled(ctx) && (tracked ==> Tally(ctx.kinds, st, whole.uses).Nothing?))
    ensures !raised ==> Looping(ctx, left, collected, l', c', done + used, before, Ids(p), whole, times + if ok then 1 else 0, calls + 1,
                                false, ok && (first || |l'| < |l|), st, tracked)
    ensures forall i :: 0 <= i < |l'| ==> l'[i] in l
    ensures |l'| <= |l| && (|l'| == |l| ==> l' == l)
    ensures forall i :: 0 <= i < |c'| ==> c'[i] in c || c'[i] in l || fresh(c'[i])
    decreases p, 3
  {
    ghost var v := Views(ctx, l);
    used := Match(Ids(p), v).uses;
    TurnTaken(times, calls, done, Ids(p), v, first);
    if tracked {
      DrawIsMatch(Ids(p), v);
      SteadyIsStraight(Ids(p));
    }
    raised, ok, l', c' := RunNext(p, left, collected, l, c, done, before, ctx, st);
    if tracked && raised {
      StillFails(ctx.kinds, st, done + used, whole.uses);
    }
  }

  /** The loop of the repetition, turn by turn as the specification has it. */
  method RunTurns(p: Pattern<Leaf>, left: seq<Leaf>, collected: seq<Leaf>, ghost before: map<Leaf, Value>, ghost ctx: Context,
                  ghost st: seq<Item>, ghost tracked: bool)
    returns (raised: bool, times: nat, l: seq<Leaf>, c: seq<Leaf>, ghost calls: nat, ghost done: seq<Use>)
    requires Frozen(ctx) && Going(ctx, left, collected, left, collected, [], before)
    requires Runnable(Ids(p)) && AllGoverned(ctx, Flat(p)) && st == Contents(collected)
    requires tracked ==> Steady(Ids(p)) && ByKind(ctx, Flat(p)) && Untouched(left, collected)
    modifies left`value, collected`value
    ensures Frozen(ctx) && Since(ctx, before) && (raised ==> !AllRuled(ctx))
    ensures var whole := Repeat(Ids(p), Views(ctx, left), true);
            if raised then tracked ==> Tally(ctx.kinds, st, whole.uses).Nothing?
            else whole == Repetition(times, calls, Views(ctx, l), done)
                 && Looping(ctx, left, collected, l, c, done, before, Ids(p), whole, times, calls, false, false, st, tracked)
    ensures forall i :: 0 <= i < |c| ==> c[i] in collected || c[i] in left || fresh(c[i])
    decreases p, 4
  {
    hide Going, Frozen, Repeat, AllGoverned, OnTrack, Contents, Untouched, Tally, ByKind, Steady, Looping, Total, Views;
    l, c, times, calls, done := left, collected, 0, 0, [];
    ghost var id := Ids(p);
    ghost var whole := Repeat(id, Views(ctx, left), true);
    LoopStarts(ctx, left, collected, before, id, tracked);
    var previous: Maybe<seq<Leaf>> := Nothing;
    var matched := true;
    while matched
      invariant Frozen(ctx)
      invariant Looping(ctx, left, collected, l, c, done, before, id, whole, times, calls, previous.Nothing?, matched, st, tracked)
      invariant forall i :: 0 <= i < |l| ==> l[i] in left
      invariant forall i :: 0 <= i < |c| ==> c[i] in collected || c[i] in left || fresh(c[i])
      invariant previous.Just? ==> previous.value == l
      decreases matched, |l|, previous.Nothing?
    {
      ghost var used;
      raised, matched, l, c, used := RunTurn(p, left, collected, l, c, done, before, ctx, whole, times, calls, previous.Nothing?, st, tracked);
      if raised {
        return;
      }
      calls, done := calls + 1, done + used;
      times := times + if matched then 1 else 0;
      if previous.Just? {
        var same := SameLeaves(previous.value, l);
        if same {
          break;
        }
      }
      previous := Just(l);
    }
    LoopEnds(ctx, left, collected, l, c, done, before, id, whole, times, calls, previous.Nothing?, st, tracked);
    LoopEnded(ctx, left, collected, l, c, done, before, id, whole, times, calls, previous.Nothing?, st, tracked);
    raised := false;
  }

  method RunRepeat(ps: seq<Pattern<Leaf>>, left: seq<Leaf>, collected: seq<Leaf>, ghost ctx: Context)
    returns (raised: bool, ok: bool, l: seq<Leaf>, c: seq<Leaf>)
    requires Frozen(ctx) && Argv(ctx, left) && Apart(ctx, collected) && Typed(ctx, left, collected)
    requires |ps| == 1 && Runnable(Ids(ps[0])) && AllGoverned(ctx, Flat(ps[0]))
    modifies left`value, collected`value
    ensures Frozen(ctx) && Handed(ctx, left, l, c) && Typed(ctx, left, c) && (raised ==> !AllRuled(ctx))
    ensures Since(ctx, old(Values(left, collected)))
    ensures forall x <- c :: x in collected || x in left || fresh(x)
    ensures !raised ==> var r := Repeat(Ids(ps[0]), Views(ctx, left), true);
            Reports(ctx, collected, ok, l, c,
                    if r.times >= 1 then Outcome(true, r.rest, r.uses) else Outcome(false, Views(ctx, left), []))
    ensures Steady(Ids(ps[0])) && ByKind(ctx, Flat(ps[0])) && old(Untouched(left, collected)) ==>
              var r := Repeat(Ids(ps[0]), Views(ctx, left), true);
              Tracked(ctx, true, old(Contents(collected)), Outcome(r.times >= 1, r.rest, r.uses), raised, ok, l, c)
    decreases ps, 0
  {
    hide Going, Grew, Handed, Typed, TypedBefore, Frozen, Since, Argv, Apart, Contents, Untouched, Values, Steady, ByKind, OnTrack;
    ghost var calls, done;
    var times;
    ghost var before := Values(left, collected);
    AllTyped(ctx, left, collected);
    GoingFrom(ctx, left, collected);
    ghost var id, st := Ids(ps[0]), Contents(collected);
    ghost var whole := Repeat(id, Views(ctx, left), true);
    ghost var tracked := Steady(id) && ByKind(ctx, Flat(ps[0])) && Untouched(left, collected);
    raised, times, l, c, calls, done := RunTurns(ps[0], left, collected, before, ctx, st, tracked);
    if raised {
      Abandoned(ctx, left, collected, before);
      return true, false, left, collected;
    }
    LoopEnds(ctx, left, collected, l, c, done, before, id, whole, times, calls, false, st, tracked);
    if times < 1 {
      GoingBack(ctx, left, collected, l, c, done, before);
      ReportsNothing(ctx, left, collected);
      NoTurns(ctx, left, collected, l, c, done, before, st, tracked);
      return false, false, left, collected;
    }
    GoingEnds(ctx, left, collected, l, c, done, before);
    if tracked {
      TrackEnded(ctx, st, done, Outcome(true, whole.rest, whole.uses), l, c, true);
    }
    return false, true, l, c;
  }

  /** Without a successful turn nothing was taken. */
  lemma NoTurns(ctx: Context, left: seq<Leaf>, collected: seq<Leaf>, l: seq<Leaf>, c: seq<Leaf>, done: seq<Use>,
                before: map<Leaf, Value>, st: seq<Item>, tracked: bool)
    requires Going(ctx, left, collected, l, c, done, before) && done == [] && |l| == |left|
    requires tracked ==> OnTrack(ctx, st, done, l, c) && |st| == |collected|
    ensures tracked ==> Tracked(ctx, true, st, Outcome(false, Views(ctx, left), []), false, false, left, collected)
  {
    if tracked { BackOnTrack(ctx, left, collected, c, st, before); }
  }

  /** List equality, element by element; between what successive turns leave it
      comes down to the lengths. */
  method SameLeaves(a: seq<Leaf>, b: seq<Leaf>) returns (same: bool)
    requires |a| == |b| ==> a == b
    ensures same <==> |a| == |b|
  {
    if |a| != |b| {
      return false;
    }
    for i := 0 to |a| {
      if !Equal(a[i], b[i]) {
        return false;
      }
    }
    return true;
  }

  // ----- Either

  /** The successful outcomes in order. */
  function Successes(ps: seq<Pattern<Id>>, left: seq<Item>): seq<Outcome>
    requires forall p <- ps :: Unary(p)
  {
    if ps == [] then []
    else
      var o, more := Match(ps[0], left), Successes(ps[1..], left);
      if o.ok then [o] + more else more
  }

  ghost predicate IsFirstShortest(os: seq<Outcome>, i: nat) {
    && i < |os|
    && (forall j :: 0 <= j < |os| ==> |os[i].rest| <= |os[j].rest|)
    && (forall j :: 0 <= j < i ==> |os[i].rest| < |os[j].rest|)
  }

  lemma {:induction false} SuccessesAppend(ps: seq<Pattern<Id>>, p: Pattern<Id>, left: seq<Item>)
    requires Unary(p) && forall q <- ps :: Unary(q)
    ensures (forall q <- ps + [p] :: Unary(q))
    ensures var o := Match(p, left);
            Successes(ps + [p], left) == if o.ok then Successes(ps, left) + [o] else Successes(ps, left)
  {
    assert forall q <- ps + [p] :: q in ps || q == p;
    if ps == [] {
      assert ps + [p] == [p] && [p][1..] == [];
    } else {
      assert (ps + [p])[1..] == ps[1..] + [p];
      SuccessesAppend(ps[1..], p, left);
    }
  }

  lemma {:induction false} SuccessesNext(ps: seq<Pattern<Id>>, k: nat, left: seq<Item>)
    requires k < |ps| && forall q <- ps :: Unary(q)
    ensures forall q <- ps[..k + 1] :: Unary(q)
    ensures var o := Match(ps[k], left);
            Successes(ps[..k + 1], left) == if o.ok then Successes(ps[..k], left) + [o] else Successes(ps[..k], left)
  {
    hide Match, Successes;
    SuccessesAppend(ps[..k], ps[k], left);
    assert ps[..k + 1] == ps[..k] + [ps[k]];
  }

  lemma {:induction false} BestOfSuccesses(ps: seq<Pattern<Id>>, left: seq<Item>, i: nat)
    requires forall p <- ps :: Unary(p)
    requires IsFirstShortest(Successes(ps, left), i)
    ensures MatchBest(ps, left) == Just(Successes(ps, left)[i])
  {
    var o, more := Match(ps[0], left), Successes(ps[1..], left);
    if !o.ok {
      BestOfSuccesses(ps[1..], left, i);
    } else if more == [] {
      NoSuccess(ps[1..], left);
    } else {
      var k := SomeFirstShortest(more);
      BestOfSuccesses(ps[1..], left, k);
      FirstOfTwo(o, more, k, i);
    }
  }

  /** The best of a list is its head, or the best of its tail if that is shorter. */
  lemma FirstOfTwo(o: Outcome, more: seq<Outcome>, k: nat, i: nat)
    requires IsFirstShortest(more, k) && IsFirstShortest([o] + more, i)
    ensures i == if |o.rest| <= |more[k].rest| then 0 else k + 1
  {
    var os := [o] + more;
    assert os[k + 1] == more[k] && os[0] == o;
    assert i > 0 ==> os[i] == more[i - 1];
  }

  lemma {:induction false} NoSuccess(ps: seq<Pattern<Id>>, left: seq<Item>)
    requires forall p <- ps :: Unary(p)
    requires Successes(ps, left) == []
    ensures MatchBest(ps, left) == Nothing
  {
    if ps != [] { NoSuccess(ps[1..], left); }
  }

  lemma {:induction false} SomeFirstShortest(os: seq<Outcome>) returns (i: nat)
    requires os != []
    ensures IsFirstShortest(os, i)
  {
    i := 0;
    if |os| > 1 {
      var k := SomeFirstShortest(os[1..]);
      assert forall j :: 0 <= j < |os[1..]| ==> os[1..][j] == os[j + 1];
      if |os[k + 1].rest| < |os[0].rest| { i := k + 1; }
    }
  }

  /** One recorded success: what was left and what was collected. */
  datatype Success = Success(l: seq<Leaf>, c: seq<Leaf>)

  /** min() by the number of elements left: the first minimal success. */
  method Shortest(found: seq<Success>, ghost os: seq<Outcome>) returns (i: nat)
    requires found != [] && |found| == |os| && forall j :: 0 <= j < |os| ==> |found[j].l| == |os[j].rest|
    ensures IsFirstShortest(os, i)
  {
    i := 0;
    for k := 1 to |found|
      invariant i < k
      invariant forall j :: 0 <= j < k ==> |os[i].rest| <= |os[j].rest|
      invariant forall j :: 0 <= j < i ==> |os[i].rest| < |os[j].rest|
    {
      if |found[k].l| < |found[i].l| {
        i := k;
      }
    }
  }

  ghost predicate Recorded(ctx: Context, left: seq<Leaf>, collected: seq<Leaf>, found: seq<Success>, os: seq<Outcome>) {
    && |found| == |os|
    && forall j :: 0 <= j < |os| ==> os[j].ok && Handed(ctx, left, found[j].l, found[j].c)
                                      && Reports(ctx, collected, true, found[j].l, found[j].c, os[j])
  }

  lemma RecordedMore(ctx: Context, left: seq<Leaf>, collected: seq<Leaf>, found: seq<Success>, os: seq<Outcome>,
                     s: Success, o: Outcome)
    requires Recorded(ctx, left, collected, found, os) && Handed(ctx, left, s.l, s.c)
    requires o.ok && Reports(ctx, collected, true, s.l, s.c, o)
    ensures Recorded(ctx, left, collected, found + [s], os + [o])
  {}

  ghost predicate AllIn(c: seq<Leaf>, seen: set<Leaf>) {
    forall x <- c :: x in seen
  }

  ghost predicate AllGathered(ctx: Context, seen: set<Leaf>)
    reads seen`value
  {
    forall x <- seen :: ctx.ruled(Name(x.id)) ==> Gathered(ctx.modes(Name(x.id)), x.given, x.value)
  }

  ghost predicate AllSeen(found: seq<Success>, seen: set<Leaf>) {
    forall j :: 0 <= j < |found| ==> AllIn(found[j].c, seen)
  }

  lemma NoneSeen()
    ensures AllSeen([], {})
  {}

  lemma SeenMore(found: seq<Success>, seen: set<Leaf>, s: Success)
    requires AllSeen(found, seen)
    ensures AllSeen(found + [s], seen + set x <- s.c)
  {}

  /** Rewriting twice is rewriting. */
  lemma SinceTwice(ctx: Context, before: map<Leaf, Value>, between: map<Leaf, Value>)
    requires before.Keys <= between.Keys && Since(ctx, between)
    requires forall x <- before.Keys :: ctx.ruled(Name(x.id)) ==> Rewritten(ctx.modes(Name(x.id)), before[x], between[x])
    ensures Since(ctx, before)
  {}

  lemma StillGathered(ctx: Context, between: map<Leaf, Value>, seen: set<Leaf>)
    requires seen <= between.Keys && Since(ctx, between)
    requires forall x <- seen :: ctx.ruled(Name(x.id)) ==> Gathered(ctx.modes(Name(x.id)), x.given, between[x])
    ensures AllGathered(ctx, seen)
  {}

  lemma GatheredToo(ctx: Context, left: seq<Leaf>, c: seq<Leaf>, seen: set<Leaf>)
    requires AllGathered(ctx, seen) && Typed(ctx, left, c)
    ensures AllGathered(ctx, seen + set x <- c)
  {}

  /** Runs a child on the command line that every branch is given. */
  method RunBranch(p: Pattern<Leaf>, left: seq<Leaf>, collected: seq<Leaf>, ghost seen: set<Leaf>,
                   ghost before: map<Leaf, Value>, ghost ctx: Context)
    returns (raised: bool, ok: bool, l: seq<Leaf>, c: seq<Leaf>)
    requires Frozen(ctx) && Argv(ctx, left) && Apart(ctx, collected)
    requires TypedBefore(ctx, before, left, collected) && Since(ctx, before) && AllGathered(ctx, seen)
    requires Runnable(Ids(p)) && AllGoverned(ctx, Flat(p))
    modifies left`value, collected`value
    ensures Frozen(ctx) && Handed(ctx, left, l, c) && (raised ==> !AllRuled(ctx)) && Since(ctx, before) && AllGathered(ctx, seen + set x <- c)
    ensures forall x <- c :: x in collected || x in left || fresh(x)
    ensures !raised ==> Reports(ctx, collected, ok, l, c, Match(Ids(p), Views(ctx, left)))
    decreases p, 2
  {
    hide Frozen, Argv, Apart, TypedBefore, Typed, Runnable, AllGoverned, Handed, Reports, Views;
    StillTyped(ctx, before, left, collected);
    ghost var between := map x | x in before.Keys + seen :: x.value;
    raised, ok, l, c := Run(p, left, collected, ctx);
    assert Since(ctx, between);
    SinceTwice(ctx, before, between);
    StillGathered(ctx, between, seen);
    GatheredToo(ctx, left, c, seen);
  }

  /** Tries every child on the same command line and records the successes. */
  method Collect(ps: seq<Pattern<Leaf>>, left: seq<Leaf>, collected: seq<Leaf>, ghost before: map<Leaf, Value>, ghost ctx: Context)
    returns (raised: bool, found: seq<Success>, ghost seen: set<Leaf>)
    requires Frozen(ctx) && Argv(ctx, left) && Apart(ctx, collected)
    requires TypedBefore(ctx, before, left, collected) && Since(ctx, before)
    requires AllRunnable(MapAll(IdOf, ps)) && AllGoverned(ctx, FlatAll(ps))
    modifies left`value, collected`value
    ensures Frozen(ctx) && Since(ctx, before) && AllGathered(ctx, seen) && (raised ==> !AllRuled(ctx))
    ensures !raised ==> Recorded(ctx, left, collected, found, Successes(MapAll(IdOf, ps), Views(ctx, left)))
    ensures AllSeen(found, seen)
    ensures forall x <- seen :: x in collected || x in left || fresh(x)
    decreases ps, 0
  {
    ghost var ids := MapAll(IdOf, ps);
    hide Frozen, Argv, Since, TypedBefore, Views, Grew, Flat, FlatAll, MapAll, Match, Gathered, AllSeen, Handed;
    ghost var os := Successes(ids[..0], Views(ctx, left));
    found, seen := [], {};
    NoneSeen();
    for k := 0 to |ps|
      invariant Frozen(ctx) && Since(ctx, before) && AllGathered(ctx, seen)
      invariant os == Successes(ids[..k], Views(ctx, left)) && Recorded(ctx, left, collected, found, os)
      invariant AllSeen(found, seen)
      invariant forall x <- seen :: x in collected || x in left || fresh(x)
    {
      MapAllAt(IdOf, ps, k);
      FlatChild(ps, k);
      SuccessesNext(ids, k, Views(ctx, left));
      ghost var o := Match(ids[k], Views(ctx, left));
      var failed, matched, l', c' := RunBranch(ps[k], left, collected, seen, before, ctx);
      if failed {
        return true, [], {};
      }
      if matched {
        RecordedMore(ctx, left, collected, found, os, Success(l', c'), o);
        SeenMore(found, seen, Success(l', c'));
        found, seen, os := found + [Success(l', c')], seen + (set x <- c'), os + [o];
      }
    }
    assert ids[..|ps|] == ids;
    raised := false;
  }

  method RunBest(ps: seq<Pattern<Leaf>>, left: seq<Leaf>, collected: seq<Leaf>, ghost ctx: Context)
    returns (raised: bool, ok: bool, l: seq<Leaf>, c: seq<Leaf>)
    requires Frozen(ctx) && Argv(ctx, left) && Apart(ctx, collected) && Typed(ctx, left, collected)
    requires AllRunnable(MapAll(IdOf, ps)) && AllGoverned(ctx, FlatAll(ps))
    modifies left`value, collected`value
    ensures Frozen(ctx) && Handed(ctx, left, l, c) && Typed(ctx, left, c) && (raised ==> !AllRuled(ctx))
    ensures Since(ctx, old(Values(left, collected)))
    ensures forall x <- c :: x in collected || x in left || fresh(x)
    ensures !raised ==> var best := MatchBest(MapAll(IdOf, ps), Views(ctx, left));
            Reports(ctx, collected, ok, l, c, if best.Just? then best.value else Outcome(false, Views(ctx, left), []))
    decreases ps, 1
  {
    ghost var ids := MapAll(IdOf, ps);
    ghost var before := Values(left, collected);
    AllTyped(ctx, left, collected);
    var failed, found, seen := Collect(ps, left, collected, before, ctx);
    StillTyped(ctx, before, left, collected);
    if failed {
      return true, false, left, collected;
    }
    if found != [] {
      var i := Shortest(found, Successes(ids, Views(ctx, left)));
      BestOfSuccesses(ids, Views(ctx, left), i);
      assert AllIn(found[i].c, seen);
      return false, true, found[i].l, found[i].c;
    }
    NoSuccess(ids, Views(ctx, left));
    return false, false, left, collected;
  }
}
