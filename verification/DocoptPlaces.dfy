// Usages that list arguments and options, each to be given or left out: exactly
// when greedy matching is complete on them.
module DocoptPlaces {
  import opened Basics
  import opened DocoptPattern
  import opened DocoptMatch
  import opened DocoptNeeds
  import opened DocoptComplete
  import opened DocoptWilling
  import opened DocoptUsages

  /** One place of a usage like `<a> [-b] [<c>] -b`. */
  datatype Place = Must(leaf: Id) | May(leaf: Id)

  /** Places compete for the same elements: the positionals, or the options of a name. */
  datatype Class = Front | Called(name: Maybe<string>)

  function ClassOf(leaf: Id): Class {
    if leaf.Opt? then Called(Name(leaf)) else Front
  }

  predicate Listable(places: seq<Place>) {
    forall place <- places :: place.leaf.Arg? || (place.leaf.Opt? && Name(place.leaf).Just?)
  }

  ghost function PartOf(place: Place): (p: Pattern<Id>)
    ensures place.leaf.Arg? || (place.leaf.Opt? && Name(place.leaf).Just?) ==> Matchable(p)
    ensures Unary(p)
  {
    var leaf := Tip(place.leaf);
    assert place.leaf.Arg? || (place.leaf.Opt? && Name(place.leaf).Just?) ==> Named(leaf);
    if place.Must? then leaf else Possibly(leaf)
  }

  ghost function Usage(places: seq<Place>): (ps: seq<Pattern<Id>>)
    ensures forall p <- ps :: Unary(p)
    ensures Listable(places) ==> forall p <- ps :: Matchable(p)
  {
    if places == [] then []
    else
      assert forall place <- places[1..] :: place in places;
      [PartOf(places[0])] + Usage(places[1..])
  }

  /** How many elements of a class a use needs, and how many it can have. */
  function Needed(places: seq<Place>, k: Class): nat {
    if places == [] then 0
    else (if places[0].Must? && ClassOf(places[0].leaf) == k then 1 else 0) + Needed(places[1..], k)
  }

  function Room(places: seq<Place>, k: Class): (n: nat)
    ensures n >= Needed(places, k)
  {
    if places == [] then 0 else (if ClassOf(places[0].leaf) == k then 1 else 0) + Room(places[1..], k)
  }

  /** How many the matcher needs: it fills every place of the class before the last that
      must be filled. */
  function Reach(places: seq<Place>, k: Class): (n: nat)
    ensures Needed(places, k) <= n <= Room(places, k) && (Needed(places, k) == 0 ==> n == 0)
  {
    if Needed(places, k) == 0 then 0
    else (if ClassOf(places[0].leaf) == k then 1 else 0) + Reach(places[1..], k)
  }

  /** In each class, no place that may be left out comes before one that must be filled. */
  ghost predicate Ordered(places: seq<Place>) {
    forall i, j :: 0 <= i < j < |places| && places[j].Must? && ClassOf(places[i].leaf) == ClassOf(places[j].leaf) ==> places[i].Must?
  }

  lemma {:induction false} NoneMust(places: seq<Place>, k: Class)
    requires Needed(places, k) == 0
    ensures forall j :: 0 <= j < |places| && ClassOf(places[j].leaf) == k ==> places[j].May?
  {
    if places != [] {
      NoneMust(places[1..], k);
      assert forall j :: 0 < j < |places| ==> places[j] == places[1..][j - 1];
    }
  }

  lemma {:induction false} SomeMust(places: seq<Place>, k: Class)
    requires Needed(places, k) > 0
    ensures exists j :: 0 <= j < |places| && places[j].Must? && ClassOf(places[j].leaf) == k
  {
    if !(places[0].Must? && ClassOf(places[0].leaf) == k) {
      SomeMust(places[1..], k);
      var j :| 0 <= j < |places[1..]| && places[1..][j].Must? && ClassOf(places[1..][j].leaf) == k;
      assert places[j + 1].Must?;
    }
  }

  lemma {:induction false} OrderedReach(places: seq<Place>, k: Class)
    requires Ordered(places)
    ensures Reach(places, k) == Needed(places, k)
  {
    if Needed(places, k) > 0 {
      assert forall i :: 0 <= i < |places[1..]| ==> places[1..][i] == places[i + 1];
      OrderedReach(places[1..], k);
      SomeMust(places, k);
    }
  }

  /** Where a place that may be left out comes first, the matcher reaches for more. */
  lemma {:induction false} UnorderedReach(places: seq<Place>) returns (k: Class)
    requires !Ordered(places)
    ensures Reach(places, k) > Needed(places, k)
  {
    if Ordered(places[1..]) {
      var i, j :| 0 <= i < j < |places| && places[j].Must? && ClassOf(places[i].leaf) == ClassOf(places[j].leaf) && places[i].May?;
      k := ClassOf(places[j].leaf);
      if i > 0 { assert places[1..][i - 1] == places[i] && places[1..][j - 1] == places[j]; }
      MustNeeded(places, j);
    } else {
      k := UnorderedReach(places[1..]);
    }
  }

  lemma {:induction false} MustNeeded(places: seq<Place>, j: nat)
    requires j < |places| && places[j].Must?
    ensures Needed(places, ClassOf(places[j].leaf)) > 0
  {
    if j > 0 { MustNeeded(places[1..], j - 1); }
  }

  // ----- what a command line has, and what a use takes

  ghost function Supply(left: seq<Item>, k: Class): nat {
    if k.Front? then |Positionals(left)| else OptNames(left)[k.name]
  }

  ghost function Demand(w: seq<Use>, k: Class): nat {
    if k.Front? then |Pos(w)| else Opts(w)[k.name]
  }

  lemma OptionMissing(leaf: Id, left: seq<Item>)
    requires leaf.Opt? && Name(leaf).Just? && ParsedArgv(left) && Name(leaf) !in OptNames(left)
    ensures !Match(Tip(leaf), left).ok
  {
    var r := SingleMatch(leaf, left);
    if r.Just? {
      assert left[r.value] in left;
      OptNamesHas(left, Name(leaf));
    }
  }

  lemma LeafStep(leaf: Id, left: seq<Item>)
    requires ParsedArgv(left) && (leaf.Arg? || (leaf.Opt? && Name(leaf).Just?))
    ensures var o := Match(Tip(leaf), left);
            && (o.ok <==> Supply(left, ClassOf(leaf)) > 0) && ParsedArgv(o.rest)
            && forall k :: Supply(o.rest, k) == Supply(left, k) - if o.ok && k == ClassOf(leaf) then 1 else 0
  {
    hide SingleMatch;
    var pos, opts := Positionals(left), OptNames(left);
    if leaf.Opt? {
      if Name(leaf) in opts {
        assert opts == multiset{Name(leaf)} + (opts - multiset{Name(leaf)});
        OptionTakes(leaf, left, pos, opts - multiset{Name(leaf)});
      } else {
        OptionMissing(leaf, left);
      }
    } else {
      var name := leaf.argName;
      if pos != [] {
        PositionalsAreArgs(left);
        assert pos[0] in pos;
        assert [pos[0]] + pos[1..] == pos;
        PositionalTakes(leaf, pos[0], left, pos[1..], opts);
      } else {
        NoPositional(leaf, left);
      }
    }
  }

  lemma NoPositional(leaf: Id, left: seq<Item>)
    requires leaf.Arg? && Positionals(left) == []
    ensures !Match(Tip(leaf), left).ok
  {
    var r := SingleMatch(leaf, left);
    if r.Just? { SomePositional(left, r.value); }
  }

  /** Each place takes one element of its class while there are any. */
  lemma {:induction false} UsageMatches(places: seq<Place>, left: seq<Item>)
    requires ParsedArgv(left) && Listable(places)
    ensures var o := MatchEvery(Usage(places), left);
            && (o.ok <==> forall k :: Reach(places, k) <= Supply(left, k))
            && (o.ok ==> forall k :: Supply(o.rest, k) == if Supply(left, k) <= Room(places, k) then 0 else Supply(left, k) - Room(places, k))
    decreases places
  {
    hide Supply;
    if places != [] {
      var ps, leaf := Usage(places), places[0].leaf;
      assert places[0] in places && forall place <- places[1..] :: place in places;
      assert ps[1..] == Usage(places[1..]);
      LeafStep(leaf, left);
      PossiblyMatched(Tip(leaf), left);
      EveryFirst(ps, left);
      UsageMatches(places[1..], Match(Tip(leaf), left).rest);
    }
  }

  lemma DemandAppend(u: seq<Use>, v: seq<Use>)
    ensures forall k :: Demand(u + v, k) == Demand(u, k) + Demand(v, k)
  {
    NeedsAppend(u, v);
  }

  lemma LeafDemand(leaf: Id, u: seq<Use>)
    requires Lang(Tip(leaf), u) && !leaf.Cmd?
    ensures forall k :: Demand(u, k) == if k == ClassOf(leaf) then 1 else 0
  {
    assert |u| == 1 && u[0].leaf == leaf && u[1..] == [];
    assert Pos(u) == if leaf.Opt? then [] else [u[0].item];
    assert Opts(u) == if leaf.Opt? then multiset{Name(leaf)} else multiset{};
  }

  lemma PartDemand(place: Place, u: seq<Use>)
    requires Lang(PartOf(place), u) && !place.leaf.Cmd?
    ensures forall k :: (if place.Must? && k == ClassOf(place.leaf) then 1 else 0) <= Demand(u, k) <=
                        (if k == ClassOf(place.leaf) then 1 else 0)
  {
    if place.May? {
      OptionalTurnIs(PartOf(place), u);
      if u != [] { LeafDemand(place.leaf, u); }
    } else {
      LeafDemand(place.leaf, u);
    }
  }

  /** A use fills at least the places that must be filled, and at most all. */
  lemma {:induction false} UsageDemands(places: seq<Place>, w: seq<Use>)
    requires LangSeq(Usage(places), w, false) && Listable(places)
    ensures forall k :: Needed(places, k) <= Demand(w, k) <= Room(places, k)
    decreases places
  {
    hide Demand;
    if places != [] {
      var ps := Usage(places);
      var k :| 0 <= k <= |w| && LangPart(ps[0], w[..k], false) && LangSeq(ps[1..], w[k..], false);
      assert ps[1..] == Usage(places[1..]) && w == w[..k] + w[k..];
      assert places[0] in places && forall place <- places[1..] :: place in places;
      UsageDemands(places[1..], w[k..]);
      PartDemand(places[0], w[..k]);
      DemandAppend(w[..k], w[k..]);
    } else {
      NoDemand();
    }
  }

  lemma NoDemand()
    ensures forall k :: Demand([], k) == 0
  {}

  /** Any positionals can be given, with only the places filled that must be. */
  lemma {:induction false} UsageFilled(places: seq<Place>, front: seq<Item>) returns (w: seq<Use>)
    requires Listable(places) && |front| == Needed(places, Front) && forall e <- front :: e.id == Arg(Nothing)
    ensures LangSeq(Usage(places), w, false) && Pos(w) == front && ParsedArgv(Items(w))
    ensures forall k :: Demand(w, k) == Needed(places, k)
    decreases places
  {
    hide Demand, Fits;
    if places == [] {
      NoDemand();
      w := [];
    } else {
      assert places[0] in places && forall place <- places[1..] :: place in places;
      var leaf := places[0].leaf;
      if places[0].May? {
        w := UsageFilled(places[1..], front);
        PossiblyNot(Tip(leaf));
        LangSeqCons(PartOf(places[0]), Usage(places[1..]), [], w, false);
        assert [] + w == w;
      } else {
        var e := if leaf.Opt? then Item(leaf, Null) else front[0];
        var tail := UsageFilled(places[1..], if leaf.Opt? then front else front[1..]);
        assert Fits(leaf, e) by { FitsItself(leaf, e); }
        w := OneMoreUse(Use(leaf, e), tail);
        LangSeqCons(Tip(leaf), Usage(places[1..]), [Use(leaf, e)], tail, false);
      }
    }
  }

  lemma FitsItself(leaf: Id, e: Item)
    requires if leaf.Opt? then e.id == leaf else leaf.Arg? && e.id.Arg?
    ensures Fits(leaf, e)
  {}

  lemma OneMoreUse(u: Use, tail: seq<Use>) returns (w: seq<Use>)
    requires Fits(u.leaf, u.item) && !u.leaf.Cmd? && ParsedArgv([u.item]) && ParsedArgv(Items(tail))
    ensures w == [u] + tail && ParsedArgv(Items(w))
    ensures Pos(w) == if u.leaf.Opt? then Pos(tail) else [u.item] + Pos(tail)
    ensures forall k :: Demand(w, k) == (if k == ClassOf(u.leaf) then 1 else 0) + Demand(tail, k)
  {
    w := [u] + tail;
    DemandAppend([u], tail);
    LeafDemand(u.leaf, [u]);
    NeedsAppend([u], tail);
    ItemsAppend([u], tail);
    assert [u][1..] == [] && [u.item][0] in [u.item];
    assert Items(w) == [u.item] + Items(tail);
  }

  // ----- the exact condition

  /** Whatever the places and the command line: a match needs, of each class, an element
      for every place up to the last that must be filled; a use only for those that must. */
  lemma {:induction false} PlacesIff(places: seq<Place>, left: seq<Item>)
    requires ParsedArgv(left) && Listable(places)
    ensures var p := Branch(Required, Usage(places));
            && (Match(p, left).ok <==> forall k :: Reach(places, k) <= Supply(left, k))
            && ((exists w :: Lang(p, w) && Covers(left, w)) <==> forall k :: Needed(places, k) <= Supply(left, k))
  {
    var p, pos := Branch(Required, Usage(places)), Positionals(left);
    UsageMatches(places, left);
    if w :| Lang(p, w) && Covers(left, w) {
      UsageDemands(places, w);
      forall k ensures Needed(places, k) <= Supply(left, k) { assert Demand(w, k) <= Supply(left, k); }
    }
    if forall k :: Needed(places, k) <= Supply(left, k) {
      assert Needed(places, Front) <= Supply(left, Front);
      FrontArgs(left);
      var w := UsageFilled(places, pos[..Needed(places, Front)]);
      forall n ensures Opts(w)[n] <= OptNames(left)[n] { assert Demand(w, Called(n)) <= Supply(left, Called(n)); }
      assert Lang(p, w) && Covers(left, w);
    }
  }

  lemma {:induction false} FrontArgs(left: seq<Item>)
    requires ParsedArgv(left)
    ensures forall e <- Positionals(left) :: e.id == Arg(Nothing)
  {
    if left != [] {
      assert left[0] in left && forall e <- left[1..] :: e in left;
      FrontArgs(left[1..]);
    }
  }

  /** A command line that fills just the places that must be filled. */
  lemma Least(places: seq<Place>) returns (left: seq<Item>)
    requires Listable(places)
    ensures ParsedArgv(left) && Derivable(Branch(Required, Usage(places)), left)
    ensures forall k :: Supply(left, k) == Needed(places, k)
  {
    hide Lang, LangSeq, Match, Supply, Demand;
    var p := Branch(Required, Usage(places));
    var w := UsageFilled(places, seq(Needed(places, Front), _ => Positional("x")));
    left := Items(w);
    assert Lang(p, w) by { WordOfSeq(Usage(places), w); }
    DerivedBy(p, left, w);
    SuppliesItself(p, w);
  }

  lemma WordOfSeq(ps: seq<Pattern<Id>>, w: seq<Use>)
    requires LangSeq(ps, w, false)
    ensures Lang(Branch(Required, ps), w)
  {}

  /** The elements of a word have what it needs. */
  lemma SuppliesItself(p: Pattern<Id>, w: seq<Use>)
    requires Named(p) && Lang(p, w) && ParsedArgv(Items(w))
    ensures forall k :: Supply(Items(w), k) == Demand(w, k)
  {
    LangUses(p, w);
    NamedFlat(p);
    NeedsAreItems(Flat(p), w);
  }

  /** Greedy is complete on such a usage if and only if in each class no place that may be
      left out comes before one that must be given. */
  lemma {:induction false} CompleteIffOrdered(places: seq<Place>)
    requires Listable(places)
    ensures var p := Branch(Required, Usage(places));
            (forall left | ParsedArgv(left) :: Match(p, left).ok <==> exists w :: Lang(p, w) && Covers(left, w)) <==>
            Ordered(places)
  {
    var p := Branch(Required, Usage(places));
    if Ordered(places) {
      forall left | ParsedArgv(left) ensures Match(p, left).ok <==> exists w :: Lang(p, w) && Covers(left, w) {
        PlacesIff(places, left);
        forall k ensures Reach(places, k) == Needed(places, k) { OrderedReach(places, k); }
      }
    } else {
      var k := UnorderedReach(places);
      var left := Least(places);
      PlacesIff(places, left);
      assert Reach(places, k) > Supply(left, k);
    }
  }

  /** And so it is for acceptance with nothing left over. */
  lemma {:induction false} ExactIffOrdered(places: seq<Place>)
    requires Listable(places)
    ensures var p := Branch(Required, Usage(places));
            (forall left | ParsedArgv(left) :: Accepts(p, left) <==> Derivable(p, left)) <==> Ordered(places)
  {
    var p := Branch(Required, Usage(places));
    if Ordered(places) {
      forall left | ParsedArgv(left) ensures Accepts(p, left) <==> Derivable(p, left) {
        if Accepts(p, left) { MatchSound(p, left); }
        if Derivable(p, left) { OrderedAccepts(places, left); }
      }
    } else {
      var k := UnorderedReach(places);
      var left := Least(places);
      PlacesIff(places, left);
      assert Reach(places, k) > Supply(left, k);
    }
  }

  lemma OrderedAccepts(places: seq<Place>, left: seq<Item>)
    requires Listable(places) && Ordered(places) && ParsedArgv(left) && Derivable(Branch(Required, Usage(places)), left)
    ensures Accepts(Branch(Required, Usage(places)), left)
  {
    var p := Branch(Required, Usage(places));
    var w :| Lang(p, w) && Took(left, w, []);
    assert Named(p);
    WordNeeds(p, w, left, []);
    UsageDemands(places, w);
    forall k ensures Reach(places, k) <= Supply(left, k) <= Room(places, k) {
      OrderedReach(places, k);
      assert Pos(w) + [] == Pos(w) && Opts(w) + multiset{} == Opts(w);
      assert Supply(left, k) == Demand(w, k);
    }
    UsageMatches(places, left);
    var rest := MatchEvery(Usage(places), left).rest;
    assert Supply(rest, Front) == 0;
    forall n ensures n !in OptNames(rest) { assert Supply(rest, Called(n)) == 0; }
    assert OptNames(rest) == multiset{};
    Lengths(rest);
  }
}
