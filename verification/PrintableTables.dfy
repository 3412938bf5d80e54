// The generator of the tables, the C++ lookup over them, and their agreement.
module PrintableTables {
  import opened PrintableRanges
  import opened PrintableCoding

  // ----- the lookup in format-inl.h

  /** The tables of one plane of 0x10000 code points. */
  datatype Table = Table(uppers: seq<Group>, lowers: seq<nat>, normal: seq<nat>)

  datatype Tables = Tables(low: Table, high: Table, extra: seq<Run>)

  ghost predicate Readable(t: Table) {
    && Total(t.uppers) <= |t.lowers| && UppersAscend(t.uppers)
    && (forall l <- t.lowers :: l < 0x100)
    && WellCoded(t.normal)
  }

  /** Walks over gaps and lengths until x falls into one; gaps are printable. */
  ghost function Walk(lengths: seq<nat>, x: int, current: bool): bool {
    if lengths == [] || x - lengths[0] < 0 then current
    else Walk(lengths[1..], x - lengths[0], !current)
  }

  ghost predicate Printable16(t: Table, x: nat)
    requires Readable(t)
  {
    x !in Expand(t.uppers, t.lowers) && Walk(DecodeLengths(t.normal), x, true)
  }

  ghost predicate Printable(t: Tables, cp: nat)
    requires Readable(t.low) && Readable(t.high)
  {
    if cp < CUTOFF then Printable16(t.low, cp)
    else if cp < 2 * CUTOFF then Printable16(t.high, cp - CUTOFF)
    else !InRuns(t.extra, cp) && cp < NUM_CODEPOINTS
  }

  /** Code points of groups above x's upper half are not x. */
  lemma {:induction false} AboveUpper(groups: seq<Group>, lowers: seq<nat>, x: nat)
    requires Total(groups) <= |lowers| && UppersAscend(groups)
    requires groups != [] ==> x / 0x100 < groups[0].upper
    ensures x !in Expand(groups, lowers)
  {
    if groups != [] {
      var tail := groups[1..];
      assert tail != [] ==> groups[0].upper < tail[0].upper;
      AboveUpper(tail, lowers[groups[0].count..], x);
    }
  }

  lemma Halves(upper: nat, lower: nat, x: nat)
    requires lower < 0x100
    ensures upper * 0x100 + lower == x <==> x / 0x100 == upper && x % 0x100 == lower
  {}

  lemma InMembers(upper: nat, lowers: seq<nat>, x: nat)
    requires forall l <- lowers :: l < 0x100
    ensures x in Members(upper, lowers) <==> x / 0x100 == upper && x % 0x100 in lowers
  {
    var head := Members(upper, lowers);
    forall i | 0 <= i < |lowers| ensures head[i] == x <==> x / 0x100 == upper && x % 0x100 == lowers[i] {
      assert lowers[i] in lowers;
      Halves(upper, lowers[i], x);
    }
    if x / 0x100 == upper && x % 0x100 in lowers {
      var i :| 0 <= i < |lowers| && lowers[i] == x % 0x100;
      assert head[i] == x;
    }
  }

  /** The first group decides, unless it does not hold x. */
  lemma FirstGroup(groups: seq<Group>, lowers: seq<nat>, x: nat)
    requires groups != [] && Total(groups) <= |lowers| && forall l <- lowers :: l < 0x100
    ensures x in Expand(groups, lowers) <==>
              (x / 0x100 == groups[0].upper && x % 0x100 in lowers[..groups[0].count])
              || x in Expand(groups[1..], lowers[groups[0].count..])
  {
    var mine := lowers[..groups[0].count];
    assert forall l <- mine :: l in lowers;
    InMembers(groups[0].upper, mine, x);
  }

  method Lookup(x: nat, t: Table) returns (r: bool)
    requires x < CUTOFF && Readable(t)
    ensures r == Printable16(t, x)
  {
    var listed := LookupSingletons(x, t);
    if listed {
      return false;
    }
    r := LookupNormal(x, t.normal);
  }

  /** The search stands before group i: the groups from there on decide. */
  ghost predicate Searching(t: Table, i: nat, start: nat, x: nat)
    requires Readable(t)
  {
    && i <= |t.uppers| && start <= |t.lowers| && Total(t.uppers[i..]) <= |t.lowers[start..]|
    && (x in Expand(t.uppers, t.lowers) <==> x in Expand(t.uppers[i..], t.lowers[start..]))
  }

  lemma SearchStart(t: Table, x: nat)
    requires Readable(t)
    ensures Searching(t, 0, 0, x)
  {
    assert t.uppers[0..] == t.uppers && t.lowers[0..] == t.lowers;
  }

  /** The slices a group takes off. */
  lemma GroupSlices(t: Table, i: nat, start: nat)
    requires Readable(t) && i < |t.uppers| && start <= |t.lowers| && Total(t.uppers[i..]) <= |t.lowers[start..]|
    ensures var groups, lowers, end := t.uppers[i..], t.lowers[start..], start + t.uppers[i].count;
            && groups[1..] == t.uppers[i + 1..] && end <= |t.lowers|
            && lowers[..groups[0].count] == t.lowers[start..end] && lowers[groups[0].count..] == t.lowers[end..]
            && (forall l <- lowers :: l < 0x100) && UppersAscend(groups)
  {
    forall l <- t.lowers[start..] ensures l < 0x100 { assert l in t.lowers; }
  }

  /** No later group decides once the upper half is passed. */
  lemma SearchPassed(t: Table, i: nat, start: nat, x: nat)
    requires Readable(t) && Searching(t, i, start, x) && i < |t.uppers| && x / 0x100 < t.uppers[i].upper
    ensures x !in Expand(t.uppers, t.lowers)
  {
    GroupSlices(t, i, start);
    AboveUpper(t.uppers[i..], t.lowers[start..], x);
  }

  /** The group decides, or the search goes on behind it. */
  lemma SearchOn(t: Table, i: nat, start: nat, x: nat)
    requires Readable(t) && Searching(t, i, start, x) && i < |t.uppers|
    ensures var end := start + t.uppers[i].count;
            && end <= |t.lowers|
            && if x / 0x100 == t.uppers[i].upper && x % 0x100 in t.lowers[start..end] then x in Expand(t.uppers, t.lowers)
               else Searching(t, i + 1, end, x)
  {
    GroupSlices(t, i, start);
    FirstGroup(t.uppers[i..], t.lowers[start..], x);
  }

  lemma SearchDone(t: Table, start: nat, x: nat)
    requires Readable(t) && Searching(t, |t.uppers|, start, x)
    ensures x !in Expand(t.uppers, t.lowers)
  {
    assert t.uppers[|t.uppers|..] == [];
  }

  method LookupSingletons(x: nat, t: Table) returns (listed: bool)
    requires Readable(t)
    ensures listed <==> x in Expand(t.uppers, t.lowers)
  {
    hide Readable, Searching;
    var upper, start: nat, i: nat := x / 0x100, 0, 0;
    SearchStart(t, x);
    while i < |t.uppers|
      invariant i <= |t.uppers| && Searching(t, i, start, x)
    {
      var s := t.uppers[i];
      SearchOn(t, i, start, x);
      var end: nat := start + s.count;
      if upper < s.upper {
        SearchPassed(t, i, start, x);
        return false;
      }
      if upper == s.upper {
        var found := Contains(t.lowers, start, end, x % 0x100);
        if found {
          return true;
        }
      }
      start, i := end, i + 1;
    }
    SearchDone(t, start, x);
    return false;
  }

  method Contains(lowers: seq<nat>, start: nat, end: nat, lower: nat) returns (found: bool)
    requires start <= end <= |lowers|
    ensures found <==> lower in lowers[start..end]
  {
    for j := start to end
      invariant lower !in lowers[start..j]
    {
      if lowers[j] == lower {
        assert lowers[start..end][j - start] == lower;
        return true;
      }
      assert lowers[start..j + 1] == lowers[start..j] + [lowers[j]];
    }
    return false;
  }

  /** The length that starts at i, and the bytes after it. */
  lemma NextLength(normal: seq<nat>, i: nat)
    requires i < |normal| && WellCoded(normal[i..])
    ensures normal[i] >= 0x80 ==> i + 1 < |normal|
    ensures var two := normal[i] >= 0x80;
            var len, next := if two then TwoBytes(normal[i], normal[i + 1]) else normal[i], if two then i + 2 else i + 1;
            WellCoded(normal[next..]) && DecodeLengths(normal[i..]) == [len] + DecodeLengths(normal[next..])
  {
    var tail := normal[i..];
    assert tail[1..] == normal[i + 1..];
    if normal[i] >= 0x80 { assert tail[2..] == normal[i + 2..]; }
  }

  lemma NoLengths(normal: seq<nat>)
    ensures DecodeLengths(normal[|normal|..]) == []
  {}

  method LookupNormal(x: nat, normal: seq<nat>) returns (current: bool)
    requires WellCoded(normal)
    ensures current == Walk(DecodeLengths(normal), x, true)
  {
    hide WellCoded, DecodeLengths;
    var xsigned: int, i: nat := x, 0;
    assert normal[0..] == normal;
    current := true;
    while i < |normal|
      invariant i <= |normal| && WellCoded(normal[i..])
      invariant Walk(DecodeLengths(normal), x, true) == Walk(DecodeLengths(normal[i..]), xsigned, current)
    {
      var v, len := normal[i], normal[i];
      NextLength(normal, i);
      if v >= 0x80 {
        i := i + 1;
        len := TwoBytes(v, normal[i]);
      }
      xsigned := xsigned - len;
      if xsigned < 0 {
        return;
      }
      current := !current;
      i := i + 1;
    }
    NoLengths(normal);
  }

  method IsPrintable(cp: nat, t: Tables) returns (r: bool)
    requires Readable(t.low) && Readable(t.high)
    ensures r == Printable(t, cp)
  {
    if cp < CUTOFF {
      r := Lookup(cp, t.low);
      return;
    }
    if cp < 2 * CUTOFF {
      r := Lookup(cp - CUTOFF, t.high);
      return;
    }
    for i := 0 to |t.extra|
      invariant forall j :: 0 <= j < i ==> !InRun(t.extra[j], cp)
    {
      if t.extra[i].start <= cp && cp < t.extra[i].start + t.extra[i].count {
        assert t.extra[i] in t.extra && InRun(t.extra[i], cp);
        return false;
      }
    }
    return cp < NUM_CODEPOINTS;
  }

  // ----- sorting ranges into the five lists

  datatype Lists = Lists(singletons0: seq<nat>, singletons1: seq<nat>, normal0: seq<Run>, normal1: seq<Run>, extra: seq<Run>)

  /** a & CUTOFF */
  predicate HasCutoff(a: nat) {
    a / CUTOFF % 2 == 1
  }

  /** a & ~CUTOFF */
  function Clear(a: nat): nat {
    if HasCutoff(a) then a - CUTOFF else a
  }

  /** Where one range goes. */
  ghost function Place(l: Lists, r: Range): Lists
    requires r.lo < r.hi
  {
    var run := Run(r.lo, r.hi - r.lo);
    if r.lo > 2 * CUTOFF then l.(extra := l.extra + [run])
    else if run.count == 1 then
      if HasCutoff(r.lo) then l.(singletons1 := l.singletons1 + [Clear(r.lo)])
      else l.(singletons0 := l.singletons0 + [r.lo])
    else if run.count == 2 then
      if HasCutoff(r.lo) then l.(singletons1 := l.singletons1 + [Clear(r.lo), Clear(r.lo + 1)])
      else l.(singletons0 := l.singletons0 + [r.lo, r.lo + 1])
    else if r.lo >= 2 * CUTOFF then l.(extra := l.extra + [run])
    else if HasCutoff(r.lo) then l.(normal1 := l.normal1 + [Run(Clear(r.lo), run.count)])
    else l.(normal0 := l.normal0 + [run])
  }

  /** The lists say that c is escaped. */
  ghost predicate Encoded(l: Lists, c: nat) {
    if c < CUTOFF then c in l.singletons0 || InRuns(l.normal0, c)
    else if c < 2 * CUTOFF then c - CUTOFF in l.singletons1 || InRuns(l.normal1, c - CUTOFF)
    else InRuns(l.extra, c)
  }

  /** A short range at 0x20000 goes to the singletons of the wrong plane. */
  ghost predicate Lost(r: Range) {
    r.lo == 2 * CUTOFF && r.hi - r.lo <= 2
  }

  lemma InRunsAppend(runs: seq<Run>, r: Run, c: int)
    ensures InRuns(runs + [r], c) <==> InRuns(runs, c) || InRun(r, c)
  {}

  /** Placing a range adds exactly its code points, unless it is lost. */
  lemma PlaceEncodes(l: Lists, r: Range, c: nat)
    requires Whole(r)
    ensures Encoded(Place(l, r), c) <==> Encoded(l, c) || (InRange(r, c) && !Lost(r))
  {
    var run := Run(r.lo, r.hi - r.lo);
    InRunsAppend(l.extra, run, c);
    InRunsAppend(l.normal0, run, c);
    InRunsAppend(l.normal1, Run(Clear(r.lo), run.count), c - CUTOFF);
  }

  /** Where a range goes, by its plane and its length: one or two code points are
      singletons, more are a run; from 0x20000 on all are extra, but for a short one
      just there. */
  lemma PlaceSorts(l: Lists, r: Range)
    requires Whole(r)
    ensures var p, low, run := Place(l, r), r.lo < CUTOFF, Run(r.lo % CUTOFF, r.hi - r.lo);
            if r.lo > 2 * CUTOFF || (r.lo == 2 * CUTOFF && !Lost(r)) then p == l.(extra := l.extra + [Run(r.lo, r.hi - r.lo)])
            else if r.lo == 2 * CUTOFF then p == l.(singletons0 := l.singletons0 + Listed(r.lo, r.hi))
            else if r.hi - r.lo <= 2 then
              p == if low then l.(singletons0 := l.singletons0 + Listed(run.start, run.start + run.count))
                   else l.(singletons1 := l.singletons1 + Listed(run.start, run.start + run.count))
            else p == if low then l.(normal0 := l.normal0 + [run]) else l.(normal1 := l.normal1 + [run])
  {
    if r.hi - r.lo <= 2 {
      ListedShort(r.lo, r.hi);
      ListedShort(r.lo % CUTOFF, r.lo % CUTOFF + (r.hi - r.lo));
    }
  }

  lemma ListedShort(lo: nat, hi: nat)
    requires lo < hi <= lo + 2
    ensures Listed(lo, hi) == if hi == lo + 1 then [lo] else [lo, lo + 1]
  {
    assert Listed(lo + 1, hi) == if hi == lo + 1 then [] else [lo + 1] + Listed(lo + 2, hi);
  }

  /** The codes from lo up to, not including, hi. */
  function Listed(lo: nat, hi: nat): seq<nat>
    decreases hi - lo
  {
    if lo >= hi then [] else [lo] + Listed(lo + 1, hi)
  }

  ghost function End(runs: seq<Run>, prev: nat): nat {
    if runs == [] then prev else End(runs[1..], runs[0].start + runs[0].count)
  }

  lemma {:induction false} RunsAppend(runs: seq<Run>, prev: nat, r: Run)
    requires RunsFrom(runs, prev) && End(runs, prev) <= r.start
    ensures RunsFrom(runs + [r], prev) && End(runs + [r], prev) == r.start + r.count
  {
    if runs == [] {
      assert [r][1..] == [];
    } else {
      assert (runs + [r])[1..] == runs[1..] + [r];
      RunsAppend(runs[1..], runs[0].start + runs[0].count, r);
    }
  }

  /** Singletons, at most two in a row, all more than one below the next. */
  ghost predicate SinglesBelow(s: seq<nat>, next: int) {
    Ascending(s) && Sparse(s) && forall i :: 0 <= i < |s| ==> s[i] + 1 < next
  }

  lemma SinglesAppend(s: seq<nat>, a: nat, two: bool)
    requires SinglesBelow(s, a)
    ensures var t := if two then s + [a, a + 1] else s + [a]; Ascending(t) && Sparse(t)
  {
    var t, n := if two then s + [a, a + 1] else s + [a], |s|;
    assert n >= 2 ==> s[n - 2] < s[n - 1];
    forall i | 0 <= i < |t| - 2 ensures t[i] + 3 <= t[i + 2] {
      if i + 2 < n { assert s[i] + 3 <= s[i + 2]; }
    }
  }

  // Each list is in order and holds nothing at or above h.

  ghost predicate Singles0(s: seq<nat>, h: int) {
    && Ascending(s) && Sparse(s)
    && forall i :: 0 <= i < |s| ==> s[i] < h && !(CUTOFF <= s[i] < 2 * CUTOFF)
  }

  ghost predicate Singles1(s: seq<nat>, h: int) {
    && Ascending(s) && Sparse(s)
    && forall i :: 0 <= i < |s| ==> s[i] + CUTOFF < h && s[i] < CUTOFF
  }

  ghost predicate Normal(runs: seq<Run>, offset: nat, h: int) {
    RunsFrom(runs, 0) && (runs != [] ==> End(runs, 0) <= CUTOFF && End(runs, 0) + offset <= h)
  }

  ghost predicate Ordered(l: Lists, h: int) {
    && Singles0(l.singletons0, h) && Singles1(l.singletons1, h)
    && Normal(l.normal0, 0, h) && Normal(l.normal1, CUTOFF, h)
  }

  ghost predicate Follows(h: int, r: Range) {
    h < r.lo || (h == r.lo && r.lo in {CUTOFF, 2 * CUTOFF})
  }

  lemma NormalAppend(runs: seq<Run>, offset: nat, h: int, r: Range)
    requires Normal(runs, offset, h) && h <= r.lo && Whole(r)
    requires offset <= r.lo && r.hi <= offset + CUTOFF
    ensures Normal(runs + [Run(r.lo - offset, r.hi - r.lo)], offset, r.hi)
  {
    RunsAppend(runs, 0, Run(r.lo - offset, r.hi - r.lo));
  }

  lemma Singles0Append(s: seq<nat>, h: int, r: Range)
    requires Singles0(s, h) && Whole(r) && Follows(h, r) && r.hi - r.lo <= 2
    requires r.lo < CUTOFF || r.lo == 2 * CUTOFF
    ensures Singles0(if r.hi - r.lo == 2 then s + [r.lo, r.lo + 1] else s + [r.lo], r.hi)
  {
    SinglesAppend(s, r.lo, r.hi - r.lo == 2);
  }

  lemma Singles1Append(s: seq<nat>, h: int, r: Range)
    requires Singles1(s, h) && Whole(r) && Follows(h, r) && r.hi - r.lo <= 2
    requires CUTOFF <= r.lo < 2 * CUTOFF
    ensures Singles1(if r.hi - r.lo == 2 then s + [r.lo - CUTOFF, r.lo + 1 - CUTOFF] else s + [r.lo - CUTOFF], r.hi)
  {
    SinglesAppend(s, r.lo - CUTOFF, r.hi - r.lo == 2);
  }

  /** What is in order below h is in order below anything higher. */
  lemma OrderedLater(l: Lists, h: int, k: int)
    requires Ordered(l, h) && h <= k
    ensures Ordered(l, k)
  {}

  lemma PlaceOrdered(l: Lists, h: int, r: Range)
    requires Ordered(l, h) && Whole(r) && Follows(h, r)
    ensures Ordered(Place(l, r), r.hi)
  {
    OrderedLater(l, h, r.hi);
    if r.lo <= 2 * CUTOFF && r.hi - r.lo <= 2 {
      PlaceShort(l, h, r);
    } else if r.lo < CUTOFF {
      NormalAppend(l.normal0, 0, h, r);
    } else if r.lo < 2 * CUTOFF {
      NormalAppend(l.normal1, CUTOFF, h, r);
    }
  }

  lemma CutoffMeans(a: nat)
    requires a <= 2 * CUTOFF + 1
    ensures HasCutoff(a) <==> CUTOFF <= a < 2 * CUTOFF
    ensures Clear(a) == if CUTOFF <= a < 2 * CUTOFF then a - CUTOFF else a
  {}

  lemma PlaceShort(l: Lists, h: int, r: Range)
    requires Ordered(l, h) && Ordered(l, r.hi) && Whole(r) && Follows(h, r)
    requires r.lo <= 2 * CUTOFF && r.hi - r.lo <= 2
    ensures Ordered(Place(l, r), r.hi)
  {
    hide HasCutoff, Clear, Singles0, Singles1, Normal;
    CutoffMeans(r.lo);
    CutoffMeans(r.lo + 1);
    if CUTOFF <= r.lo < 2 * CUTOFF {
      var s := if r.hi - r.lo == 2 then l.singletons1 + [r.lo - CUTOFF, r.lo + 1 - CUTOFF] else l.singletons1 + [r.lo - CUTOFF];
      Singles1Append(l.singletons1, h, r);
      assert Place(l, r) == l.(singletons1 := s);
    } else {
      var s := if r.hi - r.lo == 2 then l.singletons0 + [r.lo, r.lo + 1] else l.singletons0 + [r.lo];
      Singles0Append(l.singletons0, h, r);
      assert Place(l, r) == l.(singletons0 := s);
    }
  }

  const NO_LISTS := Lists([], [], [], [], [])

  ghost function PlaceAll(rs: seq<Range>): Lists
    requires forall i :: 0 <= i < |rs| ==> Whole(rs[i])
  {
    if rs == [] then NO_LISTS else
      assert Whole(rs[|rs| - 1]);
      Place(PlaceAll(rs[..|rs| - 1]), rs[|rs| - 1])
  }

  /** The code point is in a range that is kept. */
  ghost predicate Kept(rs: seq<Range>, c: nat) {
    exists r <- rs :: InRange(r, c) && !Lost(r)
  }

  lemma {:induction false} PlaceAllEncodes(rs: seq<Range>, c: nat)
    requires forall i :: 0 <= i < |rs| ==> Whole(rs[i])
    ensures Encoded(PlaceAll(rs), c) <==> Kept(rs, c)
  {
    if rs != [] {
      var front, last := rs[..|rs| - 1], rs[|rs| - 1];
      PlaceAllEncodes(front, c);
      PlaceEncodes(PlaceAll(front), last, c);
      if Kept(front, c) {
        var r :| r in front && InRange(r, c) && !Lost(r);
        assert r in rs;
      }
      if Kept(rs, c) && !(InRange(last, c) && !Lost(last)) {
        var r :| r in rs && InRange(r, c) && !Lost(r);
        assert r in front;
      }
      assert last in rs;
    }
  }

  lemma {:induction false} PlaceAllOrdered(rs: seq<Range>)
    requires Maximal(rs)
    ensures Ordered(PlaceAll(rs), if rs == [] then -1 else rs[|rs| - 1].hi)
  {
    if rs != [] {
      var front, last := rs[..|rs| - 1], rs[|rs| - 1];
      PlaceAllOrdered(front);
      assert front != [] ==> Apart(rs[|rs| - 2], last);
      PlaceOrdered(PlaceAll(front), if front == [] then -1 else front[|front| - 1].hi, last);
    }
  }

  /** The loop of main: every range goes to one of the five lists. */
  lemma PlaceAllNext(rs: seq<Range>, i: nat)
    requires i < |rs| && forall j :: 0 <= j < |rs| ==> Whole(rs[j])
    ensures PlaceAll(rs[..i + 1]) == Place(PlaceAll(rs[..i]), rs[i])
    ensures rs[i].lo < rs[i].hi
  {
    assert rs[..i + 1][..i] == rs[..i];
    assert Whole(rs[i]);
  }

  lemma PlaceAllStart(rs: seq<Range>)
    ensures PlaceAll(rs[..0]) == NO_LISTS
  {}

  method Classify(rs: seq<Range>) returns (l: Lists)
    requires Maximal(rs)
    ensures l == PlaceAll(rs)
  {
    hide HasCutoff, Clear, PlaceAll;
    var singletons0: seq<nat>, singletons1: seq<nat> := [], [];
    var normal0: seq<Run>, normal1: seq<Run>, extra: seq<Run> := [], [], [];
    PlaceAllStart(rs);
    for i := 0 to |rs|
      invariant Lists(singletons0, singletons1, normal0, normal1, extra) == PlaceAll(rs[..i])
    {
      PlaceAllNext(rs, i);
      var a, b := rs[i].lo, rs[i].hi;
      if a > 2 * CUTOFF {
        extra := extra + [Run(a, b - a)];
      } else if a == b - 1 {
        if HasCutoff(a) {
          singletons1 := singletons1 + [Clear(a)];
        } else {
          singletons0 := singletons0 + [a];
        }
      } else if a == b - 2 {
        if HasCutoff(a) {
          singletons1 := singletons1 + [Clear(a)];
          singletons1 := singletons1 + [Clear(a + 1)];
        } else {
          singletons0 := singletons0 + [a];
          singletons0 := singletons0 + [a + 1];
        }
      } else if a >= 2 * CUTOFF {
        extra := extra + [Run(a, b - a)];
      } else if HasCutoff(a) {
        normal1 := normal1 + [Run(Clear(a), b - a)];
      } else {
        normal0 := normal0 + [Run(a, b - a)];
      }
    }
    assert rs[..|rs|] == rs;
    l := Lists(singletons0, singletons1, normal0, normal1, extra);
  }

  // ----- the lookup over generated tables

  lemma {:induction false} RunsAbove(runs: seq<Run>, prev: nat, x: nat)
    requires RunsFrom(runs, prev) && x < prev
    ensures !InRuns(runs, x)
  {
    if runs != [] {
      RunsAbove(runs[1..], runs[0].start + runs[0].count, x);
      assert forall r <- runs :: r == runs[0] || r in runs[1..];
    }
  }

  /** Two lengths of the walk: past a gap and a run. */
  lemma WalkTwo(gap: nat, count: nat, tail: seq<nat>, y: int)
    ensures Walk([gap, count] + tail, y, true) ==
              if y < gap then true else if y < gap + count then false else Walk(tail, y - gap - count, true)
  {}

  lemma InFirstRun(runs: seq<Run>, x: int)
    requires runs != []
    ensures InRuns(runs, x) <==> InRun(runs[0], x) || InRuns(runs[1..], x)
  {}

  /** Walking over gaps and lengths finds out whether x is in a run. */
  lemma {:induction false} WalkFindsRun(runs: seq<Run>, prev: nat, x: nat)
    requires RunsFrom(runs, prev) && prev <= x
    ensures Walk(Lengths(runs, prev), x - prev, true) <==> !InRuns(runs, x)
  {
    if runs != [] {
      var next := runs[0].start + runs[0].count;
      WalkTwo(runs[0].start - prev, runs[0].count, Lengths(runs[1..], next), x - prev);
      InFirstRun(runs, x);
      if x < next {
        RunsAbove(runs[1..], next, x);
      } else {
        WalkFindsRun(runs[1..], next, x);
      }
    }
  }

  /** A table spells out its singletons and its runs. */
  ghost predicate Spelled(t: Table, singletons: seq<nat>, normal: seq<Run>) {
    && Readable(t) && RunsFrom(normal, 0)
    && Expand(t.uppers, t.lowers) == singletons
    && DecodeLengths(t.normal) == Lengths(normal, 0)
  }

  lemma SpelledPrintable(t: Table, singletons: seq<nat>, normal: seq<Run>, x: nat)
    requires Spelled(t, singletons, normal)
    ensures Printable16(t, x) <==> x !in singletons && !InRuns(normal, x)
  {
    WalkFindsRun(normal, 0, x);
  }

  /** Over the tables of some lists, the lookup denies exactly what they encode. */
  lemma TablesPrintable(t: Tables, l: Lists, cp: nat)
    requires Spelled(t.low, l.singletons0, l.normal0) && Spelled(t.high, l.singletons1, l.normal1)
    requires t.extra == l.extra
    ensures Printable(t, cp) <==> !Encoded(l, cp) && cp < NUM_CODEPOINTS
  {
    if cp < CUTOFF {
      SpelledPrintable(t.low, l.singletons0, l.normal0, cp);
    } else if cp < 2 * CUTOFF {
      SpelledPrintable(t.high, l.singletons1, l.normal1, cp - CUTOFF);
    }
  }

  // ----- exactness

  /** The lookup denies exactly the escaped code points and those beyond the last. */
  ghost predicate Exact(t: Tables, codes: seq<nat>)
    requires Readable(t.low) && Readable(t.high)
  {
    forall cp: nat :: Printable(t, cp) <==> cp < NUM_CODEPOINTS && cp !in codes
  }

  /** In the first two planes the lookup is exact in any case. */
  ghost predicate ExactBelow(t: Tables, codes: seq<nat>)
    requires Readable(t.low) && Readable(t.high)
  {
    forall cp: nat :: cp < 2 * CUTOFF ==> (Printable(t, cp) <==> cp !in codes)
  }

  /** 0x20000 is escaped, but not both of its successors. */
  predicate ShortAtBoundary(codes: seq<nat>) {
    2 * CUTOFF in codes && !(2 * CUTOFF + 1 in codes && 2 * CUTOFF + 2 in codes)
  }

  ghost predicate RangesOf(rs: seq<Range>, codes: seq<nat>) {
    Maximal(rs) && forall c: nat :: c in codes <==> InRanges(rs, c)
  }

  lemma LostIffShort(rs: seq<Range>, codes: seq<nat>)
    requires RangesOf(rs, codes)
    ensures SomeLost(rs) <==> ShortAtBoundary(codes)
  {}

  /** A range that is not lost holds c, unless c is in the range at the boundary. */
  lemma KeptUnlessLost(rs: seq<Range>, c: nat)
    ensures Kept(rs, c) ==> InRanges(rs, c)
    ensures !SomeLost(rs) && InRanges(rs, c) ==> Kept(rs, c)
  {}

  lemma LostNotKept(rs: seq<Range>, r: Range)
    requires Maximal(rs) && r in rs && Lost(r)
    ensures InRanges(rs, r.lo) && !Kept(rs, r.lo)
  {}

  /** The tables are exact if and only if no short range starts at 0x20000. */
  lemma ExactIff(t: Tables, rs: seq<Range>, codes: seq<nat>)
    requires RangesOf(rs, codes) && forall c <- codes :: c < NUM_CODEPOINTS
    requires var l := PlaceAll(rs);
             && Spelled(t.low, l.singletons0, l.normal0) && Spelled(t.high, l.singletons1, l.normal1)
             && t.extra == l.extra
    ensures Exact(t, codes) <==> !ShortAtBoundary(codes)
    ensures ExactBelow(t, codes)
  {
    var l := PlaceAll(rs);
    assert forall i :: 0 <= i < |rs| ==> Whole(rs[i]);
    forall cp: nat ensures Printable(t, cp) <==> !Kept(rs, cp) && cp < NUM_CODEPOINTS {
      TablesPrintable(t, l, cp);
      PlaceAllEncodes(rs, cp);
    }
    LostIffShort(rs, codes);
    if SomeLost(rs) {
      var r :| r in rs && Lost(r);
      LostNotKept(rs, r);
    } else {
      forall cp: nat ensures Kept(rs, cp) <==> cp in codes { KeptUnlessLost(rs, cp); }
    }
    forall cp: nat | cp < 2 * CUTOFF ensures Kept(rs, cp) <==> InRanges(rs, cp) {
      assert forall r <- rs :: InRange(r, cp) ==> !Lost(r);
    }
  }

  // ----- the generator

  datatype Generated = Generated(tables: Tables) | Refused

  /** The upper halves fit a byte, the counts fit a byte. */
  ghost predicate FitsBytes(t: Table) {
    && (forall g <- t.uppers :: g.upper < 0x100 && g.count <= 171)
    && (forall l <- t.lowers :: l < 0x100) && (forall b <- t.normal :: b < 0x100)
  }

  lemma {:induction false} UpperOfMember(groups: seq<Group>, lowers: seq<nat>, k: nat) returns (x: nat)
    requires Total(groups) <= |lowers| && k < |groups| && groups[k].count >= 1
    requires forall l <- lowers :: l < 0x100
    ensures x in Expand(groups, lowers) && x / 0x100 == groups[k].upper
  {
    var n := groups[0].count;
    if k == 0 {
      x := groups[0].upper * 0x100 + lowers[0];
      assert Members(groups[0].upper, lowers[..n])[0] == x;
      assert lowers[0] in lowers;
      Halves(groups[0].upper, lowers[0], x);
    } else {
      assert forall l <- lowers[n..] :: l in lowers;
      x := UpperOfMember(groups[1..], lowers[n..], k - 1);
    }
  }

  method MakeTable(singletons: seq<nat>, normal: seq<Run>) returns (ok: bool, t: Table)
    requires Ascending(singletons) && Sparse(singletons) && RunsFrom(normal, 0)
    ensures ok <==> Encodable(normal, 0)
    ensures ok ==> Spelled(t, singletons, normal)
    ensures ok ==> (FitsBytes(t) <==> AllLow(singletons))
  {
    var uppers, lowers := CompressSingletons(singletons);
    var coded := CompressNormal(normal);
    if coded.AssertionError? {
      return false, Table([], [], []);
    }
    t := Table(uppers, lowers, Flatten(coded.entries));
    SpelledFits(t, singletons, normal);
    return true, t;
  }

  lemma SpelledFits(t: Table, singletons: seq<nat>, normal: seq<Run>)
    requires Spelled(t, singletons, normal) && forall g <- t.uppers :: 1 <= g.count <= 171
    ensures FitsBytes(t) <==> AllLow(singletons)
  {
    CodedBytes(t.normal);
    if AllLow(singletons) {
      forall g | g in t.uppers ensures g.upper < 0x100 {
        var k :| 0 <= k < |t.uppers| && t.uppers[k] == g;
        var x := UpperOfMember(t.uppers, t.lowers, k);
      }
    }
    if FitsBytes(t) {
      forall x | x in singletons ensures x < CUTOFF {
        MemberUpper(t.uppers, t.lowers, x);
        var k :| 0 <= k < |t.uppers| && t.uppers[k].upper == x / 0x100;
        assert t.uppers[k] in t.uppers;
      }
    }
  }

  lemma {:induction false} MemberUpper(groups: seq<Group>, lowers: seq<nat>, x: nat)
    requires Total(groups) <= |lowers| && x in Expand(groups, lowers)
    requires forall l <- lowers :: l < 0x100
    ensures exists k :: 0 <= k < |groups| && groups[k].upper == x / 0x100
  {
    FirstGroup(groups, lowers, x);
    if x / 0x100 == groups[0].upper {
    } else {
      var n := groups[0].count;
      assert forall l <- lowers[n..] :: l in lowers;
      MemberUpper(groups[1..], lowers[n..], x);
      var k :| 0 <= k < |groups[1..]| && groups[1..][k].upper == x / 0x100;
      assert groups[k + 1] == groups[1..][k];
    }
  }

  /** Tables for a set of escaped code points, given in ascending order. The
      generator refuses exactly when a gap or a length needs more than 15 bits. */
  method Generate(codes: seq<nat>) returns (r: Generated, ghost rs: seq<Range>)
    requires Ascending(codes) && forall c <- codes :: c < NUM_CODEPOINTS
    ensures RangesOf(rs, codes)
    ensures r.Generated? <==> Encodable(PlaceAll(rs).normal0, 0) && Encodable(PlaceAll(rs).normal1, 0)
    ensures r.Generated? ==> Readable(r.tables.low) && Readable(r.tables.high)
    ensures r.Generated? ==> (Exact(r.tables, codes) <==> !ShortAtBoundary(codes)) && ExactBelow(r.tables, codes)
    ensures r.Generated? ==> FitsBytes(r.tables.high) && (FitsBytes(r.tables.low) <==> !ShortAtBoundary(codes))
  {
    var ranges := ToRanges(codes);
    rs := ranges;
    PlaceAllOrdered(rs);
    var l := Classify(ranges);
    var ok0, low := MakeTable(l.singletons0, l.normal0);
    var ok1, high := MakeTable(l.singletons1, l.normal1);
    if !ok0 || !ok1 {
      return Refused, rs;
    }
    r := Generated(Tables(low, high, l.extra));
    ExactIff(r.tables, rs, codes);
    LostIffShort(rs, codes);
    LowSingletons(rs);
  }

  /** The first plane's singletons reach beyond it exactly when a range is lost. */
  lemma {:induction false} LowSingletons(rs: seq<Range>)
    requires forall i :: 0 <= i < |rs| ==> Whole(rs[i])
    ensures AllLow(PlaceAll(rs).singletons0) <==> !SomeLost(rs)
  {
    if rs != [] {
      var front, last := rs[..|rs| - 1], rs[|rs| - 1];
      LowSingletons(front);
      PlaceLow(PlaceAll(front), last);
      SomeLostAppend(front, last);
      assert rs == front + [last];
    }
  }

  ghost predicate AllLow(singletons: seq<nat>) {
    forall x <- singletons :: x < CUTOFF
  }

  ghost predicate SomeLost(rs: seq<Range>) {
    exists r <- rs :: Lost(r)
  }

  lemma SomeLostAppend(rs: seq<Range>, r: Range)
    ensures SomeLost(rs + [r]) <==> SomeLost(rs) || Lost(r)
  {}

  lemma PlaceLow(l: Lists, r: Range)
    requires Whole(r)
    ensures AllLow(Place(l, r).singletons0) <==> AllLow(l.singletons0) && !Lost(r)
  {
    var before, after := l.singletons0, Place(l, r).singletons0;
    var added := after[|before|..];
    assert after == before + added;
    if Lost(r) {
      assert added[0] == r.lo && added[0] in after;
    } else {
      assert forall x <- added :: x < CUTOFF;
      assert forall x <- after :: x in before || x in added;
      assert forall x <- before :: x in after;
    }
  }

  // ----- from the database to the lookup

  /** The category of the code point is one of those that are escaped. */
  ghost predicate EscapedAt(rows: seq<Row>, cp: nat) {
    Escaped(Codepoint(cp, CategoryAt(rows, cp)))
  }

  ghost predicate StartsAtZero(rows: seq<Row>) {
    rows != [] && rows[0].code == 0
  }

  /** The lookup agrees with the database on every code point. */
  ghost predicate Agrees(t: Tables, rows: seq<Row>)
    requires Readable(t.low) && Readable(t.high)
  {
    forall cp: nat :: Printable(t, cp) <==> cp < NUM_CODEPOINTS && !EscapedAt(rows, cp)
  }

  ghost predicate ShortRow(rows: seq<Row>) {
    var b := 2 * CUTOFF;
    EscapedAt(rows, b) && !(EscapedAt(rows, b + 1) && EscapedAt(rows, b + 2))
  }

  lemma CodesOfRows(rows: seq<Row>, points: seq<Codepoint>, start: nat, codes: seq<nat>, c: nat)
    requires ListsPoints(rows, points, start) && |points| == NUM_CODEPOINTS - start
    requires start <= NUM_CODEPOINTS
    requires c in codes <==> exists i :: 0 <= i < |points| && points[i].value == c && Escaped(points[i])
    ensures c in codes <==> start <= c < NUM_CODEPOINTS && EscapedAt(rows, c)
  {
    if start <= c < NUM_CODEPOINTS {
      assert points[c - start] == Codepoint(c, CategoryAt(rows, c));
    }
  }

  /** A code below every row is unassigned, hence escaped. */
  lemma {:induction false} ZeroUnlisted(rows: seq<Row>)
    requires SortedRows(rows) && !StartsAtZero(rows)
    ensures EscapedAt(rows, 0)
  {
    if rows != [] {
      RowBelowIs(rows, 0, -1);
    }
  }

  /** The maximal ranges of the escaped code points that are listed. */
  ghost predicate RangesOfRows(rs: seq<Range>, rows: seq<Row>) {
    Maximal(rs) && forall c: nat :: InRanges(rs, c) <==> c < NUM_CODEPOINTS && EscapedAt(rows, c) && (c == 0 ==> StartsAtZero(rows))
  }

  /** The whole script: it produces tables exactly if every First row is followed by
      its Last row and no gap or length of the first two planes needs more than 15
      bits; then the lookup agrees with the database exactly if the database starts
      at 0 and no short escaped range starts at 0x20000. */
  method Build(rows: seq<Row>) returns (r: Generated, ghost rs: seq<Range>)
    requires SortedRows(rows)
    ensures Paired(rows) ==> RangesOfRows(rs, rows)
    ensures r.Generated? <==> Paired(rows) && Encodable(PlaceAll(rs).normal0, 0) && Encodable(PlaceAll(rs).normal1, 0)
    ensures r.Generated? ==> Readable(r.tables.low) && Readable(r.tables.high)
    ensures r.Generated? ==> (Agrees(r.tables, rows) <==> StartsAtZero(rows) && !ShortRow(rows))
  {
    var listing := GetCodepoints(rows);
    if listing.MissingLast? {
      return Refused, [];
    }
    var points := listing.points;
    ghost var start := if rows != [] && rows[0].code == 0 then 0 else 1;
    var codes := GetEscaped(points);
    forall c: nat ensures c in codes <==> start <= c < NUM_CODEPOINTS && EscapedAt(rows, c) {
      CodesOfRows(rows, points, start, codes, c);
    }
    r, rs := Generate(codes);
    if r.Generated? {
      AgreesIff(r.tables, rows, codes, start);
    }
  }

  lemma AgreesIff(t: Tables, rows: seq<Row>, codes: seq<nat>, start: nat)
    requires Readable(t.low) && Readable(t.high) && SortedRows(rows)
    requires Exact(t, codes) <==> !ShortAtBoundary(codes)
    requires start == if rows != [] && rows[0].code == 0 then 0 else 1
    requires forall c: nat :: c in codes <==> start <= c < NUM_CODEPOINTS && EscapedAt(rows, c)
    requires ExactBelow(t, codes)
    ensures Agrees(t, rows) <==> StartsAtZero(rows) && !ShortRow(rows)
  {
    assert ShortRow(rows) <==> ShortAtBoundary(codes);
    if start == 1 {
      ZeroUnlisted(rows);
      assert 0 !in codes;
    } else {
      assert Agrees(t, rows) <==> Exact(t, codes) by {
        assert forall cp: nat :: cp < NUM_CODEPOINTS ==> (cp in codes <==> EscapedAt(rows, cp));
      }
    }
  }
}
