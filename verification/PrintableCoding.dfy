// The two table codings and the C++ lookup that reads them back.
module PrintableCoding {
  import opened Basics
  import opened PrintableRanges

  // ----- singletons: upper halves with counts, and lower halves

  datatype Group = Group(upper: nat, count: nat)

  ghost function Total(groups: seq<Group>): nat {
    if groups == [] then 0 else groups[0].count + Total(groups[1..])
  }

  function Members(upper: nat, lowers: seq<nat>): (r: seq<nat>)
    ensures |r| == |lowers|
  {
    seq(|lowers|, i requires 0 <= i < |lowers| => upper * 0x100 + lowers[i])
  }

  /** The code points that groups and lowers stand for. */
  ghost function Expand(groups: seq<Group>, lowers: seq<nat>): (r: seq<nat>)
    requires Total(groups) <= |lowers|
    ensures |r| == Total(groups)
  {
    if groups == [] then []
    else
      Members(groups[0].upper, lowers[..groups[0].count]) + Expand(groups[1..], lowers[groups[0].count..])
  }

  lemma {:induction false} TotalAppend(a: seq<Group>, b: seq<Group>)
    ensures Total(a + b) == Total(a) + Total(b)
  {
    if a == [] {
      assert a + b == b;
    } else {
      assert (a + b)[1..] == a[1..] + b;
      TotalAppend(a[1..], b);
    }
  }

  lemma {:induction false} ExpandAppend(a: seq<Group>, b: seq<Group>, l: seq<nat>, m: seq<nat>)
    requires Total(a) == |l| && Total(b) <= |m|
    ensures Total(a + b) <= |l + m| && Expand(a + b, l + m) == Expand(a, l) + Expand(b, m)
  {
    TotalAppend(a, b);
    if a == [] {
      assert a + b == b && l + m == m;
    } else {
      var n := a[0].count;
      assert (a + b)[1..] == a[1..] + b;
      assert (l + m)[..n] == l[..n] && (l + m)[n..] == l[n..] + m;
      ExpandAppend(a[1..], b, l[n..], m);
      Associative(Members(a[0].upper, l[..n]), Expand(a[1..], l[n..]), Expand(b, m));
    }
  }

  /** One more group behind others. */
  lemma ExpandWithLast(front: seq<Group>, g: Group, l: seq<nat>, m: seq<nat>)
    requires Total(front) == |l| && g.count == |m|
    ensures Total(front + [g]) == |l| + |m| && Expand(front + [g], l + m) == Expand(front, l) + Members(g.upper, m)
  {
    ExpandOne(g, m);
    TotalAppend(front, [g]);
    ExpandAppend(front, [g], l, m);
  }

  lemma ExpandOne(g: Group, lowers: seq<nat>)
    requires g.count == |lowers|
    ensures Total([g]) == |lowers|
    ensures Expand([g], lowers) == Members(g.upper, lowers)
  {
    assert [g][1..] == [] && lowers[..g.count] == lowers;
  }

  ghost predicate UppersAscend(groups: seq<Group>) {
    forall i, j :: 0 <= i < j < |groups| ==> groups[i].upper < groups[j].upper
  }

  /** At most two of any three consecutive code points are listed. */
  ghost predicate Sparse(s: seq<nat>) {
    forall i :: 0 <= i < |s| - 2 ==> s[i] + 3 <= s[i + 2]
  }

  lemma {:induction false} SparseSpread(s: seq<nat>, i: nat, n: nat)
    requires Ascending(s) && Sparse(s) && n >= 1 && i + n <= |s|
    ensures s[i] + 3 * ((n - 1) / 2) + (n - 1) % 2 <= s[i + n - 1]
    decreases n
  {
    if n > 2 {
      SparseSpread(s, i, n - 2);
      assert s[i + n - 3] + 3 <= s[i + n - 1];
    }
  }

  /** The tables spell out the first i singletons. */
  ghost predicate Spells(singletons: seq<nat>, i: nat, uppers: seq<Group>, lowers: seq<nat>)
    requires i <= |singletons|
  {
    Total(uppers) == |lowers| == i && Expand(uppers, lowers) == singletons[..i]
  }

  /** The members of the last group are the last of the first i singletons. */
  ghost predicate LastGroup(singletons: seq<nat>, i: nat, uppers: seq<Group>)
    requires i <= |singletons|
  {
    if uppers == [] then i == 0
    else
      var last := uppers[|uppers| - 1];
      1 <= last.count <= i && forall j :: i - last.count <= j < i ==> singletons[j] / 0x100 == last.upper
  }

  lemma NewGroup(singletons: seq<nat>, i: nat, uppers: seq<Group>, lowers: seq<nat>)
    requires i < |singletons| && Spells(singletons, i, uppers, lowers)
    ensures var s := singletons[i];
            Spells(singletons, i + 1, uppers + [Group(s / 0x100, 1)], lowers + [s % 0x100])
  {
    var s := singletons[i];
    var g := Group(s / 0x100, 1);
    ExpandOne(g, [s % 0x100]);
    ExpandAppend(uppers, [g], lowers, [s % 0x100]);
    TotalAppend(uppers, [g]);
    assert Expand([g], [s % 0x100]) == [s];
    assert singletons[..i + 1] == singletons[..i] + [s];
  }

  lemma SameGroup(singletons: seq<nat>, i: nat, uppers: seq<Group>, lowers: seq<nat>)
    requires i < |singletons| && Spells(singletons, i, uppers, lowers)
    requires uppers != [] && uppers[|uppers| - 1].upper == singletons[i] / 0x100
    ensures var s, last := singletons[i], uppers[|uppers| - 1];
            Spells(singletons, i + 1, uppers[..|uppers| - 1] + [last.(count := last.count + 1)], lowers + [s % 0x100])
  {
    var s, last := singletons[i], uppers[|uppers| - 1];
    var front := uppers[..|uppers| - 1];
    assert uppers == front + [last];
    GrowLast(front, last, lowers, s % 0x100);
    assert last.upper * 0x100 + s % 0x100 == s;
    assert singletons[..i + 1] == singletons[..i] + [s];
  }

  lemma MembersMore(upper: nat, m: seq<nat>, lower: nat)
    ensures Members(upper, m + [lower]) == Members(upper, m) + [upper * 0x100 + lower]
  {}

  /** Counting one more member of the last group appends one code point. */
  lemma GrowLast(front: seq<Group>, last: Group, lowers: seq<nat>, lower: nat)
    requires Total(front + [last]) == |lowers|
    ensures var bigger := last.(count := last.count + 1);
            && Total(front + [bigger]) == |lowers| + 1
            && Expand(front + [bigger], lowers + [lower]) == Expand(front + [last], lowers) + [last.upper * 0x100 + lower]
  {
    hide Expand, Members;
    var bigger := last.(count := last.count + 1);
    TotalAppend(front, [last]);
    assert Total([last]) == last.count + Total([last][1..]);
    var l, m := lowers[..Total(front)], lowers[Total(front)..];
    assert lowers == l + m && lowers + [lower] == l + (m + [lower]);
    ExpandWithLast(front, last, l, m);
    ExpandWithLast(front, bigger, l, m + [lower]);
    MembersMore(last.upper, m, lower);
    Associative(Expand(front, l), Members(last.upper, m), [last.upper * 0x100 + lower]);
  }

  /** Groups ascend, the last one is current, and sparse singletons keep them small. */
  ghost predicate Grouped(singletons: seq<nat>, i: nat, uppers: seq<Group>)
    requires i <= |singletons|
  {
    && LastGroup(singletons, i, uppers) && UppersAscend(uppers)
    && (Sparse(singletons) ==> forall g <- uppers :: 1 <= g.count <= 171)
  }

  lemma GroupedNew(singletons: seq<nat>, i: nat, uppers: seq<Group>)
    requires Ascending(singletons) && i < |singletons| && Grouped(singletons, i, uppers)
    requires uppers == [] || uppers[|uppers| - 1].upper != singletons[i] / 0x100
    ensures Grouped(singletons, i + 1, uppers + [Group(singletons[i] / 0x100, 1)])
  {
    assert uppers != [] ==> singletons[i - 1] / 0x100 == uppers[|uppers| - 1].upper;
  }

  lemma GroupedSame(singletons: seq<nat>, i: nat, uppers: seq<Group>)
    requires Ascending(singletons) && i < |singletons| && Grouped(singletons, i, uppers)
    requires uppers != [] && uppers[|uppers| - 1].upper == singletons[i] / 0x100
    ensures var last := uppers[|uppers| - 1];
            Grouped(singletons, i + 1, uppers[..|uppers| - 1] + [last.(count := last.count + 1)])
  {
    var last := uppers[|uppers| - 1];
    if Sparse(singletons) {
      SparseSpread(singletons, i - last.count, last.count + 1);
      assert singletons[i - last.count] / 0x100 == last.upper;
    }
  }

  /** Everything the loop keeps. */
  ghost predicate Compressed(singletons: seq<nat>, i: nat, uppers: seq<Group>, lowers: seq<nat>)
    requires i <= |singletons|
  {
    && Spells(singletons, i, uppers, lowers)
    && Grouped(singletons, i, uppers)
    && forall l <- lowers :: l < 0x100
  }

  /** What the loop does with the next singleton. */
  function Count(uppers: seq<Group>, upper: nat): seq<Group> {
    if uppers == [] || uppers[|uppers| - 1].upper != upper then uppers + [Group(upper, 1)]
    else
      var last := uppers[|uppers| - 1];
      uppers[|uppers| - 1 := Group(upper, last.count + 1)]
  }

  lemma CompressedNew(singletons: seq<nat>, i: nat, uppers: seq<Group>, lowers: seq<nat>)
    requires Ascending(singletons) && i < |singletons| && Compressed(singletons, i, uppers, lowers)
    requires uppers == [] || uppers[|uppers| - 1].upper != singletons[i] / 0x100
    ensures Compressed(singletons, i + 1, uppers + [Group(singletons[i] / 0x100, 1)], lowers + [singletons[i] % 0x100])
  {
    NewGroup(singletons, i, uppers, lowers);
    GroupedNew(singletons, i, uppers);
  }

  lemma CompressedSame(singletons: seq<nat>, i: nat, uppers: seq<Group>, lowers: seq<nat>)
    requires Ascending(singletons) && i < |singletons| && Compressed(singletons, i, uppers, lowers)
    requires uppers != [] && uppers[|uppers| - 1].upper == singletons[i] / 0x100
    ensures var last := uppers[|uppers| - 1];
            Compressed(singletons, i + 1, uppers[..|uppers| - 1] + [last.(count := last.count + 1)], lowers + [singletons[i] % 0x100])
  {
    SameGroup(singletons, i, uppers, lowers);
    GroupedSame(singletons, i, uppers);
  }

  /** Counting is starting a group, or one more in the last. */
  lemma CountMeans(uppers: seq<Group>, upper: nat)
    ensures var starts := uppers == [] || uppers[|uppers| - 1].upper != upper;
            Count(uppers, upper) == if starts then uppers + [Group(upper, 1)]
                                    else var last := uppers[|uppers| - 1]; uppers[..|uppers| - 1] + [last.(count := last.count + 1)]
  {}

  lemma CompressedStep(singletons: seq<nat>, i: nat, uppers: seq<Group>, lowers: seq<nat>)
    requires Ascending(singletons) && i < |singletons| && Compressed(singletons, i, uppers, lowers)
    ensures Compressed(singletons, i + 1, Count(uppers, singletons[i] / 0x100), lowers + [singletons[i] % 0x100])
  {
    CountMeans(uppers, singletons[i] / 0x100);
    if uppers == [] || uppers[|uppers| - 1].upper != singletons[i] / 0x100 {
      CompressedNew(singletons, i, uppers, lowers);
    } else {
      CompressedSame(singletons, i, uppers, lowers);
    }
  }

  ghost predicate HasUpper(uppers: seq<Group>, upper: nat) {
    exists g <- uppers :: g.upper == upper
  }

  /** What groups and lowers stand for has these lowers as its lower bytes, and its upper
      bytes among the groups. */
  lemma {:induction false} ExpandHalves(groups: seq<Group>, lowers: seq<nat>)
    requires Total(groups) == |lowers| && forall l <- lowers :: l < 0x100
    ensures var s := Expand(groups, lowers);
            forall i :: 0 <= i < |s| ==> s[i] % 0x100 == lowers[i] && HasUpper(groups, s[i] / 0x100)
  {
    if groups != [] {
      var g, s := groups[0], Expand(groups, lowers);
      var head, mine, tail := Members(g.upper, lowers[..g.count]), lowers[..g.count], lowers[g.count..];
      assert forall l <- tail :: l in lowers;
      ExpandHalves(groups[1..], tail);
      forall i | 0 <= i < |s| ensures s[i] % 0x100 == lowers[i] && HasUpper(groups, s[i] / 0x100) {
        if i < g.count {
          assert s[i] == head[i] == g.upper * 0x100 + lowers[i] && lowers[i] in lowers;
          assert g in groups;
        } else {
          var k :| 0 <= k < |groups[1..]| && groups[1..][k].upper == s[i] / 0x100;
          assert groups[k + 1] == groups[1..][k];
        }
      }
    }
  }

  method CompressSingletons(singletons: seq<nat>) returns (uppers: seq<Group>, lowers: seq<nat>)
    requires Ascending(singletons)
    ensures Total(uppers) == |lowers| == |singletons|
    ensures Expand(uppers, lowers) == singletons
    ensures UppersAscend(uppers) && forall l <- lowers :: l < 0x100
    ensures forall i :: 0 <= i < |singletons| ==> lowers[i] == singletons[i] % 0x100 && HasUpper(uppers, singletons[i] / 0x100)
    ensures Sparse(singletons) ==> forall g <- uppers :: 1 <= g.count <= 171
  {
    uppers, lowers := [], [];
    for i := 0 to |singletons|
      invariant Compressed(singletons, i, uppers, lowers)
    {
      CompressedStep(singletons, i, uppers, lowers);
      var upper, lower := singletons[i] / 0x100, singletons[i] % 0x100;
      if |uppers| == 0 || uppers[|uppers| - 1].upper != upper {
        uppers := uppers + [Group(upper, 1)];
      } else {
        var count := uppers[|uppers| - 1].count;
        uppers := uppers[|uppers| - 1 := Group(upper, count + 1)];
      }
      lowers := lowers + [lower];
    }
    assert singletons[..|singletons|] == singletons;
    ExpandHalves(uppers, lowers);
  }

  // ----- normal runs: gaps and lengths in one or two bytes

  datatype Run = Run(start: nat, count: nat)

  /** Ascending and disjoint, from prev on. */
  ghost predicate RunsFrom(runs: seq<Run>, prev: nat) {
    runs != [] ==> prev <= runs[0].start && RunsFrom(runs[1..], runs[0].start + runs[0].count)
  }

  ghost predicate InRun(r: Run, c: int) {
    r.start <= c < r.start + r.count
  }

  ghost predicate InRuns(runs: seq<Run>, c: int) {
    exists r <- runs :: InRun(r, c)
  }

  /** What the assertion demands: every gap and every length is below 0x8000. */
  ghost predicate Encodable(runs: seq<Run>, prev: nat) {
    runs != [] ==>
      && runs[0].start - prev < 0x8000 && runs[0].count < 0x8000
      && Encodable(runs[1..], runs[0].start + runs[0].count)
  }

  /** Gap, length, gap, length, ... */
  ghost function Lengths(runs: seq<Run>, prev: nat): (r: seq<nat>)
    requires RunsFrom(runs, prev)
    ensures |r| == 2 * |runs|
  {
    if runs == [] then []
    else [runs[0].start - prev, runs[0].count] + Lengths(runs[1..], runs[0].start + runs[0].count)
  }

  /** No byte announces a second byte that is missing. */
  ghost predicate WellCoded(bytes: seq<nat>) {
    bytes != [] ==>
      if bytes[0] < 0x80 then WellCoded(bytes[1..])
      else bytes[0] < 0x100 && |bytes| >= 2 && bytes[1] < 0x100 && WellCoded(bytes[2..])
  }

  lemma {:induction false} CodedBytes(bytes: seq<nat>)
    requires WellCoded(bytes)
    ensures forall b <- bytes :: b < 0x100
  {
    if bytes != [] {
      var n := if bytes[0] < 0x80 then 1 else 2;
      CodedBytes(bytes[n..]);
      assert bytes == bytes[..n] + bytes[n..];
    }
  }

  /** The documented rule: one byte up to 7f, else two bytes with the top bit set. */
  ghost function DecodeLengths(bytes: seq<nat>): seq<nat> {
    if bytes == [] then []
    else if bytes[0] < 0x80 then [bytes[0]] + DecodeLengths(bytes[1..])
    else if |bytes| == 1 then []
    else [TwoBytes(bytes[0], bytes[1])] + DecodeLengths(bytes[2..])
  }

  /** (a & 7f) << 8 | b, for a byte a with its top bit set. */
  function TwoBytes(a: nat, b: nat): nat {
    (a % 0x80) * 0x100 + b
  }

  /** Runs from gaps and lengths. */
  ghost function DecodeRuns(lengths: seq<nat>, prev: nat): seq<Run> {
    if |lengths| < 2 then []
    else
      var start := prev + lengths[0];
      [Run(start, lengths[1])] + DecodeRuns(lengths[2..], start + lengths[1])
  }

  function Flatten(entries: seq<seq<nat>>): seq<nat> {
    if entries == [] then [] else entries[0] + Flatten(entries[1..])
  }

  lemma {:induction false} FlattenAppend(a: seq<seq<nat>>, b: seq<nat>)
    ensures Flatten(a + [b]) == Flatten(a) + b
  {
    if a == [] {
      assert [b][1..] == [];
      assert a + [b] == [b];
    } else {
      assert (a + [b])[1..] == a[1..] + [b];
      FlattenAppend(a[1..], b);
    }
  }

  lemma {:induction false} CodedAppend(a: seq<nat>, b: seq<nat>)
    requires WellCoded(a)
    ensures WellCoded(b) ==> WellCoded(a + b)
    ensures DecodeLengths(a + b) == DecodeLengths(a) + DecodeLengths(b)
  {
    if a == [] {
      assert a + b == b;
    } else {
      var n := if a[0] < 0x80 then 1 else 2;
      assert (a + b)[n..] == a[n..] + b;
      CodedAppend(a[n..], b);
      var first := if n == 1 then a[0] else TwoBytes(a[0], a[1]);
      Associative([first], DecodeLengths(a[n..]), DecodeLengths(b));
    }
  }

  lemma {:induction false} RunsRoundTrip(runs: seq<Run>, prev: nat)
    requires RunsFrom(runs, prev)
    ensures DecodeRuns(Lengths(runs, prev), prev) == runs
  {
    if runs != [] {
      var next := runs[0].start + runs[0].count;
      RunsRoundTrip(runs[1..], next);
      assert Lengths(runs, prev)[2..] == Lengths(runs[1..], next);
    }
  }

  /** The bytes of one length. */
  function Code(length: nat): (bytes: seq<nat>)
    requires length < 0x8000
    ensures WellCoded(bytes) && DecodeLengths(bytes) == [length]
  {
    if length > 0x7f then
      var bytes := [0x80 + length / 0x100, length % 0x100];
      assert bytes[2..] == [] && TwoBytes(bytes[0], bytes[1]) == length;
      bytes
    else
      var bytes := [length % 0x80];
      assert bytes[1..] == [];
      bytes
  }

  /** As documented: lengths 0 to 7f are one byte, 80 to 7fff are the two bytes 80 80 to
      ff ff, the higher one first. */
  lemma CodeForm(length: nat)
    requires length < 0x8000
    ensures length <= 0x7f ==> Code(length) == [length]
    ensures length > 0x7f ==>
              var bytes := Code(length);
              |bytes| == 2 && bytes[0] < 0x100 && bytes[1] < 0x100 && bytes[0] * 0x100 + bytes[1] == 0x8000 + length
  {}

  lemma TwoBytesForm(a: nat, b: nat)
    requires 0x80 <= a < 0x100 && b < 0x100
    ensures 0x8000 + TwoBytes(a, b) == a * 0x100 + b
  {
    assert a % 0x80 == a - 0x80;
  }

  datatype Coded = Encoded(entries: seq<seq<nat>>) | AssertionError

  /** One entry of the table: a gap and a length, in one or two bytes each. */
  method Entry(truelen: nat, falselen: nat) returns (entry: seq<nat>)
    requires truelen < 0x8000 && falselen < 0x8000
    ensures WellCoded(entry) && DecodeLengths(entry) == [truelen, falselen] && entry == Code(truelen) + Code(falselen)
  {
    EntryDecodes(truelen, falselen);
    entry := [];
    if truelen > 0x7f {
      entry := entry + [0x80 + truelen / 0x100];
      entry := entry + [truelen % 0x100];
    } else {
      entry := entry + [truelen % 0x80];
    }
    if falselen > 0x7f {
      entry := entry + [0x80 + falselen / 0x100];
      entry := entry + [falselen % 0x100];
    } else {
      entry := entry + [falselen % 0x80];
    }
    assert entry == Code(truelen) + Code(falselen);
  }

  method CompressNormal(normal: seq<Run>) returns (r: Coded)
    requires RunsFrom(normal, 0)
    ensures r.Encoded? <==> Encodable(normal, 0)
    ensures r.Encoded? ==>
              var bytes := Flatten(r.entries);
              WellCoded(bytes) && DecodeLengths(bytes) == Lengths(normal, 0) && DecodeRuns(DecodeLengths(bytes), 0) == normal
  {
    var compressed: seq<seq<nat>> := [];
    var prev: nat := 0;
    ghost var lengths, encodable := Lengths(normal, 0), Encodable(normal, 0);
    hide WellCoded, DecodeLengths;
    for i := 0 to |normal|
      invariant Progress(lengths, encodable, normal[i..], prev, Flatten(compressed))
    {
      var run := normal[i];
      assert normal[i..][1..] == normal[i + 1..];
      var truelen: nat, falselen := run.start - prev, run.count;
      prev := run.start + run.count;
      if !(truelen < 0x8000 && falselen < 0x8000) {
        return AssertionError;
      }
      var entry := Entry(truelen, falselen);
      ProgressStep(lengths, encodable, normal[i..], run.start - truelen, Flatten(compressed), entry);
      FlattenAppend(compressed, entry);
      compressed := compressed + [entry];
    }
    RunsRoundTrip(normal, 0);
    r := Encoded(compressed);
  }

  /** The bytes so far code the runs before the tail, which starts at prev. */
  ghost predicate Progress(lengths: seq<nat>, encodable: bool, tail: seq<Run>, prev: nat, bytes: seq<nat>) {
    && RunsFrom(tail, prev)
    && (encodable <==> Encodable(tail, prev))
    && WellCoded(bytes)
    && lengths == DecodeLengths(bytes) + Lengths(tail, prev)
  }

  lemma FirstRun(runs: seq<Run>, prev: nat)
    requires runs != [] && RunsFrom(runs, prev)
    ensures var gap, count, end := runs[0].start - prev, runs[0].count, runs[0].start + runs[0].count;
            && Lengths(runs, prev) == [gap, count] + Lengths(runs[1..], end)
            && (Encodable(runs, prev) <==> gap < 0x8000 && count < 0x8000 && Encodable(runs[1..], end))
  {}

  lemma ProgressStep(lengths: seq<nat>, encodable: bool, tail: seq<Run>, prev: nat, bytes: seq<nat>, entry: seq<nat>)
    requires tail != [] && Progress(lengths, encodable, tail, prev, bytes)
    requires tail[0].start - prev < 0x8000 && tail[0].count < 0x8000
    requires WellCoded(entry) && DecodeLengths(entry) == [tail[0].start - prev, tail[0].count]
    ensures Progress(lengths, encodable, tail[1..], tail[0].start + tail[0].count, bytes + entry)
  {
    hide DecodeLengths, WellCoded, Lengths, Encodable;
    var truelen, falselen := tail[0].start - prev, tail[0].count;
    FirstRun(tail, prev);
    CodedAppend(bytes, entry);
    Associative(DecodeLengths(bytes), [truelen, falselen], Lengths(tail[1..], tail[0].start + falselen));
  }

  lemma EntryDecodes(truelen: nat, falselen: nat)
    requires truelen < 0x8000 && falselen < 0x8000
    ensures var entry := Code(truelen) + Code(falselen); WellCoded(entry) && DecodeLengths(entry) == [truelen, falselen]
  {}
}
