// From the rows of the character database to maximal ranges of escaped code points.
module PrintableRanges {

  const NUM_CODEPOINTS := 0x110000
  const CUTOFF := 0x10000

  datatype Mark = First | Last | Plain

  /** A row of UnicodeData.txt: its code, how its name ends, its general category. */
  datatype Row = Row(code: nat, mark: Mark, category: string)

  /** No category stands for None. */
  datatype Category = Unassigned | Category(name: string)

  datatype Codepoint = Codepoint(value: nat, category: Category)

  datatype Listing = Listed(points: seq<Codepoint>) | MissingLast

  // ----- the database rows

  ghost predicate SortedRows(rows: seq<Row>) {
    && (forall i, j :: 0 <= i < j < |rows| ==> rows[i].code < rows[j].code)
    && (forall i :: 0 <= i < |rows| ==> rows[i].code < NUM_CODEPOINTS)
  }

  /** Every First row is directly followed by a Last row. */
  ghost predicate Paired(rows: seq<Row>) {
    forall i :: 0 <= i < |rows| && rows[i].mark == First ==> i + 1 < |rows| && rows[i + 1].mark == Last
  }

  /** The last row at or below a code, or -1. */
  ghost function RowBelow(rows: seq<Row>, code: nat): (i: int)
    ensures -1 <= i < |rows|
  {
    if rows == [] then -1
    else if rows[|rows| - 1].code <= code then |rows| - 1
    else RowBelow(rows[..|rows| - 1], code)
  }

  /** A code has the category of its own row, or of the First row below it. */
  ghost function CategoryAt(rows: seq<Row>, code: nat): Category {
    var i := RowBelow(rows, code);
    if i >= 0 && (rows[i].code == code || rows[i].mark == First) then Category(rows[i].category) else Unassigned
  }

  lemma {:induction false} RowBelowIs(rows: seq<Row>, code: nat, i: int)
    requires SortedRows(rows) && -1 <= i < |rows|
    requires i >= 0 ==> rows[i].code <= code
    requires i + 1 < |rows| ==> code < rows[i + 1].code
    ensures RowBelow(rows, code) == i
  {
    if i + 1 < |rows| {
      var most := rows[..|rows| - 1];
      assert SortedRows(most);
      assert code < rows[|rows| - 1].code;
      RowBelowIs(most, code, i);
    }
  }

  /** The points listed so far are start, start + 1, ... with their categories. */
  ghost predicate ListsPoints(rows: seq<Row>, points: seq<Codepoint>, start: nat) {
    forall k :: 0 <= k < |points| ==> points[k] == Codepoint(start + k, CategoryAt(rows, start + k))
  }

  /** Appends the codes from one below another, all in one category. */
  method ListGap(rows: seq<Row>, points: seq<Codepoint>, from: nat, to: nat, category: Category, ghost start: nat, ghost i: int)
    returns (r: seq<Codepoint>)
    requires SortedRows(rows) && ListsPoints(rows, points, start)
    requires from < to ==> start + |points| == from
    requires -1 <= i < |rows| && (i >= 0 ==> rows[i].code < from) && (i + 1 < |rows| ==> to <= rows[i + 1].code)
    requires category == if i >= 0 && rows[i].mark == First then Category(rows[i].category) else Unassigned
    ensures ListsPoints(rows, r, start) && points <= r
    ensures |r| == |points| + if from < to then to - from else 0
  {
    r := points;
    var c := from;
    while c < to
      invariant from <= c && (c <= to || c == from)
      invariant ListsPoints(rows, r, start) && points <= r && |r| == |points| + (c - from)
    {
      RowBelowIs(rows, c, i);
      r := r + [Codepoint(c, category)];
      c := c + 1;
    }
  }

  /** A row's own code comes next. */
  lemma RowListed(rows: seq<Row>, points: seq<Codepoint>, start: nat, i: nat)
    requires SortedRows(rows) && ListsPoints(rows, points, start) && i < |rows| && start + |points| == rows[i].code
    ensures ListsPoints(rows, points + [Codepoint(rows[i].code, Category(rows[i].category))], start)
  {
    RowBelowIs(rows, rows[i].code, i);
  }

  /** Lists every code point once and in order, except that code 0 is missed
      when the database does not start with it. */
  method GetCodepoints(rows: seq<Row>) returns (r: Listing)
    requires SortedRows(rows)
    ensures r.Listed? <==> Paired(rows)
    ensures r.Listed? ==>
              var start := if rows != [] && rows[0].code == 0 then 0 else 1;
              |r.points| == NUM_CODEPOINTS - start && ListsPoints(rows, r.points, start)
  {
    var points: seq<Codepoint> := [];
    var prev: nat := 0;
    var first := Unassigned;
    ghost var start := if rows != [] && rows[0].code == 0 then 0 else 1;
    for i := 0 to |rows|
      invariant ListsPoints(rows, points, start)
      invariant i == 0 ==> points == [] && prev == 0 && first == Unassigned
      invariant i > 0 ==> prev == rows[i - 1].code && start + |points| == prev + 1
      invariant first == if i > 0 && rows[i - 1].mark == First then Category(rows[i - 1].category) else Unassigned
      invariant forall j :: 0 < j < i && rows[j - 1].mark == First ==> rows[j].mark == Last
    {
      var row := rows[i];
      if first != Unassigned && row.mark != Last {
        return MissingLast;
      }
      points := ListGap(rows, points, prev + 1, row.code, first, start, i - 1);
      first := if row.mark == First then Category(row.category) else Unassigned;
      RowListed(rows, points, start, i);
      points := points + [Codepoint(row.code, Category(row.category))];
      prev := row.code;
    }
    if first != Unassigned {
      return MissingLast;
    }
    points := ListGap(rows, points, prev + 1, NUM_CODEPOINTS, first, start, |rows| - 1);
    r := Listed(points);
  }

  // ----- escaped code points

  /** An empty category counts as none. */
  predicate Escaped(c: Codepoint) {
    && (c.category == Unassigned || c.category.name in {"", "Cc", "Cf", "Cs", "Co", "Cn", "Zl", "Zp", "Zs"})
    && c.value != ' ' as int
  }

  /** The general categories of the Unicode character database. */
  const GENERAL: set<string> :=
    {"Lu", "Ll", "Lt", "Lm", "Lo", "Mn", "Mc", "Me", "Nd", "Nl", "No", "Pc", "Pd", "Ps", "Pe", "Pi", "Pf", "Po",
     "Sm", "Sc", "Sk", "So", "Zs", "Zl", "Zp", "Cc", "Cf", "Cs", "Co", "Cn"}

  /** Of the general categories exactly those of controls and separators are escaped, and
      code points without one; the space is not. */
  lemma EscapedIff(c: Codepoint)
    requires c.category.Unassigned? || c.category.name == "" || c.category.name in GENERAL
    ensures Escaped(c) <==>
              c.value != 0x20 && (c.category.Unassigned? || c.category.name == "" || c.category.name[0] in {'C', 'Z'})
  {}

  ghost predicate Ascending(s: seq<nat>) {
    forall i, j :: 0 <= i < j < |s| ==> s[i] < s[j]
  }

  /** Keeps the values of the escaped points, in order. */
  method GetEscaped(points: seq<Codepoint>) returns (codes: seq<nat>)
    requires forall i, j :: 0 <= i < j < |points| ==> points[i].value < points[j].value
    ensures Ascending(codes)
    ensures forall c: nat :: c in codes <==> exists i :: 0 <= i < |points| && points[i].value == c && Escaped(points[i])
  {
    codes := [];
    for k := 0 to |points|
      invariant Ascending(codes)
      invariant forall i, j :: 0 <= i < |codes| && k <= j < |points| ==> codes[i] < points[j].value
      invariant forall c <- codes :: exists i :: 0 <= i < k && points[i].value == c && Escaped(points[i])
      invariant forall i :: 0 <= i < k && Escaped(points[i]) ==> points[i].value in codes
    {
      if Escaped(points[k]) {
        codes := codes + [points[k].value];
      }
    }
  }

  // ----- maximal ranges

  /** The codes from lo up to, not including, hi. */
  datatype Range = Range(lo: nat, hi: nat)

  ghost predicate InRange(r: Range, c: nat) {
    r.lo <= c < r.hi
  }

  ghost predicate InRanges(rs: seq<Range>, c: nat) {
    exists r <- rs :: InRange(r, c)
  }

  /** Not empty, and not across a boundary. */
  ghost predicate Whole(r: Range) {
    r.lo < r.hi && !(r.lo < CUTOFF < r.hi) && !(r.lo < 2 * CUTOFF < r.hi)
  }

  /** Apart, unless a boundary separates them. */
  ghost predicate Apart(a: Range, b: Range) {
    a.hi < b.lo || (a.hi == b.lo && b.lo in {CUTOFF, 2 * CUTOFF})
  }

  ghost predicate Maximal(rs: seq<Range>) {
    && (forall i :: 0 <= i < |rs| ==> Whole(rs[i]))
    && (forall i, j :: 0 <= i < j < |rs| ==> Apart(rs[i], rs[j]))
  }

  method ToRanges(codes: seq<nat>) returns (rs: seq<Range>)
    requires Ascending(codes)
    ensures Maximal(rs)
    ensures forall c: nat :: c in codes <==> InRanges(rs, c)
  {
    rs := [];
    if codes == [] {
      return;
    }
    var lo: nat, hi: nat := codes[0], codes[0] + 1;
    for k := 1 to |codes|
      invariant Maximal(rs) && Whole(Range(lo, hi)) && forall j :: 0 <= j < |rs| ==> Apart(rs[j], Range(lo, hi))
      invariant hi == codes[k - 1] + 1
      invariant forall c: nat :: c in codes[..k] <==> InRanges(rs, c) || lo <= c < hi
    {
      var i := codes[k];
      assert codes[..k + 1] == codes[..k] + [i];
      if i != hi || i == CUTOFF || i == 2 * CUTOFF {
        forall c: nat ensures InRanges(rs + [Range(lo, hi)], c) <==> InRanges(rs, c) || lo <= c < hi {
          InRangesAppend(rs, Range(lo, hi), c);
        }
        rs := rs + [Range(lo, hi)];
        lo, hi := i, i + 1;
      } else {
        hi := hi + 1;
      }
    }
    assert codes[..|codes|] == codes;
    forall c: nat ensures InRanges(rs + [Range(lo, hi)], c) <==> InRanges(rs, c) || lo <= c < hi {
      InRangesAppend(rs, Range(lo, hi), c);
    }
    rs := rs + [Range(lo, hi)];
  }

  lemma InRangesAppend(rs: seq<Range>, r: Range, c: nat)
    ensures InRanges(rs + [r], c) <==> InRanges(rs, c) || InRange(r, c)
  {}
}
