// Taking a text apart at its blanks, as str.split() does for ASCII texts.
module DocoptWords {

  predicate IsSpace(c: char) {
    c == ' ' || '\t' <= c <= '\r' || '\U{1c}' <= c <= '\U{1f}'
  }

  /** The blanks among the ASCII codes. */
  lemma Blanks(c: char)
    ensures IsSpace(c) <==> c as int in {9, 10, 11, 12, 13, 28, 29, 30, 31, 32}
  {}

  /** The words of a text, where the characters in word were read before it. */
  function Split(s: string, word: string := ""): seq<string> {
    if s == "" then (if word == "" then [] else [word])
    else if IsSpace(s[0]) then (if word == "" then [] else [word]) + Split(s[1..])
    else Split(s[1..], word + [s[0]])
  }

  predicate Blank(s: string) {
    forall c <- s :: IsSpace(c)
  }

  predicate Word(s: string) {
    s != "" && forall c <- s :: !IsSpace(c)
  }

  /** Words between gaps: blanks may stand at either end and must stand in between. */
  ghost predicate Spaced(ws: seq<string>, gaps: seq<string>) {
    && |gaps| == |ws| + 1
    && (forall w <- ws :: Word(w))
    && (forall g <- gaps :: Blank(g))
    && (forall k :: 0 < k < |ws| ==> gaps[k] != "")
  }

  /** The words written out with their gaps. */
  ghost function Laid(ws: seq<string>, gaps: seq<string>): string
    requires |gaps| == |ws| + 1
  {
    if ws == [] then gaps[0] else gaps[0] + ws[0] + Laid(ws[1..], gaps[1..])
  }

  lemma {:induction false} SplitGap(gap: string, s: string)
    requires Blank(gap)
    ensures Split(gap + s) == Split(s)
  {
    if gap == "" {
      assert gap + s == s;
    } else {
      assert gap[0] in gap && (gap + s)[1..] == gap[1..] + s;
      SplitGap(gap[1..], s);
    }
  }

  lemma {:induction false} SplitLetters(w: string, s: string, word: string)
    requires forall c <- w :: !IsSpace(c)
    ensures Split(w + s, word) == Split(s, word + w)
  {
    if w == "" {
      assert w + s == s && word + w == word;
    } else {
      assert w[0] in w && (w + s)[1..] == w[1..] + s;
      SplitLetters(w[1..], s, word + [w[0]]);
      assert word + [w[0]] + w[1..] == word + w;
    }
  }

  /** Splitting a text gives exactly the words it was laid out from, whatever the
      blanks between them and at its ends. */
  lemma {:induction false} SplitLaid(ws: seq<string>, gaps: seq<string>)
    requires Spaced(ws, gaps)
    ensures Split(Laid(ws, gaps)) == ws
  {
    assert gaps[0] in gaps;
    if ws == [] {
      SplitGap(gaps[0], "");
      assert gaps[0] + "" == gaps[0];
    } else {
      var rest := Laid(ws[1..], gaps[1..]);
      assert ws[0] in ws;
      SplitGap(gaps[0], ws[0] + rest);
      SplitLetters(ws[0], rest, "");
      assert gaps[0] + ws[0] + rest == gaps[0] + (ws[0] + rest) && "" + ws[0] == ws[0];
      SplitLaid(ws[1..], gaps[1..]);
      if rest == "" {
        assert ws[1..] == [];
      } else {
        LaidStarts(ws[1..], gaps[1..]);
      }
    }
  }

  /** After a word comes a blank, unless the text ends. */
  lemma LaidStarts(ws: seq<string>, gaps: seq<string>)
    requires |gaps| == |ws| + 1 && Blank(gaps[0]) && Laid(ws, gaps) != "" && (ws != [] ==> gaps[0] != "")
    ensures IsSpace(Laid(ws, gaps)[0])
  {
    assert gaps[0][0] in gaps[0];
  }

  /** Every text is laid out from the words it splits into. */
  lemma SplitLayout(s: string) returns (gaps: seq<string>)
    ensures Spaced(Split(s), gaps) && s == Laid(Split(s), gaps)
  {
    gaps := Layout(s, "");
    assert "" + s == s;
  }

  lemma {:induction false} Layout(s: string, word: string) returns (gaps: seq<string>)
    requires forall c <- word :: !IsSpace(c)
    ensures Spaced(Split(s, word), gaps) && word + s == Laid(Split(s, word), gaps)
    decreases |s|
  {
    hide Laid, Spaced;
    if s == "" {
      gaps := if word == "" then [""] else ["", ""];
      LayoutEnd(word);
      assert word + s == word;
    } else if IsSpace(s[0]) {
      var more := Layout(s[1..], "");
      assert "" + s[1..] == s[1..];
      gaps := LayoutSpace(s[0], word, Split(s[1..]), more);
      assert word + s == word + [s[0]] + s[1..];
    } else {
      gaps := Layout(s[1..], word + [s[0]]);
      assert word + [s[0]] + s[1..] == word + s;
    }
  }

  lemma LayoutEnd(word: string)
    requires forall c <- word :: !IsSpace(c)
    ensures word == "" ==> Spaced([], [""]) && Laid([], [""]) == ""
    ensures word != "" ==> Spaced([word], ["", ""]) && Laid([word], ["", ""]) == word
  {
    assert [word][1..] == [] && ["", ""][1..] == [""];
    assert "" + word + "" == word;
  }

  /** A blank ends the word before it. */
  lemma LayoutSpace(c: char, word: string, rest: seq<string>, more: seq<string>) returns (gaps: seq<string>)
    requires IsSpace(c) && (forall d <- word :: !IsSpace(d)) && Spaced(rest, more)
    ensures Spaced((if word == "" then [] else [word]) + rest, gaps)
    ensures Laid((if word == "" then [] else [word]) + rest, gaps) == word + [c] + Laid(rest, more)
  {
    var after := [[c] + more[0]] + more[1..];
    LaidFrom(rest, more, [c]);
    SpacedFrom(rest, more, [c]);
    if word == "" {
      gaps := after;
      assert [] + rest == rest && word + [c] == [c];
    } else {
      gaps := [""] + after;
      assert gaps[1..] == after && ([word] + rest)[1..] == rest;
      assert "" + word + ([c] + Laid(rest, more)) == word + [c] + Laid(rest, more);
    }
  }

  lemma SpacedFrom(ws: seq<string>, gaps: seq<string>, blanks: string)
    requires Spaced(ws, gaps) && Blank(blanks)
    ensures Spaced(ws, [blanks + gaps[0]] + gaps[1..])
  {
    assert gaps[0] in gaps;
  }

  /** Blanks in front lengthen the first gap. */
  lemma LaidFrom(ws: seq<string>, gaps: seq<string>, blanks: string)
    requires |gaps| == |ws| + 1
    ensures Laid(ws, [blanks + gaps[0]] + gaps[1..]) == blanks + Laid(ws, gaps)
  {
    assert ([blanks + gaps[0]] + gaps[1..])[1..] == gaps[1..];
    if ws != [] {
      assert blanks + gaps[0] + ws[0] + Laid(ws[1..], gaps[1..]) == blanks + (gaps[0] + ws[0] + Laid(ws[1..], gaps[1..]));
    }
  }
}
