/** Greedy line breaking of invoice text, and why it is best possible. */
module WrapText {
  import opened Strings

  // ---- words ----

  /** Length of the word at the front. */
  function WordLength(s: string): (n: nat)
    ensures n <= |s|
    ensures s != [] && !IsSpace(s[0]) ==> n > 0
    ensures IsWordChars(s[..n])
    ensures n < |s| ==> IsSpace(s[n])
  {
    if s == [] || IsSpace(s[0]) then 0 else 1 + WordLength(s[1..])
  }

  predicate IsWordChars(s: string) {
    forall i :: 0 <= i < |s| ==> !IsSpace(s[i])
  }

  predicate IsWord(s: string) {
    s != [] && IsWordChars(s)
  }

  ghost predicate AllWords(ws: seq<string>) {
    forall i :: 0 <= i < |ws| ==> IsWord(ws[i])
  }

  /** text.split(/\s+/).filter(Boolean): the maximal runs of non-space characters. */
  function Words(s: string): (ws: seq<string>)
    ensures AllWords(ws)
    decreases |s|
  {
    if s == [] then []
    else if IsSpace(s[0]) then Words(s[1..])
    else [s[..WordLength(s)]] + Words(s[WordLength(s)..])
  }

  function Concat(ws: seq<string>): string {
    if ws == [] then "" else ws[0] + Concat(ws[1..])
  }

  function WithoutSpaces(s: string): string {
    if s == [] then [] else (if IsSpace(s[0]) then [] else [s[0]]) + WithoutSpaces(s[1..])
  }

  lemma {:induction false} WordThenRest(w: string, rest: string)
    requires IsWordChars(w)
    ensures WithoutSpaces(w + rest) == w + WithoutSpaces(rest)
  {
    if w == [] {
      assert w + rest == rest;
    } else {
      assert (w + rest)[1..] == w[1..] + rest;
      WordThenRest(w[1..], rest);
    }
  }

  /** Splitting into words loses the spaces of a text and no other character. */
  lemma {:induction false} WordsKeepCharacters(s: string)
    ensures Concat(Words(s)) == WithoutSpaces(s)
    decreases |s|
  {
    if |s| > 0 {
      if IsSpace(s[0]) {
        WordsKeepCharacters(s[1..]);
      } else {
        var w, rest := s[..WordLength(s)], s[WordLength(s)..];
        assert s == w + rest;
        WordThenRest(w, rest);
        WordsKeepCharacters(rest);
        assert ([w] + Words(rest))[1..] == Words(rest);
      }
    }
  }

  function Join(ws: seq<string>): string {
    if |ws| == 0 then "" else if |ws| == 1 then ws[0] else ws[0] + " " + Join(ws[1..])
  }

  lemma {:induction false} JoinAppend(a: seq<string>, b: seq<string>)
    requires a != [] && b != []
    ensures Join(a + b) == Join(a) + " " + Join(b)
  {
    assert (a + b)[1..] == a[1..] + b;
    if |a| > 1 {
      JoinAppend(a[1..], b);
    } else {
      assert a[1..] + b == b;
    }
  }

  /** A longer line is no narrower. */
  lemma WidthGrows(a: seq<string>, b: seq<string>)
    ensures |Join(a)| <= |Join(a + b)| && |Join(b)| <= |Join(a + b)|
  {
    if a == [] {
      assert a + b == b;
    } else if b == [] {
      assert a + b == a;
    } else {
      JoinAppend(a, b);
    }
  }

  lemma {:induction false} JoinEnds(ws: seq<string>)
    requires AllWords(ws) && ws != []
    ensures Join(ws) != [] && !IsSpace(Join(ws)[0]) && !IsSpace(Join(ws)[|Join(ws)| - 1])
  {
    if |ws| > 1 {
      JoinEnds(ws[1..]);
    }
  }

  /** (cur + " " + w).trim() is the line with the word added. */
  lemma TrimmedLine(ws: seq<string>, w: string)
    requires AllWords(ws) && IsWord(w)
    ensures Trim(Join(ws) + " " + w) == Join(ws + [w])
  {
    if ws == [] {
      assert Join(ws) + " " + w == [' '] + w;
      assert ([' '] + w)[1..] == w;
      assert ws + [w] == [w];
    } else {
      JoinAppend(ws, [w]);
      JoinEnds(ws + [w]);
    }
  }

  lemma JoinTrimmed(ws: seq<string>)
    requires AllWords(ws)
    ensures Trim(Join(ws)) == Join(ws)
  {
    if ws != [] { JoinEnds(ws); }
  }

  // ---- the greedy loop ----

  /** The lines, as groups of words, when `cur` is open and `words` remain. */
  function Greedy(cur: seq<string>, words: seq<string>, maxChars: int): seq<seq<string>>
    decreases |words|
  {
    var closed := if cur == [] then [] else [cur];
    if words == [] then closed
    else if |Join(cur + [words[0]])| > maxChars then closed + Greedy([words[0]], words[1..], maxChars)
    else Greedy(cur + [words[0]], words[1..], maxChars)
  }

  function Joined(groups: seq<seq<string>>): (r: seq<string>)
    ensures |r| == |groups| && forall i :: 0 <= i < |r| ==> r[i] == Join(groups[i])
  {
    seq(|groups|, i requires 0 <= i < |groups| => Join(groups[i]))
  }

  function Wrapped(text: string, maxChars: int): seq<string> {
    var lines := Joined(Greedy([], Words(text), maxChars));
    if lines == [] then [""] else lines
  }

  method WrapLines(text: string, maxChars: int) returns (lines: seq<string>)
    ensures lines == Wrapped(text, maxChars)
  {
    var words := Words(text);
    lines := [];
    var cur := "";
    ghost var closed: seq<seq<string>>, open: seq<string> := [], [];
    for i := 0 to |words|
      invariant cur == Join(open) && AllWords(open) && (|cur| == 0 <==> |open| == 0)
      invariant lines == Joined(closed)
      invariant closed + Greedy(open, words[i..], maxChars) == Greedy([], words, maxChars)
    {
      var w := words[i];
      LoopStep(closed, open, words, i, maxChars);
      var wider, trimmed := Trim(cur + " " + w), Trim(cur);
      if |wider| > maxChars {
        if |cur| > 0 {
          JoinedPush(closed, open);
          lines, closed := lines + [trimmed], closed + [open];
        }
        cur, open := w, [w];
      } else {
        cur, open := wider, open + [w];
      }
    }
    JoinTrimmed(open);
    if |cur| > 0 {
      JoinedPush(closed, open);
      lines, closed := lines + [Trim(cur)], closed + [open];
    }
    assert closed == Greedy([], words, maxChars);
    if |lines| == 0 {
      lines := [""];
    }
  }

  lemma JoinedPush(groups: seq<seq<string>>, g: seq<string>)
    ensures Joined(groups + [g]) == Joined(groups) + [Join(g)]
  {
  }

  /** Facts about one turn of the loop: the line with word i added, and the lines still to come. */
  lemma LoopStep(closed: seq<seq<string>>, open: seq<string>, words: seq<string>, i: nat, maxChars: int)
    requires i < |words| && AllWords(words) && AllWords(open)
    ensures Trim(Join(open) + " " + words[i]) == Join(open + [words[i]]) && |Join(open + [words[i]])| > 0
    ensures Join([words[i]]) == words[i] && |words[i]| > 0
    ensures Trim(Join(open)) == Join(open)
    ensures closed + Greedy(open, words[i..], maxChars) ==
            if |Join(open + [words[i]])| > maxChars
            then (if |open| == 0 then closed else closed + [open]) + Greedy([words[i]], words[i + 1..], maxChars)
            else closed + Greedy(open + [words[i]], words[i + 1..], maxChars)
  {
    assert words[i..][0] == words[i] && words[i..][1..] == words[i + 1..];
    TrimmedLine(open, words[i]);
    JoinTrimmed(open);
    JoinEnds(open + [words[i]]);
  }

  // ---- what a good layout is ----

  function Flatten(groups: seq<seq<string>>): seq<string> {
    if groups == [] then [] else groups[0] + Flatten(groups[1..])
  }

  /** A line holds a single word, or is within the width. */
  predicate LineFits(line: seq<string>, maxChars: int) {
    line != [] && (|line| == 1 || |Join(line)| <= maxChars)
  }

  /** An in-order split of the words into lines that fit. */
  ghost predicate Layout(groups: seq<seq<string>>, words: seq<string>, maxChars: int) {
    Flatten(groups) == words && forall i :: 0 <= i < |groups| ==> LineFits(groups[i], maxChars)
  }

  lemma {:induction false} GreedyLaysOut(cur: seq<string>, words: seq<string>, maxChars: int)
    requires cur == [] || LineFits(cur, maxChars)
    ensures Layout(Greedy(cur, words, maxChars), cur + words, maxChars)
    decreases |words|
  {
    if words == [] {
      assert cur + words == cur;
      if cur != [] {
        assert [cur][1..] == [];
        assert Flatten([cur]) == cur + [];
      }
    } else {
      var w, rest := words[0], words[1..];
      assert cur + [w] + rest == cur + words;
      if |Join(cur + [w])| > maxChars {
        var g := Greedy([w], rest, maxChars);
        GreedyLaysOut([w], rest, maxChars);
        assert ([cur] + g)[1..] == g;
        assert [w] + rest == words;
        assert [] + g == g;
      } else {
        GreedyLaysOut(cur + [w], rest, maxChars);
      }
    }
  }

  /** A layout with the first k words removed. */
  function DropWords(groups: seq<seq<string>>, k: nat): seq<seq<string>> {
    if groups == [] then []
    else if k >= |groups[0]| then DropWords(groups[1..], k - |groups[0]|)
    else [groups[0][k..]] + groups[1..]
  }

  lemma {:induction false} DropWordsLayout(groups: seq<seq<string>>, words: seq<string>, maxChars: int, k: nat)
    requires Layout(groups, words, maxChars) && k <= |words|
    ensures Layout(DropWords(groups, k), words[k..], maxChars)
    ensures |DropWords(groups, k)| <= |groups|
    decreases |groups|
  {
    if groups != [] {
      var g, rest := groups[0], groups[1..];
      assert words == g + Flatten(rest);
      if k >= |g| {
        assert words[k..] == Flatten(rest)[k - |g|..];
        DropWordsLayout(rest, Flatten(rest), maxChars, k - |g|);
      } else {
        assert g == g[..k] + g[k..];
        WidthGrows(g[..k], g[k..]);
        assert ([g[k..]] + rest)[1..] == rest;
        assert words[k..] == g[k..] + Flatten(rest);
      }
    }
  }

  /** When the greedy line is full, no layout's first line holds more words. */
  lemma FirstLineBound(groups: seq<seq<string>>, cur: seq<string>, words: seq<string>, maxChars: int)
    requires cur != [] && words != [] && Layout(groups, cur + words, maxChars)
    requires |Join(cur + [words[0]])| > maxChars
    ensures groups != [] && |groups[0]| <= |cur|
  {
    var all := cur + words;
    assert groups != [] && LineFits(groups[0], maxChars);
    if |groups[0]| > |cur| {
      assert groups[0] == all[..|groups[0]|];
      assert groups[0] == (cur + [words[0]]) + all[|cur| + 1..|groups[0]|];
      WidthGrows(cur + [words[0]], all[|cur| + 1..|groups[0]|]);
    }
  }

  /** No layout of the same words has fewer lines. */
  lemma {:induction false} GreedyIsMinimal(cur: seq<string>, words: seq<string>, maxChars: int, groups: seq<seq<string>>)
    requires Layout(groups, cur + words, maxChars)
    ensures |Greedy(cur, words, maxChars)| <= |groups|
    decreases |words|
  {
    if words == [] {
      assert cur + words == cur;
    } else {
      var w, rest := words[0], words[1..];
      if |Join(cur + [w])| > maxChars {
        if cur == [] {
          assert cur + words == [w] + rest;
          GreedyIsMinimal([w], rest, maxChars, groups);
        } else {
          FirstLineBound(groups, cur, words, maxChars);
          var k, tail := |cur| - |groups[0]|, groups[1..];
          assert Flatten(tail) == (cur + words)[|groups[0]|..];
          DropWordsLayout(tail, Flatten(tail), maxChars, k);
          assert Flatten(tail)[k..] == [w] + rest;
          GreedyIsMinimal([w], rest, maxChars, DropWords(tail, k));
        }
      } else {
        assert cur + [w] + rest == cur + words;
        GreedyIsMinimal(cur + [w], rest, maxChars, groups);
      }
    }
  }

  // ---- reading the words back ----

  lemma {:induction false} WordsOfWord(w: string, rest: string)
    requires IsWord(w) && (rest == [] || IsSpace(rest[0]))
    ensures Words(w + rest) == [w] + Words(rest)
  {
    WordLengthStop(w, rest);
    assert (w + rest)[..|w|] == w && (w + rest)[|w|..] == rest;
  }

  lemma {:induction false} WordLengthStop(w: string, rest: string)
    requires IsWordChars(w) && (rest == [] || IsSpace(rest[0]))
    ensures WordLength(w + rest) == |w|
  {
    if w == [] {
      assert w + rest == rest;
    } else {
      assert (w + rest)[1..] == w[1..] + rest;
      WordLengthStop(w[1..], rest);
    }
  }

  /** Splitting a joined line gives its words back. */
  lemma {:induction false} WordsOfLine(ws: seq<string>)
    requires AllWords(ws)
    ensures Words(Join(ws)) == ws
  {
    if |ws| == 1 {
      WordsOfWord(ws[0], "");
      assert ws[0] + "" == ws[0] && [ws[0]] + Words("") == ws;
    } else if |ws| > 1 {
      WordsOfLine(ws[1..]);
      var tail := " " + Join(ws[1..]);
      assert ws[0] + " " + Join(ws[1..]) == ws[0] + tail;
      assert tail[1..] == Join(ws[1..]);
      WordsOfWord(ws[0], tail);
    }
  }

  function AllWordsOf(lines: seq<string>): seq<string> {
    if lines == [] then [] else Words(lines[0]) + AllWordsOf(lines[1..])
  }

  lemma {:induction false} LinesKeepWords(groups: seq<seq<string>>)
    requires AllWords(Flatten(groups))
    ensures AllWordsOf(Joined(groups)) == Flatten(groups)
  {
    if groups != [] {
      var g, f := groups[0], Flatten(groups);
      assert forall i :: 0 <= i < |g| ==> g[i] == f[i];
      assert forall i :: 0 <= i < |Flatten(groups[1..])| ==> Flatten(groups[1..])[i] == f[|g| + i];
      WordsOfLine(g);
      assert Joined(groups)[1..] == Joined(groups[1..]);
      LinesKeepWords(groups[1..]);
    }
  }

  /**
   Wrapping keeps every word in order; a line wider than maxChars is a single
   word; and no other such in-order split has fewer lines.
   */
  lemma WrappedIsBest(text: string, maxChars: int)
    ensures var lines := Wrapped(text, maxChars);
            && AllWordsOf(lines) == Words(text)
            && (forall i :: 0 <= i < |lines| ==> |lines[i]| <= maxChars || |Words(lines[i])| <= 1)
            && forall groups :: Words(text) != [] && Layout(groups, Words(text), maxChars) ==> |lines| <= |groups|
  {
    var ws := Words(text);
    var g := Greedy([], ws, maxChars);
    assert [] + ws == ws;
    GreedyLaysOut([], ws, maxChars);
    LinesKeepWords(g);
    forall groups | Layout(groups, ws, maxChars)
      ensures |g| <= |groups|
    {
      GreedyIsMinimal([], ws, maxChars, groups);
    }
    forall i | 0 <= i < |g|
      ensures |Join(g[i])| <= maxChars || |Words(Join(g[i]))| <= 1
    {
      assert LineFits(g[i], maxChars);
      if |g[i]| == 1 {
        GroupWords(g, i);
        WordsOfLine(g[i]);
      }
    }
    assert AllWordsOf([""]) == [];
  }

  lemma {:induction false} GroupWords(groups: seq<seq<string>>, i: nat)
    requires AllWords(Flatten(groups)) && i < |groups|
    ensures AllWords(groups[i])
    decreases i
  {
    var g, rest, f := groups[0], groups[1..], Flatten(groups);
    assert forall j :: 0 <= j < |g| ==> g[j] == f[j];
    assert forall j :: 0 <= j < |Flatten(rest)| ==> Flatten(rest)[j] == f[|g| + j];
    if i > 0 { GroupWords(rest, i - 1); }
  }
}
