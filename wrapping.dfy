/** The greedy word wrapper the PDF builder applies to each row description
    (`wrap(text, maxChars)` in the quotation route). The text is split on runs
    of white space; each word goes on the current line while the trimmed line
    stays within `maxChars`, and otherwise starts a new line. */
module Wrapping {
  import opened Text

  /** The lines pushed so far and the line being filled. */
  datatype Acc = Acc(lines: seq<string>, line: string)

  const Start: Acc := Acc([], "")

  /** `[x]` unless `x` is empty. */
  function Kept(x: string): (r: seq<string>)
    ensures |r| <= 1 && (r == [] <==> x == "")
  {
    if x == "" then [] else [x]
  }

  /** Adding `w` would make the trimmed line longer than `maxChars`. */
  predicate Overflows(line: string, w: string, maxChars: int) {
    |Trim(line + " " + w)| > maxChars
  }

  /** One word as the route handles it: on overflow the current line is
      pushed when it is a non-empty string, even one of blanks only. */
  function StepAsWritten(acc: Acc, w: string, maxChars: int): Acc {
    if Overflows(acc.line, w, maxChars) then
      Acc(if acc.line != "" then acc.lines + [Trim(acc.line)] else acc.lines, w)
    else Acc(acc.lines, acc.line + " " + w)
  }

  /** One word, pushing the current line only when it holds a word, as the
      final push of the route already does. */
  function Step(acc: Acc, w: string, maxChars: int): Acc {
    if Overflows(acc.line, w, maxChars) then Acc(acc.lines + Kept(Trim(acc.line)), w)
    else Acc(acc.lines, acc.line + " " + w)
  }

  function FoldAsWritten(ws: seq<string>, acc: Acc, maxChars: int): Acc
    decreases |ws|
  {
    if ws == [] then acc else FoldAsWritten(ws[1..], StepAsWritten(acc, ws[0], maxChars), maxChars)
  }

  function Fold(ws: seq<string>, acc: Acc, maxChars: int): Acc
    decreases |ws|
  {
    if ws == [] then acc else Fold(ws[1..], Step(acc, ws[0], maxChars), maxChars)
  }

  /** The lines so far and the current line if it holds a word: what the
      route returns once the words run out. */
  function Finish(acc: Acc): seq<string> {
    acc.lines + Kept(Trim(acc.line))
  }

  /** `wrap` as the route writes it. */
  function WrapAsWritten(text: string, maxChars: int): seq<string> {
    Finish(FoldAsWritten(SplitWords(text), Start, maxChars))
  }

  /** `wrap` with the overflow push guarded like the final one. */
  function Wrap(text: string, maxChars: int): seq<string> {
    Finish(Fold(SplitWords(text), Start, maxChars))
  }

  /** The wrapper's loop over the words, with the current line in a variable. */
  method WrapLines(text: string, maxChars: int) returns (lines: seq<string>)
    ensures lines == Wrap(text, maxChars)
  {
    var words := SplitWords(text);
    lines := WrapWords(words, maxChars);
  }

  /** The loop of `WrapLines` over the words already split. */
  method WrapWords(words: seq<string>, maxChars: int) returns (lines: seq<string>)
    ensures lines == Finish(Fold(words, Start, maxChars))
  {
    lines := [];
    var line := "";
    for i := 0 to |words|
      invariant Fold(words[i..], Acc(lines, line), maxChars) == Fold(words, Start, maxChars)
    {
      var w := words[i];
      FoldUnroll(words, i, Acc(lines, line), maxChars);
      StepCases(lines, line, w, maxChars);
      if Overflows(line, w, maxChars) {
        var t := Trim(line);
        KeptAppend(lines, t);
        if t != "" {
          lines := lines + [t];
        }
        line := w;
      } else {
        line := line + " " + w;
      }
    }
    assert words[|words|..] == [];
    var t := Trim(line);
    KeptAppend(lines, t);
    if t != "" {
      lines := lines + [t];
    }
  }

  /** The two outcomes of a step, as the loop takes them. */
  lemma {:induction false} StepCases(lines: seq<string>, line: string, w: string, maxChars: int)
    ensures Overflows(line, w, maxChars) ==>
      Step(Acc(lines, line), w, maxChars) == Acc(lines + Kept(Trim(line)), w)
    ensures !Overflows(line, w, maxChars) ==>
      Step(Acc(lines, line), w, maxChars) == Acc(lines, line + " " + w)
  {
  }

  lemma {:induction false} KeptAppend(lines: seq<string>, t: string)
    ensures lines + Kept(t) == if t == "" then lines else lines + [t]
  {
    if t == "" {
      assert lines + [] == lines;
    }
  }

  lemma {:induction false} FoldUnroll(ws: seq<string>, i: nat, acc: Acc, maxChars: int)
    requires i < |ws|
    ensures Fold(ws[i..], acc, maxChars) == Fold(ws[i + 1..], Step(acc, ws[i], maxChars), maxChars)
  {
    assert ws[i..][1..] == ws[i + 1..];
  }

  // ------------------------------------------------------------ line shape

  /** Every line holds a word, has no blanks at either end, and is longer
      than `maxChars` only when it is a single word. */
  predicate LinesOk(ls: seq<string>, maxChars: int) {
    forall k :: 0 <= k < |ls| ==> ls[k] != "" && Trim(ls[k]) == ls[k] && (|ls[k]| > maxChars ==> NoSpace(ls[k]))
  }

  /** The line being filled is within the width, or is a single word. */
  predicate LineOk(line: string, maxChars: int) {
    |Trim(line)| <= maxChars || NoSpace(line)
  }

  lemma {:induction false} NoSpaceTrimmed(s: string)
    requires NoSpace(s)
    ensures Trim(s) == s
  {
    TrimOfTrimmed(s);
  }

  lemma {:induction false} PushOk(lines: seq<string>, line: string, maxChars: int)
    requires LinesOk(lines, maxChars) && LineOk(line, maxChars)
    ensures LinesOk(lines + Kept(Trim(line)), maxChars)
  {
    TrimIdempotent(line);
    if |Trim(line)| > maxChars {
      NoSpaceTrimmed(line);
    }
  }

  lemma {:induction false} FoldShape(ws: seq<string>, acc: Acc, maxChars: int)
    requires forall k :: 0 <= k < |ws| ==> NoSpace(ws[k])
    requires LinesOk(acc.lines, maxChars) && LineOk(acc.line, maxChars)
    ensures LinesOk(Finish(Fold(ws, acc, maxChars)), maxChars)
    decreases |ws|
  {
    if ws == [] {
      PushOk(acc.lines, acc.line, maxChars);
    } else {
      var next := Step(acc, ws[0], maxChars);
      if Overflows(acc.line, ws[0], maxChars) {
        PushOk(acc.lines, acc.line, maxChars);
        assert NoSpace(next.line);
      }
      assert forall k :: 0 <= k < |ws[1..]| ==> NoSpace(ws[1..][k]) by {
        forall k | 0 <= k < |ws[1..]| ensures NoSpace(ws[1..][k]) {
          assert ws[1..][k] == ws[k + 1];
        }
      }
      FoldShape(ws[1..], next, maxChars);
    }
  }

  /** Every wrapped line holds a word and has no blanks at either end; a line
      is longer than `maxChars` only when it is one word that alone is. */
  lemma {:induction false} WrapShape(text: string, maxChars: int)
    ensures LinesOk(Wrap(text, maxChars), maxChars)
  {
    FoldShape(SplitWords(text), Start, maxChars);
  }

  // ------------------------------------------------------------ contents

  /** All entries of `ws` are non-empty. */
  predicate AllWords(ws: seq<string>) {
    forall k :: 0 <= k < |ws| ==> ws[k] != ""
  }

  /** Joining two lists with a space joins their joins with a space. */
  lemma {:induction false} JoinAppend(xs: seq<string>, zs: seq<string>)
    ensures JoinSpaces(xs + zs) ==
      if xs == [] then JoinSpaces(zs)
      else if zs == [] then JoinSpaces(xs)
      else JoinSpaces(xs) + " " + JoinSpaces(zs)
    decreases |zs|
  {
    if zs == [] {
      assert xs + zs == xs;
    } else if xs == [] {
      assert xs + zs == zs;
    } else if |zs| == 1 {
      assert (xs + zs)[..|xs + zs| - 1] == xs;
      assert (xs + zs)[|xs + zs| - 1] == zs[0];
    } else {
      var init, last := zs[..|zs| - 1], zs[|zs| - 1];
      assert (xs + zs)[..|xs + zs| - 1] == xs + init;
      assert (xs + zs)[|xs + zs| - 1] == last;
      JoinAppend(xs, init);
      assert JoinSpaces(zs) == JoinSpaces(init) + " " + last;
    }
  }

  /** A list of words joins to the empty string only when it is empty. */
  lemma {:induction false} JoinEmpty(xs: seq<string>)
    requires AllWords(xs)
    ensures JoinSpaces(xs) == "" <==> xs == []
    decreases |xs|
  {
    if |xs| > 1 {
      JoinEmpty(xs[..|xs| - 1]);
    }
  }

  /** Lists of words with the same join still have the same join once the
      same list is appended to both. */
  lemma {:induction false} JoinCongruent(xs: seq<string>, ys: seq<string>, zs: seq<string>)
    requires AllWords(xs) && AllWords(ys)
    requires JoinSpaces(xs) == JoinSpaces(ys)
    ensures JoinSpaces(xs + zs) == JoinSpaces(ys + zs)
  {
    JoinEmpty(xs);
    JoinEmpty(ys);
    JoinAppend(xs, zs);
    JoinAppend(ys, zs);
  }

  /** The non-empty words of `[w] + rest`. */
  lemma {:induction false} NonEmptyCons(w: string, rest: seq<string>)
    ensures NonEmpty([w] + rest) == Kept(w) + NonEmpty(rest)
  {
    assert ([w] + rest)[1..] == rest;
  }

  /** The line being filled has no blank at its end unless it is all blanks. */
  predicate NoTrail(line: string) {
    line == "" || !IsSpace(line[|line| - 1]) || Trim(line) == ""
  }

  /** Appending a blank and a word to a line without trailing blanks. */
  lemma {:induction false} TrimAppendWord(s: string, w: string)
    requires NoTrail(s) && w != "" && NoSpace(w)
    ensures Trim(s + " " + w) == if Trim(s) == "" then w else Trim(s) + " " + w
  {
    if TrimLeft(s) == "" {
      TrimAppendWordToBlank(s, w);
    } else {
      TrimAppendWordToText(s, w);
    }
  }

  lemma {:induction false} TrimAppendWordToBlank(s: string, w: string)
    requires TrimLeft(s) == "" && w != "" && NoSpace(w)
    ensures Trim(s) == "" && Trim(s + " " + w) == w
  {
    assert forall i :: 0 <= i < |s + " "| ==> IsSpace((s + " ")[i]);
    TrimLeftSpacePrefix(s + " ", w);
    assert s + " " + w == (s + " ") + w;
    NoSpaceTrimmed(w);
  }

  lemma {:induction false} TrimAppendWordToText(s: string, w: string)
    requires TrimLeft(s) != "" && !IsSpace(s[|s| - 1]) && w != "" && NoSpace(w)
    ensures Trim(s) != "" && Trim(s + " " + w) == Trim(s) + " " + w
  {
    TrimLeftAppend(s, " " + w);
    Assoc(s, " ", w);
    var l := TrimLeft(s);
    Assoc(l, " ", w);
    assert l[|l| - 1] == s[|s| - 1];
    TrimRightNoTrail(l);
    var y := l + " " + w;
    assert y[|y| - 1] == w[|w| - 1];
    TrimRightNoTrail(y);
  }

  /** One step keeps the joined output equal to the joined words read so far. */
  lemma {:induction false} StepJoin(acc: Acc, w: string, maxChars: int)
    requires AllWords(acc.lines) && NoSpace(w)
    requires w != "" ==> NoTrail(acc.line)
    ensures AllWords(Step(acc, w, maxChars).lines)
    ensures JoinSpaces(Finish(Step(acc, w, maxChars))) == JoinSpaces(Finish(acc) + Kept(w))
  {
    StepKeepsWords(acc, w, maxChars);
    if Overflows(acc.line, w, maxChars) {
      StepJoinOverflow(acc, w, maxChars);
    } else if w == "" {
      StepJoinBlank(acc, maxChars);
    } else {
      StepJoinWord(acc, w, maxChars);
    }
  }

  lemma {:induction false} StepKeepsWords(acc: Acc, w: string, maxChars: int)
    requires AllWords(acc.lines)
    ensures AllWords(Step(acc, w, maxChars).lines)
  {
    var k := Kept(Trim(acc.line));
    assert AllWords(k);
    assert AllWords(acc.lines + k);
  }

  lemma {:induction false} StepJoinOverflow(acc: Acc, w: string, maxChars: int)
    requires NoSpace(w) && Overflows(acc.line, w, maxChars)
    ensures Finish(Step(acc, w, maxChars)) == Finish(acc) + Kept(w)
  {
    NoSpaceTrimmed(w);
  }

  lemma {:induction false} StepJoinBlank(acc: Acc, maxChars: int)
    requires !Overflows(acc.line, "", maxChars)
    ensures Finish(Step(acc, "", maxChars)) == Finish(acc) + Kept("")
  {
    TrimBlankWord(acc.line);
  }

  lemma {:induction false} TrimBlankWord(s: string)
    ensures Trim(s + " " + "") == Trim(s)
  {
    assert s + " " + "" == s + " ";
    TrimSpaceAfter(s);
  }

  lemma {:induction false} StepJoinWord(acc: Acc, w: string, maxChars: int)
    requires w != "" && NoSpace(w) && NoTrail(acc.line) && !Overflows(acc.line, w, maxChars)
    ensures JoinSpaces(Finish(Step(acc, w, maxChars))) == JoinSpaces(Finish(acc) + Kept(w))
  {
    TrimAppendWord(acc.line, w);
    var t := Trim(acc.line);
    if t != "" {
      JoinWord(acc.lines, t, w);
    } else {
      assert Kept(t) == [];
      assert acc.lines + Kept(t) == acc.lines;
    }
  }

  /** Putting `w` on the line `t` joins like listing `w` after `t`. */
  lemma {:induction false} JoinWord(lines: seq<string>, t: string, w: string)
    requires t != "" && w != ""
    ensures JoinSpaces(lines + Kept(t + " " + w)) == JoinSpaces(lines + Kept(t) + Kept(w))
  {
    assert lines + Kept(t) + Kept(w) == lines + [t, w];
    JoinAppend(lines, [t + " " + w]);
    JoinAppend(lines, [t, w]);
    JoinAppend([t], [w]);
  }

  /** The words a fold may meet: no blanks in any, and only the first (when
      the line is still blank) and the last may be empty. */
  predicate Foldable(ws: seq<string>, acc: Acc) {
    (forall k :: 0 <= k < |ws| ==> NoSpace(ws[k]))
    && (forall k :: 0 < k < |ws| - 1 ==> ws[k] != "")
    && (|ws| > 1 && ws[0] == "" ==> Trim(acc.line) == "")
    && (ws != [] ==> NoTrail(acc.line))
  }

  lemma {:induction false} FoldJoin(ws: seq<string>, acc: Acc, maxChars: int)
    requires AllWords(acc.lines) && Foldable(ws, acc)
    ensures JoinSpaces(Finish(Fold(ws, acc, maxChars))) == JoinSpaces(Finish(acc) + NonEmpty(ws))
    decreases |ws|
  {
    if ws == [] {
      AppendNothing(Finish(acc));
    } else {
      StepKeepsWords(acc, ws[0], maxChars);
      FoldableStep(ws, acc, maxChars);
      FoldJoin(ws[1..], Step(acc, ws[0], maxChars), maxChars);
      FoldJoinStep(ws, acc, maxChars);
    }
  }

  /** The inductive step of `FoldJoin`: what holds of the words after the
      first, from the state after it, holds of all of them. */
  lemma {:induction false} FoldJoinStep(ws: seq<string>, acc: Acc, maxChars: int)
    requires ws != [] && AllWords(acc.lines) && Foldable(ws, acc)
    requires var next := Step(acc, ws[0], maxChars);
      JoinSpaces(Finish(Fold(ws[1..], next, maxChars))) == JoinSpaces(Finish(next) + NonEmpty(ws[1..]))
    ensures JoinSpaces(Finish(Fold(ws, acc, maxChars))) == JoinSpaces(Finish(acc) + NonEmpty(ws))
  {
    var next := Step(acc, ws[0], maxChars);
    StepJoin(acc, ws[0], maxChars);
    FinishWords(acc);
    FinishWords(next);
    JoinChain(Finish(acc), Finish(next), Finish(Fold(ws, acc, maxChars)), ws);
  }

  /** Chaining the join of one step with the join of the rest of the fold. */
  lemma {:induction false} JoinChain(before: seq<string>, after: seq<string>, result: seq<string>, ws: seq<string>)
    requires ws != [] && AllWords(before) && AllWords(after)
    requires JoinSpaces(after) == JoinSpaces(before + Kept(ws[0]))
    requires JoinSpaces(result) == JoinSpaces(after + NonEmpty(ws[1..]))
    ensures JoinSpaces(result) == JoinSpaces(before + NonEmpty(ws))
  {
    var w, rest := ws[0], ws[1..];
    NonEmptyCons(w, rest);
    assert [w] + rest == ws;
    AllWordsAppend(before, Kept(w));
    JoinCongruent(after, before + Kept(w), NonEmpty(rest));
    Assoc(before, Kept(w), NonEmpty(rest));
  }

  lemma {:induction false} AppendNothing(xs: seq<string>)
    ensures xs + NonEmpty([]) == xs
  {
    assert NonEmpty([]) == [];
  }

  lemma {:induction false} Assoc<T>(a: seq<T>, b: seq<T>, c: seq<T>)
    ensures a + b + c == a + (b + c)
  {
  }

  lemma {:induction false} AllWordsAppend(xs: seq<string>, ys: seq<string>)
    requires AllWords(xs) && AllWords(ys)
    ensures AllWords(xs + ys)
  {
  }

  lemma {:induction false} FinishWords(acc: Acc)
    requires AllWords(acc.lines)
    ensures AllWords(Finish(acc))
  {
    AllWordsAppend(acc.lines, Kept(Trim(acc.line)));
  }

  /** After one word the rest of the words can still be folded. */
  lemma {:induction false} FoldableStep(ws: seq<string>, acc: Acc, maxChars: int)
    requires ws != [] && Foldable(ws, acc)
    ensures Foldable(ws[1..], Step(acc, ws[0], maxChars))
  {
    var w, rest := ws[0], ws[1..];
    assert forall k :: 0 <= k < |rest| ==> rest[k] == ws[k + 1];
    if rest != [] {
      StepNoTrail(acc, w, maxChars);
    }
  }

  lemma {:induction false} StepNoTrail(acc: Acc, w: string, maxChars: int)
    requires NoSpace(w) && NoTrail(acc.line) && (w == "" ==> Trim(acc.line) == "")
    ensures NoTrail(Step(acc, w, maxChars).line)
  {
    var line := Step(acc, w, maxChars).line;
    if w == "" {
      if !Overflows(acc.line, w, maxChars) {
        TrimBlankWord(acc.line);
      }
    } else {
      assert line[|line| - 1] == w[|w| - 1];
    }
  }

  /** Wrapping loses, adds and reorders no word: joining the lines with
      single spaces gives the text's words joined with single spaces. */
  lemma {:induction false} WrapKeepsWords(text: string, maxChars: int)
    ensures JoinSpaces(Wrap(text, maxChars)) == JoinSpaces(NonEmpty(SplitWords(text)))
  {
    var ws := SplitWords(text);
    StartFoldable(ws);
    FoldJoin(ws, Start, maxChars);
    FinishStart(NonEmpty(ws));
  }

  lemma {:induction false} StartFoldable(ws: seq<string>)
    requires forall k :: 0 <= k < |ws| ==> NoSpace(ws[k])
    requires forall k :: 0 < k < |ws| - 1 ==> ws[k] != ""
    ensures Foldable(ws, Start)
  {
    assert Start.line == "";
    TrimEmpty();
    assert NoTrail("");
  }

  lemma {:induction false} FinishStart(ws: seq<string>)
    ensures Finish(Start) + ws == ws
  {
    TrimEmpty();
    assert Kept(Trim("")) == [];
  }

  // ------------------------------------------------------------ as written

  lemma {:induction false} NonEmptySnoc(ws: seq<string>, x: string)
    ensures NonEmpty(ws + [x]) == NonEmpty(ws) + Kept(x)
    decreases |ws|
  {
    if ws == [] {
      assert [x][1..] == [];
    } else {
      assert (ws + [x])[1..] == ws[1..] + [x];
      NonEmptySnoc(ws[1..], x);
    }
  }

  lemma {:induction false} FoldAsWrittenFilters(ws: seq<string>, a: Acc, c: Acc, maxChars: int)
    requires a.line == c.line && NonEmpty(a.lines) == c.lines
    ensures NonEmpty(Finish(FoldAsWritten(ws, a, maxChars))) == Finish(Fold(ws, c, maxChars))
    decreases |ws|
  {
    if ws == [] {
      FinishFilters(a, c);
    } else {
      StepFilters(a, c, ws[0], maxChars);
      FoldAsWrittenFilters(ws[1..], StepAsWritten(a, ws[0], maxChars), Step(c, ws[0], maxChars), maxChars);
    }
  }

  /** The final push keeps the correspondence. */
  lemma {:induction false} FinishFilters(a: Acc, c: Acc)
    requires a.line == c.line && NonEmpty(a.lines) == c.lines
    ensures NonEmpty(Finish(a)) == Finish(c)
  {
    var t := Trim(a.line);
    if t == "" {
      assert Finish(a) == a.lines;
      assert Finish(c) == c.lines;
    } else {
      assert Finish(a) == a.lines + [t];
      assert Finish(c) == c.lines + [t];
      NonEmptySnoc(a.lines, t);
    }
  }

  /** One step as written and one corrected step keep the same current line,
      and the written lines filtered of blanks are the corrected ones. */
  lemma {:induction false} StepFilters(a: Acc, c: Acc, w: string, maxChars: int)
    requires a.line == c.line && NonEmpty(a.lines) == c.lines
    ensures StepAsWritten(a, w, maxChars).line == Step(c, w, maxChars).line
    ensures NonEmpty(StepAsWritten(a, w, maxChars).lines) == Step(c, w, maxChars).lines
  {
    if Overflows(a.line, w, maxChars) {
      var t := Trim(a.line);
      if a.line == "" {
        TrimEmpty();
        assert StepAsWritten(a, w, maxChars).lines == a.lines;
        assert Step(c, w, maxChars).lines == c.lines;
      } else {
        assert StepAsWritten(a, w, maxChars).lines == a.lines + [t];
        assert Step(c, w, maxChars).lines == c.lines + Kept(t);
        NonEmptySnoc(a.lines, t);
      }
    }
  }





  /** The route's wrapper and the corrected one differ only by empty lines. */
  lemma {:induction false} AsWrittenOnlyAddsBlankLines(text: string, maxChars: int)
    ensures NonEmpty(WrapAsWritten(text, maxChars)) == Wrap(text, maxChars)
  {
    assert NonEmpty(Start.lines) == Start.lines;
    FoldAsWrittenFilters(SplitWords(text), Start, Start, maxChars);
  }

  /** A text that starts with a blank, then a word wider than the limit: the
      route's wrapper emits an empty first line, the corrected one does not. */
  lemma {:induction false} AsWrittenBlankLine(w: string, maxChars: int)
    requires w != "" && NoSpace(w) && 0 <= maxChars < |w|
    ensures WrapAsWritten(" " + w, maxChars) == ["", w]
    ensures Wrap(" " + w, maxChars) == [w]
  {
    SplitBlankWord(w);
    BlankWordTrims(w);
    BlankWordAsWritten(w, maxChars);
    BlankWordCorrected(w, maxChars);
  }

  lemma {:induction false} BlankWordAsWritten(w: string, maxChars: int)
    requires w != "" && NoSpace(w) && 0 <= maxChars < |w|
    ensures FoldAsWritten(["", w], Start, maxChars) == Acc([""], w)
  {
    FoldTwo("", w, Start, maxChars);
    BlankFirstStep(maxChars);
    LongWordStep(w, maxChars);
  }

  lemma {:induction false} BlankWordCorrected(w: string, maxChars: int)
    requires w != "" && NoSpace(w) && 0 <= maxChars < |w|
    ensures Fold(["", w], Start, maxChars) == Acc([], w)
  {
    FoldTwo("", w, Start, maxChars);
    BlankFirstStep(maxChars);
    LongWordStepCorrected(w, maxChars);
  }

  /** A leading empty word leaves a single blank on the line. */
  lemma {:induction false} BlankFirstStep(maxChars: int)
    requires 0 <= maxChars
    ensures StepAsWritten(Start, "", maxChars) == Acc([], " ")
    ensures Step(Start, "", maxChars) == Acc([], " ")
  {
    assert "" + " " + "" == " ";
    TrimLeftAllSpaces(" ");
  }

  /** A word wider than the limit after a blank line: the route pushes the
      blank line as an empty one. */
  lemma {:induction false} LongWordStep(w: string, maxChars: int)
    requires w != "" && NoSpace(w) && maxChars < |w|
    ensures StepAsWritten(Acc([], " "), w, maxChars) == Acc([""], w)
  {
    BlankWordTrims(w);
  }

  /** The corrected step drops the blank line instead. */
  lemma {:induction false} LongWordStepCorrected(w: string, maxChars: int)
    requires w != "" && NoSpace(w) && maxChars < |w|
    ensures Step(Acc([], " "), w, maxChars) == Acc([], w)
  {
    BlankWordTrims(w);
  }

  /** Folding two words is two steps. */
  lemma {:induction false} FoldTwo(x: string, y: string, acc: Acc, maxChars: int)
    ensures FoldAsWritten([x, y], acc, maxChars) == StepAsWritten(StepAsWritten(acc, x, maxChars), y, maxChars)
    ensures Fold([x, y], acc, maxChars) == Step(Step(acc, x, maxChars), y, maxChars)
  {
    assert [x, y][1..] == [y] && [y][1..] == [];
    var a, c := StepAsWritten(acc, x, maxChars), Step(acc, x, maxChars);
    assert FoldAsWritten([y], a, maxChars) == StepAsWritten(a, y, maxChars);
    assert Fold([y], c, maxChars) == Step(c, y, maxChars);
  }

  lemma {:induction false} SplitBlankWord(w: string)
    requires w != "" && NoSpace(w)
    ensures SplitWords(" " + w) == ["", w]
  {
    var s := " " + w;
    assert s != "" && IsSpace(s[0]);
    assert SplitWords(s) == [""] + SplitFrom(TrimLeft(s), "");
    TrimLeftSpacePrefix(" ", w);
    SplitFromWord(w, "");
    assert "" + w == w;
  }

  /** A word with no blanks is read whole. */
  lemma {:induction false} SplitFromWord(w: string, cur: string)
    requires NoSpace(w) && NoSpace(cur)
    ensures SplitFrom(w, cur) == [cur + w]
    decreases |w|
  {
    if w == "" {
      assert cur + w == cur;
    } else {
      assert cur + w == (cur + [w[0]]) + w[1..];
      SplitFromWord(w[1..], cur + [w[0]]);
    }
  }

  lemma {:induction false} BlankWordTrims(w: string)
    requires w != "" && NoSpace(w)
    ensures Trim("" + " " + "") == "" && Trim(" ") == ""
    ensures Trim(" " + " " + w) == w && Trim(w) == w
  {
    assert "" + " " + "" == " ";
    TrimLeftAllSpaces(" ");
    TrimLeftSpacePrefix(" " + " ", w);
    TrimOfTrimmed(w);
  }
}
