/** The greedy line breaker `wrapTextIntoLines`: words separated by single
    spaces are packed onto a line while the measured width stays within
    `maxWidth`; a word too wide for a line of its own is cut character by
    character. The font is an opaque collaborator: nothing is assumed about its
    widths, not even that a longer string is wider. */
module Wrapping {
  import opened Strings

  /** The metrics of an embedded font, as the layout uses them. */
  datatype Font = Font(widthOfTextAtSize: (string, real) -> real, heightAtSize: real -> real)

  predicate Fits(font: Font, size: real, maxWidth: real, s: string)
  {
    font.widthOfTextAtSize(s, size) <= maxWidth
  }

  /** A line the wrapper may emit for `text`: never empty, and within `maxWidth`
      unless it is a single character of `text` that is too wide on its own. */
  predicate LineOk(font: Font, size: real, maxWidth: real, text: string, line: string)
  {
    line != "" && (Fits(font, size, maxWidth, line) || (|line| == 1 && line[0] in text))
  }

  /** Every character of `text`, measured alone, is within `maxWidth`. */
  predicate CharsFit(font: Font, size: real, maxWidth: real, text: string)
  {
    forall i :: 0 <= i < |text| ==> Fits(font, size, maxWidth, [text[i]])
  }

  // ---------------------------------------------------------------------------
  // Character splitting of an oversized word

  /** State of the character-splitting loop: the lines emitted so far, the part
      of the word still to place (`wordPart`) and how many of its leading
      characters were found to fit (`startIndex`). */
  datatype SplitState = SplitState(lines: seq<string>, part: string, index: nat)

  /** One iteration of the splitting loop. When the first `index + 1`
      characters fit, one more character is taken; otherwise the fitting prefix
      is emitted and the scan restarts on the rest. If not even the first
      character fits, that character is emitted alone, so every iteration makes
      progress (see `SplitStepAsWritten` for the loop as the source has it). */
  function SplitStep(font: Font, size: real, maxWidth: real, st: SplitState): (next: SplitState)
    requires st.index < |st.part|
    ensures next.index <= |next.part|
    ensures |next.part| < |st.part| || (next.part == st.part && next.index == st.index + 1)
  {
    if Fits(font, size, maxWidth, st.part[..st.index + 1]) then
      SplitState(st.lines, st.part, st.index + 1)
    else
      var cut := if st.index == 0 then 1 else st.index;
      SplitState(st.lines + [st.part[..cut]], st.part[cut..], 0)
  }

  /** The splitting loop run to completion, followed by the push of whatever
      remains of the word. */
  function SplitRun(font: Font, size: real, maxWidth: real, st: SplitState): (r: seq<string>)
    requires st.index <= |st.part|
    ensures |st.lines| <= |r| && r[..|st.lines|] == st.lines
    ensures forall k :: |st.lines| <= k < |r| ==> r[k] != ""
    decreases |st.part|, |st.part| - st.index
  {
    if st.index == |st.part| then
      st.lines + (if st.part != "" then [st.part] else [])
    else
      SplitRun(font, size, maxWidth, SplitStep(font, size, maxWidth, st))
  }

  /** The pieces that the splitting loop cuts `word` into. */
  function SplitWord(font: Font, size: real, maxWidth: real, word: string): seq<string>
  {
    SplitRun(font, size, maxWidth, SplitState([], word, 0))
  }

  /** `r` is `lines` followed by pieces that concatenate to `part`, each
      acceptable as a line for `part`. */
  predicate PiecesOf(font: Font, size: real, maxWidth: real, lines: seq<string>, part: string, r: seq<string>)
  {
    |lines| <= |r| && r[..|lines|] == lines &&
    Concat(r[|lines|..]) == part &&
    forall k :: |lines| <= k < |r| ==> LineOk(font, size, maxWidth, part, r[k])
  }

  lemma LineOkWiden(font: Font, size: real, maxWidth: real, part: string, whole: string, line: string)
    requires LineOk(font, size, maxWidth, part, line)
    requires forall c :: c in part ==> c in whole
    ensures LineOk(font, size, maxWidth, whole, line)
  {
  }

  /** Prepending one acceptable piece to the pieces of the rest of a part. */
  lemma PiecesCons(font: Font, size: real, maxWidth: real, lines: seq<string>, part: string, cut: nat, r: seq<string>)
    requires 0 < cut <= |part|
    requires LineOk(font, size, maxWidth, part, part[..cut])
    requires PiecesOf(font, size, maxWidth, lines + [part[..cut]], part[cut..], r)
    ensures PiecesOf(font, size, maxWidth, lines, part, r)
  {
    var n := |lines|;
    var piece := part[..cut];
    assert r[..n] == (lines + [piece])[..n] == lines;
    assert r[n..] == [piece] + r[n + 1..];
    ConcatAppend([piece], r[n + 1..]);
    assert Concat([piece]) == Concat([]) + piece;
    assert part == piece + part[cut..];
    forall k | n <= k < |r|
      ensures LineOk(font, size, maxWidth, part, r[k])
    {
      if k > n {
        assert forall c :: c in part[cut..] ==> c in part;
        LineOkWiden(font, size, maxWidth, part[cut..], part, r[k]);
      }
    }
  }

  /** The splitting loop keeps the lines it started with, and the pieces it adds
      are non-empty, concatenate to the word in order, and each fits (or is one
      character too wide on its own). */
  lemma {:induction false} SplitRunPieces(font: Font, size: real, maxWidth: real, st: SplitState)
    requires st.index <= |st.part|
    requires st.index == 0 || Fits(font, size, maxWidth, st.part[..st.index])
    ensures PiecesOf(font, size, maxWidth, st.lines, st.part, SplitRun(font, size, maxWidth, st))
    decreases |st.part|, |st.part| - st.index
  {
    var r := SplitRun(font, size, maxWidth, st);
    var n := |st.lines|;
    if st.index == |st.part| {
      if st.part != "" {
        assert st.part[..st.index] == st.part;
        assert r[n..] == [st.part];
        assert Concat([st.part]) == Concat([]) + st.part;
      } else {
        assert r[n..] == [];
      }
    } else {
      var next := SplitStep(font, size, maxWidth, st);
      SplitRunPieces(font, size, maxWidth, next);
      if next.part != st.part {
        var cut := if st.index == 0 then 1 else st.index;
        assert next == SplitState(st.lines + [st.part[..cut]], st.part[cut..], 0);
        PiecesCons(font, size, maxWidth, st.lines, st.part, cut, r);
      }
    }
  }

  // ---------------------------------------------------------------------------
  // Greedy packing of words

  /** State of the word loop: the finished lines and the line being built. */
  datatype WrapState = WrapState(lines: seq<string>, currentLine: string)

  /** One iteration of the word loop. The word joins the current line after a
      space when the current line is non-empty and the result fits. Otherwise
      the current line (if any) is finished, and the word starts a new line
      when it fits alone, or is cut into lines of its own, leaving the current
      line empty. */
  function AddWord(font: Font, size: real, maxWidth: real, st: WrapState, word: string): (r: WrapState)
    ensures |st.lines| <= |r.lines| && r.lines[..|st.lines|] == st.lines
    ensures forall k :: |st.lines| <= k < |r.lines| ==> r.lines[k] != ""
  {
    if st.currentLine != "" && Fits(font, size, maxWidth, st.currentLine + " " + word) then
      WrapState(st.lines, st.currentLine + " " + word)
    else
      var lines := if st.currentLine != "" then st.lines + [st.currentLine] else st.lines;
      if Fits(font, size, maxWidth, word) then
        WrapState(lines, word)
      else
        WrapState(SplitRun(font, size, maxWidth, SplitState(lines, word, 0)), "")
  }

  /** The word loop over `words`, from no lines and an empty current line. */
  function WrapWords(font: Font, size: real, maxWidth: real, words: seq<string>): (r: WrapState)
    ensures forall k :: 0 <= k < |r.lines| ==> r.lines[k] != ""
  {
    if |words| == 0 then WrapState([], "")
    else AddWord(font, size, maxWidth, WrapWords(font, size, maxWidth, words[..|words| - 1]), words[|words| - 1])
  }

  /** The lines `wrapTextIntoLines(text, font, size, maxWidth)` returns. */
  function Wrap(font: Font, size: real, maxWidth: real, text: string): (lines: seq<string>)
    ensures forall k :: 0 <= k < |lines| ==> lines[k] != ""
  {
    var st := WrapWords(font, size, maxWidth, SplitOnSpace(text));
    if st.currentLine != "" then st.lines + [st.currentLine] else st.lines
  }

  /** The greedy line breaker, loop for loop as the source runs it, except
      that the splitting loop puts a character too wide on its own on a line
      of its own instead of stalling (see `AsWrittenStalls`). */
  method WrapTextIntoLines(text: string, font: Font, fontSize: real, maxWidth: real)
    returns (lines: seq<string>)
    ensures lines == Wrap(font, fontSize, maxWidth, text)
    ensures forall k :: 0 <= k < |lines| ==> LineOk(font, fontSize, maxWidth, text, lines[k])
  {
    lines := [];
    var currentLine := "";
    var words := SplitOnSpace(text);
    for i := 0 to |words|
      invariant WrapState(lines, currentLine) == WrapWords(font, fontSize, maxWidth, words[..i])
    {
      assert words[..i + 1][..i] == words[..i];
      var currentWord := words[i];
      var currentWordWidth := font.widthOfTextAtSize(currentWord, fontSize);
      if currentLine != "" && font.widthOfTextAtSize(currentLine + " " + currentWord, fontSize) <= maxWidth {
        currentLine := currentLine + " " + currentWord;
      } else {
        if currentLine != "" {
          lines := lines + [currentLine];
          currentLine := "";
        }
        if currentWordWidth <= maxWidth {
          currentLine := currentWord;
        } else {
          ghost var linesBefore := lines;
          var wordPart := currentWord;
          var startIndex := 0;
          while startIndex < |wordPart|
            invariant startIndex <= |wordPart|
            invariant SplitRun(font, fontSize, maxWidth, SplitState(lines, wordPart, startIndex))
                   == SplitRun(font, fontSize, maxWidth, SplitState(linesBefore, currentWord, 0))
            decreases |wordPart|, |wordPart| - startIndex
          {
            var partWidth := font.widthOfTextAtSize(wordPart[..startIndex + 1], fontSize);
            if partWidth <= maxWidth {
              startIndex := startIndex + 1;
            } else {
              var cut := if startIndex == 0 then 1 else startIndex;
              lines := lines + [wordPart[..cut]];
              wordPart := wordPart[cut..];
              startIndex := 0;
            }
          }
          if wordPart != "" {
            lines := lines + [wordPart];
          }
          currentLine := "";
        }
      }
    }
    assert words[..|words|] == words;
    if currentLine != "" {
      lines := lines + [currentLine];
    }
    WrapLinesOk(font, fontSize, maxWidth, text);
  }

  // ---------------------------------------------------------------------------
  // Properties of the wrapper

  /** The lines finished so far are acceptable for `text` and the line being
      built fits. */
  predicate WrapStateOk(font: Font, size: real, maxWidth: real, text: string, st: WrapState)
  {
    (forall k :: 0 <= k < |st.lines| ==> LineOk(font, size, maxWidth, text, st.lines[k])) &&
    (st.currentLine == "" || Fits(font, size, maxWidth, st.currentLine))
  }

  lemma {:induction false} WrapWordsOk(font: Font, size: real, maxWidth: real, text: string, words: seq<string>)
    requires forall i, c :: 0 <= i < |words| && c in words[i] ==> c in text
    ensures WrapStateOk(font, size, maxWidth, text, WrapWords(font, size, maxWidth, words))
    decreases |words|
  {
    if |words| > 0 {
      var init := words[..|words| - 1];
      var word := words[|words| - 1];
      WrapWordsOk(font, size, maxWidth, text, init);
      var st := WrapWords(font, size, maxWidth, init);
      if !(st.currentLine != "" && Fits(font, size, maxWidth, st.currentLine + " " + word)) {
        var lines := if st.currentLine != "" then st.lines + [st.currentLine] else st.lines;
        assert forall k :: 0 <= k < |lines| ==> LineOk(font, size, maxWidth, text, lines[k]);
        if !Fits(font, size, maxWidth, word) {
          var r := SplitRun(font, size, maxWidth, SplitState(lines, word, 0));
          SplitRunPieces(font, size, maxWidth, SplitState(lines, word, 0));
          forall k | 0 <= k < |r|
            ensures LineOk(font, size, maxWidth, text, r[k])
          {
            if k < |lines| {
              assert r[k] == r[..|lines|][k];
            } else {
              LineOkWiden(font, size, maxWidth, word, text, r[k]);
            }
          }
        }
      }
    }
  }

  /** Every line the wrapper returns is non-empty and within `maxWidth`, except
      a single character of the text that is too wide on its own. */
  lemma WrapLinesOk(font: Font, size: real, maxWidth: real, text: string)
    ensures forall k :: 0 <= k < |Wrap(font, size, maxWidth, text)| ==>
      LineOk(font, size, maxWidth, text, Wrap(font, size, maxWidth, text)[k])
  {
    SplitOnSpaceChars(text);
    WrapWordsOk(font, size, maxWidth, text, SplitOnSpace(text));
  }

  /** When every character fits on its own, every line fits. */
  lemma WrapLinesFit(font: Font, size: real, maxWidth: real, text: string)
    requires CharsFit(font, size, maxWidth, text)
    ensures forall k :: 0 <= k < |Wrap(font, size, maxWidth, text)| ==>
      Wrap(font, size, maxWidth, text)[k] != "" &&
      Fits(font, size, maxWidth, Wrap(font, size, maxWidth, text)[k])
  {
    var lines := Wrap(font, size, maxWidth, text);
    WrapLinesOk(font, size, maxWidth, text);
    forall k | 0 <= k < |lines|
      ensures Fits(font, size, maxWidth, lines[k])
    {
      if |lines[k]| == 1 && lines[k][0] in text {
        var i :| 0 <= i < |text| && text[i] == lines[k][0];
        assert lines[k] == [text[i]];
      }
    }
  }

  /** The empty text gives no lines. */
  lemma WrapEmpty(font: Font, size: real, maxWidth: real)
    ensures Wrap(font, size, maxWidth, "") == []
  {
    var words := SplitOnSpace("");
    assert words == [""];
    assert words[..0] == [];
    assert SplitRun(font, size, maxWidth, SplitState([], "", 0)) == [];
    assert WrapWords(font, size, maxWidth, words) == AddWord(font, size, maxWidth, WrapState([], ""), "");
  }

  /** A word too wide for a line is cut into non-empty pieces that fit (or are
      single characters too wide on their own) and concatenate to the word. */
  lemma SplitWordPieces(font: Font, size: real, maxWidth: real, word: string)
    ensures Concat(SplitWord(font, size, maxWidth, word)) == word
    ensures forall k :: 0 <= k < |SplitWord(font, size, maxWidth, word)| ==>
      LineOk(font, size, maxWidth, word, SplitWord(font, size, maxWidth, word)[k])
  {
    var r := SplitWord(font, size, maxWidth, word);
    SplitRunPieces(font, size, maxWidth, SplitState([], word, 0));
    assert r[0..] == r;
  }

  /** With non-empty words that each fit alone, the state after some words holds
      those words, in order, once the finished lines and the current line are
      joined with spaces. */
  lemma {:induction false} WrapWordsJoin(font: Font, size: real, maxWidth: real, words: seq<string>)
    requires forall i :: 0 <= i < |words| ==> words[i] != "" && Fits(font, size, maxWidth, words[i])
    ensures var st := WrapWords(font, size, maxWidth, words);
      if |words| == 0 then st == WrapState([], "")
      else st.currentLine != "" && JoinWithSpace(st.lines + [st.currentLine]) == JoinWithSpace(words)
    decreases |words|
  {
    if |words| > 0 {
      var init := words[..|words| - 1];
      var word := words[|words| - 1];
      WrapWordsJoin(font, size, maxWidth, init);
      var st := WrapWords(font, size, maxWidth, init);
      assert words == init + [word];
      if |init| > 0 {
        JoinSnoc(init, word);
        if Fits(font, size, maxWidth, st.currentLine + " " + word) {
          if |st.lines| == 0 {
            assert st.lines + [st.currentLine] == [st.currentLine];
          } else {
            assert st.lines + [st.currentLine + " " + word] == st.lines + [st.currentLine + " " + word];
            JoinSnoc(st.lines, st.currentLine);
            JoinSnoc(st.lines, st.currentLine + " " + word);
          }
        } else {
          JoinSnoc(st.lines + [st.currentLine], word);
          assert st.lines + [st.currentLine] + [word] == (st.lines + [st.currentLine]) + [word];
        }
      }
    }
  }

  /** When the text splits into non-empty words that each fit, the lines joined
      with single spaces give back the text: no word is lost, cut or reordered. */
  lemma WrapRoundTrip(font: Font, size: real, maxWidth: real, text: string)
    requires forall i :: 0 <= i < |SplitOnSpace(text)| ==>
      SplitOnSpace(text)[i] != "" && Fits(font, size, maxWidth, SplitOnSpace(text)[i])
    ensures JoinWithSpace(Wrap(font, size, maxWidth, text)) == text
  {
    WrapWordsJoin(font, size, maxWidth, SplitOnSpace(text));
    JoinSplit(text);
  }

  // ---------------------------------------------------------------------------
  // The splitting loop as the source writes it

  /** One iteration of the splitting loop exactly as written: when the prefix
      of `index + 1` characters does not fit, the first `index` characters are
      pushed and the scan restarts, even when `index` is 0. */
  function SplitStepAsWritten(font: Font, size: real, maxWidth: real, st: SplitState): (next: SplitState)
    requires st.index < |st.part|
    ensures |st.lines| <= |next.lines| && next.lines[..|st.lines|] == st.lines
    ensures |next.part| < |st.part| ||
            (next.part == st.part &&
             (next.index == st.index + 1 || (next.index == 0 && next.lines == st.lines + [""])))
  {
    if Fits(font, size, maxWidth, st.part[..st.index + 1]) then
      SplitState(st.lines, st.part, st.index + 1)
    else
      SplitState(st.lines + [st.part[..st.index]], st.part[st.index..], 0)
  }

  /** The state after `n` iterations of the loop as written (or after it
      exits, if that comes first). */
  function IterateAsWritten(font: Font, size: real, maxWidth: real, st: SplitState, n: nat): (r: SplitState)
    ensures |st.lines| <= |r.lines| && r.lines[..|st.lines|] == st.lines
    ensures |r.part| <= |st.part|
    decreases n
  {
    if n == 0 || st.index >= |st.part| then st
    else IterateAsWritten(font, size, maxWidth, SplitStepAsWritten(font, size, maxWidth, st), n - 1)
  }

  /** When the first character of the remaining part does not fit, the loop as
      written never exits: after any number of iterations the part is
      unchanged and one more empty line has been pushed per iteration. */
  lemma {:induction false} AsWrittenStalls(font: Font, size: real, maxWidth: real, st: SplitState, n: nat)
    requires st.index == 0 && |st.part| > 0
    requires !Fits(font, size, maxWidth, st.part[..1])
    ensures IterateAsWritten(font, size, maxWidth, st, n) ==
      SplitState(st.lines + seq(n, _ => ""), st.part, 0)
    decreases n
  {
    if n > 0 {
      var next := SplitStepAsWritten(font, size, maxWidth, st);
      assert next == SplitState(st.lines + [""], st.part, 0);
      AsWrittenStalls(font, size, maxWidth, next, n - 1);
      assert st.lines + [""] + seq(n - 1, _ => "") == st.lines + seq(n, _ => "");
    }
  }

  /** Away from that stall the corrected step is the step as written. */
  lemma SplitStepAgrees(font: Font, size: real, maxWidth: real, st: SplitState)
    requires st.index < |st.part|
    requires st.index > 0 || Fits(font, size, maxWidth, st.part[..1])
    ensures SplitStep(font, size, maxWidth, st) == SplitStepAsWritten(font, size, maxWidth, st)
  {
  }

  /** Whenever the loop as written exits, it has produced what the corrected
      loop produces: its lines, followed by the push of the non-empty
      remainder, are `SplitRun`. */
  lemma {:induction false} AsWrittenAgrees(font: Font, size: real, maxWidth: real, st: SplitState, n: nat)
    requires st.index <= |st.part|
    requires IterateAsWritten(font, size, maxWidth, st, n).index >= |IterateAsWritten(font, size, maxWidth, st, n).part|
    ensures var e := IterateAsWritten(font, size, maxWidth, st, n);
      e.lines + (if e.part != "" then [e.part] else []) == SplitRun(font, size, maxWidth, st)
    decreases n
  {
    if st.index < |st.part| {
      StalledStaysInLoop(font, size, maxWidth, st, n);
      assert n > 0;
      var next := SplitStepAsWritten(font, size, maxWidth, st);
      assert IterateAsWritten(font, size, maxWidth, st, n) == IterateAsWritten(font, size, maxWidth, next, n - 1);
      SplitStepAgrees(font, size, maxWidth, st);
      assert SplitRun(font, size, maxWidth, st) == SplitRun(font, size, maxWidth, next);
      AsWrittenAgrees(font, size, maxWidth, next, n - 1);
    }
  }

  /** A loop that starts on a first character too wide for the line is still
      in the loop after any number of iterations. */
  lemma StalledStaysInLoop(font: Font, size: real, maxWidth: real, st: SplitState, n: nat)
    requires st.index < |st.part|
    ensures st.index == 0 && !Fits(font, size, maxWidth, st.part[..1]) ==>
      IterateAsWritten(font, size, maxWidth, st, n).index < |IterateAsWritten(font, size, maxWidth, st, n).part|
  {
    if st.index == 0 && !Fits(font, size, maxWidth, st.part[..1]) {
      AsWrittenStalls(font, size, maxWidth, st, n);
    }
  }
}
