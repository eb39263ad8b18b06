/** String operations the wrapper relies on: JavaScript's `split(' ')` and the
    joins that undo it. */
module Strings {

  /** `s.split(' ')`: the runs of characters between single spaces. Consecutive
      spaces give empty pieces, and the empty string gives one empty piece. */
  function SplitOnSpace(s: string): (words: seq<string>)
    ensures |words| >= 1
    decreases |s|
  {
    if |s| == 0 then [""]
    else
      var init := SplitOnSpace(s[..|s| - 1]);
      var last := s[|s| - 1];
      if last == ' ' then init + [""]
      else init[..|init| - 1] + [init[|init| - 1] + [last]]
  }

  /** The pieces of a split hold no space, and only characters of the string. */
  lemma {:induction false} SplitOnSpaceChars(s: string)
    ensures forall i :: 0 <= i < |SplitOnSpace(s)| ==> ' ' !in SplitOnSpace(s)[i]
    ensures forall i, c :: 0 <= i < |SplitOnSpace(s)| && c in SplitOnSpace(s)[i] ==> c in s
    decreases |s|
  {
    if |s| > 0 {
      var prefix := s[..|s| - 1];
      var last := s[|s| - 1];
      var init := SplitOnSpace(prefix);
      SplitOnSpaceChars(prefix);
      assert forall c :: c in prefix ==> c in s;
      var words := SplitOnSpace(s);
      if last != ' ' {
        var k := |init| - 1;
        assert words == init[..k] + [init[k] + [last]];
        forall i | 0 <= i < |words|
          ensures ' ' !in words[i] && forall c :: c in words[i] ==> c in s
        {
          if i < k {
            assert words[i] == init[i];
          } else {
            assert words[i] == init[k] + [last];
          }
        }
      } else {
        assert words == init + [""];
        forall i | 0 <= i < |words|
          ensures ' ' !in words[i] && forall c :: c in words[i] ==> c in s
        {
          if i < |init| {
            assert words[i] == init[i];
          }
        }
      }
    }
  }

  /** `parts.join(' ')`. */
  function JoinWithSpace(parts: seq<string>): string
  {
    if |parts| == 0 then ""
    else if |parts| == 1 then parts[0]
    else JoinWithSpace(parts[..|parts| - 1]) + " " + parts[|parts| - 1]
  }

  /** `parts.join('')`. */
  function Concat(parts: seq<string>): string
  {
    if |parts| == 0 then "" else Concat(parts[..|parts| - 1]) + parts[|parts| - 1]
  }

  lemma JoinSnoc(parts: seq<string>, last: string)
    requires |parts| >= 1
    ensures JoinWithSpace(parts + [last]) == JoinWithSpace(parts) + " " + last
  {
    assert (parts + [last])[..|parts|] == parts;
  }

  /** Joining the pieces of a split with single spaces gives back the string. */
  lemma {:induction false} JoinSplit(s: string)
    ensures JoinWithSpace(SplitOnSpace(s)) == s
    decreases |s|
  {
    if |s| > 0 {
      var prefix := s[..|s| - 1];
      var last := s[|s| - 1];
      assert s == prefix + [last];
      JoinSplit(prefix);
      JoinSplitSnoc(prefix, last);
    }
  }

  /** One more character keeps the round trip of `JoinSplit`. */
  lemma JoinSplitSnoc(prefix: string, last: char)
    requires JoinWithSpace(SplitOnSpace(prefix)) == prefix
    ensures JoinWithSpace(SplitOnSpace(prefix + [last])) == prefix + [last]
  {
    var s := prefix + [last];
    var init := SplitOnSpace(prefix);
    assert s[..|s| - 1] == prefix;
    if last == ' ' {
      assert SplitOnSpace(s) == init + [""];
      JoinSnoc(init, "");
    } else {
      assert SplitOnSpace(s) == init[..|init| - 1] + [init[|init| - 1] + [last]];
      JoinExtendLast(init, last);
    }
  }

  /** Extending the last piece extends the join. */
  lemma {:induction false} JoinExtendLast(parts: seq<string>, c: char)
    requires |parts| >= 1
    ensures var k := |parts| - 1;
            JoinWithSpace(parts[..k] + [parts[k] + [c]]) == JoinWithSpace(parts) + [c]
  {
    var k := |parts| - 1;
    var words := parts[..k] + [parts[k] + [c]];
    if k == 0 {
      assert words == [parts[0] + [c]];
    } else {
      var j := JoinWithSpace(parts[..k]);
      assert parts == parts[..k] + [parts[k]];
      JoinSnoc(parts[..k], parts[k]);
      JoinSnoc(parts[..k], parts[k] + [c]);
      calc {
        JoinWithSpace(words);
        j + " " + (parts[k] + [c]);
        { assert j + " " + (parts[k] + [c]) == (j + " " + parts[k]) + [c]; }
        (j + " " + parts[k]) + [c];
        JoinWithSpace(parts) + [c];
      }
    }
  }

  /** Concatenation distributes over appending sequences of pieces. */
  lemma {:induction false} ConcatAppend(a: seq<string>, b: seq<string>)
    ensures Concat(a + b) == Concat(a) + Concat(b)
    decreases |b|
  {
    if |b| == 0 {
      assert a + b == a;
    } else {
      var b' := b[..|b| - 1];
      assert (a + b)[..|a + b| - 1] == a + b';
      assert (a + b)[|a + b| - 1] == b[|b| - 1];
      ConcatAppend(a, b');
    }
  }
}
