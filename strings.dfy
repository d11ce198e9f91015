/** Python's `str.join` and, as its partner, `str.split` on a one-character
    separator. */
module Strings {

  /** `sep.join(words)`: the words in order with `sep` between consecutive ones. */
  function Join(sep: string, words: seq<string>): (r: string)
    ensures |words| == 0 ==> r == ""
    ensures |words| >= 1 ==> words[0] <= r
    decreases |words|
  {
    if |words| == 0 then ""
    else if |words| == 1 then words[0]
    else words[0] + sep + Join(sep, words[1..])
  }

  /** The sum of the lengths of the words. */
  function TotalLength(words: seq<string>): nat
    decreases |words|
  {
    if |words| == 0 then 0 else |words[0]| + TotalLength(words[1..])
  }

  /** n words joined hold their own characters plus n - 1 separators. */
  lemma {:induction false} JoinLength(sep: string, words: seq<string>)
    requires |words| >= 1
    ensures |Join(sep, words)| == TotalLength(words) + (|words| - 1) * |sep|
    decreases |words|
  {
    if |words| > 1 {
      JoinLength(sep, words[1..]);
      var n := |words| - 1;
      assert (n - 1) * |sep| + |sep| == n * |sep|;
    }
  }

  /** A join of n >= 1 words ends with the last word. */
  lemma {:induction false} JoinEndsWithLast(sep: string, words: seq<string>)
    requires |words| >= 1
    ensures var r, last := Join(sep, words), words[|words| - 1];
      |last| <= |r| && r[|r| - |last|..] == last
    decreases |words|
  {
    if |words| > 1 {
      JoinEndsWithLast(sep, words[1..]);
      var rest := Join(sep, words[1..]);
      var last := words[|words| - 1];
      assert Join(sep, words) == (words[0] + sep) + rest;
      assert ((words[0] + sep) + rest)[|Join(sep, words)| - |last|..] == rest[|rest| - |last|..];
    }
  }

  /** Appending a word to a non-empty list adds one separator and the word at the end. */
  lemma {:induction false} JoinSnoc(sep: string, words: seq<string>, w: string)
    requires |words| >= 1
    ensures Join(sep, words + [w]) == Join(sep, words) + sep + w
    decreases |words|
  {
    if |words| == 1 {
      assert (words + [w])[1..] == [w];
    } else {
      assert (words + [w])[1..] == words[1..] + [w];
      JoinSnoc(sep, words[1..], w);
    }
  }

  /** `s.split(sep)` for a single-character separator: the pieces between the
      occurrences of `sep`; the empty string splits into one empty piece. */
  function Split(s: string, sep: char): (pieces: seq<string>)
    ensures |pieces| >= 1
    ensures forall i :: 0 <= i < |pieces| ==> sep !in pieces[i]
    decreases |s|
  {
    if |s| == 0 then [""]
    else
      var rest := Split(s[1..], sep);
      if s[0] == sep then [""] + rest
      else [[s[0]] + rest[0]] + rest[1..]
  }

  /** A prefix free of the separator becomes the start of the first piece. */
  lemma {:induction false} SplitPrefix(w: string, t: string, sep: char)
    requires sep !in w
    ensures Split(w + t, sep) == [w + Split(t, sep)[0]] + Split(t, sep)[1..]
    decreases |w|
  {
    if |w| == 0 {
      var pieces := Split(t, sep);
      assert w + t == t && w + pieces[0] == pieces[0];
      assert [pieces[0]] + pieces[1..] == pieces;
    } else {
      assert (w + t)[0] == w[0];
      assert (w + t)[1..] == w[1..] + t;
      SplitPrefix(w[1..], t, sep);
      assert [w[0]] + (w[1..] + Split(t, sep)[0]) == w + Split(t, sep)[0];
    }
  }

  /** Splitting a joined password on its separator gives back the words,
      as long as no word contains the separator. */
  lemma {:induction false} SplitJoin(sep: char, words: seq<string>)
    requires |words| >= 1
    requires forall i :: 0 <= i < |words| ==> sep !in words[i]
    ensures Split(Join([sep], words), sep) == words
    decreases |words|
  {
    if |words| == 1 {
      SplitPrefix(words[0], "", sep);
      assert words[0] + "" == words[0];
    } else {
      var rest := Join([sep], words[1..]);
      SplitJoin(sep, words[1..]);
      assert Join([sep], words) == words[0] + ([sep] + rest);
      assert ([sep] + rest)[1..] == rest;
      assert Split([sep] + rest, sep) == [""] + words[1..];
      SplitPrefix(words[0], [sep] + rest, sep);
      assert words[0] + "" == words[0];
    }
  }

  /** So the number of pieces is the number of words. */
  lemma SplitJoinCount(sep: char, words: seq<string>)
    requires |words| >= 1
    requires forall i :: 0 <= i < |words| ==> sep !in words[i]
    ensures |Split(Join([sep], words), sep)| == |words|
  {
    SplitJoin(sep, words);
  }
}
