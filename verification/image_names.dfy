/** Image names: the tuples of tag and attribute tokens that an image statement
    defines and an image reference names, and the message that spells a name
    out when no image is found for it. */
module ImageNames {

  /** A name is an ordered sequence of tokens ("eileen", "happy", ...). */
  type ImageName = seq<string>

  /** The tokens joined with one space between each pair, as Python's
      `' '.join(tokens)` builds them. */
  function JoinSpaces(tokens: ImageName): string
  {
    if |tokens| == 0 then ""
    else if |tokens| == 1 then tokens[0]
    else tokens[0] + " " + JoinSpaces(tokens[1..])
  }

  /** A string cut at every space, as Python's `s.split(' ')` cuts it: n spaces
      give n + 1 pieces, and the empty string gives one empty piece. */
  function SplitSpaces(s: string): (pieces: seq<string>)
    ensures |pieces| > 0
    decreases |s|
  {
    if |s| == 0 then [""]
    else
      var rest := SplitSpaces(s[1..]);
      if s[0] == ' ' then [""] + rest
      else [[s[0]] + rest[0]] + rest[1..]
  }

  /** True when no token holds a space, as for every name an image statement
      can declare. */
  predicate SpaceFree(tokens: ImageName)
  {
    forall i :: 0 <= i < |tokens| ==> ' ' !in tokens[i]
  }

  /** The message of a reference whose name has no registered prefix. */
  function NotFoundMessage(name: ImageName): string
  {
    "Image '" + JoinSpaces(name) + "' not found."
  }

  /** A word without spaces in front of a string only lengthens the first
      piece of the split. */
  lemma {:induction false} SplitAfterWord(w: string, s: string)
    requires ' ' !in w
    ensures SplitSpaces(w + s) == [w + SplitSpaces(s)[0]] + SplitSpaces(s)[1..]
    decreases |w|
  {
    if |w| > 0 {
      assert (w + s)[1..] == w[1..] + s;
      SplitAfterWord(w[1..], s);
      assert [w[0]] + (w[1..] + SplitSpaces(s)[0]) == w + SplitSpaces(s)[0];
    } else {
      assert w + s == s;
      assert w + SplitSpaces(s)[0] == SplitSpaces(s)[0];
      assert SplitSpaces(s) == [SplitSpaces(s)[0]] + SplitSpaces(s)[1..];
    }
  }

  /** Joining a non-empty space-free name and splitting the text again gives
      the name back, so the message of a missing image names exactly one
      image. */
  lemma {:induction false} SplitJoinRoundTrip(tokens: ImageName)
    requires |tokens| > 0 && SpaceFree(tokens)
    ensures SplitSpaces(JoinSpaces(tokens)) == tokens
    decreases |tokens|
  {
    if |tokens| == 1 {
      SplitAfterWord(tokens[0], "");
      assert tokens[0] + "" == tokens[0];
    } else {
      var rest := JoinSpaces(tokens[1..]);
      assert JoinSpaces(tokens) == tokens[0] + (" " + rest);
      SplitAfterWord(tokens[0], " " + rest);
      assert (" " + rest)[1..] == rest;
      assert SplitSpaces(" " + rest) == [""] + SplitSpaces(rest);
      SplitJoinRoundTrip(tokens[1..]);
      assert tokens[0] + "" == tokens[0];
      assert tokens == [tokens[0]] + tokens[1..];
    }
  }

  /** The not-found message of two different space-free names differs. */
  lemma NotFoundMessageInjective(a: ImageName, b: ImageName)
    requires |a| > 0 && SpaceFree(a) && |b| > 0 && SpaceFree(b)
    requires NotFoundMessage(a) == NotFoundMessage(b)
    ensures a == b
  {
    var pre := "Image '";
    var post := "' not found.";
    assert JoinSpaces(a) == NotFoundMessage(a)[|pre|..|NotFoundMessage(a)| - |post|];
    assert JoinSpaces(b) == NotFoundMessage(b)[|pre|..|NotFoundMessage(b)| - |post|];
    SplitJoinRoundTrip(a);
    SplitJoinRoundTrip(b);
  }
}
