/** White space and the trimming of strings. */
module Text {
  predicate Space(c: char) {
    c == ' ' || '\t' <= c <= '\r' || '\U{1c}' <= c <= '\U{1f}'
  }

  predicate Blank(s: string) {
    forall i | 0 <= i < |s| :: Space(s[i])
  }

  function StripLeft(s: string): string {
    if s != [] && Space(s[0]) then StripLeft(s[1..]) else s
  }

  function StripRight(s: string): string {
    if s != [] && Space(s[|s| - 1]) then StripRight(s[..|s| - 1]) else s
  }

  function Strip(s: string): string {
    StripRight(StripLeft(s))
  }

  /** Everything but the trailing `c`s. */
  function TrimRight(s: string, c: char): string {
    if s != [] && s[|s| - 1] == c then TrimRight(s[..|s| - 1], c) else s
  }

  lemma StripKeeps(s: string)
    requires s != [] ==> !Space(s[0]) && !Space(s[|s| - 1])
    ensures Strip(s) == s
  {
  }

  /** The white space of ASCII: tab to carriage return, the four separators, and the blank. */
  lemma SpaceExactly(c: char)
    ensures Space(c) <==> c as int in {9, 10, 11, 12, 13, 28, 29, 30, 31, 32}
  {
  }

  // ----- what trimming takes off -----

  /** Some text that trimming leaves alone. */
  predicate Tight(s: string) {
    s != [] && !Space(s[0]) && !Space(s[|s| - 1])
  }

  lemma {:induction false} LeftGoes(pre: string, s: string)
    requires Blank(pre) && (s != [] ==> !Space(s[0]))
    ensures StripLeft(pre + s) == s
  {
    if pre == [] {
      assert pre + s == s;
    } else {
      LeftGoes(pre[1..], s);
      assert (pre + s)[1..] == pre[1..] + s;
    }
  }

  lemma {:induction false} RightGoes(s: string, post: string)
    requires Blank(post) && (s != [] ==> !Space(s[|s| - 1]))
    ensures StripRight(s + post) == s
  {
    if post == [] {
      assert s + post == s;
    } else {
      RightGoes(s, post[..|post| - 1]);
      assert (s + post)[..|s + post| - 1] == s + post[..|post| - 1];
    }
  }

  lemma StripAround(pre: string, s: string, post: string)
    requires Blank(pre) && Blank(post) && Tight(s)
    ensures Strip(pre + s + post) == s
  {
    assert pre + s + post == pre + (s + post);
    LeftGoes(pre, s + post);
    RightGoes(s, post);
  }

  lemma {:induction false} LeftCuts(s: string) returns (pre: string)
    ensures Blank(pre) && s == pre + StripLeft(s) && (StripLeft(s) != [] ==> !Space(StripLeft(s)[0]))
  {
    hide Space;
    if s != [] && Space(s[0]) {
      var rest := LeftCuts(s[1..]);
      pre := [s[0]] + rest;
      assert s == [s[0]] + s[1..];
    } else {
      pre := [];
    }
  }

  lemma {:induction false} RightCuts(s: string) returns (post: string)
    ensures Blank(post) && s == StripRight(s) + post
    ensures StripRight(s) != [] ==> !Space(StripRight(s)[|StripRight(s)| - 1]) && StripRight(s)[0] == s[0]
  {
    hide Space;
    if s != [] && Space(s[|s| - 1]) {
      var rest := RightCuts(s[..|s| - 1]);
      post := rest + [s[|s| - 1]];
      assert s == s[..|s| - 1] + [s[|s| - 1]];
    } else {
      post := [];
    }
  }

  lemma StripCuts(s: string) returns (pre: string, post: string)
    ensures Blank(pre) && Blank(post) && s == pre + Strip(s) + post
    ensures Strip(s) != [] ==> Tight(Strip(s))
  {
    pre := LeftCuts(s);
    post := RightCuts(StripLeft(s));
    assert s == pre + (Strip(s) + post);
  }

  lemma StripBlank(s: string)
    ensures Strip(s) == [] <==> Blank(s)
  {
    var pre, post := StripCuts(s);
    if Blank(s) {
      LeftGoes(s, "");
      assert s + "" == s;
    }
    assert Strip(s) == [] ==> s == pre + post;
    hide StripLeft, StripRight, Space;
  }
}
