/** The pieces of Rust's `str` API the core relies on: `char::is_whitespace`,
    `str::trim` and `str::split_whitespace`, over Dafny strings of Unicode scalar values. */
module Text {

  /** `char::is_whitespace`: the characters with the Unicode White_Space property. */
  predicate IsWhitespace(c: char) {
    var n := c as int;
    || 0x09 <= n <= 0x0D
    || n == 0x20
    || n == 0x85
    || n == 0xA0
    || n == 0x1680
    || 0x2000 <= n <= 0x200A
    || n == 0x2028
    || n == 0x2029
    || n == 0x202F
    || n == 0x205F
    || n == 0x3000
  }

  predicate AllWhitespace(s: string) {
    forall i :: 0 <= i < |s| ==> IsWhitespace(s[i])
  }

  predicate NoWhitespace(s: string) {
    forall i :: 0 <= i < |s| ==> !IsWhitespace(s[i])
  }

  /** `str::trim_start`: the suffix left after dropping leading whitespace. */
  function TrimStart(s: string): (r: string)
    ensures |r| <= |s| && r == s[|s| - |r|..]
    ensures AllWhitespace(s[..|s| - |r|])
    ensures r != [] ==> !IsWhitespace(r[0])
  {
    if s != [] && IsWhitespace(s[0]) then
      var tail := s[1..];
      var r := TrimStart(tail);
      assert tail[|tail| - |r|..] == s[|s| - |r|..];
      assert s[..|s| - |r|] == [s[0]] + tail[..|tail| - |r|];
      r
    else
      s
  }

  /** `str::trim_end`: the prefix left after dropping trailing whitespace. */
  function TrimEnd(s: string): (r: string)
    ensures |r| <= |s| && r == s[..|r|]
    ensures AllWhitespace(s[|r|..])
    ensures r != [] ==> !IsWhitespace(r[|r| - 1])
  {
    if s != [] && IsWhitespace(s[|s| - 1]) then
      var init := s[..|s| - 1];
      var r := TrimEnd(init);
      assert init[..|r|] == s[..|r|];
      assert s[|r|..] == init[|r|..] + [s[|s| - 1]];
      r
    else
      s
  }

  /** `str::trim`: drops whitespace at both ends. */
  function Trim(s: string): string {
    TrimEnd(TrimStart(s))
  }

  /** A trimmed string neither starts nor ends with whitespace. */
  lemma TrimEnds(s: string)
    ensures var t := Trim(s);
      t != [] ==> !IsWhitespace(t[0]) && !IsWhitespace(t[|t| - 1])
  {
    var u := TrimStart(s);
    var t := TrimEnd(u);
    if t != [] {
      assert t[0] == u[0];
    }
  }

  /** A trimmed string is empty exactly when the original is all whitespace. */
  lemma TrimEmptyIff(s: string)
    ensures Trim(s) == [] <==> AllWhitespace(s)
  {
    var t := TrimStart(s);
    assert s == s[..|s| - |t|] + t;
    assert t[0..] == t;
    if t != [] {
      assert t[0] == s[|s| - |t|];
    }
  }

  /** Trimming a string without whitespace at either end returns it unchanged. */
  lemma TrimUnchanged(s: string)
    requires s != [] ==> !IsWhitespace(s[0]) && !IsWhitespace(s[|s| - 1])
    ensures Trim(s) == s
  {
    assert TrimStart(s) == s;
  }

  /** Length of the longest prefix that has no whitespace. */
  function TokenLength(s: string): (n: nat)
    ensures n <= |s| && NoWhitespace(s[..n])
    ensures n < |s| ==> IsWhitespace(s[n])
  {
    if s == [] || IsWhitespace(s[0]) then 0
    else
      var n := TokenLength(s[1..]);
      assert s[..n + 1] == [s[0]] + s[1..][..n];
      n + 1
  }

  /** The conditions in TokenLength's contract determine it. */
  lemma {:induction false} TokenLengthUnique(s: string, m: nat)
    requires m <= |s| && NoWhitespace(s[..m])
    requires m < |s| ==> IsWhitespace(s[m])
    ensures TokenLength(s) == m
  {
    if m > 0 {
      assert s[..m][0] == s[0];
      assert s[1..][..m - 1] == s[..m][1..];
      TokenLengthUnique(s[1..], m - 1);
    }
  }

  /** `str::split_whitespace`: the maximal runs of non-whitespace characters, in order. */
  function SplitWhitespace(s: string): (words: seq<string>)
    ensures forall k :: 0 <= k < |words| ==> words[k] != [] && NoWhitespace(words[k])
    ensures |words| <= |s|
    decreases |s|
  {
    if s == [] then []
    else if IsWhitespace(s[0]) then SplitWhitespace(s[1..])
    else
      var n := TokenLength(s);
      [s[..n]] + SplitWhitespace(s[n..])
  }

  /** `text.split_whitespace().count()`. */
  function WordCount(s: string): nat {
    |SplitWhitespace(s)|
  }

  function Concat(words: seq<string>): string {
    if words == [] then [] else words[0] + Concat(words[1..])
  }

  /** The string with every whitespace character removed. */
  function RemoveWhitespace(s: string): (r: string)
    ensures NoWhitespace(r)
  {
    if s == [] then []
    else if IsWhitespace(s[0]) then RemoveWhitespace(s[1..])
    else [s[0]] + RemoveWhitespace(s[1..])
  }

  lemma {:induction false} RemoveWhitespaceAppend(a: string, b: string)
    ensures RemoveWhitespace(a + b) == RemoveWhitespace(a) + RemoveWhitespace(b)
  {
    if a == [] {
      assert a + b == b;
    } else {
      assert (a + b)[0] == a[0];
      assert (a + b)[1..] == a[1..] + b;
      RemoveWhitespaceAppend(a[1..], b);
    }
  }

  lemma {:induction false} RemoveWhitespaceOfToken(s: string)
    requires NoWhitespace(s)
    ensures RemoveWhitespace(s) == s
  {
    if s != [] {
      RemoveWhitespaceOfToken(s[1..]);
    }
  }

  /** The words cover exactly the non-whitespace characters of the input, in order:
      splitting loses and invents nothing but whitespace. */
  lemma {:induction false} SplitWhitespaceCovers(s: string)
    ensures Concat(SplitWhitespace(s)) == RemoveWhitespace(s)
    decreases |s|
  {
    if s == [] {
    } else if IsWhitespace(s[0]) {
      SplitWhitespaceCovers(s[1..]);
    } else {
      var n := TokenLength(s);
      var head, tail := s[..n], s[n..];
      var words := SplitWhitespace(s);
      assert words == [head] + SplitWhitespace(tail);
      assert Concat(words) == head + Concat(SplitWhitespace(tail)) by {
        assert words[0] == head && words[1..] == SplitWhitespace(tail);
      }
      SplitWhitespaceCovers(tail);
      assert RemoveWhitespace(s) == RemoveWhitespace(head) + RemoveWhitespace(tail) by {
        assert s == head + tail;
        RemoveWhitespaceAppend(head, tail);
      }
      RemoveWhitespaceOfToken(head);
    }
  }

  /** A string of whitespace only has no words. */
  lemma {:induction false} WordCountBlank(s: string)
    requires AllWhitespace(s)
    ensures WordCount(s) == 0
    decreases |s|
  {
    if s != [] {
      WordCountBlank(s[1..]);
    }
  }

  /** A word followed by a separator (or by nothing) contributes exactly one word. */
  lemma WordThenRest(w: string, rest: string)
    requires w != [] && NoWhitespace(w)
    requires rest != [] ==> IsWhitespace(rest[0])
    ensures SplitWhitespace(w + rest) == [w] + SplitWhitespace(rest)
  {
    var s := w + rest;
    assert s[..|w|] == w && s[|w|..] == rest;
    TokenLengthUnique(s, |w|);
  }

  lemma WordCountExamples()
    ensures WordCount("hello there friend") == 3
    ensures WordCount("") == 0
  {
    var w1, w2, w3 := "hello", "there", "friend";
    assert NoWhitespace(w1) && NoWhitespace(w2) && NoWhitespace(w3);
    assert "hello there friend" == w1 + (" " + (w2 + (" " + w3)));
    WordThenRest(w3, []);
    assert w3 + [] == w3;
    WordThenRest(w2, " " + w3);
    WordThenRest(w1, " " + (w2 + (" " + w3)));
  }
}
