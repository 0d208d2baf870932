/** Splitting text at a separator and joining it again (`splitOn` of src/subject_utils.hpp). */
module Tokens {
  /** `std::tolower` in the C locale. */
  function ToLower(c: char): char {
    if 'A' <= c <= 'Z' then ((c as int) + 32) as char else c
  }

  /** Position of the first `c` in `s` at or after `from`, or |s|: `s.find(c, from)`. */
  function Find(s: string, c: char, from: nat): (i: nat)
    requires from <= |s|
    ensures from <= i <= |s|
    ensures forall k :: from <= k < i ==> s[k] != c
    ensures i < |s| ==> s[i] == c
    decreases |s| - from
  {
    if from == |s| || s[from] == c then from else Find(s, c, from + 1)
  }

  function Split(s: string, sep: char): (tokens: seq<string>)
    ensures tokens != []
    decreases |s|
  {
    var i := Find(s, sep, 0);
    if i == |s| then [s] else [s[..i]] + Split(s[i + 1..], sep)
  }

  function Join(tokens: seq<string>, sep: char): string {
    if tokens == [] then ""
    else if |tokens| == 1 then tokens[0]
    else tokens[0] + [sep] + Join(tokens[1..], sep)
  }

  predicate SeparatorFree(tokens: seq<string>, sep: char) {
    forall i :: 0 <= i < |tokens| ==> sep !in tokens[i]
  }

  lemma {:induction false} JoinSplit(s: string, sep: char)
    ensures Join(Split(s, sep), sep) == s
    ensures SeparatorFree(Split(s, sep), sep)
    decreases |s|
  {
    var i := Find(s, sep, 0);
    if i < |s| {
      JoinSplit(s[i + 1..], sep);
      assert s == s[..i] + [sep] + s[i + 1..];
    } else {
      assert s[..i] == s;
    }
  }

  lemma FindFirst(a: string, sep: char, b: string)
    requires sep !in a
    ensures Find(a, sep, 0) == |a|
    ensures Find(a + [sep] + b, sep, 0) == |a|
  {
    var s := a + [sep] + b;
    assert forall k :: 0 <= k < |a| ==> s[k] == a[k] != sep;
    assert s[|a|] == sep;
  }

  lemma SplitCons(a: string, sep: char, b: string)
    requires sep !in a
    ensures Split(a, sep) == [a]
    ensures Split(a + [sep] + b, sep) == [a] + Split(b, sep)
  {
    FindFirst(a, sep, b);
    var s := a + [sep] + b;
    assert s[..|a|] == a && s[|a| + 1..] == b;
  }

  /** Splitting undoes joining: a text has exactly one token list. */
  lemma {:induction false} SplitJoin(tokens: seq<string>, sep: char)
    requires tokens != [] && SeparatorFree(tokens, sep)
    ensures Split(Join(tokens, sep), sep) == tokens
  {
    if |tokens| == 1 {
      SplitCons(tokens[0], sep, "");
    } else {
      SplitJoin(tokens[1..], sep);
      SplitCons(tokens[0], sep, Join(tokens[1..], sep));
    }
  }

  /** `splitOn`. */
  method SplitOn(s: string, sep: char) returns (out: seq<string>)
    ensures out == Split(s, sep)
  {
    out := [];
    var pos := 0;
    while true
      invariant pos <= |s|
      invariant out + Split(s[pos..], sep) == Split(s, sep)
      decreases |s| - pos
    {
      var next := Find(s, sep, pos);
      SplitFrom(s, sep, pos, next);
      if next == |s| {
        out := out + [s[pos..]];
        break;
      }
      AppendToken(out, s[pos..next], Split(s[next + 1..], sep));
      out := out + [s[pos..next]];
      pos := next + 1;
    }
  }

  lemma AppendToken(out: seq<string>, token: string, rest: seq<string>)
    ensures out + ([token] + rest) == out + [token] + rest
  {
  }

  lemma SplitNext(t: string, sep: char, head: string, tail: string)
    requires Find(t, sep, 0) < |t|
    requires head == t[..Find(t, sep, 0)] && tail == t[Find(t, sep, 0) + 1..]
    ensures Split(t, sep) == [head] + Split(tail, sep)
  {
  }

  /** The first token from a position on, and the rest. */
  lemma SplitFrom(s: string, sep: char, pos: nat, next: nat)
    requires pos <= |s| && next == Find(s, sep, pos)
    ensures next == |s| ==> Split(s[pos..], sep) == [s[pos..]]
    ensures next < |s| ==> Split(s[pos..], sep) == [s[pos..next]] + Split(s[next + 1..], sep)
  {
    FindShift(s, sep, pos);
    if next < |s| {
      SplitNext(s[pos..], sep, s[pos..next], s[next + 1..]);
    }
  }

  lemma FindShift(s: string, c: char, from: nat)
    requires from <= |s|
    ensures Find(s[from..], c, 0) == Find(s, c, from) - from
  {
    assert forall k :: 0 <= k < |s| - from ==> s[from..][k] == s[from + k];
    var j := Find(s, c, from) - from;
    assert j < |s| - from ==> s[from..][j] == c;
  }

  /** The prefix of `n` tokens of a text, joined, is a prefix of the text. */
  lemma {:induction false} JoinPrefix(tokens: seq<string>, n: nat, sep: char)
    requires 0 < n < |tokens|
    ensures Join(tokens, sep) == Join(tokens[..n], sep) + [sep] + Join(tokens[n..], sep)
  {
    if n > 1 {
      JoinPrefix(tokens[1..], n - 1, sep);
      assert tokens[1..][..n - 1] == tokens[..n][1..];
      assert tokens[1..][n - 1..] == tokens[n..];
    } else {
      assert tokens[..1] == [tokens[0]];
    }
  }

  /** The tokens of two texts with a separator between them. */
  lemma {:induction false} SplitAt(a: string, sep: char, b: string)
    ensures Split(a + [sep] + b, sep) == Split(a, sep) + Split(b, sep)
    decreases |a|
  {
    var i := Find(a, sep, 0);
    if i == |a| {
      SplitCons(a, sep, b);
    } else {
      var head, tail := a[..i], a[i + 1..];
      SplitAt(tail, sep, b);
      assert a == head + [sep] + tail;
      SplitAtLater(head, sep, tail, b, Split(tail, sep), Split(b, sep));
    }
  }

  lemma SplitAtLater(head: string, sep: char, tail: string, b: string, s: seq<string>, t: seq<string>)
    requires sep !in head
    requires Split(tail, sep) == s && Split(tail + [sep] + b, sep) == s + t
    ensures Split(head + [sep] + tail, sep) == [head] + s
    ensures Split(head + [sep] + tail + [sep] + b, sep) == [head] + s + t
  {
    SplitCons(head, sep, tail);
    SplitCons(head, sep, tail + [sep] + b);
    LongJoin(head, [sep], tail, b);
    AppendTokens([head], s, t);
  }

  lemma LongJoin(a: string, sep: string, b: string, c: string)
    ensures a + sep + b + sep + c == a + sep + (b + sep + c)
  {
  }

  lemma AppendTokens(a: seq<string>, b: seq<string>, c: seq<string>)
    ensures a + (b + c) == a + b + c
  {
  }

  lemma SplitThreeTexts(a: string, b: string, c: string, sep: char)
    ensures Split(a + [sep] + b + [sep] + c, sep) == Split(a, sep) + Split(b, sep) + Split(c, sep)
  {
    SplitAt(a + [sep] + b, sep, c);
    SplitAt(a, sep, b);
  }
}
