/** `subjectIsContainedIn` of src/subject_utils.hpp against what subjects mean: the literal
subjects a pattern matches. */
module Containment {
  import opened Tokens
  import opened Subjects

  // ---------------- the check of the source ----------------

  predicate Contained(mine: seq<string>, other: seq<string>)
    requires other != []
  {
    && |mine| >= |other|
    && (|mine| > |other| ==> Last(other) == ">")
    && forall i :: 0 <= i < |other| ==> Covers(other, mine, i)
  }

  /** Token `i` of `other` covers that of `mine`: it is equal, `*`, or a final `>`. */
  predicate Covers(other: seq<string>, mine: seq<string>, i: nat)
    requires i < |other| && i < |mine|
  {
    other[i] == mine[i] || other[i] == "*" || (i == |other| - 1 && other[i] == ">")
  }

  predicate ContainedIn(s: string, other: string) {
    Contained(Split(s, '.'), Split(other, '.'))
  }

  method SubjectIsContainedIn(s: string, other: string) returns (r: bool)
    ensures r == ContainedIn(s, other)
  {
    var otherArr := SplitOn(other, '.');
    var myArr := SplitOn(s, '.');
    if |myArr| > |otherArr| && otherArr[|otherArr| - 1] != ">" {
      return false;
    }
    if |myArr| < |otherArr| {
      return false;
    }
    for i := 0 to |otherArr|
      invariant forall k :: 0 <= k < i ==> Covers(otherArr, myArr, k)
    {
      var tok := otherArr[i];
      if i == |otherArr| - 1 && tok == ">" {
        assert Covers(otherArr, myArr, i);
        return true;
      }
      if tok != myArr[i] && tok != "*" {
        assert !Covers(otherArr, myArr, i);
        return false;
      }
    }
    return true;
  }

  // ---------------- what subjects mean ----------------

  /** A literal subject: non-empty tokens, none of them a wildcard. */
  predicate Literal(l: seq<string>) {
    l != [] && forall i :: 0 <= i < |l| ==> LiteralToken(l[i])
  }

  predicate LiteralToken(t: string) {
    t != "" && '.' !in t && ' ' !in t && !IsWildcard(t)
  }

  /** `*` matches one token, a final `>` one or more, any other token itself. */
  predicate Matches(l: seq<string>, pattern: seq<string>) {
    if pattern == [] then l == []
    else if pattern == [">"] then l != []
    else l != [] && (pattern[0] == "*" || pattern[0] == l[0]) && Matches(l[1..], pattern[1..])
  }

  /** The check of the source, asked about a literal, decides whether it matches. */
  lemma {:induction false} MatchesExactly(l: seq<string>, pattern: seq<string>)
    requires pattern != []
    ensures Matches(l, pattern) <==> Contained(l, pattern)
  {
    if l != [] && |pattern| > 1 {
      MatchesExactly(l[1..], pattern[1..]);
      ContainedHead(l, pattern);
    } else if l != [] && pattern != [">"] {
      assert pattern[1..] == [];
      assert Covers(pattern, l, 0) <==> pattern[0] == "*" || pattern[0] == l[0];
    }
  }

  lemma ContainedHead(l: seq<string>, pattern: seq<string>)
    requires l != [] && |pattern| > 1
    ensures Contained(l, pattern)
       <==> (pattern[0] == "*" || pattern[0] == l[0]) && Contained(l[1..], pattern[1..])
  {
    assert Covers(pattern, l, 0) <==> pattern[0] == "*" || pattern[0] == l[0];
    if |l| >= |pattern| {
      assert forall i :: 1 <= i < |pattern| ==>
        (Covers(pattern, l, i) <==> Covers(pattern[1..], l[1..], i - 1));
      if Contained(l[1..], pattern[1..]) && Covers(pattern, l, 0) {
        forall i | 0 <= i < |pattern|
          ensures Covers(pattern, l, i)
        {
          assert i > 0 ==> Covers(pattern[1..], l[1..], i - 1);
        }
      }
      if Contained(l, pattern) {
        forall i | 0 <= i < |pattern| - 1
          ensures Covers(pattern[1..], l[1..], i)
        {
          assert Covers(pattern, l, i + 1);
        }
      }
    }
  }

  /** Every literal subject that matches `s` matches `o`. */
  ghost predicate Includes(o: seq<string>, s: seq<string>)
    requires o != [] && s != []
  {
    forall l :: Literal(l) && Matches(l, s) ==> Matches(l, o)
  }

  /** A subject `validateSubject` accepts, with `>` only as its last token. */
  predicate Pattern(tokens: seq<string>) {
    && tokens != [] && ValidTokens(tokens) && SeparatorFree(tokens, '.')
    && forall i :: 0 <= i < |tokens| - 1 ==> tokens[i] != ">"
  }

  /** The one case in which the check and the meaning part: as many tokens on both sides, the
      contained subject ends in `>`, the containing one in `*`. */
  predicate Corner(s: seq<string>, o: seq<string>) {
    s != [] && |s| == |o| && Last(s) == ">" && Last(o) == "*"
  }

  // ---------------- soundness ----------------

  lemma ContainedIncludes(s: seq<string>, o: seq<string>)
    requires Pattern(s) && Pattern(o) && Contained(s, o) && !Corner(s, o)
    ensures Includes(o, s)
  {
    forall l | Literal(l) && Matches(l, s)
      ensures Matches(l, o)
    {
      MatchesExactly(l, s);
      MatchesExactly(l, o);
      forall i | 0 <= i < |o|
        ensures Covers(o, l, i)
      {
        assert Covers(o, s, i) && Covers(s, l, i);
      }
      if |s| == |o| {
        assert Covers(o, s, |o| - 1);
      }
    }
  }

  // ---------------- completeness ----------------

  /** A token longer than every token of the pattern, so different from all of them. */
  function Fresh(tokens: seq<string>): (t: string)
    ensures LiteralToken(t)
    ensures forall i :: 0 <= i < |tokens| ==> |tokens[i]| < |t|
    ensures |t| > 1
  {
    if tokens == [] then "xx"
    else
      var t := Fresh(tokens[1..]);
      assert forall i :: 1 <= i < |tokens| ==> tokens[i] == tokens[1..][i - 1];
      if |tokens[0]| < |t| then t else Repeat('x', |tokens[0]| + 2)
  }

  function Repeat(c: char, n: nat): (t: string)
    ensures |t| == n && forall i :: 0 <= i < n ==> t[i] == c
  {
    seq(n, _ => c)
  }

  /** The literal with `n` tokens that puts a fresh one wherever `s` has a wildcard. */
  function Witness(s: seq<string>, novel: string, n: nat): (l: seq<string>)
    requires |s| <= n
    ensures |l| == n
    ensures forall i :: 0 <= i < n ==>
      l[i] == if i < |s| && !IsWildcard(s[i]) then s[i] else novel
  {
    seq(n, i requires 0 <= i < n => if i < |s| && !IsWildcard(s[i]) then s[i] else novel)
  }

  lemma WitnessMatches(s: seq<string>, novel: string, n: nat)
    requires Pattern(s) && LiteralToken(novel) && |s| <= n
    requires n > |s| ==> Last(s) == ">"
    ensures Literal(Witness(s, novel, n)) && Matches(Witness(s, novel, n), s)
  {
    MatchesExactly(Witness(s, novel, n), s);
  }

  lemma IncludesContained(s: seq<string>, o: seq<string>)
    requires Pattern(s) && Pattern(o) && Includes(o, s)
    ensures Contained(s, o) && !Corner(s, o)
  {
    var novel := Fresh(o);
    // a literal with as many tokens as s
    var l := Witness(s, novel, |s|);
    WitnessMatches(s, novel, |s|);
    MatchesExactly(l, o);
    forall i | 0 <= i < |o|
      ensures Covers(o, s, i)
    {
      assert Covers(o, l, i);
      assert o[i] != novel;
    }
    // and, when s ends in `>`, one with one token more
    if Last(s) == ">" {
      var l' := Witness(s, novel, |s| + 1);
      WitnessMatches(s, novel, |s| + 1);
      MatchesExactly(l', o);
    }
  }

  /** On patterns the check is language inclusion, outside the corner; in the corner inclusion
      never holds, whatever the check says. */
  lemma ContainmentExactly(s: seq<string>, o: seq<string>)
    requires Pattern(s) && Pattern(o)
    ensures Includes(o, s) <==> Contained(s, o) && !Corner(s, o)
  {
    if Contained(s, o) && !Corner(s, o) {
      ContainedIncludes(s, o);
    }
    if Includes(o, s) {
      IncludesContained(s, o);
    }
  }

  /** The same for subjects as texts that `validateSubject` accepts. */
  lemma SubjectContainmentExactly(s: string, o: string)
    requires SubjectFindings(s) == [] && SubjectFindings(o) == []
    requires forall i :: 0 <= i < |Split(s, '.')| - 1 ==> Split(s, '.')[i] != ">"
    requires forall i :: 0 <= i < |Split(o, '.')| - 1 ==> Split(o, '.')[i] != ">"
    ensures Includes(Split(o, '.'), Split(s, '.'))
       <==> ContainedIn(s, o) && !Corner(Split(s, '.'), Split(o, '.'))
  {
    SubjectFindingsExactly(s);
    SubjectFindingsExactly(o);
    JoinSplit(s, '.');
    JoinSplit(o, '.');
    ContainmentExactly(Split(s, '.'), Split(o, '.'));
  }

  /** In the corner the check looks at the tokens before the last one only, and is wrong
      whenever it says yes. */
  lemma CornerExactly(s: seq<string>, o: seq<string>)
    requires Pattern(s) && Pattern(o) && Corner(s, o)
    ensures Contained(s, o) <==> forall i :: 0 <= i < |o| - 1 ==> Covers(o, s, i)
    ensures !Includes(o, s)
  {
    assert Covers(o, s, |o| - 1);
    if Includes(o, s) {
      IncludesContained(s, o);
    }
  }

  /** `a.>` is reported as contained in `a.*`, but matches `a.xx.xx`, which `a.*` does not. */
  lemma CornerExample()
    ensures Pattern(["a", ">"]) && Pattern(["a", "*"])
    ensures Contained(["a", ">"], ["a", "*"]) && !Includes(["a", "*"], ["a", ">"])
  {
    CornerExactly(["a", ">"], ["a", "*"]);
  }

  // ---------------- patterns with a literal in common ----------------

  /** Some literal subject matches both. */
  ghost predicate Share(a: seq<string>, b: seq<string>) {
    exists l :: Literal(l) && Matches(l, a) && Matches(l, b)
  }

  /** Token by token, both can be matched at once. */
  predicate Compatible(a: seq<string>, b: seq<string>) {
    if a == [] || b == [] then a == b
    else if a == [">"] || b == [">"] then true
    else (a[0] == b[0] || a[0] == "*" || b[0] == "*") && Compatible(a[1..], b[1..])
  }

  lemma {:induction false} SharedCompatible(a: seq<string>, b: seq<string>, l: seq<string>)
    requires Matches(l, a) && Matches(l, b)
    ensures Compatible(a, b)
  {
    if a != [] && b != [] && a != [">"] && b != [">"] {
      SharedCompatible(a[1..], b[1..], l[1..]);
    }
  }

  /** A pattern, or what is left of one. */
  predicate Rest(tokens: seq<string>) {
    tokens == [] || Pattern(tokens)
  }

  lemma {:induction false} CompatibleShared(a: seq<string>, b: seq<string>) returns (l: seq<string>)
    requires Rest(a) && Rest(b) && Compatible(a, b)
    ensures Matches(l, a) && Matches(l, b) && (l == [] || Literal(l))
    ensures a != [] ==> l != []
  {
    if a == [] {
      l := [];
    } else if a == [">"] {
      WitnessMatches(b, "x", |b|);
      l := Witness(b, "x", |b|);
    } else if b == [">"] {
      WitnessMatches(a, "x", |a|);
      l := Witness(a, "x", |a|);
    } else {
      assert Rest(a[1..]) && Rest(b[1..]);
      var rest := CompatibleShared(a[1..], b[1..]);
      var head := if a[0] != "*" then a[0] else if b[0] != "*" then b[0] else "x";
      HeadIsLiteral(a);
      HeadIsLiteral(b);
      l := [head] + rest;
      assert l[1..] == rest;
    }
  }

  lemma HeadIsLiteral(a: seq<string>)
    requires Pattern(a) && a != [">"]
    ensures a[0] == "*" || LiteralToken(a[0])
  {
  }

  /** Two patterns have a literal in common if and only if they are compatible token by token. */
  lemma ShareExactly(a: seq<string>, b: seq<string>)
    requires Pattern(a) && Pattern(b)
    ensures Share(a, b) <==> Compatible(a, b)
  {
    if l :| Literal(l) && Matches(l, a) && Matches(l, b) {
      SharedCompatible(a, b, l);
    }
    if Compatible(a, b) {
      var l := CompatibleShared(a, b);
      assert Literal(l);
    }
  }

  /** A pattern that is contained in another shares a literal with it, in the corner too. */
  lemma ContainedShare(s: seq<string>, o: seq<string>)
    requires Pattern(s) && Pattern(o) && Contained(s, o)
    ensures Share(s, o)
  {
    var l := Witness(s, "xx", |s|);
    WitnessMatches(s, "xx", |s|);
    MatchesExactly(l, o);
    forall i | 0 <= i < |o|
      ensures Covers(o, l, i)
    {
      assert Covers(o, s, i);
    }
  }

  /** Where both compatible patterns have plain tokens they have the same. */
  lemma {:induction false} CompatibleAt(a: seq<string>, b: seq<string>, i: nat)
    requires Rest(a) && Rest(b) && Compatible(a, b) && i < |a| && i < |b|
    requires !IsWildcard(a[i]) && !IsWildcard(b[i])
    ensures a[i] == b[i]
  {
    if i > 0 {
      assert Rest(a[1..]) && Rest(b[1..]);
      CompatibleAt(a[1..], b[1..], i - 1);
    }
  }

  /** They are equally long unless a `>` ends the shorter one. */
  lemma {:induction false} CompatibleLengths(a: seq<string>, b: seq<string>)
    requires Rest(a) && Rest(b) && Compatible(a, b)
    ensures |a| < |b| ==> a != [] && Last(a) == ">"
    ensures |a| > |b| ==> b != [] && Last(b) == ">"
  {
    if a != [] && b != [] && a != [">"] && b != [">"] {
      assert Rest(a[1..]) && Rest(b[1..]);
      CompatibleLengths(a[1..], b[1..]);
    }
  }

  /** Somewhere `a` leaves open what `b` does not: a wildcard against a plain token, or a `>` against
      more tokens. */
  predicate Wider(a: seq<string>, b: seq<string>)
    requires a != []
  {
    || (exists i :: 0 <= i < |a| && i < |b| && IsWildcard(a[i]) && !IsWildcard(b[i]))
    || (Last(a) == ">" && |a| < |b|)
  }

  /** Of two patterns with a literal in common, the first is contained in the second if and only if it
      is nowhere wider. */
  lemma UncontainedExactly(a: seq<string>, b: seq<string>)
    requires Pattern(a) && Pattern(b) && Share(a, b)
    ensures Contained(a, b) <==> !Wider(a, b)
  {
    ShareExactly(a, b);
    CompatibleLengths(a, b);
    if Contained(a, b) {
      forall i | 0 <= i < |b| && IsWildcard(a[i])
        ensures IsWildcard(b[i])
      {
        assert Covers(b, a, i);
      }
    }
    if !Wider(a, b) {
      forall i | 0 <= i < |b|
        ensures Covers(b, a, i)
      {
        if !IsWildcard(b[i]) {
          CompatibleAt(a, b, i);
        }
      }
    }
  }

  /** `a.*` and `*.b` share `a.b` although neither is contained in the other. */
  lemma ShareUncontained()
    ensures Pattern(["a", "*"]) && Pattern(["*", "b"]) && Share(["a", "*"], ["*", "b"])
    ensures !Contained(["a", "*"], ["*", "b"]) && !Contained(["*", "b"], ["a", "*"])
  {
    var a, b := ["a", "*"], ["*", "b"];
    assert a[1..] == ["*"] && b[1..] == ["b"];
    assert Compatible(["*"], ["b"]);
    ShareExactly(a, b);
    assert !Covers(b, a, 1) && !Covers(a, b, 0);
  }

  // ---------------- the check as a relation ----------------

  lemma ContainedReflexive(s: string)
    ensures ContainedIn(s, s)
  {
  }

  /** Two containments compose exactly when the second is not the corner, or the first keeps
      the number of tokens. */
  lemma ContainedTransitiveExactly(a: seq<string>, b: seq<string>, c: seq<string>)
    requires a != [] && b != [] && c != []
    requires Contained(a, b) && Contained(b, c)
    ensures Contained(a, c) <==> !(Corner(b, c) && |a| > |b|)
  {
    forall i | 0 <= i < |c|
      ensures Covers(c, a, i)
    {
      assert Covers(c, b, i) && Covers(b, a, i);
    }
    if |a| > |c| && Last(c) != ">" {
      assert |b| == |c|;
      assert Covers(c, b, |c| - 1);
    }
  }

  /** `a.b.c` in `a.>` in `a.*`, but not in `a.*`. */
  lemma NotTransitive()
    ensures Contained(["a", "b", "c"], ["a", ">"]) && Contained(["a", ">"], ["a", "*"])
    ensures !Contained(["a", "b", "c"], ["a", "*"])
  {
  }
}
