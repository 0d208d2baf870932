/** Subjects, checked character by character in src/subject_utils.hpp, as lists of tokens. */
module Subjects {
  import opened Tokens
  import opened Findings

  // ---------------- validateSubject ----------------

  predicate HasDoubleDot(v: string) {
    exists i :: 0 <= i < |v| - 1 && v[i] == '.' && v[i + 1] == '.'
  }

  /** What `validateSubject` reports, in its order. */
  function SubjectFindings(v: string): seq<Finding> {
    if v == "" then [SubjectEmpty]
    else
      (if ' ' in v then [SubjectHasSpaces] else [])
      + (if v[0] == '.' || v[|v| - 1] == '.' then [SubjectDotAtEnd] else [])
      + (if HasDoubleDot(v) then [SubjectDoubleDot] else [])
  }

  method ValidateSubject(v: string, vr: ValidationResults)
    modifies vr
    ensures vr.issues == old(vr.issues) + Errors(SubjectFindings(v))
  {
    if v == "" {
      vr.AddError(SubjectEmpty);
      return;
    }
    ghost var before := vr.issues;
    ghost var found := AddErrorIf(' ' in v, SubjectHasSpaces, vr, before, []);
    found := AddErrorIf(v[0] == '.' || v[|v| - 1] == '.', SubjectDotAtEnd, vr, before, found);
    found := AddErrorIf(HasDoubleDot(v), SubjectDoubleDot, vr, before, found);
  }

  predicate ValidTokens(tokens: seq<string>) {
    forall i :: 0 <= i < |tokens| ==> tokens[i] != "" && ' ' !in tokens[i]
  }

  predicate CleanText(v: string) {
    v != "" && ' ' !in v && v[0] != '.' && v[|v| - 1] != '.' && !HasDoubleDot(v)
  }

  lemma {:induction false} CleanTextExactly(v: string)
    ensures CleanText(v) <==> ValidTokens(Split(v, '.'))
    decreases |v|
  {
    var i := Find(v, '.', 0);
    if i == |v| {
      assert Split(v, '.')[0] == v && |Split(v, '.')| == 1;
      assert v != "" ==> v[0] != '.' && v[|v| - 1] != '.' && !HasDoubleDot(v);
    } else {
      var a, b := v[..i], v[i + 1..];
      CleanTextExactly(b);
      assert v == a + ['.'] + b;
      SplitFirst(a, b, v);
      if b != "" {
        DoubleDotParts(a, b, v);
      }
    }
  }

  /** Nothing is reported if and only if every token is non-empty and free of spaces. */
  lemma SubjectFindingsExactly(v: string)
    ensures SubjectFindings(v) == [] <==> ValidTokens(Split(v, '.'))
  {
    CleanTextExactly(v);
  }

  lemma SplitFirst(a: string, b: string, v: string)
    requires '.' !in a && v == a + ['.'] + b
    ensures Split(v, '.') == [a] + Split(b, '.')
    ensures ValidTokens(Split(v, '.')) <==> a != "" && ' ' !in a && ValidTokens(Split(b, '.'))
    ensures ' ' in v <==> ' ' in a || ' ' in b
  {
    SplitCons(a, '.', b);
    var tokens, rest := Split(v, '.'), Split(b, '.');
    assert tokens[0] == a && tokens[1..] == rest;
    if ValidTokens(tokens) {
      forall i | 0 <= i < |rest|
        ensures rest[i] != "" && ' ' !in rest[i]
      {
        assert rest[i] == tokens[i + 1];
      }
    }
  }

  lemma DoubleDotParts(a: string, b: string, v: string)
    requires '.' !in a && b != "" && v == a + ['.'] + b
    ensures HasDoubleDot(v) <==> b[0] == '.' || HasDoubleDot(b)
    ensures v[|v| - 1] == b[|b| - 1]
  {
    var n := |a| + 1;
    if b[0] == '.' {
      assert v[|a|] == '.' && v[|a| + 1] == '.';
    }
    if HasDoubleDot(b) {
      var i :| 0 <= i < |b| - 1 && b[i] == '.' && b[i + 1] == '.';
      assert v[n + i] == '.' && v[n + i + 1] == '.';
    }
    if HasDoubleDot(v) {
      var i :| 0 <= i < |v| - 1 && v[i] == '.' && v[i + 1] == '.';
      assert forall k :: 0 <= k < |a| ==> v[k] == a[k] != '.';
      if i > |a| {
        assert b[i - n] == '.' && b[i - n + 1] == '.';
      }
    }
  }

  // ---------------- wildcards ----------------

  predicate EndsWith(v: string, suffix: string) {
    |v| >= |suffix| && v[|v| - |suffix|..] == suffix
  }

  /** `v.find(".*.")`. */
  predicate HasInnerStar(v: string) {
    exists i :: 0 <= i < |v| - 2 && v[i] == '.' && v[i + 1] == '*' && v[i + 2] == '.'
  }

  /** `subjectHasWildcards`. */
  predicate HasWildcards(v: string) {
    EndsWith(v, ".>") || HasInnerStar(v) || EndsWith(v, ".*") || "*." <= v || v == "*" || v == ">"
  }

  function Last(tokens: seq<string>): string
    requires tokens != []
  {
    tokens[|tokens| - 1]
  }

  /** A `*` that stands alone between dots or ends. */
  predicate StarAt(v: string, p: int) {
    && 0 <= p < |v| && v[p] == '*'
    && (p == 0 || v[p - 1] == '.')
    && (p == |v| - 1 || v[p + 1] == '.')
  }

  lemma {:induction false} StarToken(v: string)
    ensures "*" in Split(v, '.') <==> exists p :: StarAt(v, p)
    decreases |v|
  {
    var i := Find(v, '.', 0);
    if i == |v| {
      if v == "*" {
        assert StarAt(v, 0);
      }
    } else {
      var a, b := v[..i], v[i + 1..];
      StarToken(b);
      assert v == a + ['.'] + b;
      SplitFirst(a, b, v);
      StarParts(a, b, v);
    }
  }

  lemma StarParts(a: string, b: string, v: string)
    requires '.' !in a && v == a + ['.'] + b
    ensures (exists p :: StarAt(v, p)) <==> a == "*" || exists p :: StarAt(b, p)
  {
    var n := |a| + 1;
    if a == "*" {
      assert StarAt(v, 0);
    }
    if p :| StarAt(b, p) {
      assert StarAt(v, n + p);
    }
    if p :| StarAt(v, p) {
      assert forall k :: 0 <= k < |a| ==> v[k] == a[k] != '.';
      if p < |a| {
        assert p == 0 && |a| == 1;
        assert a == "*";
      } else {
        assert StarAt(b, p - n);
      }
    }
  }

  lemma EndsWithTwo(v: string, c: char, d: char)
    ensures EndsWith(v, [c, d]) <==> |v| >= 2 && v[|v| - 2] == c && v[|v| - 1] == d
  {
    if |v| >= 2 {
      assert v[|v| - 2..] == [v[|v| - 2], v[|v| - 1]];
    }
  }

  predicate GreaterText(v: string) {
    v == ">" || EndsWith(v, ".>")
  }

  lemma GreaterParts(a: string, b: string, v: string)
    requires v == a + ['.'] + b
    ensures GreaterText(v) <==> GreaterText(b)
  {
    EndsWithTwo(v, '.', '>');
    EndsWithTwo(b, '.', '>');
    assert v[|a|] == '.';
    assert forall k :: 0 <= k < |b| ==> v[|a| + 1 + k] == b[k];
    if |b| >= 2 {
      assert v[|a| + 1 + (|b| - 2)] == b[|b| - 2];
    }
  }

  /** A subject ends in the token `>` if and only if it is `>` or ends in `.>`. */
  lemma {:induction false} LastGreater(v: string)
    ensures Last(Split(v, '.')) == ">" <==> GreaterText(v)
    decreases |v|
  {
    var i := Find(v, '.', 0);
    if i < |v| {
      var a, b := v[..i], v[i + 1..];
      assert v == a + ['.'] + b;
      LastGreater(b);
      GreaterParts(a, b, v);
      SplitFirst(a, b, v);
      assert Last(Split(v, '.')) == Last(Split(b, '.'));
    } else {
      EndsWithTwo(v, '.', '>');
    }
  }

  /** The four places in which the source looks for a `*` between dots or ends. */
  lemma StarForms(v: string)
    ensures (exists p :: StarAt(v, p))
       <==> HasInnerStar(v) || EndsWith(v, ".*") || "*." <= v || v == "*"
  {
    EndsWithTwo(v, '.', '*');
    assert "*." <= v <==> |v| >= 2 && v[0] == '*' && v[1] == '.';
    if p :| StarAt(v, p) {
      if 0 < p < |v| - 1 {
        assert v[p - 1] == '.' && v[p - 1 + 1] == '*' && v[p - 1 + 2] == '.';
      }
    }
    if HasInnerStar(v) {
      var i :| 0 <= i < |v| - 2 && v[i] == '.' && v[i + 1] == '*' && v[i + 2] == '.';
      assert StarAt(v, i + 1);
    }
    if EndsWith(v, ".*") {
      assert StarAt(v, |v| - 1);
    }
    if "*." <= v || v == "*" {
      assert StarAt(v, 0);
    }
  }

  /** `subjectHasWildcards` holds if and only if some token is `*` or the last one is `>`. */
  lemma WildcardsExactly(v: string)
    ensures HasWildcards(v) <==> "*" in Split(v, '.') || Last(Split(v, '.')) == ">"
  {
    StarToken(v);
    StarForms(v);
    LastGreater(v);
  }

  function StarCount(tokens: seq<string>): nat {
    if tokens == [] then 0
    else StarCount(tokens[..|tokens| - 1]) + (if tokens[|tokens| - 1] == "*" then 1 else 0)
  }

  lemma {:induction false} StarCountExactly(tokens: seq<string>)
    ensures StarCount(tokens) == multiset(tokens)["*"]
  {
    if tokens != [] {
      var n := |tokens| - 1;
      StarCountExactly(tokens[..n]);
      assert tokens == tokens[..n] + [tokens[n]];
    }
  }

  /** `countTokenWildcards`: the shortcut and the loop count the `*` tokens. */
  method CountTokenWildcards(v: string) returns (count: nat)
    ensures count == StarCount(Split(v, '.')) == multiset(Split(v, '.'))["*"]
  {
    var tokens := SplitOn(v, '.');
    StarCountExactly(tokens);
    if v == "*" {
      SplitCons(v, '.', "");
      assert tokens[..0] == [];
      return 1;
    }
    count := 0;
    for i := 0 to |tokens|
      invariant count == StarCount(tokens[..i])
    {
      assert tokens[..i + 1][..i] == tokens[..i];
      if tokens[i] == "*" {
        count := count + 1;
      }
    }
    assert tokens[..|tokens|] == tokens;
  }

  // ---------------- cleanSubject ----------------

  predicate IsWildcard(token: string) {
    token == "*" || token == ">"
  }

  function FirstWildcard(tokens: seq<string>): (i: nat)
    ensures i <= |tokens|
    ensures forall k :: 0 <= k < i ==> !IsWildcard(tokens[k])
    ensures i < |tokens| ==> IsWildcard(tokens[i])
  {
    if tokens == [] || IsWildcard(tokens[0]) then 0 else FirstWildcard(tokens[1..]) + 1
  }

  /** The tokens before the first wildcard one, joined; `_` when there are none. */
  function Cleaned(v: string): string {
    var tokens := Split(v, '.');
    var i := FirstWildcard(tokens);
    if i == 0 then "_" else Join(tokens[..i], '.')
  }

  /** Token `index` begins at `pos`. */
  ghost predicate At(s: string, pos: nat, tokens: seq<string>, index: nat) {
    pos <= |s| && index < |tokens| && Split(s[pos..], '.') == tokens[index..]
  }

  /** `cleanSubject` of src/jwt_utils.cpp: one scan, no token list. */
  method CleanSubject(subject: string) returns (r: string)
    ensures r == Cleaned(subject)
  {
    ghost var tokens := Split(subject, '.');
    var pos, index := 0, 0;
    assert subject[0..] == subject && tokens[0..] == tokens;
    while pos <= |subject|
      invariant At(subject, pos, tokens, index)
      invariant forall k :: 0 <= k < index ==> !IsWildcard(tokens[k])
      decreases |subject| - pos
    {
      var next := Find(subject, '.', pos);
      var token := subject[pos..next];
      NextToken(subject, pos, next, tokens, index);
      if IsWildcard(token) {
        CutAt(subject, tokens, index, pos);
        if index == 0 {
          return "_";
        }
        return subject[..pos - 1];
      }
      if next == |subject| {
        break;
      }
      pos := next + 1;
      index := index + 1;
    }
    NoWildcard(subject, tokens);
    r := subject;
  }

  lemma NoWildcard(subject: string, tokens: seq<string>)
    requires tokens == Split(subject, '.')
    requires forall k :: 0 <= k < |tokens| ==> !IsWildcard(tokens[k])
    ensures Cleaned(subject) == subject
  {
    JoinSplit(subject, '.');
    assert tokens[..|tokens|] == tokens;
  }

  /** The token between two dots, and what follows it. */
  lemma NextToken(s: string, pos: nat, next: nat, tokens: seq<string>, index: nat)
    requires At(s, pos, tokens, index) && next == Find(s, '.', pos)
    ensures tokens[index] == s[pos..next]
    ensures next == |s| ==> index == |tokens| - 1
    ensures next < |s| ==> At(s, next + 1, tokens, index + 1)
  {
    SplitFrom(s, '.', pos, next);
    if next < |s| {
      DropHead(tokens[index..], s[pos..next], Split(s[next + 1..], '.'));
      assert tokens[index..][1..] == tokens[index + 1..];
    }
    assert tokens[index..][0] == tokens[index];
  }

  lemma DropHead(all: seq<string>, head: string, rest: seq<string>)
    requires all == [head] + rest
    ensures all[0] == head && all[1..] == rest
  {
  }

  lemma CutAt(subject: string, tokens: seq<string>, index: nat, pos: nat)
    requires tokens == Split(subject, '.') && At(subject, pos, tokens, index)
    requires forall k :: 0 <= k < index ==> !IsWildcard(tokens[k])
    requires IsWildcard(tokens[index])
    ensures FirstWildcard(tokens) == index
    ensures index > 0 ==> pos > 0 && subject[..pos - 1] == Join(tokens[..index], '.')
  {
    if index > 0 {
      JoinSplit(subject, '.');
      JoinSplit(subject[pos..], '.');
      JoinPrefix(tokens, index, '.');
    }
  }

  /** The tokens of a cleaned subject. */
  lemma CleanedTokens(v: string)
    ensures var tokens := Split(v, '.');
      var i := FirstWildcard(tokens);
      Split(Cleaned(v), '.') == if i == 0 then ["_"] else tokens[..i]
  {
    var tokens := Split(v, '.');
    var i := FirstWildcard(tokens);
    JoinSplit(v, '.');
    if i == 0 {
      SplitCons("_", '.', "");
    } else {
      SplitJoin(tokens[..i], '.');
    }
  }

  /** A cleaned subject has no wildcard token, and cleaning it again changes nothing. */
  lemma CleanedTwice(v: string)
    ensures forall t :: t in Split(Cleaned(v), '.') ==> !IsWildcard(t)
    ensures Cleaned(Cleaned(v)) == Cleaned(v)
  {
    CleanedTokens(v);
    NoWildcard(Cleaned(v), Split(Cleaned(v), '.'));
  }

  /** A subject without wildcard tokens is not changed. */
  lemma CleanedUnchanged(v: string)
    ensures Cleaned(v) == v <==> v == "_" || forall t :: t in Split(v, '.') ==> !IsWildcard(t)
  {
    var tokens := Split(v, '.');
    JoinSplit(v, '.');
    CleanedTwice(v);
    if forall t :: t in tokens ==> !IsWildcard(t) {
      assert FirstWildcard(tokens) == |tokens|;
      assert tokens[..|tokens|] == tokens;
    }
  }

  /** What is kept are the tokens before the first `*` or `>`. */
  lemma CleanedExactly(v: string, tokens: seq<string>, i: nat)
    requires tokens == Split(v, '.') && i <= |tokens|
    requires forall k :: 0 <= k < i ==> tokens[k] != "*" && tokens[k] != ">"
    requires i < |tokens| ==> tokens[i] == "*" || tokens[i] == ">"
    ensures Split(Cleaned(v), '.') == if i == 0 then ["_"] else tokens[..i]
  {
    CleanedTokens(v);
    assert FirstWildcard(tokens) == i;
  }
}
