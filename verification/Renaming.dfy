/** Renaming subjects: `$N` refers to the N-th `*` of the subject that is renamed
(`validateRenamingSubject` and `renamingToSubject` of src/subject_utils.hpp). */
module Renaming {
  import opened Tokens
  import opened Findings
  import opened Subjects

  predicate IsDigits(s: string) {
    s != "" && forall i :: 0 <= i < |s| ==> '0' <= s[i] <= '9'
  }

  /** `std::stoi` on a digit string, without its limit. */
  function NumberOf(digits: string): nat
    requires forall i :: 0 <= i < |digits| ==> '0' <= digits[i] <= '9'
  {
    if digits == "" then 0
    else 10 * NumberOf(digits[..|digits| - 1]) + (digits[|digits| - 1] as int - '0' as int)
  }

  predicate IsReference(t: string) {
    |t| > 1 && t[0] == '$' && IsDigits(t[1..])
  }

  function Referenced(t: string): nat
    requires IsReference(t)
  {
    NumberOf(t[1..])
  }

  /** The decimal digits of a number, without leading zeros. */
  function Decimal(n: nat): (s: string)
    ensures s != ""
  {
    (if n < 10 then "" else Decimal(n / 10)) + [('0' as int + n % 10) as char]
  }

  function ZeroDigits(n: nat): (s: string)
    ensures |s| == n
  {
    seq(n, _ => '0')
  }

  lemma {:induction false} DecimalDigits(n: nat)
    ensures IsDigits(Decimal(n))
  {
    if n >= 10 {
      DecimalDigits(n / 10);
    }
  }

  lemma NumberNext(s: string, c: char)
    requires forall i :: 0 <= i < |s| ==> '0' <= s[i] <= '9'
    requires '0' <= c <= '9'
    ensures NumberOf(s + [c]) == 10 * NumberOf(s) + (c as int - '0' as int)
  {
    assert (s + [c])[..|s|] == s;
  }

  lemma {:induction false} ZerosNumber(z: nat)
    ensures NumberOf(ZeroDigits(z)) == 0
  {
    if z > 0 {
      ZerosNumber(z - 1);
      NumberNext(ZeroDigits(z - 1), '0');
      assert ZeroDigits(z) == ZeroDigits(z - 1) + ['0'];
    }
  }

  /** Leading zeros and the decimal digits of `n` are read as `n`. */
  lemma {:induction false} NumberOfDecimal(z: nat, n: nat)
    ensures IsDigits(ZeroDigits(z) + Decimal(n)) && NumberOf(ZeroDigits(z) + Decimal(n)) == n
  {
    DecimalDigits(n);
    var c := ('0' as int + n % 10) as char;
    if n < 10 {
      ZerosNumber(z);
      NumberNext(ZeroDigits(z), c);
      assert Decimal(n) == [c];
    } else {
      NumberOfDecimal(z, n / 10);
      NumberNext(ZeroDigits(z) + Decimal(n / 10), c);
      assert ZeroDigits(z) + Decimal(n) == ZeroDigits(z) + Decimal(n / 10) + [c];
    }
  }

  /** Digits are leading zeros and the decimal digits of their number. */
  lemma {:induction false} DigitsAreDecimal(s: string) returns (z: nat)
    requires IsDigits(s)
    ensures s == ZeroDigits(z) + Decimal(NumberOf(s))
  {
    var init, c := s[..|s| - 1], s[|s| - 1];
    var d, n := c as int - '0' as int, NumberOf(s);
    assert s == init + [c];
    if init == "" {
      z := 0;
      assert NumberOf(init) == 0 && n == d && Decimal(d) == [c];
    } else {
      z := DigitsAreDecimal(init);
      if NumberOf(init) == 0 {
        assert Decimal(0) == "0" && n == d && Decimal(d) == [c];
        assert ZeroDigits(z) + "0" == ZeroDigits(z + 1);
        z := z + 1;
      } else {
        assert n / 10 == NumberOf(init) && n % 10 == d;
        assert Decimal(n) == Decimal(NumberOf(init)) + [c];
      }
    }
  }

  /** A token refers to number `n` if and only if it is a `$`, any number of zeros, and the decimal
      digits of `n`. */
  lemma ReferenceExactly(t: string, n: nat)
    ensures IsReference(t) && Referenced(t) == n <==> exists z: nat :: t == "$" + ZeroDigits(z) + Decimal(n)
  {
    if IsReference(t) && Referenced(t) == n {
      var z := DigitsAreDecimal(t[1..]);
      assert t == "$" + (ZeroDigits(z) + Decimal(n)) == "$" + ZeroDigits(z) + Decimal(n);
    }
    if z: nat :| t == "$" + ZeroDigits(z) + Decimal(n) {
      NumberOfDecimal(z, n);
      assert t[1..] == ZeroDigits(z) + Decimal(n);
    }
  }

  // ---------------- renamingToSubject ----------------

  function Plain(t: string): string {
    if IsReference(t) then "*" else t
  }

  function Renamed(tokens: seq<string>): (r: seq<string>)
    ensures |r| == |tokens|
    ensures forall i :: 0 <= i < |tokens| ==> r[i] == Plain(tokens[i])
  {
    seq(|tokens|, i requires 0 <= i < |tokens| => Plain(tokens[i]))
  }

  function ToSubject(s: string): string {
    Join(Renamed(Split(s, '.')), '.')
  }

  /** Without a `$` there is nothing to rename: the shortcut of the source. */
  lemma NothingToRename(s: string)
    requires '$' !in s
    ensures ToSubject(s) == s
  {
    var tokens := Split(s, '.');
    JoinSplit(s, '.');
    forall i | 0 <= i < |tokens|
      ensures Plain(tokens[i]) == tokens[i]
    {
      TokenChars(tokens, '.', i);
      assert tokens[i] != "" ==> tokens[i][0] in tokens[i];
    }
    assert Renamed(tokens) == tokens;
  }

  lemma {:induction false} TokenChars(tokens: seq<string>, sep: char, i: nat)
    requires i < |tokens|
    ensures forall c :: c in tokens[i] ==> c in Join(tokens, sep)
  {
    if i > 0 {
      TokenChars(tokens[1..], sep, i - 1);
    }
  }

  method RenamingToSubject(s: string) returns (out: string)
    ensures out == ToSubject(s)
  {
    if '$' !in s {
      NothingToRename(s);
      return s;
    }
    out := "";
    var tokens := SplitOn(s, '.');
    ghost var renamed := Renamed(tokens);
    for i := 0 to |tokens|
      invariant out == Join(renamed[..i], '.')
    {
      var tk := tokens[i];
      var convert := IsReference(tk);
      JoinSnoc(renamed[..i], renamed[i], '.');
      assert renamed[..i + 1] == renamed[..i] + [renamed[i]];
      if i > 0 {
        out := out + ".";
      }
      out := out + if convert then "*" else tk;
    }
    assert renamed[..|tokens|] == renamed;
  }

  lemma JoinSnoc(tokens: seq<string>, t: string, sep: char)
    ensures Join(tokens + [t], sep) == (if tokens == [] then "" else Join(tokens, sep) + [sep]) + t
  {
    if tokens != [] {
      JoinPrefix(tokens + [t], |tokens|, sep);
      assert (tokens + [t])[..|tokens|] == tokens && (tokens + [t])[|tokens|..] == [t];
    }
  }

  /** The tokens of the renamed subject. */
  lemma ToSubjectTokens(s: string)
    ensures Split(ToSubject(s), '.') == Renamed(Split(s, '.'))
  {
    JoinSplit(s, '.');
    SplitJoin(Renamed(Split(s, '.')), '.');
  }

  // ---------------- validateRenamingSubject ----------------

  /** References to a `*` that the renamed subject does not have. */
  function BadReferences(tokens: seq<string>, stars: nat): seq<Finding> {
    if tokens == [] then []
    else
      var n := |tokens| - 1;
      BadReferences(tokens[..n], stars)
      + if IsReference(tokens[n]) && Referenced(tokens[n]) > stars
        then [BadReference(Referenced(tokens[n]))] else []
  }

  /** `*` tokens and good references. */
  function GoodReferences(tokens: seq<string>, stars: nat): nat {
    if tokens == [] then 0
    else
      var n := |tokens| - 1;
      GoodReferences(tokens[..n], stars)
      + if tokens[n] == "*" || (IsReference(tokens[n]) && Referenced(tokens[n]) <= stars) then 1 else 0
  }

  /** What `validateRenamingSubject` reports, in its order. */
  function RenamingFindings(s: string, from: string): seq<Finding> {
    var tokens, stars := Split(s, '.'), StarCount(Split(from, '.'));
    SubjectFindings(s)
    + (if from == "" then [SubjectEmpty] else [])
    + (if ' ' in s then [SubjectHasSpaces] else [])
    + (if GreaterText(s) != GreaterText(from) then [SuffixMismatch] else [])
    + BadReferences(tokens, stars)
    + (if GoodReferences(tokens, stars) != stars then [WildcardCountMismatch] else [])
  }

  /** The loop over the tokens: reports bad references and counts good ones and `*`. */
  method CountReferences(tokens: seq<string>, fromCnt: nat, vr: ValidationResults)
    returns (refCnt: nat)
    modifies vr
    ensures vr.issues == old(vr.issues) + Errors(BadReferences(tokens, fromCnt))
    ensures refCnt == GoodReferences(tokens, fromCnt)
  {
    refCnt := 0;
    for i := 0 to |tokens|
      invariant refCnt == GoodReferences(tokens[..i], fromCnt)
      invariant vr.issues == old(vr.issues) + Errors(BadReferences(tokens[..i], fromCnt))
    {
      var tk := tokens[i];
      assert tokens[..i + 1][..i] == tokens[..i];
      if tk == "*" {
        refCnt := refCnt + 1;
      }
      if |tk| < 2 {
        continue;
      }
      if tk[0] == '$' && IsDigits(tk[1..]) {
        var idx := NumberOf(tk[1..]);
        if idx > fromCnt {
          ErrorsConcat(BadReferences(tokens[..i], fromCnt), [BadReference(idx)]);
          vr.AddError(BadReference(idx));
        } else {
          refCnt := refCnt + 1;
        }
      }
    }
    assert tokens[..|tokens|] == tokens;
  }

  method ValidateRenamingSubject(s: string, from: string, vr: ValidationResults)
    modifies vr
    ensures vr.issues == old(vr.issues) + Errors(RenamingFindings(s, from))
  {
    ghost var before, found := vr.issues, SubjectFindings(s);
    ValidateSubject(s, vr);
    found := AddErrorIf(from == "", SubjectEmpty, vr, before, found);
    found := AddErrorIf(' ' in s, SubjectHasSpaces, vr, before, found);
    found := AddErrorIf(GreaterText(s) != GreaterText(from), SuffixMismatch, vr, before, found);
    var fromCnt := CountTokenWildcards(from);
    var tokens := SplitOn(s, '.');
    var refCnt := CountReferences(tokens, fromCnt, vr);
    Accumulate(before, found, BadReferences(tokens, fromCnt));
    found := found + BadReferences(tokens, fromCnt);
    found := AddErrorIf(refCnt != fromCnt, WildcardCountMismatch, vr, before, found);
  }

  // ---------------- what an accepted renaming guarantees ----------------

  lemma {:induction false} BadReferencesExactly(tokens: seq<string>, stars: nat)
    ensures BadReferences(tokens, stars) == []
       <==> forall i :: 0 <= i < |tokens| && IsReference(tokens[i]) ==> Referenced(tokens[i]) <= stars
  {
    if tokens != [] {
      var n := |tokens| - 1;
      BadReferencesExactly(tokens[..n], stars);
      assert forall i :: 0 <= i < n ==> tokens[..n][i] == tokens[i];
    }
  }

  /** When no reference is bad, the good ones and the `*` are the `*` of the renamed subject. */
  lemma {:induction false} GoodReferencesRenamed(tokens: seq<string>, stars: nat)
    requires BadReferences(tokens, stars) == []
    ensures GoodReferences(tokens, stars) == StarCount(Renamed(tokens))
  {
    if tokens != [] {
      var n := |tokens| - 1;
      GoodReferencesRenamed(tokens[..n], stars);
      assert Renamed(tokens)[..n] == Renamed(tokens[..n]);
    }
  }

  lemma LastRenamed(tokens: seq<string>)
    requires tokens != []
    ensures Last(Renamed(tokens)) == ">" <==> Last(tokens) == ">"
  {
  }

  /** A renaming is accepted exactly when the subject is valid, refers only to `*` tokens that
      exist, and its plain form has as many `*` as the renamed subject and ends in `>` as it. */
  lemma RenamingExactly(s: string, from: string)
    ensures RenamingFindings(s, from) == [] <==>
      && ValidTokens(Split(s, '.'))
      && from != ""
      && (forall i :: 0 <= i < |Split(s, '.')| && IsReference(Split(s, '.')[i]) ==>
            Referenced(Split(s, '.')[i]) <= StarCount(Split(from, '.')))
      && StarCount(Split(ToSubject(s), '.')) == StarCount(Split(from, '.'))
      && (Last(Split(ToSubject(s), '.')) == ">" <==> Last(Split(from, '.')) == ">")
  {
    var tokens, stars := Split(s, '.'), StarCount(Split(from, '.'));
    SubjectFindingsExactly(s);
    LastGreater(s);
    LastGreater(from);
    ToSubjectTokens(s);
    LastRenamed(tokens);
    BadReferencesExactly(tokens, stars);
    if BadReferences(tokens, stars) == [] {
      GoodReferencesRenamed(tokens, stars);
    }
    FindingsParts(s, from);
  }

  lemma FindingsParts(s: string, from: string)
    ensures RenamingFindings(s, from) == [] <==>
      && SubjectFindings(s) == []
      && from != ""
      && GreaterText(s) == GreaterText(from)
      && BadReferences(Split(s, '.'), StarCount(Split(from, '.'))) == []
      && GoodReferences(Split(s, '.'), StarCount(Split(from, '.'))) == StarCount(Split(from, '.'))
  {
  }

  // ---------------- which `*` an accepted renaming refers to ----------------

  /** The numbers of the references among the tokens, in order. */
  function References(tokens: seq<string>): seq<nat> {
    if tokens == [] then []
    else
      var n := |tokens| - 1;
      References(tokens[..n]) + if IsReference(tokens[n]) then [Referenced(tokens[n])] else []
  }

  lemma {:induction false} ReferencesExactly(tokens: seq<string>, n: nat)
    ensures n in References(tokens)
       <==> exists i :: 0 <= i < |tokens| && IsReference(tokens[i]) && Referenced(tokens[i]) == n
  {
    if tokens != [] {
      var last := |tokens| - 1;
      ReferencesExactly(tokens[..last], n);
      assert forall i :: 0 <= i < last ==> tokens[..last][i] == tokens[i];
    }
  }

  /** The `*` of the renamed subject are the references and the `*` there were. */
  lemma {:induction false} ReferenceCount(tokens: seq<string>)
    ensures |References(tokens)| + StarCount(tokens) == StarCount(Renamed(tokens))
  {
    if tokens != [] {
      var n := |tokens| - 1;
      ReferenceCount(tokens[..n]);
      assert Renamed(tokens)[..n] == Renamed(tokens[..n]);
    }
  }

  lemma {:induction false} NoStarsExactly(tokens: seq<string>)
    ensures StarCount(tokens) == 0 <==> "*" !in tokens
  {
    if tokens != [] {
      var n := |tokens| - 1;
      NoStarsExactly(tokens[..n]);
      assert tokens == tokens[..n] + [tokens[n]];
    }
  }

  lemma AcceptedReference(s: string, from: string, n: nat)
    requires RenamingFindings(s, from) == [] && n in References(Split(s, '.'))
    ensures n <= StarCount(Split(from, '.'))
  {
    RenamingExactly(s, from);
    ReferencesExactly(Split(s, '.'), n);
  }

  /** In an accepted renaming every reference names a `*` that exists if and only if none is `$0`. */
  lemma ReferencesNameExactly(s: string, from: string)
    requires RenamingFindings(s, from) == []
    ensures (forall n :: n in References(Split(s, '.')) ==> 1 <= n <= StarCount(Split(from, '.')))
       <==> 0 !in References(Split(s, '.'))
  {
    var refs := References(Split(s, '.'));
    forall n | n in refs
      ensures n <= StarCount(Split(from, '.'))
    {
      AcceptedReference(s, from, n);
    }
  }

  predicate Distinct(ns: seq<nat>) {
    forall i, j :: 0 <= i < j < |ns| ==> ns[i] != ns[j]
  }

  /** Every `*` of a subject with `stars` of them is referred to exactly once. */
  ghost predicate EachOnce(ns: seq<nat>, stars: nat) {
    forall n :: 1 <= n <= stars ==> multiset(ns)[n] == 1
  }

  /** An accepted renaming refers to each `*` exactly once if and only if it has no `*` of its own, its
      references are distinct and none is `$0`: the source counts references, it does not tell them
      apart. */
  lemma EachOnceExactly(s: string, from: string)
    requires RenamingFindings(s, from) == []
    ensures var refs := References(Split(s, '.'));
      EachOnce(refs, StarCount(Split(from, '.'))) <==> "*" !in Split(s, '.') && Distinct(refs) && 0 !in refs
  {
    var refs, stars := References(Split(s, '.')), StarCount(Split(from, '.'));
    RenamingExactly(s, from);
    ToSubjectTokens(s);
    ReferenceCount(Split(s, '.'));
    NoStarsExactly(Split(s, '.'));
    forall n | n in refs
      ensures n <= stars
    {
      AcceptedReference(s, from, n);
    }
    OnceExactly(refs, stars);
  }

  /** No more numbers than there are places cover each place once if and only if they are as many,
      distinct, and none is 0. */
  lemma OnceExactly(ns: seq<nat>, stars: nat)
    requires |ns| <= stars && forall n :: n in ns ==> n <= stars
    ensures EachOnce(ns, stars) <==> |ns| == stars && Distinct(ns) && 0 !in ns
  {
    if EachOnce(ns, stars) {
      OnceDistinct(ns, stars);
    }
    if |ns| == stars && Distinct(ns) && 0 !in ns {
      DistinctCovers(ns, stars);
    }
  }

  lemma OnceDistinct(ns: seq<nat>, stars: nat)
    requires |ns| <= stars && EachOnce(ns, stars)
    ensures |ns| == stars && Distinct(ns) && 0 !in ns
  {
    forall n | n in Places(stars)
      ensures n in Elements(ns)
    {
      assert multiset(ns)[n] == 1;
      assert n in multiset(ns);
    }
    ElementCount(ns);
    SubsetSize(Places(stars), Elements(ns));
  }

  lemma DistinctCovers(ns: seq<nat>, stars: nat)
    requires |ns| == stars && Distinct(ns) && 0 !in ns && forall n :: n in ns ==> n <= stars
    ensures EachOnce(ns, stars)
  {
    ElementCount(ns);
    SubsetSize(Elements(ns), Places(stars));
    forall n | 1 <= n <= stars
      ensures multiset(ns)[n] == 1
    {
      assert n in Places(stars);
      DistinctOnce(ns, n);
    }
  }

  function Elements(ns: seq<nat>): (all: set<nat>)
    ensures forall n :: n in all <==> n in ns
  {
    set n | n in ns
  }

  function Places(stars: nat): (places: set<nat>)
    ensures |places| == stars
    ensures forall n :: n in places <==> 1 <= n <= stars
  {
    if stars == 0 then {} else Places(stars - 1) + {stars}
  }

  /** A subset that is no smaller is the whole. */
  lemma SubsetSize(a: set<nat>, b: set<nat>)
    requires a <= b && |b| <= |a|
    ensures a == b
  {
    assert |b - a| == |b| - |a|;
  }

  lemma {:induction false} ElementCount(ns: seq<nat>)
    ensures |Elements(ns)| <= |ns|
    ensures |Elements(ns)| == |ns| <==> Distinct(ns)
  {
    if ns != [] {
      var init, last := ns[..|ns| - 1], ns[|ns| - 1];
      ElementCount(init);
      assert ns == init + [last];
      assert Elements(ns) == Elements(init) + {last};
      DistinctNext(init, last);
    }
  }

  lemma DistinctNext(init: seq<nat>, last: nat)
    ensures Distinct(init + [last]) <==> Distinct(init) && last !in init
  {
    var ns := init + [last];
    assert forall i :: 0 <= i < |init| ==> ns[i] == init[i];
    assert ns[|init|] == last;
  }

  lemma {:induction false} DistinctOnce(ns: seq<nat>, n: nat)
    requires Distinct(ns) && n in ns
    ensures multiset(ns)[n] == 1
  {
    var init, last := ns[..|ns| - 1], ns[|ns| - 1];
    assert ns == init + [last];
    DistinctNext(init, last);
    if n in init {
      DistinctOnce(init, n);
    } else {
      assert n !in multiset(init);
    }
  }

  lemma ZeroToken()
    ensures IsReference("$0") && Referenced("$0") == 0
  {
    var digits := "$0"[1..];
    assert digits == "0" && digits[..0] == "";
    assert NumberOf("") == 0;
  }

  lemma ReferenceChars(t: string, c: char)
    requires IsReference(t) && (c == '.' || c == ' ' || c == '*' || c == '>')
    ensures c !in t
  {
    assert t == [t[0]] + t[1..];
  }

  /** For a subject of one `*`, every reference to no wildcard but the first is a renaming. */
  lemma OneReference(t: string)
    requires IsReference(t) && Referenced(t) <= 1
    ensures RenamingFindings(t, "*") == []
  {
    ReferenceChars(t, '.');
    ReferenceChars(t, ' ');
    SplitCons(t, '.', "");
    SplitCons("*", '.', "");
    ToSubjectTokens(t);
    assert Split(ToSubject(t), '.') == ["*"];
    OneStar();
    RenamingExactly(t, "*");
  }

  lemma OneStar()
    ensures StarCount(["*"]) == 1
  {
    assert ["*"][..0] == [];
  }

  /** `$0`, which names no `*`, is accepted where one reference is needed. */
  lemma ZeroReferenceAccepted()
    ensures RenamingFindings("$0", "*") == [] && References(Split("$0", '.')) == [0]
  {
    ZeroToken();
    OneReference("$0");
    SplitCons("$0", '.', "");
    var tokens := ["$0"];
    assert tokens[..0] == [];
  }

  lemma OneToken()
    ensures IsReference("$1") && Referenced("$1") == 1
  {
    var digits := "$1"[1..];
    assert digits == "1" && digits[..0] == "";
    assert NumberOf("") == 0;
  }

  lemma TwoTokens(t: string)
    requires '.' !in t
    ensures Split(t + "." + t, '.') == [t, t]
  {
    SplitCons(t, '.', t);
  }

  lemma TwoStars()
    ensures StarCount(["*", "*"]) == 2
  {
    var tokens := ["*", "*"];
    assert tokens[..1] == ["*"];
    OneStar();
  }

  lemma TwoReferences(t: string)
    requires IsReference(t)
    ensures References([t, t]) == [Referenced(t), Referenced(t)]
  {
    var tokens := [t, t];
    assert tokens[..1] == [t] && [t][..0] == [];
    assert References([t]) == [Referenced(t)];
  }

  /** Any existing reference may stand for both `*` of a subject that has two. */
  lemma OneReferenceTwice(t: string, s: string, from: string)
    requires IsReference(t) && Referenced(t) <= 2
    requires s == t + "." + t && from == "*" + "." + "*"
    ensures RenamingFindings(s, from) == []
    ensures References(Split(s, '.')) == [Referenced(t), Referenced(t)]
  {
    ReferenceChars(t, '.');
    ReferenceChars(t, ' ');
    TwoTokens(t);
    TwoTokens("*");
    TwoStars();
    ToSubjectTokens(s);
    assert Renamed([t, t]) == ["*", "*"];
    RenamingExactly(s, from);
    TwoReferences(t);
  }

  /** `$1.$1` is accepted for a subject of two `*`: the first is used twice, the second not at all. */
  lemma RepeatedReferenceAccepted(s: string, from: string)
    requires s == "$1.$1" && from == "*.*"
    ensures RenamingFindings(s, from) == []
    ensures References(Split(s, '.')) == [1, 1]
  {
    OneToken();
    OneReferenceTwice("$1", s, from);
  }
}
