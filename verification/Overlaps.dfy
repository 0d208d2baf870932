/** Overlap detection among exports and imports (`validateExportsImports` of
src/account_claims.cpp): the incremental passes against the comparison of all pairs. */
module Overlaps {
  import opened Types
  import opened Findings
  import opened Containment
  import opened Ordering
  import opened Tokens
  import opened ExportChecks
  import Renaming

  // ---------------- imports: service subjects of one account ----------------

  /** The subject an import occupies locally. */
  function Effective(i: Import): string {
    if i.to != "" then i.to
    else if Renaming.ToSubject(i.localSubject) != "" then Renaming.ToSubject(i.localSubject)
    else i.subject
  }

  /** A `$` followed by decimal digits. */
  predicate Dollar(t: string) {
    |t| >= 2 && t[0] == '$' && forall k :: 1 <= k < |t| ==> '0' <= t[k] <= '9'
  }

  /** `tokens` are those of the subject an import occupies: of `to` if there is one; else of the local
      subject, with `*` for every `$N`, if there is one; else of the imported subject. */
  predicate Occupies(i: Import, tokens: seq<string>) {
    if i.to != "" then tokens == Split(i.to, '.')
    else if i.localSubject != "" then
      var local := Split(i.localSubject, '.');
      |tokens| == |local| && forall k :: 0 <= k < |local| ==> tokens[k] == if Dollar(local[k]) then "*" else local[k]
    else tokens == Split(i.subject, '.')
  }

  lemma DollarIsReference(t: string)
    ensures Dollar(t) <==> Renaming.IsReference(t)
  {
    if Renaming.IsReference(t) {
      assert forall k :: 1 <= k < |t| ==> t[k] == t[1..][k - 1];
    }
  }

  lemma RenamedOccupies(i: Import)
    requires i.to == "" && i.localSubject != ""
    ensures Renaming.ToSubject(i.localSubject) != ""
    ensures Occupies(i, Split(Renaming.ToSubject(i.localSubject), '.'))
  {
    var local := Split(i.localSubject, '.');
    Renaming.ToSubjectTokens(i.localSubject);
    forall k | 0 <= k < |local|
      ensures Dollar(local[k]) <==> Renaming.IsReference(local[k])
    {
      DollarIsReference(local[k]);
    }
    if Renaming.ToSubject(i.localSubject) == "" {
      assert Renaming.Plain(local[0]) == "" && |local| == 1;
      JoinSplit(i.localSubject, '.');
    }
  }

  /** An import occupies exactly one subject. */
  lemma OccupiesExactly(i: Import, tokens: seq<string>)
    ensures Occupies(i, tokens) <==> tokens == Split(Effective(i), '.')
  {
    if i.to == "" && i.localSubject != "" {
      RenamedOccupies(i);
      var renamed := Split(Renaming.ToSubject(i.localSubject), '.');
      if Occupies(i, tokens) {
        assert tokens == renamed;
      }
    } else if i.to == "" {
      Renaming.NothingToRename("");
    }
  }

  predicate Overlap(a: string, b: string) {
    ContainedIn(a, b) || ContainedIn(b, a)
  }

  /** Two different imports are services of one account with overlapping subjects. */
  predicate OverlappingPair(imports: seq<Import>, i: nat, j: nat)
    requires i < |imports| && j < |imports|
  {
    && imports[i].kind.Service? && imports[j].kind.Service?
    && imports[i].account == imports[j].account
    && Overlap(Effective(imports[i]), Effective(imports[j]))
  }

  ghost predicate SomeOverlap(imports: seq<Import>, n: nat)
    requires n <= |imports|
  {
    exists i, j :: 0 <= i < j < n && OverlappingPair(imports, i, j)
  }

  /** The distinct subjects of the services among the first `n` imports of an account. */
  function Seen(imports: seq<Import>, n: nat, account: string): seq<string>
    requires n <= |imports|
  {
    if n == 0 then []
    else
      var before, i := Seen(imports, n - 1, account), imports[n - 1];
      if i.kind.Service? && i.account == account && Effective(i) !in before
      then before + [Effective(i)] else before
  }

  lemma {:induction false} SeenExactly(imports: seq<Import>, n: nat, account: string, subject: string)
    requires n <= |imports|
    ensures subject in Seen(imports, n, account)
       <==> exists i :: 0 <= i < n && IsService(imports, i, account, subject)
  {
    if n > 0 {
      SeenExactly(imports, n - 1, account, subject);
      assert subject in Seen(imports, n, account)
        <==> subject in Seen(imports, n - 1, account) || IsService(imports, n - 1, account, subject);
    }
  }

  predicate IsService(imports: seq<Import>, i: nat, account: string, subject: string)
    requires i < |imports|
  {
    imports[i].kind.Service? && imports[i].account == account && Effective(imports[i]) == subject
  }

  /** Overlaps of a subject with those already seen, in their order. */
  function OverlapsWith(sub: string, account: string, seen: seq<string>): seq<Finding> {
    if seen == [] then []
    else
      var n := |seen| - 1;
      OverlapsWith(sub, account, seen[..n])
      + if Overlap(sub, seen[n]) then [OverlappingImport(sub, seen[n], account)] else []
  }

  lemma {:induction false} OverlapsWithExactly(sub: string, account: string, seen: seq<string>)
    ensures OverlapsWith(sub, account, seen) == [] <==> forall t :: t in seen ==> !Overlap(sub, t)
  {
    if seen != [] {
      var n := |seen| - 1;
      OverlapsWithExactly(sub, account, seen[..n]);
      assert seen == seen[..n] + [seen[n]];
    }
  }

  /** What the pass over the first `n` imports reports. */
  function ImportFindings(imports: seq<Import>, n: nat): seq<Finding>
    requires n <= |imports|
  {
    if n == 0 then [] else ImportFindings(imports, n - 1) + NewFindings(imports, n - 1)
  }

  function NewFindings(imports: seq<Import>, n: nat): seq<Finding>
    requires n < |imports|
  {
    var i := imports[n];
    if i.kind.Service? then ServiceFindings(Effective(i), i.account, Seen(imports, n, i.account)) else []
  }

  /** What a service import adds, next to those seen before. */
  function ServiceFindings(sub: string, account: string, seen: seq<string>): seq<Finding> {
    OverlapsWith(sub, account, seen) + if sub in seen then [RepeatedImport(sub, account)] else []
  }

  /** The inner loop. */
  method CompareWithSeen(sub: string, account: string, seen: seq<string>, vr: ValidationResults)
    modifies vr
    ensures vr.issues == old(vr.issues) + Errors(OverlapsWith(sub, account, seen))
  {
    for k := 0 to |seen|
      invariant vr.issues == old(vr.issues) + Errors(OverlapsWith(sub, account, seen[..k]))
    {
      var other := seen[k];
      assert seen[..k + 1][..k] == seen[..k];
      var inOther := SubjectIsContainedIn(sub, other);
      var hasOther := SubjectIsContainedIn(other, sub);
      if inOther || hasOther {
        ErrorsConcat(OverlapsWith(sub, account, seen[..k]), [OverlappingImport(sub, other, account)]);
        vr.AddError(OverlappingImport(sub, other, account));
      }
    }
    assert seen[..|seen|] == seen;
  }

  function SeenIn(subsByAcct: map<string, seq<string>>, account: string): seq<string> {
    if account in subsByAcct then subsByAcct[account] else []
  }

  /** The map holds what was seen of every account. */
  ghost predicate SeenSoFar(imports: seq<Import>, n: nat, subsByAcct: map<string, seq<string>>)
    requires n <= |imports|
  {
    forall a :: SeenIn(subsByAcct, a) == Seen(imports, n, a)
  }

  method CheckService(sub: string, account: string, seen: seq<string>, vr: ValidationResults)
    returns (seenNow: seq<string>)
    modifies vr
    ensures vr.issues == old(vr.issues) + Errors(ServiceFindings(sub, account, seen))
    ensures seenNow == if sub in seen then seen else seen + [sub]
  {
    CompareWithSeen(sub, account, seen, vr);
    if sub in seen {
      Accumulate(old(vr.issues), OverlapsWith(sub, account, seen), [RepeatedImport(sub, account)]);
      vr.AddError(RepeatedImport(sub, account));
      return seen;
    }
    assert OverlapsWith(sub, account, seen) + [] == OverlapsWith(sub, account, seen);
    return seen + [sub];
  }

  /** One turn of the loop. */
  method CheckImport(imports: seq<Import>, n: nat, subsByAcct: map<string, seq<string>>, vr: ValidationResults)
    returns (seenNow: map<string, seq<string>>)
    requires n < |imports| && SeenSoFar(imports, n, subsByAcct)
    modifies vr
    ensures SeenSoFar(imports, n + 1, seenNow)
    ensures vr.issues == old(vr.issues) + Errors(NewFindings(imports, n))
  {
    var i := imports[n];
    if !i.kind.Service? {
      NotSeen(imports, n, subsByAcct);
      return subsByAcct;
    }
    var sub := i.to;
    if sub == "" {
      sub := Renaming.RenamingToSubject(i.localSubject);
    }
    if sub == "" {
      sub := i.subject;
    }
    var seen := CheckService(sub, i.account, SeenIn(subsByAcct, i.account), vr);
    SeenNext(imports, n, subsByAcct, seen);
    seenNow := subsByAcct[i.account := seen];
  }

  method CheckImports(imports: seq<Import>, vr: ValidationResults)
    modifies vr
    ensures vr.issues == old(vr.issues) + Errors(ImportFindings(imports, |imports|))
  {
    var subsByAcct: map<string, seq<string>> := map[];
    for n := 0 to |imports|
      invariant SeenSoFar(imports, n, subsByAcct)
      invariant vr.issues == old(vr.issues) + Errors(ImportFindings(imports, n))
    {
      Accumulate(old(vr.issues), ImportFindings(imports, n), NewFindings(imports, n));
      subsByAcct := CheckImport(imports, n, subsByAcct, vr);
    }
  }

  lemma SeenNext(imports: seq<Import>, n: nat, subsByAcct: map<string, seq<string>>, seenNow: seq<string>)
    requires n < |imports| && imports[n].kind.Service?
    requires SeenSoFar(imports, n, subsByAcct)
    requires var seen, sub := Seen(imports, n, imports[n].account), Effective(imports[n]);
      seenNow == if sub in seen then seen else seen + [sub]
    ensures SeenSoFar(imports, n + 1, subsByAcct[imports[n].account := seenNow])
  {
    var m := subsByAcct[imports[n].account := seenNow];
    forall a
      ensures SeenIn(m, a) == Seen(imports, n + 1, a)
    {
      assert SeenIn(subsByAcct, a) == Seen(imports, n, a);
    }
  }

  /** An import of another kind is not seen. */
  lemma NotSeen(imports: seq<Import>, n: nat, subsByAcct: map<string, seq<string>>)
    requires n < |imports| && !imports[n].kind.Service? && SeenSoFar(imports, n, subsByAcct)
    ensures SeenSoFar(imports, n + 1, subsByAcct)
  {
    forall a
      ensures SeenIn(subsByAcct, a) == Seen(imports, n + 1, a)
    {
      assert SeenIn(subsByAcct, a) == Seen(imports, n, a);
    }
  }

  /** Import `n` overlaps an earlier one. */
  ghost predicate OverlapsEarlier(imports: seq<Import>, n: nat)
    requires n < |imports|
  {
    exists k :: 0 <= k < n && OverlappingPair(imports, k, n)
  }

  /** Import `n` overlaps a subject seen before it if and only if it overlaps an earlier import. */
  lemma SeenOverlap(imports: seq<Import>, n: nat)
    requires n < |imports|
    ensures var seen := Seen(imports, n, imports[n].account);
      imports[n].kind.Service? && (exists t :: t in seen && Overlap(Effective(imports[n]), t))
      <==> OverlapsEarlier(imports, n)
  {
    var account, seen := imports[n].account, Seen(imports, n, imports[n].account);
    if t :| imports[n].kind.Service? && t in seen && Overlap(Effective(imports[n]), t) {
      SeenExactly(imports, n, account, t);
      var k :| 0 <= k < n && IsService(imports, k, account, t);
      assert OverlappingPair(imports, k, n);
    }
    if k :| 0 <= k < n && OverlappingPair(imports, k, n) {
      SeenExactly(imports, n, account, Effective(imports[k]));
      assert IsService(imports, k, account, Effective(imports[k]));
    }
  }

  lemma SomeOverlapNext(imports: seq<Import>, n: nat)
    requires n < |imports|
    ensures SomeOverlap(imports, n + 1)
       <==> (SomeOverlap(imports, n) || OverlapsEarlier(imports, n))
  {
  }

  /** Import `n` adds to the report if and only if it overlaps an earlier one. */
  lemma NextFindings(imports: seq<Import>, n: nat)
    requires n < |imports|
    ensures ImportFindings(imports, n + 1) != []
       <==> (ImportFindings(imports, n) != [] || OverlapsEarlier(imports, n))
  {
    var i := imports[n];
    ServiceFindingsExactly(Effective(i), i.account, Seen(imports, n, i.account));
    SeenOverlap(imports, n);
  }

  lemma ServiceFindingsExactly(sub: string, account: string, seen: seq<string>)
    ensures ServiceFindings(sub, account, seen) != [] <==> exists t :: t in seen && Overlap(sub, t)
  {
    OverlapsWithExactly(sub, account, seen);
    ContainedReflexive(sub);
  }

  /** What a subject is reported for, next to another one of the same account. */
  predicate SubjectReports(sub: string, other: string, account: string, f: Finding) {
    || (Overlap(sub, other) && f == OverlappingImport(sub, other, account))
    || (sub == other && f == RepeatedImport(sub, account))
  }

  predicate PairReports(i: Import, j: Import, f: Finding) {
    SameSource(i, j) && SubjectReports(Effective(j), Effective(i), j.account, f)
  }

  /** Import `j` is reported for `f`, because of an earlier import. */
  ghost predicate ImportReports(imports: seq<Import>, j: nat, f: Finding)
    requires j < |imports|
  {
    exists k :: 0 <= k < j && PairReports(imports[k], imports[j], f)
  }

  ghost predicate SomeReports(imports: seq<Import>, n: nat, f: Finding)
    requires n <= |imports|
  {
    exists j :: 0 <= j < n && ImportReports(imports, j, f)
  }

  lemma {:induction false} OverlapsWithContents(sub: string, account: string, seen: seq<string>, f: Finding)
    ensures f in OverlapsWith(sub, account, seen) <==>
      exists t :: t in seen && Overlap(sub, t) && f == OverlappingImport(sub, t, account)
  {
    if seen != [] {
      var n := |seen| - 1;
      OverlapsWithContents(sub, account, seen[..n], f);
      assert seen == seen[..n] + [seen[n]];
    }
  }

  lemma ServiceFindingsContents(sub: string, account: string, seen: seq<string>, f: Finding)
    ensures f in ServiceFindings(sub, account, seen) <==> exists t :: t in seen && SubjectReports(sub, t, account, f)
  {
    OverlapsWithContents(sub, account, seen, f);
  }

  lemma NewFindingsContents(imports: seq<Import>, j: nat, f: Finding)
    requires j < |imports|
    ensures f in NewFindings(imports, j) <==> ImportReports(imports, j, f)
  {
    var account, sub := imports[j].account, Effective(imports[j]);
    var seen := Seen(imports, j, account);
    ServiceFindingsContents(sub, account, seen, f);
    if t :| imports[j].kind.Service? && t in seen && SubjectReports(sub, t, account, f) {
      SeenExactly(imports, j, account, t);
      var k :| 0 <= k < j && IsService(imports, k, account, t);
      assert PairReports(imports[k], imports[j], f);
    }
    if k :| 0 <= k < j && PairReports(imports[k], imports[j], f) {
      SeenExactly(imports, j, account, Effective(imports[k]));
      assert IsService(imports, k, account, Effective(imports[k]));
    }
  }

  lemma SomeReportsNext(imports: seq<Import>, n: nat, f: Finding)
    requires n < |imports|
    ensures SomeReports(imports, n + 1, f) <==> SomeReports(imports, n, f) || ImportReports(imports, n, f)
  {
  }

  predicate Found(imports: seq<Import>, n: nat, f: Finding)
    requires n <= |imports|
  {
    f in ImportFindings(imports, n)
  }

  lemma FoundNext(imports: seq<Import>, n: nat, f: Finding)
    requires n < |imports|
    ensures Found(imports, n + 1, f) <==> Found(imports, n, f) || ImportReports(imports, n, f)
  {
    NewFindingsContents(imports, n, f);
  }

  lemma NextContents(imports: seq<Import>, n: nat, f: Finding)
    requires n < |imports|
    requires Found(imports, n, f) <==> SomeReports(imports, n, f)
    ensures Found(imports, n + 1, f) <==> SomeReports(imports, n + 1, f)
  {
    FoundNext(imports, n, f);
    SomeReportsNext(imports, n, f);
  }

  /** What is reported: every pair of services of one account with nested subjects, and every subject
      that is occupied again. */
  lemma {:induction false} ImportFindingsContents(imports: seq<Import>, n: nat, f: Finding)
    requires n <= |imports|
    ensures Found(imports, n, f) <==> SomeReports(imports, n, f)
  {
    if n > 0 {
      ImportFindingsContents(imports, n - 1, f);
      NextContents(imports, n - 1, f);
    }
  }

  /** Something was reported of the first `n` imports. */
  predicate Noticed(imports: seq<Import>, n: nat)
    requires n <= |imports|
  {
    ImportFindings(imports, n) != []
  }

  lemma NoticedNext(imports: seq<Import>, n: nat)
    requires n < |imports|
    requires Noticed(imports, n) <==> SomeOverlap(imports, n)
    ensures Noticed(imports, n + 1) <==> SomeOverlap(imports, n + 1)
  {
    NextFindings(imports, n);
    SomeOverlapNext(imports, n);
  }

  /** The pass over the imports reports an overlap if and only if some pair overlaps. */
  lemma {:induction false} ImportFindingsExactly(imports: seq<Import>, n: nat)
    requires n <= |imports|
    ensures Noticed(imports, n) <==> SomeOverlap(imports, n)
  {
    if n > 0 {
      ImportFindingsExactly(imports, n - 1);
      NoticedNext(imports, n - 1);
    }
  }

  // ---------------- exports: subjects that contain another one ----------------

  /** The subject at position `i` makes the pass report `k`: another position holds `k`, and `k`
      contains the subject. */
  ghost predicate Reports(subs: seq<string>, i: nat, k: string)
    requires i < |subs|
  {
    exists j :: 0 <= j < |subs| && j != i && subs[j] == k && ContainedIn(subs[i], subs[j])
  }

  /** The map after position `j` of the inner loop. */
  function Row(subs: seq<string>, i: nat, j: nat, m: map<string, string>): map<string, string>
    requires i < |subs| && j <= |subs|
  {
    if j == 0 then m
    else
      var before, k := Row(subs, i, j - 1, m), subs[j - 1];
      if i != j - 1 && ContainedIn(subs[i], k) && k !in before then before[k := subs[i]] else before
  }

  /** The map after position `n` of the outer loop. */
  function Pass(subs: seq<string>, n: nat): map<string, string>
    requires n <= |subs|
  {
    if n == 0 then map[] else Row(subs, n - 1, |subs|, Pass(subs, n - 1))
  }

  method ExportOverlaps(subs: seq<string>) returns (m: map<string, string>)
    ensures m == Pass(subs, |subs|)
  {
    m := map[];
    for i := 0 to |subs|
      invariant m == Pass(subs, i)
    {
      for j := 0 to |subs|
        invariant m == Row(subs, i, j, Pass(subs, i))
      {
        if i == j {
          continue;
        }
        var contained := SubjectIsContainedIn(subs[i], subs[j]);
        if contained && subs[j] !in m {
          m := m[subs[j] := subs[i]];
        }
      }
    }
  }

  lemma {:induction false} RowExactly(subs: seq<string>, i: nat, j: nat, m: map<string, string>, k: string)
    requires i < |subs| && j <= |subs|
    ensures k in Row(subs, i, j, m)
       <==> (k in m || exists b :: 0 <= b < j && b != i && subs[b] == k && ContainedIn(subs[i], subs[b]))
    ensures k in Row(subs, i, j, m) ==> Row(subs, i, j, m)[k] == if k in m then m[k] else subs[i]
  {
    if j > 0 {
      RowExactly(subs, i, j - 1, m, k);
      var b := j - 1;
      assert b != i && subs[b] == k && ContainedIn(subs[i], subs[b]) ==> k in Row(subs, i, j, m);
    }
  }

  /** The keys of the map are the subjects that contain the subject of another position, each
      once; the value is the first such subject. */
  lemma {:induction false} PassExactly(subs: seq<string>, n: nat, k: string)
    requires n <= |subs|
    ensures k in Pass(subs, n) <==> exists i :: 0 <= i < n && Reports(subs, i, k)
    ensures k in Pass(subs, n) ==>
      exists i :: 0 <= i < n && Reports(subs, i, k) && Pass(subs, n)[k] == subs[i]
        && forall earlier :: 0 <= earlier < i ==> !Reports(subs, earlier, k)
  {
    if n > 0 {
      PassExactly(subs, n - 1, k);
      RowExactly(subs, n - 1, |subs|, Pass(subs, n - 1), k);
      var last := n - 1;
      assert k in Pass(subs, n) <==> k in Pass(subs, last) || Reports(subs, last, k);
    }
  }

  /** The keys of a map in the order a `std::map` goes through them. */
  ghost predicate Enumerates(keys: seq<string>, m: map<string, string>) {
    && Sorted(keys, Self)
    && (forall i, j :: 0 <= i < j < |keys| ==> keys[i] != keys[j])
    && (forall k :: k in keys <==> k in m)
  }

  method SortedKeys(m: map<string, string>) returns (keys: seq<string>)
    ensures Enumerates(keys, m)
  {
    var rest, picked: seq<string> := m.Keys, [];
    while rest != {}
      invariant forall i, j :: 0 <= i < j < |picked| ==> picked[i] != picked[j]
      invariant forall k :: k in picked <==> k in m && k !in rest
      invariant rest <= m.Keys
      decreases |rest|
    {
      var k :| k in rest;
      picked := picked + [k];
      rest := rest - {k};
    }
    keys := Sort(picked, Self);
    SortSorted(picked, Self);
    SameElements(picked, keys);
  }

  lemma SameElements(xs: seq<string>, ys: seq<string>)
    requires multiset(xs) == multiset(ys)
    requires forall i, j :: 0 <= i < j < |xs| ==> xs[i] != xs[j]
    ensures forall k :: k in ys <==> k in xs
    ensures forall i, j :: 0 <= i < j < |ys| ==> ys[i] != ys[j]
  {
    forall k
      ensures k in ys <==> k in xs
    {
      assert k in ys <==> k in multiset(ys);
      assert k in xs <==> k in multiset(xs);
    }
    forall i, j | 0 <= i < j < |ys|
      ensures ys[i] != ys[j]
    {
      AtMostOnce(xs, ys[i]);
      Twice(ys, i, j);
    }
  }

  lemma {:induction false} AtMostOnce(xs: seq<string>, k: string)
    requires forall i, j :: 0 <= i < j < |xs| ==> xs[i] != xs[j]
    ensures multiset(xs)[k] <= 1
  {
    if xs != [] {
      var n := |xs| - 1;
      AtMostOnce(xs[..n], k);
      assert xs == xs[..n] + [xs[n]];
      assert xs[n] !in xs[..n];
      assert multiset(xs[..n])[xs[n]] == 0;
    }
  }

  lemma Twice(ys: seq<string>, i: nat, j: nat)
    requires i < j < |ys|
    ensures ys[i] == ys[j] ==> multiset(ys)[ys[i]] >= 2
  {
    assert ys == ys[..j] + [ys[j]] + ys[j + 1..];
    assert ys[..j][i] == ys[i];
  }

  function ExportIssues(service: bool, keys: seq<string>, m: map<string, string>): (found: seq<Finding>)
    requires forall k :: k in keys ==> k in m
    ensures |found| == |keys|
    ensures forall i :: 0 <= i < |keys| ==> found[i] == OverlappingExport(service, keys[i], m[keys[i]])
  {
    seq(|keys|, i requires 0 <= i < |keys| => OverlappingExport(service, keys[i], m[keys[i]]))
  }

  /** Exactly one issue for each entry of the map, in the order of the keys. */
  ghost predicate Reported(service: bool, m: map<string, string>, found: seq<Finding>) {
    exists keys :: Enumerates(keys, m) && found == ExportIssues(service, keys, m)
  }

  method ReportExports(service: bool, m: map<string, string>, vr: ValidationResults) returns (ghost found: seq<Finding>)
    modifies vr
    ensures Reported(service, m, found) && vr.issues == old(vr.issues) + Errors(found)
  {
    var keys := SortedKeys(m);
    found := ExportIssues(service, keys, m);
    for i := 0 to |keys|
      invariant vr.issues == old(vr.issues) + Errors(found[..i])
    {
      Accumulate(old(vr.issues), found[..i], [found[i]]);
      assert found[..i + 1] == found[..i] + [found[i]];
      vr.AddError(OverlappingExport(service, keys[i], m[keys[i]]));
    }
    assert found[..|keys|] == found;
  }

  /** The subjects compared with each other: those of services, and those of all other exports. */
  function SubjectsOf(exports: seq<Export>, service: bool): seq<string> {
    if exports == [] then []
    else
      var n := |exports| - 1;
      SubjectsOf(exports[..n], service)
      + if exports[n].kind.Service? == service then [exports[n].subject] else []
  }

  /** The subjects of one kind that contain another one's, with the first such. */
  function ContainedExports(exports: seq<Export>, service: bool): map<string, string> {
    Pass(SubjectsOf(exports, service), |SubjectsOf(exports, service)|)
  }

  /** The findings of the exports on their own, one export after the other. */
  function OwnFindings(exports: seq<Export>, info: InfoCheck): seq<Finding> {
    if exports == [] then []
    else OwnFindings(exports[..|exports| - 1], info) + ExportFindings(exports[|exports| - 1], info)
  }

  /** The loop over the exports, which also sorts their subjects by kind. */
  method CheckEach(exports: seq<Export>, info: InfoCheck, vr: ValidationResults)
    returns (serviceSubjects: seq<string>, streamSubjects: seq<string>)
    modifies vr
    ensures serviceSubjects == SubjectsOf(exports, true) && streamSubjects == SubjectsOf(exports, false)
    ensures vr.issues == old(vr.issues) + Errors(OwnFindings(exports, info))
  {
    serviceSubjects, streamSubjects := [], [];
    for n := 0 to |exports|
      invariant serviceSubjects == SubjectsOf(exports[..n], true)
      invariant streamSubjects == SubjectsOf(exports[..n], false)
      invariant vr.issues == old(vr.issues) + Errors(OwnFindings(exports[..n], info))
    {
      assert exports[..n + 1][..n] == exports[..n];
      if exports[n].kind.Service? {
        serviceSubjects := serviceSubjects + [exports[n].subject];
      } else {
        streamSubjects := streamSubjects + [exports[n].subject];
      }
      Accumulate(old(vr.issues), OwnFindings(exports[..n], info), ExportFindings(exports[n], info));
      CheckExport(exports[n], info, vr);
    }
    assert exports[..|exports|] == exports;
  }

  /** The whole of the checks on exports: each on its own, then services among each other, then all
      other exports. */
  method CheckExports(exports: seq<Export>, info: InfoCheck, vr: ValidationResults)
    modifies vr
    ensures exists services, streams ::
      && Reported(true, ContainedExports(exports, true), services)
      && Reported(false, ContainedExports(exports, false), streams)
      && vr.issues == old(vr.issues) + Errors(OwnFindings(exports, info)) + Errors(services) + Errors(streams)
  {
    var serviceSubjects, streamSubjects := CheckEach(exports, info, vr);
    var service := ExportOverlaps(serviceSubjects);
    ghost var services := ReportExports(true, service, vr);
    var stream := ExportOverlaps(streamSubjects);
    ghost var streams := ReportExports(false, stream, vr);
  }

  // ---------------- overlaps and what subjects mean ----------------

  /** The subjects that imports occupy are patterns. */
  ghost predicate AllPatterns(imports: seq<Import>) {
    forall i, tokens :: 0 <= i < |imports| && Occupies(imports[i], tokens) ==> Pattern(tokens)
  }

  predicate SameSource(i: Import, j: Import) {
    i.kind.Service? && j.kind.Service? && i.account == j.account
  }

  /** Two services of one account occupy subjects of which one is contained in the other. */
  ghost predicate Nested(i: Import, j: Import) {
    SameSource(i, j) && exists a, b :: Occupies(i, a) && Occupies(j, b) && NestedTokens(a, b)
  }

  predicate NestedTokens(a: seq<string>, b: seq<string>) {
    a != [] && b != [] && (Contained(a, b) || Contained(b, a))
  }

  /** Two services of one account occupy subjects that have a literal in common and do not cross. */
  ghost predicate Colliding(i: Import, j: Import) {
    SameSource(i, j) && exists a, b :: Occupies(i, a) && Occupies(j, b) && Share(a, b) && !Crossing(a, b)
  }

  lemma OverlapShare(a: string, b: string)
    requires Pattern(Split(a, '.')) && Pattern(Split(b, '.')) && Overlap(a, b)
    ensures Share(Split(a, '.'), Split(b, '.'))
  {
    if ContainedIn(a, b) {
      ContainedShare(Split(a, '.'), Split(b, '.'));
    } else {
      ContainedShare(Split(b, '.'), Split(a, '.'));
    }
  }

  /** Each of the subjects leaves open what the other does not. */
  predicate Crossing(a: seq<string>, b: seq<string>) {
    a != [] && b != [] && Wider(a, b) && Wider(b, a)
  }

  /** Subjects with a literal in common overlap for the source if and only if they do not cross. */
  lemma OverlapExactly(a: string, b: string)
    requires Pattern(Split(a, '.')) && Pattern(Split(b, '.'))
    ensures Overlap(a, b) <==> Share(Split(a, '.'), Split(b, '.')) && !Crossing(Split(a, '.'), Split(b, '.'))
  {
    var s, t := Split(a, '.'), Split(b, '.');
    if Overlap(a, b) {
      OverlapShare(a, b);
    }
    if Share(s, t) {
      assert Share(t, s);
      UncontainedExactly(s, t);
      UncontainedExactly(t, s);
    }
  }

  lemma NestedExactly(imports: seq<Import>, i: nat, j: nat)
    requires i < |imports| && j < |imports|
    ensures OverlappingPair(imports, i, j) <==> Nested(imports[i], imports[j])
  {
    var a, b := Split(Effective(imports[i]), '.'), Split(Effective(imports[j]), '.');
    OccupiesExactly(imports[i], a);
    OccupiesExactly(imports[j], b);
    if OverlappingPair(imports, i, j) {
      assert NestedTokens(a, b);
    }
    if Nested(imports[i], imports[j]) {
      var x, y :| Occupies(imports[i], x) && Occupies(imports[j], y) && NestedTokens(x, y);
      OccupiesExactly(imports[i], x);
      OccupiesExactly(imports[j], y);
    }
  }

  /** The pass reports something if and only if two services of one account occupy subjects of which
      one is contained in the other. */
  lemma OccupiedExactly(imports: seq<Import>)
    ensures Noticed(imports, |imports|) <==> exists i, j :: 0 <= i < j < |imports| && Nested(imports[i], imports[j])
  {
    ImportFindingsExactly(imports, |imports|);
    forall i, j | 0 <= i < j < |imports|
      ensures OverlappingPair(imports, i, j) <==> Nested(imports[i], imports[j])
    {
      NestedExactly(imports, i, j);
    }
  }

  lemma CollidingExactly(i: Import, j: Import)
    requires forall tokens :: Occupies(i, tokens) || Occupies(j, tokens) ==> Pattern(tokens)
    ensures Nested(i, j) <==> Colliding(i, j)
  {
    var a, b := Split(Effective(i), '.'), Split(Effective(j), '.');
    OccupiesExactly(i, a);
    OccupiesExactly(j, b);
    OverlapExactly(Effective(i), Effective(j));
    OnlyOccupies(i, a);
    OnlyOccupies(j, b);
  }

  lemma OnlyOccupies(i: Import, a: seq<string>)
    requires Occupies(i, a)
    ensures forall x :: Occupies(i, x) ==> x == a
  {
    forall x | Occupies(i, x)
      ensures x == a
    {
      OccupiesExactly(i, x);
      OccupiesExactly(i, a);
    }
  }

  /** The pass over the imports reports something if and only if two services of one account occupy
      subjects with a literal in common that do not cross. */
  lemma ReportedExactly(imports: seq<Import>)
    requires AllPatterns(imports)
    ensures Noticed(imports, |imports|) <==> exists i, j :: 0 <= i < j < |imports| && Colliding(imports[i], imports[j])
  {
    OccupiedExactly(imports);
    forall i, j | 0 <= i < j < |imports|
      ensures Nested(imports[i], imports[j]) <==> Colliding(imports[i], imports[j])
    {
      CollidingExactly(imports[i], imports[j]);
    }
  }

  /** Two services of one account occupy subjects that have a literal in common. */
  ghost predicate Sharing(i: Import, j: Import) {
    SameSource(i, j) && exists a, b :: Occupies(i, a) && Occupies(j, b) && Share(a, b)
  }

  /** What is reported is a common literal subject indeed. */
  lemma ReportedShare(imports: seq<Import>)
    requires AllPatterns(imports) && Noticed(imports, |imports|)
    ensures exists i, j :: 0 <= i < j < |imports| && Sharing(imports[i], imports[j])
  {
    ReportedExactly(imports);
    var i, j :| 0 <= i < j < |imports| && Colliding(imports[i], imports[j]);
    assert Sharing(imports[i], imports[j]);
  }

  /** `a.*` and `*.b` share `a.b`, cross, and are not reported. */
  lemma SharedUnreported(a: string, b: string)
    requires a == "a" + "." + "*" && b == "*" + "." + "b"
    ensures Share(Split(a, '.'), Split(b, '.')) && Crossing(Split(a, '.'), Split(b, '.')) && !Overlap(a, b)
  {
    SplitCons("a", '.', "*");
    SplitCons("*", '.', "");
    SplitCons("*", '.', "b");
    SplitCons("b", '.', "");
    assert Split(a, '.') == ["a", "*"] && Split(b, '.') == ["*", "b"];
    ShareUncontained();
    OverlapExactly(a, b);
  }

  // ---------------- exports, seen directly ----------------

  /** Two different exports, services both or neither, of which the first's subject is contained in
      the second's. */
  predicate NestedExports(exports: seq<Export>, i: nat, j: nat)
    requires i < |exports| && j < |exports|
  {
    && i != j && (exports[i].kind.Service? <==> exports[j].kind.Service?)
    && ContainedIn(exports[i].subject, exports[j].subject)
  }

  /** The positions of the exports whose subjects are compared, in order. */
  function Positions(exports: seq<Export>, service: bool): (at: seq<nat>)
    ensures forall k :: 0 <= k < |at| ==> at[k] < |exports| && exports[at[k]].kind.Service? == service
    ensures forall k, l :: 0 <= k < l < |at| ==> at[k] < at[l]
    ensures forall i :: 0 <= i < |exports| && exports[i].kind.Service? == service ==> i in at
  {
    if exports == [] then []
    else
      var n := |exports| - 1;
      Positions(exports[..n], service) + if exports[n].kind.Service? == service then [n] else []
  }

  lemma {:induction false} SubjectsAt(exports: seq<Export>, service: bool)
    ensures |SubjectsOf(exports, service)| == |Positions(exports, service)|
    ensures forall k :: 0 <= k < |Positions(exports, service)| ==>
      SubjectsOf(exports, service)[k] == exports[Positions(exports, service)[k]].subject
  {
    if exports != [] {
      SubjectsAt(exports[..|exports| - 1], service);
    }
  }

  /** No subject of one position is contained in that of another. */
  predicate Apart(subjects: seq<string>) {
    forall i, j :: 0 <= i < |subjects| && 0 <= j < |subjects| && i != j ==> !ContainedIn(subjects[i], subjects[j])
  }

  lemma NothingContained(subjects: seq<string>)
    ensures Pass(subjects, |subjects|) == map[] <==> Apart(subjects)
  {
    var m := Pass(subjects, |subjects|);
    if m == map[] {
      forall i, j | 0 <= i < |subjects| && 0 <= j < |subjects| && i != j
        ensures !ContainedIn(subjects[i], subjects[j])
      {
        PassExactly(subjects, |subjects|, subjects[j]);
        assert !Reports(subjects, i, subjects[j]);
      }
    }
    if m != map[] {
      var k :| k in m;
      PassExactly(subjects, |subjects|, k);
    }
  }

  lemma ApartExactly(exports: seq<Export>, service: bool)
    ensures Apart(SubjectsOf(exports, service)) <==>
      forall i, j :: 0 <= i < |exports| && 0 <= j < |exports| && exports[i].kind.Service? == service ==>
        !NestedExports(exports, i, j)
  {
    var subjects, at := SubjectsOf(exports, service), Positions(exports, service);
    SubjectsAt(exports, service);
    if Apart(subjects) {
      forall i, j | 0 <= i < |exports| && 0 <= j < |exports| && exports[i].kind.Service? == service
        ensures !NestedExports(exports, i, j)
      {
        if exports[j].kind.Service? == service && i != j {
          var k :| 0 <= k < |at| && at[k] == i;
          var l :| 0 <= l < |at| && at[l] == j;
          assert !ContainedIn(subjects[k], subjects[l]);
        }
      }
    }
    if forall i, j :: 0 <= i < |exports| && 0 <= j < |exports| && exports[i].kind.Service? == service ==>
        !NestedExports(exports, i, j) {
      forall k, l | 0 <= k < |subjects| && 0 <= l < |subjects| && k != l
        ensures !ContainedIn(subjects[k], subjects[l])
      {
        assert !NestedExports(exports, at[k], at[l]);
      }
    }
  }

  /** The two passes over the exports report nothing if and only if no export's subject is contained
      in that of another, services compared with services, all others with each other. */
  lemma ExportsReportedExactly(exports: seq<Export>)
    ensures ContainedExports(exports, true) == map[] && ContainedExports(exports, false) == map[] <==>
      forall i, j :: 0 <= i < |exports| && 0 <= j < |exports| ==> !NestedExports(exports, i, j)
  {
    NothingContained(SubjectsOf(exports, true));
    NothingContained(SubjectsOf(exports, false));
    ApartExactly(exports, true);
    ApartExactly(exports, false);
  }

  predicate Silent(e: Export, info: InfoCheck) {
    ExportFindings(e, info) == []
  }

  lemma OwnNext(init: seq<Export>, e: Export, info: InfoCheck)
    ensures OwnFindings(init + [e], info) == [] <==> OwnFindings(init, info) == [] && Silent(e, info)
  {
    assert (init + [e])[..|init|] == init;
    Nothing(OwnFindings(init, info), ExportFindings(e, info));
  }

  lemma Nothing(a: seq<Finding>, b: seq<Finding>)
    ensures a + b == [] <==> a == [] && b == []
  {
  }

  /** What holds of a list exactly when it holds of the list without its last item and of that item,
      holds exactly when it holds of every item. */
  lemma {:induction false} OfEveryItem<T(!new)>(all: seq<T> -> bool, one: T -> bool, xs: seq<T>)
    requires all([]) && forall init, x :: all(init + [x]) <==> all(init) && one(x)
    ensures all(xs) <==> forall i :: 0 <= i < |xs| ==> one(xs[i])
  {
    if xs != [] {
      var init, last := xs[..|xs| - 1], xs[|xs| - 1];
      OfEveryItem(all, one, init);
      assert xs == init + [last];
      assert forall i :: 0 <= i < |init| ==> xs[i] == init[i];
    }
  }

  /** The exports have no findings of their own if and only if none has any. */
  lemma OwnFindingsSilent(exports: seq<Export>, info: InfoCheck)
    ensures OwnFindings(exports, info) == [] <==> forall i :: 0 <= i < |exports| ==> Silent(exports[i], info)
  {
    var all, one := (xs: seq<Export>) => OwnFindings(xs, info) == [], (e: Export) => Silent(e, info);
    forall init, x
      ensures all(init + [x]) <==> all(init) && one(x)
    {
      OwnNext(init, x, info);
    }
    OfEveryItem(all, one, exports);
    forall i | 0 <= i < |exports|
      ensures one(exports[i]) <==> Silent(exports[i], info)
    {
    }
  }
}
