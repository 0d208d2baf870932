/** The mutable part of `AccountClaims` (src/account_claims.cpp): revocations, signing keys and
scopes, over every sequence of calls. */
module AccountState {
  import opened Results
  import Json
  import opened Types

  const REVOKE_ALL := "*"

  // ---------------- revocations as a function of the calls ----------------

  datatype Revocation = Revoke(key: string, at: Json.int64) | Clear(key: string)

  /** One call: a newer existing revocation is kept. */
  function ApplyRevocation(m: map<string, Json.int64>, op: Revocation): map<string, Json.int64> {
    match op
    case Revoke(k, t) => if k in m && m[k] > t then m else m[k := t]
    case Clear(k) => m - {k}
  }

  function Revocations(ops: seq<Revocation>): map<string, Json.int64> {
    if ops == [] then map[]
    else ApplyRevocation(Revocations(ops[..|ops| - 1]), ops[|ops| - 1])
  }

  /** The timestamps with which a key was revoked since it was last cleared. */
  function SinceClear(ops: seq<Revocation>, k: string): seq<Json.int64> {
    if ops == [] then []
    else
      var before := SinceClear(ops[..|ops| - 1], k);
      match ops[|ops| - 1]
      case Revoke(key, at) => if key == k then before + [at] else before
      case Clear(key) => if key == k then [] else before
  }

  ghost predicate IsMaximum(m: int, ts: seq<Json.int64>) {
    m in ts && forall t :: t in ts ==> t <= m
  }

  /** After any calls a key holds the largest timestamp since its last clear, or nothing. */
  lemma {:induction false} RevocationsExactly(ops: seq<Revocation>, k: string)
    ensures k in Revocations(ops) <==> SinceClear(ops, k) != []
    ensures k in Revocations(ops) ==> IsMaximum(Revocations(ops)[k], SinceClear(ops, k))
  {
    if ops != [] {
      RevocationsExactly(ops[..|ops| - 1], k);
    }
  }

  predicate RevokedIn(m: map<string, Json.int64>, k: string, issuedAt: Json.int64) {
    (REVOKE_ALL in m && m[REVOKE_ALL] >= issuedAt) || (k in m && m[k] >= issuedAt)
  }

  /** Call `i` revokes `k` from `t` on, and no later call clears `k`. */
  ghost predicate Stands(ops: seq<Revocation>, i: nat, k: string, t: Json.int64)
    requires i < |ops|
  {
    ops[i] == Revoke(k, t) && forall j :: i < j < |ops| ==> ops[j] != Clear(k)
  }

  lemma {:induction false} SinceClearExactly(ops: seq<Revocation>, k: string, t: Json.int64)
    ensures t in SinceClear(ops, k) <==> exists i :: 0 <= i < |ops| && Stands(ops, i, k, t)
  {
    if ops != [] {
      var n := |ops| - 1;
      var init := ops[..n];
      SinceClearExactly(init, k, t);
      forall i | 0 <= i < n
        ensures Stands(ops, i, k, t) <==> Stands(init, i, k, t) && ops[n] != Clear(k)
      {
      }
      assert Stands(ops, n, k, t) <==> ops[n] == Revoke(k, t);
      if ops[n] != Clear(k) {
        if i :| 0 <= i < n && Stands(init, i, k, t) {
          assert Stands(ops, i, k, t);
        }
      }
    }
  }

  /** The calls revoke `k`, or all, from some time on that is not before `issuedAt`. */
  ghost predicate RevokedSince(ops: seq<Revocation>, k: string, issuedAt: Json.int64) {
    exists i, t: Json.int64 :: 0 <= i < |ops| && t >= issuedAt && (Stands(ops, i, k, t) || Stands(ops, i, "*", t))
  }

  lemma RevokedByMaximum(ops: seq<Revocation>, k: string, issuedAt: Json.int64)
    ensures k in Revocations(ops) && Revocations(ops)[k] >= issuedAt
       <==> exists t :: t in SinceClear(ops, k) && t >= issuedAt
  {
    RevocationsExactly(ops, k);
  }

  /** A claim is revoked if and only if an uncleared revocation of its key or of `*` is not
      older than the claim. */
  lemma RevokedExactly(ops: seq<Revocation>, k: string, issuedAt: Json.int64)
    ensures RevokedIn(Revocations(ops), k, issuedAt) <==> RevokedSince(ops, k, issuedAt)
  {
    RevokedByMaximum(ops, k, issuedAt);
    RevokedByMaximum(ops, "*", issuedAt);
    if t :| (t in SinceClear(ops, k) || t in SinceClear(ops, "*")) && t >= issuedAt {
      SinceClearExactly(ops, k, t);
      SinceClearExactly(ops, "*", t);
      var i :| 0 <= i < |ops| && (Stands(ops, i, k, t) || Stands(ops, i, "*", t));
    }
    if i, t: Json.int64 :| 0 <= i < |ops| && t >= issuedAt && (Stands(ops, i, k, t) || Stands(ops, i, "*", t)) {
      SinceClearExactly(ops, k, t);
      SinceClearExactly(ops, "*", t);
      assert t in SinceClear(ops, k) || t in SinceClear(ops, "*");
    }
  }

  /** Revocations commute and repeat harmlessly. */
  lemma RevokeCommutes(m: map<string, Json.int64>, k: string, t: Json.int64, k': string, t': Json.int64)
    ensures ApplyRevocation(ApplyRevocation(m, Revoke(k, t)), Revoke(k', t'))
         == ApplyRevocation(ApplyRevocation(m, Revoke(k', t')), Revoke(k, t))
    ensures ApplyRevocation(ApplyRevocation(m, Revoke(k, t)), Revoke(k, t))
         == ApplyRevocation(m, Revoke(k, t))
  {
  }

  /** A revocation never un-revokes: only a clear does. */
  lemma RevokeMonotone(m: map<string, Json.int64>, k: string, t: Json.int64, who: string, issuedAt: Json.int64)
    requires RevokedIn(m, who, issuedAt)
    ensures RevokedIn(ApplyRevocation(m, Revoke(k, t)), who, issuedAt)
  {
  }

  // ---------------- signing keys and scopes as a function of the calls ----------------

  datatype KeyCall = AddKey(publicKey: string) | SetScope(scope: UserScope)

  datatype Keys = Keys(listed: seq<string>, scopes: map<string, UserScope>)

  function ApplyKey(st: Keys, call: KeyCall): Keys {
    match call
    case AddKey(k) => st.(listed := st.listed + [k])
    case SetScope(s) =>
      Keys(if s.key in st.listed then st.listed else st.listed + [s.key], st.scopes[s.key := s])
  }

  function RunKeys(calls: seq<KeyCall>): Keys {
    if calls == [] then Keys([], map[])
    else ApplyKey(RunKeys(calls[..|calls| - 1]), calls[|calls| - 1])
  }

  /** Each scope is filed under its own key, and its key is listed. */
  ghost predicate Consistent(st: Keys) {
    forall k :: k in st.scopes ==> st.scopes[k].key == k && k in st.listed
  }

  function KeyOf(call: KeyCall): string {
    match call
    case AddKey(k) => k
    case SetScope(s) => s.key
  }

  lemma {:induction false} KeysConsistent(calls: seq<KeyCall>)
    ensures Consistent(RunKeys(calls))
  {
    if calls != [] {
      KeysConsistent(calls[..|calls| - 1]);
    }
  }

  /** The last scope set for a key. */
  function LastScope(calls: seq<KeyCall>, k: string): Option<UserScope> {
    if calls == [] then None
    else
      var last := calls[|calls| - 1];
      if last.SetScope? && last.scope.key == k then Some(last.scope)
      else LastScope(calls[..|calls| - 1], k)
  }

  /** A key is listed if and only if some call named it, and its scope is the last one set. */
  lemma {:induction false} KeysExactly(calls: seq<KeyCall>, k: string)
    ensures k in RunKeys(calls).listed <==> exists i :: 0 <= i < |calls| && KeyOf(calls[i]) == k
    ensures LastScope(calls, k)
         == if k in RunKeys(calls).scopes then Some(RunKeys(calls).scopes[k]) else None
  {
    if calls != [] {
      var n := |calls| - 1;
      KeysExactly(calls[..n], k);
      assert forall i :: 0 <= i < n ==> calls[..n][i] == calls[i];
      assert KeyOf(calls[n]) == k ==> k in RunKeys(calls).listed;
    }
  }

  /** Call `i` sets `s` for its key, and no later call sets another one. */
  ghost predicate SetLast(calls: seq<KeyCall>, i: nat, s: UserScope)
    requires i < |calls|
  {
    calls[i] == SetScope(s) && forall j :: i < j < |calls| && calls[j].SetScope? ==> calls[j].scope.key != s.key
  }

  /** The scope of a key is that of the last call that set one. */
  lemma {:induction false} LastScopeExactly(calls: seq<KeyCall>, k: string, s: UserScope)
    ensures LastScope(calls, k) == Some(s) <==> s.key == k && exists i :: 0 <= i < |calls| && SetLast(calls, i, s)
  {
    if calls != [] {
      var n := |calls| - 1;
      var init := calls[..n];
      LastScopeExactly(init, k, s);
      forall i | 0 <= i < n
        ensures SetLast(calls, i, s) <==>
          SetLast(init, i, s) && !(calls[n].SetScope? && calls[n].scope.key == s.key)
      {
      }
      assert SetLast(calls, n, s) <==> calls[n] == SetScope(s);
      if i :| 0 <= i < n && SetLast(init, i, s) {
        assert SetLast(calls, i, s) <==> !(calls[n].SetScope? && calls[n].scope.key == s.key);
      }
    }
  }

  /** Call `i` lists its key: every added key is listed again, a scope lists its key only when no
      earlier call named it. */
  predicate Lists(calls: seq<KeyCall>, i: nat)
    requires i < |calls|
  {
    calls[i].AddKey? || forall j :: 0 <= j < i ==> KeyOf(calls[j]) != KeyOf(calls[i])
  }

  /** One more call appends its key to the list, if it lists it, and nothing else. */
  lemma ListedNext(calls: seq<KeyCall>, n: nat)
    requires n < |calls|
    ensures RunKeys(calls[..n + 1]).listed
         == RunKeys(calls[..n]).listed + if Lists(calls, n) then [KeyOf(calls[n])] else []
  {
    assert calls[..n + 1][..n] == calls[..n];
    KeysExactly(calls[..n], KeyOf(calls[n]));
    assert forall i :: 0 <= i < n ==> calls[..n][i] == calls[i];
  }

  // ---------------- the class ----------------

  class AccountClaims {
    var revocations: map<string, Json.int64>
    var signingKeys: seq<string>
    var scopes: map<string, UserScope>
    ghost var revocationCalls: seq<Revocation>
    ghost var keyCalls: seq<KeyCall>

    /** The state is what the calls so far make it. */
    ghost predicate Valid()
      reads this
    {
      && revocations == Revocations(revocationCalls)
      && Keys(signingKeys, scopes) == RunKeys(keyCalls)
    }

    constructor ()
      ensures Valid() && revocationCalls == [] && keyCalls == []
    {
      revocations := map[];
      signingKeys := [];
      scopes := map[];
      revocationCalls := [];
      keyCalls := [];
    }

    method RevokeAt(pubKey: string, unixTimestamp: Json.int64)
      requires Valid()
      modifies this
      ensures Valid() && keyCalls == old(keyCalls)
      ensures revocationCalls == old(revocationCalls) + [Revoke(pubKey, unixTimestamp)]
    {
      revocationCalls := revocationCalls + [Revoke(pubKey, unixTimestamp)];
      assert revocationCalls[..|revocationCalls| - 1] == old(revocationCalls);
      if pubKey in revocations && revocations[pubKey] > unixTimestamp {
        return;
      }
      revocations := revocations[pubKey := unixTimestamp];
    }

    method ClearRevocation(pubKey: string)
      requires Valid()
      modifies this
      ensures Valid() && keyCalls == old(keyCalls)
      ensures revocationCalls == old(revocationCalls) + [Clear(pubKey)]
    {
      revocationCalls := revocationCalls + [Clear(pubKey)];
      assert revocationCalls[..|revocationCalls| - 1] == old(revocationCalls);
      revocations := revocations - {pubKey};
    }

    method IsRevoked(pubKey: string, claimIssuedAt: Json.int64) returns (r: bool)
      requires Valid()
      ensures r <==> RevokedSince(revocationCalls, pubKey, claimIssuedAt)
    {
      RevokedExactly(revocationCalls, pubKey, claimIssuedAt);
      if REVOKE_ALL in revocations && revocations[REVOKE_ALL] >= claimIssuedAt {
        return true;
      }
      return pubKey in revocations && revocations[pubKey] >= claimIssuedAt;
    }

    method AddSigningKey(publicKey: string)
      requires Valid()
      modifies this
      ensures Valid() && revocationCalls == old(revocationCalls)
      ensures keyCalls == old(keyCalls) + [AddKey(publicKey)]
    {
      keyCalls := keyCalls + [AddKey(publicKey)];
      assert keyCalls[..|keyCalls| - 1] == old(keyCalls);
      signingKeys := signingKeys + [publicKey];
    }

    method SetScopeOf(scope: UserScope)
      requires Valid()
      modifies this
      ensures Valid() && revocationCalls == old(revocationCalls)
      ensures keyCalls == old(keyCalls) + [SetScope(scope)]
    {
      keyCalls := keyCalls + [SetScope(scope)];
      assert keyCalls[..|keyCalls| - 1] == old(keyCalls);
      if scope.key !in signingKeys {
        signingKeys := signingKeys + [scope.key];
      }
      scopes := scopes[scope.key := scope];
    }

    /** The scope of a listed key names that key, and is the last one set for it. */
    method GetScope(signingKey: string) returns (r: Option<UserScope>)
      requires Valid()
      ensures r == LastScope(keyCalls, signingKey)
      ensures r.Some? ==> r.value.key == signingKey && signingKey in signingKeys
    {
      KeysExactly(keyCalls, signingKey);
      KeysConsistent(keyCalls);
      r := if signingKey in scopes then Some(scopes[signingKey]) else None;
    }
  }
}
