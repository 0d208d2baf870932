/** Chains of tokens from an operator down to a user (src/validation.cpp). */
module Chain {
  import opened Results
  import opened Json
  import opened Tokenization
  import opened Envelopes
  import opened Dispatch
  import AccountState
  import Base64Url
  import UserWire

  /** What a chain looks at in the claims of a token; `Other` stands for activations, authorization
      requests and generic claims. */
  datatype Body =
    | Operator(signingKeys: seq<string>)
    | Account(keys: AccountState.Keys)
    | User(user: UserWire.User)
    | Response(issuerAccount: Option<string>)
    | Other

  datatype Claims = Claims(subject: string, issuer: string, expires: int64, notBefore: int64, body: Body)

  // ---------------- one link ----------------

  /** The keys a parent vouches for besides its own. */
  function SigningKeys(parent: Claims): seq<string> {
    match parent.body
    case Operator(keys) => keys
    case Account(keys) => keys.listed
    case _ => []
  }

  predicate VouchesFor(parent: Claims, issuer: string) {
    issuer == parent.subject || issuer in SigningKeys(parent)
  }

  function IssuerAccountOf(child: Claims): Option<string> {
    match child.body
    case User(user) => user.issuerAccount
    case Response(account) => account
    case _ => None
  }

  /** A scoped key of the parent account issued this user. */
  predicate ScopedUser(child: Claims, parent: Claims) {
    child.body.User? && parent.body.Account? && child.issuer in parent.body.keys.scopes
  }

  predicate IssuerOk(child: Claims, parent: Claims) {
    && child.issuer != "" && parent.subject != ""
    && VouchesFor(parent, child.issuer)
    && (IssuerAccountOf(child).Some? ==> IssuerAccountOf(child).value == parent.subject)
    && (ScopedUser(child, parent) ==> UserWire.HasEmptyPermissions(child.body.user))
  }

  /** `validateIssuerChain`. */
  method ValidateIssuerChain(child: Claims, parent: Claims) returns (ok: bool)
    ensures ok == IssuerOk(child, parent)
  {
    if child.issuer == "" || parent.subject == "" {
      return false;
    }
    var issuerVouchedFor := child.issuer == parent.subject;
    if !issuerVouchedFor {
      var signingKeys := SigningKeys(parent);
      for i := 0 to |signingKeys|
        invariant !issuerVouchedFor && child.issuer !in signingKeys[..i]
      {
        if child.issuer == signingKeys[i] {
          issuerVouchedFor := true;
          break;
        }
      }
    }
    if !issuerVouchedFor {
      return false;
    }
    var issuerAccount := IssuerAccountOf(child);
    if issuerAccount.Some? && issuerAccount.value != parent.subject {
      return false;
    }
    if child.body.User? && parent.body.Account? {
      if child.issuer in parent.body.keys.scopes && !UserWire.HasEmptyPermissions(child.body.user) {
        return false;
      }
    }
    return true;
  }

  /** The parents a subject may have: an operator itself, an account an operator, a user an account. */
  predicate HierarchyOk(child: Claims, parent: Claims) {
    && child.subject != "" && child.issuer != "" && parent.subject != ""
    && child.issuer[0] == parent.subject[0]
    && (child.subject[0], parent.subject[0]) in {('O', 'O'), ('A', 'O'), ('U', 'A')}
    && (child.subject[0] == 'O' ==> child.subject == parent.subject)
  }

  /** `validateKeyHierarchy`. */
  method ValidateKeyHierarchy(child: Claims, parent: Claims) returns (ok: bool)
    ensures ok == HierarchyOk(child, parent)
  {
    if child.subject == "" || child.issuer == "" || parent.subject == "" {
      return false;
    }
    var childType, issuerType, parentType := child.subject[0], child.issuer[0], parent.subject[0];
    if issuerType != parentType {
      return false;
    }
    if childType == 'O' && parentType == 'O' {
      return child.subject == parent.subject;
    } else if childType == 'A' && parentType == 'O' {
      return true;
    } else if childType == 'U' && parentType == 'A' {
      return true;
    } else {
      return false;
    }
  }

  predicate LinkOk(child: Claims, parent: Claims) {
    IssuerOk(child, parent) && HierarchyOk(child, parent)
  }

  /** The parent's own key, or a signing key that the operator or account it is lists. */
  predicate KeyOf(parent: Claims, key: string) {
    || key == parent.subject
    || (parent.body.Operator? && key in parent.body.signingKeys)
    || (parent.body.Account? && key in parent.body.keys.listed)
  }

  /** A child's issuer, said of the fields: it is a key of the parent; whatever account a user or a
      response names is the parent; and a user of a scoped key has nothing of its own. */
  predicate Trusted(child: Claims, parent: Claims) {
    && child.issuer != "" && parent.subject != "" && KeyOf(parent, child.issuer)
    && (child.body.User? ==>
          child.body.user.issuerAccount == None || child.body.user.issuerAccount == Some(parent.subject))
    && (child.body.Response? ==>
          child.body.issuerAccount == None || child.body.issuerAccount == Some(parent.subject))
    && (child.body.User? && parent.body.Account? && child.issuer in parent.body.keys.scopes ==>
          UserWire.HasEmptyPermissions(child.body.user))
  }

  lemma TrustedExactly(child: Claims, parent: Claims)
    ensures IssuerOk(child, parent) <==> Trusted(child, parent)
  {
  }

  /** A link is accepted if and only if the issuer is trusted and is a key of the parent's kind, and
      an operator follows itself, an account an operator, or a user an account. */
  lemma LinkExactly(child: Claims, parent: Claims)
    ensures LinkOk(child, parent) <==>
      && Trusted(child, parent)
      && child.subject != "" && child.issuer[0] == parent.subject[0]
      && (|| (parent.subject[0] == 'O' && child.subject == parent.subject)
          || (parent.subject[0] == 'O' && child.subject[0] == 'A')
          || (parent.subject[0] == 'A' && child.subject[0] == 'U'))
  {
  }

  /** A user issued by a signing key that its account lists, under an operator that issued the account
      or lists the key that did, is accepted: with any permissions when the key has no scope, with
      none of its own when it has one. */
  lemma SigningKeysAccepted(operator: Claims, account: Claims, user: Claims)
    requires operator.body.Operator? && account.body.Account? && user.body.User?
    requires operator.subject != "" && operator.subject[0] == 'O' && account.subject != "" && account.subject[0] == 'A'
    requires user.subject != "" && user.subject[0] == 'U'
    requires account.issuer == operator.subject
          || (account.issuer in operator.body.signingKeys && account.issuer != "" && account.issuer[0] == 'O')
    requires user.issuer in account.body.keys.listed && user.issuer != "" && user.issuer[0] == 'A'
    requires user.body.user.issuerAccount == Some(account.subject)
    requires user.issuer in account.body.keys.scopes ==> UserWire.HasEmptyPermissions(user.body.user)
    ensures Linked([operator, account, user])
  {
    LinkExactly(account, operator);
    LinkExactly(user, account);
  }

  // ---------------- the chain ----------------

  /** What is known of single tokens: decoding (a failure is `None`), `verify`, and the claims' own
      validation, which sees all of a token; and the moment of the checks. */
  datatype Checks = Checks(
    decode: string -> Option<Claims>,
    verify: string -> bool,
    sound: string -> bool,
    now: int)

  datatype Options = Options(
    checkSignature: bool, checkIssuerChain: bool, checkExpiration: bool, checkNotBefore: bool, clockSkew: int)

  predicate Unexpired(c: Claims, skew: int, now: int) {
    c.expires > 0 ==> now <= c.expires + skew
  }

  predicate Begun(c: Claims, skew: int, now: int) {
    c.notBefore > 0 ==> c.notBefore - skew <= now
  }

  predicate Timely(c: Claims, opts: Options, now: int) {
    && (opts.checkNotBefore ==> Begun(c, opts.clockSkew, now))
    && (opts.checkExpiration ==> Unexpired(c, opts.clockSkew, now))
  }

  /** `validateTiming`, with `validateNotBefore` and `validateExpiration`. */
  method ValidateTiming(c: Claims, opts: Options, now: int) returns (ok: bool)
    ensures ok == Timely(c, opts, now)
  {
    if opts.checkNotBefore && c.notBefore > 0 && c.notBefore - opts.clockSkew > now {
      return false;
    }
    if opts.checkExpiration && c.expires > 0 && now > c.expires + opts.clockSkew {
      return false;
    }
    return true;
  }

  predicate TokenOk(checks: Checks, opts: Options, jwt: string) {
    && checks.decode(jwt).Some?
    && (opts.checkSignature ==> checks.verify(jwt))
    && Timely(checks.decode(jwt).value, opts, checks.now)
    && checks.sound(jwt)
  }

  /** `validate`. */
  method ValidateToken(checks: Checks, opts: Options, jwt: string) returns (ok: bool)
    ensures ok == TokenOk(checks, opts, jwt)
  {
    var claims := checks.decode(jwt);
    if claims.None? {
      return false;
    }
    if opts.checkSignature && !checks.verify(jwt) {
      return false;
    }
    var timely := ValidateTiming(claims.value, opts, checks.now);
    if !timely {
      return false;
    }
    return checks.sound(jwt);
  }

  predicate AllTokensOk(checks: Checks, opts: Options, jwts: seq<string>) {
    forall i :: 0 <= i < |jwts| ==> TokenOk(checks, opts, jwts[i])
  }

  function Decoded(checks: Checks, opts: Options, jwts: seq<string>): (chain: seq<Claims>)
    requires AllTokensOk(checks, opts, jwts)
    ensures |chain| == |jwts|
  {
    seq(|jwts|, i requires 0 <= i < |jwts| => checks.decode(jwts[i]).value)
  }

  /** Every token is fit to follow the one before. */
  predicate Linked(chain: seq<Claims>) {
    forall i :: 1 <= i < |chain| ==> LinkOk(chain[i], chain[i - 1])
  }

  datatype Verdict = Accepted | NoTokens | BadToken(index: nat) | BadLink(index: nat)

  /** What a verdict says: of a rejection, that it names the first fault. */
  predicate Justified(checks: Checks, opts: Options, jwts: seq<string>, v: Verdict) {
    match v
    case Accepted =>
      && jwts != [] && AllTokensOk(checks, opts, jwts)
      && (opts.checkIssuerChain ==> Linked(Decoded(checks, opts, jwts)))
    case NoTokens => jwts == []
    case BadToken(i) =>
      i < |jwts| && AllTokensOk(checks, opts, jwts[..i]) && !TokenOk(checks, opts, jwts[i])
    case BadLink(i) =>
      && opts.checkIssuerChain && 1 <= i < |jwts| && AllTokensOk(checks, opts, jwts)
      && var chain := Decoded(checks, opts, jwts);
         Linked(chain[..i]) && !LinkOk(chain[i], chain[i - 1])
  }

  /** `validateChain`. */
  method ValidateChain(checks: Checks, opts: Options, jwts: seq<string>) returns (v: Verdict)
    ensures Justified(checks, opts, jwts, v)
  {
    if jwts == [] {
      return NoTokens;
    }
    var claimsChain: seq<Claims> := [];
    for i := 0 to |jwts|
      invariant AllTokensOk(checks, opts, jwts[..i])
      invariant claimsChain == Decoded(checks, opts, jwts[..i])
    {
      var ok := ValidateToken(checks, opts, jwts[i]);
      if !ok {
        return BadToken(i);
      }
      claimsChain := claimsChain + [checks.decode(jwts[i]).value];
    }
    assert jwts[..|jwts|] == jwts;
    if opts.checkIssuerChain && |claimsChain| > 1 {
      for i := 1 to |claimsChain|
        invariant Linked(claimsChain[..i])
      {
        var issuerOk := ValidateIssuerChain(claimsChain[i], claimsChain[i - 1]);
        if !issuerOk {
          return BadLink(i);
        }
        var hierarchyOk := ValidateKeyHierarchy(claimsChain[i], claimsChain[i - 1]);
        if !hierarchyOk {
          return BadLink(i);
        }
      }
      assert claimsChain[..|claimsChain|] == claimsChain;
    }
    return Accepted;
  }

  /** A verdict says all there is to say: no two are justified of the same tokens. */
  lemma OneVerdict(checks: Checks, opts: Options, jwts: seq<string>, v: Verdict, w: Verdict)
    requires Justified(checks, opts, jwts, v) && Justified(checks, opts, jwts, w)
    ensures v == w
  {
  }

  // ---------------- the shape of a chain ----------------

  /** `m` operators of one subject, then nothing, an account, or an account and a user. */
  predicate Shaped(chain: seq<Claims>, m: nat) {
    && m <= |chain| <= m + 2
    && (forall i :: 0 <= i < |chain| ==> chain[i].subject != "")
    && (forall i :: 0 <= i < m ==> chain[i].subject[0] == 'O' && chain[i].subject == chain[0].subject)
    && (m < |chain| ==> chain[m].subject[0] == 'A')
    && (m + 1 < |chain| ==> chain[m + 1].subject[0] == 'U')
  }

  /** How many operators a chain begins with. */
  function Operators(chain: seq<Claims>): (m: nat)
    ensures m <= |chain|
  {
    if chain == [] || chain[0].subject == "" || chain[0].subject[0] != 'O' then 0
    else 1 + Operators(chain[1..])
  }

  predicate IssuerOfKind(child: Claims, parent: Claims) {
    child.issuer != "" && parent.subject != "" && child.issuer[0] == parent.subject[0]
  }

  predicate IssuersOfKind(chain: seq<Claims>) {
    forall i :: 1 <= i < |chain| ==> IssuerOfKind(chain[i], chain[i - 1])
  }

  predicate InHierarchy(chain: seq<Claims>) {
    forall i :: 1 <= i < |chain| ==> HierarchyOk(chain[i], chain[i - 1])
  }

  /** Two tokens or more are in hierarchy, link by link, if and only if the chain as a whole has the
      form O...O, O...OA, O...OAU or AU with all operators the same, and every issuer is of the
      kind of the parent. */
  lemma HierarchyExactly(chain: seq<Claims>)
    requires |chain| >= 2
    ensures InHierarchy(chain) <==> Shaped(chain, Operators(chain)) && IssuersOfKind(chain)
  {
    var m := Operators(chain);
    OperatorsLead(chain);
    if InHierarchy(chain) {
      forall i | 0 <= i < |chain|
        ensures chain[i].subject != ""
      {
        assert i >= 1 ==> HierarchyOk(chain[i], chain[i - 1]);
        assert i == 0 ==> HierarchyOk(chain[1], chain[0]);
      }
      SameOperator(chain, m);
      AfterOperators(chain, m);
    }
    if Shaped(chain, m) && IssuersOfKind(chain) {
      forall i | 1 <= i < |chain|
        ensures HierarchyOk(chain[i], chain[i - 1])
      {
        assert IssuerOfKind(chain[i], chain[i - 1]);
        assert i < m || i == m || i == m + 1;
      }
    }
  }

  lemma {:induction false} OperatorsLead(chain: seq<Claims>)
    ensures forall i :: 0 <= i < Operators(chain) ==> chain[i].subject != "" && chain[i].subject[0] == 'O'
    ensures Operators(chain) < |chain| ==>
      chain[Operators(chain)].subject == "" || chain[Operators(chain)].subject[0] != 'O'
  {
    if Operators(chain) > 0 {
      OperatorsLead(chain[1..]);
      forall i | 0 <= i < Operators(chain)
        ensures chain[i].subject != "" && chain[i].subject[0] == 'O'
      {
        assert i > 0 ==> chain[i] == chain[1..][i - 1];
      }
    }
  }

  lemma {:induction false} SameOperator(chain: seq<Claims>, m: nat)
    requires m <= |chain| && InHierarchy(chain)
    requires forall i :: 0 <= i < m ==> chain[i].subject != "" && chain[i].subject[0] == 'O'
    ensures forall i :: 0 <= i < m ==> chain[i].subject == chain[0].subject
  {
    if m > 1 {
      SameOperator(chain, m - 1);
      assert HierarchyOk(chain[m - 1], chain[m - 2]);
    }
  }

  lemma AfterOperators(chain: seq<Claims>, m: nat)
    requires |chain| >= 2 && m <= |chain| && InHierarchy(chain)
    requires forall i :: 0 <= i < |chain| ==> chain[i].subject != ""
    requires forall i :: 0 <= i < m ==> chain[i].subject[0] == 'O'
    requires m < |chain| ==> chain[m].subject[0] != 'O'
    ensures |chain| <= m + 2
    ensures m < |chain| ==> chain[m].subject[0] == 'A'
    ensures m + 1 < |chain| ==> chain[m + 1].subject[0] == 'U'
  {
    UserIsLast(chain);
    if 0 < m < |chain| {
      assert HierarchyOk(chain[m], chain[m - 1]);
    }
    if m + 1 < |chain| {
      assert HierarchyOk(chain[m + 1], chain[m]);
    }
  }

  /** Nothing follows a user. */
  lemma UserIsLast(chain: seq<Claims>)
    requires InHierarchy(chain) && forall i :: 0 <= i < |chain| ==> chain[i].subject != ""
    ensures forall i :: 0 <= i < |chain| - 1 ==> chain[i].subject[0] == 'O' || chain[i].subject[0] == 'A'
  {
    forall i | 0 <= i < |chain| - 1
      ensures chain[i].subject[0] == 'O' || chain[i].subject[0] == 'A'
    {
      assert HierarchyOk(chain[i + 1], chain[i]);
    }
  }

  /** A chain of two tokens or more is accepted, link by link, if and only if it has that form, every
      issuer is of its parent's kind and vouched for by it, an issuer account names the parent, and
      users of scoped keys carry nothing of their own. */
  lemma LinkedExactly(chain: seq<Claims>)
    requires |chain| >= 2
    ensures Linked(chain) <==>
      && Shaped(chain, Operators(chain))
      && IssuersOfKind(chain)
      && forall i :: 1 <= i < |chain| ==> Trusted(chain[i], chain[i - 1])
  {
    HierarchyExactly(chain);
    forall i | 1 <= i < |chain|
      ensures IssuerOk(chain[i], chain[i - 1]) <==> Trusted(chain[i], chain[i - 1])
    {
      TrustedExactly(chain[i], chain[i - 1]);
    }
  }

  /** Trust reaches from the root to every token.  After the `m` operators that lead, all of one
      subject, the account's issuer is a key of the last of them, the user's a key of the account, and
      whatever account the user names is that account. */
  lemma RootOfTrust(chain: seq<Claims>, m: nat)
    requires |chain| >= 2 && Linked(chain) && m == Operators(chain)
    ensures m <= |chain| <= m + 2
    ensures forall i :: 1 <= i < m ==> chain[i].subject == chain[0].subject && KeyOf(chain[i - 1], chain[i].issuer)
    ensures 0 < m < |chain| ==> KeyOf(chain[m - 1], chain[m].issuer) && chain[m - 1].subject == chain[0].subject
    ensures m + 1 < |chain| ==> KeyOf(chain[m], chain[m + 1].issuer)
    ensures m + 1 < |chain| && chain[m + 1].body.User? ==>
      && (chain[m + 1].body.user.issuerAccount.Some? ==> chain[m + 1].body.user.issuerAccount.value == chain[m].subject)
      && (chain[m].body.Account? && chain[m + 1].issuer in chain[m].body.keys.scopes ==>
            UserWire.HasEmptyPermissions(chain[m + 1].body.user))
  {
    LinkedExactly(chain);
    forall i | 1 <= i < m
      ensures chain[i].subject == chain[0].subject && KeyOf(chain[i - 1], chain[i].issuer)
    {
      assert Trusted(chain[i], chain[i - 1]);
    }
    if 0 < m < |chain| {
      assert Trusted(chain[m], chain[m - 1]);
    }
    if m + 1 < |chain| {
      assert Trusted(chain[m + 1], chain[m]);
    }
  }

  /** With issuer checking, two tokens or more are accepted if and only if each is valid and together
      they have that form and those issuers. */
  lemma AcceptedExactly(checks: Checks, opts: Options, jwts: seq<string>)
    requires opts.checkIssuerChain && |jwts| >= 2
    ensures Justified(checks, opts, jwts, Accepted) <==>
      && AllTokensOk(checks, opts, jwts)
      && var chain := Decoded(checks, opts, jwts);
         && Shaped(chain, Operators(chain))
         && IssuersOfKind(chain)
         && forall i :: 1 <= i < |chain| ==> Trusted(chain[i], chain[i - 1])
  {
    if AllTokensOk(checks, opts, jwts) {
      LinkedExactly(Decoded(checks, opts, jwts));
    }
  }

  /** Every token of an accepted chain decodes, is sound, is verified when that is asked for, and is
      within its times, the skew taken in its favour. */
  lemma AcceptedTokens(checks: Checks, opts: Options, jwts: seq<string>, i: nat)
    requires Justified(checks, opts, jwts, Accepted) && i < |jwts|
    ensures checks.decode(jwts[i]).Some? && checks.sound(jwts[i])
    ensures opts.checkSignature ==> checks.verify(jwts[i])
    ensures var c := checks.decode(jwts[i]).value;
      && (opts.checkExpiration && c.expires > 0 ==> checks.now <= c.expires + opts.clockSkew)
      && (opts.checkNotBefore && c.notBefore > 0 ==> checks.now >= c.notBefore - opts.clockSkew)
  {
    assert TokenOk(checks, opts, jwts[i]);
  }

  /** Conversely such tokens are valid, whatever else they say. */
  lemma ValidToken(checks: Checks, opts: Options, jwt: string, c: Claims)
    requires checks.decode(jwt) == Some(c) && checks.sound(jwt) && (opts.checkSignature ==> checks.verify(jwt))
    requires c.expires <= 0 || checks.now <= c.expires + opts.clockSkew || !opts.checkExpiration
    requires c.notBefore <= 0 || checks.now >= c.notBefore - opts.clockSkew || !opts.checkNotBefore
    ensures TokenOk(checks, opts, jwt)
  {
  }

  // ---------------- signatures ----------------

  /** The claims of a token are those of `decode`, as far as the issuer goes. */
  ghost predicate Authentic(w: World, checks: Checks) {
    forall t :: checks.decode(t).Some? ==>
      && DecodeToken(w, t).Ok?
      && RequiredString(PayloadOf(DecodeToken(w, t).value), "iss") == Ok(checks.decode(t).value.issuer)
  }

  /** Along an accepted chain every token is signed with the key it names as issuer, and from the
      second on that is a key the token before vouches for. */
  lemma TrustIsSigned(w: World, checks: Checks, opts: Options, jwts: seq<string>)
    requires Authentic(w, checks) && opts.checkIssuerChain && Justified(checks, opts, jwts, Accepted)
    ensures var chain := Decoded(checks, opts, jwts);
      && (forall i :: 0 <= i < |jwts| ==> SignedBy(w, jwts[i], chain[i].issuer))
      && (forall i :: 1 <= i < |jwts| ==> Trusted(chain[i], chain[i - 1]))
  {
    var chain := Decoded(checks, opts, jwts);
    forall i | 0 <= i < |jwts|
      ensures SignedBy(w, jwts[i], chain[i].issuer)
    {
      assert TokenOk(checks, opts, jwts[i]);
      DecodedIsSigned(w, jwts[i]);
    }
    forall i | 1 <= i < |jwts|
      ensures Trusted(chain[i], chain[i - 1])
    {
      assert LinkOk(chain[i], chain[i - 1]);
      TrustedExactly(chain[i], chain[i - 1]);
    }
  }

  /** When signatures are checked as well, each token is signed over exactly the text its version
      prescribes, with the key it names, which the token before vouches for. */
  lemma TrustIsVerified(w: World, checks: Checks, opts: Options, jwts: seq<string>, i: nat)
    requires Authentic(w, checks) && (forall t :: checks.verify(t) == Verify(w, t))
    requires opts.checkSignature && opts.checkIssuerChain
    requires Justified(checks, opts, jwts, Accepted) && i < |jwts|
    ensures Decode(w, jwts[i]).Ok? && Parts(jwts[i]).Ok? && Base64Url.Bytes(Parts(jwts[i]).value.signature).Ok?
    ensures var chain, parts := Decoded(checks, opts, jwts), Parts(jwts[i]).value;
      && w.keyValid(chain[i].issuer)
      && w.verifies(chain[i].issuer,
                    TextBytes(if Decode(w, jwts[i]).value.version == 1 then parts.payload
                              else parts.header + "." + parts.payload),
                    Base64Url.Bytes(parts.signature).value)
      && (i >= 1 ==> Trusted(chain[i], chain[i - 1]))
  {
    assert TokenOk(checks, opts, jwts[i]);
    TrustIsSigned(w, checks, opts, jwts);
    EnvelopeIssuer(w, jwts[i], Decode(w, jwts[i]).value);
    EnvelopeIsAuthentic(w, jwts[i], Decode(w, jwts[i]).value);
  }
}
