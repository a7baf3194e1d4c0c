/** From a token-endpoint response to a `TokenSet`: the parsing half of
    `postTokenRequest`, client authentication, and `toResult`. */
module TokenResponse {
  import opened Types

  /** What a token exchange with the issuer yields before id_token verification;
      `id` is the raw, still unverified id_token. */
  datatype OAuthToken = OAuthToken(
    access: string,
    refresh: string,
    expiry: Expiry,
    id: string,
    issuedTokenType: string,
    extra: map<Key, Json>)

  /** The verifier's answer for one raw id_token: rejected, or accepted with the nonce claim it carries. */
  datatype Verdict = Rejected | Accepted(nonce: string)

  /** Whether a raw id_token answered with `verdict` may enter a result. A flow
      without a nonce passes "". */
  predicate Trusted(verdict: Verdict, expectedNonce: string) {
    verdict.Accepted? && (expectedNonce == "" || verdict.nonce == expectedNonce)
  }

  function ToResult(tok: OAuthToken, verdict: Verdict, expectedNonce: string): TokenSet {
    var trusted := Trusted(verdict, expectedNonce);
    TokenSet(
      tok.access,
      if trusted then tok.id else "",
      tok.refresh,
      tok.expiry,
      tok.id != "" && !trusted,
      tok.issuedTokenType,
      tok.extra)
  }

  /** `toResult`, assigning the local result field by field. */
  method BuildResult(tok: OAuthToken, verdict: Verdict, expectedNonce: string) returns (res: TokenSet)
    ensures res == ToResult(tok, verdict, expectedNonce)
    // Everything but the id_token is the reply's, and so is the id_token if it was
    // accepted, with the nonce where one was sent; otherwise its failure is on record.
    ensures res.access == tok.access && res.refresh == tok.refresh && res.expiry == tok.expiry
    ensures res.issuedTokenType == tok.issuedTokenType && res.extra == tok.extra
    ensures res.id == if verdict.Accepted? && (expectedNonce == "" || verdict.nonce == expectedNonce) then tok.id else ""
    ensures res.idTokenError <==> tok.id != "" && res.id == ""
  {
    res := TokenSet(tok.access, "", tok.refresh, tok.expiry, false, "", map[]);
    res := res.(issuedTokenType := tok.issuedTokenType);
    if |tok.extra| > 0 {
      res := res.(extra := tok.extra);
    }
    if tok.id != "" {
      if verdict.Rejected? {
        res := res.(idTokenError := true);
      } else if expectedNonce != "" && verdict.nonce != expectedNonce {
        res := res.(idTokenError := true);
      } else {
        res := res.(id := tok.id);
      }
    }
  }

  // ---------- Client authentication ----------

  datatype ClientAuth = NoAuth | SecretBasic(secret: string) | SecretPost(secret: string) | PrivateKeyJWT

  type Form = map<string, seq<string>>

  const ASSERTION_TYPE := "urn:ietf:params:oauth:client-assertion-type:jwt-bearer"

  /** The request half of `postTokenRequest`. `assertion` is the outcome of
      signing a client assertion, `None` when signing fails. */
  method Authenticate(clientID: string, auth: ClientAuth, assertion: Option<string>, v: Form)
    returns (ok: bool, form: Form, basic: Option<(string, string)>)
    ensures ok <==> (auth.PrivateKeyJWT? ==> assertion.Some?)
    // The fields that the method owns replace the caller's; all others are passed on.
    ensures ok && (auth.NoAuth? || auth.SecretBasic?) ==> form == v["client_id" := [clientID]]
    ensures ok && auth.SecretPost? ==> form == v["client_id" := [clientID]]["client_secret" := [auth.secret]]
    ensures ok && auth.PrivateKeyJWT? ==>
              form == v["client_id" := [clientID]]
                       ["client_assertion_type" := ["urn:ietf:params:oauth:client-assertion-type:jwt-bearer"]]
                       ["client_assertion" := [assertion.value]]
    // A secret is in the header exactly for client_secret_basic.
    ensures ok ==> basic == if auth.SecretBasic? then Some((clientID, auth.secret)) else None
  {
    ok, basic := true, None;
    form := v["client_id" := [clientID]];
    match auth {
      case SecretPost(secret) =>
        form := form["client_secret" := [secret]];
      case PrivateKeyJWT =>
        if assertion.None? {
          ok := false;
          return;
        }
        form := form["client_assertion_type" := [ASSERTION_TYPE]];
        form := form["client_assertion" := [assertion.value]];
      case _ =>
    }
    if auth.SecretBasic? {
      basic := Some((clientID, auth.secret));
    }
  }

  // ---------- Decoding the response ----------

  /** What the part of a response body that is read, its first mebibyte, decodes to. */
  datatype Body = Garbage | NullDocument | NotAnObject | Object(members: seq<(Key, Json)>)

  datatype TokenError =
    | Unreadable
    | Unparsable
    | Retrieve(code: string, description: string, uri: string)
    | MissingAccessToken

  datatype Parsed = Token(tok: OAuthToken) | Failed(error: TokenError)

  /** The decoded standard fields: the texts, "" when absent, and `expires_in`. */
  datatype Fields = Fields(texts: map<Field, string>, expiresIn: int) {
    function Get(f: Field): string { if f in texts then texts[f] else "" }
  }

  const NO_FIELDS := Fields(map[], 0)

  /** The keys `postTokenRequest` deletes from the raw object, in its order. */
  const STANDARD: seq<Key> := [
    Exact(AccessToken), Exact(TokenType), Exact(RefreshToken), Exact(ExpiresIn),
    Exact(IDToken), Exact(IssuedTokenType),
    Exact(Error), Exact(ErrorDescription), Exact(ErrorURI)]

  const INT64_MAX: int := 0x7FFF_FFFF_FFFF_FFFF

  function WrapInt64(x: int): int {
    (x + INT64_MAX + 1) % 0x1_0000_0000_0000_0000 - INT64_MAX - 1
  }

  /** The field a member name decodes into, in whatever spelling. */
  function FieldOf(k: Key): Option<Field> {
    if k.Exact? || k.Spelled? then Some(k.f) else None
  }

  /** Whether `v` may be decoded into field `f`. */
  predicate Fits(f: Field, v: Json) {
    if f.ExpiresIn? then v.Int? && -INT64_MAX - 1 <= v.n <= INT64_MAX else v.Str?
  }

  /** One object member into the struct, and whether its type fitted. JSON null
      leaves the field as it is. */
  function DecodeMember(f: Fields, k: Key, v: Json): (Fields, bool) {
    var field := FieldOf(k);
    if v.Null? || field.None? then (f, true)
    else if !Fits(field.value, v) then (f, false)
    else if field.value.ExpiresIn? then (f.(expiresIn := v.n), true)
    else (f.(texts := f.texts[field.value := v.s]), true)
  }

  function DecodeMembers(ms: seq<(Key, Json)>): (Fields, bool) {
    if ms == [] then (NO_FIELDS, true)
    else
      var n := |ms| - 1;
      var d := DecodeMembers(ms[..n]);
      var e := DecodeMember(d.0, ms[n].0, ms[n].1);
      (e.0, d.1 && e.1)
  }

  /** `json.Unmarshal(body, &tr)`. */
  function Decode(body: Body): (Fields, bool) {
    match body
    case Garbage => (NO_FIELDS, false)
    case NullDocument => (NO_FIELDS, true)
    case NotAnObject => (NO_FIELDS, false)
    case Object(ms) => DecodeMembers(ms)
  }

  /** The raw object as a map: the last of several equal keys wins. */
  function RawMap(ms: seq<(Key, Json)>): map<Key, Json> {
    if ms == [] then map[]
    else
      var n := |ms| - 1;
      RawMap(ms[..n])[ms[n].0 := ms[n].1]
  }

  /** `json.Unmarshal(body, &raw)` with its error ignored. */
  function Raw(body: Body): map<Key, Json> {
    if body.Object? then RawMap(body.members) else map[]
  }

  predicate Successful(status: int) { 200 <= status <= 299 }

  /** The part of the raw object that no standard key names exactly. */
  function Extensions(body: Body): map<Key, Json> {
    map k | k in Raw(body) && !k.Exact? :: Raw(body)[k]
  }

  function TokenExpiry(expiresIn: int, now: int): Expiry {
    if expiresIn > 0 then At(now + WrapInt64(expiresIn * 1_000_000_000)) else Unknown
  }

  /** `tok` is what a response that grants a token yields. */
  ghost predicate Grants(status: int, body: Body, now: int, tok: OAuthToken) {
    var (f, ok) := Decode(body);
    && ok && 200 <= status <= 299 && f.Get(Error) == "" && f.Get(AccessToken) != ""
    && tok == OAuthToken(f.Get(AccessToken), f.Get(RefreshToken), TokenExpiry(f.expiresIn, now),
                         f.Get(IDToken), f.Get(IssuedTokenType), Extensions(body))
  }

  /** The response half of `postTokenRequest`, with its loop over the standard keys.
      `read` is `None` if reading the body fails. */
  method ParseResponse(status: int, read: Option<Body>, now: int) returns (p: Parsed)
    ensures p == Failed(Unreadable) <==> read.None?
    ensures p.Token? ==> read.Some? && Grants(status, read.value, now, p.tok)
    ensures p.Failed? && read.Some? ==> forall tok :: !Grants(status, read.value, now, tok)
    ensures read.Some? ==> (p == Failed(Unparsable) <==> 200 <= status <= 299 && !Decode(read.value).1)
    ensures read.Some? ==>
              var (f, ok) := Decode(read.value);
              && (p == Failed(MissingAccessToken) <==> 200 <= status <= 299 && ok && f.Get(Error) == "" && f.Get(AccessToken) == "")
              && (p.Failed? && p.error.Retrieve? ==>
                    p.error == if ok then Retrieve(f.Get(Error), f.Get(ErrorDescription), f.Get(ErrorURI)) else Retrieve("", "", ""))
  {
    if read.None? {
      return Failed(Unreadable);
    }
    var body := read.value;
    var (tr, ok) := Decode(body);
    if !ok {
      if !Successful(status) {
        return Failed(Retrieve("", "", ""));
      }
      return Failed(Unparsable);
    }
    var raw := Raw(body);
    var i := 0;
    while i < |STANDARD|
      invariant 0 <= i <= |STANDARD|
      invariant raw == map k | k in Raw(body) && k !in STANDARD[..i] :: Raw(body)[k]
    {
      raw := raw - {STANDARD[i]};
      i := i + 1;
    }
    StandardIsExact();
    assert STANDARD[..i] == STANDARD;
    if !Successful(status) || tr.Get(Error) != "" {
      return Failed(Retrieve(tr.Get(Error), tr.Get(ErrorDescription), tr.Get(ErrorURI)));
    }
    if tr.Get(AccessToken) == "" {
      return Failed(MissingAccessToken);
    }
    return Token(OAuthToken(tr.Get(AccessToken), tr.Get(RefreshToken), TokenExpiry(tr.expiresIn, now),
                            tr.Get(IDToken), tr.Get(IssuedTokenType), raw));
  }

  /** The deleted keys are the exact names of all nine fields. */
  lemma StandardIsExact()
    ensures forall k :: k in STANDARD <==> k.Exact?
  {
    forall k: Key | k.Exact?
      ensures k in STANDARD
    {
      var i := match k.f
        case AccessToken => 0 case TokenType => 1 case RefreshToken => 2 case ExpiresIn => 3 case IDToken => 4
        case IssuedTokenType => 5 case Error => 6 case ErrorDescription => 7 case ErrorURI => 8;
      assert STANDARD[i] == k;
    }
  }

  /** Member `m` is read as field `f`: it has its name, in whatever spelling, and is not null. */
  predicate ReadAs(m: (Key, Json), f: Field) {
    (m.0 == Exact(f) || (m.0.Spelled? && m.0.f == f)) && !m.1.Null?
  }

  /** A member of `ms`, by its index, that decides field `f`: the last one read as `f`. */
  ghost predicate Decides(ms: seq<(Key, Json)>, i: int, f: Field) {
    0 <= i < |ms| && ReadAs(ms[i], f) && forall j :: i < j < |ms| ==> !ReadAs(ms[j], f)
  }

  lemma DecidesInit(ms: seq<(Key, Json)>, f: Field)
    requires ms != []
    ensures var n := |ms| - 1;
            if ReadAs(ms[n], f) then forall i :: Decides(ms, i, f) <==> i == n
            else forall i :: Decides(ms, i, f) <==> Decides(ms[..n], i, f)
  {
    var n := |ms| - 1;
    var init := ms[..n];
    assert forall j :: 0 <= j < n ==> init[j] == ms[j];
    assert forall i, j :: Decides(ms, i, f) && i < j < n ==> !ReadAs(ms[j], f) && ms[j] == init[j];
  }

  /** Decoding folds the members in order; what it finds for a text field is the
      text of the member that decides it, and "" when none does. */
  lemma {:induction false} DecodedText(ms: seq<(Key, Json)>, f: Field)
    requires DecodeMembers(ms).1 && !f.ExpiresIn?
    ensures forall i :: Decides(ms, i, f) ==> ms[i].1 == Str(DecodeMembers(ms).0.Get(f))
    ensures (forall i :: !Decides(ms, i, f)) ==> DecodeMembers(ms).0.Get(f) == ""
  {
    if ms != [] {
      DecodedText(ms[..|ms| - 1], f);
      DecidesInit(ms, f);
      assert ReadAs(ms[|ms| - 1], f) ==> Decides(ms, |ms| - 1, f);
    }
  }

  /** And likewise for expires_in, which is 0 when no member decides it. */
  lemma {:induction false} DecodedNumber(ms: seq<(Key, Json)>)
    requires DecodeMembers(ms).1
    ensures forall i :: Decides(ms, i, ExpiresIn) ==> ms[i].1 == Int(DecodeMembers(ms).0.expiresIn)
    ensures (forall i :: !Decides(ms, i, ExpiresIn)) ==> DecodeMembers(ms).0.expiresIn == 0
  {
    if ms != [] {
      DecodedNumber(ms[..|ms| - 1]);
      DecidesInit(ms, ExpiresIn);
      assert ReadAs(ms[|ms| - 1], ExpiresIn) ==> Decides(ms, |ms| - 1, ExpiresIn);
    }
  }

  /** Decoding succeeds exactly when every member read as a field has its type: a
      64-bit integer for expires_in and a string for all others. */
  lemma {:induction false} DecodesExactly(ms: seq<(Key, Json)>)
    ensures DecodeMembers(ms).1 <==>
            forall i, f :: 0 <= i < |ms| && ReadAs(ms[i], f) ==>
              if f.ExpiresIn? then ms[i].1.Int? && -0x8000_0000_0000_0000 <= ms[i].1.n < 0x8000_0000_0000_0000 else ms[i].1.Str?
  {
    if ms != [] {
      var n := |ms| - 1;
      DecodesExactly(ms[..n]);
      assert forall i :: 0 <= i < n ==> ms[..n][i] == ms[i];
      var field := FieldOf(ms[n].0);
      if field.Some? && !ms[n].1.Null? {
        assert ReadAs(ms[n], field.value);
      }
    }
  }

  /** What is no object has no members, and only null is accepted in place of one. */
  lemma DecodesObjects(body: Body)
    ensures body.Garbage? || body.NotAnObject? ==> !Decode(body).1
    ensures body.NullDocument? ==> Decode(body) == (Fields(map[], 0), true)
    ensures body.Object? ==> Decode(body) == DecodeMembers(body.members)
    ensures !body.Object? ==> Raw(body) == map[]
  {
  }

  /** Member `i` is the last one named `k`. */
  ghost predicate LastNamed(ms: seq<(Key, Json)>, i: int, k: Key) {
    0 <= i < |ms| && ms[i].0 == k && forall j :: i < j < |ms| ==> ms[j].0 != k
  }

  /** The raw object holds for each name the value it is given last, and no other names. */
  lemma {:induction false} RawLast(ms: seq<(Key, Json)>, k: Key)
    ensures forall i :: LastNamed(ms, i, k) ==> k in RawMap(ms) && RawMap(ms)[k] == ms[i].1
    ensures (forall i :: 0 <= i < |ms| ==> ms[i].0 != k) ==> k !in RawMap(ms)
  {
    if ms != [] {
      var n := |ms| - 1;
      var init := ms[..n];
      RawLast(init, k);
      assert forall i :: 0 <= i < n ==> init[i] == ms[i];
      forall i | LastNamed(ms, i, k)
        ensures k in RawMap(ms) && RawMap(ms)[k] == ms[i].1
      {
        if i < n {
          assert LastNamed(init, i, k);
        }
      }
    }
  }

  /** Integers that fit 64 bits stay, and others lose a multiple of two to the power of 64. */
  lemma WrapsAround(x: int)
    ensures -0x8000_0000_0000_0000 <= WrapInt64(x) < 0x8000_0000_0000_0000
    ensures WrapInt64(x) == x - 0x1_0000_0000_0000_0000 * ((x + 0x8000_0000_0000_0000) / 0x1_0000_0000_0000_0000)
  {
  }

  /** The lifetime counts in seconds from now; a response without one, or with one that
      is not positive, has no known expiry. Lifetimes beyond 292 years wrap around. */
  lemma ExpiryInSeconds(n: int, now: int)
    ensures n <= 0 ==> TokenExpiry(n, now) == Unknown
    ensures 0 < n <= 9_223_372_036 ==> TokenExpiry(n, now) == At(now + n * 1_000_000_000)
    ensures n > 0 ==>
              TokenExpiry(n, now) == At(now + n * 1_000_000_000 -
                0x1_0000_0000_0000_0000 * ((n * 1_000_000_000 + 0x8000_0000_0000_0000) / 0x1_0000_0000_0000_0000))
  {
    WrapsAround(n * 1_000_000_000);
  }
}
