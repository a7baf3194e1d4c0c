/** What leaves the program: the selected token, the full JSON document, or a
    Kubernetes ExecCredential. */
module Output {
  import opened Types
  import opened TokenResponse

  datatype TokenType = AccessToken | IDToken | OtherType(name: string)

  datatype Document =
    | Text(text: string)
    | Members(members: map<Key, Json>)
    | ExecCredential(apiVersion: string, token: string, expiration: Option<string>)

  const DEFAULT_API_VERSION := "client.authentication.k8s.io/v1"

  /** The documents an output stream has received; `broken` streams refuse every write. */
  class Sink {
    var docs: seq<Document>
    const broken: bool

    constructor (broken: bool)
      ensures docs == [] && this.broken == broken
    {
      docs := [];
      this.broken := broken;
    }

    method Write(d: Document) returns (ok: bool)
      modifies this
      ensures ok == !broken
      ensures docs == if ok then old(docs) + [d] else old(docs)
    {
      ok := !broken;
      if ok {
        docs := docs + [d];
      }
    }
  }

  function Select(r: TokenSet, tt: TokenType): (string, bool) {
    match tt
    case IDToken => (r.id, r.id != "")
    case AccessToken => (r.access, r.access != "")
    case OtherType(_) => ("", false)
  }

  method WriteBare(w: Sink, r: TokenSet, tt: TokenType) returns (ok: bool)
    modifies w
    ensures ok <==> !w.broken && ((tt.AccessToken? && r.access != "") || (tt.IDToken? && r.id != ""))
    ensures w.docs == if ok then old(w.docs) + [Text(if tt.IDToken? then r.id else r.access)] else old(w.docs)
  {
    var (token, available) := Select(r, tt);
    if !available {
      return false;
    }
    ok := w.Write(Text(token));
  }

  /** `format` renders a point in time as RFC 3339 text. */
  function Rendered(e: Expiry, format: int -> string): Option<string> {
    match e
    case Unknown => None
    case At(t) => Some(format(t))
  }

  method WriteExecCredential(w: Sink, r: TokenSet, tt: TokenType, apiVersion: string, format: int -> string)
    returns (ok: bool)
    modifies w
    ensures ok <==> !w.broken && ((tt.AccessToken? && r.access != "") || (tt.IDToken? && r.id != ""))
    ensures w.docs == if ok then old(w.docs) + [ExecCredential(
                                                  if apiVersion == "" then "client.authentication.k8s.io/v1" else apiVersion,
                                                  if tt.IDToken? then r.id else r.access,
                                                  if r.expiry.At? then Some(format(r.expiry.t)) else None)]
                      else old(w.docs)
  {
    var (token, available) := Select(r, tt);
    if !available {
      return false;
    }
    var version := apiVersion;
    if version == "" {
      version := DEFAULT_API_VERSION;
    }
    ok := w.Write(ExecCredential(version, token, Rendered(r.expiry, format)));
  }

  /** The four members that only ever come from the result itself; "" means absent. */
  function OwnFields(r: TokenSet): map<Key, string> {
    map[Exact(Field.AccessToken) := r.access, Exact(Field.IDToken) := r.id,
        Exact(Field.RefreshToken) := r.refresh, Exact(Field.IssuedTokenType) := r.issuedTokenType]
  }

  /** What a document must hold for `r`: every extension wins its key, and
      otherwise exactly the non-empty own fields and a known expiry are present. */
  ghost predicate Describes(doc: map<Key, Json>, r: TokenSet, format: int -> string) {
    var own := OwnFields(r);
    && (forall k :: k in r.extra ==> k in doc && doc[k] == r.extra[k])
    && (forall k :: k in doc && k !in r.extra ==> k in own || k == ExpiryName)
    && (forall k :: k in own && k !in r.extra ==> (k in doc <==> own[k] != "") && (k in doc ==> doc[k] == Str(own[k])))
    && (ExpiryName !in r.extra ==>
          (ExpiryName in doc <==> r.expiry.At?) && (ExpiryName in doc ==> doc[ExpiryName] == Str(format(r.expiry.t))))
  }

  /** Member `k` is the extension of that name, else the given text, absent if empty. */
  ghost predicate Shows(doc: map<Key, Json>, extra: map<Key, Json>, k: Key, text: string) {
    if k in extra then k in doc && doc[k] == extra[k]
    else (k in doc <==> text != "") && (k in doc ==> doc[k] == Str(text))
  }

  /** The four credential members of a document. */
  ghost predicate ShowsTokens(doc: map<Key, Json>, extra: map<Key, Json>, access: string, id: string, refresh: string, issuedTokenType: string) {
    && Shows(doc, extra, Exact(Field.AccessToken), access) && Shows(doc, extra, Exact(Field.IDToken), id)
    && Shows(doc, extra, Exact(Field.RefreshToken), refresh) && Shows(doc, extra, Exact(Field.IssuedTokenType), issuedTokenType)
  }

  lemma DescribesTokens(doc: map<Key, Json>, r: TokenSet, format: int -> string)
    requires Describes(doc, r, format)
    ensures ShowsTokens(doc, r.extra, r.access, r.id, r.refresh, r.issuedTokenType)
    ensures forall k :: k in doc && k !in r.extra && k != ExpiryName ==>
              k in {Exact(Field.AccessToken), Exact(Field.IDToken), Exact(Field.RefreshToken), Exact(Field.IssuedTokenType)}
  {
    var own := OwnFields(r);
    assert own[Exact(Field.AccessToken)] == r.access && own[Exact(Field.IDToken)] == r.id;
    assert own[Exact(Field.RefreshToken)] == r.refresh && own[Exact(Field.IssuedTokenType)] == r.issuedTokenType;
  }

  /** The members `WriteAll` sets before it looks at the extensions. */
  method OwnMembers(r: TokenSet, format: int -> string) returns (m: map<Key, Json>)
    ensures Describes(m, r.(extra := map[]), format)
  {
    m := map[];
    if r.access != "" { m := m[Exact(Field.AccessToken) := Str(r.access)]; }
    if r.id != "" { m := m[Exact(Field.IDToken) := Str(r.id)]; }
    if r.refresh != "" { m := m[Exact(Field.RefreshToken) := Str(r.refresh)]; }
    if r.expiry.At? { m := m[ExpiryName := Str(format(r.expiry.t))]; }
    if r.issuedTokenType != "" { m := m[Exact(Field.IssuedTokenType) := Str(r.issuedTokenType)]; }
  }

  /** `WriteAll`: the result's own members first, then a loop over the extensions. */
  method WriteAll(w: Sink, r: TokenSet, format: int -> string) returns (ok: bool, ghost doc: map<Key, Json>)
    modifies w
    ensures ok == !w.broken
    ensures Describes(doc, r, format)
    ensures ShowsTokens(doc, r.extra, r.access, r.id, r.refresh, r.issuedTokenType)
    ensures w.docs == if ok then old(w.docs) + [Members(doc)] else old(w.docs)
  {
    var own := OwnMembers(r, format);
    var m := own;
    var todo := r.extra.Keys;
    while todo != {}
      invariant todo <= r.extra.Keys
      invariant m == own + (r.extra - todo)
      decreases todo
    {
      var k :| k in todo;
      m := m[k := r.extra[k]];
      todo := todo - {k};
    }
    assert r.extra - {} == r.extra;
    Overlay(own, r, format);
    DescribesTokens(m, r, format);
    doc := m;
    ok := w.Write(Members(m));
  }

  lemma Overlay(own: map<Key, Json>, r: TokenSet, format: int -> string)
    requires Describes(own, r.(extra := map[]), format)
    ensures Describes(own + r.extra, r, format)
  {
    assert OwnFields(r.(extra := map[])) == OwnFields(r);
  }

  /** The id_token of a document is the extension of that name if there is one, else
      the result's own. */
  lemma IDTokenMember(doc: map<Key, Json>, r: TokenSet, format: int -> string)
    requires Describes(doc, r, format)
    ensures var k := Exact(Field.IDToken);
            if k in r.extra then k in doc && doc[k] == r.extra[k]
            else (k in doc <==> r.id != "") && (k in doc ==> doc[k] == Str(r.id))
  {
    DescribesTokens(doc, r, format);
  }

  // ---------- From the token response to the document ----------

  /** The value the response gives member `k`, if any. */
  function Member(body: Body, k: Key): Option<Json> {
    if k in Raw(body) then Some(Raw(body)[k]) else None
  }

  /** The document printed for a granted response holds every extension of the
      response unchanged and nothing else but its own members and the expiry; its
      own members are the result's, never an extension's, so an id_token is there
      only if it passed verification. An extension named "expiry" takes that name. */
  lemma PassThrough(status: int, body: Body, now: int, tok: OAuthToken, verdict: Verdict, nonce: string,
                    doc: map<Key, Json>, format: int -> string)
    requires Grants(status, body, now, tok)
    requires Describes(doc, ToResult(tok, verdict, nonce), format)
    ensures forall k: Key :: !k.Exact? && Member(body, k).Some? ==> k in doc && doc[k] == Member(body, k).value
    ensures forall k :: k in doc && !k.Exact? && k != ExpiryName ==> Member(body, k) == Some(doc[k])
    ensures forall k :: k in doc && k.Exact? ==>
              k.f.AccessToken? || k.f.IDToken? || k.f.RefreshToken? || k.f.IssuedTokenType?
    ensures var f := Decode(body).0;
            var id := if verdict.Accepted? && (nonce == "" || verdict.nonce == nonce) then f.Get(Field.IDToken) else "";
            && ShowsTokens(doc, map[], f.Get(Field.AccessToken), id, f.Get(Field.RefreshToken), f.Get(Field.IssuedTokenType))
            && Exact(Field.AccessToken) in doc
    ensures Member(body, ExpiryName).None? ==>
              (ExpiryName in doc <==> tok.expiry.At?) && (ExpiryName in doc ==> doc[ExpiryName] == Str(format(tok.expiry.t)))
  {
    DescribesTokens(doc, ToResult(tok, verdict, nonce), format);
  }

  /** The exact reach of the guarantee about unverified id_tokens: after a rejected
      verdict the document shows a member read as the id_token, in any spelling,
      exactly when the response has one under a spelling other than the exact name.
      Names are matched to fields without regard to case, but removed from the
      extensions only when they match exactly. */
  lemma UnverifiedSpelling(status: int, body: Body, now: int, tok: OAuthToken, verdict: Verdict, nonce: string,
                           doc: map<Key, Json>, format: int -> string)
    requires Grants(status, body, now, tok) && !(verdict.Accepted? && (nonce == "" || verdict.nonce == nonce))
    requires Describes(doc, ToResult(tok, verdict, nonce), format)
    ensures (exists k :: k in doc && (k.Exact? || k.Spelled?) && k.f.IDToken?) <==>
            (exists text :: Member(body, Spelled(Field.IDToken, text)).Some?)
  {
    PassThrough(status, body, now, tok, verdict, nonce, doc, format);
    if k :| k in doc && (k.Exact? || k.Spelled?) && k.f.IDToken? {
      assert k == Spelled(Field.IDToken, k.text);
    }
    if text :| Member(body, Spelled(Field.IDToken, text)).Some? {
      assert Spelled(Field.IDToken, text) in doc;
    }
  }

  /** A whole credential from the endpoint to the printed document, and what a
      caller of `--format=json` may rely on. */
  method PrintResponse(w: Sink, status: int, read: Option<Body>, now: int, verdict: Verdict, nonce: string, format: int -> string)
    returns (p: Parsed, ok: bool)
    modifies w
    ensures p.Token? <==> read.Some? && exists tok :: Grants(status, read.value, now, tok)
    ensures ok <==> p.Token? && !w.broken
    ensures !ok ==> w.docs == old(w.docs)
    ensures ok ==> exists doc :: w.docs == old(w.docs) + [Members(doc)] &&
                     (forall k: Key :: !k.Exact? && Member(read.value, k).Some? ==> k in doc && doc[k] == Member(read.value, k).value) &&
                     var f := Decode(read.value).0;
                     var id := if verdict.Accepted? && (nonce == "" || verdict.nonce == nonce) then f.Get(Field.IDToken) else "";
                     ShowsTokens(doc, map[], f.Get(Field.AccessToken), id, f.Get(Field.RefreshToken), f.Get(Field.IssuedTokenType))
  {
    p := ParseResponse(status, read, now);
    if p.Failed? {
      return p, false;
    }
    var r := BuildResult(p.tok, verdict, nonce);
    ghost var doc;
    ok, doc := WriteAll(w, r, format);
    PassThrough(status, read.value, now, p.tok, verdict, nonce, doc, format);
  }
}
