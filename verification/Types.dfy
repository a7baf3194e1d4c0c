/** The values every component shares: cache entries, results and JSON values. */
module Types {

  datatype Option<+T> = None | Some(value: T)

  /** A JSON value. An object keeps its members in document order, duplicates included. */
  datatype Json =
    | Null
    | Bool(b: bool)
    | Int(n: int)
    | Frac(r: real)
    | Str(s: string)
    | Arr(items: seq<Json>)
    | Obj(members: seq<(string, Json)>)

  /** A point in time in nanoseconds; `Unknown` is Go's zero time. */
  datatype Expiry = Unknown | At(t: int)

  /** The nine standard members of a token-endpoint response. */
  datatype Field =
    | AccessToken | TokenType | RefreshToken | ExpiresIn | IDToken | IssuedTokenType
    | Error | ErrorDescription | ErrorURI

  /** A top-level member name, sorted by how the program treats it. Decoding matches
      names to fields without regard to case, so a standard field has its exact name
      and any number of other spellings ("ID_Token"). "expiry" is not standard, but
      the printed document has a member of that name. */
  datatype Key = Exact(f: Field) | Spelled(f: Field, text: string) | ExpiryName | Other(name: string)

  datatype Profile = Profile(issuer: string, clientID: string)

  /** The cache record of one profile; "" stands for an absent token. */
  datatype Entry = Entry(profile: Profile, access: string, id: string, refresh: string, expiry: Expiry)

  /** What one successful run produces. */
  datatype TokenSet = TokenSet(
    access: string,
    id: string,
    refresh: string,
    expiry: Expiry,
    idTokenError: bool,
    issuedTokenType: string,
    extra: map<Key, Json>)
}
