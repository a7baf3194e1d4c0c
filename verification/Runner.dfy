/** One process: cache hit, else a refresh under the profile lock, else a login. */
module Runner {
  import opened Types
  import opened TokenResponse

  /** Subtracted from an entry's expiry before it is compared with the clock. */
  const SKEW: int := 30_000_000_000

  /** What a call to the token source comes back with. `Lost` is a failed call that
      the issuer nevertheless carried out; `rotated` says whether it replaced the
      refresh token. `nonce` is the one the login flow sent, "" if none. */
  datatype Reply = Denied | Lost(rotated: bool) | Granted(tok: OAuthToken, verdict: Verdict, nonce: string)

  datatype Call = RefreshCall(rt: string, reply: Reply) | LoginCall(reply: Reply)

  datatype Outcome =
    | Returned(res: TokenSet)
    | ReadFailed
    | LoginFailed
    | IDTokenInvalid
    | WriteFailed
    | LoggedOut
    | LogoutFailed

  /** Everything one run finds outside itself: which store operations fail, what
      the clock shows at the two validity checks, and the issuer's replies. */
  datatype Env = Env(
    loadFails: bool, firstCheck: int,
    lockFails: bool, reloadFails: bool, secondCheck: int,
    refresh: Reply, saveFails: bool,
    login: Reply, loginSaveFails: bool)

  predicate EntryValid(e: Entry, now: int) {
    if e.access == "" && e.id == "" then false
    else match e.expiry
         case Unknown => e.refresh == ""
         case At(t) => now < t - SKEW
  }

  function EntryResult(e: Entry): TokenSet {
    TokenSet(e.access, e.id, e.refresh, e.expiry, false, "", map[])
  }

  function Persisted(profile: Profile, res: TokenSet): Entry {
    Entry(profile, res.access, res.id, res.refresh, res.expiry)
  }

  /** `checkIDToken`: a failed verification is fatal only when the id_token was asked for. */
  predicate Fatal(res: TokenSet, wantID: bool) {
    res.idTokenError && wantID
  }

  /** A refresh reply without a refresh_token keeps the one that was sent. */
  function Refilled(res: TokenSet, rt: string): TokenSet {
    if res.refresh == "" then res.(refresh := rt) else res
  }

  /** The entry the critical section works on: the re-read one, else the stale one. */
  function TokenToSend(stale: Entry, reread: Option<Entry>): string {
    if reread.Some? then reread.value.refresh else stale.refresh
  }

  // ---------- The run as a function of the stored entry and the environment ----------

  /** How the part before login ends. */
  datatype Phase = Finished(res: TokenSet) | ReadError | NeedsLogin

  datatype PhaseEnd = PhaseEnd(phase: Phase, stored: Option<Entry>, calls: seq<Call>)

  datatype RunEnd = RunEnd(outcome: Outcome, stored: Option<Entry>, calls: seq<Call>)

  /** Sending `rt` and persisting the answer, inside the critical section. */
  function SendRefresh(stored: Option<Entry>, profile: Profile, wantID: bool, rt: string, env: Env): PhaseEnd {
    var calls := [RefreshCall(rt, env.refresh)];
    if !env.refresh.Granted? then PhaseEnd(NeedsLogin, stored, calls)
    else
      var res := ToResult(env.refresh.tok, env.refresh.verdict, "");
      if Fatal(res, wantID) || env.saveFails then PhaseEnd(NeedsLogin, stored, calls)
      else PhaseEnd(Finished(Refilled(res, rt)), Some(Persisted(profile, Refilled(res, rt))), calls)
  }

  /** The critical section of `tryRefresh`. */
  function Critical(stored: Option<Entry>, profile: Profile, wantID: bool, stale: Entry, env: Env): PhaseEnd {
    var reread := if env.reloadFails then None else stored;
    if reread.Some? && EntryValid(reread.value, env.secondCheck) then PhaseEnd(Finished(EntryResult(reread.value)), stored, [])
    else
      var rt := TokenToSend(stale, reread);
      if rt == "" then PhaseEnd(NeedsLogin, stored, []) else SendRefresh(stored, profile, wantID, rt, env)
  }

  /** Everything before login. */
  function BeforeLogin(stored: Option<Entry>, profile: Profile, wantID: bool, env: Env): PhaseEnd {
    if env.loadFails then PhaseEnd(ReadError, stored, [])
    else if stored.None? then PhaseEnd(NeedsLogin, stored, [])
    else if EntryValid(stored.value, env.firstCheck) then PhaseEnd(Finished(EntryResult(stored.value)), stored, [])
    else if stored.value.refresh == "" || env.lockFails then PhaseEnd(NeedsLogin, stored, [])
    else Critical(stored, profile, wantID, stored.value, env)
  }

  function LoginPhase(stored: Option<Entry>, profile: Profile, wantID: bool, env: Env): RunEnd {
    var calls := [LoginCall(env.login)];
    if !env.login.Granted? then RunEnd(LoginFailed, stored, calls)
    else
      var res := ToResult(env.login.tok, env.login.verdict, env.login.nonce);
      if Fatal(res, wantID) then RunEnd(IDTokenInvalid, stored, calls)
      else if env.loginSaveFails then RunEnd(WriteFailed, stored, calls)
      else RunEnd(Returned(res), Some(Persisted(profile, res)), calls)
  }

  function RunAlone(stored: Option<Entry>, profile: Profile, wantID: bool, env: Env): RunEnd {
    var before := BeforeLogin(stored, profile, wantID, env);
    match before.phase
    case Finished(res) => RunEnd(Returned(res), before.stored, before.calls)
    case ReadError => RunEnd(ReadFailed, before.stored, before.calls)
    case NeedsLogin =>
      var end := LoginPhase(before.stored, profile, wantID, env);
      RunEnd(end.outcome, end.stored, before.calls + end.calls)
  }

  // ---------- The program itself ----------

  /** A runner over one profile of a store nobody else touches meanwhile. */
  class Runner {
    const profile: Profile
    const wantID: bool
    var stored: Option<Entry>
    var calls: seq<Call>

    constructor (profile: Profile, wantID: bool, stored: Option<Entry>)
      ensures this.profile == profile && this.wantID == wantID && this.stored == stored && calls == []
    {
      this.profile := profile;
      this.wantID := wantID;
      this.stored := stored;
      calls := [];
    }

    method Persist(res: TokenSet, fails: bool) returns (ok: bool)
      modifies this`stored
      ensures ok == !fails
      ensures stored == if ok then Some(Entry(profile, res.access, res.id, res.refresh, res.expiry)) else old(stored)
    {
      ok := !fails;
      if ok {
        stored := Some(Entry(profile, res.access, res.id, res.refresh, res.expiry));
      }
    }

    /** The closure passed to WithLock assigns `result` and `failed`. */
    method TryRefresh(stale: Entry, env: Env) returns (result: Option<TokenSet>)
      modifies this
      ensures env.lockFails ==> result == None && stored == old(stored) && calls == old(calls)
      ensures !env.lockFails ==>
                var end := Critical(old(stored), profile, wantID, stale, env);
                && stored == end.stored && calls == old(calls) + end.calls
                && end.phase == if result.Some? then Finished(result.value) else NeedsLogin
    {
      result := None;
      if env.lockFails {
        return;
      }
      var reread := if env.reloadFails then None else stored;
      if reread.Some? {
        if EntryValid(reread.value, env.secondCheck) {
          result := Some(EntryResult(reread.value));
          return;
        }
      }
      var refreshToken := stale.refresh;
      if reread.Some? {
        refreshToken := reread.value.refresh;
      }
      if refreshToken == "" {
        return;
      }
      calls := calls + [RefreshCall(refreshToken, env.refresh)];
      if !env.refresh.Granted? {
        return;
      }
      var res := BuildResult(env.refresh.tok, env.refresh.verdict, "");
      if Fatal(res, wantID) {
        return;
      }
      if res.refresh == "" {
        res := res.(refresh := refreshToken);
      }
      var ok := Persist(res, env.saveFails);
      if ok {
        result := Some(res);
      }
    }

    method Login(env: Env) returns (outcome: Outcome)
      modifies this
      ensures var end := LoginPhase(old(stored), profile, wantID, env);
              outcome == end.outcome && stored == end.stored && calls == old(calls) + end.calls
    {
      calls := calls + [LoginCall(env.login)];
      if !env.login.Granted? {
        return LoginFailed;
      }
      var res := BuildResult(env.login.tok, env.login.verdict, env.login.nonce);
      if Fatal(res, wantID) {
        return IDTokenInvalid;
      }
      var ok := Persist(res, env.loginSaveFails);
      return if ok then Returned(res) else WriteFailed;
    }

    method Run(env: Env) returns (outcome: Outcome)
      modifies this
      ensures var end := RunAlone(old(stored), profile, wantID, env);
              outcome == end.outcome && stored == end.stored && calls == old(calls) + end.calls
    {
      if env.loadFails {
        return ReadFailed;
      }
      var entry := stored;
      if entry.Some? && EntryValid(entry.value, env.firstCheck) {
        return Returned(EntryResult(entry.value));
      }
      if entry.Some? && entry.value.refresh != "" {
        var result := TryRefresh(entry.value, env);
        if result.Some? {
          return Returned(result.value);
        }
      }
      label beforeLogin:
      outcome := Login(env);
      assert calls == old(calls) + BeforeLogin(old(stored), profile, wantID, env).calls +
                      LoginPhase(old@beforeLogin(stored), profile, wantID, env).calls;
    }

    method Logout(fails: bool) returns (outcome: Outcome)
      modifies this`stored
      ensures outcome == if fails then LogoutFailed else LoggedOut
      ensures stored == if fails then old(stored) else None
    {
      if fails {
        return LogoutFailed;
      }
      stored := None;
      return LoggedOut;
    }
  }

  // ---------- What a run promises ----------

  /** As time passes an invalid entry never becomes valid again. */
  lemma InvalidStaysInvalid(e: Entry, now: int, later: int)
    requires now <= later && !EntryValid(e, now)
    ensures !EntryValid(e, later)
  {
  }

  predicate Before(now: int, e: Expiry) { e.At? ==> now < e.t }

  /** `e` has a token to offer, cannot be refreshed if its expiry is unknown, and has
      not expired within the next 30 seconds. */
  ghost predicate Lasts(e: Entry, now: int) {
    && (e.access != "" || e.id != "")
    && (e.expiry.Unknown? ==> e.refresh == "")
    && (forall later :: now <= later <= now + 30_000_000_000 ==> Before(later, e.expiry))
  }

  lemma ValidExactly(e: Entry, now: int)
    ensures EntryValid(e, now) <==> Lasts(e, now)
  {
    if Lasts(e, now) {
      assert Before(now + 30_000_000_000, e.expiry);
    }
  }

  /** The reply has an id_token that was not accepted, or not with the nonce sent. */
  predicate IDRefused(tok: OAuthToken, verdict: Verdict, nonce: string) {
    tok.id != "" && !(verdict.Accepted? && (nonce == "" || verdict.nonce == nonce))
  }

  /** `res` holds what the reply brought, and the refresh token `rt` if it brought none. */
  predicate Holds(res: TokenSet, tok: OAuthToken, verdict: Verdict, nonce: string, rt: string) {
    && res.access == tok.access
    && res.id == (if IDRefused(tok, verdict, nonce) then "" else tok.id)
    && res.refresh == (if tok.refresh == "" then rt else tok.refresh)
    && res.expiry == tok.expiry && res.issuedTokenType == tok.issuedTokenType && res.extra == tok.extra
  }

  /** The entry has the tokens of `res`. */
  predicate SameAs(e: Entry, res: TokenSet) {
    e.access == res.access && e.id == res.id && e.refresh == res.refresh && e.expiry == res.expiry
  }

  predicate StoredFor(stored: Option<Entry>, profile: Profile, res: TokenSet) {
    stored.Some? && stored.value.profile == profile && SameAs(stored.value, res)
  }

  /** How a run that asks for a login ends: a failed login or, only where the id_token
      was asked for, a refused id_token changes nothing; nor does a failed Save; and
      otherwise the login's tokens are stored and returned. */
  predicate EndsAsLogin(end: RunEnd, stored: Option<Entry>, profile: Profile, wantID: bool, env: Env) {
    match env.login
    case Granted(tok, verdict, nonce) =>
      if wantID && IDRefused(tok, verdict, nonce) then end.outcome == IDTokenInvalid && end.stored == stored
      else if env.loginSaveFails then end.outcome == WriteFailed && end.stored == stored
      else end.outcome.Returned? && Holds(end.outcome.res, tok, verdict, nonce, "") && StoredFor(end.stored, profile, end.outcome.res)
    case _ => end.outcome == LoginFailed && end.stored == stored
  }

  /** A run answers from the cache exactly when what it read lasts; it then returns
      that entry's tokens and leaves everything as it is. */
  lemma CachedTokensLast(stored: Option<Entry>, profile: Profile, wantID: bool, env: Env)
    requires !env.loadFails && env.firstCheck <= env.secondCheck
    ensures var end := RunAlone(stored, profile, wantID, env);
            && (end.calls == [] <==> stored.Some? && Lasts(stored.value, env.firstCheck))
            && (end.calls == [] ==>
                  && end.outcome.Returned? && SameAs(stored.value, end.outcome.res) && end.stored == stored
                  && !end.outcome.res.idTokenError && end.outcome.res.issuedTokenType == "" && end.outcome.res.extra == map[])
  {
    if stored.Some? {
      ValidExactly(stored.value, env.firstCheck);
      if !EntryValid(stored.value, env.firstCheck) {
        InvalidStaysInvalid(stored.value, env.firstCheck, env.secondCheck);
      }
    }
  }

  /** Without an entry a run logs in; if the first read fails it does nothing at all. */
  lemma MissLogsIn(stored: Option<Entry>, profile: Profile, wantID: bool, env: Env)
    requires env.loadFails || stored.None?
    ensures var end := RunAlone(stored, profile, wantID, env);
            if env.loadFails then end == RunEnd(ReadFailed, stored, [])
            else end.calls == [LoginCall(env.login)] && EndsAsLogin(end, stored, profile, wantID, env)
  {
    assert [] + [LoginCall(env.login)] == [LoginCall(env.login)];
  }

  /** The run gets as far as asking for a refresh. */
  predicate AsksForRefresh(e: Entry, env: Env) { e.refresh != "" && !env.lockFails }

  /** Its refresh is granted, acceptable and saved. */
  predicate RefreshKept(env: Env, wantID: bool) {
    env.refresh.Granted? && !env.saveFails && !(wantID && IDRefused(env.refresh.tok, env.refresh.verdict, ""))
  }

  /** The critical section, whatever was read before the lock: it hands out what it
      re-reads if that lasts, and else sends the re-read refresh token, or the stale one
      if there is nothing to re-read, and keeps what an acceptable, saved refresh brings. */
  lemma CriticalDecides(stored: Option<Entry>, profile: Profile, wantID: bool, stale: Entry, env: Env)
    ensures var end := Critical(stored, profile, wantID, stale, env);
            var found := !env.reloadFails && stored.Some?;
            var rt := if found then stored.value.refresh else stale.refresh;
            if found && Lasts(stored.value, env.secondCheck) then
              end.phase.Finished? && SameAs(stored.value, end.phase.res) && end.stored == stored && end.calls == []
            else if rt == "" then end == PhaseEnd(NeedsLogin, stored, [])
            else if RefreshKept(env, wantID) then
              && end.phase.Finished? && end.calls == [RefreshCall(rt, env.refresh)]
              && Holds(end.phase.res, env.refresh.tok, env.refresh.verdict, "", rt) && StoredFor(end.stored, profile, end.phase.res)
            else end == PhaseEnd(NeedsLogin, stored, [RefreshCall(rt, env.refresh)])
  {
    if stored.Some? {
      ValidExactly(stored.value, env.secondCheck);
    }
  }

  /** With an entry that does not last, a run sends that entry's refresh token if it
      has one and gets the lock, and is done if the refresh is kept: its tokens are
      stored and returned. In every other case it logs in. */
  lemma ExpiredIsRefreshed(e: Entry, profile: Profile, wantID: bool, env: Env)
    requires !env.loadFails && env.firstCheck <= env.secondCheck && !Lasts(e, env.firstCheck)
    ensures var end := RunAlone(Some(e), profile, wantID, env);
            var asked := if AsksForRefresh(e, env) then [RefreshCall(e.refresh, env.refresh)] else [];
            if AsksForRefresh(e, env) && RefreshKept(env, wantID) then
              && end.calls == asked && end.outcome.Returned?
              && Holds(end.outcome.res, env.refresh.tok, env.refresh.verdict, "", e.refresh)
              && StoredFor(end.stored, profile, end.outcome.res)
            else end.calls == asked + [LoginCall(env.login)] && EndsAsLogin(end, Some(e), profile, wantID, env)
  {
    ValidExactly(e, env.firstCheck);
    InvalidStaysInvalid(e, env.firstCheck, env.secondCheck);
    if AsksForRefresh(e, env) {
      assert BeforeLogin(Some(e), profile, wantID, env) == SendRefresh(Some(e), profile, wantID, e.refresh, env);
    }
  }

  /** What a successful run hands out is what the next run finds: if the run made
      any call, a later run that reads a still valid entry returns the same tokens
      without talking to the issuer, whatever its own environment. */
  lemma NextRunHits(stored: Option<Entry>, profile: Profile, wantID: bool, env: Env, wantID': bool, env': Env)
    requires var end := RunAlone(stored, profile, wantID, env);
             end.outcome.Returned? && end.stored.Some? && EntryValid(end.stored.value, env'.firstCheck)
    requires !env'.loadFails
    ensures var first := RunAlone(stored, profile, wantID, env);
            var next := RunAlone(first.stored, profile, wantID', env');
            && next.outcome.Returned? && next.calls == [] && next.stored == first.stored
            && next.outcome.res.access == first.outcome.res.access && next.outcome.res.id == first.outcome.res.id
            && next.outcome.res.refresh == first.outcome.res.refresh && next.outcome.res.expiry == first.outcome.res.expiry
  {
  }

  /** Each run asks for at most one refresh and at most one login, in that order;
      it fails only after trying to log in, unless the first read failed; and only
      a successful call changes what is stored. */
  lemma RunIsBounded(stored: Option<Entry>, profile: Profile, wantID: bool, env: Env)
    ensures var end := RunAlone(stored, profile, wantID, env);
            && |end.calls| <= 2
            && (forall i :: 0 <= i < |end.calls| && end.calls[i].LoginCall? ==> i == |end.calls| - 1)
            && (|end.calls| == 2 ==> end.calls[0].RefreshCall?)
            && (end.outcome.ReadFailed? <==> env.loadFails)
            && (!end.outcome.Returned? && !env.loadFails ==> |end.calls| > 0 && end.calls[|end.calls| - 1].LoginCall?)
            && (end.stored != stored ==> end.outcome.Returned? && end.calls != [] && end.calls[|end.calls| - 1].reply.Granted?)
  {
  }
}
