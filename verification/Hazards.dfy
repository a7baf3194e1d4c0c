/** Harmful steps do make a spent refresh token come back: after each of them some run
    without any other harmful step sends it again. Two runs one after the other already
    show when dropping an answer matters; the other ways need an interruption. */
module Hazards {
  import opened Types
  import opened TokenResponse
  import opened Runner
  import opened Protocol
  import opened Safety
  import opened Solo

  /** The call a run starts with is a refresh with `rt`. */
  predicate Refreshes(calls: seq<Call>, rt: string) {
    calls != [] && calls[0].RefreshCall? && calls[0].rt == rt
  }

  /** A run that gets past its first read and the lock refreshes exactly when what
      it finds has expired, and then with the token it finds. */
  lemma RefreshesWhatItFinds(stored: Option<Entry>, profile: Profile, wantID: bool, env: Env, rt: string)
    requires !env.loadFails && !env.lockFails && env.firstCheck <= env.secondCheck && rt != ""
    requires stored.Some? && stored.value.refresh == rt && !env.reloadFails ==>
               (EntryValid(stored.value, env.firstCheck) <==> EntryValid(stored.value, env.secondCheck))
    ensures Refreshes(RunAlone(stored, profile, wantID, env).calls, rt) <==>
            stored.Some? && stored.value.refresh == rt && !EntryValid(stored.value, env.firstCheck)
  {
    if stored.Some? && !EntryValid(stored.value, env.firstCheck) && stored.value.refresh != "" {
      var end := Critical(stored, profile, wantID, stored.value, env);
      assert BeforeLogin(stored, profile, wantID, env) == end;
    }
  }

  /** `e` has expired and can be refreshed, the run gets as far as refreshing it, and
      the issuer's reply uses its refresh token up. */
  predicate UsesUp(e: Entry, env: Env) {
    && !env.loadFails && !env.lockFails && env.firstCheck <= env.secondCheck
    && !EntryValid(e, env.firstCheck) && e.refresh != "" && Replaces(e.refresh, env.refresh)
  }

  /** The refresh is not stored: the reply was lost, its id_token is fatal, or Save fails. */
  predicate RefreshDropped(env: Env, wantID: bool) {
    env.refresh.Granted? ==> env.saveFails || (wantID && IDRefused(env.refresh.tok, env.refresh.verdict, ""))
  }

  /** Neither is anything that a login brings. */
  predicate LoginDropped(env: Env, wantID: bool) {
    env.login.Granted? ==> env.loginSaveFails || (wantID && IDRefused(env.login.tok, env.login.verdict, env.login.nonce))
  }

  /** A run that uses up a refresh token leaves the old entry in place exactly when it
      stores neither the refresh nor a login; else it stores another refresh token. */
  lemma StoresNothingOld(e: Entry, profile: Profile, wantID: bool, env: Env)
    requires UsesUp(e, env)
    requires env.login.Granted? ==> env.login.tok.refresh != e.refresh
    ensures var first := RunAlone(Some(e), profile, wantID, env);
            && (first.stored == Some(e) <==> RefreshDropped(env, wantID) && LoginDropped(env, wantID))
            && (first.stored != Some(e) ==> first.stored.Some? && first.stored.value.refresh != e.refresh)
            && Refreshes(first.calls, e.refresh) && SpendingCall(first.calls[0])
  {
    InvalidStaysInvalid(e, env.firstCheck, env.secondCheck);
    var before := BeforeLogin(Some(e), profile, wantID, env);
    assert before == SendRefresh(Some(e), profile, wantID, e.refresh, env);
    assert before.phase.NeedsLogin? <==> RefreshDropped(env, wantID);
  }

  /** After a run that used up the stored refresh token, a later run sends it again
      exactly when the first one dropped the refresh and had nothing from a login to store. */
  lemma ResentExactlyWhenDropped(e: Entry, profile: Profile, wantID: bool, env: Env, wantID': bool, env': Env)
    requires UsesUp(e, env)
    requires env.login.Granted? ==> env.login.tok.refresh != e.refresh
    requires env.secondCheck <= env'.firstCheck <= env'.secondCheck && !env'.loadFails && !env'.lockFails
    ensures var first := RunAlone(Some(e), profile, wantID, env);
            Refreshes(RunAlone(first.stored, profile, wantID', env').calls, e.refresh) <==>
            RefreshDropped(env, wantID) && LoginDropped(env, wantID)
  {
    var first := RunAlone(Some(e), profile, wantID, env);
    StoresNothingOld(e, profile, wantID, env);
    InvalidStaysInvalid(e, env.firstCheck, env'.firstCheck);
    InvalidStaysInvalid(e, env.firstCheck, env'.secondCheck);
    RefreshesWhatItFinds(first.stored, profile, wantID', env', e.refresh);
  }

  lemma {:induction false} ExecConcat(s: State, x: seq<Action>, y: seq<Action>)
    requires Possible(s, x) && Possible(Exec(s, x), y)
    ensures Possible(s, x + y) && Exec(s, x + y) == Exec(Exec(s, x), y)
    ensures Careful(s, x) && Careful(Exec(s, x), y) ==> Careful(s, x + y)
    decreases |x|
  {
    if x == [] {
      assert x + y == y;
    } else {
      assert (x + y)[1..] == x[1..] + y;
      ExecConcat(Next(s, x[0]), x[1..], y);
    }
  }

  lemma ReachesTransitive(s: State, t: State, u: State)
    requires Reaches(s, t) && Reaches(t, u)
    ensures Reaches(s, u)
  {
    var x :| Possible(s, x) && Exec(s, x) == t;
    var y :| Possible(t, y) && Exec(t, y) == u;
    ExecConcat(s, x, y);
  }

  lemma CarefullyTransitive(s: State, t: State, u: State)
    requires CarefullyReaches(s, t) && CarefullyReaches(t, u)
    ensures CarefullyReaches(s, u)
  {
    var x :| Possible(s, x) && Careful(s, x) && Exec(s, x) == t;
    var y :| Possible(t, y) && Careful(t, y) && Exec(t, y) == u;
    ExecConcat(s, x, y);
  }

  /** Whatever way the answer was dropped, the next process sends the spent token. */
  lemma DroppedAnswerIsResent(s: State, i: nat, j: nat, env: Env, env': Env) returns (t: State)
    requires Ready(s, i, env) && s.sent == [] && i != j && j < |s.procs| && s.procs[j].pc.Start?
    requires env.secondCheck <= env'.firstCheck <= env'.secondCheck && !env'.loadFails && !env'.lockFails
    requires s.stored.Some? && UsesUp(s.stored.value, env)
    requires RefreshDropped(env, s.procs[i].wantID) && LoginDropped(env, s.procs[i].wantID)
    requires env.login.Granted? ==> env.login.tok.refresh != s.stored.value.refresh
    ensures Reaches(s, t) && !SentOnce(t.sent)
  {
    var e := s.stored.value;
    var first := RunAlone(s.stored, s.profile, s.procs[i].wantID, env);
    StoresNothingOld(e, s.profile, s.procs[i].wantID, env);
    var u := SoloIsRunAlone(s, i, env);
    ResentExactlyWhenDropped(e, s.profile, s.procs[i].wantID, env, u.procs[j].wantID, env');
    t := SoloIsRunAlone(u, j, env');
    ReachesTransitive(s, u, t);
    assert u.sent[0] == Sent(i, first.calls[0]);
    assert t.sent[0] == u.sent[0];
    var k := |u.sent|;
    assert t.sent[k].call == RunAlone(u.stored, u.profile, u.procs[j].wantID, env').calls[0];
  }

  // ---------- Steps of one process that harm nobody ----------

  /** `e` is stored, has expired by `now`, and can be refreshed. */
  predicate Refreshable(s: State, i: nat, now: int) {
    && i < |s.procs| && s.procs[i].pc.Start? && s.lock == None && s.clock <= now
    && s.stored.Some? && !EntryValid(s.stored.value, now) && s.stored.value.refresh != ""
  }

  predicate Rotates(rt: string, reply: Reply) {
    reply.Granted? && reply.tok.refresh != "" && reply.tok.refresh != rt && !reply.verdict.Rejected?
  }

  lemma ToAwaitLock(s: State, i: nat, now: int) returns (t: State)
    requires Refreshable(s, i, now)
    ensures CarefullyReaches(s, t) && t.clock == now
    ensures MovedTo(s, t, i, AwaitLock(s.stored.value), s.stored, [], false)
  {
    ReachesItself(s);
    assert MovedTo(s, s, i, s.procs[i].pc, s.stored, [], false);
    var calls;
    t, calls := CarefulHop(s, s, i, Goes, [], false);
    t, calls := CarefulHop(s, t, i, Check(now), calls, false);
  }

  /** Whoever waits for a free lock gets it and re-reads. */
  lemma ToReloaded(s: State, s2: State, i: nat, e: Entry, fails: bool) returns (t: State)
    requires i < |s.procs| && CarefullyReaches(s, s2) && s.lock == None
    requires MovedTo(s, s2, i, AwaitLock(e), s.stored, [], false)
    ensures CarefullyReaches(s, t) && t.clock == s2.clock
    ensures MovedTo(s, t, i, Reloaded(e, if fails then None else s.stored), s.stored, [], true)
  {
    var calls;
    t, calls := CarefulHop(s, s2, i, Goes, [], false);
    t, calls := CarefulHop(s, t, i, OkUnless(fails), calls, true);
  }

  /** A process can get as far as having its Refresh on the wire. */
  lemma ToSending(s: State, i: nat, now: int) returns (t: State)
    requires Refreshable(s, i, now)
    ensures CarefullyReaches(s, t) && t.clock == now
    ensures MovedTo(s, t, i, Sending(s.stored.value.refresh), s.stored, [], true)
  {
    t := ToAwaitLock(s, i, now);
    t := ToReloaded(s, t, i, s.stored.value, false);
    var calls;
    t, calls := CarefulHop(s, t, i, Check(now), [], true);
  }

  // ---------- Every harmful step leads to a reuse ----------

  /** Some run without a harmful step ends with a token sent again after it was replaced. */
  ghost predicate CanReuse(s: State) {
    exists t :: CarefullyReaches(s, t) && !SentOnce(t.sent)
  }

  lemma ReuseAhead(s: State, t: State)
    requires CarefullyReaches(s, t) && CanReuse(t)
    ensures CanReuse(s)
  {
    var u :| CarefullyReaches(t, u) && !SentOnce(u.sent);
    CarefullyTransitive(s, t, u);
  }

  /** About to send a spent token: even a refused reply makes it a reuse. */
  lemma SendsAgain(s: State, i: nat, rt: string)
    requires i < |s.procs| && s.procs[i].pc == Sending(rt) && Logged(s.sent, rt)
    ensures CanReuse(s)
  {
    var a := Action(i, Answer(Denied));
    ReachesItself(s);
    ThenCarefully(s, s, a);
    var t := Next(s, a);
    var k :| 0 <= k < |s.sent| && SpendingCall(s.sent[k].call) && s.sent[k].call.rt == rt;
    assert t.sent[k] == s.sent[k] && t.sent[|s.sent|].call == RefreshCall(rt, Denied);
  }

  /** A moment from which on an entry with a refresh token is invalid. */
  function Expired(e: Entry, now: int): int {
    if e.expiry.At? && now < e.expiry.t then e.expiry.t else now
  }

  /** A spent token that is still stored is sent again by the next process. */
  lemma StoredIsReused(s: State, j: nat)
    requires j < |s.procs| && s.procs[j].pc.Start? && s.lock == None
    requires StoredToken(s) != "" && Logged(s.sent, StoredToken(s))
    ensures CanReuse(s)
  {
    var t := ToSending(s, j, Expired(s.stored.value, s.clock));
    assert t.sent == s.sent;
    SendsAgain(t, j, StoredToken(s));
    ReuseAhead(s, t);
  }

  /** The token a harmful step lets come back. */
  function Endangered(s: State, a: Action): string
    requires Enabled(s, a)
  {
    match s.procs[a.pid].pc
    case Sending(rt) => rt
    case Reloaded(stale, _) => stale.refresh
    case _ => StoredToken(s)
  }

  /** After a harmful step a token is sent again in some run without a further one,
      by the process that fell back to it, or else by the next process to start. */
  lemma HarmIsReused(s: State, a: Action, j: nat)
    requires Enabled(s, a) && Harmful(s, a) && Endangered(s, a) != ""
    requires s.procs[a.pid].pc.Sending? || Logged(s.sent, Endangered(s, a))
    requires s.lock == if s.exclusive then Some(a.pid) else None
    requires s.procs[a.pid].pc.Reloaded? || (j < |s.procs| && s.procs[j].pc.Start?)
    ensures CanReuse(Next(s, a))
  {
    var rt := Endangered(s, a);
    var t := Next(s, a);
    LoggedAfter(s, a, rt);
    if s.procs[a.pid].pc.Reloaded? {
      SendsAgain(t, a.pid, rt);
    } else if a.choice.Crash? {
      StoredIsReused(t, j);
    } else {
      var unlock := Action(a.pid, Goes);
      assert t.procs[a.pid].pc == Unlocking(None);
      ReachesItself(t);
      ThenCarefully(t, t, unlock);
      assert t.procs[j] == s.procs[j] && Next(t, unlock).procs[j] == s.procs[j];
      StoredIsReused(Next(t, unlock), j);
      ReuseAhead(t, Next(t, unlock));
    }
  }

  lemma LoggedAfter(s: State, a: Action, rt: string)
    requires Enabled(s, a) && Harmful(s, a) && rt == Endangered(s, a)
    requires s.procs[a.pid].pc.Sending? || Logged(s.sent, rt)
    ensures Logged(Next(s, a).sent, rt)
  {
    var t := Next(s, a);
    if s.procs[a.pid].pc.Sending? {
      assert t.sent[|s.sent|].call == CallOf(s, a);
    } else {
      assert t.sent == s.sent;
    }
  }

  /** What makes a step harmful is that a token can now be reused: at any point of any
      run without harmful steps, and with a process yet to start, the next step is
      harmful exactly when some continuation without another harmful step sends a
      refresh token again after the issuer has replaced it. */
  lemma HarmfulExactly(s: State, schedule: seq<Action>, a: Action, j: nat)
    requires UsableStart(s) && Possible(s, schedule) && Careful(s, schedule)
    requires var t := Exec(s, schedule);
             Enabled(t, a) && NewToken(t, a) && j < |t.procs| && t.procs[j].pc.Start?
    ensures var t := Exec(s, schedule); Harmful(t, a) <==> CanReuse(Next(t, a))
  {
    var t := Exec(s, schedule);
    UsableStartIsSound(s);
    RunInvAlways(s, schedule);
    if Harmful(t, a) {
      assert InCritical(t.procs[a.pid].pc) <==> t.lock == Some(a.pid);
      assert StaleToken(t.procs[a.pid].pc) in t.spent ==> Logged(t.sent, StaleToken(t.procs[a.pid].pc));
      HarmIsReused(t, a, j);
    } else {
      RunInvStep(t, a);
      if u :| CarefullyReaches(Next(t, a), u) && !SentOnce(u.sent) {
        var y :| Possible(Next(t, a), y) && Careful(Next(t, a), y) && Exec(Next(t, a), y) == u;
        RunInvAlways(Next(t, a), y);
      }
    }
  }

  // ---------- The four ways, from where they start ----------

  lemma ReuseFrom(s: State, t: State) returns (u: State)
    requires Reaches(s, t) && CanReuse(t)
    ensures Reaches(s, u) && !SentOnce(u.sent)
  {
    u :| CarefullyReaches(t, u) && !SentOnce(u.sent);
    assert Reaches(t, u);
    ReachesTransitive(s, t, u);
  }

  /** A process that dies between Refresh and Save leaves a spent token behind. */
  lemma CrashIsHarmful(s: State, i: nat, j: nat, now: int, reply: Reply) returns (t: State)
    requires Refreshable(s, i, now) && Refreshable(s, j, now) && i != j && s.sent == []
    requires Rotates(s.stored.value.refresh, reply)
    ensures Reaches(s, t) && !SentOnce(t.sent)
  {
    var u := ToSaving(s, i, now, reply);
    var crash := Action(i, Crash);
    assert u.procs[j] == s.procs[j];
    HarmIsReused(u, crash, j);
    Then(s, u, crash);
    t := ReuseFrom(s, Next(u, crash));
  }

  /** A process can get as far as having an answer that replaces the token it sent. */
  lemma ToSaving(s: State, i: nat, now: int, reply: Reply) returns (u: State)
    requires Refreshable(s, i, now) && s.sent == [] && Rotates(s.stored.value.refresh, reply)
    ensures Reaches(s, u) && |u.procs| == |s.procs| && u.procs[i].pc.Saving?
    ensures forall j :: 0 <= j < |s.procs| && j != i ==> u.procs[j] == s.procs[j]
    ensures u.stored == s.stored && u.lock == (if u.exclusive then Some(i) else None)
    ensures StoredToken(u) in u.spent && Logged(u.sent, StoredToken(u))
  {
    var rt := s.stored.value.refresh;
    var v := ToSending(s, i, now);
    var calls;
    u, calls := Hop(s, v, i, Answer(reply), [], true);
    assert u.sent[0].call == RefreshCall(rt, reply);
  }

  /** With a lock that excludes only threads of the same process, two processes
      refresh at once. */
  lemma LocalLockIsHarmful(s: State, i: nat, j: nat, now: int, reply: Reply, reply': Reply) returns (t: State)
    requires !s.exclusive && Refreshable(s, i, now) && Refreshable(s, j, now) && i != j && s.sent == []
    requires Rotates(s.stored.value.refresh, reply)
    ensures Reaches(s, t) && !SentOnce(t.sent)
  {
    var rt := s.stored.value.refresh;
    var u := ToSending(s, i, now);
    t := ToSending(u, j, now);
    CarefullyTransitive(s, u, t);
    t := BothAnswered(s, t, i, j, rt, reply, reply');
  }

  lemma BothAnswered(s: State, u: State, i: nat, j: nat, rt: string, reply: Reply, reply': Reply) returns (t: State)
    requires Reaches(s, u) && i != j && i < |u.procs| && j < |u.procs| && u.sent == [] && Rotates(rt, reply)
    requires u.procs[i].pc == Sending(rt) && u.procs[j].pc == Sending(rt)
    ensures Reaches(s, t) && !SentOnce(t.sent)
  {
    Then(s, u, Action(i, Answer(reply)));
    t := Next(u, Action(i, Answer(reply)));
    Then(s, t, Action(j, Answer(reply')));
    t := Next(t, Action(j, Answer(reply')));
    assert t.sent[0].call == RefreshCall(rt, reply) && t.sent[1].call == RefreshCall(rt, reply');
  }

  /** Process `i` waits for the lock with the entry it read, and process `j` has
      refreshed and replaced that entry meanwhile. */
  ghost predicate Overtaken(s: State, v: State, i: nat, e: Entry, now: int) {
    && Reaches(s, v) && s.exclusive && v.exclusive && v.lock == None && SpentLogged(v) && v.clock == now
    && i < |v.procs| && v.procs[i].pc == AwaitLock(e) && e.refresh != "" && Logged(v.sent, e.refresh)
  }

  lemma Overtaking(s: State, i: nat, j: nat, now: int, env: Env) returns (v: State)
    requires s.exclusive && Refreshable(s, i, now) && Refreshable(s, j, now) && i != j && s.sent == []
    requires env.firstCheck == env.secondCheck == now && UsesUp(s.stored.value, env)
    ensures Overtaken(s, v, i, s.stored.value, now) && |v.procs| == |s.procs|
    ensures forall l :: 0 <= l < |s.procs| && l != i && l != j ==> v.procs[l] == s.procs[l]
  {
    var e := s.stored.value;
    var u := ToAwaitLock(s, i, now);
    FirstCall(e, u.profile, u.procs[j].wantID, env);
    v := SoloIsRunAlone(u, j, env);
    assert v.sent[0].call == RunAlone(u.stored, u.profile, u.procs[j].wantID, env).calls[0];
    assert Reaches(s, u);
    ReachesTransitive(s, u, v);
    SpentLoggedReached(s, v);
  }

  lemma FirstCall(e: Entry, profile: Profile, wantID: bool, env: Env)
    requires UsesUp(e, env)
    ensures var calls := RunAlone(Some(e), profile, wantID, env).calls;
            calls != [] && calls[0] == RefreshCall(e.refresh, env.refresh)
  {
    InvalidStaysInvalid(e, env.firstCheck, env.secondCheck);
    assert BeforeLogin(Some(e), profile, wantID, env) == SendRefresh(Some(e), profile, wantID, e.refresh, env);
  }

  lemma SpentLoggedReached(s: State, t: State)
    requires Reaches(s, t) && SpentLogged(s)
    ensures SpentLogged(t)
  {
    var x :| Possible(s, x) && Exec(s, x) == t;
    SpentLoggedAlways(s, x);
  }

  lemma {:induction false} SpentLoggedAlways(s: State, schedule: seq<Action>)
    requires Possible(s, schedule) && SpentLogged(s)
    ensures SpentLogged(Exec(s, schedule))
    decreases |schedule|
  {
    if schedule != [] {
      SpentLoggedAlways(Next(s, schedule[0]), schedule[1..]);
    }
  }

  /** A process that was overtaken and whose re-read finds nothing, because it fails or
      because there is nothing, falls back to the token it read before. */
  lemma FallBack(s: State, v: State, i: nat, e: Entry, now: int, fails: bool) returns (t: State)
    requires Overtaken(s, v, i, e, now) && (fails || v.stored == None)
    ensures Reaches(s, t) && !SentOnce(t.sent)
  {
    ReachesItself(v);
    assert MovedTo(v, v, i, v.procs[i].pc, v.stored, [], false);
    var w := ToReloaded(v, v, i, e, fails);
    assert Reaches(v, w);
    SpentLoggedReached(v, w);
    assert w.sent == v.sent;
    ReachesTransitive(s, v, w);
    var a := Action(i, Check(now));
    HarmIsReused(w, a, i);
    Then(s, w, a);
    t := ReuseFrom(s, Next(w, a));
  }

  /** A logout between a process's first read and its locked re-read makes it fall
      back to a token that another process has meanwhile replaced. */
  lemma LogoutIsHarmful(s: State, i: nat, j: nat, l: nat, now: int, env: Env) returns (t: State)
    requires s.exclusive && Refreshable(s, i, now) && Refreshable(s, j, now) && i != j && s.sent == []
    requires l < |s.procs| && s.procs[l].pc.LoggingOut?
    requires env.firstCheck == env.secondCheck == now && UsesUp(s.stored.value, env)
    ensures Reaches(s, t) && !SentOnce(t.sent)
  {
    var v := Overtaking(s, i, j, now, env);
    Then(s, v, Action(l, Goes));
    var w := Next(v, Action(l, Goes));
    t := FallBack(s, w, i, s.stored.value, now, false);
  }

  /** So does a locked re-read that fails. */
  lemma FailedRereadIsHarmful(s: State, i: nat, j: nat, now: int, env: Env) returns (t: State)
    requires s.exclusive && Refreshable(s, i, now) && Refreshable(s, j, now) && i != j && s.sent == []
    requires env.firstCheck == env.secondCheck == now && UsesUp(s.stored.value, env)
    ensures Reaches(s, t) && !SentOnce(t.sent)
  {
    var v := Overtaking(s, i, j, now, env);
    t := FallBack(s, v, i, s.stored.value, now, true);
  }
}
