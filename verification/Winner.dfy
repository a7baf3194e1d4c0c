/** Concurrent invocations on one expired entry converge on a single refresh. */
module Winner {
  import opened Types
  import opened TokenResponse
  import opened Runner
  import opened Protocol
  import opened Safety
  import Progress

  /** N processes about to run on the same expired, refreshable entry. */
  predicate ExpiredStart(s: State, e: Entry) {
    && Initial(s) && s.exclusive && |s.procs| > 0
    && (forall i :: 0 <= i < |s.procs| ==> s.procs[i].pc.Start?)
    && s.stored == Some(e) && e.refresh != "" && !EntryValid(e, s.clock)
  }

  /** What refreshing `e` with `reply` leaves in the cache. */
  function Refreshed(e: Entry, reply: Reply): TokenSet
    requires reply.Granted?
  {
    Refilled(ToResult(reply.tok, reply.verdict, ""), e.refresh)
  }

  /** Every operation goes through, nobody times out on the lock, no clock reading
      is later than `horizon`, and what a refresh stores is still valid then. */
  predicate Smooth(s: State, a: Action, e: Entry, horizon: int)
    requires Enabled(s, a)
  {
    && !a.choice.Fails? && !a.choice.Crash?
    && (a.choice.Check? ==> a.choice.now <= horizon)
    && (a.choice.Answer? && s.procs[a.pid].pc.Sending? ==>
          && a.choice.reply.Granted? && !Fatal(Refreshed(e, a.choice.reply), s.procs[a.pid].wantID)
          && EntryValid(Persisted(s.profile, Refreshed(e, a.choice.reply)), horizon))
  }

  predicate SmoothRun(s: State, schedule: seq<Action>, e: Entry, horizon: int)
    requires Possible(s, schedule)
    decreases |schedule|
  {
    schedule == [] || (Smooth(s, schedule[0], e, horizon) && SmoothRun(Next(s, schedule[0]), schedule[1..], e, horizon))
  }

  predicate SameTokens(r: TokenSet, q: TokenSet) {
    r.access == q.access && r.id == q.id && r.refresh == q.refresh && r.expiry == q.expiry
  }

  // ---------- The three stages of such a run ----------

  /** Nobody has heard from the issuer yet. */
  predicate BeforeReply(pc: Pc, e: Entry) {
    pc == Start || pc == Loaded(e) || pc == AwaitLock(e) || pc == Locked(e) ||
    pc == Reloaded(e, Some(e)) || pc == Sending(e.refresh)
  }

  /** The winner has its answer and has not stored it. */
  predicate BeforeSave(pc: Pc, e: Entry, res: TokenSet, winner: bool) {
    if winner then pc == Saving(e.refresh, res) else pc == Start || pc == Loaded(e) || pc == AwaitLock(e)
  }

  /** The answer is stored; whoever looks finds it. */
  predicate AfterSave(pc: Pc, e: Entry, e': Entry, res: TokenSet) {
    || pc == Start || pc == Loaded(e) || pc == Loaded(e') || pc == AwaitLock(e) || pc == Locked(e)
    || pc == Reloaded(e, Some(e'))
    || (pc.Unlocking? && pc.result.Some? && SameTokens(pc.result.value, res))
    || (pc.Done? && pc.outcome.Returned? && SameTokens(pc.outcome.res, res))
  }

  ghost predicate OneRefresh(s: State, e: Entry) {
    && |s.sent| == 1 && s.sent[0].call.RefreshCall? && s.sent[0].call.rt == e.refresh && s.sent[0].call.reply.Granted?
  }

  ghost predicate Stage1(s: State, e: Entry) {
    && s.sent == [] && s.stored == Some(e)
    && forall i {:trigger s.procs[i]} :: 0 <= i < |s.procs| ==> BeforeReply(s.procs[i].pc, e)
  }

  ghost predicate Stage2(s: State, e: Entry, horizon: int) {
    && OneRefresh(s, e) && s.stored == Some(e) && s.lock.Some? && s.lock.value < |s.procs|
    && var res := Refreshed(e, s.sent[0].call.reply);
       && EntryValid(Persisted(s.profile, res), horizon)
       && forall i {:trigger s.procs[i]} :: 0 <= i < |s.procs| ==> BeforeSave(s.procs[i].pc, e, res, s.lock == Some(i))
  }

  ghost predicate Stage3(s: State, e: Entry, horizon: int) {
    && OneRefresh(s, e)
    && var res := Refreshed(e, s.sent[0].call.reply);
       var e' := Persisted(s.profile, res);
       && s.stored == Some(e') && EntryValid(e', horizon)
       && forall i {:trigger s.procs[i]} :: 0 <= i < |s.procs| ==> AfterSave(s.procs[i].pc, e, e', res)
  }

  ghost predicate WinnerInv(s: State, e: Entry, horizon: int) {
    && s.exclusive && LockInv(s) && |s.procs| > 0 && e.refresh != "" && !EntryValid(e, s.clock)
    && (Stage1(s, e) || Stage2(s, e, horizon) || Stage3(s, e, horizon))
  }

  lemma FromStage1(s: State, a: Action, e: Entry, horizon: int)
    requires WinnerInv(s, e, horizon) && Stage1(s, e) && Enabled(s, a) && Smooth(s, a, e, horizon)
    ensures var t := Next(s, a); Stage1(t, e) || Stage2(t, e, horizon)
  {
    var t := Next(s, a);
    assert BeforeReply(s.procs[a.pid].pc, e);
    assert forall i {:trigger t.procs[i]} :: 0 <= i < |t.procs| && i != a.pid ==> t.procs[i] == s.procs[i];
    if s.procs[a.pid].pc.Sending? {
      assert InCritical(s.procs[a.pid].pc) <==> s.lock == Some(a.pid);
      assert OneRefresh(t, e);
      assert t.procs[a.pid].pc == Saving(e.refresh, Refreshed(e, a.choice.reply));
      assert forall i {:trigger t.procs[i]} :: 0 <= i < |t.procs| && i != a.pid ==> !InCritical(s.procs[i].pc) && BeforeReply(s.procs[i].pc, e);
    } else {
      assert BeforeReply(t.procs[a.pid].pc, e);
    }
  }

  lemma FromStage2(s: State, a: Action, e: Entry, horizon: int)
    requires WinnerInv(s, e, horizon) && Stage2(s, e, horizon) && Enabled(s, a) && Smooth(s, a, e, horizon)
    ensures var t := Next(s, a); Stage2(t, e, horizon) || Stage3(t, e, horizon)
  {
    var t := Next(s, a);
    var res := Refreshed(e, s.sent[0].call.reply);
    assert BeforeSave(s.procs[a.pid].pc, e, res, s.lock == Some(a.pid));
    assert forall i {:trigger t.procs[i]} :: 0 <= i < |t.procs| && i != a.pid ==> t.procs[i] == s.procs[i];
  }

  lemma FromStage3(s: State, a: Action, e: Entry, horizon: int)
    requires WinnerInv(s, e, horizon) && Stage3(s, e, horizon) && Enabled(s, a) && Smooth(s, a, e, horizon)
    ensures Stage3(Next(s, a), e, horizon)
  {
    var t := Next(s, a);
    var res := Refreshed(e, s.sent[0].call.reply);
    var e' := Persisted(s.profile, res);
    assert AfterSave(s.procs[a.pid].pc, e, e', res);
    if a.choice.Check? {
      assert EntryValid(e', a.choice.now) by {
        if !EntryValid(e', a.choice.now) {
          InvalidStaysInvalid(e', a.choice.now, horizon);
        }
      }
      InvalidStaysInvalid(e, s.clock, a.choice.now);
    }
    assert AfterSave(t.procs[a.pid].pc, e, e', res);
    assert forall i {:trigger t.procs[i]} :: 0 <= i < |t.procs| && i != a.pid ==> t.procs[i] == s.procs[i];
  }

  lemma {:induction false} WinnerInvAlways(s: State, schedule: seq<Action>, e: Entry, horizon: int)
    requires WinnerInv(s, e, horizon) && Possible(s, schedule) && SmoothRun(s, schedule, e, horizon)
    ensures WinnerInv(Exec(s, schedule), e, horizon)
    decreases |schedule|
  {
    if schedule != [] {
      var a := schedule[0];
      WinnerInvStep(s, a, e, horizon);
      WinnerInvAlways(Next(s, a), schedule[1..], e, horizon);
    }
  }

  lemma WinnerInvStep(s: State, a: Action, e: Entry, horizon: int)
    requires WinnerInv(s, e, horizon) && Enabled(s, a) && Smooth(s, a, e, horizon)
    ensures WinnerInv(Next(s, a), e, horizon)
  {
    LockStep(s, a);
    InvalidStaysInvalid(e, s.clock, Next(s, a).clock);
    if Stage1(s, e) {
      FromStage1(s, a, e, horizon);
    } else if Stage2(s, e, horizon) {
      FromStage2(s, a, e, horizon);
    } else {
      FromStage3(s, a, e, horizon);
    }
  }

  /** The safety half: the issuer sees at most one call, a refresh with the stored
      token; nobody is sent to a login; and every process that is done, and there is
      one only after that call, returns the tokens of its reply, which are then in the cache. */
  lemma AtMostOneWinner(s: State, schedule: seq<Action>, e: Entry, horizon: int)
    requires ExpiredStart(s, e) && Possible(s, schedule) && SmoothRun(s, schedule, e, horizon)
    ensures var t := Exec(s, schedule);
            && (t.sent == [] || OneRefresh(t, e))
            && forall i {:trigger t.procs[i]} :: 0 <= i < |t.procs| ==>
                 && !t.procs[i].pc.LoggingIn?
                 && (t.procs[i].pc.Done? ==> HasWon(s, t, i, e))
  {
    assert forall i {:trigger s.procs[i]} :: 0 <= i < |s.procs| ==> s.procs[i].pc.Start?;
    WinnerInvAlways(s, schedule, e, horizon);
    SameProfile(s, schedule);
  }

  /** Process `i` has returned the tokens of the one refresh, which are in the cache. */
  ghost predicate HasWon(s: State, t: State, i: nat, e: Entry)
    requires i < |t.procs|
  {
    && OneRefresh(t, e) && t.procs[i].pc.Done? && t.procs[i].pc.outcome.Returned?
    && t.stored == Some(Persisted(s.profile, Refreshed(e, t.sent[0].call.reply)))
    && SameTokens(t.procs[i].pc.outcome.res, Refreshed(e, t.sent[0].call.reply))
    && var reply, res := t.sent[0].call.reply, t.procs[i].pc.outcome.res;
       && res.access == reply.tok.access && res.expiry == reply.tok.expiry
       && res.refresh == (if reply.tok.refresh == "" then e.refresh else reply.tok.refresh)
       && res.id == (if reply.verdict.Accepted? then reply.tok.id else "")
       && t.stored == Some(Entry(s.profile, res.access, res.id, res.refresh, res.expiry))
  }

  /** Exactly one call was made, a refresh of `e`, and every process has returned its tokens. */
  ghost predicate AllWon(s: State, t: State, e: Entry) {
    && OneRefresh(t, e) && |t.procs| == |s.procs|
    && t.stored == Some(Persisted(s.profile, Refreshed(e, t.sent[0].call.reply)))
    && forall i {:trigger t.procs[i]} :: 0 <= i < |t.procs| ==> HasWon(s, t, i, e)
  }

  // ---------- Everybody returns ----------

  /** A reply that satisfies `Smooth`. */
  function GoodReply(horizon: int): Reply {
    Granted(OAuthToken("access", "", At(horizon + SKEW + 1), "", "", map[]), Rejected, "")
  }

  /** While some process is not done, some process has a smooth step. */
  lemma CanGo(s: State, e: Entry, horizon: int, i: nat)
    requires WinnerInv(s, e, horizon) && s.clock <= horizon && i < |s.procs| && !s.procs[i].pc.Done?
    ensures exists a :: Enabled(s, a) && Smooth(s, a, e, horizon)
  {
    if s.procs[i].pc.AwaitLock? && s.lock.Some? {
      assert InCritical(s.procs[s.lock.value].pc);
      HasSmoothStep(s, e, horizon, s.lock.value);
    } else {
      HasSmoothStep(s, e, horizon, i);
    }
  }

  lemma HasSmoothStep(s: State, e: Entry, horizon: int, i: nat)
    requires WinnerInv(s, e, horizon) && s.clock <= horizon && i < |s.procs| && !s.procs[i].pc.Done?
    requires s.procs[i].pc.AwaitLock? ==> s.lock == None
    ensures exists a :: Enabled(s, a) && Smooth(s, a, e, horizon)
  {
    var pc := s.procs[i].pc;
    var c := if pc.Loaded? || pc.Reloaded? then Check(s.clock) else if pc.Sending? then Answer(GoodReply(horizon)) else Goes;
    StagePc(s, e, horizon, i);
    assert Enabled(s, Action(i, c)) && Smooth(s, Action(i, c), e, horizon);
  }

  /** No process is in a state outside the three stages. */
  lemma StagePc(s: State, e: Entry, horizon: int, i: nat)
    requires WinnerInv(s, e, horizon) && i < |s.procs|
    ensures var pc := s.procs[i].pc; !pc.LoggingIn? && !pc.LoginSaving? && !pc.LoggingOut? && !pc.Crashed?
  {
    assert Stage1(s, e) ==> BeforeReply(s.procs[i].pc, e);
  }

  lemma {:induction false} ClockBound(s: State, schedule: seq<Action>, e: Entry, horizon: int)
    requires Possible(s, schedule) && SmoothRun(s, schedule, e, horizon) && s.clock <= horizon
    ensures Exec(s, schedule).clock <= horizon && |Exec(s, schedule).procs| == |s.procs|
    decreases |schedule|
  {
    if schedule != [] {
      ClockBound(Next(s, schedule[0]), schedule[1..], e, horizon);
    }
  }

  /** N processes that find the same expired entry, however they interleave: when
      none of them can take another smooth step, exactly one call has been made, a
      refresh with the stored token, every one of the N processes has returned the
      tokens of its reply, and those are in the cache. */
  lemma OneWinner(s: State, schedule: seq<Action>, e: Entry, horizon: int)
    requires ExpiredStart(s, e) && s.clock <= horizon && Possible(s, schedule) && SmoothRun(s, schedule, e, horizon)
    requires forall a :: Enabled(Exec(s, schedule), a) ==> !Smooth(Exec(s, schedule), a, e, horizon)
    ensures AllWon(s, Exec(s, schedule), e)
  {
    var t := Exec(s, schedule);
    assert forall i {:trigger s.procs[i]} :: 0 <= i < |s.procs| ==> s.procs[i].pc.Start?;
    WinnerInvAlways(s, schedule, e, horizon);
    AtMostOneWinner(s, schedule, e, horizon);
    ClockBound(s, schedule, e, horizon);
    forall i | 0 <= i < |t.procs|
      ensures HasWon(s, t, i, e)
    {
      if !t.procs[i].pc.Done? {
        CanGo(t, e, horizon, i);
      }
    }
    assert HasWon(s, t, 0, e);
  }

  /** Such an end is always near: every smooth run can be continued to one. */
  lemma {:induction false} SmoothRunsFinish(s: State, e: Entry, horizon: int) returns (rest: seq<Action>)
    requires WinnerInv(s, e, horizon) && s.clock <= horizon
    ensures Possible(s, rest) && SmoothRun(s, rest, e, horizon)
    ensures forall i {:trigger Exec(s, rest).procs[i]} :: 0 <= i < |Exec(s, rest).procs| ==> Exec(s, rest).procs[i].pc.Done?
    decreases Progress.StepsLeft(s.procs)
  {
    if i: nat :| i < |s.procs| && !s.procs[i].pc.Done? {
      CanGo(s, e, horizon, i);
      var a :| Enabled(s, a) && Smooth(s, a, e, horizon);
      WinnerInvStep(s, a, e, horizon);
      Progress.StepDescends(s, a);
      var tail := SmoothRunsFinish(Next(s, a), e, horizon);
      rest := [a] + tail;
      assert rest[1..] == tail;
    } else {
      rest := [];
    }
  }

  lemma {:induction false} SameProfile(s: State, schedule: seq<Action>)
    requires Possible(s, schedule)
    ensures Exec(s, schedule).profile == s.profile
    decreases |schedule|
  {
    if schedule != [] {
      SameProfile(Next(s, schedule[0]), schedule[1..]);
    }
  }
}
