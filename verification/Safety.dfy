/** No refresh token that the issuer has replaced is ever sent again: the inductive
    invariant, exactly which steps break it, and what that means for whole runs. */
module Safety {
  import opened Types
  import opened TokenResponse
  import opened Runner
  import opened Protocol

  // ---------- The lock ----------

  /** With an exclusive lock, the processes in their critical section are exactly
      the one that owns the lock. */
  ghost predicate LockInv(s: State) {
    s.exclusive ==>
      && (s.lock.Some? ==> s.lock.value < |s.procs|)
      && forall i {:trigger s.procs[i]} :: 0 <= i < |s.procs| ==> (InCritical(s.procs[i].pc) <==> s.lock == Some(i))
  }

  lemma LockStep(s: State, a: Action)
    requires LockInv(s) && Enabled(s, a)
    ensures LockInv(Next(s, a))
  {
    var t := Next(s, a);
    if s.exclusive {
      forall i | 0 <= i < |t.procs|
        ensures InCritical(t.procs[i].pc) <==> t.lock == Some(i)
      {
        assert InCritical(s.procs[i].pc) <==> s.lock == Some(i);
        assert InCritical(s.procs[a.pid].pc) <==> s.lock == Some(a.pid);
        if i != a.pid {
          assert t.procs[i] == s.procs[i];
        }
      }
    }
  }

  /** Critical sections of different processes never overlap, over any run, and
      nobody logs in while holding the lock. */
  lemma {:induction false} MutualExclusion(s: State, schedule: seq<Action>, i: nat, j: nat)
    requires s.exclusive && LockInv(s) && Possible(s, schedule)
    requires i < |s.procs| && j < |s.procs|
    ensures var t := Exec(s, schedule);
            && |t.procs| == |s.procs|
            && (InCritical(t.procs[i].pc) && InCritical(t.procs[j].pc) ==> i == j)
            && (t.procs[i].pc.LoggingIn? || t.procs[i].pc.LoginSaving? || Over(t.procs[i].pc) ==> t.lock != Some(i))
    decreases |schedule|
  {
    if schedule == [] {
      assert InCritical(s.procs[i].pc) <==> s.lock == Some(i);
      assert InCritical(s.procs[j].pc) <==> s.lock == Some(j);
    } else {
      LockStep(s, schedule[0]);
      MutualExclusion(Next(s, schedule[0]), schedule[1..], i, j);
    }
  }

  // ---------- The tokens in play ----------

  function StoredToken(s: State): string {
    if s.stored.Some? then s.stored.value.refresh else ""
  }

  /** The refresh token a process may still send or store. */
  function Held(pc: Pc): string {
    match pc
    case Reloaded(_, reread) => if reread.Some? then reread.value.refresh else ""
    case Sending(rt) => rt
    case Saving(_, res) => res.refresh
    case LoginSaving(res) => res.refresh
    case _ => ""
  }

  /** The refresh token of the entry a process read before it asked for the lock. */
  function StaleToken(pc: Pc): string {
    match pc
    case Loaded(e) => e.refresh
    case AwaitLock(e) => e.refresh
    case Locked(e) => e.refresh
    case Reloaded(e, _) => e.refresh
    case _ => ""
  }

  /** Some process holds the answer that replaces `rt` and has not stored it yet. */
  ghost predicate Replacing(s: State, rt: string) {
    exists i {:trigger s.procs[i]} :: 0 <= i < |s.procs| && s.procs[i].pc.Saving? && s.procs[i].pc.rt == rt
  }

  ghost predicate KnownTokens(s: State) {
    && "" !in s.issued && s.spent <= s.issued
    && (StoredToken(s) == "" || StoredToken(s) in s.issued)
    && forall i {:trigger s.procs[i]} :: 0 <= i < |s.procs| ==>
         && (Held(s.procs[i].pc) == "" || Held(s.procs[i].pc) in s.issued)
         && (s.procs[i].pc.Sending? ==> Held(s.procs[i].pc) != "")
         && (StaleToken(s.procs[i].pc) == "" || StaleToken(s.procs[i].pc) in s.issued)
  }

  ghost predicate NoneSpent(s: State) {
    forall i {:trigger s.procs[i]} :: 0 <= i < |s.procs| ==> Held(s.procs[i].pc) !in s.spent
  }

  /** A token a login has obtained and not yet stored is known to nobody else. */
  ghost predicate LoginTokenPrivate(s: State) {
    forall i {:trigger s.procs[i]} :: 0 <= i < |s.procs| && s.procs[i].pc.LoginSaving? && Held(s.procs[i].pc) != "" ==>
      && StoredToken(s) != Held(s.procs[i].pc)
      && forall j {:trigger s.procs[j]} :: 0 <= j < |s.procs| && j != i ==>
           Held(s.procs[j].pc) != Held(s.procs[i].pc) && StaleToken(s.procs[j].pc) != Held(s.procs[i].pc)
  }

  /** The stored refresh token is spent only while the lock holder is between
      Refresh and Save. */
  ghost predicate TokenInv(s: State) {
    && s.exclusive && LockInv(s)
    && KnownTokens(s) && NoneSpent(s) && LoginTokenPrivate(s)
    && (StoredToken(s) in s.spent ==> Replacing(s, StoredToken(s)))
  }

  // ---------- Which steps break the invariant ----------

  /** The issuer's obligation: every refresh token it hands out is new, except that
      a refresh may return the very token it was asked with. */
  predicate NewToken(s: State, a: Action)
    requires Enabled(s, a)
  {
    a.choice.Answer? && a.choice.reply.Granted? ==>
      var rt := a.choice.reply.tok.refresh;
      var pc := s.procs[a.pid].pc;
      rt == "" || rt !in s.issued || (pc.Sending? && rt == pc.rt)
  }

  /** The steps after which a spent token can be sent: the answer that replaces the
      stored token is dropped (Save fails, the process dies before it, the reply is
      lost, or its id_token is fatally invalid), or a locked re-read that found
      nothing falls back to a stale token that has been replaced meanwhile. */
  predicate Harmful(s: State, a: Action)
    requires Enabled(s, a)
  {
    var p := s.procs[a.pid];
    match p.pc
    case Saving(_, _) => !a.choice.Goes? && StoredToken(s) in s.spent
    case Sending(rt) => a.choice.Answer? && Spends(rt, a.choice.reply) && StoredToken(s) == rt &&
                        !AfterRefresh(rt, a.choice.reply, p.wantID).Saving?
    case Reloaded(stale, None) => a.choice.Check? && stale.refresh in s.spent
    case _ => false
  }

  lemma StepKnownSelf(s: State, a: Action)
    requires TokenInv(s) && Enabled(s, a) && NewToken(s, a)
    ensures var t := Next(s, a);
            var pc := t.procs[a.pid].pc;
            && (Held(pc) == "" || Held(pc) in t.issued)
            && (pc.Sending? ==> Held(pc) != "")
            && (StaleToken(pc) == "" || StaleToken(pc) in t.issued)
  {
    assert s.procs[a.pid] == s.procs[a.pid];
    match a.choice
    case Answer(_) =>
    case Goes =>
    case _ =>
  }

  lemma StepKnown(s: State, a: Action)
    requires TokenInv(s) && Enabled(s, a) && NewToken(s, a)
    ensures KnownTokens(Next(s, a))
  {
    StepKnownSelf(s, a);
    StoreFlow(s, a);
    var t := Next(s, a);
    assert s.procs[a.pid] == s.procs[a.pid];
    assert forall i {:trigger t.procs[i]} :: 0 <= i < |t.procs| && i != a.pid ==> t.procs[i] == s.procs[i];
  }

  /** Only the lock holder sends, so nobody else can hold what it spends. */
  lemma StepNoneSpent(s: State, a: Action)
    requires TokenInv(s) && Enabled(s, a) && NewToken(s, a) && !Harmful(s, a)
    ensures NoneSpent(Next(s, a))
  {
    var t := Next(s, a);
    var p := s.procs[a.pid].pc;
    assert p.Locked? ==> forall j {:trigger s.procs[j]} :: 0 <= j < |s.procs| && j != a.pid ==> !InCritical(s.procs[j].pc) by {
      assert InCritical(p) <==> s.lock == Some(a.pid);
    }
    forall i | 0 <= i < |t.procs|
      ensures Held(t.procs[i].pc) !in t.spent
    {
      if i != a.pid {
        assert t.procs[i] == s.procs[i];
        if p.Sending? && Held(s.procs[i].pc) == p.rt {
          assert InCritical(s.procs[a.pid].pc) && !InCritical(s.procs[i].pc);
          assert s.procs[i].pc.LoginSaving?;
        }
      }
    }
  }

  /** Where the token of the store comes from. */
  lemma StoreFlow(s: State, a: Action)
    requires Enabled(s, a)
    ensures var t := Next(s, a);
            var before, after := s.procs[a.pid].pc, t.procs[a.pid].pc;
            && (StoredToken(t) == "" || StoredToken(t) == StoredToken(s) || StoredToken(t) == Held(before))
            && (before.LoginSaving? ==> !after.LoginSaving?)
            && (after.LoginSaving? ==> StoredToken(t) == StoredToken(s))
  {
  }

  /** Where the tokens of the moving process come from. */
  lemma ProcFlow(s: State, a: Action)
    requires Enabled(s, a) && NewToken(s, a)
    ensures var before, after := s.procs[a.pid].pc, Next(s, a).procs[a.pid].pc;
            && (Held(after) == "" || Held(after) == Held(before) || Held(after) == StoredToken(s) ||
                Held(after) == StaleToken(before) || Held(after) !in s.issued)
            && (StaleToken(after) == "" || StaleToken(after) == StaleToken(before) || StaleToken(after) == StoredToken(s))
            && (after.LoginSaving? ==> Held(after) == "" || Held(after) !in s.issued)
  {
    match a.choice
    case Answer(_) =>
    case Goes =>
    case _ =>
  }

  lemma StepPrivate(s: State, a: Action)
    requires TokenInv(s) && Enabled(s, a) && NewToken(s, a)
    ensures LoginTokenPrivate(Next(s, a))
  {
    var t := Next(s, a);
    assert s.procs[a.pid] == s.procs[a.pid];
    forall i | 0 <= i < |t.procs| && t.procs[i].pc.LoginSaving? && Held(t.procs[i].pc) != ""
      ensures StoredToken(t) != Held(t.procs[i].pc)
      ensures forall j {:trigger t.procs[j]} :: 0 <= j < |t.procs| && j != i ==>
                Held(t.procs[j].pc) != Held(t.procs[i].pc) && StaleToken(t.procs[j].pc) != Held(t.procs[i].pc)
    {
      PrivateOf(s, a, i);
    }
  }

  lemma PrivateOf(s: State, a: Action, i: nat)
    requires TokenInv(s) && Enabled(s, a) && NewToken(s, a)
    requires var t := Next(s, a); i < |t.procs| && t.procs[i].pc.LoginSaving? && Held(t.procs[i].pc) != ""
    ensures var t := Next(s, a);
            && StoredToken(t) != Held(t.procs[i].pc)
            && forall j {:trigger t.procs[j]} :: 0 <= j < |t.procs| && j != i ==>
                 Held(t.procs[j].pc) != Held(t.procs[i].pc) && StaleToken(t.procs[j].pc) != Held(t.procs[i].pc)
  {
    StoreFlow(s, a);
    ProcFlow(s, a);
    var t := Next(s, a);
    var h := Held(t.procs[i].pc);
    assert forall j {:trigger t.procs[j]} :: 0 <= j < |t.procs| && j != a.pid ==> t.procs[j] == s.procs[j];
    assert s.procs[a.pid] == s.procs[a.pid];
    if i == a.pid {
      assert h !in s.issued;
      assert forall j {:trigger t.procs[j]} :: 0 <= j < |t.procs| && j != i ==> s.procs[j] == t.procs[j];
    } else {
      assert s.procs[i] == t.procs[i];
      assert h in s.issued && StoredToken(s) != h;
      assert Held(s.procs[a.pid].pc) != h && StaleToken(s.procs[a.pid].pc) != h;
    }
  }

  /** Whoever holds the replacement still holds it, or has just stored it. */
  lemma StepReplacing(s: State, a: Action)
    requires TokenInv(s) && Enabled(s, a) && NewToken(s, a) && !Harmful(s, a)
    ensures var t := Next(s, a); StoredToken(t) in t.spent ==> Replacing(t, StoredToken(t))
  {
    var t := Next(s, a);
    var i := a.pid;
    var p := s.procs[i].pc;
    if StoredToken(t) in t.spent {
      if StoredToken(s) in s.spent && t.stored == s.stored {
        var j :| 0 <= j < |s.procs| && s.procs[j].pc.Saving? && s.procs[j].pc.rt == StoredToken(s);
        assert j != i;
        assert t.procs[j] == s.procs[j];
      } else if p.Sending? && StoredToken(t) == p.rt {
        assert t.procs[i].pc.Saving? && t.procs[i].pc.rt == p.rt;
      } else {
        assert false;
      }
    }
  }

  /** From a state that satisfies the invariant, a step keeps it exactly when the
      step is not harmful. */
  lemma SafeExactly(s: State, a: Action)
    requires TokenInv(s) && Enabled(s, a) && NewToken(s, a)
    ensures TokenInv(Next(s, a)) <==> !Harmful(s, a)
  {
    LockStep(s, a);
    if !Harmful(s, a) {
      StepKnown(s, a);
      StepNoneSpent(s, a);
      StepPrivate(s, a);
      StepReplacing(s, a);
    } else {
      HarmBreaks(s, a);
    }
  }

  lemma HarmBreaks(s: State, a: Action)
    requires TokenInv(s) && Enabled(s, a) && Harmful(s, a)
    ensures !TokenInv(Next(s, a))
  {
    var t := Next(s, a);
    assert InCritical(s.procs[a.pid].pc);
    if s.procs[a.pid].pc.Reloaded? {
      assert Held(t.procs[a.pid].pc) in t.spent;
    } else {
      assert forall j {:trigger t.procs[j]} :: 0 <= j < |t.procs| && j != a.pid ==>
          t.procs[j] == s.procs[j] && !InCritical(s.procs[j].pc);
    }
  }

  // ---------- Whole runs ----------

  predicate SpendingCall(c: Call) {
    c.RefreshCall? && Spends(c.rt, c.reply)
  }

  /** The reply to a refresh with `rt` brings another refresh token in its place, or it
      got lost after the issuer had replaced `rt`. */
  predicate Replaces(rt: string, reply: Reply) {
    match reply
    case Denied => false
    case Lost(rotated) => rotated
    case Granted(tok, _, _) => tok.refresh != "" && tok.refresh != rt
  }

  /** No refresh token is sent in two calls of the log the first of which replaced it. */
  ghost predicate SentOnce(sent: seq<Sent>) {
    forall i, j | 0 <= i < j < |sent| && sent[i].call.RefreshCall? && sent[j].call.RefreshCall? ::
      Replaces(sent[i].call.rt, sent[i].call.reply) ==> sent[j].call.rt != sent[i].call.rt
  }

  /** The log shows no token sent again after a reply that used it up. */
  ghost predicate NoReuse(sent: seq<Sent>) {
    forall i, j :: 0 <= i < j < |sent| && SpendingCall(sent[i].call) && sent[j].call.RefreshCall? ==>
      sent[j].call.rt != sent[i].call.rt
  }

  ghost predicate SpentLogged(s: State) {
    forall i :: 0 <= i < |s.sent| && SpendingCall(s.sent[i].call) ==> s.sent[i].call.rt in s.spent
  }

  /** The log shows the call whose reply used up `rt`. */
  ghost predicate Logged(sent: seq<Sent>, rt: string) {
    exists k :: 0 <= k < |sent| && SpendingCall(sent[k].call) && sent[k].call.rt == rt
  }

  /** The spent tokens still stored or remembered were spent in this run. */
  ghost predicate Traced(s: State) {
    && (StoredToken(s) in s.spent ==> Logged(s.sent, StoredToken(s)))
    && forall i {:trigger s.procs[i]} :: 0 <= i < |s.procs| && StaleToken(s.procs[i].pc) in s.spent ==>
         Logged(s.sent, StaleToken(s.procs[i].pc))
  }

  /** What every state of a careful run satisfies. */
  ghost predicate RunInv(s: State) {
    TokenInv(s) && NoReuse(s.sent) && SpentLogged(s) && Traced(s)
  }

  /** The issuer keeps its obligation and no step is harmful. */
  predicate Careful(s: State, schedule: seq<Action>)
    requires Possible(s, schedule)
    decreases |schedule|
  {
    schedule == [] ||
    (NewToken(s, schedule[0]) && !Harmful(s, schedule[0]) && Careful(Next(s, schedule[0]), schedule[1..]))
  }

  /** Runs may start from any initial state whose stored token the issuer knows and has not replaced. */
  predicate UsableStart(s: State) {
    Initial(s) && s.exclusive && "" !in s.issued && s.spent <= s.issued &&
    (StoredToken(s) == "" || (StoredToken(s) in s.issued && StoredToken(s) !in s.spent))
  }

  /** In any interleaving of any number of processes that refresh, log in and log
      out, no refresh token is sent again after the issuer has replaced it, unless
      some step was harmful. */
  lemma NoTokenReused(s: State, schedule: seq<Action>)
    requires UsableStart(s) && Possible(s, schedule) && Careful(s, schedule)
    ensures SentOnce(Exec(s, schedule).sent)
    ensures NoReuse(Exec(s, schedule).sent) && TokenInv(Exec(s, schedule))
  {
    UsableStartIsSound(s);
    RunInvAlways(s, schedule);
  }

  lemma UsableStartIsSound(s: State)
    requires UsableStart(s)
    ensures RunInv(s)
  {
    forall i | 0 <= i < |s.procs|
      ensures !InCritical(s.procs[i].pc) && Held(s.procs[i].pc) == "" && StaleToken(s.procs[i].pc) == ""
      ensures !s.procs[i].pc.LoginSaving?
    {
      assert s.procs[i].pc.Start? || s.procs[i].pc.LoggingOut?;
    }
  }

  lemma {:induction false} RunInvAlways(s: State, schedule: seq<Action>)
    requires RunInv(s) && Possible(s, schedule) && Careful(s, schedule)
    ensures RunInv(Exec(s, schedule))
    decreases |schedule|
  {
    if schedule != [] {
      RunInvStep(s, schedule[0]);
      RunInvAlways(Next(s, schedule[0]), schedule[1..]);
    }
  }

  lemma RunInvStep(s: State, a: Action)
    requires RunInv(s) && Enabled(s, a) && NewToken(s, a) && !Harmful(s, a)
    ensures RunInv(Next(s, a))
  {
    SafeExactly(s, a);
    SentStep(s, a);
    TracedStep(s, a);
  }

  /** What the log shows it goes on showing, and a step logs what it spends. */
  lemma LoggedStep(s: State, a: Action, rt: string)
    requires Enabled(s, a) && (Logged(s.sent, rt) || (rt in NextSpent(s, a) && rt !in s.spent))
    ensures Logged(Next(s, a).sent, rt)
  {
    var t := Next(s, a);
    if Logged(s.sent, rt) {
      var k :| 0 <= k < |s.sent| && SpendingCall(s.sent[k].call) && s.sent[k].call.rt == rt;
      assert t.sent[k] == s.sent[k];
    } else {
      assert t.sent[|s.sent|].call == CallOf(s, a);
    }
  }

  lemma TracedStep(s: State, a: Action)
    requires TokenInv(s) && Traced(s) && Enabled(s, a) && NewToken(s, a)
    ensures Traced(Next(s, a))
  {
    var t := Next(s, a);
    StoreFlow(s, a);
    ProcFlow(s, a);
    assert Held(s.procs[a.pid].pc) !in s.spent;
    if StoredToken(t) in t.spent {
      LoggedStep(s, a, StoredToken(t));
    }
    forall i | 0 <= i < |t.procs| && StaleToken(t.procs[i].pc) in t.spent
      ensures Logged(t.sent, StaleToken(t.procs[i].pc))
    {
      assert i != a.pid ==> t.procs[i] == s.procs[i];
      assert StaleToken(s.procs[i].pc) in s.spent ==> Logged(s.sent, StaleToken(s.procs[i].pc));
      LoggedStep(s, a, StaleToken(t.procs[i].pc));
    }
  }

  lemma SentStep(s: State, a: Action)
    requires TokenInv(s) && Enabled(s, a) && NoReuse(s.sent) && SpentLogged(s)
    ensures NoReuse(Next(s, a).sent) && SpentLogged(Next(s, a))
  {
    var t := Next(s, a);
    assert Held(s.procs[a.pid].pc) !in s.spent;
    if a.choice.Answer? {
      var n := |s.sent|;
      assert t.sent[..n] == s.sent && |t.sent| == n + 1;
      forall i | 0 <= i < n
        ensures t.sent[i] == s.sent[i]
      {
      }
    } else {
      assert t.sent == s.sent;
    }
  }

  // ---------- The same in terms of what may go wrong ----------

  /** Nothing goes wrong between a locked re-read and the Save that follows it, and
      nobody logs out. First reads, lock acquisitions and login Saves may fail, and
      issuers may refuse. */
  predicate Ordinary(s: State, a: Action)
    requires Enabled(s, a)
  {
    var p := s.procs[a.pid];
    && !a.choice.Crash?
    && (a.choice.Fails? ==> !p.pc.Locked? && !p.pc.Saving?)
    && !p.pc.LoggingOut?
    && (p.pc.Sending? ==> !a.choice.reply.Lost? &&
                          (a.choice.reply.Granted? ==> !Fatal(ToResult(a.choice.reply.tok, a.choice.reply.verdict, ""), p.wantID)))
  }

  predicate OrdinaryRun(s: State, schedule: seq<Action>)
    requires Possible(s, schedule)
    decreases |schedule|
  {
    schedule == [] ||
    (NewToken(s, schedule[0]) && Ordinary(s, schedule[0]) && OrdinaryRun(Next(s, schedule[0]), schedule[1..]))
  }

  /** While nobody deletes the entry, no re-read misses. */
  ghost predicate NoMiss(s: State) {
    forall i {:trigger s.procs[i]} :: 0 <= i < |s.procs| ==>
      && (s.procs[i].pc.AwaitLock? || s.procs[i].pc.Locked? || s.procs[i].pc.Loaded? ==> s.stored.Some?)
      && (s.procs[i].pc.Reloaded? ==> s.procs[i].pc.reread.Some?)
  }

  lemma NoMissStep(s: State, a: Action)
    requires NoMiss(s) && Enabled(s, a) && Ordinary(s, a)
    ensures NoMiss(Next(s, a)) && !Harmful(s, a)
  {
    var t := Next(s, a);
    assert s.procs[a.pid] == s.procs[a.pid];
    assert forall i {:trigger t.procs[i]} :: 0 <= i < |t.procs| && i != a.pid ==> t.procs[i] == s.procs[i];
  }

  lemma {:induction false} OrdinaryIsCareful(s: State, schedule: seq<Action>)
    requires NoMiss(s) && Possible(s, schedule) && OrdinaryRun(s, schedule)
    ensures Careful(s, schedule)
    decreases |schedule|
  {
    if schedule != [] {
      NoMissStep(s, schedule[0]);
      OrdinaryIsCareful(Next(s, schedule[0]), schedule[1..]);
    }
  }

  /** No double redemption under the conditions a deployment can aim for: a file
      lock, an issuer that hands out new tokens, and ordinary steps only. */
  lemma OrdinaryRunsNeverReuse(s: State, schedule: seq<Action>)
    requires UsableStart(s) && Possible(s, schedule) && OrdinaryRun(s, schedule)
    ensures NoReuse(Exec(s, schedule).sent) && SentOnce(Exec(s, schedule).sent)
  {
    assert NoMiss(s) by {
      forall i | 0 <= i < |s.procs|
        ensures s.procs[i].pc.Start? || s.procs[i].pc.LoggingOut?
      {
      }
    }
    OrdinaryIsCareful(s, schedule);
    NoTokenReused(s, schedule);
  }
}
