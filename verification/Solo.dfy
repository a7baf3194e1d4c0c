/** Stepping one process through the step system: a process that nobody interrupts
    behaves as `RunAlone` says. */
module Solo {
  import opened Types
  import opened Runner
  import opened Protocol
  import opened Safety

  ghost predicate Reaches(s: State, t: State) {
    exists schedule :: Possible(s, schedule) && Exec(s, schedule) == t
  }

  /** The same with no harmful step on the way. */
  ghost predicate CarefullyReaches(s: State, t: State) {
    exists schedule :: Possible(s, schedule) && Careful(s, schedule) && Exec(s, schedule) == t
  }

  predicate CarefulStep(s: State, a: Action)
    requires Enabled(s, a)
  {
    NewToken(s, a) && !Harmful(s, a)
  }

  lemma {:induction false} ExecAppend(s: State, x: seq<Action>, a: Action)
    requires Possible(s, x) && Enabled(Exec(s, x), a)
    ensures Possible(s, x + [a]) && Exec(s, x + [a]) == Next(Exec(s, x), a)
    ensures Careful(s, x) && CarefulStep(Exec(s, x), a) ==> Careful(s, x + [a])
    decreases |x|
  {
    if x == [] {
      assert [a][1..] == [];
      assert Possible(Next(s, a), []);
    } else {
      assert (x + [a])[1..] == x[1..] + [a];
      ExecAppend(Next(s, x[0]), x[1..], a);
    }
  }

  lemma ReachesItself(s: State)
    ensures Reaches(s, s) && CarefullyReaches(s, s)
  {
    assert Possible(s, []) && Careful(s, []) && Exec(s, []) == s;
  }

  lemma Then(s: State, t: State, a: Action)
    requires Reaches(s, t) && Enabled(t, a)
    ensures Reaches(s, Next(t, a))
  {
    var x :| Possible(s, x) && Exec(s, x) == t;
    ExecAppend(s, x, a);
  }

  lemma ThenCarefully(s: State, t: State, a: Action)
    requires CarefullyReaches(s, t) && Enabled(t, a) && CarefulStep(t, a)
    ensures CarefullyReaches(s, Next(t, a))
  {
    var x :| Possible(s, x) && Careful(s, x) && Exec(s, x) == t;
    ExecAppend(s, x, a);
  }

  function OkUnless(fails: bool): Choice { if fails then Fails else Goes }

  /** `t` is `s` after process `i` alone has moved on to `pc`, with the store, the
      calls and the lock as given. */
  ghost predicate MovedTo(s: State, t: State, i: nat, pc: Pc, stored: Option<Entry>, calls: seq<Call>, locked: bool)
    requires i < |s.procs|
  {
    && t.profile == s.profile && t.exclusive == s.exclusive
    && t.stored == stored
    && t.procs == s.procs[i := s.procs[i].(pc := pc)]
    && t.sent == s.sent + Tagged(i, calls)
    && t.lock == (if locked && s.exclusive then Some(i) else s.lock)
  }

  function Tagged(i: nat, calls: seq<Call>): seq<Sent> {
    seq(|calls|, k requires 0 <= k < |calls| => Sent(i, calls[k]))
  }

  predicate Ready(s: State, i: nat, env: Env) {
    && i < |s.procs| && s.procs[i].pc.Start? && s.lock == None
    && s.clock <= env.firstCheck <= env.secondCheck
  }

  /** The lock after process `i`, holding it or not, makes choice `c` at `pc`. */
  predicate HoldsAfter(pc: Pc, c: Choice, locked: bool) {
    if pc.AwaitLock? then c.Goes? else locked && !pc.Unlocking?
  }

  /** One uninterrupted step. */
  lemma Hop(s: State, t: State, i: nat, c: Choice, calls: seq<Call>, locked: bool)
    returns (u: State, calls': seq<Call>)
    requires i < |s.procs| && i < |t.procs| && s.lock == None && Reaches(s, t)
    requires MovedTo(s, t, i, t.procs[i].pc, t.stored, calls, locked)
    requires Enabled(t, Action(i, c)) && !c.Crash?
    requires t.procs[i].pc.AwaitLock? ==> !locked
    requires t.procs[i].pc.Unlocking? ==> locked
    ensures Reaches(s, u) && u.clock == (if c.Check? then c.now else t.clock) && i < |u.procs|
    ensures u == Next(t, Action(i, c))
    ensures calls' == if c.Answer? then calls + [CallOf(t, Action(i, c))] else calls
    ensures MovedTo(s, u, i, NextPc(t, Action(i, c)), NextStored(t, Action(i, c)), calls', HoldsAfter(t.procs[i].pc, c, locked))
  {
    Then(s, t, Action(i, c));
    u := Next(t, Action(i, c));
    calls' := if c.Answer? then calls + [CallOf(t, Action(i, c))] else calls;
    assert u.sent == s.sent + Tagged(i, calls');
  }

  /** One uninterrupted step that is not harmful, at the end of a careful run. */
  lemma CarefulHop(s: State, t: State, i: nat, c: Choice, calls: seq<Call>, locked: bool)
    returns (u: State, calls': seq<Call>)
    requires i < |s.procs| && i < |t.procs| && s.lock == None && CarefullyReaches(s, t)
    requires MovedTo(s, t, i, t.procs[i].pc, t.stored, calls, locked)
    requires Enabled(t, Action(i, c)) && !c.Crash? && CarefulStep(t, Action(i, c))
    requires t.procs[i].pc.AwaitLock? ==> !locked
    requires t.procs[i].pc.Unlocking? ==> locked
    ensures CarefullyReaches(s, u) && u.clock == (if c.Check? then c.now else t.clock) && i < |u.procs|
    ensures calls' == if c.Answer? then calls + [CallOf(t, Action(i, c))] else calls
    ensures MovedTo(s, u, i, NextPc(t, Action(i, c)), NextStored(t, Action(i, c)), calls', HoldsAfter(t.procs[i].pc, c, locked))
  {
    u, calls' := Hop(s, t, i, c, calls, locked);
    ThenCarefully(s, t, Action(i, c));
  }

  function PhasePc(phase: Phase): Pc {
    match phase
    case Finished(res) => Done(Returned(res))
    case ReadError => Done(ReadFailed)
    case NeedsLogin => LoggingIn
  }

  /** The steps up to the point where the process has failed to read, has a result,
      or must log in. */
  lemma SoloBeforeLogin(s: State, i: nat, env: Env) returns (t: State)
    requires Ready(s, i, env)
    ensures var end := BeforeLogin(s.stored, s.profile, s.procs[i].wantID, env);
            Reaches(s, t) && MovedTo(s, t, i, PhasePc(end.phase), end.stored, end.calls, false)
    ensures s.clock <= t.clock <= env.secondCheck
  {
    ReachesItself(s);
    assert MovedTo(s, s, i, s.procs[i].pc, s.stored, [], false);
    var calls;
    t, calls := Hop(s, s, i, OkUnless(env.loadFails), [], false);
    if t.procs[i].pc.Loaded? {
      t, calls := Hop(s, t, i, Check(env.firstCheck), calls, false);
      if t.procs[i].pc.AwaitLock? {
        t := SoloLock(s, t, i, env);
      }
    }
  }

  /** From the request for the lock on. */
  lemma SoloLock(s: State, s2: State, i: nat, env: Env) returns (t: State)
    requires i < |s.procs| && s.stored.Some? && Reaches(s, s2) && s.lock == None
    requires MovedTo(s, s2, i, AwaitLock(s.stored.value), s.stored, [], false) && s.clock <= s2.clock <= env.secondCheck
    ensures var end := if env.lockFails then PhaseEnd(NeedsLogin, s.stored, [])
                       else Critical(s.stored, s.profile, s.procs[i].wantID, s.stored.value, env);
            Reaches(s, t) && MovedTo(s, t, i, PhasePc(end.phase), end.stored, end.calls, false)
    ensures s.clock <= t.clock <= env.secondCheck
  {
    var calls;
    t, calls := Hop(s, s2, i, OkUnless(env.lockFails), [], false);
    if !env.lockFails {
      t := SoloCritical(s, t, i, env);
    }
  }

  lemma SoloCritical(s: State, s3: State, i: nat, env: Env) returns (t: State)
    requires i < |s.procs| && s.stored.Some? && Reaches(s, s3) && s.lock == None
    requires MovedTo(s, s3, i, Locked(s.stored.value), s.stored, [], true) && s.clock <= s3.clock <= env.secondCheck
    ensures var end := Critical(s.stored, s.profile, s.procs[i].wantID, s.stored.value, env);
            Reaches(s, t) && MovedTo(s, t, i, PhasePc(end.phase), end.stored, end.calls, false)
    ensures s.clock <= t.clock <= env.secondCheck
  {
    t := SoloReread(s, s3, i, env);
    var calls := [];
    if t.procs[i].pc.Sending? {
      t, calls := SoloSend(s, t, i, t.procs[i].pc.rt, env);
    }
    t, calls := Hop(s, t, i, Goes, calls, true);
  }

  /** The re-read under the lock and what follows from it. */
  lemma SoloReread(s: State, s3: State, i: nat, env: Env) returns (t: State)
    requires i < |s.procs| && s.stored.Some? && Reaches(s, s3) && s.lock == None
    requires MovedTo(s, s3, i, Locked(s.stored.value), s.stored, [], true) && s.clock <= s3.clock <= env.secondCheck
    ensures Reaches(s, t) && t.clock == env.secondCheck && i < |t.procs|
    ensures var reread := if env.reloadFails then None else s.stored;
            MovedTo(s, t, i, AfterRecheck(s.stored.value, reread, env.secondCheck), s.stored, [], true)
  {
    var calls;
    t, calls := Hop(s, s3, i, OkUnless(env.reloadFails), [], true);
    t, calls := Hop(s, t, i, Check(env.secondCheck), calls, true);
  }

  /** The part of the critical section that talks to the issuer. */
  lemma SoloSend(s: State, s5: State, i: nat, rt: string, env: Env) returns (t: State, calls: seq<Call>)
    requires i < |s.procs| && Reaches(s, s5) && s.lock == None
    requires MovedTo(s, s5, i, Sending(rt), s.stored, [], true)
    ensures var end := SendRefresh(s.stored, s.profile, s.procs[i].wantID, rt, env);
            && Reaches(s, t) && calls == end.calls && i < |t.procs| && t.clock == s5.clock
            && MovedTo(s, t, i, Unlocking(if end.phase.Finished? then Some(end.phase.res) else None), end.stored, calls, true)
  {
    t, calls := Hop(s, s5, i, Answer(env.refresh), [], true);
    if t.procs[i].pc.Saving? {
      t, calls := Hop(s, t, i, OkUnless(env.saveFails), calls, true);
    }
  }

  /** A logout is one step: it deletes the entry, or fails and leaves it. */
  lemma SoloLogout(s: State, i: nat, fails: bool) returns (t: State)
    requires i < |s.procs| && s.procs[i].pc.LoggingOut? && s.lock == None
    ensures Reaches(s, t) && t.clock == s.clock
    ensures MovedTo(s, t, i, Done(if fails then LogoutFailed else LoggedOut), if fails then s.stored else None, [], false)
  {
    ReachesItself(s);
    assert MovedTo(s, s, i, s.procs[i].pc, s.stored, [], false);
    var calls;
    t, calls := Hop(s, s, i, OkUnless(fails), [], false);
  }

  /** A process that starts when the lock is free and is not interrupted ends with
      the outcome, the store and the calls of `RunAlone`, and releases the lock. */
  lemma SoloIsRunAlone(s: State, i: nat, env: Env) returns (t: State)
    requires Ready(s, i, env)
    ensures var end := RunAlone(s.stored, s.profile, s.procs[i].wantID, env);
            Reaches(s, t) && MovedTo(s, t, i, Done(end.outcome), end.stored, end.calls, false)
    ensures s.clock <= t.clock <= env.secondCheck
  {
    t := SoloBeforeLogin(s, i, env);
    var calls := BeforeLogin(s.stored, s.profile, s.procs[i].wantID, env).calls;
    if t.procs[i].pc.LoggingIn? {
      t, calls := Hop(s, t, i, Answer(env.login), calls, false);
      if t.procs[i].pc.LoginSaving? {
        t, calls := Hop(s, t, i, OkUnless(env.loginSaveFails), calls, false);
      }
    }
  }
}
