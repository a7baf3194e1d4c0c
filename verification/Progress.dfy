/** Every run of the system ends, nobody is ever stuck, and no process asks the
    issuer more than once for a refresh or for a login. */
module Progress {
  import opened Types
  import opened Runner
  import opened Protocol
  import opened Safety

  /** How many steps a process may still take. */
  function Rank(pc: Pc): nat {
    match pc
    case Start => 10
    case Loaded(_) => 9
    case AwaitLock(_) => 8
    case Locked(_) => 7
    case Reloaded(_, _) => 6
    case Sending(_) => 5
    case Saving(_, _) => 4
    case Unlocking(_) => 3
    case LoggingIn => 2
    case LoginSaving(_) => 1
    case LoggingOut => 1
    case Done(_) => 0
    case Crashed => 0
  }

  function StepsLeft(procs: seq<Proc>): nat {
    if procs == [] then 0 else Rank(procs[0].pc) + StepsLeft(procs[1..])
  }

  lemma {:induction false} StepsLeftUpdate(procs: seq<Proc>, i: nat, p: Proc)
    requires i < |procs|
    ensures StepsLeft(procs[i := p]) == StepsLeft(procs) - Rank(procs[i].pc) + Rank(p.pc)
  {
    if i > 0 {
      assert procs[i := p][1..] == procs[1..][i - 1 := p];
      StepsLeftUpdate(procs[1..], i - 1, p);
    }
  }

  lemma {:induction false} StepsLeftBound(procs: seq<Proc>)
    ensures StepsLeft(procs) <= 10 * |procs|
    ensures StepsLeft(procs) == 0 <==> forall i :: 0 <= i < |procs| ==> Over(procs[i].pc)
  {
    if procs != [] {
      StepsLeftBound(procs[1..]);
      assert forall i :: 0 <= i < |procs| ==> procs[i] == if i == 0 then procs[0] else procs[1..][i - 1];
      assert forall i :: 0 <= i < |procs[1..]| ==> procs[1..][i] == procs[i + 1];
    }
  }

  lemma StepDescends(s: State, a: Action)
    requires Enabled(s, a)
    ensures StepsLeft(Next(s, a).procs) < StepsLeft(s.procs)
  {
    StepsLeftUpdate(s.procs, a.pid, Next(s, a).procs[a.pid]);
  }

  /** No schedule, whatever fails or crashes in it, takes more than ten steps per process. */
  lemma {:induction false} RunsAreBounded(s: State, schedule: seq<Action>)
    requires Possible(s, schedule)
    ensures |schedule| + StepsLeft(Exec(s, schedule).procs) <= StepsLeft(s.procs) <= 10 * |s.procs|
    decreases |schedule|
  {
    StepsLeftBound(s.procs);
    if schedule != [] {
      StepDescends(s, schedule[0]);
      RunsAreBounded(Next(s, schedule[0]), schedule[1..]);
    }
  }

  /** A step that neither fails nor kills the process. */
  predicate Helpful(c: Choice) { c.Goes? || c.Check? || c.Answer? }

  /** Until every process has finished, some process can go on without anything
      having to fail: whoever waits for the lock waits for a process that can move. */
  lemma NeverStuck(s: State)
    requires LockInv(s) && (exists i :: 0 <= i < |s.procs| && !Over(s.procs[i].pc))
    ensures exists a :: Enabled(s, a) && Helpful(a.choice)
  {
    var i: nat :| i < |s.procs| && !Over(s.procs[i].pc);
    if s.procs[i].pc.AwaitLock? && s.exclusive && s.lock.Some? {
      var h := s.lock.value;
      assert InCritical(s.procs[h].pc);
      CanMove(s, h);
    } else {
      CanMove(s, i);
    }
  }

  lemma CanMove(s: State, i: nat)
    requires i < |s.procs| && !Over(s.procs[i].pc)
    requires s.procs[i].pc.AwaitLock? && s.exclusive ==> s.lock == None
    ensures exists a :: Enabled(s, a) && Helpful(a.choice)
  {
    var pc := s.procs[i].pc;
    var c := if pc.Loaded? || pc.Reloaded? then Check(s.clock)
             else if pc.Sending? || pc.LoggingIn? then Answer(Denied)
             else Goes;
    assert Enabled(s, Action(i, c)) && Helpful(Action(i, c).choice);
  }

  lemma {:induction false} LockInvAlways(s: State, schedule: seq<Action>)
    requires LockInv(s) && Possible(s, schedule)
    ensures LockInv(Exec(s, schedule))
    decreases |schedule|
  {
    if schedule != [] {
      LockStep(s, schedule[0]);
      LockInvAlways(Next(s, schedule[0]), schedule[1..]);
    }
  }

  /** A run that cannot be continued has finished every process. */
  lemma MaximalRunsFinish(s: State, schedule: seq<Action>)
    requires Initial(s) && Possible(s, schedule)
    requires forall a :: Enabled(Exec(s, schedule), a) ==> !Helpful(a.choice)
    ensures forall i :: 0 <= i < |Exec(s, schedule).procs| ==> Over(Exec(s, schedule).procs[i].pc)
  {
    LockInvAlways(s, schedule);
    var t := Exec(s, schedule);
    if exists i :: 0 <= i < |t.procs| && !Over(t.procs[i].pc) {
      NeverStuck(t);
    }
  }

  // ---------- At most one refresh and one login each ----------

  function Count(sent: seq<Sent>, i: nat, refresh: bool): nat {
    if sent == [] then 0
    else
      var last := sent[|sent| - 1];
      Count(sent[..|sent| - 1], i, refresh) + if last.pid == i && last.call.RefreshCall? == refresh then 1 else 0
  }

  /** A process that has yet to make a call has not made it. */
  ghost predicate CallsMade(s: State, i: nat)
    requires i < |s.procs|
  {
    && Count(s.sent, i, true) <= (if Rank(s.procs[i].pc) >= 5 then 0 else 1)
    && Count(s.sent, i, false) <= (if Rank(s.procs[i].pc) >= 2 then 0 else 1)
  }

  lemma CallsMadeStep(s: State, a: Action, i: nat)
    requires Enabled(s, a) && i < |s.procs| && CallsMade(s, i)
    ensures CallsMade(Next(s, a), i)
  {
    var t := Next(s, a);
    assert Rank(t.procs[a.pid].pc) < Rank(s.procs[a.pid].pc);
    if a.choice.Answer? {
      assert t.sent == s.sent + [Sent(a.pid, CallOf(s, a))] && t.sent[..|t.sent| - 1] == s.sent;
    } else {
      assert t.sent == s.sent;
    }
  }

  lemma {:induction false} CallsMadeAlways(s: State, schedule: seq<Action>, i: nat)
    requires i < |s.procs| && CallsMade(s, i) && Possible(s, schedule)
    ensures i < |Exec(s, schedule).procs| && CallsMade(Exec(s, schedule), i)
    decreases |schedule|
  {
    if schedule != [] {
      CallsMadeStep(s, schedule[0], i);
      CallsMadeAlways(Next(s, schedule[0]), schedule[1..], i);
    }
  }

  lemma {:induction false} Counted(sent: seq<Sent>, k: int)
    requires 0 <= k < |sent|
    ensures Count(sent, sent[k].pid, sent[k].call.RefreshCall?) >= 1
  {
    if k < |sent| - 1 {
      Counted(sent[..|sent| - 1], k);
    }
  }

  lemma {:induction false} CountedTwice(sent: seq<Sent>, j: int, k: int)
    requires 0 <= j < k < |sent| && sent[j].pid == sent[k].pid && sent[j].call.RefreshCall? == sent[k].call.RefreshCall?
    ensures Count(sent, sent[k].pid, sent[k].call.RefreshCall?) >= 2
  {
    if k < |sent| - 1 {
      CountedTwice(sent[..|sent| - 1], j, k);
    } else {
      Counted(sent[..|sent| - 1], j);
    }
  }

  /** Over any run, each process sends at most one refresh and at most one login: no
      two calls of the log are by the same process and of the same kind. */
  lemma OneCallEach(s: State, schedule: seq<Action>, i: nat)
    requires Initial(s) && Possible(s, schedule) && i < |s.procs|
    ensures Count(Exec(s, schedule).sent, i, true) <= 1 && Count(Exec(s, schedule).sent, i, false) <= 1
    ensures var sent := Exec(s, schedule).sent;
            forall j, k :: 0 <= j < k < |sent| && sent[j].pid == sent[k].pid == i ==>
              sent[j].call.RefreshCall? != sent[k].call.RefreshCall?
  {
    assert CallsMade(s, i) by {
      assert s.procs[i].pc.Start? || s.procs[i].pc.LoggingOut?;
    }
    CallsMadeAlways(s, schedule, i);
    var sent := Exec(s, schedule).sent;
    forall j, k | 0 <= j < k < |sent| && sent[j].pid == sent[k].pid == i
      ensures sent[j].call.RefreshCall? != sent[k].call.RefreshCall?
    {
      if sent[j].call.RefreshCall? == sent[k].call.RefreshCall? {
        CountedTwice(sent, j, k);
      }
    }
  }
}
