/** Concurrent runs are serializable: up to the point where a process has its result
    or must log in, any interleaving has the effect of running the processes one at
    a time, each as `BeforeLogin` says, on a clock that never goes back. */
module Serial {
  import opened Types
  import opened Runner
  import opened Protocol
  import opened Safety
  import Solo

  // ---------- One at a time ----------

  datatype Job = Job(pid: nat, env: Env)

  datatype SerialEnd = SerialEnd(stored: Option<Entry>, phases: map<nat, Phase>, sent: seq<Sent>)

  ghost predicate Among(jobs: seq<Job>, procs: seq<Proc>) {
    forall k :: 0 <= k < |jobs| ==> jobs[k].pid < |procs|
  }

  /** Runs the jobs one after the other. */
  ghost function RunJobs(stored: Option<Entry>, profile: Profile, procs: seq<Proc>, jobs: seq<Job>): SerialEnd
    requires Among(jobs, procs)
    decreases |jobs|
  {
    if jobs == [] then SerialEnd(stored, map[], [])
    else
      var n := |jobs| - 1;
      RunJob(RunJobs(stored, profile, procs, jobs[..n]), profile, procs, jobs[n])
  }

  ghost function RunJob(before: SerialEnd, profile: Profile, procs: seq<Proc>, job: Job): SerialEnd
    requires job.pid < |procs|
  {
    var end := BeforeLogin(before.stored, profile, procs[job.pid].wantID, job.env);
    SerialEnd(end.stored, before.phases[job.pid := end.phase], before.sent + Solo.Tagged(job.pid, end.calls))
  }

  /** Each process runs at most once and reads the clock without going back, and no
      re-read fails. */
  ghost predicate Orderly(jobs: seq<Job>) {
    && (forall k, l :: 0 <= k < l < |jobs| ==>
          jobs[k].pid != jobs[l].pid && jobs[k].env.secondCheck <= jobs[l].env.firstCheck)
    && (forall k :: 0 <= k < |jobs| ==>
          jobs[k].env.firstCheck <= jobs[k].env.secondCheck && !jobs[k].env.reloadFails)
  }

  // ---------- The order of a concurrent run ----------

  /** The steps covered: any but those of logins and logouts. First reads, Saves and
      refreshes may fail and processes may die at any point; waiting for the lock and
      re-reading may fail while the entry is still the one read first. */
  predicate Quiet(s: State, a: Action)
    requires Enabled(s, a)
  {
    var pc := s.procs[a.pid].pc;
    && !pc.LoggingIn? && !pc.LoginSaving? && !pc.LoggingOut?
    && (a.choice.Fails? && (pc.AwaitLock? || pc.Locked?) ==> s.stored == Some(pc.stale))
  }

  predicate QuietRun(s: State, schedule: seq<Action>)
    requires Possible(s, schedule)
    decreases |schedule|
  {
    schedule == [] || (Quiet(s, schedule[0]) && QuietRun(Next(s, schedule[0]), schedule[1..]))
  }

  function EnvAt(now: int, reply: Reply, loadFails: bool, lockFails: bool, saveFails: bool): Env {
    Env(loadFails, now, lockFails, false, now, reply, saveFails, Denied, false)
  }

  function LastReply(sent: seq<Sent>): Reply {
    if sent == [] then Denied else sent[|sent| - 1].call.reply
  }

  /** A process takes its place in the order with the step that settles its result:
      the check that finds a valid entry, its Save, or a failure that comes before. */
  function Place(s: State, a: Action): seq<Job>
    requires Enabled(s, a)
  {
    var pc := s.procs[a.pid].pc;
    match pc
    case Start =>
      if a.choice.Fails? || (a.choice.Goes? && s.stored.None?)
      then [Job(a.pid, EnvAt(s.clock, Denied, a.choice.Fails?, false, false))] else []
    case Loaded(_) =>
      if a.choice.Check? && !NextPc(s, a).AwaitLock?
      then [Job(a.pid, EnvAt(a.choice.now, Denied, false, false, false))] else []
    case AwaitLock(_) => if a.choice.Fails? then [Job(a.pid, EnvAt(s.clock, Denied, false, true, false))] else []
    case Reloaded(_, _) =>
      if a.choice.Check? && !NextPc(s, a).Sending?
      then [Job(a.pid, EnvAt(a.choice.now, Denied, false, false, false))] else []
    case Sending(_) =>
      if a.choice.Answer? && !NextPc(s, a).Saving?
      then [Job(a.pid, EnvAt(s.clock, a.choice.reply, false, false, false))] else []
    case Saving(_, _) => [Job(a.pid, EnvAt(s.clock, LastReply(s.sent), false, false, !a.choice.Goes?))]
    case _ => []
  }

  function Order(s: State, schedule: seq<Action>): seq<Job>
    requires Possible(s, schedule)
    decreases |schedule|
  {
    if schedule == [] then [] else Place(s, schedule[0]) + Order(Next(s, schedule[0]), schedule[1..])
  }

  // ---------- The simulation ----------

  predicate Settled(pc: Pc) { pc.Unlocking? || pc.LoggingIn? || pc.Done? }

  function PhaseOf(pc: Pc): Phase {
    match pc
    case Unlocking(result) => if result.Some? then Finished(result.value) else NeedsLogin
    case Done(Returned(res)) => Finished(res)
    case Done(_) => ReadError
    case _ => NeedsLogin
  }

  /** The entry has expired and can be refreshed. */
  predicate Renewing(e: Entry, clock: int) { e.refresh != "" && !EntryValid(e, clock) }

  /** What a process that is not settled yet knows about the store. An entry it read
      before is either still there or can be told to have expired. */
  predicate UpToDate(pc: Pc, stored: Option<Entry>, clock: int) {
    match pc
    case Start => true
    case Loaded(e) => stored.Some? && (stored.value == e || Renewing(e, clock))
    case AwaitLock(e) => stored.Some? && Renewing(e, clock)
    case Locked(e) => stored.Some? && Renewing(e, clock)
    case Reloaded(e, reread) => stored.Some? && (reread == stored || (reread == None && stored == Some(e) && Renewing(e, clock)))
    case Sending(rt) => stored.Some? && stored.value.refresh == rt && Renewing(stored.value, clock)
    case Saving(rt, _) => stored.Some? && stored.value.refresh == rt && Renewing(stored.value, clock)
    case Unlocking(_) => true
    case LoggingIn => true
    case Done(outcome) => outcome.Returned? || outcome.ReadFailed?
    case Crashed => true
    case _ => false
  }

  /** The log of the concurrent run is the serial one, plus the call of a process
      that has its answer and is about to save it. */
  ghost predicate LogMatches(s: State, sent: seq<Sent>) {
    if exists i {:trigger s.procs[i]} :: 0 <= i < |s.procs| && s.procs[i].pc.Saving? then
      && |s.sent| > 0 && s.sent[..|s.sent| - 1] == sent
      && var last := s.sent[|s.sent| - 1];
         && last.pid < |s.procs| && s.procs[last.pid].pc.Saving? && last.call.RefreshCall?
         && last.call.rt == s.procs[last.pid].pc.rt
         && s.procs[last.pid].pc == AfterRefresh(last.call.rt, last.call.reply, s.procs[last.pid].wantID)
    else s.sent == sent
  }

  ghost predicate SameProcs(s0: State, s: State) {
    && s.profile == s0.profile && s.exclusive && |s.procs| == |s0.procs|
    && forall i {:trigger s.procs[i]} :: 0 <= i < |s.procs| ==> s.procs[i].wantID == s0.procs[i].wantID
  }

  ghost predicate AllUpToDate(s: State) {
    forall i {:trigger s.procs[i]} :: 0 <= i < |s.procs| ==> UpToDate(s.procs[i].pc, s.stored, s.clock)
  }

  ghost predicate PhasesMatch(s: State, phases: map<nat, Phase>) {
    && (forall i :: i in phases ==> i < |s.procs|)
    && forall i: nat {:trigger s.procs[i]} :: i < |s.procs| && !s.procs[i].pc.Crashed? ==>
         && (i in phases <==> Settled(s.procs[i].pc))
         && (i in phases ==> phases[i] == PhaseOf(s.procs[i].pc))
  }

  ghost predicate Simulates(s0: State, s: State, r: SerialEnd) {
    && SameProcs(s0, s) && LockInv(s) && AllUpToDate(s)
    && s.stored == r.stored && LogMatches(s, r.sent) && PhasesMatch(s, r.phases)
  }

  lemma UpToDateStep(s: State, a: Action)
    requires s.exclusive && LockInv(s) && AllUpToDate(s) && Enabled(s, a) && Quiet(s, a)
    ensures AllUpToDate(Next(s, a))
  {
    var t := Next(s, a);
    forall i | 0 <= i < |t.procs|
      ensures UpToDate(t.procs[i].pc, t.stored, t.clock)
    {
      assert UpToDate(s.procs[i].pc, s.stored, s.clock);
      assert UpToDate(s.procs[a.pid].pc, s.stored, s.clock);
      if i != a.pid {
        assert InCritical(s.procs[i].pc) ==> !InCritical(s.procs[a.pid].pc) by {
          assert InCritical(s.procs[i].pc) <==> s.lock == Some(i);
          assert InCritical(s.procs[a.pid].pc) <==> s.lock == Some(a.pid);
        }
      }
    }
  }

  /** The process has died, or has settled with the given phase. */
  predicate Ends(pc: Pc, phase: Phase) {
    pc.Crashed? || (Settled(pc) && PhaseOf(pc) == phase)
  }

  /** The serial effect of a step's job on the moving process, the store and the log. */
  lemma PlaceEffect(s: State, a: Action, r: SerialEnd, job: Job)
    requires s.exclusive && LockInv(s) && AllUpToDate(s) && Enabled(s, a) && Quiet(s, a)
    requires s.stored == r.stored && LogMatches(s, r.sent) && Place(s, a) == [job]
    ensures var end := BeforeLogin(s.stored, s.profile, s.procs[a.pid].wantID, job.env);
            var t := Next(s, a);
            && t.stored == end.stored && Ends(t.procs[a.pid].pc, end.phase)
            && end.calls == (if s.procs[a.pid].pc.Sending? then [CallOf(s, a)]
                             else if s.procs[a.pid].pc.Saving? then [s.sent[|s.sent| - 1].call]
                             else [])
  {
    if s.procs[a.pid].pc.Saving? {
      SaveEffect(s, a, r, job);
    } else {
      EarlyEffect(s, a, job);
    }
  }

  /** A process that settles before it has anything to save. */
  lemma EarlyEffect(s: State, a: Action, job: Job)
    requires AllUpToDate(s) && Enabled(s, a) && Quiet(s, a) && Place(s, a) == [job] && !s.procs[a.pid].pc.Saving?
    ensures var end := BeforeLogin(s.stored, s.profile, s.procs[a.pid].wantID, job.env);
            var t := Next(s, a);
            && t.stored == s.stored == end.stored && Ends(t.procs[a.pid].pc, end.phase)
            && (s.procs[a.pid].pc.Sending? ==> a.choice.Answer?)
            && end.calls == if s.procs[a.pid].pc.Sending? then [CallOf(s, a)] else []
  {
    assert UpToDate(s.procs[a.pid].pc, s.stored, s.clock);
  }

  /** A process that saves, fails to, or dies before it. */
  lemma SaveEffect(s: State, a: Action, r: SerialEnd, job: Job)
    requires s.exclusive && LockInv(s) && AllUpToDate(s) && Enabled(s, a) && Quiet(s, a)
    requires LogMatches(s, r.sent) && Place(s, a) == [job] && s.procs[a.pid].pc.Saving?
    ensures var end := BeforeLogin(s.stored, s.profile, s.procs[a.pid].wantID, job.env);
            var t := Next(s, a);
            && t.stored == end.stored && Ends(t.procs[a.pid].pc, end.phase)
            && |s.sent| > 0 && end.calls == [s.sent[|s.sent| - 1].call]
  {
    assert UpToDate(s.procs[a.pid].pc, s.stored, s.clock);
    OnlySaver(s, a.pid, r.sent);
    assert BeforeLogin(s.stored, s.profile, s.procs[a.pid].wantID, job.env) ==
           SendRefresh(s.stored, s.profile, s.procs[a.pid].wantID, s.stored.value.refresh, job.env);
  }

  /** The saving process made the last call. */
  lemma OnlySaver(s: State, i: nat, sent: seq<Sent>)
    requires s.exclusive && LockInv(s) && LogMatches(s, sent) && i < |s.procs| && s.procs[i].pc.Saving?
    ensures |s.sent| > 0 && s.sent[|s.sent| - 1].pid == i
  {
    var j := s.sent[|s.sent| - 1].pid;
    assert InCritical(s.procs[i].pc) <==> s.lock == Some(i);
    assert InCritical(s.procs[j].pc) <==> s.lock == Some(j);
  }

  /** The serial log after a step of the concurrent run. */
  ghost function LogAfter(s: State, a: Action, sent: seq<Sent>): seq<Sent>
    requires Enabled(s, a)
  {
    if Place(s, a) == [] then sent
    else sent + Solo.Tagged(a.pid, BeforeLogin(s.stored, s.profile, s.procs[a.pid].wantID, Place(s, a)[0].env).calls)
  }

  /** While one process is in its critical section, no other is. */
  lemma OthersOutside(s: State, i: nat)
    requires s.exclusive && LockInv(s) && i < |s.procs| && InCritical(s.procs[i].pc)
    ensures forall j {:trigger s.procs[j]} :: 0 <= j < |s.procs| && j != i ==> !InCritical(s.procs[j].pc)
  {
    assert InCritical(s.procs[i].pc) <==> s.lock == Some(i);
  }

  lemma LogStep(s: State, a: Action, r: SerialEnd)
    requires s.exclusive && LockInv(s) && AllUpToDate(s) && Enabled(s, a) && Quiet(s, a)
    requires s.stored == r.stored && LogMatches(s, r.sent)
    ensures LogMatches(Next(s, a), LogAfter(s, a, r.sent))
  {
    var pc := s.procs[a.pid].pc;
    if pc.Saving? {
      LogStepSaving(s, a, r);
    } else if pc.Sending? && a.choice.Answer? {
      LogStepSending(s, a, r);
    } else {
      LogStepSilent(s, a, r.sent);
      if Place(s, a) != [] {
        PlaceEffect(s, a, r, Place(s, a)[0]);
      }
    }
  }

  /** Any other step makes no call. */
  lemma LogStepSilent(s: State, a: Action, sent: seq<Sent>)
    requires Enabled(s, a) && Quiet(s, a) && LogMatches(s, sent) && !s.procs[a.pid].pc.Saving? && !a.choice.Answer?
    ensures LogMatches(Next(s, a), sent)
  {
    var t := Next(s, a);
    assert forall i {:trigger t.procs[i]} {:trigger s.procs[i]} :: 0 <= i < |t.procs| && i != a.pid ==> t.procs[i] == s.procs[i];
    assert t.sent == s.sent && !t.procs[a.pid].pc.Saving?;
  }

  /** Once saved, the pending call is part of the serial log. */
  lemma LogStepSaving(s: State, a: Action, r: SerialEnd)
    requires s.exclusive && LockInv(s) && AllUpToDate(s) && Enabled(s, a) && Quiet(s, a)
    requires s.stored == r.stored && LogMatches(s, r.sent) && s.procs[a.pid].pc.Saving?
    ensures LogMatches(Next(s, a), LogAfter(s, a, r.sent))
  {
    var t := Next(s, a);
    PlaceEffect(s, a, r, Place(s, a)[0]);
    OnlySaver(s, a.pid, r.sent);
    OthersOutside(s, a.pid);
    assert forall i {:trigger t.procs[i]} :: 0 <= i < |t.procs| ==> !t.procs[i].pc.Saving?;
    assert s.sent == s.sent[..|s.sent| - 1] + [s.sent[|s.sent| - 1]];
  }

  /** A refresh that has to be saved is pending; any other is settled at once. */
  lemma LogStepSending(s: State, a: Action, r: SerialEnd)
    requires s.exclusive && LockInv(s) && AllUpToDate(s) && Enabled(s, a) && Quiet(s, a)
    requires s.stored == r.stored && LogMatches(s, r.sent) && s.procs[a.pid].pc.Sending? && a.choice.Answer?
    ensures LogMatches(Next(s, a), LogAfter(s, a, r.sent))
  {
    var t := Next(s, a);
    var pc := s.procs[a.pid].pc;
    OthersOutside(s, a.pid);
    assert t.sent == s.sent + [Sent(a.pid, CallOf(s, a))] && s.sent == r.sent;
    assert t.sent[..|t.sent| - 1] == s.sent;
    if t.procs[a.pid].pc.Saving? {
      assert t.procs[a.pid].pc == AfterRefresh(pc.rt, a.choice.reply, t.procs[a.pid].wantID);
    } else {
      PlaceEffect(s, a, r, Place(s, a)[0]);
      assert forall i {:trigger t.procs[i]} :: 0 <= i < |t.procs| ==> !t.procs[i].pc.Saving?;
    }
  }

  /** A step without a job settles nobody. */
  lemma PhasesStep(s: State, a: Action, phases: map<nat, Phase>)
    requires AllUpToDate(s) && Enabled(s, a) && Quiet(s, a) && PhasesMatch(s, phases)
    requires Place(s, a) == []
    ensures PhasesMatch(Next(s, a), phases) && Next(s, a).stored == s.stored
  {
    var t := Next(s, a);
    assert UpToDate(s.procs[a.pid].pc, s.stored, s.clock);
    assert forall i {:trigger t.procs[i]} :: 0 <= i < |t.procs| && i != a.pid ==> t.procs[i] == s.procs[i];
    assert t.procs[a.pid].pc.Crashed? || Settled(t.procs[a.pid].pc) == Settled(s.procs[a.pid].pc);
  }

  /** A process that is given its place settles. */
  lemma PhaseAdded(s: State, a: Action, phases: map<nat, Phase>, phase: Phase)
    requires Enabled(s, a) && PhasesMatch(s, phases)
    requires Ends(Next(s, a).procs[a.pid].pc, phase)
    ensures PhasesMatch(Next(s, a), phases[a.pid := phase])
  {
    var t := Next(s, a);
    assert forall i {:trigger t.procs[i]} :: 0 <= i < |t.procs| && i != a.pid ==> t.procs[i] == s.procs[i];
  }

  lemma SameProcsStep(s0: State, s: State, a: Action)
    requires SameProcs(s0, s) && Enabled(s, a)
    ensures SameProcs(s0, Next(s, a))
  {
    var t := Next(s, a);
    assert forall i {:trigger t.procs[i]} :: 0 <= i < |t.procs| ==> t.procs[i].wantID == s.procs[i].wantID;
  }

  /** What the serial run adds for one step of the concurrent one. */
  ghost function Extended(s0: State, r: SerialEnd, place: seq<Job>): SerialEnd
    requires |place| <= 1 && Among(place, s0.procs)
  {
    if place == [] then r else RunJob(r, s0.profile, s0.procs, place[0])
  }

  lemma {:induction false} RunJobsExtended(s0: State, jobs: seq<Job>, place: seq<Job>)
    requires |place| <= 1 && Among(jobs, s0.procs) && Among(place, s0.procs)
    ensures Among(jobs + place, s0.procs)
    ensures RunJobs(s0.stored, s0.profile, s0.procs, jobs + place) ==
            Extended(s0, RunJobs(s0.stored, s0.profile, s0.procs, jobs), place)
  {
    if place == [] {
      assert jobs + place == jobs;
    } else {
      assert (jobs + place)[..|jobs|] == jobs;
    }
  }

  lemma ExtendedEffect(s0: State, s: State, a: Action, r: SerialEnd)
    requires Simulates(s0, s, r) && Enabled(s, a) && Quiet(s, a)
    ensures Among(Place(s, a), s0.procs)
    ensures var t, r' := Next(s, a), Extended(s0, r, Place(s, a));
            r'.stored == t.stored && r'.sent == LogAfter(s, a, r.sent) && PhasesMatch(t, r'.phases)
  {
    assert s.procs[a.pid].wantID == s0.procs[a.pid].wantID;
    if Place(s, a) == [] {
      PhasesStep(s, a, r.phases);
    } else {
      var job := Place(s, a)[0];
      PlaceEffect(s, a, r, job);
      PhaseAdded(s, a, r.phases, BeforeLogin(s.stored, s.profile, s.procs[a.pid].wantID, job.env).phase);
    }
  }

  lemma StepSimulates(s0: State, s: State, a: Action, r: SerialEnd)
    requires Simulates(s0, s, r) && Enabled(s, a) && Quiet(s, a)
    ensures Among(Place(s, a), s0.procs)
    ensures Simulates(s0, Next(s, a), Extended(s0, r, Place(s, a)))
  {
    LockStep(s, a);
    UpToDateStep(s, a);
    LogStep(s, a, r);
    SameProcsStep(s0, s, a);
    ExtendedEffect(s0, s, a, r);
  }

  // ---------- The order is one that sequential processes could have followed ----------

  predicate Past(pc: Pc) { Settled(pc) || pc.Crashed? }

  ghost predicate OrderlySoFar(s: State, jobs: seq<Job>) {
    && Orderly(jobs)
    && forall k :: 0 <= k < |jobs| ==>
         jobs[k].env.secondCheck <= s.clock && jobs[k].pid < |s.procs| && Past(s.procs[jobs[k].pid].pc)
  }

  /** A process takes its place once, with the clock of the step that settles it. */
  lemma PlaceTimes(s: State, a: Action, job: Job)
    requires AllUpToDate(s) && Enabled(s, a) && Quiet(s, a) && Place(s, a) == [job]
    ensures job.pid == a.pid && !job.env.reloadFails
    ensures s.clock <= job.env.firstCheck == job.env.secondCheck <= Next(s, a).clock
    ensures !Past(s.procs[a.pid].pc) && Past(NextPc(s, a))
  {
    assert UpToDate(s.procs[a.pid].pc, s.stored, s.clock);
  }

  lemma PastStays(s: State, a: Action)
    requires Enabled(s, a) && Quiet(s, a) && Past(s.procs[a.pid].pc)
    ensures Past(NextPc(s, a))
  {
  }

  lemma OrderlyStep(s: State, a: Action, jobs: seq<Job>)
    requires AllUpToDate(s) && Enabled(s, a) && Quiet(s, a) && OrderlySoFar(s, jobs)
    ensures OrderlySoFar(Next(s, a), jobs + Place(s, a))
  {
    var t := Next(s, a);
    assert forall i {:trigger t.procs[i]} :: 0 <= i < |t.procs| && i != a.pid ==> t.procs[i] == s.procs[i];
    if Past(s.procs[a.pid].pc) {
      PastStays(s, a);
    }
    var all := jobs + Place(s, a);
    if Place(s, a) != [] {
      PlaceTimes(s, a, Place(s, a)[0]);
      assert forall k :: 0 <= k < |all| ==> (if k < |jobs| then all[k] == jobs[k] else all[k] == Place(s, a)[0]);
    } else {
      assert all == jobs;
    }
  }

  ghost predicate Serialized(s0: State, s: State, jobs: seq<Job>) {
    && Among(jobs, s0.procs) && OrderlySoFar(s, jobs)
    && Simulates(s0, s, RunJobs(s0.stored, s0.profile, s0.procs, jobs))
  }

  lemma SerializedStep(s0: State, s: State, a: Action, jobs: seq<Job>)
    requires Serialized(s0, s, jobs) && Enabled(s, a) && Quiet(s, a)
    ensures Serialized(s0, Next(s, a), jobs + Place(s, a))
  {
    StepSimulates(s0, s, a, RunJobs(s0.stored, s0.profile, s0.procs, jobs));
    RunJobsExtended(s0, jobs, Place(s, a));
    OrderlyStep(s, a, jobs);
  }

  lemma Associate(x: seq<Job>, y: seq<Job>, z: seq<Job>)
    ensures x + y + z == x + (y + z)
  {
  }

  /** Induction over a quiet run together with the order it produces. */
  lemma {:induction false} AlongRun(inv: (State, seq<Job>) -> bool, s: State, schedule: seq<Action>, jobs: seq<Job>)
    requires forall s', a, jobs' :: inv(s', jobs') && Enabled(s', a) && Quiet(s', a) ==>
               inv(Next(s', a), jobs' + Place(s', a))
    requires inv(s, jobs) && Possible(s, schedule) && QuietRun(s, schedule)
    ensures inv(Exec(s, schedule), jobs + Order(s, schedule))
    decreases |schedule|
  {
    if schedule == [] {
      assert jobs + Order(s, schedule) == jobs;
    } else {
      var a := schedule[0];
      var place, rest := Place(s, a), Order(Next(s, a), schedule[1..]);
      assert Order(s, schedule) == place + rest;
      AlongRun(inv, Next(s, a), schedule[1..], jobs + place);
      Associate(jobs, place, rest);
    }
  }

  lemma SerializableFrom(s0: State, s: State, schedule: seq<Action>)
    requires Serialized(s0, s, []) && Possible(s, schedule) && QuietRun(s, schedule)
    ensures Serialized(s0, Exec(s, schedule), Order(s, schedule))
  {
    var inv := (s', jobs') => Serialized(s0, s', jobs');
    forall s', a, jobs' | inv(s', jobs') && Enabled(s', a) && Quiet(s', a)
      ensures inv(Next(s', a), jobs' + Place(s', a))
    {
      SerializedStep(s0, s', a, jobs');
    }
    AlongRun(inv, s, schedule, []);
    assert [] + Order(s, schedule) == Order(s, schedule);
  }

  /** Nothing has been serialized at the start. */
  lemma SerializedAtStart(s: State)
    requires Initial(s) && s.exclusive && (forall i :: 0 <= i < |s.procs| ==> s.procs[i].pc.Start?)
    ensures Serialized(s, s, [])
  {
    assert forall i {:trigger s.procs[i]} :: 0 <= i < |s.procs| ==> s.procs[i].pc.Start?;
  }

  /** `t` shows what running `jobs` one at a time from `s0` gives: the same stored
      entry, the same result for every process that lives and has one, and, when no process
      holds the lock, the same calls to the issuer with the same replies. */
  ghost predicate SameAsSerial(s0: State, t: State, jobs: seq<Job>) {
    && Among(jobs, s0.procs)
    && var serial := RunJobs(s0.stored, s0.profile, s0.procs, jobs);
       && t.stored == serial.stored
       && (t.lock == None ==> t.sent == serial.sent)
       && |t.procs| == |s0.procs|
       && forall i: nat {:trigger t.procs[i]} :: i < |t.procs| && !t.procs[i].pc.Crashed? ==>
            && (i in serial.phases <==> Settled(t.procs[i].pc))
            && (i in serial.phases ==> PhaseOf(t.procs[i].pc) == serial.phases[i])
  }

  /** Any interleaving of any number of runs, up to their results or their need to
      log in, equals running the processes in `Order` one at a time on a monotone clock. */
  lemma Serializable(s: State, schedule: seq<Action>)
    requires Initial(s) && s.exclusive && (forall i :: 0 <= i < |s.procs| ==> s.procs[i].pc.Start?)
    requires Possible(s, schedule) && QuietRun(s, schedule)
    ensures Orderly(Order(s, schedule)) && SameAsSerial(s, Exec(s, schedule), Order(s, schedule))
  {
    SerializedAtStart(s);
    SerializableFrom(s, s, schedule);
    SerializedMeans(s, Exec(s, schedule), Order(s, schedule));
  }

  lemma SerializedMeans(s0: State, t: State, jobs: seq<Job>)
    requires Serialized(s0, t, jobs)
    ensures SameAsSerial(s0, t, jobs)
  {
    if t.lock == None {
      assert forall i {:trigger t.procs[i]} :: 0 <= i < |t.procs| ==> !InCritical(t.procs[i].pc);
    }
  }
}
