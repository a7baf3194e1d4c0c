/** The processes of `Protocol` running over a chain of backends instead of a single
    cell, as with --token-store=auto. */
module SharedChain {
  import opened Types
  import opened Runner
  import opened Protocol
  import Chain
  import R = ChainRefinement
  import Safety
  import Winner

  /** Every backend answers or is unavailable, and at least one answers. */
  predicate Steady(bs: seq<Chain.BackendState>) {
    && bs != [] && R.Uniform(bs) && Chain.HardError(bs) == None
    && var b := bs[R.Serving(bs, Chain.Loading)];
       b.Error(Chain.Loading) == None && b.Error(Chain.Saving) == None
  }

  /** The profile's entry as the chain shows it. */
  function Cell(bs: seq<Chain.BackendState>, p: Profile): Option<Entry>
    requires bs != []
  {
    var m := R.ItemsOf(bs);
    if p in m then m[p] else None
  }

  /** The store operation a step performs. */
  function RequestOf(s: State, a: Action): Option<R.Request>
    requires Enabled(s, a)
  {
    var pc := s.procs[a.pid].pc;
    if !a.choice.Goes? then None
    else match pc
      case Start => Some(R.LoadOf(s.profile))
      case Locked(_) => Some(R.LoadOf(s.profile))
      case Saving(_, res) => Some(R.SaveOf(Persisted(s.profile, res)))
      case LoginSaving(res) => Some(R.SaveOf(Persisted(s.profile, res)))
      case LoggingOut => Some(R.DeleteOf(s.profile))
      case _ => None
  }

  function NextChain(bs: seq<Chain.BackendState>, s: State, a: Action): (bs': seq<Chain.BackendState>)
    requires bs != [] && Enabled(s, a)
    ensures |bs'| == |bs|
  {
    var r := RequestOf(s, a);
    if r.Some? then R.Serve(bs, r.value).0 else bs
  }

  /** Nothing goes wrong on the backend that answers. */
  lemma SteadyTerms(bs: seq<Chain.BackendState>)
    requires Steady(bs)
    ensures R.TermsOf(bs) == R.Terms(None, None, None, true, true)
  {
    R.HardErrorExactly(bs);
  }

  /** What the chain answers to a step that succeeds is what the single cell would
      have answered, and afterwards the chain shows what the cell holds. */
  lemma CellStep(bs: seq<Chain.BackendState>, s: State, a: Action)
    requires Steady(bs) && Enabled(s, a) && s.stored == Cell(bs, s.profile)
    ensures var bs' := NextChain(bs, s, a); Steady(bs') && R.SameFaults(bs, bs') && Next(s, a).stored == Cell(bs', s.profile)
    ensures RequestOf(s, a).Some? ==>
              R.Serve(bs, RequestOf(s, a).value).1 ==
                if RequestOf(s, a).value.LoadOf?
                then R.Loaded(if s.stored.Some? then Chain.Hit(s.stored.value) else Chain.Miss)
                else R.Stored(None)
  {
    var r := RequestOf(s, a);
    if r.Some? {
      SteadyTerms(bs);
      R.ServeRefines(bs, r.value);
      R.ServeTouches(bs, r.value);
      R.FaultsDecide(bs, NextChain(bs, s, a));
    }
  }

  function ExecChain(bs: seq<Chain.BackendState>, s: State, schedule: seq<Action>): (bs': seq<Chain.BackendState>)
    requires bs != [] && Possible(s, schedule)
    ensures |bs'| == |bs|
    decreases |schedule|
  {
    if schedule == [] then bs
    else ExecChain(NextChain(bs, s, schedule[0]), Next(s, schedule[0]), schedule[1..])
  }

  lemma {:induction false} CellAlways(bs: seq<Chain.BackendState>, s: State, schedule: seq<Action>)
    requires Steady(bs) && Possible(s, schedule) && s.stored == Cell(bs, s.profile)
    ensures var bs' := ExecChain(bs, s, schedule); Steady(bs') && Exec(s, schedule).stored == Cell(bs', s.profile)
    decreases |schedule|
  {
    if schedule != [] {
      CellStep(bs, s, schedule[0]);
      CellAlways(NextChain(bs, s, schedule[0]), Next(s, schedule[0]), schedule[1..]);
    }
  }

  /** `s` runs over the chain `bs`: it sees the chain's entry, and its lock excludes
      other processes just when the chain's lock is shared between them. */
  ghost predicate RunsOver(s: State, bs: seq<Chain.BackendState>) {
    && Steady(bs) && s.stored == Cell(bs, s.profile)
    && (s.exclusive <==> forall i, j :: i != j ==> Chain.LockFor(bs, i) == Chain.LockFor(bs, j))
  }

  lemma SharedMeansExclusive(s: State, bs: seq<Chain.BackendState>)
    requires RunsOver(s, bs)
    ensures s.exclusive <==> Chain.HasFile(bs)
  {
    Chain.FirstFileExists(bs);
    assert !Chain.HasFile(bs) ==> Chain.LockFor(bs, 0) != Chain.LockFor(bs, 1);
  }

  /** With a file backend anywhere in the chain, ordinary runs over it never reuse a
      refresh token, even when the entry lives in the keychain. */
  lemma ChainRunsNeverReuse(s: State, schedule: seq<Action>, bs: seq<Chain.BackendState>)
    requires RunsOver(s, bs) && Chain.HasFile(bs) && Initial(s) && Possible(s, schedule) && Safety.OrdinaryRun(s, schedule)
    requires "" !in s.issued && s.spent <= s.issued
    requires Safety.StoredToken(s) == "" || (Safety.StoredToken(s) in s.issued && Safety.StoredToken(s) !in s.spent)
    ensures Safety.NoReuse(Exec(s, schedule).sent)
    ensures Exec(s, schedule).stored == Cell(ExecChain(bs, s, schedule), s.profile)
  {
    SharedMeansExclusive(s, bs);
    CellAlways(bs, s, schedule);
    Safety.OrdinaryRunsNeverReuse(s, schedule);
  }

  /** Processes about to run over the chain, which shows them the expired entry `e`. */
  ghost predicate ExpiredInChain(s: State, bs: seq<Chain.BackendState>, e: Entry) {
    && RunsOver(s, bs) && Chain.HasFile(bs) && Cell(bs, s.profile) == Some(e)
    && Initial(s) && |s.procs| > 0 && (forall i :: 0 <= i < |s.procs| ==> s.procs[i].pc.Start?)
    && e.refresh != "" && !EntryValid(e, s.clock)
  }

  /** Whoever is done has the tokens of the one refresh, which the chain then shows. */
  lemma ChainShowsWinner(s: State, schedule: seq<Action>, bs: seq<Chain.BackendState>, e: Entry, horizon: int, i: nat)
    requires ExpiredInChain(s, bs, e) && Possible(s, schedule) && Winner.SmoothRun(s, schedule, e, horizon)
    requires i < |Exec(s, schedule).procs| && Exec(s, schedule).procs[i].pc.Done?
    ensures var t := Exec(s, schedule);
            && Winner.HasWon(s, t, i, e)
            && Cell(ExecChain(bs, s, schedule), s.profile) == t.stored
  {
    SharedMeansExclusive(s, bs);
    CellAlways(bs, s, schedule);
    Winner.AtMostOneWinner(s, schedule, e, horizon);
  }

  /** And all processes that find the same expired entry in it return the tokens of
      one refresh, which the chain then shows. */
  lemma ChainHasOneWinner(s: State, schedule: seq<Action>, bs: seq<Chain.BackendState>, e: Entry, horizon: int)
    requires ExpiredInChain(s, bs, e) && s.clock <= horizon && Possible(s, schedule) && Winner.SmoothRun(s, schedule, e, horizon)
    requires forall a :: Enabled(Exec(s, schedule), a) ==> !Winner.Smooth(Exec(s, schedule), a, e, horizon)
    ensures Winner.AllWon(s, Exec(s, schedule), e)
    ensures Cell(ExecChain(bs, s, schedule), s.profile) == Exec(s, schedule).stored
  {
    SharedMeansExclusive(s, bs);
    CellAlways(bs, s, schedule);
    Winner.OneWinner(s, schedule, e, horizon);
  }
}
