/** Any number of processes running against one profile of a shared store: the
    step system behind `Run`, `tryRefresh`, `login` and `Logout`. */
module Protocol {
  import opened Types
  import opened TokenResponse
  import opened Runner

  /** Where a process is. */
  datatype Pc =
    | Start                                             // before the first, unlocked Load
    | Loaded(first: Entry)                              // first Load hit, its validity not yet checked
    | AwaitLock(stale: Entry)                           // blocked in WithLock
    | Locked(stale: Entry)                              // lock taken, before the re-read
    | Reloaded(stale: Entry, reread: Option<Entry>)     // re-read done, validity not yet checked
    | Sending(rt: string)                               // Refresh about to be answered
    | Saving(rt: string, res: TokenSet)                 // Refresh answered, before Save
    | Unlocking(result: Option<TokenSet>)               // closure returned, lock not yet released
    | LoggingIn                                         // Login about to be answered
    | LoginSaving(res: TokenSet)                        // Login answered, before the unlocked Save
    | LoggingOut                                        // a Logout process, before Delete
    | Done(outcome: Outcome)
    | Crashed

  datatype Proc = Proc(pc: Pc, wantID: bool)

  /** How the environment resolves a step: a store or lock operation goes through
      or fails, the clock is read, the issuer answers, or the process dies. */
  datatype Choice = Goes | Fails | Check(now: int) | Answer(reply: Reply) | Crash

  /** A call to the issuer and the process that made it. */
  datatype Sent = Sent(pid: nat, call: Call)

  /** `exclusive` says whether WithLock excludes other processes (a file lock) or
      only other threads of the same process. `issued` and `spent` are the issuer's
      memory of refresh tokens; `verified` collects every id_token that passed
      verification. */
  datatype State = State(
    profile: Profile,
    exclusive: bool,
    stored: Option<Entry>,
    lock: Option<nat>,
    clock: int,
    procs: seq<Proc>,
    sent: seq<Sent>,
    issued: set<string>,
    spent: set<string>,
    verified: set<string>)

  datatype Action = Action(pid: nat, choice: Choice)

  predicate InCritical(pc: Pc) {
    pc.Locked? || pc.Reloaded? || pc.Sending? || pc.Saving? || pc.Unlocking?
  }

  predicate Over(pc: Pc) { pc.Done? || pc.Crashed? }

  /** What a process may do next. */
  predicate Enabled(s: State, a: Action) {
    a.pid < |s.procs| &&
    var pc := s.procs[a.pid].pc;
    match a.choice
    case Goes =>
      match pc {
        case AwaitLock(_) => s.exclusive ==> s.lock == None
        case Start => true
        case Locked(_) => true
        case Saving(_, _) => true
        case Unlocking(_) => true
        case LoginSaving(_) => true
        case LoggingOut => true
        case _ => false
      }
    case Fails => pc.Start? || pc.AwaitLock? || pc.Locked? || pc.Saving? || pc.LoginSaving? || pc.LoggingOut?
    case Check(now) => (pc.Loaded? || pc.Reloaded?) && s.clock <= now
    case Answer(_) => pc.Sending? || pc.LoggingIn?
    case Crash => !Over(pc)
  }

  // ---------- The issuer's side of a reply ----------

  /** Whether `reply` uses up the refresh token `rt` that was sent. */
  predicate Spends(rt: string, reply: Reply) {
    match reply
    case Denied => false
    case Lost(rotated) => rotated
    case Granted(tok, _, _) => tok.refresh != "" && tok.refresh != rt
  }

  function TokensIn(reply: Reply): set<string> {
    if reply.Granted? && reply.tok.refresh != "" then {reply.tok.refresh} else {}
  }

  /** The nonce the flow that got `reply` had sent: a refresh sends none. */
  function NonceSent(pc: Pc, reply: Reply): string {
    if pc.Sending? || !reply.Granted? then "" else reply.nonce
  }

  /** The id_token a reply proves genuine, given the nonce the flow sent. */
  function Proven(reply: Reply, nonce: string): set<string> {
    if reply.Granted? && Trusted(reply.verdict, nonce) && reply.tok.id != "" then {reply.tok.id} else {}
  }

  // ---------- One step ----------

  /** The pc after the validity check of the re-read entry. */
  function AfterRecheck(stale: Entry, reread: Option<Entry>, now: int): Pc {
    if reread.Some? && EntryValid(reread.value, now) then Unlocking(Some(EntryResult(reread.value)))
    else
      var rt := TokenToSend(stale, reread);
      if rt == "" then Unlocking(None) else Sending(rt)
  }

  function AfterRefresh(rt: string, reply: Reply, wantID: bool): Pc {
    if !reply.Granted? then Unlocking(None)
    else
      var res := ToResult(reply.tok, reply.verdict, "");
      if Fatal(res, wantID) then Unlocking(None) else Saving(rt, Refilled(res, rt))
  }

  function AfterLogin(reply: Reply, wantID: bool): Pc {
    if !reply.Granted? then Done(LoginFailed)
    else
      var res := ToResult(reply.tok, reply.verdict, reply.nonce);
      if Fatal(res, wantID) then Done(IDTokenInvalid) else LoginSaving(res)
  }

  /** Where a process goes when its store or lock operation succeeds. */
  function AfterSuccess(pc: Pc, stored: Option<Entry>): Pc {
    match pc
    case Start => if stored.Some? then Loaded(stored.value) else LoggingIn
    case AwaitLock(stale) => Locked(stale)
    case Locked(stale) => Reloaded(stale, stored)
    case Saving(_, res) => Unlocking(Some(res))
    case Unlocking(result) => if result.Some? then Done(Returned(result.value)) else LoggingIn
    case LoginSaving(res) => Done(Returned(res))
    case _ => Done(LoggedOut)
  }

  /** Where it goes when the operation fails. A failed re-read is treated as a miss. */
  function AfterFailure(pc: Pc): Pc {
    match pc
    case Start => Done(ReadFailed)
    case AwaitLock(_) => LoggingIn
    case Locked(stale) => Reloaded(stale, None)
    case Saving(_, _) => Unlocking(None)
    case LoginSaving(_) => Done(WriteFailed)
    case _ => Done(LogoutFailed)
  }

  function AfterCheck(pc: Pc, now: int): Pc
    requires pc.Loaded? || pc.Reloaded?
  {
    if pc.Reloaded? then AfterRecheck(pc.stale, pc.reread, now)
    else if EntryValid(pc.first, now) then Done(Returned(EntryResult(pc.first)))
    else if pc.first.refresh != "" then AwaitLock(pc.first)
    else LoggingIn
  }

  function NextPc(s: State, a: Action): Pc
    requires Enabled(s, a)
  {
    var p := s.procs[a.pid];
    match a.choice
    case Goes => AfterSuccess(p.pc, s.stored)
    case Fails => AfterFailure(p.pc)
    case Check(now) => AfterCheck(p.pc, now)
    case Answer(reply) => if p.pc.Sending? then AfterRefresh(p.pc.rt, reply, p.wantID) else AfterLogin(reply, p.wantID)
    case Crash => Crashed
  }

  function NextStored(s: State, a: Action): Option<Entry>
    requires Enabled(s, a)
  {
    var pc := s.procs[a.pid].pc;
    if !a.choice.Goes? then s.stored
    else if pc.Saving? || pc.LoginSaving? then Some(Persisted(s.profile, pc.res))
    else if pc.LoggingOut? then None
    else s.stored
  }

  /** The lock is released by its holder, or when its holder dies. */
  function NextLock(s: State, a: Action): Option<nat>
    requires Enabled(s, a)
  {
    var pc := s.procs[a.pid].pc;
    if a.choice.Goes? && pc.AwaitLock? && s.exclusive then Some(a.pid)
    else if ((a.choice.Goes? && pc.Unlocking?) || a.choice.Crash?) && s.lock == Some(a.pid) then None
    else s.lock
  }

  /** The call a step makes, with its reply. */
  function CallOf(s: State, a: Action): Call
    requires Enabled(s, a) && a.choice.Answer?
  {
    var pc := s.procs[a.pid].pc;
    if pc.Sending? then RefreshCall(pc.rt, a.choice.reply) else LoginCall(a.choice.reply)
  }

  function NextSpent(s: State, a: Action): set<string>
    requires Enabled(s, a)
  {
    var pc := s.procs[a.pid].pc;
    if a.choice.Answer? && pc.Sending? && Spends(pc.rt, a.choice.reply) then s.spent + {pc.rt} else s.spent
  }

  function Next(s: State, a: Action): State
    requires Enabled(s, a)
  {
    var pc := s.procs[a.pid].pc;
    State(
      s.profile,
      s.exclusive,
      NextStored(s, a),
      NextLock(s, a),
      if a.choice.Check? then a.choice.now else s.clock,
      s.procs[a.pid := s.procs[a.pid].(pc := NextPc(s, a))],
      if a.choice.Answer? then s.sent + [Sent(a.pid, CallOf(s, a))] else s.sent,
      if a.choice.Answer? then s.issued + TokensIn(a.choice.reply) else s.issued,
      NextSpent(s, a),
      if a.choice.Answer? then s.verified + Proven(a.choice.reply, NonceSent(pc, a.choice.reply)) else s.verified)
  }

  // ---------- Runs ----------

  /** Every action of the schedule is possible when its turn comes. */
  predicate Possible(s: State, schedule: seq<Action>)
    decreases |schedule|
  {
    schedule == [] || (Enabled(s, schedule[0]) && Possible(Next(s, schedule[0]), schedule[1..]))
  }

  function Exec(s: State, schedule: seq<Action>): State
    requires Possible(s, schedule)
    decreases |schedule|
  {
    if schedule == [] then s else Exec(Next(s, schedule[0]), schedule[1..])
  }

  /** Nothing has happened yet. Processes are runs or logouts, in any mix, with any
      --token-type. */
  predicate Initial(s: State) {
    && s.lock == None && s.sent == []
    && (forall i :: 0 <= i < |s.procs| ==> s.procs[i].pc.Start? || s.procs[i].pc.LoggingOut?)
  }
}
