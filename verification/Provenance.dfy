/** Where the tokens in the cache and on stdout come from, over whole runs of any
    number of processes, whatever fails, crashes or logs out, under either lock. */
module Provenance {
  import opened Types
  import opened Runner
  import opened Protocol
  import Output

  // ---------- id_tokens ----------

  /** The id_token a process carries. */
  function CarriedID(pc: Pc): string {
    match pc
    case Loaded(e) => e.id
    case Reloaded(_, reread) => if reread.Some? then reread.value.id else ""
    case Saving(_, res) => res.id
    case Unlocking(result) => if result.Some? then result.value.id else ""
    case LoginSaving(res) => res.id
    case Done(Returned(res)) => res.id
    case _ => ""
  }

  /** A result that is about to be stored or has been returned. */
  function ResultOf(pc: Pc): Option<TokenSet> {
    match pc
    case Saving(_, res) => Some(res)
    case LoginSaving(res) => Some(res)
    case Unlocking(result) => result
    case Done(Returned(res)) => Some(res)
    case _ => None
  }

  function StoredID(s: State): string {
    if s.stored.Some? then s.stored.value.id else ""
  }

  predicate Genuine(id: string, verified: set<string>) {
    id == "" || id in verified
  }

  /** The reply to `call` has the id_token `id`, which was accepted, and with the nonce
      of the login if that had sent one. */
  predicate Vouches(call: Call, id: string) {
    && call.reply.Granted? && call.reply.tok.id == id != "" && call.reply.verdict.Accepted?
    && (call.LoginCall? && call.reply.nonce != "" ==> call.reply.verdict.nonce == call.reply.nonce)
  }

  /** The log shows such a reply. */
  ghost predicate Vouched(sent: seq<Sent>, id: string) {
    exists k {:trigger sent[k]} :: 0 <= k < |sent| && Vouches(sent[k].call, id)
  }

  ghost predicate IDInv(s: State, before: set<string>) {
    && Genuine(StoredID(s), s.verified)
    && (forall id :: id in s.verified ==> id in before || Vouched(s.sent, id))
    && forall i {:trigger s.procs[i]} :: 0 <= i < |s.procs| ==>
         && Genuine(CarriedID(s.procs[i].pc), s.verified)
         && (s.procs[i].wantID && ResultOf(s.procs[i].pc).Some? ==> !ResultOf(s.procs[i].pc).value.idTokenError)
  }

  lemma VouchedStep(s: State, a: Action, before: set<string>)
    requires Enabled(s, a) && (forall id :: id in s.verified ==> id in before || Vouched(s.sent, id))
    ensures var t := Next(s, a); forall id :: id in t.verified ==> id in before || Vouched(t.sent, id)
  {
    var t := Next(s, a);
    forall id | id in t.verified
      ensures id in before || Vouched(t.sent, id)
    {
      if id in s.verified {
        if id !in before {
          var k :| 0 <= k < |s.sent| && Vouches(s.sent[k].call, id);
          assert t.sent[k] == s.sent[k];
        }
      } else {
        assert t.sent[|s.sent|] == Sent(a.pid, CallOf(s, a));
      }
    }
  }

  /** The moving process carries an id_token only from its store read or from a
      verified reply. */
  lemma CarriedStep(s: State, a: Action)
    requires Enabled(s, a) && Genuine(StoredID(s), s.verified) && Genuine(CarriedID(s.procs[a.pid].pc), s.verified)
    ensures var t := Next(s, a); Genuine(CarriedID(t.procs[a.pid].pc), t.verified) && Genuine(StoredID(t), t.verified)
  {
  }

  lemma ResultStep(s: State, a: Action)
    requires Enabled(s, a) && s.procs[a.pid].wantID
    requires ResultOf(s.procs[a.pid].pc).Some? ==> !ResultOf(s.procs[a.pid].pc).value.idTokenError
    ensures var r := ResultOf(Next(s, a).procs[a.pid].pc); r.Some? ==> !r.value.idTokenError
  {
  }

  lemma IDStep(s: State, a: Action, before: set<string>)
    requires IDInv(s, before) && Enabled(s, a)
    ensures IDInv(Next(s, a), before)
  {
    var t := Next(s, a);
    VouchedStep(s, a, before);
    CarriedStep(s, a);
    if s.procs[a.pid].wantID {
      ResultStep(s, a);
    }
    assert s.verified <= t.verified;
    assert forall i {:trigger t.procs[i]} :: 0 <= i < |t.procs| && i != a.pid ==> t.procs[i] == s.procs[i];
  }

  lemma {:induction false} IDAlways(s: State, schedule: seq<Action>, before: set<string>)
    requires IDInv(s, before) && Possible(s, schedule)
    ensures IDInv(Exec(s, schedule), before)
    decreases |schedule|
  {
    if schedule != [] {
      IDStep(s, schedule[0], before);
      IDAlways(Next(s, schedule[0]), schedule[1..], before);
    }
  }

  lemma {:induction false} ProcsKeepType(s: State, schedule: seq<Action>, i: nat)
    requires Possible(s, schedule) && i < |s.procs|
    ensures i < |Exec(s, schedule).procs| && Exec(s, schedule).procs[i].wantID == s.procs[i].wantID
    decreases |schedule|
  {
    if schedule != [] {
      ProcsKeepType(Next(s, schedule[0]), schedule[1..], i);
    }
  }

  /** Starting from a cache whose id_token was verified, every id_token ever cached
      or returned by a run, and so every one printed bare or as a credential, was
      verified before or came in a reply that passed verification and its nonce check.
      With --token-type=id_token a reply that fails verification is at no moment about
      to be stored, and never returned. */
  lemma IDTokensAreVerified(s: State, schedule: seq<Action>, i: nat)
    requires Initial(s) && Genuine(StoredID(s), s.verified) && Possible(s, schedule) && i < |s.procs|
    ensures var t := Exec(s, schedule);
            && i < |t.procs|
            && (StoredID(t) == "" || StoredID(t) in s.verified || Vouched(t.sent, StoredID(t)))
            && (s.procs[i].wantID && ResultOf(t.procs[i].pc).Some? ==> !ResultOf(t.procs[i].pc).value.idTokenError)
            && (t.procs[i].pc.Done? && t.procs[i].pc.outcome.Returned? ==>
                  var id := t.procs[i].pc.outcome.res.id;
                  id == "" || id in s.verified || Vouched(t.sent, id))
  {
    assert IDInv(s, s.verified) by {
      forall j | 0 <= j < |s.procs|
        ensures CarriedID(s.procs[j].pc) == "" && ResultOf(s.procs[j].pc).None?
      {
        assert s.procs[j].pc.Start? || s.procs[j].pc.LoggingOut?;
      }
    }
    IDAlways(s, schedule, s.verified);
    ProcsKeepType(s, schedule, i);
  }

  // ---------- id_tokens in the full document ----------

  /** `extra` is empty or what process `i` got in a reply of its own. */
  ghost predicate ExtraFrom(sent: seq<Sent>, i: nat, extra: map<Key, Json>) {
    extra == map[] ||
    exists k {:trigger sent[k]} :: 0 <= k < |sent| && sent[k].pid == i && sent[k].call.reply.Granted? && sent[k].call.reply.tok.extra == extra
  }

  ghost predicate ExtraInv(s: State) {
    forall i {:trigger s.procs[i]} :: 0 <= i < |s.procs| && ResultOf(s.procs[i].pc).Some? ==>
      ExtraFrom(s.sent, i, ResultOf(s.procs[i].pc).value.extra)
  }

  lemma ExtraKept(sent: seq<Sent>, c: Sent, i: nat, extra: map<Key, Json>)
    requires ExtraFrom(sent, i, extra)
    ensures ExtraFrom(sent + [c], i, extra)
  {
    if extra != map[] {
      var k :| 0 <= k < |sent| && sent[k].pid == i && sent[k].call.reply.Granted? && sent[k].call.reply.tok.extra == extra;
      assert (sent + [c])[k] == sent[k];
    }
  }

  /** Where the extensions of the moving process's result come from. */
  lemma ExtraFlow(s: State, a: Action)
    requires Enabled(s, a) && ResultOf(NextPc(s, a)).Some?
    ensures var extra := ResultOf(NextPc(s, a)).value.extra;
            || extra == map[]
            || (a.choice.Answer? && a.choice.reply.Granted? && extra == a.choice.reply.tok.extra)
            || (!a.choice.Answer? && ResultOf(s.procs[a.pid].pc).Some? && extra == ResultOf(s.procs[a.pid].pc).value.extra)
  {
    match a.choice
    case Answer(_) =>
    case Goes =>
    case _ =>
  }

  lemma ExtraStep(s: State, a: Action)
    requires ExtraInv(s) && Enabled(s, a)
    ensures ExtraInv(Next(s, a))
  {
    var t := Next(s, a);
    forall i | 0 <= i < |t.procs| && ResultOf(t.procs[i].pc).Some?
      ensures ExtraFrom(t.sent, i, ResultOf(t.procs[i].pc).value.extra)
    {
      if i == a.pid {
        ExtraFlow(s, a);
        assert s.procs[a.pid] == s.procs[a.pid];
        if a.choice.Answer? {
          assert t.sent[|s.sent|] == Sent(i, CallOf(s, a));
        }
      } else {
        assert t.procs[i] == s.procs[i];
        if a.choice.Answer? {
          ExtraKept(s.sent, t.sent[|s.sent|], i, ResultOf(s.procs[i].pc).value.extra);
        }
      }
    }
  }

  lemma {:induction false} ExtraAlways(s: State, schedule: seq<Action>)
    requires ExtraInv(s) && Possible(s, schedule)
    ensures ExtraInv(Exec(s, schedule))
    decreases |schedule|
  {
    if schedule != [] {
      ExtraStep(s, schedule[0]);
      ExtraAlways(Next(s, schedule[0]), schedule[1..]);
    }
  }

  /** The value is an id_token that was verified before or in this run. */
  ghost predicate VerifiedValue(v: Json, before: set<string>, sent: seq<Sent>) {
    v.Str? && (v.s in before || Vouched(sent, v.s))
  }

  /** The document has an id_token member that was never verified. */
  ghost predicate ShowsUnverified(doc: map<Key, Json>, before: set<string>, sent: seq<Sent>) {
    Exact(Field.IDToken) in doc && !VerifiedValue(doc[Exact(Field.IDToken)], before, sent)
  }

  /** The exact reach of verification for the full document, over any run: what a
      process prints as its id_token was verified unless an extension of that very name
      replaces it, and extensions only come from a reply the process got itself. No
      response parsed by `ParseResponse` has one, but `toResult` also takes the object
      that a library response may carry in a member named "_extensions". */
  lemma FullDocumentExactly(s: State, schedule: seq<Action>, i: nat, doc: map<Key, Json>, format: int -> string)
    requires Initial(s) && Genuine(StoredID(s), s.verified) && Possible(s, schedule)
    requires i < |s.procs| && i < |Exec(s, schedule).procs|
    requires Exec(s, schedule).procs[i].pc.Done? && Exec(s, schedule).procs[i].pc.outcome.Returned?
    requires Output.Describes(doc, Exec(s, schedule).procs[i].pc.outcome.res, format)
    ensures var t := Exec(s, schedule);
            var extra := t.procs[i].pc.outcome.res.extra;
            && ExtraFrom(t.sent, i, extra)
            && (ShowsUnverified(doc, s.verified, t.sent) <==>
                Exact(Field.IDToken) in extra && !VerifiedValue(extra[Exact(Field.IDToken)], s.verified, t.sent))
  {
    IDTokensAreVerified(s, schedule, i);
    assert ExtraInv(s) by {
      forall j | 0 <= j < |s.procs|
        ensures ResultOf(s.procs[j].pc).None?
      {
        assert s.procs[j].pc.Start? || s.procs[j].pc.LoggingOut?;
      }
    }
    ExtraAlways(s, schedule);
    var res := Exec(s, schedule).procs[i].pc.outcome.res;
    assert ResultOf(Exec(s, schedule).procs[i].pc) == Some(res);
    Output.IDTokenMember(doc, res, format);
  }

  // ---------- The ability to refresh ----------

  /** The profile can be refreshed, and so it stays when pending refreshes are stored. */
  ghost predicate Renewable(s: State) {
    && s.stored.Some? && s.stored.value.refresh != ""
    && forall i {:trigger s.procs[i]} :: 0 <= i < |s.procs| ==>
         && (s.procs[i].pc.Sending? ==> s.procs[i].pc.rt != "")
         && (s.procs[i].pc.Saving? ==> s.procs[i].pc.res.refresh != "")
  }

  /** The steps that lose it: storing a login's result that has no refresh token, and
      deleting the entry. */
  predicate Forgets(s: State, a: Action)
    requires Enabled(s, a)
  {
    a.choice.Goes? &&
    var pc := s.procs[a.pid].pc;
    pc.LoggingOut? || (pc.LoginSaving? && pc.res.refresh == "")
  }

  /** A step keeps a profile refreshable exactly when it is neither. */
  lemma ForgettingExactly(s: State, a: Action)
    requires Renewable(s) && Enabled(s, a)
    ensures Renewable(Next(s, a)) <==> !Forgets(s, a)
  {
    var t := Next(s, a);
    assert s.procs[a.pid] == s.procs[a.pid];
    assert forall i {:trigger t.procs[i]} :: 0 <= i < |t.procs| && i != a.pid ==> t.procs[i] == s.procs[i];
  }

  predicate Retains(s: State, schedule: seq<Action>)
    requires Possible(s, schedule)
    decreases |schedule|
  {
    schedule == [] || (!Forgets(s, schedule[0]) && Retains(Next(s, schedule[0]), schedule[1..]))
  }

  lemma {:induction false} RenewableAlways(s: State, schedule: seq<Action>)
    requires Renewable(s) && Possible(s, schedule) && Retains(s, schedule)
    ensures Renewable(Exec(s, schedule))
    decreases |schedule|
  {
    if schedule != [] {
      ForgettingExactly(s, schedule[0]);
      RenewableAlways(Next(s, schedule[0]), schedule[1..]);
    }
  }

  /** Refreshing never costs the ability to refresh, whether or not the issuer sends
      a new refresh token and whatever fails or crashes on the way. */
  lemma RefreshingKeepsRefreshToken(s: State, schedule: seq<Action>)
    requires Initial(s) && s.stored.Some? && s.stored.value.refresh != ""
    requires Possible(s, schedule) && Retains(s, schedule)
    ensures Exec(s, schedule).stored.Some? && Exec(s, schedule).stored.value.refresh != ""
  {
    assert forall i {:trigger s.procs[i]} :: 0 <= i < |s.procs| ==> s.procs[i].pc.Start? || s.procs[i].pc.LoggingOut?;
    RenewableAlways(s, schedule);
  }
}
