/** The loopback callback: any number of request handlers racing into a one-slot
    channel that the login waits on. */
module Callback {
  import opened Types

  /** The query parameters of a request; an absent one reads as "". */
  datatype Query = Query(state: string, error: string, description: string, code: string)

  datatype Redirect = Code(code: string) | AuthorizationError(code: string, description: string)

  /** A handler that has its request, one that is about to offer its redirect to the
      channel, and one that has answered the browser. */
  datatype Stage = Received | Offering(redirect: Redirect) | Answered(status: nat)

  datatype Handler = Handler(q: Query, stage: Stage)

  datatype Waiter = Waiting | Returned(redirect: Redirect) | TimedOut

  /** `reached` lists the redirects in the order in which handlers reached the channel. */
  datatype Server = Server(
    expected: string,
    handlers: map<nat, Handler>,
    slot: Option<Redirect>,
    waiter: Waiter,
    reached: seq<Redirect>)

  /** A request arrives, its handler looks at the state parameter, the handler's select
      takes its send case or its default case, the waiter takes from the channel, or
      the waiter sees its context end. */
  datatype Action = Arrive(id: nat, q: Query) | Inspect(id: nat) | Send(id: nat) | Skip(id: nat) | Take | Expire

  function RedirectOf(q: Query): Redirect {
    if q.error != "" then AuthorizationError(q.error, q.description) else Code(q.code)
  }

  /** The buffered channel has room; a select takes its default case only if it has none. */
  predicate CanSend(s: Server) { s.slot.None? }

  predicate Enabled(s: Server, a: Action) {
    match a
    case Arrive(id, _) => id !in s.handlers
    case Inspect(id) => id in s.handlers && s.handlers[id].stage.Received?
    case Send(id) => id in s.handlers && s.handlers[id].stage.Offering? && CanSend(s)
    case Skip(id) => id in s.handlers && s.handlers[id].stage.Offering? && !CanSend(s)
    case Take => s.waiter.Waiting? && s.slot.Some?
    case Expire => s.waiter.Waiting?
  }

  function Next(s: Server, a: Action): Server
    requires Enabled(s, a)
  {
    match a
    case Arrive(id, q) => s.(handlers := s.handlers[id := Handler(q, Received)])
    case Inspect(id) =>
      var q := s.handlers[id].q;
      s.(handlers := s.handlers[id := Handler(q, if q.state != s.expected then Answered(400) else Offering(RedirectOf(q)))])
    case Send(id) =>
      var h := s.handlers[id];
      s.(handlers := s.handlers[id := Handler(h.q, Answered(200))],
         slot := Some(h.stage.redirect),
         reached := s.reached + [h.stage.redirect])
    case Skip(id) =>
      var h := s.handlers[id];
      s.(handlers := s.handlers[id := Handler(h.q, Answered(200))],
         reached := s.reached + [h.stage.redirect])
    case Take => s.(waiter := Returned(s.slot.value), slot := None)
    case Expire => s.(waiter := TimedOut)
  }

  predicate Possible(s: Server, schedule: seq<Action>)
    decreases |schedule|
  {
    schedule == [] || (Enabled(s, schedule[0]) && Possible(Next(s, schedule[0]), schedule[1..]))
  }

  function Exec(s: Server, schedule: seq<Action>): Server
    requires Possible(s, schedule)
    decreases |schedule|
  {
    if schedule == [] then s else Exec(Next(s, schedule[0]), schedule[1..])
  }

  function Listening(expected: string): Server {
    Server(expected, map[], None, Waiting, [])
  }

  // ---------- The first valid redirect wins ----------

  /** What the parameters of a request say: the error with its description if there is
      an error, and else the code. */
  predicate Says(q: Query, r: Redirect) {
    if q.error != "" then r == AuthorizationError(q.error, q.description) else r == Code(q.code)
  }

  /** Some request with the expected state brought `r`. */
  ghost predicate Brought(s: Server, r: Redirect) {
    exists id :: id in s.handlers && s.handlers[id].q.state == s.expected && Says(s.handlers[id].q, r)
  }

  ghost predicate FirstWins(s: Server) {
    && (s.waiter.Waiting? ==> s.slot == if s.reached == [] then None else Some(s.reached[0]))
    && (s.waiter.Returned? ==> s.reached != [] && s.waiter.redirect == s.reached[0])
    && (forall id :: id in s.handlers && s.handlers[id].stage.Offering? ==>
          s.handlers[id].q.state == s.expected && s.handlers[id].stage.redirect == RedirectOf(s.handlers[id].q))
    && (forall id :: id in s.handlers && s.handlers[id].stage.Answered? ==>
          s.handlers[id].stage.status == if s.handlers[id].q.state == s.expected then 200 else 400)
    && (forall k :: 0 <= k < |s.reached| ==> Brought(s, s.reached[k]))
  }

  lemma FirstWinsStep(s: Server, a: Action)
    requires FirstWins(s) && Enabled(s, a)
    ensures FirstWins(Next(s, a))
  {
    var t := Next(s, a);
    forall k | 0 <= k < |t.reached|
      ensures Brought(t, t.reached[k])
    {
      if k < |s.reached| {
        assert Brought(s, s.reached[k]);
        var id :| id in s.handlers && s.handlers[id].q.state == s.expected && Says(s.handlers[id].q, s.reached[k]);
        assert id in t.handlers && t.handlers[id].q == s.handlers[id].q;
      } else {
        assert a.id in t.handlers && t.handlers[a.id].q == s.handlers[a.id].q;
      }
    }
  }

  lemma {:induction false} FirstWinsAlways(s: Server, schedule: seq<Action>)
    requires FirstWins(s) && Possible(s, schedule)
    ensures FirstWins(Exec(s, schedule)) && Exec(s, schedule).expected == s.expected
    decreases |schedule|
  {
    if schedule != [] {
      FirstWinsStep(s, schedule[0]);
      FirstWinsAlways(Next(s, schedule[0]), schedule[1..]);
    }
  }

  /** However the handlers interleave: the waiter returns what the first handler to
      reach the channel brought, which came from a request with the expected state;
      while it waits it can return as soon as one has; and until then only the end of
      its context can make it stop waiting. */
  lemma FirstValidRedirectWins(expected: string, schedule: seq<Action>)
    requires Possible(Listening(expected), schedule)
    ensures var t := Exec(Listening(expected), schedule);
            && (t.waiter.Returned? ==>
                  && t.reached != [] && t.waiter.redirect == t.reached[0]
                  && t.expected == expected && Brought(t, t.waiter.redirect))
            && (t.waiter.Waiting? ==> (Enabled(t, Take) <==> t.reached != []))
            && (forall id :: id in t.handlers && t.handlers[id].stage.Answered? ==>
                  t.handlers[id].stage.status == if t.handlers[id].q.state == expected then 200 else 400)
            && (forall a :: Enabled(t, a) && t.waiter.Waiting? && t.reached == [] && !Next(t, a).waiter.Waiting? ==> a == Expire)
  {
    FirstWinsAlways(Listening(expected), schedule);
  }

  // ---------- No handler ever blocks ----------

  /** The case that the select of handler `id` takes. */
  function Select(s: Server, id: nat): Action {
    if CanSend(s) then Send(id) else Skip(id)
  }

  predicate HasAnswered(s: Server, id: nat) {
    id in s.handlers && s.handlers[id].stage.Answered?
  }

  /** A handler needs at most two steps, and each is possible in every state: a full
      channel, a waiter that has left or other handlers cannot hold it up. */
  lemma HandlersNeverBlock(s: Server, id: nat)
    requires id in s.handlers
    ensures exists schedule :: |schedule| <= 2 && Possible(s, schedule) && HasAnswered(Exec(s, schedule), id)
  {
    var stage := s.handlers[id].stage;
    if stage.Answered? {
      assert Possible(s, []) && Exec(s, []) == s;
    } else if stage.Offering? {
      TwoSteps(s, [Select(s, id)]);
    } else if s.handlers[id].q.state != s.expected {
      TwoSteps(s, [Inspect(id)]);
    } else {
      TwoSteps(s, [Inspect(id), Select(s, id)]);
    }
  }

  /** Unfolds a short schedule. */
  lemma TwoSteps(s: Server, x: seq<Action>)
    requires 1 <= |x| <= 2 && Enabled(s, x[0]) && (|x| == 2 ==> Enabled(Next(s, x[0]), x[1]))
    ensures Possible(s, x)
    ensures Exec(s, x) == if |x| == 1 then Next(s, x[0]) else Next(Next(s, x[0]), x[1])
  {
    if |x| == 1 {
      assert x[1..] == [];
      assert Possible(Next(s, x[0]), []);
    } else {
      assert x[1..] == [x[1]] && [x[1]][1..] == [];
      var u := Next(Next(s, x[0]), x[1]);
      assert Possible(u, []) && Exec(Next(s, x[0]), [x[1]]) == Exec(u, []) == u;
    }
  }

  // ---------- Requests with the wrong state change nothing ----------

  predicate Stray(s: Server, h: Handler) { h.q.state != s.expected }

  /** The server without the handlers of stray requests. */
  function WithoutStrays(s: Server): Server {
    s.(handlers := map id | id in s.handlers && !Stray(s, s.handlers[id]) :: s.handlers[id])
  }

  /** Whether a step belongs to a stray request. */
  predicate StrayStep(s: Server, a: Action)
    requires Enabled(s, a)
  {
    match a
    case Arrive(_, q) => q.state != s.expected
    case Inspect(id) => Stray(s, s.handlers[id])
    case Send(id) => Stray(s, s.handlers[id])
    case Skip(id) => Stray(s, s.handlers[id])
    case _ => false
  }

  /** The schedule with the steps of stray requests left out. */
  function Genuine(s: Server, schedule: seq<Action>): seq<Action>
    requires Possible(s, schedule)
    decreases |schedule|
  {
    if schedule == [] then []
    else
      var rest := Genuine(Next(s, schedule[0]), schedule[1..]);
      if StrayStep(s, schedule[0]) then rest else [schedule[0]] + rest
  }

  lemma StrayStepIsIdle(s: Server, a: Action)
    requires FirstWins(s) && Enabled(s, a) && StrayStep(s, a)
    ensures WithoutStrays(Next(s, a)) == WithoutStrays(s)
  {
    assert a.Send? || a.Skip? ==> !Stray(s, s.handlers[a.id]);
    assert WithoutStrays(Next(s, a)).handlers == WithoutStrays(s).handlers;
  }

  lemma GenuineStepIsKept(s: Server, a: Action)
    requires FirstWins(s) && Enabled(s, a) && !StrayStep(s, a)
    ensures Enabled(WithoutStrays(s), a) && WithoutStrays(Next(s, a)) == Next(WithoutStrays(s), a)
  {
    assert WithoutStrays(Next(s, a)).handlers == Next(WithoutStrays(s), a).handlers;
  }

  /** Leaving every request with a wrong or missing state out of a run gives a run
      with the same outcome, the same channel and the same redirects in the same order. */
  lemma {:induction false} StraysChangeNothing(s: Server, schedule: seq<Action>)
    requires FirstWins(s) && Possible(s, schedule)
    ensures Possible(WithoutStrays(s), Genuine(s, schedule))
    ensures Exec(WithoutStrays(s), Genuine(s, schedule)) == WithoutStrays(Exec(s, schedule))
    decreases |schedule|
  {
    if schedule != [] {
      var a := schedule[0];
      if StrayStep(s, a) {
        StrayStepIsIdle(s, a);
      } else {
        GenuineStepIsKept(s, a);
      }
      FirstWinsStep(s, a);
      StraysChangeNothing(Next(s, a), schedule[1..]);
      var rest := Genuine(Next(s, a), schedule[1..]);
      assert ([a] + rest)[1..] == rest;
    }
  }
}
