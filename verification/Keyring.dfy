/** `runKeyringOp`: keychain operations on one item, each in a goroutine of its own
    that outlives a caller whose context ends first. */
module Keyring {
  import opened Types

  datatype Op = Get | Set(e: Entry) | Remove

  datatype Result = Found(e: Entry) | NotFound | Stored | Removed | Broken

  /** The goroutine: before the operation, between the operation and the send on its
      one-slot channel, and after it. */
  datatype Worker = Running | Performed(r: Result) | Ended

  datatype Caller = Waiting | Got(r: Result) | GaveUp

  datatype Call = Call(op: Op, worker: Worker, slot: Option<Result>, caller: Caller)

  /** The moments at which the keychain carries out, or refuses, an operation. */
  datatype Event = Event(id: nat, op: Op, r: Result)

  datatype Ring = Ring(item: Option<Entry>, calls: seq<Call>, log: seq<Event>)

  datatype Action = Begin(op: Op) | Perform(id: nat, breaks: bool) | Send(id: nat) | Receive(id: nat) | Expire(id: nat)

  function Answer(op: Op, item: Option<Entry>): Result {
    match op
    case Get => if item.Some? then Found(item.value) else NotFound
    case Set(_) => Stored
    case Remove => if item.Some? then Removed else NotFound
  }

  function Effect(op: Op, item: Option<Entry>): Option<Entry> {
    match op
    case Get => item
    case Set(e) => Some(e)
    case Remove => None
  }

  /** A send on a full channel would block; receiving and giving up both need a waiting caller. */
  predicate Enabled(s: Ring, a: Action) {
    match a
    case Begin(_) => true
    case Perform(id, _) => id < |s.calls| && s.calls[id].worker.Running?
    case Send(id) => id < |s.calls| && s.calls[id].worker.Performed? && s.calls[id].slot.None?
    case Receive(id) => id < |s.calls| && s.calls[id].caller.Waiting? && s.calls[id].slot.Some?
    case Expire(id) => id < |s.calls| && s.calls[id].caller.Waiting?
  }

  function Next(s: Ring, a: Action): Ring
    requires Enabled(s, a)
  {
    match a
    case Begin(op) => s.(calls := s.calls + [Call(op, Running, None, Waiting)])
    case Perform(id, breaks) =>
      var op := s.calls[id].op;
      var r := if breaks then Broken else Answer(op, s.item);
      Ring(if breaks then s.item else Effect(op, s.item),
           s.calls[id := s.calls[id].(worker := Performed(r))],
           s.log + [Event(id, op, r)])
    case Send(id) => s.(calls := s.calls[id := s.calls[id].(worker := Ended, slot := Some(s.calls[id].worker.r))])
    case Receive(id) => s.(calls := s.calls[id := s.calls[id].(slot := None, caller := Got(s.calls[id].slot.value))])
    case Expire(id) => s.(calls := s.calls[id := s.calls[id].(caller := GaveUp)])
  }

  predicate Possible(s: Ring, schedule: seq<Action>)
    decreases |schedule|
  {
    schedule == [] || (Enabled(s, schedule[0]) && Possible(Next(s, schedule[0]), schedule[1..]))
  }

  function Exec(s: Ring, schedule: seq<Action>): Ring
    requires Possible(s, schedule)
    decreases |schedule|
  {
    if schedule == [] then s else Exec(Next(s, schedule[0]), schedule[1..])
  }

  // ---------- What a caller is told ----------

  /** The item after the operations of `log` that were not refused. */
  function Replay(first: Option<Entry>, log: seq<Event>): Option<Entry> {
    if log == [] then first
    else
      var last := log[|log| - 1];
      var before := Replay(first, log[..|log| - 1]);
      if last.r.Broken? then before else Effect(last.op, before)
  }

  /** Event `k` is operation `id`'s, the only one it has, and `r` is the keychain's
      answer at that moment. */
  ghost predicate HappenedAt(first: Option<Entry>, log: seq<Event>, k: int, id: nat, op: Op, r: Result) {
    && 0 <= k < |log| && log[k] == Event(id, op, r)
    && (r.Broken? || r == Answer(op, Replay(first, log[..k])))
    && forall l :: 0 <= l < |log| && log[l].id == id ==> l == k
  }

  ghost predicate Happened(first: Option<Entry>, log: seq<Event>, id: nat, op: Op, r: Result) {
    exists k :: HappenedAt(first, log, k, id, op, r)
  }

  /** What each party of a call holds is the answer to its one operation, and the
      channel has room whenever the goroutine wants to send. */
  ghost predicate CallSound(first: Option<Entry>, s: Ring, id: nat)
    requires id < |s.calls|
  {
    var c := s.calls[id];
    && (c.worker.Running? ==> forall l :: 0 <= l < |s.log| ==> s.log[l].id != id)
    && (!c.worker.Ended? ==> c.slot == None && !c.caller.Got?)
    && (c.worker.Performed? ==> Happened(first, s.log, id, c.op, c.worker.r))
    && (c.slot.Some? ==> Happened(first, s.log, id, c.op, c.slot.value))
    && (c.caller.Got? ==> Happened(first, s.log, id, c.op, c.caller.r))
  }

  ghost predicate Sound(first: Option<Entry>, s: Ring) {
    && s.item == Replay(first, s.log)
    && (forall l :: 0 <= l < |s.log| ==> s.log[l].id < |s.calls|)
    && forall id: nat {:trigger s.calls[id]} :: id < |s.calls| ==> CallSound(first, s, id)
  }

  /** An operation of another call leaves what has happened as it was. */
  lemma StillHappened(first: Option<Entry>, log: seq<Event>, ev: Event, id: nat, op: Op, r: Result)
    requires Happened(first, log, id, op, r) && ev.id != id
    ensures Happened(first, log + [ev], id, op, r)
  {
    var k :| HappenedAt(first, log, k, id, op, r);
    assert (log + [ev])[..k] == log[..k];
    assert HappenedAt(first, log + [ev], k, id, op, r);
  }

  lemma PerformSound(first: Option<Entry>, s: Ring, a: Action, id: nat)
    requires Sound(first, s) && Enabled(s, a) && a.Perform? && id < |s.calls|
    ensures CallSound(first, Next(s, a), id)
  {
    var t := Next(s, a);
    var c := s.calls[id];
    assert CallSound(first, s, id);
    var ev := t.log[|s.log|];
    assert t.log == s.log + [ev];
    if id == a.id {
      assert t.log[..|s.log|] == s.log;
      assert HappenedAt(first, t.log, |s.log|, id, c.op, ev.r);
    } else {
      if c.worker.Performed? { StillHappened(first, s.log, ev, id, c.op, c.worker.r); }
      if c.slot.Some? { StillHappened(first, s.log, ev, id, c.op, c.slot.value); }
      if c.caller.Got? { StillHappened(first, s.log, ev, id, c.op, c.caller.r); }
    }
  }

  lemma SoundStep(first: Option<Entry>, s: Ring, a: Action)
    requires Sound(first, s) && Enabled(s, a)
    ensures Sound(first, Next(s, a))
  {
    var t := Next(s, a);
    forall id: nat | id < |t.calls|
      ensures CallSound(first, t, id)
    {
      if id < |s.calls| {
        assert CallSound(first, s, id);
        if a.Perform? {
          PerformSound(first, s, a, id);
        }
      }
    }
    if a.Perform? {
      assert t.log[..|s.log|] == s.log;
    }
  }

  lemma {:induction false} SoundAlways(first: Option<Entry>, s: Ring, schedule: seq<Action>)
    requires Sound(first, s) && Possible(s, schedule)
    ensures Sound(first, Exec(s, schedule))
    decreases |schedule|
  {
    if schedule != [] {
      SoundStep(first, s, schedule[0]);
      SoundAlways(first, Next(s, schedule[0]), schedule[1..]);
    }
  }

  /** Whatever callers do and whenever they give up: a caller that is told a result is
      told the one answer its one operation got when it was carried out, and a
      goroutine is never held up, whether or not anybody still waits for it. */
  lemma AnswersAreGenuine(item: Option<Entry>, schedule: seq<Action>, id: nat)
    requires Possible(Ring(item, [], []), schedule) && id < |Exec(Ring(item, [], []), schedule).calls|
    ensures var t := Exec(Ring(item, [], []), schedule);
            && t.item == Replay(item, t.log)
            && (t.calls[id].caller.Got? ==> Happened(item, t.log, id, t.calls[id].op, t.calls[id].caller.r))
            && (t.calls[id].worker.Running? ==> Enabled(t, Perform(id, false)))
            && (t.calls[id].worker.Performed? ==> Enabled(t, Send(id)))
  {
    SoundAlways(item, Ring(item, [], []), schedule);
    var t := Exec(Ring(item, [], []), schedule);
    assert CallSound(item, t, id);
  }

  // ---------- What the answers mean ----------

  /** Event `j` left `after` behind: a Set or a Remove that was not refused. */
  predicate Writes(ev: Event, after: Option<Entry>) {
    !ev.r.Broken? &&
    match ev.op
    case Get => false
    case Set(e) => after == Some(e)
    case Remove => after == None
  }

  /** A Get or a refused operation. */
  predicate WritesNothing(ev: Event) { ev.op.Get? || ev.r.Broken? }

  /** The item is what the last write left, and without one what it was at first. */
  lemma {:induction false} LastWriteStays(first: Option<Entry>, log: seq<Event>, j: int, after: Option<Entry>)
    requires -1 <= j < |log| && (if j == -1 then after == first else Writes(log[j], after))
    requires forall l :: j < l < |log| ==> WritesNothing(log[l])
    ensures Replay(first, log) == after
  {
    if j < |log| - 1 {
      LastWriteStays(first, log[..|log| - 1], j, after);
    }
  }

  /** So a caller whose Get was answered was told the entry last written before it was
      carried out, or that there was none; and one whose Set or Remove was answered,
      that the item is now that entry, or that it is gone. */
  lemma AnswersMean(first: Option<Entry>, log: seq<Event>, k: int, id: nat, op: Op, r: Result, j: int, after: Option<Entry>)
    requires HappenedAt(first, log, k, id, op, r) && !r.Broken?
    requires -1 <= j < k && (if j == -1 then after == first else Writes(log[j], after))
    requires forall l :: j < l < k ==> WritesNothing(log[l])
    ensures op.Get? ==> r == if after.Some? then Found(after.value) else NotFound
    ensures op.Set? ==> r == Stored && Replay(first, log[..k + 1]) == Some(op.e)
    ensures op.Remove? ==> r == (if after.Some? then Removed else NotFound) && Replay(first, log[..k + 1]) == None
  {
    LastWriteStays(first, log[..k], j, after);
    assert log[..k + 1][..k] == log[..k];
  }

  // ---------- What an abandoned operation can still do ----------

  predicate NothingNew(schedule: seq<Action>) {
    forall k :: 0 <= k < |schedule| ==> !schedule[k].Begin?
  }

  ghost predicate CanChange(s: Ring) {
    exists schedule :: Possible(s, schedule) && NothingNew(schedule) && Exec(s, schedule).item != s.item
  }

  /** Operation `id` has not been carried out, and would change the item if it were. */
  predicate Pending(s: Ring, id: nat) {
    id < |s.calls| && s.calls[id].worker.Running? && Effect(s.calls[id].op, s.item) != s.item
  }

  /** That every caller has returned does not make the item final: without any new
      call it can still change exactly when some goroutine has yet to carry out an
      operation that would change it. So a Save reported as timed out can take
      effect after, and over, a later one that was reported as done. */
  lemma LateEffectExactly(s: Ring)
    ensures CanChange(s) <==> exists id :: Pending(s, id)
  {
    if id :| Pending(s, id) {
      var x := [Perform(id, false)];
      assert x[1..] == [] && Possible(Next(s, x[0]), []);
      assert Possible(s, x) && NothingNew(x) && Exec(s, x) == Exec(Next(s, x[0]), []);
    } else if CanChange(s) {
      var schedule :| Possible(s, schedule) && NothingNew(schedule) && Exec(s, schedule).item != s.item;
      Final(s, schedule);
    }
  }

  lemma {:induction false} Final(s: Ring, schedule: seq<Action>)
    requires (forall id :: !Pending(s, id)) && Possible(s, schedule) && NothingNew(schedule)
    ensures Exec(s, schedule).item == s.item
    decreases |schedule|
  {
    if schedule != [] {
      var t := Next(s, schedule[0]);
      assert schedule[0].Perform? ==> !Pending(s, schedule[0].id);
      forall id
        ensures !Pending(t, id)
      {
        assert !Pending(s, id);
      }
      Final(t, schedule[1..]);
    }
  }
}
