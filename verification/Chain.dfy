/** The file and keychain backends as a `ChainStore` sees them, the chain itself, and
    what a chain of any length promises. */
module Chain {
  import opened Types

  datatype Kind = FileBackend | KeychainBackend

  /** What an operation on a backend meets. `Expired` is a keychain operation whose
      caller's context ended first; `late` says that it takes effect nevertheless.
      `Broken` failures are told apart by a code. */
  datatype Fault = Healthy | UnsupportedPlatform | NoExecutable | Expired(late: bool) | Broken(code: int)

  datatype Op = Loading | Saving | Deleting

  /** What each operation on a backend meets. */
  datatype Faults = Faults(load: Fault, save: Fault, delete: Fault) {
    function For(op: Op): Fault {
      match op
      case Loading => load
      case Saving => save
      case Deleting => delete
    }
  }

  const NO_FAULTS := Faults(Healthy, Healthy, Healthy)

  /** An error as the chain classifies it: `unavailable` errors wrap ErrBackendUnavailable. */
  datatype StoreError = StoreError(unavailable: bool, fault: Fault)

  datatype Answer = Hit(e: Entry) | Miss | Failed(err: StoreError)

  /** `isUnavailable`. */
  predicate IsUnavailable(f: Fault) { f.UnsupportedPlatform? || f.NoExecutable? }

  /** The faults at which a chain goes on to its next backend, spelled out: a keychain
      without platform support or without its executable. */
  predicate StepsAside(kind: Kind, f: Fault) {
    kind.KeychainBackend? && (f.UnsupportedPlatform? || f.NoExecutable?)
  }

  /** A backend as a value. An item is the entry it decodes to, or `None` if it is corrupt. */
  datatype BackendState = BackendState(kind: Kind, faults: Faults, items: map<Profile, Option<Entry>>) {
    /** Only a keychain can be unavailable; every other fault is a plain failure. */
    function Error(op: Op): Option<StoreError> {
      var f := faults.For(op);
      if f.Healthy? then None else Some(StoreError(kind.KeychainBackend? && IsUnavailable(f), f))
    }

    predicate Unavailable(op: Op) { Error(op).Some? && Error(op).value.unavailable }

    /** The operation takes effect, whether or not its caller is told so. */
    predicate Happens(op: Op) {
      faults.For(op).Healthy? || (kind.KeychainBackend? && faults.For(op) == Expired(true))
    }

    function Load(p: Profile): Answer {
      if Error(Loading).Some? then Failed(Error(Loading).value)
      else if p in items && items[p].Some? then Hit(items[p].value)
      else Miss
    }

    function Save(e: Entry): BackendState {
      if Happens(Saving) then this.(items := items[e.profile := Some(e)]) else this
    }

    function Delete(p: Profile): BackendState {
      if Happens(Deleting) then this.(items := items - {p}) else this
    }
  }

  class Backend {
    const kind: Kind
    var faults: Faults
    var items: map<Profile, Option<Entry>>

    constructor (kind: Kind)
      ensures State() == BackendState(kind, NO_FAULTS, map[])
    {
      this.kind := kind;
      faults := NO_FAULTS;
      items := map[];
    }

    function State(): BackendState
      reads this
    {
      BackendState(kind, faults, items)
    }

    /** How an operation ends for its caller, and whether it takes effect. */
    method Attempt(op: Op) returns (err: Option<StoreError>, happens: bool)
      ensures err == State().Error(op) && happens == State().Happens(op)
      ensures err.Some? && err.value.unavailable <==> StepsAside(kind, faults.For(op))
    {
      var f := faults.For(op);
      if f.Healthy? {
        return None, true;
      }
      if kind.KeychainBackend? {
        if IsUnavailable(f) {
          return Some(StoreError(true, f)), false;
        }
        return Some(StoreError(false, f)), f.Expired? && f.late;
      }
      return Some(StoreError(false, f)), false;
    }

    method Load(p: Profile) returns (a: Answer)
      ensures a == State().Load(p)
      ensures !faults.load.Healthy? ==> a == Failed(StoreError(StepsAside(kind, faults.load), faults.load))
      ensures faults.load.Healthy? ==> a == if p in items && items[p].Some? then Hit(items[p].value) else Miss
    {
      var err, _ := Attempt(Loading);
      if err.Some? {
        return Failed(err.value);
      }
      if p !in items {
        return Miss;
      }
      return if items[p].Some? then Hit(items[p].value) else Miss;
    }

    method Save(e: Entry) returns (err: Option<StoreError>)
      modifies this`items
      ensures err == old(State().Error(Saving)) && State() == old(State()).Save(e)
      ensures err == if faults.save.Healthy? then None else Some(StoreError(StepsAside(kind, faults.save), faults.save))
      ensures items == if faults.save.Healthy? || (kind.KeychainBackend? && faults.save == Expired(true))
                       then old(items)[e.profile := Some(e)] else old(items)
    {
      var happens;
      err, happens := Attempt(Saving);
      if happens {
        items := items[e.profile := Some(e)];
      }
    }

    /** Deleting an absent item is no error. */
    method Delete(p: Profile) returns (err: Option<StoreError>)
      modifies this`items
      ensures err == old(State().Error(Deleting)) && State() == old(State()).Delete(p)
      ensures err == if faults.delete.Healthy? then None else Some(StoreError(StepsAside(kind, faults.delete), faults.delete))
      ensures items == if faults.delete.Healthy? || (kind.KeychainBackend? && faults.delete == Expired(true))
                       then old(items) - {p} else old(items)
    {
      var happens;
      err, happens := Attempt(Deleting);
      if happens {
        items := items - {p};
      }
    }
  }

  // ---------- The chain ----------

  /** Backend `k` is the one that answers: those before it are unavailable, and it is
      not, or there is none after it. */
  predicate Serves(bs: seq<BackendState>, op: Op, k: nat) {
    && k < |bs|
    && (forall j :: 0 <= j < k ==> bs[j].Unavailable(op))
    && (k == |bs| - 1 || !bs[k].Unavailable(op))
  }

  /** The first error of a Delete that is not unavailability. */
  function HardError(bs: seq<BackendState>): Option<StoreError> {
    if bs == [] then None
    else if HardError(bs[..|bs| - 1]).Some? then HardError(bs[..|bs| - 1])
    else if bs[|bs| - 1].Unavailable(Deleting) then None
    else bs[|bs| - 1].Error(Deleting)
  }

  function DeletedEverywhere(bs: seq<BackendState>, p: Profile): seq<BackendState> {
    seq(|bs|, i requires 0 <= i < |bs| => bs[i].Delete(p))
  }

  class ChainStore {
    const backends: seq<Backend>
    var logged: bool
    var notices: seq<Fault>

    constructor (backends: seq<Backend>)
      requires forall i, j :: 0 <= i < j < |backends| ==> backends[i] != backends[j]
      ensures this.backends == backends && Valid() && notices == []
    {
      this.backends := backends;
      logged := false;
      notices := [];
    }

    ghost predicate Valid()
      reads this
    {
      && (forall i, j :: 0 <= i < j < |backends| ==> backends[i] != backends[j])
      && |notices| == if logged then 1 else 0
    }

    function States(): (bs: seq<BackendState>)
      reads backends
      ensures |bs| == |backends| && forall i :: 0 <= i < |bs| ==> bs[i] == backends[i].State()
    {
      seq(|backends|, i requires 0 <= i < |backends| reads backends => backends[i].State())
    }

    method LogFallback(err: StoreError)
      requires Valid()
      modifies this
      ensures Valid() && logged
      ensures notices == if old(logged) then old(notices) else old(notices) + [err.fault]
    {
      if !logged {
        logged := true;
        notices := notices + [err.fault];
      }
    }

    /** The notice says which backend was skipped first, and comes at most once. */
    twostate predicate Noticed(op: Op, k: nat)
      reads this, backends
      requires k < |backends|
    {
      && logged == (old(logged) || k > 0)
      && notices == if old(logged) || k == 0 then old(notices) else old(notices) + [old(backends[0].faults).For(op)]
    }

    method Load(p: Profile) returns (a: Answer)
      requires Valid()
      modifies this
      ensures Valid()
      ensures backends == [] ==> a == Miss && unchanged(this)
      ensures backends != [] ==> exists k: nat :: Serves(States(), Loading, k) && a == States()[k].Load(p) && Noticed(Loading, k)
    {
      var i := 0;
      while i < |backends|
        invariant 0 <= i <= |backends| && Valid()
        invariant forall j :: 0 <= j < i ==> backends[j].State().Unavailable(Loading)
        invariant i == |backends| ==> i == 0
        invariant i < |backends| ==> Noticed(Loading, i)
        invariant i == 0 ==> unchanged(this)
      {
        a := backends[i].Load(p);
        if a.Failed? && a.err.unavailable && i < |backends| - 1 {
          LogFallback(a.err);
          i := i + 1;
          continue;
        }
        assert Serves(States(), Loading, i) && a == States()[i].Load(p);
        return;
      }
      a := Miss;
    }

    method Save(e: Entry) returns (err: Option<StoreError>)
      requires Valid()
      modifies this, backends
      ensures Valid()
      ensures backends == [] ==> err == None && unchanged(this)
      ensures backends != [] ==>
                exists k: nat :: Serves(old(States()), Saving, k) && err == old(States()[k].Error(Saving)) && Noticed(Saving, k) &&
                  States() == old(States())[k := old(States()[k]).Save(e)]
    {
      var i := 0;
      while i < |backends|
        invariant 0 <= i <= |backends| && Valid()
        invariant forall j :: 0 <= j < |backends| ==> backends[j].State() == old(backends[j].State())
        invariant forall j :: 0 <= j < i ==> backends[j].State().Unavailable(Saving)
        invariant i == |backends| ==> i == 0
        invariant i < |backends| ==> Noticed(Saving, i)
        invariant i == 0 ==> unchanged(this)
      {
        err := backends[i].Save(e);
        if err.Some? && err.value.unavailable && i < |backends| - 1 {
          LogFallback(err.value);
          i := i + 1;
          continue;
        }
        assert Serves(old(States()), Saving, i);
        assert States() == old(States())[i := old(States()[i]).Save(e)];
        return;
      }
      err := None;
    }

    /** Reaches every backend even after an error, and reports the first hard one. */
    method Delete(p: Profile) returns (firstErr: Option<StoreError>)
      requires Valid()
      modifies backends
      ensures Valid()
      ensures firstErr == HardError(old(States()))
      ensures States() == DeletedEverywhere(old(States()), p)
    {
      firstErr := None;
      var i := 0;
      while i < |backends|
        invariant 0 <= i <= |backends| && Valid()
        invariant forall j :: 0 <= j < i ==> backends[j].State() == old(backends[j].State()).Delete(p)
        invariant forall j :: i <= j < |backends| ==> backends[j].State() == old(backends[j].State())
        invariant firstErr == HardError(old(States())[..i])
      {
        var err := backends[i].Delete(p);
        assert old(States())[..i + 1][..i] == old(States())[..i];
        if err.Some? && !err.value.unavailable && firstErr.None? {
          firstErr := err;
        }
        i := i + 1;
      }
      assert old(States())[..i] == old(States());
    }

    /** Which lock WithLock runs its function under, for a caller in process `pid`. */
    method ChooseLock(pid: nat) returns (lock: LockID)
      ensures lock == LockFor(States(), pid)
      ensures backends == [] ==> lock == NoLock
      ensures backends != [] && (forall j :: 0 <= j < |backends| ==> backends[j].kind.KeychainBackend?) ==> lock == Mutex(pid)
      ensures forall i | 0 <= i < |backends| && backends[i].kind.FileBackend? ::
                (forall j :: 0 <= j < i ==> backends[j].kind.KeychainBackend?) ==> lock == Flock(i)
    {
      var i := 0;
      while i < |backends|
        invariant 0 <= i <= |backends|
        invariant forall j :: 0 <= j < i ==> !backends[j].kind.FileBackend?
      {
        if backends[i].kind.FileBackend? {
          FirstFileIs(States(), i);
          return Flock(i);
        }
        i := i + 1;
      }
      NoFirstFile(States());
      if |backends| == 0 {
        return NoLock;
      }
      return Mutex(pid);
    }
  }

  // ---------- Locks ----------

  /** The file lock of a file backend, shared by all processes; the mutex of one
      process's keychain store; or nothing, for an empty chain. */
  datatype LockID = Flock(backend: nat) | Mutex(pid: nat) | NoLock

  function FirstFile(bs: seq<BackendState>): Option<nat> {
    if bs == [] then None
    else if FirstFile(bs[..|bs| - 1]).Some? then FirstFile(bs[..|bs| - 1])
    else if bs[|bs| - 1].kind.FileBackend? then Some(|bs| - 1)
    else None
  }

  function LockFor(bs: seq<BackendState>, pid: nat): LockID {
    if FirstFile(bs).Some? then Flock(FirstFile(bs).value)
    else if bs == [] then NoLock
    else Mutex(pid)
  }

  lemma {:induction false} FirstFileIs(bs: seq<BackendState>, i: nat)
    requires i < |bs| && bs[i].kind.FileBackend? && forall j :: 0 <= j < i ==> !bs[j].kind.FileBackend?
    ensures FirstFile(bs) == Some(i)
  {
    if i < |bs| - 1 {
      FirstFileIs(bs[..|bs| - 1], i);
    } else {
      NoFirstFile(bs[..|bs| - 1]);
    }
  }

  lemma {:induction false} NoFirstFile(bs: seq<BackendState>)
    requires forall j :: 0 <= j < |bs| ==> !bs[j].kind.FileBackend?
    ensures FirstFile(bs) == None
  {
    if bs != [] {
      NoFirstFile(bs[..|bs| - 1]);
    }
  }

  predicate HasFile(bs: seq<BackendState>) {
    exists i :: 0 <= i < |bs| && bs[i].kind.FileBackend?
  }

  lemma {:induction false} FirstFileExists(bs: seq<BackendState>)
    ensures FirstFile(bs).Some? <==> HasFile(bs)
    ensures FirstFile(bs).Some? ==> FirstFile(bs).value < |bs| && bs[FirstFile(bs).value].kind.FileBackend?
  {
    if bs != [] {
      var init := bs[..|bs| - 1];
      FirstFileExists(init);
      if HasFile(init) {
        var i :| 0 <= i < |init| && init[i].kind.FileBackend?;
        assert bs[i].kind.FileBackend?;
      }
    }
  }

  /** Two processes run their critical sections under the same lock exactly when the
      chain has a file backend, at whatever position, wherever the entries live and
      whatever is unavailable. */
  lemma LockIsShared(bs: seq<BackendState>, bs': seq<BackendState>, i: nat, j: nat)
    requires bs != [] && i != j && |bs| == |bs'| && forall k :: 0 <= k < |bs| ==> bs'[k].kind == bs[k].kind
    ensures LockFor(bs, i) == LockFor(bs', j) <==> HasFile(bs)
  {
    FirstFileExists(bs);
    FirstFileExists(bs');
    SameFirstFile(bs, bs');
  }

  lemma {:induction false} SameFirstFile(bs: seq<BackendState>, bs': seq<BackendState>)
    requires |bs| == |bs'| && forall k :: 0 <= k < |bs| ==> bs'[k].kind == bs[k].kind
    ensures FirstFile(bs) == FirstFile(bs')
  {
    if bs != [] {
      SameFirstFile(bs[..|bs| - 1], bs'[..|bs| - 1]);
    }
  }
}
