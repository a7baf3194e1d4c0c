/** A chain of any length behaves as one map while availability is steady, and a
    logout on it is complete exactly when every copy could be reached. */
module ChainRefinement {
  import opened Types
  import opened Chain

  datatype Request = LoadOf(p: Profile) | SaveOf(e: Entry) | DeleteOf(p: Profile)

  datatype Response = Loaded(a: Answer) | Stored(err: Option<StoreError>)

  // ---------- The chain as a function on values ----------

  function Serving(bs: seq<BackendState>, op: Op): (k: nat)
    requires bs != []
    ensures Serves(bs, op, k)
  {
    if |bs| == 1 || !bs[0].Unavailable(op) then 0
    else
      var k := Serving(bs[1..], op);
      assert forall j :: 0 <= j < k + 1 ==> (if j == 0 then bs[0] else bs[1..][j - 1]) == bs[j];
      k + 1
  }

  lemma ServesOnly(bs: seq<BackendState>, op: Op, k: nat)
    requires bs != [] && Serves(bs, op, k)
    ensures k == Serving(bs, op)
  {
  }

  function Serve(bs: seq<BackendState>, r: Request): (seq<BackendState>, Response)
    requires bs != []
  {
    match r
    case LoadOf(p) => (bs, Loaded(bs[Serving(bs, Loading)].Load(p)))
    case SaveOf(e) =>
      var k := Serving(bs, Saving);
      (bs[k := bs[k].Save(e)], Stored(bs[k].Error(Saving)))
    case DeleteOf(p) => (DeletedEverywhere(bs, p), Stored(HardError(bs)))
  }

  /** One request to a real chain does what `Serve` says. */
  method Handle(store: ChainStore, r: Request) returns (resp: Response)
    requires store.Valid() && store.backends != []
    modifies store, store.backends
    ensures store.Valid() && store.backends != []
    ensures (store.States(), resp) == Serve(old(store.States()), r)
    ensures |store.notices| <= 1 && (old(store.logged) ==> store.notices == old(store.notices))
  {
    ghost var before := store.States();
    match r {
      case LoadOf(p) =>
        var a := store.Load(p);
        ghost var k: nat :| Serves(store.States(), Loading, k) && a == store.States()[k].Load(p);
        assert store.States() == before;
        ServesOnly(before, Loading, k);
        resp := Loaded(a);
      case SaveOf(e) =>
        var err := store.Save(e);
        ghost var k: nat :| Serves(before, Saving, k) && err == before[k].Error(Saving) &&
          store.States() == before[k := before[k].Save(e)];
        ServesOnly(before, Saving, k);
        resp := Stored(err);
      case DeleteOf(p) =>
        var err := store.Delete(p);
        resp := Stored(err);
    }
  }

  // ---------- What a chain does, from the kinds and faults of its backends alone ----------

  lemma ServingFirst(bs: seq<BackendState>, op: Op)
    requires bs != []
    ensures Serving(bs, op) == if |bs| > 1 && StepsAside(bs[0].kind, bs[0].faults.For(op)) then 1 + Serving(bs[1..], op) else 0
  {
  }

  /** A Load is answered by the first backend, unless that is a keychain without platform
      support or executable and another one follows: then by the rest of the chain. A
      keychain that fails otherwise, or times out, and any file backend are never
      skipped, and neither is a miss. */
  lemma LoadByFaults(bs: seq<BackendState>, p: Profile)
    requires bs != []
    ensures var b, (bs', resp) := bs[0], Serve(bs, LoadOf(p));
            && bs' == bs
            && resp ==
               if |bs| > 1 && StepsAside(b.kind, b.faults.load) then Serve(bs[1..], LoadOf(p)).1
               else if !b.faults.load.Healthy? then Loaded(Failed(StoreError(StepsAside(b.kind, b.faults.load), b.faults.load)))
               else if p in b.items && b.items[p].Some? then Loaded(Hit(b.items[p].value))
               else Loaded(Miss)
  {
    ServingFirst(bs, Loading);
  }

  /** A Save goes to the first backend under the same rule: a refused one is reported
      and nothing is written further down, so that a token never moves to the plaintext
      file because the keychain refused it. */
  lemma SaveByFaults(bs: seq<BackendState>, e: Entry)
    requires bs != []
    ensures var b, f, (bs', resp) := bs[0], bs[0].faults.save, Serve(bs, SaveOf(e));
            if |bs| > 1 && StepsAside(b.kind, f) then
              var (rest', resp') := Serve(bs[1..], SaveOf(e));
              bs' == [b] + rest' && resp == resp'
            else
              && bs'[1..] == bs[1..] && bs'[0].kind == b.kind && bs'[0].faults == b.faults
              && bs'[0].items == (if f.Healthy? || (b.kind.KeychainBackend? && f == Expired(true))
                                  then b.items[e.profile := Some(e)] else b.items)
              && resp == Stored(if f.Healthy? then None else Some(StoreError(StepsAside(b.kind, f), f)))
  {
    ServingFirst(bs, Saving);
    var k := Serving(bs, Saving);
    if k > 0 {
      assert bs[k := bs[k].Save(e)] == [bs[0]] + bs[1..][k - 1 := bs[k].Save(e)];
    }
  }

  /** A Delete is carried out on every backend and reports the first fault, if any, that
      is not a keychain without platform support or executable. */
  lemma DeleteByFaults(bs: seq<BackendState>, p: Profile)
    requires bs != []
    ensures var (bs', resp) := Serve(bs, DeleteOf(p));
            && |bs'| == |bs|
            && (forall i :: 0 <= i < |bs| ==>
                  var b, f := bs[i], bs[i].faults.delete;
                  && bs'[i].kind == b.kind && bs'[i].faults == b.faults
                  && bs'[i].items == if f.Healthy? || (b.kind.KeychainBackend? && f == Expired(true)) then b.items - {p} else b.items)
            && (forall i :: FirstFault(bs, i) ==> resp == Stored(Some(StoreError(false, bs[i].faults.delete))))
            && ((forall i :: !FirstFault(bs, i)) ==> resp == Stored(None))
  {
    HardErrorExactly(bs);
    forall i | FirstFault(bs, i)
      ensures HardError(bs) == Some(StoreError(false, bs[i].faults.delete))
    {
      assert bs[i].Error(Deleting).Some? && !bs[i].Unavailable(Deleting);
    }
    if HardError(bs).Some? {
      var i :| 0 <= i < |bs| && bs[i].Error(Deleting) == HardError(bs) && !bs[i].Unavailable(Deleting) &&
        (forall j :: 0 <= j < i ==> bs[j].faults.delete.Healthy? || bs[j].Unavailable(Deleting));
      assert FirstFault(bs, i);
    }
  }

  predicate Faulty(b: BackendState) { !b.faults.delete.Healthy? && !StepsAside(b.kind, b.faults.delete) }

  ghost predicate FirstFault(bs: seq<BackendState>, i: int) {
    0 <= i < |bs| && Faulty(bs[i]) && forall j :: 0 <= j < i ==> !Faulty(bs[j])
  }

  function ServeAll(bs: seq<BackendState>, rs: seq<Request>): (seq<BackendState>, seq<Response>)
    requires bs != []
    decreases |rs|
  {
    if rs == [] then (bs, [])
    else
      var (bs', resp) := Serve(bs, rs[0]);
      var rest := ServeAll(bs', rs[1..]);
      (rest.0, [resp] + rest.1)
  }

  // ---------- The map it refines ----------

  type Items = map<Profile, Option<Entry>>

  /** How the operations on a single store end, and which of them take effect. */
  datatype Terms = Terms(
    loadErr: Option<StoreError>, saveErr: Option<StoreError>, deleteErr: Option<StoreError>,
    saves: bool, deletes: bool)

  function ServeMap(m: Items, t: Terms, r: Request): (Items, Response) {
    match r
    case LoadOf(p) =>
      (m, Loaded(if t.loadErr.Some? then Failed(t.loadErr.value) else if p in m && m[p].Some? then Hit(m[p].value) else Miss))
    case SaveOf(e) => (if t.saves then m[e.profile := Some(e)] else m, Stored(t.saveErr))
    case DeleteOf(p) => (if t.deletes then m - {p} else m, Stored(t.deleteErr))
  }

  function ServeMapAll(m: Items, t: Terms, rs: seq<Request>): (Items, seq<Response>)
    decreases |rs|
  {
    if rs == [] then (m, [])
    else
      var (m', resp) := ServeMap(m, t, rs[0]);
      var rest := ServeMapAll(m', t, rs[1..]);
      (rest.0, [resp] + rest.1)
  }

  /** A backend that is unavailable to one operation is so to all. */
  predicate Uniform(bs: seq<BackendState>) {
    forall i :: 0 <= i < |bs| ==>
      bs[i].Unavailable(Loading) == bs[i].Unavailable(Saving) == bs[i].Unavailable(Deleting)
  }

  lemma UniformServing(bs: seq<BackendState>)
    requires bs != [] && Uniform(bs)
    ensures Serving(bs, Saving) == Serving(bs, Loading)
  {
    ServesOnly(bs, Saving, Serving(bs, Loading));
  }

  /** The items of the one backend that answers. */
  function ItemsOf(bs: seq<BackendState>): Items
    requires bs != []
  {
    bs[Serving(bs, Loading)].items
  }

  function TermsOf(bs: seq<BackendState>): Terms
    requires bs != []
  {
    var b := bs[Serving(bs, Loading)];
    Terms(b.Error(Loading), b.Error(Saving), HardError(bs), b.Happens(Saving), b.Happens(Deleting))
  }

  /** Backends that fail alike. */
  predicate SameFaults(bs: seq<BackendState>, bs': seq<BackendState>) {
    |bs| == |bs'| && forall i :: 0 <= i < |bs| ==> bs'[i].kind == bs[i].kind && bs'[i].faults == bs[i].faults
  }

  lemma {:induction false} FaultsDecide(bs: seq<BackendState>, bs': seq<BackendState>)
    requires SameFaults(bs, bs')
    ensures HardError(bs) == HardError(bs') && (Uniform(bs) ==> Uniform(bs'))
    ensures bs != [] ==> forall op :: Serving(bs, op) == Serving(bs', op)
  {
    if bs != [] {
      FaultsDecide(bs[..|bs| - 1], bs'[..|bs| - 1]);
      forall op
        ensures Serving(bs, op) == Serving(bs', op)
      {
        ServesOnly(bs, op, Serving(bs', op));
      }
    }
  }

  /** Only a Delete touches more than the serving backend, and a Save touches one key of it. */
  lemma ServeTouches(bs: seq<BackendState>, r: Request)
    requires bs != []
    ensures var bs' := Serve(bs, r).0;
            && SameFaults(bs, bs')
            && (r.LoadOf? ==> bs' == bs)
            && (r.SaveOf? ==> forall i :: 0 <= i < |bs| ==>
                  (i != Serving(bs, Saving) ==> bs'[i] == bs[i]) && bs'[i].items - {r.e.profile} == bs[i].items - {r.e.profile})
  {
    match r
    case LoadOf(_) =>
    case SaveOf(e) =>
      var k := Serving(bs, Saving);
      SaveTouches(bs[k], e);
      assert forall i :: 0 <= i < |bs| ==> Serve(bs, r).0[i] == if i == k then bs[k].Save(e) else bs[i];
    case DeleteOf(p) =>
      assert forall i :: 0 <= i < |bs| ==> Serve(bs, r).0[i] == bs[i].Delete(p);
  }

  lemma SaveTouches(b: BackendState, e: Entry)
    ensures b.Save(e).items - {e.profile} == b.items - {e.profile}
    ensures b.Save(e).kind == b.kind && b.Save(e).faults == b.faults
  {
  }

  lemma ServeRefines(bs: seq<BackendState>, r: Request)
    requires bs != [] && Uniform(bs)
    ensures var (bs', resp) := Serve(bs, r);
            bs' != [] && (ItemsOf(bs'), resp) == ServeMap(ItemsOf(bs), TermsOf(bs), r) && TermsOf(bs') == TermsOf(bs)
  {
    var bs' := Serve(bs, r).0;
    var k := Serving(bs, Loading);
    ServeTouches(bs, r);
    FaultsDecide(bs, bs');
    UniformServing(bs);
    match r {
      case LoadOf(_) =>
      case SaveOf(e) => assert bs'[k] == bs[k].Save(e);
      case DeleteOf(p) => assert bs'[k] == bs[k].Delete(p);
    }
  }

  /** Over every sequence of requests, a chain with a steady pattern of availability
      answers as a single map does, whatever else goes wrong with its operations, as
      long as each goes on ending the same way. */
  lemma {:induction false} ChainRefinesMap(bs: seq<BackendState>, rs: seq<Request>)
    requires bs != [] && Uniform(bs)
    ensures var (bs', resps) := ServeAll(bs, rs);
            bs' != [] && SameFaults(bs, bs') && (ItemsOf(bs'), resps) == ServeMapAll(ItemsOf(bs), TermsOf(bs), rs)
    decreases |rs|
  {
    if rs != [] {
      var bs' := Serve(bs, rs[0]).0;
      ServeRefines(bs, rs[0]);
      ServeTouches(bs, rs[0]);
      FaultsDecide(bs, bs');
      ChainRefinesMap(bs', rs[1..]);
    }
  }

  /** What later backends hold never shows while an earlier one answers, not even on a miss. */
  lemma LaterBackendsHidden(bs: seq<BackendState>, bs': seq<BackendState>, p: Profile)
    requires bs != [] && SameFaults(bs, bs') && forall i :: 0 <= i <= Serving(bs, Loading) ==> bs'[i] == bs[i]
    ensures Serve(bs', LoadOf(p)).1 == Serve(bs, LoadOf(p)).1
  {
    FaultsDecide(bs, bs');
  }

  // ---------- Logout under changing availability ----------

  function WithFaults(bs: seq<BackendState>, fs: seq<Faults>): seq<BackendState>
    requires |fs| == |bs|
  {
    seq(|bs|, i requires 0 <= i < |bs| => bs[i].(faults := fs[i]))
  }

  /** A request that meets the given faults. */
  datatype Step = Step(fs: seq<Faults>, r: Request)

  ghost predicate Fit(bs: seq<BackendState>, steps: seq<Step>) {
    forall k :: 0 <= k < |steps| ==> |steps[k].fs| == |bs|
  }

  function ServeStep(bs: seq<BackendState>, step: Step): (seq<BackendState>, Response)
    requires bs != [] && |step.fs| == |bs|
  {
    Serve(WithFaults(bs, step.fs), step.r)
  }

  ghost predicate NoCopy(bs: seq<BackendState>, p: Profile) {
    forall i :: 0 <= i < |bs| ==> p !in bs[i].items
  }

  lemma NoCopyStep(bs: seq<BackendState>, step: Step, p: Profile)
    requires bs != [] && |step.fs| == |bs| && NoCopy(bs, p) && !(step.r.SaveOf? && step.r.e.profile == p)
    ensures var (bs', resp) := ServeStep(bs, step);
            |bs'| == |bs| && NoCopy(bs', p) && (step.r == LoadOf(p) ==> !resp.a.Hit?)
  {
  }

  /** No Load of `p` among the steps finds an entry. */
  ghost predicate NeverFound(bs: seq<BackendState>, steps: seq<Step>, p: Profile)
    requires bs != [] && Fit(bs, steps)
    decreases |steps|
  {
    steps == [] ||
    var (bs', resp) := ServeStep(bs, steps[0]);
    (steps[0].r == LoadOf(p) ==> !resp.a.Hit?) && |bs'| == |bs| && Fit(bs', steps[1..]) && NeverFound(bs', steps[1..], p)
  }

  lemma {:induction false} GoneForGood(bs: seq<BackendState>, steps: seq<Step>, p: Profile)
    requires bs != [] && Fit(bs, steps) && NoCopy(bs, p)
    requires forall k :: 0 <= k < |steps| && steps[k].r.SaveOf? ==> steps[k].r.e.profile != p
    ensures NeverFound(bs, steps, p)
    decreases |steps|
  {
    if steps != [] {
      NoCopyStep(bs, steps[0], p);
      GoneForGood(ServeStep(bs, steps[0]).0, steps[1..], p);
    }
  }

  /** A Delete leaves no copy exactly when it took effect on every backend that had one.
      That it returns no error says less: an unavailable backend keeps its copy silently. */
  lemma DeleteIsCompleteExactly(bs: seq<BackendState>, p: Profile)
    requires bs != []
    ensures var (bs', resp) := Serve(bs, DeleteOf(p));
            && (NoCopy(bs', p) <==> forall i :: 0 <= i < |bs| && p in bs[i].items ==> bs[i].Happens(Deleting))
            && (resp.err == None <==> forall i :: 0 <= i < |bs| ==> bs[i].faults.delete.Healthy? || bs[i].Unavailable(Deleting))
  {
    HardErrorExactly(bs);
    var bs' := DeletedEverywhere(bs, p);
    assert forall i :: 0 <= i < |bs| ==> bs'[i] == bs[i].Delete(p);
  }

  lemma {:induction false} HardErrorExactly(bs: seq<BackendState>)
    ensures HardError(bs) == None <==> forall i :: 0 <= i < |bs| ==> bs[i].faults.delete.Healthy? || bs[i].Unavailable(Deleting)
    ensures HardError(bs).Some? ==>
              exists i :: 0 <= i < |bs| && bs[i].Error(Deleting) == HardError(bs) && !bs[i].Unavailable(Deleting) &&
                (forall j :: 0 <= j < i ==> bs[j].faults.delete.Healthy? || bs[j].Unavailable(Deleting))
  {
    if bs != [] {
      var init := bs[..|bs| - 1];
      HardErrorExactly(init);
      if HardError(init).Some? {
        var i :| 0 <= i < |init| && init[i].Error(Deleting) == HardError(init) && !init[i].Unavailable(Deleting) &&
          (forall j :: 0 <= j < i ==> init[j].faults.delete.Healthy? || init[j].Unavailable(Deleting));
        assert bs[i] == init[i];
        assert forall j :: 0 <= j < i ==> bs[j] == init[j];
      } else {
        assert forall j :: 0 <= j < |bs| - 1 ==> bs[j] == init[j];
      }
    }
  }

  /** After a Delete that every backend answered, no Load before the next Save to the
      profile finds an entry, whatever becomes unavailable or fails meanwhile. */
  lemma LogoutIsComplete(bs: seq<BackendState>, p: Profile, steps: seq<Step>)
    requires bs != [] && (forall i :: 0 <= i < |bs| ==> bs[i].faults.delete.Healthy?) && Fit(bs, steps)
    requires forall k :: 0 <= k < |steps| && steps[k].r.SaveOf? ==> steps[k].r.e.profile != p
    ensures var (bs', resp) := Serve(bs, DeleteOf(p));
            resp.err == None && |bs'| == |bs| && Fit(bs', steps) && NeverFound(bs', steps, p)
  {
    DeleteIsCompleteExactly(bs, p);
    GoneForGood(Serve(bs, DeleteOf(p)).0, steps, p);
  }

  /** A copy of the profile that nothing but keychains stand before. */
  ghost predicate Exposed(bs: seq<BackendState>, p: Profile, i: int) {
    0 <= i < |bs| && p in bs[i].items && bs[i].items[p].Some? && forall j :: 0 <= j < i ==> bs[j].kind.KeychainBackend?
  }

  ghost predicate Finds(bs: seq<BackendState>, fs: seq<Faults>, p: Profile)
    requires bs != []
  {
    |fs| == |bs| && Serve(WithFaults(bs, fs), LoadOf(p)).1.a.Hit?
  }

  /** A copy that a Delete left behind comes back under some later pattern of faults
      exactly when every backend before it is a keychain, since only keychains step aside. */
  lemma ComesBackExactly(bs: seq<BackendState>, p: Profile)
    requires bs != []
    ensures (exists fs :: Finds(bs, fs, p)) <==> (exists i :: Exposed(bs, p, i))
  {
    if fs :| Finds(bs, fs, p) {
      FoundIsExposed(bs, fs, p);
    }
    if i :| Exposed(bs, p, i) {
      ExposedIsFound(bs, p, i);
    }
  }

  lemma FoundIsExposed(bs: seq<BackendState>, fs: seq<Faults>, p: Profile)
    requires bs != [] && Finds(bs, fs, p)
    ensures Exposed(bs, p, Serving(WithFaults(bs, fs), Loading))
  {
    var cs := WithFaults(bs, fs);
    var k := Serving(cs, Loading);
    forall j | 0 <= j < k
      ensures bs[j].kind.KeychainBackend?
    {
      assert cs[j].Unavailable(Loading) && bs[j].kind == cs[j].kind;
    }
    assert cs[k].items == bs[k].items;
  }

  lemma ExposedIsFound(bs: seq<BackendState>, p: Profile, i: nat)
    requires bs != [] && Exposed(bs, p, i)
    ensures exists fs :: Finds(bs, fs, p)
  {
    var fs := seq(|bs|, j => if j < i then NO_FAULTS.(load := UnsupportedPlatform) else NO_FAULTS);
    var cs := WithFaults(bs, fs);
    assert Serves(cs, Loading, i) by {
      assert forall j :: 0 <= j < i ==> cs[j].Unavailable(Loading);
    }
    ServesOnly(cs, Loading, i);
    assert cs[i].Load(p).Hit?;
    assert Finds(bs, fs, p);
  }
}
