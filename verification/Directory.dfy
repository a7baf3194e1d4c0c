/** The file store as one process runs it, and its place among the interleavings of
    `FileStore`. */
module Directory {
  import opened Types
  import opened Names
  import opened FileStore

  /** The operation of Save that fails, if any; a failing write leaves `n` bytes. */
  datatype Trouble = NoTrouble | NoDir | NoTemp | NoWrite(n: nat) | NoClose | NoChmod | NoRename

  predicate Plausible(c: Config, e: Entry, trouble: Trouble) {
    trouble.NoWrite? ==> trouble.n < |c.encode(e)|
  }

  /** What a failed Save has put into its temporary file. */
  function Leftover(c: Config, e: Entry, mode: nat, trouble: Trouble): File
    requires Plausible(c, e, trouble)
  {
    match trouble
    case NoWrite(n) => File(c.encode(e)[..n], mode)
    case NoRename => File(c.encode(e), PRIVATE)
    case _ => File(c.encode(e), mode)
  }

  function SaveAlone(c: Config, dir: map<string, File>, e: Entry, tmp: string, mode: nat, trouble: Trouble, removeFails: bool): map<string, File>
    requires Plausible(c, e, trouble)
  {
    if trouble.NoTrouble? then dir[Path(c, e.profile) := File(c.encode(e), PRIVATE)]
    else if trouble.NoDir? || trouble.NoTemp? || !removeFails then dir
    else dir[tmp := Leftover(c, e, mode, trouble)]
  }

  class Store {
    const c: Config
    var files: map<string, File>

    constructor (c: Config, files: map<string, File>)
      ensures this.c == c && this.files == files
    {
      this.c := c;
      this.files := files;
    }

    /** Save with its `success` flag and deferred clean-up. CreateTemp picks the
        unused name made from `suffix` and some mode. */
    method Save(e: Entry, suffix: string, mode: nat, trouble: Trouble, removeFails: bool) returns (ok: bool)
      requires Plausible(c, e, trouble) && TempName(suffix) !in files
      modifies this
      ensures ok <==> trouble.NoTrouble?
      ensures files == SaveAlone(c, old(files), e, TempName(suffix), mode, trouble, removeFails)
      // A Save that succeeds stores exactly this entry, and one that fails changes no entry.
      ensures ok ==> files == old(files)[Path(c, e.profile) := File(c.encode(e), 6 * 64)]
      ensures !ok && (!removeFails || trouble.NoDir? || trouble.NoTemp?) ==> files == old(files)
      // All that a failed Save can leave behind is its temporary file, with part of the bytes.
      ensures !ok ==> files - {TempName(suffix)} == old(files)
      ensures !ok && TempName(suffix) in files ==> files[TempName(suffix)].data <= c.encode(e)
    {
      if trouble.NoDir? || trouble.NoTemp? {
        return false;
      }
      NotTemporary(c.hash, e.profile, suffix);
      var tmpName := TempName(suffix);
      var success := false;
      files := files[tmpName := File([], mode)];
      var n := if trouble.NoWrite? then trouble.n else |c.encode(e)|;
      files := files[tmpName := File(c.encode(e)[..n], mode)];
      if !trouble.NoWrite? && !trouble.NoClose? {
        assert c.encode(e)[..n] == c.encode(e);
        if !trouble.NoChmod? {
          files := files[tmpName := File(files[tmpName].data, PRIVATE)];
          if !trouble.NoRename? {
            files := (files - {tmpName})[Path(c, e.profile) := files[tmpName]];
            success := true;
          }
        }
      }
      if !success && !removeFails {
        files := files - {tmpName};
      }
      assert n == |c.encode(e)| ==> c.encode(e)[..n] == c.encode(e);
      return success;
    }

    /** Absent and undecodable files are misses; other read errors are reported. */
    method Load(p: Profile, fails: bool) returns (ok: bool, entry: Option<Entry>)
      ensures ok == !fails
      ensures entry == if !fails && Path(c, p) in files then c.decode(files[Path(c, p)].data) else None
    {
      if fails {
        return false, None;
      }
      var name := Path(c, p);
      if name !in files {
        return true, None;
      }
      return true, c.decode(files[name].data);
    }

    /** Deleting an absent file is no error. */
    method Delete(p: Profile, fails: bool) returns (ok: bool)
      modifies this
      ensures ok == !fails
      ensures files == if fails then old(files) else old(files) - {Path(c, p)}
    {
      if fails {
        return false;
      }
      files := files - {Path(c, p)};
      return true;
    }
  }

  /** What was saved last is what Load returns, until the next Save or Delete of the
      profile, whatever other profiles do. */
  method SaveThenLoad(store: Store, e: Entry, suffix: string, mode: nat, other: Entry, suffix': string, trouble': Trouble, removeFails': bool)
    returns (entry: Option<Entry>)
    requires ValidConfig(store.c) && TempName(suffix) !in store.files && TempName(suffix') !in store.files
    requires Plausible(store.c, other, trouble') && other.profile != e.profile
    requires NUL !in e.profile.issuer && NUL !in other.profile.issuer
    modifies store
    ensures entry == Some(e)
  {
    var ok := store.Save(e, suffix, mode, NoTrouble, false);
    NotTemporary(store.c.hash, e.profile, suffix');
    FilesDiffer(store.c.hash, e.profile, other.profile, suffix');
    ok := store.Save(other, suffix', mode, trouble', removeFails');
    ok, entry := store.Load(e.profile, false);
  }

  // ---------- One uninterrupted Save among the interleavings ----------

  ghost predicate Reaches(c: Config, s: FS, t: FS) {
    exists schedule :: Possible(c, s, schedule) && Exec(c, s, schedule) == t
  }

  lemma {:induction false} ExecAppend(c: Config, s: FS, x: seq<Action>, a: Action)
    requires Possible(c, s, x) && Enabled(c, Exec(c, s, x), a)
    ensures Possible(c, s, x + [a]) && Exec(c, s, x + [a]) == Next(c, Exec(c, s, x), a)
    decreases |x|
  {
    if x == [] {
      assert [a][1..] == [];
      assert Possible(c, Next(c, s, a), []);
    } else {
      assert (x + [a])[1..] == x[1..] + [a];
      ExecAppend(c, Next(c, s, x[0]), x[1..], a);
    }
  }

  /** Process `i` goes on. */
  lemma Then(c: Config, s: FS, t: FS, i: nat, choice: Choice) returns (u: FS)
    requires Reaches(c, s, t) && Enabled(c, t, Action(i, choice))
    ensures Reaches(c, s, u) && i < |u.procs|
    ensures u.procs[i] == NextPc(c, t, Action(i, choice)) && u.dir == NextDir(c, t, Action(i, choice))
  {
    var x :| Possible(c, s, x) && Exec(c, s, x) == t;
    ExecAppend(c, s, x, Action(i, choice));
    u := Next(c, t, Action(i, choice));
  }

  /** Running one Save to its end, with any one operation failing, is one of the
      schedules of `FileStore`, and leaves the directory as `SaveAlone` says. */
  lemma SaveIsASchedule(c: Config, s: FS, i: nat, suffix: string, mode: nat, trouble: Trouble, removeFails: bool) returns (t: FS)
    requires i < |s.procs| && s.procs[i].SaveStart? && TempName(suffix) !in s.dir && Plausible(c, s.procs[i].e, trouble)
    ensures Reaches(c, s, t) && i < |t.procs|
    ensures t.procs[i] == if trouble.NoTrouble? then Saved(s.procs[i].e) else SaveFailed(s.procs[i].e)
    ensures t.dir == SaveAlone(c, s.dir, s.procs[i].e, TempName(suffix), mode, trouble, removeFails)
  {
    var e := s.procs[i].e;
    assert Possible(c, s, []) && Exec(c, s, []) == s;
    t := Then(c, s, s, i, if trouble.NoDir? then Fails else Goes);
    if !trouble.NoDir? {
      t := Then(c, s, t, i, if trouble.NoTemp? then Fails else Make(suffix, mode));
      if !trouble.NoTemp? {
        t := FillTemp(c, s, t, i, e, suffix, mode, trouble);
        t := Finish(c, s, t, i, e, suffix, mode, trouble, removeFails);
      }
    }
  }

  /** The rename, or the clean-up after a failure. */
  lemma Finish(c: Config, s: FS, t0: FS, i: nat, e: Entry, suffix: string, mode: nat, trouble: Trouble, removeFails: bool) returns (t: FS)
    requires Reaches(c, s, t0) && i < |t0.procs| && Plausible(c, e, trouble)
    requires TempName(suffix) !in s.dir && !trouble.NoDir? && !trouble.NoTemp?
    requires t0.procs[i] == if trouble.NoTrouble? then Renaming(e, TempName(suffix)) else CleaningUp(e, TempName(suffix))
    requires t0.dir == s.dir[TempName(suffix) := if trouble.NoTrouble? then File(c.encode(e), PRIVATE) else Leftover(c, e, mode, trouble)]
    ensures Reaches(c, s, t) && i < |t.procs|
    ensures t.procs[i] == if trouble.NoTrouble? then Saved(e) else SaveFailed(e)
    ensures t.dir == SaveAlone(c, s.dir, e, TempName(suffix), mode, trouble, removeFails)
  {
    if trouble.NoTrouble? {
      NotTemporary(c.hash, e.profile, suffix);
      t := Then(c, s, t0, i, Goes);
    } else {
      t := Then(c, s, t0, i, if removeFails then Fails else Goes);
      assert s.dir[TempName(suffix) := Leftover(c, e, mode, trouble)] - {TempName(suffix)} == s.dir;
    }
  }

  /** From the created temporary file up to the rename or to the clean-up. */
  lemma FillTemp(c: Config, s: FS, t0: FS, i: nat, e: Entry, suffix: string, mode: nat, trouble: Trouble) returns (t: FS)
    requires Reaches(c, s, t0) && i < |t0.procs| && t0.procs[i] == Writing(e, TempName(suffix), 0) && Plausible(c, e, trouble)
    requires t0.dir == s.dir[TempName(suffix) := File([], mode)] && !trouble.NoDir? && !trouble.NoTemp?
    ensures Reaches(c, s, t) && i < |t.procs|
    ensures t.procs[i] == if trouble.NoTrouble? then Renaming(e, TempName(suffix)) else CleaningUp(e, TempName(suffix))
    ensures t.dir == s.dir[TempName(suffix) := if trouble.NoTrouble? then File(c.encode(e), PRIVATE) else Leftover(c, e, mode, trouble)]
  {
    var n := if trouble.NoWrite? then trouble.n else |c.encode(e)|;
    t := Then(c, s, t0, i, Put(n));
    if trouble.NoWrite? {
      t := Then(c, s, t, i, Fails);
    } else {
      assert c.encode(e)[..n] == c.encode(e);
      t := Seal(c, s, t, i, e, suffix, mode, trouble);
    }
  }

  /** From the complete temporary file up to the rename or to the clean-up. */
  lemma Seal(c: Config, s: FS, t0: FS, i: nat, e: Entry, suffix: string, mode: nat, trouble: Trouble) returns (t: FS)
    requires Reaches(c, s, t0) && i < |t0.procs| && t0.procs[i] == Closing(e, TempName(suffix))
    requires t0.dir == s.dir[TempName(suffix) := File(c.encode(e), mode)]
    requires !trouble.NoDir? && !trouble.NoTemp? && !trouble.NoWrite?
    ensures Reaches(c, s, t) && i < |t.procs|
    ensures t.procs[i] == if trouble.NoTrouble? then Renaming(e, TempName(suffix)) else CleaningUp(e, TempName(suffix))
    ensures t.dir == s.dir[TempName(suffix) := if trouble.NoTrouble? then File(c.encode(e), PRIVATE) else Leftover(c, e, mode, trouble)]
  {
    t := Then(c, s, t0, i, if trouble.NoClose? then Fails else Goes);
    if !trouble.NoClose? {
      t := Protect(c, s, t, i, e, suffix, mode, trouble);
    }
  }

  /** From the closed temporary file up to the rename or to the clean-up. */
  lemma Protect(c: Config, s: FS, t0: FS, i: nat, e: Entry, suffix: string, mode: nat, trouble: Trouble) returns (t: FS)
    requires Reaches(c, s, t0) && i < |t0.procs| && t0.procs[i] == Protecting(e, TempName(suffix))
    requires t0.dir == s.dir[TempName(suffix) := File(c.encode(e), mode)]
    requires trouble.NoTrouble? || trouble.NoChmod? || trouble.NoRename?
    ensures Reaches(c, s, t) && i < |t.procs|
    ensures t.procs[i] == if trouble.NoTrouble? then Renaming(e, TempName(suffix)) else CleaningUp(e, TempName(suffix))
    ensures t.dir == s.dir[TempName(suffix) := if trouble.NoTrouble? then File(c.encode(e), PRIVATE) else Leftover(c, e, mode, trouble)]
  {
    t := Then(c, s, t0, i, if trouble.NoChmod? then Fails else Goes);
    if trouble.NoRename? {
      t := Then(c, s, t, i, Fails);
    }
  }
}
