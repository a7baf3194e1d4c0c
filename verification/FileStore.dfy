/** The plaintext file store: Save, Load and Delete of any number of processes as
    steps on one directory, any of which may fail or be the process's last. */
module FileStore {
  import opened Types
  import opened Names

  datatype File = File(data: seq<Byte>, mode: nat)

  const PRIVATE: nat := 0x180  // rw for the owner only, 0600 in octal

  /** The hash behind file names, and the JSON encoding of entries. */
  datatype Config = Config(hash: string -> seq<Byte>, encode: Entry -> seq<Byte>, decode: seq<Byte> -> Option<Entry>)

  ghost predicate ValidConfig(c: Config) {
    CollisionFree(c.hash) && forall e :: c.decode(c.encode(e)) == Some(e)
  }

  function Path(c: Config, p: Profile): string { JsonName(ProfileKey(c.hash, p)) }

  datatype Pc =
    | SaveStart(e: Entry)                                 // before ensureDir
    | Creating(e: Entry)                                  // before CreateTemp
    | Writing(e: Entry, tmp: string, n: nat)              // n bytes are in the temporary file
    | Closing(e: Entry, tmp: string)
    | Protecting(e: Entry, tmp: string)                   // before Chmod
    | Renaming(e: Entry, tmp: string)
    | CleaningUp(e: Entry, tmp: string)                   // the deferred Remove after a failure
    | Saved(e: Entry)
    | SaveFailed(e: Entry)
    | LoadStart(p: Profile)
    | LoadDone(p: Profile, result: Option<Entry>, at: nat) // `at` events had happened when the file was read
    | LoadFailed(p: Profile)
    | DeleteStart(p: Profile)
    | DeleteDone(p: Profile)
    | DeleteFailed(p: Profile)
    | Crashed(p: Profile)

  /** The moments at which an entry file changes. */
  datatype Event = Renamed(pid: nat, e: Entry) | Removed(pid: nat, p: Profile)

  datatype FS = FS(dir: map<string, File>, procs: seq<Pc>, log: seq<Event>)

  /** `Make` creates a temporary file, `Put` writes some more bytes. */
  datatype Choice = Goes | Fails | Make(suffix: string, mode: nat) | Put(k: nat) | Crash

  datatype Action = Action(pid: nat, choice: Choice)

  function ProfileOf(pc: Pc): Profile {
    match pc
    case SaveStart(e) => e.profile
    case Creating(e) => e.profile
    case Writing(e, _, _) => e.profile
    case Closing(e, _) => e.profile
    case Protecting(e, _) => e.profile
    case Renaming(e, _) => e.profile
    case CleaningUp(e, _) => e.profile
    case Saved(e) => e.profile
    case SaveFailed(e) => e.profile
    case LoadStart(p) => p
    case LoadDone(p, _, _) => p
    case LoadFailed(p) => p
    case DeleteStart(p) => p
    case DeleteDone(p) => p
    case DeleteFailed(p) => p
    case Crashed(p) => p
  }

  predicate Over(pc: Pc) {
    pc.Saved? || pc.SaveFailed? || pc.LoadDone? || pc.LoadFailed? || pc.DeleteDone? || pc.DeleteFailed? || pc.Crashed?
  }

  /** The temporary file a process has created and not yet renamed or removed. */
  function Temp(pc: Pc): Option<string> {
    match pc
    case Writing(_, tmp, _) => Some(tmp)
    case Closing(_, tmp) => Some(tmp)
    case Protecting(_, tmp) => Some(tmp)
    case Renaming(_, tmp) => Some(tmp)
    case CleaningUp(_, tmp) => Some(tmp)
    case _ => None
  }

  predicate Enabled(c: Config, s: FS, a: Action) {
    a.pid < |s.procs| &&
    var pc := s.procs[a.pid];
    match a.choice
    case Goes => pc.SaveStart? || pc.Closing? || pc.Protecting? || pc.Renaming? || pc.CleaningUp? || pc.LoadStart? || pc.DeleteStart?
    case Fails => !Over(pc)
    case Make(suffix, _) => pc.Creating? && TempName(suffix) !in s.dir
    case Put(k) => pc.Writing? && pc.n + k <= |c.encode(pc.e)|
    case Crash => !Over(pc)
  }

  function Decoded(c: Config, f: Option<File>): Option<Entry> {
    if f.Some? then c.decode(f.value.data) else None
  }

  function FileAt(dir: map<string, File>, name: string): Option<File> {
    if name in dir then Some(dir[name]) else None
  }

  function NextPc(c: Config, s: FS, a: Action): Pc
    requires Enabled(c, s, a)
  {
    var pc := s.procs[a.pid];
    match a.choice
    case Crash => Crashed(ProfileOf(pc))
    case Make(suffix, _) => Writing(pc.e, TempName(suffix), 0)
    case Put(k) => if pc.n + k == |c.encode(pc.e)| then Closing(pc.e, pc.tmp) else Writing(pc.e, pc.tmp, pc.n + k)
    case Fails => (
      match pc
      case SaveStart(e) => SaveFailed(e)
      case Creating(e) => SaveFailed(e)
      case Writing(e, tmp, _) => CleaningUp(e, tmp)
      case Closing(e, tmp) => CleaningUp(e, tmp)
      case Protecting(e, tmp) => CleaningUp(e, tmp)
      case Renaming(e, tmp) => CleaningUp(e, tmp)
      case CleaningUp(e, _) => SaveFailed(e)
      case LoadStart(p) => LoadFailed(p)
      case _ => DeleteFailed(ProfileOf(pc)))
    case Goes => (
      match pc
      case SaveStart(e) => Creating(e)
      case Closing(e, tmp) => Protecting(e, tmp)
      case Protecting(e, tmp) => Renaming(e, tmp)
      case Renaming(e, _) => Saved(e)
      case CleaningUp(e, _) => SaveFailed(e)
      case LoadStart(p) => LoadDone(p, Decoded(c, FileAt(s.dir, Path(c, p))), |s.log|)
      case _ => DeleteDone(ProfileOf(pc)))
  }

  function NextDir(c: Config, s: FS, a: Action): map<string, File>
    requires Enabled(c, s, a)
  {
    var pc := s.procs[a.pid];
    match a.choice
    case Crash => s.dir
    case Fails => s.dir
    case Make(suffix, mode) => s.dir[TempName(suffix) := File([], mode)]
    case Put(k) => if pc.tmp in s.dir then s.dir[pc.tmp := s.dir[pc.tmp].(data := c.encode(pc.e)[..pc.n + k])] else s.dir
    case Goes =>
      if pc.Protecting? && pc.tmp in s.dir then s.dir[pc.tmp := s.dir[pc.tmp].(mode := PRIVATE)]
      else if pc.Renaming? && pc.tmp in s.dir then (s.dir - {pc.tmp})[Path(c, pc.e.profile) := s.dir[pc.tmp]]
      else if pc.CleaningUp? then s.dir - {pc.tmp}
      else if pc.DeleteStart? then s.dir - {Path(c, pc.p)}
      else s.dir
  }

  function NextLog(c: Config, s: FS, a: Action): seq<Event>
    requires Enabled(c, s, a)
  {
    var pc := s.procs[a.pid];
    if a.choice.Goes? && pc.Renaming? then s.log + [Renamed(a.pid, pc.e)]
    else if a.choice.Goes? && pc.DeleteStart? then s.log + [Removed(a.pid, pc.p)]
    else s.log
  }

  function Next(c: Config, s: FS, a: Action): FS
    requires Enabled(c, s, a)
  {
    FS(NextDir(c, s, a), s.procs[a.pid := NextPc(c, s, a)], NextLog(c, s, a))
  }

  predicate Possible(c: Config, s: FS, schedule: seq<Action>)
    decreases |schedule|
  {
    schedule == [] || (Enabled(c, s, schedule[0]) && Possible(c, Next(c, s, schedule[0]), schedule[1..]))
  }

  function Exec(c: Config, s: FS, schedule: seq<Action>): FS
    requires Possible(c, s, schedule)
    decreases |schedule|
  {
    if schedule == [] then s else Exec(c, Next(c, s, schedule[0]), schedule[1..])
  }

  /** Nothing has happened yet; the directory may hold anything. */
  predicate Initial(s: FS) {
    && s.log == []
    && forall i :: 0 <= i < |s.procs| ==>
         (s.procs[i].SaveStart? || s.procs[i].LoadStart? || s.procs[i].DeleteStart?) && NUL !in ProfileOf(s.procs[i]).issuer
  }

  // ---------- What the log says a profile's file is ----------

  function EventProfile(ev: Event): Profile { if ev.Renamed? then ev.e.profile else ev.p }

  /** The file of `p` after `log`: whole and private if last renamed, absent if last
      removed, else what was there at first. */
  function Replay(c: Config, first: Option<File>, log: seq<Event>, p: Profile): Option<File> {
    if log == [] then first
    else
      var last := log[|log| - 1];
      if EventProfile(last) != p then Replay(c, first, log[..|log| - 1], p)
      else if last.Renamed? then Some(File(c.encode(last.e), PRIVATE))
      else None
  }

  /** What a process's temporary file holds at each point of Save. */
  predicate TempReady(c: Config, dir: map<string, File>, pc: Pc) {
    match pc
    case Writing(e, tmp, n) => tmp in dir && n <= |c.encode(e)| && dir[tmp].data == c.encode(e)[..n]
    case Closing(e, tmp) => tmp in dir && dir[tmp].data == c.encode(e)
    case Protecting(e, tmp) => tmp in dir && dir[tmp].data == c.encode(e)
    case Renaming(e, tmp) => tmp in dir && dir[tmp] == File(c.encode(e), PRIVATE)
    case CleaningUp(e, tmp) => tmp in dir
    case _ => true
  }

  /** A Load that is done saw the state of the log at some moment. */
  predicate LoadExplained(c: Config, first: map<string, File>, log: seq<Event>, pc: Pc) {
    pc.LoadDone? ==> pc.at <= |log| && pc.result == Decoded(c, Replay(c, FileAt(first, Path(c, pc.p)), log[..pc.at], pc.p))
  }

  ghost predicate TempsOwned(c: Config, s: FS) {
    && (forall i {:trigger s.procs[i]} :: 0 <= i < |s.procs| ==> TempReady(c, s.dir, s.procs[i]))
    && (forall i {:trigger s.procs[i]} :: 0 <= i < |s.procs| && Temp(s.procs[i]).Some? ==>
          exists suffix :: Temp(s.procs[i]).value == TempName(suffix))
    && (forall i, j {:trigger s.procs[i], s.procs[j]} :: 0 <= i < j < |s.procs| && Temp(s.procs[i]).Some? ==>
          Temp(s.procs[j]) != Temp(s.procs[i]))
  }

  ghost predicate FilesExplained(c: Config, first: map<string, File>, s: FS) {
    forall p: Profile {:trigger Path(c, p)} :: NUL !in p.issuer ==>
      FileAt(s.dir, Path(c, p)) == Replay(c, FileAt(first, Path(c, p)), s.log, p)
  }

  ghost predicate LoadsExplained(c: Config, first: map<string, File>, s: FS) {
    forall i {:trigger s.procs[i]} :: 0 <= i < |s.procs| ==> LoadExplained(c, first, s.log, s.procs[i])
  }

  ghost predicate CleanIssuers(s: FS) {
    forall i {:trigger s.procs[i]} :: 0 <= i < |s.procs| ==> NUL !in ProfileOf(s.procs[i]).issuer
  }

  ghost predicate Atomic(c: Config, first: map<string, File>, s: FS) {
    TempsOwned(c, s) && CleanIssuers(s) && FilesExplained(c, first, s) && LoadsExplained(c, first, s)
  }

  lemma TempsOwnedStep(c: Config, s: FS, a: Action)
    requires ValidConfig(c) && TempsOwned(c, s) && Enabled(c, s, a)
    ensures TempsOwned(c, Next(c, s, a))
  {
    var t := Next(c, s, a);
    var pc := s.procs[a.pid];
    assert forall i {:trigger t.procs[i]} :: 0 <= i < |t.procs| && i != a.pid ==> t.procs[i] == s.procs[i];
    forall i | 0 <= i < |t.procs|
      ensures TempReady(c, t.dir, t.procs[i])
      ensures Temp(t.procs[i]).Some? ==> exists suffix :: Temp(t.procs[i]).value == TempName(suffix)
    {
      OthersUntouched(c, s, a, i);
      assert TempReady(c, s.dir, s.procs[a.pid]);
    }
    if a.choice.Make? {
      forall i | 0 <= i < |s.procs| && i != a.pid && Temp(s.procs[i]).Some?
        ensures Temp(s.procs[i]) != Some(TempName(a.choice.suffix))
      {
        assert TempReady(c, s.dir, s.procs[i]);
      }
    }
  }

  /** A step leaves every other process's temporary file alone. */
  lemma OthersUntouched(c: Config, s: FS, a: Action, i: nat)
    requires TempsOwned(c, s) && Enabled(c, s, a) && i < |s.procs|
    ensures i != a.pid ==> TempReady(c, Next(c, s, a).dir, s.procs[i])
  {
    if i != a.pid && Temp(s.procs[i]).Some? {
      var suffix :| Temp(s.procs[i]).value == TempName(suffix);
      NotTemporary(c.hash, ProfileOf(s.procs[a.pid]), suffix);
      assert TempReady(c, s.dir, s.procs[i]);
      assert Temp(s.procs[a.pid]) != Temp(s.procs[i]);
    }
  }

  lemma FilesExplainedStep(c: Config, first: map<string, File>, s: FS, a: Action)
    requires ValidConfig(c) && Atomic(c, first, s) && Enabled(c, s, a)
    ensures FilesExplained(c, first, Next(c, s, a))
  {
    var t := Next(c, s, a);
    var q := ProfileOf(s.procs[a.pid]);
    forall p: Profile | NUL !in p.issuer
      ensures FileAt(t.dir, Path(c, p)) == Replay(c, FileAt(first, Path(c, p)), t.log, p)
    {
      FileStep(c, s, a, p);
      if t.log != s.log {
        assert t.log[..|t.log| - 1] == s.log;
      }
    }
  }

  /** What one step does to the file of profile `p`. */
  lemma FileStep(c: Config, s: FS, a: Action, p: Profile)
    requires ValidConfig(c) && TempsOwned(c, s) && CleanIssuers(s) && Enabled(c, s, a) && NUL !in p.issuer
    ensures var t, pc := Next(c, s, a), s.procs[a.pid];
            FileAt(t.dir, Path(c, p)) ==
              if !a.choice.Goes? || ProfileOf(pc) != p then FileAt(s.dir, Path(c, p))
              else if pc.Renaming? then Some(File(c.encode(pc.e), PRIVATE))
              else if pc.DeleteStart? then None
              else FileAt(s.dir, Path(c, p))
  {
    var pc := s.procs[a.pid];
    assert NUL !in ProfileOf(pc).issuer && TempReady(c, s.dir, pc);
    var suffix := if a.choice.Make? then a.choice.suffix else "";
    if Temp(pc).Some? {
      suffix :| Temp(pc).value == TempName(suffix);
    }
    FilesDiffer(c.hash, p, ProfileOf(pc), suffix);
  }

  lemma LoadsExplainedStep(c: Config, first: map<string, File>, s: FS, a: Action)
    requires ValidConfig(c) && Atomic(c, first, s) && Enabled(c, s, a)
    ensures LoadsExplained(c, first, Next(c, s, a))
  {
    var t := Next(c, s, a);
    forall i | 0 <= i < |t.procs|
      ensures LoadExplained(c, first, t.log, t.procs[i])
    {
      assert LoadExplained(c, first, s.log, s.procs[i]);
      if i != a.pid {
        if s.procs[i].LoadDone? {
          assert t.log[..s.procs[i].at] == s.log[..s.procs[i].at];
        }
      } else if t.procs[i].LoadDone? {
        assert t.log[..|s.log|] == s.log;
        assert NUL !in ProfileOf(s.procs[i]).issuer;
      }
    }
  }

  lemma AtomicStep(c: Config, first: map<string, File>, s: FS, a: Action)
    requires ValidConfig(c) && Atomic(c, first, s) && Enabled(c, s, a)
    ensures Atomic(c, first, Next(c, s, a))
  {
    TempsOwnedStep(c, s, a);
    FilesExplainedStep(c, first, s, a);
    LoadsExplainedStep(c, first, s, a);
    assert NUL !in ProfileOf(s.procs[a.pid]).issuer;
  }

  lemma {:induction false} AtomicAlways(c: Config, first: map<string, File>, s: FS, schedule: seq<Action>)
    requires ValidConfig(c) && Atomic(c, first, s) && Possible(c, s, schedule)
    ensures Atomic(c, first, Exec(c, s, schedule))
    decreases |schedule|
  {
    if schedule != [] {
      AtomicStep(c, first, s, schedule[0]);
      AtomicAlways(c, first, Next(c, s, schedule[0]), schedule[1..]);
    }
  }

  lemma InitiallyAtomic(c: Config, s: FS)
    requires Initial(s)
    ensures Atomic(c, s.dir, s)
  {
    assert forall i {:trigger s.procs[i]} :: 0 <= i < |s.procs| ==>
        (s.procs[i].SaveStart? || s.procs[i].LoadStart? || s.procs[i].DeleteStart?) && NUL !in ProfileOf(s.procs[i]).issuer;
  }

  /** Whatever interleaves, fails or crashes, a profile's file is at every moment
      what the completed renames and removals say, and a Load that has returned
      reported what they said at the moment it read the file. */
  lemma SaveIsCrashAtomic(c: Config, s: FS, schedule: seq<Action>, p: Profile, i: nat)
    requires ValidConfig(c) && Initial(s) && Possible(c, s, schedule) && NUL !in p.issuer && i < |s.procs|
    ensures var t := Exec(c, s, schedule);
            && FileAt(t.dir, Path(c, p)) == Replay(c, FileAt(s.dir, Path(c, p)), t.log, p)
            && i < |t.procs| && LoadExplained(c, s.dir, t.log, t.procs[i])
  {
    InitiallyAtomic(c, s);
    AtomicAlways(c, s.dir, s, schedule);
    SameCount(c, s, schedule);
  }

  lemma {:induction false} SameCount(c: Config, s: FS, schedule: seq<Action>)
    requires Possible(c, s, schedule)
    ensures |Exec(c, s, schedule).procs| == |s.procs|
    decreases |schedule|
  {
    if schedule != [] {
      SameCount(c, Next(c, s, schedule[0]), schedule[1..]);
    }
  }

  predicate About(ev: Event, p: Profile) {
    match ev
    case Renamed(_, e) => e.profile == p
    case Removed(_, q) => q == p
  }

  /** Event `k` is the last one about profile `p`. */
  ghost predicate LastAbout(log: seq<Event>, p: Profile, k: int) {
    0 <= k < |log| && About(log[k], p) && forall l :: k < l < |log| ==> !About(log[l], p)
  }

  /** In plain terms: after its last event the file is gone or the complete encoding of
      the entry renamed last, readable and writable by its owner only, which is what
      loading it yields. */
  lemma {:induction false} LastEventDecides(c: Config, first: Option<File>, log: seq<Event>, p: Profile, k: int)
    requires LastAbout(log, p, k)
    ensures Replay(c, first, log, p) ==
            match log[k]
            case Renamed(_, e) => Some(File(c.encode(e), 6 * 64))
            case Removed(_, _) => None
    ensures ValidConfig(c) && log[k].Renamed? ==> Decoded(c, Replay(c, first, log, p)) == Some(log[k].e)
  {
    var n := |log| - 1;
    if k < n {
      assert LastAbout(log[..n], p, k);
      LastEventDecides(c, first, log[..n], p, k);
    }
  }

  /** A file nothing happened to is what it was at first. */
  lemma {:induction false} NoEventNoChange(c: Config, first: Option<File>, log: seq<Event>, p: Profile)
    requires forall k :: 0 <= k < |log| ==> !About(log[k], p)
    ensures Replay(c, first, log, p) == first
  {
    if log != [] {
      NoEventNoChange(c, first, log[..|log| - 1], p);
    }
  }

  /** What a Load that has returned had found when it read the file: the entry renamed
      last, nothing after a removal, and without any event what the first file decodes
      to, so that an absent or undecodable one is a miss. */
  lemma LoadIsExact(c: Config, s: FS, schedule: seq<Action>, i: nat)
    requires ValidConfig(c) && Initial(s) && Possible(c, s, schedule) && i < |s.procs|
    requires i < |Exec(c, s, schedule).procs| && Exec(c, s, schedule).procs[i].LoadDone?
    ensures var t := Exec(c, s, schedule);
            var pc := t.procs[i];
            && pc.at <= |t.log|
            && (forall k, e :: LastAbout(t.log[..pc.at], pc.p, k) && t.log[k].Renamed? && t.log[k].e == e ==> pc.result == Some(e))
            && (forall k :: LastAbout(t.log[..pc.at], pc.p, k) && t.log[k].Removed? ==> pc.result == None)
            && ((forall k :: 0 <= k < pc.at ==> !About(t.log[k], pc.p)) ==>
                  pc.result == if Path(c, pc.p) in s.dir then c.decode(s.dir[Path(c, pc.p)].data) else None)
  {
    var t := Exec(c, s, schedule);
    var pc := t.procs[i];
    InitiallyAtomic(c, s);
    AtomicAlways(c, s.dir, s, schedule);
    assert LoadExplained(c, s.dir, t.log, pc);
    var seen := t.log[..pc.at];
    var first := FileAt(s.dir, Path(c, pc.p));
    forall k | LastAbout(seen, pc.p, k)
      ensures pc.result == if t.log[k].Renamed? then Some(t.log[k].e) else None
    {
      LastEventDecides(c, first, seen, pc.p, k);
    }
    if forall k :: 0 <= k < pc.at ==> !About(t.log[k], pc.p) {
      assert forall k :: 0 <= k < |seen| ==> !About(seen[k], pc.p);
      NoEventNoChange(c, first, seen, pc.p);
    }
  }

  // ---------- Which Saves took effect ----------

  function Renames(log: seq<Event>, i: nat): nat {
    if log == [] then 0
    else Renames(log[..|log| - 1], i) + if log[|log| - 1].pid == i then 1 else 0
  }

  /** A process changes an entry file exactly when it reports success. */
  ghost predicate Accounted(s: FS, i: nat)
    requires i < |s.procs|
  {
    var pc := s.procs[i];
    if pc.Saved? then Renames(s.log, i) == 1 && exists k :: 0 <= k < |s.log| && s.log[k] == Renamed(i, pc.e)
    else if pc.DeleteDone? then Renames(s.log, i) == 1
    else Renames(s.log, i) == 0
  }

  lemma AccountedStep(c: Config, s: FS, a: Action, i: nat)
    requires Enabled(c, s, a) && i < |s.procs| && Accounted(s, i)
    ensures Accounted(Next(c, s, a), i)
  {
    var t := Next(c, s, a);
    if t.log != s.log {
      var n := |s.log|;
      assert t.log[..n] == s.log && |t.log| == n + 1;
      assert t.log[n].pid == a.pid;
      if s.procs[i].Saved? {
        var k :| 0 <= k < |s.log| && s.log[k] == Renamed(i, s.procs[i].e);
        assert t.log[k] == s.log[k];
      }
    }
  }

  /** A Save that returns an error, and a process that dies before its rename, leave
      every entry file alone; one that returns success renamed exactly once. */
  lemma {:induction false} SavesAccounted(c: Config, s: FS, schedule: seq<Action>, i: nat)
    requires i < |s.procs| && Accounted(s, i) && Possible(c, s, schedule)
    ensures i < |Exec(c, s, schedule).procs| && Accounted(Exec(c, s, schedule), i)
    decreases |schedule|
  {
    if schedule != [] {
      AccountedStep(c, s, schedule[0], i);
      SavesAccounted(c, Next(c, s, schedule[0]), schedule[1..], i);
    }
  }

  lemma {:induction false} NoRenames(log: seq<Event>, i: nat)
    ensures Renames(log, i) == 0 <==> forall k :: 0 <= k < |log| ==> log[k].pid != i
  {
    if log != [] {
      NoRenames(log[..|log| - 1], i);
      assert forall k :: 0 <= k < |log| - 1 ==> log[..|log| - 1][k] == log[k];
    }
  }

  lemma {:induction false} OneRename(log: seq<Event>, i: nat, j: int, k: int)
    requires Renames(log, i) <= 1 && 0 <= j < |log| && 0 <= k < |log| && log[j].pid == log[k].pid == i
    ensures j == k
  {
    var n := |log| - 1;
    NoRenames(log[..n], i);
    assert forall l :: 0 <= l < n ==> log[..n][l] == log[l];
    if j < n && k < n {
      OneRename(log[..n], i, j, k);
    }
  }

  /** Read off the events themselves: a process that has not reported success has
      changed no entry file, and one whose Save has did so once, to its entry. */
  lemma SavesChangeOnce(c: Config, s: FS, schedule: seq<Action>, i: nat)
    requires Initial(s) && Possible(c, s, schedule) && i < |s.procs| && i < |Exec(c, s, schedule).procs|
    ensures var t := Exec(c, s, schedule);
            && (!t.procs[i].Saved? && !t.procs[i].DeleteDone? ==> forall k :: 0 <= k < |t.log| ==> t.log[k].pid != i)
            && (forall j, k :: 0 <= j < |t.log| && 0 <= k < |t.log| && t.log[j].pid == t.log[k].pid == i ==> j == k)
            && (t.procs[i].Saved? ==> exists k :: 0 <= k < |t.log| && t.log[k] == Renamed(i, t.procs[i].e))
  {
    assert Accounted(s, i) by {
      assert s.procs[i].SaveStart? || s.procs[i].LoadStart? || s.procs[i].DeleteStart?;
    }
    SavesAccounted(c, s, schedule, i);
    var t := Exec(c, s, schedule);
    NoRenames(t.log, i);
    forall j, k | 0 <= j < |t.log| && 0 <= k < |t.log| && t.log[j].pid == t.log[k].pid == i
      ensures j == k
    {
      OneRename(t.log, i, j, k);
    }
  }

  // ---------- Profiles do not touch each other ----------

  lemma {:induction false} ProfilesIsolated(c: Config, s: FS, schedule: seq<Action>, p: Profile)
    requires ValidConfig(c) && TempsOwned(c, s) && CleanIssuers(s) && Possible(c, s, schedule) && NUL !in p.issuer
    requires forall i {:trigger s.procs[i]} :: 0 <= i < |s.procs| ==> ProfileOf(s.procs[i]) != p
    ensures FileAt(Exec(c, s, schedule).dir, Path(c, p)) == FileAt(s.dir, Path(c, p))
    decreases |schedule|
  {
    if schedule != [] {
      var a := schedule[0];
      var t := Next(c, s, a);
      FileStep(c, s, a, p);
      TempsOwnedStep(c, s, a);
      assert ProfileOf(s.procs[a.pid]) != p && NUL !in ProfileOf(s.procs[a.pid]).issuer;
      assert forall i {:trigger t.procs[i]} :: 0 <= i < |t.procs| ==> ProfileOf(t.procs[i]) == ProfileOf(s.procs[i]);
      ProfilesIsolated(c, t, schedule[1..], p);
    }
  }

  // ---------- No litter ----------

  /** Everything in the directory was there at first, is some entry file, or belongs
      to a Save in progress. */
  ghost predicate Tidy(c: Config, first: map<string, File>, s: FS) {
    forall name :: name in s.dir ==>
      || name in first
      || (exists p :: name == Path(c, p))
      || (exists i {:trigger s.procs[i]} :: 0 <= i < |s.procs| && Temp(s.procs[i]) == Some(name))
  }

  /** The only steps that leave a temporary file behind: a process with one dies, or
      its clean-up fails. */
  predicate Litters(s: FS, a: Action) {
    a.pid < |s.procs| && Temp(s.procs[a.pid]).Some? && (a.choice.Crash? || (a.choice.Fails? && s.procs[a.pid].CleaningUp?))
  }

  lemma TidyStep(c: Config, first: map<string, File>, s: FS, a: Action)
    requires Tidy(c, first, s) && Enabled(c, s, a) && !Litters(s, a)
    ensures Tidy(c, first, Next(c, s, a))
  {
    var t := Next(c, s, a);
    var pc := s.procs[a.pid];
    forall name | name in t.dir && name !in first && !(exists p :: name == Path(c, p))
      ensures exists i {:trigger t.procs[i]} :: 0 <= i < |t.procs| && Temp(t.procs[i]) == Some(name)
    {
      if a.choice.Make? && name == TempName(a.choice.suffix) {
        assert Temp(t.procs[a.pid]) == Some(name);
      } else {
        assert name != Path(c, ProfileOf(pc));
        assert name in s.dir || Temp(pc) == Some(name);
        var i :| 0 <= i < |s.procs| && Temp(s.procs[i]) == Some(name);
        if i != a.pid {
          assert t.procs[i] == s.procs[i];
        } else {
          assert Temp(t.procs[a.pid]) == Some(name);
        }
      }
    }
  }

  predicate CleanRun(c: Config, s: FS, schedule: seq<Action>)
    requires Possible(c, s, schedule)
    decreases |schedule|
  {
    schedule == [] || (!Litters(s, schedule[0]) && CleanRun(c, Next(c, s, schedule[0]), schedule[1..]))
  }

  lemma {:induction false} TidyAlways(c: Config, first: map<string, File>, s: FS, schedule: seq<Action>)
    requires Tidy(c, first, s) && Possible(c, s, schedule) && CleanRun(c, s, schedule)
    ensures Tidy(c, first, Exec(c, s, schedule))
    decreases |schedule|
  {
    if schedule != [] {
      TidyStep(c, first, s, schedule[0]);
      TidyAlways(c, first, Next(c, s, schedule[0]), schedule[1..]);
    }
  }

  /** When every operation is over, no temporary file is left, unless a process died
      while it had one or could not remove it. */
  lemma NoLitter(c: Config, s: FS, schedule: seq<Action>)
    requires Possible(c, s, schedule) && CleanRun(c, s, schedule)
    requires forall i :: 0 <= i < |Exec(c, s, schedule).procs| ==> Over(Exec(c, s, schedule).procs[i])
    ensures forall name :: name in Exec(c, s, schedule).dir ==> name in s.dir || exists p :: name == Path(c, p)
  {
    TidyAlways(c, s.dir, s, schedule);
    var t := Exec(c, s, schedule);
    assert forall i {:trigger t.procs[i]} :: 0 <= i < |t.procs| ==> Over(t.procs[i]) && Temp(t.procs[i]).None?;
  }
}
