/**
 Installing over the user's hooks.json, recovering it after crashes and restoring
 it on Close (client_hookbridge.go), on an abstract ~/.codex directory.
 */
module HooksFile {
  import opened Basics
  import Runs

  type Bytes = string
  datatype Name = Hooks | Backup(pid: nat) | Other(name: string)
  datatype File = File(data: Bytes, mtime: int)
  type Dir = map<Name, File>

  /** staleBackupAge, in seconds. */
  const STALE_BACKUP_AGE := 60

  predicate IsStale(dir: Dir, n: Name, now: int) {
    n.Backup? && n in dir && now - dir[n].mtime >= STALE_BACKUP_AGE
  }

  function StaleBackups(dir: Dir, now: int): set<Name> {
    set n | n in dir && IsStale(dir, n, now)
  }

  predicate IsOldestStale(dir: Dir, n: Name, now: int) {
    IsStale(dir, n, now) && forall m :: m in StaleBackups(dir, now) ==> dir[n].mtime <= dir[m].mtime
  }

  /** recoverStaleBackups, given which of the equally old backups it picks. */
  function Recovered(dir: Dir, now: int, oldest: Name): Dir
    requires StaleBackups(dir, now) != {} ==> oldest in dir
  {
    if StaleBackups(dir, now) == {} then dir
    else dir[Hooks := File(dir[oldest].data, now)] - StaleBackups(dir, now)
  }

  /** detectConcurrentSDK refuses: another process's backup is fresh. */
  predicate Concurrent(dir: Dir, pid: nat, now: int) {
    exists n :: n in dir && n.Backup? && n.pid != pid && now - dir[n].mtime < STALE_BACKUP_AGE
  }

  /** installHooksJSON after detection has let it pass. */
  function Installed(dir: Dir, pid: nat, sdk: Bytes, now: int): Dir {
    if Hooks in dir then dir[Backup(pid) := File(dir[Hooks].data, now)][Hooks := File(sdk, now)]
    else dir[Hooks := File(sdk, now)]
  }

  /** restoreUserHooksJSONPath */
  function Restored(dir: Dir, backup: Option<Name>, now: int): Dir {
    if backup.None? then dir - {Hooks}
    else if backup.value !in dir then dir
    else dir[Hooks := File(dir[backup.value].data, now)] - {backup.value}
  }

  /** One Client's view of the directory; `now` arguments are its clock readings. */
  class HookInstaller {
    var files: Dir
    var hookBackupPath: Option<Name>
    var hookHooksJSONPath: bool  // set once the generated hooks.json is in place

    constructor (dir: Dir)
      ensures files == dir && hookBackupPath == None && !hookHooksJSONPath
    {
      files, hookBackupPath, hookHooksJSONPath := dir, None, false;
    }

    /** `listing` is what os.ReadDir returns. */
    method RecoverStaleBackups(listing: seq<Name>, now: int) returns (oldest: Name)
      requires forall n :: n in listing <==> n in files
      modifies this`files
      ensures StaleBackups(old(files), now) != {} ==> IsOldestStale(old(files), oldest, now)
      ensures files == Recovered(old(files), now, oldest)
      ensures forall p :: Backup(p) in old(files) && now - old(files)[Backup(p)].mtime >= STALE_BACKUP_AGE ==>
                && oldest in old(files) && old(files)[oldest].mtime <= old(files)[Backup(p)].mtime
                && Hooks in files && files[Hooks].data == old(files)[oldest].data && Backup(p) !in files
    {
      oldest := Hooks;
      ghost var all := StaleBackups(files, now);
      var stale: seq<Name> := [];
      for i := 0 to |listing|
        invariant forall n :: n in stale <==> n in listing[..i] && IsStale(files, n, now)
      {
        if listing[i].Backup? && now - files[listing[i]].mtime >= STALE_BACKUP_AGE {
          stale := stale + [listing[i]];
        }
      }
      assert listing[..|listing|] == listing;
      assert all == set n | n in stale;
      assert forall j :: 0 <= j < |stale| ==> stale[j] in stale && IsStale(files, stale[j], now);
      if |stale| == 0 {
        assert all == {};
        return;
      }
      oldest := stale[0];
      assert oldest in stale;
      for i := 1 to |stale|
        invariant oldest in stale
        invariant forall j :: 0 <= j < i ==> files[oldest].mtime <= files[stale[j]].mtime
      {
        if files[stale[i]].mtime < files[oldest].mtime {
          oldest := stale[i];
        }
      }
      assert IsOldestStale(files, oldest, now);
      files := files[Hooks := File(files[oldest].data, now)];
      ghost var restored := files;
      for i := 0 to |stale|
        invariant files == restored - set n | n in stale[..i]
      {
        files := files - {stale[i]};
        assert stale[..i + 1] == stale[..i] + [stale[i]];
      }
      assert stale[..|stale|] == stale;
      assert oldest in all && files == restored - all;
    }

    method DetectConcurrentSDK(listing: seq<Name>, pid: nat, now: int) returns (refused: bool)
      requires forall n :: n in listing <==> n in files
      ensures refused == Concurrent(files, pid, now)
      ensures refused <==> exists p :: p != pid && Backup(p) in files && now - files[Backup(p)].mtime < 60
    {
      for i := 0 to |listing|
        invariant forall n :: n in listing[..i] && n.Backup? && n.pid != pid ==> now - files[n].mtime >= STALE_BACKUP_AGE
      {
        if !listing[i].Backup? || listing[i].pid == pid {
          continue;
        }
        if now - files[listing[i]].mtime >= STALE_BACKUP_AGE {
          continue;
        }
        assert Backup(listing[i].pid) in files;
        return true;
      }
      assert listing[..|listing|] == listing;
      return false;
    }

    /** installHooksJSON past detection. */
    method Install(pid: nat, sdk: Bytes, now: int)
      modifies this
      ensures files == Installed(old(files), pid, sdk, now) && hookHooksJSONPath
      ensures Hooks in files && files[Hooks].data == sdk
      ensures Hooks in old(files) ==> Backup(pid) in files && files[Backup(pid)].data == old(files)[Hooks].data
      ensures forall n :: n != Hooks && (n != Backup(pid) || Hooks !in old(files)) ==>
                (n in files <==> n in old(files)) && (n in files ==> files[n] == old(files)[n])
      ensures hookBackupPath == if Hooks in old(files) then Some(Backup(pid)) else old(hookBackupPath)
    {
      if Hooks in files {
        files := files[Backup(pid) := File(files[Hooks].data, now)];
        hookBackupPath := Some(Backup(pid));
      }
      files := files[Hooks := File(sdk, now)];
      hookHooksJSONPath := true;
    }

    method Restore(now: int)
      modifies this
      ensures files == if old(hookHooksJSONPath) then Restored(old(files), old(hookBackupPath), now) else old(files)
      ensures !hookHooksJSONPath && hookBackupPath == None
      ensures old(hookHooksJSONPath) && old(hookBackupPath) == None ==> Hooks !in files
      ensures !old(hookHooksJSONPath) || (old(hookBackupPath).Some? && old(hookBackupPath).value !in old(files)) ==>
                files == old(files)
      ensures forall n :: n != Hooks && Some(n) != old(hookBackupPath) ==>
                (n in files <==> n in old(files)) && (n in files ==> files[n] == old(files)[n])
      ensures old(hookHooksJSONPath) && old(hookBackupPath).Some? && old(hookBackupPath).value.Backup?
              && old(hookBackupPath).value in old(files) ==>
                && Hooks in files && files[Hooks].data == old(files)[old(hookBackupPath).value].data
                && old(hookBackupPath).value !in files
    {
      var installed, backup := hookHooksJSONPath, hookBackupPath;
      hookHooksJSONPath, hookBackupPath := false, None;
      if !installed {
        return;
      }
      if backup.Some? {
        if backup.value !in files {
          return;
        }
        files := files[Hooks := File(files[backup.value].data, now)];
        files := files - {backup.value};
        return;
      }
      files := files - {Hooks};
    }
  }

  // ------------------------------------------------- lifetimes and crashes

  /** Where an SDK process stands between two file operations. */
  datatype Phase =
    | Scanning                                                    // recover: read the directory
    | Restoring(data: Bytes, stale: set<Name>, scannedAt: int)    // recover: write hooks.json
    | Removing(stale: set<Name>, scannedAt: int)                  // recover: remove what was stale
    | Detecting(scannedAt: int)                                   // detect: read the directory again
    | Reading                                                     // read hooks.json
    | BackingUp(original: Bytes)
    | Writing(hadOriginal: bool)
    | Live(hadOriginal: bool)
    | WritingBack(data: Bytes)                                    // Close: backup read, write hooks.json
    | Dropping                                                    // Close: remove the backup

  datatype Process = Down | Up(pid: nat, sdk: Bytes, phase: Phase)

  datatype State = State(dir: Dir, now: int, proc: Process)

  datatype Action =
    | Start(pid: nat, sdk: Bytes)
    | Tick(seconds: nat)
    | Scan(oldest: Name)
    | Restore
    | Remove(n: Name)
    | Recover         // nothing stale is left to remove
    | Detect
    | Read
    | Back
    | Write
    | Close
    | WriteBack
    | Drop
    | Crash

  function To(s: State, p: Phase): State
    requires s.proc.Up?
  {
    s.(proc := s.proc.(phase := p))
  }

  predicate In(s: State, p: Phase -> bool) {
    s.proc.Up? && p(s.proc.phase)
  }

  function Step(s: State, a: Action): State {
    match a
    case Start(pid, sdk) => if s.proc.Down? then s.(proc := Up(pid, sdk, Scanning)) else s
    case Tick(n) => s.(now := s.now + n)
    case Crash => s.(proc := Down)
    case _ => if s.proc.Up? then Move(s, a) else s
  }

  /** The file operations of the process that is up. */
  function Move(s: State, a: Action): State
    requires s.proc.Up?
  {
    var phase := s.proc.phase;
    match a
    case Scan(oldest) =>
      if !phase.Scanning? then s
      else if StaleBackups(s.dir, s.now) == {} then To(s, Detecting(s.now))
      else if IsOldestStale(s.dir, oldest, s.now) then
        To(s, Restoring(s.dir[oldest].data, StaleBackups(s.dir, s.now), s.now))
      else s
    case Restore =>
      if phase.Restoring? then
        To(s, Removing(phase.stale, phase.scannedAt)).(dir := s.dir[Hooks := File(phase.data, s.now)])
      else s
    case Remove(n) =>
      if phase.Removing? && n in phase.stale then
        To(s, Removing(phase.stale - {n}, phase.scannedAt)).(dir := s.dir - {n})
      else s
    case Recover =>
      if phase.Removing? && phase.stale == {} then To(s, Detecting(phase.scannedAt)) else s
    case Detect =>
      if !phase.Detecting? then s
      else if Concurrent(s.dir, s.proc.pid, s.now) then s.(proc := Down)
      else To(s, Reading)
    case Read =>
      if !phase.Reading? then s
      else if Hooks in s.dir then To(s, BackingUp(s.dir[Hooks].data))
      else To(s, Writing(false))
    case Back =>
      if phase.BackingUp? then
        To(s, Writing(true)).(dir := s.dir[Backup(s.proc.pid) := File(phase.original, s.now)])
      else s
    case Write =>
      if phase.Writing? then To(s, Live(phase.hadOriginal)).(dir := s.dir[Hooks := File(s.proc.sdk, s.now)]) else s
    case Close =>
      if !phase.Live? then s
      else if !phase.hadOriginal then s.(dir := s.dir - {Hooks}, proc := Down)
      else if Backup(s.proc.pid) in s.dir then To(s, WritingBack(s.dir[Backup(s.proc.pid)].data))
      else s.(proc := Down)
    case WriteBack =>
      if phase.WritingBack? then To(s, Dropping).(dir := s.dir[Hooks := File(phase.data, s.now)]) else s
    case Drop =>
      if phase.Dropping? then s.(dir := s.dir - {Backup(s.proc.pid)}, proc := Down) else s
    case _ => s
  }

  predicate NoBackups(dir: Dir) {
    forall n :: n in dir ==> !n.Backup?
  }

  predicate HooksAre(dir: Dir, user: Bytes) {
    Hooks in dir && dir[Hooks].data == user
  }

  /** The user's bytes are in hooks.json or in the one backup there is. */
  ghost predicate UserSafe(dir: Dir, user: Bytes) {
    && (forall p, q :: Backup(p) in dir && Backup(q) in dir ==> p == q)
    && (forall p :: Backup(p) in dir ==> dir[Backup(p)].data == user)
    && (NoBackups(dir) ==> HooksAre(dir, user))
    && Hooks in dir
  }

  /** UserSafe, and what the running process is about to rely on. */
  ghost predicate Safe(s: State, user: Bytes) {
    && UserSafe(s.dir, user)
    && (s.proc.Up? ==>
          var pid, ph := s.proc.pid, s.proc.phase;
          match ph
          case Scanning => true
          case Restoring(data, stale, _) => data == user && StaleOnly(s.dir, stale)
          case Removing(stale, _) => HooksAre(s.dir, user) && StaleOnly(s.dir, stale)
          case Detecting(_) => true
          case Reading => true
          case BackingUp(original) => original == s.dir[Hooks].data
          case Writing(had) => had && Backup(pid) in s.dir
          case Live(had) => had && Backup(pid) in s.dir
          case WritingBack(data) => data == user && Backup(pid) in s.dir
          case Dropping => HooksAre(s.dir, user) && Backup(pid) in s.dir)
  }

  /** What is stale is every backup there is. */
  ghost predicate StaleOnly(dir: Dir, stale: set<Name>) {
    && (forall n :: n in stale ==> n.Backup? && n in dir)
    && (forall p :: Backup(p) in dir ==> Backup(p) in stale)
  }

  /** Backing up is sound when it adds no second backup and changes no existing one. */
  ghost predicate SoundStep(s: State, a: Action) {
    a.Back? && In(s, (p: Phase) => p.BackingUp?) ==>
      forall p :: Backup(p) in s.dir ==> p == s.proc.pid && s.dir[Backup(p)].data == s.proc.phase.original
  }

  ghost predicate SoundRun(s: State, acts: seq<Action>) {
    forall i :: 0 <= i < |acts| ==> SoundStep(Runs.Exec(Step, s, acts[..i]), acts[i])
  }

  lemma ScanKeepsSafe(s: State, a: Action, user: Bytes)
    requires Safe(s, user) && (a.Scan? || a.Restore? || a.Remove? || a.Recover?)
    ensures Safe(Step(s, a), user)
  {
    forall p | Backup(p) in s.dir
      ensures Backup(p) in StaleBackups(s.dir, s.now) <==> s.now - s.dir[Backup(p)].mtime >= STALE_BACKUP_AGE
    {
    }
    if a.Scan? && Step(s, a) != s && StaleBackups(s.dir, s.now) != {} {
      assert Backup(a.oldest.pid) == a.oldest;
    }
  }

  /** A step that backs up keeps the user's bytes exactly when it is sound. */
  lemma BackIsSafeIff(s: State, user: Bytes)
    requires Safe(s, user) && In(s, (p: Phase) => p.BackingUp?)
    ensures UserSafe(Step(s, Back).dir, user) <==> SoundStep(s, Back)
    ensures SoundStep(s, Back) ==> Safe(Step(s, Back), user)
  {
    var pid, dir := s.proc.pid, Step(s, Back).dir;
    assert Backup(pid) in dir && dir[Backup(pid)].data == s.proc.phase.original;
    assert forall p :: Backup(p) in s.dir ==> Backup(p) in dir;
  }

  lemma RestKeepsSafe(s: State, a: Action, user: Bytes)
    requires Safe(s, user) && !a.Scan? && !a.Restore? && !a.Remove? && !a.Recover? && !a.Back?
    ensures Safe(Step(s, a), user)
  {
  }

  lemma StepKeepsSafe(s: State, a: Action, user: Bytes)
    requires Safe(s, user) && SoundStep(s, a)
    ensures Safe(Step(s, a), user)
  {
    if a.Scan? || a.Restore? || a.Remove? || a.Recover? {
      ScanKeepsSafe(s, a, user);
    } else if !a.Back? {
      RestKeepsSafe(s, a, user);
    } else if In(s, (p: Phase) => p.BackingUp?) {
      BackIsSafeIff(s, user);
    }
  }

  lemma SoundInit(s: State, acts: seq<Action>)
    requires acts != []
    ensures var init := acts[..|acts| - 1];
            SoundRun(s, acts) <==> SoundRun(s, init) && SoundStep(Runs.Exec(Step, s, init), acts[|acts| - 1])
  {
    var init := acts[..|acts| - 1];
    forall i | 0 <= i < |init|
      ensures SoundStep(Runs.Exec(Step, s, init[..i]), init[i]) <==> SoundStep(Runs.Exec(Step, s, acts[..i]), acts[i])
    {
      assert init[..i] == acts[..i];
    }
    assert acts[..|init|] == init;
  }

  lemma {:induction false} SoundKeepsSafe(s: State, acts: seq<Action>, user: Bytes)
    requires Safe(s, user) && SoundRun(s, acts)
    ensures Safe(Runs.Exec(Step, s, acts), user)
    decreases |acts|
  {
    if acts != [] {
      var n := |acts| - 1;
      SoundInit(s, acts);
      SoundKeepsSafe(s, acts[..n], user);
      StepKeepsSafe(Runs.Exec(Step, s, acts[..n]), acts[n], user);
    }
  }

  /** After every step so far the user's bytes are in hooks.json or in the single backup. */
  ghost predicate AlwaysSafe(s: State, acts: seq<Action>, user: Bytes) {
    forall i :: 0 <= i <= |acts| ==> SafeAfter(s, acts, i, user)
  }

  ghost predicate SafeAfter(s: State, acts: seq<Action>, i: nat, user: Bytes)
    requires i <= |acts|
  {
    UserSafe(Runs.Exec(Step, s, acts[..i]).dir, user)
  }

  lemma AlwaysSafeInit(s: State, acts: seq<Action>, user: Bytes)
    requires acts != []
    ensures AlwaysSafe(s, acts, user) <==>
            AlwaysSafe(s, acts[..|acts| - 1], user) && UserSafe(Runs.Exec(Step, s, acts).dir, user)
  {
    var init := acts[..|acts| - 1];
    assert acts[..|acts|] == acts;
    assert SafeAfter(s, acts, |acts|, user) <==> UserSafe(Runs.Exec(Step, s, acts).dir, user);
    forall i | 0 <= i <= |init| ensures SafeAfter(s, init, i, user) <==> SafeAfter(s, acts, i, user) {
      assert init[..i] == acts[..i];
    }
  }

  lemma StepIsSafeIff(s: State, a: Action, user: Bytes)
    requires Safe(s, user)
    ensures UserSafe(Step(s, a).dir, user) <==> SoundStep(s, a)
  {
    if a.Back? && In(s, (p: Phase) => p.BackingUp?) {
      BackIsSafeIff(s, user);
    } else {
      StepKeepsSafe(s, a, user);
    }
  }

  /** Over any run, crashes between any two file operations included, that is so exactly when every backup step is sound. */
  lemma {:induction false} SafeIffSound(s: State, acts: seq<Action>, user: Bytes)
    requires s.proc.Down? && UserSafe(s.dir, user)
    ensures AlwaysSafe(s, acts, user) <==> SoundRun(s, acts)
    decreases |acts|
  {
    if acts == [] {
      assert acts[..0] == [] && SafeAfter(s, acts, 0, user);
    } else {
      var n := |acts| - 1;
      SafeIffSound(s, acts[..n], user);
      SoundInit(s, acts);
      AlwaysSafeInit(s, acts, user);
      if SoundRun(s, acts[..n]) {
        SoundKeepsSafe(s, acts[..n], user);
        StepIsSafeIff(Runs.Exec(Step, s, acts[..n]), acts[n], user);
      }
    }
  }

  // ------------------------------------------------- restarts

  /** A restart under a PID whose own backup, if it left one, is old enough by then. */
  ghost predicate GoodStart(s: State, a: Action) {
    a.Start? && s.proc.Down? && Backup(a.pid) in s.dir ==> s.now - s.dir[Backup(a.pid)].mtime >= STALE_BACKUP_AGE
  }

  /** No backup turns old between the clock reading of recovery and that of detection. */
  ghost predicate SameSide(s: State, a: Action) {
    a.Detect? && In(s, (p: Phase) => p.Detecting?) ==>
      forall p :: Backup(p) in s.dir && s.proc.phase.scannedAt - s.dir[Backup(p)].mtime < STALE_BACKUP_AGE ==>
        s.now - s.dir[Backup(p)].mtime < STALE_BACKUP_AGE
  }

  ghost predicate GoodRestarts(s: State, acts: seq<Action>) {
    forall i :: 0 <= i < |acts| ==>
      GoodStart(Runs.Exec(Step, s, acts[..i]), acts[i]) && SameSide(Runs.Exec(Step, s, acts[..i]), acts[i])
  }

  /** What a good restart knows on its way to the backup. */
  ghost predicate WellStarted(s: State) {
    s.proc.Up? ==>
      match s.proc.phase
      case Scanning =>
        Backup(s.proc.pid) in s.dir ==> s.now - s.dir[Backup(s.proc.pid)].mtime >= STALE_BACKUP_AGE
      case Restoring(_, stale, _) => StaleOnly(s.dir, stale)
      case Removing(stale, _) => StaleOnly(s.dir, stale)
      case Detecting(t) =>
        forall p :: Backup(p) in s.dir ==> p != s.proc.pid && t - s.dir[Backup(p)].mtime < STALE_BACKUP_AGE
      case Reading => NoBackups(s.dir)
      case BackingUp(_) => NoBackups(s.dir)
      case _ => true
  }

  lemma ScanStaysWell(s: State, a: Action, user: Bytes)
    requires Safe(s, user) && WellStarted(s) && (a.Scan? || a.Restore? || a.Remove? || a.Recover?)
    ensures WellStarted(Step(s, a))
  {
    ScanKeepsSafe(s, a, user);
    forall p | Backup(p) in s.dir
      ensures Backup(p) in StaleBackups(s.dir, s.now) <==> s.now - s.dir[Backup(p)].mtime >= STALE_BACKUP_AGE
    {
    }
  }

  lemma StaysWell(s: State, a: Action, user: Bytes)
    requires Safe(s, user) && WellStarted(s) && GoodStart(s, a) && SameSide(s, a)
    ensures WellStarted(Step(s, a)) && SoundStep(s, a)
  {
    if a.Scan? || a.Restore? || a.Remove? || a.Recover? {
      ScanStaysWell(s, a, user);
    } else if a.Detect? && In(s, (p: Phase) => p.Detecting?) {
      assert forall n :: n in s.dir && n.Backup? ==> n == Backup(n.pid);
    }
  }

  /**
   Restarts under another PID, or once the own backup is old enough, are sound when
   the two clock readings of each start fall on the same side of every backup's age.
   */
  lemma {:induction false} RestartsAreSound(s: State, acts: seq<Action>, user: Bytes)
    requires s.proc.Down? && UserSafe(s.dir, user) && GoodRestarts(s, acts)
    ensures SoundRun(s, acts) && WellStarted(Runs.Exec(Step, s, acts))
    decreases |acts|
  {
    if acts != [] {
      var n := |acts| - 1;
      var init := acts[..n];
      assert forall i :: 0 <= i < n ==> init[..i] == acts[..i];
      RestartsAreSound(s, init, user);
      SoundKeepsSafe(s, init, user);
      StaysWell(Runs.Exec(Step, s, init), acts[n], user);
      SoundInit(s, acts);
    }
  }

  /**
   Over any run of SDK lifetimes that crash between any two file operations and
   restart like that, the user's bytes are always in hooks.json or in the single
   backup.
   */
  lemma UserBytesSurvive(s: State, acts: seq<Action>, user: Bytes)
    requires s.proc.Down? && UserSafe(s.dir, user) && GoodRestarts(s, acts)
    ensures AlwaysSafe(s, acts, user)
  {
    RestartsAreSound(s, acts, user);
    SafeIffSound(s, acts, user);
  }

  /** hooks.json is as the user left it (None: there is none), and there is no backup. */
  ghost predicate Untouched(dir: Dir, user: Option<Bytes>) {
    NoBackups(dir) && (if user.Some? then HooksAre(dir, user.value) else Hooks !in dir)
  }

  lemma DropLeavesUser(s: State, user: Bytes)
    requires Safe(s, user) && In(s, (p: Phase) => p.Dropping?)
    ensures Step(s, Drop).proc.Down? && Untouched(Step(s, Drop).dir, Some(user))
  {
    assert forall n :: n in s.dir && n.Backup? ==> n == Backup(n.pid);
  }

  lemma CloseReachesDrop(s: State, user: Bytes)
    requires Safe(s, user) && In(s, (p: Phase) => p.Live?)
    ensures var t := Step(Step(s, Close), WriteBack);
            Safe(t, user) && In(t, (p: Phase) => p.Dropping?)
  {
    RestKeepsSafe(s, Close, user);
    RestKeepsSafe(Step(s, Close), WriteBack, user);
  }

  /** Whatever crashed before, as long as the user's bytes were safe: closing puts them back and leaves no backup. */
  lemma CleanCloseRestores(s: State, acts: seq<Action>, user: Bytes)
    requires s.proc.Down? && AlwaysSafe(s, acts, user)
    requires In(Runs.Exec(Step, s, acts), (p: Phase) => p.Live?)
    ensures var t := Step(Step(Step(Runs.Exec(Step, s, acts), Close), WriteBack), Drop);
            t.proc.Down? && Untouched(t.dir, Some(user))
  {
    assert acts[..0] == [] && SafeAfter(s, acts, 0, user);
    SafeIffSound(s, acts, user);
    SoundKeepsSafe(s, acts, user);
    CloseReachesDrop(Runs.Exec(Step, s, acts), user);
    DropLeavesUser(Step(Step(Runs.Exec(Step, s, acts), Close), WriteBack), user);
  }

  ghost predicate OnlyBackup(dir: Dir, pid: nat, user: Bytes) {
    && Backup(pid) in dir && dir[Backup(pid)].data == user
    && forall n :: n in dir && n.Backup? ==> n == Backup(pid)
  }

  /** The states of lifetimes that follow one another without a crash. */
  ghost predicate Quiet(s: State, user: Option<Bytes>) {
    match s.proc
    case Down => Untouched(s.dir, user)
    case Up(pid, _, phase) =>
      match phase
      case Scanning => Untouched(s.dir, user)
      case Detecting(_) => Untouched(s.dir, user)
      case Reading => Untouched(s.dir, user)
      case BackingUp(original) => Untouched(s.dir, user) && user == Some(original)
      case Writing(had) =>
        had == user.Some? && (if had then OnlyBackup(s.dir, pid, user.value) else Untouched(s.dir, user))
      case Live(had) => had == user.Some? && (if had then OnlyBackup(s.dir, pid, user.value) else NoBackups(s.dir))
      case WritingBack(data) => user == Some(data) && OnlyBackup(s.dir, pid, data)
      case Dropping => user.Some? && HooksAre(s.dir, user.value) && OnlyBackup(s.dir, pid, user.value)
      case _ => false
  }

  lemma StepKeepsQuiet(s: State, a: Action, user: Option<Bytes>)
    requires Quiet(s, user)
    requires a.Crash? ==> user.None? && !In(s, (p: Phase) => p.Live?)
    ensures Quiet(Step(s, a), user)
  {
    if a.Scan? && s.proc.Up? && s.proc.phase.Scanning? {
      assert StaleBackups(s.dir, s.now) == {};
    }
  }

  /**
   Lifetimes that install and close cleanly, however many follow one another,
   leave hooks.json byte-identical (or absent, if it was) and no backup.
   */
  lemma {:induction false} CleanLifetimes(s: State, acts: seq<Action>, user: Option<Bytes>)
    requires s.proc.Down? && Untouched(s.dir, user)
    requires forall i :: 0 <= i < |acts| ==> !acts[i].Crash?
    ensures var t := Runs.Exec(Step, s, acts);
            Quiet(t, user) && (t.proc.Down? ==> Untouched(t.dir, user))
    decreases |acts|
  {
    if acts != [] {
      CleanLifetimes(s, acts[..|acts| - 1], user);
      StepKeepsQuiet(Runs.Exec(Step, s, acts[..|acts| - 1]), acts[|acts| - 1], user);
    }
  }

  /** A process was killed while its generated hooks.json was in place. */
  ghost predicate KilledLive(s: State, acts: seq<Action>) {
    exists i :: 0 <= i < |acts| && KilledLiveAt(s, acts, i)
  }

  ghost predicate KilledLiveAt(s: State, acts: seq<Action>, i: nat)
    requires i < |acts|
  {
    acts[i].Crash? && In(Runs.Exec(Step, s, acts[..i]), (p: Phase) => p.Live?)
  }

  lemma KilledLiveStep(s: State, acts: seq<Action>)
    requires acts != []
    ensures var init := acts[..|acts| - 1];
            KilledLive(s, acts) <==> KilledLive(s, init) || KilledLiveAt(s, acts, |acts| - 1)
  {
    var init := acts[..|acts| - 1];
    forall i | 0 <= i < |init| ensures KilledLiveAt(s, init, i) <==> KilledLiveAt(s, acts, i) {
      assert init[..i] == acts[..i];
    }
  }

  /** hooks.json is there to stay: whoever installs finds one. */
  ghost predicate HooksStay(s: State) {
    && Hooks in s.dir
    && !In(s, (p: Phase) => (p.Writing? || p.Live?) && !p.hadOriginal)
  }

  lemma StepKeepsHooks(s: State, a: Action)
    requires HooksStay(s) && (s.proc.Up? && s.proc.phase.Removing? ==> Hooks !in s.proc.phase.stale)
    ensures HooksStay(Step(s, a))
  {
  }

  ghost predicate OnlyBackupsStale(s: State) {
    s.proc.Up? && (s.proc.phase.Restoring? || s.proc.phase.Removing?) ==> Hooks !in s.proc.phase.stale
  }

  /** A run that began without a hooks.json, by whether a process was killed with its own in place. */
  ghost predicate Absent(t: State, killed: bool, sound: bool, adopted: Bytes) {
    && OnlyBackupsStale(t)
    && (killed ==> HooksStay(t) && (sound ==> Safe(t, adopted)))
    && (!killed ==> Quiet(t, None))
  }

  lemma KilledStays(t: State, a: Action, sound: bool, adopted: Bytes)
    requires Absent(t, true, sound, adopted)
    ensures Absent(Step(t, a), true, sound && SoundStep(t, a), adopted)
  {
    StepKeepsHooks(t, a);
    if sound && SoundStep(t, a) {
      StepKeepsSafe(t, a, adopted);
    }
  }

  lemma KillAdopts(t: State)
    requires Quiet(t, None) && In(t, (p: Phase) => p.Live?) && Hooks in t.dir
    ensures Absent(Step(t, Crash), true, true, t.dir[Hooks].data)
  {
    assert forall p :: Backup(p) !in t.dir;
  }

  /**
   A user without a hooks.json gets that back if and only if no process was killed
   while its own was in place: the next lifetime takes what it finds for the
   user's, and from then on keeps that safe as far as it keeps anything safe.
   */
  lemma {:induction false} AbsentFileComesBackIff(s: State, acts: seq<Action>) returns (adopted: Bytes)
    requires s.proc.Down? && Untouched(s.dir, None)
    ensures var t := Runs.Exec(Step, s, acts);
            && Absent(t, KilledLive(s, acts), SoundRun(s, acts), adopted)
            && (t.proc.Down? ==> (Hooks in t.dir <==> KilledLive(s, acts)))
    decreases |acts|
  {
    adopted := "";
    if acts != [] {
      var n := |acts| - 1;
      SoundInit(s, acts);
      adopted := AbsentFileComesBackIff(s, acts[..n]);
      KilledLiveStep(s, acts);
      var t := Runs.Exec(Step, s, acts[..n]);
      if KilledLive(s, acts[..n]) {
        KilledStays(t, acts[n], SoundRun(s, acts[..n]), adopted);
      } else if KilledLiveAt(s, acts, n) {
        LiveHasHooks(s, acts[..n]);
        adopted := t.dir[Hooks].data;
        KillAdopts(t);
      } else {
        StepKeepsQuiet(t, acts[n], None);
      }
    }
  }

  lemma {:induction false} LiveHasHooks(s: State, acts: seq<Action>)
    requires s.proc.Down?
    ensures In(Runs.Exec(Step, s, acts), (p: Phase) => p.Live?) ==> Hooks in Runs.Exec(Step, s, acts).dir
    decreases |acts|
  {
    if acts != [] {
      LiveHasHooks(s, acts[..|acts| - 1]);
    }
  }

  /** The user's bytes are in no file at all. */
  ghost predicate Lost(dir: Dir, user: Bytes) {
    forall n :: n in dir ==> dir[n].data != user
  }

  function UserOnly(user: Bytes): State {
    State(map[Hooks := File(user, 0)], 0, Down)
  }

  /** Process 1 has read the user's file. */
  lemma FirstInstall(user: Bytes, sdk: Bytes)
    ensures Step(Step(Step(Step(UserOnly(user), Start(1, sdk)), Scan(Hooks)), Detect), Read) ==
            State(UserOnly(user).dir, 0, Up(1, sdk, BackingUp(user)))
  {
    assert StaleBackups(UserOnly(user).dir, 0) == {};
  }

  /** Its backup and its own config, at time 0. */
  function AfterCrash(user: Bytes, sdk: Bytes): Dir {
    map[Hooks := File(sdk, 0), Backup(1) := File(user, 0)]
  }

  lemma CrashAndRestart(user: Bytes, sdk: Bytes, pid: nat)
    ensures Step(Step(Step(Step(State(UserOnly(user).dir, 0, Up(1, sdk, BackingUp(user))), Back), Write), Crash), Start(pid, sdk)) ==
            State(AfterCrash(user, sdk), 0, Up(pid, sdk, Scanning))
  {
  }

  lemma SamePidReinstall(user: Bytes, sdk: Bytes)
    ensures Step(Step(Step(Step(State(AfterCrash(user, sdk), 0, Up(1, sdk, Scanning)), Scan(Hooks)), Detect), Read), Back) ==
            State(map[Hooks := File(sdk, 0), Backup(1) := File(sdk, 0)], 0, Up(1, sdk, Writing(true)))
  {
    assert StaleBackups(AfterCrash(user, sdk), 0) == {};
  }

  function CrashedInstall(sdk: Bytes, next: nat): seq<Action> {
    [Start(1, sdk), Scan(Hooks), Detect, Read] + [Back, Write, Crash, Start(next, sdk)]
  }

  lemma CrashedInstallRun(user: Bytes, sdk: Bytes, next: nat)
    ensures Runs.Exec(Step, UserOnly(user), CrashedInstall(sdk, next)) ==
            State(AfterCrash(user, sdk), 0, Up(next, sdk, Scanning))
  {
    var s := UserOnly(user);
    var first := [Start(1, sdk), Scan(Hooks), Detect, Read];
    FirstInstall(user, sdk);
    Runs.Reach(Step, s, [], s, Start(1, sdk), Scan(Hooks), Detect, Read, State(s.dir, 0, Up(1, sdk, BackingUp(user))));
    assert [] + first == first;
    CrashAndRestart(user, sdk, next);
    Runs.Reach(Step, s, first, State(s.dir, 0, Up(1, sdk, BackingUp(user))), Back, Write, Crash, Start(next, sdk),
          State(AfterCrash(user, sdk), 0, Up(next, sdk, Scanning)));
  }

  /** A process that crashes and comes back under its own PID within the minute overwrites the only backup. */
  lemma SamePidRestartLoses(user: Bytes, sdk: Bytes)
    requires user != sdk
    ensures var acts := CrashedInstall(sdk, 1) + [Scan(Hooks), Detect, Read, Back];
            Lost(Runs.Exec(Step, UserOnly(user), acts).dir, user)
  {
    CrashedInstallRun(user, sdk, 1);
    SamePidReinstall(user, sdk);
    Runs.Reach(Step, UserOnly(user), CrashedInstall(sdk, 1), State(AfterCrash(user, sdk), 0, Up(1, sdk, Scanning)),
          Scan(Hooks), Detect, Read, Back,
          State(map[Hooks := File(sdk, 0), Backup(1) := File(sdk, 0)], 0, Up(1, sdk, Writing(true))));
  }

  lemma StraddlingDetection(user: Bytes, sdk: Bytes)
    ensures Step(Step(Step(Step(State(AfterCrash(user, sdk), 0, Up(2, sdk, Scanning)), Tick(59)), Scan(Hooks)), Tick(1)), Detect) ==
            State(AfterCrash(user, sdk), 60, Up(2, sdk, Reading))
  {
    assert StaleBackups(AfterCrash(user, sdk), 59) == {};
  }

  function TwoBackups(user: Bytes, sdk: Bytes): Dir {
    map[Hooks := File(sdk, 60), Backup(1) := File(user, 0), Backup(2) := File(sdk, 60)]
  }

  lemma SecondInstall(user: Bytes, sdk: Bytes)
    ensures Step(Step(Step(Step(State(AfterCrash(user, sdk), 60, Up(2, sdk, Reading)), Read), Back), Write), Crash) ==
            State(TwoBackups(user, sdk), 60, Down)
  {
  }

  lemma ThirdRecovers(user: Bytes, sdk: Bytes)
    ensures Step(Step(Step(Step(State(TwoBackups(user, sdk), 60, Down), Start(3, sdk)), Tick(1)), Scan(Backup(1))), Restore) ==
            State(TwoBackups(user, sdk)[Hooks := File(user, 61)], 61, Up(3, sdk, Removing({Backup(1)}, 61)))
  {
    assert StaleBackups(TwoBackups(user, sdk), 61) == {Backup(1)};
  }

  function LateBackup(user: Bytes, sdk: Bytes): Dir {
    map[Hooks := File(user, 61), Backup(2) := File(sdk, 60)]
  }

  lemma ThirdIsRefused(user: Bytes, sdk: Bytes)
    ensures var s := State(TwoBackups(user, sdk)[Hooks := File(user, 61)], 61, Up(3, sdk, Removing({Backup(1)}, 61)));
            Step(Step(Step(Step(s, Remove(Backup(1))), Recover), Detect), Tick(60)) == State(LateBackup(user, sdk), 121, Down)
  {
    var d := TwoBackups(user, sdk)[Hooks := File(user, 61)];
    assert d - {Backup(1)} == LateBackup(user, sdk) && {Backup(1)} - {Backup(1)} == {};
    assert Backup(2) in LateBackup(user, sdk);
  }

  lemma FourthOverwrites(user: Bytes, sdk: Bytes)
    ensures Step(Step(Step(Step(State(LateBackup(user, sdk), 121, Down), Start(4, sdk)), Scan(Backup(2))), Restore), Remove(Backup(2))) ==
            State(map[Hooks := File(sdk, 121)], 121, Up(4, sdk, Removing({}, 121)))
  {
    assert StaleBackups(LateBackup(user, sdk), 121) == {Backup(2)};
    assert LateBackup(user, sdk)[Hooks := File(sdk, 121)] - {Backup(2)} == map[Hooks := File(sdk, 121)];
    assert {Backup(2)} - {Backup(2)} == {};
  }

  /** Four lifetimes, four PIDs; the second reads its clock at seconds 59 and 60. */
  function StraddlingRun(sdk: Bytes): seq<Action> {
    CrashedInstall(sdk, 2)
    + [Tick(59), Scan(Hooks), Tick(1), Detect]
    + [Read, Back, Write, Crash]
    + [Start(3, sdk), Tick(1), Scan(Backup(1)), Restore]
    + [Remove(Backup(1)), Recover, Detect, Tick(60)]
    + [Start(4, sdk), Scan(Backup(2)), Restore, Remove(Backup(2))]
  }

  /**
   Different PIDs are not enough either: a restart whose two clock readings fall
   on either side of the backup's sixtieth second installs a second backup, and
   two more starts later the user's bytes are gone.
   */
  lemma StraddlingStartLoses(user: Bytes, sdk: Bytes)
    requires user != sdk
    ensures var t := Runs.Exec(Step, UserOnly(user), StraddlingRun(sdk));
            Lost(t.dir, user) && NoBackups(t.dir)
  {
    var s := UserOnly(user);
    var a := CrashedInstall(sdk, 2);
    var s2 := State(AfterCrash(user, sdk), 0, Up(2, sdk, Scanning));
    CrashedInstallRun(user, sdk, 2);
    var s3 := State(AfterCrash(user, sdk), 60, Up(2, sdk, Reading));
    StraddlingDetection(user, sdk);
    Runs.Reach(Step, s, a, s2, Tick(59), Scan(Hooks), Tick(1), Detect, s3);
    a := a + [Tick(59), Scan(Hooks), Tick(1), Detect];
    var s4 := State(TwoBackups(user, sdk), 60, Down);
    SecondInstall(user, sdk);
    Runs.Reach(Step, s, a, s3, Read, Back, Write, Crash, s4);
    a := a + [Read, Back, Write, Crash];
    var s5 := State(TwoBackups(user, sdk)[Hooks := File(user, 61)], 61, Up(3, sdk, Removing({Backup(1)}, 61)));
    ThirdRecovers(user, sdk);
    Runs.Reach(Step, s, a, s4, Start(3, sdk), Tick(1), Scan(Backup(1)), Restore, s5);
    a := a + [Start(3, sdk), Tick(1), Scan(Backup(1)), Restore];
    var s6 := State(LateBackup(user, sdk), 121, Down);
    ThirdIsRefused(user, sdk);
    Runs.Reach(Step, s, a, s5, Remove(Backup(1)), Recover, Detect, Tick(60), s6);
    a := a + [Remove(Backup(1)), Recover, Detect, Tick(60)];
    FourthOverwrites(user, sdk);
    Runs.Reach(Step, s, a, s6, Start(4, sdk), Scan(Backup(2)), Restore, Remove(Backup(2)),
          State(map[Hooks := File(sdk, 121)], 121, Up(4, sdk, Removing({}, 121))));
  }

  // ------------------------------------------------- the steps and the methods

  /** Uninterrupted, the steps past detection leave what installHooksJSON does. */
  lemma InstallationIsInstalled(s: State)
    requires In(s, (p: Phase) => p.Reading?)
    ensures var t := Step(Step(Step(s, Read), Back), Write);
            && t.dir == Installed(s.dir, s.proc.pid, s.proc.sdk, s.now)
            && In(t, (p: Phase) => p == Live(Hooks in s.dir))
  {
  }

  /** And so do those of Close. */
  lemma ClosingIsRestored(s: State)
    requires In(s, (p: Phase) => p.Live?)
    ensures var t := Step(Step(Step(s, Close), WriteBack), Drop);
            && t.proc.Down?
            && t.dir == Restored(s.dir, if s.proc.phase.hadOriginal then Some(Backup(s.proc.pid)) else None, s.now)
  {
  }

  /**
   An installation and, any time later, a close give every file but hooks.json back
   as it was, hooks.json with its old bytes or not at all, and leave no backup.
   */
  lemma InstallThenClose(s: State, seconds: nat)
    requires In(s, (p: Phase) => p.Reading?) && Backup(s.proc.pid) !in s.dir
    ensures var live := Step(Step(Step(s, Read), Back), Write);
            var t := Step(Step(Step(Step(live, Tick(seconds)), Close), WriteBack), Drop);
            && Hooks in live.dir && live.dir[Hooks].data == s.proc.sdk
            && t.proc.Down? && t.dir.Keys == s.dir.Keys
            && (Hooks in s.dir ==> t.dir[Hooks].data == s.dir[Hooks].data)
            && (forall n :: n in s.dir && n != Hooks ==> t.dir[n] == s.dir[n])
  {
    InstallationIsInstalled(s);
    var live := Step(Step(Step(s, Read), Back), Write);
    ClosingIsRestored(Step(live, Tick(seconds)));
  }

  /**
   When several crashed processes left old backups, the oldest one wins: if that is
   the user's, recovery puts the user's bytes back and removes every old backup, and
   touches no fresh one.
   */
  lemma OldestBackupWins(dir: Dir, now: int, oldest: Name, p: nat, user: Bytes)
    requires IsOldestStale(dir, oldest, now)
    requires Backup(p) in dir && now - dir[Backup(p)].mtime >= STALE_BACKUP_AGE && dir[Backup(p)].data == user
    requires forall q :: q != p && Backup(q) in dir ==> dir[Backup(p)].mtime < dir[Backup(q)].mtime
    ensures var t := Recovered(dir, now, oldest);
            && HooksAre(t, user)
            && (forall q :: Backup(q) in t <==> Backup(q) in dir && now - dir[Backup(q)].mtime < STALE_BACKUP_AGE)
            && (forall q :: Backup(q) in t ==> t[Backup(q)] == dir[Backup(q)])
  {
    assert Backup(p) in StaleBackups(dir, now);
    assert oldest == Backup(oldest.pid);
  }

  /** Uninterrupted, the recovery steps compute what recoverStaleBackups does. */
  lemma RecoveryIsRecovered(s: State, acts: seq<Action>, oldest: Name)
    requires s.proc.Up? && s.proc.phase.Scanning?
    requires StaleBackups(s.dir, s.now) != {} ==> IsOldestStale(s.dir, oldest, s.now)
    requires forall i :: 0 <= i < |acts| ==> acts[i].Restore? || acts[i].Remove? || acts[i].Recover?
    requires In(Runs.Exec(Step, s, [Scan(oldest)] + acts), (p: Phase) => p.Detecting?)
    ensures Runs.Exec(Step, s, [Scan(oldest)] + acts).dir == Recovered(s.dir, s.now, oldest)
  {
    Runs.Follow(Step, s, [Scan(oldest)]);
    Runs.Split(Step, s, [Scan(oldest)], acts);
    RecoveryProgress(s, Step(s, Scan(oldest)), acts, oldest);
  }

  /** Recovery under way: what was stale is gone but for what is still to be removed. */
  ghost predicate Underway(s: State, t: State, oldest: Name) {
    var stale := StaleBackups(s.dir, s.now);
    && t.now == s.now && t.proc.Up?
    && match t.proc.phase
       case Restoring(data, rest, _) =>
         oldest in stale && rest == stale && data == s.dir[oldest].data && t.dir == s.dir
       case Removing(rest, _) =>
         oldest in stale && rest <= stale && t.dir == s.dir[Hooks := File(s.dir[oldest].data, s.now)] - (stale - rest)
       case Detecting(_) => (stale != {} ==> oldest in s.dir) && t.dir == Recovered(s.dir, s.now, oldest)
       case _ => false
  }

  lemma {:induction false} RecoveryProgress(s: State, t: State, acts: seq<Action>, oldest: Name)
    requires Underway(s, t, oldest)
    requires forall i :: 0 <= i < |acts| ==> acts[i].Restore? || acts[i].Remove? || acts[i].Recover?
    ensures Underway(s, Runs.Exec(Step, t, acts), oldest)
    decreases |acts|
  {
    if acts != [] {
      var init, a := acts[..|acts| - 1], acts[|acts| - 1];
      RecoveryProgress(s, t, init, oldest);
      RecoveryStep(s, Runs.Exec(Step, t, init), a, oldest);
    }
  }

  lemma RecoveryStep(s: State, t: State, a: Action, oldest: Name)
    requires Underway(s, t, oldest) && (a.Restore? || a.Remove? || a.Recover?)
    ensures Underway(s, Step(t, a), oldest)
  {
    var stale := StaleBackups(s.dir, s.now);
    if t.proc.phase.Removing? && a.Remove? && a.n in t.proc.phase.stale {
      var rest := t.proc.phase.stale;
      assert stale - (rest - {a.n}) == (stale - rest) + {a.n};
    } else if t.proc.phase.Removing? && a.Recover? && t.proc.phase.stale == {} {
      assert stale - {} == stale;
    } else if t.proc.phase.Restoring? && a.Restore? {
      assert stale - stale == {};
    }
  }
}
