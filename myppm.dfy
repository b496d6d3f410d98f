/**
 * The wallpaper manager: wallpapers are git repositories listed in a
 * configuration file and checked out, shallow and sparse, under the
 * wallpapers directory.
 *
 * Git and the file system are a `Host`: which paths exist, which git
 * invocations fail, and what each one prints. The only change a command makes
 * to the host that a later step looks at is a clone's new checkout, which a
 * later wallpaper of the same name then finds in place. What the manager does
 * is the list of operations it performs, in order, and whether it stopped at
 * a failure.
 */
module Ppm {
  import opened Wrappers
  import opened Text
  import opened PathRules
  import opened Effects

  datatype Wallpaper = Wallpaper(name: string, repo: string, subdir: Option<string>)

  /** One `git` invocation: its working directory (`None`: the manager's own) and its arguments. */
  datatype Call = Call(cwd: Option<string>, args: seq<string>)

  datatype Op = Git(call: Call) | RemoveDirAll(path: string) | RemoveFile(path: string)

  datatype Host = Host(existing: set<string>, failing: set<Call>, stdout: map<Call, string>)

  datatype NameError = HasSeparator | DotSegment

  datatype EntryProblem = NameEmpty | NameUnsafe(reason: NameError) | RepoEmpty

  datatype ConfigError = Unreadable | Unparsable | Invalid(index: nat, problem: EntryProblem)

  datatype PpmError =
    | GitFailed(call: Call)
    | NotFound(target: string)
    | SyncFailed(name: string)
    | ReadDirFailed
    | RemoveFailed(path: string)
    | ConfigFailed(reason: ConfigError)

  type Effect = Trace<Op, PpmError>

  // ---------------------------------------------------------------- names

  /** A name that is safe as a folder name: no separator, and no "." or ".." segment. */
  predicate SafeFolderName(name: string) {
    '/' !in name && '\\' !in name && name != "." && !ContainsSub(name, "..")
  }

  /** `validate_wallpaper_name`: separators are reported first, dot segments second. */
  function ValidateWallpaperName(name: string): (r: Result<(), NameError>)
    ensures r.Success? <==> SafeFolderName(name)
    ensures r == Failure(HasSeparator) <==> '/' in name || '\\' in name
    ensures r == Failure(DotSegment) <==> '/' !in name && '\\' !in name && (name == "." || ContainsSub(name, ".."))
  {
    assert OccursAt("..", "..", 0);
    if '/' in name || '\\' in name then Failure(HasSeparator)
    else if name == "." || name == ".." || ContainsSub(name, "..") then Failure(DotSegment)
    else Success(())
  }

  /** A validated, non-empty name is one path component: the directory it names sits right inside the wallpapers directory. */
  lemma ValidNameStaysInside(dir: string, name: string)
    requires name != "" && ValidateWallpaperName(name).Success?
    ensures IsPlainName(name)
    ensures FileName(Join(dir, name)) == Some(name)
  {
    assert OccursAt("..", "..", 0);
    FileNameOfJoin(dir, name);
  }

  // ---------------------------------------------------------------- configuration

  /** The checks `load_config` makes on one entry, in their order; `subdir` is not looked at. */
  function EntryCheck(w: Wallpaper): (r: Option<EntryProblem>)
    ensures r.None? <==> w.name != "" && SafeFolderName(w.name) && w.repo != ""
    ensures w.name == "" ==> r == Some(NameEmpty)
    ensures w.name != "" && !SafeFolderName(w.name) ==> r.Some? && r.value.NameUnsafe?
    ensures w.name != "" && SafeFolderName(w.name) && w.repo == "" ==> r == Some(RepoEmpty)
  {
    if w.name == "" then Some(NameEmpty)
    else match ValidateWallpaperName(w.name)
      case Failure(e) => Some(NameUnsafe(e))
      case Success(_) => if w.repo == "" then Some(RepoEmpty) else None
  }

  /** `e` reports the first entry, in index order, that fails its checks. */
  ghost predicate FirstInvalid(ws: seq<Wallpaper>, e: ConfigError) {
    && e.Invalid?
    && e.index < |ws|
    && EntryCheck(ws[e.index]) == Some(e.problem)
    && (forall j :: 0 <= j < e.index ==> EntryCheck(ws[j]).None?)
  }

  /**
   * `load_config`: read the file, decode it, then check the entries in index
   * order, stopping at the first that fails. `read` is the file's text, or
   * `None` when it cannot be read; `parse` is the TOML decoder.
   */
  method LoadConfig(read: Option<string>, parse: string -> Option<seq<Wallpaper>>)
    returns (r: Result<seq<Wallpaper>, ConfigError>)
    ensures read.None? ==> r == Failure(Unreadable)
    ensures read.Some? && parse(read.value).None? ==> r == Failure(Unparsable)
    ensures read.Some? && parse(read.value).Some? ==>
      var ws := parse(read.value).value;
      && (r.Success? <==> forall i :: 0 <= i < |ws| ==> EntryCheck(ws[i]).None?)
      && (r.Success? ==> r.value == ws)
      && (r.Failure? ==> FirstInvalid(ws, r.error))
  {
    if read.None? {
      return Failure(Unreadable);
    }
    var decoded := parse(read.value);
    if decoded.None? {
      return Failure(Unparsable);
    }
    var ws := decoded.value;
    var i := 0;
    while i < |ws|
      invariant 0 <= i <= |ws|
      invariant forall j :: 0 <= j < i ==> EntryCheck(ws[j]).None?
    {
      var w := ws[i];
      if w.name == "" {
        return Failure(Invalid(i, NameEmpty));
      }
      var valid := ValidateWallpaperName(w.name);
      if valid.Failure? {
        return Failure(Invalid(i, NameUnsafe(valid.error)));
      }
      if w.repo == "" {
        return Failure(Invalid(i, RepoEmpty));
      }
      i := i + 1;
    }
    return Success(ws);
  }

  // ---------------------------------------------------------------- git

  const SparseInitArgs := ["sparse-checkout", "init", "--cone"]
  const CheckoutForceArgs := ["checkout", "-f"]
  const PullArgs := ["pull", "--ff-only"]
  const SymbolicRefArgs := ["symbolic-ref", "--quiet", "--short", "refs/remotes/origin/HEAD"]
  const StatusArgs := ["status", "--porcelain"]
  const DefaultRemote := "origin/master"

  function CloneArgs(repo: string, dest: string): seq<string> {
    ["clone", "--depth=1", "--single-branch", "--filter=blob:none", "--no-checkout", repo, dest]
  }

  function SparseSetArgs(subdir: string): seq<string> {
    ["sparse-checkout", "set", subdir]
  }

  function TrackArgs(remote: string): seq<string> {
    ["checkout", "-B", "mayppm", "--track", remote]
  }

  /** Run one git command and require it to succeed (`git`, and the clone's `ensure!`). */
  function RunGit(host: Host, c: Call): (t: Effect)
    ensures t.ops == [Git(c)]
    ensures t.result.Failure? <==> c in host.failing
    ensures t.result.Failure? ==> t.result.error == GitFailed(c)
  {
    Trace([Git(c)], if c in host.failing then Failure(GitFailed(c)) else Success(()))
  }

  /** What a command prints on standard output; nothing when the host records no output. */
  function Stdout(host: Host, c: Call): string {
    if c in host.stdout then host.stdout[c] else ""
  }

  /** `git_capture`: run, fail if the command fails, else its trimmed output. */
  function GitCapture(host: Host, c: Call): (r: Result<string, PpmError>)
    ensures r.Failure? <==> c in host.failing
    ensures r.Success? ==> r.value == Trim(Stdout(host, c))
  {
    if c in host.failing then Failure(GitFailed(c)) else Success(Trim(Stdout(host, c)))
  }

  /** The upstream to track: the remote's default branch, or "origin/master" when the lookup fails. */
  function DefaultBranch(host: Host, dir: string): (b: string)
    ensures Call(Some(dir), SymbolicRefArgs) in host.failing ==> b == DefaultRemote
    ensures Call(Some(dir), SymbolicRefArgs) !in host.failing ==> b == Trim(Stdout(host, Call(Some(dir), SymbolicRefArgs)))
  {
    match GitCapture(host, Call(Some(dir), SymbolicRefArgs))
    case Success(out) => out
    case Failure(_) => DefaultRemote
  }

  /** `ensure_branch`: look up the default branch, then check out a local `mayppm` branch tracking it. */
  function EnsureBranch(host: Host, dir: string): (t: Effect)
    ensures t.ops == [Git(Call(Some(dir), SymbolicRefArgs)), Git(Call(Some(dir), TrackArgs(Trim(DefaultBranch(host, dir)))))]
    ensures t.result.Failure? <==> Call(Some(dir), TrackArgs(Trim(DefaultBranch(host, dir)))) in host.failing
  {
    var lookup: Effect := Trace([Git(Call(Some(dir), SymbolicRefArgs))], Success(()));
    AndThen(lookup, RunGit(host, Call(Some(dir), TrackArgs(Trim(DefaultBranch(host, dir))))))
  }

  /** `is_dirty`: run `git status --porcelain`; dirty when its output is not blank. */
  function IsDirty(host: Host, dir: string): (r: Result<bool, PpmError>)
    ensures r.Failure? <==> Call(Some(dir), StatusArgs) in host.failing
  {
    match GitCapture(host, Call(Some(dir), StatusArgs))
    case Success(out) => Success(Trim(out) != [])
    case Failure(e) => Failure(e)
  }

  /** A checkout is dirty exactly when the status output has a character that is not whitespace. */
  lemma IsDirtyIff(host: Host, dir: string)
    requires Call(Some(dir), StatusArgs) !in host.failing
    ensures IsDirty(host, dir) == Success(!AllWhitespace(Stdout(host, Call(Some(dir), StatusArgs))))
  {
    var s := Stdout(host, Call(Some(dir), StatusArgs));
    TrimSpec(s);
    TrimSpec(Trim(s));
    var t := Trim(s);
    assert AllWhitespace(t) <==> t == [] by {
      if t != [] {
        assert !IsWhitespace(t[0]);
      }
    }
  }

  /** Narrow the sparse checkout to `subdir` when one is configured. */
  function SparseSet(host: Host, dest: string, subdir: Option<string>): (t: Effect)
    ensures subdir.None? ==> t == Done()
    ensures subdir.Some? ==> t == RunGit(host, Call(Some(dest), SparseSetArgs(subdir.value)))
  {
    match subdir
    case None => Done()
    case Some(sd) => RunGit(host, Call(Some(dest), SparseSetArgs(sd)))
  }

  /** `clone_sparse_repo`: shallow clone without checkout, sparse init and set, checkout, branch. */
  function CloneSparse(host: Host, dest: string, repo: string, subdir: Option<string>): Effect {
    AndThen(RunGit(host, Call(None, CloneArgs(repo, dest))),
    AndThen(RunGit(host, Call(Some(dest), SparseInitArgs)),
    AndThen(SparseSet(host, dest, subdir),
    AndThen(RunGit(host, Call(Some(dest), CheckoutForceArgs)),
            EnsureBranch(host, dest)))))
  }

  /** The checkout directory of a wallpaper. */
  function Destination(wallpapersDir: string, w: Wallpaper): string {
    Join(wallpapersDir, w.name)
  }

  /**
   * `sync_wallpaper`: install when the destination is missing; otherwise
   * re-apply the sparse settings, then skip a dirty checkout, and only then
   * fix the branch and pull.
   */
  function SyncWallpaper(host: Host, wallpapersDir: string, w: Wallpaper): (t: Effect)
    // a missing destination is cloned, and nothing else happens
    ensures Destination(wallpapersDir, w) !in host.existing ==>
      t == CloneSparse(host, Destination(wallpapersDir, w), w.repo, w.subdir)
  {
    var dest := Destination(wallpapersDir, w);
    if dest !in host.existing then CloneSparse(host, dest, w.repo, w.subdir)
    else
      var prepare := AndThen(RunGit(host, Call(Some(dest), SparseInitArgs)), SparseSet(host, dest, w.subdir));
      var probe: Effect := Trace([Git(Call(Some(dest), StatusArgs))], Success(()));
      if prepare.result.Failure? then prepare
      else match IsDirty(host, dest)
        case Failure(e) => Trace(prepare.ops + probe.ops, Failure(e))
        case Success(true) => Trace(prepare.ops + probe.ops, Success(()))
        case Success(false) =>
          AndThen(Trace(prepare.ops + probe.ops, Success(())),
            AndThen(EnsureBranch(host, dest), RunGit(host, Call(Some(dest), PullArgs))))
  }

  /** A dirty checkout is left alone: the sync succeeds after the status check, without fixing the branch or pulling. */
  lemma DirtyIsSkipped(host: Host, wallpapersDir: string, w: Wallpaper)
    requires Destination(wallpapersDir, w) in host.existing
    requires Call(Some(Destination(wallpapersDir, w)), SparseInitArgs) !in host.failing
    requires SparseSet(host, Destination(wallpapersDir, w), w.subdir).result.Success?
    requires IsDirty(host, Destination(wallpapersDir, w)) == Success(true)
    ensures var dest := Destination(wallpapersDir, w);
      SyncWallpaper(host, wallpapersDir, w) ==
        Trace([Git(Call(Some(dest), SparseInitArgs))] + SparseSet(host, dest, w.subdir).ops + [Git(Call(Some(dest), StatusArgs))], Success(()))
  {
  }

  /** A clean checkout is updated: after the status check the branch is fixed, and then the pull runs. */
  lemma CleanIsUpdated(host: Host, wallpapersDir: string, w: Wallpaper)
    requires Destination(wallpapersDir, w) in host.existing
    requires Call(Some(Destination(wallpapersDir, w)), SparseInitArgs) !in host.failing
    requires SparseSet(host, Destination(wallpapersDir, w), w.subdir).result.Success?
    requires IsDirty(host, Destination(wallpapersDir, w)) == Success(false)
    ensures var dest := Destination(wallpapersDir, w);
      var checked: Effect := Trace([Git(Call(Some(dest), SparseInitArgs))] + SparseSet(host, dest, w.subdir).ops + [Git(Call(Some(dest), StatusArgs))], Success(()));
      SyncWallpaper(host, wallpapersDir, w) == AndThen(checked, AndThen(EnsureBranch(host, dest), RunGit(host, Call(Some(dest), PullArgs))))
  {
  }

  /**
   * A failing `sparse-checkout init` or `set` ends the sync with its error,
   * before the status is read.
   */
  lemma PrepareFailureStops(host: Host, wallpapersDir: string, w: Wallpaper)
    requires Destination(wallpapersDir, w) in host.existing
    ensures var dest := Destination(wallpapersDir, w);
      var init := Call(Some(dest), SparseInitArgs);
      var t := SyncWallpaper(host, wallpapersDir, w);
      && (init in host.failing ==> t == Trace([Git(init)], Failure(GitFailed(init))))
      && (init !in host.failing && w.subdir.Some? && Call(Some(dest), SparseSetArgs(w.subdir.value)) in host.failing ==>
            t == Trace([Git(init), Git(Call(Some(dest), SparseSetArgs(w.subdir.value)))],
                       Failure(GitFailed(Call(Some(dest), SparseSetArgs(w.subdir.value))))))
  {
  }

  /** A status that cannot be read ends the sync with that error, after the sparse settings. */
  lemma StatusFailureFails(host: Host, wallpapersDir: string, w: Wallpaper)
    requires Destination(wallpapersDir, w) in host.existing
    requires Call(Some(Destination(wallpapersDir, w)), SparseInitArgs) !in host.failing
    requires SparseSet(host, Destination(wallpapersDir, w), w.subdir).result.Success?
    requires Call(Some(Destination(wallpapersDir, w)), StatusArgs) in host.failing
    ensures var dest := Destination(wallpapersDir, w);
      SyncWallpaper(host, wallpapersDir, w) ==
        Trace([Git(Call(Some(dest), SparseInitArgs))] + SparseSet(host, dest, w.subdir).ops + [Git(Call(Some(dest), StatusArgs))],
              Failure(GitFailed(Call(Some(dest), StatusArgs))))
  {
  }

  /** A git command other than `pull`. */
  predicate GitNotPull(op: Op) {
    op.Git? && op.call.args != PullArgs
  }

  /** Every operation of a clone is a git command other than a pull. */
  lemma CloneNeverPulls(host: Host, dest: string, repo: string, subdir: Option<string>)
    ensures forall op | op in CloneSparse(host, dest, repo, subdir).ops :: GitNotPull(op)
  {
    var p := GitNotPull;
    var lookup: Effect := Trace([Git(Call(Some(dest), SymbolicRefArgs))], Success(()));
    var track := RunGit(host, Call(Some(dest), TrackArgs(Trim(DefaultBranch(host, dest)))));
    AndThenKeeps(lookup, track, p);
    var rest := AndThen(RunGit(host, Call(Some(dest), CheckoutForceArgs)), EnsureBranch(host, dest));
    AndThenKeeps(RunGit(host, Call(Some(dest), CheckoutForceArgs)), EnsureBranch(host, dest), p);
    AndThenKeeps(SparseSet(host, dest, subdir), rest, p);
    var rest2 := AndThen(SparseSet(host, dest, subdir), rest);
    AndThenKeeps(RunGit(host, Call(Some(dest), SparseInitArgs)), rest2, p);
    AndThenKeeps(RunGit(host, Call(None, CloneArgs(repo, dest))), AndThen(RunGit(host, Call(Some(dest), SparseInitArgs)), rest2), p);
  }

  /** A pull only ever happens in an existing checkout whose status was read and found clean. */
  lemma PullOnlyWhenClean(host: Host, wallpapersDir: string, w: Wallpaper)
    ensures Git(Call(Some(Destination(wallpapersDir, w)), PullArgs)) in SyncWallpaper(host, wallpapersDir, w).ops ==>
      Destination(wallpapersDir, w) in host.existing && IsDirty(host, Destination(wallpapersDir, w)) == Success(false)
  {
    var dest := Destination(wallpapersDir, w);
    if dest !in host.existing {
      CloneNeverPulls(host, dest, w.repo, w.subdir);
    } else {
      var pull := Git(Call(Some(dest), PullArgs));
      assert forall sd :: SparseSetArgs(sd) != PullArgs;
      assert pull !in [Git(Call(Some(dest), SparseInitArgs))] + SparseSet(host, dest, w.subdir).ops + [Git(Call(Some(dest), StatusArgs))];
    }
  }

  /** Syncing one wallpaper only ever runs git. */
  lemma SyncOnlyRunsGit(host: Host, wallpapersDir: string, w: Wallpaper)
    ensures forall op | op in SyncWallpaper(host, wallpapersDir, w).ops :: op.Git?
  {
    var dest := Destination(wallpapersDir, w);
    if dest !in host.existing {
      CloneNeverPulls(host, dest, w.repo, w.subdir);
    } else {
      var p := (op: Op) => op.Git?;
      var prepare := AndThen(RunGit(host, Call(Some(dest), SparseInitArgs)), SparseSet(host, dest, w.subdir));
      AndThenKeeps(RunGit(host, Call(Some(dest), SparseInitArgs)), SparseSet(host, dest, w.subdir), p);
      var lookup: Effect := Trace([Git(Call(Some(dest), SymbolicRefArgs))], Success(()));
      AndThenKeeps(lookup, RunGit(host, Call(Some(dest), TrackArgs(Trim(DefaultBranch(host, dest))))), p);
      AndThenKeeps(EnsureBranch(host, dest), RunGit(host, Call(Some(dest), PullArgs)), p);
      var probed: Effect := Trace(prepare.ops + [Git(Call(Some(dest), StatusArgs))], Success(()));
      AndThenKeeps(probed, AndThen(EnsureBranch(host, dest), RunGit(host, Call(Some(dest), PullArgs))), p);
    }
  }

  // ---------------------------------------------------------------- sync command

  /** `iter().find`: the index of the first wallpaper with this name. */
  function Find(ws: seq<Wallpaper>, name: string): (r: Option<nat>)
    ensures r.Some? ==> r.value < |ws| && ws[r.value].name == name
    ensures r.Some? ==> forall j :: 0 <= j < r.value ==> ws[j].name != name
    ensures r.None? ==> forall j :: 0 <= j < |ws| ==> ws[j].name != name
    decreases |ws|
  {
    if ws == [] then None
    else if ws[0].name == name then Some(0)
    else match Find(ws[1..], name)
      case None => None
      case Some(k) => Some(k + 1)
  }

  /** Some configured wallpaper has this name. */
  predicate Configured(ws: seq<Wallpaper>, name: string) {
    exists w | w in ws :: w.name == name
  }

  /** One wallpaper's sync, as the update loop sees it: only its operations, whatever its outcome. */
  function SyncOps(host: Host, wallpapersDir: string): Wallpaper -> seq<Op> {
    w => SyncWallpaper(host, wallpapersDir, w).ops
  }

  /**
   * The host after one wallpaper's sync. A clone that ran leaves its
   * destination behind, even when a later step of the install fails; an
   * existing checkout is updated where it is.
   */
  function AfterSync(host: Host, wallpapersDir: string, w: Wallpaper): (h: Host)
    ensures h.failing == host.failing && h.stdout == host.stdout
    ensures host.existing <= h.existing
    ensures forall p | p in h.existing && p !in host.existing :: p == Destination(wallpapersDir, w)
    ensures Destination(wallpapersDir, w) in h.existing <==>
      Destination(wallpapersDir, w) in host.existing || Call(None, CloneArgs(w.repo, Destination(wallpapersDir, w))) !in host.failing
  {
    var dest := Destination(wallpapersDir, w);
    if dest !in host.existing && Call(None, CloneArgs(w.repo, dest)) !in host.failing
    then host.(existing := host.existing + {dest})
    else host
  }

  function AfterStep(wallpapersDir: string): (Host, Wallpaper) -> Host {
    (h, w) => AfterSync(h, wallpapersDir, w)
  }

  function SyncStep(wallpapersDir: string): (Host, Wallpaper) -> seq<Op> {
    (h, w) => SyncWallpaper(h, wallpapersDir, w).ops
  }

  /** The host the next sync sees, after the syncs of `ws` in order. */
  function HostAfter(host: Host, wallpapersDir: string, ws: seq<Wallpaper>): Host {
    Fold(AfterStep(wallpapersDir), host, ws)
  }

  /**
   * The update loop over every wallpaper: each sync sees the checkouts the
   * earlier ones cloned, and a failed sync is reported and the loop goes on.
   */
  function UpdateAll(host: Host, wallpapersDir: string, ws: seq<Wallpaper>): seq<Op> {
    ThreadedOps(SyncStep(wallpapersDir), AfterStep(wallpapersDir), host, ws)
  }

  /** Whatever the outcome of one wallpaper's sync, every later wallpaper is still synced. */
  lemma UpdateContinuesPastFailure(host: Host, dir: string, a: seq<Wallpaper>, w: Wallpaper, b: seq<Wallpaper>)
    ensures UpdateAll(host, dir, a + [w] + b) ==
      UpdateAll(host, dir, a) + SyncWallpaper(HostAfter(host, dir, a), dir, w).ops + UpdateAll(HostAfter(host, dir, a + [w]), dir, b)
  {
    var f := SyncStep(dir);
    var next := AfterStep(dir);
    ThreadedOpsAppend(f, next, host, a + [w], b);
    ThreadedOpsAppend(f, next, host, a, [w]);
    assert [w][..0] == [];
  }

  /**
   * A second wallpaper of the same name finds the checkout the first one
   * cloned: it is updated there, starting with the sparse init, and is not
   * cloned again.
   */
  lemma DuplicateFindsClone(host: Host, dir: string, w: Wallpaper)
    requires Destination(dir, w) !in host.existing
    requires Call(None, CloneArgs(w.repo, Destination(dir, w))) !in host.failing
    ensures var dest := Destination(dir, w);
      var clone := CloneSparse(host, dest, w.repo, w.subdir).ops;
      && UpdateAll(host, dir, [w, w]) == clone + SyncWallpaper(AfterSync(host, dir, w), dir, w).ops
      && |UpdateAll(host, dir, [w, w])| > |clone|
      && UpdateAll(host, dir, [w, w])[|clone|] == Git(Call(Some(dest), SparseInitArgs))
  {
    var f := SyncStep(dir);
    var next := AfterStep(dir);
    assert [w, w] == [w] + [w];
    ThreadedOpsAppend(f, next, host, [w], [w]);
    assert [w][..0] == [];
    assert Fold(next, host, []) == host;
    var h := AfterSync(host, dir, w);
    assert Fold(next, host, [w]) == next(host, w) == h;
    assert ThreadedOps(f, next, h, []) == [];
    assert ThreadedOps(f, next, host, [w]) == f(host, w);
    assert ThreadedOps(f, next, h, [w]) == f(h, w);
    PrepareStartsWithInit(h, dir, w);
  }

  /** An update of an existing checkout starts with the sparse init there. */
  lemma PrepareStartsWithInit(host: Host, dir: string, w: Wallpaper)
    requires Destination(dir, w) in host.existing
    ensures |SyncWallpaper(host, dir, w).ops| > 0
    ensures SyncWallpaper(host, dir, w).ops[0] == Git(Call(Some(Destination(dir, w)), SparseInitArgs))
  {
    var dest := Destination(dir, w);
    var prepare := AndThen(RunGit(host, Call(Some(dest), SparseInitArgs)), SparseSet(host, dest, w.subdir));
    assert prepare.ops[0] == Git(Call(Some(dest), SparseInitArgs));
    var checked: Effect := Trace(prepare.ops + [Git(Call(Some(dest), StatusArgs))], Success(()));
    assert AndThen(checked, AndThen(EnsureBranch(host, dest), RunGit(host, Call(Some(dest), PullArgs)))).ops[0] == prepare.ops[0];
  }

  /** Only the destinations of the synced wallpapers can appear; every other path exists after the syncs iff it did before. */
  lemma {:induction false} HostAfterFrame(host: Host, dir: string, ws: seq<Wallpaper>)
    ensures HostAfter(host, dir, ws).failing == host.failing && HostAfter(host, dir, ws).stdout == host.stdout
    ensures forall p :: (forall k :: 0 <= k < |ws| ==> p != Destination(dir, ws[k])) ==>
      (p in HostAfter(host, dir, ws).existing <==> p in host.existing)
    decreases |ws|
  {
    if ws != [] {
      var n := |ws| - 1;
      HostAfterFrame(host, dir, ws[..n]);
      forall p | forall k :: 0 <= k < |ws| ==> p != Destination(dir, ws[k])
        ensures p in HostAfter(host, dir, ws).existing <==> p in host.existing
      {
        assert forall k :: 0 <= k < n ==> ws[..n][k] == ws[k];
      }
    }
  }

  /** Git's answers depend only on which calls fail and what they print, not on which paths exist. */
  lemma SameGitAnswers(h1: Host, h2: Host, dest: string, w: Wallpaper)
    requires h1.failing == h2.failing && h1.stdout == h2.stdout
    ensures CloneSparse(h1, dest, w.repo, w.subdir) == CloneSparse(h2, dest, w.repo, w.subdir)
    ensures RunGit(h1, Call(Some(dest), SparseInitArgs)) == RunGit(h2, Call(Some(dest), SparseInitArgs))
    ensures SparseSet(h1, dest, w.subdir) == SparseSet(h2, dest, w.subdir)
    ensures IsDirty(h1, dest) == IsDirty(h2, dest)
    ensures EnsureBranch(h1, dest) == EnsureBranch(h2, dest)
    ensures RunGit(h1, Call(Some(dest), PullArgs)) == RunGit(h2, Call(Some(dest), PullArgs))
  {
    assert DefaultBranch(h1, dest) == DefaultBranch(h2, dest);
  }

  /** A sync looks at which paths exist only through its own destination. */
  lemma SyncSeesOnlyItsDestination(h1: Host, h2: Host, dir: string, w: Wallpaper)
    requires h1.failing == h2.failing && h1.stdout == h2.stdout
    requires Destination(dir, w) in h1.existing <==> Destination(dir, w) in h2.existing
    ensures SyncWallpaper(h1, dir, w) == SyncWallpaper(h2, dir, w)
  {
    SameGitAnswers(h1, h2, Destination(dir, w), w);
  }

  /**
   * With distinct valid names no sync finds another's checkout: the loop is
   * every wallpaper's sync against the host as the command found it.
   */
  lemma {:induction false} DistinctNamesIndependent(host: Host, dir: string, ws: seq<Wallpaper>)
    requires forall i :: 0 <= i < |ws| ==> EntryCheck(ws[i]).None?
    requires forall i, j :: 0 <= i < j < |ws| ==> ws[i].name != ws[j].name
    ensures UpdateAll(host, dir, ws) == ConcatMap(SyncOps(host, dir), ws)
    decreases |ws|
  {
    if ws != [] {
      var n := |ws| - 1;
      var front := ws[..n];
      assert forall k :: 0 <= k < n ==> front[k] == ws[k];
      DistinctNamesIndependent(host, dir, front);
      HostAfterFrame(host, dir, front);
      var dest := Destination(dir, ws[n]);
      forall k | 0 <= k < n ensures dest != Destination(dir, front[k]) {
        assert '/' !in ws[n].name && '/' !in ws[k].name;
        assert !IsAbsolute(ws[n].name) && !IsAbsolute(ws[k].name);
        JoinInjective(dir, ws[n].name, ws[k].name);
      }
      SyncSeesOnlyItsDestination(HostAfter(host, dir, front), host, dir, ws[n]);
    }
  }

  /** One directory entry of the wallpapers directory. */
  datatype Entry = Entry(path: string, name: string, isDir: bool)

  /** `filter_map(Result::ok)`: entries that could not be read are dropped. */
  function Readable(listing: seq<Option<Entry>>): seq<Entry>
    decreases |listing|
  {
    if listing == [] then []
    else
      var n := |listing| - 1;
      Readable(listing[..n]) + (if listing[n].Some? then [listing[n].value] else [])
  }

  function Removal(e: Entry): Op {
    if e.isDir then RemoveDirAll(e.path) else RemoveFile(e.path)
  }

  /** One entry of the cleanup loop: kept when configured, else removed, and a failed removal stops the command. */
  function CleanupEntry(ws: seq<Wallpaper>, e: Entry, removeFails: set<string>): Effect {
    if Configured(ws, e.name) then Done()
    else Trace([Removal(e)], if e.path in removeFails then Failure(RemoveFailed(e.path)) else Success(()))
  }

  function Cleanup(ws: seq<Wallpaper>, entries: seq<Entry>, removeFails: set<string>): Effect
    decreases |entries|
  {
    if entries == [] then Done()
    else
      var n := |entries| - 1;
      AndThen(Cleanup(ws, entries[..n], removeFails), CleanupEntry(ws, entries[n], removeFails))
  }

  /** The entries the cleanup deletes: those no configured wallpaper is named after, in directory order. */
  function Unconfigured(ws: seq<Wallpaper>, entries: seq<Entry>): seq<Entry>
    decreases |entries|
  {
    if entries == [] then []
    else
      var n := |entries| - 1;
      Unconfigured(ws, entries[..n]) + (if Configured(ws, entries[n].name) then [] else [entries[n]])
  }

  function Removals(es: seq<Entry>): seq<Op>
    decreases |es|
  {
    if es == [] then [] else Removals(es[..|es| - 1]) + [Removal(es[|es| - 1])]
  }

  lemma {:induction false} UnconfiguredMembers(ws: seq<Wallpaper>, entries: seq<Entry>, e: Entry)
    ensures e in Unconfigured(ws, entries) <==> e in entries && !Configured(ws, e.name)
    decreases |entries|
  {
    if entries != [] {
      var n := |entries| - 1;
      UnconfiguredMembers(ws, entries[..n], e);
      assert entries == entries[..n] + [entries[n]];
    }
  }

  /**
   * When no removal fails, the cleanup succeeds and removes exactly the
   * entries no configured wallpaper is named after, each once, in order.
   */
  lemma {:induction false} CleanupRemovesUnconfigured(ws: seq<Wallpaper>, entries: seq<Entry>, removeFails: set<string>)
    requires forall k :: 0 <= k < |entries| ==> entries[k].path !in removeFails
    ensures Cleanup(ws, entries, removeFails) == Trace(Removals(Unconfigured(ws, entries)), Success(()))
    decreases |entries|
  {
    if entries != [] {
      var n := |entries| - 1;
      var e := entries[n];
      assert forall k :: 0 <= k < n ==> entries[..n][k] == entries[k];
      CleanupRemovesUnconfigured(ws, entries[..n], removeFails);
      var u := Unconfigured(ws, entries[..n]);
      var c := Cleanup(ws, entries[..n], removeFails);
      assert c == Trace(Removals(u), Success(()));
      assert Cleanup(ws, entries, removeFails) == AndThen(c, CleanupEntry(ws, e, removeFails));
      if Configured(ws, e.name) {
        assert Unconfigured(ws, entries) == u + [];
        assert u + [] == u;
        assert Removals(u) + [] == Removals(u);
      } else {
        assert CleanupEntry(ws, e, removeFails) == Trace([Removal(e)], Success(()));
        assert Unconfigured(ws, entries) == u + [e];
        assert (u + [e])[..|u|] == u;
        assert Removals(u + [e]) == Removals(u) + [Removal(e)];
      }
    }
  }

  /** A failed removal ends the command: later entries are not looked at. */
  lemma {:induction false} CleanupStopsAtFailure(ws: seq<Wallpaper>, a: seq<Entry>, b: seq<Entry>, removeFails: set<string>)
    requires Cleanup(ws, a, removeFails).result.Failure?
    ensures Cleanup(ws, a + b, removeFails) == Cleanup(ws, a, removeFails)
    decreases |b|
  {
    if b == [] {
      assert a + b == a;
    } else {
      var n := |b| - 1;
      assert (a + b)[..|a| + n] == a + b[..n];
      CleanupStopsAtFailure(ws, a, b[..n], removeFails);
    }
  }

  /**
   * `Cmd::Sync` once the configuration is loaded. An empty configuration does nothing. A named target syncs the
   * first wallpaper of that name, fails when there is none or when its sync
   * fails, and never cleans up. Otherwise every wallpaper is synced and then
   * the wallpapers directory is cleaned; `listing` is what reading that
   * directory yields (`None` when it cannot be read).
   */
  function SyncLoaded(host: Host, wallpapersDir: string, ws: seq<Wallpaper>, target: Option<string>,
                      listing: Option<seq<Option<Entry>>>, removeFails: set<string>): (t: Effect)
    ensures ws == [] ==> t == Done()
    ensures ws != [] && target.Some? && Find(ws, target.value).None? ==> t == Trace([], Failure(NotFound(target.value)))
    ensures ws != [] && target.Some? && Find(ws, target.value).Some? ==>
      var w := ws[Find(ws, target.value).value];
      && t.ops == SyncWallpaper(host, wallpapersDir, w).ops
      && (t.result.Failure? <==> SyncWallpaper(host, wallpapersDir, w).result.Failure?)
    ensures ws != [] && target.None? ==> UpdateAll(host, wallpapersDir, ws) <= t.ops
    // an unreadable wallpapers directory fails after every update
    ensures ws != [] && target.None? && listing.None? ==>
      t == Trace(UpdateAll(host, wallpapersDir, ws), Failure(ReadDirFailed))
    // otherwise the cleanup of the readable entries follows the updates
    ensures ws != [] && target.None? && listing.Some? ==>
      t == AndThen(Trace(UpdateAll(host, wallpapersDir, ws), Success(())), Cleanup(ws, Readable(listing.value), removeFails))
  {
    if ws == [] then Done()
    else match target
      case Some(name) =>
        (match Find(ws, name)
         case None => Trace([], Failure(NotFound(name)))
         case Some(i) =>
           var s := SyncWallpaper(host, wallpapersDir, ws[i]);
           Trace(s.ops, if s.result.Failure? then Failure(SyncFailed(ws[i].name)) else Success(())))
      case None =>
        var updates := Trace(UpdateAll(host, wallpapersDir, ws), Success(()));
        match listing
        case None => Trace(updates.ops, Failure(ReadDirFailed))
        case Some(ls) => AndThen(updates, Cleanup(ws, Readable(ls), removeFails))
  }

  /**
   * `Cmd::Sync`: the configuration is loaded first, and one that cannot be
   * read, decoded or accepted fails the command before any git call.
   */
  function SyncCommand(host: Host, wallpapersDir: string, config: Result<seq<Wallpaper>, ConfigError>, target: Option<string>,
                       listing: Option<seq<Option<Entry>>>, removeFails: set<string>): (t: Effect)
    ensures config.Failure? ==> t == Trace([], Failure(ConfigFailed(config.error)))
    ensures config.Success? ==> t == SyncLoaded(host, wallpapersDir, config.value, target, listing, removeFails)
  {
    match config
    case Failure(e) => Trace([], Failure(ConfigFailed(e)))
    case Success(ws) => SyncLoaded(host, wallpapersDir, ws, target, listing, removeFails)
  }

  /** A named sync touches nothing but the target's own checkout: no entry is removed. */
  lemma NamedSyncNeverRemoves(host: Host, dir: string, config: Result<seq<Wallpaper>, ConfigError>, name: string,
                              listing: Option<seq<Option<Entry>>>, removeFails: set<string>)
    ensures forall op | op in SyncCommand(host, dir, config, Some(name), listing, removeFails).ops :: op.Git?
  {
    if config.Success? && config.value != [] && Find(config.value, name).Some? {
      var ws := config.value;
      SyncOnlyRunsGit(host, dir, ws[Find(ws, name).value]);
    }
  }

  /**
   * A full sync with a readable directory and no failing removal updates
   * every wallpaper, then removes exactly the entries no wallpaper is named
   * after, and succeeds.
   */
  lemma FullSyncRemovesUnconfigured(host: Host, dir: string, ws: seq<Wallpaper>, listing: seq<Option<Entry>>, removeFails: set<string>)
    requires ws != []
    requires forall k :: 0 <= k < |Readable(listing)| ==> Readable(listing)[k].path !in removeFails
    ensures SyncCommand(host, dir, Success(ws), None, Some(listing), removeFails)
         == Trace(UpdateAll(host, dir, ws) + Removals(Unconfigured(ws, Readable(listing))), Success(()))
  {
    CleanupRemovesUnconfigured(ws, Readable(listing), removeFails);
  }

  // ---------------------------------------------------------------- the loops themselves

  /** The `found` loop: scan the configuration, stopping at the first wallpaper of that name. */
  method IsConfigured(ws: seq<Wallpaper>, name: string) returns (found: bool)
    ensures found <==> Configured(ws, name)
  {
    found := false;
    var i := 0;
    while i < |ws|
      invariant 0 <= i <= |ws|
      invariant forall j :: 0 <= j < i ==> ws[j].name != name
    {
      if ws[i].name == name {
        found := true;
        break;
      }
      i := i + 1;
    }
  }

  /** The update loop, as written: each sync runs against the checkouts as the earlier ones left them. */
  method SyncAll(host: Host, wallpapersDir: string, ws: seq<Wallpaper>) returns (ops: seq<Op>)
    ensures ops == UpdateAll(host, wallpapersDir, ws)
  {
    ops := [];
    var current := host;
    var i := 0;
    while i < |ws|
      invariant 0 <= i <= |ws|
      invariant current == HostAfter(host, wallpapersDir, ws[..i])
      invariant ops == UpdateAll(host, wallpapersDir, ws[..i])
    {
      var w := ws[i];
      var t := SyncWallpaper(current, wallpapersDir, w);
      ThreadedOpsNext(SyncStep(wallpapersDir), AfterStep(wallpapersDir), host, ws, i);
      assert SyncStep(wallpapersDir)(current, w) == t.ops;
      ops := ops + t.ops;
      var dest := Destination(wallpapersDir, w);
      ghost var before := current;
      if dest !in current.existing && Call(None, CloneArgs(w.repo, dest)) !in current.failing {
        // the clone ran and left its checkout behind
        current := current.(existing := current.existing + {dest});
      }
      assert current == AfterStep(wallpapersDir)(before, w);
      i := i + 1;
    }
    assert ws[..i] == ws;
  }

  method CollectEntries(listing: seq<Option<Entry>>) returns (entries: seq<Entry>)
    ensures entries == Readable(listing)
  {
    entries := [];
    var i := 0;
    while i < |listing|
      invariant 0 <= i <= |listing|
      invariant entries == Readable(listing[..i])
    {
      assert listing[..i + 1][..i] == listing[..i];
      if listing[i].Some? {
        entries := entries + [listing[i].value];
      }
      i := i + 1;
    }
    assert listing[..i] == listing;
  }

  method RemoveUnconfigured(ws: seq<Wallpaper>, entries: seq<Entry>, removeFails: set<string>) returns (t: Effect)
    ensures t == Cleanup(ws, entries, removeFails)
  {
    t := Done();
    var i := 0;
    while i < |entries|
      invariant 0 <= i <= |entries|
      invariant t == Cleanup(ws, entries[..i], removeFails)
      invariant t.result.Success?
    {
      var e := entries[i];
      assert entries[..i + 1][..i] == entries[..i];
      var found := IsConfigured(ws, e.name);
      if !found {
        var op := if e.isDir then RemoveDirAll(e.path) else RemoveFile(e.path);
        if e.path in removeFails {
          t := Trace(t.ops + [op], Failure(RemoveFailed(e.path)));
          CleanupStopsAtFailure(ws, entries[..i + 1], entries[i + 1..], removeFails);
          assert entries[..i + 1] + entries[i + 1..] == entries;
          return;
        }
        t := Trace(t.ops + [op], Success(()));
      }
      i := i + 1;
    }
    assert entries[..i] == entries;
  }

  /** The `sync` arm after `load_config`: the named or full sync, then the cleanup. */
  method SyncConfigured(host: Host, wallpapersDir: string, ws: seq<Wallpaper>, target: Option<string>,
                        listing: Option<seq<Option<Entry>>>, removeFails: set<string>) returns (t: Effect)
    ensures t == SyncLoaded(host, wallpapersDir, ws, target, listing, removeFails)
  {
    if ws == [] {
      return Done();
    }
    if target.Some? {
      var found := Find(ws, target.value);
      if found.None? {
        return Trace([], Failure(NotFound(target.value)));
      }
      var w := ws[found.value];
      var s := SyncWallpaper(host, wallpapersDir, w);
      if s.result.Failure? {
        return Trace(s.ops, Failure(SyncFailed(w.name)));
      }
      return Trace(s.ops, Success(()));
    }
    var ops := SyncAll(host, wallpapersDir, ws);
    if listing.None? {
      return Trace(ops, Failure(ReadDirFailed));
    }
    var entries := CollectEntries(listing.value);
    var cleanup := RemoveUnconfigured(ws, entries, removeFails);
    t := Trace(ops + cleanup.ops, cleanup.result);
  }

  /**
   * The whole `sync` arm: load the configuration from the file's text `read`
   * with the decoder `parse`, fail before any git call when that fails, and
   * otherwise run the loaded command.
   */
  method Sync(host: Host, wallpapersDir: string, read: Option<string>, parse: string -> Option<seq<Wallpaper>>,
              target: Option<string>, listing: Option<seq<Option<Entry>>>, removeFails: set<string>) returns (t: Effect)
    ensures read.None? ==> t == SyncCommand(host, wallpapersDir, Failure(Unreadable), target, listing, removeFails)
    ensures read.Some? && parse(read.value).None? ==>
      t == SyncCommand(host, wallpapersDir, Failure(Unparsable), target, listing, removeFails)
    ensures read.Some? && parse(read.value).Some? ==>
      var ws := parse(read.value).value;
      && ((forall i :: 0 <= i < |ws| ==> EntryCheck(ws[i]).None?) ==>
            t == SyncCommand(host, wallpapersDir, Success(ws), target, listing, removeFails))
      && (!(forall i :: 0 <= i < |ws| ==> EntryCheck(ws[i]).None?) ==>
            t.ops == [] && t.result.Failure? && t.result.error.ConfigFailed? && FirstInvalid(ws, t.result.error.reason))
  {
    var config := LoadConfig(read, parse);
    if config.Failure? {
      return Trace([], Failure(ConfigFailed(config.error)));
    }
    t := SyncConfigured(host, wallpapersDir, config.value, target, listing, removeFails);
  }
}
