/**
 * The helpers the template generator is built from: choosing and creating the
 * destination directory, copying a media file into it, and writing out one
 * subtree of the embedded templates.
 *
 * The file system is a `Disk` that does not change while a command runs:
 * which paths exist, and at which paths an operation fails. What a helper
 * does is the list of file operations it performs and its outcome.
 */
module Template {
  import opened Wrappers
  import opened Text
  import opened PathRules
  import opened Effects

  newtype byte = x: int | 0 <= x < 256

  /** An embedded file: its bytes, and their UTF-8 decoding when they are valid UTF-8. */
  datatype Content = Content(bytes: seq<byte>, utf8: Option<string>)

  /** One entry of the embedded template set: its path and what looking it up yields. */
  datatype Asset = Asset(path: string, content: Option<Content>)

  datatype Data = Raw(bytes: seq<byte>) | Html(text: string)

  datatype FsOp = CreateDirAll(path: string) | Copy(src: string, dst: string) | Write(path: string, data: Data)

  datatype Disk = Disk(existing: set<string>, failing: set<string>)

  datatype TmpError =
    | DestExists(path: string)
    | CreateFailed(path: string)
    | InvalidFileName(what: string, src: string)
    | CopyFailed(what: string, src: string)
    | NotUtf8(prefix: string)
    | WriteFailed(path: string)

  /** What a helper that returns a value did: its operations and its result. */
  datatype Produced<T> = Produced(ops: seq<FsOp>, result: Result<T, TmpError>)

  type Effect = Trace<FsOp, TmpError>

  /** A copy needs its source to exist and its destination to be writable. */
  predicate Fails(disk: Disk, op: FsOp) {
    match op
    case CreateDirAll(p) => p in disk.failing
    case Copy(src, dst) => src !in disk.existing || dst in disk.failing
    case Write(p, _) => p in disk.failing
  }

  /** Perform one operation, failing with `e` when the disk refuses it. */
  function Perform(disk: Disk, op: FsOp, e: TmpError): (t: Effect)
    ensures t.ops == [op]
    ensures t.result.Failure? <==> Fails(disk, op)
    ensures t.result.Failure? ==> t.result.error == e
  {
    Trace([op], if Fails(disk, op) then Failure(e) else Success(()))
  }

  // ---------------------------------------------------------------- destination

  predicate HasSeparator(s: string) {
    '/' in s || '\\' in s
  }

  predicate EndsWithSeparator(s: string) {
    EndsWithChar(s, '/') || EndsWithChar(s, '\\')
  }

  /**
   * Where a generated wallpaper goes. No argument, or a bare name, means a
   * directory in the current one; a path ending in a separator means the
   * default name inside it; any other path is used as given. On Unix only
   * '/' separates components, so a path ending in '\\' gets a '/' inserted
   * before the default name.
   */
  function ResolveDest(path: Option<string>, defaultName: string): (r: string)
    ensures path.None? ==> r == Join(".", defaultName)
    ensures path.Some? && !HasSeparator(path.value) ==> r == "./" + path.value
    ensures path.Some? && EndsWithChar(path.value, '/') && !IsAbsolute(defaultName) ==> r == path.value + defaultName
    ensures path.Some? && !EndsWithChar(path.value, '/') && EndsWithChar(path.value, '\\') && !IsAbsolute(defaultName) ==>
      r == path.value + "/" + defaultName
    ensures path.Some? && HasSeparator(path.value) && !EndsWithSeparator(path.value) ==> r == path.value
  {
    match path
    case None => Join(".", defaultName)
    case Some(s) =>
      if !HasSeparator(s) then Join(".", s)
      else if EndsWithSeparator(s) then Join(s, defaultName)
      else s
  }

  /** A bare or missing argument names a directory directly inside the current one. */
  lemma InCurrentDirectory(path: Option<string>, defaultName: string)
    requires path.None? ==> IsPlainName(defaultName)
    requires path.Some? ==> IsPlainName(path.value) && '\\' !in path.value
    ensures Parent(ResolveDest(path, defaultName)) == "."
    ensures FileName(ResolveDest(path, defaultName)) == Some(if path.None? then defaultName else path.value)
  {
    var n := if path.None? then defaultName else path.value;
    assert !IsAbsolute(n);
    assert ResolveDest(path, defaultName) == "." + "/" + n;
    ParentOfPlain(".", n);
    FileNameOfJoin(".", n);
  }

  lemma {:induction false} ParentOfPlain(dir: string, n: string)
    requires '/' !in n
    ensures Parent(dir + "/" + n) == dir
    decreases |n|
  {
    var p := dir + "/" + n;
    if n == [] {
      assert p == dir + "/";
      assert p[..|p| - 1] == dir;
    } else {
      var m := n[..|n| - 1];
      assert p[..|p| - 1] == dir + "/" + m;
      assert p[|p| - 1] == n[|n| - 1];
      ParentOfPlain(dir, m);
    }
  }

  /** A path ending in '/' names the directory the default name is created in. */
  lemma IntoDirectory(s: string, defaultName: string)
    requires HasSeparator(s) && EndsWithChar(s, '/') && IsPlainName(defaultName)
    ensures FileName(ResolveDest(Some(s), defaultName)) == Some(defaultName)
  {
    FileNameOfJoin(s, defaultName);
  }

  /** `create_dest_dir`: an existing destination is refused before anything is created. */
  function CreateDestDir(disk: Disk, path: Option<string>, defaultName: string): (r: Produced<string>)
    ensures var dest := ResolveDest(path, defaultName);
      && (dest in disk.existing ==> r == Produced([], Failure(DestExists(dest))))
      && (dest !in disk.existing ==> r.ops == [CreateDirAll(dest)])
      && (dest !in disk.existing ==> (r.result.Success? <==> dest !in disk.failing))
      && (r.result.Success? ==> r.result.value == dest)
      && (r.result.Failure? && dest !in disk.existing ==> r.result.error == CreateFailed(dest))
  {
    var dest := ResolveDest(path, defaultName);
    if dest in disk.existing then Produced([], Failure(DestExists(dest)))
    else if dest in disk.failing then Produced([CreateDirAll(dest)], Failure(CreateFailed(dest)))
    else Produced([CreateDirAll(dest)], Success(dest))
  }

  // ---------------------------------------------------------------- copying

  /**
   * `copy_file_into_dir`: the copy keeps the source's file name, lands
   * directly inside the destination, and that name is returned.
   */
  function CopyFileIntoDir(disk: Disk, destDir: string, src: string, what: string): (r: Produced<string>)
    ensures FileName(src).None? ==> r == Produced([], Failure(InvalidFileName(what, src)))
    ensures FileName(src).Some? ==> r.ops == [Copy(src, Join(destDir, FileName(src).value))]
    ensures FileName(src).Some? ==> (r.result.Failure? <==> Fails(disk, Copy(src, Join(destDir, FileName(src).value))))
    ensures r.result.Failure? && FileName(src).Some? ==> r.result.error == CopyFailed(what, src)
    ensures r.result.Success? ==> Some(r.result.value) == FileName(src) && FileName(Join(destDir, r.result.value)) == FileName(src)
  {
    match FileName(src)
    case None => Produced([], Failure(InvalidFileName(what, src)))
    case Some(name) =>
      FileNameOfJoin(destDir, name);
      var op := Copy(src, Join(destDir, name));
      Produced([op], if Fails(disk, op) then Failure(CopyFailed(what, src)) else Success(name))
  }

  // ---------------------------------------------------------------- materialising

  /** "x" and "x/" both mean the subtree `x/`. */
  function NormPrefix(prefix: string): (r: string)
    ensures EndsWithChar(r, '/')
    ensures EndsWithChar(prefix, '/') ==> r == prefix
    ensures !EndsWithChar(prefix, '/') ==> r == prefix + "/"
  {
    if EndsWithChar(prefix, '/') then prefix else prefix + "/"
  }

  /** What one asset makes the loop do, given the normalised prefix. */
  function AssetEffect(disk: Disk, destDir: string, prefix: string, rewrite: string -> string, a: Asset): Effect {
    if !StartsWith(a.path, prefix) || a.content.None? then Done()
    else
      var rel := a.path[|prefix|..];
      var out := Join(destDir, rel);
      AndThen(Perform(disk, CreateDirAll(Parent(out)), CreateFailed(Parent(out))),
              WriteAsset(disk, out, rel, prefix, rewrite, a.content.value))
  }

  /** Writing the asset at `out`: the page decoded and rewritten, any other file byte for byte. */
  function WriteAsset(disk: Disk, out: string, rel: string, prefix: string, rewrite: string -> string, c: Content): Effect {
    if rel == "index.html" then
      match c.utf8
      case None => Trace([], Failure(NotUtf8(prefix)))
      case Some(html) => Perform(disk, Write(out, Html(rewrite(html))), WriteFailed(out))
    else Perform(disk, Write(out, Raw(c.bytes)), WriteFailed(out))
  }

  function AssetStep(disk: Disk, destDir: string, prefix: string, rewrite: string -> string): Asset -> Effect {
    a => AssetEffect(disk, destDir, prefix, rewrite, a)
  }

  /** `materialize_template_subtree`: every selected asset in iteration order, stopping at the first failure. */
  function Materialize(disk: Disk, destDir: string, prefix: string, assets: seq<Asset>, rewrite: string -> string): Effect {
    Chain(AssetStep(disk, destDir, NormPrefix(prefix), rewrite), assets)
  }

  /** A prefix with or without its trailing '/' selects the same assets. */
  lemma TrailingSlashOptional(disk: Disk, destDir: string, x: string, assets: seq<Asset>, rewrite: string -> string)
    requires !EndsWithChar(x, '/')
    ensures Materialize(disk, destDir, x, assets, rewrite) == Materialize(disk, destDir, x + "/", assets, rewrite)
  {
    assert EndsWithChar(x + "/", '/');
  }

  /** An asset outside the subtree changes nothing: it is as if it were not there. */
  lemma UnselectedIgnored(disk: Disk, destDir: string, prefix: string, a: seq<Asset>, x: Asset, b: seq<Asset>, rewrite: string -> string)
    requires !StartsWith(x.path, NormPrefix(prefix))
    ensures Materialize(disk, destDir, prefix, a + [x] + b, rewrite) == Materialize(disk, destDir, prefix, a + b, rewrite)
  {
    var f := AssetStep(disk, destDir, NormPrefix(prefix), rewrite);
    ChainAppend(f, a + [x], b);
    ChainAppend(f, a, b);
    ChainSnoc(f, a, x);
    var t := Chain(f, a);
    assert f(x) == Done();
    if t.result.Success? {
      assert t.result.value == ();
      assert t.ops + [] == t.ops;
    }
    assert AndThen(t, f(x)) == t;
  }

  /** `op` writes asset `a` where the loop puts it, with the contents the loop gives it. */
  predicate WritesAsset(destDir: string, prefix: string, rewrite: string -> string, a: Asset, op: FsOp) {
    && op.Write?
    && StartsWith(a.path, prefix)
    && a.content.Some?
    && var rel := a.path[|prefix|..];
    && op.path == Join(destDir, rel)
    && (rel == "index.html" ==> a.content.value.utf8.Some? && op.data == Html(rewrite(a.content.value.utf8.value)))
    && (rel != "index.html" ==> op.data == Raw(a.content.value.bytes))
  }

  lemma AssetEffectWrites(disk: Disk, destDir: string, prefix: string, rewrite: string -> string, a: Asset)
    ensures forall op | op in AssetEffect(disk, destDir, prefix, rewrite, a).ops ::
      op.CreateDirAll? || WritesAsset(destDir, prefix, rewrite, a, op)
  {
    if StartsWith(a.path, prefix) && a.content.Some? {
      var rel := a.path[|prefix|..];
      var out := Join(destDir, rel);
      var first := Perform(disk, CreateDirAll(Parent(out)), CreateFailed(Parent(out)));
      var written := WriteAsset(disk, out, rel, prefix, rewrite, a.content.value);
      WriteAssetWrites(disk, destDir, prefix, rewrite, a);
      assert AssetEffect(disk, destDir, prefix, rewrite, a) == AndThen(first, written);
    }
  }

  /** The write of a selected asset is that asset's write. */
  lemma WriteAssetWrites(disk: Disk, destDir: string, prefix: string, rewrite: string -> string, a: Asset)
    requires StartsWith(a.path, prefix) && a.content.Some?
    ensures var rel := a.path[|prefix|..];
      forall op | op in WriteAsset(disk, Join(destDir, rel), rel, prefix, rewrite, a.content.value).ops ::
        WritesAsset(destDir, prefix, rewrite, a, op)
  {
  }

  /**
   * Only assets under the prefix are written, each at the destination joined
   * with its path below the prefix: `index.html` as rewritten, every other
   * asset byte for byte. The only other operations create directories.
   */
  lemma OnlySubtreeWritten(disk: Disk, destDir: string, prefix: string, assets: seq<Asset>, rewrite: string -> string)
    ensures forall op | op in Materialize(disk, destDir, prefix, assets, rewrite).ops ::
      op.CreateDirAll? || exists a | a in assets :: WritesAsset(destDir, NormPrefix(prefix), rewrite, a, op)
  {
    var p := NormPrefix(prefix);
    var f := AssetStep(disk, destDir, p, rewrite);
    var q := (op: FsOp) => op.CreateDirAll? || exists a | a in assets :: WritesAsset(destDir, p, rewrite, a, op);
    forall x, op | x in assets && op in f(x).ops ensures q(op) {
      AssetEffectWrites(disk, destDir, p, rewrite, x);
    }
    ChainKeeps(f, assets, q);
  }

  /**
   * Nothing `a` makes the loop do can fail: its parent directory and its file
   * can be created, and a selected `index.html` is valid UTF-8.
   */
  predicate Writable(disk: Disk, destDir: string, prefix: string, a: Asset) {
    StartsWith(a.path, prefix) && a.content.Some? ==>
      var rel := a.path[|prefix|..];
      var out := Join(destDir, rel);
      && Parent(out) !in disk.failing
      && out !in disk.failing
      && (rel == "index.html" ==> a.content.value.utf8.Some?)
  }

  /** What a selected asset is written as: the rewritten page, or its bytes. */
  function Payload(rel: string, rewrite: string -> string, c: Content): Data
    requires rel == "index.html" ==> c.utf8.Some?
  {
    if rel == "index.html" then Html(rewrite(c.utf8.value)) else Raw(c.bytes)
  }

  /** The operations a writable asset causes: none outside the subtree, else its parent directory and then its file. */
  function Expected(destDir: string, prefix: string, rewrite: string -> string, a: Asset): seq<FsOp> {
    if !StartsWith(a.path, prefix) || a.content.None? then []
    else
      var rel := a.path[|prefix|..];
      var out := Join(destDir, rel);
      var c := a.content.value;
      if rel == "index.html" && c.utf8.None? then []
      else [CreateDirAll(Parent(out)), Write(out, Payload(rel, rewrite, c))]
  }

  function ExpectedStep(destDir: string, prefix: string, rewrite: string -> string): Asset -> seq<FsOp> {
    a => Expected(destDir, prefix, rewrite, a)
  }

  /** A writable asset succeeds, doing exactly what is expected of it. */
  lemma AssetWritten(disk: Disk, destDir: string, prefix: string, rewrite: string -> string, a: Asset)
    requires Writable(disk, destDir, prefix, a)
    ensures AssetEffect(disk, destDir, prefix, rewrite, a) == Trace(Expected(destDir, prefix, rewrite, a), Success(()))
  {
  }

  /**
   * When nothing fails, every asset under the prefix is written: the loop
   * succeeds after creating each selected asset's parent directory and then
   * writing the asset at the destination joined with its path below the
   * prefix, in iteration order.
   */
  lemma SelectedAssetsWritten(disk: Disk, destDir: string, prefix: string, assets: seq<Asset>, rewrite: string -> string)
    requires forall a | a in assets :: Writable(disk, destDir, NormPrefix(prefix), a)
    ensures Materialize(disk, destDir, prefix, assets, rewrite)
         == Trace(ConcatMap(ExpectedStep(destDir, NormPrefix(prefix), rewrite), assets), Success(()))
  {
    var p := NormPrefix(prefix);
    var f := AssetStep(disk, destDir, p, rewrite);
    var g := ExpectedStep(destDir, p, rewrite);
    forall a | a in assets ensures f(a) == Trace(g(a), Success(())) {
      AssetWritten(disk, destDir, p, rewrite, a);
    }
    ChainSucceeds(f, assets);
    ConcatMapCongruent(OpsOf(f), g, assets);
  }

  /** When nothing fails, each asset under the prefix is written at its place with its contents. */
  lemma SelectedAssetWritten(disk: Disk, destDir: string, prefix: string, assets: seq<Asset>, rewrite: string -> string, a: Asset)
    requires forall b | b in assets :: Writable(disk, destDir, NormPrefix(prefix), b)
    requires a in assets && StartsWith(a.path, NormPrefix(prefix)) && a.content.Some?
    ensures var rel := a.path[|NormPrefix(prefix)|..];
      var t := Materialize(disk, destDir, prefix, assets, rewrite);
      && t.result.Success?
      && (rel == "index.html" ==> a.content.value.utf8.Some?)
      && Write(Join(destDir, rel), Payload(rel, rewrite, a.content.value)) in t.ops
  {
    var p := NormPrefix(prefix);
    var rel := a.path[|p|..];
    SelectedAssetsWritten(disk, destDir, prefix, assets, rewrite);
    var op := Write(Join(destDir, rel), Payload(rel, rewrite, a.content.value));
    assert op in Expected(destDir, p, rewrite, a);
    ConcatMapContains(ExpectedStep(destDir, p, rewrite), assets, a, op);
  }

  /** A failure ends the loop: later assets are not looked at. */
  lemma FailureEndsMaterialize(disk: Disk, destDir: string, prefix: string, a: seq<Asset>, b: seq<Asset>, rewrite: string -> string)
    requires Materialize(disk, destDir, prefix, a, rewrite).result.Failure?
    ensures Materialize(disk, destDir, prefix, a + b, rewrite) == Materialize(disk, destDir, prefix, a, rewrite)
  {
    ChainStops(AssetStep(disk, destDir, NormPrefix(prefix), rewrite), a, b);
  }

  /** The loop over the embedded assets, as written: skip, create the parent, write, and stop at the first error. */
  method MaterializeSubtree(disk: Disk, destDir: string, prefix: string, assets: seq<Asset>, rewrite: string -> string)
    returns (t: Effect)
    ensures t == Materialize(disk, destDir, prefix, assets, rewrite)
  {
    var p := NormPrefix(prefix);
    ghost var f := AssetStep(disk, destDir, p, rewrite);
    t := Done();
    var i := 0;
    while i < |assets|
      invariant 0 <= i <= |assets|
      invariant t == Chain(f, assets[..i]) && t.result.Success?
    {
      var step := VisitAsset(disk, destDir, p, rewrite, assets[i]);
      ChainNext(f, assets, i);
      t := Trace(t.ops + step.ops, step.result);
      if step.result.Failure? {
        ChainStopsAt(f, assets, i + 1);
        return;
      }
      i := i + 1;
    }
    assert assets[..i] == assets;
  }

  /** One turn of the loop: skip an asset outside the subtree or without content, else write it. */
  method VisitAsset(disk: Disk, destDir: string, prefix: string, rewrite: string -> string, a: Asset) returns (t: Effect)
    ensures t == AssetStep(disk, destDir, prefix, rewrite)(a)
  {
    if !StartsWith(a.path, prefix) || a.content.None? {
      Unselected(disk, destDir, prefix, rewrite, a);
      return Done();
    }
    t := SubtreeAsset(disk, destDir, prefix, rewrite, a);
  }

  /** An asset outside the subtree, or without content, is skipped. */
  lemma Unselected(disk: Disk, destDir: string, prefix: string, rewrite: string -> string, a: Asset)
    requires !StartsWith(a.path, prefix) || a.content.None?
    ensures AssetStep(disk, destDir, prefix, rewrite)(a) == Done()
  {
  }

  /** The body of the loop for a selected asset: the loop's step for it, `AssetEffect`. */
  method SubtreeAsset(disk: Disk, destDir: string, prefix: string, rewrite: string -> string, a: Asset) returns (t: Effect)
    requires StartsWith(a.path, prefix) && a.content.Some?
    ensures t == AssetStep(disk, destDir, prefix, rewrite)(a)
  {
    var rel := a.path[|prefix|..];
    var out := Join(destDir, rel);
    var parent := Parent(out);
    if parent in disk.failing {
      return Trace([CreateDirAll(parent)], Failure(CreateFailed(parent)));
    }
    var written := WriteFile(disk, out, rel, prefix, rewrite, a.content.value);
    t := Trace([CreateDirAll(parent)] + written.ops, written.result);
  }

  /** Writing one selected asset once its directory exists. */
  method WriteFile(disk: Disk, out: string, rel: string, prefix: string, rewrite: string -> string, c: Content) returns (t: Effect)
    ensures t == WriteAsset(disk, out, rel, prefix, rewrite, c)
  {
    var data;
    if rel == "index.html" {
      if c.utf8.None? {
        return Trace([], Failure(NotUtf8(prefix)));
      }
      data := Html(rewrite(c.utf8.value));
    } else {
      data := Raw(c.bytes);
    }
    t := Trace([Write(out, data)], if out in disk.failing then Failure(WriteFailed(out)) else Success(()));
  }
}
