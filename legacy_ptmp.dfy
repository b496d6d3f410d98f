/**
 * The single-file template generator, which predates the modular one: it
 * resolves the destination by the same rules, and generates a parallax
 * wallpaper with its own inlined copy of the template loop. It differs in one
 * respect: both media file names are checked before anything is copied.
 */
module LegacyTemplate {
  import opened Wrappers
  import opened PathRules
  import opened Effects
  import opened Template
  import Generators

  /** The strength written when none is given: `0.1_f32` formatted by `to_string`. */
  const DefaultStrength := "0.1"

  /** `generate_parallax`: check both names, copy the image, copy the depth image, then the "parallax/" subtree. */
  function GenerateParallax(disk: Disk, destDir: string, image: string, depth: string, strength: string, assets: seq<Asset>): Effect {
    Generate(disk, destDir, image, depth, FileName(image), FileName(depth), strength, assets)
  }

  /** The generator once `file_name` has been asked for both names. */
  function Generate(disk: Disk, destDir: string, image: string, depth: string,
                    imageName: Option<string>, depthName: Option<string>, strength: string, assets: seq<Asset>): Effect {
    if imageName.None? then Trace([], Failure(InvalidFileName("image", image)))
    else if depthName.None? then Trace([], Failure(InvalidFileName("depth image", depth)))
    else
      var copyImage := Perform(disk, Copy(image, Join(destDir, imageName.value)), CopyFailed("image", image));
      var copyDepth := Perform(disk, Copy(depth, Join(destDir, depthName.value)), CopyFailed("depth image", depth));
      AndThen(copyImage, AndThen(copyDepth,
        Materialize(disk, destDir, "parallax/", assets, Generators.ParallaxRewrite(imageName.value, depthName.value, strength))))
  }

  /** With two usable file names, the inlined generator does exactly what the modular one does. */
  lemma AgreesWithModular(disk: Disk, destDir: string, image: string, depth: string, strength: string, assets: seq<Asset>)
    requires FileName(image).Some? && FileName(depth).Some?
    ensures GenerateParallax(disk, destDir, image, depth, strength, assets)
         == Generators.GenerateParallax(disk, destDir, image, depth, strength, assets)
  {
    var i, d := FileName(image).value, FileName(depth).value;
    var ci, cd := Copy(image, Join(destDir, i)), Copy(depth, Join(destDir, d));
    var rest := Generators.ParallaxSubtree(disk, destDir, strength, assets);
    var m := rest(i, d);
    assert Materialize(disk, destDir, "parallax/", assets, Generators.ParallaxRewrite(i, d, strength)) == m by {
      assert NormPrefix("parallax/") == NormPrefix("parallax");
    }
    CopiesThenSubtree(disk, destDir, image, depth, i, d, strength, assets);
    var img := CopyFileIntoDir(disk, destDir, image, "image");
    var dep := CopyFileIntoDir(disk, destDir, depth, "depth image");
    assert img == Produced([ci], if Fails(disk, ci) then Failure(CopyFailed("image", image)) else Success(i));
    assert dep == Produced([cd], if Fails(disk, cd) then Failure(CopyFailed("depth image", depth)) else Success(d));
    assert Generators.GenerateParallax(disk, destDir, image, depth, strength, assets) == Generators.CopyTwoThen(img, dep, rest);
    if !Fails(disk, ci) && !Fails(disk, cd) {
      Generators.BothCopied(ci, cd, i, d, rest);
      assert [ci, cd] + m.ops == [ci] + [cd] + m.ops;
    }
  }

  /**
   * An unusable depth file name stops the inlined generator before anything
   * is copied, where the modular one has already copied the image.
   */
  lemma BadDepthNameCopiesNothing(disk: Disk, destDir: string, image: string, depth: string, strength: string, assets: seq<Asset>)
    requires FileName(image).Some? && FileName(depth).None?
    ensures GenerateParallax(disk, destDir, image, depth, strength, assets) == Trace([], Failure(InvalidFileName("depth image", depth)))
    ensures var m := Generators.GenerateParallax(disk, destDir, image, depth, strength, assets);
      m.ops == [Generators.CopyOf(destDir, image)] && m.result.Failure?
  {
  }

  /** `main`: create the destination, refusing one that exists, then generate into it. */
  function Command(disk: Disk, output: Option<string>, image: string, depth: string, strength: Option<string>, assets: seq<Asset>): Effect {
    var made := CreateDestDir(disk, output, "parallax");
    match made.result
    case Failure(e) => Trace(made.ops, Failure(e))
    case Success(dest) => AndThen(Trace(made.ops, Success(())), GenerateParallax(disk, dest, image, depth, strength.GetOr(DefaultStrength), assets))
  }

  /** An existing destination is refused before any directory is created or any file copied. */
  lemma ExistingDestinationUntouched(disk: Disk, output: Option<string>, image: string, depth: string, strength: Option<string>, assets: seq<Asset>)
    requires ResolveDest(output, "parallax") in disk.existing
    ensures Command(disk, output, image, depth, strength, assets) == Trace([], Failure(DestExists(ResolveDest(output, "parallax"))))
  {
  }

  /** Without a strength the page gets "0.1"; otherwise the given strength. */
  lemma StrengthDefault(disk: Disk, output: Option<string>, image: string, depth: string, strength: Option<string>, assets: seq<Asset>)
    requires ResolveDest(output, "parallax") !in disk.existing && ResolveDest(output, "parallax") !in disk.failing
    ensures var dest := ResolveDest(output, "parallax");
      Command(disk, output, image, depth, strength, assets)
        == AndThen(Trace([CreateDirAll(dest)], Success(())),
                   GenerateParallax(disk, dest, image, depth, if strength.None? then DefaultStrength else strength.value, assets))
  {
  }

  /** The inlined generator, as written: the name checks, then the copies and the template loop. */
  method RunGenerateParallax(disk: Disk, destDir: string, image: string, depth: string, strength: string, assets: seq<Asset>)
    returns (t: Effect)
    ensures t == GenerateParallax(disk, destDir, image, depth, strength, assets)
  {
    var imageName := FileName(image);
    var depthName := FileName(depth);
    if imageName.None? {
      return Trace([], Failure(InvalidFileName("image", image)));
    }
    if depthName.None? {
      return Trace([], Failure(InvalidFileName("depth image", depth)));
    }
    t := CopyAndMaterialize(disk, destDir, image, depth, imageName.value, depthName.value, strength, assets);
  }

  /** The two copies, each failure ending the command, then the template loop. */
  method CopyAndMaterialize(disk: Disk, destDir: string, image: string, depth: string,
                            imageName: string, depthName: string, strength: string, assets: seq<Asset>)
    returns (t: Effect)
    ensures t == Generate(disk, destDir, image, depth, Some(imageName), Some(depthName), strength, assets)
  {
    var copyImage := Copy(image, Join(destDir, imageName));
    var copyDepth := Copy(depth, Join(destDir, depthName));
    CopiesThenSubtree(disk, destDir, image, depth, imageName, depthName, strength, assets);
    if Fails(disk, copyImage) {
      return Trace([copyImage], Failure(CopyFailed("image", image)));
    }
    if Fails(disk, copyDepth) {
      return Trace([copyImage, copyDepth], Failure(CopyFailed("depth image", depth)));
    }
    var rest := MaterializeSubtree(disk, destDir, "parallax/", assets, Generators.ParallaxRewrite(imageName, depthName, strength));
    t := Trace([copyImage, copyDepth] + rest.ops, rest.result);
  }

  /** The generator once both names are known, one case per copy that can fail. */
  lemma CopiesThenSubtree(disk: Disk, destDir: string, image: string, depth: string,
                          imageName: string, depthName: string, strength: string, assets: seq<Asset>)
    ensures var ci, cd := Copy(image, Join(destDir, imageName)), Copy(depth, Join(destDir, depthName));
      var g := Generate(disk, destDir, image, depth, Some(imageName), Some(depthName), strength, assets);
      var m := Materialize(disk, destDir, "parallax/", assets, Generators.ParallaxRewrite(imageName, depthName, strength));
      && (Fails(disk, ci) ==> g == Trace([ci], Failure(CopyFailed("image", image))))
      && (!Fails(disk, ci) && Fails(disk, cd) ==> g == Trace([ci, cd], Failure(CopyFailed("depth image", depth))))
      && (!Fails(disk, ci) && !Fails(disk, cd) ==> g == Trace([ci, cd] + m.ops, m.result))
  {
    var ci, cd := Copy(image, Join(destDir, imageName)), Copy(depth, Join(destDir, depthName));
    var m := Materialize(disk, destDir, "parallax/", assets, Generators.ParallaxRewrite(imageName, depthName, strength));
    assert [ci, cd] + m.ops == [ci] + ([cd] + m.ops);
  }
}
