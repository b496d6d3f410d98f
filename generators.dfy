/**
 * The three wallpaper generators: copy the media into the destination, then
 * write out the matching template subtree with the media's file names put in
 * place of the placeholders of its `index.html`.
 */
module Generators {
  import opened Wrappers
  import opened Text
  import opened Replace
  import opened PathRules
  import opened Effects
  import opened Template

  const ImageToken := "{IMAGE}"
  const DepthToken := "{IMAGE_DEPTH}"
  const StrengthToken := "{PARALLAX_STRENGTH}"
  const VideoToken := "{VIDEO}"

  /** The placeholders cannot start inside one another: `{` opens each and occurs nowhere else in it. */
  lemma TokensHaveUniqueOpeners()
    ensures UniqueOpener(ImageToken) && UniqueOpener(DepthToken)
    ensures UniqueOpener(StrengthToken) && UniqueOpener(VideoToken)
  {
  }

  /** The parallax page: `{IMAGE}`, then `{IMAGE_DEPTH}`, then `{PARALLAX_STRENGTH}` replaced, in that order. */
  function ParallaxHtml(imageName: string, depthName: string, strength: string, html: string): string {
    ReplaceAll(ReplaceAll(ReplaceAll(html, ImageToken, imageName), DepthToken, depthName), StrengthToken, strength)
  }

  function ParallaxRewrite(imageName: string, depthName: string, strength: string): string -> string {
    html => ParallaxHtml(imageName, depthName, strength, html)
  }

  /** Replacing `{IMAGE}` leaves every `{IMAGE_DEPTH}` in place for the next replacement. */
  lemma DepthTokenSurvives(a: string, b: string, imageName: string)
    ensures ReplaceAll(a + DepthToken + b, ImageToken, imageName)
         == ReplaceAll(a, ImageToken, imageName) + DepthToken + ReplaceAll(b, ImageToken, imageName)
  {
    var q := DepthToken;
    var s := q + b;
    forall i | 0 <= i < |q| ensures !OccursAt(s, ImageToken, i) {
      if i + |ImageToken| <= |s| {
        var w := s[i..i + |ImageToken|];
        if i == 0 {
          assert w[6] == s[6] == q[6] == '_';
          assert ImageToken[6] == '}';
        } else {
          assert w[0] == s[i] == q[i];
          assert q[i] != '{';
        }
      }
    }
    PassThrough(q, b, ImageToken, imageName);
    assert a + DepthToken + b == a + (q + b);
    ReplaceAtOpener(a, q + b, ImageToken, imageName);
  }

  /** A page with none of the placeholders is written unchanged. */
  lemma ParallaxWithoutPlaceholders(imageName: string, depthName: string, strength: string, html: string)
    requires !ContainsSub(html, ImageToken) && !ContainsSub(html, DepthToken) && !ContainsSub(html, StrengthToken)
    ensures ParallaxHtml(imageName, depthName, strength, html) == html
  {
    ReplaceAbsent(html, ImageToken, imageName);
    ReplaceAbsent(html, DepthToken, depthName);
    ReplaceAbsent(html, StrengthToken, strength);
  }

  /** Every `{IMAGE}` of the page becomes the image's name, and the text around it is rewritten alike. */
  lemma ImageTokenFilled(a: string, b: string, imageName: string)
    ensures ReplaceAll(a + ImageToken + b, ImageToken, imageName)
         == ReplaceAll(a, ImageToken, imageName) + imageName + ReplaceAll(b, ImageToken, imageName)
  {
    ReplaceToken(a, b, ImageToken, imageName);
  }

  /** Every `{VIDEO}` of the page becomes the video's name, and the text around it is rewritten alike. */
  lemma VideoTokenFilled(a: string, b: string, videoName: string)
    ensures ReplaceAll(a + VideoToken + b, VideoToken, videoName)
         == ReplaceAll(a, VideoToken, videoName) + videoName + ReplaceAll(b, VideoToken, videoName)
  {
    ReplaceToken(a, b, VideoToken, videoName);
  }

  /** A page without `{IMAGE}`, or without `{VIDEO}`, is written unchanged by the single-placeholder rewrite. */
  lemma SingleWithoutPlaceholder(token: string, name: string, html: string)
    requires |token| > 0 && !ContainsSub(html, token)
    ensures SingleRewrite(token, name)(html) == html
  {
    ReplaceAbsent(html, token, name);
  }

  /** `generate_parallax`: copy the image, then the depth image, each failure ending the command; then the "parallax" subtree. */
  function GenerateParallax(disk: Disk, destDir: string, image: string, depth: string, strength: string, assets: seq<Asset>): Effect {
    CopyTwoThen(CopyFileIntoDir(disk, destDir, image, "image"), CopyFileIntoDir(disk, destDir, depth, "depth image"),
                ParallaxSubtree(disk, destDir, strength, assets))
  }

  /** Two copies in turn, each failure ending the command, then what `rest` does with the two copied names. */
  function CopyTwoThen(img: Produced<string>, dep: Produced<string>, rest: (string, string) -> Effect): Effect {
    if img.result.Failure? then Trace(img.ops, Failure(img.result.error))
    else if dep.result.Failure? then Trace(img.ops + dep.ops, Failure(dep.result.error))
    else AndThen(Trace(img.ops + dep.ops, Success(())), rest(img.result.value, dep.result.value))
  }

  /** The "parallax" subtree with the two copied names and the strength put into its page. */
  function ParallaxSubtree(disk: Disk, destDir: string, strength: string, assets: seq<Asset>): (string, string) -> Effect {
    (imageName, depthName) => Materialize(disk, destDir, "parallax", assets, ParallaxRewrite(imageName, depthName, strength))
  }

  /** Where a media file of this name is copied to. */
  function CopyOf(destDir: string, src: string): FsOp
    requires FileName(src).Some?
  {
    Copy(src, Join(destDir, FileName(src).value))
  }

  /** The image is copied first, and when that copy cannot be made nothing else happens. */
  lemma ParallaxImageFirst(disk: Disk, destDir: string, image: string, depth: string, strength: string, assets: seq<Asset>)
    ensures var t := GenerateParallax(disk, destDir, image, depth, strength, assets);
      && (FileName(image).None? ==> t.ops == [] && t.result == Failure(InvalidFileName("image", image)))
      && (FileName(image).Some? ==> |t.ops| >= 1 && t.ops[0] == CopyOf(destDir, image))
      && (FileName(image).Some? && Fails(disk, CopyOf(destDir, image)) ==>
            t.ops == [CopyOf(destDir, image)] && t.result == Failure(CopyFailed("image", image)))
  {
  }

  /** After the image, the depth image is copied, and when that copy cannot be made no template is written. */
  lemma ParallaxDepthSecond(disk: Disk, destDir: string, image: string, depth: string, strength: string, assets: seq<Asset>)
    requires FileName(image).Some? && !Fails(disk, CopyOf(destDir, image))
    ensures var t := GenerateParallax(disk, destDir, image, depth, strength, assets);
      && (FileName(depth).None? ==> t.ops == [CopyOf(destDir, image)] && t.result == Failure(InvalidFileName("depth image", depth)))
      && (FileName(depth).Some? ==> |t.ops| >= 2 && t.ops[1] == CopyOf(destDir, depth))
      && (FileName(depth).Some? && Fails(disk, CopyOf(destDir, depth)) ==>
            t.ops == [CopyOf(destDir, image), CopyOf(destDir, depth)] && t.result == Failure(CopyFailed("depth image", depth)))
  {
  }

  /**
   * Once both copies are made, the rest is writing the "parallax" subtree
   * with the two copied names and the strength put into its page (what that
   * writes is `OnlySubtreeWritten`).
   */
  lemma ParallaxWritesSubtree(disk: Disk, destDir: string, image: string, depth: string, strength: string, assets: seq<Asset>)
    requires FileName(image).Some? && !Fails(disk, CopyOf(destDir, image))
    requires FileName(depth).Some? && !Fails(disk, CopyOf(destDir, depth))
    ensures var t := GenerateParallax(disk, destDir, image, depth, strength, assets);
      var rw := ParallaxRewrite(FileName(image).value, FileName(depth).value, strength);
      && |t.ops| >= 2
      && t.ops[2..] == Materialize(disk, destDir, "parallax", assets, rw).ops
      && t.result == Materialize(disk, destDir, "parallax", assets, rw).result
  {
    var i, d := FileName(image).value, FileName(depth).value;
    var img := CopyFileIntoDir(disk, destDir, image, "image");
    var dep := CopyFileIntoDir(disk, destDir, depth, "depth image");
    var rest := ParallaxSubtree(disk, destDir, strength, assets);
    var ci, cd := CopyOf(destDir, image), CopyOf(destDir, depth);
    assert img == Produced([ci], Success(i)) && dep == Produced([cd], Success(d));
    BothCopied(ci, cd, i, d, rest);
  }

  /** Both copies made: their two operations, then exactly what `rest` does. */
  lemma BothCopied(ci: FsOp, cd: FsOp, i: string, d: string, rest: (string, string) -> Effect)
    ensures var t := CopyTwoThen(Produced([ci], Success(i)), Produced([cd], Success(d)), rest);
      && |t.ops| >= 2 && t.ops[2..] == rest(i, d).ops && t.result == rest(i, d).result
  {
    assert ([ci] + [cd] + rest(i, d).ops)[2..] == rest(i, d).ops;
  }

  /** One media file, one placeholder: the shape `generate_image` and `generate_video` share. */
  function GenerateSingle(disk: Disk, destDir: string, src: string, what: string, subtree: string, token: string, assets: seq<Asset>): Effect
    requires |token| > 0
  {
    var copied := CopyFileIntoDir(disk, destDir, src, what);
    match copied.result
    case Failure(e) => Trace(copied.ops, Failure(e))
    case Success(name) =>
      AndThen(Trace(copied.ops, Success(())), Materialize(disk, destDir, subtree, assets, SingleRewrite(token, name)))
  }

  function SingleRewrite(token: string, name: string): string -> string
    requires |token| > 0
  {
    html => ReplaceAll(html, token, name)
  }

  /**
   * The media file is copied first and a failed copy ends the command before
   * any template is written; after it the named subtree is written, with
   * the copied name in place of the placeholder.
   */
  lemma SingleOrder(disk: Disk, destDir: string, src: string, what: string, subtree: string, token: string, assets: seq<Asset>)
    requires |token| > 0
    ensures var t := GenerateSingle(disk, destDir, src, what, subtree, token, assets);
      && (FileName(src).None? ==> t.ops == [] && t.result == Failure(InvalidFileName(what, src)))
      && (FileName(src).Some? ==> |t.ops| >= 1 && t.ops[0] == CopyOf(destDir, src))
      && (FileName(src).Some? && Fails(disk, CopyOf(destDir, src)) ==> t.ops == [CopyOf(destDir, src)] && t.result.Failure?)
      && (FileName(src).Some? && !Fails(disk, CopyOf(destDir, src)) ==>
            var rw := SingleRewrite(token, FileName(src).value);
            && t.ops[1..] == Materialize(disk, destDir, subtree, assets, rw).ops
            && t.result == Materialize(disk, destDir, subtree, assets, rw).result)
  {
    if FileName(src).Some? && !Fails(disk, CopyOf(destDir, src)) {
      var rw := SingleRewrite(token, FileName(src).value);
      var m := Materialize(disk, destDir, subtree, assets, rw);
      assert ([CopyOf(destDir, src)] + m.ops)[1..] == m.ops;
    }
  }

  /** `generate_image`: copy the image, then write the "image" subtree with `{IMAGE}` filled in. */
  function GenerateImage(disk: Disk, destDir: string, image: string, assets: seq<Asset>): Effect {
    GenerateSingle(disk, destDir, image, "image", "image", ImageToken, assets)
  }

  /** `generate_video`: copy the video, then write the "video" subtree with `{VIDEO}` filled in. */
  function GenerateVideo(disk: Disk, destDir: string, video: string, assets: seq<Asset>): Effect {
    GenerateSingle(disk, destDir, video, "video", "video", VideoToken, assets)
  }

  /**
   * The image generator copies the image into the destination and, once that
   * copy is made, writes the "image" subtree with the image's name in place
   * of `{IMAGE}`; a failed copy writes nothing.
   */
  lemma ImageSteps(disk: Disk, destDir: string, image: string, assets: seq<Asset>)
    requires FileName(image).Some?
    ensures var t := GenerateImage(disk, destDir, image, assets);
      var m := Materialize(disk, destDir, "image", assets, SingleRewrite(ImageToken, FileName(image).value));
      && |t.ops| >= 1 && t.ops[0] == CopyOf(destDir, image)
      && (Fails(disk, CopyOf(destDir, image)) ==> t == Trace([CopyOf(destDir, image)], Failure(CopyFailed("image", image))))
      && (!Fails(disk, CopyOf(destDir, image)) ==> t.ops[1..] == m.ops && t.result == m.result)
  {
    SingleOrder(disk, destDir, image, "image", "image", ImageToken, assets);
  }

  /** The video generator: the same two steps with the video, the "video" subtree and `{VIDEO}`. */
  lemma VideoSteps(disk: Disk, destDir: string, video: string, assets: seq<Asset>)
    requires FileName(video).Some?
    ensures var t := GenerateVideo(disk, destDir, video, assets);
      var m := Materialize(disk, destDir, "video", assets, SingleRewrite(VideoToken, FileName(video).value));
      && |t.ops| >= 1 && t.ops[0] == CopyOf(destDir, video)
      && (Fails(disk, CopyOf(destDir, video)) ==> t == Trace([CopyOf(destDir, video)], Failure(CopyFailed("video", video))))
      && (!Fails(disk, CopyOf(destDir, video)) ==> t.ops[1..] == m.ops && t.result == m.result)
  {
    SingleOrder(disk, destDir, video, "video", "video", VideoToken, assets);
  }
}
