/**
 * `scripts/sharpen_all_images_unsharp.py`: unsharp-mask every `.jpg`,
 * `.jpeg` or `.png` image of `dataset/raw/images` into
 * `dataset/enhanced/images` under the same name, and copy each sharpened
 * image's label from `dataset/raw/labels` to `dataset/enhanced/labels`.
 *
 * The per-sample arithmetic is written out twice: as the script computes it
 * (the `image - blurred` difference on unsigned 8-bit arrays wraps modulo
 * 256) and with the signed difference an unsharp mask is meant to use. The
 * batch uses the signed one.
 */
module Sharpen {

  import opened Wrappers
  import opened Names
  import opened FileStore
  import opened Imaging

  const Amount: real := 1.5
  const Radius: real := 1.0
  const Threshold: int := 0

  /** The folders, relative to the working directory `cwd`. */
  function InputImages(cwd: Path): Path { cwd + ["dataset", "raw", "images"] }
  function InputLabels(cwd: Path): Path { cwd + ["dataset", "raw", "labels"] }
  function OutputImages(cwd: Path): Path { cwd + ["dataset", "enhanced", "images"] }
  function OutputLabels(cwd: Path): Path { cwd + ["dataset", "enhanced", "labels"] }

  const ImageExtensions: seq<string> := [".jpg", ".jpeg", ".png"]

  /** `filename.lower().endswith(image_extensions)`. */
  predicate IsImageName(n: Name) {
    exists e | e in ImageExtensions :: EndsWith(Lower(n), e)
  }

  /** The extension test ignores case: `PHOTO.JPG` is an image as much as `photo.jpg`. */
  lemma ImageNameIgnoresCase(n: Name)
    ensures IsImageName(Lower(n)) <==> IsImageName(n)
  {
    LowerIdempotent(n);
  }

  /** `os.path.splitext(filename)[0] + ".txt"`. */
  function LabelName(n: Name): (r: Name)
    ensures EndsWith(r, ".txt") && StartsWith(n, r[..|r| - 4])
  {
    var root := SplitExtRoot(n);
    assert (root + ".txt")[..|root|] == root;
    root + ".txt"
  }

  /** An image name's label swaps the matched extension for `.txt`. */
  lemma LabelNameSwapsExtension(n: Name, e: string)
    requires e in ImageExtensions && EndsWith(Lower(n), e)
    requires !AllDots(n[..|n| - |e|])
    ensures LabelName(n) == n[..|n| - |e|] + ".txt"
  {
    SplitExtRootDropsExtension(n, e);
  }

  // ---------------------------------------------------------------------
  // One sample

  /** `image - blurred` on `uint8` arrays: the difference modulo 256. */
  function WrapDiff(x: Byte, b: Byte): (d: Byte)
    ensures b <= x ==> d as int == x as int - b as int
    ensures x < b ==> d as int == x as int - b as int + 256
  {
    ((x as int - b as int) % 256) as Byte
  }

  /** `np.clip(v, 0, 255).astype(np.uint8)`: clamp, then drop the fraction. */
  function Clip(v: real): (r: Byte)
    ensures v < 0.0 ==> r == 0
    ensures 255.0 < v ==> r == 255
    ensures 0.0 <= v <= 255.0 ==> r as real <= v < r as real + 1.0
  {
    if v < 0.0 then 0 else if 255.0 < v then 255 else v.Floor as Byte
  }

  lemma ClipMonotone(u: real, v: real)
    requires u <= v
    ensures Clip(u) <= Clip(v)
  {
  }

  /** Lines 26-27 as written: `image + amount * (image - blurred)` with the wrapped difference, clipped. */
  function SharpAsWritten(x: Byte, b: Byte, amount: real): Byte {
    Clip(x as real + amount * WrapDiff(x, b) as real)
  }

  /** One sample of `unsharp_mask` as the script computes it. */
  function SampleAsWritten(x: Byte, b: Byte, amount: real, threshold: int): Byte {
    if threshold > 0 && (WrapDiff(x, b) as int) < threshold then x
    else SharpAsWritten(x, b, amount)
  }

  /**
   * Lines 26-31 as written never darken a sample: the wrapped difference is
   * never negative, so a sample is kept or pushed up, whichever side of
   * its blur it is on.
   */
  lemma AsWrittenNeverDarkens(x: Byte, b: Byte, amount: real, threshold: int)
    requires 0.0 <= amount
    ensures x <= SampleAsWritten(x, b, amount, threshold)
  {
    ScaleSign(amount, WrapDiff(x, b) as int);
    ClipMonotone(x as real, x as real + amount * WrapDiff(x, b) as real);
    ClipByte(x);
  }

  function Abs(d: int): nat {
    if d < 0 then -d else d
  }

  /** `x + amount * (x - b)` with the signed difference, clipped. */
  function Sharp(x: Byte, b: Byte, amount: real): Byte {
    Clip(x as real + amount * (x as int - b as int) as real)
  }

  /** One sample of an unsharp mask with the signed difference. */
  function Sample(x: Byte, b: Byte, amount: real, threshold: int): Byte {
    if threshold > 0 && Abs(x as int - b as int) < threshold then x
    else Sharp(x, b, amount)
  }

  lemma ScaleSign(amount: real, d: int)
    requires 0.0 <= amount
    ensures 0 <= d ==> 0.0 <= amount * d as real
    ensures d <= 0 ==> amount * d as real <= 0.0
  {
    if 0 <= d {
      assert 0.0 <= d as real;
    }
  }

  /** A sample is pushed away from its blurred value, never across to the other side. */
  lemma SampleMovesAwayFromBlur(x: Byte, b: Byte, amount: real, threshold: int)
    requires 0.0 <= amount
    ensures b <= x ==> x <= Sample(x, b, amount, threshold)
    ensures x <= b ==> Sample(x, b, amount, threshold) <= x
  {
    if b <= x {
      SharpNotBelow(x, b, amount);
    }
    if x <= b {
      SharpNotAbove(x, b, amount);
    }
  }

  /** Clipping a whole byte value gives it back. */
  lemma ClipByte(x: Byte)
    ensures Clip(x as real) == x
  {
  }

  lemma SharpNotBelow(x: Byte, b: Byte, amount: real)
    requires 0.0 <= amount && b <= x
    ensures x <= Sharp(x, b, amount)
  {
    var d := x as int - b as int;
    ScaleSign(amount, d);
    ClipMonotone(x as real, x as real + amount * d as real);
    ClipByte(x);
  }

  lemma SharpNotAbove(x: Byte, b: Byte, amount: real)
    requires 0.0 <= amount && x <= b
    ensures Sharp(x, b, amount) <= x
  {
    var d := x as int - b as int;
    ScaleSign(amount, d);
    ClipMonotone(x as real + amount * d as real, x as real);
    ClipByte(x);
  }


  /** Where the sample is at least its blurred value, the script's arithmetic is the intended one. */
  lemma AsWrittenAgreesWhenBrighter(x: Byte, b: Byte, amount: real, threshold: int)
    requires b <= x
    ensures SampleAsWritten(x, b, amount, threshold) == Sample(x, b, amount, threshold)
  {
    assert WrapDiff(x, b) as int == Abs(x as int - b as int);
  }

  /**
   * The dark side of an edge: a sample of 10 beside a blurred 11 wraps to a
   * difference of 255 and comes out white, where the signed difference
   * gives 8, darker than before.
   */
  lemma AsWrittenWhitensDarkSide()
    ensures SampleAsWritten(10, 11, Amount, Threshold) == 255
    ensures Sample(10, 11, Amount, Threshold) == 8
  {
    assert WrapDiff(10, 11) == 255;
    assert 10.0 + 1.5 * (-1) as real == 8.5;
  }

  /**
   * The low-contrast mask misses the dark side: with threshold 5, a sample
   * one below its blurred value is not kept, because the wrapped difference
   * is 255.
   */
  lemma AsWrittenMaskMissesDarkSide()
    ensures SampleAsWritten(10, 11, Amount, 5) == 255
    ensures Sample(10, 11, Amount, 5) == 10
  {
    assert WrapDiff(10, 11) == 255;
  }

  // ---------------------------------------------------------------------
  // Whole images

  /** `unsharp_mask` on an image and its blur, as the script computes it. */
  function UnsharpAsWritten(image: Image, blurred: Image, amount: real, threshold: int): (r: Image)
    requires |blurred| == |image|
    ensures |r| == |image|
  {
    seq(|image|, i requires 0 <= i < |image| => SampleAsWritten(image[i], blurred[i], amount, threshold))
  }

  /**
   * Lines 29-31 as written: with a positive threshold every sample whose
   * wrapped difference is below it keeps its input value; with threshold 0
   * every sample is the clipped sharpened value.
   */
  lemma AsWrittenThresholdMerge(image: Image, blurred: Image, amount: real, threshold: int, i: int)
    requires |blurred| == |image| && 0 <= i < |image|
    ensures var r := UnsharpAsWritten(image, blurred, amount, threshold);
      && (threshold > 0 && (WrapDiff(image[i], blurred[i]) as int) < threshold ==> r[i] == image[i])
      && (threshold <= 0 ==> r[i] == Clip(image[i] as real + amount * WrapDiff(image[i], blurred[i]) as real))
  {
  }

  /** An unsharp mask with the signed difference. */
  function Sharpened(image: Image, blurred: Image, amount: real, threshold: int): (r: Image)
    requires |blurred| == |image|
    ensures |r| == |image|
  {
    seq(|image|, i requires 0 <= i < |image| => Sample(image[i], blurred[i], amount, threshold))
  }

  /**
   * With a positive threshold, low-contrast samples are unchanged; every
   * other sample moves away from the blur.
   */
  lemma SharpenedKeepsLowContrast(image: Image, blurred: Image, amount: real, threshold: int, i: int)
    requires |blurred| == |image| && 0 <= i < |image| && 0.0 <= amount
    ensures var r := Sharpened(image, blurred, amount, threshold);
      && (threshold > 0 && Abs(image[i] as int - blurred[i] as int) < threshold ==> r[i] == image[i])
      && (blurred[i] <= image[i] ==> image[i] <= r[i])
      && (image[i] <= blurred[i] ==> r[i] <= image[i])
  {
    SampleMovesAwayFromBlur(image[i], blurred[i], amount, threshold);
  }

  /**
   * Lines 24-33 as written: blur, sharpen every sample with the wrapped
   * `uint8` difference, then overwrite in place with the input every sample
   * whose wrapped difference is below a positive threshold.
   */
  method UnsharpMaskAsWritten(v: Vision, image: Image, amount: real, radius: real, threshold: int) returns (r: Image)
    requires BlurKeepsShape(v)
    ensures r == UnsharpAsWritten(image, v.gaussianBlur(image, radius), amount, threshold)
  {
    var blurred := v.gaussianBlur(image, radius);
    assert |blurred| == |image|;
    var sharpened := new Byte[|image|](i requires 0 <= i < |image| => SharpAsWritten(image[i], blurred[i], amount));
    if threshold > 0 {
      for i := 0 to |image|
        invariant forall k :: 0 <= k < i ==> sharpened[k] == SampleAsWritten(image[k], blurred[k], amount, threshold)
        invariant forall k :: i <= k < |image| ==> sharpened[k] == SharpAsWritten(image[k], blurred[k], amount)
      {
        if (WrapDiff(image[i], blurred[i]) as int) < threshold {
          sharpened[i] := image[i];
        }
      }
    }
    r := sharpened[..];
    assert forall k :: 0 <= k < |image| ==> r[k] == SampleAsWritten(image[k], blurred[k], amount, threshold);
  }

  /**
   * `unsharp_mask(image, amount, radius, threshold)` with the signed
   * difference the script intends: blur, sharpen every sample, then
   * overwrite the low-contrast samples in place with the input.
   */
  method UnsharpMask(v: Vision, image: Image, amount: real, radius: real, threshold: int) returns (r: Image)
    requires BlurKeepsShape(v)
    ensures r == Sharpened(image, v.gaussianBlur(image, radius), amount, threshold)
  {
    var blurred := v.gaussianBlur(image, radius);
    assert |blurred| == |image|;
    var sharpened := new Byte[|image|](i requires 0 <= i < |image| => Sharp(image[i], blurred[i], amount));
    if threshold > 0 {
      for i := 0 to |image|
        invariant forall k :: 0 <= k < i ==> sharpened[k] == Sample(image[k], blurred[k], amount, threshold)
        invariant forall k :: i <= k < |image| ==> sharpened[k] == Sharp(image[k], blurred[k], amount)
      {
        if Abs(image[i] as int - blurred[i] as int) < threshold {
          sharpened[i] := image[i];
        }
      }
    }
    r := sharpened[..];
    assert forall k :: 0 <= k < |image| ==> r[k] == Sample(image[k], blurred[k], amount, threshold);
  }

  // ---------------------------------------------------------------------
  // The batch

  /** `img` is not `None`: the file is there and OpenCV decodes it. */
  predicate Readable(v: Vision, cwd: Path, files: map<Path, Bytes>, n: Name) {
    var src := InputImages(cwd) + [n];
    src in files && v.imread(files[src]).Some?
  }

  datatype Visited = Visited(files: map<Path, Bytes>, counted: bool)

  /** What the loop does with one listed name. */
  function Visit(v: Vision, cwd: Path, files: map<Path, Bytes>, n: Name): (r: Visited)
    requires BlurKeepsShape(v)
    ensures files.Keys <= r.files.Keys
  {
    var src := InputImages(cwd) + [n];
    if !IsImageName(n) || src !in files then Visited(files, false)
    else match v.imread(files[src])
      case None => Visited(files, false)
      case Some(img) =>
        var out := Sharpened(img, v.gaussianBlur(img, Radius), Amount, Threshold);
        var written := match v.imwrite(OutputImages(cwd) + [n], out, [])
          case None => files
          case Some(bytes) => files[OutputImages(cwd) + [n] := bytes];
        var labelSrc := InputLabels(cwd) + [LabelName(n)];
        var copied := if labelSrc in written then written[OutputLabels(cwd) + [LabelName(n)] := written[labelSrc]] else written;
        Visited(copied, true)
  }

  /** Distinct folders under the same working directory hold distinct paths. */
  lemma FoldersApart(cwd: Path, a: Path, b: Path, x: Name, y: Name)
    requires |a| == |b| == 3 && a != b
    ensures cwd + a + [x] != cwd + b + [y]
  {
    var k :| 0 <= k < 3 && a[k] != b[k];
    assert (cwd + a + [x])[|cwd| + k] == a[k];
    assert (cwd + b + [y])[|cwd| + k] == b[k];
  }

  /**
   * One name is counted exactly when it is a readable image; only its
   * output image and output label can change; the output image is the
   * write's result when the write succeeds; the label is copied exactly
   * when it exists.
   */
  lemma VisitEffect(v: Vision, cwd: Path, files: map<Path, Bytes>, n: Name, p: Path)
    requires BlurKeepsShape(v)
    ensures var r := Visit(v, cwd, files, n);
      && (r.counted <==> IsImageName(n) && Readable(v, cwd, files, n))
      && (!r.counted ==> r.files == files)
      && (p != OutputImages(cwd) + [n] && p != OutputLabels(cwd) + [LabelName(n)] ==> Same(files, r.files, p))
      && (r.counted && InputLabels(cwd) + [LabelName(n)] in files ==>
            OutputLabels(cwd) + [LabelName(n)] in r.files
            && r.files[OutputLabels(cwd) + [LabelName(n)]] == files[InputLabels(cwd) + [LabelName(n)]])
      && (InputLabels(cwd) + [LabelName(n)] !in files ==> Same(files, r.files, OutputLabels(cwd) + [LabelName(n)]))
  {
    var img, lbl := OutputImages(cwd) + [n], OutputLabels(cwd) + [LabelName(n)];
    var src := InputLabels(cwd) + [LabelName(n)];
    var input := InputImages(cwd) + [n];
    assert img != src && img != lbl by {
      FoldersApart(cwd, ["dataset", "enhanced", "images"], ["dataset", "raw", "labels"], n, LabelName(n));
      FoldersApart(cwd, ["dataset", "enhanced", "images"], ["dataset", "enhanced", "labels"], n, LabelName(n));
    }
    if IsImageName(n) && input in files && v.imread(files[input]).Some? {
      var image := v.imread(files[input]).value;
      var out := Sharpened(image, v.gaussianBlur(image, Radius), Amount, Threshold);
      WriteThenCopy(files, v.imwrite(img, out, []), img, src, lbl, p);
    }
  }

  /**
   * Writing the output image (when the write succeeds) and then copying
   * the label when it exists changes only those two files.
   */
  lemma WriteThenCopy(files: map<Path, Bytes>, w: Option<Bytes>, img: Path, src: Path, lbl: Path, p: Path)
    requires img != src && img != lbl
    ensures var written := match w case None => files case Some(bytes) => files[img := bytes];
      var copied := if src in written then written[lbl := written[src]] else written;
      && (p != img && p != lbl ==> Same(files, copied, p))
      && (src in files ==> lbl in copied && copied[lbl] == files[src])
      && (src !in files ==> Same(files, copied, lbl))
  {
  }

  /** A successful write puts the sharpened image under the same name in the output folder. */
  lemma VisitWritesImage(v: Vision, cwd: Path, files: map<Path, Bytes>, n: Name, img: Image)
    requires BlurKeepsShape(v)
    requires IsImageName(n) && InputImages(cwd) + [n] in files
    requires v.imread(files[InputImages(cwd) + [n]]) == Some(img)
    ensures var r := Visit(v, cwd, files, n);
      var w := v.imwrite(OutputImages(cwd) + [n], Sharpened(img, v.gaussianBlur(img, Radius), Amount, Threshold), []);
      && (w.Some? ==> OutputImages(cwd) + [n] in r.files && r.files[OutputImages(cwd) + [n]] == w.value)
      && (w.None? ==> Same(files, r.files, OutputImages(cwd) + [n]))
  {
    var out := OutputImages(cwd) + [n];
    var written := match v.imwrite(out, Sharpened(img, v.gaussianBlur(img, Radius), Amount, Threshold), []) case None => files case Some(bytes) => files[out := bytes];
    assert Visit(v, cwd, files, n).files ==
      if InputLabels(cwd) + [LabelName(n)] in written then written[OutputLabels(cwd) + [LabelName(n)] := written[InputLabels(cwd) + [LabelName(n)]]] else written;
    FoldersApart(cwd, ["dataset", "enhanced", "images"], ["dataset", "enhanced", "labels"], n, LabelName(n));
  }

  datatype Batch = Batch(files: map<Path, Bytes>, count: nat)

  /** The loop over the listed names, in listing order. */
  function SharpenRun(v: Vision, cwd: Path, files: map<Path, Bytes>, names: seq<Name>): (r: Batch)
    requires BlurKeepsShape(v)
    ensures files.Keys <= r.files.Keys
    ensures r.count <= |names|
    decreases |names|
  {
    if names == [] then Batch(files, 0)
    else
      var prev := SharpenRun(v, cwd, files, names[..|names| - 1]);
      var s := Visit(v, cwd, prev.files, names[|names| - 1]);
      Batch(s.files, prev.count + if s.counted then 1 else 0)
  }

  /** One more listed name visited. */
  lemma SharpenRunStep(v: Vision, cwd: Path, files: map<Path, Bytes>, names: seq<Name>, i: nat)
    requires BlurKeepsShape(v)
    requires i < |names|
    ensures var prev := SharpenRun(v, cwd, files, names[..i]);
      var s := Visit(v, cwd, prev.files, names[i]);
      SharpenRun(v, cwd, files, names[..i + 1]) == Batch(s.files, prev.count + if s.counted then 1 else 0)
  {
    assert names[..i + 1][..i] == names[..i];
  }

  /** The number of listed names that are readable images. */
  function CountReadable(v: Vision, cwd: Path, files: map<Path, Bytes>, names: seq<Name>): (c: nat)
    ensures c <= |names|
    decreases |names|
  {
    if names == [] then 0
    else
      var last := names[|names| - 1];
      CountReadable(v, cwd, files, names[..|names| - 1]) + if IsImageName(last) && Readable(v, cwd, files, last) then 1 else 0
  }

  predicate InInputs(cwd: Path, p: Path) {
    |p| == |cwd| + 4 && (p[..|cwd| + 3] == InputImages(cwd) || p[..|cwd| + 3] == InputLabels(cwd))
  }

  /** The batch never changes a file in the input folders. */
  lemma {:induction false} SharpenRunKeepsInputs(v: Vision, cwd: Path, files: map<Path, Bytes>, names: seq<Name>, p: Path)
    requires BlurKeepsShape(v) && InInputs(cwd, p)
    ensures Same(files, SharpenRun(v, cwd, files, names).files, p)
    decreases |names|
  {
    if names != [] {
      var n := names[|names| - 1];
      var prev := SharpenRun(v, cwd, files, names[..|names| - 1]);
      SharpenRunKeepsInputs(v, cwd, files, names[..|names| - 1], p);
      VisitEffect(v, cwd, prev.files, n, p);
      var a := p[|cwd|..|cwd| + 3];
      assert p == cwd + a + [p[|cwd| + 3]];
      FoldersApart(cwd, a, ["dataset", "enhanced", "images"], p[|cwd| + 3], n);
      FoldersApart(cwd, a, ["dataset", "enhanced", "labels"], p[|cwd| + 3], LabelName(n));
    }
  }

  /** `count` is the number of listed names that are readable images. */
  lemma {:induction false} SharpenRunCount(v: Vision, cwd: Path, files: map<Path, Bytes>, names: seq<Name>)
    requires BlurKeepsShape(v)
    ensures SharpenRun(v, cwd, files, names).count == CountReadable(v, cwd, files, names)
    decreases |names|
  {
    if names != [] {
      var n := names[|names| - 1];
      var prev := SharpenRun(v, cwd, files, names[..|names| - 1]);
      SharpenRunCount(v, cwd, files, names[..|names| - 1]);
      var src := InputImages(cwd) + [n];
      assert InInputs(cwd, src) by {
        assert src[..|cwd| + 3] == InputImages(cwd);
      }
      SharpenRunKeepsInputs(v, cwd, files, names[..|names| - 1], src);
      assert Readable(v, cwd, prev.files, n) == Readable(v, cwd, files, n);
      VisitEffect(v, cwd, prev.files, n, src);
    }
  }

  /** The counts at which the progress line is printed, for a final count `c`. */
  function Milestones(c: nat): (r: seq<nat>)
    ensures |r| == c / 100
  {
    seq(c / 100, k requires 0 <= k < c / 100 => 100 * (k + 1))
  }

  /** The progress line appears exactly at the positive multiples of 100 up to the count. */
  lemma MilestonesExact(c: nat, k: int)
    ensures k in Milestones(c) <==> 0 < k <= c && k % 100 == 0
  {
    if 0 < k <= c && k % 100 == 0 {
      var j := k / 100 - 1;
      assert 0 <= j < c / 100;
      assert Milestones(c)[j] == k;
    }
  }

  /** Counting one more image prints one more line exactly at a multiple of 100. */
  lemma MilestonesNext(c: nat)
    ensures Milestones(c + 1) == Milestones(c) + if (c + 1) % 100 == 0 then [c + 1] else []
  {
    if (c + 1) % 100 == 0 {
      assert (c + 1) / 100 == c / 100 + 1;
    } else {
      assert (c + 1) / 100 == c / 100;
    }
  }

  /**
   * One iteration of the loop (lines 40-65) without the counter: read,
   * sharpen and write the image, then copy its label if it exists.
   */
  method VisitName(fs: FileSystem, v: Vision, cwd: Path, n: Name) returns (counted: bool)
    requires BlurKeepsShape(v)
    modifies fs
    ensures var r := Visit(v, cwd, old(fs.files), n); fs.files == r.files && counted == r.counted
    ensures fs.dirs == old(fs.dirs)
  {
    counted := false;
    var src := InputImages(cwd) + [n];
    if IsImageName(n) && src in fs.files {
      var img := v.imread(fs.files[src]);
      if img.Some? {
        var out := UnsharpMask(v, img.value, Amount, Radius, Threshold);
        var written := v.imwrite(OutputImages(cwd) + [n], out, []);
        if written.Some? {
          fs.Write(OutputImages(cwd) + [n], written.value);
        }
        counted := true;
        var labelName := LabelName(n);
        if InputLabels(cwd) + [labelName] in fs.files {
          fs.Copy(InputLabels(cwd) + [labelName], OutputLabels(cwd) + [labelName]);
        }
      }
    }
  }

  /**
   * The script's module-level code: create the output folders, then visit
   * every listed name of the input images folder. `progress` records the
   * counts at which the progress line is printed.
   */
  method SharpenAll(fs: FileSystem, v: Vision, cwd: Path)
    returns (count: nat, progress: seq<nat>, ghost names: seq<Name>)
    requires BlurKeepsShape(v)
    modifies fs
    ensures Distinct(names) && forall n :: n in names <==> InputImages(cwd) + [n] in old(fs.files)
    ensures fs.dirs == old(fs.dirs) + Ancestry(OutputImages(cwd)) + Ancestry(OutputLabels(cwd))
    ensures var r := SharpenRun(v, cwd, old(fs.files), names); fs.files == r.files && count == r.count
    ensures progress == Milestones(count)
  {
    fs.MakeDirs(OutputImages(cwd));
    fs.MakeDirs(OutputLabels(cwd));
    var listed := fs.ListFiles(InputImages(cwd));
    names := listed;
    count, progress := VisitAll(fs, v, cwd, listed);
  }

  /** Lines 40-62: the loop over the listed names, reporting every hundredth image. */
  method VisitAll(fs: FileSystem, v: Vision, cwd: Path, listed: seq<Name>) returns (count: nat, progress: seq<nat>)
    requires BlurKeepsShape(v)
    modifies fs
    ensures var r := SharpenRun(v, cwd, old(fs.files), listed); fs.files == r.files && count == r.count
    ensures progress == Milestones(count)
    ensures fs.dirs == old(fs.dirs)
  {
    ghost var files0 := fs.files;
    count, progress := 0, [];
    for i := 0 to |listed|
      invariant fs.dirs == old(fs.dirs)
      invariant var r := SharpenRun(v, cwd, files0, listed[..i]); fs.files == r.files && count == r.count
      invariant progress == Milestones(count)
    {
      SharpenRunStep(v, cwd, files0, listed, i);
      var counted := VisitName(fs, v, cwd, listed[i]);
      if counted {
        MilestonesNext(count);
        count := count + 1;
        if count % 100 == 0 {
          progress := progress + [count];
        }
      }
    }
    assert listed[..|listed|] == listed;
  }

}
