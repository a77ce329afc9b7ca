/**
 * scripts/enhance_yolo_aerial.py: list the images of a folder, run a fixed
 * plan of OpenCV filters on each, write the result beside a copy of its
 * YOLO label, and count what happened. The filters and codecs are opaque
 * (module Imaging); the file system is a `FileSystem`.
 */
module Enhance {

  import opened Wrappers
  import opened Names
  import opened FileStore
  import opened PathOrder
  import opened Imaging

  const ImageExtDefault: seq<string> := [".jpg", ".jpeg", ".png", ".bmp", ".tif", ".tiff", ".webp"]

  /** OpenCV's `IMWRITE_JPEG_QUALITY` and `IMWRITE_PNG_COMPRESSION`. */
  const ImwriteJpegQuality := 1
  const ImwritePngCompression := 16

  /** Quality of the side-by-side comparison images (line 258). */
  const CompareQuality := 92

  /**
   * The parsed command line (lines 34-74). A path that was not given is
   * `None`; `outputExt == ""` means `--output-ext` was not given.
   */
  datatype Args = Args(
    inImages: Option<Path>, inLabels: Option<Path>, outImages: Option<Path>, outLabels: Option<Path>,
    ext: seq<string>, recursive: bool, limit: int, resize: Option<(int, int)>,
    outputExt: string, jpgQuality: int,
    clahe: bool, claheClip: real, claheGrid: int,
    sharpen: bool, usSigma: real, usAmount: real, usThreshold: int,
    denoise: bool, dnH: real, dnHColor: real, dnTemplate: int, dnSearch: int,
    saveCompare: bool, dryRun: bool)

  /** The command line with no options. */
  const DefaultArgs := Args(
    None, None, None, None,
    ImageExtDefault, false, 0, None,
    "", 95,
    false, 1.8, 8,
    false, 0.8, 0.25, 0,
    false, 3.0, 3.0, 7, 21,
    false, false)

  // ---------------------------------------------------------------------
  // Folders (lines 196-201)
  // ---------------------------------------------------------------------

  datatype Folders = Folders(inImages: Path, inLabels: Path, outImages: Path, outLabels: Path)

  /** Each folder is the one given, or its place under the project root. */
  function ResolveFolders(a: Args, root: Path): Folders {
    Folders(
      a.inImages.GetOr(root + ["dataset", "raw", "images"]),
      a.inLabels.GetOr(root + ["dataset", "raw", "labels"]),
      a.outImages.GetOr(root + ["dataset", "enhanced", "images"]),
      a.outLabels.GetOr(root + ["dataset", "enhanced", "labels"]))
  }

  // ---------------------------------------------------------------------
  // list_images (lines 85-94)
  // ---------------------------------------------------------------------

  /** Line 86 for one extension: lower-cased, with a leading dot. */
  function NormExt(e: string): (r: string)
    ensures StartsWith(r, ".")
    ensures Lower(r) == r
    ensures StartsWith(e, ".") ==> r == Lower(e)
    ensures !StartsWith(e, ".") ==> r == "." + Lower(e)
  {
    LowerIdempotent(e);
    if StartsWith(e, ".") then
      assert Lower(e)[..1] == ".";
      Lower(e)
    else
      assert Lower("." + Lower(e)) == "." + Lower(e);
      "." + Lower(e)
  }

  /** Normalising twice is normalising once. */
  lemma NormExtIdempotent(e: string)
    ensures NormExt(NormExt(e)) == NormExt(e)
  {
    var r := NormExt(e);
    assert r[..1] == ".";
    LowerIdempotent(r);
  }

  /** Line 86: the set of requested extensions. */
  function NormExts(exts: seq<string>): set<string> {
    set e | e in exts :: NormExt(e)
  }

  /**
   * Lines 87-94: `p` is a file under `root` (directly inside it unless
   * `recursive`) whose lower-cased suffix is a requested extension.
   */
  predicate Candidate(files: map<Path, Bytes>, root: Path, exts: seq<string>, recursive: bool, p: Path) {
    && p in files
    && |root| < |p| && p[..|root|] == root
    && (recursive || |p| == |root| + 1)
    && Lower(Suffix(p[|p| - 1])) in NormExts(exts)
  }

  /** An extension given with or without its dot, in any ASCII case, selects the same files. */
  lemma CandidateIgnoresExtSpelling(files: map<Path, Bytes>, root: Path, exts: seq<string>, exts': seq<string>, recursive: bool, p: Path)
    requires |exts| == |exts'|
    requires forall i :: 0 <= i < |exts| ==> NormExt(exts[i]) == NormExt(exts'[i])
    ensures Candidate(files, root, exts, recursive, p) <==> Candidate(files, root, exts', recursive, p)
  {
    NormExtsCovered(exts, exts');
    NormExtsCovered(exts', exts);
  }

  /** Every extension requested by `exts` is requested by `exts'` when they agree position by position. */
  lemma NormExtsCovered(exts: seq<string>, exts': seq<string>)
    requires |exts| == |exts'|
    requires forall i :: 0 <= i < |exts| ==> NormExt(exts[i]) == NormExt(exts'[i])
    ensures NormExts(exts) <= NormExts(exts')
  {
    forall x | x in NormExts(exts)
      ensures x in NormExts(exts')
    {
      var i :| 0 <= i < |exts| && NormExt(exts[i]) == x;
      assert exts'[i] in exts';
    }
  }

  /** Line 217: `sorted(list(list_images(...)))`. */
  method ListImages(fs: FileSystem, root: Path, exts: seq<string>, recursive: bool) returns (images: seq<Path>)
    ensures StrictlySorted(images)
    ensures forall p :: p in images <==> Candidate(fs.files, root, exts, recursive, p)
  {
    var found := set p | p in fs.files && Candidate(fs.files, root, exts, recursive, p);
    images := SortPaths(found);
  }

  // ---------------------------------------------------------------------
  // The filter plan (lines 160-173, 213-215)
  // ---------------------------------------------------------------------

  /** Lines 213-215: with no filter flag, CLAHE and sharpening are switched on. */
  function ApplyDefaultPolicy(a: Args): (r: Args)
    ensures !(a.clahe || a.sharpen || a.denoise) ==> r.clahe && r.sharpen && !r.denoise
    ensures (a.clahe || a.sharpen || a.denoise) ==> r == a
    ensures r == a.(clahe := r.clahe, sharpen := r.sharpen)
  {
    if !(a.clahe || a.sharpen || a.denoise) then a.(clahe := true, sharpen := true) else a
  }

  /**
   * Lines 160-173: denoise when asked, then CLAHE, then unsharp masking.
   * The `clahe` and `sharpen` flags are not consulted.
   */
  function Plan(a: Args): (r: seq<Stage>)
    ensures |r| == (if a.denoise then 3 else 2)
    ensures r[|r| - 2] == Clahe(a.claheClip, a.claheGrid)
    ensures r[|r| - 1] == Unsharp(a.usSigma, a.usAmount, a.usThreshold)
    ensures forall i :: 0 <= i < |r| ==> (r[i].Denoise? <==> a.denoise && i == 0)
  {
    (if a.denoise then [Denoise(a.dnH, a.dnHColor, a.dnTemplate, a.dnSearch)] else [])
    + [Clahe(a.claheClip, a.claheGrid), Unsharp(a.usSigma, a.usAmount, a.usThreshold)]
  }

  /** Whatever `--clahe` and `--sharpen` say, and so whatever the default policy sets, the plan is the same. */
  lemma PlanIgnoresClaheAndSharpen(a: Args, clahe: bool, sharpen: bool)
    ensures Plan(a.(clahe := clahe, sharpen := sharpen)) == Plan(a)
    ensures Plan(ApplyDefaultPolicy(a)) == Plan(a)
  {
  }

  /** The stages applied in order. */
  function ApplyPlan(v: Vision, img: Image, stages: seq<Stage>): Image
    decreases |stages|
  {
    if stages == [] then img else ApplyPlan(v, v.filter(img, stages[0]), stages[1..])
  }

  /** Line 248: `enhance_small_blurry_object`. */
  function EnhanceImage(v: Vision, img: Image, a: Args): Image {
    ApplyPlan(v, img, Plan(a))
  }

  /** The plan is the composition of its filters, innermost first. */
  lemma EnhanceImageComposition(v: Vision, img: Image, a: Args)
    ensures var start := if a.denoise then v.filter(img, Denoise(a.dnH, a.dnHColor, a.dnTemplate, a.dnSearch)) else img;
      EnhanceImage(v, img, a)
        == v.filter(v.filter(start, Clahe(a.claheClip, a.claheGrid)), Unsharp(a.usSigma, a.usAmount, a.usThreshold))
  {
    var p := Plan(a);
    var start := if a.denoise then v.filter(img, p[0]) else img;
    var rest := if a.denoise then p[1..] else p;
    assert ApplyPlan(v, img, p) == ApplyPlan(v, start, rest);
    assert rest == [Clahe(a.claheClip, a.claheGrid), Unsharp(a.usSigma, a.usAmount, a.usThreshold)];
    var afterClahe := v.filter(start, rest[0]);
    assert ApplyPlan(v, start, rest) == ApplyPlan(v, afterClahe, rest[1..]);
    assert ApplyPlan(v, afterClahe, rest[1..]) == ApplyPlan(v, v.filter(afterClahe, rest[1]), rest[1..][1..]);
    assert rest[1..][1..] == [];
  }

  // ---------------------------------------------------------------------
  // --limit and output names (lines 222-223, 232-236)
  // ---------------------------------------------------------------------

  /** Lines 222-223: a positive limit keeps that many images at most; otherwise all are kept. */
  function ApplyLimit(images: seq<Path>, limit: int): (r: seq<Path>)
    ensures limit > 0 ==> |r| == (if limit < |images| then limit else |images|)
    ensures limit <= 0 ==> r == images
    ensures r == images[..|r|]
  {
    if limit > 0 && limit < |images| then images[..limit] else images
  }

  /** Lines 232-234: the output extension, always with a leading dot. */
  function OutExt(outputExt: string, name: Name): (r: string)
    ensures StartsWith(r, ".")
    ensures outputExt != "" ==> r == (if StartsWith(outputExt, ".") then outputExt else "." + outputExt)
  {
    var e := if outputExt != "" then outputExt else Suffix(name);
    if StartsWith(e, ".") then e else "." + e
  }

  /** Line 236: `out_images / f"{stem}{out_ext}"`. */
  function OutImagePath(outImages: Path, outputExt: string, name: Name): Path {
    outImages + [Stem(name) + OutExt(outputExt, name)]
  }

  /** Without `--output-ext` an image keeps its file name. */
  lemma OutputKeepsName(outImages: Path, name: Name)
    requires Suffix(name) != ""
    ensures OutImagePath(outImages, "", name) == outImages + [name]
  {
    assert Suffix(name)[..1] == ".";
  }

  /** The suffixes `list_images` accepts are never empty, so a listed image keeps its name. */
  lemma CandidateHasSuffix(files: map<Path, Bytes>, root: Path, exts: seq<string>, recursive: bool, p: Path)
    requires Candidate(files, root, exts, recursive, p)
    ensures Suffix(p[|p| - 1]) != ""
  {
    var e :| e in exts && NormExt(e) == Lower(Suffix(p[|p| - 1]));
  }

  // ---------------------------------------------------------------------
  // safe_imwrite (lines 101-110) and copy_label (lines 113-120)
  // ---------------------------------------------------------------------

  /** Lines 104-109: the encoder parameters, chosen by the lower-cased suffix. */
  function WriteParams(path: Path, quality: int): seq<int> {
    var suf := if path == [] then "" else Lower(Suffix(path[|path| - 1]));
    if suf == ".jpg" || suf == ".jpeg" then [ImwriteJpegQuality, quality]
    else if suf == ".png" then [ImwritePngCompression, 3]
    else []
  }

  /** The files after `safe_imwrite`, or `None` when it returns false. */
  function Imwrite(v: Vision, files: map<Path, Bytes>, path: Path, img: Image, quality: int, dryRun: bool): (r: Option<map<Path, Bytes>>)
    ensures dryRun ==> r == Some(files)
    ensures r.Some? ==> r.value.Keys == files.Keys + (if dryRun then {} else {path})
    ensures r.Some? ==> forall q :: q != path ==> Same(files, r.value, q)
    ensures r.Some? && !dryRun ==> Some(r.value[path]) == v.imwrite(path, img, WriteParams(path, quality))
    ensures !dryRun ==> (r.None? <==> v.imwrite(path, img, WriteParams(path, quality)).None?)
  {
    if dryRun then Some(files)
    else match v.imwrite(path, img, WriteParams(path, quality))
      case None => None
      case Some(b) => Some(files[path := b])
  }

  method SafeImwrite(fs: FileSystem, v: Vision, path: Path, img: Image, quality: int, dryRun: bool) returns (ok: bool)
    modifies fs
    ensures ok == Imwrite(v, old(fs.files), path, img, quality, dryRun).Some?
    ensures fs.files == Imwrite(v, old(fs.files), path, img, quality, dryRun).GetOr(old(fs.files))
    ensures fs.dirs == old(fs.dirs)
  {
    if dryRun {
      return true;
    }
    var params := WriteParams(path, quality);
    var encoded := v.imwrite(path, img, params);
    if encoded.None? {
      return false;
    }
    fs.Write(path, encoded.value);
    ok := true;
  }

  function LabelFile(dir: Path, stem: string): Path {
    dir + [stem + ".txt"]
  }

  /**
   * The files after `copy_label`. `shutil.copy2` onto a directory named like
   * the label is not modelled: only a file is copied.
   */
  function CopiedLabel(files: map<Path, Bytes>, inLabels: Path, outLabels: Path, stem: string, dryRun: bool): (r: map<Path, Bytes>)
    ensures dryRun ==> r == files
    ensures LabelFile(inLabels, stem) !in files ==> r == files
    ensures !dryRun && LabelFile(inLabels, stem) in files ==>
      r == files[LabelFile(outLabels, stem) := files[LabelFile(inLabels, stem)]]
    ensures forall q :: q != LabelFile(outLabels, stem) ==> Same(files, r, q)
  {
    var src, dst := LabelFile(inLabels, stem), LabelFile(outLabels, stem);
    if !dryRun && src in files then files[dst := files[src]] else files
  }

  method CopyLabel(fs: FileSystem, inLabels: Path, outLabels: Path, stem: string, dryRun: bool) returns (found: bool)
    modifies fs
    ensures found == Present(old(fs.files), old(fs.dirs), LabelFile(inLabels, stem))
    ensures fs.files == CopiedLabel(old(fs.files), inLabels, outLabels, stem, dryRun)
    ensures fs.dirs == old(fs.dirs)
  {
    var src, dst := LabelFile(inLabels, stem), LabelFile(outLabels, stem);
    if !fs.Exists(src) {
      return false;
    }
    if !dryRun && src in fs.files {
      fs.Copy(src, dst);
    }
    found := true;
  }

  // ---------------------------------------------------------------------
  // One image of the main loop (lines 229-265)
  // ---------------------------------------------------------------------

  datatype Outcome = ReadFailed | WriteFailed | Processed(labelFound: bool)

  datatype Step = Step(files: map<Path, Bytes>, outcome: Outcome)

  /** The image after the optional `--resize` (lines 244-246). */
  function Resized(v: Vision, img: Image, a: Args): Image {
    match a.resize
    case None => img
    case Some(wh) => v.resize(img, wh.0, wh.1)
  }

  /** Line 257: the side-by-side comparison written next to the output image. */
  function CompareFile(outImages: Path, stem: string): Path {
    outImages + [stem + "_compare.jpg"]
  }

  /** `q` is one of the three paths the loop may write for the image named `name`. */
  predicate Writes(d: Folders, outputExt: string, name: Name, q: Path) {
    || q == OutImagePath(d.outImages, outputExt, name)
    || q == CompareFile(d.outImages, Stem(name))
    || q == LabelFile(d.outLabels, Stem(name))
  }

  /** Entries of two different folders are different paths. */
  lemma ChildrenApart(dir: Path, other: Path, x: string, y: string)
    requires dir != other
    ensures dir + [x] != other + [y]
  {
    if |dir| == |other| {
      assert (dir + [x])[..|dir|] == dir;
      assert (other + [y])[..|other|] == other;
    }
  }

  /** The output image never is its own comparison: its extension starts with a dot. */
  lemma CompareIsNotOutput(outImages: Path, outputExt: string, name: Name)
    ensures OutImagePath(outImages, outputExt, name) != CompareFile(outImages, Stem(name))
  {
    var stem, ext := Stem(name), OutExt(outputExt, name);
    assert ext[0] == '.';
    assert (stem + ext)[|stem|] != (stem + "_compare.jpg")[|stem|];
    assert OutImagePath(outImages, outputExt, name)[|outImages|] == stem + ext;
    assert CompareFile(outImages, stem)[|outImages|] == stem + "_compare.jpg";
  }

  /** Two stems have the same label file only when they are equal. */
  lemma LabelFileInjective(dir: Path, s: string, t: string)
    requires LabelFile(dir, s) == LabelFile(dir, t)
    ensures s == t
  {
    assert LabelFile(dir, s)[|dir|] == s + ".txt";
    assert LabelFile(dir, t)[|dir|] == t + ".txt";
    assert (s + ".txt")[..|s|] == s;
    assert (t + ".txt")[..|t|] == t;
  }

  /** A path in a folder that is neither output folder is never written. */
  lemma NotWritten(d: Folders, outputExt: string, name: Name, dir: Path, x: string)
    requires dir != d.outImages && dir != d.outLabels
    ensures !Writes(d, outputExt, name, dir + [x])
  {
    ChildrenApart(dir, d.outImages, x, Stem(name) + OutExt(outputExt, name));
    ChildrenApart(dir, d.outImages, x, Stem(name) + "_compare.jpg");
    ChildrenApart(dir, d.outLabels, x, Stem(name) + ".txt");
  }

  /**
   * Lines 255-258: with `--save-compare`, the comparison is written next to
   * the output image; a failure to write it is ignored.
   */
  function WithComparison(v: Vision, a: Args, outImages: Path, stem: string, files: map<Path, Bytes>, im: Image, enhanced: Image): (r: map<Path, Bytes>)
    ensures forall q :: q != CompareFile(outImages, stem) ==> Same(files, r, q)
    ensures files.Keys <= r.Keys
    ensures !a.saveCompare || a.dryRun ==> r == files
  {
    if a.saveCompare
    then Imwrite(v, files, CompareFile(outImages, stem), v.compare(im, enhanced), CompareQuality, a.dryRun).GetOr(files)
    else files
  }

  /** Three writes in a row leave every other path as it was. */
  lemma SameAcross(f0: map<Path, Bytes>, f1: map<Path, Bytes>, f2: map<Path, Bytes>, f3: map<Path, Bytes>, p1: Path, p2: Path, p3: Path)
    requires forall q :: q != p1 ==> Same(f0, f1, q)
    requires forall q :: q != p2 ==> Same(f1, f2, q)
    requires forall q :: q != p3 ==> Same(f2, f3, q)
    ensures forall q :: q != p1 && q != p2 && q != p3 ==> Same(f0, f3, q)
  {
    forall q | q != p1 && q != p2 && q != p3
      ensures Same(f0, f3, q)
    {
      assert Same(f0, f1, q) && Same(f1, f2, q) && Same(f2, f3, q);
    }
  }

  /**
   * Lines 230-265 for `img`: read, resize, enhance, write, optionally write
   * the comparison, copy the label. A failed read or write ends the image.
   */
  function ProcessImage(v: Vision, a: Args, d: Folders, dirs: set<Path>, files: map<Path, Bytes>, img: Path): (r: Step)
    requires img in files && img != []
    ensures files.Keys <= r.files.Keys
    ensures r.outcome == ReadFailed <==> v.imread(files[img]).None?
    ensures var out := OutImagePath(d.outImages, a.outputExt, img[|img| - 1]);
      r.outcome == WriteFailed <==>
        && v.imread(files[img]).Some?
        && !a.dryRun
        && v.imwrite(out, EnhanceImage(v, Resized(v, v.imread(files[img]).value, a), a), WriteParams(out, a.jpgQuality)).None?
    ensures a.dryRun ==> (r.outcome.Processed? <==> v.imread(files[img]).Some?)
    ensures !r.outcome.Processed? ==> r.files == files
    ensures a.dryRun ==> r.files == files
    ensures r.outcome.Processed? && !a.dryRun ==> OutImagePath(d.outImages, a.outputExt, img[|img| - 1]) in r.files
    ensures r.outcome.Processed? && d.inLabels != d.outImages ==>
      (r.outcome.labelFound <==> Present(files, dirs, LabelFile(d.inLabels, Stem(img[|img| - 1]))))
  {
    var name := img[|img| - 1];
    var stem := Stem(name);
    var out := OutImagePath(d.outImages, a.outputExt, name);
    match v.imread(files[img])
    case None => Step(files, ReadFailed)
    case Some(decoded) =>
      var im := Resized(v, decoded, a);
      var enhanced := EnhanceImage(v, im, a);
      match Imwrite(v, files, out, enhanced, a.jpgQuality, a.dryRun)
      case None => Step(files, WriteFailed)
      case Some(f1) =>
        var f2 := WithComparison(v, a, d.outImages, stem, f1, im, enhanced);
        var src := LabelFile(d.inLabels, stem);
        var found := Present(f2, dirs, src);
        assert d.inLabels != d.outImages ==> Same(files, f1, src) && Same(f1, f2, src) by {
          if d.inLabels != d.outImages {
            LabelSourceApart(d, a.outputExt, name);
          }
        }
        Step(CopiedLabel(f2, d.inLabels, d.outLabels, stem, a.dryRun), Processed(found))
  }

  /** The label source is in neither output folder's reach when it is not in the output images folder. */
  lemma LabelSourceApart(d: Folders, outputExt: string, name: Name)
    requires d.inLabels != d.outImages
    ensures LabelFile(d.inLabels, Stem(name)) != OutImagePath(d.outImages, outputExt, name)
    ensures LabelFile(d.inLabels, Stem(name)) != CompareFile(d.outImages, Stem(name))
  {
    var stem := Stem(name);
    ChildrenApart(d.inLabels, d.outImages, stem + ".txt", stem + OutExt(outputExt, name));
    ChildrenApart(d.inLabels, d.outImages, stem + ".txt", stem + "_compare.jpg");
  }

  /** Lines 250-262: one image writes its output, its comparison and its label, and no other path. */
  lemma ProcessImageFrame(v: Vision, a: Args, d: Folders, dirs: set<Path>, files: map<Path, Bytes>, img: Path)
    requires img in files && img != []
    ensures var r := ProcessImage(v, a, d, dirs, files, img).files;
      forall q :: !Writes(d, a.outputExt, img[|img| - 1], q) ==> Same(files, r, q)
  {
    var name := img[|img| - 1];
    var stem := Stem(name);
    var out := OutImagePath(d.outImages, a.outputExt, name);
    match v.imread(files[img])
    case None =>
    case Some(decoded) =>
      var im := Resized(v, decoded, a);
      var enhanced := EnhanceImage(v, im, a);
      match Imwrite(v, files, out, enhanced, a.jpgQuality, a.dryRun)
      case None =>
      case Some(f1) =>
        var f2 := WithComparison(v, a, d.outImages, stem, f1, im, enhanced);
        var r := CopiedLabel(f2, d.inLabels, d.outLabels, stem, a.dryRun);
        assert ProcessImage(v, a, d, dirs, files, img).files == r;
        SameAcross(files, f1, f2, r, out, CompareFile(d.outImages, stem), LabelFile(d.outLabels, stem));
  }

  /**
   * Lines 244-250: a processed image leaves at its output path the bytes
   * OpenCV encodes for the resized, enhanced image, unless the label copy
   * lands on the same path.
   */
  lemma ProcessImageWritesOutput(v: Vision, a: Args, d: Folders, dirs: set<Path>, files: map<Path, Bytes>, img: Path)
    requires img in files && img != []
    requires d.outLabels != d.outImages
    ensures var r := ProcessImage(v, a, d, dirs, files, img);
      var out := OutImagePath(d.outImages, a.outputExt, img[|img| - 1]);
      r.outcome.Processed? && !a.dryRun ==>
        && v.imread(files[img]).Some?
        && out in r.files
        && Some(r.files[out]) == v.imwrite(out, EnhanceImage(v, Resized(v, v.imread(files[img]).value, a), a), WriteParams(out, a.jpgQuality))
  {
    var name := img[|img| - 1];
    var stem := Stem(name);
    var out := OutImagePath(d.outImages, a.outputExt, name);
    match v.imread(files[img])
    case None =>
    case Some(decoded) =>
      var im := Resized(v, decoded, a);
      var enhanced := EnhanceImage(v, im, a);
      match Imwrite(v, files, out, enhanced, a.jpgQuality, a.dryRun)
      case None =>
      case Some(f1) =>
        var f2 := WithComparison(v, a, d.outImages, stem, f1, im, enhanced);
        var r := CopiedLabel(f2, d.inLabels, d.outLabels, stem, a.dryRun);
        assert ProcessImage(v, a, d, dirs, files, img).files == r;
        CompareIsNotOutput(d.outImages, a.outputExt, name);
        ChildrenApart(d.outLabels, d.outImages, stem + ".txt", stem + OutExt(a.outputExt, name));
        assert Same(f1, f2, out) && Same(f2, r, out);
  }

  /**
   * Line 260: a processed image whose label exists has that label,
   * byte for byte, in the output labels folder, when the input labels are
   * not in the output images folder.
   */
  lemma ProcessImageCopiesLabel(v: Vision, a: Args, d: Folders, dirs: set<Path>, files: map<Path, Bytes>, img: Path)
    requires img in files && img != []
    requires d.inLabels != d.outImages
    ensures var r := ProcessImage(v, a, d, dirs, files, img);
      var src := LabelFile(d.inLabels, Stem(img[|img| - 1]));
      var dst := LabelFile(d.outLabels, Stem(img[|img| - 1]));
      r.outcome.Processed? && !a.dryRun && src in files ==> dst in r.files && r.files[dst] == files[src]
  {
    var name := img[|img| - 1];
    var stem := Stem(name);
    var out := OutImagePath(d.outImages, a.outputExt, name);
    match v.imread(files[img])
    case None =>
    case Some(decoded) =>
      var im := Resized(v, decoded, a);
      var enhanced := EnhanceImage(v, im, a);
      match Imwrite(v, files, out, enhanced, a.jpgQuality, a.dryRun)
      case None =>
      case Some(f1) =>
        var f2 := WithComparison(v, a, d.outImages, stem, f1, im, enhanced);
        assert ProcessImage(v, a, d, dirs, files, img).files == CopiedLabel(f2, d.inLabels, d.outLabels, stem, a.dryRun);
        LabelSourceApart(d, a.outputExt, name);
        assert Same(files, f1, LabelFile(d.inLabels, stem)) && Same(f1, f2, LabelFile(d.inLabels, stem));
  }

  datatype Tally = Tally(processed: nat, missingLabels: nat, failed: nat)

  /** The counters after one outcome (lines 241, 252, 261, 264). */
  function Count(t: Tally, o: Outcome): Tally {
    match o
    case ReadFailed => t.(failed := t.failed + 1)
    case WriteFailed => t.(failed := t.failed + 1)
    case Processed(found) =>
      t.(processed := t.processed + 1, missingLabels := if found then t.missingLabels else t.missingLabels + 1)
  }

  datatype State = State(files: map<Path, Bytes>, tally: Tally)

  predicate Readable(files: map<Path, Bytes>, images: seq<Path>) {
    forall i :: 0 <= i < |images| ==> images[i] in files && images[i] != []
  }

  /** Lines 229-265: the images in order, from zero counters. */
  function Run(v: Vision, a: Args, d: Folders, dirs: set<Path>, files: map<Path, Bytes>, images: seq<Path>): (r: State)
    requires Readable(files, images)
    ensures files.Keys <= r.files.Keys
    decreases |images|
  {
    if images == [] then State(files, Tally(0, 0, 0))
    else
      var prev := Run(v, a, d, dirs, files, images[..|images| - 1]);
      var s := ProcessImage(v, a, d, dirs, prev.files, images[|images| - 1]);
      State(s.files, Count(prev.tally, s.outcome))
  }

  /** `Run` over one more image. */
  lemma RunSnoc(v: Vision, a: Args, d: Folders, dirs: set<Path>, files: map<Path, Bytes>, images: seq<Path>, i: nat)
    requires Readable(files, images) && i < |images|
    ensures Readable(files, images[..i]) && Readable(files, images[..i + 1])
    ensures var prev := Run(v, a, d, dirs, files, images[..i]);
      && images[i] in prev.files && images[i] != []
      && var s := ProcessImage(v, a, d, dirs, prev.files, images[i]);
        Run(v, a, d, dirs, files, images[..i + 1]) == State(s.files, Count(prev.tally, s.outcome))
  {
    assert images[..i + 1][..i] == images[..i];
    assert images[..i + 1][i] == images[i];
  }

  /** Every image gets exactly one outcome, and only processed images can miss a label. */
  lemma {:induction false} RunTally(v: Vision, a: Args, d: Folders, dirs: set<Path>, files: map<Path, Bytes>, images: seq<Path>)
    requires Readable(files, images)
    ensures var t := Run(v, a, d, dirs, files, images).tally;
      t.processed + t.failed == |images| && t.missingLabels <= t.processed
    decreases |images|
  {
    if images != [] {
      RunTally(v, a, d, dirs, files, images[..|images| - 1]);
    }
  }

  /** The outcome of the `i`-th image of a run. */
  function RunOutcome(v: Vision, a: Args, d: Folders, dirs: set<Path>, files: map<Path, Bytes>, images: seq<Path>, i: nat): Outcome
    requires Readable(files, images) && i < |images|
  {
    RunSnoc(v, a, d, dirs, files, images, i);
    ProcessImage(v, a, d, dirs, Run(v, a, d, dirs, files, images[..i]).files, images[i]).outcome
  }

  /** The file name of a listed image path. */
  function ImageName(p: Path): Name
    requires p != []
  {
    p[|p| - 1]
  }

  /** A path none of the images from the `k`-th on writes keeps what it held after the first `k`. */
  lemma {:induction false} RunFrame(v: Vision, a: Args, d: Folders, dirs: set<Path>, files: map<Path, Bytes>, images: seq<Path>, k: nat, q: Path)
    requires Readable(files, images) && k <= |images|
    requires forall j :: k <= j < |images| ==> !Writes(d, a.outputExt, ImageName(images[j]), q)
    ensures Readable(files, images[..k])
    ensures Same(Run(v, a, d, dirs, files, images[..k]).files, Run(v, a, d, dirs, files, images).files, q)
    decreases |images|
  {
    if |images| == k {
      assert images[..k] == images;
    } else {
      var n := |images| - 1;
      assert images[..n][..k] == images[..k];
      RunFrame(v, a, d, dirs, files, images[..n], k, q);
      RunLastFrame(v, a, d, dirs, files, images, q);
      var before := Run(v, a, d, dirs, files, images[..k]).files;
      var middle := Run(v, a, d, dirs, files, images[..n]).files;
      assert Same(before, middle, q);
      assert Same(middle, Run(v, a, d, dirs, files, images).files, q);
    }
  }

  /** The last image of a run changes only the paths it writes. */
  lemma RunLastFrame(v: Vision, a: Args, d: Folders, dirs: set<Path>, files: map<Path, Bytes>, images: seq<Path>, q: Path)
    requires Readable(files, images) && images != []
    requires !Writes(d, a.outputExt, ImageName(images[|images| - 1]), q)
    ensures Readable(files, images[..|images| - 1])
    ensures Same(Run(v, a, d, dirs, files, images[..|images| - 1]).files, Run(v, a, d, dirs, files, images).files, q)
  {
    ProcessImageFrame(v, a, d, dirs, Run(v, a, d, dirs, files, images[..|images| - 1]).files, images[|images| - 1]);
  }

  /** The loop writes only into the two output folders: the input images and labels are never changed. */
  lemma RunKeepsOtherFolders(v: Vision, a: Args, d: Folders, dirs: set<Path>, files: map<Path, Bytes>, images: seq<Path>, dir: Path, x: string)
    requires Readable(files, images)
    requires dir != d.outImages && dir != d.outLabels
    ensures Same(files, Run(v, a, d, dirs, files, images).files, dir + [x])
  {
    forall j | 0 <= j < |images|
      ensures !Writes(d, a.outputExt, ImageName(images[j]), dir + [x])
    {
      NotWritten(d, a.outputExt, ImageName(images[j]), dir, x);
    }
    assert images[..0] == [];
    RunFrame(v, a, d, dirs, files, images, 0, dir + [x]);
  }

  /**
   * Lines 260-264 over a whole run: when image `i` is processed, its label
   * is found exactly when it exists, a label that is not found is counted
   * missing, and an existing label ends the run, byte for byte, in the
   * output labels folder. This needs the three folders apart and no other
   * image with the same stem, whose label would overwrite it.
   */
  lemma RunPairsLabels(v: Vision, a: Args, d: Folders, dirs: set<Path>, files: map<Path, Bytes>, images: seq<Path>, i: nat)
    requires Readable(files, images) && i < |images|
    requires d.inLabels != d.outImages && d.inLabels != d.outLabels && d.outLabels != d.outImages
    requires forall j :: 0 <= j < |images| && j != i ==> Stem(ImageName(images[j])) != Stem(ImageName(images[i]))
    requires RunOutcome(v, a, d, dirs, files, images, i).Processed?
    ensures Readable(files, images[..i]) && Readable(files, images[..i + 1])
    ensures var stem := Stem(ImageName(images[i]));
      var src, dst := LabelFile(d.inLabels, stem), LabelFile(d.outLabels, stem);
      var r := Run(v, a, d, dirs, files, images);
      && (RunOutcome(v, a, d, dirs, files, images, i).labelFound <==> Present(files, dirs, src))
      && (!RunOutcome(v, a, d, dirs, files, images, i).labelFound ==>
            Run(v, a, d, dirs, files, images[..i + 1]).tally.missingLabels == Run(v, a, d, dirs, files, images[..i]).tally.missingLabels + 1)
      && (!a.dryRun && src in files ==> dst in r.files && r.files[dst] == files[src])
  {
    var stem := Stem(ImageName(images[i]));
    var src, dst := LabelFile(d.inLabels, stem), LabelFile(d.outLabels, stem);
    RunSnoc(v, a, d, dirs, files, images, i);
    var prev := Run(v, a, d, dirs, files, images[..i]);
    RunKeepsOtherFolders(v, a, d, dirs, files, images[..i], d.inLabels, stem + ".txt");
    ProcessImageCopiesLabel(v, a, d, dirs, prev.files, images[i]);
    LaterImagesKeepLabel(v, a, d, dirs, files, images, i);
  }

  /** No image after the `i`-th overwrites its output label when no other image shares its stem. */
  lemma LaterImagesKeepLabel(v: Vision, a: Args, d: Folders, dirs: set<Path>, files: map<Path, Bytes>, images: seq<Path>, i: nat)
    requires Readable(files, images) && i < |images|
    requires d.outLabels != d.outImages
    requires forall j :: 0 <= j < |images| && j != i ==> Stem(ImageName(images[j])) != Stem(ImageName(images[i]))
    ensures Readable(files, images[..i + 1])
    ensures var dst := LabelFile(d.outLabels, Stem(ImageName(images[i])));
      Same(Run(v, a, d, dirs, files, images[..i + 1]).files, Run(v, a, d, dirs, files, images).files, dst)
  {
    var stem := Stem(ImageName(images[i]));
    forall j | i + 1 <= j < |images|
      ensures !Writes(d, a.outputExt, ImageName(images[j]), LabelFile(d.outLabels, stem))
    {
      LabelOfOtherStem(d, a.outputExt, ImageName(images[j]), stem);
    }
    RunFrame(v, a, d, dirs, files, images, i + 1, LabelFile(d.outLabels, stem));
  }

  /** An image never writes the output label of another stem. */
  lemma LabelOfOtherStem(d: Folders, outputExt: string, name: Name, stem: string)
    requires d.outLabels != d.outImages && Stem(name) != stem
    ensures !Writes(d, outputExt, name, LabelFile(d.outLabels, stem))
  {
    ChildrenApart(d.outLabels, d.outImages, stem + ".txt", Stem(name) + OutExt(outputExt, name));
    ChildrenApart(d.outLabels, d.outImages, stem + ".txt", Stem(name) + "_compare.jpg");
    if LabelFile(d.outLabels, stem) == LabelFile(d.outLabels, Stem(name)) {
      LabelFileInjective(d.outLabels, stem, Stem(name));
    }
  }

  /** A dry run writes no file. */
  lemma {:induction false} DryRunWritesNothing(v: Vision, a: Args, d: Folders, dirs: set<Path>, files: map<Path, Bytes>, images: seq<Path>)
    requires Readable(files, images)
    requires a.dryRun
    ensures Run(v, a, d, dirs, files, images).files == files
    decreases |images|
  {
    if images != [] {
      DryRunWritesNothing(v, a, d, dirs, files, images[..|images| - 1]);
    }
  }

  /** The number of images that decode, in the files as they are. */
  function Decodable(v: Vision, files: map<Path, Bytes>, images: seq<Path>): (n: nat)
    requires forall i :: 0 <= i < |images| ==> images[i] in files
    ensures n <= |images|
  {
    if images == [] then 0
    else Decodable(v, files, images[..|images| - 1]) + (if v.imread(files[images[|images| - 1]]).Some? then 1 else 0)
  }

  /**
   * A dry run classifies the images as a real run would if every write
   * succeeded: exactly the images that decode are processed, and the rest
   * fail.
   */
  lemma {:induction false} DryRunTally(v: Vision, a: Args, d: Folders, dirs: set<Path>, files: map<Path, Bytes>, images: seq<Path>)
    requires Readable(files, images)
    requires a.dryRun
    ensures var t := Run(v, a, d, dirs, files, images).tally;
      t.processed == Decodable(v, files, images) && t.failed == |images| - Decodable(v, files, images)
    decreases |images|
  {
    if images != [] {
      var prefix := images[..|images| - 1];
      assert Readable(files, prefix);
      DryRunTally(v, a, d, dirs, files, prefix);
      DryRunWritesNothing(v, a, d, dirs, files, prefix);
    }
  }

  /** Lines 230-265 for one image. */
  method EnhanceOne(fs: FileSystem, v: Vision, a: Args, d: Folders, img: Path) returns (outcome: Outcome)
    requires img in fs.files && img != []
    modifies fs
    ensures Step(fs.files, outcome) == ProcessImage(v, a, d, old(fs.dirs), old(fs.files), img)
    ensures fs.dirs == old(fs.dirs)
  {
    var name := img[|img| - 1];
    var stem := Stem(name);
    var outPath := OutImagePath(d.outImages, a.outputExt, name);
    var decoded := v.imread(fs.files[img]);
    if decoded.None? {
      return ReadFailed;
    }
    var im := Resized(v, decoded.value, a);
    var enhanced := EnhanceImage(v, im, a);
    var ok := SafeImwrite(fs, v, outPath, enhanced, a.jpgQuality, a.dryRun);
    if !ok {
      return WriteFailed;
    }
    if a.saveCompare {
      var _ := SafeImwrite(fs, v, CompareFile(d.outImages, stem), v.compare(im, enhanced), CompareQuality, a.dryRun);
    }
    var found := CopyLabel(fs, d.inLabels, d.outLabels, stem, a.dryRun);
    outcome := Processed(found);
  }

  /** Lines 225-265. */
  method EnhanceImages(fs: FileSystem, v: Vision, a: Args, d: Folders, images: seq<Path>)
    returns (processed: nat, missingLabels: nat, failed: nat)
    requires Readable(fs.files, images)
    modifies fs
    ensures var r := Run(v, a, d, old(fs.dirs), old(fs.files), images);
      fs.files == r.files && Tally(processed, missingLabels, failed) == r.tally
    ensures fs.dirs == old(fs.dirs)
  {
    processed, missingLabels, failed := 0, 0, 0;
    ghost var files0 := fs.files;
    var i := 0;
    while i < |images|
      invariant 0 <= i <= |images|
      invariant fs.dirs == old(fs.dirs)
      invariant Readable(files0, images[..i])
      invariant var r := Run(v, a, d, old(fs.dirs), files0, images[..i]);
        fs.files == r.files && Tally(processed, missingLabels, failed) == r.tally
    {
      RunSnoc(v, a, d, old(fs.dirs), files0, images, i);
      ghost var before := Tally(processed, missingLabels, failed);
      var outcome := EnhanceOne(fs, v, a, d, images[i]);
      var t := Count(Tally(processed, missingLabels, failed), outcome);
      processed, missingLabels, failed := t.processed, t.missingLabels, t.failed;
      assert Tally(processed, missingLabels, failed) == Count(before, outcome);
      i := i + 1;
    }
    assert images[..|images|] == images;
  }

  // ---------------------------------------------------------------------
  // main (lines 193-272)
  // ---------------------------------------------------------------------

  /** Some file qualifies as an input image. */
  ghost predicate HasImages(files: map<Path, Bytes>, a: Args, d: Folders) {
    exists p :: Candidate(files, d.inImages, a.ext, a.recursive, p)
  }

  /** The folders `ensure_dir` creates (lines 210-211). */
  function OutputFolders(d: Folders, dryRun: bool): set<Path> {
    if dryRun then {} else Ancestry(d.outImages) + Ancestry(d.outLabels)
  }

  /**
   * Lines 210-272, once both input folders exist: create the output
   * folders, list and sort the images (`listed`), stop with status 1 when
   * there are none, otherwise cut the list to `--limit` and run the loop.
   */
  method EnhanceListed(fs: FileSystem, v: Vision, args: Args, d: Folders)
    returns (status: int, ghost listed: seq<Path>, ghost images: seq<Path>, processed: nat, missingLabels: nat, failed: nat)
    modifies fs
    ensures StrictlySorted(listed)
    ensures forall p :: p in listed <==> Candidate(old(fs.files), d.inImages, args.ext, args.recursive, p)
    ensures images == ApplyLimit(listed, args.limit)
    ensures fs.dirs == old(fs.dirs) + OutputFolders(d, args.dryRun)
    ensures listed == [] ==> status == 1 && fs.files == old(fs.files)
    ensures listed != [] ==>
      && status == 0
      && Readable(old(fs.files), images)
      && var r := Run(v, ApplyDefaultPolicy(args), d, fs.dirs, old(fs.files), images);
        fs.files == r.files && Tally(processed, missingLabels, failed) == r.tally
  {
    processed, missingLabels, failed := 0, 0, 0;
    if !args.dryRun {
      fs.MakeDirs(d.outImages);
      fs.MakeDirs(d.outLabels);
    }
    var a := ApplyDefaultPolicy(args);
    var all := ListImages(fs, d.inImages, a.ext, a.recursive);
    listed := all;
    images := ApplyLimit(all, a.limit);
    if all == [] {
      return 1, listed, images, processed, missingLabels, failed;
    }
    var selected := ApplyLimit(all, a.limit);
    assert Readable(fs.files, selected) by {
      forall i | 0 <= i < |selected| ensures selected[i] in fs.files && selected[i] != [] {
        assert selected[i] == all[i];
        assert all[i] in all;
      }
    }
    processed, missingLabels, failed := EnhanceImages(fs, v, a, d, selected);
    status := 0;
  }

  /** No file qualifies exactly when the sorted listing is empty. */
  lemma ListedEmpty(listed: seq<Path>, files: map<Path, Bytes>, a: Args, d: Folders)
    requires forall p :: p in listed <==> Candidate(files, d.inImages, a.ext, a.recursive, p)
    ensures listed == [] <==> !HasImages(files, a, d)
  {
    if listed != [] {
      assert listed[0] in listed;
    } else {
      forall p ensures !Candidate(files, d.inImages, a.ext, a.recursive, p) {
        assert p !in listed;
      }
    }
  }

  /**
   * Lines 193-272. Exit status 1 when the input images or labels are
   * missing (nothing is touched) or when no image is listed (only the
   * output folders are created then); otherwise status 0 after the loop
   * over `images`, the sorted listing cut to `--limit`.
   */
  method EnhanceMain(fs: FileSystem, v: Vision, root: Path, args: Args)
    returns (status: int, ghost listed: seq<Path>, ghost images: seq<Path>, processed: nat, missingLabels: nat, failed: nat)
    modifies fs
    ensures var d := ResolveFolders(args, root);
      !old(fs.Exists(d.inImages)) || !old(fs.Exists(d.inLabels)) ==>
        status == 1 && fs.files == old(fs.files) && fs.dirs == old(fs.dirs)
    ensures var d := ResolveFolders(args, root);
      old(fs.Exists(d.inImages)) && old(fs.Exists(d.inLabels)) ==>
        && StrictlySorted(listed)
        && (forall p :: p in listed <==> Candidate(old(fs.files), d.inImages, args.ext, args.recursive, p))
        && images == ApplyLimit(listed, args.limit)
        && fs.dirs == old(fs.dirs) + OutputFolders(d, args.dryRun)
        && (!HasImages(old(fs.files), args, d) ==> status == 1 && fs.files == old(fs.files))
        && (HasImages(old(fs.files), args, d) ==>
          && status == 0
          && Readable(old(fs.files), images)
          && var r := Run(v, ApplyDefaultPolicy(args), d, fs.dirs, old(fs.files), images);
            fs.files == r.files && Tally(processed, missingLabels, failed) == r.tally)
  {
    var d := ResolveFolders(args, root);
    processed, missingLabels, failed := 0, 0, 0;
    listed, images := [], [];
    if !fs.Exists(d.inImages) || !fs.Exists(d.inLabels) {
      return 1, listed, images, processed, missingLabels, failed;
    }
    ghost var files0 := fs.files;
    status, listed, images, processed, missingLabels, failed := EnhanceListed(fs, v, args, d);
    ListedEmpty(listed, files0, args, d);
  }
}
