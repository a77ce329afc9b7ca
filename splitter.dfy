/**
 * scripts/split_dataset.py: shuffle the images of a dataset, cut the list
 * into train/val/test by truncated ratio counts, and copy every image and
 * its same-stem label into the part it fell in.
 */
module Splitter {

  import opened Names
  import opened FileStore
  import opened Shuffling

  /** An exact rational standing for one of the float ratios. */
  datatype Ratio = Ratio(num: int, den: int)

  /** The default `train=0.8` and `val=0.1`. */
  const DefaultTrain := Ratio(4, 5)
  const DefaultVal := Ratio(1, 10)

  /** Division truncated toward zero: Python's `int()` of a quotient. */
  function TruncDiv(a: int, b: int): (q: int)
    requires b > 0
    ensures 0 <= a ==> 0 <= q && q * b <= a < q * b + b
    ensures a < 0 ==> q <= 0 && a <= q * b < a + b
  {
    if 0 <= a then a / b else -((-a) / b)
  }

  /** `int(n * ratio)` (lines 9-10). */
  function PartCount(n: nat, r: Ratio): int
    requires r.den > 0
  {
    TruncDiv(n * r.num, r.den)
  }

  /** How Python turns a slice bound into an index of a list of length `n`. */
  function SliceBound(i: int, n: nat): (k: nat)
    ensures k <= n
  {
    if i < 0 then (if 0 <= i + n then i + n else 0)
    else if i <= n then i
    else n
  }

  /** Python's `s[i:j]`: never out of range, empty when the bounds cross. */
  function Slice<T>(s: seq<T>, i: int, j: int): (r: seq<T>)
    ensures |r| <= |s|
  {
    var a, b := SliceBound(i, |s|), SliceBound(j, |s|);
    if a < b then s[a..b] else []
  }

  /** For bounds that are not negative, three consecutive slices give back the list. */
  lemma SlicesCover<T>(s: seq<T>, t: int, v: int)
    requires 0 <= t && 0 <= v
    ensures Slice(s, 0, t) + Slice(s, t, t + v) + Slice(s, t + v, |s|) == s
    ensures |Slice(s, 0, t)| == (if t <= |s| then t else |s|)
    ensures |Slice(s, t, t + v)| == (if t + v <= |s| then t + v else |s|) - (if t <= |s| then t else |s|)
  {
    var n := |s|;
    var a := if t <= n then t else n;
    var b := if t + v <= n then t + v else n;
    assert Slice(s, 0, t) == s[..a];
    assert Slice(s, t, t + v) == s[a..b];
    assert Slice(s, t + v, n) == s[b..];
    assert s[..a] + s[a..b] + s[b..] == s;
  }

  datatype Part = Train | Val | Test

  /** The folder of a part; `parts` iterates in insertion order train, val, test. */
  function PartDir(k: Part): string {
    match k
    case Train => "train"
    case Val => "val"
    case Test => "test"
  }

  datatype Parts = Parts(train: seq<Name>, val: seq<Name>, test: seq<Name>) {
    function Of(k: Part): seq<Name> {
      match k
      case Train => train
      case Val => val
      case Test => test
    }
  }

  /** Lines 8-16: `imgs[:t]`, `imgs[t:t+v]`, `imgs[t+v:]`. */
  function Cut(imgs: seq<Name>, train: Ratio, val: Ratio): Parts
    requires train.den > 0 && val.den > 0
  {
    var t := PartCount(|imgs|, train);
    var v := PartCount(|imgs|, val);
    Parts(Slice(imgs, 0, t), Slice(imgs, t, t + v), Slice(imgs, t + v, |imgs|))
  }

  /** Ratios in [0, 1] whose sum is at most 1. */
  predicate ProperRatios(train: Ratio, val: Ratio) {
    && 0 < train.den && 0 < val.den
    && 0 <= train.num && 0 <= val.num
    && train.num * val.den + val.num * train.den <= train.den * val.den
  }

  /**
   * Whatever the ratios, when neither count is negative the three parts
   * concatenate back to the shuffled list, so every image lands in one
   * part and, the names being distinct, in exactly one.
   */
  lemma CutPartitions(imgs: seq<Name>, train: Ratio, val: Ratio)
    requires train.den > 0 && val.den > 0
    requires 0 <= PartCount(|imgs|, train) && 0 <= PartCount(|imgs|, val)
    requires Distinct(imgs)
    ensures var p := Cut(imgs, train, val);
      && p.train + p.val + p.test == imgs
      && (forall n :: n in imgs <==> n in p.train || n in p.val || n in p.test)
      && (forall n :: !(n in p.train && n in p.val))
      && (forall n :: !(n in p.train && n in p.test))
      && (forall n :: !(n in p.val && n in p.test))
  {
    SlicesCover(imgs, PartCount(|imgs|, train), PartCount(|imgs|, val));
    ThreeWayPartition(imgs, Cut(imgs, train, val));
  }

  /** Three lists that concatenate to a list of distinct names split its names between them. */
  lemma ThreeWayPartition(imgs: seq<Name>, p: Parts)
    requires p.train + p.val + p.test == imgs
    requires Distinct(imgs)
    ensures forall n :: n in imgs <==> n in p.train || n in p.val || n in p.test
    ensures forall n :: !(n in p.train && n in p.val)
    ensures forall n :: !(n in p.train && n in p.test)
    ensures forall n :: !(n in p.val && n in p.test)
  {
    assert p.train + (p.val + p.test) == imgs;
    forall n ensures n in imgs <==> n in p.train || n in p.val || n in p.test {
      assert n in p.train + (p.val + p.test) <==> n in p.train || n in p.val + p.test;
    }
    DistinctConcatDisjoint(p.train, p.val + p.test);
    DistinctConcatDisjoint(p.val, p.test);
  }

  lemma DistinctConcatDisjoint(a: seq<Name>, b: seq<Name>)
    requires Distinct(a + b)
    ensures Distinct(b)
    ensures forall n :: !(n in a && n in b)
  {
    forall i, j | 0 <= i < |a| && 0 <= j < |b| ensures a[i] != b[j] {
      assert (a + b)[i] != (a + b)[|a| + j];
    }
    forall i, j | 0 <= i < j < |b| ensures b[i] != b[j] {
      assert (a + b)[|a| + i] != (a + b)[|a| + j];
    }
  }

  /**
   * With ratios in [0, 1] summing to at most 1, the parts have exactly
   * floor(n * train), floor(n * val) and the rest of the images.
   */
  lemma CutSizes(imgs: seq<Name>, train: Ratio, val: Ratio)
    requires ProperRatios(train, val)
    ensures var p := Cut(imgs, train, val);
      && |p.train| == |imgs| * train.num / train.den
      && |p.val| == |imgs| * val.num / val.den
      && |p.test| == |imgs| - |p.train| - |p.val|
  {
    var n := |imgs|;
    var t := PartCount(n, train);
    var v := PartCount(n, val);
    SumOfCountsBound(n, t, v, train, val);
    SlicesCover(imgs, t, v);
  }

  /** floor(n * train) + floor(n * val) never exceeds n for proper ratios. */
  lemma SumOfCountsBound(n: nat, t: int, v: int, train: Ratio, val: Ratio)
    requires ProperRatios(train, val)
    requires t == PartCount(n, train) && v == PartCount(n, val)
    ensures 0 <= t && 0 <= v && t + v <= n
    ensures t == n * train.num / train.den && v == n * val.num / val.den
  {
    var tn, td, vn, vd := train.num, train.den, val.num, val.den;
    assert 0 <= n * tn && 0 <= n * vn;
    assert t * td <= n * tn;
    assert v * vd <= n * vn;
    SumBound(n, t, v, tn, td, vn, vd);
  }

  lemma SumBound(n: nat, t: int, v: int, tn: int, td: int, vn: int, vd: int)
    requires 0 < td && 0 < vd
    requires t * td <= n * tn && v * vd <= n * vn
    requires tn * vd + vn * td <= td * vd
    ensures t + v <= n
  {
    calc {
      (t + v) * (td * vd);
    ==
      (t * td) * vd + (v * vd) * td;
    <= { MulLeMonotone(t * td, n * tn, vd); MulLeMonotone(v * vd, n * vn, td); }
      (n * tn) * vd + (n * vn) * td;
    ==
      n * (tn * vd + vn * td);
    <= { MulLeMonotone(tn * vd + vn * td, td * vd, n); }
      n * (td * vd);
    }
    if t + v > n {
      MulLtMonotone(n, t + v, td * vd);
    }
  }

  lemma MulLeMonotone(a: int, b: int, c: nat)
    requires a <= b
    ensures a * c <= b * c
  {
  }

  lemma MulLtMonotone(a: int, b: int, c: int)
    requires a < b && 0 < c
    ensures a * c < b * c
  {
  }

  /** The two cases the splitter's behaviour is usually checked on. */
  lemma DefaultCutExamples(seven: seq<Name>, hundred: seq<Name>)
    requires |seven| == 7 && |hundred| == 100
    ensures var p := Cut(seven, DefaultTrain, DefaultVal); |p.train| == 5 && |p.val| == 0 && |p.test| == 2
    ensures var p := Cut(hundred, DefaultTrain, DefaultVal); |p.train| == 80 && |p.val| == 10 && |p.test| == 10
  {
    CutSizes(seven, DefaultTrain, DefaultVal);
    CutSizes(hundred, DefaultTrain, DefaultVal);
  }

  // ---------------------------------------------------------------------
  // Where things are copied (lines 18-26)
  // ---------------------------------------------------------------------

  function ImageSrc(source: Path, n: Name): Path {
    source + ["images", n]
  }

  /** `p.stem + ".txt"`. */
  function LabelName(n: Name): Name {
    Stem(n) + ".txt"
  }

  function LabelSrc(source: Path, n: Name): Path {
    source + ["labels", LabelName(n)]
  }

  function ImageDst(target: Path, k: Part, n: Name): Path {
    target + [PartDir(k), "images", n]
  }

  function LabelDst(target: Path, k: Part, n: Name): Path {
    target + [PartDir(k), "labels", LabelName(n)]
  }

  /** Lines 23-26 for one image: copy it, then its label if that exists now. */
  function CopyImage(m: map<Path, Bytes>, source: Path, target: Path, k: Part, n: Name): (r: map<Path, Bytes>)
    requires ImageSrc(source, n) in m
    ensures m.Keys <= r.Keys
  {
    var m1 := m[ImageDst(target, k, n) := m[ImageSrc(source, n)]];
    if LabelSrc(source, n) in m1 then m1[LabelDst(target, k, n) := m1[LabelSrc(source, n)]] else m1
  }

  /** Lines 22-26: the images of one part, in list order. */
  function CopyPart(m: map<Path, Bytes>, source: Path, target: Path, k: Part, names: seq<Name>): (r: map<Path, Bytes>)
    requires forall n :: n in names ==> ImageSrc(source, n) in m
    ensures m.Keys <= r.Keys
    decreases |names|
  {
    if names == [] then m
    else
      var prev := CopyPart(m, source, target, k, names[..|names| - 1]);
      CopyImage(prev, source, target, k, names[|names| - 1])
  }

  predicate ImagesPresent(m: map<Path, Bytes>, source: Path, parts: Parts) {
    forall k: Part, n :: n in parts.Of(k) ==> ImageSrc(source, n) in m
  }

  /** Lines 18-26: the parts in the order train, val, test. */
  function CopyAll(m: map<Path, Bytes>, source: Path, target: Path, parts: Parts): (r: map<Path, Bytes>)
    requires ImagesPresent(m, source, parts)
    ensures m.Keys <= r.Keys
  {
    assert forall n :: n in parts.train ==> ImageSrc(source, n) in m by {
      assert parts.train == parts.Of(Train);
    }
    var r1 := CopyPart(m, source, target, Train, parts.train);
    assert forall n :: n in parts.val ==> ImageSrc(source, n) in r1 by {
      assert parts.val == parts.Of(Val);
    }
    var r2 := CopyPart(r1, source, target, Val, parts.val);
    assert forall n :: n in parts.test ==> ImageSrc(source, n) in r2 by {
      assert parts.test == parts.Of(Test);
    }
    CopyPart(r2, source, target, Test, parts.test)
  }

  /** The part folder `target/k` holds every destination of part `k`. */
  lemma DestinationUnderPart(target: Path, k: Part, sub: string, n: Name)
    ensures IsPrefix(target + [PartDir(k)], target + [PartDir(k), sub, n])
    ensures forall j: Part :: j != k ==> !IsPrefix(target + [PartDir(j)], target + [PartDir(k), sub, n])
  {
    assert (target + [PartDir(k), sub, n])[..|target| + 1] == target + [PartDir(k)];
    forall j: Part | j != k ensures !IsPrefix(target + [PartDir(j)], target + [PartDir(k), sub, n]) {
      assert (target + [PartDir(j)])[|target|] != (target + [PartDir(k), sub, n])[|target|];
    }
  }

  /** Different images of one part land on different paths. */
  lemma ImageDstInjective(target: Path, k: Part, n: Name, n': Name)
    requires n != n'
    ensures ImageDst(target, k, n) != ImageDst(target, k, n')
  {
    assert ImageDst(target, k, n)[|target| + 2] == n;
    assert ImageDst(target, k, n')[|target| + 2] == n';
  }

  /** Images and labels go to different sub-folders. */
  lemma ImageLabelDistinct(target: Path, k: Part, n: Name, j: Part, n': Name)
    ensures ImageDst(target, k, n) != LabelDst(target, j, n')
  {
    assert ImageDst(target, k, n)[|target| + 1] != LabelDst(target, j, n')[|target| + 1];
  }

  /** `q` lies outside the folder `target/k` of part `k`. */
  predicate Outside(target: Path, k: Part, q: Path) {
    !IsPrefix(target + [PartDir(k)], q)
  }

  /** One image of lines 23-26, when its sources are still as in `m`. */
  lemma CopyImageEffect(m: map<Path, Bytes>, prev: map<Path, Bytes>, source: Path, target: Path, k: Part, x: Name)
    requires ImageSrc(source, x) in prev
    requires Apart(source, target)
    requires Same(m, prev, ImageSrc(source, x)) && Same(m, prev, LabelSrc(source, x))
    ensures var r := CopyImage(prev, source, target, k, x);
      && (forall q :: q != ImageDst(target, k, x) && q != LabelDst(target, k, x) ==> Same(prev, r, q))
      && (LabelSrc(source, x) !in m ==> Same(prev, r, LabelDst(target, k, x)))
      && ImageDst(target, k, x) in r && r[ImageDst(target, k, x)] == m[ImageSrc(source, x)]
      && (LabelSrc(source, x) in m ==> LabelDst(target, k, x) in r && r[LabelDst(target, k, x)] == m[LabelSrc(source, x)])
  {
    var img, lbl, src, ls := ImageDst(target, k, x), LabelDst(target, k, x), ImageSrc(source, x), LabelSrc(source, x);
    assert ls != img by {
      ApartExtended(source, target, ["labels", LabelName(x)], [PartDir(k), "images", x]);
    }
    assert img != lbl by {
      ImageLabelDistinct(target, k, x, k, x);
    }
    CopyPairEffect(prev, src, ls, img, lbl);
  }

  /**
   * Copying `src` to `img` and then, when present, `ls` to `lbl`, when the
   * label source src not the image destination.
   */
  lemma CopyPairEffect(prev: map<Path, Bytes>, src: Path, ls: Path, img: Path, lbl: Path)
    requires src in prev && ls != img && img != lbl
    ensures var m1 := prev[img := prev[src]];
      var r := if ls in m1 then m1[lbl := m1[ls]] else m1;
      && (forall q :: q != img && q != lbl ==> Same(prev, r, q))
      && (ls !in prev ==> Same(prev, r, lbl))
      && img in r && r[img] == prev[src]
      && (ls in prev ==> lbl in r && r[lbl] == prev[ls])
  {
  }

  /** Two images share a label destination only when they share a stem. */
  lemma LabelDstInjective(target: Path, k: Part, n: Name, x: Name)
    requires LabelDst(target, k, n) == LabelDst(target, k, x)
    ensures LabelName(n) == LabelName(x)
  {
    assert LabelDst(target, k, n)[|target| + 2] == LabelDst(target, k, x)[|target| + 2];
  }

  /** Which destinations of other images one image's copy leaves alone. */
  lemma CopyImageFrame(m: map<Path, Bytes>, prev: map<Path, Bytes>, source: Path, target: Path, k: Part, x: Name)
    requires ImageSrc(source, x) in prev
    requires Apart(source, target)
    requires Same(m, prev, ImageSrc(source, x)) && Same(m, prev, LabelSrc(source, x))
    ensures var r := CopyImage(prev, source, target, k, x);
      && (forall n :: n != x ==> Same(prev, r, ImageDst(target, k, n)))
      && (forall n :: LabelSrc(source, n) !in m ==> Same(prev, r, LabelDst(target, k, n)))
      && (forall n :: LabelDst(target, k, n) != LabelDst(target, k, x) ==> Same(prev, r, LabelDst(target, k, n)))
  {
    CopyImageEffect(m, prev, source, target, k, x);
    forall n | n != x ensures ImageDst(target, k, n) != ImageDst(target, k, x) && ImageDst(target, k, n) != LabelDst(target, k, x) {
      ImageDstInjective(target, k, n, x);
      ImageLabelDistinct(target, k, n, k, x);
    }
    forall n ensures LabelDst(target, k, n) != ImageDst(target, k, x) {
      ImageLabelDistinct(target, k, x, k, n);
    }
    forall n | LabelDst(target, k, n) == LabelDst(target, k, x) ensures LabelSrc(source, n) == LabelSrc(source, x) {
      LabelDstInjective(target, k, n, x);
    }
  }

  /** Every destination of part `k` lies inside `target/k`. */
  lemma DestinationsInside(target: Path, k: Part, x: Name)
    ensures !Outside(target, k, ImageDst(target, k, x)) && !Outside(target, k, LabelDst(target, k, x))
  {
    DestinationUnderPart(target, k, "images", x);
    DestinationUnderPart(target, k, "labels", LabelName(x));
  }

  /** The sources of an image lie outside every part folder. */
  lemma SourcesOutside(source: Path, target: Path, k: Part, x: Name)
    requires Apart(source, target)
    ensures Outside(target, k, ImageSrc(source, x)) && Outside(target, k, LabelSrc(source, x))
  {
    ApartExtended(source, target, ["images", x], [PartDir(k)]);
    ApartExtended(source, target, ["labels", LabelName(x)], [PartDir(k)]);
  }

  /** No image of `names` has `q` as its image or label destination in part `k`. */
  ghost predicate NotDestination(target: Path, k: Part, names: seq<Name>, q: Path) {
    forall x :: x in names ==> q != ImageDst(target, k, x) && q != LabelDst(target, k, x)
  }

  /** A label whose stem no image of part `k` has is no destination of that part. */
  lemma StemLabelNotDestination(target: Path, k: Part, names: seq<Name>, n: Name)
    requires forall x :: x in names ==> LabelName(x) != LabelName(n)
    ensures NotDestination(target, k, names, LabelDst(target, k, n))
  {
    forall x | x in names
      ensures LabelDst(target, k, n) != ImageDst(target, k, x) && LabelDst(target, k, n) != LabelDst(target, k, x)
    {
      ImageLabelDistinct(target, k, x, k, n);
      if LabelDst(target, k, n) == LabelDst(target, k, x) {
        LabelDstInjective(target, k, n, x);
      }
    }
  }

  /** A label destination of part `k` is no destination of another part. */
  lemma OtherPartLabelNotDestination(target: Path, k: Part, j: Part, names: seq<Name>, n: Name)
    requires j != k
    ensures NotDestination(target, j, names, LabelDst(target, k, n))
  {
    OtherPartOutside(target, k, j, n);
    forall x | x in names
      ensures LabelDst(target, k, n) != ImageDst(target, j, x) && LabelDst(target, k, n) != LabelDst(target, j, x)
    {
      DestinationsInside(target, j, x);
    }
  }

  /**
   * Lines 22-26 on one part: each image is copied to
   * `target/k/images/<name>` and each existing label to
   * `target/k/labels/<stem>.txt`; nothing outside `target/k` changes.
   */
  lemma CopyPartEffect(m: map<Path, Bytes>, source: Path, target: Path, k: Part, names: seq<Name>)
    requires Apart(source, target)
    requires forall n :: n in names ==> ImageSrc(source, n) in m
    ensures var r := CopyPart(m, source, target, k, names);
      && (forall q :: Outside(target, k, q) ==> Same(m, r, q))
      && (forall n :: n !in names ==> Same(m, r, ImageDst(target, k, n)))
      && (forall n :: LabelSrc(source, n) !in m ==> Same(m, r, LabelDst(target, k, n)))
      && (forall n :: n in names ==> ImageDst(target, k, n) in r && r[ImageDst(target, k, n)] == m[ImageSrc(source, n)])
      && (forall n :: n in names && LabelSrc(source, n) in m ==>
            LabelDst(target, k, n) in r && r[LabelDst(target, k, n)] == m[LabelSrc(source, n)])
  {
    CopyPartFrame(m, source, target, k, names);
    CopyPartWrites(m, source, target, k, names);
  }

  /**
   * Lines 22-26 on one part: only the destinations of its images change.
   * Whatever lies outside `target/k`, the image path of a name not in the
   * part, the label path of a missing label and the label path of a stem
   * no image of the part has all keep their contents.
   */
  lemma CopyPartFrame(m: map<Path, Bytes>, source: Path, target: Path, k: Part, names: seq<Name>)
    requires Apart(source, target)
    requires forall n :: n in names ==> ImageSrc(source, n) in m
    ensures var r := CopyPart(m, source, target, k, names);
      && (forall q :: NotDestination(target, k, names, q) ==> Same(m, r, q))
      && (forall q :: Outside(target, k, q) ==> Same(m, r, q))
      && (forall n :: n !in names ==> Same(m, r, ImageDst(target, k, n)))
      && (forall n :: LabelSrc(source, n) !in m ==> Same(m, r, LabelDst(target, k, n)))
      && (forall n :: (forall x :: x in names ==> LabelName(x) != LabelName(n)) ==> Same(m, r, LabelDst(target, k, n)))
  {
    CopyPartOnlyDestinations(m, source, target, k, names);
    CopyPartAbsentLabels(m, source, target, k, names);
    forall q | Outside(target, k, q)
      ensures NotDestination(target, k, names, q)
    {
      OutsideNotDestination(target, k, names, q);
    }
    forall n | n !in names
      ensures NotDestination(target, k, names, ImageDst(target, k, n))
    {
      forall x | x in names
        ensures ImageDst(target, k, n) != ImageDst(target, k, x) && ImageDst(target, k, n) != LabelDst(target, k, x)
      {
        ImageDstInjective(target, k, n, x);
        ImageLabelDistinct(target, k, n, k, x);
      }
    }
    forall n | forall x :: x in names ==> LabelName(x) != LabelName(n)
      ensures NotDestination(target, k, names, LabelDst(target, k, n))
    {
      StemLabelNotDestination(target, k, names, n);
    }
  }

  /** Nothing outside `target/k` is a destination of part `k`. */
  lemma OutsideNotDestination(target: Path, k: Part, names: seq<Name>, q: Path)
    requires Outside(target, k, q)
    ensures NotDestination(target, k, names, q)
  {
    forall x | x in names
      ensures q != ImageDst(target, k, x) && q != LabelDst(target, k, x)
    {
      DestinationsInside(target, k, x);
    }
  }

  /** Lines 22-26 on one part: a path that is no destination of its images keeps its contents. */
  lemma {:induction false} CopyPartOnlyDestinations(m: map<Path, Bytes>, source: Path, target: Path, k: Part, names: seq<Name>)
    requires Apart(source, target)
    requires forall n :: n in names ==> ImageSrc(source, n) in m
    ensures var r := CopyPart(m, source, target, k, names);
      forall q :: NotDestination(target, k, names, q) ==> Same(m, r, q)
    decreases |names|
  {
    if names != [] {
      var init, x := names[..|names| - 1], names[|names| - 1];
      assert names == init + [x];
      var prev := CopyPart(m, source, target, k, init);
      var r := CopyImage(prev, source, target, k, x);
      assert r == CopyPart(m, source, target, k, names);
      CopyPartOnlyDestinations(m, source, target, k, init);
      SourcesOutside(source, target, k, x);
      OutsideNotDestination(target, k, init, ImageSrc(source, x));
      OutsideNotDestination(target, k, init, LabelSrc(source, x));
      CopyImageEffect(m, prev, source, target, k, x);
      forall q | NotDestination(target, k, names, q)
        ensures Same(m, r, q)
      {
        assert NotDestination(target, k, init, q);
        assert Same(m, prev, q) && Same(prev, r, q);
      }
    }
  }

  /** Lines 24-26 on one part: a label missing from the source is never written. */
  lemma {:induction false} CopyPartAbsentLabels(m: map<Path, Bytes>, source: Path, target: Path, k: Part, names: seq<Name>)
    requires Apart(source, target)
    requires forall n :: n in names ==> ImageSrc(source, n) in m
    ensures var r := CopyPart(m, source, target, k, names);
      forall n :: LabelSrc(source, n) !in m ==> Same(m, r, LabelDst(target, k, n))
    decreases |names|
  {
    if names != [] {
      var init, x := names[..|names| - 1], names[|names| - 1];
      assert names == init + [x];
      var prev := CopyPart(m, source, target, k, init);
      var r := CopyImage(prev, source, target, k, x);
      assert r == CopyPart(m, source, target, k, names);
      CopyPartAbsentLabels(m, source, target, k, init);
      CopyPartOnlyDestinations(m, source, target, k, init);
      SourcesOutside(source, target, k, x);
      OutsideNotDestination(target, k, init, ImageSrc(source, x));
      OutsideNotDestination(target, k, init, LabelSrc(source, x));
      CopyImageFrame(m, prev, source, target, k, x);
    }
  }

  /** Lines 22-26 on one part: each image and each existing label reaches its destination with its bytes. */
  lemma {:induction false} CopyPartWrites(m: map<Path, Bytes>, source: Path, target: Path, k: Part, names: seq<Name>)
    requires Apart(source, target)
    requires forall n :: n in names ==> ImageSrc(source, n) in m
    ensures var r := CopyPart(m, source, target, k, names);
      && (forall n :: n in names ==> ImageDst(target, k, n) in r && r[ImageDst(target, k, n)] == m[ImageSrc(source, n)])
      && (forall n :: n in names && LabelSrc(source, n) in m ==>
            LabelDst(target, k, n) in r && r[LabelDst(target, k, n)] == m[LabelSrc(source, n)])
    decreases |names|
  {
    if names != [] {
      var init, x := names[..|names| - 1], names[|names| - 1];
      assert names == init + [x];
      var prev := CopyPart(m, source, target, k, init);
      var r := CopyImage(prev, source, target, k, x);
      assert r == CopyPart(m, source, target, k, names);
      CopyPartWrites(m, source, target, k, init);
      assert Same(m, prev, ImageSrc(source, x)) && Same(m, prev, LabelSrc(source, x)) by {
        CopyPartFrame(m, source, target, k, init);
        SourcesOutside(source, target, k, x);
      }
      CopyImageEffect(m, prev, source, target, k, x);
      CopyImageFrame(m, prev, source, target, k, x);
      forall n | n in names
        ensures ImageDst(target, k, n) in r && r[ImageDst(target, k, n)] == m[ImageSrc(source, n)]
      {
        if n != x {
          assert n in init;
        }
      }
      forall n | n in names && LabelSrc(source, n) in m
        ensures LabelDst(target, k, n) in r && r[LabelDst(target, k, n)] == m[LabelSrc(source, n)]
      {
        if LabelDst(target, k, n) != LabelDst(target, k, x) {
          assert n in init;
        } else {
          LabelDstInjective(target, k, n, x);
        }
      }
    }
  }

  /** Nothing outside `target` lies inside one of its part folders. */
  lemma OutsideTarget(target: Path, k: Part, q: Path)
    requires !IsPrefix(target, q)
    ensures Outside(target, k, q)
  {
    if |target| + 1 <= |q| {
      assert q[..|target|] == q[..|target| + 1][..|target|];
    }
  }

  /** Part `j`'s destinations lie outside the folder of every other part. */
  lemma OtherPartOutside(target: Path, k: Part, j: Part, n: Name)
    requires j != k
    ensures Outside(target, j, ImageDst(target, k, n)) && Outside(target, j, LabelDst(target, k, n))
  {
    DestinationUnderPart(target, k, "images", n);
    DestinationUnderPart(target, k, "labels", LabelName(n));
  }

  /**
   * Lines 18-26 as a whole: nothing outside `target` changes (the source
   * dataset included), each image of part `k` is in `target/k/images` with
   * its bytes, each existing label in `target/k/labels`, and no other
   * path changes: an image of no part `k` is not written into
   * `target/k/images`, nor a label of a stem no image of part `k` has into
   * `target/k/labels`.
   */
  lemma CopyAllEffect(m: map<Path, Bytes>, source: Path, target: Path, parts: Parts)
    requires Apart(source, target)
    requires ImagesPresent(m, source, parts)
    ensures var r := CopyAll(m, source, target, parts);
      && (forall q :: !IsPrefix(target, q) ==> Same(m, r, q))
      && (forall k: Part, n :: n in parts.Of(k) ==> ImageDst(target, k, n) in r && r[ImageDst(target, k, n)] == m[ImageSrc(source, n)])
      && (forall k: Part, n :: n in parts.Of(k) && LabelSrc(source, n) in m ==>
            LabelDst(target, k, n) in r && r[LabelDst(target, k, n)] == m[LabelSrc(source, n)])
      && (forall k: Part, n :: n !in parts.Of(k) ==> Same(m, r, ImageDst(target, k, n)))
      && (forall k: Part, n :: LabelSrc(source, n) !in m ==> Same(m, r, LabelDst(target, k, n)))
      && (forall k: Part, n :: (forall x :: x in parts.Of(k) ==> LabelName(x) != LabelName(n)) ==> Same(m, r, LabelDst(target, k, n)))
      && (forall q :: (forall k: Part :: NotDestination(target, k, parts.Of(k), q)) ==> Same(m, r, q))
  {
    CopyAllOnlyDestinations(m, source, target, parts);
    CopyAllFrame(m, source, target, parts);
    CopyAllWrites(m, source, target, parts);
    CopyAllSkips(m, source, target, parts);
  }

  /** The three parts copied one after the other, each from the map the previous one left. */
  lemma CopyAllStages(m: map<Path, Bytes>, source: Path, target: Path, parts: Parts)
    returns (r1: map<Path, Bytes>, r2: map<Path, Bytes>)
    requires Apart(source, target)
    requires ImagesPresent(m, source, parts)
    ensures forall n :: n in parts.train ==> ImageSrc(source, n) in m
    ensures r1 == CopyPart(m, source, target, Train, parts.train)
    ensures forall n :: n in parts.val ==> ImageSrc(source, n) in r1
    ensures r2 == CopyPart(r1, source, target, Val, parts.val)
    ensures forall n :: n in parts.test ==> ImageSrc(source, n) in r2
    ensures CopyAll(m, source, target, parts) == CopyPart(r2, source, target, Test, parts.test)
    ensures forall n ::
      && Same(m, r1, ImageSrc(source, n)) && Same(m, r1, LabelSrc(source, n))
      && Same(r1, r2, ImageSrc(source, n)) && Same(r1, r2, LabelSrc(source, n))
  {
    assert parts.train == parts.Of(Train) && parts.val == parts.Of(Val) && parts.test == parts.Of(Test);
    r1 := CopyPart(m, source, target, Train, parts.train);
    CopyPartEffect(m, source, target, Train, parts.train);
    r2 := CopyPart(r1, source, target, Val, parts.val);
    CopyPartEffect(r1, source, target, Val, parts.val);
    forall n ensures Same(m, r1, ImageSrc(source, n)) && Same(m, r1, LabelSrc(source, n))
      && Same(r1, r2, ImageSrc(source, n)) && Same(r1, r2, LabelSrc(source, n))
    {
      SourcesOutside(source, target, Train, n);
      SourcesOutside(source, target, Val, n);
    }
  }

  /** Lines 18-26: nothing outside `target` changes. */
  lemma CopyAllFrame(m: map<Path, Bytes>, source: Path, target: Path, parts: Parts)
    requires Apart(source, target)
    requires ImagesPresent(m, source, parts)
    ensures forall q :: !IsPrefix(target, q) ==> Same(m, CopyAll(m, source, target, parts), q)
  {
    var r1, r2 := CopyAllStages(m, source, target, parts);
    var r := CopyAll(m, source, target, parts);
    assert forall q :: Outside(target, Train, q) ==> Same(m, r1, q) by {
      CopyPartEffect(m, source, target, Train, parts.train);
    }
    assert forall q :: Outside(target, Val, q) ==> Same(r1, r2, q) by {
      CopyPartEffect(r1, source, target, Val, parts.val);
    }
    assert forall q :: Outside(target, Test, q) ==> Same(r2, r, q) by {
      CopyPartEffect(r2, source, target, Test, parts.test);
    }
    forall q | !IsPrefix(target, q) ensures Same(m, r, q) {
      OutsideTarget(target, Train, q);
      OutsideTarget(target, Val, q);
      OutsideTarget(target, Test, q);
    }
  }

  /** Lines 18-26: every image of a part, and its label when there is one, lands in the part's folders. */
  lemma CopyAllWrites(m: map<Path, Bytes>, source: Path, target: Path, parts: Parts)
    requires Apart(source, target)
    requires ImagesPresent(m, source, parts)
    ensures var r := CopyAll(m, source, target, parts);
      && (forall k: Part, n :: n in parts.Of(k) ==> ImageDst(target, k, n) in r && r[ImageDst(target, k, n)] == m[ImageSrc(source, n)])
      && (forall k: Part, n :: n in parts.Of(k) && LabelSrc(source, n) in m ==>
            LabelDst(target, k, n) in r && r[LabelDst(target, k, n)] == m[LabelSrc(source, n)])
  {
    var r1, r2 := CopyAllStages(m, source, target, parts);
    var r := CopyAll(m, source, target, parts);
    assert parts.train == parts.Of(Train) && parts.val == parts.Of(Val) && parts.test == parts.Of(Test);
    assert forall n :: n in parts.train ==>
      && ImageDst(target, Train, n) in r1 && r1[ImageDst(target, Train, n)] == m[ImageSrc(source, n)]
      && (LabelSrc(source, n) in m ==> LabelDst(target, Train, n) in r1 && r1[LabelDst(target, Train, n)] == m[LabelSrc(source, n)]) by {
      CopyPartEffect(m, source, target, Train, parts.train);
    }
    assert forall n :: n in parts.val ==>
      && ImageDst(target, Val, n) in r2 && r2[ImageDst(target, Val, n)] == r1[ImageSrc(source, n)]
      && (LabelSrc(source, n) in r1 ==> LabelDst(target, Val, n) in r2 && r2[LabelDst(target, Val, n)] == r1[LabelSrc(source, n)]) by {
      CopyPartEffect(r1, source, target, Val, parts.val);
    }
    assert forall n :: n in parts.test ==>
      && ImageDst(target, Test, n) in r && r[ImageDst(target, Test, n)] == r2[ImageSrc(source, n)]
      && (LabelSrc(source, n) in r2 ==> LabelDst(target, Test, n) in r && r[LabelDst(target, Test, n)] == r2[LabelSrc(source, n)]) by {
      CopyPartEffect(r2, source, target, Test, parts.test);
    }
    assert forall q :: Outside(target, Val, q) ==> Same(r1, r2, q) by {
      CopyPartEffect(r1, source, target, Val, parts.val);
    }
    assert forall q :: Outside(target, Test, q) ==> Same(r2, r, q) by {
      CopyPartEffect(r2, source, target, Test, parts.test);
    }
    forall k: Part, n | n in parts.Of(k)
      ensures ImageDst(target, k, n) in r && r[ImageDst(target, k, n)] == m[ImageSrc(source, n)]
    {
      PartLater(r1, r2, r, target, k, ImageDst(target, k, n), n, false);
    }
    forall k: Part, n | n in parts.Of(k) && LabelSrc(source, n) in m
      ensures LabelDst(target, k, n) in r && r[LabelDst(target, k, n)] == m[LabelSrc(source, n)]
    {
      PartLater(r1, r2, r, target, k, LabelDst(target, k, n), n, true);
    }
  }

  /** Lines 18-26: a path that is no destination of any part's images keeps its contents. */
  lemma CopyAllOnlyDestinations(m: map<Path, Bytes>, source: Path, target: Path, parts: Parts)
    requires Apart(source, target)
    requires ImagesPresent(m, source, parts)
    ensures var r := CopyAll(m, source, target, parts);
      forall q :: (forall k: Part :: NotDestination(target, k, parts.Of(k), q)) ==> Same(m, r, q)
  {
    var r1, r2 := CopyAllStages(m, source, target, parts);
    var r := CopyAll(m, source, target, parts);
    assert parts.train == parts.Of(Train) && parts.val == parts.Of(Val) && parts.test == parts.Of(Test);
    CopyPartOnlyDestinations(m, source, target, Train, parts.train);
    CopyPartOnlyDestinations(r1, source, target, Val, parts.val);
    CopyPartOnlyDestinations(r2, source, target, Test, parts.test);
    forall q | forall k: Part :: NotDestination(target, k, parts.Of(k), q)
      ensures Same(m, r, q)
    {
      assert NotDestination(target, Train, parts.Of(Train), q);
      assert NotDestination(target, Val, parts.Of(Val), q);
      assert NotDestination(target, Test, parts.Of(Test), q);
      assert Same(m, r1, q) && Same(r1, r2, q) && Same(r2, r, q);
    }
  }

  /** Lines 18-26: no label lands in `target/k/labels` unless part `k` has an image of that stem. */
  lemma CopyAllStemLabels(m: map<Path, Bytes>, source: Path, target: Path, parts: Parts)
    requires Apart(source, target)
    requires ImagesPresent(m, source, parts)
    ensures var r := CopyAll(m, source, target, parts);
      forall k: Part, n :: (forall x :: x in parts.Of(k) ==> LabelName(x) != LabelName(n)) ==> Same(m, r, LabelDst(target, k, n))
  {
    CopyAllOnlyDestinations(m, source, target, parts);
    forall k: Part, n | forall x :: x in parts.Of(k) ==> LabelName(x) != LabelName(n)
      ensures forall j: Part :: NotDestination(target, j, parts.Of(j), LabelDst(target, k, n))
    {
      forall j: Part
        ensures NotDestination(target, j, parts.Of(j), LabelDst(target, k, n))
      {
        if j == k {
          StemLabelNotDestination(target, k, parts.Of(k), n);
        } else {
          OtherPartLabelNotDestination(target, k, j, parts.Of(j), n);
        }
      }
    }
  }

  /**
   * Lines 18-26: an image of no part `k`, a missing label, or a label whose
   * stem no image of part `k` has, is not written into `target/k`.
   */
  lemma CopyAllSkips(m: map<Path, Bytes>, source: Path, target: Path, parts: Parts)
    requires Apart(source, target)
    requires ImagesPresent(m, source, parts)
    ensures var r := CopyAll(m, source, target, parts);
      && (forall k: Part, n :: n !in parts.Of(k) ==> Same(m, r, ImageDst(target, k, n)))
      && (forall k: Part, n :: LabelSrc(source, n) !in m ==> Same(m, r, LabelDst(target, k, n)))
      && (forall k: Part, n :: (forall x :: x in parts.Of(k) ==> LabelName(x) != LabelName(n)) ==> Same(m, r, LabelDst(target, k, n)))
  {
    CopyAllStemLabels(m, source, target, parts);
    var r1, r2 := CopyAllStages(m, source, target, parts);
    var r := CopyAll(m, source, target, parts);
    assert forall q :: Outside(target, Train, q) ==> Same(m, r1, q) by {
      CopyPartEffect(m, source, target, Train, parts.train);
    }
    assert forall q :: Outside(target, Val, q) ==> Same(r1, r2, q) by {
      CopyPartEffect(r1, source, target, Val, parts.val);
    }
    assert forall q :: Outside(target, Test, q) ==> Same(r2, r, q) by {
      CopyPartEffect(r2, source, target, Test, parts.test);
    }
    assert forall n ::
      && (n !in parts.train ==> Same(m, r1, ImageDst(target, Train, n)))
      && (LabelSrc(source, n) !in m ==> Same(m, r1, LabelDst(target, Train, n))) by {
      CopyPartEffect(m, source, target, Train, parts.train);
    }
    assert forall n ::
      && (n !in parts.val ==> Same(r1, r2, ImageDst(target, Val, n)))
      && (LabelSrc(source, n) !in r1 ==> Same(r1, r2, LabelDst(target, Val, n))) by {
      CopyPartEffect(r1, source, target, Val, parts.val);
    }
    assert forall n ::
      && (n !in parts.test ==> Same(r2, r, ImageDst(target, Test, n)))
      && (LabelSrc(source, n) !in r2 ==> Same(r2, r, LabelDst(target, Test, n))) by {
      CopyPartEffect(r2, source, target, Test, parts.test);
    }
    forall k: Part, n | LabelSrc(source, n) !in m
      ensures Same(m, r, LabelDst(target, k, n))
    {
      var q := LabelDst(target, k, n);
      forall j: Part | j != k ensures Outside(target, j, q) {
        OtherPartOutside(target, k, j, n);
      }
      assert LabelSrc(source, n) !in r1 && LabelSrc(source, n) !in r2;
      assert Same(m, r1, q) && Same(r1, r2, q) && Same(r2, r, q);
    }
    forall k: Part, n | n !in parts.Of(k)
      ensures Same(m, r, ImageDst(target, k, n))
    {
      var q := ImageDst(target, k, n);
      forall j: Part | j != k ensures Outside(target, j, q) {
        OtherPartOutside(target, k, j, n);
      }
      assert Same(m, r1, q) && Same(r1, r2, q) && Same(r2, r, q) by {
        match k {
          case Train => assert n !in parts.train;
          case Val => assert n !in parts.val;
          case Test => assert n !in parts.test;
        }
      }
    }
  }

  /** What part `k` writes survives the parts copied after it. */
  lemma PartLater(r1: map<Path, Bytes>, r2: map<Path, Bytes>, r: map<Path, Bytes>, target: Path, k: Part, q: Path, n: Name, isLabel: bool)
    requires q == (if isLabel then LabelDst(target, k, n) else ImageDst(target, k, n))
    requires forall q :: Outside(target, Val, q) ==> Same(r1, r2, q)
    requires forall q :: Outside(target, Test, q) ==> Same(r2, r, q)
    ensures k == Train ==> Same(r1, r, q)
    ensures k == Val ==> Same(r2, r, q)
  {
    if k != Val {
      OtherPartOutside(target, k, Val, n);
    }
    if k != Test {
      OtherPartOutside(target, k, Test, n);
    }
  }

  // ---------------------------------------------------------------------
  // The split itself (lines 4-26) and the two calls (lines 28-31)
  // ---------------------------------------------------------------------

  /** Lines 19-26: make the part folders, then copy its images in order. */
  method PopulatePart(fs: FileSystem, source: Path, target: Path, k: Part, files: seq<Name>)
    requires forall n :: n in files ==> ImageSrc(source, n) in fs.files
    modifies fs
    ensures fs.files == CopyPart(old(fs.files), source, target, k, files)
    ensures fs.dirs == old(fs.dirs) + PartFolder(target, k)
  {
    fs.MakeDirs(target + [PartDir(k), "images"]);
    fs.MakeDirs(target + [PartDir(k), "labels"]);
    ghost var m := fs.files;
    var i := 0;
    while i < |files|
      invariant 0 <= i <= |files|
      invariant fs.files == CopyPart(m, source, target, k, files[..i])
      invariant fs.dirs == old(fs.dirs) + PartFolder(target, k)
    {
      CopyPartStep(m, source, target, k, files, i);
      CopyImageFiles(fs, source, target, k, files[i]);
      i := i + 1;
    }
    assert files[..|files|] == files;
  }

  /** One more image of the part's list copied. */
  lemma CopyPartStep(m: map<Path, Bytes>, source: Path, target: Path, k: Part, files: seq<Name>, i: nat)
    requires i < |files|
    requires forall n :: n in files ==> ImageSrc(source, n) in m
    ensures ImageSrc(source, files[i]) in CopyPart(m, source, target, k, files[..i])
    ensures CopyPart(m, source, target, k, files[..i + 1])
      == CopyImage(CopyPart(m, source, target, k, files[..i]), source, target, k, files[i])
  {
    assert files[..i + 1][..i] == files[..i];
  }

  /** Lines 23-26: one image and, when it exists, its label. */
  method CopyImageFiles(fs: FileSystem, source: Path, target: Path, k: Part, n: Name)
    requires ImageSrc(source, n) in fs.files
    modifies fs
    ensures fs.files == CopyImage(old(fs.files), source, target, k, n)
    ensures fs.dirs == old(fs.dirs)
  {
    fs.Copy(ImageSrc(source, n), ImageDst(target, k, n));
    if LabelSrc(source, n) in fs.files {
      fs.Copy(LabelSrc(source, n), LabelDst(target, k, n));
    }
  }

  /** Every name of every part comes from the list that was cut. */
  lemma CutMembers(imgs: seq<Name>, train: Ratio, val: Ratio)
    requires train.den > 0 && val.den > 0
    ensures forall k: Part, n :: n in Cut(imgs, train, val).Of(k) ==> n in imgs
  {
    var t, v := PartCount(|imgs|, train), PartCount(|imgs|, val);
    forall k: Part, n | n in Cut(imgs, train, val).Of(k) ensures n in imgs {
      match k {
        case Train => SliceMember(imgs, 0, t, n);
        case Val => SliceMember(imgs, t, t + v, n);
        case Test => SliceMember(imgs, t + v, |imgs|, n);
      }
    }
  }

  lemma SliceMember<T>(s: seq<T>, i: int, j: int, x: T)
    requires x in Slice(s, i, j)
    ensures x in s
  {
  }

  /** The folders lines 19-20 create for part `k`. */
  function PartFolder(target: Path, k: Part): set<Path> {
    Ancestry(target + [PartDir(k), "images"]) + Ancestry(target + [PartDir(k), "labels"])
  }

  /** The folders lines 18-20 create under `target`. */
  function PartFolders(target: Path): set<Path> {
    PartFolder(target, Train) + PartFolder(target, Val) + PartFolder(target, Test)
  }

  /**
   * Lines 5-6: the names in `source/images` (in an order `glob` leaves
   * open, here `listed`) and their shuffle.
   */
  method ListAndShuffle(fs: FileSystem, source: Path, pick: nat -> nat) returns (ghost listed: seq<Name>, imgs: seq<Name>)
    requires Draws(pick)
    ensures Distinct(listed)
    ensures forall n :: n in listed <==> ImageSrc(source, n) in fs.files
    ensures imgs == Shuffled(listed, pick)
    ensures multiset(imgs) == multiset(listed)
  {
    var names := fs.ListFiles(source + ["images"]);
    forall n ensures (source + ["images"]) + [n] == ImageSrc(source, n) {
    }
    listed := names;
    imgs := ShuffleList(names, pick);
  }

  /** Lines 18-26: the parts in the order train, val, test. */
  method CopyParts(fs: FileSystem, source: Path, target: Path, parts: Parts)
    requires ImagesPresent(fs.files, source, parts)
    modifies fs
    ensures fs.files == CopyAll(old(fs.files), source, target, parts)
    ensures fs.dirs == old(fs.dirs) + PartFolders(target)
  {
    assert forall n :: n in parts.train ==> ImageSrc(source, n) in fs.files by {
      assert parts.train == parts.Of(Train);
    }
    PopulatePart(fs, source, target, Train, parts.train);
    assert forall n :: n in parts.val ==> ImageSrc(source, n) in fs.files by {
      assert parts.val == parts.Of(Val);
    }
    PopulatePart(fs, source, target, Val, parts.val);
    assert forall n :: n in parts.test ==> ImageSrc(source, n) in fs.files by {
      assert parts.test == parts.Of(Test);
    }
    PopulatePart(fs, source, target, Test, parts.test);
  }

  /**
   * Lines 4-26: list, shuffle, cut by the two ratios, copy. Every listed
   * image is in one of the parts (`CutPartitions`).
   */
  method Split(fs: FileSystem, source: Path, target: Path, train: Ratio, val: Ratio, pick: nat -> nat)
    returns (ghost listed: seq<Name>, ghost parts: Parts)
    requires train.den > 0 && val.den > 0
    requires Draws(pick)
    modifies fs
    ensures Distinct(listed)
    ensures forall n :: n in listed <==> ImageSrc(source, n) in old(fs.files)
    ensures parts == Cut(Shuffled(listed, pick), train, val)
    ensures ImagesPresent(old(fs.files), source, parts)
    ensures fs.files == CopyAll(old(fs.files), source, target, parts)
    ensures fs.dirs == old(fs.dirs) + PartFolders(target)
  {
    var imgs;
    listed, imgs := ListAndShuffle(fs, source, pick);
    var p := Cut(imgs, train, val);
    parts := p;
    CutPresent(fs.files, source, listed, imgs, train, val);
    CopyParts(fs, source, target, p);
  }

  /** Every image in a part of a shuffled listing is in the source folder. */
  lemma CutPresent(m: map<Path, Bytes>, source: Path, listed: seq<Name>, imgs: seq<Name>, train: Ratio, val: Ratio)
    requires train.den > 0 && val.den > 0
    requires forall n :: n in listed <==> ImageSrc(source, n) in m
    requires multiset(imgs) == multiset(listed)
    ensures ImagesPresent(m, source, Cut(imgs, train, val))
  {
    var p := Cut(imgs, train, val);
    CutMembers(imgs, train, val);
    forall k: Part, n | n in p.Of(k) ensures ImageSrc(source, n) in m {
      assert n in multiset(imgs);
    }
  }

  /** The two datasets and where their splits go (lines 30-31). */
  function RawSource(root: Path): Path { root + ["dataset", "raw"] }
  function RawTarget(root: Path): Path { root + ["dataset", "splits", "raw"] }
  function EnhancedSource(root: Path): Path { root + ["dataset", "enhanced"] }
  function EnhancedTarget(root: Path): Path { root + ["dataset", "splits", "enhanced"] }

  /**
   * Each split reads from outside both split folders, so neither split
   * writes into a dataset and the raw split leaves the enhanced dataset
   * as it was.
   */
  lemma ScriptFoldersApart(root: Path)
    ensures Apart(RawSource(root), RawTarget(root))
    ensures Apart(EnhancedSource(root), EnhancedTarget(root))
    ensures Apart(EnhancedSource(root), RawTarget(root))
    ensures Apart(RawTarget(root), EnhancedTarget(root))
  {
    var i := |root| + 1;
    assert RawSource(root)[i] != RawTarget(root)[i];
    assert EnhancedSource(root)[i] != EnhancedTarget(root)[i];
    assert EnhancedSource(root)[i] != RawTarget(root)[i];
    assert RawTarget(root)[i + 1] != EnhancedTarget(root)[i + 1];
  }

  /**
   * Lines 28-31 with the default ratios: each dataset's images are listed,
   * shuffled and cut 0.8/0.1 independently. The enhanced listing is taken
   * after the raw split, which leaves the enhanced images as they were, so
   * both listings are listings of the original files.
   */
  method SplitDatasets(fs: FileSystem, root: Path, pickRaw: nat -> nat, pickEnhanced: nat -> nat)
    returns (ghost listedRaw: seq<Name>, ghost raw: Parts, ghost listedEnhanced: seq<Name>, ghost enhanced: Parts)
    requires Draws(pickRaw)
    requires Draws(pickEnhanced)
    modifies fs
    ensures Distinct(listedRaw)
    ensures forall n :: n in listedRaw <==> ImageSrc(RawSource(root), n) in old(fs.files)
    ensures raw == Cut(Shuffled(listedRaw, pickRaw), DefaultTrain, DefaultVal)
    ensures Distinct(listedEnhanced)
    ensures forall n :: n in listedEnhanced <==> ImageSrc(EnhancedSource(root), n) in old(fs.files)
    ensures enhanced == Cut(Shuffled(listedEnhanced, pickEnhanced), DefaultTrain, DefaultVal)
    ensures ImagesPresent(old(fs.files), RawSource(root), raw)
    ensures ImagesPresent(old(fs.files), EnhancedSource(root), enhanced)
    ensures fs.files == CopyAll(CopyAll(old(fs.files), RawSource(root), RawTarget(root), raw),
                                EnhancedSource(root), EnhancedTarget(root), enhanced)
    ensures fs.dirs == old(fs.dirs) + PartFolders(RawTarget(root)) + PartFolders(EnhancedTarget(root))
  {
    ScriptFoldersApart(root);
    ghost var m := fs.files;
    listedRaw, raw := Split(fs, RawSource(root), RawTarget(root), DefaultTrain, DefaultVal, pickRaw);
    EnhancedSourcesKept(m, root, raw);
    listedEnhanced, enhanced := Split(fs, EnhancedSource(root), EnhancedTarget(root), DefaultTrain, DefaultVal, pickEnhanced);
    forall k: Part, n | n in enhanced.Of(k) ensures ImageSrc(EnhancedSource(root), n) in m {
      assert Same(m, CopyAll(m, RawSource(root), RawTarget(root), raw), ImageSrc(EnhancedSource(root), n));
    }
  }

  /**
   * Copying the raw split writes only under its own target, so every
   * enhanced image path holds after it exactly what it held before.
   */
  lemma EnhancedSourcesKept(m: map<Path, Bytes>, root: Path, raw: Parts)
    requires ImagesPresent(m, RawSource(root), raw)
    ensures forall n :: Same(m, CopyAll(m, RawSource(root), RawTarget(root), raw), ImageSrc(EnhancedSource(root), n))
  {
    ScriptFoldersApart(root);
    CopyAllFrame(m, RawSource(root), RawTarget(root), raw);
    forall n ensures !IsPrefix(RawTarget(root), ImageSrc(EnhancedSource(root), n)) {
      ApartExtended(EnhancedSource(root), RawTarget(root), ["images", n], []);
      assert RawTarget(root) + [] == RawTarget(root);
    }
  }

  /**
   * Lines 5-16 together: the parts are drawn from the shuffled listing,
   * cover it, never share an image, and have the sizes the ratios ask for.
   */
  lemma SplitParts(listed: seq<Name>, pick: nat -> nat, train: Ratio, val: Ratio)
    requires ProperRatios(train, val)
    requires Draws(pick)
    requires Distinct(listed)
    ensures var p := Cut(Shuffled(listed, pick), train, val);
      && multiset(p.train + p.val + p.test) == multiset(listed)
      && (forall n :: n in listed <==> exists k: Part :: n in p.Of(k))
      && (forall n, k: Part, j: Part :: n in p.Of(k) && n in p.Of(j) ==> k == j)
      && |p.train| == |listed| * train.num / train.den
      && |p.val| == |listed| * val.num / val.den
      && |p.test| == |listed| - |p.train| - |p.val|
  {
    var imgs := Shuffled(listed, pick);
    ShuffledPermutes(listed, pick);
    assert |imgs| == |multiset(imgs)| == |multiset(listed)| == |listed|;
    SumOfCountsBound(|imgs|, PartCount(|imgs|, train), PartCount(|imgs|, val), train, val);
    CutPartitions(imgs, train, val);
    CutSizes(imgs, train, val);
    PartsCover(Cut(imgs, train, val), listed);
  }

  /** Parts that are pairwise disjoint and together a permutation of `listed` hold each listed name in exactly one part. */
  lemma PartsCover(p: Parts, listed: seq<Name>)
    requires multiset(p.train + p.val + p.test) == multiset(listed)
    requires forall n :: !(n in p.train && n in p.val)
    requires forall n :: !(n in p.train && n in p.test)
    requires forall n :: !(n in p.val && n in p.test)
    ensures forall n :: n in listed <==> exists k: Part :: n in p.Of(k)
    ensures forall n, k: Part, j: Part :: n in p.Of(k) && n in p.Of(j) ==> k == j
  {
    forall n ensures n in listed <==> exists k: Part :: n in p.Of(k) {
      var all := p.train + p.val + p.test;
      assert n in listed <==> n in multiset(all);
      assert n in all <==> n in p.train || n in p.val || n in p.test;
      if n in p.train { assert n in p.Of(Train); }
      if n in p.val { assert n in p.Of(Val); }
      if n in p.test { assert n in p.Of(Test); }
    }
  }
}
