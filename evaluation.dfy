/**
 * `scripts/evaluate.py`: for each dataset tag, find the most recently
 * modified `models/<tag>_*_best.pt` and validate it on the test split of
 * `dataset/data_<tag>.yaml`; skip the tag when there is none.
 */
module Evaluation {

  import opened Wrappers
  import opened Names
  import DataYaml
  import Training

  const BestSuffix: string := "_best.pt"

  /** The glob `<tag>_*_best.pt`: the `*` may be empty but may not overlap the fixed parts. */
  predicate Matches(name: Name, tag: string) {
    |name| >= |tag| + 1 + |BestSuffix| && StartsWith(name, tag + "_") && EndsWith(name, BestSuffix)
  }

  /** The entries of `models/` the glob yields, in the order it yields them. */
  function Candidates(listing: seq<Name>, tag: string): (r: seq<Name>)
    ensures forall n :: n in r <==> n in listing && Matches(n, tag)
    decreases |listing|
  {
    if listing == [] then []
    else
      var rest := Candidates(listing[1..], tag);
      assert forall n :: n in listing <==> n == listing[0] || n in listing[1..];
      if Matches(listing[0], tag) then [listing[0]] + rest else rest
  }

  /** `max(candidates, key=mtime)`: the first candidate whose mtime is not exceeded. */
  function Latest(cands: seq<Name>, mtime: Name -> int): (r: Name)
    requires cands != []
    ensures r in cands
    ensures forall n :: n in cands ==> mtime(n) <= mtime(r)
    decreases |cands|
  {
    if |cands| == 1 then cands[0]
    else
      var init := cands[..|cands| - 1];
      var last := cands[|cands| - 1];
      var best := Latest(init, mtime);
      assert forall n :: n in cands ==> n in init || n == last;
      if mtime(last) > mtime(best) then last else best
  }

  /** `max` keeps the first of several candidates with the greatest mtime. */
  lemma {:induction false} LatestIsFirst(cands: seq<Name>, mtime: Name -> int, i: int)
    requires cands != [] && 0 <= i < |cands|
    requires mtime(cands[i]) == mtime(Latest(cands, mtime))
    ensures Latest(cands, mtime) in cands[..i + 1]
    decreases |cands|
  {
    if |cands| > 1 {
      var init := cands[..|cands| - 1];
      var best := Latest(init, mtime);
      if i < |cands| - 1 {
        assert init[i] == cands[i];
        assert mtime(cands[i]) <= mtime(best);
        LatestIsFirst(init, mtime, i);
        assert init[..i + 1] == cands[..i + 1];
      } else {
        assert cands[..i + 1] == cands;
      }
    }
  }

  /** `find_latest_model(tag)`: a name in `models/`, `None` when nothing matches. */
  function FindLatestModel(listing: seq<Name>, mtime: Name -> int, tag: string): (r: Option<Name>)
    ensures r.None? <==> forall n :: n in listing ==> !Matches(n, tag)
    ensures r.Some? ==> r.value in listing && Matches(r.value, tag)
    ensures r.Some? ==> forall n :: n in listing && Matches(n, tag) ==> mtime(n) <= mtime(r.value)
  {
    var cands := Candidates(listing, tag);
    if cands == [] then None
    else
      assert cands[0] in cands;
      Some(Latest(cands, mtime))
  }

  /** What `evaluate(tag)` does: nothing, or one validation call. */
  datatype Evaluation =
    | Skipped
    | Validated(model: Path, data: Path, split: string, imgsz: int, device: int)

  function Evaluate(root: Path, listing: seq<Name>, mtime: Name -> int, tag: string): (e: Evaluation)
    ensures e.Skipped? <==> FindLatestModel(listing, mtime, tag).None?
    ensures e.Validated? ==>
      && e.model == root + ["models", FindLatestModel(listing, mtime, tag).value]
      && e.data == DataYaml.Target(root, tag)
      && e.split == "test" && e.imgsz == 640 && e.device == 0
  {
    match FindLatestModel(listing, mtime, tag)
    case None => Skipped
    case Some(name) => Validated(root + ["models", name], root + ["dataset", "data_" + tag + ".yaml"], "test", 640, 0)
  }

  /** `main()`: "raw", then "enhanced". */
  function EvaluateMain(root: Path, listing: seq<Name>, mtime: Name -> int): (r: seq<Evaluation>)
    ensures |r| == 2
    ensures r[0].Skipped? <==> FindLatestModel(listing, mtime, "raw").None?
    ensures r[0].Validated? ==>
      && r[0].model == root + ["models", FindLatestModel(listing, mtime, "raw").value]
      && r[0].data == DataYaml.Target(root, "raw")
      && r[0].split == "test" && r[0].imgsz == 640 && r[0].device == 0
    ensures r[1].Skipped? <==> FindLatestModel(listing, mtime, "enhanced").None?
    ensures r[1].Validated? ==>
      && r[1].model == root + ["models", FindLatestModel(listing, mtime, "enhanced").value]
      && r[1].data == DataYaml.Target(root, "enhanced")
      && r[1].split == "test" && r[1].imgsz == 640 && r[1].device == 0
  {
    [Evaluate(root, listing, mtime, "raw"), Evaluate(root, listing, mtime, "enhanced")]
  }

  /** Each validation reads a descriptor that `scripts/create_data_yaml.py` writes. */
  lemma EvaluatesWrittenDescriptors(root: Path, listing: seq<Name>, mtime: Name -> int, classesTxt: string)
    ensures forall e :: e in EvaluateMain(root, listing, mtime) && e.Validated? ==>
      e.data in DataYaml.CreateDataYaml(root, Some(classesTxt)).value
  {
  }

  /**
   * The weights `scripts/train.py` saves, `train_YYYY_MM_DD_best.pt`, match
   * the tag "train" but neither "raw" nor "enhanced".
   */
  lemma TrainedWeightsMatchOnlyTrain(d: Training.Date)
    requires Training.ValidDate(d)
    ensures var name := Training.RunName(d) + BestSuffix;
      Matches(name, "train") && !Matches(name, "raw") && !Matches(name, "enhanced")
  {
    var run := Training.RunName(d);
    var name := run + BestSuffix;
    assert name[..6] == run[..6] == "train_";
    assert name[|name| - |BestSuffix|..] == BestSuffix;
    assert name[0] == 't';
  }

  /** With only `scripts/train.py`'s weights in `models/`, both evaluations are skipped. */
  lemma TrainedWeightsNeverEvaluated(root: Path, listing: seq<Name>, mtime: Name -> int)
    requires forall n :: n in listing ==> exists d :: Training.ValidDate(d) && n == Training.RunName(d) + BestSuffix
    ensures EvaluateMain(root, listing, mtime) == [Skipped, Skipped]
  {
    forall n | n in listing
      ensures !Matches(n, "raw") && !Matches(n, "enhanced")
    {
      var d :| Training.ValidDate(d) && n == Training.RunName(d) + BestSuffix;
      TrainedWeightsMatchOnlyTrain(d);
    }
  }
}
