/**
 * `scripts/train.py`: name the run after the date, train into
 * `runs/detect/<run>`, and copy the run's best weights to
 * `models/<run>_best.pt` when the trainer left them.
 */
module Training {

  import opened Wrappers
  import opened Names
  import opened FileStore
  import DataYaml

  /** A calendar date as `datetime` holds it. */
  datatype Date = Date(year: int, month: int, day: int)

  predicate ValidDate(d: Date) {
    1 <= d.year <= 9999 && 1 <= d.month <= 12 && 1 <= d.day <= 31
  }

  predicate IsDigit(c: char) {
    '0' <= c <= '9'
  }

  predicate AllDigits(s: string) {
    forall k :: 0 <= k < |s| ==> IsDigit(s[k])
  }

  function Pow10(width: nat): (r: nat)
    ensures r >= 1
  {
    if width == 0 then 1 else 10 * Pow10(width - 1)
  }

  /** `n` in decimal, zero-padded to `width` digits. */
  function Pad(n: nat, width: nat): (r: string)
    requires n < Pow10(width)
    ensures |r| == width && AllDigits(r)
  {
    if width == 0 then ""
    else
      var init := Pad(n / 10, width - 1);
      var last := ('0' as int + n % 10) as char;
      assert forall k :: 0 <= k < |init| ==> (init + [last])[k] == init[k];
      init + [last]
  }

  /** The number a string of decimal digits spells. */
  function Value(s: string): (n: nat)
    requires AllDigits(s)
    ensures n < Pow10(|s|)
  {
    if s == [] then 0
    else Value(s[..|s| - 1]) * 10 + (s[|s| - 1] as int - '0' as int)
  }

  /** Reading back a padded number gives the number. */
  lemma {:induction false} ValueOfPad(n: nat, width: nat)
    requires n < Pow10(width)
    ensures Value(Pad(n, width)) == n
  {
    if width > 0 {
      var p := Pad(n, width);
      assert p[..|p| - 1] == Pad(n / 10, width - 1);
      ValueOfPad(n / 10, width - 1);
    }
  }

  /** Padding the value of a digit string to its own length gives the string back. */
  lemma {:induction false} PadOfValue(s: string)
    requires AllDigits(s)
    ensures Pad(Value(s), |s|) == s
  {
    if s != [] {
      var init := s[..|s| - 1];
      var n := Value(s);
      var d := s[|s| - 1] as int - '0' as int;
      assert n / 10 == Value(init) && n % 10 == d;
      PadOfValue(init);
      assert s == init + [s[|s| - 1]];
    }
  }

  /** `"train_" + strftime("%Y_%m_%d")`. */
  function RunName(d: Date): (r: string)
    requires ValidDate(d)
    ensures |r| == 16 && StartsWith(r, "train_")
  {
    "train_" + (Pad(d.year, 4) + ("_" + (Pad(d.month, 2) + ("_" + Pad(d.day, 2)))))
  }

  /** The date a run name was made from, if it is one. */
  function ParseRunName(s: string): (r: Option<Date>)
    ensures r.Some? ==> ValidDate(r.value)
  {
    if |s| == 16 && s[..6] == "train_" && s[10] == '_' && s[13] == '_'
      && AllDigits(s[6..10]) && AllDigits(s[11..13]) && AllDigits(s[14..16])
    then
      var d := Date(Value(s[6..10]), Value(s[11..13]), Value(s[14..16]));
      if ValidDate(d) then Some(d) else None
    else None
  }

  lemma RunNameParts(d: Date)
    requires ValidDate(d)
    ensures var r := RunName(d);
      && r[..6] == "train_" && r[10] == '_' && r[13] == '_'
      && r[6..10] == Pad(d.year, 4) && r[11..13] == Pad(d.month, 2) && r[14..16] == Pad(d.day, 2)
  {
  }

  /** A run name is read back as its date. */
  lemma ParseOfRunName(d: Date)
    requires ValidDate(d)
    ensures ParseRunName(RunName(d)) == Some(d)
  {
    var r := RunName(d);
    RunNameParts(d);
    ValueOfPad(d.year, 4);
    ValueOfPad(d.month, 2);
    ValueOfPad(d.day, 2);
    assert Value(r[6..10]) == d.year && Value(r[11..13]) == d.month && Value(r[14..16]) == d.day;
  }

  /** Only the run name of a date is read back as that date. */
  lemma RunNameOfParse(d: Date, s: string)
    requires ParseRunName(s) == Some(d)
    ensures s == RunName(d)
  {
    var y, m, dd := s[6..10], s[11..13], s[14..16];
    assert d == Date(Value(y), Value(m), Value(dd));
    PadOfValue(y);
    PadOfValue(m);
    PadOfValue(dd);
    assert s[..6] == "train_" && [s[10]] == "_" && [s[13]] == "_";
    SixteenParts(s);
  }

  /** A 16-character string cut where a run name has its separators. */
  lemma SixteenParts(s: string)
    requires |s| == 16
    ensures s == s[..6] + (s[6..10] + ([s[10]] + (s[11..13] + ([s[13]] + s[14..16]))))
  {
    var t0, t1, t2, t3 := s[6..], s[10..], s[11..], s[13..];
    assert t3 == [s[13]] + s[14..16];
    assert t2 == s[11..13] + t3;
    assert t1 == [s[10]] + t2;
    assert t0 == s[6..10] + t1;
    assert s == s[..6] + t0;
  }

  /** A run name is read back as its date, and only run names are read as dates. */
  lemma RunNameRoundTrip(d: Date, s: string)
    requires ValidDate(d)
    ensures ParseRunName(RunName(d)) == Some(d)
    ensures ParseRunName(s) == Some(d) ==> s == RunName(d)
  {
    ParseOfRunName(d);
    if ParseRunName(s) == Some(d) {
      RunNameOfParse(d, s);
    }
  }

  /** Two runs share a name exactly when they run on the same day. */
  lemma RunNameSameDay(d1: Date, d2: Date)
    requires ValidDate(d1) && ValidDate(d2)
    ensures RunName(d1) == RunName(d2) <==> d1 == d2
  {
    RunNameRoundTrip(d1, RunName(d2));
    RunNameRoundTrip(d2, RunName(d1));
  }

  /** The arguments `model.train` is called with. */
  datatype TrainConfig = TrainConfig(
    data: Path, epochs: int, imgsz: int, batch: int, device: int, workers: int,
    project: Path, name: string, pretrained: bool, val: bool)

  function Config(root: Path, run: string): (c: TrainConfig)
    ensures c.project + [c.name] == root + ["runs", "detect", run]
  {
    TrainConfig(root + ["dataset", "data.yaml"], 10, 640, 16, 0, 8, root + ["runs", "detect"], run, true, true)
  }

  /** Where the trainer leaves the best weights: `<project>/<name>/weights/best.pt`. */
  function BestWeights(c: TrainConfig): Path {
    c.project + [c.name, "weights", "best.pt"]
  }

  /** Where they are kept. */
  function SavedModel(root: Path, run: string): Path {
    root + ["models", run + "_best.pt"]
  }

  /**
   * The descriptor the trainer is given, `dataset/data.yaml`, is not one
   * of the two `scripts/create_data_yaml.py` writes.
   */
  lemma TrainsOnUnwrittenDescriptor(root: Path, run: string, classesTxt: string)
    ensures Config(root, run).data !in DataYaml.CreateDataYaml(root, Some(classesTxt)).value
  {
    DataYaml.TargetsDiffer(root);
  }

  /**
   * `main()`: create `models/`, train (the library's effect on the files is
   * `train`), then copy the best weights to `models/<run>_best.pt` if there
   * are any. `saved` is the copy's path, `None` when nothing was copied.
   */
  method TrainMain(fs: FileSystem, root: Path, today: Date, train: (TrainConfig, map<Path, Bytes>) -> map<Path, Bytes>)
    returns (saved: Option<Path>)
    requires ValidDate(today)
    modifies fs
    ensures var c := Config(root, RunName(today));
      var trained := train(c, old(fs.files));
      var best := BestWeights(c);
      && fs.dirs == old(fs.dirs) + {root + ["models"]}
      && (saved.Some? <==> best in trained)
      && (best in trained ==> saved == Some(SavedModel(root, RunName(today))) && fs.files == trained[saved.value := trained[best]])
      && (best !in trained ==> fs.files == trained)
  {
    fs.MakeDir(root + ["models"]);
    var run := RunName(today);
    var c := Config(root, run);
    fs.files := train(c, fs.files);
    var best := BestWeights(c);
    if best in fs.files {
      var target := SavedModel(root, run);
      fs.Copy(best, target);
      saved := Some(target);
    } else {
      saved := None;
    }
  }
}
