/**
 * `scripts/create_data_yaml.py`: read the class list from
 * `dataset/classes.txt` and build one dataset descriptor per split folder,
 * `dataset/data_raw.yaml` and `dataset/data_enhanced.yaml`. A descriptor is
 * modelled as a record; its YAML text is not.
 */
module DataYaml {

  import opened Wrappers
  import opened Names
  import Splitter

  /** Python's `str.isspace`. */
  predicate IsSpace(c: char) {
    || '\t' <= c <= '\r'
    || '\U{1C}' <= c <= ' '
    || c == '\U{85}' || c == '\U{A0}' || c == '\U{1680}'
    || '\U{2000}' <= c <= '\U{200A}'
    || c == '\U{2028}' || c == '\U{2029}' || c == '\U{202F}' || c == '\U{205F}' || c == '\U{3000}'
  }

  predicate AllSpace(s: string) {
    forall k :: 0 <= k < |s| ==> IsSpace(s[k])
  }

  /** A line break for a file opened in text mode (universal newlines). */
  predicate IsBreak(c: char) {
    c == '\n' || c == '\r'
  }

  predicate NoBreak(s: string) {
    forall k :: 0 <= k < |s| ==> !IsBreak(s[k])
  }

  /** Non-empty, with no white space at either end: what `strip` leaves when it leaves anything. */
  predicate Stripped(s: string) {
    s != [] && !IsSpace(s[0]) && !IsSpace(s[|s| - 1])
  }

  /** The number of white-space characters `s` starts with. */
  function LeadingSpaces(s: string): (n: nat)
    ensures n <= |s| && AllSpace(s[..n])
    ensures n < |s| ==> !IsSpace(s[n])
    decreases |s|
  {
    if s == [] || !IsSpace(s[0]) then 0
    else
      var m := LeadingSpaces(s[1..]);
      assert s[..1 + m] == [s[0]] + s[1..][..m];
      1 + m
  }

  /** The number of white-space characters `s` ends with. */
  function TrailingSpaces(s: string): (n: nat)
    ensures n <= |s| && AllSpace(s[|s| - n..])
    ensures n < |s| ==> !IsSpace(s[|s| - n - 1])
    decreases |s|
  {
    if s == [] || !IsSpace(s[|s| - 1]) then 0
    else
      var init := s[..|s| - 1];
      var m := TrailingSpaces(init);
      assert s[|s| - (1 + m)..] == init[|init| - m..] + [s[|s| - 1]];
      1 + m
  }

  /** `str.strip()`: what is left once white space is cut from both ends. */
  function Strip(s: string): (r: string)
    ensures r == [] || Stripped(r)
  {
    var i := LeadingSpaces(s);
    var t := s[i..];
    var b := TrailingSpaces(t);
    var j := |s| - b;
    assert t[..|t| - b] == s[i..j];
    assert b < |t| ==> t[|t| - b - 1] == s[j - 1] && t[0] == s[i];
    s[i..j]
  }

  /** `strip` keeps the middle of `s` and cuts only white space at either end. */
  lemma StripMiddle(s: string)
    ensures exists i, j :: 0 <= i <= j <= |s| && Strip(s) == s[i..j] && AllSpace(s[..i]) && AllSpace(s[j..])
  {
    var i := LeadingSpaces(s);
    var t := s[i..];
    var b := TrailingSpaces(t);
    var j := |s| - b;
    assert Strip(s) == s[i..j] by {
      assert t[..|t| - b] == s[i..j];
    }
    assert AllSpace(s[j..]) by {
      assert t[|t| - b..] == s[j..];
    }
  }

  /** `strip` leaves a stripped string as it is. */
  lemma StripKeepsStripped(s: string)
    requires Stripped(s)
    ensures Strip(s) == s
  {
    assert LeadingSpaces(s) == 0;
    assert s[0..] == s;
    assert TrailingSpaces(s) == 0;
  }

  /** `strip` is idempotent. */
  lemma StripIdempotent(s: string)
    ensures Strip(Strip(s)) == Strip(s)
  {
    if Strip(s) != [] {
      StripKeepsStripped(Strip(s));
    }
  }

  /**
   * The lines of a text file, without their terminators. A `\r\n` pair
   * yields one extra empty piece, which the class list drops like any
   * blank line.
   */
  function Lines(text: string): (r: seq<string>)
    ensures |r| >= 1
    ensures forall i :: 0 <= i < |r| ==> NoBreak(r[i])
    decreases |text|
  {
    if text == [] then [""]
    else
      var rest := Lines(text[1..]);
      if IsBreak(text[0]) then [""] + rest
      else
        var first := [text[0]] + rest[0];
        assert forall k :: 1 <= k < |first| ==> first[k] == rest[0][k - 1];
        [first] + rest[1..]
  }

  /** The stripped lines that are not empty, in order. */
  function NonBlank(lines: seq<string>): (r: seq<string>)
    ensures |r| <= |lines|
    ensures forall i :: 0 <= i < |r| ==> Stripped(r[i])
    decreases |lines|
  {
    if lines == [] then []
    else
      var c := Strip(lines[0]);
      (if c == [] then [] else [c]) + NonBlank(lines[1..])
  }

  /** `classes`: the stripped, non-empty lines of `classes.txt`, in file order. */
  function Classes(text: string): (r: seq<string>)
    ensures forall i :: 0 <= i < |r| ==> Stripped(r[i])
  {
    NonBlank(Lines(text))
  }

  /** A class list written one name per line. */
  function OnePerLine(names: seq<string>): string {
    if names == [] then [] else names[0] + "\n" + OnePerLine(names[1..])
  }

  /** The first line of `c + t` continues with the first line of `t` when `c` has no break. */
  lemma {:induction false} LinesAfterPlainText(c: string, t: string)
    requires NoBreak(c)
    ensures Lines(c + t) == [c + Lines(t)[0]] + Lines(t)[1..]
    decreases |c|
  {
    var lt := Lines(t);
    if c == [] {
      assert c + t == t && c + lt[0] == lt[0];
      assert lt == [lt[0]] + lt[1..];
    } else {
      var c' := c[1..];
      assert (c + t)[0] == c[0] && !IsBreak(c[0]);
      assert (c + t)[1..] == c' + t;
      LinesAfterPlainText(c', t);
      var rest := Lines(c' + t);
      assert rest[0] == c' + lt[0] && rest[1..] == lt[1..];
      assert Lines(c + t) == [[c[0]] + rest[0]] + rest[1..];
      assert [c[0]] + (c' + lt[0]) == c + lt[0];
    }
  }

  /** A line followed by a break and more text. */
  lemma LinesOfLine(c: string, t: string)
    requires NoBreak(c)
    ensures Lines(c + "\n" + t) == [c] + Lines(t)
  {
    var nt := "\n" + t;
    assert c + "\n" + t == c + nt;
    LinesAfterPlainText(c, nt);
    assert nt[0] == '\n' && nt[1..] == t;
    assert Lines(nt) == [""] + Lines(t);
    assert c + "" == c;
  }

  lemma NonBlankCons(c: string, lines: seq<string>)
    requires Stripped(c)
    ensures NonBlank([c] + lines) == [c] + NonBlank(lines)
  {
    StripKeepsStripped(c);
    assert ([c] + lines)[0] == c && ([c] + lines)[1..] == lines;
  }

  /** An empty string strips to nothing. */
  lemma StripEmpty()
    ensures Strip("") == []
  {
    assert LeadingSpaces("") == 0;
  }

  /** A line that strips to nothing is dropped. */
  lemma NonBlankConsBlank(c: string, lines: seq<string>)
    requires Strip(c) == []
    ensures NonBlank([c] + lines) == NonBlank(lines)
  {
    assert ([c] + lines)[0] == c && ([c] + lines)[1..] == lines;
  }

  /** An empty file has no classes. */
  lemma NoClasses()
    ensures Classes([]) == []
  {
    assert Lines([]) == [""] == [""] + [];
    StripEmpty();
    NonBlankConsBlank("", []);
  }

  /** Writing a list of stripped class names one per line and reading it back gives the list. */
  lemma {:induction false} ClassesRoundTrip(names: seq<string>)
    requires forall i :: 0 <= i < |names| ==> Stripped(names[i]) && NoBreak(names[i])
    ensures Classes(OnePerLine(names)) == names
    decreases |names|
  {
    if names == [] {
      NoClasses();
    } else {
      var c, rest := names[0], names[1..];
      var t := OnePerLine(rest);
      assert Classes(t) == rest by {
        assert forall i :: 0 <= i < |rest| ==> rest[i] == names[i + 1];
        ClassesRoundTrip(rest);
      }
      assert Lines(OnePerLine(names)) == [c] + Lines(t) by {
        assert OnePerLine(names) == c + "\n" + t;
        LinesOfLine(c, t);
      }
      NonBlankCons(c, Lines(t));
    }
  }

  /** The mapping `make` dumps, key by key in the order it lists them. */
  datatype Descriptor = Descriptor(path: string, train: string, val: string, test: string, nc: int, names: seq<string>)

  /** `nc` is the number of names. */
  predicate Consistent(d: Descriptor) {
    d.nc == |d.names|
  }

  /** `make(name)`'s mapping for a class list. */
  function Make(classes: seq<string>, name: string): (d: Descriptor)
    ensures Consistent(d) && d.names == classes
    ensures d.path == "dataset/splits/" + name
    ensures d.train == "train/images" && d.val == "val/images" && d.test == "test/images"
  {
    Descriptor("dataset/splits/" + name, "train/images", "val/images", "test/images", |classes|, classes)
  }

  /** Where `make(name)` writes. */
  function Target(root: Path, name: string): Path {
    root + ["dataset", "data_" + name + ".yaml"]
  }

  /** The components of a relative path joined with `/`. */
  function Slashed(p: Path): string {
    if p == [] then "" else if |p| == 1 then p[0] else p[0] + "/" + Slashed(p[1..])
  }

  /** The two descriptors `make` writes for a class list, by target. */
  function Descriptors(root: Path, classes: seq<string>): (r: map<Path, Descriptor>)
    ensures r.Keys == {Target(root, "raw"), Target(root, "enhanced")}
  {
    map[Target(root, "raw") := Make(classes, "raw"), Target(root, "enhanced") := Make(classes, "enhanced")]
  }

  /**
   * The whole script: `None` when `classes.txt` cannot be read (nothing is
   * written); otherwise the two descriptors it writes, by target.
   */
  function CreateDataYaml(root: Path, classesTxt: Option<string>): (r: Option<map<Path, Descriptor>>)
    ensures r.None? <==> classesTxt.None?
    ensures r.Some? ==> r.value.Keys == {Target(root, "raw"), Target(root, "enhanced")}
  {
    match classesTxt
    case None => None
    case Some(text) => Some(Descriptors(root, Classes(text)))
  }

  /**
   * The two descriptors differ only in `path` and in their target, carry
   * the class list, and `dataset/data.yaml` is never written.
   */
  lemma DescriptorsAgree(root: Path, text: string)
    ensures var r := CreateDataYaml(root, Some(text)).value;
      && var raw := r[Target(root, "raw")];
      && var enhanced := r[Target(root, "enhanced")];
      && Target(root, "raw") != Target(root, "enhanced")
      && raw.(path := enhanced.path) == enhanced
      && raw.names == enhanced.names == Classes(text) && Consistent(raw) && Consistent(enhanced)
      && root + ["dataset", "data.yaml"] !in r
  {
    var classes := Classes(text);
    assert CreateDataYaml(root, Some(text)).value == Descriptors(root, classes);
    DescriptorsOf(root, classes);
  }

  /**
   * Both descriptors point, relative to the project root, at the split
   * folders `scripts/split_dataset.py` fills.
   */
  lemma DescriptorsNameSplits(root: Path, text: string)
    ensures var r := CreateDataYaml(root, Some(text)).value;
      && r[Target(root, "raw")].path == Slashed(Splitter.RawTarget(root)[|root|..])
      && r[Target(root, "enhanced")].path == Slashed(Splitter.EnhancedTarget(root)[|root|..])
  {
    var classes := Classes(text);
    assert CreateDataYaml(root, Some(text)).value == Descriptors(root, classes);
    DescriptorsOf(root, classes);
    SplitFolderNamed(root);
  }

  /** Each target holds `make`'s descriptor for it, and `dataset/data.yaml` is not a target. */
  lemma DescriptorsOf(root: Path, classes: seq<string>)
    ensures var r := Descriptors(root, classes);
      && r[Target(root, "raw")] == Make(classes, "raw")
      && r[Target(root, "enhanced")] == Make(classes, "enhanced")
      && Target(root, "raw") != Target(root, "enhanced")
      && root + ["dataset", "data.yaml"] !in r
  {
    TargetsDiffer(root);
  }

  /** The two targets and `dataset/data.yaml` are three different files. */
  lemma TargetsDiffer(root: Path)
    ensures Target(root, "raw") != Target(root, "enhanced")
    ensures Target(root, "raw") != root + ["dataset", "data.yaml"]
    ensures Target(root, "enhanced") != root + ["dataset", "data.yaml"]
  {
    var raw, enh, plain := Target(root, "raw"), Target(root, "enhanced"), root + ["dataset", "data.yaml"];
    assert raw[|root| + 1] == "data_raw.yaml";
    assert enh[|root| + 1] == "data_enhanced.yaml";
    assert plain[|root| + 1] == "data.yaml";
    assert "data_raw.yaml"[5] != "data_enhanced.yaml"[5];
    assert |"data_raw.yaml"| != |"data.yaml"| && |"data_enhanced.yaml"| != |"data.yaml"|;
  }

  /** A split folder below `dataset/splits`, joined with `/`. */
  lemma SlashedSplit(name: string)
    ensures Slashed(["dataset", "splits", name]) == "dataset/splits/" + name
  {
    var p := ["dataset", "splits", name];
    assert p[1..] == ["splits", name] && p[1..][1..] == [name];
    assert Slashed(p[1..]) == "splits" + "/" + name;
    assert "dataset/splits/" == "dataset" + "/" + "splits" + "/";
  }

  /** The descriptor paths name the split folders. */
  lemma SplitFolderNamed(root: Path)
    ensures Slashed(Splitter.RawTarget(root)[|root|..]) == "dataset/splits/" + "raw"
    ensures Slashed(Splitter.EnhancedTarget(root)[|root|..]) == "dataset/splits/" + "enhanced"
  {
    assert Splitter.RawTarget(root)[|root|..] == ["dataset", "splits", "raw"];
    assert Splitter.EnhancedTarget(root)[|root|..] == ["dataset", "splits", "enhanced"];
    SlashedSplit("raw");
    SlashedSplit("enhanced");
  }
}
