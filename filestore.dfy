/**
 * The host file system the scripts read and write, as a map from paths to
 * file contents plus the set of directories. Directory listing, copying and
 * `mkdir` are operations on these two fields.
 */
module FileStore {

  import opened Names

  newtype Byte = x: int | 0 <= x < 256

  type Bytes = seq<Byte>

  predicate IsPrefix(p: Path, q: Path) {
    |p| <= |q| && q[..|p|] == p
  }

  /** Neither path lies inside the other. */
  predicate Apart(p: Path, q: Path) {
    !IsPrefix(p, q) && !IsPrefix(q, p)
  }

  /** Nothing under `q` lies under `p` when the two are apart. */
  lemma ApartExtended(p: Path, q: Path, pExt: Path, qExt: Path)
    requires Apart(p, q)
    ensures !IsPrefix(q + qExt, p + pExt)
  {
    var m := if |q| <= |p| then |q| else |p|;
    assert p[..m] != q[..m];
    var i :| 0 <= i < m && p[i] != q[i];
    assert (p + pExt)[i] == p[i] && (q + qExt)[i] == q[i];
  }

  /** The directories `mkdir(parents=True)` creates or finds for `p`: its non-empty prefixes. */
  function Ancestry(p: Path): (r: set<Path>)
    ensures p != [] ==> p in r
    ensures forall d :: d in r ==> d != [] && IsPrefix(d, p)
  {
    assert p != [] ==> p[..|p|] == p;
    set i | 1 <= i <= |p| :: p[..i]
  }

  /** A file or a directory is at `p`. */
  predicate Present(files: map<Path, Bytes>, dirs: set<Path>, p: Path) {
    p in files || p in dirs
  }

  /** `q` is a file in `r` exactly when it is one in `m`, with the same contents. */
  predicate Same(m: map<Path, Bytes>, r: map<Path, Bytes>, q: Path) {
    (q in m <==> q in r) && (q in m ==> m[q] == r[q])
  }

  class FileSystem {
    var files: map<Path, Bytes>
    var dirs: set<Path>

    constructor (files: map<Path, Bytes>, dirs: set<Path>)
      ensures this.files == files && this.dirs == dirs
    {
      this.files := files;
      this.dirs := dirs;
    }

    /** `Path.exists()`: a file or a directory is there. */
    predicate Exists(p: Path)
      reads this
    {
      Present(files, dirs, p)
    }

    /** `mkdir(parents=True, exist_ok=True)`. */
    method MakeDirs(p: Path)
      modifies this
      ensures files == old(files)
      ensures dirs == old(dirs) + Ancestry(p)
    {
      dirs := dirs + Ancestry(p);
    }

    /** `mkdir(exist_ok=True)`: the parent is taken to exist. */
    method MakeDir(p: Path)
      modifies this
      ensures files == old(files)
      ensures dirs == old(dirs) + {p}
    {
      dirs := dirs + {p};
    }

    /** `shutil.copy`/`shutil.copy2`: `dst` gets the bytes of `src`. */
    method Copy(src: Path, dst: Path)
      requires src in files
      modifies this
      ensures files == old(files)[dst := old(files)[src]]
      ensures dirs == old(dirs)
    {
      files := files[dst := files[src]];
    }

    /** A successful file write. */
    method Write(p: Path, data: Bytes)
      modifies this
      ensures files == old(files)[p := data]
      ensures dirs == old(dirs)
    {
      files := files[p := data];
    }

    /**
     * The names of the files directly inside `dir`, each once, in an order
     * the model leaves open (`os.listdir`, `Path.glob("*")`).
     */
    method ListFiles(dir: Path) returns (names: seq<Name>)
      ensures Distinct(names)
      ensures forall n :: n in names <==> dir + [n] in files
    {
      var rest := set p | p in files && |p| == |dir| + 1 && p[..|dir|] == dir :: p[|dir|];
      assert forall n :: n in rest <==> dir + [n] in files by {
        forall n ensures n in rest <==> dir + [n] in files {
          var p := dir + [n];
          assert p[..|dir|] == dir && p[|dir|] == n;
          if n in rest {
            var q :| q in files && |q| == |dir| + 1 && q[..|dir|] == dir && q[|dir|] == n;
            assert q == q[..|dir|] + [q[|dir|]];
          }
        }
      }
      names := [];
      ghost var all := rest;
      while rest != {}
        invariant rest <= all
        invariant Distinct(names)
        invariant forall n :: n in names <==> n in all && n !in rest
        decreases |rest|
      {
        var n :| n in rest;
        names := names + [n];
        rest := rest - {n};
      }
    }
  }
}
