// The part of the local filesystem the converters touch: `Path.exists`,
// `ensure_directory` (`mkdir(parents=True, exist_ok=True)`) and
// `Path.write_bytes`.
module Files {
  import opened Models
  import opened Utf8

  /** The non-empty prefixes of `p`: `p` and its ancestors below the root. */
  function Ancestry(p: Path): (r: set<Path>)
    ensures forall q :: q in r <==> exists k :: 1 <= k <= |p| && q == p[..k]
  {
    set k | 1 <= k <= |p| :: p[..k]
  }

  class FileSystem {
    var files: map<Path, seq<byte>>
    var dirs: set<Path>

    /** Every ancestor of a file or directory is a directory, and no path is
        both a file and a directory. */
    ghost predicate Valid()
      reads this
    {
      (forall p, k :: p in files && 1 <= k < |p| ==> p[..k] in dirs)
      && (forall p, k :: p in dirs && 1 <= k < |p| ==> p[..k] in dirs)
      && (forall p :: p in files ==> p !in dirs)
    }

    constructor Empty()
      ensures Valid()
      ensures files == map[] && dirs == {}
    {
      files := map[];
      dirs := {};
    }

    /** `path.exists()`. */
    predicate Exists(p: Path)
      reads this
    {
      p in files || p in dirs
    }

    /** `mkdir` fails when `p` or one of its ancestors is a regular file. */
    predicate Blocked(p: Path)
      reads this
    {
      exists k :: 1 <= k <= |p| && p[..k] in files
    }

    /** `ensure_directory(p)`: creates `p` and its missing ancestors; an
        existing directory is fine, a file in the way raises. */
    method EnsureDirectory(p: Path) returns (ok: bool)
      requires Valid()
      modifies this
      ensures Valid()
      ensures ok <==> !old(Blocked(p))
      ensures ok ==> dirs == old(dirs) + Ancestry(p) && files == old(files)
      ensures !ok ==> dirs == old(dirs) && files == old(files)
    {
      if Blocked(p) {
        return false;
      }
      assert forall q :: q in Ancestry(p) ==> q !in files;
      dirs := dirs + Ancestry(p);
      forall q, k | q in dirs && 1 <= k < |q| ensures q[..k] in dirs {
        if q !in old(dirs) {
          assert q[..k] == p[..k];
        }
      }
      ok := true;
    }

    /** `p.write_bytes(data)`: fails (raises) when `p` is a directory, its
        parent is not a directory, or the device reports an error
        (`ioFails`); otherwise `p` holds exactly `data`. */
    method WriteBytes(p: Path, data: seq<byte>, ioFails: bool) returns (ok: bool)
      requires Valid()
      modifies this
      ensures Valid()
      ensures ok <==> !ioFails && p != [] && p !in old(dirs) && (|p| == 1 || p[..|p| - 1] in old(dirs))
      ensures ok ==> files == old(files)[p := data]
      ensures !ok ==> files == old(files)
      ensures dirs == old(dirs)
    {
      if ioFails || p == [] || p in dirs || (|p| > 1 && p[..|p| - 1] !in dirs) {
        return false;
      }
      files := files[p := data];
      forall q, k | q in files && 1 <= k < |q| ensures q[..k] in dirs {
        if q == p && k < |p| - 1 {
          assert q[..k] == p[..|p| - 1][..k];
        }
      }
      ok := true;
    }
  }
}
