/** The file system the plugin touches: temporary files and directories made
    by vedro's `create_tmp_file`/`create_tmp_dir`, files written into a video
    directory by the browser, and `Path.unlink(missing_ok=True)`. */
module Files {
  import opened Wrappers

  /** A temporary entry carries the number the generator drew for it (the
      random part of its real name); a file inside a directory is named
      relative to it. */
  datatype Path =
    | Tmp(id: nat, name: string)
    | Within(dir: Path, name: string)

  /** The temporary entry a path lives under. */
  function RootId(p: Path): nat {
    match p
    case Tmp(id, _) => id
    case Within(d, _) => RootId(d)
  }

  /** Existing regular files and directories, and the next number the
      temporary-name generator will draw. */
  datatype Fs = Fs(files: set<Path>, dirs: set<Path>, next: nat)

  /** Every existing entry was drawn before `next`, so the generator's next
      path is fresh. */
  ghost predicate Consistent(fs: Fs) {
    && (forall p :: p in fs.files ==> RootId(p) < fs.next)
    && (forall p :: p in fs.dirs ==> RootId(p) < fs.next)
  }

  /** `create_tmp_file(prefix=..., suffix=...)`: a new empty file. */
  function CreateTmpFile(fs: Fs, prefix: string, suffix: string): (r: (Path, Fs))
    requires Consistent(fs)
    ensures r.0 !in fs.files && r.0 !in fs.dirs
    ensures r.1.files == fs.files + {r.0} && r.1.dirs == fs.dirs
    ensures r.0.name == prefix + suffix
    ensures Consistent(r.1) && r.1.next > fs.next
  {
    var p := Tmp(fs.next, prefix + suffix);
    (p, Fs(fs.files + {p}, fs.dirs, fs.next + 1))
  }

  /** `create_tmp_dir(prefix=...)`: a new empty directory. */
  function CreateTmpDir(fs: Fs, prefix: string): (r: (Path, Fs))
    requires Consistent(fs)
    ensures r.0 !in fs.files && r.0 !in fs.dirs
    ensures r.1.dirs == fs.dirs + {r.0} && r.1.files == fs.files
    ensures r.0.name == prefix
    ensures forall p :: p in r.1.files ==> !(p.Within? && p.dir == r.0)
    ensures Consistent(r.1) && r.1.next > fs.next
  {
    var d := Tmp(fs.next, prefix);
    assert forall p :: p in fs.files && p.Within? ==> RootId(p) == RootId(p.dir);
    (d, Fs(fs.files, fs.dirs + {d}, fs.next + 1))
  }

  /** `path.unlink(missing_ok=True)`: removing an absent file is not an error. */
  function Unlink(fs: Fs, p: Path): (r: Fs)
    ensures p !in r.files
    ensures forall q :: q != p ==> (q in r.files <==> q in fs.files)
    ensures r.dirs == fs.dirs && r.next == fs.next
    ensures Consistent(fs) ==> Consistent(r)
  {
    fs.(files := fs.files - {p})
  }

  predicate IsFileIn(fs: Fs, p: Path, dir: Path) {
    p in fs.files && p.Within? && p.dir == dir
  }

  /** `listing` lists every regular file in `dir`, in the order the file
      system iterates the directory (it may list other entries too). */
  predicate Lists(fs: Fs, dir: Path, listing: seq<Path>) {
    forall p :: p in fs.files && IsFileIn(fs, p, dir) ==> p in listing
  }

  /** The plugin's `_find_file`: the first regular file met while iterating the
      directory, or none when there is no directory or no file in it. The
      iteration order of the file system is the `listing` argument. */
  function FindFile(fs: Fs, dir: Option<Path>, listing: seq<Path>): (r: Option<Path>)
    ensures r.Some? ==> dir.Some? && dir.value in fs.dirs && IsFileIn(fs, r.value, dir.value)
    ensures r.Some? ==> r.value in listing
    ensures r.None? <==>
      (dir.None? || dir.value !in fs.dirs || forall i :: 0 <= i < |listing| ==> !IsFileIn(fs, listing[i], dir.value))
    ensures dir.Some? && Lists(fs, dir.value, listing) ==>
      (r.Some? <==> dir.value in fs.dirs && exists p :: IsFileIn(fs, p, dir.value))
  {
    if dir.None? || dir.value !in fs.dirs then None else FirstFileIn(fs, dir.value, listing)
  }

  /** The first entry of `listing` that is a regular file inside `dir`. */
  function FirstFileIn(fs: Fs, dir: Path, listing: seq<Path>): (r: Option<Path>)
    ensures r.Some? ==> IsFileIn(fs, r.value, dir) && r.value in listing
    ensures r.None? <==> forall i :: 0 <= i < |listing| ==> !IsFileIn(fs, listing[i], dir)
    ensures r.Some? ==> exists k :: 0 <= k < |listing| && listing[k] == r.value
                          && forall i :: 0 <= i < k ==> !IsFileIn(fs, listing[i], dir)
  {
    if |listing| == 0 then None
    else if IsFileIn(fs, listing[0], dir) then Some(listing[0])
    else
      var rest := FirstFileIn(fs, dir, listing[1..]);
      if rest.Some? then
        ghost var k :| 0 <= k < |listing[1..]| && listing[1..][k] == rest.value
                       && forall i :: 0 <= i < k ==> !IsFileIn(fs, listing[1..][i], dir);
        assert listing[k + 1] == rest.value;
        assert forall i :: 0 <= i < k + 1 ==> !IsFileIn(fs, listing[i], dir) by {
          forall i | 0 <= i < k + 1 ensures !IsFileIn(fs, listing[i], dir) {
            if i > 0 { assert listing[i] == listing[1..][i - 1]; }
          }
        }
        rest
      else
        assert forall i :: 1 <= i < |listing| ==> listing[i] == listing[1..][i - 1];
        rest
  }
}
