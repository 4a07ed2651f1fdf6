/**
 * filesystem_storage_backend: replacing an object by write-temp, fsync, rename, fsync-directory.
 * Files have data that may not have reached the disk, and there is a history of directories since the
 * directory was last synced; a crash keeps any of these directories.
 */
module AtomicPut {
  import opened Prelude

  const SUFFIX: string := ".tmp"

  /** A file's bytes and whether they are on disk. */
  datatype File = File(bytes: seq<Byte>, synced: bool)

  type Dir = map<string, nat>

  /** dirs[0] is the directory on disk, the last one the directory programs see. */
  datatype FileSystem = FileSystem(dirs: seq<Dir>, files: map<nat, File>, next: nat) {
    predicate Usable() { dirs != [] }

    function Current(): Dir
      requires Usable()
    {
      dirs[|dirs| - 1]
    }

    // ----- system calls ----------------------------------------------------------------

    function InodeFor(name: string): nat
      requires Usable()
    {
      if name in Current() then Current()[name] else next
    }

    /** open with truncation. */
    function OpenTruncated(name: string): FileSystem
      requires Usable()
    {
      var files' := files[InodeFor(name) := File([], false)];
      if name in Current() then this.(files := files')
      else FileSystem(dirs + [Current()[name := next]], files', next + 1)
    }

    /** The file's bytes become these; they are in memory only. */
    function Write(name: string, bytes: seq<Byte>): FileSystem
      requires Usable() && name in Current()
    {
      this.(files := files[Current()[name] := File(bytes, false)])
    }

    function SyncFile(name: string): FileSystem
      requires Usable() && name in Current() && Current()[name] in files
    {
      this.(files := files[Current()[name] := File(files[Current()[name]].bytes, true)])
    }

    function Rename(from: string, to: string): FileSystem
      requires Usable() && from in Current()
    {
      this.(dirs := dirs + [Moved(Current(), from, to, Current()[from])])
    }

    function SyncDir(): FileSystem
      requires Usable()
    {
      this.(dirs := [Current()])
    }
  }

  function Moved(d: Dir, from: string, to: string, inode: nat): Dir {
    (map n | n in d && n != from :: d[n])[to := inode]
  }

  /** What a restart may find: one of the directories, with torn data where nothing was synced. */
  ghost predicate CrashImage(fs: FileSystem, img: map<string, seq<Byte>>) {
    exists d :: d in fs.dirs && ImageOf(fs, d, img)
  }

  ghost predicate ImageOf(fs: FileSystem, d: Dir, img: map<string, seq<Byte>>) {
    && img.Keys == d.Keys
    && forall n :: n in d && d[n] in fs.files && fs.files[d[n]].synced ==> img[n] == fs.files[d[n]].bytes
  }

  // ----- do_put_object -----------------------------------------------------------------

  datatype Step = Before | Opened | Written(n: nat) | Synced | Renamed | Done

  /** The file system after a step of do_put_object. */
  ghost function After(fs: FileSystem, name: string, content: seq<Byte>, step: Step): (r: FileSystem)
    requires fs.Usable() && (step.Written? ==> step.n <= |content|)
  {
    var tmp := name + SUFFIX;
    var open := fs.OpenTruncated(tmp);
    var written := open.Write(tmp, content);
    var synced := written.SyncFile(tmp);
    match step
    case Before => fs
    case Opened => open
    case Written(n) => open.Write(tmp, content[..n])
    case Synced => synced
    case Renamed => synced.Rename(tmp, name)
    case Done => synced.Rename(tmp, name).SyncDir()
  }

  /** No name but tmp, on disk or in memory, leads to the file that tmp names or will name. */
  ghost predicate OwnFile(fs: FileSystem, tmp: string) {
    fs.Usable() && forall d, n :: d in fs.dirs && n in d && d[n] == fs.InodeFor(tmp) ==> n == tmp
  }

  /** Whatever happens, a restart finds these bytes (or nothing) under the name. */
  ghost predicate Settled(fs: FileSystem, name: string, was: Option<seq<Byte>>) {
    forall d :: d in fs.dirs ==>
      if name in d then d[name] in fs.files && fs.files[d[name]].synced && was == Some(fs.files[d[name]].bytes)
      else was == None
  }

  function Lookup(img: map<string, seq<Byte>>, name: string): Option<seq<Byte>> {
    if name in img then Some(img[name]) else None
  }

  /** The directories a put goes through, and the one file it changes. */
  ghost predicate Shape(fs: FileSystem, fs': FileSystem, name: string, f: File, content: seq<Byte>)
    requires fs.Usable()
  {
    var tmp := name + SUFFIX;
    var i := fs.InodeFor(tmp);
    && fs'.files == fs.files[i := f]
    && forall d :: d in fs'.dirs ==>
         || d in fs.dirs
         || d == fs.Current()[tmp := i]
         || (f == File(content, true) && d == Moved(fs.Current()[tmp := i], tmp, name, i))
  }

  lemma SuffixDiffers(name: string)
    ensures name + SUFFIX != name
  {
    assert |name + SUFFIX| == |name| + 4;
  }

  lemma StepShape(fs: FileSystem, name: string, content: seq<Byte>, step: Step) returns (f: File)
    requires fs.Usable() && !step.Before? && (step.Written? ==> step.n <= |content|)
    ensures Shape(fs, After(fs, name, content, step), name, f, content)
    ensures step == Done ==>
      var (tmp, i) := (name + SUFFIX, fs.InodeFor(name + SUFFIX));
      After(fs, name, content, step).dirs == [Moved(fs.Current()[tmp := i], tmp, name, i)]
    ensures step == Done ==> f == File(content, true)
  {
    var tmp := name + SUFFIX;
    var i := fs.InodeFor(tmp);
    var open := fs.OpenTruncated(tmp);
    assert open.Current() == fs.Current()[tmp := i];
    assert fs.Current() in fs.dirs;
    f := match step
      case Opened => File([], false)
      case Written(n) => File(content[..n], false)
      case _ => File(content, true);
    assert After(fs, name, content, step).files == fs.files[i := f];
  }

  // ----- atomicity ---------------------------------------------------------------------

  /** An image of the earlier file system that agrees with img everywhere but on the object and its temporary. */
  ghost function Rewound(fs: FileSystem, d: Dir, img: map<string, seq<Byte>>, name: string): map<string, seq<Byte>> {
    map n | n in d ::
      if n in img && n != name && n != name + SUFFIX then img[n]
      else if d[n] in fs.files then fs.files[d[n]].bytes else []
  }

  lemma RewoundIsImage(fs: FileSystem, fs': FileSystem, name: string, f: File, content: seq<Byte>, d: Dir, d': Dir,
                       img: map<string, seq<Byte>>)
    requires fs.Usable() && OwnFile(fs, name + SUFFIX) && Shape(fs, fs', name, f, content)
    requires d in fs.dirs && ImageOf(fs', d', img)
    requires forall n :: n != name && n != name + SUFFIX ==> (n in d <==> n in d') && (n in d ==> d[n] == d'[n])
    ensures ImageOf(fs, d, Rewound(fs, d, img, name))
    ensures forall n :: n != name && n != name + SUFFIX ==> Lookup(img, n) == Lookup(Rewound(fs, d, img, name), n)
  {
    hide Shape;
    var img0 := Rewound(fs, d, img, name);
    assert fs'.files == fs.files[fs.InodeFor(name + SUFFIX) := f] by { ShapeFiles(fs, fs', name, f, content); }
    forall n | n in d && d[n] in fs.files && fs.files[d[n]].synced ensures img0[n] == fs.files[d[n]].bytes {
      if n != name && n != name + SUFFIX {
        assert d[n] != fs.InodeFor(name + SUFFIX);
        assert img[n] == fs'.files[d'[n]].bytes;
      }
    }
  }

  lemma ShapeFiles(fs: FileSystem, fs': FileSystem, name: string, f: File, content: seq<Byte>)
    requires fs.Usable() && Shape(fs, fs', name, f, content)
    ensures fs'.files == fs.files[fs.InodeFor(name + SUFFIX) := f]
  {
  }

  /** The directory of fs that a directory of the put stems from. */
  lemma Origin(fs: FileSystem, fs': FileSystem, name: string, f: File, content: seq<Byte>, d': Dir) returns (d: Dir)
    requires fs.Usable() && Shape(fs, fs', name, f, content) && d' in fs'.dirs
    ensures d in fs.dirs
    ensures forall n :: n != name && n != name + SUFFIX ==> (n in d <==> n in d') && (n in d ==> d[n] == d'[n])
    ensures
      || ((name in d <==> name in d') && (name in d ==> d[name] == d'[name]))
      || (f == File(content, true) && name in d' && d'[name] == fs.InodeFor(name + SUFFIX))
  {
    SuffixDiffers(name);
    d := if d' in fs.dirs then d' else fs.Current();
  }

  /**
   * Atomic put: after a crash at any step, an object shows its old bytes in full or its new bytes in full, and
   * everything else but the temporary is as a crash before the call could have left it.
   */
  lemma PutIsAtomic(fs: FileSystem, name: string, content: seq<Byte>, was: Option<seq<Byte>>, step: Step,
                    img: map<string, seq<Byte>>)
    returns (img0: map<string, seq<Byte>>)
    requires OwnFile(fs, name + SUFFIX) && Settled(fs, name, was) && (step.Written? ==> step.n <= |content|)
    requires CrashImage(After(fs, name, content, step), img)
    ensures Lookup(img, name) == was || Lookup(img, name) == Some(content)
    ensures CrashImage(fs, img0)
    ensures forall n :: n != name && n != name + SUFFIX ==> Lookup(img, n) == Lookup(img0, n)
  {
    if step.Before? {
      img0 := img;
    } else {
      var fs' := After(fs, name, content, step);
      var f := StepShape(fs, name, content, step);
      hide Shape, After, OwnFile, Settled, ImageOf, Lookup;
      var d' :| d' in fs'.dirs && ImageOf(fs', d', img);
      var d := Origin(fs, fs', name, f, content, d');
      RewoundIsImage(fs, fs', name, f, content, d, d', img);
      img0 := Rewound(fs, d, img, name);
      NameShows(fs, fs', name, f, content, was, d, d', img);
    }
  }

  lemma NameShows(fs: FileSystem, fs': FileSystem, name: string, f: File, content: seq<Byte>, was: Option<seq<Byte>>,
                  d: Dir, d': Dir, img: map<string, seq<Byte>>)
    requires fs.Usable() && OwnFile(fs, name + SUFFIX) && Settled(fs, name, was) && Shape(fs, fs', name, f, content)
    requires d in fs.dirs && ImageOf(fs', d', img)
    requires
      || ((name in d <==> name in d') && (name in d ==> d[name] == d'[name]))
      || (f == File(content, true) && name in d' && d'[name] == fs.InodeFor(name + SUFFIX))
    ensures Lookup(img, name) == was || Lookup(img, name) == Some(content)
  {
    ShapeFiles(fs, fs', name, f, content);
    hide Shape;
    SuffixDiffers(name);
    assert (name in img) == (name in d');
  }

  /** After the call only the new bytes can be found. */
  lemma PutIsDurable(fs: FileSystem, name: string, content: seq<Byte>)
    requires fs.Usable()
    ensures Settled(After(fs, name, content, Done), name, Some(content))
  {
    var f := StepShape(fs, name, content, Done);
  }

  /** One directory, no file with two names. */
  ghost predicate NoLinks(fs: FileSystem) {
    && |fs.dirs| == 1
    && (forall n :: n in fs.dirs[0] ==> fs.dirs[0][n] < fs.next)
    && forall m, n :: m in fs.dirs[0] && n in fs.dirs[0] && fs.dirs[0][m] == fs.dirs[0][n] ==> m == n
  }

  /** Puts can follow each other: none gives a file a second name. */
  lemma PutKeepsNoLinks(fs: FileSystem, name: string, content: seq<Byte>)
    requires NoLinks(fs)
    ensures NoLinks(After(fs, name, content, Done))
    ensures OwnFile(fs, name + SUFFIX)
  {
    SuffixDiffers(name);
    var tmp := name + SUFFIX;
    var i := fs.InodeFor(tmp);
    var f := StepShape(fs, name, content, Done);
    var d, d' := fs.Current()[tmp := i], After(fs, name, content, Done).dirs[0];
    assert d' == Moved(d, tmp, name, i);
  }

  // ----- do_list_objects ---------------------------------------------------------------

  /** path::extension of a name with one component: from the last dot, unless that is the first character. */
  function Extension(name: string): string {
    var k := LastDot(name);
    if k <= 0 then "" else name[k..]
  }

  function LastDot(name: string): (k: int)
    ensures -1 <= k < |name|
    ensures k >= 0 ==> name[k] == '.' && forall i :: k < i < |name| ==> name[i] != '.'
    ensures k < 0 ==> '.' !in name
  {
    if name == "" then -1 else if name[|name| - 1] == '.' then |name| - 1 else LastDot(name[..|name| - 1])
  }

  /** Every temporary of a put is left out of the listing. */
  lemma TemporariesAreNotListed(name: string)
    requires name != ""
    ensures Extension(name + SUFFIX) == SUFFIX
  {
    var tmp := name + SUFFIX;
    assert tmp[|name|] == '.' && tmp[|name| + 1] == 't' && tmp[|name| + 2] == 'm' && tmp[|name| + 3] == 'p';
    assert LastDot(tmp) == |name|;
    assert tmp[|name|..] == SUFFIX;
  }

  /** The names a directory shows. */
  method ListObjects(entries: seq<string>) returns (names: set<string>)
    ensures forall n :: n in names <==> n in entries && Extension(n) != SUFFIX
  {
    names := {};
    for i := 0 to |entries|
      invariant forall n :: n in names <==> n in entries[..i] && Extension(n) != SUFFIX
    {
      if Extension(entries[i]) != SUFFIX {
        names := names + {entries[i]};
      }
    }
  }
}
