/**
 Self-update: verification of the downloaded archive, and replacement of the
 executable as a sequence of file operations any of which may fail, and after any
 of which the process may die.
 */
module Update {
  import opened Common
  import opened Text

  type Data = string
  type Path = string
  type Files = map<Path, Data>

  const CHECKSUMS_ASSET: string := "SHA256SUMS"
  const MAX_ARCHIVE: nat := 104857600
  const MAX_CHECKSUMS: nat := 1048576

  datatype Release = Release(tag: string, assets: map<string, string>)

  /** The network, SHA-256 in hex, gzip and tar, and the whitespace-separated fields of each line of a file. */
  datatype World = World(
    fetch: string -> Option<Data>,
    sha256: Data -> string,
    extract: (Data, string) -> Option<Data>,
    lines: Data -> seq<seq<string>>)

  function BinaryName(tag: string, goos: string, goarch: string): string {
    "ssh-autoproxy-" + tag + "-" + goos + "-" + goarch
  }

  function ArchiveName(tag: string, goos: string, goarch: string): string {
    BinaryName(tag, goos, goarch) + ".tar.gz"
  }

  function Download(w: World, url: string, limit: nat): Option<Data> {
    match w.fetch(url)
    case None => None
    case Some(d) => if |d| > limit then None else Some(d)
  }

  // ---- Checksums ----

  function TrimStar(s: string): string {
    if s != "" && s[0] == '*' then s[1..] else s
  }

  /** A line lists `name` with `sum`: two fields, the second with or without a star in front of the name. */
  ghost predicate Lists(fields: seq<string>, name: string, sum: string) {
    && |fields| == 2 && fields[0] == sum
    && (fields[1] == "*" + name || (fields[1] == name && !("*" <= name)))
  }

  /** The last line that lists a name decides its checksum; other lines are ignored. */
  ghost predicate DecidedBy(lines: seq<seq<string>>, name: string, sum: string) {
    exists i :: 0 <= i < |lines| && Lists(lines[i], name, sum)
                && forall j, other :: i < j < |lines| ==> !Lists(lines[j], name, other)
  }

  method ParseChecksums(lines: seq<seq<string>>) returns (sums: map<string, string>)
    ensures forall name, sum :: name in sums && sums[name] == sum <==> DecidedBy(lines, name, sum)
  {
    sums := map[];
    for i := 0 to |lines|
      invariant forall name, sum :: name in sums && sums[name] == sum <==> DecidedBy(lines[..i], name, sum)
    {
      var fields := lines[i];
      ghost var before := lines[..i];
      assert lines[..i + 1] == before + [fields];
      forall name, sum ensures DecidedBy(before + [fields], name, sum) <==>
          Lists(fields, name, sum) || (DecidedBy(before, name, sum) && forall other :: !Lists(fields, name, other))
      {
        DecideOneMore(before, fields, name, sum);
      }
      if |fields| == 2 {
        assert Lists(fields, TrimStar(fields[1]), fields[0]);
        sums := sums[TrimStar(fields[1]) := fields[0]];
      }
    }
    assert lines[..|lines|] == lines;
  }

  lemma {:induction false} DecideOneMore(lines: seq<seq<string>>, fields: seq<string>, name: string, sum: string)
    ensures DecidedBy(lines + [fields], name, sum) <==>
      Lists(fields, name, sum) || (DecidedBy(lines, name, sum) && forall other :: !Lists(fields, name, other))
  {
    var all := lines + [fields];
    var n := |lines|;
    assert all[n] == fields;
    if DecidedBy(all, name, sum) && !Lists(fields, name, sum) {
      var i :| 0 <= i < |all| && Lists(all[i], name, sum)
               && forall j, other :: i < j < |all| ==> !Lists(all[j], name, other);
      assert i < n && lines[i] == all[i];
      forall j, other | i < j < n ensures !Lists(lines[j], name, other) {
        assert all[j] == lines[j];
      }
    }
    if DecidedBy(lines, name, sum) && forall other :: !Lists(fields, name, other) {
      var i :| 0 <= i < n && Lists(lines[i], name, sum)
               && forall j, other :: i < j < n ==> !Lists(lines[j], name, other);
      assert all[i] == lines[i];
      forall j, other | i < j < |all| ensures !Lists(all[j], name, other) {
        if j < n {
          assert all[j] == lines[j];
        }
      }
    }
  }

  // ---- What may be installed ----

  /** `bin` is the whole extracted file of the platform's archive, whose hash is the one SHA256SUMS lists for it. */
  ghost predicate Verified(w: World, rel: Release, goos: string, goarch: string, bin: Data) {
    var name := "ssh-autoproxy-" + rel.tag + "-" + goos + "-" + goarch;
    var archive := name + ".tar.gz";
    && archive in rel.assets && "SHA256SUMS" in rel.assets
    && exists sums, data, want ::
         && w.fetch(rel.assets["SHA256SUMS"]) == Some(sums) && |sums| <= 1048576
         && w.fetch(rel.assets[archive]) == Some(data) && |data| <= 104857600
         && DecidedBy(w.lines(sums), archive, want) && ToLower(w.sha256(data)) == ToLower(want)
         && w.extract(data, name) == Some(bin)
  }

  // ---- The disk ----

  /** `history` holds every state a dying process could leave: after each operation, and inside a partial write. */
  class Disk {
    var files: Files
    ghost var history: seq<Files>
    ghost var failures: nat   // operations that have reported an error

    constructor (files: Files)
      ensures this.files == files && history == [files] && failures == 0
    {
      this.files := files;
      history := [files];
      failures := 0;
    }

    /** os.CreateTemp beside `path`: a new, empty file under a free name of its own pattern. */
    method CreateTemp(path: Path) returns (name: Option<Path>)
      modifies this
      ensures match name
              case None => files == old(files) && history == old(history)
              case Some(n) => n != path && n !in old(files)
                              && files == old(files)[n := ""] && history == old(history) + [files]
      ensures failures == old(failures) + if name.Some? then 0 else 1
    {
      if * {
        failures := failures + 1;
        return None;
      }
      var n := FreeName(files.Keys + {path});
      files := files[n := ""];
      history := history + [files];
      return Some(n);
    }

    method FreeName(taken: set<Path>) returns (n: Path)
      ensures n !in taken
    {
      n := "tmp";
      var longer := taken;
      while n in taken
        invariant longer <= taken && forall t :: t in taken && |t| >= |n| ==> t in longer
        decreases longer
      {
        longer := longer - {n};
        n := n + "x";
      }
    }

    /** A write may stop half way. */
    method Write(name: Path, data: Data) returns (ok: bool)
      requires name in files
      modifies this
      ensures files.Keys == old(files).Keys && (forall p :: p in files && p != name ==> files[p] == old(files)[p])
      ensures ok ==> files[name] == old(files)[name] + data
      ensures history == old(history) + [files]
      ensures failures == old(failures) + if ok then 0 else 1
    {
      var k: nat :| k <= |data|;
      files := files[name := files[name] + data[..k]];
      history := history + [files];
      ok := k == |data|;
      failures := failures + if ok then 0 else 1;
      assert ok ==> data[..k] == data;
    }

    /** Chmod and Close: they may fail, and change no content. */
    method Touch() returns (ok: bool)
      modifies `failures
      ensures failures == old(failures) + if ok then 0 else 1
    {
      ok := *;
      failures := failures + if ok then 0 else 1;
    }

    /** os.Rename: atomic, or not at all. */
    method Rename(from: Path, to: Path) returns (ok: bool)
      requires from in files && from != to
      modifies this
      ensures files == if ok then (old(files) - {from})[to := old(files)[from]] else old(files)
      ensures history == old(history) + [files]
      ensures failures == old(failures) + if ok then 0 else 1
    {
      ok := *;
      failures := failures + if ok then 0 else 1;
      if ok {
        files := (files - {from})[to := files[from]];
      }
      history := history + [files];
    }

    /** os.Remove, its error ignored. */
    method Remove(name: Path)
      modifies this
      ensures files == old(files) || files == old(files) - {name}
      ensures name !in old(files) ==> files == old(files)
      ensures history == old(history) + [files] && failures == old(failures)
    {
      if * {
        files := files - {name};
      }
      history := history + [files];
    }
  }

  predicate SameAt(a: Files, b: Files, p: Path) {
    (p in a <==> p in b) && (p in a ==> a[p] == b[p])
  }

  /** Every other file is as it was; only the temporary file may have been added. */
  ghost predicate OthersKept(a: Files, b: Files, path: Path) {
    forall p :: p in a && p != path ==> SameAt(a, b, p)
  }

  /** `path` holds its old content, or all of `data`. */
  ghost predicate OldOrNew(a: Files, b: Files, path: Path, data: Data) {
    OthersKept(a, b, path) && (SameAt(a, b, path) || (path in b && b[path] == data))
  }

  /** No moment the process could die at shows `path` with anything but its old content or all of `data`. */
  ghost predicate NeverTorn(a: Files, history: seq<Files>, from: nat, path: Path, data: Data) {
    forall i :: from <= i < |history| ==> OldOrNew(a, history[i], path, data)
  }

  /** Write, Chmod and Close, the first failure ending it. */
  method FillTemp(disk: Disk, tmp: Path, data: Data) returns (ok: bool)
    requires tmp in disk.files && disk.files[tmp] == ""
    modifies disk
    ensures disk.files.Keys == old(disk.files).Keys
    ensures OthersKept(old(disk.files), disk.files, tmp)
    ensures ok ==> disk.files[tmp] == data
    ensures disk.history == old(disk.history) + [disk.files]
    ensures disk.failures == old(disk.failures) + if ok then 0 else 1
  {
    ok := disk.Write(tmp, data);
    assert "" + data == data;
    if ok {
      ok := disk.Touch();
    }
    if ok {
      ok := disk.Touch();
    }
  }

  /** `a` with a temporary file beside the others. */
  ghost predicate WithTemp(a: Files, b: Files, tmp: Path) {
    tmp !in a && b.Keys == a.Keys + {tmp} && OthersKept(a, b, tmp)
  }

  lemma {:induction false} TempIsHarmless(a: Files, b: Files, tmp: Path, path: Path, data: Data)
    requires tmp != path && WithTemp(a, b, tmp)
    ensures OldOrNew(a, b, path, data) && OldOrNew(a, b - {tmp}, path, data)
  {
  }

  lemma {:induction false} RenameInstalls(a: Files, b: Files, tmp: Path, path: Path, data: Data)
    requires tmp != path && WithTemp(a, b, tmp) && b[tmp] == data
    ensures (b - {tmp})[path := b[tmp]] == a[path := data]
    ensures OldOrNew(a, a[path := data], path, data)
  {
  }

  /** Succeeds exactly when no operation has failed. */
  method ReplaceFile(disk: Disk, path: Path, data: Data) returns (ok: bool)
    modifies disk
    ensures ok <==> disk.failures == old(disk.failures)
    ensures old(disk.history) <= disk.history
    ensures NeverTorn(old(disk.files), disk.history, |old(disk.history)|, path, data)
    ensures if ok then disk.files == old(disk.files)[path := data]
            else SameAt(old(disk.files), disk.files, path) && OthersKept(old(disk.files), disk.files, path)
  {
    var tmp := disk.CreateTemp(path);
    if tmp.None? {
      return false;
    }
    ghost var before := old(disk.files);
    TempIsHarmless(before, disk.files, tmp.value, path, data);
    ok := FillTemp(disk, tmp.value, data);
    assert WithTemp(before, disk.files, tmp.value);
    TempIsHarmless(before, disk.files, tmp.value, path, data);
    if ok {
      RenameInstalls(before, disk.files, tmp.value, path, data);
      hide WithTemp, OldOrNew;
      ok := disk.Rename(tmp.value, path);
    }
    disk.Remove(tmp.value);
  }

  /** There is a verified executable to install. */
  ghost predicate Installable(w: World, rel: Release, goos: string, goarch: string) {
    exists bin :: Verified(w, rel, goos, goarch, bin)
  }

  /** Installs the verified executable if there is one and no file operation fails; without one it touches nothing. */
  method Apply(w: World, rel: Release, goos: string, goarch: string, disk: Disk, exe: Path) returns (ok: bool)
    modifies disk
    ensures old(disk.history) <= disk.history
    ensures ok <==> Installable(w, rel, goos, goarch) && disk.failures == old(disk.failures)
    ensures !Installable(w, rel, goos, goarch) ==> disk.files == old(disk.files) && disk.history == old(disk.history)
    ensures !ok ==> SameAt(old(disk.files), disk.files, exe)
    ensures ok ==> exe in disk.files && Verified(w, rel, goos, goarch, disk.files[exe])
    ensures forall i :: |old(disk.history)| <= i < |disk.history| ==>
              || SameAt(old(disk.files), disk.history[i], exe)
              || (exe in disk.history[i] && Verified(w, rel, goos, goarch, disk.history[i][exe]))
    ensures OthersKept(old(disk.files), disk.files, exe)
  {
    var archive := ArchiveName(rel.tag, goos, goarch);
    if archive !in rel.assets || CHECKSUMS_ASSET !in rel.assets {
      return false;
    }
    var sumsData := Download(w, rel.assets[CHECKSUMS_ASSET], MAX_CHECKSUMS);
    if sumsData.None? {
      return false;
    }
    var sums := ParseChecksums(w.lines(sumsData.value));
    if archive !in sums {
      return false;
    }
    var data := Download(w, rel.assets[archive], MAX_ARCHIVE);
    if data.None? {
      return false;
    }
    if ToLower(w.sha256(data.value)) != ToLower(sums[archive]) {
      return false;
    }
    assert DecidedBy(w.lines(sumsData.value), archive, sums[archive]);
    var bin := w.extract(data.value, BinaryName(rel.tag, goos, goarch));
    if bin.None? {
      return false;
    }
    assert Verified(w, rel, goos, goarch, bin.value);
    ok := ReplaceFile(disk, exe, bin.value);
  }
}
