/** Backup manifests: digests of directories, computed when a backup is made and checked before it
    is restored. */
module DirectoryDigest {
  import opened Hashing
  import opened Paths
  import opened Text

  type Tree = map<Path, Bytes>

  const INDEX_NAME := "objects.json"

  /** A directory: all paths below it, files and directories alike, in the order in which the file
      system lists them; and the contents of the files. */
  datatype Folder = Missing | Folder(paths: seq<Path>, files: Tree) {
    ghost predicate Valid() {
      Folder? ==> NoRepeats(paths) && (forall p | p in files :: p in paths) && ProperTree(files)
    }

    function Files(): Tree { if Missing? then map[] else files }
  }

  ghost predicate ProperTree(t: Tree) { forall p | p in t :: Proper(p) }

  datatype Meta = Meta(key: string, sha: string, size: nat)

  /** JSON text of a metadata list, and its reading back. */
  datatype Format = Format(write: seq<Meta> -> Bytes, read: Bytes -> seq<Meta>) {
    ghost predicate Lawful() { forall m :: read(write(m)) == m }
  }

  predicate IsIndex(p: Path) { p != [] && p[|p| - 1] == INDEX_NAME }

  /** The files that count as stored objects. */
  function Payload(t: Tree): Tree { map p | p in t && !IsIndex(p) :: t[p] }

  // ---- The digest of a tree ----

  ghost function Ascending(keys: set<Path>): seq<Path> {
    if keys == {} then [] else var p :| p in keys; Insert(p, Ascending(keys - {p}))
  }

  lemma {:induction false} AscendingOf(keys: set<Path>)
    ensures Ascends(Ascending(keys)) && forall p :: p in Ascending(keys) <==> p in keys
  {
    if keys != {} {
      var p :| p in keys && Ascending(keys) == Insert(p, Ascending(keys - {p}));
      AscendingOf(keys - {p});
      InsertHas(p, Ascending(keys - {p}));
      InsertAscends(p, Ascending(keys - {p}));
    }
  }

  function MetaOf<H(!new)>(h: Hasher<H>, p: Path, data: Bytes): Meta { Meta(Join(p), h.Hash(data), |data|) }

  function Entries<H(!new)>(h: Hasher<H>, t: Tree, paths: seq<Path>): seq<Meta> {
    if paths == [] then []
    else
      var front, p := Entries(h, t, paths[..|paths| - 1]), paths[|paths| - 1];
      if p in t then front + [MetaOf(h, p, t[p])] else front
  }

  /** The metadata of a tree: one entry for each file, in ascending order of path. */
  ghost function Metadata<H(!new)>(h: Hasher<H>, t: Tree): seq<Meta> { Entries(h, t, Ascending(t.Keys)) }

  /** The aggregate digest: a function of the map from path to content, and of nothing else. */
  ghost function Digest<H(!new)>(h: Hasher<H>, f: Format, t: Tree): string { h.Hash(f.write(Metadata(h, t))) }

  function Within(paths: seq<Path>, t: Tree): seq<Path> {
    if paths == [] then []
    else Within(paths[..|paths| - 1], t) + (if paths[|paths| - 1] in t then [paths[|paths| - 1]] else [])
  }

  lemma EntriesMore<H(!new)>(h: Hasher<H>, t: Tree, paths: seq<Path>, p: Path)
    ensures Entries(h, t, paths + [p]) == Entries(h, t, paths) + (if p in t then [MetaOf(h, p, t[p])] else [])
  {
    assert (paths + [p])[..|paths|] == paths;
  }

  lemma {:induction false} EntriesWithin<H(!new)>(h: Hasher<H>, t: Tree, paths: seq<Path>)
    ensures Entries(h, t, paths) == Entries(h, t, Within(paths, t))
  {
    if paths != [] {
      var front, p := paths[..|paths| - 1], paths[|paths| - 1];
      EntriesWithin(h, t, front);
      EntriesMore(h, t, Within(front, t), p);
      assert Within(front, t) + [] == Within(front, t);
    }
  }

  ghost predicate AllBefore(s: seq<Path>, p: Path) { forall q | q in s :: PathOrder(q, p) < 0 }

  lemma AscendsSnoc(s: seq<Path>, p: Path)
    requires Ascends(s) && AllBefore(s, p)
    ensures Ascends(s + [p])
  {
  }

  lemma FrontAscends(s: seq<Path>)
    requires Ascends(s) && s != []
    ensures Ascends(s[..|s| - 1]) && AllBefore(s[..|s| - 1], s[|s| - 1])
  {
  }

  lemma {:induction false} WithinAscends(paths: seq<Path>, t: Tree)
    requires Ascends(paths)
    ensures Ascends(Within(paths, t)) && forall p :: p in Within(paths, t) <==> p in paths && p in t
  {
    if paths != [] {
      var front, p := paths[..|paths| - 1], paths[|paths| - 1];
      FrontAscends(paths);
      WithinAscends(front, t);
      AscendsSnoc(Within(front, t), p);
      assert p in paths && paths == front + [p];
      hide Ascends;
    }
  }

  /** In whatever order the file system lists the paths: sorting them leads to the metadata of the tree. */
  lemma SortedScan<H(!new)>(h: Hasher<H>, t: Tree, paths: seq<Path>)
    requires NoRepeats(paths) && forall p | p in t :: p in paths
    ensures Entries(h, t, Sorted(paths)) == Metadata(h, t)
  {
    SortedAscends(paths);
    WithinAscends(Sorted(paths), t);
    AscendingOf(t.Keys);
    OneAscendingList(Within(Sorted(paths), t), Ascending(t.Keys));
    EntriesWithin(h, t, Sorted(paths));
  }

  /** One file of the scan. */
  lemma ScanNext<H(!new)>(h: Hasher<H>, t: Tree, order: seq<Path>, k: nat)
    requires k < |order|
    ensures Entries(h, t, order[..k + 1])
            == Entries(h, t, order[..k]) + (if order[k] in t then [MetaOf(h, order[k], t[order[k]])] else [])
  {
    EntriesMore(h, t, order[..k], order[k]);
    assert order[..k + 1] == order[..k] + [order[k]];
  }

  /** The loop of both scans; the scan of objects leaves out files named objects.json. */
  method Scan<H(!new)>(h: Hasher<H>, folder: Folder, skipIndex: bool) returns (metadata: seq<Meta>)
    requires h.Lawful() && folder.Valid()
    ensures metadata == Metadata(h, if skipIndex then Payload(folder.Files()) else folder.Files())
  {
    metadata := [];
    ghost var t := if skipIndex then Payload(folder.Files()) else folder.Files();
    if folder.Missing? {
      assert t.Keys == {};
      return;
    }
    var order := Sorted(folder.paths);
    SortedScan(h, t, folder.paths);
    assert order[..0] == [] && order[..|order|] == order;
    for k := 0 to |order|
      invariant metadata == Entries(h, t, order[..k])
    {
      ScanNext(h, t, order, k);
      var path := order[k];
      if path !in folder.files { continue; }
      if skipIndex && IsIndex(path) { continue; }
      var sha := Streamed(h, folder.files[path], 65536);
      metadata := metadata + [Meta(Join(path), sha, |folder.files[path]|)];
    }
  }

  /** `_aggregate_sha256_dir`. */
  method AggregateDir<H(!new)>(h: Hasher<H>, f: Format, folder: Folder) returns (sha: string, count: nat)
    requires h.Lawful() && folder.Valid()
    ensures sha == Digest(h, f, folder.Files()) && count == |Metadata(h, folder.Files())|
  {
    var metadata := Scan(h, folder, false);
    sha, count := h.Hash(f.write(metadata)), |metadata|;
  }

  /** `compute_objects_aggregate_sha256`. */
  method AggregateObjects<H(!new)>(h: Hasher<H>, f: Format, folder: Folder) returns (sha: string, count: nat)
    requires h.Lawful() && folder.Valid()
    ensures sha == Digest(h, f, Payload(folder.Files())) && count == |Metadata(h, Payload(folder.Files()))|
  {
    var metadata := Scan(h, folder, true);
    sha, count := h.Hash(f.write(metadata)), |metadata|;
  }

  // ---- The digest identifies the tree ----

  lemma {:induction false} EntriesAt<H(!new)>(h: Hasher<H>, t: Tree, paths: seq<Path>)
    requires forall p | p in paths :: p in t
    ensures |Entries(h, t, paths)| == |paths|
    ensures forall i | 0 <= i < |paths| :: paths[i] in t && Entries(h, t, paths)[i] == MetaOf(h, paths[i], t[paths[i]])
  {
    if paths != [] {
      assert paths[|paths| - 1] in paths;
      EntriesAt(h, t, paths[..|paths| - 1]);
    }
  }

  lemma MetadataAt<H(!new)>(h: Hasher<H>, t: Tree)
    ensures var paths := Ascending(t.Keys);
            && |Metadata(h, t)| == |paths|
            && forall i | 0 <= i < |paths| :: paths[i] in t && Metadata(h, t)[i] == MetaOf(h, paths[i], t[paths[i]])
  {
    AscendingOf(t.Keys);
    EntriesAt(h, t, Ascending(t.Keys));
  }

  /** The metadata lists each file once: the text of its path, its digest and its size. */
  lemma MetadataTells<H(!new)>(h: Hasher<H>, t: Tree, m: Meta)
    ensures |Metadata(h, t)| == |t.Keys|
    ensures m in Metadata(h, t) <==> exists p :: p in t && m == Meta(Join(p), h.Hash(t[p]), |t[p]|)
  {
    AscendingOf(t.Keys);
    AscendingSize(t.Keys);
    MetadataAt(h, t);
    hide Ascending, Metadata, Join;
    var paths := Ascending(t.Keys);
    if m in Metadata(h, t) {
      var i :| 0 <= i < |paths| && Metadata(h, t)[i] == m;
      assert paths[i] in t;
    }
    if p :| p in t && m == Meta(Join(p), h.Hash(t[p]), |t[p]|) {
      assert p in paths;
      var i :| 0 <= i < |paths| && paths[i] == p;
      assert Metadata(h, t)[i] == m;
    }
  }

  lemma {:induction false} AscendingSize(keys: set<Path>)
    ensures |Ascending(keys)| == |keys|
  {
    if keys != {} {
      var p :| p in keys && Ascending(keys) == Insert(p, Ascending(keys - {p}));
      AscendingSize(keys - {p});
      AscendingOf(keys - {p});
      InsertSize(p, Ascending(keys - {p}));
    }
  }

  /** The files that do not count are those whose path ends in the name objects.json, in any directory. */
  lemma IndexByText(p: Path)
    requires Proper(p)
    ensures IsIndex(p) <==> Join(p) == INDEX_NAME || EndsIn(Join(p), "/" + INDEX_NAME)
  {
    var n := |p| - 1;
    assert p[n] in p && '/' !in p[n];
    if n == 0 {
      NoSlash(p[0]);
    } else {
      LastComponent(Join(p[..n]), p[n]);
      assert Join(p) == Join(p[..n]) + "/" + p[n];
    }
  }

  predicate EndsIn(s: string, t: string) { |t| <= |s| && s[|s| - |t|..] == t }

  lemma NoSlash(c: string)
    requires '/' !in c
    ensures !EndsIn(c, "/" + INDEX_NAME)
  {
    var t := "/" + INDEX_NAME;
    if |t| <= |c| { assert c[|c| - |t|..][0] == c[|c| - |t|] && c[|c| - |t|] in c; }
  }

  lemma LastComponent(front: string, c: string)
    requires '/' !in c
    ensures EndsIn(front + "/" + c, "/" + INDEX_NAME) <==> c == INDEX_NAME
    ensures front + "/" + c != INDEX_NAME
  {
    var s, t := front + "/" + c, "/" + INDEX_NAME;
    assert s[|front|] == '/' && s[|front|..] == "/" + c && t[0] == '/' && t[1..] == INDEX_NAME;
    assert '/' !in INDEX_NAME && forall i | 0 < i < |t| :: t[i] != '/';
    assert ("/" + c)[1..] == c;
    if |t| <= |s| {
      var at := |s| - |t|;
      assert s[at..][0] == s[at];
      if at < |front| { assert s[at..][|front| - at] == s[|front|]; }
      if at > |front| { assert s[at] == c[at - |front| - 1] && s[at] in c; }
    }
  }

  lemma SameKeySamePath(p: Path, q: Path)
    requires Proper(p) && Proper(q) && Join(p) == Join(q)
    ensures p == q
  {
    TextNamesPath(p);
    TextNamesPath(q);
  }

  lemma SubTree<H(!new)>(h: Hasher<H>, a: Tree, b: Tree, p: Path)
    requires h.Injective() && ProperTree(a) && ProperTree(b) && Metadata(h, a) == Metadata(h, b) && p in a
    ensures p in b && a[p] == b[p]
  {
    AscendingOf(a.Keys);
    MetadataAt(h, a);
    MetadataAt(h, b);
    hide Ascending, Metadata, Join;
    var i :| 0 <= i < |Ascending(a.Keys)| && Ascending(a.Keys)[i] == p;
    SameKeySamePath(p, Ascending(b.Keys)[i]);
  }

  lemma MetadataIdentifies<H(!new)>(h: Hasher<H>, a: Tree, b: Tree)
    requires h.Injective() && ProperTree(a) && ProperTree(b)
    ensures Metadata(h, a) == Metadata(h, b) <==> a == b
  {
    hide Metadata;
    if Metadata(h, a) == Metadata(h, b) {
      forall p | p in a ensures p in b && a[p] == b[p] { SubTree(h, a, b, p); }
      forall p | p in b ensures p in a && a[p] == b[p] { SubTree(h, b, a, p); }
    }
  }

  /** Two trees have the same digest exactly when they are the same tree. */
  lemma DigestIdentifies<H(!new)>(h: Hasher<H>, f: Format, a: Tree, b: Tree)
    requires h.Injective() && f.Lawful() && ProperTree(a) && ProperTree(b)
    ensures Digest(h, f, a) == Digest(h, f, b) <==> a == b
  {
    MetadataIdentifies(h, a, b);
    hide Metadata;
    assert f.write(Metadata(h, a)) == f.write(Metadata(h, b)) ==>
      f.read(f.write(Metadata(h, a))) == f.read(f.write(Metadata(h, b)));
  }

  // ---- Manifests ----

  /** The fields the validator reads; digests a manifest does not record are empty. */
  datatype Manifest = Manifest(format: int, databaseSha: string, objectCount: nat, objectsSha: string,
                               baseSha: string, walSha: string, mirrorCount: nat, mirrorSha: string)

  /** A backup directory of the first format, and of the second. */
  datatype Backup = Backup(
    dump: Option<Bytes>, objects: Folder, base: Option<Bytes>, wal: Option<Bytes>, mirror: Folder)
  {
    ghost predicate Valid() { objects.Valid() && mirror.Valid() }
  }

  datatype Artifact = FormatVersion | Database | Objects | BaseBackup | Wal | Mirror

  /** `compute_manifest`; None when the database dump cannot be read. */
  method ComputeManifest<H(!new)>(h: Hasher<H>, f: Format, b: Backup) returns (m: Option<Manifest>)
    requires h.Lawful() && b.Valid()
    ensures m == Recorded1(h, f, b)
  {
    if b.dump.None? { return None; }
    var db := Streamed(h, b.dump.value, 65536);
    var sha, count := AggregateObjects(h, f, b.objects);
    m := Some(Manifest(1, db, count, sha, "", "", 0, ""));
  }

  ghost function Recorded1<H(!new)>(h: Hasher<H>, f: Format, b: Backup): Option<Manifest> {
    if b.dump.None? then None
    else
      var t := Payload(b.objects.Files());
      Some(Manifest(1, h.Hash(b.dump.value), |Metadata(h, t)|, Digest(h, f, t), "", "", 0, ""))
  }

  function ShaOf<H(!new)>(h: Hasher<H>, data: Option<Bytes>): string { if data.Some? then h.Hash(data.value) else "" }

  /** `compute_manifest_v2`: a missing archive is recorded as an empty digest. */
  method ComputeManifest2<H(!new)>(h: Hasher<H>, f: Format, b: Backup) returns (m: Manifest)
    requires h.Lawful() && b.Valid()
    ensures m == Recorded2(h, f, b)
  {
    var base, wal := "", "";
    if b.base.Some? { base := Streamed(h, b.base.value, 65536); }
    if b.wal.Some? { wal := Streamed(h, b.wal.value, 65536); }
    var sha, count := AggregateDir(h, f, b.mirror);
    m := Manifest(2, base, count, sha, base, wal, count, sha);
  }

  ghost function Recorded2<H(!new)>(h: Hasher<H>, f: Format, b: Backup): Manifest {
    var t := b.mirror.Files();
    var count, sha := |Metadata(h, t)|, Digest(h, f, t);
    Manifest(2, ShaOf(h, b.base), count, sha, ShaOf(h, b.base), ShaOf(h, b.wal), count, sha)
  }

  /** Whether a folder answers to a recorded count and digest: a missing one only to no objects. */
  ghost predicate Answers<H(!new)>(h: Hasher<H>, f: Format, folder: Folder, t: Tree, count: nat, sha: string) {
    if folder.Missing? then count == 0 else count == |Metadata(h, t)| && sha == Digest(h, f, t)
  }

  /** The component in which the validator finds the first error, for any manifest, by format. */
  ghost function Verdict1<H(!new)>(h: Hasher<H>, f: Format, m: Manifest, b: Backup): Option<Artifact> {
    if !(b.dump.Some? && h.Hash(b.dump.value) == m.databaseSha) then Some(Database)
    else if !Answers(h, f, b.objects, Payload(b.objects.Files()), m.objectCount, m.objectsSha) then Some(Objects)
    else None
  }

  ghost function Verdict2<H(!new)>(h: Hasher<H>, f: Format, m: Manifest, b: Backup): Option<Artifact> {
    if !(b.base.Some? && (m.baseSha == "" || h.Hash(b.base.value) == m.baseSha)) then Some(BaseBackup)
    else if !(m.walSha == "" || (b.wal.Some? && h.Hash(b.wal.value) == m.walSha)) then Some(Wal)
    else if !(Answers(h, f, b.mirror, b.mirror.Files(), m.mirrorCount, m.mirrorSha)
              || (b.mirror.Folder? && m.mirrorSha == ""
                && m.mirrorCount == |Metadata(h, b.mirror.Files())|)) then Some(Mirror)
    else None
  }

  ghost function Verdict<H(!new)>(h: Hasher<H>, f: Format, m: Manifest, b: Backup): Option<Artifact> {
    if m.format == 1 then Verdict1(h, f, m, b) else if m.format == 2 then Verdict2(h, f, m, b) else Some(FormatVersion)
  }

  /** `_validate_v1`: the component of the error, if any. */
  method Validate1<H(!new)>(h: Hasher<H>, f: Format, m: Manifest, b: Backup) returns (error: Option<Artifact>)
    requires h.Lawful() && b.Valid()
    ensures error == Verdict1(h, f, m, b)
  {
    if b.dump.None? { return Some(Database); }
    var db := Streamed(h, b.dump.value, 65536);
    if db != m.databaseSha { return Some(Database); }
    if b.objects.Missing? {
      if m.objectCount > 0 { return Some(Objects); }
    } else {
      var sha, count := AggregateObjects(h, f, b.objects);
      if count != m.objectCount { return Some(Objects); }
      if sha != m.objectsSha { return Some(Objects); }
    }
    error := None;
  }

  /** `_validate_v2`: recorded digests that are empty are not compared. */
  method Validate2<H(!new)>(h: Hasher<H>, f: Format, m: Manifest, b: Backup) returns (error: Option<Artifact>)
    requires h.Lawful() && b.Valid()
    ensures error == Verdict2(h, f, m, b)
  {
    if b.base.None? { return Some(BaseBackup); }
    var base := Streamed(h, b.base.value, 65536);
    if m.baseSha != "" && base != m.baseSha { return Some(BaseBackup); }
    if m.walSha != "" {
      if b.wal.None? { return Some(Wal); }
      var wal := Streamed(h, b.wal.value, 65536);
      if wal != m.walSha { return Some(Wal); }
    }
    if b.mirror.Missing? {
      if m.mirrorCount > 0 { return Some(Mirror); }
    } else {
      var sha, count := AggregateDir(h, f, b.mirror);
      if count != m.mirrorCount { return Some(Mirror); }
      if m.mirrorSha != "" && sha != m.mirrorSha { return Some(Mirror); }
    }
    error := None;
  }

  /** What acceptance says, for any manifest: in the first format the dump and the object files have the
      recorded digests, and there are as many files as recorded; a missing directory holds none. */
  lemma AcceptedExactly1<H(!new)>(h: Hasher<H>, f: Format, m: Manifest, b: Backup)
    requires m.format == 1
    ensures Verdict(h, f, m, b) == None
       <==> && b.dump.Some? && h.Hash(b.dump.value) == m.databaseSha
            && |Payload(b.objects.Files()).Keys| == m.objectCount
            && (b.objects.Folder? ==> Digest(h, f, Payload(b.objects.Files())) == m.objectsSha)
  {
    MetadataTells(h, Payload(b.objects.Files()), Meta("", "", 0));
    assert b.objects.Missing? ==> Payload(b.objects.Files()).Keys == {};
    hide Metadata, Digest, Payload;
  }

  /** In the second format the base archive is there, every recorded digest is that of what is there now,
      and there are as many mirrored files as recorded. */
  lemma AcceptedExactly2<H(!new)>(h: Hasher<H>, f: Format, m: Manifest, b: Backup)
    requires m.format == 2
    ensures Verdict(h, f, m, b) == None
       <==> && b.base.Some? && (m.baseSha != "" ==> h.Hash(b.base.value) == m.baseSha)
            && (m.walSha != "" ==> b.wal.Some? && h.Hash(b.wal.value) == m.walSha)
            && |b.mirror.Files().Keys| == m.mirrorCount
            && (b.mirror.Folder? && m.mirrorSha != "" ==> Digest(h, f, b.mirror.Files()) == m.mirrorSha)
  {
    MetadataTells(h, b.mirror.Files(), Meta("", "", 0));
    assert b.mirror.Missing? ==> b.mirror.Files().Keys == {};
    hide Metadata, Digest;
  }

  // ---- A manifest against a directory ----

  /** A folder answers to what was recorded of a tree exactly when it holds that tree; a missing
      folder holds the empty one. */
  lemma AnswersExactly<H(!new)>(h: Hasher<H>, f: Format, folder: Folder, t: Tree, recorded: Tree)
    requires h.Injective() && f.Lawful() && ProperTree(t) && ProperTree(recorded) && (folder.Missing? ==> t == map[])
    ensures Answers(h, f, folder, t, |Metadata(h, recorded)|, Digest(h, f, recorded)) <==> t == recorded
  {
    DigestIdentifies(h, f, t, recorded);
    AscendingOf(recorded.Keys);
    MetadataAt(h, recorded);
    if folder.Missing? {
      if |Metadata(h, recorded)| == 0 {
        assert forall p :: p in recorded ==> p in Ascending(recorded.Keys);
        assert recorded == map[];
      } else {
        assert Ascending(recorded.Keys)[0] in recorded;
      }
    }
  }

  /** The first payload of the first format in which a directory differs from the recorded one. */
  function Difference1(recorded: Backup, b: Backup): Option<Artifact> {
    if b.dump.None? || b.dump != recorded.dump then Some(Database)
    else if Payload(b.objects.Files()) != Payload(recorded.objects.Files()) then Some(Objects)
    else None
  }

  /** The same for the second format, where an archive that was not there is not compared, but the
      base archive must be there now. */
  function Difference2(recorded: Backup, b: Backup): Option<Artifact> {
    if b.base.None? || (recorded.base.Some? && b.base != recorded.base) then Some(BaseBackup)
    else if recorded.wal.Some? && b.wal != recorded.wal then Some(Wal)
    else if b.mirror.Files() != recorded.mirror.Files() then Some(Mirror)
    else None
  }

  lemma ManifestFits1<H(!new)>(h: Hasher<H>, f: Format, a: Backup, b: Backup, m: Manifest)
    requires h.Lawful() && h.Injective() && f.Lawful() && a.Valid() && b.Valid() && Recorded1(h, f, a) == Some(m)
    ensures b.dump.Some? && h.Hash(b.dump.value) == m.databaseSha <==> b.dump.Some? && b.dump == a.dump
    ensures Answers(h, f, b.objects, Payload(b.objects.Files()), m.objectCount, m.objectsSha)
       <==> Payload(b.objects.Files()) == Payload(a.objects.Files())
  {
    var t, recorded := Payload(b.objects.Files()), Payload(a.objects.Files());
    assert b.objects.Missing? ==> t == map[];
    AnswersExactly(h, f, b.objects, t, recorded);
  }

  lemma ManifestFits2<H(!new)>(h: Hasher<H>, f: Format, a: Backup, b: Backup, m: Manifest)
    requires h.Lawful() && h.Injective() && f.Lawful() && a.Valid() && b.Valid() && Recorded2(h, f, a) == m
    ensures (m.baseSha == "" <==> a.base.None?) && (m.walSha == "" <==> a.wal.None?) && m.mirrorSha != ""
    ensures b.base.Some? && a.base.Some? ==> (h.Hash(b.base.value) == m.baseSha <==> b.base == a.base)
    ensures b.wal.Some? && a.wal.Some? ==> (h.Hash(b.wal.value) == m.walSha <==> b.wal == a.wal)
    ensures Answers(h, f, b.mirror, b.mirror.Files(), m.mirrorCount, m.mirrorSha)
            <==> b.mirror.Files() == a.mirror.Files()
  {
    AnswersExactly(h, f, b.mirror, b.mirror.Files(), a.mirror.Files());
  }

  /** Against a manifest computed from some directory, the validator's verdict is the first payload in
      which the validated directory differs from that one. */
  lemma VerdictIsDifference<H(!new)>(h: Hasher<H>, f: Format, a: Backup, b: Backup, m: Manifest)
    requires h.Lawful() && h.Injective() && f.Lawful() && a.Valid() && b.Valid()
    ensures Recorded1(h, f, a) == Some(m) ==> Verdict(h, f, m, b) == Difference1(a, b)
    ensures Recorded2(h, f, a) == m ==> Verdict(h, f, m, b) == Difference2(a, b)
  {
    if Recorded1(h, f, a) == Some(m) { ManifestFits1(h, f, a, b, m); }
    if Recorded2(h, f, a) == m { ManifestFits2(h, f, a, b, m); }
    hide Answers, Metadata, Digest, Payload;
  }

  /** `validate`. */
  method Validate<H(!new)>(h: Hasher<H>, f: Format, m: Manifest, b: Backup) returns (error: Option<Artifact>)
    requires h.Lawful() && b.Valid()
    ensures error == Verdict(h, f, m, b)
    ensures m.format != 1 && m.format != 2 ==> error == Some(FormatVersion)
    ensures h.Injective() && f.Lawful() ==>
              && (forall a: Backup | a.Valid() && Recorded1(h, f, a) == Some(m) :: error == Difference1(a, b))
              && (forall a: Backup | a.Valid() && Recorded2(h, f, a) == m :: error == Difference2(a, b))
  {
    if m.format == 1 {
      error := Validate1(h, f, m, b);
    } else if m.format == 2 {
      error := Validate2(h, f, m, b);
    } else {
      error := Some(FormatVersion);
    }
    if h.Injective() && f.Lawful() {
      forall a: Backup | a.Valid() && Recorded1(h, f, a) == Some(m)
        ensures error == Difference1(a, b)
      {
        VerdictIsDifference(h, f, a, b, m);
      }
      forall a: Backup | a.Valid() && Recorded2(h, f, a) == m
        ensures error == Difference2(a, b)
      {
        VerdictIsDifference(h, f, a, b, m);
      }
    }
  }

  lemma NoDifference(a: Backup, b: Backup)
    ensures Difference1(a, b) == None
            <==> b.dump.Some? && b.dump == a.dump && Payload(b.objects.Files()) == Payload(a.objects.Files())
    ensures Difference2(a, b) == None <==>
              && b.base.Some? && (a.base.Some? ==> b.base == a.base) && (a.wal.Some? ==> b.wal == a.wal)
              && b.mirror.Files() == a.mirror.Files()
    ensures Difference1(a, a) == None <==> a.dump.Some?
    ensures Difference2(a, a) == None <==> a.base.Some?
  {
  }

  /** A directory validates against a manifest of the first format exactly when every recorded payload
      is there and unchanged. */
  lemma ValidatesExactly1<H(!new)>(h: Hasher<H>, f: Format, a: Backup, b: Backup)
    requires h.Lawful() && h.Injective() && f.Lawful() && a.Valid() && b.Valid() && Recorded1(h, f, a).Some?
    ensures Verdict(h, f, Recorded1(h, f, a).value, b) == None
       <==> b.dump == a.dump && Payload(b.objects.Files()) == Payload(a.objects.Files())
  {
    VerdictIsDifference(h, f, a, b, Recorded1(h, f, a).value);
    NoDifference(a, b);
    hide Verdict, Payload, Difference1;
  }

  /** For the second format: the base archive must be there, and what was recorded be unchanged; so an
      unchanged directory validates exactly when it has a base archive. */
  lemma ValidatesExactly2<H(!new)>(h: Hasher<H>, f: Format, a: Backup, b: Backup)
    requires h.Lawful() && h.Injective() && f.Lawful() && a.Valid() && b.Valid()
    ensures Verdict(h, f, Recorded2(h, f, a), b) == None
       <==> && b.base.Some? && (a.base.Some? ==> b.base == a.base) && (a.wal.Some? ==> b.wal == a.wal)
            && b.mirror.Files() == a.mirror.Files()
    ensures Verdict(h, f, Recorded2(h, f, a), a) == None <==> a.base.Some?
  {
    VerdictIsDifference(h, f, a, b, Recorded2(h, f, a));
    VerdictIsDifference(h, f, a, a, Recorded2(h, f, a));
    NoDifference(a, b);
    hide Verdict, Recorded2, Difference2;
  }
}
