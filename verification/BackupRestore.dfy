/** The object half of a backup: list a bucket page by page, export it into a directory with an
    index, check the directory against its index, and restore it into a bucket. */
module BackupRestore {
  import opened DirectoryDigest
  import opened Hashing
  import opened Paths
  import opened Text

  type Bucket = map<string, Bytes>

  // ---- Listing ----

  /** What the pages list, empty keys dropped; None when one of them cannot be fetched. */
  function Listed(pages: seq<Option<seq<string>>>): Option<seq<string>> {
    if pages == [] then Some([])
    else
      var front, last := Listed(pages[..|pages| - 1]), pages[|pages| - 1];
      if front.None? || last.None? then None else Some(front.value + NonEmpty(last.value))
  }

  function NonEmpty(keys: seq<string>): seq<string> {
    if keys == [] then []
    else NonEmpty(keys[..|keys| - 1]) + (if keys[|keys| - 1] != "" then [keys[|keys| - 1]] else [])
  }

  lemma {:induction false} ListedNone(pages: seq<Option<seq<string>>>, k: nat)
    requires k < |pages| && pages[k].None?
    ensures Listed(pages).None?
  {
    if k < |pages| - 1 { ListedNone(pages[..|pages| - 1], k); }
  }

  /** `_list_minio_objects`: page i names page i + 1 as its continuation, the last one is not truncated. */
  method ListObjects(pages: seq<Option<seq<string>>>) returns (keys: Option<seq<string>>)
    requires pages != []
    ensures keys == Listed(pages)
  {
    var all, token := [], 0;
    while true
      invariant 0 <= token < |pages| && Listed(pages[..token]) == Some(all)
      decreases |pages| - token
    {
      assert pages[..token + 1][..token] == pages[..token];
      if pages[token].None? {
        ListedNone(pages, token);
        return None;
      }
      var contents := AppendNonEmpty(all, pages[token].value);
      all := contents;
      if token == |pages| - 1 { break; }
      token := token + 1;
    }
    assert pages[..|pages|] == pages;
    keys := Some(all);
  }

  method AppendNonEmpty(keys: seq<string>, contents: seq<string>) returns (all: seq<string>)
    ensures all == keys + NonEmpty(contents)
  {
    all := keys;
    for k := 0 to |contents|
      invariant all == keys + NonEmpty(contents[..k])
    {
      assert contents[..k + 1][..k] == contents[..k];
      if contents[k] != "" { all := all + [contents[k]]; }
    }
    assert contents[..|contents|] == contents;
  }

  /** The pages list a key exactly when it is in one of them and not empty. */
  lemma {:induction false} NonEmptyHas(keys: seq<string>, key: string)
    ensures key in NonEmpty(keys) <==> key != "" && key in keys
  {
    if keys != [] {
      NonEmptyHas(keys[..|keys| - 1], key);
      assert keys == keys[..|keys| - 1] + [keys[|keys| - 1]];
    }
  }

  lemma {:induction false} ListedHas(pages: seq<Option<seq<string>>>, key: string)
    requires Listed(pages).Some?
    ensures key in Listed(pages).value
            <==> key != "" && exists i :: 0 <= i < |pages| && pages[i].Some? && key in pages[i].value
  {
    if pages != [] {
      var n := |pages| - 1;
      ListedHas(pages[..n], key);
      NonEmptyHas(pages[n].value, key);
    }
  }

  // ---- Export ----

  /** Keys that name a path below the directory they are joined to. */
  ghost predicate Contained(key: string) { (key != "" ==> key[0] != '/') && ".." !in Split(key) }

  /** Where a file system ends up that goes along the components p from a directory. */
  function Walked(at: Path, p: Path): Path
    decreases |p|
  {
    if p == [] then at
    else if p[0] != ".." then Walked(at + [p[0]], p[1..])
    else Walked(if at == [] then [] else at[..|at| - 1], p[1..])
  }

  /** Where a key joined to a base directory leads: one with a leading slash starts from the root. */
  function Located(base: Path, key: string): Path {
    Walked(if key != "" && key[0] == '/' then [] else base, Below(key))
  }

  lemma {:induction false} WalkedDown(at: Path, p: Path)
    requires ".." !in p
    ensures Walked(at, p) == at + p
    decreases |p|
  {
    if p == [] {
      assert at + p == at;
    } else {
      WalkedDown(at + [p[0]], p[1..]);
      assert at + [p[0]] + p[1..] == at + p;
    }
  }

  lemma {:induction false} WalkedUp(at: Path, p: Path)
    ensures |Walked(at, p)| <= |at| + |p|
    ensures ".." in p ==> |Walked(at, p)| < |at| + |p|
    decreases |p|
  {
    if p != [] {
      assert p == [p[0]] + p[1..];
      WalkedUp(if p[0] != ".." then at + [p[0]] else if at == [] then [] else at[..|at| - 1], p[1..]);
    }
  }

  /** A key lies, for every base directory, under the base along its own components exactly when it is
      contained. */
  lemma ContainedExactly(key: string)
    ensures (forall base :: Located(base, key) == base + Below(key)) <==> Contained(key)
  {
    KeptHas(Split(key), "..");
    if Contained(key) {
      forall base ensures Located(base, key) == base + Below(key) { WalkedDown(base, Below(key)); }
    } else if key != "" && key[0] == '/' {
      assert Located([], key) == Located(["d"], key) && |["d"] + Below(key)| > |[] + Below(key)|;
    } else {
      WalkedUp([], Below(key));
      assert Located([], key) != [] + Below(key);
    }
  }

  /** The objects directory: its files, and the directories below it. */
  datatype Disk = Disk(files: Tree, dirs: set<Path>)

  const EMPTY := Disk(map[], {})

  datatype Progress = Progress(disk: Disk, failed: seq<string>, crashed: bool) {
    predicate Clean() { failed == [] && !crashed }
  }

  /** The directories that a file at p needs. */
  function Parents(p: Path): set<Path> { set i | 1 <= i < |p| :: p[..i] }

  /** One object: its directories made, its bytes fetched, its file written. A file in the way of a
      directory is an exception that ends the export; anything after that is recorded as a failure. */
  function ExportKey(bucket: Bucket, broken: set<string>, s: Progress, key: string): Progress {
    if s.crashed || key == "" then s
    else
      var p := Below(key);
      if Parents(p) * s.disk.files.Keys != {} then s.(crashed := true)
      else
        var d := s.disk.(dirs := s.disk.dirs + Parents(p));
        if key !in bucket || key in broken || p == [] || p in d.dirs then s.(disk := d, failed := s.failed + [key])
        else s.(disk := d.(files := d.files[p := bucket[key]]))
  }

  function ExportKeys(bucket: Bucket, broken: set<string>, keys: seq<string>): Progress {
    if keys == [] then Progress(EMPTY, [], false)
    else ExportKey(bucket, broken, ExportKeys(bucket, broken, keys[..|keys| - 1]), keys[|keys| - 1])
  }

  datatype Export = NotListed | Crashed | Incomplete(disk: Disk, failed: seq<string>) | Exported(disk: Disk)

  /** How the file system walks a disk: every file and directory once, in an order of its own. */
  datatype Walk = Walk(paths: Disk -> seq<Path>) {
    ghost predicate Lawful() {
      forall d :: NoRepeats(paths(d)) && (forall p :: p in paths(d) <==> p in d.files || p in d.dirs)
    }
  }

  const INDEX: Path := [INDEX_NAME]

  /** A disk with its index written. */
  ghost function Indexed<H(!new)>(h: Hasher<H>, f: Format, d: Disk): Disk {
    d.(files := d.files[INDEX := f.write(Metadata(h, Payload(d.files)))])
  }

  ghost function ExportOf<H(!new)>(
      h: Hasher<H>, f: Format, bucket: Bucket, broken: set<string>, keys: Option<seq<string>>): Export {
    if keys.None? then NotListed
    else
      var s := ExportKeys(bucket, broken, keys.value);
      if s.crashed || INDEX in s.disk.dirs then Crashed
      else if s.failed != [] then Incomplete(Indexed(h, f, s.disk), s.failed)
      else Exported(Indexed(h, f, s.disk))
  }

  /** The bytes of an object, or None when they cannot be fetched. */
  function Fetch(bucket: Bucket, broken: set<string>, key: string): Option<Bytes> {
    if key in bucket && key !in broken then Some(bucket[key]) else None
  }

  method ExportOne(bucket: Bucket, broken: set<string>, s: Progress, key: string) returns (t: Progress)
    requires !s.crashed
    ensures t == ExportKey(bucket, broken, s, key)
  {
    t := s;
    if key == "" { return; }
    var p := Below(key);
    var i := 1;
    while i < |p|
      invariant forall j | 1 <= j < i && j < |p| :: p[..j] !in s.disk.files
    {
      if p[..i] in s.disk.files {
        assert p[..i] in Parents(p) * s.disk.files.Keys;
        return s.(crashed := true);
      }
      i := i + 1;
    }
    assert Parents(p) * s.disk.files.Keys == {};
    t := t.(disk := t.disk.(dirs := t.disk.dirs + Parents(p)));
    var data := Fetch(bucket, broken, key);
    if data.None? || p == [] || p in t.disk.dirs {
      t := t.(failed := t.failed + [key]);
    } else {
      t := t.(disk := t.disk.(files := t.disk.files[p := data.value]));
    }
  }

  lemma {:induction false} CrashStays(bucket: Bucket, broken: set<string>, keys: seq<string>, k: nat)
    requires k <= |keys| && ExportKeys(bucket, broken, keys[..k]).crashed
    ensures ExportKeys(bucket, broken, keys).crashed
    decreases |keys|
  {
    if k < |keys| {
      assert keys[..|keys| - 1][..k] == keys[..k];
      CrashStays(bucket, broken, keys[..|keys| - 1], k);
    } else {
      assert keys[..k] == keys;
    }
  }

  /** The loop over the keys; None when it ends in an exception. */
  method ExportEach(bucket: Bucket, broken: set<string>, keys: seq<string>) returns (s: Option<Progress>)
    ensures var p := ExportKeys(bucket, broken, keys); s == if p.crashed then None else Some(p)
  {
    var t := Progress(EMPTY, [], false);
    assert keys[..0] == [] && keys[..|keys|] == keys;
    for k := 0 to |keys|
      invariant t == ExportKeys(bucket, broken, keys[..k]) && !t.crashed
    {
      assert keys[..k + 1][..k] == keys[..k];
      t := ExportOne(bucket, broken, t, keys[k]);
      if t.crashed {
        CrashStays(bucket, broken, keys, k + 1);
        return None;
      }
    }
    s := Some(t);
  }

  /** `_export_minio_objects`: when an object failed, the index is still written. */
  method ExportObjects<H(!new)>(
      h: Hasher<H>, f: Format, walk: Walk, bucket: Bucket, broken: set<string>, pages: seq<Option<seq<string>>>)
    returns (e: Export)
    requires h.Lawful() && walk.Lawful() && pages != []
    requires Listed(pages).Some? ==> forall k | k in Listed(pages).value :: Contained(k)
    ensures e == ExportOf(h, f, bucket, broken, Listed(pages))
  {
    var listed := ListObjects(pages);
    if listed.None? { return NotListed; }
    var s := ExportEach(bucket, broken, listed.value);
    if s.None? { return Crashed; }
    DiskIsProper(bucket, broken, listed.value);
    hide ExportKeys, Metadata, Listed;
    var disk := s.value.disk;
    var metadata := Scan(h, Folder(walk.paths(disk), disk.files), true);
    if INDEX in disk.dirs { return Crashed; }
    var d := disk.(files := disk.files[INDEX := f.write(metadata)]);
    e := if s.value.failed != [] then Incomplete(d, s.value.failed) else Exported(d);
  }

  lemma {:induction false} DiskIsProper(bucket: Bucket, broken: set<string>, keys: seq<string>)
    ensures ProperTree(ExportKeys(bucket, broken, keys).disk.files)
  {
    if keys != [] {
      DiskIsProper(bucket, broken, keys[..|keys| - 1]);
      BelowComponents(keys[|keys| - 1]);
    }
  }

  // ---- When an export succeeds, and what it leaves on disk ----

  /** The object can be fetched, and names a path below the directory. */
  predicate Good(bucket: Bucket, broken: set<string>, key: string) {
    key in bucket && key !in broken && Below(key) != []
  }

  /** Neither object's file is in the way of the other's directories. */
  predicate Apart(k: string, l: string) { Below(k) !in Parents(Below(l)) && Below(l) !in Parents(Below(k)) }

  ghost predicate Real(keys: seq<string>, k: string) { k in keys && k != "" }

  ghost predicate AllApart(keys: seq<string>, k: string) { forall l | Real(keys, l) :: Apart(k, l) }

  /** Every object can be fetched, and no object's path is empty or a directory of another's. */
  ghost predicate Fits(bucket: Bucket, broken: set<string>, keys: seq<string>) {
    forall k | Real(keys, k) :: Good(bucket, broken, k) && AllApart(keys, k)
  }

  ghost predicate IsObject(d: Disk, bucket: Bucket, keys: seq<string>, p: Path, k: string)
    requires p in d.files
  {
    Real(keys, k) && k in bucket && Below(k) == p && d.files[p] == bucket[k]
  }

  /** Every object has its file, and the directories this needs. */
  ghost predicate HasAll(d: Disk, keys: seq<string>) {
    forall k | Real(keys, k) :: Below(k) in d.files && Parents(Below(k)) <= d.dirs
  }

  /** Every file is some object's, with its bytes. */
  ghost predicate OnlyObjects(d: Disk, bucket: Bucket, keys: seq<string>) {
    forall p | p in d.files :: exists k :: IsObject(d, bucket, keys, p, k)
  }

  /** Every directory is needed. */
  ghost predicate OnlyParents(d: Disk, keys: seq<string>) {
    forall p | p in d.dirs :: exists k :: Real(keys, k) && p in Parents(Below(k))
  }

  /** A disk holds exactly the objects with the given keys. */
  ghost predicate Holds(d: Disk, bucket: Bucket, keys: seq<string>) {
    HasAll(d, keys) && OnlyObjects(d, bucket, keys) && OnlyParents(d, keys)
  }

  lemma RealMore(keys: seq<string>, key: string)
    ensures forall k :: Real(keys + [key], k) <==> Real(keys, k) || (k == key && key != "")
  {
  }

  lemma NotItsOwnParent(p: Path)
    ensures p !in Parents(p)
  {
  }

  lemma FitsMore(bucket: Bucket, broken: set<string>, keys: seq<string>, key: string)
    ensures Fits(bucket, broken, keys + [key])
       <==> Fits(bucket, broken, keys) && (key != "" ==> Good(bucket, broken, key) && AllApart(keys, key))
  {
    RealMore(keys, key);
    NotItsOwnParent(Below(key));
    hide Good, Real, Parents;
    if Fits(bucket, broken, keys + [key]) {
      assert key != "" ==> Real(keys + [key], key);
    }
  }

  lemma FileInTheWay(d: Disk, bucket: Bucket, keys: seq<string>, key: string)
    requires Holds(d, bucket, keys)
    ensures AllApart(keys, key) <==> Parents(Below(key)) * d.files.Keys == {} && Below(key) !in d.dirs
  {
    hide Parents, Real;
    if AllApart(keys, key) {
      forall p | p in d.files ensures p !in Parents(Below(key)) {
        var k :| IsObject(d, bucket, keys, p, k);
        assert Apart(key, k);
      }
    } else {
      var l :| Real(keys, l) && !Apart(key, l);
      assert Below(l) in d.files && Parents(Below(l)) <= d.dirs;
      assert Below(l) in Parents(Below(key)) ==> Below(l) in Parents(Below(key)) * d.files.Keys;
    }
  }

  /** The disk with one more object written. */
  function Written(d: Disk, p: Path, data: Bytes): Disk { Disk(d.files[p := data], d.dirs + Parents(p)) }

  lemma HasMore(d: Disk, keys: seq<string>, key: string, data: Bytes)
    requires HasAll(d, keys)
    ensures HasAll(Written(d, Below(key), data), keys + [key])
  {
    RealMore(keys, key);
    hide Parents, Real, Below;
  }

  lemma ObjectsMore(d: Disk, bucket: Bucket, keys: seq<string>, key: string)
    requires OnlyObjects(d, bucket, keys) && key != "" && key in bucket
    ensures OnlyObjects(Written(d, Below(key), bucket[key]), bucket, keys + [key])
  {
    var e := Written(d, Below(key), bucket[key]);
    RealMore(keys, key);
    hide Parents, Real, Below;
    forall p | p in e.files ensures exists k :: IsObject(e, bucket, keys + [key], p, k) {
      if p == Below(key) {
        assert IsObject(e, bucket, keys + [key], p, key);
      } else {
        var k :| IsObject(d, bucket, keys, p, k);
        assert IsObject(e, bucket, keys + [key], p, k);
      }
    }
  }

  lemma ParentsMore(d: Disk, keys: seq<string>, key: string, data: Bytes)
    requires OnlyParents(d, keys) && key != ""
    ensures OnlyParents(Written(d, Below(key), data), keys + [key])
  {
    var e := Written(d, Below(key), data);
    RealMore(keys, key);
    hide Parents, Real, Below;
    forall p | p in e.dirs ensures exists k :: Real(keys + [key], k) && p in Parents(Below(k)) {
      if p in d.dirs {
        var k :| Real(keys, k) && p in Parents(Below(k));
        assert Real(keys + [key], k);
      } else {
        assert Real(keys + [key], key);
      }
    }
  }

  lemma HoldsMore(d: Disk, bucket: Bucket, keys: seq<string>, key: string)
    requires Holds(d, bucket, keys) && key != "" && key in bucket
    ensures Holds(Disk(d.files[Below(key) := bucket[key]], d.dirs + Parents(Below(key))), bucket, keys + [key])
  {
    HasMore(d, keys, key, bucket[key]);
    ObjectsMore(d, bucket, keys, key);
    ParentsMore(d, keys, key, bucket[key]);
    hide Parents, Below, HasAll, OnlyObjects, OnlyParents;
  }

  lemma HoldsSkip(d: Disk, bucket: Bucket, keys: seq<string>)
    requires Holds(d, bucket, keys)
    ensures Holds(d, bucket, keys + [""])
  {
    RealMore(keys, "");
    hide Parents, Real;
    forall p | p in d.files ensures exists k :: IsObject(d, bucket, keys + [""], p, k) {
      var k :| IsObject(d, bucket, keys, p, k);
      assert IsObject(d, bucket, keys + [""], p, k);
    }
  }

  lemma CleanNext(bucket: Bucket, broken: set<string>, keys: seq<string>, key: string, s: Progress)
    requires s.Clean() <==> Fits(bucket, broken, keys)
    requires s.Clean() ==> Holds(s.disk, bucket, keys)
    ensures var t := ExportKey(bucket, broken, s, key);
            && (t.Clean() <==> Fits(bucket, broken, keys + [key]))
            && (t.Clean() ==> Holds(t.disk, bucket, keys + [key]))
  {
    FitsMore(bucket, broken, keys, key);
    NotItsOwnParent(Below(key));
    if s.Clean() {
      FileInTheWay(s.disk, bucket, keys, key);
      if key == "" { HoldsSkip(s.disk, bucket, keys); } else if key in bucket { HoldsMore(s.disk, bucket, keys, key); }
    }
    hide Fits, Holds, Parents, AllApart;
  }

  /** An export completes without a failure exactly when its objects fit, and then the disk holds them. */
  lemma {:induction false} CleanMeansFits(bucket: Bucket, broken: set<string>, keys: seq<string>)
    ensures ExportKeys(bucket, broken, keys).Clean() <==> Fits(bucket, broken, keys)
    ensures Fits(bucket, broken, keys) ==> Holds(ExportKeys(bucket, broken, keys).disk, bucket, keys)
  {
    if keys != [] {
      hide Fits, Holds, ExportKey;
      CleanMeansFits(bucket, broken, keys[..|keys| - 1]);
      CleanNext(bucket, broken, keys[..|keys| - 1], keys[|keys| - 1], ExportKeys(bucket, broken, keys[..|keys| - 1]));
      assert keys == keys[..|keys| - 1] + [keys[|keys| - 1]];
    }
  }

  // ---- Every outcome of an export ----

  /** Some object needs this directory. */
  ghost predicate IsDir(keys: seq<string>, p: Path) {
    exists i: nat :: i < |keys| && keys[i] != "" && p in Parents(Below(keys[i]))
  }

  /** Object j can be fetched, and no object up to it needs a directory of its name. */
  ghost predicate Lands(bucket: Bucket, broken: set<string>, keys: seq<string>, j: nat)
    requires j < |keys|
  {
    keys[j] != "" && Good(bucket, broken, keys[j]) && !IsDir(keys[..j + 1], Below(keys[j]))
  }

  ghost predicate LandsAt(bucket: Bucket, broken: set<string>, keys: seq<string>, p: Path, j: nat) {
    j < |keys| && Lands(bucket, broken, keys, j) && Below(keys[j]) == p
  }

  /** Object j needs a directory where an earlier object has its file. */
  ghost predicate Blocked(bucket: Bucket, broken: set<string>, keys: seq<string>, j: nat) {
    && j < |keys| && keys[j] != ""
    && exists i: nat :: i < j && Lands(bucket, broken, keys, i) && Below(keys[i]) in Parents(Below(keys[j]))
  }

  /** The objects that are not written, in order. */
  ghost function Missed(bucket: Bucket, broken: set<string>, keys: seq<string>): seq<string> {
    if keys == [] then []
    else
      var n := |keys| - 1;
      Missed(bucket, broken, keys[..n])
      + (if keys[n] != "" && !Lands(bucket, broken, keys, n) then [keys[n]] else [])
  }

  /** What is at a path: a directory some object needs, or the file of the last object written to it. */
  ghost predicate OnDisk(bucket: Bucket, broken: set<string>, keys: seq<string>, d: Disk, p: Path) {
    && (p in d.dirs <==> IsDir(keys, p))
    && (p in d.files <==> exists j: nat :: LandsAt(bucket, broken, keys, p, j))
    && forall j: nat | LandsAt(bucket, broken, keys, p, j) ::
         (forall l: nat | j < l :: !LandsAt(bucket, broken, keys, p, l)) ==> d.files[p] == bucket[keys[j]]
  }

  ghost predicate Disks(bucket: Bucket, broken: set<string>, keys: seq<string>, d: Disk) {
    forall p :: OnDisk(bucket, broken, keys, d, p)
  }

  ghost predicate SomeBlocked(bucket: Bucket, broken: set<string>, keys: seq<string>) {
    exists j: nat :: Blocked(bucket, broken, keys, j)
  }

  lemma IsDirMore(keys: seq<string>, key: string, p: Path)
    ensures IsDir(keys + [key], p) <==> IsDir(keys, p) || (key != "" && p in Parents(Below(key)))
  {
    hide Parents;
    var all := keys + [key];
    if i: nat :| i < |keys| && keys[i] != "" && p in Parents(Below(keys[i])) { assert all[i] == keys[i]; }
    if key != "" && p in Parents(Below(key)) { assert all[|keys|] == key; }
  }

  lemma LandsFront(bucket: Bucket, broken: set<string>, keys: seq<string>, key: string)
    ensures forall j: nat | j < |keys| ::
              Lands(bucket, broken, keys + [key], j) <==> Lands(bucket, broken, keys, j)
    ensures forall j: nat | j < |keys| ::
              Blocked(bucket, broken, keys + [key], j) <==> Blocked(bucket, broken, keys, j)
    ensures forall p, j: nat | j < |keys| ::
              LandsAt(bucket, broken, keys + [key], p, j) <==> LandsAt(bucket, broken, keys, p, j)
  {
    hide Good, IsDir, Parents;
    forall j: nat | j < |keys|
      ensures Lands(bucket, broken, keys + [key], j) <==> Lands(bucket, broken, keys, j)
    {
      assert (keys + [key])[..j + 1] == keys[..j + 1];
    }
  }

  lemma LandsLast(bucket: Bucket, broken: set<string>, keys: seq<string>, key: string)
    ensures Lands(bucket, broken, keys + [key], |keys|)
       <==> key != "" && Good(bucket, broken, key) && !IsDir(keys + [key], Below(key))
    ensures Missed(bucket, broken, keys + [key])
         == Missed(bucket, broken, keys)
            + (if key != "" && !Lands(bucket, broken, keys + [key], |keys|) then [key] else [])
  {
    hide Good, IsDir;
    assert (keys + [key])[..|keys| + 1] == keys + [key] && (keys + [key])[..|keys|] == keys;
  }

  lemma BlockedLast(bucket: Bucket, broken: set<string>, keys: seq<string>, key: string, d: Disk)
    requires Disks(bucket, broken, keys, d)
    ensures Blocked(bucket, broken, keys + [key], |keys|)
       <==> key != "" && Parents(Below(key)) * d.files.Keys != {}
  {
    LandsFront(bucket, broken, keys, key);
    hide Lands, Parents, IsDir;
    if Blocked(bucket, broken, keys + [key], |keys|) {
      var i: nat :| i < |keys| && Lands(bucket, broken, keys, i) && Below(keys[i]) in Parents(Below(key));
      assert LandsAt(bucket, broken, keys, Below(keys[i]), i);
      assert OnDisk(bucket, broken, keys, d, Below(keys[i]));
      assert Below(keys[i]) in Parents(Below(key)) * d.files.Keys;
    }
    if key != "" && Parents(Below(key)) * d.files.Keys != {} {
      var p :| p in Parents(Below(key)) * d.files.Keys;
      assert OnDisk(bucket, broken, keys, d, p);
      var i: nat :| LandsAt(bucket, broken, keys, p, i);
      assert (keys + [key])[i] == keys[i];
    }
  }

  lemma OnDiskNext(bucket: Bucket, broken: set<string>, keys: seq<string>, key: string, s: Progress, p: Path)
    requires !s.crashed && Disks(bucket, broken, keys, s.disk)
    requires s.failed == Missed(bucket, broken, keys)
    ensures var t := ExportKey(bucket, broken, s, key);
            && (t.crashed <==> Blocked(bucket, broken, keys + [key], |keys|))
            && (!t.crashed ==> OnDisk(bucket, broken, keys + [key], t.disk, p))
            && (!t.crashed ==> t.failed == Missed(bucket, broken, keys + [key]))
  {
    var all, t := keys + [key], ExportKey(bucket, broken, s, key);
    LandsFront(bucket, broken, keys, key);
    LandsLast(bucket, broken, keys, key);
    BlockedLast(bucket, broken, keys, key, s.disk);
    IsDirMore(keys, key, p);
    IsDirMore(keys, key, Below(key));
    assert OnDisk(bucket, broken, keys, s.disk, p) && OnDisk(bucket, broken, keys, s.disk, Below(key));
    hide Lands, Parents, IsDir, Blocked, Missed;
    if !t.crashed { FileNext(bucket, broken, keys, key, s, p); }
  }

  lemma FileNext(bucket: Bucket, broken: set<string>, keys: seq<string>, key: string, s: Progress, p: Path)
    requires !s.crashed && OnDisk(bucket, broken, keys, s.disk, p)
    requires OnDisk(bucket, broken, keys, s.disk, Below(key)) && !ExportKey(bucket, broken, s, key).crashed
    ensures OnDisk(bucket, broken, keys + [key], ExportKey(bucket, broken, s, key).disk, p)
  {
    var all, n, d := keys + [key], |keys|, ExportKey(bucket, broken, s, key).disk;
    LandsFront(bucket, broken, keys, key);
    LandsLast(bucket, broken, keys, key);
    IsDirMore(keys, key, p);
    IsDirMore(keys, key, Below(key));
    hide Lands, Parents, IsDir;
    assert LandsAt(bucket, broken, all, p, n) <==> Lands(bucket, broken, all, n) && Below(key) == p;
    assert forall j: nat :: LandsAt(bucket, broken, all, p, j) ==> j <= n;
    if LandsAt(bucket, broken, all, p, n) {
      assert p in d.files && d.files[p] == bucket[key];
    } else {
      assert forall j: nat :: LandsAt(bucket, broken, all, p, j) <==> LandsAt(bucket, broken, keys, p, j);
    }
  }

  /** However an export goes: it crashes exactly when an object needs a directory where an earlier one
      has its file; otherwise the objects recorded as failed are, in order, those that cannot be fetched
      or whose path is empty or a directory by then, and the disk holds exactly the others, the last one
      where several have one path, and the directories that any object needs. */
  lemma {:induction false} ExportOutcome(bucket: Bucket, broken: set<string>, keys: seq<string>)
    ensures var s := ExportKeys(bucket, broken, keys);
            && (s.crashed <==> SomeBlocked(bucket, broken, keys))
            && (!s.crashed ==> s.failed == Missed(bucket, broken, keys) && Disks(bucket, broken, keys, s.disk))
  {
    hide ExportKey, Disks, SomeBlocked, Missed;
    if keys == [] {
      ExportNothing(bucket, broken);
    } else {
      var n := |keys| - 1;
      ExportOutcome(bucket, broken, keys[..n]);
      assert keys == keys[..n] + [keys[n]];
      OutcomeNext(bucket, broken, keys[..n], keys[n], ExportKeys(bucket, broken, keys[..n]));
    }
  }

  lemma ExportNothing(bucket: Bucket, broken: set<string>)
    ensures !SomeBlocked(bucket, broken, []) && Missed(bucket, broken, []) == [] && Disks(bucket, broken, [], EMPTY)
  {
  }

  lemma OutcomeNext(bucket: Bucket, broken: set<string>, keys: seq<string>, key: string, s: Progress)
    requires s.crashed <==> SomeBlocked(bucket, broken, keys)
    requires !s.crashed ==> s.failed == Missed(bucket, broken, keys) && Disks(bucket, broken, keys, s.disk)
    ensures var t, all := ExportKey(bucket, broken, s, key), keys + [key];
            && (t.crashed <==> SomeBlocked(bucket, broken, all))
            && (!t.crashed ==> t.failed == Missed(bucket, broken, all) && Disks(bucket, broken, all, t.disk))
  {
    hide OnDisk, Missed;
    BlockedMore(bucket, broken, keys, key);
    if s.crashed {
      CrashedStays(bucket, broken, s, key);
      hide ExportKey, SomeBlocked, Blocked;
    } else {
      OnDiskNext(bucket, broken, keys, key, s, []);
      hide ExportKey, SomeBlocked, Blocked;
      forall p ensures var t := ExportKey(bucket, broken, s, key);
                       !t.crashed ==> OnDisk(bucket, broken, keys + [key], t.disk, p)
      {
        OnDiskNext(bucket, broken, keys, key, s, p);
      }
    }
  }

  lemma BlockedMore(bucket: Bucket, broken: set<string>, keys: seq<string>, key: string)
    ensures SomeBlocked(bucket, broken, keys + [key])
       <==> SomeBlocked(bucket, broken, keys) || Blocked(bucket, broken, keys + [key], |keys|)
  {
    LandsFront(bucket, broken, keys, key);
    assert forall j: nat :: Blocked(bucket, broken, keys + [key], j) ==> j <= |keys|;
    assert forall j: nat :: Blocked(bucket, broken, keys, j) ==> j < |keys|;
    hide Blocked;
  }

  lemma CrashedStays(bucket: Bucket, broken: set<string>, s: Progress, key: string)
    requires s.crashed
    ensures ExportKey(bucket, broken, s, key) == s
  {
  }

  // ---- Pre-validation ----

  datatype Found = Absent | Directory | File(data: Bytes)

  /** What is at `objects_dir / key`. */
  function Look(folder: Folder, key: string): Found
    requires folder.Folder?
  {
    var p := Below(key);
    if p in folder.files then File(folder.files[p]) else if p == [] || p in folder.paths then Directory else Absent
  }

  /** `read_objects_metadata`; None when it raises because the index is a directory. */
  function IndexOf(f: Format, folder: Folder): Option<seq<Meta>>
    requires folder.Folder?
  {
    match Look(folder, INDEX_NAME)
    case Absent => Some([])
    case Directory => None
    case File(data) => Some(f.read(data))
  }

  predicate Intact<H(!new)>(h: Hasher<H>, folder: Folder, m: Meta)
    requires folder.Folder?
  {
    Look(folder, m.key).File? && h.Hash(Look(folder, m.key).data) == m.sha
  }

  ghost predicate Passes<H(!new)>(h: Hasher<H>, f: Format, folder: Folder) {
    folder.Folder? && IndexOf(f, folder).Some? && forall m | m in IndexOf(f, folder).value :: Intact(h, folder, m)
  }

  ghost predicate ContainedIndex(f: Format, folder: Folder) {
    folder.Folder? && IndexOf(f, folder).Some? ==> forall m | m in IndexOf(f, folder).value :: Contained(m.key)
  }

  /** `_prevalidate_objects`: whether it returns without raising. */
  method Prevalidate<H(!new)>(h: Hasher<H>, f: Format, folder: Folder) returns (ok: bool)
    requires ContainedIndex(f, folder)
    ensures ok <==> Passes(h, f, folder)
  {
    if folder.Missing? || IndexOf(f, folder).None? { return false; }
    var metadata := IndexOf(f, folder).value;
    var validated, failures := 0, 0;
    for k := 0 to |metadata|
      invariant validated + failures == k
      invariant failures == 0 <==> forall j | 0 <= j < k :: Intact(h, folder, metadata[j])
    {
      match Look(folder, metadata[k].key) {
        case Absent => failures := failures + 1;
        case Directory => failures := failures + 1;
        case File(data) =>
          if h.Hash(data) != metadata[k].sha { failures := failures + 1; } else { validated := validated + 1; }
      }
    }
    ok := failures == 0;
  }

  // ---- Restore ----

  const SMALL := 10 * 1024 * 1024

  datatype Restored = Restored(bucket: Bucket, failed: nat, crashed: bool) {
    predicate Complete() { failed == 0 && !crashed }
  }

  function RestoreOne<H(!new)>(h: Hasher<H>, folder: Folder, s: Restored, m: Meta): Restored
    requires folder.Folder?
  {
    if s.crashed then s
    else match Look(folder, m.key)
      case Absent => s.(failed := s.failed + 1)
      case Directory => s.(crashed := true)
      case File(data) =>
        if h.Hash(data) != m.sha then s.(failed := s.failed + 1) else s.(bucket := s.bucket[m.key := data])
  }

  function RestoreAll<H(!new)>(h: Hasher<H>, folder: Folder, metadata: seq<Meta>, bucket: Bucket): Restored
    requires folder.Folder?
  {
    if metadata == [] then Restored(bucket, 0, false)
    else RestoreOne(h, folder, RestoreAll(h, folder, metadata[..|metadata| - 1], bucket), metadata[|metadata| - 1])
  }

  /** The objects of a tree under the text of their paths. */
  function Uploads(t: Tree): Bucket {
    map k | k in (set p | p in t :: Join(p)) && Below(k) in t && Join(Below(k)) == k :: t[Below(k)]
  }

  ghost function RestoreOf<H(!new)>(h: Hasher<H>, f: Format, folder: Folder, bucket: Bucket): Restored {
    if folder.Missing? then Restored(bucket, 0, false)
    else if IndexOf(f, folder).None? then Restored(bucket, 0, true)
    else if IndexOf(f, folder).value == [] then Restored(bucket + Uploads(Payload(folder.files)), 0, false)
    else RestoreAll(h, folder, IndexOf(f, folder).value, bucket)
  }

  /** One object: small files are hashed in one piece, large ones in chunks of 64 KiB. */
  method RestoreObject<H(!new)>(h: Hasher<H>, folder: Folder, s: Restored, m: Meta) returns (t: Restored)
    requires h.Lawful() && folder.Folder? && !s.crashed
    ensures t == RestoreOne(h, folder, s, m)
  {
    match Look(folder, m.key) {
      case Absent => t := s.(failed := s.failed + 1);
      case Directory => t := s.(crashed := true);
      case File(data) =>
        var actual: string;
        if |data| <= SMALL { actual := h.Hash(data); } else { actual := Streamed(h, data, 64 * 1024); }
        if actual != m.sha { t := s.(failed := s.failed + 1); } else { t := s.(bucket := s.bucket[m.key := data]); }
    }
  }

  method RestoreEach<H(!new)>(h: Hasher<H>, folder: Folder, metadata: seq<Meta>, bucket: Bucket) returns (s: Restored)
    requires h.Lawful() && folder.Folder?
    ensures s == RestoreAll(h, folder, metadata, bucket)
  {
    s := Restored(bucket, 0, false);
    assert metadata[..0] == [] && metadata[..|metadata|] == metadata;
    for k := 0 to |metadata|
      invariant s == RestoreAll(h, folder, metadata[..k], bucket) && !s.crashed
    {
      assert metadata[..k + 1][..k] == metadata[..k];
      s := RestoreObject(h, folder, s, metadata[k]);
      if s.crashed {
        RestoreCrashStays(h, folder, metadata, bucket, k + 1);
        return;
      }
    }
  }

  lemma {:induction false} RestoreCrashStays<H(!new)>(
      h: Hasher<H>, folder: Folder, metadata: seq<Meta>, bucket: Bucket, k: nat)
    requires folder.Folder? && k <= |metadata| && RestoreAll(h, folder, metadata[..k], bucket).crashed
    ensures RestoreAll(h, folder, metadata, bucket) == RestoreAll(h, folder, metadata[..k], bucket)
    decreases |metadata|
  {
    if k < |metadata| {
      assert metadata[..|metadata| - 1][..k] == metadata[..k];
      RestoreCrashStays(h, folder, metadata[..|metadata| - 1], bucket, k);
    } else {
      assert metadata[..k] == metadata;
    }
  }

  function Uploaded(bucket: Bucket, paths: seq<Path>, t: Tree): Bucket {
    if paths == [] then bucket
    else
      var b, p := Uploaded(bucket, paths[..|paths| - 1], t), paths[|paths| - 1];
      if p in t then b[Join(p) := t[p]] else b
  }

  /** The scan of a directory without an index. */
  method UploadScan(folder: Folder, bucket: Bucket) returns (b: Bucket)
    requires folder.Folder? && folder.Valid()
    ensures b == bucket + Uploads(Payload(folder.files))
  {
    b := bucket;
    ghost var t := Payload(folder.files);
    for k := 0 to |folder.paths|
      invariant b == Uploaded(bucket, folder.paths[..k], t)
    {
      assert folder.paths[..k + 1][..k] == folder.paths[..k];
      var path := folder.paths[k];
      if path in folder.files && !IsIndex(path) { b := b[Join(path) := folder.files[path]]; }
    }
    assert folder.paths[..|folder.paths|] == folder.paths;
    UploadedIsUploads(bucket, folder.paths, t);
  }

  /** The object of a tree stored under a key. */
  ghost predicate KeyOf(t: Tree, key: string) { Below(key) in t && Join(Below(key)) == key }

  lemma {:induction false} UploadedAt(bucket: Bucket, paths: seq<Path>, t: Tree, key: string)
    requires ProperTree(t)
    ensures var b := Uploaded(bucket, paths, t); var there := KeyOf(t, key) && Below(key) in paths;
            && (key in b <==> key in bucket || there)
            && (key in b ==> b[key] == if there then t[Below(key)] else bucket[key])
  {
    if paths != [] {
      hide Join, Below;
      var front, p := paths[..|paths| - 1], paths[|paths| - 1];
      UploadedAt(bucket, front, t, key);
      assert paths == front + [p];
      if p in t { TextNamesPath(p); }
    }
  }

  lemma UploadsAt(t: Tree, key: string)
    requires ProperTree(t)
    ensures key in Uploads(t) <==> KeyOf(t, key)
    ensures key in Uploads(t) ==> Uploads(t)[key] == t[Below(key)]
  {
    hide Join, Below;
    forall p | p in t ensures Below(Join(p)) == p { TextNamesPath(p); }
  }

  lemma SameBuckets(a: Bucket, b: Bucket)
    requires forall key :: SameAt(a, b, key)
    ensures a == b
  {
    forall key ensures key in a <==> key in b { assert SameAt(a, b, key); }
    forall key | key in a ensures a[key] == b[key] { assert SameAt(a, b, key); }
  }

  predicate SameAt(a: Bucket, b: Bucket, key: string) { (key in a <==> key in b) && (key in a ==> a[key] == b[key]) }

  lemma UploadedIsUploads(bucket: Bucket, paths: seq<Path>, t: Tree)
    requires ProperTree(t) && forall p | p in t :: p in paths
    ensures Uploaded(bucket, paths, t) == bucket + Uploads(t)
  {
    forall key ensures SameAt(Uploaded(bucket, paths, t), bucket + Uploads(t), key) {
      UploadedAt(bucket, paths, t, key);
      UploadsAt(t, key);
      hide Uploaded, Uploads, Join, Below;
    }
    hide *;
    SameBuckets(Uploaded(bucket, paths, t), bucket + Uploads(t));
  }

  /** `_restore_minio_objects`. */
  method RestoreObjects<H(!new)>(h: Hasher<H>, f: Format, folder: Folder, bucket: Bucket) returns (s: Restored)
    requires h.Lawful() && folder.Valid() && ContainedIndex(f, folder)
    ensures s == RestoreOf(h, f, folder, bucket)
  {
    if folder.Missing? { return Restored(bucket, 0, false); }
    var index := IndexOf(f, folder);
    if index.None? { return Restored(bucket, 0, true); }
    if index.value == [] {
      var b := UploadScan(folder, bucket);
      return Restored(b, 0, false);
    }
    s := RestoreEach(h, folder, index.value, bucket);
  }

  // ---- Pre-validation decides ----

  /** Some entry of the index has this key. */
  ghost predicate InIndex(metadata: seq<Meta>, key: string) { exists m :: m in metadata && m.key == key }

  lemma InIndexMore(metadata: seq<Meta>, m: Meta, key: string)
    ensures InIndex(metadata + [m], key) <==> InIndex(metadata, key) || key == m.key
  {
    if InIndex(metadata, key) {
      var x :| x in metadata && x.key == key;
      assert x in metadata + [m];
    }
    assert m in metadata + [m];
  }

  ghost predicate AllIntact<H(!new)>(h: Hasher<H>, folder: Folder, metadata: seq<Meta>)
    requires folder.Folder?
  {
    forall m | m in metadata :: Intact(h, folder, m)
  }

  lemma AllIntactMore<H(!new)>(h: Hasher<H>, folder: Folder, metadata: seq<Meta>, m: Meta)
    requires folder.Folder?
    ensures AllIntact(h, folder, metadata + [m]) <==> AllIntact(h, folder, metadata) && Intact(h, folder, m)
  {
    hide Intact;
    assert m in metadata + [m];
  }

  /** After restoring intact entries into a bucket: what one key holds. */
  ghost predicate After(folder: Folder, metadata: seq<Meta>, bucket: Bucket, result: Bucket, key: string)
    requires folder.Folder?
  {
    && (key in result <==> key in bucket || InIndex(metadata, key))
    && (key in result ==>
          if InIndex(metadata, key)
          then Look(folder, key) == File(result[key])
          else result[key] == bucket[key])
  }

  lemma AfterNext<H(!new)>(
      h: Hasher<H>, folder: Folder, metadata: seq<Meta>, m: Meta, bucket: Bucket, s: Restored, key: string)
    requires folder.Folder?
    requires s.Complete() <==> AllIntact(h, folder, metadata)
    requires s.Complete() ==> After(folder, metadata, bucket, s.bucket, key)
    ensures var t := RestoreOne(h, folder, s, m);
            && (t.Complete() <==> AllIntact(h, folder, metadata + [m]))
            && (t.Complete() ==> After(folder, metadata + [m], bucket, t.bucket, key))
  {
    AllIntactMore(h, folder, metadata, m);
    InIndexMore(metadata, m, key);
    hide Look, InIndex, AllIntact;
  }

  lemma RestoreNone<H(!new)>(h: Hasher<H>, folder: Folder, bucket: Bucket, key: string)
    requires folder.Folder?
    ensures var s := RestoreAll(h, folder, [], bucket);
            s.Complete() && AllIntact(h, folder, []) && After(folder, [], bucket, s.bucket, key)
  {
  }

  lemma RestoreMore<H(!new)>(h: Hasher<H>, folder: Folder, metadata: seq<Meta>, bucket: Bucket)
    requires folder.Folder? && metadata != []
    ensures var n := |metadata| - 1;
            && RestoreAll(h, folder, metadata, bucket)
              == RestoreOne(h, folder, RestoreAll(h, folder, metadata[..n], bucket), metadata[n])
            && metadata == metadata[..n] + [metadata[n]]
  {
    hide RestoreOne;
  }

  /** A restore by index completes exactly when every entry is intact, and then the bucket has, under
      each indexed key, the bytes found under it. */
  lemma {:induction false} RestoreAllAt<H(!new)>(
      h: Hasher<H>, folder: Folder, metadata: seq<Meta>, bucket: Bucket, key: string)
    requires folder.Folder?
    ensures var s := RestoreAll(h, folder, metadata, bucket);
            && (s.Complete() <==> AllIntact(h, folder, metadata))
            && (s.Complete() ==> After(folder, metadata, bucket, s.bucket, key))
  {
    hide *;
    if metadata == [] {
      RestoreNone(h, folder, bucket, key);
    } else {
      var n := |metadata| - 1;
      RestoreAllAt(h, folder, metadata[..n], bucket, key);
      AfterNext(h, folder, metadata[..n], metadata[n], bucket, RestoreAll(h, folder, metadata[..n], bucket), key);
      RestoreMore(h, folder, metadata, bucket);
    }
  }

  /** On an unchanged directory with an index, the restore completes exactly when the pre-validation
      passed: hashing a file in one piece or in chunks makes no difference. */
  lemma PrevalidationDecides<H(!new)>(h: Hasher<H>, f: Format, folder: Folder, bucket: Bucket)
    requires folder.Folder? && IndexOf(f, folder).Some? && IndexOf(f, folder).value != []
    ensures Passes(h, f, folder) <==> RestoreOf(h, f, folder, bucket).Complete()
  {
    RestoreAllAt(h, folder, IndexOf(f, folder).value, bucket, "");
  }

  // ---- Every outcome of a restore ----

  predicate AtDirectory(folder: Folder, m: Meta)
    requires folder.Folder?
  {
    Look(folder, m.key).Directory?
  }

  /** The first entry whose file is a directory, where the restore ends in an exception. */
  function Stops(folder: Folder, metadata: seq<Meta>): (k: nat)
    requires folder.Folder?
    ensures k <= |metadata|
  {
    if metadata == [] then 0
    else
      var n := |metadata| - 1;
      var k := Stops(folder, metadata[..n]);
      if k < n || AtDirectory(folder, metadata[n]) then k else n + 1
  }

  lemma {:induction false} StopsIsFirst(folder: Folder, metadata: seq<Meta>)
    requires folder.Folder?
    ensures var k := Stops(folder, metadata);
            && (forall i | 0 <= i < k :: !AtDirectory(folder, metadata[i]))
            && (k < |metadata| ==> AtDirectory(folder, metadata[k]))
  {
    hide AtDirectory;
    if metadata != [] { StopsIsFirst(folder, metadata[..|metadata| - 1]); }
  }

  /** The entries, by position, that are missing or have another digest. */
  ghost function Damaged<H(!new)>(h: Hasher<H>, folder: Folder, metadata: seq<Meta>): set<nat>
    requires folder.Folder?
  {
    set i: nat | i < |metadata| && !Intact(h, folder, metadata[i])
  }

  /** Some entry has this key, and the file under it has that entry's digest. */
  ghost predicate IntactAt<H(!new)>(h: Hasher<H>, folder: Folder, metadata: seq<Meta>, key: string)
    requires folder.Folder?
  {
    exists m :: m in metadata && m.key == key && Intact(h, folder, m)
  }

  /** What one key holds: the bytes of its file where an entry vouches for them, and what it held before
      everywhere else. */
  ghost predicate RestoredAt<H(!new)>(
      h: Hasher<H>, folder: Folder, metadata: seq<Meta>, bucket: Bucket, result: Bucket, key: string)
    requires folder.Folder?
  {
    if IntactAt(h, folder, metadata, key)
    then key in result && Look(folder, key) == File(result[key])
    else SameAt(result, bucket, key)
  }

  lemma RestoredNext<H(!new)>(
      h: Hasher<H>, folder: Folder, metadata: seq<Meta>, m: Meta, bucket: Bucket, s: Restored, key: string)
    requires folder.Folder? && !s.crashed && RestoredAt(h, folder, metadata, bucket, s.bucket, key)
    ensures var t := RestoreOne(h, folder, s, m);
            && (t.crashed <==> Look(folder, m.key).Directory?)
            && (t.crashed ==> t.bucket == s.bucket && t.failed == s.failed)
            && (!t.crashed ==> RestoredAt(h, folder, metadata + [m], bucket, t.bucket, key))
            && (!t.crashed ==> t.failed == s.failed + (if Intact(h, folder, m) then 0 else 1))
  {
    assert IntactAt(h, folder, metadata + [m], key)
      <==> IntactAt(h, folder, metadata, key) || (m.key == key && Intact(h, folder, m)) by {
      hide Intact;
      assert m in metadata + [m];
    }
    hide Look, IntactAt;
  }

  lemma DamagedMore<H(!new)>(h: Hasher<H>, folder: Folder, metadata: seq<Meta>, m: Meta)
    requires folder.Folder?
    ensures |Damaged(h, folder, metadata + [m])|
            == |Damaged(h, folder, metadata)| + (if Intact(h, folder, m) then 0 else 1)
  {
    hide Intact;
    var n := |metadata|;
    assert Damaged(h, folder, metadata + [m])
      == Damaged(h, folder, metadata) + (if Intact(h, folder, m) then {} else {n});
    assert n !in Damaged(h, folder, metadata);
  }

  lemma RestoredNothing<H(!new)>(h: Hasher<H>, folder: Folder, bucket: Bucket, key: string)
    requires folder.Folder?
    ensures RestoreAll(h, folder, [], bucket) == Restored(bucket, 0, false)
    ensures RestoredAt(h, folder, [], bucket, bucket, key) && Damaged(h, folder, []) == {}
  {
  }

  lemma RestoreStays<H(!new)>(h: Hasher<H>, folder: Folder, s: Restored, m: Meta)
    requires folder.Folder? && s.crashed
    ensures RestoreOne(h, folder, s, m) == s
  {
  }

  /** However a restore by index goes: it works through the entries before the first one that is a
      directory, and crashes exactly when there is such a one. Each key then holds the bytes of its
      file if one of those entries has their digest, and what it held before if not, so nothing corrupt
      is uploaded; and the failures counted are those of the entries that are missing or corrupt. */
  lemma {:induction false} RestoreOutcome<H(!new)>(
      h: Hasher<H>, folder: Folder, metadata: seq<Meta>, bucket: Bucket, key: string)
    requires folder.Folder?
    ensures var s, done := RestoreAll(h, folder, metadata, bucket), metadata[..Stops(folder, metadata)];
            && (s.crashed <==> done != metadata)
            && s.failed == |Damaged(h, folder, done)|
            && RestoredAt(h, folder, done, bucket, s.bucket, key)
  {
    hide *;
    RestoredNothing(h, folder, bucket, key);
    if metadata == [] {
      assert metadata[..Stops(folder, metadata)] == [];
    } else {
      var n := |metadata| - 1;
      var front, m, s := metadata[..n], metadata[n], RestoreAll(h, folder, metadata[..n], bucket);
      RestoreOutcome(h, folder, front, bucket, key);
      RestoreMore(h, folder, metadata, bucket);
      StopsMore(folder, metadata);
      assert front[..n] == front && metadata[..n + 1] == metadata;
      if s.crashed {
        RestoreStays(h, folder, s, m);
        assert metadata[..Stops(folder, front)] == front[..Stops(folder, front)];
      } else {
        RestoredNext(h, folder, front, m, bucket, s, key);
        DamagedMore(h, folder, front, m);
      }
    }
  }

  lemma StopsMore(folder: Folder, metadata: seq<Meta>)
    requires folder.Folder? && metadata != []
    ensures var n := |metadata| - 1;
            && (Stops(folder, metadata[..n]) < n ==> Stops(folder, metadata) == Stops(folder, metadata[..n]))
            && (Stops(folder, metadata[..n]) == n ==>
                  Stops(folder, metadata) == if Look(folder, metadata[n].key).Directory? then n else n + 1)
  {
    hide Look;
  }

  /** When it crashes, told of the directory alone: some entry's path is no file but a directory. */
  lemma CrashesAtDirectories<H(!new)>(h: Hasher<H>, folder: Folder, metadata: seq<Meta>, bucket: Bucket)
    requires folder.Folder?
    ensures RestoreAll(h, folder, metadata, bucket).crashed
       <==> exists m :: m in metadata && Below(m.key) !in folder.files
                        && (Below(m.key) == [] || Below(m.key) in folder.paths)
  {
    RestoreOutcome(h, folder, metadata, bucket, "");
    StopsIsFirst(folder, metadata);
    var k := Stops(folder, metadata);
    hide Below, RestoreAll, RestoredAt, Damaged, Stops;
    if k < |metadata| {
      assert AtDirectory(folder, metadata[k]) && metadata[k] in metadata;
    } else {
      assert metadata[..k] == metadata;
      assert forall m | m in metadata :: !AtDirectory(folder, m);
    }
  }

  /** A restore in all its forms: without the directory it does nothing; when its index is itself a
      directory it does nothing and crashes; without entries it uploads every object file under the text
      of its path; and with entries it goes as `RestoreOutcome` says. */
  lemma RestoreTells<H(!new)>(h: Hasher<H>, f: Format, folder: Folder, bucket: Bucket, key: string)
    requires folder.Valid()
    ensures var s := RestoreOf(h, f, folder, bucket);
            && (folder.Missing? ==> s == Restored(bucket, 0, false))
            && (folder.Folder? && Look(folder, INDEX_NAME).Directory? ==> s == Restored(bucket, 0, true))
            && (folder.Folder? && !Look(folder, INDEX_NAME).Directory? ==>
                  var metadata := if Look(folder, INDEX_NAME).File? then f.read(Look(folder, INDEX_NAME).data) else [];
                  && (metadata != [] ==> s == RestoreAll(h, folder, metadata, bucket))
                  && (metadata == [] ==>
                        && s.Complete()
                        && if KeyOf(Payload(folder.files), key)
                           then key in s.bucket && s.bucket[key] == folder.files[Below(key)]
                           else SameAt(s.bucket, bucket, key)))
  {
    if folder.Folder? {
      assert ProperTree(Payload(folder.files));
      UploadsAt(Payload(folder.files), key);
    }
    hide Look, Uploads, RestoreAll, Below, Join;
  }

  // ---- Every outcome of an export, with its index ----

  /** How an export ends, told from the listing and the objects: it crashes exactly when an object is in
      the way of a directory or the index is; otherwise the index is written for the files there are,
      and the export is complete exactly when no object was missed, and names the missed ones if not. */
  lemma ExportTells<H(!new)>(
      h: Hasher<H>, f: Format, bucket: Bucket, broken: set<string>, keys: Option<seq<string>>)
    requires f.Lawful()
    ensures var e := ExportOf(h, f, bucket, broken, keys);
            && (e.NotListed? <==> keys.None?)
            && (keys.Some? ==>
                  && (e.Crashed? <==> SomeBlocked(bucket, broken, keys.value) || IsDir(keys.value, INDEX))
                  && (e.Exported? ==> Missed(bucket, broken, keys.value) == [])
                  && (e.Incomplete? ==> e.failed == Missed(bucket, broken, keys.value) != [])
                  && (e.Exported? || e.Incomplete? ==>
                        && INDEX in e.disk.files
                        && f.read(e.disk.files[INDEX]) == Metadata(h, Payload(e.disk.files))
                        && forall p | p != INDEX :: OnDisk(bucket, broken, keys.value, e.disk, p)))
  {
    if keys.Some? {
      var s := ExportKeys(bucket, broken, keys.value);
      ExportOutcome(bucket, broken, keys.value);
      if !s.crashed {
        assert OnDisk(bucket, broken, keys.value, s.disk, INDEX);
        PayloadIndexed(s.disk.files, f.write(Metadata(h, Payload(s.disk.files))));
        forall p | p != INDEX ensures OnDisk(bucket, broken, keys.value, Indexed(h, f, s.disk), p) {
          assert OnDisk(bucket, broken, keys.value, s.disk, p);
        }
      }
    }
    hide ExportKeys, Payload, Metadata, SomeBlocked, Missed, IsDir;
  }

  // ---- Export, pre-validate, restore ----

  /** A key that a directory can carry: the text of its own path, not called objects.json. */
  ghost predicate Portable(key: string) { Canonical(key) && !IsIndex(Below(key)) }

  /** The directory as it is read back: the same files, listed in some order. */
  ghost predicate Reads(folder: Folder, d: Disk) {
    && folder.Folder? && folder.files == d.files && NoRepeats(folder.paths)
    && forall p :: p in folder.paths <==> p in d.files || p in d.dirs
  }

  lemma PayloadIndexed(files: Tree, data: Bytes)
    ensures Payload(files[INDEX := data]) == Payload(files)
  {
  }

  lemma IndexIsBelow()
    ensures Below(INDEX_NAME) == INDEX && Proper(INDEX) && IsIndex(INDEX)
  {
    assert Join(INDEX) == INDEX_NAME;
    TextNamesPath(INDEX);
  }

  /** Each entry of the metadata of a tree is about one of its files, and each file has an entry. */
  lemma MetadataEntries<H(!new)>(h: Hasher<H>, t: Tree, m: Meta)
    requires m in Metadata(h, t)
    ensures exists p :: p in t && m == MetaOf(h, p, t[p])
  {
    MetadataAt(h, t);
    hide Metadata;
    var i :| 0 <= i < |Metadata(h, t)| && Metadata(h, t)[i] == m;
    assert Ascending(t.Keys)[i] in t;
  }

  lemma MetadataCovers<H(!new)>(h: Hasher<H>, t: Tree, p: Path)
    requires p in t
    ensures MetaOf(h, p, t[p]) in Metadata(h, t)
  {
    MetadataAt(h, t);
    AscendingOf(t.Keys);
    hide Metadata;
    var i :| 0 <= i < |Ascending(t.Keys)| && Ascending(t.Keys)[i] == p;
    assert Metadata(h, t)[i] in Metadata(h, t);
  }

  lemma IndexedKeys<H(!new)>(h: Hasher<H>, t: Tree, key: string)
    requires ProperTree(t)
    ensures InIndex(Metadata(h, t), key) <==> KeyOf(t, key)
  {
    hide Metadata, Join, Below;
    if InIndex(Metadata(h, t), key) {
      var m :| m in Metadata(h, t) && m.key == key;
      MetadataEntries(h, t, m);
      var p :| p in t && m == MetaOf(h, p, t[p]);
      TextNamesPath(p);
    }
    if KeyOf(t, key) {
      MetadataCovers(h, t, Below(key));
    }
  }

  lemma IndexedIntact<H(!new)>(h: Hasher<H>, folder: Folder, t: Tree, m: Meta)
    requires folder.Folder? && ProperTree(t) && m in Metadata(h, t)
    requires forall p | p in t :: p in folder.files && folder.files[p] == t[p]
    ensures Intact(h, folder, m)
  {
    MetadataEntries(h, t, m);
    hide Metadata, Join, Below;
    var p :| p in t && m == MetaOf(h, p, t[p]);
    TextNamesPath(p);
  }

  lemma ReadIndex<H(!new)>(h: Hasher<H>, f: Format, d: Disk, folder: Folder)
    requires f.Lawful() && Reads(folder, Indexed(h, f, d))
    ensures IndexOf(f, folder) == Some(Metadata(h, Payload(d.files)))
  {
    IndexIsBelow();
    hide Metadata, Below;
  }

  lemma RestoredKey<H(!new)>(h: Hasher<H>, folder: Folder, t: Tree, result: Bucket, key: string)
    requires folder.Folder? && ProperTree(t) && After(folder, Metadata(h, t), map[], result, key)
    requires forall p | p in t :: p in folder.files && folder.files[p] == t[p]
    ensures SameAt(result, Uploads(t), key)
  {
    IndexedKeys(h, t, key);
    UploadsAt(t, key);
    hide Metadata, InIndex, Below, Join, Uploads;
  }

  lemma RestoredByIndex<H(!new)>(h: Hasher<H>, folder: Folder, t: Tree)
    requires folder.Folder? && ProperTree(t)
    requires forall p | p in t :: p in folder.files && folder.files[p] == t[p]
    ensures AllIntact(h, folder, Metadata(h, t))
    ensures var s := RestoreAll(h, folder, Metadata(h, t), map[]); s.Complete() && s.bucket == Uploads(t)
  {
    forall m | m in Metadata(h, t) ensures Intact(h, folder, m) { IndexedIntact(h, folder, t, m); }
    assert AllIntact(h, folder, Metadata(h, t));
    hide *;
    var s := RestoreAll(h, folder, Metadata(h, t), map[]);
    RestoreAllAt(h, folder, Metadata(h, t), map[], "");
    forall key ensures SameAt(s.bucket, Uploads(t), key) {
      RestoreAllAt(h, folder, Metadata(h, t), map[], key);
      RestoredKey(h, folder, t, s.bucket, key);
    }
    SameBuckets(s.bucket, Uploads(t));
  }

  lemma PayloadIsThere<H(!new)>(h: Hasher<H>, f: Format, d: Disk, folder: Folder)
    requires Reads(folder, Indexed(h, f, d))
    ensures Payload(folder.files) == Payload(d.files)
    ensures forall p | p in Payload(d.files) :: p in folder.files && folder.files[p] == Payload(d.files)[p]
  {
    PayloadIndexed(d.files, f.write(Metadata(h, Payload(d.files))));
  }

  /** Whatever the directory holds, pre-validation passes right after the export, and restoring into
      an empty bucket gives the files under the texts of their paths. */
  lemma RestoreGivesFiles<H(!new)>(h: Hasher<H>, f: Format, d: Disk, folder: Folder)
    requires h.Lawful() && f.Lawful() && ProperTree(d.files) && Reads(folder, Indexed(h, f, d))
    ensures Passes(h, f, folder)
    ensures var s := RestoreOf(h, f, folder, map[]); s.Complete() && s.bucket == Uploads(Payload(d.files))
  {
    hide *;
    var t := Payload(d.files);
    ReadIndex(h, f, d, folder);
    PayloadIsThere(h, f, d, folder);
    IsRead(folder, Indexed(h, f, d));
    PayloadIsProper(d.files);
    RestoredByIndex(h, folder, t);
    ByIndex(h, f, folder, Metadata(h, t), t);
  }

  lemma IsRead(folder: Folder, d: Disk)
    requires Reads(folder, d)
    ensures folder.Folder?
  {
  }

  lemma PayloadIsProper(t: Tree)
    requires ProperTree(t)
    ensures ProperTree(Payload(t))
  {
  }

  /** With an index as read back: pre-validation asks what the restore finds. */
  lemma ByIndex<H(!new)>(h: Hasher<H>, f: Format, folder: Folder, metadata: seq<Meta>, t: Tree)
    requires folder.Folder? && IndexOf(f, folder) == Some(metadata) && Payload(folder.files) == t
    requires AllIntact(h, folder, metadata)
    requires var s := RestoreAll(h, folder, metadata, map[]); s.Complete() && s.bucket == Uploads(t)
    ensures Passes(h, f, folder)
    ensures var s := RestoreOf(h, f, folder, map[]); s.Complete() && s.bucket == Uploads(t)
  {
    hide Uploads, RestoreAll, IndexOf, Payload, Intact;
    assert map[] + Uploads(t) == Uploads(t);
  }

  /** Keys listed by the pages, against the bucket they list. */
  ghost predicate Lists(keys: seq<string>, bucket: Bucket) { forall k :: k in keys <==> k in bucket }

  /** The export of a bucket is complete exactly when its objects fit and none of them needs a
      directory called objects.json; the files written are then uploads of the bucket exactly when
      every key is portable. */
  lemma ExportIsComplete<H(!new)>(h: Hasher<H>, f: Format, bucket: Bucket, broken: set<string>, keys: seq<string>)
    requires Lists(keys, bucket) && "" !in bucket
    ensures ExportOf(h, f, bucket, broken, Some(keys)).Exported?
       <==> Fits(bucket, broken, keys) && forall k | k in bucket :: INDEX !in Parents(Below(k))
    ensures var s := ExportKeys(bucket, broken, keys);
            s.Clean() ==> (Uploads(Payload(s.disk.files)) == bucket <==> forall k | k in bucket :: Portable(k))
  {
    CleanMeansFits(bucket, broken, keys);
    DiskIsProper(bucket, broken, keys);
    var s := ExportKeys(bucket, broken, keys);
    if s.Clean() {
      UploadsAreTheBucket(s.disk, bucket, keys);
      IndexDirectory(s.disk, bucket, keys);
    }
    hide Fits, Holds, Parents, Below, ExportKeys, Uploads, Payload, Lists, Portable;
  }

  lemma IndexDirectory(d: Disk, bucket: Bucket, keys: seq<string>)
    requires Holds(d, bucket, keys) && Lists(keys, bucket) && "" !in bucket
    ensures INDEX !in d.dirs <==> forall k | k in bucket :: INDEX !in Parents(Below(k))
  {
    hide Parents, Below;
    forall k | k in bucket ensures Parents(Below(k)) <= d.dirs { assert Real(keys, k); }
    if INDEX in d.dirs {
      var k :| Real(keys, k) && INDEX in Parents(Below(k));
      assert k in bucket;
    }
  }

  lemma UploadsAreTheBucket(d: Disk, bucket: Bucket, keys: seq<string>)
    requires ProperTree(d.files) && Holds(d, bucket, keys) && Lists(keys, bucket) && "" !in bucket
    ensures Uploads(Payload(d.files)) == bucket <==> forall k | k in bucket :: Portable(k)
  {
    var t := Payload(d.files);
    if forall k | k in bucket :: Portable(k) {
      forall k ensures SameAt(Uploads(t), bucket, k) {
        UploadsAt(t, k);
        if k in bucket { PortableIsUploaded(d, bucket, keys, k); }
        if KeyOf(t, k) { UploadedIsObject(d, bucket, keys, k); }
        hide *;
      }
      SameBuckets(Uploads(t), bucket);
    } else {
      var k :| k in bucket && !Portable(k);
      UploadsAt(t, k);
      if KeyOf(t, k) { UploadedIsPortable(d.files, k); }
    }
    hide *;
  }

  lemma UploadedIsPortable(files: Tree, k: string)
    requires ProperTree(files) && KeyOf(Payload(files), k)
    ensures Portable(k)
  {
  }

  lemma PortableIsUploaded(d: Disk, bucket: Bucket, keys: seq<string>, k: string)
    requires ProperTree(d.files) && Holds(d, bucket, keys) && Lists(keys, bucket) && "" !in bucket
    requires k in bucket && forall l | l in bucket :: Portable(l)
    ensures var t := Payload(d.files); KeyOf(t, k) && t[Below(k)] == bucket[k]
  {
    hide Join, Below, Parents;
    assert Real(keys, k);
    var l :| IsObject(d, bucket, keys, Below(k), l);
    assert Portable(l) && Portable(k);
  }

  lemma UploadedIsObject(d: Disk, bucket: Bucket, keys: seq<string>, k: string)
    requires ProperTree(d.files) && Holds(d, bucket, keys) && KeyOf(Payload(d.files), k)
             && forall l | l in bucket :: Portable(l)
    ensures k in bucket
  {
    hide Join, Below, Parents;
    var l :| IsObject(d, bucket, keys, Below(k), l);
    assert Portable(l);
  }

  /** A complete export, read back in any order, passes pre-validation; and the restore into an empty
      bucket completes and gives back the exported bucket exactly when every key is portable. */
  lemma RoundTrip<H(!new)>(
      h: Hasher<H>, f: Format, bucket: Bucket, broken: set<string>, pages: seq<Option<seq<string>>>,
      folder: Folder)
    requires h.Lawful() && f.Lawful() && Listed(pages).Some? && Lists(Listed(pages).value, bucket) && "" !in bucket
    requires forall k | k in bucket :: Contained(k)
    requires ExportOf(h, f, bucket, broken, Listed(pages)).Exported?
    requires Reads(folder, ExportOf(h, f, bucket, broken, Listed(pages)).disk)
    ensures Passes(h, f, folder)
    ensures var s := RestoreOf(h, f, folder, map[]);
            s.Complete() && (s.bucket == bucket <==> forall k | k in bucket :: Portable(k))
  {
    hide *;
    var keys := Listed(pages).value;
    ExportedDisk(h, f, bucket, broken, keys);
    ExportIsComplete(h, f, bucket, broken, keys);
    DiskIsProper(bucket, broken, keys);
    RestoreGivesFiles(h, f, ExportKeys(bucket, broken, keys).disk, folder);
  }

  lemma ExportedDisk<H(!new)>(h: Hasher<H>, f: Format, bucket: Bucket, broken: set<string>, keys: seq<string>)
    requires ExportOf(h, f, bucket, broken, Some(keys)).Exported?
    ensures var s := ExportKeys(bucket, broken, keys);
            s.Clean() && ExportOf(h, f, bucket, broken, Some(keys)) == Exported(Indexed(h, f, s.disk))
  {
  }

  /** Text added at the end leaves all components but the last as they were. */
  lemma {:induction false} SplitPrefix(u: string, t: string)
    ensures |Split(u)| <= |Split(u + t)| && Split(u + t)[..|Split(u)| - 1] == Split(u)[..|Split(u)| - 1]
  {
    if t == "" {
      assert u + t == u;
    } else {
      SplitPrefix(u, t[..|t| - 1]);
      SplitMore(u + t[..|t| - 1], t[|t| - 1]);
      Snoc(u, t);
      hide Split;
    }
  }

  lemma Snoc(u: string, t: string)
    requires t != ""
    ensures u + t == u + t[..|t| - 1] + [t[|t| - 1]]
  {
  }

  lemma CanonicalHasNoEmpty(key: string)
    requires Canonical(key)
    ensures "" !in Split(key)
  {
    SplitOfJoin(Below(key));
    hide Split, Join, Below;
    assert !Component("");
  }

  lemma Slashes(s: string)
    ensures Split(s + "//") == Split(s) + ["", ""]
  {
    SplitAfterSlash(s, "");
    SplitAfterSlash(s + "/", "");
    assert s + "/" + "" == s + "/" && s + "/" + "/" + "" == s + "//";
    Assoc(Split(s), [""], [""]);
    hide Split;
  }

  lemma KeepsEmpty(p: Path, q: Path)
    requires |p| + 2 <= |q| && q[..|p| + 1] == (p + ["", ""])[..|p| + 1]
    ensures "" in q
  {
    assert q[..|p| + 1][|p|] == (p + ["", ""])[..|p| + 1][|p|] == "";
  }

  /** A key with a doubled slash is never portable: its backup restores under another key. */
  lemma DoubledSlashIsNotPortable(s: string, t: string)
    ensures !Portable(s + "//" + t)
  {
    Slashes(s);
    SplitPrefix(s + "//", t);
    KeepsEmpty(Split(s), Split(s + "//" + t));
    if Canonical(s + "//" + t) { CanonicalHasNoEmpty(s + "//" + t); }
  }

  // ---- A backup that reports success and restores another key ----

  /** The pages that list one key. */
  function OnePage(key: string): seq<Option<seq<string>>> { [Some([key])] }

  lemma OnePageLists(key: string)
    requires key != ""
    ensures Listed(OnePage(key)) == Some([key])
  {
    assert OnePage(key)[..0] == [] && [key][..0] == [];
    assert NonEmpty([key]) == [key] && [] + [key] == [key];
  }

  lemma OneKeyExports(key: string, data: Bytes)
    requires key != "" && Below(key) != []
    ensures ExportKeys(map[key := data], {}, [key])
            == Progress(Disk(map[Below(key) := data], Parents(Below(key))), [], false)
  {
    var p := Below(key);
    NotItsOwnParent(p);
    assert [key][..0] == [];
    hide Below, Parents;
    assert Parents(p) * EMPTY.files.Keys == {} && EMPTY.dirs + Parents(p) == Parents(p);
    assert EMPTY.files[p := data] == map[p := data];
  }

  lemma OneUpload(p: Path, data: Bytes)
    requires Proper(p) && !IsIndex(p)
    ensures Uploads(Payload(map[p := data])) == map[Join(p) := data]
  {
    var t: Tree := map[p := data];
    assert Payload(t) == t;
    TextNamesPath(p);
    forall key ensures SameAt(Uploads(t), map[Join(p) := data], key) {
      UploadsAt(t, key);
    }
    hide *;
    SameBuckets(Uploads(t), map[Join(p) := data]);
  }

  /** A single object whose key names a path: its export is complete, pre-validation passes, and it
      comes back under the text of that path, whatever its key was. */
  lemma OneObjectRestores<H(!new)>(h: Hasher<H>, f: Format, key: string, data: Bytes, folder: Folder)
    requires h.Lawful() && f.Lawful() && key != "" && Contained(key)
    requires Below(key) != [] && !IsIndex(Below(key)) && INDEX !in Parents(Below(key))
    ensures var e := ExportOf(h, f, map[key := data], {}, Listed(OnePage(key)));
            && e.Exported?
            && (Reads(folder, e.disk) ==>
                  && Passes(h, f, folder)
                  && RestoreOf(h, f, folder, map[]) == Restored(map[Join(Below(key)) := data], 0, false))
  {
    var p := Below(key);
    var d := Disk(map[p := data], Parents(p));
    BelowComponents(key);
    OnePageLists(key);
    OneKeyExports(key, data);
    OneUpload(p, data);
    assert Proper(p) && ProperTree(d.files);
    hide Below, Parents, Join, IsIndex, Listed, ExportKeys, Uploads, Payload, Passes, RestoreOf, Reads, Indexed,
      Contained;
    assert ExportOf(h, f, map[key := data], {}, Some([key])) == Exported(Indexed(h, f, d));
    if Reads(folder, Indexed(h, f, d)) { RestoreGivesFiles(h, f, d, folder); }
  }

  lemma KeptMore(p: Path, c: string)
    ensures Kept(p + [c]) == if c == "" || c == "." then Kept(p) else Kept(p) + [c]
  {
    assert (p + [c])[..|p|] == p;
  }

  lemma DoubledSlashNames(a: string, b: string)
    requires Component(a) && Component(b)
    ensures Split(a + "//" + b) == [a, "", b] && Below(a + "//" + b) == [a, b]
  {
    SplitOne(a);
    SplitAfterSlash(a, "");
    assert a + "/" + "" == a + "/";
    SplitAfterSlash(a + "/", b);
    assert a + "/" + "/" + b == a + "//" + b;
    assert [a] + [""] + [b] == [a, "", b] && [] + [a] == [a] && [a] + [b] == [a, b];
    hide Split;
    KeptMore([], a);
    KeptMore([a], "");
    KeptMore([a] + [""], b);
  }

  /** An object under a key with a doubled slash: the export reports success, pre-validation passes, and
      the restore puts it under the key with one slash. */
  lemma DoubledSlashRestoresElsewhere<H(!new)>(
      h: Hasher<H>, f: Format, a: string, b: string, data: Bytes, folder: Folder)
    requires h.Lawful() && f.Lawful() && Component(a) && Component(b)
    requires a != ".." && b != ".." && a != INDEX_NAME && b != INDEX_NAME
    ensures var e := ExportOf(h, f, map[a + "//" + b := data], {}, Listed(OnePage(a + "//" + b)));
            && e.Exported?
            && (Reads(folder, e.disk) ==>
                  && Passes(h, f, folder)
                  && RestoreOf(h, f, folder, map[]) == Restored(map[a + "/" + b := data], 0, false))
    ensures a + "/" + b != a + "//" + b
  {
    var key := a + "//" + b;
    DoubledSlashNames(a, b);
    assert [a, b][..1] == [a] && Join([a, b]) == a + "/" + b;
    assert key[0] == a[0];
    forall p | p in Parents([a, b]) ensures p == [a] {}
    assert |a + "/" + b| != |key|;
    hide Split, Below, Join, Parents;
    OneObjectRestores(h, f, key, data, folder);
  }
}
