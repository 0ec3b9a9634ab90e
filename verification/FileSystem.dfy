/** The cache directory file by file, the calls that change it, and the start-up scan (internal/cache/disk.go). */
module FileSystem {
  import opened Prelude
  import opened MapSum
  import opened Hex
  import opened Names
  import opened DiskIndex

  /** Partial is a metadata file whose write stopped early: it does not decode. */
  datatype Content = Blob(data: Bytes) | Json(meta: Metadata) | Partial

  datatype File = File(content: Content, mtime: int)

  type FS = map<Loc, File>

  /** What a lookup can see of the directory: decodable metadata and body bytes, by identifier. */
  datatype Disk = Disk(bodies: map<string, Bytes>, metas: map<string, Metadata>)

  ghost predicate WellFormed(fs: FS) {
    && (forall l :: l in fs ==> LegalLoc(l))
    && (forall l :: l in fs && (!l.CacheFile? || l.kind.Body?) ==> fs[l].content.Blob?)
  }

  ghost predicate ShowsBodies(fs: FS, bodies: map<string, Bytes>) {
    && (forall id :: id in bodies <==> CacheFile(id, Body) in fs)
    && (forall id :: id in bodies ==> fs[CacheFile(id, Body)].content == Blob(bodies[id]))
  }

  ghost predicate ShowsMetas(fs: FS, metas: map<string, Metadata>) {
    && (forall id :: id in metas <==> CacheFile(id, Meta) in fs && fs[CacheFile(id, Meta)].content.Json?)
    && (forall id :: id in metas ==> fs[CacheFile(id, Meta)].content == Json(metas[id]))
  }

  ghost predicate Shows(fs: FS, disk: Disk) {
    ShowsBodies(fs, disk.bodies) && ShowsMetas(fs, disk.metas)
  }

  /** Single file-system calls, the grain at which a process can be stopped. */
  datatype Micro =
    | CreateTemp(temp: string, data: Bytes, now: int)
    | RenameBody(temp: string, id: string)
    | WriteMetaTemp(id: string, written: Content, now: int)
    | RenameMeta(id: string)
    | Unlink(loc: Loc)

  predicate Legal(m: Micro) {
    match m
    case CreateTemp(_, _, _) => true
    case WriteMetaTemp(id, written, _) => IsId(id)
    case RenameBody(_, id) => IsId(id)
    case RenameMeta(id) => IsId(id)
    case Unlink(loc) => true
  }

  function Move(fs: FS, from: Loc, to: Loc): FS {
    if from in fs then (fs - {from})[to := fs[from]] else fs
  }

  function Do(fs: FS, m: Micro): FS {
    match m
    case CreateTemp(temp, data, now) => fs[Temp(temp) := File(Blob(data), now)]
    case RenameBody(temp, id) => Move(fs, Temp(temp), CacheFile(id, Body))
    case WriteMetaTemp(id, written, now) => fs[CacheFile(id, MetaTemp) := File(written, now)]
    case RenameMeta(id) => Move(fs, CacheFile(id, MetaTemp), CacheFile(id, Meta))
    case Unlink(loc) => fs - {loc}
  }

  function DoAll(fs: FS, ms: seq<Micro>): FS
    decreases |ms|
  {
    if ms == [] then fs else DoAll(Do(fs, ms[0]), ms[1..])
  }

  /** The effect of one file-system call as a lookup can see it. */
  function Effect(fs: FS, disk: Disk, m: Micro): Disk
    requires WellFormed(fs)
  {
    match m
    case RenameBody(temp, id) =>
      if Temp(temp) in fs then disk.(bodies := disk.bodies[id := fs[Temp(temp)].content.data]) else disk
    case RenameMeta(id) =>
      if CacheFile(id, MetaTemp) !in fs then disk
      else if fs[CacheFile(id, MetaTemp)].content.Json?
      then disk.(metas := disk.metas[id := fs[CacheFile(id, MetaTemp)].content.meta])
      else disk.(metas := disk.metas - {id})
    case Unlink(CacheFile(id, Body)) => disk.(bodies := disk.bodies - {id})
    case Unlink(CacheFile(id, Meta)) => disk.(metas := disk.metas - {id})
    case _ => disk
  }

  /** A rename leaves nothing behind under the old name, and touches no other file. */
  lemma RenameMoves(fs: FS, temp: string, id: string)
    requires Temp(temp) in fs && CacheFile(id, MetaTemp) in fs
    ensures Do(fs, RenameBody(temp, id)) == (fs - {Temp(temp)})[CacheFile(id, Body) := fs[Temp(temp)]]
    ensures Temp(temp) !in Do(fs, RenameBody(temp, id)) && CacheFile(id, MetaTemp) !in Do(fs, RenameMeta(id))
    ensures Do(fs, RenameMeta(id))
            == (fs - {CacheFile(id, MetaTemp)})[CacheFile(id, Meta) := fs[CacheFile(id, MetaTemp)]]
  {
  }

  lemma MicroKeepsShape(fs: FS, m: Micro)
    requires Legal(m) && WellFormed(fs)
    ensures WellFormed(Do(fs, m))
  {
  }

  lemma BodiesEffect(fs: FS, disk: Disk, m: Micro)
    requires WellFormed(fs) && ShowsBodies(fs, disk.bodies)
    ensures ShowsBodies(Do(fs, m), Effect(fs, disk, m).bodies)
  {
  }

  lemma MetasEffect(fs: FS, disk: Disk, m: Micro)
    requires WellFormed(fs) && ShowsMetas(fs, disk.metas)
    ensures ShowsMetas(Do(fs, m), Effect(fs, disk, m).metas)
  {
  }

  /** Stopped after any file-system calls of any number of operations in any order, the directory keeps its shape. */
  lemma {:induction false} RunKeepsShape(fs: FS, ms: seq<Micro>)
    requires forall i :: 0 <= i < |ms| ==> Legal(ms[i])
    requires WellFormed(fs)
    ensures WellFormed(DoAll(fs, ms))
    decreases |ms|
  {
    if ms == [] {
    } else {
      MicroKeepsShape(fs, ms[0]);
      RunKeepsShape(Do(fs, ms[0]), ms[1..]);
    }
  }

  lemma {:induction false} DoAllAppend(fs: FS, ms: seq<Micro>, m: Micro)
    ensures DoAll(fs, ms + [m]) == Do(DoAll(fs, ms), m)
    decreases |ms|
  {
    if ms == [] {
      assert ms + [m] == [m] && [m][1..] == [];
    } else {
      DoAllAppend(Do(fs, ms[0]), ms[1..], m);
      assert (ms + [m])[1..] == ms[1..] + [m];
    }
  }

  /** What start-up makes of one file that it takes for a body. */
  function Scanned(f: File): Entry
    requires f.content.Blob?
  {
    Entry(|f.content.data|, f.mtime, true, None, "")
  }

  /** The identifier under which the scan indexes a file, if it does. */
  function ScannedAs(l: Loc): Option<string>
    requires LegalLoc(l)
  {
    if l.Temp? || |ShardOf(l)| != 2 then None else ScanName(NameOf(l))
  }

  /** Of the cache's own files, the scan indexes the bodies, under their identifiers. */
  lemma ScannedCacheFile(l: Loc)
    requires LegalLoc(l) && l.CacheFile?
    ensures ScannedAs(l) == if l.kind.Body? then Some(l.id) else None
  {
    ScanNameInverts(l);
  }

  /** No foreign file is named like a body in a two-character sub-directory. */
  ghost predicate NoStrays(fs: FS)
    requires WellFormed(fs)
  {
    forall l :: l in fs && l.Foreign? ==> ScannedAs(l) == None
  }

  /** The lengths of the files that the scan has indexed. */
  ghost function ScannedSizes(fs: FS, left: set<Loc>): map<Loc, int>
    requires WellFormed(fs)
  {
    map l | l in fs && l !in left && ScannedAs(l).Some? :: LengthOf(fs[l])
  }

  function LengthOf(f: File): int {
    if f.content.Blob? then |f.content.data| else 0
  }

  /**
   * Every file read so far that is named like a body is indexed under its name, every entry stands for one
   * of them, and the total is the sum of their lengths; without strays it is the sum of the entries.
   */
  ghost predicate IsScanOf(entries: map<string, Entry>, total: int, fs: FS, left: set<Loc>)
    requires WellFormed(fs)
  {
    && AllIndexed(entries, fs, left)
    && (forall id :: id in entries ==> exists l :: StandsBehind(fs, left, l, id, entries[id]))
    && total == Sum(ScannedSizes(fs, left))
    && (NoStrays(fs) ==> total == Sum(Sizes(entries)))
  }

  ghost predicate AllIndexed(entries: map<string, Entry>, fs: FS, left: set<Loc>)
    requires WellFormed(fs)
  {
    forall l :: l in fs && l !in left && ScannedAs(l).Some? ==> ScannedAs(l).value in entries
  }

  ghost predicate StandsBehind(fs: FS, left: set<Loc>, l: Loc, id: string, e: Entry)
    requires WellFormed(fs)
  {
    l in fs && l !in left && ScannedAs(l) == Some(id) && fs[l].content.Blob? && e == Scanned(fs[l])
  }

  lemma ReadOneMore(fs: FS, left: set<Loc>, l: Loc)
    requires WellFormed(fs) && l in fs && l in left
    ensures l !in ScannedSizes(fs, left)
    ensures ScannedSizes(fs, left - {l})
            == if ScannedAs(l).Some? then ScannedSizes(fs, left)[l := LengthOf(fs[l])] else ScannedSizes(fs, left)
  {
  }

  lemma AddOne(sizes: map<Loc, int>, l: Loc, length: int)
    requires l !in sizes
    ensures Sum(sizes[l := length]) == Sum(sizes) + length
  {
    SumPut(sizes, l, length);
    assert sizes - {l} == sizes;
  }

  lemma SizesReadOne(fs: FS, left: set<Loc>, l: Loc)
    requires WellFormed(fs) && l in fs && l in left
    ensures Sum(ScannedSizes(fs, left - {l}))
            == Sum(ScannedSizes(fs, left)) + (if ScannedAs(l).Some? then LengthOf(fs[l]) else 0)
  {
    ReadOneMore(fs, left, l);
    AddOne(ScannedSizes(fs, left), l, LengthOf(fs[l]));
  }

  /** Without strays, a body is read once only. */
  lemma OwnBodyIsNew(fs: FS, left: set<Loc>, l: Loc, id: string, other: Loc, e: Entry)
    requires WellFormed(fs) && NoStrays(fs) && l in fs && l in left && ScannedAs(l) == Some(id)
    ensures !StandsBehind(fs, left, other, id, e)
  {
    if StandsBehind(fs, left, other, id, e) {
      ScannedCacheFile(l);
      ScannedCacheFile(other);
    }
  }

  /** A file that stands behind an entry still does when one more file has been read. */
  lemma StillBehind(fs: FS, left: set<Loc>, l: Loc, id: string, e: Entry)
    requires WellFormed(fs) && exists m :: StandsBehind(fs, left, m, id, e)
    ensures exists m :: StandsBehind(fs, left - {l}, m, id, e)
  {
    var m :| StandsBehind(fs, left, m, id, e);
    assert StandsBehind(fs, left - {l}, m, id, e);
  }

  /** Adding an entry to the sum, or replacing one only where there are strays. */
  lemma SumOneMore(fs: FS, entries: map<string, Entry>, total: int, left: set<Loc>, l: Loc, id: string)
    requires WellFormed(fs) && l in fs && l in left && ScannedAs(l) == Some(id) && fs[l].content.Blob?
    requires IsScanOf(entries, total, fs, left) && NoStrays(fs)
    ensures total + LengthOf(fs[l]) == Sum(Sizes(entries[id := Scanned(fs[l])]))
  {
    if id in entries {
      var other :| StandsBehind(fs, left, other, id, entries[id]);
      OwnBodyIsNew(fs, left, l, id, other, entries[id]);
    }
    SizesAfterUpdate(entries, id, Scanned(fs[l]));
    SizesWithout(entries, id);
  }

  lemma AllIndexedWith(entries: map<string, Entry>, fs: FS, left: set<Loc>, l: Loc, id: string, e: Entry)
    requires WellFormed(fs) && AllIndexed(entries, fs, left) && l in fs && ScannedAs(l) == Some(id)
    ensures AllIndexed(entries[id := e], fs, left - {l})
  {
    forall m | m in fs && m !in left - {l} && ScannedAs(m).Some?
      ensures ScannedAs(m).value in entries[id := e]
    {
      if m != l {
        assert ScannedAs(m).value in entries;
      }
    }
  }

  /** Every entry, the new one included, has a file behind it. */
  lemma AllBehind(fs: FS, entries: map<string, Entry>, total: int, left: set<Loc>, l: Loc, id: string, k: string,
                  e: Entry)
    requires WellFormed(fs) && l in fs && l in left && ScannedAs(l) == Some(id) && fs[l].content.Blob?
    requires IsScanOf(entries, total, fs, left)
    requires if k == id then e == Scanned(fs[l]) else k in entries && e == entries[k]
    ensures exists m :: StandsBehind(fs, left - {l}, m, k, e)
  {
    if k == id {
      assert StandsBehind(fs, left - {l}, l, k, e);
    } else {
      StillBehind(fs, left, l, k, e);
    }
  }

  /** Adding or replacing the entry of one more file. */
  lemma IndexOneMore(fs: FS, entries: map<string, Entry>, total: int, left: set<Loc>, l: Loc, id: string)
    requires WellFormed(fs) && l in fs && l in left && ScannedAs(l) == Some(id) && fs[l].content.Blob?
    requires IsScanOf(entries, total, fs, left)
    ensures IsScanOf(entries[id := Scanned(fs[l])], total + LengthOf(fs[l]), fs, left - {l})
  {
    SizesReadOne(fs, left, l);
    if NoStrays(fs) {
      SumOneMore(fs, entries, total, left, l, id);
    }
    AllIndexedWith(entries, fs, left, l, id, Scanned(fs[l]));
    var next := entries[id := Scanned(fs[l])];
    forall k | k in next
      ensures exists m :: StandsBehind(fs, left - {l}, m, k, next[k])
    {
      AllBehind(fs, entries, total, left, l, id, k, next[k]);
    }
  }

  lemma PassOver(fs: FS, entries: map<string, Entry>, total: int, left: set<Loc>, l: Loc)
    requires WellFormed(fs) && l in fs && l in left && ScannedAs(l) == None && IsScanOf(entries, total, fs, left)
    ensures IsScanOf(entries, total, fs, left - {l})
  {
    SizesReadOne(fs, left, l);
    forall k | k in entries
      ensures exists m :: StandsBehind(fs, left - {l}, m, k, entries[k])
    {
      StillBehind(fs, left, l, k, entries[k]);
    }
  }

  /** A file of a two-character sub-directory. */
  ghost predicate Listed(fs: FS, l: Loc)
    requires WellFormed(fs)
  {
    l in fs && !l.Temp? && |ShardOf(l)| == 2
  }

  /** One directory entry of the scan: a file named like a body becomes an index entry, any other is passed over. */
  method ScanFile(fs: FS, l: Loc, entries0: map<string, Entry>, total0: int, ghost left: set<Loc>)
    returns (entries: map<string, Entry>, total: int)
    requires WellFormed(fs) && Listed(fs, l) && l in left
    requires IsScanOf(entries0, total0, fs, left)
    ensures IsScanOf(entries, total, fs, left - {l})
  {
    entries, total := entries0, total0;
    match ScanName(NameOf(l)) {
      case None =>
        PassOver(fs, entries, total, left, l);
      case Some(id) =>
        if l.CacheFile? {
          ScannedCacheFile(l);
        }
        IndexOneMore(fs, entries, total, left, l, id);
        var e := Scanned(fs[l]);
        entries, total := entries[id := e], total + e.size;
    }
  }

  /** The root pass of the scan: leftover temporary files go, everything else stays. */
  method RemoveTemps(fs: FS) returns (after: FS)
    ensures forall l :: l in after <==> l in fs && !l.Temp?
    ensures forall l :: l in after ==> after[l] == fs[l]
  {
    after := fs;
    var rootFiles := set l | l in fs && l.Temp?;
    while rootFiles != {}
      invariant forall l :: l in rootFiles ==> l in fs && l.Temp?
      invariant forall l :: l in after <==> l in fs && (!l.Temp? || l in rootFiles)
      invariant forall l :: l in after ==> after[l] == fs[l]
      decreases |rootFiles|
    {
      var l :| l in rootFiles;
      if "tmp-" <= NameOf(l) {
        after := after - {l};
      }
      rootFiles := rootFiles - {l};
    }
  }

  lemma OneLess(all: set<Loc>, listing: set<Loc>, files: set<Loc>, l: Loc)
    requires l in files && files <= listing
    ensures all - (listing - files) - {l} == all - (listing - (files - {l}))
  {
  }

  /** The inner loop of the scan, over the listing of one two-character directory. */
  method ScanListing(fs: FS, listing: set<Loc>, entries0: map<string, Entry>, total0: int, ghost left0: set<Loc>)
    returns (entries: map<string, Entry>, total: int, ghost left: set<Loc>)
    requires WellFormed(fs)
    requires listing <= left0 && forall l :: l in listing ==> Listed(fs, l)
    requires IsScanOf(entries0, total0, fs, left0)
    ensures left == left0 - listing && IsScanOf(entries, total, fs, left)
  {
    entries, total, left := entries0, total0, left0;
    var files := listing;
    while files != {}
      invariant files <= listing && left == left0 - (listing - files)
      invariant IsScanOf(entries, total, fs, left)
      decreases |files|
    {
      var l :| l in files;
      entries, total := ScanFile(fs, l, entries, total, left);
      OneLess(left0, listing, files, l);
      files, left := files - {l}, left - {l};
    }
    assert listing - files == listing;
  }

  /** The files of one sub-directory of the cache directory. */
  function Listing(fs: FS, shard: string): set<Loc>
    requires forall l :: l in fs ==> LegalLoc(l)
  {
    set l | l in fs && !l.Temp? && ShardOf(l) == shard
  }

  lemma NothingScanned(fs: FS, left: set<Loc>)
    requires WellFormed(fs) && forall l :: l in fs && ScannedAs(l).Some? ==> l in left
    ensures IsScanOf(map[], 0, fs, left)
  {
    assert ScannedSizes(fs, left) == map[];
    assert Sizes(map[]) == map[];
  }

  lemma NothingLeft(fs: FS, entries: map<string, Entry>, total: int, left: set<Loc>)
    requires WellFormed(fs) && IsScanOf(entries, total, fs, left)
    requires forall l :: l in left && l in fs ==> ScannedAs(l) == None
    ensures IsScanOf(entries, total, fs, {})
  {
    assert ScannedSizes(fs, left) == ScannedSizes(fs, {});
    forall k | k in entries
      ensures exists m :: StandsBehind(fs, {}, m, k, entries[k])
    {
      var m :| StandsBehind(fs, left, m, k, entries[k]);
      assert StandsBehind(fs, {}, m, k, entries[k]);
    }
  }

  /** The outer loop of the scan, over the sub-directories with two-character names. */
  method ScanShards(fs: FS) returns (entries: map<string, Entry>, total: int)
    requires WellFormed(fs)
    ensures IsScanOf(entries, total, fs, {})
  {
    entries, total := map[], 0;
    var shards := set l | l in fs && !l.Temp? :: ShardOf(l);
    ghost var left := set l | l in fs && !l.Temp?;
    NothingScanned(fs, left);
    while shards != {}
      invariant forall l :: l in left <==> l in fs && !l.Temp? && (ShardOf(l) in shards || |ShardOf(l)| != 2)
      invariant IsScanOf(entries, total, fs, left)
      decreases |shards|
    {
      var shard :| shard in shards;
      if |shard| == 2 {
        entries, total, left := ScanListing(fs, Listing(fs, shard), entries, total, left);
      }
      shards := shards - {shard};
    }
    NothingLeft(fs, entries, total, left);
  }

  /**
   * Start-up, over any directory: index exactly the names of files that look like bodies, sum the lengths
   * of those files, and delete the leftover temporary files and nothing else.
   */
  method Scan(fs: FS) returns (entries: map<string, Entry>, total: int, after: FS)
    requires WellFormed(fs)
    ensures IsScanOf(entries, total, fs, {})
    ensures forall l :: l in after <==> l in fs && !l.Temp?
    ensures forall l :: l in after ==> after[l] == fs[l]
  {
    after := RemoveTemps(fs);
    entries, total := ScanShards(fs);
  }
}
