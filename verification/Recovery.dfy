/** Crashes, failed clean-ups, stale checks and evictions: what survives them, and exactly when. */
module Recovery {
  import opened Prelude
  import opened MapSum
  import opened Hex
  import opened Names
  import opened DiskIndex
  import opened FileSystem
  import opened LocalCache
  import opened Handlers
  import opened Runs

  /** The file-system calls of one Install, in program order. */
  function InstallCalls(id: string, temp: string, body: Bytes, meta: Metadata, now: int): seq<Micro> {
    [CreateTemp(temp, body, now), RenameBody(temp, id), WriteMetaTemp(id, Json(meta), now), RenameMeta(id)]
  }

  function RemoveCalls(id: string): seq<Micro> {
    [Unlink(CacheFile(id, Body)), Unlink(CacheFile(id, Meta))]
  }

  lemma {:induction false} InstallStoppedShows(fs: FS, disk: Disk, id: string, temp: string, body: Bytes,
                                               meta: Metadata, now: int, k: nat)
    requires IsId(id) && WellFormed(fs) && Shows(fs, disk) && k <= 4
    ensures var left := DoAll(fs, InstallCalls(id, temp, body, meta, now)[..k]);
      && WellFormed(left) && Shows(left, InstallStopped(disk, id, body, meta, k))
      && (k == 1 ==> Temp(temp) in left && left[Temp(temp)].content == Blob(body))
      && (k == 3 ==> CacheFile(id, MetaTemp) in left && left[CacheFile(id, MetaTemp)].content == Json(meta))
      && (2 <= k ==> Temp(temp) !in left) && (k == 4 ==> CacheFile(id, MetaTemp) !in left)
  {
    var calls := InstallCalls(id, temp, body, meta, now);
    if k == 0 {
      assert calls[..0] == [];
    } else {
      InstallStoppedShows(fs, disk, id, temp, body, meta, now, k - 1);
      var before, visible := DoAll(fs, calls[..k - 1]), InstallStopped(disk, id, body, meta, k - 1);
      assert calls[..k] == calls[..k - 1] + [calls[k - 1]];
      DoAllAppend(fs, calls[..k - 1], calls[k - 1]);
      MicroKeepsShape(before, calls[k - 1]);
      BodiesEffect(before, visible, calls[k - 1]);
      MetasEffect(before, visible, calls[k - 1]);
    }
  }

  /** A new process over what a stopped Install left. */
  ghost function Recovered(dir: string, disk: Disk, id: string, body: Bytes, meta: Metadata, k: nat,
                           mtime: string -> int)
    : Cache
  {
    LocalCache.Restart(dir, InstallStopped(disk, id, body, meta, k), mtime)
  }

  /** Stopped anywhere before its last call, the first Install of an action leaves a miss. */
  lemma FirstInstallStoppedIsMiss(dir: string, disk: Disk, id: string, body: Bytes, meta: Metadata, k: nat,
                                  mtime: string -> int)
    requires IsId(id) && k < 4 && id !in disk.metas
    ensures IndexedLookup(Recovered(dir, disk, id, body, meta, k, mtime), id) == Found(None, "", false)
  {
  }

  /**
   * The torn window: a process stopped inside Install recovers to a sound directory unless it stopped
   * between the two renames while older metadata about other bytes was in place.
   */
  lemma StoppedInstallSound(sha: HashFunction, disk: Disk, id: string, body: Bytes, meta: Metadata, k: nat)
    requires Sound(sha, disk) && Describes(sha, meta, body) && Proportioned(meta)
    ensures Sound(sha, InstallStopped(disk, id, body, meta, k)) <==>
            k < 2 || 4 <= k || NothingToContradict(sha, disk, id, body)
  {
    var left := InstallStopped(disk, id, body, meta, k);
    if 2 <= k < 4 && !NothingToContradict(sha, disk, id, body) {
      assert id in left.metas && id in left.bodies;
    }
  }

  /** Removing a body or an entry, stopped anywhere, leaves a sound directory. */
  lemma StoppedRemovalSound(sha: HashFunction, fs: FS, disk: Disk, id: string, k: nat)
    requires WellFormed(fs) && Shows(fs, disk) && Sound(sha, disk) && k <= 2
    ensures var left := DoAll(fs, RemoveCalls(id)[..k]);
      var visible := Disk(if 1 <= k then disk.bodies - {id} else disk.bodies,
                          if 2 <= k then disk.metas - {id} else disk.metas);
      WellFormed(left) && Shows(left, visible) && Sound(sha, visible)
  {
    var calls := RemoveCalls(id);
    var f1 := Do(fs, calls[0]);
    MicroKeepsShape(fs, calls[0]);
    BodiesEffect(fs, disk, calls[0]);
    MetasEffect(fs, disk, calls[0]);
    MicroKeepsShape(f1, calls[1]);
    BodiesEffect(f1, Effect(fs, disk, calls[0]), calls[1]);
    MetasEffect(f1, Effect(fs, disk, calls[0]), calls[1]);
    assert calls[..0] == [] && calls[..1] == [] + [calls[0]] && calls[..2] == calls[..1] + [calls[1]];
    DoAllAppend(fs, [], calls[0]);
    DoAllAppend(fs, calls[..1], calls[1]);
  }

  /** A concrete torn overwrite: after recovery the lookup hits, and its metadata is about other bytes. */
  lemma TornOverwriteExample(sha: HashFunction, mtime: string -> int)
    requires sha([1]) != sha([2])
    ensures var meta1, meta2 := Metadata("", 1, 0, sha([1]), 1), Metadata("", 1, 0, sha([2]), 1);
      var disk := Disk(map["00" := [1]], map["00" := meta1]);
      var c := Recovered("d", disk, "00", [2], meta2, 2, mtime);
      && Sound(sha, disk)
      && IndexedLookup(c, "00") == Found(Some(meta1), BodyPath("d", "00"), true)
      && !Describes(sha, meta1, c.disk.bodies["00"])
  {
    assert IsId("00");
  }

  /**
   * When the metadata write fails and the clean-up of the renamed body fails too, the process goes on
   * over the directory that a stop in the torn window leaves. The directory stays sound under the same
   * condition, and the index agrees with it exactly when an entry already claimed a body.
   */
  lemma FailedCleanUp(sha: HashFunction, c: Cache, id: string, body: Bytes, meta: Metadata, env: InstallEnv)
    requires IsId(id) && LeavesOrphan(env) && Agrees(c) && Sound(sha, c.disk)
    requires Describes(sha, meta, body) && Proportioned(meta)
    ensures var after := AfterInstall(c, id, body, meta, env).0;
      && after.disk == InstallStopped(c.disk, id, body, meta, 2) && after.ix == c.ix
      && (Sound(sha, after.disk) <==> NothingToContradict(sha, c.disk, id, body))
      && (Agrees(after) <==> Claims(c.ix, id))
  {
    StoppedInstallSound(sha, c.disk, id, body, meta, 2);
    InstallAgrees(c, id, body, meta, env);
  }

  /** The lengths on disk with one body added or replaced. */
  lemma LengthsWith(bodies: map<string, Bytes>, id: string, body: Bytes)
    ensures Lengths(bodies[id := body]) == Lengths(bodies)[id := |body|]
  {
    assert Lengths(bodies[id := body]).Keys == Lengths(bodies)[id := |body|].Keys;
  }

  lemma BytesWith(lengths: map<string, int>, id: string, length: int)
    ensures Sum(lengths[id := length]) == Sum(lengths) + length - (if id in lengths then lengths[id] else 0)
  {
    SumPut(lengths, id, length);
    if id in lengths {
      SumRemove(lengths, id);
    } else {
      assert lengths - {id} == lengths;
    }
  }

  /**
   * A failed clean-up leaves the total alone while it adds the body to the directory, so the total goes on
   * covering the bytes on disk exactly when it had that much to spare.
   */
  lemma FailedCleanUpTotal(c: Cache, id: string, body: Bytes, meta: Metadata, env: InstallEnv)
    requires IsId(id) && LeavesOrphan(env)
    ensures var after := AfterInstall(c, id, body, meta, env).0;
      TotalCovers(after) <==>
        Sum(Lengths(c.disk.bodies)) + |body|
        - (if id in c.disk.bodies then |c.disk.bodies[id]| else 0) <= c.ix.total
  {
    LengthsWith(c.disk.bodies, id, body);
    BytesWith(Lengths(c.disk.bodies), id, |body|);
  }

  /** A get right after a successful put is the put given back: output, declared size, time, and the bytes on disk. */
  lemma PutThenGet(sha: HashFunction, c: Cache, put: Request, max: int, env: PutEnv, get: Request,
                   remote: Option<Remote>, getEnv: GetEnv)
    requires get.actionID == put.actionID
    requires PutOutcome(c, sha, put, max, env).1.Responded? && PutOutcome(c, sha, put, max, env).1.resp.err == ""
    ensures var stored := PutOutcome(c, sha, put, max, env).0;
      var id := Encode(put.actionID);
      && IsId(id)
      && GetOutcome(stored, sha, get, remote, getEnv).1
         == Responded(Response(get.id, "", false, put.outputID, put.bodySize, env.time, BodyPath(c.dir, id)))
      && PutOutcome(c, sha, put, max, env).1.resp.diskPath == BodyPath(c.dir, id)
      && GetOutcome(stored, sha, get, remote, getEnv).0.disk == stored.disk
      && stored.disk.bodies[id] == put.body
  {
    EncodeIsHex(put.actionID);
    DecodeEncode(put.outputID);
  }

  /**
   * When a body is lost and then looked up, the total keeps counting it although no entry claims it any
   * more: the gap grows by exactly the size of the entry.
   */
  lemma LostBodyStaysInTotal(c: Cache, id: string, now: int)
    requires Agrees(c) && id in c.disk.bodies && c.ix.entries[id].meta.Some?
    ensures IsId(id)
    ensures var after := AfterLookup(LocalCache.LoseBody(c, id), id, now);
      && after.ix.total == c.ix.total
      && after.ix.total - Live(after.ix) == c.ix.total - Live(c.ix) + c.ix.entries[id].size
  {
    SectionAccounting(c.ix, MarkMissing(id));
  }

  /**
   * A put leaves a sound directory exactly when it carries what the protocol reader delivers for its
   * declared size, and then a hit on it reports the length of the file exactly when that size is not negative.
   */
  lemma PutSoundIff(sha: HashFunction, c: Cache, req: Request, max: int, env: PutEnv)
    requires Sound(sha, c.disk)
    requires PutOutcome(c, sha, req, max, env).1.Responded? && PutOutcome(c, sha, req, max, env).1.resp.err == ""
    ensures var after := PutOutcome(c, sha, req, max, env).0;
      var id := Encode(req.actionID);
      && (Sound(sha, after.disk) <==> req.bodySize == |req.body| || (req.bodySize < 0 && req.body == []))
      && id in after.disk.metas && id in after.disk.bodies
      && (FromReader(req) ==> (after.disk.metas[id].size == |after.disk.bodies[id]| <==> 0 <= req.bodySize))
  {
    EncodeIsHex(req.actionID);
    var after := PutOutcome(c, sha, req, max, env).0;
    assert Encode(req.actionID) in after.disk.metas;
  }

  /**
   * A lookup whose file check is overtaken by an Install demotes the fresh entry: from then on the index
   * reports a miss for a body that is on disk. Overlap says exactly when a late section is harmless.
   */
  lemma StaleCheckDemotes(c: Cache, id: string, body: Bytes, meta: Metadata, env: InstallEnv)
    requires IsId(id) && Agrees(c) && AfterInstall(c, id, body, meta, env).1.Ok?
    ensures var installed := AfterInstall(c, id, body, meta, env).0;
      var demoted := installed.(ix := Apply(installed.ix, MarkMissing(id)));
      && Agrees(installed) && !Agrees(demoted)
      && DiskLookup(demoted.dir, demoted.disk, id).hit && !IndexedLookup(demoted, id).hit
      && demoted.ix.total - Live(demoted.ix) == installed.ix.total - Live(installed.ix) + meta.size
  {
    InstallAgrees(c, id, body, meta, env);
    var installed := AfterInstall(c, id, body, meta, env).0;
    SectionAccounting(installed.ix, MarkMissing(id));
    assert id in installed.disk.bodies;
  }

  predicate FetchSucceeds(env: FetchEnv) {
    env.tempOk && env.install.mkdirOk && env.install.renameOk && env.install.metaOk
  }

  /** A get of a stub whose blob is still held remotely answers from the metadata and installs the blob. */
  lemma RefillRestores(sha: HashFunction, c: Cache, req: Request, body: Bytes, remote: Remote, env: GetEnv)
    requires req.actionID != [] && FetchSucceeds(env.refill)
    requires var id := Encode(req.actionID);
      && id !in c.disk.bodies && id in c.disk.metas && !Claims(c.ix, id)
      && Describes(sha, c.disk.metas[id], body) && Decode(c.disk.metas[id].outputIDHex).Some?
      && remote.refill(Digest(c.disk.metas[id].casHash, c.disk.metas[id].casSize)) == Some(body)
    ensures IsId(Encode(req.actionID))
    ensures var id := Encode(req.actionID);
      var meta := c.disk.metas[id];
      var (after, handled) := GetOutcome(c, sha, req, Some(remote), env);
      && handled == Responded(HitResponse(req.id, Decode(meta.outputIDHex).value, meta, BodyPath(c.dir, id)))
      && after.disk == c.disk.(bodies := c.disk.bodies[id := body])
      && after.ix.total == c.ix.total + meta.size
      && Claims(after.ix, id) && after.ix.entries[id].size == meta.size
  {
    EncodeIsHex(req.actionID);
    var id := Encode(req.actionID);
    var looked := AfterLookup(c, id, env.lookupTime);
    assert looked.disk == c.disk && looked.ix.total == c.ix.total && !Claims(looked.ix, id);
    assert c.disk.metas[id := c.disk.metas[id]] == c.disk.metas;
  }

  /** The evicted entry, its body and its metadata before the eviction, and a remote that still holds the blob. */
  ghost predicate EvictedAndHeld(sha: HashFunction, c: Cache, evicted: seq<string>, removed: string -> bool, id: string,
                                 remote: Remote)
  {
    && id in evicted && removed(id) && id in c.disk.metas && id in c.disk.bodies
    && Decode(c.disk.metas[id].outputIDHex).Some?
    && var blob := remote.refill(Digest(c.disk.metas[id].casHash, c.disk.metas[id].casSize));
       && blob.Some? && sha(blob.value) == c.disk.metas[id].casHash
       && NoCollision(sha, {blob.value, c.disk.bodies[id]})
  }

  /**
   * Eviction is transparent: after any correct eviction, a get of an evicted entry whose blob is still
   * held remotely answers as the local hit did before, and puts the body, the entry and its size back.
   */
  lemma EvictionTransparent(sha: HashFunction, c: Cache, now: int, safety: int, target: int, evicted: seq<string>,
                            removed: string -> bool, req: Request, remote: Remote, before: GetEnv, after: GetEnv)
    requires req.actionID != [] && Good(sha, c) && IsEviction(c.ix, now, safety, target, evicted)
    requires EvictedAndHeld(sha, c, evicted, removed, Encode(req.actionID), remote) && FetchSucceeds(after.refill)
    ensures var id := Encode(req.actionID);
      var trimmed := EvictAll(c, evicted, removed);
      var (refilled, handled) := GetOutcome(trimmed, sha, req, Some(remote), after);
      && id !in trimmed.disk.bodies
      && handled.Responded? && IsHit(handled.resp) && handled == GetOutcome(c, sha, req, None, before).1
      && refilled.disk == trimmed.disk.(bodies := trimmed.disk.bodies[id := c.disk.bodies[id]])
      && refilled.ix.total == trimmed.ix.total + c.disk.metas[id].size
      && Claims(refilled.ix, id) && refilled.ix.entries[id].size == c.disk.metas[id].size
  {
    EvictAllOutcome(c, evicted, removed);
    var id := Encode(req.actionID);
    var meta := c.disk.metas[id];
    assert Describes(sha, meta, c.disk.bodies[id]);
    assert remote.refill(Digest(meta.casHash, meta.casSize)) == Some(c.disk.bodies[id]);
    RefillRestores(sha, EvictAll(c, evicted, removed), req, c.disk.bodies[id], remote, after);
  }

  /** A body that no one has pinned, and that was last used at least the safety window ago. */
  ghost predicate Evictable(ix: Index, id: string, now: int, safety: int) {
    && id in ix.entries && ix.entries[id].hasBody
    && !(id in ix.pinned)
    && ix.entries[id].accessTime + safety <= now
  }

  /**
   * Trim evicts bodies that are neither pinned nor recent, none of them used later than one that it leaves,
   * and each while the total is above the target.
   */
  lemma TrimChoice(c: Cache, now: int, safety: int, target: int, evicted: seq<string>, removed: string -> bool)
    requires IsEviction(c.ix, now, safety, target, evicted)
    ensures forall id :: id in evicted ==> Evictable(c.ix, id, now, safety)
    ensures forall id, kept :: id in evicted && Evictable(c.ix, kept, now, safety) && kept !in evicted ==>
              c.ix.entries[id].accessTime <= c.ix.entries[kept].accessTime
    ensures forall i :: 0 <= i < |evicted| ==> target < EvictAll(c, evicted[..i], removed).ix.total
  {
    forall id, kept | id in evicted && Evictable(c.ix, kept, now, safety) && kept !in evicted
      ensures c.ix.entries[id].accessTime <= c.ix.entries[kept].accessTime
    {
      var i :| 0 <= i < |evicted| && evicted[i] == id;
      assert Candidate(c.ix, kept, now, safety) && kept !in evicted[..i];
    }
    forall i | 0 <= i < |evicted|
      ensures target < EvictAll(c, evicted[..i], removed).ix.total
    {
      EvictAllOutcome(c, evicted[..i], removed);
    }
  }

  /**
   * Run alone with exact accounting, Trim stays exact and keeps all metadata, and it misses the target only
   * when no body is left that is neither pinned nor recent.
   */
  lemma TrimOutcome(c: Cache, now: int, safety: int, target: int, evicted: seq<string>, removed: string -> bool)
    requires IsEviction(c.ix, now, safety, target, evicted) && c.ix.total == Live(c.ix)
    ensures var after := EvictAll(c, evicted, removed);
      && after.ix.total == Live(after.ix)
      && after.disk == Disk(c.disk.bodies - (set id | id in evicted && removed(id)), c.disk.metas)
      && (after.ix.total <= target || forall id :: Evictable(c.ix, id, now, safety) ==> id in evicted)
  {
    EvictAllOutcome(c, evicted, removed);
    EvictionAccounting(c, evicted, removed);
    forall id | Evictable(c.ix, id, now, safety)
      ensures Candidate(c.ix, id, now, safety)
    {
    }
  }

  lemma {:induction false} EvictionAccounting(c: Cache, ids: seq<string>, removed: string -> bool)
    ensures var after := EvictAll(c, ids, removed);
      after.ix.total - Live(after.ix) == c.ix.total - Live(c.ix)
    decreases |ids|
  {
    if ids == [] {
    } else {
      SectionAccounting(c.ix, DiskIndex.Evict(ids[0]));
      EvictionAccounting(EvictOne(c, ids[0], removed(ids[0])), ids[1..], removed);
    }
  }
}
