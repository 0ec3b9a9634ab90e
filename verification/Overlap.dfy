/**
 * Operations that overlap: file effects and locked sections in any interleaving, when they keep index and
 * directory in agreement, and what holds when no two operations on one entry overlap (internal/cache/disk.go).
 */
module Overlap {
  import opened Prelude
  import opened Hex
  import opened Names
  import opened DiskIndex
  import opened FileSystem
  import opened LocalCache
  import opened Runs

  /** What the operations of the cache are made of; nothing falls inside one of these. */
  datatype Effect =
    | PutBody(id: string, body: Bytes)
    | DropBody(id: string)
    | PutMeta(id: string, meta: Metadata)
    | DropMeta(id: string)
    | Locked(section: Section)

  function Perform(c: Cache, e: Effect): Cache {
    match e
    case PutBody(id, body) => c.(disk := c.disk.(bodies := c.disk.bodies[id := body]))
    case DropBody(id) => LocalCache.LoseBody(c, id)
    case PutMeta(id, meta) => c.(disk := c.disk.(metas := c.disk.metas[id := meta]))
    case DropMeta(id) => c.(disk := c.disk.(metas := c.disk.metas - {id}))
    case Locked(s) => c.(ix := Apply(c.ix, s))
  }

  function PerformAll(c: Cache, es: seq<Effect>): Cache
    decreases |es|
  {
    if es == [] then c else Perform(PerformAll(c, es[..|es| - 1]), es[|es| - 1])
  }

  /** The entry whose cached facts or files the effect changes; pins and access times do not matter here. */
  function Target(e: Effect): Option<string> {
    match e
    case PutBody(id, _) => Some(id)
    case DropBody(id) => Some(id)
    case PutMeta(id, _) => Some(id)
    case DropMeta(id) => Some(id)
    case Locked(Commit(id, _, _, _)) => Some(id)
    case Locked(MarkMissing(id)) => Some(id)
    case Locked(Promote(id, _, _, _)) => Some(id)
    case Locked(Forget(id)) => Some(id)
    case Locked(Evict(id)) => Some(id)
    case Locked(_) => None
  }

  /** As coded, effects are on hex identifiers, and Install and Lookup pass on the body path they built. */
  predicate Coded(c: Cache, e: Effect) {
    && (Target(e).Some? ==> IsId(Target(e).value))
    && (e.Locked? && e.section.Commit? ==> e.section.path == BodyPath(c.dir, e.section.id))
    && (e.Locked? && e.section.Promote? ==> e.section.path == BodyPath(c.dir, e.section.id))
  }

  ghost predicate AllCoded(c: Cache, es: seq<Effect>) {
    forall k :: 0 <= k < |es| ==> Coded(c, es[k])
  }

  /** Cached paths are body paths or empty, and everything is filed under hex identifiers. */
  ghost predicate Shaped(c: Cache) {
    && (forall id :: id in c.ix.entries ==>
          IsId(id) && (c.ix.entries[id].bodyPath == "" || c.ix.entries[id].bodyPath == BodyPath(c.dir, id)))
    && (forall id :: id in c.disk.bodies || id in c.disk.metas ==> IsId(id))
  }

  /** The index has metadata cached for the entry, so a lookup does not read the metadata file. */
  predicate Cached(c: Cache, id: string) {
    id in c.ix.entries && c.ix.entries[id].meta.Some?
  }

  predicate Stored(c: Cache, id: string, meta: Metadata) {
    id in c.disk.metas && c.disk.metas[id] == meta
  }

  predicate CachedIsStored(c: Cache, id: string) {
    Cached(c, id) ==> Stored(c, id, c.ix.entries[id].meta.value)
  }

  /** Two claims about one entry: the index agrees with the directory, and a lookup answers what the directory would. */
  datatype Claim = Agreement | Answers

  ghost predicate HoldsAt(claim: Claim, c: Cache, id: string) {
    match claim
    case Agreement =>
      && CachedIsStored(c, id)
      && (Cached(c, id) && c.ix.entries[id].bodyPath == "" ==> id !in c.disk.bodies && !c.ix.entries[id].hasBody)
      && (id in c.disk.bodies ==> Claims(c.ix, id))
    case Answers =>
      IsId(id) ==> IndexedLookup(c, id) == DiskLookup(c.dir, c.disk, id)
  }

  ghost predicate HoldsEverywhere(claim: Claim, c: Cache) {
    forall id :: HoldsAt(claim, c, id)
  }

  /** Agreement entry by entry is the agreement that operations keep, and it makes lookups answer for the directory. */
  lemma AgreementByEntry(c: Cache)
    requires Shaped(c)
    ensures HoldsEverywhere(Agreement, c) <==> Agrees(c)
    ensures HoldsEverywhere(Agreement, c) ==> HoldsEverywhere(Answers, c)
  {
    if Agrees(c) {
      forall id
        ensures HoldsAt(Agreement, c, id)
      {
        assert id in c.ix.entries ==> EntryAgrees(c.dir, c.disk, id, c.ix.entries[id]);
      }
    }
    if HoldsEverywhere(Agreement, c) {
      forall id
        ensures id in c.ix.entries ==> EntryAgrees(c.dir, c.disk, id, c.ix.entries[id])
        ensures id in c.disk.bodies ==> Claims(c.ix, id)
        ensures HoldsAt(Answers, c, id)
      {
        assert HoldsAt(Agreement, c, id);
      }
    }
  }

  /** When an effect leaves the claim true of the entry it is about, told from the state in which it fires. */
  ghost predicate Meets(claim: Claim, c: Cache, e: Effect) {
    match claim
    case Agreement => MeetsAgreement(c, e)
    case Answers => MeetsAnswers(c, e)
  }

  ghost predicate MeetsAgreement(c: Cache, e: Effect) {
    match e
    case PutBody(id, _) =>
      Claims(c.ix, id) && CachedIsStored(c, id) && (Cached(c, id) ==> c.ix.entries[id].bodyPath != "")
    case DropBody(id) =>
      CachedIsStored(c, id) && (Cached(c, id) && c.ix.entries[id].bodyPath == "" ==> !Claims(c.ix, id))
    case PutMeta(id, meta) =>
      && (Cached(c, id) ==> c.ix.entries[id].meta.value == meta)
      && (Cached(c, id) && c.ix.entries[id].bodyPath == "" ==> id !in c.disk.bodies && !Claims(c.ix, id))
      && (id in c.disk.bodies ==> Claims(c.ix, id))
    case DropMeta(id) => !Cached(c, id) && (id in c.disk.bodies ==> Claims(c.ix, id))
    case Locked(Commit(id, meta, _, _)) => Stored(c, id, meta)
    case Locked(MarkMissing(id)) => id !in c.disk.bodies && CachedIsStored(c, id)
    case Locked(Promote(id, meta, _, _)) =>
      if id in c.ix.entries then Stored(c, id, meta) && (id in c.disk.bodies ==> Claims(c.ix, id))
      else id !in c.disk.bodies
    case Locked(Forget(id)) => id !in c.disk.bodies
    case Locked(Evict(id)) =>
      if Claims(c.ix, id) then id !in c.disk.bodies && CachedIsStored(c, id) else HoldsAt(Agreement, c, id)
    case Locked(_) => true
  }

  ghost predicate MeetsAnswers(c: Cache, e: Effect) {
    match e
    case PutBody(id, _) => CachedIsStored(c, id) && (Cached(c, id) ==> c.ix.entries[id].bodyPath != "")
    case DropBody(id) => CachedIsStored(c, id)
    case PutMeta(id, meta) =>
      Cached(c, id) ==> c.ix.entries[id].meta.value == meta && (id in c.disk.bodies ==> c.ix.entries[id].bodyPath != "")
    case DropMeta(id) => !Cached(c, id)
    case Locked(Commit(id, meta, _, _)) => Stored(c, id, meta)
    case Locked(MarkMissing(id)) => CachedIsStored(c, id) && (Cached(c, id) ==> id !in c.disk.bodies)
    case Locked(Promote(id, meta, _, _)) => id in c.ix.entries ==> Stored(c, id, meta)
    case Locked(Forget(id)) => true
    case Locked(Evict(id)) =>
      if Claims(c.ix, id) then CachedIsStored(c, id) && (Cached(c, id) ==> id !in c.disk.bodies)
      else HoldsAt(Answers, c, id)
    case Locked(_) => true
  }

  lemma PerformKeepsShape(c: Cache, e: Effect)
    requires Shaped(c) && Coded(c, e)
    ensures Shaped(Perform(c, e)) && Perform(c, e).dir == c.dir
  {
  }

  lemma {:induction false} PerformAllKeepsShape(c: Cache, es: seq<Effect>)
    requires Shaped(c) && AllCoded(c, es)
    ensures Shaped(PerformAll(c, es)) && PerformAll(c, es).dir == c.dir
    decreases |es|
  {
    if es == [] {
    } else {
      var front := es[..|es| - 1];
      PerformAllKeepsShape(c, front);
      assert Coded(c, es[|es| - 1]);
      PerformKeepsShape(PerformAll(c, front), es[|es| - 1]);
    }
  }

  lemma OtherEntriesKeep(claim: Claim, c: Cache, e: Effect, id: string)
    requires Target(e) != Some(id)
    ensures HoldsAt(claim, Perform(c, e), id) <==> HoldsAt(claim, c, id)
  {
  }

  lemma FileEffectExact(claim: Claim, c: Cache, e: Effect, id: string)
    requires Shaped(c) && Coded(c, e) && Target(e) == Some(id) && !e.Locked?
    ensures HoldsAt(claim, Perform(c, e), id) <==> Meets(claim, c, e)
  {
  }

  lemma SectionExact(claim: Claim, c: Cache, e: Effect, id: string)
    requires Shaped(c) && Coded(c, e) && Target(e) == Some(id) && e.Locked?
    ensures HoldsAt(claim, Perform(c, e), id) <==> Meets(claim, c, e)
  {
    match e.section
    case Commit(_, _, _, _) =>
    case MarkMissing(_) =>
    case Promote(_, _, _, _) =>
    case Forget(_) =>
    case Evict(_) =>
  }

  /** Exactly when one effect leaves a claim true: on its own entry by its condition, on others if it was true. */
  lemma EffectExact(claim: Claim, c: Cache, e: Effect, id: string)
    requires Shaped(c) && Coded(c, e)
    ensures HoldsAt(claim, Perform(c, e), id) <==>
            if Target(e) == Some(id) then Meets(claim, c, e) else HoldsAt(claim, c, id)
  {
    if Target(e) != Some(id) {
      OtherEntriesKeep(claim, c, e, id);
    } else if e.Locked? {
      SectionExact(claim, c, e, id);
    } else {
      FileEffectExact(claim, c, e, id);
    }
  }

  lemma UntargetedMeets(claim: Claim, c: Cache, e: Effect)
    ensures Target(e).None? ==> Meets(claim, c, e)
  {
  }

  /** From a state in which a claim holds everywhere, one effect keeps it everywhere exactly under its condition. */
  lemma KeptByOne(claim: Claim, c: Cache, e: Effect)
    requires Shaped(c) && Coded(c, e) && HoldsEverywhere(claim, c)
    ensures HoldsEverywhere(claim, Perform(c, e)) <==> Meets(claim, c, e)
  {
    forall id
      ensures HoldsAt(claim, Perform(c, e), id) <==> (Target(e) == Some(id) ==> Meets(claim, c, e))
    {
      EffectExact(claim, c, e, id);
    }
    UntargetedMeets(claim, c, e);
    if Target(e).Some? {
      assert HoldsAt(claim, Perform(c, e), Target(e).value) <==> Meets(claim, c, e);
    }
  }

  /** The claim holds from the start to the end of a run, before and after every effect. */
  ghost predicate HoldsThroughout(claim: Claim, c: Cache, es: seq<Effect>) {
    forall k :: 0 <= k <= |es| ==> HoldsEverywhere(claim, PerformAll(c, es[..k]))
  }

  ghost predicate EachMeets(claim: Claim, c: Cache, es: seq<Effect>) {
    forall k :: 0 <= k < |es| ==> Meets(claim, PerformAll(c, es[..k]), es[k])
  }

  lemma ThroughoutSplits(claim: Claim, c: Cache, front: seq<Effect>, last: Effect)
    ensures HoldsThroughout(claim, c, front + [last]) <==>
            HoldsThroughout(claim, c, front) && HoldsEverywhere(claim, PerformAll(c, front + [last]))
  {
    var es := front + [last];
    assert es[..|es|] == es;
    forall k | 0 <= k <= |front|
      ensures es[..k] == front[..k]
    {
    }
    if HoldsThroughout(claim, c, es) {
      forall k | 0 <= k <= |front|
        ensures HoldsEverywhere(claim, PerformAll(c, front[..k]))
      {
        assert HoldsEverywhere(claim, PerformAll(c, es[..k]));
      }
    }
  }

  lemma EachSplits(claim: Claim, c: Cache, front: seq<Effect>, last: Effect)
    ensures EachMeets(claim, c, front + [last]) <==>
            EachMeets(claim, c, front) && Meets(claim, PerformAll(c, front), last)
  {
    var es := front + [last];
    assert es[..|front|] == front && es[|front|] == last;
    forall k | 0 <= k < |front|
      ensures es[..k] == front[..k] && es[k] == front[k]
    {
    }
    if EachMeets(claim, c, es) {
      forall k | 0 <= k < |front|
        ensures Meets(claim, PerformAll(c, front[..k]), front[k])
      {
        assert Meets(claim, PerformAll(c, es[..k]), es[k]);
      }
    }
  }

  /**
   * Over any interleaving of file effects and locked sections, index and directory agree at every moment,
   * and likewise lookups answer for the directory at every moment, exactly when each effect meets its
   * condition at the moment it fires.
   */
  lemma {:induction false} KeptExactly(claim: Claim, c: Cache, es: seq<Effect>)
    requires Shaped(c) && AllCoded(c, es) && HoldsEverywhere(claim, c)
    ensures HoldsThroughout(claim, c, es) <==> EachMeets(claim, c, es)
    decreases |es|
  {
    if es == [] {
      assert es[..0] == [];
    } else {
      var front, last := es[..|es| - 1], es[|es| - 1];
      KeptExactly(claim, c, front);
      PerformAllKeepsShape(c, front);
      assert es == front + [last] && Coded(c, last);
      ThroughoutSplits(claim, c, front, last);
      EachSplits(claim, c, front, last);
      if HoldsThroughout(claim, c, front) {
        assert front[..|front|] == front;
        KeptByOne(claim, PerformAll(c, front), last);
      }
    }
  }

  /** The last effect about an entry met its condition; with no such effect, the claim held at the start. */
  ghost predicate LastMeets(claim: Claim, c: Cache, es: seq<Effect>, id: string)
    decreases |es|
  {
    if es == [] then HoldsAt(claim, c, id)
    else if Target(es[|es| - 1]) == Some(id) then Meets(claim, PerformAll(c, es[..|es| - 1]), es[|es| - 1])
    else LastMeets(claim, c, es[..|es| - 1], id)
  }

  /**
   * Whatever happened in between, at the end of an interleaving a claim holds of an entry exactly when the
   * last effect about that entry met its condition.
   */
  lemma {:induction false} RegainedExactly(claim: Claim, c: Cache, es: seq<Effect>, id: string)
    requires Shaped(c) && AllCoded(c, es)
    ensures HoldsAt(claim, PerformAll(c, es), id) <==> LastMeets(claim, c, es, id)
    decreases |es|
  {
    if es == [] {
    } else {
      var front, last := es[..|es| - 1], es[|es| - 1];
      PerformAllKeepsShape(c, front);
      RegainedExactly(claim, c, front, id);
      assert Coded(c, last);
      EffectExact(claim, PerformAll(c, front), last, id);
    }
  }

  lemma LateMeets(c: Cache, id: string, meta: Metadata, path: string, now: int)
    requires HoldsEverywhere(Agreement, c)
    ensures MeetsAgreement(c, Locked(MarkMissing(id))) <==> id !in c.disk.bodies
    ensures MeetsAgreement(c, Locked(Promote(id, meta, path, now))) <==> (id in c.ix.entries ==> Stored(c, id, meta))
    ensures MeetsAgreement(c, Locked(DiskIndex.Evict(id))) <==> id !in c.disk.bodies
  {
    assert HoldsAt(Agreement, c, id);
  }

  lemma LateSection(c: Cache, e: Effect)
    requires Shaped(c) && Coded(c, e) && HoldsEverywhere(Agreement, c)
    ensures Agrees(Perform(c, e)) <==> MeetsAgreement(c, e)
  {
    PerformKeepsShape(c, e);
    AgreementByEntry(Perform(c, e));
    KeptByOne(Agreement, c, e);
  }

  /** Where index and directory agree, each late section is harmless exactly under its own short condition. */
  lemma LateSections(c: Cache, id: string, meta: Metadata, now: int)
    requires IsId(id) && Shaped(c) && Agrees(c)
    ensures Agrees(Perform(c, Locked(MarkMissing(id)))) <==> id !in c.disk.bodies
    ensures Agrees(Perform(c, Locked(Promote(id, meta, BodyPath(c.dir, id), now)))) <==>
            (id in c.ix.entries ==> Stored(c, id, meta))
    ensures Agrees(Perform(c, Locked(Commit(id, meta, BodyPath(c.dir, id), now)))) <==> Stored(c, id, meta)
    ensures Agrees(Perform(c, Locked(Forget(id)))) <==> id !in c.disk.bodies
    ensures Agrees(Perform(c, Locked(DiskIndex.Evict(id)))) <==> id !in c.disk.bodies
  {
    AgreementByEntry(c);
    LateMeets(c, id, meta, BodyPath(c.dir, id), now);
    LateSection(c, Locked(MarkMissing(id)));
    LateSection(c, Locked(Promote(id, meta, BodyPath(c.dir, id), now)));
    LateSection(c, Locked(Commit(id, meta, BodyPath(c.dir, id), now)));
    LateSection(c, Locked(Forget(id)));
    LateSection(c, Locked(DiskIndex.Evict(id)));
  }

  /** Install, run alone, is these effects in this order; so is one whose metadata cannot be written. */
  lemma InstallIsEffects(c: Cache, id: string, body: Bytes, meta: Metadata, now: int)
    requires IsId(id)
    ensures Perform(Perform(Perform(c, PutBody(id, body)), PutMeta(id, meta)),
                    Locked(Commit(id, meta, BodyPath(c.dir, id), now)))
            == AfterInstall(c, id, body, meta, InstallEnv(true, true, true, true, now)).0
    ensures Perform(Perform(c, PutBody(id, body)), DropBody(id))
            == AfterInstall(c, id, body, meta, InstallEnv(true, true, false, true, now)).0
  {
    assert c.disk.bodies[id := body] - {id} == c.disk.bodies - {id};
  }

  /** Remove and one turn of the eviction loop, run alone, are these effects in this order. */
  lemma RemovalIsEffects(c: Cache, id: string)
    ensures Perform(Perform(Perform(c, DropBody(id)), DropMeta(id)), Locked(Forget(id)))
            == AfterRemove(c, id, RemoveEnv(true, true))
    ensures Perform(Perform(c, DropBody(id)), Locked(DiskIndex.Evict(id))) == EvictOne(c, id, true)
  {
  }
}
