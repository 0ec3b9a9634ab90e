/** The in-memory index of the disk cache and its locked sections (internal/cache/disk.go). */
module DiskIndex {
  import opened Prelude
  import opened MapSum

  datatype Metadata = Metadata(outputIDHex: string, size: int, time: int, casHash: string, casSize: int)

  /** bodyPath is empty when the body is known to be gone or has not been looked up yet. */
  datatype Entry = Entry(size: int, accessTime: int, hasBody: bool, meta: Option<Metadata>, bodyPath: string)

  datatype Index = Index(entries: map<string, Entry>, pinned: set<string>, total: int)

  /** Everything the code does while holding the mutex, one constructor per locked region. */
  datatype Section =
    | Commit(id: string, meta: Metadata, path: string, now: int)
    | MarkMissing(id: string)
    | Touch(id: string, now: int)
    | Promote(id: string, meta: Metadata, path: string, now: int)
    | Forget(id: string)
    | Evict(id: string)
    | Pin(id: string)
    | UnpinAll

  function Apply(ix: Index, s: Section): Index {
    match s
    case Commit(id, meta, path, now) =>
      var freed := if id in ix.entries && ix.entries[id].hasBody then ix.entries[id].size else 0;
      Index(ix.entries[id := Entry(meta.size, now, true, Some(meta), path)], ix.pinned + {id},
            ix.total - freed + meta.size)
    case MarkMissing(id) =>
      if id in ix.entries
      then ix.(entries := ix.entries[id := ix.entries[id].(hasBody := false, bodyPath := "")])
      else ix
    case Touch(id, now) =>
      Index(if id in ix.entries then ix.entries[id := ix.entries[id].(accessTime := now)] else ix.entries,
            ix.pinned + {id}, ix.total)
    case Promote(id, meta, path, now) =>
      Index(if id in ix.entries
            then ix.entries[id := ix.entries[id].(accessTime := now, meta := Some(meta), bodyPath := path)]
            else ix.entries,
            ix.pinned + {id}, ix.total)
    case Forget(id) =>
      var freed := if id in ix.entries && ix.entries[id].hasBody then ix.entries[id].size else 0;
      Index(ix.entries - {id}, ix.pinned - {id}, ix.total - freed)
    case Evict(id) =>
      if id in ix.entries && ix.entries[id].hasBody
      then Index(ix.entries[id := ix.entries[id].(hasBody := false, bodyPath := "")], ix.pinned,
                 ix.total - ix.entries[id].size)
      else ix
    case Pin(id) => ix.(pinned := ix.pinned + {id})
    case UnpinAll => ix.(pinned := {})
  }

  function ApplyAll(ix: Index, ss: seq<Section>): Index
    decreases |ss|
  {
    if ss == [] then ix else ApplyAll(Apply(ix, ss[0]), ss[1..])
  }

  /** Sizes of the entries that claim a body file. */
  ghost function Sizes(entries: map<string, Entry>): map<string, int> {
    map id | id in entries && entries[id].hasBody :: entries[id].size
  }

  ghost function Live(ix: Index): int {
    Sum(Sizes(ix.entries))
  }

  /** The bytes a section takes out of the live sum without taking them out of the total. */
  ghost function Cleared(ix: Index, s: Section): int {
    if s.MarkMissing? && s.id in ix.entries && ix.entries[s.id].hasBody then ix.entries[s.id].size else 0
  }

  ghost function Drift(ix: Index, ss: seq<Section>): int
    decreases |ss|
  {
    if ss == [] then 0 else Cleared(ix, ss[0]) + Drift(Apply(ix, ss[0]), ss[1..])
  }

  ghost predicate SizesNonNegative(ix: Index) {
    forall id :: id in ix.entries ==> 0 <= ix.entries[id].size
  }

  ghost predicate CommitsNonNegative(ss: seq<Section>) {
    forall i :: 0 <= i < |ss| && ss[i].Commit? ==> 0 <= ss[i].meta.size
  }

  /** The sum without one entry, whatever that entry is. */
  lemma SizesWithout(entries: map<string, Entry>, id: string)
    ensures id in entries && entries[id].hasBody ==>
              Sum(Sizes(entries)) == Sum(Sizes(entries) - {id}) + entries[id].size
    ensures !(id in entries && entries[id].hasBody) ==> Sizes(entries) - {id} == Sizes(entries)
  {
    if id in entries && entries[id].hasBody {
      SumRemove(Sizes(entries), id);
    }
  }

  lemma SizesUpdate(entries: map<string, Entry>, id: string, e: Entry)
    ensures Sizes(entries[id := e]) == if e.hasBody then Sizes(entries)[id := e.size] else Sizes(entries) - {id}
  {
  }

  lemma SizesAfterUpdate(entries: map<string, Entry>, id: string, e: Entry)
    ensures Sum(Sizes(entries[id := e])) == Sum(Sizes(entries) - {id}) + (if e.hasBody then e.size else 0)
  {
    SizesUpdate(entries, id, e);
    SumPut(Sizes(entries), id, e.size);
  }

  /** The live sum after replacing one entry. */
  lemma LiveAfterUpdate(ix: Index, next: Index, id: string, e: Entry)
    requires next.entries == ix.entries[id := e]
    ensures Live(next) == Live(ix) + (if e.hasBody then e.size else 0)
                          - (if id in ix.entries && ix.entries[id].hasBody then ix.entries[id].size else 0)
  {
    SizesAfterUpdate(ix.entries, id, e);
    SizesWithout(ix.entries, id);
  }

  lemma LiveAfterRemoval(ix: Index, next: Index, id: string)
    requires next.entries == ix.entries - {id}
    ensures Live(next) == Live(ix) - (if id in ix.entries && ix.entries[id].hasBody then ix.entries[id].size else 0)
  {
    assert Sizes(next.entries) == Sizes(ix.entries) - {id};
    SizesWithout(ix.entries, id);
  }

  /** One locked section moves the gap between the total and the live sum by exactly what it clears. */
  lemma SectionAccounting(ix: Index, s: Section)
    ensures Apply(ix, s).total - Live(Apply(ix, s)) == ix.total - Live(ix) + Cleared(ix, s)
  {
    var next := Apply(ix, s);
    if s.UnpinAll? || s.Pin? {
      assert next.entries == ix.entries;
    } else if s.Forget? {
      LiveAfterRemoval(ix, next, s.id);
    } else if s.id in next.entries {
      LiveAfterUpdate(ix, next, s.id, next.entries[s.id]);
    } else {
      assert next.entries == ix.entries;
    }
  }

  /**
   * Size accounting under every interleaving: whatever order locked sections run in, the total is the
   * live sum plus the initial gap plus the drift, and the drift is made of cleared sizes alone.
   */
  lemma {:induction false} Accounting(ix: Index, ss: seq<Section>)
    ensures ApplyAll(ix, ss).total == Live(ApplyAll(ix, ss)) + (ix.total - Live(ix)) + Drift(ix, ss)
    decreases |ss|
  {
    if ss == [] {
    } else {
      SectionAccounting(ix, ss[0]);
      Accounting(Apply(ix, ss[0]), ss[1..]);
    }
  }

  lemma {:induction false} DriftProperties(ix: Index, ss: seq<Section>)
    requires SizesNonNegative(ix) && CommitsNonNegative(ss)
    ensures SizesNonNegative(ApplyAll(ix, ss))
    ensures 0 <= Drift(ix, ss)
    ensures (forall i :: 0 <= i < |ss| ==> !ss[i].MarkMissing?) ==> Drift(ix, ss) == 0
    ensures Drift(ix, ss) == 0 <==> forall i :: 0 <= i < |ss| ==> Cleared(ApplyAll(ix, ss[..i]), ss[i]) == 0
    decreases |ss|
  {
    if ss == [] {
    } else {
      var next, rest := Apply(ix, ss[0]), ss[1..];
      DriftProperties(next, rest);
      assert ss[..0] == [];
      forall i | 0 <= i < |rest|
        ensures ApplyAll(ix, ss[..i + 1]) == ApplyAll(next, rest[..i])
      {
        assert ss[..i + 1][1..] == rest[..i];
      }
      assert forall i :: 0 <= i < |rest| ==> rest[i] == ss[i + 1];
      if forall i :: 0 <= i < |rest| ==> Cleared(ApplyAll(next, rest[..i]), rest[i]) == 0 {
        forall i | 1 <= i < |ss|
          ensures Cleared(ApplyAll(ix, ss[..i]), ss[i]) == 0
        {
          assert ss[..i] == ss[..(i - 1) + 1] && ss[i] == rest[i - 1];
        }
      }
    }
  }

  lemma {:induction false} ApplyAllAppend(ix: Index, ss: seq<Section>, s: Section)
    ensures ApplyAll(ix, ss + [s]) == Apply(ApplyAll(ix, ss), s)
    ensures Drift(ix, ss + [s]) == Drift(ix, ss) + Cleared(ApplyAll(ix, ss), s)
    decreases |ss|
  {
    if ss != [] {
      ApplyAllAppend(Apply(ix, ss[0]), ss[1..], s);
      assert (ss + [s])[1..] == ss[1..] + [s];
    } else {
      assert [s][1..] == [];
      assert ss + [s] == [s];
    }
  }

  /** The drift never decreases along a run, so a total that starts exact never under-reports. */
  lemma NeverUnderReports(ix: Index, ss: seq<Section>, s: Section)
    requires SizesNonNegative(ix) && CommitsNonNegative(ss + [s]) && Live(ix) <= ix.total
    ensures Drift(ix, ss) <= Drift(ix, ss + [s])
    ensures Live(ApplyAll(ix, ss)) <= ApplyAll(ix, ss).total
  {
    assert forall i :: 0 <= i < |ss| ==> ss[i] == (ss + [s])[i];
    DriftProperties(ix, ss);
    Accounting(ix, ss);
    ApplyAllAppend(ix, ss, s);
  }
}
