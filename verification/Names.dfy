/** File names of the cache directory (internal/cache/metadata.go). */
module Names {
  import opened Prelude
  import opened Hex

  const BODY_SUFFIX := "-d"
  const META_SUFFIX := "-m"
  const META_TEMP_SUFFIX := "-m.tmp"

  /** Both path builders slice the first two characters of the identifier. */
  function BodyPath(dir: string, id: string): string
    requires 2 <= |id|
  {
    dir + "/" + id[..2] + "/" + id + BODY_SUFFIX
  }

  function MetadataPath(dir: string, id: string): string
    requires 2 <= |id|
  {
    dir + "/" + id[..2] + "/" + id + META_SUFFIX
  }

  function MetadataTempPath(dir: string, id: string): string
    requires 2 <= |id|
  {
    MetadataPath(dir, id) + ".tmp"
  }

  /** Names made by TempFile: "tmp-" and a random part, directly under the cache directory. */
  function TempPath(dir: string, random: string): string {
    dir + "/tmp-" + random
  }

  /** The layout of the cache directory, on one identifier. */
  lemma PathExamples()
    ensures BodyPath("d", "ab12") == "d/ab/ab12-d"
    ensures MetadataPath("d", "ab12") == "d/ab/ab12-m" && MetadataTempPath("d", "ab12") == "d/ab/ab12-m.tmp"
    ensures TempPath("d", "7") == "d/tmp-7"
  {
    assert "ab12"[..2] == "ab";
  }

  /** The identifier sits at a fixed offset of its path. */
  lemma IdInPath(dir: string, id: string)
    requires 2 <= |id|
    ensures |BodyPath(dir, id)| == |MetadataPath(dir, id)| == |dir| + |id| + 6
    ensures BodyPath(dir, id)[|dir| + 4..][..|id|] == id
    ensures MetadataPath(dir, id)[|dir| + 4..][..|id|] == id
    ensures BodyPath(dir, id)[|dir| + 3] == '/'
    ensures MetadataPath(dir, id)[|dir| + 3] == '/'
    ensures MetadataTempPath(dir, id)[|dir| + 3] == '/'
    ensures TempPath(dir, "")[|dir| + 3] == 'p'
  {
    var head := dir + "/" + id[..2] + "/";
    assert |head| == |dir| + 4 && head[|dir| + 3] == '/';
    assert BodyPath(dir, id) == head + (id + BODY_SUFFIX);
    assert MetadataPath(dir, id) == head + (id + META_SUFFIX);
    assert BodyPath(dir, id)[|dir| + 4..] == id + BODY_SUFFIX;
    assert MetadataPath(dir, id)[|dir| + 4..] == id + META_SUFFIX;
    assert MetadataTempPath(dir, id)[|dir| + 3] == MetadataPath(dir, id)[|dir| + 3];
    assert (id + BODY_SUFFIX)[..|id|] == id;
    assert (id + META_SUFFIX)[..|id|] == id;
  }

  /** No two files of the cache directory share a path. */
  lemma PathsDistinct(dir: string, a: string, b: string, random: string)
    requires 2 <= |a| && 2 <= |b|
    ensures BodyPath(dir, a) == BodyPath(dir, b) <==> a == b
    ensures MetadataPath(dir, a) == MetadataPath(dir, b) <==> a == b
    ensures BodyPath(dir, a) != MetadataPath(dir, b)
    ensures BodyPath(dir, a) != MetadataTempPath(dir, b)
    ensures MetadataPath(dir, a) != MetadataTempPath(dir, b)
    ensures TempPath(dir, random) != BodyPath(dir, a)
    ensures TempPath(dir, random) != MetadataPath(dir, a)
    ensures TempPath(dir, random) != MetadataTempPath(dir, a)
  {
    IdInPath(dir, a);
    IdInPath(dir, b);
    var bodyA, metaA := BodyPath(dir, a), MetadataPath(dir, a);
    var metaB, tempB := MetadataPath(dir, b), MetadataTempPath(dir, b);
    assert bodyA[|bodyA| - 1] == 'd' && metaA[|metaA| - 1] == metaB[|metaB| - 1] == 'm' && tempB[|tempB| - 1] == 'p';
    assert TempPath(dir, random) == TempPath(dir, "") + random;
    assert TempPath(dir, random)[|dir| + 3] == 'p';
  }

  /** The files the cache keeps, plus whatever else shares its directory. */
  datatype Kind = Body | Meta | MetaTemp

  datatype Loc =
    | Temp(random: string)
    | CacheFile(id: string, kind: Kind)
    | Foreign(shard: string, name: string)

  /** The names that stand for cache files, and so for nothing else. */
  ghost predicate IsCacheName(shard: string, name: string) {
    exists id :: IsId(id) && shard == id[..2]
              && (name == id + BODY_SUFFIX || name == id + META_SUFFIX || name == id + META_TEMP_SUFFIX)
  }

  /** A foreign file may be anywhere and have any name but those of the cache; its shard is empty in the root. */
  ghost predicate LegalLoc(l: Loc) {
    match l
    case Temp(_) => true
    case CacheFile(id, _) => IsId(id)
    case Foreign(shard, name) => !IsCacheName(shard, name) && !(shard == "" && "tmp-" <= name)
  }

  /** The sub-directory a file lives in. */
  function ShardOf(l: Loc): string
    requires LegalLoc(l) && !l.Temp?
  {
    if l.Foreign? then l.shard else l.id[..2]
  }

  /** The name a directory listing shows. */
  function NameOf(l: Loc): string {
    match l
    case Temp(random) => "tmp-" + random
    case CacheFile(id, Body) => id + BODY_SUFFIX
    case CacheFile(id, Meta) => id + META_SUFFIX
    case CacheFile(id, MetaTemp) => id + META_TEMP_SUFFIX
    case Foreign(_, name) => name
  }

  function PathOf(dir: string, l: Loc): string
    requires LegalLoc(l) && !l.Foreign?
  {
    match l
    case Temp(random) => TempPath(dir, random)
    case CacheFile(id, Body) => BodyPath(dir, id)
    case CacheFile(id, Meta) => MetadataPath(dir, id)
    case CacheFile(id, MetaTemp) => MetadataTempPath(dir, id)
  }

  /** Cache files may be identified by what they are instead of by path: the path determines the rest. */
  lemma PathDeterminesFile(dir: string, a: Loc, b: Loc)
    requires LegalLoc(a) && LegalLoc(b) && !a.Foreign? && !b.Foreign?
    ensures PathOf(dir, a) == PathOf(dir, b) <==> a == b
  {
    if PathOf(dir, a) == PathOf(dir, b) {
      if a.CacheFile? && b.CacheFile? {
        PathsDistinct(dir, a.id, b.id, "");
        PathsDistinct(dir, b.id, a.id, "");
        var m, n := MetadataTempPath(dir, a.id), MetadataTempPath(dir, b.id);
        assert m[..|m| - 4] == MetadataPath(dir, a.id) && n[..|n| - 4] == MetadataPath(dir, b.id);
      } else if a.CacheFile? {
        PathsDistinct(dir, a.id, a.id, b.random);
      } else if b.CacheFile? {
        PathsDistinct(dir, b.id, b.id, a.random);
      } else {
        assert TempPath(dir, a.random)[|dir| + 5..] == a.random;
        assert TempPath(dir, b.random)[|dir| + 5..] == b.random;
      }
    }
  }

  /** What scan reads off a directory entry: the identifier of a body file, or nothing. */
  function ScanName(name: string): Option<string> {
    if |name| < 3 then None
    else if name[|name| - 2..] != BODY_SUFFIX then None
    else Some(name[..|name| - 2])
  }

  /** A file is taken for the body of an identifier exactly when it is named after it, an empty one excepted. */
  lemma ScanNameMeans(name: string, id: string)
    ensures ScanName(name) == Some(id) <==> id != "" && name == id + "-d"
  {
    if ScanName(name) == Some(id) {
      assert name == name[..|name| - 2] + name[|name| - 2..];
    }
    if name == id + "-d" {
      assert name[..|id|] == id && name[|id|..] == "-d";
    }
  }

  /** Scanning recovers the identifier of every body file and skips every other cache file. */
  lemma ScanNameInverts(l: Loc)
    requires LegalLoc(l) && l.CacheFile?
    ensures ScanName(NameOf(l)) == if l.kind.Body? then Some(l.id) else None
  {
    var name := NameOf(l);
    match l.kind
    case Body =>
      assert name[|name| - 2..] == BODY_SUFFIX && name[..|name| - 2] == l.id;
    case Meta =>
      assert name[|name| - 2..] == META_SUFFIX;
      assert META_SUFFIX[1] != BODY_SUFFIX[1];
    case MetaTemp =>
      assert name[|name| - 2..] == META_TEMP_SUFFIX[4..];
      assert META_TEMP_SUFFIX[4..][0] != BODY_SUFFIX[0];
  }

  /** Reading through a fixed buffer with a full-read fallback decodes the whole file, whatever its length. */
  method ReadMetadata<M>(content: Bytes, bufferSize: nat, decode: Bytes -> Option<M>) returns (m: Option<M>)
    requires 0 < bufferSize
    requires decode([]) == None
    ensures m == decode(content)
  {
    var n := if |content| < bufferSize then |content| else bufferSize;
    var atEof := |content| == 0;
    if n == 0 && atEof {
      return None;
    }
    if n == bufferSize && !atEof {
      return decode(content);
    }
    assert content[..n] == content;
    return decode(content[..n]);
  }
}
