/** ByteStream resource names: how the client builds them and the server reads them
    (internal/reapi/cas.go, testutil/fakereapi/server.go). */
module Resource {
  import opened Prelude

  predicate SlashFree(s: string) {
    forall i :: 0 <= i < |s| ==> s[i] != '/'
  }

  function Flush(current: string): seq<string> {
    if current == "" then [] else [current]
  }

  function SplitFrom(current: string, s: string): seq<string>
    decreases |s|
  {
    if s == "" then Flush(current)
    else if s[0] == '/' then Flush(current) + SplitFrom("", s[1..])
    else SplitFrom(current + [s[0]], s[1..])
  }

  /**
   * The non-empty segments between slashes: SplitConcat and SplitSegment below say so, and leave no
   * other possibility.
   */
  function Split(s: string): seq<string> {
    SplitFrom("", s)
  }

  lemma {:induction false} SplitFromSegment(current: string, s: string)
    requires SlashFree(s)
    ensures SplitFrom(current, s) == Flush(current + s)
    decreases |s|
  {
    if s == "" {
      assert current + s == current;
    } else {
      SplitFromSegment(current + [s[0]], s[1..]);
      assert current + [s[0]] + s[1..] == current + s;
    }
  }

  lemma {:induction false} SplitFromConcat(current: string, a: string, b: string)
    ensures SplitFrom(current, a + "/" + b) == SplitFrom(current, a) + Split(b)
    decreases |a|
  {
    var s := a + "/" + b;
    if a == "" {
      assert s[0] == '/' && s[1..] == b;
    } else {
      assert s[0] == a[0] && s[1..] == a[1..] + "/" + b;
      if a[0] == '/' {
        SplitFromConcat("", a[1..], b);
      } else {
        SplitFromConcat(current + [a[0]], a[1..], b);
      }
    }
  }

  lemma SplitSegment(s: string)
    requires SlashFree(s)
    ensures Split(s) == if s == "" then [] else [s]
  {
    SplitFromSegment("", s);
    assert "" + s == s;
  }

  /** Splitting distributes over slash-separated concatenation, empty parts included. */
  lemma SplitConcat(a: string, b: string)
    ensures Split(a + "/" + b) == Split(a) + Split(b)
  {
    SplitFromConcat("", a, b);
  }

  /** The accumulating loop computes exactly those segments. */
  method SplitResource(name: string) returns (parts: seq<string>)
    ensures parts == Split(name)
  {
    parts := [];
    var current := "";
    var i := 0;
    assert name[0..] == name;
    while i < |name|
      invariant 0 <= i <= |name|
      invariant Split(name) == parts + SplitFrom(current, name[i..])
    {
      assert name[i..][1..] == name[i + 1..];
      if name[i] == '/' {
        if current != "" {
          parts := parts + [current];
        }
        current := "";
      } else {
        current := current + [name[i]];
      }
      i := i + 1;
    }
    if current != "" {
      parts := parts + [current];
    }
  }

  /** The segment after the first "blobs" that still has two segments behind it. */
  function FindHash(parts: seq<string>): Option<string> {
    if |parts| < 3 then None
    else if parts[0] == "blobs" then Some(parts[1])
    else FindHash(parts[1..])
  }

  /** A usable "blobs" segment, with a hash and a size behind it. */
  predicate Usable(parts: seq<string>, i: nat) {
    i + 2 < |parts| && parts[i] == "blobs"
  }

  /** A name is refused exactly when it has no usable "blobs" segment; otherwise the first one decides. */
  lemma {:induction false} FindHashMeans(parts: seq<string>, i: nat)
    ensures FindHash(parts).None? <==> forall k: nat :: k < |parts| ==> !Usable(parts, k)
    ensures Usable(parts, i) && (forall k: nat :: k < i ==> !Usable(parts, k)) ==> FindHash(parts) == Some(parts[i + 1])
    decreases |parts|
  {
    if |parts| < 3 {
    } else {
      var rest := parts[1..];
      FindHashMeans(rest, if i > 0 then i - 1 else 0);
      forall k: nat | k < |rest|
        ensures Usable(rest, k) <==> Usable(parts, k + 1)
      {
      }
      if forall k: nat :: k < |rest| ==> !Usable(rest, k) {
        forall k: nat | k < |parts| && k > 0
          ensures !Usable(parts, k)
        {
          assert !Usable(rest, k - 1);
        }
      } else {
        var k: nat :| k < |rest| && Usable(rest, k);
        assert Usable(parts, k + 1);
      }
      assert Usable(parts, 0) <==> parts[0] == "blobs";
    }
  }

  method ParseBlobResource(name: string) returns (hash: Option<string>)
    ensures hash == FindHash(Split(name))
  {
    var parts := SplitResource(name);
    var i := 0;
    assert parts[0..] == parts;
    while i < |parts|
      invariant 0 <= i <= |parts|
      invariant FindHash(parts) == FindHash(parts[i..])
    {
      if parts[i] == "blobs" && i + 2 < |parts| {
        return Some(parts[i + 1]);
      }
      assert parts[i..][1..] == parts[i + 1..];
      i := i + 1;
    }
    return None;
  }

  function Decimal(n: nat): (s: string)
    ensures s != "" && SlashFree(s)
  {
    var digit := ['0' + (n % 10) as char];
    if n < 10 then digit else Decimal(n / 10) + digit
  }

  function SizeText(size: int): (s: string)
    ensures s != "" && SlashFree(s)
  {
    if size < 0 then "-" + Decimal(-size) else Decimal(size)
  }

  function UploadName(instanceName: string, uuid: string, d: Digest): string {
    instanceName + "/uploads/" + uuid + "/blobs/" + d.hash + "/" + SizeText(d.size)
  }

  function DownloadName(instanceName: string, d: Digest): string {
    instanceName + "/blobs/" + d.hash + "/" + SizeText(d.size)
  }

  lemma SplitCons(segment: string, rest: string)
    requires SlashFree(segment) && segment != ""
    ensures Split(segment + "/" + rest) == [segment] + Split(rest)
  {
    SplitConcat(segment, rest);
    SplitSegment(segment);
  }

  lemma SplitTail(hash: string, size: string)
    requires hash != "" && SlashFree(hash) && size != "" && SlashFree(size)
    ensures Split("blobs" + "/" + (hash + "/" + size)) == ["blobs", hash, size]
  {
    SplitCons("blobs", hash + "/" + size);
    SplitCons(hash, size);
    SplitSegment(size);
  }

  lemma SplitDownloadName(instanceName: string, d: Digest)
    requires d.hash != "" && SlashFree(d.hash)
    ensures Split(DownloadName(instanceName, d)) == Split(instanceName) + ["blobs", d.hash, SizeText(d.size)]
  {
    var tail := "blobs" + "/" + (d.hash + "/" + SizeText(d.size));
    assert DownloadName(instanceName, d) == instanceName + "/" + tail;
    SplitConcat(instanceName, tail);
    SplitTail(d.hash, SizeText(d.size));
  }

  lemma SplitUploads(uuid: string, tail: string)
    requires uuid != "" && SlashFree(uuid)
    ensures Split("uploads" + "/" + (uuid + "/" + tail)) == ["uploads", uuid] + Split(tail)
  {
    SplitCons("uploads", uuid + "/" + tail);
    SplitCons(uuid, tail);
  }

  lemma SplitUploadName(instanceName: string, uuid: string, d: Digest)
    requires d.hash != "" && SlashFree(d.hash) && uuid != "" && SlashFree(uuid)
    ensures Split(UploadName(instanceName, uuid, d))
            == Split(instanceName) + ["uploads", uuid, "blobs", d.hash, SizeText(d.size)]
  {
    var tail := "blobs" + "/" + (d.hash + "/" + SizeText(d.size));
    var rest := "uploads" + "/" + (uuid + "/" + tail);
    assert UploadName(instanceName, uuid, d) == instanceName + "/" + rest;
    SplitConcat(instanceName, rest);
    SplitUploads(uuid, tail);
    SplitTail(d.hash, SizeText(d.size));
  }

  /** The segment that follows the first "blobs" of the instance name, given what comes after the instance name. */
  function Misread(segments: seq<string>, next: string): string
    requires "blobs" in segments
  {
    if segments[0] == "blobs" then (if |segments| > 1 then segments[1] else next)
    else Misread(segments[1..], next)
  }

  lemma {:induction false} FindHashAfter(segments: seq<string>, tail: seq<string>)
    requires |tail| >= 3
    ensures FindHash(segments + tail)
            == if "blobs" in segments then Some(Misread(segments, tail[0])) else FindHash(tail)
  {
    if segments == [] {
      assert segments + tail == tail;
    } else {
      assert (segments + tail)[1..] == segments[1..] + tail;
      if segments[0] == "blobs" {
        assert segments[1..] == [] ==> (segments + tail)[1] == tail[0];
      } else {
        FindHashAfter(segments[1..], tail);
      }
    }
  }

  /**
   * Resource names parse back: the server recovers the hash of a download name unless the instance name
   * has a "blobs" segment, and then exactly when the segment behind it happens to be the hash.
   */
  lemma DownloadNameParses(instanceName: string, d: Digest)
    requires d.hash != "" && SlashFree(d.hash)
    ensures FindHash(Split(DownloadName(instanceName, d))) == Some(d.hash) <==>
            ("blobs" in Split(instanceName) ==> Misread(Split(instanceName), "blobs") == d.hash)
  {
    SplitDownloadName(instanceName, d);
    FindHashAfter(Split(instanceName), ["blobs", d.hash, SizeText(d.size)]);
  }

  lemma UploadNameParses(instanceName: string, uuid: string, d: Digest)
    requires d.hash != "" && SlashFree(d.hash) && uuid != "" && SlashFree(uuid) && uuid != "blobs"
    ensures FindHash(Split(UploadName(instanceName, uuid, d))) == Some(d.hash) <==>
            ("blobs" in Split(instanceName) ==> Misread(Split(instanceName), "uploads") == d.hash)
  {
    var tail := ["uploads", uuid, "blobs", d.hash, SizeText(d.size)];
    SplitUploadName(instanceName, uuid, d);
    FindHashAfter(Split(instanceName), tail);
    assert tail[1..][1..] == ["blobs", d.hash, SizeText(d.size)];
    assert FindHash(tail) == FindHash(tail[1..]) == FindHash(tail[1..][1..]);
  }
}
