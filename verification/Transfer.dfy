/** Chunked transfer between client and server (internal/reapi/cas.go, testutil/fakereapi/server.go). */
module Transfer {
  import opened Prelude
  import opened Resource

  const CHUNK_SIZE := 1024 * 1024

  function Concat(chunks: seq<Bytes>): Bytes {
    if chunks == [] then [] else Concat(chunks[..|chunks| - 1]) + chunks[|chunks| - 1]
  }

  /** What one call of a byte stream yields; the last call ends the source or breaks it. */
  datatype Status = More | Ended | Broken

  datatype Read = Read(data: Bytes, status: Status)

  predicate Terminates(source: seq<Read>) {
    && source != []
    && source[|source| - 1].status != More
    && forall i :: 0 <= i < |source| - 1 ==> source[i].status == More
  }

  function ContentOf(source: seq<Read>): Bytes {
    if source == [] then [] else ContentOf(source[..|source| - 1]) + source[|source| - 1].data
  }

  /** A legal way for a source to deliver this content: any chunking, empty source and early end marks included. */
  ghost predicate Delivers(source: seq<Read>, content: Bytes) {
    Terminates(source) && source[|source| - 1].status == Ended && ContentOf(source) == content
  }

  datatype Message = Message(resourceName: string, data: Bytes, finishWrite: bool)

  function Payload(ms: seq<Message>): Bytes {
    if ms == [] then [] else Payload(ms[..|ms| - 1]) + ms[|ms| - 1].data
  }

  lemma ConcatAppend(chunks: seq<Bytes>, last: Bytes)
    ensures Concat(chunks + [last]) == Concat(chunks) + last
  {
    assert (chunks + [last])[..|chunks|] == chunks;
  }

  /** An upload stream: the name on the first message alone, the finish mark on the last at most, no message empty. */
  ghost predicate IsUpload(ms: seq<Message>, name: string) {
    && (forall i :: 0 <= i < |ms| ==> ms[i].resourceName == (if i == 0 then name else ""))
    && (forall i :: 0 <= i < |ms| - 1 ==> !ms[i].finishWrite)
    && (forall i :: 0 <= i < |ms| ==> ms[i].data != [])
  }

  lemma SourceStep(source: seq<Read>, i: nat)
    requires i < |source|
    ensures ContentOf(source[..i + 1]) == ContentOf(source[..i]) + source[i].data
  {
    assert source[..i + 1][..i] == source[..i];
  }

  lemma UploadStep(ms: seq<Message>, name: string, m: Message)
    requires IsUpload(ms, name) && forall k :: 0 <= k < |ms| ==> !ms[k].finishWrite
    requires m.data != [] && m.resourceName == if ms == [] then name else ""
    ensures IsUpload(ms + [m], name) && Payload(ms + [m]) == Payload(ms) + m.data
  {
    assert (ms + [m])[..|ms|] == ms;
  }

  /** The client's read-and-send loop: everything read is sent, in order, in an upload-shaped stream. */
  method SendChunks(source: seq<Read>, name: string) returns (ms: seq<Message>, ok: bool)
    requires Terminates(source)
    ensures IsUpload(ms, name)
    ensures Payload(ms) == ContentOf(source)
    ensures ok == (source[|source| - 1].status == Ended)
    ensures ms != [] ==> ms[|ms| - 1].finishWrite == (ok && source[|source| - 1].data != [])
  {
    ms := [];
    var first := true;
    var i := 0;
    while true
      invariant 0 <= i < |source|
      invariant first == (ms == [])
      invariant IsUpload(ms, name) && forall k :: 0 <= k < |ms| ==> !ms[k].finishWrite
      invariant Payload(ms) == ContentOf(source[..i])
      decreases |source| - i
    {
      var read := source[i];
      SourceStep(source, i);
      if |read.data| > 0 {
        var m := Message("", read.data, read.status == Ended);
        if first {
          m := m.(resourceName := name);
          first := false;
        }
        UploadStep(ms, name, m);
        ms := ms + [m];
      }
      assert i == |source| - 1 ==> source[..i + 1] == source;
      if read.status == Ended {
        return ms, true;
      }
      if read.status == Broken {
        return ms, false;
      }
      i := i + 1;
    }
  }

  /** What the server takes in: data up to the first finish mark, and the first resource name given. */
  function TakeFrom(name: Option<string>, buf: Bytes, ms: seq<Message>): (Option<string>, Bytes)
    decreases |ms|
  {
    if ms == [] then (name, buf)
    else
      var named := if name.None? && ms[0].resourceName != "" then Some(ms[0].resourceName) else name;
      if ms[0].finishWrite then (named, buf + ms[0].data) else TakeFrom(named, buf + ms[0].data, ms[1..])
  }

  /** The blob a write stream stands for, if the server would accept it. */
  function Assembled(sha: HashFunction, ms: seq<Message>): Option<(string, Bytes)> {
    var (name, data) := TakeFrom(None, [], ms);
    match name
    case None => None
    case Some(name) =>
      match FindHash(Split(name))
      case None => None
      case Some(hash) => if sha(data) == hash then Some((hash, data)) else None
  }

  lemma {:induction false} FirstNameStays(name: string, buf: Bytes, ms: seq<Message>)
    ensures TakeFrom(Some(name), buf, ms).0 == Some(name)
    decreases |ms|
  {
    if ms == [] || ms[0].finishWrite {
    } else {
      FirstNameStays(name, buf + ms[0].data, ms[1..]);
    }
  }

  lemma {:induction false} PayloadCons(ms: seq<Message>)
    requires ms != []
    ensures Payload(ms) == ms[0].data + Payload(ms[1..])
    decreases |ms|
  {
    if |ms| > 1 {
      var front := ms[..|ms| - 1];
      PayloadCons(front);
      assert front[1..] == ms[1..][..|ms| - 2];
    } else {
      assert ms[..0] == [] && ms[1..] == [];
    }
  }

  lemma {:induction false} TakesWholeUpload(name: string, buf: Bytes, ms: seq<Message>)
    requires forall i :: 0 <= i < |ms| - 1 ==> !ms[i].finishWrite
    ensures TakeFrom(Some(name), buf, ms) == (Some(name), buf + Payload(ms))
    decreases |ms|
  {
    if ms != [] {
      PayloadCons(ms);
      if ms[0].finishWrite {
        assert ms[1..] == [] && ms[0].data + [] == ms[0].data;
      } else {
        TakesWholeUpload(name, buf + ms[0].data, ms[1..]);
        assert buf + ms[0].data + Payload(ms[1..]) == buf + Payload(ms);
      }
    } else {
      assert buf + Payload(ms) == buf;
    }
  }

  /** The first finish mark ends a stream: whatever is sent after it is not taken in. */
  lemma {:induction false} FinishEnds(name: Option<string>, buf: Bytes, ms: seq<Message>, rest: seq<Message>)
    requires ms != [] && ms[|ms| - 1].finishWrite
    ensures TakeFrom(name, buf, ms + rest) == TakeFrom(name, buf, ms)
    decreases |ms|
  {
    assert (ms + rest)[0] == ms[0];
    if ms[0].finishWrite {
    } else {
      var named := if name.None? && ms[0].resourceName != "" then Some(ms[0].resourceName) else name;
      FinishEnds(named, buf + ms[0].data, ms[1..], rest);
      assert (ms + rest)[1..] == ms[1..] + rest;
    }
  }

  /**
   * An upload-shaped stream is accepted exactly when it is not empty and its name gives the hash of its
   * payload, and then stands for that payload.
   */
  lemma UploadAssembles(sha: HashFunction, ms: seq<Message>, name: string)
    requires IsUpload(ms, name) && name != ""
    ensures Assembled(sha, ms) ==
            if ms != [] && FindHash(Split(name)) == Some(sha(Payload(ms)))
            then Some((sha(Payload(ms)), Payload(ms))) else None
  {
    if ms == [] {
    } else {
      TakesWholeUpload(name, [], ms);
      assert [] + Payload(ms) == Payload(ms);
      assert TakeFrom(None, [], ms) == TakeFrom(Some(name), [], ms);
    }
  }

  lemma {:induction false} PayloadEmptyIff(ms: seq<Message>)
    requires forall i :: 0 <= i < |ms| ==> ms[i].data != []
    ensures Payload(ms) == [] <==> ms == []
  {
  }

  /** The server's chunk loop: any content is cut into non-empty pieces within the limit that join back to it. */
  method ServeChunks(content: Bytes) returns (chunks: seq<Bytes>)
    ensures Concat(chunks) == content
    ensures forall i :: 0 <= i < |chunks| ==> 0 < |chunks[i]| <= CHUNK_SIZE
  {
    chunks := [];
    var data := content;
    while |data| > 0
      invariant Concat(chunks) + data == content
      invariant forall i :: 0 <= i < |chunks| ==> 0 < |chunks[i]| <= CHUNK_SIZE
      decreases |data|
    {
      var n := CHUNK_SIZE;
      if n > |data| {
        n := |data|;
      }
      ConcatAppend(chunks, data[..n]);
      assert data == data[..n] + data[n..];
      chunks := chunks + [data[..n]];
      data := data[n..];
    }
  }

  /** The client's receive-and-write loop. */
  method ReceiveChunks(chunks: seq<Bytes>) returns (written: Bytes)
    ensures written == Concat(chunks)
  {
    written := [];
    var i := 0;
    while i < |chunks|
      invariant 0 <= i <= |chunks| && written == Concat(chunks[..i])
    {
      assert chunks[..i + 1] == chunks[..i] + [chunks[i]];
      ConcatAppend(chunks[..i], chunks[i]);
      written := written + chunks[i];
      i := i + 1;
    }
    assert chunks[..i] == chunks;
  }
}
