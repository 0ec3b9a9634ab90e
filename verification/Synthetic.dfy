/** Action-cache keys derived from action identifiers (internal/reapi/synthetic.go). */
module Synthetic {
  import opened Prelude
  import opened Hex

  /** Deterministic protobuf encoding of the messages used, taken as given; it may refuse a message. */
  datatype Encoding = Encoding(
    command: seq<string> -> Option<Bytes>,
    action: (Digest, Digest) -> Option<Bytes>,
    emptyDirectory: Bytes)

  datatype SyntheticDigests = SyntheticDigests(
    commandData: Bytes, commandDigest: Digest,
    dirData: Bytes, dirDigest: Digest,
    actionData: Bytes, actionDigest: Digest)

  function DigestBytes(sha: HashFunction, data: Bytes): Digest {
    Digest(sha(data), |data|)
  }

  function Arguments(id: string): seq<string> {
    ["gocache-rbe", id]
  }

  /** The uncached chain: identifier to command, command and empty directory to action, action to key. */
  function Chain(sha: HashFunction, enc: Encoding, id: string): Option<SyntheticDigests> {
    var dirDigest := DigestBytes(sha, enc.emptyDirectory);
    match enc.command(Arguments(id))
    case None => None
    case Some(commandData) =>
      var commandDigest := DigestBytes(sha, commandData);
      match enc.action(commandDigest, dirDigest)
      case None => None
      case Some(actionData) =>
        Some(SyntheticDigests(commandData, commandDigest, enc.emptyDirectory, dirDigest,
                              actionData, DigestBytes(sha, actionData)))
  }

  /**
   * The key of an identifier is the digest of the action that refers to its command, by the command's digest,
   * and to the empty directory, by its digest; there is a key exactly when both messages can be encoded.
   */
  lemma ChainLinks(sha: HashFunction, enc: Encoding, id: string, command: Bytes, action: Bytes)
    requires enc.command(["gocache-rbe", id]) == Some(command)
    requires enc.action(Digest(sha(command), |command|), Digest(sha(enc.emptyDirectory), |enc.emptyDirectory|))
             == Some(action)
    ensures Chain(sha, enc, id)
            == Some(SyntheticDigests(command, Digest(sha(command), |command|),
                                     enc.emptyDirectory, Digest(sha(enc.emptyDirectory), |enc.emptyDirectory|),
                                     action, Digest(sha(action), |action|)))
  {
  }

  lemma ChainBreaks(sha: HashFunction, enc: Encoding, id: string)
    ensures Chain(sha, enc, id).None? <==>
            var command := enc.command(["gocache-rbe", id]);
            command.None?
            || enc.action(Digest(sha(command.value), |command.value|),
                          Digest(sha(enc.emptyDirectory), |enc.emptyDirectory|)).None?
  {
  }

  /** Every digest in the result is the digest of the data beside it. */
  ghost predicate Coherent(sha: HashFunction, sd: SyntheticDigests) {
    && sd.commandDigest == DigestBytes(sha, sd.commandData)
    && sd.dirDigest == DigestBytes(sha, sd.dirData)
    && sd.actionDigest == DigestBytes(sha, sd.actionData)
  }

  /** The memo table shared by all callers. */
  class Memo {
    const sha: HashFunction
    const enc: Encoding
    var table: map<string, SyntheticDigests>

    ghost predicate Valid()
      reads this
    {
      TableCorrect(sha, enc, table)
    }

    constructor (sha: HashFunction, enc: Encoding)
      ensures Valid() && this.sha == sha && this.enc == enc
    {
      this.sha, this.enc, table := sha, enc, map[];
    }

    /** Cached or not, the answer is that of the uncached chain. */
    method ComputeSyntheticDigests(id: string) returns (sd: Option<SyntheticDigests>)
      requires Valid()
      modifies this`table
      ensures Valid() && sd == Chain(sha, enc, id)
      ensures table == if sd.Some? then old(table)[id := sd.value] else old(table)
    {
      if id in table {
        assert table == table[id := table[id]];
        return Some(table[id]);
      }
      var command := enc.command(Arguments(id));
      if command == None {
        return None;
      }
      var commandDigest := DigestBytes(sha, command.value);
      var dirDigest := DigestBytes(sha, enc.emptyDirectory);
      var action := enc.action(commandDigest, dirDigest);
      if action == None {
        return None;
      }
      var computed := SyntheticDigests(command.value, commandDigest, enc.emptyDirectory, dirDigest,
                                       action.value, DigestBytes(sha, action.value));
      table := table[id := computed];
      return Some(computed);
    }
  }

  ghost predicate TableCorrect(sha: HashFunction, enc: Encoding, table: map<string, SyntheticDigests>) {
    forall id :: id in table ==> Chain(sha, enc, id) == Some(table[id])
  }

  /** Concurrent callers: each loads the table, and on a miss computes on its own and stores later. */
  datatype Caller = Ready(id: string) | Computing(id: string) | Returned(id: string, sd: Option<SyntheticDigests>)

  datatype Callers = Callers(table: map<string, SyntheticDigests>, callers: seq<Caller>)

  function Load(s: Callers, i: nat): Callers
    requires i < |s.callers| && s.callers[i].Ready?
  {
    var id := s.callers[i].id;
    s.(callers := s.callers[i := if id in s.table then Returned(id, Some(s.table[id])) else Computing(id)])
  }

  function Store(sha: HashFunction, enc: Encoding, s: Callers, i: nat): Callers
    requires i < |s.callers| && s.callers[i].Computing?
  {
    var id := s.callers[i].id;
    var sd := Chain(sha, enc, id);
    Callers(if sd.Some? then s.table[id := sd.value] else s.table, s.callers[i := Returned(id, sd)])
  }

  /** A run of callers: at each step some caller loads or stores. */
  function RunCallers(sha: HashFunction, enc: Encoding, s: Callers, schedule: seq<nat>): Callers
    decreases |schedule|
  {
    if schedule == [] then s
    else
      var i := schedule[0];
      var next :=
        if i >= |s.callers| then s
        else if s.callers[i].Ready? then Load(s, i)
        else if s.callers[i].Computing? then Store(sha, enc, s, i)
        else s;
      RunCallers(sha, enc, next, schedule[1..])
  }

  ghost predicate CallersCorrect(sha: HashFunction, enc: Encoding, s: Callers) {
    && TableCorrect(sha, enc, s.table)
    && forall i :: 0 <= i < |s.callers| && s.callers[i].Returned? ==>
         s.callers[i].sd == Chain(sha, enc, s.callers[i].id)
  }

  /** In every interleaving of callers over one table, whatever is returned is what the chain computes. */
  lemma {:induction false} MemoisedIsChain(sha: HashFunction, enc: Encoding, s: Callers, schedule: seq<nat>)
    requires CallersCorrect(sha, enc, s)
    ensures CallersCorrect(sha, enc, RunCallers(sha, enc, s, schedule))
    decreases |schedule|
  {
    if schedule == [] {
    } else {
      var i := schedule[0];
      var next :=
        if i >= |s.callers| then s
        else if s.callers[i].Ready? then Load(s, i)
        else if s.callers[i].Computing? then Store(sha, enc, s, i)
        else s;
      MemoisedIsChain(sha, enc, next, schedule[1..]);
    }
  }

  /** The encoder keeps apart the messages of these two identifiers. */
  ghost predicate EncodesApart(enc: Encoding, a: string, b: string) {
    && (enc.command(Arguments(a)).Some? && enc.command(Arguments(a)) == enc.command(Arguments(b)) ==>
          Arguments(a) == Arguments(b))
    && (forall c, d, e, f :: enc.action(c, d).Some? && enc.action(c, d) == enc.action(e, f) ==> c == e && d == f)
  }

  /** Distinct action identifiers get distinct action-cache keys. */
  lemma KeysDistinct(sha: HashFunction, enc: Encoding, a: Bytes, b: Bytes)
    requires a != b && EncodesApart(enc, Encode(a), Encode(b))
    requires Chain(sha, enc, Encode(a)).Some? && Chain(sha, enc, Encode(b)).Some?
    requires var x, y := Chain(sha, enc, Encode(a)).value, Chain(sha, enc, Encode(b)).value;
      NoCollision(sha, {x.commandData, y.commandData, x.actionData, y.actionData})
    ensures Chain(sha, enc, Encode(a)).value.actionDigest.hash != Chain(sha, enc, Encode(b)).value.actionDigest.hash
  {
    EncodeInjective(a, b);
    var x, y := Chain(sha, enc, Encode(a)).value, Chain(sha, enc, Encode(b)).value;
    assert Arguments(Encode(a))[1] != Arguments(Encode(b))[1];
    assert x.commandData != y.commandData;
    assert x.commandDigest.hash != y.commandDigest.hash;
    assert x.actionData != y.actionData;
  }
}
