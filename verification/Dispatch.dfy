/** How requests reach their handlers, and what that means for the request loop (internal/handler/handler.go). */
module Dispatch {
  import opened Prelude
  import opened Hex
  import opened Names
  import opened LocalCache
  import opened Handlers
  import opened Runs
  import opened Recency
  import opened Answers
  import Pool

  /** Everything that one request may meet besides the cache. */
  datatype Env = Env(remote: Option<Remote>, get: GetEnv, maxArtifactSize: int, put: PutEnv)

  /** A get and a put go to their handlers, and any other command but a close is answered with an error. */
  function Handle(c: Cache, sha: HashFunction, req: Request, env: Env): (Cache, Handled) {
    if req.command == "get" then GetOutcome(c, sha, req, env.remote, env.get)
    else if req.command == "put" then PutOutcome(c, sha, req, env.maxArtifactSize, env.put)
    else (c, Responded(ErrResponse(req.id, "unknown command: " + req.command)))
  }

  /** A request as the request loop sees it: its kind and the name of its action. */
  function AsPool(req: Request): Pool.Request {
    var kind := if req.command == "get" then Pool.GetKind
                else if req.command == "put" then Pool.PutKind
                else Pool.OtherKind;
    Pool.Request(req.id, kind, Encode(req.actionID))
  }

  /** Every call succeeds and nothing is limited. */
  function Smooth(): Env {
    var install := InstallEnv(true, true, true, true, 0);
    var fetch := FetchEnv(true, install);
    Env(None, GetEnv(0, RemoveEnv(true, true), fetch, 0, fetch), 0, PutEnv(true, 0, install))
  }

  /** No artifact can be written, so no put gets as far as its path. */
  function NoRoom(): Env {
    Smooth().(put := PutEnv(false, 0, InstallEnv(true, true, true, true, 0)))
  }

  lemma PanicsMeans(c: Cache, sha: HashFunction, req: Request, env: Env)
    ensures Handle(c, sha, req, env).1.Panicked? <==>
            && req.actionID == []
            && (req.command == "get"
                || (req.command == "put" && env.put.tempOk
                    && (env.maxArtifactSize <= 0 || req.bodySize <= env.maxArtifactSize)))
  {
    if req.command == "put" {
      PutSucceedsIff(sha, c, req, env.maxArtifactSize, env.put);
      if !PutSucceeds(req, env.maxArtifactSize, env.put) {
        PutRefusals(sha, c, req, env.maxArtifactSize, env.put);
      }
    }
  }

  /** The loop's requests that must crash are those whose handler panics whatever it meets. */
  lemma MustCrashIff(sha: HashFunction, c: Cache, req: Request)
    ensures Pool.MustCrash(AsPool(req)) <==> forall env :: Handle(c, sha, req, env).1.Panicked?
  {
    EncodeIsHex(req.actionID);
    forall env
      ensures Pool.MustCrash(AsPool(req)) ==> Handle(c, sha, req, env).1.Panicked?
    {
      PanicsMeans(c, sha, req, env);
    }
    PanicsMeans(c, sha, req, NoRoom());
  }

  /** Those that may crash are those whose handler panics on something it may meet. */
  lemma MayCrashIff(sha: HashFunction, c: Cache, req: Request)
    ensures Pool.MayCrash(AsPool(req)) <==> exists env :: Handle(c, sha, req, env).1.Panicked?
  {
    EncodeIsHex(req.actionID);
    forall env | Handle(c, sha, req, env).1.Panicked?
      ensures Pool.MayCrash(AsPool(req))
    {
      PanicsMeans(c, sha, req, env);
    }
    PanicsMeans(c, sha, req, Smooth());
  }

  /** Those that can publish are the puts that may succeed. */
  lemma PublishableIff(sha: HashFunction, c: Cache, req: Request)
    ensures Pool.Publishable(AsPool(req)) <==>
            && req.command == "put"
            && exists env :: Handle(c, sha, req, env).1 != Panicked && Handle(c, sha, req, env).1.resp.err == ""
  {
    EncodeIsHex(req.actionID);
    if req.command == "put" {
      forall env | Handle(c, sha, req, env).1 != Panicked && Handle(c, sha, req, env).1.resp.err == ""
        ensures req.actionID != []
      {
        PutSucceedsIff(sha, c, req, env.maxArtifactSize, env.put);
      }
      PutSucceedsIff(sha, c, req, Smooth().maxArtifactSize, Smooth().put);
      if req.actionID != [] {
        assert Handle(c, sha, req, Smooth()).1 != Panicked && Handle(c, sha, req, Smooth()).1.resp.err == "";
      }
    }
  }

  /** Every response carries the identifier of its request. */
  lemma AnswersByIdentifier(sha: HashFunction, c: Cache, req: Request, env: Env)
    ensures var handled := Handle(c, sha, req, env).1;
      handled.Responded? ==> handled.resp.id == req.id
  {
    if req.command == "get" && req.actionID != [] {
      GetHitsIff(sha, c, req, env.remote, env.get);
    } else if req.command == "put" {
      PutSucceedsIff(sha, c, req, env.maxArtifactSize, env.put);
      if !PutSucceeds(req, env.maxArtifactSize, env.put) {
        PutRefusals(sha, c, req, env.maxArtifactSize, env.put);
      }
    }
  }
}
