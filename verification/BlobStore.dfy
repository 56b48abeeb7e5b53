// The content-addressed store as a file-system state machine
// (agent-platform/blob/local.go). Every method is one step: each stage ID has one
// writer.
module BlobStore {
  import opened Collections
  import opened Utf8
  import Copy = BlobCopy

  type Hash = seq<byte> -> string

  datatype Error =
    | Invalid | Unauthorized | TooLarge | DigestMismatch | SizeMismatch | Missing | Corrupt | Io

  datatype Result<T> = Ok(value: T) | Err(error: Error)

  datatype Path = StagePath(stageId: string) | ContentPath(digest: string)

  /** A file, reachable by any number of names. */
  datatype File = File(bytes: seq<byte>, readOnly: bool)

  /** paths are the names, inodes the files behind them; next is a fresh inode. */
  datatype Fs = Fs(paths: map<Path, nat>, inodes: map<nat, File>, next: nat) {
    function Bytes(p: Path): seq<byte> {
      if p in paths && paths[p] in inodes then inodes[paths[p]].bytes else []
    }
  }

  datatype Grant = Grant(wellFormed: bool, stageId: string, maxBytes: nat, expectedDigest: Option<string>,
                         expectedSize: Option<nat>, issuedAt: int, expiresAt: int)
  {
    predicate Valid() {
      && wellFormed && maxBytes >= 1 && issuedAt < expiresAt
      && (expectedSize.Some? ==> 1 <= expectedSize.value <= maxBytes)
    }

    /** The caller states exactly which bytes it stages. */
    predicate Exact() {
      expectedDigest.Some? && expectedSize.Some?
    }
  }

  datatype Staged = Staged(grant: Grant, digest: string, size: nat, stagedAt: int) {
    predicate Valid() {
      && grant.Valid() && 1 <= size <= grant.maxBytes && grant.issuedAt <= stagedAt <= grant.expiresAt
      && (grant.expectedDigest.Some? ==> digest == grant.expectedDigest.value)
      && (grant.expectedSize.Some? ==> size == grant.expectedSize.value)
    }
  }

  /** What the operating system, the clock and the authorizer do during one call. */
  datatype Env = Env(authorized: bool, now: int, later: int, openFails: bool, syncFails: bool, closeFails: bool,
                     linkFails: bool, chmodFails: bool, removeFails: bool, cancel: seq<bool>,
                     writes: seq<Copy.WriteResult>)

  predicate Calm(env: Env) {
    && env.authorized && !env.openFails && !env.syncFails && !env.closeFails && !env.linkFails && !env.chmodFails
    && !env.removeFails && env.cancel == []
  }

  /** The grant is one the store starts on: from here a file is created or found. */
  predicate Opens(grant: Grant, env: Env) {
    grant.Valid() && env.authorized && grant.issuedAt <= env.now < grant.expiresAt && !env.openFails
  }

  /** What staging under a name that exists answers: only an exact grant whose bytes
      are there succeeds. */
  function Again(hash: Hash, bytes: seq<byte>, grant: Grant): Result<Staged> {
    if !grant.Exact() then Err(Invalid)
    else if |bytes| != grant.expectedSize.value then Err(SizeMismatch)
    else if hash(bytes) != grant.expectedDigest.value then Err(Corrupt)
    else Ok(Staged(grant, grant.expectedDigest.value, grant.expectedSize.value, grant.issuedAt))
  }

  /** The input is what the grant is for, and it came in time. */
  ghost predicate Granted(hash: Hash, grant: Grant, env: Env, whole: (seq<byte>, Copy.Ending)) {
    && whole.1 == Copy.AtEof && 1 <= |whole.0| <= grant.maxBytes
    && (grant.expectedDigest.Some? ==> hash(whole.0) == grant.expectedDigest.value)
    && (grant.expectedSize.Some? ==> |whole.0| == grant.expectedSize.value)
    && grant.issuedAt <= env.later < grant.expiresAt
  }

  /** Why an input is refused: size before the way it ends, then emptiness, digest, stated
      size, and time. */
  ghost function Refusal(hash: Hash, grant: Grant, whole: (seq<byte>, Copy.Ending)): Error {
    if |whole.0| > grant.maxBytes then TooLarge
    else if whole.1 != Copy.AtEof then Io
    else if whole.0 == [] then Invalid
    else if grant.expectedDigest.Some? && grant.expectedDigest.value != hash(whole.0) then DigestMismatch
    else if grant.expectedSize.Some? && grant.expectedSize.value != |whole.0| then SizeMismatch
    else Invalid
  }

  // ----- what a store keeps -----

  /** Bytes with their hash. */
  type Known = set<(string, seq<byte>)>

  /** Names lead to files; a content name leads to bytes with that hash; and the bytes
      behind every name are known under their digest. */
  ghost predicate Sound(hash: Hash, fs: Fs, known: Known) {
    && (forall i :: i in fs.inodes ==> i < fs.next)
    && (forall p {:trigger NameSound(hash, fs, known, p)} :: p in fs.paths ==> NameSound(hash, fs, known, p))
  }

  ghost predicate NameSound(hash: Hash, fs: Fs, known: Known, p: Path)
    requires p in fs.paths
  {
    && fs.paths[p] in fs.inodes
    && var bytes := fs.inodes[fs.paths[p]].bytes;
    && (hash(bytes), bytes) in known
    && (p.ContentPath? ==> hash(bytes) == p.digest)
  }

  ghost predicate Hashed(hash: Hash, known: Known) {
    forall k :: k in known ==> hash(k.1) == k.0
  }

  ghost predicate NoCollision(known: Known) {
    forall j, k :: j in known && k in known && j.0 == k.0 ==> j.1 == k.1
  }

  class LocalStore {
    const hash: Hash
    var fs: Fs
    /** Everything a call of Stage ever answered for, with its digest. */
    ghost var staged: Known
    /** What failed calls of Stage left behind, because its name could not be removed. */
    ghost var left: Known

    ghost predicate Valid()
      reads this
    {
      Sound(hash, fs, staged + left) && Hashed(hash, staged + left)
    }

    constructor (hash: Hash)
      ensures Valid() && fs == Fs(map[], map[], 0) && staged == left == {} && this.hash == hash
    {
      this.hash := hash;
      fs, staged, left := Fs(map[], map[], 0), {}, {};
    }

    /** verifyOpenFile: size first, then the hash of all bytes. */
    method Verify(bytes: seq<byte>, size: nat, digest: string, cancel: seq<bool>) returns (e: Option<Error>)
      ensures e.None? ==> |bytes| == size && hash(bytes) == digest
      ensures cancel == [] && |bytes| == size && hash(bytes) == digest ==> e.None?
      ensures cancel == [] ==> e == if |bytes| != size then Some(SizeMismatch)
                                    else if hash(bytes) != digest then Some(Corrupt) else None
      ensures e == Some(SizeMismatch) <==> |bytes| != size
      ensures e.Some? ==> e.value == SizeMismatch || e.value == Corrupt || e.value == Io
    {
      if |bytes| != size {
        return Some(SizeMismatch);
      }
      var source := new Copy.Source([Copy.ReadResult(bytes, Some(Copy.Eof))]);
      var sink := new Copy.Sink([]);
      var total, error := Copy.CopyBounded(cancel, sink, source, size);
      if error.Some? {
        return Some(Io);
      }
      assert sink.contents == bytes;
      e := if hash(sink.contents) != digest then Some(Corrupt) else None;
    }

    /** Stage: on success the stage name holds exactly the granted input. A call that
        fails leaves every name as it was, except when it had created its file and could
        not remove the name again: then the name holds a prefix of the input. Under a
        name that exists the answer depends on the bytes there alone. */
    method Stage(grant: Grant, input: Copy.Source, env: Env) returns (r: Result<Staged>)
      requires Valid()
      modifies this, input
      ensures Valid() && old(staged) <= staged && old(left) <= left
      ensures var p := StagePath(grant.stageId); var whole := Copy.Whole(old(input.script)).0;
        && (forall q :: q != p ==> (q in fs.paths <==> q in old(fs.paths)) && fs.Bytes(q) == old(fs).Bytes(q))
        && (p in old(fs.paths) ==> fs == old(fs))
        && (p !in old(fs.paths) && r.Err? ==>
              && (p in fs.paths <==> Opens(grant, env) && env.removeFails)
              && fs.Bytes(p) <= whole && |fs.Bytes(p)| <= grant.maxBytes)
        && (r.Ok? ==>
              && Opens(grant, env) && p in fs.paths && r.value.grant == grant && r.value.Valid()
              && |fs.Bytes(p)| == r.value.size && hash(fs.Bytes(p)) == r.value.digest
              && (r.value.digest, fs.Bytes(p)) in staged
              && (p !in old(fs.paths) ==> fs.Bytes(p) == whole))
      ensures r.Err? ==> staged == old(staged)
      ensures r.Ok? || StagePath(grant.stageId) !in fs.paths || StagePath(grant.stageId) in old(fs.paths)
        ==> left == old(left)
      ensures Opens(grant, env) && StagePath(grant.stageId) !in old(fs.paths) && Calm(env) && env.writes == [] ==>
        (r.Ok? <==> Granted(hash, grant, env, Copy.Whole(old(input.script))))
      ensures StagePath(grant.stageId) in old(fs.paths) && Opens(grant, env) && env.cancel == [] ==>
        r == Again(hash, old(fs).Bytes(StagePath(grant.stageId)), grant)
      ensures Opens(grant, env) && StagePath(grant.stageId) !in old(fs.paths) && Calm(env) && env.writes == [] ==>
        var whole := Copy.Whole(old(input.script));
        r == if Granted(hash, grant, env, whole) then Ok(Staged(grant, hash(whole.0), |whole.0|, env.later))
             else Err(Refusal(hash, grant, whole))
      ensures !grant.Valid() ==> r == Err(Invalid)
      ensures grant.Valid() && !env.authorized ==> r == Err(Unauthorized)
      ensures grant.Valid() && env.authorized && !(grant.issuedAt <= env.now < grant.expiresAt) ==> r == Err(Invalid)
    {
      if !grant.Valid() {
        return Err(Invalid);
      }
      if !env.authorized {
        return Err(Unauthorized);
      }
      if env.now < grant.issuedAt || grant.expiresAt <= env.now {
        return Err(Invalid);
      }
      if env.openFails {
        return Err(Io);
      }
      var path := StagePath(grant.stageId);
      if path in fs.paths {
        r := StageAgain(grant, env);
        return;
      }
      r := StageNew(grant, input, env);
    }

    /** The name exists. */
    method StageAgain(grant: Grant, env: Env) returns (r: Result<Staged>)
      requires Valid() && grant.Valid() && StagePath(grant.stageId) in fs.paths
      modifies this
      ensures Valid() && fs == old(fs) && left == old(left) && old(staged) <= staged
      ensures r.Err? ==> staged == old(staged)
      ensures var bytes := fs.Bytes(StagePath(grant.stageId));
        && (r.Ok? ==> r.value.grant == grant && r.value.Valid()
                      && |bytes| == r.value.size && hash(bytes) == r.value.digest
                      && (r.value.digest, bytes) in staged)
        && (env.cancel == [] ==> r == Again(hash, bytes, grant))
    {
      if !grant.Exact() {
        return Err(Invalid);
      }
      var bytes := fs.Bytes(StagePath(grant.stageId));
      var e := Verify(bytes, grant.expectedSize.value, grant.expectedDigest.value, env.cancel);
      if e.Some? {
        return Err(e.value);
      }
      ghost var known := staged + left;
      staged := staged + {(hash(bytes), bytes)};
      MoreKnown(hash, fs, known, staged + left);
      r := Ok(Staged(grant, grant.expectedDigest.value, grant.expectedSize.value, grant.issuedAt));
    }

    /** A new file under a new name. Unless every later step succeeds the name is removed
        again, and a failure to remove it is ignored. */
    method StageNew(grant: Grant, input: Copy.Source, env: Env) returns (r: Result<Staged>)
      requires Valid() && grant.Valid() && StagePath(grant.stageId) !in fs.paths
      modifies this, input
      ensures Valid() && old(staged) <= staged && old(left) <= left
      ensures forall q :: q != StagePath(grant.stageId) ==>
        (q in fs.paths <==> q in old(fs.paths)) && fs.Bytes(q) == old(fs).Bytes(q)
      ensures r.Err? ==> var p := StagePath(grant.stageId);
        && staged == old(staged) && (p in fs.paths <==> env.removeFails) && (p !in fs.paths ==> left == old(left))
        && fs.Bytes(p) <= Copy.Whole(old(input.script)).0 && |fs.Bytes(p)| <= grant.maxBytes
      ensures r.Ok? ==> var p := StagePath(grant.stageId);
        && p in fs.paths && r.value.grant == grant && r.value.Valid() && left == old(left)
        && fs.Bytes(p) == Copy.Whole(old(input.script)).0
        && |fs.Bytes(p)| == r.value.size && hash(fs.Bytes(p)) == r.value.digest
          && (r.value.digest, fs.Bytes(p)) in staged
      ensures Calm(env) && env.writes == [] ==>
        var whole := Copy.Whole(old(input.script));
        r == if Granted(hash, grant, env, whole) then Ok(Staged(grant, hash(whole.0), |whole.0|, env.later))
             else Err(Refusal(hash, grant, whole))
    {
      hide NameSound, Sound;
      ghost var before := fs;
      var path, inode := StagePath(grant.stageId), fs.next;
      var sink := new Copy.Sink(env.writes);
      ghost var whole := Copy.Whole(input.script);
      var written, error := Copy.CopyBounded(env.cancel, sink, input, grant.maxBytes);
      assert Calm(env) && env.writes == [] ==> (error.None? <==> whole.1 == Copy.AtEof && |whole.0| <= grant.maxBytes);
      assert error.None? ==> sink.contents == whole.0 && written == |whole.0|;
      var bytes := sink.contents;
      fs := WithFile(fs, path, bytes);
      r := Outcome(grant, env, bytes, written, error);
      if r.Ok? {
        staged := staged + {(hash(bytes), bytes)};
        NewName(hash, before, path, bytes, old(staged + left), staged + left);
      } else if env.removeFails {
        left := left + {(hash(bytes), bytes)};
        NewName(hash, before, path, bytes, old(staged + left), staged + left);
      } else {
        fs := fs.(paths := fs.paths - {path});
        NameGone(hash, before, path, bytes, staged + left);
      }
    }

    /** The checks behind the copy, in their order. */
    function Outcome(grant: Grant, env: Env, bytes: seq<byte>, written: nat,
                     error: Option<Copy.CopyError>): (r: Result<Staged>)
      reads this
      ensures r.Ok? ==> error.None? && r.value.Valid() && r.value == Staged(grant, hash(bytes), written, env.later)
    {
      var result := Staged(grant, hash(bytes), written, env.later);
      if error.Some? then Err(if error.value == Copy.TooLarge then TooLarge else Io)
      else if written < 1 then Err(Invalid)
      else if env.syncFails || env.closeFails then Err(Io)
      else if grant.expectedDigest.Some? && hash(bytes) != grant.expectedDigest.value then Err(DigestMismatch)
      else if grant.expectedSize.Some? && written != grant.expectedSize.value then Err(SizeMismatch)
      else if !result.Valid() || grant.expiresAt <= env.later then Err(Invalid)
      else Ok(result)
    }

    /** Materialize: on success the content name holds the staged bytes. */
    method Materialize(s: Staged, env: Env) returns (r: Result<()>)
      requires Valid()
      modifies this
      ensures Valid() && staged == old(staged) && left == old(left)
      ensures forall q :: q != ContentPath(s.digest) ==>
        (q in fs.paths <==> q in old(fs.paths)) && fs.Bytes(q) == old(fs).Bytes(q)
      ensures ContentPath(s.digest) in old(fs.paths) ==> fs.paths == old(fs.paths)
      ensures r.Ok? ==> var p := ContentPath(s.digest);
        && p in fs.paths && hash(fs.Bytes(p)) == s.digest && |fs.Bytes(p)| == s.size
        && (p !in old(fs.paths) ==> fs.Bytes(p) == fs.Bytes(StagePath(s.grant.stageId)))
      ensures old(Materializable(s, env)) ==> r.Ok?
      ensures env.cancel == [] ==> r == old(Materialized(s, env))
      ensures env.cancel == [] ==>
        fs.paths == if !old(Links(s, env)) then old(fs.paths)
                    else old(fs.paths)[ContentPath(s.digest) := old(fs.paths)[StagePath(s.grant.stageId)]]
      ensures r.Ok? && ContentPath(s.digest) !in old(fs.paths) ==>
        var i := fs.paths[ContentPath(s.digest)];
        fs.inodes == old(fs.inodes)[i := File(old(fs).Bytes(StagePath(s.grant.stageId)), true)]
    {
      if !s.Valid() {
        return Err(Invalid);
      }
      if !env.authorized {
        return Err(Unauthorized);
      }
      var stagedPath, contentPath := StagePath(s.grant.stageId), ContentPath(s.digest);
      if stagedPath !in fs.paths {
        return Err(Missing);
      }
      if env.openFails {
        return Err(Io);
      }
      assert NameSound(hash, fs, staged + left, stagedPath);
      var e := Verify(fs.Bytes(stagedPath), s.size, s.digest, env.cancel);
      if e.Some? {
        return Err(e.value);
      }
      if env.closeFails || env.linkFails {
        return Err(Io);
      }
      if contentPath !in fs.paths {
        ghost var before := fs;
        var inode := fs.paths[stagedPath];
        fs := fs.(paths := fs.paths[contentPath := inode]);
        if !env.chmodFails {
          fs := fs.(inodes := fs.inodes[inode := fs.inodes[inode].(readOnly := true)]);
        }
        Linked(hash, before, fs, contentPath, inode, staged + left);
        return if env.chmodFails then Err(Io) else Ok(());
      }
      assert NameSound(hash, fs, staged + left, contentPath);
      e := Verify(fs.Bytes(contentPath), s.size, s.digest, env.cancel);
      r := if e.Some? then Err(e.value) else Ok(());
    }

    /** Its bytes get a second name: everything before that succeeds, and the name is new. */
    ghost predicate Links(s: Staged, env: Env)
      reads this
    {
      && s.Valid() && env.authorized && StagePath(s.grant.stageId) in fs.paths && !env.openFails
      && |fs.Bytes(StagePath(s.grant.stageId))| == s.size && hash(fs.Bytes(StagePath(s.grant.stageId))) == s.digest
      && !env.closeFails && !env.linkFails && ContentPath(s.digest) !in fs.paths
    }

    /** The answer, by the first thing that is wrong. */
    ghost function Materialized(s: Staged, env: Env): Result<()>
      reads this
    {
      var staged, content := StagePath(s.grant.stageId), ContentPath(s.digest);
      if !s.Valid() then Err(Invalid)
      else if !env.authorized then Err(Unauthorized)
      else if staged !in fs.paths then Err(Missing)
      else if env.openFails then Err(Io)
      else if |fs.Bytes(staged)| != s.size then Err(SizeMismatch)
      else if hash(fs.Bytes(staged)) != s.digest then Err(Corrupt)
      else if env.closeFails || env.linkFails then Err(Io)
      else if content !in fs.paths then if env.chmodFails then Err(Io) else Ok(())
      else if |fs.Bytes(content)| != s.size then Err(SizeMismatch) else Ok(())
    }

    /** A staged descriptor whose bytes are still there can be materialized again and
        again, unless another file of that digest has another size. */
    ghost predicate Materializable(s: Staged, env: Env)
      reads this
    {
      && Calm(env) && s.Valid()
      && var p, c := StagePath(s.grant.stageId), ContentPath(s.digest);
      && p in fs.paths && |fs.Bytes(p)| == s.size && hash(fs.Bytes(p)) == s.digest
      && (c in fs.paths ==> |fs.Bytes(c)| == s.size)
    }

    /** OpenVerified: the bytes behind a content name. When hashes do not collide they are
        the bytes that were staged under the digest, if any were. */
    method OpenVerified(digest: string, size: nat, wellFormed: bool, authorizedAt: int, validUntil: int, env: Env)
        returns (r: Result<seq<byte>>)
      requires Valid()
      ensures r.Ok? ==> |r.value| == size && hash(r.value) == digest && (digest, r.value) in staged + left
      ensures r.Ok? && NoCollision(staged + left) ==> forall bytes :: (digest, bytes) in staged ==> r.value == bytes
      ensures r.Ok? ==> ContentPath(digest) in fs.paths && r.value == fs.Bytes(ContentPath(digest))
      ensures r.Ok? ==> wellFormed && env.authorized && authorizedAt <= env.now < validUntil && env.later < validUntil
      ensures env.cancel == [] ==>
        (r.Ok? <==>
           && wellFormed && env.authorized && authorizedAt <= env.now < validUntil
           && ContentPath(digest) in fs.paths && !env.openFails && |fs.Bytes(ContentPath(digest))| == size
           && hash(fs.Bytes(ContentPath(digest))) == digest && env.later < validUntil)
      ensures r == Err(Invalid) <==> !wellFormed
      ensures wellFormed && (!env.authorized || env.now < authorizedAt || env.now >= validUntil) ==>
        r == Err(Unauthorized)
      ensures wellFormed && env.authorized && authorizedAt <= env.now < validUntil ==>
        && (r == Err(Missing) <==> ContentPath(digest) !in fs.paths)
        && (ContentPath(digest) in fs.paths && env.openFails ==> r == Err(Io))
        && (ContentPath(digest) in fs.paths && !env.openFails && |fs.Bytes(ContentPath(digest))| != size ==>
              r == Err(SizeMismatch))
        && (env.cancel == [] ==>
              (r == Err(Unauthorized) <==>
                 && ContentPath(digest) in fs.paths && !env.openFails && |fs.Bytes(ContentPath(digest))| == size
                 && env.later >= validUntil))
    {
      if !wellFormed {
        return Err(Invalid);
      }
      if !env.authorized || env.now < authorizedAt || validUntil <= env.now {
        return Err(Unauthorized);
      }
      var path := ContentPath(digest);
      if path !in fs.paths {
        return Err(Missing);
      }
      if env.openFails {
        return Err(Io);
      }
      assert NameSound(hash, fs, staged + left, path);
      var bytes := fs.Bytes(path);
      var e := Verify(bytes, size, digest, env.cancel);
      if e.Some? {
        return Err(e.value);
      }
      if validUntil <= env.later {
        return Err(Unauthorized);
      }
      r := Ok(bytes);
    }

    /** Removing a name removes no file another name leads to. */
    method Unlink(path: Path)
      requires Valid() && path in fs.paths
      modifies this
      ensures Valid() && staged == old(staged) && left == old(left) && fs.paths == old(fs.paths) - {path}
        && fs.inodes == old(fs.inodes)
    {
      ghost var before := fs;
      fs := fs.(paths := fs.paths - {path});
      ghost var known := staged + left;
      forall p {:trigger NameSound(hash, fs, known, p)} | p in fs.paths
        ensures NameSound(hash, fs, known, p)
      {
        assert NameSound(hash, before, known, p);
      }
    }

    /** DeleteStaged: a name that is gone already counts as deleted. */
    method DeleteStaged(stageId: string, wellFormed: bool, validUntil: int, env: Env) returns (r: Result<()>)
      requires Valid()
      modifies this
      ensures Valid() && staged == old(staged) && left == old(left) && fs.inodes == old(fs.inodes)
      ensures fs.paths == if r.Ok? then old(fs.paths) - {StagePath(stageId)} else old(fs.paths)
      ensures r.Ok? <==> wellFormed && env.now < validUntil && env.authorized
                         && (StagePath(stageId) in old(fs.paths) ==> !env.removeFails)
      ensures r == Err(Invalid) <==> !wellFormed || env.now >= validUntil
      ensures r == Err(Unauthorized) <==> wellFormed && env.now < validUntil && !env.authorized
    {
      if !wellFormed || validUntil <= env.now {
        return Err(Invalid);
      }
      if !env.authorized {
        return Err(Unauthorized);
      }
      if StagePath(stageId) !in fs.paths {
        return Ok(());
      }
      if env.removeFails {
        return Err(Io);
      }
      Unlink(StagePath(stageId));
      r := Ok(());
    }

    /** DeleteContent: only after the bytes were verified once more. */
    method DeleteContent(digest: string, size: nat, wellFormed: bool, validUntil: int, env: Env) returns (r: Result<()>)
      requires Valid()
      modifies this
      ensures Valid() && staged == old(staged) && left == old(left) && fs.inodes == old(fs.inodes)
      ensures fs.paths == if r.Ok? then old(fs.paths) - {ContentPath(digest)} else old(fs.paths)
      ensures r.Ok? ==> ContentPath(digest) in old(fs.paths) && |old(fs).Bytes(ContentPath(digest))| == size
      ensures r.Ok? ==> wellFormed && size >= 1 && env.now < validUntil && env.authorized
      ensures env.cancel == [] ==>
        (r.Ok? <==>
           && wellFormed && size >= 1 && env.now < validUntil && env.authorized
           && ContentPath(digest) in old(fs.paths) && |old(fs).Bytes(ContentPath(digest))| == size
           && !env.openFails && !env.closeFails && !env.removeFails)
      ensures r == Err(Invalid) <==> !wellFormed || size < 1 || env.now >= validUntil
      ensures r == Err(Unauthorized) <==> wellFormed && size >= 1 && env.now < validUntil && !env.authorized
      ensures r == Err(Missing) <==>
        wellFormed && size >= 1 && env.now < validUntil && env.authorized && ContentPath(digest) !in old(fs.paths)
      ensures ContentPath(digest) in old(fs.paths) && r == Err(SizeMismatch) ==>
        |old(fs).Bytes(ContentPath(digest))| != size
    {
      if !wellFormed || size < 1 || validUntil <= env.now {
        return Err(Invalid);
      }
      if !env.authorized {
        return Err(Unauthorized);
      }
      var path := ContentPath(digest);
      if path !in fs.paths {
        return Err(Missing);
      }
      if env.openFails {
        return Err(Io);
      }
      assert NameSound(hash, fs, staged + left, path);
      var e := Verify(fs.Bytes(path), size, digest, env.cancel);
      if e.Some? {
        return Err(e.value);
      }
      if env.closeFails || env.removeFails {
        return Err(Io);
      }
      Unlink(path);
      r := Ok(());
    }
  }

  // ----- steps on names -----

  /** A fresh file under this name. */
  function WithFile(fs: Fs, path: Path, bytes: seq<byte>): Fs {
    Fs(fs.paths[path := fs.next], fs.inodes[fs.next := File(bytes, false)], fs.next + 1)
  }

  lemma {:induction false} MoreKnown(hash: Hash, fs: Fs, known: Known, known': Known)
    requires Sound(hash, fs, known) && known <= known'
    ensures Sound(hash, fs, known')
  {
    forall p {:trigger NameSound(hash, fs, known', p)} | p in fs.paths
      ensures NameSound(hash, fs, known', p)
    {
      assert NameSound(hash, fs, known, p);
    }
  }

  /** Another name keeps its file when a fresh file is written. */
  lemma {:induction false} OtherName(hash: Hash, before: Fs, after: Fs, path: Path, bytes: seq<byte>, known: Known,
                                     p: Path)
    requires Sound(hash, before, known) && p in before.paths && p in after.paths && p != path
    requires after.paths[p] == before.paths[p] && after.inodes == WithFile(before, path, bytes).inodes
    ensures NameSound(hash, after, known, p) && after.Bytes(p) == before.Bytes(p)
  {
    assert NameSound(hash, before, known, p);
  }

  /** A fresh file under a new name, its bytes now known. */
  lemma {:induction false} NewName(hash: Hash, before: Fs, path: Path, bytes: seq<byte>, known: Known, known': Known)
    requires Sound(hash, before, known) && path.StagePath? && path !in before.paths
    requires known <= known' && (hash(bytes), bytes) in known'
    ensures var after := WithFile(before, path, bytes);
      Sound(hash, after, known') && after.Bytes(path) == bytes && forall q :: q != path ==>
        after.Bytes(q) == before.Bytes(q)
  {
    var after := WithFile(before, path, bytes);
    MoreKnown(hash, before, known, known');
    forall q | q != path && q in before.paths
      ensures after.Bytes(q) == before.Bytes(q) && NameSound(hash, after, known', q)
    {
      OtherName(hash, before, after, path, bytes, known', q);
    }
    forall p {:trigger NameSound(hash, after, known', p)} | p in after.paths
      ensures NameSound(hash, after, known', p)
    {
    }
  }

  /** The fresh file without its name: every name is as it was. */
  lemma {:induction false} NameGone(hash: Hash, before: Fs, path: Path, bytes: seq<byte>, known: Known)
    requires Sound(hash, before, known) && path !in before.paths
    ensures var made := WithFile(before, path, bytes); var after := made.(paths := made.paths - {path});
      Sound(hash, after, known) && after.paths == before.paths && forall q :: after.Bytes(q) == before.Bytes(q)
  {
    var made := WithFile(before, path, bytes);
    var after := made.(paths := made.paths - {path});
    assert after.paths == before.paths;
    forall q
      ensures after.Bytes(q) == before.Bytes(q) && (q in after.paths ==> NameSound(hash, after, known, q))
    {
      if q in after.paths {
        OtherName(hash, before, after, path, bytes, known, q);
      }
    }
  }

  /** Staging once more over what a failed call left of an input: with an exact grant for
      the whole input it succeeds when the whole input had been written, and otherwise
      fails for the size until the name is deleted; a grant that is not exact is refused. */
  lemma {:induction false} RetryOverLeftover(hash: Hash, leftover: seq<byte>, whole: seq<byte>, grant: Grant)
    requires leftover <= whole
    ensures grant.Exact() && grant.expectedSize == Some(|whole|) && grant.expectedDigest == Some(hash(whole)) ==>
      Again(hash, leftover, grant) == (if leftover == whole then Ok(Staged(grant, hash(whole), |whole|, grant.issuedAt))
                                       else Err(SizeMismatch))
    ensures !grant.Exact() ==> Again(hash, leftover, grant) == Err(Invalid)
  {
    if |leftover| == |whole| {
      assert leftover == whole[..|leftover|] == whole;
    }
  }

  /** A second name for a file, whose mode may change but not its bytes. */
  lemma {:induction false} Linked(hash: Hash, before: Fs, after: Fs, path: Path, inode: nat, staged: Known)
    requires Sound(hash, before, staged) && inode in before.inodes && path !in before.paths
    requires after.paths == before.paths[path := inode] && after.next == before.next
    requires after.inodes.Keys == before.inodes.Keys
    requires forall i :: i in before.inodes ==> after.inodes[i].bytes == before.inodes[i].bytes
    requires var bytes := before.inodes[inode].bytes;
      (hash(bytes), bytes) in staged && path == ContentPath(hash(bytes))
    ensures Sound(hash, after, staged) && after.Bytes(path) == before.inodes[inode].bytes
    ensures forall q :: q != path ==> after.Bytes(q) == before.Bytes(q)
  {
    forall p {:trigger NameSound(hash, after, staged, p)} | p in after.paths
      ensures NameSound(hash, after, staged, p)
    {
      if p != path {
        assert NameSound(hash, before, staged, p);
      }
    }
    forall q | q != path
      ensures after.Bytes(q) == before.Bytes(q)
    {
      if q in before.paths {
        assert NameSound(hash, before, staged, q);
      }
    }
  }
}
