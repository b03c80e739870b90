/**
 The repository pool and its cursor as objects whose fields are updated in
 place. Each method is proved against the value-level functions of
 PoolSpec: the pool's fields always form a valid PoolState, and every call
 moves them as the matching function says.
 */
module Gitquery {
  import opened Paths
  import opened PoolSpec

  /** `RepositoryPool`: identifier-to-path map plus the insertion order of the identifiers. */
  class RepositoryPool {
    var repositories: map<string, string>
    var idOrder: seq<string>

    /** The pool's fields as a value. */
    function State(): PoolState
      reads this
    {
      PoolState(repositories, idOrder)
    }

    ghost predicate Valid()
      reads this
    {
      State().Valid()
    }

    /** `NewRepositoryPool`: an empty map and no identifiers. */
    constructor ()
      ensures Valid() && State() == Empty()
    {
      repositories := map[];
      idOrder := [];
    }

    /**
     `Add`: upsert. A new identifier is appended to the order; the path is
     written in both cases.
     */
    method Add(id: string, path: string)
      requires Valid()
      modifies this
      ensures Valid()
      ensures State() == Upsert(old(State()), id, path)
    {
      if id !in repositories {
        idOrder := idOrder + [id];
      }
      repositories := repositories[id := path];
    }

    /**
     `AddGit`: the path is opened only to check that it is a repository. On
     failure the open error is returned and nothing is registered; on
     success the path is added under its base name, which is returned.
     */
    method AddGit(path: string, open: Opener) returns (r: Result<string>)
      requires Valid()
      modifies this
      ensures Valid()
      ensures State() == RegisterGit(old(State()), path, open)
      ensures open(path).NotOpened? ==> r == Err(OpenError(open(path).reason))
      ensures open(path).Opened? ==> r == Ok(Base(path)) && Base(path) in repositories
    {
      match open(path)
      case NotOpened(reason) =>
        return Err(OpenError(reason));
      case Opened(_) =>
        var id := Base(path);
        Add(id, path);
        return Ok(id);
    }

    /**
     `AddDir`: every directory entry of the listing is tried with AddGit as
     `<path>/<name>`, its failure ignored. Only a failed listing is an error,
     and then the pool is untouched.
     */
    method AddDir(path: string, listing: Listing, open: Opener) returns (err: Option<Error>)
      requires Valid()
      modifies this
      ensures Valid()
      ensures listing.ListFailed? ==> err == Some(ReadDirError(listing.reason)) && State() == old(State())
      ensures listing.Listed? ==> err == None && State() == AddEntries(old(State()), path, listing.entries, open)
    {
      if listing.ListFailed? {
        return Some(ReadDirError(listing.reason));
      }
      var dirs := listing.entries;
      for i := 0 to |dirs|
        invariant Valid()
        invariant State() == AddEntries(old(State()), path, dirs[..i], open)
      {
        var f := dirs[i];
        if f.isDir {
          var name := Join(path, f.name);
          var _ := AddGit(name, open);
        }
        assert dirs[..i + 1][..i] == dirs[..i];
      }
      assert dirs[..|dirs|] == dirs;
      return None;
    }

    /**
     `GetPos`: bound-checked against the number of map entries, then the
     identifier at `pos` is read from the order and its current path opened.
     The pool is not changed.
     */
    method GetPos(pos: nat, open: Opener) returns (r: Result<Repository>)
      requires Valid()
      ensures r == Lookup(State(), pos, open)
    {
      if pos >= |repositories| {
        return Err(EOF);
      }
      LengthMatches(State());
      var id := idOrder[pos];
      if id == "" {
        return Err(EOF);
      }
      var path := repositories[id];
      r := OpenRepository(id, path, open);
    }

    /** `RepoIter`: a new cursor at position 0 over this pool. */
    method RepoIter() returns (it: RepositoryIter)
      ensures fresh(it) && it.pool == this && it.pos == 0
    {
      it := new RepositoryIter(this);
    }
  }

  /** `RepositoryIter`: a cursor over a pool's ordinal positions. */
  class RepositoryIter {
    var pos: nat
    const pool: RepositoryPool

    constructor (pool: RepositoryPool)
      ensures this.pool == pool && pos == 0
    {
      this.pool := pool;
      pos := 0;
    }

    /**
     `Next`: the repository at the current position. The position moves on
     by one only on success. An EOF leaves the cursor where it is, so every
     further call answers EOF again however the files change.
     */
    method Next(open: Opener) returns (r: Result<Repository>)
      requires pool.Valid()
      modifies this
      ensures r == Lookup(pool.State(), old(pos), open)
      ensures pos == if r.Ok? then old(pos) + 1 else old(pos)
      ensures r == Err(EOF) ==> forall later: Opener :: Lookup(pool.State(), pos, later) == Err(EOF)
    {
      r := pool.GetPos(pos, open);
      if r.Err? {
        return;
      }
      pos := pos + 1;
    }

    /**
     Calling `Next` until it errs, as the feeder of the row pipeline does
     with its cursor: the repositories handed out and the error that stops
     the loop are exactly the cursor's `Drain` from where it stood.
     */
    method DrainCursor(open: Opener) returns (ys: seq<Repository>, stop: Error)
      requires pool.Valid()
      modifies this
      ensures Drain(pool.State(), old(pos), open) == Trace(ys, stop)
      ensures pos == old(pos) + |ys|
    {
      ys := [];
      var start := pos;
      while true
        invariant pos == start + |ys|
        invariant Drain(pool.State(), start, open) ==
                    Trace(ys + Drain(pool.State(), pos, open).yielded, Drain(pool.State(), pos, open).stop)
        decreases |pool.idOrder| - pos
      {
        var r := Next(open);
        if r.Err? {
          stop := r.error;
          assert ys + [] == ys;
          return;
        }
        assert ys + Drain(pool.State(), pos - 1, open).yielded
               == (ys + [r.value]) + Drain(pool.State(), pos, open).yielded;
        ys := ys + [r.value];
      }
    }

    /** `Close`: nothing to release; it always succeeds. */
    method Close() returns (err: Option<Error>)
      ensures err == None
    {
      err := None;
    }
  }
}
