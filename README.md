# Repository pool of gitquery, in Dafny

This project models the sequential core of `repository_pool.go`: the
repository registry (`RepositoryPool`) and its cursor (`RepositoryIter`).

The pool keeps two structures in step: a map from identifier to the path
where the repository is stored, and the identifiers in the order they were
first added. `Add` is an upsert: it appends an identifier only when it is
new and always (over)writes its path. `AddGit` registers a path under its
base name after checking that the path opens as a repository. `AddDir`
does the same for every subdirectory of a directory listing and silently
skips those that do not open. `GetPos` looks up an ordinal position. It
answers `io.EOF` past the end, and also when the identifier stored there is
empty. Otherwise it opens the stored path afresh on every call and passes
on any open error. `RepositoryIter.Next` calls `GetPos` at its position and
moves the position on by one only on success.

The invariant that carries the proofs is `PoolState.Valid()`: the order has
no duplicates and holds exactly the keys of the map. From it,
`LengthMatches` proves that the order has as many identifiers as the map
has entries. So `GetPos`'s bound check against the map's size
(`pos >= len(p.repositories)`) is what keeps the index `p.idOrder[pos]` in
range. Every mutating method keeps the invariant.

Layout:

- `paths.dfy`, module `Paths`: the base name of a path (`filepath.Base`) and
  a simplified `filepath.Join`, with the fact that the base of
  `Join(dir, name)` is `name`.
- `pool_spec.dfy`, module `PoolSpec`: the pool as a value (`PoolState`) and
  one function per operation: `Upsert`, `Lookup`, `RegisterGit`,
  `AddEntries`, and `Drain` (what a cursor yields until it errs). The lemmas
  about them live here too.
- `repository_pool.dfy`, module `Gitquery`: the classes `RepositoryPool`
  (fields `repositories: map<string, string>` and `idOrder: seq<string>`)
  and `RepositoryIter` (fields `pos` and `pool`). Each pool method and
  `Next` is proved against the matching `PoolSpec` function.

Opening a repository (`git.PlainOpen`) is a parameter, `open: Opener`. It
is a function from path to `Opened(handle)` or `NotOpened(reason)`. It
stands for the state of the filesystem at the time of the call, so two
calls may pass different openers. Open failures form their own variant of
`Error`, so they can never be mistaken for `EOF`. The directory listing
(`ioutil.ReadDir`) is an input `Listing`: a sequence of (name, isDir)
entries, or the reason the listing failed. `NewRepository` is the
`Repository(id, handle)` datatype constructor.

## Model

| member | source | states |
|---|---|---|
| PoolSpec.LengthMatches | repository_pool.go:97-102 | under the pool invariant the order and the map have the same size, so the check against the map's size makes the index into the order safe |
| PoolSpec.Empty | repository_pool.go:46-51 | the new pool is valid and has no identifiers |
| PoolSpec.Upsert | repository_pool.go:53-61 | the key set gains `id`; `id` maps to the new path; other entries are unchanged; the order grows by one (with `id` last) only if `id` was absent; earlier positions are unchanged; the invariant is kept |
| PoolSpec.OpenRepository | repository_pool.go:28-37 | succeeds exactly when the path opens, with the identifier and the handle opening gave; otherwise the open error with its reason unchanged, never `EOF` |
| PoolSpec.Lookup | repository_pool.go:95-114 | `EOF` exactly when `pos` is past the last identifier or the identifier there is empty; on success the identifier at `pos` with the handle its current path opens to; any other error is that path's open failure, unchanged |
| PoolSpec.UpsertRedirectsItsPosition | repository_pool.go:54-108 | after `Add(id, path)` the position holding `id` (its old place when re-added, the end when new) opens `path` |
| PoolSpec.UpsertKeepsOtherPositions | repository_pool.go:54-108 | after `Add(id, path)` every position not holding `id` looks up exactly what it did before |
| PoolSpec.RegisterGit | repository_pool.go:65-75 | nothing changes when the path does not open; otherwise exactly `Base(path)` is added to the keys (appended to the order only if new), it maps to `path`, and every other entry keeps its path; keeps the invariant, only grows the pool and its order, and never registers an empty identifier |
| PoolSpec.AddEntries | repository_pool.go:78-93 | over any listing: keeps the invariant, only grows the pool and its order, and never introduces an empty identifier |
| PoolSpec.AddFreshEntry | repository_pool.go:84-89 | an entry whose name is not yet registered is appended under its own name exactly when it is a directory whose joined path opens |
| PoolSpec.AddDirAppendsCandidates | repository_pool.go:78-93 | for entries with distinct, slash-free, unregistered names, the order gains exactly the names of the subdirectories that open, in listing order |
| PoolSpec.AddDirStoresJoinedPaths | repository_pool.go:84-89 | for entries with distinct, slash-free names, each subdirectory that opens is stored under its name with path `<dir>/<name>` (overwriting an earlier path for that name), and every identifier registered before that is not a subdirectory that opens keeps its path |
| PoolSpec.AddDirCountsRepositories | repository_pool_test.go:213-233 | the same registration adds exactly as many identifiers as there are subdirectories that open; the others are skipped without error |
| PoolSpec.Drain | repository_pool.go:132-143 | repeated `Next` from a position never yields more repositories than positions remain |
| PoolSpec.DrainYieldsLookups | repository_pool.go:134-142 | the k-th repository a cursor yields is the successful lookup k positions on, so ids come out in insertion order |
| PoolSpec.DrainStopsAtFirstError | repository_pool.go:134-138 | a cursor stops with exactly the error of the first position whose lookup fails, an open failure being a hard stop |
| PoolSpec.FreshCursorYieldsEveryRepository | repository_pool_test.go:103-131 | a fresh cursor over a pool whose identifiers are non-empty and whose paths all open yields every identifier once, in insertion order, then `EOF` |
| PoolSpec.EmptyIdStopsCursor | repository_pool.go:102-105 | an empty identifier at position k stops a fresh cursor at or before k, with `EOF` if it reaches k |
| PoolSpec.BasicPoolScenario | repository_pool_test.go:34-66 | with "0" stored at a path that does not open and "1" at one that does: position 0 fails with the open error, position 1 yields "1", position 2 is `EOF`, and a cursor stops at once with the open error |
| Paths.Base | repository_pool.go:71 | the base name is never empty and holds a slash only when it is "/"; a slash-free path is its own base |
| Paths.BaseOfJoin | repository_pool.go:86-88 | the subdirectory `Join(path, name)` is registered under `name` itself |
| Gitquery.RepositoryPool.constructor | repository_pool.go:46-51 | the new pool is valid and empty |
| Gitquery.RepositoryPool.Add | repository_pool.go:53-61 | keeps the invariant, and the new state is `Upsert` of the old one |
| Gitquery.RepositoryPool.AddGit | repository_pool.go:63-75 | if the path does not open: returns its open error and leaves the pool unchanged; otherwise returns `Base(path)`, which is now registered, and acts as `Add(Base(path), path)` |
| Gitquery.RepositoryPool.AddDir | repository_pool.go:77-93 | a failed listing is returned as the only error and leaves the pool untouched; otherwise returns no error, and the new state is the listing's entries registered in order with per-entry failures skipped |
| Gitquery.RepositoryPool.GetPos | repository_pool.go:95-114 | changes nothing and returns `Lookup` of the current state; the index into the order is proved in range from the bound check on the map's size |
| Gitquery.RepositoryPool.RepoIter | repository_pool.go:116-124 | a fresh cursor at position 0 over this pool |
| Gitquery.RepositoryIter.Next | repository_pool.go:132-143 | returns the lookup at the current position; the position goes up by exactly one on success and stays put on any error; after `EOF`, the next call answers `EOF` again, whatever the filesystem then holds |
| Gitquery.RepositoryIter.DrainCursor | repository_pool.go:215-240 | calling `Next` until it errs hands out exactly `Drain` from the cursor's position, in order, stops with its error, and leaves the cursor just past the last repository handed out |
| Gitquery.RepositoryIter.Close | repository_pool.go:145-148 | a no-op that always succeeds |

## Left out

- `rowRepoIter` (`NewRowRepoIter`, `fillRepoChannel`, `rowReader`, its `Next` and `Close`, repository_pool.go:150-291) and the `RowRepoIter` interface: the pipeline is goroutines, channels, a wait group and a closed `done` channel for cancellation. That is concurrency, which this model does not cover; only the sequence of `Next` calls `fillRepoChannel` makes on its cursor is modelled, by `DrainCursor`, without the `done` cancellation or the channels. So do `runtime.NumCPU` worker sizing and the multiset-of-rows properties of the pipeline.
- Concurrent use of one pool by several readers: the model is sequential.
- `git.PlainOpen` and `*git.Repository`: a foreign library. Opening is the `Opener` parameter and a handle is an opaque token. Handles are never closed, as in the source.
- Handle identity: Go opens a new `*git.Repository` on every `GetPos`, never cached or reused. Here a handle is a value, so two lookups under the same opener give equal handles, and the model cannot express that they are distinct objects.
- `ioutil.ReadDir`: filesystem I/O. Its result is the `Listing` input, reduced to each entry's name and whether it is a directory.
- `ioutil.ReadDir` returns its entries sorted by name; the `Listing` input may be in any order, so the order in which `AddDir` appends identifiers is proved for the listing order as given, not for sorted order.
- Paths.Join: unlike `filepath.Join` it does not clean the joined path (repeated slashes, "." and ".." elements). For a real entry name (non-empty, slash-free, not "." or "..") the base name of the result is the same.
- Paths.Base: Windows volume names and backslash separators are not modelled; the separator is "/".
- Gitquery.RepositoryPool.GetPos: takes `pos: nat`. A negative position makes the Go code panic on `p.idOrder[pos]`, so no caller may pass one.
- Gitquery.RepositoryPool.RepoIter: the Go function also returns an error that is always nil; the model drops it.
- Go errors are compared by identity; here they are datatype values carrying the reason string.
- The `commitFileIndexKey` encoding tested in commit_files_test.go: its source is not part of this model.
