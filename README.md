# rudisk scanner core in Dafny

rudisk computes the cumulative on-disk size of every file and directory under
a root. Its engine, `Search` in `src/lib.rs`, starts one background thread.
That thread walks the tree and, for every regular file it finds:

- adds 1 to `searched` and the file's length to `size`;
- overwrites the file's own entry in an inode → size ledger with its length;
- walks `path.ancestors()` (the path itself first, then each parent up to the
  filesystem root or the empty path). It stops at the first ancestor that
  cannot be opened. For every ancestor it can open, it makes sure a zero entry
  exists for that inode and then adds the file's length to it.

This project models that engine in two modules.

- `Ledger` (`ledger.dfy`) is the value-level specification of the ledger:
  - `U64` and `WrappingAdd` model `u64` / `AtomicU64::fetch_add`, which wrap
    modulo 2^64;
  - `Ancestor` is the outcome of opening one ancestor path: its inode number,
    or a failure;
  - `EnsureAndAdd` is one ensure-then-add step;
  - `Climb` is the ancestor climb of one file.
  The lemmas there say which keys exist after a climb and what every entry
  holds. They also say that entries the climb does not reach are untouched,
  and that nothing after the first failed ancestor matters.
- `Engine` (`engine.dfy`) holds the rest:
  - `FileRecord` is one file produced by the walk: its inode, its length and
    the outcomes for its ancestors;
  - `Step` is the per-file update and `RunAll` the whole background run;
  - the class `Search` has the source's fields (`sizes`, `thread`, `root`,
    `searched`, `size`) and the methods `Go`, `IsFinished`, `Visit` (the
    per-file closure body, with its loop over the ancestors and its early
    return) and `Scan` (the body of the spawned thread). `Visit` and `Scan`
    are proved equal to `Step` and `RunAll`; `Go` and `IsFinished` state
    their results directly.
  The lemmas give the counters after a run and every non-file entry after a
  run (a directory holds the sum of the lengths of the files that reach it).
  They also expose the code's double count of a file's own entry.

The directory walk and `File::open`/`metadata` are I/O. A walk is therefore an
input: a sequence of `FileRecord`s whose ancestor outcomes are arbitrary. They
are not derived from `root`, because `ancestors()` climbs past the scan root.
The thread handle is the state `NotSpawned | Running | Done`. Only `Scan`
moves it from `Running` to `Done`, standing for the spawned closure returning.

Three consequences of the code are worth spelling out:

- the climb does not stop at the scan root. It continues to the filesystem
  root, or to the empty path for a relative root, where the open fails;
- `searched` and `size` are bumped at src/lib.rs:53-54, before the insert of
  the file's own entry at src/lib.rs:55;
- a file that opens again gets its own length added on top of the
  overwrite, so its own entry is `2 * len` (modulo 2^64). `LeafDoubleCount`
  states this, and `ExampleTree` shows it on a two-file tree.

## Model

| member | source | states |
|---|---|---|
| `Ledger.WrappingAdd` | src/lib.rs:53-54 | `fetch_add` on a `u64` counter gives the exact sum when it fits in 64 bits, and the sum minus 2^64 when it overflows |
| `Ledger.Entry` | src/lib.rs:63-64 | the value `entry(k).or_insert(0)` yields: the stored entry when `k` is present, 0 when it is absent |
| `Ledger.Reached` | src/lib.rs:56-57 | the number of ancestors the climb gets through: every ancestor before that point opened, and the ancestor at that point (if any) failed to open |
| `Ledger.EnsureAndAdd` | src/lib.rs:59-71 | after ensuring the key and adding, the key is present (so the lookup and `unwrap` cannot fail); its entry is its old value, or 0 if it was new, plus `len` with wrap-around; every other entry is unchanged |
| `Ledger.Climb` | src/lib.rs:56-72 | the climb never removes a key from the ledger |
| `Ledger.ClimbKeys` | src/lib.rs:56-72 | the keys after the climb are exactly the old keys plus the inodes of the ancestors reached before the first failure |
| `Ledger.ClimbEntry` | src/lib.rs:56-71 | every entry after the climb is its old value (0 if absent) after one wrapping addition of `len` per time the climb reached that inode |
| `Ledger.OccurrencesPositive` | src/lib.rs:56-57 | the climb reaches an inode at least once exactly when that inode is among the ancestors opened before the first failure |
| `Ledger.ClimbFrame` | src/lib.rs:56-72 | an existing entry whose inode the climb does not reach keeps its value |
| `Ledger.ClimbStopsAtFailure` | src/lib.rs:56-57 | when the ancestors opened so far are followed by one that fails, the result is the ledger after the ones opened so far, whatever ancestors come after the failure |
| `Ledger.AddTimesClosed` | src/lib.rs:66-71 | `n` wrapping additions of `len` to `v` equal `(v + len + … + len) mod 2^64` |
| `Ledger.TimesIsProduct` | src/lib.rs:66-71 | adding `len` `n` times adds `len * n` |
| `Engine.Step` | src/lib.rs:48-73 | after one file its own inode is in the ledger; its other properties are stated by `StepCounters`, `StepKeys`, `StepOwnEntry`, `StepFrame` and `StepAncestorEntry` |
| `Engine.RunAll` | src/lib.rs:42-73 | a run never removes a key, and after it every visited file's inode is in the ledger |
| `Engine.ContributionStep` | src/lib.rs:56-71 | what a run adds to an entry is a sum of products: each file adds its length times the number of times its climb reaches that inode |
| `Engine.StepCounters` | src/lib.rs:53-54 | one file moves `searched` by 1 and `size` by `len` (modulo 2^64), whatever its ancestor outcomes |
| `Engine.StepKeys` | src/lib.rs:55-72 | the keys after one file are the old keys, the file's own inode and the inodes of the ancestors reached |
| `Engine.StepOwnEntry` | src/lib.rs:55-72 | the file's own entry does not depend on what it held before (the overwrite): it is `len`, plus one wrapping addition of `len` per time the climb reaches the file's inode |
| `Engine.LeafDoubleCount` | src/lib.rs:55-56 | when the file's own path opens as its first ancestor and the rest of the climb does not reach its inode again, its own entry ends at `len + len` (wrapping) |
| `Engine.StepFrame` | src/lib.rs:55-72 | entries other than the file's own and those of the reached ancestors keep their value |
| `Engine.StepAncestorEntry` | src/lib.rs:59-71 | every inode other than the file's own grows by one wrapping addition of `len` per time the climb reaches it, starting from 0 when it is new |
| `Engine.RunCounters` | src/lib.rs:48-54 | after a run, `searched` is the number of files visited and `size` the raw sum of their lengths, each occurrence counted (modulo 2^64) |
| `Engine.RunEntry` | src/lib.rs:48-73 | after a run, the entry of any inode that is not itself a visited file is its starting value plus the lengths of all files whose climb reached it, each counted once per time reached (modulo 2^64) |
| `Engine.ExampleTree` | src/lib.rs:48-73 | for `R/a` (100 bytes) and `R/S/b` (200 bytes) under the relative root `R`, where the climb stops at the empty path: `searched` 2, `size` 300, `R` 300, `S` 200, and the files 200 and 400, twice their own lengths |
| `Engine.Search.constructor` | src/lib.rs:27-32 | a new search has the given root, an empty ledger, zero counters and no thread |
| `Engine.Search.Go` | src/lib.rs:33-76 | with a thread handle already present, `go` returns `Err("Already running")` and leaves the handle as it was; otherwise it records a running thread and returns `Ok(())`; no other field changes |
| `Engine.Search.IsFinished` | src/lib.rs:77-82 | true exactly when a thread was spawned and has finished; false with no thread or a running one |
| `Engine.Search.Visit` | src/lib.rs:48-73 | the per-file body, with its ancestor loop and early return, leaves the ledger and counters equal to `Step` of the old ones; `thread` and `root` are untouched |
| `Engine.Search.Scan` | src/lib.rs:41-74 | the spawned thread visits the files in order, leaving the ledger and counters equal to `RunAll` of the old ones, and then reports finished |
| `Engine.GoTwice` | src/lib.rs:33-36 | on a new search the first `go` returns `Ok(())` and the second returns `Err("Already running")` |
| `Engine.Lifecycle` | src/lib.rs:27-82 | `is_finished` is false before `go` and while the thread runs, and true after it has finished; a later `go` still fails; the final totals are `RunAll` from the empty state |

## Left out

- Concurrency: the spawned thread, rayon's `par_bridge`, the `RwLock` around the ledger and the `Relaxed` atomics. Each file's update is one atomic sequential step, and files are processed in the order given. Interleavings, such as two hard links racing between the insert and the add, are not modelled.
- The directory walk: `WalkDir`, `same_file_system`, the `.flatten()` that drops unreadable entries, and the `is_file` filter. Their output is the input sequence of `FileRecord`s. `root` is stored but does not determine that sequence.
- `File::open` and `metadata()`: only their outcome is modelled. The `unwrap()`s on metadata at src/lib.rs:47, 49 and 58 can panic in the source if an object vanishes; the model assumes metadata always reads after a successful open or listing.
- `JoinHandle::is_finished` is a query on the OS thread. In the model the state becomes `Done` when `Scan` returns.
- The reading side used by the user interface: lookups of the ledger and counters, and everything in src/main.rs (egui drawing, rate sampling, byte formatting, re-reading the filesystem for display).
- Engine.RunEntry: states only the entries of inodes that are not themselves visited files; a file's own entry is reset by each overwrite, and `StepOwnEntry` covers it per step.
