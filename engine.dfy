/**
  The scanner `Search`: a one-shot background job that visits every regular
  file found under a root and, for each one, bumps two progress counters,
  seeds the file's own ledger entry and climbs its ancestors (see `Ledger`).

  The directory walk and the opening of ancestor paths are I/O: a walk is
  given as a sequence of `FileRecord`s that already carry the outcome of
  opening each ancestor. Each file's update is one sequential step.
*/
module Engine {
  import opened Ledger

  datatype Result<T> = Ok(value: T) | Err(error: string)

  /**
    One regular file produced by the walk: its inode, its length, and the
    outcome of opening each element of `path.ancestors()`, in that order
    (the path itself first, then its parent, up to the filesystem root or
    the empty path).
  */
  datatype FileRecord = FileRecord(id: U64, len: U64, ancestors: seq<Ancestor>)

  /** Everything the scan produces: the ledger and the two counters. */
  datatype Tally = Tally(sizes: Sizes, searched: U64, size: U64)

  /** What `Search::new` starts from. */
  const Empty: Tally := Tally(map[], 0, 0)

  /** The `thread` field: no handle yet, a handle still running, or finished. */
  datatype ThreadState = NotSpawned | Running | Done

  /**
    The update made for one file: count it, add its length to the running
    total, overwrite its own entry with its length, then climb.
  */
  function Step(t: Tally, f: FileRecord): (r: Tally)
    ensures f.id in r.sizes
  {
    Tally(Climb(t.sizes[f.id := f.len], f.ancestors, f.len),
          WrappingAdd(t.searched, 1),
          WrappingAdd(t.size, f.len))
  }

  /** The whole background run: `Step` for each file, in order. */
  function RunAll(t: Tally, files: seq<FileRecord>): (r: Tally)
    ensures t.sizes.Keys <= r.sizes.Keys
    ensures forall i :: 0 <= i < |files| ==> files[i].id in r.sizes
  {
    if files == [] then t
    else
      var init := RunAll(t, files[..|files| - 1]);
      var r := Step(init, files[|files| - 1]);
      assert forall i :: 0 <= i < |files| - 1 ==> files[i] == files[..|files| - 1][i];
      r
  }

  /** The sum of the lengths of the files, each occurrence counted. */
  function TotalLen(files: seq<FileRecord>): nat
  {
    if files == [] then 0 else TotalLen(files[..|files| - 1]) + files[|files| - 1].len
  }

  /**
    The bytes the run adds into the entry of `k`: each file's length once
    for every time its climb reaches `k`.
  */
  function Contribution(files: seq<FileRecord>, k: U64): nat
  {
    if files == [] then 0
    else
      var f := files[|files| - 1];
      Contribution(files[..|files| - 1], k) + Times(f.len, Occurrences(f.ancestors, k))
  }

  /**
    The contribution is a sum of products: the last file adds its length
    times the number of times its climb reaches `k`.
  */
  lemma ContributionStep(files: seq<FileRecord>, k: U64)
    requires files != []
    ensures var f := files[|files| - 1];
      Contribution(files, k) == Contribution(files[..|files| - 1], k) + f.len * Occurrences(f.ancestors, k)
  {
    var f := files[|files| - 1];
    TimesIsProduct(f.len, Occurrences(f.ancestors, k));
  }

  // ---------------------------------------------------------------------
  // Properties of one file's step

  /**
    The counters move by exactly one file and `len` bytes, whatever the
    file's inode and the outcome of its ancestor climb.
  */
  lemma StepCounters(t: Tally, f: FileRecord, g: FileRecord)
    requires g.len == f.len
    ensures Step(t, f).searched == Step(t, g).searched == (t.searched + 1) % WORD
    ensures Step(t, f).size == Step(t, g).size == (t.size + f.len) % WORD
  {
  }

  /**
    The keys after a step are the old keys, the file's own inode, and the
    inodes of the ancestors reached: no key is ever removed.
  */
  lemma StepKeys(t: Tally, f: FileRecord)
    ensures Step(t, f).sizes.Keys == t.sizes.Keys + {f.id} + ReachedIds(f.ancestors)
  {
    ClimbKeys(t.sizes[f.id := f.len], f.ancestors, f.len);
  }

  /**
    The file's own entry ignores whatever it held before (an earlier hard
    link, say): it is `len`, plus `len` again for each time the climb
    reaches the file's own inode.
  */
  lemma StepOwnEntry(t: Tally, f: FileRecord)
    ensures f.id in Step(t, f).sizes
    ensures Step(t, f).sizes[f.id] == AddTimes(f.len, f.len, Occurrences(f.ancestors, f.id))
  {
    ClimbEntry(t.sizes[f.id := f.len], f.ancestors, f.len, f.id);
    StepKeys(t, f);
  }

  /**
    Since `path.ancestors()` yields the path itself first, a file that
    opens again ends with twice its length in its own entry.
  */
  lemma LeafDoubleCount(t: Tally, f: FileRecord)
    requires f.ancestors != [] && f.ancestors[0] == Opened(f.id)
    requires f.id !in ReachedIds(f.ancestors[1..])
    ensures Step(t, f).sizes[f.id] == WrappingAdd(f.len, f.len)
  {
    StepOwnEntry(t, f);
    OccurrencesPositive(f.ancestors[1..], f.id);
  }

  /**
    Entries other than the file's own and those of the reached ancestors
    keep their value.
  */
  lemma StepFrame(t: Tally, f: FileRecord, k: U64)
    requires k in t.sizes && k != f.id && k !in ReachedIds(f.ancestors)
    ensures k in Step(t, f).sizes && Step(t, f).sizes[k] == t.sizes[k]
  {
    ClimbFrame(t.sizes[f.id := f.len], f.ancestors, f.len, k);
  }

  /**
    Every other entry the climb reaches grows by `len` for each time it is
    reached (a new one starting from zero).
  */
  lemma StepAncestorEntry(t: Tally, f: FileRecord, k: U64)
    requires k != f.id
    ensures Entry(Step(t, f).sizes, k) == AddTimes(Entry(t.sizes, k), f.len, Occurrences(f.ancestors, k))
  {
    ClimbEntry(t.sizes[f.id := f.len], f.ancestors, f.len, k);
  }

  // ---------------------------------------------------------------------
  // Properties of a whole run

  /**
    After a run, `searched` counts the files and `size` is the raw sum of
    their lengths (hard links counted once per occurrence), modulo 2^64.
  */
  lemma {:induction false} RunCounters(t: Tally, files: seq<FileRecord>)
    ensures RunAll(t, files).searched == (t.searched + |files|) % WORD
    ensures RunAll(t, files).size == (t.size + TotalLen(files)) % WORD
  {
    if files != [] {
      var init := files[..|files| - 1];
      var f := files[|files| - 1];
      RunCounters(t, init);
      ModAddLeft(t.searched + |init|, 1);
      ModAddLeft(t.size + TotalLen(init), f.len);
    }
  }

  /**
    After a run, the entry of any inode that is not itself one of the
    files is its starting value plus the lengths of all files whose climb
    reached it: a directory holds the sum of the files below it.
  */
  lemma {:induction false} RunEntry(t: Tally, files: seq<FileRecord>, k: U64)
    requires forall i :: 0 <= i < |files| ==> files[i].id != k
    ensures Entry(RunAll(t, files).sizes, k) == (Entry(t.sizes, k) + Contribution(files, k)) % WORD
  {
    if files == [] {
      SmallMod(Entry(t.sizes, k));
    } else {
      var init := files[..|files| - 1];
      assert forall i :: 0 <= i < |init| ==> init[i] == files[i];
      RunEntry(t, init, k);
      EntryAfterStep(RunAll(t, init), files[|files| - 1], k, Entry(t.sizes, k), Contribution(init, k));
    }
  }

  /** One more file on top of a run whose entry for `k` is already known. */
  lemma EntryAfterStep(u: Tally, f: FileRecord, k: U64, start: U64, prev: nat)
    requires k != f.id
    requires Entry(u.sizes, k) == (start + prev) % WORD
    ensures Entry(Step(u, f).sizes, k) == (start + (prev + Times(f.len, Occurrences(f.ancestors, k)))) % WORD
  {
    StepAncestorEntry(u, f, k);
    AddTimesClosed(Entry(u.sizes, k), f.len, Occurrences(f.ancestors, k));
    WrapStep(start, prev, Times(f.len, Occurrences(f.ancestors, k)), Entry(u.sizes, k), Entry(Step(u, f).sizes, k));
  }

  /**
    The example tree `R/a` (100 bytes) and `R/S/b` (200 bytes), scanned from
    the relative root `R`, with `R` and `S` at inodes 11 and 12 and the files
    at 13 and 14. The last ancestor of each file is the empty path, which
    fails to open. The directories hold the sums of the files below them,
    and each file holds its own length twice.
  */
  lemma ExampleTree()
    ensures var r := RunAll(Empty, [FileRecord(13, 100, [Opened(13), Opened(11), OpenFailed]),
                                    FileRecord(14, 200, [Opened(14), Opened(12), Opened(11), OpenFailed])]);
            r.searched == 2 && r.size == 300
            && r.sizes == map[11 := 300, 12 := 200, 13 := 200, 14 := 400]
  {
  }

  // ---------------------------------------------------------------------
  // The stateful scanner

  class Search {
    var sizes: Sizes
    var thread: ThreadState
    var root: string
    var searched: U64
    var size: U64

    /** The ledger and counters as one value. */
    function Totals(): Tally
      reads this
    {
      Tally(sizes, searched, size)
    }

    /** `Search::new`: an empty ledger, zero counters, no thread. */
    constructor (root: string)
      ensures this.root == root && thread == NotSpawned
      ensures Totals() == Empty
    {
      this.root := root;
      sizes := map[];
      thread := NotSpawned;
      searched := 0;
      size := 0;
    }

    /**
      `Search::go`: refuses when a thread handle already exists; otherwise
      records the new handle (the scan itself is `Scan`).
    */
    method Go() returns (r: Result<()>)
      modifies this`thread
      ensures old(thread) != NotSpawned ==> r == Err("Already running") && thread == old(thread)
      ensures old(thread) == NotSpawned ==> r == Ok(()) && thread == Running
    {
      if thread != NotSpawned {
        return Err("Already running");
      }
      thread := Running;
      r := Ok(());
    }

    /** `Search::is_finished`: true only for a spawned thread that has finished. */
    method IsFinished() returns (finished: bool)
      ensures finished <==> thread == Done
    {
      match thread
      case Done => finished := true;
      case _ => finished := false;
    }

    /** The per-file body run for each file the walk yields. */
    method Visit(f: FileRecord)
      modifies this`sizes, this`searched, this`size
      ensures Totals() == Step(old(Totals()), f)
    {
      searched := WrappingAdd(searched, 1);
      size := WrappingAdd(size, f.len);
      sizes := sizes[f.id := f.len];
      ghost var goal := Climb(sizes, f.ancestors, f.len);
      for i := 0 to |f.ancestors|
        invariant Climb(sizes, f.ancestors[i..], f.len) == goal
        invariant searched == WrappingAdd(old(searched), 1) && size == WrappingAdd(old(size), f.len)
      {
        if f.ancestors[i].OpenFailed? {
          assert f.ancestors[i..][0] == f.ancestors[i];
          assert Climb(sizes, f.ancestors[i..], f.len) == sizes;
          return;
        }
        var ino := f.ancestors[i].ino;
        ghost var before := sizes;
        // make sure the key exists
        if ino !in sizes {
          sizes := sizes[ino := 0];
        }
        // add the length; the key is present, so the lookup cannot fail
        sizes := sizes[ino := WrappingAdd(sizes[ino], f.len)];
        assert sizes == EnsureAndAdd(before, ino, f.len);
        assert f.ancestors[i..][1..] == f.ancestors[i + 1..];
      }
    }

    /**
      The body of the spawned thread: visit every file of the walk, in
      order, after which the handle reports finished.
    */
    method Scan(files: seq<FileRecord>)
      requires thread == Running
      modifies this`sizes, this`searched, this`size, this`thread
      ensures Totals() == RunAll(old(Totals()), files)
      ensures thread == Done
    {
      ghost var start := Totals();
      for i := 0 to |files|
        invariant Totals() == RunAll(start, files[..i])
      {
        Visit(files[i]);
        assert files[..i + 1][..i] == files[..i];
      }
      assert files[..|files|] == files;
      thread := Done;
    }
  }

  // ---------------------------------------------------------------------
  // Lifecycle as seen by a caller

  /** On a new search the first `go` succeeds and the second one fails. */
  method GoTwice(root: string) returns (first: Result<()>, second: Result<()>)
    ensures first == Ok(()) && second == Err("Already running")
  {
    var s := new Search(root);
    first := s.Go();
    second := s.Go();
  }

  /**
    A search reports finished neither before `go` nor while its thread
    runs, and does once the thread has visited every file, at which point
    its totals are those of the whole run from empty.
  */
  method Lifecycle(root: string, files: seq<FileRecord>)
    returns (beforeGo: bool, whileRunning: bool, afterScan: bool, again: Result<()>, totals: Tally)
    ensures !beforeGo && !whileRunning && afterScan
    ensures again == Err("Already running")
    ensures totals == RunAll(Empty, files)
  {
    var s := new Search(root);
    beforeGo := s.IsFinished();
    var started := s.Go();
    whileRunning := s.IsFinished();
    s.Scan(files);
    afterScan := s.IsFinished();
    again := s.Go();
    totals := s.Totals();
  }
}
