/**
  The size ledger of the scanner: a map from inode number to a cumulative byte
  count, and the per-file "ancestor climb" that adds a file's length into the
  entry of every ancestor path that can still be opened.

  Everything here is a value-level specification; the class `Engine.Search`
  performs the same updates in place and is proved equal to these functions.
*/
module Ledger {

  /** 2^64: the modulus of the `u64` / `AtomicU64` arithmetic of the scanner. */
  const WORD: int := 0x1_0000_0000_0000_0000

  /** An unsigned 64-bit integer (inode numbers, lengths, counters). */
  type U64 = x: int | 0 <= x < WORD

  /** `AtomicU64::fetch_add` wraps around on overflow. */
  function WrappingAdd(a: U64, b: U64): (r: U64)
    ensures a + b < WORD ==> r == a + b
    ensures a + b >= WORD ==> r == a + b - WORD
  {
    (a + b) % WORD
  }

  /**
    The outcome of `File::open` on one element of `path.ancestors()`: either
    the object opened and its metadata gave inode `ino`, or the open failed.
  */
  datatype Ancestor = Opened(ino: U64) | OpenFailed

  /** The ledger: inode number to cumulative size. */
  type Sizes = map<U64, U64>

  /** The value an `entry(k).or_insert(0)` would find for `k`. */
  function Entry(m: Sizes, k: U64): (v: U64)
    ensures k in m ==> v == m[k]
    ensures k !in m ==> v == 0
  {
    if k in m then m[k] else 0
  }

  /** How many leading ancestors open before the first one that fails. */
  function Reached(anc: seq<Ancestor>): (n: nat)
    ensures n <= |anc|
    ensures forall i :: 0 <= i < n ==> anc[i].Opened?
    ensures n < |anc| ==> anc[n].OpenFailed?
  {
    if anc == [] || anc[0].OpenFailed? then 0 else 1 + Reached(anc[1..])
  }

  /** The inodes the climb reaches (those before the first failure). */
  function ReachedIds(anc: seq<Ancestor>): set<U64>
  {
    set i | 0 <= i < Reached(anc) :: anc[i].ino
  }

  /** How many times the climb reaches inode `k`. */
  function Occurrences(anc: seq<Ancestor>, k: U64): nat
  {
    if anc == [] || anc[0].OpenFailed? then 0
    else (if anc[0].ino == k then 1 else 0) + Occurrences(anc[1..], k)
  }

  /** `len` bytes added `n` times. */
  function Times(len: nat, n: nat): nat
  {
    if n == 0 then 0 else Times(len, n - 1) + len
  }

  /** `v` after `n` wrapping additions of `len`. */
  function AddTimes(v: U64, len: U64, n: nat): U64
    decreases n
  {
    if n == 0 then v else AddTimes(WrappingAdd(v, len), len, n - 1)
  }

  /**
    One step of the climb: make sure a zero entry exists for `k`, then add
    `len` to it.
  */
  function EnsureAndAdd(m: Sizes, k: U64, len: U64): (r: Sizes)
    ensures r.Keys == m.Keys + {k}
    ensures r[k] == WrappingAdd(Entry(m, k), len)
    ensures forall j :: j in m && j != k ==> r[j] == m[j]
  {
    m[k := WrappingAdd(Entry(m, k), len)]
  }

  /**
    The ancestor climb of one file of length `len`: walk the ancestors in
    order, stop at the first one that fails to open, and add `len` to the
    entry of every one reached. No key is ever removed.
  */
  function Climb(m: Sizes, anc: seq<Ancestor>, len: U64): (r: Sizes)
    ensures m.Keys <= r.Keys
    decreases anc
  {
    if anc == [] then m
    else match anc[0]
      case OpenFailed => m
      case Opened(k) => Climb(EnsureAndAdd(m, k, len), anc[1..], len)
  }

  // ---------------------------------------------------------------------
  // Arithmetic modulo 2^64

  lemma {:induction false} ModShift(x: nat, q: nat)
    ensures (x + q * WORD) % WORD == x % WORD
  {
    if q > 0 {
      ModShift(x, q - 1);
      assert x + q * WORD == (x + (q - 1) * WORD) + WORD;
    }
  }

  /** Reducing a partial sum modulo 2^64 does not change the final sum. */
  lemma ModAddLeft(a: nat, b: nat)
    ensures (a % WORD + b) % WORD == (a + b) % WORD
  {
    var q := a / WORD;
    assert a == a % WORD + q * WORD;
    ModShift(a % WORD + b, q);
  }

  // ---------------------------------------------------------------------
  // Properties of the climb

  /** The inodes reached are the first ancestor's plus those reached from the second on. */
  lemma ReachedIdsStep(anc: seq<Ancestor>)
    requires anc != [] && anc[0].Opened?
    ensures ReachedIds(anc) == {anc[0].ino} + ReachedIds(anc[1..])
  {
    forall k | k in ReachedIds(anc)
      ensures k == anc[0].ino || k in ReachedIds(anc[1..])
    {
      var i :| 0 <= i < Reached(anc) && anc[i].ino == k;
      if i > 0 {
        assert anc[1..][i - 1] == anc[i];
      }
    }
    forall k | k in ReachedIds(anc[1..])
      ensures k in ReachedIds(anc)
    {
      var i :| 0 <= i < Reached(anc[1..]) && anc[1..][i].ino == k;
      assert anc[i + 1].ino == k;
    }
    assert 0 < Reached(anc);
  }

  /** The climb reaches `k` at least once exactly when `k` is a reached inode. */
  lemma {:induction false} OccurrencesPositive(anc: seq<Ancestor>, k: U64)
    ensures Occurrences(anc, k) > 0 <==> k in ReachedIds(anc)
  {
    if anc == [] || anc[0].OpenFailed? {
      assert ReachedIds(anc) == {};
    } else {
      OccurrencesPositive(anc[1..], k);
      ReachedIdsStep(anc);
    }
  }

  /**
    The keys after the climb are the keys before it plus every inode the
    climb reached.
  */
  lemma {:induction false} ClimbKeys(m: Sizes, anc: seq<Ancestor>, len: U64)
    ensures Climb(m, anc, len).Keys == m.Keys + ReachedIds(anc)
    decreases anc
  {
    if anc == [] || anc[0].OpenFailed? {
      assert ReachedIds(anc) == {};
    } else {
      ClimbKeys(EnsureAndAdd(m, anc[0].ino, len), anc[1..], len);
      ReachedIdsStep(anc);
    }
  }

  /**
    Every entry ends at its old value (zero if absent) after one wrapping
    addition of `len` for each time the climb reaches it.
  */
  lemma {:induction false} ClimbEntry(m: Sizes, anc: seq<Ancestor>, len: U64, k: U64)
    ensures Entry(Climb(m, anc, len), k) == AddTimes(Entry(m, k), len, Occurrences(anc, k))
    decreases anc
  {
    if anc != [] && anc[0].Opened? {
      var m' := EnsureAndAdd(m, anc[0].ino, len);
      ClimbEntry(m', anc[1..], len, k);
      if anc[0].ino != k {
        assert Entry(m', k) == Entry(m, k);
      }
    }
  }

  /** The closed form of `AddTimes`: one addition of `len * n`, modulo 2^64. */
  lemma {:induction false} AddTimesClosed(v: U64, len: U64, n: nat)
    ensures AddTimes(v, len, n) == (v + Times(len, n)) % WORD
    decreases n
  {
    if n == 0 {
      SmallMod(v);
    } else {
      AddTimesClosed(WrappingAdd(v, len), len, n - 1);
      TimesFront(len, n);
      WrapStep(v, len, Times(len, n - 1), WrappingAdd(v, len), AddTimes(v, len, n));
    }
  }

  lemma {:induction false} TimesFront(len: nat, n: nat)
    requires n > 0
    ensures Times(len, n) == Times(len, n - 1) + len
  {
  }

  /** Adding `len` after a wrap and then `t` is adding `t + len`. */
  lemma WrapStep(before: nat, len: nat, t: nat, mid: int, last: int)
    requires mid == (before + len) % WORD
    requires last == (mid + t) % WORD
    ensures last == (before + (t + len)) % WORD
  {
    ModAddLeft(before + len, t);
  }

  lemma SmallMod(x: U64)
    ensures x % WORD == x
  {
  }

  /** Adding `len` `n` times is adding `len * n`. */
  lemma {:induction false} TimesIsProduct(len: nat, n: nat)
    ensures Times(len, n) == len * n
  {
    if n > 0 {
      TimesIsProduct(len, n - 1);
      assert len * n == len * (n - 1) + len;
    }
  }

  /**
    Entries the climb does not reach keep their value: only the reached
    ancestors change.
  */
  lemma ClimbFrame(m: Sizes, anc: seq<Ancestor>, len: U64, k: U64)
    requires k in m && k !in ReachedIds(anc)
    ensures k in Climb(m, anc, len) && Climb(m, anc, len)[k] == m[k]
  {
    ClimbEntry(m, anc, len, k);
    OccurrencesPositive(anc, k);
  }

  /**
    The climb stops at the first ancestor that fails to open: the updates
    made for the ancestors before it stay, and nothing after it is touched.
  */
  lemma {:induction false} ClimbStopsAtFailure(m: Sizes, done: seq<Ancestor>, rest: seq<Ancestor>, len: U64)
    requires forall i :: 0 <= i < |done| ==> done[i].Opened?
    ensures Climb(m, done + [OpenFailed] + rest, len) == Climb(m, done, len)
    decreases done
  {
    var anc := done + [OpenFailed] + rest;
    if done == [] {
      assert anc[0] == OpenFailed;
    } else {
      assert anc[1..] == done[1..] + [OpenFailed] + rest;
      ClimbStopsAtFailure(EnsureAndAdd(m, done[0].ino, len), done[1..], rest, len);
    }
  }
}
