/** Log rotation by renaming, over any pattern of missing files. Index 0 is the
    active file and index `k` the backup `.k`; a higher index is older. */
module Rotation {
  import opened Seqs

  type Files<F> = map<nat, F>

  function At<F>(fs: Files<F>, k: nat): Option<F> {
    if k in fs then Some(fs[k]) else None
  }

  /** `rename(src, dst)`: replaces `dst`, and fails without effect when `src` is missing. */
  function Rename<F>(fs: Files<F>, src: nat, dst: nat): Files<F> {
    if src in fs then (fs - {src})[dst := fs[src]] else fs
  }

  /** The renames `i-1 -> i` for `i` from `n` down to 1. */
  function ShiftDown<F>(fs: Files<F>, n: nat): Files<F>
    decreases n
  {
    if n == 0 then fs else ShiftDown(Rename(fs, n - 1, n), n - 1)
  }

  /** The entries of one file under a line decoder; a missing file has none. */
  function EntriesAt<F, E>(fs: Files<F>, decode: F -> seq<E>, k: nat): seq<E> {
    if k in fs then decode(fs[k]) else []
  }

  /** The chronological content of the backups `n .. 1` followed by the active file. */
  function Chronicle<F, E>(fs: Files<F>, decode: F -> seq<E>, n: nat): seq<E> {
    if n == 0 then EntriesAt(fs, decode, 0)
    else EntriesAt(fs, decode, n) + Chronicle(fs, decode, n - 1)
  }

  /** Audit rotation: every file moves up by one; the oldest slot is
      overwritten only when there is a file to move into it. */
  lemma {:induction false} ShiftDownAt<F>(fs: Files<F>, n: nat, k: nat)
    ensures At(ShiftDown(fs, n), k) ==
            if n == 0 || k > n then At(fs, k)
            else if k == 0 then None
            else if k == n && n - 1 !in fs then At(fs, n)
            else At(fs, k - 1)
    decreases n
  {
    if n > 0 {
      ShiftDownAt(Rename(fs, n - 1, n), n - 1, k);
    }
  }

  /** The first `done` of the renames `i-1 -> i`, for `i` from `n` down. */
  function ShiftSome<F>(fs: Files<F>, n: nat, done: nat): Files<F>
    decreases n
  {
    if n == 0 || done == 0 then fs else ShiftSome(Rename(fs, n - 1, n), n - 1, done - 1)
  }

  lemma {:induction false} ShiftSomeIsAll<F>(fs: Files<F>, n: nat, done: nat)
    requires done >= n
    ensures ShiftSome(fs, n, done) == ShiftDown(fs, n)
    decreases n
  {
    if n > 0 { ShiftSomeIsAll(Rename(fs, n - 1, n), n - 1, done - 1); }
  }

  /** Older slots are not touched, and neither is the active file before the last rename. */
  lemma {:induction false} ShiftSomeFrame<F>(fs: Files<F>, n: nat, done: nat, k: nat)
    requires k > n || (k == 0 && done < n)
    ensures At(ShiftSome(fs, n, done), k) == At(fs, k)
    decreases n
  {
    if n > 0 && done > 0 { ShiftSomeFrame(Rename(fs, n - 1, n), n - 1, done - 1, k); }
  }

  lemma RenameChronicle<F, E>(fs: Files<F>, decode: F -> seq<E>, n: nat)
    requires n >= 1
    ensures Chronicle(fs, decode, n) ==
            (if n - 1 in fs then EntriesAt(fs, decode, n) else []) + Chronicle(Rename(fs, n - 1, n), decode, n)
  {
    var fs' := Rename(fs, n - 1, n);
    if n - 1 in fs {
      var oldest, moved := EntriesAt(fs, decode, n), EntriesAt(fs, decode, n - 1);
      assert EntriesAt(fs', decode, n) == moved && EntriesAt(fs', decode, n - 1) == [];
      if n == 1 {
        assert Chronicle(fs', decode, 1) == moved + [];
      } else {
        var rest := Chronicle(fs, decode, n - 2);
        SameBelow(fs, fs', decode, n - 2);
        assert Chronicle(fs, decode, n - 1) == moved + rest;
        assert Chronicle(fs', decode, n - 1) == [] + rest;
        assert oldest + (moved + rest) == oldest + (moved + ([] + rest));
      }
    } else {
      assert [] + Chronicle(fs, decode, n) == Chronicle(fs, decode, n);
    }
  }

  lemma {:induction false} SameBelow<F, E>(fs: Files<F>, fs': Files<F>, decode: F -> seq<E>, n: nat)
    requires forall k: nat :: k <= n ==> At(fs', k) == At(fs, k)
    ensures Chronicle(fs', decode, n) == Chronicle(fs, decode, n)
  {
    assert At(fs', n) == At(fs, n);
    if n > 0 { SameBelow(fs, fs', decode, n - 1); }
  }

  /** Stopped after any number of renames, the rotation keeps the chronicle,
      except that the oldest backup is dropped exactly when a rename happened
      and the backup before it exists. */
  lemma {:induction false} ShiftSomeHistory<F, E>(fs: Files<F>, decode: F -> seq<E>, n: nat, done: nat)
    requires n >= 1
    ensures Chronicle(fs, decode, n) ==
            (if done >= 1 && n - 1 in fs then EntriesAt(fs, decode, n) else [])
            + Chronicle(ShiftSome(fs, n, done), decode, n)
    decreases n
  {
    if done == 0 {
      assert [] + Chronicle(fs, decode, n) == Chronicle(fs, decode, n);
    } else {
      var fs1 := Rename(fs, n - 1, n);
      RenameChronicle(fs, decode, n);
      if n >= 2 {
        ShiftSomeHistory(fs1, decode, n - 1, done - 1);
        ShiftSomeFrame(fs1, n - 1, done - 1, n);
        assert EntriesAt(fs1, decode, n - 1) == [];
        var r := ShiftSome(fs1, n - 1, done - 1);
        assert [] + Chronicle(r, decode, n - 1) == Chronicle(r, decode, n - 1);
        assert At(r, n) == At(fs1, n);
      }
    }
  }

  /** Audit rotation keeps the chronicle, except that the oldest backup is
      dropped exactly when the one before it exists. */
  lemma ShiftDownHistory<F, E>(fs: Files<F>, decode: F -> seq<E>, n: nat)
    requires n >= 1
    ensures Chronicle(fs, decode, n) ==
            (if n - 1 in fs then EntriesAt(fs, decode, n) else []) + Chronicle(ShiftDown(fs, n), decode, n)
  {
    ShiftSomeHistory(fs, decode, n, n);
    ShiftSomeIsAll(fs, n, n);
  }

  /** Dispatch rotation: delete `.n`, shift `.i` to `.i+1` downwards, then the
      active file to `.1`. */
  function DispatchRotated<F>(fs: Files<F>, n: nat): Files<F> {
    ShiftDown(fs - {n}, n)
  }

  /** Dispatch rotation is an exact shift by one: backup `n` is lost, nothing else is. */
  lemma DispatchShiftAt<F>(fs: Files<F>, n: nat, k: nat)
    requires n >= 1
    ensures At(DispatchRotated(fs, n), k) ==
            if k > n then At(fs, k) else if k == 0 then None else At(fs, k - 1)
  {
    ShiftDownAt(fs - {n}, n, k);
  }

  lemma DispatchHistory<F, E>(fs: Files<F>, decode: F -> seq<E>, n: nat)
    requires n >= 1
    ensures Chronicle(fs, decode, n) ==
            EntriesAt(fs, decode, n) + Chronicle(DispatchRotated(fs, n), decode, n)
  {
    var fs' := fs - {n};
    SameBelow(fs, fs', decode, n - 1);
    MissingOldest(fs', decode, n);
    ShiftDownHistory(fs', decode, n);
    NothingDropped(EntriesAt(fs', decode, n), Chronicle(DispatchRotated(fs, n), decode, n));
  }

  lemma MissingOldest<F, E>(fs: Files<F>, decode: F -> seq<E>, n: nat)
    requires n >= 1 && n !in fs
    ensures Chronicle(fs, decode, n) == Chronicle(fs, decode, n - 1)
  {
    NothingDropped(EntriesAt(fs, decode, n), Chronicle(fs, decode, n - 1));
  }

  lemma NothingDropped<E>(dropped: seq<E>, c: seq<E>)
    requires dropped == []
    ensures dropped + c == c && [] + c == c
  {
  }

  /** The descending rename loop of the audit log. */
  method RotateAudit<F>(fs: Files<F>, n: nat) returns (r: Files<F>)
    ensures r == ShiftDown(fs, n)
  {
    r := fs;
    var i := n;
    while i > 0
      invariant 0 <= i <= n
      invariant ShiftDown(r, i) == ShiftDown(fs, n)
    {
      r := Rename(r, i - 1, i);
      i := i - 1;
    }
  }

  /** The dispatch logger's rotation, with its explicit delete and final rename. */
  method RotateDispatch<F>(fs: Files<F>, size: F -> nat, maxBytes: nat, maxCount: nat) returns (r: Files<F>)
    requires maxCount >= 1
    ensures r == if 0 in fs && size(fs[0]) > maxBytes then DispatchRotated(fs, maxCount) else fs
  {
    if 0 !in fs || size(fs[0]) <= maxBytes {
      return fs;
    }
    r := fs - {maxCount};
    var i := maxCount - 1;
    while i > 0
      invariant 0 <= i < maxCount
      invariant ShiftDown(r, i + 1) == ShiftDown(fs - {maxCount}, maxCount)
    {
      r := Rename(r, i, i + 1);
      i := i - 1;
    }
    r := Rename(r, 0, 1);
  }
}
