/**
  The whole-database walk of an `rpmdb` object: `db.firstkey()` and
  `db.nextkey(k)`. The object keeps the list of record offsets (filled by
  one full scan the first time it is needed, and kept from then on) and a
  position into it.

  The offsets a full scan of the package index would yield are an input:
  what rpmlib's iterator returns is not part of this model.
 */
module DbCursor {
  import opened PyObjects

  /** The cursor fields of `rpmdbObject`: `offsets[0..noffs)` and `offx`. An empty list stands for NULL. */
  datatype DbState = DbState(offsets: seq<int>, offx: int)

  /** What `rpmOpenDB` sets up: no cache, position 0. */
  const Opened: DbState := DbState([], 0)

  /** The position never runs past the cached list. */
  predicate Valid(st: DbState)
  {
    0 <= st.offx <= |st.offsets|
  }

  /** A call's effect on the object and what Python receives. */
  datatype Step = Step(db: DbState, result: Outcome<PyValue>)

  const NoFirstEntry: PyError := RpmError("cannot find first entry in database\n")

  /**
    `db.firstkey()`, with `scan` the offsets a full scan would produce now.
    The scan is used only when nothing is cached.
   */
  function FirstKey(st: DbState, scan: seq<int>): (s: Step)
    ensures Valid(s.db)
    ensures |st.offsets| > 0 ==> s.db.offsets == st.offsets
    ensures |st.offsets| == 0 ==> s.db.offsets == scan
    ensures s.db.offx == if |s.db.offsets| > 0 then 1 else 0
    ensures s.result.Ok? <==> |s.db.offsets| > 0 && s.db.offsets[0] != 0
    ensures s.result.Ok? ==> s.result.value == PyInt(s.db.offsets[0])
    ensures !s.result.Ok? ==> s.result == Raise(NoFirstEntry)
  {
    var offsets := if |st.offsets| == 0 then scan else st.offsets;
    var first := if |offsets| > 0 then offsets[0] else 0;
    var db := DbState(offsets, if |offsets| > 0 then 1 else 0);
    if first == 0 then Step(db, Raise(NoFirstEntry)) else Step(db, Ok(PyInt(first)))
  }

  /**
    `db.nextkey(where)`: the argument is parsed and then ignored. A 0 offset
    reads as `None` but still advances the position.
   */
  function NextKey(st: DbState, where: int): (s: Step)
    requires Valid(st)
    ensures Valid(s.db) && s.db.offsets == st.offsets
    ensures st.offx == |st.offsets| ==> s == Step(st, Ok(PyNone))
    ensures st.offx < |st.offsets| ==> s.db.offx == st.offx + 1
    ensures st.offx < |st.offsets| && st.offsets[st.offx] != 0 ==>
              s.result == Ok(PyInt(st.offsets[st.offx]))
    ensures st.offx < |st.offsets| && st.offsets[st.offx] == 0 ==> s.result == Ok(PyNone)
  {
    if |st.offsets| == 0 || st.offx >= |st.offsets| then Step(st, Ok(PyNone))
    else
      var here := st.offsets[st.offx];
      var db := st.(offx := st.offx + 1);
      if here == 0 then Step(db, Ok(PyNone)) else Step(db, Ok(PyInt(here)))
  }

  /** `nextkey` does not look at its argument. */
  lemma NextKeyIgnoresArgument(st: DbState, w1: int, w2: int)
    requires Valid(st)
    ensures NextKey(st, w1) == NextKey(st, w2)
  {
  }

  /** What `n` successive `nextkey` calls return, and the state they leave. */
  function Walk(st: DbState, n: nat): (r: (seq<PyValue>, DbState))
    requires Valid(st)
    ensures |r.0| == n && Valid(r.1) && r.1.offsets == st.offsets
    decreases n
  {
    if n == 0 then ([], st)
    else
      var s := NextKey(st, 0);
      var v := if s.result.Ok? then s.result.value else PyNone;
      var rest := Walk(s.db, n - 1);
      ([v] + rest.0, rest.1)
  }

  /** The offsets from position `from` on, as the Python integers `nextkey` returns. */
  function AsInts(offsets: seq<int>, from: nat, n: nat): (r: seq<PyValue>)
    requires from + n <= |offsets|
    ensures |r| == n
    ensures forall k :: 0 <= k < n ==> r[k] == PyInt(offsets[from + k])
  {
    seq(n, k requires 0 <= k < n => PyInt(offsets[from + k]))
  }

  /**
    Over a stretch of non-zero offsets, `n` calls of `nextkey` return the
    next `n` offsets in order and move the position by `n`.
   */
  lemma {:induction false} WalkReturnsOffsets(st: DbState, n: nat)
    requires Valid(st) && st.offx + n <= |st.offsets|
    requires forall k :: st.offx <= k < st.offx + n ==> st.offsets[k] != 0
    ensures Walk(st, n).0 == AsInts(st.offsets, st.offx, n)
    ensures Walk(st, n).1.offx == st.offx + n
    decreases n
  {
    if n > 0 {
      var s := NextKey(st, 0);
      WalkReturnsOffsets(s.db, n - 1);
      assert Walk(st, n).0 == [PyInt(st.offsets[st.offx])] + Walk(s.db, n - 1).0;
    }
  }

  /** Once the list is exhausted `nextkey` returns `None` for good and changes nothing. */
  lemma {:induction false} ExhaustedStaysExhausted(st: DbState, n: nat)
    requires Valid(st) && st.offx == |st.offsets|
    ensures Walk(st, n).1 == st
    ensures forall k :: 0 <= k < n ==> Walk(st, n).0[k] == PyNone
    decreases n
  {
    if n > 0 {
      ExhaustedStaysExhausted(st, n - 1);
      assert Walk(st, n).0 == [PyNone] + Walk(st, n - 1).0;
    }
  }

  /**
    A full enumeration from a freshly opened database whose scan finds only
    non-zero offsets: `firstkey` returns the first offset, the following
    `nextkey` calls return the rest in scan order, and the next call returns
    `None`.
   */
  lemma FullEnumeration(scan: seq<int>)
    requires |scan| > 0 && forall k :: 0 <= k < |scan| ==> scan[k] != 0
    ensures FirstKey(Opened, scan).result == Ok(PyInt(scan[0]))
    ensures Walk(FirstKey(Opened, scan).db, |scan| - 1).0 == AsInts(scan, 1, |scan| - 1)
    ensures NextKey(Walk(FirstKey(Opened, scan).db, |scan| - 1).1, 0).result == Ok(PyNone)
  {
    var st := FirstKey(Opened, scan).db;
    assert st == DbState(scan, 1);
    WalkReturnsOffsets(st, |scan| - 1);
    var end := Walk(st, |scan| - 1).1;
    assert end.offsets == scan && end.offx == |scan|;
  }

  /**
    A second walk re-serves the cached offsets: whatever a new scan would
    find, `firstkey` on a database with a non-empty cache keeps the list the
    first walk used and starts again from its head.
   */
  lemma RewalkUsesCache(st: DbState, scan1: seq<int>, scan2: seq<int>, n: nat)
    requires |FirstKey(st, scan1).db.offsets| > 0
    ensures FirstKey(Walk(FirstKey(st, scan1).db, n).1, scan2) == FirstKey(st, scan1)
  {
  }

  /** A 0 offset ends a walk only for one call: the entry after it is still returned. */
  lemma ZeroOffsetIsNotTheEnd(st: DbState)
    requires Valid(st) && st.offx + 1 < |st.offsets|
    requires st.offsets[st.offx] == 0 && st.offsets[st.offx + 1] != 0
    ensures NextKey(st, 0).result == Ok(PyNone)
    ensures NextKey(NextKey(st, 0).db, 0).result == Ok(PyInt(st.offsets[st.offx + 1]))
  {
  }
}
