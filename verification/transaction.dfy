/**
  The transaction object: `ts.add(h, key, how)`, `ts.remove(name)`,
  `ts.depcheck()`, the C callback `tsCallback` that relays rpmlib's events
  to the user's Python callable, and `ts.run(flags, ignoreSet, cb, data)`.

  rpmlib's transaction set is seen only through what the binding queues on
  it, so the model's state is that queue, the list of keys kept alive for
  the transaction, and whether the object was created with a database.
  The label lookup, the dependency check, the events rpmlib raises during a
  run with the answer the Python callable gives to each, and the run's
  return code and problem set are all inputs.
 */
module Transaction {
  import opened CStrings
  import opened PyObjects
  import opened RpmTags

  /** The header an `rpm.hdr` object wraps, identified by its address. */
  datatype HeaderRef = HeaderRef(address: nat)

  /** One operation queued on rpmlib's transaction set. */
  datatype Op =
    | Install(hdr: HeaderRef, key: PyValue, upgrade: bool)   // rpmtransAddPackage
    | Available(hdr: HeaderRef, key: PyValue)                // rpmtransAvailablePackage
    | Erase(offset: nat)                                     // rpmtransRemovePackage

  /** `rpmtransObject`: a database or none, the queued operations, and `keyList`. */
  datatype TransState = TransState(hasDb: bool, queue: seq<Op>, keyList: seq<PyValue>)

  /** The optional database argument: absent, an `rpm.rpmdb` object, or any other object. */
  datatype DbArg = NoDbArg | DbObject | NotADb

  const BadDatabase: PyError := TypeError("bad type for database argument")

  /**
    `rpm.TransactionSet(root, db)`: any object other than an `rpm.rpmdb`
    is refused; otherwise nothing is queued, no key is held, and the
    transaction has a database exactly when one was passed.
   */
  function Create(db: DbArg): (r: Outcome<TransState>)
    ensures db.NotADb? <==> r == Raise(BadDatabase)
    ensures !db.NotADb? ==> r.Ok? && r.value.queue == [] && r.value.keyList == []
    ensures r.Ok? ==> r.value.hasDb == db.DbObject?
    ensures r.Ok? ==> KeysRetained(r.value)
  {
    if db.NotADb? then Raise(BadDatabase)
    else Ok(TransState(db.DbObject?, [], []))
  }

  /** A call's effect on the transaction and what Python receives. */
  datatype Reply = Reply(ts: TransState, result: Outcome<PyValue>)

  /** The object passed as the header argument: a header object, or anything else. */
  datatype HeaderArg = HeaderObject(h: HeaderRef) | NotAHeader

  // ---------------------------------------------------------------------
  // The keys kept alive for the transaction

  /** The keys of the install and available operations, in queue order. */
  function AddedKeys(q: seq<Op>): (r: seq<PyValue>)
    ensures |r| <= |q|
  {
    if |q| == 0 then []
    else (if q[0].Erase? then [] else [q[0].key]) + AddedKeys(q[1..])
  }

  lemma {:induction false} AddedKeysAppend(q1: seq<Op>, q2: seq<Op>)
    ensures AddedKeys(q1 + q2) == AddedKeys(q1) + AddedKeys(q2)
  {
    if |q1| > 0 {
      AddedKeysAppend(q1[1..], q2);
      assert (q1 + q2)[1..] == q1[1..] + q2;
    } else {
      assert q1 + q2 == q2;
    }
  }

  /** Every key handed to rpmlib with a queued package is held, in the same order. */
  predicate KeysRetained(t: TransState)
  {
    t.keyList == AddedKeys(t.queue)
  }

  // ---------------------------------------------------------------------
  // ts.add

  const BadHeader: PyError := TypeError("bad type for header argument")
  const BadHow: PyError := TypeError("how argument must be \"u\", \"a\", or \"i\"")

  /** The optional `how` argument is present and spells `mode` as a C string. */
  predicate IsMode(how: Option<string>, mode: string)
  {
    how.Some? && StrCmp(how.value, mode) == 0
  }

  predicate HowAccepted(how: Option<string>)
  {
    how.None? || IsMode(how, "a") || IsMode(how, "u") || IsMode(how, "i")
  }

  /**
    `ts.add(h, key, how)`. The argument parser never yields a NULL key, so
    the key (even `None`) is always appended to `keyList`.
   */
  function Add(t: TransState, hdr: HeaderArg, key: PyValue, how: Option<string>): (r: Reply)
    ensures hdr.NotAHeader? ==> r == Reply(t, Raise(BadHeader))
    ensures hdr.HeaderObject? && !HowAccepted(how) ==> r == Reply(t, Raise(BadHow))
    ensures hdr.HeaderObject? && HowAccepted(how) ==>
              && r.result == Ok(PyNone)
              && r.ts.hasDb == t.hasDb
              && r.ts.keyList == t.keyList + [key]
              && |r.ts.queue| == |t.queue| + 1 && r.ts.queue[..|t.queue|] == t.queue
              && !r.ts.queue[|t.queue|].Erase?
              && r.ts.queue[|t.queue|].key == key && r.ts.queue[|t.queue|].hdr == hdr.h
    ensures hdr.HeaderObject? && IsMode(how, "a") ==> r.ts.queue[|t.queue|].Available?
    ensures hdr.HeaderObject? && IsMode(how, "u") ==> r.ts.queue[|t.queue|] == Install(hdr.h, key, true)
    ensures hdr.HeaderObject? && (how.None? || IsMode(how, "i")) ==>
              r.ts.queue[|t.queue|] == Install(hdr.h, key, false)
    ensures KeysRetained(t) ==> KeysRetained(r.ts)
  {
    if hdr.NotAHeader? then Reply(t, Raise(BadHeader))
    else if how.Some? && !IsMode(how, "a") && !IsMode(how, "u") && !IsMode(how, "i") then
      Reply(t, Raise(BadHow))
    else
      var op := if IsMode(how, "a") then Available(hdr.h, key) else Install(hdr.h, key, IsMode(how, "u"));
      AddedKeysAppend(t.queue, [op]);
      assert AddedKeys([op]) == [key];
      Reply(TransState(t.hasDb, t.queue + [op], t.keyList + [key]), Ok(PyNone))
  }

  // ---------------------------------------------------------------------
  // ts.remove

  /** What a label lookup of the database reports: its match count and the offsets iteration yields. */
  datatype LabelMatch = LabelMatch(count: int, offsets: seq<nat>)

  /** One erase per non-zero offset, in iteration order. */
  function Erasures(offsets: seq<nat>): (r: seq<Op>)
    ensures |r| <= |offsets|
    ensures forall i :: 0 <= i < |r| ==> r[i].Erase? && r[i].offset != 0 && r[i].offset in offsets
    ensures forall o :: o in offsets && o != 0 ==> Erase(o) in r
    ensures AddedKeys(r) == []
  {
    if |offsets| == 0 then []
    else
      var rest := Erasures(offsets[1..]);
      assert forall o :: o in offsets && o != offsets[0] ==> o in offsets[1..];
      if offsets[0] != 0 then
        AddedKeysAppend([Erase(offsets[0])], rest);
        [Erase(offsets[0])] + rest
      else rest
  }

  /** When no offset is 0, every match becomes one erase: all installed versions go, in order. */
  lemma {:induction false} ErasuresOfNonZero(offsets: seq<nat>)
    requires forall i :: 0 <= i < |offsets| ==> offsets[i] != 0
    ensures |Erasures(offsets)| == |offsets|
    ensures forall i :: 0 <= i < |offsets| ==> Erasures(offsets)[i] == Erase(offsets[i])
  {
    if |offsets| > 0 {
      ErasuresOfNonZero(offsets[1..]);
    }
  }

  /** Erasures of a concatenation are the concatenated erasures. */
  lemma {:induction false} ErasuresAppend(a: seq<nat>, b: seq<nat>)
    ensures Erasures(a + b) == Erasures(a) + Erasures(b)
  {
    if |a| > 0 {
      assert (a + b)[0] == a[0];
      assert (a + b)[1..] == a[1..] + b;
      ErasuresAppend(a[1..], b);
    } else {
      assert a + b == b;
    }
  }

  /** One offset: an erase when it is non-zero, nothing when it is 0. */
  lemma ErasuresSingleton(o: nat)
    ensures Erasures([o]) == if o == 0 then [] else [Erase(o)]
  {
  }

  const NotInstalled: PyError := RpmError("package not installed")
  /** The error this model raises for a transaction created without a database. */
  const NoDatabase: PyError := RpmError("transaction has no database")

  /**
    `ts.remove(name)`, with `lookup` the database's label index. A match
    count of 0 or less raises "package not installed" and queues nothing;
    otherwise every matched record with a non-zero offset is queued for
    erasure. A transaction without a database raises instead of reading
    through its missing database object (see `RemoveAsWritten`).
   */
  function Remove(t: TransState, name: string, lookup: string -> LabelMatch): (r: Reply)
    ensures !t.hasDb ==> r == Reply(t, Raise(NoDatabase))
    ensures t.hasDb && lookup(name).count <= 0 ==> r == Reply(t, Raise(NotInstalled))
    ensures t.hasDb && lookup(name).count > 0 ==>
              && r.result == Ok(PyNone)
              && r.ts.keyList == t.keyList && r.ts.hasDb
              && r.ts.queue == t.queue + Erasures(lookup(name).offsets)
    ensures KeysRetained(t) ==> KeysRetained(r.ts)
  {
    if !t.hasDb then Reply(t, Raise(NoDatabase))
    else
      var m := lookup(name);
      if m.count <= 0 then Reply(t, Raise(NotInstalled))
      else
        var erasures := Erasures(m.offsets);
        AddedKeysAppend(t.queue, erasures);
        Reply(t.(queue := t.queue + erasures), Ok(PyNone))
  }

  /**
    `ts.remove` as written: it reads `s->dbo->db` unconditionally, and
    `dbo` is NULL for a transaction created without a database, so
    `rpm.TransactionSet("/").remove("foo")` dereferences NULL.
   */
  function RemoveAsWritten(t: TransState, name: string, lookup: string -> LabelMatch): (r: Reply)
    ensures !t.hasDb <==> r.result.Undefined?
    ensures t.hasDb ==> r == Remove(t, name, lookup)
  {
    if !t.hasDb then Reply(t, Undefined("NULL database object dereferenced"))
    else Remove(t, name, lookup)
  }

  // ---------------------------------------------------------------------
  // A sequence of add and remove calls

  /** One `ts.add` or `ts.remove` call with its arguments. */
  datatype Request =
    | AddRequest(hdr: HeaderArg, key: PyValue, how: Option<string>)
    | RemoveRequest(name: string)

  /** The transaction after the calls in order; a call that raises leaves it as it was. */
  function Session(t: TransState, reqs: seq<Request>, lookup: string -> LabelMatch): (r: TransState)
    ensures r.hasDb == t.hasDb
    ensures |r.queue| >= |t.queue| && r.queue[..|t.queue|] == t.queue
    decreases |reqs|
  {
    if |reqs| == 0 then t
    else
      var next := match reqs[0]
        case AddRequest(h, k, how) => Add(t, h, k, how).ts
        case RemoveRequest(name) => Remove(t, name, lookup).ts;
      Session(next, reqs[1..], lookup)
  }

  /**
    From a freshly created transaction, any sequence of add and remove calls
    leaves `keyList` holding exactly the keys of the queued packages, so no
    key rpmlib will hand to the run callback has been released.
   */
  lemma {:induction false} SessionKeepsKeys(db: DbArg, reqs: seq<Request>, lookup: string -> LabelMatch)
    requires !db.NotADb?
    ensures KeysRetained(Session(Create(db).value, reqs, lookup))
  {
    KeysRetainedPreserved(Create(db).value, reqs, lookup);
  }

  lemma {:induction false} KeysRetainedPreserved(t: TransState, reqs: seq<Request>, lookup: string -> LabelMatch)
    requires KeysRetained(t)
    ensures KeysRetained(Session(t, reqs, lookup))
    decreases |reqs|
  {
    if |reqs| > 0 {
      var next := match reqs[0]
        case AddRequest(h, k, how) => Add(t, h, k, how).ts
        case RemoveRequest(name) => Remove(t, name, lookup).ts;
      KeysRetainedPreserved(next, reqs[1..], lookup);
    }
  }

  // ---------------------------------------------------------------------
  // ts.depcheck

  /** One `struct rpmDependencyConflict`; `sense` tells a requirement from a conflict. */
  datatype Conflict = Conflict(
    byName: string, byVersion: string, byRelease: string,
    needsName: string, needsVersion: string, needsFlags: int,
    suggested: Option<PyValue>, sense: int)

  function ConflictTuple(c: Conflict): PyValue
  {
    PyTuple([
      PyTuple([PyStr(c.byName), PyStr(c.byVersion), PyStr(c.byRelease)]),
      PyTuple([PyStr(c.needsName), PyStr(c.needsVersion)]),
      PyInt(c.needsFlags),
      if c.suggested.Some? then c.suggested.value else PyNone,
      PyInt(c.sense)])
  }

  /** The strings of a tuple of `n` strings, or None for any other value. */
  function StrsOf(v: PyValue, n: nat): (r: Option<seq<string>>)
    ensures r.Some? ==> |r.value| == n && v == PyTuple(seq(n, i requires 0 <= i < n => PyStr(r.value[i])))
  {
    if v.PyTuple? && |v.items| == n && forall i :: 0 <= i < n ==> v.items[i].PyStr? then
      Some(seq(n, i requires 0 <= i < n => v.items[i].s))
    else None
  }

  /**
    Reading a depcheck tuple back: `((name, version, release), (needsName,
    needsVersion), needsFlags, suggested, sense)`. A `None` in the suggested
    slot reads back as no suggestion.
   */
  function ConflictOf(v: PyValue): (r: Option<Conflict>)
    ensures r.Some? ==> ConflictTuple(r.value) == v
  {
    if v.PyTuple? && |v.items| == 5 && v.items[2].PyInt? && v.items[4].PyInt? then
      var owner := StrsOf(v.items[0], 3);
      var needs := StrsOf(v.items[1], 2);
      if owner.Some? && needs.Some? then
        var c := Conflict(owner.value[0], owner.value[1], owner.value[2], needs.value[0], needs.value[1],
                          v.items[2].i, if v.items[3].PyNone? then None else Some(v.items[3]), v.items[4].i);
        assert v.items[0] == PyTuple([PyStr(owner.value[0]), PyStr(owner.value[1]), PyStr(owner.value[2])]);
        assert v.items[1] == PyTuple([PyStr(needs.value[0]), PyStr(needs.value[1])]);
        assert ConflictTuple(c).items == v.items;
        Some(c)
      else None
    else None
  }

  /** Every field of a conflict reads back out of its tuple; a suggestion of `None` is no suggestion. */
  lemma ConflictReadBack(c: Conflict)
    ensures ConflictOf(ConflictTuple(c)) == Some(c.(suggested := if c.suggested == Some(PyNone) then None else c.suggested))
  {
  }

  /** `ts.depcheck()` on the conflicts rpmlib's dependency check reported. */
  function DepCheck(conflicts: seq<Conflict>): (r: Outcome<PyValue>)
    ensures r.Ok?
    ensures |conflicts| == 0 <==> r.value == PyNone
    ensures |conflicts| > 0 ==> r.value.PyList? && |r.value.items| == |conflicts|
    ensures |conflicts| > 0 ==> forall i :: 0 <= i < |conflicts| ==>
              r.value.items[i] == ConflictTuple(conflicts[i])
  {
    if |conflicts| == 0 then Ok(PyNone)
    else Ok(PyList(seq(|conflicts|, i requires 0 <= i < |conflicts| => ConflictTuple(conflicts[i]))))
  }

  /** Each entry of `ts.depcheck()`'s list reads back as the conflict it reports, in order. */
  lemma DepCheckReadBack(conflicts: seq<Conflict>)
    requires |conflicts| > 0
    ensures forall i :: 0 <= i < |conflicts| ==>
              ConflictOf(DepCheck(conflicts).value.items[i]) ==
              Some(conflicts[i].(suggested := if conflicts[i].suggested == Some(PyNone) then None else conflicts[i].suggested))
  {
    forall i | 0 <= i < |conflicts|
      ensures ConflictOf(DepCheck(conflicts).value.items[i]) ==
              Some(conflicts[i].(suggested := if conflicts[i].suggested == Some(PyNone) then None else conflicts[i].suggested))
    {
      ConflictReadBack(conflicts[i]);
    }
  }

  // ---------------------------------------------------------------------
  // The run callback

  /** One callback invocation by rpmlib: event kind, progress, and the package's key (NULL for none). */
  datatype CbEvent = CbEvent(what: int, amount: int, total: int, key: Option<PyValue>)

  /** What the user's Python callable does if it is called. */
  datatype Response = Raises | Returns(value: PyValue)

  /** An event together with the answer the callable would give to it. */
  datatype Call = Call(event: CbEvent, response: Response)

  /**
    The callback's state: the `pythonError` latch of `struct tsCallbackType`,
    the callback's static `fdt`, how many times it has called into Python,
    and the file handles it has closed.
   */
  datatype CbState = CbState(pythonError: bool, fdt: Option<int>, calls: nat, closed: seq<Option<int>>)

  /** `PyArg_Parse(result, "i", &fd)`: a Python int that fits a C `int`. */
  function IntArg(v: PyValue): (r: Option<int>)
    ensures r.Some? <==> v.PyInt? && INT32_MIN <= v.i <= INT32_MAX
    ensures r.Some? ==> r.value == v.i
  {
    if v.PyInt? && INT32_MIN <= v.i <= INT32_MAX then Some(v.i) else None
  }

  /** The call latches the failure: the callable raised, or an open-file answer was not an `int`. */
  predicate Fails(c: Call)
  {
    c.response.Raises? || (c.event.what == CALLBACK_INST_OPEN_FILE && IntArg(c.response.value).None?)
  }

  /**
    `tsCallback`. Once the latch is set it returns NULL without calling
    Python. Otherwise it calls the callable; an open-file event hands back
    (a duplicate of) the descriptor the callable returned, and a close-file
    event closes the last descriptor opened.
   */
  function Callback(st: CbState, c: Call): (r: (CbState, Option<int>))
    ensures st.pythonError ==> r == (st, None)
    ensures !st.pythonError ==> r.0.calls == st.calls + 1
    ensures !st.pythonError ==> (r.0.pythonError <==> Fails(c))
    ensures r.1.Some? <==> !st.pythonError && !Fails(c) && c.event.what == CALLBACK_INST_OPEN_FILE
    ensures r.1.Some? ==> r.1 == IntArg(c.response.value) && r.0.fdt == r.1
    ensures !st.pythonError && !Fails(c) && c.event.what == CALLBACK_INST_CLOSE_FILE ==>
              r.0.closed == st.closed + [st.fdt]
    // Nothing else changes: only a successful open replaces the descriptor, only a close closes one.
    ensures r.1.None? ==> r.0.fdt == st.fdt
    ensures st.pythonError || Fails(c) || c.event.what != CALLBACK_INST_CLOSE_FILE ==> r.0.closed == st.closed
  {
    if st.pythonError then (st, None)
    else
      var called := st.(calls := st.calls + 1);
      if c.response.Raises? then (called.(pythonError := true), None)
      else if c.event.what == CALLBACK_INST_OPEN_FILE then
        match IntArg(c.response.value)
        case None => (called.(pythonError := true), None)
        case Some(fd) => (called.(fdt := Some(fd)), Some(fd))
      else if c.event.what == CALLBACK_INST_CLOSE_FILE then
        (called.(closed := called.closed + [called.fdt]), None)
      else (called, None)
  }

  /** The callback's state after rpmlib has delivered `calls` in order. */
  function Deliver(st: CbState, calls: seq<Call>): CbState
    decreases |calls|
  {
    if |calls| == 0 then st else Deliver(Callback(st, calls[0]).0, calls[1..])
  }

  /** The callback's descriptor is the one it started with or one some open-file answer gave. */
  lemma {:induction false} DeliverKeepsFdt(st: CbState, calls: seq<Call>)
    ensures var e := Deliver(st, calls);
            e.fdt == st.fdt || exists i :: 0 <= i < |calls| && calls[i].response.Returns? && e.fdt == IntArg(calls[i].response.value)
    decreases |calls|
  {
    if |calls| > 0 {
      DeliverKeepsFdt(Callback(st, calls[0]).0, calls[1..]);
      var e := Deliver(st, calls);
      if e.fdt != st.fdt && e.fdt != Callback(st, calls[0]).0.fdt {
        var i :| 0 <= i < |calls[1..]| && calls[1..][i].response.Returns? && e.fdt == IntArg(calls[1..][i].response.value);
        assert calls[i + 1] == calls[1..][i];
      }
    }
  }

  /** A latched callback stays latched and calls nothing, whatever events follow. */
  lemma {:induction false} LatchAbsorbs(st: CbState, calls: seq<Call>)
    requires st.pythonError
    ensures Deliver(st, calls) == st
    decreases |calls|
  {
    if |calls| > 0 {
      LatchAbsorbs(st, calls[1..]);
    }
  }

  /** The index of the first call that fails, if any. */
  function FirstFailure(calls: seq<Call>): (r: Option<nat>)
    ensures r.Some? ==> r.value < |calls| && Fails(calls[r.value])
    ensures r.Some? ==> forall j :: 0 <= j < r.value ==> !Fails(calls[j])
    ensures r.None? ==> forall j :: 0 <= j < |calls| ==> !Fails(calls[j])
  {
    if |calls| == 0 then None
    else if Fails(calls[0]) then Some(0)
    else match FirstFailure(calls[1..])
      case None => None
      case Some(k) => Some(k + 1)
  }

  /**
    From an unlatched state, delivery latches exactly when some call fails,
    and the callable is called once per event up to and including the first
    failing one, and never after it.
   */
  lemma {:induction false} DeliverLatchesAtFirstFailure(st: CbState, calls: seq<Call>)
    requires !st.pythonError
    ensures Deliver(st, calls).pythonError <==> FirstFailure(calls).Some?
    ensures FirstFailure(calls).Some? ==> Deliver(st, calls).calls == st.calls + FirstFailure(calls).value + 1
    ensures FirstFailure(calls).None? ==> Deliver(st, calls).calls == st.calls + |calls|
    decreases |calls|
  {
    if |calls| > 0 {
      var next := Callback(st, calls[0]).0;
      if Fails(calls[0]) {
        LatchAbsorbs(next, calls[1..]);
      } else {
        DeliverLatchesAtFirstFailure(next, calls[1..]);
      }
    }
  }

  // ---------------------------------------------------------------------
  // ts.run

  /** One `struct rpmProblem`: its message (from `rpmProblemString`), kind, subject and number. */
  datatype Problem = Problem(message: string, kind: int, str1: Option<string>, ulong1: nat)

  /** `Py_BuildValue("s(isi)", ...)`: the number goes through an `int`, so it wraps at 32 bits. */
  function ProblemTuple(p: Problem): PyValue
  {
    PyTuple([
      PyStr(p.message),
      PyTuple([PyInt(p.kind), if p.str1.Some? then PyStr(p.str1.value) else PyNone, PyInt(Int32(p.ulong1))])])
  }

  /**
    What `ts.run` returns from the callback latch, rpmlib's return code and
    its problem set.
   */
  function RunResult(latched: bool, rc: int, problems: seq<Problem>): (r: Outcome<PyValue>)
    ensures latched <==> r == Raise(CallbackError)
    ensures !latched && rc < 0 ==> r == Ok(PyList([]))
    ensures !latched && rc == 0 ==> r == Ok(PyNone)
    ensures !latched && rc > 0 ==> r.Ok? && r.value.PyList? && |r.value.items| == |problems|
    ensures !latched && rc > 0 ==> forall i :: 0 <= i < |problems| ==> r.value.items[i] == ProblemTuple(problems[i])
  {
    if latched then Raise(CallbackError)
    else if rc < 0 then Ok(PyList([]))
    else if rc == 0 then Ok(PyNone)
    else Ok(PyList(seq(|problems|, i requires 0 <= i < |problems| => ProblemTuple(problems[i]))))
  }

  /**
    `ts.run(...)`: rpmlib delivers `calls` to the callback (whose static
    descriptor starts as `fdt`), then returns `rc` and `problems`.
   */
  function Run(calls: seq<Call>, fdt: Option<int>, rc: int, problems: seq<Problem>): (r: (CbState, Outcome<PyValue>))
    ensures r.1 == Raise(CallbackError) <==> r.0.pythonError
    ensures !r.0.pythonError ==> r.1 == RunResult(false, rc, problems)
    ensures r.0.fdt == fdt || exists i :: 0 <= i < |calls| && calls[i].response.Returns? && r.0.fdt == IntArg(calls[i].response.value)
  {
    DeliverKeepsFdt(CbState(false, fdt, 0, []), calls);
    var st := Deliver(CbState(false, fdt, 0, []), calls);
    (st, RunResult(st.pythonError, rc, problems))
  }

  /**
    `ts.run` raises exactly when one of the callbacks fails, whatever rpmlib
    returned, and in that case Python was called only up to the first
    failing event; otherwise every event reached Python.
   */
  lemma RunRaisesIffCallbackFails(calls: seq<Call>, fdt: Option<int>, rc: int, problems: seq<Problem>)
    ensures Run(calls, fdt, rc, problems).1 == Raise(CallbackError) <==> exists i :: 0 <= i < |calls| && Fails(calls[i])
    ensures FirstFailure(calls).Some? ==> Run(calls, fdt, rc, problems).0.calls == FirstFailure(calls).value + 1
    ensures FirstFailure(calls).None? ==> Run(calls, fdt, rc, problems).0.calls == |calls|
  {
    DeliverLatchesAtFirstFailure(CbState(false, fdt, 0, []), calls);
  }
}
