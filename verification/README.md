# rpm Python binding: a Dafny model of its core

This project models the logic of `python/rpmmodule.c`, the CPython
extension module `rpm` that exposes rpmlib to Python. It covers the parts of
the binding that make decisions of their own, as opposed to passing
arguments through to rpmlib:

- `rpm.labelCompare`, which orders (epoch, version, release) labels.
- The candidate sort behind `rpm.findUpgradeSet`: `psGetArchScore`, the
  `qsort` comparator `pkgCompareVer`, and `pkgSort` with its dedupe pass.
- The whole-database cursor of a database object: `db.firstkey()` and
  `db.nextkey()`.
- Header reading: key resolution (`tagNumFromPyObject` and the extension
  registry), the conversion of an entry into a Python value in
  `h[key]`, and `h.keys()`.
- The transaction object: `ts.add`, `ts.remove`, `ts.depcheck`, the C
  callback `tsCallback`, and `ts.run`.

rpmlib is never modelled. Each rpmlib service the binding calls becomes a
parameter, either as a function or as the data the call would return:

- `rpmvercmp`, `rpmVersionCompare`, `rpmMachineScore` and `headerGetEntry`
  of the ARCH tag.
- `rpmPackageGetEntry` and the extensions' compute functions.
- The offsets a database scan yields and the records a label lookup matches.
- The dependency check's conflicts.
- The callback events of a run, with the answer the Python callable gives to each.
- The run's return code and problem set.

The C semantics the binding relies on are written out in module `CStrings`:
- NUL-terminated reads of Python strings.
- `strcmp`, and `strcasecmp` in the C locale.
- glibc's `atoi`, which is `(int) strtol`.
- The 32-bit wrap-around of a `long` stored into an `int`.

The tag, type and callback constants in `RpmTags` are the values rpmlib's
public headers declare.

Modules:
- `CStrings`, `PyObjects` and `RpmTags` are shared.
- `Labels` covers labelCompare.
- `UpgradeSort` covers psGetArchScore, pkgCompareVer and pkgSort.
- `DbCursor` covers rpmdbFirst and rpmdbNext.
- `HeaderAccess` covers tagNumFromPyObject, hdrSubscript and hdrKeyList.
- `Transaction` covers the transaction object.

A Python call ends as an `Outcome`, which is one of:
- `Ok(value)`: the call returns a value.
- `Raise(error)`: the call raises an exception.
- `Undefined(why)`: the C code does something the language leaves
  undefined. This case is used by the two members that reproduce the
  defects listed under Findings, and by `h[key]` when a tag extension
  fails: the binding ignores the extension's status and converts the
  entry type and data it never received.

Where a plain description of the binding and its code differ, the model
follows the code:
- `ts.remove` with N matches queues one erasure per match whose record
  offset is non-zero, not N erasures unconditionally. The two agree when
  no offset is 0 (`Transaction.ErasuresOfNonZero`).
- A transaction without a database does not refuse erasures. The code
  dereferences NULL instead (see Findings).

## Model

| member | source | states |
|---|---|---|
| CStrings.StrCmpZeroIff | python/rpmmodule.c:463-467 | `strcmp` reports two names equal exactly when they agree as C strings, up to the first NUL |
| CStrings.StrCaseCmpZeroIff | python/rpmmodule.c:1065 | `strcasecmp` reports equality exactly when the C strings agree after ASCII lower-casing |
| CStrings.StrCaseCmpAntisymmetric | python/rpmmodule.c:440-441 | swapping the arguments of `strcasecmp` negates its result, so names order the comparator consistently |
| CStrings.StrCmpZeroImpliesCaseZero | python/rpmmodule.c:440-466 | names `strcmp` calls equal are also equal to `strcasecmp` |
| CStrings.CaseFoldingIsCoarser | python/rpmmodule.c:440-466 | "foo" and "FOO" are equal to `strcasecmp` but not to `strcmp` |
| CStrings.Int32 | python/rpmmodule.c:1085 | a `long` stored into the `int` tag lands in the 32-bit range, is congruent to it modulo 2^32, and is unchanged when it already fits |
| CStrings.AtoiDecimal | python/rpmmodule.c:752-753 | `atoi` reads a decimal epoch back as the number it spells, for every non-negative `int` |
| Labels.LabelCompare | python/rpmmodule.c:746-764 | a present epoch beats an absent one; two present epochs that differ as numbers decide; otherwise the version comparison decides unless it is 0, and then the release comparison does |
| Labels.LabelCompareAntisymmetric | python/rpmmodule.c:746-764 | if `rpmvercmp` is antisymmetric then so is `labelCompare` |
| Labels.LabelCompareReflexive | python/rpmmodule.c:746-764 | a label compares equal to itself when `rpmvercmp` finds its version and release equal to themselves |
| Labels.DecimalEpochsDecide | python/rpmmodule.c:750-758 | distinct decimal epochs order two labels numerically, whatever their versions and releases |
| Labels.EpochComparedAsNumber | python/rpmmodule.c:752-760 | epochs written as runs of zeros of any lengths ("0", "00", ...) tie, so the version decides |
| UpgradeSort.ArchScore | python/rpmmodule.c:419-428 | a package with no ARCH entry, or with an INT8-typed one, scores 150; any other package scores what the machine table gives for its architecture |
| UpgradeSort.PkgCompareVer | python/rpmmodule.c:430-448 | nameless entries sort last; different names order by `strcasecmp`; among namesakes an uninstallable entry goes after, then the better arch score goes first, then the newer version goes first |
| UpgradeSort.NamedBeforeNameless | python/rpmmodule.c:436-437 | between a named and a nameless entry the comparator is consistent in both argument orders |
| UpgradeSort.DistinctNamesAntisymmetric | python/rpmmodule.c:439-441 | entries whose names differ ignoring case compare antisymmetrically |
| UpgradeSort.SameNameAntisymmetric | python/rpmmodule.c:419-447 | among namesakes that both have a non-zero arch score, the better score comes first in either order and equal scores defer to the version comparison, so the comparator is antisymmetric whenever `rpmVersionCompare` is |
| UpgradeSort.ComparatorInconsistent | python/rpmmodule.c:436-443 | the comparator is not an order: two nameless entries each compare greater than the other, and so do two namesakes with arch score 0 |
| UpgradeSort.DedupePass | python/rpmmodule.c:456-468 | the running-name loop blanks exactly the entries, before the first nameless one, whose name is `strcmp`-equal to the previous entry's original name |
| UpgradeSort.BlankedRunSameName | python/rpmmodule.c:461-468 | every entry in a run of blanked entries carries the same C-string name as the run's head |
| UpgradeSort.SurvivorsDiffer | python/rpmmodule.c:461-468 | two entries that keep their names, with only blanked entries between them, have different names |
| UpgradeSort.CaseVariantsBothKept | python/rpmmodule.c:464-465 | "foo" and "FOO" both survive the dedupe pass, although the sort groups them together |
| UpgradeSort.PkgSort | python/rpmmodule.c:450-476 | the result is no longer than the input and holds no nameless entry; it is empty if the first sorted entry is nameless; otherwise it is, as a multiset, exactly the entries the dedupe pass left named |
| UpgradeSort.PkgSortAsWritten | python/rpmmodule.c:456-457 | the code as written reads past the array exactly when the list is empty |
| DbCursor.FirstKey | python/rpmmodule.c:823-858 | the offsets are rescanned only when nothing is cached; the position restarts after the first entry; a missing or 0 first offset raises "cannot find first entry in database" |
| DbCursor.NextKey | python/rpmmodule.c:860-877 | past the end the call returns None and changes nothing; otherwise the position advances by one and the call returns the offset, or None for a 0 offset |
| DbCursor.NextKeyIgnoresArgument | python/rpmmodule.c:863-870 | the offset passed to `nextkey` has no effect |
| DbCursor.WalkReturnsOffsets | python/rpmmodule.c:865-877 | over non-zero offsets, n calls return the next n offsets in order and advance the position by n |
| DbCursor.ExhaustedStaysExhausted | python/rpmmodule.c:865-868 | once the list is exhausted, every further call returns None and leaves the state unchanged |
| DbCursor.FullEnumeration | python/rpmmodule.c:823-877 | on a fresh database whose scan has only non-zero offsets, `firstkey` and then `nextkey` return every offset once, in scan order, followed by None |
| DbCursor.RewalkUsesCache | python/rpmmodule.c:829-848 | a later `firstkey` serves the cached list again and ignores what a new scan would find |
| DbCursor.ZeroOffsetIsNotTheEnd | python/rpmmodule.c:870-875 | a 0 offset reads as None, but the next call still returns the entry after it |
| HeaderAccess.Shape | python/rpmmodule.c:1140-1222 | binary entries become byte strings; string arrays become lists; integer and string entries are a bare scalar exactly when they hold one item and the tag is not forced to a list; integers are sign-extended; any other type raises "unsupported type in header" |
| HeaderAccess.ShapeRoundTrip | python/rpmmodule.c:1140-1222 | the Python value of a supported entry determines the entry: its signs, count and contents can be read back |
| HeaderAccess.FindTag | python/rpmmodule.c:1064-1066 | the tag table scan finds the first row whose name after "RPMTAG_" matches the key ignoring case |
| HeaderAccess.TagNum | python/rpmmodule.c:1055-1069 | an integer key is its own tag; a string key gives the first matching table row's value; anything else, or no match, gives -1 |
| HeaderAccess.LastExtension | python/rpmmodule.c:1090-1096 | the registry scan does not stop at a match, so the last matching tag extension is the one chosen |
| HeaderAccess.Resolve | python/rpmmodule.c:1082-1097 | an extension handle is used as is; an integer or string key whose tag, wrapped to 32 bits, is not -1 reads that tag; an integer key with tag -1 is unresolved; a string key with tag -1 reads the last matching tag extension, or is unresolved when none matches |
| HeaderAccess.HdrSubscript | python/rpmmodule.c:1071-1225 | an unresolved key raises KeyError "unknown header tag"; a tag absent from the header gives None; an extension that computes a value has it converted without forcing; an extension that fails leaves the result undefined, since its status is ignored; a stored entry is converted, forced to a list for the file tags |
| HeaderAccess.IntKeyReadsItsTag | python/rpmmodule.c:1082-1130 | `h[t]` for an integer tag in `int` range gives None when the header has no entry `t`, and otherwise that entry converted, forced to a list exactly for the file tags |
| HeaderAccess.ForcedTagsNeverScalar | python/rpmmodule.c:1114-1130 | the file-list tags never come back as a bare integer or string |
| HeaderAccess.SingleValueIsScalar | python/rpmmodule.c:1145-1186 | a one-item integer or string entry under any other tag comes back as a bare scalar |
| HeaderAccess.NameResolvesToFirstTableRow | python/rpmmodule.c:1082-1097 | a name that the tag table knows resolves to the first matching row's tag, never to an extension |
| HeaderAccess.NameFallsBackToLastExtension | python/rpmmodule.c:1086-1097 | a name the tag table does not know resolves to the last matching tag extension |
| HeaderAccess.KeyList | python/rpmmodule.c:1227-1256 | a tag is listed exactly when some stored entry with it is neither the locale table nor of an unsupported type |
| HeaderAccess.ListedKeysSubscript | python/rpmmodule.c:1227-1256 | every tag `keys()` lists subscripts successfully to a value other than None |
| Transaction.Create | python/rpmmodule.c:1491-1511 | a database argument that is not an `rpm.rpmdb` object raises TypeError "bad type for database argument"; otherwise the new transaction has a database exactly when one was passed, nothing queued, no keys held, and so satisfies the retained-keys invariant |
| Transaction.Add | python/rpmmodule.c:1552-1582 | a non-header argument or a `how` other than "a", "u" or "i" raises TypeError and changes nothing; otherwise exactly one operation is queued: available for "a", upgrade for "u", install for "i" or no `how`; its key is appended to the key list; the retained-keys invariant is preserved |
| Transaction.Erasures | python/rpmmodule.c:1600-1605 | the queued erasures are the non-zero offsets: every one of them is queued, and nothing else is |
| Transaction.ErasuresAppend | python/rpmmodule.c:1600-1605 | the erasures of two runs of offsets are the erasures of the first followed by those of the second |
| Transaction.ErasuresSingleton | python/rpmmodule.c:1601-1604 | a single offset becomes one erasure of it when it is non-zero and nothing when it is 0 |
| Transaction.ErasuresOfNonZero | python/rpmmodule.c:1600-1605 | when no offset is 0, every matched record is erased, in iteration order |
| Transaction.Remove | python/rpmmodule.c:1584-1611 | a match count of 0 or less raises "package not installed" and queues nothing; otherwise every matched record is queued for erasure; keys are untouched and the retained-keys invariant is preserved |
| Transaction.RemoveAsWritten | python/rpmmodule.c:1593 | the code as written dereferences the missing database object exactly when the transaction has none |
| Transaction.DepCheck | python/rpmmodule.c:1622-1656 | no conflicts gives None; otherwise the result is a list of one 5-tuple per conflict, in order |
| Transaction.ConflictOf | python/rpmmodule.c:1635-1643 | any value read back as a conflict rebuilds to that same depcheck tuple |
| Transaction.ConflictReadBack | python/rpmmodule.c:1635-1643 | each field of a conflict can be read back out of its depcheck tuple; a suggested package of None reads back as no suggestion |
| Transaction.DepCheckReadBack | python/rpmmodule.c:1631-1646 | every entry of the depcheck list reads back as the conflict at the same position |
| Transaction.Session | python/rpmmodule.c:1552-1611 | a sequence of add and remove calls keeps the database flag and only ever appends to the queue |
| Transaction.SessionKeepsKeys | python/rpmmodule.c:1491-1611 | from a new transaction, after any sequence of add and remove calls, the key list holds exactly the keys of the queued packages, in order |
| Transaction.IntArg | python/rpmmodule.c:1689 | an open-file answer is accepted exactly when it is a Python int within the C `int` range |
| Transaction.Callback | python/rpmmodule.c:1666-1706 | a latched callback does nothing; otherwise Python is called once; the latch is set exactly when the callable raised or an open-file answer is not an int; only a successful open-file event returns a descriptor, and it is remembered; a close-file event closes the remembered one; no other call changes the remembered descriptor or closes anything |
| Transaction.LatchAbsorbs | python/rpmmodule.c:1674 | once the error latch is set, no later event reaches Python or changes anything |
| Transaction.DeliverLatchesAtFirstFailure | python/rpmmodule.c:1666-1706 | delivery latches exactly when some call fails; Python is called once per event up to and including the first failure; with no failure it is called once per event |
| Transaction.RunResult | python/rpmmodule.c:1724-1747 | a latched callback raises, whatever rpmlib returned; otherwise a negative return code gives an empty list, 0 gives None, and a positive one gives one tuple per problem, in order |
| Transaction.Run | python/rpmmodule.c:1708-1747 | the run raises exactly when the callback latched; otherwise its value follows the return code; the remembered descriptor is the initial one or one that an answer supplied |
| Transaction.RunRaisesIffCallbackFails | python/rpmmodule.c:1708-1747 | `ts.run` raises exactly when some callback call fails, whatever rpmlib returns; Python sees the events up to the first failure, or all of them |

## Left out

- Python plumbing is not modelled: argument parsing, reference counting, type objects, attribute access and module initialisation. An argument the parser rejects never reaches the modelled code.
- rpmlib itself is not modelled. Its services are parameters: `rpmvercmp`, `rpmVersionCompare`, `rpmMachineScore`, `headerGetEntry`, `rpmPackageGetEntry` (its signature-block lookup included), the extensions' compute functions, database iteration, `rpmdepCheck`, `rpmRunTransactions` and `rpmProblemString`. The values of the tag, type and callback constants are taken from rpmlib's public headers, which are not part of this model.
- File and database I/O is not modelled: `rpmOpenDB`, `rebuildDB`, `rpmHeaderFromFD`, `hdrLoad`, `rpmHeaderFromFile`, `rpmHeaderFromPackage`, `hdrUnload`, `hdrVerifyFile` and the file-list helpers.
- The rest of the module is not modelled:
  - The error callback (`errorSetCallback`) and `errorString`.
  - `versionCompare` and `archScore`, which only forward to rpmlib.
  - `rpmdbByName`, `rpmdbByFile`, `rpmdbByProvides`, `rpmdbLength`, `rpmdbSubscript` and the match-iterator object.
  - `findUpgradeSet` beyond `pkgSort`: its call of `ugFindUpgradePackages` and its building of the result list.
  - `rpmtransOrder`, `rpmtransSetAttr` (the script file descriptor) and `rpmtransDealloc`.
  - The `doFopen` code, which is never compiled.
- The operator-precedence slip in `rpmOpenDB` (`python/rpmmodule.c:549`) is outside this model, together with the rest of that function.
- UpgradeSort.PkgSort: the two `qsort` results are inputs rather than computed orders. The comparator is not a consistent order, so libc's sort result is unspecified. The first result may be any permutation. The second is assumed to keep named entries ahead of nameless ones, the one decision the comparator makes consistently. The result is therefore stated as a multiset, not as a sequence.
- `findUpgradeSet` leaves an entry's name unset when its header has no NAME tag. The model starts from entries whose name is either present or NULL.
- HeaderAccess.Shape: a STRING entry that is forced to a list, or whose count is not 1, is read by the C code through a `char **` cast of a `char *`. The model returns the list of strings the entry holds, not the result of that cast.
- HeaderAccess.Shape: rpmlib normally converts an I18NSTRING entry to a STRING before the binding sees it. The model takes the entry types as given, and an unconverted I18NSTRING raises "unsupported type in header".
- HeaderAccess.Shape: CHAR and INT8 entries are both read through `(char *)` (python/rpmmodule.c:1164 and 1171) and sign-extended as on platforms where `char` is signed. The sign of `char` is platform-specific.
- The memory the binding frees or leaks (`freeData`, the string array, an unparsed callback result) is not modelled.
- The global `transactionSetHeader`, which `tsCallback` sets for `getTsHeader`, is not modelled.
- The arguments `tsCallback` builds for the Python callable are not modelled. The callable's behaviour is an input.
- Transaction.Callback: `fdDup` is not modelled. The model returns and remembers the descriptor number the callable returned, not a duplicated handle.
- `Fclose` is recorded as the handle being closed. Nothing else about it is modelled.
- Transaction.DepCheck: the return value of `rpmdepCheck` is ignored by the C code and by the model. The conflict strings are taken as present, so a NULL string, which would become None, is not modelled.
- Transaction.Remove: the corrected behaviour raises `rpm.error` with a message of this model's choosing ("transaction has no database") for a transaction created without a database. The C code has no such path; see Findings.
- DbCursor: record offsets are taken as the values the binding reads into its `int` variables, so the unsigned-to-signed conversion happens before the model sees them.

## Findings

| source | as written | input that shows it | evidently intended | confidence | as-written member | corrected member |
|---|---|---|---|---|---|---|
| python/rpmmodule.c:456-457 | `pkgSort` reads `psp->packages[0]->name` right after the first sort, without checking `numPackages` | `rpm.findUpgradeSet([])`: the array is `alloca(0)`, and its element 0 is read and dereferenced | an empty list yields an empty candidate list | not executed | UpgradeSort.PkgSortAsWritten | UpgradeSort.PkgSort |
| python/rpmmodule.c:1593 | `rpmtransRemove` passes `s->dbo->db` to `rpmdbInitIterator` unconditionally, but `dbo` is NULL for a transaction created without a database (`rpmtransCreate` at python/rpmmodule.c:1505) | `rpm.TransactionSet("/").remove("foo")` | the call raises `rpm.error` instead of dereferencing NULL | not executed | Transaction.RemoveAsWritten | Transaction.Remove |
