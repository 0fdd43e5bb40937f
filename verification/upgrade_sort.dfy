/**
  The candidate list behind `rpm.findUpgradeSet`: `psGetArchScore`, the
  `qsort` comparator `pkgCompareVer`, and `pkgSort`, which sorts, blanks
  the name of each entry whose name repeats the last kept one, sorts again
  and cuts the list at the first nameless entry.

  `qsort` is libc's and the comparator is not a consistent order (two
  nameless entries are each "greater" than the other), so the orders the
  two sorts produce are inputs here: any permutation for the first, and for
  the second any permutation that keeps named entries ahead of nameless
  ones, which is the one decision the comparator makes consistently.
 */
module UpgradeSort {
  import opened CStrings
  import opened PyObjects
  import opened RpmTags

  /** The ARCH entry of a header, as `headerGetEntry` finds it. */
  datatype ArchTag = ArchAbsent | ArchPresent(etype: int, arch: string)

  /** The rpmlib services the comparator calls on headers of type `H`. */
  datatype Rpmlib<!H> = Rpmlib(
    archOf: H -> ArchTag,
    machineScore: string -> int,      // rpmMachineScore(RPM_MACHTABLE_INSTARCH, ·)
    versionCompare: (H, H) -> int)    // rpmVersionCompare

  /** One `struct packageInfo`: its NAME string (NULL once blanked) and its header. */
  datatype Package<H> = Package(name: Option<string>, hdr: H)

  /** How well a package's architecture suits this machine; 0 means it cannot install here. */
  function ArchScore<H>(lib: Rpmlib<H>, h: H): (r: int)
    ensures lib.archOf(h).ArchAbsent? ==> r == 150
    ensures lib.archOf(h).ArchPresent? && lib.archOf(h).etype == INT8_TYPE ==> r == 150
    ensures lib.archOf(h).ArchPresent? && lib.archOf(h).etype != INT8_TYPE ==>
              r == lib.machineScore(lib.archOf(h).arch)
  {
    match lib.archOf(h)
    case ArchAbsent => 150
    case ArchPresent(t, arch) => if t == INT8_TYPE then 150 else lib.machineScore(arch)
  }

  function PkgCompareVer<H>(lib: Rpmlib<H>, a: Package<H>, b: Package<H>): (r: int)
    // Nameless entries sort last, and every nameless entry claims to be the greater.
    ensures a.name.None? ==> r == 1
    ensures a.name.Some? && b.name.None? ==> r == -1
    // Different names (ignoring case) decide by strcasecmp.
    ensures a.name.Some? && b.name.Some? && StrCaseCmp(a.name.value, b.name.value) != 0 ==>
              r == StrCaseCmp(a.name.value, b.name.value)
    // Same name: an uninstallable left side goes last, then the better score, then the newer version.
    ensures a.name.Some? && b.name.Some? && StrCaseCmp(a.name.value, b.name.value) == 0 ==>
              r == (if ArchScore(lib, a.hdr) == 0 then 1
                        else if ArchScore(lib, b.hdr) == 0 then -1
                        else if ArchScore(lib, a.hdr) != ArchScore(lib, b.hdr)
                          then (if ArchScore(lib, a.hdr) < ArchScore(lib, b.hdr) then -1 else 1)
                        else lib.versionCompare(b.hdr, a.hdr))
  {
    if a.name.None? then 1
    else if b.name.None? then -1
    else
      var ret := StrCaseCmp(a.name.value, b.name.value);
      if ret != 0 then ret
      else
        var score1 := ArchScore(lib, a.hdr);
        if score1 == 0 then 1
        else
          var score2 := ArchScore(lib, b.hdr);
          if score2 == 0 then -1
          else if score1 < score2 then -1
          else if score1 > score2 then 1
          else lib.versionCompare(b.hdr, a.hdr)
  }

  /** Between a named and a nameless entry the comparator is consistent: the named one comes first. */
  lemma NamedBeforeNameless<H>(lib: Rpmlib<H>, a: Package<H>, b: Package<H>)
    requires a.name.Some? && b.name.None?
    ensures PkgCompareVer(lib, a, b) < 0 && PkgCompareVer(lib, b, a) > 0
  {
  }

  /** Entries whose names differ ignoring case are ordered consistently, by name. */
  lemma DistinctNamesAntisymmetric<H>(lib: Rpmlib<H>, a: Package<H>, b: Package<H>)
    requires a.name.Some? && b.name.Some?
    requires StrCaseCmp(a.name.value, b.name.value) != 0
    ensures PkgCompareVer(lib, a, b) == -PkgCompareVer(lib, b, a)
  {
    StrCaseCmpAntisymmetric(a.name.value, b.name.value);
  }

  /**
    Between namesakes that can both install here the comparator is
    consistent: the better architecture score comes first in either
    argument order, and equal scores defer to `versionCompare`, so the
    comparator is antisymmetric whenever `versionCompare` is.
   */
  lemma SameNameAntisymmetric<H>(lib: Rpmlib<H>, a: Package<H>, b: Package<H>)
    requires a.name.Some? && b.name.Some?
    requires StrCaseCmp(a.name.value, b.name.value) == 0
    requires ArchScore(lib, a.hdr) != 0 && ArchScore(lib, b.hdr) != 0
    requires lib.versionCompare(a.hdr, b.hdr) == -lib.versionCompare(b.hdr, a.hdr)
    ensures PkgCompareVer(lib, a, b) == -PkgCompareVer(lib, b, a)
    ensures ArchScore(lib, a.hdr) < ArchScore(lib, b.hdr) ==> PkgCompareVer(lib, a, b) == -1
    ensures ArchScore(lib, a.hdr) == ArchScore(lib, b.hdr) ==>
              PkgCompareVer(lib, a, b) == lib.versionCompare(b.hdr, a.hdr)
  {
    StrCaseCmpAntisymmetric(a.name.value, b.name.value);
  }

  /** The comparator is not an order: two nameless entries, or two uninstallable namesakes, each beat the other. */
  lemma ComparatorInconsistent<H>(lib: Rpmlib<H>, h1: H, h2: H, n1: string, n2: string)
    requires ArchScore(lib, h1) == 0 && ArchScore(lib, h2) == 0
    requires StrCaseCmp(n1, n2) == 0
    ensures PkgCompareVer(lib, Package(None, h1), Package(None, h2)) == 1
    ensures PkgCompareVer(lib, Package(None, h2), Package(None, h1)) == 1
    ensures PkgCompareVer(lib, Package(Some(n1), h1), Package(Some(n2), h2)) == 1
    ensures PkgCompareVer(lib, Package(Some(n2), h2), Package(Some(n1), h1)) == 1
  {
  }

  // ---------------------------------------------------------------------
  // The dedupe pass

  /** The first `k` entries of `s` all have names. */
  predicate NamedUpTo<H>(s: seq<Package<H>>, k: nat)
    requires k <= |s|
  {
    forall j :: 0 <= j < k ==> s[j].name.Some?
  }

  /**
    Whether the pass blanks entry `i` of the sorted list `s`: it lies before
    the first nameless entry, is not the first, and its name is strcmp-equal
    to the name entry `i - 1` had in `s`.
   */
  predicate Blanked<H>(s: seq<Package<H>>, i: nat)
    requires i < |s|
  {
    0 < i && NamedUpTo(s, i + 1) && StrCmp(s[i].name.value, s[i - 1].name.value) == 0
  }

  /** The list after the dedupe pass: blanked entries lose their name, nothing else changes. */
  function Deduped<H>(s: seq<Package<H>>): (r: seq<Package<H>>)
    ensures |r| == |s|
  {
    seq(|s|, i requires 0 <= i < |s| => if Blanked(s, i) then s[i].(name := None) else s[i])
  }

  /**
    The loop of `pkgSort` as written: it walks from the second entry, stops at
    the first nameless one, and compares each name with a running "last kept
    name". The result is `Deduped(s)`: the running name always spells the
    previous entry's original name.
   */
  method DedupePass<H>(s: seq<Package<H>>) returns (m: seq<Package<H>>)
    requires |s| > 0 && s[0].name.Some?
    ensures m == Deduped(s)
  {
    m := s;
    var kept := s[0].name.value;
    var i := 1;
    while i < |s|
      invariant 1 <= i <= |s| && |m| == |s|
      invariant NamedUpTo(s, i)
      invariant CStr(kept) == CStr(s[i - 1].name.value)
      invariant forall j :: 0 <= j < i ==> m[j] == Deduped(s)[j]
      invariant forall j :: i <= j < |s| ==> m[j] == s[j]
    {
      if s[i].name.None? {
        break;
      }
      StrCmpZeroIff(s[i].name.value, kept);
      StrCmpZeroIff(s[i].name.value, s[i - 1].name.value);
      if StrCmp(s[i].name.value, kept) == 0 {
        m := m[i := m[i].(name := None)];
      } else {
        kept := s[i].name.value;
      }
      i := i + 1;
    }
    assert forall j :: i <= j < |s| ==> !Blanked(s, j);
  }

  /** Inside a run of blanked entries every name equals, as a C string, the run's head. */
  lemma {:induction false} BlankedRunSameName<H>(s: seq<Package<H>>, i: nat, k: nat)
    requires i <= k < |s| && NamedUpTo(s, k + 1)
    requires forall j :: i < j <= k ==> Blanked(s, j)
    ensures CStr(s[k].name.value) == CStr(s[i].name.value)
  {
    if k > i {
      BlankedRunSameName(s, i, k - 1);
      assert Blanked(s, k);
      StrCmpZeroIff(s[k].name.value, s[k - 1].name.value);
    }
  }

  /**
    Two entries that keep their names with only blanked entries between them
    carry different names: the pass removes every strcmp-duplicate of a
    neighbour, however long the run.
   */
  lemma SurvivorsDiffer<H>(s: seq<Package<H>>, i: nat, j: nat)
    requires i < j < |s| && NamedUpTo(s, j + 1)
    requires !Blanked(s, j)
    requires forall k :: i < k < j ==> Blanked(s, k)
    ensures StrCmp(s[i].name.value, s[j].name.value) != 0
  {
    BlankedRunSameName(s, i, j - 1);
    StrCmpZeroIff(s[j].name.value, s[j - 1].name.value);
    StrCmpZeroIff(s[i].name.value, s[j].name.value);
  }

  /** strcasecmp groups "foo" with "FOO" but the pass keeps both, because it compares with strcmp. */
  lemma CaseVariantsBothKept<H>(h1: H, h2: H)
    ensures Deduped([Package(Some("foo"), h1), Package(Some("FOO"), h2)])
            == [Package(Some("foo"), h1), Package(Some("FOO"), h2)]
  {
  }

  // ---------------------------------------------------------------------
  // The whole of pkgSort

  /** Every named entry precedes every nameless one. */
  predicate NamedFirst<H>(t: seq<Package<H>>)
  {
    forall i, j :: 0 <= i < j < |t| && t[i].name.None? ==> t[j].name.None?
  }

  /** The named entries of `t`, in order. */
  function Named<H>(t: seq<Package<H>>): (r: seq<Package<H>>)
    ensures |r| <= |t|
    ensures forall i :: 0 <= i < |r| ==> r[i].name.Some?
  {
    if |t| == 0 then []
    else (if t[0].name.Some? then [t[0]] else []) + Named(t[1..])
  }

  lemma {:induction false} NamedCounts<H>(t: seq<Package<H>>, p: Package<H>)
    ensures multiset(Named(t))[p] == if p.name.Some? then multiset(t)[p] else 0
  {
    if |t| > 0 {
      NamedCounts(t[1..], p);
      assert t == [t[0]] + t[1..];
    }
  }

  /** Permuting a list permutes its named entries. */
  lemma NamedOfPermutation<H>(a: seq<Package<H>>, b: seq<Package<H>>)
    requires multiset(a) == multiset(b)
    ensures multiset(Named(a)) == multiset(Named(b))
  {
    forall p
      ensures multiset(Named(a))[p] == multiset(Named(b))[p]
    {
      NamedCounts(a, p);
      NamedCounts(b, p);
      assert multiset(a)[p] == multiset(b)[p];
    }
    SameCountsSameMultiset(multiset(Named(a)), multiset(Named(b)));
  }

  lemma SameCountsSameMultiset<H>(x: multiset<Package<H>>, y: multiset<Package<H>>)
    requires forall p :: x[p] == y[p]
    ensures x == y
  {
  }

  lemma {:induction false} NamedOfNamedPrefix<H>(t: seq<Package<H>>, k: nat)
    requires k <= |t| && NamedUpTo(t, k)
    requires forall j :: k <= j < |t| ==> t[j].name.None?
    ensures Named(t) == t[..k]
  {
    if |t| > 0 {
      if k > 0 {
        NamedOfNamedPrefix(t[1..], k - 1);
        assert t[..k] == [t[0]] + t[1..][..k - 1];
      } else {
        NamedOfNamedPrefix(t[1..], 0);
      }
    }
  }

  /**
    `pkgSort` on a list whose first sort yielded `sorted1` and whose second
    sort yielded `sorted2`. The result has no nameless entry, is never longer
    than the input, is empty when the first sorted entry is nameless, and
    otherwise holds exactly the entries the dedupe pass left named.
   */
  method PkgSort<H>(packages: seq<Package<H>>, sorted1: seq<Package<H>>, sorted2: seq<Package<H>>)
    returns (r: seq<Package<H>>)
    requires multiset(sorted1) == multiset(packages)
    requires |sorted1| > 0 && sorted1[0].name.Some? ==>
               multiset(sorted2) == multiset(Deduped(sorted1)) && NamedFirst(sorted2)
    ensures |r| <= |packages|
    ensures forall i :: 0 <= i < |r| ==> r[i].name.Some?
    ensures |sorted1| == 0 || sorted1[0].name.None? ==> r == []
    ensures |sorted1| > 0 && sorted1[0].name.Some? ==> multiset(r) == multiset(Named(Deduped(sorted1)))
  {
    assert |sorted1| == |packages| by {
      assert |multiset(sorted1)| == |multiset(packages)|;
    }
    if |sorted1| == 0 || sorted1[0].name.None? {
      return [];
    }
    var marked := DedupePass(sorted1);
    assert |sorted2| == |marked| by {
      assert |multiset(sorted2)| == |multiset(marked)|;
    }
    var i := 0;
    while i < |sorted2| && sorted2[i].name.Some?
      invariant 0 <= i <= |sorted2|
      invariant NamedUpTo(sorted2, i)
    {
      i := i + 1;
    }
    r := sorted2[..i];
    NamedOfNamedPrefix(sorted2, i);
    NamedOfPermutation(sorted2, marked);
  }

  /**
    `pkgSort` as written reads `packages[0]` before looking at the count, so
    on an empty list (`rpm.findUpgradeSet([])`) it reads past the array.
   */
  method PkgSortAsWritten<H>(packages: seq<Package<H>>, sorted1: seq<Package<H>>, sorted2: seq<Package<H>>)
    returns (r: Outcome<seq<Package<H>>>)
    requires multiset(sorted1) == multiset(packages)
    requires |sorted1| > 0 && sorted1[0].name.Some? ==>
               multiset(sorted2) == multiset(Deduped(sorted1)) && NamedFirst(sorted2)
    ensures |packages| == 0 <==> r.Undefined?
    ensures r.Ok? ==> |r.value| <= |packages| && forall i :: 0 <= i < |r.value| ==> r.value[i].name.Some?
  {
    if |packages| == 0 {
      return Undefined("packages[0] read from an empty array");
    }
    var sorted := PkgSort(packages, sorted1, sorted2);
    return Ok(sorted);
  }
}
