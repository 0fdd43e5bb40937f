/**
  `rpm.labelCompare((e1, v1, r1), (e2, v2, r2))`: orders two
  (epoch, version, release) labels. Each part may be `None`. Epochs are
  compared by presence and then numerically through `atoi`; versions and
  releases go to rpmlib's `rpmvercmp`, which this model takes as a
  parameter.
 */
module Labels {
  import opened CStrings
  import opened PyObjects

  /** One label: each part is a C string that may be NULL (`None`). */
  datatype Label = Label(epoch: Option<string>, version: Option<string>, release: Option<string>)

  /** rpmlib's `rpmvercmp`, applied to possibly-NULL strings. */
  type VerCmp = (Option<string>, Option<string>) -> int

  /** Both epochs absent, or both present and numerically equal: the epoch does not decide. */
  predicate EpochsTie(a: Label, b: Label)
  {
    (a.epoch.None? && b.epoch.None?)
    || (a.epoch.Some? && b.epoch.Some? && Atoi(a.epoch.value) == Atoi(b.epoch.value))
  }

  function Sign(x: int): int
  {
    if x < 0 then -1 else if x > 0 then 1 else 0
  }

  function LabelCompare(a: Label, b: Label, vercmp: VerCmp): (r: int)
    // A present epoch beats an absent one.
    ensures a.epoch.Some? && b.epoch.None? ==> r == 1
    ensures a.epoch.None? && b.epoch.Some? ==> r == -1
    // Two present epochs that differ as numbers decide, in numeric order.
    ensures a.epoch.Some? && b.epoch.Some? && Atoi(a.epoch.value) < Atoi(b.epoch.value) ==> r == -1
    ensures a.epoch.Some? && b.epoch.Some? && Atoi(a.epoch.value) > Atoi(b.epoch.value) ==> r == 1
    // Otherwise the version decides unless rpmvercmp calls it equal, then the release.
    ensures EpochsTie(a, b) && vercmp(a.version, b.version) != 0 ==> r == vercmp(a.version, b.version)
    ensures EpochsTie(a, b) && vercmp(a.version, b.version) == 0 ==> r == vercmp(a.release, b.release)
  {
    if a.epoch.Some? && b.epoch.None? then 1
    else if a.epoch.None? && b.epoch.Some? then -1
    else if a.epoch.Some? && b.epoch.Some? && Atoi(a.epoch.value) < Atoi(b.epoch.value) then -1
    else if a.epoch.Some? && b.epoch.Some? && Atoi(a.epoch.value) > Atoi(b.epoch.value) then 1
    else
      var rc := vercmp(a.version, b.version);
      if rc != 0 then rc else vercmp(a.release, b.release)
  }

  /** `rpmvercmp` gives opposite signs when its arguments are swapped. */
  ghost predicate Antisymmetric(vercmp: VerCmp)
  {
    forall x, y :: Sign(vercmp(x, y)) == -Sign(vercmp(y, x))
  }

  /**
    If `rpmvercmp` is antisymmetric then so is `labelCompare`: the epoch rule
    adds no case where both orders claim to be greater.
   */
  lemma LabelCompareAntisymmetric(a: Label, b: Label, vercmp: VerCmp)
    requires Antisymmetric(vercmp)
    ensures Sign(LabelCompare(a, b, vercmp)) == -Sign(LabelCompare(b, a, vercmp))
  {
  }

  /** A label compares equal to itself whenever `rpmvercmp` does on its parts. */
  lemma LabelCompareReflexive(a: Label, vercmp: VerCmp)
    requires vercmp(a.version, a.version) == 0 && vercmp(a.release, a.release) == 0
    ensures LabelCompare(a, a, vercmp) == 0
  {
  }

  /**
    Epochs written in decimal are ordered as the numbers they spell, whatever
    the versions and releases say.
   */
  lemma DecimalEpochsDecide(e1: nat, e2: nat, v1: Option<string>, r1: Option<string>,
                            v2: Option<string>, r2: Option<string>, vercmp: VerCmp)
    requires e1 <= INT32_MAX && e2 <= INT32_MAX && e1 != e2
    ensures LabelCompare(Label(Some(Decimal(e1)), v1, r1), Label(Some(Decimal(e2)), v2, r2), vercmp)
            == (if e1 < e2 then -1 else 1)
  {
    AtoiDecimal(e1);
    AtoiDecimal(e2);
  }

  /** Epochs spelled as runs of zeros of any lengths ("0", "00", ...) tie: the version decides between them. */
  lemma EpochComparedAsNumber(z1: string, z2: string, v1: Option<string>, r1: Option<string>,
                              v2: Option<string>, r2: Option<string>, vercmp: VerCmp)
    requires |z1| > 0 && forall i :: 0 <= i < |z1| ==> z1[i] == '0'
    requires |z2| > 0 && forall i :: 0 <= i < |z2| ==> z2[i] == '0'
    requires vercmp(v1, v2) != 0
    ensures LabelCompare(Label(Some(z1), v1, r1), Label(Some(z2), v2, r2), vercmp) == vercmp(v1, v2)
  {
    ZerosValue(z1);
    ZerosValue(z2);
  }
}
