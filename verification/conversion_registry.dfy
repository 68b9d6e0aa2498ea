/** Registrations in bulk. This model assumes that the registrations a
    mapping context holds are a sequence, and that the pairs chosen for a
    direction are collected as a list in registration order, duplicates kept.
    The lemmas here apply the per-registration rules to every element. */
module ConversionRegistry {
  import opened ConverterRegistration

  /** The pairs of the registrations that take part in direction `d`, in
      registration order. */
  function PairsFor<T>(regs: seq<Registration<T>>, catalog: Catalog<T>, d: Direction)
    : (ps: seq<ConvertiblePair<T>>)
    ensures |ps| <= |regs|
    ensures forall i :: 0 <= i < |regs| && Uses(regs[i], catalog, d) ==> regs[i].pair in ps
    ensures forall p :: p in ps ==>
              exists i :: 0 <= i < |regs| && Uses(regs[i], catalog, d) && regs[i].pair == p
    decreases |regs|
  {
    if |regs| == 0 then []
    else
      var init := regs[..|regs| - 1];
      var last := regs[|regs| - 1];
      var rest := PairsFor(init, catalog, d);
      assert forall i :: 0 <= i < |init| ==> init[i] == regs[i];
      if Uses(last, catalog, d) then rest + [last.pair] else rest
  }

  /** How many registrations force direction `d`. */
  function Forced<T>(regs: seq<Registration<T>>, d: Direction): nat
    decreases |regs|
  {
    if |regs| == 0 then 0
    else
      var last := regs[|regs| - 1];
      Forced(regs[..|regs| - 1], d) + (if (d == Reading && last.reading) || (d == Writing && last.writing) then 1 else 0)
  }

  /** When every registration forces exactly one direction, each direction
      selects exactly the registrations that force it: the forced direction
      takes a registration, and the cross-gating keeps it out of the other
      direction whatever its types are. */
  lemma {:induction false} OneForcedSplits<T>(regs: seq<Registration<T>>, catalog: Catalog<T>, d: Direction)
    requires forall i :: 0 <= i < |regs| ==> regs[i].reading != regs[i].writing
    ensures |PairsFor(regs, catalog, d)| == Forced(regs, d)
    decreases |regs|
  {
    if |regs| > 0 {
      OneForcedSplits(regs[..|regs| - 1], catalog, d);
    }
  }

  /** A registration with both flags forced lands in both lists; one with a
      single forced flag lands in that list, and its pair reaches the other
      list only through some other registration. */
  lemma ForcedRegistrationPlacement<T>(regs: seq<Registration<T>>, catalog: Catalog<T>, i: int)
    requires 0 <= i < |regs|
    ensures regs[i].writing ==> regs[i].pair in PairsFor(regs, catalog, Writing)
    ensures regs[i].reading ==> regs[i].pair in PairsFor(regs, catalog, Reading)
    ensures regs[i].reading && !regs[i].writing && regs[i].pair in PairsFor(regs, catalog, Writing) ==>
              exists j :: 0 <= j < |regs| && j != i && IsWriting(regs[j], catalog) && regs[j].pair == regs[i].pair
    ensures regs[i].writing && !regs[i].reading && regs[i].pair in PairsFor(regs, catalog, Reading) ==>
              exists j :: 0 <= j < |regs| && j != i && IsReading(regs[j], catalog) && regs[j].pair == regs[i].pair
  {
  }
}
