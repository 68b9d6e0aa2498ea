/** Conversion registration information: a convertible pair of types plus two
    override flags, and the rule that decides whether a registered converter
    takes part in writing (domain to store), reading (store to domain), or both.

    Type descriptors are an abstract domain `T`. The store's catalog of simple
    types is defined outside this class and is not modelled; it is injected as
    a `Catalog`, an uninterpreted classifier of type descriptors. */
module ConverterRegistration {
  import opened Wrappers

  /** The source and target type a converter converts between. */
  datatype ConvertiblePair<T> = ConvertiblePair(source: T, target: T)

  /** The one error kind: a required argument was null. `argument` names it. */
  datatype Error = InvalidArgument(argument: string)

  /** An immutable registration. `reading` and `writing` force the converter
      to be considered for that direction. */
  datatype Registration<T> = Registration(pair: ConvertiblePair<T>, reading: bool, writing: bool)

  /** Whether the store handles a type basically (the simple-type holder). */
  type Catalog<!T> = T -> bool

  /** The two conversion directions a converter may take part in. */
  datatype Direction = Reading | Writing

  function IsCrateBasicType<T>(catalog: Catalog<T>, t: T): bool
  {
    catalog(t)
  }

  /** The pair constructor: a null pair is rejected, anything else is stored
      together with both flags exactly as given. */
  function New<T>(pair: Option<ConvertiblePair<T>>, isReading: bool, isWriting: bool)
    : (r: Result<Registration<T>, Error>)
    ensures r.Failure? <==> pair.None?
    ensures r.Failure? ==> r.error == InvalidArgument("convertiblePair")
    ensures r.Success? ==>
              && GetConvertiblePair(r.value) == pair.value
              && r.value.reading == isReading
              && r.value.writing == isWriting
  {
    match pair
    case None => Failure(InvalidArgument("convertiblePair"))
    case Some(p) => Success(Registration(p, isReading, isWriting))
  }

  /** Building a convertible pair from two type references; each must be
      non-null. */
  function MakePair<T>(source: Option<T>, target: Option<T>): (r: Result<ConvertiblePair<T>, Error>)
    ensures r.Success? <==> source.Some? && target.Some?
    ensures r.Success? ==> r.value.source == source.value && r.value.target == target.value
    ensures source.None? ==> r == Failure(InvalidArgument("source"))
    ensures source.Some? && target.None? ==> r == Failure(InvalidArgument("target"))
  {
    if source.None? then Failure(InvalidArgument("source"))
    else if target.None? then Failure(InvalidArgument("target"))
    else Success(ConvertiblePair(source.value, target.value))
  }

  /** The source/target constructor: forwards to the pair constructor. */
  function FromTypes<T>(source: Option<T>, target: Option<T>, isReading: bool, isWriting: bool)
    : (r: Result<Registration<T>, Error>)
    ensures r.Success? <==> source.Some? && target.Some?
    ensures r.Success? ==>
              r == New(Some(ConvertiblePair(source.value, target.value)), isReading, isWriting)
  {
    var pair :- MakePair(source, target);
    New(Some(pair), isReading, isWriting)
  }

  function GetConvertiblePair<T>(reg: Registration<T>): ConvertiblePair<T>
  {
    reg.pair
  }

  function IsSimpleSourceType<T>(reg: Registration<T>, catalog: Catalog<T>): bool
  {
    IsCrateBasicType(catalog, GetConvertiblePair(reg).source)
  }

  function IsSimpleTargetType<T>(reg: Registration<T>, catalog: Catalog<T>): bool
  {
    IsCrateBasicType(catalog, GetConvertiblePair(reg).target)
  }

  /** Whether the converter shall be used for writing. A forced writing flag
      always wins; a forced reading flag alone keeps the converter out of
      writing even for a simple target; with no flag the target type decides. */
  function IsWriting<T>(reg: Registration<T>, catalog: Catalog<T>): (b: bool)
    ensures reg.writing ==> b
    ensures reg.reading && !reg.writing ==> !b
    ensures !reg.reading && !reg.writing ==> (b <==> IsSimpleTargetType(reg, catalog))
  {
    reg.writing || (!reg.reading && IsSimpleTargetType(reg, catalog))
  }

  /** Whether the converter shall be used for reading: the mirror image of
      `IsWriting`, decided by the source type and gated by the writing flag. */
  function IsReading<T>(reg: Registration<T>, catalog: Catalog<T>): (b: bool)
    ensures reg.reading ==> b
    ensures reg.writing && !reg.reading ==> !b
    ensures !reg.reading && !reg.writing ==> (b <==> IsSimpleSourceType(reg, catalog))
  {
    reg.reading || (!reg.writing && IsSimpleSourceType(reg, catalog))
  }

  /** Whether the registration takes part in direction `d`. */
  function Uses<T>(reg: Registration<T>, catalog: Catalog<T>, d: Direction): bool
  {
    match d
    case Reading => IsReading(reg, catalog)
    case Writing => IsWriting(reg, catalog)
  }

  // ---------------------------------------------------------------------
  // Reference decision table
  // ---------------------------------------------------------------------

  /** What the caller asked for when registering. */
  datatype Intent = Automatic | ReadingForced | WritingForced | BothForced

  function IntentOf(reading: bool, writing: bool): Intent
  {
    if reading && writing then BothForced
    else if reading then ReadingForced
    else if writing then WritingForced
    else Automatic
  }

  /** The documented policy, stated per intent: a forced direction takes
      part; the opposite of a single forced direction does not; with nothing
      forced, a direction takes part exactly when the type on its store side
      is simple (the target for writing, the source for reading). */
  function Participates(intent: Intent, d: Direction, sourceSimple: bool, targetSimple: bool): bool
  {
    match intent
    case BothForced => true
    case ReadingForced => d == Reading
    case WritingForced => d == Writing
    case Automatic => if d == Writing then targetSimple else sourceSimple
  }

  /** The two query rules agree with the decision table in every case. */
  lemma DecisionTable<T>(reg: Registration<T>, catalog: Catalog<T>, d: Direction)
    ensures Uses(reg, catalog, d)
            == Participates(IntentOf(reg.reading, reg.writing), d,
                            IsSimpleSourceType(reg, catalog), IsSimpleTargetType(reg, catalog))
  {
  }

  /** Every registration built from two type references keeps them: the
      pair it reports, and the simplicity it reports for each end, are those
      of the given types. */
  lemma FromTypesRoundTrip<T>(source: T, target: T, isReading: bool, isWriting: bool, catalog: Catalog<T>)
    ensures FromTypes(Some(source), Some(target), isReading, isWriting).Success?
    ensures var reg := FromTypes(Some(source), Some(target), isReading, isWriting).value;
            && GetConvertiblePair(reg) == ConvertiblePair(source, target)
            && reg.reading == isReading && reg.writing == isWriting
            && IsSimpleSourceType(reg, catalog) == IsCrateBasicType(catalog, source)
            && IsSimpleTargetType(reg, catalog) == IsCrateBasicType(catalog, target)
  {
  }

  /** Writing participation depends only on the flags and the target type:
      two registrations that agree on those agree on `IsWriting`, whatever
      their source types. */
  lemma WritingIgnoresSource<T>(a: Registration<T>, b: Registration<T>, catalog: Catalog<T>)
    requires a.reading == b.reading && a.writing == b.writing
    requires a.pair.target == b.pair.target
    ensures IsWriting(a, catalog) == IsWriting(b, catalog)
  {
  }

  /** Reading participation depends only on the flags and the source type. */
  lemma ReadingIgnoresTarget<T>(a: Registration<T>, b: Registration<T>, catalog: Catalog<T>)
    requires a.reading == b.reading && a.writing == b.writing
    requires a.pair.source == b.pair.source
    ensures IsReading(a, catalog) == IsReading(b, catalog)
  {
  }

  /** The catalog is consulted for one type only per direction: two catalogs
      that agree on the target type give the same writing decision, and two
      that agree on the source type the same reading decision. */
  lemma CatalogConsultedAtOneEnd<T>(reg: Registration<T>, c1: Catalog<T>, c2: Catalog<T>)
    ensures IsSimpleTargetType(reg, c1) == IsSimpleTargetType(reg, c2) ==> IsWriting(reg, c1) == IsWriting(reg, c2)
    ensures IsSimpleSourceType(reg, c1) == IsSimpleSourceType(reg, c2) ==> IsReading(reg, c1) == IsReading(reg, c2)
  {
  }

  /** Without a forced flag a converter takes part in both directions exactly
      when both of its types are simple; with any flag forced it takes part in
      at least that direction. */
  lemma AutomaticBothDirections<T>(reg: Registration<T>, catalog: Catalog<T>)
    ensures !reg.reading && !reg.writing ==>
              (IsReading(reg, catalog) && IsWriting(reg, catalog)
               <==> IsSimpleSourceType(reg, catalog) && IsSimpleTargetType(reg, catalog))
    ensures reg.reading || reg.writing ==> IsReading(reg, catalog) || IsWriting(reg, catalog)
  {
  }
}
