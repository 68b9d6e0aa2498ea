# ConverterRegistration — a Dafny model

This project models `ConverterRegistration` of spring-data-crate's object
mapping layer. A registration records a convertible pair (a source type and a
target type) and two override flags, `reading` and `writing`. Its two queries
decide in which conversion directions the registered converter takes part:

- `isWriting() = writing || (!reading && isSimpleTargetType())`
- `isReading() = reading || (!writing && isSimpleSourceType())`

The model is functional. A registration is an immutable datatype
`Registration(pair, reading, writing)`, and every query is a pure function of
it. Because nothing is mutable, the queries leave the registration unchanged by
construction.

Modelling choices:

- Type descriptors (`Class<?>`) are an abstract type parameter `T`.
- The store's simple-type holder (`HOLDER.isSimpleType`) is defined outside
  this class and is not modelled. It is injected as a `Catalog<T> = T -> bool`, an uninterpreted classifier passed to
  every query that needs it.
- A null reference is an `Option` input. A rejected construction is
  `Failure(InvalidArgument(name))`, where `name` is the null argument. The
  model does not raise a particular exception type.
- The source/target constructor builds a `ConvertiblePair` first. That class
  belongs to Spring's core and is not part of this model. The constructor's
  documentation says both types must not be null, so `MakePair` rejects a null
  source or a null target.
- Module `ConversionRegistry` applies the rules to many registrations at
  once. It assumes the registrations are a sequence and that the pairs chosen
  for a direction form a list in registration order, duplicates kept. This
  is an assumption of the model, not a description of any class in the
  source.

Files: `wrappers.dfy` (`Option`, `Result`), `converter_registration.dfy`
(the class), `conversion_registry.dfy` (the rules applied to a sequence of registrations).

## Model

| member | source | states |
|---|---|---|
| ConverterRegistration.New | src/main/java/org/springframework/data/crate/core/convert/ConverterRegistration.java:43-49 | Construction fails exactly when the pair is null, with an invalid-argument error naming the pair. Otherwise it succeeds and stores the given pair and both flags unchanged. |
| ConverterRegistration.MakePair | src/main/java/org/springframework/data/crate/core/convert/ConverterRegistration.java:54-60 | Building the pair succeeds exactly when both types are non-null and keeps them in order. A null source is reported before a null target. |
| ConverterRegistration.FromTypes | src/main/java/org/springframework/data/crate/core/convert/ConverterRegistration.java:59-61 | The source/target constructor succeeds exactly when both types are non-null. It then yields the same registration as the pair constructor applied to `(source, target)`. |
| ConverterRegistration.IsWriting | src/main/java/org/springframework/data/crate/core/convert/ConverterRegistration.java:68-70 | A forced writing flag always makes the converter a writer. A forced reading flag alone excludes writing, even for a simple target. With no flag, writing holds exactly when the target type is simple. |
| ConverterRegistration.IsReading | src/main/java/org/springframework/data/crate/core/convert/ConverterRegistration.java:77-79 | A forced reading flag always makes the converter a reader. A forced writing flag alone excludes reading, whatever the source type. With no flag, reading holds exactly when the source type is simple. |
| ConverterRegistration.DecisionTable | src/main/java/org/springframework/data/crate/core/convert/ConverterRegistration.java:68-79 | For every registration and both directions, the two query rules agree with an independent per-intent decision table. The table covers automatic, reading forced, writing forced and both forced. |
| ConverterRegistration.FromTypesRoundTrip | src/main/java/org/springframework/data/crate/core/convert/ConverterRegistration.java:86-106 | For a registration built from two non-null types, `GetConvertiblePair` returns exactly those types and both flags are kept. `IsSimpleSourceType` and `IsSimpleTargetType` return `IsCrateBasicType`, the catalog's verdict, on the given source and target. |
| ConverterRegistration.WritingIgnoresSource | src/main/java/org/springframework/data/crate/core/convert/ConverterRegistration.java:69-106 | Two registrations with the same flags and target type give the same writing answer, whatever their source types. |
| ConverterRegistration.ReadingIgnoresTarget | src/main/java/org/springframework/data/crate/core/convert/ConverterRegistration.java:78-97 | Two registrations with the same flags and source type give the same reading answer, whatever their target types. |
| ConverterRegistration.CatalogConsultedAtOneEnd | src/main/java/org/springframework/data/crate/core/convert/ConverterRegistration.java:95-116 | Writing consults the simple-type catalog only through `IsSimpleTargetType`, and reading only through `IsSimpleSourceType`. Two catalogs on which those accessors agree give the same answer. |
| ConverterRegistration.AutomaticBothDirections | src/main/java/org/springframework/data/crate/core/convert/ConverterRegistration.java:68-79 | With no flag set, a converter takes part in both directions exactly when both of its types are simple. With any flag set, it takes part in at least one direction. |
| ConversionRegistry.OneForcedSplits | src/main/java/org/springframework/data/crate/core/convert/ConverterRegistration.java:69-78 | When every registration forces exactly one direction, the selection for each direction has exactly as many entries as there are registrations forcing that direction. A forced direction takes the registration, and the cross-gating keeps it out of the other direction whatever its types. |
| ConversionRegistry.ForcedRegistrationPlacement | src/main/java/org/springframework/data/crate/core/convert/ConverterRegistration.java:68-79 | A forced direction always puts the registration's pair into that direction's list. A pair registered with only one forced direction reaches the opposite list only through a different registration. |

## Left out

- `AfterSaveEvent` (src/main/java/org/springframework/data/crate/core/mapping/event/AfterSaveEvent.java:26-33): its one constructor only forwards to `CrateMappingEvent`, which is not part of this model. It has no logic of its own.
- The contents of the simple-type catalog `CrateSimpleTypes.HOLDER`: it is defined outside this class and is not modelled, so every property holds for any classifier.
- Spring's `ConvertiblePair` and `Assert.notNull` internals: foreign library code. The pair is a plain datatype, and the null checks are `Failure` results rather than a specific exception type and message. `MakePair` checks the source before the target, following the order of that foreign constructor's checks; the cited lines only say that both must not be null.
- The code that consumes registrations is not part of this model. `ConversionRegistry` does not model its collection semantics: the order of pairs, whether duplicates are kept, or set semantics. Under set semantics, a pair registered twice would appear once, so the list lengths in `OneForcedSplits` would be an upper bound.
