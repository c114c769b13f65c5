# Reference resolution and metadata-name classification for System.Text.Json

This project models two pieces of logic from the System.Text.Json serializer
benchmarks and proves properties about them.

- **The reference resolver** (`DefaultReferenceResolver`) is the table behind
  reference preservation (`$id` / `$ref`).
  - In writing mode it gives each object, compared by identity, an id.
    The counter starts at 0, so the first id is 1.
  - In reading mode it records objects under string ids and resolves them.
  - It is modelled as the class `BenchmarkResolver.DefaultReferenceResolver`.
    Its fields are `referenceCount`, `objToId`, `idToObj` and the mode flag
    `writing`. A ghost field `seen` keeps the objects in first-seen order.
  - Its methods are specified through pure functions on the table:
    `OnSerialize`, `TryAdd`, `AddAsWritten`, `AddIntended` and `Resolve`.
    The lemmas are proved about those functions.
  - Object identity is Dafny's reference equality on `object`. This is what
    the source's `ReferenceEqualsEqualityComparer` provides.
- **The metadata property-name classifiers** map the raw bytes of a property
  name to `NoMetadata | Values | Id | Ref`. There are three of them, modelled
  as pure functions in module `ResolveMetadata`, with equivalence and
  disagreement lemmas.

In the source, the dictionary of the inactive mode is `null`. The model keeps
that dictionary empty. Any operation that would use it returns the fault
`NullReference`, which stands for the `NullReferenceException` the C# code
would raise. Exceptions are modelled as `Err`/`Fail` values.

Two facts about the code shape the model:

- Registration of an `$id` throws when the id is fresh. The commented-out
  `ThrowHelper.ThrowJsonException_MetadataDuplicateIdFound` call at
  BenchmarkResolver.cs:90 shows that it was meant to throw on a duplicate id.
  The model keeps both versions (see Findings).
- `GetMetadataUsingSequenceEquals` compares the whole name against the
  constants without their `$` (ResolveMetadata.cs lines 13-15 and 34-42).
  So it classifies `id`, `ref` and `values` as metadata, and `$id`, `$ref`
  and `$values` as ordinary names.

## Model

| member | source | states |
|---|---|---|
| `BenchmarkResolver.TryAdd` | src/benchmarks/micro/libraries/System.Text.Json/Serializer/BenchmarkResolver.cs:94-107 | returns true iff the key was absent; the key is present afterwards; a fresh key maps to the value; existing entries are never overwritten |
| `BenchmarkResolver.OnSerialize` | src/benchmarks/micro/libraries/System.Text.Json/Serializer/BenchmarkResolver.cs:117-129 | reports "already seen" iff the object has an id; the object afterwards holds the returned id; no existing id changes |
| `BenchmarkResolver.IdsOfKeys` | src/benchmarks/micro/libraries/System.Text.Json/Serializer/BenchmarkResolver.cs:121-123 | the objects with ids are exactly the objects of the first-seen order |
| `BenchmarkResolver.IdsOfAt` | src/benchmarks/micro/libraries/System.Text.Json/Serializer/BenchmarkResolver.cs:121-123 | the k-th object seen has id k + 1 |
| `BenchmarkResolver.IdsOfDenseAndInjective` | src/benchmarks/micro/libraries/System.Text.Json/Serializer/BenchmarkResolver.cs:148-160 | the ids in use are exactly 1..count, and distinct objects have distinct ids |
| `BenchmarkResolver.OnSerializeTableOf` | src/benchmarks/micro/libraries/System.Text.Json/Serializer/BenchmarkResolver.cs:117-126 | from a table of first-seen ids, a seen object returns its id and changes nothing; an unseen one is appended and gets count + 1 |
| `BenchmarkResolver.OnSerializeIdempotent` | src/benchmarks/micro/libraries/System.Text.Json/Serializer/BenchmarkResolver.cs:119-128 | a second lookup of the same object reports "already seen" with the same id and leaves the table unchanged |
| `BenchmarkResolver.FirstSeenExtends` | src/benchmarks/micro/libraries/System.Text.Json/Serializer/BenchmarkResolver.cs:119-123 | the first-seen order stays repetition-free, extends the previous order, and holds exactly the objects met |
| `BenchmarkResolver.ReplayIsFirstSeen` | src/benchmarks/micro/libraries/System.Text.Json/Serializer/BenchmarkResolver.cs:117-129 | any run of lookups ends with a table that gives ids 1..N to the distinct objects in first-seen order |
| `BenchmarkResolver.ReplayIdsAreFinal` | src/benchmarks/micro/libraries/System.Text.Json/Serializer/BenchmarkResolver.cs:117-129 | every lookup in a run returns the id that the object holds at the end of the run, so ids are stable |
| `BenchmarkResolver.FirstSeenOfDistinct` | src/benchmarks/micro/libraries/System.Text.Json/Serializer/BenchmarkResolver.cs:119-123 | when all objects are distinct, the first-seen order is the input order |
| `BenchmarkResolver.DistinctObjectsGetFirstIds` | src/benchmarks/micro/libraries/System.Text.Json/Serializer/BenchmarkResolver.cs:109-126 | N distinct objects, starting from a fresh table, get the ids 1, 2, ..., N in order; the first id is 1 |
| `BenchmarkResolver.SameObjectRepeated` | src/benchmarks/micro/libraries/System.Text.Json/Serializer/BenchmarkResolver.cs:39-42 | the same object looked up N > 0 times from a fresh table gets id 1 every time, and the counter ends at 1 |
| `BenchmarkResolver.RepeatSeen` | src/benchmarks/micro/libraries/System.Text.Json/Serializer/BenchmarkResolver.cs:119-128 | repeated lookups of an object that already has an id return that id each time and change nothing |
| `BenchmarkResolver.AddAsWritten` | src/benchmarks/micro/libraries/System.Text.Json/Serializer/BenchmarkResolver.cs:86-92 | as written, registration fails iff the id is fresh, and a fresh id is inserted anyway; a duplicate id passes with the dictionary unchanged |
| `BenchmarkResolver.AddIntended` | src/benchmarks/micro/libraries/System.Text.Json/Serializer/BenchmarkResolver.cs:88-91 | as intended, registration fails with a duplicate-id error iff the id is present, leaving the dictionary unchanged; otherwise the pair is inserted |
| `BenchmarkResolver.Resolve` | src/benchmarks/micro/libraries/System.Text.Json/Serializer/BenchmarkResolver.cs:137-145 | succeeds iff the id is registered, with the registered object; otherwise a reference-not-found error |
| `BenchmarkResolver.AddAsWrittenIsInverted` | src/benchmarks/micro/libraries/System.Text.Json/Serializer/BenchmarkResolver.cs:88-91 | as written, a fresh id throws although it is then registered; a duplicate id succeeds, and a later `$ref` resolves to the first object, not the new one |
| `BenchmarkResolver.AddIntendedThenResolve` | src/benchmarks/micro/libraries/System.Text.Json/Serializer/BenchmarkResolver.cs:137-145 | after a successful registration the id resolves to its object, and every other id resolves as before |
| `BenchmarkResolver.RegisterAllThenResolve` | src/benchmarks/micro/libraries/System.Text.Json/Serializer/BenchmarkResolver.cs:80-92 | with the corrected registration `AddIntended`, registering distinct fresh ids in document order succeeds; each of them, and each earlier id, then resolves to its own object |
| `BenchmarkResolver.RegisterAllRejectsRepeat` | src/benchmarks/micro/libraries/System.Text.Json/Serializer/BenchmarkResolver.cs:88-91 | with the corrected registration `AddIntended`, a registration sequence that repeats an id fails with the duplicate-id error |
| `BenchmarkResolver.RegisterAllRejectsPresent` | src/benchmarks/micro/libraries/System.Text.Json/Serializer/BenchmarkResolver.cs:88-91 | with the corrected registration `AddIntended`, a registration sequence that reuses an already registered id fails with the duplicate-id error |
| `BenchmarkResolver.DefaultReferenceResolver.constructor` | src/benchmarks/micro/libraries/System.Text.Json/Serializer/BenchmarkResolver.cs:62-77 | the mode is fixed by the argument; the counter is 0; both dictionaries are empty, and only the one of the chosen mode is ever populated |
| `BenchmarkResolver.DefaultReferenceResolver.TryGetOrAddReferenceOnSerialize` | src/benchmarks/micro/libraries/System.Text.Json/Serializer/BenchmarkResolver.cs:117-129 | in writing mode, performs exactly one `OnSerialize` step on the counter and dictionary, appends an unseen object to the first-seen order, and keeps the ids dense; the id is in 1..count; in reading mode it fails with a null reference and changes nothing |
| `BenchmarkResolver.DefaultReferenceResolver.AddReferenceOnDeserialize` | src/benchmarks/micro/libraries/System.Text.Json/Serializer/BenchmarkResolver.cs:86-92 | in reading mode, its outcome and new dictionary are exactly `AddAsWritten` of the old dictionary; in writing mode it fails with a null reference |
| `BenchmarkResolver.DefaultReferenceResolver.AddReferenceOnDeserializeChecked` | src/benchmarks/micro/libraries/System.Text.Json/Serializer/BenchmarkResolver.cs:86-92 | in reading mode, its outcome and new dictionary are exactly `AddIntended` of the old dictionary; in writing mode it fails with a null reference |
| `BenchmarkResolver.DefaultReferenceResolver.ResolveReferenceOnDeserialize` | src/benchmarks/micro/libraries/System.Text.Json/Serializer/BenchmarkResolver.cs:137-145 | in reading mode, it succeeds iff the id is registered and returns `Resolve` of the dictionary; in writing mode it fails with a null reference; it never changes state |
| `BenchmarkResolver.DefaultReferenceResolverBenchmark` | src/benchmarks/micro/libraries/System.Text.Json/Serializer/BenchmarkResolver.cs:37-43 | the loop passes the array itself on every iteration, so the table ends exactly one `OnSerialize` step from where it started; from a fresh resolver the counter is 1 and the array has id 1 |
| `ResolveMetadata.GetMetadataUsingSequenceEquals` | src/benchmarks/micro/corefx/System.Text.Json/Serializer/ResolveMetadata.cs:32-50 | total, including on the empty name; returns Id, Ref or Values exactly for the names `id`, `ref` and `values` |
| `ResolveMetadata.GetMetadataUsingSequenceEquals2` | src/benchmarks/micro/corefx/System.Text.Json/Serializer/ResolveMetadata.cs:56-86 | for a non-empty name: metadata only with a leading `$`; returns Id, Ref or Values exactly for `$id`, `$ref` and `$values` |
| `ResolveMetadata.GetMetadataPropertyName` | src/benchmarks/micro/corefx/System.Text.Json/Serializer/ResolveMetadata.cs:92-130 | for a non-empty name: Id iff `$id`, Ref iff `$ref`, Values iff `$values`, and NoMetadata iff none of the three |
| `ResolveMetadata.NoDollarIsNoMetadata` | src/benchmarks/micro/corefx/System.Text.Json/Serializer/ResolveMetadata.cs:94-129 | a name whose first byte is not `$` is NoMetadata for both length-dispatch classifiers |
| `ResolveMetadata.OtherLengthsAreNoMetadata` | src/benchmarks/micro/corefx/System.Text.Json/Serializer/ResolveMetadata.cs:96-126 | a name whose length is not 3, 4 or 7 is NoMetadata for both length-dispatch classifiers, whatever its bytes |
| `ResolveMetadata.SequenceEquals2AgreesWithPropertyName` | src/benchmarks/micro/corefx/System.Text.Json/Serializer/ResolveMetadata.cs:56-130 | the two length-dispatch classifiers agree on every non-empty name |
| `ResolveMetadata.PropertyNameIsSequenceEqualsOfTail` | src/benchmarks/micro/corefx/System.Text.Json/Serializer/ResolveMetadata.cs:92-130 | after a leading `$`, the byte-by-byte classifier equals the whole-name classifier applied to the rest of the name |
| `ResolveMetadata.SequenceEqualsDisagrees` | src/benchmarks/micro/corefx/System.Text.Json/Serializer/ResolveMetadata.cs:32-50 | on `$id`, `$ref` and `$values` the whole-name classifier returns NoMetadata while the length-dispatch classifier does not |
| `ResolveMetadata.UnprefixedNamesDisagree` | src/benchmarks/micro/corefx/System.Text.Json/Serializer/ResolveMetadata.cs:13-15 | on `id`, `ref` and `values` only the whole-name classifier reports metadata |
| `ResolveMetadata.BenchmarkNames` | src/benchmarks/micro/corefx/System.Text.Json/Serializer/ResolveMetadata.cs:17-26 | the UTF-8 bytes of the benchmark's parameter names classify as expected: `$id`, `$ref`, `$values` as metadata, `$idddd` and `values` as NoMetadata |

## Left out

- `BenchmarkResolver.DefaultReferenceResolver.TryGetOrAddReferenceOnSerialize`: does not model the unchecked 32-bit wrap-around of `_referenceCount`. Instead it requires the counter to be below 2^32 - 1 whenever the object is unseen.
- `ResolveMetadata.GetMetadataUsingSequenceEquals2`: the empty name is excluded by a precondition. The C# code reads `propertyName[0]` and would throw on it.
- `ResolveMetadata.GetMetadataPropertyName`: the empty name is excluded by a precondition, for the same reason.
- The `null` dictionary of the inactive mode is modelled as an empty map plus the mode flag. Using it gives the fault `NullReference`.
- Value semantics of the C# `struct` are not modelled. `DefaultReferenceResolver` is a struct (BenchmarkResolver.cs:56), and the Dafny class is a reference type. A copy of the struct shares both dictionaries but gets its own `_referenceCount`, so two copies could hand out the same id twice. The model has a single counter per table.
- Null arguments are not modelled, because the parameter types `object` and `string` are non-null. A null key makes `Dictionary` throw `ArgumentNullException`: a null `value` in `TryGetOrAddReferenceOnSerialize` (line 119), and a null `referenceId` at lines 88 and 139. A null `value` passed to `AddReferenceOnDeserialize` would be stored, and `ResolveReferenceOnDeserialize` would later return it.
- Hash codes (`RuntimeHelpers.GetHashCode`) and dictionary internals are not modelled. Only identity equality matters to the observable behaviour.
- `Dictionary.Add` at line 123 would throw on a duplicate key. It is only reached for an absent key, so the model has no fault for it.
- The UTF-8 encoding of the benchmark parameters is modelled only for ASCII strings (`AsciiBytes`). All the parameters are ASCII.
- The benchmark harness is not modelled: parameters, setup, the attributes, and the `ObjectIDGenerator` baseline (a runtime class that is not part of this repository).
- Converting a writing-mode id (`uint`) into a reading-mode id (`string`) is not modelled. The code does not perform it (the `.ToString()` at line 122 is commented out). So no serialize-then-deserialize round trip is stated.
- scripts/micro_benchmarks.py is not part of this model. It is command-line and build plumbing.
- src/benchmarks/micro/libraries/System.Text.Json/Serializer/WriteIgnoreCycle.cs is not part of this model. The ignore-cycle serializer it measures is library code that is not part of this repository.
- src/benchmarks/micro/corefx/System.Text.Json/Utf8JsonReader/Perf.Depth.cs is not part of this model. Depth enforcement lives in the JSON reader and writer, which are not part of this repository.

## Findings

| source | as written | input that shows it | evidently intended | confidence | as-written member | corrected member |
|---|---|---|---|---|---|---|
| src/benchmarks/micro/libraries/System.Text.Json/Serializer/BenchmarkResolver.cs:88 | `AddReferenceOnDeserialize` throws when `TryAdd` succeeds, that is, when the id is fresh. The pair stays inserted. A duplicate id returns normally and is ignored. | An empty reading-mode resolver, registering `"1"`: it throws. Registering `"1"` again with a different object: it succeeds, and `"1"` still resolves to the first object. | Throw the duplicate-id error when `TryAdd` fails, as the commented-out `ThrowJsonException_MetadataDuplicateIdFound` says. | high; not executed | `BenchmarkResolver.AddAsWrittenIsInverted` | `BenchmarkResolver.AddIntended` |
