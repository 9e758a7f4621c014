# JSR-354 context and registry core, modelled in Dafny

This project models two pieces of the JSR-354 Money and Currency API:

- **The typed rounding context** (`javax.money.RoundingContext`). It is an immutable store of attributes, each keyed by a name and the type it was stored as. It has named projections: provider, rounding id, currency unit, scale and timestamp. Its builder rejects a missing provider or rounding id up front. Milliseconds convert to an `Instant` and back exactly. An `Instant` converts to milliseconds and back exactly when it has millisecond resolution; otherwise its sub-millisecond part is dropped.
- **The provider and extension registry** (`javax.money.provider.Monetary`).
  - It picks one component loader.
  - The default loader (`DefaultServiceLoader`) finds the registered implementations of a type. It keeps those that carry *every* requested annotation, in discovery order. When one instance is asked for, it picks the first match.
  - The registry indexes the monetary extensions by the type they expose. Among annotated extensions the first valid registrant wins; an unannotated extension is put under its own class unconditionally.
  - Each capability has one provider slot. A slot is filled lazily and then cached.

Everything is written as pure functions over immutable values:

| module | file | what it holds |
|---|---|---|
| `Wrappers` | `wrappers.dfy` | `Option` stands for a Java `null`; `Result` stands for a thrown exception |
| `Instants` | `instants.dfy` | `Math.floorDiv`/`floorMod` as the JDK computes them, `Instant` as (seconds, nanos), `Instant.ofEpochMilli`, epoch-millisecond derivation |
| `Attributes` | `attributes.dfy` | the attribute store `map<Key, Value>` with `Key = (name, Tag)`, the typed reads, and the builder's `set` and `importContext` |
| `RoundingContexts` | `rounding_context.dfy` | `RoundingContext`, its `Builder` and all its accessors |
| `ComponentLoaders` | `component_loaders.dfy` | `ComponentLoader`, the discovery catalog, `DefaultServiceLoader` |
| `Monetary` | `monetary.dfy` | loader selection, the extension index, the provider slots, the extension queries |

Modelling choices:

- **Discovery.** Discovery is a `Catalog`: for each service type, the ordered sequence of `Candidate` records the platform would enumerate. A candidate records four things: its concrete class, the set of its annotations, the value of its exposed-type annotation, and the types it is assignable to. `isAssignableFrom` holds for the class itself and for those types.
- **Custom loaders.** The code of a custom `ComponentLoader` is not available. A custom loader is therefore given as data: whether its `init()` returns normally, and what its lookups answer for each query.
- **The registry singleton.** It is an explicit `Registry` value. `Initialize` builds it the way the static initialiser does: it chooses the loader, then loads the extensions. `GetProvider` returns the provider together with the updated registry.
- **The five accessors.** `getCurrencyUnitProvider`, `getConversionProvider`, `getItemFormatterFactory`, `getItemParserFactory` and `getRoundingProvider` share one shape. They are modelled once, as `GetProvider` over a `Capability`. The first accessor tests for `null` a second time outside its `if`, but this gives the same results as the other four.
- **The context store.** `AbstractContext` and `AbstractContextBuilder` are not part of this model. Their typed reads (`getText`, `getLong`, `getInt`, `getAny`, `get(type)`) are modelled as lookups under (name, type). An absent key or a value of another type reads as `None`. `set(value, type)` is taken to file the value under the type's name, `javax.money.CurrencyUnit`. `importContext` copies every attribute. Where a key is present in both, the imported value is taken to win; this is an assumption about unseen code. `toBuilder` does not depend on it, because its fresh builder holds only the context's own provider and rounding id.
- **Code over comments.** Where a doc comment disagrees with the code, the model follows the code. All five provider accessors fail with `UnsupportedOperationException`, although the comment on `getConversionProvider` names `IllegalArgumentException`. `getProvider` returns the provider name, although its comment describes a "precision" setting.
- **Conflicting timestamps.** A context can hold both a millisecond timestamp and a temporal timestamp that disagree. In that case `getTimestamp` returns the temporal one and `getTimestampMillis` returns the millisecond one. The code does not reconcile them, and the model keeps that behaviour.

## Model

| member | source | states |
|---|---|---|
| Instants.FloorDivIsEuclidean | src/main/java/javax/money/RoundingContext.java:90 | the JDK's floor division and floor modulus, written the way the JDK computes them, agree with Dafny's `/` and `%` for every positive divisor |
| Instants.MilliOfSecond | src/main/java/javax/money/RoundingContext.java:74 | the milli-of-second of a valid instant is the number of whole milliseconds in its nanosecond adjustment, so it lies in 0..999 |
| Instants.ToEpochMilli | src/main/java/javax/money/RoundingContext.java:74 | the derived milliseconds are the instant's position on the time line truncated down to a whole millisecond, and exact for a millisecond-resolution instant (`MillisRoundTrip` and `InstantRoundTrip` give the inverse laws) |
| Instants.SubMillisecondTruncated | src/main/java/javax/money/RoundingContext.java:74 | 1.5 ms after the epoch gives 1 and 0.5 ms before it gives -1: the sub-millisecond part is dropped downward |
| Instants.OfEpochMilli | src/main/java/javax/money/RoundingContext.java:90 | `Instant.ofEpochMilli` always yields a valid instant with no sub-millisecond part |
| Instants.MillisRoundTrip | src/main/java/javax/money/RoundingContext.java:69-94 | for every integer T, including negative ones, converting T to an instant and back gives T |
| Instants.InstantRoundTrip | src/main/java/javax/money/RoundingContext.java:69-94 | a valid instant converted to epoch milliseconds and back is unchanged if and only if it has millisecond resolution |
| Instants.MillisRoundTripExamples | src/main/java/javax/money/RoundingContext.java:90 | 0, 1, 1700000000000 and -1 map to the expected (seconds, nanos) pairs; -1 goes to second -1, which shows floor semantics |
| Attributes.GetText | src/main/java/javax/money/RoundingContext.java:50-52 | a text read finds a value exactly when one is stored under (name, text type); a missing name or another type gives None |
| Attributes.GetLong | src/main/java/javax/money/RoundingContext.java:70 | a long read finds a value exactly when a long is stored under that name |
| Attributes.GetInt | src/main/java/javax/money/RoundingContext.java:101-103 | an int read finds a value exactly when an int is stored under that name |
| Attributes.GetTemporal | src/main/java/javax/money/RoundingContext.java:86 | a temporal read finds a value exactly when a temporal value is stored under that name |
| Attributes.GetCurrencyUnitAttribute | src/main/java/javax/money/RoundingContext.java:59-61 | a currency-unit read finds a value exactly when a unit is stored under that name |
| Attributes.Set | src/main/java/javax/money/RoundingContext.java:167-181 | a set adds or overwrites exactly one (name, type) key, leaves every other attribute alone, and keeps the store well typed |
| Attributes.ImportContext | src/main/java/javax/money/RoundingContext.java:122-124 | an import copies every attribute of the context, keeps the builder's other attributes, and keeps the store well typed |
| Attributes.LastWriteWins | src/main/java/javax/money/RoundingContext.java:167-170 | setting the same key twice is the same as setting only the last value |
| Attributes.SetCommutes | src/main/java/javax/money/RoundingContext.java:167-181 | setting two different keys gives the same builder in either order; the long and temporal timestamps are two such keys |
| RoundingContexts.NewBuilder | src/main/java/javax/money/RoundingContext.java:144-149 | a missing provider fails first, then a missing rounding id; otherwise the builder holds exactly the two identifying text attributes |
| RoundingContexts.SetCurrencyUnit | src/main/java/javax/money/RoundingContext.java:156-159 | a missing unit is rejected; otherwise the unit reads back, and every other key, the scale included, is present and valued exactly as before |
| RoundingContexts.SetTimestampMillis | src/main/java/javax/money/RoundingContext.java:167-170 | the milliseconds read back as a long; every other key, including the temporal timestamp and the currency unit, is present and valued exactly as before |
| RoundingContexts.SetTimestamp | src/main/java/javax/money/RoundingContext.java:178-181 | the instant reads back as a temporal value; every other key, including the long timestamp and the currency unit, is present and valued exactly as before |
| RoundingContexts.Build | src/main/java/javax/money/RoundingContext.java:189-191 | the built context holds exactly the builder's attributes |
| RoundingContexts.GetProvider | src/main/java/javax/money/RoundingContext.java:111-113 | the provider is present exactly when text is stored under `provider`, and it is that text; `BuildIdentity` shows a built context reports the builder's provider |
| RoundingContexts.GetRoundingId | src/main/java/javax/money/RoundingContext.java:50-52 | the rounding id is present exactly when text is stored under `roundingId`, and it is that text; `BuildIdentity` shows a built context reports the builder's rounding id |
| RoundingContexts.GetCurrencyUnit | src/main/java/javax/money/RoundingContext.java:59-61 | the unit is present exactly when a unit is stored under the currency-unit type; `CurrencyUnitRoundTrip` shows a set unit reads back |
| RoundingContexts.GetScale | src/main/java/javax/money/RoundingContext.java:101-103 | the scale is present exactly when an int is stored under `scale`; nothing is derived |
| RoundingContexts.GetTimestamp | src/main/java/javax/money/RoundingContext.java:85-94 | a stored temporal timestamp wins; otherwise a stored long T gives `ofEpochMilli(T)`; with neither stored the result is None |
| RoundingContexts.GetTimestampMillis | src/main/java/javax/money/RoundingContext.java:69-78 | a stored long wins; otherwise a stored instant gives its epoch milliseconds; with neither stored the result is None |
| RoundingContexts.ToBuilder | src/main/java/javax/money/RoundingContext.java:122-124 | it succeeds exactly for contexts that name a provider and a rounding id, and the new builder has exactly the context's attributes |
| RoundingContexts.BuildIdentity | src/main/java/javax/money/RoundingContext.java:144-149 | `new Builder(p, id).build()` reports provider p and rounding id id, and no unit, scale or timestamp |
| RoundingContexts.CurrencyUnitRoundTrip | src/main/java/javax/money/RoundingContext.java:156-159 | after setting unit c, the built context reports c, and provider and rounding id are kept |
| RoundingContexts.SettersKeepEachOther | src/main/java/javax/money/RoundingContext.java:156-181 | a unit set on a new builder is still reported after either timestamp setter, and setting a unit keeps the scale |
| RoundingContexts.MillisThenTemporal | src/main/java/javax/money/RoundingContext.java:85-94 | with only milliseconds T set, `getTimestamp` derives an instant whose epoch milliseconds are exactly T, and `getTimestampMillis` gives T |
| RoundingContexts.TemporalThenMillis | src/main/java/javax/money/RoundingContext.java:69-78 | with only an instant set, `getTimestampMillis` derives its epoch milliseconds; these convert back to the same instant iff it has millisecond resolution |
| RoundingContexts.ToBuilderRoundTrip | src/main/java/javax/money/RoundingContext.java:122-124 | `toBuilder().build()` equals the original context, attribute for attribute |
| RoundingContexts.SettersKeepIdentity | src/main/java/javax/money/RoundingContext.java:156-181 | no setter removes the provider or the rounding id, so every context built from a builder round-trips through `toBuilder` |
| ComponentLoaders.CarriesAll | money-api/provider/src/main/java/javax/money/provider/Monetary.java:382-387 | the annotation loop succeeds iff every requested annotation is present |
| ComponentLoaders.AnnotationsMatch | money-api/provider/src/main/java/javax/money/provider/Monetary.java:377-388 | a null annotation list admits every component; otherwise a component matches iff it carries all requested annotations |
| ComponentLoaders.MoreAnnotationsNarrow | money-api/provider/src/main/java/javax/money/provider/Monetary.java:377-388 | requiring the annotations A and B matches exactly the components that match A and match B (AND, not OR) |
| ComponentLoaders.Matching | money-api/provider/src/main/java/javax/money/provider/Monetary.java:396-400 | the filter loop keeps only matching components, keeps every discovered matching component, and adds nothing |
| ComponentLoaders.MatchingIsSubsequence | money-api/provider/src/main/java/javax/money/provider/Monetary.java:392-406 | the result is a subsequence of the discovered components, so discovery order is kept |
| ComponentLoaders.MatchingPartition | money-api/provider/src/main/java/javax/money/provider/Monetary.java:396-400 | the kept and dropped components together are the discovered ones, duplicates included |
| ComponentLoaders.MatchingHead | money-api/provider/src/main/java/javax/money/provider/Monetary.java:392-406 | the head of the filtered list is the first discovered component that matches |
| ComponentLoaders.GetInstances | money-api/provider/src/main/java/javax/money/provider/Monetary.java:392-406 | `getInstances` returns exactly the discovered implementations that pass the annotation filter |
| ComponentLoaders.ResolveAmbiguous | money-api/provider/src/main/java/javax/money/provider/Monetary.java:371-375 | the ambiguity policy picks one of the matches, and it is always the first of the list |
| ComponentLoaders.ResolveAmbiguousPicksFirstMatch | money-api/provider/src/main/java/javax/money/provider/Monetary.java:359-375 | with several matches, the pick is the first discovered candidate that matches, never an arbitrary one |
| ComponentLoaders.GetInstance | money-api/provider/src/main/java/javax/money/provider/Monetary.java:359-369 | `getInstance` gives None iff nothing matches; otherwise it gives the first matching candidate in discovery order |
| ComponentLoaders.LoaderGetInstance | money-api/provider/src/main/java/javax/money/provider/Monetary.java:331-333 | with the default loader, the single lookup is `DefaultServiceLoader.getInstance` |
| ComponentLoaders.LoaderGetInstances | money-api/provider/src/main/java/javax/money/provider/Monetary.java:344-346 | with the default loader, the list lookup is `DefaultServiceLoader.getInstances` |
| Monetary.InitLoader | money-api/provider/src/main/java/javax/money/provider/Monetary.java:93-109 | the first custom loader is used iff one exists and its `init` succeeds; otherwise the default loader is used |
| Monetary.OnlyFirstLoaderTried | money-api/provider/src/main/java/javax/money/provider/Monetary.java:97-103 | custom loaders after the first never affect which loader is chosen |
| Monetary.Register | money-api/provider/src/main/java/javax/money/provider/Monetary.java:119-157 | one registration never removes a type; a new or changed entry is the extension under a key it may use; an annotated extension never changes an existing entry; an unannotated one always ends up under its own class |
| Monetary.LoadExtensions | money-api/provider/src/main/java/javax/money/provider/Monetary.java:116-159 | it never removes a type, and every new entry is a loaded extension filed under a key it may use; annotated extensions with a null or unimplemented exposed type are never indexed |
| Monetary.AnnotatedKeepExisting | money-api/provider/src/main/java/javax/money/provider/Monetary.java:140-145 | annotated extensions never replace a type that is already indexed |
| Monetary.FirstRegistrantWins | money-api/provider/src/main/java/javax/money/provider/Monetary.java:140-145 | when every extension in the list carries `@ExposedExtensionType` (always so with the default loader) and the type is not yet indexed, each exposed type ends up mapped to the first extension that validly exposes it |
| Monetary.UnexposedTypeAbsent | money-api/provider/src/main/java/javax/money/provider/Monetary.java:121-145 | when every extension in the list carries `@ExposedExtensionType` (always so with the default loader) and the type is not yet indexed, a type that no extension validly exposes never enters the index |
| Monetary.LaterUnannotatedOverwrites | money-api/provider/src/main/java/javax/money/provider/Monetary.java:150-157 | unannotated extensions are filed under their own class, and a later one replaces an earlier one |
| Monetary.Initialize | money-api/provider/src/main/java/javax/money/provider/Monetary.java:67-85 | static initialisation chooses the loader, leaves every provider slot empty, and indexes only loaded extensions under keys they may use |
| Monetary.DefaultLoaderIndexesByExposedType | money-api/provider/src/main/java/javax/money/provider/Monetary.java:117-118 | with the default loader every indexed extension validly exposes its key, so the unannotated branch never runs |
| Monetary.WithSlot | money-api/provider/src/main/java/javax/money/provider/Monetary.java:168-171 | filling a slot changes that slot only |
| Monetary.GetExtension | money-api/provider/src/main/java/javax/money/provider/Monetary.java:262-270 | it fails with IllegalArgument exactly when the type is not indexed; otherwise it returns the indexed extension |
| Monetary.IsExtensionAvailable | money-api/provider/src/main/java/javax/money/provider/Monetary.java:279-281 | an extension type is available exactly when `getExtension` for it succeeds |
| Monetary.LoadedExtensions | money-api/provider/src/main/java/javax/money/provider/Monetary.java:290-292 | the loaded types are exactly the types for which `isExtensionAvailable` holds |
| Monetary.ExtensionQueriesAgree | money-api/provider/src/main/java/javax/money/provider/Monetary.java:279-292 | the loaded types are exactly the index's keys, and a successful provider lookup leaves every extension query's answer unchanged |
| Monetary.InitializedExtensionLookup | money-api/provider/src/main/java/javax/money/provider/Monetary.java:116-159 | after default initialisation, `getExtension(k)` returns the first discovered extension that validly exposes k, and fails if there is none |
| Monetary.GetProvider | money-api/provider/src/main/java/javax/money/provider/Monetary.java:167-251 | a filled slot is returned without consulting the loader; an empty slot is filled from the loader, and only that slot changes; an empty result gives UnsupportedOperation and leaves the state unchanged |
| Monetary.ProviderCacheStable | money-api/provider/src/main/java/javax/money/provider/Monetary.java:167-251 | once a provider has been returned, later calls return the identical provider and registry, even with different registrations |
| Monetary.DefaultProviderIsFirstRegistered | money-api/provider/src/main/java/javax/money/provider/Monetary.java:167-177 | with the default loader, an empty slot gets the first registered implementation, and the call fails iff none is registered |

## Left out

- Concurrency is not modelled: the `ConcurrentHashMap`, the unsynchronised lazy slot fields, and static initialisation order. The registry is a single sequential state value.
- Real discovery is not modelled: `ServiceLoader` enumeration, reflection (`getAnnotation`, `isAssignableFrom`) and class loading. Their results are given data in the `Catalog` and `Candidate` records.
- A `ServiceConfigurationError` raised while iterating a `ServiceLoader` is not modelled. It is an `Error`, so `initLoader`'s `catch (Exception)` would not catch it.
- Logging is left out. Every logged-and-skipped case is modelled as a skip.
- The `try`/`catch` around each annotated extension in `loadExtensions` is not modelled as its own path. Reading the annotation value can throw (`TypeNotPresentException` when the exposed class is missing), and the code then skips the extension. The model can express that only as an absent exposed type (`exposedType == None`), which is also skipped.
- ComponentLoaders.LoaderGetInstance: states the result only for the default loader. A custom loader's answers are given data, and the `IllegalStateException` a custom loader may throw on ambiguity is not modelled.
- ComponentLoaders.LoaderGetInstances: states the result only for the default loader, for the same reason.
- `getLoader` is not modelled as its own member. It returns the chosen loader, which is the `loader` field of `Registry`.
- A `null` argument to `getExtension` or `isExtensionAvailable` (a `NullPointerException` from the map) is not modelled. Type names are plain strings.
- `AbstractContext` and `AbstractContextBuilder` are not part of this model. Their deferred validation at `build()` is not modelled either: the rounding-context builder already enforces the identifying attributes in its constructor.
- A `null` passed to `setTimestamp(TemporalAccessor)` is not modelled. Neither is a `TemporalAccessor` that is not an instant, for which `getLong(INSTANT_SECONDS)` may throw.
- RoundingContexts.GetTimestampMillis: does not model Java `long` overflow in `seconds * 1000`, because integers here are unbounded.
- Instants.ValidInstant bounds only the nanosecond adjustment. It does not impose `java.time.Instant`'s seconds range (-31557014167219200 to 31556889864403199), because integers here are unbounded.
- Serialisation of contexts is not modelled.
- `Permil` is not modelled. It is a `BigDecimal` division under `MathContext.DECIMAL64`, a conversion through `double`, and a delegation to `MonetaryAmount.multiply`. The model covers neither decimal rounding nor floating point.
