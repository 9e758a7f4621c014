/**
 * `javax.money.provider.Monetary`: the process-wide registry. It picks a
 * component loader once, indexes the monetary extensions by the type they
 * expose, and fills one provider slot per capability on first request.
 * The registry is modelled as an explicit state value threaded through
 * the operations.
 */
module Monetary {
  import opened Wrappers
  import opened ComponentLoaders

  const MonetaryExtensionType: TypeName := "javax.money.provider.MonetaryExtension"
  const ExposedExtensionType: AnnotationName := "javax.money.provider.ExposedExtensionType"

  /** The capabilities that have a lazily filled provider slot. */
  datatype Capability =
    | CurrencyUnitProvider
    | ConversionProvider
    | ItemFormatterFactory
    | ItemParserFactory
    | RoundingProvider

  /** The service interface looked up for each capability. */
  function ServiceType(c: Capability): TypeName {
    match c
    case CurrencyUnitProvider => "javax.money.provider.CurrencyUnitProvider"
    case ConversionProvider => "javax.money.convert.ConversionProvider"
    case ItemFormatterFactory => "javax.money.format.ItemFormatterFactory"
    case ItemParserFactory => "javax.money.format.ItemParserFactory"
    case RoundingProvider => "javax.money.provider.RoundingProvider"
  }

  /** The exceptions the registry throws to its callers. */
  datatype MonetaryError =
    | UnsupportedOperation(capability: Capability)
    | IllegalArgument(extensionType: TypeName)

  /** The singleton's state: the loader, the extension index and the provider slots. */
  datatype Registry = Registry(
    loader: Loader,
    extensions: map<TypeName, Candidate>,
    currencyUnitProvider: Option<Candidate>,
    conversionProvider: Option<Candidate>,
    itemFormatterFactory: Option<Candidate>,
    itemParserFactory: Option<Candidate>,
    roundingProvider: Option<Candidate>)

  /** The provider slot of a capability. */
  function Slot(r: Registry, c: Capability): Option<Candidate> {
    match c
    case CurrencyUnitProvider => r.currencyUnitProvider
    case ConversionProvider => r.conversionProvider
    case ItemFormatterFactory => r.itemFormatterFactory
    case ItemParserFactory => r.itemParserFactory
    case RoundingProvider => r.roundingProvider
  }

  /** Fill the slot of one capability; the rest of the registry is untouched. */
  function WithSlot(r: Registry, c: Capability, p: Candidate): (r': Registry)
    ensures Slot(r', c) == Some(p)
    ensures forall d | d != c :: Slot(r', d) == Slot(r, d)
    ensures r'.loader == r.loader && r'.extensions == r.extensions
  {
    match c
    case CurrencyUnitProvider => r.(currencyUnitProvider := Some(p))
    case ConversionProvider => r.(conversionProvider := Some(p))
    case ItemFormatterFactory => r.(itemFormatterFactory := Some(p))
    case ItemParserFactory => r.(itemParserFactory := Some(p))
    case RoundingProvider => r.(roundingProvider := Some(p))
  }

  /**
   * `initLoader`: the first discovered custom loader is used if its
   * `init()` returns normally; in every other case the default loader is.
   */
  function InitLoader(discovered: seq<CustomLoader>): (l: Loader)
    ensures l.Custom? <==> |discovered| > 0 && discovered[0].initSucceeds
    ensures l.Custom? ==> l.custom == discovered[0]
  {
    if |discovered| > 0 && discovered[0].initSucceeds then Custom(discovered[0])
    else DefaultServiceLoader
  }

  /** Loaders after the first are never tried, whatever they would do. */
  lemma OnlyFirstLoaderTried(first: CustomLoader, rest: seq<CustomLoader>)
    ensures InitLoader([first] + rest) == InitLoader([first])
  {
  }

  /** `t` carries the exposed-type annotation, names `k` and implements it. */
  predicate ExposesValidly(t: Candidate, k: TypeName) {
    && ExposedExtensionType in t.annotations
    && t.exposedType == Some(k)
    && AssignableTo(t, k)
  }

  /**
   * `t` may sit under key `k` of the extension index: an annotated extension
   * only under the type it validly exposes, an unannotated one only under
   * its own class.
   */
  predicate IndexedCorrectly(k: TypeName, t: Candidate) {
    if ExposedExtensionType in t.annotations then ExposesValidly(t, k) else k == t.concreteClass
  }

  /** One iteration of the loop in `loadExtensions`. */
  function Register(m: map<TypeName, Candidate>, t: Candidate): (m': map<TypeName, Candidate>)
    ensures m.Keys <= m'.Keys
    ensures forall k | k in m' :: (k in m && m'[k] == m[k]) || (m'[k] == t && IndexedCorrectly(k, t))
    ensures ExposedExtensionType in t.annotations ==> forall k | k in m :: m'[k] == m[k]
    ensures ExposedExtensionType !in t.annotations ==> t.concreteClass in m' && m'[t.concreteClass] == t
  {
    if ExposedExtensionType in t.annotations then
      if t.exposedType.None? then m
      else if !AssignableTo(t, t.exposedType.value) then m
      else if t.exposedType.value in m then m
      else m[t.exposedType.value := t]
    else m[t.concreteClass := t]
  }

  /**
   * `loadExtensions`: register the extensions in the order the loader
   * returned them. Every entry is either one that was already there or an
   * extension from `ts` filed under a key it is entitled to.
   */
  function LoadExtensions(m: map<TypeName, Candidate>, ts: seq<Candidate>): (r: map<TypeName, Candidate>)
    ensures m.Keys <= r.Keys
    ensures forall k | k in r :: (k in m && r[k] == m[k]) || (r[k] in ts && IndexedCorrectly(k, r[k]))
    decreases |ts|
  {
    if |ts| == 0 then m else LoadExtensions(Register(m, ts[0]), ts[1..])
  }

  /** Annotated extensions never replace an entry that is already there. */
  lemma {:induction false} AnnotatedKeepExisting(m: map<TypeName, Candidate>, ts: seq<Candidate>, k: TypeName)
    requires forall t | t in ts :: ExposedExtensionType in t.annotations
    requires k in m
    ensures k in LoadExtensions(m, ts) && LoadExtensions(m, ts)[k] == m[k]
    decreases |ts|
  {
    if |ts| > 0 {
      AnnotatedKeepExisting(Register(m, ts[0]), ts[1..], k);
    }
  }

  /** `i` is the first position in `ts` of an extension validly exposing `k`. */
  ghost predicate FirstExposerAt(ts: seq<Candidate>, k: TypeName, i: int) {
    && 0 <= i < |ts|
    && ExposesValidly(ts[i], k)
    && forall j | 0 <= j < i :: !ExposesValidly(ts[j], k)
  }

  /**
   * First registrant wins: among annotated extensions, the type `k` ends up
   * mapped to the first one that validly exposes it.
   */
  lemma {:induction false} FirstRegistrantWins(m: map<TypeName, Candidate>, ts: seq<Candidate>, k: TypeName, i: int)
    requires forall t | t in ts :: ExposedExtensionType in t.annotations
    requires k !in m
    requires FirstExposerAt(ts, k, i)
    ensures k in LoadExtensions(m, ts) && LoadExtensions(m, ts)[k] == ts[i]
    decreases |ts|
  {
    if i == 0 {
      AnnotatedKeepExisting(Register(m, ts[0]), ts[1..], k);
    } else {
      assert !ExposesValidly(ts[0], k);
      assert FirstExposerAt(ts[1..], k, i - 1);
      FirstRegistrantWins(Register(m, ts[0]), ts[1..], k, i - 1);
    }
  }

  /** A type no annotated extension validly exposes never enters the index. */
  lemma {:induction false} UnexposedTypeAbsent(m: map<TypeName, Candidate>, ts: seq<Candidate>, k: TypeName)
    requires forall t | t in ts :: ExposedExtensionType in t.annotations
    requires k !in m
    requires forall t | t in ts :: !ExposesValidly(t, k)
    ensures k !in LoadExtensions(m, ts)
    decreases |ts|
  {
    if |ts| > 0 {
      assert ts[0] in ts;
      UnexposedTypeAbsent(Register(m, ts[0]), ts[1..], k);
    }
  }

  /** An unannotated extension is filed under its class, replacing an earlier one. */
  lemma LaterUnannotatedOverwrites(m: map<TypeName, Candidate>, a: Candidate, b: Candidate)
    requires ExposedExtensionType !in a.annotations && ExposedExtensionType !in b.annotations
    requires a.concreteClass == b.concreteClass
    ensures LoadExtensions(m, [a, b]) == m[b.concreteClass := b]
  {
    assert [a, b][1..] == [b];
    assert [b][1..] == [];
  }

  /** What `loadExtensions` asks the loader for. */
  const ExtensionQuery: Query := Query(MonetaryExtensionType, Some([ExposedExtensionType]))

  /**
   * Static initialisation: choose the loader, then index the extensions it
   * returns. All provider slots start empty.
   */
  function Initialize(discoveredLoaders: seq<CustomLoader>, env: Catalog): (r: Registry)
    ensures r.loader == InitLoader(discoveredLoaders)
    ensures forall c :: Slot(r, c).None?
    ensures forall k | k in r.extensions ::
      IndexedCorrectly(k, r.extensions[k]) && r.extensions[k] in LoaderGetInstances(r.loader, env, ExtensionQuery)
  {
    var loader := InitLoader(discoveredLoaders);
    var ts := LoaderGetInstances(loader, env, ExtensionQuery);
    Registry(loader, LoadExtensions(map[], ts), None, None, None, None, None)
  }

  /**
   * With the default loader only annotated extensions are returned, so every
   * entry sits under the type its extension validly exposes, and the
   * unannotated branch of `loadExtensions` never runs.
   */
  lemma DefaultLoaderIndexesByExposedType(discoveredLoaders: seq<CustomLoader>, env: Catalog)
    requires InitLoader(discoveredLoaders) == DefaultServiceLoader
    ensures forall k | k in Initialize(discoveredLoaders, env).extensions ::
      ExposesValidly(Initialize(discoveredLoaders, env).extensions[k], k)
  {
    var ts := GetInstances(env, MonetaryExtensionType, Some([ExposedExtensionType]));
    assert forall t | t in ts :: ExposedExtensionType in t.annotations;
  }

  /**
   * `getExtension`: the extension indexed under `t`, or an
   * `IllegalArgumentException` when there is none.
   */
  function GetExtension(r: Registry, t: TypeName): (res: Result<Candidate, MonetaryError>)
    ensures res.Failure? <==> t !in r.extensions
    ensures res.Failure? ==> res.error == IllegalArgument(t)
    ensures res.Success? ==> res.value == r.extensions[t]
  {
    if t in r.extensions then Success(r.extensions[t]) else Failure(IllegalArgument(t))
  }

  /** `isExtensionAvailable`: whether `t` is indexed. */
  function IsExtensionAvailable(r: Registry, t: TypeName): (b: bool)
    ensures b <==> GetExtension(r, t).Success?
  {
    t in r.extensions
  }

  /** `getLoadedExtensions`: the indexed types. */
  function LoadedExtensions(r: Registry): (types: set<TypeName>)
    ensures forall t :: t in types <==> IsExtensionAvailable(r, t)
  {
    r.extensions.Keys
  }

  /**
   * The loaded types are the index's keys, and no provider lookup changes
   * the answer of any extension query.
   */
  lemma ExtensionQueriesAgree(r: Registry, env: Catalog, c: Capability, t: TypeName)
    ensures LoadedExtensions(r) == r.extensions.Keys
    ensures GetProvider(r, env, c).Success? ==>
      var r' := GetProvider(r, env, c).value.1;
      && GetExtension(r', t) == GetExtension(r, t)
      && IsExtensionAvailable(r', t) == IsExtensionAvailable(r, t)
      && LoadedExtensions(r') == LoadedExtensions(r)
  {
  }

  /**
   * After initialisation with the default loader, `getExtension(k)` returns
   * the first discovered extension validly exposing `k`, and fails when no
   * discovered extension does.
   */
  lemma InitializedExtensionLookup(discoveredLoaders: seq<CustomLoader>, env: Catalog, k: TypeName)
    requires InitLoader(discoveredLoaders) == DefaultServiceLoader
    ensures var ts := GetInstances(env, MonetaryExtensionType, Some([ExposedExtensionType]));
      && (forall i | FirstExposerAt(ts, k, i) :: GetExtension(Initialize(discoveredLoaders, env), k) == Success(ts[i]))
      && ((forall t | t in ts :: !ExposesValidly(t, k)) ==>
          GetExtension(Initialize(discoveredLoaders, env), k) == Failure(IllegalArgument(k)))
  {
    var ts := GetInstances(env, MonetaryExtensionType, Some([ExposedExtensionType]));
    assert forall t | t in ts :: ExposedExtensionType in t.annotations;
    forall i | FirstExposerAt(ts, k, i)
      ensures GetExtension(Initialize(discoveredLoaders, env), k) == Success(ts[i])
    {
      FirstRegistrantWins(map[], ts, k, i);
    }
    if forall t | t in ts :: !ExposesValidly(t, k) {
      UnexposedTypeAbsent(map[], ts, k);
    }
  }

  /** The lookup behind a provider slot: the service type with no annotations. */
  function ProviderQuery(c: Capability): Query {
    Query(ServiceType(c), Some([]))
  }

  /**
   * The `get*Provider` accessors: a filled slot is returned as it is
   * without consulting the loader; an empty one is filled from the loader,
   * and if the loader finds nothing an `UnsupportedOperationException` is
   * thrown and the registry is left as it was.
   */
  function GetProvider(r: Registry, env: Catalog, c: Capability): (res: Result<(Candidate, Registry), MonetaryError>)
    ensures Slot(r, c).Some? ==> res == Success((Slot(r, c).value, r))
    ensures res.Failure? <==> Slot(r, c).None? && LoaderGetInstance(r.loader, env, ProviderQuery(c)).None?
    ensures res.Failure? ==> res.error == UnsupportedOperation(c)
    ensures Slot(r, c).None? && res.Success? ==> Some(res.value.0) == LoaderGetInstance(r.loader, env, ProviderQuery(c))
    ensures res.Success? ==>
      && Slot(res.value.1, c) == Some(res.value.0)
      && (forall d | d != c :: Slot(res.value.1, d) == Slot(r, d))
      && res.value.1.loader == r.loader
      && res.value.1.extensions == r.extensions
  {
    if Slot(r, c).Some? then Success((Slot(r, c).value, r))
    else
      var found := LoaderGetInstance(r.loader, env, ProviderQuery(c));
      if found.None? then Failure(UnsupportedOperation(c))
      else Success((found.value, WithSlot(r, c, found.value)))
  }

  /**
   * Once a provider has been returned, every later request returns the
   * identical provider and leaves the registry unchanged, even if the
   * registrations have changed since.
   */
  lemma ProviderCacheStable(r: Registry, env: Catalog, env': Catalog, c: Capability)
    requires GetProvider(r, env, c).Success?
    ensures GetProvider(GetProvider(r, env, c).value.1, env', c) == GetProvider(r, env, c)
  {
  }

  /**
   * With the default loader an empty slot is filled with the first
   * implementation registered for the capability's service type; with none
   * registered the request fails.
   */
  lemma DefaultProviderIsFirstRegistered(r: Registry, env: Catalog, c: Capability)
    requires r.loader == DefaultServiceLoader && Slot(r, c).None?
    ensures GetProvider(r, env, c).Failure? <==> |Discover(env, ServiceType(c))| == 0
    ensures GetProvider(r, env, c).Success? ==> GetProvider(r, env, c).value.0 == Discover(env, ServiceType(c))[0]
  {
    var cs := Discover(env, ServiceType(c));
    if |cs| > 0 {
      assert AnnotationsMatch(cs[0], Some([]));
      assert cs[0] in cs;
      var p := GetInstance(env, ServiceType(c), Some([]));
      var i :| FirstMatchAt(cs, Some([]), i) && cs[i] == p.value;
      assert i == 0;
    }
  }
}
