/**
 * `javax.money.RoundingContext`: an immutable attribute store that names
 * the provider and rounding id of a rounding, with typed projections for
 * the well-known attributes, and its builder.
 */
module RoundingContexts {
  import opened Wrappers
  import opened Attributes
  import Instants

  const ProviderAttribute: string := "provider"
  const RoundingIdAttribute: string := "roundingId"
  const TimestampAttribute: string := "timestamp"
  const ScaleAttribute: string := "scale"
  /** `set(value, type)` is taken to file a value under the name of its declared type. */
  const CurrencyUnitAttribute: string := "javax.money.CurrencyUnit"

  /** `Objects.requireNonNull` failing on the named argument. */
  datatype ContextError = NullArgument(argument: string)

  /** A built, immutable rounding context. */
  datatype RoundingContext = RoundingContext(attributes: Store)

  /** The two identifying attributes every builder starts with are present. */
  ghost predicate Identified(s: Store) {
    GetText(s, ProviderAttribute).Some? && GetText(s, RoundingIdAttribute).Some?
  }

  /**
   * `new Builder(provider, roundingId)`: both arguments are required up
   * front; the provider is checked first. The new builder holds exactly
   * these two text attributes.
   */
  function NewBuilder(provider: Option<string>, roundingId: Option<string>): (r: Result<Builder, ContextError>)
    ensures provider.None? ==> r == Failure(NullArgument("provider"))
    ensures provider.Some? && roundingId.None? ==> r == Failure(NullArgument("roundingId"))
    ensures r.Success? <==> provider.Some? && roundingId.Some?
    ensures r.Success? ==>
      && GetText(r.value.attributes, ProviderAttribute) == provider
      && GetText(r.value.attributes, RoundingIdAttribute) == roundingId
      && r.value.attributes.Keys == {Key(ProviderAttribute, TextTag), Key(RoundingIdAttribute, TextTag)}
      && WellTyped(r.value.attributes)
  {
    if provider.None? then Failure(NullArgument("provider"))
    else
      var b := Set(Builder(map[]), ProviderAttribute, TextValue(provider.value));
      if roundingId.None? then Failure(NullArgument("roundingId"))
      else Success(Set(b, RoundingIdAttribute, TextValue(roundingId.value)))
  }

  /**
   * `setCurrencyUnit`: rejects a missing unit; otherwise stores it, leaving
   * every text, long, int and temporal attribute as it was.
   */
  function SetCurrencyUnit(b: Builder, unit: Option<CurrencyUnit>): (r: Result<Builder, ContextError>)
    ensures r.Failure? <==> unit.None?
    ensures r.Failure? ==> r.error == NullArgument("currencyUnit")
    ensures r.Success? ==> GetCurrencyUnitAttribute(r.value.attributes, CurrencyUnitAttribute) == unit
    ensures r.Success? ==> SameExcept(r.value.attributes, b.attributes, Key(CurrencyUnitAttribute, CurrencyUnitTag))
    ensures r.Success? ==> forall n :: GetInt(r.value.attributes, n) == GetInt(b.attributes, n)
    ensures r.Success? ==> forall n :: GetText(r.value.attributes, n) == GetText(b.attributes, n)
    ensures r.Success? ==> forall n :: GetLong(r.value.attributes, n) == GetLong(b.attributes, n)
    ensures r.Success? ==> forall n :: GetTemporal(r.value.attributes, n) == GetTemporal(b.attributes, n)
  {
    if unit.None? then Failure(NullArgument("currencyUnit"))
    else Success(Set(b, CurrencyUnitAttribute, CurrencyUnitValue(unit.value)))
  }

  /**
   * `setTimestamp(long)`: stores the milliseconds as a 64-bit integer
   * attribute; a temporal timestamp, if any, is left in place.
   */
  function SetTimestampMillis(b: Builder, millis: int): (b': Builder)
    ensures GetLong(b'.attributes, TimestampAttribute) == Some(millis)
    ensures SameExcept(b'.attributes, b.attributes, Key(TimestampAttribute, LongTag))
    ensures forall n :: GetCurrencyUnitAttribute(b'.attributes, n) == GetCurrencyUnitAttribute(b.attributes, n)
    ensures forall n :: GetTemporal(b'.attributes, n) == GetTemporal(b.attributes, n)
    ensures forall n :: GetText(b'.attributes, n) == GetText(b.attributes, n)
    ensures forall n :: GetInt(b'.attributes, n) == GetInt(b.attributes, n)
  {
    Set(b, TimestampAttribute, LongValue(millis))
  }

  /**
   * `setTimestamp(TemporalAccessor)`: stores the instant under the same name
   * but the temporal type; a millisecond timestamp, if any, is left in place.
   */
  function SetTimestamp(b: Builder, timestamp: Instants.ValidInstant): (b': Builder)
    ensures GetTemporal(b'.attributes, TimestampAttribute) == Some(timestamp)
    ensures SameExcept(b'.attributes, b.attributes, Key(TimestampAttribute, TemporalTag))
    ensures forall n :: GetCurrencyUnitAttribute(b'.attributes, n) == GetCurrencyUnitAttribute(b.attributes, n)
    ensures forall n :: GetLong(b'.attributes, n) == GetLong(b.attributes, n)
    ensures forall n :: GetText(b'.attributes, n) == GetText(b.attributes, n)
    ensures forall n :: GetInt(b'.attributes, n) == GetInt(b.attributes, n)
  {
    Set(b, TimestampAttribute, TemporalValue(timestamp))
  }

  /** `build()`: freeze the builder's current attributes. */
  function Build(b: Builder): (c: RoundingContext)
    ensures c.attributes == b.attributes
  {
    RoundingContext(b.attributes)
  }

  /** `getProvider()`: the text stored under `provider`, if any. */
  function GetProvider(c: RoundingContext): (r: Option<string>)
    ensures r.Some? <==> Key(ProviderAttribute, TextTag) in c.attributes && c.attributes[Key(ProviderAttribute, TextTag)].TextValue?
    ensures r.Some? ==> c.attributes[Key(ProviderAttribute, TextTag)] == TextValue(r.value)
  {
    GetText(c.attributes, ProviderAttribute)
  }

  /** `getRoundingId()`: the text stored under `roundingId`, if any. */
  function GetRoundingId(c: RoundingContext): (r: Option<string>)
    ensures r.Some? <==> Key(RoundingIdAttribute, TextTag) in c.attributes && c.attributes[Key(RoundingIdAttribute, TextTag)].TextValue?
    ensures r.Some? ==> c.attributes[Key(RoundingIdAttribute, TextTag)] == TextValue(r.value)
  {
    GetText(c.attributes, RoundingIdAttribute)
  }

  /** `getCurrencyUnit()`: the unit stored under the currency-unit type, if any. */
  function GetCurrencyUnit(c: RoundingContext): (r: Option<CurrencyUnit>)
    ensures r.Some? <==>
      Key(CurrencyUnitAttribute, CurrencyUnitTag) in c.attributes
      && c.attributes[Key(CurrencyUnitAttribute, CurrencyUnitTag)].CurrencyUnitValue?
    ensures r.Some? ==> c.attributes[Key(CurrencyUnitAttribute, CurrencyUnitTag)] == CurrencyUnitValue(r.value)
  {
    GetCurrencyUnitAttribute(c.attributes, CurrencyUnitAttribute)
  }

  /** `getScale()`: only a stored `int` scale; nothing is derived. */
  function GetScale(c: RoundingContext): (r: Option<int>)
    ensures r.Some? <==> Key(ScaleAttribute, IntTag) in c.attributes && c.attributes[Key(ScaleAttribute, IntTag)].IntValue?
    ensures r.Some? ==> c.attributes[Key(ScaleAttribute, IntTag)] == IntValue(r.value)
  {
    GetInt(c.attributes, ScaleAttribute)
  }

  /**
   * `getTimestamp()`: a stored temporal timestamp wins; failing that a
   * stored millisecond timestamp is converted with `Instant.ofEpochMilli`.
   */
  function GetTimestamp(c: RoundingContext): (r: Option<Instants.ValidInstant>)
    ensures GetTemporal(c.attributes, TimestampAttribute).Some? ==> r == GetTemporal(c.attributes, TimestampAttribute)
    ensures GetTemporal(c.attributes, TimestampAttribute).None? && GetLong(c.attributes, TimestampAttribute).Some? ==>
      r == Some(Instants.OfEpochMilli(GetLong(c.attributes, TimestampAttribute).value))
    ensures r.None? <==> GetTemporal(c.attributes, TimestampAttribute).None? && GetLong(c.attributes, TimestampAttribute).None?
  {
    var acc := GetTemporal(c.attributes, TimestampAttribute);
    if acc.None? then
      var value := GetLong(c.attributes, TimestampAttribute);
      if value.Some? then Some(Instants.OfEpochMilli(value.value)) else acc
    else acc
  }

  /**
   * `getTimestampMillis()`: a stored millisecond timestamp wins; failing
   * that the value is derived from `getTimestamp()`.
   */
  function GetTimestampMillis(c: RoundingContext): (r: Option<int>)
    ensures GetLong(c.attributes, TimestampAttribute).Some? ==> r == GetLong(c.attributes, TimestampAttribute)
    ensures GetLong(c.attributes, TimestampAttribute).None? && GetTemporal(c.attributes, TimestampAttribute).Some? ==>
      r == Some(Instants.ToEpochMilli(GetTemporal(c.attributes, TimestampAttribute).value))
    ensures r.None? <==> GetTemporal(c.attributes, TimestampAttribute).None? && GetLong(c.attributes, TimestampAttribute).None?
  {
    var value := GetLong(c.attributes, TimestampAttribute);
    if value.None? then
      var acc := GetTimestamp(c);
      if acc.Some? then Some(Instants.ToEpochMilli(acc.value)) else value
    else value
  }

  /**
   * `toBuilder()`: a fresh builder for the same provider and rounding id,
   * then every attribute of the context imported into it. A context without
   * its identifying attributes fails the builder's null checks.
   */
  function ToBuilder(c: RoundingContext): (r: Result<Builder, ContextError>)
    ensures r.Success? <==> Identified(c.attributes)
    ensures r.Success? ==> r.value.attributes.Keys == c.attributes.Keys
    ensures r.Success? ==> forall k | k in c.attributes :: r.value.attributes[k] == c.attributes[k]
  {
    var b :- NewBuilder(GetProvider(c), GetRoundingId(c));
    Success(ImportContext(b, c.attributes))
  }

  /** A builder made from a provider and a rounding id builds a context naming both. */
  lemma BuildIdentity(provider: string, roundingId: string)
    ensures NewBuilder(Some(provider), Some(roundingId)).Success?
    ensures GetProvider(Build(NewBuilder(Some(provider), Some(roundingId)).value)) == Some(provider)
    ensures GetRoundingId(Build(NewBuilder(Some(provider), Some(roundingId)).value)) == Some(roundingId)
    ensures GetCurrencyUnit(Build(NewBuilder(Some(provider), Some(roundingId)).value)).None?
    ensures GetScale(Build(NewBuilder(Some(provider), Some(roundingId)).value)).None?
    ensures GetTimestamp(Build(NewBuilder(Some(provider), Some(roundingId)).value)).None?
  {
  }

  /** A unit set on the builder is the unit the built context reports. */
  lemma CurrencyUnitRoundTrip(b: Builder, unit: CurrencyUnit)
    ensures SetCurrencyUnit(b, Some(unit)).Success?
    ensures GetCurrencyUnit(Build(SetCurrencyUnit(b, Some(unit)).value)) == Some(unit)
    ensures GetProvider(Build(SetCurrencyUnit(b, Some(unit)).value)) == GetProvider(Build(b))
    ensures GetRoundingId(Build(SetCurrencyUnit(b, Some(unit)).value)) == GetRoundingId(Build(b))
  {
  }

  /**
   * A unit set on a new builder survives a later timestamp, and a scale
   * already staged survives a later unit.
   */
  lemma SettersKeepEachOther(provider: string, roundingId: string, unit: CurrencyUnit,
                             timestamp: Instants.ValidInstant, millis: int, b: Builder)
    ensures var b0 := NewBuilder(Some(provider), Some(roundingId)).value;
      && GetCurrencyUnit(Build(SetTimestamp(SetCurrencyUnit(b0, Some(unit)).value, timestamp))) == Some(unit)
      && GetCurrencyUnit(Build(SetTimestampMillis(SetCurrencyUnit(b0, Some(unit)).value, millis))) == Some(unit)
    ensures GetScale(Build(SetCurrencyUnit(b, Some(unit)).value)) == GetScale(Build(b))
  {
  }

  /**
   * Only milliseconds set: the temporal accessor derives an instant that
   * converts back to exactly those milliseconds.
   */
  lemma MillisThenTemporal(b: Builder, millis: int)
    requires GetTemporal(b.attributes, TimestampAttribute).None?
    ensures GetTimestampMillis(Build(SetTimestampMillis(b, millis))) == Some(millis)
    ensures GetTimestamp(Build(SetTimestampMillis(b, millis))) == Some(Instants.OfEpochMilli(millis))
    ensures Instants.ToEpochMilli(GetTimestamp(Build(SetTimestampMillis(b, millis))).value) == millis
  {
    Instants.MillisRoundTrip(millis);
  }

  /**
   * Only an instant set: the millisecond accessor derives a count that
   * converts back to the same instant whenever it has millisecond resolution.
   */
  lemma TemporalThenMillis(b: Builder, timestamp: Instants.ValidInstant)
    requires GetLong(b.attributes, TimestampAttribute).None?
    ensures GetTimestamp(Build(SetTimestamp(b, timestamp))) == Some(timestamp)
    ensures GetTimestampMillis(Build(SetTimestamp(b, timestamp))) == Some(Instants.ToEpochMilli(timestamp))
    ensures Instants.MillisecondResolution(timestamp) <==>
      Instants.OfEpochMilli(GetTimestampMillis(Build(SetTimestamp(b, timestamp))).value) == timestamp
  {
    Instants.InstantRoundTrip(timestamp);
  }

  /** `toBuilder().build()` reproduces the context attribute for attribute. */
  lemma ToBuilderRoundTrip(c: RoundingContext)
    requires Identified(c.attributes)
    ensures ToBuilder(c).Success?
    ensures Build(ToBuilder(c).value) == c
    ensures GetProvider(Build(ToBuilder(c).value)) == GetProvider(c)
    ensures GetRoundingId(Build(ToBuilder(c).value)) == GetRoundingId(c)
  {
    var b := ToBuilder(c).value;
    assert b.attributes == c.attributes;
  }

  /**
   * Every builder that the constructor and setters can produce is
   * identified, so every context built from it round-trips through `toBuilder`.
   */
  lemma SettersKeepIdentity(b: Builder, millis: int, timestamp: Instants.ValidInstant, unit: CurrencyUnit)
    requires Identified(b.attributes)
    ensures Identified(SetTimestampMillis(b, millis).attributes)
    ensures Identified(SetTimestamp(b, timestamp).attributes)
    ensures Identified(SetCurrencyUnit(b, Some(unit)).value.attributes)
  {
  }
}
