/**
 * The typed attribute store under every context, and the builder that
 * stages one. An attribute is addressed by its name together with the type
 * it was stored as, so reading it back as another type finds nothing.
 */
module Attributes {
  import opened Wrappers
  import Instants

  /** An opaque domain value stored by reference (`javax.money.CurrencyUnit`). */
  datatype CurrencyUnit = CurrencyUnit(code: string)

  /** The declared Java type an attribute was stored under. */
  datatype Tag = TextTag | LongTag | IntTag | TemporalTag | CurrencyUnitTag

  /** An attribute value; each alternative belongs to exactly one tag. */
  datatype Value =
    | TextValue(text: string)
    | LongValue(i64: int)
    | IntValue(i32: int)
    | TemporalValue(instant: Instants.ValidInstant)
    | CurrencyUnitValue(unit: CurrencyUnit)

  function TagOf(v: Value): Tag {
    match v
    case TextValue(_) => TextTag
    case LongValue(_) => LongTag
    case IntValue(_) => IntTag
    case TemporalValue(_) => TemporalTag
    case CurrencyUnitValue(_) => CurrencyUnitTag
  }

  /** The lookup identity of an attribute: its name and its declared type. */
  datatype Key = Key(name: string, tag: Tag)

  type Store = map<Key, Value>

  /** Every value sits under a key whose tag is the value's own type. */
  ghost predicate WellTyped(s: Store) {
    forall k | k in s :: TagOf(s[k]) == k.tag
  }

  /**
   * Typed read of a text attribute (`getText`): the stored string, or
   * `None` when the name is absent or was stored as another type.
   */
  function GetText(s: Store, name: string): (r: Option<string>)
    ensures r.Some? <==> Key(name, TextTag) in s && s[Key(name, TextTag)].TextValue?
    ensures r.Some? ==> s[Key(name, TextTag)] == TextValue(r.value)
  {
    var k := Key(name, TextTag);
    if k in s && s[k].TextValue? then Some(s[k].text) else None
  }

  /** Typed read of a 64-bit integer attribute (`getLong`). */
  function GetLong(s: Store, name: string): (r: Option<int>)
    ensures r.Some? <==> Key(name, LongTag) in s && s[Key(name, LongTag)].LongValue?
    ensures r.Some? ==> s[Key(name, LongTag)] == LongValue(r.value)
  {
    var k := Key(name, LongTag);
    if k in s && s[k].LongValue? then Some(s[k].i64) else None
  }

  /** Typed read of a 32-bit integer attribute (`getInt`). */
  function GetInt(s: Store, name: string): (r: Option<int>)
    ensures r.Some? <==> Key(name, IntTag) in s && s[Key(name, IntTag)].IntValue?
    ensures r.Some? ==> s[Key(name, IntTag)] == IntValue(r.value)
  {
    var k := Key(name, IntTag);
    if k in s && s[k].IntValue? then Some(s[k].i32) else None
  }

  /** Typed read of a temporal attribute (`getAny(name, TemporalAccessor.class)`). */
  function GetTemporal(s: Store, name: string): (r: Option<Instants.ValidInstant>)
    ensures r.Some? <==> Key(name, TemporalTag) in s && s[Key(name, TemporalTag)].TemporalValue?
    ensures r.Some? ==> s[Key(name, TemporalTag)] == TemporalValue(r.value)
  {
    var k := Key(name, TemporalTag);
    if k in s && s[k].TemporalValue? then Some(s[k].instant) else None
  }

  /** Typed read of a currency-unit attribute (`get(CurrencyUnit.class)`). */
  function GetCurrencyUnitAttribute(s: Store, name: string): (r: Option<CurrencyUnit>)
    ensures r.Some? <==> Key(name, CurrencyUnitTag) in s && s[Key(name, CurrencyUnitTag)].CurrencyUnitValue?
    ensures r.Some? ==> s[Key(name, CurrencyUnitTag)] == CurrencyUnitValue(r.value)
  {
    var k := Key(name, CurrencyUnitTag);
    if k in s && s[k].CurrencyUnitValue? then Some(s[k].unit) else None
  }

  /**
   * `s'` agrees with `s` on every key other than `k`: the same keys are
   * present and they hold the same values.
   */
  ghost predicate SameExcept(s': Store, s: Store, k: Key) {
    forall k' | k' != k :: (k' in s' <==> k' in s) && (k' in s ==> s'[k'] == s[k'])
  }

  /** The mutable staging area of a context, modelled as a value. */
  datatype Builder = Builder(attributes: Store)

  /**
   * `set(name, value)`: store `v` under its own type, overwriting whatever
   * that (name, type) key held; every other attribute is kept.
   */
  function Set(b: Builder, name: string, v: Value): (b': Builder)
    ensures b'.attributes.Keys == b.attributes.Keys + {Key(name, TagOf(v))}
    ensures b'.attributes[Key(name, TagOf(v))] == v
    ensures SameExcept(b'.attributes, b.attributes, Key(name, TagOf(v)))
    ensures WellTyped(b.attributes) ==> WellTyped(b'.attributes)
  {
    Builder(b.attributes[Key(name, TagOf(v)) := v])
  }

  /**
   * `importContext`: copy every attribute of `s` into the builder. The
   * implementation is not part of this model; where both hold a key the
   * imported value is taken to replace the staged one.
   */
  function ImportContext(b: Builder, s: Store): (b': Builder)
    ensures b'.attributes.Keys == b.attributes.Keys + s.Keys
    ensures forall k | k in s :: b'.attributes[k] == s[k]
    ensures forall k | k in b.attributes && k !in s :: b'.attributes[k] == b.attributes[k]
    ensures WellTyped(b.attributes) && WellTyped(s) ==> WellTyped(b'.attributes)
  {
    Builder(b.attributes + s)
  }

  /** Setting the same key twice keeps only the last value (last write wins). */
  lemma LastWriteWins(b: Builder, name: string, v1: Value, v2: Value)
    requires TagOf(v1) == TagOf(v2)
    ensures Set(Set(b, name, v1), name, v2) == Set(b, name, v2)
  {
    var k := Key(name, TagOf(v2));
    assert Set(Set(b, name, v1), name, v2).attributes == b.attributes[k := v2];
  }

  /** Writes to different keys do not interfere, whichever comes first. */
  lemma SetCommutes(b: Builder, n1: string, v1: Value, n2: string, v2: Value)
    requires Key(n1, TagOf(v1)) != Key(n2, TagOf(v2))
    ensures Set(Set(b, n1, v1), n2, v2) == Set(Set(b, n2, v2), n1, v1)
  {
    var k1 := Key(n1, TagOf(v1));
    var k2 := Key(n2, TagOf(v2));
    assert b.attributes[k1 := v1][k2 := v2] == b.attributes[k2 := v2][k1 := v1];
  }
}
