/**
 * `Monetary.ComponentLoader` and its default implementation
 * `DefaultServiceLoader`: find the registered implementations of a type,
 * keep those carrying every requested annotation, and reduce the list to
 * one instance when a single one is asked for.
 */
module ComponentLoaders {
  import opened Wrappers

  /** Fully qualified Java type names. */
  type TypeName = string
  /** Fully qualified annotation type names. */
  type AnnotationName = string

  /**
   * One implementation found by discovery: its concrete class, the
   * annotations on that class, the value of its exposed-type annotation
   * (`None` for a missing value) and the types it is assignable to besides
   * its own class.
   */
  datatype Candidate = Candidate(
    concreteClass: TypeName,
    annotations: set<AnnotationName>,
    exposedType: Option<TypeName>,
    supertypes: set<TypeName>)

  /** `t.isAssignableFrom(c.getClass())`. */
  predicate AssignableTo(c: Candidate, t: TypeName) {
    t == c.concreteClass || t in c.supertypes
  }

  /**
   * The platform's service registrations, in the order the platform
   * enumerates them for each service type.
   */
  datatype Catalog = Catalog(registrations: map<TypeName, seq<Candidate>>)

  /** `ServiceLoader.load(service)`: the registered candidates, in order. */
  function Discover(env: Catalog, service: TypeName): seq<Candidate> {
    if service in env.registrations then env.registrations[service] else []
  }

  /** The loop of `annotationsMatch`: every required annotation is carried. */
  function CarriesAll(required: seq<AnnotationName>, carried: set<AnnotationName>): (b: bool)
    ensures b <==> forall i | 0 <= i < |required| :: required[i] in carried
  {
    if |required| == 0 then true
    else if required[0] !in carried then false
    else CarriesAll(required[1..], carried)
  }

  /**
   * `annotationsMatch`: a `null` annotation array admits every component;
   * otherwise the component must carry all of them (and, not or).
   */
  function AnnotationsMatch(c: Candidate, annotations: Option<seq<AnnotationName>>): (b: bool)
    ensures annotations.None? ==> b
    ensures annotations.Some? ==> (b <==> forall a | a in annotations.value :: a in c.annotations)
  {
    annotations.None? || CarriesAll(annotations.value, c.annotations)
  }

  /** The filtering loop of `getInstances`, keeping discovery order. */
  function Matching(cs: seq<Candidate>, annotations: Option<seq<AnnotationName>>): (r: seq<Candidate>)
    ensures |r| <= |cs|
    ensures forall i | 0 <= i < |r| :: AnnotationsMatch(r[i], annotations)
    ensures forall c | c in cs :: (c in r <==> AnnotationsMatch(c, annotations))
    ensures forall c | c in r :: c in cs
  {
    if |cs| == 0 then []
    else if AnnotationsMatch(cs[0], annotations) then [cs[0]] + Matching(cs[1..], annotations)
    else Matching(cs[1..], annotations)
  }

  /** `r` is `cs` with some elements dropped and the rest kept in order. */
  ghost predicate IsSubsequence(r: seq<Candidate>, cs: seq<Candidate>)
    decreases |cs|
  {
    if |r| == 0 then true
    else if |cs| == 0 then false
    else if r[0] == cs[0] then IsSubsequence(r[1..], cs[1..])
    else IsSubsequence(r, cs[1..])
  }

  /** The filter neither reorders nor invents candidates. */
  lemma {:induction false} MatchingIsSubsequence(cs: seq<Candidate>, annotations: Option<seq<AnnotationName>>)
    ensures IsSubsequence(Matching(cs, annotations), cs)
  {
    if |cs| > 0 {
      MatchingIsSubsequence(cs[1..], annotations);
    }
  }

  /**
   * Kept and dropped candidates partition the discovered ones, copies
   * included: nothing is duplicated or lost.
   */
  lemma {:induction false} MatchingPartition(cs: seq<Candidate>, annotations: Option<seq<AnnotationName>>)
    ensures multiset(Matching(cs, annotations)) + multiset(Unmatched(cs, annotations)) == multiset(cs)
  {
    if |cs| > 0 {
      var rest := cs[1..];
      MatchingPartition(rest, annotations);
      ConsMultiset(cs);
      if AnnotationsMatch(cs[0], annotations) {
        ConsMultiset([cs[0]] + Matching(rest, annotations));
      } else {
        ConsMultiset([cs[0]] + Unmatched(rest, annotations));
      }
    }
  }

  lemma ConsMultiset(s: seq<Candidate>)
    requires |s| > 0
    ensures multiset(s) == multiset{s[0]} + multiset(s[1..])
  {
    assert s == [s[0]] + s[1..];
  }

  /** The candidates the filter drops, in order. */
  function Unmatched(cs: seq<Candidate>, annotations: Option<seq<AnnotationName>>): (r: seq<Candidate>)
    ensures forall c | c in r :: c in cs && !AnnotationsMatch(c, annotations)
  {
    if |cs| == 0 then []
    else if AnnotationsMatch(cs[0], annotations) then Unmatched(cs[1..], annotations)
    else [cs[0]] + Unmatched(cs[1..], annotations)
  }

  /** Requiring more annotations never admits more candidates. */
  lemma MoreAnnotationsNarrow(c: Candidate, required: seq<AnnotationName>, extra: seq<AnnotationName>)
    ensures AnnotationsMatch(c, Some(required + extra)) <==>
      AnnotationsMatch(c, Some(required)) && AnnotationsMatch(c, Some(extra))
  {
    assert forall a :: a in required + extra <==> a in required || a in extra;
  }

  /** `i` is the position of the first candidate in `cs` that matches. */
  ghost predicate FirstMatchAt(cs: seq<Candidate>, annotations: Option<seq<AnnotationName>>, i: int) {
    && 0 <= i < |cs|
    && AnnotationsMatch(cs[i], annotations)
    && forall j | 0 <= j < i :: !AnnotationsMatch(cs[j], annotations)
  }

  /** The head of the filtered list is the first matching candidate. */
  lemma {:induction false} MatchingHead(cs: seq<Candidate>, annotations: Option<seq<AnnotationName>>)
    requires |Matching(cs, annotations)| > 0
    ensures exists i :: FirstMatchAt(cs, annotations, i) && cs[i] == Matching(cs, annotations)[0]
  {
    if AnnotationsMatch(cs[0], annotations) {
      assert FirstMatchAt(cs, annotations, 0);
    } else {
      MatchingHead(cs[1..], annotations);
      var i :| FirstMatchAt(cs[1..], annotations, i) && cs[1..][i] == Matching(cs[1..], annotations)[0];
      assert FirstMatchAt(cs, annotations, i + 1);
    }
  }

  /**
   * `DefaultServiceLoader.getInstances`: the discovered implementations
   * carrying every requested annotation, in discovery order
   * (`sortComponents` leaves the list as it is).
   */
  function GetInstances(env: Catalog, service: TypeName, annotations: Option<seq<AnnotationName>>): (r: seq<Candidate>)
    ensures forall i | 0 <= i < |r| :: AnnotationsMatch(r[i], annotations)
    ensures forall c | c in Discover(env, service) :: (c in r <==> AnnotationsMatch(c, annotations))
    ensures forall c | c in r :: c in Discover(env, service)
  {
    Matching(Discover(env, service), annotations)
  }

  /** `resolveAmbigousComponents`: the first of several matches. */
  function ResolveAmbiguous(found: seq<Candidate>): (c: Candidate)
    requires |found| > 0
    ensures c == found[0]
  {
    found[0]
  }

  /**
   * Applied to several matches, the ambiguity policy picks the first
   * discovered candidate that matches, never an arbitrary one.
   */
  lemma ResolveAmbiguousPicksFirstMatch(cs: seq<Candidate>, annotations: Option<seq<AnnotationName>>)
    requires |Matching(cs, annotations)| > 1
    ensures exists i :: FirstMatchAt(cs, annotations, i) && cs[i] == ResolveAmbiguous(Matching(cs, annotations))
  {
    MatchingHead(cs, annotations);
  }

  /**
   * `DefaultServiceLoader.getInstance`: nothing when nothing matches,
   * otherwise the first matching candidate in discovery order.
   */
  function GetInstance(env: Catalog, service: TypeName, annotations: Option<seq<AnnotationName>>): (r: Option<Candidate>)
    ensures r.None? <==> forall c | c in Discover(env, service) :: !AnnotationsMatch(c, annotations)
    ensures r.Some? ==> exists i :: FirstMatchAt(Discover(env, service), annotations, i) && Discover(env, service)[i] == r.value
  {
    var found := GetInstances(env, service, annotations);
    if |found| == 0 then None
    else
      MatchingHead(Discover(env, service), annotations);
      if |found| == 1 then Some(found[0])
      else Some(ResolveAmbiguous(found))
  }

  /** A `Monetary.ComponentLoader` call: the service type and its annotation filter. */
  datatype Query = Query(service: TypeName, annotations: Option<seq<AnnotationName>>)

  /**
   * A custom `ComponentLoader` found by discovery. Its code is not part of
   * this model, so its answers are given as data: whether `init()`
   * returns normally, and what its two lookups return for each query.
   */
  datatype CustomLoader = CustomLoader(
    loaderClass: TypeName,
    initSucceeds: bool,
    instanceAnswers: map<Query, Candidate>,
    instancesAnswers: map<Query, seq<Candidate>>)

  /** The component loader a registry uses. */
  datatype Loader = DefaultServiceLoader | Custom(custom: CustomLoader)

  /** `ComponentLoader.getInstance`, dispatched on the loader in use. */
  function LoaderGetInstance(loader: Loader, env: Catalog, q: Query): (r: Option<Candidate>)
    ensures loader.DefaultServiceLoader? ==> r == GetInstance(env, q.service, q.annotations)
  {
    match loader
    case DefaultServiceLoader => GetInstance(env, q.service, q.annotations)
    case Custom(l) => if q in l.instanceAnswers then Some(l.instanceAnswers[q]) else None
  }

  /** `ComponentLoader.getInstances`, dispatched on the loader in use; never `null`. */
  function LoaderGetInstances(loader: Loader, env: Catalog, q: Query): (r: seq<Candidate>)
    ensures loader.DefaultServiceLoader? ==> r == GetInstances(env, q.service, q.annotations)
  {
    match loader
    case DefaultServiceLoader => GetInstances(env, q.service, q.annotations)
    case Custom(l) => if q in l.instancesAnswers then l.instancesAnswers[q] else []
  }
}
