/** The per-type property registry: a get-or-create dictionary from a property
    to its configuration, whose subclass (category) is fixed by the `Property`
    overload used on first access. */
module StructuralTypeConfigurations {
  import opened Wrappers
  import opened Mapping
  import opened PropertyConfigurations

  /** The declared type of the selected property, which picks the `Property` overload. */
  datatype PropertyKind =
    | StructValue              // T where T : struct
    | NullableStructValue      // T?
    | StringValue              // string
    | ByteArrayValue           // byte[]
    | DecimalValue             // decimal
    | NullableDecimalValue     // decimal?
    | DateTimeValue            // DateTime
    | NullableDateTimeValue    // DateTime?
    | DateTimeOffsetValue      // DateTimeOffset
    | NullableDateTimeOffsetValue  // DateTimeOffset?
    | TimeSpanValue            // TimeSpan
    | NullableTimeSpanValue    // TimeSpan?

  /** The category an overload creates on first access; None for the overloads
      that throw NotImplementedException. */
  function CreatedCategory(kind: PropertyKind): Option<Category>
  {
    match kind
    case StructValue => Some(Primitive)
    case StringValue => Some(Str)
    case ByteArrayValue => Some(Binary)
    case DateTimeValue => Some(DateTime)
    case NullableDateTimeValue => Some(DateTime)
    case _ => None
  }

  /** One call of a `Property` overload; a None selector is a null expression. */
  datatype Access = Access(kind: PropertyKind, selector: Option<PropId>)

  /** One call on the registry, seen through the categories it stores: the
      outcome (the category of the returned configuration, or the exception)
      and the new registry. */
  function Step(cats: map<PropId, Category>, a: Access): (r: (Result<Category, Error>, map<PropId, Category>))
    // a stored entry is never replaced or removed
    ensures forall q :: q in cats ==> q in r.1 && r.1[q] == cats[q]
    // at most the selected property is added
    ensures r.1.Keys == cats.Keys || (a.selector.Some? && r.1.Keys == cats.Keys + {a.selector.value})
    // a failing call leaves the registry as it was
    ensures r.0.Failure? ==> r.1 == cats
    // a succeeding call returns the configuration stored for the selected property
    ensures r.0.Success? ==> a.selector.Some? && a.selector.value in r.1 && r.0.value == r.1[a.selector.value]
    // an unimplemented overload always fails, whatever its argument
    ensures CreatedCategory(a.kind).None? ==> r.0 == Failure(NotImplemented)
    // an implemented overload fails on a null selector
    ensures CreatedCategory(a.kind).Some? && a.selector.None? ==> r.0 == Failure(ArgumentNull("propertyExpression"))
    // first access stores the overload's category
    ensures CreatedCategory(a.kind).Some? && a.selector.Some? && a.selector.value !in cats ==>
      r.0 == Success(CreatedCategory(a.kind).value)
    // a later access succeeds iff its overload does no cast or the stored category is the overload's own
    ensures CreatedCategory(a.kind).Some? && a.selector.Some? && a.selector.value in cats ==>
      (r.0.Success? <==> a.kind == StructValue || cats[a.selector.value] == CreatedCategory(a.kind).value)
  {
    match CreatedCategory(a.kind)
    case None => (Failure(NotImplemented), cats)
    case Some(created) =>
      match a.selector
      case None => (Failure(ArgumentNull("propertyExpression")), cats)
      case Some(p) =>
        var cats' := if p in cats then cats else cats[p := created];
        var stored := cats'[p];
        if a.kind == StructValue || stored == created then (Success(stored), cats')
        else (Failure(InvalidCast(stored, created)), cats')
  }

  /** Get-or-create is idempotent: repeating a call gives the same outcome and
      changes nothing more. */
  lemma StepIdempotent(cats: map<PropId, Category>, a: Access)
    ensures Step(Step(cats, a).1, a) == Step(cats, a)
  {
  }

  /** The registry after a sequence of calls. */
  function Run(cats: map<PropId, Category>, accesses: seq<Access>): map<PropId, Category>
    decreases |accesses|
  {
    if accesses == [] then cats else Run(Step(cats, accesses[0]).1, accesses[1..])
  }

  /** The kind of the first implemented overload called on `p`, if any. */
  function FirstAccess(accesses: seq<Access>, p: PropId): (k: Option<PropertyKind>)
    ensures k.Some? ==> CreatedCategory(k.value).Some?
    decreases |accesses|
  {
    if accesses == [] then None
    else if accesses[0].selector == Some(p) && CreatedCategory(accesses[0].kind).Some? then Some(accesses[0].kind)
    else FirstAccess(accesses[1..], p)
  }

  /** The category of a property is fixed by the overload of its first access:
      entries already present keep their category, a property is present
      afterwards iff some implemented overload selected it, and then its
      category is the one that first overload creates. */
  lemma {:induction false} CategoryFixedByFirstAccess(cats: map<PropId, Category>, accesses: seq<Access>, p: PropId)
    ensures p in cats ==> p in Run(cats, accesses) && Run(cats, accesses)[p] == cats[p]
    ensures p !in cats ==> (p in Run(cats, accesses) <==> FirstAccess(accesses, p).Some?)
    ensures p !in cats && FirstAccess(accesses, p).Some? ==>
      Run(cats, accesses)[p] == CreatedCategory(FirstAccess(accesses, p).value).value
    decreases |accesses|
  {
    if accesses != [] {
      var a := accesses[0];
      var next := Step(cats, a).1;
      CategoryFixedByFirstAccess(next, accesses[1..], p);
      if p !in cats && a.selector == Some(p) && CreatedCategory(a.kind).Some? {
        assert p in next && next[p] == CreatedCategory(a.kind).value;
      } else if p !in cats {
        assert p !in next;
      }
    }
  }

  /** Each call grows the registry by at most one entry. */
  lemma {:induction false} RunGrowsByAtMostOnePerCall(cats: map<PropId, Category>, accesses: seq<Access>)
    ensures cats.Keys <= Run(cats, accesses).Keys
    ensures |Run(cats, accesses)| <= |cats| + |accesses|
    decreases |accesses|
  {
    if accesses != [] {
      var next := Step(cats, accesses[0]).1;
      if next.Keys != cats.Keys {
        var p := accesses[0].selector.value;
        assert next.Keys == cats.Keys + {p};
        assert |next.Keys| <= |cats.Keys| + |{p}|;
      }
      RunGrowsByAtMostOnePerCall(next, accesses[1..]);
    }
  }

  /** The configuration of one structural (entity or complex) type. */
  class StructuralTypeConfiguration {
    var propertyConfigurationsByProperty: map<PropId, PrimitivePropertyConfiguration>

    /** Each stored configuration is for the property it is stored under. */
    ghost predicate Valid()
      reads this
    {
      forall p :: p in propertyConfigurationsByProperty ==> propertyConfigurationsByProperty[p].property == p
    }

    /** The registry seen through the categories of the stored configurations. */
    function Categories(): map<PropId, Category>
      reads this
    {
      map p | p in propertyConfigurationsByProperty :: propertyConfigurationsByProperty[p].category
    }

    constructor ()
      ensures Valid() && propertyConfigurationsByProperty == map[]
    {
      propertyConfigurationsByProperty := map[];
    }

    /** Every `Property(...)` overload: the one for `kind`, called with `selector`. */
    method Property(kind: PropertyKind, selector: Option<PropId>) returns (r: Result<PrimitivePropertyConfiguration, Error>)
      requires Valid()
      modifies this
      ensures Valid()
      // no two properties share one configuration object
      ensures forall p, q :: p in propertyConfigurationsByProperty && q in propertyConfigurationsByProperty && p != q ==>
        propertyConfigurationsByProperty[p] != propertyConfigurationsByProperty[q]
      ensures Categories() == Step(old(Categories()), Access(kind, selector)).1
      ensures r.Failure? <==> Step(old(Categories()), Access(kind, selector)).0.Failure?
      ensures r.Failure? ==> r.error == Step(old(Categories()), Access(kind, selector)).0.error
      ensures r.Failure? ==> propertyConfigurationsByProperty == old(propertyConfigurationsByProperty)
      ensures r.Success? ==> r.value.category == Step(old(Categories()), Access(kind, selector)).0.value
      // the returned object is the one stored, shared with the registry
      ensures r.Success? ==> selector.Some? && propertyConfigurationsByProperty[selector.value] == r.value
      // a repeated access returns the stored object and changes nothing
      ensures selector.Some? && selector.value in old(propertyConfigurationsByProperty) ==>
        propertyConfigurationsByProperty == old(propertyConfigurationsByProperty)
      ensures selector.Some? && selector.value in old(propertyConfigurationsByProperty) && r.Success? ==>
        r.value == old(propertyConfigurationsByProperty)[selector.value]
      // a first access inserts exactly one fresh, unconfigured object
      ensures selector.Some? && selector.value !in old(propertyConfigurationsByProperty) && r.Success? ==>
        fresh(r.value) && r.value.nullability == Unspecified && r.value.generatedOption == None &&
        propertyConfigurationsByProperty == old(propertyConfigurationsByProperty)[selector.value := r.value]
    {
      var created := CreatedCategory(kind);
      if created.None? {
        return Failure(NotImplemented);
      }
      if selector.None? {
        return Failure(ArgumentNull("propertyExpression"));
      }
      var property := selector.value;
      var configuration: PrimitivePropertyConfiguration;
      if property in propertyConfigurationsByProperty {
        configuration := propertyConfigurationsByProperty[property];
      } else {
        configuration := new PrimitivePropertyConfiguration(property, created.value);
        propertyConfigurationsByProperty := propertyConfigurationsByProperty[property := configuration];
      }
      assert Categories() == Step(old(Categories()), Access(kind, selector)).1;
      if kind == StructValue || configuration.category == created.value {
        r := Success(configuration);
      } else {
        r := Failure(InvalidCast(configuration.category, created.value));
      }
    }
  }
}
