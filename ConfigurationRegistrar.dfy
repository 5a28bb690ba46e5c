/** The aggregation root: one entity type configuration per entity type,
    validation of table mappings, the three descriptor streams and the
    primary-key lookup that foreign-key resolution relies on. */
module Registrar {
  import opened Wrappers
  import opened Mapping
  import opened PropertyConfigurations

  /** What the registrar uses of an EntityTypeConfiguration (the class itself is
      not part of this model): its entity type, its table mapping (None while
      ToTable was not called), its primary-key configuration, and the outcome of
      its own GetColumnAttributesByMember and GetAssociationAttributesByMember
      streams. */
  datatype EntityTypeConfiguration = EntityTypeConfiguration(
    entityType: TypeId,
    tableAttribute: Option<TableAttribute>,
    primaryKey: PrimitivePropertyConfiguration,
    columnAttributes: Result<seq<ColumnAttributeByMember>, Error>,
    associationAttributes: Result<seq<AssociationAttributeByMember>, Error>)

  function ColumnsOf(c: EntityTypeConfiguration): Result<seq<ColumnAttributeByMember>, Error>
  {
    c.columnAttributes
  }

  function AssociationsOf(c: EntityTypeConfiguration): Result<seq<AssociationAttributeByMember>, Error>
  {
    c.associationAttributes
  }

  /** `order` lists every key of `m` exactly once: an enumeration of the dictionary. */
  ghost predicate IsEnumeration(order: seq<TypeId>, m: map<TypeId, EntityTypeConfiguration>)
  {
    && (forall i, j :: 0 <= i < j < |order| ==> order[i] != order[j])
    && (forall t :: t in order <==> t in m)
  }

  /** Every configuration is stored under its own entity type. */
  ghost predicate KeyedByEntityType(m: map<TypeId, EntityTypeConfiguration>)
  {
    forall t :: t in m ==> m[t].entityType == t
  }

  /** No two configurations in `vs` are for the same entity type. */
  ghost predicate DistinctEntityTypes(vs: seq<EntityTypeConfiguration>)
  {
    forall i, j :: 0 <= i < j < |vs| ==> vs[i].entityType != vs[j].entityType
  }

  /** The dictionary's values in the order of `order`. */
  function ValuesIn(order: seq<TypeId>, m: map<TypeId, EntityTypeConfiguration>): (vs: seq<EntityTypeConfiguration>)
    requires forall t :: t in order ==> t in m
    ensures |vs| == |order| && forall i :: 0 <= i < |order| ==> vs[i] == m[order[i]]
    decreases |order|
  {
    if order == [] then [] else [m[order[0]]] + ValuesIn(order[1..], m)
  }

  /** The values of a dictionary keyed by entity type, enumerated without
      repetition, name distinct entity types. */
  lemma ValuesInEnumeration(order: seq<TypeId>, m: map<TypeId, EntityTypeConfiguration>)
    requires IsEnumeration(order, m) && KeyedByEntityType(m)
    ensures DistinctEntityTypes(ValuesIn(order, m))
  {
    var vs := ValuesIn(order, m);
    forall i | 0 <= i < |order|
      ensures vs[i].entityType == order[i]
    {
      assert order[i] in m;
    }
    forall i, j | 0 <= i < j < |vs|
      ensures vs[i].entityType != vs[j].entityType
    {
      assert order[i] != order[j];
    }
  }

  // ----- Add -----

  /** Dictionary.Add keyed by the configuration's entity type. */
  function AddEntry(m: map<TypeId, EntityTypeConfiguration>, c: Option<EntityTypeConfiguration>)
    : (r: Result<map<TypeId, EntityTypeConfiguration>, Error>)
    ensures c.None? ==> r == Failure(ArgumentNull("entityTypeConfiguration"))
    ensures c.Some? && c.value.entityType in m ==> r == Failure(DuplicateKey(c.value.entityType))
    ensures c.Some? && c.value.entityType !in m ==>
      r.Success? && r.value.Keys == m.Keys + {c.value.entityType} && r.value[c.value.entityType] == c.value &&
      forall t :: t in m ==> r.value[t] == m[t]
  {
    match c
    case None => Failure(ArgumentNull("entityTypeConfiguration"))
    case Some(conf) =>
      if conf.entityType in m then Failure(DuplicateKey(conf.entityType))
      else Success(m[conf.entityType := conf])
  }

  /** The registry after adding `cs` in order, or the first exception. */
  function AddAll(m: map<TypeId, EntityTypeConfiguration>, cs: seq<EntityTypeConfiguration>)
    : Result<map<TypeId, EntityTypeConfiguration>, Error>
    decreases |cs|
  {
    if cs == [] then Success(m)
    else match AddEntry(m, Some(cs[0]))
      case Failure(e) => Failure(e)
      case Success(m') => AddAll(m', cs[1..])
  }

  /** `r` is `m` extended by the configurations `cs`, keyed by their entity types. */
  ghost predicate Extends(r: map<TypeId, EntityTypeConfiguration>, m: map<TypeId, EntityTypeConfiguration>, cs: seq<EntityTypeConfiguration>)
  {
    && (forall t :: t in r <==> t in m || exists i :: 0 <= i < |cs| && cs[i].entityType == t)
    && (forall t :: t in m ==> r[t] == m[t])
    && (forall i :: 0 <= i < |cs| ==> cs[i].entityType in r && r[cs[i].entityType] == cs[i])
  }

  /** Distinctness of a sequence split at its head. */
  lemma DistinctCons(c: EntityTypeConfiguration, rest: seq<EntityTypeConfiguration>)
    ensures DistinctEntityTypes([c] + rest) <==>
      DistinctEntityTypes(rest) && forall i :: 0 <= i < |rest| ==> rest[i].entityType != c.entityType
  {
    var cs := [c] + rest;
    if DistinctEntityTypes(rest) && forall i :: 0 <= i < |rest| ==> rest[i].entityType != c.entityType {
      forall i, j | 0 <= i < j < |cs| ensures cs[i].entityType != cs[j].entityType {
        assert cs[j] == rest[j - 1];
        if i > 0 { assert cs[i] == rest[i - 1]; }
      }
    }
    if DistinctEntityTypes(cs) {
      forall i, j | 0 <= i < j < |rest| ensures rest[i].entityType != rest[j].entityType {
        assert rest[i] == cs[i + 1] && rest[j] == cs[j + 1];
      }
      forall i | 0 <= i < |rest| ensures rest[i].entityType != c.entityType {
        assert rest[i] == cs[i + 1] && c == cs[0];
      }
    }
  }

  /** Extending `m` by `c` and then by `rest` extends `m` by `[c] + rest`. */
  lemma ExtendsCons(r: map<TypeId, EntityTypeConfiguration>, m: map<TypeId, EntityTypeConfiguration>,
                    c: EntityTypeConfiguration, rest: seq<EntityTypeConfiguration>)
    requires c.entityType !in m
    requires Extends(r, m[c.entityType := c], rest)
    ensures Extends(r, m, [c] + rest)
  {
    var cs := [c] + rest;
    forall u | u in r ensures u in m || exists i :: 0 <= i < |cs| && cs[i].entityType == u {
      if u !in m && u != c.entityType {
        var i :| 0 <= i < |rest| && rest[i].entityType == u;
        assert cs[i + 1] == rest[i];
      } else if u == c.entityType {
        assert cs[0] == c;
      }
    }
    forall u | u in m || exists i :: 0 <= i < |cs| && cs[i].entityType == u ensures u in r {
      if u !in m && u != c.entityType {
        var i :| 0 <= i < |cs| && cs[i].entityType == u;
        assert rest[i - 1] == cs[i];
      }
    }
    forall i | 0 <= i < |cs| ensures cs[i].entityType in r && r[cs[i].entityType] == cs[i] {
      if i > 0 { assert rest[i - 1] == cs[i]; }
    }
  }

  /** Registration succeeds iff the added entity types are distinct and new,
      and then it holds exactly the old entries and the added ones. */
  lemma {:induction false} AddAllSucceedsIffDistinct(m: map<TypeId, EntityTypeConfiguration>, cs: seq<EntityTypeConfiguration>)
    ensures AddAll(m, cs).Success? <==> DistinctEntityTypes(cs) && forall i :: 0 <= i < |cs| ==> cs[i].entityType !in m
    ensures AddAll(m, cs).Success? ==> Extends(AddAll(m, cs).value, m, cs)
    decreases |cs|
  {
    if cs != [] {
      var c, rest := cs[0], cs[1..];
      assert cs == [c] + rest;
      var t := c.entityType;
      if t !in m {
        var m' := m[t := c];
        AddAllSucceedsIffDistinct(m', rest);
        DistinctCons(c, rest);
        assert (forall i :: 0 <= i < |cs| ==> cs[i].entityType !in m) <==>
          (forall i :: 0 <= i < |rest| ==> rest[i].entityType !in m) by {
          forall i | 0 < i < |cs| ensures cs[i] == rest[i - 1] { }
        }
        if AddAll(m, cs).Success? {
          ExtendsCons(AddAll(m, cs).value, m, c, rest);
        }
      }
    }
  }

  /** Registration order does not matter: adding the same configurations in
      any order gives the same outcome, and on success the same registry. */
  lemma RegistrationOrderIrrelevant(m: map<TypeId, EntityTypeConfiguration>, cs: seq<EntityTypeConfiguration>, ds: seq<EntityTypeConfiguration>)
    requires multiset(cs) == multiset(ds)
    ensures AddAll(m, cs).Success? <==> AddAll(m, ds).Success?
    ensures AddAll(m, cs).Success? ==> AddAll(m, cs).value == AddAll(m, ds).value
  {
    AddAllSucceedsIffDistinct(m, cs);
    AddAllSucceedsIffDistinct(m, ds);
    if DistinctEntityTypes(cs) { PermutedDistinct(cs, ds); }
    if DistinctEntityTypes(ds) { PermutedDistinct(ds, cs); }
    PermutedFresh(m, cs, ds);
    PermutedFresh(m, ds, cs);
    if AddAll(m, cs).Success? {
      ExtensionUnique(AddAll(m, cs).value, AddAll(m, ds).value, m, cs, ds);
    }
  }

  /** If no element of `cs` has a registered entity type, neither has any element of a permutation. */
  lemma PermutedFresh(m: map<TypeId, EntityTypeConfiguration>, cs: seq<EntityTypeConfiguration>, ds: seq<EntityTypeConfiguration>)
    requires multiset(cs) == multiset(ds)
    ensures (forall i :: 0 <= i < |cs| ==> cs[i].entityType !in m) ==> forall j :: 0 <= j < |ds| ==> ds[j].entityType !in m
  {
    forall j | 0 <= j < |ds| ensures ds[j] in cs {
      assert ds[j] in multiset(cs);
    }
  }

  /** Extending a registry by two permutations of one sequence gives one registry. */
  lemma ExtensionUnique(r1: map<TypeId, EntityTypeConfiguration>, r2: map<TypeId, EntityTypeConfiguration>,
                        m: map<TypeId, EntityTypeConfiguration>, cs: seq<EntityTypeConfiguration>, ds: seq<EntityTypeConfiguration>)
    requires multiset(cs) == multiset(ds)
    requires Extends(r1, m, cs) && Extends(r2, m, ds)
    ensures r1 == r2
  {
    forall t | t in r1 ensures t in r2 && r1[t] == r2[t] {
      if t !in m {
        var i :| 0 <= i < |cs| && cs[i].entityType == t;
        assert cs[i] in multiset(ds);
        var j :| 0 <= j < |ds| && ds[j] == cs[i];
      }
    }
    forall t | t in r2 ensures t in r1 {
      if t !in m {
        var j :| 0 <= j < |ds| && ds[j].entityType == t;
        assert ds[j] in multiset(cs);
        var i :| 0 <= i < |cs| && cs[i] == ds[j];
      }
    }
  }

  /** An element occurring at two positions occurs at least twice. */
  lemma CountOfRepeated(s: seq<EntityTypeConfiguration>, i: nat, j: nat)
    requires i < j < |s|
    ensures s[i] == s[j] ==> multiset(s)[s[i]] >= 2
  {
    assert s == s[..i] + [s[i]] + s[i + 1..j] + [s[j]] + s[j + 1..];
  }

  /** With distinct entity types, each element occurs once, and elements with
      the same entity type are at the same position. */
  lemma DistinctElements(s: seq<EntityTypeConfiguration>, k: nat, l: nat)
    requires DistinctEntityTypes(s) && k < |s| && l < |s|
    ensures multiset(s)[s[k]] == 1
    ensures s[k].entityType == s[l].entityType ==> k == l
  {
    var rest := s[..k] + s[k + 1..];
    assert s == s[..k] + [s[k]] + s[k + 1..];
    forall i | 0 <= i < |rest| ensures rest[i] != s[k] {
      if i < k { assert rest[i] == s[i]; } else { assert rest[i] == s[i + 1]; }
    }
    assert s[k] !in rest;
  }

  /** A permutation of a sequence with distinct entity types has distinct entity types. */
  lemma PermutedDistinct(cs: seq<EntityTypeConfiguration>, ds: seq<EntityTypeConfiguration>)
    requires multiset(cs) == multiset(ds) && DistinctEntityTypes(cs)
    ensures DistinctEntityTypes(ds)
  {
    forall i, j | 0 <= i < j < |ds| ensures ds[i].entityType != ds[j].entityType {
      assert ds[i] in multiset(cs) && ds[j] in multiset(cs);
      var k :| 0 <= k < |cs| && cs[k] == ds[i];
      var l :| 0 <= l < |cs| && cs[l] == ds[j];
      DistinctElements(cs, k, l);
      CountOfRepeated(ds, i, j);
    }
  }

  // ----- Validate -----

  /** The first configuration in `vs` without a table mapping. */
  function FirstUnmapped(vs: seq<EntityTypeConfiguration>): (r: Option<TypeId>)
    ensures r.None? <==> forall i :: 0 <= i < |vs| ==> vs[i].tableAttribute.Some?
    ensures r.Some? ==> exists i :: 0 <= i < |vs| && vs[i].entityType == r.value && vs[i].tableAttribute.None?
    decreases |vs|
  {
    if vs == [] then None
    else if vs[0].tableAttribute.None? then Some(vs[0].entityType)
    else FirstUnmapped(vs[1..])
  }

  // ----- The three descriptor streams -----

  /** One (entity type, table) pair per configuration with a table mapping. */
  function TableAttributes(vs: seq<EntityTypeConfiguration>): (r: seq<TableAttributeByRootType>)
    ensures |r| <= |vs|
    decreases |vs|
  {
    if vs == [] then [] else TableOf(vs[0]) + TableAttributes(vs[1..])
  }

  /** The contribution of one configuration to the table stream. */
  function TableOf(c: EntityTypeConfiguration): seq<TableAttributeByRootType>
  {
    match c.tableAttribute
    case None => []
    case Some(a) => [TableAttributeByRootType(c.entityType, a)]
  }

  lemma TableAttributesUnfold(vs: seq<EntityTypeConfiguration>, i: nat)
    requires i < |vs|
    ensures TableAttributes(vs[i..]) == TableOf(vs[i]) + TableAttributes(vs[i + 1..])
  {
    assert vs[i..][1..] == vs[i + 1..];
  }

  /** A pair is in the table stream iff some configuration has that entity
      type and that table mapping; unmapped configurations contribute nothing. */
  lemma {:induction false} TableAttributesMembership(vs: seq<EntityTypeConfiguration>, t: TypeId, a: TableAttribute)
    ensures TableAttributeByRootType(t, a) in TableAttributes(vs) <==>
      exists i :: 0 <= i < |vs| && vs[i].entityType == t && vs[i].tableAttribute == Some(a)
    decreases |vs|
  {
    if vs != [] {
      TableAttributesMembership(vs[1..], t, a);
      if exists i :: 0 <= i < |vs| && vs[i].entityType == t && vs[i].tableAttribute == Some(a) {
        var i :| 0 <= i < |vs| && vs[i].entityType == t && vs[i].tableAttribute == Some(a);
        if i > 0 { assert vs[1..][i - 1] == vs[i]; }
      }
      if exists i :: 0 <= i < |vs| - 1 && vs[1..][i].entityType == t && vs[1..][i].tableAttribute == Some(a) {
        var i :| 0 <= i < |vs| - 1 && vs[1..][i].entityType == t && vs[1..][i].tableAttribute == Some(a);
        assert vs[i + 1] == vs[1..][i];
      }
    }
  }

  /** With distinct entity types, no entity type appears twice in the table
      stream: exactly one pair per mapped configuration. */
  lemma {:induction false} TableAttributesOnePerType(vs: seq<EntityTypeConfiguration>)
    requires DistinctEntityTypes(vs)
    ensures forall i, j :: 0 <= i < j < |TableAttributes(vs)| ==>
      TableAttributes(vs)[i].rootType != TableAttributes(vs)[j].rootType
    decreases |vs|
  {
    if vs != [] {
      var rest := vs[1..];
      assert DistinctEntityTypes(rest) by {
        forall i, j | 0 <= i < j < |rest| ensures rest[i].entityType != rest[j].entityType {
          assert rest[i] == vs[i + 1] && rest[j] == vs[j + 1];
        }
      }
      TableAttributesOnePerType(rest);
      var tail := TableAttributes(rest);
      if vs[0].tableAttribute.Some? {
        forall j | 0 <= j < |tail| ensures tail[j].rootType != vs[0].entityType {
          var x := tail[j];
          TableAttributesMembership(rest, x.rootType, x.attribute);
          var k :| 0 <= k < |rest| && rest[k].entityType == x.rootType && rest[k].tableAttribute == Some(x.attribute);
          assert rest[k] == vs[k + 1];
        }
      }
    }
  }

  /** Enumerating one stream and then another: the first exception, or both outputs in turn. */
  function Then<T>(a: Result<seq<T>, Error>, b: Result<seq<T>, Error>): Result<seq<T>, Error>
  {
    match a
    case Failure(e) => Failure(e)
    case Success(s) =>
      match b
      case Failure(e) => Failure(e)
      case Success(t) => Success(s + t)
  }

  lemma ThenAssociative<T>(a: Result<seq<T>, Error>, b: Result<seq<T>, Error>, c: Result<seq<T>, Error>)
    ensures Then(Then(a, b), c) == Then(a, Then(b, c))
  {
    if a.Success? && b.Success? && c.Success? {
      assert a.value + b.value + c.value == a.value + (b.value + c.value);
    }
  }

  /** The concatenation of each configuration's own stream, or the first exception. */
  function ConcatStreams<T>(vs: seq<EntityTypeConfiguration>, stream: EntityTypeConfiguration -> Result<seq<T>, Error>)
    : (r: Result<seq<T>, Error>)
    ensures r.Success? <==> forall i :: 0 <= i < |vs| ==> stream(vs[i]).Success?
    ensures r.Failure? ==> exists i :: 0 <= i < |vs| && stream(vs[i]) == Failure(r.error)
    decreases |vs|
  {
    if vs == [] then Success([])
    else Then(stream(vs[0]), ConcatStreams(vs[1..], stream))
  }

  /** Streaming a concatenation of enumerations. */
  lemma {:induction false} ConcatStreamsAppend<T>(vs: seq<EntityTypeConfiguration>, ws: seq<EntityTypeConfiguration>,
                                                  stream: EntityTypeConfiguration -> Result<seq<T>, Error>)
    ensures ConcatStreams(vs + ws, stream) == Then(ConcatStreams(vs, stream), ConcatStreams(ws, stream))
    decreases |vs|
  {
    if vs == [] {
      assert vs + ws == ws;
      if ConcatStreams(ws, stream).Success? {
        assert [] + ConcatStreams(ws, stream).value == ConcatStreams(ws, stream).value;
      }
    } else {
      assert (vs + ws)[0] == vs[0] && (vs + ws)[1..] == vs[1..] + ws;
      ConcatStreamsAppend(vs[1..], ws, stream);
      ThenAssociative(stream(vs[0]), ConcatStreams(vs[1..], stream), ConcatStreams(ws, stream));
    }
  }

  /** The stream of a single configuration is its own stream. */
  lemma ConcatStreamsSingle<T>(v: EntityTypeConfiguration, stream: EntityTypeConfiguration -> Result<seq<T>, Error>)
    ensures ConcatStreams([v], stream) == stream(v)
  {
    assert [v][1..] == [];
    if stream(v).Success? {
      assert stream(v).value + [] == stream(v).value;
    }
  }

  /** Nothing is added or dropped: a descriptor is in the stream iff it is in
      the own stream of some configuration, and the stream is as long as all
      own streams together. */
  lemma {:induction false} ConcatStreamsMembership<T>(vs: seq<EntityTypeConfiguration>,
                                                      stream: EntityTypeConfiguration -> Result<seq<T>, Error>, x: T)
    requires ConcatStreams(vs, stream).Success?
    ensures x in ConcatStreams(vs, stream).value <==> exists i :: 0 <= i < |vs| && x in stream(vs[i]).value
    ensures |ConcatStreams(vs, stream).value| == TotalLength(vs, stream)
    decreases |vs|
  {
    if vs != [] {
      ConcatStreamsMembership(vs[1..], stream, x);
      if exists i :: 0 <= i < |vs| && x in stream(vs[i]).value {
        var i :| 0 <= i < |vs| && x in stream(vs[i]).value;
        if i > 0 { assert vs[1..][i - 1] == vs[i]; }
      }
      if exists i :: 0 <= i < |vs| - 1 && x in stream(vs[1..][i]).value {
        var i :| 0 <= i < |vs| - 1 && x in stream(vs[1..][i]).value;
        assert vs[i + 1] == vs[1..][i];
      }
    }
  }

  /** The summed length of the own streams (all of which succeed). */
  function TotalLength<T>(vs: seq<EntityTypeConfiguration>, stream: EntityTypeConfiguration -> Result<seq<T>, Error>): nat
    requires forall i :: 0 <= i < |vs| ==> stream(vs[i]).Success?
    decreases |vs|
  {
    if vs == [] then 0 else |stream(vs[0]).value| + TotalLength(vs[1..], stream)
  }

  /** Taking one configuration out of an enumeration takes its own stream out of the output. */
  lemma ConcatStreamsRemove<T>(ws: seq<EntityTypeConfiguration>, j: nat, stream: EntityTypeConfiguration -> Result<seq<T>, Error>)
    requires j < |ws| && ConcatStreams(ws, stream).Success?
    ensures ConcatStreams(ws[..j] + ws[j + 1..], stream).Success?
    ensures multiset(ConcatStreams(ws, stream).value) ==
      multiset(stream(ws[j]).value) + multiset(ConcatStreams(ws[..j] + ws[j + 1..], stream).value)
  {
    var left, mid, right := ws[..j], [ws[j]], ws[j + 1..];
    assert ws == left + (mid + right);
    ConcatStreamsAppend(left, mid + right, stream);
    ConcatStreamsAppend(mid, right, stream);
    ConcatStreamsAppend(left, right, stream);
    ConcatStreamsSingle(ws[j], stream);
  }

  /** Removing a matching element from two multiset-equal sequences keeps them multiset-equal. */
  lemma RemoveMatching<X>(vs: seq<X>, ws: seq<X>, j: nat)
    requires multiset(vs) == multiset(ws)
    requires vs != [] && j < |ws| && ws[j] == vs[0]
    ensures multiset(vs[1..]) == multiset(ws[..j] + ws[j + 1..])
  {
    var v := vs[0];
    assert vs == [v] + vs[1..];
    assert ws == ws[..j] + [v] + ws[j + 1..];
    assert multiset(vs[1..]) == multiset(vs) - multiset{v};
    assert multiset(ws[..j] + ws[j + 1..]) == multiset(ws) - multiset{v};
  }

  /** The dictionary's enumeration order does not matter: for any two
      enumerations of the same configurations the stream fails in both or in
      neither, and on success holds the same descriptors the same number of times. */
  lemma {:induction false} ConcatStreamsPermutation<T>(vs: seq<EntityTypeConfiguration>, ws: seq<EntityTypeConfiguration>,
                                                       stream: EntityTypeConfiguration -> Result<seq<T>, Error>)
    requires multiset(vs) == multiset(ws)
    ensures ConcatStreams(vs, stream).Success? <==> ConcatStreams(ws, stream).Success?
    ensures ConcatStreams(vs, stream).Success? ==>
      multiset(ConcatStreams(vs, stream).value) == multiset(ConcatStreams(ws, stream).value)
    decreases |vs|
  {
    forall i | 0 <= i < |vs| ensures vs[i] in ws {
      assert vs[i] in multiset(ws);
    }
    forall j | 0 <= j < |ws| ensures ws[j] in vs {
      assert ws[j] in multiset(vs);
    }
    if vs != [] && ConcatStreams(vs, stream).Success? {
      var v := vs[0];
      var j :| 0 <= j < |ws| && ws[j] == v;
      var ws' := ws[..j] + ws[j + 1..];
      RemoveMatching(vs, ws, j);
      ConcatStreamsPermutation(vs[1..], ws', stream);
      ConcatStreamsRemove(ws, j, stream);
    }
  }

  /** Collects the table mappings of `vs` one configuration at a time. */
  method CollectTables(vs: seq<EntityTypeConfiguration>) returns (r: seq<TableAttributeByRootType>)
    ensures r == TableAttributes(vs)
  {
    r := [];
    var i := 0;
    while i < |vs|
      invariant 0 <= i <= |vs|
      invariant TableAttributes(vs) == r + TableAttributes(vs[i..])
    {
      TableAttributesUnfold(vs, i);
      assert TableAttributes(vs) == (r + TableOf(vs[i])) + TableAttributes(vs[i + 1..]);
      match vs[i].tableAttribute {
        case None =>
          assert r + TableOf(vs[i]) == r;
        case Some(a) =>
          r := r + [TableAttributeByRootType(vs[i].entityType, a)];
      }
      i := i + 1;
    }
    assert r + [] == r;
  }

  /** Collects the descriptor streams of `vs` one configuration at a time. */
  method CollectStreams<T>(vs: seq<EntityTypeConfiguration>, stream: EntityTypeConfiguration -> Result<seq<T>, Error>)
    returns (r: Result<seq<T>, Error>)
    ensures r == ConcatStreams(vs, stream)
  {
    var collected: seq<T> := [];
    var i := 0;
    while i < |vs|
      invariant 0 <= i <= |vs|
      invariant ConcatStreams(vs[..i], stream) == Success(collected)
    {
      assert vs[..i + 1] == vs[..i] + [vs[i]];
      ConcatStreamsAppend(vs[..i], [vs[i]], stream);
      ConcatStreamsSingle(vs[i], stream);
      match stream(vs[i]) {
        case Failure(e) =>
          assert vs[..i + 1] + vs[i + 1..] == vs;
          ConcatStreamsAppend(vs[..i + 1], vs[i + 1..], stream);
          return Failure(e);
        case Success(s) =>
          collected := collected + s;
      }
      i := i + 1;
    }
    assert vs[..i] == vs;
    r := Success(collected);
  }

  class ConfigurationRegistrar {
    const dbModelBuilder: DbModelBuilder
    var entityTypeConfigurationsByEntityType: map<TypeId, EntityTypeConfiguration>
    /** The order in which the dictionary enumerates its entries. */
    var enumeration: seq<TypeId>

    ghost predicate Valid()
      reads this
    {
      IsEnumeration(enumeration, entityTypeConfigurationsByEntityType) &&
      KeyedByEntityType(entityTypeConfigurationsByEntityType)
    }

    /** The registered configurations, in enumeration order. */
    function Values(): (vs: seq<EntityTypeConfiguration>)
      reads this
      requires Valid()
    {
      ValuesIn(enumeration, entityTypeConfigurationsByEntityType)
    }

    constructor (dbModelBuilder: DbModelBuilder)
      ensures Valid() && this.dbModelBuilder == dbModelBuilder
      ensures entityTypeConfigurationsByEntityType == map[] && enumeration == []
    {
      this.dbModelBuilder := dbModelBuilder;
      entityTypeConfigurationsByEntityType := map[];
      enumeration := [];
    }

    /** `new ConfigurationRegistrar(dbModelBuilder)`, which throws on a null builder. */
    static method Create(dbModelBuilder: Option<DbModelBuilder>) returns (r: Result<ConfigurationRegistrar, Error>)
      ensures dbModelBuilder.None? <==> r.Failure?
      ensures r.Failure? ==> r.error == ArgumentNull("dbModelBuilder")
      ensures r.Success? ==> fresh(r.value) && r.value.Valid() && r.value.dbModelBuilder == dbModelBuilder.value
      ensures r.Success? ==> r.value.entityTypeConfigurationsByEntityType == map[]
    {
      if dbModelBuilder.None? {
        return Failure(ArgumentNull("dbModelBuilder"));
      }
      var registrar := new ConfigurationRegistrar(dbModelBuilder.value);
      r := Success(registrar);
    }

    /** Registers a configuration under its entity type; returns this registrar. */
    method Add(entityTypeConfiguration: Option<EntityTypeConfiguration>) returns (r: Result<ConfigurationRegistrar, Error>)
      requires Valid()
      modifies this
      ensures Valid()
      ensures r.Success? <==> AddEntry(old(entityTypeConfigurationsByEntityType), entityTypeConfiguration).Success?
      ensures r.Success? ==> (
        && r.value == this
        && entityTypeConfigurationsByEntityType == AddEntry(old(entityTypeConfigurationsByEntityType), entityTypeConfiguration).value
        && enumeration == old(enumeration) + [entityTypeConfiguration.value.entityType])
      ensures r.Failure? ==> (
        && r.error == AddEntry(old(entityTypeConfigurationsByEntityType), entityTypeConfiguration).error
        && entityTypeConfigurationsByEntityType == old(entityTypeConfigurationsByEntityType)
        && enumeration == old(enumeration))
    {
      var added := AddEntry(entityTypeConfigurationsByEntityType, entityTypeConfiguration);
      if added.Failure? {
        return Failure(added.error);
      }
      var t := entityTypeConfiguration.value.entityType;
      entityTypeConfigurationsByEntityType := added.value;
      enumeration := enumeration + [t];
      r := Success(this);
    }

    /** Fails naming an entity type without a table mapping, if there is one. */
    method Validate() returns (r: Result<(), Error>)
      requires Valid()
      ensures r.Success? <==> forall t :: t in entityTypeConfigurationsByEntityType ==>
        entityTypeConfigurationsByEntityType[t].tableAttribute.Some?
      ensures r.Failure? ==> (exists t :: t in entityTypeConfigurationsByEntityType &&
                                          entityTypeConfigurationsByEntityType[t].tableAttribute.None? &&
                                          r.error == TableMappingNotSet(t))
      ensures r == match FirstUnmapped(Values()) case None => Success(()) case Some(t) => Failure(TableMappingNotSet(t))
    {
      var vs := Values();
      var i := 0;
      while i < |vs|
        invariant 0 <= i <= |vs|
        invariant forall k :: 0 <= k < i ==> vs[k].tableAttribute.Some?
        invariant FirstUnmapped(vs) == FirstUnmapped(vs[i..])
      {
        assert vs[i..][1..] == vs[i + 1..];
        if vs[i].tableAttribute.None? {
          r := Failure(TableMappingNotSet(vs[i].entityType));
          return;
        }
        i := i + 1;
      }
      r := Success(());
    }

    /** The table stream: (entity type, table) for each mapped configuration. */
    method GetTableAttributesByRootType() returns (r: seq<TableAttributeByRootType>)
      requires Valid()
      ensures r == TableAttributes(Values())
      ensures |r| <= |entityTypeConfigurationsByEntityType|
      ensures forall t, a :: TableAttributeByRootType(t, a) in r <==>
        t in entityTypeConfigurationsByEntityType && entityTypeConfigurationsByEntityType[t].tableAttribute == Some(a)
      ensures forall i, j :: 0 <= i < j < |r| ==> r[i].rootType != r[j].rootType
    {
      r := CollectTables(Values());
      TableStreamOfRegistry(enumeration, entityTypeConfigurationsByEntityType);
    }

    /** The column stream: every configuration's own columns, concatenated. */
    method GetColumnAttributesByMember() returns (r: Result<seq<ColumnAttributeByMember>, Error>)
      requires Valid()
      ensures r == ConcatStreams(Values(), ColumnsOf)
    {
      r := CollectStreams(Values(), ColumnsOf);
    }

    /** The association stream: every configuration's own associations, concatenated. */
    method GetAssociationAttributesByMember() returns (r: Result<seq<AssociationAttributeByMember>, Error>)
      requires Valid()
      ensures r == ConcatStreams(Values(), AssociationsOf)
    {
      r := CollectStreams(Values(), AssociationsOf);
    }

    /** The primary-key configuration of a registered entity type. */
    function GetPrimaryKeyPropertyConfigurationByEntityType(entityType: Option<TypeId>)
      : (r: Result<PrimitivePropertyConfiguration, Error>)
      reads this
      requires Valid()
      ensures entityType.None? ==> r == Failure(ArgumentNull("entityType"))
      ensures entityType.Some? ==> (r.Success? <==> entityType.value in entityTypeConfigurationsByEntityType)
      ensures entityType.Some? && r.Failure? ==> r.error == KeyNotFound(entityType.value)
      ensures r.Success? ==> r.value == entityTypeConfigurationsByEntityType[entityType.value].primaryKey
    {
      match entityType
      case None => Failure(ArgumentNull("entityType"))
      case Some(t) =>
        if t in entityTypeConfigurationsByEntityType then
          Success(entityTypeConfigurationsByEntityType[t].primaryKey)
        else Failure(KeyNotFound(t))
    }
  }

  /** The table stream of a registry, whatever its enumeration order: no longer
      than the registry, exactly the (type, table) pairs of mapped entries, one per type. */
  lemma TableStreamOfRegistry(order: seq<TypeId>, m: map<TypeId, EntityTypeConfiguration>)
    requires IsEnumeration(order, m) && KeyedByEntityType(m)
    ensures |TableAttributes(ValuesIn(order, m))| <= |m|
    ensures forall t, a :: TableAttributeByRootType(t, a) in TableAttributes(ValuesIn(order, m)) <==>
      t in m && m[t].tableAttribute == Some(a)
    ensures forall i, j :: 0 <= i < j < |TableAttributes(ValuesIn(order, m))| ==>
      TableAttributes(ValuesIn(order, m))[i].rootType != TableAttributes(ValuesIn(order, m))[j].rootType
  {
    var vs := ValuesIn(order, m);
    ValuesInEnumeration(order, m);
    TableAttributesOnePerType(vs);
    EnumerationSize(order, m);
    forall t, a ensures TableAttributeByRootType(t, a) in TableAttributes(vs) <==> t in m && m[t].tableAttribute == Some(a)
    {
      TableStreamEntry(order, m, t, a);
    }
  }

  lemma TableStreamEntry(order: seq<TypeId>, m: map<TypeId, EntityTypeConfiguration>, t: TypeId, a: TableAttribute)
    requires IsEnumeration(order, m) && KeyedByEntityType(m)
    ensures TableAttributeByRootType(t, a) in TableAttributes(ValuesIn(order, m)) <==> t in m && m[t].tableAttribute == Some(a)
  {
    var vs := ValuesIn(order, m);
    TableAttributesMembership(vs, t, a);
    if t in m {
      var i :| 0 <= i < |order| && order[i] == t;
      assert vs[i] == m[t];
    }
  }

  /** An enumeration has one element per key. */
  lemma EnumerationSize(order: seq<TypeId>, m: map<TypeId, EntityTypeConfiguration>)
    requires IsEnumeration(order, m)
    ensures |order| == |m|
  {
    var s := set t | t in order;
    assert s == m.Keys;
    DistinctSize(order);
  }

  lemma {:induction false} DistinctSize(order: seq<TypeId>)
    requires forall i, j :: 0 <= i < j < |order| ==> order[i] != order[j]
    ensures |set t | t in order| == |order|
    decreases |order|
  {
    if order != [] {
      var rest := order[1..];
      DistinctSize(rest);
      assert (set t | t in order) == {order[0]} + (set t | t in rest);
      assert order[0] !in rest;
    }
  }

  // ----- Independence from the enumeration order -----

  /** In a sequence without repetition, each element occurs once. */
  lemma {:induction false} DistinctOccursOnce(order: seq<TypeId>, t: TypeId)
    requires forall i, j :: 0 <= i < j < |order| ==> order[i] != order[j]
    ensures multiset(order)[t] == if t in order then 1 else 0
    decreases |order|
  {
    if order != [] {
      var rest := order[1..];
      assert order == [order[0]] + rest;
      forall k | 0 <= k < |rest| ensures rest[k] != order[0] {
        assert rest[k] == order[k + 1];
      }
      DistinctOccursOnce(rest, t);
    }
  }

  /** Two enumerations of one dictionary list the same keys, each once. */
  lemma EnumerationsPermuted(o1: seq<TypeId>, o2: seq<TypeId>, m: map<TypeId, EntityTypeConfiguration>)
    requires IsEnumeration(o1, m) && IsEnumeration(o2, m)
    ensures multiset(o1) == multiset(o2)
  {
    forall t ensures multiset(o1)[t] == multiset(o2)[t] {
      DistinctOccursOnce(o1, t);
      DistinctOccursOnce(o2, t);
    }
  }

  lemma ValuesInAppend(a: seq<TypeId>, b: seq<TypeId>, m: map<TypeId, EntityTypeConfiguration>)
    requires forall t :: t in a ==> t in m
    requires forall t :: t in b ==> t in m
    ensures ValuesIn(a + b, m) == ValuesIn(a, m) + ValuesIn(b, m)
  {
    var l, r := ValuesIn(a + b, m), ValuesIn(a, m) + ValuesIn(b, m);
    forall i | 0 <= i < |l| ensures l[i] == r[i] {
      if i >= |a| {
        assert (a + b)[i] == b[i - |a|];
      }
    }
  }

  /** Taking one key out of an order takes its value out of the values. */
  lemma ValuesInRemove(o: seq<TypeId>, j: nat, m: map<TypeId, EntityTypeConfiguration>)
    requires forall t :: t in o ==> t in m
    requires j < |o|
    ensures multiset(ValuesIn(o, m)) == multiset{m[o[j]]} + multiset(ValuesIn(o[..j] + o[j + 1..], m))
  {
    var before, after := o[..j], o[j + 1..];
    assert o == before + ([o[j]] + after);
    ValuesInAppend(before, [o[j]] + after, m);
    ValuesInAppend([o[j]], after, m);
    ValuesInAppend(before, after, m);
  }

  /** Permuting the keys permutes the values. */
  lemma {:induction false} ValuesInPermuted(o1: seq<TypeId>, o2: seq<TypeId>, m: map<TypeId, EntityTypeConfiguration>)
    requires forall t :: t in o1 ==> t in m
    requires forall t :: t in o2 ==> t in m
    requires multiset(o1) == multiset(o2)
    ensures multiset(ValuesIn(o1, m)) == multiset(ValuesIn(o2, m))
    decreases |o1|
  {
    if o1 == [] {
      assert |o2| == |multiset(o2)| == 0;
    } else {
      var t := o1[0];
      assert t in multiset(o2);
      var j :| 0 <= j < |o2| && o2[j] == t;
      var rest2 := o2[..j] + o2[j + 1..];
      RemoveMatching(o1, o2, j);
      assert o1 == [t] + o1[1..];
      ValuesInPermuted(o1[1..], rest2, m);
      ValuesInRemove(o2, j, m);
      ValuesInAppend([t], o1[1..], m);
    }
  }

  /** The column and association streams of a registry do not depend on its
      enumeration order: any two enumerations agree on success, and then give
      the same descriptors, each as often. */
  lemma StreamsOfRegistryOrderFree<T>(o1: seq<TypeId>, o2: seq<TypeId>, m: map<TypeId, EntityTypeConfiguration>,
                                      stream: EntityTypeConfiguration -> Result<seq<T>, Error>)
    requires IsEnumeration(o1, m) && IsEnumeration(o2, m)
    ensures ConcatStreams(ValuesIn(o1, m), stream).Success? <==> ConcatStreams(ValuesIn(o2, m), stream).Success?
    ensures ConcatStreams(ValuesIn(o1, m), stream).Success? ==>
      multiset(ConcatStreams(ValuesIn(o1, m), stream).value) == multiset(ConcatStreams(ValuesIn(o2, m), stream).value)
  {
    EnumerationsPermuted(o1, o2, m);
    ValuesInPermuted(o1, o2, m);
    ConcatStreamsPermutation(ValuesIn(o1, m), ValuesIn(o2, m), stream);
  }

  /** Whatever the enumeration order, validation of a registry succeeds iff
      every registered configuration has a table mapping, and a failure names
      a registered type without one. Which such type it names depends on the order. */
  lemma ValidationOfRegistry(order: seq<TypeId>, m: map<TypeId, EntityTypeConfiguration>)
    requires IsEnumeration(order, m) && KeyedByEntityType(m)
    ensures FirstUnmapped(ValuesIn(order, m)).None? <==> forall t :: t in m ==> m[t].tableAttribute.Some?
    ensures FirstUnmapped(ValuesIn(order, m)).Some? ==>
      FirstUnmapped(ValuesIn(order, m)).value in m &&
      m[FirstUnmapped(ValuesIn(order, m)).value].tableAttribute.None?
  {
    var vs := ValuesIn(order, m);
    if forall t :: t in m ==> m[t].tableAttribute.Some? {
      forall i | 0 <= i < |vs| ensures vs[i].tableAttribute.Some? {
        assert order[i] in m;
      }
    } else {
      var t :| t in m && m[t].tableAttribute.None?;
      var i :| 0 <= i < |order| && order[i] == t;
      assert vs[i].tableAttribute.None?;
    }
    if FirstUnmapped(vs).Some? {
      var i :| 0 <= i < |vs| && vs[i].entityType == FirstUnmapped(vs).value && vs[i].tableAttribute.None?;
      assert order[i] in m;
    }
  }
}
