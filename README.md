# Fluent model configuration: registry, validation and foreign-key resolution

This Dafny project models the core of Mindbox.Data.Linq's fluent model configuration. That core turns per-entity configuration calls into table, column and association descriptors. It has three parts:

- **StructuralTypeConfiguration** (`StructuralTypeConfiguration.dfy`). This is a class whose dictionary maps each property to its configuration, using get-or-create. Every `Property(...)` overload is modelled as `Property(kind, selector)`. The first access fixes the configuration's category: primitive, string, binary or DateTime. Later accesses through the string, binary and DateTime overloads fail on a cast when the category differs. The struct overload does no cast. Seven of the overloads always throw NotImplementedException. The pure function `Step` describes one call on the map of categories. `Run` describes a sequence of calls. Lemmas prove idempotence, at-most-one growth per call, and that the category is fixed by the first access.
- **ConfigurationRegistrar** (`ConfigurationRegistrar.dfy`). This is a class over the dictionary from entity type to entity configuration:
  - `Add` rejects null and duplicate types.
  - `Validate` checks that every configuration has a table mapping.
  - The table stream filters the configurations. The column and association streams concatenate each configuration's own stream.
  - The primary-key lookup fails on an unregistered type.

  Each loop is a method proved against a pure function over the dictionary's values. The value order is the dictionary's enumeration order, kept in the field `enumeration`. The lemmas about a registry hold for every enumeration of its dictionary. Some of what they state does not depend on the order:
  - whether validation succeeds;
  - the table pairs, each at most once;
  - whether a column or association stream succeeds, and its descriptors as a multiset.

  Which unmapped type validation names, and the exact order of each stream, do depend on the enumeration order. Another lemma proves that the registration order does not change whether registration succeeds, or the resulting dictionary. Because the model enumerates in insertion order, the registration order does decide which unmapped type `Validate` names and the exact order of each stream.
- **DependentNavigationPropertyConfiguration** (`DependentNavigationPropertyConfiguration.dfy`). Its foreign-key property is set by `HasForeignKey`, and the last call wins. `TryGetColumnAttribute` works as follows:
  1. It looks up a registered primary-key configuration.
  2. It clones that configuration onto the foreign-key property.
  3. It marks the clone required or optional, following the configuration's own flag.
  4. It sets the clone's generation option to `None`.

  The method modifies no existing object, so the registered key keeps its own facets. `GetAssociationAttribute` builds the association descriptor: `ThisKey` is the foreign-key name and `OtherKey` is the looked-up key's name.

Shared pieces: `Wrappers.dfy` defines `Option`, where `None` stands for a null reference, and `Result`, where `Failure` stands for a thrown exception. `Mapping.dfy` defines the type and property identities, the descriptor records and the error kinds. `PropertyConfigurations.dfy` holds the property configuration class, which is only partly modelled. `Scenario.dfy` applies the TestEntity11 configuration to the modelled operations and states the resulting descriptors.

The key lookup during resolution uses the configuration's own type argument, `TDependentEntityType` (DependentNavigationPropertyConfiguration.cs:57 and :73). The model stores that type in the field `dependentEntityType` and looks up exactly that type. That is the same type that the `HasForeignKey` selector ranges over. The lookup therefore finds the dependent type's own key, not the key of the navigation's target type. For TestEntity11's `Other`, the target type is TestEntity9, and TestEntity11.cs:25 reads that type's `Id`. In the TestEntity11 scenario the lookup finds TestEntity11's own key, `Id`. TestEntity9 also has a property named `Id`, so the association's `OtherKey` does not show the difference.

## Model

| member | source | states |
|---|---|---|
| `StructuralTypeConfigurations.StructuralTypeConfiguration.constructor` | Mindbox.Data.Linq/Entity/ModelConfiguration/Configuration/StructuralTypeConfiguration.cs:16-19 | a new configuration has an empty property map |
| `StructuralTypeConfigurations.StructuralTypeConfiguration.Property` | Mindbox.Data.Linq/Entity/ModelConfiguration/Configuration/StructuralTypeConfiguration.cs:31-201 | one `Property` overload: the new category map is `Step` of the old one. A failure leaves the map unchanged. A repeated access returns the stored, shared object and changes nothing. A first access inserts exactly one fresh configuration with no facets set, under the selected property. No two properties share one configuration object |
| `StructuralTypeConfigurations.Step` | Mindbox.Data.Linq/Entity/ModelConfiguration/Configuration/StructuralTypeConfiguration.cs:31-201 | one call never replaces or removes an entry and adds at most the selected property. Unimplemented overloads always fail. A null selector fails. A first access stores the overload's category. A later access succeeds iff the overload is the struct one or the stored category matches |
| `StructuralTypeConfigurations.StepIdempotent` | Mindbox.Data.Linq/Entity/ModelConfiguration/Configuration/StructuralTypeConfiguration.cs:40-45 | repeating a call gives the same outcome and the same map |
| `StructuralTypeConfigurations.CategoryFixedByFirstAccess` | Mindbox.Data.Linq/Entity/ModelConfiguration/Configuration/StructuralTypeConfiguration.cs:66-79 | after any sequence of calls, existing entries are unchanged. A property is present iff some implemented overload selected it, and its category is the one created by the first such overload |
| `StructuralTypeConfigurations.RunGrowsByAtMostOnePerCall` | Mindbox.Data.Linq/Entity/ModelConfiguration/Configuration/StructuralTypeConfiguration.cs:40-44 | a sequence of n calls keeps all keys and adds at most n entries |
| `StructuralTypeConfigurations.FirstAccess` | Mindbox.Data.Linq/Entity/ModelConfiguration/Configuration/StructuralTypeConfiguration.cs:40-44 | the overload of the first creating access is always an implemented one |
| `PropertyConfigurations.PrimitivePropertyConfiguration.constructor` | Mindbox.Data.Linq/Entity/ModelConfiguration/Configuration/StructuralTypeConfiguration.cs:42 | a new configuration is for the given property and category, with no facet set |
| `PropertyConfigurations.PrimitivePropertyConfiguration.Clone` | Mindbox.Data.Linq/Entity/ModelConfiguration/Configuration/DependentNavigationPropertyConfiguration.cs:58 | the clone is a fresh object of the same category, bound to the new property |
| `PropertyConfigurations.PrimitivePropertyConfiguration.IsRequired` | Mindbox.Data.Linq/Entity/ModelConfiguration/Configuration/DependentNavigationPropertyConfiguration.cs:60 | sets the nullability to required and keeps the generation option |
| `PropertyConfigurations.PrimitivePropertyConfiguration.IsOptional` | Mindbox.Data.Linq/Entity/ModelConfiguration/Configuration/DependentNavigationPropertyConfiguration.cs:62 | sets the nullability to optional and keeps the generation option |
| `PropertyConfigurations.PrimitivePropertyConfiguration.HasDatabaseGeneratedOption` | Mindbox.Data.Linq/Entity/ModelConfiguration/Configuration/DependentNavigationPropertyConfiguration.cs:63 | sets the generation option and keeps the nullability |
| `PropertyConfigurations.PrimitivePropertyConfiguration.GetColumnAttribute` | Mindbox.Data.Linq/Entity/ModelConfiguration/Configuration/DependentNavigationPropertyConfiguration.cs:64 | the column is for the configured property and carries its category, nullability and generation option |
| `Registrar.ConfigurationRegistrar.Create` | Mindbox.Data.Linq/Entity/ModelConfiguration/Configuration/ConfigurationRegistrar.cs:21-27 | fails iff the model builder is null. Otherwise it returns a fresh, valid registrar that holds no configurations |
| `Registrar.ConfigurationRegistrar.constructor` | Mindbox.Data.Linq/Entity/ModelConfiguration/Configuration/ConfigurationRegistrar.cs:17-27 | stores the builder and starts with an empty dictionary |
| `Registrar.ConfigurationRegistrar.Add` | Mindbox.Data.Linq/Entity/ModelConfiguration/Configuration/ConfigurationRegistrar.cs:56-65 | succeeds iff `AddEntry` does, and then returns this registrar. On success, the dictionary becomes `AddEntry`'s result and the type is appended to the enumeration. On failure, the error is `AddEntry`'s and nothing changes |
| `Registrar.AddEntry` | Mindbox.Data.Linq/Entity/ModelConfiguration/Configuration/ConfigurationRegistrar.cs:60-63 | null fails with an argument error and a registered type fails as a duplicate. Otherwise exactly one entry is added, under its entity type, and every other entry is kept |
| `Registrar.AddAllSucceedsIffDistinct` | Mindbox.Data.Linq/Entity/ModelConfiguration/Configuration/ConfigurationRegistrar.cs:49-63 | a sequence of `Add` calls succeeds iff the entity types are distinct and not yet registered. The result then holds exactly the old entries and the added ones |
| `Registrar.RegistrationOrderIrrelevant` | Mindbox.Data.Linq/Entity/ModelConfiguration/Configuration/ConfigurationRegistrar.cs:63 | registering the same configurations in any order gives the same outcome, and the same dictionary on success |
| `Registrar.ConfigurationRegistrar.Validate` | Mindbox.Data.Linq/Entity/ModelConfiguration/Configuration/ConfigurationRegistrar.cs:79-84 | succeeds iff every registered configuration has a table mapping. Otherwise it fails naming a registered type without one: the first such type in enumeration order |
| `Registrar.FirstUnmapped` | Mindbox.Data.Linq/Entity/ModelConfiguration/Configuration/ConfigurationRegistrar.cs:79-84 | returns nothing iff all configurations are mapped. Otherwise it returns the type of an unmapped configuration |
| `Registrar.ConfigurationRegistrar.GetTableAttributesByRootType` | Mindbox.Data.Linq/Entity/ModelConfiguration/Configuration/ConfigurationRegistrar.cs:68-77 | the stream is the filter over the enumerated values. It is no longer than the registry, holds a (type, table) pair iff that type is registered with that table, and names each type at most once |
| `Registrar.CollectTables` | Mindbox.Data.Linq/Entity/ModelConfiguration/Configuration/ConfigurationRegistrar.cs:70-76 | the loop yields exactly `TableAttributes` of the values |
| `Registrar.TableAttributes` | Mindbox.Data.Linq/Entity/ModelConfiguration/Configuration/ConfigurationRegistrar.cs:68-77 | the table stream is never longer than the configurations it filters |
| `Registrar.TableAttributesMembership` | Mindbox.Data.Linq/Entity/ModelConfiguration/Configuration/ConfigurationRegistrar.cs:71-76 | a pair is in the stream iff some configuration has that type and that table. Unmapped configurations are skipped |
| `Registrar.TableAttributesOnePerType` | Mindbox.Data.Linq/Entity/ModelConfiguration/Configuration/ConfigurationRegistrar.cs:70-76 | with distinct entity types, no root type appears twice in the stream |
| `Registrar.TableStreamOfRegistry` | Mindbox.Data.Linq/Entity/ModelConfiguration/Configuration/ConfigurationRegistrar.cs:68-77 | for every enumeration of a registry: the stream is bounded by the registry size, is exactly the mapped pairs, and has one pair per type |
| `Registrar.ConfigurationRegistrar.GetColumnAttributesByMember` | Mindbox.Data.Linq/Entity/ModelConfiguration/Configuration/ConfigurationRegistrar.cs:86-91 | the column stream is the concatenation of every registered configuration's own column stream, or the first exception among them |
| `Registrar.ConfigurationRegistrar.GetAssociationAttributesByMember` | Mindbox.Data.Linq/Entity/ModelConfiguration/Configuration/ConfigurationRegistrar.cs:101-107 | the association stream is the concatenation of every registered configuration's own association stream, or the first exception among them |
| `Registrar.CollectStreams` | Mindbox.Data.Linq/Entity/ModelConfiguration/Configuration/ConfigurationRegistrar.cs:88-90 | the nested loop yields exactly `ConcatStreams` of the values |
| `Registrar.ConcatStreams` | Mindbox.Data.Linq/Entity/ModelConfiguration/Configuration/ConfigurationRegistrar.cs:86-91 | succeeds iff every configuration's own stream succeeds. A failure is the exception of one of them |
| `Registrar.ConcatStreamsMembership` | Mindbox.Data.Linq/Entity/ModelConfiguration/Configuration/ConfigurationRegistrar.cs:101-107 | a descriptor is in the stream iff it is in some configuration's own stream. The stream's length is the sum of their lengths, so nothing is added or dropped |
| `Registrar.ConcatStreamsPermutation` | Mindbox.Data.Linq/Entity/ModelConfiguration/Configuration/ConfigurationRegistrar.cs:88-90 | any two enumeration orders of the same configurations agree on success. On success, they give the same multiset of descriptors |
| `Registrar.EnumerationsPermuted` | Mindbox.Data.Linq/Entity/ModelConfiguration/Configuration/ConfigurationRegistrar.cs:17-18 | any two enumerations of one dictionary list the same keys, each once |
| `Registrar.ValuesInPermuted` | Mindbox.Data.Linq/Entity/ModelConfiguration/Configuration/ConfigurationRegistrar.cs:70 | enumerating the keys in two orders that are permutations of each other gives permuted values |
| `Registrar.StreamsOfRegistryOrderFree` | Mindbox.Data.Linq/Entity/ModelConfiguration/Configuration/ConfigurationRegistrar.cs:86-107 | for any two enumerations of a registry, the column or association stream succeeds under one iff under the other. On success, both give the same multiset of descriptors |
| `Registrar.ValidationOfRegistry` | Mindbox.Data.Linq/Entity/ModelConfiguration/Configuration/ConfigurationRegistrar.cs:79-84 | for every enumeration, validation succeeds iff every registered configuration has a table mapping. A failure names a registered type without one |
| `Registrar.ConfigurationRegistrar.GetPrimaryKeyPropertyConfigurationByEntityType` | Mindbox.Data.Linq/Entity/ModelConfiguration/Configuration/ConfigurationRegistrar.cs:93-99 | a null type fails with an argument error and an unregistered type fails with key-not-found. Otherwise the result is that type's primary-key configuration |
| `Navigation.DependentNavigationPropertyConfiguration.constructor` | Mindbox.Data.Linq/Entity/ModelConfiguration/Configuration/DependentNavigationPropertyConfiguration.cs:19-27 | stores the dependent type, the association property and the required flag. The foreign key starts unset |
| `Navigation.DependentNavigationPropertyConfiguration.HasForeignKey` | Mindbox.Data.Linq/Entity/ModelConfiguration/Configuration/DependentNavigationPropertyConfiguration.cs:37-45 | a null selector fails and keeps the foreign key. Otherwise it records the selected property, overwriting any earlier one, and returns this configuration |
| `Navigation.DependentNavigationPropertyConfiguration.TryGetColumnAttribute` | Mindbox.Data.Linq/Entity/ModelConfiguration/Configuration/DependentNavigationPropertyConfiguration.cs:48-65 | a null builder fails. Without a foreign key, the result is the base result. With one, it succeeds iff the dependent type is registered (otherwise key-not-found). The column is for the foreign-key property, has the looked-up key's category, is required iff the flag is set, and is never generated. No existing object is modified |
| `Navigation.DependentNavigationPropertyConfiguration.GetAssociationAttribute` | Mindbox.Data.Linq/Entity/ModelConfiguration/Configuration/DependentNavigationPropertyConfiguration.cs:67-85 | a null builder fails and an unregistered type fails with key-not-found. A registered type with no foreign key fails with a null reference. Otherwise the member is the association property, `IsForeignKey` holds, `ThisKey` is the foreign-key name and `OtherKey` is the looked-up key's name |
| `Scenario.TestEntity11Relationship` | Mindbox.Data.Linq.Tests/TestEntities/TestEntity11.cs:30-39 | for the fixture: validation passes and there is one table pair. The foreign-key column `OtherId` is required and not generated, although its key is an identity. The association pairs `OtherId` with `Id` |

## Left out

- ManyNavigationPropertyConfiguration is not modelled. Every one of its `WithMany`, `WithRequired` and `WithOptional` methods throws NotImplementedException, after a null check on the ones that take an argument. So no path to a dependent configuration through it exists in the code.
- `ConfigurationRegistrar.AddFromAssembly` is not modelled. It null-checks its argument and then throws NotImplementedException, and it needs assembly reflection.
- `ReflectionExpressions.GetPropertyInfo` is not modelled. A selector expression is given as the property it resolves to, or `None` when the expression is null.
- The association name comes from `Guid.NewGuid()`. It is a parameter (`relationshipName`), and nothing is stated about its uniqueness.
- Entity configurations are not modelled as classes. EntityTypeConfiguration, DbModelBuilder, ForeignKeyNavigationPropertyConfiguration and the PrimitivePropertyConfiguration subclasses are not part of this model. An entity configuration is a record with:
  - its type;
  - its table mapping;
  - its primary-key configuration;
  - the outcome of its own column and association streams.

  Its table mapping and the outcome of its streams are the values at registration. The streams are not computed against the builder during enumeration. The source dictionary holds references, so `Validate` and the streams see a change made to a configuration after `Add`, such as a later `ToTable`. The model does not see such a change.
- `Add<TEntityType>` keys by `typeof(TEntityType)`. The model keys by the configuration's entity type and assumes the two are equal.
- `GetPrimaryKeyPropertyConfiguration` returning null is not modelled: every entity configuration has a key configuration.
- `DbModelBuilder.GetPrimaryKeyPropertyConfigurationByEntityType` is not modelled. The resolvers take the registrar, on the assumption that the builder forwards to it.
- `TryGetColumnAttribute` calls the base class's implementation when no foreign key is set. That result is the parameter `baseColumn`.
- Type-specific facets are not modelled: maximum length, fixed length, precision and temporal kind. Only category, nullability and the generation option are kept.
- The iterators are lazy, and the prefix a `yield` enumeration produces before an exception is not modelled. A stream is either the whole sequence or the first exception.
- The .NET dictionary does not guarantee its enumeration order. The model enumerates in insertion order. `TableStreamOfRegistry`, `StreamsOfRegistryOrderFree` and `ValidationOfRegistry` state what holds for every enumeration. Which unmapped type `Validate` names, and the exact order of the three streams, are stated only for the modelled order.
- `Validate`'s exception message is not modelled. The error carries the unmapped type in place of the text "Table mapping not set for <type>.".
- PropertyConfigurations.PrimitivePropertyConfiguration.Clone: its contract promises only the clone's freshness, property and category. The source of Clone is not available, so it says nothing about which other facets are copied.
