/** The configuration of the TestEntity11 fixture, applied to the modelled
    operations: ToTable("Test11"), HasKey(Id), Property(Id) with identity
    generation, and HasRequired(Other).WithMany().HasForeignKey(OtherId). The
    registered record leaves its own column and association streams empty on
    purpose: the foreign-key column and the association are resolved directly
    through the navigation configuration, and the ensures state what that
    resolution yields. */
module Scenario {
  import opened Wrappers
  import opened Mapping
  import opened PropertyConfigurations
  import opened StructuralTypeConfigurations
  import opened Registrar
  import opened Navigation

  method TestEntity11Relationship() returns (
    valid: Result<(), Error>,
    tables: seq<TableAttributeByRootType>,
    column: Result<Option<ColumnAttributeByMember>, Error>,
    association: Result<AssociationAttributeByMember, Error>)
    ensures valid == Success(())
    ensures tables == [TableAttributeByRootType(TypeId("TestEntity11"), TableAttribute("Test11"))]
    // the foreign key is required and not generated, although the key it is cloned from is an identity
    ensures column == Success(Some(ColumnAttributeByMember(
      PropId(TypeId("TestEntity11"), "OtherId"),
      ColumnAttribute(Primitive, Required, Some(NotGenerated)))))
    ensures association.Success?
    ensures association.value.member == PropId(TypeId("TestEntity11"), "Other")
    ensures association.value.attribute.isForeignKey
    ensures association.value.attribute.thisKey == "OtherId" && association.value.attribute.otherKey == "Id"
  {
    var entity := TypeId("TestEntity11");
    var structure := new StructuralTypeConfiguration();
    var key := structure.Property(StructValue, Some(PropId(entity, "Id")));
    var primaryKey := key.value;
    primaryKey.HasDatabaseGeneratedOption(Identity);

    var registrar := new ConfigurationRegistrar(DbModelBuilder(0));
    var added := registrar.Add(Some(EntityTypeConfiguration(
      entity, Some(TableAttribute("Test11")), primaryKey, Success([]), Success([]))));
    valid := registrar.Validate();
    tables := registrar.GetTableAttributesByRootType();
    assert registrar.Values() == [registrar.entityTypeConfigurationsByEntityType[entity]];

    var navigation := new DependentNavigationPropertyConfiguration(entity, PropId(entity, "Other"), true);
    var chained := navigation.HasForeignKey(Some(PropId(entity, "OtherId")));
    column := navigation.TryGetColumnAttribute(registrar, None);
    association := navigation.GetAssociationAttribute(registrar, "relationship");
    // resolution re-marked a clone: the registered key is still an identity
    assert primaryKey.generatedOption == Some(Identity);
  }
}
