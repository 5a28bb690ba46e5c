/** The dependent end of a relationship: it can expose a foreign-key property,
    whose column is derived from a registered primary-key configuration, and it
    builds the relationship's association descriptor. */
module Navigation {
  import opened Wrappers
  import opened Mapping
  import opened PropertyConfigurations
  import opened Registrar

  /** DependentNavigationPropertyConfiguration<TDependentEntityType>. The model
      builder is represented by the registrar it forwards key lookups to. */
  class DependentNavigationPropertyConfiguration {
    /** The type argument TDependentEntityType, which is also the type whose
        primary key is looked up during resolution. */
    const dependentEntityType: TypeId
    /** The navigation property (the base class's AssociationProperty). */
    const associationProperty: PropId
    const isRequired: bool
    /** None until HasForeignKey is called. */
    var foreignKeyProperty: Option<PropId>

    constructor (dependentEntityType: TypeId, associationProperty: PropId, isRequired: bool)
      ensures this.dependentEntityType == dependentEntityType
      ensures this.associationProperty == associationProperty
      ensures this.isRequired == isRequired
      ensures foreignKeyProperty == None
    {
      this.dependentEntityType := dependentEntityType;
      this.associationProperty := associationProperty;
      this.isRequired := isRequired;
      foreignKeyProperty := None;
    }

    /** Records the selected property as the foreign key (last call wins);
        returns this configuration. */
    method HasForeignKey(foreignKeyExpression: Option<PropId>) returns (r: Result<DependentNavigationPropertyConfiguration, Error>)
      modifies this
      ensures foreignKeyExpression.None? ==>
        r == Failure(ArgumentNull("foreignKeyExpression")) && foreignKeyProperty == old(foreignKeyProperty)
      ensures foreignKeyExpression.Some? ==> r == Success(this) && foreignKeyProperty == foreignKeyExpression
    {
      if foreignKeyExpression.None? {
        return Failure(ArgumentNull("foreignKeyExpression"));
      }
      foreignKeyProperty := foreignKeyExpression;
      r := Success(this);
    }

    /** The column of the foreign-key property: a clone of the looked-up key's
        configuration, re-marked required or optional by this configuration's
        flag and never database-generated. Without a foreign key, whatever the
        base class returns (`baseColumn`, as its body is not part of this model).
        Only the fresh clone is changed: the method modifies no existing object,
        so the registered key configuration keeps its facets. */
    method TryGetColumnAttribute(dbModelBuilder: ConfigurationRegistrar?, baseColumn: Option<ColumnAttributeByMember>)
      returns (r: Result<Option<ColumnAttributeByMember>, Error>)
      requires dbModelBuilder != null ==> dbModelBuilder.Valid()
      ensures dbModelBuilder == null ==> r == Failure(ArgumentNull("dbModelBuilder"))
      ensures dbModelBuilder != null && foreignKeyProperty.None? ==> r == Success(baseColumn)
      ensures dbModelBuilder != null && foreignKeyProperty.Some? ==>
        (r.Success? <==> dependentEntityType in dbModelBuilder.entityTypeConfigurationsByEntityType)
      ensures dbModelBuilder != null && foreignKeyProperty.Some? && r.Failure? ==>
        r.error == KeyNotFound(dependentEntityType)
      ensures dbModelBuilder != null && foreignKeyProperty.Some? && r.Success? ==> (
        && r.value.Some?
        && r.value.value.member == foreignKeyProperty.value
        && r.value.value.attribute.category ==
             dbModelBuilder.entityTypeConfigurationsByEntityType[dependentEntityType].primaryKey.category
        && (r.value.value.attribute.nullability == Required <==> isRequired)
        && r.value.value.attribute.nullability != Unspecified
        && r.value.value.attribute.generatedOption == Some(NotGenerated))
    {
      if dbModelBuilder == null {
        return Failure(ArgumentNull("dbModelBuilder"));
      }
      if foreignKeyProperty.None? {
        return Success(baseColumn);
      }
      var primaryKey := dbModelBuilder.GetPrimaryKeyPropertyConfigurationByEntityType(Some(dependentEntityType));
      if primaryKey.Failure? {
        return Failure(primaryKey.error);
      }
      var foreignKey := primaryKey.value.Clone(foreignKeyProperty.value);
      if isRequired {
        foreignKey.IsRequired();
      } else {
        foreignKey.IsOptional();
      }
      foreignKey.HasDatabaseGeneratedOption(NotGenerated);
      r := Success(Some(foreignKey.GetColumnAttribute()));
    }

    /** The association descriptor of the relationship; `relationshipName`
        stands for the fresh GUID the source generates. */
    function GetAssociationAttribute(dbModelBuilder: ConfigurationRegistrar?, relationshipName: string)
      : (r: Result<AssociationAttributeByMember, Error>)
      reads this, dbModelBuilder
      requires dbModelBuilder != null ==> dbModelBuilder.Valid()
      ensures dbModelBuilder == null ==> r == Failure(ArgumentNull("dbModelBuilder"))
      ensures dbModelBuilder != null ==>
        (r.Success? <==> dependentEntityType in dbModelBuilder.entityTypeConfigurationsByEntityType && foreignKeyProperty.Some?)
      // the key lookup fails before the unset foreign key is dereferenced
      ensures dbModelBuilder != null && dependentEntityType !in dbModelBuilder.entityTypeConfigurationsByEntityType ==>
        r == Failure(KeyNotFound(dependentEntityType))
      ensures dbModelBuilder != null && foreignKeyProperty.None? &&
              dependentEntityType in dbModelBuilder.entityTypeConfigurationsByEntityType ==>
                r == Failure(NullReference)
      ensures r.Success? ==> (
        && r.value.member == associationProperty
        && r.value.attribute.isForeignKey
        && r.value.attribute.name == relationshipName
        && r.value.attribute.thisKey == foreignKeyProperty.value.name
        && r.value.attribute.otherKey ==
             dbModelBuilder.entityTypeConfigurationsByEntityType[dependentEntityType].primaryKey.property.name)
    {
      if dbModelBuilder == null then Failure(ArgumentNull("dbModelBuilder"))
      else
        match dbModelBuilder.GetPrimaryKeyPropertyConfigurationByEntityType(Some(dependentEntityType))
        case Failure(e) => Failure(e)
        case Success(primaryKey) =>
          match foreignKeyProperty
          case None => Failure(NullReference)
          case Some(foreignKey) =>
            Success(AssociationAttributeByMember(
              associationProperty,
              AssociationAttribute(true, relationshipName, foreignKey.name, primaryKey.property.name)))
    }
  }
}
