/** Identities, compiled mapping descriptors and error kinds shared by the
    configuration pipeline. Reflection identities (`Type`, `PropertyInfo`) become
    plain values; the System.Data.Linq mapping attributes become records. */
module Mapping {
  import opened Wrappers

  /** A CLR type, identified by its full name. */
  datatype TypeId = TypeId(fullName: string)

  /** A property of a CLR type; a selector expression such as `t => t.Id`
      is modelled as the property it resolves to. */
  datatype PropId = PropId(declaringType: TypeId, name: string)

  /** The concrete configuration class a property configuration was created as:
      PrimitivePropertyConfiguration, StringPropertyConfiguration,
      BinaryPropertyConfiguration or DateTimePropertyConfiguration. */
  datatype Category = Primitive | Str | Binary | DateTime

  /** The nullability facet: unset until IsRequired or IsOptional is called. */
  datatype Nullability = Unspecified | Required | Optional

  /** System.ComponentModel.DataAnnotations.Schema.DatabaseGeneratedOption;
      `NotGenerated` is the enum's `None` member. */
  datatype DatabaseGeneratedOption = NotGenerated | Identity | Computed

  /** The model builder that owns a registrar; only its identity is modelled. */
  datatype DbModelBuilder = DbModelBuilder(id: nat)

  datatype TableAttribute = TableAttribute(name: string)

  datatype TableAttributeByRootType = TableAttributeByRootType(rootType: TypeId, attribute: TableAttribute)

  datatype ColumnAttribute = ColumnAttribute(
    category: Category,
    nullability: Nullability,
    generatedOption: Option<DatabaseGeneratedOption>)

  datatype ColumnAttributeByMember = ColumnAttributeByMember(member: PropId, attribute: ColumnAttribute)

  datatype AssociationAttribute = AssociationAttribute(
    isForeignKey: bool,
    name: string,
    thisKey: string,
    otherKey: string)

  datatype AssociationAttributeByMember = AssociationAttributeByMember(member: PropId, attribute: AssociationAttribute)

  /** The exceptions the pipeline throws. */
  datatype Error =
    | ArgumentNull(parameterName: string)          // ArgumentNullException
    | NotImplemented                               // NotImplementedException
    | InvalidCast(stored: Category, requested: Category)  // a failed downcast of a stored configuration
    | DuplicateKey(key: TypeId)                    // Dictionary.Add on a present key
    | KeyNotFound(key: TypeId)                     // Dictionary indexer on an absent key
    | TableMappingNotSet(entityType: TypeId)       // InvalidOperationException from Validate
    | NullReference                                // dereferencing an unset reference
}
