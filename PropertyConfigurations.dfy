/** The property configuration objects that a structural type stores and that
    foreign-key resolution clones. Their classes (PrimitivePropertyConfiguration
    and its string, binary and DateTime subclasses) are not part of this model:
    only the facets the pipeline reads or writes are kept, and each operation
    carries the minimal contract its callers rely on. */
module PropertyConfigurations {
  import opened Wrappers
  import opened Mapping

  class PrimitivePropertyConfiguration {
    /** The configured property; fixed at construction. */
    const property: PropId
    /** Which configuration subclass this object is; fixed at construction. */
    const category: Category
    var nullability: Nullability
    /** None until HasDatabaseGeneratedOption is called. */
    var generatedOption: Option<DatabaseGeneratedOption>

    /** A fresh configuration of the given subclass, with no facet set. */
    constructor (property: PropId, category: Category)
      ensures this.property == property && this.category == category
      ensures nullability == Unspecified && generatedOption == None
    {
      this.property := property;
      this.category := category;
      nullability := Unspecified;
      generatedOption := None;
    }

    /** A new configuration of the same subclass bound to another property. */
    method Clone(newProperty: PropId) returns (c: PrimitivePropertyConfiguration)
      ensures fresh(c)
      ensures c.property == newProperty && c.category == category
    {
      c := new PrimitivePropertyConfiguration(newProperty, category);
      c.nullability := nullability;
      c.generatedOption := generatedOption;
    }

    method IsRequired()
      modifies this
      ensures nullability == Required
      ensures generatedOption == old(generatedOption)
    {
      nullability := Required;
    }

    method IsOptional()
      modifies this
      ensures nullability == Optional
      ensures generatedOption == old(generatedOption)
    {
      nullability := Optional;
    }

    method HasDatabaseGeneratedOption(option: DatabaseGeneratedOption)
      modifies this
      ensures generatedOption == Some(option)
      ensures nullability == old(nullability)
    {
      generatedOption := Some(option);
    }

    /** Compiles the configuration into the column descriptor of its property.
        The compilation itself is not part of this model: the descriptor simply
        carries the facets the configuration holds. */
    function GetColumnAttribute(): (r: ColumnAttributeByMember)
      reads this
      ensures r.member == property && r.attribute.category == category
      ensures r.attribute.nullability == nullability && r.attribute.generatedOption == generatedOption
    {
      ColumnAttributeByMember(property, ColumnAttribute(category, nullability, generatedOption))
    }
  }
}
