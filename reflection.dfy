/**
 * What the entity definer reads from Java reflection: a class with its
 * annotations, its public fields (Class.getFields(), inherited ones included)
 * and its superclass chain.
 */
module Reflection {
  import opened Wrappers

  datatype ClassInfo = ClassInfo(
    name: string,                          // Class.getName()
    simpleName: string,                    // Class.getSimpleName()
    dataEntity: Option<string>,            // value of jakarta.data.Entity, when present
    isPersistenceEntity: bool,             // annotated jakarta.persistence.Entity
    hasInheritance: bool,                  // annotated jakarta.data.Inheritance
    isMappedSuperclass: bool,              // annotated jakarta.data.MappedSuperclass
    isEmbeddable: bool,                    // annotated jakarta.data.Embeddable
    isCollection: bool,                    // Collection.class.isAssignableFrom(this)
    discriminatorValue: Option<string>,    // value of jakarta.data.DiscriminatorValue
    discriminatorColumn: Option<string>,   // value of jakarta.data.DiscriminatorColumn
    fields: seq<FieldInfo>,                // getFields(), in reflection order
    superclass: Option<ClassInfo>)         // getSuperclass()

  datatype FieldInfo = FieldInfo(
    name: string,
    declaringClass: string,                // getDeclaringClass().getName()
    fieldType: ClassInfo,                  // getType()
    id: Option<string>,                    // value of jakarta.data.Id, when present
    column: Option<string>,                // value of jakarta.data.Column, when present
    generated: Option<string>)             // name() of the jakarta.data.Generated strategy, when present
}
