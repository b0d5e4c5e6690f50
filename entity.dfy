/**
 * The two persisted records a CSV row is turned into. Only the fields the
 * column mappings can set are kept; database ids, equality and the rest of
 * the JPA entities are not part of this model.
 */
module Entity {
  import opened Wrappers

  /** The location record (entity/Address.java): three nullable strings. */
  datatype Address = Address(street: Option<string>, postcode: Option<string>, country: Option<string>)

  /** The person record: two nullable names and the link to its address. */
  datatype User = User(firstName: Option<string>, lastName: Option<string>, address: Option<Address>)

  /** `new Address()`: every field null. */
  const NewAddress: Address := Address(None, None, None)

  /** `new User()`: every field null, no address attached. */
  const NewUser: User := User(None, None, None)
}
