/**
 * A column mapping (mapper/CsvMapping.java): a display name plus at most one
 * setter on the user record and at most one on the address record. The Java
 * setters are method references (`User::setFirstName`, ...); here each is
 * named by the field it writes, and applying it returns the updated record.
 */
module Mappings {
  import opened Wrappers
  import opened Entity

  /** The user fields a mapping may write. */
  datatype UserField = FirstName | LastName

  /** The address fields a mapping may write. */
  datatype AddressField = Street | Postcode | Country

  /** `User::setFirstName` / `User::setLastName`: overwrite one field with `value`. */
  function SetUserField(user: User, field: UserField, value: Option<string>): User
  {
    match field
    case FirstName => user.(firstName := value)
    case LastName => user.(lastName := value)
  }

  /** `Address::setStreet` / `setPostcode` / `setCountry`. */
  function SetAddressField(address: Address, field: AddressField, value: Option<string>): Address
  {
    match field
    case Street => address.(street := value)
    case Postcode => address.(postcode := value)
    case Country => address.(country := value)
  }

  /**
   * The immutable mapping value. The constructor stores the name and both
   * setters unchanged; `None` is a null setter.
   */
  datatype CsvMapping = CsvMapping(csvColumnName: string, userSetter: Option<UserField>, addressSetter: Option<AddressField>)
  {
    /**
     * `applyToUser`: a null setter leaves the user as it is; otherwise the
     * one field the setter names now holds the raw cell value and nothing
     * else changes.
     */
    function ApplyToUser(user: User, value: Option<string>): (r: User)
      ensures userSetter.None? ==> r == user
      ensures r.firstName == if userSetter == Some(FirstName) then value else user.firstName
      ensures r.lastName == if userSetter == Some(LastName) then value else user.lastName
      ensures r.address == user.address
    {
      match userSetter
      case None => user
      case Some(field) => SetUserField(user, field, value)
    }

    /**
     * `applyToAddress`: a null setter leaves the address as it is; otherwise
     * the one field the setter names now holds the raw cell value.
     */
    function ApplyToAddress(address: Address, value: Option<string>): (r: Address)
      ensures addressSetter.None? ==> r == address
      ensures r.street == if addressSetter == Some(Street) then value else address.street
      ensures r.postcode == if addressSetter == Some(Postcode) then value else address.postcode
      ensures r.country == if addressSetter == Some(Country) then value else address.country
    {
      match addressSetter
      case None => address
      case Some(field) => SetAddressField(address, field, value)
    }

    /** `toString`: the display label shown in a selector. */
    function ToString(): string
    {
      csvColumnName
    }
  }
}
