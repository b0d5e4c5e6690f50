/**
 * Validation and row transformation of the column mapper
 * (mapper/CsvColumnMapper.java: validateCsvAndMapping, mapCsvToUsers,
 * isUserPopulated), and the save driver of the import view that chains them.
 */
module RowMapping {
  import opened Wrappers
  import opened Entity
  import opened Mappings
  import opened Catalog

  /** One CSV data row; a cell may be null. */
  type Row = seq<Option<string>>

  /** The notifications the import flow raises instead of throwing. */
  datatype Notice = InvalidStructure | IncompleteMapping | NoValidData

  /** The text shown to the user for each notice. */
  function Message(n: Notice): string
  {
    match n
    case InvalidStructure => "Invalid CSV structure!"
    case IncompleteMapping => "Please complete the mapping!"
    case NoValidData => "No valid data to import."
  }

  /**
   * `validateCsvAndMapping`, given the selector values: passes exactly when
   * there is a row, the FIRST row is as wide as there are selectors, and no
   * selector value is null. The structural failure is reported first.
   */
  function ValidateCsvAndMapping(entries: seq<Row>, values: seq<Option<CsvMapping>>): (r: Outcome<Notice>)
    ensures r.Pass? <==> entries != [] && |entries[0]| == |values| && forall k :: 0 <= k < |values| ==> values[k].Some?
    ensures r == Fail(InvalidStructure) <==> entries == [] || |entries[0]| != |values|
    ensures r.Fail? ==> r.error != NoValidData
  {
    if entries == [] || |entries[0]| != |values| then
      Fail(InvalidStructure)
    else if AllMapped(values) then
      Pass
    else
      Fail(IncompleteMapping)
  }

  /** The stream `allMatch(Objects::nonNull)` over the selector values. */
  function AllMapped(values: seq<Option<CsvMapping>>): (r: bool)
    ensures r <==> forall k :: 0 <= k < |values| ==> values[k].Some?
  {
    if values == [] then true else values[0].Some? && AllMapped(values[1..])
  }

  /** One step of the inner loop: apply column mapping `m` to the cell. */
  function ApplyColumn(ua: (User, Address), m: Option<CsvMapping>, cell: Option<string>): (User, Address)
  {
    if Tracked(m) then (m.value.ApplyToUser(ua.0, cell), m.value.ApplyToAddress(ua.1, cell)) else ua
  }

  /** The fresh user and address after the first `n` cells of `row` were applied. */
  function ApplyCells(row: Row, mappings: seq<Option<CsvMapping>>, n: nat): (User, Address)
    requires n <= |row| <= |mappings|
  {
    if n == 0 then (NewUser, NewAddress)
    else ApplyColumn(ApplyCells(row, mappings, n - 1), mappings[n - 1], row[n - 1])
  }

  /** `isUserPopulated`: some field of either record is non-null (an empty string counts). */
  predicate IsUserPopulated(user: User, address: Address)
  {
    user.firstName.Some? || user.lastName.Some? ||
    address.street.Some? || address.postcode.Some? || address.country.Some?
  }

  /** What one row contributes to the output: its user with the address attached, or nothing. */
  function RowUser(row: Row, mappings: seq<Option<CsvMapping>>): Option<User>
    requires |row| <= |mappings|
  {
    var (user, address) := ApplyCells(row, mappings, |row|);
    if IsUserPopulated(user, address) then Some(user.(address := Some(address))) else None
  }

  /** Every row is at most as wide as the mapping list (`mappings.get(i)` would throw otherwise). */
  predicate FitsMappings(entries: seq<Row>, mappings: seq<Option<CsvMapping>>)
  {
    forall k :: 0 <= k < |entries| ==> |entries[k]| <= |mappings|
  }

  /** The users of the first rows, in row order. */
  function MappedUsers(entries: seq<Row>, mappings: seq<Option<CsvMapping>>): seq<User>
    requires FitsMappings(entries, mappings)
  {
    if entries == [] then []
    else
      var init := entries[..|entries| - 1];
      var last := RowUser(entries[|entries| - 1], mappings);
      MappedUsers(init, mappings) + (if last.Some? then [last.value] else [])
  }

  /**
   * `mapCsvToUsers`: for each row a fresh user and address receive every
   * used column's raw cell; a populated row yields its user, address
   * attached, appended in row order.
   */
  method MapCsvToUsers(entries: seq<Row>, mappings: seq<Option<CsvMapping>>) returns (users: seq<User>)
    requires FitsMappings(entries, mappings)
    ensures users == MappedUsers(entries, mappings)
  {
    users := [];
    var k := 0;
    while k < |entries|
      invariant 0 <= k <= |entries|
      invariant users == MappedUsers(entries[..k], mappings)
    {
      var row := entries[k];
      var user := NewUser;
      var address := NewAddress;
      var i := 0;
      while i < |row|
        invariant 0 <= i <= |row|
        invariant (user, address) == ApplyCells(row, mappings, i)
      {
        var mapping := mappings[i];
        var value := row[i];
        if mapping.Some? && !IsIgnore(mapping.value) {
          user := mapping.value.ApplyToUser(user, value);
          address := mapping.value.ApplyToAddress(address, value);
        }
        i := i + 1;
      }
      if IsUserPopulated(user, address) {
        user := user.(address := Some(address));
        users := users + [user];
      }
      assert entries[..k + 1][..k] == entries[..k];
      k := k + 1;
    }
    assert entries[..k] == entries;
  }

  /** A field of the user/address pair that a mapping can write. */
  datatype Target = UserTarget(userField: UserField) | AddressTarget(addressField: AddressField)

  /** Column mapping `m` is used and writes field `t`. */
  predicate Sets(m: Option<CsvMapping>, t: Target)
  {
    Tracked(m) &&
    match t
    case UserTarget(f) => m.value.userSetter == Some(f)
    case AddressTarget(f) => m.value.addressSetter == Some(f)
  }

  /** Reads field `t` of a user/address pair. */
  function FieldOf(ua: (User, Address), t: Target): Option<string>
  {
    match t
    case UserTarget(FirstName) => ua.0.firstName
    case UserTarget(LastName) => ua.0.lastName
    case AddressTarget(Street) => ua.1.street
    case AddressTarget(Postcode) => ua.1.postcode
    case AddressTarget(Country) => ua.1.country
  }

  /** After the first `n` cells, a field no column among them writes is still null. */
  lemma {:induction false} FieldUnsetWithoutSetter(row: Row, mappings: seq<Option<CsvMapping>>, t: Target, n: nat)
    requires n <= |row| <= |mappings|
    requires forall j :: 0 <= j < n ==> !Sets(mappings[j], t)
    ensures FieldOf(ApplyCells(row, mappings, n), t) == None
  {
    if n > 0 {
      FieldUnsetWithoutSetter(row, mappings, t, n - 1);
      ColumnWritesField(ApplyCells(row, mappings, n - 1), mappings[n - 1], row[n - 1], t);
    }
  }

  /**
   * After the first `n` cells, a field holds the raw cell of the LAST column
   * among them whose mapping writes it: skipped columns and null setters
   * change nothing, and a setter stores the cell exactly as given.
   */
  lemma {:induction false} FieldIsLastSetCell(row: Row, mappings: seq<Option<CsvMapping>>, t: Target, n: nat, j: nat)
    requires n <= |row| <= |mappings|
    requires j < n && Sets(mappings[j], t)
    requires forall k :: j < k < n ==> !Sets(mappings[k], t)
    ensures FieldOf(ApplyCells(row, mappings, n), t) == row[j]
  {
    ColumnWritesField(ApplyCells(row, mappings, n - 1), mappings[n - 1], row[n - 1], t);
    if j < n - 1 {
      FieldIsLastSetCell(row, mappings, t, n - 1, j);
    }
  }

  /** One column writes field `t` with its cell iff its mapping sets `t`; otherwise `t` is kept. */
  lemma ColumnWritesField(ua: (User, Address), m: Option<CsvMapping>, cell: Option<string>, t: Target)
    ensures FieldOf(ApplyColumn(ua, m, cell), t) == if Sets(m, t) then cell else FieldOf(ua, t)
  {
  }

  /** A column whose mapping is null or Ignore does not influence the row's records. */
  lemma {:induction false} SkippedColumnIrrelevant(row: Row, mappings: seq<Option<CsvMapping>>, j: nat, cell: Option<string>, n: nat)
    requires j < |row| <= |mappings| && n <= |row|
    requires !Tracked(mappings[j])
    ensures ApplyCells(row[j := cell], mappings, n) == ApplyCells(row, mappings, n)
  {
    if n > 0 {
      SkippedColumnIrrelevant(row, mappings, j, cell, n - 1);
    }
  }

  /** No column writes the same field as a later one. */
  ghost predicate UniqueTargets(mappings: seq<Option<CsvMapping>>)
  {
    forall j, k, t :: 0 <= j < k < |mappings| && Sets(mappings[j], t) ==> !Sets(mappings[k], t)
  }

  /** Every field is null when no used column with a setter carries a non-null cell. */
  lemma DroppedWhenNothingLands(row: Row, mappings: seq<Option<CsvMapping>>)
    requires |row| <= |mappings|
    requires forall j, t :: 0 <= j < |row| && Sets(mappings[j], t) ==> row[j].None?
    ensures RowUser(row, mappings) == None
  {
    var ua := ApplyCells(row, mappings, |row|);
    forall t | true
      ensures FieldOf(ua, t) == None
    {
      if j :| 0 <= j < |row| && Sets(mappings[j], t) {
        var last := LastSetter(mappings, t, j, |row|);
        FieldIsLastSetCell(row, mappings, t, |row|, last);
      } else {
        FieldUnsetWithoutSetter(row, mappings, t, |row|);
      }
    }
    assert FieldOf(ua, UserTarget(FirstName)) == None && FieldOf(ua, UserTarget(LastName)) == None;
    assert FieldOf(ua, AddressTarget(Street)) == None && FieldOf(ua, AddressTarget(Postcode)) == None;
    assert FieldOf(ua, AddressTarget(Country)) == None;
  }

  /** Given one column below `n` that writes `t`, there is a last such column. */
  lemma {:induction false} LastSetter(mappings: seq<Option<CsvMapping>>, t: Target, j: nat, n: nat) returns (last: nat)
    requires j < n <= |mappings| && Sets(mappings[j], t)
    ensures j <= last < n && Sets(mappings[last], t)
    ensures forall k :: last < k < n ==> !Sets(mappings[k], t)
  {
    if Sets(mappings[n - 1], t) {
      last := n - 1;
    } else {
      last := LastSetter(mappings, t, j, n - 1);
    }
  }

  /** Any non-null field makes the pair count as populated. */
  lemma PopulatedByField(ua: (User, Address), t: Target)
    requires FieldOf(ua, t).Some?
    ensures IsUserPopulated(ua.0, ua.1)
  {
  }

  /** Conversely, a populated pair has a non-null field a mapping can write. */
  lemma PopulatedHasField(ua: (User, Address)) returns (t: Target)
    requires IsUserPopulated(ua.0, ua.1)
    ensures FieldOf(ua, t).Some?
  {
    if ua.0.firstName.Some? {
      t := UserTarget(FirstName);
    } else if ua.0.lastName.Some? {
      t := UserTarget(LastName);
    } else if ua.1.street.Some? {
      t := AddressTarget(Street);
    } else if ua.1.postcode.Some? {
      t := AddressTarget(Postcode);
    } else {
      t := AddressTarget(Country);
    }
  }

  /**
   * When no two columns write the same field (as the selectors guarantee),
   * a row yields a user iff some used column with a setter for some field
   * carries a non-null cell; an empty string is non-null.
   */
  lemma RowKeptIff(row: Row, mappings: seq<Option<CsvMapping>>)
    requires |row| <= |mappings| && UniqueTargets(mappings)
    ensures RowUser(row, mappings).Some? <==> exists j, t :: 0 <= j < |row| && Sets(mappings[j], t) && row[j].Some?
  {
    if j, t :| 0 <= j < |row| && Sets(mappings[j], t) && row[j].Some? {
      FieldIsLastSetCell(row, mappings, t, |row|, j);
      PopulatedByField(ApplyCells(row, mappings, |row|), t);
    } else {
      DroppedWhenNothingLands(row, mappings);
    }
  }

  /**
   * The output follows the input: rows are processed one after another and
   * independently, so the users of a concatenation are the concatenation of
   * the users.
   */
  lemma {:induction false} MappedUsersAppend(a: seq<Row>, b: seq<Row>, mappings: seq<Option<CsvMapping>>)
    requires FitsMappings(a, mappings) && FitsMappings(b, mappings)
    ensures FitsMappings(a + b, mappings)
    ensures MappedUsers(a + b, mappings) == MappedUsers(a, mappings) + MappedUsers(b, mappings)
  {
    if b == [] {
      assert a + b == a;
    } else {
      var b' := b[..|b| - 1];
      MappedUsersAppend(a, b', mappings);
      assert (a + b)[..|a + b| - 1] == a + b';
    }
  }

  /**
   * Never more users than rows; every user has its address attached and at
   * least one non-null field; a row yields a user exactly when its own
   * `RowUser` does, so a single row maps to that user alone.
   */
  lemma {:induction false} MappedUsersShape(entries: seq<Row>, mappings: seq<Option<CsvMapping>>)
    requires FitsMappings(entries, mappings)
    ensures |MappedUsers(entries, mappings)| <= |entries|
    ensures forall u :: u in MappedUsers(entries, mappings) ==> u.address.Some? && IsUserPopulated(u, u.address.value)
    ensures |entries| == 1 ==> MappedUsers(entries, mappings) == (var r := RowUser(entries[0], mappings); if r.Some? then [r.value] else [])
  {
    if entries != [] {
      MappedUsersShape(entries[..|entries| - 1], mappings);
    }
  }

  /**
   * The save driver of the import view (views/GridCsvImport.java, saveData)
   * up to the repository call: validate, read the selector values as the
   * mapping list, transform, and refuse an empty result.
   */
  function SaveData(entries: seq<Row>, values: seq<Option<CsvMapping>>): (r: Result<seq<User>, Notice>)
    requires ValidateCsvAndMapping(entries, values).Pass? ==> FitsMappings(entries, values)
    ensures ValidateCsvAndMapping(entries, values).Fail? ==> r == Failure(ValidateCsvAndMapping(entries, values).error)
    ensures r == Failure(NoValidData) <==> ValidateCsvAndMapping(entries, values).Pass? && MappedUsers(entries, values) == []
    ensures r.Success? <==> ValidateCsvAndMapping(entries, values).Pass? && MappedUsers(entries, values) != []
    ensures r.Success? ==> r.value == MappedUsers(entries, values)
  {
    match ValidateCsvAndMapping(entries, values)
    case Fail(notice) => Failure(notice)
    case Pass =>
      var users := MappedUsers(entries, values);
      if users == [] then Failure(NoValidData) else Success(users)
  }

  /** The five catalog mappings, one per column, in catalog order. */
  const CatalogColumns: seq<Option<CsvMapping>> :=
    [Some(AllMappings[0]), Some(AllMappings[1]), Some(AllMappings[2]), Some(AllMappings[3]), Some(AllMappings[4])]

  /** A complete row under the full mapping yields one fully populated user. */
  lemma FullRowExample()
    ensures MappedUsers([[Some("John"), Some("Doe"), Some("123 Main St"), Some("12345"), Some("USA")]], CatalogColumns)
            == [User(Some("John"), Some("Doe"), Some(Address(Some("123 Main St"), Some("12345"), Some("USA"))))]
  {
    var row := [Some("John"), Some("Doe"), Some("123 Main St"), Some("12345"), Some("USA")];
    MappedUsersShape([row], CatalogColumns);
    assert ApplyCells(row, CatalogColumns, 1) == (User(Some("John"), None, None), NewAddress);
    assert ApplyCells(row, CatalogColumns, 2) == (User(Some("John"), Some("Doe"), None), NewAddress);
    assert ApplyCells(row, CatalogColumns, 3) == (User(Some("John"), Some("Doe"), None), Address(Some("123 Main St"), None, None));
    assert ApplyCells(row, CatalogColumns, 4) == (User(Some("John"), Some("Doe"), None), Address(Some("123 Main St"), Some("12345"), None));
  }

  /** Empty strings are non-null, so a row of empty cells is kept, not dropped. */
  lemma EmptyStringsAreKept()
    ensures MappedUsers([[Some(""), Some(""), Some(""), Some(""), Some("")]], CatalogColumns)
            == [User(Some(""), Some(""), Some(Address(Some(""), Some(""), Some(""))))]
  {
    var row := [Some(""), Some(""), Some(""), Some(""), Some("")];
    MappedUsersShape([row], CatalogColumns);
    assert ApplyCells(row, CatalogColumns, 1) == (User(Some(""), None, None), NewAddress);
    assert ApplyCells(row, CatalogColumns, 2) == (User(Some(""), Some(""), None), NewAddress);
    assert ApplyCells(row, CatalogColumns, 3) == (User(Some(""), Some(""), None), Address(Some(""), None, None));
    assert ApplyCells(row, CatalogColumns, 4) == (User(Some(""), Some(""), None), Address(Some(""), Some(""), None));
  }

  /** Columns mapped to Ignore contribute nothing; the address is attached with no field set. */
  lemma IgnoreColumnsExample()
    ensures MappedUsers([[Some("John"), Some("Doe"), Some("x"), Some("y"), Some("z")]],
                        [Some(AllMappings[0]), Some(AllMappings[1]), Some(IgnoreMapping), Some(IgnoreMapping), Some(IgnoreMapping)])
            == [User(Some("John"), Some("Doe"), Some(NewAddress))]
  {
    var row := [Some("John"), Some("Doe"), Some("x"), Some("y"), Some("z")];
    var mappings := [Some(AllMappings[0]), Some(AllMappings[1]), Some(IgnoreMapping), Some(IgnoreMapping), Some(IgnoreMapping)];
    MappedUsersShape([row], mappings);
    assert ApplyCells(row, mappings, 1) == (User(Some("John"), None, None), NewAddress);
    assert ApplyCells(row, mappings, 2) == (User(Some("John"), Some("Doe"), None), NewAddress);
    assert ApplyCells(row, mappings, 3) == (User(Some("John"), Some("Doe"), None), NewAddress);
    assert ApplyCells(row, mappings, 4) == (User(Some("John"), Some("Doe"), None), NewAddress);
  }

  /** With every mapping null nothing is set, so the result is empty. */
  lemma NullMappingsExample()
    ensures MappedUsers([[Some("John"), Some("Doe"), Some("123 Main St"), Some("12345"), Some("USA")]], [None, None, None, None, None]) == []
  {
    var row := [Some("John"), Some("Doe"), Some("123 Main St"), Some("12345"), Some("USA")];
    MappedUsersShape([row], [None, None, None, None, None]);
    DroppedWhenNothingLands(row, [None, None, None, None, None]);
  }

  /** Rows four cells wide against five selectors fail validation as an invalid structure. */
  lemma NarrowRowsExample(values: seq<Option<CsvMapping>>)
    requires |values| == 5
    ensures ValidateCsvAndMapping([[Some("a"), Some("b"), Some("c"), Some("d")]], values) == Fail(InvalidStructure)
  {
  }
}
