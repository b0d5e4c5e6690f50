/**
 * The fixed mapping vocabulary of the column mapper
 * (mapper/CsvColumnMapper.java, field `allMappings`) and the "Ignore"
 * sentinel, which is recognised by its name only.
 */
module Catalog {
  import opened Wrappers
  import opened Mappings

  /** The name that marks a mapping as "do not use this column". */
  const IgnoreName: string := "Ignore"

  /** `new CsvMapping("Ignore", null, null)`. */
  const IgnoreMapping: CsvMapping := CsvMapping(IgnoreName, None, None)

  /** Ignore-ness is decided by the name, never by identity. */
  predicate IsIgnore(m: CsvMapping)
  {
    m.csvColumnName == IgnoreName
  }

  /**
   * A selector value that counts: non-null and not named "Ignore". The
   * listener records exactly these in `selectedMappings`, and the row
   * transformation applies exactly these to a row.
   */
  predicate Tracked(v: Option<CsvMapping>)
  {
    v.Some? && !IsIgnore(v.value)
  }

  /** The five target mappings, in the order the selectors offer them. */
  const AllMappings: seq<CsvMapping> := [
    CsvMapping("First", Some(FirstName), None),
    CsvMapping("Last", Some(LastName), None),
    CsvMapping("Address", None, Some(Street)),
    CsvMapping("ZIP", None, Some(Postcode)),
    CsvMapping("Country", None, Some(Country))
  ]

  /** No two entries of a sequence are equal. */
  predicate Distinct<T(==)>(s: seq<T>)
  {
    forall i, j :: 0 <= i < j < |s| ==> s[i] != s[j]
  }

  /**
   * The catalog holds five mappings with pairwise different labels, none of
   * them Ignore; the two person mappings have only a user setter and the
   * three location mappings only an address setter.
   */
  lemma CatalogShape()
    ensures |AllMappings| == 5 && Distinct(AllMappings)
    ensures forall i, j :: 0 <= i < j < |AllMappings| ==> AllMappings[i].ToString() != AllMappings[j].ToString()
    ensures forall m :: m in AllMappings ==> !IsIgnore(m)
    ensures forall m :: m in AllMappings ==> (m.userSetter.Some? <==> m.addressSetter.None?)
    ensures AllMappings[0].userSetter == Some(FirstName) && AllMappings[1].userSetter == Some(LastName)
    ensures AllMappings[2].addressSetter == Some(Street) && AllMappings[3].addressSetter == Some(Postcode)
    ensures AllMappings[4].addressSetter == Some(Country)
  {
  }

  /**
   * A label shown in a selector identifies the catalog mapping behind it, so
   * "the same mapping" by reference and "the same mapping" by name agree on
   * catalog entries.
   */
  lemma LabelIdentifiesMapping(a: CsvMapping, b: CsvMapping)
    requires a in AllMappings && b in AllMappings
    ensures a.ToString() == b.ToString() <==> a == b
  {
    CatalogShape();
    var i :| 0 <= i < |AllMappings| && AllMappings[i] == a;
    var j :| 0 <= j < |AllMappings| && AllMappings[j] == b;
    if i < j {
      assert a.ToString() != b.ToString();
    } else if j < i {
      assert b.ToString() != a.ToString();
    }
  }
}
