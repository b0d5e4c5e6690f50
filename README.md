# CSV column mapper — a Dafny model

This project models the core of a CSV import screen. A user uploads a
semicolon-separated file and maps each column to a field of a `User`/`Address`
record pair with one drop-down selector per column. The data rows are then
validated and turned into records. The model covers the two classes that
hold this logic, `CsvColumnMapper` and `CsvMapping`, in three parts:

- **Selector coordination** (`selection.dfy`, module `Selection`). Each
  selector is modelled as the value it holds plus the items it offers. The
  class `Selection.CsvColumnMapper` has the source's three fields:
  `columnMappingComboBoxes`, `selectedMappings` and the re-entrancy flag
  `updatingMappings`. Its methods are creating a selector, a selector's
  `setValue` and `clear`, the value-change listener, `updateAvailableMappings`
  and `resetMapping`. `SetValue`, the listener and `updateAvailableMappings`
  call each other. The flag ends that recursion: the notifications raised
  during a recomputation pass find the flag set and only do their
  bookkeeping. Each method is proved to produce the state given by a
  function on a `Board` value (`ValueSet`, `SelectorAdded`, `Reset`,
  `Recompute`). The lemmas about those functions carry the promise in the
  source's doc comment: a target mapping is never used in more than one
  column. They prove it as the invariant `Consistent`.
- **Validation** (`row_mapping.dfy`, `RowMapping.ValidateCsvAndMapping`).
  This is a pure check over the data rows and the selector values. It returns
  the notice the source would show instead of a boolean plus a side effect.
- **Row transformation** (`RowMapping.MapCsvToUsers`). This is a loop over
  rows and cells. It is proved equal to the specification function
  `MappedUsers`, and lemmas describe what each field ends up holding and when
  a row is kept.

`csv_mapping.dfy` models `CsvMapping`. The Java setters
(`User::setFirstName`, …) become field tags, and applying a mapping returns
the updated record. `catalog.dfy` holds the five catalog mappings and the
"Ignore" sentinel, which is recognised by its name. `entity.dfy` has the
two records, cut down to the fields a mapping can set. `wrappers.dfy` has
`Option`, which stands for Java `null`, and the two result shapes of the
import flow: `Result` (a value or a notice) and `Outcome` (pass or a
notice).

Modelling choices:

- **Identity.** Mappings are values. The source matches entries of
  `selectedMappings` by reference, but those entries are always catalog
  objects, which are pairwise distinct. So reference equality and value
  equality agree there (`Catalog.LabelIdentifiesMapping`). Every Ignore
  instance is the same value in the model.
- **Notifications.** A selector's `setValue` notifies the listener exactly
  when the value changes, as the widget does (it compares with `equals`,
  which is identity here). A few Java notifications have no model
  counterpart: replacing one Ignore instance with a new one notifies in Java
  but is not a change between values. The listener's bookkeeping for those
  notifications is empty anyway.
- **User edits.** The invariant is proved for edits that pick one of the
  selector's offered items, Ignore or null (`Selection.MayPick`). That is all
  the drop-down lets a user choose.
- **Three behaviours of the code a reader might not expect:**
  - A row of empty strings is kept, because an empty string is not null
    (`RowMapping.EmptyStringsAreKept`).
  - Only the FIRST row's width is validated.
  - A new upload does not clear the selector list or `selectedMappings`.
    New selectors are appended and offer the whole catalog whatever is
    already chosen (`Selection.SelectorAddedPreserves`). On a fresh mapper
    this is harmless (`Selection.FirstUploadConsistent`). Once a mapping has
    been chosen, an appended selector offers that mapping although another
    column holds it, and the user can pick it there, so two columns hold the
    same mapping (`Selection.SecondUploadSharesMapping`). The selector count
    also includes the old selectors, so validation reports an invalid
    structure for every file after a second upload
    (`Selection.SecondUploadFailsValidation`). Every state the mapper can
    reach, a second upload included, keeps the weaker invariant `Tracking`:
    no selector holds null, and `selectedMappings` holds exactly the tracked
    values. From any such state `resetMapping` restores `Consistent`
    (`Selection.ResetClears`).

## Model

| member | source | states |
|---|---|---|
| `Mappings.CsvMapping.ApplyToUser` | src/main/java/com/myflexbox/mapper/CsvMapping.java:21-25 | a null user setter leaves the user unchanged; otherwise exactly the field the setter names takes the raw value, and the other name field and the address link keep their values |
| `Mappings.CsvMapping.ApplyToAddress` | src/main/java/com/myflexbox/mapper/CsvMapping.java:27-31 | a null address setter leaves the address unchanged; otherwise exactly the street, postcode or country field the setter names takes the raw value |
| `Mappings.CsvMapping.ToString` | src/main/java/com/myflexbox/mapper/CsvMapping.java:33-36 | the label is the mapping's name; it has no ensures of its own, and `Catalog.LabelIdentifiesMapping` states its property |
| `Catalog.CatalogShape` | src/main/java/com/myflexbox/mapper/CsvColumnMapper.java:38-44 | the catalog has five distinct mappings with distinct labels and none is Ignore; First/Last have only a user setter (first, last name) and Address/ZIP/Country only an address setter (street, postcode, country) |
| `Catalog.LabelIdentifiesMapping` | src/main/java/com/myflexbox/mapper/CsvMapping.java:33-36 | for catalog mappings, the `toString` labels are equal iff the mappings are the same, so matching by name and matching by reference agree on the catalog |
| `RowMapping.ValidateCsvAndMapping` | src/main/java/com/myflexbox/mapper/CsvColumnMapper.java:96-110 | passes iff there is a row, the first row is as wide as there are selectors, and every selector value is non-null; it reports "invalid structure" iff there are no rows or the first row's width is wrong |
| `RowMapping.AllMapped` | src/main/java/com/myflexbox/mapper/CsvColumnMapper.java:102-104 | true iff every selector value is non-null |
| `RowMapping.IsUserPopulated` | src/main/java/com/myflexbox/mapper/CsvColumnMapper.java:228-234 | specified by `RowMapping.PopulatedByField` and `RowMapping.PopulatedHasField`: true iff some field of the user or address is non-null |
| `RowMapping.PopulatedHasField` | src/main/java/com/myflexbox/mapper/CsvColumnMapper.java:228-234 | a populated pair has a non-null field that some mapping can write |
| `RowMapping.RowUser` | src/main/java/com/myflexbox/mapper/CsvColumnMapper.java:121-137 | the user one row yields, or none; specified by `FieldIsLastSetCell`, `FieldUnsetWithoutSetter`, `DroppedWhenNothingLands` and `RowKeptIff` |
| `RowMapping.MappedUsers` | src/main/java/com/myflexbox/mapper/CsvColumnMapper.java:119-140 | the users of a row list in row order; specified by `MappedUsersAppend` and `MappedUsersShape`, and equal to what `MapCsvToUsers` returns |
| `RowMapping.MapCsvToUsers` | src/main/java/com/myflexbox/mapper/CsvColumnMapper.java:119-140 | the nested loops produce exactly `MappedUsers`: one user per populated row, in row order, each with its address attached |
| `RowMapping.ColumnWritesField` | src/main/java/com/myflexbox/mapper/CsvColumnMapper.java:125-131 | one column changes a field iff its mapping is non-null, is not named "Ignore" and has a setter for that field, and then the field holds the raw cell |
| `RowMapping.FieldUnsetWithoutSetter` | src/main/java/com/myflexbox/mapper/CsvColumnMapper.java:121-132 | a field that no used column writes stays null |
| `RowMapping.FieldIsLastSetCell` | src/main/java/com/myflexbox/mapper/CsvColumnMapper.java:125-131 | a field holds, unchanged, the cell of the last used column that writes it |
| `RowMapping.SkippedColumnIrrelevant` | src/main/java/com/myflexbox/mapper/CsvColumnMapper.java:128 | the cell of a column whose mapping is null or Ignore has no influence on the row's records |
| `RowMapping.PopulatedByField` | src/main/java/com/myflexbox/mapper/CsvColumnMapper.java:228-234 | any non-null field of user or address makes the pair count as populated |
| `RowMapping.DroppedWhenNothingLands` | src/main/java/com/myflexbox/mapper/CsvColumnMapper.java:134-137 | a row yields no user when every column that writes a field has a null cell; this covers all-null and all-Ignore mappings and mappings without setters |
| `RowMapping.RowKeptIff` | src/main/java/com/myflexbox/mapper/CsvColumnMapper.java:228-233 | when no two columns write the same field, a row is kept iff some column that writes a field has a non-null cell (an empty string counts) |
| `RowMapping.MappedUsersAppend` | src/main/java/com/myflexbox/mapper/CsvColumnMapper.java:121-139 | rows are processed independently and in order: the users of a concatenation of row lists are the concatenation of their users |
| `RowMapping.MappedUsersShape` | src/main/java/com/myflexbox/mapper/CsvColumnMapper.java:134-137 | never more users than rows; every user has its address attached and at least one non-null field; a single row yields exactly its own user or nothing |
| `RowMapping.SaveData` | src/main/java/com/myflexbox/views/GridCsvImport.java:120-140 | the save action fails with the validation notice when validation fails; it fails with "no valid data" iff validation passes and no row is kept; otherwise it hands exactly the mapped users to the save call |
| `RowMapping.FullRowExample` | src/main/test/CsvColumnMapperTest.java:18-31 | a complete row under the five catalog mappings yields one user with both names and the full address |
| `RowMapping.EmptyStringsAreKept` | src/main/java/com/myflexbox/mapper/CsvColumnMapper.java:228-233 | a row of five empty strings is kept, with every field holding the empty string |
| `RowMapping.IgnoreColumnsExample` | src/main/java/com/myflexbox/mapper/CsvColumnMapper.java:128 | with the last three columns mapped to Ignore, the user gets both names and an address with no field set |
| `RowMapping.NullMappingsExample` | src/main/test/CsvColumnMapperTest.java:34-46 | with every mapping null, a full row yields no user |
| `RowMapping.NarrowRowsExample` | src/main/java/com/myflexbox/mapper/CsvColumnMapper.java:97-100 | rows four cells wide against five selectors fail as an invalid structure |
| `Selection.RemoveFirst` | src/main/java/com/myflexbox/mapper/CsvColumnMapper.java:174 | `List.remove` takes out exactly one occurrence of a present element (multiset difference) and leaves a list without the element unchanged |
| `Selection.Bookkeep` | src/main/java/com/myflexbox/mapper/CsvColumnMapper.java:172-178 | the listener removes one occurrence of a tracked old value and appends a tracked new value at the end; nothing else enters, so Ignore and null never do |
| `Selection.Without` | src/main/java/com/myflexbox/mapper/CsvColumnMapper.java:197-200 | the available list holds exactly the catalog mappings not chosen, and is never longer than the catalog |
| `Selection.WithoutSnoc` | src/main/java/com/myflexbox/mapper/CsvColumnMapper.java:197-200 | on a catalog without duplicates, removing one more chosen mapping from the available list with `List.remove` gives the same list as filtering the catalog by the longer chosen list |
| `Selection.WithoutNothing` | src/main/java/com/myflexbox/mapper/CsvColumnMapper.java:197 | with nothing chosen, the available list is the whole catalog |
| `Selection.RemoveChosen` | src/main/java/com/myflexbox/mapper/CsvColumnMapper.java:196-200 | removing each chosen mapping once from a copy of the catalog, one `remove` at a time, leaves exactly the available list: the catalog minus the chosen mappings, in catalog order |
| `Selection.OfferedShape` | src/main/java/com/myflexbox/mapper/CsvColumnMapper.java:197-204 | the offered list is the catalog minus the chosen mappings in catalog order, followed by exactly one Ignore as its last item |
| `Selection.Recompute` | src/main/java/com/myflexbox/mapper/CsvColumnMapper.java:190-219 | keeps the number of selectors; `RecomputeShape` states the rest: every selector offers the same list, tracked values stay, and null and Ignore become the shared Ignore |
| `Selection.ValueSet` | src/main/java/com/myflexbox/mapper/CsvColumnMapper.java:172-179 | a change of value keeps the number of selectors; the listener plus recomputation it stands for is specified by `ValueSetPreserves`, `ValueSetTracks`, `ValueSetItems`, `ReleasedOfferedAgain` and `ChosenWithdrawn` |
| `Selection.SelectorAdded` | src/main/java/com/myflexbox/mapper/CsvColumnMapper.java:168-183 | the state after one selector is created; it has no ensures of its own, and `SelectorAddedPreserves`, `TrackingSelectorAdded` and `SelectorsAdded` specify it |
| `Selection.RecomputeShape` | src/main/java/com/myflexbox/mapper/CsvColumnMapper.java:206-216 | after a recomputation every selector offers the same list; a non-Ignore value is kept and a null or Ignore value becomes the one shared Ignore |
| `Selection.InitiallyConsistent` | src/main/java/com/myflexbox/mapper/CsvColumnMapper.java:32-45 | the mapper with no selectors and nothing chosen satisfies the invariant |
| `Selection.ValueSetPreserves` | src/main/java/com/myflexbox/mapper/CsvColumnMapper.java:185-189 | a user edit that picks an offered item, Ignore or null keeps the whole invariant: no mapping is shared, `selectedMappings` matches the held mappings, and no selector offers a mapping that any selector holds |
| `Selection.TrackingValueSet` | src/main/java/com/myflexbox/mapper/CsvColumnMapper.java:172-179 | any change of value, allowed by the drop-down or not, keeps the weaker invariant `Tracking` |
| `Selection.SharedListFree` | src/main/java/com/myflexbox/mapper/CsvColumnMapper.java:206-216 | when every selector offers the list computed from `selectedMappings` and that list tracks the held values, no selector offers a held mapping |
| `Selection.ValueSetTracks` | src/main/java/com/myflexbox/mapper/CsvColumnMapper.java:172-179 | after any change, `selectedMappings` again holds exactly the non-Ignore values of the selectors, as a multiset |
| `Selection.ValueSetNoShared` | src/main/java/com/myflexbox/mapper/CsvColumnMapper.java:185-189 | after an edit that picks an offered item, the held mappings are catalog mappings and no two selectors hold the same one |
| `Selection.ValueSetItems` | src/main/java/com/myflexbox/mapper/CsvColumnMapper.java:196-216 | after a change, every selector offers only catalog items and Ignore, and none offers a mapping that any selector holds |
| `Selection.ReleasedOfferedAgain` | src/main/java/com/myflexbox/mapper/CsvColumnMapper.java:173-179 | when a selector moves away from a mapping, every selector offers that mapping again straight away |
| `Selection.ChosenWithdrawn` | src/main/java/com/myflexbox/mapper/CsvColumnMapper.java:176-179 | on any board, once a selector takes a mapping, no selector offers it any more, the chosen selector included |
| `Selection.ReleasedNotChosen` | src/main/java/com/myflexbox/mapper/CsvColumnMapper.java:173-175 | the mapping a selector moves away from leaves `selectedMappings`, because no other column held it |
| `Selection.ValueSetNoNull` | src/main/java/com/myflexbox/mapper/CsvColumnMapper.java:209-212 | after a change no selector holds null, because the recomputation turns null into Ignore |
| `Selection.SelectorAddedPreserves` | src/main/java/com/myflexbox/mapper/CsvColumnMapper.java:168-183 | appending a new selector (whole catalog, holding Ignore) keeps the invariant iff no selector holds a mapping yet |
| `Selection.TrackingSelectorAdded` | src/main/java/com/myflexbox/mapper/CsvColumnMapper.java:168-183 | appending a selector keeps the weaker invariant `Tracking`, whatever is already chosen |
| `Selection.AddedToHeldBreaks` | src/main/java/com/myflexbox/mapper/CsvColumnMapper.java:168-170 | once any column holds a mapping, an appended selector offers that mapping, so the invariant part "no selector offers a mapping another column holds" fails |
| `Selection.SelectorsAdded` | src/main/java/com/myflexbox/mapper/CsvColumnMapper.java:63-69 | adding `n` selectors grows the list by `n` and leaves `selectedMappings` alone |
| `Selection.FirstUploadConsistent` | src/main/java/com/myflexbox/mapper/CsvColumnMapper.java:63-69 | on a fresh mapper, the selectors created for any number of headers satisfy the invariant and hold no mapping |
| `Selection.SecondUploadFailsValidation` | src/main/java/com/myflexbox/mapper/CsvColumnMapper.java:97-100 | once selectors exist, appending `n` more for a file `n` columns wide makes validation report an invalid structure |
| `Selection.SecondUploadSharesMapping` | src/main/java/com/myflexbox/mapper/CsvColumnMapper.java:168-179 | a reachable sequence of allowed steps (first file with one column mapped to First, second file appending a selector, First picked there) ends with two columns holding First and First recorded twice; that state keeps `Tracking`, and a reset restores `Consistent` |
| `Selection.FirstFilePick` | src/main/java/com/myflexbox/mapper/CsvColumnMapper.java:172-179 | the first step of that sequence: the single selector takes First, which is then recorded once |
| `Selection.SecondFilePick` | src/main/java/com/myflexbox/mapper/CsvColumnMapper.java:168-179 | the second step: the appended selector offers First and takes it, and both columns then hold it |
| `Selection.ClearedConsistent` | src/main/java/com/myflexbox/mapper/CsvColumnMapper.java:158-160 | the state after a reset satisfies the invariant: every selector holds Ignore and offers the whole catalog plus Ignore, and nothing is chosen |
| `Selection.ResetClears` | src/main/java/com/myflexbox/mapper/CsvColumnMapper.java:158-160 | from any state with the weaker invariant `Tracking`, a second upload included: after `resetMapping` every selector holds Ignore and offers the whole catalog plus Ignore, `selectedMappings` is empty, and `Consistent` holds again |
| `Selection.ResetIdempotent` | src/main/java/com/myflexbox/mapper/CsvColumnMapper.java:158-160 | from any state with the weaker invariant `Tracking`, a second reset changes nothing |
| `Selection.ResetFrom` | src/main/java/com/myflexbox/mapper/CsvColumnMapper.java:158-160 | clearing selectors from `i` onwards; `ResetFromClears` states that it ends with the cleared board |
| `Selection.Reset` | src/main/java/com/myflexbox/mapper/CsvColumnMapper.java:158-160 | clearing every selector, first to last; `ResetClears` and `ResetIdempotent` specify it |
| `Selection.NoSharedName` | src/main/java/com/myflexbox/mapper/CsvColumnMapper.java:185-189 | under the invariant no two columns show the same label, Ignore aside |
| `Selection.ConsistentPassesMappingCheck` | src/main/java/com/myflexbox/mapper/CsvColumnMapper.java:102-108 | under the invariant the "complete the mapping" check cannot fail, so validation passes iff the first row is as wide as there are selectors |
| `Selection.CatalogTargetsDistinct` | src/main/java/com/myflexbox/mapper/CsvColumnMapper.java:38-44 | two catalog mappings that write the same field are the same mapping |
| `Selection.ConsistentUniqueTargets` | src/main/java/com/myflexbox/mapper/CsvColumnMapper.java:125-131 | under the invariant no two selector values write the same field, so the transformation's kept-iff lemma applies to them |
| `Selection.CsvColumnMapper.constructor` | src/main/java/com/myflexbox/mapper/CsvColumnMapper.java:32-45 | a new mapper has no selectors, nothing chosen and the flag off |
| `Selection.CsvColumnMapper.CreateColumnMappingComboBox` | src/main/java/com/myflexbox/mapper/CsvColumnMapper.java:168-183 | appends one selector offering the five catalog mappings (without Ignore) and holding Ignore; the listener is registered after the value is set, so none runs, and nothing else changes |
| `Selection.CsvColumnMapper.SetValue` | src/main/java/com/myflexbox/mapper/CsvColumnMapper.java:172-179 | outside a pass, the state becomes `ValueSet` of the old state; inside a pass, only the value is stored and the bookkeeping done, with no recomputation; the flag is unchanged |
| `Selection.CsvColumnMapper.OnValueChange` | src/main/java/com/myflexbox/mapper/CsvColumnMapper.java:172-180 | `selectedMappings` becomes `Bookkeep` of its old value; outside a pass all selectors are then recomputed, inside a pass they are untouched |
| `Selection.CsvColumnMapper.UpdateAvailableMappings` | src/main/java/com/myflexbox/mapper/CsvColumnMapper.java:190-219 | a call while the flag is set changes nothing; otherwise all selectors become `Recompute` of their old state, `selectedMappings` is unchanged and the flag is off again at the end |
| `Selection.CsvColumnMapper.SettleAll` | src/main/java/com/myflexbox/mapper/CsvColumnMapper.java:206-216 | run inside a pass, every selector ends up offering the new list and keeps its mapping, with null and Ignore becoming the shared Ignore; `selectedMappings` and the flag are unchanged |
| `Selection.CsvColumnMapper.SettleOne` | src/main/java/com/myflexbox/mapper/CsvColumnMapper.java:207-215 | one turn of that loop changes only selector `i`, to its settled form; the `setValue` notification inside the pass leaves `selectedMappings` alone |
| `Selection.CsvColumnMapper.Clear` | src/main/java/com/myflexbox/mapper/CsvColumnMapper.java:159 | clearing a selector is `setValue(null)`: the state becomes `ValueSet(old, i, None)` |
| `Selection.CsvColumnMapper.ResetMapping` | src/main/java/com/myflexbox/mapper/CsvColumnMapper.java:158-160 | clearing every selector in turn gives `Reset` of the old state, with the flag off |
| `Selection.CsvColumnMapper.SelectorValues` | src/main/java/com/myflexbox/views/GridCsvImport.java:127-130 | the mapping list handed to the transformation is the selector values in column order |

`CsvMapping.ToString` returns the label. Its property is stated by
`Catalog.LabelIdentifiesMapping`.

## Left out

- `loadCsvToGrid` and `retrieveEntries` are left out. CSV parsing (opencsv)
  and the grid are foreign code, so rows arrive as `seq<Option<string>>` and
  the header row is given as a count of selectors. Three source quirks fall
  outside the model. An empty file makes `entries.get(0)` throw, and nothing
  catches it. A parse failure shows an error column. The
  `camelCaseToHumanFriendly` result is discarded.
- Widget events are left out beyond `setValue`. Whether `setItems` also
  notifies the listener depends on the widget. If it cleared the value, the
  extra notifications would only reorder `selectedMappings` during a pass,
  because the guard suppresses their recomputation.
- `ApplyToUser` and `ApplyToAddress` do not show that the setter is invoked
  exactly once: a setter overwrites one field, so calling it once or twice
  has the same effect on the value.
- `MapCsvToUsers` requires every row to be at most as wide as the mapping
  list. The source throws on `mappings.get(i)` for a wider row. Validation
  checks only the first row, so a later, wider row would crash the save
  action.
- Notifications are returned as `Notice` values, not shown.
  `CustomNotification`, the persistence call `userRepository.saveAll` and its
  error message are left out, as are page layout, internationalisation and
  message lookup.
- The `Address` entity's id, `equals` and `hashCode` are left out, and so is
  everything on `User` except the two names and the address link.
- Concurrency is left out: all events run one at a time on the UI thread.
