/**
 * Column-selector coordination of the column mapper
 * (mapper/CsvColumnMapper.java): one selector per CSV column, the list of
 * mappings currently chosen, and the recomputation that keeps any target
 * mapping out of every selector once some column uses it.
 *
 * A selector is its current value plus the items it offers; the widget
 * itself is not modelled. The first half states the behaviour as functions
 * on a `Board` value and proves the invariants; the class at the end is the
 * stateful mapper, whose methods are proved to follow those functions.
 */
module Selection {
  import opened Wrappers
  import opened Mappings
  import opened Catalog
  import RowMapping

  /** One column's selector: the value it holds (`None` is null) and the items it offers. */
  datatype Selector = Selector(value: Option<CsvMapping>, items: seq<CsvMapping>)

  /** The mapper's selector state: `columnMappingComboBoxes` and `selectedMappings`. */
  datatype Board = Board(selectors: seq<Selector>, selected: seq<CsvMapping>)

  /** What a value contributes to `selectedMappings`. */
  function Contribution(v: Option<CsvMapping>): multiset<CsvMapping>
  {
    if Tracked(v) then multiset{v.value} else multiset{}
  }

  /** `List.remove(Object)`: drops the first occurrence of `x`, if any. */
  function RemoveFirst(s: seq<CsvMapping>, x: CsvMapping): (r: seq<CsvMapping>)
    ensures x in s ==> multiset(r) == multiset(s) - multiset{x}
    ensures x !in s ==> r == s
    ensures forall m :: m in r ==> m in s
  {
    if s == [] then []
    else
      assert s == [s[0]] + s[1..];
      assert multiset(s) == multiset{s[0]} + multiset(s[1..]);
      if s[0] == x then s[1..]
      else
        var rest := RemoveFirst(s[1..], x);
        assert multiset([s[0]] + rest) == multiset{s[0]} + multiset(rest);
        [s[0]] + rest
  }

  /**
   * The listener's bookkeeping on a change from `oldValue` to `newValue`:
   * a tracked old value loses one occurrence, a tracked new value is
   * appended. Ignore and null never enter the list.
   */
  function Bookkeep(selected: seq<CsvMapping>, oldValue: Option<CsvMapping>, newValue: Option<CsvMapping>): (r: seq<CsvMapping>)
    ensures (Tracked(oldValue) ==> oldValue.value in selected) ==>
              multiset(r) == multiset(selected) - Contribution(oldValue) + Contribution(newValue)
    ensures forall m :: m in r ==> m in selected || (Tracked(newValue) && m == newValue.value)
    ensures Tracked(newValue) ==> |r| > 0 && r[|r| - 1] == newValue.value
  {
    var kept := if Tracked(oldValue) then RemoveFirst(selected, oldValue.value) else selected;
    if Tracked(newValue) then kept + [newValue.value] else kept
  }

  /** The elements of `s`, in order, that are not in `drop`. */
  function Without(s: seq<CsvMapping>, drop: seq<CsvMapping>): (r: seq<CsvMapping>)
    ensures forall m :: m in r <==> m in s && m !in drop
    ensures |r| <= |s|
  {
    if s == [] then []
    else if s[0] in drop then Without(s[1..], drop)
    else [s[0]] + Without(s[1..], drop)
  }

  /** The catalog in its own order, minus the chosen mappings. */
  function Available(selected: seq<CsvMapping>): seq<CsvMapping>
  {
    Without(AllMappings, selected)
  }

  /** What every selector offers after a recomputation: the available mappings, then one Ignore. */
  function Offered(selected: seq<CsvMapping>): seq<CsvMapping>
  {
    Available(selected) + [IgnoreMapping]
  }

  /** One selector after a recomputation pass. */
  function Settle(s: Selector, offered: seq<CsvMapping>): Selector
  {
    Selector(if Tracked(s.value) then s.value else Some(IgnoreMapping), offered)
  }

  /** `updateAvailableMappings` run to completion over all selectors. */
  function Recompute(ss: seq<Selector>, selected: seq<CsvMapping>): (r: seq<Selector>)
    ensures |r| == |ss|
  {
    seq(|ss|, j requires 0 <= j < |ss| => Settle(ss[j], Offered(selected)))
  }

  /**
   * Selector `i` is given value `v` (by the user or by `clear()`): when the
   * value differs, the listener records the change and recomputes all
   * selectors; otherwise nothing is notified.
   */
  function ValueSet(b: Board, i: nat, v: Option<CsvMapping>): (r: Board)
    requires i < |b.selectors|
    ensures |r.selectors| == |b.selectors|
  {
    var current := b.selectors[i].value;
    if v == current then b
    else
      var ss := b.selectors[i := b.selectors[i].(value := v)];
      var selected := Bookkeep(b.selected, current, v);
      Board(Recompute(ss, selected), selected)
  }

  /** `createColumnMappingComboBoxes`: a selector offering the whole catalog and holding Ignore, appended. */
  function SelectorAdded(b: Board): Board
  {
    Board(b.selectors + [Selector(Some(IgnoreMapping), AllMappings)], b.selected)
  }

  /** `resetMapping` from selector `i` on: each remaining selector is cleared in turn. */
  function ResetFrom(b: Board, i: nat): Board
    requires i <= |b.selectors|
    decreases |b.selectors| - i
  {
    if i == |b.selectors| then b else ResetFrom(ValueSet(b, i, None), i + 1)
  }

  /** Clearing selector `i` is the first step of resetting from `i`. */
  lemma ResetFromStep(b: Board, b': Board, i: nat, target: Board)
    requires i < |b.selectors| && b' == ValueSet(b, i, None)
    requires ResetFrom(b, i) == target
    ensures ResetFrom(b', i + 1) == target
  {
  }

  /** Once every selector has been cleared, nothing is left to do. */
  lemma ResetFromEnd(b: Board)
    ensures ResetFrom(b, |b.selectors|) == b
  {
  }

  /** `resetMapping`: clear every selector, first to last. */
  function Reset(b: Board): Board
  {
    ResetFrom(b, 0)
  }

  /** The tracked values the selectors hold, in selector order. */
  function Held(ss: seq<Selector>): seq<CsvMapping>
  {
    if ss == [] then [] else (if Tracked(ss[0].value) then [ss[0].value.value] else []) + Held(ss[1..])
  }

  /** The selector values, as `comboBox.getValue()` reads them. */
  function Values(ss: seq<Selector>): (r: seq<Option<CsvMapping>>)
    ensures |r| == |ss| && forall j :: 0 <= j < |ss| ==> r[j] == ss[j].value
  {
    seq(|ss|, j requires 0 <= j < |ss| => ss[j].value)
  }

  /** A change between two untracked values leaves the chosen list as it is. */
  lemma BookkeepUntracked(selected: seq<CsvMapping>, oldValue: Option<CsvMapping>, newValue: Option<CsvMapping>)
    requires !Tracked(oldValue) && !Tracked(newValue)
    ensures Bookkeep(selected, oldValue, newValue) == selected
  {
  }

  /** Outside a pass no selector holds null. */
  ghost predicate NoNull(b: Board)
  {
    forall j :: 0 <= j < |b.selectors| ==> b.selectors[j].value.Some?
  }

  /** Every tracked value is a catalog mapping. */
  ghost predicate HeldInCatalog(b: Board)
  {
    forall j :: 0 <= j < |b.selectors| && Tracked(b.selectors[j].value) ==> b.selectors[j].value.value in AllMappings
  }

  /** No target mapping is used by two columns. */
  ghost predicate NoSharedMapping(b: Board)
  {
    forall j, k :: 0 <= j < k < |b.selectors| && Tracked(b.selectors[j].value) && Tracked(b.selectors[k].value) ==>
      b.selectors[j].value != b.selectors[k].value
  }

  /** `selectedMappings` holds exactly the tracked values, each as often as it is held. */
  ghost predicate TracksHeld(b: Board)
  {
    multiset(b.selected) == multiset(Held(b.selectors))
  }

  /** What a selector offers, Ignore aside, comes from the catalog. */
  ghost predicate ItemsFromCatalog(b: Board)
  {
    forall j, m :: 0 <= j < |b.selectors| && m in b.selectors[j].items && !IsIgnore(m) ==> m in AllMappings
  }

  /** No selector offers a mapping another selector holds. */
  ghost predicate ItemsFree(b: Board)
  {
    forall j, k :: 0 <= j < |b.selectors| && 0 <= k < |b.selectors| && Tracked(b.selectors[k].value) ==>
      b.selectors[k].value.value !in b.selectors[j].items
  }

  /**
   * The invariant promised by the doc comment of `updateAvailableMappings`.
   * Every user edit keeps it; appending selectors for a second file can
   * break it (`SecondUploadSharesMapping`).
   */
  ghost predicate Consistent(b: Board)
  {
    NoNull(b) && HeldInCatalog(b) && NoSharedMapping(b) && TracksHeld(b) && ItemsFromCatalog(b) && ItemsFree(b)
  }

  /**
   * The weaker invariant every reachable state keeps, a second upload
   * included: no selector holds null, and `selectedMappings` holds exactly
   * the tracked values.
   */
  ghost predicate Tracking(b: Board)
  {
    NoNull(b) && TracksHeld(b)
  }

  /** What a user can choose in selector `i`: one of its items, Ignore, or clearing it. */
  predicate MayPick(b: Board, i: nat, v: Option<CsvMapping>)
    requires i < |b.selectors|
  {
    v.None? || IsIgnore(v.value) || v.value in b.selectors[i].items
  }

  /**
   * The offered list: the catalog mappings not chosen, in catalog order,
   * followed by exactly one Ignore as its last item.
   */
  lemma OfferedShape(selected: seq<CsvMapping>)
    ensures var r := Offered(selected);
      && |r| >= 1 && r[|r| - 1] == IgnoreMapping
      && (forall k :: 0 <= k < |r| - 1 ==> !IsIgnore(r[k]))
      && (forall m :: m in r && !IsIgnore(m) <==> m in AllMappings && m !in selected)
      && r[..|r| - 1] == Without(AllMappings, selected)
  {
    CatalogShape();
    var r := Offered(selected);
    assert r[..|r| - 1] == Without(AllMappings, selected);
    forall k | 0 <= k < |r| - 1
      ensures !IsIgnore(r[k])
    {
      assert r[k] in Without(AllMappings, selected);
    }
  }

  /** With nothing chosen, every selector offers the whole catalog and Ignore. */
  lemma {:induction false} WithoutNothing(s: seq<CsvMapping>)
    ensures Without(s, []) == s
  {
    if s != [] {
      WithoutNothing(s[1..]);
    }
  }

  /** With nothing chosen, the offered list is the whole catalog followed by Ignore. */
  lemma OfferedNothing(selected: seq<CsvMapping>)
    requires selected == []
    ensures Offered(selected) == ClearedItems
  {
    WithoutNothing(AllMappings);
  }

  /**
   * After a recomputation every selector offers the same list; a tracked
   * value is kept, and a null or Ignore value becomes the one shared Ignore.
   */
  lemma RecomputeShape(ss: seq<Selector>, selected: seq<CsvMapping>)
    ensures var r := Recompute(ss, selected);
      forall j :: 0 <= j < |ss| ==>
        && r[j].items == Offered(selected)
        && (Tracked(ss[j].value) ==> r[j].value == ss[j].value)
        && (!Tracked(ss[j].value) ==> r[j].value == Some(IgnoreMapping))
  {
  }

  /** Two selector lists that track the same values at the same places hold the same values. */
  lemma {:induction false} HeldAgree(a: seq<Selector>, c: seq<Selector>)
    requires |a| == |c|
    requires forall j :: 0 <= j < |a| ==> Tracked(a[j].value) == Tracked(c[j].value)
    requires forall j :: 0 <= j < |a| && Tracked(a[j].value) ==> a[j].value == c[j].value
    ensures Held(a) == Held(c)
  {
    if a != [] {
      HeldAgree(a[1..], c[1..]);
    }
  }

  /** Replacing one selector changes the held values by exactly its contributions. */
  lemma {:induction false} HeldUpdate(ss: seq<Selector>, i: nat, s: Selector)
    requires i < |ss|
    ensures Contribution(ss[i].value) <= multiset(Held(ss))
    ensures multiset(Held(ss[i := s])) == multiset(Held(ss)) - Contribution(ss[i].value) + Contribution(s.value)
    decreases |ss|, 1
  {
    var a, b := Contribution(ss[0].value), multiset(Held(ss[1..]));
    var c, d := Contribution(ss[i].value), Contribution(s.value);
    HeldCons(ss);
    if i == 0 {
      var t := ss[i := s];
      assert multiset(Held(t)) == d + b by {
        HeldCons(t);
        assert t[1..] == ss[1..];
      }
      ReplaceInSum(b, a, a, d);
    } else {
      HeldUpdateTail(ss, i, s);
      ReplaceInSum(a, b, c, d);
    }
  }

  /** Replacing a selector after the first: the first one's contribution stays in front. */
  lemma {:induction false} HeldUpdateTail(ss: seq<Selector>, i: nat, s: Selector)
    requires 0 < i < |ss|
    ensures Contribution(ss[i].value) <= multiset(Held(ss[1..]))
    ensures multiset(Held(ss[i := s])) ==
      Contribution(ss[0].value) + (multiset(Held(ss[1..])) - Contribution(ss[i].value) + Contribution(s.value))
    decreases |ss|, 0
  {
    var t := ss[i := s];
    var rest := ss[1..][i - 1 := s];
    assert ss[1..][i - 1] == ss[i];
    HeldUpdate(ss[1..], i - 1, s);
    assert t[1..] == rest && t[0] == ss[0];
    HeldCons(t);
  }

  /**
   * Reassignment: when selector `i` moves away from a target mapping, every
   * selector offers the released mapping again at once.
   */
  lemma ReleasedOfferedAgain(b: Board, i: nat, v: Option<CsvMapping>)
    requires Consistent(b) && i < |b.selectors| && MayPick(b, i, v)
    requires Tracked(b.selectors[i].value) && v != b.selectors[i].value
    ensures forall j :: 0 <= j < |b.selectors| ==> b.selectors[i].value.value in ValueSet(b, i, v).selectors[j].items
  {
    var m := b.selectors[i].value.value;
    var r := ValueSet(b, i, v);
    ReleasedNotChosen(b, i, v);
    assert forall j :: 0 <= j < |r.selectors| ==> r.selectors[j].items == Offered(r.selected) by {
      RecomputeShape(b.selectors[i := b.selectors[i].(value := v)], r.selected);
    }
    OfferedShape(r.selected);
  }

  /** The mapping a selector moves away from is no longer among the chosen ones. */
  lemma ReleasedNotChosen(b: Board, i: nat, v: Option<CsvMapping>)
    requires Consistent(b) && i < |b.selectors| && MayPick(b, i, v)
    requires Tracked(b.selectors[i].value) && v != b.selectors[i].value
    ensures b.selectors[i].value.value !in ValueSet(b, i, v).selected
  {
    var m := b.selectors[i].value.value;
    var r := ValueSet(b, i, v);
    var ss := b.selectors[i := b.selectors[i].(value := v)];
    ValueSetTracks(b, i, v);
    assert forall k :: 0 <= k < |r.selectors| && Tracked(r.selectors[k].value) ==> r.selectors[k].value.value != m by {
      RecomputeShape(ss, r.selected);
    }
    HeldAbsent(r.selectors, m);
    assert m !in multiset(r.selected);
  }

  /** After selector `i` takes a target mapping, no selector offers it, the chosen one included. */
  lemma ChosenWithdrawn(b: Board, i: nat, v: Option<CsvMapping>)
    requires i < |b.selectors| && Tracked(v) && v != b.selectors[i].value
    ensures forall j :: 0 <= j < |b.selectors| ==> v.value !in ValueSet(b, i, v).selectors[j].items
  {
    var r := ValueSet(b, i, v);
    assert v.value in r.selected;
    RecomputeShape(b.selectors[i := b.selectors[i].(value := v)], r.selected);
    OfferedShape(r.selected);
  }

  /** A mapping no selector tracks is not among the held values. */
  lemma {:induction false} HeldAbsent(ss: seq<Selector>, m: CsvMapping)
    requires forall k :: 0 <= k < |ss| && Tracked(ss[k].value) ==> ss[k].value.value != m
    ensures m !in Held(ss)
  {
    if ss != [] {
      HeldAbsent(ss[1..], m);
    }
  }

  /** `n` selectors appended one after another, as a file with `n` headers creates them. */
  function SelectorsAdded(b: Board, n: nat): (r: Board)
    ensures |r.selectors| == |b.selectors| + n && r.selected == b.selected
  {
    if n == 0 then b else SelectorAdded(SelectorsAdded(b, n - 1))
  }

  /**
   * The first upload: on a fresh mapper, one selector per header all
   * holding Ignore and offering the whole catalog satisfy the invariant.
   */
  lemma {:induction false} FirstUploadConsistent(n: nat)
    ensures Consistent(SelectorsAdded(Board([], []), n))
    ensures Held(SelectorsAdded(Board([], []), n).selectors) == []
  {
    if n > 0 {
      var prev := SelectorsAdded(Board([], []), n - 1);
      FirstUploadConsistent(n - 1);
      SelectorAddedPreserves(prev);
      var added := Selector(Some(IgnoreMapping), AllMappings);
      assert SelectorsAdded(Board([], []), n) == Board(prev.selectors + [added], prev.selected);
      HeldAppend(prev.selectors, added);
    }
  }

  /**
   * A second upload appends its selectors to those of the first, so the
   * selector count no longer matches the new file's width and validation
   * reports an invalid structure for every file.
   */
  lemma SecondUploadFailsValidation(b: Board, n: nat, entries: seq<RowMapping.Row>)
    requires |b.selectors| > 0 && entries != [] && |entries[0]| == n
    ensures RowMapping.ValidateCsvAndMapping(entries, Values(SelectorsAdded(b, n).selectors)) == Fail(RowMapping.InvalidStructure)
  {
  }

  /**
   * A reachable board that breaks the invariant: one column of the first
   * file is set to First, a second file appends a selector, which still
   * offers First, and the user picks it there. Both columns then hold
   * First, and First is recorded twice. A reset repairs the board.
   */
  lemma SecondUploadSharesMapping()
    ensures var b0 := SelectorsAdded(Board([], []), 1);
      var first := Some(AllMappings[0]);
      var b1 := ValueSet(b0, 0, first);
      var b2 := SelectorAdded(b1);
      var b3 := ValueSet(b2, 1, first);
      && MayPick(b0, 0, first) && MayPick(b2, 1, first)
      && !NoSharedMapping(b3) && b3.selected == [AllMappings[0], AllMappings[0]]
      && Tracking(b3) && Consistent(Reset(b3))
  {
    var b0 := SelectorsAdded(Board([], []), 1);
    var first := Some(AllMappings[0]);
    var b1 := FirstFilePick();
    var b2 := SelectorAdded(b1);
    var b3 := SecondFilePick(b1);
    assert Tracking(b3) by {
      FirstUploadConsistent(1);
      TrackingValueSet(b0, 0, first);
      TrackingSelectorAdded(b1);
      TrackingValueSet(b2, 1, first);
    }
    assert Consistent(Reset(b3)) by {
      ResetClears(b3);
    }
  }

  /** The first file has one column, and the user maps it to First. */
  lemma FirstFilePick() returns (b1: Board)
    ensures var b0 := SelectorsAdded(Board([], []), 1);
      && b0 == Board([Selector(Some(IgnoreMapping), AllMappings)], [])
      && MayPick(b0, 0, Some(AllMappings[0]))
      && b1 == ValueSet(b0, 0, Some(AllMappings[0]))
      && |b1.selectors| == 1 && b1.selectors[0].value == Some(AllMappings[0]) && b1.selected == [AllMappings[0]]
  {
    var b0 := SelectorsAdded(Board([], []), 1);
    var first := Some(AllMappings[0]);
    assert b0 == SelectorAdded(Board([], []));
    b1 := ValueSet(b0, 0, first);
    CatalogShape();
    assert b1.selected == [AllMappings[0]];
    RecomputeShape(b0.selectors[0 := b0.selectors[0].(value := first)], b1.selected);
  }

  /** The second file appends a selector, and the user picks First there too. */
  lemma SecondFilePick(b1: Board) returns (b3: Board)
    requires |b1.selectors| == 1 && b1.selectors[0].value == Some(AllMappings[0]) && b1.selected == [AllMappings[0]]
    ensures var b2 := SelectorAdded(b1);
      && MayPick(b2, 1, Some(AllMappings[0]))
      && b3 == ValueSet(b2, 1, Some(AllMappings[0]))
      && !NoSharedMapping(b3) && b3.selected == [AllMappings[0], AllMappings[0]]
  {
    var b2 := SelectorAdded(b1);
    var first := Some(AllMappings[0]);
    CatalogShape();
    assert b2.selectors[1] == Selector(Some(IgnoreMapping), AllMappings);
    b3 := ValueSet(b2, 1, first);
    assert b3.selected == [AllMappings[0], AllMappings[0]];
    RecomputeShape(b2.selectors[1 := b2.selectors[1].(value := first)], b3.selected);
    assert b3.selectors[0].value == first && b3.selectors[1].value == first;
  }

  /** Removing a part of one summand and adding another commutes with the sum. */
  lemma ReplaceInSum(a: multiset<CsvMapping>, b: multiset<CsvMapping>, c: multiset<CsvMapping>, d: multiset<CsvMapping>)
    requires c <= b
    ensures c <= a + b
    ensures a + (b - c + d) == a + b - c + d
  {
    assert forall x :: (a + (b - c + d))[x] == (a + b - c + d)[x];
  }

  /** The held values of a non-empty list: the first selector's, then the rest. */
  lemma HeldCons(ss: seq<Selector>)
    requires ss != []
    ensures multiset(Held(ss)) == Contribution(ss[0].value) + multiset(Held(ss[1..]))
  {
  }

  /** Nothing is held when no selector tracks a value. */
  lemma {:induction false} HeldNone(ss: seq<Selector>)
    requires forall j :: 0 <= j < |ss| ==> !Tracked(ss[j].value)
    ensures Held(ss) == []
  {
    if ss != [] {
      HeldNone(ss[1..]);
    }
  }

  /** Every held value is some selector's tracked value. */
  lemma {:induction false} HeldSource(ss: seq<Selector>, m: CsvMapping)
    requires m in Held(ss)
    ensures exists j :: 0 <= j < |ss| && Tracked(ss[j].value) && ss[j].value.value == m
  {
    if !(Tracked(ss[0].value) && ss[0].value.value == m) {
      HeldSource(ss[1..], m);
      var j :| 0 <= j < |ss[1..]| && Tracked(ss[1..][j].value) && ss[1..][j].value.value == m;
      assert ss[j + 1] == ss[1..][j];
    }
  }

  /** A tracked value is among the held ones. */
  lemma HeldHas(ss: seq<Selector>, k: nat)
    requires k < |ss| && Tracked(ss[k].value)
    ensures ss[k].value.value in multiset(Held(ss))
  {
    HeldUpdate(ss, k, ss[k]);
  }

  /** The mapper before any selector exists. */
  lemma InitiallyConsistent()
    ensures Consistent(Board([], []))
  {
  }

  /**
   * The invariant `Consistent` is kept by every user edit: when selector `i`
   * is given one of its offered items, Ignore, or null, no target mapping
   * ends up in two columns, `selectedMappings` again holds exactly the
   * chosen mappings, and no selector offers a mapping any selector holds.
   */
  lemma ValueSetPreserves(b: Board, i: nat, v: Option<CsvMapping>)
    requires Consistent(b) && i < |b.selectors| && MayPick(b, i, v)
    ensures Consistent(ValueSet(b, i, v))
  {
    if v != b.selectors[i].value {
      ValueSetNoNull(b, i, v);
      ValueSetTracks(b, i, v);
      ValueSetNoShared(b, i, v);
      ValueSetItems(b, i, v);
    }
  }

  /** After a change no selector holds null: the recomputation turns null into Ignore. */
  lemma ValueSetNoNull(b: Board, i: nat, v: Option<CsvMapping>)
    requires i < |b.selectors| && v != b.selectors[i].value
    ensures NoNull(ValueSet(b, i, v))
  {
    var r := ValueSet(b, i, v);
    RecomputeShape(b.selectors[i := b.selectors[i].(value := v)], r.selected);
  }

  /** Any change of value, a user's or a clear, keeps the weaker invariant. */
  lemma TrackingValueSet(b: Board, i: nat, v: Option<CsvMapping>)
    requires Tracking(b) && i < |b.selectors|
    ensures Tracking(ValueSet(b, i, v))
  {
    if v != b.selectors[i].value {
      ValueSetNoNull(b, i, v);
      ValueSetTracks(b, i, v);
    }
  }

  /** Appending a selector keeps the weaker invariant, whatever is already chosen. */
  lemma TrackingSelectorAdded(b: Board)
    requires Tracking(b)
    ensures Tracking(SelectorAdded(b))
  {
    var added := Selector(Some(IgnoreMapping), AllMappings);
    HeldAppend(b.selectors, added);
    assert Held(b.selectors + [added]) == Held(b.selectors);
  }

  /** After an edit `selectedMappings` still holds exactly the chosen mappings. */
  lemma ValueSetTracks(b: Board, i: nat, v: Option<CsvMapping>)
    requires TracksHeld(b) && i < |b.selectors| && v != b.selectors[i].value
    ensures TracksHeld(ValueSet(b, i, v))
  {
    var current := b.selectors[i].value;
    var ss := b.selectors[i := b.selectors[i].(value := v)];
    var selected := Bookkeep(b.selected, current, v);
    var r := Recompute(ss, selected);
    RecomputeShape(ss, selected);
    HeldUpdate(b.selectors, i, b.selectors[i].(value := v));
    HeldAgree(r, ss);
    if Tracked(current) {
      assert current.value in multiset(b.selected);
    }
  }

  /** After an edit that picks an offered item, the chosen mappings are still distinct catalog entries. */
  lemma ValueSetNoShared(b: Board, i: nat, v: Option<CsvMapping>)
    requires HeldInCatalog(b) && NoSharedMapping(b) && ItemsFromCatalog(b) && ItemsFree(b)
    requires i < |b.selectors| && MayPick(b, i, v) && v != b.selectors[i].value
    ensures HeldInCatalog(ValueSet(b, i, v)) && NoSharedMapping(ValueSet(b, i, v))
  {
    var ss := b.selectors[i := b.selectors[i].(value := v)];
    var r := ValueSet(b, i, v);
    EditKeepsDistinct(b, i, v);
    assert forall j :: 0 <= j < |r.selectors| && Tracked(r.selectors[j].value) ==> r.selectors[j].value == ss[j].value by {
      RecomputeShape(ss, r.selected);
    }
    KeptValuesDistinct(Board(ss, b.selected), r);
  }

  /** Giving selector `i` an offered item, Ignore or null keeps the held values distinct catalog entries. */
  lemma EditKeepsDistinct(b: Board, i: nat, v: Option<CsvMapping>)
    requires HeldInCatalog(b) && NoSharedMapping(b) && ItemsFromCatalog(b) && ItemsFree(b)
    requires i < |b.selectors| && MayPick(b, i, v)
    ensures var a := Board(b.selectors[i := b.selectors[i].(value := v)], b.selected);
      HeldInCatalog(a) && NoSharedMapping(a)
  {
    if Tracked(v) {
      assert v.value in b.selectors[i].items;
    }
  }

  /** Held values that survive unchanged stay distinct catalog entries. */
  lemma KeptValuesDistinct(a: Board, c: Board)
    requires |a.selectors| == |c.selectors| && HeldInCatalog(a) && NoSharedMapping(a)
    requires forall j :: 0 <= j < |c.selectors| && Tracked(c.selectors[j].value) ==> c.selectors[j].value == a.selectors[j].value
    ensures HeldInCatalog(c) && NoSharedMapping(c)
  {
  }

  /** After an edit every selector offers catalog items that nobody holds. */
  lemma ValueSetItems(b: Board, i: nat, v: Option<CsvMapping>)
    requires i < |b.selectors| && v != b.selectors[i].value
    requires TracksHeld(ValueSet(b, i, v))
    ensures ItemsFromCatalog(ValueSet(b, i, v)) && ItemsFree(ValueSet(b, i, v))
  {
    var r := ValueSet(b, i, v);
    assert forall j :: 0 <= j < |r.selectors| ==> r.selectors[j].items == Offered(r.selected) by {
      RecomputeShape(b.selectors[i := b.selectors[i].(value := v)], r.selected);
    }
    OfferedShape(r.selected);
    SharedListFree(r);
  }

  /** When every selector offers the list computed from `selectedMappings`, no selector offers a held mapping. */
  lemma SharedListFree(r: Board)
    requires TracksHeld(r)
    requires forall j :: 0 <= j < |r.selectors| ==> r.selectors[j].items == Offered(r.selected)
    ensures ItemsFree(r)
  {
    forall j, k | 0 <= j < |r.selectors| && 0 <= k < |r.selectors| && Tracked(r.selectors[k].value)
      ensures r.selectors[k].value.value !in r.selectors[j].items
    {
      HeldHas(r.selectors, k);
      OfferedShape(r.selected);
    }
  }

  /**
   * A new selector offers the whole catalog whatever is already chosen, so
   * appending one keeps the invariant exactly when no selector holds a
   * target mapping yet (the first upload); after that, the newcomer offers
   * mappings other columns hold.
   */
  lemma SelectorAddedPreserves(b: Board)
    requires Consistent(b)
    ensures Consistent(SelectorAdded(b)) <==> Held(b.selectors) == []
  {
    if Held(b.selectors) == [] {
      AddedToEmptyKeeps(b);
    } else {
      AddedToHeldBreaks(b);
    }
  }

  /** With nothing held, the appended selector keeps the invariant. */
  lemma AddedToEmptyKeeps(b: Board)
    requires Consistent(b) && Held(b.selectors) == []
    ensures Consistent(SelectorAdded(b))
  {
    var r := SelectorAdded(b);
    var n := |b.selectors|;
    assert forall k :: 0 <= k < n ==> !Tracked(b.selectors[k].value) by {
      forall k | 0 <= k < n && Tracked(b.selectors[k].value)
        ensures false
      {
        HeldHas(b.selectors, k);
      }
    }
    assert forall k :: 0 <= k < |r.selectors| ==> !Tracked(r.selectors[k].value);
    assert ItemsFromCatalog(r) by {
      assert r.selectors[n].items == AllMappings;
    }
    assert TracksHeld(r) by {
      HeldNone(r.selectors);
    }
  }

  /** Once a mapping is held, the appended selector offers it although another column holds it. */
  lemma AddedToHeldBreaks(b: Board)
    requires Consistent(b) && Held(b.selectors) != []
    ensures !ItemsFree(SelectorAdded(b))
  {
    var r := SelectorAdded(b);
    var n := |b.selectors|;
    var m := Held(b.selectors)[0];
    HeldSource(b.selectors, m);
    var k :| 0 <= k < n && Tracked(b.selectors[k].value) && b.selectors[k].value.value == m;
    assert r.selectors[k] == b.selectors[k];
    assert r.selectors[n].items == AllMappings;
  }

  /** The held values of a list with one more selector at the end. */
  lemma {:induction false} HeldAppend(ss: seq<Selector>, s: Selector)
    ensures Held(ss + [s]) == Held(ss) + (if Tracked(s.value) then [s.value.value] else [])
  {
    var tail := if Tracked(s.value) then [s.value.value] else [];
    if ss == [] {
      assert ss + [s] == [s];
      assert Held([s]) == tail + Held([]);
    } else {
      var head := if Tracked(ss[0].value) then [ss[0].value.value] else [];
      var t := ss + [s];
      assert t[0] == ss[0] && t[1..] == ss[1..] + [s];
      HeldAppend(ss[1..], s);
      assert Held(t) == head + (Held(ss[1..]) + tail);
      assert head + (Held(ss[1..]) + tail) == (head + Held(ss[1..])) + tail;
    }
  }

  /** What every selector offers once nothing is chosen: the whole catalog, then Ignore. */
  const ClearedItems: seq<CsvMapping> := AllMappings + [IgnoreMapping]

  /** `n` selectors all holding Ignore, offering the whole catalog, with nothing chosen. */
  function Cleared(n: nat): (r: Board)
    ensures |r.selectors| == n
  {
    Board(seq(n, _ => Selector(Some(IgnoreMapping), ClearedItems)), [])
  }

  /** The cleared board satisfies the invariant. */
  lemma ClearedConsistent(n: nat)
    ensures Consistent(Cleared(n))
  {
    var r := Cleared(n);
    var cell := Selector(Some(IgnoreMapping), ClearedItems);
    assert forall j :: 0 <= j < n ==> r.selectors[j] == cell;
    assert !Tracked(cell.value);
    assert TracksHeld(r) by {
      HeldNone(r.selectors);
    }
  }

  /**
   * Part way through `resetMapping`: the board is tracking, selectors
   * before `i` hold Ignore, and once one was cleared every selector offers
   * the same list.
   */
  ghost predicate Resetting(b: Board, i: nat)
  {
    && Tracking(b) && i <= |b.selectors|
    && (forall j :: 0 <= j < i ==> b.selectors[j].value == Some(IgnoreMapping))
    && (i > 0 ==> forall j :: 0 <= j < |b.selectors| ==> b.selectors[j].items == Offered(b.selected))
  }

  /** Clearing the remaining selectors of a board part way through a reset ends with the cleared board. */
  lemma {:induction false} ResetFromClears(b: Board, i: nat)
    requires Resetting(b, i)
    ensures ResetFrom(b, i) == Cleared(|b.selectors|)
    decreases |b.selectors| - i
  {
    if i == |b.selectors| {
      ResetDone(b);
      ResetFromEnd(b);
    } else {
      var b' := ResetStep(b, i);
      ResetFromClears(b', i + 1);
    }
  }

  /** A board whose selectors have all been cleared is the cleared board. */
  lemma ResetDone(b: Board)
    requires TracksHeld(b)
    requires forall j :: 0 <= j < |b.selectors| ==> b.selectors[j].value == Some(IgnoreMapping)
    requires |b.selectors| > 0 ==> forall j :: 0 <= j < |b.selectors| ==> b.selectors[j].items == Offered(b.selected)
    ensures b == Cleared(|b.selectors|)
  {
    NothingChosen(b);
    OfferedNothing(b.selected);
    AllCleared(b.selectors);
  }

  /** Selectors that all hold Ignore and offer the cleared list are the cleared ones. */
  lemma AllCleared(ss: seq<Selector>)
    requires forall j :: 0 <= j < |ss| ==> ss[j] == Selector(Some(IgnoreMapping), ClearedItems)
    ensures ss == Cleared(|ss|).selectors
  {
  }

  /** When every selector holds Ignore, nothing is chosen. */
  lemma NothingChosen(b: Board)
    requires TracksHeld(b)
    requires forall j :: 0 <= j < |b.selectors| ==> b.selectors[j].value == Some(IgnoreMapping)
    ensures b.selected == []
  {
    HeldNone(b.selectors);
    assert multiset(b.selected) == multiset{};
  }

  /** Clearing selector `i` keeps the board tracking and settles every selector. */
  lemma ResetStep(b: Board, i: nat) returns (b': Board)
    requires Resetting(b, i) && i < |b.selectors|
    ensures |b'.selectors| == |b.selectors| && Resetting(b', i + 1)
    ensures ResetFrom(b, i) == ResetFrom(b', i + 1)
  {
    b' := ValueSet(b, i, None);
    assert b.selectors[i].value.Some?;
    assert Tracking(b') by {
      TrackingValueSet(b, i, None);
    }
    ClearSettles(b, i);
    ResetFromStep(b, b', i, ResetFrom(b, i));
  }

  /** Clearing a selector that holds a value settles every selector, those cleared before it holding Ignore. */
  lemma ClearSettles(b: Board, i: nat)
    requires i < |b.selectors| && b.selectors[i].value.Some?
    requires forall j :: 0 <= j < i ==> b.selectors[j].value == Some(IgnoreMapping)
    ensures var r := ValueSet(b, i, None);
      forall j :: 0 <= j < |r.selectors| ==>
        r.selectors[j].items == Offered(r.selected) && (j <= i ==> r.selectors[j].value == Some(IgnoreMapping))
  {
    var r := ValueSet(b, i, None);
    RecomputeShape(b.selectors[i := b.selectors[i].(value := None)], r.selected);
  }

  /**
   * `resetMapping` leaves every selector holding Ignore and offering the
   * whole catalog, and `selectedMappings` empty: whatever the selectors had
   * contributed is gone.
   */
  lemma ResetClears(b: Board)
    requires Tracking(b)
    ensures Reset(b) == Cleared(|b.selectors|)
    ensures Consistent(Reset(b))
    ensures forall j :: 0 <= j < |b.selectors| ==> Reset(b).selectors[j].value == Some(IgnoreMapping)
    ensures Reset(b).selected == []
  {
    ResetFromClears(b, 0);
    ClearedConsistent(|b.selectors|);
  }

  /** A second reset changes nothing. */
  lemma ResetIdempotent(b: Board)
    requires Tracking(b)
    ensures Reset(Reset(b)) == Reset(b)
  {
    ResetClears(b);
    ResetClears(Reset(b));
  }

  /** Under the invariant two columns never show the same label, Ignore aside. */
  lemma NoSharedName(b: Board, j: nat, k: nat)
    requires Consistent(b) && j < k < |b.selectors|
    requires Tracked(b.selectors[j].value) && Tracked(b.selectors[k].value)
    ensures b.selectors[j].value.value.ToString() != b.selectors[k].value.value.ToString()
  {
    LabelIdentifiesMapping(b.selectors[j].value.value, b.selectors[k].value.value);
  }

  /**
   * Under the invariant the "complete the mapping" check of validation
   * cannot fail, so validation passes exactly when the first row is as wide
   * as there are selectors.
   */
  lemma ConsistentPassesMappingCheck(b: Board, entries: seq<RowMapping.Row>)
    requires Consistent(b)
    ensures RowMapping.ValidateCsvAndMapping(entries, Values(b.selectors)).Pass? <==>
              entries != [] && |entries[0]| == |b.selectors|
  {
  }

  /** Distinct catalog mappings write distinct fields. */
  lemma CatalogTargetsDistinct(m1: CsvMapping, m2: CsvMapping, t: RowMapping.Target)
    requires m1 in AllMappings && m2 in AllMappings
    requires RowMapping.Sets(Some(m1), t) && RowMapping.Sets(Some(m2), t)
    ensures m1 == m2
  {
  }

  /**
   * The selector values of a consistent board never route two columns into
   * the same field, so each kept row's fields come one-to-one from cells.
   */
  lemma ConsistentUniqueTargets(b: Board)
    requires Consistent(b)
    ensures RowMapping.UniqueTargets(Values(b.selectors))
  {
    var vs := Values(b.selectors);
    forall j, k, t | 0 <= j < k < |vs| && RowMapping.Sets(vs[j], t)
      ensures !RowMapping.Sets(vs[k], t)
    {
      if RowMapping.Sets(vs[k], t) {
        CatalogTargetsDistinct(vs[j].value, vs[k].value, t);
      }
    }
  }

  /**
   * Removing mappings one at a time from a catalog without duplicates, as
   * `availableMappings::remove` does, leaves the catalog minus everything
   * removed so far, in catalog order.
   */
  lemma {:induction false} WithoutSnoc(s: seq<CsvMapping>, drop: seq<CsvMapping>, x: CsvMapping)
    requires Distinct(s)
    ensures Without(s, drop + [x]) == RemoveFirst(Without(s, drop), x)
  {
    if s != [] {
      assert Distinct(s[1..]);
      WithoutSnoc(s[1..], drop, x);
      if s[0] !in drop && s[0] == x {
        assert x !in s[1..];
        assert x !in Without(s[1..], drop);
        assert Without(s[1..], drop + [x]) == RemoveFirst(Without(s[1..], drop), x);
      }
    }
  }

  /** Before any removal the working list is the whole catalog. */
  lemma RemovalStart(selected: seq<CsvMapping>)
    ensures Without(AllMappings, selected[..0]) == AllMappings
  {
    assert selected[..0] == [];
    WithoutNothing(AllMappings);
  }

  /** One removal of the available-mappings loop, Ignore entries being skipped. */
  lemma RemovalStep(selected: seq<CsvMapping>, k: nat)
    requires k < |selected|
    ensures Without(AllMappings, selected[..k + 1]) ==
      if IsIgnore(selected[k]) then Without(AllMappings, selected[..k])
      else RemoveFirst(Without(AllMappings, selected[..k]), selected[k])
  {
    CatalogShape();
    assert selected[..k + 1] == selected[..k] + [selected[k]];
    WithoutSnoc(AllMappings, selected[..k], selected[k]);
  }

  /**
   * The first part of `updateAvailableMappings`: a copy of the catalog
   * from which every chosen mapping that is not Ignore is removed, one
   * `List.remove` at a time.
   */
  method RemoveChosen(selected: seq<CsvMapping>) returns (availableMappings: seq<CsvMapping>)
    ensures availableMappings == Available(selected)
  {
    availableMappings := AllMappings;
    RemovalStart(selected);
    var k := 0;
    while k < |selected|
      invariant 0 <= k <= |selected|
      invariant availableMappings == Without(AllMappings, selected[..k])
    {
      var mapping := selected[k];
      if !IsIgnore(mapping) {
        availableMappings := RemoveFirst(availableMappings, mapping);
      }
      RemovalStep(selected, k);
      k := k + 1;
    }
    assert selected[..k] == selected;
  }

  /**
   * The stateful mapper. Its fields are the source's: the selector list,
   * the chosen mappings, and the flag that suppresses nested
   * recomputation. `State` reads the first two as a `Board`.
   */
  class CsvColumnMapper {
    var updatingMappings: bool
    var columnMappingComboBoxes: seq<Selector>
    var selectedMappings: seq<CsvMapping>

    function State(): Board
      reads this
    {
      Board(columnMappingComboBoxes, selectedMappings)
    }

    /** A fresh mapper: no selectors, nothing chosen, no pass running. */
    constructor ()
      ensures State() == Board([], []) && !updatingMappings
    {
      updatingMappings := false;
      columnMappingComboBoxes := [];
      selectedMappings := [];
    }

    /**
     * `createColumnMappingComboBoxes`: the new selector gets the whole
     * catalog as items and a fresh Ignore as value before its listener is
     * registered, so no notification is raised; it is appended last.
     */
    method CreateColumnMappingComboBox()
      modifies this
      ensures State() == SelectorAdded(old(State()))
      ensures updatingMappings == old(updatingMappings)
    {
      var comboBox := Selector(None, AllMappings);
      comboBox := comboBox.(value := Some(IgnoreMapping));
      columnMappingComboBoxes := columnMappingComboBoxes + [comboBox];
    }

    /**
     * A selector's `setValue` (a user's choice, or `clear()` with `None`):
     * the value is stored and, when it differs from the old one, the
     * value-change listener runs. Inside a recomputation pass the listener
     * only does its bookkeeping.
     */
    method SetValue(i: nat, v: Option<CsvMapping>)
      requires i < |columnMappingComboBoxes|
      modifies this
      decreases if updatingMappings then 0 else 1, 2
      ensures updatingMappings == old(updatingMappings)
      ensures !old(updatingMappings) ==> State() == ValueSet(old(State()), i, v)
      ensures old(updatingMappings) ==>
        columnMappingComboBoxes == old(columnMappingComboBoxes)[i := old(columnMappingComboBoxes)[i].(value := v)] &&
        selectedMappings == if v == old(columnMappingComboBoxes)[i].value then old(selectedMappings)
                            else Bookkeep(old(selectedMappings), old(columnMappingComboBoxes)[i].value, v)
    {
      var current := columnMappingComboBoxes[i].value;
      if v != current {
        columnMappingComboBoxes := columnMappingComboBoxes[i := columnMappingComboBoxes[i].(value := v)];
        OnValueChange(current, v);
      }
    }

    /**
     * The value-change listener: a tracked old value loses one occurrence
     * in `selectedMappings`, a tracked new value is appended, then the
     * offered items are recomputed (a no-op while a pass is running).
     */
    method OnValueChange(oldValue: Option<CsvMapping>, newValue: Option<CsvMapping>)
      modifies this
      decreases if updatingMappings then 0 else 1, 1
      ensures selectedMappings == Bookkeep(old(selectedMappings), oldValue, newValue)
      ensures updatingMappings == old(updatingMappings)
      ensures columnMappingComboBoxes ==
        if old(updatingMappings) then old(columnMappingComboBoxes)
        else Recompute(old(columnMappingComboBoxes), selectedMappings)
    {
      if oldValue.Some? && !IsIgnore(oldValue.value) {
        selectedMappings := RemoveFirst(selectedMappings, oldValue.value);
      }
      if newValue.Some? && !IsIgnore(newValue.value) {
        selectedMappings := selectedMappings + [newValue.value];
      }
      UpdateAvailableMappings();
    }

    /**
     * `updateAvailableMappings`: unless a pass is already running, compute
     * the catalog minus the chosen mappings plus one shared Ignore, give
     * every selector that list, and move null and Ignore values to the
     * shared Ignore. The notifications this raises find the flag set.
     */
    method UpdateAvailableMappings()
      modifies this
      decreases if updatingMappings then 0 else 1, 0
      ensures selectedMappings == old(selectedMappings)
      ensures updatingMappings == old(updatingMappings)
      ensures columnMappingComboBoxes ==
        if old(updatingMappings) then old(columnMappingComboBoxes)
        else Recompute(old(columnMappingComboBoxes), selectedMappings)
    {
      if updatingMappings {
        return;
      }
      updatingMappings := true;

      var availableMappings := RemoveChosen(selectedMappings);
      var ignoreMapping := IgnoreMapping;
      availableMappings := availableMappings + [ignoreMapping];
      SettleAll(availableMappings);
      assert columnMappingComboBoxes == Recompute(old(columnMappingComboBoxes), selectedMappings);

      updatingMappings := false;
    }

    /**
     * The loop of `updateAvailableMappings` over the selectors, run with the
     * flag set: each selector gets the new list and keeps its value, null
     * and Ignore becoming the shared Ignore. The `setValue` notifications it
     * raises change nothing in `selectedMappings`.
     */
    method SettleAll(availableMappings: seq<CsvMapping>)
      requires updatingMappings
      modifies this
      decreases if updatingMappings then 0 else 1, 4
      ensures updatingMappings && selectedMappings == old(selectedMappings)
      ensures |columnMappingComboBoxes| == |old(columnMappingComboBoxes)|
      ensures forall j :: 0 <= j < |columnMappingComboBoxes| ==>
        columnMappingComboBoxes[j] == Settle(old(columnMappingComboBoxes)[j], availableMappings)
    {
      var i := 0;
      while i < |columnMappingComboBoxes|
        invariant updatingMappings
        invariant selectedMappings == old(selectedMappings)
        invariant 0 <= i <= |columnMappingComboBoxes| == |old(columnMappingComboBoxes)|
        invariant forall j :: 0 <= j < i ==>
          columnMappingComboBoxes[j] == Settle(old(columnMappingComboBoxes)[j], availableMappings)
        invariant forall j :: i <= j < |columnMappingComboBoxes| ==>
          columnMappingComboBoxes[j] == old(columnMappingComboBoxes)[j]
      {
        SettleOne(i, availableMappings);
        i := i + 1;
      }
    }

    /**
     * One turn of that loop: selector `i` gets the new list, then its value
     * is set again, null and Ignore as the shared Ignore. Inside the pass
     * the notification this may raise leaves `selectedMappings` alone.
     */
    method SettleOne(i: nat, availableMappings: seq<CsvMapping>)
      requires updatingMappings && i < |columnMappingComboBoxes|
      modifies this
      decreases if updatingMappings then 0 else 1, 3
      ensures updatingMappings && selectedMappings == old(selectedMappings)
      ensures columnMappingComboBoxes ==
        old(columnMappingComboBoxes)[i := Settle(old(columnMappingComboBoxes)[i], availableMappings)]
    {
      var selectedValue := columnMappingComboBoxes[i].value;
      if selectedValue.None? || IsIgnore(selectedValue.value) {
        BookkeepUntracked(selectedMappings, selectedValue, Some(IgnoreMapping));
        selectedValue := Some(IgnoreMapping);
      }
      columnMappingComboBoxes := columnMappingComboBoxes[i := columnMappingComboBoxes[i].(items := availableMappings)];
      SetValue(i, selectedValue);
    }

    /** A selector's `clear()`: `setValue(null)` outside a recomputation pass. */
    method Clear(i: nat)
      requires i < |columnMappingComboBoxes| && !updatingMappings
      modifies this
      ensures State() == ValueSet(old(State()), i, None)
      ensures !updatingMappings
    {
      SetValue(i, None);
    }

    /** `resetMapping`: `clear()` every selector, first to last. */
    method ResetMapping()
      requires !updatingMappings
      modifies this
      ensures State() == Reset(old(State()))
      ensures !updatingMappings
    {
      ghost var target := Reset(State());
      var i := 0;
      while i < |columnMappingComboBoxes|
        invariant 0 <= i <= |columnMappingComboBoxes|
        invariant !updatingMappings
        invariant ResetFrom(State(), i) == target
      {
        ghost var before := State();
        Clear(i);
        ResetFromStep(before, State(), i, target);
        i := i + 1;
      }
      ResetFromEnd(State());
    }

    /** The selector values, in column order, as the save action reads them. */
    function SelectorValues(): (r: seq<Option<CsvMapping>>)
      reads this
      ensures |r| == |columnMappingComboBoxes|
      ensures forall j :: 0 <= j < |r| ==> r[j] == columnMappingComboBoxes[j].value
    {
      Values(columnMappingComboBoxes)
    }
  }
}
