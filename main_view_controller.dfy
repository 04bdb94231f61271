/**
 * The list screen (MyPlaces/ViewControllers/MainViewController.swift): shows
 * the stored places, sorted by date or name in either direction, narrowed by
 * the search text while a search is active; opens a place for editing; and
 * deletes a place by swiping its row.
 */
module MainScreen {
  import opened Wrappers
  import opened Seqs
  import opened Places
  import opened Storage
  import opened Queries
  import EditScreen

  /** `searchBarIsEmpty`: true only for an empty text; a missing text does not count as empty. */
  function SearchBarIsEmpty(text: Option<string>): (r: bool)
    ensures r <==> text == Some("")
  {
    match text
    case None => false
    case Some(t) => t == ""
  }

  /** `isFiltering`: the search is active and its text is not the empty string. */
  function IsFiltering(searchActive: bool, text: Option<string>): (r: bool)
    ensures r <==> searchActive && text != Some("")
    ensures r && text.Some? ==> |text.value| > 0
  {
    searchActive && !SearchBarIsEmpty(text)
  }

  /** The key path of a segment: segment 0 sorts by date, every other segment by name. */
  function SegmentSortKey(segment: int): (k: SortKey)
    ensures k == ByDate <==> segment == 0
  {
    if segment == 0 then ByDate else ByName
  }

  /**
   * The rows the list shows for a table: the filtered query's places while
   * filtering, the query's places otherwise.
   */
  function RowsOf(filtering: bool, places: Query, filtered: Option<FilterQuery>, objects: seq<Place>): (r: seq<Place>)
    requires filtering ==> filtered.Some?
    reads objects
    ensures forall p :: p in r ==> p in objects
    ensures !filtering ==> multiset(r) == multiset(objects)
    ensures filtering ==> forall p :: p in r ==> Matches(p, filtered.value.text)
    ensures filtering ==> forall p :: p in objects && Matches(p, filtered.value.text) ==> p in r
  {
    if filtering then EvalFilter(filtered.value, objects) else Eval(places, objects)
  }

  /**
   * Deleting a place from a duplicate-free table removes exactly that place
   * from the rows, keeping the others in order, and the rows stay duplicate-free.
   */
  lemma RowsAfterRemove(filtering: bool, places: Query, filtered: Option<FilterQuery>, objects: seq<Place>, p: Place)
    requires filtering ==> filtered.Some?
    requires Distinct(objects)
    ensures Distinct(RowsOf(filtering, places, filtered, objects))
    ensures RowsOf(filtering, places, filtered, RemoveFirst(objects, p))
         == RemoveFirst(RowsOf(filtering, places, filtered, objects), p)
  {
    if filtering {
      EvalFilterDistinct(filtered.value, objects);
      EvalFilterAfterRemove(filtered.value, objects, p);
    } else {
      EvalDistinct(places, objects);
      EvalAfterRemove(places, objects, p);
    }
  }

  /**
   * Deleting the record a row shows and then that row leaves the rows equal
   * to what the lists show for the smaller table.
   */
  lemma DeleteRowKeepsRows(filtering: bool, places: Query, filtered: Option<FilterQuery>, objects: seq<Place>, row: nat)
    requires filtering ==> filtered.Some?
    requires Distinct(objects) && row < |RowsOf(filtering, places, filtered, objects)|
    ensures var rows := RowsOf(filtering, places, filtered, objects);
      RowsOf(filtering, places, filtered, RemoveFirst(objects, rows[row])) == RemoveAt(rows, row)
  {
    var rows := RowsOf(filtering, places, filtered, objects);
    RowsAfterRemove(filtering, places, filtered, objects, rows[row]);
    RemoveAtIsRemoveFirst(rows, row);
  }


  /** The rows depend on nothing but the fields of the table's records. */
  twostate lemma RowsOfUnchanged(rows: RowsSource)
    requires rows.filtering ==> rows.filtered.Some?
    requires forall i :: 0 <= i < |rows.objects| ==> unchanged(rows.objects[i])
    ensures RowsOf(rows.filtering, rows.places, rows.filtered, rows.objects)
         == old(RowsOf(rows.filtering, rows.places, rows.filtered, rows.objects))
  {
  }

  /** The arguments of `RowsOf`, as one value. */
  datatype RowsSource = RowsSource(filtering: bool, places: Query, filtered: Option<FilterQuery>, objects: seq<Place>)

  /** The image on the direction button. */
  datatype SortIcon = AZ | ZA

  class MainViewController {
    /** The global Realm. */
    const realm: Realm
    /** `places`: a live query over the table. */
    var places: Query
    /** `filteredPlaces`: nil until the first search update, then a live filtered query. */
    var filteredPlaces: Option<FilterQuery>
    var ascendingSorting: bool
    var sortIcon: SortIcon
    var selectedSegmentIndex: int
    var searchActive: bool
    var searchText: Option<string>
    /** The row the table has selected, if any. */
    var selectedRow: Option<nat>
    /** The records whose cells the table shows, in row order. */
    var tableRows: seq<Place>

    function PlacesList(): seq<Place>
      reads this`places, realm, realm.objects
    {
      Eval(places, realm.objects)
    }

    function FilteredList(): seq<Place>
      requires filteredPlaces.Some?
      reads this`filteredPlaces, realm, realm.objects
    {
      EvalFilter(filteredPlaces.value, realm.objects)
    }

    predicate Filtering()
      reads this`searchActive, this`searchText
    {
      IsFiltering(searchActive, searchText)
    }

    /**
     * The store has no duplicate, and whenever the table filters there is a
     * filtered query to read (it is nil before the first search update).
     */
    ghost predicate Valid()
      reads this`searchActive, this`searchText, this`filteredPlaces, realm
    {
      realm.Valid() && (Filtering() ==> filteredPlaces.Some?)
    }

    /** The list rows come from: the filtered list while filtering, the full list otherwise. */
    function Rows(): (r: seq<Place>)
      requires Valid()
      reads this`searchActive, this`searchText, this`places, this`filteredPlaces, realm, realm.objects
      ensures Filtering() ==> r == FilteredList()
      ensures !Filtering() ==> r == PlacesList()
    {
      RowsOf(Filtering(), places, filteredPlaces, realm.objects)
    }

    /** The table shows exactly the current rows. */
    ghost predicate InSync()
      reads this, realm, realm.objects
    {
      Valid() && tableRows == Rows()
    }

    /**
     * `viewDidLoad` followed by the first table load: the list is the whole
     * table, unsorted, ascending by default, with the search inactive.
     */
    constructor (realm: Realm)
      requires realm.Valid()
      ensures this.realm == realm && InSync()
      ensures places == AllPlaces && filteredPlaces == None && ascendingSorting && sortIcon == AZ
      ensures selectedSegmentIndex == 0 && !searchActive && searchText == Some("") && selectedRow == None
      ensures tableRows == realm.objects
    {
      this.realm := realm;
      places := AllPlaces;
      filteredPlaces := None;
      ascendingSorting := true;
      sortIcon := AZ;
      selectedSegmentIndex := 0;
      searchActive := false;
      searchText := Some("");
      selectedRow := None;
      tableRows := realm.objects;
    }

    /** `tableView(_:numberOfRowsInSection:)`. */
    method NumberOfRows() returns (count: nat)
      requires Valid()
      ensures Filtering() ==> count == |FilteredList()|
      ensures !Filtering() ==> count == |PlacesList()|
      ensures count == |Rows()|
    {
      if Filtering() {
        return |FilteredList()|;
      }
      return |PlacesList()|;
    }

    /** The record `tableView(_:cellForRowAt:)` shows in a row. */
    method CellForRow(row: nat) returns (place: Place)
      requires Valid() && row < |Rows()|
      ensures Filtering() ==> place == FilteredList()[row]
      ensures !Filtering() ==> place == PlacesList()[row]
      ensures place in realm.objects
    {
      place := if Filtering() then FilteredList()[row] else PlacesList()[row];
    }

    /**
     * `prepare(for:sender:)`: on "showDetail" with a selected row, the record
     * handed to the edit form is the one that row shows; otherwise none.
     */
    method PrepareForSegue(identifier: string) returns (handed: Option<Place>)
      requires Valid() && (selectedRow.Some? ==> selectedRow.value < |Rows()|)
      ensures identifier == "showDetail" && selectedRow.Some? ==> handed == Some(Rows()[selectedRow.value])
      ensures identifier != "showDetail" || selectedRow.None? ==> handed == None
    {
      if identifier == "showDetail" {
        if selectedRow.None? {
          return None;
        }
        var place := CellForRow(selectedRow.value);
        return Some(place);
      }
      return None;
    }

    /** `tableView.reloadData()`. */
    method ReloadData()
      requires Valid()
      modifies this`tableRows
      ensures InSync()
    {
      tableRows := Rows();
    }

    /**
     * `updateSearchResults`: take the search controller's state, then filter
     * by its text (force-unwrapped, so a missing text traps).
     */
    method UpdateSearchResults(active: bool, text: Option<string>)
      requires Valid() && text.Some?
      modifies this`searchActive, this`searchText, this`filteredPlaces, this`tableRows
      ensures InSync()
      ensures searchActive == active && searchText == text
      ensures filteredPlaces == Some(FilterQuery(old(places), text.value))
      ensures places == old(places) && ascendingSorting == old(ascendingSorting)
    {
      searchActive := active;
      searchText := text;
      FilterContentForSearchText(text.value);
    }

    /**
     * `filterContentForSearchText`: a live query for the places of the
     * current list whose name or location contains the text, ignoring case.
     */
    method FilterContentForSearchText(text: string)
      requires realm.Valid()
      modifies this`filteredPlaces, this`tableRows
      ensures InSync()
      ensures filteredPlaces == Some(FilterQuery(places, text))
      ensures forall p :: p in FilteredList() <==> p in realm.objects && Matches(p, text)
      ensures places == old(places) && ascendingSorting == old(ascendingSorting)
      ensures searchActive == old(searchActive) && searchText == old(searchText)
    {
      filteredPlaces := Some(FilterQuery(places, text));
      ReloadData();
    }

    /** `sortSelection`: the segmented control changed. */
    method SortSelection(segment: int)
      requires Valid()
      modifies this`selectedSegmentIndex, this`places, this`tableRows
      ensures InSync()
      ensures selectedSegmentIndex == segment && ascendingSorting == old(ascendingSorting)
      ensures places == Sorted(SegmentSortKey(segment), ascendingSorting)
      ensures SortedBy(PlacesList(), SegmentSortKey(segment), ascendingSorting)
      ensures multiset(PlacesList()) == multiset(realm.objects)
      ensures filteredPlaces == old(filteredPlaces)
    {
      selectedSegmentIndex := segment;
      Sorting();
    }

    /** `reversedSorting`: flip the direction, swap the icon, and sort again. */
    method ReversedSorting()
      requires Valid()
      modifies this`ascendingSorting, this`sortIcon, this`places, this`tableRows
      ensures InSync()
      ensures ascendingSorting == !old(ascendingSorting)
      ensures sortIcon == if ascendingSorting then AZ else ZA
      ensures selectedSegmentIndex == old(selectedSegmentIndex)
      ensures places == Sorted(SegmentSortKey(selectedSegmentIndex), ascendingSorting)
      ensures filteredPlaces == old(filteredPlaces)
    {
      ascendingSorting := !ascendingSorting;
      if ascendingSorting {
        sortIcon := AZ;
      } else {
        sortIcon := ZA;
      }
      Sorting();
    }

    /**
     * `sorting`: re-sort the list by the segment's key in the current
     * direction. The filtered query keeps the list it was built on.
     */
    method Sorting()
      requires Valid()
      modifies this`places, this`tableRows
      ensures InSync()
      ensures places == Sorted(SegmentSortKey(selectedSegmentIndex), ascendingSorting)
    {
      if selectedSegmentIndex == 0 {
        places := Sorted(ByDate, ascendingSorting);
      } else {
        places := Sorted(ByName, ascendingSorting);
      }
      ReloadData();
    }

    /**
     * The swipe-to-delete action as written: it deletes `places[row]` from
     * the store, reading the unfiltered list even while the table shows the
     * filtered one, and then deletes that table row. When the table is not
     * filtering the two lists agree and the table stays in step.
     */
    method SwipeDeleteAsWritten(row: nat)
      requires Valid() && !realm.inWriteTransaction
      requires row < |PlacesList()| && row < |tableRows|
      modifies realm, this`tableRows
      ensures Valid() && !realm.inWriteTransaction
      ensures realm.objects == RemoveFirst(old(realm.objects), old(PlacesList()[row]))
      ensures tableRows == RemoveAt(old(tableRows), row)
      ensures old(InSync()) && !Filtering() ==> InSync()
    {
      ghost var showsFullList := InSync() && !Filtering();
      var rows := tableRows;
      var place := PlacesList()[row];
      assert showsFullList ==> place == rows[row];
      DeleteObject(realm, place);
      tableRows := RemoveAt(rows, row);
      if showsFullList {
        InSyncAfterDelete(TableRow(this, row));
      }
    }

    /**
     * Swipe-to-delete as intended: delete the record the swiped row shows,
     * then that row. The table stays in step with the live lists.
     */
    method DeleteRow(row: nat)
      requires InSync() && !realm.inWriteTransaction && row < |tableRows|
      modifies realm, this`tableRows
      ensures InSync() && !realm.inWriteTransaction
      ensures realm.objects == RemoveFirst(old(realm.objects), old(tableRows[row]))
      ensures old(tableRows[row]) !in realm.objects && |realm.objects| == |old(realm.objects)| - 1
      ensures tableRows == RemoveAt(old(tableRows), row)
    {
      var rows := tableRows;
      var place := rows[row];
      DeleteObject(realm, place);
      tableRows := RemoveAt(rows, row);
      InSyncAfterDelete(TableRow(this, row));
    }

    /**
     * `unwindSegue`: when the edit form is the source, it saves, and the
     * table reloads. Saving an edited record changes that record in place
     * and keeps the table; saving a new one appends a fresh record holding
     * the form. The queries and the search stay as they were.
     */
    method UnwindSegue(source: EditScreen.NewPlaceViewController?, now: Time)
      requires Valid()
      requires source != null ==> source.realm == realm && !realm.inWriteTransaction && source.nameText.Some?
      modifies this`tableRows, realm, if source != null then {source.currentPlace} else {}
      ensures Valid()
      ensures source == null ==>
        && tableRows == old(tableRows) && realm.objects == old(realm.objects)
        && realm.inWriteTransaction == old(realm.inWriteTransaction)
      ensures source != null ==> InSync() && !realm.inWriteTransaction
      ensures source != null && source.currentPlace != null ==>
        && realm.objects == old(realm.objects)
        && source.HoldsForm(source.currentPlace)
        && source.currentPlace.date == old(source.currentPlace.date)
      ensures source != null && source.currentPlace == null ==>
        && |realm.objects| == |old(realm.objects)| + 1
        && realm.objects[..|old(realm.objects)|] == old(realm.objects)
        && fresh(realm.objects[|old(realm.objects)|])
        && source.HoldsForm(realm.objects[|old(realm.objects)|])
        && realm.objects[|old(realm.objects)|].date == now
    {
      if source == null {
        return;
      }
      source.SavePlace(now);
      ReloadData();
    }
  }

  /** A row of the list screen's table. */
  datatype TableRow = TableRow(table: MainViewController, row: nat)

  /**
   * After the record a row shows is deleted from the store and that row from
   * the table, with the queries and the search unchanged, the table is still
   * in step with the lists.
   */
  twostate lemma InSyncAfterDelete(r: TableRow)
    requires old(r.table.InSync()) && r.row < |old(r.table.tableRows)|
    requires unchanged(r.table`places, r.table`filteredPlaces, r.table`searchActive, r.table`searchText)
    requires forall i :: 0 <= i < |old(r.table.realm.objects)| ==> unchanged(old(r.table.realm.objects)[i])
    requires r.table.realm.Valid()
    requires r.table.realm.objects == RemoveFirst(old(r.table.realm.objects), old(r.table.tableRows[r.row]))
    requires r.table.tableRows == RemoveAt(old(r.table.tableRows), r.row)
    ensures r.table.InSync()
  {
    var c := r.table;
    var source := RowsSource(c.Filtering(), c.places, c.filteredPlaces, old(c.realm.objects));
    RowsOfUnchanged(source);
    var rows := RowsOf(source.filtering, source.places, source.filtered, source.objects);
    assert old(c.tableRows) == rows;
    DeleteRowKeepsRows(source.filtering, source.places, source.filtered, source.objects, r.row);
    assert c.Valid();
    assert c.Rows() == RowsOf(source.filtering, source.places, source.filtered, c.realm.objects);
  }

  /**
   * The swipe as written, on a table holding "A" then "B" (no locations) and
   * the search "B" active: the table's only row shows "B", while row 0 of the
   * full list, which the swipe deletes, is "A", a record the table does not
   * show. After that deletion the filtered list still has one row, so the
   * row count `deleteRows` expects (one fewer) does not match the data source.
   */
  lemma {:induction false} SwipeWhileFilteringDeletesHiddenRecord(a: Place, b: Place)
    requires a.name == "A" && a.location == None && b.name == "B" && b.location == None
    ensures var shown := RowsOf(true, AllPlaces, Some(FilterQuery(AllPlaces, "B")), [a, b]);
      shown == [b] && RowsOf(false, AllPlaces, None, [a, b])[0] == a && a !in shown
    ensures var after := RowsOf(true, AllPlaces, Some(FilterQuery(AllPlaces, "B")), RemoveFirst([a, b], a));
      after == [b] && |after| != |[b]| - 1
  {
    RemoveFirstCons(a, [b], a);
    assert !Matches(a, "B") by {
      assert Fold("A") == "a" && Fold("B") == "b";
      assert !Contains("a", "b") by {
        assert "a"[..1] == "a" && "a"[1..] == "";
        assert !Contains("", "b");
      }
    }
    assert Matches(b, "B") by {
      assert Fold("B") == "b";
      assert "b"[..|"b"|] == "b";
    }
    assert [a, b][1..] == [b] && [b][1..] == [];
    assert Filter([b], "B") == [b];
  }
}
