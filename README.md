# MyPlaces, modelled in Dafny

MyPlaces is an iOS app for keeping a list of favourite places. Each place has a name, an optional
address and type, a photo, a star rating and a creation date. This project models the app's logic
and proves properties of it:

- a star-rating control whose buttons mirror the integer rating;
- the `Place` record and the process-wide Realm store with its save and delete write transactions;
- the list screen, which:
  - sorts by date or by name, in either direction;
  - narrows the list by a case-insensitive search over name and address;
  - hands a selected place to the edit form;
  - deletes a place by swiping its row;
- the edit form, which creates a place or overwrites the one being edited;
- the map helper and map screen, which:
  - pin a place from its geocoded address;
  - request driving directions and draw their routes;
  - follow the map centre once it is more than 50 m from the last position;
  - show the street and building number of the map centre.

The model has one module per Swift file:

| module | Swift file |
|---|---|
| `Places` | `Models/PlaceModel.swift` |
| `Storage` | `Helpers/StorageManager.swift` |
| `Rating` | `RatingControl.swift` |
| `Queries`, `MainScreen` | `ViewControllers/MainViewController.swift` |
| `EditScreen` | `NewPlaceViewController.swift` |
| `Maps` | `Helpers/MapManager.swift` |
| `MapScreen` | `ViewControllers/MapViewController.swift` |

`Wrappers` (an `Option` type) and `Seqs` (duplicate-freedom, removal, `firstIndex(of:)`) are shared helpers.

Objects that the app changes in place are Dafny classes whose methods state the whole new state:

- `Place`, the Realm, the rating control and its buttons;
- the three view controllers, the map helper, the map view and route requests.

Decisions that are pure choices are functions with lemmas beside them. These include:

- whether the list is filtering;
- the sort key for a segment;
- the rating a tap produces;
- the directions request;
- the 50 m tracking rule;
- the address label text.

Realm `Results` are live: they re-evaluate over the table on every read. So the list screen keeps
its `places` and `filteredPlaces` as query values (`Query`, `FilterQuery`), and these are evaluated
against the store's table whenever a row is read. Realm's own sort and filter are replaced by
definitions that keep what Realm promises:

- the sort is a permutation ordered by the key, with ties kept in table order;
- the filter is an order-preserving selection of exactly the matching places.

Callbacks from outside the app become parameters of the methods that would receive them:

- the geocoder's and the route service's answers;
- the user's position;
- CoreLocation's distance between two points;
- the clock reading that becomes a new place's `date`.

A `try!` or a force-unwrap that would trap becomes a precondition, because the app does not
handle that case.

In three places the code does less than one would expect, and the model follows the code:

- Filtering needs an active search as well as a non-empty text; a non-empty text alone does not filter.
- `resetMapView` cancels every request it holds, including the new one, and then forgets them all.
  So a request from an earlier reset is never cancelled by a later one, and the map helper does not
  ensure that only one request is in flight.
- The reverse geocode of the map screen cancels a geocoder it has just created. An earlier lookup
  is therefore never cancelled, and no single-flight property is claimed for it.

## Model

| member | source | states |
|---|---|---|
| Places.DecodeImage | MyPlaces/NewPlaceViewController.swift:121 | image bytes decode to a picture exactly when they are PNG data |
| Places.DecodePngData | MyPlaces/NewPlaceViewController.swift:89 | PNG data made from a picture decodes back to that picture |
| Places.Place.Default | MyPlaces/Models/PlaceModel.swift:13-18 | a new place has an empty name, no address, type or image data, rating 0.0, and the current clock reading as its date |
| Places.Place.constructor | MyPlaces/Models/PlaceModel.swift:23-30 | the convenience initializer sets name, address, type, image data and rating to its arguments; the date is not a parameter and stays the construction time |
| Storage.Realm.constructor | MyPlaces/Helpers/StorageManager.swift:11 | the one process-wide store starts empty, duplicate-free and outside a write transaction |
| Storage.Realm.Add | MyPlaces/Helpers/StorageManager.swift:20 | inside a write transaction, a place joins the end of the table unless the store already manages it |
| Storage.Realm.Delete | MyPlaces/Helpers/StorageManager.swift:30 | inside a write transaction, a managed place leaves the table and the other places keep their order |
| Storage.Realm.BeginWrite | MyPlaces/Helpers/StorageManager.swift:19 | opens a write transaction, which must not already be open; the table is unchanged |
| Storage.Realm.CommitWrite | MyPlaces/Helpers/StorageManager.swift:21 | closes the open write transaction; the table is unchanged |
| Storage.SaveObject | MyPlaces/Helpers/StorageManager.swift:16-22 | one whole write transaction; afterwards the place is in the store, added at the end exactly when it was not there; the table stays duplicate-free and no transaction is left open |
| Storage.DeleteObject | MyPlaces/Helpers/StorageManager.swift:26-32 | one whole write transaction; afterwards the place is gone, the table is one shorter, every other place is still present in its old order, and no transaction is left open |
| Rating.TappedRating | MyPlaces/RatingControl.swift:51-61 | a tap on star i gives rating i+1, or 0 when the rating already was i+1; a tap on a button the control does not own leaves the rating alone |
| Rating.TapStaysInRange | MyPlaces/RatingControl.swift:54-61 | taps keep a rating that lies in 0..starCount inside 0..starCount |
| Rating.RatingControl.constructor | MyPlaces/RatingControl.swift:22-45 | defaults rating 0, five stars of 44x44 points, then sets up the buttons: five distinct fresh buttons, all shown, none selected |
| Rating.RatingControl.SetRating | MyPlaces/RatingControl.swift:14-18 | every assignment to the rating refreshes the buttons so that button i is selected exactly when i < rating; the buttons themselves stay |
| Rating.RatingControl.SetStarSize | MyPlaces/RatingControl.swift:22-27 | changing the star size rebuilds the buttons with fresh ones; the rating and count stay, and the selection matches the rating |
| Rating.RatingControl.SetStarCount | MyPlaces/RatingControl.swift:28-33 | changing the star count rebuilds exactly that many fresh buttons, whose selection matches the rating; a negative count traps |
| Rating.RatingControl.RatingButtonTapped | MyPlaces/RatingControl.swift:49-62 | the new rating is TappedRating of the button's first index; an unknown button changes nothing; a rating within 0..starCount stays within it; the buttons keep matching the rating; the buttons, star count and star size stay |
| Seqs.FirstIndex | MyPlaces/RatingControl.swift:51 | `firstIndex(of:)`: the position of the first equal element, and none exactly when there is no such element |
| Rating.RatingControl.SetupButtons | MyPlaces/RatingControl.swift:66-118 | takes every old button off the stack and empties the array, then leaves exactly starCount fresh distinct buttons, stacked in order, with the selection matching the rating |
| Rating.RatingControl.UpdateButtonSelectionState | MyPlaces/RatingControl.swift:121-125 | afterwards button i is selected exactly when i < rating |
| Queries.StrLeTotal | MyPlaces/ViewControllers/MainViewController.swift:151 | the name order compares any two names |
| Queries.StrLe | MyPlaces/ViewControllers/MainViewController.swift:151 | the name order behind `sorted(byKeyPath: "name")`: a prefix comes first, and a name comes first only if its first character is not greater |
| Queries.StrLeReflexive | MyPlaces/ViewControllers/MainViewController.swift:151 | every name may come before itself |
| Queries.StrLeTransitive | MyPlaces/ViewControllers/MainViewController.swift:151 | the name order is transitive |
| Queries.StrLeAntisymmetric | MyPlaces/ViewControllers/MainViewController.swift:151 | two names that each come no later than the other are equal |
| Queries.KeyLeTotal | MyPlaces/ViewControllers/MainViewController.swift:148-152 | the date or name order, in either direction, compares any two places |
| Queries.KeyLe | MyPlaces/ViewControllers/MainViewController.swift:148-152 | a place may precede itself; by date, `a` precedes `b` when the dates are equal or strictly ordered in the chosen direction |
| Queries.KeyLeTransitive | MyPlaces/ViewControllers/MainViewController.swift:148-152 | the date or name order, in either direction, is transitive |
| Queries.Insert | MyPlaces/ViewControllers/MainViewController.swift:149-151 | inserting a place adds exactly that place to the list |
| Queries.InsertSorted | MyPlaces/ViewControllers/MainViewController.swift:149-151 | inserting into a list sorted by the key keeps it sorted |
| Queries.InsertDistinct | MyPlaces/ViewControllers/MainViewController.swift:149-151 | inserting a new place into a duplicate-free list keeps it duplicate-free |
| Queries.SortPlaces | MyPlaces/ViewControllers/MainViewController.swift:149-151 | `sorted(byKeyPath:ascending:)` gives a permutation of the table, ordered by the key in the given direction |
| Queries.SortDistinct | MyPlaces/ViewControllers/MainViewController.swift:149-151 | sorting a duplicate-free table gives a duplicate-free list |
| Queries.InsertThenRemove | MyPlaces/ViewControllers/MainViewController.swift:149-151 | inserting a new place and then removing it gives back the list |
| Queries.InsertRemoveCommute | MyPlaces/ViewControllers/MainViewController.swift:149-151 | in a sorted list, inserting one place and removing another commute |
| Queries.SortAfterRemove | MyPlaces/ViewControllers/MainViewController.swift:149-151 | deleting a place from the table removes just that place from the sorted list and moves nothing else |
| Queries.SortedByNameUnique | MyPlaces/ViewControllers/MainViewController.swift:151 | with unique names, two lists of the same places sorted by name in the same direction are equal |
| Queries.SortNameReverse | MyPlaces/ViewControllers/MainViewController.swift:151 | with unique names, the descending name sort is exactly the ascending one reversed |
| Queries.Fold | MyPlaces/ViewControllers/MainViewController.swift:167 | case folding keeps the length of a string |
| Queries.ContainsEmpty | MyPlaces/ViewControllers/MainViewController.swift:167 | every string contains the empty text |
| Queries.Contains | MyPlaces/ViewControllers/MainViewController.swift:167 | `CONTAINS`: a prefix of the text counts as contained, and a contained needle is never longer than the text |
| Queries.ContainsIgnoringCase | MyPlaces/ViewControllers/MainViewController.swift:167 | `CONTAINS[c]`: a field whose folded form starts with the folded text contains it, and the text is never longer than the field |
| Queries.Matches | MyPlaces/ViewControllers/MainViewController.swift:167 | the empty text matches every place; a place without an address matches on its name alone |
| Queries.MatchesIgnoresCase | MyPlaces/ViewControllers/MainViewController.swift:167 | `[c]`: folding the search text's case first does not change which places match |
| Queries.Filter | MyPlaces/ViewControllers/MainViewController.swift:165-167 | the filter keeps exactly the places whose name, or existing address, contains the text ignoring case, in their order in the list |
| Queries.FilterDistinct | MyPlaces/ViewControllers/MainViewController.swift:167 | filtering a duplicate-free list gives a duplicate-free list |
| Queries.FilterIdempotent | MyPlaces/ViewControllers/MainViewController.swift:167 | filtering twice by the same text is filtering once |
| Queries.FilterEmptyText | MyPlaces/ViewControllers/MainViewController.swift:167 | an empty search text keeps every place, because every name contains it |
| Queries.FilterAfterRemove | MyPlaces/ViewControllers/MainViewController.swift:167 | filtering commutes with deleting one place |
| Queries.Eval | MyPlaces/ViewControllers/MainViewController.swift:149-151 | a live query shows a permutation of the table, ordered by its key when it is sorted |
| Queries.EvalDistinct | MyPlaces/ViewControllers/MainViewController.swift:39 | a live query over a duplicate-free table has no duplicate |
| Queries.EvalFilter | MyPlaces/ViewControllers/MainViewController.swift:167 | a live filtered query shows exactly the stored places that match its text |
| Queries.EvalFilterDistinct | MyPlaces/ViewControllers/MainViewController.swift:167 | a live filtered query over a duplicate-free table has no duplicate |
| Queries.EvalFilterAfterRemove | MyPlaces/ViewControllers/MainViewController.swift:167 | deleting a place from the table removes just that place from a live filtered list |
| Queries.EvalAfterRemove | MyPlaces/ViewControllers/MainViewController.swift:149-151 | deleting a place from the table removes just that place from a live list |
| MainScreen.SearchBarIsEmpty | MyPlaces/ViewControllers/MainViewController.swift:20-23 | true exactly for the empty text; a missing text does not count as empty |
| MainScreen.IsFiltering | MyPlaces/ViewControllers/MainViewController.swift:26-28 | filtering exactly when the search is active and the text is not the empty string; a missing text filters |
| MainScreen.SegmentSortKey | MyPlaces/ViewControllers/MainViewController.swift:148-152 | segment 0, and only segment 0, sorts by date; every other segment sorts by name |
| MainScreen.RowsOf | MyPlaces/ViewControllers/MainViewController.swift:52-63 | while filtering, the rows are exactly the stored places that match the text; otherwise they are a permutation of the whole table |
| MainScreen.RowsAfterRemove | MyPlaces/ViewControllers/MainViewController.swift:91 | deleting a place from the store removes just that place from the rows, which stay duplicate-free |
| MainScreen.DeleteRowKeepsRows | MyPlaces/ViewControllers/MainViewController.swift:91-92 | deleting the place a row shows, then that row, leaves exactly the rows of the smaller table |
| MainScreen.RowsOfUnchanged | MyPlaces/ViewControllers/MainViewController.swift:52-57 | the rows depend only on the stored places' fields, the queries and the search state |
| MainScreen.InSyncAfterDelete | MyPlaces/ViewControllers/MainViewController.swift:91-92 | after the displayed place and its row are deleted, the table still shows exactly the current rows |
| MainScreen.MainViewController.constructor | MyPlaces/ViewControllers/MainViewController.swift:36-48 | the list starts as the whole table, unsorted and ascending, with the search inactive and the table in step |
| MainScreen.MainViewController.NumberOfRows | MyPlaces/ViewControllers/MainViewController.swift:52-57 | the row count is the filtered count while filtering and the full count otherwise |
| MainScreen.MainViewController.CellForRow | MyPlaces/ViewControllers/MainViewController.swift:63 | row i shows the i-th filtered place while filtering and the i-th place otherwise, and it is a stored place |
| MainScreen.MainViewController.Rows | MyPlaces/ViewControllers/MainViewController.swift:63 | the rows come from the filtered list while filtering and from the full list otherwise |
| MainScreen.MainViewController.PrepareForSegue | MyPlaces/ViewControllers/MainViewController.swift:103-111 | on "showDetail" with a selected row, the edit form receives the place that row shows; with another segue or no selected row it receives none |
| MainScreen.MainViewController.ReloadData | MyPlaces/ViewControllers/MainViewController.swift:154 | the table shows exactly the current rows |
| MainScreen.MainViewController.UpdateSearchResults | MyPlaces/ViewControllers/MainViewController.swift:160-163 | takes the search state, then filters by its force-unwrapped text over the unchanged list; the table is in step, and the sort segment, direction and icon are unchanged |
| MainScreen.MainViewController.FilterContentForSearchText | MyPlaces/ViewControllers/MainViewController.swift:165-170 | the filtered list is a live query over the current list, holding exactly the stored places that match the text; the search state and the sort segment, direction and icon are unchanged, and the table is in step |
| MainScreen.MainViewController.SortSelection | MyPlaces/ViewControllers/MainViewController.swift:124-127 | records the segment; the list is then a permutation of the table, sorted by that segment's key in the unchanged direction, and the table is in step; the filtered list, the search state and the icon are unchanged |
| MainScreen.MainViewController.ReversedSorting | MyPlaces/ViewControllers/MainViewController.swift:130-142 | flips the direction, shows the A-Z icon exactly when ascending, and re-sorts by the current segment's key; the filtered list and the search state are unchanged |
| MainScreen.MainViewController.Sorting | MyPlaces/ViewControllers/MainViewController.swift:145-155 | the list becomes the query sorted by the segment's key in the current direction; the filtered query and search state are unchanged; the table is in step |
| MainScreen.MainViewController.SwipeDeleteAsWritten | MyPlaces/ViewControllers/MainViewController.swift:86-98 | as written: deletes the row-th place of the unfiltered list from the store and the row-th table row; when the table was in step and not filtering, it stays in step; the write transaction is closed again |
| MainScreen.SwipeWhileFilteringDeletesHiddenRecord | MyPlaces/ViewControllers/MainViewController.swift:88-92 | with places "A" and "B" and the search "B", row 0 shows "B" but the swipe deletes "A", a place the table does not show |
| MainScreen.MainViewController.DeleteRow | MyPlaces/ViewControllers/MainViewController.swift:86-98 | corrected: deletes the place the swiped row shows and then that row; the place is gone, the store is one shorter, and the table stays in step; the write transaction is closed again, so deletes can follow one another |
| MainScreen.MainViewController.UnwindSegue | MyPlaces/ViewControllers/MainViewController.swift:114-121 | coming back from the edit form saves it: an edited place takes the form's fields and keeps its date while the table keeps its places; otherwise a fresh place holding the form is appended. The table is then reloaded and in step, and the queries and search state are unchanged; from any other screen nothing changes; after a save the write transaction is closed again |
| EditScreen.ChosenImage | MyPlaces/NewPlaceViewController.swift:83-87 | the stored picture is the shown one exactly when an image was chosen, and the placeholder otherwise |
| EditScreen.ImageDataFor | MyPlaces/NewPlaceViewController.swift:89 | there are image bytes exactly when there is a picture, and they decode back to it |
| EditScreen.SaveEnabledFor | MyPlaces/NewPlaceViewController.swift:164-171 | Save is enabled exactly when the name field holds a non-empty text |
| EditScreen.TruncateToInt | MyPlaces/NewPlaceViewController.swift:128 | `Int(Double)` rounds toward zero |
| EditScreen.RatingRoundTrip | MyPlaces/NewPlaceViewController.swift:96 | an integer rating stored as a Double reads back as the same integer |
| EditScreen.StoredImage | MyPlaces/NewPlaceViewController.swift:121 | a record shows a picture only when its bytes are that picture's PNG data |
| EditScreen.NewPlaceViewController.constructor | MyPlaces/NewPlaceViewController.swift:12-21 | the form starts with no image chosen, empty text fields, and the place to edit (or none) as the presenting screen set it |
| EditScreen.NewPlaceViewController.ViewDidLoad | MyPlaces/NewPlaceViewController.swift:23-34 | Save ends enabled exactly when an existing place is being edited; editing marks the image as chosen, sets the title and hides Cancel, and fills the picture, the three fields and the stars from the place when its image data decodes; otherwise the form is unchanged; the back button loses its title only for an edited place in a navigation stack; the star count, star size and buttons stay |
| EditScreen.NewPlaceViewController.SavePlace | MyPlaces/NewPlaceViewController.swift:79-112 | edit mode overwrites name, address, type, image data and rating of the edited place in one write and leaves its date and the table alone; create mode appends exactly one fresh place with those values and the current date |
| EditScreen.NewPlaceViewController.SetupEditScreen | MyPlaces/NewPlaceViewController.swift:115-131 | for an existing place, sets up the bar and marks the image chosen, then fills the image, text fields and stars only if the stored bytes decode; without a place nothing changes; the back button loses its title only for an edited place in a navigation stack; the star count, star size and buttons stay |
| EditScreen.NewPlaceViewController.SetupNavigationBar | MyPlaces/NewPlaceViewController.swift:133-142 | a titleless back button when there is a navigation bar, no Cancel, the place's name as title, and Save enabled; nothing else on the form changes |
| EditScreen.NewPlaceViewController.TextFieldChanged | MyPlaces/NewPlaceViewController.swift:164-171 | Save is enabled exactly when the name text is non-empty; nothing else on the form changes |
| EditScreen.NewPlaceViewController.EditName | MyPlaces/NewPlaceViewController.swift:164-171 | typing a name updates the field and then the Save button from it; nothing else on the form changes |
| EditScreen.NewPlaceViewController.DidPickImage | MyPlaces/NewPlaceViewController.swift:188-196 | the picked image is shown and marked as chosen; nothing else on the form changes |
| Maps.GeocodedLocation | MyPlaces/Helpers/MapManager.swift:29-42 | a geocode yields a point exactly when it has no error and its first placemark has a location, and the point is that location |
| Maps.TrackedCentre | MyPlaces/Helpers/MapManager.swift:173-180 | the map centre is reported exactly when there is a reference location strictly more than 50 m away from it |
| Maps.TrackingSettles | MyPlaces/Helpers/MapManager.swift:177 | once the reference location is the centre itself, nothing more is reported |
| Maps.Directions.constructor | MyPlaces/Helpers/MapManager.swift:128 | a new route request is not cancelled |
| Maps.Directions.Cancel | MyPlaces/Helpers/MapManager.swift:186 | a cancelled request stays cancelled |
| Maps.MapView.AddOverlay | MyPlaces/Helpers/MapManager.swift:145 | a route polyline is drawn after the others; pins and centre are unchanged |
| Maps.Polylines | MyPlaces/Helpers/MapManager.swift:144-146 | one polyline per route, in route order |
| Maps.PolylinesAppend | MyPlaces/Helpers/MapManager.swift:144-146 | drawing one more route appends its polyline |
| Maps.MapManager.constructor | MyPlaces/Helpers/MapManager.swift:15-17 | no destination, a 1000 m region, and no kept route request |
| Maps.MapManager.CreateDirectionsRequest | MyPlaces/Helpers/MapManager.swift:158-171 | no request exactly when there is no destination; otherwise a driving request with alternatives, from the given point to the place |
| Maps.MapManager.SetupPlacemark | MyPlaces/Helpers/MapManager.swift:19-50 | nothing happens without an address or without a geocoded location; otherwise a pin titled with the name and type is added and selected, and its point becomes the destination |
| Maps.PlacePin | MyPlaces/Helpers/MapManager.swift:21-44 | the pin exists exactly when the place has an address and the geocoder answers with a first placemark that has a location; it is titled with the name and type, at that location |
| Maps.MapManager.ResetMapView | MyPlaces/Helpers/MapManager.swift:182-188 | removes every route from the map, cancels every kept request and the new one, and keeps none |
| Maps.MapManager.GetDirections | MyPlaces/Helpers/MapManager.swift:111-155 | without a user position or a destination, it presents the matching alert and requests nothing; otherwise it starts tracking, reports the position, resets the map, requests directions to the place, and draws the answer's routes; the pins, the selected pin and the map centre stay |
| Maps.MapManager.DirectionsCalculated | MyPlaces/Helpers/MapManager.swift:132-154 | an error draws nothing; a missing response alerts "Directions is not available"; otherwise every route is drawn, in order |
| Maps.RouteAlerts | MyPlaces/Helpers/MapManager.swift:139-142 | the route completion alerts exactly for a missing response |
| Maps.RouteOverlays | MyPlaces/Helpers/MapManager.swift:144-146 | the route completion draws one polyline per returned route, and none after an error or a missing response |
| MapScreen.ComposeAddress | MyPlaces/ViewControllers/MapViewController.swift:165-171 | "street, number" with both, the street alone without a number, "" without a street; the street always starts the label |
| MapScreen.CommaIndex | MyPlaces/ViewControllers/MapViewController.swift:166 | finds the first comma, if there is one |
| MapScreen.SplitAddress | MyPlaces/ViewControllers/MapViewController.swift:165-171 | reads a label back as street and number; a number never comes without a street |
| MapScreen.CommaIndexAfter | MyPlaces/ViewControllers/MapViewController.swift:166 | a comma-free street does not move the first comma of what follows it |
| MapScreen.AddressRoundTrip | MyPlaces/ViewControllers/MapViewController.swift:165-168 | a label made from a non-empty, comma-free street and any number reads back as that street and number |
| MapScreen.NumberWithoutStreetIsLost | MyPlaces/ViewControllers/MapViewController.swift:169-170 | without a street, the building number does not reach the label |
| MapScreen.FirstPlacemark | MyPlaces/ViewControllers/MapViewController.swift:158 | the first placemark, or none for an empty list |
| MapScreen.AddressAfter | MyPlaces/ViewControllers/MapViewController.swift:148-172 | a geocode error or a missing list leaves the label as it was; otherwise it shows the first placemark's address, or "" for an empty list |
| MapScreen.OnlyFirstPlacemarkCounts | MyPlaces/ViewControllers/MapViewController.swift:158 | placemarks after the first never reach the label |
| MapScreen.MapViewController.constructor | MyPlaces/ViewControllers/MapViewController.swift:19-24 | a fresh map helper and map view, the place and segue identifier given, no previous location |
| MapScreen.MapViewController.SetPreviousLocation | MyPlaces/ViewControllers/MapViewController.swift:26-39 | assigning a location runs the observer: when the centre is more than 50 m away, the centre is assigned in turn and that nested assignment stops; either way the stored location no longer triggers tracking |
| MapScreen.MapViewController.ViewDidLoad | MyPlaces/ViewControllers/MapViewController.swift:47-53 | the label starts as ""; then, on "showPlace", the place's pin is added and selected and becomes the destination when it geocodes, and otherwise the map is unchanged; the overlays, map centre, alerts and tracking flag stay |
| MapScreen.MapViewController.SetupMapView | MyPlaces/ViewControllers/MapViewController.swift:75-91 | on "showPlace", Go is shown, pin, label and Done are hidden, and the place's pin is added, selected and made the destination when the place has an address that geocodes; without one, and on any other segue, the annotations and destination are unchanged and only Go is hidden; the alerts and tracking flag stay |
| MapScreen.MapViewController.DoneButtonPressed | MyPlaces/ViewControllers/MapViewController.swift:60-63 | the delegate, if any, receives the label text as it stands, and the screen is dismissed |
| MapScreen.MapViewController.GoButtonPressed | MyPlaces/ViewControllers/MapViewController.swift:65-69 | directions are requested exactly when both the user position and the destination are known; a known position is assigned to `previousLocation` with its observer, which leaves the map centre there when the position is more than 50 m from it and the position otherwise; without a position it alerts "Current location is not found", without a destination "Destination is not found", and a missing route response alerts too; tracking starts with a known position; the pins, the selected pin, the map centre and the destination stay |
| MapScreen.MapViewController.RegionDidChange | MyPlaces/ViewControllers/MapViewController.swift:135-174 | the label becomes what AddressAfter gives for the reverse geocode of the new centre |

## Left out

- Persistence, schema and file handling of Realm are left out. The store is one in-memory table
  of places. The earlier `MainViewController.swift` and `MapViewController.swift` directly under
  `MyPlaces/` are superseded copies and are not part of this model. `CustomTableViewCell.swift`
  holds outlets only and is not part of it either.
- Storage.Realm.Add: Realm promises no order for an unsorted `Results`. The model takes table
  order to be insertion order, and a delete keeps the order of the rest. The lemmas about the
  unsorted list after a delete (EvalAfterRemove, RowsAfterRemove, DeleteRowKeepsRows,
  InSyncAfterDelete) rest on that choice.
- Queries.SortPlaces: Realm leaves the order of equal keys unspecified; the model keeps them in
  table order.
- Queries.StrLe: names are compared character by character, not with Realm's string collation.
- Queries.Fold: case folding covers ASCII letters only, not the Unicode folding behind
  `CONTAINS[c]`.
- Deleted Realm objects are not invalidated. The model does not capture that reading a deleted
  place traps.
- A write transaction that fails to commit traps through `try!`. The model does not capture this.
- MainScreen.MainViewController.SwipeDeleteAsWritten: the source's handler is `private`, and its
  selector reads `trailingSwipeActionsConfigurationRowAt`, not UITableViewDelegate's
  `trailingSwipeActionsConfigurationForRowAt`. So UIKit never calls it, and the app as written
  offers no swipe-delete. It is modelled as if the table view invoked it. UIKit's row-count check
  in `deleteRows(at:)` is not modelled: the method removes the table row unconditionally. Where
  that check would fail, SwipeWhileFilteringDeletesHiddenRecord shows it.
- Cells are not modelled: their labels, image views, the Cosmos rating view and the rating text.
- Image data is not modelled as bytes. A picture is an abstract value, and PNG data is its
  encoding.
- Images, table layout and the action sheet are not modelled. Neither are the image picker's
  presentation, keyboard handling and `cancelAction`.
- MapKit and CoreLocation are not modelled:
  - the geocoder, route calculation and CoreLocation's distance arrive as parameters;
  - geocoding and directions callbacks are applied at once, not asynchronously;
  - the floating-point distance computation is left out.
- These are not modelled: `checkLocationServices`, `checkLocationAuthorization` and their
  location-permission alerts; `showUserLocation` and `centerViewInUserLocation`; region setting;
  `setVisibleMapRect`.
- Maps.MapManager.SetupPlacemark: `showAnnotations` re-frames the map, and so does
  `setVisibleMapRect` in DirectionsCalculated. Region changes are not modelled, so the modelled
  map centre never moves; the ensures that keep `centerCoordinate` reflect that, not the app.
- The `DispatchQueue` delays (1 s and 3 s) are not modelled, nor is the main-queue hop before the
  label update.
- Maps.MapManager.DirectionsCalculated: the route distance and travel time are only printed,
  with `%.1f` km formatting; that is left out.
- Alerts are recorded as a list of title and message. Their presentation is not modelled.
- These map views are not modelled: annotation views, callout images and the polyline renderer.
- MapScreen.MapViewController.GoButtonPressed: the position callback runs before the map is reset.
  The model runs it after the request. It reads only the map centre, which the request does not
  change.
- MapScreen.MapViewController.SetPreviousLocation: its termination assumes that the distance of a
  point from itself is zero.
- MapScreen.MapViewController.RegionDidChange: the delayed `showUserLocation` it schedules on
  "showPlace" is left out.

## Findings

| source | as written | input that shows it | evidently intended | confidence | as-written member | corrected member |
|---|---|---|---|---|---|---|
| MyPlaces/ViewControllers/MainViewController.swift:88-92 | the swipe action deletes `places[indexPath.row]` and that table row, even while the table shows `filteredPlaces` | store holds "A" then "B"; search "B" is active, so row 0 shows "B"; swiping row 0 deletes "A", which is not on screen; the filtered list still has one row afterwards, so `deleteRows(at:)` meets a row count it does not expect, and UIKit raises NSInternalInconsistencyException instead of removing the row. The defect is latent: the handler is `private` and its selector lacks `For`, so UIKit does not call it | delete the place the swiped row shows: `filteredPlaces[row]` while filtering | high (not executed) | MainScreen.MainViewController.SwipeDeleteAsWritten, MainScreen.SwipeWhileFilteringDeletesHiddenRecord | MainScreen.MainViewController.DeleteRow |
