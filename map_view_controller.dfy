/**
 * The map screen (MyPlaces/ViewControllers/MapViewController.swift): shows a
 * stored place, or lets the user pick an address by moving the map under a
 * fixed pin. The address label shows the street and building number of the
 * map centre; the last known user position is kept in `previousLocation`,
 * whose observer follows the map centre once it moves more than 50 m.
 */
module MapScreen {
  import opened Wrappers
  import opened Places
  import opened Maps

  /**
   * The label text for a reverse-geocoded street and building number:
   * "street, number", the street alone, or nothing without a street.
   */
  function ComposeAddress(street: Option<string>, number: Option<string>): (r: string)
    ensures street.None? ==> r == ""
    ensures street.Some? ==> street.value <= r
    ensures street.Some? && street.value != "" ==> r != ""
    ensures number.None? ==> r == if street.Some? then street.value else ""
  {
    match street
    case None => ""
    case Some(s) =>
      match number
      case Some(n) => s + ", " + n
      case None => s
  }

  /** The position of the first comma in `s`, if any. */
  function CommaIndex(s: string): (r: Option<nat>)
    ensures r.None? <==> ',' !in s
    ensures r.Some? ==> r.value < |s| && s[r.value] == ',' && ',' !in s[..r.value]
  {
    if s == [] then None
    else if s[0] == ',' then Some(0)
    else
      match CommaIndex(s[1..])
      case None => None
      case Some(k) =>
        assert s[..k + 1] == [s[0]] + s[1..][..k];
        Some(k + 1)
  }

  /**
   * Reads a label back as street and building number: the text before the
   * first ", " is the street and the rest the number; a label without ", "
   * is a street alone, and the empty label names nothing.
   */
  function SplitAddress(text: string): (r: (Option<string>, Option<string>))
    ensures r.0.None? <==> text == ""
    ensures r.1.Some? ==> r.0.Some? && r.0.value + ", " + r.1.value == text
    ensures r.1.None? && r.0.Some? ==> r.0.value == text
  {
    if text == "" then (None, None)
    else
      match CommaIndex(text)
      case None => (Some(text), None)
      case Some(k) =>
        if k + 1 < |text| && text[k + 1] == ' ' then
          assert text == text[..k] + ", " + text[k + 2..];
          (Some(text[..k]), Some(text[k + 2..]))
        else
          (Some(text), None)
  }

  /** A comma-free prefix does not move the first comma of what follows it. */
  lemma {:induction false} CommaIndexAfter(s: string, t: string)
    requires ',' !in s
    ensures CommaIndex(s + t) == if CommaIndex(t).Some? then Some(|s| + CommaIndex(t).value) else None
  {
    if s != [] {
      assert (s + t)[0] == s[0] && (s + t)[1..] == s[1..] + t;
      CommaIndexAfter(s[1..], t);
    } else {
      assert s + t == t;
    }
  }

  /**
   * The label keeps everything the geocoder reported, as long as there is a
   * street, it is non-empty and has no comma: reading it back gives the
   * street and number it was composed from.
   */
  lemma {:induction false} AddressRoundTrip(street: string, number: Option<string>)
    requires street != "" && ',' !in street
    ensures SplitAddress(ComposeAddress(Some(street), number)) == (Some(street), number)
  {
    match number
    case None =>
    case Some(n) =>
      var text := street + ", " + n;
      CommaIndexAfter(street, ", " + n);
      assert text == street + (", " + n);
      assert CommaIndex(text) == Some(|street|);
      assert text[..|street|] == street && text[|street| + 2..] == n;
  }

  /** Without a street the building number is dropped: the label cannot tell the two apart. */
  lemma NumberWithoutStreetIsLost(number: string)
    ensures ComposeAddress(None, Some(number)) == ComposeAddress(None, None) == ""
    ensures SplitAddress(ComposeAddress(None, Some(number))) == (None, None)
  {
  }

  /** The first placemark of a list, if there is one. */
  function FirstPlacemark(placemarks: seq<Placemark>): (r: Option<Placemark>)
    ensures r.None? <==> placemarks == []
    ensures r.Some? ==> r.value == placemarks[0]
  {
    if placemarks == [] then None else Some(placemarks[0])
  }

  /**
   * The address label after a reverse geocode of the map centre: an error or
   * a missing list leaves it as it was; otherwise it shows the composed
   * address of the first placemark, which is "" for an empty list.
   */
  function AddressAfter(text: Option<string>, reply: GeocodeReply): (r: Option<string>)
    ensures reply.GeocodeError? || reply.placemarks.None? ==> r == text
    ensures reply.Placemarks? && reply.placemarks.Some? ==> r.Some?
    ensures reply.Placemarks? && reply.placemarks.Some? && reply.placemarks.value == [] ==> r == Some("")
    ensures reply.Placemarks? && reply.placemarks.Some? && reply.placemarks.value != [] ==>
              var first := reply.placemarks.value[0];
              r == Some(ComposeAddress(first.thoroughfare, first.subThoroughfare))
  {
    match reply
    case GeocodeError => text
    case Placemarks(None) => text
    case Placemarks(Some(placemarks)) =>
      var first := FirstPlacemark(placemarks);
      var street := if first.Some? then first.value.thoroughfare else None;
      var number := if first.Some? then first.value.subThoroughfare else None;
      Some(ComposeAddress(street, number))
  }

  /** Placemarks after the first one never reach the label. */
  lemma OnlyFirstPlacemarkCounts(text: Option<string>, first: Placemark, rest: seq<Placemark>, other: seq<Placemark>)
    ensures AddressAfter(text, Placemarks(Some([first] + rest))) == AddressAfter(text, Placemarks(Some([first] + other)))
  {
  }

  /** The distance of a point from itself is zero, as for CoreLocation's distance. */
  ghost predicate ZeroOnSelf(distance: Metric)
  {
    forall c :: distance(c, c) == 0.0
  }

  class MapViewController {
    const mapManager: MapManager
    const mapView: MapView
    /** CoreLocation's distance between two points, in metres. */
    const distance: Metric
    /** Whether a delegate receives the chosen address. */
    const hasDelegate: bool
    var place: Place
    var incomeSegueIdentifier: string
    var previousLocation: Option<Coordinate>
    var addressLabelText: Option<string>
    var pinHidden: bool
    var labelHidden: bool
    var doneHidden: bool
    var goHidden: bool
    var dismissed: bool

    constructor (place: Place, incomeSegueIdentifier: string, center: Coordinate, distance: Metric, hasDelegate: bool)
      ensures this.place == place && this.incomeSegueIdentifier == incomeSegueIdentifier
      ensures this.distance == distance && this.hasDelegate == hasDelegate
      ensures fresh(mapManager) && fresh(mapView) && mapManager.Valid() && mapManager.placeCoordinate == None
      ensures mapView.centerCoordinate == center && mapView.overlays == [] && mapView.annotations == []
      ensures previousLocation == None && addressLabelText == None
      ensures !pinHidden && !labelHidden && !doneHidden && !goHidden && !dismissed
    {
      mapManager := new MapManager();
      mapView := new MapView(center);
      this.distance := distance;
      this.hasDelegate := hasDelegate;
      this.place := place;
      this.incomeSegueIdentifier := incomeSegueIdentifier;
      previousLocation := None;
      addressLabelText := None;
      pinHidden, labelHidden, doneHidden, goHidden := false, false, false, false;
      dismissed := false;
    }

    /**
     * Assignment to `previousLocation` with its observer: when the map centre
     * lies more than 50 m from the new value, the observer assigns the centre
     * in turn, and that nested assignment stops at once. Either way the
     * stored location is then one the tracking no longer reacts to.
     */
    method SetPreviousLocation(loc: Option<Coordinate>)
      requires ZeroOnSelf(distance)
      modifies this`previousLocation
      ensures previousLocation ==
                if TrackedCentre(mapView.centerCoordinate, loc, distance).Some? then Some(mapView.centerCoordinate) else loc
      ensures previousLocation.None? <==> loc.None?
      ensures TrackedCentre(mapView.centerCoordinate, previousLocation, distance) == None
      decreases if loc == Some(mapView.centerCoordinate) then 0 else 1
    {
      previousLocation := loc;
      var tracked := TrackedCentre(mapView.centerCoordinate, loc, distance);
      if tracked.Some? {
        assert distance(mapView.centerCoordinate, mapView.centerCoordinate) == 0.0;
        SetPreviousLocation(tracked);
      }
    }

    /** `viewDidLoad`: the label starts empty, then the map is set up. */
    method ViewDidLoad(reply: GeocodeReply)
      modifies this`addressLabelText, this`pinHidden, this`labelHidden, this`doneHidden, this`goHidden, mapManager, mapView
      ensures addressLabelText == Some("")
      ensures incomeSegueIdentifier == "showPlace" ==> pinHidden && labelHidden && doneHidden && !goHidden
      ensures incomeSegueIdentifier != "showPlace" ==>
                goHidden && pinHidden == old(pinHidden) && labelHidden == old(labelHidden) && doneHidden == old(doneHidden)
      ensures incomeSegueIdentifier == "showPlace" && PlacePin(place, reply).Some? ==>
                mapManager.placeCoordinate == Some(PlacePin(place, reply).value.coordinate)
                && mapView.annotations == old(mapView.annotations) + [PlacePin(place, reply).value]
                && mapView.selectedAnnotation == PlacePin(place, reply)
      ensures incomeSegueIdentifier != "showPlace" || PlacePin(place, reply).None? ==>
                mapManager.placeCoordinate == old(mapManager.placeCoordinate)
                && mapView.annotations == old(mapView.annotations)
                && mapView.selectedAnnotation == old(mapView.selectedAnnotation)
      ensures mapView.overlays == old(mapView.overlays) && mapView.centerCoordinate == old(mapView.centerCoordinate)
      ensures mapManager.directionsArray == old(mapManager.directionsArray)
      ensures mapManager.alerts == old(mapManager.alerts) && mapManager.updatingLocation == old(mapManager.updatingLocation)
    {
      addressLabelText := Some("");
      SetupMapView(reply);
    }

    /**
     * `setupMapView`, with the geocoder's answer for the place's address as
     * a parameter: Go is hidden, unless the screen shows a stored place, in
     * which case pin, label and Done are hidden and the place is pinned
     * (added and selected) where the geocoder put it. Without an address or
     * a geocoded location, the map is left as it was.
     */
    method SetupMapView(reply: GeocodeReply)
      modifies this`pinHidden, this`labelHidden, this`doneHidden, this`goHidden, mapManager, mapView
      ensures incomeSegueIdentifier == "showPlace" ==> pinHidden && labelHidden && doneHidden && !goHidden
      ensures incomeSegueIdentifier != "showPlace" ==>
                goHidden && pinHidden == old(pinHidden) && labelHidden == old(labelHidden) && doneHidden == old(doneHidden)
      ensures incomeSegueIdentifier == "showPlace" && PlacePin(place, reply).Some? ==>
                mapManager.placeCoordinate == Some(PlacePin(place, reply).value.coordinate)
                && mapView.annotations == old(mapView.annotations) + [PlacePin(place, reply).value]
                && mapView.selectedAnnotation == PlacePin(place, reply)
      ensures incomeSegueIdentifier != "showPlace" || PlacePin(place, reply).None? ==>
                mapManager.placeCoordinate == old(mapManager.placeCoordinate)
                && mapView.annotations == old(mapView.annotations)
                && mapView.selectedAnnotation == old(mapView.selectedAnnotation)
      ensures mapView.overlays == old(mapView.overlays) && mapView.centerCoordinate == old(mapView.centerCoordinate)
      ensures mapManager.directionsArray == old(mapManager.directionsArray)
      ensures mapManager.alerts == old(mapManager.alerts) && mapManager.updatingLocation == old(mapManager.updatingLocation)
    {
      goHidden := true;
      if incomeSegueIdentifier == "showPlace" {
        mapManager.SetupPlacemark(place, mapView, reply);
        pinHidden := true;
        labelHidden := true;
        doneHidden := true;
        goHidden := false;
      }
    }

    /**
     * `doneButtonPressed`: the delegate, if there is one, receives the label
     * text as it stands, and the screen is dismissed.
     */
    method DoneButtonPressed() returns (delivered: Option<Option<string>>)
      modifies this`dismissed
      ensures hasDelegate ==> delivered == Some(addressLabelText)
      ensures !hasDelegate ==> delivered == None
      ensures dismissed
    {
      delivered := if hasDelegate then Some(addressLabelText) else None;
      dismissed := true;
    }

    /**
     * `goButtonPressed`, with the user's position and the route service's
     * answer as parameters: directions are asked for, and the user's
     * position, when known, is assigned to `previousLocation`.
     */
    method GoButtonPressed(userLocation: Option<Coordinate>, reply: DirectionsReply)
      returns (requested: Option<DirectionsRequest>)
      requires mapManager.Valid() && ZeroOnSelf(distance)
      modifies this`previousLocation, mapManager, mapView
      ensures mapManager.Valid()
      ensures requested.None? <==> userLocation.None? || mapManager.placeCoordinate.None?
      ensures requested.Some? ==> requested == mapManager.CreateDirectionsRequest(userLocation.value)
      ensures requested.Some? ==> mapView.overlays == RouteOverlays(reply)
      ensures requested.Some? ==> mapManager.alerts == old(mapManager.alerts) + RouteAlerts(reply)
      ensures userLocation.None? ==>
                mapManager.alerts == old(mapManager.alerts) + [Alert("Error", "Current location is not found")]
                && mapView.overlays == old(mapView.overlays)
                && mapManager.updatingLocation == old(mapManager.updatingLocation)
      ensures userLocation.Some? ==> mapManager.updatingLocation
      ensures userLocation.Some? && mapManager.placeCoordinate.None? ==>
                mapManager.alerts == old(mapManager.alerts) + [Alert("Error", "Destination is not found")]
                && mapView.overlays == old(mapView.overlays)
      ensures mapManager.placeCoordinate == old(mapManager.placeCoordinate)
      ensures mapView.annotations == old(mapView.annotations) && mapView.selectedAnnotation == old(mapView.selectedAnnotation)
      ensures mapView.centerCoordinate == old(mapView.centerCoordinate)
      ensures userLocation.None? ==> previousLocation == old(previousLocation)
      ensures userLocation.Some? ==>
                previousLocation == (if TrackedCentre(mapView.centerCoordinate, userLocation, distance).Some?
                                     then Some(mapView.centerCoordinate) else userLocation)
                && TrackedCentre(mapView.centerCoordinate, previousLocation, distance) == None
    {
      var previous;
      previous, requested := mapManager.GetDirections(mapView, userLocation, reply);
      if previous.Some? {
        SetPreviousLocation(previous);
      }
    }

    /**
     * `regionDidChangeAnimated`, with the reverse geocode of the new centre
     * as a parameter: the label follows `AddressAfter`.
     */
    method RegionDidChange(reply: GeocodeReply)
      modifies this`addressLabelText
      ensures addressLabelText == AddressAfter(old(addressLabelText), reply)
    {
      if reply.GeocodeError? || reply.placemarks.None? {
        return;
      }
      var placemarks := reply.placemarks.value;
      var first := if placemarks != [] then Some(placemarks[0]) else None;
      var street := if first.Some? then first.value.thoroughfare else None;
      var number := if first.Some? then first.value.subThoroughfare else None;
      if street.Some? && number.Some? {
        addressLabelText := Some(street.value + ", " + number.value);
      } else if street.Some? {
        addressLabelText := Some(street.value);
      } else {
        addressLabelText := Some("");
      }
    }
  }
}
