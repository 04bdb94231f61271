/**
 * The map helper (MyPlaces/Helpers/MapManager.swift): puts a stored place on
 * the map from its address, asks for driving directions from the user to
 * that place, and decides when the map centre has moved far enough from the
 * last tracked position. MapKit's geocoder, route service and location
 * manager are outside the model: their answers are parameters.
 */
module Maps {
  import opened Wrappers
  import opened Places

  /** A point on the map, in degrees. */
  datatype Coordinate = Coordinate(latitude: real, longitude: real)

  datatype TransportType = Automobile | Walking | Transit

  /** `MKDirections.Request`: where from, where to, how, and whether alternatives are wanted. */
  datatype DirectionsRequest = DirectionsRequest(
    source: Coordinate, destination: Coordinate,
    transportType: TransportType, requestsAlternateRoutes: bool)

  /** A route; the map draws its polyline, given as its points. */
  datatype Route = Route(polyline: seq<Coordinate>, distance: real, expectedTravelTime: real)

  /** `MKPointAnnotation`: a titled pin. */
  datatype Annotation = Annotation(title: string, subtitle: Option<string>, coordinate: Coordinate)

  /** A geocoder result: the placemark's location, street and building number, each possibly missing. */
  datatype Placemark = Placemark(location: Option<Coordinate>, thoroughfare: Option<string>, subThoroughfare: Option<string>)

  /** What a geocoder completion receives: an error, or a possibly nil list of placemarks. */
  datatype GeocodeReply = GeocodeError | Placemarks(placemarks: Option<seq<Placemark>>)

  /** What `calculate` hands its completion: an error, or a possibly nil response with its routes. */
  datatype DirectionsReply = DirectionsError | DirectionsResponse(routes: Option<seq<Route>>)

  /** An alert the helper presents. */
  datatype Alert = Alert(title: string, message: string)

  /** `placemarks.first?.location` for a reply without error: the point the geocode found, if any. */
  function GeocodedLocation(reply: GeocodeReply): (r: Option<Coordinate>)
    ensures r.Some? <==> reply.Placemarks? && reply.placemarks.Some? && |reply.placemarks.value| > 0
                         && reply.placemarks.value[0].location.Some?
    ensures r.Some? ==> r == reply.placemarks.value[0].location
  {
    if reply.Placemarks? && reply.placemarks.Some? && |reply.placemarks.value| > 0 then
      reply.placemarks.value[0].location
    else
      None
  }

  /**
   * The pin `setupPlacemark` puts on the map: titled with the place's name
   * and type, at the geocoded location; none without an address or a
   * geocoded location.
   */
  function PlacePin(place: Place, reply: GeocodeReply): (r: Option<Annotation>)
    reads place
    ensures r.Some? <==> place.location.Some? && GeocodedLocation(reply).Some?
    ensures r.Some? ==> r.value.title == place.name && r.value.subtitle == place.placeType
                        && GeocodedLocation(reply) == Some(r.value.coordinate)
  {
    if place.location.Some? && GeocodedLocation(reply).Some? then
      Some(Annotation(place.name, place.placeType, GeocodedLocation(reply).value))
    else
      None
  }

  /** The map's minimal distance between two points, in metres; CoreLocation computes it. */
  type Metric = (Coordinate, Coordinate) -> real

  /**
   * `startTrackingUserLocation`: the map centre is reported back exactly when
   * there is a reference location and the centre lies more than 50 m from it.
   */
  function TrackedCentre(center: Coordinate, location: Option<Coordinate>, distance: Metric): (r: Option<Coordinate>)
    ensures r.Some? <==> location.Some? && distance(center, location.value) > 50.0
    ensures r.Some? ==> r.value == center
  {
    match location
    case None => None
    case Some(loc) => if distance(center, loc) > 50.0 then Some(center) else None
  }

  /**
   * Once the reference location is the centre itself, and the distance from a
   * point to itself is zero, nothing more is reported.
   */
  lemma TrackingSettles(center: Coordinate, distance: Metric)
    requires distance(center, center) == 0.0
    ensures TrackedCentre(center, TrackedCentre(center, Some(center), distance), distance) == None
    ensures TrackedCentre(center, Some(center), distance) == None
  {
  }

  /** `MKDirections`: a route request that can be cancelled. */
  class Directions {
    const request: DirectionsRequest
    var cancelled: bool

    constructor (request: DirectionsRequest)
      ensures this.request == request && !cancelled
    {
      this.request := request;
      cancelled := false;
    }

    method Cancel()
      modifies this
      ensures cancelled
    {
      cancelled := true;
    }
  }

  /** The parts of `MKMapView` the helper changes. */
  class MapView {
    /** Route polylines drawn on the map. */
    var overlays: seq<seq<Coordinate>>
    var annotations: seq<Annotation>
    var selectedAnnotation: Option<Annotation>
    var centerCoordinate: Coordinate

    constructor (center: Coordinate)
      ensures overlays == [] && annotations == [] && selectedAnnotation == None && centerCoordinate == center
    {
      overlays := [];
      annotations := [];
      selectedAnnotation := None;
      centerCoordinate := center;
    }

    /** `addOverlay`. */
    method AddOverlay(polyline: seq<Coordinate>)
      modifies this
      ensures overlays == old(overlays) + [polyline]
      ensures annotations == old(annotations) && selectedAnnotation == old(selectedAnnotation)
      ensures centerCoordinate == old(centerCoordinate)
    {
      overlays := overlays + [polyline];
    }
  }

  /** The polylines of a list of routes, in order. */
  function Polylines(routes: seq<Route>): (r: seq<seq<Coordinate>>)
    ensures |r| == |routes|
    ensures forall i :: 0 <= i < |routes| ==> r[i] == routes[i].polyline
  {
    seq(|routes|, i requires 0 <= i < |routes| => routes[i].polyline)
  }

  lemma PolylinesAppend(routes: seq<Route>, i: nat)
    requires i < |routes|
    ensures Polylines(routes[..i + 1]) == Polylines(routes[..i]) + [routes[i].polyline]
  {
  }

  class MapManager {
    /** Where the place was found on the map; the destination of directions. */
    var placeCoordinate: Option<Coordinate>
    /** Radius of the region shown around the user. */
    const regionInMeters: real
    /** Route requests not yet cancelled. */
    var directionsArray: seq<Directions>
    /** Alerts presented so far, oldest first. */
    var alerts: seq<Alert>
    /** Whether the location manager delivers continuous updates. */
    var updatingLocation: bool

    /** Between operations no route request is kept. */
    ghost predicate Valid()
      reads this
    {
      directionsArray == []
    }

    constructor ()
      ensures Valid() && placeCoordinate == None && regionInMeters == 1000.0
      ensures alerts == [] && !updatingLocation
    {
      placeCoordinate := None;
      regionInMeters := 1000.0;
      directionsArray := [];
      alerts := [];
      updatingLocation := false;
    }

    /**
     * `createDirectionsRequest`: none without a destination; otherwise a
     * driving request, with alternatives, from the given point to the place.
     */
    function CreateDirectionsRequest(from: Coordinate): (r: Option<DirectionsRequest>)
      reads this
      ensures r.None? <==> placeCoordinate.None?
      ensures r.Some? ==> r.value.source == from && r.value.destination == placeCoordinate.value
      ensures r.Some? ==> r.value.transportType == Automobile && r.value.requestsAlternateRoutes
    {
      match placeCoordinate
      case None => None
      case Some(destination) => Some(DirectionsRequest(from, destination, Automobile, true))
    }

    /**
     * `setupPlacemark`, with the geocoder's answer for the place's address
     * delivered at once: nothing happens without an address; a reply whose
     * first placemark has a location pins the place there, selects the pin
     * and makes it the destination; any other reply changes nothing.
     */
    method SetupPlacemark(place: Place, mapView: MapView, reply: GeocodeReply)
      modifies this, mapView
      ensures PlacePin(place, reply).None? <==> place.location.None? || GeocodedLocation(reply).None?
      ensures PlacePin(place, reply).None? ==>
                placeCoordinate == old(placeCoordinate) && mapView.annotations == old(mapView.annotations)
                && mapView.selectedAnnotation == old(mapView.selectedAnnotation)
      ensures PlacePin(place, reply).Some? ==>
                var pin := PlacePin(place, reply).value;
                pin.title == place.name && pin.subtitle == place.placeType
                && placeCoordinate == GeocodedLocation(reply) == Some(pin.coordinate)
                && mapView.annotations == old(mapView.annotations) + [pin]
                && mapView.selectedAnnotation == Some(pin)
      ensures mapView.overlays == old(mapView.overlays) && mapView.centerCoordinate == old(mapView.centerCoordinate)
      ensures directionsArray == old(directionsArray) && alerts == old(alerts)
      ensures updatingLocation == old(updatingLocation)
    {
      if place.location.None? {
        return;
      }
      if reply.GeocodeError? {
        return;
      }
      if reply.placemarks.None? {
        return;
      }
      var placemark := if |reply.placemarks.value| > 0 then Some(reply.placemarks.value[0]) else None;
      if placemark.None? || placemark.value.location.None? {
        return;
      }
      var pin := Annotation(place.name, place.placeType, placemark.value.location.value);
      placeCoordinate := placemark.value.location;
      mapView.annotations := mapView.annotations + [pin];
      mapView.selectedAnnotation := Some(pin);
    }

    /**
     * `resetMapView`: removes every route from the map, then cancels every
     * kept request together with the new one, and keeps none.
     */
    method ResetMapView(directions: Directions, mapView: MapView)
      requires directions !in directionsArray
      modifies this, mapView, directions, directionsArray
      ensures Valid() && mapView.overlays == []
      ensures directions.cancelled
      ensures forall d :: d in old(directionsArray) ==> d.cancelled
      ensures mapView.annotations == old(mapView.annotations) && mapView.selectedAnnotation == old(mapView.selectedAnnotation)
      ensures mapView.centerCoordinate == old(mapView.centerCoordinate)
      ensures placeCoordinate == old(placeCoordinate) && alerts == old(alerts) && updatingLocation == old(updatingLocation)
    {
      mapView.overlays := [];
      directionsArray := directionsArray + [directions];
      var pending := directionsArray;
      for i := 0 to |pending|
        invariant directionsArray == pending
        invariant forall j :: 0 <= j < i ==> pending[j].cancelled
        invariant mapView.overlays == [] && mapView.annotations == old(mapView.annotations)
        invariant mapView.selectedAnnotation == old(mapView.selectedAnnotation)
        invariant mapView.centerCoordinate == old(mapView.centerCoordinate)
        invariant placeCoordinate == old(placeCoordinate) && alerts == old(alerts) && updatingLocation == old(updatingLocation)
      {
        pending[i].Cancel();
      }
      assert pending[|pending| - 1] == directions;
      assert forall d :: d in old(directionsArray) ==> d in pending;
      directionsArray := [];
    }

    /**
     * `getDirections`, with the user's position, and the route service's
     * answer, as parameters. Without a position, or without a destination,
     * it alerts and requests nothing. Otherwise it starts tracking, reports
     * the position back (`previous`), resets the map with the new request,
     * and draws the routes of the answer.
     */
    method GetDirections(mapView: MapView, userLocation: Option<Coordinate>, reply: DirectionsReply)
      returns (previous: Option<Coordinate>, requested: Option<DirectionsRequest>)
      requires Valid()
      modifies this, mapView
      ensures Valid() && placeCoordinate == old(placeCoordinate)
      ensures userLocation.None? ==>
                previous == None && requested == None && alerts == old(alerts) + [Alert("Error", "Current location is not found")]
                && mapView.overlays == old(mapView.overlays) && updatingLocation == old(updatingLocation)
      ensures userLocation.Some? ==> previous == userLocation && updatingLocation
      ensures userLocation.Some? && placeCoordinate.None? ==>
                requested == None && alerts == old(alerts) + [Alert("Error", "Destination is not found")]
                && mapView.overlays == old(mapView.overlays)
      ensures userLocation.Some? && placeCoordinate.Some? ==>
                requested == CreateDirectionsRequest(userLocation.value) && requested.Some?
                && alerts == old(alerts) + RouteAlerts(reply)
                && mapView.overlays == RouteOverlays(reply)
      ensures mapView.annotations == old(mapView.annotations) && mapView.selectedAnnotation == old(mapView.selectedAnnotation)
      ensures mapView.centerCoordinate == old(mapView.centerCoordinate)
    {
      if userLocation.None? {
        alerts := alerts + [Alert("Error", "Current location is not found")];
        return None, None;
      }
      var location := userLocation.value;
      updatingLocation := true;
      previous := Some(location);
      requested := CreateDirectionsRequest(location);
      if requested.None? {
        alerts := alerts + [Alert("Error", "Destination is not found")];
        return;
      }
      var directions := new Directions(requested.value);
      ResetMapView(directions, mapView);
      DirectionsCalculated(mapView, reply);
    }

    /**
     * The completion of `calculate`: an error draws nothing; a missing
     * response alerts; a response has each of its routes drawn, in order.
     */
    method DirectionsCalculated(mapView: MapView, reply: DirectionsReply)
      modifies this`alerts, mapView
      ensures alerts == old(alerts) + RouteAlerts(reply)
      ensures mapView.overlays == old(mapView.overlays) + RouteOverlays(reply)
      ensures mapView.annotations == old(mapView.annotations) && mapView.selectedAnnotation == old(mapView.selectedAnnotation)
      ensures mapView.centerCoordinate == old(mapView.centerCoordinate)
    {
      if reply.DirectionsError? {
        return;
      }
      if reply.routes.None? {
        alerts := alerts + [Alert("Error", "Directions is not available")];
        return;
      }
      var routes := reply.routes.value;
      for i := 0 to |routes|
        invariant mapView.overlays == old(mapView.overlays) + Polylines(routes[..i])
        invariant alerts == old(alerts)
        invariant mapView.annotations == old(mapView.annotations) && mapView.selectedAnnotation == old(mapView.selectedAnnotation)
        invariant mapView.centerCoordinate == old(mapView.centerCoordinate)
      {
        PolylinesAppend(routes, i);
        mapView.AddOverlay(routes[i].polyline);
      }
      assert routes[..|routes|] == routes;
    }
  }

  /** The alert the route completion presents: only for a missing response. */
  function RouteAlerts(reply: DirectionsReply): (r: seq<Alert>)
    ensures r != [] <==> reply.DirectionsResponse? && reply.routes.None?
    ensures r != [] ==> r == [Alert("Error", "Directions is not available")]
  {
    if reply.DirectionsResponse? && reply.routes.None? then [Alert("Error", "Directions is not available")] else []
  }

  /** The polylines the route completion draws: one per returned route, in order. */
  function RouteOverlays(reply: DirectionsReply): (r: seq<seq<Coordinate>>)
    ensures reply.DirectionsResponse? && reply.routes.Some? ==>
              |r| == |reply.routes.value| && forall i :: 0 <= i < |r| ==> r[i] == reply.routes.value[i].polyline
    ensures !(reply.DirectionsResponse? && reply.routes.Some?) ==> r == []
  {
    if reply.DirectionsResponse? && reply.routes.Some? then Polylines(reply.routes.value) else []
  }
}
