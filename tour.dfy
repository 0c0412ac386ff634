/** The `CREATE_FOOD_TOUR` reply: the food records that carry both
    coordinates become the stops, in store order, and a map route through
    them. */
module Tour {
  import opened Wrappers
  import opened Strings
  import opened Records

  const BaseUrl: string := "https://www.google.com/maps/dir/"
  const TourTitle: string := "Your Dynamic Mangaluru Food Tour!"
  const NotEnoughText: string := "I don't have enough location data to create a tour yet!"

  /** `item.lat && item.lng`. */
  predicate HasCoords(e: Entry) {
    NonZero(e.lat) && NonZero(e.lng)
  }

  /** `allFood.filter(item => item.lat && item.lng)`. */
  function WithCoords(food: seq<Entry>): (stops: seq<Entry>)
    ensures |stops| <= |food|
    ensures forall k :: 0 <= k < |stops| ==> HasCoords(stops[k])
    ensures forall e :: e in stops <==> e in food && HasCoords(e)
  {
    if food == [] then []
    else if HasCoords(food[0]) then [food[0]] + WithCoords(food[1..])
    else WithCoords(food[1..])
  }

  /** The positions, from `i` on, of the records that carry both coordinates. */
  function IndicesFrom(food: seq<Entry>, i: nat): (idx: seq<nat>)
    requires i <= |food|
    ensures forall k :: 0 <= k < |idx| ==> i <= idx[k] < |food| && HasCoords(food[idx[k]])
    ensures forall k, l :: 0 <= k < l < |idx| ==> idx[k] < idx[l]
    ensures forall j :: i <= j < |food| && HasCoords(food[j]) ==> j in idx
    decreases |food| - i
  {
    if i == |food| then []
    else if HasCoords(food[i]) then [i] + IndicesFrom(food, i + 1)
    else IndicesFrom(food, i + 1)
  }

  /** The filter keeps exactly the records with both coordinates, in the
      order the store lists them: its k-th stop is the record at the k-th
      such position. */
  lemma {:induction false} WithCoordsSelects(food: seq<Entry>, i: nat)
    requires i <= |food|
    ensures |WithCoords(food[i..])| == |IndicesFrom(food, i)|
    ensures forall k :: 0 <= k < |IndicesFrom(food, i)| ==>
      WithCoords(food[i..])[k] == food[IndicesFrom(food, i)[k]]
    decreases |food| - i
  {
    if i < |food| {
      WithCoordsSelects(food, i + 1);
      var rest, idx := WithCoords(food[i + 1..]), IndicesFrom(food, i + 1);
      var w, ix := WithCoords(food[i..]), IndicesFrom(food, i);
      WithCoordsStep(food, i);
      if HasCoords(food[i]) {
        forall k | 0 <= k < |ix| ensures w[k] == food[ix[k]] {
          if k > 0 {
            assert w[k] == rest[k - 1] && ix[k] == idx[k - 1];
          }
        }
      }
    }
  }

  /** One step of the filter and of the index list agree. */
  lemma WithCoordsStep(food: seq<Entry>, i: nat)
    requires i < |food|
    ensures HasCoords(food[i]) ==>
      && WithCoords(food[i..]) == [food[i]] + WithCoords(food[i + 1..])
      && IndicesFrom(food, i) == [i] + IndicesFrom(food, i + 1)
    ensures !HasCoords(food[i]) ==>
      && WithCoords(food[i..]) == WithCoords(food[i + 1..])
      && IndicesFrom(food, i) == IndicesFrom(food, i + 1)
  {
    assert food[i..] != [] && food[i..][0] == food[i] && food[i..][1..] == food[i + 1..];
  }

  /** `${x}` for a coordinate; `show` stands for JavaScript's number rendering. */
  function CoordText(x: Option<real>, show: real -> string): string {
    match x
    case Some(v) => show(v)
    case None => "undefined"
  }

  /** `${stop.lat},${stop.lng}`. */
  function Waypoint(e: Entry, show: real -> string): string {
    CoordText(e.lat, show) + "," + CoordText(e.lng, show)
  }

  function Waypoints(tour: seq<Entry>, show: real -> string): (ws: seq<string>)
    ensures |ws| == |tour|
    ensures forall k :: 0 <= k < |tour| ==> ws[k] == Waypoint(tour[k], show)
  {
    seq(|tour|, k requires 0 <= k < |tour| => Waypoint(tour[k], show))
  }

  /** The route link: the base URL followed by the waypoints joined with `/`. */
  function MapUrl(tour: seq<Entry>, show: real -> string): (url: string)
    ensures |BaseUrl| <= |url| && url[..|BaseUrl|] == BaseUrl
    ensures tour == [] ==> url == BaseUrl
  {
    BaseUrl + Join(Waypoints(tour, show), "/")
  }

  /** `{ meal: stop.type, name: stop.name, restaurant_name: stop.restaurant_name }`. */
  function StopOf(e: Entry): Stop {
    Stop(e.kind, e.name, e.restaurantName)
  }

  function Stops(tour: seq<Entry>): (stops: seq<Stop>)
    ensures |stops| == |tour|
    ensures forall k :: 0 <= k < |tour| ==> stops[k] == StopOf(tour[k])
  {
    seq(|tour|, k requires 0 <= k < |tour| => StopOf(tour[k]))
  }

  /** The reply to `CREATE_FOOD_TOUR`: an apology when fewer than two food
      records carry coordinates, otherwise a tour through all of them. */
  function TourReply(food: seq<Entry>, show: real -> string): (r: Response)
    ensures r.FoodTour? <==> |WithCoords(food)| >= 2
    ensures !r.FoodTour? ==> r == Text(NotEnoughText)
    ensures r.FoodTour? ==>
      && r.tourTitle == TourTitle
      && |r.stops| == |WithCoords(food)|
      && r.mapUrl == MapUrl(WithCoords(food), show)
  {
    var tour := WithCoords(food);
    if |tour| < 2 then Text(NotEnoughText)
    else FoodTour(TourTitle, Stops(tour), MapUrl(tour, show))
  }

  /** Number rendering never yields a `/` or a `,`. */
  ghost predicate PlainNumbers(show: real -> string) {
    forall x :: '/' !in show(x) && ',' !in show(x)
  }

  /** A waypoint holds no `/` and reads back as its two coordinate texts. */
  lemma WaypointSplits(e: Entry, show: real -> string)
    requires PlainNumbers(show)
    ensures '/' !in Waypoint(e, show)
    ensures Split(Waypoint(e, show), ',') == [CoordText(e.lat, show), CoordText(e.lng, show)]
  {
    var a, b := CoordText(e.lat, show), CoordText(e.lng, show);
    assert Waypoint(e, show) == a + [','] + b;
    SplitAfterPlain(a, ',', b);
    SplitPlain(b, ',');
  }

  /** Reading the route link back: after the base URL come exactly one
      `lat,lng` pair per stop, in stop order. */
  lemma MapUrlLists(tour: seq<Entry>, show: real -> string)
    requires |tour| >= 1
    requires PlainNumbers(show)
    ensures |MapUrl(tour, show)| >= |BaseUrl|
    ensures MapUrl(tour, show)[..|BaseUrl|] == BaseUrl
    ensures |Split(MapUrl(tour, show)[|BaseUrl|..], '/')| == |tour|
    ensures forall k :: 0 <= k < |tour| ==>
      Split(Split(MapUrl(tour, show)[|BaseUrl|..], '/')[k], ',')
        == [CoordText(tour[k].lat, show), CoordText(tour[k].lng, show)]
  {
    var ws := Waypoints(tour, show);
    forall k | 0 <= k < |tour|
      ensures '/' !in ws[k]
      ensures Split(ws[k], ',') == [CoordText(tour[k].lat, show), CoordText(tour[k].lng, show)]
    {
      WaypointSplits(tour[k], show);
    }
    SplitJoin(ws, '/');
    assert MapUrl(tour, show)[|BaseUrl|..] == Join(ws, "/");
  }

  /** A tour lists every coordinate-bearing food record once, in store
      order, and its link visits them in the same order. */
  lemma TourFollowsStore(food: seq<Entry>, show: real -> string)
    requires PlainNumbers(show)
    ensures var r := TourReply(food, show);
      var idx := IndicesFrom(food, 0);
      r.FoodTour? ==>
        && |r.stops| == |idx|
        && (forall k :: 0 <= k < |idx| ==> r.stops[k] == StopOf(food[idx[k]]))
        && |Split(r.mapUrl[|BaseUrl|..], '/')| == |idx|
        && (forall k :: 0 <= k < |idx| ==>
              Split(Split(r.mapUrl[|BaseUrl|..], '/')[k], ',')
                == [CoordText(food[idx[k]].lat, show), CoordText(food[idx[k]].lng, show)])
  {
    assert food[0..] == food;
    WithCoordsSelects(food, 0);
    var tour := WithCoords(food);
    if |tour| >= 2 {
      MapUrlLists(tour, show);
    }
  }
}
