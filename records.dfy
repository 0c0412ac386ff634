/** The documents the bot reads from the content store and the response
    shapes it hands to the chat window. Every document field is optional,
    as in a schemaless store: a missing field is `None`. */
module Records {
  import opened Wrappers

  /** JavaScript truthiness of an optional text field: present and non-empty. */
  predicate Present(s: Option<string>) {
    s.Some? && s.value != ""
  }

  /** JavaScript truthiness of an optional number field: present and non-zero. */
  predicate NonZero(x: Option<real>) {
    x.Some? && x.value != 0.0
  }

  /** `a || b` on optional text fields. */
  function OrElse(a: Option<string>, b: Option<string>): (r: Option<string>)
    ensures Present(a) ==> r == a
    ensures !Present(a) ==> r == b
  {
    if Present(a) then a else b
  }

  /** A document of the `food` or `places` collection. `kind` is the `type`
      field of a food record (the meal slot). */
  datatype Entry = Entry(
    name: Option<string>,
    kind: Option<string>,
    description: Option<string>,
    originStory: Option<string>,
    bestTimeToVisit: Option<string>,
    restaurantName: Option<string>,
    lat: Option<real>,
    lng: Option<real>)

  /** A document of the `tulu` collection, handed on as stored. */
  datatype Phrase = Phrase(
    id: Option<string>,
    english: Option<string>,
    tulu: Option<string>,
    pronunciation: Option<string>)

  /** The stored fields of an `events` document; `id` is the stored field of
      that name, distinct from the document's own id. */
  datatype EventData = EventData(
    id: Option<string>,
    name: Option<string>,
    description: Option<string>,
    location: Option<string>,
    date: Option<string>)

  /** An `events` document: its id in the store and its fields. */
  datatype EventDoc = EventDoc(docId: string, data: EventData)

  /** A snapshot of the four collections, each in the store's iteration order. */
  datatype Store = Store(
    food: seq<Entry>,
    places: seq<Entry>,
    tulu: seq<Phrase>,
    events: seq<EventDoc>)

  /** The weather attached to a place card; its fields are passed through. */
  datatype Weather = Weather(temp: int, description: string)

  /** One stop of a food tour. */
  datatype Stop = Stop(meal: Option<string>, name: Option<string>, restaurantName: Option<string>)

  /** One item of an event list: `{ id: doc.id, ...doc.data() }`. */
  datatype Event = Event(
    id: string,
    name: Option<string>,
    description: Option<string>,
    location: Option<string>,
    date: Option<string>)

  /** The response shapes (`type` in the source): `text`, `card`,
      `tulu_list`, `food_tour` and `event_list`. A card shows `name` as its
      title and `description` as its content. */
  datatype Response =
    | Text(content: string)
    | Card(name: Option<string>, description: Option<string>, originStory: Option<string>, weather: Option<Weather>)
    | TuluList(listTitle: string, phrases: seq<Phrase>)
    | FoodTour(tourTitle: string, stops: seq<Stop>, mapUrl: string)
    | EventList(eventsTitle: string, events: seq<Event>)
}
