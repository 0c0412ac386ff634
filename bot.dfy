/** The bot's brain: what happens to the classifier's reply, and the
    dispatch from the classified intent and a snapshot of the store to
    exactly one response. The classifier call, the JSON decoder, the weather
    service, number rendering and the random choice are parameters. */
module Bot {
  import opened Wrappers
  import opened Strings
  import opened Records
  import Fences
  import Tour

  /** The categories the dispatch recognises; every other tag falls to the
      default branch. */
  datatype Category =
    | GetFoodInfo | GetPlaceInfo | GetTuluPhrases | CreateFoodTour | GetEvents
    | UnknownQuery | Chitchat
    | Unrecognised(tag: string)

  const KnownTags: set<string> := {
    "GET_FOOD_INFO", "GET_PLACE_INFO", "GET_TULU_PHRASES", "CREATE_FOOD_TOUR",
    "GET_EVENTS", "UNKNOWN_QUERY", "CHITCHAT" }

  /** The tag the classifier writes for a category. */
  function TagOf(c: Category): string {
    match c
    case GetFoodInfo => "GET_FOOD_INFO"
    case GetPlaceInfo => "GET_PLACE_INFO"
    case GetTuluPhrases => "GET_TULU_PHRASES"
    case CreateFoodTour => "CREATE_FOOD_TOUR"
    case GetEvents => "GET_EVENTS"
    case UnknownQuery => "UNKNOWN_QUERY"
    case Chitchat => "CHITCHAT"
    case Unrecognised(t) => t
  }

  /** The `switch (intent.category)`: exact, case-sensitive comparison. */
  function CategoryOf(tag: string): (c: Category)
    ensures TagOf(c) == tag
    ensures c.Unrecognised? <==> tag !in KnownTags
  {
    if tag == "GET_FOOD_INFO" then GetFoodInfo
    else if tag == "GET_PLACE_INFO" then GetPlaceInfo
    else if tag == "GET_TULU_PHRASES" then GetTuluPhrases
    else if tag == "CREATE_FOOD_TOUR" then CreateFoodTour
    else if tag == "GET_EVENTS" then GetEvents
    else if tag == "UNKNOWN_QUERY" then UnknownQuery
    else if tag == "CHITCHAT" then Chitchat
    else Unrecognised(tag)
  }

  /** Every category is recognised from its own tag. */
  lemma CategoryOfTag(c: Category)
    requires c.Unrecognised? ==> c.tag !in KnownTags
    ensures CategoryOf(TagOf(c)) == c
  {
  }

  /** What the decoder makes of the classifier's JSON. */
  datatype Intent = Intent(category: string, entity: string)

  /** The services and the environment the dispatch consults.
      `weatherAt` is the weather service's answer for a pair of coordinates
      (`None` when the call fails), `hasWeatherKey` whether its key is
      configured, `showNumber` JavaScript's rendering of a number, and
      `roll` the value `Math.random()` returned. */
  datatype Env = Env(
    weatherAt: (real, real) -> Option<Weather>,
    hasWeatherKey: bool,
    showNumber: real -> string,
    roll: real)

  predicate ValidRoll(env: Env) {
    0.0 <= env.roll < 1.0
  }

  const Greetings: seq<string> := [
    "I'm doing great, thank you! Ready to explore Mangaluru?",
    "Namaskara! I'm here to help you discover the best of Mangaluru. What's on your mind?",
    "I'm a bot, so I'm always doing well! What can I tell you about the beautiful city of Mangaluru?"
  ]

  /** One of the three fixed greetings. */
  predicate IsGreeting(s: string) {
    s in Greetings
  }

  /** `responses[Math.floor(Math.random() * responses.length)]`. */
  function Greeting(roll: real): (g: string)
    requires 0.0 <= roll < 1.0
    ensures g in Greetings
  {
    var k := (roll * (|Greetings| as real)).Floor;
    assert 0 <= k < |Greetings|;
    Greetings[k]
  }

  /** The `CHITCHAT` and default branch: one of the fixed greetings. */
  function ChitchatReply(roll: real): (r: Response)
    requires 0.0 <= roll < 1.0
    ensures r.Text? && IsGreeting(r.content)
  {
    Text(Greeting(roll))
  }

  /** Each greeting is the one chosen for some random value. */
  lemma GreetingReachable(k: nat)
    requires k < |Greetings|
    ensures Greeting(k as real / 3.0) == Greetings[k]
  {
    assert (k as real / 3.0) * (|Greetings| as real) == k as real;
  }

  /** `fetchWeather(lat, lon)`: no request without two truthy coordinates
      and a key; otherwise the service's answer. */
  function FetchWeather(lat: Option<real>, lng: Option<real>, env: Env): (w: Option<Weather>)
    ensures !(NonZero(lat) && NonZero(lng) && env.hasWeatherKey) ==> w == None
    ensures NonZero(lat) && NonZero(lng) && env.hasWeatherKey ==>
      w == env.weatherAt(lat.value, lng.value)
  {
    if !NonZero(lat) || !NonZero(lng) || !env.hasWeatherKey then None
    else env.weatherAt(lat.value, lng.value)
  }

  /** Some document of the collection is named exactly `name`. */
  ghost predicate HasNamed(docs: seq<Entry>, name: string) {
    exists i :: 0 <= i < |docs| && docs[i].name == Some(name)
  }

  /** `where("name", "==", name)` followed by `docs[0]`: the position of the
      first document named exactly `name`. */
  function FindByName(docs: seq<Entry>, name: string): (r: Option<nat>)
    ensures r.None? <==> !HasNamed(docs, name)
    ensures r.Some? ==> r.value < |docs| && docs[r.value].name == Some(name)
    ensures r.Some? ==> forall j :: 0 <= j < r.value ==> docs[j].name != Some(name)
  {
    if docs == [] then None
    else if docs[0].name == Some(name) then Some(0)
    else match FindByName(docs[1..], name)
      case None => None
      case Some(k) => assert docs[k + 1] == docs[1..][k]; Some(k + 1)
  }

  const NotFoundBefore: string := "I'm sorry, I don't have specific information about \""
  const NotFoundAfter: string := "\" in my database right now. I'm always learning though!"
  const UnknownBefore: string := "That's a great question about "
  const UnknownAfter: string :=
    "! I don't have specific details in my database about that yet, but I'm always learning. You could try asking me about Panambur Beach or Ideal Ice Cream!"

  /** The apology for a lookup miss. */
  function NotFoundText(entity: string): (t: string)
    ensures Mentions(t, entity)
  {
    MentionsInside(NotFoundBefore, entity, NotFoundAfter);
    NotFoundBefore + entity + NotFoundAfter
  }

  /** The templated reply to `UNKNOWN_QUERY`. */
  function UnknownText(entity: string): (t: string)
    ensures Mentions(t, entity)
  {
    MentionsInside(UnknownBefore, entity, UnknownAfter);
    UnknownBefore + entity + UnknownAfter
  }

  /** The card built from a matching document: weather only for a place
      whose coordinates are both truthy. */
  function CardOf(e: Entry, isPlace: bool, env: Env): (r: Response)
    ensures r.Card? && r.name == e.name && r.description == e.description
    ensures Present(e.originStory) ==> r.originStory == e.originStory
    ensures !Present(e.originStory) ==> r.originStory == e.bestTimeToVisit
    ensures r.weather.Some? <==>
      isPlace && NonZero(e.lat) && NonZero(e.lng) && env.hasWeatherKey
        && env.weatherAt(e.lat.value, e.lng.value).Some?
    ensures r.weather.Some? ==> r.weather == env.weatherAt(e.lat.value, e.lng.value)
  {
    var weather := if isPlace && NonZero(e.lat) && NonZero(e.lng) then FetchWeather(e.lat, e.lng, env) else None;
    Card(e.name, e.description, OrElse(e.originStory, e.bestTimeToVisit), weather)
  }

  /** The `GET_FOOD_INFO` / `GET_PLACE_INFO` branch over one collection. */
  function LookupReply(docs: seq<Entry>, entity: string, isPlace: bool, env: Env): (r: Response)
    ensures r.Card? <==> HasNamed(docs, entity)
    ensures r.Card? ==> exists i :: 0 <= i < |docs| && r == CardOf(docs[i], isPlace, env)
    ensures r.Card? ==> r.name == Some(entity)
    ensures r.Card? && !isPlace ==> r.weather == None
    ensures r.Card? && r.weather.Some? ==> env.hasWeatherKey
    ensures !r.Card? ==> r == Text(NotFoundText(entity)) && Mentions(r.content, entity)
  {
    match FindByName(docs, entity)
    case Some(i) => CardOf(docs[i], isPlace, env)
    case None => Text(NotFoundText(entity))
  }

  /** The card comes from the first document carrying the name. */
  lemma LookupTakesFirst(docs: seq<Entry>, entity: string, isPlace: bool, env: Env, i: nat)
    requires i < |docs| && docs[i].name == Some(entity)
    requires forall j :: 0 <= j < i ==> docs[j].name != Some(entity)
    ensures LookupReply(docs, entity, isPlace, env) == CardOf(docs[i], isPlace, env)
    ensures LookupReply(docs, entity, isPlace, env).description == docs[i].description
  {
    var r := FindByName(docs, entity);
    assert r.Some?;
    assert r.value == i;
  }

  /** `{ id: doc.id, ...doc.data() }`: a stored `id` field overrides the
      document id. */
  function EventOf(d: EventDoc): (ev: Event)
    ensures d.data.id.None? ==> ev.id == d.docId
    ensures d.data.id.Some? ==> ev.id == d.data.id.value
    ensures ev.name == d.data.name && ev.description == d.data.description
    ensures ev.location == d.data.location && ev.date == d.data.date
  {
    var id := match d.data.id case Some(v) => v case None => d.docId;
    Event(id, d.data.name, d.data.description, d.data.location, d.data.date)
  }

  const TuluTitle: string := "Here are a few useful Tulu phrases:"
  const EventsTitle: string := "Upcoming Events in Mangaluru"

  /** The collection a lookup category reads. */
  function Collection(c: Category, store: Store): seq<Entry> {
    if c == GetFoodInfo then store.food else store.places
  }

  /** The `switch (intent.category)` once the tag is decoded: one response
      for each category, entity and snapshot of the store. */
  function Dispatch(c: Category, entity: string, store: Store, env: Env): (r: Response)
    requires ValidRoll(env)
    ensures c == GetFoodInfo || c == GetPlaceInfo ==>
      && (r.Card? <==> HasNamed(Collection(c, store), entity))
      && (r.Card? ==> r.name == Some(entity))
      && (!r.Card? ==> r.Text? && Mentions(r.content, entity))
    ensures c == GetFoodInfo && r.Card? ==> r.weather == None
    ensures c == GetTuluPhrases ==> r.TuluList? && r.phrases == store.tulu
    ensures c == CreateFoodTour ==>
      && (r.FoodTour? <==> |Tour.WithCoords(store.food)| >= 2)
      && (r.FoodTour? ==> |r.stops| == |Tour.WithCoords(store.food)|)
      && (!r.FoodTour? ==> r == Text(Tour.NotEnoughText))
    ensures c == GetEvents ==>
      && r.EventList?
      && |r.events| == |store.events|
      && (forall k :: 0 <= k < |store.events| ==> r.events[k] == EventOf(store.events[k]))
    ensures c == GetFoodInfo ==> r == LookupReply(store.food, entity, false, env)
    ensures c == GetPlaceInfo ==> r == LookupReply(store.places, entity, true, env)
    ensures c == CreateFoodTour ==> r == Tour.TourReply(store.food, env.showNumber)
    ensures c == UnknownQuery ==> r.Text? && Mentions(r.content, entity)
    ensures c.Chitchat? || c.Unrecognised? ==> r.Text? && IsGreeting(r.content)
  {
    match c
    case GetFoodInfo => LookupReply(store.food, entity, false, env)
    case GetPlaceInfo => LookupReply(store.places, entity, true, env)
    case GetTuluPhrases => TuluList(TuluTitle, store.tulu)
    case CreateFoodTour => Tour.TourReply(store.food, env.showNumber)
    case GetEvents =>
      EventList(EventsTitle, seq(|store.events|, k requires 0 <= k < |store.events| => EventOf(store.events[k])))
    case UnknownQuery => Text(UnknownText(entity))
    case Chitchat => ChitchatReply(env.roll)
    case Unrecognised(_) => ChitchatReply(env.roll)
  }

  /** The dispatch for a decoded intent; a tag outside the seven known ones
      gets a greeting. */
  function Respond(intent: Intent, store: Store, env: Env): (r: Response)
    requires ValidRoll(env)
    ensures intent.category !in KnownTags ==> r.Text? && IsGreeting(r.content)
  {
    Dispatch(CategoryOf(intent.category), intent.entity, store, env)
  }

  /** Food cards never carry weather, whatever the store and services hold. */
  lemma FoodCardHasNoWeather(intent: Intent, store: Store, env: Env)
    requires ValidRoll(env)
    requires intent.category == "GET_FOOD_INFO"
    ensures Respond(intent, store, env).Card? <==> HasNamed(store.food, intent.entity)
    ensures Respond(intent, store, env).Card? ==> Respond(intent, store, env).weather == None
  {
    assert CategoryOf(intent.category) == GetFoodInfo;
  }

  /** A place lookup never fails: a missing name yields the apology that names it. */
  lemma PlaceMissIsText(intent: Intent, store: Store, env: Env)
    requires ValidRoll(env)
    requires intent.category == "GET_PLACE_INFO"
    requires !HasNamed(store.places, intent.entity)
    ensures Respond(intent, store, env) == Text(NotFoundText(intent.entity))
  {
    assert CategoryOf(intent.category) == GetPlaceInfo;
  }

  /** A place card carries weather only when its record has both
      coordinates and the weather key is set, and then the service's answer. */
  lemma PlaceCardWeather(intent: Intent, store: Store, env: Env, i: nat)
    requires ValidRoll(env)
    requires intent.category == "GET_PLACE_INFO"
    requires i < |store.places| && store.places[i].name == Some(intent.entity)
    requires forall j :: 0 <= j < i ==> store.places[j].name != Some(intent.entity)
    ensures var r := Respond(intent, store, env);
      var e := store.places[i];
      r.Card? && r.description == e.description
      && r.originStory == OrElse(e.originStory, e.bestTimeToVisit)
      && r.weather == (if NonZero(e.lat) && NonZero(e.lng) && env.hasWeatherKey
                       then env.weatherAt(e.lat.value, e.lng.value) else None)
  {
    assert CategoryOf(intent.category) == GetPlaceInfo;
    LookupTakesFirst(store.places, intent.entity, true, env, i);
  }

  /** A food card is built from the first food record with the name: its
      description and origin note, and never weather. */
  lemma FoodCardContents(intent: Intent, store: Store, env: Env, i: nat)
    requires ValidRoll(env)
    requires intent.category == "GET_FOOD_INFO"
    requires i < |store.food| && store.food[i].name == Some(intent.entity)
    requires forall j :: 0 <= j < i ==> store.food[j].name != Some(intent.entity)
    ensures var r := Respond(intent, store, env);
      var e := store.food[i];
      r.Card? && r.name == e.name && r.description == e.description
      && r.originStory == OrElse(e.originStory, e.bestTimeToVisit)
      && r.weather == None
  {
    assert CategoryOf(intent.category) == GetFoodInfo;
    LookupTakesFirst(store.food, intent.entity, false, env, i);
  }

  /** A `CREATE_FOOD_TOUR` intent yields the tour through the
      coordinate-bearing food records in store order: its title, one stop
      per such record copied from it, and a link listing their coordinates
      in the same order. */
  lemma TourRespondsInStoreOrder(intent: Intent, store: Store, env: Env)
    requires ValidRoll(env)
    requires intent.category == "CREATE_FOOD_TOUR"
    requires Tour.PlainNumbers(env.showNumber)
    ensures var r := Respond(intent, store, env);
      var idx := Tour.IndicesFrom(store.food, 0);
      && (r.FoodTour? <==> |idx| >= 2)
      && (!r.FoodTour? ==> r == Text(Tour.NotEnoughText))
      && (r.FoodTour? ==>
        && r.tourTitle == Tour.TourTitle
        && |r.stops| == |idx|
        && (forall k :: 0 <= k < |idx| ==> r.stops[k] == Tour.StopOf(store.food[idx[k]]))
        && |Split(r.mapUrl[|Tour.BaseUrl|..], '/')| == |idx|
        && (forall k :: 0 <= k < |idx| ==>
              Split(Split(r.mapUrl[|Tour.BaseUrl|..], '/')[k], ',')
                == [Tour.CoordText(store.food[idx[k]].lat, env.showNumber),
                    Tour.CoordText(store.food[idx[k]].lng, env.showNumber)]))
  {
    assert CategoryOf(intent.category) == CreateFoodTour;
    assert store.food[0..] == store.food;
    Tour.WithCoordsSelects(store.food, 0);
    Tour.TourFollowsStore(store.food, env.showNumber);
  }

  /** The reply of the language-model call as the bot sees it. */
  datatype ClassifierReply =
      /** `!response.ok`: the status and the `error.message` of the body,
          `None` when the body is not JSON. */
    | HttpError(status: nat, errorMessage: Option<string>)
      /** An ok reply: the text of the first part of each candidate,
          `None` when the body has no `candidates` field. */
    | HttpOk(candidates: Option<seq<string>>)

  const StatusPrefix: string := "API call failed with status "
  const NoErrorBody: string := "Could not parse error response."

  /** The message thrown for a refused call: the prefix, the status in
      decimal, a colon and the service's message (or the fallback when the
      error body is not JSON). */
  function StatusError(status: nat, errorMessage: Option<string>): (r: string)
    ensures var n := |StatusPrefix| + |NatToString(status)|;
      && n + 2 <= |r|
      && r[..|StatusPrefix|] == StatusPrefix
      && r[|StatusPrefix|..n] == NatToString(status)
      && r[n..n + 2] == ": "
      && (errorMessage.Some? ==> r[n + 2..] == errorMessage.value)
      && (errorMessage.None? ==> r[n + 2..] == NoErrorBody)
  {
    var message := match errorMessage case Some(m) => m case None => NoErrorBody;
    var r := StatusPrefix + NatToString(status) + ": " + message;
    assert r == StatusPrefix + (NatToString(status) + (": " + message));
    r
  }

  const EmptyReplyError: string := "Received an invalid or empty response from the AI service."

  /** The classifier produced text the bot can decode. */
  predicate Usable(reply: ClassifierReply) {
    reply.HttpOk? && reply.candidates.Some? && |reply.candidates.value| > 0
  }

  /** `getBotResponse` once the classifier has answered: the error thrown,
      or the dispatched response. `parse` is `JSON.parse` applied to the
      stripped text, yielding an intent or the message of its error. */
  function BotResponse(reply: ClassifierReply, parse: string -> Result<Intent, string>, store: Store, env: Env)
    : (r: Result<Response, string>)
    requires ValidRoll(env)
    ensures reply.HttpError? ==> r == Failure(StatusError(reply.status, reply.errorMessage))
    ensures reply.HttpOk? && !Usable(reply) ==> r == Failure(EmptyReplyError)
    ensures Usable(reply) ==>
      var decoded := parse(Fences.StripFences(reply.candidates.value[0]));
      (decoded.Failure? ==> r == Failure(decoded.error))
      && (decoded.Success? ==> r == Success(Respond(decoded.value, store, env)))
  {
    match reply
    case HttpError(status, message) => Failure(StatusError(status, message))
    case HttpOk(candidates) =>
      if candidates.None? || |candidates.value| == 0 then Failure(EmptyReplyError)
      else
        match parse(Fences.StripFences(candidates.value[0]))
        case Failure(e) => Failure(e)
        case Success(intent) => Success(Respond(intent, store, env))
  }

  /** `e` starts with the prefix, then decimal digits up to the first colon,
      and those digits denote `status`. */
  predicate ReadsStatus(e: string, status: nat) {
    exists n :: |StatusPrefix| <= n < |e|
      && e[..|StatusPrefix|] == StatusPrefix
      && (forall j :: |StatusPrefix| <= j < n ==> '0' <= e[j] <= '9')
      && e[n] == ':'
      && DecimalValue(e[|StatusPrefix|..n]) == status
  }

  /** The status of a refused call can be read back from its message. */
  lemma StatusReadable(status: nat, message: Option<string>)
    ensures ReadsStatus(StatusError(status, message), status)
  {
    var e := StatusError(status, message);
    var d := NatToString(status);
    var n := |StatusPrefix| + |d|;
    assert e[|StatusPrefix|..n] == d;
    forall j | |StatusPrefix| <= j < n ensures '0' <= e[j] <= '9' {
      assert e[j] == d[j - |StatusPrefix|];
    }
    assert e[n] == e[n..n + 2][0];
    DecimalOfNat(status);
  }

  /** A failed classification never reaches the dispatch: the turn fails
      with a message from which the status code can be read back. */
  lemma FailedCallAborts(status: nat, message: Option<string>, parse: string -> Result<Intent, string>, store: Store, env: Env)
    requires ValidRoll(env)
    ensures var r := BotResponse(HttpError(status, message), parse, store, env);
      r.Failure? && ReadsStatus(r.error, status)
  {
    StatusReadable(status, message);
  }
}
