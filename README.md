# Mangaluru Mitra: a Dafny model of the chat bot's core

Mangaluru Mitra is a React chat window that answers questions about the
city of Mangaluru. Each user message goes to a language model, which
classifies it. The model replies with JSON naming a category and an entity.
The bot strips markdown fences from that reply and decodes it. It then
switches on the category and builds one response from a Firestore snapshot
of four collections (`food`, `places`, `tulu`, `events`). The response is a
`card`, a `text`, a `tulu_list`, a `food_tour` or an `event_list`. The chat
session appends the user's message and then the bot's reply, and it guards
against blank input and overlapping sends.

This project models that core in Dafny:

- `strings.dfy` (module `Strings`): the JavaScript string operations the
  core relies on. These are `trim` with ECMAScript's white-space set,
  `join`, and the `${n}` rendering of an integer. It also defines the
  occurrence predicates used in contracts, and `Split`, the inverse of
  `Join` used to read a map link back.
- `fences.dfy` (module `Fences`): `replace(/```json/g, "")`,
  `replace(/```/g, "")` and `trim`, with their idempotence and
  fence-freedom.
- `records.dfy` (module `Records`): the store documents, with every field
  optional as in a schemaless store. It also holds JavaScript truthiness and
  the response shapes.
- `tour.dfy` (module `Tour`): the `CREATE_FOOD_TOUR` filter, its stops and
  the Google Maps route link.
- `bot.dfy` (module `Bot`): the handling of the classifier's HTTP reply,
  the category decoding, the exact-name lookup, the weather guard and the
  dispatch.
- `session.dfy` (module `Session`): the `ChatSession` class. It holds the
  message list, the input, the loading flag and the suggestion flag. Its
  methods are `Begin`/`Finish` (the two halves of `handleSend` around the
  awaited reply), `Send` and `Clear`.

Outside calls are parameters:
- the classifier's reply is a `ClassifierReply` value;
- `JSON.parse` is `parse: string -> Result<Intent, string>`, which returns
  either the intent or the message of the thrown error;
- the weather service is `weatherAt: (real, real) -> Option<Weather>`, and
  whether its key is configured is `hasWeatherKey`;
- number-to-text rendering is `showNumber: real -> string`;
- `Math.random()` is `roll`, with `0 <= roll < 1`.

## Behaviour worth knowing

- The categories are `GET_FOOD_INFO`, `GET_PLACE_INFO`, `GET_TULU_PHRASES`,
  `CREATE_FOOD_TOUR`, `GET_EVENTS`, `UNKNOWN_QUERY` and `CHITCHAT`.
- A lookup miss returns a fixed apology that names the entity.
- `UNKNOWN_QUERY` returns a templated text.
- An event's `id` comes from `{ id: doc.id, ...doc.data() }`. A stored `id`
  field therefore overrides the document id (`Bot.EventOf`).
- A clear while a reply is pending does not cancel that reply. The late bot
  message then lands right after the welcome message
  (`Session.ClearDuringTurn`).
- The coordinate tests treat a coordinate of exactly 0 as missing, as
  JavaScript truthiness does.

## Model

| member | source | states |
|---|---|---|
| Strings.TrimStart | src/App.js:442 | the result is a suffix of the input, everything dropped is white space, and it does not start with white space |
| Strings.TrimEnd | src/App.js:442 | the result is a prefix of the input, everything dropped is white space, and it does not end with white space |
| Strings.Trim | src/App.js:442 | the result is a slice of the input with only white space around it and none at its ends; text without edge white space is unchanged |
| Strings.BlankIsTrimmedEmpty | src/App.js:132 | `!text.trim()` holds exactly when every character of the text is white space, the test `Session.ChatSession.Begin` applies |
| Strings.Join | src/App.js:492 | every character of `parts.join(sep)` comes from a part or from the separator |
| Strings.SplitJoin | src/App.js:492 | splitting a `join` at its separator gives back the parts when no part holds the separator |
| Strings.NatToString | src/App.js:430 | the rendering of the status code is a non-empty string of decimal digits |
| Strings.DecimalOfNat | src/App.js:430 | reading the rendered digits back gives the status code |
| Fences.RemoveAll | src/App.js:442 | `replace(/p/g, "")` for a literal pattern: the result is never longer than the input; with `Fences.RemoveAllTakesLeftmost` and `Fences.RemoveAllOfFree` it is fixed on every text |
| Fences.RemoveAllTakesLeftmost | src/App.js:442 | the text before the first occurrence is kept, that occurrence is dropped and removal continues after it, so matches are leftmost and never overlap |
| Fences.StripFences | src/App.js:442 | the decoder's input contains no ```` ``` ```` and no ```` ```json ````, and has no leading or trailing white space |
| Fences.RemoveAllOfFree | src/App.js:442 | a global replace leaves text without the pattern unchanged |
| Fences.FenceRemovalLeavesNoFence | src/App.js:442 | removing every ```` ``` ```` cannot bring backticks together into a new one |
| Fences.StripIsIdempotent | src/App.js:442 | stripping a stripped text changes nothing |
| Fences.StripOfUnfenced | src/App.js:442 | on text without fences, stripping is only `trim` |
| Fences.StripRecoversFencedBody | src/App.js:442 | a reply wrapped as a ```` ```json ```` block yields its trimmed body |
| Records.OrElse | src/App.js:464 | `origin_story` is used when it is present and non-empty, and `best_time_to_visit` otherwise |
| Tour.WithCoords | src/App.js:485 | the stops are records of the food list, each with both coordinates truthy, and every such food record is among them |
| Tour.IndicesFrom | src/App.js:485 | the ascending positions of all records with both coordinates truthy |
| Tour.WithCoordsSelects | src/App.js:485 | the k-th stop is the record at the k-th coordinate-bearing position, so store order is kept and nothing is added or dropped |
| Tour.Waypoints | src/App.js:492 | one `lat,lng` waypoint per stop, in stop order |
| Tour.Stops | src/App.js:499-503 | one stop per record, copying `type`, `name` and `restaurant_name` |
| Tour.MapUrl | src/App.js:491-493 | the link starts with the Google Maps directions URL and is only that URL when there are no stops; `Tour.MapUrlLists` reads the waypoints back |
| Tour.TourReply | src/App.js:481-505 | a tour exactly when at least two food records carry coordinates, with as many stops as such records and the route link through them; otherwise the fixed apology |
| Tour.WaypointSplits | src/App.js:492 | a waypoint holds no `/` and splits at its comma into the two rendered coordinates |
| Tour.MapUrlLists | src/App.js:491-493 | the link is the base URL followed by one `lat,lng` pair per stop, in stop order, each pair being the two rendered coordinates |
| Tour.TourFollowsStore | src/App.js:481-505 | a tour's stops and link pairs follow the coordinate-bearing food records in store order |
| Bot.CategoryOf | src/App.js:445-537 | exact, case-sensitive tag matching: the tag is recovered from the category, and only tags outside the seven known ones fall to the default |
| Bot.CategoryOfTag | src/App.js:445-537 | every known category is recognised from its own tag |
| Bot.Greeting | src/App.js:526-531 | the random pick is always one of the three fixed greetings |
| Bot.ChitchatReply | src/App.js:524-536 | the `CHITCHAT`/default reply is a text holding one of the three greetings |
| Bot.GreetingReachable | src/App.js:531 | every greeting is chosen for some value of `Math.random()` |
| Bot.FetchWeather | src/App.js:373-388 | no weather without two truthy coordinates and a key; otherwise the service's answer, with a failed call giving none |
| Bot.FindByName | src/App.js:449-452 | the first document named exactly as the entity, and none exactly when no document carries that name |
| Bot.NotFoundText | src/App.js:468 | the lookup-miss apology names the entity |
| Bot.UnknownText | src/App.js:521 | the `UNKNOWN_QUERY` text names the entity |
| Bot.CardOf | src/App.js:459-466 | the card's title and content are the document's `name` and `description`; its origin note is `origin_story` when truthy, else `best_time_to_visit`; it carries weather exactly for a place with two truthy coordinates, a key and an answering service, and then the service's answer |
| Bot.LookupReply | src/App.js:446-469 | a card exactly when some document carries the name, titled with that name and built from a document of the collection; food cards carry no weather; a miss is the apology that names the entity |
| Bot.LookupTakesFirst | src/App.js:451-466 | the card is built from the first matching document |
| Bot.EventOf | src/App.js:509 | an event keeps every stored field; its id is the stored `id` field if there is one, else the document id |
| Bot.Dispatch | src/App.js:445-537 | per category: food and place lookups are `Bot.LookupReply` on their collection (a card exactly when the collection holds the name, else a text naming the entity); Tulu phrases are the whole collection in order; the tour is exactly `Tour.TourReply` on the food records; events are every document in order; `UNKNOWN_QUERY` is a text naming the entity; `CHITCHAT` and unknown tags give a greeting |
| Bot.Respond | src/App.js:445-537 | a tag outside the seven known ones gets a greeting |
| Bot.FoodCardHasNoWeather | src/App.js:446-466 | a `GET_FOOD_INFO` card exists exactly when the food collection holds the name, and never carries weather |
| Bot.FoodCardContents | src/App.js:446-466 | a `GET_FOOD_INFO` card is built from the first food record with the name: its name, description and `origin_story || best_time_to_visit`, and no weather |
| Bot.TourRespondsInStoreOrder | src/App.js:481-505 | a `CREATE_FOOD_TOUR` intent yields the fixed apology below two coordinate-bearing food records; otherwise the tour title, one stop per such record copied from it in store order, and a link listing their coordinates in the same order |
| Bot.PlaceMissIsText | src/App.js:467-469 | a `GET_PLACE_INFO` miss gives the apology text and does not fail |
| Bot.PlaceCardWeather | src/App.js:452-466 | a place card copies the first match's description and origin note, and carries the service's weather exactly when both coordinates are truthy and the key is set |
| Bot.BotResponse | src/App.js:427-445 | a refused call fails with its status and message; a reply without candidates fails; a decoding error fails with its message; only a decoded intent reaches the dispatch |
| Bot.StatusError | src/App.js:428-430 | the message is the fixed prefix, the status in decimal, `": "` and the service's message, or the fallback text when the error body is not JSON |
| Bot.StatusReadable | src/App.js:430 | the status is the decimal number between the prefix and the first colon of the message |
| Bot.FailedCallAborts | src/App.js:427-431 | a refused call always fails the turn, and the status is the decimal number between the prefix and the first colon of the turn's error message |
| Session.BotMessage | src/App.js:141-152 | a bot message holds the response, or a text that names the error |
| Session.UserMessage | src/App.js:136 | the user's message is a text holding exactly what was sent |
| Session.ChatSession.constructor | src/App.js:118-124 | the session opens with only the welcome message, an empty input, not loading, with suggestions shown |
| Session.ChatSession.Begin | src/App.js:131-139 | blank text or a send while loading changes nothing; otherwise the user's message is appended, the input is cleared, suggestions hide and loading starts |
| Session.ChatSession.Finish | src/App.js:141-155 | exactly one bot message (the reply, or the error text) is appended and loading ends |
| Session.ChatSession.Send | src/App.js:131-156 | an accepted turn appends the user's message and then one bot message and ends not loading; a rejected one changes nothing |
| Session.ChatSession.Clear | src/App.js:164-167 | the list becomes exactly the welcome message and suggestions show again, whatever came before |
| Session.ClearDuringTurn | src/App.js:137-167 | a clear during a pending reply leaves the welcome message followed by the late bot message |

## Left out

- Firebase initialisation, the seeding routine and the empty-collection check in `App` (src/App.js:23-63, 76-88) are database I/O. The model starts from a snapshot of the collections.
- Store reads that reject: `getDocs` is assumed to deliver its snapshot. The order of a snapshot is the store's iteration order, and it is given as a sequence.
- The HTTP calls to the language model and to the weather service are parameters (`ClassifierReply`, `weatherAt`). The temperature rounding (`Math.round`) is floating point, so the weather payload is passed through unchanged.
- `JSON.parse` and reading `intent.category`/`intent.entity` are represented by the `parse` parameter. It either yields a category tag and an entity string, or the message of the error thrown. A missing or non-string field is not modelled separately.
- A non-ok reply whose JSON body lacks an `error` object, and a candidate without `content.parts`, throw a `TypeError` in the source. This model does not cover those two cases.
- `Math.random()` is the parameter `roll`. JavaScript's rendering of numbers into the route link is the parameter `showNumber`. NaN coordinates are not modelled.
- Strings are sequences of Unicode scalar values, not UTF-16 code units.
- Message ids (`Date.now()`, the welcome message's id 1) and console logging are left out.
- Rendering, theme toggling, suggestion chips, copy-to-clipboard, scrolling, `handleKeyPress` and the input's `onChange` (src/App.js:66-115, 158-162, 169-370) are UI.
- React's batching of state updates is not modelled. The session's steps run in the order the handlers issue them.
