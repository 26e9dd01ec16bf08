# HidroFlow telemetry core, modelled in Dafny

HidroFlow is a web front end that shows the state of a plant-watering device. Its only logic
with behaviour worth stating is modelled here:

- the `useMqtt` hook (`src/hooks/useMqtt.ts`): repair of frames that lost their closing
  brace, the device liveness classifier (40000 ms window), and the hook's state as the MQTT
  transport's callbacks, the liveness interval, the scheduled reconnects and the effect's
  cleanup change it (module `MqttHook`, class `MqttHook.Hook`);
- the mock plant table `plantService` (module `PlantService`, class `PlantStore`);
- the mock user table `userService`, whose e-mail addresses are compared without regard
  to case and kept unique (module `UserService`, class `UserStore`);
- the session store `useAuthStore`, which keeps `isAuthenticated` true exactly when it holds
  a user (module `AuthStore`, class `Auth`).

The JavaScript `Array` methods the tables use (`filter`, `find`, `some`) are the generic
functions of module `Collections`; the string operations (`endsWith`, `toLowerCase`,
`replace`, number templates) are in module `Text`; `Wrappers` holds `Option`, `Result`
and `Outcome` for `null`/`undefined` and thrown errors.

How the outside world enters the model:

- time is an `int` (milliseconds) passed to each event that reads the clock or schedules a
  timer (`OnFailure`, `OnConnectionLost`, `OnMessageArrived`, `Tick`, `FireRetry`); `Date.now()` for ids is a `nat`;
- `JSON.parse` is the function `parse: string -> Option<Json>` (`None` is a throw), fixed
  for each `Hook` when it is built; `Json` is a type parameter, and the parsed value is
  stored without a field check, as the cast in `onMessageArrived` does;
- `Math.random()` becomes the client-id suffix `randomHex` and the topic suffix `n < 100`;
- each transport callback is a method of `Hook`; `OnSuccess` and `OnConnectionLost` take
  the index of the client they belong to, because they change that client (every
  `connectMqtt` builds a new client; `clientRef.current` is the last), while `OnFailure`
  and `OnMessageArrived` change only the hook's own fields and take no index;
- each `setTimeout(connectMqtt, 5000)` adds its due time to the multiset `pendingRetries`;
  `FireRetry(due, now, ...)` fires one of them at a time `now` no earlier than `due`;
  the 5000 ms interval is reduced to `Tick(now)` events.

The model follows the code as written:

- the topic is always `hidroflow/hf123/data`; the hook's `topicId` is accepted and unused;
- the boundary is `now - lastSeen > 40000`, so a device silent for exactly 40000 ms is
  still "Online" (`LivenessBoundary`);
- a timestamp of 0 is treated like no timestamp (the falsy test);
- the cleanup does not cancel scheduled reconnects and disconnects only the current client,
  and only when it is connected; a reconnect that fires afterwards builds a new client
  (`ReconnectAfterCleanup` walks through it); every `connectMqtt` builds a new client,
  whatever the state;
- no field of a parsed frame is checked; the repair appends a brace only when the frame
  does not already end with one, so a truncated frame whose last value is an object stays
  truncated (`FormatDoesNotRepairNested`).

## Model

| member | source | states |
|---|---|---|
| `Text.EndsWith` | src/hooks/useMqtt.ts:23 | true exactly when the string is some string followed by that character |
| `MqttHook.FormatStringToJson` | src/hooks/useMqtt.ts:22-27 | the result always ends in `}`, is the input extended by at most one character, starts with the whole input, and equals the input exactly when the input already ended in `}` |
| `MqttHook.FormatIdempotent` | src/hooks/useMqtt.ts:22-27 | repairing an already repaired frame changes nothing |
| `MqttHook.FormatEmpty` | src/hooks/useMqtt.ts:23-26 | the empty frame becomes `}` |
| `MqttHook.FormatRepairsTruncation` | src/hooks/useMqtt.ts:22-27 | a frame that lost its final `}`, and whose previous character is not `}`, is restored exactly |
| `MqttHook.FormatDoesNotRepairNested` | src/hooks/useMqtt.ts:23 | for every frame ending in `}}`, dropping its final `}` gives a string the repair returns unchanged, so it stays different from the original frame |
| `MqttHook.FormatDoesNotRepairNestedExample` | src/hooks/useMqtt.ts:23 | the frame `{"a":{}` (lost its final `}`) is returned unrepaired |
| `MqttHook.TopicSub` | src/hooks/useMqtt.ts:39 | `hidroflow/hf123/data` whatever `topicId` is (see `FixedTopic`) |
| `MqttHook.FixedTopic` | src/hooks/useMqtt.ts:38-39 | `topicSub` computed for any two `topicId` arguments is the same string, `hidroflow/hf123/data` |
| `MqttHook.MqttStatusText` | src/hooks/useMqtt.ts:11 | each connection status has its label "Conectando...", "Conectado", "Desconectado" or "Erro", and each label names exactly one status |
| `MqttHook.EspStatusText` | src/hooks/useMqtt.ts:12 | each liveness status has its label "Online", "Offline" or "Aguardando Dados...", and each label names exactly one status |
| `MqttHook.ClassifyEsp` | src/hooks/useMqtt.ts:43-50 | "Aguardando Dados..." iff there is no timestamp or it is 0; otherwise "Offline" iff more than 40000 ms have passed and "Online" iff at most 40000 ms have passed |
| `MqttHook.LivenessBoundary` | src/hooks/useMqtt.ts:8 | 40000 ms of silence is "Online", 40001 ms is "Offline" |
| `MqttHook.LivenessMonotone` | src/hooks/useMqtt.ts:48-49 | with no new frame, "Offline" persists as time goes on, and "Online" now means "Online" at every earlier moment |
| `MqttHook.Hook.ClientRef` | src/hooks/useMqtt.ts:124 | `clientRef.current` is the client built last, and there is none before the first `connectMqtt` |
| `MqttHook.Hook.constructor` | src/hooks/useMqtt.ts:30-36 | initial state: "Desconectado", "Aguardando Dados...", the fixed topic, the given `JSON.parse`, no data, no timestamp, no client, no interval, no pending reconnect; the invariant holds |
| `MqttHook.Hook.ConnectMqtt` | src/hooks/useMqtt.ts:75-78 | status becomes "Conectando..." and one new, unconnected client with id `hidroflow_web_` + suffix is appended and becomes the current client; nothing else changes |
| `MqttHook.Hook.Mount` | src/hooks/useMqtt.ts:52-56 | the effect connects and starts the liveness interval |
| `MqttHook.Hook.OnSuccess` | src/hooks/useMqtt.ts:108-113 | status becomes "Conectado"; that client is connected and subscribed to `hidroflow/hf123/data`; nothing else changes |
| `MqttHook.Hook.OnFailure` | src/hooks/useMqtt.ts:114-118 | status becomes "Erro" and exactly one reconnect is added, due 5000 ms later; nothing else changes |
| `MqttHook.Hook.OnConnectionLost` | src/hooks/useMqtt.ts:80-87 | with a nonzero code: "Desconectado" and exactly one reconnect due 5000 ms later; with code 0: status and reconnects unchanged; only that client's connected flag drops |
| `MqttHook.Hook.OnMessageArrived` | src/hooks/useMqtt.ts:89-105 | a frame on the fixed topic that parses after repair replaces the data wholesale and sets the timestamp to now; any other frame leaves data and timestamp unchanged; statuses never change |
| `MqttHook.Hook.Tick` | src/hooks/useMqtt.ts:43-50 | while the interval runs, the liveness status becomes the classification of the stored timestamp at now; otherwise nothing changes |
| `MqttHook.Hook.FireRetry` | src/hooks/useMqtt.ts:85 | a due reconnect is consumed and runs `connectMqtt` again |
| `MqttHook.Hook.Cleanup` | src/hooks/useMqtt.ts:59-71 | the interval stops; the current client is disconnected only if it was connected; pending reconnects, older clients and all statuses are kept |
| `Collections.Filter` | src/services/plantService.ts:26 | every kept element is from the input and satisfies the test, every input element that satisfies it is kept, and the result is no longer than the input |
| `Collections.FilterAppend` | src/services/plantService.ts:65 | filtering distributes over concatenation, so kept elements stay in input order |
| `Collections.FilterCommutes` | src/services/plantService.ts:65 | two filters applied in sequence give the same list in either order |
| `Collections.FilterKeepsAll` | src/services/plantService.ts:65 | a filter that keeps every element returns its input |
| `Collections.Find` | src/services/plantService.ts:34 | none iff no element satisfies the test; otherwise the element at an index that satisfies it with no earlier index that does |
| `Collections.FindAppend` | src/services/userService.ts:13-15 | searching a table extended at the end finds the old match if there was one, else the new element if it matches |
| `Collections.Any` | src/services/userService.ts:24 | true iff some element satisfies the test |
| `Collections.AnyIffFind` | src/services/userService.ts:13-24 | `some` holds exactly when `find` returns an element |
| `Text.LowerChar` | src/services/plantService.ts:52 | an ASCII capital becomes the small letter 32 code points above it; every other character is unchanged |
| `Text.Lower` | src/services/userService.ts:14 | same length; each ASCII capital is moved 32 code points up to its small letter and every other character is kept |
| `Text.LowerProperties` | src/services/userService.ts:14 | lower-casing keeps the length, leaves no upper-case letter and is idempotent |
| `Text.ReplaceFirst` | src/services/plantService.ts:52 | same length; unchanged without an occurrence; otherwise only the first occurrence is replaced |
| `Text.Decimal` | src/services/plantService.ts:48 | the rendering is a non-empty string of digits, one digit exactly below 10, with no leading zero |
| `Text.DecimalRoundTrip` | src/services/plantService.ts:52-54 | reading a rendered number back gives the number |
| `PlantService.PlantsOfUser` | src/services/plantService.ts:26 | exactly the stored plants of that user |
| `PlantService.FindPlant` | src/services/plantService.ts:34 | the first stored plant with that id, or none iff no plant has it |
| `PlantService.WithoutPlant` | src/services/plantService.ts:65 | exactly the stored plants whose id differs |
| `PlantService.TopicIdBase` | src/services/plantService.ts:52 | the topic id begins with the name, each character lower-cased, except that the first space, and only the first, becomes `_` |
| `PlantService.TopicIdFor` | src/services/plantService.ts:52-54 | |name| characters derived from the name (see `TopicIdBase`), then `_`, then the decimal digits of `n`, two or three characters longer than the name |
| `PlantService.TopicIdSuffix` | src/services/plantService.ts:52-54 | the digits after the name's `_` read back as the random number |
| `PlantService.AddShowsOnlyForOwner` | src/services/plantService.ts:47-56 | a new plant appears at the end of its owner's list and no other user's list changes |
| `PlantService.DeleteRemovesId` | src/services/plantService.ts:65 | after a delete no plant with that id is found, deleting again changes nothing, and every user's list becomes that user's old list without the plants with that id |
| `PlantService.DeleteAbsentIsNoop` | src/services/plantService.ts:65 | deleting an id no plant has leaves the table unchanged |
| `PlantService.DeleteKeepsOrder` | src/services/plantService.ts:65 | a delete keeps the other plants in table order |
| `PlantService.FindAfterAdd` | src/services/plantService.ts:34-56 | a new plant is found by its id unless an earlier plant has the same id |
| `PlantService.InitialTable` | src/services/plantService.ts:5-20 | both initial plants belong to `user_1`, every other user id gets an empty list, and `plant_1` is found first |
| `PlantService.PlantStore.constructor` | src/services/plantService.ts:5-20 | the table starts with `plant_1` and `plant_2` |
| `PlantService.PlantStore.GetPlantsByUserId` | src/services/plantService.ts:23-29 | returns that user's plants in table order; the table is unchanged |
| `PlantService.PlantStore.GetPlantById` | src/services/plantService.ts:31-38 | returns the first plant with that id or none; the table is unchanged |
| `PlantService.PlantStore.AddPlant` | src/services/plantService.ts:40-60 | appends exactly one record, with the given owner, name and location, id `plant_` + time and the derived topic id, and returns it |
| `PlantService.PlantStore.DeletePlant` | src/services/plantService.ts:62-69 | the table becomes the plants whose id differs, in order, and the id is no longer found |
| `UserService.SameEmail` | src/services/userService.ts:14 | two addresses match exactly when they have the same length and agree character by character once lower-cased |
| `UserService.FindByEmail` | src/services/userService.ts:13-15 | the first user whose address equals the given one up to case, or none iff there is no such user |
| `UserService.EmailTaken` | src/services/userService.ts:24 | true iff some stored address equals the given one up to case, i.e. iff a login would find a user |
| `UserService.InitialUnique` | src/services/userService.ts:5-7 | the initial table has unique addresses |
| `UserService.RegisterKeepsUnique` | src/services/userService.ts:24-33 | appending a user whose address is not taken keeps all addresses unique up to case |
| `UserService.LoginFindsRegistered` | src/services/userService.ts:13-33 | after registering an address nobody had, a login with any casing of it finds the new user |
| `UserService.LoginFindsEveryUser` | src/services/userService.ts:13-16 | with unique addresses, a login with any casing of a stored user's address finds that user |
| `UserService.UserStore.constructor` | src/services/userService.ts:5-7 | the table starts with `user_1` and its addresses are unique |
| `UserService.UserStore.Login` | src/services/userService.ts:10-19 | returns the user found by address up to case, or none; the table is unchanged |
| `UserService.UserStore.Register` | src/services/userService.ts:21-37 | a taken address is rejected with "Este e-mail já está em uso." and the table is unchanged; otherwise exactly one user with the given name and address is appended and returned; uniqueness is kept |
| `AuthStore.Auth.constructor` | src/store/useAuthStore.ts:14-16 | the session starts unauthenticated with no user |
| `AuthStore.Auth.Login` | src/store/useAuthStore.ts:17-24 | a found user becomes the session's user and the session is authenticated; with none found it fails with "Usuário não encontrado." and the session is unchanged |
| `AuthStore.Auth.Register` | src/store/useAuthStore.ts:25-28 | a registered user becomes the session's user; a rejection propagates with session and table unchanged |
| `AuthStore.Auth.Logout` | src/store/useAuthStore.ts:29-31 | the session is unauthenticated with no user, whatever it was, so a second logout changes nothing |

Every class method keeps its class's invariant: `Hook.Valid` (data and timestamp are set
together; without a timestamp the liveness is "Aguardando Dados..."), `UserStore.Valid`
(unique addresses) and `Auth.Valid` (authenticated exactly when a user is held).

## Left out

- Rendering, pages, components, routing and the theme: presentation only.
- The gauge percentages of the plant page: floating-point arithmetic for display.
- The Paho client itself (WebSocket transport, TLS, keep-alive, the 5 s connect timeout,
  real subscribe and disconnect): external; its callbacks are event methods, and its
  "connected" flag is the `connected` field of each client. The code-0 `onConnectionLost`
  that Paho raises after the cleanup's `disconnect()` leaves the hook's state unchanged and
  is not replayed by `Cleanup`.
- React's discarding of state updates after unmount: the model keeps writing the fields,
  so after `Cleanup` they show what the hook's setters were asked to store.
- The 300/500 ms latency of the mock services and the Promises around them: each operation
  is one synchronous step.
- The 5000 ms liveness interval's period: ticks are events at arbitrary times.
- `FireRetry`: the 5000 ms delay is recorded in each due time, and a retry fires no earlier
  than its due time, but there is no shared clock across events: retries may fire in any
  order relative to each other and to ticks and frames stamped with other times.
- `JSON.parse` and `payloadString`: a parameter; a payload that is not valid text is not
  modelled.
- `Math.random` and `Date.now`: parameters; nothing is claimed about unique ids.
- `Text.Lower`: ASCII letters only; JavaScript's full Unicode `toLowerCase` is not modelled.
- Callback interleaving and concurrency: everything is one sequential stream of events.
- Console logging.
