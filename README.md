# AMAZE autonomy engine: configuration parsing and mission selection

This project models how the autonomy node (`AmazeAutonomy`) reads its
configuration from the ROS parameter server and decides which mission an
operator may select. It then proves what that configuration looks like when
it is accepted, and why it is rejected when it is not.

What is modelled:

- **The parameter server** (`RosParams`) is a finite map from parameter
  keys to XmlRpc values. A value is a string, an array of values, a 32-bit
  integer, or anything else.
- **`getEntityAction`** (`EntityActions`) decodes one `[entity, action]`
  pair of a mission's `entities_actions` list. There are nine entity names
  and three action names, and they are checked in source order.
  - `GetEntityAction` follows the C++ branch for branch. That includes
    writing the entity before the action is checked, and the exception that
    XmlRpc's const indexing throws on a list that is too short.
  - `DecodeEntityAction` is a reference decoder. It is checked against
    `GetEntityAction` and against the encoder `EncodeEntityAction`.
- **`parseParams`** (`Configuration`, `ConfigurationProperties`, `Autonomy`)
  builds the options in these steps:
  - It reads the watchdog timeout, `1250/watchdog_rate` milliseconds. That is
    125% of one heartbeat period, with C++ truncating division.
  - It reads the startup time (default 5) and the mission count (default 0).
    A count of 0 is rejected.
  - For missions 1..count in order, it reads the description and the
    `entities_actions` list, decodes every item, and tags each item with the
    mission id.
  - The first failure decides the error, and the options are kept only on
    success.
  - `ParseConfig` states the whole parse as a function.
    `AmazeAutonomy.ParseParams` is the two nested loops of the C++ over the
    object's `opts` field, and it is proved equal to that function.
- **The mission-id check in `userInterface`** (`Autonomy`) rejects an id
  that is 0 or larger than the number of missions. The comparison happens in
  `size_t`, so the signed id is reduced modulo 2^64.

The main results are these:

- A configuration is accepted exactly when the count is not 0 and every
  mission 1..count parses.
- The reported error is that of the first mission that fails.
- An accepted configuration lists exactly the missions 1..count with their
  descriptions.
- The policy list is sorted by mission id, is as long as all the lists
  together, and holds each mission's decoded pairs in list order.
- After an accepted configuration, an operator's id passes the check exactly
  when it is a configured mission.

Behaviour of the code worth knowing:

- `getEntityAction` accepts only the actions `continue`, `hold` and
  `manual`. Any other action name, `"land"` included, makes the list
  "wrongly defined".
- No severity policy, transition table or timer behaviour is implemented in
  the modelled code: `watchdogStatusCallback` is empty and the overflow
  handler only prints.
- A negative `missions/number` is not rejected. The loop does not run, and
  the configuration is accepted with no missions. After that, no mission id
  passes the check (`Autonomy.NegativeCountAcceptsNoId`).

## Model

| member | source | states |
|---|---|---|
| EntityActions.GetEntityAction | src/autonomy_core/autonomy.cpp:139-191 | It throws exactly when the list is too short for the index being read. Otherwise it returns true exactly when the reference decoder accepts the item, and then yields the decoded entity and action. On false the action is unchanged, and the entity is changed only to a recognised first element. |
| EntityActions.LookupFindsRow | src/autonomy_core/autonomy.cpp:145-166 | A name found in an ordered name table is one of its rows; a name not found matches no row |
| EntityActions.EntityTableRows | src/autonomy_core/autonomy.cpp:145-166 | The nine entity names are listed in source order, each row naming its entity, and every entity has a row |
| EntityActions.ActionTableRows | src/autonomy_core/autonomy.cpp:172-181 | The three action names `continue`, `hold`, `manual` map to NOMINAL, HOLD, MANUAL, and every action has a row |
| EntityActions.EntityOfNames | src/autonomy_core/autonomy.cpp:145-169 | An element decodes to an entity exactly when it is that entity's name string; any other value is rejected |
| EntityActions.ActionOfNames | src/autonomy_core/autonomy.cpp:172-184 | An element decodes to an action exactly when it is that action's name string; any other value (including `"land"`) is rejected |
| EntityActions.EntityNameRoundTrip | src/autonomy_core/autonomy.cpp:145-166 | Decoding an entity's name gives back that entity |
| EntityActions.ActionNameRoundTrip | src/autonomy_core/autonomy.cpp:172-181 | Decoding an action's name gives back that action |
| EntityActions.EncodeEntityAction | src/autonomy_core/autonomy.cpp:139-191 | The `[entity, action]` pair decodes back to the same entity and action, and so does any longer list that starts with it |
| Configuration.WatchdogTimeoutMs | src/autonomy_core/autonomy.cpp:65-66 | For a positive rate, `1250/rate` is the largest timeout t with t·rate ≤ 1250 and lies in 0..1250. A negative rate gives the negation of that, since C++ division truncates. |
| Configuration.DivisionOf1250 | src/autonomy_core/autonomy.cpp:66 | For a positive divisor d, 1250/d lies in 0..1250 and is the largest q with q·d ≤ 1250 |
| Configuration.DecodeEntries | src/autonomy_core/autonomy.cpp:102-124 | An accepted prefix of a mission's list yields one pair per item |
| Configuration.ParseMission | src/autonomy_core/autonomy.cpp:84-128 | An accepted mission has a string description and an array `entities_actions` in the store; a rejected one is rejected with its own id. The converse and the error for each failure are `ParseMissionOk` and `ParseMissionErrors`. |
| ConfigurationProperties.ParseMissionOk | src/autonomy_core/autonomy.cpp:84-128 | A mission is accepted exactly when its description is a string, its `entities_actions` is present and an array, and every item decodes |
| ConfigurationProperties.ParseMissionErrors | src/autonomy_core/autonomy.cpp:84-128 | Which check rejects a mission. A description that is not a string gives "description missing". A missing list gives "entities_actions missing". A list that is not an array, or whose first undecodable item is wrongly shaped, gives "wrongly defined". A first undecodable item on which the decoder reads past the end gives the out-of-range error. |
| ConfigurationProperties.DecodeEntriesFaultIff | src/autonomy_core/autonomy.cpp:102-124 | A list is rejected with a given fault exactly when its first undecodable item causes that fault |
| ConfigurationProperties.MissionsUpToStep | src/autonomy_core/autonomy.cpp:81-129 | An accepted pass for mission k follows accepted passes for 1..k-1 and appends mission k's tagged items |
| Configuration.ParseMissionsUpTo | src/autonomy_core/autonomy.cpp:81-129 | The loop over missions 1..k fails only with the id of a mission in 1..k |
| Configuration.ParseConfig | src/autonomy_core/autonomy.cpp:60-137 | It fails with "no missions" exactly when the count is 0, and a negative count gives an empty catalogue. On success the timeout is `1250/watchdog_rate` and the startup time is the parameter or 5. |
| ConfigurationProperties.DecodeEntriesOk | src/autonomy_core/autonomy.cpp:102-124 | A list is accepted exactly when every item decodes, and the pairs are the decoded items in list order |
| ConfigurationProperties.DecodeEntriesPrefixErr | src/autonomy_core/autonomy.cpp:115-123 | Once an item is rejected, the rest of the list does not change the error |
| ConfigurationProperties.DecodeEntriesFirstFault | src/autonomy_core/autonomy.cpp:102-124 | A rejected list is rejected because of its first item that does not decode, and the fault is the one that item causes |
| ConfigurationProperties.DecodeEntriesRejectedAt | src/autonomy_core/autonomy.cpp:115-123 | An undecodable item after well-formed ones decides the list's fault |
| ConfigurationProperties.DecodeEntriesStep | src/autonomy_core/autonomy.cpp:108-113 | Accepting one more item appends its pair, tagged with the mission id, to the tagged list |
| ConfigurationProperties.MissionsUpToPrefixErr | src/autonomy_core/autonomy.cpp:81-129 | Once a mission fails, further passes of the loop do not change the error |
| ConfigurationProperties.MissionsUpToOkIff | src/autonomy_core/autonomy.cpp:81-129 | The loop over missions 1..k succeeds exactly when every mission in 1..k parses |
| ConfigurationProperties.MissionsUpToFirstError | src/autonomy_core/autonomy.cpp:81-129 | A failed loop reports the error of the first mission that fails, and all missions before it parse |
| ConfigurationProperties.MissionsUpToCatalogue | src/autonomy_core/autonomy.cpp:84-90 | The mission map holds exactly the ids 1..k, each with its own description |
| ConfigurationProperties.EntriesOfMissionAppend | src/autonomy_core/autonomy.cpp:113 | Selecting one mission's pairs distributes over appending to the list |
| ConfigurationProperties.EntriesOfMissionTag | src/autonomy_core/autonomy.cpp:112-113 | Pairs tagged with mission k select back to themselves for k and to nothing for any other id |
| ConfigurationProperties.EntriesOfMissionAbsent | src/autonomy_core/autonomy.cpp:112-113 | A list with no pair of mission i selects nothing for i |
| ConfigurationProperties.MissionsUpToSorted | src/autonomy_core/autonomy.cpp:81-129 | The policy list is sorted by mission id and every id lies in 1..k |
| ConfigurationProperties.MissionsUpToLength | src/autonomy_core/autonomy.cpp:81-129 | The policy list is as long as the lists of missions 1..k together |
| ConfigurationProperties.MissionsUpToEntries | src/autonomy_core/autonomy.cpp:81-129 | Mission i's pairs in the policy list are exactly its decoded list, in order |
| ConfigurationProperties.ParseMissionEntries | src/autonomy_core/autonomy.cpp:93-124 | An accepted mission's pairs are the decoded items of its `entities_actions` array, in order |
| ConfigurationProperties.ConfigRejectedAt | src/autonomy_core/autonomy.cpp:84-128 | A mission that fails after all earlier missions parsed decides the configuration's error |
| ConfigurationProperties.ConfigCatalogue | src/autonomy_core/autonomy.cpp:133 | An accepted configuration carries the mission map and policy list built by the loop |
| ConfigurationProperties.ConfigAccepted | src/autonomy_core/autonomy.cpp:72-136 | The configuration is accepted exactly when the count is not 0 and every mission 1..count parses |
| ConfigurationProperties.ConfigFirstError | src/autonomy_core/autonomy.cpp:81-129 | A rejected configuration (other than "no missions") reports the first mission that fails, and all missions before it parse |
| ConfigurationProperties.ConfigMissions | src/autonomy_core/autonomy.cpp:81-90 | An accepted configuration maps exactly the ids 1..count (none for a negative count) to their descriptions |
| ConfigurationProperties.ConfigEntityActions | src/autonomy_core/autonomy.cpp:81-133 | The policy list of an accepted configuration has these properties: it is sorted by mission, its ids lie in 1..count, it is as long as all the lists together, and each mission's pairs are its decoded list in order |
| Autonomy.MissionIdAccepted | src/autonomy_core/autonomy.cpp:273 | For any realistic catalogue size, an id is accepted exactly when 1 ≤ id ≤ size; negative ids are rejected |
| Autonomy.AcceptedIdsAreMissions | src/autonomy_core/autonomy.cpp:264-276 | After an accepted configuration, an id passes the check exactly when it is the id of a configured mission |
| Autonomy.NegativeCountAcceptsNoId | src/autonomy_core/autonomy.cpp:72-81 | A negative mission count yields an accepted configuration in which no mission id passes the check |
| Autonomy.AppendEntitiesActions | src/autonomy_core/autonomy.cpp:99-128 | The inner loop appends the tagged decoded pairs exactly when the reference decoder accepts the list. Otherwise it reports "wrongly defined" or an out-of-range index for that mission. |
| Autonomy.AmazeAutonomy.ParseParams | src/autonomy_core/autonomy.cpp:48-137 | It returns exactly the result of `ParseConfig`, sets `opts` to the options on success, and leaves `opts` unchanged on failure |
| Autonomy.AmazeAutonomy.UserInterface | src/autonomy_core/autonomy.cpp:260-278 | It stores the operator's id as the selected mission id and accepts it exactly when the id check does |

## Left out

- The ROS wiring is not modelled: the constructor, subscriptions, service client, `configCallback` and dynamic reconfigure. It is framework glue with no logic of its own.
- `startWatchdog` is not modelled, because it is a call to a remote ROS service.
- Console output, reading the id from `std::cin`, and the exception thrown on a rejected id are not modelled. The id becomes a parameter, and the verdict becomes a result.
- `preFlightChecks` is not modelled, because it always returns true.
- `watchdogStatusCallback` is empty and `watchdogTimerOverflowHandler` only prints. The model claims no severity policy, transition table or timer behaviour for them.
- The `Timer` class and the state classes (`State`, `Nominal`, `Undefined` and the rest) are not part of this model.
- `autonomy_node.cpp` is not part of this model.
- Parameter names are abstracted as a key datatype (`Description(i)`, `EntitiesActions(i)`, …) instead of the concatenated strings `missions/mission_<i>/…`. Distinct missions give distinct keys in both.
- `getParam<int>` also accepts a double and rounds it. The model has no doubles: such a value counts as "not an integer".
- The library code of XmlRpc is not part of this model. A const `operator[]` past the end of an array throws. The model represents this as the result `Threw`, which `parseParams` reports as `IndexOutOfRange` instead of propagating an exception.
- Autonomy.AmazeAutonomy.ParseParams: returns which error occurred rather than the source's plain `false`. The message printed for each error is not modelled.
- Autonomy.AmazeAutonomy.ParseParams: requires `watchdog_rate` to be present and non-zero. If it is missing, the source divides an uninitialised variable, and a rate of 0 divides by zero. Neither has a defined result.
- Autonomy.AmazeAutonomy.ParseParams: the mission counter is unbounded. In the source, `++i` overflows only when the count is `INT_MAX`.
- Autonomy.MissionIdAccepted: assumes `mission_id_` is a 32-bit signed integer, because its declaration in `autonomy.h` is not part of this model. The if-and-only-if is stated for catalogue sizes below 2^63.
- Autonomy.AppendEntitiesActions: the source's `entity` and `action` variables start uninitialised. The model starts them at a fixed value, which no result depends on.
- EntityActions.GetEntityAction: the source's if-chains over name strings are expressed as ordered name tables with a first-match lookup. The order and the names are the source's.
