/**
 * What `parseParams` builds from the parameter server: the watchdog timeout,
 * the watchdog start-up time, the mission catalogue (id to description) and
 * the ordered list of (mission id, entity, next state) policy items.
 */
module Configuration {
  import opened Wrappers
  import opened RosParams
  import opened EntityActions

  /** One element of `entity_action_vector`: `(i, (entity, action))`. */
  datatype MissionEntityAction = MissionEntityAction(mission: int, entity: Entity, action: NextState)

  /** `autonomyOptions{watchdog_timeout_ms, watchdog_startup_time_s, missions, entity_action_vector}`. */
  datatype AutonomyOptions = AutonomyOptions(
    timeout: int32,
    watchdogStartupTime: int32,
    missions: map<int, string>,
    entityActions: seq<MissionEntityAction>)

  /**
   * Why a configuration is rejected: one case per message `parseParams`
   * prints before returning false, and `IndexOutOfRange` for the XmlRpc
   * exception raised while decoding a too-short item.
   */
  datatype ParseError =
    | NoMissions
    | MissingDescription(mission: int)
    | MissingEntitiesActions(mission: int)
    | WronglyDefined(mission: int)
    | IndexOutOfRange(mission: int)

  /** Why one item of a mission's list is rejected. */
  datatype EntryFault = Malformed | OutOfRange

  /** One mission as configured: its description and its decoded items, in list order. */
  datatype Mission = Mission(description: string, entries: seq<(Entity, NextState)>)

  /** The part of the options built by the mission loop. */
  datatype Catalogue = Catalogue(missions: map<int, string>, entityActions: seq<MissionEntityAction>)

  /** The watchdog rate is an integer parameter other than 0 (the source divides by it unchecked). */
  predicate RateConfigured(store: ParamStore)
  {
    GetInt(store, WatchdogRate).Some? && GetInt(store, WatchdogRate).value != 0
  }

  /** Truncating division of 1250 by a positive divisor: the quotient q has q * d <= 1250 < (q + 1) * d. */
  lemma DivisionOf1250(d: int)
    requires d > 0
    ensures 0 <= 1250 / d <= 1250
    ensures (1250 / d) * d <= 1250 < (1250 / d + 1) * d
  {
    var q, m := 1250 / d, 1250 % d;
    assert q * d + m == 1250 && 0 <= m < d;
    assert (q + 1) * d == q * d + d;
  }

  /**
   * `1250 / watchdog_rate` with C++'s division, which truncates toward zero:
   * 125% of the heartbeat period, in whole milliseconds.
   */
  function WatchdogTimeoutMs(rate: int32): (t: int32)
    requires rate != 0
    ensures rate > 0 ==> t >= 0 && t as int * rate as int <= 1250 < (t as int + 1) * rate as int
    ensures rate < 0 ==> t <= 0 && -(t as int) * -(rate as int) <= 1250 < (-(t as int) + 1) * -(rate as int)
  {
    var d := if rate > 0 then rate as int else -(rate as int);
    DivisionOf1250(d);
    if rate > 0 then (1250 / d) as int32 else (-(1250 / d)) as int32
  }

  /** `missions/number`, 0 when absent. */
  function MissionCount(store: ParamStore): int32
  {
    ParamOr(store, MissionsNumber, 0)
  }

  /** Why an item that does not decode is rejected. */
  function FaultOf(v: XmlRpcValue): EntryFault
  {
    if AccessOutOfRange(v) then OutOfRange else Malformed
  }

  /**
   * The inner loop over the first n items of a mission's `entities_actions`
   * list: every item must decode, and the first one that does not decides
   * the fault.
   */
  function DecodeEntries(items: seq<XmlRpcValue>, n: nat): (r: Result<seq<(Entity, NextState)>, EntryFault>)
    requires n <= |items|
    ensures r.Ok? ==> |r.value| == n
  {
    if n == 0 then Ok([])
    else match DecodeEntries(items, n - 1)
      case Err(f) => Err(f)
      case Ok(pairs) =>
        match DecodeEntityAction(items[n - 1])
        case Some(p) => Ok(pairs + [p])
        case None => Err(FaultOf(items[n - 1]))
  }

  /** A mission's items tagged with its id, as they are appended to `entity_action_vector`. */
  function Tag(i: int, pairs: seq<(Entity, NextState)>): seq<MissionEntityAction>
  {
    seq(|pairs|, j requires 0 <= j < |pairs| => MissionEntityAction(i, pairs[j].0, pairs[j].1))
  }

  /**
   * One pass of the mission loop for mission `i`: the description must be a
   * string, `entities_actions` must be present and an array, and each item
   * an array that decodes.
   */
  function ParseMission(store: ParamStore, i: int): (r: Result<Mission, ParseError>)
    ensures r.Ok? ==> Description(i) in store && store[Description(i)] == Str(r.value.description)
    ensures r.Ok? ==> EntitiesActions(i) in store && store[EntitiesActions(i)].Arr?
    ensures r.Err? ==> !r.error.NoMissions? && r.error.mission == i
  {
    match GetString(store, Description(i))
    case None => Err(MissingDescription(i))
    case Some(description) =>
      if EntitiesActions(i) !in store then Err(MissingEntitiesActions(i))
      else
        var list := store[EntitiesActions(i)];
        if !list.Arr? then Err(WronglyDefined(i))
        else match DecodeEntries(list.elems, |list.elems|)
          case Err(Malformed) => Err(WronglyDefined(i))
          case Err(OutOfRange) => Err(IndexOutOfRange(i))
          case Ok(entries) => Ok(Mission(description, entries))
  }

  /** The mission loop run for ids 1..k: the first mission that fails decides the error. */
  function ParseMissionsUpTo(store: ParamStore, k: nat): (r: Result<Catalogue, ParseError>)
    ensures r.Err? ==> !r.error.NoMissions? && 1 <= r.error.mission <= k
  {
    if k == 0 then Ok(Catalogue(map[], []))
    else match ParseMissionsUpTo(store, k - 1)
      case Err(e) => Err(e)
      case Ok(c) =>
        match ParseMission(store, k)
        case Err(e) => Err(e)
        case Ok(m) => Ok(Catalogue(c.missions[k := m.description], c.entityActions + Tag(k, m.entries)))
  }

  /**
   * `parseParams`: a count of exactly 0 is rejected, a negative count skips
   * the loop, and otherwise missions 1..count are parsed in order.
   */
  function ParseConfig(store: ParamStore): (r: Result<AutonomyOptions, ParseError>)
    requires RateConfigured(store)
    ensures r == Err(NoMissions) <==> MissionCount(store) == 0
    ensures r.Ok? ==> r.value.timeout == WatchdogTimeoutMs(GetInt(store, WatchdogRate).value)
    ensures r.Ok? ==> r.value.watchdogStartupTime == ParamOr(store, WatchdogStartupTime, 5)
    ensures MissionCount(store) < 0 ==> r.Ok? && r.value.missions == map[] && r.value.entityActions == []
  {
    var timeout := WatchdogTimeoutMs(GetInt(store, WatchdogRate).value);
    var startupTime := ParamOr(store, WatchdogStartupTime, 5);
    var n := MissionCount(store);
    if n == 0 then Err(NoMissions)
    else match ParseMissionsUpTo(store, if n < 0 then 0 else n as int)
      case Err(e) => Err(e)
      case Ok(c) => Ok(AutonomyOptions(timeout, startupTime, c.missions, c.entityActions))
  }
}
