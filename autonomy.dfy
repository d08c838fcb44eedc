/**
 * The autonomy node object: `parseParams`, which fills the options from the
 * parameter server, and the mission-id check of `userInterface`.
 */
module Autonomy {
  import opened Wrappers
  import opened RosParams
  import opened EntityActions
  import opened Configuration
  import opened ConfigurationProperties

  /** 2^64: `size_t` arithmetic is modulo this. */
  const SizeTModulus: int := 0x1_0000_0000_0000_0000

  /**
   * `mission_id_ == 0 || mission_id_ > opts_->missions.size()` rejects an id.
   * The comparison converts the signed id to `size_t`, so a negative id
   * becomes a very large one.
   */
  function MissionIdAccepted(id: int32, size: nat): (ok: bool)
    ensures size < 0x8000_0000_0000_0000 ==> (ok <==> 1 <= id as int <= size)
  {
    !(id == 0 || (id as int) % SizeTModulus > size)
  }

  /**
   * After an accepted configuration, an operator's mission id passes the
   * check exactly when it is the id of a configured mission.
   */
  lemma AcceptedIdsAreMissions(store: ParamStore, id: int32)
    requires RateConfigured(store)
    requires ParseConfig(store).Ok?
    ensures MissionIdAccepted(id, |ParseConfig(store).value.missions|) <==> id as int in ParseConfig(store).value.missions
  {
    ConfigMissions(store);
  }

  /** After an accepted configuration with a negative mission count, no mission id passes the check. */
  lemma NegativeCountAcceptsNoId(store: ParamStore, id: int32)
    requires RateConfigured(store)
    requires MissionCount(store) < 0
    ensures ParseConfig(store).Ok? && !MissionIdAccepted(id, |ParseConfig(store).value.missions|)
  {
  }

  /**
   * The inner loop of `parseParams` over mission i's `entities_actions`
   * items: each item must be an array that `getEntityAction` accepts, and its
   * pair is appended, tagged with i, to `entity_action_vector`.
   */
  method AppendEntitiesActions(i: int, items: seq<XmlRpcValue>, vector: seq<MissionEntityAction>)
    returns (r: Result<seq<MissionEntityAction>, ParseError>)
    ensures DecodeEntries(items, |items|).Ok? ==> r == Ok(vector + Tag(i, DecodeEntries(items, |items|).value))
    ensures DecodeEntries(items, |items|) == Err(Malformed) ==> r == Err(WronglyDefined(i))
    ensures DecodeEntries(items, |items|) == Err(OutOfRange) ==> r == Err(IndexOutOfRange(i))
  {
    var entityActionVector := vector;
    // Left uninitialised by the source; only read after getEntityAction has written them.
    var entity: Entity := Px4Gps;
    var action: NextState := Nominal;
    var j := 0;
    while j < |items|
      invariant 0 <= j <= |items|
      invariant DecodeEntries(items, j).Ok?
      invariant entityActionVector == vector + Tag(i, DecodeEntries(items, j).value)
    {
      if items[j].Arr? {
        match GetEntityAction(items[j], entity, action) {
          case Returned(ok, e, a) =>
            entity, action := e, a;
            if ok {
              DecodeEntriesStep(i, items, j);
              entityActionVector := entityActionVector + [MissionEntityAction(i, entity, action)];
            } else {
              DecodeEntriesRejectedAt(items, j);
              return Err(WronglyDefined(i));
            }
          case Threw =>
            DecodeEntriesRejectedAt(items, j);
            return Err(IndexOutOfRange(i));
        }
      } else {
        DecodeEntriesRejectedAt(items, j);
        return Err(WronglyDefined(i));
      }
      j := j + 1;
    }
    return Ok(entityActionVector);
  }

  class AmazeAutonomy {
    /** `opts_`: empty until `parseParams` succeeds. */
    var opts: Option<AutonomyOptions>
    /** `mission_id_`: the mission the operator selected. */
    var missionId: int32

    /**
     * `parseParams`: reads the watchdog parameters and the missions, and
     * assigns the options only when every mission is well formed. The
     * result says which check rejected the configuration.
     */
    method ParseParams(store: ParamStore) returns (r: Result<AutonomyOptions, ParseError>)
      requires RateConfigured(store)
      modifies this`opts
      ensures r == ParseConfig(store)
      ensures opts == if r.Ok? then Some(r.value) else old(opts)
    {
      var watchdogTimeoutMs := WatchdogTimeoutMs(GetInt(store, WatchdogRate).value);
      var watchdogStartupTime := ParamOr(store, WatchdogStartupTime, 5);
      var n := MissionCount(store);
      var missions: map<int, string> := map[];
      var entityActionVector: seq<MissionEntityAction> := [];

      if n == 0 {
        return Err(NoMissions);
      }

      var i: int := 1;
      while i <= n as int
        invariant 1 <= i <= LoopBound(store) + 1
        invariant ParseMissionsUpTo(store, i - 1) == Ok(Catalogue(missions, entityActionVector))
        invariant opts == old(opts)
      {
        var description: string;
        match GetString(store, Description(i)) {
          case None =>
            ConfigRejectedAt(store, i, MissingDescription(i));
            return Err(MissingDescription(i));
          case Some(d) =>
            description := d;
        }
        missions := missions[i := description];

        if EntitiesActions(i) !in store {
          ConfigRejectedAt(store, i, MissingEntitiesActions(i));
          return Err(MissingEntitiesActions(i));
        }
        var entitiesActions := store[EntitiesActions(i)];

        if entitiesActions.Arr? {
          var extended := AppendEntitiesActions(i, entitiesActions.elems, entityActionVector);
          match extended {
            case Err(e) =>
              ConfigRejectedAt(store, i, e);
              return Err(e);
            case Ok(v) =>
              entityActionVector := v;
          }
        } else {
          ConfigRejectedAt(store, i, WronglyDefined(i));
          return Err(WronglyDefined(i));
        }
        i := i + 1;
      }

      assert ParseMissionsUpTo(store, LoopBound(store)) == Ok(Catalogue(missions, entityActionVector));
      r := Ok(AutonomyOptions(watchdogTimeoutMs, watchdogStartupTime, missions, entityActionVector));
      opts := Some(r.value);
    }

    /**
     * The mission selection of `userInterface`, with the operator's input as
     * a parameter: records the id and reports whether it passes the check.
     */
    method UserInterface(input: int32) returns (accepted: bool)
      requires opts.Some?
      modifies this`missionId
      ensures missionId == input
      ensures accepted == MissionIdAccepted(input, |opts.value.missions|)
    {
      missionId := input;
      accepted := MissionIdAccepted(missionId, |opts.value.missions|);
    }
  }
}
