/**
 * Decoding of one `entities_actions` item, `[<entity name>, <action name>]`,
 * into the monitored entity and the state the autonomy moves to when that
 * entity fails.
 */
module EntityActions {
  import opened Wrappers
  import opened RosParams

  /** The monitored entities the configuration can name. */
  datatype Entity =
    | Px4Gps | Px4Bar | Px4Mag | MissionCam | Realsense | Lsm9ds1 | Lrf | RtkGps1 | RtkGps2

  /** The next states an `entities_actions` item can request. */
  datatype NextState = Nominal | Hold | Manual

  /** The configuration name of each entity. */
  function EntityName(e: Entity): string
  {
    match e
    case Px4Gps => "px4_gps"
    case Px4Bar => "px4_bar"
    case Px4Mag => "px4_mag"
    case MissionCam => "mission_cam"
    case Realsense => "realsense"
    case Lsm9ds1 => "lsm9ds1"
    case Lrf => "lrf"
    case RtkGps1 => "rtk_gps_1"
    case RtkGps2 => "rtk_gps_2"
  }

  /** The configuration name of each next state. */
  function ActionName(a: NextState): string
  {
    match a
    case Nominal => "continue"
    case Hold => "hold"
    case Manual => "manual"
  }

  /**
   * The comparison chain of the decoder: the names are tried in order and
   * the first equal one decides the result.
   */
  function Lookup<T>(table: seq<(string, T)>, s: string): Option<T>
  {
    if table == [] then None
    else if table[0].0 == s then Some(table[0].1)
    else Lookup(table[1..], s)
  }

  /** The entity names, in the order the decoder compares element 0 against them. */
  const EntityTable: seq<(string, Entity)> := [
    ("px4_gps", Px4Gps), ("px4_bar", Px4Bar), ("px4_mag", Px4Mag),
    ("mission_cam", MissionCam), ("realsense", Realsense), ("lsm9ds1", Lsm9ds1),
    ("lrf", Lrf), ("rtk_gps_1", RtkGps1), ("rtk_gps_2", RtkGps2)]

  /** The action names, in the order the decoder compares element 1 against them. */
  const ActionTable: seq<(string, NextState)> := [("continue", Nominal), ("hold", Hold), ("manual", Manual)]

  /** Element 0 of an item: a string equal to one of the nine entity names gives that entity. */
  function EntityOf(v: XmlRpcValue): Option<Entity>
  {
    if v.Str? then Lookup(EntityTable, v.s) else None
  }

  /** Element 1 of an item: "continue", "hold" and "manual" are the only accepted actions. */
  function ActionOf(v: XmlRpcValue): Option<NextState>
  {
    if v.Str? then Lookup(ActionTable, v.s) else None
  }

  /** What the lookup finds is a row of the table, and a key of no row finds nothing. */
  lemma {:induction false} LookupFindsRow<T>(table: seq<(string, T)>, s: string)
    ensures Lookup(table, s).Some? ==> (s, Lookup(table, s).value) in table
    ensures Lookup(table, s).None? ==> forall p :: p in table ==> p.0 != s
    decreases |table|
  {
    if table != [] && table[0].0 != s {
      LookupFindsRow(table[1..], s);
      assert forall p :: p in table ==> p == table[0] || p in table[1..];
    }
  }

  /** Every row of the entity table pairs an entity with its name, and every entity has a row. */
  lemma EntityTableRows()
    ensures forall p :: p in EntityTable ==> p.0 == EntityName(p.1)
    ensures forall e :: (EntityName(e), e) in EntityTable
  {
    forall e ensures (EntityName(e), e) in EntityTable {
      match e
      case Px4Gps => assert EntityTable[0] == (EntityName(e), e);
      case Px4Bar => assert EntityTable[1] == (EntityName(e), e);
      case Px4Mag => assert EntityTable[2] == (EntityName(e), e);
      case MissionCam => assert EntityTable[3] == (EntityName(e), e);
      case Realsense => assert EntityTable[4] == (EntityName(e), e);
      case Lsm9ds1 => assert EntityTable[5] == (EntityName(e), e);
      case Lrf => assert EntityTable[6] == (EntityName(e), e);
      case RtkGps1 => assert EntityTable[7] == (EntityName(e), e);
      case RtkGps2 => assert EntityTable[8] == (EntityName(e), e);
    }
  }

  /** Every row of the action table pairs a next state with its name, and every next state has a row. */
  lemma ActionTableRows()
    ensures forall p :: p in ActionTable ==> p.0 == ActionName(p.1)
    ensures forall a :: (ActionName(a), a) in ActionTable
  {
    forall a ensures (ActionName(a), a) in ActionTable {
      match a
      case Nominal => assert ActionTable[0] == (ActionName(a), a);
      case Hold => assert ActionTable[1] == (ActionName(a), a);
      case Manual => assert ActionTable[2] == (ActionName(a), a);
    }
  }

  /**
   * Element 0 decodes to an entity exactly when it is that entity's name;
   * any other string, and any non-string, decodes to nothing.
   */
  lemma EntityOfNames(v: XmlRpcValue)
    ensures EntityOf(v).Some? ==> v == Str(EntityName(EntityOf(v).value))
    ensures EntityOf(v).None? ==> forall e :: v != Str(EntityName(e))
  {
    EntityTableRows();
    if v.Str? {
      LookupFindsRow(EntityTable, v.s);
    }
  }

  /**
   * Element 1 decodes to a next state exactly when it is that state's name;
   * any other string (such as "land"), and any non-string, decodes to nothing.
   */
  lemma ActionOfNames(v: XmlRpcValue)
    ensures ActionOf(v).Some? ==> v == Str(ActionName(ActionOf(v).value))
    ensures ActionOf(v).None? ==> forall a :: v != Str(ActionName(a))
  {
    ActionTableRows();
    if v.Str? {
      LookupFindsRow(ActionTable, v.s);
    }
  }

  /** Each entity name decodes to its own entity, so no two entities share a name. */
  lemma EntityNameRoundTrip(e: Entity)
    ensures EntityOf(Str(EntityName(e))) == Some(e)
  {
    EntityOfNames(Str(EntityName(e)));
  }

  /** Each action name decodes to its own next state. */
  lemma ActionNameRoundTrip(a: NextState)
    ensures ActionOf(Str(ActionName(a))) == Some(a)
  {
    ActionOfNames(Str(ActionName(a)));
  }

  /**
   * What a well-formed item means: an array whose first element names an
   * entity and whose second names an action; further elements are ignored.
   */
  function DecodeEntityAction(v: XmlRpcValue): Option<(Entity, NextState)>
  {
    if v.Arr? && |v.elems| >= 2 && EntityOf(v.elems[0]).Some? && ActionOf(v.elems[1]).Some?
    then Some((EntityOf(v.elems[0]).value, ActionOf(v.elems[1]).value))
    else None
  }

  /**
   * An item on which the decoder indexes past the end of the array: XmlRpc's
   * read-only `operator[]` throws instead of returning.
   */
  predicate AccessOutOfRange(v: XmlRpcValue)
  {
    v.Arr? && (|v.elems| == 0 || (|v.elems| == 1 && EntityOf(v.elems[0]).Some?))
  }

  /** How the configuration writes an item: `[<entity name>, <action name>]`. */
  function EncodeEntityAction(e: Entity, a: NextState): (v: XmlRpcValue)
    ensures DecodeEntityAction(v) == Some((e, a))
    ensures forall extra :: DecodeEntityAction(Arr(v.elems + extra)) == Some((e, a))
  {
    EntityNameRoundTrip(e);
    ActionNameRoundTrip(a);
    Arr([Str(EntityName(e)), Str(ActionName(a))])
  }

  /**
   * The outcome of `getEntityAction(entity_action, entity, action)`: the
   * boolean it returns together with the final values of its two reference
   * parameters, or the exception XmlRpc throws on an out-of-range index.
   */
  datatype EntityActionCall = Returned(ok: bool, entity: Entity, action: NextState) | Threw

  /**
   * `getEntityAction`. The entity parameter is written as soon as element 0
   * is recognised, before element 1 is looked at, so a rejected action leaves
   * the entity overwritten and the action as it was.
   */
  function GetEntityAction(v: XmlRpcValue, entity: Entity, action: NextState): (r: EntityActionCall)
    ensures r.Threw? <==> AccessOutOfRange(v)
    ensures r.Returned? ==> (r.ok <==> DecodeEntityAction(v).Some?)
    ensures r.Returned? && r.ok ==> DecodeEntityAction(v) == Some((r.entity, r.action))
    ensures r.Returned? && !r.ok ==> r.action == action
    ensures r.Returned? && !r.ok && r.entity != entity ==> v.Arr? && EntityOf(v.elems[0]) == Some(r.entity)
    ensures r.Returned? && !r.ok && v.Arr? && |v.elems| > 0 && EntityOf(v.elems[0]).Some? ==>
              r.entity == EntityOf(v.elems[0]).value
  {
    if v.Arr? then
      if |v.elems| == 0 then Threw
      else match EntityOf(v.elems[0])
        case None => Returned(false, entity, action)
        case Some(e) =>
          if |v.elems| == 1 then Threw
          else match ActionOf(v.elems[1])
            case None => Returned(false, e, action)
            case Some(a) => Returned(true, e, a)
    else
      Returned(false, entity, action)
  }
}
