/**
 * The ROS parameter server as the autonomy node sees it: a finite map from the
 * parameter names it reads to XmlRpc values.
 */
module RosParams {
  import opened Wrappers

  /** The C++ `int` of the node and of XmlRpc integers. */
  newtype int32 = x: int | -0x8000_0000 <= x < 0x8000_0000

  /**
   * An XmlRpc::XmlRpcValue, restricted to the kinds the node inspects:
   * strings, arrays and integers. Every other kind (double, boolean,
   * struct, date, base64) is `Other`.
   */
  datatype XmlRpcValue = Str(s: string) | Arr(elems: seq<XmlRpcValue>) | Int(n: int32) | Other

  /**
   * The parameter names read by the node: `watchdog_rate`,
   * `watchdog_startup_time_s`, `missions/number`,
   * `missions/mission_<i>/description` and `missions/mission_<i>/entities_actions`.
   */
  datatype ParamKey =
    | WatchdogRate
    | WatchdogStartupTime
    | MissionsNumber
    | Description(mission: int)
    | EntitiesActions(mission: int)

  type ParamStore = map<ParamKey, XmlRpcValue>

  /** `getParam(key, int&)`: succeeds only for a present integer parameter. */
  function GetInt(store: ParamStore, key: ParamKey): Option<int32>
  {
    if key in store && store[key].Int? then Some(store[key].n) else None
  }

  /** `param<int>(key, out, default)`: the integer parameter, or the default. */
  function ParamOr(store: ParamStore, key: ParamKey, default: int32): int32
  {
    match GetInt(store, key)
    case Some(n) => n
    case None => default
  }

  /** `getParam(key, std::string&)`: succeeds only for a present string parameter. */
  function GetString(store: ParamStore, key: ParamKey): Option<string>
  {
    if key in store && store[key].Str? then Some(store[key].s) else None
  }
}
