/**
 * Properties of the configuration `parseParams` accepts: when it succeeds,
 * which error it reports otherwise, and what the catalogue and the policy
 * list contain, in which order.
 */
module ConfigurationProperties {
  import opened Wrappers
  import opened RosParams
  import opened EntityActions
  import opened Configuration

  /** The policy items of mission `i`, in the order they appear in `s`. */
  function EntriesOfMission(s: seq<MissionEntityAction>, i: int): seq<(Entity, NextState)>
  {
    if s == [] then []
    else
      var last := s[|s| - 1];
      EntriesOfMission(s[..|s| - 1], i) + (if last.mission == i then [(last.entity, last.action)] else [])
  }

  /** Items appear grouped by mission, in ascending mission id. */
  ghost predicate SortedByMission(s: seq<MissionEntityAction>)
  {
    forall p, q :: 0 <= p < q < |s| ==> s[p].mission <= s[q].mission
  }

  /** Every item belongs to one of the missions 1..k. */
  ghost predicate MissionsWithin(s: seq<MissionEntityAction>, k: int)
  {
    forall p :: 0 <= p < |s| ==> 1 <= s[p].mission <= k
  }

  /** The length of mission `i`'s `entities_actions` list, 0 when it is not an array. */
  function ListLength(store: ParamStore, i: int): nat
  {
    if EntitiesActions(i) in store && store[EntitiesActions(i)].Arr? then |store[EntitiesActions(i)].elems| else 0
  }

  /** The total length of the lists of missions 1..k. */
  function SumListLengths(store: ParamStore, k: nat): nat
  {
    if k == 0 then 0 else SumListLengths(store, k - 1) + ListLength(store, k)
  }

  // ----- the list of one mission -----

  /** The first n items are accepted exactly when each of them decodes, and then they are decoded in order. */
  lemma {:induction false} DecodeEntriesOk(items: seq<XmlRpcValue>, n: nat)
    requires n <= |items|
    ensures DecodeEntries(items, n).Ok? <==> forall j :: 0 <= j < n ==> DecodeEntityAction(items[j]).Some?
    ensures DecodeEntries(items, n).Ok? ==>
      forall j :: 0 <= j < n ==> DecodeEntityAction(items[j]) == Some(DecodeEntries(items, n).value[j])
  {
    if n > 0 {
      DecodeEntriesOk(items, n - 1);
    }
  }

  /** Once the first j items are rejected, the first n >= j are rejected for the same reason. */
  lemma {:induction false} DecodeEntriesPrefixErr(items: seq<XmlRpcValue>, j: nat, n: nat)
    requires j <= n <= |items|
    requires DecodeEntries(items, j).Err?
    ensures DecodeEntries(items, n) == DecodeEntries(items, j)
  {
    if j < n {
      DecodeEntriesPrefixErr(items, j, n - 1);
    }
  }

  /** A rejected list is rejected because of its first item that does not decode. */
  lemma {:induction false} DecodeEntriesFirstFault(items: seq<XmlRpcValue>, n: nat)
    requires n <= |items|
    requires DecodeEntries(items, n).Err?
    ensures exists j :: (0 <= j < n && DecodeEntityAction(items[j]).None? &&
      DecodeEntries(items, n).error == FaultOf(items[j]) &&
      forall k :: 0 <= k < j ==> DecodeEntityAction(items[k]).Some?)
  {
    if DecodeEntries(items, n - 1).Err? {
      DecodeEntriesFirstFault(items, n - 1);
    } else {
      DecodeEntriesOk(items, n - 1);
      assert DecodeEntityAction(items[n - 1]).None?;
    }
  }

  /** An item that does not decode, after well-formed ones, decides the whole list's fault. */
  lemma DecodeEntriesRejectedAt(items: seq<XmlRpcValue>, j: nat)
    requires j < |items|
    requires DecodeEntries(items, j).Ok?
    requires DecodeEntityAction(items[j]).None?
    ensures DecodeEntries(items, |items|) == Err(FaultOf(items[j]))
  {
    DecodeEntriesPrefixErr(items, j + 1, |items|);
  }

  /** Decoding one more well-formed item appends its pair, tagged with the mission id, to the tagged items. */
  lemma DecodeEntriesStep(i: int, items: seq<XmlRpcValue>, j: nat)
    requires j < |items|
    requires DecodeEntries(items, j).Ok?
    requires DecodeEntityAction(items[j]).Some?
    ensures DecodeEntries(items, j + 1).Ok?
    ensures var p := DecodeEntityAction(items[j]).value;
      Tag(i, DecodeEntries(items, j + 1).value) == Tag(i, DecodeEntries(items, j).value) + [MissionEntityAction(i, p.0, p.1)]
  {
  }

  // ----- the mission loop -----

  /** Once the missions 1..k are rejected, every longer loop is rejected for the same reason. */
  lemma {:induction false} MissionsUpToPrefixErr(store: ParamStore, k: nat, m: nat)
    requires k <= m
    requires ParseMissionsUpTo(store, k).Err?
    ensures ParseMissionsUpTo(store, m) == ParseMissionsUpTo(store, k)
    decreases m
  {
    if k < m {
      MissionsUpToPrefixErr(store, k, m - 1);
    }
  }

  /** Missions 1..k are accepted exactly when each of them is. */
  lemma {:induction false} MissionsUpToOkIff(store: ParamStore, k: nat)
    ensures ParseMissionsUpTo(store, k).Ok? <==> forall i :: 1 <= i <= k ==> ParseMission(store, i).Ok?
    decreases k
  {
    if k > 0 {
      MissionsUpToOkIff(store, k - 1);
    }
  }

  /** The error reported is that of the first mission that fails; all missions before it are accepted. */
  lemma {:induction false} MissionsUpToFirstError(store: ParamStore, k: nat)
    requires ParseMissionsUpTo(store, k).Err?
    ensures var e := ParseMissionsUpTo(store, k).error;
      1 <= e.mission <= k && ParseMission(store, e.mission) == Err(e) &&
      forall j :: 1 <= j < e.mission ==> ParseMission(store, j).Ok?
    decreases k
  {
    if ParseMissionsUpTo(store, k - 1).Err? {
      MissionsUpToFirstError(store, k - 1);
    } else {
      MissionsUpToOkIff(store, k - 1);
    }
  }

  /** On success the catalogue maps exactly the ids 1..k, each to its mission's description. */
  lemma {:induction false} MissionsUpToCatalogue(store: ParamStore, k: nat)
    requires ParseMissionsUpTo(store, k).Ok?
    ensures var c := ParseMissionsUpTo(store, k).value;
      (forall i :: i in c.missions <==> 1 <= i <= k) && |c.missions| == k &&
      forall i :: 1 <= i <= k ==> ParseMission(store, i).Ok? && c.missions[i] == ParseMission(store, i).value.description
    decreases k
  {
    if k > 0 {
      MissionsUpToCatalogue(store, k - 1);
      var prev := ParseMissionsUpTo(store, k - 1).value;
      assert k !in prev.missions;
    }
  }

  /** Projecting a concatenation onto one mission concatenates the projections. */
  lemma {:induction false} EntriesOfMissionAppend(a: seq<MissionEntityAction>, b: seq<MissionEntityAction>, i: int)
    ensures EntriesOfMission(a + b, i) == EntriesOfMission(a, i) + EntriesOfMission(b, i)
    decreases |b|
  {
    if b == [] {
      assert a + b == a;
    } else {
      var binit := b[..|b| - 1];
      assert (a + b)[..|a + b| - 1] == a + binit;
      EntriesOfMissionAppend(a, binit, i);
    }
  }

  /** A mission's tagged items project back to its decoded list, and to nothing for any other id. */
  lemma {:induction false} EntriesOfMissionTag(k: int, pairs: seq<(Entity, NextState)>, i: int)
    ensures EntriesOfMission(Tag(k, pairs), i) == if i == k then pairs else []
    decreases |pairs|
  {
    if pairs != [] {
      var init := pairs[..|pairs| - 1];
      assert Tag(k, pairs)[..|pairs| - 1] == Tag(k, init);
      EntriesOfMissionTag(k, init, i);
    }
  }

  /** Items of other missions project to nothing. */
  lemma {:induction false} EntriesOfMissionAbsent(s: seq<MissionEntityAction>, i: int)
    requires forall p :: 0 <= p < |s| ==> s[p].mission != i
    ensures EntriesOfMission(s, i) == []
    decreases |s|
  {
    if s != [] {
      EntriesOfMissionAbsent(s[..|s| - 1], i);
    }
  }

  /** On success the policy list holds the missions 1..k in ascending id order. */
  lemma {:induction false} MissionsUpToSorted(store: ParamStore, k: nat)
    requires ParseMissionsUpTo(store, k).Ok?
    ensures var s := ParseMissionsUpTo(store, k).value.entityActions;
      SortedByMission(s) && MissionsWithin(s, k)
    decreases k
  {
    if k > 0 {
      MissionsUpToSorted(store, k - 1);
      var prev := ParseMissionsUpTo(store, k - 1).value.entityActions;
      var tagged := Tag(k, ParseMission(store, k).value.entries);
      var s := prev + tagged;
      assert s == ParseMissionsUpTo(store, k).value.entityActions;
      forall p, q | 0 <= p < q < |s| ensures s[p].mission <= s[q].mission {
        if q >= |prev| {
          assert s[q] == tagged[q - |prev|];
          if p < |prev| {
            assert s[p] == prev[p];
          }
        } else {
          assert s[p] == prev[p] && s[q] == prev[q];
        }
      }
      forall p | 0 <= p < |s| ensures 1 <= s[p].mission <= k {
        if p >= |prev| {
          assert s[p] == tagged[p - |prev|];
        } else {
          assert s[p] == prev[p];
        }
      }
    }
  }

  /** On success the policy list is as long as all the missions' lists together. */
  lemma {:induction false} MissionsUpToLength(store: ParamStore, k: nat)
    requires ParseMissionsUpTo(store, k).Ok?
    ensures |ParseMissionsUpTo(store, k).value.entityActions| == SumListLengths(store, k)
    decreases k
  {
    if k > 0 {
      MissionsUpToLength(store, k - 1);
      var m := ParseMission(store, k).value;
      ParseMissionEntries(store, k);
      assert |Tag(k, m.entries)| == ListLength(store, k);
    }
  }

  /** An accepted loop over 1..k extends the accepted loop over 1..k-1 by mission k's tagged items. */
  lemma MissionsUpToStep(store: ParamStore, k: nat)
    requires k > 0
    requires ParseMissionsUpTo(store, k).Ok?
    ensures ParseMissionsUpTo(store, k - 1).Ok? && ParseMission(store, k).Ok?
    ensures ParseMissionsUpTo(store, k).value.entityActions ==
      ParseMissionsUpTo(store, k - 1).value.entityActions + Tag(k, ParseMission(store, k).value.entries)
  {
  }

  /** On success mission i's items in the policy list are its decoded list, in list order. */
  lemma {:induction false} MissionsUpToEntries(store: ParamStore, k: nat, i: int)
    requires ParseMissionsUpTo(store, k).Ok?
    requires 1 <= i <= k
    ensures ParseMission(store, i).Ok?
    ensures EntriesOfMission(ParseMissionsUpTo(store, k).value.entityActions, i) == ParseMission(store, i).value.entries
    decreases k
  {
    MissionsUpToStep(store, k);
    var prev := ParseMissionsUpTo(store, k - 1).value.entityActions;
    var m := ParseMission(store, k).value;
    var tagged := Tag(k, m.entries);
    EntriesOfMissionAppend(prev, tagged, i);
    EntriesOfMissionTag(k, m.entries, i);
    if i == k {
      MissionsUpToSorted(store, k - 1);
      EntriesOfMissionAbsent(prev, k);
    } else {
      MissionsUpToEntries(store, k - 1, i);
    }
  }

  // ----- the whole configuration -----

  /** The number of passes of the mission loop: the count, or none for a negative count. */
  function LoopBound(store: ParamStore): nat
  {
    var n := MissionCount(store);
    if n < 0 then 0 else n as int
  }

  /** An accepted mission's items are the decoded items of its list, in list order. */
  lemma ParseMissionEntries(store: ParamStore, i: int)
    requires ParseMission(store, i).Ok?
    ensures EntitiesActions(i) in store && store[EntitiesActions(i)].Arr?
    ensures var items := store[EntitiesActions(i)].elems; var entries := ParseMission(store, i).value.entries;
      |entries| == |items| && forall j :: 0 <= j < |items| ==> DecodeEntityAction(items[j]) == Some(entries[j])
  {
    var items := store[EntitiesActions(i)].elems;
    DecodeEntriesOk(items, |items|);
  }

  /** Item j is the first item of the list that does not decode. */
  predicate FirstUndecodable(items: seq<XmlRpcValue>, j: int)
  {
    0 <= j < |items| && DecodeEntityAction(items[j]).None? &&
    forall k :: 0 <= k < j ==> DecodeEntityAction(items[k]).Some?
  }

  /** A list has at most one first undecodable item. */
  lemma FirstUndecodableUnique(items: seq<XmlRpcValue>, j: int, k: int)
    requires FirstUndecodable(items, j) && FirstUndecodable(items, k)
    ensures j == k
  {
  }

  /** A list is rejected with fault f exactly when its first undecodable item causes f. */
  lemma DecodeEntriesFaultIff(items: seq<XmlRpcValue>, f: EntryFault)
    ensures DecodeEntries(items, |items|) == Err(f) <==>
      exists j :: FirstUndecodable(items, j) && FaultOf(items[j]) == f
  {
    var r := DecodeEntries(items, |items|);
    if r.Err? {
      DecodeEntriesFirstFault(items, |items|);
      var j0 :| 0 <= j0 < |items| && DecodeEntityAction(items[j0]).None? && r.error == FaultOf(items[j0]) &&
        forall k :: 0 <= k < j0 ==> DecodeEntityAction(items[k]).Some?;
      assert FirstUndecodable(items, j0);
      forall j | FirstUndecodable(items, j) ensures FaultOf(items[j]) == r.error {
        FirstUndecodableUnique(items, j, j0);
      }
    } else {
      DecodeEntriesOk(items, |items|);
    }
  }

  /**
   * A mission is accepted exactly when its description is a string, its
   * `entities_actions` is present and an array, and every item decodes.
   */
  lemma ParseMissionOk(store: ParamStore, i: int)
    ensures ParseMission(store, i).Ok? <==>
      GetString(store, Description(i)).Some? && EntitiesActions(i) in store && store[EntitiesActions(i)].Arr? &&
      forall j :: 0 <= j < |store[EntitiesActions(i)].elems| ==> DecodeEntityAction(store[EntitiesActions(i)].elems[j]).Some?
  {
    if EntitiesActions(i) in store && store[EntitiesActions(i)].Arr? {
      var items := store[EntitiesActions(i)].elems;
      DecodeEntriesOk(items, |items|);
    }
  }

  /**
   * Which check rejects a mission: a description that is not a string, then
   * a missing `entities_actions`, then a list that is not an array or whose
   * first undecodable item is wrongly shaped, or else one on which the
   * decoder indexes past the end.
   */
  lemma ParseMissionErrors(store: ParamStore, i: int)
    ensures ParseMission(store, i) == Err(MissingDescription(i)) <==> GetString(store, Description(i)).None?
    ensures ParseMission(store, i) == Err(MissingEntitiesActions(i)) <==>
      GetString(store, Description(i)).Some? && EntitiesActions(i) !in store
    ensures ParseMission(store, i) == Err(WronglyDefined(i)) <==>
      GetString(store, Description(i)).Some? && EntitiesActions(i) in store &&
      (!store[EntitiesActions(i)].Arr? ||
       exists j :: FirstUndecodable(store[EntitiesActions(i)].elems, j) && !AccessOutOfRange(store[EntitiesActions(i)].elems[j]))
    ensures ParseMission(store, i) == Err(IndexOutOfRange(i)) <==>
      GetString(store, Description(i)).Some? && EntitiesActions(i) in store && store[EntitiesActions(i)].Arr? &&
      exists j :: FirstUndecodable(store[EntitiesActions(i)].elems, j) && AccessOutOfRange(store[EntitiesActions(i)].elems[j])
  {
    if EntitiesActions(i) in store && store[EntitiesActions(i)].Arr? {
      var items := store[EntitiesActions(i)].elems;
      DecodeEntriesFaultIff(items, Malformed);
      DecodeEntriesFaultIff(items, OutOfRange);
    }
  }

  /** A mission that fails after missions 1..i-1 were accepted decides the configuration's error. */
  lemma ConfigRejectedAt(store: ParamStore, i: int, e: ParseError)
    requires RateConfigured(store)
    requires MissionCount(store) != 0
    requires 1 <= i <= LoopBound(store)
    requires ParseMissionsUpTo(store, i - 1).Ok?
    requires ParseMission(store, i) == Err(e)
    ensures ParseConfig(store) == Err(e)
  {
    MissionsUpToPrefixErr(store, i, LoopBound(store));
  }

  /** An accepted configuration carries the catalogue built by the mission loop. */
  lemma ConfigCatalogue(store: ParamStore)
    requires RateConfigured(store)
    requires ParseConfig(store).Ok?
    ensures ParseMissionsUpTo(store, LoopBound(store)) ==
      Ok(Catalogue(ParseConfig(store).value.missions, ParseConfig(store).value.entityActions))
  {
  }

  /**
   * A configuration is accepted exactly when the mission count is not 0 and
   * every mission 1..count is well formed (none, for a negative count).
   */
  lemma ConfigAccepted(store: ParamStore)
    requires RateConfigured(store)
    ensures ParseConfig(store).Ok? <==>
      MissionCount(store) != 0 && forall i :: 1 <= i <= MissionCount(store) as int ==> ParseMission(store, i).Ok?
  {
    MissionsUpToOkIff(store, LoopBound(store));
  }

  /**
   * A rejected configuration with missions is rejected by its first
   * malformed mission; every mission before it is well formed.
   */
  lemma ConfigFirstError(store: ParamStore)
    requires RateConfigured(store)
    requires ParseConfig(store).Err? && ParseConfig(store).error != NoMissions
    ensures var e := ParseConfig(store).error;
      1 <= e.mission <= MissionCount(store) as int && ParseMission(store, e.mission) == Err(e) &&
      forall j :: 1 <= j < e.mission ==> ParseMission(store, j).Ok?
  {
    assert ParseMissionsUpTo(store, LoopBound(store)) == Err(ParseConfig(store).error);
    MissionsUpToFirstError(store, LoopBound(store));
  }

  /** An accepted configuration lists exactly the missions 1..count, with their descriptions. */
  lemma ConfigMissions(store: ParamStore)
    requires RateConfigured(store)
    requires ParseConfig(store).Ok?
    ensures var n := MissionCount(store) as int; var missions := ParseConfig(store).value.missions;
      (forall i :: i in missions <==> 1 <= i <= n) && |missions| == LoopBound(store) &&
      forall i :: 1 <= i <= n ==> Description(i) in store && store[Description(i)] == Str(missions[i])
  {
    var k := LoopBound(store);
    var missions := ParseConfig(store).value.missions;
    ConfigCatalogue(store);
    MissionsUpToCatalogue(store, k);
    assert missions == ParseMissionsUpTo(store, k).value.missions;
    forall i | 1 <= i <= MissionCount(store) as int
      ensures Description(i) in store && store[Description(i)] == Str(missions[i])
    {
      assert missions[i] == ParseMission(store, i).value.description;
    }
  }

  /**
   * An accepted configuration's policy list is grouped by mission in
   * ascending id order and is as long as all the lists together; mission i's
   * items are the decoded items of its list, in list order.
   */
  lemma ConfigEntityActions(store: ParamStore)
    requires RateConfigured(store)
    requires ParseConfig(store).Ok?
    ensures var n := MissionCount(store) as int; var s := ParseConfig(store).value.entityActions;
      SortedByMission(s) && MissionsWithin(s, n) && |s| == SumListLengths(store, LoopBound(store)) &&
      forall i :: 1 <= i <= n ==>
        EntitiesActions(i) in store && store[EntitiesActions(i)].Arr? &&
        var items := store[EntitiesActions(i)].elems;
        |EntriesOfMission(s, i)| == |items| &&
        forall j :: 0 <= j < |items| ==> DecodeEntityAction(items[j]) == Some(EntriesOfMission(s, i)[j])
  {
    var k := LoopBound(store);
    var s := ParseConfig(store).value.entityActions;
    ConfigCatalogue(store);
    assert s == ParseMissionsUpTo(store, k).value.entityActions;
    MissionsUpToSorted(store, k);
    MissionsUpToLength(store, k);
    forall i | 1 <= i <= MissionCount(store) as int
      ensures EntitiesActions(i) in store && store[EntitiesActions(i)].Arr?
      ensures var items := store[EntitiesActions(i)].elems;
        |EntriesOfMission(s, i)| == |items| &&
        forall j :: 0 <= j < |items| ==> DecodeEntityAction(items[j]) == Some(EntriesOfMission(s, i)[j])
    {
      MissionsUpToEntries(store, k, i);
      ParseMissionEntries(store, i);
    }
  }
}
