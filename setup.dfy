/** Setting up and unloading a config entry (`__init__.py`): the catalog the
    entry's runtime data holds, built in loops over the fetched records, and
    the conditions of unloading. */
module Setup {
  import opened Wrappers
  import opened JsonValue
  import opened Data
  import Text
  import Api
  import Coordinator

  /** What setup computes: the runtime data and the total action count it
      logs. */
  datatype Catalog = Catalog(data: NavirecData, totalActions: nat)

  // ---------------------------------------------------------------------
  // Account name

  /** The account-name loop: the first account whose `id` is the configured
      id gives its name, or the id when the name is empty; the id itself
      when none does. An account that is not an object raises. */
  function AccountName(accounts: seq<Json>, accountId: string): (r: Result<string, Api.ApiError>)
    ensures NoneMatch(accounts, accountId) ==> r == Ok(accountId)
    ensures r.Ok? ==> r.value != "" || accountId == ""
    ensures r.Err? ==> r.error.OtherError?
    ensures r.Err? ==> exists i :: 0 <= i < |accounts| && !accounts[i].JObj? && NoneMatch(accounts[..i], accountId)
    decreases |accounts|
  {
    if accounts == [] then Ok(accountId)
    else if !accounts[0].JObj? then
      assert NoneMatch(accounts[..0], accountId);
      Err(Api.OtherError("object has no attribute 'get'"))
    else if Get(accounts[0].fields, "id", JNull) == JStr(accountId) then
      Ok(NameOr(Get(accounts[0].fields, "name", JNull), accountId))
    else
      var r := AccountName(accounts[1..], accountId);
      assert forall i :: 1 <= i < |accounts| ==> accounts[i] == accounts[1..][i - 1];
      if r.Err? then
        var i :| 0 <= i < |accounts[1..]| && !accounts[1..][i].JObj? && NoneMatch(accounts[1..][..i], accountId);
        assert NoneMatch(accounts[..i + 1], accountId);
        r
      else
        r
  }

  /** Every account is an object without the configured id. */
  predicate NoneMatch(accounts: seq<Json>, accountId: string)
  {
    forall i :: 0 <= i < |accounts| ==> accounts[i].JObj? && Get(accounts[i].fields, "id", JNull) != JStr(accountId)
  }

  /** `acc.get("name") or account_id` for a string name. */
  function NameOr(name: Json, accountId: string): (r: string)
    ensures name.JStr? && name.s != "" ==> r == name.s
    ensures !(name.JStr? && name.s != "") ==> r == accountId
  {
    if name.JStr? && name.s != "" then name.s else accountId
  }

  /** A matching account with a name gives that name, whatever follows it. */
  lemma {:induction false} AccountNameFirstMatch(accounts: seq<Json>, accountId: string, k: nat)
    requires k < |accounts| && accounts[k].JObj? && Get(accounts[k].fields, "id", JNull) == JStr(accountId)
    requires forall j :: 0 <= j < k ==> accounts[j].JObj? && Get(accounts[j].fields, "id", JNull) != JStr(accountId)
    ensures AccountName(accounts, accountId) == Ok(NameOr(Get(accounts[k].fields, "name", JNull), accountId))
    decreases k
  {
    if k > 0 {
      assert accounts[1..][k - 1] == accounts[k];
      assert forall j :: 0 <= j < k - 1 ==> accounts[1..][j] == accounts[j + 1];
      AccountNameFirstMatch(accounts[1..], accountId, k - 1);
    }
  }

  // ---------------------------------------------------------------------
  // Indexes keyed by id: later records overwrite earlier ones

  /** A dictionary filled in a loop with `d[key] = x` for every record that
      has a key. */
  function Index<T>(xs: seq<T>, key: T -> Option<string>): (m: map<string, T>)
    ensures forall k :: k in m ==> key(m[k]) == Some(k)
    decreases |xs|
  {
    if xs == [] then map[]
    else
      var m := Index(xs[..|xs| - 1], key);
      var x := xs[|xs| - 1];
      if key(x).Some? then m[key(x).value := x] else m
  }

  /** The index holds exactly the keys of the records, each bound to the last
      record with that key. */
  lemma {:induction false} IndexLastWins<T>(xs: seq<T>, key: T -> Option<string>, k: string)
    ensures k in Index(xs, key) <==> exists i :: 0 <= i < |xs| && key(xs[i]) == Some(k)
    ensures k in Index(xs, key) ==>
      exists i :: 0 <= i < |xs| && key(xs[i]) == Some(k) && Index(xs, key)[k] == xs[i]
                  && forall j :: i < j < |xs| ==> key(xs[j]) != Some(k)
    decreases |xs|
  {
    if xs != [] {
      var init := xs[..|xs| - 1];
      IndexLastWins(init, key, k);
      assert forall i :: 0 <= i < |init| ==> init[i] == xs[i];
      if key(xs[|xs| - 1]) != Some(k) && k in Index(xs, key) {
        var i :| 0 <= i < |init| && key(init[i]) == Some(k) && Index(init, key)[k] == init[i]
                 && forall j :: i < j < |init| ==> key(init[j]) != Some(k);
        assert forall j :: i < j < |xs| ==> key(xs[j]) != Some(k);
      }
    }
  }

  /** `str(vehicle.id)` for a vehicle with a truthy id. */
  function VehicleKey(v: Vehicle): Option<string>
  {
    if Text.Present(v.id) then v.id else None
  }

  function SensorKey(s: Sensor): Option<string>
  {
    if Text.Present(s.id) then s.id else None
  }

  function InterpretationKey(i: Interpretation): Option<string>
  {
    if Text.Present(i.key) then i.key else None
  }

  // ---------------------------------------------------------------------
  // Grouping by vehicle: lists in input order, only for known vehicles

  /** A `defaultdict(list)` filled with `d[key].append(x)` for every record
      that has a key. */
  function Group<T>(xs: seq<T>, key: T -> Option<string>): (m: map<string, seq<T>>)
    ensures forall k :: k in m ==> m[k] != []
    decreases |xs|
  {
    if xs == [] then map[]
    else
      var m := Group(xs[..|xs| - 1], key);
      var x := xs[|xs| - 1];
      if key(x).Some? then m[key(x).value := (if key(x).value in m then m[key(x).value] else []) + [x]] else m
  }

  /** The records with the given key, in input order. */
  function Having<T>(xs: seq<T>, key: T -> Option<string>, k: string): (r: seq<T>)
    ensures forall i :: 0 <= i < |r| ==> key(r[i]) == Some(k)
    decreases |xs|
  {
    if xs == [] then []
    else
      var r := Having(xs[..|xs| - 1], key, k);
      if key(xs[|xs| - 1]) == Some(k) then r + [xs[|xs| - 1]] else r
  }

  /** The records that have a key, in input order. */
  function Kept<T>(xs: seq<T>, key: T -> Option<string>): seq<T>
    decreases |xs|
  {
    if xs == [] then []
    else
      var r := Kept(xs[..|xs| - 1], key);
      if key(xs[|xs| - 1]).Some? then r + [xs[|xs| - 1]] else r
  }

  /** Each group is the list of the records with its key, in input order, and
      a key has a group exactly when some record has it. */
  lemma {:induction false} GroupIsFilter<T>(xs: seq<T>, key: T -> Option<string>, k: string)
    ensures k in Group(xs, key) <==> Having(xs, key, k) != []
    ensures k in Group(xs, key) ==> Group(xs, key)[k] == Having(xs, key, k)
    decreases |xs|
  {
    if xs != [] {
      GroupIsFilter(xs[..|xs| - 1], key, k);
    }
  }

  /** The `vehicle_id and vehicle_id in vehicles` test, as a grouping key. */
  function KnownVehicle(vid: Option<string>, vehicles: map<string, Vehicle>): (r: Option<string>)
    ensures r.Some? ==> r.value in vehicles && r == vid
  {
    if Text.Present(vid) && vid.value in vehicles then vid else None
  }

  /** A sensor with an id joins the group of its vehicle when that vehicle is
      known. */
  function SensorGroupKey(vehicles: map<string, Vehicle>): Sensor -> Option<string>
  {
    (s: Sensor) => if Text.Present(s.id) then KnownVehicle(VehicleIdFromSensor(s), vehicles) else None
  }

  /** An action joins the group of its vehicle when that vehicle is known. */
  function ActionGroupKey(vehicles: map<string, Vehicle>): Action -> Option<string>
  {
    (a: Action) => KnownVehicle(a.vehicleId, vehicles)
  }

  /** Grouped by a key that only names known vehicles, the group keys are
      vehicle keys. */
  lemma {:induction false} GroupKeysKnown<T>(xs: seq<T>, key: T -> Option<string>, vehicles: map<string, Vehicle>)
    requires forall x :: key(x).Some? ==> key(x).value in vehicles
    ensures Group(xs, key).Keys <= vehicles.Keys
    decreases |xs|
  {
    if xs != [] {
      GroupKeysKnown(xs[..|xs| - 1], key, vehicles);
    }
  }

  // ---------------------------------------------------------------------
  // Total actions

  /** `sum(len(v) for v in d.values())` */
  ghost function SumLengths<T>(m: map<string, seq<T>>): nat
    decreases |m|
  {
    if m == map[] then 0
    else
      var k :| k in m;
      assert |m - {k}| < |m| by {
        assert (m - {k}).Keys == m.Keys - {k};
      }
      |m[k]| + SumLengths(m - {k})
  }

  /** The sum may take the keys in any order. */
  lemma {:induction false} SumAnyKey<T>(m: map<string, seq<T>>, k: string)
    requires k in m
    ensures SumLengths(m) == |m[k]| + SumLengths(m - {k})
    decreases |m|
  {
    var k' :| k' in m && SumLengths(m) == |m[k']| + SumLengths(m - {k'});
    if k' != k {
      assert (m - {k}).Keys == m.Keys - {k};
      assert (m - {k'}).Keys == m.Keys - {k'};
      SumAnyKey(m - {k'}, k);
      SumAnyKey(m - {k}, k');
      assert m - {k'} - {k} == m - {k} - {k'};
    }
  }

  /** Appending one record to a group adds one to the sum. */
  lemma SumAppend<T>(m: map<string, seq<T>>, k: string, x: T)
    ensures SumLengths(m[k := (if k in m then m[k] else []) + [x]]) == SumLengths(m) + 1
  {
    var m' := m[k := (if k in m then m[k] else []) + [x]];
    SumAnyKey(m', k);
    if k in m {
      SumAnyKey(m, k);
      assert m' - {k} == m - {k};
    } else {
      assert m' - {k} == m;
    }
  }

  /** The groups hold every kept record once: their lengths sum to the
      number of records that have a key. */
  lemma {:induction false} GroupTotal<T>(xs: seq<T>, key: T -> Option<string>)
    ensures SumLengths(Group(xs, key)) == |Kept(xs, key)|
    decreases |xs|
  {
    if xs != [] {
      GroupTotal(xs[..|xs| - 1], key);
      var x := xs[|xs| - 1];
      if key(x).Some? {
        SumAppend(Group(xs[..|xs| - 1], key), key(x).value, x);
      }
    }
  }

  // ---------------------------------------------------------------------
  // The loops of async_setup_entry

  /** The catalog setup builds from what the API returned. */
  function CatalogSpec(accountId: string, accounts: seq<Json>, vehicles: seq<Vehicle>, sensors: seq<Sensor>,
                       interpretations: seq<Interpretation>, actions: seq<Action>): Result<Catalog, Api.ApiError>
  {
    match AccountName(accounts, accountId)
    case Err(e) => Err(e)
    case Ok(name) =>
      var known := Index(vehicles, VehicleKey);
      var groups := Group(actions, ActionGroupKey(known));
      Ok(Catalog(NavirecData(accountId, name, known, Index(sensors, SensorKey),
                             Group(sensors, SensorGroupKey(known)),
                             Index(interpretations, InterpretationKey), groups),
                 |Kept(actions, ActionGroupKey(known))|))
  }

  /** The account-name loop, stopping at the first match. */
  method FindAccountName(accounts: seq<Json>, accountId: string) returns (r: Result<string, Api.ApiError>)
    ensures r == AccountName(accounts, accountId)
  {
    var i := 0;
    while i < |accounts|
      invariant 0 <= i <= |accounts|
      invariant AccountName(accounts, accountId) == AccountName(accounts[i..], accountId)
    {
      assert accounts[i..][1..] == accounts[i + 1..];
      var acc := accounts[i];
      if !acc.JObj? {
        return Err(Api.OtherError("object has no attribute 'get'"));
      }
      if Get(acc.fields, "id", JNull) == JStr(accountId) {
        return Ok(NameOr(Get(acc.fields, "name", JNull), accountId));
      }
      i := i + 1;
    }
    return Ok(accountId);
  }

  /** `vehicles[str(vehicle.id)] = vehicle` for each vehicle with an id. */
  method IndexVehicles(list: seq<Vehicle>) returns (m: map<string, Vehicle>)
    ensures m == Index(list, VehicleKey)
  {
    m := map[];
    for i := 0 to |list|
      invariant m == Index(list[..i], VehicleKey)
    {
      assert list[..i + 1][..i] == list[..i];
      var v := list[i];
      if Text.Present(v.id) {
        m := m[v.id.value := v];
      }
    }
    assert list[..|list|] == list;
  }

  /** The sensor loop: every sensor with an id is indexed, and it is appended
      to its vehicle's list when that vehicle is known. */
  method IndexSensors(list: seq<Sensor>, vehicles: map<string, Vehicle>)
    returns (sensors: map<string, Sensor>, byVehicle: map<string, seq<Sensor>>)
    ensures sensors == Index(list, SensorKey)
    ensures byVehicle == Group(list, SensorGroupKey(vehicles))
  {
    sensors := map[];
    byVehicle := map[];
    for i := 0 to |list|
      invariant sensors == Index(list[..i], SensorKey)
      invariant byVehicle == Group(list[..i], SensorGroupKey(vehicles))
    {
      assert list[..i + 1][..i] == list[..i];
      var s := list[i];
      if Text.Present(s.id) {
        sensors := sensors[s.id.value := s];
        var vid := VehicleIdFromSensor(s);
        if Text.Present(vid) && vid.value in vehicles {
          var prior := if vid.value in byVehicle then byVehicle[vid.value] else [];
          byVehicle := byVehicle[vid.value := prior + [s]];
        }
      }
    }
    assert list[..|list|] == list;
  }

  /** `interpretations[interpretation.key] = interpretation` for each
      interpretation with a key. */
  method IndexInterpretations(list: seq<Interpretation>) returns (m: map<string, Interpretation>)
    ensures m == Index(list, InterpretationKey)
  {
    m := map[];
    for i := 0 to |list|
      invariant m == Index(list[..i], InterpretationKey)
    {
      assert list[..i + 1][..i] == list[..i];
      var it := list[i];
      if Text.Present(it.key) {
        m := m[it.key.value := it];
      }
    }
    assert list[..|list|] == list;
  }

  /** The action loop: each action is appended to its vehicle's list when
      that vehicle is known. */
  method GroupActions(list: seq<Action>, vehicles: map<string, Vehicle>) returns (m: map<string, seq<Action>>)
    ensures m == Group(list, ActionGroupKey(vehicles))
  {
    m := map[];
    for i := 0 to |list|
      invariant m == Group(list[..i], ActionGroupKey(vehicles))
    {
      assert list[..i + 1][..i] == list[..i];
      var a := list[i];
      if Text.Present(a.vehicleId) && a.vehicleId.value in vehicles {
        var prior := if a.vehicleId.value in m then m[a.vehicleId.value] else [];
        m := m[a.vehicleId.value := prior + [a]];
      }
    }
    assert list[..|list|] == list;
  }

  /** `sum(len(actions) for actions in actions_by_vehicle.values())` */
  method TotalActions(m: map<string, seq<Action>>) returns (total: nat)
    ensures total == SumLengths(m)
  {
    total := 0;
    var rest := m;
    while rest != map[]
      invariant total + SumLengths(rest) == SumLengths(m)
      decreases |rest|
    {
      var k :| k in rest;
      SumAnyKey(rest, k);
      assert (rest - {k}).Keys == rest.Keys - {k};
      total := total + |rest[k]|;
      rest := rest - {k};
    }
  }

  /** The indexing part of `async_setup_entry`, from the fetched account,
      vehicle, sensor, interpretation and action records. */
  method IndexCatalog(accountId: string, accounts: seq<Json>, vehicles: seq<Vehicle>, sensors: seq<Sensor>,
                      interpretations: seq<Interpretation>, actions: seq<Action>)
    returns (r: Result<Catalog, Api.ApiError>)
    ensures r == CatalogSpec(accountId, accounts, vehicles, sensors, interpretations, actions)
  {
    var name := FindAccountName(accounts, accountId);
    if name.Err? {
      return Err(name.error);
    }
    var known := IndexVehicles(vehicles);
    var bySensorId, sensorsByVehicle := IndexSensors(sensors, known);
    var byKey := IndexInterpretations(interpretations);
    var actionsByVehicle := GroupActions(actions, known);
    var total := TotalActions(actionsByVehicle);
    GroupTotal(actions, ActionGroupKey(known));
    return Ok(Catalog(NavirecData(accountId, name.value, known, bySensorId, sensorsByVehicle, byKey, actionsByVehicle),
                      total));
  }

  // ---------------------------------------------------------------------
  // Properties of the catalog

  /** The catalog's maps: grouped sensors and actions only name known
      vehicles, each group lists its records in input order, every sensor
      with an id is indexed, and the total counts the grouped actions. */
  lemma CatalogShape(accountId: string, accounts: seq<Json>, vehicles: seq<Vehicle>, sensors: seq<Sensor>,
                     interpretations: seq<Interpretation>, actions: seq<Action>, v: string)
    requires CatalogSpec(accountId, accounts, vehicles, sensors, interpretations, actions).Ok?
    ensures var c := CatalogSpec(accountId, accounts, vehicles, sensors, interpretations, actions).value;
      c.data.sensorsByVehicle.Keys <= c.data.vehicles.Keys
      && c.data.actionsByVehicle.Keys <= c.data.vehicles.Keys
      && (v in c.data.sensorsByVehicle ==>
            c.data.sensorsByVehicle[v] == Having(sensors, SensorGroupKey(c.data.vehicles), v))
      && (v in c.data.actionsByVehicle ==>
            c.data.actionsByVehicle[v] == Having(actions, ActionGroupKey(c.data.vehicles), v))
      && (forall i :: 0 <= i < |sensors| && Text.Present(sensors[i].id) ==> sensors[i].id.value in c.data.sensors)
      && c.totalActions == SumLengths(c.data.actionsByVehicle)
  {
    var c := CatalogSpec(accountId, accounts, vehicles, sensors, interpretations, actions).value;
    GroupKeysKnown(sensors, SensorGroupKey(c.data.vehicles), c.data.vehicles);
    GroupKeysKnown(actions, ActionGroupKey(c.data.vehicles), c.data.vehicles);
    GroupIsFilter(sensors, SensorGroupKey(c.data.vehicles), v);
    GroupIsFilter(actions, ActionGroupKey(c.data.vehicles), v);
    GroupTotal(actions, ActionGroupKey(c.data.vehicles));
    forall i | 0 <= i < |sensors| && Text.Present(sensors[i].id)
      ensures sensors[i].id.value in c.data.sensors
    {
      IndexLastWins(sensors, SensorKey, sensors[i].id.value);
    }
  }

  // ---------------------------------------------------------------------
  // async_unload_entry

  /** `async_unload_entry`: streaming stops only for an entry with runtime
      data (`coordinator` non-null); the platforms' unload result is
      returned; the services go only when that unload succeeded and this is
      the last entry. */
  method UnloadEntry(coordinator: Coordinator.NavirecCoordinator?, platformsUnloaded: bool, remainingEntries: nat)
    returns (ok: bool, servicesRemoved: bool)
    modifies coordinator, if coordinator != null then {coordinator.client} else {}
    ensures ok == platformsUnloaded
    ensures servicesRemoved <==> platformsUnloaded && remainingEntries == 1
    ensures coordinator != null ==>
      coordinator.shouldStop && !coordinator.taskRunning && !coordinator.Connected()
      && coordinator.View() == old(coordinator.View())
  {
    if coordinator != null {
      coordinator.StopStreaming();
    }
    ok := platformsUnloaded;
    servicesRemoved := ok && remainingEntries == 1;
  }
}
