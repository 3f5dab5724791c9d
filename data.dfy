/**
 * The records the integration keeps per account and the helpers that read
 * them (custom_components/navirec/data.py).  The API models are generated
 * from the OpenAPI description and validated by pydantic; here they are
 * records holding the fields the integration reads.
 */
module Data {
  import opened Wrappers
  import opened Text
  import opened JsonValue
  import opened Uuid

  /** A vehicle's live state: the vehicle URL and the named readings
      (`location`, `activity`, `speed`, `updated_at`, ...). */
  datatype VehicleState = VehicleState(vehicle: Option<string>, fields: map<string, Json>)

  datatype Vehicle = Vehicle(id: Option<string>, nameDisplay: Option<string>, registration: Option<string>)

  datatype Sensor = Sensor(id: Option<string>, vehicle: Option<string>)

  /** A choice value is an integer or a string code. */
  datatype ChoiceValue = IntChoice(i: int) | StrChoice(s: string)

  datatype Choice = Choice(value: ChoiceValue, caption: string)

  datatype Interpretation = Interpretation(key: Option<string>, choices: Option<seq<Choice>>)

  /** `actionType` is `str(action.type)`. */
  datatype Action = Action(id: Option<string>, vehicleId: Option<string>, nameDisplay: Option<string>,
                           slug: Option<string>, actionType: string)

  /** `NavirecData`: an account's catalog, as setup builds it. The API client,
      the integration and the coordinator it also holds are not records. */
  datatype NavirecData = NavirecData(accountId: string, accountName: string,
                                     vehicles: map<string, Vehicle>, sensors: map<string, Sensor>,
                                     sensorsByVehicle: map<string, seq<Sensor>>,
                                     interpretations: map<string, Interpretation>,
                                     actionsByVehicle: map<string, seq<Action>>)

  /** `get_vehicle_id_from_state` */
  function VehicleIdFromState(state: VehicleState): (r: Option<string>)
    ensures !Present(state.vehicle) ==> r.None?
    ensures Present(state.vehicle) ==> r == ExtractUuid(state.vehicle.value)
    ensures r.Some? ==> IsUuid(r.value) && Contains(state.vehicle.value, r.value)
  {
    if Present(state.vehicle) then ExtractUuid(state.vehicle.value) else None
  }

  /** `get_vehicle_id_from_sensor` */
  function VehicleIdFromSensor(sensor: Sensor): (r: Option<string>)
    ensures !Present(sensor.vehicle) ==> r.None?
    ensures Present(sensor.vehicle) ==> r == ExtractUuid(sensor.vehicle.value)
    ensures r.Some? ==> IsUuid(r.value) && Contains(sensor.vehicle.value, r.value)
  {
    if Present(sensor.vehicle) then ExtractUuid(sensor.vehicle.value) else None
  }

  /** A vehicle URL of the form `<prefix><id>/` resolves to `id` when no id
      starts inside the prefix. */
  lemma VehicleIdOfUrl(state: VehicleState, prefix: string, id: string)
    requires IsUuid(id)
    requires state.vehicle == Some(prefix + id + "/")
    requires forall j :: 0 <= j < |prefix| ==> !IsUuidAt(prefix + id + "/", j)
    ensures VehicleIdFromState(state) == Some(id)
  {
    ExtractUuidOfPath(prefix, id, "/");
  }

  /** The GeoJSON `coordinates` array of the state's location, when the
      location is set and the array is non-empty. */
  function LocationCoordinates(state: VehicleState): Option<seq<Json>>
  {
    match Get(state.fields, "location", JNull)
    case JObj(loc) =>
      (match Get(loc, "coordinates", JNull)
       case JArr(items) => if |items| > 0 then Some(items) else None
       case _ => None)
    case _ => None
  }

  /** `get_coordinates_from_state`: GeoJSON stores `[longitude, latitude]`
      (section 3.1.1 of RFC 7946); the result is `(latitude, longitude)`. */
  function Coordinates(state: VehicleState): (r: (Option<Json>, Option<Json>))
    ensures r.0.Some? <==> r.1.Some?
    ensures r.0.Some? <==> (LocationCoordinates(state).Some? && |LocationCoordinates(state).value| >= 2)
    ensures r.0.Some? ==> r == (Some(LocationCoordinates(state).value[1]), Some(LocationCoordinates(state).value[0]))
  {
    match LocationCoordinates(state)
    case Some(c) => if |c| >= 2 then (Some(c[1]), Some(c[0])) else (None, None)
    case None => (None, None)
  }

  /** A point `[lon, lat, ...]` comes back as `(lat, lon)`. */
  lemma CoordinatesOfPoint(state: VehicleState, lon: Json, lat: Json, rest: seq<Json>)
    requires "location" in state.fields
    requires state.fields["location"].JObj?
    requires "coordinates" in state.fields["location"].fields
    requires state.fields["location"].fields["coordinates"] == JArr([lon, lat] + rest)
    ensures Coordinates(state) == (Some(lat), Some(lon))
  {
  }

  /** `get_sensor_value_from_state`: the named reading, or None. */
  function SensorValue(state: VehicleState, interpretation: string): (r: Json)
    ensures interpretation in state.fields ==> r == state.fields[interpretation]
    ensures interpretation !in state.fields ==> r == JNull
  {
    Get(state.fields, interpretation, JNull)
  }

  /** `get_activity_from_state`: the enum's string value, or None when the
      state has no activity. */
  function Activity(state: VehicleState): (r: Option<string>)
    ensures r.Some? <==> "activity" in state.fields && state.fields["activity"].JStr?
    ensures r.Some? ==> state.fields["activity"] == JStr(r.value)
  {
    match Get(state.fields, "activity", JNull)
    case JStr(s) => Some(s)
    case _ => None
  }

  /** `str(value)` of a choice value. */
  function ChoiceText(v: ChoiceValue): (r: string)
  {
    match v
    case IntChoice(i) => IntToDecimal(i)
    case StrChoice(s) => s
  }

  /** `get_interpretation_choice_options`: the raw values as strings, one per
      choice, in order; nothing when there are no choices. */
  function ChoiceOptions(interp: Interpretation): (r: seq<string>)
    ensures interp.choices.None? ==> r == []
    ensures interp.choices.Some? ==> |r| == |interp.choices.value|
    ensures interp.choices.Some? ==>
      forall i :: 0 <= i < |r| ==> r[i] == ChoiceText(interp.choices.value[i].value)
  {
    match interp.choices
    case None => []
    case Some(cs) => seq(|cs|, i requires 0 <= i < |cs| => ChoiceText(cs[i].value))
  }

  /** An integer choice's option text parses back to the choice value, so the
      option list identifies each choice. */
  lemma ChoiceOptionParses(interp: Interpretation, i: int)
    requires interp.choices.Some? && 0 <= i < |interp.choices.value|
    requires interp.choices.value[i].value.IntChoice?
    ensures ParseInt(ChoiceOptions(interp)[i]) == Some(interp.choices.value[i].value.i)
  {
    ParseIntDecimal(interp.choices.value[i].value.i);
  }
}
