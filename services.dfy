/** The `execute_action` service (`services.py`): finding the vehicle and
    the action across the configured accounts, and the call it makes. */
module Services {
  import opened Wrappers
  import opened Data
  import Text

  /** A config entry: its id and, once set up, its runtime data. */
  datatype Entry = Entry(entryId: string, runtime: Option<NavirecData>)

  datatype Found = Found(entry: Entry, vehicle: Vehicle, action: Action)

  /** The `execute_action` call the handler makes. */
  datatype Request = Request(entryId: string, vehicleId: string, actionId: string,
                             vehicleName: string, actionName: string)

  /** The actions the entry lists for the vehicle (none when it lists none). */
  function ActionsFor(data: NavirecData, vehicleId: string): seq<Action>
  {
    if vehicleId in data.actionsByVehicle then data.actionsByVehicle[vehicleId] else []
  }

  /** The first action whose `str(id)` is the action id. */
  function FirstAction(actions: seq<Action>, actionId: string): (r: Option<Action>)
    ensures r.None? <==> forall i :: 0 <= i < |actions| ==> Text.PyStr(actions[i].id) != actionId
    ensures r.Some? ==> exists i :: 0 <= i < |actions| && actions[i] == r.value
                                   && Text.PyStr(actions[i].id) == actionId
                                   && forall j :: 0 <= j < i ==> Text.PyStr(actions[j].id) != actionId
  {
    if actions == [] then None
    else if Text.PyStr(actions[0].id) == actionId then Some(actions[0])
    else
      var r := FirstAction(actions[1..], actionId);
      assert forall i :: 1 <= i < |actions| ==> actions[i] == actions[1..][i - 1];
      r
  }

  /** The entry is set up, has the vehicle and lists the action for it. */
  predicate Matches(e: Entry, vehicleId: string, actionId: string)
  {
    e.runtime.Some? && vehicleId in e.runtime.value.vehicles
    && FirstAction(ActionsFor(e.runtime.value, vehicleId), actionId).Some?
  }

  /** What a matching entry yields. */
  function FoundIn(e: Entry, vehicleId: string, actionId: string): Found
    requires Matches(e, vehicleId, actionId)
  {
    Found(e, e.runtime.value.vehicles[vehicleId], FirstAction(ActionsFor(e.runtime.value, vehicleId), actionId).value)
  }

  /** No entry before `k` matches. */
  predicate NoneBefore(entries: seq<Entry>, k: int, vehicleId: string, actionId: string)
    requires k <= |entries|
  {
    forall j :: 0 <= j < k ==> !Matches(entries[j], vehicleId, actionId)
  }

  /** `r` is what the search yields over `entries`: the first match, or
      nothing when there is none. */
  predicate FirstFound(entries: seq<Entry>, vehicleId: string, actionId: string, r: Option<Found>)
  {
    (r.None? <==> NoneBefore(entries, |entries|, vehicleId, actionId))
    && (r.Some? ==>
          exists i :: 0 <= i < |entries| && Matches(entries[i], vehicleId, actionId)
                      && r.value == FoundIn(entries[i], vehicleId, actionId)
                      && NoneBefore(entries, i, vehicleId, actionId))
  }

  /** `_find_vehicle_and_action`: the first matching entry's vehicle and
      action; entries not set up, and entries that have the vehicle but not
      the action, do not stop the search; nothing when no entry matches. */
  function FindVehicleAndAction(entries: seq<Entry>, vehicleId: string, actionId: string): (r: Option<Found>)
    ensures FirstFound(entries, vehicleId, actionId, r)
  {
    if entries == [] then None
    else if Matches(entries[0], vehicleId, actionId) then Some(FoundIn(entries[0], vehicleId, actionId))
    else
      var r := FindVehicleAndAction(entries[1..], vehicleId, actionId);
      SearchTail(entries, vehicleId, actionId, r);
      r
  }

  /** A first entry that does not match leaves the search to the rest. */
  lemma SearchTail(entries: seq<Entry>, vehicleId: string, actionId: string, r: Option<Found>)
    requires entries != [] && !Matches(entries[0], vehicleId, actionId)
    requires FirstFound(entries[1..], vehicleId, actionId, r)
    ensures FirstFound(entries, vehicleId, actionId, r)
  {
    var rest := entries[1..];
    if r.Some? {
      var i :| 0 <= i < |rest| && Matches(rest[i], vehicleId, actionId)
               && r.value == FoundIn(rest[i], vehicleId, actionId)
               && NoneBefore(rest, i, vehicleId, actionId);
      assert entries[i + 1] == rest[i];
      forall j | 0 <= j < i + 1
        ensures !Matches(entries[j], vehicleId, actionId)
      {
        if j > 0 { assert entries[j] == rest[j - 1]; }
      }
      assert NoneBefore(entries, i + 1, vehicleId, actionId);
    } else {
      forall j | 0 <= j < |entries|
        ensures !Matches(entries[j], vehicleId, actionId)
      {
        if j > 0 { assert entries[j] == rest[j - 1]; }
      }
    }
  }

  /** The vehicle's display name: `name_display`, else `registration`, else
      the id asked for. */
  function VehicleName(v: Vehicle, vehicleId: string): (r: string)
    ensures Text.Present(v.nameDisplay) ==> r == v.nameDisplay.value
    ensures !Text.Present(v.nameDisplay) && Text.Present(v.registration) ==> r == v.registration.value
    ensures !Text.Present(v.nameDisplay) && !Text.Present(v.registration) ==> r == vehicleId
  {
    Text.OrElse(v.nameDisplay, Text.OrElse(v.registration, vehicleId))
  }

  /** The action's display name: `name_display`, else `slug`, else
      `str(type)`. */
  function ActionName(a: Action): (r: string)
    ensures Text.Present(a.nameDisplay) ==> r == a.nameDisplay.value
    ensures !Text.Present(a.nameDisplay) && Text.Present(a.slug) ==> r == a.slug.value
    ensures !Text.Present(a.nameDisplay) && !Text.Present(a.slug) ==> r == a.actionType
  {
    Text.OrElse(a.nameDisplay, Text.OrElse(a.slug, a.actionType))
  }

  function NotFoundMessage(vehicleId: string, actionId: string): string
  {
    "Vehicle '" + vehicleId + "' or action '" + actionId + "' not found"
  }

  /** `async_execute_action_service`: the not-found error before any call, or
      the call to `execute_action` on the matching entry's client with the ids
      passed through unchanged and the display names. */
  function HandleExecuteAction(entries: seq<Entry>, vehicleId: string, actionId: string): (r: Result<Request, string>)
    ensures r.Err? <==> forall i :: 0 <= i < |entries| ==> !Matches(entries[i], vehicleId, actionId)
    ensures r.Err? ==> r.error == NotFoundMessage(vehicleId, actionId)
    ensures r.Ok? ==> r.value.vehicleId == vehicleId && r.value.actionId == actionId
    ensures r.Ok? ==>
      exists i :: 0 <= i < |entries| && Matches(entries[i], vehicleId, actionId)
                  && r.value.entryId == entries[i].entryId
                  && r.value.vehicleName == VehicleName(entries[i].runtime.value.vehicles[vehicleId], vehicleId)
                  && r.value.actionName == ActionName(FoundIn(entries[i], vehicleId, actionId).action)
                  && NoneBefore(entries, i, vehicleId, actionId)
  {
    match FindVehicleAndAction(entries, vehicleId, actionId)
    case None => Err(NotFoundMessage(vehicleId, actionId))
    case Some(f) =>
      Ok(Request(f.entry.entryId, vehicleId, actionId, VehicleName(f.vehicle, vehicleId), ActionName(f.action)))
  }

  /** A later entry is reached when every earlier one lacks the vehicle or
      the action, whatever it holds. */
  lemma {:induction false} SearchSkipsNonMatching(entries: seq<Entry>, k: nat, vehicleId: string, actionId: string)
    requires k < |entries| && Matches(entries[k], vehicleId, actionId)
    requires forall j :: 0 <= j < k ==> !Matches(entries[j], vehicleId, actionId)
    ensures FindVehicleAndAction(entries, vehicleId, actionId) == Some(FoundIn(entries[k], vehicleId, actionId))
    decreases k
  {
    if k > 0 {
      assert entries[1..][k - 1] == entries[k];
      assert forall j :: 0 <= j < k - 1 ==> entries[1..][j] == entries[j + 1];
      SearchSkipsNonMatching(entries[1..], k - 1, vehicleId, actionId);
    }
  }
}
