/** The user step of the config flow (`config_flow.py`): normalising the
    account id, choosing the account the token gives access to, mapping
    failures to form errors and creating the entry. */
module ConfigFlow {
  import opened Wrappers
  import opened JsonValue
  import opened Text
  import Api

  /** What the user typed; `accountId` is None when the field is missing. */
  datatype UserInput = UserInput(apiUrl: string, apiToken: string, accountId: Option<string>)

  /** What the step ends with. `ShowForm` carries the form errors; `Crash` is
      an exception the step does not catch. */
  datatype StepOutcome =
    | ShowForm(errors: map<string, string>)
    | CreateEntry(title: Json, apiUrl: string, apiToken: string, accountId: Json)
    | Abort(reason: string)
    | Crash(error: Api.ApiError)

  const NoAccounts: string := "No accounts found for this token"

  function AccountNotFound(accountId: string): string
  {
    "Account " + accountId + " not found or not accessible"
  }

  /** `_normalize_account_id`: the stripped id, or None when it is missing or
      blank. */
  function NormalizeAccountId(input: UserInput): (r: Option<string>)
    ensures r.None? <==> input.accountId.None? || AllSpace(input.accountId.value)
    ensures r.Some? ==> r.value == Strip(input.accountId.value) && r.value != ""
  {
    var s := Strip(OrElse(input.accountId, ""));
    if s == "" then None else Some(s)
  }

  /** `account.get("id") == account_id` for an account object. */
  predicate IdMatches(account: Json, accountId: string)
  {
    account.JObj? && Get(account.fields, "id", JNull) == JStr(accountId)
  }

  /** The search passes over the first `i` accounts: each is an object
      without the id. */
  predicate Skipped(accounts: seq<Json>, i: int, accountId: string)
    requires i <= |accounts|
  {
    forall j :: 0 <= j < i ==> accounts[j].JObj? && !IdMatches(accounts[j], accountId)
  }

  /** The search loop of `_validate_and_get_account`: the first account with
      the id, None when there is none; an account that is not an object
      cannot be asked for its id and raises. */
  function FindAccount(accounts: seq<Json>, accountId: string): (r: Result<Option<Json>, Api.ApiError>)
    ensures r == Ok(None) <==> forall i :: 0 <= i < |accounts| ==> accounts[i].JObj? && !IdMatches(accounts[i], accountId)
    ensures r.Ok? && r.value.Some? ==>
      exists i :: 0 <= i < |accounts| && IdMatches(accounts[i], accountId) && r.value.value == accounts[i]
                  && forall j :: 0 <= j < i ==> accounts[j].JObj? && !IdMatches(accounts[j], accountId)
    ensures r.Err? ==>
      r.error.OtherError?
      && exists i :: 0 <= i < |accounts| && !accounts[i].JObj?
                     && forall j :: 0 <= j < i ==> accounts[j].JObj? && !IdMatches(accounts[j], accountId)
  {
    if accounts == [] then Ok(None)
    else if !accounts[0].JObj? then Err(Api.OtherError("object has no attribute 'get'"))
    else if IdMatches(accounts[0], accountId) then Ok(Some(accounts[0]))
    else
      var r := FindAccount(accounts[1..], accountId);
      assert forall i :: 1 <= i < |accounts| ==> accounts[i] == accounts[1..][i - 1];
      r
  }

  /** `_validate_and_get_account`: no account is an authentication error;
      with an id, the first account holding it, or an authentication error
      naming the id; without one, the first account. Errors fetching the
      accounts propagate. */
  function ValidateAndGetAccount(accounts: Result<seq<Json>, Api.ApiError>, accountId: Option<string>):
    (r: Result<Json, Api.ApiError>)
    ensures accounts.Err? ==> r == Err(accounts.error)
    ensures accounts == Ok([]) ==> r == Err(Api.AuthenticationError(NoAccounts))
    ensures accounts.Ok? && accounts.value != [] && !Present(accountId) ==> r == Ok(accounts.value[0])
    ensures accounts.Ok? && accounts.value != [] && Present(accountId) ==>
      (r == Err(Api.AuthenticationError(AccountNotFound(accountId.value)))
       <==> forall i :: 0 <= i < |accounts.value| ==>
              accounts.value[i].JObj? && !IdMatches(accounts.value[i], accountId.value))
    ensures Present(accountId) && r.Ok? ==> IdMatches(r.value, accountId.value)
    ensures accounts.Ok? && Present(accountId) ==>
      forall i :: (0 <= i < |accounts.value| && IdMatches(accounts.value[i], accountId.value)
                   && Skipped(accounts.value, i, accountId.value)) ==> r == Ok(accounts.value[i])
    ensures accounts.Ok? && Present(accountId) ==>
      forall i :: (0 <= i < |accounts.value| && !accounts.value[i].JObj?
                   && Skipped(accounts.value, i, accountId.value)) ==> r.Err? && !Api.IsApiError(r.error)
  {
    match accounts
    case Err(e) => Err(e)
    case Ok(list) =>
      if list == [] then Err(Api.AuthenticationError(NoAccounts))
      else if Present(accountId) then
        match FindAccount(list, accountId.value)
        case Err(e) => Err(e)
        case Ok(None) => Err(Api.AuthenticationError(AccountNotFound(accountId.value)))
        case Ok(Some(a)) => Ok(a)
      else Ok(list[0])
  }

  /** The form error each API error shows; None for an exception outside
      the API error hierarchy, which is not caught. */
  function ErrorCode(e: Api.ApiError): (code: Option<string>)
    ensures code.None? <==> !Api.IsApiError(e)
    ensures e.AuthenticationError? <==> code == Some("auth")
    ensures e.CommunicationError? <==> code == Some("connection")
    ensures (e.ClientError? || e.RateLimitError?) <==> code == Some("unknown")
  {
    match e
    case AuthenticationError(_) => Some("auth")
    case CommunicationError(_) => Some("connection")
    case OtherError(_) => None
    case _ => Some("unknown")
  }

  /** The account the step chooses for the input. */
  function Chosen(u: UserInput, accounts: Result<seq<Json>, Api.ApiError>): Result<Json, Api.ApiError>
  {
    ValidateAndGetAccount(accounts, NormalizeAccountId(u))
  }

  /** `async_step_user`. Without input, the empty form. With input, the URL
      loses its trailing slashes, the account is chosen from `accounts` (the
      accounts the token gives access to at that URL), a failure shows its
      form error, an account already configured aborts, and otherwise the
      entry is created, titled by the account's name or else its id. */
  function StepUser(input: Option<UserInput>, accounts: Result<seq<Json>, Api.ApiError>,
                    configured: set<Json>): StepOutcome
  {
    match input
    case None => ShowForm(map[])
    case Some(u) => Finish(u, Chosen(u, accounts), configured)
  }

  /** The rest of the step once the account is chosen. */
  function Finish(u: UserInput, chosen: Result<Json, Api.ApiError>, configured: set<Json>): StepOutcome
  {
    var apiUrl := RStripChar(u.apiUrl, '/');
    match chosen
    case Err(e) =>
      (match ErrorCode(e)
       case Some(code) => ShowForm(map["base" := code])
       case None => Crash(e))
    case Ok(account) =>
      if !account.JObj? || "id" !in account.fields then Crash(Api.OtherError("account has no 'id'"))
      else
        var accountId := account.fields["id"];
        if accountId in configured then Abort("already_configured")
        else CreateEntry(Or(Get(account.fields, "name", JNull), accountId), apiUrl, u.apiToken, accountId)
  }

  /** A failure to choose the account shows its form error, or propagates
      when it is not an API error. */
  lemma StepUserFails(u: UserInput, accounts: Result<seq<Json>, Api.ApiError>, configured: set<Json>)
    requires Chosen(u, accounts).Err?
    ensures var e := Chosen(u, accounts).error;
      StepUser(Some(u), accounts, configured)
      == if Api.IsApiError(e) then ShowForm(map["base" := ErrorCode(e).value]) else Crash(e)
  {
  }

  /** An entry is created for the chosen account, under its id, when that id
      is not configured yet, titled by its name or else its id; the URL has
      no trailing slash and the token is the one given. */
  lemma StepUserCreates(u: UserInput, accounts: Result<seq<Json>, Api.ApiError>, configured: set<Json>)
    requires StepUser(Some(u), accounts, configured).CreateEntry?
    ensures var r := StepUser(Some(u), accounts, configured);
      var account := Chosen(u, accounts);
      account.Ok? && account.value.JObj? && "id" in account.value.fields
      && r.accountId == account.value.fields["id"] && r.accountId !in configured
      && r.title == Or(Get(account.value.fields, "name", JNull), r.accountId)
      && r.apiUrl == RStripChar(u.apiUrl, '/') && (r.apiUrl == [] || r.apiUrl[|r.apiUrl| - 1] != '/')
      && r.apiToken == u.apiToken
  {
  }

  /** The step aborts exactly when the chosen account's id is already
      configured. */
  lemma StepUserAborts(u: UserInput, accounts: Result<seq<Json>, Api.ApiError>, configured: set<Json>)
    ensures var account := Chosen(u, accounts);
      StepUser(Some(u), accounts, configured).Abort?
      <==> account.Ok? && account.value.JObj? && "id" in account.value.fields
           && account.value.fields["id"] in configured
  {
  }
}
