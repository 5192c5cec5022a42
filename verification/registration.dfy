/** The pre-registration form of the landing page (the LoginPage component):
    its three fields, validation, the submission lifecycle and the
    confirmation view, as a state record and pure transition functions.

    The network is not modelled: a submission hands a request body to the
    caller, and the server's reply comes back later as a `Response` event. */
module Registration {
  import opened Wrappers
  import EmailPattern

  datatype Field = Email | DiscordId | ReferralSource

  datatype FormData = FormData(email: string, discordId: string, referralSource: string)

  const EmptyForm := FormData("", "", "")

  function Get(form: FormData, field: Field): string {
    match field
    case Email => form.email
    case DiscordId => form.discordId
    case ReferralSource => form.referralSource
  }

  /** `{ ...form, [field]: value }` */
  function WithField(form: FormData, field: Field, value: string): (r: FormData)
    ensures Get(r, field) == value
    ensures forall g :: g != field ==> Get(r, g) == Get(form, g)
  {
    match field
    case Email => form.(email := value)
    case DiscordId => form.(discordId := value)
    case ReferralSource => form.(referralSource := value)
  }

  datatype Status = Idle | Submitting | Success | Error

  /** The component's state. A field whose error the user has cleared by
      editing is absent from `errors` (the component stores `undefined`
      there, and every reader of the map only tests truthiness).
      `inFlight` is the snapshot held by a submission that is waiting for
      the server's reply. */
  datatype LoginState = LoginState(
    form: FormData,
    errors: map<Field, string>,
    status: Status,
    message: string,
    isRegistered: bool,
    registeredData: Option<FormData>,
    inFlight: Option<FormData>)

  const Initial := LoginState(EmptyForm, map[], Idle, "", false, None, None)

  // ---------------------------------------------------------------- validation

  const EmailRequired := "Email ID is required."
  const EmailInvalid := "Email ID is invalid."

  datatype Validation = Validation(valid: bool, errors: map<Field, string>)

  /** Recomputes the errors map from scratch; only the email is checked. */
  function Validate(form: FormData): (v: Validation)
    ensures v.valid <==> v.errors == map[]
    ensures v.valid <==> form.email != "" && EmailPattern.Matches(form.email)
    ensures DiscordId !in v.errors && ReferralSource !in v.errors
    ensures form.email == "" ==> v.errors == map[Email := EmailRequired]
    ensures form.email != "" && !EmailPattern.Matches(form.email) ==> v.errors == map[Email := EmailInvalid]
  {
    var errors :=
      if form.email == "" then map[Email := EmailRequired]
      else if !EmailPattern.MatchesEmailPattern(form.email) then map[Email := EmailInvalid]
      else map[];
    Validation(|errors| == 0, errors)
  }

  /** The optional fields play no part in validation. */
  lemma OnlyEmailIsValidated(form: FormData, discordId: string, referralSource: string)
    ensures Validate(form.(discordId := discordId, referralSource := referralSource)) == Validate(form)
  {
  }

  // ---------------------------------------------------------------- editing

  /** One keystroke in a field: the field takes the new value and loses its
      error, if it had one; the new value is not validated. */
  function HandleChange(st: LoginState, field: Field, value: string): (r: LoginState)
    ensures Get(r.form, field) == value
    ensures forall g :: g != field ==> Get(r.form, g) == Get(st.form, g)
    ensures field !in r.errors
    ensures forall g :: g != field ==> (g in r.errors <==> g in st.errors)
    ensures forall g :: g in r.errors ==> r.errors[g] == st.errors[g]
    ensures r.(form := st.form, errors := st.errors) == st
  {
    var errors := if field in st.errors then st.errors - {field} else st.errors;
    st.(form := WithField(st.form, field, value), errors := errors)
  }

  /** Clearing is optimistic: an edit can leave an invalid email with no
      error showing until the next submit. */
  lemma EditDoesNotRevalidate()
    ensures HandleChange(Initial, Email, "oops").errors == map[]
    ensures !Validate(HandleChange(Initial, Email, "oops").form).valid
  {
  }

  // ---------------------------------------------------------------- request body

  /** A flat JSON object with string values, its members in order. */
  type JsonObject = seq<(string, string)>

  const BackendKeys: seq<string> := ["email", "discord_id", "referral_source"]

  function Keys(obj: JsonObject): seq<string> {
    seq(|obj|, i requires 0 <= i < |obj| => obj[i].0)
  }

  /** The value of the first member named key. */
  function Lookup(obj: JsonObject, key: string): Option<string>
    decreases |obj|
  {
    if |obj| == 0 then None
    else if obj[0].0 == key then Some(obj[0].1)
    else Lookup(obj[1..], key)
  }

  /** How the backend reads a registration body back into the form's terms. */
  function FormOfBody(obj: JsonObject): Option<FormData> {
    match (Lookup(obj, "email"), Lookup(obj, "discord_id"), Lookup(obj, "referral_source"))
    case (Some(e), Some(d), Some(r)) => Some(FormData(e, d, r))
    case _ => None
  }

  /** The body posted to the registration endpoint: the email as is, the
      other two fields under the backend's snake-case names. */
  function RequestBody(form: FormData): (body: JsonObject)
    ensures Keys(body) == BackendKeys
    ensures Lookup(body, "email") == Some(form.email)
    ensures Lookup(body, "discord_id") == Some(form.discordId)
    ensures Lookup(body, "referral_source") == Some(form.referralSource)
    ensures FormOfBody(body) == Some(form)
  {
    var body := [("email", form.email), ("discord_id", form.discordId), ("referral_source", form.referralSource)];
    assert Lookup(body[1..][1..], "referral_source") == Some(form.referralSource);
    assert Lookup(body[1..], "referral_source") == Some(form.referralSource);
    body
  }

  // ---------------------------------------------------------------- submission

  /** What the server's reply amounts to. `Ok` is a 2xx status; `NotOk` any
      other status; `TransportFail` a request that never got a response or a
      body that is not JSON (both end in the same handler). Absent members
      of the reply's JSON are `None`. */
  datatype RegisterResponse =
    | Ok(message: Option<string>)
    | NotOk(detail: Option<string>, message: Option<string>)
    | TransportFail

  const SuccessMessage := "Registration successful! Welcome aboard."
  const UnknownError := "An unknown error occurred."
  const ConnectionError := "Failed to connect to the server. Please try again later."

  /** JavaScript truthiness of an optional string: present and non-empty. */
  predicate Truthy(s: Option<string>) {
    s.Some? && s.value != ""
  }

  /** `a || fallback` over strings. */
  function OrElse(a: Option<string>, fallback: string): (r: string)
    ensures Truthy(a) ==> r == a.value
    ensures !Truthy(a) ==> r == fallback
  {
    if Truthy(a) then a.value else fallback
  }

  /** One transition's result: the next state, the body of the request it
      posts (if any) and whether it called the success callback. */
  datatype Step = Step(state: LoginState, request: Option<JsonObject>, notified: bool)

  /** The synchronous part of a submit: validate, and if the form is valid
      mark it submitting and post the body; otherwise only the errors change. */
  function HandleSubmit(st: LoginState): (r: Step)
    ensures r.request.Some? <==> st.form.email != "" && EmailPattern.Matches(st.form.email)
    ensures r.state.errors == Validate(st.form).errors
    ensures r.state.form == st.form && !r.notified
    ensures r.state.isRegistered == st.isRegistered && r.state.registeredData == st.registeredData
    ensures r.request.None? ==> r.state == st.(errors := r.state.errors)
    ensures r.request.Some? ==>
      && r.state.status == Submitting && r.state.message == "" && r.state.inFlight == Some(st.form)
      && FormOfBody(r.request.value) == Some(st.form)
  {
    var v := Validate(st.form);
    if !v.valid then
      Step(st.(errors := v.errors), None, false)
    else
      var sent := st.form;
      Step(st.(errors := v.errors, status := Submitting, message := "", inFlight := Some(sent)),
           Some(RequestBody(sent)), false)
  }

  /** The rest of a submit, once the reply for the snapshot `sent` is in.
      `hasCallback` says whether the host supplied the success callback. */
  function ReceiveResponse(st: LoginState, sent: FormData, resp: RegisterResponse, hasCallback: bool): (r: Step)
    ensures r.request.None? && r.state.inFlight.None?
    ensures r.notified <==> resp.Ok? && hasCallback
    ensures resp.Ok? ==>
      && r.state.status == Success
      && r.state.message == (if Truthy(resp.message) then resp.message.value else SuccessMessage)
      && r.state.isRegistered && r.state.registeredData == Some(sent)
      && r.state.form == EmptyForm && r.state.errors == map[]
    ensures !resp.Ok? ==>
      && r.state.status == Error
      && r.state.(status := st.status, message := st.message, inFlight := st.inFlight) == st
    ensures resp.NotOk? ==>
      r.state.message == (if Truthy(resp.detail) then resp.detail.value
                          else if Truthy(resp.message) then resp.message.value
                          else UnknownError)
    ensures resp.TransportFail? ==> r.state.message == ConnectionError
  {
    match resp
    case Ok(message) =>
      var next := st.(status := Success, message := OrElse(message, SuccessMessage),
                      isRegistered := true, registeredData := Some(sent),
                      form := EmptyForm, errors := map[], inFlight := None);
      Step(next, None, hasCallback)
    case NotOk(detail, message) =>
      var text := OrElse(detail, OrElse(message, UnknownError));
      Step(st.(status := Error, message := text, inFlight := None), None, false)
    case TransportFail =>
      Step(st.(status := Error, message := ConnectionError, inFlight := None), None, false)
  }

  // ---------------------------------------------------------------- the component

  /** The confirmation view replaces the form once a registration succeeded. */
  predicate ShowsConfirmation(st: LoginState): (r: bool)
    ensures Valid(st) ==> (r <==> st.isRegistered)
    ensures Valid(st) && r ==> st.status == Success && st.form == EmptyForm && st.inFlight.None?
  {
    st.isRegistered && st.registeredData.Some?
  }

  /** The form is on screen and its inputs and button are enabled. */
  predicate FormEnabled(st: LoginState): (r: bool)
    ensures Valid(st) ==> (r <==> st.inFlight.None? && !st.isRegistered)
  {
    !ShowsConfirmation(st) && st.status != Submitting
  }

  datatype Event =
    | Change(field: Field, value: string)
    | Submit
    | Response(response: RegisterResponse)

  /** What the component's state always satisfies. */
  ghost predicate Valid(st: LoginState) {
    && (st.status == Submitting <==> st.inFlight.Some?)
    && (st.isRegistered <==> st.registeredData.Some?)
    && (st.isRegistered ==> st.status == Success && st.form == EmptyForm)
    && DiscordId !in st.errors && ReferralSource !in st.errors
  }

  /** One event delivered to the component. Edits and submits reach it only
      while the form is shown and enabled; a reply only while a submission
      is waiting for one. */
  function Dispatch(st: LoginState, ev: Event, hasCallback: bool): (r: Step)
    ensures Valid(st) ==> Valid(r.state)
    ensures st.status == Submitting && !ev.Response? ==> r == Step(st, None, false)
    ensures Valid(st) && ShowsConfirmation(st) ==> r == Step(st, None, false)
    ensures r.request.Some? <==> ev.Submit? && FormEnabled(st) && Validate(st.form).valid
    ensures r.notified <==> ev.Response? && ev.response.Ok? && st.inFlight.Some? && hasCallback
    ensures Valid(st) ==> (r.state.isRegistered <==> st.isRegistered || (ev.Response? && ev.response.Ok? && st.inFlight.Some?))
  {
    match ev
    case Change(field, value) =>
      if FormEnabled(st) then Step(HandleChange(st, field, value), None, false) else Step(st, None, false)
    case Submit =>
      if FormEnabled(st) then HandleSubmit(st) else Step(st, None, false)
    case Response(resp) =>
      if st.inFlight.Some? then ReceiveResponse(st, st.inFlight.value, resp, hasCallback) else Step(st, None, false)
  }

  lemma InitialIsValid()
    ensures Valid(Initial) && FormEnabled(Initial)
  {
  }

  datatype Trace = Trace(state: LoginState, requests: nat, notifications: nat)

  /** Delivers the events in order, counting the requests posted and the
      success callbacks made. */
  function Run(st: LoginState, events: seq<Event>, hasCallback: bool): (r: Trace)
    requires Valid(st)
    ensures Valid(r.state)
    ensures r.notifications == if hasCallback && !st.isRegistered && r.state.isRegistered then 1 else 0
    ensures st.isRegistered ==> r == Trace(st, 0, 0)
    decreases |events|
  {
    if |events| == 0 then
      Trace(st, 0, 0)
    else
      var step := Dispatch(st, events[0], hasCallback);
      var rest := Run(step.state, events[1..], hasCallback);
      Trace(rest.state,
            (if step.request.Some? then 1 else 0) + rest.requests,
            (if step.notified then 1 else 0) + rest.notifications)
  }
}
