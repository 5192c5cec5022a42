/** The home page puts the two controllers together: the registration form
    is handed `handleSuccessfulRegistration`, which refreshes the counter.
    The typewriter shares no state with either and is left to its own
    module. */
module HomePage {
  import opened Wrappers
  import Registration
  import Counter

  datatype Page = Page(counter: Counter.CounterState, login: Registration.LoginState)

  datatype PageEvent =
    | Login(event: Registration.Event)
    | CountArrived(response: Counter.CountResponse)

  /** A page transition: the next page, the count requests it sends and the
      registration request it posts, if any. */
  datatype PageStep = PageStep(page: Page, countFetches: nat, registration: Option<Registration.JsonObject>)

  /** Mounting runs the counter effect once: one count request, loading. */
  function Mount(): (r: PageStep)
    ensures r.countFetches == 1 && r.registration.None?
    ensures r.page.counter.isLoadingCount && r.page.counter.count == 0
    ensures r.page.login == Registration.Initial
  {
    PageStep(Page(Counter.BeginFetch(Counter.Initial), Registration.Initial), 1, None)
  }

  /** The form's success callback: one fresh count request. */
  function HandleSuccessfulRegistration(c: Counter.CounterState): (r: (Counter.CounterState, nat))
    ensures r.1 == 1
    ensures r.0.isLoadingCount && r.0.count == c.count
  {
    (Counter.BeginFetch(c), 1)
  }

  /** One event on the page. The form always receives the callback. */
  function Dispatch(p: Page, ev: PageEvent): (r: PageStep)
    ensures r.countFetches == (if ev.Login? && ev.event.Response? && ev.event.response.Ok? && p.login.inFlight.Some? then 1 else 0)
    ensures r.countFetches == 1 ==> r.page.counter.isLoadingCount
    ensures ev.Login? ==> r.registration == Registration.Dispatch(p.login, ev.event, true).request
    ensures ev.Login? ==> r.page.login == Registration.Dispatch(p.login, ev.event, true).state
    ensures ev.Login? && r.countFetches == 0 ==> r.page.counter == p.counter
    ensures ev.CountArrived? ==>
      && r.page.login == p.login && r.countFetches == 0 && r.registration.None?
      && !r.page.counter.isLoadingCount
      && r.page.counter.count == (if ev.response.Ok? then ev.response.count else 0)
  {
    match ev
    case Login(e) =>
      var step := Registration.Dispatch(p.login, e, true);
      if step.notified then
        var (counter, fetches) := HandleSuccessfulRegistration(p.counter);
        PageStep(Page(counter, step.state), fetches, step.request)
      else
        PageStep(p.(login := step.state), 0, step.request)
    case CountArrived(resp) =>
      PageStep(p.(counter := Counter.EndFetch(p.counter, resp)), 0, None)
  }

  datatype PageTrace = PageTrace(page: Page, countFetches: nat)

  function Run(p: Page, events: seq<PageEvent>): (r: PageTrace)
    requires Registration.Valid(p.login)
    ensures Registration.Valid(r.page.login)
    decreases |events|
  {
    if |events| == 0 then
      PageTrace(p, 0)
    else
      var step := Dispatch(p, events[0]);
      var rest := Run(step.page, events[1..]);
      PageTrace(rest.page, step.countFetches + rest.countFetches)
  }

  /** A successful registration is followed by exactly one count refresh,
      and nothing else ever refreshes the count after mounting: over any
      run, the refreshes are one if the run registered and zero otherwise. */
  lemma {:induction false} RefreshOncePerRegistration(p: Page, events: seq<PageEvent>)
    requires Registration.Valid(p.login)
    ensures Run(p, events).countFetches ==
      (if !p.login.isRegistered && Run(p, events).page.login.isRegistered then 1 else 0)
    decreases |events|
  {
    if |events| > 0 {
      var step := Dispatch(p, events[0]);
      RefreshOncePerRegistration(step.page, events[1..]);
      if step.page.login.isRegistered {
        RegisteredStaysPut(step.page, events[1..]);
      }
    }
  }

  /** Once registered, the form ignores everything: no further refreshes. */
  lemma {:induction false} RegisteredStaysPut(p: Page, events: seq<PageEvent>)
    requires Registration.Valid(p.login) && p.login.isRegistered
    ensures Run(p, events).page.login == p.login
    ensures Run(p, events).countFetches == 0
    decreases |events|
  {
    if |events| > 0 {
      var step := Dispatch(p, events[0]);
      RegisteredStaysPut(step.page, events[1..]);
    }
  }

  /** Over a whole session from mount, the count is requested at most twice. */
  lemma AtMostTwoFetches(events: seq<PageEvent>)
    ensures Mount().countFetches + Run(Mount().page, events).countFetches <= 2
  {
    Registration.InitialIsValid();
    RefreshOncePerRegistration(Mount().page, events);
  }
}
