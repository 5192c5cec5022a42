/** The registrant counter of the home page: `fetchUserCount` over the
    pair (count shown, still loading). The GET request itself is not
    modelled; its result arrives as a `CountResponse`. */
module Counter {

  datatype CounterState = CounterState(count: int, isLoadingCount: bool)

  /** Before the first reply: zero, and loading. */
  const Initial := CounterState(0, true)

  /** `Ok` is a 2xx reply whose JSON `count` member is `count`; `NotOk` a
      reply with any other status; `TransportFail` a request that threw
      (including a 2xx body that is not JSON). */
  datatype CountResponse =
    | Ok(count: int)
    | NotOk(status: int)
    | TransportFail

  /** The synchronous start of `fetchUserCount`: loading, count kept. */
  function BeginFetch(c: CounterState): (r: CounterState)
    ensures r.isLoadingCount && r.count == c.count
  {
    c.(isLoadingCount := true)
  }

  /** The reply handler of `fetchUserCount`: the server's count on success,
      zero on any failure, and in every case loading ends. */
  function EndFetch(c: CounterState, resp: CountResponse): (r: CounterState)
    ensures !r.isLoadingCount
    ensures resp.Ok? ==> r.count == resp.count
    ensures !resp.Ok? ==> r.count == 0
  {
    var count := match resp
      case Ok(n) => n
      case NotOk(_) => 0
      case TransportFail => 0;
    c.(count := count, isLoadingCount := false)
  }

  /** A whole `fetchUserCount` call whose request is answered by `resp`. */
  function FetchUserCount(c: CounterState, resp: CountResponse): (r: CounterState)
    ensures !r.isLoadingCount
    ensures r.count == (if resp.Ok? then resp.count else 0)
  {
    EndFetch(BeginFetch(c), resp)
  }

  /** The outcome depends on the reply alone, never on what was shown
      before: refreshing with the same reply twice changes nothing more. */
  lemma FetchForgetsPriorState(c1: CounterState, c2: CounterState, resp: CountResponse)
    ensures FetchUserCount(c1, resp) == FetchUserCount(c2, resp)
    ensures FetchUserCount(FetchUserCount(c1, resp), resp) == FetchUserCount(c1, resp)
  {
  }
}
