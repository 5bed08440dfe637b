/**
 * The fixed-window limiter guarding URL creation: a Redis counter per client
 * address, at most `Budget` creations while the counter lives, the window
 * opened by the first creation and lasting `Window` seconds.
 */
module RateLimit {
  import opened Wrappers
  import opened Redis

  const Budget := 5
  const Window := 60

  /**
   * The limiter's decision on one creation request from `ip` at `now`: None
   * (rejected) when the caller's live counter has reached the budget, otherwise
   * the counter table with this request counted. A counter opening a window
   * expires `Window` seconds later; a live counter keeps its expiry.
   */
  function Admit(limits: map<string, Entry<int>>, ip: string, now: int): Option<map<string, Entry<int>>> {
    match Get(limits, ip, now)
    case None => Some(limits[ip := Entry(1, Some(now + Window))])
    case Some(n) => if n >= Budget then None else Some(limits[ip := limits[ip].(value := n + 1)])
  }

  /** Every stored counter is between 1 and the budget and carries an expiry. */
  ghost predicate CountersBounded(limits: map<string, Entry<int>>) {
    forall ip :: ip in limits ==> 1 <= limits[ip].value <= Budget && limits[ip].expiresAt.Some?
  }

  /** A request is rejected exactly when the caller's live counter has reached the budget. */
  lemma RejectsExactlyAtBudget(limits: map<string, Entry<int>>, ip: string, now: int)
    ensures Admit(limits, ip, now).None? <==> Get(limits, ip, now).Some? && Get(limits, ip, now).value >= Budget
  {
  }

  /** An admitted request raises the caller's live count by exactly one (from zero when no counter lives). */
  lemma AdmitCountsOnce(limits: map<string, Entry<int>>, ip: string, now: int)
    requires Admit(limits, ip, now).Some?
    ensures Get(Admit(limits, ip, now).value, ip, now) == Some(Get(limits, ip, now).GetOr(0) + 1)
  {
  }

  /** Only the counter that opens a window gets an expiry; later requests never move it. */
  lemma AdmitKeepsWindow(limits: map<string, Entry<int>>, ip: string, now: int)
    requires Admit(limits, ip, now).Some?
    ensures Admit(limits, ip, now).value[ip].expiresAt ==
            if Get(limits, ip, now).Some? then limits[ip].expiresAt else Some(now + Window)
  {
  }

  /** Other clients' counters are untouched. */
  lemma AdmitTouchesOnlyCaller(limits: map<string, Entry<int>>, ip: string, now: int)
    requires Admit(limits, ip, now).Some?
    ensures Admit(limits, ip, now).value - {ip} == limits - {ip}
    ensures ip in Admit(limits, ip, now).value
  {
  }

  /** Once a window has run out, the next request opens a fresh one. */
  lemma WindowReopens(limits: map<string, Entry<int>>, ip: string, now: int)
    requires ip in limits && limits[ip].expiresAt.Some? && limits[ip].expiresAt.value <= now
    ensures Admit(limits, ip, now) == Some(limits[ip := Entry(1, Some(now + Window))])
  {
  }

  lemma AdmitKeepsCountersBounded(limits: map<string, Entry<int>>, ip: string, now: int)
    requires CountersBounded(limits)
    requires Admit(limits, ip, now).Some?
    ensures CountersBounded(Admit(limits, ip, now).value)
  {
  }

  /**
   * The handler's three Redis calls as written, each at its own moment: GET at
   * `tGet`, then (below the budget) INCR at `tIncr`, then EXPIRE at `tExpire`
   * only when GET found no counter.
   */
  function CallsAsWritten(limits: map<string, Entry<int>>, ip: string, tGet: int, tIncr: int, tExpire: int)
    : Option<map<string, Entry<int>>>
  {
    match Get(limits, ip, tGet)
    case Some(n) => if n >= Budget then None else Some(Incr(limits, ip, tIncr))
    case None => Some(Expire(Incr(limits, ip, tIncr), ip, Window, tExpire))
  }

  /**
   * A counter that runs out between GET and INCR is recreated by INCR with no
   * expiry, and EXPIRE is skipped because GET had seen it: the counter never
   * expires again.
   */
  lemma CallsAsWrittenCanLoseExpiry()
    ensures var limits := map["10.0.0.7" := Entry(3, Some(60))];
            && CountersBounded(limits)
            && CallsAsWritten(limits, "10.0.0.7", 59, 60, 60) == Some(map["10.0.0.7" := Entry(1, None)])
            && !CountersBounded(CallsAsWritten(limits, "10.0.0.7", 59, 60, 60).value)
  {
    var limits := map["10.0.0.7" := Entry(3, Some(60))];
    assert Get(limits, "10.0.0.7", 59) == Some(3);
    var counted := Incr(limits, "10.0.0.7", 60);
    assert counted == map["10.0.0.7" := Entry(1, None)];
    assert counted["10.0.0.7"].expiresAt.None?;
  }

  /** A counter at the budget with no expiry refuses its address at every later moment. */
  lemma StuckCounterRefusesForever(limits: map<string, Entry<int>>, ip: string, now: int)
    requires ip in limits && limits[ip].expiresAt.None? && limits[ip].value >= Budget
    ensures Admit(limits, ip, now).None?
  {
  }

  /**
   * The evident intent, that every window closes: EXPIRE keyed on the value
   * INCR leaves (1 means this INCR created the counter) instead of on what
   * GET saw.
   */
  function CallsIntended(limits: map<string, Entry<int>>, ip: string, tGet: int, tIncr: int, tExpire: int)
    : Option<map<string, Entry<int>>>
  {
    var seen := Get(limits, ip, tGet);
    if seen.Some? && seen.value >= Budget then None
    else
      var counted := Incr(limits, ip, tIncr);
      Some(if counted[ip].value == 1 then Expire(counted, ip, Window, tExpire) else counted)
  }

  /** Whatever the moments of the calls, in order, the intended calls keep every counter bounded and expiring. */
  lemma CallsIntendedKeepCountersBounded(limits: map<string, Entry<int>>, ip: string, tGet: int, tIncr: int, tExpire: int)
    requires CountersBounded(limits) && tGet <= tIncr
    ensures var r := CallsIntended(limits, ip, tGet, tIncr, tExpire);
            r.Some? ==> CountersBounded(r.value)
    ensures var r := CallsIntended(limits, ip, tGet, tIncr, tExpire);
            r.Some? && r.value[ip].value == 1 ==> r.value[ip].expiresAt == Some(tExpire + Window)
    ensures var r := CallsIntended(limits, ip, tGet, tIncr, tExpire);
            r.Some? && r.value[ip].value != 1 ==> r.value[ip].expiresAt == limits[ip].expiresAt
  {
  }

  /**
   * At one instant the calls as written and the intended calls both produce
   * exactly the counter table `Admit` describes, which is the limiter the rest
   * of the model uses.
   */
  lemma CallsAgreeAtOneInstant(limits: map<string, Entry<int>>, ip: string, now: int)
    requires CountersBounded(limits)
    ensures CallsAsWritten(limits, ip, now, now, now) == Admit(limits, ip, now)
    ensures CallsIntended(limits, ip, now, now, now) == Admit(limits, ip, now)
  {
    if Get(limits, ip, now).None? {
      var counted := Incr(limits, ip, now);
      assert counted == limits[ip := Entry(1, None)];
      assert Expire(counted, ip, Window, now) == limits[ip := Entry(1, Some(now + Window))];
    }
  }

  /** The decisions on successive requests from `ip` at the given times. */
  function Decisions(limits: map<string, Entry<int>>, ip: string, times: seq<int>): (r: seq<bool>)
    ensures |r| == |times|
    decreases times
  {
    if times == [] then []
    else match Admit(limits, ip, times[0])
      case None => [false] + Decisions(limits, ip, times[1..])
      case Some(next) => [true] + Decisions(next, ip, times[1..])
  }

  /** Inside the window opened at `start`, with `k` requests counted, the i-th further request passes iff k + i < Budget. */
  lemma {:induction false} WithinWindow(limits: map<string, Entry<int>>, ip: string, times: seq<int>, start: int, k: int)
    requires ip in limits && limits[ip] == Entry(k, Some(start + Window))
    requires forall i :: 0 <= i < |times| ==> times[i] < start + Window
    ensures forall i :: 0 <= i < |times| ==> Decisions(limits, ip, times)[i] == (k + i < Budget)
  {
    if times != [] {
      var rest := times[1..];
      assert forall i :: 0 <= i < |rest| ==> rest[i] == times[i + 1];
      match Admit(limits, ip, times[0])
      case None =>
        WithinWindow(limits, ip, rest, start, k);
      case Some(next) =>
        WithinWindow(next, ip, rest, start, k + 1);
    }
  }

  /**
   * Starting with no live counter, the requests of one window are admitted
   * while fewer than `Budget` precede them: the first five pass, every later
   * one within `Window` seconds of the first is rejected.
   */
  lemma {:induction false} FixedWindowBudget(limits: map<string, Entry<int>>, ip: string, times: seq<int>)
    requires |times| > 0 && Get(limits, ip, times[0]).None?
    requires forall i :: 0 <= i < |times| ==> times[i] < times[0] + Window
    ensures forall i :: 0 <= i < |times| ==> Decisions(limits, ip, times)[i] == (i < Budget)
  {
    var next := Admit(limits, ip, times[0]).value;
    var rest := times[1..];
    assert forall i :: 0 <= i < |rest| ==> rest[i] == times[i + 1];
    WithinWindow(next, ip, rest, times[0], 1);
  }
}
