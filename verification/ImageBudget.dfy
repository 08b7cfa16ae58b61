/** The hourly budget of the image endpoint: a fixed window that starts anew with the first request after it ran out. */
module ImageBudget {

  const HOUR: real := 3600.0

  datatype State = State(count: int, resetAt: real)

  /** A request at clock reading `now`; one with a malformed size is refused before the budget is looked at. */
  datatype Request = Request(now: real, sizeOk: bool)

  datatype Answer = BadSize | OverBudget | Accepted

  /** A request that was let through, and the number of the window it fell into. */
  datatype Pass = Pass(now: real, window: nat)

  /** The state, the windows' starting times so far, and the requests let through. */
  datatype History = History(state: State, starts: seq<real>, passes: seq<Pass>)

  function Renewed(s: State, now: real): State {
    if now >= s.resetAt then State(0, now + HOUR) else s
  }

  function Answered(budget: int, s: State, r: Request): (State, Answer) {
    if !r.sizeOk then (s, BadSize)
    else
      var t := Renewed(s, r.now);
      if t.count >= budget then (t, OverBudget) else (t.(count := t.count + 1), Accepted)
  }

  /** The history of a process that was started at `t0`. */
  function Run(budget: int, t0: real, rs: seq<Request>): (h: History)
    ensures h.starts != []
  {
    if rs == [] then History(State(0, t0 + HOUR), [t0], [])
    else After(budget, Run(budget, t0, rs[..|rs| - 1]), rs[|rs| - 1])
  }

  ghost predicate Monotone(t0: real, rs: seq<Request>) {
    (forall i :: 0 <= i < |rs| ==> t0 <= rs[i].now) && forall i, j :: 0 <= i < j < |rs| ==> rs[i].now <= rs[j].now
  }

  function CountWindow(ps: seq<Pass>, w: int): nat {
    if ps == [] then 0
    else CountWindow(ps[..|ps| - 1], w) + if ps[|ps| - 1].window == w then 1 else 0
  }

  /** The passes from `t` to an hour later, both ends included. */
  function CountHour(ps: seq<Pass>, t: real): nat {
    if ps == [] then 0
    else CountHour(ps[..|ps| - 1], t) + if t <= ps[|ps| - 1].now <= t + HOUR then 1 else 0
  }

  function Allowed(budget: int): nat {
    if budget < 0 then 0 else budget
  }

  /** Windows are at least an hour apart, and each pass lies within the first hour of its window. */
  ghost predicate WindowsHold(h: History) {
    && h.starts != []
    && h.state.resetAt == h.starts[|h.starts| - 1] + HOUR
    && (forall i :: 0 <= i < |h.starts| - 1 ==> h.starts[i] + HOUR <= h.starts[i + 1])
    && (forall i :: 0 <= i < |h.passes| ==> InWindow(h.starts, h.passes[i]))
  }

  ghost predicate InWindow(starts: seq<real>, p: Pass) {
    p.window < |starts| && starts[p.window] <= p.now < starts[p.window] + HOUR
  }

  /** The counter counts the passes of the current window, and no window has more than the budget. */
  ghost predicate BudgetHolds(budget: int, h: History) {
    && 0 <= h.state.count <= Allowed(budget)
    && h.state.count == CountWindow(h.passes, |h.starts| - 1)
    && forall w :: CountWindow(h.passes, w) <= Allowed(budget)
  }

  lemma {:induction false} LaterWindowsEmpty(ps: seq<Pass>, w: int)
    requires forall i :: 0 <= i < |ps| ==> ps[i].window < w
    ensures CountWindow(ps, w) == 0
  {
    if ps != [] {
      LaterWindowsEmpty(ps[..|ps| - 1], w);
    }
  }

  /** Opening the window of `now`, if the old one has run out. */
  function Opened(h: History, now: real): History {
    if now >= h.state.resetAt then History(State(0, now + HOUR), h.starts + [now], h.passes) else h
  }

  function Counted(h: History, now: real): History
    requires h.starts != []
  {
    History(h.state.(count := h.state.count + 1), h.starts, h.passes + [Pass(now, |h.starts| - 1)])
  }

  function After(budget: int, h: History, r: Request): (t: History)
    requires h.starts != []
    ensures t.starts != []
    ensures t.state == Answered(budget, h.state, r).0
    ensures t.passes == h.passes <==> Answered(budget, h.state, r).1 != Accepted
  {
    if !r.sizeOk then h
    else
      var t := Opened(h, r.now);
      if t.state.count >= budget then t else Counted(t, r.now)
  }

  lemma {:induction false} OpenedHolds(budget: int, h: History, now: real)
    requires WindowsHold(h) && BudgetHolds(budget, h) && h.starts[|h.starts| - 1] <= now
    ensures var t := Opened(h, now);
            && WindowsHold(t) && BudgetHolds(budget, t)
            && t.starts[|t.starts| - 1] <= now < t.state.resetAt
  {
    if now >= h.state.resetAt {
      LaterWindowsEmpty(h.passes, |h.starts|);
      forall i | 0 <= i < |h.passes| ensures InWindow(h.starts + [now], h.passes[i]) {
        assert InWindow(h.starts, h.passes[i]);
      }
    }
  }

  lemma {:induction false} CountedHolds(budget: int, h: History, now: real)
    requires WindowsHold(h) && BudgetHolds(budget, h) && h.state.count < budget
    requires h.starts[|h.starts| - 1] <= now < h.state.resetAt
    ensures var t := Counted(h, now); WindowsHold(t) && BudgetHolds(budget, t)
  {
  }

  ghost predicate Inv(budget: int, h: History, now: real) {
    WindowsHold(h) && BudgetHolds(budget, h) && h.starts[|h.starts| - 1] <= now
  }

  lemma {:induction false} AfterHolds(budget: int, h: History, now: real, r: Request)
    requires Inv(budget, h, now) && now <= r.now
    ensures Inv(budget, After(budget, h, r), r.now)
  {
    if r.sizeOk {
      OpenedHolds(budget, h, r.now);
      if Opened(h, r.now).state.count < budget {
        CountedHolds(budget, Opened(h, r.now), r.now);
      }
    }
  }

  function LastClock(t0: real, rs: seq<Request>): real {
    if rs == [] then t0 else rs[|rs| - 1].now
  }

  lemma {:induction false} MonotonePrefix(t0: real, rs: seq<Request>)
    requires Monotone(t0, rs) && rs != []
    ensures var earlier := rs[..|rs| - 1]; Monotone(t0, earlier) && LastClock(t0, earlier) <= LastClock(t0, rs)
  {
  }

  /** In every run with a clock that does not go back, windows start at least an hour apart, the counter counts the
      passes of the current window, and no window lets more than the budget through. */
  lemma {:induction false} WindowWithinBudget(budget: int, t0: real, rs: seq<Request>)
    requires Monotone(t0, rs)
    ensures Inv(budget, Run(budget, t0, rs), LastClock(t0, rs))
  {
    if rs != [] {
      var earlier := rs[..|rs| - 1];
      MonotonePrefix(t0, rs);
      WindowWithinBudget(budget, t0, earlier);
      AfterHolds(budget, Run(budget, t0, earlier), LastClock(t0, earlier), rs[|rs| - 1]);
    } else {
      assert forall w :: CountWindow([], w) == 0;
    }
  }

  lemma {:induction false} StartsApart(h: History, i: nat, j: nat)
    requires WindowsHold(h) && i < j < |h.starts|
    ensures h.starts[i] + HOUR <= h.starts[j]
    decreases j
  {
    if i < j - 1 {
      StartsApart(h, i, j - 1);
    }
  }

  /** Passes two or more windows apart are more than an hour apart. */
  lemma {:induction false} FarWindows(h: History, i: nat, j: nat)
    requires WindowsHold(h) && i < |h.passes| && j < |h.passes| && h.passes[i].window + 2 <= h.passes[j].window
    ensures h.passes[i].now + HOUR < h.passes[j].now
  {
    var w := h.passes[i].window;
    assert InWindow(h.starts, h.passes[i]) && InWindow(h.starts, h.passes[j]);
    StartsApart(h, w, w + 1);
    StartsApart(h, w + 1, h.passes[j].window);
  }

  lemma {:induction false} HourInTwoWindows(ps: seq<Pass>, t: real, w: int)
    requires forall i :: 0 <= i < |ps| && t <= ps[i].now <= t + HOUR ==> w <= ps[i].window <= w + 1
    ensures CountHour(ps, t) <= CountWindow(ps, w) + CountWindow(ps, w + 1)
  {
    if ps != [] {
      HourInTwoWindows(ps[..|ps| - 1], t, w);
    }
  }

  /** No hour, wherever it starts, sees more than twice the budget. */
  lemma {:induction false} TwiceBudgetPerHour(budget: int, t0: real, rs: seq<Request>, t: real)
    requires Monotone(t0, rs)
    ensures CountHour(Run(budget, t0, rs).passes, t) <= 2 * Allowed(budget)
  {
    WindowWithinBudget(budget, t0, rs);
    var h := Run(budget, t0, rs);
    var w := FirstWindow(h.passes, t);
    forall i | 0 <= i < |h.passes| && t <= h.passes[i].now <= t + HOUR ensures w <= h.passes[i].window <= w + 1 {
      var k :| 0 <= k < |h.passes| && t <= h.passes[k].now <= t + HOUR && h.passes[k].window == w;
      if h.passes[i].window >= w + 2 {
        FarWindows(h, k, i);
      }
    }
    HourInTwoWindows(h.passes, t, w);
  }

  /** The first window with a pass in the hour from `t`, if there is one. */
  lemma {:induction false} FirstWindow(ps: seq<Pass>, t: real) returns (w: int)
    ensures forall i :: 0 <= i < |ps| && t <= ps[i].now <= t + HOUR ==>
                          && w <= ps[i].window
                          && exists k :: 0 <= k < |ps| && t <= ps[k].now <= t + HOUR && ps[k].window == w
  {
    w := 0;
    if ps != [] {
      var n := |ps| - 1;
      w := FirstWindow(ps[..n], t);
      var some := exists i :: 0 <= i < n && t <= ps[i].now <= t + HOUR;
      if t <= ps[n].now <= t + HOUR && (!some || ps[n].window < w) {
        w := ps[n].window;
      } else if some {
        var i :| 0 <= i < n && t <= ps[i].now <= t + HOUR;
        assert ps[..n][i] == ps[i];
        var k :| 0 <= k < n && t <= ps[..n][k].now <= t + HOUR && ps[..n][k].window == w;
        assert ps[k].window == w;
      }
    }
  }

  // ---------------------------------------------------------------- when every hour keeps the budget

  /** The passes come in the order of time and of their windows. */
  ghost predicate InOrder(ps: seq<Pass>) {
    forall i, j :: 0 <= i < j < |ps| ==> ps[i].now <= ps[j].now && ps[i].window <= ps[j].window
  }

  lemma {:induction false} AfterOrdered(budget: int, h: History, now: real, r: Request)
    requires Inv(budget, h, now) && now <= r.now && InOrder(h.passes)
             && (forall i :: 0 <= i < |h.passes| ==> h.passes[i].now <= now)
    ensures var t := After(budget, h, r).passes; InOrder(t) && forall i :: 0 <= i < |t| ==> t[i].now <= r.now
  {
    forall i | 0 <= i < |h.passes| ensures h.passes[i].window < |h.starts| {
      assert InWindow(h.starts, h.passes[i]);
    }
  }

  lemma {:induction false} RunOrdered(budget: int, t0: real, rs: seq<Request>)
    requires Monotone(t0, rs)
    ensures var ps := Run(budget, t0, rs).passes;
            InOrder(ps) && forall i :: 0 <= i < |ps| ==> ps[i].now <= LastClock(t0, rs)
  {
    if rs != [] {
      var earlier := rs[..|rs| - 1];
      MonotonePrefix(t0, rs);
      RunOrdered(budget, t0, earlier);
      WindowWithinBudget(budget, t0, earlier);
      AfterOrdered(budget, Run(budget, t0, earlier), LastClock(t0, earlier), rs[|rs| - 1]);
    }
  }

  /** No hour, wherever it starts, holds more than `b` passes. */
  ghost predicate EveryHour(ps: seq<Pass>, b: int) {
    forall t :: CountHour(ps, t) <= b
  }

  /** The passes of window `w` at or after `t`. */
  function CountLate(ps: seq<Pass>, w: int, t: real): nat {
    if ps == [] then 0
    else
      var last := ps[|ps| - 1];
      CountLate(ps[..|ps| - 1], w, t) + if last.window == w && t <= last.now then 1 else 0
  }

  /** At pass `k`: the passes of its window so far, and those of the window before that are not yet an hour old. */
  function Load(ps: seq<Pass>, k: nat): nat
    requires k < |ps|
  {
    CountWindow(ps[..k + 1], ps[k].window) + CountLate(ps[..k + 1], ps[k].window - 1, ps[k].now - HOUR)
  }

  /** Whenever a request is let through, its window and the last hour of the one before hold no more than `b`. */
  ghost predicate NoLateExcess(ps: seq<Pass>, b: int) {
    forall k :: 0 <= k < |ps| ==> Load(ps, k) <= b
  }

  /** The hour that ends with pass `last` is its window and the late part of the one before. */
  lemma {:induction false} TrailingHour(ps: seq<Pass>, last: Pass)
    requires forall i :: 0 <= i < |ps| ==> Trails(ps[i], last)
    ensures CountHour(ps, last.now - HOUR) ==
            CountWindow(ps, last.window) + CountLate(ps, last.window - 1, last.now - HOUR)
  {
    if ps != [] {
      TrailingHour(ps[..|ps| - 1], last);
      assert Trails(ps[|ps| - 1], last);
    }
  }

  /** `p` is no later than `last`, and within the hour before it exactly if it is of its window, or late in the one
      before. */
  predicate Trails(p: Pass, last: Pass) {
    && p.now <= last.now && p.window <= last.window
    && (p.window == last.window ==> last.now - HOUR <= p.now)
    && (p.window + 2 <= last.window ==> p.now < last.now - HOUR)
  }

  lemma {:induction false} AllTrail(h: History, k: nat, i: nat)
    requires WindowsHold(h) && InOrder(h.passes) && i <= k < |h.passes|
    ensures Trails(h.passes[i], h.passes[k])
  {
    assert InWindow(h.starts, h.passes[i]) && InWindow(h.starts, h.passes[k]);
    if h.passes[i].window + 2 <= h.passes[k].window {
      FarWindows(h, i, k);
    }
  }

  lemma {:induction false} LoadIsHour(h: History, k: nat)
    requires WindowsHold(h) && InOrder(h.passes) && k < |h.passes|
    ensures Load(h.passes, k) == CountHour(h.passes[..k + 1], h.passes[k].now - HOUR)
  {
    var ps := h.passes[..k + 1];
    forall i | 0 <= i < |ps| ensures Trails(ps[i], h.passes[k]) {
      AllTrail(h, k, i);
    }
    TrailingHour(ps, h.passes[k]);
  }

  lemma {:induction false} HourOfPrefix(ps: seq<Pass>, k: nat, t: real)
    requires k <= |ps|
    ensures CountHour(ps[..k], t) <= CountHour(ps, t)
    decreases |ps|
  {
    if k < |ps| {
      var earlier := ps[..|ps| - 1];
      HourOfPrefix(earlier, k, t);
      assert earlier[..k] == ps[..k];
    } else {
      assert ps[..k] == ps;
    }
  }

  /** Of the first `n` passes, an hour holds no more than the one that ends with its last pass. */
  lemma {:induction false} HourBeforeLast(ps: seq<Pass>, t: real, b: nat, n: nat)
    requires n <= |ps| && InOrder(ps) && forall k :: 0 <= k < |ps| ==> CountHour(ps[..k + 1], ps[k].now - HOUR) <= b
    ensures CountHour(ps[..n], t) <= b
  {
    if n > 0 {
      var k := n - 1;
      HourBeforeLast(ps, t, b, k);
      assert ps[..n][..k] == ps[..k] && ps[..n][k] == ps[k];
      if t <= ps[k].now <= t + HOUR {
        HourStartsLater(ps[..n], t, ps[k].now - HOUR);
      }
    }
  }

  /** With no pass after `u + HOUR`, the hour from `u` holds all that one from a later `t` does. */
  lemma {:induction false} HourStartsLater(ps: seq<Pass>, t: real, u: real)
    requires u <= t && forall i :: 0 <= i < |ps| ==> ps[i].now <= u + HOUR
    ensures CountHour(ps, t) <= CountHour(ps, u)
  {
    if ps != [] {
      HourStartsLater(ps[..|ps| - 1], t, u);
    }
  }

  /** Every hour keeps the budget exactly when each request that is let through finds room for itself in its window
      together with what the last hour still has of the window before. */
  lemma {:induction false} EveryHourIff(budget: int, t0: real, rs: seq<Request>)
    requires Monotone(t0, rs)
    ensures var ps := Run(budget, t0, rs).passes;
            EveryHour(ps, Allowed(budget)) <==> NoLateExcess(ps, Allowed(budget))
  {
    var h := Run(budget, t0, rs);
    var ps, b := h.passes, Allowed(budget);
    WindowWithinBudget(budget, t0, rs);
    RunOrdered(budget, t0, rs);
    if NoLateExcess(ps, b) {
      LoadsDecide(h, b);
    }
    if EveryHour(ps, b) {
      HoursDecide(h, b);
    }
  }

  lemma {:induction false} LoadsDecide(h: History, b: nat)
    requires WindowsHold(h) && InOrder(h.passes) && NoLateExcess(h.passes, b)
    ensures EveryHour(h.passes, b)
  {
    var ps := h.passes;
    forall k | 0 <= k < |ps| ensures CountHour(ps[..k + 1], ps[k].now - HOUR) <= b {
      LoadIsHour(h, k);
      assert Load(ps, k) <= b;
    }
    forall t ensures CountHour(ps, t) <= b {
      HourBeforeLast(ps, t, b, |ps|);
      assert ps[..|ps|] == ps;
    }
  }

  lemma {:induction false} HoursDecide(h: History, b: nat)
    requires WindowsHold(h) && InOrder(h.passes) && EveryHour(h.passes, b)
    ensures NoLateExcess(h.passes, b)
  {
    var ps := h.passes;
    forall k | 0 <= k < |ps| ensures Load(ps, k) <= b {
      LoadIsHour(h, k);
      HourOfPrefix(ps, k + 1, ps[k].now - HOUR);
      assert CountHour(ps, ps[k].now - HOUR) <= b;
    }
  }

  function Burst(n: nat, now: real): seq<Request> {
    seq(n, _ => Request(now, true))
  }

  /** The bound is met: a burst at the end of a window and one at the start of the next make twice the budget. */
  lemma {:induction false} TwiceBudgetHappens(budget: nat)
    ensures var rs := Burst(budget, 3599.0) + Burst(budget, 3600.0);
            Monotone(0.0, rs) && CountHour(Run(budget, 0.0, rs).passes, 3599.0) == 2 * budget
  {
    FirstBurst(budget, budget);
    SecondBurst(budget, budget);
  }

  lemma {:induction false} PassCounts(budget: int, h: History, now: real, t: real)
    requires h.starts != [] && Opened(h, now).state.count < budget && t <= now <= t + HOUR
    ensures var after := After(budget, h, Request(now, true));
            && after.state == Opened(h, now).state.(count := Opened(h, now).state.count + 1)
            && CountHour(after.passes, t) == CountHour(h.passes, t) + 1
  {
  }

  lemma {:induction false} RunOneMore(budget: int, t0: real, rs: seq<Request>, r: Request)
    ensures Run(budget, t0, rs + [r]) == After(budget, Run(budget, t0, rs), r)
  {
  }

  lemma {:induction false} FirstBurst(budget: nat, n: nat)
    requires n <= budget
    ensures var h := Run(budget, 0.0, Burst(n, 3599.0));
            h.state == State(n, 3600.0) && CountHour(h.passes, 3599.0) == n
  {
    if n > 0 {
      FirstBurst(budget, n - 1);
      var earlier := Burst(n - 1, 3599.0);
      assert Burst(n, 3599.0) == earlier + [Request(3599.0, true)];
      RunOneMore(budget, 0.0, earlier, Request(3599.0, true));
      PassCounts(budget, Run(budget, 0.0, earlier), 3599.0, 3599.0);
    }
  }

  lemma {:induction false} SecondBurst(budget: nat, n: nat)
    requires n <= budget
    ensures var h := Run(budget, 0.0, Burst(budget, 3599.0) + Burst(n, 3600.0));
            && h.state == (if n == 0 then State(budget, 3600.0) else State(n, 7200.0))
            && CountHour(h.passes, 3599.0) == budget + n
  {
    var first := Burst(budget, 3599.0);
    if n == 0 {
      FirstBurst(budget, budget);
      assert first + Burst(0, 3600.0) == first;
    } else {
      SecondBurst(budget, n - 1);
      var earlier := first + Burst(n - 1, 3600.0);
      assert first + Burst(n, 3600.0) == earlier + [Request(3600.0, true)];
      RunOneMore(budget, 0.0, earlier, Request(3600.0, true));
      PassCounts(budget, Run(budget, 0.0, earlier), 3600.0, 3599.0);
    }
  }

  /** The endpoint's two globals, and the check at the head of the handler. */
  class Limiter {
    const budget: int
    var count: int
    var resetAt: real

    constructor (budget: int, t0: real)
      ensures this.budget == budget && State(count, resetAt) == State(0, t0 + HOUR)
    {
      this.budget := budget;
      count, resetAt := 0, t0 + HOUR;
    }

    method Admit(r: Request) returns (answer: Answer)
      modifies this
      ensures (State(count, resetAt), answer) == Answered(budget, old(State(count, resetAt)), r)
    {
      if !r.sizeOk {
        return BadSize;
      }
      if r.now >= resetAt {
        count := 0;
        resetAt := r.now + HOUR;
      }
      if count >= budget {
        return OverBudget;
      }
      count := count + 1;
      return Accepted;
    }
  }
}
