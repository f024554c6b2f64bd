/** What the metered-call protocol keeps under every interleaving of calls. */
module GatewaySafety {
  import opened Common
  import opened Pricing
  import opened Gateway

  // ----- Overrides only tighten -----

  /** Effective caps never exceed the global ones, so what passes the pre-check passes the global caps. */
  lemma PassingThePreCheckPassesTheGlobals(g: Caps, meters: map<Meter, nat>, r: Request, m: Meter)
    requires WithinCaps(g, meters, r) && Touches(r, m)
    ensures Reserved(r, m.axis) <= PerCall(g, m.axis)
    ensures Level(meters, m) + Reserved(r, m.axis) <= Cap(g, m)
  {
    hide Reserved;
  }

  /** The amount is within the global cap and within the override where there is one. */
  predicate Allows(override: Option<int>, globalCap: int, amount: int) {
    amount <= globalCap && (override.Some? ==> amount <= override.value)
  }

  /** The pre-check passes exactly when the reservation is allowed per call, on top of the run's and on top of the day's
      meter, in dollars and in tokens. */
  lemma PreCheckPassesExactly(g: Caps, meters: map<Meter, nat>, r: Request)
    ensures WithinCaps(g, meters, r) <==>
            var usd, tok, o := Reserved(r, Usd), Reserved(r, Tok), r.overrides;
            var run, day := RunBucket(r.run), DayBucket(r.day);
            && Allows(o.perCallUsd, g.perCallUsd, usd) && Allows(o.perCallTok, g.perCallTok, tok)
            && Allows(o.runUsd, g.runUsd, Level(meters, Meter(run, Usd)) + usd)
            && Allows(o.runTok, g.runTok, Level(meters, Meter(run, Tok)) + tok)
            && Allows(o.dayUsd, g.dayUsd, Level(meters, Meter(day, Usd)) + usd)
            && Allows(o.dayTok, g.dayTok, Level(meters, Meter(day, Tok)) + tok)
  {
    hide Reserved;
    hide Level;
    assert WithinCaps(g, meters, r) <==> OneAxis(g, meters, r, Usd) && OneAxis(g, meters, r, Tok);
  }

  predicate OneAxis(g: Caps, meters: map<Meter, nat>, r: Request, axis: Axis) {
    var c := EffectiveCaps(r.overrides, g);
    && Reserved(r, axis) <= PerCall(c, axis)
    && Level(meters, Meter(RunBucket(r.run), axis)) + Reserved(r, axis) <= Cap(c, Meter(RunBucket(r.run), axis))
    && Level(meters, Meter(DayBucket(r.day), axis)) + Reserved(r, axis) <= Cap(c, Meter(DayBucket(r.day), axis))
  }

  /** Reserved are the estimate and the whole of max_tokens, charged is the usage reported; in dollars each at its own
      price, rounded half up to a micro-dollar. */
  lemma AmountsWrittenOut(r: Request, a: Answer)
    ensures Reserved(r, Tok) == r.est + r.maxTokens && Actual(r, a, Tok) == a.input + a.output
    ensures r.price.Some? ==>
              var p := r.price.value;
              var reserved := r.est as real * p.inputPerMtok + r.maxTokens as real * p.outputPerMtok;
              var actual := a.input as real * p.inputPerMtok + a.output as real * p.outputPerMtok;
              && reserved - 0.5 < Reserved(r, Usd) as real <= reserved + 0.5
              && actual - 0.5 < Actual(r, a, Usd) as real <= actual + 0.5
  {
    if r.price.Some? {
      CostWithinHalfMicro(r.price.value, r.est, r.maxTokens);
      CostWithinHalfMicro(r.price.value, a.input, a.output);
      hide ComputeCost;
    }
  }

  // ----- Bounded overshoot -----

  /** Every call in flight was admitted within the per-call cap. */
  predicate FlightsFit(g: Caps, calls: seq<Call>) {
    forall c, axis: Axis | c in calls && (c.phase.Admitted? || c.phase.Replied?) ::
      Reserved(c.req, axis) <= PerCall(g, axis)
  }

  lemma FlightsKeepFitting(g: Caps, s: State, a: Action)
    requires FlightsFit(g, s.calls)
    ensures FlightsFit(g, Next(g, s, a).calls)
  {
    hide Reserved;
    OneCallMoves(g, s, a);
    hide Next;
    if a.Admit? && a.i < |s.calls| && WithinCaps(g, s.meters, s.calls[a.i].req) {
      var r := s.calls[a.i].req;
      forall axis: Axis ensures Reserved(r, axis) <= PerCall(g, axis) {
        PassingThePreCheckPassesTheGlobals(g, s.meters, r, Meter(RunBucket(r.run), axis));
      }
    }
  }

  lemma OneFlightFits(g: Caps, calls: seq<Call>, c: Call, m: Meter)
    requires FlightsFit(g, calls) && c in calls
    ensures Share(InFlight(m), c) <= Share(Flights(m), c) * Max(0, PerCall(g, m.axis))
  {
    hide Reserved;
    assert Share(Flights(m), c) == 0 || Share(Flights(m), c) == 1;
  }

  lemma {:induction false} InFlightAtMost(g: Caps, calls: seq<Call>, m: Meter)
    requires FlightsFit(g, calls)
    ensures Sum(InFlight(m), calls) <= Sum(Flights(m), calls) * Max(0, PerCall(g, m.axis))
  {
    hide Share;
    if calls != [] {
      var rest, last := calls[..|calls| - 1], calls[|calls| - 1];
      InFlightAtMost(g, rest, m);
      OneFlightFits(g, calls, last, m);
      Distribute(Sum(Flights(m), rest), Share(Flights(m), last), Max(0, PerCall(g, m.axis)));
    }
  }

  /** No prefix of the run has more than `k` calls in flight on the meter. */
  predicate AtMostInFlight(g: Caps, actions: seq<Action>, m: Meter, k: nat) {
    && Sum(Flights(m), Exec(g, START, actions).calls) <= k
    && (actions != [] ==> AtMostInFlight(g, actions[..|actions| - 1], m, k))
  }

  /** The most a meter and the reservations in flight on it can reach with at most `k` calls in flight. */
  function Ceiling(g: Caps, m: Meter, k: nat): int {
    Max(0, Cap(g, m)) + (k - 1) * Max(0, PerCall(g, m.axis))
  }

  function Load(s: State, m: Meter): nat {
    Level(s.meters, m) + Sum(InFlight(m), s.calls)
  }

  predicate Admits(g: Caps, s: State, a: Action, m: Meter) {
    && a.Admit? && a.i < |s.calls| && s.calls[a.i].phase.Missed?
    && WithinCaps(g, s.meters, s.calls[a.i].req) && Touches(s.calls[a.i].req, m)
  }

  /** A reservation joins the load only by an admission; a charge never exceeds the reservation it
      releases by more than the excess it adds. */
  lemma LoadAfterStep(g: Caps, s: State, a: Action, m: Meter)
    ensures var s' := Next(g, s, a);
            if Admits(g, s, a, m) then
              && Load(s', m) == Load(s, m) + Reserved(s.calls[a.i].req, m.axis)
              && Sum(Flights(m), s'.calls) == Sum(Flights(m), s.calls) + 1
            else Load(s', m) - Level(s'.excess, m) <= Load(s, m) - Level(s.excess, m)
  {
    SumAfterStep(InFlight(m), g, s, a);
    SumAfterStep(Flights(m), g, s, a);
    LevelAfterStep(g, s, a, m);
    hide Next;
    hide Sum;
    hide Level;
    hide Actual;
    hide Reserved;
    hide WithinCaps;
    hide KeyOf;
    hide Cacheable;
  }

  lemma OvershootAfterStep(g: Caps, s: State, a: Action, m: Meter, k: nat)
    requires k >= 1 && FlightsFit(g, s.calls)
    requires Load(s, m) <= Ceiling(g, m, k) + Level(s.excess, m)
    requires Sum(Flights(m), Next(g, s, a).calls) <= k
    ensures Load(Next(g, s, a), m) <= Ceiling(g, m, k) + Level(Next(g, s, a).excess, m)
  {
    hide Next;
    hide Reserved;
    LoadAfterStep(g, s, a, m);
    LevelAfterStep(g, s, a, m);
    if Admits(g, s, a, m) {
      PassingThePreCheckPassesTheGlobals(g, s.meters, s.calls[a.i].req, m);
      InFlightAtMost(g, s.calls, m);
      MulMono(Sum(Flights(m), s.calls), k - 1, Max(0, PerCall(g, m.axis)));
    }
  }

  lemma {:induction false} RunFlightsFit(g: Caps, actions: seq<Action>)
    ensures FlightsFit(g, Exec(g, START, actions).calls)
  {
    hide Next;
    if actions != [] {
      RunFlightsFit(g, actions[..|actions| - 1]);
      FlightsKeepFitting(g, Exec(g, START, actions[..|actions| - 1]), actions[|actions| - 1]);
    }
  }

  /** Main result: in every interleaving with at most `k` calls in flight on a run's or a day's meter, the
      meter plus all reservations in flight stays under the cap plus k - 1 per-call caps, on both axes and
      whatever the overrides, give or take usage the provider reported above its reservation. */
  lemma {:induction false} BoundedOvershoot(g: Caps, actions: seq<Action>, m: Meter, k: nat)
    requires k >= 1 && AtMostInFlight(g, actions, m, k)
    ensures var s := Exec(g, START, actions); Load(s, m) <= Ceiling(g, m, k) + Level(s.excess, m)
  {
    hide Next;
    if actions != [] {
      var before, a := actions[..|actions| - 1], actions[|actions| - 1];
      BoundedOvershoot(g, before, m, k);
      RunFlightsFit(g, before);
      OvershootAfterStep(g, Exec(g, START, before), a, m, k);
    } else {
      MulMono(0, k - 1, Max(0, PerCall(g, m.axis)));
    }
  }

  /** Usage inside the reservation costs no more than was reserved, on either axis. */
  lemma WithinReservationCostsNoMore(r: Request, a: Answer, axis: Axis)
    requires a.input <= r.est && a.output <= r.maxTokens
    ensures Actual(r, a, axis) <= Reserved(r, axis)
  {
    if axis.Usd? && r.price.Some? {
      CostIsMonotone(r.price.value, a.input, a.output, r.est, r.maxTokens);
    }
  }

  /** Every reply used no more than its call had reserved. */
  predicate HonestReplies(g: Caps, actions: seq<Action>) {
    actions != [] ==>
      var before, a := actions[..|actions| - 1], actions[|actions| - 1];
      && HonestReplies(g, before)
      && (a.Reply? && a.answer.Some? && a.i < |Exec(g, START, before).calls| ==>
            var r := Exec(g, START, before).calls[a.i].req;
            a.answer.value.input <= r.est && a.answer.value.output <= r.maxTokens)
  }

  predicate RepliesFit(calls: seq<Call>) {
    forall c | c in calls && c.phase.Replied? ::
      c.phase.answer.input <= c.req.est && c.phase.answer.output <= c.req.maxTokens
  }

  lemma {:induction false} HonestRunHasNoExcess(g: Caps, actions: seq<Action>, m: Meter)
    requires HonestReplies(g, actions)
    ensures RepliesFit(Exec(g, START, actions).calls) && Level(Exec(g, START, actions).excess, m) == 0
  {
    if actions != [] {
      var before, a := actions[..|actions| - 1], actions[|actions| - 1];
      var s := Exec(g, START, before);
      HonestRunHasNoExcess(g, before, m);
      HonestStep(g, s, a, m);
    }
  }

  lemma HonestStep(g: Caps, s: State, a: Action, m: Meter)
    requires RepliesFit(s.calls)
    requires a.Reply? && a.answer.Some? && a.i < |s.calls| ==>
               a.answer.value.input <= s.calls[a.i].req.est && a.answer.value.output <= s.calls[a.i].req.maxTokens
    ensures RepliesFit(Next(g, s, a).calls) && Level(Next(g, s, a).excess, m) == Level(s.excess, m)
  {
    OneCallMoves(g, s, a);
    LevelAfterStep(g, s, a, m);
    hide Next;
    hide Actual;
    hide Reserved;
    hide WithinCaps;
    hide KeyOf;
    hide Cacheable;
    hide Level;
    if a.Reconcile? && a.i < |s.calls| && s.calls[a.i].phase.Replied? {
      assert s.calls[a.i] in s.calls;
      WithinReservationCostsNoMore(s.calls[a.i].req, s.calls[a.i].phase.answer, m.axis);
    }
  }

  /** One call at a time, each inside its reservation, never passes a cap. */
  lemma SerialCallsStayUnderTheCap(g: Caps, actions: seq<Action>, m: Meter)
    requires AtMostInFlight(g, actions, m, 1) && HonestReplies(g, actions)
    ensures Level(Exec(g, START, actions).meters, m) <= Max(0, Cap(g, m))
  {
    hide Next;
    BoundedOvershoot(g, actions, m, 1);
    HonestRunHasNoExcess(g, actions, m);
  }
}
