/** The metered-call protocol as a machine of atomic steps, so that any number of calls interleave:
    kill-switch check, cache lookup, pre-check, provider reply, reconcile, cache write, auto-trip, ledger row.
    Money is in micro-dollars. */
module Gateway {
  import opened Common
  import opened Pricing

  // ----- Meters and caps -----

  datatype Axis = Usd | Tok

  datatype Bucket = RunBucket(run: string) | DayBucket(day: int)

  datatype Meter = Meter(bucket: Bucket, axis: Axis)

  datatype Caps = Caps(perCallUsd: int, runUsd: int, dayUsd: int, perCallTok: int, runTok: int, dayTok: int)

  datatype Overrides = Overrides(perCallUsd: Option<int>, runUsd: Option<int>, dayUsd: Option<int>,
                                 perCallTok: Option<int>, runTok: Option<int>, dayTok: Option<int>)

  function EffectiveCaps(o: Overrides, g: Caps): Caps {
    Caps(Clamp(o.perCallUsd, g.perCallUsd), Clamp(o.runUsd, g.runUsd), Clamp(o.dayUsd, g.dayUsd),
         Clamp(o.perCallTok, g.perCallTok), Clamp(o.runTok, g.runTok), Clamp(o.dayTok, g.dayTok))
  }

  function Cap(c: Caps, m: Meter): int {
    match m.bucket
    case RunBucket(_) => if m.axis.Usd? then c.runUsd else c.runTok
    case DayBucket(_) => if m.axis.Usd? then c.dayUsd else c.dayTok
  }

  function PerCall(c: Caps, axis: Axis): int {
    if axis.Usd? then c.perCallUsd else c.perCallTok
  }

  // ----- Calls -----

  /** `est` is the pre-check's input estimate, `price` what the model costs today, `day` today's bucket. */
  datatype Request = Request(run: string, model: string, messages: seq<(string, string)>, temperature: real,
                             maxTokens: nat, noCache: bool, price: Option<Price>, est: nat, day: int,
                             overrides: Overrides)

  /** The provider is part of the model string, so it needs no field of its own. */
  datatype Key = Key(model: string, messages: seq<(string, string)>, temperature: real, maxTokens: nat)

  /** A reply with its usage; `content` is None when the provider's content is not a string. */
  datatype Answer = Answer(content: Option<string>, input: nat, output: nat)

  function KeyOf(r: Request): Key {
    Key(r.model, r.messages, r.temperature, r.maxTokens)
  }

  /** The same model, messages and parameters. */
  predicate SamePrompt(q: Request, r: Request) {
    q.model == r.model && q.messages == r.messages && q.temperature == r.temperature && q.maxTokens == r.maxTokens
  }

  /** Two requests share a cache key exactly when they ask the same. */
  lemma SameKeyExactly(q: Request, r: Request)
    ensures KeyOf(q) == KeyOf(r) <==> SamePrompt(q, r)
  {}

  predicate Cacheable(r: Request) {
    r.temperature == 0.0 && !r.noCache
  }

  predicate Touches(r: Request, m: Meter) {
    m.bucket == RunBucket(r.run) || m.bucket == DayBucket(r.day)
  }

  function Reserved(r: Request, axis: Axis): nat {
    if axis.Tok? then r.est + r.maxTokens
    else if r.price.None? then 0
    else ComputeCost(r.price.value, r.est, r.maxTokens)
  }

  function Actual(r: Request, a: Answer, axis: Axis): nat {
    if axis.Tok? then a.input + a.output
    else if r.price.None? then 0
    else ComputeCost(r.price.value, a.input, a.output)
  }

  /** Where a call stands. From Counted on, the meters hold its cost and its row is still to come;
      Lost is a call that broke off there. */
  datatype Phase =
    | Begun | Passed | Missed | Hit(answer: Answer)
    | Admitted | Replied(answer: Answer)
    | Counted(answer: Answer, newDay: int) | Stored(answer: Answer, newDay: int) | Tripped(answer: Answer)
    | Done(answer: Answer, fromCache: bool) | Failed | Lost(answer: Answer)

  datatype Call = Call(req: Request, phase: Phase)

  datatype Row = Row(run: string, input: nat, output: nat, cost: nat, cacheHit: bool)

  /** An answer of the provider, and the call and request it was given to. */
  datatype Provided = Provided(call: nat, req: Request, answer: Answer)

  /** `replies` is everything the provider ever answered; `excess` sums usage above reservation. */
  datatype State = State(killed: bool, cache: map<Key, Answer>, meters: map<Meter, nat>, calls: seq<Call>,
                         ledger: seq<Row>, replies: seq<Provided>, excess: map<Meter, nat>)

  const START := State(false, map[], map[], [], [], [], map[])

  function Level(meters: map<Meter, nat>, m: Meter): nat {
    if m in meters then meters[m] else 0
  }

  /** Add the amounts on both axes to the run's and the day's meters. */
  function Charge(meters: map<Meter, nat>, r: Request, usd: nat, tok: nat): map<Meter, nat> {
    var dayUsd, dayTok := Meter(DayBucket(r.day), Usd), Meter(DayBucket(r.day), Tok);
    var runUsd, runTok := Meter(RunBucket(r.run), Usd), Meter(RunBucket(r.run), Tok);
    meters[dayUsd := Level(meters, dayUsd) + usd][dayTok := Level(meters, dayTok) + tok]
          [runUsd := Level(meters, runUsd) + usd][runTok := Level(meters, runTok) + tok]
  }

  lemma ChargeAddsToTouched(meters: map<Meter, nat>, r: Request, usd: nat, tok: nat, m: Meter)
    ensures Level(Charge(meters, r, usd, tok), m) ==
            Level(meters, m) + if !Touches(r, m) then 0 else if m.axis.Usd? then usd else tok
  {}

  function Above(actual: nat, reserved: nat): nat {
    if actual > reserved then actual - reserved else 0
  }

  // ----- Steps -----

  datatype Action =
    | Begin(req: Request) | KillCheck(i: nat) | CacheLookup(i: nat) | Admit(i: nat)
    | Reply(i: nat, answer: Option<Answer>) | Reconcile(i: nat) | CacheWrite(i: nat) | Trip(i: nat) | WriteRow(i: nat)
    | Crash(i: nat) | SetKill(reason: string) | ClearKill | Expire(key: Key)

  /** The six pre-check comparisons, against counters read in one go. */
  predicate WithinCaps(g: Caps, meters: map<Meter, nat>, r: Request) {
    var c := EffectiveCaps(r.overrides, g);
    forall axis: Axis ::
      && Reserved(r, axis) <= PerCall(c, axis)
      && Level(meters, Meter(RunBucket(r.run), axis)) + Reserved(r, axis) <= Cap(c, Meter(RunBucket(r.run), axis))
      && Level(meters, Meter(DayBucket(r.day), axis)) + Reserved(r, axis) <= Cap(c, Meter(DayBucket(r.day), axis))
  }

  /** What one step of a call does: its new phase, the usage it charges, the reply it receives, the answer
      it caches, the rows it writes, and whether it halts the gateway. */
  datatype Effect = Effect(phase: Phase, charge: Option<Answer>, reply: Option<Answer>, store: Option<Answer>,
                           rows: seq<Row>, halt: bool)

  function To(p: Phase): Effect {
    Effect(p, None, None, None, [], false)
  }

  /** The step an action takes for a call; an action that comes out of turn does nothing. */
  function EffectOf(g: Caps, s: State, a: Action, c: Call): Effect {
    var r, p := c.req, c.phase;
    match a
    case KillCheck(_) =>
      if !p.Begun? then To(p)
      else if s.killed || r.price.None? then To(Failed)
      else To(if Cacheable(r) then Passed else Missed)
    case CacheLookup(_) =>
      if !p.Passed? then To(p)
      else if KeyOf(r) in s.cache then To(Hit(s.cache[KeyOf(r)]))
      else To(Missed)
    case Admit(_) =>
      if !p.Missed? then To(p) else To(if WithinCaps(g, s.meters, r) then Admitted else Failed)
    case Reply(_, answer) =>
      if !p.Admitted? then To(p)
      else if answer.None? then To(Failed)
      else To(Replied(answer.value)).(reply := answer)
    case Reconcile(_) =>
      if !p.Replied? then To(p)
      else
        var newDay := Level(s.meters, Meter(DayBucket(r.day), Usd)) + Actual(r, p.answer, Usd);
        To(Counted(p.answer, newDay)).(charge := Some(p.answer))
    case CacheWrite(_) =>
      if !p.Counted? then To(p)
      else To(Stored(p.answer, p.newDay)).(store := if Cacheable(r) then Some(p.answer) else None)
    case Trip(_) =>
      if !p.Stored? then To(p) else To(Tripped(p.answer)).(halt := p.newDay >= g.dayUsd)
    case WriteRow(_) =>
      if p.Tripped? then
        var row := Row(r.run, p.answer.input, p.answer.output, Actual(r, p.answer, Usd), false);
        To(Done(p.answer, false)).(rows := [row])
      else if p.Hit? then
        To(Done(p.answer, true)).(rows := [Row(r.run, p.answer.input, p.answer.output, 0, true)])
      else To(p)
    case Crash(_) =>
      // an exception or a dead process: what was counted stays counted
      if p.Counted? || p.Stored? || p.Tripped? then To(Lost(p.answer))
      else if p.Done? || p.Lost? then To(p)
      else To(Failed)
    case _ => To(p)
  }

  /** The call an action is about. */
  function Subject(a: Action): Option<nat> {
    if a.Begin? || a.SetKill? || a.ClearKill? || a.Expire? then None else Some(a.i)
  }

  function Apply(s: State, i: nat, e: Effect): State
    requires i < |s.calls|
  {
    var r := s.calls[i].req;
    State(s.killed || e.halt,
          if e.store.Some? then s.cache[KeyOf(r) := e.store.value] else s.cache,
          if e.charge.Some? then
            Charge(s.meters, r, Actual(r, e.charge.value, Usd), Actual(r, e.charge.value, Tok))
          else s.meters,
          s.calls[i := Call(r, e.phase)],
          s.ledger + e.rows,
          if e.reply.Some? then s.replies + [Provided(i, r, e.reply.value)] else s.replies,
          if e.charge.Some? then
            Charge(s.excess, r, Above(Actual(r, e.charge.value, Usd), Reserved(r, Usd)),
                   Above(Actual(r, e.charge.value, Tok), Reserved(r, Tok)))
          else s.excess)
  }

  /** One atomic step of the machine. */
  function Next(g: Caps, s: State, a: Action): State {
    match a
    case Begin(r) => s.(calls := s.calls + [Call(r, Begun)])
    case SetKill(reason) => s.(killed := reason != "") // the check is for a non-empty reason
    case ClearKill => s.(killed := false)
    case Expire(key) => s.(cache := s.cache - {key})
    case _ => if a.i < |s.calls| then Apply(s, a.i, EffectOf(g, s, a, s.calls[a.i])) else s
  }

  /** The state any interleaving leads to. */
  function Exec(g: Caps, s: State, actions: seq<Action>): State {
    if actions == [] then s
    else Next(g, Exec(g, s, actions[..|actions| - 1]), actions[|actions| - 1])
  }

  // ----- Sums over the calls -----

  datatype Gauge = InFlight(m: Meter) | Flights(m: Meter) | Exposure(m: Meter) | Unwritten(m: Meter)

  /** A call's share: its reservation while in flight, one per flight, its reservation from the kill check
      to the reconcile, and its counted cost while its row is missing. */
  function Share(q: Gauge, c: Call): nat {
    if !Touches(c.req, q.m) then 0
    else
      var p := c.phase;
      match q
      case InFlight(m) => if p.Admitted? || p.Replied? then Reserved(c.req, m.axis) else 0
      case Flights(m) => if p.Admitted? || p.Replied? then 1 else 0
      case Exposure(m) =>
        if p.Passed? || p.Missed? || p.Admitted? || p.Replied? then Reserved(c.req, m.axis) else 0
      case Unwritten(m) =>
        if p.Counted? || p.Stored? || p.Tripped? || p.Lost? then Actual(c.req, p.answer, m.axis) else 0
  }

  function Sum(q: Gauge, calls: seq<Call>): nat {
    if calls == [] then 0 else Sum(q, calls[..|calls| - 1]) + Share(q, calls[|calls| - 1])
  }

  lemma {:induction false} SumUpdate(q: Gauge, calls: seq<Call>, i: nat, c: Call)
    requires i < |calls|
    ensures Sum(q, calls[i := c]) + Share(q, calls[i]) == Sum(q, calls) + Share(q, c)
  {
    var n := |calls| - 1;
    hide Share;
    if i < n {
      SumUpdate(q, calls[..n], i, c);
      assert calls[i := c][..n] == calls[..n][i := c];
    } else {
      assert calls[i := c][..n] == calls[..n];
    }
  }

  lemma SumAppend(q: Gauge, calls: seq<Call>, c: Call)
    ensures Sum(q, calls + [c]) == Sum(q, calls) + Share(q, c)
  {
    assert (calls + [c])[..|calls|] == calls;
  }

  /** The effect of a step on its call; None when the step is about no call. */
  function Effected(g: Caps, s: State, a: Action): Option<Effect> {
    if Subject(a).Some? && Subject(a).value < |s.calls|
    then Some(EffectOf(g, s, a, s.calls[Subject(a).value]))
    else None
  }

  /** A step moves at most the phase of its own call; the others, and every request, stay. */
  lemma OneCallMoves(g: Caps, s: State, a: Action)
    ensures Next(g, s, a).calls ==
            if a.Begin? then s.calls + [Call(a.req, Begun)]
            else if Effected(g, s, a).Some? then s.calls[a.i := Call(s.calls[a.i].req, Effected(g, s, a).value.phase)]
            else s.calls
  {
    hide EffectOf;
    hide Charge;
  }

  /** So a sum over the calls changes by the share of that one call. */
  lemma SumAfterStep(q: Gauge, g: Caps, s: State, a: Action)
    ensures var calls', e := Next(g, s, a).calls, Effected(g, s, a);
            if e.Some?
            then
              var c := s.calls[a.i];
              Sum(q, calls') + Share(q, c) == Sum(q, s.calls) + Share(q, Call(c.req, e.value.phase))
            else Sum(q, calls') == Sum(q, s.calls)
  {
    OneCallMoves(g, s, a);
    hide Next;
    hide EffectOf;
    if Effected(g, s, a).Some? {
      SumUpdate(q, s.calls, a.i, Call(s.calls[a.i].req, Effected(g, s, a).value.phase));
    } else if a.Begin? {
      SumAppend(q, s.calls, Call(a.req, Begun));
    }
  }

  /** Only a charge moves a meter. */
  lemma LevelAfterStep(g: Caps, s: State, a: Action, m: Meter)
    ensures var s', e := Next(g, s, a), Effected(g, s, a);
            if e.Some? && e.value.charge.Some? && Touches(s.calls[a.i].req, m) then
              var r := s.calls[a.i].req;
              var actual, reserved := Actual(r, e.value.charge.value, m.axis), Reserved(r, m.axis);
              && Level(s'.meters, m) == Level(s.meters, m) + actual
              && Level(s'.excess, m) == Level(s.excess, m) + Above(actual, reserved)
            else Level(s'.meters, m) == Level(s.meters, m) && Level(s'.excess, m) == Level(s.excess, m)
  {
    hide Charge;
    hide EffectOf;
    hide Actual;
    hide Reserved;
    hide Touches;
    hide Above;
    hide Level;
    var e := Effected(g, s, a);
    if e.Some? && e.value.charge.Some? {
      var r, x := s.calls[a.i].req, e.value.charge.value;
      ChargeAddsToTouched(s.meters, r, Actual(r, x, Usd), Actual(r, x, Tok), m);
      ChargeAddsToTouched(s.excess, r, Above(Actual(r, x, Usd), Reserved(r, Usd)),
                          Above(Actual(r, x, Tok), Reserved(r, Tok)), m);
    }
  }
}
