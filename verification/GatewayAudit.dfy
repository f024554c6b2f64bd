/** Conservation of spend, cache transparency, and what a halt really stops, under every interleaving. */
module GatewayAudit {
  import opened Common
  import opened Pricing
  import opened Gateway

  // ----- Spend conservation -----

  function RowAmount(row: Row, axis: Axis): nat {
    if axis.Usd? then row.cost else row.input + row.output
  }

  /** What the ledger says a run spent: its rows that are not cache hits. */
  function Billed(ledger: seq<Row>, run: string, axis: Axis): nat {
    if ledger == [] then 0
    else
      var row := ledger[|ledger| - 1];
      Billed(ledger[..|ledger| - 1], run, axis) + if row.run == run && !row.cacheHit then RowAmount(row, axis) else 0
  }

  predicate Conserved(s: State, run: string, axis: Axis) {
    var m := Meter(RunBucket(run), axis);
    Level(s.meters, m) == Billed(s.ledger, run, axis) + Sum(Unwritten(m), s.calls)
  }

  lemma BilledAppend(ledger: seq<Row>, rows: seq<Row>, run: string, axis: Axis)
    ensures |rows| <= 1 ==> Billed(ledger + rows, run, axis) == Billed(ledger, run, axis) + Billed(rows, run, axis)
  {
    if rows == [] {
      assert ledger + rows == ledger;
    } else if |rows| == 1 {
      assert (ledger + rows)[..|ledger|] == ledger;
    }
  }

  lemma LedgerAfterStep(g: Caps, s: State, a: Action)
    ensures Next(g, s, a).ledger == s.ledger + if Effected(g, s, a).Some? then Effected(g, s, a).value.rows else []
  {
    hide EffectOf;
    hide Charge;
    assert s.ledger + [] == s.ledger;
  }

  function Charged(e: Effect, r: Request, m: Meter): nat {
    if e.charge.Some? && Touches(r, m) then Actual(r, e.charge.value, m.axis) else 0
  }

  /** Each step balances: what it charges a run becomes unwritten cost, and unwritten cost becomes rows. */
  lemma EffectBalances(g: Caps, s: State, a: Action, c: Call, run: string, axis: Axis)
    ensures var e, m := EffectOf(g, s, a, c), Meter(RunBucket(run), axis);
            Charged(e, c.req, m) + Share(Unwritten(m), c) ==
            Billed(e.rows, run, axis) + Share(Unwritten(m), Call(c.req, e.phase))
    ensures |EffectOf(g, s, a, c).rows| <= 1
  {
    hide Level;
    hide Reserved;
    hide ComputeCost;
    hide WithinCaps;
    hide KeyOf;
    hide Cacheable;
  }

  lemma ConservedAfterStep(g: Caps, s: State, a: Action, run: string, axis: Axis)
    requires Conserved(s, run, axis)
    ensures Conserved(Next(g, s, a), run, axis)
  {
    hide Next;
    hide EffectOf;
    hide Level;
    hide Actual;
    hide Share;
    hide Sum;
    hide Billed;
    hide Touches;
    var m, e := Meter(RunBucket(run), axis), Effected(g, s, a);
    LedgerAfterStep(g, s, a);
    BilledAppend(s.ledger, if e.Some? then e.value.rows else [], run, axis);
    SumAfterStep(Unwritten(m), g, s, a);
    LevelAfterStep(g, s, a, m);
    NothingBilled(run, axis);
    if e.Some? {
      EffectBalances(g, s, a, s.calls[a.i], run, axis);
    }
  }

  lemma NothingBilled(run: string, axis: Axis)
    ensures Billed([], run, axis) == 0
  {}

  /** Main result: in every interleaving a run's meter is exactly the ledger's non-cache-hit rows plus the
      calls that were counted and have no row yet. */
  lemma {:induction false} SpendIsConserved(g: Caps, actions: seq<Action>, run: string, axis: Axis)
    ensures Conserved(Exec(g, START, actions), run, axis)
  {
    if actions != [] {
      SpendIsConserved(g, actions[..|actions| - 1], run, axis);
      ConservedAfterStep(g, Exec(g, START, actions[..|actions| - 1]), actions[|actions| - 1], run, axis);
    }
  }

  // ----- Cache transparency -----

  predicate HoldsAnswer(p: Phase) {
    p.Hit? || p.Replied? || p.Counted? || p.Stored? || p.Tripped? || p.Done? || p.Lost?
  }

  /** The answer came from the cache. */
  predicate FromCache(p: Phase) {
    p.Hit? || (p.Done? && p.fromCache)
  }

  /** The keys and answers of what the provider gave. */
  function Keyed(replies: seq<Provided>): (ks: seq<(Key, Answer)>)
    ensures |ks| == |replies| && forall i | 0 <= i < |ks| :: ks[i] == (KeyOf(replies[i].req), replies[i].answer)
  {
    seq(|replies|, i requires 0 <= i < |replies| => (KeyOf(replies[i].req), replies[i].answer))
  }

  /** Any answer the call holds is one the provider gave to a request with the same key. */
  predicate Answered(replies: seq<Provided>, c: Call) {
    HoldsAnswer(c.phase) ==> (KeyOf(c.req), c.phase.answer) in Keyed(replies)
  }

  predicate Transparent(s: State) {
    && (forall key | key in s.cache :: (key, s.cache[key]) in Keyed(s.replies))
    && (forall c | c in s.calls :: Answered(s.replies, c))
  }

  /** What a step caches is an answer its call already holds. */
  lemma StoresOnlyAnswers(g: Caps, s: State, a: Action, c: Call)
    requires Answered(s.replies, c)
    ensures var e := EffectOf(g, s, a, c);
            && (e.store.Some? ==> (KeyOf(c.req), e.store.value) in Keyed(s.replies))
            && (e.store.Some? ==> e.reply.None?)
  {
    hide Actual;
    hide Reserved;
    hide WithinCaps;
    hide KeyOf;
    hide Cacheable;
    hide Level;
  }

  lemma RepliesAfterStep(g: Caps, s: State, a: Action)
    ensures var s', e := Next(g, s, a), Effected(g, s, a);
            s'.replies == if e.Some? && e.value.reply.Some?
                          then s.replies + [Provided(a.i, s.calls[a.i].req, e.value.reply.value)] else s.replies
  {
    hide EffectOf;
    hide Charge;
  }

  lemma KeyedGrows(replies: seq<Provided>, more: seq<Provided>)
    ensures Keyed(replies + more) == Keyed(replies) + Keyed(more)
  {
    hide KeyOf;
  }

  lemma RepliesOnlyGrow(g: Caps, s: State, a: Action)
    ensures Keyed(s.replies) <= Keyed(Next(g, s, a).replies)
  {
    RepliesAfterStep(g, s, a);
    var s' := Next(g, s, a);
    hide Next;
    hide EffectOf;
    if Effected(g, s, a).Some? && Effected(g, s, a).value.reply.Some? {
      KeyedGrows(s.replies, [Provided(a.i, s.calls[a.i].req, Effected(g, s, a).value.reply.value)]);
    }
  }

  lemma CacheAfterStep(g: Caps, s: State, a: Action)
    requires Transparent(s)
    ensures var s' := Next(g, s, a); forall key | key in s'.cache :: (key, s'.cache[key]) in Keyed(s'.replies)
  {
    RepliesOnlyGrow(g, s, a);
    if Effected(g, s, a).Some? {
      assert s.calls[a.i] in s.calls;
      StoresOnlyAnswers(g, s, a, s.calls[a.i]);
    }
    hide Charge;
    hide Actual;
    hide Reserved;
    hide KeyOf;
    hide EffectOf;
    hide Answered;
    hide Keyed;
    assert forall x | x in Keyed(s.replies) :: x in Keyed(Next(g, s, a).replies);
  }

  /** A call's new answer is its old one, a cached one, or the reply it just received. */
  lemma EffectAnswer(g: Caps, s: State, a: Action, c: Call)
    ensures var p := EffectOf(g, s, a, c).phase;
            && (HoldsAnswer(p) ==>
                  || (HoldsAnswer(c.phase) && p.answer == c.phase.answer)
                  || (KeyOf(c.req) in s.cache && p.answer == s.cache[KeyOf(c.req)])
                  || EffectOf(g, s, a, c).reply == Some(p.answer))
            && (HoldsAnswer(p) && !FromCache(p) ==>
                  || (HoldsAnswer(c.phase) && !FromCache(c.phase) && p.answer == c.phase.answer)
                  || EffectOf(g, s, a, c).reply == Some(p.answer))
  {
    hide Charge;
    hide Actual;
    hide Reserved;
    hide WithinCaps;
    hide KeyOf;
    hide Cacheable;
    hide Level;
  }

  lemma SubjectStaysAnswered(g: Caps, s: State, a: Action)
    requires Transparent(s)
    ensures Effected(g, s, a).Some? ==>
              Answered(Next(g, s, a).replies, Call(s.calls[a.i].req, Effected(g, s, a).value.phase))
  {
    RepliesAfterStep(g, s, a);
    RepliesOnlyGrow(g, s, a);
    if Effected(g, s, a).Some? {
      var c, e := s.calls[a.i], Effected(g, s, a).value;
      EffectAnswer(g, s, a, c);
      assert c in s.calls && Answered(s.replies, c);
      hide Next;
      hide EffectOf;
      hide KeyOf;
      assert forall x | x in Keyed(s.replies) :: x in Keyed(Next(g, s, a).replies);
      if e.reply.Some? {
        KeyedGrows(s.replies, [Provided(a.i, c.req, e.reply.value)]);
        assert Keyed([Provided(a.i, c.req, e.reply.value)])[0] == (KeyOf(c.req), e.reply.value);
      }
    }
  }

  lemma AnsweredLasts(replies: seq<Provided>, replies': seq<Provided>, c: Call)
    requires Keyed(replies) <= Keyed(replies') && Answered(replies, c)
    ensures Answered(replies', c)
  {
    assert forall x | x in Keyed(replies) :: x in Keyed(replies');
  }

  lemma TransparentAfterStep(g: Caps, s: State, a: Action)
    requires Transparent(s)
    ensures Transparent(Next(g, s, a))
  {
    var s' := Next(g, s, a);
    CacheAfterStep(g, s, a);
    RepliesOnlyGrow(g, s, a);
    SubjectStaysAnswered(g, s, a);
    OneCallMoves(g, s, a);
    hide Next;
    hide EffectOf;
    forall c | c in s'.calls ensures Answered(s'.replies, c) {
      if c in s.calls {
        AnsweredLasts(s.replies, s'.replies, c);
      }
    }
  }

  lemma {:induction false} RunsAreTransparent(g: Caps, actions: seq<Action>)
    ensures Transparent(Exec(g, START, actions))
  {
    hide Next;
    if actions != [] {
      RunsAreTransparent(g, actions[..|actions| - 1]);
      TransparentAfterStep(g, Exec(g, START, actions[..|actions| - 1]), actions[|actions| - 1]);
    }
  }

  /** What the provider gave, it gave to the call it is recorded for; and an answer that is not from the cache was
      given to the very call that holds it. */
  predicate Attributed(s: State) {
    && (forall r | r in s.replies :: r.call < |s.calls| && s.calls[r.call].req == r.req)
    && (forall i | 0 <= i < |s.calls| && HoldsAnswer(s.calls[i].phase) && !FromCache(s.calls[i].phase) ::
          Provided(i, s.calls[i].req, s.calls[i].phase.answer) in s.replies)
  }

  lemma AttributedAfterStep(g: Caps, s: State, a: Action)
    requires Attributed(s)
    ensures Attributed(Next(g, s, a))
  {
    var s' := Next(g, s, a);
    OneCallMoves(g, s, a);
    RepliesAfterStep(g, s, a);
    if Effected(g, s, a).Some? {
      EffectAnswer(g, s, a, s.calls[a.i]);
    }
    hide Next;
    hide EffectOf;
    hide KeyOf;
  }

  lemma {:induction false} RunsAreAttributed(g: Caps, actions: seq<Action>)
    ensures Attributed(Exec(g, START, actions))
  {
    hide Next;
    if actions != [] {
      RunsAreAttributed(g, actions[..|actions| - 1]);
      AttributedAfterStep(g, Exec(g, START, actions[..|actions| - 1]), actions[|actions| - 1]);
    }
  }

  /** The provider gave this answer to a call that asked the same. */
  predicate GivenFor(s: State, q: Request, answer: Answer) {
    exists r | r in s.replies ::
      r.answer == answer && r.call < |s.calls| && s.calls[r.call].req == r.req && SamePrompt(r.req, q)
  }

  /** Main result: whatever interleaving and expiry, every answer a call holds, hit or miss, was given by the provider
      to that call or to an earlier one with the same model, messages, temperature and max tokens; and one that is not a
      hit to that call itself. */
  lemma CacheIsTransparent(g: Caps, actions: seq<Action>)
    ensures var s := Exec(g, START, actions);
            forall i | 0 <= i < |s.calls| && HoldsAnswer(s.calls[i].phase) ::
              && GivenFor(s, s.calls[i].req, s.calls[i].phase.answer)
              && (!FromCache(s.calls[i].phase) ==> Provided(i, s.calls[i].req, s.calls[i].phase.answer) in s.replies)
  {
    var s := Exec(g, START, actions);
    RunsAreTransparent(g, actions);
    RunsAreAttributed(g, actions);
    hide Exec;
    forall i | 0 <= i < |s.calls| && HoldsAnswer(s.calls[i].phase)
      ensures GivenFor(s, s.calls[i].req, s.calls[i].phase.answer)
    {
      var c := s.calls[i];
      assert c in s.calls && Answered(s.replies, c);
      var k :| 0 <= k < |s.replies| && Keyed(s.replies)[k] == (KeyOf(c.req), c.phase.answer);
      SameKeyExactly(s.replies[k].req, c.req);
      assert s.replies[k] in s.replies;
    }
  }

  // ----- Who uses the cache -----

  predicate OptedIn(r: Request) {
    r.temperature == 0.0 && !r.noCache
  }

  /** Only opted-in calls look up or are served from the cache, and it holds prompts at temperature 0 only. */
  predicate CacheIsOptIn(s: State) {
    && (forall c | c in s.calls && (c.phase.Passed? || FromCache(c.phase)) :: OptedIn(c.req))
    && (forall key | key in s.cache :: key.temperature == 0.0)
  }

  lemma {:induction false} OnlyOptedInUseTheCache(g: Caps, actions: seq<Action>)
    ensures CacheIsOptIn(Exec(g, START, actions))
  {
    hide Next;
    if actions != [] {
      var s, a := Exec(g, START, actions[..|actions| - 1]), actions[|actions| - 1];
      OnlyOptedInUseTheCache(g, actions[..|actions| - 1]);
      OptInAfterStep(g, s, a);
    }
  }

  lemma OptInEffect(g: Caps, s: State, a: Action, c: Call)
    requires c.phase.Passed? || FromCache(c.phase) ==> OptedIn(c.req)
    ensures var e := EffectOf(g, s, a, c);
            (e.phase.Passed? || FromCache(e.phase) ==> OptedIn(c.req)) && (e.store.Some? ==> OptedIn(c.req))
  {
    hide Actual;
    hide Reserved;
    hide WithinCaps;
    hide KeyOf;
    hide Level;
  }

  lemma OptInAfterStep(g: Caps, s: State, a: Action)
    requires CacheIsOptIn(s)
    ensures CacheIsOptIn(Next(g, s, a))
  {
    OneCallMoves(g, s, a);
    if Effected(g, s, a).Some? {
      assert s.calls[a.i] in s.calls;
      OptInEffect(g, s, a, s.calls[a.i]);
    }
    hide EffectOf;
    hide Charge;
    hide Actual;
    hide Reserved;
  }

  /** An opted-in call's counted answer is cached, and a later opted-in call that asks the same is served it, unless the
      entry expired or was overwritten in between. */
  lemma RepeatedPromptHits(g: Caps, s: State, i: nat, j: nat)
    requires i < |s.calls| && s.calls[i].phase.Counted? && OptedIn(s.calls[i].req)
    requires j < |s.calls| && j != i && s.calls[j].phase.Begun? && OptedIn(s.calls[j].req)
    requires SamePrompt(s.calls[i].req, s.calls[j].req) && !s.killed && s.calls[j].req.price.Some?
    ensures var stored := Next(g, s, CacheWrite(i));
            var served := Next(g, Next(g, stored, KillCheck(j)), CacheLookup(j));
            stored.cache[KeyOf(s.calls[i].req)] == s.calls[i].phase.answer
            && served.calls[j].phase == Hit(s.calls[i].phase.answer)
  {
    SameKeyExactly(s.calls[i].req, s.calls[j].req);
    hide KeyOf;
  }

  /** A cache hit ends in a zero-cost row and moves no meter. */
  lemma HitsAreFree(g: Caps, s: State, i: nat)
    requires i < |s.calls| && s.calls[i].phase.Hit?
    ensures var s', r, a := Next(g, s, WriteRow(i)), s.calls[i].req, s.calls[i].phase.answer;
            && s'.meters == s.meters
            && s'.ledger == s.ledger + [Row(r.run, a.input, a.output, 0, true)]
            && s'.calls[i].phase == Done(a, true)
  {}

  // ----- What a halt stops -----

  /** Past the kill check: the provider or the cache can still answer such a call, or has. */
  predicate PastCheck(p: Phase) {
    !p.Begun? && !p.Failed?
  }

  /** Ends a halt: the clear, and a set with an empty reason. */
  predicate Clears(a: Action) {
    a.ClearKill? || a == SetKill("")
  }

  predicate NoClear(actions: seq<Action>) {
    forall a | a in actions :: !Clears(a)
  }

  /** What a meter can still reach without a new call passing the kill check. */
  function Committed(s: State, m: Meter): nat {
    Level(s.meters, m) + Sum(Exposure(m), s.calls)
  }

  /** A step of a halted gateway exposes nothing new: a call in it is further along or failed. */
  lemma HaltedEffect(g: Caps, s: State, a: Action, c: Call, m: Meter)
    requires s.killed
    ensures var e := EffectOf(g, s, a, c);
            && (PastCheck(e.phase) ==> PastCheck(c.phase))
            && Share(Exposure(m), Call(c.req, e.phase)) <= Share(Exposure(m), c)
            && (e.charge.Some? && Touches(c.req, m) ==>
                  Share(Exposure(m), c) == Reserved(c.req, m.axis) && Share(Exposure(m), Call(c.req, e.phase)) == 0)
  {
    hide Level;
    hide Reserved;
    hide Actual;
    hide WithinCaps;
    hide KeyOf;
    hide Cacheable;
  }

  lemma HaltedStep(g: Caps, s: State, a: Action, m: Meter)
    requires s.killed && !Clears(a)
    ensures var s' := Next(g, s, a);
            && s'.killed
            && Committed(s', m) - Level(s'.excess, m) <= Committed(s, m) - Level(s.excess, m)
            && forall i :: 0 <= i < |s'.calls| && PastCheck(s'.calls[i].phase) ==>
                             i < |s.calls| && PastCheck(s.calls[i].phase)
  {
    SumAfterStep(Exposure(m), g, s, a);
    LevelAfterStep(g, s, a, m);
    OneCallMoves(g, s, a);
    HaltLasts(g, s, a);
    if Effected(g, s, a).Some? {
      HaltedEffect(g, s, a, s.calls[a.i], m);
    }
    hide Next;
    hide EffectOf;
    hide Actual;
    hide Reserved;
    hide Share;
    hide Level;
    hide Sum;
  }

  /** Main result: from a halt until it is cleared, no call past the kill check is a new one, and what the
      meters can reach never grows, usage above reservation aside. */
  lemma {:induction false} HaltStopsNewSpend(g: Caps, s: State, actions: seq<Action>, m: Meter)
    requires s.killed && NoClear(actions)
    ensures var s' := Exec(g, s, actions);
            && s'.killed
            && Level(s'.meters, m) - Level(s'.excess, m) <= Committed(s, m) - Level(s.excess, m)
            && Committed(s', m) - Level(s'.excess, m) <= Committed(s, m) - Level(s.excess, m)
            && forall i :: 0 <= i < |s'.calls| && PastCheck(s'.calls[i].phase) ==>
                             i < |s.calls| && PastCheck(s.calls[i].phase)
  {
    hide Next;
    hide PastCheck;
    if actions != [] {
      var before, a := actions[..|actions| - 1], actions[|actions| - 1];
      HaltStopsNewSpend(g, s, before, m);
      HaltedStep(g, Exec(g, s, before), a, m);
    }
  }

  // ----- An exhausted day admits nothing -----

  /** The call got past the pre-check. */
  predicate Spends(p: Phase) {
    p.Admitted? || p.Replied? || p.Counted? || p.Stored? || p.Tripped? || p.Lost? || (p.Done? && !p.fromCache)
  }

  predicate Exhausted(g: Caps, s: State, day: int) {
    Level(s.meters, Meter(DayBucket(day), Usd)) >= g.dayUsd
  }

  lemma ExhaustedStep(g: Caps, s: State, a: Action, day: int)
    requires Exhausted(g, s, day)
    ensures var s' := Next(g, s, a);
            && Exhausted(g, s', day)
            && forall i :: 0 <= i < |s'.calls| && Spends(s'.calls[i].phase)
                           && s'.calls[i].req.day == day && Reserved(s'.calls[i].req, Usd) > 0 ==>
                 i < |s.calls| && s.calls[i].req == s'.calls[i].req && Spends(s.calls[i].phase)
  {
    var m := Meter(DayBucket(day), Usd);
    LevelAfterStep(g, s, a, m);
    OneCallMoves(g, s, a);
    hide Next;
    if a.Admit? && a.i < |s.calls| && WithinCaps(g, s.meters, s.calls[a.i].req) && s.calls[a.i].req.day == day {
      var r := s.calls[a.i].req;
      assert Level(s.meters, m) + Reserved(r, Usd) <= Cap(EffectiveCaps(r.overrides, g), Meter(DayBucket(r.day), Usd));
    }
    hide Actual;
    hide Reserved;
    hide WithinCaps;
    hide KeyOf;
    hide Cacheable;
    hide Level;
  }

  /** Main result: once a day's spend reaches the daily cap, no call of that day with a positive reservation
      is ever admitted again, cleared halt or not. */
  lemma {:induction false} ExhaustedDayAdmitsNothing(g: Caps, s: State, actions: seq<Action>, day: int)
    requires Exhausted(g, s, day)
    ensures var s' := Exec(g, s, actions);
            && Exhausted(g, s', day)
            && forall i :: 0 <= i < |s'.calls| && Spends(s'.calls[i].phase)
                           && s'.calls[i].req.day == day && Reserved(s'.calls[i].req, Usd) > 0 ==>
                 i < |s.calls| && s.calls[i].req == s'.calls[i].req && Spends(s.calls[i].phase)
  {
    hide Next;
    hide Spends;
    hide Exhausted;
    hide Reserved;
    if actions != [] {
      var before, a := actions[..|actions| - 1], actions[|actions| - 1];
      ExhaustedDayAdmitsNothing(g, s, before, day);
      ExhaustedStep(g, Exec(g, s, before), a, day);
    }
  }

  // ----- The auto-trip cannot be missed, except by a crash -----

  predicate WillTrip(g: Caps, c: Call) {
    (c.phase.Counted? || c.phase.Stored?) && c.phase.newDay >= g.dayUsd
  }

  /** A day at its cap has halted the gateway, or a call that saw it is about to. */
  predicate TripDue(g: Caps, s: State, day: int) {
    var level := Level(s.meters, Meter(DayBucket(day), Usd));
    level > 0 && level >= g.dayUsd ==> s.killed || exists c | c in s.calls :: WillTrip(g, c)
  }

  /** No step ends a halt, and no crash hits a call that would have tripped. */
  predicate TripsLeftAlone(g: Caps, actions: seq<Action>) {
    actions != [] ==>
      var before, a := actions[..|actions| - 1], actions[|actions| - 1];
      && TripsLeftAlone(g, before)
      && !Clears(a)
      && !LosesATrip(g, Exec(g, START, before), a)
  }

  predicate LosesATrip(g: Caps, s: State, a: Action) {
    a.Crash? && a.i < |s.calls| && WillTrip(g, s.calls[a.i])
  }

  lemma TripHalts(g: Caps, s: State, a: Action)
    ensures Effected(g, s, a).Some? && Effected(g, s, a).value.halt ==> Next(g, s, a).killed
  {
    hide EffectOf;
    hide Charge;
  }

  lemma WillTripOrHalts(g: Caps, s: State, a: Action, k: nat)
    requires k < |s.calls| && WillTrip(g, s.calls[k]) && !Clears(a) && a != Crash(k)
    ensures var s' := Next(g, s, a); s'.killed || (k < |s'.calls| && WillTrip(g, s'.calls[k]))
  {
    OneCallMoves(g, s, a);
    TripHalts(g, s, a);
    hide Next;
    hide Actual;
    hide Reserved;
    hide WithinCaps;
    hide KeyOf;
    hide Cacheable;
    hide Level;
  }

  lemma ReconcileAtTheCapWillTrip(g: Caps, s: State, a: Action, day: int)
    requires a.Reconcile? && a.i < |s.calls| && s.calls[a.i].phase.Replied? && s.calls[a.i].req.day == day
    requires Level(Next(g, s, a).meters, Meter(DayBucket(day), Usd)) >= g.dayUsd
    ensures a.i < |Next(g, s, a).calls| && WillTrip(g, Next(g, s, a).calls[a.i])
  {
    LevelAfterStep(g, s, a, Meter(DayBucket(day), Usd));
    hide Charge;
    hide Actual;
    hide Reserved;
    hide WithinCaps;
    hide KeyOf;
    hide Cacheable;
  }

  lemma HaltLasts(g: Caps, s: State, a: Action)
    requires s.killed && !Clears(a)
    ensures Next(g, s, a).killed
  {
    hide Charge;
    hide Actual;
    hide Reserved;
    hide WithinCaps;
    hide KeyOf;
    hide Cacheable;
  }

  lemma TripDueAfterStep(g: Caps, s: State, a: Action, day: int)
    requires TripDue(g, s, day) && !Clears(a) && !LosesATrip(g, s, a)
    ensures TripDue(g, Next(g, s, a), day)
  {
    hide Next;
    hide WillTrip;
    var s' := Next(g, s, a);
    LevelAfterStep(g, s, a, Meter(DayBucket(day), Usd));
    if s.killed {
      HaltLasts(g, s, a);
    } else if a.Reconcile? && a.i < |s.calls| && s.calls[a.i].phase.Replied? && s.calls[a.i].req.day == day {
      if Level(s'.meters, Meter(DayBucket(day), Usd)) >= g.dayUsd {
        ReconcileAtTheCapWillTrip(g, s, a, day);
        assert s'.calls[a.i] in s'.calls;
      }
    } else if c :| c in s.calls && WillTrip(g, c) {
      var k :| 0 <= k < |s.calls| && s.calls[k] == c;
      WillTripOrHalts(g, s, a, k);
      if !s'.killed {
        assert s'.calls[k] in s'.calls;
      }
    }
  }

  /** Main result: reaching the daily cap halts the gateway, as long as nobody ends the halt and no call crashes between
      the reconcile that saw the cap reached and its trip; any other crash is harmless. */
  lemma {:induction false} ExhaustionTrips(g: Caps, actions: seq<Action>, day: int)
    requires TripsLeftAlone(g, actions)
    ensures TripDue(g, Exec(g, START, actions), day)
  {
    hide Next;
    hide LosesATrip;
    if actions != [] {
      ExhaustionTrips(g, actions[..|actions| - 1], day);
      TripDueAfterStep(g, Exec(g, START, actions[..|actions| - 1]), actions[|actions| - 1], day);
    }
  }

  /** Exactly when a crash loses the trip of a day at its cap: the gateway was not halted yet and no other call would
      trip. */
  lemma CrashLosesTheTripExactly(g: Caps, s: State, i: nat, day: int)
    requires i < |s.calls| && !s.killed
    requires Level(s.meters, Meter(DayBucket(day), Usd)) > 0 && Exhausted(g, s, day)
    ensures TripDue(g, Next(g, s, Crash(i)), day) <==>
            exists k :: 0 <= k < |s.calls| && k != i && WillTrip(g, s.calls[k])
  {
    var s' := Next(g, s, Crash(i));
    LevelAfterStep(g, s, Crash(i), Meter(DayBucket(day), Usd));
    CrashedCallWillNotTrip(g, s, i);
    OneCallMoves(g, s, Crash(i));
    hide Next;
    hide EffectOf;
    hide WillTrip;
    if k :| 0 <= k < |s.calls| && k != i && WillTrip(g, s.calls[k]) {
      assert s'.calls[k] == s.calls[k] && s'.calls[k] in s'.calls;
    }
    if c :| c in s'.calls && WillTrip(g, c) {
      var k :| 0 <= k < |s'.calls| && s'.calls[k] == c;
      assert k != i ==> s'.calls[k] == s.calls[k];
    }
  }

  lemma CrashedCallWillNotTrip(g: Caps, s: State, i: nat)
    requires i < |s.calls|
    ensures var s' := Next(g, s, Crash(i));
            s'.killed == s.killed && |s'.calls| == |s.calls| && !WillTrip(g, s'.calls[i])
  {
    hide Charge;
    hide Actual;
    hide Reserved;
    hide WithinCaps;
  }

  const CHEAP: Price := PriceRow("m", 1.0, 1.0, 0)

  const LAST := Request("run", "m", [], 0.0, 0, true, Some(CHEAP), 3, 7,
                        Gateway.Overrides(None, None, None, None, None, None))

  const THREE := Gateway.Caps(3, 3, 3, 3, 3, 3)

  const THREE_TOKENS := Answer(None, 3, 0)

  lemma CheapCostsThree()
    ensures ComputeCost(CHEAP, 3, 0) == 3
  {
    assert ExactCost(CHEAP, 3, 0) == 3.0;
  }

  /** The gateway with the one call in phase `p` and nothing spent. */
  function Alone(p: Phase): State {
    START.(calls := [Call(LAST, p)])
  }

  lemma LastPassesTheChecks()
    ensures Next(THREE, Next(THREE, START, Begin(LAST)), KillCheck(0)) == Alone(Missed)
    ensures Next(THREE, Alone(Missed), Admit(0)) == Alone(Admitted)
  {
    CheapCostsThree();
    hide ComputeCost;
    assert WithinCaps(THREE, map[], LAST);
  }

  lemma LastIsAnswered()
    ensures Next(THREE, Alone(Admitted), Reply(0, Some(THREE_TOKENS))) ==
            Alone(Replied(THREE_TOKENS)).(replies := [Provided(0, LAST, THREE_TOKENS)])
  {}

  lemma LastIsCounted(s: State)
    requires s == Alone(Replied(THREE_TOKENS)).(replies := s.replies)
    ensures var s' := Next(THREE, s, Reconcile(0));
            !s'.killed && |s'.calls| == 1 && s'.calls[0].req == LAST && Level(s'.meters, Meter(DayBucket(7), Usd)) == 3
  {
    CheapCostsThree();
    LevelAfterStep(THREE, s, Reconcile(0), Meter(DayBucket(7), Usd));
    hide ComputeCost;
    hide Charge;
  }

  lemma SixSteps(g: Caps, a: seq<Action>)
    requires |a| == 6
    ensures Exec(g, START, a) ==
            Next(g, Next(g, Next(g, Next(g, Next(g, Next(g, START, a[0]), a[1]), a[2]), a[3]), a[4]), a[5])
  {
    hide Next;
    assert a[..5][..4] == a[..4] && a[..4][..3] == a[..3] && a[..3][..2] == a[..2];
    assert a[..2][..1] == a[..1] && a[..1][..0] == [];
    assert Exec(g, START, a[..1]) == Next(g, START, a[0]);
    assert Exec(g, START, a[..2]) == Next(g, Exec(g, START, a[..1]), a[1]);
    assert Exec(g, START, a[..3]) == Next(g, Exec(g, START, a[..2]), a[2]);
    assert Exec(g, START, a[..4]) == Next(g, Exec(g, START, a[..3]), a[3]);
    assert Exec(g, START, a[..5]) == Next(g, Exec(g, START, a[..4]), a[4]);
  }

  /** A run that ends with the day's whole cap spent, no halt, and no call left to set one: the one call that used it up
      crashes after its reconcile. */
  lemma LostTripHappens() returns (actions: seq<Action>)
    ensures var s := Exec(THREE, START, actions);
            !s.killed && Exhausted(THREE, s, 7) && !TripDue(THREE, s, 7)
  {
    actions := [Begin(LAST), KillCheck(0), Admit(0), Reply(0, Some(THREE_TOKENS)), Reconcile(0), Crash(0)];
    SixSteps(THREE, actions);
    LastPassesTheChecks();
    LastIsAnswered();
    var replied := Alone(Replied(THREE_TOKENS)).(replies := [Provided(0, LAST, THREE_TOKENS)]);
    LastIsCounted(replied);
    var counted := Next(THREE, replied, Reconcile(0));
    CrashLosesTheTripExactly(THREE, counted, 0, 7);
    CrashedCallWillNotTrip(THREE, counted, 0);
    LevelAfterStep(THREE, counted, Crash(0), Meter(DayBucket(7), Usd));
    hide Next;
    hide Exec;
    hide TripDue;
    hide EffectOf;
  }
}
