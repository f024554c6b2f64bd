/** One metered call as the code runs it, straight through, over the shared counters, cache, flag and ledger. */
module GatewayClient {
  import opened Common
  import opened Pricing
  import opened Gateway

  datatype Outcome = Halted | Unpriced | OverBudget | NoUsage | Served(answer: Answer, cost: nat, cacheHit: bool)

  /** The steps of call `i`, in the order the code takes them. A step out of turn does nothing, so one
      schedule covers every outcome. */
  function Schedule(i: nat, r: Request, reply: Option<Answer>): seq<Action> {
    [Begin(r), KillCheck(i), CacheLookup(i), Admit(i), Reply(i, reply),
     Reconcile(i), CacheWrite(i), Trip(i), WriteRow(i)]
  }

  lemma ExecSnoc(g: Caps, s: State, done: seq<Action>, a: Action)
    ensures Exec(g, s, done + [a]) == Next(g, Exec(g, s, done), a)
    ensures Exec(g, s, []) == s
  {
    hide Next;
    assert (done + [a])[..|done|] == done;
  }

  lemma StartsSchedule(g: Caps, s: State, r: Request, reply: Option<Answer>)
    ensures Exec(g, s, Schedule(|s.calls|, r, reply)[..1]) == s.(calls := s.calls + [Call(r, Begun)])
  {
    ExecSnoc(g, s, [], Begin(r));
    assert Schedule(|s.calls|, r, reply)[..1] == [] + [Begin(r)];
  }

  /** A finished call ignores what is left of its schedule, and so does a cache hit until its row. */
  predicate Ignores(p: Phase, a: Action) {
    || ((p.Done? || p.Failed?) && Subject(a).Some?)
    || (p.Hit? && (a.Admit? || a.Reply? || a.Reconcile? || a.CacheWrite? || a.Trip?))
  }

  lemma IgnoredActionDoesNothing(g: Caps, s: State, i: nat, a: Action)
    requires i < |s.calls| && Ignores(s.calls[i].phase, a) && Subject(a) == Some(i)
    ensures Next(g, s, a) == s
  {
    hide Charge;
    hide Actual;
    hide Reserved;
    hide WithinCaps;
    assert s.calls[i := s.calls[i]] == s.calls;
    assert s.ledger + [] == s.ledger;
  }

  lemma FailedIgnoresTheRest(i: nat, r: Request, reply: Option<Answer>)
    ensures |Schedule(i, r, reply)| == 9
    ensures forall j | 1 <= j < 9 ::
              Ignores(Failed, Schedule(i, r, reply)[j]) && Subject(Schedule(i, r, reply)[j]) == Some(i)
  {}

  lemma ExecNext(g: Caps, s: State, all: seq<Action>, k: nat)
    requires k < |all|
    ensures Exec(g, s, all[..k + 1]) == Next(g, Exec(g, s, all[..k]), all[k])
    ensures all[..|all|] == all
  {
    ExecSnoc(g, s, all[..k], all[k]);
    assert all[..k + 1] == all[..k] + [all[k]];
  }

  lemma {:induction false} IgnoresUpTo(g: Caps, s: State, all: seq<Action>, i: nat, k: nat, m: nat)
    requires k <= m <= |all| && i < |Exec(g, s, all[..k]).calls|
    requires var p := Exec(g, s, all[..k]).calls[i].phase;
             forall j | k <= j < m :: Ignores(p, all[j]) && Subject(all[j]) == Some(i)
    ensures Exec(g, s, all[..m]) == Exec(g, s, all[..k])
    ensures all[..|all|] == all
    decreases m
  {
    hide Next;
    hide Ignores;
    hide Exec;
    if k < m {
      IgnoresUpTo(g, s, all, i, k, m - 1);
      ExecNext(g, s, all, m - 1);
      IgnoredActionDoesNothing(g, Exec(g, s, all[..k]), i, all[m - 1]);
    }
  }

  class LlmGateway {
    const g: Caps
    var killed: bool
    var cache: map<Key, Answer>
    var meters: map<Meter, nat>
    var ledger: seq<Row>
    ghost var calls: seq<Call>
    ghost var replies: seq<Provided>
    ghost var excess: map<Meter, nat>

    constructor (g: Caps)
      ensures this.g == g && Snapshot() == START
    {
      this.g := g;
      killed, cache, meters, ledger := false, map[], map[], [];
      calls, replies, excess := [], [], map[];
    }

    ghost function Snapshot(): State
      reads this
    {
      State(killed, cache, meters, calls, ledger, replies, excess)
    }

    /** Take one step's effect on the shared state. */
    ghost method Take(i: nat, e: Effect)
      requires i < |calls|
      modifies `calls, `replies, `excess
      ensures calls == Apply(old(Snapshot()), i, e).calls
      ensures replies == Apply(old(Snapshot()), i, e).replies
      ensures excess == Apply(old(Snapshot()), i, e).excess
    {
      var s' := Apply(Snapshot(), i, e);
      calls, replies, excess := s'.calls, s'.replies, s'.excess;
    }

    ghost predicate Stands(i: nat, r: Request, p: Phase)
      reads this
    {
      i < |calls| && calls[i] == Call(r, p)
    }

    /** A halt carries its reason; an empty one is no halt. */
    method SetKillswitch(reason: string)
      modifies `killed
      ensures Snapshot() == Next(g, old(Snapshot()), SetKill(reason))
      ensures killed <==> reason != ""
    {
      killed := reason != "";
    }

    method ClearKillswitch()
      modifies `killed
      ensures Snapshot() == Next(g, old(Snapshot()), ClearKill)
    {
      killed := false;
    }

    method CheckKillswitch(ghost i: nat, r: Request) returns (passed: bool)
      requires Stands(i, r, Begun)
      modifies `calls, `replies, `excess
      ensures Snapshot() == Next(g, old(Snapshot()), KillCheck(i))
      ensures passed <==> !killed && r.price.Some?
      ensures calls == old(calls)[i := Call(r, if !passed then Failed else if Cacheable(r) then Passed else Missed)]
    {
      Take(i, EffectOf(g, Snapshot(), KillCheck(i), calls[i]));
      passed := !killed && r.price.Some?;
    }

    method LookupCache(ghost i: nat, r: Request) returns (hit: Option<Answer>)
      requires Stands(i, r, if Cacheable(r) then Passed else Missed)
      modifies `calls, `replies, `excess
      ensures Snapshot() == Next(g, old(Snapshot()), CacheLookup(i))
      ensures hit == if Cacheable(r) && KeyOf(r) in cache then Some(cache[KeyOf(r)]) else None
      ensures calls == old(calls)[i := Call(r, if hit.Some? then Hit(hit.value) else Missed)]
    {
      Take(i, EffectOf(g, Snapshot(), CacheLookup(i), calls[i]));
      hit := None;
      if Cacheable(r) && KeyOf(r) in cache {
        hit := Some(cache[KeyOf(r)]);
      }
    }

    method PreCheck(ghost i: nat, r: Request) returns (ok: bool)
      requires Stands(i, r, Missed)
      modifies `calls, `replies, `excess
      ensures Snapshot() == Next(g, old(Snapshot()), Admit(i))
      ensures ok <==> WithinCaps(g, meters, r)
      ensures calls == old(calls)[i := Call(r, if ok then Admitted else Failed)]
    {
      Take(i, EffectOf(g, Snapshot(), Admit(i), calls[i]));
      ok := WithinCaps(g, meters, r);
    }

    ghost method Receive(i: nat, r: Request, reply: Option<Answer>)
      requires Stands(i, r, Admitted)
      modifies `calls, `replies, `excess
      ensures Snapshot() == Next(g, old(Snapshot()), Reply(i, reply))
      ensures calls == old(calls)[i := Call(r, if reply.None? then Failed else Replied(reply.value))]
    {
      Take(i, EffectOf(g, Snapshot(), Reply(i, reply), calls[i]));
    }

    /** One pipeline of four increments, by actual usage. */
    method ReconcileUsage(ghost i: nat, r: Request, a: Answer) returns (newDay: nat)
      requires Stands(i, r, Replied(a))
      modifies `meters, `calls, `replies, `excess
      ensures Snapshot() == Next(g, old(Snapshot()), Reconcile(i))
      ensures calls == old(calls)[i := Call(r, Counted(a, newDay))]
    {
      ChargeAddsToTouched(meters, r, Actual(r, a, Usd), Actual(r, a, Tok), Meter(DayBucket(r.day), Usd));
      Take(i, EffectOf(g, Snapshot(), Reconcile(i), calls[i]));
      meters := Charge(meters, r, Actual(r, a, Usd), Actual(r, a, Tok));
      newDay := Level(meters, Meter(DayBucket(r.day), Usd));
    }

    method WriteCache(ghost i: nat, r: Request, a: Answer, newDay: nat)
      requires Stands(i, r, Counted(a, newDay))
      modifies `cache, `calls, `replies, `excess
      ensures Snapshot() == Next(g, old(Snapshot()), CacheWrite(i))
      ensures calls == old(calls)[i := Call(r, Stored(a, newDay))]
    {
      Take(i, EffectOf(g, Snapshot(), CacheWrite(i), calls[i]));
      if Cacheable(r) {
        cache := cache[KeyOf(r) := a];
      }
    }

    method AutoTrip(ghost i: nat, r: Request, a: Answer, newDay: nat)
      requires Stands(i, r, Stored(a, newDay))
      modifies `killed, `calls, `replies, `excess
      ensures Snapshot() == Next(g, old(Snapshot()), Trip(i))
      ensures calls == old(calls)[i := Call(r, Tripped(a))]
    {
      Take(i, EffectOf(g, Snapshot(), Trip(i), calls[i]));
      if newDay >= g.dayUsd {
        killed := true;
      }
    }

    method WriteLedgerRow(ghost i: nat, r: Request, a: Answer, hit: bool) returns (cost: nat)
      requires Stands(i, r, if hit then Hit(a) else Tripped(a))
      modifies `ledger, `calls, `replies, `excess
      ensures Snapshot() == Next(g, old(Snapshot()), WriteRow(i))
      ensures ledger == old(ledger) + [Row(r.run, a.input, a.output, cost, hit)]
      ensures calls == old(calls)[i := Call(r, Done(a, hit))]
      ensures cost == if hit then 0 else Actual(r, a, Usd)
    {
      Take(i, EffectOf(g, Snapshot(), WriteRow(i), calls[i]));
      cost := if hit then 0 else Actual(r, a, Usd);
      ledger := ledger + [Row(r.run, a.input, a.output, cost, hit)];
    }

    /** A hit costs nothing, touches no counter and still leaves its row. */
    method ServeCacheHit(ghost i: nat, r: Request, ghost reply: Option<Answer>, cached: Answer, ghost s0: State)
      requires Stands(i, r, Hit(cached))
      requires Snapshot() == Exec(g, s0, Schedule(i, r, reply)[..3])
      modifies `ledger, `calls, `replies, `excess
      ensures Snapshot() == Exec(g, s0, Schedule(i, r, reply))
      ensures |calls| == |old(calls)| && calls[..i] == old(calls[..i])
      ensures ledger == old(ledger) + [Row(r.run, cached.input, cached.output, 0, true)]
    {
      hide Next;
      hide EffectOf;
      hide Exec;
      ghost var all := Schedule(i, r, reply);
      IgnoresUpTo(g, s0, all, i, 3, 8);
      var cost := WriteLedgerRow(i, r, cached, true);
      ExecNext(g, s0, all, 8);
    }

    /** After the provider replied: count, cache, trip, write the row. */
    method Bill(ghost i: nat, r: Request, reply: Option<Answer>, ghost s0: State) returns (cost: nat)
      requires reply.Some? && Stands(i, r, Replied(reply.value))
      requires Snapshot() == Exec(g, s0, Schedule(i, r, reply)[..5])
      modifies this
      ensures Snapshot() == Exec(g, s0, Schedule(i, r, reply))
      ensures |calls| == |old(calls)| && calls[..i] == old(calls[..i])
      ensures cost == Actual(r, reply.value, Usd)
      ensures ledger == old(ledger) + [Row(r.run, reply.value.input, reply.value.output, cost, false)]
    {
      hide Next;
      hide EffectOf;
      hide Exec;
      hide Actual;
      hide Level;
      ghost var all := Schedule(i, r, reply);
      var a := reply.value;
      var newDay := ReconcileUsage(i, r, a);
      ExecNext(g, s0, all, 5);
      WriteCache(i, r, a, newDay);
      ExecNext(g, s0, all, 6);
      AutoTrip(i, r, a, newDay);
      ExecNext(g, s0, all, 7);
      cost := WriteLedgerRow(i, r, a, false);
      ExecNext(g, s0, all, 8);
    }

    /** From the pre-check on: refuse, or spend. */
    method CallProvider(ghost i: nat, r: Request, reply: Option<Answer>, ghost s0: State) returns (out: Outcome)
      requires Stands(i, r, Missed)
      requires Snapshot() == Exec(g, s0, Schedule(i, r, reply)[..3])
      modifies this
      ensures Snapshot() == Exec(g, s0, Schedule(i, r, reply))
      ensures |calls| == |old(calls)| && calls[..i] == old(calls[..i])
      ensures match out
              case OverBudget => !WithinCaps(g, meters, r) && meters == old(meters) && ledger == old(ledger)
              case NoUsage => reply.None? && meters == old(meters) && ledger == old(ledger)
              case Served(a, cost, hit) =>
                && !hit && cost == Actual(r, a, Usd) && reply == Some(a) && WithinCaps(g, old(meters), r)
                && ledger == old(ledger) + [Row(r.run, a.input, a.output, cost, false)]
              case _ => false
    {
      hide Next;
      hide EffectOf;
      hide Exec;
      hide WithinCaps;
      hide Charge;
      hide Actual;
      hide Level;
      hide KeyOf;
      hide Cacheable;
      ghost var all := Schedule(i, r, reply);
      var ok := PreCheck(i, r);
      ExecNext(g, s0, all, 3);
      if !ok {
        IgnoresUpTo(g, s0, all, i, 4, 9);
        return OverBudget;
      }
      Receive(i, r, reply);
      ExecNext(g, s0, all, 4);
      if reply.None? {
        IgnoresUpTo(g, s0, all, i, 5, 9);
        return NoUsage;
      }
      var cost := Bill(i, r, reply, s0);
      out := Served(reply.value, cost, false);
    }

    /** The call itself: kill check first, then cache, then pre-check, then the provider's `reply`.
        It leaves the shared state where the machine's steps for one uninterrupted call leave it. */
    method Complete(r: Request, reply: Option<Answer>) returns (out: Outcome)
      modifies this
      ensures Snapshot() == Exec(g, old(Snapshot()), Schedule(|old(calls)|, r, reply))
      ensures |calls| == |old(calls)| + 1 && calls[..|old(calls)|] == old(calls)
      ensures old(killed) <==> out.Halted?
      ensures match out
              case Halted => meters == old(meters) && ledger == old(ledger)
              case Unpriced => r.price.None? && meters == old(meters) && ledger == old(ledger)
              case OverBudget => !WithinCaps(g, meters, r) && meters == old(meters) && ledger == old(ledger)
              case NoUsage => reply.None? && meters == old(meters) && ledger == old(ledger)
              case Served(a, cost, hit) =>
                && ledger == old(ledger) + [Row(r.run, a.input, a.output, cost, hit)]
                && (hit ==> cost == 0 && meters == old(meters))
                && (hit ==> Cacheable(r) && KeyOf(r) in cache && a == cache[KeyOf(r)])
                && (!hit ==> cost == Actual(r, a, Usd) && reply == Some(a) && WithinCaps(g, old(meters), r))
    {
      hide Next;
      hide EffectOf;
      hide Exec;
      hide WithinCaps;
      hide Charge;
      hide Actual;
      hide Level;
      hide KeyOf;
      hide Cacheable;
      hide Reserved;
      hide ComputeCost;
      hide Ignores;
      hide EffectiveCaps;
      ghost var i, s0 := |calls|, Snapshot();
      ghost var all := Schedule(i, r, reply);
      calls := calls + [Call(r, Begun)];
      StartsSchedule(g, s0, r, reply);
      var passed := CheckKillswitch(i, r);
      ExecNext(g, s0, all, 1);
      if !passed {
        FailedIgnoresTheRest(i, r, reply);
        IgnoresUpTo(g, s0, all, i, 2, 9);
        return if killed then Halted else Unpriced;
      }
      var hit := LookupCache(i, r);
      ExecNext(g, s0, all, 2);
      if hit.Some? {
        ServeCacheHit(i, r, reply, hit.value, s0);
        return Served(hit.value, 0, true);
      }
      out := CallProvider(i, r, reply, s0);
    }
  }
}
