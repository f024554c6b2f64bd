/** Effective-dated prices and the cost of a call. A price in dollars per million tokens is a price in
    micro-dollars per token, so costs here are whole micro-dollars: the sixth decimal the ledger keeps. */
module Pricing {
  import opened Common

  /** `day` is the effective date; prices are never negative. */
  datatype PriceRow = PriceRow(model: string, inputPerMtok: real, outputPerMtok: real, day: int)

  type Price = p: PriceRow | p.inputPerMtok >= 0.0 && p.outputPerMtok >= 0.0 witness PriceRow("", 0.0, 0.0, 0)

  // ----- lookup_price -----

  /** The model name after its provider prefix. */
  function BareModel(model: string): string {
    if ':' in model then AfterColon(model) else model
  }

  function AfterColon(s: string): string {
    if s == "" then "" else if s[0] == ':' then s[1..] else AfterColon(s[1..])
  }

  /** Only the first colon divides: what follows a provider without one is the model, and a model without one is
      bare. */
  lemma {:induction false} BareModelDropsTheProvider(provider: string, model: string)
    requires ':' !in provider
    ensures BareModel(provider + ":" + model) == model
    ensures BareModel(provider) == provider
  {
    AfterFirstColon(provider, model);
    assert (provider + ":" + model)[|provider|] == ':';
  }

  lemma {:induction false} AfterFirstColon(provider: string, model: string)
    requires ':' !in provider
    ensures AfterColon(provider + ":" + model) == model
  {
    var s := provider + ":" + model;
    if provider == "" {
      assert s[1..] == model;
    } else {
      assert provider[0] in provider && s[1..] == provider[1..] + ":" + model;
      AfterFirstColon(provider[1..], model);
    }
  }

  predicate Applies(p: Price, bare: string, at: int) {
    p.model == bare && p.day <= at
  }

  function Applicable(table: seq<Price>, bare: string, at: int): seq<Price> {
    if table == [] then []
    else
      var rest := Applicable(table[..|table| - 1], bare, at);
      var last := table[|table| - 1];
      if Applies(last, bare, at) then rest + [last] else rest
  }

  /** Stable insertion by effective date. */
  function Insert(rows: seq<Price>, p: Price): (r: seq<Price>)
    ensures |r| == |rows| + 1
  {
    if rows == [] || rows[|rows| - 1].day <= p.day then rows + [p]
    else Insert(rows[..|rows| - 1], p) + [rows[|rows| - 1]]
  }

  function SortedByDay(rows: seq<Price>): (r: seq<Price>)
    ensures |r| == |rows|
  {
    if rows == [] then [] else Insert(SortedByDay(rows[..|rows| - 1]), rows[|rows| - 1])
  }

  /** The last row of the sorted applicable rows; None refuses a model that cannot be costed. */
  function LookupPrice(table: seq<Price>, model: string, at: int): Option<Price> {
    var rows := SortedByDay(Applicable(table, BareModel(model), at));
    if rows == [] then None else Some(rows[|rows| - 1])
  }

  /** What was in force: an applicable row no applicable row outdates, the later listed on a tie. */
  predicate InForce(table: seq<Price>, bare: string, at: int, i: nat) {
    && i < |table| && table[i].model == bare && table[i].day <= at
    && forall j | 0 <= j < |table| && table[j].model == bare && table[j].day <= at ::
         table[j].day < table[i].day || (table[j].day == table[i].day && j <= i)
  }

  lemma LookupStep(table: seq<Price>, p: Price, model: string, at: int)
    ensures LookupPrice(table + [p], model, at) ==
            var older := LookupPrice(table, model, at);
            if !Applies(p, BareModel(model), at) then older
            else if older.None? || older.value.day <= p.day then Some(p)
            else older
  {
    assert (table + [p])[..|table|] == table;
    var rows := Applicable(table, BareModel(model), at);
    assert (rows + [p])[..|rows|] == rows;
  }

  predicate NothingApplies(table: seq<Price>, bare: string, at: int) {
    forall p | p in table :: !(p.model == bare && p.day <= at)
  }

  lemma InForceStep(table: seq<Price>, p: Price, bare: string, at: int, i: nat)
    requires NothingApplies(table, bare, at) || InForce(table, bare, at, i)
    ensures NothingApplies(table + [p], bare, at) <==> NothingApplies(table, bare, at) && !Applies(p, bare, at)
    ensures Applies(p, bare, at) && (NothingApplies(table, bare, at) || table[i].day <= p.day) ==>
              InForce(table + [p], bare, at, |table|)
    ensures InForce(table, bare, at, i) && (Applies(p, bare, at) ==> p.day < table[i].day) ==>
              InForce(table + [p], bare, at, i)
  {
    assert p in table + [p];
    assert forall q | q in table :: q in table + [p];
    assert forall k | 0 <= k < |table| :: (table + [p])[k] == table[k] && table[k] in table;
  }

  lemma {:induction false} LookupFindsThePriceInForce(table: seq<Price>, model: string, at: int)
    returns (i: nat)
    ensures LookupPrice(table, model, at).None? <==> NothingApplies(table, BareModel(model), at)
    ensures LookupPrice(table, model, at).Some? ==>
              InForce(table, BareModel(model), at, i) && LookupPrice(table, model, at).value == table[i]
    decreases |table|
  {
    i := 0;
    if table != [] {
      var n := |table| - 1;
      var older, p := table[..n], table[n];
      i := LookupFindsThePriceInForce(older, model, at);
      InForceStep(older, p, BareModel(model), at, i);
      LookupStep(older, p, model, at);
      hide LookupPrice;
      hide InForce;
      hide NothingApplies;
      assert table == older + [p];
      if Applies(p, BareModel(model), at) && (LookupPrice(older, model, at).None? || older[i].day <= p.day) {
        i := n;
      }
    }
  }

  /** A price dated after `at` never changes what a call at `at` costs. */
  lemma FuturePriceChangesNothing(table: seq<Price>, p: Price, model: string, at: int)
    requires p.day > at
    ensures LookupPrice(table + [p], model, at) == LookupPrice(table, model, at)
  {
    assert (table + [p])[..|table|] == table;
  }

  // ----- compute_cost -----

  /** Round half up, to a whole micro-dollar. */
  function HalfUp(x: real): int {
    (x + 0.5).Floor
  }

  function ExactCost(p: Price, input: nat, output: nat): (x: real)
    ensures x >= 0.0
  {
    NonNegativeProduct(input, p.inputPerMtok);
    NonNegativeProduct(output, p.outputPerMtok);
    input as real * p.inputPerMtok + output as real * p.outputPerMtok
  }

  function ComputeCost(p: Price, input: nat, output: nat): nat {
    HalfUp(ExactCost(p, input, output))
  }

  lemma NonNegativeProduct(n: nat, x: real)
    requires x >= 0.0
    ensures n as real * x >= 0.0
  {}

  lemma MoreTokensCostMore(n: nat, m: nat, x: real)
    requires n <= m && x >= 0.0
    ensures n as real * x <= m as real * x
  {
    NonNegativeProduct(m - n, x);
    assert m as real * x == n as real * x + (m - n) as real * x;
  }

  /** More tokens on either side never cost less. */
  lemma CostIsMonotone(p: Price, input: nat, output: nat, input': nat, output': nat)
    requires input <= input' && output <= output'
    ensures ComputeCost(p, input, output) <= ComputeCost(p, input', output')
  {
    MoreTokensCostMore(input, input', p.inputPerMtok);
    MoreTokensCostMore(output, output', p.outputPerMtok);
    assert ExactCost(p, input, output) <= ExactCost(p, input', output');
  }

  predicate Within(cost: int, exact: real, halves: nat) {
    -(halves as real) <= 2.0 * (cost as real - exact) <= halves as real
  }

  /** The cost is the input tokens at the input price plus the output tokens at the output price, to the nearest
      micro-dollar and up on a tie. */
  lemma CostWithinHalfMicro(p: Price, input: nat, output: nat)
    ensures var exact := input as real * p.inputPerMtok + output as real * p.outputPerMtok;
            && Within(ComputeCost(p, input, output), exact, 1)
            && exact - 0.5 < ComputeCost(p, input, output) as real <= exact + 0.5
  {
    var x := ExactCost(p, input, output) + 0.5;
    assert x.Floor as real <= x < x.Floor as real + 1.0;
  }

  /** A side without tokens costs nothing, whatever its price. */
  lemma UnusedPriceIsFree(p: Price, q: Price, input: nat, output: nat)
    ensures p.inputPerMtok == q.inputPerMtok ==> ComputeCost(p, input, 0) == ComputeCost(q, input, 0)
    ensures p.outputPerMtok == q.outputPerMtok ==> ComputeCost(p, 0, output) == ComputeCost(q, 0, output)
  {
    assert 0 as real * p.inputPerMtok == 0.0 && 0 as real * q.inputPerMtok == 0.0;
    assert 0 as real * p.outputPerMtok == 0.0 && 0 as real * q.outputPerMtok == 0.0;
  }

  /** The listed claude-sonnet-4-5 row: 1000 tokens in and 100 out cost 4500 micro-dollars. */
  lemma SonnetCallCosts(p: Price)
    requires p.inputPerMtok == 3.0 && p.outputPerMtok == 15.0
    ensures ComputeCost(p, 1000, 100) == 4500
  {
    assert 1000 as real * 3.0 + 100 as real * 15.0 == 4500.0;
  }

  datatype Usage = Usage(price: Price, input: nat, output: nat)

  function LedgerTotal(rows: seq<Usage>): nat {
    if rows == [] then 0
    else LedgerTotal(rows[..|rows| - 1]) +
         ComputeCost(rows[|rows| - 1].price, rows[|rows| - 1].input, rows[|rows| - 1].output)
  }

  /** What the rows cost before rounding: all input tokens at their prices and all output tokens at theirs. */
  function ExactTotal(rows: seq<Usage>): real {
    if rows == [] then 0.0
    else
      var last := rows[|rows| - 1];
      ExactTotal(rows[..|rows| - 1])
      + last.input as real * last.price.inputPerMtok + last.output as real * last.price.outputPerMtok
  }

  /** A ledger of n rows drifts from the exact spend by at most n half micro-dollars. */
  lemma {:induction false} LedgerDrift(rows: seq<Usage>)
    ensures Within(LedgerTotal(rows), ExactTotal(rows), |rows|)
  {
    if rows != [] {
      var last := rows[|rows| - 1];
      LedgerDrift(rows[..|rows| - 1]);
      CostWithinHalfMicro(last.price, last.input, last.output);
      hide ComputeCost;
    }
  }
}
