/** Exploration caps: tighten-only resolution and the pure stop predicates over the crawl's counters. */
module Budget {
  import opened Common

  datatype Reason = MaxSteps | MaxDepth | WallClock | BudgetStop | Saturation | Converged | Failed | Stopped

  datatype Caps = Caps(maxSteps: int, maxDepth: int, maxRevisits: int, wallClock: int, saturationWindow: int)

  datatype Overrides = Overrides(maxSteps: Option<int>, maxDepth: Option<int>, maxRevisits: Option<int>,
                                 wallClock: Option<int>, saturationWindow: Option<int>)

  /** The lower of the override and the global cap; the global one where nothing is overridden. */
  predicate Honours(cap: int, override: Option<int>, globalCap: int) {
    && cap <= globalCap
    && (override.None? ==> cap == globalCap)
    && (override.Some? ==> cap <= override.value && (cap == override.value || cap == globalCap))
  }

  /** An override lowers a cap to itself and never raises it. */
  function BuildBudget(o: Overrides, globals: Caps): (b: Caps)
    ensures Tighter(b, globals)
    ensures Honours(b.maxSteps, o.maxSteps, globals.maxSteps)
    ensures Honours(b.maxDepth, o.maxDepth, globals.maxDepth)
    ensures Honours(b.maxRevisits, o.maxRevisits, globals.maxRevisits)
    ensures Honours(b.wallClock, o.wallClock, globals.wallClock)
    ensures Honours(b.saturationWindow, o.saturationWindow, globals.saturationWindow)
  {
    Caps(Clamp(o.maxSteps, globals.maxSteps), Clamp(o.maxDepth, globals.maxDepth),
         Clamp(o.maxRevisits, globals.maxRevisits), Clamp(o.wallClock, globals.wallClock),
         Clamp(o.saturationWindow, globals.saturationWindow))
  }

  /** Pointwise order on the caps that can end a run; the saturation window is not one of them. */
  predicate Tighter(b: Caps, c: Caps) {
    && b.maxSteps <= c.maxSteps
    && b.maxDepth <= c.maxDepth
    && b.maxRevisits <= c.maxRevisits
    && b.wallClock <= c.wallClock
  }

  /** The counters a crawl keeps: `seen` counts visits per fingerprint, `pairs` are the decisions taken. */
  datatype Ledger = Ledger(step: int, depth: int, seen: map<string, nat>, pairs: seq<(string, int)>, sinceNew: int)

  const START := Ledger(0, 0, map[], [], 0)

  function Visits(seen: map<string, nat>, key: string): nat {
    if key in seen then seen[key] else 0
  }

  function CapReason(l: Ledger, elapsed: real, b: Caps): Option<Reason> {
    if l.step >= b.maxSteps then Some(MaxSteps)
    else if l.depth >= b.maxDepth then Some(MaxDepth)
    else if elapsed >= b.wallClock as real then Some(WallClock)
    else None
  }

  predicate IsLoop(seen: map<string, nat>, pairs: seq<(string, int)>, key: string, chosen: Option<int>, b: Caps) {
    || Visits(seen, key) > b.maxRevisits
    || (chosen.Some? && (key, chosen.value) in pairs)
  }

  predicate IsSaturated(l: Ledger, b: Caps) {
    l.sinceNew >= b.saturationWindow
  }
}
