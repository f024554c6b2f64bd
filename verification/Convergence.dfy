/** The deterministic convergence harness: the real converge step driven over fixed snapshots. */
module Convergence {
  import opened Common
  import opened Budget
  import opened Fingerprint
  import Crawl

  /** The harness's state; `frontier` holds the snapshot indices still to be drained. */
  datatype Harness = Harness(ledger: Ledger, frontier: seq<nat>, stop: Option<Reason>)

  function Seed(count: nat): Harness {
    Harness(START, seq(count, i => i), None)
  }

  function ScriptAt(script: seq<int>, pos: nat): int {
    if script == [] then 0 else script[Min(pos, |script| - 1)]
  }

  /** One turn: land on a snapshot, drain one frontier entry, converge. */
  function Turn(fps: seq<string>, script: seq<int>, b: Caps, elapsed: nat -> real, pos: nat, s: Harness): Harness
    requires fps != []
  {
    var idx := ScriptAt(script, pos);
    var fp := fps[idx % |fps|];
    var frontier := if s.frontier == [] then [] else s.frontier[1..];
    Harness(Crawl.Advance(s.ledger, fp, Some(idx)), frontier,
            Crawl.StopReason(s.ledger, fp, Some(idx), frontier == [], elapsed(pos), b))
  }

  /** At most `fuel` more turns from `s`; running out of them is reported as the step cap. */
  function Turns(fps: seq<string>, script: seq<int>, b: Caps, elapsed: nat -> real, pos: nat, s: Harness,
                 fuel: nat): Harness
    requires fps != []
    decreases fuel
  {
    if s.stop.Some? then s
    else if fuel == 0 then s.(stop := Some(MaxSteps))
    else Turns(fps, script, b, elapsed, pos + 1, Turn(fps, script, b, elapsed, pos, s), fuel - 1)
  }

  function MaxIterations(b: Caps, count: nat): nat {
    Max(0, b.maxSteps + count + b.saturationWindow + 5)
  }

  function Fingerprints(snapshots: seq<Node>, cfg: Config, hash: seq<Line> -> string): (fps: seq<string>)
    ensures |fps| == |snapshots|
  {
    seq(|snapshots|, i requires 0 <= i < |snapshots| => hash(Skeleton(snapshots[i], cfg)))
  }

  /** What the harness ends in, as a function of the snapshots' fingerprints alone. */
  function Outcome(fps: seq<string>, script: seq<int>, b: Caps, elapsed: nat -> real): Harness {
    if fps == [] then Harness(START, [], Some(Saturation))
    else Turns(fps, script, b, elapsed, 0, Seed(|fps|), MaxIterations(b, |fps|))
  }

  /** The harness, recomputing a fingerprint on every turn as the live loop does. */
  method RunOverFixtures(snapshots: seq<Node>, cfg: Config, hash: seq<Line> -> string,
                         script: seq<int>, b: Caps, elapsed: nat -> real) returns (state: Harness)
    ensures state == Outcome(Fingerprints(snapshots, cfg, hash), script, b, elapsed)
  {
    if snapshots == [] {
      return Harness(START, [], Some(Saturation));
    }
    hide Turn;
    ghost var fps := Fingerprints(snapshots, cfg, hash);
    state := Seed(|snapshots|);
    var pos := 0;
    var iterations := MaxIterations(b, |snapshots|);
    while pos < iterations
      invariant pos <= iterations
      invariant state.stop.None?
      invariant Turns(fps, script, b, elapsed, pos, state, iterations - pos) == Outcome(fps, script, b, elapsed)
    {
      var idx := ScriptAt(script, pos);
      var fp := hash(Skeleton(snapshots[idx % |snapshots|], cfg));
      var frontier := state.frontier;
      if frontier != [] {
        frontier := frontier[1..];
      }
      var next := Harness(Crawl.Advance(state.ledger, fp, Some(idx)), frontier,
                          Crawl.StopReason(state.ledger, fp, Some(idx), frontier == [], elapsed(pos), b));
      TurnIs(fps, script, b, elapsed, pos, state, fp, frontier);
      pos := pos + 1;
      state := next;
      if state.stop.Some? {
        return;
      }
    }
    state := state.(stop := Some(MaxSteps));
  }

  lemma TurnIs(fps: seq<string>, script: seq<int>, b: Caps, elapsed: nat -> real, pos: nat, s: Harness,
               fp: string, frontier: seq<nat>)
    requires fps != [] && fp == fps[ScriptAt(script, pos) % |fps|]
    requires frontier == if s.frontier == [] then [] else s.frontier[1..]
    ensures Turn(fps, script, b, elapsed, pos, s) ==
            Harness(Crawl.Advance(s.ledger, fp, Some(ScriptAt(script, pos))), frontier,
                    Crawl.StopReason(s.ledger, fp, Some(ScriptAt(script, pos)), frontier == [], elapsed(pos), b))
  {}

  /** An edit of instance data at a path of one snapshot. */
  datatype SnapshotEdit = SnapshotEdit(snapshot: nat, path: seq<nat>, edit: Edit)

  function Edited(snapshots: seq<Node>, e: SnapshotEdit): seq<Node> {
    if e.snapshot < |snapshots| then
      snapshots[e.snapshot := EditAt(snapshots[e.snapshot], e.path, e.edit)]
    else snapshots
  }

  function EditedAll(snapshots: seq<Node>, edits: seq<SnapshotEdit>): seq<Node>
    decreases |edits|
  {
    if edits == [] then snapshots else EditedAll(Edited(snapshots, edits[0]), edits[1..])
  }

  /** Each edit touches instance data only, in the snapshots the earlier edits left. */
  predicate InstanceEdits(snapshots: seq<Node>, edits: seq<SnapshotEdit>, cfg: Config)
    decreases |edits|
  {
    edits != [] ==>
      var e := edits[0];
      && (e.snapshot < |snapshots| && NodeAt(snapshots[e.snapshot], e.path).Some? ==>
            InstanceEdit(NodeAt(snapshots[e.snapshot], e.path).value, e.edit, cfg))
      && InstanceEdits(Edited(snapshots, e), edits[1..], cfg)
  }

  lemma {:induction false} InstanceEditsKeepFingerprints(snapshots: seq<Node>, edits: seq<SnapshotEdit>, cfg: Config,
                                                         hash: seq<Line> -> string)
    requires InstanceEdits(snapshots, edits, cfg)
    ensures Fingerprints(EditedAll(snapshots, edits), cfg, hash) == Fingerprints(snapshots, cfg, hash)
    decreases |edits|
  {
    if edits != [] {
      var e := edits[0];
      if e.snapshot < |snapshots| {
        InstanceEditKeepsFingerprint(snapshots[e.snapshot], e.path, e.edit, cfg);
      }
      hide Skeleton;
      assert Fingerprints(Edited(snapshots, e), cfg, hash) == Fingerprints(snapshots, cfg, hash);
      InstanceEditsKeepFingerprints(Edited(snapshots, e), edits[1..], cfg, hash);
    }
  }

  /** Main result: any amount of instance-data noise, anywhere in any snapshot, leaves the harness's
      whole terminal state unchanged. */
  lemma ConvergenceIsTemplateOnly(snapshots: seq<Node>, edits: seq<SnapshotEdit>, cfg: Config,
                                  hash: seq<Line> -> string,
                                  script: seq<int>, b: Caps, elapsed: nat -> real)
    requires InstanceEdits(snapshots, edits, cfg)
    ensures Outcome(Fingerprints(EditedAll(snapshots, edits), cfg, hash), script, b, elapsed) ==
            Outcome(Fingerprints(snapshots, cfg, hash), script, b, elapsed)
  {
    InstanceEditsKeepFingerprints(snapshots, edits, cfg, hash);
  }

  /** A turn visits the snapshot its entry of the script names and decides that entry; past its end the script goes on
      as its last entry, and an empty script says 0. */
  lemma TurnFollowsTheScript(fps: seq<string>, script: seq<int>, b: Caps, elapsed: nat -> real, pos: nat, s: Harness)
    requires fps != []
    ensures var t := Turn(fps, script, b, elapsed, pos, s).ledger;
            var choice := if script == [] then 0 else if pos < |script| then script[pos] else script[|script| - 1];
            var fp := fps[choice % |fps|];
            && t.seen == s.ledger.seen[fp := (if fp in s.ledger.seen then s.ledger.seen[fp] else 0) + 1]
            && (fp, choice) in t.pairs && forall p | p in t.pairs :: p in s.ledger.pairs || p == (fp, choice)
  {}

  /** Main result: writing a script's last entry out once more changes no outcome. */
  lemma RepeatedLastEntryChangesNothing(fps: seq<string>, script: seq<int>, b: Caps, elapsed: nat -> real)
    requires script != []
    ensures Outcome(fps, script + [script[|script| - 1]], b, elapsed) == Outcome(fps, script, b, elapsed)
  {
    if fps != [] {
      SameScriptSameTurns(fps, script, script + [script[|script| - 1]], b, elapsed, 0, Seed(|fps|),
                          MaxIterations(b, |fps|));
    }
    hide Turns;
    hide Turn;
  }

  lemma {:induction false} SameScriptSameTurns(fps: seq<string>, script: seq<int>, script': seq<int>, b: Caps,
                                               elapsed: nat -> real, pos: nat, s: Harness, fuel: nat)
    requires fps != [] && forall i: nat :: ScriptAt(script, i) == ScriptAt(script', i)
    ensures Turns(fps, script, b, elapsed, pos, s, fuel) == Turns(fps, script', b, elapsed, pos, s, fuel)
    decreases fuel
  {
    hide ScriptAt;
    var t := Turn(fps, script, b, elapsed, pos, s);
    assert t == Turn(fps, script', b, elapsed, pos, s);
    hide Turn;
    if s.stop.None? && fuel > 0 {
      SameScriptSameTurns(fps, script, script', b, elapsed, pos + 1, t, fuel - 1);
    }
  }

  /** `r` is what converge made of a run still going after `pos` turns. */
  predicate ConvergedAt(fps: seq<string>, script: seq<int>, b: Caps, elapsed: nat -> real, pos: nat, p: Harness,
                        r: Harness)
    requires fps != []
  {
    p.stop.None? && p.ledger.step == pos && r.stop.Some? && r == Turn(fps, script, b, elapsed, pos, p)
  }

  /** A turn counts itself, drains one entry, and stops once nothing is left. */
  lemma TurnFacts(fps: seq<string>, script: seq<int>, b: Caps, elapsed: nat -> real, pos: nat, s: Harness)
    requires fps != []
    ensures var t := Turn(fps, script, b, elapsed, pos, s);
            && t.ledger.step == s.ledger.step + 1 && t.frontier == (if s.frontier == [] then [] else s.frontier[1..])
            && (t.frontier == [] ==> t.stop.Some?)
  {}

  lemma ConvergedHere(fps: seq<string>, script: seq<int>, b: Caps, elapsed: nat -> real, pos: nat, s: Harness)
    requires fps != [] && s.stop.None? && s.ledger.step == pos
    ensures var t := Turn(fps, script, b, elapsed, pos, s);
            t.stop.Some? ==> ConvergedAt(fps, script, b, elapsed, pos, s, t)
  {
    hide Turn;
  }

  lemma TurnsUnrolls(fps: seq<string>, script: seq<int>, b: Caps, elapsed: nat -> real, pos: nat, s: Harness, fuel: nat)
    requires fps != [] && s.stop.None?
    ensures var t := Turn(fps, script, b, elapsed, pos, s);
            Turns(fps, script, b, elapsed, pos, s, fuel) ==
            if fuel == 0 then s.(stop := Some(MaxSteps))
            else if t.stop.Some? then t
            else Turns(fps, script, b, elapsed, pos + 1, t, fuel - 1)
  {
    hide Turn;
  }

  /** With enough turns to drain the frontier, converge itself ends the run, and any other number of turns ends it
      the same or cuts it short before. */
  lemma {:induction false} TurnsStopOnTheirOwn(fps: seq<string>, script: seq<int>, b: Caps, elapsed: nat -> real,
                                               pos: nat,
                                               s: Harness, fuel: nat, other: nat)
    returns (last: nat, p: Harness)
    requires fps != [] && s.stop.None? && s.ledger.step == pos && 0 < |s.frontier| <= fuel
    ensures pos <= last < pos + |s.frontier|
    ensures ConvergedAt(fps, script, b, elapsed, last, p, Turns(fps, script, b, elapsed, pos, s, fuel))
    ensures var r := Turns(fps, script, b, elapsed, pos, s, other);
            if pos + other > last then r == Turns(fps, script, b, elapsed, pos, s, fuel)
            else r.stop == Some(MaxSteps) && r.ledger.step == pos + other
    decreases fuel
  {
    hide *;
    var s' := Turn(fps, script, b, elapsed, pos, s);
    TurnFacts(fps, script, b, elapsed, pos, s);
    TurnsUnrolls(fps, script, b, elapsed, pos, s, fuel);
    TurnsUnrolls(fps, script, b, elapsed, pos, s, other);
    ConvergedHere(fps, script, b, elapsed, pos, s);
    if s'.stop.Some? {
      last, p := pos, s;
    } else {
      var other' := if other > 0 then other - 1 else 0;
      last, p := TurnsStopOnTheirOwn(fps, script, b, elapsed, pos + 1, s', fuel - 1, other');
    }
  }

  /** Main result: left to itself converge ends the run in a turn `last` within one turn per snapshot, and the safety
      bound decides the outcome exactly when it allows no more than `last` turns. With the caps non-negative it
      allows more, so it never decides. */
  lemma SafetyBoundDecidesExactly(fps: seq<string>, script: seq<int>, b: Caps, elapsed: nat -> real)
    returns (last: nat, p: Harness)
    requires fps != []
    ensures last < |fps|
    ensures ConvergedAt(fps, script, b, elapsed, last, p, Turns(fps, script, b, elapsed, 0, Seed(|fps|), |fps|))
    ensures var r := Outcome(fps, script, b, elapsed);
            var bound := b.maxSteps + |fps| + b.saturationWindow + 5;
            if bound > last then ConvergedAt(fps, script, b, elapsed, last, p, r)
            else r.stop == Some(MaxSteps) && r.ledger.step == if bound < 0 then 0 else bound
    ensures b.maxSteps + b.saturationWindow + 5 >= 0 ==> b.maxSteps + |fps| + b.saturationWindow + 5 > last
  {
    hide Turn;
    last, p := TurnsStopOnTheirOwn(fps, script, b, elapsed, 0, Seed(|fps|), |fps|, MaxIterations(b, |fps|));
  }
}
