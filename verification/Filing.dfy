/** Filing defects to Jira: dedup by fingerprint label, the per-run cap, and the draft/applied/rejected rows. */
module Filing {
  import opened Common

  // ----- The tracker and the rows -----

  /** A Jira issue; its key is its position in the tracker, so keys are never reused. */
  datatype Issue = Issue(labels: set<string>, open: bool, comments: nat, attachments: seq<string>)

  datatype Status = Draft | Applied | Rejected

  /** What the classifier decided about one failure, with the artifact paths that passed containment. */
  datatype Decision = Decision(fp: string, product: bool, confidence: int, paths: seq<string>)

  /** A defect row; its id is its position. */
  datatype Row = Row(decision: Decision, status: Status, jiraKey: Option<nat>)

  datatype Settings = Settings(configured: bool, autonomous: bool, threshold: int, cap: int)

  /** Which Jira calls of one filing succeed; `attach` attachments go through before one raises. */
  datatype Calls = Calls(search: bool, comment: bool, create: bool, attach: nat)

  datatype Action = Create | Update | NoFile

  datatype Outcome =
    | Filed(issues: seq<Issue>, action: Action, key: Option<nat>, counter: int)
    | Raised(issues: seq<Issue>)

  function Label(fp: string): string {
    "fp-" + fp
  }

  predicate Matches(issue: Issue, fp: string) {
    issue.open && Label(fp) in issue.labels
  }

  /** The search result: the keys of the open issues carrying the fingerprint's label. */
  function Hits(issues: seq<Issue>, fp: string): (keys: seq<nat>)
    ensures forall k :: k in keys <==> 0 <= k < |issues| && Matches(issues[k], fp)
  {
    if issues == [] then []
    else
      var n := |issues| - 1;
      Hits(issues[..n], fp) + if Matches(issues[n], fp) then [n] else []
  }

  function Attached(issues: seq<Issue>, key: nat, paths: seq<string>): seq<Issue>
    requires key < |issues|
  {
    issues[key := issues[key].(attachments := issues[key].attachments + paths)]
  }

  function Commented(issues: seq<Issue>, key: nat): seq<Issue>
    requires key < |issues|
  {
    issues[key := issues[key].(comments := issues[key].comments + 1)]
  }

  function Opened(issues: seq<Issue>, fp: string): seq<Issue> {
    issues + [Issue({Label(fp)}, true, 0, [])]
  }

  function FilingOutcome(issues: seq<Issue>, d: Decision, counter: int, cap: int, calls: Calls): Outcome {
    var hits := Hits(issues, d.fp);
    if !calls.search then Raised(issues)
    else if hits != [] then
      assert hits[0] in hits;
      if !calls.comment then Raised(issues)
      else Attaching(Commented(issues, hits[0]), hits[0], d.paths, calls, Update, counter)
    else if counter >= cap then Filed(issues, NoFile, None, counter)
    else if !calls.create then Raised(issues)
    else Attaching(Opened(issues, d.fp), |issues|, d.paths, calls, Create, counter + 1)
  }

  function Attaching(issues: seq<Issue>, key: nat, paths: seq<string>, calls: Calls, action: Action,
                     counter: int): Outcome
    requires key < |issues|
  {
    if calls.attach < |paths| then Raised(Attached(issues, key, paths[..calls.attach]))
    else Filed(Attached(issues, key, paths), action, Some(key), counter)
  }

  predicate MayAutofile(d: Decision, cfg: Settings) {
    d.product && cfg.autonomous && d.confidence >= cfg.threshold
  }

  // ----- The desk as a state machine -----

  /** `counter` is the create counter threaded through one run's flows. */
  datatype Desk = Desk(issues: seq<Issue>, rows: seq<Row>, counter: int)

  datatype Event =
    | Classified(d: Decision, calls: Calls) // one flow failed and was classified
    | Apply(row: nat, calls: Calls)
    | Reject(row: nat)
    | Close(key: nat) // outside the program, in Jira itself

  function Settle(row: Row, out: Outcome): Row {
    if out.Filed? && out.action != NoFile then row.(status := Applied, jiraKey := out.key) else row
  }

  function Step(s: Desk, e: Event, cfg: Settings): Desk {
    match e
    case Classified(d, calls) =>
      var draft := Row(d, Draft, None);
      if !MayAutofile(d, cfg) then s.(rows := s.rows + [draft])
      else
        var out := FilingOutcome(s.issues, d, s.counter, cfg.cap, calls);
        Desk(out.issues, s.rows + [Settle(draft, out)], if out.Filed? then out.counter else s.counter)
    case Apply(i, calls) =>
      if i >= |s.rows| || !cfg.configured then s
      else
        var out := FilingOutcome(s.issues, s.rows[i].decision, 0, cfg.cap, calls);
        s.(issues := out.issues, rows := s.rows[i := Settle(s.rows[i], out)])
    case Reject(i) =>
      if i >= |s.rows| then s else s.(rows := s.rows[i := s.rows[i].(status := Rejected)])
    case Close(k) =>
      if k >= |s.issues| then s else s.(issues := s.issues[k := s.issues[k].(open := false)])
  }

  function Exec(s: Desk, es: seq<Event>, cfg: Settings): Desk
    decreases |es|
  {
    if es == [] then s else Exec(Step(s, es[0], cfg), es[1..], cfg)
  }

  // ----- The code that runs it -----

  class DefectDesk {
    var issues: seq<Issue>
    var rows: seq<Row>

    ghost function State(counter: int): Desk
      reads this
    {
      Desk(issues, rows, counter)
    }

    constructor (jira: seq<Issue>)
      ensures State(0) == Desk(jira, [], 0)
    {
      issues, rows := jira, [];
    }

    /** The Jira side of the dedup query. */
    method SearchJql(fp: string) returns (keys: seq<nat>)
      ensures keys == Hits(issues, fp)
    {
      keys := [];
      for k := 0 to |issues|
        invariant keys == Hits(issues[..k], fp)
      {
        assert issues[..k + 1][..k] == issues[..k];
        if Matches(issues[k], fp) {
          keys := keys + [k];
        }
      }
      assert issues[..|issues|] == issues;
    }

    method AttachAll(key: nat, paths: seq<string>, calls: Calls) returns (done: bool)
      requires key < |issues|
      modifies this`issues
      ensures done <==> |paths| <= calls.attach
      ensures issues == Attached(old(issues), key, paths[..Min(|paths|, calls.attach)])
    {
      var i := 0;
      var before := issues[key];
      assert before.attachments + paths[..0] == before.attachments;
      while i < |paths|
        invariant i <= |paths| && i <= calls.attach
        invariant |issues| == |old(issues)|
        invariant issues == Attached(old(issues), key, paths[..i])
      {
        if i == calls.attach {
          return false;
        }
        assert before.attachments + paths[..i + 1] == before.attachments + paths[..i] + [paths[i]];
        var issue := issues[key];
        issues := issues[key := issue.(attachments := issue.attachments + [paths[i]])];
        i := i + 1;
      }
      return true;
    }

    /** Dedup, cap, comment or create: the new tracker and the answer are those of the specification. A raised
        exception leaves no answer. */
    method FileOrUpdate(d: Decision, counter: int, cap: int, calls: Calls)
      returns (raised: bool, action: Action, key: Option<nat>, counter': int)
      modifies this`issues
      ensures var out := FilingOutcome(old(issues), d, counter, cap, calls);
              && issues == out.issues && raised == out.Raised?
              && (!raised ==> out == Filed(issues, action, key, counter'))
              && (raised ==> counter' == counter)
    {
      raised, action, key, counter' := true, NoFile, None, counter;
      if !calls.search {
        return;
      }
      var existing := SearchJql(d.fp);
      if existing != [] {
        var hit := existing[0];
        assert hit in existing;
        if !calls.comment {
          return;
        }
        issues := Commented(issues, hit);
        var done := AttachAll(hit, d.paths, calls);
        assert d.paths[..|d.paths|] == d.paths;
        return !done, Update, Some(hit), counter;
      }
      if counter >= cap {
        return false, NoFile, None, counter;
      }
      if !calls.create {
        return;
      }
      var created := |issues|;
      issues := Opened(issues, d.fp);
      var done := AttachAll(created, d.paths, calls);
      assert d.paths[..|d.paths|] == d.paths;
      return !done, Create, Some(created), if done then counter + 1 else counter;
    }

    /** The draft is stored first, whatever the cap, the autonomy gate or Jira do next. */
    method RunDefectPipeline(d: Decision, counter: int, calls: Calls, cfg: Settings) returns (counter': int)
      modifies this
      ensures State(counter') == Step(old(State(counter)), Classified(d, calls), cfg)
    {
      rows := rows + [Row(d, Draft, None)];
      counter' := counter;
      if MayAutofile(d, cfg) {
        var raised, action, key, c := FileOrUpdate(d, counter, cfg.cap, calls);
        if !raised && action != NoFile {
          rows := rows[|rows| - 1 := rows[|rows| - 1].(status := Applied, jiraKey := key)];
        }
        counter' := c;
      }
    }

    /** `found` is false for an unknown id; an unconfigured Jira is refused with nothing changed. */
    method ApplyDefect(i: nat, calls: Calls, cfg: Settings, ghost counter: int) returns (found: bool)
      modifies this
      ensures found <==> i < |old(rows)|
      ensures State(counter) == Step(old(State(counter)), Apply(i, calls), cfg)
    {
      if i >= |rows| {
        return false;
      }
      if cfg.configured {
        var raised, action, key, _ := FileOrUpdate(rows[i].decision, 0, cfg.cap, calls);
        if !raised && action != NoFile {
          rows := rows[i := rows[i].(status := Applied, jiraKey := key)];
        }
      }
      return true;
    }

    method RejectDefect(i: nat, ghost counter: int, ghost cfg: Settings) returns (found: bool)
      modifies this`rows
      ensures found <==> i < |old(rows)|
      ensures State(counter) == Step(old(State(counter)), Reject(i), cfg)
    {
      if i >= |rows| {
        return false;
      }
      rows := rows[i := rows[i].(status := Rejected)];
      return true;
    }
  }

  // ----- One open issue per fingerprint -----

  ghost predicate AtMostOneOpen(issues: seq<Issue>) {
    forall fp: string, i, j ::
      0 <= i < |issues| && 0 <= j < |issues| && Matches(issues[i], fp) && Matches(issues[j], fp) ==> i == j
  }

  /** An applied row has a key, and a row's key names an issue with the row's own label and all its artifacts. */
  predicate KeyIsOwn(row: Row, issues: seq<Issue>) {
    && (row.status == Applied ==> row.jiraKey.Some?)
    && (row.jiraKey.Some? ==> row.jiraKey.value < |issues| && CarriesEvidence(issues[row.jiraKey.value], row.decision))
  }

  predicate CarriesEvidence(issue: Issue, d: Decision) {
    Label(d.fp) in issue.labels && forall p | p in d.paths :: p in issue.attachments
  }

  predicate LandsOn(issues: seq<Issue>, key: nat, d: Decision) {
    key < |issues| && Matches(issues[key], d.fp) && CarriesEvidence(issues[key], d)
  }

  predicate KeysAreOwn(rows: seq<Row>, issues: seq<Issue>) {
    forall row | row in rows :: KeyIsOwn(row, issues)
  }

  /** Issues are only added, and keep their labels, comments and attachments; an old one never reopens. */
  predicate Extends(issues: seq<Issue>, later: seq<Issue>) {
    && |issues| <= |later|
    && (forall i | 0 <= i < |issues| :: later[i].labels == issues[i].labels && (later[i].open ==> issues[i].open)
          && issues[i].attachments <= later[i].attachments && issues[i].comments <= later[i].comments)
  }

  lemma LabelsDiffer(fp: string, fp': string)
    ensures Label(fp) == Label(fp') <==> fp == fp'
  {
    assert Label(fp)[3..] == fp && Label(fp')[3..] == fp';
  }

  /** What one filing does to the tracker and what it answers. */
  lemma FilingEffect(issues: seq<Issue>, d: Decision, counter: int, cap: int, calls: Calls)
    ensures var out := FilingOutcome(issues, d, counter, cap, calls);
            && Extends(issues, out.issues)
            && (forall i | 0 <= i < |issues| :: out.issues[i].open == issues[i].open)
            && |out.issues| <= |issues| + 1
            && (|out.issues| == |issues| + 1 ==>
                  var added := out.issues[|issues|];
                  Hits(issues, d.fp) == [] && counter < cap && added.labels == {Label(d.fp)} && added.open)
            && (out.Filed? ==> out.counter == counter + |out.issues| - |issues|)
            && (out.Filed? ==> (out.action == Create <==> |out.issues| == |issues| + 1))
            && (out.Filed? ==> (out.action == NoFile <==> out.key.None?))
            && (out.Filed? && out.key.Some? ==> LandsOn(out.issues, out.key.value, d))
  {
    var hits := Hits(issues, d.fp);
    assert hits != [] ==> hits[0] in hits;
  }

  predicate OpenWithLabel(issues: seq<Issue>, fp: string, k: nat) {
    k < |issues| && issues[k].open && ("fp-" + fp) in issues[k].labels
  }

  /** Main result: what one classified failure leaves behind. Without a product failure, autonomy or the confidence
      asked for it is a draft and Jira is untouched. Otherwise an open issue with its label gets a comment and the
      artifacts, and without one a new issue is opened below the cap; at the cap it stays a draft. */
  lemma ClassifiedIsFiledExactly(s: Desk, d: Decision, calls: Calls, cfg: Settings)
    ensures var r, n := Step(s, Classified(d, calls), cfg), |s.rows|;
            var allowed := d.product && cfg.autonomous && d.confidence >= cfg.threshold;
            var goesThrough := calls.search && calls.comment && calls.create && calls.attach >= |d.paths|;
            && |r.rows| == n + 1 && r.rows[..n] == s.rows && r.rows[n].decision == d
            && (!allowed || !calls.search ==>
                  r.issues == s.issues && r.rows[n] == Row(d, Draft, None) && r.counter == s.counter)
            && (allowed && goesThrough && (exists k :: OpenWithLabel(s.issues, d.fp, k)) ==>
                  var key := r.rows[n].jiraKey;
                  && r.rows[n].status == Applied && key.Some? && OpenWithLabel(s.issues, d.fp, key.value)
                  && r.counter == s.counter
                  && var was := s.issues[key.value];
                     r.issues == s.issues[key.value := was.(comments := was.comments + 1,
                                                            attachments := was.attachments + d.paths)])
            && (allowed && goesThrough && (forall k :: !OpenWithLabel(s.issues, d.fp, k)) ==>
                  if s.counter < cfg.cap then
                    && r.issues == s.issues + [Issue({"fp-" + d.fp}, true, 0, d.paths)]
                    && r.rows[n] == Row(d, Applied, Some(|s.issues|)) && r.counter == s.counter + 1
                  else r.issues == s.issues && r.rows[n] == Row(d, Draft, None) && r.counter == s.counter)
  {
    var hits := Hits(s.issues, d.fp);
    assert forall k: nat :: k in hits <==> OpenWithLabel(s.issues, d.fp, k);
    hide Hits;
    assert hits != [] ==> hits[0] in hits;
    assert [] + d.paths == d.paths;
  }

  /** A human's apply files the row's decision with a cap of its own, whatever the classifier said of it. */
  lemma AppliedIsFiledExactly(s: Desk, i: nat, calls: Calls, cfg: Settings)
    requires i < |s.rows|
    ensures var r, d := Step(s, Apply(i, calls), cfg), s.rows[i].decision;
            var goesThrough := calls.search && calls.comment && calls.create && calls.attach >= |d.paths|;
            && r.counter == s.counter && |r.rows| == |s.rows| && r.rows[i].decision == d
            && (forall j | 0 <= j < |s.rows| && j != i :: r.rows[j] == s.rows[j])
            && (!cfg.configured || !calls.search ==> r == s)
            && (cfg.configured && goesThrough && (exists k :: OpenWithLabel(s.issues, d.fp, k)) ==>
                  var key := r.rows[i].jiraKey;
                  && r.rows[i].status == Applied && key.Some? && OpenWithLabel(s.issues, d.fp, key.value)
                  && var was := s.issues[key.value];
                     r.issues == s.issues[key.value := was.(comments := was.comments + 1,
                                                            attachments := was.attachments + d.paths)])
            && (cfg.configured && goesThrough && (forall k :: !OpenWithLabel(s.issues, d.fp, k)) ==>
                  if 0 < cfg.cap then
                    && r.issues == s.issues + [Issue({"fp-" + d.fp}, true, 0, d.paths)]
                    && r.rows[i] == Row(d, Applied, Some(|s.issues|))
                  else r == s)
  {
    var d := s.rows[i].decision;
    var hits := Hits(s.issues, d.fp);
    assert forall k: nat :: k in hits <==> OpenWithLabel(s.issues, d.fp, k);
    hide Hits;
    assert hits != [] ==> hits[0] in hits;
    assert [] + d.paths == d.paths;
    assert s.rows[i := s.rows[i]] == s.rows;
  }

  lemma FilingKeepsOneOpen(issues: seq<Issue>, d: Decision, counter: int, cap: int, calls: Calls)
    requires AtMostOneOpen(issues)
    ensures AtMostOneOpen(FilingOutcome(issues, d, counter, cap, calls).issues)
  {
    FilingEffect(issues, d, counter, cap, calls);
    var later := FilingOutcome(issues, d, counter, cap, calls).issues;
    hide FilingOutcome;
    forall fp: string, i, j | 0 <= i < |later| && 0 <= j < |later| && Matches(later[i], fp) && Matches(later[j], fp)
      ensures i == j
    {
      LabelsDiffer(fp, d.fp);
      if i < |issues| { assert Matches(issues[i], fp); }
      if j < |issues| { assert Matches(issues[j], fp); }
      assert i < |issues| && j == |issues| ==> i in Hits(issues, d.fp);
      assert j < |issues| && i == |issues| ==> j in Hits(issues, d.fp);
    }
  }

  /** Whether this event opened an issue on the automatic path. */
  function Opens(s: Desk, e: Event, cfg: Settings): nat {
    if e.Classified? && |Step(s, e, cfg).issues| > |s.issues| then 1 else 0
  }

  /** An automatic create whose attachment raised: the issue is there, the caller never hears of it. */
  function Uncounted(s: Desk, e: Event, cfg: Settings): nat {
    if Opens(s, e, cfg) == 1 && e.calls.attach < |e.d.paths| then 1 else 0
  }

  function Total(f: (Desk, Event, Settings) -> nat, s: Desk, es: seq<Event>, cfg: Settings): nat
    decreases |es|
  {
    if es == [] then 0 else f(s, es[0], cfg) + Total(f, Step(s, es[0], cfg), es[1..], cfg)
  }

  lemma StepKeepsOrder(s: Desk, e: Event, cfg: Settings)
    ensures var t := Step(s, e, cfg);
            && Extends(s.issues, t.issues)
            && (AtMostOneOpen(s.issues) ==> AtMostOneOpen(t.issues))
            && (KeysAreOwn(s.rows, s.issues) ==> KeysAreOwn(t.rows, t.issues))
  {
    var t := Step(s, e, cfg);
    KeysStayOwn(s, e, cfg);
    if e.Classified? || (e.Apply? && e.row < |s.rows|) {
      var d := if e.Classified? then e.d else s.rows[e.row].decision;
      var c := if e.Classified? then s.counter else 0;
      FilingEffect(s.issues, d, c, cfg.cap, e.calls);
      if AtMostOneOpen(s.issues) {
        FilingKeepsOneOpen(s.issues, d, c, cfg.cap, e.calls);
      }
    } else if AtMostOneOpen(s.issues) {
      forall fp: string, i, j | 0 <= i < |t.issues| && 0 <= j < |t.issues|
                                && Matches(t.issues[i], fp) && Matches(t.issues[j], fp)
        ensures i == j
      {
        assert Matches(s.issues[i], fp) && Matches(s.issues[j], fp);
      }
    }
  }

  lemma KeysStayOwn(s: Desk, e: Event, cfg: Settings)
    ensures var t := Step(s, e, cfg); KeysAreOwn(s.rows, s.issues) ==> KeysAreOwn(t.rows, t.issues)
  {
    var t := Step(s, e, cfg);
    if e.Classified? {
      FilingEffect(s.issues, e.d, s.counter, cfg.cap, e.calls);
    } else if e.Apply? && e.row < |s.rows| {
      FilingEffect(s.issues, s.rows[e.row].decision, 0, cfg.cap, e.calls);
    }
    hide FilingOutcome;
    if KeysAreOwn(s.rows, s.issues) {
      forall i | 0 <= i < |t.rows| ensures KeyIsOwn(t.rows[i], t.issues) {
        if i < |s.rows| {
          assert s.rows[i] in s.rows && KeyIsOwn(s.rows[i], s.issues);
        }
      }
    }
  }

  /** What each row is about, in order. */
  function Decisions(rows: seq<Row>): (ds: seq<Decision>)
    ensures |ds| == |rows| && forall i | 0 <= i < |rows| :: ds[i] == rows[i].decision
  {
    seq(|rows|, i requires 0 <= i < |rows| => rows[i].decision)
  }

  /** The failures that were classified in a run, in order. */
  function Failures(es: seq<Event>): seq<Decision> {
    if es == [] then [] else (if es[0].Classified? then [es[0].d] else []) + Failures(es[1..])
  }

  lemma StepCounts(s: Desk, e: Event, cfg: Settings)
    ensures var t := Step(s, e, cfg);
            && t.counter + Uncounted(s, e, cfg) == s.counter + Opens(s, e, cfg)
            && s.counter <= t.counter <= Max(s.counter, cfg.cap)
            && Decisions(t.rows) == Decisions(s.rows) + if e.Classified? then [e.d] else []
  {
    if e.Classified? {
      FilingEffect(s.issues, e.d, s.counter, cfg.cap, e.calls);
    }
    hide FilingOutcome;
  }

  /** Main result: whatever the order of failures, applies, rejects, closes and Jira errors, a tracker with at most
      one open issue per fingerprint keeps that, and every applied row names an issue with its own label and all its
      artifacts. */
  lemma {:induction false} OneOpenIssuePerFingerprint(s: Desk, es: seq<Event>, cfg: Settings)
    requires AtMostOneOpen(s.issues) && KeysAreOwn(s.rows, s.issues)
    ensures var t := Exec(s, es, cfg);
            AtMostOneOpen(t.issues) && KeysAreOwn(t.rows, t.issues) && Extends(s.issues, t.issues)
    decreases |es|
  {
    if es != [] {
      StepKeepsOrder(s, es[0], cfg);
      OneOpenIssuePerFingerprint(Step(s, es[0], cfg), es[1..], cfg);
      hide Step;
    }
  }

  /** Main result: the threaded counter is its start plus the automatic creates it heard of, never goes past the cap
      from below, and every classified failure has its row, in order and for good. The counter equals every create
      exactly when no attachment raised
      right after one. */
  lemma {:induction false} CounterCountsCreates(s: Desk, es: seq<Event>, cfg: Settings)
    ensures var t := Exec(s, es, cfg);
            && t.counter + Total(Uncounted, s, es, cfg) == s.counter + Total(Opens, s, es, cfg)
            && s.counter <= t.counter <= Max(s.counter, cfg.cap)
            && Decisions(t.rows) == Decisions(s.rows) + Failures(es)
    decreases |es|
  {
    if es != [] {
      var m := Step(s, es[0], cfg);
      StepCounts(s, es[0], cfg);
      CounterCountsCreates(m, es[1..], cfg);
      hide Step;
      hide Opens;
      hide Uncounted;
      hide Decisions;
      assert Exec(s, es, cfg) == Exec(m, es[1..], cfg);
      assert Decisions(m.rows) + Failures(es[1..]) == Decisions(s.rows) + Failures(es);
    }
  }

  // ----- What a row's key and status say about its past -----

  /** The key Jira answered to a filing of row `i`, if the event files that row and is answered with one. */
  function Answer(s: Desk, e: Event, cfg: Settings, i: nat): Option<nat> {
    match e
    case Classified(d, calls) =>
      if i != |s.rows| || !MayAutofile(d, cfg) then None
      else KeyOf(FilingOutcome(s.issues, d, s.counter, cfg.cap, calls))
    case Apply(j, calls) =>
      if i != j || i >= |s.rows| || !cfg.configured then None
      else KeyOf(FilingOutcome(s.issues, s.rows[i].decision, 0, cfg.cap, calls))
    case _ => None
  }

  function KeyOf(out: Outcome): Option<nat> {
    if out.Filed? then out.key else None
  }

  /** The last answer a filing of row `i` got in the run. */
  function LastAnswer(s: Desk, es: seq<Event>, cfg: Settings, i: nat): Option<nat>
    decreases |es|
  {
    if es == [] then None
    else
      var later := LastAnswer(Step(s, es[0], cfg), es[1..], cfg, i);
      if later.Some? then later else Answer(s, es[0], cfg, i)
  }

  /** Which came last for row `i`: an answered filing, or a reject. */
  function LastVerdict(s: Desk, es: seq<Event>, cfg: Settings, i: nat): Option<Status>
    decreases |es|
  {
    if es == [] then None
    else
      var later := LastVerdict(Step(s, es[0], cfg), es[1..], cfg, i);
      if later.Some? then later
      else if Answer(s, es[0], cfg, i).Some? then Some(Applied)
      else if es[0] == Reject(i) && i < |s.rows| then Some(Rejected)
      else None
  }

  function KeyBefore(rows: seq<Row>, i: nat): Option<nat> {
    if i < |rows| then rows[i].jiraKey else None
  }

  function StatusBefore(rows: seq<Row>, i: nat): Status {
    if i < |rows| then rows[i].status else Draft
  }

  lemma StepFollowsItsAnswer(s: Desk, e: Event, cfg: Settings, i: nat)
    ensures var t, answer := Step(s, e, cfg), Answer(s, e, cfg, i);
            && KeyBefore(t.rows, i) == (if answer.Some? then answer else KeyBefore(s.rows, i))
            && StatusBefore(t.rows, i) == if answer.Some? then Applied
                                          else if e == Reject(i) && i < |s.rows| then Rejected
                                          else StatusBefore(s.rows, i)
  {
    if e.Classified? {
      FilingEffect(s.issues, e.d, s.counter, cfg.cap, e.calls);
    } else if e.Apply? && e.row < |s.rows| {
      FilingEffect(s.issues, s.rows[e.row].decision, 0, cfg.cap, e.calls);
    }
    hide FilingOutcome;
  }

  /** A row's key is the last one a filing of it was answered with, and its status the last of those answers and of
      the rejects. */
  lemma {:induction false} RowFollowsItsHistory(s: Desk, es: seq<Event>, cfg: Settings, i: nat)
    ensures var t, answer, verdict := Exec(s, es, cfg), LastAnswer(s, es, cfg, i), LastVerdict(s, es, cfg, i);
            && KeyBefore(t.rows, i) == (if answer.Some? then answer else KeyBefore(s.rows, i))
            && StatusBefore(t.rows, i) == if verdict.Some? then verdict.value else StatusBefore(s.rows, i)
    decreases |es|
  {
    if es != [] {
      StepFollowsItsAnswer(s, es[0], cfg, i);
      hide Step;
      hide Answer;
      hide KeyBefore;
      hide StatusBefore;
      RowFollowsItsHistory(Step(s, es[0], cfg), es[1..], cfg, i);
    }
  }

  /** Main result: a row drafted in the run, rejected or not, has no issue exactly when no filing of it was ever
      answered
      with a key; and a rejected row ends applied exactly when an apply of it was answered after its last reject. */
  lemma RejectedRowsExactly(s: Desk, es: seq<Event>, cfg: Settings, i: nat)
    ensures var t := Exec(s, es, cfg);
            && (i >= |s.rows| && i < |t.rows| ==> (t.rows[i].jiraKey.None? <==> LastAnswer(s, es, cfg, i).None?))
            && (i < |s.rows| && s.rows[i].status == Rejected ==>
                  i < |t.rows| && (t.rows[i].status == Applied <==> LastVerdict(s, es, cfg, i) == Some(Applied)))
  {
    RowFollowsItsHistory(s, es, cfg, i);
    CounterCountsCreates(s, es, cfg);
    assert |Decisions(Exec(s, es, cfg).rows)| >= |Decisions(s.rows)|;
  }

  /** Rejecting a row that was filed leaves it rejected with its open issue: from every desk with room under the cap. */
  lemma RejectedRowKeepsItsIssue(s: Desk, d: Decision, cfg: Settings)
    requires MayAutofile(d, cfg) && s.counter < cfg.cap
    ensures var i := |s.rows|;
            var t := Exec(s, [Classified(d, Calls(true, true, true, |d.paths|)), Reject(i)], cfg);
            && |t.rows| == i + 1 && t.rows[i].status == Rejected
            && t.rows[i].jiraKey.Some? && LandsOn(t.issues, t.rows[i].jiraKey.value, d)
  {
    var calls := Calls(true, true, true, |d.paths|);
    FilingEffect(s.issues, d, s.counter, cfg.cap, calls);
    var m := Step(s, Classified(d, calls), cfg);
    assert Exec(m, [Reject(|s.rows|)], cfg) == Step(m, Reject(|s.rows|), cfg);
    hide Hits;
  }

  /** Failures of fingerprints nobody filed yet, each with an attachment that raises. */
  predicate Unlucky(es: seq<Event>, issues: seq<Issue>, cfg: Settings) {
    && (forall i | 0 <= i < |es| :: es[i].Classified? && MayAutofile(es[i].d, cfg)
          && es[i].calls.search && es[i].calls.create && es[i].calls.attach < |es[i].d.paths|
          && Hits(issues, es[i].d.fp) == [])
    && (forall i, j | 0 <= i < j < |es| :: es[i].d.fp != es[j].d.fp)
  }

  lemma {:induction false} NoMatchNoHit(issues: seq<Issue>, fp: string)
    requires forall k | 0 <= k < |issues| :: !Matches(issues[k], fp)
    ensures Hits(issues, fp) == []
  {
    if issues != [] {
      NoMatchNoHit(issues[..|issues| - 1], fp);
    }
  }

  lemma UnluckyStep(s: Desk, e: Event, cfg: Settings)
    requires e.Classified? && s.counter < cfg.cap && Unlucky([e], s.issues, cfg)
    ensures var t := Step(s, e, cfg);
            && t.counter == s.counter && |t.issues| == |s.issues| + 1 && t.issues[..|s.issues|] == s.issues
            && t.issues[|s.issues|].labels == {Label(e.d.fp)}
  {
    assert [e][0] == e;
  }

  /** Another fingerprint's create does not make a search hit. */
  lemma StillNoHit(issues: seq<Issue>, later: seq<Issue>, fp: string, other: string)
    requires |later| == |issues| + 1 && later[..|issues|] == issues && later[|issues|].labels == {Label(other)}
    requires fp != other && Hits(issues, fp) == []
    ensures Hits(later, fp) == []
  {
    LabelsDiffer(fp, other);
    forall k | 0 <= k < |later| ensures !Matches(later[k], fp) {
      assert k < |issues| ==> later[k] == later[..|issues|][k] && k !in Hits(issues, fp);
    }
    NoMatchNoHit(later, fp);
  }

  /** The cap does not bound creates whose attachment raises: any number of them goes through below it. */
  lemma {:induction false} RaisedAttachmentsEscapeTheCap(s: Desk, es: seq<Event>, cfg: Settings)
    requires s.counter < cfg.cap && Unlucky(es, s.issues, cfg)
    ensures var t := Exec(s, es, cfg); |t.issues| == |s.issues| + |es| && t.counter == s.counter
    decreases |es|
  {
    hide Step;
    hide Hits;
    if es != [] {
      var t := Step(s, es[0], cfg);
      assert Unlucky([es[0]], s.issues, cfg);
      UnluckyStep(s, es[0], cfg);
      forall i | 0 <= i < |es[1..]| ensures Hits(t.issues, es[1..][i].d.fp) == [] {
        assert es[1..][i] == es[i + 1];
        StillNoHit(s.issues, t.issues, es[i + 1].d.fp, es[0].d.fp);
      }
      RaisedAttachmentsEscapeTheCap(t, es[1..], cfg);
    }
  }

  // ----- Recurrences land on the issue that is already open -----

  predicate Leaves(es: seq<Event>, k: nat) {
    forall e | e in es :: e != Close(k)
  }

  /** Every row of `fp` has its old key or `k`, and new rows of `fp` have `k` or none. */
  predicate OnlyNew(fp: string, k: nat, rows: seq<Row>, later: seq<Row>) {
    && |rows| <= |later|
    && (forall i | 0 <= i < |rows| :: later[i].decision == rows[i].decision)
    && (forall i | 0 <= i < |later| && later[i].decision.fp == fp ::
          later[i].jiraKey == Some(k) || later[i].jiraKey == if i < |rows| then rows[i].jiraKey else None)
  }

  lemma HitIsTheOpenOne(issues: seq<Issue>, fp: string, k: nat)
    requires AtMostOneOpen(issues) && k < |issues| && Matches(issues[k], fp)
    ensures Hits(issues, fp) != [] && Hits(issues, fp)[0] == k
  {
    var hits := Hits(issues, fp);
    assert k in hits && hits[0] in hits;
  }

  /** The decision an event files, if it files any. */
  function Files(s: Desk, e: Event, cfg: Settings): Option<Decision> {
    match e
    case Classified(d, _) => if MayAutofile(d, cfg) then Some(d) else None
    case Apply(i, _) => if i < |s.rows| && cfg.configured then Some(s.rows[i].decision) else None
    case _ => None
  }

  /** Whether the event files under a label of the open issue `k` and gets as far as commenting. */
  function Recurs(k: nat, s: Desk, e: Event, cfg: Settings): nat {
    var d := Files(s, e, cfg);
    if d.Some? && e.calls.search && e.calls.comment && k < |s.issues| && Matches(s.issues[k], d.value.fp) then 1 else 0
  }

  lemma FilingComments(issues: seq<Issue>, d: Decision, counter: int, cap: int, calls: Calls, k: nat)
    requires AtMostOneOpen(issues) && k < |issues| && issues[k].open
    ensures var later := FilingOutcome(issues, d, counter, cap, calls).issues;
            k < |later| && later[k].comments ==
              issues[k].comments + if calls.search && calls.comment && Matches(issues[k], d.fp) then 1 else 0
  {
    var hits := Hits(issues, d.fp);
    assert hits != [] ==> hits[0] in hits;
    assert Matches(issues[k], d.fp) ==> k in hits;
  }

  lemma StepReusesTheIssue(s: Desk, e: Event, cfg: Settings, fp: string, k: nat)
    requires AtMostOneOpen(s.issues) && k < |s.issues| && Matches(s.issues[k], fp) && e != Close(k)
    ensures var t := Step(s, e, cfg);
            k < |t.issues| && Matches(t.issues[k], fp) && OnlyNew(fp, k, s.rows, t.rows)
  {
    HitIsTheOpenOne(s.issues, fp, k);
    if e.Classified? {
      FilingEffect(s.issues, e.d, s.counter, cfg.cap, e.calls);
    } else if e.Apply? && e.row < |s.rows| {
      FilingEffect(s.issues, s.rows[e.row].decision, 0, cfg.cap, e.calls);
    }
  }

  lemma StepComments(s: Desk, e: Event, cfg: Settings, k: nat)
    requires AtMostOneOpen(s.issues) && k < |s.issues| && s.issues[k].open && e != Close(k)
    ensures var t := Step(s, e, cfg);
            k < |t.issues| && t.issues[k].comments == s.issues[k].comments + Recurs(k, s, e, cfg)
  {
    hide FilingOutcome;
    if e.Classified? {
      FilingComments(s.issues, e.d, s.counter, cfg.cap, e.calls, k);
    } else if e.Apply? && e.row < |s.rows| {
      FilingComments(s.issues, s.rows[e.row].decision, 0, cfg.cap, e.calls, k);
    }
  }

  /** Main result: while the open issue of a fingerprint is not closed, every filing of that fingerprint, automatic or
      manual, in this run or another, lands on it: no second issue, no row of it gets any other key, and the issue
      gains exactly one comment per filing that got that far. */
  lemma {:induction false} RecurrencesReuseTheIssue(s: Desk, es: seq<Event>, cfg: Settings, fp: string, k: nat)
    requires AtMostOneOpen(s.issues) && k < |s.issues| && Matches(s.issues[k], fp) && Leaves(es, k)
    ensures var t := Exec(s, es, cfg);
            k < |t.issues| && Matches(t.issues[k], fp) && OnlyNew(fp, k, s.rows, t.rows)
            && t.issues[k].comments == s.issues[k].comments + Comments(k, s, es, cfg)
    decreases |es|
  {
    if es != [] {
      var m := Step(s, es[0], cfg);
      assert es[0] in es && forall e | e in es[1..] :: e in es;
      StepReusesTheIssue(s, es[0], cfg, fp, k);
      StepComments(s, es[0], cfg, k);
      StepKeepsOrder(s, es[0], cfg);
      RecurrencesReuseTheIssue(m, es[1..], cfg, fp, k);
      hide Step;
      hide Recurs;
    }
  }

  function Comments(k: nat, s: Desk, es: seq<Event>, cfg: Settings): nat
    decreases |es|
  {
    if es == [] then 0 else Recurs(k, s, es[0], cfg) + Comments(k, Step(s, es[0], cfg), es[1..], cfg)
  }

  // ----- Search and create are two calls -----

  /** A filing between its search and its write. */
  datatype Flight = Flight(fp: string, found: Option<nat>)

  datatype Tracker = Tracker(issues: seq<Issue>, flights: map<nat, Flight>)

  /** A search; its filing's write; a filing that ends without one (refused at the cap, or a call that raised); an issue
      closed in Jira. */
  datatype Move = Look(id: nat, fp: string) | Land(id: nat) | Drop(id: nat) | Shut(key: nat)

  /** A filing's id is its own: a look under an id in flight does not happen. */
  function Advance(s: Tracker, m: Move): Tracker {
    match m
    case Look(id, fp) =>
      var hits := Hits(s.issues, fp);
      if id in s.flights then s
      else s.(flights := s.flights[id := Flight(fp, if hits == [] then None else Some(hits[0]))])
    case Land(id) =>
      if id !in s.flights then s
      else
        var f := s.flights[id];
        Tracker(
          if f.found.None? then Opened(s.issues, f.fp)
          else if f.found.value < |s.issues| then Commented(s.issues, f.found.value) else s.issues,
          s.flights - {id})
    case Drop(id) => s.(flights := s.flights - {id})
    case Shut(k) =>
      if k >= |s.issues| then s else s.(issues := s.issues[k := s.issues[k].(open := false)])
  }

  function Fly(s: Tracker, ms: seq<Move>): Tracker
    decreases |ms|
  {
    if ms == [] then s else Fly(Advance(s, ms[0]), ms[1..])
  }

  predicate Missed(s: Tracker, id: nat, fp: string) {
    id in s.flights && s.flights[id] == Flight(fp, None)
  }

  /** The filing in flight under `id` goes on to write. */
  predicate Writes(ms: seq<Move>, id: nat) {
    ms != [] && (ms[0] == Land(id) || (ms[0] != Drop(id) && Writes(ms[1..], id)))
  }

  /** The search misses while another filing of the same fingerprint, which also missed, is still to create, and this
      one creates too. */
  ghost predicate SecondCreate(s: Tracker, m: Move, rest: seq<Move>) {
    && m.Look? && m.id !in s.flights && Hits(s.issues, m.fp) == [] && Writes(rest, m.id)
    && exists a :: Missed(s, a, m.fp) && Writes(rest, a)
  }

  ghost predicate NoSecondCreate(s: Tracker, ms: seq<Move>)
    decreases |ms|
  {
    ms == [] || (!SecondCreate(s, ms[0], ms[1..]) && NoSecondCreate(Advance(s, ms[0]), ms[1..]))
  }

  /** The filing missed and will create. */
  predicate Creates(s: Tracker, ms: seq<Move>, id: nat, fp: string) {
    Missed(s, id, fp) && Writes(ms, id)
  }

  /** Before the moves `ms`: no two filings that will create share a fingerprint, and none of them would hit now. */
  ghost predicate Orderly(s: Tracker, ms: seq<Move>) {
    && AtMostOneOpen(s.issues)
    && (forall a, b, fp :: Creates(s, ms, a, fp) && Creates(s, ms, b, fp) ==> a == b)
    && (forall id, fp, i | Creates(s, ms, id, fp) && 0 <= i < |s.issues| :: !Matches(s.issues[i], fp))
  }

  lemma AdvanceStaysOrderly(s: Tracker, m: Move, rest: seq<Move>)
    requires Orderly(s, [m] + rest) && !SecondCreate(s, m, rest)
    ensures Orderly(Advance(s, m), rest)
  {
    match m
    case Look(id, fp) =>
      LookStaysOrderly(s, id, fp, rest);
    case Land(id) =>
      if id in s.flights && s.flights[id].found.None? {
        CreateStaysOrderly(s, id, rest);
      } else {
        FewerStayOrderly(s, Advance(s, m), m, rest);
      }
    case Drop(id) =>
      FewerStayOrderly(s, Advance(s, m), m, rest);
    case Shut(k) =>
      FewerStayOrderly(s, Advance(s, m), m, rest);
  }

  /** Unless the move is the filing's own end, whether it writes is up to the rest. */
  lemma WritesLater(m: Move, rest: seq<Move>, id: nat)
    ensures m != Land(id) && m != Drop(id) ==> (Writes([m] + rest, id) <==> Writes(rest, id))
  {
    assert ([m] + rest)[1..] == rest;
  }

  lemma LookStaysOrderly(s: Tracker, id: nat, fp: string, rest: seq<Move>)
    requires Orderly(s, [Look(id, fp)] + rest) && !SecondCreate(s, Look(id, fp), rest)
    ensures Orderly(Advance(s, Look(id, fp)), rest)
  {
    var t, hits := Advance(s, Look(id, fp)), Hits(s.issues, fp);
    forall i | 0 <= i < |s.issues| && hits == [] ensures !Matches(s.issues[i], fp) {
      assert i !in hits;
    }
    hide Hits;
    hide Matches;
    hide Writes;
    forall o, other | Creates(t, rest, o, other)
      ensures Creates(s, [Look(id, fp)] + rest, o, other) || (o == id && id !in s.flights && other == fp && hits == [])
    {
      WritesLater(Look(id, fp), rest, o);
    }
    forall o | Creates(t, rest, id, fp) && id !in s.flights && hits == [] && Creates(s, [Look(id, fp)] + rest, o, fp)
      ensures !Creates(t, rest, o, fp) || o == id
    {
      WritesLater(Look(id, fp), rest, o);
    }
  }

  lemma CreateStaysOrderly(s: Tracker, id: nat, rest: seq<Move>)
    requires id in s.flights && s.flights[id].found.None? && Orderly(s, [Land(id)] + rest)
    ensures Orderly(Advance(s, Land(id)), rest)
  {
    var t, own := Advance(s, Land(id)), s.flights[id].fp;
    assert Creates(s, [Land(id)] + rest, id, own);
    forall fp: string, i, j | 0 <= i < |t.issues| && 0 <= j < |t.issues|
                              && Matches(t.issues[i], fp) && Matches(t.issues[j], fp)
      ensures i == j
    {
      LabelsDiffer(fp, own);
    }
    forall o, fp | Creates(t, rest, o, fp)
      ensures Creates(s, [Land(id)] + rest, o, fp) && !Matches(t.issues[|s.issues|], fp)
    {
      LabelsDiffer(fp, own);
      WritesLater(Land(id), rest, o);
      assert Missed(s, o, fp) && o != id;
      assert fp == own ==> Creates(s, [Land(id)] + rest, o, own);
    }
  }

  lemma FewerStayOrderly(s: Tracker, t: Tracker, m: Move, rest: seq<Move>)
    requires Orderly(s, [m] + rest) && !m.Look? && |t.issues| == |s.issues|
    requires forall i | 0 <= i < |s.issues| ::
               t.issues[i].labels == s.issues[i].labels && (t.issues[i].open ==> s.issues[i].open)
    requires t.flights.Keys <= s.flights.Keys && forall id | id in t.flights :: t.flights[id] == s.flights[id]
    requires forall id | m == Land(id) || m == Drop(id) :: id !in t.flights
    ensures Orderly(t, rest)
  {
    forall i, fp | 0 <= i < |t.issues| && Matches(t.issues[i], fp) ensures Matches(s.issues[i], fp) {}
    forall o, fp | Creates(t, rest, o, fp) ensures Creates(s, [m] + rest, o, fp) {
      WritesLater(m, rest, o);
    }
  }

  /** With search and create as separate calls, filings may interleave freely, and issues be closed, as long as no two
      filings of one fingerprint both miss before either creates and then both create. */
  lemma {:induction false} FilingsWithoutSecondCreateKeepOrder(s: Tracker, ms: seq<Move>)
    requires Orderly(s, ms)
    ensures NoSecondCreate(s, ms) ==> AtMostOneOpen(Fly(s, ms).issues)
    decreases |ms|
  {
    hide Advance;
    hide SecondCreate;
    hide Creates;
    if ms != [] {
      assert ms == [ms[0]] + ms[1..];
      if !SecondCreate(s, ms[0], ms[1..]) {
        AdvanceStaysOrderly(s, ms[0], ms[1..]);
        FilingsWithoutSecondCreateKeepOrder(Advance(s, ms[0]), ms[1..]);
      }
    }
  }

  predicate NothingShut(ms: seq<Move>) {
    forall m | m in ms :: !m.Shut?
  }

  predicate OpenAt(s: Tracker, i: nat, fp: string) {
    i < |s.issues| && Matches(s.issues[i], fp)
  }

  lemma OpenStays(s: Tracker, m: Move, i: nat, fp: string)
    requires !m.Shut? && OpenAt(s, i, fp)
    ensures OpenAt(Advance(s, m), i, fp)
  {
    hide Hits;
  }

  lemma MissStaysOrCreates(s: Tracker, m: Move, id: nat, fp: string)
    requires !m.Shut? && Missed(s, id, fp) && m != Drop(id)
    ensures if m == Land(id) then OpenAt(Advance(s, m), |s.issues|, fp) else Missed(Advance(s, m), id, fp)
  {
    hide Hits;
  }

  lemma {:induction false} TwoOpenStay(s: Tracker, ms: seq<Move>, i: nat, j: nat, fp: string)
    requires NothingShut(ms) && i != j && OpenAt(s, i, fp) && OpenAt(s, j, fp)
    ensures !AtMostOneOpen(Fly(s, ms).issues)
    decreases |ms|
  {
    hide Advance;
    if ms != [] {
      assert ms[0] in ms && forall m | m in ms[1..] :: m in ms;
      OpenStays(s, ms[0], i, fp);
      OpenStays(s, ms[0], j, fp);
      TwoOpenStay(Advance(s, ms[0]), ms[1..], i, j, fp);
    }
  }

  lemma {:induction false} CreateBesideOpenDuplicates(s: Tracker, ms: seq<Move>, i: nat, b: nat, fp: string)
    requires NothingShut(ms) && OpenAt(s, i, fp) && Creates(s, ms, b, fp)
    ensures !AtMostOneOpen(Fly(s, ms).issues)
    decreases |ms|
  {
    hide Advance;
    assert ms[0] in ms && forall m | m in ms[1..] :: m in ms;
    OpenStays(s, ms[0], i, fp);
    MissStaysOrCreates(s, ms[0], b, fp);
    if ms[0] == Land(b) {
      TwoOpenStay(Advance(s, ms[0]), ms[1..], i, |s.issues|, fp);
    } else {
      CreateBesideOpenDuplicates(Advance(s, ms[0]), ms[1..], i, b, fp);
    }
  }

  /** Two filings of a fingerprint that both missed and both create open two issues, whatever else flies. */
  lemma {:induction false} TwoCreatesDuplicate(s: Tracker, ms: seq<Move>, a: nat, b: nat, fp: string)
    requires NothingShut(ms) && a != b && Creates(s, ms, a, fp) && Creates(s, ms, b, fp)
    ensures !AtMostOneOpen(Fly(s, ms).issues)
    decreases |ms|
  {
    hide Advance;
    assert ms[0] in ms && forall m | m in ms[1..] :: m in ms;
    MissStaysOrCreates(s, ms[0], a, fp);
    MissStaysOrCreates(s, ms[0], b, fp);
    if ms[0] == Land(a) {
      CreateBesideOpenDuplicates(Advance(s, ms[0]), ms[1..], |s.issues|, b, fp);
    } else if ms[0] == Land(b) {
      CreateBesideOpenDuplicates(Advance(s, ms[0]), ms[1..], |s.issues|, a, fp);
    } else {
      TwoCreatesDuplicate(Advance(s, ms[0]), ms[1..], a, b, fp);
    }
  }

  lemma SecondCreateIsTwo(s: Tracker, m: Move, rest: seq<Move>) returns (a: nat, b: nat, fp: string)
    requires SecondCreate(s, m, rest)
    ensures a != b && Creates(Advance(s, m), rest, a, fp) && Creates(Advance(s, m), rest, b, fp)
  {
    a :| Missed(s, a, m.fp) && Writes(rest, a);
    b, fp := m.id, m.fp;
  }

  lemma {:induction false} SecondCreateDuplicates(s: Tracker, ms: seq<Move>)
    requires NothingShut(ms) && !NoSecondCreate(s, ms)
    ensures !AtMostOneOpen(Fly(s, ms).issues)
    decreases |ms|
  {
    hide Advance;
    hide SecondCreate;
    assert ms[0] in ms && forall m | m in ms[1..] :: m in ms;
    if SecondCreate(s, ms[0], ms[1..]) {
      var a, b, fp := SecondCreateIsTwo(s, ms[0], ms[1..]);
      TwoCreatesDuplicate(Advance(s, ms[0]), ms[1..], a, b, fp);
    } else {
      SecondCreateDuplicates(Advance(s, ms[0]), ms[1..]);
    }
  }

  /** Main result: in every interleaving that closes no issue, with filings refused at the cap or broken off
      anywhere, the
      tracker ends with at most one open issue per fingerprint if and only if no two filings of a fingerprint both
      missed before either created and then both created. */
  lemma OneIssueEachExactly(s: Tracker, ms: seq<Move>)
    requires Orderly(s, ms) && NothingShut(ms)
    ensures AtMostOneOpen(Fly(s, ms).issues) <==> NoSecondCreate(s, ms)
  {
    FilingsWithoutSecondCreateKeepOrder(s, ms);
    if !NoSecondCreate(s, ms) {
      SecondCreateDuplicates(s, ms);
    }
    hide Fly;
    hide NoSecondCreate;
  }

  /** The shortest such interleaving, from any tracker without an open issue of the fingerprint. */
  lemma OverlappingFilingsDuplicate(s: Tracker, fp: string, a: nat, b: nat)
    requires Hits(s.issues, fp) == [] && a != b && a !in s.flights && b !in s.flights
    ensures !AtMostOneOpen(Fly(s, [Look(a, fp), Look(b, fp), Land(a), Land(b)]).issues)
  {
    var s2 := Advance(Advance(s, Look(a, fp)), Look(b, fp));
    var s4 := Advance(Advance(s2, Land(a)), Land(b));
    assert Fly(s2, [Land(a), Land(b)]) == s4 by {
      assert [Land(a), Land(b)][1..] == [Land(b)];
      assert Fly(Advance(s2, Land(a)), [Land(b)]) == s4;
    }
    assert [Look(a, fp), Look(b, fp), Land(a), Land(b)][1..] == [Look(b, fp), Land(a), Land(b)];
    assert [Look(b, fp), Land(a), Land(b)][1..] == [Land(a), Land(b)];
    var n := |s.issues|;
    assert Matches(s4.issues[n], fp) && Matches(s4.issues[n + 1], fp);
  }
}
