/** The explorer loop: check_cancel, navigate, perceive, enumerate, decide, act, persist, converge.
    Pages, model replies, the clock and the cancel flag are oracles of the iteration and the state. */
module Crawl {
  import opened Common
  import opened Budget
  import opened Actions

  // ----- The world and the state -----

  /** What `str.isdigit` and `int` make of a character: a sign is a digit that `int` rejects. */
  datatype DigitKind = NotDigit | DigitSign | Decimal(value: nat)

  datatype Reply = Refused | Said(content: string)

  datatype Perception = Perception(fp: string, url: Url)

  datatype World = World(
    cancelled: (nat, State) -> bool,
    land: (nat, State, Url) -> Url,        // where a goto ends up, redirects included
    perceive: (nat, State) -> Perception,  // fingerprint, and the url a mid-run login may have moved to
    elements: (nat, State) -> seq<Element>,
    reply: (nat, State) -> Reply,
    requeried: (nat, State) -> seq<Element>, // the elements act finds when it queries the page again
    click: (nat, State, Element) -> Url,   // where the page is after a click
    clock: (nat, State) -> real,           // seconds since the run started
    digit: char -> DigitKind)

  datatype Target = Target(base: Url, sandbox: bool, allowlist: seq<Url>)

  datatype Move = GotoQueued(url: Url) | GotoPending(entry: Entry) | Clicked(entry: Entry, element: Element)

  /** `moves`, `enqueued` and `popped` record the run; no node reads them. */
  datatype State = State(
    ledger: Ledger, frontier: seq<Candidate>, visited: seq<Url>, menu: seq<Entry>,
    chosen: Option<nat>, pending: Option<Entry>, fp: string, pageUrl: Url, stop: Option<Reason>,
    moves: seq<Move>, enqueued: seq<Url>, popped: seq<Url>)

  function Init(pageUrl: Url): State {
    State(START, [], [PageKey(pageUrl)], [], None, None, "", pageUrl, None, [], [], [])
  }

  // ----- parse_index -----

  function LeadingDigits(s: string, digit: char -> DigitKind): string {
    if s == "" || digit(s[0]).NotDigit? then "" else [s[0]] + LeadingDigits(s[1..], digit)
  }

  function FirstDigitRun(s: string, digit: char -> DigitKind): string {
    if s == "" then "" else if digit(s[0]).NotDigit? then FirstDigitRun(s[1..], digit) else LeadingDigits(s, digit)
  }

  function DecimalValue(run: string, digit: char -> DigitKind): nat {
    if run == "" || !digit(run[|run| - 1]).Decimal? then 0
    else 10 * DecimalValue(run[..|run| - 1], digit) + digit(run[|run| - 1]).value
  }

  /** The longest digit string `int` converts by default. */
  const MAX_INT_DIGITS := 4300

  predicate IntRaises(run: string, digit: char -> DigitKind) {
    |run| > MAX_INT_DIGITS || exists c | c in run :: digit(c).DigitSign?
  }

  /** The chosen index clamped to the menu, or None where `int` raises. */
  function ParseIndex(content: string, menuLen: nat, digit: char -> DigitKind): Option<nat> {
    var run := FirstDigitRun(content, digit);
    if menuLen == 0 then Some(0)
    else if IntRaises(run, digit) then None
    else Some(Min(DecimalValue(run, digit), menuLen - 1))
  }

  /** The run of digits still to come after `digits` have been taken and `s` is left. */
  function RunAhead(digits: string, s: string, digit: char -> DigitKind): string {
    if digits == "" then FirstDigitRun(s, digit) else digits + LeadingDigits(s, digit)
  }

  lemma RunAheadStep(digits: string, content: string, i: nat, digit: char -> DigitKind)
    requires i < |content|
    ensures RunAhead(digits, content[i..], digit) ==
            if !digit(content[i]).NotDigit? then RunAhead(digits + [content[i]], content[i + 1..], digit)
            else if digits != "" then digits
            else RunAhead(digits, content[i + 1..], digit)
  {
    assert content[i..][1..] == content[i + 1..];
    assert digits + ([content[i]] + LeadingDigits(content[i + 1..], digit)) ==
           digits + [content[i]] + LeadingDigits(content[i + 1..], digit);
  }

  lemma RunAheadEnds(digits: string, s: string, digit: char -> DigitKind)
    ensures RunAhead("", s, digit) == FirstDigitRun(s, digit)
    ensures s == "" ==> RunAhead(digits, s, digit) == digits
    ensures s[0..] == s
  {}

  method ParseIndexLoop(content: string, menuLen: nat, digit: char -> DigitKind) returns (idx: Option<nat>)
    ensures idx == ParseIndex(content, menuLen, digit)
  {
    hide RunAhead;
    hide FirstDigitRun;
    if menuLen == 0 {
      return Some(0);
    }
    var digits, i := "", 0;
    RunAheadEnds(digits, content, digit);
    while i < |content|
      invariant i <= |content|
      invariant RunAhead(digits, content[i..], digit) == FirstDigitRun(content, digit)
    {
      RunAheadStep(digits, content, i, digit);
      RunAheadEnds(digits, content[i..], digit);
      if !digit(content[i]).NotDigit? {
        digits := digits + [content[i]];
      } else if digits != "" {
        break;
      }
      i := i + 1;
    }
    RunAheadEnds(digits, content[i..], digit);
    if IntRaises(digits, digit) {
      return None;
    }
    idx := Some(Min(DecimalValue(digits, digit), menuLen - 1));
  }

  /** A reply never crashes the decision exactly when its first digit run is all decimals and not too long for
      `int`, and then the index is in the menu. The source promises this for every reply. */
  lemma {:induction false} ParseIndexSafeExactly(content: string, menuLen: nat, digit: char -> DigitKind)
    requires menuLen > 0
    ensures ParseIndex(content, menuLen, digit).Some? <==>
            var run := FirstDigitRun(content, digit);
            |run| <= MAX_INT_DIGITS && forall c | c in run :: digit(c).Decimal?
    ensures ParseIndex(content, menuLen, digit).Some? ==> ParseIndex(content, menuLen, digit).value < menuLen
  {
    FirstDigitRunHasDigits(content, digit);
  }

  lemma {:induction false} FirstDigitRunHasDigits(s: string, digit: char -> DigitKind)
    ensures forall c | c in FirstDigitRun(s, digit) :: !digit(c).NotDigit?
    ensures forall c | c in LeadingDigits(s, digit) :: !digit(c).NotDigit?
  {
    if s != "" {
      FirstDigitRunHasDigits(s[1..], digit);
    }
  }

  /** The class of digits holds the ten ASCII ones with their values. */
  predicate ReadsAscii(digit: char -> DigitKind) {
    forall d | 0 <= d < 10 :: digit(DIGITS[d]) == Decimal(d)
  }

  lemma {:induction false} WrittenValue(n: nat, digit: char -> DigitKind)
    requires ReadsAscii(digit)
    ensures DecimalValue(Common.Decimal(n), digit) == n
    ensures forall c | c in Common.Decimal(n) :: digit(c).Decimal?
  {
    var d, rest := DIGITS[n % 10], Common.Decimal(n / 10);
    assert digit(d) == Decimal(n % 10);
    if n >= 10 {
      WrittenValue(n / 10, digit);
      var run := Common.Decimal(n);
      assert run == rest + [d] && run[..|run| - 1] == rest && run[|run| - 1] == d;
    } else {
      assert Common.Decimal(n) == [d] && [d][..0] == "";
    }
  }

  lemma {:induction false} LeadingDigitsAre(run: string, post: string, digit: char -> DigitKind)
    requires forall c | c in run :: !digit(c).NotDigit?
    requires post == "" || digit(post[0]).NotDigit?
    ensures LeadingDigits(run + post, digit) == run
  {
    if run == "" {
      assert run + post == post;
    } else {
      assert (run + post)[1..] == run[1..] + post && run[0] in run;
      LeadingDigitsAre(run[1..], post, digit);
    }
  }

  lemma {:induction false} FirstDigitRunIs(pre: string, run: string, post: string, digit: char -> DigitKind)
    requires (forall c | c in pre :: digit(c).NotDigit?) && run != "" && forall c | c in run :: !digit(c).NotDigit?
    requires post == "" || digit(post[0]).NotDigit?
    ensures FirstDigitRun(pre + run + post, digit) == run
  {
    var s := pre + run + post;
    if pre == "" {
      assert s == run + post && run[0] in run;
      LeadingDigitsAre(run, post, digit);
    } else {
      assert s[1..] == pre[1..] + run + post && pre[0] in pre;
      FirstDigitRunIs(pre[1..], run, post, digit);
    }
  }

  /** Main result: a reply that writes a number after text without digits is read as that number, clamped to the
      menu. */
  lemma WrittenReplyIsRead(pre: string, n: nat, post: string, menuLen: nat, digit: char -> DigitKind)
    requires ReadsAscii(digit) && menuLen > 0 && |Common.Decimal(n)| <= 4300
    requires (forall c | c in pre :: digit(c).NotDigit?) && (post == "" || digit(post[0]).NotDigit?)
    ensures ParseIndex(pre + Common.Decimal(n) + post, menuLen, digit) == Some(if n < menuLen then n else menuLen - 1)
  {
    WrittenValue(n, digit);
    FirstDigitRunIs(pre, Common.Decimal(n), post, digit);
    hide FirstDigitRun;
    hide DecimalValue;
    hide Common.Decimal;
  }

  /** A superscript two is a digit to `isdigit` and not to `int`: the reply crashes the run. */
  lemma SuperscriptReplyCrashes(digit: char -> DigitKind)
    requires digit('\U{00B2}') == DigitSign
    ensures ParseIndex("\U{00B2}", 3, digit) == None
  {
    var s := "\U{00B2}";
    assert s[0] == '\U{00B2}' && LeadingDigits(s[1..], digit) == "";
    assert FirstDigitRun(s, digit) == [s[0]];
    assert '\U{00B2}' in FirstDigitRun(s, digit);
  }

  // ----- The nodes -----

  function CheckCancel(w: World, i: nat, s: State): State {
    if w.cancelled(i, s) then s.(stop := Some(Stopped)) else s
  }

  /** The goto the pending action asks for, else the head of the frontier. */
  function NextTarget(s: State): Option<Url> {
    if s.pending.Some? && s.pending.value.url.Some? then s.pending.value.url
    else if s.frontier != [] then Some(s.frontier[0].url)
    else None
  }

  predicate Pops(s: State) {
    (s.pending.None? || s.pending.value.url.None?) && s.frontier != []
  }

  function Navigate(w: World, i: nat, s: State): State {
    var target := NextTarget(s);
    var goes := target.Some? && target.value != s.pageUrl;
    var pageUrl := if goes then w.land(i, s, target.value) else s.pageUrl;
    var landed := PageKey(pageUrl);
    s.(frontier := if Pops(s) then s.frontier[1..] else s.frontier,
       visited := if landed in s.visited then s.visited else s.visited + [landed],
       pending := None,
       pageUrl := pageUrl,
       moves := if !goes then s.moves
                else s.moves + [if Pops(s) then GotoQueued(target.value) else GotoPending(s.pending.value)],
       popped := if Pops(s) then s.popped + [s.frontier[0].key] else s.popped)
  }

  function Perceive(w: World, i: nat, s: State): State {
    var p := w.perceive(i, s);
    s.(fp := p.fp, pageUrl := p.url)
  }

  predicate Queued(key: Url, frontier: seq<Candidate>) {
    exists c | c in frontier :: c.key == key
  }

  /** The candidates enumerate appends: neither visited nor already queued. */
  function Fresh(cs: seq<Candidate>, frontier: seq<Candidate>, visited: seq<Url>): seq<Candidate> {
    if cs == [] then []
    else if cs[0].key !in visited && !Queued(cs[0].key, frontier) then
      [cs[0]] + Fresh(cs[1..], frontier + [cs[0]], visited)
    else Fresh(cs[1..], frontier, visited)
  }

  function Keys(cs: seq<Candidate>): (ks: seq<Url>)
    ensures |ks| == |cs| && forall i :: 0 <= i < |cs| ==> ks[i] == cs[i].key
  {
    seq(|cs|, i requires 0 <= i < |cs| => cs[i].key)
  }

  function Enumerate(w: World, t: Target, i: nat, s: State): State {
    var menu := Menu(w.elements(i, s), 0);
    var added := Fresh(Candidates(menu, t.base), s.frontier, s.visited);
    s.(menu := menu, frontier := s.frontier + added, enqueued := s.enqueued + Keys(added))
  }

  lemma FreshStep(cs: seq<Candidate>, i: nat, frontier: seq<Candidate>, visited: seq<Url>)
    requires i < |cs|
    ensures frontier + Fresh(cs[i..], frontier, visited) ==
            var next := if cs[i].key !in visited && !Queued(cs[i].key, frontier) then frontier + [cs[i]] else frontier;
            next + Fresh(cs[i + 1..], next, visited)
  {
    assert cs[i..][1..] == cs[i + 1..];
  }

  /** The enumerate loop: append each candidate that is neither visited nor queued. */
  method EnumerateNode(elements: seq<Element>, base: Url, frontier0: seq<Candidate>, visited: seq<Url>)
    returns (menu: seq<Entry>, frontier: seq<Candidate>)
    ensures menu == Menu(elements, 0)
    ensures frontier == frontier0 + Fresh(Candidates(menu, base), frontier0, visited)
  {
    var candidates;
    menu, candidates := EnumerateActions(elements, base);
    frontier := frontier0;
    var queued := set c | c in frontier :: c.key;
    for i := 0 to |candidates|
      invariant frontier + Fresh(candidates[i..], frontier, visited) ==
                frontier0 + Fresh(candidates, frontier0, visited)
      invariant forall k :: k in queued <==> Queued(k, frontier)
    {
      FreshStep(candidates, i, frontier, visited);
      var c := candidates[i];
      if c.key !in visited && c.key !in queued {
        assert Queued(c.key, frontier + [c]) by { assert c in frontier + [c]; }
        frontier := frontier + [c];
        queued := queued + {c.key};
      }
    }
  }

  function Decide(w: World, i: nat, s: State): State {
    if s.menu == [] then s.(chosen := None, pending := None)
    else
      match w.reply(i, s)
      case Refused => s.(chosen := None, pending := None, stop := Some(BudgetStop))
      case Said(content) =>
        var idx := ParseIndex(content, |s.menu|, w.digit);
        if idx.None? then s.(stop := Some(Failed))
        else s.(chosen := idx, pending := Some(s.menu[idx.value]))
  }

  /** Main result: the menu prints element indices and decide takes a position. The entry taken is the one printed
      under the number replied exactly when the number is a position and no element up to it was skipped, or it is past
      the menu's end and is the last readable element. */
  lemma ReplyTakesTheEntryPrinted(w: World, i: nat, s: State, content: string)
    requires s.menu == Menu(w.elements(i, s), 0) && s.menu != []
    requires w.reply(i, s) == Said(content) && ParseIndex(content, |s.menu|, w.digit).Some?
    ensures var number, taken := DecimalValue(FirstDigitRun(content, w.digit), w.digit), Decide(w, i, s).pending;
            && taken.Some? && taken.value in s.menu
            && Decide(w, i, s).chosen == Some(Min(number, |s.menu| - 1))
            && taken.value == s.menu[Min(number, |s.menu| - 1)]
            && (taken.value.index == number <==>
                  if number < |s.menu| then AllReadable(w.elements(i, s)[..number + 1])
                  else IsLastReadable(w.elements(i, s), number))
  {
    hide FirstDigitRun;
    hide DecimalValue;
    hide AllReadable;
    hide IsLastReadable;
    hide IntRaises;
    hide Menu;
    var number := DecimalValue(FirstDigitRun(content, w.digit), w.digit);
    if number < |s.menu| {
      IndexIsPosition(w.elements(i, s), 0, number);
    } else {
      LastEntryIsLastReadable(w.elements(i, s), 0, number);
    }
  }

  /** One skipped element and the reply "1" takes the entry printed as [2], though [1] is on the menu. */
  lemma SkippedElementMisleads(digit: char -> DigitKind, a: Element, b: Element)
    requires digit('1') == Decimal(1) && a.Element? && b.Element?
    ensures var menu := Menu([Unreadable, a, b], 0);
            && menu == [EntryOf(a, 1), EntryOf(b, 2)]
            && ParseIndex("1", |menu|, digit) == Some(1) && menu[1] == EntryOf(b, 2)
  {
    var elements := [Unreadable, a, b];
    assert elements[1..] == [a, b] && [a, b][1..] == [b] && [b][1..] == [];
    assert Menu([b], 2) == [EntryOf(b, 2)] + Menu([], 3);
    assert Menu([a, b], 1) == [EntryOf(a, 1)] + Menu([b], 2);
    assert "1"[1..] == "" && LeadingDigits("1", digit) == ['1'] + LeadingDigits("", digit);
    assert FirstDigitRun("1", digit) == "1" && "1"[..0] == "";
    assert DecimalValue("1", digit) == 10 * DecimalValue("", digit) + 1;
  }

  /** Both gates run before anything else; a refused action is forgotten. */
  function Act(w: World, t: Target, i: nat, s: State): State {
    if s.stop.Some? || s.pending.None? then s
    else
      var e := s.pending.value;
      if IsDestructive(e, t.sandbox) then s.(pending := None)
      else if e.url.None? then
        var handles := w.requeried(i, s);
        if e.index >= |handles| then s.(pending := None)
        else
          var x := handles[e.index];
          s.(pending := None, pageUrl := w.click(i, s, x), moves := s.moves + [Clicked(e, x)])
      else if IsOffOrigin(e.url.value, t.allowlist) then s.(pending := None)
      else s
  }

  /** The counters after one more visit of `key` with the decision `chosen`. */
  function Advance(l: Ledger, key: string, chosen: Option<int>): Ledger {
    var isNew := key !in l.seen;
    Ledger(l.step + 1,
           if isNew then l.depth + 1 else l.depth,
           l.seen[key := Visits(l.seen, key) + 1],
           if chosen.Some? && (key, chosen.value) !in l.pairs then l.pairs + [(key, chosen.value)] else l.pairs,
           if isNew then 0 else l.sinceNew + 1)
  }

  /** The first reason to stop: a hard cap, then a loop against the earlier decisions, then saturation. */
  function StopReason(l: Ledger, key: string, chosen: Option<int>, frontierEmpty: bool, elapsed: real, b: Caps)
    : Option<Reason>
  {
    var l' := Advance(l, key, chosen);
    if CapReason(l', elapsed, b).Some? then CapReason(l', elapsed, b)
    else if IsLoop(l'.seen, l.pairs, key, chosen, b) then Some(Converged)
    else if frontierEmpty && IsSaturated(l', b) then Some(Saturation)
    else if frontierEmpty then Some(Saturation)
    else None
  }

  function Converge(w: World, i: nat, s: State, b: Caps): State {
    s.(ledger := Advance(s.ledger, s.fp, s.chosen),
       stop := if s.stop.Some? then s.stop
               else StopReason(s.ledger, s.fp, s.chosen, s.frontier == [], w.clock(i, s), b))
  }

  /** One turn of the graph. Persist only writes the knowledge graph, so it has no state here. */
  function BeforeConverge(w: World, t: Target, i: nat, s: State): State {
    var s5 := Decide(w, i, Enumerate(w, t, i, Perceive(w, i, Navigate(w, i, s))));
    if s5.stop == Some(Failed) then s5 else Act(w, t, i, s5)
  }

  function Iterate(w: World, t: Target, b: Caps, i: nat, s: State): State {
    var s1 := CheckCancel(w, i, s);
    if s1.stop.Some? then s1
    else
      var s2 := BeforeConverge(w, t, i, s1);
      if s2.stop == Some(Failed) then s2 else Converge(w, i, s2, b)
  }

  /** The state after `n` turns; a stopped run stays where it stopped. */
  function Run(w: World, t: Target, b: Caps, start: Url, n: nat): State {
    if n == 0 then Init(start)
    else
      var s := Run(w, t, b, start, n - 1);
      if s.stop.Some? then s else Iterate(w, t, b, n - 1, s)
  }

  // ----- The saturation window decides nothing -----

  lemma SaturationWindowDecidesNothing(l: Ledger, key: string, chosen: Option<int>, frontierEmpty: bool, elapsed: real,
                                       b: Caps, window: int)
    ensures StopReason(l, key, chosen, frontierEmpty, elapsed, b) ==
            StopReason(l, key, chosen, frontierEmpty, elapsed, b.(saturationWindow := window))
  {}

  // ----- A stop names its cause -----

  /** The state the model is asked in. */
  function Asked(w: World, t: Target, i: nat, s: State): State {
    Enumerate(w, t, i, Perceive(w, i, Navigate(w, i, s)))
  }

  /** What must be so for turn `i` to take the running `s` to `r` stopped for the reason: a cancelled turn does nothing,
      a refused or unreadable reply is acted on by nobody, and converge's reasons have their own order. */
  predicate Caused(w: World, t: Target, b: Caps, i: nat, s: State, r: State, reason: Reason) {
    var q, l := Asked(w, t, i, s), r.ledger;
    var elapsed := w.clock(i, BeforeConverge(w, t, i, s));
    var uncapped := l.step < b.maxSteps && l.depth < b.maxDepth && elapsed < b.wallClock as real;
    var repeats := r.chosen.Some? && (r.fp, r.chosen.value as int) in s.ledger.pairs;
    var loops := Visits(l.seen, r.fp) > b.maxRevisits || repeats;
    match reason
    case Stopped => w.cancelled(i, s) && r == s.(stop := Some(Stopped))
    case BudgetStop => q.menu != [] && w.reply(i, q) == Refused && r.moves == q.moves && r.pending.None?
    case Failed =>
      q.menu != [] && w.reply(i, q).Said? && r == q.(stop := Some(Failed))
      && ParseIndex(w.reply(i, q).content, |q.menu|, w.digit).None?
    case MaxSteps => l.step >= b.maxSteps
    case MaxDepth => l.step < b.maxSteps && l.depth >= b.maxDepth
    case WallClock => l.step < b.maxSteps && l.depth < b.maxDepth && elapsed >= b.wallClock as real
    case Converged => uncapped && loops
    case Saturation => uncapped && !loops && r.frontier == []
  }

  lemma TurnNamesItsCause(w: World, t: Target, b: Caps, i: nat, s: State)
    requires s.stop.None?
    ensures var r := Iterate(w, t, b, i, s); r.stop.Some? ==> Caused(w, t, b, i, s, r, r.stop.value)
  {
    hide Navigate;
    hide Perceive;
    hide Enumerate;
    hide IsDestructive;
    hide IsOffOrigin;
    hide ParseIndex;
    AskedIsRunning(w, t, i, s);
  }

  lemma AskedIsRunning(w: World, t: Target, i: nat, s: State)
    ensures Asked(w, t, i, s).stop == s.stop && Asked(w, t, i, s).ledger == s.ledger && Asked(w, t, i, s).pending.None?
  {}

  /** Main result: in every run, the reason a run stops for is one that held in its last turn, in the order cancel,
      refusal or crash, caps, loop, empty frontier. */
  lemma StopNamesItsCause(w: World, t: Target, b: Caps, start: Url, n: nat)
    ensures var s, r := Run(w, t, b, start, n), Run(w, t, b, start, n + 1);
            s.stop.None? && r.stop.Some? ==> Caused(w, t, b, n, s, r, r.stop.value)
  {
    if Run(w, t, b, start, n).stop.None? {
      TurnNamesItsCause(w, t, b, n, Run(w, t, b, start, n));
    }
    hide Caused;
    hide Iterate;
  }

  // ----- Run length -----

  ghost function Total(m: map<string, nat>): nat
    decreases |m|
  {
    if m == map[] then 0 else var k :| k in m; m[k] + Total(m - {k})
  }

  lemma {:induction false} TotalRemove(m: map<string, nat>, k: string)
    requires k in m
    ensures Total(m) == m[k] + Total(m - {k})
    decreases |m|
  {
    var j :| j in m && Total(m) == m[j] + Total(m - {j});
    if j != k {
      TotalRemove(m - {j}, k);
      TotalRemove(m - {k}, j);
      assert m - {j} - {k} == m - {k} - {j};
    }
  }

  lemma TotalVisit(m: map<string, nat>, k: string)
    ensures Total(m[k := Visits(m, k) + 1]) == Total(m) + 1
  {
    var m' := m[k := Visits(m, k) + 1];
    TotalRemove(m', k);
    assert m' - {k} == m - {k};
    if k in m {
      TotalRemove(m, k);
    } else {
      assert m - {k} == m;
    }
  }

  lemma SmallerByOne(m: map<string, nat>, k: string)
    requires k in m
    ensures |m| == |m - {k}| + 1
  {
    assert (m - {k}).Keys == m.Keys - {k};
  }

  lemma {:induction false} TotalAtMost(m: map<string, nat>, r: nat)
    requires forall k | k in m :: m[k] <= r
    ensures Total(m) <= |m| * r
    decreases |m|
  {
    if m != map[] {
      var k :| k in m;
      SmallerByOne(m, k);
      TotalAtMost(m - {k}, r);
      TotalRemove(m, k);
      Distribute(|m - {k}|, 1, r);
    }
  }

  /** `step` counts visits, `depth` counts distinct fingerprints. */
  ghost predicate Counted(l: Ledger) {
    l.step == Total(l.seen) && l.depth == |l.seen|
  }

  lemma AdvanceCounts(l: Ledger, key: string, chosen: Option<int>)
    requires Counted(l)
    ensures Counted(Advance(l, key, chosen)) && Advance(l, key, chosen).step == l.step + 1
  {
    TotalVisit(l.seen, key);
    assert l.seen[key := Visits(l.seen, key) + 1].Keys == l.seen.Keys + {key};
  }

  /** The counters of a run that goes on are inside every cap. */
  predicate InsideCaps(l: Ledger, b: Caps) {
    && l.step < b.maxSteps
    && l.depth < b.maxDepth
    && forall k | k in l.seen :: l.seen[k] <= b.maxRevisits
  }

  lemma GoingOnIsInsideCaps(l: Ledger, key: string, chosen: Option<int>, frontierEmpty: bool, elapsed: real, b: Caps)
    requires StopReason(l, key, chosen, frontierEmpty, elapsed, b).None?
    requires forall k | k in l.seen :: l.seen[k] <= b.maxRevisits
    ensures InsideCaps(Advance(l, key, chosen), b) && !frontierEmpty
    ensures elapsed < b.wallClock as real
  {}

  lemma {:induction false} RunCounts(w: World, t: Target, b: Caps, start: Url, n: nat)
    ensures var s := Run(w, t, b, start, n);
            && Counted(s.ledger)
            && (s.stop.None? ==> s.ledger.step == n)
            && (s.stop.None? && n > 0 ==> InsideCaps(s.ledger, b) && s.frontier != [])
  {
    hide BeforeConverge;
    hide StopReason;
    hide Advance;
    if n > 0 {
      RunCounts(w, t, b, start, n - 1);
      var s := Run(w, t, b, start, n - 1);
      if s.stop.None? {
        var s2 := BeforeConverge(w, t, n - 1, CheckCancel(w, n - 1, s));
        LedgerUntouched(w, t, n - 1, s);
        AdvanceCounts(s.ledger, s2.fp, s2.chosen);
        if Run(w, t, b, start, n).stop.None? {
          GoingOnIsInsideCaps(s.ledger, s2.fp, s2.chosen, s2.frontier == [], w.clock(n - 1, s2), b);
        }
      }
    }
  }

  lemma LedgerUntouched(w: World, t: Target, i: nat, s: State)
    ensures BeforeConverge(w, t, i, CheckCancel(w, i, s)).ledger == s.ledger
  {}

  function RunBound(b: Caps): nat {
    Max(1, Min(b.maxSteps, (b.maxDepth - 1) * Max(b.maxRevisits, 0) + 1))
  }

  /** A run that goes on is inside the step cap, and inside the visits the other two caps allow. */
  lemma GoingOnIsWithinBound(w: World, t: Target, b: Caps, start: Url, n: nat)
    ensures Run(w, t, b, start, n).stop.None? ==> n < RunBound(b)
  {
    hide Run;
    if n > 0 && Run(w, t, b, start, n).stop.None? {
      var seen, r := Run(w, t, b, start, n).ledger.seen, Max(b.maxRevisits, 0);
      RunCounts(w, t, b, start, n);
      TotalAtMost(seen, r);
      MulMono(|seen|, b.maxDepth - 1, r);
    }
  }

  /** Main result: every run stops within the smaller of the step cap and what the depth and revisit
      caps allow together. */
  lemma RunEndsWithinBound(w: World, t: Target, b: Caps, start: Url, n: nat)
    requires n >= RunBound(b)
    ensures Run(w, t, b, start, n).stop.Some?
  {
    hide Run;
    GoingOnIsWithinBound(w, t, b, start, n);
  }

  // ----- Tightening a budget only truncates a run -----

  lemma TighterStopsNoLater(l: Ledger, key: string, chosen: Option<int>, frontierEmpty: bool, elapsed: real, b: Caps,
                            c: Caps)
    requires Tighter(b, c)
    requires StopReason(l, key, chosen, frontierEmpty, elapsed, b).None?
    ensures StopReason(l, key, chosen, frontierEmpty, elapsed, c).None?
  {}

  /** While the tighter run goes on, both runs are in the same state. */
  lemma {:induction false} TighteningKeepsThePrefix(w: World, t: Target, b: Caps, c: Caps, start: Url, n: nat)
    requires Tighter(b, c)
    ensures Run(w, t, b, start, n).stop.None? ==> Run(w, t, c, start, n) == Run(w, t, b, start, n)
  {
    hide BeforeConverge;
    hide StopReason;
    hide Advance;
    if n > 0 {
      TighteningKeepsThePrefix(w, t, b, c, start, n - 1);
      var s := Run(w, t, b, start, n - 1);
      var s2 := BeforeConverge(w, t, n - 1, CheckCancel(w, n - 1, s));
      if Run(w, t, b, start, n).stop.None? {
        TighterStopsNoLater(s2.ledger, s2.fp, s2.chosen, s2.frontier == [], w.clock(n - 1, s2), b, c);
      }
    }
  }

  predicate SameBarReason(s: State, s': State) {
    s.(stop := None) == s'.(stop := None)
  }

  /** After `n` turns the run under `b` is where the run under `c` is after `m` of them, reason for
      stopping aside, and the two agreed on every turn before; only a stopped run is behind. */
  predicate CutShortAt(w: World, t: Target, b: Caps, c: Caps, start: Url, n: nat, m: nat) {
    && m <= n
    && (Run(w, t, b, start, n).stop.None? ==> m == n)
    && SameBarReason(Run(w, t, b, start, n), Run(w, t, c, start, m))
    && forall k :: 0 <= k < m ==> Run(w, t, b, start, k) == Run(w, t, c, start, k)
  }

  /** Main result: for the same oracles, the run under tighter caps is the looser run cut short. */
  lemma {:induction false} TighteningTruncates(w: World, t: Target, b: Caps, c: Caps, start: Url, n: nat)
    requires Tighter(b, c)
    ensures exists m :: CutShortAt(w, t, b, c, start, n, m)
  {
    hide Iterate;
    if n == 0 {
      assert CutShortAt(w, t, b, c, start, 0, 0);
    } else {
      var s := Run(w, t, b, start, n - 1);
      TighteningTruncates(w, t, b, c, start, n - 1);
      var m :| CutShortAt(w, t, b, c, start, n - 1, m);
      if s.stop.None? {
        TighteningKeepsThePrefix(w, t, b, c, start, n - 1);
        forall k | 0 <= k < n ensures Run(w, t, b, start, k) == Run(w, t, c, start, k) {
          GoingOnBefore(w, t, b, start, k, n - 1);
          TighteningKeepsThePrefix(w, t, b, c, start, k);
        }
        LastTurnSameBarReason(w, t, b, c, n - 1, s);
        assert CutShortAt(w, t, b, c, start, n, n);
      } else {
        assert CutShortAt(w, t, b, c, start, n, m);
      }
    }
  }

  lemma LastTurnSameBarReason(w: World, t: Target, b: Caps, c: Caps, i: nat, s: State)
    ensures SameBarReason(Iterate(w, t, b, i, s), Iterate(w, t, c, i, s))
  {
    hide BeforeConverge;
    hide StopReason;
    hide Advance;
  }

  lemma {:induction false} GoingOnBefore(w: World, t: Target, b: Caps, start: Url, k: nat, n: nat)
    requires k <= n
    ensures Run(w, t, b, start, n).stop.None? ==> Run(w, t, b, start, k).stop.None?
    decreases n
  {
    hide Iterate;
    if k < n {
      GoingOnBefore(w, t, b, start, k, n - 1);
    }
  }

  /** No override can make a run do anything the global caps would not have let it do. */
  lemma OverridesOnlyTruncate(w: World, t: Target, o: Overrides, globals: Caps, start: Url, n: nat)
    ensures exists m :: CutShortAt(w, t, BuildBudget(o, globals), globals, start, n, m)
  {
    hide Run;
    TighteningTruncates(w, t, BuildBudget(o, globals), globals, start, n);
  }

  // ----- Navigation safety -----

  predicate SafeMove(m: Move, t: Target) {
    match m
    case GotoQueued(u) => u.scheme == t.base.scheme && u.netloc == t.base.netloc
    case GotoPending(e) =>
      && e.url.Some? && OnAllowedOrigin(e.url.value, t.allowlist)
      && (t.sandbox || !NamesDenied(e.text + " " + e.confirmText))
    case Clicked(e, _) => e.url.None? && (t.sandbox || !NamesDenied(e.text + " " + e.confirmText))
  }

  lemma GatedMoveIsSafe(e: Entry, t: Target)
    ensures e.url.Some? && !IsDestructive(e, t.sandbox) && !IsOffOrigin(e.url.value, t.allowlist) ==>
              SafeMove(GotoPending(e), t)
    ensures e.url.None? && !IsDestructive(e, t.sandbox) ==> forall x :: SafeMove(Clicked(e, x), t)
    ensures forall x :: SafeMove(Clicked(e, x), t) ==> !IsDestructive(e, t.sandbox)
  {
    if e.url.Some? {
      InOriginExactly(e.url.value, t.allowlist);
    }
  }

  /** What holds at the top of every turn: a pending action is a link that passed both gates. */
  predicate Gated(s: State, t: Target) {
    && (forall c | c in s.frontier :: SameOrigin(c.url, t.base) && c.key == PageKey(c.url))
    && (s.stop.None? && s.pending.Some? ==> SafeMove(GotoPending(s.pending.value), t))
    && (forall m | m in s.moves :: SafeMove(m, t))
  }

  lemma {:induction false} FreshAreCandidates(cs: seq<Candidate>, frontier: seq<Candidate>, visited: seq<Url>)
    ensures forall c | c in Fresh(cs, frontier, visited) :: c in cs
  {
    if cs != [] {
      FreshAreCandidates(cs[1..], frontier, visited);
      FreshAreCandidates(cs[1..], frontier + [cs[0]], visited);
    }
  }

  lemma NavigateStaysGated(w: World, t: Target, i: nat, s: State)
    requires Gated(s, t) && s.stop.None?
    ensures Gated(Navigate(w, i, s), t) && Navigate(w, i, s).pending.None?
  {}

  lemma PerceiveStaysGated(w: World, t: Target, i: nat, s: State)
    requires Gated(s, t)
    ensures Gated(Perceive(w, i, s), t) && Perceive(w, i, s).pending == s.pending
  {}

  lemma EnumerateStaysGated(w: World, t: Target, i: nat, s: State)
    requires Gated(s, t) && s.pending.None?
    ensures Gated(Enumerate(w, t, i, s), t) && Enumerate(w, t, i, s).pending.None?
  {
    FreshAreCandidates(Candidates(Menu(w.elements(i, s), 0), t.base), s.frontier, s.visited);
  }

  lemma BeforeConvergeStaysGated(w: World, t: Target, i: nat, s: State)
    requires Gated(s, t) && s.stop.None?
    ensures Gated(BeforeConverge(w, t, i, s), t)
  {
    hide Navigate;
    hide Perceive;
    hide Enumerate;
    hide Decide;
    hide Act;
    hide SafeMove;
    AskedIsRunning(w, t, i, s);
    NavigateStaysGated(w, t, i, s);
    PerceiveStaysGated(w, t, i, Navigate(w, i, s));
    EnumerateStaysGated(w, t, i, Perceive(w, i, Navigate(w, i, s)));
    ActStaysGated(w, t, i, Asked(w, t, i, s));
  }

  lemma ActStaysGated(w: World, t: Target, i: nat, q: State)
    requires Gated(q, t) && q.stop.None? && q.pending.None?
    ensures var d := Decide(w, i, q);
            && (d.stop == Some(Failed) ==> Gated(d, t))
            && (d.stop != Some(Failed) ==> Gated(Act(w, t, i, d), t))
  {
    var d := Decide(w, i, q);
    if d.pending.Some? {
      GatedMoveIsSafe(d.pending.value, t);
    }
    hide ParseIndex;
    hide IsDestructive;
    hide IsOffOrigin;
    hide SafeMove;
  }

  /** Main result: over every run, each goto is a queued link of the base origin or an action both gates
      passed, and every click is made for an entry whose label names no denied verb outside a sandbox. */
  lemma {:induction false} EveryMoveIsSafe(w: World, t: Target, b: Caps, start: Url, n: nat)
    ensures Gated(Run(w, t, b, start, n), t)
  {
    hide BeforeConverge;
    hide StopReason;
    hide Advance;
    if n > 0 {
      EveryMoveIsSafe(w, t, b, start, n - 1);
      var s := Run(w, t, b, start, n - 1);
      if s.stop.None? {
        BeforeConvergeStaysGated(w, t, n - 1, CheckCancel(w, n - 1, s).(stop := None));
      }
    }
  }

  // ----- What is clicked -----

  /** The click went to an element with the entry it was made for. */
  predicate Undisturbed(m: Move) {
    m.Clicked? && m.element.Element? && EntryOf(m.element, m.entry.index) == m.entry
  }

  /** The state act starts from in a turn that decides. */
  function Decided(w: World, t: Target, i: nat, s: State): State {
    Decide(w, i, Asked(w, t, i, s))
  }

  /** The click turn `i` makes from the running state `s`, if it makes one. */
  function ClickOf(w: World, t: Target, i: nat, s: State): Option<Move> {
    var d := Decided(w, t, i, s);
    if w.cancelled(i, s) || d.stop.Some? || d.pending.None? || IsDestructive(d.pending.value, t.sandbox)
       || d.pending.value.url.Some? || d.pending.value.index >= |w.requeried(i, d)|
    then None
    else Some(Clicked(d.pending.value, w.requeried(i, d)[d.pending.value.index]))
  }

  /** A turn records at most a goto and then at most the one click. */
  lemma TurnRecordsItsClick(w: World, t: Target, b: Caps, i: nat, s: State)
    requires s.stop.None?
    ensures var s', c := Iterate(w, t, b, i, s), ClickOf(w, t, i, s);
            && (forall m | m in s'.moves :: m in s.moves || !m.Clicked? || c == Some(m))
            && (forall m | m in s.moves :: m in s'.moves)
            && (c.Some? ==> c.value in s'.moves)
  {
    GotosOnly(w, t, i, s);
    DecideKeepsMoves(w, t, i, s);
    hide Decide;
    hide Navigate;
    hide Perceive;
    hide Enumerate;
    hide IsDestructive;
    hide IsOffOrigin;
    hide StopReason;
    hide Advance;
  }

  lemma GotosOnly(w: World, t: Target, i: nat, s: State)
    ensures var q := Asked(w, t, i, s);
            (forall m | m in q.moves :: m in s.moves || !m.Clicked?) && (forall m | m in s.moves :: m in q.moves)
  {}

  lemma DecideKeepsMoves(w: World, t: Target, i: nat, s: State)
    ensures Decided(w, t, i, s).moves == Asked(w, t, i, s).moves
  {
    hide Asked;
  }

  lemma AskedMenu(w: World, t: Target, i: nat, s: State)
    ensures Asked(w, t, i, s).menu == Menu(Enumerated(w, i, s), 0)
  {
    hide Navigate;
    hide Perceive;
  }

  lemma DecideTakesFromTheMenu(w: World, i: nat, q: State)
    requires q.pending.None?
    ensures Decide(w, i, q).pending.Some? ==> Decide(w, i, q).pending.value in q.menu
  {
    hide FirstDigitRun;
    hide DecimalValue;
    hide IntRaises;
  }

  /** The elements the turn's menu was made from. */
  function Enumerated(w: World, i: nat, s: State): seq<Element> {
    w.elements(i, Perceive(w, i, Navigate(w, i, s)))
  }

  /** The entry was made from the element its index names. */
  predicate MadeFrom(e: Entry, elements: seq<Element>) {
    e.index < |elements| && elements[e.index].Element? && e == EntryOf(elements[e.index], e.index)
  }

  lemma MenuIsMadeFrom(elements: seq<Element>, e: Entry)
    requires e in Menu(elements, 0)
    ensures MadeFrom(e, elements)
  {
    hide EntryOf;
    var k: nat :| k < |Menu(elements, 0)| && e == Menu(elements, 0)[k];
    EntryDescribesItsElement(elements, 0, k);
  }

  lemma DecidedEntryIsEnumerated(w: World, t: Target, i: nat, s: State)
    ensures var d := Decided(w, t, i, s);
            d.pending.Some? ==> MadeFrom(d.pending.value, Enumerated(w, i, s))
  {
    AskedIsRunning(w, t, i, s);
    AskedMenu(w, t, i, s);
    DecideTakesFromTheMenu(w, i, Asked(w, t, i, s));
    hide Asked;
    hide Decide;
    hide Enumerated;
    hide MadeFrom;
    hide Menu;
    var d := Decided(w, t, i, s);
    if d.pending.Some? {
      MenuIsMadeFrom(Enumerated(w, i, s), d.pending.value);
    }
  }

  /** Where the turn clicks, the element found there again has the entry of the one enumerated there. */
  predicate StaysPut(w: World, t: Target, i: nat, s: State) {
    var d := Decided(w, t, i, s);
    ClickOf(w, t, i, s).Some? ==>
      var k, now, shown := d.pending.value.index, w.requeried(i, d), Enumerated(w, i, s);
      k < |shown| && now[k].Element? && shown[k].Element? && EntryOf(now[k], k) == EntryOf(shown[k], k)
  }

  lemma ClickUndisturbedExactly(w: World, t: Target, i: nat, s: State)
    ensures ClickOf(w, t, i, s).Some? ==> (Undisturbed(ClickOf(w, t, i, s).value) <==> StaysPut(w, t, i, s))
  {
    DecidedEntryIsEnumerated(w, t, i, s);
    hide Decided;
    hide Enumerated;
    hide EntryOf;
    hide IsDestructive;
  }

  /** The pages of the run stay put between each menu and its click. */
  predicate PagesStayPut(w: World, t: Target, b: Caps, start: Url, n: nat) {
    forall k | 0 <= k < n && Run(w, t, b, start, k).stop.None? :: StaysPut(w, t, k, Run(w, t, b, start, k))
  }

  /** Main result: every click of a run went to an element with the entry it was made for if and only if no page of the
      run changed under the clicked index between its menu and its click. */
  lemma {:induction false} ClicksUndisturbedExactly(w: World, t: Target, b: Caps, start: Url, n: nat)
    ensures (forall m | m in Run(w, t, b, start, n).moves && m.Clicked? :: Undisturbed(m)) <==>
            PagesStayPut(w, t, b, start, n)
  {
    hide Iterate;
    hide StaysPut;
    hide Undisturbed;
    hide ClickOf;
    if n > 0 {
      var s := Run(w, t, b, start, n - 1);
      ClicksUndisturbedExactly(w, t, b, start, n - 1);
      if s.stop.None? {
        TurnRecordsItsClick(w, t, b, n - 1, s);
        ClickUndisturbedExactly(w, t, n - 1, s);
        NoClickStaysPut(w, t, n - 1, s);
      }
    }
  }

  lemma NoClickStaysPut(w: World, t: Target, i: nat, s: State)
    ensures ClickOf(w, t, i, s).None? ==> StaysPut(w, t, i, s)
    ensures ClickOf(w, t, i, s).Some? ==> ClickOf(w, t, i, s).value.Clicked?
  {
    hide Decided;
  }

  /** Entries carry no confirm text. */
  predicate Unconfirmed(s: State) {
    forall m | m in s.moves && m.Clicked? :: m.entry.confirmText == ""
  }

  lemma ClickIsUnconfirmed(w: World, t: Target, i: nat, s: State)
    ensures var c := ClickOf(w, t, i, s); c.Some? ==> c.value.Clicked? && c.value.entry.confirmText == ""
  {
    DecidedEntryIsEnumerated(w, t, i, s);
    hide Decided;
    hide Enumerated;
    hide IsDestructive;
    hide Label;
  }

  lemma {:induction false} ClickedEntriesAreUnconfirmed(w: World, t: Target, b: Caps, start: Url, n: nat)
    ensures Unconfirmed(Run(w, t, b, start, n))
  {
    hide Iterate;
    hide ClickOf;
    if n > 0 {
      var s := Run(w, t, b, start, n - 1);
      ClickedEntriesAreUnconfirmed(w, t, b, start, n - 1);
      if s.stop.None? {
        TurnRecordsItsClick(w, t, b, n - 1, s);
        ClickIsUnconfirmed(w, t, n - 1, s);
      }
    }
  }

  /** Main result: over every run outside a sandbox, an element whose own label names a denied verb is clicked only
      under
      an entry with another label, so only on a page that changed under the clicked index. */
  lemma DeniedLabelsAreClickedOnlyOnChangedPages(w: World, t: Target, b: Caps, start: Url, n: nat)
    requires !t.sandbox
    ensures forall m | m in Run(w, t, b, start, n).moves && m.Clicked? && m.element.Element?
                       && NamesDenied(Label(m.element)) ::
              Label(m.element) != m.entry.text
    ensures PagesStayPut(w, t, b, start, n) ==>
              forall m | m in Run(w, t, b, start, n).moves && m.Clicked? ::
                m.element.Element? && !NamesDenied(Label(m.element))
  {
    hide Run;
    hide NamesDenied;
    hide IsDestructive;
    hide Label;
    hide PagesStayPut;
    EveryMoveIsSafe(w, t, b, start, n);
    ClickedEntriesAreUnconfirmed(w, t, b, start, n);
    ClicksUndisturbedExactly(w, t, b, start, n);
    forall m | m in Run(w, t, b, start, n).moves && m.Clicked? && m.element.Element?
      ensures NamesDenied(Label(m.element)) ==> Label(m.element) != m.entry.text
    {
      assert SafeMove(m, t);
      GatedMoveIsSafe(m.entry, t);
      LabelDecidesTheGate(m.element, m.entry);
    }
  }

  lemma LabelDecidesTheGate(x: Element, e: Entry)
    requires x.Element? && e.confirmText == ""
    ensures Label(x) == e.text ==> (IsDestructive(e, false) <==> NamesDenied(Label(x)))
  {
    GateReadsTheLabel(x, e.index);
  }

  /** Main result: over every run outside a sandbox, a click that reached an element with its entry was on an element
      naming a denied verb exactly when that element hides the verb from its label; on pages that stay put, so is every
      click. */
  lemma ClicksMissExactly(w: World, t: Target, b: Caps, start: Url, n: nat)
    requires !t.sandbox
    ensures forall m | m in Run(w, t, b, start, n).moves && Undisturbed(m) ::
              NamesDeniedAnywhere(m.element) <==> HidesAVerb(m.element)
    ensures PagesStayPut(w, t, b, start, n) ==>
              forall m | m in Run(w, t, b, start, n).moves && m.Clicked? ::
                m.element.Element? && (NamesDeniedAnywhere(m.element) <==> HidesAVerb(m.element))
  {
    hide Run;
    hide NamesDeniedAnywhere;
    hide HidesAVerb;
    hide IsDestructive;
    hide PagesStayPut;
    EveryMoveIsSafe(w, t, b, start, n);
    ClicksUndisturbedExactly(w, t, b, start, n);
    forall m | m in Run(w, t, b, start, n).moves && Undisturbed(m)
      ensures NamesDeniedAnywhere(m.element) <==> HidesAVerb(m.element)
    {
      assert SafeMove(m, t);
      GatedMoveIsSafe(m.entry, t);
      GateMissesExactly(m.element, m.entry.index);
    }
  }

  const KEEP := Element("button", "x", "", None)

  const DELETE := Element("button", "delete", "", None)

  /** A page that shows "x" when it is enumerated and "delete" in its place when it is clicked. */
  function Shifting(here: Url): World {
    World((i, s) => false, (i, s, u) => u, (i, s) => Perception("fp", here), (i, s) => [KEEP], (i, s) => Said("0"),
          (i, s) => [DELETE], (i, s, x) => here, (i, s) => 0.0, c => if c == '0' then Decimal(0) else NotDigit)
  }

  /** Outside a sandbox and under any budget, its first turn clicks "delete" for an entry that passed the gate. */
  lemma DeleteIsClicked(here: Url, t: Target, b: Caps)
    requires !t.sandbox
    ensures NamesDenied(Label(DELETE)) && Clicked(EntryOf(KEEP, 0), DELETE) in Run(Shifting(here), t, b, here, 1).moves
  {
    hide *;
    var w, s := Shifting(here), Init(here);
    ShiftingClicks(here, t);
    ShortLabels();
    FirstRun(w, t, b, here);
    TurnRecordsItsClick(w, t, b, 0, s);
  }

  lemma FirstRun(w: World, t: Target, b: Caps, start: Url)
    ensures Init(start).stop.None? && Run(w, t, b, start, 1) == Iterate(w, t, b, 0, Init(start))
  {
    hide Iterate;
    assert Run(w, t, b, start, 0) == Init(start);
  }

  lemma ShiftingClicks(here: Url, t: Target)
    requires !t.sandbox
    ensures ClickOf(Shifting(here), t, 0, Init(here)) == Some(Clicked(EntryOf(KEEP, 0), DELETE))
  {
    hide IsDestructive;
    hide NamesDenied;
    hide Decided;
    hide Label;
    ShiftingDecides(here, t);
    ShortLabels();
    FirstCharsMatter("x");
    GateReadsTheLabel(KEEP, 0);
  }

  lemma ShortLabels()
    ensures Label(KEEP) == "x" && NamesDenied(Label(DELETE))
  {
    assert Actions.StripLeft("x") == "x" && Actions.StripRight("x") == "x" && "x"[..1] == "x";
    assert Actions.StripLeft("delete") == "delete" && Actions.StripRight("delete") == "delete";
    assert "delete"[..6] == "delete" && "delete"[0..6] == "delete";
    hide NamesDenied;
    DeleteIsDenied("delete", 0);
  }

  lemma ShiftingDecides(here: Url, t: Target)
    ensures var d := Decided(Shifting(here), t, 0, Init(here)); d.stop.None? && d.pending == Some(EntryOf(KEEP, 0))
  {
    var w, s := Shifting(here), Init(here);
    AskedIsRunning(w, t, 0, s);
    assert Menu([KEEP], 0) == [EntryOf(KEEP, 0)] by {
      assert [KEEP][1..] == [];
    }
    assert Asked(w, t, 0, s).menu == [EntryOf(KEEP, 0)];
    assert "0"[1..] == "" && LeadingDigits("0", w.digit) == ['0'] + LeadingDigits("", w.digit);
    assert FirstDigitRun("0", w.digit) == "0" && "0"[..0] == "";
    assert DecimalValue("0", w.digit) == 10 * DecimalValue("", w.digit) + 0;
    assert ParseIndex("0", 1, w.digit) == Some(0);
    hide ParseIndex;
    hide Asked;
    hide EntryOf;
  }

  // ----- Frontier discipline -----

  predicate Distinct<T(==)>(s: seq<T>) {
    forall i, j :: 0 <= i < j < |s| ==> s[i] != s[j]
  }

  lemma DistinctAppend<T>(s: seq<T>, x: T)
    ensures Distinct(s + [x]) <==> Distinct(s) && x !in s
  {
    if Distinct(s + [x]) {
      forall i, j | 0 <= i < j < |s| ensures s[i] != s[j] { assert (s + [x])[i] != (s + [x])[j]; }
      forall i | 0 <= i < |s| ensures s[i] != x { assert (s + [x])[i] != (s + [x])[|s|]; }
    }
  }

  predicate Disciplined(s: State) {
    Distinct(Keys(s.frontier)) && Distinct(s.visited) && Distinct(s.ledger.pairs)
  }

  lemma QueuedIsKey(key: Url, frontier: seq<Candidate>)
    ensures Queued(key, frontier) <==> key in Keys(frontier)
  {
    if key in Keys(frontier) {
      var i :| 0 <= i < |frontier| && Keys(frontier)[i] == key;
      assert frontier[i] in frontier;
    }
  }

  lemma {:induction false} FreshKeepsDistinct(cs: seq<Candidate>, frontier: seq<Candidate>, visited: seq<Url>)
    requires Distinct(Keys(frontier))
    ensures Distinct(Keys(frontier + Fresh(cs, frontier, visited)))
    ensures forall k | k in Keys(Fresh(cs, frontier, visited)) :: k !in visited && k !in Keys(frontier)
  {
    if cs == [] {
      assert frontier + [] == frontier;
    } else if cs[0].key !in visited && !Queued(cs[0].key, frontier) {
      var next := frontier + [cs[0]];
      var rest := Fresh(cs[1..], next, visited);
      assert Keys(next) == Keys(frontier) + [cs[0].key];
      QueuedIsKey(cs[0].key, frontier);
      DistinctAppend(Keys(frontier), cs[0].key);
      FreshKeepsDistinct(cs[1..], next, visited);
      assert frontier + ([cs[0]] + rest) == next + rest;
      assert Keys([cs[0]] + rest) == [cs[0].key] + Keys(rest);
    } else {
      FreshKeepsDistinct(cs[1..], frontier, visited);
    }
  }

  lemma NavigateDisciplined(w: World, i: nat, s: State)
    requires Disciplined(s)
    ensures Disciplined(Navigate(w, i, s))
  {
    DistinctAppend(s.visited, PageKey(Navigate(w, i, s).pageUrl));
    if s.frontier != [] {
      assert Keys(s.frontier[1..]) == Keys(s.frontier)[1..];
    }
  }

  lemma EnumerateDisciplined(w: World, t: Target, i: nat, s: State)
    requires Disciplined(s)
    ensures Disciplined(Enumerate(w, t, i, s))
  {
    FreshKeepsDistinct(Candidates(Menu(w.elements(i, s), 0), t.base), s.frontier, s.visited);
  }

  /** Perceive, decide and act leave the queues and the ledger alone. */
  predicate SameQueues(s: State, s': State) {
    && s.frontier == s'.frontier && s.visited == s'.visited && s.ledger == s'.ledger
    && s.enqueued == s'.enqueued && s.popped == s'.popped
  }

  lemma DecideAndActKeepQueues(w: World, t: Target, i: nat, s: State)
    ensures var s3 := Perceive(w, i, Navigate(w, i, s));
            SameQueues(s3, Navigate(w, i, s)) && SameQueues(BeforeConverge(w, t, i, s), Enumerate(w, t, i, s3))
  {
    hide Navigate;
    hide Enumerate;
    hide ParseIndex;
    hide IsDestructive;
    hide IsOffOrigin;
  }

  lemma BeforeConvergeDisciplined(w: World, t: Target, i: nat, s: State)
    requires Disciplined(s)
    ensures Disciplined(BeforeConverge(w, t, i, s))
  {
    hide BeforeConverge;
    hide Navigate;
    hide Perceive;
    hide Enumerate;
    NavigateDisciplined(w, i, s);
    DecideAndActKeepQueues(w, t, i, s);
    EnumerateDisciplined(w, t, i, Perceive(w, i, Navigate(w, i, s)));
  }

  lemma ConvergeDisciplined(w: World, i: nat, s: State, b: Caps)
    requires Disciplined(s)
    ensures Disciplined(Converge(w, i, s, b))
  {
    hide StopReason;
    if s.chosen.Some? {
      DistinctAppend(s.ledger.pairs, (s.fp, s.chosen.value as int));
    }
  }

  /** Going on needs something queued. */
  lemma EmptyFrontierStops(w: World, i: nat, s: State, b: Caps)
    ensures Converge(w, i, s, b).stop.None? ==> Converge(w, i, s, b).frontier != []
  {
    hide Advance;
    hide CapReason;
    hide IsLoop;
  }

  /** Main result: no key is queued twice, visited twice, no decision is recorded twice, and a run that goes on to
      another turn has something queued. */
  lemma {:induction false} RunIsDisciplined(w: World, t: Target, b: Caps, start: Url, n: nat)
    ensures Disciplined(Run(w, t, b, start, n))
    ensures n > 0 && Run(w, t, b, start, n).stop.None? ==> Run(w, t, b, start, n).frontier != []
  {
    hide BeforeConverge;
    hide Converge;
    if n > 0 {
      RunIsDisciplined(w, t, b, start, n - 1);
      var s := Run(w, t, b, start, n - 1);
      if s.stop.None? {
        BeforeConvergeDisciplined(w, t, n - 1, s);
        ConvergeDisciplined(w, n - 1, BeforeConverge(w, t, n - 1, s), b);
        EmptyFrontierStops(w, n - 1, BeforeConverge(w, t, n - 1, s), b);
      }
    }
  }

  /** A turn from `s` that pops the queue lands on the page it popped, up to query and fragment. */
  predicate PopLands(w: World, i: nat, s: State) {
    Pops(s) ==> PageKey(Navigate(w, i, s).pageUrl) == s.frontier[0].key
  }

  /** No pop of the run is redirected. */
  predicate PopsLand(w: World, t: Target, b: Caps, start: Url, n: nat) {
    forall k | 0 <= k < n && Run(w, t, b, start, k).stop.None? && !w.cancelled(k, Run(w, t, b, start, k)) ::
      PopLands(w, k, Run(w, t, b, start, k))
  }

  /** Every key ever queued is queued or popped, never both, and a popped key is a visited one. */
  predicate EachOnce(enqueued: seq<Url>, popped: seq<Url>, visited: seq<Url>, queued: seq<Url>) {
    && Distinct(enqueued) && Distinct(popped)
    && (forall k | k in enqueued :: k in popped || k in queued)
    && (forall k | k in popped :: k in visited && k !in queued)
  }

  predicate QueuedOnce(s: State) {
    && EachOnce(s.enqueued, s.popped, s.visited, Keys(s.frontier))
    && forall c | c in s.frontier :: c.key == PageKey(c.url)
  }

  lemma NavigateQueuedOnce(w: World, i: nat, s: State)
    requires PopLands(w, i, s) && QueuedOnce(s) && Disciplined(s)
    ensures QueuedOnce(Navigate(w, i, s))
  {
    var s' := Navigate(w, i, s);
    if Pops(s) {
      var k := s.frontier[0].key;
      HeadKeyIsAlone(s.frontier);
      PoppedOnce(s.enqueued, s.popped, s.visited, k, Keys(s.frontier[1..]), s'.visited);
      hide Keys;
      hide EachOnce;
      hide Distinct;
    }
  }

  /** The head's key is first among the keys and not among the rest. */
  lemma HeadKeyIsAlone(frontier: seq<Candidate>)
    requires frontier != []
    ensures Keys(frontier) == [frontier[0].key] + Keys(frontier[1..])
    ensures Distinct(Keys(frontier)) ==> frontier[0].key !in Keys(frontier[1..])
  {
    var ks, rest := Keys(frontier), Keys(frontier[1..]);
    assert ks == [frontier[0].key] + rest;
    if Distinct(ks) {
      forall j | 0 <= j < |rest| ensures rest[j] != frontier[0].key {
        assert ks[0] != ks[j + 1];
      }
    }
  }

  /** Popping a queued key onto the page it names. */
  lemma PoppedOnce(enqueued: seq<Url>, popped: seq<Url>, visited: seq<Url>, k: Url, rest: seq<Url>, visited': seq<Url>)
    requires EachOnce(enqueued, popped, visited, [k] + rest) && k !in rest
    requires k in visited' && forall v | v in visited :: v in visited'
    ensures EachOnce(enqueued, popped + [k], visited', rest)
  {
    DistinctAppend(popped, k);
    assert k in [k] + rest;
  }

  lemma AddedOnce(enqueued: seq<Url>, popped: seq<Url>, visited: seq<Url>, queued: seq<Url>, added: seq<Url>)
    requires EachOnce(enqueued, popped, visited, queued)
    requires Distinct(queued + added) && forall k | k in added :: k !in visited
    ensures EachOnce(enqueued + added, popped, visited, queued + added)
  {
    forall i, j | 0 <= i < j < |enqueued + added| ensures (enqueued + added)[i] != (enqueued + added)[j] {
      if |enqueued| <= j {
        var y := added[j - |enqueued|];
        assert y in added && (queued + added)[|queued| + j - |enqueued|] == y;
        if i < |enqueued| && enqueued[i] in queued {
          var q :| 0 <= q < |queued| && queued[q] == enqueued[i];
          assert (queued + added)[q] == enqueued[i];
        } else if |enqueued| <= i {
          assert (queued + added)[|queued| + i - |enqueued|] == added[i - |enqueued|];
        }
      }
    }
  }

  lemma FreshQueuedOnce(s: State, cs: seq<Candidate>)
    requires QueuedOnce(s) && Disciplined(s) && forall c | c in cs :: c.key == PageKey(c.url)
    ensures var added := Fresh(cs, s.frontier, s.visited);
            QueuedOnce(s.(frontier := s.frontier + added, enqueued := s.enqueued + Keys(added)))
  {
    var added := Fresh(cs, s.frontier, s.visited);
    FreshAreCandidates(cs, s.frontier, s.visited);
    FreshKeepsDistinct(cs, s.frontier, s.visited);
    hide Fresh;
    hide EachOnce;
    assert Keys(s.frontier + added) == Keys(s.frontier) + Keys(added);
    AddedOnce(s.enqueued, s.popped, s.visited, Keys(s.frontier), Keys(added));
  }

  lemma EnumerateQueuedOnce(w: World, t: Target, i: nat, s: State)
    requires QueuedOnce(s) && Disciplined(s)
    ensures QueuedOnce(Enumerate(w, t, i, s))
  {
    var cs := Candidates(Menu(w.elements(i, s), 0), t.base);
    hide Fresh;
    hide EachOnce;
    FreshQueuedOnce(s, cs);
  }

  lemma BeforeConvergeQueuedOnce(w: World, t: Target, i: nat, s: State)
    requires PopLands(w, i, s) && QueuedOnce(s) && Disciplined(s)
    ensures QueuedOnce(BeforeConverge(w, t, i, s))
  {
    hide BeforeConverge;
    hide Navigate;
    hide Perceive;
    hide Enumerate;
    var s3 := Perceive(w, i, Navigate(w, i, s));
    NavigateQueuedOnce(w, i, s);
    NavigateDisciplined(w, i, s);
    DecideAndActKeepQueues(w, t, i, s);
    EnumerateQueuedOnce(w, t, i, s3);
  }

  lemma IterateQueuedOnce(w: World, t: Target, b: Caps, i: nat, s: State)
    requires (!w.cancelled(i, s) ==> PopLands(w, i, s)) && QueuedOnce(s) && Disciplined(s)
    ensures QueuedOnce(Iterate(w, t, b, i, s))
  {
    hide BeforeConverge;
    hide Advance;
    hide StopReason;
    hide EachOnce;
    hide PopLands;
    hide Disciplined;
    if !w.cancelled(i, s) {
      BeforeConvergeQueuedOnce(w, t, i, s);
    }
  }

  lemma InitQueuedOnce(start: Url)
    ensures QueuedOnce(Init(start))
  {}

  /** Main result: in a run whose pops are not redirected, a key is queued at most once and popped at most once,
      whatever
      clicks and pending gotos do. */
  lemma {:induction false} EachKeyQueuedAndPoppedOnce(w: World, t: Target, b: Caps, start: Url, n: nat)
    ensures PopsLand(w, t, b, start, n) ==> QueuedOnce(Run(w, t, b, start, n))
  {
    hide Iterate;
    hide Init;
    hide QueuedOnce;
    hide Disciplined;
    hide PopLands;
    if n == 0 {
      InitQueuedOnce(start);
    } else {
      EachKeyQueuedAndPoppedOnce(w, t, b, start, n - 1);
      RunIsDisciplined(w, t, b, start, n - 1);
      var s := Run(w, t, b, start, n - 1);
      if s.stop.None? && PopsLand(w, t, b, start, n) {
        IterateQueuedOnce(w, t, b, n - 1, s);
      }
    }
  }

  /** What a redirected pop breaks: its key stays unvisited, so the next page that links to it queues it again, exactly
      when it had not been visited before. */
  lemma RedirectedPopIsQueuedAgain(w: World, t: Target, i: nat, s: State)
    requires Pops(s) && !PopLands(w, i, s) && s.frontier[0].key in s.enqueued
    requires Distinct(Keys(s.frontier))
    ensures var k, landed := s.frontier[0].key, Perceive(w, i, Navigate(w, i, s));
            var links := Candidates(Menu(w.elements(i, landed), 0), t.base);
            && (k in landed.visited <==> k in s.visited)
            && (k in Keys(links) && k !in s.visited ==> !Distinct(Enumerate(w, t, i, landed).enqueued))
  {
    var k, landed := s.frontier[0].key, Perceive(w, i, Navigate(w, i, s));
    var links := Candidates(Menu(w.elements(i, landed), 0), t.base);
    PopMovesOn(w, i, s);
    EnumerateAppends(w, t, i, landed);
    hide *;
    if k in Keys(links) && k !in s.visited {
      var j :| 0 <= j < |links| && Keys(links)[j] == k;
      FreshQueuesTheUnseen(links, landed.frontier, landed.visited, links[j]);
      RepeatIsNotDistinct(s.enqueued, Keys(Fresh(links, landed.frontier, landed.visited)), k);
    }
  }

  lemma PopMovesOn(w: World, i: nat, s: State)
    requires Pops(s) && !PopLands(w, i, s) && Distinct(Keys(s.frontier))
    ensures var k, landed := s.frontier[0].key, Perceive(w, i, Navigate(w, i, s));
            landed.enqueued == s.enqueued && !Queued(k, landed.frontier) && (k in landed.visited <==> k in s.visited)
  {
    HeadKeyIsAlone(s.frontier);
    QueuedIsKey(s.frontier[0].key, s.frontier[1..]);
    hide Keys;
    hide Distinct;
    hide Queued;
    hide PageKey;
  }

  lemma EnumerateAppends(w: World, t: Target, i: nat, s: State)
    ensures var links := Candidates(Menu(w.elements(i, s), 0), t.base);
            Enumerate(w, t, i, s).enqueued == s.enqueued + Keys(Fresh(links, s.frontier, s.visited))
  {}

  lemma {:induction false} FreshQueuesTheUnseen(cs: seq<Candidate>, frontier: seq<Candidate>, visited: seq<Url>,
                                                c: Candidate)
    requires c in cs && c.key !in visited && !Queued(c.key, frontier)
    ensures c.key in Keys(Fresh(cs, frontier, visited))
  {
    if cs[0].key == c.key {
      assert Fresh(cs, frontier, visited)[0] == cs[0];
    } else {
      var taken := cs[0].key !in visited && !Queued(cs[0].key, frontier);
      var frontier' := if taken then frontier + [cs[0]] else frontier;
      assert c in cs[1..];
      FreshQueuesTheUnseen(cs[1..], frontier', visited, c);
      var rest := Fresh(cs[1..], frontier', visited);
      var j :| 0 <= j < |rest| && Keys(rest)[j] == c.key;
      assert Fresh(cs, frontier, visited)[if taken then j + 1 else j] == rest[j];
    }
  }

  lemma RepeatIsNotDistinct(a: seq<Url>, b: seq<Url>, k: Url)
    requires k in a && k in b
    ensures !Distinct(a + b)
  {
    var i :| 0 <= i < |a| && a[i] == k;
    var j :| 0 <= j < |b| && b[j] == k;
    assert (a + b)[i] == (a + b)[|a| + j];
  }
}
