/** What a turn of the crawl must do: which decided entries it follows, what it pops, queues and remembers. */
module CrawlMoves {
  import opened Common
  import opened Budget
  import opened Actions
  import opened Crawl

  // ----- A decided entry -----

  /** Turn `i` runs from `s` and decides `e`. */
  predicate Decides(w: World, t: Target, i: nat, s: State, e: Entry) {
    s.stop.None? && !w.cancelled(i, s) && Decided(w, t, i, s).stop.None? && Decided(w, t, i, s).pending == Some(e)
  }

  /** Converge touches the ledger and the reason to stop, nothing else. */
  lemma TurnIsActed(w: World, t: Target, b: Caps, i: nat, s: State, e: Entry)
    ensures Decides(w, t, i, s, e) ==>
              var r, a := Iterate(w, t, b, i, s), Act(w, t, i, Decided(w, t, i, s));
              r == a.(ledger := r.ledger, stop := r.stop)
  {
    hide Navigate;
    hide Perceive;
    hide Enumerate;
    hide Decide;
    hide IsDestructive;
    hide IsOffOrigin;
    hide StopReason;
    hide Advance;
  }

  lemma NextTurn(w: World, t: Target, b: Caps, start: Url, n: nat)
    ensures Run(w, t, b, start, n).stop.None? ==>
              Run(w, t, b, start, n + 1) == Iterate(w, t, b, n, Run(w, t, b, start, n))
  {
    hide Iterate;
  }

  lemma DecidedTextIsGated(w: World, t: Target, i: nat, s: State, e: Entry)
    ensures Decides(w, t, i, s, e) ==> (IsDestructive(e, t.sandbox) <==> !t.sandbox && NamesDenied(e.text))
  {
    DecidedEntryIsEnumerated(w, t, i, s);
    TrailingSpaceHidesNothing(e.text);
    assert e.text + " " + "" == e.text + " ";
    hide Decided;
    hide Enumerated;
    hide Label;
    hide Contains;
    hide Lower;
  }

  /** The gates and the click, for an entry without confirm text. */
  lemma ActWrittenOut(w: World, t: Target, i: nat, d: State, e: Entry)
    requires d.stop.None? && d.pending == Some(e)
    ensures var a, passes := Act(w, t, i, d), !IsDestructive(e, t.sandbox);
            if e.url.Some? then
              a == d.(pending := if passes && OnAllowedOrigin(e.url.value, t.allowlist) then Some(e) else None)
            else if passes && e.index < |w.requeried(i, d)| then
              var x := w.requeried(i, d)[e.index];
              a == d.(pending := None, pageUrl := w.click(i, d, x), moves := d.moves + [Clicked(e, x)])
            else a == d.(pending := None)
  {
    if e.url.Some? {
      InOriginExactly(e.url.value, t.allowlist);
    }
    hide IsDestructive;
    hide IsOffOrigin;
    hide OnAllowedOrigin;
  }

  /** Main result: in every run, a turn that decides a link leaves it pending exactly when it is a sandbox or the label
      names no denied verb, and the allowlist has the link's scheme and host in whatever case. */
  lemma ChosenLinkStaysPendingExactly(w: World, t: Target, b: Caps, start: Url, n: nat, e: Entry)
    ensures var s, r := Run(w, t, b, start, n), Run(w, t, b, start, n + 1);
            Decides(w, t, n, s, e) && e.url.Some? ==>
              r.pending == if (t.sandbox || !NamesDenied(e.text)) && OnAllowedOrigin(e.url.value, t.allowlist)
                           then Some(e) else None
  {
    var s := Run(w, t, b, start, n);
    NextTurn(w, t, b, start, n);
    TurnIsActed(w, t, b, n, s, e);
    DecidedTextIsGated(w, t, n, s, e);
    if Decides(w, t, n, s, e) {
      ActWrittenOut(w, t, n, Decided(w, t, n, s), e);
    }
    hide *;
    hide Decides;
  }

  /** Main result: an entry without a link is clicked, in the turn that decides it, exactly when it is a sandbox or its
      label names no denied verb and the page queried again still has an element at its index; it is then forgotten. */
  lemma ChosenEntryIsClickedExactly(w: World, t: Target, b: Caps, start: Url, n: nat, e: Entry)
    ensures var s, r, d := Run(w, t, b, start, n), Run(w, t, b, start, n + 1), Decided(w, t, n, Run(w, t, b, start, n));
            Decides(w, t, n, s, e) && e.url.None? ==>
              && r.pending.None?
              && if (t.sandbox || !NamesDenied(e.text)) && e.index < |w.requeried(n, d)| then
                   var x := w.requeried(n, d)[e.index];
                   r.moves == d.moves + [Clicked(e, x)] && r.pageUrl == w.click(n, d, x)
                 else r.moves == d.moves && r.pageUrl == d.pageUrl
  {
    var s := Run(w, t, b, start, n);
    NextTurn(w, t, b, start, n);
    TurnIsActed(w, t, b, n, s, e);
    DecidedTextIsGated(w, t, n, s, e);
    if Decides(w, t, n, s, e) {
      ActWrittenOut(w, t, n, Decided(w, t, n, s), e);
    }
    hide *;
    hide Decides;
  }

  // ----- The goto of a turn -----

  /** `after` continues `before` with at most a click. */
  predicate OnlyAClickAfter(before: seq<Move>, after: seq<Move>) {
    before <= after && |after| <= |before| + 1 && (|after| > |before| ==> after[|before|].Clicked?)
  }

  /** Everything a turn does after its goto leaves the pops and the visits alone and moves by at most a click. */
  lemma AfterTheGoto(w: World, t: Target, b: Caps, i: nat, s: State)
    requires s.stop.None? && !w.cancelled(i, s)
    ensures var g, r := Navigate(w, i, s), Iterate(w, t, b, i, s);
            r.popped == g.popped && r.visited == g.visited && OnlyAClickAfter(g.moves, r.moves)
  {
    DecideAndActKeepQueues(w, t, i, s);
    DecideKeepsMoves(w, t, i, s);
    hide Navigate;
    hide Decide;
    hide IsDestructive;
    hide IsOffOrigin;
    hide StopReason;
    hide Advance;
    hide Menu;
    hide Candidates;
    hide Fresh;
  }

  lemma GotoPendingWrittenOut(w: World, i: nat, s: State)
    requires s.pending.Some? && s.pending.value.url.Some?
    ensures var g, u := Navigate(w, i, s), s.pending.value.url.value;
            && g.popped == s.popped && g.frontier == s.frontier
            && PageKey(if u == s.pageUrl then u else w.land(i, s, u)) in g.visited
            && g.moves == s.moves + if u == s.pageUrl then [] else [GotoPending(s.pending.value)]
  {
    hide PageKey;
  }

  lemma GotoHeadWrittenOut(w: World, i: nat, s: State)
    requires s.pending.None? && s.frontier != []
    ensures var g, u := Navigate(w, i, s), s.frontier[0].url;
            && g.popped == s.popped + [s.frontier[0].key] && g.frontier == s.frontier[1..]
            && PageKey(if u == s.pageUrl then u else w.land(i, s, u)) in g.visited
            && g.moves == s.moves + if u == s.pageUrl then [] else [GotoQueued(u)]
  {
    hide PageKey;
  }

  lemma NothingToGoToWrittenOut(w: World, i: nat, s: State)
    requires s.pending.None? && s.frontier == []
    ensures var g := Navigate(w, i, s);
            g.popped == s.popped && g.frontier == [] && PageKey(s.pageUrl) in g.visited && g.moves == s.moves
  {
    hide PageKey;
  }

  /** Turn `n` of the run starts: nothing stopped it and it is not cancelled. */
  predicate Starts(w: World, t: Target, b: Caps, start: Url, n: nat) {
    Run(w, t, b, start, n).stop.None? && !w.cancelled(n, Run(w, t, b, start, n))
  }

  /** Main result: the turn after pops nothing, goes to the pending link exactly when it is not the current page, and
      has visited the page it landed on. */
  lemma PendingLinkIsFollowed(w: World, t: Target, b: Caps, start: Url, n: nat, e: Entry)
    ensures var s, r := Run(w, t, b, start, n), Run(w, t, b, start, n + 1);
            Starts(w, t, b, start, n) && s.pending == Some(e) && e.url.Some? ==>
              var u := e.url.value;
              && r.popped == s.popped
              && PageKey(if u == s.pageUrl then u else w.land(n, s, u)) in r.visited
              && OnlyAClickAfter(s.moves + if u == s.pageUrl then [] else [GotoPending(e)], r.moves)
  {
    NextTurn(w, t, b, start, n);
    var s := Run(w, t, b, start, n);
    if Starts(w, t, b, start, n) && s.pending == Some(e) && e.url.Some? {
      AfterTheGoto(w, t, b, n, s);
      GotoPendingWrittenOut(w, n, s);
    }
    hide *;
    hide Starts;
  }

  /** A turn with nothing pending pops the head of the queue and goes to it, exactly when it is not the current page. */
  lemma HeadOfTheQueueIsFollowed(w: World, t: Target, b: Caps, start: Url, n: nat)
    ensures var s, r := Run(w, t, b, start, n), Run(w, t, b, start, n + 1);
            Starts(w, t, b, start, n) && s.pending.None? ==>
              if s.frontier == [] then
                r.popped == s.popped && PageKey(s.pageUrl) in r.visited && OnlyAClickAfter(s.moves, r.moves)
              else
                var u := s.frontier[0].url;
                && r.popped == s.popped + [s.frontier[0].key]
                && PageKey(if u == s.pageUrl then u else w.land(n, s, u)) in r.visited
                && OnlyAClickAfter(s.moves + if u == s.pageUrl then [] else [GotoQueued(u)], r.moves)
  {
    NextTurn(w, t, b, start, n);
    var s := Run(w, t, b, start, n);
    if Starts(w, t, b, start, n) && s.pending.None? {
      AfterTheGoto(w, t, b, n, s);
      if s.frontier == [] {
        NothingToGoToWrittenOut(w, n, s);
      } else {
        GotoHeadWrittenOut(w, n, s);
      }
    }
    hide *;
    hide Starts;
  }

  /** A turn sees the page it went to: the fingerprint and the menu are those of the page perceived after the goto. */
  lemma TurnSeesWhereItWent(w: World, t: Target, b: Caps, start: Url, n: nat)
    ensures var s, r := Run(w, t, b, start, n), Run(w, t, b, start, n + 1);
            var g := Navigate(w, n, s);
            var at := g.(fp := w.perceive(n, g).fp, pageUrl := w.perceive(n, g).url);
            var u := if s.pending.Some? && s.pending.value.url.Some? then s.pending.value.url.value
                     else if s.frontier != [] then s.frontier[0].url else s.pageUrl;
            Starts(w, t, b, start, n) ==>
              && g.pageUrl == (if u == s.pageUrl then u else w.land(n, s, u))
              && r.fp == at.fp && r.menu == Menu(w.elements(n, at), 0)
  {
    NextTurn(w, t, b, start, n);
    var s := Run(w, t, b, start, n);
    hide Run;
    hide Menu;
    hide PageKey;
    hide Iterate;
    if Starts(w, t, b, start, n) {
      TurnSees(w, t, b, n, s);
    }
  }

  lemma TurnSees(w: World, t: Target, b: Caps, i: nat, s: State)
    requires s.stop.None? && !w.cancelled(i, s)
    ensures var at, r := Perceive(w, i, Navigate(w, i, s)), Iterate(w, t, b, i, s);
            r.fp == at.fp && r.menu == Menu(w.elements(i, at), 0)
  {
    hide Navigate;
    hide Perceive;
    hide Menu;
    hide Candidates;
    hide Fresh;
    hide ParseIndex;
    hide IsDestructive;
    hide IsOffOrigin;
    hide StopReason;
    hide Advance;
  }

  /** What a run has visited it keeps, the page it started on first. */
  lemma {:induction false} StartStaysVisited(w: World, t: Target, b: Caps, start: Url, n: nat)
    ensures Run(w, t, b, start, 0).visited <= Run(w, t, b, start, n).visited
    ensures Run(w, t, b, start, n).visited != [] && Run(w, t, b, start, n).visited[0] == PageKey(start)
  {
    hide Iterate;
    hide PageKey;
    if n > 0 {
      StartStaysVisited(w, t, b, start, n - 1);
      TurnKeepsVisited(w, t, b, n - 1, Run(w, t, b, start, n - 1));
    }
  }

  lemma TurnKeepsVisited(w: World, t: Target, b: Caps, i: nat, s: State)
    ensures s.stop.None? ==> s.visited <= Iterate(w, t, b, i, s).visited
  {
    hide BeforeConverge;
    hide Converge;
    hide PageKey;
    if s.stop.None? && !w.cancelled(i, s) {
      AfterTheGoto(w, t, b, i, s);
    }
  }

  // ----- The queue -----

  lemma KeysOfSum(a: seq<Candidate>, c: seq<Candidate>)
    ensures Keys(a + c) == Keys(a) + Keys(c)
  {}

  lemma TurnKeepsTheQueue(w: World, t: Target, i: nat, s: State)
    requires s.enqueued == s.popped + Keys(s.frontier)
    ensures var r := BeforeConverge(w, t, i, s); r.enqueued == r.popped + Keys(r.frontier)
  {
    DecideAndActKeepQueues(w, t, i, s);
    PopKeepsTheQueue(w, i, s);
    EnumerateKeepsTheQueue(w, t, i, Perceive(w, i, Navigate(w, i, s)));
    hide Navigate;
    hide Perceive;
    hide Enumerate;
    hide BeforeConverge;
    hide Keys;
  }

  lemma EnumerateKeepsTheQueue(w: World, t: Target, i: nat, s: State)
    requires s.enqueued == s.popped + Keys(s.frontier)
    ensures var r := Enumerate(w, t, i, s); r.enqueued == r.popped + Keys(r.frontier)
  {
    KeysOfSum(s.frontier, Fresh(Candidates(Menu(w.elements(i, s), 0), t.base), s.frontier, s.visited));
    hide Menu;
    hide Candidates;
    hide Fresh;
    hide Keys;
  }

  lemma PopKeepsTheQueue(w: World, i: nat, s: State)
    requires s.enqueued == s.popped + Keys(s.frontier)
    ensures var r := Navigate(w, i, s); r.enqueued == r.popped + Keys(r.frontier)
  {
    if s.frontier != [] {
      HeadKeyIsAlone(s.frontier);
    }
    hide PageKey;
    hide Keys;
    hide Distinct;
  }

  /** Main result: in every run, what was queued is popped in the order it was queued, and what was not popped is in the
      queue. */
  lemma {:induction false} QueueIsFirstInFirstOut(w: World, t: Target, b: Caps, start: Url, n: nat)
    ensures var s := Run(w, t, b, start, n); s.enqueued == s.popped + Keys(s.frontier)
  {
    hide BeforeConverge;
    hide StopReason;
    hide Advance;
    if n > 0 {
      QueueIsFirstInFirstOut(w, t, b, start, n - 1);
      var s := Run(w, t, b, start, n - 1);
      if s.stop.None? {
        TurnKeepsTheQueue(w, t, n - 1, s);
      }
    }
  }

  /** A readable element that links to the base's scheme and host. */
  predicate LinksHome(x: Element, base: Url) {
    && x.Element? && x.href.Some?
    && x.href.value.scheme == base.scheme && x.href.value.netloc == base.netloc
  }

  /** Main result: in every run, the page of each link a turn enumerates on the base's scheme and host is visited or in
      the queue when the turn ends. */
  lemma EveryLinkIsKept(w: World, t: Target, b: Caps, start: Url, n: nat, k: nat)
    ensures var s, r := Run(w, t, b, start, n), Run(w, t, b, start, n + 1);
            var shown := Enumerated(w, n, s);
            Starts(w, t, b, start, n) && k < |shown| && LinksHome(shown[k], t.base) ==>
              var page := PageKey(shown[k].href.value);
              page in r.visited || page in Keys(r.frontier)
  {
    NextTurn(w, t, b, start, n);
    var s := Run(w, t, b, start, n);
    if Starts(w, t, b, start, n) && k < |Enumerated(w, n, s)| && LinksHome(Enumerated(w, n, s)[k], t.base) {
      TurnKeepsTheLink(w, t, b, n, s, k);
    }
    hide *;
    hide Starts;
  }

  lemma TurnKeepsTheLink(w: World, t: Target, b: Caps, i: nat, s: State, k: nat)
    requires s.stop.None? && !w.cancelled(i, s)
    requires k < |Enumerated(w, i, s)| && LinksHome(Enumerated(w, i, s)[k], t.base)
    ensures var r, page := Iterate(w, t, b, i, s), PageKey(Enumerated(w, i, s)[k].href.value);
            page in r.visited || page in Keys(r.frontier)
  {
    var g, shown := Perceive(w, i, Navigate(w, i, s)), Enumerated(w, i, s);
    var links, u := Candidates(Menu(shown, 0), t.base), shown[k].href.value;
    DecideAndActKeepQueues(w, t, i, s);
    EveryInOriginLinkIsACandidate(shown, 0, t.base, k);
    CandidateIsKept(g, links, Candidate(PageKey(u), u, Label(shown[k])));
    hide Navigate;
    hide Perceive;
    hide Menu;
    hide Candidates;
    hide Fresh;
    hide Keys;
    hide PageKey;
    hide Label;
    hide BeforeConverge;
    hide StopReason;
    hide Advance;
  }

  lemma CandidateIsKept(s: State, links: seq<Candidate>, c: Candidate)
    requires c in links
    ensures c.key in s.visited || c.key in Keys(s.frontier + Fresh(links, s.frontier, s.visited))
  {
    KeysOfSum(s.frontier, Fresh(links, s.frontier, s.visited));
    QueuedIsKey(c.key, s.frontier);
    if c.key !in s.visited && !Queued(c.key, s.frontier) {
      FreshQueuesTheUnseen(links, s.frontier, s.visited, c);
    }
    hide Keys;
    hide Fresh;
    hide Queued;
  }

  // ----- Going on -----

  /** What must be so for turn `i` to go on from `s` to `r`: no cancel, a reply the decision can use, every cap left
      some room, no fingerprint visited too often, no decision taken before, and something queued. */
  predicate GoesOn(w: World, t: Target, b: Caps, i: nat, s: State, r: State) {
    var q, l := Asked(w, t, i, s), r.ledger;
    && !w.cancelled(i, s)
    && (q.menu != [] ==>
          w.reply(i, q).Said? && ParseIndex(w.reply(i, q).content, |q.menu|, w.digit).Some?)
    && l.step < b.maxSteps && l.depth < b.maxDepth && w.clock(i, BeforeConverge(w, t, i, s)) < b.wallClock as real
    && Visits(l.seen, r.fp) <= b.maxRevisits
    && !(r.chosen.Some? && (r.fp, r.chosen.value as int) in s.ledger.pairs)
    && r.frontier != []
  }

  lemma TurnGoesOnExactly(w: World, t: Target, b: Caps, i: nat, s: State)
    requires s.stop.None?
    ensures var r := Iterate(w, t, b, i, s); r.stop.None? <==> GoesOn(w, t, b, i, s, r)
  {
    hide Navigate;
    hide Perceive;
    hide Enumerate;
    hide IsDestructive;
    hide IsOffOrigin;
    hide ParseIndex;
    AskedIsRunning(w, t, i, s);
  }

  /** Main result: in every run, a turn goes on to another exactly when none of the causes held in it. */
  lemma RunGoesOnExactly(w: World, t: Target, b: Caps, start: Url, n: nat)
    ensures var s, r := Run(w, t, b, start, n), Run(w, t, b, start, n + 1);
            s.stop.None? ==> (r.stop.None? <==> GoesOn(w, t, b, n, s, r))
  {
    NextTurn(w, t, b, start, n);
    if Run(w, t, b, start, n).stop.None? {
      TurnGoesOnExactly(w, t, b, n, Run(w, t, b, start, n));
    }
    hide *;
  }

  // ----- What a run remembers -----

  /** How many of the first `n` turns were on fingerprint `fp`. */
  function TurnsOn(w: World, t: Target, b: Caps, start: Url, n: nat, fp: string): nat {
    if n == 0 then 0
    else TurnsOn(w, t, b, start, n - 1, fp) + if Run(w, t, b, start, n).fp == fp then 1 else 0
  }

  /** Turn `n` decided `choice` on fingerprint `fp`. */
  predicate Chose(w: World, t: Target, b: Caps, start: Url, n: nat, fp: string, choice: nat) {
    Run(w, t, b, start, n).fp == fp && Run(w, t, b, start, n).chosen == Some(choice)
  }

  lemma TurnAdvances(w: World, t: Target, b: Caps, i: nat, s: State)
    ensures var r := Iterate(w, t, b, i, s);
            s.stop.None? && r.stop.None? ==>
              r.ledger == Advance(s.ledger, r.fp, r.chosen) && GoesOn(w, t, b, i, s, r)
  {
    LedgerUntouched(w, t, i, s);
    if s.stop.None? {
      TurnGoesOnExactly(w, t, b, i, s);
    }
    hide BeforeConverge;
    hide StopReason;
    hide Advance;
    hide GoesOn;
  }

  /** The ledger of a run that goes on holds how often each fingerprint was visited and every decision taken. */
  lemma {:induction false} LedgerRemembers(w: World, t: Target, b: Caps, start: Url, n: nat, fp: string)
    ensures var s := Run(w, t, b, start, n);
            s.stop.None? ==>
              && Visits(s.ledger.seen, fp) == TurnsOn(w, t, b, start, n, fp)
              && forall k, choice | 0 < k <= n && Chose(w, t, b, start, k, fp, choice) ::
                   (fp, choice as int) in s.ledger.pairs
  {
    hide Iterate;
    hide GoesOn;
    if n > 0 && Run(w, t, b, start, n).stop.None? {
      LedgerRemembers(w, t, b, start, n - 1, fp);
      TurnAdvances(w, t, b, n - 1, Run(w, t, b, start, n - 1));
    }
  }

  /** Main result: while a run goes on, it has spent at most the allowed turns on each fingerprint and has taken no
      decision twice on one. */
  lemma NoDecisionIsTakenTwice(w: World, t: Target, b: Caps, start: Url, n: nat, fp: string, choice: nat, k: nat)
    ensures Run(w, t, b, start, n).stop.None? ==>
              && (TurnsOn(w, t, b, start, n, fp) > 0 ==> TurnsOn(w, t, b, start, n, fp) <= b.maxRevisits)
              && !(0 < k < n && Chose(w, t, b, start, k, fp, choice) && Chose(w, t, b, start, n, fp, choice))
  {
    hide Iterate;
    if n > 0 && Run(w, t, b, start, n).stop.None? {
      var s := Run(w, t, b, start, n - 1);
      LedgerRemembers(w, t, b, start, n - 1, fp);
      LedgerRemembers(w, t, b, start, n, fp);
      TurnAdvances(w, t, b, n - 1, s);
      RunCounts(w, t, b, start, n);
    }
    hide Advance;
    hide Counted;
  }
}
