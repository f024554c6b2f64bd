# A verified model of the test-automation explorer, its money gate and its review queues

The system explores a web application with an LLM choosing the next action, recognises pages by a
structural hash, meters every LLM call, files defects to Jira, and keeps generated test scenarios in a
review queue. This project models the parts where a mistake is silent, and proves what they keep over
every input, every run or every interleaving. Verify it with `dafny verify dfyconfig.toml`.

## The components

**Fingerprint, PageMatch.** The hash folds runs of equal siblings by comparing a signature that starts at depth 0 with
the previous sibling's, while it writes lines at absolute depth. `Canon` is the independent meaning: truncate,
normalise labels, merge adjacent equal canonical siblings. The emitted lines are the depth-annotated preorder of
the canonical tree, that preorder is injective, so two pages share a fingerprint exactly when they share a
template. Edits of instance data (stripped attributes, digit runs, one more copy of a child), made anywhere in a
tree, keep it. `PageMatch` says, on the nodes themselves, what two pages that share a fingerprint have in common: names,
kept attributes and values up to their numbers.

**Budget, Actions, Crawl, CrawlMoves, ExploreGraph, Convergence.** The crawl is a machine whose pages, replies, clock and cancel
flag are oracles of the turn and the state, so every statement is about every world. `ExploreGraph` builds the node
graph as the source does and proves that walking it, node by node along its edges, is the machine's loop. Over whole
runs: the length bound, the honesty of stop reasons, tightening as truncation, the gates on every goto and click, and the discipline of the
queues. `CrawlMoves` is the other side: what a turn must do with the entry it decided, the head of the queue and every
link it sees, and when it must go on. The convergence harness depends on its snapshots only through fingerprints.

**Pricing, Gateway, GatewaySafety, GatewayAudit, GatewayClient.** One metered call is nine atomic steps, and any
number of calls interleave. `GatewayClient` is the imperative call itself, proved to leave the shared state where
the machine's steps for one uninterrupted call leave it, whatever other calls left unfinished. What is compared there
is `killed`, `cache`, `meters` and `ledger`: the ghost `calls`, `replies` and `excess` record the machine's view of the
call and follow it by construction. The rows of its single steps below are helpers of `Complete`, not results.

**Normalizer, NoiseText, Noise, NoiseLimits, Filing.** The defect key's text normaliser: what its result never holds, and
which differences between two messages it absorbs. The noise (a uuid, a timestamp with its tail, a 0x number, a number, a
run of spaces) is written out as text in `NoiseText`, apart from the patterns of the substitutions; `Noise` proves it
absorbed with any text before and after it that meets a condition on that text, and `NoiseLimits` gives inputs outside the
conditions. Then filing as a machine over failures, applies, rejects,
closes in Jira and Jira calls that raise; and a second machine in which search and create are separate
calls.

**Review.** The no-vacuous gate, the per-Then display, and the rows under interleaved requests: a request reads the
graph one reference at a time, and its commit writes only the columns whose value differs from what its session
loaded, as the ORM does.

**Codegen.** File names of generated scenarios.

## Where the code and its documentation disagree

The model follows the code; each point is a lemma or a contract below.

- `parse_index` says a malformed reply never crashes the loop (nodes.py:110-126). It does when the first digit run
  holds a sign that `isdigit` accepts and `int` does not, such as a superscript two, or when it is longer than `int`
  converts: `Crawl.ParseIndexSafeExactly`, `Crawl.SuperscriptReplyCrashes`.
- The menu prints each entry's element index, and `decide` reads the number replied as a menu position, clamped to the
  last one. `Crawl.ReplyTakesTheEntryPrinted` says exactly when the entry taken is the one printed under that number;
  `Crawl.SkippedElementMisleads` is a menu where another one is taken.
- `act` says a destructive action is refused whatever the model picks (nodes.py:267-272). The gate reads the label: the
  first 80 characters of the stripped inner text, or of the aria-label where there is no inner text. A verb past the cut
  or in a hidden aria-label passes: `Actions.GateMissesExactly` gives the exact condition, `Crawl.ClicksMissExactly`
  carries it over whole runs, `Actions.LongNamePassesTheGate` and `Actions.HiddenAriaLabelPassesTheGate` are inputs. And
  `act` queries the page again and clicks by index: `Crawl.ClicksUndisturbedExactly` says when every click goes to the
  element that was gated, `Crawl.DeniedLabelsAreClickedOnlyOnChangedPages` that a refused label is clicked in no other
  case, and `Crawl.DeleteIsClicked` is a world in which "delete" is clicked for an entry "x".
- The saturation window is configurable and changes no decision (nodes.py:561-564):
  `Crawl.SaturationWindowDecidesNothing`.
- The failure fingerprint says numbers, ids and timestamps in the message are normalised away (defects/fingerprint.py:47-48).
  They are where they stand apart, and not where two of them run together: hex digits before "-1234-1234-1234-123456789abc"
  are read as a uuid's beginning, so "0x00000000" and "0xa" differ there. For 0x numbers `NoiseLimits.HexIsAbsorbedExactly`
  gives the exact condition on the text after them. For the others the condition is the one of `Noise.UuidIsAbsorbed`,
  `Noise.TimestampIsAbsorbed`, `Noise.NumberIsAbsorbed` and `Noise.WhitespaceIsAbsorbed`, and
  `NoiseLimits.UuidAfterOpeningIsCut`, `NoiseLimits.SecondSpaceBreaksTimestamp` and `NoiseLimits.ZeroBeforeXIsNoNumber`
  are families of inputs outside it.
- The failure fingerprint says a different flow or step gives a different key (defects/fingerprint.py:47-48). For the
  flow ids the system mines that is so, whatever pipes the message and step hold: `Normalizer.MinedFlowsSeparateFailures`.
  As a statement about any flow string it is not: `Normalizer.PipeInFlowOrStepCollides`; without a pipe in class, flow
  and step it holds for any flow string too: `Normalizer.KeySeparatesFailures`.
- The per-run cap on new issues does not bound a run whose attachments raise after the create, because the caller never
  sees the incremented counter: `Filing.RaisedAttachmentsEscapeTheCap`; `Filing.CounterCountsCreates` says by how much.
- Rejecting says nothing was filed (routers/defects.py:246). As a statement about the row rather than the request it
  fails for a row filed before: `Filing.RejectedRowKeepsItsIssue`. `Filing.RejectedRowsExactly` says when a row has no
  issue, and when a rejected row is applied after all, since apply checks no status.
- The dedup search is meant to keep one open issue per fingerprint. Search and create are two calls:
  `Filing.OneIssueEachExactly` says exactly which interleavings keep it.
- `generate_scenarios` says a failing gate writes nothing (generation.py:362-363); the drafts of earlier flows stay:
  `Review.ScenarioStore.GenerateScenarios`.
- An edit says it stays a draft (scenario_service.py:90). It does unless the row was approved or rejected after the
  edit loaded it as a draft: `Review.EditReturnsToDraftExactly`. Approving says it re-runs both gates
  (routers/scenarios.py:249); what ends up approved is what they read exactly under the condition of
  `Review.ApprovalCoversExactly`. Both hold in every run in which requests on a row open one at a time:
  `Review.ExclusiveRequestsCommitWhatTheyChecked`. `Review.StaleApproval` shows both failing at once.
- A green Then is captioned with its graph target (routers/scenarios.py:102-103). A page entry that resolved by its url
  is captioned with the fingerprint it was given, known or not: `Review.CaptionCitesExactly` says exactly when,
  `Review.StaleFingerprintIsCited` is an input.
- The daily cap is meant to trip the kill switch (llm_gateway.py:328-329). A call that crashes between the reconcile that
  reaches the cap and its trip leaves no halt: `GatewayAudit.CrashLosesTheTripExactly` says exactly when,
  `GatewayAudit.LostTripHappens` is such a run.
- The display gives "ref not found in graph" for a Then whose own fact is there, when it shares its text with one whose
  fact is not: `Review.DisplayIsHonest`.

## Model

| member | source | states |
|---|---|---|
| Fingerprint.FingerprintIdentifiesTemplate | apps/api/app/services/explorer/fingerprint.py:158-167 | For every two trees, the emitted skeleton is the preorder of the canonical tree, and the skeletons are equal if and only if the canonical trees are; what that means on the nodes is `PageMatch.PagesMatchExactly` |
| PageMatch.FirstLineShowsTheLabelExactly | apps/api/app/services/explorer/fingerprint.py:81-106 | Two nodes whose values hold no '#' print the same line if and only if they show the same name (the role, else the tag, else "node"), have the same kept attributes, and their unstripped kept values are the same up to digit runs |
| PageMatch.PagesMatchExactly | apps/api/app/services/explorer/fingerprint.py:158-167 | Two pages without '#' and without matching neighbours share a skeleton if and only if they match node for node, labels and numbers of children, down to the depth cap |
| PageMatch.ChangedLabelChangesTheFingerprint | apps/api/app/services/explorer/fingerprint.py:81-167 | On such pages, another name, kept attribute or kept value beyond its numbers, at any path within the depth cap, gives another skeleton |
| PageMatch.TagsTellPagesApart | apps/api/app/services/explorer/fingerprint.py:81-83 | A page with a button and one with an input in its place, neither with a role, have different skeletons |
| PageMatch.MarkIsTakenForANumber | apps/api/app/services/explorer/fingerprint.py:86-96 | Why '#' is left out: a value "#" and a value "5" give one skeleton |
| Fingerprint.WalkRefinesPreorder | apps/api/app/services/explorer/fingerprint.py:150-155 | At every depth and remaining height, folding by signatures while walking emits the preorder of truncate, normalise and merge |
| Fingerprint.SiblingsRefine | apps/api/app/services/explorer/fingerprint.py:140-147 | The loop with a last signature emits the children whose canonical form differs from the previous one's, from any point of the loop |
| Fingerprint.SignatureIsRebasedEmission | apps/api/app/services/explorer/fingerprint.py:109-124 | A child's depth-0 signature, shifted to the child's depth, is the text the walk then writes for it |
| Fingerprint.PreorderDecodes | apps/api/app/services/explorer/fingerprint.py:154 | A depth-annotated preorder followed by anything at or above its depth determines the tree and the rest |
| Fingerprint.PreorderInjective | apps/api/app/services/explorer/fingerprint.py:154 | Equal depth-annotated preorders come from equal canonical trees |
| Fingerprint.DigitRunsFoldAlike | apps/api/app/services/explorer/fingerprint.py:86-96 | Two values that differ only in their digit runs normalise to the same value |
| Fingerprint.InstanceEditKeepsTemplate | apps/api/app/services/explorer/fingerprint.py:86-147 | An edit of instance data at any path leaves the canonical tree the same at every height |
| Fingerprint.InstanceEditKeepsFingerprint | apps/api/app/services/explorer/fingerprint.py:86-167 | An edit of instance data at any path leaves the emitted skeleton unchanged |
| Fingerprint.Emitter.constructor | apps/api/app/services/explorer/fingerprint.py:164 | The shared list starts empty |
| Fingerprint.Emitter.WalkInto | apps/api/app/services/explorer/fingerprint.py:150-155 | Appends to the shared list exactly the node's emission, nothing below the depth cap |
| Fingerprint.Emitter.EmitChildren | apps/api/app/services/explorer/fingerprint.py:127-147 | Appends exactly the folded (or, without folding, all) children's emissions, in order |
| Fingerprint.ChildSignature | apps/api/app/services/explorer/fingerprint.py:109-124 | The signature is the child's own emission at depth 0 within the remaining depth |
| Fingerprint.StructuralFingerprint | apps/api/app/services/explorer/fingerprint.py:158-167 | The imperative walk yields the skeleton the theorems are about |
| Budget.BuildBudget | apps/api/app/services/explorer/budget.py:34-59 | Each cap is the lower of its override and the global cap, and the global one where no override is given |
| Actions.EntryDescribesItsElement | apps/api/app/services/explorer/actions.py:57-105 | A menu entry has the role, label and link of the element its index names, and no confirm text, whatever was skipped before it |
| Actions.LastEntryIsLastReadable | apps/api/app/services/explorer/actions.py:81-105 | The last entry's index is n if and only if element n is the last readable one |
| Actions.LabelIsTheCutName | apps/api/app/services/explorer/actions.py:62-63 | A label is the inner text, or the aria-label where there is none, from its first to its last character that is no space, cut after eighty |
| Actions.DeniedInAnyCase | apps/api/app/services/explorer/risk.py:45-60 | A text names a denied verb if and only if one stands in it somewhere in whatever case |
| Actions.InOriginExactly | apps/api/app/services/explorer/risk.py:63-86 | A url is let through if and only if it has a scheme and a host and some allowed url has both up to ASCII case |
| Actions.SamePageExactly | apps/api/app/services/explorer/actions.py:30-40 | Two urls are one page of the queue if and only if scheme and host are the same and the paths up to slashes at their ends, whatever their queries and fragments |
| Actions.EveryInOriginLinkIsACandidate | apps/api/app/services/explorer/actions.py:43-105 | Every readable link of the base's scheme and host becomes a candidate under its page's key, with its label |
| Actions.StripKeepsVerbs | apps/api/app/services/explorer/actions.py:62-63 | Stripping a text never hides or makes a denied verb |
| Actions.GateReadsTheLabel | apps/api/app/services/explorer/risk.py:45-60 | Outside a sandbox an element's entry is destructive if and only if its label names a denied verb |
| Actions.GateMissesExactly | apps/api/app/services/explorer/risk.py:45-60 | A refused element names a denied verb; one let pass does, in its inner text or aria-label, if and only if its name is over 80 characters and names one or its inner text hides an aria-label that does |
| Actions.LongNamePassesTheGate | apps/api/app/services/explorer/actions.py:62-63 | An element whose verb stands after the eightieth character and that passes the gate |
| Actions.HiddenAriaLabelPassesTheGate | apps/api/app/services/explorer/actions.py:62-63 | An element whose aria-label names a verb behind an inner text and that passes the gate |
| Actions.IndexIsPosition | apps/api/app/services/explorer/actions.py:81-105 | An entry's index equals its menu position if and only if no element up to it was skipped |
| Actions.EnumerateActions | apps/api/app/services/explorer/actions.py:81-105 | One entry per readable element, and as candidates exactly the entries linking to the base's scheme and host, in order |
| Crawl.ParseIndexLoop | apps/api/app/services/explorer/nodes.py:110-126 | The character loop reads the first digit run of the reply, clamped to the menu, or crashes where int raises |
| Crawl.ParseIndexSafeExactly | apps/api/app/services/explorer/nodes.py:110-126 | A reply gives an index if and only if its first digit run is all decimals and not too long for int; the index is then in the menu |
| Crawl.WrittenReplyIsRead | apps/api/app/services/explorer/nodes.py:110-126 | A reply that writes a number in ASCII digits, after text without digits and before none or a character that is no digit, is read as that number, clamped to the menu |
| Crawl.SuperscriptReplyCrashes | apps/api/app/services/explorer/nodes.py:113-115 | A concrete reply that crashes the run, against the promise that none does |
| Crawl.ReplyTakesTheEntryPrinted | apps/api/app/services/explorer/nodes.py:125-126 | The entry taken stands at the number replied, clamped to the menu; it is printed under that number if and only if that number is a position and no element up to it was skipped, or it is past the menu's end and is the last readable element |
| Crawl.SkippedElementMisleads | apps/api/app/services/explorer/nodes.py:256-261 | With the first of three elements skipped, the reply 1 takes the entry printed as [2] although [1] is on the menu |
| Crawl.EnumerateNode | apps/api/app/services/explorer/nodes.py:198-211 | The loop appends, in order, the candidates neither visited nor already queued, each key once |
| Crawl.SaturationWindowDecidesNothing | apps/api/app/services/explorer/nodes.py:561-564 | No value of the saturation window changes whether or why a turn stops |
| Crawl.StopNamesItsCause | apps/api/app/services/explorer/nodes.py:537-566 | In every run the stop reason is one that held in the last turn, in order: cancel (and then nothing was done), a refused or crashing reply (and then nothing was acted on), step, depth and clock caps, loop, empty frontier |
| Crawl.RunCounts | apps/api/app/services/explorer/nodes.py:505-560 | In every reachable state step is the sum of the visit counts and depth the number of fingerprints, and a run going on has every count within the revisit cap |
| Crawl.GoingOnIsWithinBound | apps/api/app/services/explorer/nodes.py:505-566 | A run still going after n turns has n below the bound |
| Crawl.RunEndsWithinBound | apps/api/app/services/explorer/budget.py:62-98 | Every run has stopped within min(max_steps, (max_depth - 1) * max_revisits + 1) turns (at least one turn) |
| Crawl.TighteningKeepsThePrefix | apps/api/app/services/explorer/budget.py:34-108 | As long as the run under tighter caps goes on, it is state for state the run under the looser caps |
| Crawl.TighteningTruncates | apps/api/app/services/explorer/nodes.py:499-573 | For pointwise ordered budgets and the same oracles, the tighter run is the looser one cut short: equal on every turn before the cut, and equal at it but for the reason |
| Crawl.OverridesOnlyTruncate | apps/api/app/services/explorer/budget.py:34-59 | The run under any overrides is the run under the global caps cut short |
| Crawl.EveryMoveIsSafe | apps/api/app/services/explorer/nodes.py:145-336 | Over every run, each goto is a queued url of the base's scheme and host, or a decided link whose scheme and host an allowed url has and whose text names no denied verb outside a sandbox; every click is made for an entry whose text names none outside a sandbox |
| CrawlMoves.ChosenLinkStaysPendingExactly | apps/api/app/services/explorer/nodes.py:264-336 | In every run, a turn that decides a link leaves it pending if and only if it is a sandbox or the label names no denied verb, and some allowed url has the link's scheme and host in whatever case |
| CrawlMoves.PendingLinkIsFollowed | apps/api/app/services/explorer/nodes.py:145-174 | The turn after pops nothing, goes to the pending link if and only if it is not the current page, and has visited the page it landed on |
| CrawlMoves.ChosenEntryIsClickedExactly | apps/api/app/services/explorer/nodes.py:284-330 | A decided entry without a link is clicked in its own turn if and only if it is a sandbox or the label names no denied verb, and the page queried again has an element at its index; nothing stays pending |
| CrawlMoves.HeadOfTheQueueIsFollowed | apps/api/app/services/explorer/nodes.py:149-174 | A turn with nothing pending pops the head of the queue, goes to its url if and only if it is not the current page, and has visited the page it landed on |
| CrawlMoves.TurnSeesWhereItWent | apps/api/app/services/explorer/nodes.py:145-211 | A turn's fingerprint and menu are those of the page perceived after its goto |
| CrawlMoves.QueueIsFirstInFirstOut | apps/api/app/services/explorer/nodes.py:149-211 | In every state of every run, what was queued is what was popped, in that order, followed by what is in the queue |
| CrawlMoves.EveryLinkIsKept | apps/api/app/services/explorer/nodes.py:198-211 | The page of each link on the base's scheme and host that a turn enumerates is visited or queued when the turn ends |
| CrawlMoves.RunGoesOnExactly | apps/api/app/services/explorer/nodes.py:499-573 | In every run a turn is followed by another if and only if it was not cancelled, its reply gave an index, every cap has room, the fingerprint was not visited too often, the decision is new and something is queued |
| CrawlMoves.NoDecisionIsTakenTwice | apps/api/app/services/explorer/nodes.py:505-560 | A run that goes on has spent at most max_revisits turns on each fingerprint and has decided no entry twice on one, counted over its own states |
| Crawl.ClicksMissExactly | apps/api/app/services/explorer/nodes.py:264-336 | Over every run outside a sandbox, an element clicked as its entry described it names a denied verb if and only if it hides the verb from its label; where pages stay put this is so of every click |
| Crawl.ClicksUndisturbedExactly | apps/api/app/services/explorer/nodes.py:324-330 | Every click of a run reached an element with the entry it was made for if and only if no page of the run changed under the clicked index between its menu and its click |
| Crawl.DeniedLabelsAreClickedOnlyOnChangedPages | apps/api/app/services/explorer/nodes.py:284-330 | Over every run outside a sandbox, an element whose own label names a denied verb is clicked only under an entry with another label, and never where pages stay put |
| Crawl.DeleteIsClicked | apps/api/app/services/explorer/nodes.py:324-330 | A world whose first turn, under any budget, clicks an element labelled delete for an entry x that passed the gate |
| Crawl.RunIsDisciplined | apps/api/app/services/explorer/nodes.py:149-211 | Queued keys, visited keys and recorded decisions are duplicate-free in every state, and a run that goes on has something queued |
| Crawl.EachKeyQueuedAndPoppedOnce | apps/api/app/services/explorer/nodes.py:149-211 | In a run whose queue pops land on the pages they name, each key is queued at most once and popped at most once and is never queued again once popped, whatever other gotos and clicks do |
| Crawl.RedirectedPopIsQueuedAgain | apps/api/app/services/explorer/nodes.py:157-166 | A redirected pop leaves its key unvisited unless it was visited before, and the next page that links to it queues it a second time |
| ExploreGraph.BuildExplorerGraph | apps/api/app/services/explorer/graph.py:43-65 | The successive calls record exactly the eight nodes and the wiring with two conditional edges |
| ExploreGraph.TurnIsIterate | apps/api/app/services/explorer/graph.py:57-65 | From the loop top, eight node visits along the wiring are one turn of the crawl, stops and failures included |
| ExploreGraph.WalkingTheGraphIsTheRun | apps/api/app/services/explorer/graph.py:33-67 | For every world and number of turns, walking the graph from its start holds the crawl's state, at the loop top or at the end |
| ExploreGraph.RecursionLimitTripsExactly | apps/api/app/services/explorer/graph.py:57-67 | A limit on node visits that is a whole number of turns trips if and only if the run is still going after them, and one that covers the run-length bound never trips |
| Convergence.RunOverFixtures | apps/api/app/services/explorer/convergence.py:51-109 | The harness's terminal state is a function of the snapshots' fingerprints alone |
| Convergence.InstanceEditsKeepFingerprints | apps/api/app/services/explorer/convergence.py:77-80 | Any sequence of instance-data edits, anywhere in any snapshot, keeps every fingerprint |
| Convergence.ConvergenceIsTemplateOnly | apps/api/app/services/explorer/convergence.py:51-109 | Such edits leave the harness's whole terminal state unchanged |
| Convergence.TurnFollowsTheScript | apps/api/app/services/explorer/convergence.py:74-104 | A turn visits the snapshot its script entry names, modulo their number, and records that decision there and no other; past its end a script goes on as its last entry |
| Convergence.RepeatedLastEntryChangesNothing | apps/api/app/services/explorer/convergence.py:72-108 | Writing the script's last entry out once more changes no outcome |
| Convergence.TurnsStopOnTheirOwn | apps/api/app/services/explorer/convergence.py:74-104 | With enough turns to drain the frontier, converge itself ends the run within one turn per queued entry; any other allowance ends it the same or cuts it before |
| Convergence.SafetyBoundDecidesExactly | apps/api/app/services/explorer/convergence.py:72-108 | Converge would stop the run within one turn per snapshot, and the hard bound, max_steps plus the snapshots plus the saturation window plus 5, decides if and only if it allows fewer turns than that; with non-negative caps it never does |
| Pricing.LookupFindsThePriceInForce | apps/api/app/core/llm_pricing.py:63-78 | The row found is the latest effective one for the bare model, the later of equals, and none is found if and only if none applies |
| Pricing.BareModelDropsTheProvider | apps/api/app/core/llm_pricing.py:53-60 | What follows the first colon is the model looked up, and a model without one is looked up as it is |
| Pricing.LookupStep | apps/api/app/core/llm_pricing.py:72-78 | Appending a row changes the answer exactly when it applies and is at least as recent |
| Pricing.FuturePriceChangesNothing | apps/api/app/core/llm_pricing.py:63-78 | Appending a row dated after the day of the call never changes the price found |
| Pricing.CostIsMonotone | apps/api/app/core/llm_pricing.py:81-87 | More tokens on either side never cost less |
| Pricing.CostWithinHalfMicro | apps/api/app/core/llm_pricing.py:81-87 | The cost is within half a micro-dollar, halves rounded up, of input tokens times the input price plus output tokens times the output price |
| Pricing.UnusedPriceIsFree | apps/api/app/core/llm_pricing.py:81-87 | A call without output tokens costs the same whatever the output price, and one without input tokens whatever the input price |
| Pricing.LedgerDrift | apps/api/app/core/llm_pricing.py:81-87 | A sum of n rounded costs is within n half micro-dollars of all input tokens at their input prices plus all output tokens at their output prices |
| Gateway.SameKeyExactly | apps/api/app/services/llm_gateway.py:139-162 | Two requests share a cache key if and only if model, messages, temperature and max tokens are the same |
| GatewaySafety.PreCheckPassesExactly | apps/api/app/services/llm_gateway.py:375-403 | The pre-check passes if and only if the reservation, and each of the run's and the day's meters with it, is within the override and the global cap, in dollars and in tokens |
| GatewaySafety.AmountsWrittenOut | apps/api/app/services/llm_gateway.py:375-431 | What is reserved and charged: estimate plus max tokens and tokens used, and their costs at the input and output prices to half a micro-dollar |
| GatewaySafety.PassingThePreCheckPassesTheGlobals | apps/api/app/services/llm_gateway.py:251-273 | What passes the pre-check under any overrides passes every global cap |
| GatewaySafety.LoadAfterStep | apps/api/app/services/llm_gateway.py:388-431 | Only an admission adds to a meter plus its reservations in flight; a charge never adds more than it releases, usage above reservation aside |
| GatewaySafety.BoundedOvershoot | apps/api/app/services/llm_gateway.py:375-431 | In every interleaving with at most k calls in flight, a meter plus its reservations stays under the cap plus k - 1 per-call caps, on both axes, plus usage reported above reservation |
| GatewaySafety.WithinReservationCostsNoMore | apps/api/app/services/llm_gateway.py:375-417 | Usage within the estimate and max_tokens costs at most the reservation, in dollars and tokens |
| GatewaySafety.HonestRunHasNoExcess | apps/api/app/services/llm_gateway.py:375-431 | If every reply stays within its reservation, the excess is zero on every meter |
| GatewaySafety.SerialCallsStayUnderTheCap | apps/api/app/services/llm_gateway.py:375-431 | One honest call at a time never takes a run or a day over its cap |
| GatewayAudit.EffectBalances | apps/api/app/services/llm_gateway.py:419-465 | Each step turns charges into unwritten cost and unwritten cost into rows, none lost |
| GatewayAudit.SpendIsConserved | apps/api/app/services/llm_gateway.py:419-465 | In every interleaving, crashes included, a run's meter is its non-hit ledger rows plus the calls counted without a row |
| GatewayAudit.CacheIsTransparent | apps/api/app/services/llm_gateway.py:354-373 | In every interleaving, every answer a call holds, hit or miss, was given by the provider to that call or an earlier one with the same model, messages, temperature and max tokens, and one that is not a hit to that call itself |
| GatewayAudit.OnlyOptedInUseTheCache | apps/api/app/services/llm_gateway.py:354-373 | In every interleaving only calls at temperature 0 that do not opt out look in the cache or are served from it, and it holds prompts at temperature 0 only |
| GatewayAudit.RepeatedPromptHits | apps/api/app/services/llm_gateway.py:354-446 | Once such a call's answer is stored, another with the same prompt gets it as a hit |
| GatewayAudit.HitsAreFree | apps/api/app/services/llm_gateway.py:496-551 | A hit writes one zero-cost row and moves no meter |
| GatewayAudit.HaltStopsNewSpend | apps/api/app/services/llm_gateway.py:345-348 | From a halt until it is cleared, no new call gets past the kill check, and spend grows at most by the reservations of the calls already past it |
| GatewayAudit.ExhaustedDayAdmitsNothing | apps/api/app/services/llm_gateway.py:388-403 | Once a day's spend reaches the cap, no call of that day with a positive reservation is admitted, cleared halt or not |
| GatewayAudit.ExhaustionTrips | apps/api/app/services/llm_gateway.py:448-450 | A day at its cap has halted the gateway or has a call about to, if nobody ended the halt and no call crashed between the reconcile that reached the cap and its trip |
| GatewayAudit.CrashLosesTheTripExactly | apps/api/app/services/llm_gateway.py:431-450 | With the day at its cap and no halt yet, after a call's crash a trip is still due if and only if another call would trip |
| GatewayAudit.LostTripHappens | apps/api/app/services/llm_gateway.py:431-450 | A run that spends the day's whole cap and ends with no halt and no call left to set one |
| GatewayClient.LlmGateway.Complete | apps/api/app/services/llm_gateway.py:305-493 | The call leaves the shared state where the machine's steps for it do, and says what each outcome did to meters and ledger |
| GatewayClient.LlmGateway.CallProvider | apps/api/app/services/llm_gateway.py:375-417 | Helper: refused only over a cap, with nothing charged; no usage means no charge; served only within every cap, with one row at the actual cost |
| GatewayClient.LlmGateway.ServeCacheHit | apps/api/app/services/llm_gateway.py:496-551 | Helper: the hit path is the machine's hit: a zero-cost row, no meter touched |
| GatewayClient.LlmGateway.CheckKillswitch | apps/api/app/services/llm_gateway.py:345-352 | Helper: passes if and only if there is no halt and the model is priced |
| GatewayClient.LlmGateway.LookupCache | apps/api/app/services/llm_gateway.py:354-373 | Helper: reads the cache for temperature-0 calls that do not opt out, and for no others |
| GatewayClient.LlmGateway.PreCheck | apps/api/app/services/llm_gateway.py:375-403 | Helper: passes if and only if all six comparisons hold |
| GatewayClient.LlmGateway.ReconcileUsage | apps/api/app/services/llm_gateway.py:419-431 | Helper: charges actual usage to the run's and the day's meters on both axes in one step and reports the day's new spend |
| GatewayClient.LlmGateway.WriteCache | apps/api/app/services/llm_gateway.py:433-446 | Helper: stores the answer under the call's key, for cacheable calls only |
| GatewayClient.LlmGateway.AutoTrip | apps/api/app/services/llm_gateway.py:448-450 | Helper: halts the gateway if the day's spend reported at the reconcile has reached the global daily cap |
| GatewayClient.LlmGateway.WriteLedgerRow | apps/api/app/services/llm_gateway.py:452-465 | Helper: adds one row with the counts and the actual cost, or zero for a hit |
| GatewayClient.LlmGateway.SetKillswitch | apps/api/app/services/llm_gateway.py:290-292 | Helper: halts if and only if the reason is not empty, and changes nothing else |
| GatewayClient.LlmGateway.ClearKillswitch | apps/api/app/services/llm_gateway.py:295-297 | Helper: ends a halt and changes nothing else |
| Normalizer.PlainWindowCopied | apps/api/app/services/defects/fingerprint.py:37-40 | A window of six or more characters without angle brackets in a pass's output was copied whole from its input: no placeholder and no join across one makes it |
| Normalizer.NoUuidSurvives | apps/api/app/services/defects/fingerprint.py:25-37 | The uuid pass leaves no uuid anywhere |
| Normalizer.SpaceFreeWindowKept | apps/api/app/services/defects/fingerprint.py:41 | Collapsing whitespace joins nothing: a space-free window of the result was in the text |
| Normalizer.SplitOfJoin | apps/api/app/services/defects/fingerprint.py:41 | Splitting the collapsed text gives the same words back |
| Normalizer.NormalizedHasNoUuid | apps/api/app/services/defects/fingerprint.py:31-41 | After all four passes and the collapse there is no uuid at any position |
| Normalizer.NormalizedHasNoDigit | apps/api/app/services/defects/fingerprint.py:31-41 | The normalised text holds no digit |
| Normalizer.NormalizeIsIdempotent | apps/api/app/services/defects/fingerprint.py:31-41 | normalize(normalize(s)) = normalize(s) for every string |
| Noise.UuidIsAbsorbed | apps/api/app/services/defects/fingerprint.py:25-37 | Messages that differ in one uuid normalise alike, whatever stands around it, unless the text before ends in the first 28 to 35 characters of another |
| Noise.TimestampIsAbsorbed | apps/api/app/services/defects/fingerprint.py:26-38 | Messages that differ in one timestamp, with all up to the next space, normalise alike, unless the text before ends inside a uuid or a timestamp, a uuid begins in the seconds, or the tail of an earlier timestamp runs into one with a space in it |
| Noise.HexIsAbsorbed | apps/api/app/services/defects/fingerprint.py:27-39 | Messages that differ in one 0x number between word boundaries normalise alike, unless the text after reads on as the rest of a uuid or of a timestamp |
| NoiseLimits.HexIsAbsorbedExactly | apps/api/app/services/defects/fingerprint.py:31-41 | For every text after, all 0x numbers between word boundaries read alike after all texts before if and only if that text does not read on so |
| Noise.NumberIsAbsorbed | apps/api/app/services/defects/fingerprint.py:28-40 | Messages that differ in one whole number normalise alike, unless a uuid, a timestamp or a 0x number takes in one of the two |
| Noise.WhitespaceIsAbsorbed | apps/api/app/services/defects/fingerprint.py:41 | Messages that differ in one run of whitespace, or in having any at either end, normalise alike, unless a timestamp stands over one of the two runs |
| Noise.NoiseSharesTheKey | apps/api/app/services/defects/fingerprint.py:44-51 | So two failures of one class, flow and step that differ in one such piece share a key |
| Noise.MuchNoiseSharesTheKey | apps/api/app/services/defects/fingerprint.py:44-51 | And so do two that any number of such differences lead from one to the other |
| NoiseLimits.NoiseReadsAs | apps/api/app/services/defects/fingerprint.py:25-40 | A uuid, a timestamp, a 0x number and a number alone read as their own placeholder |
| NoiseLimits.PlainWordsAreKept | apps/api/app/services/defects/fingerprint.py:31-41 | Text without digits or uuids keeps its words, one space apart |
| NoiseLimits.UuidAfterOpeningIsCut | apps/api/app/services/defects/fingerprint.py:25-37 | After every such beginning of a uuid two uuids do not read alike |
| NoiseLimits.SecondSpaceBreaksTimestamp | apps/api/app/services/defects/fingerprint.py:26-41 | For every timestamp with a space in it, a second space there changes what it reads as |
| NoiseLimits.ZeroBeforeXIsNoNumber | apps/api/app/services/defects/fingerprint.py:27-40 | For every 0x number, a 1 in place of its 0 changes what it reads as |
| Normalizer.MinedFlowsSeparateFailures | apps/api/app/services/defects/fingerprint.py:44-51 | For the mined flow ids and a class without pipes, keys are equal if and only if class, flow and step are and the messages normalise alike, whatever pipes message and step hold |
| Normalizer.FlowDelimitsTheMessage | apps/api/app/services/kg/flows.py:259 | A digit-free message followed by a mined flow id is determined by the text: the first digit is the flow's |
| Normalizer.KeySeparatesFailures | apps/api/app/services/defects/fingerprint.py:44-51 | For any flow string: without a pipe in class, flow or step, keys are equal if and only if class, flow and step are and the messages normalise alike |
| Normalizer.PipeInFlowOrStepCollides | apps/api/app/services/defects/fingerprint.py:47-50 | For any flow or step with a pipe, some other flow and step give the same key, one of the two flows then having a pipe and so not being a mined one |
| Filing.DefectDesk.SearchJql | apps/api/app/services/defects/pipeline.py:89-91 | Returns the keys of exactly the open issues carrying the fingerprint's label |
| Filing.DefectDesk.AttachAll | apps/api/app/services/defects/pipeline.py:199-200 | Attaches the paths in order up to the first call that raises |
| Filing.DefectDesk.FileOrUpdate | apps/api/app/services/defects/pipeline.py:156-214 | Comment and attach on a hit, nothing at the cap, create and attach otherwise, and what stays behind when a call raises |
| Filing.DefectDesk.RunDefectPipeline | apps/api/app/services/defects/pipeline.py:217-296 | The draft row is stored whatever follows; the counter and the row change as the filing's answer says, not at all if it raised |
| Filing.DefectDesk.ApplyDefect | apps/api/app/routers/defects.py:205-239 | Files any known row, whatever its status, with a counter of its own; unconfigured Jira and unknown ids change nothing |
| Filing.ClassifiedIsFiledExactly | apps/api/app/services/defects/pipeline.py:156-296 | A classified failure leaves a draft and Jira untouched unless it is a product failure under autonomy with the confidence asked for; otherwise, when every call goes through, an open issue with its label gets one comment and the artifacts, or below the cap a new issue is opened with them, and at the cap it stays a draft |
| Filing.AppliedIsFiledExactly | apps/api/app/routers/defects.py:205-239 | The same for an apply, which asks for none of the three and has a cap of its own |
| Filing.DefectDesk.RejectDefect | apps/api/app/routers/defects.py:242-252 | Flips the status of a known row and nothing else: its issue and key stay |
| Filing.FilingEffect | apps/api/app/services/defects/pipeline.py:176-214 | A filing opens at most one issue, only on a miss below the cap, counts it if it answers, and answers an open issue carrying the label and every artifact |
| Filing.OneOpenIssuePerFingerprint | apps/api/app/services/defects/pipeline.py:156-296 | From at most one open issue per fingerprint, every sequence of failures, applies, rejects, closes and Jira errors keeps that, and every applied row's key names an issue with its own label and all its artifacts |
| Filing.CounterCountsCreates | apps/api/app/services/defects/pipeline.py:187-214 | The threaded counter is its start plus the automatic creates whose attachments did not raise and never goes past the cap from below; the rows are the old ones followed by one per classified failure, in order |
| Filing.RowFollowsItsHistory | apps/api/app/routers/defects.py:230-249 | Over every run, a row's key is the last one a filing of it was answered with, and its status the last of those answers and of the rejects |
| Filing.RejectedRowsExactly | apps/api/app/routers/defects.py:242-252 | A row drafted in a run has no issue if and only if no filing of it was ever answered with a key; a rejected row ends applied if and only if an apply was answered after its last reject |
| Filing.RejectedRowKeepsItsIssue | apps/api/app/routers/defects.py:246-249 | From every desk below the cap, a failure filed and then rejected is a rejected row with its issue open |
| Filing.RaisedAttachmentsEscapeTheCap | apps/api/app/services/defects/pipeline.py:195-214 | Below the cap, any number of new fingerprints whose attachment raises opens that many issues and leaves the counter where it was |
| Filing.RecurrencesReuseTheIssue | apps/api/app/services/defects/pipeline.py:176-184 | While a fingerprint's open issue is not closed, every filing of it lands on that issue, no row of it gets another key, and the issue gains exactly one comment per filing that reached the comment |
| Filing.OneIssueEachExactly | apps/api/app/services/defects/pipeline.py:176-197 | In every interleaving of separate searches, creates and filings ended without one that closes nothing, one open issue per fingerprint is kept if and only if no two filings of a fingerprint both missed before either created and then both created |
| Filing.FilingsWithoutSecondCreateKeepOrder | apps/api/app/services/defects/pipeline.py:176-197 | The sufficient half, with issues closed at any time too |
| Filing.TwoCreatesDuplicate | apps/api/app/services/defects/pipeline.py:176-197 | Two filings of a fingerprint that both missed and both create leave two open issues, whatever else interleaves |
| Filing.OverlappingFilingsDuplicate | apps/api/app/services/defects/pipeline.py:176-197 | From any tracker without an open issue of a fingerprint, two overlapping filings of it open two |
| Review.ResolveThenRefs | apps/api/app/services/gates/assertion_gate.py:100-146 | Returns, in order, the text of every entry with no graph-backed fact; disallowed types and empty fields count as none |
| Review.ResolvesExactly | apps/api/app/services/gates/assertion_gate.py:100-146 | An entry resolves if and only if the graph knows one of its references and nothing rules it out before: an edge type of the three and an entity, a key, a fingerprint or url, none of them empty |
| Review.AssertNonVacuous | apps/api/app/services/gates/assertion_gate.py:149-165 | Accepts if and only if the list is not empty and every entry resolves |
| Review.ThenResults | apps/api/app/routers/scenarios.py:102-169 | An entry is shown resolved, with its graph caption, if and only if every entry with its text resolves; otherwise with its reason; with the graph unreachable none is |
| Review.Cited | apps/api/app/routers/scenarios.py:102-112 | The caption of an entry that resolves is the citation of one of the entry's own references |
| Review.CaptionCitesExactly | apps/api/app/routers/scenarios.py:102-112 | An edge or element caption cites a fact of the graph; a page caption cites an unknown page if and only if its given fingerprint is not in the graph (its url resolved), or it has none and its url is not (an empty fingerprint resolved) |
| Review.StaleFingerprintIsCited | apps/api/app/routers/scenarios.py:110-111 | A green entry whose caption cites nothing in the graph |
| Review.DisplayIsHonest | apps/api/app/routers/scenarios.py:130-169 | Green implies the entry's own ref resolves; a non-empty list is all green if and only if the gate accepts it; and exactly which resolving entries are shown red |
| Review.ScenarioStore.constructor | apps/api/app/models/scenario.py:28-29 | The store starts empty |
| Review.ScenarioStore.CreateScenario | apps/api/app/services/scenario_service.py:35-58 | Appends one unedited draft under a new id |
| Review.ScenarioStore.GenerateScenarios | apps/api/app/services/generation.py:357-403 | Stores exactly the drafts of the flows before the first one a gate refuses, in order |
| Review.ScenarioStore.SetStatus | apps/api/app/services/scenario_service.py:75-84 | Writes the status column of a known row if it differs from the loaded one |
| Review.ScenarioStore.UpdateGherkin | apps/api/app/services/scenario_service.py:87-104 | Writes the text, refs, edited and status columns that differ from the loaded row |
| Review.ScenarioStore.ListApproved | apps/api/app/services/scenario_service.py:107-118 | Returns exactly the approved rows of the run, in id order |
| Review.EveryStoredRowIsGated | apps/api/app/routers/scenarios.py:221-269 | Under every interleaving of create, edit, approve, reject and a growing graph, every stored row's text lints and all its refs resolve, so everything approved does |
| Review.OnlyApproveApproves | apps/api/app/routers/scenarios.py:245-258 | A row becomes approved only by the commit of an approve that loaded it unapproved and whose gates passed on what it loaded |
| Review.EditReturnsToDraftExactly | apps/api/app/services/scenario_service.py:87-104 | An edit leaves its row a draft if and only if the row was not loaded as a draft and approved or rejected since |
| Review.ExclusiveRequestsCommitWhatTheyChecked | apps/api/app/routers/scenarios.py:221-269 | If requests on a row open one at a time, then in every reachable queue each session holds its row as it is, an approve commits exactly the text and refs its gates passed, and an edit exactly its own as a draft |
| Review.ContentIsTheLastEdits | apps/api/app/services/scenario_service.py:87-104 | After any interleaving a row's text and refs are what the last committed edit of it left, or the old ones |
| Review.ApprovalCoversExactly | apps/api/app/routers/scenarios.py:250-256 | What an approve leaves approved is what its gates read if and only if no edit of the row committed since it loaded, or the last that did left the same content |
| Review.StaleApproval | apps/api/app/routers/scenarios.py:250-256 | An approve and an edit that loaded the same draft, committed in either order, leave the edited text approved although no approver saw it |
| Review.GatesDecideExactly | apps/api/app/routers/scenarios.py:232-257 | A request reaches its commit if and only if its text lints, it has a Then and every ref resolves; a refused one has changed no row |
| Codegen.SlugShape | apps/api/app/services/codegen/project.py:96-101 | For every feature name, the slug is a non-empty stem, an underscore and the id's decimal form |
| Codegen.SlugCarriesTheId | apps/api/app/services/codegen/project.py:225 | The id is recoverable from what follows the slug's last underscore, so different ids never share a slug |
| Codegen.SlugKeepsTheWords | apps/api/app/services/codegen/project.py:96-101 | A name of two words keeps both in order, with one underscore for whatever stood between them |
| Codegen.FilesAreWhere | apps/api/app/services/codegen/project.py:224-258 | A row's files by their paths: its feature text, with one newline added only where it ends in none, its steps and its data module |
| Codegen.SnakeGivesAName | apps/api/app/services/codegen/project.py:96-101 | Every name is letters, digits and underscores and starts with a letter, whatever the text |
| Codegen.RowKept | apps/api/app/services/codegen/project.py:224-258 | Writing one row's three files leaves the files of every row with another id alone |
| Codegen.GenerateProject | apps/api/app/services/codegen/project.py:149-277 | Refuses an empty approved list; otherwise, if no page-object, scenario or project-wide gate raises, the project holds every row's files with that row's own contents and every project-wide file, and there is no project at all if one does |

## Left out

- Hashes and joins: SHA-256, SHA-1 and the `|` and `,` joins of the skeleton are taken as injective (lines are records, attributes a map); the `|` join of the defect key is modelled as text.
- Filing.RaisedAttachmentsEscapeTheCap: assumes a caller that keeps its old counter when a filing raises, because nothing in the repository outside its tests calls `run_defect_pipeline`.
- Noise.UuidIsAbsorbed: its condition is not shown necessary, because the open uuid before may itself be taken in by an earlier match; `NoiseLimits.UuidAfterOpeningIsCut` shows it needed where it stands alone.
- Noise.TimestampIsAbsorbed: its condition is not shown necessary, because what a tail leaves over may still read alike.
- Noise.NumberIsAbsorbed: its condition is not shown necessary, because a number taken in by a uuid or a timestamp both times reads alike; `NoiseLimits.ZeroBeforeXIsNoNumber` is a family outside it that does not.
- Noise.WhitespaceIsAbsorbed: its condition is not shown necessary, because a timestamp over the space may itself be taken in by an earlier one; `NoiseLimits.SecondSpaceBreaksTimestamp` shows it needed where it stands alone.
- PageMatch.PagesMatchExactly: leaves out pages with a '#' in a kept value, which `PageMatch.MarkIsTakenForANumber` shows to be read as a number, and pages with matching neighbours, which fold; for those the canonical trees of `Fingerprint.FingerprintIdentifiesTemplate` are the exact answer.
- ExploreGraph.WalkingTheGraphIsTheRun: does not bound the number of node visits; the driver sets no recursion limit, so the runtime's own default applies, whose value is not part of this model (`ExploreGraph.RecursionLimitTripsExactly` says what any limit does).
- Lowercasing beyond ASCII in the risk gates, and the urls themselves: urls come already split into scheme, host, path and rest.
- Exceptions inside nodes other than the `int` of `parse_index`, and the retries of the provider: a provider call either answers with usage or fails.
- What persist writes to the knowledge graph, the form probes and the published progress events: they feed nothing back into the crawl.
- Floats and expiry in Redis: meters are whole micro-dollars, counters do not expire inside a run, cache entries may; one price table holds for a call, and a temperature of 0 and 0.0 share a cache key.
- GatewaySafety.BoundedOvershoot: carries the usage a provider reports above its reservation as an explicit term, because nothing in the gateway bounds it; `GatewaySafety.HonestRunHasNoExcess` removes the term under the assumption that replies stay within their reservations.
- Crawl.EachKeyQueuedAndPoppedOnce: assumes that no pop of the run is redirected, because a redirected pop marks another key visited than the one it popped; `Crawl.RedirectedPopIsQueuedAgain` says what that breaks.
- The classifier, the autonomy flag's settings and the containment check on artifact paths: a decision comes with its class, confidence and contained paths.
- Jira beyond search, comment, create, attach and close: issues are not reopened or relabelled from outside, the search lists issues in creation order, and the issue link is best effort and changes nothing here.
- The Gherkin parser is any predicate on texts; the knowledge graph only gains facts; scenario rows are not deleted.
- Page-object names in generated projects: pages with the same title overwrite each other, so no uniqueness holds there. Lowering a feature name is taken to leave the underscore and digits after it alone.
- Routers for listing and dashboards, roles, authentication, the web client, migrations, healing and coverage: easy set facts or plumbing.
