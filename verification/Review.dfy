/** The scenario review queue: the no-vacuous gate, its honest display, and the rows every request interleaves on. */
module Review {
  import opened Common

  // ----- The no-vacuous gate -----

  /** One Then and the graph fact it asserts; absent JSON fields are `None`, an absent kind is "". */
  datatype Entry = Entry(text: string, kind: string, edgeType: Option<string>, entity: Option<string>,
                         elementKey: Option<string>, pageFingerprint: Option<string>, pageUrl: Option<string>)

  /** What the existence queries can see. */
  datatype Graph = Graph(outcomes: set<(string, string)>, elements: set<string>,
                         fingerprints: set<string>, urls: set<string>)

  const ALLOWED_EDGE_TYPES := {"Creates", "Updates", "Deletes"}

  /** Neither null nor the empty string. */
  predicate Given(o: Option<string>) {
    o.Some? && o.value != ""
  }

  predicate Resolves(e: Entry, g: Graph) {
    if e.kind == "edge" then
      e.edgeType.Some? && e.edgeType.value in ALLOWED_EDGE_TYPES && Given(e.entity)
      && (e.edgeType.value, e.entity.value) in g.outcomes
    else if e.kind == "element" then Given(e.elementKey) && e.elementKey.value in g.elements
    else if e.kind == "page" then
      (Given(e.pageFingerprint) || Given(e.pageUrl))
      && ((e.pageFingerprint.Some? && e.pageFingerprint.value in g.fingerprints)
          || (e.pageUrl.Some? && e.pageUrl.value in g.urls))
    else false
  }

  predicate NonVacuous(refs: seq<Entry>, g: Graph) {
    refs != [] && forall e | e in refs :: Resolves(e, g)
  }

  function Unresolved(refs: seq<Entry>, g: Graph): (texts: seq<string>)
    ensures texts == [] <==> forall e | e in refs :: Resolves(e, g)
    ensures forall t :: t in texts <==> exists e :: e in refs && e.text == t && !Resolves(e, g)
  {
    if refs == [] then []
    else
      var n := |refs| - 1;
      var before := Unresolved(refs[..n], g);
      assert forall e :: e in refs <==> e in refs[..n] || e == refs[n];
      if Resolves(refs[n], g) then before
      else
        assert refs[n] in refs && refs[n].text in before + [refs[n].text];
        before + [refs[n].text]
  }

  /** The texts of the entries that resolve to nothing, in order. An entry the allow-list or an empty field rules out
      is never looked up. */
  method ResolveThenRefs(refs: seq<Entry>, g: Graph) returns (unresolved: seq<string>)
    ensures unresolved == Unresolved(refs, g)
  {
    unresolved := [];
    for i := 0 to |refs|
      invariant unresolved == Unresolved(refs[..i], g)
    {
      var e := refs[i];
      assert refs[..i + 1][..i] == refs[..i];
      var ok := false;
      if e.kind == "edge" {
        if e.edgeType.None? || e.edgeType.value !in ALLOWED_EDGE_TYPES || !Given(e.entity) {
          unresolved := unresolved + [e.text];
          continue;
        }
        ok := (e.edgeType.value, e.entity.value) in g.outcomes;
      } else if e.kind == "element" {
        if !Given(e.elementKey) {
          unresolved := unresolved + [e.text];
          continue;
        }
        ok := e.elementKey.value in g.elements;
      } else if e.kind == "page" {
        if !Given(e.pageFingerprint) && !Given(e.pageUrl) {
          unresolved := unresolved + [e.text];
          continue;
        }
        ok := (e.pageFingerprint.Some? && e.pageFingerprint.value in g.fingerprints)
              || (e.pageUrl.Some? && e.pageUrl.value in g.urls);
      } else {
        unresolved := unresolved + [e.text];
        continue;
      }
      if !ok {
        unresolved := unresolved + [e.text];
      }
    }
    assert refs[..|refs|] == refs;
  }

  /** Accepts exactly a non-empty list in which every Then resolves. */
  method AssertNonVacuous(refs: seq<Entry>, g: Graph) returns (accepted: bool)
    ensures accepted <==> NonVacuous(refs, g)
  {
    if refs == [] {
      return false;
    }
    var unresolved := ResolveThenRefs(refs, g);
    return unresolved == [];
  }

  // ----- The honest display -----

  const UNREACHABLE := "knowledge graph unreachable"
  const NOT_FOUND := "ref not found in graph"

  /** A green entry carries a caption of its fact, a red one a reason. */
  datatype Shown = Shown(text: string, resolved: bool, caption: Option<string>, reason: string)

  /** How an f-string prints an optional field. */
  function Printed(o: Option<string>): string {
    if o.Some? then o.value else "None"
  }

  function Caption(e: Entry): Option<string> {
    if e.kind == "edge" then Some(Printed(e.edgeType) + " \U{2192} " + Printed(e.entity))
    else if e.kind == "element" then Some("element: " + Printed(e.elementKey))
    else if e.kind == "page" then
      Some("page: " + Printed(if Given(e.pageFingerprint) then e.pageFingerprint else e.pageUrl))
    else None
  }

  function VacuousReason(e: Entry): string {
    if e.kind !in {"edge", "element", "page"} then "unknown assertion kind"
    else if e.kind == "edge" && !(Given(e.edgeType) && Given(e.entity)) then "no graph-backed outcome"
    else if e.kind == "element" && !Given(e.elementKey) then "no graph-backed outcome"
    else if e.kind == "page" && !(Given(e.pageFingerprint) || Given(e.pageUrl)) then "no graph-backed outcome"
    else NOT_FOUND
  }

  function ShownFor(e: Entry, resolved: bool): Shown {
    if resolved then Shown(e.text, true, Caption(e), "") else Shown(e.text, false, None, VacuousReason(e))
  }

  /** No entry with the i-th entry's text is unresolved. */
  predicate Green(refs: seq<Entry>, g: Graph, i: nat)
    requires i < |refs|
  {
    forall e | e in refs && e.text == refs[i].text :: Resolves(e, g)
  }

  lemma GreenIsListed(refs: seq<Entry>, g: Graph, i: nat)
    requires i < |refs|
    ensures Green(refs, g, i) <==> refs[i].text !in Unresolved(refs, g)
  {
    hide Resolves;
  }

  /** What the reader is shown: an entry is green when no entry with its text is unresolved; with the graph
      unreachable (`None`) nothing is green. */
  method ThenResults(refs: seq<Entry>, graph: Option<Graph>) returns (results: seq<Shown>)
    ensures |results| == |refs|
    ensures graph.None? ==> forall i | 0 <= i < |refs| :: results[i] == Shown(refs[i].text, false, None, UNREACHABLE)
    ensures graph.Some? ==> forall i | 0 <= i < |refs| :: results[i] == ShownFor(refs[i], Green(refs, graph.value, i))
  {
    hide Green;
    hide Unresolved;
    hide VacuousReason;
    hide Caption;
    results := [];
    if graph.None? {
      for i := 0 to |refs|
        invariant |results| == i
        invariant forall j | 0 <= j < i :: results[j] == Shown(refs[j].text, false, None, UNREACHABLE)
      {
        results := results + [Shown(refs[i].text, false, None, UNREACHABLE)];
      }
      return;
    }
    var unresolved := ResolveThenRefs(refs, graph.value);
    for i := 0 to |refs|
      invariant |results| == i
      invariant forall j | 0 <= j < i :: results[j] == ShownFor(refs[j], Green(refs, graph.value, j))
    {
      GreenIsListed(refs, graph.value, i);
      if refs[i].text in unresolved {
        results := results + [Shown(refs[i].text, false, None, VacuousReason(refs[i]))];
      } else {
        results := results + [Shown(refs[i].text, true, Caption(refs[i]), "")];
      }
    }
  }

  lemma AllGreenIffAccepted(refs: seq<Entry>, g: Graph)
    ensures (forall i | 0 <= i < |refs| :: Green(refs, g, i)) <==> forall e | e in refs :: Resolves(e, g)
  {
    hide Resolves;
    if forall i | 0 <= i < |refs| :: Green(refs, g, i) {
      forall e | e in refs ensures Resolves(e, g) {
        var i :| 0 <= i < |refs| && refs[i] == e;
        assert Green(refs, g, i);
      }
    }
  }

  /** A fact of the graph an entry can be resolved by or a caption can cite. */
  datatype Fact =
    | Outcome(edgeType: string, entity: string)
    | KeyOf(element: string)
    | PageOf(fingerprint: string)
    | PageAt(url: string)

  predicate Known(f: Fact, g: Graph) {
    match f
    case Outcome(edgeType, entity) => (edgeType, entity) in g.outcomes
    case KeyOf(element) => element in g.elements
    case PageOf(fingerprint) => fingerprint in g.fingerprints
    case PageAt(url) => url in g.urls
  }

  /** The references an entry of its kind carries; one known reference resolves it. */
  function References(e: Entry): set<Fact> {
    if e.kind == "edge" then
      (if e.edgeType.Some? && e.entity.Some? then {Outcome(e.edgeType.value, e.entity.value)} else {})
    else if e.kind == "element" then (if e.elementKey.Some? then {KeyOf(e.elementKey.value)} else {})
    else if e.kind == "page" then
      (if e.pageFingerprint.Some? then {PageOf(e.pageFingerprint.value)} else {})
      + (if e.pageUrl.Some? then {PageAt(e.pageUrl.value)} else {})
    else {}
  }

  /** Nothing rules the entry out before the lookup: an edge type of the three, and no empty field to look up. */
  predicate MayBeLookedUp(e: Entry) {
    match e.kind
    case "edge" =>
      (e.edgeType == Some("Creates") || e.edgeType == Some("Updates") || e.edgeType == Some("Deletes"))
      && e.entity != Some("")
    case "element" => e.elementKey != Some("")
    case _ => exists o | o in {e.pageFingerprint, e.pageUrl} :: o.Some? && o.value != ""
  }

  /** Main result: an entry resolves if and only if nothing rules it out and the graph knows one of its references. */
  lemma ResolvesExactly(e: Entry, g: Graph)
    ensures Resolves(e, g) <==> MayBeLookedUp(e) && exists f | f in References(e) :: Known(f, g)
  {
    if Resolves(e, g) {
      var f := if e.kind == "edge" then Outcome(e.edgeType.value, e.entity.value)
               else if e.kind == "element" then KeyOf(e.elementKey.value)
               else if e.pageFingerprint.Some? && e.pageFingerprint.value in g.fingerprints
               then PageOf(e.pageFingerprint.value)
               else PageAt(e.pageUrl.value);
      assert f in References(e) && Known(f, g);
    }
  }

  function Cite(f: Fact): string {
    match f
    case Outcome(edgeType, entity) => edgeType + " \U{2192} " + entity
    case KeyOf(element) => "element: " + element
    case PageOf(fingerprint) => "page: " + fingerprint
    case PageAt(url) => "page: " + url
  }

  /** The reference whose citation an entry that resolves is shown with. */
  function Cited(e: Entry, g: Graph): (f: Fact)
    requires Resolves(e, g)
    ensures f in References(e) && Caption(e) == Some(Cite(f))
  {
    if e.kind == "edge" then Outcome(e.edgeType.value, e.entity.value)
    else if e.kind == "element" then KeyOf(e.elementKey.value)
    else if Given(e.pageFingerprint) then PageOf(e.pageFingerprint.value)
    else PageAt(e.pageUrl.value)
  }

  /** Main result: an entry that resolves has a known reference. An edge or element caption cites it. A page caption
      cites
      the fingerprint whenever one is given, and so cites an unknown page exactly when that fingerprint is not in the
      graph; then it was the url that resolved. Without a fingerprint it cites the url, which is unknown exactly when a
      page with an empty fingerprint resolved it. */
  lemma CaptionCitesExactly(e: Entry, g: Graph)
    ensures Resolves(e, g) ==>
              && (exists f :: f in References(e) && Known(f, g))
              && (e.kind != "page" ==> Known(Cited(e, g), g))
              && (e.kind == "page" && Given(e.pageFingerprint) ==>
                    && (Known(Cited(e, g), g) <==> e.pageFingerprint.value in g.fingerprints)
                    && (!Known(Cited(e, g), g) ==> e.pageUrl.Some? && Known(PageAt(e.pageUrl.value), g)))
              && (e.kind == "page" && !Given(e.pageFingerprint) ==>
                    && (Known(Cited(e, g), g) <==> e.pageUrl.value in g.urls)
                    && (!Known(Cited(e, g), g) ==> e.pageFingerprint == Some("") && Known(PageOf(""), g)))
  {
    if Resolves(e, g) {
      var f := Cited(e, g);
      assert f in References(e);
      if !Known(f, g) {
        var other := if Given(e.pageFingerprint) then PageAt(e.pageUrl.value) else PageOf("");
        assert other in References(e) && Known(other, g);
      }
    }
  }

  /** A green entry whose caption names nothing in the graph: its url is known and its fingerprint is not. */
  lemma StaleFingerprintIsCited() returns (e: Entry, g: Graph)
    ensures Green([e], g, 0) && Caption(e) == Some("page: stale")
    ensures forall f :: f in References(e) && Cite(f) == "page: stale" ==> !Known(f, g)
  {
    e := Entry("t", "page", None, None, None, Some("stale"), Some("u"));
    g := Graph({}, {}, {}, {"u"});
    assert Resolves(e, g);
    assert "page: " + "stale" == "page: stale";
    assert "page: u"[6] != "page: stale"[6];
  }

  lemma ResolvingReason(e: Entry, g: Graph)
    ensures Resolves(e, g) ==> VacuousReason(e) == NOT_FOUND
  {}

  /** Main result: green is honest even with repeated texts, and a non-empty list is all green exactly when the gate
      accepts it. An entry that resolves is shown red exactly when it shares its text with one that does not, and the
      reason given is then "not found" although its own fact is there. */
  lemma DisplayIsHonest(refs: seq<Entry>, g: Graph)
    ensures forall i | 0 <= i < |refs| && Green(refs, g, i) :: Resolves(refs[i], g)
    ensures refs != [] ==> ((forall i | 0 <= i < |refs| :: Green(refs, g, i)) <==> NonVacuous(refs, g))
    ensures forall i | 0 <= i < |refs| && Resolves(refs[i], g) ::
              && (!Green(refs, g, i) <==>
                    exists j | 0 <= j < |refs| :: refs[j].text == refs[i].text && !Resolves(refs[j], g))
              && ShownFor(refs[i], false).reason == NOT_FOUND
  {
    AllGreenIffAccepted(refs, g);
    forall i | 0 <= i < |refs| ensures Resolves(refs[i], g) ==> ShownFor(refs[i], false).reason == NOT_FOUND {
      ResolvingReason(refs[i], g);
    }
    hide Resolves;
    hide VacuousReason;
  }

  // ----- The rows -----

  datatype Status = Draft | Approved | Rejected

  /** A scenario row; its id is its position. */
  datatype Row = Row(runId: string, flowId: string, feature: string, text: string, refs: seq<Entry>,
                     status: Status, edited: bool, stale: bool)

  /** One column of an UPDATE: the ORM writes it only where the wanted value differs from the value it loaded. */
  function Column<T(==)>(current: T, loaded: T, wanted: T): T {
    if wanted != loaded then wanted else current
  }

  function Written(current: Row, loaded: Row, wanted: Row): Row {
    current.(text := Column(current.text, loaded.text, wanted.text),
             refs := Column(current.refs, loaded.refs, wanted.refs),
             status := Column(current.status, loaded.status, wanted.status),
             edited := Column(current.edited, loaded.edited, wanted.edited))
  }

  function WithEdit(loaded: Row, text: string, refs: seq<Entry>): Row {
    loaded.(text := text, refs := refs, edited := true, status := Draft)
  }

  /** What generation drafted for one flow. */
  datatype Flow = Flow(id: string, feature: string, text: string, refs: seq<Entry>)

  predicate FlowPasses(flow: Flow, g: Graph, lint: string -> bool) {
    lint(flow.text) && NonVacuous(flow.refs, g)
  }

  function DraftOf(runId: string, flow: Flow): Row {
    Row(runId, flow.id, flow.feature, flow.text, flow.refs, Draft, false, false)
  }

  class ScenarioStore {
    var rows: seq<Row>

    constructor ()
      ensures rows == []
    {
      rows := [];
    }

    method CreateScenario(runId: string, flowId: string, feature: string, text: string, refs: seq<Entry>)
      returns (id: nat)
      modifies this
      ensures id == |old(rows)| && rows == old(rows) + [Row(runId, flowId, feature, text, refs, Draft, false, false)]
    {
      id := |rows|;
      rows := rows + [Row(runId, flowId, feature, text, refs, Draft, false, false)];
    }

    /** Flow by flow: gates, then a committed draft. The source says a failing gate writes nothing; the drafts of the
        flows before it stay. */
    method GenerateScenarios(runId: string, flows: seq<Flow>, g: Graph, lint: string -> bool)
      returns (created: seq<nat>, failed: bool)
      modifies this
      ensures |created| <= |flows| && |rows| == |old(rows)| + |created| && old(rows) <= rows
      ensures forall i | 0 <= i < |created| ::
                && created[i] == |old(rows)| + i && FlowPasses(flows[i], g, lint)
                && rows[|old(rows)| + i] == DraftOf(runId, flows[i])
      ensures failed <==> |created| < |flows|
      ensures failed ==> !FlowPasses(flows[|created|], g, lint)
    {
      created := [];
      while |created| < |flows|
        invariant |created| <= |flows| && |rows| == |old(rows)| + |created| && old(rows) <= rows
        invariant forall i | 0 <= i < |created| ::
                    && created[i] == |old(rows)| + i && FlowPasses(flows[i], g, lint)
                    && rows[|old(rows)| + i] == DraftOf(runId, flows[i])
        decreases |flows| - |created|
      {
        var flow := flows[|created|];
        if !lint(flow.text) {
          return created, true;
        }
        var accepted := AssertNonVacuous(flow.refs, g);
        if !accepted {
          return created, true;
        }
        var id := CreateScenario(runId, flow.id, flow.feature, flow.text, flow.refs);
        created := created + [id];
      }
      return created, false;
    }

    /** `loaded` is the row as this request's session holds it. */
    method SetStatus(id: nat, loaded: Row, status: Status) returns (found: bool)
      modifies this
      ensures found <==> id < |old(rows)|
      ensures rows == if !found then old(rows)
                      else old(rows)[id := Written(old(rows)[id], loaded, loaded.(status := status))]
    {
      if id >= |rows| {
        return false;
      }
      if status != loaded.status {
        rows := rows[id := rows[id].(status := status)];
      }
      return true;
    }

    method UpdateGherkin(id: nat, loaded: Row, text: string, refs: seq<Entry>) returns (found: bool)
      modifies this
      ensures found <==> id < |old(rows)|
      ensures rows == if !found then old(rows)
                      else old(rows)[id := Written(old(rows)[id], loaded, WithEdit(loaded, text, refs))]
    {
      if id >= |rows| {
        return false;
      }
      var row := rows[id];
      if text != loaded.text {
        row := row.(text := text);
      }
      if refs != loaded.refs {
        row := row.(refs := refs);
      }
      if !loaded.edited {
        row := row.(edited := true);
      }
      if loaded.status != Draft {
        row := row.(status := Draft);
      }
      rows := rows[id := row];
      return true;
    }

    /** The only rows code generation reads, in id order. */
    method ListApproved(runId: string) returns (ids: seq<nat>)
      ensures forall i :: i in ids <==> 0 <= i < |rows| && rows[i].runId == runId && rows[i].status == Approved
      ensures forall a, b | 0 <= a < b < |ids| :: ids[a] < ids[b]
    {
      ids := [];
      for i := 0 to |rows|
        invariant forall j :: j in ids <==> 0 <= j < i && rows[j].runId == runId && rows[j].status == Approved
        invariant forall a, b | 0 <= a < b < |ids| :: ids[a] < ids[b]
      {
        if rows[i].runId == runId && rows[i].status == Approved {
          assert forall a | 0 <= a < |ids| :: ids[a] in ids;
          ids := ids + [i];
        }
      }
    }
  }

  // ----- Requests, check and commit interleaved -----

  datatype Request =
    | Generate(runId: string, flowId: string, feature: string, text: string, refs: seq<Entry>)
    | Edit(row: nat, newText: string, newRefs: seq<Entry>)
    | Approve(row: nat)
    | Reject(row: nat)

  /** A request past its lint: the row its session holds (unused by `Generate`) and how many refs it has looked up. */
  datatype Session = Session(request: Request, loaded: Row, read: nat)

  datatype Queue = Queue(graph: Graph, rows: seq<Row>, sessions: map<nat, Session>)

  datatype Event =
    | Open(id: nat, request: Request)
    | Reload(id: nat) // the session dropped its row and selects it again
    | Look(id: nat) // one existence query
    | Commit(id: nat)
    | Discover(more: Graph) // the crawler adds facts

  const BLANK := Row("", "", "", "", [], Draft, false, false)

  function CheckedText(s: Session): string {
    match s.request
    case Generate(_, _, _, text, _) => text
    case Edit(_, text, _) => text
    case _ => s.loaded.text
  }

  function CheckedRefs(s: Session): seq<Entry> {
    match s.request
    case Generate(_, _, _, _, refs) => refs
    case Edit(_, _, refs) => refs
    case _ => s.loaded.refs
  }

  predicate Gated(r: Request) {
    !r.Reject?
  }

  predicate Accepted(s: Session) {
    Gated(s.request) ==> s.read == |CheckedRefs(s)|
  }

  function Union(g: Graph, h: Graph): Graph {
    Graph(g.outcomes + h.outcomes, g.elements + h.elements, g.fingerprints + h.fingerprints, g.urls + h.urls)
  }

  function Committed(rows: seq<Row>, s: Session): seq<Row> {
    match s.request
    case Generate(runId, flowId, feature, text, refs) =>
      rows + [Row(runId, flowId, feature, text, refs, Draft, false, false)]
    case Edit(i, text, refs) =>
      if i < |rows| then rows[i := Written(rows[i], s.loaded, WithEdit(s.loaded, text, refs))] else rows
    case Approve(i) => if i < |rows| then rows[i := Written(rows[i], s.loaded, s.loaded.(status := Approved))] else rows
    case Reject(i) => if i < |rows| then rows[i := Written(rows[i], s.loaded, s.loaded.(status := Rejected))] else rows
  }

  /** One step; `lint` is the Gherkin parser's verdict on a text. A refused request leaves no session. */
  function Step(q: Queue, e: Event, lint: string -> bool): Queue {
    match e
    case Open(id, request) =>
      if id in q.sessions || (!request.Generate? && request.row >= |q.rows|) then q
      else
        var s := Session(request, if request.Generate? then BLANK else q.rows[request.row], 0);
        if Gated(request) && (!lint(CheckedText(s)) || CheckedRefs(s) == []) then q
        else q.(sessions := q.sessions[id := s])
    case Reload(id) =>
      if id in q.sessions && (q.sessions[id].request.Edit? || q.sessions[id].request.Reject?)
         && q.sessions[id].request.row < |q.rows|
      then q.(sessions := q.sessions[id := q.sessions[id].(loaded := q.rows[q.sessions[id].request.row])])
      else q
    case Look(id) =>
      if id !in q.sessions || Accepted(q.sessions[id]) || q.sessions[id].read >= |CheckedRefs(q.sessions[id])| then q
      else
        var s := q.sessions[id];
        if Resolves(CheckedRefs(s)[s.read], q.graph) then q.(sessions := q.sessions[id := s.(read := s.read + 1)])
        else q.(sessions := q.sessions - {id})
    case Commit(id) =>
      if id !in q.sessions || !Accepted(q.sessions[id]) then q
      else q.(rows := Committed(q.rows, q.sessions[id]), sessions := q.sessions - {id})
    case Discover(more) => q.(graph := Union(q.graph, more))
  }

  function Exec(q: Queue, es: seq<Event>, lint: string -> bool): Queue
    decreases |es|
  {
    if es == [] then q else Exec(Step(q, es[0], lint), es[1..], lint)
  }

  // ----- Every stored row passed both gates -----

  predicate Sound(row: Row, g: Graph, lint: string -> bool) {
    lint(row.text) && NonVacuous(row.refs, g)
  }

  predicate SessionSound(s: Session, g: Graph, lint: string -> bool) {
    && (!s.request.Generate? ==> Sound(s.loaded, g, lint))
    && (Gated(s.request) ==>
          lint(CheckedText(s)) && CheckedRefs(s) != [] && s.read <= |CheckedRefs(s)|
          && forall i | 0 <= i < s.read :: Resolves(CheckedRefs(s)[i], g))
  }

  predicate QueueSound(q: Queue, lint: string -> bool) {
    && (forall row | row in q.rows :: Sound(row, q.graph, lint))
    && (forall id | id in q.sessions :: SessionSound(q.sessions[id], q.graph, lint))
  }

  lemma ResolvesGrows(e: Entry, g: Graph, h: Graph)
    ensures Resolves(e, g) ==> Resolves(e, Union(g, h))
  {}

  lemma CommitIsSound(rows: seq<Row>, s: Session, g: Graph, lint: string -> bool)
    requires forall row | row in rows :: Sound(row, g, lint)
    requires SessionSound(s, g, lint) && Accepted(s)
    ensures forall row | row in Committed(rows, s) :: Sound(row, g, lint)
  {
    if Gated(s.request) {
      forall e | e in CheckedRefs(s) ensures Resolves(e, g) {
        var i :| 0 <= i < |CheckedRefs(s)| && CheckedRefs(s)[i] == e;
      }
    }
    if !s.request.Generate? && s.request.row < |rows| {
      assert rows[s.request.row] in rows;
    }
  }

  lemma StepStaysSound(q: Queue, e: Event, lint: string -> bool)
    requires QueueSound(q, lint)
    ensures QueueSound(Step(q, e, lint), lint)
  {
    hide Resolves;
    hide Committed;
    var t := Step(q, e, lint);
    match e
    case Open(id, request) =>
      if !request.Generate? && request.row < |q.rows| {
        assert q.rows[request.row] in q.rows;
      }
    case Reload(id) =>
      if id in q.sessions && !q.sessions[id].request.Generate? && q.sessions[id].request.row < |q.rows| {
        assert q.rows[q.sessions[id].request.row] in q.rows;
      }
    case Look(id) =>
    case Commit(id) =>
      if id in q.sessions && Accepted(q.sessions[id]) {
        CommitIsSound(q.rows, q.sessions[id], q.graph, lint);
      }
    case Discover(more) =>
      forall entry: Entry ensures Resolves(entry, q.graph) ==> Resolves(entry, t.graph) {
        ResolvesGrows(entry, q.graph, more);
      }
  }

  /** Main result: in every interleaving of creates, edits, approves, rejects and discoveries, with checks and commits
      as separate steps and columns written one by one, every stored row's text lints and all its refs resolve now;
      so everything code generation is given does. */
  lemma {:induction false} EveryStoredRowIsGated(q: Queue, es: seq<Event>, lint: string -> bool)
    requires QueueSound(q, lint)
    ensures var t := Exec(q, es, lint);
            && QueueSound(t, lint)
            && forall row | row in t.rows && row.status == Approved :: lint(row.text) && NonVacuous(row.refs, t.graph)
    decreases |es|
  {
    if es != [] {
      StepStaysSound(q, es[0], lint);
      hide Step;
      EveryStoredRowIsGated(Step(q, es[0], lint), es[1..], lint);
    }
  }

  // ----- What an approval covers -----

  /** A row becomes approved only when an approve request commits that loaded it unapproved and whose two gates passed
      on what it loaded. */
  lemma OnlyApproveApproves(q: Queue, e: Event, lint: string -> bool, i: nat)
    requires QueueSound(q, lint)
    requires i < |Step(q, e, lint).rows| && Step(q, e, lint).rows[i].status == Approved
    requires i < |q.rows| ==> q.rows[i].status != Approved
    ensures e.Commit? && e.id in q.sessions && q.sessions[e.id].request == Approve(i) && i < |q.rows|
    ensures var s := q.sessions[e.id];
            Sound(s.loaded, q.graph, lint) && s.loaded.status != Approved && Accepted(s)
    ensures Step(q, e, lint).rows[i] == q.rows[i].(status := Approved)
  {}

  /** An edit is meant to send its row back to draft. It does exactly when the row was not loaded as a draft that
      another request has since approved or rejected. */
  lemma EditReturnsToDraftExactly(rows: seq<Row>, s: Session, i: nat)
    requires s.request.Edit? && s.request.row == i < |rows|
    ensures Committed(rows, s)[i].status == Draft <==> !(s.loaded.status == Draft && rows[i].status != Draft)
    ensures Committed(rows, s)[i].text == s.request.newText
            <==> s.request.newText != s.loaded.text || rows[i].text == s.loaded.text
  {}

  // ----- One session per row at a time -----

  /** A request on a row opens only while no other request on that row is between its load and its commit. */
  predicate OpensAlone(q: Queue, e: Event) {
    e.Open? && !e.request.Generate? ==>
      forall id | id in q.sessions && !q.sessions[id].request.Generate? :: q.sessions[id].request.row != e.request.row
  }

  predicate Exclusive(q: Queue, es: seq<Event>, lint: string -> bool)
    decreases |es|
  {
    es == [] || (OpensAlone(q, es[0]) && Exclusive(Step(q, es[0], lint), es[1..], lint))
  }

  /** Every session on a row holds that row as it is, and no two are on the same row. */
  predicate Current(q: Queue) {
    && (forall id | id in q.sessions && !q.sessions[id].request.Generate? ::
          q.sessions[id].request.row < |q.rows| && q.sessions[id].loaded == q.rows[q.sessions[id].request.row])
    && (forall a, b | a in q.sessions && b in q.sessions
                      && !q.sessions[a].request.Generate? && !q.sessions[b].request.Generate?
                      && q.sessions[a].request.row == q.sessions[b].request.row :: a == b)
  }

  /** The same rows, and no session that was not there with the same request and row. */
  lemma FewerStayCurrent(q: Queue, t: Queue)
    requires Current(q) && t.rows == q.rows && t.sessions.Keys <= q.sessions.Keys
    requires forall id | id in t.sessions ::
               t.sessions[id].request == q.sessions[id].request && t.sessions[id].loaded == q.sessions[id].loaded
    ensures Current(t)
  {}

  lemma OpenStaysCurrent(q: Queue, id: nat, s: Session)
    requires Current(q) && id !in q.sessions && OpensAlone(q, Open(id, s.request))
    requires !s.request.Generate? ==> s.request.row < |q.rows| && s.loaded == q.rows[s.request.row]
    ensures Current(q.(sessions := q.sessions[id := s]))
  {}

  lemma CommitStaysCurrent(q: Queue, id: nat)
    requires Current(q) && id in q.sessions
    ensures Current(q.(rows := Committed(q.rows, q.sessions[id]), sessions := q.sessions - {id}))
  {
    hide Written;
    hide WithEdit;
  }

  lemma StepStaysCurrent(q: Queue, e: Event, lint: string -> bool)
    requires Current(q) && OpensAlone(q, e)
    ensures Current(Step(q, e, lint))
  {
    hide Resolves;
    hide Committed;
    hide CheckedText;
    hide CheckedRefs;
    var t := Step(q, e, lint);
    if t.rows == q.rows && t.sessions.Keys <= q.sessions.Keys {
      StepKeepsLoaded(q, e, lint);
      FewerStayCurrent(q, t);
    } else if e.Open? {
      OpenStaysCurrent(q, e.id, Session(e.request, if e.request.Generate? then BLANK else q.rows[e.request.row], 0));
    } else {
      CommitStaysCurrent(q, e.id);
    }
  }

  lemma StepKeepsLoaded(q: Queue, e: Event, lint: string -> bool)
    requires Current(q)
    ensures var t := Step(q, e, lint);
            forall id | id in t.sessions && id in q.sessions ::
              t.sessions[id].request == q.sessions[id].request && t.sessions[id].loaded == q.sessions[id].loaded
  {
    hide Resolves;
    hide Committed;
    hide CheckedText;
    hide CheckedRefs;
  }

  /** What committing a session on a current row leaves there: an approve, exactly the text and refs its gates
      passed; an
      edit, exactly its own, as a draft. */
  predicate CommitsAsChecked(rows: seq<Row>, s: Session) {
    match s.request
    case Generate(_, _, _, _, _) => true
    case Approve(i) => i < |rows| && Committed(rows, s)[i] == s.loaded.(status := Approved)
    case Edit(i, text, refs) => i < |rows| && Committed(rows, s)[i] == WithEdit(s.loaded, text, refs)
    case Reject(i) => i < |rows| && Committed(rows, s)[i] == s.loaded.(status := Rejected)
  }

  lemma CurrentCommitsAsChecked(q: Queue, id: nat)
    requires Current(q) && id in q.sessions
    ensures CommitsAsChecked(q.rows, q.sessions[id])
  {}

  /** Main result: if requests on a row open one at a time, then in every reachable queue whatever is committed is what
      was checked: an approved row has the text and refs the approver's gates passed, and an edited one is a draft. */
  lemma {:induction false} ExclusiveRequestsCommitWhatTheyChecked(q: Queue, es: seq<Event>, lint: string -> bool)
    requires Current(q)
    ensures Exclusive(q, es, lint) ==>
              var t := Exec(q, es, lint);
              Current(t) && forall id | id in t.sessions :: CommitsAsChecked(t.rows, t.sessions[id])
    decreases |es|
  {
    hide Step;
    hide CommitsAsChecked;
    if es == [] {
      forall id | id in q.sessions ensures CommitsAsChecked(q.rows, q.sessions[id]) {
        CurrentCommitsAsChecked(q, id);
      }
    } else if OpensAlone(q, es[0]) {
      StepStaysCurrent(q, es[0], lint);
      ExclusiveRequestsCommitWhatTheyChecked(Step(q, es[0], lint), es[1..], lint);
    }
  }

  // ----- What overlapping requests leave -----

  /** The text and refs of a row. */
  function Content(row: Row): (string, seq<Entry>) {
    (row.text, row.refs)
  }

  /** The event commits an edit of row `i`. */
  predicate CommitsEdit(q: Queue, e: Event, i: nat) {
    && e.Commit? && e.id in q.sessions && Accepted(q.sessions[e.id])
    && q.sessions[e.id].request.Edit? && q.sessions[e.id].request.row == i
  }

  /** The content the last committed edit of row `i` left, if the run commits any. */
  function LastEdit(q: Queue, es: seq<Event>, i: nat, lint: string -> bool): Option<(string, seq<Entry>)>
    decreases |es|
  {
    if es == [] then None
    else
      var t := Step(q, es[0], lint);
      var later := LastEdit(t, es[1..], i, lint);
      if later.Some? then later
      else if CommitsEdit(q, es[0], i) && i < |t.rows| then Some(Content(t.rows[i]))
      else None
  }

  lemma OnlyEditsChangeContent(q: Queue, e: Event, i: nat, lint: string -> bool)
    requires i < |q.rows|
    ensures i < |Step(q, e, lint).rows|
    ensures !CommitsEdit(q, e, i) ==> Content(Step(q, e, lint).rows[i]) == Content(q.rows[i])
  {
    hide Resolves;
  }

  lemma {:induction false} ContentIsTheLastEdits(q: Queue, es: seq<Event>, i: nat, lint: string -> bool)
    requires i < |q.rows|
    ensures var t, last := Exec(q, es, lint), LastEdit(q, es, i, lint);
            i < |t.rows| && Content(t.rows[i]) == if last.Some? then last.value else Content(q.rows[i])
    decreases |es|
  {
    hide Step;
    if es != [] {
      OnlyEditsChangeContent(q, es[0], i, lint);
      hide CommitsEdit;
      ContentIsTheLastEdits(Step(q, es[0], lint), es[1..], i, lint);
    }
  }

  /** Main result: an approve that loaded row `i` as it was in `q` and commits after the run `es` approves exactly the
      content its gates read if and only if no edit of that row committed in between, or the last that did left the
      same content again. */
  lemma ApprovalCoversExactly(q: Queue, es: seq<Event>, a: nat, i: nat, lint: string -> bool)
    requires i < |q.rows|
    ensures var t, last := Exec(q, es, lint), LastEdit(q, es, i, lint);
            a in t.sessions && Accepted(t.sessions[a])
            && t.sessions[a].request == Approve(i) && t.sessions[a].loaded == q.rows[i] ==>
              var rows := Step(t, Commit(a), lint).rows;
              i < |rows| && (Content(rows[i]) == Content(q.rows[i]) <==> last.None? || last.value == Content(q.rows[i]))
  {
    var t := Exec(q, es, lint);
    ContentIsTheLastEdits(q, es, i, lint);
    hide Exec;
    hide LastEdit;
    OnlyEditsChangeContent(t, Commit(a), i, lint);
    hide Step;
  }

  /** Overlapping sessions break both: an approval and an edit that both loaded the same draft, in either commit
      order, leave the row
      approved with the edited text and refs, which no approver saw. */
  lemma StaleApproval(q: Queue, a: nat, b: nat, i: nat, lint: string -> bool)
    requires a in q.sessions && b in q.sessions && a != b && i < |q.rows| && q.rows[i].status == Draft
    requires q.sessions[a] == Session(Approve(i), q.rows[i], |q.rows[i].refs|)
    requires q.sessions[b].request.Edit? && q.sessions[b].request.row == i && q.sessions[b].loaded == q.rows[i]
    requires q.sessions[b].read == |q.sessions[b].request.newRefs|
    ensures var r := q.sessions[b].request;
            var row := q.rows[i].(text := r.newText, refs := r.newRefs, edited := true, status := Approved);
            && Exec(q, [Commit(b), Commit(a)], lint).rows == q.rows[i := row]
            && Exec(q, [Commit(a), Commit(b)], lint).rows == q.rows[i := row]
  {
    var s, t := Step(q, Commit(b), lint), Step(q, Commit(a), lint);
    assert Exec(s, [Commit(a)], lint) == Step(s, Commit(a), lint);
    assert Exec(t, [Commit(b)], lint) == Step(t, Commit(b), lint);
  }

  // ----- The gates decide exactly -----

  function Looks(id: nat, n: nat): seq<Event> {
    seq(n, _ => Look(id))
  }

  predicate RestResolves(s: Session, g: Graph) {
    forall i | s.read <= i < |CheckedRefs(s)| :: Resolves(CheckedRefs(s)[i], g)
  }

  lemma {:induction false} LooksDecide(q: Queue, id: nat, lint: string -> bool, n: nat)
    requires id in q.sessions ==>
               Gated(q.sessions[id].request) && q.sessions[id].read + n == |CheckedRefs(q.sessions[id])|
    ensures var t := Exec(q, Looks(id, n), lint);
            && t.rows == q.rows && t.graph == q.graph
            && (id in t.sessions <==> id in q.sessions && RestResolves(q.sessions[id], q.graph))
            && (id in t.sessions ==> t.sessions[id] == q.sessions[id].(read := |CheckedRefs(q.sessions[id])|))
    decreases n
  {
    if n == 0 {
      assert Looks(id, 0) == [];
    } else {
      var t := Step(q, Look(id), lint);
      assert Looks(id, n)[0] == Look(id) && Looks(id, n)[1..] == Looks(id, n - 1);
      LooksDecide(t, id, lint, n - 1);
    }
  }

  /** Main result: left alone, a request reaches its commit exactly when its text lints, it has at least one Then and
      every ref resolves; a refused one has changed no row. */
  lemma GatesDecideExactly(q: Queue, id: nat, request: Request, lint: string -> bool, refs: seq<Entry>, text: string)
    requires id !in q.sessions && Gated(request) && (!request.Generate? ==> request.row < |q.rows|)
    requires var s := Session(request, if request.Generate? then BLANK else q.rows[request.row], 0);
             refs == CheckedRefs(s) && text == CheckedText(s)
    ensures var t := Exec(q, [Open(id, request)] + Looks(id, |refs|), lint);
            && t.rows == q.rows
            && (id in t.sessions <==> lint(text) && NonVacuous(refs, q.graph))
            && (id in t.sessions ==> Accepted(t.sessions[id]))
  {
    var t := Step(q, Open(id, request), lint);
    assert ([Open(id, request)] + Looks(id, |refs|))[1..] == Looks(id, |refs|);
    LooksDecide(t, id, lint, |refs|);
    if id in t.sessions {
      assert RestResolves(t.sessions[id], t.graph) <==> NonVacuous(refs, q.graph) by {
        hide Resolves;
      }
    }
  }
}
