/** Menu enumeration, url identity, and the deterministic gates an action passes before it runs. */
module Actions {
  import opened Common

  /** A split url; `rest` is the query and fragment. */
  datatype Url = Url(scheme: string, netloc: string, path: string, rest: string)

  /** An interactable element: unreadable ones time out or raise while being described. */
  datatype Element =
    | Unreadable
    | Element(role: string, innerText: string, ariaLabel: string, href: Option<Url>)

  datatype Entry = Entry(index: nat, role: string, text: string, confirmText: string, url: Option<Url>)

  datatype Candidate = Candidate(key: Url, url: Url, text: string)

  function TrimSlashes(path: string): string {
    if path != "" && path[|path| - 1] == '/' then TrimSlashes(path[..|path| - 1]) else path
  }

  /** Url identity for the frontier: scheme, host and path, without query and fragment. */
  function PageKey(u: Url): Url {
    var p := TrimSlashes(u.path);
    Url(u.scheme, u.netloc, if p == "" then "/" else p, "")
  }

  predicate SameOrigin(u: Url, base: Url) {
    u.scheme == base.scheme && u.netloc == base.netloc
  }

  // ----- Gates -----

  const DENY_VERBS: set<string> :=
    {"delete", "remove", "destroy", "send", "pay", "purchase", "checkout", "submit order", "place order",
     "logout", "sign out", "cancel subscription", "deactivate", "wipe", "reset"}

  function Lower(s: string): string {
    if s == "" then ""
    else [if 'A' <= s[0] <= 'Z' then s[0] - 'A' + 'a' else s[0]] + Lower(s[1..])
  }

  predicate Contains(s: string, part: string) {
    exists i | 0 <= i <= |s| :: part <= s[i..]
  }

  predicate IsDestructive(e: Entry, sandbox: bool) {
    !sandbox && exists verb | verb in DENY_VERBS :: Contains(Lower(e.text + " " + e.confirmText), verb)
  }

  function Origin(u: Url): Option<(string, string)> {
    if u.scheme == "" || u.netloc == "" then None else Some((Lower(u.scheme), Lower(u.netloc)))
  }

  predicate IsOffOrigin(u: Url, allowlist: seq<Url>) {
    Origin(u).None? || forall a | a in allowlist :: Origin(a) != Origin(u)
  }

  // ----- Labels -----

  /** The characters `str.strip` removes. */
  predicate IsSpace(c: char) {
    || '\U{0009}' <= c <= '\U{000D}' || '\U{001C}' <= c <= '\U{0020}' || c == '\U{0085}' || c == '\U{00A0}'
    || c == '\U{1680}' || '\U{2000}' <= c <= '\U{200A}' || c == '\U{2028}' || c == '\U{2029}' || c == '\U{202F}'
    || c == '\U{205F}' || c == '\U{3000}'
  }

  function StripLeft(s: string): string {
    if s != "" && IsSpace(s[0]) then StripLeft(s[1..]) else s
  }

  function StripRight(s: string): string {
    if s != "" && IsSpace(s[|s| - 1]) then StripRight(s[..|s| - 1]) else s
  }

  function Strip(s: string): string {
    StripRight(StripLeft(s))
  }

  const LABEL_LENGTH := 80

  /** The text a label is cut from: the inner text, or the aria-label when there is none. */
  function Name(e: Element): string
    requires e.Element?
  {
    if e.innerText != "" then e.innerText else e.ariaLabel
  }

  function Label(e: Element): string
    requires e.Element?
  {
    var name := Strip(Name(e));
    name[..Min(|name|, LABEL_LENGTH)]
  }

  // ----- Enumeration -----

  /** Enumeration fills no confirm text. */
  function EntryOf(e: Element, index: nat): Entry
    requires e.Element?
  {
    Entry(index, e.role, Label(e), "", e.href)
  }

  /** The menu: one entry per readable element, carrying that element's position on the page. */
  function Menu(elements: seq<Element>, from: nat): (menu: seq<Entry>)
    ensures |menu| <= |elements|
    ensures forall k :: 0 <= k < |menu| ==> from + k <= menu[k].index < from + |elements|
  {
    if elements == [] then []
    else if elements[0].Unreadable? then Menu(elements[1..], from + 1)
    else [EntryOf(elements[0], from)] + Menu(elements[1..], from + 1)
  }

  /** The menu's in-origin links, in order. */
  function Candidates(menu: seq<Entry>, base: Url): (cs: seq<Candidate>)
    ensures forall c :: c in cs ==> SameOrigin(c.url, base) && c.key == PageKey(c.url)
  {
    if menu == [] then []
    else
      var e := menu[0];
      (if e.url.Some? && SameOrigin(e.url.value, base)
       then [Candidate(PageKey(e.url.value), e.url.value, e.text)]
       else [])
      + Candidates(menu[1..], base)
  }

  /** Every entry describes the element its index names, never one that was skipped. */
  lemma {:induction false} EntryDescribesItsElement(elements: seq<Element>, from: nat, k: nat)
    requires k < |Menu(elements, from)|
    ensures var e := Menu(elements, from)[k];
            var x := elements[e.index - from];
            && x.Element? && e == EntryOf(x, e.index)
            && e.role == x.role && e.text == Label(x) && e.url == x.href && e.confirmText == ""
  {
    hide Label;
    if elements[0].Unreadable? {
      EntryDescribesItsElement(elements[1..], from + 1, k);
    } else if k > 0 {
      EntryDescribesItsElement(elements[1..], from + 1, k - 1);
    }
  }

  // ----- Index and position -----

  predicate AllReadable(elements: seq<Element>) {
    forall e | e in elements :: e.Element?
  }

  /** An entry's index is its menu position exactly when no element up to it was skipped. */
  lemma {:induction false} IndexIsPosition(elements: seq<Element>, from: nat, k: nat)
    requires k < |Menu(elements, from)|
    ensures Menu(elements, from)[k].index == from + k <==> AllReadable(elements[..k + 1])
  {
    assert elements[..k + 1] == [elements[0]] + elements[1..k + 1];
    if elements[0].Element? && k > 0 {
      IndexIsPosition(elements[1..], from + 1, k - 1);
      assert elements[1..][..k] == elements[1..k + 1];
    } else {
      assert elements[0] in elements[..k + 1];
    }
  }

  predicate NoneReadable(elements: seq<Element>) {
    forall e | e in elements :: e.Unreadable?
  }

  /** Element `n` is readable and none after it is. */
  predicate IsLastReadable(elements: seq<Element>, n: nat) {
    n < |elements| && elements[n].Element? && NoneReadable(elements[n + 1..])
  }

  lemma {:induction false} NoReadableNoMenu(elements: seq<Element>, from: nat)
    ensures Menu(elements, from) == [] <==> NoneReadable(elements)
  {
    if elements != [] {
      NoReadableNoMenu(elements[1..], from + 1);
      assert forall e | e in elements :: e == elements[0] || e in elements[1..];
    }
  }

  lemma LastReadableCases(elements: seq<Element>, n: nat)
    requires elements != []
    ensures IsLastReadable(elements, n) <==>
            if n == 0 then elements[0].Element? && NoneReadable(elements[1..]) else IsLastReadable(elements[1..], n - 1)
  {
    assert 0 < n < |elements| ==> elements[1..][n..] == elements[n + 1..];
  }

  lemma NothingReadableNoLast(elements: seq<Element>, n: nat)
    requires NoneReadable(elements)
    ensures !IsLastReadable(elements, n)
  {
    assert n < |elements| ==> elements[n] in elements;
  }

  lemma MenuCases(elements: seq<Element>, from: nat)
    requires elements != []
    ensures var rest := Menu(elements[1..], from + 1);
            if elements[0].Unreadable? then Menu(elements, from) == rest
            else
              var menu := Menu(elements, from);
              |menu| == 1 + |rest| && menu[0].index == from && menu[1..] == rest
  {}

  /** The last entry's index is the last readable element's. */
  lemma {:induction false} LastEntryIsLastReadable(elements: seq<Element>, from: nat, n: nat)
    requires Menu(elements, from) != []
    ensures Menu(elements, from)[|Menu(elements, from)| - 1].index == from + n <==> IsLastReadable(elements, n)
  {
    hide IsLastReadable;
    hide EntryOf;
    var rest := Menu(elements[1..], from + 1);
    LastReadableCases(elements, n);
    NoReadableNoMenu(elements[1..], from + 1);
    MenuCases(elements, from);
    hide Menu;
    hide NoneReadable;
    if rest == [] {
      NothingReadableNoLast(elements[1..], if n > 0 then n - 1 else 0);
    } else if n > 0 {
      LastEntryIsLastReadable(elements[1..], from + 1, n - 1);
    }
  }

  lemma {:induction false} CandidatesAppend(menu: seq<Entry>, e: Entry, base: Url)
    ensures Candidates(menu + [e], base) == Candidates(menu, base) + Candidates([e], base)
  {
    if menu == [] {
      assert menu + [e] == [e];
    } else {
      assert (menu + [e])[1..] == menu[1..] + [e];
      CandidatesAppend(menu[1..], e, base);
    }
  }

  /** One turn of the enumeration loop, as a step of `Menu`. */
  lemma MenuStep(elements: seq<Element>, i: nat, out: seq<Entry>)
    requires i < |elements|
    ensures out + Menu(elements[i..], i) ==
            (if elements[i].Unreadable? then out else out + [EntryOf(elements[i], i)]) + Menu(elements[i + 1..], i + 1)
  {
    assert elements[i..][1..] == elements[i + 1..];
  }

  method EnumerateActions(elements: seq<Element>, base: Url) returns (menu: seq<Entry>, candidates: seq<Candidate>)
    ensures menu == Menu(elements, 0)
    ensures candidates == Candidates(menu, base)
  {
    menu, candidates := [], [];
    for i := 0 to |elements|
      invariant Menu(elements, 0) == menu + Menu(elements[i..], i)
      invariant candidates == Candidates(menu, base)
    {
      MenuStep(elements, i, menu);
      if elements[i].Unreadable? {
        continue;
      }
      var entry := EntryOf(elements[i], i);
      CandidatesAppend(menu, entry, base);
      menu := menu + [entry];
      if entry.url.Some? && SameOrigin(entry.url.value, base) {
        candidates := candidates + [Candidate(PageKey(entry.url.value), entry.url.value, entry.text)];
      }
    }
  }

  // ----- What the label hides from the gate -----

  predicate NamesDenied(s: string) {
    exists verb | verb in DENY_VERBS :: Contains(Lower(s), verb)
  }

  lemma VerbShape(verb: string)
    requires verb in DENY_VERBS
    ensures |verb| > 0 && !IsSpace(verb[0]) && !IsSpace(verb[|verb| - 1]) && verb[0] != 'x'
  {}

  lemma {:induction false} LowerAt(s: string)
    ensures |Lower(s)| == |s|
    ensures forall i | 0 <= i < |s| :: Lower(s)[i] == if 'A' <= s[i] <= 'Z' then s[i] - 'A' + 'a' else s[i]
  {
    if s != "" {
      LowerAt(s[1..]);
    }
  }

  /** `part` stands at position `i` of `s`. */
  predicate StandsAt(s: string, part: string, i: nat) {
    i + |part| <= |s| && s[i..i + |part|] == part
  }

  lemma ContainsIsStands(s: string, part: string)
    ensures Contains(s, part) <==> exists i: nat :: StandsAt(s, part, i)
  {
    forall i: nat | i <= |s| ensures part <= s[i..] <==> StandsAt(s, part, i) {
      if i + |part| <= |s| {
        assert s[i..][..|part|] == s[i..i + |part|];
      }
    }
  }

  lemma LowerWindow(s: string, a: nat, b: nat)
    requires a <= b <= |s|
    ensures |Lower(s)| == |s| && Lower(s[a..b]) == Lower(s)[a..b]
  {
    LowerAt(s);
    LowerAt(s[a..b]);
  }

  lemma {:induction false} StripLeftIs(s: string) returns (a: nat)
    ensures a <= |s| && StripLeft(s) == s[a..] && forall i | 0 <= i < a :: IsSpace(s[i])
  {
    a := 0;
    if s != "" && IsSpace(s[0]) {
      var n := StripLeftIs(s[1..]);
      a := n + 1;
      assert forall i | 0 < i < a :: s[i] == s[1..][i - 1];
    }
  }

  lemma {:induction false} StripRightIs(s: string) returns (b: nat)
    ensures b <= |s| && StripRight(s) == s[..b] && forall i | b <= i < |s| :: IsSpace(s[i])
  {
    b := |s|;
    if s != "" && IsSpace(s[|s| - 1]) {
      b := StripRightIs(s[..|s| - 1]);
      assert s[..|s| - 1][..b] == s[..b];
    }
  }

  lemma StripIs(s: string) returns (a: nat, b: nat)
    ensures a <= b <= |s| && Strip(s) == s[a..b] && forall i | 0 <= i < a || b <= i < |s| :: IsSpace(s[i])
  {
    a := StripLeftIs(s);
    var n := StripRightIs(s[a..]);
    b := a + n;
    assert s[a..][..n] == s[a..b];
    assert forall i | b <= i < |s| :: s[i] == s[a..][i - a];
  }

  lemma SliceOfSlice(s: string, a: nat, b: nat, i: nat, j: nat)
    requires a <= b <= |s| && i <= j <= b - a
    ensures s[a..b][i..j] == s[a + i..a + j]
  {
    var x, y := s[a..b][i..j], s[a + i..a + j];
    forall k | 0 <= k < j - i ensures x[k] == y[k] {
      assert s[a..b][i + k] == s[a + i + k];
    }
  }

  lemma FoundInWindow(s: string, verb: string, a: nat, b: nat)
    requires a <= b <= |s|
    ensures Contains(Lower(s[a..b]), verb) ==> Contains(Lower(s), verb)
  {
    hide Lower;
    hide Contains;
    LowerWindow(s, a, b);
    ContainsIsStands(Lower(s[a..b]), verb);
    ContainsIsStands(Lower(s), verb);
    if i: nat :| StandsAt(Lower(s[a..b]), verb, i) {
      SliceOfSlice(Lower(s), a, b, i, i + |verb|);
      assert StandsAt(Lower(s), verb, a + i);
    }
  }

  /** A word with no space at either end is not lost by trimming spaces. */
  lemma FoundAfterTrim(s: string, verb: string, a: nat, b: nat)
    requires a <= b <= |s| && forall i | 0 <= i < a || b <= i < |s| :: IsSpace(s[i])
    requires verb != "" && !IsSpace(verb[0]) && !IsSpace(verb[|verb| - 1])
    ensures Contains(Lower(s), verb) ==> Contains(Lower(s[a..b]), verb)
  {
    hide Lower;
    hide Contains;
    LowerWindow(s, a, b);
    ContainsIsStands(Lower(s[a..b]), verb);
    ContainsIsStands(Lower(s), verb);
    hide IsSpace;
    if i: nat :| StandsAt(Lower(s), verb, i) {
      LowerKeepsNonSpace(s, verb, i);
      SliceOfSlice(Lower(s), a, b, i - a, i - a + |verb|);
      assert StandsAt(Lower(s[a..b]), verb, i - a);
    }
  }

  lemma LowerKeepsNonSpace(s: string, verb: string, i: nat)
    requires StandsAt(Lower(s), verb, i) && verb != "" && !IsSpace(verb[0]) && !IsSpace(verb[|verb| - 1])
    ensures i + |verb| <= |s| && !IsSpace(s[i]) && !IsSpace(s[i + |verb| - 1])
  {
    var low := Lower(s);
    LowerAt(s);
    hide Lower;
    assert low[i..i + |verb|][0] == low[i] && low[i..i + |verb|][|verb| - 1] == low[i + |verb| - 1];
  }

  lemma VerbInWindow(s: string, a: nat, b: nat)
    requires a <= b <= |s|
    ensures NamesDenied(s[a..b]) ==> NamesDenied(s)
  {
    forall verb { FoundInWindow(s, verb, a, b); }
    hide Lower;
    hide Contains;
  }

  /** Trimming spaces hides no verb: verbs neither start nor end with one. */
  lemma TrimKeepsVerbs(s: string, a: nat, b: nat)
    requires a <= b <= |s| && forall i | 0 <= i < a || b <= i < |s| :: IsSpace(s[i])
    ensures NamesDenied(s[a..b]) <==> NamesDenied(s)
  {
    VerbInWindow(s, a, b);
    forall verb | verb in DENY_VERBS ensures Contains(Lower(s), verb) ==> Contains(Lower(s[a..b]), verb) {
      VerbShape(verb);
      FoundAfterTrim(s, verb, a, b);
    }
    hide Lower;
    hide Contains;
  }

  lemma StripKeepsVerbs(s: string)
    ensures NamesDenied(Strip(s)) <==> NamesDenied(s)
  {
    var a, b := StripIs(s);
    hide Strip;
    hide NamesDenied;
    TrimKeepsVerbs(s, a, b);
  }

  /** The gate reads the label and nothing else. */
  lemma GateReadsTheLabel(e: Element, index: nat)
    requires e.Element?
    ensures IsDestructive(EntryOf(e, index), false) <==> NamesDenied(Label(e))
  {
    assert Label(e) + " " + "" == Label(e) + " ";
    TrailingSpaceHidesNothing(Label(e));
  }

  lemma TrailingSpaceHidesNothing(s: string)
    ensures NamesDenied(s + " ") <==> NamesDenied(s)
  {
    hide NamesDenied;
    assert (s + " ")[0..|s|] == s;
    TrimKeepsVerbs(s + " ", 0, |s|);
  }

  predicate NamesDeniedAnywhere(e: Element)
    requires e.Element?
  {
    NamesDenied(e.innerText) || NamesDenied(e.ariaLabel)
  }

  /** The name is cut before a verb, or an inner text hides an aria-label that names one. */
  predicate HidesAVerb(e: Element)
    requires e.Element?
  {
    || (|Strip(Name(e))| > LABEL_LENGTH && NamesDenied(Name(e)))
    || (e.innerText != "" && NamesDenied(e.ariaLabel))
  }

  lemma EmptyNamesNothing()
    ensures !NamesDenied("")
  {
    forall verb | verb in DENY_VERBS ensures !Contains(Lower(""), verb) {
      VerbShape(verb);
    }
  }

  /** Main result: an element the gate lets pass names a denied verb somewhere exactly when its name is longer than the
      label and names one, or its inner text hides an aria-label that does. One the gate refuses does name one. */
  lemma GateMissesExactly(e: Element, index: nat)
    requires e.Element?
    ensures IsDestructive(EntryOf(e, index), false) ==> NamesDeniedAnywhere(e)
    ensures !IsDestructive(EntryOf(e, index), false) ==> (NamesDeniedAnywhere(e) <==> HidesAVerb(e))
  {
    hide Strip;
    hide NamesDenied;
    hide IsDestructive;
    var name := Strip(Name(e));
    GateReadsTheLabel(e, index);
    StripKeepsVerbs(Name(e));
    EmptyNamesNothing();
    VerbInWindow(name, 0, Min(|name|, LABEL_LENGTH));
    assert name[0..Min(|name|, LABEL_LENGTH)] == Label(e);
    assert |name| <= LABEL_LENGTH ==> Label(e) == name;
  }

  lemma DeleteIsDenied(s: string, i: nat)
    requires StandsAt(s, "delete", i)
    ensures NamesDenied(s)
  {
    LowerAt(s);
    LowerWindow(s, i, i + 6);
    assert Lower("delete") == "delete" by {
      LowerAt("delete");
    }
    assert "delete" in DENY_VERBS && StandsAt(Lower(s), "delete", i);
    ContainsIsStands(Lower(s), "delete");
  }

  lemma FirstCharsMatter(s: string)
    requires forall c | c in s :: c == 'x'
    ensures !NamesDenied(s)
  {
    LowerAt(s);
    forall verb | verb in DENY_VERBS ensures !Contains(Lower(s), verb) {
      VerbShape(verb);
      ContainsIsStands(Lower(s), verb);
      forall i: nat ensures !StandsAt(Lower(s), verb, i) {
        assert i + |verb| <= |s| ==> Lower(s)[i..i + |verb|][0] == Lower(s)[i] && s[i] in s;
      }
    }
  }

  /** A verb after the eightieth character passes the gate. */
  lemma LongNamePassesTheGate() returns (e: Element)
    ensures e.Element? && NamesDenied(e.innerText) && !IsDestructive(EntryOf(e, 0), false)
  {
    var pad := seq(LABEL_LENGTH, _ => 'x');
    var text := pad + "delete";
    e := Element("button", text, "", None);
    hide IsDestructive;
    hide NamesDenied;
    assert StripLeft(text) == text && StripRight(text) == text && text[..LABEL_LENGTH] == pad;
    assert text[LABEL_LENGTH..LABEL_LENGTH + 6] == "delete";
    DeleteIsDenied(text, LABEL_LENGTH);
    FirstCharsMatter(pad);
    GateReadsTheLabel(e, 0);
  }

  /** So does an aria-label that an inner text hides. */
  lemma HiddenAriaLabelPassesTheGate() returns (e: Element)
    ensures e.Element? && NamesDenied(e.ariaLabel) && !IsDestructive(EntryOf(e, 0), false)
  {
    e := Element("button", "x", "delete", None);
    hide IsDestructive;
    hide NamesDenied;
    assert "delete"[0..6] == "delete";
    DeleteIsDenied("delete", 0);
    assert StripLeft("x") == "x" && StripRight("x") == "x" && "x"[..1] == "x";
    FirstCharsMatter("x");
    GateReadsTheLabel(e, 0);
  }

  // ----- Case, names and origins written out -----

  /** The same characters, ASCII capitals aside. */
  predicate SameUpToCase(s: string, t: string) {
    |s| == |t| && forall i | 0 <= i < |s| :: SameLetter(s[i], t[i])
  }

  predicate SameLetter(c: char, d: char) {
    || c == d
    || ('A' <= c <= 'Z' && d as int == c as int + 32)
    || ('A' <= d <= 'Z' && c as int == d as int + 32)
  }

  lemma LowerAlikeExactly(s: string, t: string)
    ensures Lower(s) == Lower(t) <==> SameUpToCase(s, t)
  {
    LowerAt(s);
    LowerAt(t);
    hide Lower;
    if Lower(s) == Lower(t) {
      forall i | 0 <= i < |s| ensures SameLetter(s[i], t[i]) {
        assert Lower(s)[i] == Lower(t)[i];
      }
    }
  }

  lemma VerbsHaveNoCapital(verb: string, i: nat)
    requires verb in DENY_VERBS && i < |verb|
    ensures !('A' <= verb[i] <= 'Z')
  {}

  lemma VerbsAreLower(verb: string)
    requires verb in DENY_VERBS
    ensures Lower(verb) == verb
  {
    LowerAt(verb);
    hide Lower;
    hide DENY_VERBS;
    forall i: nat | i < |verb| ensures Lower(verb)[i] == verb[i] {
      VerbsHaveNoCapital(verb, i);
    }
  }

  predicate StandsInAnyCase(s: string, verb: string, i: nat) {
    i + |verb| <= |s| && SameUpToCase(s[i..i + |verb|], verb)
  }

  /** A text names a denied verb exactly when one stands in it, in whatever case. */
  lemma DeniedInAnyCase(s: string)
    ensures NamesDenied(s) <==> exists verb, i: nat :: verb in DENY_VERBS && StandsInAnyCase(s, verb, i)
  {
    hide Lower;
    hide Contains;
    hide SameUpToCase;
    LowerWindow(s, 0, 0);
    forall verb, i: nat | verb in DENY_VERBS && i + |verb| <= |s|
      ensures StandsAt(Lower(s), verb, i) <==> StandsInAnyCase(s, verb, i)
    {
      LowerWindow(s, i, i + |verb|);
      VerbsAreLower(verb);
      LowerAlikeExactly(s[i..i + |verb|], verb);
    }
    forall verb { ContainsIsStands(Lower(s), verb); }
    if NamesDenied(s) {
      var verb :| verb in DENY_VERBS && Contains(Lower(s), verb);
      var i: nat :| StandsAt(Lower(s), verb, i);
      assert StandsInAnyCase(s, verb, i);
    }
  }

  /** The 29 characters Unicode counts as whitespace or a separator of lines or paragraphs. */
  lemma SpacesAre(c: char)
    ensures IsSpace(c) <==>
            || c in "\U{0009}\U{000A}\U{000B}\U{000C}\U{000D}\U{001C}\U{001D}\U{001E}\U{001F}\U{0020}"
            || c in "\U{0085}\U{00A0}\U{1680}\U{2000}\U{2001}\U{2002}\U{2003}\U{2004}\U{2005}\U{2006}"
            || c in "\U{2007}\U{2008}\U{2009}\U{200A}\U{2028}\U{2029}\U{202F}\U{205F}\U{3000}"
  {}

  /** A label is the inner text, or the aria-label where there is none, without the spaces around it and cut after
      eighty characters. */
  lemma LabelIsTheCutName(e: Element) returns (a: nat, b: nat)
    requires e.Element?
    ensures var name := if e.innerText != "" then e.innerText else e.ariaLabel;
            && a <= b <= |name| && (forall i | 0 <= i < a || b <= i < |name| :: IsSpace(name[i]))
            && (a < b ==> !IsSpace(name[a]) && !IsSpace(name[b - 1]))
            && Label(e) == name[a..Min(b, a + 80)]
  {
    var name := Name(e);
    a, b := StripIs(name);
    StripLeavesNoSpace(name);
    hide Strip;
    assert Strip(name) == name[a..b];
    var n := Min(b - a, 80);
    assert name[a..b][..n] == name[a..a + n];
  }

  lemma StripLeavesNoSpace(s: string)
    ensures var r := Strip(s); r != "" ==> !IsSpace(r[0]) && !IsSpace(r[|r| - 1])
  {
    LeftEnd(s);
    RightEnd(StripLeft(s));
  }

  lemma {:induction false} LeftEnd(s: string)
    ensures StripLeft(s) != "" ==> !IsSpace(StripLeft(s)[0])
  {
    if s != "" {
      LeftEnd(s[1..]);
    }
  }

  lemma {:induction false} RightEnd(s: string)
    ensures var r := StripRight(s); r != "" ==> !IsSpace(r[|r| - 1]) && s != "" && r[0] == s[0]
  {
    if s != "" {
      RightEnd(s[..|s| - 1]);
    }
  }

  /** The url has a scheme and a host, and some allowed url has the same in whatever case. */
  predicate OnAllowedOrigin(u: Url, allowlist: seq<Url>) {
    && u.scheme != "" && u.netloc != ""
    && exists a | a in allowlist :: SameUpToCase(a.scheme, u.scheme) && SameUpToCase(a.netloc, u.netloc)
  }

  lemma InOriginExactly(u: Url, allowlist: seq<Url>)
    ensures !IsOffOrigin(u, allowlist) <==> OnAllowedOrigin(u, allowlist)
  {
    forall a | a in allowlist && u.scheme != "" && u.netloc != ""
      ensures Origin(a) == Origin(u) <==> SameUpToCase(a.scheme, u.scheme) && SameUpToCase(a.netloc, u.netloc)
    {
      LowerAlikeExactly(a.scheme, u.scheme);
      LowerAlikeExactly(a.netloc, u.netloc);
    }
    hide Lower;
  }

  predicate AllSlashes(s: string) {
    forall c | c in s :: c == '/'
  }

  lemma {:induction false} TrimSlashesIs(path: string) returns (tail: string)
    ensures path == TrimSlashes(path) + tail && AllSlashes(tail)
    ensures TrimSlashes(path) != "" ==> TrimSlashes(path)[|TrimSlashes(path)| - 1] != '/'
  {
    tail := "";
    if path != "" && path[|path| - 1] == '/' {
      var less := TrimSlashesIs(path[..|path| - 1]);
      tail := less + "/";
      assert path == path[..|path| - 1] + "/";
    }
  }

  lemma {:induction false} TrimSlashesAbsorbs(base: string, tail: string)
    requires AllSlashes(tail)
    ensures TrimSlashes(base + tail) == TrimSlashes(base)
  {
    var p := base + tail;
    if tail == "" {
      assert p == base;
    } else {
      var less := tail[..|tail| - 1];
      assert tail[|tail| - 1] in tail && p[..|p| - 1] == base + less && forall c | c in less :: c in tail;
      TrimSlashesAbsorbs(base, less);
    }
  }

  /** The paths are the same but for slashes at their ends. */
  ghost predicate SameUpToSlashes(p: string, q: string) {
    exists base, x, y :: AllSlashes(x) && AllSlashes(y) && p == base + x && q == base + y
  }

  /** Two urls are the same page to the crawl exactly when scheme and host are the same and the paths but for slashes at
      their ends, whatever their queries and fragments. */
  lemma SamePageExactly(u: Url, v: Url)
    ensures PageKey(u) == PageKey(v) <==>
            u.scheme == v.scheme && u.netloc == v.netloc && SameUpToSlashes(u.path, v.path)
  {
    var x := TrimSlashesIs(u.path);
    var y := TrimSlashesIs(v.path);
    var p, q := TrimSlashes(u.path), TrimSlashes(v.path);
    assert p != "/" && q != "/";
    if SameUpToSlashes(u.path, v.path) {
      var base, x', y' :| AllSlashes(x') && AllSlashes(y') && u.path == base + x' && v.path == base + y';
      TrimSlashesAbsorbs(base, x');
      TrimSlashesAbsorbs(base, y');
    }
    hide TrimSlashes;
    if p == q {
      assert SameUpToSlashes(u.path, v.path);
    }
  }

  /** Every readable link of the base's scheme and host becomes a candidate, under its page's key. */
  lemma {:induction false} EveryInOriginLinkIsACandidate(elements: seq<Element>, from: nat, base: Url, k: nat)
    requires k < |elements| && elements[k].Element? && elements[k].href.Some?
    requires elements[k].href.value.scheme == base.scheme && elements[k].href.value.netloc == base.netloc
    ensures var u := elements[k].href.value;
            Candidate(PageKey(u), u, Label(elements[k])) in Candidates(Menu(elements, from), base)
  {
    hide Label;
    hide PageKey;
    if k > 0 {
      EveryInOriginLinkIsACandidate(elements[1..], from + 1, base, k - 1);
      CandidatesOfTail(elements, from, base);
    } else {
      CandidatesOfHead(elements, from, base);
    }
  }

  lemma CandidatesOfTail(elements: seq<Element>, from: nat, base: Url)
    requires elements != []
    ensures forall c | c in Candidates(Menu(elements[1..], from + 1), base) ::
              c in Candidates(Menu(elements, from), base)
  {
    hide Label;
    hide PageKey;
    MenuCases(elements, from);
  }

  lemma CandidatesOfHead(elements: seq<Element>, from: nat, base: Url)
    requires elements != [] && elements[0].Element? && elements[0].href.Some?
    requires elements[0].href.value.scheme == base.scheme && elements[0].href.value.netloc == base.netloc
    ensures var u := elements[0].href.value;
            Candidate(PageKey(u), u, Label(elements[0])) in Candidates(Menu(elements, from), base)
  {
    hide Label;
    hide PageKey;
  }
}
