/** Which differences between pages the fingerprint sees, said of the nodes themselves. */
module PageMatch {
  import opened Common
  import opened Fingerprint

  // ----- What a node's line shows -----

  /** The name a node goes by: its role where one is given, else its tag, else "node". */
  predicate Shows(n: Node, name: string) {
    || (n.role != "" && name == n.role)
    || (n.role == "" && n.tag != "" && name == n.tag)
    || (n.role == "" && n.tag == "" && name == "node")
  }

  predicate HasKept(n: Node, a: string, cfg: Config) {
    a in n.attrs && (a in cfg.keptAttrs || a in {"id", "name", "data-test", "data-testid", "class", "href"})
  }

  /** The same name, the same kept attributes, and values that differ in digit runs at most where values are kept. */
  ghost predicate SameLabel(n: Node, u: Node, cfg: Config) {
    && (exists name :: Shows(n, name) && Shows(u, name))
    && (forall a :: HasKept(n, a, cfg) <==> HasKept(u, a, cfg))
    && (forall a :: HasKept(n, a, cfg) && HasKept(u, a, cfg) && a !in VALUE_STRIPPED_ATTRS ==>
          SameUpToDigitRuns(n.attrs[a], u.attrs[a], cfg.digits))
  }

  /** No value holds the mark that stands for a digit run. */
  predicate HashFree(n: Node) {
    forall a | a in n.attrs :: '#' !in n.attrs[a]
  }

  lemma FoldsToNothing(s: string, digits: set<char>)
    ensures FoldNumbers(s, digits, false) == "" <==> s == ""
  {}

  /** Values without the mark fold alike only if they differ in digit runs at most. */
  lemma {:induction false} FoldedAlikeDifferInDigits(s: string, t: string, digits: set<char>)
    requires '#' !in s && '#' !in t && FoldNumbers(s, digits, false) == FoldNumbers(t, digits, false)
    ensures SameUpToDigitRuns(s, t, digits)
    decreases |s| + |t|
  {
    FoldsToNothing(s, digits);
    FoldsToNothing(t, digits);
    if s != "" && t != "" {
      var f, g := FoldNumbers(s, digits, false), FoldNumbers(t, digits, false);
      assert s[0] in s && t[0] in t;
      assert f[0] == g[0] && f[1..] == g[1..];
      assert forall c | c in s[1..] :: c in s;
      assert forall c | c in t[1..] :: c in t;
      if s[0] in digits && t[0] in digits {
        DropIsSuffix(s, digits);
        DropIsSuffix(t, digits);
        assert f[1..] == FoldNumbers(s[1..], digits, true) && g[1..] == FoldNumbers(t[1..], digits, true);
        FoldedAlikeDifferInDigits(DropDigits(s, digits), DropDigits(t, digits), digits);
      } else {
        FoldedAlikeDifferInDigits(s[1..], t[1..], digits);
      }
    }
  }

  lemma {:induction false} DropIsSuffix(s: string, digits: set<char>)
    ensures forall c | c in DropDigits(s, digits) :: c in s
    ensures s != "" && s[0] in digits ==>
              FoldNumbers(s[1..], digits, true) == FoldNumbers(DropDigits(s, digits), digits, false)
  {
    if s != "" && s[0] in digits {
      DropIsSuffix(s[1..], digits);
      assert forall c | c in s[1..] :: c in s;
    }
  }

  lemma ValuesShownExactly(s: string, t: string, digits: set<char>)
    requires '#' !in s && '#' !in t
    ensures FoldNumbers(s, digits, false) == FoldNumbers(t, digits, false) <==> SameUpToDigitRuns(s, t, digits)
  {
    if SameUpToDigitRuns(s, t, digits) {
      DigitRunsFoldAlike(s, t, digits);
    } else if FoldNumbers(s, digits, false) == FoldNumbers(t, digits, false) {
      FoldedAlikeDifferInDigits(s, t, digits);
    }
  }

  lemma TokensAlikeExactly(n: Node, u: Node, cfg: Config)
    requires HashFree(n) && HashFree(u)
    ensures TokenOf(n, cfg) == TokenOf(u, cfg) <==> SameLabel(n, u, cfg)
  {
    var x, y := TokenOf(n, cfg), TokenOf(u, cfg);
    assert Shows(n, RoleOrTag(n)) && Shows(u, RoleOrTag(u));
    assert forall a :: a in x.attrs <==> HasKept(n, a, cfg);
    assert forall a :: a in y.attrs <==> HasKept(u, a, cfg);
    forall a | HasKept(n, a, cfg) && HasKept(u, a, cfg) && a !in VALUE_STRIPPED_ATTRS
      ensures x.attrs[a] == y.attrs[a] <==> SameUpToDigitRuns(n.attrs[a], u.attrs[a], cfg.digits)
    {
      ValuesShownExactly(n.attrs[a], u.attrs[a], cfg.digits);
    }
    hide FoldNumbers;
    hide SameUpToDigitRuns;
    if SameLabel(n, u, cfg) {
      assert x.attrs.Keys == y.attrs.Keys;
      assert x.attrs == y.attrs;
    }
  }

  /** Main result: two nodes print the same line exactly when they show the same name, have the same kept attributes and
      their kept values differ in digit runs at most. */
  lemma FirstLineShowsTheLabelExactly(n: Node, u: Node, cfg: Config, depth: int, maxDepth: int)
    requires HashFree(n) && HashFree(u) && depth <= maxDepth
    ensures Walk(n, cfg, depth, maxDepth)[0] == Walk(u, cfg, depth, maxDepth)[0] <==> SameLabel(n, u, cfg)
  {
    TokensAlikeExactly(n, u, cfg);
    hide TokenOf;
  }

  /** A value that holds the mark itself is taken for one that holds a number there. */
  lemma MarkIsTakenForANumber(cfg: Config) returns (n: Node, u: Node)
    requires "type" in cfg.keptAttrs && '5' in cfg.digits && '#' !in cfg.digits && cfg.maxDepth >= 0
    ensures Skeleton(n, cfg) == Skeleton(u, cfg)
    ensures "type" in n.attrs && "type" in u.attrs
            && !SameUpToDigitRuns(n.attrs["type"], u.attrs["type"], cfg.digits)
  {
    n, u := Node("", "input", map["type" := "#"], []), Node("", "input", map["type" := "5"], []);
    assert FoldNumbers("#", cfg.digits, false) == "#" + FoldNumbers("", cfg.digits, false);
    assert FoldNumbers("5", cfg.digits, false) == "#" + FoldNumbers("", cfg.digits, true);
    assert TokenOf(n, cfg).attrs == TokenOf(u, cfg).attrs;
  }

  // ----- Whole pages -----

  predicate HashFreeTree(n: Node)
    decreases n
  {
    HashFree(n) && forall i | 0 <= i < |n.children| :: HashFreeTree(n.children[i])
  }

  /** Node for node the same labels and numbers of children, down to `height`. */
  ghost predicate Match(n: Node, u: Node, cfg: Config, height: nat)
    decreases n
  {
    && SameLabel(n, u, cfg)
    && (height > 0 ==>
          && |n.children| == |u.children|
          && forall i | 0 <= i < |n.children| :: Match(n.children[i], u.children[i], cfg, height - 1))
  }

  /** No two neighbours match, down to `height`. */
  ghost predicate NothingFolds(n: Node, cfg: Config, height: nat)
    decreases n
  {
    height > 0 ==>
      && (forall i | 0 < i < |n.children| :: !Match(n.children[i - 1], n.children[i], cfg, height - 1))
      && (forall i | 0 <= i < |n.children| :: NothingFolds(n.children[i], cfg, height - 1))
  }

  lemma {:induction false} MergeKeepsDistinct<T>(s: seq<T>)
    requires forall i | 0 < i < |s| :: s[i - 1] != s[i]
    ensures MergeAdjacent(s) == s
  {
    if |s| > 1 {
      assert s[0] != s[1];
      forall i | 0 < i < |s[1..]| ensures s[1..][i - 1] != s[1..][i] {
        assert s[i + 1 - 1] != s[i + 1];
      }
      MergeKeepsDistinct(s[1..]);
    }
  }

  /** The children's templates in order, where nothing folds. */
  lemma ChildrenUnfolded(n: Node, cfg: Config, height: nat)
    requires height > 0 && HashFreeTree(n) && (cfg.foldSiblings ==> NothingFolds(n, cfg, height))
    ensures |Canon(n, cfg, height).children| == |n.children|
    ensures forall i | 0 <= i < |n.children| ::
              Canon(n, cfg, height).children[i] == Canon(n.children[i], cfg, height - 1)
    decreases height, 0
  {
    var cs := CanonAll(n.children, cfg, height - 1);
    CanonAllAt(n.children, cfg, height - 1);
    if cfg.foldSiblings {
      forall i | 0 < i < |cs| ensures cs[i - 1] != cs[i] {
        MatchExactly(n.children[i - 1], n.children[i], cfg, height - 1);
        assert cs[i - 1] == Canon(n.children[i - 1], cfg, height - 1);
      }
      MergeKeepsDistinct(cs);
    }
  }

  lemma {:induction false} MatchExactly(n: Node, u: Node, cfg: Config, height: nat)
    requires HashFreeTree(n) && HashFreeTree(u)
    requires cfg.foldSiblings ==> NothingFolds(n, cfg, height) && NothingFolds(u, cfg, height)
    ensures Canon(n, cfg, height) == Canon(u, cfg, height) <==> Match(n, u, cfg, height)
    decreases height, 1
  {
    TokensAlikeExactly(n, u, cfg);
    hide TokenOf;
    hide SameLabel;
    if height > 0 {
      ChildrenUnfolded(n, cfg, height);
      ChildrenUnfolded(u, cfg, height);
      var x, y := Canon(n, cfg, height), Canon(u, cfg, height);
      forall i | 0 <= i < |n.children| && |n.children| == |u.children|
        ensures x.children[i] == y.children[i] <==> Match(n.children[i], u.children[i], cfg, height - 1)
      {
        MatchExactly(n.children[i], u.children[i], cfg, height - 1);
      }
      assert x.token == TokenOf(n, cfg) && y.token == TokenOf(u, cfg);
      hide Canon;
      assert |n.children| == |u.children| && Match(n, u, cfg, height) ==> x.children == y.children;
    }
  }

  /** Main result: two pages without matching neighbours share a fingerprint exactly when they match node for node down
      to the depth cap, names, kept attributes and kept values up to their numbers. */
  lemma PagesMatchExactly(t: Node, u: Node, cfg: Config)
    requires cfg.maxDepth >= 0 && HashFreeTree(t) && HashFreeTree(u)
    requires cfg.foldSiblings ==> NothingFolds(t, cfg, cfg.maxDepth) && NothingFolds(u, cfg, cfg.maxDepth)
    ensures Skeleton(t, cfg) == Skeleton(u, cfg) <==> Match(t, u, cfg, cfg.maxDepth)
  {
    FingerprintIdentifiesTemplate(t, u, cfg);
    MatchExactly(t, u, cfg, cfg.maxDepth);
    hide Skeleton;
    hide Canon;
  }

  lemma {:induction false} MatchAtPath(t: Node, u: Node, cfg: Config, height: nat, path: seq<nat>)
    requires Match(t, u, cfg, height) && |path| <= height && NodeAt(t, path).Some?
    ensures NodeAt(u, path).Some? && SameLabel(NodeAt(t, path).value, NodeAt(u, path).value, cfg)
    decreases |path|
  {
    if path != [] {
      MatchAtPath(t.children[path[0]], u.children[path[0]], cfg, height - 1, path[1..]);
    }
  }

  /** So a node within the depth cap whose role, tag, kept attributes or kept values beyond their numbers change,
      changes the fingerprint. */
  lemma ChangedLabelChangesTheFingerprint(t: Node, u: Node, cfg: Config, path: seq<nat>)
    requires cfg.maxDepth >= |path| && HashFreeTree(t) && HashFreeTree(u)
    requires cfg.foldSiblings ==> NothingFolds(t, cfg, cfg.maxDepth) && NothingFolds(u, cfg, cfg.maxDepth)
    requires NodeAt(t, path).Some? && NodeAt(u, path).Some?
    requires !SameLabel(NodeAt(t, path).value, NodeAt(u, path).value, cfg)
    ensures Skeleton(t, cfg) != Skeleton(u, cfg)
  {
    PagesMatchExactly(t, u, cfg);
    if Match(t, u, cfg, cfg.maxDepth) {
      MatchAtPath(t, u, cfg, cfg.maxDepth, path);
    }
  }

  /** A page with a button and one with an input in its place, neither with a role, differ. */
  lemma TagsTellPagesApart(cfg: Config)
    requires cfg.maxDepth >= 1
    ensures Skeleton(Node("", "body", map[], [Node("", "button", map[], [])]), cfg) !=
            Skeleton(Node("", "body", map[], [Node("", "input", map[], [])]), cfg)
  {
    var b, i := Node("", "button", map[], []), Node("", "input", map[], []);
    var t, u := Node("", "body", map[], [b]), Node("", "body", map[], [i]);
    assert NodeAt(t, [0]) == Some(b) && NodeAt(u, [0]) == Some(i);
    assert !SameLabel(b, i, cfg);
    ChangedLabelChangesTheFingerprint(t, u, cfg, [0]);
  }
}
