/** The structural-skeleton state fingerprint: a depth-capped walk that folds runs of
    siblings by comparing relative-depth signatures while it emits absolute-depth lines.
    Proved to print, injectively, a canonical tree. */
module Fingerprint {
  import opened Common

  /** A DOM node; an empty role or tag stands for a missing one. */
  datatype Node = Node(role: string, tag: string, attrs: map<string, string>, children: seq<Node>)

  /** `digits` is the set of characters the number pattern matches. */
  datatype Config = Config(maxDepth: int, keptAttrs: set<string>, foldSiblings: bool, digits: set<char>)

  const VALUE_STRIPPED_ATTRS: set<string> := {"id", "name", "data-test", "data-testid", "class", "href"}

  datatype Token = Token(role: string, attrs: map<string, string>)

  datatype Line = Line(depth: int, token: Token)

  function RoleOrTag(n: Node): string {
    if n.role != "" then n.role else if n.tag != "" then n.tag else "node"
  }

  /** Every maximal run of digits becomes one '#'. */
  function FoldNumbers(s: string, digits: set<char>, inRun: bool): string {
    if s == "" then ""
    else if s[0] in digits then (if inRun then "" else "#") + FoldNumbers(s[1..], digits, true)
    else [s[0]] + FoldNumbers(s[1..], digits, false)
  }

  function NormalizeAttrValue(name: string, value: string, cfg: Config): string {
    if name in VALUE_STRIPPED_ATTRS then "*" else FoldNumbers(value, cfg.digits, false)
  }

  predicate Kept(name: string, cfg: Config) {
    name in cfg.keptAttrs || name in VALUE_STRIPPED_ATTRS
  }

  function TokenOf(n: Node, cfg: Config): Token {
    Token(RoleOrTag(n), map a | a in n.attrs && Kept(a, cfg) :: NormalizeAttrValue(a, n.attrs[a], cfg))
  }

  // ----- The emitter, as written: absolute depths out, relative signatures compared -----

  function Walk(n: Node, cfg: Config, depth: int, maxDepth: int): seq<Line>
    decreases n, 1
  {
    if depth > maxDepth then [] else [Line(depth, TokenOf(n, cfg))] + ChildLines(n, cfg, depth, maxDepth)
  }

  function ChildLines(n: Node, cfg: Config, depth: int, maxDepth: int): seq<Line>
    decreases n, 0
  {
    if depth >= maxDepth then [] else EmitSiblings(n.children, cfg, depth, maxDepth, None)
  }

  function EmitSiblings(ns: seq<Node>, cfg: Config, depth: int, maxDepth: int, lastSig: Option<seq<Line>>): seq<Line>
    decreases ns, 0
  {
    if ns == [] then []
    else
      var sig := Some(Walk(ns[0], cfg, 0, maxDepth - (depth + 1)));
      if cfg.foldSiblings && sig == lastSig then EmitSiblings(ns[1..], cfg, depth, maxDepth, lastSig)
      else Walk(ns[0], cfg, depth + 1, maxDepth) + EmitSiblings(ns[1..], cfg, depth, maxDepth, sig)
  }

  /** What the hash is taken of. */
  function Skeleton(tree: Node, cfg: Config): seq<Line> {
    Walk(tree, cfg, 0, cfg.maxDepth)
  }

  // ----- The specification: canonicalise, then print the preorder -----

  datatype Canonical = Canonical(token: Token, children: seq<Canonical>)

  /** The template of a tree: cut below `height`, labels normalised, adjacent equal siblings merged. */
  function Canon(n: Node, cfg: Config, height: nat): Canonical
    decreases n
  {
    Canonical(TokenOf(n, cfg),
              if height == 0 then []
              else
                var cs := CanonAll(n.children, cfg, height - 1);
                if cfg.foldSiblings then MergeAdjacent(cs) else cs)
  }

  function CanonAll(ns: seq<Node>, cfg: Config, height: nat): (cs: seq<Canonical>)
    ensures |cs| == |ns|
    decreases ns
  {
    if ns == [] then [] else [Canon(ns[0], cfg, height)] + CanonAll(ns[1..], cfg, height)
  }

  lemma {:induction false} CanonAllAt(ns: seq<Node>, cfg: Config, height: nat)
    ensures forall i :: 0 <= i < |ns| ==> CanonAll(ns, cfg, height)[i] == Canon(ns[i], cfg, height)
  {
    if ns != [] {
      CanonAllAt(ns[1..], cfg, height);
    }
  }

  function MergeAdjacent<T(==)>(s: seq<T>): seq<T> {
    if |s| <= 1 then s
    else if s[0] == s[1] then MergeAdjacent(s[1..])
    else [s[0]] + MergeAdjacent(s[1..])
  }

  function Preorder(t: Canonical, depth: int): seq<Line>
    decreases t
  {
    [Line(depth, t.token)] + PreorderAll(t.children, depth + 1)
  }

  function PreorderAll(ts: seq<Canonical>, depth: int): seq<Line>
    decreases ts
  {
    if ts == [] then [] else Preorder(ts[0], depth) + PreorderAll(ts[1..], depth)
  }

  // ----- The print is injective: depths recover the tree -----

  predicate HeadAbove(rest: seq<Line>, depth: int) {
    rest == [] || rest[0].depth < depth
  }

  lemma PreorderAllHead(ts: seq<Canonical>, depth: int, tail: seq<Line>)
    requires HeadAbove(tail, depth)
    ensures HeadAbove(PreorderAll(ts, depth) + tail, depth) <==> ts == []
    ensures HeadAbove(PreorderAll(ts, depth) + tail, depth + 1)
  {}

  lemma {:induction false} PreorderDecodes(t: Canonical, u: Canonical, depth: int, tail: seq<Line>, tail': seq<Line>)
    requires Preorder(t, depth) + tail == Preorder(u, depth) + tail'
    requires HeadAbove(tail, depth + 1) && HeadAbove(tail', depth + 1)
    ensures t == u && tail == tail'
    decreases t
  {
    var a, b := PreorderAll(t.children, depth + 1), PreorderAll(u.children, depth + 1);
    assert Preorder(t, depth) + tail == [Line(depth, t.token)] + (a + tail);
    assert Preorder(u, depth) + tail' == [Line(depth, u.token)] + (b + tail');
    assert a + tail == ([Line(depth, t.token)] + (a + tail))[1..];
    assert b + tail' == ([Line(depth, u.token)] + (b + tail'))[1..];
    PreorderAllDecodes(t.children, u.children, depth + 1, tail, tail');
  }

  lemma {:induction false} PreorderAllDecodes(ts: seq<Canonical>, us: seq<Canonical>, depth: int, tail: seq<Line>,
                                              tail': seq<Line>)
    requires PreorderAll(ts, depth) + tail == PreorderAll(us, depth) + tail'
    requires HeadAbove(tail, depth) && HeadAbove(tail', depth)
    ensures ts == us && tail == tail'
    decreases ts
  {
    hide Preorder;
    PreorderAllHead(ts, depth, tail);
    PreorderAllHead(us, depth, tail');
    if ts != [] {
      PreorderAllHead(ts[1..], depth, tail);
      PreorderAllHead(us[1..], depth, tail');
      var a, b := PreorderAll(ts[1..], depth), PreorderAll(us[1..], depth);
      assert PreorderAll(ts, depth) == Preorder(ts[0], depth) + a;
      assert PreorderAll(us, depth) == Preorder(us[0], depth) + b;
      hide PreorderAll;
      assert PreorderAll(ts, depth) + tail == Preorder(ts[0], depth) + (a + tail);
      assert PreorderAll(us, depth) + tail' == Preorder(us[0], depth) + (b + tail');
      PreorderDecodes(ts[0], us[0], depth, a + tail, b + tail');
      PreorderAllDecodes(ts[1..], us[1..], depth, tail, tail');
      assert ts == [ts[0]] + ts[1..] && us == [us[0]] + us[1..];
    } else {
      assert PreorderAll(ts, depth) + tail == tail;
      assert us == [] ==> PreorderAll(us, depth) + tail' == tail';
    }
  }

  lemma PreorderInjective(t: Canonical, u: Canonical, depth: int)
    ensures Preorder(t, depth) == Preorder(u, depth) <==> t == u
  {
    if Preorder(t, depth) == Preorder(u, depth) {
      PreorderDecodes(t, u, depth, [], []);
    }
  }

  // ----- The emitter refines the specification -----

  /** The canonical trees the fold still prints after it has just printed `last`. */
  function MergeAfter<T(==)>(last: Option<T>, s: seq<T>): seq<T>
    decreases |s|
  {
    if s == [] then []
    else if last == Some(s[0]) then MergeAfter(last, s[1..])
    else [s[0]] + MergeAfter(Some(s[0]), s[1..])
  }

  lemma {:induction false} MergeAfterIsMergeAdjacent<T>(last: Option<T>, s: seq<T>)
    ensures last.None? ==> MergeAfter(last, s) == MergeAdjacent(s)
    ensures last.Some? ==> [last.value] + MergeAfter(last, s) == MergeAdjacent([last.value] + s)
    decreases |s|
  {
    if s != [] {
      assert [s[0]] + s[1..] == s;
      MergeAfterIsMergeAdjacent(Some(s[0]), s[1..]);
      if last.Some? {
        assert ([last.value] + s)[1..] == s;
        if last.value == s[0] {
          MergeAfterIsMergeAdjacent(last, s[1..]);
        }
      }
    }
  }

  function SignatureOf(last: Option<Canonical>): Option<seq<Line>> {
    if last.None? then None else Some(Preorder(last.value, 0))
  }

  lemma {:induction false} WalkRefinesPreorder(n: Node, cfg: Config, depth: int, maxDepth: int)
    requires depth <= maxDepth
    ensures Walk(n, cfg, depth, maxDepth) == Preorder(Canon(n, cfg, maxDepth - depth), depth)
    decreases n, 1
  {
    if depth < maxDepth {
      SiblingsRefine(n.children, cfg, depth, maxDepth, None);
      MergeAfterIsMergeAdjacent(None, CanonAll(n.children, cfg, maxDepth - depth - 1));
    }
  }

  lemma {:induction false} PreorderAllCons(t: Canonical, ts: seq<Canonical>, depth: int)
    ensures PreorderAll([t] + ts, depth) == Preorder(t, depth) + PreorderAll(ts, depth)
  {
    assert ([t] + ts)[1..] == ts;
  }

  lemma {:induction false} MergeAfterCons<T>(last: Option<T>, x: T, s: seq<T>)
    ensures MergeAfter(last, [x] + s) == if last == Some(x) then MergeAfter(last, s) else [x] + MergeAfter(Some(x), s)
  {
    assert ([x] + s)[1..] == s;
  }

  function Merged(cfg: Config, last: Option<Canonical>, cs: seq<Canonical>): seq<Canonical> {
    if cfg.foldSiblings then MergeAfter(last, cs) else cs
  }

  /** Comparing signatures is comparing canonical trees, so the loop merges exactly the equal neighbours. */
  lemma {:induction false} SiblingsRefine(ns: seq<Node>, cfg: Config, depth: int, maxDepth: int,
                                          last: Option<Canonical>)
    requires depth < maxDepth
    ensures EmitSiblings(ns, cfg, depth, maxDepth, SignatureOf(last)) ==
            PreorderAll(Merged(cfg, last, CanonAll(ns, cfg, maxDepth - depth - 1)), depth + 1)
    decreases ns, 0
  {
    if ns != [] {
      var h := maxDepth - depth - 1;
      var c, rest := Canon(ns[0], cfg, h), CanonAll(ns[1..], cfg, h);
      WalkRefinesPreorder(ns[0], cfg, 0, h);
      WalkRefinesPreorder(ns[0], cfg, depth + 1, maxDepth);
      SiblingsRefine(ns[1..], cfg, depth, maxDepth, if cfg.foldSiblings && last == Some(c) then last else Some(c));
      SiblingsStep(ns[0], ns[1..], cfg, depth, maxDepth, last, c, rest);
      assert [ns[0]] + ns[1..] == ns;
    }
  }

  lemma {:induction false} SiblingsStep(n: Node, ns: seq<Node>, cfg: Config, depth: int, maxDepth: int,
                                        last: Option<Canonical>,
                     c: Canonical, rest: seq<Canonical>)
    requires depth < maxDepth
    requires Walk(n, cfg, 0, maxDepth - depth - 1) == Preorder(c, 0)
    requires Walk(n, cfg, depth + 1, maxDepth) == Preorder(c, depth + 1)
    requires var next := if cfg.foldSiblings && last == Some(c) then last else Some(c);
             EmitSiblings(ns, cfg, depth, maxDepth, SignatureOf(next)) ==
             PreorderAll(Merged(cfg, next, rest), depth + 1)
    ensures EmitSiblings([n] + ns, cfg, depth, maxDepth, SignatureOf(last)) ==
            PreorderAll(Merged(cfg, last, [c] + rest), depth + 1)
  {
    assert ([n] + ns)[1..] == ns;
    if last.Some? {
      PreorderInjective(c, last.value, 0);
    }
    MergeAfterCons(last, c, rest);
    PreorderAllCons(c, Merged(cfg, Some(c), rest), depth + 1);
  }

  /** Main result: two states share a fingerprint exactly when they have the same template. */
  lemma FingerprintIdentifiesTemplate(t: Node, u: Node, cfg: Config)
    requires cfg.maxDepth >= 0
    ensures Skeleton(t, cfg) == Preorder(Canon(t, cfg, cfg.maxDepth), 0)
    ensures Skeleton(t, cfg) == Skeleton(u, cfg) <==> Canon(t, cfg, cfg.maxDepth) == Canon(u, cfg, cfg.maxDepth)
  {
    WalkRefinesPreorder(t, cfg, 0, cfg.maxDepth);
    WalkRefinesPreorder(u, cfg, 0, cfg.maxDepth);
    PreorderInjective(Canon(t, cfg, cfg.maxDepth), Canon(u, cfg, cfg.maxDepth), 0);
  }

  function Shift(lines: seq<Line>, delta: int): (r: seq<Line>)
    ensures |r| == |lines| && forall i :: 0 <= i < |lines| ==> r[i] == Line(lines[i].depth + delta, lines[i].token)
  {
    if lines == [] then [] else [Line(lines[0].depth + delta, lines[0].token)] + Shift(lines[1..], delta)
  }

  lemma ShiftConcat(a: seq<Line>, b: seq<Line>, delta: int)
    ensures Shift(a + b, delta) == Shift(a, delta) + Shift(b, delta)
  {
    hide Shift;
  }

  lemma {:induction false} PreorderShifts(t: Canonical, depth: int, delta: int)
    ensures Preorder(t, depth + delta) == Shift(Preorder(t, depth), delta)
    decreases t, 1
  {
    PreorderAllShifts(t.children, depth + 1, delta);
  }

  lemma {:induction false} PreorderAllShifts(ts: seq<Canonical>, depth: int, delta: int)
    ensures PreorderAll(ts, depth + delta) == Shift(PreorderAll(ts, depth), delta)
    decreases ts, 0
  {
    if ts != [] {
      PreorderShifts(ts[0], depth, delta);
      PreorderAllShifts(ts[1..], depth, delta);
      ShiftConcat(Preorder(ts[0], depth), PreorderAll(ts[1..], depth), delta);
      hide Shift;
      hide Preorder;
    }
  }

  /** A child's signature is its own later emission with the depth rebased to 0. */
  lemma SignatureIsRebasedEmission(n: Node, cfg: Config, depth: int, maxDepth: int)
    requires depth <= maxDepth
    ensures Walk(n, cfg, depth, maxDepth) == Shift(Walk(n, cfg, 0, maxDepth - depth), depth)
  {
    WalkRefinesPreorder(n, cfg, depth, maxDepth);
    WalkRefinesPreorder(n, cfg, 0, maxDepth - depth);
    PreorderShifts(Canon(n, cfg, maxDepth - depth), 0, depth);
  }

  // ----- Instance data never reaches the fingerprint -----

  datatype Edit = SetAttr(name: string, value: string) | RepeatChild(index: nat)

  function ApplyEdit(n: Node, e: Edit): Node {
    match e
    case SetAttr(a, v) => n.(attrs := n.attrs[a := v])
    case RepeatChild(i) =>
      if i < |n.children| then n.(children := n.children[..i + 1] + n.children[i..]) else n
  }

  /** The edit made at the node a path of child positions leads to (no such node: no change). */
  function EditAt(n: Node, path: seq<nat>, e: Edit): Node
    decreases |path|
  {
    if path == [] then ApplyEdit(n, e)
    else if path[0] < |n.children| then
      n.(children := n.children[path[0] := EditAt(n.children[path[0]], path[1..], e)])
    else n
  }

  function NodeAt(n: Node, path: seq<nat>): Option<Node>
    decreases |path|
  {
    if path == [] then Some(n)
    else if path[0] < |n.children| then NodeAt(n.children[path[0]], path[1..])
    else None
  }

  /** An edit of instance data only: an attribute that is not kept, a new value for an attribute kept
      as a presence marker, new digit runs in any other kept value, or one more copy of a child. */
  predicate InstanceEdit(n: Node, e: Edit, cfg: Config) {
    match e
    case SetAttr(a, v) =>
      || !Kept(a, cfg)
      || (a in n.attrs && (a in VALUE_STRIPPED_ATTRS || SameUpToDigitRuns(n.attrs[a], v, cfg.digits)))
    case RepeatChild(_) => cfg.foldSiblings
  }

  /** Equal once each maximal run of digits is treated as a single token. */
  predicate SameUpToDigitRuns(s: string, t: string, digits: set<char>)
    decreases |s| + |t|
  {
    if s == "" || t == "" then s == t
    else if s[0] in digits && t[0] in digits then
      SameUpToDigitRuns(DropDigits(s, digits), DropDigits(t, digits), digits)
    else s[0] == t[0] && SameUpToDigitRuns(s[1..], t[1..], digits)
  }

  function DropDigits(s: string, digits: set<char>): (r: string)
    ensures |r| <= |s|
    ensures s != "" && s[0] in digits ==> |r| < |s|
    ensures r != "" ==> r[0] !in digits
    ensures FoldNumbers(s, digits, true) == FoldNumbers(r, digits, false)
  {
    if s != "" && s[0] in digits then DropDigits(s[1..], digits) else s
  }

  lemma {:induction false} DigitRunsFoldAlike(s: string, t: string, digits: set<char>)
    requires SameUpToDigitRuns(s, t, digits)
    ensures FoldNumbers(s, digits, false) == FoldNumbers(t, digits, false)
    decreases |s| + |t|
  {
    if s != "" && t != "" {
      if s[0] in digits && t[0] in digits {
        DigitRunsFoldAlike(DropDigits(s, digits), DropDigits(t, digits), digits);
        assert DropDigits(s, digits) == DropDigits(s[1..], digits);
        assert DropDigits(t, digits) == DropDigits(t[1..], digits);
      } else {
        DigitRunsFoldAlike(s[1..], t[1..], digits);
      }
    }
  }

  lemma {:induction false} MergeAbsorbsRepeat<T>(s: seq<T>, i: nat)
    requires i < |s|
    ensures MergeAdjacent(s[..i + 1] + s[i..]) == MergeAdjacent(s)
  {
    var r := s[..i + 1] + s[i..];
    if i == 0 {
      assert r[1..] == s && r[0] == r[1];
    } else {
      MergeAbsorbsRepeat(s[1..], i - 1);
      assert r[1..] == s[1..][..i] + s[1..][i - 1..];
      assert r[0] == s[0] && r[1] == s[1];
    }
  }

  lemma {:induction false} CanonAllCongruent(ns: seq<Node>, ms: seq<Node>, cfg: Config, height: nat)
    requires |ns| == |ms| && forall i :: 0 <= i < |ns| ==> Canon(ns[i], cfg, height) == Canon(ms[i], cfg, height)
    ensures CanonAll(ns, cfg, height) == CanonAll(ms, cfg, height)
  {
    CanonAllAt(ns, cfg, height);
    CanonAllAt(ms, cfg, height);
    hide Canon;
    hide CanonAll;
    assert CanonAll(ns, cfg, height) == CanonAll(ms, cfg, height);
  }

  lemma CanonAllRepeat(ns: seq<Node>, i: nat, cfg: Config, height: nat)
    requires i < |ns|
    ensures CanonAll(ns[..i + 1] + ns[i..], cfg, height) ==
            CanonAll(ns, cfg, height)[..i + 1] + CanonAll(ns, cfg, height)[i..]
  {
    CanonAllAt(ns, cfg, height);
    CanonAllAt(ns[..i + 1] + ns[i..], cfg, height);
    hide Canon;
    hide CanonAll;
    assert CanonAll(ns[..i + 1] + ns[i..], cfg, height) ==
           CanonAll(ns, cfg, height)[..i + 1] + CanonAll(ns, cfg, height)[i..];
  }

  lemma EditKeepsTemplateHere(n: Node, e: Edit, cfg: Config, height: nat)
    requires InstanceEdit(n, e, cfg)
    ensures Canon(ApplyEdit(n, e), cfg, height) == Canon(n, cfg, height)
  {
    match e
    case SetAttr(a, v) =>
      if Kept(a, cfg) && a !in VALUE_STRIPPED_ATTRS {
        DigitRunsFoldAlike(n.attrs[a], v, cfg.digits);
      }
      assert TokenOf(ApplyEdit(n, e), cfg).attrs == TokenOf(n, cfg).attrs;
    case RepeatChild(i) =>
      if i < |n.children| && height > 0 {
        MergeAbsorbsRepeat(CanonAll(n.children, cfg, height - 1), i);
        CanonAllRepeat(n.children, i, cfg, height - 1);
      }
  }

  lemma {:induction false} InstanceEditKeepsTemplate(n: Node, path: seq<nat>, e: Edit, cfg: Config, height: nat)
    requires NodeAt(n, path).Some? ==> InstanceEdit(NodeAt(n, path).value, e, cfg)
    ensures Canon(EditAt(n, path, e), cfg, height) == Canon(n, cfg, height)
    decreases |path|
  {
    if path == [] {
      EditKeepsTemplateHere(n, e, cfg, height);
    } else if path[0] < |n.children| && height > 0 {
      InstanceEditKeepsTemplate(n.children[path[0]], path[1..], e, cfg, height - 1);
      CanonAllCongruent(EditAt(n, path, e).children, n.children, cfg, height - 1);
    }
  }

  /** Rewriting ids, names, classes, hrefs, test hooks or counters, or repeating a child beside
      itself, anywhere in a page, leaves its fingerprint unchanged. */
  lemma InstanceEditKeepsFingerprint(n: Node, path: seq<nat>, e: Edit, cfg: Config)
    requires NodeAt(n, path).Some? ==> InstanceEdit(NodeAt(n, path).value, e, cfg)
    ensures Skeleton(EditAt(n, path, e), cfg) == Skeleton(n, cfg)
  {
    if cfg.maxDepth >= 0 {
      InstanceEditKeepsTemplate(n, path, e, cfg, cfg.maxDepth);
      FingerprintIdentifiesTemplate(EditAt(n, path, e), n, cfg);
    }
  }

  // ----- The emitter as code: one shared list of lines, appended to in place -----

  class Emitter {
    var parts: seq<Line>

    constructor ()
      ensures parts == []
    {
      parts := [];
    }

    method WalkInto(node: Node, cfg: Config, depth: int, maxDepth: int)
      modifies this
      ensures parts == old(parts) + Walk(node, cfg, depth, maxDepth)
      decreases node, 1
    {
      if depth > maxDepth {
        return;
      }
      parts := parts + [Line(depth, TokenOf(node, cfg))];
      EmitChildren(node, cfg, depth, maxDepth);
    }

    method EmitChildren(node: Node, cfg: Config, depth: int, maxDepth: int)
      modifies this
      ensures parts == old(parts) + ChildLines(node, cfg, depth, maxDepth)
      decreases node, 0
    {
      if depth >= maxDepth {
        return;
      }
      ghost var before, all := parts, node.children;
      if !cfg.foldSiblings {
        ghost var seen := None;
        for i := 0 to |node.children|
          invariant before + EmitSiblings(all, cfg, depth, maxDepth, None) ==
                    parts + EmitSiblings(all[i..], cfg, depth, maxDepth, seen)
        {
          EmitOne(all, i, cfg, depth, maxDepth, seen, parts);
          seen := Some(Walk(node.children[i], cfg, 0, maxDepth - (depth + 1)));
          WalkInto(node.children[i], cfg, depth + 1, maxDepth);
        }
        return;
      }
      var lastSig := None;
      for i := 0 to |node.children|
        invariant before + EmitSiblings(all, cfg, depth, maxDepth, None) ==
                  parts + EmitSiblings(all[i..], cfg, depth, maxDepth, lastSig)
      {
        EmitOne(all, i, cfg, depth, maxDepth, lastSig, parts);
        var sig := ChildSignature(node.children[i], cfg, maxDepth - (depth + 1));
        if Some(sig) == lastSig {
          continue;
        }
        lastSig := Some(sig);
        WalkInto(node.children[i], cfg, depth + 1, maxDepth);
      }
    }
  }

  /** One turn of the sibling loop, as a step of `EmitSiblings`. */
  lemma {:induction false} EmitOne(ns: seq<Node>, i: nat, cfg: Config, depth: int, maxDepth: int,
                                   lastSig: Option<seq<Line>>, out: seq<Line>)
    requires i < |ns|
    ensures var sig := Some(Walk(ns[i], cfg, 0, maxDepth - (depth + 1)));
            out + EmitSiblings(ns[i..], cfg, depth, maxDepth, lastSig) ==
            if cfg.foldSiblings && sig == lastSig then out + EmitSiblings(ns[i + 1..], cfg, depth, maxDepth, lastSig)
            else out + Walk(ns[i], cfg, depth + 1, maxDepth) + EmitSiblings(ns[i + 1..], cfg, depth, maxDepth, sig)
  {
    assert ns[i..][1..] == ns[i + 1..];
  }

  method ChildSignature(node: Node, cfg: Config, remainingDepth: int) returns (signature: seq<Line>)
    ensures signature == Walk(node, cfg, 0, remainingDepth)
    decreases node, 2
  {
    var e := new Emitter();
    e.WalkInto(node, cfg, 0, remainingDepth);
    signature := e.parts;
  }

  /** What is hashed is the printed template; a negative depth cap hashes nothing. */
  method StructuralFingerprint(tree: Node, cfg: Config) returns (skeleton: seq<Line>)
    ensures skeleton == if cfg.maxDepth < 0 then [] else Preorder(Canon(tree, cfg, cfg.maxDepth), 0)
  {
    var e := new Emitter();
    e.WalkInto(tree, cfg, 0, cfg.maxDepth);
    skeleton := e.parts;
    if cfg.maxDepth >= 0 {
      FingerprintIdentifiesTemplate(tree, tree, cfg);
    }
  }
}
