/** The failure-message normaliser: four ordered substitutions and a whitespace collapse. */
module Normalizer {
  import opened Common

  /** What the regex engine's digit, word and space classes contain. */
  datatype Classes = Classes(digits: set<char>, words: set<char>, spaces: set<char>)

  /** The ASCII facts about the classes that the source relies on. */
  predicate Sane(k: Classes) {
    && (forall c | '0' <= c <= '9' :: c in k.digits)
    && (forall c | c in k.digits :: c in k.words && c !in "<>-:TXuidtshexn" && c !in "|low" && c !in "abcdefABCDEF")
    && (forall c | c in "<>-:Tuidtshexn" || c in k.words :: c !in k.spaces)
    && (forall c | IsHex(c) || c == 'x' || c == 'X' :: c in k.words)
    && '<' !in k.words && '>' !in k.words && ' ' in k.spaces
  }

  predicate IsHex(c: char) {
    '0' <= c <= '9' || 'a' <= c <= 'f' || 'A' <= c <= 'F'
  }

  // ----- Patterns -----

  datatype Pattern = Uuid | Timestamp | HexNumber | Number

  function Placeholder(p: Pattern): string {
    match p
    case Uuid => "<uuid>"
    case Timestamp => "<ts>"
    case HexNumber => "<hex>"
    case Number => "<n>"
  }

  /** The i-th of the 36 characters of a uuid. */
  predicate UuidChar(i: nat, c: char) {
    if i == 8 || i == 13 || i == 18 || i == 23 then c == '-' else IsHex(c)
  }

  predicate IsUuid(s: string) {
    |s| == 36 && forall i | 0 <= i < 36 :: UuidChar(i, s[i])
  }

  /** The i-th of the 19 characters a timestamp must start with. */
  predicate TimestampChar(i: nat, c: char, k: Classes) {
    if i == 4 || i == 7 then c == '-'
    else if i == 10 then c == 'T' || c == ' '
    else if i == 13 || i == 16 then c == ':'
    else c in k.digits
  }

  /** The classes whose maximal runs the patterns take. */
  datatype Class = Hex | Digit | NonSpace

  predicate InClass(c: char, cls: Class, k: Classes) {
    match cls
    case Hex => IsHex(c)
    case Digit => c in k.digits
    case NonSpace => c !in k.spaces
  }

  function RunLength(s: string, cls: Class, k: Classes): (n: nat)
    ensures n <= |s|
  {
    if s == "" || !InClass(s[0], cls, k) then 0 else 1 + RunLength(s[1..], cls, k)
  }

  predicate WordAt(c: Option<char>, k: Classes) {
    c.Some? && c.value in k.words
  }

  /** How much of `s` the pattern matches at its start (0: no match); `prev` is the character before. */
  function MatchLength(p: Pattern, prev: Option<char>, s: string, k: Classes): (n: nat)
    ensures n <= |s|
  {
    match p
    case Uuid => if |s| >= 36 && IsUuid(s[..36]) then 36 else 0
    case Timestamp =>
      if |s| >= 19 && forall i | 0 <= i < 19 :: TimestampChar(i, s[i], k)
      then 19 + RunLength(s[19..], NonSpace, k) else 0
    case HexNumber =>
      // a boundary, "0x", hex digits, a boundary: the run is maximal because hex digits are word characters
      if |s| >= 3 && s[0] == '0' && (s[1] == 'x' || s[1] == 'X') && IsHex(s[2])
         && WordAt(prev, k) != (s[0] in k.words)
      then
        var n := 2 + RunLength(s[2..], Hex, k);
        if n == |s| || s[n] !in k.words then n else 0
      else 0
    case Number => RunLength(s, Digit, k)
  }

  /** Leftmost, non-overlapping substitution. */
  function Substitute(p: Pattern, prev: Option<char>, s: string, k: Classes): string
    decreases |s|
  {
    if s == "" then ""
    else
      var n := MatchLength(p, prev, s, k);
      if n > 0 then Placeholder(p) + Substitute(p, Some(s[n - 1]), s[n..], k)
      else [s[0]] + Substitute(p, Some(s[0]), s[1..], k)
  }

  // ----- Whitespace -----

  function SkipSpaces(s: string, k: Classes): (r: string)
    ensures |r| <= |s| && (r != "" ==> r[0] !in k.spaces)
  {
    if s != "" && s[0] in k.spaces then SkipSpaces(s[1..], k) else s
  }

  function WordLength(s: string, k: Classes): (n: nat)
    ensures n <= |s| && (s != "" && s[0] !in k.spaces ==> n > 0)
    ensures forall i | 0 <= i < n :: s[i] !in k.spaces
    ensures n < |s| ==> s[n] in k.spaces
  {
    if s == "" || s[0] in k.spaces then 0 else 1 + WordLength(s[1..], k)
  }

  /** `s.split()`: the maximal runs of non-space characters. */
  function Split(s: string, k: Classes): seq<string>
    decreases |s|
  {
    var t := SkipSpaces(s, k);
    if t == "" then [] else [t[..WordLength(t, k)]] + Split(t[WordLength(t, k)..], k)
  }

  function Join(words: seq<string>): string {
    if words == [] then "" else if |words| == 1 then words[0] else words[0] + " " + Join(words[1..])
  }

  /** The four substitutions, in order. */
  function Passes(msg: string, k: Classes): string {
    var s1 := Substitute(Uuid, None, msg, k);
    var s2 := Substitute(Timestamp, None, s1, k);
    var s3 := Substitute(HexNumber, None, s2, k);
    Substitute(Number, None, s3, k)
  }

  function Normalize(msg: string, k: Classes): string {
    Join(Split(Passes(msg, k), k))
  }

  // ----- A window without angle brackets was copied from the input -----

  predicate Plain(s: string) {
    '<' !in s && '>' !in s
  }

  predicate Occurs(w: string, s: string) {
    exists i | 0 <= i <= |s| :: w <= s[i..]
  }

  /** A substitution step: what is written for the head of the input, and how much of it that consumes. */
  function Head(p: Pattern, prev: Option<char>, s: string, k: Classes): string
    requires s != ""
  {
    if MatchLength(p, prev, s, k) > 0 then Placeholder(p) else [s[0]]
  }

  function Consumed(p: Pattern, prev: Option<char>, s: string, k: Classes): (n: nat)
    requires s != ""
    ensures 1 <= n <= |s|
  {
    Max(1, MatchLength(p, prev, s, k))
  }

  lemma SubstituteStep(p: Pattern, prev: Option<char>, s: string, k: Classes)
    requires s != ""
    ensures var n, h := Consumed(p, prev, s, k), Head(p, prev, s, k);
            && Substitute(p, prev, s, k) == h + Substitute(p, Some(s[n - 1]), s[n..], k)
            && (if MatchLength(p, prev, s, k) > 0 then 1 < |h| <= 6 && h[0] == '<' && h[|h| - 1] == '>'
                else n == 1 && h == [s[0]])
  {}

  lemma SubstituteOfEmpty(p: Pattern, prev: Option<char>, k: Classes)
    ensures Substitute(p, prev, "", k) == ""
  {}

  /** A plain word cannot lie over an angle bracket. */
  lemma BracketBlocks(w: string, t: string, i: nat, q: nat)
    requires Plain(w) && i <= q < i + |w| && q < |t| && (t[q] == '<' || t[q] == '>')
    ensures !(w <= t[i..])
  {
    assert w[q - i] in w;
    assert t[i..][q - i] == t[q];
  }

  /** A plain prefix of the output is a prefix of the input. */
  lemma {:induction false} PlainPrefixCopied(p: Pattern, prev: Option<char>, s: string, k: Classes, w: string)
    requires Plain(w)
    ensures w <= Substitute(p, prev, s, k) ==> w <= s
    decreases |s|
  {
    if w != "" && s != "" {
      var t := Substitute(p, prev, s, k);
      SubstituteStep(p, prev, s, k);
      assert t[0..] == t;
      if MatchLength(p, prev, s, k) > 0 {
        BracketBlocks(w, t, 0, 0);
      } else {
        assert forall c | c in w[1..] :: c in w;
        PlainPrefixCopied(p, Some(s[0]), s[1..], k, w[1..]);
        assert t[1..] == Substitute(p, Some(s[0]), s[1..], k);
        assert w <= t ==> w[1..] <= t[1..];
      }
    }
  }

  /** A plain window longer than any placeholder's inside was copied whole from the input: no placeholder
      supplies part of it and no join across one creates it. */
  lemma {:induction false} PlainWindowCopied(p: Pattern, prev: Option<char>, s: string, k: Classes, i: nat, w: string)
    requires Plain(w) && |w| >= 6 && i <= |Substitute(p, prev, s, k)|
    ensures w <= Substitute(p, prev, s, k)[i..] ==> Occurs(w, s)
    decreases |s|
  {
    hide Substitute;
    hide MatchLength;
    var t := Substitute(p, prev, s, k);
    SubstituteOfEmpty(p, prev, k);
    if i == 0 {
      PlainPrefixCopied(p, prev, s, k, w);
      assert s[0..] == s && t[0..] == t;
    } else if s != "" {
      SubstituteStep(p, prev, s, k);
      var n, h := Consumed(p, prev, s, k), Head(p, prev, s, k);
      if i < |h| {
        BracketBlocks(w, t, i, |h| - 1);
      } else {
        var rest := Substitute(p, Some(s[n - 1]), s[n..], k);
        hide *;
        assert t[i..] == rest[i - |h|..];
        PlainWindowCopied(p, Some(s[n - 1]), s[n..], k, i - |h|, w);
        if Occurs(w, s[n..]) {
          OccursInTail(w, s, n);
        }
      }
    }
  }

  lemma OccursInTail(w: string, s: string, from: nat)
    requires from <= |s| && Occurs(w, s[from..])
    ensures Occurs(w, s)
  {
    var i :| 0 <= i <= |s[from..]| && w <= s[from..][i..];
    assert s[from..][i..] == s[from + i..];
  }

  lemma UuidIsPlain(w: string)
    requires IsUuid(w)
    ensures Plain(w)
  {
    forall c | c in w ensures c != '<' && c != '>' {
      var i :| 0 <= i < |w| && w[i] == c;
      assert UuidChar(i, w[i]);
    }
  }

  lemma UuidPrefixMatches(prev: Option<char>, s: string, k: Classes, w: string)
    requires IsUuid(w)
    ensures w <= s ==> MatchLength(Uuid, prev, s, k) > 0
  {
    assert w <= s ==> s[..36] == w;
  }

  /** The uuid pass leaves no uuid. */
  lemma {:induction false} NoUuidSurvives(prev: Option<char>, s: string, k: Classes, i: nat, w: string)
    requires IsUuid(w) && i <= |Substitute(Uuid, prev, s, k)|
    ensures !(w <= Substitute(Uuid, prev, s, k)[i..])
    decreases |s|
  {
    var t := Substitute(Uuid, prev, s, k);
    UuidIsPlain(w);
    if s != "" {
      SubstituteStep(Uuid, prev, s, k);
      var n, h := Consumed(Uuid, prev, s, k), Head(Uuid, prev, s, k);
      if i >= |h| {
        assert t[i..] == Substitute(Uuid, Some(s[n - 1]), s[n..], k)[i - |h|..];
        NoUuidSurvives(Some(s[n - 1]), s[n..], k, i - |h|, w);
      } else if MatchLength(Uuid, prev, s, k) > 0 {
        BracketBlocks(w, t, i, |h| - 1);
      } else {
        assert i == 0 && t[0..] == t;
        PlainPrefixCopied(Uuid, prev, s, k, w);
        UuidPrefixMatches(prev, s, k, w);
      }
    }
  }

  // ----- The whitespace collapse -----

  predicate SpaceFree(s: string, k: Classes) {
    forall c | c in s :: c !in k.spaces
  }

  predicate Words(ws: seq<string>, k: Classes) {
    forall w | w in ws :: w != "" && SpaceFree(w, k)
  }

  lemma {:induction false} SplitGivesWords(s: string, k: Classes)
    ensures Words(Split(s, k), k)
    decreases |s|
  {
    var t := SkipSpaces(s, k);
    if t != "" {
      SplitGivesWords(t[WordLength(t, k)..], k);
    }
  }

  lemma {:induction false} WordLengthOf(w: string, rest: string, k: Classes)
    requires SpaceFree(w, k) && (rest == "" || rest[0] in k.spaces)
    ensures WordLength(w + rest, k) == |w|
  {
    if w == "" {
      assert w + rest == rest;
    } else {
      assert (w + rest)[1..] == w[1..] + rest;
      assert w[0] in w && forall c | c in w[1..] :: c in w;
      WordLengthOf(w[1..], rest, k);
    }
  }

  lemma JoinCons(w: string, ws: seq<string>)
    ensures Join([w] + ws) == w + if ws == [] then "" else " " + Join(ws)
  {
    assert ([w] + ws)[1..] == ws;
  }

  /** Splitting what was joined gives the words back. */
  lemma {:induction false} SplitOfJoin(ws: seq<string>, k: Classes)
    requires Words(ws, k) && ' ' in k.spaces
    ensures Split(Join(ws), k) == ws
  {
    if ws != [] {
      var w, rest := ws[0], ws[1..];
      var tail := if rest == [] then "" else " " + Join(rest);
      assert ws == [w] + rest;
      assert ws[0] in ws && forall x | x in rest :: x in ws;
      SplitOfJoin(rest, k);
      JoinCons(w, rest);
      SplitFirstWord(w, tail, k);
      if rest != [] {
        assert tail[1..] == Join(rest);
        SplitSkipsSpace(tail, k);
      }
      hide Split;
      hide Join;
    }
  }

  lemma SplitFirstWord(w: string, rest: string, k: Classes)
    requires w != "" && SpaceFree(w, k) && (rest == "" || rest[0] in k.spaces)
    ensures Split(w + rest, k) == [w] + Split(rest, k)
  {
    var s := w + rest;
    assert w[0] in w && s[0] == w[0];
    WordLengthOf(w, rest, k);
    assert s[..|w|] == w && s[|w|..] == rest;
  }

  lemma SplitSkipsSpace(s: string, k: Classes)
    requires s != "" && s[0] in k.spaces
    ensures Split(s, k) == Split(s[1..], k)
  {}

  lemma SkipSpacesIsTail(s: string, k: Classes)
    returns (n: nat)
    ensures n <= |s| && SkipSpaces(s, k) == s[n..]
  {
    n := 0;
    if s != "" && s[0] in k.spaces {
      var m := SkipSpacesIsTail(s[1..], k);
      n := m + 1;
    }
  }

  /** A space-free window lies on one side of a space. */
  lemma WindowOnOneSide(word: string, rest: string, w: string, i: nat)
    requires w != "" && ' ' !in w && i <= |word + " " + rest|
    ensures w <= (word + " " + rest)[i..] ==>
              if i + |w| <= |word| then w <= word[i..] else i > |word| && w <= rest[i - |word| - 1..]
  {
    var s := word + " " + rest;
    assert s[|word|] == ' ';
    if i <= |word| < i + |w| {
      SpaceBlocks(w, s, i, |word|);
    } else if i > |word| {
      assert s[i..] == rest[i - |word| - 1..];
    } else {
      assert s[i..][..|w|] == word[i..][..|w|];
    }
  }

  lemma SpaceBlocks(w: string, s: string, i: nat, q: nat)
    requires ' ' !in w && i <= q < i + |w| && q < |s| && s[q] == ' '
    ensures !(w <= s[i..])
  {
    assert w[q - i] in w;
    assert s[i..][q - i] == s[q];
  }

  lemma CollapseStep(s: string, k: Classes) returns (n: nat, m: nat)
    ensures n <= |s| && m <= |s[n..]| && (s != "" ==> n + m > 0)
    ensures var rest := s[n..][m..];
            Join(Split(s, k)) == if s[n..] == "" then ""
                                 else s[n..][..m] + if Split(rest, k) == [] then "" else " " + Join(Split(rest, k))
  {
    n := SkipSpacesIsTail(s, k);
    var t := SkipSpaces(s, k);
    m := WordLength(t, k);
    if t != "" {
      JoinCons(t[..m], Split(t[m..], k));
    }
  }

  /** A space-free window of the collapsed text was in the text: collapsing joins nothing. */
  lemma {:induction false} SpaceFreeWindowKept(s: string, k: Classes, w: string, i: nat)
    requires ' ' in k.spaces && w != "" && SpaceFree(w, k)
    requires i <= |Join(Split(s, k))| && w <= Join(Split(s, k))[i..]
    ensures Occurs(w, s)
    decreases |s|
  {
    hide Split;
    hide Join;
    var n, m := CollapseStep(s, k);
    var t := s[n..];
    var word, rest := t[..m], t[m..];
    if Split(rest, k) == [] {
      assert t[i..][..|w|] == w;
      assert Occurs(w, t);
    } else {
      WindowOnOneSide(word, Join(Split(rest, k)), w, i);
      if i + |w| <= m {
        assert t[i..][..|w|] == w;
        assert Occurs(w, t);
      } else {
        SpaceFreeWindowKept(rest, k, w, i - m - 1);
        OccursInTail(w, t, m);
      }
    }
    OccursInTail(w, s, n);
  }

  // ----- No digit survives -----

  predicate DigitFree(s: string, k: Classes) {
    forall c | c in s :: c !in k.digits
  }

  lemma {:induction false} NumbersLeaveNoDigit(prev: Option<char>, s: string, k: Classes)
    requires Sane(k)
    ensures DigitFree(Substitute(Number, prev, s, k), k)
    decreases |s|
  {
    if s != "" {
      var n := MatchLength(Number, prev, s, k);
      if n > 0 {
        assert DigitFree("<n>", k) by { assert forall c | c in "<n>" :: c in "<>-uidtshexn"; }
        NumbersLeaveNoDigit(Some(s[n - 1]), s[n..], k);
      } else {
        NumbersLeaveNoDigit(Some(s[0]), s[1..], k);
      }
    }
  }

  lemma {:induction false} CollapseAddsOnlySpaces(s: string, k: Classes)
    ensures forall c | c in Join(Split(s, k)) :: c in s || c == ' '
    decreases |s|
  {
    var n := SkipSpacesIsTail(s, k);
    var t := SkipSpaces(s, k);
    if t != "" {
      var m := WordLength(t, k);
      assert Split(s, k)[1..] == Split(t[m..], k);
      CollapseAddsOnlySpaces(t[m..], k);
      assert forall c | c in t[..m] || c in t[m..] :: c in t;
      assert forall c | c in t :: c in s;
    }
  }

  // ----- Nothing left to substitute -----

  lemma {:induction false} DigitFreeIsUntouched(p: Pattern, prev: Option<char>, s: string, k: Classes)
    requires Sane(k) && DigitFree(s, k) && !p.Uuid?
    ensures Substitute(p, prev, s, k) == s
    decreases |s|
  {
    if s != "" {
      NoMatchWithoutDigit(p, prev, s, k);
      hide MatchLength;
      hide Sane;
      assert forall c | c in s[1..] :: c in s;
      DigitFreeIsUntouched(p, Some(s[0]), s[1..], k);
    }
  }

  lemma NoMatchWithoutDigit(p: Pattern, prev: Option<char>, s: string, k: Classes)
    requires Sane(k) && s != "" && DigitFree(s, k) && !p.Uuid?
    ensures MatchLength(p, prev, s, k) == 0
  {
    assert s[0] in s;
    assert p.Timestamp? && |s| >= 19 ==> !TimestampChar(0, s[0], k);
  }

  predicate UuidFree(s: string) {
    s == "" || (!(|s| >= 36 && IsUuid(s[..36])) && UuidFree(s[1..]))
  }

  lemma {:induction false} UuidFreeIsUntouched(prev: Option<char>, s: string, k: Classes)
    requires UuidFree(s)
    ensures Substitute(Uuid, prev, s, k) == s
    decreases |s|
  {
    if s != "" {
      UuidFreeIsUntouched(Some(s[0]), s[1..], k);
    }
  }

  lemma UuidIsSpaceFree(w: string, k: Classes)
    requires IsUuid(w) && Sane(k)
    ensures SpaceFree(w, k)
  {
    forall c | c in w ensures c !in k.spaces {
      var i :| 0 <= i < |w| && w[i] == c;
      assert UuidChar(i, w[i]);
    }
  }

  /** No pass after the first, and no collapse, makes a uuid. */
  lemma NoUuidAt(msg: string, k: Classes, i: nat, w: string)
    requires Sane(k) && IsUuid(w) && i <= |Normalize(msg, k)|
    ensures !(w <= Normalize(msg, k)[i..])
  {
    var s1 := Substitute(Uuid, None, msg, k);
    var s2 := Substitute(Timestamp, None, s1, k);
    var s3 := Substitute(HexNumber, None, s2, k);
    var s4 := Substitute(Number, None, s3, k);
    UuidIsPlain(w);
    UuidIsSpaceFree(w, k);
    if w <= Normalize(msg, k)[i..] {
      SpaceFreeWindowKept(s4, k, w, i);
      WindowTracesBack(Number, s3, k, w);
      WindowTracesBack(HexNumber, s2, k, w);
      WindowTracesBack(Timestamp, s1, k, w);
      var j :| 0 <= j <= |s1| && w <= s1[j..];
      NoUuidSurvives(None, msg, k, j, w);
    }
  }

  lemma {:induction false} NormalizedHasNoUuid(msg: string, k: Classes, i: nat)
    requires Sane(k) && i <= |Normalize(msg, k)|
    ensures UuidFree(Normalize(msg, k)[i..])
    decreases |Normalize(msg, k)| - i
  {
    var out := Normalize(msg, k);
    hide Normalize;
    if i < |out| {
      var t := out[i..];
      assert t[1..] == out[i + 1..];
      NormalizedHasNoUuid(msg, k, i + 1);
      if |t| >= 36 && IsUuid(t[..36]) {
        NoUuidAt(msg, k, i, t[..36]);
      }
    }
  }

  lemma WindowTracesBack(p: Pattern, s: string, k: Classes, w: string)
    requires Plain(w) && |w| >= 6 && Occurs(w, Substitute(p, None, s, k))
    ensures Occurs(w, s)
  {
    var i :| 0 <= i <= |Substitute(p, None, s, k)| && w <= Substitute(p, None, s, k)[i..];
    PlainWindowCopied(p, None, s, k, i, w);
  }

  lemma NormalizedHasNoDigit(msg: string, k: Classes)
    requires Sane(k)
    ensures DigitFree(Normalize(msg, k), k)
  {
    var s3 := Substitute(HexNumber, None, Substitute(Timestamp, None, Substitute(Uuid, None, msg, k), k), k);
    NumbersLeaveNoDigit(None, s3, k);
    CollapseAddsOnlySpaces(Substitute(Number, None, s3, k), k);
  }

  /** Main result: normalising is idempotent on every string, and leaves no digit. */
  lemma NormalizeIsIdempotent(msg: string, k: Classes)
    requires Sane(k)
    ensures Normalize(Normalize(msg, k), k) == Normalize(msg, k)
    ensures DigitFree(Normalize(msg, k), k)
  {
    var out := Normalize(msg, k);
    var s2 := Substitute(Timestamp, None, Substitute(Uuid, None, msg, k), k);
    var s4 := Substitute(Number, None, Substitute(HexNumber, None, s2, k), k);
    NormalizedHasNoUuid(msg, k, 0);
    assert out[0..] == out;
    NormalizedHasNoDigit(msg, k);
    UuidFreeIsUntouched(None, out, k);
    DigitFreeIsUntouched(Timestamp, None, out, k);
    DigitFreeIsUntouched(HexNumber, None, out, k);
    DigitFreeIsUntouched(Number, None, out, k);
    SplitGivesWords(s4, k);
    SplitOfJoin(Split(s4, k), k);
  }

  // ----- The defect fingerprint -----

  /** The text that is hashed into the issue label. */
  function KeyText(cls: string, msg: string, flow: string, step: string, k: Classes): string {
    cls + "|" + Normalize(msg, k) + "|" + flow + "|" + step
  }

  lemma FirstPipeAt(a: string, x: string)
    requires '|' !in a
    ensures var s := a + "|" + x;
            s[|a|] == '|' && (forall i | 0 <= i < |a| :: s[i] != '|') && s[..|a|] == a && s[|a| + 1..] == x
  {
    forall i | 0 <= i < |a| ensures (a + "|" + x)[i] != '|' {
      assert a[i] in a;
    }
  }

  lemma LastPipeAt(x: string, a: string)
    requires '|' !in a
    ensures var s := x + "|" + a;
            s[|x|] == '|' && (forall i | |x| < i < |s| :: s[i] != '|') && s[..|x|] == x && s[|x| + 1..] == a
  {
    forall i | |x| < i < |x + "|" + a| ensures (x + "|" + a)[i] != '|' {
      assert a[i - |x| - 1] in a;
    }
  }

  lemma FirstPipeSplits(a: string, x: string, b: string, y: string)
    requires '|' !in a && '|' !in b && a + "|" + x == b + "|" + y
    ensures a == b && x == y
  {
    FirstPipeAt(a, x);
    FirstPipeAt(b, y);
  }

  lemma LastPipeSplits(x: string, a: string, y: string, b: string)
    requires '|' !in a && '|' !in b && x + "|" + a == y + "|" + b
    ensures a == b && x == y
  {
    LastPipeAt(x, a);
    LastPipeAt(y, b);
  }

  /** The flow ids the system mines: "flow-" and a number. */
  function FlowId(i: nat): string {
    "flow-" + Decimal(i)
  }

  lemma FlowIdHasNoPipe(i: nat)
    ensures '|' !in FlowId(i) && '|' !in Decimal(i)
  {}

  /** Where the first digit stands after a digit-free message and the flow id's own text. */
  lemma FirstDigitIsTheFlows(n: string, i: nat, tail: string, k: Classes)
    requires Sane(k) && DigitFree(n, k)
    ensures var s := n + "|" + FlowId(i) + tail;
            && |n| + 6 < |s| && s[|n| + 6] in k.digits && (forall j | 0 <= j < |n| + 6 :: s[j] !in k.digits)
            && s[..|n|] == n && s[|n| + 6..] == Decimal(i) + tail
  {
    var s, d := n + "|" + FlowId(i) + tail, Decimal(i);
    assert s == n + "|flow-" + d + tail;
    assert s[|n| + 6] == d[0] && d[0] in d;
    forall j | 0 <= j < |n| + 6 ensures s[j] !in k.digits {
      if j < |n| {
        assert s[j] == n[j] && n[j] in n;
      } else {
        assert s[j] == "|flow-"[j - |n|];
        assert s[j] in "|low" || s[j] in "-" || s[j] == 'f';
      }
    }
  }

  /** The digit-free message ends where the flow id begins, pipes in it or not. */
  lemma FlowDelimitsTheMessage(n: string, i: nat, tail: string, n': string, i': nat, tail': string, k: Classes)
    requires Sane(k) && DigitFree(n, k) && DigitFree(n', k)
    requires n + "|" + FlowId(i) + tail == n' + "|" + FlowId(i') + tail'
    ensures n == n' && Decimal(i) + tail == Decimal(i') + tail'
  {
    hide Sane;
    hide DigitFree;
    hide FlowId;
    hide Decimal;
    FirstDigitIsTheFlows(n, i, tail, k);
    FirstDigitIsTheFlows(n', i', tail', k);
    assert |n| == |n'|;
  }

  /** Main result: with the flow ids the system mines and a class without pipes, two failures share a key
      exactly when they have the same class, flow and step and messages that normalise alike, whatever pipes the
      messages and steps hold: the first digit after the class is the flow's. */
  lemma MinedFlowsSeparateFailures(cls: string, msg: string, i: nat, step: string,
                                   cls': string, msg': string, i': nat, step': string, k: Classes)
    requires Sane(k) && '|' !in cls && '|' !in cls'
    ensures KeyText(cls, msg, FlowId(i), step, k) == KeyText(cls', msg', FlowId(i'), step', k) <==>
            cls == cls' && FlowId(i) == FlowId(i') && step == step' && Normalize(msg, k) == Normalize(msg', k)
  {
    hide Normalize;
    hide Sane;
    hide DigitFree;
    hide FlowId;
    hide KeyText;
    NormalizedHasNoDigit(msg, k);
    NormalizedHasNoDigit(msg', k);
    KeyOpens(cls, msg, i, step, k);
    KeyOpens(cls', msg', i', step', k);
    if KeyText(cls, msg, FlowId(i), step, k) == KeyText(cls', msg', FlowId(i'), step', k) {
      var n, n' := Normalize(msg, k), Normalize(msg', k);
      FirstPipeSplits(cls, n + "|" + FlowId(i) + ("|" + step), cls', n' + "|" + FlowId(i') + ("|" + step'));
      FlowDelimitsTheMessage(n, i, "|" + step, n', i', "|" + step', k);
      NumberEndsAtPipe(i, step, i', step');
    }
  }

  lemma KeyOpens(cls: string, msg: string, i: nat, step: string, k: Classes)
    ensures KeyText(cls, msg, FlowId(i), step, k) == cls + "|" + (Normalize(msg, k) + "|" + FlowId(i) + ("|" + step))
  {
    hide Normalize;
    hide FlowId;
  }

  lemma NumberEndsAtPipe(i: nat, step: string, i': nat, step': string)
    requires Decimal(i) + ("|" + step) == Decimal(i') + ("|" + step')
    ensures FlowId(i) == FlowId(i') && step == step'
  {
    FlowIdHasNoPipe(i);
    FlowIdHasNoPipe(i');
    hide Decimal;
    assert Decimal(i) + ("|" + step) == Decimal(i) + "|" + step;
    assert Decimal(i') + ("|" + step') == Decimal(i') + "|" + step';
    FirstPipeSplits(Decimal(i), step, Decimal(i'), step');
  }

  /** For flow strings of any form: where class, flow and step hold no '|', two failures share a key exactly when
      they have the same class,
      flow and step and messages that normalise alike. */
  lemma KeySeparatesFailures(cls: string, msg: string, flow: string, step: string,
                             cls': string, msg': string, flow': string, step': string, k: Classes)
    requires '|' !in cls && '|' !in cls' && '|' !in flow && '|' !in flow' && '|' !in step && '|' !in step'
    ensures KeyText(cls, msg, flow, step, k) == KeyText(cls', msg', flow', step', k) <==>
            cls == cls' && flow == flow' && step == step' && Normalize(msg, k) == Normalize(msg', k)
  {
    var n, n' := Normalize(msg, k), Normalize(msg', k);
    hide Normalize;
    if KeyText(cls, msg, flow, step, k) == KeyText(cls', msg', flow', step', k) {
      LastPipeSplits(cls + "|" + n + "|" + flow, step, cls' + "|" + n' + "|" + flow', step');
      LastPipeSplits(cls + "|" + n, flow, cls' + "|" + n', flow');
      assert cls + "|" + n == cls + ("|" + n);
      FirstPipeSplits(cls, n, cls', n');
    }
  }

  /** Outside the mined form the claim fails: whenever flow or step holds a '|', another flow and step give the same
      key. At least one of the two flows is then not a mined one. */
  lemma PipeInFlowOrStepCollides(cls: string, msg: string, flow: string, step: string, k: Classes)
    requires '|' in flow || '|' in step
    ensures exists flow', step' :: flow' != flow && step' != step
              && KeyText(cls, msg, flow', step', k) == KeyText(cls, msg, flow, step, k)
              && ('|' in flow || '|' in flow')
  {
    var n := Normalize(msg, k);
    hide Normalize;
    if '|' in flow {
      var i :| 0 <= i < |flow| && flow[i] == '|';
      var flow', step' := flow[..i], flow[i + 1..] + "|" + step;
      assert flow == flow[..i] + "|" + flow[i + 1..];
      assert |flow'| < |flow| && |step'| > |step|;
      assert KeyText(cls, msg, flow', step', k) == KeyText(cls, msg, flow, step, k);
    } else {
      var i :| 0 <= i < |step| && step[i] == '|';
      var flow', step' := flow + "|" + step[..i], step[i + 1..];
      assert step == step[..i] + "|" + step[i + 1..];
      assert |flow'| > |flow| && |step'| < |step|;
      assert KeyText(cls, msg, flow', step', k) == KeyText(cls, msg, flow, step, k);
    }
  }
}
