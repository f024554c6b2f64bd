/** What the failure-message normaliser absorbs: messages that differ in one uuid, timestamp, 0x number, number or run
    of whitespace normalise alike. */
module Noise {
  import opened Common
  import opened Normalizer
  import opened NoiseText

  // ----- Uuids -----

  predicate UuidsApart(a: string, u: string, u': string) {
    UuidText(u) && UuidText(u') && !OpensUuid(a)
  }

  /** Main result: a uuid is absorbed whatever stands around it, unless the text before ends inside another uuid. */
  lemma UuidIsAbsorbed(a: string, u: string, u': string, b: string, k: Classes)
    requires UuidsApart(a, u, u')
    ensures Normalize(a + u + b, k) == Normalize(a + u' + b, k)
  {
    UuidIsReplaced(a, u, b, k);
    UuidIsReplaced(a, u', b, k);
    hide Substitute;
    hide Split;
  }

  lemma UuidIsReplaced(a: string, u: string, b: string, k: Classes)
    requires UuidText(u) && !OpensUuid(a)
    ensures Substitute(Uuid, None, a + u + b, k) ==
            Substitute(Uuid, None, a, k) + "<uuid>" + Substitute(Uuid, None, b, k)
  {
    hide OpensUuid;
    assert |u| == 36;
    hide UuidText;
    assert a + u + b == a + (u + b);
    NoUuidOpens(a, u, b);
    UuidCut(a, u + b, k);
    assert (u + b)[0..36] == u;
    UuidMatchIs(None, u + b, k);
    SubstituteStep(Uuid, None, u + b, k);
    assert (u + b)[36..] == b;
    PrevIrrelevant(Uuid, Some((u + b)[35]), b, k);
  }

  // ----- Whitespace -----

  lemma UuidOverNoSpace(a: string, m: string, b: string, k: Classes)
    requires Sane(k) && AllSpaces(m, k) && (m != "" || a == "" || b == "")
    ensures !UuidOver(a, m, b)
  {
    hide UuidText;
    hide Sane;
    forall i: nat | i < |a| + |m| && |a| < i + 36 ensures !UuidAt(a + m + b, i) {
      if i + 36 <= |a + m + b| && m != "" {
        var w, q := (a + m + b)[i..i + 36], Max(0, |a| - i);
        assert w[q] == m[i + q - |a|] && m[i + q - |a|] in m;
        SpaceIsNoHex(w[q], k);
        NotUuid(w, q);
      }
    }
  }

  /** Text between others that each pass leaves alone and substitutes apart from its neighbours. */
  lemma SpacesInUuidPass(a: string, m: string, b: string, k: Classes)
    requires Sane(k) && AllSpaces(m, k) && (m != "" || a == "" || b == "")
    ensures Substitute(Uuid, None, a + m + b, k) == Substitute(Uuid, None, a, k) + m + Substitute(Uuid, None, b, k)
  {
    UuidOverNoSpace(a, m, b, k);
    UuidKeeps(a, m, b, k);
  }

  lemma TimestampKeeps(a: string, m: string, b: string, k: Classes)
    requires !TimestampOver(a, m, b, k) && (a == "" || m + b == "" || (m + b)[0] in k.spaces)
    ensures Substitute(Timestamp, None, a + m + b, k) ==
            Substitute(Timestamp, None, a, k) + m + Substitute(Timestamp, None, b, k)
  {
    hide Substitute;
    assert a + m + b == a + (m + b);
    TimestampOverParts(a, m, b, k);
    hide TimestampOver;
    if a == "" {
      SubstituteOfEmpty(Timestamp, None, k);
      assert a + (m + b) == m + b;
    } else {
      TimestampCut(a, m + b, k);
    }
    TimestampSkip(m, b, k);
  }

  lemma TimestampOverParts(a: string, m: string, b: string, k: Classes)
    requires !TimestampOver(a, m, b, k)
    ensures !TimestampStraddles(a, m + b, k) && forall i: nat | i < |m| :: !TimestampAt(m + b, i, k)
  {
    var s := a + (m + b);
    assert s == a + m + b && s[|a|..] == m + b;
    forall i: nat | i < |m| ensures !TimestampAt(m + b, i, k) {
      TimestampAtTail(s, |a|, i, k);
      hide TimestampAt;
    }
    hide TimestampAt;
  }

  lemma SpacesInHexPass(a: string, m: string, b: string, k: Classes)
    requires Sane(k) && AllSpaces(m, k) && (m != "" || a == "" || b == "")
    ensures Substitute(HexNumber, None, a + m + b, k) ==
            Substitute(HexNumber, None, a, k) + m + Substitute(HexNumber, None, b, k)
  {
    hide Substitute;
    assert a + m + b == a + (m + b);
    assert m != "" ==> m[0] in m && m[|m| - 1] in m;
    SubstituteOfEmpty(HexNumber, None, k);
    SubstituteOfEmpty(HexNumber, Before(None, a, |a|), k);
    HexCut(None, a, m + b, k);
    var prev := Before(None, a, |a|);
    forall i | 0 <= i < |m| ensures MatchLength(HexNumber, Before(prev, m, i), m[i..] + b, k) == 0 {
      assert m[i] in m && (m[i..] + b)[0] == m[i];
    }
    hide MatchLength;
    Skip(HexNumber, prev, m, b, k);
    if m != "" || a == "" {
      HexPrevMatters(Before(prev, m, |m|), None, b, k);
    }
    SubstituteOfEmpty(HexNumber, Before(prev, m, |m|), k);
  }

  lemma NumberCut(a: string, r: string, k: Classes)
    requires a == "" || r == "" || a[|a| - 1] !in k.digits || r[0] !in k.digits
    ensures Substitute(Number, None, a + r, k) == Substitute(Number, None, a, k) + Substitute(Number, None, r, k)
  {
    hide Substitute;
    forall i | 0 <= i < |a|
      ensures MatchLength(Number, Before(None, a, i), a[i..] + r, k) ==
              MatchLength(Number, Before(None, a, i), a[i..], k)
    {
      RunOfSum(a[i..], r, Digit, k);
      RunIs(a[i..], Digit, k);
    }
    Cut(Number, None, a, r, k);
    PrevIrrelevant(Number, Before(None, a, |a|), r, k);
  }

  lemma SpacesInNumberPass(a: string, m: string, b: string, k: Classes)
    requires Sane(k) && AllSpaces(m, k) && (m != "" || a == "" || b == "")
    ensures Substitute(Number, None, a + m + b, k) ==
            Substitute(Number, None, a, k) + m + Substitute(Number, None, b, k)
  {
    hide Substitute;
    assert a + m + b == a + (m + b);
    assert m != "" ==> m[0] in m;
    NumberCut(a, m + b, k);
    forall i | 0 <= i < |m| ensures MatchLength(Number, Before(None, m, i), m[i..] + b, k) == 0 {
      assert m[i] in m && (m[i..] + b)[0] == m[i];
    }
    hide MatchLength;
    Skip(Number, None, m, b, k);
    PrevIrrelevant(Number, Before(None, m, |m|), b, k);
  }

  /** Spaces no timestamp stands over part the text: the passes work on each side of them alone. */
  lemma SpacesPart(a: string, m: string, b: string, k: Classes)
    requires Sane(k) && AllSpaces(m, k) && (m != "" || a == "" || b == "") && !TimestampOver(a, m, b, k)
    ensures Passes(a + m + b, k) == Passes(a, k) + m + Passes(b, k)
  {
    var a1, b1 := Substitute(Uuid, None, a, k), Substitute(Uuid, None, b, k);
    var a2, b2 := Substitute(Timestamp, None, a1, k), Substitute(Timestamp, None, b1, k);
    var a3, b3 := Substitute(HexNumber, None, a2, k), Substitute(HexNumber, None, b2, k);
    EmptyStaysEmpty(a, k);
    EmptyStaysEmpty(b, k);
    assert m != "" ==> m[0] in m;
    SpacesInUuidPass(a, m, b, k);
    TimestampOverTracesBack(a, m, b, k);
    TimestampKeeps(a1, m, b1, k);
    SpacesInHexPass(a2, m, b2, k);
    SpacesInNumberPass(a3, m, b3, k);
    hide Substitute;
    hide TimestampOver;
  }

  lemma EmptyStaysEmpty(s: string, k: Classes)
    ensures s == "" ==> forall p, prev :: Substitute(p, prev, s, k) == ""
  {}

  lemma {:induction false} SplitOfSum(x: string, r: string, k: Classes)
    requires x == "" || r == "" || r[0] in k.spaces
    ensures Split(x + r, k) == Split(x, k) + Split(r, k)
    decreases |x|
  {
    if x == "" {
      assert x + r == r;
    } else if x[0] in k.spaces {
      assert (x + r)[1..] == x[1..] + r;
      SplitSkipsSpace(x, k);
      SplitSkipsSpace(x + r, k);
      SplitOfSum(x[1..], r, k);
    } else {
      hide Split;
      var n := WordLength(x, k);
      SplitOfSum(x[n..], r, k);
      SplitTakesWord(x, r, k);
      assert x + "" == x && x[n..] + "" == x[n..];
      SplitTakesWord(x, "", k);
    }
  }

  lemma SplitTakesWord(x: string, r: string, k: Classes)
    requires x != "" && x[0] !in k.spaces && (r == "" || r[0] in k.spaces)
    ensures var n := WordLength(x, k); Split(x + r, k) == [x[..n]] + Split(x[n..] + r, k)
  {
    hide Split;
    var n := WordLength(x, k);
    var w, tail := x[..n], x[n..] + r;
    assert w != "" && SpaceFree(w, k) && (tail == "" || tail[0] in k.spaces);
    hide WordLength;
    hide SpaceFree;
    assert x + r == w + tail;
    SplitFirstWord(w, tail, k);
  }

  lemma {:induction false} SplitAfterSpaces(m: string, y: string, k: Classes)
    requires AllSpaces(m, k)
    ensures Split(m + y, k) == Split(y, k)
  {
    if m == "" {
      assert m + y == y;
    } else {
      assert (m + y)[1..] == m[1..] + y && m[0] in m;
      SplitSkipsSpace(m + y, k);
      SplitAfterSpaces(m[1..], y, k);
    }
  }

  lemma SplitAroundSpaces(x: string, m: string, y: string, k: Classes)
    requires AllSpaces(m, k) && (m != "" || x == "" || y == "")
    ensures Split(x + m + y, k) == Split(x, k) + Split(y, k)
  {
    assert x + m + y == x + (m + y);
    assert m != "" ==> m[0] in m;
    SplitOfSum(x, m + y, k);
    SplitAfterSpaces(m, y, k);
    hide Split;
  }

  /** Runs of spaces no timestamp stands over, empty only at an end of the message. */
  predicate SpacesApart(a: string, m: string, m': string, b: string, k: Classes) {
    && AllSpaces(m, k) && AllSpaces(m', k) && ((m != "" && m' != "") || a == "" || b == "")
    && !TimestampOver(a, m, b, k) && !TimestampOver(a, m', b, k)
  }

  /** Main result: one run of whitespace reads as any other, and as none at either end of the message, unless a
      timestamp stands over one of the two. */
  lemma WhitespaceIsAbsorbed(a: string, m: string, m': string, b: string, k: Classes)
    requires Sane(k) && SpacesApart(a, m, m', b, k)
    ensures Normalize(a + m + b, k) == Normalize(a + m' + b, k)
  {
    SpacesPart(a, m, b, k);
    SpacesPart(a, m', b, k);
    EmptyStaysEmpty(a, k);
    EmptyStaysEmpty(b, k);
    hide Split;
    hide Substitute;
    hide TimestampOver;
    SplitAroundSpaces(Passes(a, k), m, Passes(b, k), k);
    SplitAroundSpaces(Passes(a, k), m', Passes(b, k), k);
  }

  // ----- 0x numbers -----

  /** `b` begins with what is left of a uuid after its first eight characters. */
  predicate UuidRest(b: string) {
    |b| >= 28 && UuidText("00000000" + b[..28])
  }

  /** `b` begins with what is left of a timestamp after its year. */
  predicate TimestampRest(b: string, k: Classes) {
    |b| >= 15 && TimestampHead("0000" + b[..15], k)
  }

  /** `b` reads on as the rest of a uuid, or as the rest of a timestamp whose seconds do not begin a uuid. */
  predicate ReadsOn(b: string, k: Classes) {
    UuidRest(b) || (TimestampRest(b, k) && !UuidAt(b, 13) && !UuidAt(b, 14))
  }

  lemma HexDigitsAreWords(c: char, k: Classes)
    requires Sane(k) && c in HEX_DIGITS
    ensures IsHex(c) && c in k.words && c !in k.spaces && c != '-' && c != 'x' && c != 'X'
  {
    HexDigitIs(c);
  }

  /** One wrong character and it is no uuid. */
  lemma NotUuid(w: string, q: nat)
    requires q < |w|
    requires if q == 8 || q == 13 || q == 18 || q == 23 then w[q] != '-' else w[q] !in HEX_DIGITS
    ensures !UuidText(w)
  {}

  lemma NotTimestamp(w: string, q: nat, k: Classes)
    requires Sane(k) && q < |w|
    requires if q == 4 || q == 7 then w[q] != '-' else if q == 10 then w[q] != 'T' && w[q] != ' '
             else if q == 13 || q == 16 then w[q] != ':' else w[q] !in k.digits
    ensures !TimestampHead(w, k)
  {}

  lemma HexBlocksUuid(a: string, x: string, b: string, k: Classes)
    requires Sane(k) && HexText(x) && EndsNonWord(a, k) && BeginsNonWord(b, k) && !UuidRest(b)
    ensures !UuidOver(a, x, b)
  {
    hide UuidText;
    hide HexText;
    hide UuidRest;
    hide EndsNonWord;
    hide BeginsNonWord;
    forall i: nat | i < |a| + |x| && |a| < i + 36 ensures !UuidAt(a + x + b, i) {
      if i + 36 <= |a + x + b| {
        NoRoomForUuid(a, x, b, k, i);
      }
    }
  }

  lemma XIsNoDigit(k: Classes)
    requires Sane(k)
    ensures 'x' !in k.digits && 'X' !in k.digits && 'x' !in HEX_DIGITS && 'X' !in HEX_DIGITS
    ensures forall c | c in k.digits :: c in k.words
  {
    HexDigitIs('x');
    HexDigitIs('X');
    hide HEX_DIGITS;
  }

  lemma NoRoomForUuid(a: string, x: string, b: string, k: Classes, i: nat)
    requires Sane(k) && HexText(x) && EndsNonWord(a, k) && BeginsNonWord(b, k) && !UuidRest(b)
    requires i < |a| + |x| && |a| < i + 36 <= |a| + |x| + |b|
    ensures !UuidText((a + x + b)[i..i + 36])
  {
    hide UuidText;
    hide UuidRest;
    XIsNoDigit(k);
    hide Sane;
    var w := (a + x + b)[i..i + 36];
    if i < |a| + 2 {
      if i + 36 > |a| + 1 {
        assert w[|a| + 1 - i] == x[1];
        NotUuid(w, |a| + 1 - i);
      } else {
        assert w[34] == a[|a| - 1];
        WordsHoldHex(w[34], k);
        NotUuid(w, 34);
      }
    } else {
      var n := |a| + |x| - i;
      if n > 8 {
        assert w[8] == x[i - |a| + 8];
        WordsHoldHex(w[8], k);
        NotUuid(w, 8);
      } else if n < 8 {
        assert w[n] == b[0];
        WordsHoldHex(w[n], k);
        NotUuid(w, n);
      } else {
        WindowTail(a + x, b, i, 36);
        RestOfUuid(w, b);
      }
    }
  }

  lemma WordsHoldHex(c: char, k: Classes)
    requires Sane(k)
    ensures c in HEX_DIGITS ==> c in k.words && c != '-'
  {
    HexDigitIs(c);
  }

  lemma WindowTail(x: string, b: string, i: nat, n: nat)
    requires i <= |x| <= i + n <= |x| + |b|
    ensures b[..i + n - |x|] == (x + b)[i..i + n][|x| - i..n]
  {
    var w := (x + b)[i..i + n];
    forall q | 0 <= q < i + n - |x| ensures w[|x| - i..n][q] == b[q] {
      assert w[|x| - i + q] == (x + b)[|x| + q];
    }
  }

  lemma RestOfUuid(w: string, b: string)
    requires |w| == 36 && |b| >= 28 && b[..28] == w[8..36]
    ensures UuidText(w) ==> UuidRest(b)
  {
    var v := "00000000" + b[..28];
    assert forall q | 8 <= q < 36 :: v[q] == b[..28][q - 8] == w[q];
    assert forall q | 0 <= q < 8 :: v[q] == '0' && '0' in HEX_DIGITS;
  }

  lemma HexBlocksTimestamp(a: string, x: string, b: string, k: Classes)
    requires Sane(k) && HexText(x) && EndsNonWord(a, k) && BeginsNonWord(b, k) && !TimestampRest(b, k)
    ensures !TimestampOver(a, x, b, k)
  {
    hide TimestampHead;
    hide HexText;
    hide TimestampRest;
    hide EndsNonWord;
    hide BeginsNonWord;
    forall i: nat | i < |a| + |x| && |a| < i + 19 ensures !TimestampAt(a + x + b, i, k) {
      if i + 19 <= |a + x + b| {
        NoRoomForTimestamp(a, x, b, k, i);
      }
    }
  }

  lemma NoRoomForTimestamp(a: string, x: string, b: string, k: Classes, i: nat)
    requires Sane(k) && HexText(x) && EndsNonWord(a, k) && BeginsNonWord(b, k) && !TimestampRest(b, k)
    requires i < |a| + |x| && |a| < i + 19 <= |a| + |x| + |b|
    ensures !TimestampHead((a + x + b)[i..i + 19], k)
  {
    hide TimestampHead;
    hide TimestampRest;
    XIsNoDigit(k);
    MarksAreNoDigits(k);
    hide Sane;
    var w := (a + x + b)[i..i + 19];
    if i < |a| + 2 {
      if i + 19 > |a| + 1 {
        assert w[|a| + 1 - i] == x[1];
        NotTimestamp(w, |a| + 1 - i, k);
      } else {
        assert w[17] == a[|a| - 1];
        NotTimestamp(w, 17, k);
      }
    } else {
      var n := |a| + |x| - i;
      if n > 4 {
        assert w[4] == x[i - |a| + 4];
        WordsHoldHex(w[4], k);
        NotTimestamp(w, 4, k);
      } else if n < 4 {
        assert w[n] == b[0];
        NotTimestamp(w, n, k);
      } else {
        WindowTail(a + x, b, i, 19);
        RestOfTimestamp(w, b, k);
      }
    }
  }

  lemma RestOfTimestamp(w: string, b: string, k: Classes)
    requires Sane(k) && |w| == 19 && |b| >= 15 && b[..15] == w[4..19]
    ensures TimestampHead(w, k) ==> TimestampRest(b, k)
  {
    var v := "0000" + b[..15];
    assert forall q | 4 <= q < 19 :: v[q] == b[..15][q - 4] == w[q];
    assert forall q | 0 <= q < 4 :: v[q] == '0';
  }

  /** A substitution keeps a word boundary at either end of its text. */
  lemma EndStays(p: Pattern, s: string, k: Classes)
    requires Sane(k)
    ensures EndsNonWord(s, k) ==> EndsNonWord(Substitute(p, None, s, k), k)
    ensures BeginsNonWord(s, k) ==> BeginsNonWord(Substitute(p, None, s, k), k)
  {
    var t := Substitute(p, None, s, k);
    if t != "" {
      var last, first := [t[|t| - 1]], [t[0]];
      if t[|t| - 1] in k.words {
        PlainSuffixCopied(p, None, s, k, last);
      }
      if t[0] in k.words {
        PlainPrefixCopied(p, None, s, k, first);
      }
    }
    hide Substitute;
  }

  lemma HexIsSpaceFree(x: string, k: Classes)
    requires Sane(k) && HexText(x)
    ensures SpaceFree(x, k) && x != ""
  {
    forall c | c in x ensures c !in k.spaces {
      var i :| 0 <= i < |x| && x[i] == c;
      WordsHoldHex(c, k);
    }
  }

  /** The timestamp rest of the uuid pass's output stood in its input, and no uuid began in its seconds. */
  lemma RestStays(b: string, k: Classes)
    requires Sane(k)
    ensures TimestampRest(Substitute(Uuid, None, b, k), k) ==> ReadsOn(b, k)
  {
    var t := Substitute(Uuid, None, b, k);
    hide Substitute;
    if TimestampRest(t, k) {
      var w := t[..15];
      RestIsPlain(w, k);
      hide TimestampHead;
      PlainPrefixCopied(Uuid, None, b, k, w);
      assert b[..15] == w;
      RestHasNoUuid(b, k);
      assert b == b[..13] + b[13..] && b == b[..14] + b[14..];
      assert t[13] == w[13] && w[13] in w && t[14] == w[14] && w[14] in w;
      if UuidAt(b, 13) {
        BracketAt(b, 13, k);
      } else if UuidAt(b, 14) {
        BracketAt(b, 14, k);
      }
    }
  }

  lemma RestIsPlain(w: string, k: Classes)
    requires Sane(k) && |w| == 15 && TimestampHead("0000" + w, k)
    ensures Plain(w)
  {
    TimestampHeadIsPlain("0000" + w, k);
    assert forall c | c in w :: c in "0000" + w;
  }

  /** A uuid inside the rest of a timestamp begins in its seconds. */
  lemma RestHasNoUuid(b: string, k: Classes)
    requires Sane(k) && TimestampRest(b, k)
    ensures forall i: nat | i < 13 :: !UuidAt(b, i)
  {
    var v := "0000" + b[..15];
    assert b[0] == v[4] && b[3] == v[7] && b[6] == v[10] && b[9] == v[13] && b[12] == v[16];
    hide TimestampHead;
    hide UuidText;
    hide HEX_DIGITS;
    NotHexDigits();
    hide Sane;
    forall i: nat | i < 13 ensures !UuidAt(b, i) {
      if i + 36 <= |b| {
        var w := b[i..i + 36];
        var q := if i <= 6 then 6 else if i <= 9 then 9 else 12;
        assert w[q - i] == b[q];
        NotUuid(w, q - i);
      }
    }
  }

  /** Where the first uuid stands, the uuid pass writes a bracket. */
  lemma BracketAt(b: string, n: nat, k: Classes)
    requires UuidAt(b, n) && forall i: nat | i < n :: !UuidAt(b, i)
    ensures |Substitute(Uuid, None, b, k)| > n && Substitute(Uuid, None, b, k)[n] == '<'
  {
    hide UuidText;
    hide Substitute;
    hide MatchLength;
    var m, r := b[..n], b[n..];
    assert m + r == b;
    UuidSkip(m, r, k);
    UuidAtTail(b, n, 0);
    UuidMatchIs(None, r, k);
    hide UuidAt;
    if r != "" {
      SubstituteStep(Uuid, None, r, k);
    }
  }

  /** A 0x number between word boundaries becomes a placeholder. */
  lemma HexIsReplaced(a: string, x: string, b: string, k: Classes)
    requires Sane(k) && HexText(x) && EndsNonWord(a, k) && BeginsNonWord(b, k)
    ensures Substitute(HexNumber, None, a + (x + b), k) ==
            Substitute(HexNumber, None, a, k) + "<hex>" + Substitute(HexNumber, Some('0'), b, k)
  {
    hide Substitute;
    hide MatchLength;
    var prev, s := Before(None, a, |a|), x + b;
    HexEndsInWord(x, k);
    hide HexText;
    HexCut(None, a, s, k);
    HexMatchOf(prev, x, b, k);
    hide Sane;
    SubstituteStep(HexNumber, prev, s, k);
    assert s[|x|..] == b;
    HexPrevMatters(Some(s[|x| - 1]), Some('0'), b, k);
  }

  lemma HexEndsInWord(x: string, k: Classes)
    requires Sane(k) && HexText(x)
    ensures x != "" && x[|x| - 1] in k.words && '0' in k.words
  {
    WordsHoldHex(x[|x| - 1], k);
  }

  lemma HexRunOf(x: string, b: string, k: Classes)
    requires Sane(k) && (forall c | c in x :: c in HEX_DIGITS) && BeginsNonWord(b, k)
    ensures RunLength(x + b, Hex, k) == |x|
  {
    RunOfSum(x, b, Hex, k);
    RunIs(x, Hex, k);
    assert RunLength(b, Hex, k) == 0;
    hide Sane;
    hide RunLength;
    forall i | 0 <= i < |x| ensures IsHex(x[i]) { HexDigitIs(x[i]); }
  }

  lemma HexMatchOf(prev: Option<char>, x: string, b: string, k: Classes)
    requires Sane(k) && HexText(x) && !WordAt(prev, k) && BeginsNonWord(b, k)
    ensures MatchLength(HexNumber, prev, x + b, k) == |x|
  {
    hide MatchLength;
    hide RunLength;
    hide IsHex;
    hide HexText;
    hide Sane;
    hide HEX_DIGITS;
    var s := x + b;
    HexTextParts(x);
    HexMatchIs(prev, s, k);
    HexRunOf(x[2..], b, k);
    assert s[2..] == x[2..] + b && s[0] == x[0] && s[1] == x[1] && s[2] == x[2];
  }

  lemma HexTextParts(x: string)
    requires HexText(x)
    ensures |x| >= 3 && x[0] == '0' && (x[1] == 'x' || x[1] == 'X') && IsHex(x[2])
    ensures forall c | c in x[2..] :: c in HEX_DIGITS
  {
    HexDigitIs(x[2]);
  }

  /** 0x numbers between word boundaries, before text that does not read on as something else. */
  predicate HexApart(a: string, x: string, x': string, b: string, k: Classes) {
    HexText(x) && HexText(x') && EndsNonWord(a, k) && BeginsNonWord(b, k) && !ReadsOn(b, k)
  }

  /** Main result: 0x numbers between word boundaries read alike whatever stands around them, unless the text after
      reads on as the rest of a uuid or of a timestamp. */
  lemma HexIsAbsorbed(a: string, x: string, x': string, b: string, k: Classes)
    requires Sane(k) && HexApart(a, x, x', b, k)
    ensures Normalize(a + x + b, k) == Normalize(a + x' + b, k)
  {
    hide Normalize;
    hide Substitute;
    hide HexText;
    hide EndsNonWord;
    hide BeginsNonWord;
    hide ReadsOn;
    hide TimestampStraddles;
    hide Sane;
    HexAfterUuids(a, x, b, k);
    HexAfterUuids(a, x', b, k);
    HexAfterTimestamps(Substitute(Uuid, None, a, k), x, x', Substitute(Uuid, None, b, k), k);
    SameAfterHexPass(a + x + b, a + x' + b, k);
  }

  lemma SameAfterHexPass(s: string, s': string, k: Classes)
    requires Substitute(HexNumber, None, Substitute(Timestamp, None, Substitute(Uuid, None, s, k), k), k) ==
             Substitute(HexNumber, None, Substitute(Timestamp, None, Substitute(Uuid, None, s', k), k), k)
    ensures Normalize(s, k) == Normalize(s', k)
  {
    hide Substitute;
    hide Split;
  }

  lemma HexAfterTimestamps(a: string, x: string, x': string, b: string, k: Classes)
    requires Sane(k) && HexText(x) && HexText(x') && EndsNonWord(a, k) && BeginsNonWord(b, k)
    requires !TimestampStraddles(a, x + b, k) && !TimestampStraddles(a, x' + b, k)
    requires Substitute(Timestamp, None, x + b, k) == x + Substitute(Timestamp, None, b, k)
    requires Substitute(Timestamp, None, x' + b, k) == x' + Substitute(Timestamp, None, b, k)
    ensures Substitute(HexNumber, None, Substitute(Timestamp, None, a + x + b, k), k) ==
            Substitute(HexNumber, None, Substitute(Timestamp, None, a + x' + b, k), k)
  {
    hide *;
    var z, y := Substitute(Timestamp, None, a, k), Substitute(Timestamp, None, b, k);
    HexIsSpaceFree(x, k);
    HexIsSpaceFree(x', k);
    assert a + x + b == a + (x + b) && a + x' + b == a + (x' + b);
    TimestampTakesBothOrNeither(a, x, x', b, k);
    if Substitute(Timestamp, None, a + (x + b), k) != Substitute(Timestamp, None, a + (x' + b), k) {
      EndStays(Timestamp, a, k);
      EndStays(Timestamp, b, k);
      HexIsReplaced(z, x, y, k);
      HexIsReplaced(z, x', y, k);
    }
  }

  /** The uuid pass leaves the number alone, and the timestamp pass starts no match in it. */
  lemma HexAfterUuids(a: string, x: string, b: string, k: Classes)
    requires Sane(k) && HexText(x) && EndsNonWord(a, k) && BeginsNonWord(b, k) && !ReadsOn(b, k)
    ensures var a1, b1 := Substitute(Uuid, None, a, k), Substitute(Uuid, None, b, k);
            && Substitute(Uuid, None, a + x + b, k) == a1 + x + b1
            && EndsNonWord(a1, k) && BeginsNonWord(b1, k)
            && !TimestampStraddles(a1, x + b1, k)
            && Substitute(Timestamp, None, x + b1, k) == x + Substitute(Timestamp, None, b1, k)
  {
    var a1, b1 := Substitute(Uuid, None, a, k), Substitute(Uuid, None, b, k);
    HexBlocksUuid(a, x, b, k);
    UuidKeeps(a, x, b, k);
    EndStays(Uuid, a, k);
    EndStays(Uuid, b, k);
    RestStays(b, k);
    HexBlocksTimestamp(a1, x, b1, k);
    TimestampOverParts(a1, x, b1, k);
    TimestampSkip(x, b1, k);
    hide Substitute;
    hide UuidOver;
    hide TimestampOver;
    hide TimestampStraddles;
    hide HexText;
    hide EndsNonWord;
    hide BeginsNonWord;
    hide Sane;
  }

  // ----- Numbers -----

  /** `a` is "0x" and hex digits from position `i` to its end. */
  predicate HexFrom(a: string, i: nat) {
    i + 2 <= |a| && a[i] == '0' && (a[i + 1] == 'x' || a[i + 1] == 'X')
    && forall c | c in a[i + 2..] :: c in HEX_DIGITS
  }

  /** `a` ends in "0x" and hex digits, which digits after it would continue. */
  predicate EndsInHex(a: string) {
    exists i: nat | i < |a| :: HexFrom(a, i)
  }

  /** `b` begins with an 'x' and a hex digit, which a '0' before it would make a 0x number. */
  predicate BeginsHexTail(b: string) {
    |b| >= 2 && (b[0] == 'x' || b[0] == 'X') && b[1] in HEX_DIGITS
  }

  predicate EndsInDigit(s: string, k: Classes) {
    s != "" && s[|s| - 1] in k.digits
  }

  predicate BeginsWithDigit(s: string, k: Classes) {
    s != "" && s[0] in k.digits
  }

  lemma DigitEndStays(p: Pattern, prev: Option<char>, s: string, k: Classes)
    requires Sane(k)
    ensures EndsInDigit(Substitute(p, prev, s, k), k) ==> EndsInDigit(s, k)
    ensures BeginsWithDigit(Substitute(p, prev, s, k), k) ==> BeginsWithDigit(s, k)
  {
    var t := Substitute(p, prev, s, k);
    hide Substitute;
    if t != "" {
      var last, first := [t[|t| - 1]], [t[0]];
      if t[|t| - 1] in k.digits {
        PlainSuffixCopied(p, prev, s, k, last);
      }
      if t[0] in k.digits {
        PlainPrefixCopied(p, prev, s, k, first);
      }
    }
  }

  lemma HexTextIsPlain(w: string)
    requires HexFrom(w, 0) || (|w| == 2 && BeginsHexTail(w))
    ensures Plain(w)
  {
    assert '<' !in HEX_DIGITS && '>' !in HEX_DIGITS;
    assert w == [w[0], w[1]] + w[2..];
  }

  lemma HexEndStays(p: Pattern, s: string, k: Classes)
    ensures EndsInHex(Substitute(p, None, s, k)) ==> EndsInHex(s)
    ensures BeginsHexTail(Substitute(p, None, s, k)) ==> BeginsHexTail(s)
  {
    var t := Substitute(p, None, s, k);
    hide Substitute;
    if EndsInHex(t) {
      var i: nat :| i < |t| && HexFrom(t, i);
      var w := t[i..];
      assert w[2..] == t[i + 2..];
      HexTextIsPlain(w);
      PlainSuffixCopied(p, None, s, k, w);
      assert s[|s| - |w| + 2..] == w[2..];
      assert HexFrom(s, |s| - |w|);
    }
    if BeginsHexTail(t) {
      var w := t[..2];
      HexTextIsPlain(w);
      PlainPrefixCopied(p, None, s, k, w);
    }
  }

  lemma HexStopsBeforeDigit(prev: Option<char>, x: string, r: string, k: Classes)
    requires Sane(k) && x != "" && r != "" && r[0] in k.digits && !HexFrom(x, 0)
    ensures MatchLength(HexNumber, prev, x + r, k) == MatchLength(HexNumber, prev, x, k)
  {
    HexMatchIs(prev, x, k);
    HexMatchIs(prev, x + r, k);
    hide MatchLength;
    if |x| >= 3 {
      assert (x + r)[2..] == x[2..] + r;
      RunOfSum(x[2..], r, Hex, k);
      WholeHexRun(x[2..], k);
    }
  }

  lemma WholeHexRun(x: string, k: Classes)
    ensures RunLength(x, Hex, k) == |x| ==> forall c | c in x :: c in HEX_DIGITS
  {
    RunIs(x, Hex, k);
    if RunLength(x, Hex, k) == |x| {
      forall c | c in x ensures c in HEX_DIGITS {
        HexDigitIs(c);
      }
    }
  }

  /** The 0x pass leaves a number alone. */
  lemma HexKeepsNumber(a: string, d: string, b: string, k: Classes)
    requires Sane(k) && NumberText(d, k) && !EndsInHex(a) && (BeginsHexTail(b) ==> d != "0")
    ensures Substitute(HexNumber, None, a + (d + b), k) ==
            Substitute(HexNumber, None, a, k) + d + Substitute(HexNumber, Some('0'), b, k)
  {
    hide Substitute;
    hide MatchLength;
    var prev, r := Before(None, a, |a|), d + b;
    assert d[0] in d && d[|d| - 1] in d;
    forall i | 0 <= i < |a|
      ensures MatchLength(HexNumber, Before(None, a, i), a[i..] + r, k) ==
              MatchLength(HexNumber, Before(None, a, i), a[i..], k)
    {
      assert |a| >= i + 2 ==> a[i..][2..] == a[i + 2..];
      assert HexFrom(a[i..], 0) ==> HexFrom(a, i);
      HexStopsBeforeDigit(Before(None, a, i), a[i..], r, k);
    }
    Cut(HexNumber, None, a, r, k);
    forall i | 0 <= i < |d| ensures MatchLength(HexNumber, Before(prev, d, i), d[i..] + b, k) == 0 {
      NoHexInNumber(prev, d, b, k, i);
    }
    Skip(HexNumber, prev, d, b, k);
    HexPrevMatters(Before(prev, d, |d|), Some('0'), b, k);
  }

  lemma NoHexInNumber(prev: Option<char>, d: string, b: string, k: Classes, i: nat)
    requires Sane(k) && NumberText(d, k) && (BeginsHexTail(b) ==> d != "0") && i < |d|
    ensures MatchLength(HexNumber, Before(prev, d, i), d[i..] + b, k) == 0
  {
    var s := d[i..] + b;
    HexMatchIs(Before(prev, d, i), s, k);
    hide MatchLength;
    if |s| >= 3 {
      if i + 1 < |d| {
        assert s[1] == d[i + 1] && d[i + 1] in d;
      } else {
        assert s[1] == b[0] && s[2] == b[1];
        HexDigitIs(b[1]);
        assert i > 0 ==> d[i - 1] in d;
        assert i == 0 && d[0] == '0' ==> d == "0";
      }
    }
  }

  lemma {:induction false} WholeDigitRun(d: string, k: Classes)
    requires forall c | c in d :: c in k.digits
    ensures RunLength(d, Digit, k) == |d|
  {
    if d != "" {
      assert d[0] in d && forall c | c in d[1..] :: c in d;
      WholeDigitRun(d[1..], k);
    }
  }

  lemma NumberIsReplaced(a: string, d: string, b: string, k: Classes)
    requires NumberText(d, k) && !EndsInDigit(a, k) && !BeginsWithDigit(b, k)
    ensures Substitute(Number, None, a + (d + b), k) ==
            Substitute(Number, None, a, k) + "<n>" + Substitute(Number, None, b, k)
  {
    hide Substitute;
    NumberCut(a, d + b, k);
    NumberFirst(d, b, k);
    hide NumberText;
    assert Substitute(Number, None, a, k) + ("<n>" + Substitute(Number, None, b, k)) ==
           Substitute(Number, None, a, k) + "<n>" + Substitute(Number, None, b, k);
  }

  lemma NumberFirst(d: string, b: string, k: Classes)
    requires NumberText(d, k) && !BeginsWithDigit(b, k)
    ensures Substitute(Number, None, d + b, k) == "<n>" + Substitute(Number, None, b, k)
  {
    hide Substitute;
    var s := d + b;
    RunOfSum(d, b, Digit, k);
    WholeDigitRun(d, k);
    assert RunLength(s, Digit, k) == |d|;
    hide RunLength;
    hide NumberText;
    SubstituteStep(Number, None, s, k);
    assert s[|d|..] == b;
    PrevIrrelevant(Number, Some(s[|d| - 1]), b, k);
  }

  lemma NumberIsSpaceFree(d: string, k: Classes)
    requires Sane(k) && NumberText(d, k)
    ensures SpaceFree(d, k) && d != ""
  {}

  /** Whole numbers that no uuid, timestamp or 0x number takes in. */
  predicate NumbersApart(a: string, d: string, d': string, b: string, k: Classes) {
    && NumberText(d, k) && NumberText(d', k) && !EndsInDigit(a, k) && !BeginsWithDigit(b, k)
    && !UuidOver(a, d, b) && !UuidOver(a, d', b) && !TimestampOver(a, d, b, k) && !TimestampOver(a, d', b, k)
    && !EndsInHex(a) && (BeginsHexTail(b) ==> d != "0" && d' != "0")
  }

  /** Main result: a number reads as any other whatever stands around it, unless a uuid, a timestamp or a 0x number
      takes in one of the two. */
  lemma NumberIsAbsorbed(a: string, d: string, d': string, b: string, k: Classes)
    requires Sane(k) && NumbersApart(a, d, d', b, k)
    ensures Normalize(a + d + b, k) == Normalize(a + d' + b, k)
  {
    hide Normalize;
    hide AfterUuids;
    hide Substitute;
    hide NumberText;
    hide EndsInDigit;
    hide BeginsWithDigit;
    hide UuidOver;
    hide TimestampOver;
    hide TimestampStraddles;
    hide EndsInHex;
    hide BeginsHexTail;
    hide Sane;
    var a1, b1 := Substitute(Uuid, None, a, k), Substitute(Uuid, None, b, k);
    NumberAfterUuids(a, d, b, k);
    NumberAfterUuids(a, d', b, k);
    NumbersAfterTimestamps(a1, d, d', b1, k);
    SameAfterNumberPass(a + d + b, a + d' + b, k);
  }

  lemma SameAfterNumberPass(s: string, s': string, k: Classes)
    requires AfterUuids(Substitute(Uuid, None, s, k), k) == AfterUuids(Substitute(Uuid, None, s', k), k)
    ensures Normalize(s, k) == Normalize(s', k)
  {
    hide Substitute;
    hide Split;
  }

  /** The three passes after the first. */
  function AfterUuids(s: string, k: Classes): string {
    Substitute(Number, None, Substitute(HexNumber, None, Substitute(Timestamp, None, s, k), k), k)
  }

  lemma NumberAfterUuids(a: string, d: string, b: string, k: Classes)
    requires Sane(k) && !UuidOver(a, d, b) && !TimestampOver(a, d, b, k)
    ensures var a1, b1 := Substitute(Uuid, None, a, k), Substitute(Uuid, None, b, k);
            && Substitute(Uuid, None, a + d + b, k) == a1 + d + b1
            && (EndsInDigit(a1, k) ==> EndsInDigit(a, k)) && (BeginsWithDigit(b1, k) ==> BeginsWithDigit(b, k))
            && (EndsInHex(a1) ==> EndsInHex(a)) && (BeginsHexTail(b1) ==> BeginsHexTail(b))
            && !TimestampStraddles(a1, d + b1, k)
            && Substitute(Timestamp, None, d + b1, k) == d + Substitute(Timestamp, None, b1, k)
  {
    hide *;
    var a1, b1 := Substitute(Uuid, None, a, k), Substitute(Uuid, None, b, k);
    UuidKeeps(a, d, b, k);
    DigitEndStays(Uuid, None, a, k);
    DigitEndStays(Uuid, None, b, k);
    HexEndStays(Uuid, a, k);
    HexEndStays(Uuid, b, k);
    TimestampOverTracesBack(a, d, b, k);
    TimestampOverParts(a1, d, b1, k);
    TimestampSkip(d, b1, k);
  }

  lemma NumbersAfterTimestamps(a: string, d: string, d': string, b: string, k: Classes)
    requires Sane(k) && NumberText(d, k) && NumberText(d', k) && !EndsInDigit(a, k) && !BeginsWithDigit(b, k)
    requires !EndsInHex(a) && (BeginsHexTail(b) ==> d != "0" && d' != "0")
    requires !TimestampStraddles(a, d + b, k) && !TimestampStraddles(a, d' + b, k)
    requires Substitute(Timestamp, None, d + b, k) == d + Substitute(Timestamp, None, b, k)
    requires Substitute(Timestamp, None, d' + b, k) == d' + Substitute(Timestamp, None, b, k)
    ensures AfterUuids(a + d + b, k) == AfterUuids(a + d' + b, k)
  {
    hide *;
    hide AfterUuids;
    NumberIsSpaceFree(d, k);
    NumberIsSpaceFree(d', k);
    assert a + d + b == a + (d + b) && a + d' + b == a + (d' + b);
    TimestampTakesBothOrNeither(a, d, d', b, k);
    if Substitute(Timestamp, None, a + (d + b), k) == Substitute(Timestamp, None, a + (d' + b), k) {
      SameAfterUuids(a + (d + b), a + (d' + b), k);
    } else {
      var z, y := Substitute(Timestamp, None, a, k), Substitute(Timestamp, None, b, k);
      DigitEndStays(Timestamp, None, a, k);
      DigitEndStays(Timestamp, None, b, k);
      HexEndStays(Timestamp, a, k);
      HexEndStays(Timestamp, b, k);
      NumberInLastPasses(z, d, y, k);
      NumberInLastPasses(z, d', y, k);
      AfterUuidsIs(a + (d + b), z + (d + y), k);
      AfterUuidsIs(a + (d' + b), z + (d' + y), k);
    }
  }

  lemma SameAfterUuids(s: string, s': string, k: Classes)
    requires Substitute(Timestamp, None, s, k) == Substitute(Timestamp, None, s', k)
    ensures AfterUuids(s, k) == AfterUuids(s', k)
  {
    hide Substitute;
  }

  lemma AfterUuidsIs(s: string, t: string, k: Classes)
    requires Substitute(Timestamp, None, s, k) == t
    ensures AfterUuids(s, k) == Substitute(Number, None, Substitute(HexNumber, None, t, k), k)
  {
    hide Substitute;
  }

  /** The last two passes leave a placeholder where the number stood. */
  lemma NumberInLastPasses(a: string, d: string, b: string, k: Classes)
    requires Sane(k) && NumberText(d, k) && !EndsInDigit(a, k) && !BeginsWithDigit(b, k)
    requires !EndsInHex(a) && (BeginsHexTail(b) ==> d != "0")
    ensures Substitute(Number, None, Substitute(HexNumber, None, a + (d + b), k), k) ==
            Substitute(Number, None, Substitute(HexNumber, None, a, k), k) + "<n>"
            + Substitute(Number, None, Substitute(HexNumber, Some('0'), b, k), k)
  {
    hide *;
    var a3, b3 := Substitute(HexNumber, None, a, k), Substitute(HexNumber, Some('0'), b, k);
    HexKeepsNumber(a, d, b, k);
    DigitEndStays(HexNumber, None, a, k);
    DigitEndStays(HexNumber, Some('0'), b, k);
    assert a3 + d + b3 == a3 + (d + b3);
    NumberIsReplaced(a3, d, b3, k);
  }

  // ----- Timestamps -----

  /** A date and a time to the second, and what follows them up to the next space. */
  predicate TimestampText(t: string, k: Classes) {
    |t| >= 19 && TimestampHead(t[..19], k) && SpaceFree(t[19..], k)
  }

  predicate BeginsWithSpace(s: string, k: Classes) {
    s == "" || s[0] in k.spaces
  }

  /** No uuid begins in the seconds. */
  predicate PlainSeconds(t: string) {
    !UuidAt(t, 17) && !UuidAt(t, 18)
  }

  /** The last `j` characters of `a` are the first `j` of a timestamp. */
  predicate EndsInTimestamp(a: string, j: nat, k: Classes) {
    j <= |a| && j <= 19 && TimestampHead(a[|a| - j..] + seq(19 - j, _ => '0'), k)
  }

  /** `a` ends in a timestamp but for its last digit or two. */
  predicate OpensTimestamp(a: string, k: Classes) {
    EndsInTimestamp(a, 17, k) || EndsInTimestamp(a, 18, k)
  }

  /** A timestamp leaves no room for a uuid over its first 19 characters. */
  lemma TimestampBlocksUuid(a: string, t: string, b: string, k: Classes)
    requires Sane(k) && TimestampText(t, k) && PlainSeconds(t) && BeginsWithSpace(b, k) && !OpensUuid(a)
    ensures !UuidOver(a, t[..19], t[19..] + b)
  {
    hide *;
    hide UuidText;
    HeadIsLong(t, k);
    var s := a + t[..19] + (t[19..] + b);
    assert s == a + (t + b) && s[|a|..] == t + b;
    forall i: nat | i < |a| + 19 && |a| < i + 36 ensures !UuidAt(s, i) {
      if i < |a| {
        if i + 36 <= |s| {
          NoUuidIntoTimestamp(a, t, b, k, i);
        }
        AtNeeds(s, i);
      } else {
        UuidAtTail(s, |a|, i - |a|);
        NoUuidInTimestamp(t, b, k, i - |a|);
      }
    }
    NotOver(a, t[..19], t[19..] + b);
  }

  lemma HeadIsLong(t: string, k: Classes)
    requires TimestampText(t, k)
    ensures |t| >= 19 && t == t[..19] + t[19..]
  {}

  lemma AtNeeds(s: string, i: nat)
    ensures UuidAt(s, i) <==> i + 36 <= |s| && UuidText(s[i..i + 36])
  {}

  lemma NotOver(a: string, m: string, b: string)
    requires forall i: nat | i < |a| + |m| && |a| < i + 36 :: !UuidAt(a + m + b, i)
    ensures !UuidOver(a, m, b)
  {
    hide UuidAt;
  }

  lemma NotHexDigits()
    ensures ' ' !in HEX_DIGITS && 'T' !in HEX_DIGITS && ':' !in HEX_DIGITS && '-' !in HEX_DIGITS
  {
    HexDigitIs(' ');
    HexDigitIs('T');
    HexDigitIs(':');
    HexDigitIs('-');
    hide HEX_DIGITS;
  }

  /** What breaks a uuid inside a timestamp: the dashes of the date, the separator, the colons. */
  lemma TimestampMarks(t: string, k: Classes)
    requires TimestampText(t, k)
    ensures t[4] == '-' && t[7] == '-' && (t[10] == 'T' || t[10] == ' ') && t[13] == ':' && t[16] == ':'
    ensures forall q | 0 <= q < 4 :: t[q] in k.digits
  {
    var h := t[..19];
    assert forall q | 0 <= q < 19 :: t[q] == h[q];
  }

  lemma NoUuidInTimestamp(t: string, b: string, k: Classes, i: nat)
    requires Sane(k) && TimestampText(t, k) && PlainSeconds(t) && BeginsWithSpace(b, k) && i < 19
    ensures !UuidAt(t + b, i)
  {
    TimestampMarks(t, k);
    hide TimestampText;
    hide UuidText;
    NotHexDigits();
    if i + 36 <= |t + b| {
      var w := (t + b)[i..i + 36];
      if i <= 16 {
        assert w[16 - i] == t[16];
        NotUuid(w, 16 - i);
      } else if i + 36 <= |t| {
        UuidAtHead(t, b, i);
      } else {
        assert w[|t| - i] == b[0] && b[0] in k.spaces;
        WordsHoldHex(b[0], k);
        NotUuid(w, |t| - i);
      }
    }
  }

  lemma NoUuidIntoTimestamp(a: string, t: string, b: string, k: Classes, i: nat)
    requires Sane(k) && TimestampText(t, k) && !OpensUuid(a)
    requires i < |a| < i + 36 <= |a| + |t| + |b|
    ensures !UuidText((a + (t + b))[i..i + 36])
  {
    var j, w := |a| - i, (a + (t + b))[i..i + 36];
    TimestampMarks(t, k);
    hide TimestampText;
    hide OpensUuid;
    hide Sane;
    NotHexDigits();
    if j < 26 {
      assert w[j + 10] == t[10];
      NotUuid(w, j + 10);
    } else if j < 28 {
      assert w[j + 4] == t[4];
      NotUuid(w, j + 4);
    } else {
      assert a[|a| - j..] == w[..j];
      BeginningMayOpen(a, w, j);
    }
    hide UuidText;
  }

  lemma BeginningMayOpen(a: string, w: string, j: nat)
    requires |w| == 36 && 28 <= j < 36 && j <= |a| && a[|a| - j..] == w[..j]
    ensures UuidText(w) ==> OpensUuid(a)
  {
    if UuidText(w) {
      BeginningOpens(a, w, j);
    }
    hide OpensUuid;
    hide UuidText;
  }

  // A uuid holds no space, so the uuid pass neither makes nor takes one.

  lemma {:induction false} UuidPassKeepsSpaceFree(s: string, k: Classes)
    requires Sane(k)
    ensures SpaceFree(Substitute(Uuid, None, s, k), k) <==> SpaceFree(s, k)
    decreases |s|
  {
    hide MatchLength;
    if s != "" {
      UuidMatchIs(None, s, k);
      SubstituteStep(Uuid, None, s, k);
      var n, h := Consumed(Uuid, None, s, k), Head(Uuid, None, s, k);
      PrevIrrelevant(Uuid, Some(s[n - 1]), s[n..], k);
      hide Substitute;
      UuidPassKeepsSpaceFree(s[n..], k);
      assert s == s[..n] + s[n..];
      SpaceFreeSum(s[..n], s[n..], k);
      SpaceFreeSum(h, Substitute(Uuid, None, s[n..], k), k);
      if UuidAt(s, 0) {
        assert s[0..36] == s[..n];
        UuidTextIs(s[..n]);
        UuidIsSpaceFree(s[..n], k);
        assert forall c | c in "<uuid>" :: c in "<>-:Tuidtshexn";
      }
    }
  }

  lemma SpaceFreeSum(x: string, y: string, k: Classes)
    ensures SpaceFree(x + y, k) <==> SpaceFree(x, k) && SpaceFree(y, k)
  {
    assert forall c | c in x || c in y :: c in x + y;
  }

  /** After the uuid pass the timestamp stands with its own tail substituted. */
  lemma TimestampAfterUuids(a: string, t: string, b: string, k: Classes) returns (t1: string)
    requires Sane(k) && TimestampText(t, k) && PlainSeconds(t) && BeginsWithSpace(b, k) && !OpensUuid(a)
    ensures Substitute(Uuid, None, a + t + b, k) ==
            Substitute(Uuid, None, a, k) + (t1 + Substitute(Uuid, None, b, k))
    ensures TimestampText(t1, k) && |t| >= 19 && t1[10] == t[10]
    ensures BeginsWithSpace(Substitute(Uuid, None, b, k), k)
  {
    HeadIsLong(t, k);
    hide *;
    var h, tail := t[..19], t[19..];
    t1 := h + Substitute(Uuid, None, tail, k);
    TailStays(t, t1, k);
    TailApart(tail, b, k);
    HeadApart(a, t, b, k);
  }

  lemma HeadApart(a: string, t: string, b: string, k: Classes)
    requires Sane(k) && TimestampText(t, k) && PlainSeconds(t) && BeginsWithSpace(b, k) && !OpensUuid(a)
    requires |t| >= 19
    requires Substitute(Uuid, None, t[19..] + b, k) ==
             Substitute(Uuid, None, t[19..], k) + Substitute(Uuid, None, b, k)
    ensures Substitute(Uuid, None, a + t + b, k) ==
            Substitute(Uuid, None, a, k)
            + ((t[..19] + Substitute(Uuid, None, t[19..], k)) + Substitute(Uuid, None, b, k))
  {
    hide *;
    var h, tail := t[..19], t[19..];
    TimestampBlocksUuid(a, t, b, k);
    UuidKeeps(a, h, tail + b, k);
    Regroup(a, h, tail, b);
    Regroup(Substitute(Uuid, None, a, k), h, Substitute(Uuid, None, tail, k), Substitute(Uuid, None, b, k));
    assert h + tail == t && a + t + b == a + (t + b);
  }

  lemma Regroup(x: string, h: string, u: string, v: string)
    ensures x + h + (u + v) == x + ((h + u) + v)
  {}

  lemma TailStays(t: string, t1: string, k: Classes)
    requires Sane(k) && TimestampText(t, k) && |t| >= 19 && t1 == t[..19] + Substitute(Uuid, None, t[19..], k)
    ensures TimestampText(t1, k) && t1[10] == t[10]
  {
    UuidPassKeepsSpaceFree(t[19..], k);
    hide Substitute;
    hide TimestampHead;
    assert t1[..19] == t[..19] && t1[19..] == Substitute(Uuid, None, t[19..], k);
  }

  /** A uuid neither reaches over a space nor begins with one. */
  lemma TailApart(tail: string, b: string, k: Classes)
    requires Sane(k) && BeginsWithSpace(b, k)
    ensures Substitute(Uuid, None, tail + b, k) == Substitute(Uuid, None, tail, k) + Substitute(Uuid, None, b, k)
    ensures BeginsWithSpace(Substitute(Uuid, None, b, k), k)
  {
    hide UuidText;
    hide Sane;
    if b != "" {
      WordsHoldHex(b[0], k);
      SpaceIsNoHex(b[0], k);
      if |b| >= 36 {
        assert b[0..36][0] == b[0];
        NotUuid(b[0..36], 0);
      }
      UuidMatchIs(None, b, k);
      SubstituteStep(Uuid, None, b, k);
    }
    EmptyStaysEmpty(b, k);
    hide Substitute;
    forall i: nat | i < |tail| && |tail| < i + 36 ensures !UuidAt(tail + b, i) {
      if i + 36 <= |tail + b| {
        var w := (tail + b)[i..i + 36];
        assert w[|tail| - i] == b[0];
        NotUuid(w, |tail| - i);
      }
    }
    UuidCut(tail, b, k);
  }

  lemma SpaceIsNoHex(c: char, k: Classes)
    requires Sane(k) && c in k.spaces
    ensures c !in HEX_DIGITS && c != '-'
  {
    WordsHoldHex(c, k);
  }

  /** No timestamp starts before another and ends in it, but for one that its first digits complete. */
  lemma TimestampBlocksTimestamp(a: string, t: string, b: string, k: Classes)
    requires Sane(k) && TimestampText(t, k) && !OpensTimestamp(a, k)
    ensures !TimestampStraddles(a, t + b, k)
  {
    TimestampMarks(t, k);
    hide TimestampText;
    hide TimestampHead;
    hide OpensTimestamp;
    hide Sane;
    forall i: nat | i < |a| && |a| < i + 19 ensures !TimestampAt(a + (t + b), i, k) {
      if i + 19 <= |a + (t + b)| {
        NoTimestampIntoTimestamp(a, t, b, k, i);
      }
    }
  }

  lemma MarksAreNoDigits(k: Classes)
    requires Sane(k)
    ensures '-' !in k.digits && ':' !in k.digits
  {}

  lemma NoTimestampIntoTimestamp(a: string, t: string, b: string, k: Classes, i: nat)
    requires Sane(k) && TimestampText(t, k) && !OpensTimestamp(a, k)
    requires i < |a| < i + 19 <= |a| + |t| + |b|
    ensures !TimestampHead((a + (t + b))[i..i + 19], k)
  {
    hide *;
    HeadIsLong(t, k);
    var j, w := |a| - i, (a + (t + b))[i..i + 19];
    if j < 17 {
      MarkOutOfPlace(a, t, b, k, i);
    } else {
      WindowHead(a, t + b, i, 19);
      TimestampBeginningMayOpen(a, w, j, k);
    }
  }

  lemma MarkOutOfPlace(a: string, t: string, b: string, k: Classes, i: nat)
    requires Sane(k) && TimestampText(t, k) && i < |a| < i + 17 && i + 19 <= |a| + |t| + |b|
    ensures !TimestampHead((a + (t + b))[i..i + 19], k)
  {
    hide TimestampText;
    hide TimestampHead;
    hide Sane;
    HeadIsLong(t, k);
    TimestampMarks(t, k);
    MarksAreNoDigits(k);
    var j, w := |a| - i, (a + (t + b))[i..i + 19];
    var q := if j >= 15 then 16 - j else if j == 3 then 7 else 4;
    CharOfSecond(a, t, b, i, j + q);
    NotTimestamp(w, j + q, k);
  }

  lemma WindowHead(a: string, r: string, i: nat, n: nat)
    requires i <= |a| <= i + n <= |a| + |r|
    ensures a[|a| - (|a| - i)..] == (a + r)[i..i + n][..|a| - i]
  {}

  lemma CharOfSecond(a: string, t: string, b: string, i: nat, q: nat)
    requires i <= |a| <= i + q < |a| + |t| && q < 19 && i + 19 <= |a| + |t| + |b|
    ensures (a + (t + b))[i..i + 19][q] == t[q - (|a| - i)]
  {}

  lemma TimestampBeginningMayOpen(a: string, w: string, j: nat, k: Classes)
    requires Sane(k) && |w| == 19 && 17 <= j < 19 && j <= |a| && a[|a| - j..] == w[..j]
    ensures TimestampHead(w, k) ==> OpensTimestamp(a, k)
  {
    var v := w[..j] + seq(19 - j, _ => '0');
    assert forall q | 0 <= q < j :: v[q] == w[q];
    assert forall q | j <= q < 19 :: v[q] == '0';
    assert TimestampHead(w, k) ==> EndsInTimestamp(a, j, k);
  }

  lemma TimestampOpeningStays(a: string, k: Classes)
    requires Sane(k)
    ensures OpensTimestamp(Substitute(Uuid, None, a, k), k) ==> OpensTimestamp(a, k)
  {
    var t := Substitute(Uuid, None, a, k);
    hide Substitute;
    hide TimestampHead;
    forall j: nat | j == 17 || j == 18 ensures EndsInTimestamp(t, j, k) ==> EndsInTimestamp(a, j, k) {
      if EndsInTimestamp(t, j, k) {
        var w := t[|t| - j..];
        TimestampHeadIsPlain(w + seq(19 - j, _ => '0'), k);
        assert forall c | c in w :: c in w + seq(19 - j, _ => '0');
        PlainSuffixCopied(Uuid, None, a, k, w);
      }
    }
  }

  // ----- What a plain window of the uuid pass's output was copied from, and what followed it there -----

  lemma UuidStep(s: string, k: Classes) returns (n: nat, h: string)
    requires s != ""
    ensures 1 <= n <= |s| && Substitute(Uuid, None, s, k) == h + Substitute(Uuid, None, s[n..], k)
    ensures (n == 1 && h == [s[0]]) || (1 < |h| <= 6 && h[0] == '<' && h[|h| - 1] == '>')
  {
    SubstituteStep(Uuid, None, s, k);
    n, h := Consumed(Uuid, None, s, k), Head(Uuid, None, s, k);
    PrevIrrelevant(Uuid, Some(s[n - 1]), s[n..], k);
    hide Substitute;
    hide MatchLength;
  }

  lemma {:induction false} PrefixTraced(s: string, k: Classes, w: string)
    requires Plain(w) && w <= Substitute(Uuid, None, s, k)
    ensures w <= s && Substitute(Uuid, None, s, k)[|w|..] == Substitute(Uuid, None, s[|w|..], k)
    decreases |w|
  {
    hide Substitute;
    var t := Substitute(Uuid, None, s, k);
    SubstituteOfEmpty(Uuid, None, k);
    if w == "" {
      assert t[0..] == t && s[0..] == s;
    } else {
      var n, h := UuidStep(s, k);
      var rest := Substitute(Uuid, None, s[n..], k);
      assert t[0] == w[0] && w[0] in w;
      assert n == 1 && t == [s[0]] + rest && t[1..] == rest;
      assert forall c | c in w[1..] :: c in w;
      assert w[1..] <= rest;
      PrefixTraced(s[1..], k, w[1..]);
      assert t[|w|..] == rest[|w| - 1..] && s[|w|..] == s[1..][|w| - 1..];
      assert w == [w[0]] + w[1..] && s == [s[0]] + s[1..];
    }
  }

  lemma {:induction false} WindowTraced(s: string, k: Classes, i: nat, w: string) returns (m: nat)
    requires Plain(w) && |w| >= 6 && i <= |Substitute(Uuid, None, s, k)| && w <= Substitute(Uuid, None, s, k)[i..]
    ensures m + |w| <= |s| && w <= s[m..]
    ensures Substitute(Uuid, None, s, k)[i + |w|..] == Substitute(Uuid, None, s[m + |w|..], k)
    decreases |s|
  {
    hide Substitute;
    var t := Substitute(Uuid, None, s, k);
    SubstituteOfEmpty(Uuid, None, k);
    m := 0;
    if i == 0 {
      assert t[0..] == t && s[0..] == s;
      PrefixTraced(s, k, w);
    } else {
      var n, h := UuidStep(s, k);
      WindowAfterHead(h, Substitute(Uuid, None, s[n..], k), i, w);
      hide Plain;
      var less := WindowTraced(s[n..], k, i - |h|, w);
      m := n + less;
      TailOfTail(s, n, less, |w|);
    }
  }

  lemma WindowAfterHead(h: string, rest: string, i: nat, w: string)
    requires 0 < i <= |h + rest| && w <= (h + rest)[i..] && Plain(w) && |w| >= 6
    requires |h| == 1 || (1 < |h| <= 6 && h[0] == '<' && h[|h| - 1] == '>')
    ensures i >= |h| && w <= rest[i - |h|..] && (h + rest)[i + |w|..] == rest[i - |h| + |w|..]
  {
    if i < |h| {
      BracketBlocks(w, h + rest, i, |h| - 1);
    } else {
      assert (h + rest)[i..] == rest[i - |h|..];
    }
  }

  lemma TailOfTail(s: string, n: nat, m: nat, l: nat)
    requires n + m + l <= |s|
    ensures s[n..][m..] == s[n + m..] && s[n..][m + l..] == s[n + m + l..]
  {}

  lemma TrailsTracesBack(a: string, k: Classes)
    requires Sane(k)
    ensures Trails(Substitute(Uuid, None, a, k), k) ==> Trails(a, k)
  {
    var t := Substitute(Uuid, None, a, k);
    hide Substitute;
    hide TimestampHead;
    if Trails(t, k) {
      var i: nat :| i + 19 <= |t| && TimestampAt(t, i, k) && SpaceFree(t[i + 19..], k);
      var w := t[i..i + 19];
      TimestampHeadIsPlain(w, k);
      assert w <= t[i..];
      var m := WindowTraced(a, k, i, w);
      UuidPassKeepsSpaceFree(a[m + 19..], k);
      assert a[m..m + 19] == w;
      hide SpaceFree;
      assert TimestampAt(a, m, k);
    }
  }

  lemma TimestampIsReplaced(t: string, b: string, k: Classes)
    requires TimestampText(t, k) && BeginsWithSpace(b, k)
    ensures Substitute(Timestamp, None, t + b, k) == "<ts>" + Substitute(Timestamp, None, b, k)
  {
    var s := t + b;
    assert s[0..19] == t[..19] && s[19..] == t[19..] + b;
    TimestampMatchIs(None, s, k);
    RunOfSum(t[19..], b, NonSpace, k);
    WholeRun(t[19..], k);
    SubstituteStep(Timestamp, None, s, k);
    hide Substitute;
    hide MatchLength;
    hide TimestampHead;
    assert s[|t|..] == b;
    PrevIrrelevant(Timestamp, Some(s[|t| - 1]), b, k);
  }

  lemma OneWord(t: string, k: Classes)
    requires Sane(k) && TimestampText(t, k) && t[10] == 'T'
    ensures SpaceFree(t, k)
  {
    var h := t[..19];
    forall c | c in h ensures c !in k.spaces {
      var i :| 0 <= i < 19 && h[i] == c;
    }
    SpaceFreeSum(h, t[19..], k);
    assert t == h + t[19..];
  }

  lemma SameAfterTimestamps(a: string, t: string, t': string, b: string, k: Classes)
    requires Sane(k) && TimestampText(t, k) && TimestampText(t', k) && BeginsWithSpace(b, k) && !OpensTimestamp(a, k)
    requires (t[10] == 'T' && t'[10] == 'T') || !Trails(a, k)
    ensures Substitute(Timestamp, None, a + (t + b), k) == Substitute(Timestamp, None, a + (t' + b), k)
  {
    TimestampBlocksTimestamp(a, t, b, k);
    TimestampBlocksTimestamp(a, t', b, k);
    TimestampIsReplaced(t, b, k);
    TimestampIsReplaced(t', b, k);
    HeadIsLong(t, k);
    HeadIsLong(t', k);
    hide Substitute;
    hide TimestampHead;
    hide OpensTimestamp;
    hide TimestampStraddles;
    hide Sane;
    if Trails(a, k) {
      OneWord(t, k);
      OneWord(t', k);
      TimestampTakesBothOrNeither(a, t, t', b, k);
    } else {
      TimestampCut(a, t + b, k);
      TimestampCut(a, t' + b, k);
    }
    hide Trails;
  }

  /** Timestamps with their tails, after text that takes in neither and without a uuid in their seconds. */
  predicate TimestampsApart(a: string, t: string, t': string, b: string, k: Classes) {
    && TimestampText(t, k) && TimestampText(t', k) && PlainSeconds(t) && PlainSeconds(t')
    && BeginsWithSpace(b, k) && !OpensUuid(a) && !OpensTimestamp(a, k)
    && ((t[10] == 'T' && t'[10] == 'T') || !Trails(a, k))
  }

  /** Main result: a timestamp with all that follows it up to the next space reads as any other, unless the text before
      ends inside a uuid or a timestamp, a uuid begins in the seconds, or an earlier timestamp's tail runs into one with
      a space in it. */
  lemma TimestampIsAbsorbed(a: string, t: string, t': string, b: string, k: Classes)
    requires Sane(k) && TimestampsApart(a, t, t', b, k)
    ensures Normalize(a + t + b, k) == Normalize(a + t' + b, k)
  {
    hide Normalize;
    hide Substitute;
    hide TimestampText;
    hide PlainSeconds;
    hide BeginsWithSpace;
    hide OpensUuid;
    hide OpensTimestamp;
    hide Trails;
    hide Sane;
    HeadIsLong(t, k);
    HeadIsLong(t', k);
    var u := TimestampAfterUuids(a, t, b, k);
    var u' := TimestampAfterUuids(a, t', b, k);
    HeadIsLong(u, k);
    HeadIsLong(u', k);
    TimestampOpeningStays(a, k);
    TrailsTracesBack(a, k);
    SameAfterTimestamps(Substitute(Uuid, None, a, k), u, u', Substitute(Uuid, None, b, k), k);
    SameAfterTimestampPass(a + t + b, a + t' + b, k);
  }

  lemma SameAfterTimestampPass(s: string, s': string, k: Classes)
    requires Substitute(Timestamp, None, Substitute(Uuid, None, s, k), k) ==
             Substitute(Timestamp, None, Substitute(Uuid, None, s', k), k)
    ensures Normalize(s, k) == Normalize(s', k)
  {
    hide Substitute;
    hide Split;
  }

  // ----- Failures that differ in noise share a key -----

  /** The messages `a + x + b` and `a + y + b` differ in one piece of noise that stands apart. */
  predicate DifferInNoise(a: string, x: string, y: string, b: string, k: Classes) {
    || UuidsApart(a, x, y)
    || TimestampsApart(a, x, y, b, k)
    || HexApart(a, x, y, b, k)
    || NumbersApart(a, x, y, b, k)
    || SpacesApart(a, x, y, b, k)
  }

  /** Main result: noise is absorbed, so two failures of one class, flow and step whose messages differ in it share a
      key. */
  lemma NoiseSharesTheKey(a: string, x: string, y: string, b: string, cls: string, flow: string, step: string,
                          k: Classes)
    requires Sane(k) && DifferInNoise(a, x, y, b, k)
    ensures Normalize(a + x + b, k) == Normalize(a + y + b, k)
    ensures KeyText(cls, a + x + b, flow, step, k) == KeyText(cls, a + y + b, flow, step, k)
  {
    if UuidsApart(a, x, y) {
      UuidIsAbsorbed(a, x, y, b, k);
    } else if TimestampsApart(a, x, y, b, k) {
      TimestampIsAbsorbed(a, x, y, b, k);
    } else if HexApart(a, x, y, b, k) {
      HexIsAbsorbed(a, x, y, b, k);
    } else if NumbersApart(a, x, y, b, k) {
      NumberIsAbsorbed(a, x, y, b, k);
    } else {
      WhitespaceIsAbsorbed(a, x, y, b, k);
    }
    hide Normalize;
    hide UuidsApart;
    hide TimestampsApart;
    hide HexApart;
    hide NumbersApart;
    hide SpacesApart;
    hide Sane;
  }

  ghost predicate NoisyStep(m: string, m': string, k: Classes) {
    exists a, x, y, b :: m == a + x + b && m' == a + y + b && DifferInNoise(a, x, y, b, k)
  }

  /** So do failures that differ in any number of pieces of noise. */
  lemma {:induction false} MuchNoiseSharesTheKey(ms: seq<string>, cls: string, flow: string, step: string, k: Classes)
    requires Sane(k) && ms != [] && forall i | 0 < i < |ms| :: NoisyStep(ms[i - 1], ms[i], k)
    ensures KeyText(cls, ms[0], flow, step, k) == KeyText(cls, ms[|ms| - 1], flow, step, k)
  {
    hide Sane;
    hide KeyText;
    hide DifferInNoise;
    if |ms| > 1 {
      var rest := ms[1..];
      forall i | 0 < i < |rest| ensures NoisyStep(rest[i - 1], rest[i], k) {
        assert NoisyStep(ms[i + 1 - 1], ms[i + 1], k);
      }
      MuchNoiseSharesTheKey(rest, cls, flow, step, k);
      assert NoisyStep(ms[0], ms[1], k);
      var a, x, y, b :| ms[0] == a + x + b && ms[1] == a + y + b && DifferInNoise(a, x, y, b, k);
      NoiseSharesTheKey(a, x, y, b, cls, flow, step, k);
    }
  }
}
