/** What the normaliser writes for noise, and where it takes noise for something else. */
module NoiseLimits {
  import opened Common
  import opened Normalizer
  import opened NoiseText
  import opened Noise

  // ----- What is written -----

  lemma DigitFreeWord(w: string, k: Classes)
    requires Sane(k) && w != "" && SpaceFree(w, k) && DigitFree(w, k)
    ensures Substitute(Timestamp, None, w, k) == w && Substitute(HexNumber, None, w, k) == w
    ensures Substitute(Number, None, w, k) == w && Join(Split(w, k)) == w
  {
    DigitFreeIsUntouched(Timestamp, None, w, k);
    DigitFreeIsUntouched(HexNumber, None, w, k);
    DigitFreeIsUntouched(Number, None, w, k);
    assert w + "" == w;
    SplitFirstWord(w, "", k);
    assert Split("", k) == [];
    hide Substitute;
  }

  lemma PlaceholderIsWord(w: string, k: Classes)
    requires Sane(k) && w in {"<uuid>", "<ts>", "<hex>", "<n>"}
    ensures SpaceFree(w, k) && DigitFree(w, k)
  {
    assert forall c | c in w :: c in "<>-:Tuidtshexn" && c in "<>-:TXuidtshexn";
  }

  /** A placeholder that makes up the whole text after some pass is the whole result. */
  lemma PlaceholderStays(m: string, w: string, k: Classes)
    requires Sane(k) && w in {"<uuid>", "<ts>", "<hex>", "<n>"}
    ensures var s1 := Substitute(Uuid, None, m, k);
            var s2 := Substitute(Timestamp, None, s1, k);
            var s3 := Substitute(HexNumber, None, s2, k);
            s1 == w || s2 == w || s3 == w || Substitute(Number, None, s3, k) == w ==> Normalize(m, k) == w
  {
    PlaceholderIsWord(w, k);
    DigitFreeWord(w, k);
    hide Substitute;
    hide Split;
    hide Sane;
  }

  /** Main result: noise alone reads as what it is. */
  lemma NoiseReadsAs(x: string, k: Classes)
    requires Sane(k)
    ensures UuidText(x) ==> Normalize(x, k) == "<uuid>"
    ensures TimestampText(x, k) && PlainSeconds(x) ==> Normalize(x, k) == "<ts>"
    ensures HexText(x) ==> Normalize(x, k) == "<hex>"
    ensures NumberText(x, k) ==> Normalize(x, k) == "<n>"
  {
    hide Normalize;
    hide UuidText;
    hide TimestampText;
    hide PlainSeconds;
    hide HexText;
    hide NumberText;
    hide Sane;
    if UuidText(x) { UuidReadsAs(x, k); }
    if TimestampText(x, k) && PlainSeconds(x) { TimestampReadsAs(x, k); }
    if HexText(x) { HexReadsAs(x, k); }
    if NumberText(x, k) { NumberReadsAs(x, k); }
  }

  lemma UuidReadsAs(x: string, k: Classes)
    requires Sane(k) && UuidText(x)
    ensures Normalize(x, k) == "<uuid>"
  {
    hide *;
    NothingOpens("", k);
    UuidIsReplaced("", x, "", k);
    SubstituteOfEmpty(Uuid, None, k);
    PlaceholderStays(x, "<uuid>", k);
    assert "" + x + "" == x && "" + "<uuid>" + "" == "<uuid>";
  }

  lemma NothingOpens(a: string, k: Classes)
    requires a == ""
    ensures !OpensUuid(a) && !OpensTimestamp(a, k) && !EndsInHex(a) && !EndsInDigit(a, k) && !BeginsWithDigit(a, k)
    ensures EndsNonWord(a, k) && BeginsNonWord(a, k) && BeginsWithSpace(a, k) && !ReadsOn(a, k) && !BeginsHexTail(a)
  {}

  lemma TimestampReadsAs(x: string, k: Classes)
    requires Sane(k) && TimestampText(x, k) && PlainSeconds(x)
    ensures Normalize(x, k) == "<ts>"
  {
    hide *;
    NothingOpens("", k);
    var t := TimestampAfterUuids("", x, "", k);
    SubstituteOfEmpty(Uuid, None, k);
    SubstituteOfEmpty(Timestamp, None, k);
    TimestampIsReplaced(t, "", k);
    PlaceholderStays(x, "<ts>", k);
    assert "" + x + "" == x && "" + (t + "") == t && t + "" == t && "<ts>" + "" == "<ts>";
  }

  lemma HexReadsAs(x: string, k: Classes)
    requires Sane(k) && HexText(x)
    ensures Normalize(x, k) == "<hex>"
  {
    hide *;
    NothingOpens("", k);
    HexAfterUuids("", x, "", k);
    SubstituteOfEmpty(Uuid, None, k);
    SubstituteOfEmpty(Timestamp, None, k);
    SubstituteOfEmpty(HexNumber, None, k);
    SubstituteOfEmpty(HexNumber, Some('0'), k);
    HexIsReplaced("", x, "", k);
    PlaceholderStays(x, "<hex>", k);
    assert "" + x + "" == x && x + "" == x && "" + (x + "") == x && "" + "<hex>" + "" == "<hex>";
  }

  lemma NumberReadsAs(x: string, k: Classes)
    requires Sane(k) && NumberText(x, k)
    ensures Normalize(x, k) == "<n>"
  {
    hide *;
    NothingOpens("", k);
    NumberStandsAlone(x, k);
    NumberAfterUuids("", x, "", k);
    SubstituteOfEmpty(Uuid, None, k);
    SubstituteOfEmpty(Timestamp, None, k);
    SubstituteOfEmpty(HexNumber, None, k);
    SubstituteOfEmpty(HexNumber, Some('0'), k);
    SubstituteOfEmpty(Number, None, k);
    NumberInLastPasses("", x, "", k);
    PlaceholderStays(x, "<n>", k);
    assert "" + x + "" == x && x + "" == x && "" + (x + "") == x && "" + "<n>" + "" == "<n>";
  }

  lemma NumberStandsAlone(x: string, k: Classes)
    requires Sane(k) && NumberText(x, k)
    ensures !UuidOver("", x, "") && !TimestampOver("", x, "", k)
  {
    var s := "" + x + "";
    assert s == x;
    hide UuidText;
    hide TimestampHead;
    forall i: nat | i < |x| ensures !UuidAt(s, i) && !TimestampAt(s, i, k) {
      if i + 36 <= |x| {
        assert s[i..i + 36][8] == x[i + 8] && x[i + 8] in x;
        NotUuid(s[i..i + 36], 8);
      }
      if i + 19 <= |x| {
        assert s[i..i + 19][4] == x[i + 4] && x[i + 4] in x;
        NotTimestamp(s[i..i + 19], 4, k);
      }
    }
  }

  /** Main result: text without digits or uuids keeps its words, one space apart. */
  lemma PlainWordsAreKept(ws: seq<string>, k: Classes)
    requires Sane(k) && Words(ws, k) && DigitFree(Join(ws), k) && forall i: nat :: !UuidAt(Join(ws), i)
    ensures Normalize(Join(ws), k) == Join(ws)
  {
    var m := Join(ws);
    assert m + "" == m;
    UuidSkip(m, "", k);
    SubstituteOfEmpty(Uuid, None, k);
    DigitFreeIsUntouched(Timestamp, None, m, k);
    DigitFreeIsUntouched(HexNumber, None, m, k);
    DigitFreeIsUntouched(Number, None, m, k);
    SplitOfJoin(ws, k);
    hide Substitute;
    hide UuidAt;
  }

  // ----- How a result begins -----

  /** What a text without spaces begins with, its collapse begins with. */
  lemma HeadKept(w: string, r: string, k: Classes)
    requires w != "" && SpaceFree(w, k)
    ensures w <= Join(Split(w + r, k))
  {
    var s := w + r;
    assert w[0] in w && s[0] == w[0];
    assert SkipSpaces(s, k) == s;
    HeadIsShort(w, r, k);
    var n := WordLength(s, k);
    hide WordLength;
    assert Split(s, k)[0] == s[..n];
    assert w == s[..|w|] && w <= s[..n];
  }

  lemma {:induction false} HeadIsShort(w: string, r: string, k: Classes)
    requires SpaceFree(w, k)
    ensures WordLength(w + r, k) >= |w|
  {
    if w != "" {
      assert w[0] in w && forall c | c in w[1..] :: c in w;
      assert (w + r)[1..] == w[1..] + r;
      HeadIsShort(w[1..], r, k);
    }
  }

  /** A text that still begins with a digit when the timestamps are out, and with no 0x number, reads as a number
      first. */
  lemma ReadsAsNumberFirst(m: string, k: Classes)
    requires Sane(k)
    ensures var s2 := Substitute(Timestamp, None, Substitute(Uuid, None, m, k), k);
            s2 != "" && s2[0] in k.digits && MatchLength(HexNumber, None, s2, k) == 0 ==> "<n>" <= Normalize(m, k)
  {
    var s2 := Substitute(Timestamp, None, Substitute(Uuid, None, m, k), k);
    hide Substitute;
    hide MatchLength;
    hide Sane;
    if s2 != "" && s2[0] in k.digits && MatchLength(HexNumber, None, s2, k) == 0 {
      SubstituteStep(HexNumber, None, s2, k);
      NumberFirstOf(Substitute(HexNumber, None, s2, k), k);
    }
  }

  lemma NumberFirstOf(s: string, k: Classes)
    requires Sane(k) && s != "" && s[0] in k.digits
    ensures "<n>" <= Join(Split(Substitute(Number, None, s, k), k))
  {
    assert RunLength(s, Digit, k) > 0;
    SubstituteStep(Number, None, s, k);
    PlaceholderIsWord("<n>", k);
    var n := RunLength(s, Digit, k);
    hide Substitute;
    hide Split;
    hide Join;
    HeadKept("<n>", Substitute(Number, Some(s[n - 1]), s[n..], k), k);
  }

  /** A text that begins with a 0x number when the timestamps are out reads as one. */
  lemma ReadsAsHexFirst(m: string, x: string, r: string, k: Classes)
    requires Sane(k) && HexText(x) && BeginsNonWord(r, k)
    requires Substitute(Timestamp, None, Substitute(Uuid, None, m, k), k) == x + r
    ensures "<hex>" <= Normalize(m, k)
  {
    hide Substitute;
    hide Split;
    hide Join;
    var y := Substitute(HexNumber, Some('0'), r, k);
    HexIsReplaced("", x, r, k);
    SubstituteOfEmpty(HexNumber, None, k);
    assert "" + (x + r) == x + r && "" + "<hex>" + y == "<hex>" + y;
    PlaceholderIsWord("<hex>", k);
    NumberCut("<hex>", y, k);
    DigitFreeWord("<hex>", k);
    HeadKept("<hex>", Substitute(Number, None, y, k), k);
    hide HexText;
    hide Sane;
  }

  // ----- The exact condition on the text after a 0x number -----

  /** The first two passes start no match in "0x". */
  lemma AfterX(r: string, k: Classes)
    requires Sane(k)
    ensures Substitute(Uuid, None, "0x" + r, k) == "0x" + Substitute(Uuid, None, r, k)
    ensures Substitute(Timestamp, None, "0x" + r, k) == "0x" + Substitute(Timestamp, None, r, k)
  {
    hide UuidText;
    hide TimestampHead;
    XIsNoDigit(k);
    hide Sane;
    var s := "0x" + r;
    assert s[1] == 'x';
    forall i: nat | i < 2 ensures !UuidAt(s, i) && !TimestampAt(s, i, k) {
      if i + 36 <= |s| {
        assert s[i..i + 36][1 - i] == 'x';
        NotUuid(s[i..i + 36], 1 - i);
      }
      if i + 19 <= |s| {
        assert s[i..i + 19][1 - i] == 'x';
        NotTimestamp(s[i..i + 19], 1 - i, k);
      }
    }
    UuidSkip("0x", r, k);
    TimestampSkip("0x", r, k);
    hide Substitute;
  }

  lemma BracketStays(r: string, k: Classes)
    requires Sane(k) && r != "" && r[0] == '<'
    ensures Substitute(Timestamp, None, r, k) != "" && Substitute(Timestamp, None, r, k)[0] == '<'
  {
    assert MatchLength(Timestamp, None, r, k) == 0 by {
      TimestampMatchIs(None, r, k);
      assert |r| >= 19 ==> r[0..19][0] == '<';
    }
    SubstituteStep(Timestamp, None, r, k);
    hide Substitute;
    hide MatchLength;
  }

  lemma BracketAfterX(m: string, q: string, k: Classes)
    requires Sane(k) && q != "" && q[0] == '<'
    requires Substitute(Timestamp, None, Substitute(Uuid, None, m, k), k) == "0x" + q
    ensures "<n>" <= Normalize(m, k)
  {
    var s := "0x" + q;
    assert s[0] == '0' && s[0] in k.digits && s[2] == '<';
    assert MatchLength(HexNumber, None, s, k) == 0;
    ReadsAsNumberFirst(m, k);
    hide Substitute;
    hide MatchLength;
    hide Normalize;
  }

  /** Eight hex digits before the rest of a uuid are its beginning, not the end of a number. */
  lemma UuidRestTakesTheNumber(b: string, k: Classes)
    requires Sane(k) && UuidRest(b)
    ensures "<n>" <= Normalize("0x00000000" + b, k)
  {
    var u, rest := "00000000" + b[..28], b[28..];
    var r := u + rest;
    assert "0x00000000" + b == "0x" + r;
    NothingOpens("", k);
    UuidIsReplaced("", u, rest, k);
    SubstituteOfEmpty(Uuid, None, k);
    hide Substitute;
    hide UuidText;
    hide OpensUuid;
    var r1 := Substitute(Uuid, None, r, k);
    assert "" + u + rest == r;
    assert r1[0] == '<' by {
      assert r1 == "" + "<uuid>" + Substitute(Uuid, None, rest, k);
    }
    AfterX(r, k);
    AfterX(r1, k);
    BracketStays(r1, k);
    BracketAfterX("0x" + r, Substitute(Timestamp, None, r1, k), k);
    hide Normalize;
    hide Sane;
  }

  /** Four digits before the rest of a timestamp are its year. */
  lemma TimestampRestTakesTheNumber(b: string, k: Classes)
    requires Sane(k) && TimestampRest(b, k) && !UuidAt(b, 13) && !UuidAt(b, 14)
    ensures "<n>" <= Normalize("0x0000" + b, k)
  {
    var h, rest := "0000" + b[..15], b[15..];
    var r := h + rest;
    assert "0x0000" + b == "0x" + r;
    NoUuidOverYear(b, k);
    UuidSkip(h, rest, k);
    var z := Substitute(Uuid, None, rest, k);
    hide UuidAt;
    assert TimestampAt(h + z, 0, k) by {
      assert (h + z)[0..19] == h;
    }
    TimestampMatchIs(None, h + z, k);
    SubstituteStep(Timestamp, None, h + z, k);
    hide Substitute;
    hide MatchLength;
    AfterX(r, k);
    AfterX(h + z, k);
    BracketAfterX("0x" + r, Substitute(Timestamp, None, h + z, k), k);
    hide Normalize;
    hide Sane;
  }

  lemma NoUuidOverYear(b: string, k: Classes)
    requires Sane(k) && TimestampRest(b, k) && !UuidAt(b, 13) && !UuidAt(b, 14)
    ensures forall i: nat | i < 19 :: !UuidAt(("0000" + b[..15]) + b[15..], i)
  {
    RestHasNoUuid(b, k);
    assert b[0] == ("0000" + b[..15])[4] == '-';
    var s := ("0000" + b[..15]) + b[15..];
    assert s == "0000" + b && s[4..] == b;
    hide TimestampRest;
    hide UuidText;
    hide Sane;
    forall i: nat | i < 19 ensures !UuidAt(s, i) {
      if i >= 4 {
        UuidAtTail(s, 4, i - 4);
      } else if i + 36 <= |s| {
        assert s[i..i + 36][4 - i] == s[4];
        NotHexDigits();
        NotUuid(s[i..i + 36], 4 - i);
      }
    }
  }

  /** A single digit before either rest stays a number. */
  lemma ShortNumberStands(b: string, k: Classes)
    requires Sane(k) && b != "" && b[0] == '-' && BeginsNonWord(b, k)
    ensures "<hex>" <= Normalize("0xa" + b, k)
  {
    hide Substitute;
    hide Normalize;
    var b1 := Substitute(Uuid, None, b, k);
    var b2 := Substitute(Timestamp, None, b1, k);
    AfterX("a" + b, k);
    AfterX("a" + b1, k);
    OneLetterStands(b, k);
    OneLetterIsNoYear(b1, k);
    EndStays(Uuid, b, k);
    EndStays(Timestamp, b1, k);
    assert "0xa" + b == "0x" + ("a" + b) && "0xa" + b2 == "0x" + ("a" + b2);
    assert HexText("0xa") by {
      HexDigitIs('a');
    }
    hide HexText;
    hide Sane;
    ReadsAsHexFirst("0xa" + b, "0xa", b2, k);
  }

  lemma OneLetterStands(b: string, k: Classes)
    requires b != "" && b[0] == '-'
    ensures Substitute(Uuid, None, "a" + b, k) == "a" + Substitute(Uuid, None, b, k)
  {
    var s := "a" + b;
    NotHexDigits();
    hide UuidText;
    forall i: nat | i < 1 ensures !UuidAt(s, i) {
      if i + 36 <= |s| {
        assert s[0..36][1] == '-';
        NotUuid(s[0..36], 1);
      }
    }
    UuidSkip("a", b, k);
    hide Substitute;
  }

  lemma OneLetterIsNoYear(b: string, k: Classes)
    requires Sane(k)
    ensures Substitute(Timestamp, None, "a" + b, k) == "a" + Substitute(Timestamp, None, b, k)
  {
    var s := "a" + b;
    hide TimestampHead;
    forall i: nat | i < 1 ensures !TimestampAt(s, i, k) {
      if i + 19 <= |s| {
        assert s[0..19][0] == 'a';
        NotTimestamp(s[0..19], 0, k);
      }
    }
    TimestampSkip("a", b, k);
    hide Substitute;
  }

  ghost predicate ReadAlike(m: string, m': string, k: Classes) {
    Normalize(m, k) == Normalize(m', k)
  }

  /** Main result: 0x numbers between word boundaries read alike, whatever they are and whatever stands before them, if
      and only if the text after them does not read on as the rest of a uuid or of a timestamp. */
  lemma HexIsAbsorbedExactly(b: string, k: Classes)
    requires Sane(k) && BeginsNonWord(b, k)
    ensures (forall a, x, x' | HexText(x) && HexText(x') && EndsNonWord(a, k) :: ReadAlike(a + x + b, a + x' + b, k))
            <==> !ReadsOn(b, k)
  {
    hide Normalize;
    if ReadsOn(b, k) {
      var x := ReadOnNumber(b, k);
      assert HexText("0xa");
      assert "" + x + b == x + b && "" + "0xa" + b == "0xa" + b;
      assert !ReadAlike("" + x + b, "" + "0xa" + b, k);
      assert EndsNonWord("", k);
    } else {
      forall a, x, x' | HexText(x) && HexText(x') && EndsNonWord(a, k)
        ensures ReadAlike(a + x + b, a + x' + b, k)
      {
        HexIsAbsorbed(a, x, x', b, k);
      }
    }
  }

  lemma ReadOnNumber(b: string, k: Classes) returns (x: string)
    requires Sane(k) && BeginsNonWord(b, k) && ReadsOn(b, k)
    ensures HexText(x) && Normalize(x + b, k) != Normalize("0xa" + b, k)
  {
    RestBeginsWithDash(b, k);
    ShortNumberStands(b, k);
    x := if UuidRest(b) then "0x00000000" else "0x0000";
    assert HexText("0x00000000") && HexText("0x0000");
    hide HexText;
    hide Normalize;
    if UuidRest(b) {
      UuidRestTakesTheNumber(b, k);
    } else {
      TimestampRestTakesTheNumber(b, k);
    }
    assert "<n>"[1] != "<hex>"[1];
  }

  lemma RestBeginsWithDash(b: string, k: Classes)
    requires ReadsOn(b, k)
    ensures b != "" && b[0] == '-'
  {
    if UuidRest(b) {
      assert ("00000000" + b[..28])[8] == b[0];
    } else {
      assert ("0000" + b[..15])[4] == b[0];
    }
  }

  // ----- Noise taken for something else -----

  /** The uuid whose every digit is `c`. */
  function UuidOf(c: char): (u: string)
    ensures |u| == 36 && u[35] == c && forall d | d in u :: d == c || d == '-'
  {
    seq(36, i => if i == 8 || i == 13 || i == 18 || i == 23 then '-' else c)
  }

  /** After any beginning of a uuid of 28 characters or more, two uuids leave their own ends behind. */
  lemma UuidAfterOpeningIsCut(a: string, k: Classes)
    requires Sane(k) && 28 <= |a| < 36 && EndsInUuid(a, |a|)
    ensures UuidText(UuidOf('a')) && UuidText(UuidOf('b'))
    ensures Normalize(a + UuidOf('a'), k) != Normalize(a + UuidOf('b'), k)
  {
    hide Normalize;
    hide EndsInUuid;
    hide Sane;
    UuidOfIs('a');
    UuidOfIs('b');
    EndLeftBehind(a, UuidOf('a'), k);
    EndLeftBehind(a, UuidOf('b'), k);
    hide UuidOf;
    hide UuidText;
    LastDiffers("<uuid>", UuidOf('a')[36 - |a|..], UuidOf('b')[36 - |a|..]);
  }

  lemma LastDiffers(p: string, x: string, y: string)
    requires x != "" && y != "" && x[|x| - 1] != y[|y| - 1]
    ensures p + x != p + y
  {
    assert (p + x)[|p + x| - 1] == x[|x| - 1] && (p + y)[|p + y| - 1] == y[|y| - 1];
  }

  lemma UuidOfIs(c: char)
    requires c == 'a' || c == 'b'
    ensures UuidText(UuidOf(c))
  {
    assert 'a' in HEX_DIGITS && 'b' in HEX_DIGITS by {
      HexDigitIs('a');
      HexDigitIs('b');
    }
    hide HEX_DIGITS;
  }

  lemma EndLeftBehind(a: string, u: string, k: Classes)
    requires Sane(k) && 28 <= |a| < 36 && EndsInUuid(a, |a|) && UuidText(u)
    requires forall c | c in u :: c == 'a' || c == 'b' || c == '-'
    ensures |u| == 36 && Normalize(a + u, k) == "<uuid>" + u[36 - |a|..]
  {
    assert |u| == 36;
    hide *;
    var n := 36 - |a|;
    var v, r := a + u[..n], u[n..];
    OpeningCompleted(a, u);
    assert a + u == v + r;
    assert forall i | 0 <= i < |r| :: r[i] == u[n + i] && u[n + i] in u;
    LettersAndDashes(r, k);
    RestAfterUuid(v, r, k);
    AfterUuidIsResult(a + u, r, k);
  }

  lemma AfterUuidIsResult(m: string, r: string, k: Classes)
    requires Sane(k) && SpaceFree(r, k) && DigitFree(r, k) && Substitute(Uuid, None, m, k) == "<uuid>" + r
    ensures Normalize(m, k) == "<uuid>" + r
  {
    PlaceholderIsWord("<uuid>", k);
    SpaceFreeSum("<uuid>", r, k);
    assert DigitFree("<uuid>" + r, k);
    DigitFreeWord("<uuid>" + r, k);
    hide Substitute;
    hide Split;
    hide Join;
    hide SpaceFree;
    hide Sane;
  }

  lemma RestAfterUuid(v: string, r: string, k: Classes)
    requires UuidText(v) && |r| < 36
    ensures Substitute(Uuid, None, v + r, k) == "<uuid>" + r
  {
    hide UuidText;
    hide Substitute;
    NothingOpens("", k);
    hide OpensUuid;
    UuidIsReplaced("", v, r, k);
    SubstituteOfEmpty(Uuid, None, k);
    UuidSkip(r, "", k);
    assert "" + v + r == v + r && r + "" == r && "" + "<uuid>" + r == "<uuid>" + r;
  }

  lemma LettersAndDashes(r: string, k: Classes)
    requires Sane(k) && forall c | c in r :: c == 'a' || c == 'b' || c == '-'
    ensures SpaceFree(r, k) && DigitFree(r, k)
  {}

  lemma OpeningCompleted(a: string, u: string)
    requires 28 <= |a| < 36 && EndsInUuid(a, |a|) && UuidText(u)
    ensures UuidText(a + u[..36 - |a|])
  {
    var v, w := a + u[..36 - |a|], a[0..] + seq(36 - |a|, _ => '0');
    assert forall q | 0 <= q < |a| :: v[q] == w[q];
    assert forall q | |a| <= q < 36 :: v[q] == u[q - |a|];
  }

  /** A second space between a timestamp's date and time makes it six numbers. */
  lemma SecondSpaceBreaksTimestamp(h: string, k: Classes)
    requires Sane(k) && TimestampHead(h, k) && h[10] == ' '
    ensures Normalize(h, k) == "<ts>" && "<n>" <= Normalize(h[..10] + "  " + h[11..], k)
  {
    var m := h[..10] + "  " + h[11..];
    assert h[..19] == h && SpaceFree(h[19..], k);
    NoiseReadsAs(h, k);
    assert m[0] in k.digits && m[1] in k.digits && m[5] in k.digits && m[11] == ' ';
    hide TimestampHead;
    SpacedOutReadsAsNumbers(m, k);
    hide Normalize;
  }

  lemma SpacedOutReadsAsNumbers(m: string, k: Classes)
    requires Sane(k) && |m| == 20
    requires m[0] in k.digits && m[1] in k.digits && m[5] in k.digits && m[11] == ' '
    ensures "<n>" <= Normalize(m, k)
  {
    hide TimestampHead;
    hide UuidText;
    hide Substitute;
    hide Normalize;
    XIsNoDigit(k);
    MarksAreNoDigits(k);
    assert ' ' !in k.digits;
    hide Sane;
    forall i: nat | i < |m| ensures !TimestampAt(m, i, k) {
      if i == 0 {
        assert m[0..19][11] == ' ';
        NotTimestamp(m[0..19], 11, k);
      } else if i == 1 {
        assert m[1..20][4] == m[5];
        NotTimestamp(m[1..20], 4, k);
      }
    }
    assert m + "" == m;
    UuidSkip(m, "", k);
    TimestampSkip(m, "", k);
    SubstituteOfEmpty(Uuid, None, k);
    SubstituteOfEmpty(Timestamp, None, k);
    assert MatchLength(HexNumber, None, m, k) == 0;
    ReadsAsNumberFirst(m, k);
  }

  /** A zero before an 'x' and hex digits is no number, and a one is. */
  lemma ZeroBeforeXIsNoNumber(x: string, k: Classes)
    requires Sane(k) && HexText(x)
    ensures Normalize(x, k) == "<hex>" && "<n>" <= Normalize("1" + x[1..], k)
  {
    NoiseReadsAs(x, k);
    NoDashInNumber(x, k);
    hide HexText;
    hide Normalize;
    NoDashReadsAsNumber("1" + x[1..], k);
  }

  lemma NoDashReadsAsNumber(m: string, k: Classes)
    requires Sane(k) && m != "" && m[0] == '1' && forall i | 0 <= i < |m| :: m[i] != '-'
    ensures "<n>" <= Normalize(m, k)
  {
    hide UuidText;
    hide TimestampHead;
    hide Substitute;
    hide Normalize;
    assert '1' in k.digits;
    hide Sane;
    forall i: nat | i < |m| ensures !UuidAt(m, i) && !TimestampAt(m, i, k) {
      if i + 36 <= |m| {
        assert m[i..i + 36][8] == m[i + 8];
        NotUuid(m[i..i + 36], 8);
      }
      if i + 19 <= |m| {
        assert m[i..i + 19][4] == m[i + 4];
        NotTimestamp(m[i..i + 19], 4, k);
      }
    }
    assert m + "" == m;
    UuidSkip(m, "", k);
    TimestampSkip(m, "", k);
    SubstituteOfEmpty(Uuid, None, k);
    SubstituteOfEmpty(Timestamp, None, k);
    assert MatchLength(HexNumber, None, m, k) == 0;
    ReadsAsNumberFirst(m, k);
  }

  lemma NoDashInNumber(x: string, k: Classes)
    requires Sane(k) && HexText(x)
    ensures |"1" + x[1..]| == |x| && forall i | 0 <= i < |x| :: ("1" + x[1..])[i] != '-'
  {
    forall i | 0 <= i < |x| ensures ("1" + x[1..])[i] != '-' {
      WordsHoldHex(x[i], k);
    }
  }
}
