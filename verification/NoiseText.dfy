/** The normaliser's noise written out as text, and where a substitution pass works on two halves of a text apart. */
module NoiseText {
  import opened Common
  import opened Normalizer

  // ----- Noise as text -----

  const HEX_DIGITS := "0123456789abcdefABCDEF"

  /** 36 characters: hex digits, with a '-' after the 8th, 12th, 16th and 20th of them. */
  predicate UuidText(u: string) {
    && |u| == 36 && u[8] == '-' && u[13] == '-' && u[18] == '-' && u[23] == '-'
    && forall i | 0 <= i < 36 && i != 8 && i != 13 && i != 18 && i != 23 :: u[i] in HEX_DIGITS
  }

  /** 19 characters: a date, a 'T' or a space, and a time to the second. */
  predicate TimestampHead(h: string, k: Classes) {
    && |h| == 19 && h[4] == '-' && h[7] == '-' && h[13] == ':' && h[16] == ':' && (h[10] == 'T' || h[10] == ' ')
    && forall i | 0 <= i < 19 && i != 4 && i != 7 && i != 10 && i != 13 && i != 16 :: h[i] in k.digits
  }

  predicate HexText(x: string) {
    && |x| >= 3 && x[0] == '0' && (x[1] == 'x' || x[1] == 'X')
    && forall i | 2 <= i < |x| :: x[i] in HEX_DIGITS
  }

  predicate NumberText(d: string, k: Classes) {
    d != "" && forall c | c in d :: c in k.digits
  }

  predicate AllSpaces(s: string, k: Classes) {
    forall c | c in s :: c in k.spaces
  }

  predicate UuidAt(s: string, i: nat) {
    i + 36 <= |s| && UuidText(s[i..i + 36])
  }

  predicate TimestampAt(s: string, i: nat, k: Classes) {
    i + 19 <= |s| && TimestampHead(s[i..i + 19], k)
  }

  /** A uuid stands somewhere over `m` in `a + m + b`. */
  predicate UuidOver(a: string, m: string, b: string) {
    exists i: nat | i < |a| + |m| :: |a| < i + 36 && UuidAt(a + m + b, i)
  }

  predicate TimestampOver(a: string, m: string, b: string, k: Classes) {
    exists i: nat | i < |a| + |m| :: |a| < i + 19 && TimestampAt(a + m + b, i, k)
  }

  // ----- Cutting a substitution in two -----

  lemma PrevIrrelevant(p: Pattern, prev: Option<char>, s: string, k: Classes)
    requires !p.HexNumber?
    ensures Substitute(p, prev, s, k) == Substitute(p, None, s, k)
  {}

  function Before(prev: Option<char>, s: string, i: nat): Option<char>
    requires i <= |s|
  {
    if i == 0 then prev else Some(s[i - 1])
  }

  /** What stands after `a` changes no match that starts in it. */
  predicate CutsAt(p: Pattern, prev: Option<char>, a: string, r: string, k: Classes) {
    forall i | 0 <= i < |a| ::
      MatchLength(p, Before(prev, a, i), a[i..] + r, k) == MatchLength(p, Before(prev, a, i), a[i..], k)
  }

  lemma CutsInTail(p: Pattern, prev: Option<char>, a: string, r: string, k: Classes, n: nat)
    requires CutsAt(p, prev, a, r, k) && 0 < n <= |a|
    ensures CutsAt(p, Some(a[n - 1]), a[n..], r, k)
  {
    hide MatchLength;
    forall i | 0 <= i < |a[n..]|
      ensures MatchLength(p, Before(Some(a[n - 1]), a[n..], i), a[n..][i..] + r, k) ==
              MatchLength(p, Before(Some(a[n - 1]), a[n..], i), a[n..][i..], k)
    {
      assert a[n..][i..] == a[n + i..] && Before(Some(a[n - 1]), a[n..], i) == Before(prev, a, n + i);
    }
  }

  lemma CutsFirst(p: Pattern, prev: Option<char>, a: string, r: string, k: Classes)
    requires CutsAt(p, prev, a, r, k) && a != ""
    ensures MatchLength(p, prev, a + r, k) == MatchLength(p, prev, a, k)
  {
    hide MatchLength;
    assert a[0..] == a;
  }

  lemma {:induction false} Cut(p: Pattern, prev: Option<char>, a: string, r: string, k: Classes)
    requires CutsAt(p, prev, a, r, k)
    ensures Substitute(p, prev, a + r, k) == Substitute(p, prev, a, k) + Substitute(p, Before(prev, a, |a|), r, k)
    decreases |a|
  {
    hide Substitute;
    hide MatchLength;
    hide CutsAt;
    SubstituteOfEmpty(p, prev, k);
    if a == "" {
      assert a + r == r;
    } else {
      var n := Consumed(p, prev, a, k);
      CutsFirst(p, prev, a, r, k);
      assert (a + r)[n..] == a[n..] + r && (a + r)[0] == a[0] && (a + r)[n - 1] == a[n - 1];
      SubstituteStep(p, prev, a + r, k);
      SubstituteStep(p, prev, a, k);
      CutsInTail(p, prev, a, r, k, n);
      Cut(p, Some(a[n - 1]), a[n..], r, k);
    }
  }

  /** No match starts in `m`. */
  predicate NoMatchIn(p: Pattern, prev: Option<char>, m: string, r: string, k: Classes) {
    forall i | 0 <= i < |m| :: MatchLength(p, Before(prev, m, i), m[i..] + r, k) == 0
  }

  lemma NoMatchInTail(p: Pattern, prev: Option<char>, m: string, r: string, k: Classes)
    requires NoMatchIn(p, prev, m, r, k) && m != ""
    ensures NoMatchIn(p, Some(m[0]), m[1..], r, k)
  {
    hide MatchLength;
    forall i | 0 <= i < |m[1..]| ensures MatchLength(p, Before(Some(m[0]), m[1..], i), m[1..][i..] + r, k) == 0 {
      assert m[1..][i..] == m[1 + i..] && Before(Some(m[0]), m[1..], i) == Before(prev, m, 1 + i);
    }
  }

  lemma {:induction false} Skip(p: Pattern, prev: Option<char>, m: string, r: string, k: Classes)
    requires NoMatchIn(p, prev, m, r, k)
    ensures Substitute(p, prev, m + r, k) == m + Substitute(p, Before(prev, m, |m|), r, k)
    decreases |m|
  {
    hide Substitute;
    hide MatchLength;
    if m == "" {
      assert m + r == r;
    } else {
      assert m[0..] == m && (m + r)[1..] == m[1..] + r && (m + r)[0] == m[0];
      assert MatchLength(p, Before(prev, m, 0), m[0..] + r, k) == 0;
      SubstituteStep(p, prev, m + r, k);
      NoMatchInTail(p, prev, m, r, k);
      hide NoMatchIn;
      Skip(p, Some(m[0]), m[1..], r, k);
    }
  }

  // ----- A plain end of the output was copied from the input -----

  lemma {:induction false} PlainOutputIsInput(p: Pattern, prev: Option<char>, s: string, k: Classes)
    ensures Plain(Substitute(p, prev, s, k)) ==> Substitute(p, prev, s, k) == s
    decreases |s|
  {
    if s != "" {
      SubstituteStep(p, prev, s, k);
      var n, h := Consumed(p, prev, s, k), Head(p, prev, s, k);
      var rest := Substitute(p, Some(s[n - 1]), s[n..], k);
      assert h[0] in h + rest && forall c | c in rest :: c in h + rest;
      PlainOutputIsInput(p, Some(s[n - 1]), s[n..], k);
      hide MatchLength;
    }
  }

  predicate EndsWith(s: string, w: string) {
    |w| <= |s| && s[|s| - |w|..] == w
  }

  lemma {:induction false} PlainSuffixCopied(p: Pattern, prev: Option<char>, s: string, k: Classes, w: string)
    requires Plain(w)
    ensures EndsWith(Substitute(p, prev, s, k), w) ==> EndsWith(s, w)
    decreases |s|
  {
    hide Substitute;
    hide MatchLength;
    hide EndsWith;
    SubstituteOfEmpty(p, prev, k);
    if s != "" {
      SubstituteStep(p, prev, s, k);
      var n, h := Consumed(p, prev, s, k), Head(p, prev, s, k);
      var rest := Substitute(p, Some(s[n - 1]), s[n..], k);
      EndOfSum(h, rest, w);
      if |w| <= |rest| {
        PlainSuffixCopied(p, Some(s[n - 1]), s[n..], k, w);
        EndOfSum(s[..n], s[n..], w);
        EndIsShorter(s[n..], w);
        assert s[..n] + s[n..] == s;
      } else if EndsWith(h + rest, w) {
        PlainOutputIsInput(p, prev, s, k);
      }
    }
  }

  lemma EndIsShorter(s: string, w: string)
    ensures EndsWith(s, w) ==> |w| <= |s|
    ensures EndsWith(s, s)
  {}

  /** A plain end of `h + rest` is an end of `rest`, or all of it where `h` is one character or closes a bracket. */
  lemma EndOfSum(h: string, rest: string, w: string)
    ensures |w| <= |rest| ==> (EndsWith(h + rest, w) <==> EndsWith(rest, w))
    ensures |w| > |rest| && EndsWith(h + rest, w) && Plain(w) && (|h| == 1 || (h != "" && h[|h| - 1] == '>')) ==>
              w == h + rest
    ensures EndsWith(h + rest, h + rest)
  {
    var t := h + rest;
    assert |w| <= |rest| ==> t[|t| - |w|..] == rest[|rest| - |w|..];
    if |w| > |rest| && EndsWith(t, w) && h != "" {
      assert w[|w| - |rest| - 1] == h[|h| - 1] && w[|w| - |rest| - 1] in w;
    }
  }

  // ----- The uuid pass -----

  lemma HexDigitIs(c: char)
    ensures IsHex(c) <==> c in HEX_DIGITS
  {}

  lemma UuidTextIs(u: string)
    ensures IsUuid(u) <==> UuidText(u)
  {
    forall i | 0 <= i < |u| ensures IsHex(u[i]) <==> u[i] in HEX_DIGITS { HexDigitIs(u[i]); }
    hide IsHex;
  }

  lemma UuidMatchIs(prev: Option<char>, s: string, k: Classes)
    ensures MatchLength(Uuid, prev, s, k) == if UuidAt(s, 0) then 36 else 0
  {
    if |s| >= 36 {
      UuidTextIs(s[..36]);
      assert s[0..36] == s[..36];
    }
    hide IsUuid;
    hide UuidText;
  }

  lemma UuidAtTail(s: string, from: nat, i: nat)
    requires from <= |s|
    ensures UuidAt(s[from..], i) <==> UuidAt(s, from + i)
  {
    assert from + i + 36 <= |s| ==> s[from..][i..i + 36] == s[from + i..from + i + 36];
    hide UuidText;
  }

  lemma UuidAtHead(a: string, r: string, i: nat)
    requires i + 36 <= |a|
    ensures UuidAt(a + r, i) <==> UuidAt(a, i)
  {
    assert (a + r)[i..i + 36] == a[i..i + 36];
    hide UuidText;
  }

  /** A uuid that starts in `a` ends past it. */
  predicate UuidStraddles(a: string, r: string) {
    exists i: nat | i < |a| :: |a| < i + 36 && UuidAt(a + r, i)
  }

  lemma UuidCut(a: string, r: string, k: Classes)
    requires !UuidStraddles(a, r)
    ensures Substitute(Uuid, None, a + r, k) == Substitute(Uuid, None, a, k) + Substitute(Uuid, None, r, k)
  {
    hide Substitute;
    hide MatchLength;
    forall i | 0 <= i < |a|
      ensures MatchLength(Uuid, Before(None, a, i), a[i..] + r, k) ==
              MatchLength(Uuid, Before(None, a, i), a[i..], k)
    {
      UuidMatchIs(Before(None, a, i), a[i..] + r, k);
      UuidMatchIs(Before(None, a, i), a[i..], k);
      assert a[i..] + r == (a + r)[i..];
      UuidAtTail(a + r, i, 0);
      UuidAtTail(a, i, 0);
      if i + 36 <= |a| {
        UuidAtHead(a, r, i);
      }
      hide UuidAt;
    }
    Cut(Uuid, None, a, r, k);
    PrevIrrelevant(Uuid, Before(None, a, |a|), r, k);
  }

  lemma UuidSkip(m: string, r: string, k: Classes)
    requires forall i: nat | i < |m| :: !UuidAt(m + r, i)
    ensures Substitute(Uuid, None, m + r, k) == m + Substitute(Uuid, None, r, k)
  {
    hide Substitute;
    hide MatchLength;
    forall i | 0 <= i < |m| ensures MatchLength(Uuid, Before(None, m, i), m[i..] + r, k) == 0 {
      UuidMatchIs(Before(None, m, i), m[i..] + r, k);
      assert m[i..] + r == (m + r)[i..];
      UuidAtTail(m + r, i, 0);
      hide UuidAt;
    }
    Skip(Uuid, None, m, r, k);
    PrevIrrelevant(Uuid, Before(None, m, |m|), r, k);
  }

  /** Text that no uuid stands over is kept by the uuid pass, and the passes before and after it are independent. */
  lemma UuidKeeps(a: string, m: string, b: string, k: Classes)
    requires !UuidOver(a, m, b)
    ensures Substitute(Uuid, None, a + m + b, k) == Substitute(Uuid, None, a, k) + m + Substitute(Uuid, None, b, k)
  {
    hide Substitute;
    assert a + m + b == a + (m + b);
    UuidCut(a, m + b, k);
    forall i: nat | i < |m| ensures !UuidAt(m + b, i) {
      assert (a + (m + b))[|a|..] == m + b;
      UuidAtTail(a + (m + b), |a|, i);
      hide UuidAt;
    }
    UuidSkip(m, b, k);
  }

  /** The last `j` characters of `a` are the first `j` of a uuid. */
  predicate EndsInUuid(a: string, j: nat) {
    j <= |a| && j <= 36 && UuidText(a[|a| - j..] + seq(36 - j, _ => '0'))
  }

  /** `a` ends in the first 28 to 35 characters of a uuid, which hex digits after it can complete. */
  predicate OpensUuid(a: string) {
    exists j | 28 <= j < 36 :: EndsInUuid(a, j)
  }

  lemma NoUuidOpens(a: string, u: string, b: string)
    requires UuidText(u) && !OpensUuid(a)
    ensures !UuidStraddles(a, u + b)
  {
    var s := a + (u + b);
    assert |u| == 36;
    hide UuidText;
    hide OpensUuid;
    forall i: nat | i < |a| && |a| < i + 36 ensures !UuidAt(s, i) {
      if UuidAt(s, i) {
        var j, w := |a| - i, s[i..i + 36];
        assert forall q | j <= q < 36 :: w[q] == s[i + q] && s[i + q] == u[i + q - |a|];
        assert a[|a| - j..] == w[..j];
        DashesForbid(w, u, j);
        BeginningOpens(a, w, j);
      }
    }
  }

  lemma BeginningOpens(a: string, w: string, j: nat)
    requires UuidText(w) && 28 <= j < 36 && j <= |a| && a[|a| - j..] == w[..j]
    ensures OpensUuid(a)
  {
    var v := w[..j] + seq(36 - j, _ => '0');
    assert forall q | 0 <= q < j :: v[q] == w[q];
    assert forall q | j <= q < 36 :: v[q] == '0' && '0' in HEX_DIGITS;
    assert EndsInUuid(a, j);
  }

  /** A uuid starts inside another only in its last eight characters. */
  lemma DashesForbid(w: string, u: string, j: nat)
    requires UuidText(w) && UuidText(u) && 0 < j < 36
    requires forall q | j <= q < 36 :: w[q] == u[q - j]
    ensures j >= 28
  {
    DashAt(w, 28);
    DashAt(w, if j < 28 then 8 + j else 8);
  }

  lemma DashAt(w: string, q: nat)
    requires UuidText(w) && q < 36
    ensures w[q] == '-' <==> q == 8 || q == 13 || q == 18 || q == 23
  {
    assert '-' !in HEX_DIGITS;
  }

  // ----- Runs -----

  lemma {:induction false} RunOfSum(x: string, r: string, cls: Class, k: Classes)
    ensures RunLength(x + r, cls, k) ==
            if RunLength(x, cls, k) < |x| then RunLength(x, cls, k) else |x| + RunLength(r, cls, k)
  {
    if x == "" {
      assert x + r == r;
    } else {
      assert (x + r)[1..] == x[1..] + r && (x + r)[0] == x[0];
      RunOfSum(x[1..], r, cls, k);
    }
  }

  lemma {:induction false} RunIs(x: string, cls: Class, k: Classes)
    ensures var n := RunLength(x, cls, k);
            (forall i | 0 <= i < n :: InClass(x[i], cls, k)) && (n < |x| ==> !InClass(x[n], cls, k))
  {
    if x != "" {
      RunIs(x[1..], cls, k);
    }
  }

  // ----- The timestamp pass -----

  lemma TimestampHeadIs(h: string, k: Classes)
    ensures |h| == 19 && (forall i | 0 <= i < 19 :: TimestampChar(i, h[i], k)) <==> TimestampHead(h, k)
  {
    if |h| == 19 && forall i | 0 <= i < 19 :: TimestampChar(i, h[i], k) {
      assert TimestampChar(4, h[4], k) && TimestampChar(7, h[7], k) && TimestampChar(10, h[10], k);
      assert TimestampChar(13, h[13], k) && TimestampChar(16, h[16], k);
    }
  }

  lemma TimestampMatchIs(prev: Option<char>, s: string, k: Classes)
    ensures MatchLength(Timestamp, prev, s, k) ==
            if TimestampAt(s, 0, k) then 19 + RunLength(s[19..], NonSpace, k) else 0
  {
    if |s| >= 19 {
      var h := s[0..19];
      TimestampHeadIs(h, k);
      hide TimestampHead;
      hide TimestampChar;
      assert forall i | 0 <= i < 19 :: h[i] == s[i];
    }
  }

  lemma TimestampAtTail(s: string, from: nat, i: nat, k: Classes)
    requires from <= |s|
    ensures TimestampAt(s[from..], i, k) <==> TimestampAt(s, from + i, k)
  {
    assert from + i + 19 <= |s| ==> s[from..][i..i + 19] == s[from + i..from + i + 19];
    hide TimestampHead;
  }

  lemma TimestampAtHead(a: string, r: string, i: nat, k: Classes)
    requires i + 19 <= |a|
    ensures TimestampAt(a + r, i, k) <==> TimestampAt(a, i, k)
  {
    assert (a + r)[i..i + 19] == a[i..i + 19];
    hide TimestampHead;
  }

  /** A timestamp's first 19 characters start in `a` and end past it. */
  predicate TimestampStraddles(a: string, r: string, k: Classes) {
    exists i: nat | i < |a| :: |a| < i + 19 && TimestampAt(a + r, i, k)
  }

  /** A timestamp in `a` with no space after it before `a` ends: its tail takes in what follows. */
  predicate Trails(a: string, k: Classes) {
    exists i: nat | i + 19 <= |a| :: TimestampAt(a, i, k) && SpaceFree(a[i + 19..], k)
  }

  lemma TimestampMatchOfSum(x: string, r: string, k: Classes)
    requires x != "" && !TimestampStraddles(x, r, k)
    ensures TimestampAt(x + r, 0, k) <==> TimestampAt(x, 0, k)
    ensures TimestampAt(x, 0, k) ==>
              RunLength((x + r)[19..], NonSpace, k) ==
              if RunLength(x[19..], NonSpace, k) < |x| - 19 then RunLength(x[19..], NonSpace, k)
              else |x| - 19 + RunLength(r, NonSpace, k)
  {
    hide TimestampAt;
    if |x| >= 19 {
      TimestampAtHead(x, r, 0, k);
      assert (x + r)[19..] == x[19..] + r;
      RunOfSum(x[19..], r, NonSpace, k);
    }
    TimestampNeeds(x, 0, k);
  }

  lemma TimestampNeeds(s: string, i: nat, k: Classes)
    ensures TimestampAt(s, i, k) ==> i + 19 <= |s|
  {}

  lemma TimestampStraddlesTail(a: string, r: string, n: nat, k: Classes)
    requires n <= |a| && !TimestampStraddles(a, r, k)
    ensures !TimestampStraddles(a[n..], r, k)
  {
    assert a[n..] + r == (a + r)[n..];
    forall i: nat | i < |a[n..]| ensures TimestampAt(a[n..] + r, i, k) <==> TimestampAt(a + r, n + i, k) {
      TimestampAtTail(a + r, n, i, k);
    }
    hide TimestampAt;
  }

  /** Where nothing of a timestamp reaches from `a` into `r`, the two are substituted apart. */
  lemma {:induction false} TimestampCut(a: string, r: string, k: Classes)
    requires !TimestampStraddles(a, r, k) && (r == "" || r[0] in k.spaces || !Trails(a, k))
    ensures Substitute(Timestamp, None, a + r, k) ==
            Substitute(Timestamp, None, a, k) + Substitute(Timestamp, None, r, k)
  {
    hide Substitute;
    hide MatchLength;
    forall i | 0 <= i < |a|
      ensures MatchLength(Timestamp, Before(None, a, i), a[i..] + r, k) ==
              MatchLength(Timestamp, Before(None, a, i), a[i..], k)
    {
      TimestampMatchIs(Before(None, a, i), a[i..] + r, k);
      TimestampMatchIs(Before(None, a, i), a[i..], k);
      TimestampStraddlesTail(a, r, i, k);
      TimestampMatchOfSum(a[i..], r, k);
      TimestampAtTail(a, i, 0, k);
      TimestampNeeds(a[i..], 0, k);
      hide TimestampAt;
      hide TimestampStraddles;
      if TimestampAt(a[i..], 0, k) {
        assert a[i..][19..] == a[i + 19..];
        RunIs(a[i + 19..], NonSpace, k);
        if RunLength(a[i + 19..], NonSpace, k) == |a[i + 19..]| {
          assert SpaceFree(a[i + 19..], k);
        }
      }
    }
    Cut(Timestamp, None, a, r, k);
    PrevIrrelevant(Timestamp, Before(None, a, |a|), r, k);
  }

  lemma TimestampSkip(m: string, r: string, k: Classes)
    requires forall i: nat | i < |m| :: !TimestampAt(m + r, i, k)
    ensures Substitute(Timestamp, None, m + r, k) == m + Substitute(Timestamp, None, r, k)
  {
    hide Substitute;
    hide MatchLength;
    forall i | 0 <= i < |m| ensures MatchLength(Timestamp, Before(None, m, i), m[i..] + r, k) == 0 {
      TimestampMatchIs(Before(None, m, i), m[i..] + r, k);
      assert m[i..] + r == (m + r)[i..];
      TimestampAtTail(m + r, i, 0, k);
      hide TimestampAt;
    }
    Skip(Timestamp, None, m, r, k);
    PrevIrrelevant(Timestamp, Before(None, m, |m|), r, k);
  }

  /** Two words in the same place are either both taken in by a timestamp before them or both left to themselves. */
  lemma {:induction false} TimestampTakesBothOrNeither(a: string, m: string, m': string, b: string, k: Classes)
    requires m != "" && m' != "" && SpaceFree(m, k) && SpaceFree(m', k)
    requires !TimestampStraddles(a, m + b, k) && !TimestampStraddles(a, m' + b, k)
    ensures var t, t' := Substitute(Timestamp, None, a + (m + b), k), Substitute(Timestamp, None, a + (m' + b), k);
            var z := Substitute(Timestamp, None, a, k);
            || t == t'
            || (t == z + Substitute(Timestamp, None, m + b, k) && t' == z + Substitute(Timestamp, None, m' + b, k))
    decreases |a|
  {
    hide Substitute;
    hide MatchLength;
    hide TimestampAt;
    hide TimestampStraddles;
    if a == "" {
      SubstituteOfEmpty(Timestamp, None, k);
      assert a + (m + b) == m + b && a + (m' + b) == m' + b;
    } else {
      var n := TimestampStepOfSum(a, m, b, k);
      var n' := TimestampStepOfSum(a, m', b, k);
      if n <= |a| {
        TimestampStraddlesTail(a, m + b, n, k);
        TimestampStraddlesTail(a, m' + b, n, k);
        TimestampTakesBothOrNeither(a[n..], m, m', b, k);
      }
    }
  }

  /** One step of the pass over `a + (m + b)`: it stays in `a`, or a timestamp takes in the rest of `a`, `m` and the
      beginning of `b`. */
  lemma TimestampStepOfSum(a: string, m: string, b: string, k: Classes) returns (n: nat)
    requires a != "" && m != "" && SpaceFree(m, k) && !TimestampStraddles(a, m + b, k)
    ensures var p, j := MatchLength(Timestamp, None, a, k), RunLength(b, NonSpace, k);
            var h := Head(Timestamp, None, a, k);
            && n == (if p == |a| then |a| + 1 else if p > 0 then p else 1)
            && (n <= |a| ==>
                  && Substitute(Timestamp, None, a + (m + b), k) == h + Substitute(Timestamp, None, a[n..] + (m + b), k)
                  && Substitute(Timestamp, None, a, k) == h + Substitute(Timestamp, None, a[n..], k))
            && (n > |a| ==>
                  Substitute(Timestamp, None, a + (m + b), k) == "<ts>" + Substitute(Timestamp, None, b[j..], k))
  {
    hide Substitute;
    hide MatchLength;
    hide RunLength;
    hide SpaceFree;
    hide TimestampStraddles;
    TimestampReach(a, m, b, k);
    TimestampFirst(a + (m + b), k);
    TimestampFirst(a, k);
    var p, j := MatchLength(Timestamp, None, a, k), RunLength(b, NonSpace, k);
    n := if p == |a| then |a| + 1 else if p > 0 then p else 1;
    if n <= |a| {
      DropInFirst(a, m + b, n);
    } else {
      DropIntoLast(a, m, b, j);
    }
  }

  lemma TimestampFirst(s: string, k: Classes)
    requires s != ""
    ensures var n := Consumed(Timestamp, None, s, k);
            Substitute(Timestamp, None, s, k) == Head(Timestamp, None, s, k) + Substitute(Timestamp, None, s[n..], k)
  {
    var n := Consumed(Timestamp, None, s, k);
    SubstituteStep(Timestamp, None, s, k);
    PrevIrrelevant(Timestamp, Some(s[n - 1]), s[n..], k);
    hide Substitute;
    hide MatchLength;
  }

  lemma DropInFirst(a: string, r: string, n: nat)
    requires 0 < n <= |a|
    ensures (a + r)[n..] == a[n..] + r && (a + r)[0] == a[0]
  {}

  lemma DropIntoLast(a: string, m: string, b: string, j: nat)
    requires j <= |b|
    ensures (a + (m + b))[|a| + |m| + j..] == b[j..]
  {}

  lemma TimestampReach(a: string, m: string, b: string, k: Classes)
    requires a != "" && m != "" && SpaceFree(m, k) && !TimestampStraddles(a, m + b, k)
    ensures var p := MatchLength(Timestamp, None, a, k);
            MatchLength(Timestamp, None, a + (m + b), k) ==
            if p == |a| then |a| + |m| + RunLength(b, NonSpace, k) else p
  {
    TimestampMatchIs(None, a, k);
    TimestampMatchIs(None, a + (m + b), k);
    TimestampMatchOfSum(a, m + b, k);
    TimestampNeeds(a, 0, k);
    RunOfSum(m, b, NonSpace, k);
    WholeRun(m, k);
    hide MatchLength;
    hide TimestampAt;
    hide TimestampStraddles;
  }

  lemma WholeRun(m: string, k: Classes)
    requires SpaceFree(m, k)
    ensures RunLength(m, NonSpace, k) == |m|
  {
    RunIs(m, NonSpace, k);
  }

  lemma TimestampHeadIsPlain(h: string, k: Classes)
    requires TimestampHead(h, k) && Sane(k)
    ensures Plain(h)
  {
    forall c | c in h ensures c != '<' && c != '>' {
      var i :| 0 <= i < |h| && h[i] == c;
    }
  }

  /** The uuid pass moves no timestamp over a text between two others. */
  lemma TimestampOverTracesBack(a: string, m: string, b: string, k: Classes)
    requires Sane(k)
    ensures TimestampOver(Substitute(Uuid, None, a, k), m, Substitute(Uuid, None, b, k), k) ==>
              TimestampOver(a, m, b, k)
  {
    var x, y := Substitute(Uuid, None, a, k), Substitute(Uuid, None, b, k);
    hide Substitute;
    hide TimestampHead;
    if TimestampOver(x, m, y, k) {
      var i: nat :| i < |x| + |m| && |x| < i + 19 && TimestampAt(x + m + y, i, k);
      var w := (x + m + y)[i..i + 19];
      TimestampHeadIsPlain(w, k);
      hide Sane;
      hide Plain;
      var p, q := Max(0, |x| - i), Max(0, i + 19 - |x| - |m|);
      WindowEnds(x, m, y, i);
      PartIsPlain(w, 0, p);
      PartIsPlain(w, 19 - q, 19);
      PlainSuffixCopied(Uuid, None, a, k, w[0..p]);
      PlainPrefixCopied(Uuid, None, b, k, w[19 - q..19]);
      WindowMoves(x, m, y, i, a, b);
      assert TimestampAt(a + m + b, i + |a| - |x|, k);
    }
  }

  lemma PartIsPlain(w: string, i: nat, j: nat)
    requires Plain(w) && i <= j <= |w|
    ensures Plain(w[i..j])
  {
    assert forall c | c in w[i..j] :: c in w;
  }

  lemma WindowEnds(x: string, m: string, y: string, i: nat)
    requires i < |x| + |m| && |x| < i + 19 <= |x| + |m| + |y|
    ensures var w, p, q := (x + m + y)[i..i + 19], Max(0, |x| - i), Max(0, i + 19 - |x| - |m|);
            p <= |x| && q <= 19 && x[|x| - p..] == w[0..p] && q <= |y| && y[..q] == w[19 - q..19]
  {
    var s, p, q := x + m + y, Max(0, |x| - i), Max(0, i + 19 - |x| - |m|);
    var w := s[i..i + 19];
    var u, v := w[0..p], w[19 - q..19];
    forall t | 0 <= t < p ensures u[t] == x[|x| - p..][t] {
      assert u[t] == s[i + t];
    }
    forall t | 0 <= t < q ensures v[t] == y[..q][t] {
      assert v[t] == s[i + 19 - q + t];
    }
    assert u == x[|x| - p..] && v == y[..q];
  }

  /** A window over `m` that takes in `p` characters before it and `q` after it is the same text wherever those are the
      same. */
  lemma WindowMoves(x: string, m: string, y: string, i: nat, a: string, b: string)
    requires i < |x| + |m| && |x| < i + 19 <= |x| + |m| + |y|
    requires var p, q := Max(0, |x| - i), Max(0, i + 19 - |x| - |m|);
             p <= |a| && q <= |b| && x[|x| - p..] == a[|a| - p..] && y[..q] == b[..q]
    ensures i + |a| >= |x| && i + |a| - |x| + 19 <= |a| + |m| + |b|
    ensures (a + m + b)[i + |a| - |x|..i + |a| - |x| + 19] == (x + m + y)[i..i + 19]
  {
    var p, q, i' := Max(0, |x| - i), Max(0, i + 19 - |x| - |m|), i + |a| - |x|;
    var v, w := (a + m + b)[i'..i' + 19], (x + m + y)[i..i + 19];
    forall t | 0 <= t < 19 ensures v[t] == w[t] {
      if i + t < |x| {
        assert a[|a| - p..][t] == x[|x| - p..][t];
      } else if i + t >= |x| + |m| {
        assert y[..q][i + t - |x| - |m|] == b[..q][i + t - |x| - |m|];
      }
    }
  }

  // ----- The 0x pass -----

  /** The character before matters only by being a word character. */
  lemma HexPrevMatters(prev: Option<char>, prev': Option<char>, s: string, k: Classes)
    requires WordAt(prev, k) == WordAt(prev', k)
    ensures Substitute(HexNumber, prev, s, k) == Substitute(HexNumber, prev', s, k)
  {}

  /** The 0x number at the head of `s` up to its word boundary. */
  predicate OpensHex(prev: Option<char>, s: string, k: Classes) {
    |s| >= 3 && s[0] == '0' && (s[1] == 'x' || s[1] == 'X') && IsHex(s[2]) && !WordAt(prev, k)
  }

  lemma HexMatchIs(prev: Option<char>, s: string, k: Classes)
    requires Sane(k)
    ensures var n := if |s| >= 2 then 2 + RunLength(s[2..], Hex, k) else 0;
            MatchLength(HexNumber, prev, s, k) ==
            if OpensHex(prev, s, k) && (n == |s| || s[n] !in k.words) then n else 0
  {}

  /** A 0x number ends where its word does. */
  lemma HexStopsAtNonWord(prev: Option<char>, x: string, r: string, k: Classes)
    requires Sane(k) && x != "" && (r == "" || r[0] !in k.words)
    ensures MatchLength(HexNumber, prev, x + r, k) == MatchLength(HexNumber, prev, x, k)
  {
    HexMatchIs(prev, x, k);
    HexMatchIs(prev, x + r, k);
    hide MatchLength;
    if |x| >= 2 {
      assert (x + r)[2..] == x[2..] + r;
      RunOfSum(x[2..], r, Hex, k);
    }
  }

  lemma HexStopsAfterNonWord(prev: Option<char>, x: string, r: string, k: Classes)
    requires Sane(k) && x != "" && x[|x| - 1] !in k.words
    ensures MatchLength(HexNumber, prev, x + r, k) == MatchLength(HexNumber, prev, x, k)
  {
    HexMatchIs(prev, x, k);
    HexMatchIs(prev, x + r, k);
    hide MatchLength;
    if |x| >= 3 {
      assert (x + r)[2..] == x[2..] + r;
      RunOfSum(x[2..], r, Hex, k);
      RunIs(x[2..], Hex, k);
    }
  }

  predicate EndsNonWord(s: string, k: Classes) {
    s == "" || s[|s| - 1] !in k.words
  }

  predicate BeginsNonWord(s: string, k: Classes) {
    s == "" || s[0] !in k.words
  }

  /** No 0x number reaches over the end of a word. */
  lemma HexCut(prev: Option<char>, a: string, r: string, k: Classes)
    requires Sane(k) && (EndsNonWord(a, k) || BeginsNonWord(r, k))
    ensures Substitute(HexNumber, prev, a + r, k) ==
            Substitute(HexNumber, prev, a, k) + Substitute(HexNumber, Before(prev, a, |a|), r, k)
  {
    hide Substitute;
    hide MatchLength;
    forall i | 0 <= i < |a|
      ensures MatchLength(HexNumber, Before(prev, a, i), a[i..] + r, k) ==
              MatchLength(HexNumber, Before(prev, a, i), a[i..], k)
    {
      if BeginsNonWord(r, k) {
        HexStopsAtNonWord(Before(prev, a, i), a[i..], r, k);
      } else {
        HexStopsAfterNonWord(Before(prev, a, i), a[i..], r, k);
      }
    }
    Cut(HexNumber, prev, a, r, k);
  }
}
