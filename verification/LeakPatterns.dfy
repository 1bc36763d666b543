/**
 The leak scan of masked text (app/services/pii/masker.py) and the recogniser patterns
 (app/services/pii/recognizers.py).
 */
module LeakPatterns {
  import opened Text
  import opened Masker

  /** What `\d` and `\w` accept: the regular-expression engine's character table. */
  datatype Table = Table(digit: char -> bool, word: char -> bool)

  predicate AsciiDigit(c: char) { '0' <= c <= '9' }

  predicate Upper(c: char) { 'A' <= c <= 'Z' }

  /** `[A-Z0-9]` */
  predicate Alnum(c: char) { Upper(c) || AsciiDigit(c) }

  /** Digits, capitals and '_' are word characters; capitals and '_' are no digits; brackets are no word characters. */
  ghost predicate Sound(u: Table) {
    && (forall c: char :: AsciiDigit(c) ==> u.digit(c))
    && (forall c: char :: u.digit(c) ==> u.word(c) && !Upper(c))
    && (forall c: char :: Upper(c) ==> u.word(c))
    && u.word('_') && !u.digit('_')
    && !u.word('[') && !u.word(']')
  }

  datatype Pattern =
    | IbanLeak       // \b[A-Z]{2}\d{2}[A-Z0-9]{11,30}\b
    | AccountLeak    // \b\d{10,18}\b
    | IbanRecognizer // \b[A-Z]{2}\d{2}[A-Z0-9]{4}\d{7}([A-Z0-9]?){0,16}\b
    | PlainAccount   // \b\d{10,18}\b

  predicate AllAlnum(x: string) { forall i | 0 <= i < |x| :: Alnum(x[i]) }

  predicate AllDigits(u: Table, x: string) { forall i | 0 <= i < |x| :: u.digit(x[i]) }

  predicate CountryAndCheck(u: Table, x: string)
    requires |x| >= 4
  {
    Upper(x[0]) && Upper(x[1]) && u.digit(x[2]) && u.digit(x[3])
  }

  /** The pattern between its two word boundaries. */
  predicate Body(u: Table, p: Pattern, x: string) {
    match p
    case IbanLeak => 15 <= |x| <= 34 && CountryAndCheck(u, x) && AllAlnum(x[4..])
    case AccountLeak => 10 <= |x| <= 18 && AllDigits(u, x)
    case IbanRecognizer =>
      15 <= |x| <= 31 && CountryAndCheck(u, x) && AllAlnum(x[4..8]) && AllDigits(u, x[8..15]) && AllAlnum(x[15..])
    case PlainAccount => 10 <= |x| <= 18 && AllDigits(u, x)
  }

  predicate WordAt(u: Table, s: string, i: int) {
    0 <= i < |s| && u.word(s[i])
  }

  /** `\b` between positions i - 1 and i. */
  predicate Boundary(u: Table, s: string, i: nat) {
    WordAt(u, s, i - 1) != WordAt(u, s, i)
  }

  predicate MatchAt(u: Table, p: Pattern, s: string, i: nat, j: nat) {
    i <= j <= |s| && Boundary(u, s, i) && Boundary(u, s, j) && Body(u, p, s[i..j])
  }

  /** `pattern.search(s)` finds something. */
  predicate Found(u: Table, p: Pattern, s: string) {
    exists i: nat, j: nat | i <= |s| && j <= |s| :: MatchAt(u, p, s, i, j)
  }

  /** `validate_no_pii_leakage` */
  predicate NoLeakage(u: Table, maskedText: string) {
    !Found(u, IbanLeak, maskedText) && !Found(u, AccountLeak, maskedText)
  }

  // ---------- Splitting at a character that is no word character ----------

  /** Every pattern matches word characters only, so no match touches a separator. */
  lemma BodyIsWords(u: Table, p: Pattern, x: string)
    requires Sound(u) && Body(u, p, x)
    ensures x != "" && forall i | 0 <= i < |x| :: u.word(x[i])
  {
    forall i | 0 <= i < |x| ensures u.word(x[i]) {
      if p.IbanLeak? && i >= 4 {
        assert x[4..][i - 4] == x[i];
      } else if p.IbanRecognizer? && i >= 4 {
        assert i < 8 ==> x[4..8][i - 4] == x[i];
        assert 8 <= i < 15 ==> x[8..15][i - 8] == x[i];
        assert 15 <= i ==> x[15..][i - 15] == x[i];
      }
    }
  }

  lemma MatchLeft(u: Table, p: Pattern, s: string, a: string, c: char, b: string, i: nat, j: nat)
    requires Sound(u) && !u.word(c) && s == a + [c] + b && j <= |a|
    ensures MatchAt(u, p, s, i, j) <==> MatchAt(u, p, a, i, j)
  {
    if i <= j {
      assert s[i..j] == a[i..j];
    }
  }

  lemma MatchRight(u: Table, p: Pattern, s: string, a: string, c: char, b: string, i: nat, j: nat)
    requires Sound(u) && !u.word(c) && s == a + [c] + b && j <= |b|
    ensures MatchAt(u, p, s, i + |a| + 1, j + |a| + 1) <==> MatchAt(u, p, b, i, j)
  {
    var n := |a| + 1;
    assert s[n..] == b;
    if i <= j {
      assert s[i + n..j + n] == s[n..][i..j];
    }
  }

  lemma MatchAcross(u: Table, p: Pattern, s: string, a: string, c: char, b: string, i: nat, j: nat)
    requires Sound(u) && !u.word(c) && s == a + [c] + b && i <= |a| < j <= |s|
    ensures !MatchAt(u, p, s, i, j)
  {
    assert s[i..j][|a| - i] == c;
    if Body(u, p, s[i..j]) {
      BodyIsWords(u, p, s[i..j]);
      assert false;
    }
  }

  lemma FoundAt(u: Table, p: Pattern, s: string, i: nat, j: nat)
    requires MatchAt(u, p, s, i, j)
    ensures Found(u, p, s)
  {}

  lemma FoundFrom(u: Table, p: Pattern, s: string, a: string, c: char, b: string, i: nat, j: nat)
    requires Sound(u) && !u.word(c) && s == a + [c] + b && j <= |s| && MatchAt(u, p, s, i, j)
    ensures j <= |a| ==> Found(u, p, a)
    ensures |a| < i ==> Found(u, p, b)
  {
    if j <= |a| {
      MatchLeft(u, p, s, a, c, b, i, j);
      FoundAt(u, p, a, i, j);
    } else if |a| < i {
      MatchRight(u, p, s, a, c, b, i - |a| - 1, j - |a| - 1);
      FoundAt(u, p, b, i - |a| - 1, j - |a| - 1);
    }
  }

  lemma FoundInWhole(u: Table, p: Pattern, s: string, a: string, c: char, b: string)
    requires Sound(u) && !u.word(c) && s == a + [c] + b && Found(u, p, s)
    ensures Found(u, p, a) || Found(u, p, b)
  {
    var i: nat, j: nat :| i <= |s| && j <= |s| && MatchAt(u, p, s, i, j);
    FoundFrom(u, p, s, a, c, b, i, j);
    if i <= |a| < j {
      MatchAcross(u, p, s, a, c, b, i, j);
    }
  }

  lemma FoundInLeft(u: Table, p: Pattern, s: string, a: string, c: char, b: string)
    requires Sound(u) && !u.word(c) && s == a + [c] + b && Found(u, p, a)
    ensures Found(u, p, s)
  {
    var i: nat, j: nat :| i <= |a| && j <= |a| && MatchAt(u, p, a, i, j);
    MatchLeft(u, p, s, a, c, b, i, j);
    FoundAt(u, p, s, i, j);
  }

  lemma FoundInRight(u: Table, p: Pattern, s: string, a: string, c: char, b: string)
    requires Sound(u) && !u.word(c) && s == a + [c] + b && Found(u, p, b)
    ensures Found(u, p, s)
  {
    var i: nat, j: nat :| i <= |b| && j <= |b| && MatchAt(u, p, b, i, j);
    MatchRight(u, p, s, a, c, b, i, j);
    FoundAt(u, p, s, i + |a| + 1, j + |a| + 1);
  }

  /** A search across a separator finds something exactly when a search on one of the sides does. */
  lemma FoundSplits(u: Table, p: Pattern, s: string, a: string, c: char, b: string)
    requires Sound(u) && !u.word(c) && s == a + [c] + b
    ensures Found(u, p, s) <==> Found(u, p, a) || Found(u, p, b)
  {
    if Found(u, p, s) {
      FoundInWhole(u, p, s, a, c, b);
    } else if Found(u, p, a) {
      FoundInLeft(u, p, s, a, c, b);
    } else if Found(u, p, b) {
      FoundInRight(u, p, s, a, c, b);
    }
  }

  // ---------- Tokens are invisible to the leak scan ----------

  predicate WordKind(u: Table, kind: string) {
    forall i | 0 <= i < |kind| :: u.word(kind[i])
  }

  /** In a run of word characters only the whole run lies between word boundaries. */
  lemma WordRunMatch(u: Table, p: Pattern, x: string, i: nat, j: nat)
    requires Sound(u) && (forall k | 0 <= k < |x| :: u.word(x[k])) && MatchAt(u, p, x, i, j)
    ensures i == 0 && j == |x|
  {}

  lemma TokenTextNotFound(u: Table, p: Pattern, kind: string, k: nat)
    requires Sound(u) && WordKind(u, kind) && (p.IbanLeak? || p.AccountLeak?)
    ensures !Found(u, p, kind + "_" + Decimal(k))
  {
    var x := kind + "_" + Decimal(k);
    UnderscoreBreaksBody(u, p, x, |kind|);
    assert x[0..|x|] == x;
    forall i: nat, j: nat | i <= |x| && j <= |x| ensures !MatchAt(u, p, x, i, j) {
      if MatchAt(u, p, x, i, j) {
        WordRunMatch(u, p, x, i, j);
        assert false;
      }
    }
  }

  lemma UnderscoreBreaksBody(u: Table, p: Pattern, x: string, n: nat)
    requires Sound(u) && (p.IbanLeak? || p.AccountLeak?) && n < |x| && x[n] == '_'
    ensures !Body(u, p, x)
  {}

  lemma FoundAroundToken(u: Table, p: Pattern, gap: string, kind: string, k: nat, rest: string)
    requires Sound(u) && WordKind(u, kind) && (p.IbanLeak? || p.AccountLeak?)
    ensures Found(u, p, gap + Token(kind, k) + rest) <==> Found(u, p, gap) || Found(u, p, rest)
  {
    var inner := kind + "_" + Decimal(k);
    TokenTextNotFound(u, p, kind, k);
    var behind := inner + "]" + rest;
    FoundSplits(u, p, behind, inner, ']', rest);
    assert gap + Token(kind, k) + rest == gap + "[" + behind;
    FoundSplits(u, p, gap + "[" + behind, gap, '[', behind);
  }

  /** A numbered token of some entity type. */
  ghost predicate IsToken(u: Table, t: string) {
    exists kind, k :: WordKind(u, kind) && t == Token(kind, k)
  }

  lemma {:induction false} FoundInJoin(u: Table, p: Pattern, gaps: seq<string>, tokens: seq<string>)
    requires Sound(u) && (p.IbanLeak? || p.AccountLeak?)
    requires |gaps| == |tokens| + 1 && forall i | 0 <= i < |tokens| :: IsToken(u, tokens[i])
    ensures Found(u, p, Join(gaps, tokens)) <==> exists i | 0 <= i < |gaps| :: Found(u, p, gaps[i])
  {
    if tokens != [] {
      var kind, k :| WordKind(u, kind) && tokens[0] == Token(kind, k);
      FoundInJoin(u, p, gaps[1..], tokens[1..]);
      FoundAroundToken(u, p, gaps[0], kind, k, Join(gaps[1..], tokens[1..]));
      assert forall i | 1 <= i < |gaps| :: gaps[i] == gaps[1..][i - 1];
    }
  }

  /** The leak scan accepts text with tokens in it exactly when it accepts every gap between the tokens. */
  lemma LeakScanIsCompositional(u: Table, gaps: seq<string>, tokens: seq<string>)
    requires Sound(u)
    requires |gaps| == |tokens| + 1 && forall i | 0 <= i < |tokens| :: IsToken(u, tokens[i])
    ensures NoLeakage(u, Join(gaps, tokens)) <==> forall i | 0 <= i < |gaps| :: NoLeakage(u, gaps[i])
  {
    FoundInJoin(u, IbanLeak, gaps, tokens);
    FoundInJoin(u, AccountLeak, gaps, tokens);
  }

  /** So whether masked text passes the gate depends only on the text the detections left in place. */
  lemma MaskGateReadsOnlyGaps(u: Table, text: string, spans: seq<Span>, ops: map<string, string>,
                              masked: MaskingResult, m: map<string, string>)
    requires Sound(u) && ValidSpans(text, spans) && !Blank(text)
    requires forall i | 0 <= i < |spans| :: WordKind(u, spans[i].kind)
    requires IsMasking(text, Ok(spans), ops, Ok((masked, m)))
    ensures NoLeakage(u, masked.maskedText) <==> forall g | g in Gaps(text, spans, 0) :: NoLeakage(u, g)
  {
    var gaps, pieces := Gaps(text, spans, 0), Pieces(spans, ops);
    forall i | 0 <= i < |pieces| ensures IsToken(u, pieces[i]) {
      var j := LastIndex(spans, |spans|, i);
      assert pieces[i] == TokensOf(spans)[j];
    }
    LeakScanIsCompositional(u, gaps, pieces);
  }

  // ---------- What the scans find, in characters ----------

  /** `[A-Z0-9]` from position k on. */
  ghost predicate CapitalsAndDigitsFrom(x: string, k: nat) {
    forall i | k <= i < |x| :: 'A' <= x[i] <= 'Z' || '0' <= x[i] <= '9'
  }

  /** Two capitals, two digits. */
  ghost predicate StartsLikeIban(u: Table, x: string) {
    |x| >= 4 && 'A' <= x[0] <= 'Z' && 'A' <= x[1] <= 'Z' && u.digit(x[2]) && u.digit(x[3])
  }

  /** The text behind and in front of x ends and starts with no word character. */
  ghost predicate StandsAlone(u: Table, s: string, a: string, x: string, b: string) {
    && s == a + x + b
    && (a == "" || !u.word(a[|a| - 1]))
    && (b == "" || !u.word(b[0]))
  }

  lemma BoundsAreBoundaries(u: Table, s: string, a: string, x: string, b: string)
    requires s == a + x + b && x != "" && forall i | 0 <= i < |x| :: u.word(x[i])
    ensures Boundary(u, s, |a|) && Boundary(u, s, |a| + |x|) <==> StandsAlone(u, s, a, x, b)
  {
    var n := |a| + |x|;
    assert s[|a|] == x[0] && s[n - 1] == x[|x| - 1];
    assert a != "" ==> s[|a| - 1] == a[|a| - 1];
    assert b != "" ==> s[n] == b[0];
  }

  lemma MatchStandsAlone(u: Table, p: Pattern, s: string, i: nat, j: nat) returns (a: string, x: string, b: string)
    requires Sound(u) && MatchAt(u, p, s, i, j)
    ensures StandsAlone(u, s, a, x, b) && Body(u, p, x)
  {
    a, x, b := s[..i], s[i..j], s[j..];
    assert s == a + x + b;
    BodyIsWords(u, p, x);
    BoundsAreBoundaries(u, s, a, x, b);
  }

  lemma FoundStandsAlone(u: Table, p: Pattern, s: string) returns (a: string, x: string, b: string)
    requires Sound(u) && Found(u, p, s)
    ensures StandsAlone(u, s, a, x, b) && Body(u, p, x)
  {
    var i: nat, j: nat :| i <= |s| && j <= |s| && MatchAt(u, p, s, i, j);
    a, x, b := MatchStandsAlone(u, p, s, i, j);
  }

  lemma StandingTextMatches(u: Table, p: Pattern, s: string, a: string, x: string, b: string)
    requires Sound(u) && StandsAlone(u, s, a, x, b) && Body(u, p, x)
    ensures Found(u, p, s)
  {
    assert s[|a|..|a| + |x|] == x;
    BodyIsWords(u, p, x);
    BoundsAreBoundaries(u, s, a, x, b);
    FoundAt(u, p, s, |a|, |a| + |x|);
  }

  /** A search finds something exactly when a text the pattern spells stands alone. */
  lemma FoundIffStandsAlone(u: Table, p: Pattern, s: string)
    requires Sound(u)
    ensures Found(u, p, s) <==> exists a, x, b :: StandsAlone(u, s, a, x, b) && Body(u, p, x)
  {
    if Found(u, p, s) {
      var a, x, b := FoundStandsAlone(u, p, s);
    }
    if a, x, b :| StandsAlone(u, s, a, x, b) && Body(u, p, x) {
      StandingTextMatches(u, p, s, a, x, b);
    }
  }

  lemma IbanLeakSpells(u: Table, x: string)
    ensures Body(u, IbanLeak, x) <==> 15 <= |x| <= 34 && StartsLikeIban(u, x) && CapitalsAndDigitsFrom(x, 4)
  {
    if |x| >= 4 {
      assert forall i | 4 <= i < |x| :: x[i] == x[4..][i - 4];
    }
  }

  lemma IbanSpells(u: Table, x: string)
    ensures Body(u, IbanRecognizer, x) <==>
            && 15 <= |x| <= 31 && StartsLikeIban(u, x)
            && CapitalsAndDigitsFrom(x[..8], 4) && (forall i | 8 <= i < 15 :: u.digit(x[i]))
            && CapitalsAndDigitsFrom(x, 15)
  {
    if |x| >= 15 {
      assert forall i | 4 <= i < 8 :: x[..8][i] == x[4..8][i - 4];
      assert forall i | 8 <= i < 15 :: x[i] == x[8..15][i - 8];
      assert forall i | 15 <= i < |x| :: x[i] == x[15..][i - 15];
    }
  }

  /**
   The scan refuses a text exactly when two capitals, two digits and 11 to 30 capitals or ASCII digits stand in
   it alone, or 10 to 18 digits do.
   */
  lemma LeakScanRefusesIff(u: Table, s: string)
    requires Sound(u)
    ensures !NoLeakage(u, s) <==> exists a, x, b ::
              && StandsAlone(u, s, a, x, b)
              && (|| (15 <= |x| <= 34 && StartsLikeIban(u, x) && CapitalsAndDigitsFrom(x, 4))
                  || (10 <= |x| <= 18 && forall i | 0 <= i < |x| :: u.digit(x[i])))
  {
    FoundIffStandsAlone(u, IbanLeak, s);
    FoundIffStandsAlone(u, AccountLeak, s);
    forall x ensures Body(u, IbanLeak, x) <==>
                     15 <= |x| <= 34 && StartsLikeIban(u, x) && CapitalsAndDigitsFrom(x, 4)
    {
      IbanLeakSpells(u, x);
    }
  }

  /** The IBAN recogniser wants 4 of `[A-Z0-9]`, 7 digits and up to 16 of `[A-Z0-9]` behind the same start. */
  lemma IbanRecognizedIff(u: Table, s: string)
    requires Sound(u)
    ensures Found(u, IbanRecognizer, s) <==> exists a, x, b ::
              && StandsAlone(u, s, a, x, b)
              && 15 <= |x| <= 31 && StartsLikeIban(u, x)
              && CapitalsAndDigitsFrom(x[..8], 4) && (forall i | 8 <= i < 15 :: u.digit(x[i]))
              && CapitalsAndDigitsFrom(x, 15)
  {
    FoundIffStandsAlone(u, IbanRecognizer, s);
    forall x ensures Body(u, IbanRecognizer, x) <==>
                     && 15 <= |x| <= 31 && StartsLikeIban(u, x)
                     && CapitalsAndDigitsFrom(x[..8], 4) && (forall i | 8 <= i < 15 :: u.digit(x[i]))
                     && CapitalsAndDigitsFrom(x, 15)
    {
      IbanSpells(u, x);
    }
  }

  /** The account recogniser wants 10 to 18 digits. */
  lemma AccountRecognizedIff(u: Table, s: string)
    requires Sound(u)
    ensures Found(u, PlainAccount, s) <==> exists a, x, b ::
              StandsAlone(u, s, a, x, b) && 10 <= |x| <= 18 && forall i | 0 <= i < |x| :: u.digit(x[i])
  {
    FoundIffStandsAlone(u, PlainAccount, s);
  }

  // ---------- What the leak scan covers ----------

  /** The seven digits in the middle of an IBAN are ASCII digits. */
  predicate AsciiAccountDigits(x: string)
    requires |x| >= 15
  {
    forall i | 8 <= i < 15 :: AsciiDigit(x[i])
  }

  /** A recognised IBAN contains a leak-pattern match exactly when its seven middle digits are ASCII. */
  lemma IbanCoveredIffAscii(u: Table, s: string, i: nat, j: nat)
    requires Sound(u) && MatchAt(u, IbanRecognizer, s, i, j)
    ensures (exists a: nat, b: nat | i <= a <= b <= j ::
               MatchAt(u, IbanLeak, s, a, b) || MatchAt(u, AccountLeak, s, a, b))
            <==> AsciiAccountDigits(s[i..j])
  {
    var x := s[i..j];
    IbanBodies(u, x);
    if AsciiAccountDigits(x) {
      assert MatchAt(u, IbanLeak, s, i, j);
    }
    forall a: nat, b: nat | i <= a <= b <= j && (MatchAt(u, IbanLeak, s, a, b) || MatchAt(u, AccountLeak, s, a, b))
      ensures AsciiAccountDigits(x)
    {
      InnerMatchIsWhole(u, s, i, j, a, b);
    }
  }

  lemma IbanBodies(u: Table, x: string)
    requires Sound(u) && Body(u, IbanRecognizer, x)
    ensures Body(u, IbanLeak, x) <==> AsciiAccountDigits(x)
    ensures !Body(u, AccountLeak, x)
  {
    assert x[4..] == x[4..8] + x[8..15] + x[15..];
    assert forall k | 8 <= k < 15 :: x[k] == x[8..15][k - 8] && x[k] == x[4..][k - 4];
    assert Upper(x[0]);
    if AsciiAccountDigits(x) {
      assert AllAlnum(x[8..15]);
    }
  }

  lemma InnerMatchIsWhole(u: Table, s: string, i: nat, j: nat, a: nat, b: nat)
    requires Sound(u) && MatchAt(u, IbanRecognizer, s, i, j) && i <= a <= b <= j
    requires MatchAt(u, IbanLeak, s, a, b) || MatchAt(u, AccountLeak, s, a, b)
    ensures a == i && b == j
  {
    var x := s[i..j];
    BodyIsWords(u, IbanRecognizer, x);
    forall k | i <= k < j ensures u.word(s[k]) {
      assert s[k] == x[k - i];
    }
    BodyIsWords(u, if MatchAt(u, IbanLeak, s, a, b) then IbanLeak else AccountLeak, s[a..b]);
    assert |s[a..b]| > 0;
  }

  /** Text the leak scan accepts has no plain account number and no IBAN with ASCII account digits anywhere. */
  lemma AcceptedTextHasNoRecognizedNumber(u: Table, s: string, i: nat, j: nat)
    requires Sound(u) && NoLeakage(u, s) && i <= |s| && j <= |s|
    ensures !MatchAt(u, PlainAccount, s, i, j)
    ensures MatchAt(u, IbanRecognizer, s, i, j) ==> !AsciiAccountDigits(s[i..j])
  {
    assert MatchAt(u, PlainAccount, s, i, j) <==> MatchAt(u, AccountLeak, s, i, j);
    if MatchAt(u, IbanRecognizer, s, i, j) {
      IbanCoveredIffAscii(u, s, i, j);
      assert forall a: nat, b: nat | i <= a <= b <= j ::
        !MatchAt(u, IbanLeak, s, a, b) && !MatchAt(u, AccountLeak, s, a, b);
    }
  }

  /** With the ASCII table, so for every IBAN. */
  lemma AcceptedAsciiTextHasNoIban(u: Table, s: string)
    requires Sound(u) && NoLeakage(u, s) && forall c: char :: u.digit(c) ==> AsciiDigit(c)
    ensures !Found(u, IbanRecognizer, s) && !Found(u, PlainAccount, s)
  {
    forall i: nat, j: nat | i <= |s| && j <= |s|
      ensures !MatchAt(u, IbanRecognizer, s, i, j) && !MatchAt(u, PlainAccount, s, i, j)
    {
      AcceptedTextHasNoRecognizedNumber(u, s, i, j);
      if i <= j && |s[i..j]| >= 15 {
        assert forall k | 8 <= k < 15 :: s[i..j][8..15][k - 8] == s[i..j][k];
      }
    }
  }

  /** A table with the Arabic-Indic digits, as the engine's default table has them. */
  function ArabicTable(): Table {
    var digit := (c: char) => AsciiDigit(c) || '\U{0660}' <= c <= '\U{0669}';
    Table(digit, (c: char) => digit(c) || Upper(c) || 'a' <= c <= 'z' || c == '_')
  }

  /** With such digits in the account part, a recognised IBAN passes the leak scan. */
  lemma NonAsciiIbanPassesScan() returns (s: string)
    ensures Sound(ArabicTable())
    ensures Found(ArabicTable(), IbanRecognizer, s) && NoLeakage(ArabicTable(), s)
  {
    var u := ArabicTable();
    var digits: string := seq(7, i => '\U{0661}');
    var head := "CH930076";
    assert AllAlnum(head);
    s := head + digits;
    assert s[0..15] == s && s[4..8] == "0076" && s[8..15] == digits && s[15..] == "";
    assert forall k | 0 <= k < |s| :: u.word(s[k]) by {
      forall k | 0 <= k < |s| ensures u.word(s[k]) {
        assert s[k] == if k < 8 then head[k] else digits[k - 8];
      }
    }
    assert Body(u, IbanRecognizer, s);
    assert MatchAt(u, IbanRecognizer, s, 0, 15);
    IbanBodies(u, s);
    assert s[8] == digits[0];
    forall i: nat, j: nat | i <= |s| && j <= |s|
      ensures !MatchAt(u, IbanLeak, s, i, j) && !MatchAt(u, AccountLeak, s, i, j)
    {
      if i <= j && (MatchAt(u, IbanLeak, s, i, j) || MatchAt(u, AccountLeak, s, i, j)) {
        WordRunMatch(u, if MatchAt(u, IbanLeak, s, i, j) then IbanLeak else AccountLeak, s, i, j);
        assert false;
      }
    }
  }
}
