/** Masking detected spans with numbered tokens, and undoing it (app/services/pii/masker.py). */
module Masker {
  import opened Text
  import opened Unmasker
  import opened TokenOrder

  /** One detection of the analyzer: an entity type and a character range. */
  datatype Span = Span(kind: string, start: nat, end: nat)

  datatype MaskingResult = MaskingResult(maskedText: string, entityCount: nat)

  predicate BracketFree(s: string) {
    Without(s, '[') && Without(s, ']')
  }

  /** What the anonymizer gets: ranges of the text, in reading order and disjoint. */
  predicate ValidSpans(text: string, spans: seq<Span>) {
    && (forall i | 0 <= i < |spans| :: spans[i].start <= spans[i].end <= |text|)
    && (forall i, j | 0 <= i < j < |spans| :: spans[i].end <= spans[j].start)
  }

  function Value(text: string, span: Span): string
    requires span.start <= span.end <= |text|
  {
    text[span.start..span.end]
  }

  // ---------- Tokens ----------

  function Decimal(n: nat): (s: string)
    ensures s != "" && forall i | 0 <= i < |s| :: '0' <= s[i] <= '9'
  {
    var digit := [(n % 10 + 48) as char];
    if n < 10 then digit else Decimal(n / 10) + digit
  }

  lemma {:induction false} DecimalInjective(a: nat, b: nat)
    requires Decimal(a) == Decimal(b)
    ensures a == b
  {
    var x, y := Decimal(a), Decimal(b);
    assert x[|x| - 1] == (a % 10 + 48) as char && y[|y| - 1] == (b % 10 + 48) as char;
    if a >= 10 && b >= 10 {
      assert x[..|x| - 1] == Decimal(a / 10) && y[..|y| - 1] == Decimal(b / 10);
      DecimalInjective(a / 10, b / 10);
    }
  }

  /** `f"[{kind}_{k}]"` */
  function Token(kind: string, k: nat): string {
    "[" + kind + "_" + Decimal(k) + "]"
  }

  lemma TokenIsBracketToken(kind: string, k: nat)
    requires BracketFree(kind)
    ensures BracketToken(Token(kind, k))
  {}

  lemma DecimalDigits(n: nat, k: nat)
    requires k < |Decimal(n)|
    ensures Decimal(n)[k] != '_'
  {}

  /** The number of a token is as long as the text between the last '_' and the closing bracket. */
  lemma TokenLayout(kind: string, k: nat)
    ensures var t, d := Token(kind, k), Decimal(k);
            && |t| == |kind| + |d| + 3 && t[|kind| + 1] == '_'
            && t[1..|kind| + 1] == kind && t[|kind| + 2..|t| - 1] == d
  {}

  /** The '_' in front of the number is the last one. */
  lemma UnderscoreUpTo(kind: string, k: nat, i: nat)
    requires i < |Token(kind, k)| && Token(kind, k)[i] == '_'
    ensures i <= |kind| + 1
  {
    var t, d := Token(kind, k), Decimal(k);
    forall j | |kind| + 1 < j < |t| ensures t[j] != '_' {
      if j < |t| - 1 {
        assert t[j] == d[j - |kind| - 2];
        DecimalDigits(k, j - |kind| - 2);
      }
    }
  }

  /** Tokens of different entities differ, whatever the entity types look like. */
  lemma TokenInjective(kind: string, k: nat, kind': string, k': nat)
    requires Token(kind, k) == Token(kind', k')
    ensures kind == kind' && k == k'
  {
    TokenLayout(kind, k);
    TokenLayout(kind', k');
    UnderscoreUpTo(kind, k, |kind'| + 1);
    UnderscoreUpTo(kind', k', |kind| + 1);
    DecimalInjective(k, k');
  }

  // ---------- The loop over the detections ----------

  function Count(spans: seq<Span>, kind: string): nat {
    if spans == [] then 0
    else Count(spans[..|spans| - 1], kind) + (if spans[|spans| - 1].kind == kind then 1 else 0)
  }

  /** The token the i-th detection gets: its number among the detections of its type so far. */
  function TokenOf(spans: seq<Span>, i: nat): string
    requires i < |spans|
  {
    Token(spans[i].kind, Count(spans[..i + 1], spans[i].kind))
  }

  function TokensOf(spans: seq<Span>): (tokens: seq<string>)
    ensures |tokens| == |spans|
  {
    seq(|spans|, i requires 0 <= i < |spans| => TokenOf(spans, i))
  }

  function ValuesOf(text: string, spans: seq<Span>): (values: seq<string>)
    requires ValidSpans(text, spans)
    ensures |values| == |spans|
  {
    seq(|spans|, i requires 0 <= i < |spans| => Value(text, spans[i]))
  }

  /** The first n tokens lead back to their own values, and nothing else is mapped. */
  ghost predicate Inverts(tokens: seq<string>, values: seq<string>, n: nat, m: map<string, string>)
    requires n <= |tokens| == |values|
  {
    && (forall i | 0 <= i < n :: tokens[i] in m && m[tokens[i]] == values[i])
    && (forall t | t in m :: t in tokens[..n])
  }

  /** Position i holds the last of the first n detections that has the given type. */
  ghost predicate LastOfKind(spans: seq<Span>, n: nat, kind: string, i: nat)
    requires n <= |spans|
  {
    && i < n && spans[i].kind == kind
    && forall j | i < j < n :: spans[j].kind != kind
  }

  /** One replacement per entity type: the token of its last detection. */
  ghost predicate IsOperators(spans: seq<Span>, tokens: seq<string>, n: nat, ops: map<string, string>)
    requires n <= |spans| == |tokens|
  {
    && (forall i | 0 <= i < n :: spans[i].kind in ops)
    && (forall kind, i: nat | kind in ops && LastOfKind(spans, n, kind, i) :: ops[kind] == tokens[i])
  }

  /** The text before, between and after the spans. */
  function Gaps(text: string, spans: seq<Span>, from: nat): (gaps: seq<string>)
    requires ValidSpans(text, spans)
    requires from <= |text| && (spans != [] ==> from <= spans[0].start)
    ensures |gaps| == |spans| + 1
  {
    if spans == [] then [text[from..]]
    else [text[from..spans[0].start]] + Gaps(text, spans[1..], spans[0].end)
  }

  /** Gaps and pieces in turn. */
  function Join(gaps: seq<string>, pieces: seq<string>): string
    requires |gaps| == |pieces| + 1
  {
    if pieces == [] then gaps[0] else gaps[0] + pieces[0] + Join(gaps[1..], pieces[1..])
  }

  /** The anonymizer: each span gives way to its piece, the text between stays. */
  function Rewrite(text: string, spans: seq<Span>, pieces: seq<string>): string
    requires ValidSpans(text, spans) && |pieces| == |spans|
  {
    Join(Gaps(text, spans, 0), pieces)
  }

  function Pieces(spans: seq<Span>, ops: map<string, string>): seq<string>
    requires forall i | 0 <= i < |spans| :: spans[i].kind in ops
  {
    seq(|spans|, i requires 0 <= i < |spans| => ops[spans[i].kind])
  }

  /** What `mask` must return: blank text stays; else the analyzer's failure, or the rewritten text and its map. */
  ghost predicate IsMasking(text: string, analysis: Result<seq<Span>>, ops: map<string, string>,
                            outcome: Result<(MaskingResult, map<string, string>)>)
    requires analysis.Ok? ==> ValidSpans(text, analysis.value)
  {
    if Blank(text) then outcome == Ok((MaskingResult(text, 0), map[]))
    else match analysis
      case Raised(m) => outcome == Raised("Presidio analysis failed: " + m)
      case Ok(spans) =>
        && IsOperators(spans, TokensOf(spans), |spans|, ops)
        && outcome.Ok?
        && outcome.value.0 == MaskingResult(Rewrite(text, spans, Pieces(spans, ops)), |spans|)
        && Inverts(TokensOf(spans), ValuesOf(text, spans), |spans|, outcome.value.1)
  }

  method Mask(text: string, analysis: Result<seq<Span>>)
    returns (outcome: Result<(MaskingResult, map<string, string>)>, operators: map<string, string>)
    requires analysis.Ok? ==> ValidSpans(text, analysis.value)
    ensures IsMasking(text, analysis, operators, outcome)
  {
    operators := map[];
    if Blank(text) {
      return Ok((MaskingResult(text, 0), map[])), operators;
    }
    if analysis.Raised? {
      return Raised("Presidio analysis failed: " + analysis.message), operators;
    }
    var spans := analysis.value;
    if spans == [] {
      return Ok((MaskingResult(text, 0), map[])), operators;
    }
    var typeCounters: map<string, nat> := map[];
    var reverseMap: map<string, string> := map[];
    ghost var tokens, values := TokensOf(spans), ValuesOf(text, spans);
    for i := 0 to |spans|
      invariant forall kind :: (if kind in typeCounters then typeCounters[kind] else 0) == Count(spans[..i], kind)
      invariant Inverts(tokens, values, i, reverseMap)
      invariant IsOperators(spans, tokens, i, operators)
    {
      var kind := spans[i].kind;
      CountNext(spans, i);
      typeCounters := typeCounters[kind := (if kind in typeCounters then typeCounters[kind] else 0) + 1];
      var token := Token(kind, typeCounters[kind]);
      assert token == tokens[i];
      TokensDistinct(spans);
      InvertsGrows(tokens, values, i, reverseMap);
      reverseMap := reverseMap[token := Value(text, spans[i])];
      OperatorsGrow(spans, tokens, i, operators);
      operators := operators[kind := token];
    }
    outcome := Ok((MaskingResult(Rewrite(text, spans, Pieces(spans, operators)), |spans|), reverseMap));
  }

  lemma CountNext(spans: seq<Span>, n: nat)
    requires n < |spans|
    ensures forall kind ::
              Count(spans[..n + 1], kind) == Count(spans[..n], kind) + (if spans[n].kind == kind then 1 else 0)
  {
    assert spans[..n + 1][..n] == spans[..n];
  }

  lemma {:induction false} CountGrows(spans: seq<Span>, a: nat, b: nat, kind: string)
    requires a <= b <= |spans|
    ensures Count(spans[..a], kind) <= Count(spans[..b], kind)
    decreases b
  {
    if a < b {
      assert spans[..b][..b - 1] == spans[..b - 1];
      CountGrows(spans, a, b - 1, kind);
    }
  }

  /** No two detections get the same token. */
  lemma TokensDistinct(spans: seq<Span>)
    ensures Distinct(TokensOf(spans))
  {
    forall i, j | 0 <= i < j < |spans| ensures TokenOf(spans, i) != TokenOf(spans, j) {
      TokensDiffer(spans, i, j);
    }
  }

  lemma TokensDiffer(spans: seq<Span>, i: nat, j: nat)
    requires i < j < |spans|
    ensures TokenOf(spans, i) != TokenOf(spans, j)
  {
    var kind := spans[j].kind;
    var k, k' := Count(spans[..i + 1], spans[i].kind), Count(spans[..j + 1], kind);
    CountGrows(spans, i + 1, j, kind);
    CountNext(spans, j);
    assert spans[i].kind != kind || k != k';
    if Token(spans[i].kind, k) == Token(kind, k') {
      TokenInjective(spans[i].kind, k, kind, k');
      assert false;
    }
  }

  lemma InvertsGrows(tokens: seq<string>, values: seq<string>, n: nat, m: map<string, string>)
    requires n < |tokens| == |values| && Distinct(tokens)
    requires Inverts(tokens, values, n, m)
    ensures Inverts(tokens, values, n + 1, m[tokens[n] := values[n]])
  {}

  lemma OperatorsGrow(spans: seq<Span>, tokens: seq<string>, n: nat, ops: map<string, string>)
    requires n < |spans| == |tokens| && IsOperators(spans, tokens, n, ops)
    ensures IsOperators(spans, tokens, n + 1, ops[spans[n].kind := tokens[n]])
  {}

  // ---------- What masking returns, in characters ----------

  /**
   What a run of digits writes down, read from left to right: each digit is ten times what came before, plus
   itself.
   */
  function NumberOf(digits: string): nat
    requires forall i | 0 <= i < |digits| :: '0' <= digits[i] <= '9'
  {
    if digits == "" then 0
    else 10 * NumberOf(digits[..|digits| - 1]) + (digits[|digits| - 1] as int - '0' as int)
  }

  /** Digits without a leading zero that write down n. */
  ghost predicate Numeral(digits: string, n: nat) {
    && digits != "" && (forall i | 0 <= i < |digits| :: '0' <= digits[i] <= '9')
    && (|digits| > 1 ==> digits[0] != '0')
    && NumberOf(digits) == n
  }

  lemma {:induction false} DecimalIsNumeral(n: nat)
    ensures Numeral(Decimal(n), n) && (n > 0 ==> Decimal(n)[0] != '0')
  {
    var d := Decimal(n);
    if n < 10 {
      assert d[..0] == "";
    } else {
      DecimalIsNumeral(n / 10);
      assert d[..|d| - 1] == Decimal(n / 10);
    }
  }

  /** The detections among the first n that have the type. */
  ghost function OfKind(spans: seq<Span>, n: nat, kind: string): set<nat>
    requires n <= |spans|
  {
    set j: nat | j < n && spans[j].kind == kind
  }

  lemma OfKindNext(spans: seq<Span>, n: nat, kind: string)
    requires n < |spans|
    ensures OfKind(spans, n + 1, kind) == OfKind(spans, n, kind) + (if spans[n].kind == kind then {n} else {})
    ensures n !in OfKind(spans, n, kind)
  {}

  lemma {:induction false} CountIsCardinality(spans: seq<Span>, n: nat, kind: string)
    requires n <= |spans|
    ensures Count(spans[..n], kind) == |OfKind(spans, n, kind)|
  {
    if n > 0 {
      CountIsCardinality(spans, n - 1, kind);
      CountNext(spans, n - 1);
      OfKindNext(spans, n - 1, kind);
    }
  }

  /** `[kind_n]`, the number in decimal. */
  ghost predicate Writes(token: string, kind: string, n: nat) {
    exists digits :: Numeral(digits, n) && token == "[" + kind + "_" + digits + "]"
  }

  lemma TokenWrites(spans: seq<Span>, i: nat)
    requires i < |spans|
    ensures Writes(TokenOf(spans, i), spans[i].kind, |OfKind(spans, i + 1, spans[i].kind)|)
  {
    CountIsCardinality(spans, i + 1, spans[i].kind);
    DecimalIsNumeral(Count(spans[..i + 1], spans[i].kind));
  }

  /**
   The map has one key for each detection, `[kind_n]` where it is the n-th of its type, which leads to the text
   detected; and no other key.
   */
  lemma MapNumbersDetections(text: string, spans: seq<Span>, ops: map<string, string>,
                             masked: MaskingResult, m: map<string, string>) returns (keys: seq<string>)
    requires ValidSpans(text, spans) && !Blank(text)
    requires IsMasking(text, Ok(spans), ops, Ok((masked, m)))
    ensures |keys| == |spans| && (forall i, j | 0 <= i < j < |keys| :: keys[i] != keys[j])
    ensures forall key :: key in keys <==> key in m
    ensures forall i | 0 <= i < |spans| ::
              && m[keys[i]] == text[spans[i].start..spans[i].end]
              && Writes(keys[i], spans[i].kind, |OfKind(spans, i + 1, spans[i].kind)|)
  {
    keys := TokensOf(spans);
    TokensDistinct(spans);
    assert keys[..|spans|] == keys;
    forall i | 0 <= i < |spans| ensures Writes(keys[i], spans[i].kind, |OfKind(spans, i + 1, spans[i].kind)|) {
      TokenWrites(spans, i);
    }
  }

  /** The text with the span's place taken by the piece; what stands before the span stays. */
  function Edited(text: string, span: Span, piece: string): string
    requires span.start <= span.end <= |text|
  {
    text[..span.start] + piece + text[span.end..]
  }

  /** The text with each span cut out, the last one first, and its piece put in. */
  function CutAndPaste(text: string, spans: seq<Span>, pieces: seq<string>): string
    requires ValidSpans(text, spans) && |pieces| == |spans|
    decreases |spans|
  {
    if spans == [] then text
    else
      var n := |spans| - 1;
      CutAndPaste(Edited(text, spans[n], pieces[n]), spans[..n], pieces[..n])
  }

  lemma JoinFirst(text: string, spans: seq<Span>, pieces: seq<string>, from: nat)
    requires ValidSpans(text, spans) && spans != [] && |pieces| == |spans| && from <= spans[0].start
    ensures Join(Gaps(text, spans, from), pieces) ==
            text[from..spans[0].start] + pieces[0] + Join(Gaps(text, spans[1..], spans[0].end), pieces[1..])
  {}

  lemma EditedText(text: string, span: Span, piece: string, from: nat, to: nat)
    requires span.start <= span.end <= |text| && from <= to <= span.start
    ensures var edited := Edited(text, span, piece);
            && |edited| >= span.start && edited[from..to] == text[from..to]
            && edited[from..] == text[from..span.start] + piece + text[span.end..]
  {}

  lemma OnlySpan(text: string, span: Span, piece: string, from: nat)
    requires from <= span.start <= span.end <= |text|
    ensures from <= |Edited(text, span, piece)|
    ensures Join(Gaps(text, [span], from), [piece]) == Join(Gaps(Edited(text, span, piece), [], from), [])
  {
    JoinFirst(text, [span], [piece], from);
    EditedText(text, span, piece, from, from);
  }

  /** What stands in front of the last span can be joined before or after that span is cut out. */
  lemma FirstPart(text: string, edited: string, spans: seq<Span>, pieces: seq<string>, from: nat, behind: string)
    requires |spans| == |pieces| > 1 && ValidSpans(text, spans) && from <= spans[0].start
    requires edited == Edited(text, spans[|spans| - 1], pieces[|spans| - 1])
    requires ValidSpans(edited, spans[..|spans| - 1])
    requires Join(Gaps(text, spans[1..], spans[0].end), pieces[1..]) == behind
    requires var n := |spans| - 1; Join(Gaps(edited, spans[..n][1..], spans[0].end), pieces[..n][1..]) == behind
    ensures var n := |spans| - 1;
            Join(Gaps(text, spans, from), pieces) == Join(Gaps(edited, spans[..n], from), pieces[..n])
  {
    var n := |spans| - 1;
    JoinFirst(text, spans, pieces, from);
    JoinFirst(edited, spans[..n], pieces[..n], from);
    EditedText(text, spans[n], pieces[n], from, spans[0].start);
  }

  lemma EditedSpans(text: string, edited: string, spans: seq<Span>, piece: string)
    requires ValidSpans(text, spans) && spans != [] && edited == Edited(text, spans[|spans| - 1], piece)
    ensures ValidSpans(edited, spans[..|spans| - 1])
  {}

  /** The last span may be the first to be cut out. */
  lemma {:induction false} LastSpanFirst(text: string, edited: string, spans: seq<Span>, pieces: seq<string>, from: nat)
    requires |spans| == |pieces| > 0 && ValidSpans(text, spans) && from <= spans[0].start
    requires edited == Edited(text, spans[|spans| - 1], pieces[|spans| - 1])
    requires from <= |edited| && ValidSpans(edited, spans[..|spans| - 1])
    ensures var n := |spans| - 1;
            Join(Gaps(text, spans, from), pieces) == Join(Gaps(edited, spans[..n], from), pieces[..n])
  {
    var n := |spans| - 1;
    if n == 0 {
      OnlySpan(text, spans[0], pieces[0], from);
      assert spans == [spans[0]] && pieces == [pieces[0]];
    } else {
      var rest, more := spans[1..], pieces[1..];
      assert rest[..n - 1] == spans[..n][1..] && more[..n - 1] == pieces[..n][1..];
      LastSpanFirst(text, edited, rest, more, spans[0].end);
      FirstPart(text, edited, spans, pieces, from, Join(Gaps(text, rest, spans[0].end), more));
    }
  }

  /** Cutting from the end gives what joining gaps and pieces from the front gives. */
  lemma {:induction false} RewriteCutsAndPastes(text: string, spans: seq<Span>, pieces: seq<string>)
    requires ValidSpans(text, spans) && |pieces| == |spans|
    ensures Rewrite(text, spans, pieces) == CutAndPaste(text, spans, pieces)
    decreases |spans|
  {
    if spans == [] {
      assert text[0..] == text;
    } else {
      var n := |spans| - 1;
      var edited := Edited(text, spans[n], pieces[n]);
      EditedSpans(text, edited, spans, pieces[n]);
      LastSpanFirst(text, edited, spans, pieces, 0);
      RewriteCutsAndPastes(edited, spans[..n], pieces[..n]);
    }
  }

  /**
   In the masked text each span gives way to the token of the last one of its type, which has the number of them
   all.
   */
  lemma MaskedTextNumbersKinds(text: string, spans: seq<Span>, ops: map<string, string>,
                               masked: MaskingResult, m: map<string, string>) returns (pieces: seq<string>)
    requires ValidSpans(text, spans) && !Blank(text)
    requires IsMasking(text, Ok(spans), ops, Ok((masked, m)))
    ensures masked.entityCount == |spans| == |pieces| && masked.maskedText == CutAndPaste(text, spans, pieces)
    ensures forall i | 0 <= i < |spans| ::
              Writes(pieces[i], spans[i].kind, |OfKind(spans, |spans|, spans[i].kind)|)
  {
    pieces := Pieces(spans, ops);
    RewriteCutsAndPastes(text, spans, pieces);
    forall i | 0 <= i < |spans| ensures Writes(pieces[i], spans[i].kind, |OfKind(spans, |spans|, spans[i].kind)|) {
      var last := LastIndex(spans, |spans|, i);
      TokenWrites(spans, last);
      NoneBehindLast(spans, spans[i].kind, last);
      assert pieces[i] == TokensOf(spans)[last];
    }
  }

  lemma NoneBehindLast(spans: seq<Span>, kind: string, last: nat)
    requires LastOfKind(spans, |spans|, kind, last)
    ensures OfKind(spans, last + 1, kind) == OfKind(spans, |spans|, kind)
  {}

  // ---------- Unmasking the masked text ----------

  /** The value of the last detection of each detection's type. */
  ghost predicate LastValues(text: string, spans: seq<Span>, pieces: seq<string>)
    requires ValidSpans(text, spans)
  {
    && |pieces| == |spans|
    && forall i, j: nat | 0 <= i < |spans| && LastOfKind(spans, |spans|, spans[i].kind, j) ::
         pieces[i] == Value(text, spans[j])
  }

  function LastIndex(spans: seq<Span>, n: nat, i: nat): (j: nat)
    requires i < n <= |spans|
    ensures LastOfKind(spans, n, spans[i].kind, j)
  {
    if spans[n - 1].kind == spans[i].kind then n - 1 else LastIndex(spans, n - 1, i)
  }

  /** Putting every span's own value back gives the text. */
  lemma {:induction false} JoinOwnValues(text: string, spans: seq<Span>, from: nat)
    requires ValidSpans(text, spans) && from <= |text| && (spans != [] ==> from <= spans[0].start)
    ensures Join(Gaps(text, spans, from), ValuesOf(text, spans)) == text[from..]
  {
    if spans != [] {
      var gaps, values := Gaps(text, spans, from), ValuesOf(text, spans);
      assert values[1..] == ValuesOf(text, spans[1..]);
      assert gaps[1..] == Gaps(text, spans[1..], spans[0].end);
      JoinOwnValues(text, spans[1..], spans[0].end);
    }
  }

  lemma {:induction false} GapsPlain(text: string, spans: seq<Span>, from: nat, c: char)
    requires ValidSpans(text, spans) && from <= |text| && (spans != [] ==> from <= spans[0].start)
    requires Without(text, c)
    ensures forall g | g in Gaps(text, spans, from) :: Without(g, c)
  {
    if spans != [] {
      GapsPlain(text, spans[1..], spans[0].end, c);
    }
  }

  /** Each gap, substituted on its own. */
  ghost function SubstituteEach(gaps: seq<string>, m: map<string, string>): (r: seq<string>)
    ensures |r| == |gaps|
  {
    seq(|gaps|, i requires 0 <= i < |gaps| => Substitute(gaps[i], m))
  }

  lemma SubstituteGapAndToken(gap: string, t: string, rest: string, m: map<string, string>)
    requires TokenKeys(m) && t in m
    ensures Substitute(gap + t + rest, m) == Substitute(gap, m) + m[t] + Substitute(rest, m)
  {
    assert BracketToken(t) && (t + rest)[|t|..] == rest;
    Assoc(gap, t, rest);
    SubstituteSplits(gap, t + rest, m);
    SubstituteToken(t + rest, t, m);
    Assoc(Substitute(gap, m), m[t], Substitute(rest, m));
  }

  /** One pass over the joined text turns the tokens into their values, and meets each gap as if it stood alone. */
  lemma {:induction false} SubstituteJoined(gaps: seq<string>, tokens: seq<string>, values: seq<string>,
                                            m: map<string, string>)
    requires |tokens| == |values| && |gaps| == |tokens| + 1 && TokenKeys(m)
    requires forall i | 0 <= i < |tokens| :: tokens[i] in m && m[tokens[i]] == values[i]
    ensures Substitute(Join(gaps, tokens), m) == Join(SubstituteEach(gaps, m), values)
  {
    if tokens != [] {
      SubstituteJoined(gaps[1..], tokens[1..], values[1..], m);
      SubstituteGapAndToken(gaps[0], tokens[0], Join(gaps[1..], tokens[1..]), m);
      assert SubstituteEach(gaps, m)[1..] == SubstituteEach(gaps[1..], m);
    }
  }

  lemma {:induction false} FlatJoined(gaps: seq<string>, tokens: seq<string>)
    requires |gaps| == |tokens| + 1
    requires (forall g | g in gaps :: Without(g, '[')) && forall i | 0 <= i < |tokens| :: BracketToken(tokens[i])
    ensures Flat(Join(gaps, tokens))
  {
    assert gaps[0] in gaps;
    if tokens == [] {
      assert gaps[0] + "" == gaps[0];
      FlatPlain(gaps[0], "");
    } else {
      var rest := Join(gaps[1..], tokens[1..]);
      FlatJoined(gaps[1..], tokens[1..]);
      FlatAfterGroup(tokens[0], rest);
      Assoc(gaps[0], tokens[0], rest);
      FlatPlain(gaps[0], tokens[0] + rest);
    }
  }

  /** No key of the map occurs in a gap. */
  ghost predicate KeysAbsent(gaps: seq<string>, m: map<string, string>) {
    forall i | 0 <= i < |gaps| :: !HoldsKey(gaps[i], m)
  }

  lemma AbsentKeysLeaveGaps(gaps: seq<string>, m: map<string, string>)
    requires TokenKeys(m) && KeysAbsent(gaps, m)
    ensures SubstituteEach(gaps, m) == gaps
  {
    forall i | 0 <= i < |gaps| ensures SubstituteEach(gaps, m)[i] == gaps[i] {
      SubstituteAbsent(gaps[i], m);
    }
  }

  function OpensIn(gaps: seq<string>): nat {
    if gaps == [] then 0 else Opens(gaps[0]) + OpensIn(gaps[1..])
  }

  /** Plain values between gaps add no opening bracket. */
  lemma {:induction false} JoinOpens(gaps: seq<string>, values: seq<string>)
    requires |gaps| == |values| + 1 && forall i | 0 <= i < |values| :: Without(values[i], '[')
    ensures Opens(Join(gaps, values)) == OpensIn(gaps)
  {
    assert gaps == [gaps[0]] + gaps[1..];
    if values != [] {
      var rest := Join(gaps[1..], values[1..]);
      JoinOpens(gaps[1..], values[1..]);
      OpensPlain(values[0]);
      OpensConcat(gaps[0], values[0]);
      OpensConcat(gaps[0] + values[0], rest);
    } else {
      assert gaps[1..] == [];
    }
  }

  /** A key in a gap costs an opening bracket. */
  lemma {:induction false} GapsLoseOpens(gaps: seq<string>, m: map<string, string>)
    requires TokenKeys(m) && PlainValues(m)
    ensures OpensIn(SubstituteEach(gaps, m)) <= OpensIn(gaps)
    ensures !KeysAbsent(gaps, m) ==> OpensIn(SubstituteEach(gaps, m)) < OpensIn(gaps)
  {
    if gaps != [] {
      SubstituteOpens(gaps[0], m);
      GapsLoseOpens(gaps[1..], m);
      assert SubstituteEach(gaps, m)[1..] == SubstituteEach(gaps[1..], m);
      if !KeysAbsent(gaps, m) {
        var i :| 0 <= i < |gaps| && HoldsKey(gaps[i], m);
        assert i > 0 ==> gaps[1..][i - 1] == gaps[i];
      }
    }
  }

  predicate PlainKinds(spans: seq<Span>) {
    forall i | 0 <= i < |spans| :: BracketFree(spans[i].kind)
  }

  lemma TokensBracketed(spans: seq<Span>)
    requires PlainKinds(spans)
    ensures forall i | 0 <= i < |spans| :: BracketToken(TokensOf(spans)[i])
  {}

  lemma ReverseMapWellFormed(tokens: seq<string>, values: seq<string>, m: map<string, string>)
    requires |tokens| == |values| && Inverts(tokens, values, |tokens|, m)
    requires forall i | 0 <= i < |tokens| :: BracketToken(tokens[i]) && Without(values[i], '[')
    ensures TokenKeys(m) && PlainValues(m)
  {}

  /** No detection holds an opening bracket. */
  predicate PlainDetections(text: string, spans: seq<Span>)
    requires ValidSpans(text, spans)
  {
    forall i | 0 <= i < |spans| :: Without(Value(text, spans[i]), '[')
  }

  lemma MaskMapWellFormed(text: string, spans: seq<Span>, m: map<string, string>)
    requires ValidSpans(text, spans) && PlainDetections(text, spans) && PlainKinds(spans)
    requires Inverts(TokensOf(spans), ValuesOf(text, spans), |spans|, m)
    ensures TokenKeys(m) && PlainValues(m)
  {
    TokensBracketed(spans);
    ReverseMapWellFormed(TokensOf(spans), ValuesOf(text, spans), m);
  }

  /** Joined text whose loop is one pass: it comes back with the values in place exactly if no key occurs in a gap. */
  lemma UnmaskJoined(gaps: seq<string>, tokens: seq<string>, values: seq<string>, m: map<string, string>,
                     order: seq<string>)
    requires |tokens| == |values| && |gaps| == |tokens| + 1
    requires TokenKeys(m) && PlainValues(m) && Lists(order, m) && Settled(Join(gaps, tokens), order)
    requires forall i | 0 <= i < |tokens| :: tokens[i] in m && m[tokens[i]] == values[i]
    ensures ReplaceAll(Join(gaps, tokens), m, order) == Join(gaps, values) <==> KeysAbsent(gaps, m)
  {
    SettledIsSimultaneous(Join(gaps, tokens), m, order);
    SubstituteJoined(gaps, tokens, values, m);
    if KeysAbsent(gaps, m) {
      AbsentKeysLeaveGaps(gaps, m);
    } else {
      KeyInGapCosts(gaps, tokens, values, m, order);
      JoinOpens(gaps, values);
    }
  }

  /** In any order, and whether or not the loop is one pass. */
  lemma KeyInGapCosts(gaps: seq<string>, tokens: seq<string>, values: seq<string>, m: map<string, string>,
                      order: seq<string>)
    requires |tokens| == |values| && |gaps| == |tokens| + 1
    requires TokenKeys(m) && PlainValues(m) && Lists(order, m) && !KeysAbsent(gaps, m)
    requires forall i | 0 <= i < |tokens| :: tokens[i] in m && m[tokens[i]] == values[i]
    ensures Opens(ReplaceAll(Join(gaps, tokens), m, order)) < OpensIn(gaps)
  {
    AllOpens(Join(gaps, tokens), m, order);
    SubstituteJoined(gaps, tokens, values, m);
    JoinOpens(SubstituteEach(gaps, m), values);
    GapsLoseOpens(gaps, m);
  }

  /** Each token put into the text leads to the last value of its type. */
  lemma PiecesLeadToLast(text: string, spans: seq<Span>, ops: map<string, string>, m: map<string, string>,
                         last: seq<string>)
    requires ValidSpans(text, spans) && LastValues(text, spans, last)
    requires IsOperators(spans, TokensOf(spans), |spans|, ops)
    requires Inverts(TokensOf(spans), ValuesOf(text, spans), |spans|, m)
    ensures forall i | 0 <= i < |spans| :: Pieces(spans, ops)[i] in m && m[Pieces(spans, ops)[i]] == last[i]
  {
    forall i | 0 <= i < |spans| ensures Pieces(spans, ops)[i] in m && m[Pieces(spans, ops)[i]] == last[i] {
      var j := LastIndex(spans, |spans|, i);
      assert ops[spans[i].kind] == TokensOf(spans)[j];
    }
  }

  /** What a masking and its map are, for text with or without brackets. */
  ghost predicate MaskedWith(text: string, spans: seq<Span>, ops: map<string, string>, m: map<string, string>) {
    && ValidSpans(text, spans) && PlainKinds(spans) && PlainDetections(text, spans)
    && IsOperators(spans, TokensOf(spans), |spans|, ops)
    && Inverts(TokensOf(spans), ValuesOf(text, spans), |spans|, m)
  }

  function MaskedText(text: string, spans: seq<Span>, ops: map<string, string>): string
    requires ValidSpans(text, spans) && forall i | 0 <= i < |spans| :: spans[i].kind in ops
  {
    Rewrite(text, spans, Pieces(spans, ops))
  }

  /**
   Unmasking in an order for which the masked text is settled gives the text with each span replaced by the last
   same-type span's value, exactly if no token of the map stands in the text outside the detections.
   */
  lemma UnmaskMasked(text: string, spans: seq<Span>, ops: map<string, string>, m: map<string, string>,
                     order: seq<string>, last: seq<string>)
    requires MaskedWith(text, spans, ops, m) && LastValues(text, spans, last)
    requires Lists(order, m) && Settled(MaskedText(text, spans, ops), order)
    ensures ReplaceAll(MaskedText(text, spans, ops), m, order) == Rewrite(text, spans, last)
            <==> KeysAbsent(Gaps(text, spans, 0), m)
  {
    MaskMapWellFormed(text, spans, m);
    PiecesLeadToLast(text, spans, ops, m, last);
    UnmaskJoined(Gaps(text, spans, 0), Pieces(spans, ops), last, m, order);
  }

  lemma LastValuesArePlain(text: string, spans: seq<Span>, last: seq<string>)
    requires ValidSpans(text, spans) && PlainDetections(text, spans) && LastValues(text, spans, last)
    ensures forall i | 0 <= i < |last| :: Without(last[i], '[')
  {
    forall i | 0 <= i < |last| ensures Without(last[i], '[') {
      var k := LastIndex(spans, |spans|, i);
      assert last[i] == Value(text, spans[k]);
    }
  }

  /** The text has the opening brackets of its gaps. */
  lemma TextOpens(text: string, spans: seq<Span>)
    requires ValidSpans(text, spans) && PlainDetections(text, spans)
    ensures Opens(text) == OpensIn(Gaps(text, spans, 0))
  {
    JoinOwnValues(text, spans, 0);
    assert text[0..] == text;
    JoinOpens(Gaps(text, spans, 0), ValuesOf(text, spans));
  }

  /** A token of the map that stands in the text outside the detections is lost in every order. */
  lemma KeyInTextIsLost(text: string, spans: seq<Span>, ops: map<string, string>, m: map<string, string>,
                        order: seq<string>, last: seq<string>)
    requires MaskedWith(text, spans, ops, m) && LastValues(text, spans, last) && Lists(order, m)
    requires !KeysAbsent(Gaps(text, spans, 0), m)
    ensures ReplaceAll(MaskedText(text, spans, ops), m, order) != Rewrite(text, spans, last)
    ensures ReplaceAll(MaskedText(text, spans, ops), m, order) != text
  {
    MaskMapWellFormed(text, spans, m);
    PiecesLeadToLast(text, spans, ops, m, last);
    KeyInGapCosts(Gaps(text, spans, 0), Pieces(spans, ops), last, m, order);
    LastValuesArePlain(text, spans, last);
    JoinOpens(Gaps(text, spans, 0), last);
    TextOpens(text, spans);
  }

  /** Text without '[' meets every condition, in every order. */
  lemma PlainTextIsSettled(text: string, spans: seq<Span>, ops: map<string, string>, m: map<string, string>,
                           order: seq<string>)
    requires ValidSpans(text, spans) && Without(text, '[') && PlainKinds(spans)
    requires IsOperators(spans, TokensOf(spans), |spans|, ops)
    requires Inverts(TokensOf(spans), ValuesOf(text, spans), |spans|, m) && Lists(order, m)
    ensures MaskedWith(text, spans, ops, m) && KeysAbsent(Gaps(text, spans, 0), m)
    ensures Flat(MaskedText(text, spans, ops)) && Settled(MaskedText(text, spans, ops), order)
  {
    var gaps := Gaps(text, spans, 0);
    PlainTextDetections(text, spans);
    MaskMapWellFormed(text, spans, m);
    GapsPlain(text, spans, 0, '[');
    PiecesAreTokens(spans, ops);
    FlatJoined(gaps, Pieces(spans, ops));
    FlatIsSettled(MaskedText(text, spans, ops), order);
    forall i | 0 <= i < |gaps| ensures !HoldsKey(gaps[i], m) {
      assert gaps[i] in gaps;
      PlainHoldsNoKey(gaps[i], m);
    }
  }

  lemma PlainTextDetections(text: string, spans: seq<Span>)
    requires ValidSpans(text, spans) && Without(text, '[')
    ensures PlainDetections(text, spans)
  {
    forall i | 0 <= i < |spans| ensures Without(Value(text, spans[i]), '[') {
      assert Value(text, spans[i]) == text[spans[i].start..spans[i].end];
    }
  }

  lemma PiecesAreTokens(spans: seq<Span>, ops: map<string, string>)
    requires PlainKinds(spans) && IsOperators(spans, TokensOf(spans), |spans|, ops)
    ensures forall i | 0 <= i < |spans| :: BracketToken(Pieces(spans, ops)[i])
  {
    TokensBracketed(spans);
    forall i | 0 <= i < |spans| ensures BracketToken(Pieces(spans, ops)[i]) {
      var j := LastIndex(spans, |spans|, i);
      assert ops[spans[i].kind] == TokensOf(spans)[j];
    }
  }

  lemma PlainHoldsNoKey(s: string, m: map<string, string>)
    requires TokenKeys(m) && Without(s, '[')
    ensures !HoldsKey(s, m)
  {
    forall t | t in m ensures !Contains(s, t) {
      assert BracketToken(t);
      forall i: nat | i <= |s| ensures !OccursAt(s, t, i) {
        OccursStarts(s, t, i);
      }
    }
  }

  predicate SameKind(spans: seq<Span>, i: nat, j: nat) {
    i < |spans| && j < |spans| && spans[i].kind == spans[j].kind
  }

  /** All spans of one entity type carry the same text. */
  ghost predicate SharedValues(text: string, spans: seq<Span>)
    requires ValidSpans(text, spans)
  {
    forall i: nat, j: nat {:trigger SameKind(spans, i, j)} | SameKind(spans, i, j) ::
      Value(text, spans[i]) == Value(text, spans[j])
  }

  /** Spans of one entity type have texts of the same length. */
  ghost predicate SharedLengths(spans: seq<Span>) {
    forall i: nat, j: nat {:trigger SameKind(spans, i, j)} | SameKind(spans, i, j) ::
      spans[i].end - spans[i].start == spans[j].end - spans[j].start
  }

  lemma LastValuesAreOwn(text: string, spans: seq<Span>, last: seq<string>)
    requires ValidSpans(text, spans) && LastValues(text, spans, last)
    ensures last == ValuesOf(text, spans) <==> SharedValues(text, spans)
    ensures SharedLengths(spans) ==> forall i | 0 <= i < |spans| :: |last[i]| == |ValuesOf(text, spans)[i]|
  {
    forall i | 0 <= i < |spans|
      ensures SharedValues(text, spans) ==> last[i] == Value(text, spans[i])
      ensures SharedLengths(spans) ==> |last[i]| == |Value(text, spans[i])|
    {
      var k := LastIndex(spans, |spans|, i);
      assert SameKind(spans, i, k);
    }
    if last == ValuesOf(text, spans) {
      forall i: nat, j: nat | SameKind(spans, i, j)
        ensures Value(text, spans[i]) == Value(text, spans[j])
      {
        var k := LastIndex(spans, |spans|, i);
        assert last[i] == Value(text, spans[k]) == last[j];
      }
    }
  }

  lemma {:induction false} JoinInjective(gaps: seq<string>, a: seq<string>, b: seq<string>)
    requires |a| == |b| && |gaps| == |a| + 1
    requires forall i | 0 <= i < |a| :: |a[i]| == |b[i]|
    requires Join(gaps, a) == Join(gaps, b)
    ensures a == b
  {
    if a != [] {
      var x, y := Join(gaps[1..], a[1..]), Join(gaps[1..], b[1..]);
      var n, n' := |gaps[0]|, |gaps[0]| + |a[0]|;
      assert (gaps[0] + a[0] + x)[n..n'] == a[0] && (gaps[0] + b[0] + y)[n..n'] == b[0];
      assert (gaps[0] + a[0] + x)[n'..] == x && (gaps[0] + b[0] + y)[n'..] == y;
      JoinInjective(gaps[1..], a[1..], b[1..]);
      assert a == [a[0]] + a[1..] && b == [b[0]] + b[1..];
    }
  }

  /** There are such values for every text. */
  ghost function LastValuesOf(text: string, spans: seq<Span>): (last: seq<string>)
    requires ValidSpans(text, spans)
    ensures LastValues(text, spans, last)
  {
    seq(|spans|, i requires 0 <= i < |spans| => Value(text, spans[LastIndex(spans, |spans|, i)]))
  }

  lemma LastValuesRestoreIffShared(text: string, spans: seq<Span>, last: seq<string>)
    requires ValidSpans(text, spans) && LastValues(text, spans, last)
    ensures SharedValues(text, spans) ==> Rewrite(text, spans, last) == text
    ensures SharedLengths(spans) ==> (Rewrite(text, spans, last) == text <==> SharedValues(text, spans))
  {
    LastValuesAreOwn(text, spans, last);
    JoinOwnValues(text, spans, 0);
    assert text[0..] == text;
    if SharedLengths(spans) && Rewrite(text, spans, last) == text {
      JoinInjective(Gaps(text, spans, 0), last, ValuesOf(text, spans));
    }
  }

  /**
   Masking and unmasking, as the code orders the tokens: where the masked text is guarded, the text comes back with each
   span's place taken by the last value of its type, exactly if it holds no token of the map outside the detections.
   */
  lemma MaskRoundTrip(text: string, spans: seq<Span>, ops: map<string, string>,
                      masked: MaskingResult, m: map<string, string>, keys: seq<string>, last: seq<string>)
    requires ValidSpans(text, spans) && !Blank(text) && PlainKinds(spans) && PlainDetections(text, spans)
    requires IsMasking(text, Ok(spans), ops, Ok((masked, m)))
    requires Lists(keys, m) && LastValues(text, spans, last) && Guarded(masked.maskedText)
    ensures ReplaceAll(masked.maskedText, m, LongestFirst(keys)) == Rewrite(text, spans, last)
            <==> KeysAbsent(Gaps(text, spans, 0), m)
  {
    MaskMapWellFormed(text, spans, m);
    LongestFirstLists(keys, m);
    GuardedIsSettled(masked.maskedText, m, keys);
    UnmaskMasked(text, spans, ops, m, LongestFirst(keys), last);
  }

  /**
   So the text itself comes back exactly if, besides, the spans of each type share one value; that they do is needed
   where they have one length per type.
   */
  lemma RoundTripIffShared(text: string, spans: seq<Span>, ops: map<string, string>,
                           masked: MaskingResult, m: map<string, string>, keys: seq<string>)
    requires ValidSpans(text, spans) && !Blank(text) && PlainKinds(spans) && PlainDetections(text, spans)
    requires IsMasking(text, Ok(spans), ops, Ok((masked, m)))
    requires Lists(keys, m) && Guarded(masked.maskedText)
    ensures var back := ReplaceAll(masked.maskedText, m, LongestFirst(keys));
            var absent := KeysAbsent(Gaps(text, spans, 0), m);
            && (SharedValues(text, spans) ==> (back == text <==> absent))
            && (SharedLengths(spans) ==> (back == text <==> absent && SharedValues(text, spans)))
  {
    var last := LastValuesOf(text, spans);
    MaskRoundTrip(text, spans, ops, masked, m, keys, last);
    LastValuesRestoreIffShared(text, spans, last);
    if !KeysAbsent(Gaps(text, spans, 0), m) {
      LongestFirstLists(keys, m);
      KeyInTextIsLost(text, spans, ops, m, LongestFirst(keys), last);
    }
  }

  /** Text without '[' comes back like that in whatever order the tokens are taken. */
  lemma PlainTextRoundTrip(text: string, spans: seq<Span>, ops: map<string, string>,
                           masked: MaskingResult, m: map<string, string>, order: seq<string>, last: seq<string>)
    requires ValidSpans(text, spans) && !Blank(text) && Without(text, '[') && PlainKinds(spans)
    requires IsMasking(text, Ok(spans), ops, Ok((masked, m)))
    requires Lists(order, m) && LastValues(text, spans, last)
    ensures Guarded(masked.maskedText) && PlainDetections(text, spans) && KeysAbsent(Gaps(text, spans, 0), m)
    ensures ReplaceAll(masked.maskedText, m, order) == Rewrite(text, spans, last)
  {
    PlainTextIsSettled(text, spans, ops, m, order);
    UnmaskMasked(text, spans, ops, m, order, last);
    FlatIsGuarded(masked.maskedText);
  }

  lemma TwoNames(text: string, spans: seq<Span>)
    requires text == "Bob,Amy" && spans == [Span("PERSON", 0, 3), Span("PERSON", 4, 7)]
    ensures ValidSpans(text, spans) && !Blank(text) && Without(text, '[') && PlainKinds(spans)
    ensures SharedLengths(spans) && !SharedValues(text, spans)
  {
    assert !IsSpace(text[0]);
    assert SameKind(spans, 0, 1) && Value(text, spans[0])[0] != Value(text, spans[1])[0];
  }

  /** Two different names of the same length: the first one does not come back. */
  lemma TwoNamesLoseTheFirst(ops: map<string, string>, masked: MaskingResult, m: map<string, string>,
                             keys: seq<string>)
    requires IsMasking("Bob,Amy", Ok([Span("PERSON", 0, 3), Span("PERSON", 4, 7)]), ops, Ok((masked, m)))
    requires Lists(keys, m)
    ensures ReplaceAll(masked.maskedText, m, LongestFirst(keys)) != "Bob,Amy"
  {
    var text, spans := "Bob,Amy", [Span("PERSON", 0, 3), Span("PERSON", 4, 7)];
    TwoNames(text, spans);
    PlainTextRoundTrip(text, spans, ops, masked, m, keys, LastValuesOf(text, spans));
    RoundTripIffShared(text, spans, ops, masked, m, keys);
  }
}
