/** Risk rules over transactions and the assessment they lead to (app/services/risk), over exact reals. */
module Risk {
  import opened Text
  import opened Rows
  import opened Validation

  /** One line of a bank statement. */
  datatype Txn = Txn(description: Option<string>, amount: Option<real>)

  datatype Payload = BankStatement(transactions: seq<Txn>, closing: Field) | OtherPayload

  const ALL_RULES :=
    [LargeTransfer, RoundNumber, HighVelocity, NegativeBalance, HighRiskJurisdiction, UnusualCounterparty]

  const KEYWORDS := {
    "offshore", "cayman", "bvi", "british virgin", "panama", "seychelles",
    "vanuatu", "samoa", "nauru", "anonymous", "bearer"
  }

  const PATTERNS := [
    "cash deposit", "currency exchange", "money order", "wire transfer", "telegraphic transfer", "tt "
  ]

  /** The thresholds, the order in which the keyword set is walked, and the lower-casing of text. */
  datatype Setup = Setup(large: real, round: real, velocity: int, keywords: seq<string>, lower: string -> string)

  // ---------- One transaction ----------

  function Described(txn: Txn, s: Setup): string {
    s.lower(if txn.description.Some? then txn.description.value else "")
  }

  /** The first term that occurs in the text. */
  function FirstIn(terms: seq<string>, text: string): Option<string> {
    if terms == [] then None
    else if Contains(text, terms[0]) then Some(terms[0])
    else FirstIn(terms[1..], text)
  }

  predicate AtLeast(amount: Option<real>, threshold: real) {
    amount.Some? && Abs(amount.value) >= threshold
  }

  predicate MultipleOf1000(amount: real) {
    (amount / 1000.0).Floor as real * 1000.0 == amount
  }

  function FlagIf(condition: bool, rule: RiskRule, level: RiskLevel, i: nat): seq<Flag> {
    if condition then [Flag(rule, level, Some(i), None)] else []
  }

  function FlagTerm(term: Option<string>, rule: RiskRule, level: RiskLevel, i: nat): seq<Flag> {
    if term.Some? then [Flag(rule, level, Some(i), term)] else []
  }

  /** What a rule has to say about transaction i: at most one flag. */
  function FlagFor(rule: RiskRule, txn: Txn, i: nat, s: Setup): seq<Flag> {
    match rule
    case LargeTransfer => FlagIf(AtLeast(txn.amount, s.large), rule, High, i)
    case RoundNumber => FlagIf(AtLeast(txn.amount, s.round) && MultipleOf1000(txn.amount.value), rule, Medium, i)
    case HighRiskJurisdiction => FlagTerm(FirstIn(s.keywords, Described(txn, s)), rule, High, i)
    case UnusualCounterparty => FlagTerm(FirstIn(PATTERNS, Described(txn, s)), rule, Medium, i)
    case _ => []
  }

  function TxnFlags(rule: RiskRule, txns: seq<Txn>, i: nat, s: Setup): seq<Flag> {
    if txns == [] then [] else FlagFor(rule, txns[0], i, s) + TxnFlags(rule, txns[1..], i + 1, s)
  }

  // ---------- The rules ----------

  /** What a rule returns or raises on a payload. */
  function RuleFlags(rule: RiskRule, data: Payload, s: Setup): Result<seq<Flag>> {
    if data.OtherPayload? then Ok([])
    else
      match rule
      case HighVelocity => Ok(if |data.transactions| > s.velocity then [Flag(rule, Medium, None, None)] else [])
      case NegativeBalance =>
        (match data.closing
         case Null => Ok([])
         case Num(x) => Ok(if x < 0.0 then [Flag(rule, Medium, None, None)] else [])
         case _ => Raised("TypeError"))
      case _ => Ok(TxnFlags(rule, data.transactions, 0, s))
  }

  /** What is still to be read completes the flags found so far. */
  ghost predicate FlagsRemain(flags: seq<Flag>, rule: RiskRule, txns: seq<Txn>, i: nat, s: Setup)
    requires i <= |txns|
  {
    flags + TxnFlags(rule, txns[i..], i, s) == TxnFlags(rule, txns, 0, s)
  }

  lemma NextTransaction(flags: seq<Flag>, rule: RiskRule, txns: seq<Txn>, i: nat, s: Setup)
    requires i < |txns| && FlagsRemain(flags, rule, txns, i, s)
    ensures FlagsRemain(flags + FlagFor(rule, txns[i], i, s), rule, txns, i + 1, s)
  {
    var rest := txns[i + 1..];
    assert txns[i..] == [txns[i]] + rest;
    FirstTransaction(rule, txns[i], rest, i, s);
    Assoc(flags, FlagFor(rule, txns[i], i, s), TxnFlags(rule, rest, i + 1, s));
  }

  lemma FirstTransaction(rule: RiskRule, txn: Txn, rest: seq<Txn>, i: nat, s: Setup)
    ensures TxnFlags(rule, [txn] + rest, i, s) == FlagFor(rule, txn, i, s) + TxnFlags(rule, rest, i + 1, s)
  {}

  lemma NothingFlagged(rule: RiskRule, txns: seq<Txn>, s: Setup)
    ensures FlagsRemain([], rule, txns, 0, s)
  {}

  lemma AllFlagged(flags: seq<Flag>, rule: RiskRule, txns: seq<Txn>, s: Setup)
    requires FlagsRemain(flags, rule, txns, |txns|, s)
    ensures flags == TxnFlags(rule, txns, 0, s)
  {}

  method ExecuteLargeTransfer(txns: seq<Txn>, s: Setup) returns (flags: seq<Flag>)
    ensures flags == TxnFlags(LargeTransfer, txns, 0, s)
  {
    flags := [];
    NothingFlagged(LargeTransfer, txns, s);
    for i := 0 to |txns|
      invariant FlagsRemain(flags, LargeTransfer, txns, i, s)
    {
      NextTransaction(flags, LargeTransfer, txns, i, s);
      var amount := txns[i].amount;
      if amount.Some? && Abs(amount.value) >= s.large {
        flags := flags + [Flag(LargeTransfer, High, Some(i), None)];
      }
    }
    AllFlagged(flags, LargeTransfer, txns, s);
  }

  method ExecuteRoundNumber(txns: seq<Txn>, s: Setup) returns (flags: seq<Flag>)
    ensures flags == TxnFlags(RoundNumber, txns, 0, s)
  {
    flags := [];
    NothingFlagged(RoundNumber, txns, s);
    for i := 0 to |txns|
      invariant FlagsRemain(flags, RoundNumber, txns, i, s)
    {
      NextTransaction(flags, RoundNumber, txns, i, s);
      var amount := txns[i].amount;
      ghost var more := FlagFor(RoundNumber, txns[i], i, s);
      if amount.Some? && Abs(amount.value) >= s.round {
        if MultipleOf1000(amount.value) {
          assert more == [Flag(RoundNumber, Medium, Some(i), None)];
          flags := flags + [Flag(RoundNumber, Medium, Some(i), None)];
        } else {
          assert more == [];
        }
      } else {
        assert more == [];
      }
    }
    AllFlagged(flags, RoundNumber, txns, s);
  }

  /** The inner loop of the two description rules: it stops at the first term found. */
  method FlagDescription(terms: seq<string>, txn: Txn, rule: RiskRule, level: RiskLevel, i: nat, s: Setup)
    returns (flags: seq<Flag>)
    ensures flags == FlagTerm(FirstIn(terms, Described(txn, s)), rule, level, i)
  {
    flags := [];
    var description := Described(txn, s);
    for j := 0 to |terms|
      invariant flags == [] && FirstIn(terms, description) == FirstIn(terms[j..], description)
    {
      assert terms[j..][1..] == terms[j + 1..];
      if Contains(description, terms[j]) {
        flags := flags + [Flag(rule, level, Some(i), Some(terms[j]))];
        break;
      }
    }
  }

  method ExecuteHighRiskJurisdiction(txns: seq<Txn>, s: Setup) returns (flags: seq<Flag>)
    ensures flags == TxnFlags(HighRiskJurisdiction, txns, 0, s)
  {
    flags := [];
    NothingFlagged(HighRiskJurisdiction, txns, s);
    for i := 0 to |txns|
      invariant FlagsRemain(flags, HighRiskJurisdiction, txns, i, s)
    {
      NextTransaction(flags, HighRiskJurisdiction, txns, i, s);
      var found := FlagDescription(s.keywords, txns[i], HighRiskJurisdiction, High, i, s);
      flags := flags + found;
    }
    AllFlagged(flags, HighRiskJurisdiction, txns, s);
  }

  method ExecuteUnusualCounterparty(txns: seq<Txn>, s: Setup) returns (flags: seq<Flag>)
    ensures flags == TxnFlags(UnusualCounterparty, txns, 0, s)
  {
    flags := [];
    NothingFlagged(UnusualCounterparty, txns, s);
    for i := 0 to |txns|
      invariant FlagsRemain(flags, UnusualCounterparty, txns, i, s)
    {
      NextTransaction(flags, UnusualCounterparty, txns, i, s);
      var found := FlagDescription(PATTERNS, txns[i], UnusualCounterparty, Medium, i, s);
      flags := flags + found;
    }
    AllFlagged(flags, UnusualCounterparty, txns, s);
  }

  method ExecuteRule(rule: RiskRule, data: Payload, s: Setup) returns (result: Result<seq<Flag>>)
    ensures result == RuleFlags(rule, data, s)
  {
    if data.OtherPayload? {
      return Ok([]);
    }
    var flags: seq<Flag>;
    match rule
    case LargeTransfer => flags := ExecuteLargeTransfer(data.transactions, s); result := Ok(flags);
    case RoundNumber => flags := ExecuteRoundNumber(data.transactions, s); result := Ok(flags);
    case HighRiskJurisdiction => flags := ExecuteHighRiskJurisdiction(data.transactions, s); result := Ok(flags);
    case UnusualCounterparty => flags := ExecuteUnusualCounterparty(data.transactions, s); result := Ok(flags);
    case _ => result := RuleFlags(rule, data, s);
  }

  // ---------- The assessment ----------

  function Rank(level: RiskLevel): nat {
    match level
    case Low => 0
    case Medium => 1
    case High => 2
    case Critical => 3
  }

  function Higher(a: RiskLevel, b: RiskLevel): RiskLevel {
    if Rank(a) < Rank(b) then b else a
  }

  /** `_compute_overall_level` */
  function OverallLevel(flags: seq<Flag>): RiskLevel {
    if flags == [] then Low else Higher(flags[0].level, OverallLevel(flags[1..]))
  }

  function Assess(flags: seq<Flag>): Assessment {
    var level := OverallLevel(flags);
    Assessment(level, flags, Rank(level) >= Rank(Medium))
  }

  function Emitted(rule: RiskRule, data: Payload, s: Setup): seq<Flag> {
    match RuleFlags(rule, data, s)
    case Ok(flags) => flags
    case Raised(_) => []
  }

  function AllFlags(rules: seq<RiskRule>, data: Payload, s: Setup): seq<Flag> {
    if rules == [] then [] else Emitted(rules[0], data, s) + AllFlags(rules[1..], data, s)
  }

  function Flags(data: Payload, s: Setup): seq<Flag> {
    AllFlags(ALL_RULES, data, s)
  }

  ghost predicate RulesRemain(flags: seq<Flag>, rules: seq<RiskRule>, i: nat, data: Payload, s: Setup)
    requires i <= |rules|
  {
    flags + AllFlags(rules[i..], data, s) == AllFlags(rules, data, s)
  }

  lemma NoRuleRun(rules: seq<RiskRule>, data: Payload, s: Setup)
    ensures RulesRemain([], rules, 0, data, s)
  {}

  lemma NextRule(flags: seq<Flag>, rules: seq<RiskRule>, i: nat, data: Payload, s: Setup)
    requires i < |rules| && RulesRemain(flags, rules, i, data, s)
    ensures RulesRemain(flags + Emitted(rules[i], data, s), rules, i + 1, data, s)
  {
    var rest := rules[i + 1..];
    assert rules[i..] == [rules[i]] + rest;
    FirstRule(rules[i], rest, data, s);
    Assoc(flags, Emitted(rules[i], data, s), AllFlags(rest, data, s));
  }

  lemma FirstRule(rule: RiskRule, rest: seq<RiskRule>, data: Payload, s: Setup)
    ensures AllFlags([rule] + rest, data, s) == Emitted(rule, data, s) + AllFlags(rest, data, s)
  {}

  lemma AllRulesRun(flags: seq<Flag>, rules: seq<RiskRule>, data: Payload, s: Setup)
    requires RulesRemain(flags, rules, |rules|, data, s)
    ensures flags == AllFlags(rules, data, s)
  {}

  /** The loop of `detect`: a rule that raises is skipped. */
  method RunRules(rules: seq<RiskRule>, data: Payload, s: Setup) returns (flags: seq<Flag>)
    ensures flags == AllFlags(rules, data, s)
  {
    flags := [];
    NoRuleRun(rules, data, s);
    for i := 0 to |rules|
      invariant RulesRemain(flags, rules, i, data, s)
    {
      NextRule(flags, rules, i, data, s);
      ghost var more := Emitted(rules[i], data, s);
      var result := ExecuteRule(rules[i], data, s);
      if result.Ok? {
        assert more == result.value;
        flags := flags + result.value;
      } else {
        assert flags + more == flags;
      }
    }
    AllRulesRun(flags, rules, data, s);
  }

  /** `RiskDetectionService.detect` */
  method Detect(data: Payload, s: Setup) returns (assessment: Assessment, flags: seq<Flag>)
    ensures flags == Flags(data, s)
    ensures assessment == Assess(flags)
  {
    flags := RunRules(ALL_RULES, data, s);
    assessment := Assess(flags);
  }

  // ---------- Appending transactions ----------

  function Shifted(flags: seq<Flag>, d: nat): seq<Flag> {
    seq(|flags|, k requires 0 <= k < |flags| =>
      if flags[k].transaction.Some? then flags[k].(transaction := Some(flags[k].transaction.value + d)) else flags[k])
  }

  lemma ShiftedConcat(a: seq<Flag>, b: seq<Flag>, d: nat)
    ensures Shifted(a + b, d) == Shifted(a, d) + Shifted(b, d)
  {}

  lemma FlagForShift(rule: RiskRule, txn: Txn, i: nat, d: nat, s: Setup)
    ensures FlagFor(rule, txn, i + d, s) == Shifted(FlagFor(rule, txn, i, s), d)
  {}

  lemma {:induction false} TxnFlagsShift(rule: RiskRule, txns: seq<Txn>, i: nat, d: nat, s: Setup)
    ensures TxnFlags(rule, txns, i + d, s) == Shifted(TxnFlags(rule, txns, i, s), d)
  {
    if txns != [] {
      TxnFlagsShift(rule, txns[1..], i + 1, d, s);
      FlagForShift(rule, txns[0], i, d, s);
      ShiftedConcat(FlagFor(rule, txns[0], i, s), TxnFlags(rule, txns[1..], i + 1, s), d);
    }
  }

  lemma {:induction false} TxnFlagsConcat(rule: RiskRule, a: seq<Txn>, b: seq<Txn>, i: nat, s: Setup)
    ensures TxnFlags(rule, a + b, i, s) == TxnFlags(rule, a, i, s) + TxnFlags(rule, b, i + |a|, s)
  {
    if a == [] {
      assert a + b == b;
    } else {
      var txn, rest := a[0], a[1..];
      assert a == [txn] + rest;
      Assoc([txn], rest, b);
      TxnFlagsConcat(rule, rest, b, i + 1, s);
      FirstTransaction(rule, txn, rest + b, i, s);
      FirstTransaction(rule, txn, rest, i, s);
      Assoc(FlagFor(rule, txn, i, s), TxnFlags(rule, rest, i + 1, s), TxnFlags(rule, b, i + |a|, s));
    }
  }

  /**
   The flags of a longer statement are those of its first part, then those of the second with their numbers
   shifted.
   */
  lemma TxnFlagsAppend(rule: RiskRule, a: seq<Txn>, b: seq<Txn>, i: nat, s: Setup)
    ensures TxnFlags(rule, a + b, i, s) == TxnFlags(rule, a, i, s) + Shifted(TxnFlags(rule, b, i, s), |a|)
  {
    TxnFlagsConcat(rule, a, b, i, s);
    TxnFlagsShift(rule, b, i, |a|, s);
  }

  predicate FlaggedAt(rule: RiskRule, txns: seq<Txn>, k: nat, i: nat, s: Setup, f: Flag) {
    k < |txns| && f in FlagFor(rule, txns[k], i + k, s)
  }

  /** The first transaction, or one behind it. */
  lemma FlaggedBehind(rule: RiskRule, txns: seq<Txn>, rest: seq<Txn>, i: nat, next: nat, s: Setup, f: Flag)
    requires txns != [] && rest == txns[1..] && next == i + 1
    ensures (exists k: nat | k < |txns| :: FlaggedAt(rule, txns, k, i, s, f))
            <==> f in FlagFor(rule, txns[0], i, s) || exists k: nat | k < |rest| :: FlaggedAt(rule, rest, k, next, s, f)
  {
    if k: nat :| k < |txns| && FlaggedAt(rule, txns, k, i, s, f) {
      assert k == 0 || FlaggedAt(rule, rest, k - 1, next, s, f);
    }
    if k: nat :| k < |rest| && FlaggedAt(rule, rest, k, next, s, f) {
      assert FlaggedAt(rule, txns, k + 1, i, s, f);
    }
    assert FlaggedAt(rule, txns, 0, i, s, f) <==> f in FlagFor(rule, txns[0], i, s);
  }

  /** A flag is emitted exactly by the transaction it names. */
  lemma {:induction false} FlaggedBy(rule: RiskRule, txns: seq<Txn>, i: nat, s: Setup, f: Flag)
    ensures f in TxnFlags(rule, txns, i, s) <==> exists k: nat | k < |txns| :: FlaggedAt(rule, txns, k, i, s, f)
  {
    if txns != [] {
      FlaggedBehind(rule, txns, txns[1..], i, i + 1, s, f);
      FlaggedBy(rule, txns[1..], i + 1, s, f);
    }
  }

  lemma {:induction false} EmittedBy(rules: seq<RiskRule>, data: Payload, s: Setup, f: Flag)
    ensures f in AllFlags(rules, data, s) <==> exists rule | rule in rules :: f in Emitted(rule, data, s)
  {
    if rules != [] {
      EmittedBy(rules[1..], data, s, f);
      assert forall rule :: rule in rules <==> rule == rules[0] || rule in rules[1..];
    }
  }

  lemma EveryRuleListed(rule: RiskRule)
    ensures rule in ALL_RULES
  {}

  /** Every rule runs, so a flag is in the result exactly when its rule emits it. */
  lemma FlagsAre(data: Payload, s: Setup, f: Flag)
    ensures f in Flags(data, s) <==> f in Emitted(f.rule, data, s)
  {
    EmittedBy(ALL_RULES, data, s, f);
    forall rule | f in Emitted(rule, data, s) ensures rule == f.rule {
      OwnFlags(rule, data, s, f);
    }
    EveryRuleListed(f.rule);
  }

  lemma OwnFlags(rule: RiskRule, data: Payload, s: Setup, f: Flag)
    requires f in Emitted(rule, data, s)
    ensures f.rule == rule && Rank(f.level) in {1, 2}
  {
    if data.BankStatement? {
      FlaggedBy(rule, data.transactions, 0, s, f);
    }
  }

  // ---------- Monotonicity ----------

  /** Thresholds at most as high; the terms looked for are the same. */
  ghost predicate Stricter(s: Setup, than: Setup) {
    && s.large <= than.large && s.round <= than.round && s.velocity <= than.velocity
    && s.keywords == than.keywords && forall text :: s.lower(text) == than.lower(text)
  }

  lemma TxnFlagKept(rule: RiskRule, txn: Txn, i: nat, s: Setup, strict: Setup)
    requires Stricter(strict, s)
    ensures forall f | f in FlagFor(rule, txn, i, s) :: f in FlagFor(rule, txn, i, strict)
  {}

  lemma TxnFlagsKept(rule: RiskRule, a: seq<Txn>, b: seq<Txn>, s: Setup, strict: Setup, f: Flag)
    requires Stricter(strict, s) && f in TxnFlags(rule, a, 0, s)
    ensures f in TxnFlags(rule, a + b, 0, strict)
  {
    FlaggedBy(rule, a, 0, s, f);
    var k: nat :| k < |a| && FlaggedAt(rule, a, k, 0, s, f);
    TxnFlagKept(rule, a[k], k, s, strict);
    assert FlaggedAt(rule, a + b, k, 0, strict, f);
    FlaggedBy(rule, a + b, 0, strict, f);
  }

  lemma EmittedKept(rule: RiskRule, a: seq<Txn>, b: seq<Txn>, closing: Field, s: Setup, strict: Setup, f: Flag)
    requires Stricter(strict, s) && f in Emitted(rule, BankStatement(a, closing), s)
    ensures f in Emitted(rule, BankStatement(a + b, closing), strict)
  {
    if f in TxnFlags(rule, a, 0, s) {
      TxnFlagsKept(rule, a, b, s, strict, f);
    }
  }

  lemma FlagKept(a: seq<Txn>, b: seq<Txn>, closing: Field, s: Setup, strict: Setup, f: Flag)
    requires Stricter(strict, s) && f in Flags(BankStatement(a, closing), s)
    ensures f in Flags(BankStatement(a + b, closing), strict)
  {
    FlagsAre(BankStatement(a, closing), s, f);
    FlagsAre(BankStatement(a + b, closing), strict, f);
    EmittedKept(f.rule, a, b, closing, s, strict, f);
  }

  lemma {:induction false} LevelIsMaximum(flags: seq<Flag>)
    ensures forall f | f in flags :: Rank(f.level) <= Rank(OverallLevel(flags))
    ensures OverallLevel(flags) == Low || exists f | f in flags :: f.level == OverallLevel(flags)
  {
    if flags != [] {
      LevelIsMaximum(flags[1..]);
      assert flags[0] in flags;
      assert forall f :: f in flags <==> f == flags[0] || f in flags[1..];
    }
  }

  /** More transactions or lower thresholds lose no flag and never lower the level or lift the call for review. */
  lemma RiskIsMonotone(a: seq<Txn>, b: seq<Txn>, closing: Field, s: Setup, strict: Setup)
    requires Stricter(strict, s)
    ensures var before := Flags(BankStatement(a, closing), s);
            var after := Flags(BankStatement(a + b, closing), strict);
            && (forall f | f in before :: f in after)
            && Rank(OverallLevel(before)) <= Rank(OverallLevel(after))
            && (Assess(before).requiresReview ==> Assess(after).requiresReview)
  {
    var before := Flags(BankStatement(a, closing), s);
    forall f | f in before ensures f in Flags(BankStatement(a + b, closing), strict) {
      FlagKept(a, b, closing, s, strict, f);
    }
    LevelIsMaximum(before);
    LevelIsMaximum(Flags(BankStatement(a + b, closing), strict));
  }

  // ---------- What the level and the call for review mean ----------

  /** Review is called for exactly when anything was flagged. */
  lemma ReviewIffFlagged(data: Payload, s: Setup)
    ensures Assess(Flags(data, s)).requiresReview <==> Flags(data, s) != []
  {
    var flags := Flags(data, s);
    LevelIsMaximum(flags);
    if flags != [] {
      assert flags[0] in flags;
      FlagsAre(data, s, flags[0]);
      OwnFlags(flags[0].rule, data, s, flags[0]);
    }
  }

  /** A walk of the keyword set. */
  ghost predicate WalksKeywords(order: seq<string>) {
    forall t :: t in order <==> t in KEYWORDS
  }

  predicate Mentions(terms: seq<string>, text: string) {
    exists t | t in terms :: Contains(text, t)
  }

  lemma {:induction false} FirstInFinds(terms: seq<string>, text: string)
    ensures FirstIn(terms, text).Some? <==> Mentions(terms, text)
  {
    if terms != [] {
      FirstInFinds(terms[1..], text);
      assert forall t :: t in terms <==> t == terms[0] || t in terms[1..];
    }
  }

  lemma HighTransaction(rule: RiskRule, txn: Txn, i: nat, s: Setup, f: Flag)
    requires f in FlagFor(rule, txn, i, s) && f.level == High
    ensures AtLeast(txn.amount, s.large) || FirstIn(s.keywords, Described(txn, s)).Some?
  {}

  lemma HighRule(data: Payload, s: Setup, f: Flag)
    requires f in Flags(data, s)
    ensures Rank(f.level) in {1, 2}
    ensures f.level == High ==> data.BankStatement? && f in TxnFlags(f.rule, data.transactions, 0, s)
  {
    FlagsAre(data, s, f);
    OwnFlags(f.rule, data, s, f);
  }

  lemma HighCause(txns: seq<Txn>, closing: Field, s: Setup, f: Flag)
    requires f in Flags(BankStatement(txns, closing), s) && f.level == High
    ensures exists k | 0 <= k < |txns| ::
              AtLeast(txns[k].amount, s.large) || Mentions(s.keywords, Described(txns[k], s))
  {
    HighRule(BankStatement(txns, closing), s, f);
    FlaggedBy(f.rule, txns, 0, s, f);
    var k: nat :| k < |txns| && FlaggedAt(f.rule, txns, k, 0, s, f);
    HighTransaction(f.rule, txns[k], k, s, f);
    FirstInFinds(s.keywords, Described(txns[k], s));
  }

  /** No run is critical, and it is high exactly for a large transfer or a keyword in some description. */
  lemma HighIff(txns: seq<Txn>, closing: Field, s: Setup)
    requires WalksKeywords(s.keywords)
    ensures var level := OverallLevel(Flags(BankStatement(txns, closing), s));
            && level != Critical
            && (level == High <==> exists k | 0 <= k < |txns| ::
                 AtLeast(txns[k].amount, s.large) || exists t | t in KEYWORDS :: Contains(Described(txns[k], s), t))
  {
    var data := BankStatement(txns, closing);
    var flags := Flags(data, s);
    LevelIsMaximum(flags);
    if f :| f in flags && f.level == OverallLevel(flags) {
      HighRule(data, s, f);
      if f.level == High {
        HighCause(txns, closing, s, f);
      }
    }
    forall k | 0 <= k < |txns| && (AtLeast(txns[k].amount, s.large) || Mentions(s.keywords, Described(txns[k], s)))
      ensures Rank(OverallLevel(flags)) >= Rank(High)
    {
      HighFlag(txns, closing, s, k);
    }
  }

  lemma HighFlag(txns: seq<Txn>, closing: Field, s: Setup, k: nat)
    requires k < |txns|
    requires AtLeast(txns[k].amount, s.large) || Mentions(s.keywords, Described(txns[k], s))
    ensures exists f | f in Flags(BankStatement(txns, closing), s) :: f.level == High
  {
    var term := FirstIn(s.keywords, Described(txns[k], s));
    FirstInFinds(s.keywords, Described(txns[k], s));
    var f := if AtLeast(txns[k].amount, s.large) then Flag(LargeTransfer, High, Some(k), None)
             else Flag(HighRiskJurisdiction, High, Some(k), term);
    assert FlaggedAt(f.rule, txns, k, 0, s, f);
    FlaggedBy(f.rule, txns, 0, s, f);
    FlagsAre(BankStatement(txns, closing), s, f);
  }

  // ---------- What is flagged, in amounts and words ----------

  /** The amount is that far from zero. */
  ghost predicate Reaches(txn: Txn, threshold: real) {
    txn.amount.Some? && (txn.amount.value >= threshold || -txn.amount.value >= threshold)
  }

  ghost predicate Thousands(amount: real, n: int) {
    amount == 1000.0 * n as real
  }

  ghost predicate Round(txn: Txn) {
    txn.amount.Some? && exists n :: Thousands(txn.amount.value, n)
  }

  /** One of the terms stands in the lowered description; without a description, in that of the empty text. */
  ghost predicate Names(txn: Txn, s: Setup, terms: set<string>) {
    var text := s.lower(match txn.description { case Some(d) => d case None => "" });
    exists t | t in terms :: Contains(text, t)
  }

  ghost predicate NamesHaven(txn: Txn, s: Setup) {
    Names(txn, s, {"offshore", "cayman", "bvi", "british virgin", "panama", "seychelles",
                   "vanuatu", "samoa", "nauru", "anonymous", "bearer"})
  }

  ghost predicate NamesTransfer(txn: Txn, s: Setup) {
    Names(txn, s, {"cash deposit", "currency exchange", "money order", "wire transfer", "telegraphic transfer", "tt "})
  }

  lemma RoundIsMultiple(x: real)
    ensures MultipleOf1000(x) <==> exists n :: Thousands(x, n)
  {
    if MultipleOf1000(x) {
      assert Thousands(x, (x / 1000.0).Floor);
    }
    if n :| Thousands(x, n) {
      assert x / 1000.0 == n as real;
    }
  }

  predicate PerTransaction(rule: RiskRule) {
    rule in {LargeTransfer, RoundNumber, HighRiskJurisdiction, UnusualCounterparty}
  }

  lemma OwnTransaction(rule: RiskRule, txn: Txn, i: nat, s: Setup, f: Flag)
    requires f in FlagFor(rule, txn, i, s)
    ensures PerTransaction(rule) && f.rule == rule && f.transaction == Some(i)
  {}

  lemma FlaggedInTransaction(txns: seq<Txn>, s: Setup, k: nat, f: Flag)
    requires f.transaction == Some(k)
    ensures f in TxnFlags(f.rule, txns, 0, s) <==> k < |txns| && f in FlagFor(f.rule, txns[k], k, s)
  {
    FlaggedBy(f.rule, txns, 0, s, f);
    if j: nat :| j < |txns| && FlaggedAt(f.rule, txns, j, 0, s, f) {
      OwnTransaction(f.rule, txns[j], j, s, f);
    }
    assert k < |txns| && f in FlagFor(f.rule, txns[k], k, s) <==> FlaggedAt(f.rule, txns, k, 0, s, f);
  }

  lemma TransactionFlagIff(txns: seq<Txn>, closing: Field, s: Setup, k: nat, f: Flag)
    requires PerTransaction(f.rule) && f.transaction == Some(k)
    ensures f in Flags(BankStatement(txns, closing), s) <==> k < |txns| && f in FlagFor(f.rule, txns[k], k, s)
  {
    FlagsAre(BankStatement(txns, closing), s, f);
    FlaggedInTransaction(txns, s, k, f);
  }

  lemma LargeTransferIff(txns: seq<Txn>, closing: Field, s: Setup, k: nat)
    ensures Flag(LargeTransfer, High, Some(k), None) in Flags(BankStatement(txns, closing), s)
            <==> k < |txns| && Reaches(txns[k], s.large)
  {
    TransactionFlagIff(txns, closing, s, k, Flag(LargeTransfer, High, Some(k), None));
  }

  lemma RoundNumberIff(txns: seq<Txn>, closing: Field, s: Setup, k: nat)
    ensures Flag(RoundNumber, Medium, Some(k), None) in Flags(BankStatement(txns, closing), s)
            <==> k < |txns| && Reaches(txns[k], s.round) && Round(txns[k])
  {
    TransactionFlagIff(txns, closing, s, k, Flag(RoundNumber, Medium, Some(k), None));
    if k < |txns| && txns[k].amount.Some? {
      RoundIsMultiple(txns[k].amount.value);
    }
  }

  lemma HighVelocityIff(txns: seq<Txn>, closing: Field, s: Setup)
    ensures Flag(HighVelocity, Medium, None, None) in Flags(BankStatement(txns, closing), s) <==> |txns| > s.velocity
  {
    FlagsAre(BankStatement(txns, closing), s, Flag(HighVelocity, Medium, None, None));
  }

  lemma NegativeBalanceIff(txns: seq<Txn>, closing: Field, s: Setup)
    ensures Flag(NegativeBalance, Medium, None, None) in Flags(BankStatement(txns, closing), s)
            <==> closing.Num? && closing.amount < 0.0
  {
    FlagsAre(BankStatement(txns, closing), s, Flag(NegativeBalance, Medium, None, None));
  }

  /** The description of transaction k has the term, and no earlier term of the list. */
  ghost predicate FirstNamed(terms: seq<string>, text: string, t: string) {
    exists i | 0 <= i < |terms| ::
      terms[i] == t && Contains(text, terms[i]) && forall j | 0 <= j < i :: !Contains(text, terms[j])
  }

  lemma {:induction false} FirstInIs(terms: seq<string>, text: string, t: string)
    ensures FirstIn(terms, text) == Some(t) <==> FirstNamed(terms, text, t)
  {
    if terms != [] {
      var rest := terms[1..];
      FirstInIs(rest, text, t);
      if Contains(text, terms[0]) {
        if i :| 0 <= i < |terms| && terms[i] == t && forall j | 0 <= j < i :: !Contains(text, terms[j]) {
          assert i == 0;
        }
      } else {
        FirstBehind(terms, rest, text, t);
      }
    }
  }

  lemma FirstBehind(terms: seq<string>, rest: seq<string>, text: string, t: string)
    requires terms != [] && rest == terms[1..] && !Contains(text, terms[0])
    ensures FirstNamed(rest, text, t) <==> FirstNamed(terms, text, t)
  {
    if i :| 0 <= i < |rest| && rest[i] == t && Contains(text, rest[i])
            && forall j | 0 <= j < i :: !Contains(text, rest[j]) {
      assert terms[i + 1] == t;
      assert forall j | 1 <= j < i + 1 :: terms[j] == rest[j - 1];
    }
    if i :| 0 <= i < |terms| && terms[i] == t && Contains(text, terms[i])
            && forall j | 0 <= j < i :: !Contains(text, terms[j]) {
      assert rest[i - 1] == t;
      assert forall j | 0 <= j < i - 1 :: rest[j] == terms[j + 1];
    }
  }

  /**
   A keyword flag quotes the first keyword of the walk in the description; there is one exactly if some keyword
   is.
   */
  lemma HighRiskJurisdictionIff(txns: seq<Txn>, closing: Field, s: Setup, k: nat, t: string)
    ensures Flag(HighRiskJurisdiction, High, Some(k), Some(t)) in Flags(BankStatement(txns, closing), s)
            <==> k < |txns| && FirstNamed(s.keywords, Described(txns[k], s), t)
  {
    TransactionFlagIff(txns, closing, s, k, Flag(HighRiskJurisdiction, High, Some(k), Some(t)));
    if k < |txns| {
      FirstInIs(s.keywords, Described(txns[k], s), t);
    }
  }

  /** A transfer flag quotes the first of six terms, in this order, that the description has. */
  lemma UnusualCounterpartyIff(txns: seq<Txn>, closing: Field, s: Setup, k: nat, t: string)
    ensures Flag(UnusualCounterparty, Medium, Some(k), Some(t)) in Flags(BankStatement(txns, closing), s)
            <==> k < |txns| && FirstNamed(["cash deposit", "currency exchange", "money order", "wire transfer",
                                           "telegraphic transfer", "tt "], Described(txns[k], s), t)
  {
    TransactionFlagIff(txns, closing, s, k, Flag(UnusualCounterparty, Medium, Some(k), Some(t)));
    if k < |txns| {
      FirstInIs(PATTERNS, Described(txns[k], s), t);
    }
  }

  lemma KeywordsAre(txn: Txn, s: Setup)
    requires WalksKeywords(s.keywords)
    ensures Mentions(s.keywords, Described(txn, s)) <==> NamesHaven(txn, s)
  {
    forall t ensures t in s.keywords <==>
                     t in {"offshore", "cayman", "bvi", "british virgin", "panama", "seychelles",
                           "vanuatu", "samoa", "nauru", "anonymous", "bearer"}
    {}
  }

  lemma PatternsAre(txn: Txn, s: Setup)
    ensures Mentions(PATTERNS, Described(txn, s)) <==> NamesTransfer(txn, s)
  {
    forall t ensures t in PATTERNS <==>
                     t in {"cash deposit", "currency exchange", "money order", "wire transfer",
                           "telegraphic transfer", "tt "}
    {
      assert PATTERNS[0] == "cash deposit" && PATTERNS[1] == "currency exchange" && PATTERNS[2] == "money order";
      assert PATTERNS[3] == "wire transfer" && PATTERNS[4] == "telegraphic transfer" && PATTERNS[5] == "tt ";
    }
  }

  /** Transaction k has a flag of the rule. */
  ghost predicate HasFlag(flags: seq<Flag>, rule: RiskRule, level: RiskLevel, k: nat) {
    exists term :: Flag(rule, level, Some(k), term) in flags
  }

  lemma TermFlagIff(txns: seq<Txn>, closing: Field, s: Setup, k: nat, rule: RiskRule, level: RiskLevel)
    requires k < |txns|
    requires (rule == HighRiskJurisdiction && level == High) || (rule == UnusualCounterparty && level == Medium)
    ensures HasFlag(Flags(BankStatement(txns, closing), s), rule, level, k)
            <==> Mentions(if rule == UnusualCounterparty then PATTERNS else s.keywords, Described(txns[k], s))
  {
    var terms := if rule == UnusualCounterparty then PATTERNS else s.keywords;
    var text := Described(txns[k], s);
    FirstInFinds(terms, text);
    forall term ensures Flag(rule, level, Some(k), term) in Flags(BankStatement(txns, closing), s)
                        <==> term.Some? && FirstIn(terms, text) == term
    {
      TransactionFlagIff(txns, closing, s, k, Flag(rule, level, Some(k), term));
    }
  }

  /** A transaction is flagged for a haven or for a kind of transfer exactly if its description names one of them. */
  lemma DescriptionFlagsIff(txns: seq<Txn>, closing: Field, s: Setup, k: nat)
    requires k < |txns| && WalksKeywords(s.keywords)
    ensures var flags := Flags(BankStatement(txns, closing), s);
            && (HasFlag(flags, HighRiskJurisdiction, High, k) <==> NamesHaven(txns[k], s))
            && (HasFlag(flags, UnusualCounterparty, Medium, k) <==> NamesTransfer(txns[k], s))
  {
    TermFlagIff(txns, closing, s, k, HighRiskJurisdiction, High);
    TermFlagIff(txns, closing, s, k, UnusualCounterparty, Medium);
    KeywordsAre(txns[k], s);
    PatternsAre(txns[k], s);
  }

  /** What any flag looks like. */
  ghost predicate Shaped(f: Flag, txns: seq<Txn>) {
    match f.rule
    case LargeTransfer => f.level == High && f.transaction.Some? && f.transaction.value < |txns| && f.term.None?
    case RoundNumber => f.level == Medium && f.transaction.Some? && f.transaction.value < |txns| && f.term.None?
    case HighVelocity => f == Flag(HighVelocity, Medium, None, None)
    case NegativeBalance => f == Flag(NegativeBalance, Medium, None, None)
    case HighRiskJurisdiction => f.level == High && f.transaction.Some? && f.transaction.value < |txns| && f.term.Some?
    case UnusualCounterparty => f.level == Medium && f.transaction.Some? && f.transaction.value < |txns| && f.term.Some?
  }

  lemma FlagsAreShaped(txns: seq<Txn>, closing: Field, s: Setup, f: Flag)
    requires f in Flags(BankStatement(txns, closing), s)
    ensures Shaped(f, txns)
  {
    FlagsAre(BankStatement(txns, closing), s, f);
    FlaggedBy(f.rule, txns, 0, s, f);
  }

  /** Some transaction is large, or names a haven. */
  ghost predicate HighRisk(txns: seq<Txn>, s: Setup) {
    exists k | 0 <= k < |txns| :: Reaches(txns[k], s.large) || NamesHaven(txns[k], s)
  }

  /**
   There are many transactions, the balance is negative, or some transaction is large and round or names a
   transfer.
   */
  ghost predicate MediumRisk(txns: seq<Txn>, closing: Field, s: Setup) {
    || |txns| > s.velocity
    || (closing.Num? && closing.amount < 0.0)
    || exists k | 0 <= k < |txns| :: (Reaches(txns[k], s.round) && Round(txns[k])) || NamesTransfer(txns[k], s)
  }

  lemma FlagHasCause(txns: seq<Txn>, closing: Field, s: Setup, f: Flag)
    requires f in Flags(BankStatement(txns, closing), s) && WalksKeywords(s.keywords)
    ensures if f.level == High then HighRisk(txns, s) else f.level == Medium && MediumRisk(txns, closing, s)
  {
    FlagsAreShaped(txns, closing, s, f);
    match f.rule
    case HighVelocity => HighVelocityIff(txns, closing, s);
    case NegativeBalance => NegativeBalanceIff(txns, closing, s);
    case LargeTransfer => LargeTransferIff(txns, closing, s, f.transaction.value);
    case RoundNumber => RoundNumberIff(txns, closing, s, f.transaction.value);
    case _ => DescriptionFlagsIff(txns, closing, s, f.transaction.value);
  }

  lemma CauseHasFlag(txns: seq<Txn>, closing: Field, s: Setup, level: RiskLevel)
    requires WalksKeywords(s.keywords)
    requires (level == High && HighRisk(txns, s)) || (level == Medium && MediumRisk(txns, closing, s))
    ensures exists f | f in Flags(BankStatement(txns, closing), s) :: f.level == level
  {
    HighVelocityIff(txns, closing, s);
    NegativeBalanceIff(txns, closing, s);
    forall k: nat | k < |txns|
      ensures Flag(LargeTransfer, High, Some(k), None) in Flags(BankStatement(txns, closing), s)
              <==> Reaches(txns[k], s.large)
      ensures Flag(RoundNumber, Medium, Some(k), None) in Flags(BankStatement(txns, closing), s)
              <==> Reaches(txns[k], s.round) && Round(txns[k])
      ensures NamesHaven(txns[k], s) ==>
                HasFlag(Flags(BankStatement(txns, closing), s), HighRiskJurisdiction, High, k)
      ensures NamesTransfer(txns[k], s) ==>
                HasFlag(Flags(BankStatement(txns, closing), s), UnusualCounterparty, Medium, k)
    {
      LargeTransferIff(txns, closing, s, k);
      RoundNumberIff(txns, closing, s, k);
      DescriptionFlagsIff(txns, closing, s, k);
    }
  }

  /** The assessment of a statement: exactly when it is high, medium or low, and when it calls for a review. */
  lemma AssessmentIs(txns: seq<Txn>, closing: Field, s: Setup)
    requires WalksKeywords(s.keywords)
    ensures var a := Assess(Flags(BankStatement(txns, closing), s));
            && a.level == (if HighRisk(txns, s) then High else if MediumRisk(txns, closing, s) then Medium else Low)
            && (a.requiresReview <==> HighRisk(txns, s) || MediumRisk(txns, closing, s))
            && a.flags == Flags(BankStatement(txns, closing), s)
  {
    var flags := Flags(BankStatement(txns, closing), s);
    LevelIsMaximum(flags);
    forall f | f in flags
      ensures if f.level == High then HighRisk(txns, s) else f.level == Medium && MediumRisk(txns, closing, s)
    {
      FlagHasCause(txns, closing, s, f);
    }
    if HighRisk(txns, s) {
      CauseHasFlag(txns, closing, s, High);
    } else if MediumRisk(txns, closing, s) {
      CauseHasFlag(txns, closing, s, Medium);
    }
  }

  /** Nothing but a bank statement is ever flagged. */
  lemma OtherPayloadsAreLow(s: Setup)
    ensures Assess(Flags(OtherPayload, s)) == Assessment(Low, [], false)
  {
    var flags := Flags(OtherPayload, s);
    if flags != [] {
      FlagsAre(OtherPayload, s, flags[0]);
      assert false;
    }
  }

  // ---------- The order of the flags ----------

  function RuleNumber(rule: RiskRule): nat {
    match rule
    case LargeTransfer => 1
    case RoundNumber => 2
    case HighVelocity => 3
    case NegativeBalance => 4
    case HighRiskJurisdiction => 5
    case UnusualCounterparty => 6
  }

  /** An earlier rule, or an earlier transaction for the same rule. */
  ghost predicate Earlier(f: Flag, g: Flag) {
    || RuleNumber(f.rule) < RuleNumber(g.rule)
    || (f.rule == g.rule && f.transaction.Some? && g.transaction.Some? && f.transaction.value < g.transaction.value)
  }

  ghost predicate Ordered(flags: seq<Flag>) {
    forall a, b | 0 <= a < b < |flags| :: Earlier(flags[a], flags[b])
  }

  lemma OrderedConcat(x: seq<Flag>, y: seq<Flag>)
    requires Ordered(x) && Ordered(y) && forall f, g | f in x && g in y :: Earlier(f, g)
    ensures Ordered(x + y)
  {}

  lemma {:induction false} TxnFlagsOrdered(rule: RiskRule, txns: seq<Txn>, i: nat, s: Setup)
    ensures Ordered(TxnFlags(rule, txns, i, s))
    ensures forall f | f in TxnFlags(rule, txns, i, s) ::
              f.rule == rule && f.transaction.Some? && f.transaction.value >= i
  {
    if txns != [] {
      TxnFlagsOrdered(rule, txns[1..], i + 1, s);
      OrderedConcat(FlagFor(rule, txns[0], i, s), TxnFlags(rule, txns[1..], i + 1, s));
    }
  }

  lemma EmittedOrdered(rule: RiskRule, data: Payload, s: Setup)
    ensures Ordered(Emitted(rule, data, s)) && forall f | f in Emitted(rule, data, s) :: f.rule == rule
  {
    if data.BankStatement? {
      TxnFlagsOrdered(rule, data.transactions, 0, s);
    }
  }

  lemma {:induction false} AllFlagsOrdered(rules: seq<RiskRule>, data: Payload, s: Setup)
    requires forall a, b | 0 <= a < b < |rules| :: RuleNumber(rules[a]) < RuleNumber(rules[b])
    ensures Ordered(AllFlags(rules, data, s)) && forall f | f in AllFlags(rules, data, s) :: f.rule in rules
  {
    if rules != [] {
      AllFlagsOrdered(rules[1..], data, s);
      EmittedOrdered(rules[0], data, s);
      forall f, g | f in Emitted(rules[0], data, s) && g in AllFlags(rules[1..], data, s) ensures Earlier(f, g) {
        var b :| 0 <= b < |rules[1..]| && rules[1..][b] == g.rule;
        assert RuleNumber(rules[0]) < RuleNumber(rules[b + 1]);
      }
      OrderedConcat(Emitted(rules[0], data, s), AllFlags(rules[1..], data, s));
    }
  }

  /** The flags come rule by rule and, for each rule, transaction by transaction; so none comes twice. */
  lemma FlagsOrdered(data: Payload, s: Setup)
    ensures Ordered(Flags(data, s))
  {
    AllFlagsOrdered(ALL_RULES, data, s);
  }

  // ---------- The keyword set has no order ----------

  /** The flags without the keyword they quote. */
  function Unquoted(flags: seq<Flag>): seq<Flag> {
    seq(|flags|, k requires 0 <= k < |flags| => flags[k].(term := None))
  }

  predicate SameTerms(a: seq<string>, b: seq<string>) {
    (forall t | t in a :: t in b) && forall t | t in b :: t in a
  }

  lemma UnquotedConcat(a: seq<Flag>, b: seq<Flag>)
    ensures Unquoted(a + b) == Unquoted(a) + Unquoted(b)
  {}

  lemma FlagForAnyOrder(rule: RiskRule, txn: Txn, i: nat, s: Setup, order: seq<string>)
    requires SameTerms(s.keywords, order)
    ensures Unquoted(FlagFor(rule, txn, i, s)) == Unquoted(FlagFor(rule, txn, i, s.(keywords := order)))
  {
    FirstInFinds(s.keywords, Described(txn, s));
    FirstInFinds(order, Described(txn, s));
    assert Described(txn, s) == Described(txn, s.(keywords := order));
  }

  lemma {:induction false} TxnFlagsAnyOrder(rule: RiskRule, txns: seq<Txn>, i: nat, s: Setup, order: seq<string>)
    requires SameTerms(s.keywords, order)
    ensures Unquoted(TxnFlags(rule, txns, i, s)) == Unquoted(TxnFlags(rule, txns, i, s.(keywords := order)))
  {
    if txns != [] {
      var other := s.(keywords := order);
      TxnFlagsAnyOrder(rule, txns[1..], i + 1, s, order);
      FlagForAnyOrder(rule, txns[0], i, s, order);
      UnquotedConcat(FlagFor(rule, txns[0], i, s), TxnFlags(rule, txns[1..], i + 1, s));
      UnquotedConcat(FlagFor(rule, txns[0], i, other), TxnFlags(rule, txns[1..], i + 1, other));
    }
  }

  lemma {:induction false} AllFlagsAnyOrder(rules: seq<RiskRule>, data: Payload, s: Setup, order: seq<string>)
    requires SameTerms(s.keywords, order)
    ensures Unquoted(AllFlags(rules, data, s)) == Unquoted(AllFlags(rules, data, s.(keywords := order)))
  {
    if rules != [] {
      var other := s.(keywords := order);
      AllFlagsAnyOrder(rules[1..], data, s, order);
      UnquotedConcat(Emitted(rules[0], data, s), AllFlags(rules[1..], data, s));
      UnquotedConcat(Emitted(rules[0], data, other), AllFlags(rules[1..], data, other));
      if data.BankStatement? {
        TxnFlagsAnyOrder(rules[0], data.transactions, 0, s, order);
      }
    }
  }

  lemma {:induction false} LevelIgnoresTerms(flags: seq<Flag>)
    ensures OverallLevel(Unquoted(flags)) == OverallLevel(flags)
  {
    if flags != [] {
      assert Unquoted(flags)[1..] == Unquoted(flags[1..]);
      LevelIgnoresTerms(flags[1..]);
    }
  }

  /** In whatever order the keyword set is walked, the same transactions are flagged and the assessment is the same. */
  lemma KeywordOrderIsIrrelevant(data: Payload, s: Setup, order: seq<string>)
    requires WalksKeywords(s.keywords) && WalksKeywords(order)
    ensures var other := s.(keywords := order);
            && Unquoted(Flags(data, s)) == Unquoted(Flags(data, other))
            && OverallLevel(Flags(data, s)) == OverallLevel(Flags(data, other))
            && (Assess(Flags(data, s)).requiresReview <==> Assess(Flags(data, other)).requiresReview)
  {
    AllFlagsAnyOrder(ALL_RULES, data, s, order);
    LevelIgnoresTerms(Flags(data, s));
    LevelIgnoresTerms(Flags(data, s.(keywords := order)));
  }
}
