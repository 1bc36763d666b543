/**
 * Validation rules over extracted amounts and the engine that runs them
 * (app/services/validation, app/schemas/validation.py), over exact reals.
 */
module Validation {
  import opened Text

  /** An extracted field's value: any JSON value. Arithmetic on a value that is no number raises. */
  datatype Field = Null | Num(amount: real) | Words(text: string) | Other

  datatype Data =
    | Statement(opening: Field, closing: Field, credits: Field, debits: Field, start: Field, end: Field)
    | Invoice(subtotal: Field, tax: Field, total: Field, lines: seq<Option<real>>)
    | Portfolio

  datatype Severity = Error | Warning

  datatype Violation = Violation(rule: string, severity: Severity)

  type Outcome = Result<seq<Violation>>

  datatype Rule = Rule(name: string, execute: Data -> Outcome)

  const TOLERANCE := 0.01

  function Abs(x: real): real {
    if x < 0.0 then -x else x
  }

  function Silent(): Outcome {
    Ok([])
  }

  function OneViolation(name: string, severity: Severity): Outcome {
    Ok([Violation(name, severity)])
  }

  // ---------- The rules over amounts ----------

  const BALANCE := "balance_consistency"
  const TOTALS := "invoice_totals_consistency"
  const LINES := "line_items_total"

  function BalanceConsistency(data: Data): Outcome {
    match data
    case Statement(opening, closing, credits, debits, _, _) =>
      if Null in {opening, closing, credits, debits} then OneViolation(BALANCE, Warning)
      else if !(opening.Num? && closing.Num? && credits.Num? && debits.Num?) then Raised("TypeError")
      else if Abs(opening.amount + credits.amount - debits.amount - closing.amount) > TOLERANCE
        then OneViolation(BALANCE, Error)
      else Silent()
    case _ => Silent()
  }

  function InvoiceTotals(data: Data): Outcome {
    match data
    case Invoice(subtotal, tax, total, _) =>
      if Null in {subtotal, tax, total} then OneViolation(TOTALS, Warning)
      else if !(subtotal.Num? && tax.Num? && total.Num?) then Raised("TypeError")
      else if Abs(subtotal.amount + tax.amount - total.amount) > TOLERANCE then OneViolation(TOTALS, Error)
      else Silent()
    case _ => Silent()
  }

  /** The totals of the line items that have one. */
  function LineTotals(lines: seq<Option<real>>): seq<real> {
    if lines == [] then []
    else (if lines[0].Some? then [lines[0].value] else []) + LineTotals(lines[1..])
  }

  function Sum(amounts: seq<real>): real {
    if amounts == [] then 0.0 else amounts[0] + Sum(amounts[1..])
  }

  function LineItemsTotal(data: Data): Outcome {
    match data
    case Invoice(subtotal, _, _, lines) =>
      if lines == [] || subtotal == Null then Silent()
      else
        var totals := LineTotals(lines);
        if totals == [] then Silent()
        else if !subtotal.Num? then Raised("TypeError")
        else if Abs(Sum(totals) - subtotal.amount) > TOLERANCE then OneViolation(LINES, Warning)
        else Silent()
    case _ => Silent()
  }

  // ---------- The engine ----------

  datatype ValidationResult =
    ValidationResult(passed: bool, violations: seq<Violation>, errorCount: nat, warningCount: nat)

  function CountOf(violations: seq<Violation>, severity: Severity): nat {
    if violations == [] then 0
    else (if violations[0].severity == severity then 1 else 0) + CountOf(violations[1..], severity)
  }

  /** `ValidationResult.from_violations` */
  function FromViolations(violations: seq<Violation>): ValidationResult {
    var errors := CountOf(violations, Error);
    ValidationResult(errors == 0, violations, errors, CountOf(violations, Warning))
  }

  /** What one rule contributes; a rule that raises contributes one warning in its own name. */
  function RuleReport(rule: Rule, data: Data): seq<Violation> {
    match rule.execute(data)
    case Ok(violations) => violations
    case Raised(_) => [Violation(rule.name, Warning)]
  }

  function Report(rules: seq<Rule>, data: Data): seq<Violation> {
    if rules == [] then [] else RuleReport(rules[0], data) + Report(rules[1..], data)
  }

  lemma ReportStep(all: seq<Violation>, rules: seq<Rule>, i: nat, data: Data)
    requires i < |rules|
    ensures all + Report(rules[i..], data) == all + RuleReport(rules[i], data) + Report(rules[i + 1..], data)
  {}

  /** `ValidationEngine.run` */
  method RunRules(rules: seq<Rule>, data: Data) returns (result: ValidationResult)
    ensures result == FromViolations(Report(rules, data))
  {
    var all: seq<Violation> := [];
    for i := 0 to |rules|
      invariant all + Report(rules[i..], data) == Report(rules, data)
    {
      ReportStep(all, rules, i, data);
      match rules[i].execute(data)
      case Ok(violations) => all := all + violations;
      case Raised(_) => all := all + [Violation(rules[i].name, Warning)];
    }
    assert all == Report(rules, data) by {
      assert rules[|rules|..] == [];
    }
    result := FromViolations(all);
  }

  // ---------- What a result says ----------

  lemma {:induction false} CountZero(violations: seq<Violation>, severity: Severity)
    ensures CountOf(violations, severity) == 0 <==> forall v | v in violations :: v.severity != severity
  {
    if violations != [] {
      CountZero(violations[1..], severity);
      assert forall v :: v in violations <==> v == violations[0] || v in violations[1..];
    }
  }

  lemma {:induction false} CountsAddUp(violations: seq<Violation>)
    ensures var r := FromViolations(violations); r.errorCount + r.warningCount == |r.violations|
  {
    if violations != [] {
      CountsAddUp(violations[1..]);
    }
  }

  /** A violation is reported exactly when some rule contributes it. */
  lemma {:induction false} ReportedBy(rules: seq<Rule>, data: Data, v: Violation)
    ensures v in Report(rules, data) <==> exists rule | rule in rules :: v in RuleReport(rule, data)
  {
    if rules != [] {
      ReportedBy(rules[1..], data, v);
      assert forall rule :: rule in rules <==> rule == rules[0] || rule in rules[1..];
    }
  }

  /** The rules report in their order: what the first ones say, then what the rest say. */
  lemma {:induction false} ReportAppend(a: seq<Rule>, b: seq<Rule>, data: Data)
    ensures Report(a + b, data) == Report(a, data) + Report(b, data)
  {
    if a == [] {
      assert a + b == b;
    } else {
      assert (a + b)[1..] == a[1..] + b;
      ReportAppend(a[1..], b, data);
    }
  }

  /** The data passes exactly when no rule that returned normally emitted an error: a raising rule blocks nothing. */
  lemma PassedIff(rules: seq<Rule>, data: Data)
    ensures FromViolations(Report(rules, data)).passed
            <==> forall rule | rule in rules && rule.execute(data).Ok? ::
                   forall v | v in rule.execute(data).value :: v.severity == Warning
  {
    CountZero(Report(rules, data), Error);
    forall v ensures v in Report(rules, data) <==> exists rule | rule in rules :: v in RuleReport(rule, data) {
      ReportedBy(rules, data, v);
    }
  }

  // ---------- Tolerances compose ----------

  const TOTALS_RULE := Rule(TOTALS, InvoiceTotals)
  const LINES_RULE := Rule(LINES, LineItemsTotal)
  const BALANCE_RULE := Rule(BALANCE, BalanceConsistency)

  /** No violation in the report carries the name. */
  ghost predicate NoneFrom(name: string, report: seq<Violation>) {
    forall v | v in report :: v.rule != name
  }

  /** A rule that is silent in the report ran to its end and found nothing. */
  lemma SilentRule(rules: seq<Rule>, data: Data, rule: Rule)
    requires rule in rules && rule in {TOTALS_RULE, LINES_RULE, BALANCE_RULE}
    requires NoneFrom(rule.name, Report(rules, data))
    ensures rule.execute(data) == Silent()
  {
    forall v | v in RuleReport(rule, data) ensures v in Report(rules, data) {
      ReportedBy(rules, data, v);
    }
    var report := RuleReport(rule, data);
    assert rule.execute(data) == Silent() || exists severity :: report == [Violation(rule.name, severity)] by {
      assert report == [] || report == [Violation(rule.name, Error)] || report == [Violation(rule.name, Warning)];
    }
  }

  /**
   * An engine run silent on both totals rules: the three amounts are numbers, and if some line has a total,
   * the lines plus tax differ from the total by at most two tolerances.
   */
  lemma InvoiceToleranceComposes(rules: seq<Rule>, data: Data)
    requires data.Invoice? && TOTALS_RULE in rules && LINES_RULE in rules
    requires NoneFrom(TOTALS, Report(rules, data)) && NoneFrom(LINES, Report(rules, data))
    ensures data.subtotal.Num? && data.tax.Num? && data.total.Num?
    ensures LineTotals(data.lines) != [] ==>
              Abs(Sum(LineTotals(data.lines)) + data.tax.amount - data.total.amount) <= 0.02
  {
    SilentRule(rules, data, TOTALS_RULE);
    SilentRule(rules, data, LINES_RULE);
  }

  /** The bound is attained: neither rule objects to a gap of two cents. */
  lemma TwoCentsGoUnnoticed(tax: real, subtotal: real)
    ensures var data := Invoice(Num(subtotal), Num(tax), Num(subtotal + tax - 0.01), [None, Some(subtotal + 0.01)]);
            && Report([TOTALS_RULE, LINES_RULE], data) == []
            && Abs(Sum(LineTotals(data.lines)) + tax - data.total.amount) == 0.02
  {
    var lines := [None, Some(subtotal + 0.01)];
    assert lines[1..] == [Some(subtotal + 0.01)];
    assert LineTotals(lines[1..]) == [subtotal + 0.01];
    assert LineTotals(lines) == [subtotal + 0.01];
    var data := Invoice(Num(subtotal), Num(tax), Num(subtotal + tax - 0.01), lines);
    assert Sum([subtotal + 0.01]) == subtotal + 0.01 by {
      assert [subtotal + 0.01][1..] == [];
    }
    assert RuleReport(TOTALS_RULE, data) == [] && RuleReport(LINES_RULE, data) == [];
    assert [TOTALS_RULE, LINES_RULE][1..] == [LINES_RULE] && [LINES_RULE][1..] == [];
    assert Report([LINES_RULE], data) == [] by {
      assert Report([], data) == [];
    }
  }

  /** A passed invoice whose three amounts are numbers balances; with a null or non-numeric one it passes unchecked. */
  lemma PassedInvoice(rules: seq<Rule>, data: Data)
    requires data.Invoice? && TOTALS_RULE in rules && FromViolations(Report(rules, data)).passed
    ensures data.subtotal.Num? && data.tax.Num? && data.total.Num? ==>
              Abs(data.subtotal.amount + data.tax.amount - data.total.amount) <= TOLERANCE
    ensures !(data.subtotal.Num? && data.tax.Num? && data.total.Num?) ==>
              Violation(TOTALS, Warning) in Report(rules, data)
  {
    PassedIff(rules, data);
    ReportedBy(rules, data, Violation(TOTALS, Warning));
    assert TOTALS_RULE.execute(data) == InvoiceTotals(data);
    if InvoiceTotals(data).Ok? && |InvoiceTotals(data).value| == 1 {
      assert InvoiceTotals(data).value[0] in InvoiceTotals(data).value;
    }
  }

  // ---------- What the amount rules report ----------

  /** At most a cent apart. */
  predicate WithinCent(a: real, b: real) {
    a - b <= 0.01 && b - a <= 0.01
  }

  lemma ReportOfOne(rule: Rule, data: Data)
    ensures Report([rule], data) == RuleReport(rule, data)
  {
    assert [rule][1..] == [];
    assert RuleReport(rule, data) + [] == RuleReport(rule, data);
  }

  /**
   A statement whose four amounts are numbers is reported exactly if they are off by more than a cent, as an
   error; one with an amount missing or no number always is, as a warning.
   */
  lemma BalanceReport(opening: Field, closing: Field, credits: Field, debits: Field, start: Field, end: Field)
    ensures Report([Rule("balance_consistency", BalanceConsistency)],
                   Statement(opening, closing, credits, debits, start, end)) ==
            if opening.Num? && closing.Num? && credits.Num? && debits.Num? then
              if WithinCent(opening.amount + credits.amount - debits.amount, closing.amount) then []
              else [Violation("balance_consistency", Error)]
            else [Violation("balance_consistency", Warning)]
  {
    ReportOfOne(Rule("balance_consistency", BalanceConsistency),
                Statement(opening, closing, credits, debits, start, end));
  }

  lemma TotalsReport(subtotal: Field, tax: Field, total: Field, lines: seq<Option<real>>)
    ensures Report([Rule("invoice_totals_consistency", InvoiceTotals)], Invoice(subtotal, tax, total, lines)) ==
            if subtotal.Num? && tax.Num? && total.Num? then
              if WithinCent(subtotal.amount + tax.amount, total.amount) then []
              else [Violation("invoice_totals_consistency", Error)]
            else [Violation("invoice_totals_consistency", Warning)]
  {
    ReportOfOne(Rule("invoice_totals_consistency", InvoiceTotals), Invoice(subtotal, tax, total, lines));
  }

  /** The amounts there are, added up from the last to the first. */
  function Totalled(lines: seq<Option<real>>): real {
    if lines == [] then 0.0
    else
      var last := lines[|lines| - 1];
      Totalled(lines[..|lines| - 1]) + (if last.Some? then last.value else 0.0)
  }

  lemma {:induction false} SumAppend(a: seq<real>, x: real)
    ensures Sum(a + [x]) == Sum(a) + x
  {
    if a == [] {
      assert a + [x] == [x];
    } else {
      assert (a + [x])[1..] == a[1..] + [x];
      SumAppend(a[1..], x);
    }
  }

  lemma {:induction false} LineTotalsAppend(lines: seq<Option<real>>, line: Option<real>)
    ensures LineTotals(lines + [line]) == LineTotals(lines) + (if line.Some? then [line.value] else [])
  {
    if lines == [] {
      assert lines + [line] == [line];
    } else {
      assert (lines + [line])[1..] == lines[1..] + [line];
      LineTotalsAppend(lines[1..], line);
    }
  }

  lemma {:induction false} LinesTotalled(lines: seq<Option<real>>)
    ensures Sum(LineTotals(lines)) == Totalled(lines)
    ensures LineTotals(lines) == [] <==> forall i | 0 <= i < |lines| :: lines[i].None?
  {
    if lines != [] {
      var n := |lines| - 1;
      LinesTotalled(lines[..n]);
      LineTotalsAppend(lines[..n], lines[n]);
      assert lines == lines[..n] + [lines[n]];
      assert forall i | 0 <= i < n :: lines[i] == lines[..n][i];
      if lines[n].Some? {
        SumAppend(LineTotals(lines[..n]), lines[n].value);
      } else {
        assert LineTotals(lines[..n]) + [] == LineTotals(lines[..n]);
      }
    }
  }

  /** Lines that do not add up are only warned of; without a subtotal or a line with an amount nothing is said. */
  lemma LinesReport(subtotal: Field, tax: Field, total: Field, lines: seq<Option<real>>)
    ensures Report([Rule("line_items_total", LineItemsTotal)], Invoice(subtotal, tax, total, lines)) ==
            if subtotal.Null? || (forall i | 0 <= i < |lines| :: lines[i].None?) then []
            else if subtotal.Num? && WithinCent(Totalled(lines), subtotal.amount) then []
            else [Violation("line_items_total", Warning)]
  {
    ReportOfOne(Rule("line_items_total", LineItemsTotal), Invoice(subtotal, tax, total, lines));
    LinesTotalled(lines);
  }

  /** The rules say nothing of other kinds of document. */
  lemma OtherDocuments(data: Data)
    ensures !data.Statement? ==> Report([Rule("balance_consistency", BalanceConsistency)], data) == []
    ensures !data.Invoice? ==> Report([Rule("invoice_totals_consistency", InvoiceTotals)], data) == []
    ensures !data.Invoice? ==> Report([Rule("line_items_total", LineItemsTotal)], data) == []
  {
    ReportOfOne(Rule("balance_consistency", BalanceConsistency), data);
    ReportOfOne(Rule("invoice_totals_consistency", InvoiceTotals), data);
    ReportOfOne(Rule("line_items_total", LineItemsTotal), data);
  }

  /** Where the violations of a severity stand. */
  ghost function OfSeverity(violations: seq<Violation>, severity: Severity): set<nat> {
    set i: nat | i < |violations| && violations[i].severity == severity
  }

  lemma OfSeverityNext(violations: seq<Violation>, severity: Severity)
    requires violations != []
    ensures var n := |violations| - 1;
            && OfSeverity(violations, severity) ==
               OfSeverity(violations[..n], severity) + (if violations[n].severity == severity then {n} else {})
            && n !in OfSeverity(violations[..n], severity)
  {}

  lemma {:induction false} CountAppend(violations: seq<Violation>, v: Violation, severity: Severity)
    ensures CountOf(violations + [v], severity) ==
            CountOf(violations, severity) + (if v.severity == severity then 1 else 0)
  {
    if violations == [] {
      assert violations + [v] == [v];
    } else {
      assert (violations + [v])[1..] == violations[1..] + [v];
      CountAppend(violations[1..], v, severity);
    }
  }

  lemma {:induction false} CountIsCardinality(violations: seq<Violation>, severity: Severity)
    ensures CountOf(violations, severity) == |OfSeverity(violations, severity)|
  {
    if violations != [] {
      var n := |violations| - 1;
      CountIsCardinality(violations[..n], severity);
      CountAppend(violations[..n], violations[n], severity);
      assert violations == violations[..n] + [violations[n]];
      OfSeverityNext(violations, severity);
    }
  }

  /**
   The result keeps the violations and counts errors and warnings, each under its own name; it passes without
   errors.
   */
  lemma ResultCounts(violations: seq<Violation>)
    ensures var r := FromViolations(violations);
            && r.violations == violations
            && r.errorCount == |OfSeverity(violations, Error)|
            && r.warningCount == |OfSeverity(violations, Warning)|
            && (r.passed <==> forall i | 0 <= i < |violations| :: violations[i].severity == Warning)
  {
    CountIsCardinality(violations, Error);
    CountIsCardinality(violations, Warning);
    CountZero(violations, Error);
  }

  // ---------- Consecutive statements ----------

  /** Statements that the balance rule accepts, each opening with the balance the one before closed with. */
  ghost predicate Chained(statements: seq<Data>) {
    && (forall i | 0 <= i < |statements| ::
          && statements[i].Statement? && statements[i].opening.Num? && statements[i].closing.Num?
          && statements[i].credits.Num? && statements[i].debits.Num?
          && BalanceConsistency(statements[i]) == Silent())
    && forall i | 0 < i < |statements| :: statements[i].opening == statements[i - 1].closing
  }

  function Movement(statements: seq<Data>): real
    requires forall i | 0 <= i < |statements| ::
               statements[i].Statement? && statements[i].credits.Num? && statements[i].debits.Num?
  {
    if statements == [] then 0.0
    else statements[0].credits.amount - statements[0].debits.amount + Movement(statements[1..])
  }

  /** Over a chain the closing balance drifts from opening plus movements by at most one tolerance a statement. */
  lemma {:induction false} ChainDrift(statements: seq<Data>)
    requires statements != [] && Chained(statements)
    ensures Abs(statements[0].opening.amount + Movement(statements) - statements[|statements| - 1].closing.amount)
            <= |statements| as real * TOLERANCE
  {
    if |statements| == 1 {
      assert statements[1..] == [];
    } else {
      var rest := statements[1..];
      assert rest[0] == statements[1] && rest[|rest| - 1] == statements[|statements| - 1];
      forall i | 0 < i < |rest| ensures rest[i].opening == rest[i - 1].closing {
        assert rest[i] == statements[i + 1] && rest[i - 1] == statements[i];
      }
      ChainDrift(rest);
    }
  }
}
