/**
 * The row loop of `run_tests`: every field validator runs on every row, the reasons they give
 * are collected in field order, and the row goes to the error report (with the reasons joined by
 * "; ") or to the success report (with an empty reason).
 */
module RowCheck {
  import opened Wrappers
  import opened Strings
  import opened Cells
  import opened States
  import opened Calendar
  import opened TaxId
  import opened Validators

  /** One spreadsheet row, by column. */
  datatype TestRow = TestRow(
    cpfCnpj: Cell, dataNasc: Cell, celulares: Cell, emails: Cell, cep: Cell,
    uf: Cell, vencimento: Cell, planoValor: Cell, isento: Cell)

  /**
   * What the model does not compute for a row: what the date parser makes of a text date, the
   * text of the error a day count too large for a time span raises, and the reason
   * `validate_plano_valor` gives.
   */
  datatype RowOracle = RowOracle(dateText: Result<Date>, dateOverflow: string, planoValorReason: Option<string>)

  /** A row in one of the two reports: its position, its cells and its "Motivo do Erro". */
  datatype ReportRow = ReportRow(index: nat, row: TestRow, motive: string)

  /** `if reason:` holds for a present, non-empty reason. */
  predicate Truthy(reason: Option<string>) {
    reason.Some? && reason.value != []
  }

  /** The number of validators the loop runs on a row. */
  const FieldCount := 9

  /**
   * The reason `clean_cpf_cnpj` gives for the cell: as the script writes it when `asWritten`
   * holds, and with the second CPF check digit taken over all ten preceding digits otherwise.
   */
  function CpfCnpjReason(value: Cell, asWritten: bool): Option<string> {
    if asWritten then CleanCpfCnpjAsWritten(value).reason else CleanCpfCnpj(value).reason
  }

  /**
   * The reason validator `k` gives for the row, in the order the loop calls them: CPF/CNPJ,
   * birth date, mobile phone, email, CEP, state, due day, plan price, exemption.
   */
  function FieldReason(row: TestRow, oracle: RowOracle, asWritten: bool, k: nat): Option<string>
    requires k < FieldCount
  {
    match k
    case 0 => CpfCnpjReason(row.cpfCnpj, asWritten)
    case 1 => ConvertExcelDate(row.dataNasc, "Data Nasc.", oracle.dateText, oracle.dateOverflow).reason
    case 2 => CleanPhone(row.celulares, "Celulares").reason
    case 3 => CleanEmail(row.emails).reason
    case 4 => CleanCep(row.cep).reason
    case 5 => NormalizeUf(row.uf).reason
    case 6 => ValidateDiaVencimento(row.vencimento).reason
    case 7 => oracle.planoValorReason
    case _ => ValidateIsento(row.isento).reason
  }

  /**
   * The reasons of the nine validators, in field order. With `asWritten` the CPF/CNPJ validator
   * is the script's own; without it, the rule the script means to implement.
   */
  function FieldReasons(row: TestRow, oracle: RowOracle, asWritten: bool): (rs: seq<Option<string>>)
    ensures |rs| == FieldCount
  {
    seq(FieldCount, k requires 0 <= k < FieldCount => FieldReason(row, oracle, asWritten, k))
  }

  /** The truthy reasons of `rs`, in order. */
  function KeepTruthy(rs: seq<Option<string>>): seq<string> {
    if rs == [] then []
    else
      var last := rs[|rs| - 1];
      KeepTruthy(rs[..|rs| - 1]) + (if Truthy(last) then [last.value] else [])
  }

  /** `error_reasons` once every validator has run on the row. */
  function RowReasons(row: TestRow, oracle: RowOracle, asWritten: bool): seq<string> {
    KeepTruthy(FieldReasons(row, oracle, asWritten))
  }

  /**
   * Collecting over two runs of reasons is collecting over each in turn: the reasons of earlier
   * fields come first.
   */
  lemma {:induction false} KeepTruthyAppend(xs: seq<Option<string>>, ys: seq<Option<string>>)
    ensures KeepTruthy(xs + ys) == KeepTruthy(xs) + KeepTruthy(ys)
    decreases |ys|
  {
    if ys == [] {
      assert xs + ys == xs;
    } else {
      var init := ys[..|ys| - 1];
      assert (xs + ys)[..|xs + ys| - 1] == xs + init;
      KeepTruthyAppend(xs, init);
    }
  }

  /** A text is collected iff some reason carries it and is truthy. */
  lemma {:induction false} KeepTruthyMembers(rs: seq<Option<string>>, x: string)
    ensures x in KeepTruthy(rs) <==> exists i :: 0 <= i < |rs| && Truthy(rs[i]) && rs[i].value == x
  {
    if rs != [] {
      var init := rs[..|rs| - 1];
      KeepTruthyMembers(init, x);
      if exists i :: 0 <= i < |init| && Truthy(init[i]) && init[i].value == x {
        var i :| 0 <= i < |init| && Truthy(init[i]) && init[i].value == x;
        assert rs[i] == init[i];
      }
      if exists i :: 0 <= i < |rs| && Truthy(rs[i]) && rs[i].value == x {
        var i :| 0 <= i < |rs| && Truthy(rs[i]) && rs[i].value == x;
        if i < |init| {
          assert init[i] == rs[i];
        }
      }
    }
  }

  /** Nothing is collected iff no reason is truthy; whatever is collected is a non-empty text. */
  lemma {:induction false} KeepTruthyEmpty(rs: seq<Option<string>>)
    ensures KeepTruthy(rs) == [] <==> forall i :: 0 <= i < |rs| ==> !Truthy(rs[i])
    ensures forall k :: 0 <= k < |KeepTruthy(rs)| ==> KeepTruthy(rs)[k] != []
  {
    if rs != [] {
      var init := rs[..|rs| - 1];
      KeepTruthyEmpty(init);
      assert forall i :: 0 <= i < |init| ==> init[i] == rs[i];
    }
  }

  lemma NoneTruthy(rs: seq<Option<string>>, i: int)
    requires KeepTruthy(rs) == [] && 0 <= i < |rs|
    ensures !Truthy(rs[i])
  {
    KeepTruthyEmpty(rs);
  }

  /**
   * One `if x_error: error_reasons.append(x_error); is_valid = False` step. `seen` is the run of
   * reasons already looked at.
   */
  method Record(reasons: seq<string>, isValid: bool, reason: Option<string>, ghost seen: seq<Option<string>>)
    returns (reasons': seq<string>, isValid': bool)
    requires reasons == KeepTruthy(seen) && (isValid <==> reasons == [])
    ensures reasons' == KeepTruthy(seen + [reason])
    ensures isValid' <==> reasons' == []
  {
    assert (seen + [reason])[..|seen|] == seen;
    reasons', isValid' := reasons, isValid;
    if Truthy(reason) {
      reasons' := reasons' + [reason.value];
      isValid' := false;
    }
  }

  /** The validation of one row: its reasons, and whether it is valid. */
  method ValidateRow(row: TestRow, oracle: RowOracle, asWritten: bool) returns (reasons: seq<string>, isValid: bool)
    ensures reasons == RowReasons(row, oracle, asWritten)
    ensures isValid <==> reasons == []
  {
    reasons, isValid := [], true;
    ghost var seen: seq<Option<string>> := [];
    var cpf := CpfCnpjReason(row.cpfCnpj, asWritten);
    reasons, isValid := Record(reasons, isValid, cpf, seen);
    seen := seen + [cpf];
    var dataNasc := ConvertExcelDate(row.dataNasc, "Data Nasc.", oracle.dateText, oracle.dateOverflow);
    reasons, isValid := Record(reasons, isValid, dataNasc.reason, seen);
    seen := seen + [dataNasc.reason];
    var celular := CleanPhone(row.celulares, "Celulares");
    reasons, isValid := Record(reasons, isValid, celular.reason, seen);
    seen := seen + [celular.reason];
    var email := CleanEmail(row.emails);
    reasons, isValid := Record(reasons, isValid, email.reason, seen);
    seen := seen + [email.reason];
    var cep := CleanCep(row.cep);
    reasons, isValid := Record(reasons, isValid, cep.reason, seen);
    seen := seen + [cep.reason];
    var uf := NormalizeUf(row.uf);
    reasons, isValid := Record(reasons, isValid, uf.reason, seen);
    seen := seen + [uf.reason];
    var vencimento := ValidateDiaVencimento(row.vencimento);
    reasons, isValid := Record(reasons, isValid, vencimento.reason, seen);
    seen := seen + [vencimento.reason];
    reasons, isValid := Record(reasons, isValid, oracle.planoValorReason, seen);
    seen := seen + [oracle.planoValorReason];
    var isento := ValidateIsento(row.isento);
    reasons, isValid := Record(reasons, isValid, isento.reason, seen);
    seen := seen + [isento.reason];
    NineAppended(cpf, dataNasc.reason, celular.reason, email.reason, cep.reason, uf.reason,
                 vencimento.reason, oracle.planoValorReason, isento.reason);
    FieldReasonsListed(row, oracle, asWritten);
  }

  /** Nine reasons appended one at a time form the nine-element sequence. */
  lemma NineAppended<T>(a0: T, a1: T, a2: T, a3: T, a4: T, a5: T, a6: T, a7: T, a8: T)
    ensures [] + [a0] + [a1] + [a2] + [a3] + [a4] + [a5] + [a6] + [a7] + [a8]
            == [a0, a1, a2, a3, a4, a5, a6, a7, a8]
  {
  }

  /** The nine reasons, one by one. */
  lemma FieldReasonsListed(row: TestRow, oracle: RowOracle, w: bool)
    ensures FieldReasons(row, oracle, w)
            == [FieldReason(row, oracle, w, 0), FieldReason(row, oracle, w, 1), FieldReason(row, oracle, w, 2),
                FieldReason(row, oracle, w, 3), FieldReason(row, oracle, w, 4), FieldReason(row, oracle, w, 5),
                FieldReason(row, oracle, w, 6), FieldReason(row, oracle, w, 7), FieldReason(row, oracle, w, 8)]
  {
  }

  /** The reasons of every row, in row order. */
  function AllReasons(rows: seq<TestRow>, oracles: seq<RowOracle>, asWritten: bool): (reasons: seq<seq<string>>)
    requires |rows| == |oracles|
    ensures |reasons| == |rows|
    ensures forall i :: 0 <= i < |rows| ==> reasons[i] == RowReasons(rows[i], oracles[i], asWritten)
  {
    seq(|rows|, i requires 0 <= i < |rows| => RowReasons(rows[i], oracles[i], asWritten))
  }

  /** Every collected reason of every row is a non-empty text. */
  predicate NonEmptyParts(reasons: seq<seq<string>>) {
    forall i, k :: 0 <= i < |reasons| && 0 <= k < |reasons[i]| ==> reasons[i][k] != []
  }

  lemma AllReasonsNonEmpty(rows: seq<TestRow>, oracles: seq<RowOracle>, asWritten: bool)
    requires |rows| == |oracles|
    ensures NonEmptyParts(AllReasons(rows, oracles, asWritten))
  {
    var reasons := AllReasons(rows, oracles, asWritten);
    forall i | 0 <= i < |reasons|
      ensures forall k :: 0 <= k < |reasons[i]| ==> reasons[i][k] != []
    {
      KeepTruthyEmpty(FieldReasons(rows[i], oracles[i], asWritten));
    }
  }

  /** `errors_list` after the first `n` rows, row `i` having the reasons `reasons[i]`. */
  function ErrorEntries(rows: seq<TestRow>, reasons: seq<seq<string>>, n: nat): seq<ReportRow>
    requires n <= |rows| == |reasons|
  {
    if n == 0 then []
    else
      ErrorEntries(rows, reasons, n - 1)
      + (if reasons[n - 1] != [] then [ReportRow(n - 1, rows[n - 1], Join(reasons[n - 1], "; "))] else [])
  }

  /** `success_list` after the first `n` rows. */
  function SuccessEntries(rows: seq<TestRow>, reasons: seq<seq<string>>, n: nat): seq<ReportRow>
    requires n <= |rows| == |reasons|
  {
    if n == 0 then []
    else
      SuccessEntries(rows, reasons, n - 1)
      + (if reasons[n - 1] == [] then [ReportRow(n - 1, rows[n - 1], "")] else [])
  }

  /**
   * The loop of `run_tests` over the rows, with the oracle answers for each row; the script as
   * written is `RunTests(rows, oracles, true)`.
   */
  method RunTests(rows: seq<TestRow>, oracles: seq<RowOracle>, asWritten: bool)
    returns (errors: seq<ReportRow>, success: seq<ReportRow>, totalErros: nat)
    requires |oracles| == |rows|
    ensures errors == ErrorEntries(rows, AllReasons(rows, oracles, asWritten), |rows|)
    ensures success == SuccessEntries(rows, AllReasons(rows, oracles, asWritten), |rows|)
    ensures totalErros == |errors|
  {
    ghost var all := AllReasons(rows, oracles, asWritten);
    errors, success, totalErros := [], [], 0;
    var index := 0;
    while index < |rows|
      invariant 0 <= index <= |rows|
      invariant errors == ErrorEntries(rows, all, index)
      invariant success == SuccessEntries(rows, all, index)
      invariant totalErros == |errors|
    {
      var reasons, isValid := ValidateRow(rows[index], oracles[index], asWritten);
      assert reasons == all[index];
      if isValid {
        success := success + [ReportRow(index, rows[index], "")];
      } else {
        errors := errors + [ReportRow(index, rows[index], Join(reasons, "; "))];
        totalErros := totalErros + 1;
      }
      index := index + 1;
    }
  }

  // ---------------------------------------------------------------- what the reports hold

  /** Some entry of `entries` is row `i`. */
  predicate Reports(entries: seq<ReportRow>, i: int) {
    exists k :: 0 <= k < |entries| && entries[k].index == i
  }

  /** The rows of `entries` appear in increasing order, so none appears twice. */
  predicate Increasing(entries: seq<ReportRow>) {
    forall j, k :: 0 <= j < k < |entries| ==> entries[j].index < entries[k].index
  }

  /**
   * Every error entry is a row among the first `n` with at least one reason, carrying its cells
   * and its reasons joined by "; " (a non-empty text); the list is in row order.
   */
  lemma {:induction false} ErrorEntriesDescribeRows(rows: seq<TestRow>, reasons: seq<seq<string>>, n: nat)
    requires n <= |rows| == |reasons| && NonEmptyParts(reasons)
    ensures var errors := ErrorEntries(rows, reasons, n);
            Increasing(errors)
            && forall k :: 0 <= k < |errors| ==>
                 var i := errors[k].index;
                 i < n && errors[k].row == rows[i] && reasons[i] != []
                 && errors[k].motive == Join(reasons[i], "; ") && errors[k].motive != []
  {
    if n > 0 {
      ErrorEntriesDescribeRows(rows, reasons, n - 1);
    }
  }

  /** Every success entry is a row with no reason, carrying ""; the list is in row order. */
  lemma {:induction false} SuccessEntriesDescribeRows(rows: seq<TestRow>, reasons: seq<seq<string>>, n: nat)
    requires n <= |rows| == |reasons|
    ensures var success := SuccessEntries(rows, reasons, n);
            Increasing(success)
            && forall k :: 0 <= k < |success| ==>
                 var i := success[k].index;
                 i < n && success[k].row == rows[i] && reasons[i] == [] && success[k].motive == []
  {
    if n > 0 {
      SuccessEntriesDescribeRows(rows, reasons, n - 1);
    }
  }

  /**
   * The two reports together hold each of the first `n` rows exactly once: in the error report
   * iff the row has a reason, in the success report iff it has none.
   */
  lemma EveryRowOnce(rows: seq<TestRow>, reasons: seq<seq<string>>, n: nat)
    requires n <= |rows| == |reasons|
    ensures |ErrorEntries(rows, reasons, n)| + |SuccessEntries(rows, reasons, n)| == n
    ensures forall i :: 0 <= i < n ==>
              (Reports(ErrorEntries(rows, reasons, n), i) <==> reasons[i] != [])
              && (Reports(SuccessEntries(rows, reasons, n), i) <==> reasons[i] == [])
  {
    EntriesCount(rows, reasons, n);
    ErrorsExactly(rows, reasons, n);
    SuccessExactly(rows, reasons, n);
  }

  lemma {:induction false} EntriesCount(rows: seq<TestRow>, reasons: seq<seq<string>>, n: nat)
    requires n <= |rows| == |reasons|
    ensures |ErrorEntries(rows, reasons, n)| + |SuccessEntries(rows, reasons, n)| == n
  {
    if n > 0 {
      EntriesCount(rows, reasons, n - 1);
    }
  }

  /** Only the first `n` rows appear in the reports after `n` rows. */
  lemma {:induction false} EntriesBelow(rows: seq<TestRow>, reasons: seq<seq<string>>, n: nat)
    requires n <= |rows| == |reasons|
    ensures forall k :: 0 <= k < |ErrorEntries(rows, reasons, n)| ==> ErrorEntries(rows, reasons, n)[k].index < n
    ensures forall k :: 0 <= k < |SuccessEntries(rows, reasons, n)| ==> SuccessEntries(rows, reasons, n)[k].index < n
  {
    if n > 0 {
      EntriesBelow(rows, reasons, n - 1);
    }
  }

  lemma {:induction false} ErrorsExactly(rows: seq<TestRow>, reasons: seq<seq<string>>, n: nat)
    requires n <= |rows| == |reasons|
    ensures forall i :: 0 <= i < n ==> (Reports(ErrorEntries(rows, reasons, n), i) <==> reasons[i] != [])
  {
    if n > 0 {
      ErrorsExactly(rows, reasons, n - 1);
      EntriesBelow(rows, reasons, n - 1);
      var before, after := ErrorEntries(rows, reasons, n - 1), ErrorEntries(rows, reasons, n);
      forall i | 0 <= i < n ensures Reports(after, i) <==> reasons[i] != [] {
        if i < n - 1 {
          ReportsOfPrefix(before, after, i, n - 1);
        } else if reasons[i] != [] {
          assert after[|before|].index == i;
        } else {
          assert after == before;
        }
      }
    }
  }

  lemma {:induction false} SuccessExactly(rows: seq<TestRow>, reasons: seq<seq<string>>, n: nat)
    requires n <= |rows| == |reasons|
    ensures forall i :: 0 <= i < n ==> (Reports(SuccessEntries(rows, reasons, n), i) <==> reasons[i] == [])
  {
    if n > 0 {
      SuccessExactly(rows, reasons, n - 1);
      EntriesBelow(rows, reasons, n - 1);
      var before, after := SuccessEntries(rows, reasons, n - 1), SuccessEntries(rows, reasons, n);
      forall i | 0 <= i < n ensures Reports(after, i) <==> reasons[i] == [] {
        if i < n - 1 {
          ReportsOfPrefix(before, after, i, n - 1);
        } else if reasons[i] == [] {
          assert after[|before|].index == i;
        } else {
          assert after == before;
        }
      }
    }
  }

  /** Appending an entry for row `n` leaves the question for an earlier row `i` unchanged. */
  lemma ReportsOfPrefix(before: seq<ReportRow>, after: seq<ReportRow>, i: int, n: int)
    requires i < n
    requires after == before || (|after| == |before| + 1 && after[..|before|] == before && after[|before|].index == n)
    ensures Reports(after, i) <==> Reports(before, i)
  {
    if Reports(after, i) {
      var k :| 0 <= k < |after| && after[k].index == i;
      assert k < |before| && before[k] == after[k];
    }
    if Reports(before, i) {
      var k :| 0 <= k < |before| && before[k].index == i;
      assert after[k] == before[k];
    }
  }

  /**
   * A valid row passed every validator: its CPF/CNPJ obeys the check-digit rule with the weight
   * list the validator ran with, its CEP has one to eight digits, its state is recognised and its
   * due day lies in 1..31.
   */
  lemma ValidRowMeans(row: TestRow, oracle: RowOracle, asWritten: bool)
    requires RowReasons(row, oracle, asWritten) == []
    ensures !IsMissing(row.cpfCnpj)
            && AcceptedTaxId(DigitsOnly(Str(row.cpfCnpj)), if asWritten then CpfWeights2AsWritten else CpfWeights2)
    ensures !IsMissing(row.cep) && 1 <= |DigitsOnly(Str(row.cep))| <= 8
    ensures var u := Upper(Strip(Str(row.uf)));
            !IsMissing(row.uf) && (IsCode(u) || exists j :: 0 <= j < |UfMapping| && NameMatches(u, j))
    ensures !IsMissing(row.vencimento)
            && var p := ParseTruncatedDecimal(Strip(Str(row.vencimento))); p.Some? && 1 <= p.value <= 31
  {
    ValidRowFields(row, oracle, asWritten);
    assert !Truthy(FieldReason(row, oracle, asWritten, 0)) && !Truthy(FieldReason(row, oracle, asWritten, 4));
    assert !Truthy(FieldReason(row, oracle, asWritten, 5)) && !Truthy(FieldReason(row, oracle, asWritten, 6));
    CleanCpfCnpjAccepts(row.cpfCnpj, if asWritten then CpfWeights2AsWritten else CpfWeights2);
    CleanCepOutcome(row.cep);
    NormalizeUfOutcome(row.uf);
    ValidateDiaVencimentoOutcome(row.vencimento);
  }

  /** A row is valid exactly when none of the nine validators gave it a truthy reason. */
  lemma ValidRowFields(row: TestRow, oracle: RowOracle, asWritten: bool)
    ensures RowReasons(row, oracle, asWritten) == []
            <==> forall k :: 0 <= k < FieldCount ==> !Truthy(FieldReason(row, oracle, asWritten, k))
  {
    var rs := FieldReasons(row, oracle, asWritten);
    KeepTruthyEmpty(rs);
    assert forall k :: 0 <= k < FieldCount ==> rs[k] == FieldReason(row, oracle, asWritten, k);
  }

  /**
   * A row holding the valid CPF 529.982.247-25 gets a CPF reason from the script as written, so
   * it lands on the error report whatever its other cells hold; with the intended weights the
   * CPF/CNPJ validator gives it no reason.
   */
  lemma ExampleCpfRowReasons(row: TestRow, oracle: RowOracle)
    requires row.cpfCnpj == Text(CpfExample)
    ensures Truthy(FieldReason(row, oracle, true, 0))
    ensures RowReasons(row, oracle, true) != []
    ensures FieldReason(row, oracle, false, 0) == None
  {
    ExampleCpfReasons();
    ValidRowFields(row, oracle, true);
  }

  /** The CPF/CNPJ validator's reasons for 529.982.247-25: one as written, none as intended. */
  lemma ExampleCpfReasons()
    ensures Truthy(CleanCpfCnpjWith(Text(CpfExample), CpfWeights2AsWritten).reason)
    ensures CleanCpfCnpjWith(Text(CpfExample), CpfWeights2).reason == None
  {
    CpfWeightsFinding();
    CleanCpfCnpjAccepts(Text(CpfExample), CpfWeights2AsWritten);
  }
}
