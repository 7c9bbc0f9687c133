/**
 * `clean_cpf_cnpj` of the field validators: Brazilian taxpayer numbers, the 11-digit CPF of a
 * person and the 14-digit CNPJ of a company, each ending in two mod-11 check digits.
 */
module TaxId {
  import opened Wrappers
  import opened Strings
  import opened Cells

  /** What every rejected number is replaced with. */
  const Sentinel := "00000000000"

  /** The digits of a digit string as numbers. */
  function Digits(s: string): (ds: seq<int>)
    requires AllDigits(s)
    ensures |ds| == |s| && forall i :: 0 <= i < |s| ==> ds[i] == DigitValue(s[i]) && 0 <= ds[i] <= 9
  {
    seq(|s|, i requires 0 <= i < |s| => DigitValue(s[i]))
  }

  /** `sum(int(d) * w for d, w in zip(ds, ws))`: `zip` stops at the shorter list. */
  function WeightedSum(ds: seq<int>, ws: seq<int>): int {
    WeightedPrefix(ds, ws, if |ds| < |ws| then |ds| else |ws|)
  }

  /** The sum of the first `n` products `ds[i] * ws[i]`. */
  function WeightedPrefix(ds: seq<int>, ws: seq<int>, n: nat): int
    requires n <= |ds| && n <= |ws|
  {
    if n == 0 then 0 else WeightedPrefix(ds, ws, n - 1) + ds[n - 1] * ws[n - 1]
  }

  /** `0 if remainder < 2 else 11 - remainder`, the remainder being the weighted sum mod 11. */
  function CheckDigit(ds: seq<int>, ws: seq<int>): (d: int)
    ensures 0 <= d <= 9
  {
    var remainder := WeightedSum(ds, ws) % 11;
    if remainder < 2 then 0 else 11 - remainder
  }

  /**
   * The check digit is the one that makes the weighted sum plus the digit a multiple of 11,
   * except that where that would take the value 10 it is 0; equivalently it is
   * `10 * sum mod 11 mod 10`, the form the rule is often published in.
   */
  lemma CheckDigitCharacterisation(ds: seq<int>, ws: seq<int>, d: int)
    requires 0 <= d <= 9
    ensures CheckDigit(ds, ws) == d <==>
              (WeightedSum(ds, ws) + d) % 11 == 0 || (WeightedSum(ds, ws) % 11 == 1 && d == 0)
  {
    var s := WeightedSum(ds, ws);
    ModShift(s / 11, s % 11 + d);
    assert s + d == 11 * (s / 11) + (s % 11 + d);
  }

  lemma CheckDigitPublishedForm(ds: seq<int>, ws: seq<int>)
    ensures CheckDigit(ds, ws) == (10 * WeightedSum(ds, ws)) % 11 % 10
  {
    PublishedForm(WeightedSum(ds, ws));
  }

  /** `0 if s % 11 < 2 else 11 - s % 11` equals `10 * s % 11 % 10`. */
  lemma PublishedForm(s: int)
    ensures (if s % 11 < 2 then 0 else 11 - s % 11) == (10 * s) % 11 % 10
  {
    var r := s % 11;
    ModShift(10 * (s / 11), 10 * r);
    assert 10 * s == 11 * (10 * (s / 11)) + 10 * r;
    if r >= 2 {
      ModShift(r - 1, 11 - r);
      assert 10 * r == 11 * (r - 1) + (11 - r);
    }
  }

  lemma ModShift(q: int, x: int)
    ensures (11 * q + x) % 11 == x % 11
  {
  }

  /** `list(range(hi, lo, -1))`: hi, hi - 1, ..., lo + 1. */
  function DescendingRange(hi: int, lo: int): (ws: seq<int>)
    ensures |ws| == if hi > lo then hi - lo else 0
    ensures forall i :: 0 <= i < |ws| ==> ws[i] == hi - i
    decreases hi - lo
  {
    if hi <= lo then [] else [hi] + DescendingRange(hi - 1, lo)
  }

  /** The CPF weights: 10..2 for the first check digit, 11..2 for the second. */
  const CpfWeights1 := DescendingRange(10, 1)
  const CpfWeights2 := DescendingRange(11, 1)
  /** The second CPF weight list as the source builds it, `range(11, 2, -1)`: 11..3, nine weights. */
  const CpfWeights2AsWritten := DescendingRange(11, 2)

  const CnpjWeights1 := [5, 4, 3, 2, 9, 8, 7, 6, 5, 4, 3, 2]
  const CnpjWeights2 := [6, 5, 4, 3, 2, 9, 8, 7, 6, 5, 4, 3, 2]

  /** `''.join(str(i % 10) for i in range(d0, d0 + 11))`: eleven digits counting up from d0. */
  function SequentialRun(d0: int): (r: string)
    requires 0 <= d0 <= 9
    ensures |r| == 11 && AllDigits(r)
    ensures forall i :: 0 <= i < 11 ==> DigitValue(r[i]) == (d0 + i) % 10
  {
    var r := seq(11, i requires 0 <= i < 11 => DigitChar((d0 + i) % 10));
    assert forall i :: 0 <= i < 11 ==> r[i] == DigitChar((d0 + i) % 10);
    r
  }

  /** `f"{d1}{d2}"` for two single digits. */
  function TwoDigits(d1: int, d2: int): (r: string)
    requires 0 <= d1 <= 9 && 0 <= d2 <= 9
    ensures |r| == 2 && AllDigits(r) && DigitValue(r[0]) == d1 && DigitValue(r[1]) == d2
  {
    [DigitChar(d1), DigitChar(d2)]
  }

  /** `len(set(s))` */
  function DistinctChars(s: string): nat {
    |set i | 0 <= i < |s| :: s[i]|
  }

  /**
   * `clean_cpf_cnpj`, with the second CPF weight list as a parameter: `CpfWeights2AsWritten`
   * gives the code as written, `CpfWeights2` the rule it means to implement.
   */
  function CleanCpfCnpjWith(value: Cell, cpfWeights2: seq<int>): Checked<string> {
    if IsMissing(value) then Checked(Sentinel, Some("CPF/CNPJ ausente ou vazio."))
    else CleanDigits(DigitsOnly(Str(value)), cpfWeights2)
  }

  /** What `clean_cpf_cnpj` does once it has kept only the digits of the cell. */
  function CleanDigits(cleaned: string, cpfWeights2: seq<int>): Checked<string>
    requires AllDigits(cleaned)
  {
    if cleaned == [] then Checked(Sentinel, Some("CPF/CNPJ vazio após limpeza."))
    else if |cleaned| == 11 then CpfDigits(cleaned, cpfWeights2)
    else if |cleaned| == 14 then CnpjDigits(cleaned)
    else
      Checked(Sentinel, Some("Comprimento de CPF/CNPJ inválido (" + IntToString(|cleaned|) + " dígitos, esperado 11 ou 14)."))
  }

  /** The eleven-digit branch. */
  function CpfDigits(cleaned: string, cpfWeights2: seq<int>): Checked<string>
    requires |cleaned| == 11 && AllDigits(cleaned)
  {
    if DistinctChars(cleaned) == 1 then
      Checked(Sentinel, Some("CPF inválido (todos os dígitos iguais)."))
    else if cleaned == SequentialRun(DigitValue(cleaned[0])) then
      Checked(Sentinel, Some("CPF inválido (dígitos sequenciais)."))
    else
      var ds := Digits(cleaned);
      var digit1 := CheckDigit(ds[..9], CpfWeights1);
      var digit2 := CheckDigit(ds[..9] + [digit1], cpfWeights2);
      var provided := cleaned[9..11];
      var expected := TwoDigits(digit1, digit2);
      if provided == expected then Checked(cleaned, None)
      else Checked(Sentinel, Some("Checksum de CPF inválido (esperado: " + expected + ", fornecido: " + provided + ")."))
  }

  /** The fourteen-digit branch. */
  function CnpjDigits(cleaned: string): Checked<string>
    requires |cleaned| == 14 && AllDigits(cleaned)
  {
    if DistinctChars(cleaned) == 1 then
      Checked(Sentinel, Some("CNPJ inválido (todos os dígitos iguais)."))
    else
      var ds := Digits(cleaned);
      var digit1 := CheckDigit(ds[..12], CnpjWeights1);
      var digit2 := CheckDigit(ds[..12] + [digit1], CnpjWeights2);
      var expected := TwoDigits(digit1, digit2);
      var provided := cleaned[12..14];
      if provided == expected then Checked(cleaned, None)
      else Checked(Sentinel, Some("Checksum de CNPJ inválido (esperado: " + expected + ", fornecido: " + provided + ")."))
  }

  /** `clean_cpf_cnpj` as the source writes it. */
  function CleanCpfCnpjAsWritten(value: Cell): Checked<string> {
    CleanCpfCnpjWith(value, CpfWeights2AsWritten)
  }

  /** `clean_cpf_cnpj` with the second CPF check digit taken over all ten preceding digits. */
  function CleanCpfCnpj(value: Cell): Checked<string> {
    CleanCpfCnpjWith(value, CpfWeights2)
  }

  // ---------------------------------------------------------------- the rules, stated directly

  /** Every digit is the same one. */
  predicate Uniform(ds: seq<int>) {
    forall i :: 0 <= i < |ds| ==> ds[i] == ds[0]
  }

  /** Each digit is one more than the one before it, modulo 10. */
  predicate Ascending(ds: seq<int>) {
    forall i :: 0 <= i < |ds| ==> ds[i] == (ds[0] + i) % 10
  }

  /**
   * A CPF: eleven digits, not all equal, not a run d, d+1, ..., d+10 (mod 10), whose tenth digit
   * is the check digit of the first nine under `CpfWeights1` and whose eleventh is the check digit
   * of the first nine followed by the tenth under `weights2`.
   */
  predicate CpfRule(ds: seq<int>, weights2: seq<int>) {
    |ds| == 11 && !Uniform(ds) && !Ascending(ds)
    && ds[9] == CheckDigit(ds[..9], CpfWeights1) && ds[10] == CheckDigit(ds[..10], weights2)
  }

  /** A CNPJ: fourteen digits, not all equal, ending in the two check digits of the CNPJ weights. */
  predicate CnpjRule(ds: seq<int>) {
    |ds| == 14 && !Uniform(ds)
    && ds[12] == CheckDigit(ds[..12], CnpjWeights1) && ds[13] == CheckDigit(ds[..13], CnpjWeights2)
  }

  predicate AcceptedTaxId(s: string, cpfWeights2: seq<int>) {
    AllDigits(s) && (CpfRule(Digits(s), cpfWeights2) || CnpjRule(Digits(s)))
  }

  lemma DistinctCharsOne(s: string)
    requires s != [] && AllDigits(s)
    ensures DistinctChars(s) == 1 <==> Uniform(Digits(s))
  {
    var chars := set i | 0 <= i < |s| :: s[i];
    assert s[0] in chars;
    if forall i :: 0 <= i < |s| ==> s[i] == s[0] {
      assert chars == {s[0]};
    } else {
      var j :| 0 <= j < |s| && s[j] != s[0];
      assert s[j] in chars;
      assert {s[0], s[j]} <= chars;
      assert |{s[0], s[j]}| == 2;
      SubsetCard({s[0], s[j]}, chars);
    }
    if Uniform(Digits(s)) {
      forall i | 0 <= i < |s| ensures s[i] == s[0] {
        assert DigitValue(s[i]) == DigitValue(s[0]);
      }
    }
  }

  lemma SubsetCard<T>(a: set<T>, b: set<T>)
    requires a <= b
    ensures |a| <= |b|
  {
    if a != {} {
      var x :| x in a;
      SubsetCard(a - {x}, b - {x});
    }
  }

  lemma SequentialRunMatches(s: string)
    requires |s| == 11 && AllDigits(s)
    ensures s == SequentialRun(DigitValue(s[0])) <==> Ascending(Digits(s))
  {
    var run := SequentialRun(DigitValue(s[0]));
    if Ascending(Digits(s)) {
      forall i | 0 <= i < 11 ensures s[i] == run[i] {
        assert DigitValue(s[i]) == DigitValue(run[i]);
      }
    }
  }

  lemma TwoDigitsMatch(provided: string, d1: int, d2: int)
    requires |provided| == 2 && AllDigits(provided) && 0 <= d1 <= 9 && 0 <= d2 <= 9
    ensures provided == TwoDigits(d1, d2) <==> DigitValue(provided[0]) == d1 && DigitValue(provided[1]) == d2
  {
    var e := TwoDigits(d1, d2);
    if DigitValue(provided[0]) == d1 && DigitValue(provided[1]) == d2 {
      assert provided[0] == e[0] && provided[1] == e[1];
    }
  }

  /**
   * `clean_cpf_cnpj` accepts exactly the numbers that obey the CPF or CNPJ rule, and returns them
   * unchanged; every rejection returns the sentinel with a reason.
   */
  lemma CleanCpfCnpjAccepts(value: Cell, cpfWeights2: seq<int>)
    ensures var r := CleanCpfCnpjWith(value, cpfWeights2);
            (r.reason.None? <==> !IsMissing(value) && AcceptedTaxId(DigitsOnly(Str(value)), cpfWeights2))
            && (r.reason.None? ==> r.value == DigitsOnly(Str(value)))
            && (r.reason.Some? ==> r.value == Sentinel && r.reason.value != [])
  {
    if !IsMissing(value) {
      CleanDigitsAccepts(DigitsOnly(Str(value)), cpfWeights2);
    }
  }

  lemma CleanDigitsAccepts(cleaned: string, cpfWeights2: seq<int>)
    requires AllDigits(cleaned)
    ensures var r := CleanDigits(cleaned, cpfWeights2);
            (r.reason.None? <==> AcceptedTaxId(cleaned, cpfWeights2))
            && (r.reason.None? ==> r.value == cleaned)
            && (r.reason.Some? ==> r.value == Sentinel && r.reason.value != [])
  {
    if |cleaned| == 11 {
      CpfCase(cleaned, cpfWeights2);
    } else if |cleaned| == 14 {
      CnpjCase(cleaned);
    }
  }

  /** The eleven-digit branch accepts exactly `CpfRule`. */
  lemma CpfCase(cleaned: string, cpfWeights2: seq<int>)
    requires |cleaned| == 11 && AllDigits(cleaned)
    ensures var r := CpfDigits(cleaned, cpfWeights2);
            (r.reason.None? <==> CpfRule(Digits(cleaned), cpfWeights2))
            && (r.reason.None? ==> r.value == cleaned)
            && (r.reason.Some? ==> r.value == Sentinel && r.reason.value != [])
  {
    var ds := Digits(cleaned);
    DistinctCharsOne(cleaned);
    SequentialRunMatches(cleaned);
    var digit1 := CheckDigit(ds[..9], CpfWeights1);
    var digit2 := CheckDigit(ds[..9] + [digit1], cpfWeights2);
    TwoDigitsMatch(cleaned[9..11], digit1, digit2);
    if ds[9] == digit1 {
      assert ds[..10] == ds[..9] + [digit1];
    }
  }

  /** The fourteen-digit branch accepts exactly `CnpjRule`. */
  lemma CnpjCase(cleaned: string)
    requires |cleaned| == 14 && AllDigits(cleaned)
    ensures var r := CnpjDigits(cleaned);
            (r.reason.None? <==> CnpjRule(Digits(cleaned)))
            && (r.reason.None? ==> r.value == cleaned)
            && (r.reason.Some? ==> r.value == Sentinel && r.reason.value != [])
  {
    var ds := Digits(cleaned);
    DistinctCharsOne(cleaned);
    var digit1 := CheckDigit(ds[..12], CnpjWeights1);
    var digit2 := CheckDigit(ds[..12] + [digit1], CnpjWeights2);
    TwoDigitsMatch(cleaned[12..14], digit1, digit2);
    if ds[12] == digit1 {
      assert ds[..13] == ds[..12] + [digit1];
    }
  }

  // ---------------------------------------------------------------- the second CPF weight list

  lemma CpfWeightsListed()
    ensures CpfWeights1 == [10, 9, 8, 7, 6, 5, 4, 3, 2]
    ensures CpfWeights2 == [11, 10, 9, 8, 7, 6, 5, 4, 3, 2]
    ensures CpfWeights2AsWritten == [11, 10, 9, 8, 7, 6, 5, 4, 3]
  {
  }

  /** The first `n` products only look at the first `n` weights. */
  lemma {:induction false} WeightedPrefixOfLonger(ds: seq<int>, ws: seq<int>, more: seq<int>, n: nat)
    requires n <= |ds| && n <= |ws|
    ensures WeightedPrefix(ds, ws + more, n) == WeightedPrefix(ds, ws, n)
  {
    if n > 0 {
      WeightedPrefixOfLonger(ds, ws, more, n - 1);
    }
  }

  /** One more weight adds one more product, as long as there is a digit to take it. */
  lemma WeightedSumSnoc(ds: seq<int>, ws: seq<int>, w: int)
    requires |ds| == |ws| + 1
    ensures WeightedSum(ds, ws + [w]) == WeightedSum(ds, ws) + ds[|ws|] * w
  {
    WeightedPrefixOfLonger(ds, ws, [w], |ws|);
  }

  /**
   * The nine weights of `range(11, 2, -1)` leave out the tenth digit's product: the weighted sum
   * they give falls short of the intended one by twice the tenth digit. The two rules therefore
   * agree on every number whose tenth digit is 0.
   */
  lemma CpfRulesAgreeWhenTenthIsZero(ds: seq<int>)
    requires |ds| == 11 && ds[9] == 0
    ensures CpfRule(ds, CpfWeights2AsWritten) <==> CpfRule(ds, CpfWeights2)
  {
    CpfWeightsListed();
    assert CpfWeights2 == CpfWeights2AsWritten + [2];
    WeightedSumSnoc(ds[..10], CpfWeights2AsWritten, 2);
  }

  lemma CpfExampleSum1()
    ensures WeightedSum([5, 2, 9, 9, 8, 2, 2, 4, 7], [10, 9, 8, 7, 6, 5, 4, 3, 2]) == 295
  {
  }

  lemma CpfExampleSum2()
    ensures WeightedSum([5, 2, 9, 9, 8, 2, 2, 4, 7, 2], [11, 10, 9, 8, 7, 6, 5, 4, 3, 2]) == 347
  {
  }

  lemma CpfExampleSum2AsWritten()
    ensures WeightedSum([5, 2, 9, 9, 8, 2, 2, 4, 7, 2], [11, 10, 9, 8, 7, 6, 5, 4, 3]) == 343
  {
  }

  /** A well-formed CPF whose tenth digit is not 0. */
  const CpfExample := "52998224725"
  const CpfExampleDigits: seq<int> := [5, 2, 9, 9, 8, 2, 2, 4, 7, 2, 5]

  lemma CpfExampleText()
    ensures !IsMissing(Text(CpfExample)) && DigitsOnly(Str(Text(CpfExample))) == CpfExample
  {
    assert AllDigits("52998224725");
    StripNoOp("52998224725");
  }

  lemma CpfExampleDigitValues()
    ensures AllDigits(CpfExample) && Digits(CpfExample) == CpfExampleDigits
  {
    assert AllDigits("52998224725");
  }

  lemma CpfExampleRules()
    ensures CpfRule(CpfExampleDigits, CpfWeights2) && !CpfRule(CpfExampleDigits, CpfWeights2AsWritten)
  {
    CpfWeightsListed();
    CpfExampleSum1();
    CpfExampleSum2();
    CpfExampleSum2AsWritten();
    var ds := CpfExampleDigits;
    assert ds[..9] == [5, 2, 9, 9, 8, 2, 2, 4, 7];
    assert ds[..10] == [5, 2, 9, 9, 8, 2, 2, 4, 7, 2];
    assert !Uniform(ds) by { assert ds[1] != ds[0]; }
    assert !Ascending(ds) by { assert ds[1] != (ds[0] + 1) % 10; }
  }

  /**
   * 529.982.247-25 is a valid CPF (second check digit 5 over all ten preceding digits), but the
   * code as written computes 9 for it and rejects it; the corrected rule accepts it unchanged.
   */
  lemma CpfWeightsFinding()
    ensures CleanCpfCnpj(Text(CpfExample)) == Checked(CpfExample, None)
    ensures CleanCpfCnpjAsWritten(Text(CpfExample)).value == Sentinel
    ensures CleanCpfCnpjAsWritten(Text(CpfExample)).reason.Some?
  {
    CpfExampleRules();
    CpfExampleOutcome(CpfWeights2);
    CpfExampleOutcome(CpfWeights2AsWritten);
  }

  /** The example is eleven digits long, so it is judged by the CPF rule alone. */
  lemma CpfExampleOutcome(cpfWeights2: seq<int>)
    ensures var r := CleanCpfCnpjWith(Text(CpfExample), cpfWeights2);
            (r.reason.None? <==> CpfRule(CpfExampleDigits, cpfWeights2))
            && (r.reason.None? ==> r.value == CpfExample)
            && (r.reason.Some? ==> r.value == Sentinel)
  {
    CpfExampleText();
    CpfExampleDigitValues();
    CleanCpfCnpjAccepts(Text(CpfExample), cpfWeights2);
  }
}
