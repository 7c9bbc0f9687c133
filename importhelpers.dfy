/**
 * The helper validators of the import script. They share names with the field validators but are
 * weaker: they only clean, and answer `None` where the field validators give a sentinel and a
 * reason.
 */
module ImportHelpers {
  import opened Wrappers
  import opened Strings
  import opened Cells
  import opened States
  import opened Calendar
  import TaxId
  import Validators

  // ---------------------------------------------------------------- clean_cpf_cnpj

  /** `clean_cpf_cnpj(value)`: the digits of the cell, or `None` for an empty cell. */
  function CleanCpfCnpj(value: Cell): Option<string> {
    if value.Empty? then None else Some(DigitsOnly(Str(value)))
  }

  /**
   * Only an empty cell gives `None`; anything else gives exactly the digits of its text, in
   * order, so cleaning the result again changes nothing.
   */
  lemma CleanCpfCnpjOutcome(value: Cell)
    ensures var r := CleanCpfCnpj(value);
            (r.None? <==> value.Empty?)
            && (r.Some? ==> AllDigits(r.value)
                            && (forall c :: c in r.value <==> c in Str(value) && IsDigit(c))
                            && CleanCpfCnpj(Text(r.value)) == r)
  {
  }

  /**
   * Whatever the field validator accepts as a CPF or CNPJ, as written (`CpfWeights2AsWritten`) or
   * corrected (`CpfWeights2`), the import gate lets through with the same digits: eleven or
   * fourteen of them.
   */
  lemma StrictCpfPassesImportGate(value: Cell, cpfWeights2: seq<int>)
    requires TaxId.CleanCpfCnpjWith(value, cpfWeights2).reason.None?
    ensures var r := CleanCpfCnpj(value);
            r == Some(TaxId.CleanCpfCnpjWith(value, cpfWeights2).value) && (|r.value| == 11 || |r.value| == 14)
  {
    TaxId.CleanCpfCnpjAccepts(value, cpfWeights2);
  }

  // ---------------------------------------------------------------- convert_excel_date

  /**
   * `convert_excel_date(excel_date)`: a whole number is a day count from the spreadsheet epoch;
   * any other cell, and a count the time span type cannot hold, gives `None`.
   */
  function ConvertExcelDate(value: Cell): Option<Date> {
    match value
    case Int(n) => ExcelSerialDate(n)
    case _ => None
  }

  /**
   * A number gives the same date as the field validator's conversion, and every date within
   * reach of the epoch comes back from its own serial number.
   */
  lemma ConvertExcelDateAgrees(n: int, fieldName: string, parsedText: Result<Date>, overflow: string)
    ensures ConvertExcelDate(Int(n)) == Validators.ConvertExcelDate(Int(n), fieldName, parsedText, overflow).value
    ensures ConvertExcelDate(Int(n)).Some? <==> -MaxTimedeltaDays <= n <= MaxTimedeltaDays
  {
    Validators.ConvertExcelDateOfSerial(n, fieldName, parsedText, overflow);
  }

  lemma ConvertExcelDateOfDate(d: Date)
    requires ValidDate(d)
    requires -MaxTimedeltaDays <= Ordinal(d) - Ordinal(ExcelEpoch) <= MaxTimedeltaDays
    ensures ConvertExcelDate(Int(Ordinal(d) - Ordinal(ExcelEpoch))) == Some(d)
  {
    FromOrdinalOfOrdinal(d);
  }

  /** Text is never converted: the import only reads numeric dates. */
  lemma ConvertExcelDateIgnoresText(s: string)
    ensures ConvertExcelDate(Text(s)) == None && ConvertExcelDate(Empty) == None
  {
  }

  // ---------------------------------------------------------------- clean_phone

  /** `clean_phone(phone)`: the digits of the cell when there are at least ten of them. */
  function CleanPhone(phone: Cell): Option<string> {
    if phone.Empty? then None
    else
      var cleaned := DigitsOnly(Str(phone));
      if |cleaned| < 10 then None else Some(cleaned)
  }

  /**
   * `None` exactly for an empty cell or fewer than ten digits; otherwise the bare digits, with no
   * country code added or removed and no upper bound on the length. Cleaning the result again
   * gives it back.
   */
  lemma CleanPhoneOutcome(phone: Cell)
    ensures var r := CleanPhone(phone);
            (r.None? <==> phone.Empty? || |DigitsOnly(Str(phone))| < 10)
            && (r.Some? ==> r.value == DigitsOnly(Str(phone)) && |r.value| >= 10 && AllDigits(r.value)
                            && CleanPhone(Text(r.value)) == r)
  {
    if !phone.Empty? {
      var cleaned := DigitsOnly(Str(phone));
      assert DigitsOnly(Str(Text(cleaned))) == cleaned;
    }
  }

  /**
   * Where the field validator accepts a phone, this helper keeps its digits too, and it keeps
   * the 55 country code that the field validator drops from a thirteen-digit number.
   */
  lemma StrictPhoneKeptByImport(phone: Cell, fieldName: string)
    requires Validators.CleanPhone(phone, fieldName).value.Some?
    ensures CleanPhone(phone) == Some(DigitsOnly(Str(phone)))
  {
    Validators.CleanPhoneOutcome(phone, fieldName);
    var cleaned := DigitsOnly(Str(phone));
    var n := Validators.NationalNumber(cleaned);
    assert |n| <= |cleaned|;
  }

  // ---------------------------------------------------------------- clean_cep

  /** `clean_cep(cep, row_index)`: eight digits, left-padded with zeros; `None` when empty or too long. */
  function CleanCep(cep: Cell): Option<string> {
    if cep.Empty? then None else PadCep(DigitsOnly(Str(cep)))
  }

  /** What `clean_cep` makes of the digits it kept. */
  function PadCep(cleaned: string): Option<string> {
    if |cleaned| != 8 then
      if |cleaned| < 8 then Some(ZFill(cleaned, 8)) else None
    else Some(cleaned)
  }

  lemma PadCepOutcome(digits: string)
    requires AllDigits(digits)
    ensures var r := PadCep(digits);
            (r.None? <==> |digits| > 8)
            && (r.Some? ==> |r.value| == 8 && AllDigits(r.value)
                            && r.value == Zeros(8 - |digits|) + digits
                            && DigitsValue(r.value) == DigitsValue(digits))
  {
    if |digits| <= 8 {
      LeadingZerosValue(8 - |digits|, digits);
      if |digits| == 8 {
        assert Zeros(0) + digits == digits;
      }
    }
  }

  /**
   * `None` exactly for an empty cell or more than eight digits; otherwise eight digits that are
   * the cell's digits behind enough zeros, so their value is the value of the cell's digits.
   */
  lemma CleanCepOutcome(cep: Cell)
    ensures var r := CleanCep(cep);
            (r.None? <==> cep.Empty? || |DigitsOnly(Str(cep))| > 8)
            && (r.Some? ==> var digits := DigitsOnly(Str(cep));
                            |r.value| == 8 && AllDigits(r.value)
                            && r.value == Zeros(8 - |digits|) + digits
                            && DigitsValue(r.value) == DigitsValue(digits))
  {
    if !cep.Empty? {
      var digits := DigitsOnly(Str(cep));
      assert CleanCep(cep) == PadCep(digits);
      PadCepOutcome(digits);
    }
  }

  /** What comes back is always eight digits. */
  lemma CleanCepShape(cep: Cell)
    ensures CleanCep(cep).Some? ==> |CleanCep(cep).value| == 8 && AllDigits(CleanCep(cep).value)
  {
    CleanCepOutcome(cep);
  }

  /** Cleaning a cleaned CEP gives it back. */
  lemma CleanCepStable(cep: Cell)
    requires CleanCep(cep).Some?
    ensures CleanCep(Text(CleanCep(cep).value)) == CleanCep(cep)
  {
    CleanCepOutcome(cep);
  }

  /** A cell without digits is not rejected: it becomes eight zeros. */
  lemma CleanCepOfLetters()
    ensures CleanCep(Text("abc")) == Some("00000000")
  {
    assert DigitsOnly("abc") == [];
    assert ZFill([], 8) == Zeros(8);
    assert forall i :: 0 <= i < 8 ==> Zeros(8)[i] == "00000000"[i];
    assert Zeros(8) == "00000000";
  }

  /**
   * Where the field validator accepts a CEP, this helper gives the same eight digits; it also
   * turns a digit-free or blank cell, which the field validator rejects, into eight zeros.
   */
  lemma StrictCepAgrees(cep: Cell)
    requires Validators.CleanCep(cep).reason.None?
    ensures CleanCep(cep) == Some(Validators.CleanCep(cep).value)
  {
    Validators.CleanCepOutcome(cep);
    CleanCepOutcome(cep);
  }

  // ---------------------------------------------------------------- encode_string

  /**
   * `encode_string(value, max_length)`: the text of the cell, cut to `max_length` characters when
   * a non-zero maximum is given; `None` for an empty cell. No trimming happens here.
   */
  function EncodeString(value: Cell, maxLength: Option<nat>): Option<string> {
    if value.Empty? then None
    else
      var s := Str(value);
      if maxLength.Some? && maxLength.value != 0 && |s| > maxLength.value then Some(s[..maxLength.value])
      else Some(s)
  }

  /**
   * The result is the longest prefix of the cell's text that fits the maximum (a zero or absent
   * maximum means no limit), and encoding it again with the same maximum gives it back.
   */
  lemma EncodeStringOutcome(value: Cell, maxLength: Option<nat>)
    ensures var r := EncodeString(value, maxLength);
            (r.None? <==> value.Empty?)
            && (r.Some? ==>
                  var s := Str(value);
                  var limit := if maxLength.Some? && maxLength.value != 0 then maxLength.value else |s|;
                  |r.value| == (if |s| < limit then |s| else limit)
                  && r.value == s[..|r.value|]
                  && EncodeString(Text(r.value), maxLength) == r)
  {
  }

  // ---------------------------------------------------------------- normalize_uf

  /**
   * `normalize_uf(uf, row_index)`: the trimmed, upper-cased text when it is a code, the code of
   * the state it names exactly, or `None`.
   */
  function NormalizeUf(uf: Cell): Option<string> {
    if uf.Empty? then None
    else
      var u := Upper(Strip(Str(uf)));
      if |u| == 2 && IsCode(u) then Some(u)
      else CodeOf(u)
  }

  /**
   * A code comes back exactly when the trimmed, upper-cased text is a code or a state name (no
   * case-insensitive match beyond upper-casing), and what comes back is always a code.
   */
  lemma NormalizeUfOutcome(uf: Cell)
    ensures var r := NormalizeUf(uf);
            var u := Upper(Strip(Str(uf)));
            (r.Some? <==> !uf.Empty? && (IsCode(u) || IsName(u)))
            && (r.Some? ==> IsCode(r.value))
  {
    if !uf.Empty? {
      UfTextOutcome(Upper(Strip(Str(uf))));
    }
  }

  /** The same, on the trimmed, upper-cased text `u`. */
  lemma UfTextOutcome(u: string)
    ensures var r := if |u| == 2 && IsCode(u) then Some(u) else CodeOf(u);
            (r.Some? <==> IsCode(u) || IsName(u)) && (r.Some? ==> IsCode(r.value))
  {
    TableShape();
    if !(|u| == 2 && IsCode(u)) {
      forall i | 0 <= i < |UfMapping|
        ensures UfMapping[i].1 != u
      {
        assert |UfMapping[i].1| == 2;
      }
      match CodeOf(u)
      case Some(c) =>
        var j :| 0 <= j < |UfMapping| && UfMapping[j].0 == u && UfMapping[j].1 == c;
        assert IsCode(c);
      case None =>
    }
  }

  /** What comes back is always a code. */
  lemma NormalizeUfCode(uf: Cell)
    ensures NormalizeUf(uf).Some? ==> IsCode(NormalizeUf(uf).value)
  {
    NormalizeUfOutcome(uf);
  }

  /** Whatever state this helper recognises, the field validator recognises too. */
  lemma ImportUfRecognisedByStrict(uf: Cell)
    requires NormalizeUf(uf).Some?
    ensures Validators.NormalizeUf(uf).reason.None?
  {
    NormalizeUfOutcome(uf);
    Validators.NormalizeUfOutcome(uf);
    var u := Upper(Strip(Str(uf)));
    assert Strip(Str(uf)) != [] by {
      if Strip(Str(uf)) == [] {
        assert u == [];
        TableShape();
      }
    }
    if !IsCode(u) {
      var j :| 0 <= j < |UfMapping| && UfMapping[j].0 == u;
      assert Validators.NameMatches(u, j);
    }
  }

  // ---------------------------------------------------------------- validate_dia_vencimento

  /**
   * `validate_dia_vencimento(dia, row_index)`: `int(dia)` when it lies in 1..31; `None` for an
   * empty cell, text `int` refuses, and anything out of range.
   */
  function ValidateDiaVencimento(dia: Cell): Option<int> {
    var parsed := match dia
      case Empty => None
      case Int(n) => Some(n)
      case Text(s) => ParseInt(s);
    match parsed
    case None => None
    case Some(d) => if d < 1 || d > 31 then None else Some(d)
  }

  /** A day comes back exactly when the cell reads as a whole number in 1..31, and it is that number. */
  lemma ValidateDiaVencimentoOutcome(dia: Cell)
    ensures var r := ValidateDiaVencimento(dia);
            var parsed := if dia.Empty? then None else if dia.Int? then Some(dia.n) else ParseInt(dia.s);
            (r.Some? <==> parsed.Some? && 1 <= parsed.value <= 31)
            && (r.Some? ==> r == parsed)
  {
  }

  /** A number and its text give the same day. */
  lemma ValidateDiaVencimentoOfNumber(n: int)
    ensures ValidateDiaVencimento(Int(n)) == ValidateDiaVencimento(Text(IntToString(n)))
    ensures ValidateDiaVencimento(Int(n)).Some? <==> 1 <= n <= 31
  {
    ParseIntOfIntToString(n);
  }

  /**
   * Text with a decimal point is refused here, while the field validator, which reads it as a
   * float, accepts it.
   */
  lemma DecimalDayRefused()
    ensures ValidateDiaVencimento(Text("15.0")) == None
    ensures Validators.ValidateDiaVencimento(Text("15.0")) == Checked(15, None)
  {
    DecimalDayRefusedHere();
    DecimalDayAcceptedByValidator();
  }

  lemma DecimalDayRefusedHere()
    ensures ValidateDiaVencimento(Text("15.0")) == None
  {
    DecimalTextNotInt();
  }

  lemma DecimalDayAcceptedByValidator()
    ensures Validators.ValidateDiaVencimento(Text("15.0")) == Checked(15, None)
  {
    DecimalTextPresent();
    DecimalTextTruncates();
  }

  lemma DecimalTextPresent()
    ensures !IsMissing(Text("15.0")) && Strip(Str(Text("15.0"))) == "15.0"
  {
    DecimalTextNotInt();
    assert Str(Text("15.0")) == "15.0";
  }

  lemma DecimalTextNotInt()
    ensures Strip("15.0") == "15.0"
    ensures ParseInt("15.0") == None
  {
    StripNoOp("15.0");
    assert !IsDigit("15.0"[2]);
  }

  lemma DecimalTextTruncates()
    ensures ParseTruncatedDecimal("15.0") == Some(15)
  {
    StripNoOp("15.0");
    assert UnsignedDecimal("15.0") == Some(15) by {
      assert IndexOf("15.0", '.') == 2;
      assert "15.0"[..2] == "15";
      assert "15.0"[3..] == "0";
      assert DigitsValue("15") == 15 by { assert "15"[..1] == "1"; }
    }
  }
}
