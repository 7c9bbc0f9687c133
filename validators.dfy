/**
 * The field validators of the validation script other than the CPF/CNPJ check: each takes one
 * raw cell and answers with the normalised value (or a sentinel) and, when it rejects the cell,
 * the reason, in the script's own Portuguese wording.
 */
module Validators {
  import opened Wrappers
  import opened Strings
  import opened Cells
  import opened States
  import opened Calendar

  // ---------------------------------------------------------------- clean_phone

  const PhoneReasonSuffix :=
    " inválido (10 dígitos para fixo, 11 dígitos com terceiro dígito após DDD como 9/8/7/6 para móvel)."

  /** A mobile number: two-digit area code, then 9, 8, 7 or 6, eleven digits in all. */
  predicate IsMobile(n: string) {
    |n| == 11 && AllDigits(n) && n[2] in "9876"
  }

  /** A landline number: area code and eight digits, ten digits in all. */
  predicate IsLandline(n: string) {
    |n| == 10 && AllDigits(n)
  }

  /** What `clean_phone` hands back: "+55" and a mobile or landline number. */
  predicate IsNormalisedPhone(v: string) {
    |v| >= 3 && v[..3] == "+55" && (IsMobile(v[3..]) || IsLandline(v[3..]))
  }

  /**
   * The number without its country code. Of the source's two branches only the first, a 13-digit
   * value starting with "55", can fire: the second looks for a "+" in a string of digits.
   */
  function NationalNumber(cleaned: string): (n: string)
    requires AllDigits(cleaned)
    ensures n == if |cleaned| == 13 && StartsWith(cleaned, "55") then cleaned[2..] else cleaned
    ensures AllDigits(n)
  {
    NoPlusAmongDigits(cleaned);
    if StartsWith(cleaned, "55") && |cleaned| == 13 then
      assert forall i :: 0 <= i < |cleaned| - 2 ==> cleaned[2..][i] == cleaned[i + 2];
      cleaned[2..]
    else if StartsWith(cleaned, "+55") && |cleaned| == 14 then
      assert false;
      cleaned
    else cleaned
  }

  lemma NoPlusAmongDigits(s: string)
    requires AllDigits(s)
    ensures !StartsWith(s, "+55")
  {
    if |s| >= 3 {
      assert s[..3][0] == s[0] != '+';
    }
  }

  /** `clean_phone(phone, row_index, field_name)` */
  function CleanPhone(phone: Cell, fieldName: string): Checked<Option<string>> {
    if IsMissing(phone) then Checked(None, None)
    else
      var cleaned := DigitsOnly(Str(phone));
      if cleaned == [] then Checked(None, None)
      else PhoneShape(NationalNumber(cleaned), fieldName)
  }

  /** The shape test `clean_phone` ends with, on the national number `n`. */
  function PhoneShape(n: string, fieldName: string): Checked<Option<string>> {
    if |n| == 11 && n[2] in "9876" then Checked(Some("+55" + n), None)
    else if |n| == 10 then Checked(Some("+55" + n), None)
    else Checked(None, Some(fieldName + PhoneReasonSuffix))
  }

  /** A national number of digits is accepted, behind "+55", exactly when it is a mobile or landline one. */
  lemma PhoneShapeOutcome(n: string, fieldName: string)
    requires AllDigits(n)
    ensures var r := PhoneShape(n, fieldName);
            (r.value.Some? <==> IsMobile(n) || IsLandline(n))
            && (r.value.Some? ==> r.value.value == "+55" + n && IsNormalisedPhone(r.value.value) && r.reason.None?)
            && (r.value.None? ==> r.reason == Some(fieldName + PhoneReasonSuffix))
  {
    assert ("+55" + n)[..3] == "+55" && ("+55" + n)[3..] == n;
  }

  /**
   * A blank or digit-free cell is no phone and no error; otherwise the number is accepted, as
   * "+55" and its national number, exactly when that national number is a mobile or landline one.
   */
  lemma CleanPhoneOutcome(phone: Cell, fieldName: string)
    ensures var r := CleanPhone(phone, fieldName);
            ((IsMissing(phone) || DigitsOnly(Str(phone)) == []) ==> r == Checked(None, None))
            && (!IsMissing(phone) && DigitsOnly(Str(phone)) != [] ==>
                  var n := NationalNumber(DigitsOnly(Str(phone)));
                  (r.value.Some? <==> IsMobile(n) || IsLandline(n))
                  && (r.value.Some? ==> r.value.value == "+55" + n && IsNormalisedPhone(r.value.value)
                                        && r.reason.None?)
                  && (r.value.None? ==> r.reason == Some(fieldName + PhoneReasonSuffix)))
  {
    if !IsMissing(phone) && DigitsOnly(Str(phone)) != [] {
      var cleaned := DigitsOnly(Str(phone));
      CleanPhoneOfDigits(phone, fieldName);
      PhoneShapeOutcome(NationalNumber(cleaned), fieldName);
    }
  }

  lemma CleanPhoneOfDigits(phone: Cell, fieldName: string)
    requires !IsMissing(phone) && DigitsOnly(Str(phone)) != []
    ensures AllDigits(NationalNumber(DigitsOnly(Str(phone))))
    ensures CleanPhone(phone, fieldName) == PhoneShape(NationalNumber(DigitsOnly(Str(phone))), fieldName)
  {
    var cleaned := DigitsOnly(Str(phone));
    assert CleanPhone(phone, fieldName) == PhoneShape(NationalNumber(cleaned), fieldName);
  }

  /** The digits of a normalised phone: the country code's "55" and the national number. */
  lemma NormalisedPhoneDigits(v: string)
    requires IsNormalisedPhone(v)
    ensures !IsMissing(Text(v)) && DigitsOnly(Str(Text(v))) == "55" + v[3..]
  {
    NormalisedPhoneNotBlank(v);
    assert v == "+55" + v[3..];
    DigitsOnlyAppend("+55", v[3..]);
    CountryCodeDigits();
  }

  lemma NormalisedPhoneNotBlank(v: string)
    requires IsNormalisedPhone(v)
    ensures !IsMissing(Text(v))
  {
    assert v[0] == v[..3][0] == '+';
    assert v[|v| - 1] == v[3..][|v| - 4];
    StripNoOp(v);
  }

  lemma CountryCodeDigits()
    ensures DigitsOnly("+55") == "55"
  {
  }

  lemma CountryCodeDropped(n: string)
    requires IsMobile(n)
    ensures AllDigits("55" + n) && NationalNumber("55" + n) == n
  {
    var cleaned := "55" + n;
    assert cleaned[..2] == "55" && cleaned[2..] == n;
  }

  /** Cleaning a normalised mobile number again gives it back unchanged. */
  lemma CleanPhoneMobileStable(v: string, fieldName: string)
    requires IsNormalisedPhone(v) && IsMobile(v[3..])
    ensures CleanPhone(Text(v), fieldName) == Checked(Some(v), None)
  {
    NormalisedPhoneDigits(v);
    var n := v[3..];
    CountryCodeDropped(n);
    PhoneShapeOutcome(n, fieldName);
    assert "+55" + n == v;
  }

  /** A normalised landline number, twelve digits with its country code, is rejected when cleaned again. */
  lemma CleanPhoneLandlineNotStable(v: string, fieldName: string)
    requires IsNormalisedPhone(v) && IsLandline(v[3..])
    ensures CleanPhone(Text(v), fieldName) == Checked(None, Some(fieldName + PhoneReasonSuffix))
  {
    NormalisedPhoneDigits(v);
  }

  // ---------------------------------------------------------------- clean_email

  predicate IsAsciiLetter(c: char) {
    'a' <= c <= 'z' || 'A' <= c <= 'Z'
  }

  /** `[a-zA-Z0-9._%+-]` */
  predicate IsLocalChar(c: char) {
    IsAsciiLetter(c) || IsDigit(c) || c in "._%+-"
  }

  /** `[a-zA-Z0-9.-]` */
  predicate IsDomainChar(c: char) {
    IsAsciiLetter(c) || IsDigit(c) || c in ".-"
  }

  predicate AllLocal(s: string) { forall i :: 0 <= i < |s| ==> IsLocalChar(s[i]) }

  predicate AllDomain(s: string) { forall i :: 0 <= i < |s| ==> IsDomainChar(s[i]) }

  predicate AllLetters(s: string) { forall i :: 0 <= i < |s| ==> IsAsciiLetter(s[i]) }

  /**
   * `s` splits as `^[a-zA-Z0-9._%+-]+@[a-zA-Z0-9.-]+\.[a-zA-Z]{2,}$` does it: a local part before
   * position `at`, the "@" at `at`, a domain up to position `dot`, the "." at `dot` and a tail of
   * at least two letters.
   */
  predicate EmailSplit(s: string, at: int, dot: int) {
    1 <= at && at + 2 <= dot && dot + 3 <= |s|
    && AllLocal(s[..at]) && s[at] == '@' && AllDomain(s[at + 1..dot])
    && s[dot] == '.' && AllLetters(s[dot + 1..])
  }

  /** The text the email pattern matches in full. */
  ghost predicate MatchesEmailPattern(s: string) {
    exists at: int, dot: int :: EmailSplit(s, at, dot)
  }

  /**
   * The pattern decided without search: the local part can hold no "@", so the "@" is the
   * first one; the tail can hold no ".", so the dot before it is the last one.
   */
  predicate IsEmailShape(s: string) {
    var at := IndexOf(s, '@');
    at < |s| && 1 <= at && AllLocal(s[..at])
    && var rest := s[at + 1..];
       var dot := LastIndexOf(rest, '.');
       AllDomain(rest) && 1 <= dot && dot + 3 <= |rest| && AllLetters(rest[dot + 1..])
  }

  lemma EmailShapeMatchesPattern(s: string)
    ensures IsEmailShape(s) <==> MatchesEmailPattern(s)
  {
    if IsEmailShape(s) {
      EmailShapeSplits(s);
    }
    if MatchesEmailPattern(s) {
      var at, dot :| EmailSplit(s, at, dot);
      EmailSplitIsShape(s, at, dot);
    }
  }

  lemma EmailShapeSplits(s: string)
    requires IsEmailShape(s)
    ensures EmailSplit(s, IndexOf(s, '@'), IndexOf(s, '@') + 1 + LastIndexOf(s[IndexOf(s, '@') + 1..], '.'))
  {
    var at := IndexOf(s, '@');
    var rest := s[at + 1..];
    var dot := LastIndexOf(rest, '.');
    assert s[at + 1..at + 1 + dot] == rest[..dot];
    assert s[at + 1 + dot + 1..] == rest[dot + 1..];
  }

  lemma EmailSplitIsShape(s: string, at: int, dot: int)
    requires EmailSplit(s, at, dot)
    ensures IsEmailShape(s)
  {
    assert IndexOf(s, '@') == at by {
      assert forall k :: 0 <= k < at ==> s[..at][k] == s[k];
    }
    var rest := s[at + 1..];
    var d := dot - at - 1;
    assert rest[..d] == s[at + 1..dot];
    assert rest[d + 1..] == s[dot + 1..];
    assert rest[d] == '.';
    assert LastIndexOf(rest, '.') == d by {
      assert forall k :: d < k < |rest| ==> rest[d + 1..][k - d - 1] == rest[k];
    }
    assert AllDomain(rest) by {
      forall i | 0 <= i < |rest| ensures IsDomainChar(rest[i]) {
        if i < d {
          assert rest[..d][i] == rest[i];
        } else if i > d {
          assert rest[d + 1..][i - d - 1] == rest[i];
        }
      }
    }
  }

  /** `clean_email(email, row_index)` */
  function CleanEmail(email: Cell): Checked<Option<string>> {
    if IsMissing(email) then Checked(None, None)
    else
      var s := Strip(Str(email));
      if IsEmailShape(s) then Checked(Some(s), None)
      else Checked(None, Some("Formato de email inválido."))
  }

  /**
   * A blank cell is no email and no error; otherwise the trimmed text is returned exactly when
   * the whole of it matches the pattern, and rejected with the format reason when it does not.
   */
  lemma CleanEmailOutcome(email: Cell)
    ensures var r := CleanEmail(email);
            (IsMissing(email) ==> r == Checked(None, None))
            && (!IsMissing(email) ==>
                  (r.value.Some? <==> MatchesEmailPattern(Strip(Str(email))))
                  && (r.value.Some? ==> r.value.value == Strip(Str(email)) && r.reason.None?)
                  && (r.value.None? ==> r.reason == Some("Formato de email inválido.")))
  {
    EmailShapeMatchesPattern(Strip(Str(email)));
  }

  /** An accepted address is accepted again, unchanged. */
  lemma CleanEmailStable(email: Cell)
    requires CleanEmail(email).value.Some?
    ensures CleanEmail(Text(CleanEmail(email).value.value)) == CleanEmail(email)
  {
    var s := CleanEmail(email).value.value;
    assert s == Strip(Str(email)) && s != [];
    StripNoOp(s);
    MissingText(s);
  }

  // ---------------------------------------------------------------- clean_cep

  const CepSentinel := "00000000"

  /** `str.isdigit()`: at least one character, and only digits. */
  predicate IsDigitString(s: string) {
    s != [] && AllDigits(s)
  }

  /** `clean_cep(cep, row_index)` */
  function CleanCep(cep: Cell): Checked<string> {
    if IsMissing(cep) then Checked(CepSentinel, Some("CEP ausente ou vazio."))
    else
      var digits := DigitsOnly(Str(cep));
      if !IsDigitString(digits) then
        Checked(CepSentinel, Some("CEP inválido (contém caracteres não numéricos)."))
      else if |digits| != 8 then
        if |digits| < 8 then Checked(ZFill(digits, 8), None)
        else Checked(CepSentinel, Some("Comprimento de CEP inválido (deve ter 8 dígitos)."))
      else Checked(digits, None)
  }

  /**
   * Every answer is eight digits. A cell with one to eight digits is accepted as those digits,
   * zero-padded on the left; anything else gets the all-zero sentinel and a reason.
   */
  lemma CleanCepOutcome(cep: Cell)
    ensures var r := CleanCep(cep);
            |r.value| == 8 && AllDigits(r.value)
            && (r.reason.None? <==> !IsMissing(cep) && 1 <= |DigitsOnly(Str(cep))| <= 8)
            && (r.reason.None? ==>
                  var digits := DigitsOnly(Str(cep));
                  r.value == Zeros(8 - |digits|) + digits)
            && (r.reason.Some? ==> r.value == CepSentinel && r.reason.value != [])
  {
    if !IsMissing(cep) && 1 <= |DigitsOnly(Str(cep))| <= 8 {
      CleanCepAccepted(cep);
    } else {
      CleanCepRejected(cep);
    }
  }

  lemma CleanCepAccepted(cep: Cell)
    requires !IsMissing(cep) && 1 <= |DigitsOnly(Str(cep))| <= 8
    ensures var digits := DigitsOnly(Str(cep));
            CleanCep(cep) == Checked(Zeros(8 - |digits|) + digits, None)
            && |Zeros(8 - |digits|) + digits| == 8 && AllDigits(Zeros(8 - |digits|) + digits)
  {
    PaddedCep(DigitsOnly(Str(cep)));
  }

  lemma CleanCepRejected(cep: Cell)
    requires IsMissing(cep) || !(1 <= |DigitsOnly(Str(cep))| <= 8)
    ensures CleanCep(cep).value == CepSentinel && CleanCep(cep).reason.Some?
    ensures CleanCep(cep).reason.value != []
  {
  }

  /** Padding to eight digits keeps the digits at the end and their value. */
  lemma PaddedCep(digits: string)
    requires 1 <= |digits| <= 8 && AllDigits(digits)
    ensures var v := if |digits| < 8 then ZFill(digits, 8) else digits;
            |v| == 8 && AllDigits(v) && v == Zeros(8 - |digits|) + digits && DigitsValue(v) == DigitsValue(digits)
  {
    assert Zeros(0) + digits == digits;
    LeadingZerosValue(8 - |digits|, digits);
  }

  /** An accepted postcode is accepted again, unchanged. */
  lemma CleanCepStable(cep: Cell)
    requires CleanCep(cep).reason.None?
    ensures CleanCep(Text(CleanCep(cep).value)) == CleanCep(cep)
  {
    CleanCepOutcome(cep);
    EightDigitsAccepted(CleanCep(cep).value);
  }

  lemma EightDigitsAccepted(v: string)
    requires |v| == 8 && AllDigits(v)
    ensures CleanCep(Text(v)) == Checked(v, None)
  {
    assert IsDigit(v[0]) && IsDigit(v[7]);
    StripNoOp(v);
  }

  // ---------------------------------------------------------------- encode_string

  /**
   * `encode_string(value, max_length, default)`, the UTF-8 round trip being the identity: the
   * trimmed text, cut to `maxLength` characters when a positive limit is given.
   */
  function EncodeString(value: Cell, maxLength: Option<nat>, default: Option<string>): Checked<Option<string>> {
    if IsMissing(value) then Checked(default, None)
    else
      var s := Strip(Str(value));
      if s == [] then Checked(default, None)
      else if maxLength.Some? && maxLength.value > 0 && |s| > maxLength.value then
        Checked(Some(s[..maxLength.value]), None)
      else Checked(Some(s), None)
  }

  /**
   * A blank cell gives the default; anything else gives a non-empty prefix of its trimmed text,
   * all of it when it fits the limit and exactly the limit's length when it does not. No reason
   * is ever given.
   */
  lemma EncodeStringOutcome(value: Cell, maxLength: Option<nat>, default: Option<string>)
    ensures var r := EncodeString(value, maxLength, default);
            r.reason.None?
            && (IsMissing(value) ==> r.value == default)
            && (!IsMissing(value) ==>
                  var s := Strip(Str(value));
                  r.value.Some? && r.value.value != [] && r.value.value == s[..|r.value.value|]
                  && (maxLength.Some? && maxLength.value > 0 ==> |r.value.value| <= maxLength.value)
                  && (maxLength.None? || maxLength.value == 0 || |s| <= maxLength.value ==> r.value.value == s)
                  && (maxLength.Some? && 0 < maxLength.value < |s| ==> |r.value.value| == maxLength.value))
  {
  }

  /**
   * Encoding an encoded text again trims the whitespace a cut may have left at its end and
   * changes nothing else; text that was not cut comes back as it was.
   */
  lemma EncodeStringTwice(value: Cell, maxLength: Option<nat>, default: Option<string>)
    requires !IsMissing(value)
    ensures var t := EncodeString(value, maxLength, default).value.value;
            EncodeString(Text(t), maxLength, default) == Checked(Some(Strip(t)), None)
            && (t == Strip(Str(value)) ==> Strip(t) == t)
  {
    var s := Strip(Str(value));
    var t := EncodeString(value, maxLength, default).value.value;
    assert t[0] == s[0];
    StripKeepsFirst(t);
    if t == s {
      StripNoOp(s);
    }
  }

  /** Text that does not start with whitespace keeps its first character under strip. */
  lemma StripKeepsFirst(t: string)
    requires t != [] && !IsSpace(t[0])
    ensures Strip(t) != [] && Strip(t) == t[..|Strip(t)|] && !IsMissing(Text(t))
  {
    assert !IsSpace(t[0]);
    assert LeadingSpaces(t) == 0;
  }

  // ---------------------------------------------------------------- normalize_uf

  /** The name `key` answers to `u`: `u == key or u.lower() == key.lower()`. */
  predicate Answers(u: string, key: string) {
    u == key || Lower(u) == Lower(key)
  }

  /** Entry `j` of the state table answers to `u`. */
  predicate NameMatches(u: string, j: int)
    requires 0 <= j < |UfMapping|
  {
    Answers(u, UfMapping[j].0)
  }

  /** The search loop over a name-to-code table from entry `i` on: the code of the first entry answering to `u`. */
  function FindState(u: string, table: seq<(string, string)>, i: nat): Option<string>
    requires i <= |table|
    decreases |table| - i
  {
    if i == |table| then None
    else if Answers(u, table[i].0) then Some(table[i].1)
    else FindState(u, table, i + 1)
  }

  /** The search finds nothing exactly when no entry answers, and otherwise the code of the first one that does. */
  lemma {:induction false} FindStateMeans(u: string, table: seq<(string, string)>, i: nat)
    requires i <= |table|
    ensures var r := FindState(u, table, i);
            (r.None? <==> forall j :: i <= j < |table| ==> !Answers(u, table[j].0))
            && (r.Some? ==> exists j :: i <= j < |table| && Answers(u, table[j].0) && r.value == table[j].1
                                        && forall k :: i <= k < j ==> !Answers(u, table[k].0))
    decreases |table| - i
  {
    if i < |table| && !Answers(u, table[i].0) {
      FindStateMeans(u, table, i + 1);
      var r := FindState(u, table, i + 1);
      if r.Some? {
        var j :| i + 1 <= j < |table| && Answers(u, table[j].0) && r.value == table[j].1
                 && forall k :: i + 1 <= k < j ==> !Answers(u, table[k].0);
        assert forall k :: i <= k < j ==> !Answers(u, table[k].0);
      }
    }
  }

  /** `normalize_uf(uf, row_index)` */
  function NormalizeUf(uf: Cell): Checked<string> {
    if IsMissing(uf) then Checked("XX", Some("UF ausente ou vazio."))
    else NormalizeUfText(Upper(Strip(Str(uf))))
  }

  /** The lookup `normalize_uf` makes once it has trimmed and upper-cased the cell. */
  function NormalizeUfText(u: string): Checked<string> {
    if |u| == 2 && IsCode(u) then Checked(u, None)
    else match FindState(u, UfMapping, 0)
      case Some(code) => Checked(code, None)
      case None => Checked("XX", Some("UF inválido."))
  }

  /**
   * The trimmed, upper-cased cell is accepted exactly when it is one of the 27 codes or answers
   * to one of the 27 names; what is returned then is always a code, and otherwise "XX".
   */
  lemma NormalizeUfOutcome(uf: Cell)
    ensures var r := NormalizeUf(uf);
            var u := Upper(Strip(Str(uf)));
            (r.reason.None? <==>
               !IsMissing(uf) && (IsCode(u) || exists j :: 0 <= j < |UfMapping| && NameMatches(u, j)))
            && (r.reason.None? ==> IsCode(r.value))
            && (r.reason.Some? ==> r.value == "XX" && r.reason.value != [])
  {
    if !IsMissing(uf) {
      NormalizeUfTextOutcome(Upper(Strip(Str(uf))));
    }
  }

  /** The lookup on the trimmed, upper-cased text accepts exactly the codes and the names, and gives a code. */
  lemma NormalizeUfTextOutcome(u: string)
    ensures var r := NormalizeUfText(u);
            (r.reason.None? <==> IsCode(u) || exists j :: 0 <= j < |UfMapping| && NameMatches(u, j))
            && (r.reason.None? ==> IsCode(r.value))
            && (r.reason.Some? ==> r.value == "XX" && r.reason.value != [])
  {
    TableShape();
    FindStateMeans(u, UfMapping, 0);
    match FindState(u, UfMapping, 0)
    case Some(code) =>
      var j :| 0 <= j < |UfMapping| && Answers(u, UfMapping[j].0) && code == UfMapping[j].1;
      assert NameMatches(u, j);
      assert IsCode(code);
    case None =>
      forall j | 0 <= j < |UfMapping|
        ensures !NameMatches(u, j)
      {
        assert !Answers(u, UfMapping[j].0);
      }
  }

  /** Letter case makes no difference to the answer. */
  lemma NormalizeUfIgnoresCase(s: string)
    ensures NormalizeUf(Text(Lower(s))) == NormalizeUf(Text(s))
    ensures NormalizeUf(Text(Upper(s))) == NormalizeUf(Text(s))
  {
    UpperStripOfLower(s);
    UpperStripOfUpper(s);
    MissingText(s);
    MissingText(Upper(s));
    MissingText(Lower(s));
  }

  lemma UpperStripOfLower(s: string)
    ensures Upper(Strip(Lower(s))) == Upper(Strip(s)) && |Strip(Lower(s))| == |Strip(s)|
  {
    StripLower(s);
    UpperForgetsCase(Strip(s));
  }

  lemma UpperStripOfUpper(s: string)
    ensures Upper(Strip(Upper(s))) == Upper(Strip(s)) && |Strip(Upper(s))| == |Strip(s)|
  {
    StripUpper(s);
    UpperForgetsCase(Strip(s));
  }

  // ---------------------------------------------------------------- validate_dia_vencimento

  /** `validate_dia_vencimento(dia, row_index)`, with `int(float(...))` on the trimmed text. */
  function ValidateDiaVencimento(dia: Cell): Checked<int> {
    if IsMissing(dia) then Checked(1, Some("Dia de vencimento ausente ou vazio."))
    else DueDayOfNumber(ParseTruncatedDecimal(Strip(Str(dia))))
  }

  /** The range check on what `int(float(...))` made of the text, or the error it raised. */
  function DueDayOfNumber(parsed: Option<int>): Checked<int> {
    match parsed
    case None => Checked(1, Some("Dia de vencimento não é um número."))
    case Some(d) =>
      if d < 1 || d > 31 then Checked(1, Some(DueDayOutOfRange))
      else Checked(d, None)
  }

  const DueDayOutOfRange := "Dia de vencimento inválido (deve ser entre 1 e 31)."

  /**
   * The answer is always a day of the month; it is the cell's number exactly when that number
   * lies in 1..31, and otherwise 1 with a reason.
   */
  lemma ValidateDiaVencimentoOutcome(dia: Cell)
    ensures var r := ValidateDiaVencimento(dia);
            1 <= r.value <= 31
            && (r.reason.None? <==>
                  !IsMissing(dia) && var p := ParseTruncatedDecimal(Strip(Str(dia)));
                                     p.Some? && 1 <= p.value <= 31)
            && (r.reason.None? ==> Some(r.value) == ParseTruncatedDecimal(Strip(Str(dia))))
            && (r.reason.Some? ==> r.value == 1 && r.reason.value != [])
  {
    if !IsMissing(dia) {
      DueDayOfNumberOutcome(ParseTruncatedDecimal(Strip(Str(dia))));
    }
  }

  lemma DueDayOfNumberOutcome(parsed: Option<int>)
    ensures var r := DueDayOfNumber(parsed);
            1 <= r.value <= 31
            && (r.reason.None? <==> parsed.Some? && 1 <= parsed.value <= 31)
            && (r.reason.None? ==> Some(r.value) == parsed)
            && (r.reason.Some? ==> r.value == 1 && r.reason.value != [])
  {
  }

  /** A whole number, as a number or as its text, is taken as it is when it is a day of the month. */
  lemma ValidateDiaVencimentoOfNumber(n: int)
    ensures 1 <= n <= 31 ==> ValidateDiaVencimento(Int(n)) == Checked(n, None)
                             && ValidateDiaVencimento(Text(IntToString(n))) == Checked(n, None)
    ensures !(1 <= n <= 31) ==> ValidateDiaVencimento(Int(n)) == Checked(1, Some(DueDayOutOfRange))
  {
    DayOfNumberText(n);
    NumberNotMissing(n);
  }

  lemma DayOfNumberText(n: int)
    ensures !IsMissing(Text(IntToString(n)))
    ensures ParseTruncatedDecimal(Strip(IntToString(n))) == Some(n)
  {
    NumberNotMissing(n);
    ParseTruncatedDecimalOfIntToString(n);
  }

  // ---------------------------------------------------------------- validate_isento

  const YesTokens: seq<string> := ["sim", "s", "yes", "true", "1"]
  const NoTokens: seq<string> := ["não", "nao", "n", "no", "false", "0"]

  /** `validate_isento(isento, row_index)` */
  function ValidateIsento(isento: Cell): Checked<bool> {
    if IsMissing(isento) then Checked(false, None)
    else IsentoToken(Lower(Strip(Str(isento))))
  }

  /** What `validate_isento` makes of the trimmed, lower-cased text. */
  function IsentoToken(t: string): Checked<bool> {
    if t in YesTokens then Checked(true, None)
    else if t in NoTokens then Checked(false, None)
    else Checked(false, Some("Valor de Isento inválido (" + t + ")."))
  }

  /**
   * The answer is true only for a yes-token; a blank cell or a no-token gives false with no
   * reason, and every other text false with a reason that quotes it lower-cased.
   */
  lemma ValidateIsentoOutcome(isento: Cell)
    ensures var r := ValidateIsento(isento);
            var t := Lower(Strip(Str(isento)));
            (r.value <==> !IsMissing(isento) && t in YesTokens)
            && (r.reason.None? <==> IsMissing(isento) || t in YesTokens || t in NoTokens)
            && (r.reason.Some? ==> r.reason.value == "Valor de Isento inválido (" + t + ").")
  {
  }

  /** No token means both yes and no. */
  lemma TokensDisjoint(t: string)
    ensures !(t in YesTokens && t in NoTokens)
  {
  }

  /** Letter case makes no difference to the answer. */
  lemma ValidateIsentoIgnoresCase(s: string)
    ensures ValidateIsento(Text(Upper(s))) == ValidateIsento(Text(s))
    ensures ValidateIsento(Text(Lower(s))) == ValidateIsento(Text(s))
  {
    LowerStripOfUpper(s);
    LowerStripOfLower(s);
    MissingText(s);
    MissingText(Upper(s));
    MissingText(Lower(s));
  }

  lemma MissingText(s: string)
    ensures IsMissing(Text(s)) <==> |Strip(s)| == 0
  {
  }

  lemma LowerStripOfUpper(s: string)
    ensures Lower(Strip(Upper(s))) == Lower(Strip(s)) && |Strip(Upper(s))| == |Strip(s)|
  {
    StripUpper(s);
    LowerForgetsCase(Strip(s));
  }

  lemma LowerStripOfLower(s: string)
    ensures Lower(Strip(Lower(s))) == Lower(Strip(s)) && |Strip(Lower(s))| == |Strip(s)|
  {
    StripLower(s);
    LowerForgetsCase(Strip(s));
  }

  // ---------------------------------------------------------------- convert_excel_date

  /**
   * `convert_excel_date(excel_date, row_index, field_name)`. A number is a day count from the
   * spreadsheet epoch; `overflow` is the text of the error building that many days raises, and
   * `parsedText` what the date parser makes of any other cell.
   */
  function ConvertExcelDate(value: Cell, fieldName: string, parsedText: Result<Date>, overflow: string)
    : Checked<Option<Date>>
  {
    if IsMissing(value) then Checked(None, Some(fieldName + " ausente ou vazio."))
    else match value
      case Int(n) =>
        (match ExcelSerialDate(n)
         case Some(d) => Checked(Some(d), None)
         case None => Checked(None, Some("Falha ao converter data numérica para " + fieldName + ": " + overflow + ".")))
      case _ =>
        (match parsedText
         case Ok(d) => Checked(Some(d), None)
         case Err(e) => Checked(None, Some("Falha ao parsear data de string para " + fieldName + ": " + e + ".")))
  }

  /**
   * A serial number gives the spreadsheet date of that serial (the date that many days after the
   * epoch, when the day count fits the time span type); otherwise no date and the conversion reason.
   */
  lemma ConvertExcelDateOfSerial(n: int, fieldName: string, parsedText: Result<Date>, overflow: string)
    ensures var r := ConvertExcelDate(Int(n), fieldName, parsedText, overflow);
            r.value == ExcelSerialDate(n) && (r.reason.None? <==> r.value.Some?)
  {
    NumberNotMissing(n);
  }

  /** Every date within reach of the epoch is what its own serial number converts to. */
  lemma ConvertExcelDateOfDate(d: Date, fieldName: string, parsedText: Result<Date>, overflow: string)
    requires ValidDate(d)
    requires -MaxTimedeltaDays <= Ordinal(d) - Ordinal(ExcelEpoch) <= MaxTimedeltaDays
    ensures ConvertExcelDate(Int(Ordinal(d) - Ordinal(ExcelEpoch)), fieldName, parsedText, overflow)
              == Checked(Some(d), None)
  {
    var n := Ordinal(d) - Ordinal(ExcelEpoch);
    NumberNotMissing(n);
    FromOrdinalOfOrdinal(d);
    assert ExcelSerialDate(n) == Some(d);
  }
}
