/**
 * The financing application form (src/pages/FormPengajuan.tsx): the per-field check
 * `validateField`, and the submit handler's gate, which collects the message of every failing
 * field and lets the request through only when there is none. The pattern tests of the code
 * are written here as explicit character checks, each proved equal to a direct reading of
 * its pattern.
 */
module Applicant {
  import opened Wrappers
  import opened Text

  // ---------------------------------------------------------------------------------------
  // Fields and messages

  /** The five inputs, in the order `Object.keys(formData)` lists them. */
  datatype Field = NamaLengkap | Nik | NoHp | Email | Alamat

  /** The input's `name`, the key `validateField` switches on. */
  function Key(f: Field): string
  {
    match f
    case NamaLengkap => "nama_lengkap"
    case Nik => "nik"
    case NoHp => "no_hp"
    case Email => "email"
    case Alamat => "alamat"
  }

  const Fields: seq<Field> := [NamaLengkap, Nik, NoHp, Email, Alamat]

  /** Every input is listed, once. */
  lemma FieldsListed()
    ensures forall f :: f in Fields
    ensures |Fields| == 5 && forall i, j | 0 <= i < j < |Fields| :: Fields[i] != Fields[j]
  {
    forall f ensures f in Fields {
      match f
      case NamaLengkap => assert Fields[0] == f;
      case Nik => assert Fields[1] == f;
      case NoHp => assert Fields[2] == f;
      case Email => assert Fields[3] == f;
      case Alamat => assert Fields[4] == f;
    }
  }

  /** The input a `name` refers to, if any. */
  function FieldNamed(name: string): (r: Option<Field>)
    ensures r.Some? ==> Key(r.value) == name
    ensures r.None? ==> forall f :: Key(f) != name
  {
    if name == "nama_lengkap" then Some(NamaLengkap)
    else if name == "nik" then Some(Nik)
    else if name == "no_hp" then Some(NoHp)
    else if name == "email" then Some(Email)
    else if name == "alamat" then Some(Alamat)
    else None
  }

  /** Each key names its own input. */
  lemma KeysDistinct(f: Field)
    ensures FieldNamed(Key(f)) == Some(f)
  {
    match f
    case NamaLengkap =>
    case Nik => assert Key(f)[1] != "nama_lengkap"[1];
    case NoHp => assert Key(f)[1] != "nama_lengkap"[1] && Key(f)[1] != "nik"[1];
    case Email => assert Key(f)[0] != "nama_lengkap"[0] && Key(f)[0] != "nik"[0] && Key(f)[0] != "no_hp"[0];
    case Alamat =>
      assert Key(f)[0] != "nama_lengkap"[0] && Key(f)[0] != "nik"[0] && Key(f)[0] != "no_hp"[0];
      assert Key(f)[0] != "email"[0];
  }

  /** `formData`. */
  datatype FormData = FormData(namaLengkap: string, nik: string, noHp: string, email: string, alamat: string)

  const EmptyForm := FormData("", "", "", "", "")

  function Value(d: FormData, f: Field): string
  {
    match f
    case NamaLengkap => d.namaLengkap
    case Nik => d.nik
    case NoHp => d.noHp
    case Email => d.email
    case Alamat => d.alamat
  }

  /** `{ ...prev, [name]: value }`. */
  function WithValue(d: FormData, f: Field, value: string): (r: FormData)
    ensures Value(r, f) == value
    ensures forall g | g != f :: Value(r, g) == Value(d, g)
  {
    match f
    case NamaLengkap => d.(namaLengkap := value)
    case Nik => d.(nik := value)
    case NoHp => d.(noHp := value)
    case Email => d.(email := value)
    case Alamat => d.(alamat := value)
  }

  const NamaRequired := "Nama lengkap wajib diisi."
  const NikRequired := "NIK wajib diisi."
  const NikFormat := "NIK harus terdiri dari 16 digit angka."
  const PhoneRequired := "Nomor handphone wajib diisi."
  const PhoneFormat := "Format nomor HP tidak valid (contoh: 081234567890)."
  const EmailRequired := "Email wajib diisi."
  const EmailFormat := "Format email tidak valid."
  const AlamatRequired := "Alamat lengkap wajib diisi."

  // ---------------------------------------------------------------------------------------
  // The patterns, read directly

  /** `^\d{16}$`: sixteen ASCII digits and nothing else. */
  predicate NikPattern(s: string)
  {
    |s| == 16 && AllDigits(s)
  }

  /** `^08\d{8,11}$`: the text `08`, then between eight and eleven ASCII digits. */
  predicate PhonePattern(s: string)
  {
    |s| >= 2 && s[..2] == "08" && 8 <= |s[2..]| <= 11 && AllDigits(s[2..])
  }

  /** A run of `[^\s@]+` would match the whole of `t` if `t` were not empty. */
  predicate NoSpaceOrAt(t: string)
  {
    forall k | 0 <= k < |t| :: !IsSpace(t[k]) && t[k] != '@'
  }

  /** `^[^\s@]+@[^\s@]+\.[^\s@]+$`: the pattern matches when the text splits, at an `@` in
    * position `i` and a `.` in position `j`, into three non-empty runs of characters that
    * are neither white space nor `@`. */
  predicate EmailPattern(s: string)
  {
    exists i, j | 0 < i && i + 1 < j < |s| - 1 :: EmailSplit(s, i, j)
  }

  predicate EmailSplit(s: string, i: nat, j: nat)
    requires 0 < i && i + 1 < j < |s| - 1
  {
    && s[i] == '@' && s[j] == '.'
    && NoSpaceOrAt(s[..i]) && NoSpaceOrAt(s[i + 1..j]) && NoSpaceOrAt(s[j + 1..])
  }

  // ---------------------------------------------------------------------------------------
  // The patterns, as character checks

  /** A mobile number: ten to thirteen digits, the first two `0` and `8`. */
  predicate IsPhoneNumber(s: string)
  {
    10 <= |s| <= 13 && s[0] == '0' && s[1] == '8' && AllDigits(s)
  }

  predicate NoSpace(s: string)
  {
    forall k | 0 <= k < |s| :: !IsSpace(s[k])
  }

  /** The part after the `@` has a `.` that is neither its first nor its last character. */
  predicate HasInnerDot(d: string)
  {
    exists j | 0 < j < |d| - 1 :: d[j] == '.'
  }

  /** An address: no white space, exactly one `@`, something before it, and an inner `.`
    * after it. */
  predicate IsEmailAddress(s: string)
  {
    && '@' in s
    && NoSpace(s)
    && var i := IndexOf(s, '@');
       && i > 0
       && '@' !in s[i + 1..]
       && HasInnerDot(s[i + 1..])
  }

  /** The phone check is the phone pattern. */
  lemma PhonePatternIff(s: string)
    ensures IsPhoneNumber(s) <==> PhonePattern(s)
  {
    if IsPhoneNumber(s) {
      assert s[..2] == [s[0], s[1]];
      assert forall k | 0 <= k < |s| - 2 :: s[2..][k] == s[k + 2];
    }
    if PhonePattern(s) {
      assert s[0] == s[..2][0] && s[1] == s[..2][1];
      forall k | 0 <= k < |s| ensures IsDigit(s[k]) {
        if k >= 2 {
          assert s[k] == s[2..][k - 2];
        }
      }
    }
  }

  /** The address check is the email pattern, in both directions. */
  lemma EmailPatternIff(s: string)
    ensures IsEmailAddress(s) <==> EmailPattern(s)
  {
    if IsEmailAddress(s) {
      EmailCheckMatches(s);
    }
    if EmailPattern(s) {
      var i, j :| 0 < i && i + 1 < j < |s| - 1 && EmailSplit(s, i, j);
      EmailMatchChecks(s, i, j);
    }
  }

  lemma EmailCheckMatches(s: string)
    requires IsEmailAddress(s)
    ensures EmailPattern(s)
  {
    var i := IndexOf(s, '@');
    var d := s[i + 1..];
    var j' :| 0 < j' < |d| - 1 && d[j'] == '.';
    var j := i + 1 + j';
    assert s[j] == '.';
    assert NoSpaceOrAt(s[..i]) by {
      forall k | 0 <= k < i ensures !IsSpace(s[..i][k]) && s[..i][k] != '@' {
        assert s[..i][k] == s[k];
        assert s[k] in s[..i];
      }
    }
    var mid := s[i + 1..j];
    assert NoSpaceOrAt(mid) by {
      forall k | 0 <= k < |mid| ensures !IsSpace(mid[k]) && mid[k] != '@' {
        assert mid[k] == d[k];
        assert d[k] in d;
      }
    }
    var last := s[j + 1..];
    assert NoSpaceOrAt(last) by {
      forall k | 0 <= k < |last| ensures !IsSpace(last[k]) && last[k] != '@' {
        assert last[k] == d[j' + 1 + k];
        assert d[j' + 1 + k] in d;
      }
    }
    assert EmailSplit(s, i, j);
  }

  lemma EmailMatchChecks(s: string, i: nat, j: nat)
    requires 0 < i && i + 1 < j < |s| - 1 && EmailSplit(s, i, j)
    ensures IsEmailAddress(s)
  {
    assert forall k | 0 <= k < i :: s[k] == s[..i][k];
    assert forall k | i + 1 <= k < j :: s[k] == s[i + 1..j][k - i - 1];
    assert forall k | j + 1 <= k < |s| :: s[k] == s[j + 1..][k - j - 1];
    assert '@' in s by { assert s[i] == '@'; }
    assert IndexOf(s, '@') == i;
    var d := s[i + 1..];
    assert '@' !in d by {
      forall k | 0 <= k < |d| ensures d[k] != '@' {
        assert d[k] == s[i + 1 + k];
      }
    }
    assert d[j - i - 1] == '.';
    assert HasInnerDot(d);
  }

  /** None of the patterns is met by a blank value. */
  lemma PatternsNotBlank(s: string)
    ensures NikPattern(s) ==> !IsBlank(s)
    ensures PhonePattern(s) ==> !IsBlank(s)
    ensures EmailPattern(s) ==> !IsBlank(s)
  {
    if NikPattern(s) {
      assert IsDigit(s[0]);
    }
    if PhonePattern(s) {
      assert s[0] == s[..2][0];
    }
    if EmailPattern(s) {
      var i, j :| 0 < i && i + 1 < j < |s| - 1 && EmailSplit(s, i, j);
      assert s[i] == '@';
    }
  }

  // ---------------------------------------------------------------------------------------
  // validateField

  /** The rule of one input. `value.trim()` is falsy exactly when the value is blank
    * (`Text.Trim`). A blank value gets the input's "required" message; for the NIK, the phone
    * number and the address, a value that is not blank gets the format message when its
    * pattern fails, the pattern being tested on the value as typed, not trimmed. */
  function Message(f: Field, value: string): (msg: string)
    ensures f == NamaLengkap ==> msg == (if IsBlank(value) then NamaRequired else "")
    ensures f == Alamat ==> msg == (if IsBlank(value) then AlamatRequired else "")
    ensures f == Nik ==>
              && (msg == NikRequired <==> IsBlank(value))
              && (msg == NikFormat <==> !IsBlank(value) && !NikPattern(value))
              && (msg == "" <==> NikPattern(value))
    ensures f == NoHp ==>
              && (msg == PhoneRequired <==> IsBlank(value))
              && (msg == PhoneFormat <==> !IsBlank(value) && !PhonePattern(value))
              && (msg == "" <==> PhonePattern(value))
    ensures f == Email ==>
              && (msg == EmailRequired <==> IsBlank(value))
              && (msg == EmailFormat <==> !IsBlank(value) && !EmailPattern(value))
              && (msg == "" <==> EmailPattern(value))
  {
    PatternsNotBlank(value);
    PhonePatternIff(value);
    EmailPatternIff(value);
    match f
    case NamaLengkap => if IsBlank(value) then NamaRequired else ""
    case Nik =>
      if IsBlank(value) then NikRequired
      else if !(|value| == 16 && AllDigits(value)) then NikFormat
      else ""
    case NoHp =>
      if IsBlank(value) then PhoneRequired
      else if !IsPhoneNumber(value) then PhoneFormat
      else ""
    case Email =>
      if IsBlank(value) then EmailRequired
      else if !IsEmailAddress(value) then EmailFormat
      else ""
    case Alamat => if IsBlank(value) then AlamatRequired else ""
  }

  /** `validateField(name, value)`: the rule of the input so named; `''` for any other name. */
  function ValidateField(name: string, value: string): (msg: string)
    ensures (forall f :: Key(f) != name) ==> msg == ""
    ensures forall f | Key(f) == name :: msg == Message(f, value)
  {
    match FieldNamed(name)
    case None => ""
    case Some(f) =>
      assert forall g | Key(g) == name :: g == f by {
        forall g | Key(g) == name ensures g == f {
          KeysDistinct(g);
        }
      }
      Message(f, value)
  }

  /** The message of one input of the form. */
  function Check(d: FormData, f: Field): string
  {
    ValidateField(Key(f), Value(d, f))
  }

  /** Looking an input up by its own key applies that input's rule. */
  lemma CheckIsMessage(d: FormData, f: Field)
    ensures Check(d, f) == Message(f, Value(d, f))
  {
  }

  /** The form passes exactly when every input matches its rule. */
  predicate AllValid(d: FormData)
  {
    && !IsBlank(d.namaLengkap)
    && NikPattern(d.nik)
    && PhonePattern(d.noHp)
    && EmailPattern(d.email)
    && !IsBlank(d.alamat)
  }

  /** The inputs with a message are exactly the inputs that break their rule. */
  lemma CheckMeaning(d: FormData)
    ensures (forall f :: Check(d, f) == "") <==> AllValid(d)
    ensures Check(d, NamaLengkap) == "" <==> !IsBlank(d.namaLengkap)
    ensures Check(d, Alamat) == "" <==> !IsBlank(d.alamat)
  {
    CheckIsMessage(d, NamaLengkap);
    CheckIsMessage(d, Nik);
    CheckIsMessage(d, NoHp);
    CheckIsMessage(d, Email);
    CheckIsMessage(d, Alamat);
  }

  /** An empty form is refused on every input, each with its "required" message. */
  lemma EmptyFormRefused()
    ensures forall f :: Check(EmptyForm, f) != ""
    ensures Check(EmptyForm, Nik) == NikRequired && Check(EmptyForm, Email) == EmailRequired
  {
    assert IsBlank("");
    forall f ensures Check(EmptyForm, f) != "" {
      CheckIsMessage(EmptyForm, f);
      assert Value(EmptyForm, f) == "";
    }
    CheckIsMessage(EmptyForm, Nik);
    CheckIsMessage(EmptyForm, Email);
  }

  // ---------------------------------------------------------------------------------------
  // The submit gate

  /** The `forEach` of `handleFormSubmit` over `Object.keys(formData)`: the message of every
    * input that has one. */
  method CollectErrors(d: FormData) returns (errors: map<Field, string>)
    ensures forall f :: f in errors <==> Check(d, f) != ""
    ensures forall f | f in errors :: errors[f] == Check(d, f)
  {
    errors := CollectOver(d, Fields);
    FieldsListed();
  }

  /** The loop over a list of inputs: an entry for each listed input whose check fails. */
  method CollectOver(d: FormData, names: seq<Field>) returns (errors: map<Field, string>)
    ensures forall f :: f in errors <==> f in names && Check(d, f) != ""
    ensures forall f | f in errors :: errors[f] == Check(d, f)
  {
    errors := map[];
    var i := 0;
    while i < |names|
      invariant 0 <= i <= |names|
      invariant forall f :: f in errors <==> f in names[..i] && Check(d, f) != ""
      invariant forall f | f in errors :: errors[f] == Check(d, f)
    {
      var name := names[i];
      var error := Check(d, name);
      if error != "" {
        errors := errors[name := error];
      }
      assert names[..i + 1] == names[..i] + [name];
      i := i + 1;
    }
    assert names[..i] == names;
  }

  /** The form's state: the inputs and the messages shown under them. */
  class ApplicationForm {
    var data: FormData
    var errors: map<Field, string>

    constructor()
      ensures data == EmptyForm && errors == map[]
    {
      data := EmptyForm;
      errors := map[];
    }

    /** `handleChange`: the input takes the typed value. */
    method Change(f: Field, value: string)
      modifies this
      ensures data == WithValue(old(data), f, value) && errors == old(errors)
    {
      data := WithValue(data, f, value);
    }

    /** `handleBlur`: the input's message is replaced by its current check, `''` included. */
    method Blur(f: Field)
      modifies this
      ensures data == old(data)
      ensures errors == old(errors)[f := Check(data, f)]
    {
      errors := errors[f := Check(data, f)];
    }

    /** `handleFormSubmit` up to its gate: the messages become those of the failing inputs,
      * and the request goes on exactly when there is none. */
    method Submit() returns (proceed: bool)
      modifies this
      ensures data == old(data)
      ensures forall f :: f in errors <==> Check(data, f) != ""
      ensures forall f | f in errors :: errors[f] == Check(data, f)
      ensures proceed <==> AllValid(data)
    {
      var validationErrors := CollectErrors(data);
      errors := validationErrors;
      proceed := |validationErrors| == 0;
      CheckMeaning(data);
      if !proceed {
        var f :| f in validationErrors;
      }
    }
  }
}
