/**
  The sample inputs that the rules' messages and the form's design name,
  checked against the rules.
 */
module Scenarios {
  import opened Optional
  import opened Text
  import opened Validators

  /** A first name and a last name in Cyrillic pass. */
  lemma TwoPartNameAccepted()
    ensures ValidateFullname("Иван Иванов") == None
  {
    SampleNameWords();
    SampleNameChars();
  }

  lemma SampleNameWords()
    ensures Words("Иван Иванов") == ["Иван", "Иванов"]
  {
    var ws := ["Иван", "Иванов"];
    assert NoSpace(ws[0]) && NoSpace(ws[1]);
    assert Join(ws, " ") == "Иван Иванов";
    WordsOfJoin(ws);
  }

  lemma SampleNameChars()
    ensures AllNameChars("Иван Иванов")
  {
    assert AllNameChars("Иван") && AllNameChars(" ") && AllNameChars("Иванов");
    NameCharsConcat("Иван", " ");
    NameCharsConcat("Иван" + " ", "Иванов");
    assert "Иван" + " " + "Иванов" == "Иван Иванов";
  }

  lemma NameCharsConcat(a: string, b: string)
    requires AllNameChars(a) && AllNameChars(b)
    ensures AllNameChars(a + b)
  {
    forall i | 0 <= i < |a + b|
      ensures IsNameChar((a + b)[i])
    {
      if i >= |a| { assert (a + b)[i] == b[i - |a|]; }
    }
  }

  /** The first format the error message offers as an example is accepted. */
  lemma SpacedPhoneAccepted()
    ensures ValidatePhone("+7 999 123-45-67") == None
  {
    var area := AreaParts("", "999", "", " ");
    var number := NumberParts("123", "-", "45", "-", "67", "");
    assert WellFormedArea(area) && RenderArea(area) == "999 ";
    assert WellFormedNumber(number) && RenderNumber(number) == "123-45-67";
    var p := PhoneParts("+7", " ", area, number);
    assert RenderPhone(p) == "+7 999 123-45-67";
    ParseRenderPhone(p);
  }

  /** The second format the error message offers as an example is accepted. */
  lemma PlainPhoneAccepted()
    ensures ValidatePhone("89991234567") == None
  {
    var area := AreaParts("", "999", "", "");
    var number := NumberParts("123", "", "45", "", "67", "");
    assert WellFormedArea(area) && RenderArea(area) == "999";
    assert WellFormedNumber(number) && RenderNumber(number) == "1234567";
    var p := PhoneParts("8", "", area, number);
    assert RenderPhone(p) == "89991234567";
    ParseRenderPhone(p);
  }

  /** The phone number without separators after `+7` passes. */
  lemma CompactPhoneAccepted()
    ensures ValidatePhone("+79991234567") == None
  {
    var area := AreaParts("", "999", "", "");
    var number := NumberParts("123", "", "45", "", "67", "");
    assert WellFormedArea(area) && RenderArea(area) == "999";
    assert WellFormedNumber(number) && RenderNumber(number) == "1234567";
    var p := PhoneParts("+7", "", area, number);
    assert RenderPhone(p) == "+79991234567";
    ParseRenderPhone(p);
  }

  /** The shortest ordinary address passes. */
  lemma ShortEmailAccepted()
    ensures ValidateEmail("a@b.com") == None
  {
    var e := EmailParts("a", HostParts("b", "com", ""));
    assert WellFormedEmail(e);
    assert RenderEmail(e) == "a@b.com";
    ParseRenderEmail(e);
  }

  /** For any day from 1990-01-01 to the end of 2998, 1990-01-01 is a valid
      birthdate and 2999-01-01 one in the future. */
  lemma BirthdateSamples(today: Date)
    requires !IsAfter(Date(1990, 1, 1), today) && today.year < 2999
    ensures ValidateBirthdate("1990-01-01", today) == None
    ensures ValidateBirthdate("2999-01-01", today) == Some(BirthdateInFuture)
  {
    var past, future := Date(1990, 1, 1), Date(2999, 1, 1);
    ParseFormatDate(past);
    assert FormatDate(past) == "1990-01-01";
    ParseFormatDate(future);
    assert FormatDate(future) == "2999-01-01";
  }

  /** A language outside the twelve rejects the selection. */
  lemma UnknownLanguageRejected()
    ensures ValidateLanguages(["Rust"]) == Some(LanguagesUnknown)
  {
    assert ["Rust"][0] !in AllowedLanguages;
  }

  /** Two of the twelve make an acceptable selection. */
  lemma KnownLanguagesAccepted()
    ensures ValidateLanguages(["Python", "Go"]) == None
  {
    var langs := ["Python", "Go"];
    assert forall k :: 0 <= k < |langs| ==> langs[k] in AllowedLanguages by {
      assert langs[0] == "Python" && langs[1] == "Go";
    }
  }

  /** A complete submission built from the samples above. */
  function SampleForm(birthdate: string): Form {
    map[Fullname := ["Иван Иванов"], Phone := ["+79991234567"], Email := ["a@b.com"],
        Birthdate := [birthdate], Gender := ["male"], Language := ["Python", "Go"],
        Bio := ["xxxxxxxxxxxxxxxxxxxx"], Contract := ["on"]]
  }

  /** The sample submission passes every rule, and with a birthdate in the
      future it fails on the birthdate alone. */
  lemma SampleFormErrors(today: Date)
    requires !IsAfter(Date(1990, 1, 1), today) && today.year < 2999
    ensures FormErrors(SampleForm("1990-01-01"), today) == map[]
    ensures FormErrors(SampleForm("2999-01-01"), today) == map[Birthdate := BirthdateInFuture]
  {
    BirthdateSamples(today);
    SampleFieldsPass("1990-01-01", today);
    OnlyBirthdateChecked(SampleForm("1990-01-01"), today);
    SampleFieldsPass("2999-01-01", today);
    OnlyBirthdateChecked(SampleForm("2999-01-01"), today);
  }

  /** Every field of the sample form other than the birthdate passes. */
  lemma SampleFieldsPass(birthdate: string, today: Date)
    ensures HasFirstValues(SampleForm(birthdate))
    ensures forall f: Field :: f != Birthdate ==> FieldError(SampleForm(birthdate), today, f) == None
    ensures FieldError(SampleForm(birthdate), today, Birthdate) == ValidateBirthdate(birthdate, today)
  {
    var data := SampleForm(birthdate);
    assert HasFirstValues(data);
    forall f: Field | f != Birthdate
      ensures FieldError(data, today, f) == None
    {
      SampleFieldPasses(birthdate, today, f);
    }
    assert FirstValue(data, Birthdate) == birthdate;
  }

  /** One field of the sample form other than the birthdate passes. */
  lemma SampleFieldPasses(birthdate: string, today: Date, f: Field)
    requires f != Birthdate
    ensures HasFirstValues(SampleForm(birthdate)) && FieldError(SampleForm(birthdate), today, f) == None
  {
    var data := SampleForm(birthdate);
    assert HasFirstValues(data);
    match f
    case Fullname =>
      assert FirstValue(data, f) == "Иван Иванов";
      TwoPartNameAccepted();
    case Phone =>
      assert FirstValue(data, f) == "+79991234567";
      CompactPhoneAccepted();
    case Email =>
      assert FirstValue(data, f) == "a@b.com";
      ShortEmailAccepted();
    case Gender =>
      assert FirstValue(data, f) == "male";
    case Language =>
      assert LanguagesOf(data) == ["Python", "Go"];
      KnownLanguagesAccepted();
    case Bio =>
      assert FirstValue(data, f) == "xxxxxxxxxxxxxxxxxxxx";
      TwentyLetterBioAccepted();
    case Contract =>
      assert FirstValue(data, f) == "on";
  }

  /** A form on which every rule but the birthdate's passes fails on the
      birthdate alone, if at all. */
  lemma OnlyBirthdateChecked(data: Form, today: Date)
    requires HasFirstValues(data)
    requires forall f: Field :: f != Birthdate ==> FieldError(data, today, f) == None
    ensures FieldError(data, today, Birthdate) == None ==> FormErrors(data, today) == map[]
    ensures FieldError(data, today, Birthdate).Some? ==>
      FormErrors(data, today) == map[Birthdate := FieldError(data, today, Birthdate).value]
  {
    var errors := FormErrors(data, today);
    assert forall f: Field :: f in errors ==> f == Birthdate;
  }

  /** Twenty letters make an acceptable biography. */
  lemma TwentyLetterBioAccepted()
    ensures ValidateBiography("xxxxxxxxxxxxxxxxxxxx") == None
  {
    var bio := "xxxxxxxxxxxxxxxxxxxx";
    assert TrimLeft(bio) == bio;
    assert TrimRight(bio) == bio;
    assert forall i :: 0 <= i < |bio| ==> bio[i] == 'x';
  }
}
