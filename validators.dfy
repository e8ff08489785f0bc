/**
  The per-field rules of the registration form and the aggregate check that
  reports every failing field (validators.py). Each rule returns the message
  for the first check that fails, or `None`.

  A pattern matched with `re.match(r'^...$', s)` also accepts `s` with one
  final "\n", because `$` matches just before a final newline; every pattern
  below accepts that too. `\d` is the ASCII digit class here and `\s` is
  `Text.IsSpace`.
 */
module Validators {
  import opened Optional
  import opened Text

  // ---------------------------------------------------------------------
  // Messages

  /** The error messages of validators.py; `Text()` is the message verbatim. */
  datatype Message =
      FullnameRequired
    | FullnameTooFewParts
    | FullnameBadChars
    | FullnameTooManyParts
    | PhoneRequired
    | PhoneBadFormat
    | EmailRequired
    | EmailBadFormat
    | BirthdateRequired
    | BirthdateBadFormat
    | BirthdateInFuture
    | BirthdateInvalid
    | GenderMissing
    | LanguagesEmpty
    | LanguagesUnknown
    | BioTooShort
    | BioTooLong
    | BioBadChars
    | ContractMissing
  {
    function Text(): string {
      match this
      case FullnameRequired => "ФИО обязательно для заполнения"
      case FullnameTooFewParts => "Введите имя и фамилию"
      case FullnameBadChars => "ФИО должно содержать только буквы, пробелы и дефисы"
      case FullnameTooManyParts => "ФИО должно содержать не более 3 частей (фамилия, имя, отчество)"
      case PhoneRequired => "Телефон обязателен для заполнения"
      case PhoneBadFormat => "Неверный формат телефона. Допустимые форматы: +7 999 123-45-67, 89991234567"
      case EmailRequired => "Email обязателен для заполнения"
      case EmailBadFormat => "Некорректный email. Допустимы только латинские буквы, цифры и символы ._%+-"
      case BirthdateRequired => "Дата рождения обязательна"
      case BirthdateBadFormat => "Неверный формат даты. Используйте формат ГГГГ-ММ-ДД"
      case BirthdateInFuture => "Дата рождения не может быть в будущем"
      case BirthdateInvalid => "Некорректная дата"
      case GenderMissing => "Выберите пол"
      case LanguagesEmpty => "Выберите хотя бы один язык"
      case LanguagesUnknown => "Выбраны недопустимые языки"
      case BioTooShort => "Биография должна содержать минимум 10 символов"
      case BioTooLong => "Биография не должна превышать 500 символов"
      case BioBadChars => "Биография содержит недопустимые символы (<, >, {, }, [, ])"
      case ContractMissing => "Необходимо подтвердить контракт"
    }
  }

  // ---------------------------------------------------------------------
  // Character classes

  predicate IsDigit(c: char) { '0' <= c <= '9' }
  predicate IsAsciiLetter(c: char) { 'a' <= c <= 'z' || 'A' <= c <= 'Z' }

  predicate AllDigits(s: string) {
    forall i :: 0 <= i < |s| ==> IsDigit(s[i])
  }

  /** `[а-яА-ЯёЁa-zA-Z\- ]`: Cyrillic and Latin letters, hyphen and space. */
  predicate IsNameChar(c: char) {
    || ('а' <= c <= 'я')
    || ('А' <= c <= 'Я')
    || c == 'ё' || c == 'Ё'
    || IsAsciiLetter(c)
    || c == '-' || c == ' '
  }

  predicate AllNameChars(s: string) {
    forall i :: 0 <= i < |s| ==> IsNameChar(s[i])
  }

  /** `[\s\-]` */
  predicate IsSep(c: char) { IsSpace(c) || c == '-' }

  /** `[a-zA-Z0-9._%+-]` */
  predicate IsLocalChar(c: char) {
    IsAsciiLetter(c) || IsDigit(c) || c == '.' || c == '_' || c == '%' || c == '+' || c == '-'
  }

  /** `[a-zA-Z0-9.-]` */
  predicate IsDomainChar(c: char) {
    IsAsciiLetter(c) || IsDigit(c) || c == '.' || c == '-'
  }

  /** A possibly empty tail that `$` lets through: nothing or one "\n". */
  predicate IsLineEnd(s: string) { s == [] || s == "\n" }

  // ---------------------------------------------------------------------
  // Full name

  /** `re.match(r'^[а-яА-ЯёЁa-zA-Z\- ]+$', s)` */
  predicate NamePattern(s: string) {
    || (s != [] && AllNameChars(s))
    || (|s| >= 2 && s[|s| - 1] == '\n' && AllNameChars(s[..|s| - 1]))
  }

  /** validate_fullname: required, at least two words, only letters, spaces and
      hyphens (checked before the upper bound), at most three words. */
  function ValidateFullname(s: string): (r: Option<Message>)
    ensures s == [] ==> r == Some(FullnameRequired)
    ensures s != [] && |Words(s)| < 2 ==> r == Some(FullnameTooFewParts)
    ensures |Words(s)| >= 2 && !NamePattern(s) ==> r == Some(FullnameBadChars)
    ensures r == Some(FullnameTooManyParts) <==> |Words(s)| > 3 && NamePattern(s)
    ensures r == None <==> 2 <= |Words(s)| <= 3 && NamePattern(s)
  {
    var parts := Words(s);
    if s == [] then Some(FullnameRequired)
    else if |parts| < 2 then Some(FullnameTooFewParts)
    else if !NamePattern(s) then Some(FullnameBadChars)
    else if |parts| > 3 then Some(FullnameTooManyParts)
    else None
  }

  // ---------------------------------------------------------------------
  // Phone

  /** The pieces of a string that matches
      `^(\+7|8)[\s\-]?\(?\d{3}\)?[\s\-]?\d{3}[\s\-]?\d{2}[\s\-]?\d{2}$`, one field
      per element of the pattern, in order: the prefix and the area code, then
      the subscriber number. */
  datatype PhoneParts = PhoneParts(prefix: string, sep1: string, area: AreaParts, number: NumberParts)

  /** The area code and what surrounds it: `\(?\d{3}\)?[\s\-]?`. */
  datatype AreaParts = AreaParts(open: string, code: string, close: string, sep2: string)

  /** The part of the pattern after the area code: `\d{3}[\s\-]?\d{2}[\s\-]?\d{2}$`. */
  datatype NumberParts = NumberParts(
    block1: string, sep3: string, block2: string, sep4: string, block3: string, end: string)

  /** Nothing or one separator: `[\s\-]?`. */
  predicate IsOptSep(s: string) { s == [] || (|s| == 1 && IsSep(s[0])) }

  predicate IsDigitGroup(s: string, n: nat) { |s| == n && AllDigits(s) }

  predicate WellFormedNumber(q: NumberParts) {
    && IsDigitGroup(q.block1, 3)
    && IsOptSep(q.sep3)
    && IsDigitGroup(q.block2, 2)
    && IsOptSep(q.sep4)
    && IsDigitGroup(q.block3, 2)
    && IsLineEnd(q.end)
  }

  predicate WellFormedArea(a: AreaParts) {
    && (a.open == [] || a.open == "(")
    && IsDigitGroup(a.code, 3)
    && (a.close == [] || a.close == ")")
    && IsOptSep(a.sep2)
  }

  predicate WellFormedPhone(p: PhoneParts) {
    && (p.prefix == "+7" || p.prefix == "8")
    && IsOptSep(p.sep1)
    && WellFormedArea(p.area)
    && WellFormedNumber(p.number)
  }

  function RenderNumber(q: NumberParts): string {
    q.block1 + (q.sep3 + (q.block2 + (q.sep4 + (q.block3 + q.end))))
  }

  function RenderArea(a: AreaParts): string {
    a.open + (a.code + (a.close + a.sep2))
  }

  function RenderPhone(p: PhoneParts): string {
    p.prefix + (p.sep1 + (RenderArea(p.area) + RenderNumber(p.number)))
  }

  function TakePrefix(s: string): (r: Option<(string, string)>)
    ensures r.Some? ==> r.value.0 + r.value.1 == s && (r.value.0 == "+7" || r.value.0 == "8")
  {
    if |s| >= 2 && s[..2] == "+7" then Some((s[..2], s[2..]))
    else if |s| >= 1 && s[0] == '8' then Some((s[..1], s[1..]))
    else None
  }

  function TakeOptSep(s: string): (r: (string, string))
    ensures r.0 + r.1 == s && IsOptSep(r.0)
  {
    if s != [] && IsSep(s[0]) then (s[..1], s[1..]) else ([], s)
  }

  function TakeOptChar(s: string, c: char): (r: (string, string))
    ensures r.0 + r.1 == s && (r.0 == [] || r.0 == [c])
  {
    if s != [] && s[0] == c then (s[..1], s[1..]) else ([], s)
  }

  function TakeDigits(s: string, n: nat): (r: Option<(string, string)>)
    ensures r.Some? ==> r.value.0 + r.value.1 == s && IsDigitGroup(r.value.0, n)
  {
    if |s| >= n && AllDigits(s[..n]) then Some((s[..n], s[n..])) else None
  }

  function TakeLineEnd(s: string): (r: Option<string>)
    ensures r.Some? ==> r.value == s && IsLineEnd(s)
  {
    if IsLineEnd(s) then Some(s) else None
  }

  /** Reads the subscriber number, element by element. */
  function ParseNumber(s: string): (r: Option<NumberParts>)
    ensures r.Some? ==> WellFormedNumber(r.value) && RenderNumber(r.value) == s
  {
    var g :- TakeDigits(s, 3);
    var h := TakeOptSep(g.1);
    var i :- TakeDigits(h.1, 2);
    var j := TakeOptSep(i.1);
    var k :- TakeDigits(j.1, 2);
    var end :- TakeLineEnd(k.1);
    Some(NumberParts(g.0, h.0, i.0, j.0, k.0, end))
  }

  /** Reads the area code and what surrounds it, leaving the rest. */
  function ParseArea(s: string): (r: Option<(AreaParts, string)>)
    ensures r.Some? ==> WellFormedArea(r.value.0) && RenderArea(r.value.0) + r.value.1 == s
  {
    var c := TakeOptChar(s, '(');
    var d :- TakeDigits(c.1, 3);
    var e := TakeOptChar(d.1, ')');
    var f := TakeOptSep(e.1);
    var a := AreaParts(c.0, d.0, e.0, f.0);
    assert (e.0 + f.0) + f.1 == d.1 by { ConcatAssoc(e.0, f.0, f.1); }
    assert (d.0 + (e.0 + f.0)) + f.1 == c.1 by { ConcatAssoc(d.0, e.0 + f.0, f.1); }
    assert RenderArea(a) + f.1 == s by { ConcatAssoc(c.0, d.0 + (e.0 + f.0), f.1); }
    Some((a, f.1))
  }

  lemma ConcatAssoc(x: string, y: string, z: string)
    ensures (x + y) + z == x + (y + z)
  {
  }

  /** Reads the pattern's elements from left to right, taking each optional
      element whenever it is there. That is exact: an optional element is
      never followed by something its own character could also begin. */
  function ParsePhone(s: string): (r: Option<PhoneParts>)
    ensures r.Some? ==> WellFormedPhone(r.value) && RenderPhone(r.value) == s
  {
    var a :- TakePrefix(s);
    var b := TakeOptSep(a.1);
    var area :- ParseArea(b.1);
    var number :- ParseNumber(area.1);
    Some(PhoneParts(a.0, b.0, area.0, number))
  }

  /** validate_phone */
  function ValidatePhone(s: string): (r: Option<Message>)
    ensures r == Some(PhoneRequired) <==> s == []
    ensures r.Some? ==> r == Some(PhoneRequired) || r == Some(PhoneBadFormat)
  {
    if s == [] then Some(PhoneRequired)
    else if ParsePhone(s).None? then Some(PhoneBadFormat)
    else None
  }

  lemma TakeOptSepOf(x: string, rest: string)
    requires IsOptSep(x) && rest != [] && !IsSep(rest[0])
    ensures TakeOptSep(x + rest) == (x, rest)
  {
    if x != [] {
      assert (x + rest)[..1] == x && (x + rest)[1..] == rest;
    } else {
      assert x + rest == rest;
    }
  }

  lemma TakeOptCharOf(x: string, rest: string, c: char)
    requires (x == [] || x == [c]) && rest != [] && rest[0] != c
    ensures TakeOptChar(x + rest, c) == (x, rest)
  {
    if x != [] {
      assert (x + rest)[..1] == x && (x + rest)[1..] == rest;
    } else {
      assert x + rest == rest;
    }
  }

  lemma TakeDigitsOf(x: string, rest: string, n: nat)
    requires IsDigitGroup(x, n)
    ensures TakeDigits(x + rest, n) == Some((x, rest))
  {
    assert (x + rest)[..n] == x && (x + rest)[n..] == rest;
  }

  lemma ParseRenderNumber(q: NumberParts)
    requires WellFormedNumber(q)
    ensures ParseNumber(RenderNumber(q)) == Some(q)
  {
    var r5 := q.block3 + q.end;
    var r4 := q.sep4 + r5;
    var r3 := q.block2 + r4;
    var r2 := q.sep3 + r3;
    TakeDigitsOf(q.block1, r2, 3);
    TakeOptSepOf(q.sep3, r3);
    TakeDigitsOf(q.block2, r4, 2);
    TakeOptSepOf(q.sep4, r5);
    TakeDigitsOf(q.block3, q.end, 2);
    assert TakeLineEnd(q.end) == Some(q.end);
  }

  lemma ParseRenderArea(a: AreaParts, rest: string)
    requires WellFormedArea(a) && rest != [] && IsDigit(rest[0])
    ensures ParseArea(RenderArea(a) + rest) == Some((a, rest))
  {
    var r3 := a.sep2 + rest;
    var r2 := a.close + r3;
    var r1 := a.code + r2;
    assert RenderArea(a) + rest == a.open + r1;
    assert !IsSep(rest[0]);
    assert r3[0] != ')' by {
      if a.sep2 == [] { assert r3[0] == rest[0]; } else { assert r3[0] == a.sep2[0]; }
    }
    assert r1[0] == a.code[0];
    TakeOptCharOf(a.open, r1, '(');
    TakeDigitsOf(a.code, r2, 3);
    TakeOptCharOf(a.close, r3, ')');
    TakeOptSepOf(a.sep2, rest);
  }

  /** Every string of the pattern's shape is read back into exactly its pieces. */
  lemma ParseRenderPhone(p: PhoneParts)
    requires WellFormedPhone(p)
    ensures ParsePhone(RenderPhone(p)) == Some(p)
  {
    var r3 := RenderNumber(p.number);
    var r2 := RenderArea(p.area) + r3;
    var r1 := p.sep1 + r2;
    var s := p.prefix + r1;
    if p.prefix == "+7" {
      assert s[..2] == "+7" && s[2..] == r1;
    } else {
      assert s[0] == '8' && s[..1] == "8" && s[1..] == r1;
    }
    assert TakePrefix(s) == Some((p.prefix, r1));
    assert r3[0] == p.number.block1[0];
    assert r2[0] == '(' || IsDigit(r2[0]);
    TakeOptSepOf(p.sep1, r2);
    ParseRenderArea(p.area, r3);
    ParseRenderNumber(p.number);
  }

  /** validate_phone asks for a missing number, accepts exactly the strings
      of the pattern's shape, and reports every other string as badly formed. */
  lemma PhoneAcceptedIffShaped(s: string)
    ensures ValidatePhone(s) == None <==> exists p :: WellFormedPhone(p) && RenderPhone(p) == s
    ensures ValidatePhone(s) == Some(PhoneRequired) <==> s == []
    ensures ValidatePhone(s) == Some(PhoneBadFormat)
        <==> s != [] && !(exists p :: WellFormedPhone(p) && RenderPhone(p) == s)
  {
    if ValidatePhone(s) == None {
      var p := ParsePhone(s).value;
      assert WellFormedPhone(p) && RenderPhone(p) == s;
    }
    if exists p :: WellFormedPhone(p) && RenderPhone(p) == s {
      var p :| WellFormedPhone(p) && RenderPhone(p) == s;
      ParseRenderPhone(p);
      assert |s| >= 1 by { assert s[0] == p.prefix[0]; }
    }
  }

  // ---------------------------------------------------------------------
  // Email

  /** The pieces of a string that matches
      `^[a-zA-Z0-9._%+-]+@[a-zA-Z0-9.-]+\.[a-zA-Z]{2,}$`: the local part, then
      the host after the `@`. */
  datatype EmailParts = EmailParts(local: string, host: HostParts)

  /** `[a-zA-Z0-9.-]+\.[a-zA-Z]{2,}$` */
  datatype HostParts = HostParts(domain: string, tld: string, end: string)

  predicate AllLocal(s: string) { forall i :: 0 <= i < |s| ==> IsLocalChar(s[i]) }
  predicate AllDomain(s: string) { forall i :: 0 <= i < |s| ==> IsDomainChar(s[i]) }
  predicate AllLetters(s: string) { forall i :: 0 <= i < |s| ==> IsAsciiLetter(s[i]) }

  predicate WellFormedHost(h: HostParts) {
    && h.domain != [] && AllDomain(h.domain)
    && |h.tld| >= 2 && AllLetters(h.tld)
    && IsLineEnd(h.end)
  }

  predicate WellFormedEmail(e: EmailParts) {
    e.local != [] && AllLocal(e.local) && WellFormedHost(e.host)
  }

  function RenderHost(h: HostParts): string {
    h.domain + ("." + (h.tld + h.end))
  }

  function RenderEmail(e: EmailParts): string {
    e.local + ("@" + RenderHost(e.host))
  }

  /** Splits `s` around its first `c`. */
  function SplitAtFirst(s: string, c: char): (r: Option<(string, string)>)
    ensures r.None? ==> c !in s
    ensures r.Some? ==> c !in r.value.0 && r.value.0 + ([c] + r.value.1) == s
  {
    if s == [] then None
    else if s[0] == c then Some(([], s[1..]))
    else match SplitAtFirst(s[1..], c)
      case None => None
      case Some((a, b)) => assert [s[0]] + (a + ([c] + b)) == s; Some(([s[0]] + a, b))
  }

  /** Splits `s` around its last `c`. */
  function SplitAtLast(s: string, c: char): (r: Option<(string, string)>)
    ensures r.None? ==> c !in s
    ensures r.Some? ==> c !in r.value.1 && r.value.0 + ([c] + r.value.1) == s
    decreases |s|
  {
    if s == [] then None
    else
      var last := s[|s| - 1];
      var init := s[..|s| - 1];
      assert s == init + [last];
      if last == c then Some((init, []))
      else match SplitAtLast(init, c)
        case None => None
        case Some((a, b)) => assert a + ([c] + (b + [last])) == s; Some((a, b + [last]))
  }

  /** Splits off the one final newline that `$` lets through. */
  function SplitLineEnd(s: string): (r: (string, string))
    ensures r.0 + r.1 == s && IsLineEnd(r.1)
  {
    if s != [] && s[|s| - 1] == '\n' then (s[..|s| - 1], s[|s| - 1..]) else (s, [])
  }

  /** The dot before the top-level domain is the last dot, since the
      top-level domain holds letters only. */
  function ParseHost(s: string): (r: Option<HostParts>)
    ensures r.Some? ==> WellFormedHost(r.value) && RenderHost(r.value) == s
  {
    var (body, end) := SplitLineEnd(s);
    var (domain, tld) :- SplitAtLast(body, '.');
    var h := HostParts(domain, tld, end);
    if WellFormedHost(h) then Some(h) else None
  }

  /** The pattern's `@` is the first one, since no character class allows it. */
  function ParseEmail(s: string): (r: Option<EmailParts>)
    ensures r.Some? ==> WellFormedEmail(r.value) && RenderEmail(r.value) == s
  {
    var (local, rest) :- SplitAtFirst(s, '@');
    var host :- ParseHost(rest);
    if local != [] && AllLocal(local) then Some(EmailParts(local, host)) else None
  }

  lemma {:induction false} SplitAtFirstOf(x: string, c: char, y: string)
    requires c !in x
    ensures SplitAtFirst(x + ([c] + y), c) == Some((x, y))
  {
    var s := x + ([c] + y);
    if x == [] {
      assert s == [c] + y;
    } else {
      assert s[1..] == x[1..] + ([c] + y);
      SplitAtFirstOf(x[1..], c, y);
      assert [x[0]] + x[1..] == x;
    }
  }

  lemma {:induction false} SplitAtLastOf(x: string, c: char, y: string)
    requires c !in y
    ensures SplitAtLast(x + ([c] + y), c) == Some((x, y))
    decreases |y|
  {
    var s := x + ([c] + y);
    if y == [] {
      assert s[..|s| - 1] == x;
    } else {
      var init := y[..|y| - 1];
      assert s[..|s| - 1] == x + ([c] + init);
      assert s[|s| - 1] == y[|y| - 1];
      SplitAtLastOf(x, c, init);
      assert init + [y[|y| - 1]] == y;
    }
  }

  lemma ParseRenderHost(h: HostParts)
    requires WellFormedHost(h)
    ensures ParseHost(RenderHost(h)) == Some(h)
  {
    var body := h.domain + ("." + h.tld);
    assert RenderHost(h) == body + h.end;
    assert SplitLineEnd(body + h.end) == (body, h.end) by {
      assert IsAsciiLetter(h.tld[|h.tld| - 1]);
      assert body[|body| - 1] == h.tld[|h.tld| - 1];
      if h.end == "\n" {
        assert (body + h.end)[..|body|] == body;
      } else {
        assert body + h.end == body;
      }
    }
    assert '.' !in h.tld by {
      forall i | 0 <= i < |h.tld| ensures h.tld[i] != '.' {
        assert IsAsciiLetter(h.tld[i]);
      }
    }
    SplitAtLastOf(h.domain, '.', h.tld);
  }

  /** Every string of the pattern's shape is read back into exactly its pieces. */
  lemma ParseRenderEmail(e: EmailParts)
    requires WellFormedEmail(e)
    ensures ParseEmail(RenderEmail(e)) == Some(e)
  {
    assert '@' !in e.local by {
      forall i | 0 <= i < |e.local| ensures e.local[i] != '@' {
        assert IsLocalChar(e.local[i]);
      }
    }
    SplitAtFirstOf(e.local, '@', RenderHost(e.host));
    ParseRenderHost(e.host);
  }

  /** validate_email */
  function ValidateEmail(s: string): (r: Option<Message>)
    ensures r == Some(EmailRequired) <==> s == []
    ensures r.Some? ==> r == Some(EmailRequired) || r == Some(EmailBadFormat)
  {
    if s == [] then Some(EmailRequired)
    else if ParseEmail(s).None? then Some(EmailBadFormat)
    else None
  }

  /** validate_email asks for a missing address, accepts exactly the strings
      of the pattern's shape, and reports every other string as badly formed. */
  lemma EmailAcceptedIffShaped(s: string)
    ensures ValidateEmail(s) == None <==> exists e :: WellFormedEmail(e) && RenderEmail(e) == s
    ensures ValidateEmail(s) == Some(EmailRequired) <==> s == []
    ensures ValidateEmail(s) == Some(EmailBadFormat)
        <==> s != [] && !(exists e :: WellFormedEmail(e) && RenderEmail(e) == s)
  {
    if ValidateEmail(s) == None {
      var e := ParseEmail(s).value;
      assert WellFormedEmail(e) && RenderEmail(e) == s;
    }
    if exists e :: WellFormedEmail(e) && RenderEmail(e) == s {
      var e :| WellFormedEmail(e) && RenderEmail(e) == s;
      ParseRenderEmail(e);
      assert s[0] == e.local[0];
    }
  }

  // ---------------------------------------------------------------------
  // Birth date

  /** A calendar date, as strptime's `%Y-%m-%d` reads it (time of day midnight). */
  datatype Date = Date(year: int, month: int, day: int)

  predicate IsLeapYear(y: int) {
    y % 4 == 0 && (y % 100 != 0 || y % 400 == 0)
  }

  function DaysInMonth(y: int, m: int): int
    requires 1 <= m <= 12
  {
    if m == 2 then (if IsLeapYear(y) then 29 else 28)
    else if m == 4 || m == 6 || m == 9 || m == 11 then 30
    else 31
  }

  /** A date that Python's `datetime` can hold: years 1 to 9999 of the
      proleptic Gregorian calendar. */
  predicate IsValidDate(d: Date) {
    1 <= d.year <= 9999 && 1 <= d.month <= 12 && 1 <= d.day <= DaysInMonth(d.year, d.month)
  }

  /** `a` is a later day than `b`. */
  predicate IsAfter(a: Date, b: Date) {
    || a.year > b.year
    || (a.year == b.year && a.month > b.month)
    || (a.year == b.year && a.month == b.month && a.day > b.day)
  }

  /** `\d{4}-\d{2}-\d{2}` over exactly ten characters. */
  predicate DateShape(s: string) {
    && |s| == 10
    && IsDigitGroup(s[..4], 4) && s[4] == '-'
    && IsDigitGroup(s[5..7], 2) && s[7] == '-'
    && IsDigitGroup(s[8..], 2)
  }

  /** `re.match(r'^\d{4}-\d{2}-\d{2}$', s)` */
  predicate DatePattern(s: string) {
    DateShape(s) || (|s| == 11 && s[10] == '\n' && DateShape(s[..10]))
  }

  function DigitValue(c: char): int { c as int - '0' as int }

  function DigitChar(n: int): char
    requires 0 <= n < 10
  {
    ('0' as int + n) as char
  }

  /** The number a two-digit text stands for. */
  function Value2(s: string): int
    requires |s| == 2
  {
    10 * DigitValue(s[0]) + DigitValue(s[1])
  }

  /** The number a four-digit text stands for. */
  function Value4(s: string): int
    requires |s| == 4
  {
    100 * Value2(s[..2]) + Value2(s[2..])
  }

  /** Two digits, zero-padded. */
  function Digits2(n: int): string
    requires 0 <= n < 100
  {
    [DigitChar(n / 10), DigitChar(n % 10)]
  }

  /** Four digits, zero-padded. */
  function Digits4(n: int): string
    requires 0 <= n < 10000
  {
    Digits2(n / 100) + Digits2(n % 100)
  }

  /** strptime's reading of `%Y-%m-%d` from a text of the pattern's shape. */
  function ParseDate(s: string): Date
    requires DateShape(s)
  {
    Date(Value4(s[..4]), Value2(s[5..7]), Value2(s[8..]))
  }

  /** The `YYYY-MM-DD` text of a date, zero-padded. */
  function FormatDate(d: Date): (s: string)
    requires 0 <= d.year <= 9999 && 0 <= d.month <= 99 && 0 <= d.day <= 99
  {
    Digits4(d.year) + "-" + Digits2(d.month) + "-" + Digits2(d.day)
  }

  /** validate_birthdate, with `today` standing for `datetime.now()`: the
      parsed date is midnight, so it is later than now exactly when it is a
      later day than today. A final "\n" that the pattern lets through is
      data that strptime cannot convert, so it is reported as an incorrect date. */
  function ValidateBirthdate(s: string, today: Date): (r: Option<Message>)
    ensures r == Some(BirthdateRequired) <==> s == []
    ensures s != [] && !DatePattern(s) ==> r == Some(BirthdateBadFormat)
    ensures DatePattern(s) && |s| == 11 ==> r == Some(BirthdateInvalid)
    ensures DateShape(s) ==>
      && (r == Some(BirthdateInvalid) <==> !IsValidDate(ParseDate(s)))
      && (r == Some(BirthdateInFuture) <==> IsValidDate(ParseDate(s)) && IsAfter(ParseDate(s), today))
      && (r == None <==> IsValidDate(ParseDate(s)) && !IsAfter(ParseDate(s), today))
  {
    if s == [] then Some(BirthdateRequired)
    else if !DatePattern(s) then Some(BirthdateBadFormat)
    else if |s| != 10 then Some(BirthdateInvalid)
    else
      var d := ParseDate(s);
      if !IsValidDate(d) then Some(BirthdateInvalid)
      else if IsAfter(d, today) then Some(BirthdateInFuture)
      else None
  }

  lemma DigitRoundTrip(n: int)
    requires 0 <= n < 10
    ensures IsDigit(DigitChar(n)) && DigitValue(DigitChar(n)) == n
  {
  }

  lemma Value2OfDigits2(n: int)
    requires 0 <= n < 100
    ensures IsDigitGroup(Digits2(n), 2) && Value2(Digits2(n)) == n
  {
    DigitRoundTrip(n / 10);
    DigitRoundTrip(n % 10);
  }

  lemma Digits2OfValue2(s: string)
    requires IsDigitGroup(s, 2)
    ensures 0 <= Value2(s) < 100 && Digits2(Value2(s)) == s
  {
    var a, b := DigitValue(s[0]), DigitValue(s[1]);
    assert IsDigit(s[0]) && IsDigit(s[1]);
    assert (10 * a + b) / 10 == a && (10 * a + b) % 10 == b;
  }

  lemma Value4OfDigits4(n: int)
    requires 0 <= n < 10000
    ensures IsDigitGroup(Digits4(n), 4) && Value4(Digits4(n)) == n
  {
    var s := Digits4(n);
    Value2OfDigits2(n / 100);
    Value2OfDigits2(n % 100);
    assert s[..2] == Digits2(n / 100) && s[2..] == Digits2(n % 100);
  }

  lemma Digits4OfValue4(s: string)
    requires IsDigitGroup(s, 4)
    ensures 0 <= Value4(s) < 10000 && Digits4(Value4(s)) == s
  {
    var hi, lo := s[..2], s[2..];
    Digits2OfValue2(hi);
    Digits2OfValue2(lo);
    var v := Value4(s);
    assert v / 100 == Value2(hi) && v % 100 == Value2(lo);
    assert hi + lo == s;
  }

  /** Formatting a date and reading it back gives the same date. */
  lemma ParseFormatDate(d: Date)
    requires 0 <= d.year <= 9999 && 0 <= d.month <= 99 && 0 <= d.day <= 99
    ensures DateShape(FormatDate(d)) && ParseDate(FormatDate(d)) == d
  {
    var s := FormatDate(d);
    Value4OfDigits4(d.year);
    Value2OfDigits2(d.month);
    Value2OfDigits2(d.day);
    assert s[..4] == Digits4(d.year);
    assert s[5..7] == Digits2(d.month);
    assert s[8..] == Digits2(d.day);
  }

  /** A well-shaped date text is the formatting of the date it is read as. */
  lemma FormatParseDate(s: string)
    requires DateShape(s)
    ensures var d := ParseDate(s);
      0 <= d.year <= 9999 && 0 <= d.month <= 99 && 0 <= d.day <= 99 && FormatDate(d) == s
  {
    Digits4OfValue4(s[..4]);
    Digits2OfValue2(s[5..7]);
    Digits2OfValue2(s[8..]);
    assert s == s[..4] + "-" + s[5..7] + "-" + s[8..];
  }

  /** validate_birthdate accepts exactly the `YYYY-MM-DD` texts of real dates
      that are not later than today. */
  lemma BirthdateAcceptedIff(s: string, today: Date)
    ensures ValidateBirthdate(s, today) == None
        <==> exists d :: IsValidDate(d) && !IsAfter(d, today) && s == FormatDate(d)
  {
    if ValidateBirthdate(s, today) == None {
      FormatParseDate(s);
      var d := ParseDate(s);
      assert IsValidDate(d) && !IsAfter(d, today) && s == FormatDate(d);
    }
    if exists d :: IsValidDate(d) && !IsAfter(d, today) && s == FormatDate(d) {
      var d :| IsValidDate(d) && !IsAfter(d, today) && s == FormatDate(d);
      ParseFormatDate(d);
    }
  }

  // ---------------------------------------------------------------------
  // Gender, languages, biography, contract

  /** validate_gender */
  function ValidateGender(g: string): (r: Option<Message>)
    ensures r == None <==> g == "male" || g == "female"
    ensures r.Some? ==> r.value == GenderMissing
  {
    if g !in ["male", "female"] then Some(GenderMissing) else None
  }

  /** The twelve accepted language names, spelled as the source spells them. */
  const AllowedLanguages: set<string> :=
    {"Pascal", "C", "C++", "JavaScript", "PHP", "Python", "Java", "Haskel",
     "Clojure", "Prolog", "Scala", "Go"}

  /** validate_languages: a non-empty selection of allowed names; one unknown
      name rejects the whole selection. */
  function ValidateLanguages(langs: seq<string>): (r: Option<Message>)
    ensures r == Some(LanguagesEmpty) <==> langs == []
    ensures r == Some(LanguagesUnknown) <==> exists k :: 0 <= k < |langs| && langs[k] !in AllowedLanguages
    ensures r == None <==> langs != [] && forall k :: 0 <= k < |langs| ==> langs[k] in AllowedLanguages
  {
    if langs == [] then Some(LanguagesEmpty)
    else if !(forall k :: 0 <= k < |langs| ==> langs[k] in AllowedLanguages) then Some(LanguagesUnknown)
    else None
  }

  /** `[<>{}[\]]` */
  predicate IsBioForbidden(c: char) {
    c == '<' || c == '>' || c == '{' || c == '}' || c == '[' || c == ']'
  }

  /** validate_biography: at least ten characters once stripped (so not empty),
      then at most 500 characters as given, then none of `< > { } [ ]`. */
  function ValidateBiography(bio: string): (r: Option<Message>)
    ensures r == Some(BioTooShort) <==> |Strip(bio)| < 10
    ensures r == Some(BioTooLong) <==> |Strip(bio)| >= 10 && |bio| > 500
    ensures r == Some(BioBadChars)
        <==> |Strip(bio)| >= 10 && |bio| <= 500 && exists i :: 0 <= i < |bio| && IsBioForbidden(bio[i])
    ensures r == None
        <==> 10 <= |Strip(bio)| && |bio| <= 500 && forall i :: 0 <= i < |bio| ==> !IsBioForbidden(bio[i])
  {
    if bio == [] || |Strip(bio)| < 10 then Some(BioTooShort)
    else if |bio| > 500 then Some(BioTooLong)
    else if exists i :: 0 <= i < |bio| && IsBioForbidden(bio[i]) then Some(BioBadChars)
    else None
  }

  /** validate_contract: only the checkbox's literal `on` passes. */
  function ValidateContract(c: string): (r: Option<Message>)
    ensures r == None <==> c == "on"
    ensures r.Some? ==> r.value == ContractMissing
  {
    if c != "on" then Some(ContractMissing) else None
  }

  // ---------------------------------------------------------------------
  // The whole form

  /** The eight fields of the form, by the names the form submits them under. */
  datatype Field = Fullname | Phone | Email | Birthdate | Gender | Language | Bio | Contract {
    function Name(): string {
      match this
      case Fullname => "fullname"
      case Phone => "phone"
      case Email => "email"
      case Birthdate => "birthdate"
      case Gender => "gender"
      case Language => "language"
      case Bio => "bio"
      case Contract => "contract"
    }

    /** The position of the field in the order validate_form_data checks it. */
    function Index(): (i: nat)
      ensures i < 8
    {
      match this
      case Fullname => 0
      case Phone => 1
      case Email => 2
      case Birthdate => 3
      case Gender => 4
      case Language => 5
      case Bio => 6
      case Contract => 7
    }
  }

  /** A submitted form: the values sent for each field. Names that are no
      field's name are never read, so they are not kept. */
  type Form = map<Field, seq<string>>

  /** `data[f][0]` can be read for every single-valued field present
      (`parse_qs` never yields an empty list). */
  predicate HasFirstValues(data: Form) {
    forall f: Field :: f != Language && f in data ==> data[f] != []
  }

  /** `data.get(f, [''])[0]` */
  function FirstValue(data: Form, f: Field): string
    requires f != Language && HasFirstValues(data)
  {
    if f in data then data[f][0] else ""
  }

  /** `data.get('language', [])` */
  function LanguagesOf(data: Form): seq<string> {
    if Language in data then data[Language] else []
  }

  /** The rule validate_form_data applies to field `f`, on the value it reads
      for that field. */
  function FieldError(data: Form, today: Date, f: Field): Option<Message>
    requires HasFirstValues(data)
  {
    match f
    case Fullname => ValidateFullname(FirstValue(data, f))
    case Phone => ValidatePhone(FirstValue(data, f))
    case Email => ValidateEmail(FirstValue(data, f))
    case Birthdate => ValidateBirthdate(FirstValue(data, f), today)
    case Gender => ValidateGender(FirstValue(data, f))
    case Language => ValidateLanguages(LanguagesOf(data))
    case Bio => ValidateBiography(FirstValue(data, f))
    case Contract => ValidateContract(FirstValue(data, f))
  }

  /** `errors` holds exactly the failures among the first `n` fields in
      checking order, each with its rule's message. */
  ghost predicate Reports(errors: map<Field, Message>, data: Form, today: Date, n: nat)
    requires HasFirstValues(data)
  {
    ReportsOf(errors, FieldRule(data, today), n)
  }

  /** The rules of all fields as one function. */
  ghost function FieldRule(data: Form, today: Date): Field -> Option<Message> {
    f => if HasFirstValues(data) then FieldError(data, today, f) else None
  }

  /** `errors` holds exactly the failures of `rule` among the first `n` fields. */
  ghost predicate ReportsOf(errors: map<Field, Message>, rule: Field -> Option<Message>, n: nat) {
    forall f: Field {:trigger f in errors} ::
      && (f in errors <==> f.Index() < n && rule(f).Some?)
      && (f in errors ==> errors[f] == rule(f).value)
  }

  /** Recording the outcome of the `n`-th rule extends the report by one field. */
  lemma ReportsOfStep(errors: map<Field, Message>, rule: Field -> Option<Message>, f: Field, n: nat)
    requires n == f.Index() && ReportsOf(errors, rule, n)
    ensures ReportsOf(if rule(f).Some? then errors[f := rule(f).value] else errors, rule, n + 1)
  {
    var r := if rule(f).Some? then errors[f := rule(f).value] else errors;
    forall g: Field
      ensures && (g in r <==> g.Index() < n + 1 && rule(g).Some?)
              && (g in r ==> r[g] == rule(g).value)
    {
      if g != f {
        assert g.Index() != n;
        assert g in r <==> g in errors;
      }
    }
  }

  /** One step of validate_form_data, `if error := rule(value): errors[f] = error`,
      for `f` the `n`-th field in checking order (`m` is `n + 1`). */
  method CheckField(data: Form, today: Date, f: Field, errors: map<Field, Message>, ghost n: nat, ghost m: nat)
    returns (r: map<Field, Message>)
    requires HasFirstValues(data) && n == f.Index() && m == n + 1
    requires Reports(errors, data, today, n)
    ensures Reports(r, data, today, m)
  {
    r := errors;
    var error := FieldError(data, today, f);
    if error.Some? {
      r := r[f := error.value];
    }
    assert FieldRule(data, today)(f) == error;
    ReportsOfStep(errors, FieldRule(data, today), f, n);
  }

  /** validate_form_data: the map `FormErrors` describes, every failing field
      with its rule's message and no other entry. */
  method ValidateFormData(data: Form, today: Date) returns (errors: map<Field, Message>)
    requires HasFirstValues(data)
    ensures errors == FormErrors(data, today)
  {
    errors := CheckContactFields(data, today);
    errors := CheckProfileFields(data, today, errors);
    ReportsEvery(errors, data, today);
    var expected := FormErrors(data, today);
    assert errors.Keys == expected.Keys;
  }

  /** Lines 86-98: name, phone, email and birthdate. */
  method CheckContactFields(data: Form, today: Date) returns (errors: map<Field, Message>)
    requires HasFirstValues(data)
    ensures Reports(errors, data, today, 4)
  {
    errors := map[];
    errors := CheckField(data, today, Fullname, errors, 0, 1);
    errors := CheckField(data, today, Phone, errors, 1, 2);
    errors := CheckField(data, today, Email, errors, 2, 3);
    errors := CheckField(data, today, Birthdate, errors, 3, 4);
  }

  /** Lines 100-110: gender, languages, biography and contract. */
  method CheckProfileFields(data: Form, today: Date, errors: map<Field, Message>) returns (r: map<Field, Message>)
    requires HasFirstValues(data) && Reports(errors, data, today, 4)
    ensures Reports(r, data, today, 8)
  {
    r := CheckField(data, today, Gender, errors, 4, 5);
    r := CheckField(data, today, Language, r, 5, 6);
    r := CheckField(data, today, Bio, r, 6, 7);
    r := CheckField(data, today, Contract, r, 7, 8);
  }

  /** Once all eight fields are checked, the map reports every failing one. */
  lemma ReportsEvery(errors: map<Field, Message>, data: Form, today: Date)
    requires HasFirstValues(data) && Reports(errors, data, today, 8)
    ensures forall f: Field :: f in errors <==> FieldError(data, today, f).Some?
    ensures forall f: Field :: f in errors ==> errors[f] == FieldError(data, today, f).value
  {
    forall f: Field ensures f in errors <==> FieldError(data, today, f).Some? {
      assert f.Index() < 8;
    }
  }

  const AllFields: set<Field> := {Fullname, Phone, Email, Birthdate, Gender, Language, Bio, Contract}

  lemma AllFieldsListed()
    ensures forall f: Field :: f in AllFields
  {
    forall f: Field ensures f in AllFields {
      match f
      case Fullname =>
      case Phone =>
      case Email =>
      case Birthdate =>
      case Gender =>
      case Language =>
      case Bio =>
      case Contract =>
    }
  }

  /** The error map of validate_form_data as a value, for reasoning about a
      whole request. */
  function FormErrors(data: Form, today: Date): (errors: map<Field, Message>)
    requires HasFirstValues(data)
    ensures forall f: Field :: f in errors <==> FieldError(data, today, f).Some?
    ensures forall f: Field :: f in errors ==> errors[f] == FieldError(data, today, f).value
  {
    AllFieldsListed();
    map f | f in AllFields && FieldError(data, today, f).Some? :: FieldError(data, today, f).value
  }

  /** Every rule rejects the default a missing field is read as, so a form
      without field `f` fails on `f`. */
  lemma MissingFieldFails(data: Form, today: Date, f: Field)
    requires HasFirstValues(data)
    ensures f !in data ==> FieldError(data, today, f).Some?
  {
    if f !in data {
      if f == Language {
        assert LanguagesOf(data) == [];
      } else {
        assert FirstValue(data, f) == "";
      }
    }
  }

  /** A form that passes every rule has every field, and at least one
      language, so the success path may index `data[f][0]` directly. */
  lemma PassingFormHasAllFields(data: Form, today: Date)
    requires HasFirstValues(data)
    requires forall f: Field :: FieldError(data, today, f).None?
    ensures forall f: Field :: f in data && data[f] != []
  {
    forall f: Field ensures f in data && data[f] != [] {
      MissingFieldFails(data, today, f);
      if f == Language {
        assert FieldError(data, today, Language).None?;
      }
    }
  }
}
