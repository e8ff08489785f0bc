/**
  The request handling of the registration form, with its I/O passed in as
  values: a POST to `/submit` validates the form and either sends the browser
  back with the form and its errors in cookies, or saves the user and keeps
  the submitted values for a year; a GET of `/` renders the form from the
  cookies and clears the error cookies.
 */
module Handler {
  import opened Optional
  import opened Text
  import opened Validators
  import opened Cookies
  import opened Renderer

  // ---------------------------------------------------------------------
  // The submitted form as the validators read it

  /** The fields of a `parse_qs` result, by field; other names are never read. */
  function FormOf(query: Query): (form: Form)
    requires IsParsedQuery(query)
    ensures HasFirstValues(form)
    ensures forall f: Field :: (f in form <==> f.Name() in query) && (f in form ==> form[f] == query[f.Name()])
  {
    AllFieldsListed();
    map f | f in AllFields && f.Name() in query :: query[f.Name()]
  }

  /** The six names the success path reads with `data[name][0]`. */
  lemma PassingSubmissionHasStoredNames(query: Query, today: Date)
    requires IsParsedQuery(query)
    ensures FormErrors(FormOf(query), today) == map[] ==> HasStoredNames(query)
  {
    if FormErrors(FormOf(query), today) != map[] {
      return;
    }
    var form := FormOf(query);
    forall f: Field ensures FieldError(form, today, f).None? {
      assert f !in FormErrors(form, today);
    }
    PassingFormHasAllFields(form, today);
    assert Fullname in form && Phone in form && Email in form && Birthdate in form;
    assert Gender in form && Bio in form;
  }

  // ---------------------------------------------------------------------
  // prepare_user_data

  /** The record `prepare_user_data` hands to `save_user`. */
  datatype UserRecord = UserRecord(
    firstName: string, lastName: string, middleName: Option<string>,
    phone: string, email: string, birthdate: string, gender: string,
    biography: string, languages: seq<string>)

  /** `prepare_user_data`: the name split into words after stripping it. */
  function PrepareUserData(data: Query): UserRecord
    requires IsParsedQuery(data) && HasStoredNames(data)
  {
    var parts := Words(Strip(data["fullname"][0]));
    UserRecord(
      if |parts| > 0 then parts[0] else "",
      if |parts| > 1 then parts[1] else "",
      if |parts| > 2 then Some(parts[2]) else None,
      Strip(data["phone"][0]),
      Strip(data["email"][0]),
      data["birthdate"][0],
      data["gender"][0],
      Strip(data["bio"][0]),
      if "language" in data then data["language"] else [])
  }

  /** The first, last and middle names are the first three words of the
      submitted name (stripping it first changes nothing), `''` or `None`
      where there are fewer; phone, email and biography are the first values
      without surrounding white space; birthdate and gender pass through
      unchanged; the languages are all the submitted ones, none when the
      field is missing. */
  lemma PrepareUserDataParts(data: Query)
    requires IsParsedQuery(data) && HasStoredNames(data)
    ensures var u := PrepareUserData(data); var ws := Words(data["fullname"][0]);
      && u.firstName == (if |ws| > 0 then ws[0] else "")
      && u.lastName == (if |ws| > 1 then ws[1] else "")
      && u.middleName == (if |ws| > 2 then Some(ws[2]) else None)
      && u.phone == Strip(data["phone"][0]) && u.email == Strip(data["email"][0])
      && u.biography == Strip(data["bio"][0])
      && u.birthdate == data["birthdate"][0] && u.gender == data["gender"][0]
      && ("language" in data ==> u.languages == data["language"])
      && ("language" !in data ==> u.languages == [])
  {
    WordsOfStrip(data["fullname"][0]);
  }

  /** The words of a record's name, in order. */
  function NameWords(u: UserRecord): seq<string> {
    [u.firstName, u.lastName] + (if u.middleName.Some? then [u.middleName.value] else [])
  }

  /** For a name validate_fullname accepts, the record keeps every word of it:
      first and last names are present and joining the parts with spaces
      gives a name with the same words. */
  lemma AcceptedNameKeepsWords(data: Query)
    requires IsParsedQuery(data) && HasStoredNames(data)
    requires ValidateFullname(data["fullname"][0]) == None
    ensures var u := PrepareUserData(data);
      && u.firstName != [] && u.lastName != []
      && NameWords(u) == Words(data["fullname"][0])
      && Words(Join(NameWords(u), " ")) == Words(data["fullname"][0])
  {
    var ws := Words(data["fullname"][0]);
    PrepareUserDataParts(data);
    NameWordsOfParts(PrepareUserData(data), ws);
    WordsOfJoin(ws);
  }

  lemma NameWordsOfParts(u: UserRecord, ws: seq<string>)
    requires 2 <= |ws| <= 3 && u.firstName == ws[0] && u.lastName == ws[1]
    requires u.middleName == (if |ws| > 2 then Some(ws[2]) else None)
    ensures NameWords(u) == ws
  {
    if |ws| == 2 {
      assert NameWords(u) == [ws[0], ws[1]];
    } else {
      assert NameWords(u) == [ws[0], ws[1], ws[2]];
    }
  }

  // ---------------------------------------------------------------------
  // Responses

  datatype Body = NoBody | FormPage(html: string) | SuccessPage(userId: int) | ServerError

  /** A response, with the Set-Cookie headers it carries in the order they
      are sent; `NoResponse` when an exception escapes the handler. */
  datatype Response =
    | Response(status: int, setCookies: seq<Header>, location: Option<string>, body: Body)
    | NoResponse

  /** The browser's cookies after it receives the Set-Cookie headers in order. */
  function StoreAll(browser: Jar, headers: seq<Header>): Jar
    decreases |headers|
  {
    if headers == [] then browser else StoreAll(Receive(browser, headers[0]), headers[1..])
  }

  lemma StoreAllOne(browser: Jar, h: Header)
    ensures StoreAll(browser, [h]) == Receive(browser, h)
  {
    assert [h][1..] == [];
  }

  lemma StoreAllPair(browser: Jar, h1: Header, h2: Header)
    ensures StoreAll(browser, [h1, h2]) == Receive(Receive(browser, h1), h2)
  {
    assert [h1, h2][1..] == [h2];
    StoreAllOne(Receive(browser, h1), h2);
  }

  /** The program as written, or with the cookie code corrected: each
      cookie in a Set-Cookie field of its own and `max_age is not None`. */
  datatype Variant = AsWritten | Corrected

  /** The header `_set_cookies` sends in each variant. */
  function CookieHeader(v: Variant, data: Jar, maxAge: Option<int>, expires: Option<string>): (h: Header)
    ensures h.Folded? <==> v == AsWritten
    ensures h.cookies.Keys == data.Keys
    ensures forall k :: k in h.cookies ==> h.cookies[k].value == data[k]
  {
    match v
    case AsWritten => Folded(CookiesFor(data, maxAge, expires))
    case Corrected => Separate(CookiesForFixed(data, maxAge, expires))
  }

  /** `_set_cookies` in each variant. */
  method SendCookies(v: Variant, data: Jar, maxAge: Option<int>, expires: Option<string>) returns (sent: Header)
    ensures sent == CookieHeader(v, data, maxAge, expires)
  {
    if v == AsWritten {
      sent := SetCookies(data, maxAge, expires);
    } else {
      sent := SetCookiesFixed(data, maxAge, expires);
    }
  }

  /** `_clear_error_cookies` in each variant. */
  method ClearCookies(v: Variant) returns (sent: Header)
    ensures sent == CookieHeader(v, ClearedData(), Some(0), None)
  {
    if v == AsWritten {
      sent := ClearErrorCookies();
    } else {
      sent := ClearErrorCookiesFixed();
    }
  }

  // ---------------------------------------------------------------------
  // POST /submit

  /** What do_POST answers to a submission. `encodeErrors` stands for
      `json.dumps`, `save` for `save_user` (`None` when it raises) and
      `expires` for the formatted date a year ahead. */
  function SubmitResponse(
    v: Variant, query: Query, today: Date, encodeErrors: map<Field, Message> -> string,
    save: UserRecord -> Option<int>, expires: string): Response
    requires IsParsedQuery(query)
  {
    PassingSubmissionHasStoredNames(query, today);
    Respond(v, query, FormErrors(FormOf(query), today), encodeErrors, save, expires)
  }

  /** The answer once validation has produced `errors`. */
  function Respond(
    v: Variant, query: Query, errors: map<Field, Message>, encodeErrors: map<Field, Message> -> string,
    save: UserRecord -> Option<int>, expires: string): Response
    requires IsParsedQuery(query)
    requires errors == map[] ==> HasStoredNames(query)
  {
    if errors != map[] then
      Response(303, [CookieHeader(v, ErrorCookieData(query, encodeErrors(errors)), Some(300), None)], Some("/"), NoBody)
    else Saved(v, query, save(PrepareUserData(query)), expires)
  }

  /** The answer once `save_user` has returned `saved`. */
  function Saved(v: Variant, query: Query, saved: Option<int>, expires: string): Response
    requires IsParsedQuery(query) && HasStoredNames(query)
  {
    match saved
    case None => NoResponse
    case Some(id) =>
      Response(200,
        [CookieHeader(v, ClearedData(), Some(0), None), CookieHeader(v, SuccessCookieData(query), None, Some(expires))],
        None, SuccessPage(id))
  }

  /** do_POST for `/submit`, after the body has been parsed. */
  method Submit(
    v: Variant, query: Query, today: Date, encodeErrors: map<Field, Message> -> string,
    save: UserRecord -> Option<int>, expires: string) returns (resp: Response)
    requires IsParsedQuery(query)
    ensures resp == SubmitResponse(v, query, today, encodeErrors, save, expires)
  {
    var form := FormOf(query);
    var errors := ValidateFormData(form, today);
    PassingSubmissionHasStoredNames(query, today);
    resp := Answer(v, query, errors, encodeErrors, save, expires);
  }

  /** do_POST once `validate_form_data` has returned `errors`: the error
      cookies and a redirect, or the saved record's cookies and the success
      page. */
  method Answer(
    v: Variant, query: Query, errors: map<Field, Message>, encodeErrors: map<Field, Message> -> string,
    save: UserRecord -> Option<int>, expires: string) returns (resp: Response)
    requires IsParsedQuery(query)
    requires errors == map[] ==> HasStoredNames(query)
    ensures resp == Respond(v, query, errors, encodeErrors, save, expires)
  {
    if errors != map[] {
      var cookieData := EncodeErrorCookies(query, encodeErrors(errors));
      var sent := SendCookies(v, cookieData, Some(300), None);
      resp := Response(303, [sent], Some("/"), NoBody);
    } else {
      var user := PrepareUserData(query);
      var saved := save(user);
      if saved.None? {
        resp := NoResponse;
      } else {
        var cookieData := SuccessCookieData(query);
        var cleared := ClearCookies(v);
        var sent := SendCookies(v, cookieData, None, Some(expires));
        resp := Response(200, [cleared, sent], None, SuccessPage(saved.value));
      }
    }
  }


  /** A failing submission is redirected to the form in one Set-Cookie
      header, folded as written, that holds its values for five minutes
      under the names of the error cookie data. */
  lemma FailedSubmissionOutcome(
    v: Variant, query: Query, errors: map<Field, Message>, encodeErrors: map<Field, Message> -> string,
    save: UserRecord -> Option<int>, expires: string)
    requires IsParsedQuery(query) && errors != map[]
    ensures var r := Respond(v, query, errors, encodeErrors, save, expires);
      && r.Response? && r.status == 303 && r.location == Some("/") && r.body == NoBody
      && r.setCookies == [CookieHeader(v, ErrorCookieData(query, encodeErrors(errors)), Some(300), None)]
      && (r.setCookies[0].Folded? <==> v == AsWritten)
      && r.setCookies[0].cookies.Keys == ErrorCookieData(query, encodeErrors(errors)).Keys
      && (forall k :: k in r.setCookies[0].cookies ==> r.setCookies[0].cookies[k].maxAge == Some(300))
  {
    var data := ErrorCookieData(query, encodeErrors(errors));
    SetCookiesAttributes(data, Some(300), None);
    FixedAgreesUnlessZero(data, Some(300), None);
  }

  /** The Set-Cookie headers of a submission that is saved: the clear,
      then the stored values with a year's expiry. */
  lemma SuccessHeaders(
    v: Variant, query: Query, encodeErrors: map<Field, Message> -> string,
    save: UserRecord -> Option<int>, expires: string)
    requires IsParsedQuery(query) && HasStoredNames(query)
    requires save(PrepareUserData(query)).Some?
    ensures var r := Respond(v, query, map[], encodeErrors, save, expires);
      && r.Response? && r.status == 200 && r.body == SuccessPage(save(PrepareUserData(query)).value)
      && r.setCookies == [CookieHeader(v, ClearedData(), Some(0), None), CookieHeader(v, SuccessCookieData(query), None, Some(expires))]
  {
    var saved := save(PrepareUserData(query));
    assert Respond(v, query, map[], encodeErrors, save, expires) == Saved(v, query, saved, expires);
  }

  /** A passing submission answers 200 with the new user's id exactly when
      the prepared record is saved, and has no answer when saving fails. */
  lemma PassingSubmissionOutcome(
    v: Variant, query: Query, encodeErrors: map<Field, Message> -> string,
    save: UserRecord -> Option<int>, expires: string)
    requires IsParsedQuery(query) && HasStoredNames(query)
    ensures var r := Respond(v, query, map[], encodeErrors, save, expires);
      && (r.Response? <==> save(PrepareUserData(query)).Some?)
      && (r.Response? ==> r.status == 200 && r.location == None && r.body == SuccessPage(save(PrepareUserData(query)).value))
  {
    RespondSaved(v, query, encodeErrors, save, expires);
    SavedOutcome(v, query, save(PrepareUserData(query)), expires);
  }

  /** With no errors, do_POST answers what `Saved` gives for the outcome
      of `save_user`. */
  lemma RespondSaved(
    v: Variant, query: Query, encodeErrors: map<Field, Message> -> string,
    save: UserRecord -> Option<int>, expires: string)
    requires IsParsedQuery(query) && HasStoredNames(query)
    ensures Respond(v, query, map[], encodeErrors, save, expires) == Saved(v, query, save(PrepareUserData(query)), expires)
  {
  }

  /** The answer after `save_user` exists exactly when it saved, and is
      then the success page for the new id. */
  lemma SavedOutcome(v: Variant, query: Query, saved: Option<int>, expires: string)
    requires IsParsedQuery(query) && HasStoredNames(query)
    ensures var r := Saved(v, query, saved, expires);
      && (r.Response? <==> saved.Some?)
      && (r.Response? ==> r.status == 200 && r.location == None && r.body == SuccessPage(saved.value))
  {
  }

  // ---------------------------------------------------------------------
  // GET /

  /** What serve_form answers, for the template `template` and the
      browser's cookies `jar`. `decode` stands for `json.loads` of the
      errors cookie (`None` when it raises). */
  function FormResponse(v: Variant, template: string, jar: Jar, decode: string -> Option<ErrorList>): Response {
    var form := FormDataFromCookies(jar);
    if "errors" in jar then
      match decode(jar["errors"])
      case None => Response(500, [], None, ServerError)
      case Some(errors) =>
        Response(200, [CookieHeader(v, ClearedData(), Some(0), None)], None,
                 FormPage(Rendered(template, form, Some(errors))))
    else Response(200, [], None, FormPage(Rendered(template, form, None)))
  }

  /** serve_form. */
  method ServeForm(v: Variant, template: string, jar: Jar, decode: string -> Option<ErrorList>) returns (resp: Response)
    ensures resp == FormResponse(v, template, jar, decode)
  {
    var form := FormDataFromCookies(jar);
    var errors: Option<ErrorList> := None;
    var sent: seq<Header> := [];
    if "errors" in jar {
      errors := decode(jar["errors"]);
      if errors.None? {
        return Response(500, [], None, ServerError);
      }
      var cleared := ClearCookies(v);
      sent := [cleared];
    }
    var html := RenderForm(template, form, errors);
    resp := Response(200, sent, None, FormPage(html));
  }

  /** serve_form when the errors cookie decodes. */
  lemma FormResponseWithErrors(v: Variant, template: string, jar: Jar, decode: string -> Option<ErrorList>, shown: ErrorList)
    requires "errors" in jar && decode(jar["errors"]) == Some(shown)
    ensures FormResponse(v, template, jar, decode)
      == Response(200, [CookieHeader(v, ClearedData(), Some(0), None)], None,
                  FormPage(Rendered(template, FormDataFromCookies(jar), Some(shown))))
  {
  }

  // ---------------------------------------------------------------------
  // Across requests

  /** `_prepare_form_data_from_cookies` reads only the nine cleared names. */
  lemma FormDataReadsClearedNames(j1: Jar, j2: Jar)
    requires forall k :: k in ClearedNames ==> (k in j1 <==> k in j2) && (k in j1 ==> j1[k] == j2[k])
    ensures FormDataFromCookies(j1) == FormDataFromCookies(j2)
  {
    var f1, f2 := FormDataFromCookies(j1), FormDataFromCookies(j2);
    FormDataKeys(j1);
    FormDataKeys(j2);
    forall k | k in ScalarNames ensures f1[k] == f2[k] {
      assert k in ClearedNames;
    }
    assert "language" in ClearedNames;
    assert f1.Keys == f2.Keys;
  }

  // --- As written: the folded field keeps one cookie

  /** As written, a failing submission sets exactly one cookie in the
      browser: the error cookie data's entry whose name sorts first. */
  lemma FailedSubmissionSetsOneCookie(
    query: Query, errors: map<Field, Message>, encodeErrors: map<Field, Message> -> string,
    save: UserRecord -> Option<int>, expires: string, browser: Jar)
    requires IsParsedQuery(query) && errors != map[]
    ensures var data := ErrorCookieData(query, encodeErrors(errors));
      var after := StoreAll(browser, Respond(AsWritten, query, errors, encodeErrors, save, expires).setCookies);
      exists k :: IsLeast(k, data.Keys) && after == browser[k := data[k]]
  {
    var data := ErrorCookieData(query, encodeErrors(errors));
    var m := CookiesFor(data, Some(300), None);
    assert StoreAll(browser, [Folded(m)]) == Receive(browser, Folded(m));
    assert "errors" in m;
    FoldedStoresOne(m);
    var k :| IsLeast(k, m.Keys) && Kept(Folded(m)) == map[k := m[k]];
    StoreOne(browser, k, m[k]);
    assert IsLeast(k, data.Keys);
  }

  /** As written, a failing submission leaves the errors in the browser
      only when none of `bio`, `birthdate`, `contract` and `email` was
      submitted; otherwise the errors cookie is whatever it was before. */
  lemma FailedSubmissionErrorsKept(
    query: Query, errors: map<Field, Message>, encodeErrors: map<Field, Message> -> string,
    save: UserRecord -> Option<int>, expires: string, browser: Jar)
    requires IsParsedQuery(query) && errors != map[]
    ensures var after := StoreAll(browser, Respond(AsWritten, query, errors, encodeErrors, save, expires).setCookies);
      var early := "bio" in query || "birthdate" in query || "contract" in query || "email" in query;
      && (!early ==> "errors" in after && after["errors"] == encodeErrors(errors))
      && (early ==> ("errors" in after <==> "errors" in browser))
      && (early && "errors" in browser ==> after["errors"] == browser["errors"])
  {
    var m := CookiesFor(ErrorCookieData(query, encodeErrors(errors)), Some(300), None);
    assert StoreAll(browser, [Folded(m)]) == Receive(browser, Folded(m));
    FoldedErrorField(query, encodeErrors(errors));
    ErrorCookieDataContents(query, encodeErrors(errors));
  }

  /** As written, a failing submission with a biography shows no errors:
      the browser stores only the biography, and the next page is the form
      filled in from the cookies it held before, with no error messages. */
  lemma FailedSubmissionWithBioShowsNoErrors(
    query: Query, errors: map<Field, Message>, encodeErrors: map<Field, Message> -> string,
    save: UserRecord -> Option<int>, expires: string,
    template: string, browser: Jar, decode: string -> Option<ErrorList>)
    requires IsParsedQuery(query) && errors != map[]
    requires "bio" in query && "errors" !in browser
    ensures var after := StoreAll(browser, Respond(AsWritten, query, errors, encodeErrors, save, expires).setCookies);
      && after == browser["bio" := query["bio"][0]]
      && FormResponse(AsWritten, template, after, decode)
         == Response(200, [], None, FormPage(Rendered(template, FormDataFromCookies(after), None)))
  {
    var m := CookiesFor(ErrorCookieData(query, encodeErrors(errors)), Some(300), None);
    assert StoreAll(browser, [Folded(m)]) == Receive(browser, Folded(m));
    FoldedErrorField(query, encodeErrors(errors));
    StoreOne(browser, "bio", CookieFor(query["bio"][0], Some(300), None));
  }

  /** As written, reloading a page that showed errors shows the same errors
      again: the clear only sets `bio` to `''`, so the errors cookie stays. */
  lemma ReloadShowsErrorsAgain(template: string, jar: Jar, decode: string -> Option<ErrorList>, shown: ErrorList)
    requires "errors" in jar && decode(jar["errors"]) == Some(shown)
    ensures var first := FormResponse(AsWritten, template, jar, decode);
      var after := StoreAll(jar, first.setCookies);
      && after == jar["bio" := ""]
      && FormResponse(AsWritten, template, after, decode)
         == Response(200, first.setCookies, None, FormPage(Rendered(template, FormDataFromCookies(after), Some(shown))))
  {
    var cleared := Folded(CookiesFor(ClearedData(), Some(0), None));
    assert StoreAll(jar, [cleared]) == Receive(jar, cleared);
    ClearSetsOnlyBio(jar);
  }

  /** As written, a saved submission changes only the `bio` cookie: both
      folded fields start with `bio`, and the second sets the saved one. */
  lemma SuccessSetsOnlyBio(
    query: Query, encodeErrors: map<Field, Message> -> string,
    save: UserRecord -> Option<int>, expires: string, browser: Jar)
    requires IsParsedQuery(query) && HasStoredNames(query)
    requires save(PrepareUserData(query)).Some?
    ensures StoreAll(browser, Respond(AsWritten, query, map[], encodeErrors, save, expires).setCookies)
      == browser["bio" := query["bio"][0]]
  {
    var cleared := Folded(CookiesFor(ClearedData(), Some(0), None));
    var sent := Folded(CookiesFor(SuccessCookieData(query), None, Some(expires)));
    SuccessHeaders(AsWritten, query, encodeErrors, save, expires);
    SuccessFieldsSetOnlyBio(query, browser, expires);
  }

  lemma SuccessFieldsSetOnlyBio(query: Query, browser: Jar, expires: string)
    requires IsParsedQuery(query) && HasStoredNames(query)
    ensures var cleared := Folded(CookiesFor(ClearedData(), Some(0), None));
      var sent := Folded(CookiesFor(SuccessCookieData(query), None, Some(expires)));
      StoreAll(browser, [cleared, sent]) == browser["bio" := query["bio"][0]]
  {
    var cleared := Folded(CookiesFor(ClearedData(), Some(0), None));
    var data := SuccessCookieData(query);
    var mid := browser["bio" := ""];
    StoreAllPair(browser, cleared, Folded(CookiesFor(data, None, Some(expires))));
    ClearSetsOnlyBio(browser);
    SuccessCookieDataContents(query);
    assert "bio" in StoredNames;
    FoldedBioField(mid, data, None, Some(expires));
    UpdateTwice(browser, "bio", "", query["bio"][0]);
  }

  // --- One field per cookie, `if max_age:` as written

  /** With one Set-Cookie field per cookie but `max_age=0` still false,
      reloading the form after it showed errors fails: the cleared `errors`
      cookie survives as `''`, which `json.loads` rejects. */
  lemma ReloadFailsWithoutMaxAge(v: Variant, template: string, jar: Jar, decode: string -> Option<ErrorList>)
    requires decode("").None?
    ensures FormResponse(v, template, Receive(jar, Separate(CookiesFor(ClearedData(), Some(0), None))), decode).status == 500
  {
    ClearedCookiesSurvive(jar);
  }

  /** In the same program the form page after a successful submission fails
      as well: the success cookies do not include `errors`, so the `''` left
      by the clear stays in the browser. */
  lemma SuccessThenFormFailsWithoutMaxAge(
    v: Variant, query: Query, browser: Jar, expires: string, template: string, decode: string -> Option<ErrorList>)
    requires IsParsedQuery(query) && HasStoredNames(query) && decode("").None?
    ensures var headers := [Separate(CookiesFor(ClearedData(), Some(0), None)),
                            Separate(CookiesFor(SuccessCookieData(query), None, Some(expires)))];
      FormResponse(v, template, StoreAll(browser, headers), decode).status == 500
  {
    var cleared := Separate(CookiesFor(ClearedData(), Some(0), None));
    var sent := Separate(CookiesFor(SuccessCookieData(query), None, Some(expires)));
    var mid := Receive(browser, cleared);
    assert StoreAll(browser, [cleared, sent]) == StoreAll(mid, [sent]);
    assert StoreAll(mid, [sent]) == Receive(mid, sent);
    ClearedCookiesSurvive(browser);
    assert "errors" in ClearedNames;
    SuccessCookieDataContents(query);
    assert "errors" !in sent.cookies;
  }

  // --- Corrected

  /** Corrected, the page after one that showed errors is the empty form:
      every form cookie is gone and nothing is cleared again. */
  lemma ReloadServesEmptyForm(template: string, jar: Jar, decode: string -> Option<ErrorList>)
    requires "errors" in jar && decode(jar["errors"]).Some?
    ensures var first := FormResponse(Corrected, template, jar, decode);
      && first.status == 200
      && FormResponse(Corrected, template, StoreAll(jar, first.setCookies), decode)
         == Response(200, [], None, FormPage(Rendered(template, FormDataFromCookies(map[]), None)))
  {
    var first := FormResponse(Corrected, template, jar, decode);
    var cleared := Separate(CookiesForFixed(ClearedData(), Some(0), None));
    var after := StoreAll(jar, first.setCookies);
    assert StoreAll(jar, [cleared]) == Receive(jar, cleared);
    FixedClearRemovesCookies(jar);
    FormDataReadsClearedNames(after, map[]);
  }

  /** Corrected, what the form reads back from a browser after the error
      path stored `ErrorCookieData(query, text)` in it. */
  lemma ErrorCookiesRefill(query: Query, text: string, browser: Jar)
    requires IsParsedQuery(query)
    ensures var after := Receive(browser, CookieHeader(Corrected, ErrorCookieData(query, text), Some(300), None));
      var form := FormDataFromCookies(after);
      && "errors" in after && after["errors"] == text
      && (forall k :: k in StoredNames ==> k in form && form[k] == [if k in query then query[k][0] else Get(browser, k)])
      && ("contract" in query ==> "contract" in form && form["contract"] == ["on"])
      && ("language" in query && (forall i :: 0 <= i < |query["language"]| ==> ',' !in query["language"][i])
          ==> "language" in form && form["language"] == query["language"])
  {
    var data := ErrorCookieData(query, text);
    var after := Receive(browser, Separate(CookiesForFixed(data, Some(300), None)));
    ErrorCookieDataContents(query, text);
    StoreCookiesFor(browser, data, Some(300), None);
    var form := FormDataFromCookies(after);
    forall k | k in StoredNames ensures k in form && form[k] == [if k in query then query[k][0] else Get(browser, k)] {
      assert k in ScalarNames;
    }
    if "contract" in query {
      assert "contract" in ScalarNames;
    }
    if "language" in query && (forall i :: 0 <= i < |query["language"]| ==> ',' !in query["language"][i]) {
      SplitOfJoin(query["language"], ',');
    }
  }

  /** Corrected, after a failing submission the next page shows the errors
      and the submitted first values, `on` for a submitted contract, and the
      languages when none holds a comma. `decode(encodeErrors(e)) ==
      Some(shown)` is the `json` round trip. */
  lemma FailedSubmissionRefillsForm(
    query: Query, errors: map<Field, Message>, encodeErrors: map<Field, Message> -> string,
    save: UserRecord -> Option<int>, expires: string,
    template: string, browser: Jar, decode: string -> Option<ErrorList>, shown: ErrorList)
    requires IsParsedQuery(query)
    requires errors != map[] && decode(encodeErrors(errors)) == Some(shown)
    ensures var after := StoreAll(browser, Respond(Corrected, query, errors, encodeErrors, save, expires).setCookies);
      var form := FormDataFromCookies(after);
      && FormResponse(Corrected, template, after, decode).status == 200
      && FormResponse(Corrected, template, after, decode).body == FormPage(Rendered(template, form, Some(shown)))
      && (forall k :: k in StoredNames && k in query ==> k in form && form[k] == [query[k][0]])
      && ("contract" in query ==> "contract" in form && form["contract"] == ["on"])
      && ("language" in query && (forall i :: 0 <= i < |query["language"]| ==> ',' !in query["language"][i])
          ==> "language" in form && form["language"] == query["language"])
  {
    var text := encodeErrors(errors);
    var sent := CookieHeader(Corrected, ErrorCookieData(query, text), Some(300), None);
    var after := Receive(browser, sent);
    assert StoreAll(browser, [sent]) == after;
    ErrorCookiesRefill(query, text, browser);
    FormResponseWithErrors(Corrected, template, after, decode, shown);
  }

  /** Corrected, a browser that received the success path's headers holds,
      among the form's cookies, exactly what the success path stored. */
  lemma SuccessCookiesStored(query: Query, browser: Jar, expires: string)
    requires IsParsedQuery(query) && HasStoredNames(query)
    ensures var data := SuccessCookieData(query);
      var after := StoreAll(browser, [CookieHeader(Corrected, ClearedData(), Some(0), None),
                                      CookieHeader(Corrected, data, None, Some(expires))]);
      forall k :: k in ClearedNames ==> (k in after <==> k in data) && (k in after ==> after[k] == data[k])
  {
    var data := SuccessCookieData(query);
    var cleared := Separate(CookiesForFixed(ClearedData(), Some(0), None));
    var sent := Separate(CookiesForFixed(data, None, Some(expires)));
    var mid := Receive(browser, cleared);
    assert StoreAll(browser, [cleared, sent]) == StoreAll(mid, [sent]);
    assert StoreAll(mid, [sent]) == Receive(mid, sent);
    FixedClearRemovesCookies(browser);
    StoreCookiesFor(mid, data, None, Some(expires));
  }

  /** Corrected, after a successful submission the next page is the form
      filled in with what the success path stored (by SuccessRoundTrip, the
      six saved values and an empty contract), with no errors and no cookie
      cleared. */
  lemma SuccessRefillsForm(
    query: Query, encodeErrors: map<Field, Message> -> string,
    save: UserRecord -> Option<int>, expires: string,
    template: string, browser: Jar, decode: string -> Option<ErrorList>)
    requires IsParsedQuery(query) && HasStoredNames(query)
    requires save(PrepareUserData(query)).Some?
    ensures var after := StoreAll(browser, Respond(Corrected, query, map[], encodeErrors, save, expires).setCookies);
      var form := FormDataFromCookies(SuccessCookieData(query));
      && FormDataFromCookies(after) == form
      && FormResponse(Corrected, template, after, decode) == Response(200, [], None, FormPage(Rendered(template, form, None)))
  {
    var data := SuccessCookieData(query);
    var headers := [CookieHeader(Corrected, ClearedData(), Some(0), None), CookieHeader(Corrected, data, None, Some(expires))];
    SuccessHeaders(Corrected, query, encodeErrors, save, expires);
    var after := StoreAll(browser, headers);
    SuccessCookiesStored(query, browser, expires);
    SuccessCookieDataContents(query);
    FormDataReadsClearedNames(after, data);
  }
}
