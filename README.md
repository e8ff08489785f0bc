# Registration form: validators, cookies and rendering

This is a Dafny model of a small Python web application. It serves a
registration form. It validates a submitted form field by field
(`validators.py`). On failure it sends the browser back to the form, with
the submitted values and the errors kept in cookies for five minutes. On
success it saves the user and keeps the submitted values in cookies for a
year (`app.py`). Both are meant to show the form filled in on the next
visit. As written, the cookie code defeats that: see "Findings".

The model has one module per concern:

- `Optional` (`optional.dfy`): the `Option` type used for "no error / an error" and for parses that fail.
- `Text` (`text.dfy`): the Python string operations the program relies on.
  - `str.isspace` (the Unicode whitespace set), `str.strip` and `str.split()`.
  - `str.split(sep)`, `sep.join` and `str.replace`.
  - Lemmas connecting them: `replace` is split-then-join, split undoes join, stripping does not change the words.
- `Html` (`html.dfy`): `html.escape`, specified by what cannot appear in its output and by its inverse, `Unescape`.
- `Validators` (`validators.dfy`): the eight field rules and `validate_form_data`.
  - Each regular expression is modelled as a parser into a datatype of its parts, with the matching renderer.
  - Each parser is proved against that renderer in both directions, so the accepted strings are exactly the renderings of well-formed parts.
  - The `$` anchor is modelled with its Python meaning: one trailing `"\n"` is also accepted.
- `Cookies` (`cookies.dfy`): building Set-Cookie headers (`_set_cookies`, `_clear_error_cookies`).
  - A header is `Folded`, as app.py:24 sends it: one Set-Cookie field holding every cookie, sorted by name, each after the first on a continuation line. Or it is `Separate`, one field per cookie.
  - The browser: a user agent unfolds a folded field into one value (section 3.2.4 of RFC 7230) and parses it as one cookie (section 5.2 of RFC 6265). So it keeps only the cookie whose name sorts first; the others become unknown attributes of it. A separate field stores its cookie as in section 5.3 of RFC 6265, where a Max-Age of zero or less removes it.
  - Python's string order, proved a strict total order, with a least element in every non-empty set of names.
  - Reading the cookies back (`_prepare_form_data_from_cookies`).
  - The two cookie sets `do_POST` writes.
- `Renderer` (`renderer.dfy`): the rewriting of the form template in `serve_form`.
  - `RenderForm` is a method performing the replacements in the source's order. It is proved equal to the specification function `Rendered`.
  - Lemmas on `Rendered`: injected values are escaped, the number of `<` and `>` in the page never changes while values are inserted, and a template without the attributes is left untouched.
- `Handler` (`handler.dfy`): the two request handlers as functions from their inputs to a `Response`.
  - Each handler takes a `Variant`. `AsWritten` sends the folded headers and the `if max_age:` test of the source. `Corrected` sends one field per cookie and tests `max_age is not None`.
  - `Submit` is the body of `do_POST` for `/submit`.
  - `ServeForm` is `serve_form`.
  - Lemmas follow the browser across requests, as written and corrected. As written, a failed POST with a biography stores only the biography and shows no errors, and a page that shows errors shows them again on every reload. Corrected, a failed POST, then a GET, refills the form and shows the errors; a successful POST, then a GET, refills it with the stored values.
- `Scenarios` (`scenarios.dfy`): the sample inputs named in the rules' messages and the form's design, checked against the rules.

The handlers' outside world is passed in as parameters:

- `today` is `datetime.now()`.
- `encodeErrors` and `decode` stand for `json.dumps` and `json.loads`.
- `save` stands for `save_user`. It returns `None` when `save_user` raises.
- `expires` is the formatted expiry date.
- `template` is the contents of `templates/form.html`.

Rows of the table below marked "as written" hold for the source's cookie code. Rows marked "corrected" hold once both findings are corrected. Rows marked "one field per cookie" hold for a program that corrects only the folded header.

## Model

| member | source | states |
|---|---|---|
| Text.TrimLeft | validators.py:69 | the result is a suffix of the input; every character removed is whitespace; the result is empty or starts with a non-space |
| Text.TrimRight | validators.py:69 | the result is a prefix of the input; every character removed is whitespace; the result is empty or ends with a non-space |
| Text.Strip | app.py:231 | `str.strip` is the slice of its input left after cutting whitespace, and only whitespace, off both ends; the result has no whitespace at either end |
| Text.Word | validators.py:8 | the first word is a whitespace-free prefix, ended by whitespace or by the end of the string |
| Text.Words | validators.py:8 | every piece of `str.split()` is non-empty and holds no whitespace, and the pieces one after the other are exactly the non-whitespace characters of the string, in order |
| Text.WordsOfAllSpace | validators.py:8 | a string of only whitespace splits into no words |
| Text.WordsTrailingSpace | validators.py:8 | trailing whitespace adds no word |
| Text.WordsLeadingSpace | app.py:231 | removing leading whitespace does not change the words |
| Text.WordsOfStrip | app.py:231 | `s.strip().split()` gives the same words as `s.split()` |
| Text.WordsOfWord | validators.py:8 | a non-empty run without whitespace splits into that one word |
| Text.WordsAtSpace | validators.py:8 | a whitespace character always ends a word: the words of `s + c + t` for whitespace `c` are the words of `s` followed by those of `t` |
| Text.WordsAfterWord | validators.py:8 | a word followed by whitespace is the first word, and the rest split on their own |
| Text.WordsOfJoin | app.py:231-235 | joining non-empty, whitespace-free words with single spaces and splitting again gives back the same words |
| Text.SplitOn | app.py:51 | `str.split(sep)` always yields at least one piece |
| Text.JoinOfSplit | app.py:51 | joining the pieces of `s.split(sep)` with `sep` gives back `s` |
| Text.SplitOfJoin | app.py:51 | splitting `','.join(xs)` on `','` gives back `xs` when no item contains `','` |
| Text.ReplaceAllIsJoinOfSplit | app.py:137-140 | `s.replace(p, r)` equals `r.join(s.split(p))` |
| Text.ReplaceAllAbsent | app.py:137-140 | replacing a pattern that does not occur leaves the string unchanged |
| Text.ReplaceAllKeepsCount | app.py:137-140 | when the pattern and its replacement hold equally many copies of a character, so do the string before and after |
| Html.Escape | app.py:136 | `html.escape` output contains no `<`, `>`, `"` or `'`, and is at least as long as its input |
| Html.UnescapeEscape | app.py:136 | unescaping the escaped string gives back the original: escaping loses nothing |
| Validators.ValidateFullname | validators.py:4-18 | empty means "required"; fewer than two words means "too few parts"; a character outside the allowed set means "bad characters", checked before "more than three words"; no error exactly when there are two or three words and the pattern matches |
| Validators.ParseNumber | validators.py:24 | a parse of the last seven digits yields well-formed parts that render back to the input |
| Validators.ParseArea | validators.py:24 | a parse of the area code yields well-formed parts whose rendering is a prefix of the input, followed by the rest |
| Validators.ParsePhone | validators.py:24 | a successful parse yields well-formed phone parts whose rendering is the input |
| Validators.ParseRenderNumber | validators.py:24 | parsing a rendered well-formed number gives back its parts |
| Validators.ParseRenderArea | validators.py:24 | parsing a rendered well-formed area code followed by a digit gives back its parts and the rest |
| Validators.ParseRenderPhone | validators.py:24 | parsing a rendered well-formed phone number gives back its parts |
| Validators.ValidatePhone | validators.py:20-27 | the "required" message exactly for the empty value; any other rejection carries the "bad format" message |
| Validators.PhoneAcceptedIffShaped | validators.py:20-27 | an empty value, and only an empty one, is "required"; a phone number is accepted if and only if it is the rendering of well-formed parts: `+7` or `8`, optional separators, a 3-digit code with an optional `(` before and an optional `)` after, each independent of the other, then 3, 2 and 2 digits, and an optional final newline; every other non-empty value is "bad format" |
| Validators.ParseHost | validators.py:33 | a parse of the part after `@` yields a well-formed host that renders back to it |
| Validators.ParseEmail | validators.py:33 | a successful parse yields well-formed address parts that render back to the input |
| Validators.ParseRenderHost | validators.py:33 | parsing a rendered well-formed host gives back its parts |
| Validators.ParseRenderEmail | validators.py:33 | parsing a rendered well-formed address gives back its parts |
| Validators.ValidateEmail | validators.py:29-36 | the "required" message exactly for the empty value; any other rejection carries the "bad format" message |
| Validators.EmailAcceptedIffShaped | validators.py:29-36 | an empty value, and only an empty one, is "required"; an address is accepted if and only if it renders well-formed parts: allowed local characters, one `@`, a domain, a dot, a top-level part of two or more letters, and an optional final newline; every other non-empty value is "bad format" |
| Validators.ValidateBirthdate | validators.py:38-52 | an empty value, and only an empty one, is "required"; a non-empty value off the `YYYY-MM-DD` pattern is "bad format"; a pattern match with a trailing newline is "invalid date", because `strptime` rejects it; otherwise an impossible calendar date is "invalid", a future date is "in the future", and any other date is accepted |
| Validators.ParseFormatDate | validators.py:46 | formatting a date and parsing it back gives the same date |
| Validators.FormatParseDate | validators.py:42-46 | parsing a `YYYY-MM-DD` string and formatting the date again gives the same string |
| Validators.BirthdateAcceptedIff | validators.py:38-52 | a birthdate is accepted if and only if it is the `YYYY-MM-DD` form of a real calendar date, years 1 to 9999, that is not after today |
| Validators.ValidateGender | validators.py:54-57 | accepted exactly for `male` and `female`; otherwise the gender message |
| Validators.ValidateLanguages | validators.py:59-66 | an empty list is "choose one"; any language outside the twelve is "not allowed"; accepted exactly when non-empty and all allowed |
| Validators.ValidateBiography | validators.py:68-78 | fewer than 10 characters after stripping is "too short"; otherwise more than 500 is "too long"; otherwise any of `<>{}[]` is "bad characters"; accepted exactly when none applies |
| Validators.ValidateContract | validators.py:80-83 | accepted exactly for `on` |
| Validators.CheckField | validators.py:88-89 | one step of validation keeps the map reporting exactly the failing fields checked so far |
| Validators.ReportsOfStep | validators.py:88-89 | recording the outcome of the next rule in checking order extends a report of the first `n` fields to the first `n + 1` |
| Validators.CheckContactFields | validators.py:86-98 | after the first four rules, the map reports exactly the failures among name, phone, email and birthdate |
| Validators.CheckProfileFields | validators.py:100-110 | after the last four rules, the map reports exactly the failures among all eight fields |
| Validators.ReportsEvery | validators.py:85-112 | reporting the failures of all eight checks means reporting every failing field |
| Validators.FormErrors | validators.py:85-112 | the error map of a form: a field is in it exactly when its rule fails on the value read for it, with that rule's message |
| Validators.ValidateFormData | validators.py:85-112 | checking the eight fields one after the other, in the source's order, builds exactly the map `FormErrors` describes |
| Validators.MissingFieldFails | validators.py:88-110 | every rule rejects the default a missing field is read as, so a form lacking a field fails on it |
| Validators.PassingFormHasAllFields | validators.py:85-112 | a form that passes has every field with at least one value |
| Cookies.SetCookies | app.py:13-24 | as written: the loop builds one cookie per entry, as `CookieFor` describes, and sends them all in one folded field |
| Cookies.SetCookiesAttributes | app.py:15-23 | one cookie per key, with its value, path `/`, HttpOnly and SameSite=Lax; Max-Age is set exactly when `max_age` is truthy and Expires exactly when `expires` is truthy |
| Cookies.Store | app.py:24 | with one field per cookie, the browser holds a name exactly when it was sent without deleting it, or was not sent and was held before; a sent name has the sent value, any other its old value |
| Cookies.BelowAsymmetric | app.py:24 | no two names each sort before the other, so no name sorts before itself |
| Cookies.BelowTotal | app.py:24 | of two different names, one sorts before the other |
| Cookies.BelowTransitive | app.py:24 | sorting before is transitive |
| Cookies.LeastExists | app.py:24 | every non-empty set of cookie names has a first name in sorted order |
| Cookies.FoldedKeepsFirst | app.py:24 | of a folded field, the browser keeps the cookie whose name sorts first and no other |
| Cookies.FoldedStoresOne | app.py:24 | a folded field with any cookies in it keeps exactly one of them, the first by name |
| Cookies.NotFirstNotKept | app.py:24 | a cookie whose name sorts after another one in the same field is never kept |
| Cookies.BioFirst | app.py:34-35 | `bio` sorts before every other of the nine form cookie names |
| Cookies.ErrorsFirst | app.py:34-35 | among form cookie names without `bio`, `birthdate`, `contract` and `email`, `errors` sorts first |
| Cookies.FoldedBioField | app.py:24 | a folded field of form cookies that includes `bio`, without a negative Max-Age, sets `bio` and changes nothing else |
| Cookies.StoreCookiesFor | app.py:13-24 | corrected: one field per cookie, with a positive or absent `max_age`, leaves every entry in the browser with its value |
| Cookies.ClearErrorCookies | app.py:33-37 | as written: the clearing header is one folded field built with `max_age=0` through the truthiness test |
| Cookies.ClearSetsOnlyBio | app.py:33-37 | as written: receiving the clearing header sets `bio` to `""` and removes nothing; every other cookie keeps its value |
| Cookies.ClearedCookiesSurvive | app.py:18 | one field per cookie: with the truthiness test as written, all nine names remain in the browser after the clear, each with the empty value |
| Cookies.SetCookiesFixed | app.py:13-24 | corrected: the same cookies, with Max-Age set whenever `max_age` is given, one field per cookie |
| Cookies.FixedAgreesUnlessZero | app.py:18 | the corrected and the original header differ only when `max_age` is 0 |
| Cookies.ClearErrorCookiesFixed | app.py:33-37 | corrected: the clearing header carries Max-Age=0 |
| Cookies.FixedClearRemovesCookies | app.py:33-37 | corrected: after the clear, none of the nine names is held and every other cookie is unchanged |
| Cookies.FormDataFromCookies | app.py:39-53 | the seven scalar fields are always present, each with the cookie's value or `""`; `language` is present exactly when its cookie is, and is then that cookie split on `,` |
| Cookies.FormDataKeys | app.py:40-51 | the form data read from cookies has no names besides the seven scalars and `language` |
| Cookies.FirstValuesOf | app.py:75-77 | the loop keeps exactly the listed fields that were submitted, each with its first value |
| Cookies.EncodeErrorCookies | app.py:74-85 | the loop builds the error cookie data |
| Cookies.ErrorCookieDataContents | app.py:74-85 | the error cookies hold the errors text, `contract=on` exactly when it was submitted, `language` exactly when submitted, holding all its submitted values joined with `,`, and the first value of each submitted field; no name outside the nine cleared ones |
| Cookies.FoldedErrorField | app.py:74-88 | as written: of the error path's field, the browser keeps `errors` exactly when none of `bio`, `birthdate`, `contract` and `email` was submitted, and keeps only `bio` when a biography was submitted |
| Cookies.ErrorRoundTrip | app.py:74-85 | reading them back gives each submitted first value, `""` for one not submitted, `on` or `""` for the contract, and the submitted languages when none contains a comma |
| Cookies.SuccessCookieDataContents | app.py:96-105 | the success cookies hold the first value of each of the six stored fields, `language` exactly when submitted, holding all its submitted values joined with `,`, no other of the nine names, and neither `contract` nor `errors` |
| Cookies.SuccessRoundTrip | app.py:96-105 | reading them back gives each stored field's first value and an empty contract |
| Cookies.SuccessLanguagesRoundTrip | app.py:104-105 | the languages read back: present exactly when submitted, and equal to them when none contains a comma |
| Renderer.Lookup | app.py:164-167 | an entry is found exactly when some entry has that key, and its value is that of the first entry with the key |
| Renderer.RenderForm | app.py:133-180 | the page built by the replacements in order is `Rendered(template, form, errors)` |
| Renderer.FillForm | app.py:133-161 | the loops over fields and languages produce `FormFilled` |
| Renderer.ShowErrors | app.py:163-180 | the error branch produces `ErrorsShown`; nothing changes without errors |
| Renderer.AnnotateErrors | app.py:170-180 | the loop over error entries produces `ErrorsAnnotated` |
| Renderer.InjectedValueIsInert | app.py:136-140 | an injected value holds no `"`, `<` or `>`, so it cannot end the attribute or open a tag, and it unescapes to the submitted value |
| Renderer.InjectValueKeepsTags | app.py:136-140 | injecting one value keeps the number of `<` and of `>` in the page |
| Renderer.ValuesInjectedKeepsTags | app.py:134-140 | injecting all values keeps the number of `<` and of `>` |
| Renderer.LanguagesMarkedKeepsTags | app.py:155-161 | marking languages `selected` keeps the number of `<` and of `>`, whatever the stored languages are |
| Renderer.FormFilledKeepsTags | app.py:133-161 | filling the form from any cookies keeps the number of `<` and of `>` |
| Renderer.RenderedWithoutErrorsKeepsTags | app.py:133-180 | without errors, the page has as many `<` and `>` as the template |
| Renderer.ErrorDivTagsFixed | app.py:176 | an error message's block has the same number of `<` and `>` whatever the message |
| Renderer.ErrorFieldMarkKeepsTags | app.py:172-175 | marking a field as an error field keeps the number of `<` and `>` |
| Renderer.BannerTagsFixed | app.py:165-168 | the server-error banner has the same number of `<` and `>` whatever the message |
| Renderer.BannerOnlyForServerError | app.py:164-168 | without a `server_error` entry, the banner step changes nothing |
| Renderer.ValuesInjectedAbsent | app.py:134-140 | a template without any `name="` attribute is left unchanged by value injection |
| Renderer.LanguagesMarkedAbsent | app.py:155-161 | a template without any `value="` attribute is left unchanged by language marking |
| Renderer.FormFilledAbsent | app.py:133-161 | a template with neither attribute is left unchanged by filling |
| Handler.FormOf | app.py:69-71 | the fields the validators read are exactly the submitted names of the eight fields, with their values |
| Handler.PassingSubmissionHasStoredNames | app.py:91-103 | when validation passes, the six fields the success path reads with `data[name][0]` are all present |
| Handler.PrepareUserDataParts | app.py:230-242 | the user record takes the first, second and optional third word of the stripped name; phone, email and biography stripped; the birthdate and gender as sent; all the submitted languages, none when the field is missing |
| Handler.AcceptedNameKeepsWords | app.py:231-235 | for an accepted name, first and last names are non-empty and the stored name parts are exactly its words |
| Handler.CookieHeader | app.py:13-24 | the header `_set_cookies` sends is folded exactly as written, and holds one cookie per entry, with the entry's value |
| Handler.SendCookies | app.py:13-24 | in each variant, the loop sends `CookieHeader` |
| Handler.ClearCookies | app.py:33-37 | in each variant, the clear sends `CookieHeader` of the nine empty values with `max_age=0` |
| Handler.Submit | app.py:65-71 | the POST handler's answer is `SubmitResponse`, as written and corrected |
| Handler.Answer | app.py:73-114 | once validation has returned its error map, the handler answers `Respond`: the error cookies and a redirect, or the stored record's cookies and the success page |
| Handler.FailedSubmissionOutcome | app.py:73-90 | a failing form is answered 303 to `/` and exactly one Set-Cookie header: the one `_set_cookies` builds from the error cookie data with a Max-Age of 300 seconds, folded exactly as written, naming every error cookie, each for 300 seconds |
| Handler.PassingSubmissionOutcome | app.py:91-114 | a passing form is answered exactly when saving succeeds, with 200 and the success page for the new id |
| Handler.SuccessHeaders | app.py:107-109 | a saved submission is answered 200 with the success page, the clearing header, then the success cookies with the expiry date |
| Handler.ServeForm | app.py:116-193 | the GET handler's answer is `FormResponse` |
| Handler.FormResponseWithErrors | app.py:125-129 | with an errors cookie that decodes, the page shows those errors, is filled from the cookies, and sends the variant's clearing header |
| Handler.FormDataReadsClearedNames | app.py:39-53 | the form data depends only on the nine cleared cookie names |
| Handler.FailedSubmissionSetsOneCookie | app.py:73-90 | as written: a failed POST sets exactly one cookie in the browser, the entry of the error cookie data whose name sorts first |
| Handler.FailedSubmissionErrorsKept | app.py:73-90 | as written: after a failed POST the browser holds the new errors exactly when none of `bio`, `birthdate`, `contract` and `email` was submitted; otherwise its errors cookie is what it was before |
| Handler.FailedSubmissionWithBioShowsNoErrors | app.py:73-90 | as written: a failed POST with a biography, from a browser without errors, stores only the biography, and the next GET serves the form without errors, filled from the older cookies |
| Handler.ReloadShowsErrorsAgain | app.py:125-129 | as written: the clear of a GET that showed errors only sets `bio` to `""`, so the next GET shows the same errors again |
| Handler.SuccessSetsOnlyBio | app.py:107-109 | as written: a saved POST changes only the `bio` cookie, to the submitted biography |
| Handler.SuccessFieldsSetOnlyBio | app.py:107-109 | as written: the clearing field, then the success field, leave the browser with only `bio` changed |
| Handler.ReloadFailsWithoutMaxAge | app.py:125-129 | one field per cookie: after the clearing header, the next GET answers 500, since `json.loads('')` raises |
| Handler.SuccessThenFormFailsWithoutMaxAge | app.py:108-109 | one field per cookie: after a successful submission, the next GET answers 500 for the same reason |
| Handler.ReloadServesEmptyForm | app.py:125-131 | corrected: the GET after a GET that showed errors serves the empty form, without errors |
| Handler.ErrorCookiesRefill | app.py:74-88 | corrected: once the browser stores the error cookies, it holds the errors text; the form reads each submitted first value, the older cookie for a field not submitted, `on` for a submitted contract, and the languages when none holds a comma |
| Handler.FailedSubmissionRefillsForm | app.py:73-90 | corrected: a failed POST, then a GET: the form is served with the decoded errors, refilled with each submitted first value, the contract and the languages |
| Handler.SuccessCookiesStored | app.py:108-109 | corrected: after the clearing and success headers, the browser holds among the nine names exactly the success cookie data |
| Handler.SuccessRefillsForm | app.py:91-110 | corrected: a saved POST, then a GET: the form is served filled with the stored values and no errors |
| Scenarios.TwoPartNameAccepted | validators.py:4-18 | `Иван Иванов` is accepted |
| Scenarios.SampleNameWords | validators.py:8 | `Иван Иванов` splits into two words |
| Scenarios.SampleNameChars | validators.py:12 | `Иван Иванов` has only allowed characters |
| Scenarios.SpacedPhoneAccepted | validators.py:25 | `+7 999 123-45-67`, the message's first example, is accepted |
| Scenarios.PlainPhoneAccepted | validators.py:25 | `89991234567`, the message's second example, is accepted |
| Scenarios.CompactPhoneAccepted | validators.py:24 | `+79991234567` is accepted |
| Scenarios.ShortEmailAccepted | validators.py:33 | `a@b.com` is accepted |
| Scenarios.BirthdateSamples | validators.py:38-52 | on any day from 1990-01-01 to the end of 2998, `1990-01-01` is accepted and `2999-01-01` is in the future |
| Scenarios.UnknownLanguageRejected | validators.py:64-65 | `["Rust"]` is rejected as not allowed |
| Scenarios.KnownLanguagesAccepted | validators.py:59-66 | `["Python", "Go"]` is accepted |
| Scenarios.SampleFormErrors | validators.py:85-112 | on any day from 1990-01-01 to the end of 2998, the sample submission (name `Иван Иванов`, `+79991234567`, `a@b.com`, `1990-01-01`, `male`, `["Python", "Go"]`, twenty letters, `on`) has no errors, and with birthdate `2999-01-01` its only error is the birthdate in the future |
| Scenarios.TwentyLetterBioAccepted | validators.py:69-78 | twenty letters make a valid biography |

## Left out

- `\d` in the phone and date patterns is modelled as the ASCII digits `0`-`9`. Python's `re` also matches other Unicode decimal digits, including in `\d{4}` for the year; `strptime` would then see them.
- `db.py` and its database (`save_user`) are not part of this model. Saving is the parameter `save`, and an exception in it is `None`.
- The HTTP layer is not modelled: reading the request body, `parse_qs` (its result is the `Query` parameter, a map whose lists are never empty; `parse_qs` with its default `keep_blank_values=False` also drops blank fields, so the handler never receives an empty value, while `Query` admits one: every property is proved for this larger set of inputs), header parsing, and writing the response.
- `do_GET` routing, `serve_static_file` and the success page's HTML are left out. The success page is the abstract body `SuccessPage(id)`.
- `SimpleCookie` is not modelled: its quoting of values on output and its parsing of the Cookie header. A cookie value is read back exactly as it was set.
- `json.dumps` and `json.loads` are the parameters `encodeErrors` and `decode`. A decoded value that is not an object of strings is not modelled. An errors object is modelled as its ordered list of entries.
- The clock is a parameter. `datetime.now()` is `today`, compared by calendar date. The `strftime` expiry string is `expires`. A browser's expiry of cookies over time is not modelled; only Max-Age deletion is.
- Reading `templates/form.html` is the parameter `template`. Its `FileNotFoundError` answer (500) and the generic 500 answer for other exceptions are not modelled, except when the errors cookie does not decode (as with `json.loads('')`), which `ServeForm` answers with a 500.
- `serve_form_with_errors` (app.py:114) is called but never defined. Reaching it raises, and the request gets no response, which is modelled as `NoResponse`.
- Handler.FailedSubmissionOutcome: does not model the Latin-1 encoding that `send_header` applies to every header line. `SimpleCookie` leaves characters above U+00FF as they are, so a submitted value holding one (a Cyrillic name, say) makes app.py:88 raise `UnicodeEncodeError`. That line is outside any `try`, so no response is sent; the model answers 303.
- Handler.PassingSubmissionOutcome: does not model the same encoding on the success path. There app.py:109 raises after `save_user` has stored the user (app.py:94). The `except` at app.py:113 calls the undefined `serve_form_with_errors`, so no response is sent; the model answers 200.
- The lemmas across requests read every response as if its status line came first. As written, on the success path (app.py:108-112) and on a GET that shows errors (app.py:129 and 182), the Set-Cookie lines are buffered before `send_response` adds the status line, so the response begins with a header line. What a browser makes of such a response is not modelled.
- Cookies.Store: does not model cookie attributes other than value and Max-Age (path, HttpOnly, SameSite and Expires are carried in `Cookie` but do not affect storage), because every cookie here uses path `/` and one site.
- Cookies.Kept: of a folded field, the text after the first cookie becomes attributes of that cookie. The first cookie's SameSite value then reads `Lax  birthdate=…`, not `Lax`, and the attributes of the later cookies repeat its own. The model keeps the first cookie with the attributes it was built with. How a browser treats the garbled SameSite value is not modelled.
- Renderer.Lookup: takes the first entry with a key. `json.loads` keeps the last of duplicate keys, but the errors text comes from `json.dumps` of a dict, which never repeats a key, so the two agree on every errors cookie the program writes.

## Findings

| source | as written | input that shows it | evidently intended | confidence | as-written member | corrected member |
|---|---|---|---|---|---|---|
| app.py:24 | `send_header('Set-Cookie', cookie.output(header=''))` sends all cookies of one call in one Set-Cookie field: the second and later cookies are continuation lines, which a browser unfolds into one cookie string, keeping only the cookie whose name sorts first | a POST that fails with a biography filled in: only `bio` is stored and the next GET shows the form without any error; a GET that shows errors clears only `bio`, so every reload shows them again (Handler.ReloadShowsErrorsAgain); a saved POST updates only `bio` (Handler.SuccessSetsOnlyBio) | one Set-Cookie field per cookie, for example `send_header('Set-Cookie', morsel.OutputString())` for each morsel | not executed | Handler.FailedSubmissionWithBioShowsNoErrors | Handler.FailedSubmissionRefillsForm |
| app.py:18 | `if max_age:` is false for `max_age=0`, so `_clear_error_cookies` (app.py:37) sends the nine cookies with empty values and no Max-Age | once each cookie has its own field (the correction above): a GET that shows errors, then a second GET, finds `errors` held with the empty value; `json.loads('')` raises and the answer is 500; a successful POST, then a GET, also answers 500 (Handler.SuccessThenFormFailsWithoutMaxAge). With the folded field as written, the clear sets `bio` to `""` for the session instead of removing it (Cookies.ClearSetsOnlyBio) | `if max_age is not None:`, so Max-Age=0 deletes the cookies and the next GET serves the form normally | not executed | Handler.ReloadFailsWithoutMaxAge | Handler.ReloadServesEmptyForm |
