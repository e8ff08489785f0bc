/**
  The cookies of the registration form: the attributes `_set_cookies` gives
  each cookie, the Set-Cookie field it sends them in, what a browser keeps
  of them, the cookies a failed and a successful submission store, and the
  form data read back from them.
 */
module Cookies {
  import opened Optional
  import opened Text

  /** Cookie names to values, as a browser sends them back and as
      `_set_cookies` receives them. */
  type Jar = map<string, string>

  /** Field names to lists of values: what `parse_qs` returns for a
      submission and what `_prepare_form_data_from_cookies` builds. */
  type Query = map<string, seq<string>>

  /** Every name has a first value: `parse_qs` never returns an empty list,
      nor does `_prepare_form_data_from_cookies`. */
  predicate IsParsedQuery(data: Query) {
    forall k :: k in data ==> data[k] != []
  }

  // ---------------------------------------------------------------------
  // Set-Cookie attributes

  /** One `Morsel` of a `SimpleCookie`: a value and the attributes that
      `_set_cookies` may set. */
  datatype Cookie = Cookie(
    value: string, path: string, maxAge: Option<int>, expires: Option<string>,
    httpOnly: bool, sameSite: string)

  /** A morsel just after `cookie[key] = value`: no attribute set yet. */
  function NewMorsel(value: string): Cookie {
    Cookie(value, "", None, None, false, "")
  }

  /** Python's truth value of an optional integer argument: `None` and `0` are false. */
  predicate IsTruthy(x: Option<int>) { x.Some? && x.value != 0 }

  /** Python's truth value of an optional string argument: `None` and `''` are false. */
  predicate IsTruthyText(x: Option<string>) { x.Some? && x.value != [] }

  /** The cookie `_set_cookies` builds for one value. */
  function CookieFor(value: string, maxAge: Option<int>, expires: Option<string>): Cookie {
    Cookie(value, "/", if IsTruthy(maxAge) then maxAge else None,
           if IsTruthyText(expires) then expires else None, true, "Lax")
  }

  /** The cookies `_set_cookies` sends, by name. */
  function CookiesFor(data: Jar, maxAge: Option<int>, expires: Option<string>): map<string, Cookie> {
    map k | k in data :: CookieFor(data[k], maxAge, expires)
  }

  /** How a set of cookies goes on the wire. `Folded` is line 24: one
      Set-Cookie field whose value, `cookie.output(header='')`, holds every
      morsel sorted by name, each after the first on a continuation line.
      `Separate` is one Set-Cookie field per morsel. */
  datatype Header = Folded(cookies: map<string, Cookie>) | Separate(cookies: map<string, Cookie>)

  /** `_set_cookies`: one morsel per entry, its attributes set one after the
      other, all sent in the one field of line 24. */
  method SetCookies(data: Jar, maxAge: Option<int>, expires: Option<string>)
    returns (sent: Header)
    ensures sent == Folded(CookiesFor(data, maxAge, expires))
  {
    var morsels: map<string, Cookie> := map[];
    var todo := data.Keys;
    while todo != {}
      invariant todo <= data.Keys
      invariant morsels.Keys == data.Keys - todo
      invariant forall k :: k in morsels ==> morsels[k] == CookieFor(data[k], maxAge, expires)
      decreases todo
    {
      var key :| key in todo;
      var c := NewMorsel(data[key]);
      c := c.(path := "/");
      if maxAge.Some? && maxAge.value != 0 {
        c := c.(maxAge := maxAge);
      }
      if expires.Some? && expires.value != [] {
        c := c.(expires := expires);
      }
      c := c.(httpOnly := true);
      c := c.(sameSite := "Lax");
      morsels := morsels[key := c];
      todo := todo - {key};
    }
    sent := Folded(morsels);
  }

  /** Every cookie `_set_cookies` sends carries the submitted value, path `/`,
      HttpOnly and SameSite=Lax, and a Max-Age or Expires exactly when that
      argument is true in Python's sense. */
  lemma {:induction false} SetCookiesAttributes(data: Jar, maxAge: Option<int>, expires: Option<string>)
    ensures var sent := CookiesFor(data, maxAge, expires);
      && sent.Keys == data.Keys
      && forall k :: k in sent ==>
        && sent[k].value == data[k] && sent[k].path == "/"
        && sent[k].httpOnly && sent[k].sameSite == "Lax"
        && (sent[k].maxAge.Some? <==> IsTruthy(maxAge))
        && (sent[k].maxAge.Some? ==> sent[k].maxAge == maxAge)
        && (sent[k].expires.Some? <==> IsTruthyText(expires))
        && (sent[k].expires.Some? ==> sent[k].expires == expires)
  {
    var sent := CookiesFor(data, maxAge, expires);
    forall k | k in sent
      ensures sent[k] == CookieFor(data[k], maxAge, expires)
    {
    }
  }

  // ---------------------------------------------------------------------
  // What the browser keeps

  /** Section 5.2.2 of RFC 6265: a Max-Age of zero or less makes the cookie
      expire at once, which removes the stored cookie of that name. */
  predicate Deletes(c: Cookie) {
    c.maxAge.Some? && c.maxAge.value <= 0
  }

  /** The browser's cookies after it receives `sent`, each cookie in a
      Set-Cookie field of its own (section 5.3 of RFC 6265): every sent
      cookie replaces the stored one of its name, an expired one removes it,
      and every other cookie keeps its value. Expiry by the clock is not part
      of this model. */
  function Store(browser: Jar, sent: map<string, Cookie>): (after: Jar)
    ensures forall k :: k in after <==> (k in sent && !Deletes(sent[k])) || (k !in sent && k in browser)
    ensures forall k :: k in after ==> after[k] == if k in sent then sent[k].value else browser[k]
  {
    map k | k in browser.Keys + sent.Keys && !(k in sent && Deletes(sent[k]))
      :: if k in sent then sent[k].value else browser[k]
  }

  /** One cookie that does not expire sets its name and nothing else. */
  lemma StoreOne(browser: Jar, k: string, c: Cookie)
    requires !Deletes(c)
    ensures Store(browser, map[k := c]) == browser[k := c.value]
  {
  }

  lemma UpdateTwice(jar: Jar, k: string, a: string, b: string)
    ensures jar[k := a][k := b] == jar[k := b]
  {
  }

  /** Python's `<` on strings: code point by code point, a proper prefix first. */
  predicate Below(a: string, b: string)
    decreases |a|
  {
    if a == [] then b != []
    else b != [] && (a[0] < b[0] || (a[0] == b[0] && Below(a[1..], b[1..])))
  }

  lemma {:induction false} BelowAsymmetric(a: string, b: string)
    ensures !(Below(a, b) && Below(b, a))
    decreases |a|
  {
    if a != [] && b != [] && a[0] == b[0] {
      BelowAsymmetric(a[1..], b[1..]);
    }
  }

  lemma {:induction false} BelowTotal(a: string, b: string)
    requires a != b
    ensures Below(a, b) || Below(b, a)
    decreases |a|
  {
    if a != [] && b != [] && a[0] == b[0] {
      assert a == [a[0]] + a[1..] && b == [b[0]] + b[1..];
      BelowTotal(a[1..], b[1..]);
    }
  }

  lemma {:induction false} BelowTransitive(a: string, b: string, c: string)
    requires Below(a, b) && Below(b, c)
    ensures Below(a, c)
    decreases |a|
  {
    if a != [] && a[0] == b[0] && b[0] == c[0] {
      BelowTransitive(a[1..], b[1..], c[1..]);
    }
  }

  /** `k` is the first of `keys` in `sorted` order. */
  predicate IsLeast(k: string, keys: set<string>) {
    k in keys && forall j :: j in keys && j != k ==> Below(k, j)
  }

  /** Every non-empty set of names has a first one. */
  lemma {:induction false} LeastExists(keys: set<string>)
    requires keys != {}
    ensures exists k :: IsLeast(k, keys)
    decreases |keys|
  {
    var x :| x in keys;
    if keys == {x} {
      assert IsLeast(x, keys);
    } else {
      var rest := keys - {x};
      LeastExists(rest);
      var m :| IsLeast(m, rest);
      if Below(x, m) {
        forall j | j in keys && j != x
          ensures Below(x, j)
        {
          if j != m {
            BelowTransitive(x, m, j);
          }
        }
        assert IsLeast(x, keys);
      } else {
        BelowTotal(x, m);
        assert IsLeast(m, keys);
      }
    }
  }

  /** The cookies a browser takes from a header. A folded field is unfolded
      into one field value (section 3.2.4 of RFC 7230) and parsed as one
      set-cookie-string (section 5.2 of RFC 6265): its first name-value pair,
      the morsel first in name order, is the cookie, and the other morsels
      become attributes of it. The later morsels repeat the first one's
      attributes, so the cookie keeps those. */
  function Kept(h: Header): map<string, Cookie> {
    match h
    case Folded(m) => map k | k in m && IsLeast(k, m.Keys) :: m[k]
    case Separate(m) => m
  }

  /** The browser's cookies after it receives one header. */
  function Receive(browser: Jar, h: Header): Jar {
    Store(browser, Kept(h))
  }

  /** Of a folded field, the browser keeps the first morsel and no other. */
  lemma FoldedKeepsFirst(m: map<string, Cookie>, k: string)
    requires IsLeast(k, m.Keys)
    ensures Kept(Folded(m)) == map[k := m[k]]
  {
    forall j | j in m && IsLeast(j, m.Keys)
      ensures j == k
    {
      if j != k {
        BelowAsymmetric(j, k);
      }
    }
  }

  /** A folded field with any cookies in it sets exactly one of them. */
  lemma FoldedStoresOne(m: map<string, Cookie>)
    requires m != map[]
    ensures exists k :: IsLeast(k, m.Keys) && Kept(Folded(m)) == map[k := m[k]]
  {
    var x :| x in m;
    LeastExists(m.Keys);
    var k :| IsLeast(k, m.Keys);
    FoldedKeepsFirst(m, k);
  }

  /** A morsel that sorts before another is never the one kept. */
  lemma NotFirstNotKept(m: map<string, Cookie>, j: string, k: string)
    requires j in m && k in m && Below(j, k)
    ensures k !in Kept(Folded(m))
  {
    BelowAsymmetric(j, k);
  }

  /** Sent one per field with a positive Max-Age or none, every cookie ends
      up in the browser with the value sent. */
  lemma StoreCookiesFor(browser: Jar, data: Jar, maxAge: Option<int>, expires: Option<string>)
    requires maxAge.None? || maxAge.value > 0
    ensures var after := Receive(browser, Separate(CookiesForFixed(data, maxAge, expires)));
      forall k :: k in data ==> k in after && after[k] == data[k]
  {
    var sent := CookiesForFixed(data, maxAge, expires);
    assert forall k :: k in data ==> k in sent && !Deletes(sent[k]);
  }

  // ---------------------------------------------------------------------
  // Clearing the form's cookies

  /** The nine cookies `_clear_error_cookies` empties. */
  const ClearedNames: seq<string> :=
    ["fullname", "phone", "email", "birthdate", "gender", "language", "bio", "contract", "errors"]

  /** `{name: '' for name in cookies_to_clear}` */
  function ClearedData(): Jar {
    map name | name in ClearedNames :: ""
  }

  /** `_clear_error_cookies`, as written: it passes `max_age=0`. */
  method ClearErrorCookies() returns (sent: Header)
    ensures sent == Folded(CookiesFor(ClearedData(), Some(0), None))
  {
    sent := SetCookies(ClearedData(), Some(0), None);
  }

  /** `bio` sorts before every other form cookie. */
  lemma BioFirst(keys: set<string>)
    requires "bio" in keys && forall k :: k in keys ==> k in ClearedNames
    ensures IsLeast("bio", keys)
  {
    forall j | j in keys && j != "bio"
      ensures Below("bio", j)
    {
      assert j in ClearedNames;
    }
  }

  /** As written, the clearing field is folded and carries no Max-Age
      (`max_age=0` is false in Python): the browser keeps only its first
      morsel, so `bio` becomes `''` for the session and nothing is removed. */
  lemma ClearSetsOnlyBio(browser: Jar)
    ensures Receive(browser, Folded(CookiesFor(ClearedData(), Some(0), None))) == browser["bio" := ""]
  {
    assert "bio" in ClearedNames;
    FoldedBioField(browser, ClearedData(), Some(0), None);
  }

  /** Sent one cookie per field but still through `if max_age:`, the clear
      would leave all nine names in the browser, each with the value `''`. */
  lemma ClearedCookiesSurvive(browser: Jar)
    ensures var after := Receive(browser, Separate(CookiesFor(ClearedData(), Some(0), None)));
      forall name :: name in ClearedNames ==> name in after && after[name] == ""
  {
    var sent := CookiesFor(ClearedData(), Some(0), None);
    forall name | name in ClearedNames
      ensures name in sent && !Deletes(sent[name]) && sent[name].value == ""
    {
      assert name in ClearedData();
    }
  }

  /** The evidently intended `_set_cookies`: a Max-Age is set whenever one is
      given (`max_age is not None`), zero included. */
  function CookieForFixed(value: string, maxAge: Option<int>, expires: Option<string>): Cookie {
    Cookie(value, "/", maxAge, if IsTruthyText(expires) then expires else None, true, "Lax")
  }

  function CookiesForFixed(data: Jar, maxAge: Option<int>, expires: Option<string>): map<string, Cookie> {
    map k | k in data :: CookieForFixed(data[k], maxAge, expires)
  }

  /** `_set_cookies` with the `max_age is not None` test, each morsel sent
      in a Set-Cookie field of its own. */
  method SetCookiesFixed(data: Jar, maxAge: Option<int>, expires: Option<string>)
    returns (sent: Header)
    ensures sent == Separate(CookiesForFixed(data, maxAge, expires))
  {
    var morsels: map<string, Cookie> := map[];
    var todo := data.Keys;
    while todo != {}
      invariant todo <= data.Keys
      invariant morsels.Keys == data.Keys - todo
      invariant forall k :: k in morsels ==> morsels[k] == CookieForFixed(data[k], maxAge, expires)
      decreases todo
    {
      var key :| key in todo;
      var c := NewMorsel(data[key]);
      c := c.(path := "/");
      if maxAge.Some? {
        c := c.(maxAge := maxAge);
      }
      if expires.Some? && expires.value != [] {
        c := c.(expires := expires);
      }
      c := c.(httpOnly := true);
      c := c.(sameSite := "Lax");
      morsels := morsels[key := c];
      todo := todo - {key};
    }
    sent := Separate(morsels);
  }

  /** The correction changes nothing except for a Max-Age of zero, so the
      other calls (`max_age=300`, or only `expires`) send the same cookies. */
  lemma FixedAgreesUnlessZero(data: Jar, maxAge: Option<int>, expires: Option<string>)
    requires maxAge != Some(0)
    ensures CookiesForFixed(data, maxAge, expires) == CookiesFor(data, maxAge, expires)
  {
    assert forall k :: k in data ==> CookieForFixed(data[k], maxAge, expires) == CookieFor(data[k], maxAge, expires);
  }

  /** `_clear_error_cookies` with the corrected `_set_cookies`. */
  method ClearErrorCookiesFixed() returns (sent: Header)
    ensures sent == Separate(CookiesForFixed(ClearedData(), Some(0), None))
  {
    sent := SetCookiesFixed(ClearedData(), Some(0), None);
  }

  /** With the correction, the browser removes all nine cookies and keeps the rest. */
  lemma FixedClearRemovesCookies(browser: Jar)
    ensures var after := Receive(browser, Separate(CookiesForFixed(ClearedData(), Some(0), None)));
      && (forall name :: name in ClearedNames ==> name !in after)
      && (forall k :: k in browser && k !in ClearedNames ==> k in after && after[k] == browser[k])
  {
    var sent := CookiesForFixed(ClearedData(), Some(0), None);
    forall name | name in ClearedNames
      ensures name in sent && Deletes(sent[name])
    {
      assert name in ClearedData();
    }
  }

  // ---------------------------------------------------------------------
  // Form data read back from the cookies

  /** The seven single-valued fields `_prepare_form_data_from_cookies` reads. */
  const ScalarNames: seq<string> := ["fullname", "phone", "email", "birthdate", "gender", "bio", "contract"]

  function Get(jar: Jar, k: string): string {
    if k in jar then jar[k] else ""
  }

  /** `_prepare_form_data_from_cookies`: each scalar field as a one-element
      list, `''` when its cookie is missing, and `language` split on `,`
      only when its cookie exists. It never fails. */
  function FormDataFromCookies(jar: Jar): (form: Query)
    ensures IsParsedQuery(form)
    ensures forall k :: k in ScalarNames ==> k in form && form[k] == [Get(jar, k)]
    ensures "language" in form <==> "language" in jar
    ensures "language" in jar ==> "language" in form && form["language"] == SplitOn(jar["language"], ",")
  {
    var scalars := map k | k in ScalarNames :: [Get(jar, k)];
    if "language" in jar then scalars["language" := SplitOn(jar["language"], ",")] else scalars
  }

  /** No other field is read from the cookies. */
  lemma FormDataKeys(jar: Jar)
    ensures forall k :: k in FormDataFromCookies(jar) ==> k in ScalarNames || k == "language"
  {
  }

  // ---------------------------------------------------------------------
  // The cookies a failed submission stores (the error path of do_POST)

  /** The six fields whose first value the error path keeps. */
  const StoredNames: seq<string> := ["fullname", "phone", "email", "birthdate", "gender", "bio"]

  /** The entries the loop over `fields` has added: the first value of each
      field that was submitted. */
  function FirstValues(data: Query, fields: seq<string>): Jar
    requires IsParsedQuery(data)
    decreases |fields|
  {
    if fields == [] then map[]
    else
      var m := FirstValues(data, fields[..|fields| - 1]);
      var f := fields[|fields| - 1];
      if f in data then m[f := data[f][0]] else m
  }

  lemma {:induction false} FirstValuesOf(data: Query, fields: seq<string>)
    requires IsParsedQuery(data)
    ensures forall k :: k in FirstValues(data, fields) <==> k in fields && k in data
    ensures forall k :: k in FirstValues(data, fields) ==> FirstValues(data, fields)[k] == data[k][0]
    decreases |fields|
  {
    if fields != [] {
      var init := fields[..|fields| - 1];
      FirstValuesOf(data, init);
      assert fields == init + [fields[|fields| - 1]];
    }
  }

  /** The cookie data of lines 74-85: first values, the languages joined
      with `,`, `on` for any submitted contract, and the encoded errors. */
  function ErrorCookieData(data: Query, errorsText: string): Jar
    requires IsParsedQuery(data)
  {
    var m := FirstValues(data, StoredNames);
    var withLanguage := if "language" in data then m["language" := Join(data["language"], ",")] else m;
    var withContract := if "contract" in data then withLanguage["contract" := "on"] else withLanguage;
    withContract["errors" := errorsText]
  }

  /** The loop of lines 74-85. */
  method EncodeErrorCookies(data: Query, errorsText: string) returns (cookieData: Jar)
    requires IsParsedQuery(data)
    ensures cookieData == ErrorCookieData(data, errorsText)
  {
    cookieData := map[];
    for i := 0 to |StoredNames|
      invariant cookieData == FirstValues(data, StoredNames[..i])
    {
      var field := StoredNames[i];
      assert StoredNames[..i + 1][..i] == StoredNames[..i];
      if field in data {
        cookieData := cookieData[field := data[field][0]];
      }
    }
    assert StoredNames[..|StoredNames|] == StoredNames;
    if "language" in data {
      cookieData := cookieData["language" := Join(data["language"], ",")];
    }
    if "contract" in data {
      cookieData := cookieData["contract" := "on"];
    }
    cookieData := cookieData["errors" := errorsText];
  }

  /** The error path stores exactly the submitted fields among the eight, the
      contract as `on` whatever was submitted, and always the errors. */
  lemma ErrorCookieDataContents(data: Query, errorsText: string)
    requires IsParsedQuery(data)
    ensures var c := ErrorCookieData(data, errorsText);
      && "errors" in c && c["errors"] == errorsText
      && ("contract" in c <==> "contract" in data)
      && ("contract" in c ==> c["contract"] == "on")
      && ("language" in c <==> "language" in data)
      && ("language" in c ==> c["language"] == Join(data["language"], ","))
      && (forall k :: k in StoredNames ==> (k in c <==> k in data))
      && (forall k :: k in StoredNames && k in c ==> c[k] == data[k][0])
      && (forall k :: k in c ==> k in ClearedNames)
  {
    FirstValuesOf(data, StoredNames);
  }

  /** `errors` sorts first among form cookies without `bio`, `birthdate`,
      `contract` and `email`. */
  lemma ErrorsFirst(keys: set<string>)
    requires "errors" in keys && forall k :: k in keys ==> k in ClearedNames
    requires "bio" !in keys && "birthdate" !in keys && "contract" !in keys && "email" !in keys
    ensures IsLeast("errors", keys)
  {
    forall j | j in keys && j != "errors"
      ensures Below("errors", j)
    {
      assert j in ClearedNames;
    }
  }

  /** Of the folded field the error path sends, the browser keeps `bio`
      when it was submitted, and keeps `errors` only when none of `bio`,
      `birthdate`, `contract` and `email` (the names that sort before it)
      was submitted. */
  lemma FoldedErrorField(data: Query, errorsText: string)
    requires IsParsedQuery(data)
    ensures var kept := Kept(Folded(CookiesFor(ErrorCookieData(data, errorsText), Some(300), None)));
      && ("errors" in kept <==> !("bio" in data || "birthdate" in data || "contract" in data || "email" in data))
      && ("bio" in data ==> kept == map["bio" := CookieFor(data["bio"][0], Some(300), None)])
  {
    var c := ErrorCookieData(data, errorsText);
    var m := CookiesFor(c, Some(300), None);
    ErrorCookieDataContents(data, errorsText);
    assert "bio" in StoredNames && "birthdate" in StoredNames && "email" in StoredNames;
    var early := if "bio" in data then "bio" else if "birthdate" in data then "birthdate"
                 else if "contract" in data then "contract" else "email";
    if "bio" in data {
      BioFirst(m.Keys);
      FoldedKeepsFirst(m, "bio");
    }
    if "bio" in data || "birthdate" in data || "contract" in data || "email" in data {
      assert Below(early, "errors");
      NotFirstNotKept(m, early, "errors");
    } else {
      ErrorsFirst(m.Keys);
      FoldedKeepsFirst(m, "errors");
    }
  }

  /** A folded field of form cookies with `bio` among them and no negative
      Max-Age sets `bio` and nothing else. */
  lemma FoldedBioField(browser: Jar, data: Jar, maxAge: Option<int>, expires: Option<string>)
    requires "bio" in data && forall k :: k in data ==> k in ClearedNames
    requires maxAge.None? || maxAge.value >= 0
    ensures Receive(browser, Folded(CookiesFor(data, maxAge, expires))) == browser["bio" := data["bio"]]
  {
    var m := CookiesFor(data, maxAge, expires);
    BioFirst(m.Keys);
    FoldedKeepsFirst(m, "bio");
    StoreOne(browser, "bio", m["bio"]);
  }

  /** Reading back what the error path stored gives each submitted scalar's
      first value, `''` for one that was not submitted, `on` for a submitted
      contract, and the languages exactly when none of them holds a comma. */
  lemma ErrorRoundTrip(data: Query, errorsText: string)
    requires IsParsedQuery(data)
    ensures var form := FormDataFromCookies(ErrorCookieData(data, errorsText));
      && (forall k :: k in StoredNames ==> form[k] == [if k in data then data[k][0] else ""])
      && form["contract"] == [if "contract" in data then "on" else ""]
      && ("language" in form <==> "language" in data)
      && ("language" in data && (forall i :: 0 <= i < |data["language"]| ==> ',' !in data["language"][i])
          ==> form["language"] == data["language"])
  {
    var c := ErrorCookieData(data, errorsText);
    ErrorCookieDataContents(data, errorsText);
    var form := FormDataFromCookies(c);
    forall k | k in StoredNames
      ensures form[k] == [if k in data then data[k][0] else ""]
    {
      assert k in ScalarNames;
    }
    if "language" in data && (forall i :: 0 <= i < |data["language"]| ==> ',' !in data["language"][i]) {
      SplitOfJoin(data["language"], ',');
    }
  }

  // ---------------------------------------------------------------------
  // The cookies a successful submission stores

  /** Every one of the six stored fields was submitted. */
  predicate HasStoredNames(data: Query) {
    "fullname" in data && "phone" in data && "email" in data
    && "birthdate" in data && "gender" in data && "bio" in data
  }

  /** The cookie data of lines 96-105. `data['f'][0]` needs every one of the
      six fields, which a submission that passed validation has. */
  function SuccessCookieData(data: Query): Jar
    requires IsParsedQuery(data) && HasStoredNames(data)
  {
    StoredNamesPresent(data);
    var m := map k | k in StoredNames :: data[k][0];
    if "language" in data then m["language" := Join(data["language"], ",")] else m
  }

  /** Reading back what a success stored gives the six first values and an
      empty contract. */
  lemma SuccessRoundTrip(data: Query)
    requires IsParsedQuery(data) && HasStoredNames(data)
    ensures var form := FormDataFromCookies(SuccessCookieData(data));
      && (forall k :: k in StoredNames ==> k in data && k in form && form[k] == [data[k][0]])
      && "contract" in form && form["contract"] == [""]
  {
    var c := SuccessCookieData(data);
    SuccessCookieDataContents(data);
    StoredNamesScalar();
    assert "contract" in ScalarNames;
  }

  lemma StoredNamesScalar()
    ensures forall k :: k in StoredNames ==> k in ScalarNames
  {
  }

  /** The success path stores each of the six first values, the languages
      when submitted, and neither a contract nor errors. */
  lemma SuccessCookieDataContents(data: Query)
    requires IsParsedQuery(data) && HasStoredNames(data)
    ensures var c := SuccessCookieData(data);
      && (forall k :: k in StoredNames ==> k in data && k in c && c[k] == data[k][0])
      && "contract" !in c && "errors" !in c
      && ("language" in c <==> "language" in data)
      && ("language" in c ==> c["language"] == Join(data["language"], ","))
      && (forall k :: k in c ==> k in ClearedNames)
  {
    StoredNamesPresent(data);
    assert "language" !in StoredNames;
  }

  lemma StoredNamesPresent(data: Query)
    requires HasStoredNames(data)
    ensures forall k :: k in StoredNames ==> k in data
  {
  }

  /** The languages come back when submitted, and unchanged when none of
      them holds a comma. */
  lemma SuccessLanguagesRoundTrip(data: Query)
    requires IsParsedQuery(data) && HasStoredNames(data)
    ensures var form := FormDataFromCookies(SuccessCookieData(data));
      && ("language" in form <==> "language" in data)
      && ("language" in data && (forall i :: 0 <= i < |data["language"]| ==> ',' !in data["language"][i])
          ==> form["language"] == data["language"])
  {
    if "language" in data && (forall i :: 0 <= i < |data["language"]| ==> ',' !in data["language"][i]) {
      SplitOfJoin(data["language"], ',');
    }
  }
}
