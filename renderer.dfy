/**
  The rewriting of the form template in `serve_form`: the submitted values
  are injected, escaped, after the matching `name="…"` attributes; the gender,
  contract and languages are marked `checked` or `selected`; and the errors
  are shown next to their fields. Every step is a Python `str.replace`.
 */
module Renderer {
  import opened Optional
  import opened Text
  import opened Html
  import opened Cookies

  /** A decoded JSON object of errors: its entries, in their order. */
  type ErrorList = seq<(string, string)>

  /** The fields whose value is injected into the page. */
  const ValueFields: seq<string> := ["fullname", "phone", "email", "birthdate", "bio"]

  /** `name="field"` */
  function NameAttr(field: string): string {
    "name=\"" + field + "\""
  }

  /** `value="v"` */
  function ValueAttr(v: string): string {
    "value=\"" + v + "\""
  }

  // ---------------------------------------------------------------------
  // Form data

  /** Lines 136-140 for one field. */
  function InjectValue(html: string, field: string, value: string): string {
    ReplaceAll(html, NameAttr(field), NameAttr(field) + " " + ValueAttr(Escape(value)))
  }

  /** Lines 134-140 for the first fields of `fields`. */
  function ValuesInjected(html: string, form: Query, fields: seq<string>): string
    requires IsParsedQuery(form)
    decreases |fields|
  {
    if fields == [] then html
    else
      var h := ValuesInjected(html, form, fields[..|fields| - 1]);
      var field := fields[|fields| - 1];
      if field in form then InjectValue(h, field, form[field][0]) else h
  }

  /** Lines 142-147. */
  function GenderMarked(html: string, form: Query): string
    requires IsParsedQuery(form)
  {
    if "gender" in form && form["gender"][0] != [] then
      var g := form["gender"][0];
      ReplaceAll(html, ValueAttr(g), ValueAttr(g) + " checked")
    else html
  }

  /** Lines 149-153. */
  function ContractMarked(html: string, form: Query): string
    requires IsParsedQuery(form)
  {
    if "contract" in form && form["contract"][0] == "on" then
      ReplaceAll(html, NameAttr("contract"), NameAttr("contract") + " checked")
    else html
  }

  /** Lines 156-161 for the first languages of `langs`; empty ones are skipped. */
  function LanguagesMarked(html: string, langs: seq<string>): string
    decreases |langs|
  {
    if langs == [] then html
    else
      var h := LanguagesMarked(html, langs[..|langs| - 1]);
      var lang := langs[|langs| - 1];
      if lang != [] then ReplaceAll(h, ValueAttr(lang), ValueAttr(lang) + " selected") else h
  }

  /** Lines 133-161: the page with the form data filled in. */
  function FormFilled(html: string, form: Query): string
    requires IsParsedQuery(form)
  {
    if form == map[] then html
    else
      var h := ContractMarked(GenderMarked(ValuesInjected(html, form, ValueFields), form), form);
      if "language" in form then LanguagesMarked(h, form["language"]) else h
  }

  // ---------------------------------------------------------------------
  // Errors

  const Heading: string := "<h2>Форма регистрации</h2>"

  /** The heading followed by the escaped server error. */
  function Banner(message: string): string {
    Heading + "\n<div class=\"server-error\">" + Escape(message) + "</div>"
  }

  /** `<div class="error-message">…</div>` with the escaped message. */
  function ErrorDiv(message: string): string {
    "<div class=\"error-message\">" + Escape(message) + "</div>"
  }

  /** `<label for="field">` */
  function LabelFor(field: string): string {
    "<label for=\"" + field + "\">"
  }

  /** The value of the first entry named `key`. */
  function Lookup(errors: ErrorList, key: string): (r: Option<string>)
    ensures r.Some? <==> exists i :: 0 <= i < |errors| && errors[i].0 == key
    ensures r.Some? ==> exists i :: 0 <= i < |errors| && errors[i] == (key, r.value)
                                 && forall j :: 0 <= j < i ==> errors[j].0 != key
  {
    if errors == [] then None
    else if errors[0].0 == key then Some(errors[0].1)
    else
      var r := Lookup(errors[1..], key);
      assert forall i :: 1 <= i < |errors| ==> errors[i] == errors[1..][i - 1];
      if r.Some? then
        var i :| 0 <= i < |errors[1..]| && errors[1..][i] == (key, r.value)
                 && forall j :: 0 <= j < i ==> errors[1..][j].0 != key;
        assert errors[i + 1] == (key, r.value);
        assert forall j :: 0 <= j < i + 1 ==> errors[j].0 != key by {
          forall j | 0 <= j < i + 1 ensures errors[j].0 != key {
            if j > 0 { assert errors[j] == errors[1..][j - 1]; }
          }
        }
        r
      else r
  }

  /** Lines 164-168. */
  function BannerInserted(html: string, errors: ErrorList): string {
    match Lookup(errors, "server_error")
    case None => html
    case Some(message) => ReplaceAll(html, Heading, Banner(message))
  }

  /** Lines 172-180 for one field. */
  function FieldAnnotated(html: string, field: string, message: string): string {
    var h := ReplaceAll(html, NameAttr(field), NameAttr(field) + " class=\"error-field\"");
    ReplaceAll(h, LabelFor(field), ErrorDiv(message) + LabelFor(field))
  }

  /** Lines 170-180 for the first entries of `errors`. */
  function ErrorsAnnotated(html: string, errors: ErrorList): string
    decreases |errors|
  {
    if errors == [] then html
    else
      var h := ErrorsAnnotated(html, errors[..|errors| - 1]);
      var (field, message) := errors[|errors| - 1];
      if field != "server_error" then FieldAnnotated(h, field, message) else h
  }

  /** Lines 163-180: nothing is shown unless there are errors. */
  function ErrorsShown(html: string, errors: Option<ErrorList>): string {
    if errors.Some? && errors.value != [] then ErrorsAnnotated(BannerInserted(html, errors.value), errors.value)
    else html
  }

  /** The page `serve_form` sends. */
  function Rendered(template: string, form: Query, errors: Option<ErrorList>): string
    requires IsParsedQuery(form)
  {
    ErrorsShown(FormFilled(template, form), errors)
  }

  /** Lines 133-180, replacement after replacement. */
  method RenderForm(template: string, form: Query, errors: Option<ErrorList>) returns (html: string)
    requires IsParsedQuery(form)
    ensures html == Rendered(template, form, errors)
  {
    html := FillForm(template, form);
    html := ShowErrors(html, errors);
  }

  /** Lines 133-161: the submitted values, gender, contract and languages. */
  method FillForm(template: string, form: Query) returns (html: string)
    requires IsParsedQuery(form)
    ensures html == FormFilled(template, form)
  {
    html := template;
    if form != map[] {
      for i := 0 to |ValueFields|
        invariant html == ValuesInjected(template, form, ValueFields[..i])
      {
        var field := ValueFields[i];
        assert ValueFields[..i + 1][..i] == ValueFields[..i];
        if field in form {
          var value := Escape(form[field][0]);
          html := ReplaceAll(html, NameAttr(field), NameAttr(field) + " " + ValueAttr(value));
        }
      }
      assert ValueFields[..|ValueFields|] == ValueFields;
      if "gender" in form && form["gender"][0] != [] {
        var gender := form["gender"][0];
        html := ReplaceAll(html, ValueAttr(gender), ValueAttr(gender) + " checked");
      }
      if "contract" in form && form["contract"][0] == "on" {
        html := ReplaceAll(html, NameAttr("contract"), NameAttr("contract") + " checked");
      }
      if "language" in form {
        var langs := form["language"];
        ghost var start := html;
        for i := 0 to |langs|
          invariant html == LanguagesMarked(start, langs[..i])
        {
          var lang := langs[i];
          assert langs[..i + 1][..i] == langs[..i];
          if lang != [] {
            html := ReplaceAll(html, ValueAttr(lang), ValueAttr(lang) + " selected");
          }
        }
        assert langs[..|langs|] == langs;
      }
    }
  }

  /** Lines 163-180: the server error banner, then each field's mark and message. */
  method ShowErrors(filled: string, errors: Option<ErrorList>) returns (html: string)
    ensures html == ErrorsShown(filled, errors)
  {
    html := filled;
    if errors.Some? && errors.value != [] {
      var server := Lookup(errors.value, "server_error");
      if server.Some? {
        html := ReplaceAll(html, Heading, Banner(server.value));
      }
      html := AnnotateErrors(html, errors.value);
    }
  }

  /** Lines 170-180: the loop over the error entries. */
  method AnnotateErrors(start: string, entries: ErrorList) returns (html: string)
    ensures html == ErrorsAnnotated(start, entries)
  {
    html := start;
    for i := 0 to |entries|
      invariant html == ErrorsAnnotated(start, entries[..i])
    {
      var (field, error) := entries[i];
      assert entries[..i + 1][..i] == entries[..i];
      if field != "server_error" {
        html := ReplaceAll(html, NameAttr(field), NameAttr(field) + " class=\"error-field\"");
        var errorDiv := ErrorDiv(error);
        html := ReplaceAll(html, LabelFor(field), errorDiv + LabelFor(field));
      }
    }
    assert entries[..|entries|] == entries;
  }

  // ---------------------------------------------------------------------
  // Properties of the page

  lemma CountOfConcat(c: char, a: string, b: string)
    ensures Count(c, a + b) == Count(c, a) + Count(c, b)
  {
    assert multiset(a + b) == multiset(a) + multiset(b);
  }

  lemma CountAbsent(c: char, s: string)
    requires c !in s
    ensures Count(c, s) == 0
  {
  }

  lemma EscapedHasNo(s: string, c: char)
    requires c == '<' || c == '>'
    ensures c !in Escape(s)
  {
  }

  /** A middle part without `c` does not count. */
  lemma CountSkips(c: char, a: string, m: string, b: string)
    requires c !in m
    ensures Count(c, a + m + b) == Count(c, a + b)
  {
    CountOfConcat(c, a + m, b);
    CountOfConcat(c, a, m);
    CountOfConcat(c, a, b);
  }

  /** The injected attribute value can neither close the attribute nor open
      or close a tag, and unescaping it gives back the stored value. */
  lemma InjectedValueIsInert(value: string)
    ensures var e := Escape(value); '"' !in e && '<' !in e && '>' !in e && Unescape(e) == value
  {
    UnescapeEscape(value);
  }

  /** Replacing a pattern by itself plus a suffix without `c` keeps the
      number of `c` in the page. */
  lemma AppendKeepsCount(html: string, pat: string, suffix: string, c: char)
    requires pat != [] && c !in suffix
    ensures Count(c, ReplaceAll(html, pat, pat + suffix)) == Count(c, html)
  {
    CountOfConcat(c, pat, suffix);
    ReplaceAllKeepsCount(html, pat, pat + suffix, c);
  }

  /** Injecting a value adds no `<` and no `>`: the value cannot add markup. */
  lemma InjectValueKeepsTags(html: string, field: string, value: string, c: char)
    requires c == '<' || c == '>'
    ensures Count(c, InjectValue(html, field, value)) == Count(c, html)
  {
    var e := Escape(value);
    assert c !in " " && c !in "value=\"" && c !in "\"";
    AppendKeepsCount(html, NameAttr(field), " " + ValueAttr(e), c);
    assert NameAttr(field) + " " + ValueAttr(e) == NameAttr(field) + (" " + ValueAttr(e));
  }

  lemma {:induction false} ValuesInjectedKeepsTags(html: string, form: Query, fields: seq<string>, c: char)
    requires IsParsedQuery(form) && (c == '<' || c == '>')
    ensures Count(c, ValuesInjected(html, form, fields)) == Count(c, html)
    decreases |fields|
  {
    if fields != [] {
      var init := fields[..|fields| - 1];
      ValuesInjectedKeepsTags(html, form, init, c);
      var field := fields[|fields| - 1];
      if field in form {
        InjectValueKeepsTags(ValuesInjected(html, form, init), field, form[field][0], c);
      }
    }
  }

  lemma {:induction false} LanguagesMarkedKeepsTags(html: string, langs: seq<string>, c: char)
    requires c == '<' || c == '>'
    ensures Count(c, LanguagesMarked(html, langs)) == Count(c, html)
    decreases |langs|
  {
    if langs != [] {
      var init := langs[..|langs| - 1];
      LanguagesMarkedKeepsTags(html, init, c);
      var lang := langs[|langs| - 1];
      if lang != [] {
        AppendKeepsCount(LanguagesMarked(html, init), ValueAttr(lang), " selected", c);
      }
    }
  }

  /** Filling in the form data, whatever the cookies held, adds no `<` and
      no `>` to the page: values are escaped and marks are plain words. */
  lemma FormFilledKeepsTags(html: string, form: Query, c: char)
    requires IsParsedQuery(form) && (c == '<' || c == '>')
    ensures Count(c, FormFilled(html, form)) == Count(c, html)
  {
    if form != map[] {
      var h1 := ValuesInjected(html, form, ValueFields);
      ValuesInjectedKeepsTags(html, form, ValueFields, c);
      if "gender" in form && form["gender"][0] != [] {
        AppendKeepsCount(h1, ValueAttr(form["gender"][0]), " checked", c);
      }
      var h2 := GenderMarked(h1, form);
      if "contract" in form && form["contract"][0] == "on" {
        AppendKeepsCount(h2, NameAttr("contract"), " checked", c);
      }
      var h3 := ContractMarked(h2, form);
      if "language" in form {
        LanguagesMarkedKeepsTags(h3, form["language"], c);
      }
    }
  }

  /** Without errors, the page has exactly the template's tags. */
  lemma RenderedWithoutErrorsKeepsTags(template: string, form: Query, c: char)
    requires IsParsedQuery(form) && (c == '<' || c == '>')
    ensures Count(c, Rendered(template, form, None)) == Count(c, template)
    ensures Count(c, Rendered(template, form, Some([]))) == Count(c, template)
  {
    FormFilledKeepsTags(template, form, c);
  }

  /** An error message adds no tag to its `<div>`: the div has as many `<`
      and `>` whatever the message. */
  lemma ErrorDivTagsFixed(m1: string, m2: string, c: char)
    requires c == '<' || c == '>'
    ensures Count(c, ErrorDiv(m1)) == Count(c, ErrorDiv(m2))
  {
    EscapedHasNo(m1, c);
    EscapedHasNo(m2, c);
    CountSkips(c, "<div class=\"error-message\">", Escape(m1), "</div>");
    CountSkips(c, "<div class=\"error-message\">", Escape(m2), "</div>");
  }

  /** Marking an erroneous field's input adds no tags. */
  lemma ErrorFieldMarkKeepsTags(html: string, field: string, c: char)
    requires c == '<' || c == '>'
    ensures Count(c, ReplaceAll(html, NameAttr(field), NameAttr(field) + " class=\"error-field\"")) == Count(c, html)
  {
    AppendKeepsCount(html, NameAttr(field), " class=\"error-field\"", c);
  }

  lemma OccursOfPrefix(p: string, t: string, s: string)
    requires Occurs(t, s) && |p| <= |t| && t[..|p|] == p
    ensures Occurs(p, s)
  {
    var i: nat :| i <= |s| && MatchAt(t, s, i);
    assert s[i..i + |p|] == t[..|p|];
    assert MatchAt(p, s, i);
  }

  lemma ValuesInjectedAbsent(html: string, form: Query, fields: seq<string>)
    requires IsParsedQuery(form) && !Occurs("name=\"", html)
    ensures ValuesInjected(html, form, fields) == html
    decreases |fields|
  {
    if fields != [] {
      var field := fields[|fields| - 1];
      ValuesInjectedAbsent(html, form, fields[..|fields| - 1]);
      if field in form {
        NameAttrAbsent(html, field);
        ReplaceAllAbsent(html, NameAttr(field), NameAttr(field) + " " + ValueAttr(Escape(form[field][0])));
      }
    }
  }

  lemma NameAttrAbsent(html: string, field: string)
    requires !Occurs("name=\"", html)
    ensures !Occurs(NameAttr(field), html)
  {
    if Occurs(NameAttr(field), html) {
      OccursOfPrefix("name=\"", NameAttr(field), html);
    }
  }

  lemma ValueAttrAbsent(html: string, v: string)
    requires !Occurs("value=\"", html)
    ensures !Occurs(ValueAttr(v), html)
  {
    if Occurs(ValueAttr(v), html) {
      OccursOfPrefix("value=\"", ValueAttr(v), html);
    }
  }

  lemma LanguagesMarkedAbsent(html: string, langs: seq<string>)
    requires !Occurs("value=\"", html)
    ensures LanguagesMarked(html, langs) == html
    decreases |langs|
  {
    if langs != [] {
      var lang := langs[|langs| - 1];
      LanguagesMarkedAbsent(html, langs[..|langs| - 1]);
      ValueAttrAbsent(html, lang);
      ReplaceAllAbsent(html, ValueAttr(lang), ValueAttr(lang) + " selected");
    }
  }

  /** A page with no `name="` and no `value="` attribute is left as it is by
      the form data: every step only rewrites occurrences of its pattern. */
  lemma FormFilledAbsent(html: string, form: Query)
    requires IsParsedQuery(form) && !Occurs("name=\"", html) && !Occurs("value=\"", html)
    ensures FormFilled(html, form) == html
  {
    ValuesInjectedAbsent(html, form, ValueFields);
    if "gender" in form && form["gender"][0] != [] {
      var g := form["gender"][0];
      ValueAttrAbsent(html, g);
      ReplaceAllAbsent(html, ValueAttr(g), ValueAttr(g) + " checked");
    }
    NameAttrAbsent(html, "contract");
    ReplaceAllAbsent(html, NameAttr("contract"), NameAttr("contract") + " checked");
    if "language" in form {
      LanguagesMarkedAbsent(html, form["language"]);
    }
  }

  /** The banner appears only for a `server_error` entry. */
  lemma BannerOnlyForServerError(html: string, errors: ErrorList)
    requires forall i :: 0 <= i < |errors| ==> errors[i].0 != "server_error"
    ensures BannerInserted(html, errors) == html
  {
    assert Lookup(errors, "server_error").None?;
  }

  /** The message in the banner adds no tag: it has as many `<` and `>`
      whatever the message. */
  lemma BannerTagsFixed(m1: string, m2: string, c: char)
    requires c == '<' || c == '>'
    ensures Count(c, Banner(m1)) == Count(c, Banner(m2))
  {
    EscapedHasNo(m1, c);
    EscapedHasNo(m2, c);
    CountSkips(c, Heading + "\n<div class=\"server-error\">", Escape(m1), "</div>");
    CountSkips(c, Heading + "\n<div class=\"server-error\">", Escape(m2), "</div>");
  }
}
