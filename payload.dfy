/** The payload builder (app.js, getContent, addUtmParameters, generateVCard): the exact
    string to encode, computed from the active content type and the raw values of the
    input fields. The empty string means "nothing to render". */
module Payload {
  import opened JsValues
  import opened StringTrim
  import opened SearchParams
  import UriComponent
  import VCard

  /** A parsed URL: its query as a name-value list, everything else kept opaque. */
  datatype Url = Url(rest: string, query: seq<Param>)

  /** The host's URL parser (`new URL(s)`, None where it throws) and serialiser
      (`url.toString()`). Both are external to the application. */
  datatype UrlApi = UrlApi(parse: string -> Option<Url>, serialize: Url -> string)

  /** Serialising a URL and parsing the text again gives the same URL back. */
  ghost predicate RoundTrips(api: UrlApi) {
    forall u :: api.parse(api.serialize(u)) == Some(u)
  }

  /** The raw values of the nine content input fields. */
  datatype Fields = Fields(
    url: string,
    text: string,
    email: string,
    subject: string,
    phone: string,
    vcardName: string,
    vcardPhone: string,
    vcardEmail: string,
    vcardOrg: string)

  predicate IsUtmName(name: string) {
    name == "utm_source" || name == "utm_medium" || name == "utm_campaign"
  }

  /** The three `searchParams.set` calls of addUtmParameters, in order. */
  function Tagged(q: seq<Param>): seq<Param> {
    Set(Set(Set(q, "utm_source", "qr_code"), "utm_medium", "qr"), "utm_campaign", "qr_generator")
  }

  /** The URL with the three fixed tracking parameters set, or the input unchanged when
      it does not parse as a URL. */
  function AddUtmParameters(url: string, api: UrlApi): string {
    match api.parse(url)
    case None => url
    case Some(u) => api.serialize(u.(query := Tagged(u.query)))
  }

  function UrlContent(raw: string, addUtm: bool, api: UrlApi): string {
    var content := Trim(raw);
    if addUtm && content != "" then AddUtmParameters(content, api) else content
  }

  function EmailContent(rawEmail: string, rawSubject: string): string {
    var email := Trim(rawEmail);
    var subject := Trim(rawSubject);
    if email != "" then
      "mailto:" + email + (if subject != "" then "?subject=" + UriComponent.EncodeURIComponent(subject) else "")
    else ""
  }

  function PhoneContent(raw: string): string {
    if Trim(raw) == "" then "" else "tel:" + Trim(raw)
  }

  /** generateVCard */
  function VCardContent(f: Fields): string {
    VCard.Card(Trim(f.vcardName), Trim(f.vcardPhone), Trim(f.vcardEmail), Trim(f.vcardOrg))
  }

  /** getContent: the switch on `state.contentType` (compared with ===), with no case for
      a type outside the five. */
  function GetContent(contentType: Json, addUtm: Json, f: Fields, api: UrlApi): string {
    if contentType == JString("url") then UrlContent(f.url, Truthy(addUtm), api)
    else if contentType == JString("text") then Trim(f.text)
    else if contentType == JString("email") then EmailContent(f.email, f.subject)
    else if contentType == JString("phone") then PhoneContent(f.phone)
    else if contentType == JString("vcard") then VCardContent(f)
    else ""
  }

  /** The fields the active content type reads. */
  ghost predicate SameActiveFields(contentType: Json, f: Fields, g: Fields) {
    && (contentType == JString("url") ==> f.url == g.url)
    && (contentType == JString("text") ==> f.text == g.text)
    && (contentType == JString("email") ==> f.email == g.email && f.subject == g.subject)
    && (contentType == JString("phone") ==> f.phone == g.phone)
    && (contentType == JString("vcard") ==>
          f.vcardName == g.vcardName && f.vcardPhone == g.vcardPhone
          && f.vcardEmail == g.vcardEmail && f.vcardOrg == g.vcardOrg)
  }

  // ----- properties of the URL tagging -----

  /** After tagging, each tracking parameter occurs exactly once with its fixed value,
      whatever the query held before, and every other parameter is untouched. */
  lemma TaggedQuery(q: seq<Param>, other: string)
    ensures Values(Tagged(q), "utm_source") == ["qr_code"]
    ensures Values(Tagged(q), "utm_medium") == ["qr"]
    ensures Values(Tagged(q), "utm_campaign") == ["qr_generator"]
    ensures !IsUtmName(other) ==> Values(Tagged(q), other) == Values(q, other)
  {
    var q1 := Set(q, "utm_source", "qr_code");
    var q2 := Set(q1, "utm_medium", "qr");
    SetSpec(q, "utm_source", "qr_code", other);
    SetSpec(q1, "utm_medium", "qr", other);
    SetSpec(q1, "utm_medium", "qr", "utm_source");
    SetSpec(q2, "utm_campaign", "qr_generator", other);
    SetSpec(q2, "utm_campaign", "qr_generator", "utm_source");
    SetSpec(q2, "utm_campaign", "qr_generator", "utm_medium");
  }

  /** A query without tracking parameters gets the three appended at its end, in the
      order of the `set` calls; the pairs already there keep their places. */
  lemma TaggedAppends(q: seq<Param>)
    requires !HasName(q, "utm_source") && !HasName(q, "utm_medium") && !HasName(q, "utm_campaign")
    ensures Tagged(q) == q + [Param("utm_source", "qr_code"), Param("utm_medium", "qr"), Param("utm_campaign", "qr_generator")]
  {
    var q1 := q + [Param("utm_source", "qr_code")];
    var q2 := q1 + [Param("utm_medium", "qr")];
    AppendKeepsAbsent(q, Param("utm_source", "qr_code"), "utm_medium");
    AppendKeepsAbsent(q, Param("utm_source", "qr_code"), "utm_campaign");
    AppendKeepsAbsent(q1, Param("utm_medium", "qr"), "utm_campaign");
    assert Set(q, "utm_source", "qr_code") == q1;
    assert Set(q1, "utm_medium", "qr") == q2;
    assert Set(q2, "utm_campaign", "qr_generator") == q2 + [Param("utm_campaign", "qr_generator")];
  }

  /** Tagging a tagged query changes nothing. */
  lemma TaggedIdempotent(q: seq<Param>)
    ensures Tagged(Tagged(q)) == Tagged(q)
  {
    var t := Tagged(q);
    TaggedQuery(q, "");
    SetNoChange(t, "utm_source", "qr_code");
    SetNoChange(t, "utm_medium", "qr");
    SetNoChange(t, "utm_campaign", "qr_generator");
  }

  /** addUtmParameters either falls back to its input (the URL does not parse) or
      returns the serialisation of the parsed URL with only its query changed, and
      changed as TaggedQuery describes. */
  lemma AddUtmSpec(url: string, api: UrlApi, other: string)
    ensures api.parse(url).None? ==> AddUtmParameters(url, api) == url
    ensures api.parse(url).Some? ==>
      exists t: Url :: AddUtmParameters(url, api) == api.serialize(t)
        && t.rest == api.parse(url).value.rest
        && Values(t.query, "utm_source") == ["qr_code"]
        && Values(t.query, "utm_medium") == ["qr"]
        && Values(t.query, "utm_campaign") == ["qr_generator"]
        && (!IsUtmName(other) ==> Values(t.query, other) == Values(api.parse(url).value.query, other))
  {
    if api.parse(url).Some? {
      var u := api.parse(url).value;
      TaggedQuery(u.query, other);
      var t := u.(query := Tagged(u.query));
      assert AddUtmParameters(url, api) == api.serialize(t);
    }
  }

  /** With a URL API whose serialisation parses back, tagging an already tagged URL
      gives the same text. */
  lemma AddUtmIdempotent(url: string, api: UrlApi)
    requires RoundTrips(api)
    ensures AddUtmParameters(AddUtmParameters(url, api), api) == AddUtmParameters(url, api)
  {
    if api.parse(url).Some? {
      var u := api.parse(url).value;
      var t := u.(query := Tagged(u.query));
      assert api.parse(api.serialize(t)) == Some(t);
      TaggedIdempotent(u.query);
      assert t.(query := Tagged(t.query)) == t;
    }
  }

  // ----- properties of getContent, one content type at a time -----

  /** URL: the trimmed input; tagged only when `addUtm` is truthy and the trimmed input
      is non-empty, so an input of white space only gives "". */
  lemma UrlContentSpec(contentType: Json, addUtm: Json, f: Fields, api: UrlApi)
    requires contentType == JString("url")
    ensures var r := GetContent(contentType, addUtm, f, api);
      && (AllWhiteSpace(f.url) ==> r == "")
      && (!Truthy(addUtm) ==> r == Trim(f.url))
      && (Truthy(addUtm) && !AllWhiteSpace(f.url) ==> r == AddUtmParameters(Trim(f.url), api))
  {
    TrimEmpty(f.url);
  }

  /** Text: the input without its surrounding white space, nothing else changed. */
  lemma TextContentSpec(contentType: Json, addUtm: Json, f: Fields, api: UrlApi)
    requires contentType == JString("text")
    ensures var r := GetContent(contentType, addUtm, f, api);
      && Unpadded(r)
      && (exists a, b :: AllWhiteSpace(a) && AllWhiteSpace(b) && f.text == a + r + b)
      && (r == "" <==> AllWhiteSpace(f.text))
  {
    TrimSplits(f.text);
    TrimEmpty(f.text);
  }

  /** Email: "" exactly when the address is blank; otherwise `mailto:` and the trimmed
      address, followed by `?subject=` and the percent-encoded subject only when the
      subject is not blank. The encoded subject decodes back to the trimmed subject and
      holds no '&' or '#' that could end the query. */
  lemma EmailContentSpec(contentType: Json, addUtm: Json, f: Fields, api: UrlApi)
    requires contentType == JString("email")
    ensures var r := GetContent(contentType, addUtm, f, api);
      && (r == "" <==> AllWhiteSpace(f.email))
      && (r != "" && AllWhiteSpace(f.subject) ==> r == "mailto:" + Trim(f.email))
      && (r != "" && !AllWhiteSpace(f.subject) ==>
            exists enc :: r == "mailto:" + Trim(f.email) + "?subject=" + enc
              && UriComponent.DecodeURIComponent(enc) == Some(Trim(f.subject))
              && '&' !in enc && '#' !in enc)
  {
    var r := GetContent(contentType, addUtm, f, api);
    assert r == EmailContent(f.email, f.subject);
    TrimEmpty(f.email);
    TrimEmpty(f.subject);
    var email, subject := Trim(f.email), Trim(f.subject);
    if email == "" {
      assert r == "";
    } else if subject == "" {
      assert r == "mailto:" + email;
    } else {
      var enc := UriComponent.EncodeURIComponent(subject);
      assert r == "mailto:" + email + "?subject=" + enc;
      assert r != "" by { assert r[0] == 'm'; }
      UriComponent.DecodeEncode(subject);
      UriComponent.EncodedAlphabet(subject);
    }
  }

  /** Phone: "" exactly when the number is blank, otherwise `tel:` and the trimmed
      number. */
  lemma PhoneContentSpec(contentType: Json, addUtm: Json, f: Fields, api: UrlApi)
    requires contentType == JString("phone")
    ensures var r := GetContent(contentType, addUtm, f, api);
      && (r == "" <==> AllWhiteSpace(f.phone))
      && (r != "" ==> r == "tel:" + Trim(f.phone))
  {
    TrimEmpty(f.phone);
  }

  /** Contact: "" exactly when all four fields are blank; otherwise the card of the
      trimmed values. */
  lemma VCardContentSpec(contentType: Json, addUtm: Json, f: Fields, api: UrlApi)
    requires contentType == JString("vcard")
    ensures var r := GetContent(contentType, addUtm, f, api);
      && (r == "" <==> (AllWhiteSpace(f.vcardName) && AllWhiteSpace(f.vcardPhone)
                        && AllWhiteSpace(f.vcardEmail) && AllWhiteSpace(f.vcardOrg)))
      && (r != "" ==> r[..|VCard.Header|] == VCard.Header && r[|r| - |VCard.Footer|..] == VCard.Footer)
  {
    var name, phone, email, org := Trim(f.vcardName), Trim(f.vcardPhone), Trim(f.vcardEmail), Trim(f.vcardOrg);
    var r := GetContent(contentType, addUtm, f, api);
    assert r == VCard.Card(name, phone, email, org);
    TrimEmpty(f.vcardName);
    TrimEmpty(f.vcardPhone);
    TrimEmpty(f.vcardEmail);
    TrimEmpty(f.vcardOrg);
    VCard.CardEmpty(name, phone, email, org);
    if r != "" {
      VCard.CardFrame(name, phone, email, org);
    }
  }

  /** A content type outside the five gives "". */
  lemma UnknownTypeContent(contentType: Json, addUtm: Json, f: Fields, api: UrlApi)
    requires contentType !in {JString("url"), JString("text"), JString("email"), JString("phone"), JString("vcard")}
    ensures GetContent(contentType, addUtm, f, api) == ""
  {
  }

  /** The payload reads only the active type's fields, and the tracking flag only for
      the URL type. */
  lemma ContentReadsActiveFields(contentType: Json, addUtm: Json, addUtm': Json, f: Fields, g: Fields, api: UrlApi)
    requires SameActiveFields(contentType, f, g)
    requires contentType == JString("url") ==> Truthy(addUtm) == Truthy(addUtm')
    ensures GetContent(contentType, addUtm, f, api) == GetContent(contentType, addUtm', g, api)
  {
  }
}
