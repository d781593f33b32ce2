/** The settings cache (app.js, saveSettings and loadSettings): the application state is
    projected into one flat record under a fixed storage key after every successful
    render, and merged back key by key at start-up. */
module Settings {
  import opened JsValues
  import opened Payload

  /** The application state object: every key of `StateKeys` mapped to its value. The
      values are dynamically typed, since loadSettings copies whatever the cache holds. */
  type AppState = map<string, Json>

  /** The keys loadSettings copies into the state, in the order it visits them. */
  const RestoredKeys: seq<string> :=
    ["contentType", "fgColor", "bgColor", "size", "padding", "cornerStyle", "animate", "addUtm", "theme", "direction"]

  const StateKeys: set<string> :=
    {"contentType", "content", "fgColor", "bgColor", "size", "padding", "cornerStyle", "logo",
     "animate", "addUtm", "theme", "direction"}

  /** The initial state object. */
  const Defaults: AppState := map[
    "contentType" := JString("url"),
    "content" := JString("https://example.com"),
    "fgColor" := JString("#000000"),
    "bgColor" := JString("#ffffff"),
    "size" := JNumber(256),
    "padding" := JNumber(4),
    "cornerStyle" := JString("square"),
    "logo" := JNull,
    "animate" := JBool(false),
    "addUtm" := JBool(false),
    "theme" := JString("light"),
    "direction" := JString("ltr")]

  /** What the storage key holds: nothing; or a text that JSON.parse turns into a
      document, or throws on (None). An empty text is read as no entry, and leaves the
      state alone just as a parse error does, so it is folded into Entry(None). */
  datatype Stored = NoEntry | Entry(parsed: Option<Json>)

  /** The record saveSettings writes. `content` is the URL field, whatever the content
      type; text and phone have no field of their own. */
  function SavedDocument(state: AppState, f: Fields): map<string, Json>
    requires StateKeys <= state.Keys
  {
    map[
      "fgColor" := state["fgColor"],
      "bgColor" := state["bgColor"],
      "size" := state["size"],
      "padding" := state["padding"],
      "cornerStyle" := state["cornerStyle"],
      "animate" := state["animate"],
      "addUtm" := state["addUtm"],
      "theme" := state["theme"],
      "direction" := state["direction"],
      "contentType" := state["contentType"],
      "content" := JString(f.url),
      "contentEmail" := JString(f.email),
      "contentSubject" := JString(f.subject),
      "contentVcardName" := JString(f.vcardName),
      "contentVcardPhone" := JString(f.vcardPhone),
      "contentVcardEmail" := JString(f.vcardEmail),
      "contentVcardOrg" := JString(f.vcardOrg),
      "logo" := state["logo"]]
  }

  /** The forEach of loadSettings over `keys`: each key present in the document
      (not undefined) overwrites the state's value. */
  function CopyPresent(state: AppState, doc: Json, keys: seq<string>): AppState {
    if keys == [] then state
    else
      var before := CopyPresent(state, doc, keys[..|keys| - 1]);
      var key := keys[|keys| - 1];
      match Member(doc, key)
      case None => before
      case Some(v) => before[key := v]
  }

  /** The switch of loadSettings that refills the input of the restored content type:
      url, text and phone from the stored `content` or else the state's `content`; email
      and contact from their own stored fields or else "". Other inputs keep their
      values. */
  function FillInputs(contentType: Json, doc: Json, content: Json, f: Fields): Fields {
    var fromContent := ToJsString(Or(Member(doc, "content"), content));
    if contentType == JString("url") then f.(url := fromContent)
    else if contentType == JString("text") then f.(text := fromContent)
    else if contentType == JString("email") then
      f.(email := ToJsString(Or(Member(doc, "contentEmail"), JString(""))),
         subject := ToJsString(Or(Member(doc, "contentSubject"), JString(""))))
    else if contentType == JString("phone") then f.(phone := fromContent)
    else if contentType == JString("vcard") then
      f.(vcardName := ToJsString(Or(Member(doc, "contentVcardName"), JString(""))),
         vcardPhone := ToJsString(Or(Member(doc, "contentVcardPhone"), JString(""))),
         vcardEmail := ToJsString(Or(Member(doc, "contentVcardEmail"), JString(""))),
         vcardOrg := ToJsString(Or(Member(doc, "contentVcardOrg"), JString(""))))
    else f
  }

  datatype Restored = Restored(state: AppState, fields: Fields)

  /** loadSettings as a function of the state, the inputs and the cache. Nothing changes
      when there is no entry, when it does not parse, or when it parses to null (reading
      a key of null throws before anything is written). */
  function Restore(state: AppState, f: Fields, stored: Stored): (r: Restored)
    requires StateKeys <= state.Keys
    ensures r.state.Keys == state.Keys
  {
    if stored.NoEntry? || stored.parsed.None? || stored.parsed.value.JNull? then Restored(state, f)
    else
      var doc := stored.parsed.value;
      CopyPresentKeys(state, doc, RestoredKeys);
      var merged := CopyPresent(state, doc, RestoredKeys);
      var fields := FillInputs(merged["contentType"], doc, merged["content"], f);
      Restored(merged["logo" := Or(Member(doc, "logo"), JNull)], fields)
  }

  // ----- properties -----

  /** CopyPresent writes only keys of `keys`: the key set is unchanged. */
  lemma {:induction false} CopyPresentKeys(state: AppState, doc: Json, keys: seq<string>)
    requires forall i :: 0 <= i < |keys| ==> keys[i] in state
    ensures CopyPresent(state, doc, keys).Keys == state.Keys
  {
    if keys != [] {
      CopyPresentKeys(state, doc, keys[..|keys| - 1]);
    }
  }

  /** Partial restore, key by key: a listed key takes the stored value when the document
      has one and keeps its old value otherwise; an unlisted key is never touched. */
  lemma {:induction false} CopyPresentAt(state: AppState, doc: Json, keys: seq<string>, k: string)
    requires k in state
    ensures k in CopyPresent(state, doc, keys)
    ensures CopyPresent(state, doc, keys)[k] ==
      if k in keys && Member(doc, k).Some? then Member(doc, k).value else state[k]
  {
    if keys != [] {
      var init := keys[..|keys| - 1];
      CopyPresentAt(state, doc, init, k);
      assert keys == init + [keys[|keys| - 1]];
      assert k in keys <==> k in init || k == keys[|keys| - 1];
    }
  }

  /** With no entry, an unparsable entry, or a null document, the state and the inputs
      are left exactly as they were. */
  lemma RestoreNothing(state: AppState, f: Fields, stored: Stored)
    requires StateKeys <= state.Keys
    requires stored.NoEntry? || stored.parsed.None? || stored.parsed == Some(JNull)
    ensures Restore(state, f, stored) == Restored(state, f)
  {
  }

  /** With a document, each of the ten keys takes the stored value when present and
      keeps its prior value when absent; `content` is never restored; `logo` is always
      overwritten, with the stored logo when truthy and null otherwise. */
  lemma RestorePartial(state: AppState, f: Fields, doc: Json, k: string)
    requires StateKeys <= state.Keys
    requires doc != JNull
    ensures var r := Restore(state, f, Entry(Some(doc)));
      && r.state.Keys == state.Keys
      && (k in RestoredKeys ==> r.state[k] == (if Member(doc, k).Some? then Member(doc, k).value else state[k]))
      && r.state["content"] == state["content"]
      && r.state["logo"] == (if Member(doc, "logo").Some? && Truthy(Member(doc, "logo").value) then Member(doc, "logo").value else JNull)
  {
    CopyPresentKeys(state, doc, RestoredKeys);
    if k in RestoredKeys {
      CopyPresentAt(state, doc, RestoredKeys, k);
      assert k != "logo";
    }
    CopyPresentAt(state, doc, RestoredKeys, "content");
  }

  /** The saved record holds every one of the ten keys, the logo, and the content
      fields, each as the state or the inputs had it. */
  lemma SavedMembers(saved: AppState, f: Fields, k: string)
    requires StateKeys <= saved.Keys
    ensures var doc := JObject(SavedDocument(saved, f));
      && (k in RestoredKeys ==> Member(doc, k) == Some(saved[k]))
      && Member(doc, "logo") == Some(saved["logo"])
      && Member(doc, "content") == Some(JString(f.url))
      && Member(doc, "contentEmail") == Some(JString(f.email))
      && Member(doc, "contentSubject") == Some(JString(f.subject))
      && Member(doc, "contentVcardName") == Some(JString(f.vcardName))
      && Member(doc, "contentVcardPhone") == Some(JString(f.vcardPhone))
      && Member(doc, "contentVcardEmail") == Some(JString(f.vcardEmail))
      && Member(doc, "contentVcardOrg") == Some(JString(f.vcardOrg))
  {
  }

  /** Saving and then restoring, into any state: every one of the ten keys comes back
      exactly; `content` keeps the restoring state's value; the logo comes back when
      truthy and as null otherwise. */
  lemma SaveRestoreState(saved: AppState, f: Fields, current: AppState, g: Fields, k: string)
    requires StateKeys <= saved.Keys && StateKeys <= current.Keys
    ensures var r := Restore(current, g, Entry(Some(JObject(SavedDocument(saved, f)))));
      && (k in RestoredKeys ==> r.state[k] == saved[k])
      && r.state["content"] == current["content"]
      && r.state["logo"] == (if Truthy(saved["logo"]) then saved["logo"] else JNull)
  {
    var doc := JObject(SavedDocument(saved, f));
    SavedMembers(saved, f, k);
    RestorePartial(current, g, doc, k);
  }

  /** Saving and then restoring, into any inputs: email and contact inputs come back
      exactly. The URL, text and phone inputs are all refilled from the saved URL field,
      or from the restoring state's `content` when that field is empty, so a text or
      phone value does not survive the round trip. Inputs of other types are left
      alone. */
  lemma SaveRestoreFields(saved: AppState, f: Fields, current: AppState, g: Fields)
    requires StateKeys <= saved.Keys && StateKeys <= current.Keys
    ensures var r := Restore(current, g, Entry(Some(JObject(SavedDocument(saved, f)))));
      var fromUrl := if f.url != "" then f.url else ToJsString(current["content"]);
      var ct := saved["contentType"];
      && (ct == JString("url") ==> r.fields == g.(url := fromUrl))
      && (ct == JString("text") ==> r.fields == g.(text := fromUrl))
      && (ct == JString("phone") ==> r.fields == g.(phone := fromUrl))
      && (ct == JString("email") ==> r.fields == g.(email := f.email, subject := f.subject))
      && (ct == JString("vcard") ==>
            r.fields == g.(vcardName := f.vcardName, vcardPhone := f.vcardPhone,
                           vcardEmail := f.vcardEmail, vcardOrg := f.vcardOrg))
      && (ct !in {JString("url"), JString("text"), JString("phone"), JString("email"), JString("vcard")} ==>
            r.fields == g)
  {
    var doc := JObject(SavedDocument(saved, f));
    SavedMembers(saved, f, "contentType");
    CopyPresentKeys(current, doc, RestoredKeys);
    CopyPresentAt(current, doc, RestoredKeys, "contentType");
    CopyPresentAt(current, doc, RestoredKeys, "content");
    var merged := CopyPresent(current, doc, RestoredKeys);
    assert Restore(current, g, Entry(Some(doc))).fields ==
      FillInputs(saved["contentType"], doc, current["content"], g);
    FillFromSaved(saved["contentType"], doc, current["content"], f, g);
  }

  /** The input refill, given a document holding the saved content fields. */
  lemma FillFromSaved(ct: Json, doc: Json, content: Json, f: Fields, g: Fields)
    requires Member(doc, "content") == Some(JString(f.url))
    requires Member(doc, "contentEmail") == Some(JString(f.email))
    requires Member(doc, "contentSubject") == Some(JString(f.subject))
    requires Member(doc, "contentVcardName") == Some(JString(f.vcardName))
    requires Member(doc, "contentVcardPhone") == Some(JString(f.vcardPhone))
    requires Member(doc, "contentVcardEmail") == Some(JString(f.vcardEmail))
    requires Member(doc, "contentVcardOrg") == Some(JString(f.vcardOrg))
    ensures var r := FillInputs(ct, doc, content, g);
      var fromUrl := if f.url != "" then f.url else ToJsString(content);
      && (ct == JString("url") ==> r == g.(url := fromUrl))
      && (ct == JString("text") ==> r == g.(text := fromUrl))
      && (ct == JString("phone") ==> r == g.(phone := fromUrl))
      && (ct == JString("email") ==> r == g.(email := f.email, subject := f.subject))
      && (ct == JString("vcard") ==>
            r == g.(vcardName := f.vcardName, vcardPhone := f.vcardPhone,
                    vcardEmail := f.vcardEmail, vcardOrg := f.vcardOrg))
      && (ct !in {JString("url"), JString("text"), JString("phone"), JString("email"), JString("vcard")} ==>
            r == g)
  {
  }

  /** The round trip loses a text value: the text input comes back as the URL field. */
  lemma TextNotRoundTripped()
    ensures var saved := Defaults["contentType" := JString("text")];
      var f := Fields("https://example.com/a", "hello", "", "", "", "", "", "", "");
      Restore(Defaults, f, Entry(Some(JObject(SavedDocument(saved, f))))).fields.text == "https://example.com/a"
  {
    var saved := Defaults["contentType" := JString("text")];
    var f := Fields("https://example.com/a", "hello", "", "", "", "", "", "", "");
    SaveRestoreFields(saved, f, Defaults, f);
  }
}
