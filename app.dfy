/** The page session of app.js: the global `state` object, the content inputs, the
    canvas with its `generated` and `animated` classes, the settings cache, and the
    toasts and exports the handlers produce. The outcome of each call into the host
    (QRCode.toCanvas, the logo image, localStorage.setItem, the clipboard, window.open)
    is a parameter of the method that makes it. */
module App {
  import opened JsValues
  import opened Payload
  import opened Settings

  /** The messages showToast is given. English-only messages are always shown in
      English; the others follow the page direction. */
  datatype Message =
    | SettingsSaved | SaveFailed
    | ThemeActivated(dark: bool)
    | DirectionSwitched(rtl: bool)
    | NeedContent | EncodeFailed | LogoFailed
    | DownloadFirst | PngDownloaded | PngFailed
    | NoSvgContent | SvgFailed | SvgDownloaded
    | CopyFirst | TextCopied | ImageCopied | CopyFailed | CopyError
    | PrintFirst | PrintOpening | PrintFailed

  datatype Kind = Success | Error | Warning

  datatype Toast = Toast(message: Message, arabic: bool, kind: Kind)

  /** What the canvas shows: nothing, or the code of a payload, with or without the
      logo drawn over it. */
  datatype Canvas = Blank | Code(payload: string, withLogo: bool)

  /** The effects that leave the page: a downloaded file, a clipboard write, a print
      window. */
  datatype Output =
    | PngFile(image: Canvas)
    | SvgFile(payload: string)
    | CopiedText(text: string)
    | CopiedImage(image: Canvas)
    | PrintPage(image: Canvas, arabicTitle: bool)

  /** What the host offers for copying: no clipboard object (reading `write` of it
      throws), a clipboard without `write`, or one whose write succeeds or fails. */
  datatype Clipboard = NoClipboard | NoImageWrite | ImageWrite(ok: bool)

  /** `state.direction === 'rtl'`, the test every translated message makes. */
  predicate Rtl(st: AppState) {
    "direction" in st && st["direction"] == JString("rtl")
  }

  /** The new theme of toggleTheme. */
  function ToggledTheme(theme: Json): Json {
    if theme == JString("light") then JString("dark") else JString("light")
  }

  /** The new direction of toggleDirection. */
  function ToggledDirection(direction: Json): Json {
    if direction == JString("ltr") then JString("rtl") else JString("ltr")
  }

  // ----- properties of the toggles -----

  /** toggleTheme maps light to dark and dark to light; any other value becomes light.
      Its result is always one of the two themes. */
  lemma ToggledThemeValues(theme: Json)
    ensures theme == JString("light") ==> ToggledTheme(theme) == JString("dark")
    ensures theme != JString("light") ==> ToggledTheme(theme) == JString("light")
    ensures ToggledTheme(theme) == JString("light") || ToggledTheme(theme) == JString("dark")
    ensures ToggledTheme(theme) != theme
  {
  }

  /** Two toggles restore the theme exactly when it was light or dark. */
  lemma ToggleThemeTwice(theme: Json)
    ensures ToggledTheme(ToggledTheme(theme)) == theme <==> theme == JString("light") || theme == JString("dark")
  {
  }

  /** toggleDirection maps ltr to rtl and rtl to ltr; any other value becomes ltr. */
  lemma ToggledDirectionValues(direction: Json)
    ensures direction == JString("ltr") ==> ToggledDirection(direction) == JString("rtl")
    ensures direction != JString("ltr") ==> ToggledDirection(direction) == JString("ltr")
    ensures ToggledDirection(direction) == JString("ltr") || ToggledDirection(direction) == JString("rtl")
    ensures ToggledDirection(direction) != direction
  {
  }

  /** Two toggles restore the direction exactly when it was ltr or rtl. */
  lemma ToggleDirectionTwice(direction: Json)
    ensures ToggledDirection(ToggledDirection(direction)) == direction <==> direction == JString("ltr") || direction == JString("rtl")
  {
  }

  /** A saved theme or direction comes back on the next load, whatever state the load
      starts from. */
  lemma ToggledSettingPersists(saved: AppState, f: Fields, current: AppState, g: Fields)
    requires StateKeys <= saved.Keys && StateKeys <= current.Keys
    ensures var r := Restore(current, g, Entry(Some(JObject(SavedDocument(saved, f)))));
      r.state["theme"] == saved["theme"] && r.state["direction"] == saved["direction"]
  {
    SaveRestoreState(saved, f, current, g, "theme");
    SaveRestoreState(saved, f, current, g, "direction");
  }

  class Session {
    var state: AppState
    var fields: Fields
    /** The `generated` class of the canvas. */
    var generated: bool
    /** The `animated` class of the canvas. */
    var animated: bool
    var canvas: Canvas
    /** What localStorage holds under the settings key. */
    var storage: Stored
    var toasts: seq<Toast>
    var outputs: seq<Output>
    const api: UrlApi

    ghost predicate Valid()
      reads this
    {
      state.Keys == StateKeys
    }

    /** getContent on the current state and inputs. */
    function Content(): string
      reads this
      requires Valid()
    {
      GetContent(state["contentType"], state["addUtm"], fields, api)
    }

    /** The page as it loads, before loadSettings: the initial state object, the
        inputs as the document has them, a blank canvas. */
    constructor (inputs: Fields, stored: Stored, urlApi: UrlApi)
      ensures Valid()
      ensures state == Defaults && fields == inputs && storage == stored && api == urlApi
      ensures !generated && !animated && canvas == Blank && toasts == [] && outputs == []
    {
      state := Defaults;
      fields := inputs;
      generated := false;
      animated := false;
      canvas := Blank;
      storage := stored;
      toasts := [];
      outputs := [];
      api := urlApi;
    }

    /** showToast, as it affects the page: the toast is appended to the log; its timer
        and its text are not modelled. */
    method Notify(message: Message, arabic: bool, kind: Kind)
      modifies this`toasts
      ensures toasts == old(toasts) + [Toast(message, arabic, kind)]
    {
      toasts := toasts + [Toast(message, arabic, kind)];
    }

    /** loadSettings: state and inputs become the restore of the cache entry. */
    method LoadSettings()
      requires Valid()
      modifies this`state, this`fields
      ensures Valid()
      ensures Restored(state, fields) == Restore(old(state), old(fields), storage)
    {
      if storage.NoEntry? || storage.parsed.None? || storage.parsed.value.JNull? {
        return;
      }
      var doc := storage.parsed.value;
      for i := 0 to |RestoredKeys|
        invariant state == CopyPresent(old(state), doc, RestoredKeys[..i])
        invariant state.Keys == StateKeys
        invariant fields == old(fields)
      {
        var key := RestoredKeys[i];
        assert RestoredKeys[..i + 1][..i] == RestoredKeys[..i];
        match Member(doc, key) {
          case None =>
          case Some(v) => state := state[key := v];
        }
      }
      assert RestoredKeys[..|RestoredKeys|] == RestoredKeys;
      ghost var merged := state;
      var contentType := state["contentType"];
      var fromContent := ToJsString(Or(Member(doc, "content"), state["content"]));
      if contentType == JString("url") {
        fields := fields.(url := fromContent);
      } else if contentType == JString("text") {
        fields := fields.(text := fromContent);
      } else if contentType == JString("email") {
        fields := fields.(email := ToJsString(Or(Member(doc, "contentEmail"), JString(""))));
        fields := fields.(subject := ToJsString(Or(Member(doc, "contentSubject"), JString(""))));
      } else if contentType == JString("phone") {
        fields := fields.(phone := fromContent);
      } else if contentType == JString("vcard") {
        fields := fields.(vcardName := ToJsString(Or(Member(doc, "contentVcardName"), JString(""))));
        fields := fields.(vcardPhone := ToJsString(Or(Member(doc, "contentVcardPhone"), JString(""))));
        fields := fields.(vcardEmail := ToJsString(Or(Member(doc, "contentVcardEmail"), JString(""))));
        fields := fields.(vcardOrg := ToJsString(Or(Member(doc, "contentVcardOrg"), JString(""))));
      }
      assert fields == FillInputs(merged["contentType"], doc, merged["content"], old(fields));
      state := state["logo" := Or(Member(doc, "logo"), JNull)];
    }

    /** saveSettings: on a successful write the cache holds the saved record of the
        current state and inputs; either way one English toast reports the outcome. */
    method SaveSettings(saveOk: bool)
      requires Valid()
      modifies this`storage, this`toasts
      ensures storage == if saveOk then Entry(Some(JObject(SavedDocument(state, fields)))) else old(storage)
      ensures toasts == old(toasts) + [if saveOk then Toast(SettingsSaved, false, Success) else Toast(SaveFailed, false, Error)]
    {
      if saveOk {
        storage := Entry(Some(JObject(SavedDocument(state, fields))));
        Notify(SettingsSaved, false, Success);
      } else {
        Notify(SaveFailed, false, Error);
      }
    }

    /** toggleTheme: flips the theme, saves, and reports the new theme in English.
        applyTheme keeps the (truthy) new theme as it is. */
    method ToggleTheme(saveOk: bool)
      requires Valid()
      modifies this`state, this`storage, this`toasts
      ensures Valid()
      ensures state == old(state)["theme" := ToggledTheme(old(state)["theme"])]
      ensures storage == if saveOk then Entry(Some(JObject(SavedDocument(state, fields)))) else old(storage)
      ensures toasts == old(toasts)
        + [if saveOk then Toast(SettingsSaved, false, Success) else Toast(SaveFailed, false, Error)]
        + [Toast(ThemeActivated(state["theme"] == JString("dark")), false, Success)]
    {
      state := state["theme" := ToggledTheme(state["theme"])];
      SaveSettings(saveOk);
      Notify(ThemeActivated(state["theme"] == JString("dark")), false, Success);
    }

    /** toggleDirection: flips the direction, saves, and reports the new direction in
        its own language. */
    method ToggleDirection(saveOk: bool)
      requires Valid()
      modifies this`state, this`storage, this`toasts
      ensures Valid()
      ensures state == old(state)["direction" := ToggledDirection(old(state)["direction"])]
      ensures storage == if saveOk then Entry(Some(JObject(SavedDocument(state, fields)))) else old(storage)
      ensures toasts == old(toasts)
        + [if saveOk then Toast(SettingsSaved, false, Success) else Toast(SaveFailed, false, Error)]
        + [Toast(DirectionSwitched(Rtl(state)), Rtl(state), Success)]
    {
      state := state["direction" := ToggledDirection(state["direction"])];
      SaveSettings(saveOk);
      Notify(DirectionSwitched(Rtl(state)), Rtl(state), Success);
    }

    /** generateQRCode. An empty payload clears the canvas and the `generated` flag,
        with an error toast only when the flag was set. A non-empty payload sets the
        flag before encoding, and it stays set when encoding or the logo fails; only a
        complete render updates the `animated` class, `state.content` and the cache. */
    method GenerateQRCode(encodeOk: bool, logoOk: bool, saveOk: bool)
      requires Valid()
      modifies this`state, this`generated, this`animated, this`canvas, this`storage, this`toasts
      ensures Valid()
      ensures generated == (old(Content()) != "")
      ensures old(Content()) == "" ==>
        && canvas == Blank && state == old(state) && storage == old(storage) && animated == old(animated)
        && toasts == old(toasts) + (if old(generated) then [Toast(NeedContent, Rtl(state), Error)] else [])
      ensures old(Content()) != "" && !encodeOk ==>
        && canvas == Blank && state == old(state) && storage == old(storage) && animated == old(animated)
        && toasts == old(toasts) + [Toast(EncodeFailed, Rtl(state), Error)]
      ensures old(Content()) != "" && encodeOk && Truthy(old(state)["logo"]) && !logoOk ==>
        && canvas == Code(old(Content()), false) && state == old(state) && storage == old(storage)
        && animated == old(animated)
        && toasts == old(toasts) + [Toast(LogoFailed, Rtl(state), Error), Toast(EncodeFailed, Rtl(state), Error)]
      ensures old(Content()) != "" && encodeOk && (Truthy(old(state)["logo"]) ==> logoOk) ==>
        && canvas == Code(old(Content()), Truthy(old(state)["logo"]))
        && animated == Truthy(old(state)["animate"])
        && state == old(state)["content" := JString(old(Content()))]
        && storage == (if saveOk then Entry(Some(JObject(SavedDocument(state, fields)))) else old(storage))
        && toasts == old(toasts) + [if saveOk then Toast(SettingsSaved, false, Success) else Toast(SaveFailed, false, Error)]
    {
      var content := Content();
      canvas := Blank;
      if content == "" {
        if generated {
          Notify(NeedContent, Rtl(state), Error);
          generated := false;
        }
        return;
      }
      generated := true;
      if !encodeOk {
        Notify(EncodeFailed, Rtl(state), Error);
        return;
      }
      canvas := Code(content, false);
      if Truthy(state["logo"]) {
        if !logoOk {
          Notify(LogoFailed, Rtl(state), Error);
          Notify(EncodeFailed, Rtl(state), Error);
          return;
        }
        canvas := Code(content, true);
      }
      animated := Truthy(state["animate"]);
      state := state["content" := JString(content)];
      SaveSettings(saveOk);
    }

    /** downloadPNG: refused with an error toast unless the code was generated. */
    method DownloadPng(ok: bool)
      modifies this`toasts, this`outputs
      ensures !generated ==> outputs == old(outputs) && toasts == old(toasts) + [Toast(DownloadFirst, Rtl(state), Error)]
      ensures generated && ok ==> outputs == old(outputs) + [PngFile(canvas)] && toasts == old(toasts) + [Toast(PngDownloaded, Rtl(state), Success)]
      ensures generated && !ok ==> outputs == old(outputs) && toasts == old(toasts) + [Toast(PngFailed, Rtl(state), Error)]
    {
      if !generated {
        Notify(DownloadFirst, Rtl(state), Error);
        return;
      }
      if ok {
        outputs := outputs + [PngFile(canvas)];
        Notify(PngDownloaded, Rtl(state), Success);
      } else {
        Notify(PngFailed, Rtl(state), Error);
      }
    }

    /** downloadSVG: not gated on the flag; it encodes the current payload itself and
        refuses an empty one. */
    method DownloadSvg(svgOk: bool)
      requires Valid()
      modifies this`toasts, this`outputs
      ensures Content() == "" ==> outputs == old(outputs) && toasts == old(toasts) + [Toast(NoSvgContent, Rtl(state), Error)]
      ensures Content() != "" && svgOk ==> outputs == old(outputs) + [SvgFile(Content())] && toasts == old(toasts) + [Toast(SvgDownloaded, Rtl(state), Success)]
      ensures Content() != "" && !svgOk ==> outputs == old(outputs) && toasts == old(toasts) + [Toast(SvgFailed, Rtl(state), Error)]
    {
      var content := Content();
      if content == "" {
        Notify(NoSvgContent, Rtl(state), Error);
        return;
      }
      if svgOk {
        outputs := outputs + [SvgFile(content)];
        Notify(SvgDownloaded, Rtl(state), Success);
      } else {
        Notify(SvgFailed, Rtl(state), Error);
      }
    }

    /** copyToClipboard: refused with an error toast unless the code was generated;
        without image write it copies the payload text and warns. */
    method CopyToClipboard(clipboard: Clipboard)
      requires Valid()
      modifies this`toasts, this`outputs
      ensures !generated ==> outputs == old(outputs) && toasts == old(toasts) + [Toast(CopyFirst, Rtl(state), Error)]
      ensures generated && clipboard == NoClipboard ==>
        outputs == old(outputs) && toasts == old(toasts) + [Toast(CopyError, Rtl(state), Error)]
      ensures generated && clipboard == NoImageWrite ==>
        outputs == old(outputs) + [CopiedText(Content())] && toasts == old(toasts) + [Toast(TextCopied, Rtl(state), Warning)]
      ensures generated && clipboard == ImageWrite(true) ==>
        outputs == old(outputs) + [CopiedImage(canvas)] && toasts == old(toasts) + [Toast(ImageCopied, Rtl(state), Success)]
      ensures generated && clipboard == ImageWrite(false) ==>
        outputs == old(outputs) && toasts == old(toasts) + [Toast(CopyFailed, Rtl(state), Error)]
    {
      if !generated {
        Notify(CopyFirst, Rtl(state), Error);
        return;
      }
      match clipboard {
        case NoClipboard =>
          Notify(CopyError, Rtl(state), Error);
        case NoImageWrite =>
          outputs := outputs + [CopiedText(Content())];
          Notify(TextCopied, Rtl(state), Warning);
        case ImageWrite(ok) =>
          if ok {
            outputs := outputs + [CopiedImage(canvas)];
            Notify(ImageCopied, Rtl(state), Success);
          } else {
            Notify(CopyFailed, Rtl(state), Error);
          }
      }
    }

    /** printQRCode: refused with an error toast unless the code was generated; a
        blocked pop-up (window.open gives null) ends in the error toast. */
    method PrintQRCode(popupOk: bool)
      modifies this`toasts, this`outputs
      ensures !generated ==> outputs == old(outputs) && toasts == old(toasts) + [Toast(PrintFirst, Rtl(state), Error)]
      ensures generated && popupOk ==>
        outputs == old(outputs) + [PrintPage(canvas, Rtl(state))] && toasts == old(toasts) + [Toast(PrintOpening, Rtl(state), Success)]
      ensures generated && !popupOk ==> outputs == old(outputs) && toasts == old(toasts) + [Toast(PrintFailed, Rtl(state), Error)]
    {
      if !generated {
        Notify(PrintFirst, Rtl(state), Error);
        return;
      }
      if popupOk {
        outputs := outputs + [PrintPage(canvas, Rtl(state))];
        Notify(PrintOpening, Rtl(state), Success);
      } else {
        Notify(PrintFailed, Rtl(state), Error);
      }
    }
  }
}
