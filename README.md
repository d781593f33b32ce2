# QR code generator page logic, modelled in Dafny

This project models the page logic of the QR code generator in `app.js`, everything
between the form fields and the external QR encoding library:

- **The payload builder** (`getContent`, `addUtmParameters`, `generateVCard`), module
  `Payload`, with `VCard`, `SearchParams`, `UriComponent` and `StringTrim` beneath it. It
  computes the exact string to encode from the active content type and the raw input
  values. The empty string means "nothing to render".
  - `String.prototype.trim`, `encodeURIComponent` with its inverse
    `decodeURIComponent`, and `URLSearchParams.set` are written out concretely.
  - URL parsing and serialisation (`new URL`, `toString`) stay abstract, as a pair of
    functions `UrlApi`.
- **The settings cache** (`saveSettings`, `loadSettings`), module `Settings`. `state` is
  a map from the twelve state keys to JSON values, because `loadSettings` copies
  whatever the cache holds. The cache entry is either absent, unparsable, or a parsed
  JSON document.
- **The page session** (module `App`, class `Session`). It holds:
  - the state object and the inputs;
  - the canvas with its `generated` and `animated` classes;
  - the cache entry;
  - a log of toasts and a log of exports.

  Its methods are `generateQRCode`, the four export handlers, `toggleTheme`,
  `toggleDirection`, `saveSettings` and `loadSettings`.

How the host is represented:

- Each call into the host becomes a boolean or `Clipboard` parameter of the method that
  makes it. These calls are `QRCode.toCanvas`, `QRCode.toString`, the logo image load,
  `localStorage.setItem`, the clipboard API, `window.open` and `toDataURL`.
- `JSON.stringify` followed by `JSON.parse` is taken to give the saved record back
  unchanged.

## Model

| member | source | states |
|---|---|---|
| StringTrim.TrimSplits | app.js:293 | The trimmed value is the input with white space removed at both ends only, and it neither starts nor ends with white space. |
| StringTrim.TrimOfPadded | app.js:293 | Conversely, an unpadded string with white space added at both ends trims back to itself. |
| StringTrim.TrimIdempotent | app.js:293 | Trimming twice is trimming once. |
| StringTrim.TrimEmpty | app.js:293 | A value trims to "" exactly when it is all white space. |
| UriComponent.DecodeEncode | app.js:305 | decodeURIComponent undoes encodeURIComponent, for every string. |
| UriComponent.EncodedAlphabet | app.js:305 | The encoded subject contains only unreserved characters and the '%' of escapes, so it holds no query delimiter. |
| UriComponent.EncodeIdentity | app.js:305 | The encoding leaves a string unchanged exactly when every character is unreserved. |
| UriComponent.EncodedLength | app.js:305 | The encoding is never shorter than its input. It has the same length exactly when every character is unreserved. |
| SearchParams.SetSpec | app.js:325-327 | After `set`, the name has exactly the one new value. Other names keep their values, and the pairs with other names keep their order. |
| SearchParams.SetIdempotent | app.js:325-327 | Setting the same name and value twice equals setting it once. |
| SearchParams.SetNoChange | app.js:325-327 | Setting a name to the single value it already has leaves the list unchanged. |
| Payload.TaggedQuery | app.js:325-327 | After the three `set` calls, each `utm_*` name has exactly its fixed value, overwriting earlier ones. Every other name keeps its values. |
| Payload.TaggedAppends | app.js:325-327 | A query with no tracking parameters gets all three appended at its end, in the order of the `set` calls. The existing pairs stay in place. |
| Payload.TaggedIdempotent | app.js:325-327 | Tagging an already tagged query changes nothing. |
| Payload.AddUtmSpec | app.js:322-333 | If the URL fails to parse, the input comes back unchanged. Otherwise the result is the serialisation of the parsed URL, with only its query tagged. |
| Payload.AddUtmIdempotent | app.js:322-333 | When serialisation parses back, tagging a tagged URL gives the same text. |
| Payload.UrlContentSpec | app.js:292-297 | URL payload: "" for a blank input. Otherwise it is the trimmed input, tagged exactly when `addUtm` is truthy. |
| Payload.TextContentSpec | app.js:298-300 | Text payload: the input with its surrounding white space removed and nothing else changed. It is "" exactly when the input is blank. |
| Payload.EmailContentSpec | app.js:301-309 | The email payload is "" exactly when the address is blank; otherwise it is `mailto:` plus the trimmed address. `?subject=` and the encoded subject are added only for a non-blank subject, and that encoding decodes back to the trimmed subject. |
| Payload.PhoneContentSpec | app.js:310-313 | Phone payload: "" exactly when the number is blank. Otherwise it is `tel:` and the trimmed number. |
| Payload.VCardContentSpec | app.js:314-316 | The contact payload is "" exactly when all four fields are blank. Otherwise it opens with the BEGIN and VERSION lines and ends with `END:VCARD`. |
| Payload.UnknownTypeContent | app.js:288-320 | A content type outside the five gives "". |
| Payload.ContentReadsActiveFields | app.js:288-320 | The payload depends only on the active type's inputs, and on `addUtm` only for the URL type. |
| VCard.CardEmpty | app.js:341-344 | The card is "" exactly when all four trimmed fields are empty. |
| VCard.CardFrame | app.js:346-352 | A non-empty card starts with `BEGIN:VCARD\nVERSION:3.0\n` and ends with `END:VCARD`, with no newline after it. |
| VCard.CardIsJoinedLines | app.js:346-354 | A non-empty card has these lines joined with LF: the two header lines, then one `TAG:value` line per non-empty field in the order FN, TEL, EMAIL, ORG, then `END:VCARD`. |
| VCard.CardSplits | app.js:346-354 | When no field contains a newline, splitting the card at LF gives back exactly that list of lines. |
| Settings.CopyPresentKeys | app.js:103-107 | The key-by-key copy adds no key to the state. |
| Settings.CopyPresentAt | app.js:103-107 | A listed key takes the stored value when the document has one and keeps its old value otherwise. An unlisted key is untouched. |
| Settings.RestoreNothing | app.js:96-100 | With no entry, an unparsable entry or a null document, the state and the inputs are left exactly as they were. |
| Settings.RestorePartial | app.js:103-150 | Each of the ten keys is restored when present and kept when absent. `content` is never restored. `logo` is always overwritten, with the stored logo when truthy and null otherwise. |
| Settings.SavedMembers | app.js:160-184 | The saved record holds the ten keys and the logo as they are in the state. Its `content` is the URL input, and the email and contact fields are their inputs. |
| Settings.SaveRestoreState | app.js:96-184 | Save then load: the ten keys come back exactly, `content` keeps the loading state's value, and the logo comes back when truthy and as null otherwise. |
| Settings.SaveRestoreFields | app.js:110-131 | After save then load, email and contact inputs come back exactly. URL, text and phone inputs are all refilled from the saved URL input, or from `state.content` when that is empty. Inputs of other types are untouched. |
| Settings.FillFromSaved | app.js:110-131 | The input refill of loadSettings, for a document that holds the saved content fields, case by case. |
| Settings.TextNotRoundTripped | app.js:114-115 | A concrete text value that does not survive save then load: it comes back as the URL input. |
| App.ToggledThemeValues | app.js:210-211 | toggleTheme maps light to dark and everything else to light, so the result always differs from the old value. |
| App.ToggleThemeTwice | app.js:210-211 | Two toggles restore the theme exactly when it was light or dark. |
| App.ToggledDirectionValues | app.js:226-227 | toggleDirection maps ltr to rtl and everything else to ltr, so the result always differs from the old value. |
| App.ToggleDirectionTwice | app.js:226-227 | Two toggles restore the direction exactly when it was ltr or rtl. |
| App.ToggledSettingPersists | app.js:210-231 | A saved theme and direction come back on the next load, whatever state the load starts from. |
| App.Session.constructor | app.js:11-24 | The session starts with the initial state object, a blank canvas, and no flags, toasts or exports. |
| App.Session.LoadSettings | app.js:96-156 | The key loop and the input switch leave the state and inputs equal to the restore of the cache entry. The state keeps its twelve keys. |
| App.Session.SaveSettings | app.js:158-191 | On a successful write, the cache holds the saved record of the current state and inputs. Either outcome gives one English toast. |
| App.Session.ToggleTheme | app.js:210-215 | Only the theme changes, and it flips. The record is then saved, and a toast names the new theme. |
| App.Session.ToggleDirection | app.js:226-231 | Only the direction changes, and it flips. The record is then saved, and a toast in the new language names the new direction. |
| App.Session.GenerateQRCode | app.js:361-418 | `generated` is set exactly when the payload is non-empty, whether or not encoding succeeds. An empty payload gives an error toast only if the flag was set. `animated`, `state.content` and the cache change only after a complete render. |
| App.Session.Notify | app.js:645-653 | A toast shown by showToast is appended to the toast log, and nothing else changes. |
| App.Session.DownloadPng | app.js:484-503 | Without the `generated` flag there is no export, only the error toast. Otherwise it writes a PNG file of the canvas or reports the failure. |
| App.Session.DownloadSvg | app.js:505-545 | Not gated on the flag. An empty payload gives only an error toast. Otherwise an SVG of the payload is saved, or the failure is reported. |
| App.Session.CopyToClipboard | app.js:547-588 | Without the flag there is no export, only the error toast. With it, the canvas image is copied, or the payload text is copied with a warning when image write is missing, or the failure is reported. |
| App.Session.PrintQRCode | app.js:590-639 | Without the flag there is no export, only the error toast. Otherwise a print page of the canvas opens, titled in the page's language, or the blocked pop-up is reported. |

## Left out

- QR encoding (`QRCode.toCanvas`, `QRCode.toString`) and canvas drawing are foreign calls. Only their success or failure is modelled: the canvas records which payload it shows and whether the logo was drawn.
- The logo overlay geometry and image decoding (`addLogoToCanvas`) are floating point work on a host canvas. Only its success or failure is modelled.
- Logo upload and clearing (`handleLogoUpload`, `clearLogo`) are not modelled. Upload is asynchronous `FileReader` I/O, and clearing is a UI handler around `generateQRCode`.
- File names with `Date.now()`, Blob and object URLs, `execCommand`, and the print window's HTML and `onload` are not modelled. These platform sinks are recorded only as entries in the export log.
- Asynchrony is not modelled: the awaited encode, `toBlob` and the clipboard promise are treated as completing in order within the call.
- The toast timer and `debounce` are not modelled, because they are timer scheduling. Toasts are modelled as a log; their text is not.
- The DOM translation walk, the input show/hide of `updateInputFields`, and the mirroring of the loaded style settings into the form controls are not modelled, because they are DOM-only work.
- `applyTheme`'s fallback to `matchMedia` is not modelled. After a toggle the theme is always truthy, so the fallback is never reached from the modelled operations.
- The JSON grammar is not modelled: a stored entry is already parsed, or marked unparsable. JSON numbers are integers here, not floating point.
- WHATWG URL parsing and serialisation are abstract. `AddUtmIdempotent` assumes that serialisation parses back.
- Input sanitisation by the browser (for example of `type=email` inputs) is not modelled: an input's value is the string assigned to it.
- The page's `init` and event wiring are not modelled; `App.Session.constructor` gives the state before `loadSettings`.
- Strings here are sequences of Unicode scalar values, while JavaScript strings are UTF-16 code units, so a lone surrogate cannot be represented. Such a value can reach an input through a stored `contentSubject` that JSON.parse accepts (app.js:120). `encodeURIComponent` then throws a URIError (app.js:305) and getContent throws with it. That path is not modelled. In generateQRCode the throw comes at app.js:362, outside the `try`, and leaves the canvas, the `generated` flag and the toasts as they were. In downloadSVG it ends in the outer `catch` (app.js:541-544).
- App.Session.DownloadSvg: does not model the outer `catch` (app.js:541-544). The only input that reaches it, a subject with a lone surrogate, cannot be represented (see the line above).
