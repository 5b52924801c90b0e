# QR scanner app — a verified model of its local logic

This project models the client-side logic of a small React web app with three
parts: a QR **reader**, a QR **generator** and a **site header**. Decoding and
encoding of the QR images happen on a remote API and are not modelled. What is
modelled is everything the app itself decides:

- **Reader.** The camera decode loop's state machine: stream and interval
  handles, the "found" and "in flight" flags, the centred crop and the replies
  of the decode endpoint. Also the file upload checks, the payload
  classifier, and the scan history with its 60-second duplicate window,
  20-entry cap, removal, storage filter and persist step.
- **Older reader.** The older camera-only reader component
  (`src/Components/QrReader.jsx`) is modelled separately, with its
  differences.
- **Generator.** The `WIFI:` and `mailto:` payload builders, with an exact
  model of `encodeURIComponent` and its decoder. Also the create-QR URL
  builder, the appearance settings, the validation shared by the two
  generate buttons, the 50-entry history, its storage effects and the
  details dialog.
- **Generator form.** Its tabs, labels and placeholders, and its
  button-enable rules.
- **Panels.** The appearance panel (presets, current theme name, show-more
  toggle) and the history panel (relative times, "Clear All").
- **Header.** Its scroll behaviour: hide and show, shadow, progress bar, and
  the menu.

Module layout, one file each:

- `wrappers` — `Option`.
- `strings` — JavaScript `trim`, `join`, `split`, `replace` and `String(n)`.
- `uri_component` — `encodeURIComponent` and `decodeURIComponent`.
- `elapsed` — the time buckets.
- `sampler` — the decode reply, crop and blob rule.
- `scan_history`, `qr_reader`, `legacy_reader` — the reader.
- `generator_form`, `payloads`, `customize`, `stored_history`, `generator` — the generator.
- `header` — the header.

Components that change state in place are classes whose methods are the
event handlers:

- `QrReader.Reader`
- `LegacyReader.LegacyScanner`
- `QrGenerator.Generator`
- `Customize.CustomizePanel`
- `StoredHistory.HistoryPanel`
- `Header.HeaderState`

Pure rules are functions, with lemmas relating them.

How the outside world is represented:

- The clock is an `int` of milliseconds, passed in.
- ISO timestamps are their millisecond value.
- `localStorage` is a `map` from key to a stored-blob datatype: either
  unparseable, or the records it parses to.
- `confirm()` answers are `bool` parameters.
- `alert()` messages are returned as `Option<string>`.
- A network reply is a `DecodeReply` value or a `fetchOk` flag.
- Timers and streams are handles drawn from one counter. The classes keep
  sets of the live and open ones.

Some behaviour of the code that the lemmas make explicit:

- **A late decode reply still counts.** A reply that arrives after the
  camera stopped still publishes its data: `QrReader.Reader.OnDecodeReply`
  does not look at the camera state.
- **Restarting allows a second request.** `startCamera` and `handleClear`
  reset the in-flight flag while a request may still be outstanding, so two
  requests can be in flight at once (`QrReader.RestartWhileInFlight`).
- **Streams and timers leak.** Starting the camera twice leaks a stream. In
  the older reader, `startScanning` leaks an interval
  (`LegacyReader.TimerLeak`).
- **A corrupt generator history keeps its key as written.** The generator's
  load effect only logs a parse failure, and its save effect as written
  writes only a non-empty list, so the corrupt blob stays under its key
  (`Payloads.LoadGenerated` followed by `Payloads.SaveGeneratedAsWritten`).
  The class `QrGenerator.Generator` runs the corrected save (see Findings),
  which removes the key when the loaded list is empty. The reader removes a
  corrupt blob itself.

## Model

| member | source | states |
|---|---|---|
| Strings.Trim | src/Components/QrGenerator/QrGenerator.jsx:77 | `trim()` is empty exactly when the string is all JavaScript whitespace; otherwise it starts and ends with a non-space |
| Strings.TrimIsInfix | src/Components/QrGenerator/QrGenerator.jsx:91 | the trimmed string is a contiguous slice of the input, with only whitespace cut away on either side |
| Strings.TrimIdempotent | src/Components/QrGenerator/QrGenerator.jsx:94 | trimming an already trimmed string changes nothing |
| Strings.Join | src/Components/QrGenerator/QrGenerator.jsx:103 | joining no parts gives "", one part gives that part, and a join always starts with its first part |
| Strings.SplitJoin | src/Components/QrGenerator/QrGenerator.jsx:103 | splitting a `join` on the same one-character separator gives back the parts when none contains it |
| Strings.NatToStringRoundTrip | src/Components/QrReader/QrReader.jsx:302 | the decimal text of a count reads back as that count |
| UriComponent.Encode | src/Components/QrGenerator/QrGenerator.jsx:95 | `encodeURIComponent` output holds only unreserved characters and `%` (the hex digits are unreserved), and is never shorter than its input |
| UriComponent.Utf8RoundTrip | src/Components/QrGenerator/QrGenerator.jsx:95 | the UTF-8 bytes of a character announce their own length and decode back to that character |
| UriComponent.DecodeEncodedChar | src/Components/QrGenerator/QrGenerator.jsx:95 | decoding reads one encoded character back and carries on with the rest of the text |
| UriComponent.DecodeEncode | src/Components/QrGenerator/QrGenerator.jsx:95 | `decodeURIComponent(encodeURIComponent(s)) == s` for every string |
| UriComponent.EncodeInjective | src/Components/QrGenerator/QrGenerator.jsx:112 | different payloads never get the same `data=` value |
| UriComponent.EncodeUnreserved | src/Components/QrGenerator/QrGenerator.jsx:112 | a payload of unreserved characters is put in the URL as it is |
| UriComponent.EncodedHasNoDelimiters | src/Components/QrGenerator/QrGenerator.jsx:112 | an encoded value never holds `&`, `=`, `?`, `#` or a space, so it cannot break the query |
| Sampler.DecodedText | src/Components/QrReader/QrReader.jsx:513-520 | the reply yields text exactly when `res.data[0].symbol[0].data` is present and non-empty; a transport error never yields text |
| Sampler.CenterCrop | src/Components/QrReader/QrReader.jsx:396-401 | the capture square's side is the given fraction of the smaller frame side; it is no larger than that side, lies inside the frame and is centred, with equal margins on both sides of each axis |
| Sampler.CropFraction | src/Components/QrReader/QrReader.jsx:392-396 | the crop is 45% from a 768 px viewport up and 65% below it |
| ScanHistory.FirstMatchingRule | src/Components/QrReader/QrReader.jsx:237-244 | the result is Text or the type of a rule one of whose prefixes the data starts with |
| ScanHistory.DetectQrType | src/Components/QrReader/QrReader.jsx:237-244 | URL exactly when the data starts `http://` or `https://`; WiFi, Email, Phone and Contact only with `WIFI:`, `mailto:`, `tel:` and `BEGIN:VCARD` at the start; Text exactly when none of the six prefixes is there |
| ScanHistory.DetectQrTypeIsFirstMatch | src/Components/QrReader/QrReader.jsx:237-244 | `detectQRType` equals the first-match reading of the table (http/https → URL, WIFI: → WiFi, mailto: → Email, tel: → Phone, BEGIN:VCARD → Contact, else Text) |
| ScanHistory.DetectQrTypeReadsOnlyPrefix | src/Components/QrReader/QrReader.jsx:237-244 | the type depends only on the first 11 characters |
| ScanHistory.DetectQrTypeIsCaseSensitive | src/Components/QrReader/QrReader.jsx:238-242 | `HTTP://…`, `wifi:…` and `MAILTO:…` are Text |
| ScanHistory.NewScan | src/Components/QrReader/QrReader.jsx:250-255 | the new entry takes the clock for both id and time, keeps the data, and is labelled with the data's detected type; non-empty data at a non-zero time gives a savable entry |
| ScanHistory.IsRecentDuplicate | src/Components/QrReader/QrReader.jsx:259-262 | a scan is a duplicate exactly when some entry already holds the same data and is less than 60 s old; an empty history has none |
| ScanHistory.AddScan | src/Components/QrReader/QrReader.jsx:247-272 | empty data and a same-data entry younger than 60 s leave the list as is; otherwise the new scan goes first, the old entries follow in order, and the list is cut to 20 |
| ScanHistory.DuplicateWindowIsStrict | src/Components/QrReader/QrReader.jsx:259-262 | the same data 59 999 ms later is ignored, 60 000 ms later it is saved |
| ScanHistory.AddScanKeepsInvariant | src/Components/QrReader/QrReader.jsx:247-272 | adding at a non-decreasing, non-zero time keeps the list at most 20 long, newest first, free of near duplicates and made of savable records |
| ScanHistory.RemoveScan | src/Components/QrReader/QrReader.jsx:283-289 | `filter(item => item.id !== id)`: exactly the entries with another id remain, as a subsequence of the old list, one fewer for every entry that had the id |
| ScanHistory.RemoveScanKeepsInvariant | src/Components/QrReader/QrReader.jsx:283-289 | removal keeps the history invariant |
| ScanHistory.ValidRecords | src/Components/QrReader/QrReader.jsx:225-227 | the load filter keeps every truthy record (id, data, timestamp present), and only savable ones |
| ScanHistory.TruthyPositions | src/Components/QrReader/QrReader.jsx:225-227 | the positions of the truthy records, each truthy position once, in increasing order |
| ScanHistory.ValidRecordsIsFilter | src/Components/QrReader/QrReader.jsx:225-227 | the load filter gives, in order, exactly one entry per truthy record: the k-th kept entry is the record at the k-th truthy position |
| ScanHistory.ValidRecordsAppend | src/Components/QrReader/QrReader.jsx:225-227 | filtering two lists joined is the two filtered lists joined |
| ScanHistory.LoadScans | src/Components/QrReader/QrReader.jsx:220-234 | no key loads nothing; a text that is not an array loads nothing and removes the key; an array loads its filtered records and leaves storage alone |
| ScanHistory.PersistScans | src/Components/QrReader/QrReader.jsx:636-647 | a non-empty list is written under `qrScanHistory`, an empty one removes the key, other keys are untouched |
| ScanHistory.ValidRecordsOfSaved | src/Components/QrReader/QrReader.jsx:225-227 | the load filter gives back any list of savable entries that was written |
| ScanHistory.PersistThenLoad | src/Components/QrReader/QrReader.jsx:636-647 | a persisted non-empty history loads back unchanged; an empty one leaves no key |
| ScanHistory.LoadDropsRecordWithoutTimestamp | src/Components/QrReader/QrReader.jsx:225-227 | one good record and one without a timestamp load as just the good one |
| ScanHistory.ReaderAge | src/Components/QrReader/QrReader.jsx:292-305 | the bucket is decided by the elapsed milliseconds (60 000, 3 600 000, 86 400 000, 7 days), and the count equals the floored quotient even though it is derived stepwise |
| ScanHistory.FormatTimestamp | src/Components/QrReader/QrReader.jsx:301-305 | "Just now" under a minute, the locale date from 7 days, and otherwise the bucket's count followed by " min", " hour" or " day", with an "s" when the count is above one, and " ago" |
| ScanHistory.IsUrl | src/Components/QrReader/QrReader.jsx:323-341 | data is offered as a link exactly when it is present and the classifier calls it a URL, or it starts `www.`, or it ends in one of the eleven listed domains; no data and empty data never are |
| ScanHistory.PlainTextIsNotUrl | src/Components/QrReader/QrReader.jsx:323-341 | plain text such as "hello" is not offered as a link |
| ScanHistory.UrlTypeIsUrl | src/Components/QrReader/QrReader.jsx:323-341 | data classified as URL is always offered as a link |
| QrReader.Reader.constructor | src/Components/QrReader/QrReader.jsx:630-633 | mounting starts in upload mode with nothing held and loads the history from storage |
| QrReader.Reader.StartCamera | src/Components/QrReader/QrReader.jsx:344-364 | clears data and both flags; granted, the error is cleared, a new stream replaces the held one, which stays open, and a start of scanning is scheduled; denied, the permission error is set and no stream opens |
| QrReader.Reader.OpenStream | src/Components/QrReader/QrReader.jsx:351-360 | the granted stream gets a fresh handle and is held; the earlier stream is not stopped |
| QrReader.Reader.StopCamera | src/Components/QrReader/QrReader.jsx:367-377 | the held interval is cleared, the held stream stopped, both refs emptied; nothing else changes |
| QrReader.Reader.StartScanning | src/Components/QrReader/QrReader.jsx:380-385 | the running interval is cleared before the new one starts, so exactly one runs |
| QrReader.Reader.Tick | src/Components/QrReader/QrReader.jsx:385-502 | a frame is sent exactly when nothing is found or in flight, the video has both dimensions, the overlay is attached and the crop has pixels; sending marks a request in flight |
| QrReader.Reader.OnDecodeReply | src/Components/QrReader/QrReader.jsx:507-523 | text publishes the data, sets found and stops the camera; anything else only clears the in-flight flag |
| QrReader.FileAccepted | src/Components/QrReader/QrReader.jsx:530-538 | a chosen file is accepted when its type starts with `image/` and it is at most 5 MiB; no file, a type not starting with `image/`, or a larger file is refused |
| QrReader.Reader.HandleFile | src/Components/QrReader/QrReader.jsx:529-545 | a missing or non-image file and a file over 5 MiB only set their error; an accepted file stops the camera, shows the preview and sends the upload |
| QrReader.Reader.AcceptFile | src/Components/QrReader/QrReader.jsx:540-553 | upload mode, cleared error and data, the preview shown, loading set, camera stopped, one upload pending |
| QrReader.Reader.OnUploadReply | src/Components/QrReader/QrReader.jsx:556-566 | text is published; a reply without text sets "No QR code found in the image"; a transport error sets the retry message; loading ends in every case |
| QrReader.Reader.SaveButton | src/Components/QrReader/QrReader.jsx:569-576 | with no data the error is set and the history kept; otherwise the history becomes `AddScan` of the data and the error is cleared |
| QrReader.Reader.HandleClear | src/Components/QrReader/QrReader.jsx:616-627 | data, error, preview, loading and both flags are reset; camera handles and history are untouched |
| QrReader.Reader.ClearHistory | src/Components/QrReader/QrReader.jsx:276-280 | the history is emptied only when confirmed |
| QrReader.Reader.RemoveFromHistory | src/Components/QrReader/QrReader.jsx:283-289 | the history becomes `RemoveScan` of the id |
| QrReader.Reader.PersistHistory | src/Components/QrReader/QrReader.jsx:635-656 | storage becomes `PersistScans` of the current history |
| QrReader.ScanToCompletion | src/Components/QrReader/QrReader.jsx:385-525 | on a 1280×720 frame the first tick sends the 324 px centre crop at (478, 198), a tick while it is in flight sends nothing, and the reply's text is published with the interval cleared and the stream stopped |
| QrReader.RestartWhileInFlight | src/Components/QrReader/QrReader.jsx:344-364 | restarting the camera while a frame is in flight lets a second request out and leaves two streams open |
| QrReader.UploadSizeBoundary | src/Components/QrReader/QrReader.jsx:535-538 | exactly 5 242 880 bytes is accepted, one byte more gets the size error |
| LegacyReader.LegacyIsUrl | src/Components/QrReader.jsx:115 | a link exactly when the data is present and its first four characters are `http`; everything the newer classifier calls a URL is a link |
| LegacyReader.LegacyIsUrlComparedToDetect | src/Components/QrReader.jsx:115 | everything the newer classifier calls a URL is a link here, but `httpbin` is a link here and Text there |
| LegacyReader.ZeroHeightSendsNothing | src/Components/QrReader.jsx:74-86 | a frame with a width but no height, which the width-only check lets through, gets an empty crop, so no blob is produced and nothing is sent |
| LegacyReader.LegacyScanner.constructor | src/Components/QrReader.jsx:4-15 | nothing held, both flags down, no result |
| LegacyReader.LegacyScanner.StartCamera | src/Components/QrReader.jsx:23-44 | clears error and both flags but keeps the last result; granted, a new stream is held and a start of scanning scheduled |
| LegacyReader.LegacyScanner.StopCamera | src/Components/QrReader.jsx:46-58 | only the interval and stream the refs hold are stopped |
| LegacyReader.LegacyScanner.StartScanning | src/Components/QrReader.jsx:61-62 | a new interval starts and the previous one keeps running |
| LegacyReader.LegacyScanner.Tick | src/Components/QrReader.jsx:62-88 | a frame is sent exactly when nothing is found or in flight, the width is non-zero and the 45% crop has pixels |
| LegacyReader.LegacyScanner.OnDecodeReply | src/Components/QrReader.jsx:93-110 | text publishes, sets found and stops the camera; anything else clears the in-flight flag |
| LegacyReader.TimerLeak | src/Components/QrReader.jsx:61-62 | two camera starts and a stop leave one interval running and one stream open |
| GeneratorForm.TabName | src/Components/QrGenerator/QrGene-Form.jsx:10-16 | each tab carries one of the five names, and WIFI, EMAIL and DATA name exactly their tabs |
| GeneratorForm.PlaceholderText | src/Components/QrGenerator/QrGene-Form.jsx:18-33 | unknown tabs get the default; only EMAIL has an empty placeholder |
| GeneratorForm.LabelText | src/Components/QrGenerator/QrGene-Form.jsx:35-50 | unknown tabs get "Input Data" |
| GeneratorForm.TabLabelsDistinct | src/Components/QrGenerator/QrGene-Form.jsx:35-50 | the five tabs have five different labels, none the default |
| GeneratorForm.TabPlaceholdersDistinct | src/Components/QrGenerator/QrGene-Form.jsx:18-33 | the five tabs have five different placeholders, none the default |
| GeneratorForm.RequiredFieldBlank | src/Components/QrGenerator/QrGene-Form.jsx:243-245 | on the email tab the recipient, on the WiFi tab the network name, on any other tab the input is the one field that counts, and it is blank when it is all whitespace |
| GeneratorForm.GenerateDisabled | src/Components/QrGenerator/QrGene-Form.jsx:242-245 | the Generate button is disabled exactly while generating or when the tab's required field is blank |
| GeneratorForm.DownloadDisabled | src/Components/QrGenerator/QrGene-Form.jsx:269-272 | the "Generate & Save" button is disabled exactly while downloading or when the tab's required field is blank |
| GeneratorForm.ButtonsDisabledByRequiredField | src/Components/QrGenerator/QrGene-Form.jsx:242-246 | each button is disabled exactly when its busy flag is set or the current tab's required field is blank; the two expressions agree |
| GeneratorForm.OtherFieldsDoNotDisable | src/Components/QrGenerator/QrGene-Form.jsx:242-245 | a blank input does not disable the email or WiFi tab, but does disable the text tab |
| Payloads.WifiPayload | src/Components/QrGenerator/QrGenerator.jsx:76-83 | the payload is empty exactly when the network name is blank |
| Payloads.WifiPayloadIsFieldList | src/Components/QrGenerator/QrGenerator.jsx:82 | the payload is `WIFI:` and the S, T, optional P and two empty fields joined by `;` |
| Payloads.ParseWifiFields | src/Components/QrGenerator/QrGenerator.jsx:82 | that field list reads back as its network when no field holds `;` |
| Payloads.WifiRoundTrip | src/Components/QrGenerator/QrGenerator.jsx:76-83 | a named network without `;` in its fields reads back from its payload |
| Payloads.WifiPayloadShape | src/Components/QrGenerator/QrGenerator.jsx:81-82 | with a password the payload ends `;P:<password>;;`, without one `;;` |
| Payloads.WifiPayloadExample | src/Components/QrGenerator/QrGenerator.jsx:81-82 | MyNet/secret/WPA gives `WIFI:S:MyNet;T:WPA;P:secret;;` |
| Payloads.WifiPayloadOpenNetworkExample | src/Components/QrGenerator/QrGenerator.jsx:81 | no password leaves the `P:` field out |
| Payloads.WifiPayloadBlankExample | src/Components/QrGenerator/QrGenerator.jsx:77-79 | a name of spaces and tabs gives no payload |
| Payloads.WifiPayloadNotInjective | src/Components/QrGenerator/QrGenerator.jsx:82 | without escaping, a name holding `;T:…;P:…` forges the payload of another network |
| Payloads.MailtoParams | src/Components/QrGenerator/QrGenerator.jsx:92-100 | one field for each of a non-empty subject and body, the encoded subject first and the encoded body last, none holding `&` |
| Payloads.MailtoUri | src/Components/QrGenerator/QrGenerator.jsx:91-104 | the URI starts `mailto:<to>`, and without fields it is exactly that |
| Payloads.EmailPayload | src/Components/QrGenerator/QrGenerator.jsx:86-107 | empty exactly when the recipient is blank |
| Payloads.SubjectLookup | src/Components/QrGenerator/QrGenerator.jsx:94-96 | the `subject` value is the encoded subject, absent when it is empty |
| Payloads.BodyLookup | src/Components/QrGenerator/QrGenerator.jsx:98-100 | the `body` value is the encoded body, absent when it is empty |
| Payloads.ParamLookups | src/Components/QrGenerator/QrGenerator.jsx:94-100 | both values decode back to the subject and body; an absent one reads as empty |
| Payloads.ParseMailtoUri | src/Components/QrGenerator/QrGenerator.jsx:102-104 | a URI over `&`-free fields reads back as its recipient and the fields' decoded values |
| Payloads.MailtoRoundTrip | src/Components/QrGenerator/QrGenerator.jsx:91-104 | for a recipient without `?` the URI reads back as recipient, subject and body |
| Payloads.EmailRoundTrip | src/Components/QrGenerator/QrGenerator.jsx:86-107 | the payload reads back as the trimmed recipient, subject and body |
| Payloads.EmailPayloadSubjectOnly | src/Components/QrGenerator/QrGenerator.jsx:91-104 | an unpadded recipient and unreserved subject give `mailto:<to>?subject=<subject>` |
| Payloads.ResetDiffersFromInitialOnlyInMargin | src/Components/QrGenerator/QrGenerator.jsx:418-428 | the reset settings are the initial ones with margin "4" in place of "1" |
| Payloads.WithTheme | src/Components/QrGenerator/QrGenerator.jsx:398-405 | both colours set, transparency off, every other setting kept |
| Payloads.WithMargin | src/Components/QrGenerator/QrGenerator.jsx:407-413 | the margin set, margins on exactly unless it is "0", every other setting kept |
| Payloads.UpdatesCommute | src/Components/QrGenerator/QrGenerator.jsx:398-413 | the theme and margin updates commute, and each is idempotent |
| Payloads.MarginParam | src/Components/QrGenerator/QrGenerator.jsx:123 | the URL's margin is "0" exactly when margins are off or the chosen margin is "0"; any other value is the chosen margin |
| Payloads.BackgroundParam | src/Components/QrGenerator/QrGenerator.jsx:116-120 | `transparent` for a transparent background; otherwise the colour with a leading `#` dropped, or unchanged when it holds none |
| Payloads.QrUrlParams | src/Components/QrGenerator/QrGenerator.jsx:110-125 | seven parameters; the data one carries the percent-encoded data, the margin one the chosen margin (0 without margin) |
| Payloads.QrUrlParamsNamed | src/Components/QrGenerator/QrGenerator.jsx:110-125 | the parameters are named size, data, format, color, bgcolor, margin and qzone, in that order |
| Payloads.TransparentBackgroundParam | src/Components/QrGenerator/QrGenerator.jsx:116-117 | a transparent background is asked for as `bgcolor=transparent`, whatever the background colour |
| Payloads.BuildQrUrl | src/Components/QrGenerator/QrGenerator.jsx:110-127 | every URL starts with the create-QR endpoint |
| Payloads.ParamsHaveNoAmpersand | src/Components/QrGenerator/QrGenerator.jsx:110-127 | with `&`-free size, colours and margin, none of the seven parameters holds `&` |
| Payloads.DataParamDecodes | src/Components/QrGenerator/QrGenerator.jsx:112 | the `data` parameter decodes back to the payload |
| Payloads.BuildQrUrlQuery | src/Components/QrGenerator/QrGenerator.jsx:110-127 | the query splits on `&` into exactly the parameters size, data, format, color, bgcolor, margin and qzone, and its data decodes back to the payload |
| Payloads.ExampleColors | src/Components/QrGenerator/QrGenerator.jsx:115-123 | the initial settings ask for color 000000, bgcolor FFFFFF, margin 1 |
| Payloads.ExampleParams | src/Components/QrGenerator/QrGenerator.jsx:110-127 | the parameters for "hello" at 250 px with the initial settings, written out |
| Payloads.BuildQrUrlExample | src/Components/QrGenerator/QrGenerator.jsx:110-127 | that URL starts with the endpoint and its query is that parameter list |
| Payloads.MarginParamIsChosenMargin | src/Components/QrGenerator/QrGenerator.jsx:123 | after choosing a margin the URL asks for exactly it, "0" included |
| Payloads.ThemeColorsReachUrl | src/Components/QrGenerator/QrGenerator.jsx:115-121 | after a theme the URL carries its colours without the first `#`, never a transparent background |
| Payloads.Validate | src/Components/QrGenerator/QrGenerator.jsx:182-204 | accepted data is never empty; a refusal carries the WiFi, email or input alert of its tab; outside WiFi and email the input is accepted exactly when not all whitespace, untrimmed |
| Payloads.ValidateCases | src/Components/QrGenerator/QrGenerator.jsx:182-204 | WiFi is refused exactly on a blank name, email on a blank recipient, others on a blank input, with their alerts; accepted data is non-empty, and the raw input outside WiFi and email |
| Payloads.ValidateAgreesWithButtons | src/Components/QrGenerator/QrGenerator.jsx:182-204 | validation refuses exactly when each button's disabled expression, busy flag aside, holds |
| Payloads.Preview | src/Components/QrGenerator/QrGenerator.jsx:165 | a text up to 50 characters is its own preview; a longer one is its first 50 and "..." |
| Payloads.HistoryDetails | src/Components/QrGenerator/QrGenerator.jsx:147-180 | as written: EMAIL, WIFI, LINK and TEXT get their own kind of details and the tab "MORE" data details, each holding the form's fields for that tab (the WiFi ones whether a password was given, the input ones a preview); every other tab, DATA included, gets none |
| Payloads.CorrectedHistoryDetails | src/Components/QrGenerator/QrGenerator.jsx:172 | corrected: only DATA differs from the as-written details, DATA and "MORE" get data details holding the input and its preview, and only a tab outside the form (other than "MORE") gets none |
| Payloads.DataTabGetsNoDetails | src/Components/QrGenerator/QrGenerator.jsx:172 | as written, a DATA item gets no details |
| Payloads.CorrectedDetailsCoverEveryTab | src/Components/QrGenerator/QrGenerator.jsx:147-180 | corrected, every tab gets details and DATA keeps its input |
| Payloads.NewItem | src/Components/QrGenerator/QrGenerator.jsx:130-140 | the new item takes the clock for both id and time and keeps the tab, data, size, URL and settings; every tab of the form gets details, an unknown tab (other than the stray "MORE") none |
| Payloads.AddGenerated | src/Components/QrGenerator/QrGenerator.jsx:130-144 | the new item first, then the first 49 previous items in order |
| Payloads.AddManyStaysCapped | src/Components/QrGenerator/QrGenerator.jsx:142 | however many items are added, the list stays at 50 or fewer and the latest is first |
| Payloads.RemoveGenerated | src/Components/QrGenerator/QrGenerator.jsx:392 | exactly the items with another id remain, as a subsequence of the old list, one fewer for every item that had the id |
| Payloads.PasswordLine | src/Components/QrGenerator/QrGenerator.jsx:434-435 | never empty: the saved password when there is one, otherwise "Password exists but not shown" or "No password" by the saved flag, and "No password" for details that are not WiFi details |
| Payloads.InfoText | src/Components/QrGenerator/QrGenerator.jsx:433-458 | as written: "Unknown QR type" exactly for a type other than WIFI, EMAIL, LINK, TEXT and "MORE"; each of those gets a text that starts with its own heading |
| Payloads.CorrectedInfoText | src/Components/QrGenerator/QrGenerator.jsx:450 | corrected: only DATA items differ from the as-written dialog, they get the "Data: " text, and "Unknown QR type" is left for types outside the form (other than "MORE") |
| Payloads.DataItemInfoIsUnknown | src/Components/QrGenerator/QrGenerator.jsx:450-455 | as written, the dialog for a DATA item says "Unknown QR type" |
| Payloads.CorrectedDataItemInfoShowsData | src/Components/QrGenerator/QrGenerator.jsx:450-452 | corrected, a recorded DATA item's dialog shows its data |
| Payloads.WifiInfoShowsNetwork | src/Components/QrGenerator/QrGenerator.jsx:434-438 | a WiFi item's dialog names the network, the password and the encryption |
| Payloads.LoadGenerated | src/Components/QrGenerator/QrGenerator.jsx:42-51 | the stored items load when the key is present and parses; otherwise nothing loads |
| Payloads.SaveGeneratedAsWritten | src/Components/QrGenerator/QrGenerator.jsx:54-58 | as written, a non-empty list is written and an empty one leaves storage as it was |
| Payloads.SaveGenerated | src/Components/QrGenerator/QrGenerator.jsx:54-58 | corrected, an empty list removes the key; other keys are untouched |
| Payloads.DeletedLastItemReappears | src/Components/QrGenerator/QrGenerator.jsx:54-58 | as written, deleting the only item and reloading brings it back |
| Payloads.SavedHistoryReloads | src/Components/QrGenerator/QrGenerator.jsx:54-58 | corrected, a reload always shows the list last saved |
| Customize.MarginOptionValues | src/Components/QrGenerator/QrGene-Customize.jsx:9-14 | the margin options are 0, 1, 4 and 8, in that order |
| Customize.FindPreset | src/Components/QrGenerator/QrGene-Customize.jsx:34-37 | `find` returns the first preset matching both colours, none when no preset matches |
| Customize.CurrentThemeName | src/Components/QrGenerator/QrGene-Customize.jsx:33-39 | the name is empty exactly when no preset matches, else the name of a matching preset |
| Customize.PresetForegroundsDistinct | src/Components/QrGenerator/QrGene-Customize.jsx:19-30 | no two presets share a foreground colour |
| Customize.AtMostOnePresetMatches | src/Components/QrGenerator/QrGene-Customize.jsx:96-97 | at most one preset button is highlighted |
| Customize.ApplyingPresetNamesIt | src/Components/QrGenerator/QrGene-Customize.jsx:94 | after clicking a preset the panel shows its name |
| Customize.ShownPresets | src/Components/QrGenerator/QrGene-Customize.jsx:91 | `slice(0, 12 or 5)` shows all ten presets or the first five |
| Customize.ShownPresetsCover | src/Components/QrGenerator/QrGene-Customize.jsx:91 | expanded shows every preset; collapsed still shows the initial theme |
| Customize.ToggleLabel | src/Components/QrGenerator/QrGene-Customize.jsx:42-48 | "Less" exactly when expanded, "More" exactly when not |
| Customize.CustomizePanel.constructor | src/Components/QrGenerator/QrGene-Customize.jsx:16 | starts collapsed with "More" |
| Customize.CustomizePanel.ToggleShowMore | src/Components/QrGenerator/QrGene-Customize.jsx:42-48 | the flag flips and the label follows the new value |
| Customize.CustomizePanel.Shown | src/Components/QrGenerator/QrGene-Customize.jsx:91 | ten presets expanded, five collapsed |
| Customize.ToggleTwice | src/Components/QrGenerator/QrGene-Customize.jsx:42-48 | two clicks restore flag and label |
| Customize.MarginClickAsWritten | src/Components/QrGenerator/QrGene-Customize.jsx:148 | as written, a margin click always throws |
| Customize.CorrectedMarginClick | src/Components/QrGenerator/QrGene-Customize.jsx:148 | corrected, a click is applied: the URL's margin becomes the chosen value, the margin switch is on unless the value is "0", and every other setting stays |
| Customize.MarginClickIsLost | src/Components/QrGenerator/QrGene-Customize.jsx:145-148 | as written, no option's click changes the settings |
| Customize.CorrectedMarginClickReachesUrl | src/Components/QrGenerator/QrGene-Customize.jsx:145-148 | corrected, each option becomes the URL's margin |
| StoredHistory.GeneratorAge | src/Components/QrGenerator/QrGene-Stored-History.jsx:8-22 | the bucket boundaries and that each count is the floored elapsed time in its unit, from 1 up to the next unit |
| StoredHistory.FormatTime | src/Components/QrGenerator/QrGene-Stored-History.jsx:16-21 | "Just now", "<n> min ago" without plural, "<n> hour(s) ago" and "<n> day(s) ago" with an "s" above one, or the locale date |
| StoredHistory.FormatTimeShowsCount | src/Components/QrGenerator/QrGene-Stored-History.jsx:17-19 | a card's text starts with the bucket's count, which is at least 1 |
| StoredHistory.GeneratorAgeMonotone | src/Components/QrGenerator/QrGene-Stored-History.jsx:8-22 | a later time never lands in an earlier bucket or a smaller count |
| StoredHistory.GeneratorAgeIsReaderAge | src/Components/QrGenerator/QrGene-Stored-History.jsx:12-14 | direct division agrees with the reader's stepwise division in bucket and count |
| StoredHistory.HistoryPanel.constructor | src/Components/QrGenerator/QrGene-Stored-History.jsx:6 | the panel holds the history and storage it is given |
| StoredHistory.HistoryPanel.ClearHistory | src/Components/QrGenerator/QrGene-Stored-History.jsx:23-30 | nothing happens on an empty list or a declined confirm; otherwise the list empties and the key goes |
| StoredHistory.ClearAfterLastDelete | src/Components/QrGenerator/QrGene-Stored-History.jsx:23-30 | with the save effect as written, after the last item is deleted "Clear All" cannot remove the stale key |
| QrGenerator.Generator.constructor | src/Components/QrGenerator/QrGenerator.jsx:9-51 | the initial state (TEXT tab, size 270, WPA, initial settings), then the loaded history, then the save effect |
| QrGenerator.Generator.SaveEffect | src/Components/QrGenerator/QrGenerator.jsx:54-58 | storage becomes the corrected `SaveGenerated` of the history |
| QrGenerator.Generator.ClickTab | src/Components/QrGenerator/QrGenerator.jsx:61-73 | the tab is set and the input cleared; on a real change WiFi fields clear unless WiFi, email fields unless email; encryption is kept |
| QrGenerator.Generator.TypeInput | src/Components/QrGenerator/QrGenerator.jsx:515 | only the input changes |
| QrGenerator.Generator.TypeWifi | src/Components/QrGenerator/QrGenerator.jsx:474-484 | only the WiFi fields change |
| QrGenerator.Generator.TypeEmail | src/Components/QrGenerator/QrGenerator.jsx:461-471 | only the email fields change |
| QrGenerator.Generator.ChooseSize | src/Components/QrGenerator/QrGenerator.jsx:522 | only the size changes |
| QrGenerator.Generator.GenerateQrCode | src/Components/QrGenerator/QrGenerator.jsx:182-214 | a refused form only returns its alert; an accepted one sets the spinner and captures the data and state for the timer |
| QrGenerator.Generator.StartGeneration | src/Components/QrGenerator/QrGenerator.jsx:206-208 | the spinner is on and the snapshot pending |
| QrGenerator.Generator.OnGenerateTimer | src/Components/QrGenerator/QrGenerator.jsx:208-213 | URL and item are built from the captured state, and the history is the captured one with the item first |
| QrGenerator.Generator.Publish | src/Components/QrGenerator/QrGenerator.jsx:142-143 | the URL shown, the history set and saved |
| QrGenerator.Generator.Record | src/Components/QrGenerator/QrGenerator.jsx:289-291 | the URL from the current state, the history with the new item first, storage saved |
| QrGenerator.Generator.HandleOneClickDownload | src/Components/QrGenerator/QrGenerator.jsx:262-328 | refused: the alert and nothing else changes; accepted: URL set and item recorded at once, the spinner ends, and a failed fetch gives the failure alert |
| QrGenerator.Generator.DownloadAccepted | src/Components/QrGenerator/QrGenerator.jsx:286-327 | the accepted branch: URL, history, storage, spinner and alert as above |
| QrGenerator.Generator.DownloadQrCode | src/Components/QrGenerator/QrGenerator.jsx:217-259 | with no URL the "generate first" alert; otherwise the fetch outcome decides the alert and the spinner ends |
| QrGenerator.Generator.DeleteHistoryItem | src/Components/QrGenerator/QrGenerator.jsx:389-396 | confirmed, the items with other ids stay and storage is saved; declined, nothing changes |
| QrGenerator.Generator.HandleThemeChange | src/Components/QrGenerator/QrGenerator.jsx:398-405 | the settings become `WithTheme` of the old ones |
| QrGenerator.Generator.HandleMarginChange | src/Components/QrGenerator/QrGenerator.jsx:407-413 | the settings become `WithMargin` of the old ones |
| QrGenerator.Generator.ResetCustomization | src/Components/QrGenerator/QrGenerator.jsx:416-431 | confirmed, the reset settings; declined, unchanged |
| QrGenerator.DeleteDuringGeneration | src/Components/QrGenerator/QrGenerator.jsx:208-213 | an item deleted while a generation is pending comes back when the timer fires |
| QrGenerator.DeleteLastThenReload | src/Components/QrGenerator/QrGenerator.jsx:54-58 | with the corrected save, deleting the only item and remounting shows an empty history |
| QrGenerator.LeaveWifiTab | src/Components/QrGenerator/QrGenerator.jsx:61-73 | leaving WiFi for TEXT blanks name and password but keeps the encryption choice |
| Header.ScrollProgress | src/Components/Header/Header.jsx:56 | the bar is within 0–100, 0 at or above the top, 100 from 300 px, and y/3 in between |
| Header.ProgressMonotone | src/Components/Header/Header.jsx:56 | scrolling further never shrinks the bar |
| Header.NextVisible | src/Components/Header/Header.jsx:27-52 | going down hides only on a step over 10 px past 50 px; going up shows on a step over 10 px or under 50 px |
| Header.DirectionDecidesChange | src/Components/Header/Header.jsx:27-52 | scrolling down never shows the header, scrolling up never hides it |
| Header.HeaderState.constructor | src/Components/Header/Header.jsx:10-17 | closed, unscrolled, visible, direction up, progress 0, at the top |
| Header.HeaderState.HandleScroll | src/Components/Header/Header.jsx:23-59 | direction, visibility, shadow and bar follow the new position, which is recorded; the menu is untouched |
| Header.HeaderState.HandleLinkClick | src/Components/Header/Header.jsx:86-89 | the header shows and the menu closes |
| Header.HeaderState.CloseMenu | src/Components/Header/Header.jsx:160 | the overlay closes the menu |
| Header.HeaderState.ToggleMenu | src/Components/Header/Head-Mobile-Menu-Btn.jsx:16-19 | the menu flips and the header shows |
| Header.HideAndShow | src/Components/Header/Header.jsx:23-59 | 100 px down hides the header, 20 px back up shows it, and the bar stands at 80/3 |
| Header.SlowScrollKeepsHeader | src/Components/Header/Header.jsx:34 | 10 px steps down to 500 px never hide the header |

## Left out

- Notifications, styles and icons are not modelled. Toasts (`showNotification` in both reader and generator), injected animation styles and icon choice are DOM presentation with no effect on the state.
- Canvas overlay drawing is not modelled (src/Components/QrReader/QrReader.jsx:413-498). Only its early return when the overlay has no parent is kept, as `overlayDetached`.
- Share and copy are not modelled: `handleShare`, `handleCopy`, `shareQRCode` and `copyQRCodeToClipboard`. They call the clipboard and `navigator.share` and change at most a two-second "copied" flag.
- Fetching, blobs and download links are not modelled. A download is reduced to a `fetchOk` flag, and the file name from `Date.now()` is not modelled.
- The remote decode and encode endpoints are not modelled. Their replies are `DecodeReply` parameters.
- Timing is collapsed. `setTimeout` and `requestIdleCallback` delays (600/800 ms start, 500 ms generate, 300 ms download wait, idle persist) become separate events (`StartScanning`, `OnGenerateTimer`, `PersistHistory`) or are atomic. Interleavings other than event order are not modelled.
- JSON parsing and serialisation are not modelled. A stored blob is a datatype: unparseable, or its records. The generator trusts whatever array it parses, and the model gives it well-formed items.
- Dates are not modelled: ISO strings and `Date` are their millisecond value, and `toLocaleDateString()` is a string parameter. The `catch` returning "Unknown" in `formatTimestamp` cannot be reached with that representation.
- Lone UTF-16 surrogates are not modelled. `encodeURIComponent` throws on them, but Dafny strings hold Unicode scalar values, so they cannot occur.
- Drag and drop (`handleDrop`, `handleDragOver`) is not modelled separately: it only passes the first file to `handleFile`, which is modelled.
- The rest of the header is not modelled: the body scroll-lock effect, the navigation items, re-subscribing the scroll listener on each direction change, and using `location` for the active link. Scroll positions are exact reals, not doubles.
- The generator's form fields are one `FormFields` record, so a handler's update is a record update. `selectedHistoryItem`, which is never set, is left out.
- src/Components/QrGenerator/QrGene-history is not part of this model. The history panel is modelled from src/Components/QrGenerator/QrGene-Stored-History.jsx, which takes the same props.
- The stale closure is modelled only for the generate timer (`QrGenerator.DeleteDuringGeneration`). Other handlers read the state as it is when they run.
- Payloads.Preview: the length test and the 50-character cut count Unicode scalar values, not UTF-16 code units. JavaScript counts a character outside the Basic Multilingual Plane (an emoji, say) as two units, so for 26 such characters it keeps 25 and appends "...", while the model keeps all 26. After an odd number of plain characters the JavaScript cut splits a surrogate pair, which the model cannot represent.
- QrGenerator.Generator.constructor: runs the corrected save effect (`Payloads.SaveGenerated`), so a history that loads empty (no key, a corrupt blob or an empty list) removes the stored key. The save as written is modelled by `Payloads.SaveGeneratedAsWritten`.
- QrGenerator.Generator.SaveEffect: the same corrected save; the as-written save is `Payloads.SaveGeneratedAsWritten`.
- QrGenerator.Generator.OnGenerateTimer: records the item through `Payloads.NewItem`, which uses the corrected details (`Payloads.CorrectedHistoryDetails`), so a DATA item keeps its input. The details as written are `Payloads.HistoryDetails`.
- QrGenerator.Generator.Record: the same corrected details.
- QrGenerator.Generator.DownloadAccepted: the same corrected details, through `Record`.
- QrGenerator.Generator.HandleOneClickDownload: records through `DownloadAccepted`, so a DATA item gets the corrected details (`Payloads.CorrectedHistoryDetails`) where the code as written stores `{}` (`Payloads.HistoryDetails`).
- QrGenerator.Generator.DeleteHistoryItem: runs the corrected save (`Payloads.SaveGenerated`), so a confirmed delete that empties the list removes the stored key, where the code as written leaves the last stored list in place (`Payloads.SaveGeneratedAsWritten`, `Payloads.DeletedLastItemReappears`).
- Payloads.BuildQrUrlExample: states the endpoint prefix and the exact list of query parameters, not one literal equality for the whole URL.
- QrReader.Reader.SaveButton: the history invariant is kept through `ScanHistory.AddScanKeepsInvariant`, whose time condition (the clock never runs backwards) is not part of the class invariant.

## Findings

| source | as written | input that shows it | evidently intended | confidence | as-written member | corrected member |
|---|---|---|---|---|---|---|
| src/Components/QrGenerator/QrGenerator.jsx:172 | `getHistoryDetails` has a case for a tab "MORE", which the form does not have (its fifth tab is DATA) | generating from the DATA tab: the item is saved with `{}` as its details (`Payloads.DataTabGetsNoDetails`) | the DATA tab gets `{data, preview}` like the other input tabs (`Payloads.CorrectedDetailsCoverEveryTab`) | high, not executed | Payloads.HistoryDetails | Payloads.CorrectedHistoryDetails |
| src/Components/QrGenerator/QrGenerator.jsx:450 | `History_Info_Button` tests for the type "MORE", so a DATA item falls to the last branch | the info button of any DATA item shows "Unknown QR type" (`Payloads.DataItemInfoIsUnknown`) | it shows "Data: " and the data (`Payloads.CorrectedDataItemInfoShowsData`) | high, not executed | Payloads.InfoText | Payloads.CorrectedInfoText |
| src/Components/QrGenerator/QrGenerator.jsx:55 | the save effect writes only a non-empty history, so emptying the list leaves the last stored list in place | delete the only item, then reload: it is back (`Payloads.DeletedLastItemReappears`, `StoredHistory.ClearAfterLastDelete`) | an empty list removes the key, as the reader does; a reload then shows what was saved (`Payloads.SavedHistoryReloads`, used by `QrGenerator.Generator.SaveEffect`) | high, not executed | Payloads.SaveGeneratedAsWritten | Payloads.SaveGenerated |
| src/Components/QrGenerator/QrGene-Customize.jsx:148 | the margin buttons call `handleMarginChange`, which is not among the props the panel takes (line 6), so the name is undefined | clicking "Large" throws a ReferenceError and the margin stays (`Customize.MarginClickIsLost`) | the panel receives the handler its parent passes, and the chosen margin reaches the URL (`Customize.CorrectedMarginClickReachesUrl`) | high, not executed | Customize.MarginClickAsWritten | Customize.CorrectedMarginClick |
