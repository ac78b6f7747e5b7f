# Lean Startup MVP Roadmap: a verified model of the canvas logic

The application is a one-page editor for a fourteen-box startup canvas, the
"Lean Startup MVP Roadmap". It has four metadata entries (project name,
author, date, version) and fourteen free-text sections. This project models
the logic underneath the page and proves what that logic promises.

- **Link rendering.** `renderTextWithLinks` splits a section's text on the
  URL pattern `(https?:\/\/[^\s]+)` and turns every URL into a link. The
  `hasValue` test chooses between the rendered text and the
  "No entry provided." placeholder when the page is printed. Both live in
  module `CanvasSection`.
- **Page state.** The page component holds the canvas record, the
  "generating" flag, the idea prompt and the dialog flag. Its transitions are
  field edits, the merge of AI suggestions with its guards, Reset and the
  initial load. These are in class `App.AppState`. The export file name and
  the section lookup `getSection` are also in module `App`.
- **Static data.** The section table `CANVAS_SECTIONS` and the default record
  `INITIAL_CANVAS_DATA` are in module `Constants`.

Module `JsText` holds the JavaScript string semantics the code relies on:

- the `\s` character class, enumerated code point by code point;
- `trim`;
- `split('T')[0]`.

The link tokeniser and the file name rule both use this one whitespace
predicate. Module `Types` holds the record and its keys. Module `Wrappers`
holds `Option`.

`String.prototype.split` with a capturing regular expression is modelled on
the ECMAScript split loop (`CanvasSection.SplitFrom`):

- It tries a sticky match at position `q`.
- If there is no match, it moves `q` on by one.
- If a match ends at `e`, it emits the text since the last cut and the
  captured URL, then restarts at `e`.
- At the end, the rest of the text is the last piece.

A sticky match (`CanvasSection.MatchAt`) takes `https://` first, as the
greedy `s?` does. It then takes the longest run of non-whitespace
characters, which must be non-empty.

The suggestion merge takes any subset of the record's keys. The response
schema lists all fourteen section keys as required
(services/geminiService.ts:25-28). But `generateCanvasSuggestions` is typed
`Promise<Partial<CanvasData>>` (services/geminiService.ts:31), and the page
spreads whatever keys the answer holds, metadata keys included
(App.tsx:38). `App.Merge` therefore takes any partial map over all eighteen
keys.

## Model

| member | source | states |
|---|---|---|
| JsText.IsWs | components/CanvasSection.tsx:16 | the `\s` class: tab, line feed, vertical tab, form feed, carriage return, space, no-break space, ogham space mark, the spaces U+2000 to U+200A, line and paragraph separators, narrow no-break space, medium mathematical space, ideographic space and the byte order mark |
| JsText.TrimStart | components/CanvasSection.tsx:44 | the leading-whitespace cut of `trim`: a suffix of the input, everything cut is whitespace, and what is left does not start with whitespace |
| JsText.TrimEnd | components/CanvasSection.tsx:44 | the trailing-whitespace cut of `trim`: a prefix of the input, everything cut is whitespace, and what is left does not end with whitespace |
| JsText.Trim | components/CanvasSection.tsx:44 | `trim`: the leading cut followed by the trailing cut |
| JsText.TrimIsSlice | components/CanvasSection.tsx:44 | `trim` keeps one contiguous slice of the input and removes only whitespace on both sides |
| JsText.TrimEnds | components/CanvasSection.tsx:44 | a non-empty trimmed string neither starts nor ends with whitespace |
| JsText.TrimEmptyIff | App.tsx:34 | a string trims to empty exactly when all its characters are whitespace |
| JsText.SplitFirst | constants.ts:108 | `s.split('T')[0]` is the prefix before the first `T`: it holds no `T`, it is shorter than `s` exactly when `s` has a `T`, and then a `T` follows it |
| Types.KeyIndex | types.ts:2-16 | every canvas key has a position in the enumeration |
| Types.AllKeysComplete | types.ts:2-16 | the enumeration lists all fourteen keys, each exactly once |
| Types.CanvasData.Get | App.tsx:30 | reading the field named by a key, one of the four metadata keys or the fourteen section keys |
| Types.CanvasData.With | App.tsx:30 | `{ ...prev, [key]: value }` gives `key` the new value and leaves every other field as it was |
| Types.GetExtensional | types.ts:18-37 | two records that agree on all eighteen fields are equal, so a record is nothing more than its fields |
| Constants.SectionsCoverKeys | constants.ts:4-103 | the table has exactly fourteen entries; its ids are the keys in enumeration order, so every key occurs and no two entries share an id |
| Constants.SubtextsPresent | constants.ts:4-103 | every entry has a helper line, and that line is non-empty |
| Constants.InitialCanvasData | constants.ts:105-124 | the defaults are `My Startup Name`, `Your Name` and `1.0`; the date is the timestamp before its first `T`; all fourteen sections are empty |
| Constants.DefaultDateIsCalendarPart | constants.ts:108 | for a timestamp `day + "T" + rest` where `day` has no `T`, the default date is `day` |
| CanvasSection.IsUrl | components/CanvasSection.tsx:16 | a string matched whole by `https?:\/\/[^\s]+`: `https://` or `http://` followed by a non-empty run without whitespace |
| CanvasSection.UrlHasNoWs | components/CanvasSection.tsx:16 | a string matched whole by the URL pattern contains no whitespace |
| CanvasSection.SchemeAt | components/CanvasSection.tsx:16 | the scheme found at a position is `https://` (length 8), `http://` (length 7) or nothing |
| CanvasSection.RunEnd | components/CanvasSection.tsx:16 | the run from `j` is free of whitespace and ends at the end of the text or at a whitespace character |
| CanvasSection.MatchAt | components/CanvasSection.tsx:16 | a match at `i` covers a URL and ends at the end of the text or before whitespace |
| CanvasSection.UrlMatches | components/CanvasSection.tsx:16 | whenever a URL starts at `i`, the engine finds a match at `i` |
| CanvasSection.ContainsUrl | components/CanvasSection.tsx:20 | `part.match(urlRegex)` is non-null: a match starts at some position of the piece |
| CanvasSection.WsBreaksUrl | components/CanvasSection.tsx:16 | a string with whitespace after its scheme is not a URL, since `[^\s]+` stops at whitespace |
| CanvasSection.MatchIsLongest | components/CanvasSection.tsx:16 | no longer URL starts at the same place, because `[^\s]+` is greedy |
| CanvasSection.NoMatchAtWs | components/CanvasSection.tsx:16 | no match starts on a whitespace character |
| CanvasSection.ContainsUrlIff | components/CanvasSection.tsx:20 | `part.match(urlRegex)` succeeds exactly when some substring of `part` is a URL |
| CanvasSection.UrlContainsUrl | components/CanvasSection.tsx:20 | every captured URL passes the `part.match` test |
| CanvasSection.SplitFrom | components/CanvasSection.tsx:17 | the split always has an odd number of pieces |
| CanvasSection.Split | components/CanvasSection.tsx:17 | `text.split(urlRegex)`: the split loop started at the beginning of the text |
| CanvasSection.SplitFromConcat | components/CanvasSection.tsx:17 | joining the pieces gives back the text exactly, because the captured URLs are kept |
| CanvasSection.ConcatAtMatch | components/CanvasSection.tsx:17 | the round trip at a cut: the piece before the match, the captured URL and the pieces after it join back to the text |
| CanvasSection.NextMatch | components/CanvasSection.tsx:16-17 | the first position at or after `q` where a match starts, or the end of the text: no match starts in between |
| CanvasSection.SplitFromHead | components/CanvasSection.tsx:17 | the first piece runs from the last cut to `NextMatch`: up to the first match at or after the search position, or to the end of the text |
| CanvasSection.SplitFromAlternates | components/CanvasSection.tsx:17-20 | pieces at odd positions are URLs and pieces at even positions contain no URL |
| CanvasSection.AlternatesAtMatch | components/CanvasSection.tsx:17-20 | the alternation still holds when the split cuts at a match: the text before it has no URL, and the capture is a URL |
| CanvasSection.PlainHasNoUrl | components/CanvasSection.tsx:20 | a stretch in which the split found no match contains no URL of its own |
| CanvasSection.AfterMatch | components/CanvasSection.tsx:16-17 | the piece after a URL is either the empty last piece or starts with whitespace |
| CanvasSection.SplitFromMaximal | components/CanvasSection.tsx:16-17 | every even piece after the first is the empty last piece or starts with whitespace |
| CanvasSection.Tag | components/CanvasSection.tsx:19-33 | the map callback: a piece that passes `part.match` becomes a link whose href and text are the piece itself; any other piece stays text |
| CanvasSection.RenderTextWithLinks | components/CanvasSection.tsx:14-35 | `null` for the empty text; otherwise the pieces of the split, each tagged |
| CanvasSection.ShownTags | components/CanvasSection.tsx:19-34 | tagging the pieces keeps their texts: the segments show the pieces joined |
| CanvasSection.RenderSpec | components/CanvasSection.tsx:14-35 | no segments exactly for the empty text; otherwise the segments show the text back exactly and number 2k+1 for k links; a segment is a link exactly at odd positions; each link's href is its visible text and is a URL; no plain segment holds a URL |
| CanvasSection.RenderLinksMaximal | components/CanvasSection.tsx:14-35 | links are maximal: every segment after a link is plain and starts with whitespace, or is the empty last segment |
| CanvasSection.HasValue | components/CanvasSection.tsx:44 | `value.trim().length > 0` |
| CanvasSection.HasValueIff | components/CanvasSection.tsx:44 | `hasValue` holds exactly when the value holds a non-whitespace character |
| CanvasSection.SectionBody | components/CanvasSection.tsx:75-89 | on screen the text area with the value; when printing the rendered text if the value has one, otherwise the placeholder |
| CanvasSection.SectionBodyPrinting | components/CanvasSection.tsx:75-89 | when printing, the placeholder appears exactly for all-whitespace values, and otherwise the rendered segments show the value in full; on screen the text area shows the value |
| CanvasSection.ShowsSubtext | components/CanvasSection.tsx:67 | the helper line shows when the subtext is present and non-empty, as `metadata.subtext &&` does |
| CanvasSection.TableShowsSubtexts | components/CanvasSection.tsx:67 | every entry of the section table shows its helper line |
| App.UpdateFieldIdempotent | App.tsx:29-31 | writing the same value to a field twice equals writing it once |
| App.UpdateFieldsCommute | App.tsx:29-31 | edits of two different fields can be applied in either order |
| App.UpdateFieldLastWins | App.tsx:29-31 | a second edit of a field overrides the first |
| App.Merge | App.tsx:38 | `{ ...prev, ...suggestions }`: every key present in the suggestions takes the suggested value, and every other key keeps the previous one |
| App.MergeEmpty | App.tsx:38 | merging no suggestions changes nothing |
| App.MergeIsFieldEdits | App.tsx:38 | merging one more suggestion is the same as a field edit after the merge |
| App.MergeEditAt | App.tsx:38 | the same as `MergeIsFieldEdits`, field by field: the edited field reads the new value, and every other field reads the merge |
| App.MergeKeepsMetadata | App.tsx:38 | suggestions that hold only canvas keys keep the project name, author, date and version |
| App.MergeFullSuggestions | App.tsx:38 | suggestions that name all fourteen sections decide every section, whatever the record held before |
| App.LoadInitial | App.tsx:15-18 | the `useState` initialiser: a truthy saved string gives its parsed record, otherwise the defaults |
| App.LoadFallback | App.tsx:15-18 | a missing or empty saved value gives the defaults; a non-empty one gives the parsed record |
| App.CollapseFrom | App.tsx:62 | the whitespace scan leaves no whitespace and never lengthens the text |
| App.CollapseWs | App.tsx:62 | `replace(/\s+/g, '_')` leaves no whitespace and never lengthens the text |
| App.CollapseFromAppend | App.tsx:62 | scanning `a + t` is scanning `a`, then scanning `t` in the state `a` left |
| App.CollapseWsIdentity | App.tsx:62 | a whitespace-free name is left unchanged |
| App.CollapseWsIdempotent | App.tsx:62 | collapsing twice is the same as collapsing once |
| App.CollapseWsAppend | App.tsx:62 | at a cut just after a non-whitespace character, the two sides collapse separately |
| App.CollapseFromRun | App.tsx:62 | a whitespace run writes one underscore, or none if the scan is already inside a run |
| App.CollapseWsRun | App.tsx:62 | a maximal whitespace run becomes exactly one underscore |
| App.CollapseWsWords | App.tsx:62 | two words joined by one space become the first word, an underscore and the collapsed rest |
| App.CollapseWsThreeWords | App.tsx:62 | three whitespace-free words separated by single spaces come out joined by underscores |
| App.PdfFileName | App.tsx:62 | the export file name contains no whitespace and ends with `_MVP_Roadmap.pdf` |
| App.PdfFileNamePlain | App.tsx:62 | a whitespace-free project name is kept unchanged before the suffix |
| App.DefaultPdfFileName | App.tsx:62 | the default project name gives `My_Startup_Name_MVP_Roadmap.pdf` |
| App.FindSection | App.tsx:87 | `find` returns the first entry of the list whose id is the key, and returns nothing exactly when no entry has that id |
| App.GetSection | App.tsx:87 | `getSection` always finds, for every key, the table entry with that id, so the `!` never fails |
| App.GetSectionAt | App.tsx:87 | the entry found for a key is the one at that key's position in the enumeration |
| App.LayoutFollowsTable | App.tsx:166-198 | the seven rows of the page lay out the table's entries in table order, two per row |
| App.AppState.constructor | App.tsx:15-22 | the first render loads the record (saved or default), and nothing is generating, the prompt is empty and the dialog is closed |
| App.AppState.UpdateField | App.tsx:29-31 | one field of the record is overwritten, and nothing else changes |
| App.AppState.SetIdeaPrompt | App.tsx:228 | typing in the idea box changes only the prompt |
| App.AppState.SetShowAiModal | App.tsx:99 | opening or closing the dialog changes only the dialog flag |
| App.AppState.ApplyReply | App.tsx:36-44 | on success the suggestions are merged and the dialog closes; on failure the alert is raised and the record and the dialog are unchanged; either way the generating flag ends false |
| App.AppState.HandleAiFill | App.tsx:33-45 | a request is sent exactly when the prompt is not all whitespace; a blank prompt changes nothing and raises no alert; otherwise the end state is that of `ApplyReply` |
| App.AppState.Reset | App.tsx:111 | a confirmed reset restores exactly the defaults; a declined one changes nothing |
| App.AppState.ExportFileName | App.tsx:62 | the name used for the current record is the project name's file name, with no whitespace in it |

## Left out

- Rendering (JSX, CSS class strings, `RowContainer`) is user interface and is not modelled. The model keeps what a section body shows (`CanvasSection.SectionBody`) and the row order (`App.Layout`).
- The text-area auto-grow effect (components/CanvasSection.tsx:47-52) only writes DOM style heights.
- `localStorage` and `JSON.stringify`/`JSON.parse` (App.tsx:16-17, App.tsx:25-27) are a browser store and a library. The stored value is an input: nothing, or a raw string with the record it parses to. Malformed JSON would make the source throw, and the model adds no guard of its own.
- The suggestion service (services/geminiService.ts) and its HTTP proxy (functions/api/chat.ts) are an external call. Its answer is the input `App.Reply`: a partial record, or a failure.
- PDF export (App.tsx:47-85) is left out: `html2pdf`, the 1500 ms timer, `scrollTo`, the floating-point options and the `isPrinting` flag it toggles. Only the file name expression at App.tsx:62 is modelled. Print mode is a parameter of `CanvasSection.SectionBody`.
- The clock read `new Date().toISOString()` is the timestamp parameter `isoNow`.
- `alert` and `confirm` are booleans: `alerted` is an out-parameter and `confirmed` is a parameter.
- Concurrency is not modelled, so neither are overlapping requests. `HandleAiFill` sends one request and applies its answer in one step, so the state between raising and clearing the generating flag cannot be observed.
- JavaScript strings are UTF-16 code units, while Dafny characters are Unicode scalar values. Surrogate pairs are not modelled separately. Every whitespace code point is in the Basic Multilingual Plane, so `\s` is unaffected.
- The section titles, icons and descriptions appear in the table verbatim, but no property speaks about them.
