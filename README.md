# sugoi-presentation: verified model of the extension's state logic

This project models, in Dafny, the small pieces of logic inside the
sugoi-presentation browser extension, which overlays audience comments on a
presenter's screen:

- the background script's single-slot **mailbox** (`saveData` / `getData`);
- the **session identity**: the id built from the page location, mirrored to
  `localStorage` together with the audience QR-code URL;
- the **overlay-visibility flag** (`hideContents`) and the popup checkbox
  that toggles it;
- the **allowed-colour toggle** and the fixed colour table;
- the **comment dashboard**: the projection of server rows, the
  collapsed/expanded list and the CSV export;
- the **Google Fonts URL** built from the ten offered font families, and the
  font selection handler;
- the content script's demo **message list** and its 30 px layout;
- the popup's **file picker** state.

`chrome.storage.local` is a class over a `map` from keys to values (module
`ChromeStorage`). The page's `localStorage` is a `map<string, string>` field
of the session. Runtime messages and promises are method calls that finish
at once. A rejected promise is a `Result.Err`. A missing value (`null`,
`undefined`) is `Option.None`. Text the user or the server supplies (the
location, file names, server rows, the reply to `getData`) comes in as
parameters.

Modules: `Wrappers` (Option, Result) and `Text` (remove-all, join, split)
are shared helpers, and `ChromeStorage` stands for the browser's
`chrome.storage.local`. `Coordinator`, `SessionIdentity`,
`QrStatus`, `CheckBox`, `FontColor`, `FontSelector`, `CommentDashboard`,
`ContentApp` and `PopupApp` each model one source file.

Behaviour of the code worth noting:

- The id is recomputed and overwritten on every `createSessionId` call. It is
  stable only because the location is the same.
- `getSessionId` returns null before creation. It creates nothing lazily:
  that code is commented out.
- `removeSessionId` clears the id.
- The CSV export joins lines with LF. Every data cell is quoted and its
  quotes are doubled, which follows the escaping rule of section 2 (rule 7)
  of RFC 4180; the header line `名前,コメント` is not quoted.

## Model

| member | source | states |
|---|---|---|
| `Coordinator.StoredIsLastSave` | entrypoints/background/index.ts:9-16 | the slot is `""` until a `saveData` arrives; after that it holds the data of the most recent `saveData`, and earlier values are lost |
| `Coordinator.StoredIgnoresNonSaves` | entrypoints/background/index.ts:12-21 | messages that are not `saveData` (a `getData` or an unknown action) leave the slot unchanged, so two gets agree |
| `Coordinator.Reply` | entrypoints/background/index.ts:19-23 | exactly the `getData` messages get a reply, and the reply is the stored value; `saveData` and unknown actions get none |
| `Coordinator.Mailbox.constructor` | entrypoints/background/index.ts:9 | the slot starts as the empty string |
| `Coordinator.Mailbox.Deliver` | entrypoints/background/index.ts:12-24 | each message reaches both listeners: a save overwrites the slot, and a get replies with the slot; the slot always equals `Stored` of all messages so far |
| `Coordinator.SaveThenGet` | entrypoints/background/index.ts:13-21 | a get right after a save of `d` answers `d`, and a second get answers `d` again |
| `SessionIdentity.DeriveId` | entrypoints/utils/sessionId.ts:4-5 | the id is the hostname followed by the pathname with every `/` removed; the path part contains no `/` |
| `SessionIdentity.DeriveIdSegments` | entrypoints/utils/sessionId.ts:4 | the path's other characters keep their order: `/a/b` contributes `ab` |
| `SessionIdentity.QrUrl` | entrypoints/utils/sessionId.ts:8-10 | the QR URL is the form URL prefix followed by the id |
| `SessionIdentity.QrUrlInjective` | entrypoints/utils/sessionId.ts:8-10 | two different ids never share a QR URL |
| `SessionIdentity.Session.constructor` | entrypoints/utils/sessionId.ts:1 | the id starts as null |
| `SessionIdentity.Session.Create` | entrypoints/utils/sessionId.ts:3-11 | sets the id from the location; key `sessionId` then holds the id and key `qrCode` its QR URL; no other key changes |
| `SessionIdentity.Session.Get` | entrypoints/utils/sessionId.ts:13-18 | returns the current value, null included, and changes nothing |
| `SessionIdentity.Session.Remove` | entrypoints/utils/sessionId.ts:20-23 | deletes key `sessionId` and sets the id to null; `qrCode` is left as it was |
| `SessionIdentity.CreateTwice` | entrypoints/utils/sessionId.ts:3-11 | creating twice from one location yields the same id both times |
| `QrStatus.StoredFlag` | entrypoints/utils/qr-status.ts:15-17 | the flag read through `LocalArea.Get` is the stored `hideContents`, or `false` when the key is absent |
| `QrStatus.QrStatusStore.constructor` | entrypoints/utils/qr-status.ts:1 | the flag starts as `false` |
| `QrStatus.QrStatusStore.Set` | entrypoints/utils/qr-status.ts:3-10 | sets the flag to `status`; when storage exists, writes `hideContents = status` and nothing else |
| `QrStatus.QrStatusStore.Get` | entrypoints/utils/qr-status.ts:12-24 | with storage, resolves to the stored flag and caches it; without storage, rejects and leaves the flag as it was |
| `QrStatus.SetThenGet` | entrypoints/utils/qr-status.ts:3-18 | with storage present, a get after a set of `s` resolves to `s` |
| `CheckBox.HideContentsBox.constructor` | entrypoints/popup/components/CheckBox.tsx:5 | `isHidden` starts as `false` |
| `CheckBox.HideContentsBox.Mount` | entrypoints/popup/components/CheckBox.tsx:7-13 | after the mount fetch, `isHidden` is the stored status; if the fetch rejects, both `isHidden` and the module flag are unchanged |
| `CheckBox.HideContentsBox.Toggle` | entrypoints/popup/components/CheckBox.tsx:15-19 | writes the negation of `isHidden` to the flag and to storage, and the state becomes that value |
| `CheckBox.ToggleTwice` | entrypoints/popup/components/CheckBox.tsx:15-19 | two toggles restore the original `isHidden`, and storage then holds it |
| `FontColor.LookupSpec` | entrypoints/content/components/FontColor.tsx:4-11 | a colour value has a code exactly when the table lists it, and the code is the one listed beside it |
| `FontColor.ColorTable` | entrypoints/content/components/FontColor.tsx:4-11 | red, blue, yellow, purple, black and white map to #FF0000, #0000FF, #FFFF00, #800080, #000000 and #FFFFFF |
| `FontColor.ColorTableDistinct` | entrypoints/content/components/FontColor.tsx:4-11 | the six values are pairwise distinct, and so are the six codes |
| `FontColor.Toggle` | entrypoints/content/components/FontColor.tsx:30-33 | a present colour has every copy removed; an absent one is appended at the end; its membership flips and every other colour's stays |
| `FontColor.ToggleAbsentTwice` | entrypoints/content/components/FontColor.tsx:31-33 | toggling an absent colour twice gives back the original list |
| `FontColor.TogglePresentKeepsOthers` | entrypoints/content/components/FontColor.tsx:31-32 | removal changes no other colour's number of copies |
| `FontColor.ToggleKeepsDistinct` | entrypoints/content/components/FontColor.tsx:31-33 | a list without repeats stays without repeats |
| `FontColor.ColorSelector.constructor` | entrypoints/content/components/FontColor.tsx:18-22 | the state starts as the initial colours |
| `FontColor.ColorSelector.SyncInitial` | entrypoints/content/components/FontColor.tsx:24-27 | a new initial list replaces the state |
| `FontColor.ColorSelector.HandleColorToggle` | entrypoints/content/components/FontColor.tsx:30-40 | the toggled list becomes the state, the `onColorChange` argument and the stored `selectedColors`; no other key is written |
| `FontSelector.FormatNameRun` | entrypoints/content/components/FontSelector.tsx:33 | a maximal whitespace run between two pieces becomes exactly one `+` |
| `FontSelector.FormatNameAppend` | entrypoints/content/components/FontSelector.tsx:33 | formatting works piece by piece when no whitespace run is cut in two |
| `FontSelector.FormatNameChars` | entrypoints/content/components/FontSelector.tsx:33 | a formatted name contains no whitespace; each character is `+` or a character of the name |
| `FontSelector.FormatNameKeepsOrder` | entrypoints/content/components/FontSelector.tsx:33 | removing the `+` signs gives the name without its whitespace and its `+` signs, so every other character keeps its order |
| `FontSelector.PlusFreeKeepsOrder` | entrypoints/content/components/FontSelector.tsx:33 | for a `+`-free name, removing the `+` signs gives exactly its non-whitespace characters |
| `FontSelector.FormatNameNoWhitespace` | entrypoints/content/components/FontSelector.tsx:33 | a name without whitespace is left unchanged |
| `FontSelector.FontFamilies` | entrypoints/content/components/FontSelector.tsx:31-35 | one formatted family per font, in list order |
| `FontSelector.FontsHrefQuery` | entrypoints/content/components/FontSelector.tsx:40 | for a non-empty list of `&`-free families, the href is the CSS2 endpoint and a query; split on `&`, the query gives one `family=` parameter per family in order, then `display=swap` |
| `FontSelector.GoogleFontNamesDistinct` | entrypoints/content/components/FontSelector.tsx:6-17 | there are ten fonts, and their names are pairwise distinct |
| `FontSelector.GoogleFontNamesPlain` | entrypoints/content/components/FontSelector.tsx:6-17 | no font name contains `&` |
| `FontSelector.LoadFontsHref` | entrypoints/content/components/FontSelector.tsx:30-40 | the requested href carries exactly ten `family=` parameters, the formatted font names in list order, followed by `display=swap` |
| `FontSelector.HandleFontChange` | entrypoints/content/components/FontSelector.tsx:61-67 | the selected value goes to `onFontChange` and is stored under `selectedFont` |
| `CommentDashboard.ToComments` | entrypoints/popup/CommentDashboard.tsx:45-57 | each row becomes `{id: ID, name: Name, text: Comment}`; length and order are kept |
| `CommentDashboard.ToCommentsDropsSessionId` | entrypoints/popup/CommentDashboard.tsx:47-56 | a row's `SessionId` does not affect its comment |
| `CommentDashboard.VisibleAsWritten` | entrypoints/popup/CommentDashboard.tsx:16 | as written: all comments when `showAll`, otherwise the first `min(2, n)` |
| `CommentDashboard.ThirdOfThreeUnreachable` | entrypoints/popup/CommentDashboard.tsx:15-16 | as written: with exactly three comments, two are listed and the expand button is absent |
| `CommentDashboard.Visible` | entrypoints/popup/CommentDashboard.tsx:15-16 | corrected: all comments when `showAll`, otherwise the first `min(3, n)` |
| `CommentDashboard.EveryCommentReachable` | entrypoints/popup/CommentDashboard.tsx:159-161 | corrected: every comment is either in the collapsed list or shown once the button (present for more than three) is clicked |
| `CommentDashboard.DoubleQuotes` | entrypoints/popup/CommentDashboard.tsx:73 | each inner `"` becomes `""`; no other character is added |
| `CommentDashboard.QuoteCell` | entrypoints/popup/CommentDashboard.tsx:73 | a cell is wrapped in `"` and is longer than its content by two plus its number of quotes |
| `CommentDashboard.UnquoteQuoted` | entrypoints/popup/CommentDashboard.tsx:73 | stripping the outer quotes and halving each `""` gives back the original cell |
| `CommentDashboard.CsvRow` | entrypoints/popup/CommentDashboard.tsx:68-73 | a data row is two quoted cells, name then text, separated by one comma |
| `CommentDashboard.RowLines` | entrypoints/popup/CommentDashboard.tsx:68-74 | one data row per comment, in comment order |
| `CommentDashboard.CsvRoundTrip` | entrypoints/popup/CommentDashboard.tsx:65-75 | the export is the header `名前,コメント` followed by LF-prefixed rows, and it parses back into exactly the comments' (name, text) pairs in order, whatever the cells contain |
| `CommentDashboard.CsvLineCount` | entrypoints/popup/CommentDashboard.tsx:70-75 | when no cell contains LF, splitting on LF gives the header and one line per comment: `n + 1` lines |
| `CommentDashboard.Dashboard.constructor` | entrypoints/popup/CommentDashboard.tsx:10-13 | no comments, no session id, collapsed |
| `CommentDashboard.Dashboard.OnSessionReply` | entrypoints/popup/CommentDashboard.tsx:20-26 | only a reply with non-empty `data` sets the session id |
| `CommentDashboard.Dashboard.OnCommentsFetched` | entrypoints/popup/CommentDashboard.tsx:29-60 | the fetch runs only once a session id is set; fetched rows replace the comments with their projection; a failed request leaves them as they were |
| `CommentDashboard.Dashboard.VisibleComments` | entrypoints/popup/CommentDashboard.tsx:16 | the listed comments, as the code slices them: all of them when expanded, otherwise the first `min(2, n)` |
| `CommentDashboard.Dashboard.ClickShowMore` | entrypoints/popup/CommentDashboard.tsx:159-161 | the button exists only for more than three comments, and a click flips `showAll` |
| `CommentDashboard.Dashboard.DownloadCsv` | entrypoints/popup/CommentDashboard.tsx:65-75 | the exported text parses back into the current comments' names and texts |
| `ContentApp.Placements` | entrypoints/content/App.tsx:44-48 | entry `i` keeps message `i`; the first is at top 0 and each one is 30 px below the previous |
| `ContentApp.PlacementsIncreasing` | entrypoints/content/App.tsx:44-45 | entries are `30·(j−i)` px apart, so no two share a position |
| `ContentApp.Overlay.constructor` | entrypoints/content/App.tsx:5 | the message list starts empty |
| `ContentApp.Overlay.AddMessage` | entrypoints/content/App.tsx:21-23 | appends one `"Hello, World!"` at the end and keeps the earlier entries; every entry is the greeting, so after k calls there are k greetings |
| `PopupApp.UploadPanel.constructor` | entrypoints/popup/App.tsx:6-7 | the file name starts as the placeholder, and upload starts disabled |
| `PopupApp.UploadPanel.HandleFileChange` | entrypoints/popup/App.tsx:17-21 | choosing a file shows its name and enables upload; clearing it shows the placeholder and disables upload; the button is disabled exactly when no file is selected |
| `PopupApp.HandleUpload` | entrypoints/popup/App.tsx:23-30 | returns early exactly when the input holds no file |

## Left out

- entrypoints/hook/useWsConnection.ts, entrypoints/content/index.tsx and wxt.config.ts are not part of this model. They are transport, shadow-root mounting and build configuration.
- Coordinator.Mailbox: the model's mailbox lives forever, but `storedData` is a module variable of the background script, which Chrome stops when it is idle as a Manifest V3 service worker. After a restart the slot is `""` again, so `StoredIsLastSave` describes one run of the worker only.
- FontColor.ColorSelector.SyncInitial: the model applies the effect only when a caller invokes it. In the component it fires whenever the identity of the `initialColors` prop changes (entrypoints/content/components/FontColor.tsx:25-27). With the default `initialColors = []` (line 20) each render makes a new empty list. The effect then resets the state to `[]` after every render, so after a toggle the state no longer equals the stored `selectedColors`. The model does not capture this re-render behaviour.
- The `onInstalled` listener and every `console.log` / `console.error` are not modelled. They only log.
- Message passing and storage run synchronously in the model. It does not capture asynchrony, the `return true` that keeps the reply channel open, or storage change notification.
- Message payloads are strings in the model. The code accepts an arbitrary JavaScript value as `data`.
- QrStatus.StoredFlag: a non-boolean value stored under `hideContents` reads as `false`. The code would pass that value through uncast. No code in the core writes such a value.
- A rejected `getQrStatus` during mount is an unhandled rejection in the code. The model keeps only its effect: `isHidden` is unchanged.
- In FontColor.tsx and FontSelector.tsx, `chrome.storage` is called without checking that it exists. The model always has storage there and does not model the exception.
- Exceptions from `localStorage` (quota, disabled storage) are not modelled. The `!` in `getSessionId` is a compile-time assertion only.
- The comment fetch is not modelled. Its JSON rows are an input, and any failure (network error, `!res.ok`, bad JSON) is `None`, which the code only logs.
- The Blob, object URL and anchor-click download are not modelled, and neither is the filename with its locale-dependent `toLocaleDateString`. They are I/O.
- The `downloadStatus` messages and their `setTimeout` timers are not modelled. They are timers.
- The `<link>` injection in FontSelector.tsx is not modelled: its `onload`, the `fontsLoaded` flag that disables the select, and the cleanup. They are DOM side effects. Only the href is modelled.
- The fullscreen listeners and `enterFullscreen` in content/App.tsx, and `chrome.tabs.query` in popup/App.tsx, are not modelled. They depend on the host environment.
- The first, unpositioned rendering of the message list is not modelled separately. It renders the same list.
- FontSelector.LoadFontsHref: states the query's parameter structure, not the literal ten-name URL string.

## Findings

| source | as written | input that shows it | evidently intended | confidence | as-written member | corrected member |
|---|---|---|---|---|---|---|
| entrypoints/popup/CommentDashboard.tsx:16 | the collapsed list is `comments.slice(0, 2)`, but the expand button is rendered only when `comments.length > 3` (line 159) | exactly three comments: two are listed, there is no button, and the third can never be shown | show the first three comments, as the comment on line 15 says, so that the button condition `> 3` hides nothing | medium (not executed) | `CommentDashboard.ThirdOfThreeUnreachable` | `CommentDashboard.EveryCommentReachable` |
