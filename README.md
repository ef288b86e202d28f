# vSave-in page script, modelled in Dafny

This is a model of `script.js`, the script behind a mock TikTok downloader page. The page has a URL field and a download button, five quick-option buttons, a light/dark theme toggle, a hamburger menu and three dialogs (bulk, profile, ringtone maker). The script downloads nothing. All it does is validate the URL, show toast notifications (one at a time, each removing itself after a delay), open and close dialogs, and keep the two ringtone sliders ordered.

Modules:

- `Text`: the ECMAScript white-space and line-terminator classes, and `trim`.
- `UrlCheck`: `isValidTikTokUrl`, the test of the unanchored pattern `https?://(www\.)?tiktok\.com/.+`. It is written as a step-by-step matcher plus a scan over start positions. It is proved equal to a declarative reading: some position starts `http`, an optional `s`, `://`, an optional `www.`, `tiktok.com/`, and then one character that is not a line terminator.
- `Notices`: message tokens, notification types and the colour each type selects. It also holds two pure decisions: the notices a download click produces, and the `switch` of `handleOptionClick`.
- `Theme`: the theme applied at load (`stored || 'light'`), the toggle, and the glyph.
- `Ringtone`: the slider-push rules as functions on a `Cut` (start, end). The `Sliders` class holds the two slider values and the two labels of one open ringtone dialog.
- `PageState`: the `Page` class. It holds the applied and stored theme, the glyph, the two `active` markers, the attached notification elements, the attached dialogs and the pending timer callbacks. Its methods are the page's event handlers.

Timers are a list of pending callbacks. The event loop may fire any of them, in any order (`Page.FireTimer`), so every property of the page holds whatever the delays are. Element identity is a natural number taken from `nextId`. This is how a delayed removal knows which notification it belongs to.

Three behaviours of the script that a reader might not expect, and that the model keeps:

- The stored theme may hold any text, not just `light`/`dark`. An empty string counts as missing.
- The sliders can be pushed to 31 and to -1, outside their declared range of 0 to 30.
- The validator matches anywhere inside the trimmed input.

## Model

| member | source | states |
|---|---|---|
| `Text.TrimStart` | script.js:36 | the result is the suffix of the input after its leading white space, and it starts with a non-white-space character |
| `Text.TrimEnd` | script.js:36 | the result is the prefix of the input before its trailing white space, and it ends with a non-white-space character |
| `Text.Trim` | script.js:36 | `trim()` returns a slice of the input with only white space around it, and the slice neither starts nor ends with white space |
| `Text.TrimEmptyIff` | script.js:36-38 | the trimmed input is empty exactly when the input is white space only (the "missing URL" test) |
| `Text.TrimIdempotent` | script.js:36 | trimming twice is the same as trimming once |
| `UrlCheck.IsValidTikTokUrl` | script.js:96-99 | the validator accepts exactly the strings in which the pattern occurs at some position, followed by one character that `.` matches |
| `UrlCheck.MatchHereIff` | script.js:97 | the greedy matcher at one position succeeds exactly when one of the four literals `http[s]://[www.]tiktok.com/` starts there and is followed by a non-line-terminator |
| `UrlCheck.SearchFromIff` | script.js:98 | the unanchored scan from position i succeeds exactly when the matcher succeeds at some position from i on |
| `UrlCheck.AcceptedInsideAnyText` | script.js:97-98 | the pattern is unanchored: any text before and after an accepted string keeps it accepted |
| `UrlCheck.AcceptsTextBeforeUrl` | script.js:97-98 | `x https://tiktok.com/a` is accepted |
| `UrlCheck.RejectsEmptyPath` | script.js:97 | `https://tiktok.com/` is rejected, because `.+` needs a character after the slash |
| `UrlCheck.AcceptedLength` | script.js:97 | every accepted string has at least 19 characters |
| `Notices.Colour` | script.js:128-135 | `error` gives `#ff4757`, `success` gives `#2ed573`, and every other type, and only those, gives `#3742fa` |
| `Notices.DownloadNotices` | script.js:35-57 | a download click produces one or two notices. Two (info "processing", then success "ready") exactly when the trimmed input matches. Otherwise one error notice, "missing URL" exactly when the input is white space only, and "invalid URL" in every other case |
| `Notices.DownloadDecidedByTrimmedInput` | script.js:36 | the click's outcome depends only on the trimmed input |
| `Notices.TrailingSpaceAfterSlashIsInvalid` | script.js:36-46 | `https://tiktok.com/ ` passes the validator as it stands, yet the click reports an invalid URL, because trimming removes the character `.+` matched |
| `Notices.HandleOption` | script.js:69-93 | at most one notice, always of type `info`. There is a notice exactly for the five known tags. A dialog is opened exactly for `bulk`, `profile` and `ringtone`, and it is the dialog of that tag. Any other tag does nothing. An option notice never carries a download message |
| `Notices.OptionMessagesDistinct` | script.js:71-90 | two different known tags announce themselves with different notices |
| `Theme.InitialTheme` | script.js:3 | a stored non-empty text is applied as it is; a missing or empty entry gives `light` |
| `Theme.Toggled` | script.js:11 | the toggle gives `dark` exactly from `light`, and `light` from every other value |
| `Theme.GlyphFor` | script.js:18-20 | the glyph is the moon exactly for `light`, and the sun otherwise |
| `Theme.ToggleTwice` | script.js:9-16 | toggling twice restores the theme exactly when it is `light` or `dark` |
| `Theme.StoredToggleReloads` | script.js:3-14 | the value a toggle stores is the value the next load applies |
| `Ringtone.AfterStartInput` | script.js:377-383 | the start takes the new value. The end is unchanged when it is already after it, and otherwise pushed to exactly one past it, so start < end |
| `Ringtone.AfterEndInput` | script.js:385-391 | the end takes the new value. The start is unchanged when it is already before it, and otherwise pushed to exactly one before it, so start < end |
| `Ringtone.ReplayKeepsOrder` | script.js:377-391 | from ordered values, start < end after any sequence of slider drags |
| `Ringtone.ReplayNearBounds` | script.js:377-391 | with drags inside 0 to 30, the start stays in -1 to 30 and the end in 0 to 31 |
| `Ringtone.StartInputBounds` | script.js:317-383 | from values inside the declared range, moving the start to v keeps both values in range exactly when v < 30 |
| `Ringtone.EndInputBounds` | script.js:317-391 | from values inside the declared range, moving the end to v keeps both values in range exactly when v > 0 |
| `Ringtone.BoundsEscape` | script.js:317-391 | from the initial values, start 30 pushes the end to 31, and end 0 pushes the start to -1, both outside the declared range |
| `Ringtone.Sliders.constructor` | script.js:316-319 | a new ringtone dialog starts with start 0 and end 30, and the labels show them |
| `Ringtone.Sliders.OnStartInput` | script.js:377-383 | the start slider's handler moves the values as `AfterStartInput` says, and the labels keep showing the values |
| `Ringtone.Sliders.OnEndInput` | script.js:385-391 | the end slider's handler moves the values as `AfterEndInput` says, and the labels keep showing the values |
| `PageState.Without` | script.js:224-232 | removing a dialog takes out every entry with that identity and keeps every other one. Nothing changes when that dialog is not attached |
| `PageState.WithoutKeepsDistinct` | script.js:224-232 | removing a dialog keeps the identities of the open dialogs distinct |
| `PageState.WithoutRemovesOne` | script.js:224-232 | with distinct identities, closing an attached dialog removes exactly one entry |
| `PageState.Page.constructor` | script.js:1-7 | at load the stored theme, or `light`, is applied with its glyph; no notification, dialog or timer exists |
| `PageState.Page.ToggleTheme` | script.js:9-16 | the theme is flipped, the same value is stored, and the glyph follows; the invariant "applied theme = theme a reload would apply" is kept |
| `PageState.Page.ToggleMenu` | script.js:26-29 | both `active` markers flip, so they stay equal |
| `PageState.Page.ShowNotification` | script.js:101-153 | afterwards exactly one notification is attached, carrying the message, the type and the type's colour. The old one is gone, the new one's removal is scheduled, and no earlier pending removal refers to it |
| `PageState.Page.FireTimer` | script.js:145-152 | a delayed removal detaches its own notification only if that one is still attached, and never a newer one. The download callback shows the success notice. At most one notification stays attached |
| `PageState.Page.OnDownloadClick` | script.js:35-57 | the first notice of `DownloadNotices` is shown at once with a new identity, and for an accepted URL the success notice is left to a pending callback |
| `PageState.Page.OpenModal` | script.js:306-325 | a dialog of the given variant is appended with a new identity; a ringtone dialog gets new sliders at 0 and 30 |
| `PageState.Page.OnOptionClick` | script.js:62-93 | the notice of `HandleOption` is shown with its removal scheduled, and then its dialog is opened with a new identity; a ringtone dialog gets new sliders at 0 and 30 |
| `PageState.Page.ClickModal` | script.js:394-402 | a click closes the dialog exactly when it lands on the close control or on the backdrop itself, not on the content panel; the other dialogs stay |

## Left out

- Styling, markup and animation: the `style.cssText` strings, `innerHTML`, the slide-in and slide-out transforms, and the exact delays (100, 300, 2000 and 3000 ms). Timers are pending callbacks that fire in any order, and the 3000 ms timer and the 300 ms timer inside it are one removal callback.
- `simulateDownload` (script.js:155-159) only writes to the console. It is not modelled.
- Smooth scrolling of in-page links (script.js:406-417) is a browser call with no state of its own. It is not modelled.
- Local storage is the field `stored`. Storage failures are not modelled.
- Browser sanitising of range values (a value of 31 set by the script would show as 30) is not modelled. The model keeps the values the script assigns.
- Labels are kept as the number of seconds they show. The trailing `s` of their text is not modelled.
- Message texts are tokens (`Msg`); the texts themselves are not modelled.
- The text areas and input fields of the dialogs have no effect in the script and are not modelled.
- The markup's initial `active` markers are taken to be absent.
- A failing element lookup, which would stop the whole script, is not modelled.
- `PageState.Page.FireTimer`: the removal compares against the first attached notification only. This is the same as the script's `parentNode` check because at most one notification is ever attached, which `Page.Valid` guarantees.
