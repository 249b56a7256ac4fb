# Code composer controller, in Dafny

This project models the code composer widget of `npgen`. The user picks a
section (OD, SP, BN or TP) and a number (23, 24, 25 or 26) from two groups of
buttons and types up to seven digits. The page shows the code
`SECTION-NUMBER-F` followed by the digits, zero-padded to seven places, and
copies that code to the clipboard. The repository has two near-identical
scripts for the widget: `index.js` and `src/js/index.js`. Both are modelled.

- `CodeFormat` (`code_format.dfy`) is the pure part. It holds the
  `[^0-9]` filter of the input handler, the `slice(0, 7)` cap, `padStart` and
  the text `updateResult` writes. It also has lemmas about each of them.
- `Shortcuts` (`shortcuts.dfy`) holds the function-key tables of both
  scripts: the per-key chain of `index.js` and the collapsed chains of
  `src/js/index.js`.
- `Theme` (`theme.dfy`) covers the `darkMode` entry of `localStorage`: what a
  toggle writes and what page load reads.
- `Composer` (`composer.dfy`) is the controller, a class with one method per
  event. Its fields are the selected section and number, the field text, the
  result text, the `active` marks of both button groups (arrays that the
  click handlers clear in a loop), the dark-mode flag, `localStorage`, and
  the log of texts handed to the clipboard. The `variant` field picks the
  script. The two scripts differ in the function-key dispatch and in the
  null guard around the theme toggle, apart from the defects of
  `src/js/index.js` listed under "## Left out". `Valid()` is the invariant
  between events:
  - exactly the selected button of each group is active;
  - the field holds at most six digits and nothing else, because reaching
    seven commits and clears;
  - the result text matches the state;
  - the stored theme is the one the next page load applies.
- `ComposerScenarios` (`scenarios.dfy`) holds client sessions that follow
  events from page load, such as typing seven digits, F2, Enter and Escape,
  and toggling then reloading.

Two facts about the code shape the model:
- `index.js` has a per-key F-key table: each of F1–F8 clicks its own
  button. `src/js/index.js`, the script with the null guards, sends every
  one of F1–F4 to OD and every one of F5–F8 to 23.
- The field holds seven digits only inside the input handler, which then
  commits them and clears the field. Between events it holds at most six.

## Model

| member | source | states |
|---|---|---|
| `CodeFormat.PadStart` | index.js:135 | the padded text is `width` long (or the text itself when longer), ends with the text, and every place before it holds the filler |
| `CodeFormat.DigitFieldLayout` | src/js/index.js:183 | the seven-place field holds zeros in the places the digits do not fill, then the digits in order |
| `CodeFormat.PadKeepsValue` | index.js:135 | an aside (neither script reads the code as a number): zero padding keeps the field all digits and keeps the decimal number it denotes |
| `CodeFormat.ZerosKeepValue` | index.js:135 | an aside: any number of leading zeros in front of a digit string keeps its value |
| `CodeFormat.LeadingZeroValue` | index.js:135 | an aside: one leading zero keeps the value of a digit string |
| `CodeFormat.CodeFieldValue` | index.js:134-137 | an aside: the field of a code is seven digits whose value is the value of the typed digits |
| `CodeFormat.ResultCode` | index.js:136 | the code is as long as section, number, the three characters `-`, `-F` and the seven-place field together (longer only when the field already holds more than seven characters); its layout is stated by `ResultCodeLayout` and `DigitFieldLayout` |
| `CodeFormat.ResultCodeLayout` | index.js:136 | a code is the section, `-`, the number, `-F`, then the padded field, so it is 14 characters for a two-letter section and a two-digit number |
| `CodeFormat.HeadLayout` | src/js/index.js:184 | in `section-number-F…` each part sits at its offset, and the tail follows `-F` |
| `CodeFormat.FullCodeUnpadded` | index.js:54-56 | a full seven-digit entry appears in the code as typed, with no padding |
| `CodeFormat.Sanitize` | index.js:43 | the filtered text is all digits and no longer than the input |
| `CodeFormat.SanitizeAppend` | index.js:43 | filtering a concatenation concatenates the filtered parts, so the digits keep their order |
| `CodeFormat.SanitizeChar` | src/js/index.js:68 | a single character survives the filter exactly when it is a digit |
| `CodeFormat.SanitizeCounts` | index.js:43 | each digit is kept as often as it occurs in the input, and no other character is kept |
| `CodeFormat.SanitizeDigitsFixed` | index.js:43 | an all-digit text passes through the filter unchanged |
| `CodeFormat.SanitizeIdempotent` | index.js:43 | filtering twice equals filtering once |
| `CodeFormat.Clean` | index.js:43-49 | the kept text is all digits, is the first `min(7, n)` of the `n` filtered digits, and is a prefix of the filtered text |
| `CodeFormat.CleanIdempotent` | index.js:43-49 | filtering and capping the cleaned text again changes nothing; a text of at most seven digits is kept whole |
| `CodeFormat.CleanTruncates` | src/js/index.js:70-74 | when more than seven digits remain, exactly the first seven are kept |
| `Shortcuts.ValuesDistinct` | index.js:83-110 | no two section buttons and no two number buttons share a value |
| `Shortcuts.RootShortcut` | index.js:83-110 | F1–F4 click OD/SP/BN/TP and F5–F8 click 23/24/25/26, each key exactly its own button; every other key clicks nothing |
| `Shortcuts.SrcSectionShortcut` | src/js/index.js:120-132 | any of F1–F4 clicks OD and no other key clicks a section button; the SP/BN/TP branches never produce a result |
| `Shortcuts.SrcNumberShortcut` | src/js/index.js:135-147 | any of F5–F8 clicks 23 and no other key clicks a number button |
| `Shortcuts.SrcAgreesOnlyOnFirstKeys` | src/js/index.js:120-147 | on section keys the two scripts agree only for F1, on number keys only for F5 |
| `Shortcuts.SrcF2SelectsOD` | src/js/index.js:120-125 | F2 clicks OD in `src/js/index.js` and SP in `index.js` |
| `Theme.PersistedText` | index.js:117 | the stored text is `"true"` exactly for dark mode and `"false"` otherwise |
| `Theme.SavedDark` | index.js:121 | page load turns dark mode on exactly when storage holds under `darkMode` the text a toggle into dark mode writes; a missing key or the stored `"false"` leaves the page light |
| `Theme.PersistRoundTrip` | index.js:114-124 | what a toggle stores is what the next load applies: only an exact `"true"` turns dark mode on |
| `Composer.SectionShortcut` | index.js:83-95 | a key clicks a section button exactly when it is one of F1–F4, always a button that exists; in `index.js` F1–F4 click OD, SP, BN, TP in that order, in `src/js/index.js` (lines 120-132) every one of them clicks OD |
| `Composer.NumberShortcut` | index.js:98-110 | a key clicks a number button exactly when it is one of F5–F8, always a button that exists; in `index.js` F5–F8 click 23, 24, 25, 26 in that order, in `src/js/index.js` (lines 135-147) every one of them clicks 23 |
| `Composer.InitialCode` | src/js/index.js:33-37 | with the defaults and an empty field the page shows `OD-24-F0000000` |
| `Composer.IndexOf` | index.js:85 | the button found for a value carries that value and is the first that does |
| `Composer.Controller.constructor` | index.js:13-17 | page load gives section OD, number 24, an empty field, the display computed from them (`OD-24-F0000000`), no clipboard writes, and dark mode exactly when the toggle is wired and storage holds `"true"` |
| `Composer.Controller.UpdateResult` | index.js:134-137 | the result text becomes the code of the current section, number and field |
| `Composer.Controller.CopyToClipboard` | index.js:139-141 | exactly one write, of the text currently shown, is appended to the clipboard log |
| `Composer.Controller.ResetInput` | index.js:156-158 | the field is emptied and the result text shows seven zeros |
| `Composer.Controller.ClickSection` | index.js:21-29 | the clicked button's value becomes the section, only that button stays active, and the number, field, clipboard and theme are untouched |
| `Composer.Controller.ClickNumber` | src/js/index.js:56-64 | the clicked button's value becomes the number, only that button stays active, and the rest is untouched |
| `Composer.Controller.Input` | index.js:41-58 | the field keeps the digits of the edit, at most seven; the shake fires exactly when digits were cut off; seven digits write the full code once and empty the field; otherwise nothing is written; the section, number and theme are untouched |
| `Composer.Controller.CopyButton` | index.js:61-64 | the shown code is written once and the field is emptied; selection and theme are untouched |
| `Composer.Controller.KeyDown` | index.js:67-111 | on the field, Enter/F9 write the shown code once and clear, and Escape clears without a write; function keys change the selection as the variant's table says; other keys change nothing |
| `Composer.Controller.FieldKey` | src/js/index.js:106-117 | Enter/F9 write the shown code and clear the field; Escape clears it with no write; any other key changes nothing |
| `Composer.Controller.FunctionKey` | src/js/index.js:119-147 | the selection follows the variant's table, and a group no key addresses keeps its value and its active marks |
| `Composer.Controller.ToggleTheme` | src/js/index.js:151-156 | only with a toggle on the page: dark mode flips and storage holds `"true"` or `"false"` to match |

## Left out

- DOM plumbing is not modelled: element lookups, `focus()` calls, the 10 ms
  refocus timer and the click-anywhere refocus listener. They move focus
  only and hold no state.
- The clipboard is a log of the texts handed to `navigator.clipboard.writeText`.
  The promise is left out, along with the "copied" styling, its 2000 ms
  revert timer and the `console.error` on failure. A failed write still
  appears in the log, because the handlers reset the field either way.
- The error shake is the `shake` result of `Input`. The CSS class and the
  500 ms timer that removes it are left out.
- `preventDefault()` calls are not modelled, because they only suppress the
  browser's own handling of the key.
- The markup is not part of this model. The section buttons are taken as
  OD, SP, BN, TP and the number buttons as 23, 24, 25, 26, in that order.
  OD and 24 start active and the field starts empty. A `.click()` on a
  missing button, which would throw, is not modelled.
- The toggle's emoji glyph is not modelled.
- `localStorage` is a `map` that never fails.
- Whether the key event's target is the digit field is a boolean parameter.
- The browser's editing of the field (caret, paste) is not modelled. `Input`
  receives the field's text as the handler sees it.
- `src/js/index.js` does not parse as written: there is a stray `}` at line
  84 and a mismatched `}` / `});` at lines 91–92. The model follows the
  handler logic as evidently meant.
- The same file registers the copy button listener twice (lines 87–98).
  With both listeners, a click would first write the shown code and reset
  the field. The second listener then reads the result text again, which
  the reset has already changed to `SECTION-NUMBER-F0000000`, so its write
  is the zero-filled code. The model has one copy and reset per click.
- `index.js` wires the theme toggle without a null check. On a page without
  a toggle it throws at line 114, after every other handler is registered.
  The throw skips only the theme load (line 121) and the refocus listener
  (line 127). The model covers this as a controller without a toggle, which
  stays light.
- Strings are Dafny `char` sequences, not UTF-16 code units. The digit class
  is the same under both.

## Findings

| source | as written | input that shows it | evidently intended | confidence | as-written member | corrected member |
|---|---|---|---|---|---|---|
| src/js/index.js:120-147 | the membership test `['F1','F2','F3','F4'].includes(key)` runs before the per-key branches, so every section key clicks OD and, in the second chain, every number key clicks 23; the F2–F4 and F6–F8 branches can never run | key `F2` (likewise F3, F4, F6, F7, F8) | each key clicks its own button, F2 → SP, as the dead branches and `index.js:86-88` say | high; not executed | `Shortcuts.SrcSectionShortcut` and `Shortcuts.SrcNumberShortcut`, shown by `Shortcuts.SrcF2SelectsOD` | `Shortcuts.RootShortcut` (each of F1–F8 proved to click its own, distinct button) |

The corrected table is `index.js` as written: its per-key chain at lines
83-110 is the behaviour that `src/js/index.js` evidently intended. The
`src/js/index.js` variant of the controller keeps that file's dispatch as
written.
