# Landing-page interaction controller, modelled in Dafny

This project models the client-side script of a marketing landing page
(`js/script.js`). With the DOM reduced to plain state, it covers these parts:

- **Field validation feedback.** The required-field check is `value.trim() === ''`.
  The email pattern is `^[^\s@]+@[^\s@]+\.[^\s@]+$`. The blur and focus listeners
  set a field's border colour and insert or remove the `validation-error`
  element right after the field (`showValidationError` / `removeValidationError`).
- **Overlay state machine.** There are two overlays, the contact popup and the
  thank-you page, each hidden or visible. They share the body's scroll lock
  (`document.body.style.overflow`). The inline `success-message` sits after
  the contact form. The transitions are the open and close buttons, a backdrop
  click, Escape and the 3-second auto-close timer.
- **Two form submissions.** The contact history is append-only. The single
  `ebookRequest` entry is overwritten on each submission. The network outcome
  is an input (`Response`) that selects which message or overlay is shown.
- **Anchor scrolling and the navigation bar.** An anchor scrolls to
  `offsetTop - 80`, and `#` does nothing. The navigation bar is opaque exactly
  when the scroll offset exceeds 100.

Modules, one per concern of the script:

| file | module | what it holds |
|---|---|---|
| wrappers.dfy | `Wrappers` | `Option` |
| text.dfy | `Text` | the ECMAScript whitespace set, `trim`, the blank test |
| email.dfy | `Email` | the email pattern as an automaton (`Matches`), its split description (`EmailShape`), its literal reading (`PatternLanguage`), and proofs that all three agree |
| siblings.dfy | `Siblings` | the element siblings after a node, and removal and insertion by class |
| fields.dfy | `Fields` | class `Field`: value, border colour, following siblings; blur and focus listeners |
| page.dfy | `Page` | classes `Overlays`, `Storage` and `Viewport`; the submit handlers, anchor scrolling and nav styling |

The script looks up its elements once and then uses several of them without a
null check. These are `contactFormPopup` and `thankYouPage` in Escape and in
the show/hide functions, `downloadLink` in `showThankYouPage`, and `nav` in
the scroll listener. Each of them has an `...Exists` flag, and touching a
missing one ends the handler with `TypeError`. The order of effects before
that point is kept. For example, Escape hides a visible thank-you page and
then fails on a missing popup. `showThankYouPage` shows the page and then
fails on a missing download link. That error is caught by the eBook submit
handler's `catch`, which raises the same alert as a failed submission.

The body's scroll lock is one flag shared by both overlays. Hiding either one
clears it, even when the other is still visible. `Page.AutoCloseAfterManualClose`
proves a concrete sequence of events where this happens:

1. A contact submission succeeds and schedules the auto-close timer.
2. The user closes the popup by hand.
3. The thank-you page opens.
4. The timer fires on the already hidden popup.

The popup is unaffected, but scrolling comes back under the visible thank-you
page.

Two behaviours of the code shape the contracts:

- `contactFormPopup` and `thankYouPage` are dereferenced without a null check
  (js/script.js:107-127, 186-218, 266-275). When one of them is missing, the
  model returns `TypeError` after the effects that came before the failing
  access, as described above.
- Before it inserts a new message, `showSuccessMessageInPopup` removes only the
  first `.success-message` it finds (js/script.js:325-328), although its comment
  says "if any". The same holds for `removeValidationError`, which removes only
  the nearest following element (js/script.js:440-445). With at most one
  message present, exactly one remains after an insertion. The model proves
  this under the invariants `Overlays.Valid()` and `Field.Valid()`, which both
  handlers preserve. `Siblings.ReplaceFirst` and `Siblings.ReplaceNext` state
  what happens without that bound: the count is kept, so two messages stay two.

A `localStorage` access that throws is an input of both submit handlers
(`storageFails`). It covers a denied access and an exceeded quota. It also
covers a stored history that is not JSON, and stored JSON that is not an array
(`null`, `5`, `{}`), on which `push` throws (js/script.js:139). The exception escapes before the request is made,
so nothing is stored, nothing is shown and the handler ends with
`StorageError`.

## Model

| member | source | states |
|---|---|---|
| Text.LeadingWhitespace | js/script.js:396 | counts the whitespace characters that begin the value, up to its first non-whitespace character |
| Text.TrailingWhitespace | js/script.js:396 | counts the whitespace characters that end the value, back to its last non-whitespace character |
| Text.Trim | js/script.js:396 | the trimmed value is empty or starts and ends with a non-whitespace character; it is empty (`value.trim() === ''`) iff the value is all whitespace, the empty value included |
| Text.TrimIsSlice | js/script.js:396 | the trimmed value is a contiguous slice of the value with only whitespace on either side |
| Text.IsBlank | js/script.js:396 | the required-field test `value.trim() === ''` holds iff the value is all whitespace, the empty value included |
| Email.RunAccepts | js/script.js:412 | from every automaton state, the automaton accepts exactly the inputs that the state's residual description allows |
| Email.Matches | js/script.js:412 | the pattern accepts a value iff it splits as a non-empty local part without whitespace or `@`, then `@`, then a domain without whitespace or `@` that has a `.` neither first nor last |
| Email.EmailShapeIffPattern | js/script.js:412 | that split description is equivalent to the literal reading of the pattern as three non-empty `[^\s@]` runs joined by `@` and `.` |
| Email.MatchedHasOneAt | js/script.js:412 | an accepted value has no whitespace and exactly one `@` |
| Email.SampleValid | js/script.js:412 | `a@b.co` is accepted |
| Email.SampleInvalid | js/script.js:412 | `not-an-email` is rejected |
| Siblings.FirstIndex | js/script.js:325 | `querySelector` by class finds the first element with that class, or none |
| Siblings.RemoveNextWithClass | js/script.js:440-445 | removing `nextElementSibling` when it has the class shortens the run of such elements after the node by one and the list by one element; a list that does not start with one is left unchanged; the elements without the class are kept, in order |
| Siblings.RemoveFirstWithClass | js/script.js:196-199 | removing the first element found with a class lowers that class's count by one and the list's length by one; everything before it is kept; the elements without the class are kept, in order; a list without one is left unchanged |
| Siblings.DropAt | js/script.js:325-328 | dropping one element lowers a class's count by one exactly when that element has the class, and then leaves the elements without the class as they were |
| Siblings.ReplaceFirst | js/script.js:325-346 | remove-first-then-insert keeps the class's count, or makes it one when there was none; the new element is the first one found and carries the text; behind it is exactly what removal left, so the elements without the class are kept, in order |
| Siblings.ReplaceNext | js/script.js:424-438 | remove-next-then-insert keeps the length of the run of error elements after the field, or makes it one when there was none; the new element carries the text; the elements without the class are kept, in order |
| Siblings.ReplaceFirstLeavesOne | js/script.js:323-347 | after remove-first-then-insert with at most one such element before, exactly one remains; it is the first found and carries the new text |
| Siblings.RemoveFirstClears | js/script.js:195-199 | with at most one message present, removing the first leaves none, and a second removal changes nothing |
| Siblings.RemoveNextIdempotent | js/script.js:440-445 | removing the `validation-error` next sibling leaves none directly after the node, and repeating it changes nothing |
| Siblings.RemoveNextOnlyTouchesClass | js/script.js:440-445 | removal leaves the siblings unchanged exactly when the next element lacks the class, and otherwise drops only that next element |
| Siblings.RemoveNextStacked | js/script.js:440-445 | with two stacked error elements, one removal leaves the other, so idempotence needs the at-most-one invariant |
| Siblings.ReplaceNextLeavesOne | js/script.js:424-438 | after showing an error, exactly one error element sits directly after the field; it carries the message, and the rest is what removal left |
| Fields.Field.RemoveValidationError | js/script.js:440-445 | only a following `validation-error` element is removed, and none is left directly after the field |
| Fields.Field.ShowValidationError | js/script.js:424-438 | any existing error is removed first, so exactly one error element with the message follows the field |
| Fields.Field.Focus | js/script.js:403-405 | focus on a required field always sets the focus colour |
| Fields.Field.Blur | js/script.js:395-420 | required: red iff trimmed value empty, else green; email: empty value leaves the message, invalid gives red and one error sibling, valid gives green and no error sibling |
| Fields.WhitespaceOnlyIsRejected | js/script.js:396-413 | a non-empty whitespace-only value is blank for the required check and rejected by the email pattern |
| Page.Overlays.ShowContactFormPopup | js/script.js:186-189 | the popup becomes visible and scrolling is locked; a missing popup raises and changes nothing |
| Page.Overlays.HideContactFormPopup | js/script.js:191-200 | the popup is hidden, scrolling is restored and its inline message is removed; calling it again is harmless |
| Page.Overlays.ShowThankYouPage | js/script.js:206-213 | the thank-you page becomes visible, scrolling is locked and the download link points at the eBook file |
| Page.Overlays.HideThankYouPage | js/script.js:215-218 | the thank-you page is hidden and scrolling is restored |
| Page.Overlays.OnContactClick | js/script.js:121-127 | only a click whose target is the popup container itself closes the popup |
| Page.Overlays.OnThankYouClick | js/script.js:257-263 | only a click whose target is the thank-you container itself closes the page |
| Page.Overlays.OnKeyDown | js/script.js:266-275 | Escape hides every visible overlay and leaves hidden ones alone; scrolling is restored iff one closed; a missing overlay raises; any other key changes nothing |
| Page.Overlays.ShowSuccessMessageInPopup | js/script.js:323-347 | exactly one `success-message` follows the form, and it carries the newest text |
| Page.Storage.AppendContact | js/script.js:138-146 | the contact history grows by exactly the new record |
| Page.Storage.SaveEbookRequest | js/script.js:60-66 | the eBook request entry is overwritten by the new one |
| Page.PhoneOrDefault | js/script.js:64 | a missing or empty phone becomes `Not provided`; any other phone is kept |
| Page.SubmitContact | js/script.js:130-180 | a throwing storage access ends the handler before the request and changes nothing; otherwise the history grows by one and earlier entries are unchanged, the popup shows the success or failure text as its only message, and auto-close is scheduled iff the response is ok |
| Page.AutoCloseContact | js/script.js:166-168 | the timer hides the popup, restores scrolling and removes the first inline message, whatever the popup's state; a missing popup raises and changes nothing |
| Page.SubmitEbook | js/script.js:52-95 | a throwing storage write ends the handler before the request and changes nothing; otherwise the request is stored with the phone default, a failed submission alerts and leaves the overlays alone, and success shows the thank-you page, points the download link at the eBook file, and alerts only when showing it raised |
| Page.AnchorScrollTop | js/script.js:15-25 | `#` and a missing target request no scroll; otherwise the requested scroll is `offsetTop - 80` |
| Page.NavStyleAt | js/script.js:457-465 | the navigation bar is opaque iff the scroll offset exceeds 100 |
| Page.Viewport.OnAnchorClick | js/script.js:10-28 | an anchor click requests a scroll to `offsetTop - 80` only for an existing target other than `#` |
| Page.Viewport.OnScroll | js/script.js:454-468 | the offset is `pageYOffset`, or the document element's offset when that is 0; the nav style follows the 100 threshold and the offset is recorded; a missing nav raises first |
| Page.AutoCloseAfterManualClose | js/script.js:166-168 | the timer firing on an already hidden popup restores scrolling under a visible thank-you page |

## Left out

- The network. `fetch`, `response.ok` and `response.json()` are replaced by the `Response` input. `sendToServer` (js/script.js:478-500) is an unused template of pure I/O.
- Asynchrony and timers. A submission runs as one step, although the record is stored before the `await` and other events could interleave. The 3-second auto-close is the separate event `Page.AutoCloseContact`. Duplicate in-flight submissions are not modelled.
- The PDF download (`fetch` of the file, `createObjectURL`, the hidden anchor, the `window.open` fallback; js/script.js:221-249). This is browser I/O.
- The Formspree captcha initialisation (js/script.js:40-50). It is a call into a foreign library.
- `showSuccessMessage` and its 5-second auto-dismiss (js/script.js:281-321). The script never calls it.
- The IntersectionObserver reveal animation and its `index * 0.1` s delays (js/script.js:354-380). They are browser-driven and use fractional seconds.
- JSON serialisation and parsing in local storage. The history is an abstract sequence of records. A stored value that `JSON.parse` rejects, or that parses to something other than an array, is folded into the `storageFails` input.
- Fields.Field.Edit: `value` is what the script reads. For an `input type="email"` the browser strips newlines and leading and trailing ASCII whitespace from `value`, so such a field filled with spaces reads as `""`. That sanitisation is not modelled, and `Edit` takes the sanitised value as given.
- Page.Overlays.constructor: the initial state assumes the markup gives both overlays the `hidden` class and the body no inline `overflow`. The markup is not part of this model.
- `new Date().toISOString()`. The timestamp is an input.
- `alert` and `console` output, and all CSS text and colour strings. Border colours are an enumeration, and the alert is a returned flag.
- `form.reset()` (js/script.js:83, 163). The form's field values are not part of the model.
- An invalid CSS selector in an anchor's `href`, on which `querySelector` would throw. Targets are a map from fragment to `offsetTop`, and a missing key is a missing element.
- The smooth-scroll animation, and where the page actually comes to rest. The browser clamps the requested `top` to between 0 and the maximum scroll offset. The model records the requested `top`.
- `offsetTop` is measured from the target's `offsetParent`, not from the document. The model takes each target's `offsetTop` as given and does not relate it to the document's coordinates.
- Text nodes between a field or form and its element siblings. Only element siblings are modelled, and the inserted element is placed first among them, as `insertBefore(…, node.nextSibling)` does.
- The popup's `querySelector('.success-message')` searches the whole popup. The model assumes any such message sits after the contact form, where the script puts it.
- Listener registration at load time. Each handler is a method, and a listener that is registered only when its element exists `requires` that element.
- Strings as UTF-16 code units. Characters are Unicode scalar values, and every whitespace character is in the Basic Multilingual Plane, so the pattern and `trim` classify characters the same way.
- Scroll offsets are modelled as integers, although the browser may report fractional values.
