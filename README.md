# Portfolio page behaviour: a Dafny model

This project models the client-side logic of a single-page portfolio site that
the page script (`script.js`) implements itself, apart from the libraries it
wires up:

- **Preloader** (`preloader.dfy`, module `Preloader`): a percentage counter
  over a two-second duration. Each animation frame shows a new value and asks
  for another frame until the counter reaches 100. Then it starts the
  loading screen's fade-out, whose completion hides the screen and runs the
  page's initialization sequence once.
- **Navigation auto-hide** (`navigation.dfy`, module `Navigation`): the bar
  hides on a downward move past position 100 and reappears on any upward
  move. Scroll events are throttled to one pending update per frame.
- **Accent colour switcher** (`color_switcher.dfy`, module `ColorSwitcher`):
  a toggle cycles a three-colour palette. Each change writes the body class,
  the `--accent` property, the cursor border and an `accent-style`
  stylesheet, which replaces the previous one.
- **Contact modal** (`contact_form.dfy`, module `ContactForm`): the modal
  opens and closes, and each close resets the form. The submit handler
  shows a loading state, calls an email relay, and then shows a success or
  error message. A success resets the form and schedules a close, and in
  every case the button is restored.

Each component is a class whose fields are the page state that the script
changes in place. Its methods are the event handlers. Pure functions
(`Progress`, `Step`, `RemoveFirstWithId`) serve as specifications: the
methods' contracts are stated in terms of them. Other pure functions (`Run`,
`IndexOf`, `IndexAfterClicks`, `FirstWithId`) are the subjects of lemmas. The
lemmas prove the multi-step properties.

## Model

| member | source | states |
|---|---|---|
| `Preloader.Progress` | script.js:36-37 | The counter value is at most 100. Below 100 it is the floor of elapsed×100/duration. It is 100 exactly when elapsed ≥ duration. |
| `Preloader.ProgressMonotone` | script.js:35-38 | The counter never decreases as the elapsed time grows. |
| `Preloader.Loader.constructor` | script.js:25-27 | The preloader starts with the counter at 0 and the first update due. Nothing is hidden and initialization has not run. |
| `Preloader.Loader.UpdateCounter` | script.js:35-54 | Shows `Progress(elapsed, 2000)`. Below 100 it requests another frame. At 100 it requests no frame and starts the single fade-out. The invariant "hand-off at most once, only at 100" is kept. |
| `Preloader.Loader.CompleteFade` | script.js:48-51 | When the fade-out completes, the screen is hidden and the initialization sequence has run exactly once. |
| `Preloader.Loader.RunFrames` | script.js:35-56 | Driven by non-decreasing frame times, the shown values are `Progress` of each time and never decrease. Only the last can be 100. The loop hands off exactly when some time reaches 2000 ms. It keeps requesting frames exactly while every time is below 2000 ms. With no frame times, the counter is unchanged. |
| `Navigation.Step` | script.js:312-327 | An update records the new position. It keeps "hidden exactly when the direction is down". |
| `Navigation.RunKeepsConsistent` | script.js:303-323 | After any series of scroll updates, the bar is hidden exactly when the recorded direction is down. |
| `Navigation.RunRemembersLast` | script.js:326 | After a series of updates, the remembered position is the last sample. |
| `Navigation.RunSnoc` | script.js:309-328 | Processing one more sample is one more update applied to the state reached so far. |
| `Navigation.UpwardMoveShows` | script.js:318-323 | Whatever came before, a final move up leaves the direction up and the bar shown. |
| `Navigation.DownwardMoveHides` | script.js:312-317 | Whatever came before, a final move down past 100 leaves the direction down and the bar hidden. |
| `Navigation.NoHideWithinThreshold` | script.js:312 | Scrolling that stays at or below position 100 never hides a shown bar. |
| `Navigation.NavBar.constructor` | script.js:302-307 | Starts at position 0, direction up, bar shown, no update pending. |
| `Navigation.NavBar.OnScroll` | script.js:332-344 | A scroll event requests an update exactly when none is pending. Afterwards an update is pending. |
| `Navigation.NavBar.UpdateNav` | script.js:309-328 | A move down past 100 gives direction down and hides the bar. A move up gives direction up and shows it. Otherwise both stay as they were. The position is recorded and the throttle flag cleared. |
| `ColorSwitcher.IndexOf` | script.js:367 | Returns the first position of the name in the palette, or -1 exactly when it is absent. |
| `ColorSwitcher.ClicksAdvance` | script.js:374 | From a palette index, n clicks give index (i + n) mod 3. |
| `ColorSwitcher.ThreeClicksCycle` | script.js:366-377 | Three clicks return to the starting accent, and they show each of the three colours once. |
| `ColorSwitcher.FirstWithId` | script.js:411 | A lookup by id finds the first head child carrying that id, or nothing (-1) exactly when no child has it. |
| `ColorSwitcher.RemoveFirstWithId` | script.js:411-414 | Removing the element found by id takes away exactly one node with that id when there is one. It leaves every other head child in place and in order. |
| `ColorSwitcher.RemovesFirstMatch` | script.js:411-414 | The node removed is the first one with the id, which is the one the lookup finds. The result is the head with exactly that position cut out. |
| `ColorSwitcher.ReplaceStyle` | script.js:411-416 | Cutting out the first accent stylesheet and appending the new one leaves exactly as many as before, or one when there were none. The other head children keep their order, and the cut is at the first match. |
| `ColorSwitcher.Switcher.constructor` | script.js:364-371 | Set-up applies the initial accent `blue` at index 0. The new head is the old one with its first accent stylesheet cut out, if it had one, and a `blue` stylesheet appended. A head without an accent stylesheet ends up with exactly one. |
| `ColorSwitcher.Switcher.UpdateAccentColor` | script.js:390-417 | Writes the colour's hex value to `--accent`, to the cursor when one exists, and to a new last stylesheet. The new head is the old head with its first accent stylesheet cut out, if it had one, and the new sheet appended. Other head children are untouched. |
| `ColorSwitcher.Switcher.Click` | script.js:373-377 | Sets the index to (index + 1) mod 3, and the accent becomes that palette entry. The body class becomes `accent-` plus its name. The `--accent` property, the cursor border (when a cursor exists) and the new last stylesheet get its hex value. Without a cursor, the border stays as it was. The new head is the old one with its first accent stylesheet cut out and the new one appended. The number of accent stylesheets is unchanged, so a page that had exactly one keeps exactly one. |
| `ContactForm.ContactModal.constructor` | script.js:529-538 | Starts with the modal closed, fields empty, button ready and no message. |
| `ContactForm.ContactModal.Open` | script.js:542-544 | Opening shows the modal and locks page scrolling. |
| `ContactForm.ContactModal.Edit` | script.js:591-593 | An environment action: the user types into the three fields. The submit handler reads these values at the cited lines. |
| `ContactForm.ContactModal.CloseModal` | script.js:555-569 | Closing hides the modal, unlocks scrolling, resets the form and hides the message. |
| `ContactForm.ContactModal.KeyDown` | script.js:580-584 | Escape on an open modal closes it: the modal is hidden, scrolling unlocked, all three fields cleared and the message hidden. Any other key, or Escape while the modal is closed, changes nothing. |
| `ContactForm.ContactModal.BeginSubmit` | script.js:595-611 | The loading indicator is shown, the label hidden, the button disabled and the message hidden. The request carries the three field values and the relay's identifiers. |
| `ContactForm.ContactModal.SettleSubmit` | script.js:613-649 | On success it shows the success text and class, resets the form and schedules one close. On failure it shows the error text and class, keeps the fields and schedules nothing. In both cases the button ends enabled with the loading indicator hidden. |
| `ContactForm.ContactModal.Submit` | script.js:586-651 | A whole submission ends with the button ready and the outcome's message shown. Success gives the success text with the green class. Failure gives the error text with the red class. The modal stays open or closed as it was. A close is scheduled and the form reset only on success. |
| `ContactForm.ContactModal.CloseTimerFires` | script.js:627-630 | A scheduled close fires. It closes the modal, unlocks scrolling, resets the form and hides the message. |

## Left out

- Preloader.Progress: uses exact integer arithmetic, while the page computes the value in IEEE doubles. At 580, 1140 and 1160 ms, `elapsed / 2000 * 100` falls just below the whole number (1140 gives 56.99999999999999), so the page shows one less than the model. The model keeps the stated formula.
- The elapsed time is a natural number of milliseconds. A wall clock moving backwards (`Date.now()` is not monotonic) is not modelled.
- The timing of GSAP tweens. The preloader fade is two steps (start, then `CompleteFade`). The modal's closing tween is modelled by its completion effects, applied at once. The logo, toggle, message and modal-entrance animations are not modelled: they change only styles.
- The email relay call itself is a foreign asynchronous network request. `BeginSubmit` returns the request, and its outcome is the `ok` input of `SettleSubmit`. Logging the error to the console is not modelled.
- The scroll position is an integer input. The fallback from `window.scrollY` to the smooth-scroll library's position, and fractional positions, are not modelled.
- The 100 ms delay before the navigation controller is installed, and the nav-link click handlers that delegate to the smooth-scroll library, are not modelled.
- The smooth-scroll library, the WebGL background scene, the magnetic cursor, the scroll-triggered reveal animations and the responsive breakpoint defaults are not modelled. They are third-party calls or floating-point, per-frame animation.
- Missing DOM elements are not modelled: the modal, form and buttons are assumed to exist. Whether the cursor element exists is fixed when the switcher is set up, although the page looks it up on every colour change.
- The page's initial markup is not part of this model. The constructors assume a closed modal, a hidden message and empty field defaults, so a form reset clears the fields to empty strings.
- Style text is reduced to the accent colour each stylesheet carries.
- The lookup of `accent-style` by id searches the whole document, but the model searches only the head's children. This loses nothing, because the script only ever gives that id to a stylesheet it appends to the head.
