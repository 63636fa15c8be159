# Panel toggling, deep links and form serialization of the zyglab page script

A Dafny model of the two pieces of logic in `js/main.js` that stand apart
from jQuery and the browser:

- **the form serializer** `$.fn.serializeObject`. It folds the `(name, value)`
  pairs reported by `serializeArray` into a payload object. A name seen once maps
  to a string. A repeated name maps to the array of its values in encounter order.
  The test `if (o[this.name])` uses JavaScript truthiness, so a stored empty
  string counts as absent and the next value for that name overwrites it.
  Module `FormSerializer` (`form_serializer.dfy`):
  - `SerializeObject` is the imperative loop that updates `o`.
  - `Serialize` is the fold that specifies it.
  - `Expected` describes the result key by key. For each name, leading empty
    values are dropped; one remaining value is a string and two or more form a
    list.
  - `SerializeMatchesExpected` proves that the fold and the key-by-key
    description agree for every input.
- **the panel controller with history sync**. This is `openCloseModal`, the
  document-ready hash handler, `window.onpopstate` and the two click handlers.
  The DOM is abstracted to:
  - the fixed set of container ids, and the ids of the page's other elements;
  - the set of panels whose `.work-item` is displayed;
  - the set of panels whose `.work-toggle` is `active`;
  - the history stack, whose entries are a state object (`null` or
    `{id: <id or null>}`) and a URL.

  Module `Panels` (`panels.dfy`) gives each handler as a pure transition and
  proves its properties. These include:
  - mutual exclusion;
  - a no-op on an unknown id;
  - history growth only when `push` is true;
  - the toggle round trip;
  - reload reopening the deep-linked panel;
  - replay never growing the history.

  Module `PanelController` (`panel_controller.dfy`) holds the same handlers as
  methods of a class that owns that state and updates it in place. Each method
  is proved equal to its transition and to keep the one-panel invariant.
- **the URL strings**. Module `Location` (`location.dfy`) holds:
  - the pushed URL `pathname + '#!/' + id`;
  - `window.location.hash`;
  - `String.prototype.replace` with a string pattern and a replacement without
    `$`, which replaces only the first occurrence, anywhere in the string;
  - the round trip showing that the hash of a pushed URL strips back to its id.

  The scroll offset rule is the pure function `Panels.ScrollOffset`: 151 pixels
  normally, 28 below a 700-pixel viewport.

Where the code behaves differently from what its structure suggests, the
model follows the code:
- On popstate, a state carrying an id calls `openCloseModal(id, false)`. That
  call is a toggle, not "open". If that panel is already displayed, the call
  closes it (`Panels.PopStateReplays` states both directions).
- A repeated name whose first value was empty does not become a list. The empty
  value is overwritten (`FormSerializer.EmptyValueIsOverwritten`).
- A page loaded at a deep link keeps a first history entry whose state object
  is `null`. Going back to that entry therefore closes every panel even though
  its URL names one.
- An id that names an element other than a container, such as a `contact`
  section, passes the emptiness test at line 34. With `push`, the call then
  records a `{id: null}` entry without changing any panel
  (`Panels.OtherElementPushesClose`).

## Model

| member | source | states |
|---|---|---|
| FormSerializer.Absorb | js/main.js:7-16 | one callback run adds the field's name as a key and changes no other key; a falsy entry becomes the field's value (`''` when missing), a string becomes `[string, value]`, and an array gains the value at its end |
| FormSerializer.Serialize | js/main.js:4-18 | the object after all fields in order; a value is an array only when it holds at least two values |
| FormSerializer.SerializeObject | js/main.js:2-19 | the loop builds exactly the fold of the fields; its keys are the field names that occur, and each key holds the key-by-key description of that name's values |
| FormSerializer.SerializeMatchesExpected | js/main.js:7-16 | for every field list, the fold equals the description: per name, leading `''` values are overwritten, then one value stays a string and several form a list in encounter order |
| FormSerializer.KeysAreNames | js/main.js:7-16 | the payload has exactly one key per distinct field name |
| FormSerializer.RepeatedNamesKeepOrder | js/main.js:8-15 | when a name's first value is non-empty, one occurrence gives that string and repeated occurrences give all values in encounter order |
| FormSerializer.FirstOccurrenceIsScalar | js/main.js:13-15 | a name met for the first time maps to its value, and to `''` when the value is missing |
| FormSerializer.SecondOccurrenceMakesList | js/main.js:9-12 | a second occurrence after a non-empty string turns it into `[first, second]` |
| FormSerializer.LaterOccurrenceAppends | js/main.js:12 | a later occurrence appends its value to the existing array |
| FormSerializer.EmptyValueIsOverwritten | js/main.js:8-15 | a stored `''` is falsy, so the next occurrence overwrites it with a string instead of starting an array |
| FormSerializer.ExamplePayload | js/main.js:2-19 | fields `tag=a, tag=b, name=x` give `{tag: ["a","b"], name: "x"}` |
| Location.IndexOf | js/main.js:99 | the result is the first index where the pattern occurs, with no occurrence before it; none means no occurrence anywhere |
| Location.ReplaceFirst | js/main.js:99 | for a replacement without `$`: without an occurrence the string is unchanged; otherwise, at the first occurrence `i`, the text before `i` is kept, `rep` stands at `i`, and the text after the pattern follows it |
| Location.LocationHash | js/main.js:96 | the hash is the URL from its first `#` to the end; it is empty when the URL has no `#` or nothing follows the first `#` |
| Location.PageUrl | js/main.js:76 | the pushed URL is the path followed by `'#!/' + id`; when the path holds no `#`, its first `#` is the marker's |
| Location.IdFromHash | js/main.js:99 | a hash that begins with `'#!/'` loses exactly that prefix; a hash without the marker is returned as it is; the result is never longer than the hash |
| Location.StripMarker | js/main.js:99 | removing `'#!/'` from `'#!/' + id` gives back `id` |
| Location.DeepLinkRoundTrip | js/main.js:96-99 | for a path without `#` and an id of characters left unencoded in a fragment, the hash of the URL pushed for `id` (line 76) is `'#!/' + id`, is non-empty, and strips back to `id` |
| Location.NoMarkerKeepsHash | js/main.js:99 | a hash without the marker is passed on unchanged |
| Panels.ScrollOffset | js/main.js:60-65 | the offset is 28 exactly when the viewport is narrower than 700, and 151 otherwise |
| Panels.ScrollTarget | js/main.js:60-67 | the scroll target is the panel top minus 151, or minus 28 below 700 pixels, so it never exceeds the top minus 28 |
| Panels.OpenClose | js/main.js:24-93 | an id naming no container changes no panel, and changes nothing at all unless it names another element and `push` is true, when a `{id: null}` entry is appended; for a known id the call flips whether that panel is displayed and active; no other panel becomes displayed; history keeps its old entries, gains at most one, and none when `push` is false |
| Panels.OnLoad | js/main.js:95-102 | page load never changes the history, and without a fragment changes nothing |
| Panels.OnPopState | js/main.js:104-111 | popstate never changes the history, and a `null` state or a `null` id leaves no panel displayed and no toggle active |
| Panels.UnknownIdIsNoOp | js/main.js:27-36 | an id naming no element leaves visibility, toggles and history unchanged |
| Panels.OtherElementPushesClose | js/main.js:38-91 | an id naming an element that is not a container changes no panel or toggle; with `push` it appends `{id: null}` at the bare path, without `push` nothing |
| Panels.OpenIsExclusive | js/main.js:42-47 | opening a hidden panel leaves exactly that panel displayed and only its toggle active |
| Panels.CloseHidesTarget | js/main.js:84-86 | on a consistent page, calling it on the displayed panel leaves no panel displayed and no toggle active |
| Panels.HistoryFollowsPush | js/main.js:74-91 | with `push` false or an id naming no element the history is unchanged; with `push`, opening appends `{id}` at `pathname + '#!/' + id`, and closing or an id naming a non-container element appends `{id: null}` at the bare path |
| Panels.OpenCloseKeepsConsistent | js/main.js:24-93 | every call keeps at most one panel displayed, with exactly the displayed panels' toggles active |
| Panels.ToggleTwiceRestores | js/main.js:42-91 | two calls on the same id from the all-closed page return to it, and the history gains the open then the close entry only when `push` is true |
| Panels.OpenThenOpenOther | js/main.js:42-47 | opening `a` and then `b` leaves only `b` displayed and active |
| Panels.ReloadReopens | js/main.js:95-102 | loading the URL pushed for a panel whose id the fragment keeps unencoded reopens exactly that panel and adds no history entry |
| Panels.LoadWithoutFragment | js/main.js:98-101 | a load without a fragment changes nothing |
| Panels.PopStateReplays | js/main.js:104-111 | popstate never changes the history; a `null` state or id closes all panels; an id ends as the only displayed panel exactly when it names a panel that was hidden |
| Panels.BackThenForward | js/main.js:104-111 | after opening `a` from the closed page, going back restores the closed page and going forward reopens `a`, with the history unchanged by both |
| Panels.StepKeepsConsistent | js/main.js:95-127 | each click, load or popstate keeps the one-panel invariant |
| Panels.RunKeepsConsistent | js/main.js:24-127 | after any sequence of clicks, loads and navigations, at most one panel is displayed and only its toggle is active |
| Panels.HistoryOnlyAppends | js/main.js:74-91 | on the append-only stack of this model, the pushed entries only accumulate after the existing ones, at most one per event |
| Panels.ReplayKeepsHistory | js/main.js:95-111 | any run of loads and back/forward navigations leaves the history stack unchanged |
| PanelController.Controller.OpenCloseModal | js/main.js:24-93 | the in-place update produces the `openCloseModal` transition and keeps the one-panel invariant |
| PanelController.Controller.OnReady | js/main.js:95-102 | the ready handler produces the load transition and leaves the history as it was |
| PanelController.Controller.OnPopState | js/main.js:104-111 | the popstate handler produces the replay transition and leaves the history as it was |
| PanelController.Controller.OnToggleClick | js/main.js:113-121 | a toggle click is `openCloseModal(data-id, true)` |
| PanelController.Controller.OnCloseClick | js/main.js:123-131 | a close click toggles the enclosing container's panel with `push`, and changes nothing when there is no enclosing container |

## Left out

- Lazy image loading (js/main.js:49-57) is not modelled. Its `load` callbacks are asynchronous browser events.
- The delayed scroll (js/main.js:59-72) is not modelled. It is timer-driven and reads layout. Only the offset rule is kept, as `Panels.ScrollOffset`, and `Panels.ScrollTarget` assumes a whole-pixel panel top.
- The `gtag` analytics call (js/main.js:80-82) is not modelled. It is a foreign call with no effect on the modelled state.
- The contact form submission (js/main.js:140-165) is not modelled. It is network I/O with DOM callbacks; only its serializer is modelled.
- The `.know-more` toggle (js/main.js:133-138) is not modelled. It is a bare visibility flip.
- Animations and `display` styles are not modelled. `.show()`/`.hide()` become immediate set updates, and `addClass`/`removeClass('active')` become updates of the active set.
- Selector parsing is not modelled. `$('#' + id)` compares ids literally. A hash without the `#!/` marker, such as `#contact`, makes jQuery throw on `'##contact'`. The model treats that id as unknown, which leaves the same state.
- jQuery's `.data('id')` converts numeric-looking attribute values to numbers, which would send `openCloseModal` down its element branch. Toggle `data-id`s are taken to be plain strings.
- A container reached by `.find` is taken to hold one `.work-item` and one `.work-toggle`, and an element that is not a container is taken to hold none (an element wrapping containers would make `.find` at lines 38-40 select their items and toggles). A container given as an element is taken to carry an id.
- Location.LocationHash: does not model the browser's percent-encoding of the fragment. A browser encodes space, `"`, `<`, `>`, backtick, control and non-ASCII characters, so an id such as `café` reads back as `caf%C3%A9` and page load does not find its panel. The round-trip lemmas `Location.DeepLinkRoundTrip` and `Panels.ReloadReopens` therefore claim the round trip only for ids made of characters the fragment keeps (`Location.FragmentSafe`).
- The serializer does not model field names that coincide with members inherited from `Object.prototype` (such as `toString`). For those names, `o[name]` is truthy before the first assignment.
- Location.ReplaceFirst: covers only replacements without `$`. JavaScript expands `$&`, `$$`, `` $` `` and `$'` in a replacement string; the one use here, at line 99, replaces with `''`.
- The browser's own history traversal is not modelled: the cursor, and forward entries dropped on `pushState`. The History API is the browser's own. `pushState` appends to the stack, and popstate receives the state of the entry navigated to as a parameter.
- The markup is taken to serve every item hidden, with one history entry whose state is `null`. This is the state the controller's constructor builds.
