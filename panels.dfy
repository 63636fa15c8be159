/**
 * The panel open/close state machine and its history bookkeeping
 * (js/main.js:24-111), over an abstract page: the fixed set of panel ids,
 * the panels whose `.work-item` is displayed, the panels whose `.work-toggle`
 * carries the `active` class, and the session history stack.
 */
module Panels {
  import opened Wrappers
  import opened Location

  type PanelId = string

  /** The state object of a history entry: `null`, or `{id: <panel id or null>}`. */
  datatype HistoryState = NoState | State(id: Option<PanelId>)

  /** One session history entry: its state object and its URL. */
  datatype Entry = Entry(state: HistoryState, url: string)

  /**
   * What the markup and the location fix: the ids of the `.work-container`
   * elements, the ids of the other elements on the page (which hold no
   * `.work-item` or `.work-toggle`), and `window.location.pathname`.
   */
  datatype Site = Site(panels: set<PanelId>, otherIds: set<PanelId>, pathname: string)

  /** `$('#' + id)` finds an element that is not a container (line 28 passes line 34). */
  predicate NamesOtherElement(site: Site, id: PanelId) {
    id !in site.panels && id in site.otherIds
  }

  /** The mutable part: displayed items, active toggles, history stack. */
  datatype Page = Page(shown: set<PanelId>, active: set<PanelId>, history: seq<Entry>)

  /** The entry pushed when a panel is opened (lines 75-78). */
  function OpenEntry(site: Site, id: PanelId): Entry {
    Entry(State(Some(id)), PageUrl(site.pathname, id))
  }

  /** The entry pushed when a panel is closed (lines 89-90). */
  function CloseEntry(site: Site): Entry {
    Entry(State(None), site.pathname)
  }

  /** At most one panel is displayed, and exactly the displayed panels have an active toggle. */
  predicate Consistent(site: Site, p: Page) {
    p.shown <= site.panels && p.active == p.shown && |p.shown| <= 1
  }

  /** Every item hidden and every toggle deactivated (lines 43-44, 106-107). */
  function HideAll(p: Page): Page {
    p.(shown := {}, active := {})
  }

  /**
   * `openCloseModal(id, push)` (lines 24-93), without the image, scroll and
   * analytics effects. For an element that is not a container, `item` is an
   * empty selection whose `css('display')` is `undefined`, so line 42 takes the
   * closing branch: nothing is hidden, and with `push` a `{id: null}` entry is
   * pushed all the same.
   */
  function OpenClose(site: Site, p: Page, id: PanelId, push: bool): (r: Page)
    ensures id !in site.panels && !(push && NamesOtherElement(site, id)) ==> r == p
    ensures push && NamesOtherElement(site, id) ==>
      r.shown == p.shown && r.active == p.active && r.history == p.history + [CloseEntry(site)]
    ensures id in site.panels ==> (id in r.shown <==> id !in p.shown) && (id in r.active <==> id !in p.shown)
    ensures forall q :: q in r.shown && q != id ==> q in p.shown
    ensures p.history <= r.history && |r.history| <= |p.history| + 1
    ensures !push ==> r.history == p.history
  {
    if id !in site.panels then
      if push && id in site.otherIds then p.(history := p.history + [CloseEntry(site)]) else p
    else if id !in p.shown then
      Page({id}, {id}, if push then p.history + [OpenEntry(site, id)] else p.history)
    else
      Page(p.shown - {id}, p.active - {id}, if push then p.history + [CloseEntry(site)] else p.history)
  }

  /** The document-ready handler (lines 95-102), given `window.location.hash`. */
  function OnLoad(site: Site, p: Page, hash: string): (r: Page)
    ensures r.history == p.history
    ensures hash == [] ==> r == p
  {
    if |hash| > 0 then OpenClose(site, p, IdFromHash(hash), false) else p
  }

  /** `window.onpopstate` (lines 104-111), given the event's state object. */
  function OnPopState(site: Site, p: Page, state: HistoryState): (r: Page)
    ensures r.history == p.history
    ensures state == NoState || state == State(None) ==> r.shown == {} && r.active == {}
  {
    match state
    case NoState => HideAll(p)
    case State(None) => HideAll(p)
    case State(Some(id)) => OpenClose(site, p, id, false)
  }

  /**
   * The vertical distance kept between the opened panel and the top of the
   * viewport (lines 60-65): `210 - 59` normally, 28 below 700 pixels of width.
   */
  function ScrollOffset(viewportWidth: int): (dist: int)
    ensures dist == 28 || dist == 151
    ensures dist == 28 <==> viewportWidth < 700
  {
    if viewportWidth < 700 then 28 else 210 - 59
  }

  /** The scroll target `offset().top - dist` (line 67), for a whole-pixel panel top. */
  function ScrollTarget(panelTop: int, viewportWidth: int): (px: int)
    ensures px <= panelTop - 28
    ensures viewportWidth >= 700 ==> px == panelTop - 151
    ensures viewportWidth < 700 ==> px == panelTop - 28
  {
    panelTop - ScrollOffset(viewportWidth)
  }

  // ---------------------------------------------------------------------------
  // Properties of one call.

  /** An id that names no element changes nothing (lines 34-36). */
  lemma UnknownIdIsNoOp(site: Site, p: Page, id: PanelId, push: bool)
    requires id !in site.panels && id !in site.otherIds
    ensures OpenClose(site, p, id, push) == p
  {
  }

  /**
   * An id that names an element other than a container changes no panel; with
   * `push` it still records a closing entry (lines 38-42, 84-91).
   */
  lemma OtherElementPushesClose(site: Site, p: Page, id: PanelId, push: bool)
    requires NamesOtherElement(site, id)
    ensures var r := OpenClose(site, p, id, push);
      r.shown == p.shown && r.active == p.active &&
      r.history == if push then p.history + [CloseEntry(site)] else p.history
  {
  }

  /**
   * Opening a hidden panel leaves exactly that panel displayed and only its
   * toggle active, whatever was displayed before (lines 42-47).
   */
  lemma OpenIsExclusive(site: Site, p: Page, id: PanelId, push: bool)
    requires id in site.panels && id !in p.shown
    ensures var r := OpenClose(site, p, id, push);
      Consistent(site, r) &&
      (forall q :: q in r.shown <==> q == id) &&
      (forall q :: q in r.active <==> q == id)
  {
  }

  /** Calling it on the displayed panel hides it and deactivates its toggle (lines 84-86). */
  lemma CloseHidesTarget(site: Site, p: Page, id: PanelId, push: bool)
    requires Consistent(site, p) && id in p.shown
    ensures var r := OpenClose(site, p, id, push);
      r.shown == {} && r.active == {} && Consistent(site, r)
  {
    assert p.shown == {id} by {
      var others := p.shown - {id};
      assert |p.shown| == |others| + 1;
    }
  }

  /**
   * History grows by one entry only when `push` is true and the id names an
   * element: `{id}` at `pathname + '#!/' + id` on opening, `{id: null}` at the
   * bare path on closing or for an element that is not a container
   * (lines 74-78, 88-91).
   */
  lemma HistoryFollowsPush(site: Site, p: Page, id: PanelId, push: bool)
    ensures var r := OpenClose(site, p, id, push);
      (!push || (id !in site.panels && id !in site.otherIds) ==> r.history == p.history) &&
      (push && NamesOtherElement(site, id) ==> r.history == p.history + [CloseEntry(site)]) &&
      (push && id in site.panels && id !in p.shown ==> r.history == p.history + [OpenEntry(site, id)]) &&
      (push && id in site.panels && id in p.shown ==> r.history == p.history + [CloseEntry(site)])
  {
  }

  /** Every call keeps the one-panel-at-a-time invariant. */
  lemma OpenCloseKeepsConsistent(site: Site, p: Page, id: PanelId, push: bool)
    requires Consistent(site, p)
    ensures Consistent(site, OpenClose(site, p, id, push))
  {
  }

  // ---------------------------------------------------------------------------
  // Properties of several calls.

  /** Two calls on the same id from the all-closed page return to it; history gains open then close. */
  lemma ToggleTwiceRestores(site: Site, p: Page, id: PanelId, push: bool)
    requires p.shown == {} && p.active == {} && id in site.panels
    ensures var r := OpenClose(site, OpenClose(site, p, id, push), id, push);
      r.shown == {} && r.active == {} &&
      r.history == p.history + (if push then [OpenEntry(site, id), CloseEntry(site)] else [])
  {
  }

  /** Opening `a` and then `b` closes `a` and leaves only `b` open. */
  lemma OpenThenOpenOther(site: Site, p: Page, a: PanelId, b: PanelId, push: bool)
    requires a in site.panels && b in site.panels && a != b && a !in p.shown
    ensures var r := OpenClose(site, OpenClose(site, p, a, push), b, push);
      r.shown == {b} && r.active == {b}
  {
  }

  /**
   * Page load on the URL pushed for `id` reopens that panel and adds no
   * history entry (lines 76, 98-100), for an id the browser does not
   * percent-encode in the fragment.
   */
  lemma ReloadReopens(site: Site, p: Page, id: PanelId)
    requires '#' !in site.pathname && FragmentSafe(id) && id in site.panels && p.shown == {}
    ensures var r := OnLoad(site, p, LocationHash(OpenEntry(site, id).url));
      r.shown == {id} && r.active == {id} && r.history == p.history
  {
    DeepLinkRoundTrip(site.pathname, id);
  }

  /** A page loaded without a fragment is left as it is. */
  lemma LoadWithoutFragment(site: Site, p: Page)
    ensures OnLoad(site, p, "") == p
  {
  }

  /**
   * Popstate never adds an entry. A `null` state or a `null` id closes every
   * panel; an id is toggled, so it ends up the one displayed panel exactly
   * when it names a panel that was not displayed (lines 104-111).
   */
  lemma PopStateReplays(site: Site, p: Page, state: HistoryState)
    requires Consistent(site, p)
    ensures var r := OnPopState(site, p, state);
      r.history == p.history && Consistent(site, r) &&
      (state == NoState || state == State(None) ==> r.shown == {} && r.active == {}) &&
      (state.State? && state.id.Some? ==>
         (r.shown == {state.id.value} <==> state.id.value in site.panels && state.id.value !in p.shown))
  {
  }

  /**
   * Back after opening `a` from the closed page restores the closed page, and
   * forward again reopens `a`; neither navigation adds an entry.
   */
  lemma BackThenForward(site: Site, p: Page, a: PanelId, before: HistoryState)
    requires p.shown == {} && p.active == {} && a in site.panels
    requires before == NoState || before == State(None)
    ensures var afterOpen := OpenClose(site, p, a, true);
      var back := OnPopState(site, afterOpen, before);
      var forward := OnPopState(site, back, afterOpen.history[|afterOpen.history| - 1].state);
      back.shown == {} && back.active == {} && back.history == afterOpen.history &&
      forward.shown == {a} && forward.active == {a} && forward.history == afterOpen.history
  {
  }

  // ---------------------------------------------------------------------------
  // Runs of events.

  /** What drives the controller: a toggle or close click, a page load, a back/forward navigation. */
  datatype Event = Click(id: PanelId) | Load(hash: string) | Pop(state: HistoryState)

  /** Clicks push (lines 117, 127); load and popstate replay with `push = false`. */
  function Step(site: Site, p: Page, e: Event): Page {
    match e
    case Click(id) => OpenClose(site, p, id, true)
    case Load(hash) => OnLoad(site, p, hash)
    case Pop(state) => OnPopState(site, p, state)
  }

  function Run(site: Site, p: Page, events: seq<Event>): Page
    decreases |events|
  {
    if events == [] then p else Run(site, Step(site, p, events[0]), events[1..])
  }

  lemma StepKeepsConsistent(site: Site, p: Page, e: Event)
    requires Consistent(site, p)
    ensures Consistent(site, Step(site, p, e))
  {
  }

  /** After any sequence of events at most one panel is displayed. */
  lemma {:induction false} RunKeepsConsistent(site: Site, p: Page, events: seq<Event>)
    requires Consistent(site, p)
    ensures Consistent(site, Run(site, p, events))
    decreases |events|
  {
    if events != [] {
      StepKeepsConsistent(site, p, events[0]);
      RunKeepsConsistent(site, Step(site, p, events[0]), events[1..]);
    }
  }

  /** The history only grows at its end, by at most one entry per event. */
  lemma {:induction false} HistoryOnlyAppends(site: Site, p: Page, events: seq<Event>)
    ensures var h := Run(site, p, events).history;
      p.history <= h && |h| <= |p.history| + |events|
    decreases |events|
  {
    if events != [] {
      var q := Step(site, p, events[0]);
      assert p.history <= q.history && |q.history| <= |p.history| + 1;
      HistoryOnlyAppends(site, q, events[1..]);
    }
  }

  /** Replaying loads and back/forward navigations never changes the history stack. */
  lemma {:induction false} ReplayKeepsHistory(site: Site, p: Page, events: seq<Event>)
    requires forall i :: 0 <= i < |events| ==> !events[i].Click?
    ensures Run(site, p, events).history == p.history
    decreases |events|
  {
    if events != [] {
      ReplayKeepsHistory(site, Step(site, p, events[0]), events[1..]);
    }
  }
}
