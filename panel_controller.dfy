/**
 * The handlers of js/main.js as they run against the page: one object owns the
 * displayed items, the active toggles and the history stack, and each handler
 * updates them in place. Every method is tied to its transition in `Panels`,
 * where the properties of those transitions are proved.
 */
module PanelController {
  import opened Wrappers
  import opened Location
  import opened Panels

  class Controller {
    /** The ids of the `.work-container` elements in the markup. */
    const panels: set<PanelId>
    /** The ids of the other elements, which hold no panel. */
    const otherIds: set<PanelId>
    /** `window.location.pathname`. */
    const pathname: string
    /** Panels whose `.work-item` is displayed. */
    var shown: set<PanelId>
    /** Panels whose `.work-toggle` has the `active` class. */
    var active: set<PanelId>
    /** The session history stack, oldest entry first. */
    var history: seq<Entry>

    function Config(): Site {
      Site(panels, otherIds, pathname)
    }

    ghost function Snapshot(): Page
      reads this
    {
      Page(shown, active, history)
    }

    ghost predicate Valid()
      reads this
    {
      Consistent(Config(), Snapshot())
    }

    /** The page as served: every item hidden, one history entry without a state object. */
    constructor (panels: set<PanelId>, otherIds: set<PanelId>, pathname: string, url: string)
      ensures this.panels == panels && this.otherIds == otherIds && this.pathname == pathname
      ensures Snapshot() == Page({}, {}, [Entry(NoState, url)])
      ensures Valid()
    {
      this.panels := panels;
      this.otherIds := otherIds;
      this.pathname := pathname;
      shown := {};
      active := {};
      history := [Entry(NoState, url)];
    }

    /** `openCloseModal(id, push)` for an id given as a string (lines 24-93). */
    method OpenCloseModal(id: PanelId, push: bool)
      modifies this
      ensures Snapshot() == OpenClose(Config(), old(Snapshot()), id, push)
      ensures old(Valid()) ==> Valid()
    {
      if Valid() { OpenCloseKeepsConsistent(Config(), Snapshot(), id, push); }
      if id !in panels {
        // an element that is not a container falls through to the closing branch
        if id in otherIds && push {
          history := history + [CloseEntry(Config())];
        }
        return;
      }
      if id !in shown {
        shown, active := {}, {};
        shown := shown + {id};
        active := active + {id};
        if push {
          history := history + [OpenEntry(Config(), id)];
        }
      } else {
        shown := shown - {id};
        active := active - {id};
        if push {
          history := history + [CloseEntry(Config())];
        }
      }
    }

    /** The `$(document).ready` handler (lines 95-102), given `window.location.hash`. */
    method OnReady(hash: string)
      modifies this
      ensures Snapshot() == OnLoad(Config(), old(Snapshot()), hash)
      ensures history == old(history)
      ensures old(Valid()) ==> Valid()
    {
      if |hash| > 0 {
        var id := IdFromHash(hash);
        OpenCloseModal(id, false);
      }
    }

    /** `window.onpopstate` (lines 104-111), given `event.state`. */
    method OnPopState(state: HistoryState)
      modifies this
      ensures Snapshot() == Panels.OnPopState(Config(), old(Snapshot()), state)
      ensures history == old(history)
      ensures old(Valid()) ==> Valid()
    {
      if state.NoState? || state.id.None? {
        shown, active := {}, {};
      } else {
        OpenCloseModal(state.id.value, false);
      }
    }

    /** A click on a `.work-toggle`: `openCloseModal` on its `data-id`, pushing (lines 113-121). */
    method OnToggleClick(dataId: PanelId)
      modifies this
      ensures Snapshot() == Step(Config(), old(Snapshot()), Click(dataId))
      ensures old(Valid()) ==> Valid()
    {
      OpenCloseModal(dataId, true);
    }

    /**
     * A click on a `.work-close`: `openCloseModal` on its enclosing container
     * (lines 123-131), whose id is read from the element (lines 30-31). An
     * empty selection returns at once (lines 34-36).
     */
    method OnCloseClick(container: Option<PanelId>)
      requires container.Some? ==> container.value in panels
      modifies this
      ensures container.None? ==> Snapshot() == old(Snapshot())
      ensures container.Some? ==> Snapshot() == Step(Config(), old(Snapshot()), Click(container.value))
      ensures old(Valid()) ==> Valid()
    {
      if container.Some? {
        OpenCloseModal(container.value, true);
      }
    }
  }
}
