/** The landing page: the two navigation buttons, the guard of the place
    search, and the county map's hover and touch handling, which tells a
    tap (select the county) from a scroll (drop the hover) by how far the
    finger moved. */
module LandingPage {
  import opened Js

  /** `handleNavigate`: the route for "mp" and "co", nowhere otherwise. */
  function Navigate(target: string): (route: Option<string>)
    ensures route == Some("/members-of-parliament") <==> target == "mp"
    ensures route == Some("/county-officials") <==> target == "co"
    ensures route.None? <==> target != "mp" && target != "co"
  {
    if target == "mp" then Some("/members-of-parliament")
    else if target == "co" then Some("/county-officials")
    else None
  }

  /** The place `handleSearch` posts: none for a query that is blank after
      trimming, otherwise the query as typed, untrimmed. */
  function SearchRequest(query: string): (place: Option<string>)
    ensures place.None? <==> IsBlank(query)
    ensures place.Some? ==> place.value == query
  {
    TrimEmptyIffBlank(query);
    if Trim(query) == "" then None else Some(query)
  }

  /** A touch position in client coordinates. */
  datatype Point = Point(x: real, y: real)

  datatype County = County(id: int, name: string)

  function Distance(a: real, b: real): (d: real)
    ensures d >= 0.0 && (d == a - b || d == b - a)
  {
    if a >= b then a - b else b - a
  }

  /** The finger moved more than 20 pixels along either axis. */
  predicate Scrolled(start: Point, p: Point) {
    Distance(p.x, start.x) > 20.0 || Distance(p.y, start.y) > 20.0
  }

  /** The class of a county's path: red for the hovered county only. */
  function Fill(hovered: Option<County>, county: County): (fill: string)
    ensures fill == "fill-red-500" <==> hovered.Some? && hovered.value.id == county.id
    ensures fill != "fill-red-500" ==> fill == "fill-white dark:fill-gray-700"
  {
    if hovered.Some? && hovered.value.id == county.id then "fill-red-500" else "fill-white dark:fill-gray-700"
  }

  /** The map's state: where the touch started, whether it became a
      scroll, the hovered and touched counties, whether the tooltip is
      shown, and the selected county id. */
  class TouchMap {
    var touchStart: Point
    var isScrolling: bool
    var hovered: Option<County>
    var touched: Option<County>
    var tooltipVisible: bool
    var selected: Option<int>

    constructor()
      ensures touchStart == Point(0.0, 0.0) && !isScrolling
      ensures hovered == None && touched == None && !tooltipVisible && selected == None
    {
      touchStart := Point(0.0, 0.0);
      isScrolling := false;
      hovered := None;
      touched := None;
      tooltipVisible := false;
      selected := None;
    }

    /** The county modal is open while a truthy id is selected. */
    predicate ModalShown()
      reads this
    {
      selected.Some? && selected.value != 0
    }

    /** `handleTouchStart`: remember the start, hover and touch the county,
        show the tooltip. */
    method TouchStart(p: Point, county: County)
      modifies this
      ensures touchStart == p && !isScrolling
      ensures hovered == Some(county) && touched == Some(county) && tooltipVisible
      ensures selected == old(selected)
      ensures TooltipShown()
    {
      touchStart := p;
      isScrolling := false;
      hovered := Some(county);
      touched := Some(county);
      tooltipVisible := true;
    }

    /** `handleTouchMove`: past the threshold the touch is a scroll, the
        hover is dropped and the tooltip hidden; short of it nothing
        changes. */
    method TouchMove(p: Point)
      modifies this
      ensures Scrolled(old(touchStart), p) ==> isScrolling && hovered == None && !tooltipVisible
      ensures Scrolled(old(touchStart), p) ==> !TooltipShown()
      ensures !Scrolled(old(touchStart), p) ==>
        isScrolling == old(isScrolling) && hovered == old(hovered) && tooltipVisible == old(tooltipVisible)
      ensures touchStart == old(touchStart) && touched == old(touched) && selected == old(selected)
    {
      if Scrolled(touchStart, p) {
        isScrolling := true;
        hovered := None;
        tooltipVisible := false;
      }
    }

    /** `handleTouchEnd`: after a scroll nothing changes; after a tap the
        county is selected when it is the touched one, and the hover is
        cleared (after 150 ms in the page). */
    method TouchEnd(county: County)
      modifies this
      ensures old(isScrolling) ==>
        && hovered == old(hovered) && tooltipVisible == old(tooltipVisible) && selected == old(selected)
      ensures !old(isScrolling) ==> hovered == None && !tooltipVisible
      ensures !old(isScrolling) ==>
        selected == if old(touched).Some? && old(touched).value.id == county.id then Some(county.id) else old(selected)
      ensures touchStart == old(touchStart) && isScrolling == old(isScrolling) && touched == old(touched)
    {
      if isScrolling {
        return;
      }
      if touched.Some? && touched.value.id == county.id {
        selected := Some(county.id);
      }
      hovered := None;
      tooltipVisible := false;
    }

    /** `handleTouchCancel`: drop the hover and hide the tooltip. */
    method TouchCancel()
      modifies this
      ensures hovered == None && !tooltipVisible
      ensures !TooltipShown()
      ensures touchStart == old(touchStart) && isScrolling == old(isScrolling)
      ensures touched == old(touched) && selected == old(selected)
    {
      hovered := None;
      tooltipVisible := false;
    }

    method MouseEnter(county: County)
      modifies this
      ensures hovered == Some(county) && tooltipVisible
      ensures touchStart == old(touchStart) && isScrolling == old(isScrolling)
      ensures touched == old(touched) && selected == old(selected)
    {
      hovered := Some(county);
      tooltipVisible := true;
    }

    method MouseLeave()
      modifies this
      ensures hovered == None && !tooltipVisible
      ensures touchStart == old(touchStart) && isScrolling == old(isScrolling)
      ensures touched == old(touched) && selected == old(selected)
    {
      hovered := None;
      tooltipVisible := false;
    }

    method Click(county: County)
      modifies this
      ensures selected == Some(county.id)
      ensures ModalShown() <==> county.id != 0
      ensures touchStart == old(touchStart) && isScrolling == old(isScrolling)
      ensures hovered == old(hovered) && touched == old(touched) && tooltipVisible == old(tooltipVisible)
    {
      selected := Some(county.id);
    }

    /** The modal's `onClose`. */
    method CloseModal()
      modifies this
      ensures selected == None
      ensures !ModalShown()
      ensures touchStart == old(touchStart) && isScrolling == old(isScrolling)
      ensures hovered == old(hovered) && touched == old(touched) && tooltipVisible == old(tooltipVisible)
    {
      selected := None;
    }

    /** The tooltip is drawn while it is visible and a county is hovered. */
    predicate TooltipShown()
      reads this
    {
      tooltipVisible && hovered.Some?
    }
  }

  /** A touch on a fresh map that starts at `start`, moves to `p` and ends
      on the same county selects it exactly when the move stayed within 20
      pixels on both axes; either way no county is left hovered. */
  method TouchGesture(county: County, start: Point, p: Point) returns (selected: Option<int>, hovered: Option<County>)
    ensures selected == Some(county.id) <==> !Scrolled(start, p)
    ensures selected.None? <==> Scrolled(start, p)
    ensures hovered.None?
  {
    var m := new TouchMap();
    m.TouchStart(start, county);
    m.TouchMove(p);
    m.TouchEnd(county);
    selected, hovered := m.selected, m.hovered;
  }

  /** `handleTouchEnd` compares the id of the county it is called for with
      the touched one. The browser delivers a touchend to the path where the
      touch began, so a single touch always passes the touched county; a
      call for another county (an earlier touch ending after a later touch
      began on another path) selects nothing. */
  method TouchEndElsewhere(touched: County, other: County, start: Point) returns (selected: Option<int>)
    requires touched.id != other.id
    ensures selected.None?
  {
    var m := new TouchMap();
    m.TouchStart(start, touched);
    m.TouchEnd(other);
    selected := m.selected;
  }

  /** A cancelled touch selects nothing and leaves nothing hovered, and no
      county is red. */
  method CancelledTouch(county: County, start: Point) returns (selected: Option<int>, fill: string, tooltip: bool)
    ensures selected.None?
    ensures fill == "fill-white dark:fill-gray-700"
    ensures !tooltip
  {
    var m := new TouchMap();
    m.TouchStart(start, county);
    m.TouchCancel();
    selected := m.selected;
    fill := Fill(m.hovered, county);
    tooltip := m.TooltipShown();
  }

  /** Clicking a county opens its modal unless its id is 0, which is
      falsy; closing the modal hides it again. */
  method ClickOpensModal(county: County) returns (shown: bool, shownAfterClose: bool)
    ensures shown <==> county.id != 0
    ensures !shownAfterClose
  {
    var m := new TouchMap();
    m.Click(county);
    shown := m.ModalShown();
    m.CloseModal();
    shownAfterClose := m.ModalShown();
  }
}
