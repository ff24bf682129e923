/**
 What keys, wheel, clicks and scrollbar mean on the screen: how far each moves the selection, and which
 row of the drawn list (`tui/packet_list.rs`) a click or a scrollbar cell stands for.
 */
module PacketGestures {
  import opened Bytes
  import opened PacketView
  import opened PacketRuns
  import opened FilterSyntax
  import opened FilterParser
  import opened PacketRings

  // ---------------------------------------------------------------- moves

  /** Rows a gesture moves by, downwards. */
  function Stride(e: Event): int {
    match e
    case Press(Down) => 1
    case Press(Up) => -1
    case Press(PageDown) => 20
    case Press(PageUp) => -20
    case WheelDown => 3
    case WheelUp => -3
    case _ => 0
  }

  function Clamped(x: int, count: nat): nat {
    if x < 0 then 0 else if x < count then x else if count == 0 then 0 else count - 1
  }

  /**
   MOVES. On a nonempty list every moving gesture goes its stride and stops at the ends. Going down onto the
   last row turns live follow on, coming to rest anywhere else leaves it as it was, and going up turns it off.
   */
  lemma MovesAreClamped<P>(env: Env<P>, s: Screen<P>, e: Event)
    requires Stride(e) != 0 && s.view.overlay.None? && Count(s) > 0 && InRange(s.view, Count(s))
    ensures var r := Step(env, s, e).view;
      && r.selected == Clamped(s.view.selected + Stride(e), Count(s))
      && (Stride(e) > 0 && r.selected != s.view.selected ==>
          r.follow == (s.view.follow || r.selected == Count(s) - 1))
      && (Stride(e) < 0 && r.selected != s.view.selected ==> !r.follow)
      && r == s.view.(selected := r.selected, follow := r.follow)
  {
  }

  /** Under an overlay the same gestures scroll it, and the list stays where it is. */
  lemma OverlayScrolls<P>(env: Env<P>, s: Screen<P>, e: Event)
    requires s.view.overlay.Some? && e in [Press(Down), Press(Up), WheelDown, WheelUp]
    ensures var r, x := Step(env, s, e).view, s.view.overlayScroll + Stride(e);
      r == s.view.(overlayScroll := if x < 0 then 0 else x)
  {
  }

  /** The first and the last row. */
  lemma EndsOfList<P>(env: Env<P>, s: Screen<P>)
    ensures Step(env, s, Press(Home)).view == s.view.(selected := 0, follow := false)
    ensures Count(s) > 0 ==>
      var r := Step(env, s, Press(End)).view; r == s.view.(selected := r.selected, follow := true) && r.selected + 1 == Count(s)
  {
  }

  /** Pressing an overlay's key twice, or leaving it, shows the list again; a direction key pressed twice lifts it. */
  lemma TogglesUndo<P>(env: Env<P>, s: Screen<P>, kind: nat, d: Direction)
    ensures Step(env, s, Press(Overlay(kind))).view.overlay
         == if s.view.overlay == Some(kind) then None else Some(kind)
    ensures Step(env, s, Press(Overlay(kind))).view.overlay.Some? ==> Step(env, s, Press(Overlay(kind))).view.overlayScroll == 0
    ensures Step(env, s, Press(Escape)).view.overlay == None
    ensures Step(env, s, Press(ToggleIn)).view.dir == if s.view.dir == Some(In) then None else Some(In)
    ensures Step(env, s, Press(ToggleOut)).view.dir == if s.view.dir == Some(Out) then None else Some(Out)
  {
    hide Rebuilt;
  }

  // ---------------------------------------------------------------- the drawn list

  /** Rows that fit between header and border. */
  function Fits(area: Rect): nat {
    if area.height < 3 then 0 else area.height - 3
  }

  /** The first row drawn: the list scrolls just far enough for the selection to be the last one. */
  function FirstDrawn(v: View, area: Rect): nat {
    if v.selected < Fits(area) then 0 else v.selected + 1 - Fits(area)
  }

  /** Row `i` of the list is drawn on screen line `y`, below the border and the header. */
  predicate DrawnAt(v: View, area: Rect, count: nat, i: nat, y: nat) {
    && FirstDrawn(v, area) <= i < count && i < FirstDrawn(v, area) + Fits(area)
    && y == area.y + 2 + (i - FirstDrawn(v, area))
  }

  predicate Inside(area: Rect, col: nat, row: nat) {
    area.x <= col < area.x + area.width && area.y <= row < area.y + area.height
  }

  /** The last line of the list's frame. */
  predicate OnBottomBorder(area: Rect, row: nat) {
    area.height >= 3 && row == area.y + area.height - 1
  }

  /** The selected row is always drawn, if any fits. */
  lemma SelectedIsDrawn(v: View, area: Rect, count: nat)
    requires v.selected < count && Fits(area) > 0
    ensures exists y :: DrawnAt(v, area, count, v.selected, y)
  {
    assert DrawnAt(v, area, count, v.selected, area.y + 2 + (v.selected - FirstDrawn(v, area)));
  }

  /**
   CLICKS. A click inside the list selects the row drawn under it and stops live follow. Where no row is
   drawn it does nothing, except on the bottom border, where it takes the row just below the last one drawn.
   */
  lemma ClickSelectsDrawn(v: View, area: Rect, count: nat, col: nat, row: nat)
    ensures forall i :: Inside(area, col, row) && DrawnAt(v, area, count, i, row) ==>
      ClickStep(v, area, count, col, row) == v.(selected := i, follow := false)
    ensures !Inside(area, col, row) ==> ClickStep(v, area, count, col, row) == v
    ensures Inside(area, col, row) && !(exists i :: DrawnAt(v, area, count, i, row)) ==>
      ClickStep(v, area, count, col, row) ==
        var below := FirstDrawn(v, area) + Fits(area);
        if OnBottomBorder(area, row) && below < count then v.(selected := below, follow := false) else v
  {
    if Inside(area, col, row) && row >= area.y + 2 {
      var i := FirstDrawn(v, area) + (row - (area.y + 2));
      assert i < count && i < FirstDrawn(v, area) + Fits(area) ==> DrawnAt(v, area, count, i, row);
    }
  }

  // ---------------------------------------------------------------- the scrollbar

  /** There is a scrollbar exactly when rows overflow the list; it is its right border without the corners. */
  lemma ScrollbarCells(area: Rect, count: nat, col: nat, row: nat)
    requires area.height >= 3
    ensures OnScrollbar(area, count, col, row) <==>
      Inside(area, col, row) && count > Fits(area) && !Inside(area, col + 1, row)
      && row != area.y && row + 1 != area.y + area.height
  {
  }

  /** The scrollbar's first and last cells reach the first and last rows, and it never runs backwards. */
  lemma ScrollbarSpansList(area: Rect, count: nat, row: nat, below: nat)
    requires count > 0 && area.height > 3 && row <= below
    ensures ScrollTarget(area, count, area.y + 1) == 0
    ensures ScrollTarget(area, count, area.y + area.height - 2) == count - 1
    ensures ScrollTarget(area, count, row) <= ScrollTarget(area, count, below) < count
  {
    var d, last := area.height - 3, count - 1;
    Proportion(d, last);
    Proportional(Less(row, area.y + 1), Less(below, area.y + 1), last, d);
  }

  /** In between, a cell stands for its share of the list, rounded down: the `k`-th of `n` cells for `k / (n - 1)` of it. */
  lemma ScrollbarIsEven(area: Rect, count: nat, k: nat)
    requires count > 0 && area.height >= 4 && k < area.height - 2
    ensures var (gaps, at) := (area.height - 3, ScrollTarget(area, count, area.y + 1 + k));
      gaps * at <= k * (count - 1) < gaps * at + gaps
  {
    var gaps, share := area.height - 3, k * (count - 1);
    TargetIsShare(area, count, k);
    hide ScrollTarget;
    Split(share, gaps);
  }

  lemma TargetIsShare(area: Rect, count: nat, k: nat)
    requires count > 0 && area.height >= 4 && k < area.height - 2
    ensures ScrollTarget(area, count, area.y + 1 + k) == k * (count - 1) / (area.height - 3)
  {
    var gaps, last := area.height - 3, count - 1;
    Proportional(k, gaps, last, gaps);
    Proportion(gaps, last);
    assert Less(area.y + 1 + k, area.y + 1) == k && Less(area.height, 2) == gaps + 1;
    assert k * last / gaps <= last;
  }

  lemma Proportion(d: nat, last: nat)
    requires d > 0
    ensures 0 * last / d == 0 && d * last / d == last
  {
    assert 0 * last == 0;
    Split(d * last, d);
    Quotients(d, last, d * last / d, 0, d * last % d);
  }

  lemma Split(n: nat, d: nat)
    requires d > 0
    ensures n == d * (n / d) + n % d && 0 <= n % d < d && 0 <= n / d
  {
  }

  lemma Quotients(d: nat, q: int, x: int, r: nat, m: nat)
    requires r < d && m < d && d * q + r <= d * x + m
    ensures q <= x && (d * q + r == d * x + m ==> q == x)
  {
    if q > x {
      Multiple(d, x, q);
    } else if q < x {
      Multiple(d, q, x);
    }
  }

  lemma Multiple(d: nat, low: int, high: int)
    requires low < high
    ensures d * high >= d * low + d
  {
    var k := high - low;
    AtLeastOne(d, k);
    assert d * (low + k) == d * low + d * k;
  }

  lemma AtLeastOne(d: nat, k: int)
    requires k >= 1
    ensures d * k >= d
  {
  }

  lemma Proportional(a: nat, b: nat, last: nat, d: nat)
    requires d > 0 && a <= b
    ensures a * last / d <= b * last / d
  {
    var x, y := a * last, b * last;
    assert y - x == (b - a) * last;
    assert x <= y;
    Split(x, d);
    Split(y, d);
    Quotients(d, x / d, y / d, x % d, y % d);
  }

  /** A press on the scrollbar grabs it, moving keeps hold of it wherever the pointer is, and releasing lets go. */
  lemma DragHolds(v: View, count: nat, area: Rect, col: nat, row: nat)
    requires v.overlay.None? && count > 0 && area.height > 2
    ensures OnScrollbar(area, count, col, row) ==>
      MouseStep(v, count, LeftDown(area, col, row))
      == v.(drag := true, selected := ScrollTarget(area, count, row), follow := false)
    ensures v.drag ==>
      MouseStep(v, count, LeftDrag(area, col, row)) == v.(selected := ScrollTarget(area, count, row), follow := false)
    ensures !v.drag ==> MouseStep(v, count, LeftDrag(area, col, row)) == ClickStep(v, area, count, col, row)
    ensures !MouseStep(v, count, LeftUp).drag
  {
    hide ScrollTarget, OnScrollbar, ClickStep;
  }

  // ---------------------------------------------------------------- entering filters and searches

  /** What Enter in the filter line asks for: no filter, a text, or the text saved under a name after a colon. */
  predicate Asks(input: string, saved: map<string, string>, text: string) {
    if input != "" && input[0] == ':' then input[1..] in saved && saved[input[1..]] == text
    else input == text
  }

  /**
   FILTERS. An empty line lifts the text filter; a text, typed or recalled by name, replaces it by what it parses to;
   either way the list starts over at its first row. An unknown name or a text that is no filter changes nothing.
   */
  lemma FilterEntered<P>(env: Env<P>, s: Screen<P>, input: string, saved: map<string, string>, text: string)
    ensures var r := Step(env, s, FilterEnter("", saved));
      r.view == s.view.(text := None, selected := 0) && r.packets == s.packets
    ensures input != "" && Asks(input, saved, text) ==>
      var r, parsed := Step(env, s, FilterEnter(input, saved)), ParseFilter(text);
      if parsed.Fail? then r == s
      else r.view == s.view.(text := Some(parsed.value), selected := 0) && r.packets == s.packets
    ensures input != "" && (forall t :: !Asks(input, saved, t)) ==> Step(env, s, FilterEnter(input, saved)) == s
  {
    hide ParseFilter, Rebuilt;
    if input != "" && input[0] == ':' && input[1..] in saved {
      assert Asks(input, saved, saved[input[1..]]);
    } else if input != "" && input[0] != ':' {
      assert Asks(input, saved, input);
    }
  }

  /** A search that compiles is kept and moves the selection at most; one that does not changes nothing; Escape lifts it. */
  lemma SearchEntered<P>(env: Env<P>, s: Screen<P>, query: string)
    ensures var r := Step(env, s, SearchEnter(query));
      if env.compiles(query) then r.view.search == Some(query) && r.packets == s.packets && r.indices == s.indices else r == s
    ensures Step(env, s, SearchEscape) == s.(view := s.view.(search := None))
  {
    hide NextMatch;
  }

  // ---------------------------------------------------------------- an untouched list

  /** Until the first event nothing is filtered, live follow is on, and the newest packet is selected. */
  lemma {:induction false} UntouchedFollows<P>(env: Env<P>, capacity: nat, inputs: seq<Input<P>>)
    requires forall i <- inputs :: i.Batch?
    ensures var s := Session(env, capacity, inputs);
      && s.indices == None
      && s.view == View(None, None, if s.packets == [] then 0 else |s.packets| - 1, true, None, 0, None, false)
  {
    if inputs != [] {
      var n := |inputs| - 1;
      assert inputs[n] in inputs && forall i <- inputs[..n] :: i in inputs;
      UntouchedFollows(env, capacity, inputs[..n]);
      ArrivalsKeepView(env, Session(env, capacity, inputs[..n]), capacity, inputs[n].packets);
    }
  }

  lemma {:induction false} ArrivalsKeepView<P>(env: Env<P>, s: Screen<P>, capacity: nat, batch: seq<P>)
    requires s.indices == None
    ensures var r := AllArrived(env, s, capacity, batch);
      r.view == s.view && r.indices == None && (s.packets != [] || batch != [] ==> r.packets != [])
  {
    if batch != [] {
      ArrivalsKeepView(env, s, capacity, batch[..|batch| - 1]);
    }
  }
}
