/** The interface's mutable state (`tui/mod.rs`, `App`). */
module PacketApp {
  import opened Bytes
  import opened FilterSyntax
  import opened FilterParser
  import opened FilterIndex
  import opened PacketRings
  import opened PacketView

  class App<P> {
    const env: Env<P>
    const ring: PacketRing<P>
    var indices: Option<seq<nat>>
    var text: Option<FilterExpr>
    var dir: Option<Direction>
    var selected: nat
    var follow: bool
    var overlay: Option<nat>
    var overlayScroll: nat
    var search: Option<string>
    var drag: bool

    function Shows(): View
      reads this
    {
      View(text, dir, selected, follow, overlay, overlayScroll, search, drag)
    }

    function State(): Screen<P>
      reads this, ring
    {
      Screen(Shows(), ring.packets, indices)
    }

    constructor (env: Env<P>, capacity: nat)
      ensures fresh(ring) && this.env == env && ring.capacity == capacity
      ensures State() == Session(env, capacity, [])
    {
      this.env := env;
      ring := new PacketRing(capacity);
      indices, text, dir, selected, follow := None, None, None, 0, true;
      overlay, overlayScroll, search, drag := None, 0, None, false;
    }

    method VisibleCount() returns (n: nat)
      ensures n == Count(State())
    {
      n := if indices.Some? then |indices.value| else |ring.packets|;
    }

    method VisiblePacket(row: nat) returns (p: Option<P>)
      ensures p == Shown(State(), row)
    {
      if indices.None? {
        return if row < |ring.packets| then Some(ring.packets[row]) else None;
      }
      if row >= |indices.value| {
        return None;
      }
      var at := indices.value[row];
      p := if at < |ring.packets| then Some(ring.packets[at]) else None;
    }

    method Passes(p: P) returns (ok: bool)
      ensures ok == Test(env, text, dir)(p)
    {
      var textOk := text.None? || env.matches(text.value, p);
      var dirOk := dir.None? || env.direction(p) == dir.value;
      ok := textOk && dirOk;
    }

    /** Recompute the list after a filter changed. */
    method RebuildFilterIndices()
      modifies this`indices
      ensures indices == Rebuilt(env, Shows(), ring.packets)
    {
      if text.None? && dir.None? {
        indices := None;
        return;
      }
      var found: seq<nat> := [];
      ghost var test := Test(env, text, dir);
      for i := 0 to |ring.packets|
        invariant found == Passing(test, ring.packets[..i])
      {
        assert ring.packets[..i + 1][..i] == ring.packets[..i];
        var ok := Passes(ring.packets[i]);
        if ok {
          found := found + [i];
        }
      }
      assert ring.packets[..|ring.packets|] == ring.packets;
      indices := Some(found);
    }

    /** One packet arrives: the ring drops its oldest when full and the list follows. */
    method Arrive(p: P)
      modifies this`indices, ring
      ensures State() == Arrived(env, old(State()), ring.capacity, p)
    {
      hide Shifted;
      var matchesFilter := Passes(p);
      var ringIdx := |ring.packets|;
      var evicted := ring.Push(p);
      if evicted.Some? {
        if indices.Some? {
          var shifted := Shift(indices.value);
          indices := Some(shifted);
        }
      }
      if matchesFilter {
        if indices.Some? {
          var at := if evicted.Some? then Min(ringIdx, |ring.packets| - 1) else ringIdx;
          indices := Some(indices.value + [at]);
        }
      }
    }

    method DrainPackets(batch: seq<P>)
      modifies this`indices, this`selected, ring
      ensures State() == Settled(AllArrived(env, old(State()), ring.capacity, batch))
    {
      hide Arrived;
      for i := 0 to |batch|
        invariant State() == AllArrived(env, old(State()), ring.capacity, batch[..i])
      {
        assert batch[..i + 1][..i] == batch[..i];
        Arrive(batch[i]);
      }
      assert batch[..|batch|] == batch;
      var count := VisibleCount();
      if follow {
        if count > 0 {
          selected := count - 1;
        }
      } else {
        selected := Min(selected, Less(count, 1));
      }
    }

    // -------------------------------------------------------------- events

    method NextSearchMatch()
      modifies this`selected
      ensures State() == Searched(env, old(State()))
    {
      hide Count, Shown;
      ghost var was := State();
      if search.None? {
        return;
      }
      var re := search.value;
      var count := VisibleCount();
      var off := 1;
      while off <= count
        invariant 1 <= off <= count + 1 && State() == was
        invariant NextMatch(env, was, 1) == NextMatch(env, was, off)
        decreases count + 1 - off
      {
        var row := (selected + off) % (if count > 1 then count else 1);
        var p := VisiblePacket(row);
        if p.Some? && env.finds(re, p.value) {
          selected := row;
          return;
        }
        off := off + 1;
      }
    }

    method ToggleDirection(d: Direction)
      modifies this`dir, this`indices, this`selected
      ensures State() == Toggled(env, old(State()), d)
    {
      dir := if dir == Some(d) then None else Some(d);
      RebuildFilterIndices();
      selected := 0;
    }

    method ToggleOverlay(kind: nat)
      modifies this`overlay, this`overlayScroll
      ensures State() == KeyStep(env, old(State()), Overlay(kind))
    {
      if overlay == Some(kind) {
        overlay := None;
      } else {
        overlayScroll := 0;
        overlay := Some(kind);
      }
    }

    /** The keys that move the selection. */
    method Navigate(key: Key)
      requires key.Down? || key.Up? || key.End? || key.Home? || key.PageDown? || key.PageUp?
      modifies this`selected, this`follow, this`overlayScroll
      ensures State() == KeyStep(env, old(State()), key)
    {
      hide Count;
      var count := VisibleCount();
      match key {
        case Down => {
          if overlay.Some? {
            overlayScroll := overlayScroll + 1;
          } else if count > 0 && selected < count - 1 {
            selected := selected + 1;
            if selected + 1 >= count {
              follow := true;
            }
          }
        }
        case Up => {
          if overlay.Some? {
            overlayScroll := Less(overlayScroll, 1);
          } else if selected > 0 {
            selected := selected - 1;
            follow := false;
          }
        }
        case End => {
          if count > 0 {
            selected := count - 1;
            follow := true;
          }
        }
        case Home => {
          selected := 0;
          follow := false;
        }
        case PageDown => {
          selected := Min(selected + 20, Less(count, 1));
          if selected + 1 >= count {
            follow := true;
          }
        }
        case PageUp => {
          selected := Less(selected, 20);
          follow := false;
        }
      }
    }

    /** A key in normal mode; the result tells whether to go on. */
    method HandleKey(key: Key) returns (running: bool)
      modifies this
      ensures State() == KeyStep(env, old(State()), key)
      ensures running == (key != Quit)
    {
      hide Count, Searched, Toggled;
      running := true;
      match key {
        case Quit => { running := false; }
        case Overlay(kind) => { ToggleOverlay(kind); }
        case OpenStream(kind, found) => {
          if found {
            overlayScroll := 0;
            overlay := Some(kind);
          }
        }
        case SearchNext => { NextSearchMatch(); }
        case ToggleIn => { ToggleDirection(In); }
        case ToggleOut => { ToggleDirection(Out); }
        case Escape => { overlay := None; }
        case OtherKey => {}
        case _ => { Navigate(key); }
      }
    }

    /** Enter in filter mode: clear, recall, apply or reject. */
    method HandleFilterEnter(input: string, saved: map<string, string>)
      modifies this`text, this`indices, this`selected
      ensures State() == FilterStep(env, old(State()), input, saved)
    {
      hide ParseFilter;
      if input == "" {
        text := None;
        RebuildFilterIndices();
      } else {
        var expr := input;
        if input[0] == ':' {
          if input[1..] !in saved {
            return;
          }
          expr := saved[input[1..]];
        }
        var parsed := ParseFilter(expr);
        if parsed.Fail? {
          return;
        }
        text := Some(parsed.value);
        RebuildFilterIndices();
      }
      selected := 0;
    }

    /** Enter in search mode. */
    method HandleSearchEnter(query: string)
      modifies this`search, this`selected
      ensures State() == Step(env, old(State()), SearchEnter(query))
    {
      hide Searched;
      if env.compiles(query) {
        search := Some(query);
        NextSearchMatch();
      }
    }

    method ScrollToRow(area: Rect, row: nat)
      modifies this`selected, this`follow
      ensures State() == old(State()).(view := ScrollStep(old(Shows()), area, Count(old(State())), row))
    {
      hide Count;
      var count := VisibleCount();
      if count == 0 {
        return;
      }
      var height := Less(area.height, 2);
      if height == 0 {
        return;
      }
      var rel := Less(row, area.y + 1);
      var denom := if height - 1 > 1 then height - 1 else 1;
      selected := Min(rel * (count - 1) / denom, count - 1);
      follow := false;
    }

    method SelectRowByMouse(area: Rect, col: nat, row: nat)
      modifies this`selected, this`follow
      ensures State() == old(State()).(view := ClickStep(old(Shows()), area, Count(old(State())), col, row))
    {
      hide Count;
      if area.width == 0 || area.height == 0 {
        return;
      }
      if !(area.x <= col < area.x + area.width && area.y <= row < area.y + area.height) {
        return;
      }
      var count := VisibleCount();
      if count == 0 {
        return;
      }
      var top := area.y + 2;
      if row < top {
        return;
      }
      var height := Less(area.height, 3);
      var offset := if selected >= height then selected - height + 1 else 0;
      var target := offset + (row - top);
      if target < count {
        selected := target;
        follow := false;
      }
    }

    method HandleMouse(e: Event)
      requires e.WheelDown? || e.WheelUp? || e.LeftDown? || e.LeftDrag? || e.LeftUp? || e.ReleaseOrOther?
      modifies this`selected, this`follow, this`overlayScroll, this`drag
      ensures State() == Step(env, old(State()), e)
    {
      hide ScrollStep, ClickStep, OnScrollbar;
      var count := VisibleCount();
      match e {
        case WheelDown => {
          if overlay.Some? {
            overlayScroll := overlayScroll + 3;
          } else if count > 0 {
            selected := Min(selected + 3, count - 1);
            if selected + 1 >= count {
              follow := true;
            }
          }
        }
        case WheelUp => {
          if overlay.Some? {
            overlayScroll := Less(overlayScroll, 3);
          } else {
            selected := Less(selected, 3);
            follow := false;
          }
        }
        case LeftDown(area, col, row) => {
          if overlay.None? {
            if OnScrollbar(area, count, col, row) {
              drag := true;
              ScrollToRow(area, row);
            } else {
              SelectRowByMouse(area, col, row);
            }
          }
        }
        case LeftDrag(area, col, row) => {
          if overlay.None? {
            if drag {
              ScrollToRow(area, row);
            } else {
              SelectRowByMouse(area, col, row);
            }
          }
        }
        case LeftUp => { drag := false; }
        case ReleaseOrOther => {}
      }
    }

    /** One turn of the interface. */
    method Handle(input: Input<P>)
      modifies this, ring
      ensures State() == Turn(env, old(State()), ring.capacity, input)
    {
      hide KeyStep, FilterStep, MouseStep, Searched, Settled, AllArrived;
      match input {
        case Batch(batch) => { DrainPackets(batch); }
        case Ui(e) => {
          match e {
            case Press(key) => { var _ := HandleKey(key); }
            case FilterEnter(entered, saved) => { HandleFilterEnter(entered, saved); }
            case SearchEnter(query) => { HandleSearchEnter(query); }
            case SearchEscape => { search := None; }
            case _ => { HandleMouse(e); }
          }
        }
      }
    }

    /** The event loop: what is on screen is the session's, list of positions included. */
    method HandleAll(inputs: seq<Input<P>>)
      requires State() == Session(env, ring.capacity, [])
      modifies this, ring
      ensures State() == Session(env, ring.capacity, inputs)
    {
      hide Turn;
      for i := 0 to |inputs|
        invariant State() == Session(env, ring.capacity, inputs[..i])
      {
        assert inputs[..i + 1][..i] == inputs[..i];
        Handle(inputs[i]);
      }
      assert inputs[..|inputs|] == inputs;
    }
  }
}
