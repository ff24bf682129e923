/**
 The packet list of the terminal interface (`tui/mod.rs`): the filtered view over the packet
 buffer, the selection and live follow, one event at a time. Matching, directions and regular
 expressions are parameters.
 */
module PacketView {
  import opened Bytes
  import opened FilterSyntax
  import opened FilterParser
  import opened FilterIndex
  import opened PacketRings

  datatype Direction = In | Out | Unknown

  /** How packets are judged: by a filter, by direction, by a search expression. */
  datatype Env<!P> = Env(matches: (FilterExpr, P) -> bool, direction: P -> Direction,
                         compiles: string -> bool, finds: (string, P) -> bool)

  datatype Rect = Rect(x: nat, y: nat, width: nat, height: nat)

  /** What the interface shows, apart from the packets. */
  datatype View = View(text: Option<FilterExpr>, dir: Option<Direction>, selected: nat, follow: bool,
                       overlay: Option<nat>, overlayScroll: nat, search: Option<string>, drag: bool)

  const START := View(None, None, 0, true, None, 0, None, false)

  datatype Key = Quit | Down | Up | Overlay(kind: nat) | OpenStream(kind: nat, found: bool) | SearchNext | ToggleIn | ToggleOut
               | Escape | End | Home | PageDown | PageUp | OtherKey

  datatype Event =
    | Press(key: Key)
    | FilterEnter(input: string, saved: map<string, string>)
    | SearchEnter(query: string)
    | SearchEscape
    | WheelDown
    | WheelUp
    | LeftDown(area: Rect, col: nat, row: nat)
    | LeftDrag(area: Rect, col: nat, row: nat)
    | LeftUp
    | ReleaseOrOther

  /** The view, the packets it is of, and the list of positions that is kept while a filter is set. */
  datatype Screen<P> = Screen(view: View, packets: seq<P>, indices: Option<seq<nat>>)

  // ---------------------------------------------------------------- the visible packets

  function Test<P>(env: Env<P>, text: Option<FilterExpr>, dir: Option<Direction>): P -> bool {
    p => (text.None? || env.matches(text.value, p)) && (dir.None? || env.direction(p) == dir.value)
  }

  function Count<P>(s: Screen<P>): nat {
    if s.indices.Some? then |s.indices.value| else |s.packets|
  }

  /** The packet shown in a row, if there is such a row. */
  function Shown<P>(s: Screen<P>, row: nat): Option<P> {
    var at := if s.indices.None? then row else if row < |s.indices.value| then s.indices.value[row] else |s.packets|;
    if at < |s.packets| then Some(s.packets[at]) else None
  }

  /** The list after a filter changed: none without a filter, else every position that passes. */
  function Rebuilt<P>(env: Env<P>, v: View, packets: seq<P>): Option<seq<nat>> {
    if v.text.None? && v.dir.None? then None else Some(Passing(Test(env, v.text, v.dir), packets))
  }

  /** The list after one arrival: shifted if a packet left, and longer by one if the new packet passes. */
  function Edited<P>(env: Env<P>, s: Screen<P>, capacity: nat, p: P): Option<seq<nat>> {
    if s.indices.None? then None else
    var left := |s.packets| >= capacity && s.packets != [];
    var kept := if left then Shifted(s.indices.value) else s.indices.value;
    var at := if left then |s.packets| - 1 else |s.packets|;
    Some(if Test(env, s.view.text, s.view.dir)(p) then kept + [at] else kept)
  }

  // ---------------------------------------------------------------- one event

  function Min(a: nat, b: nat): nat {
    if a < b then a else b
  }

  function Less(a: nat, b: nat): nat {
    if a < b then 0 else a - b
  }

  function Select<P>(s: Screen<P>, row: nat): Screen<P> {
    s.(view := s.view.(selected := row))
  }

  /** Search from the row `off` after the selection, round the list once. */
  function NextMatch<P>(env: Env<P>, s: Screen<P>, off: nat): nat
    requires 1 <= off && s.view.search.Some?
    decreases Count(s) + 1 - off
  {
    if off > Count(s) then s.view.selected else
    var row := (s.view.selected + off) % Count(s);
    var p := Shown(s, row);
    if p.Some? && env.finds(s.view.search.value, p.value) then row else NextMatch(env, s, off + 1)
  }

  function Searched<P>(env: Env<P>, s: Screen<P>): Screen<P> {
    if s.view.search.None? then s else Select(s, NextMatch(env, s, 1))
  }

  /** A filter takes effect: the list is rebuilt and the first row selected. */
  function Filtered<P>(env: Env<P>, s: Screen<P>, text: Option<FilterExpr>, dir: Option<Direction>): Screen<P> {
    var v := s.view.(text := text, dir := dir, selected := 0);
    s.(view := v, indices := Rebuilt(env, v, s.packets))
  }

  function Toggled<P>(env: Env<P>, s: Screen<P>, d: Direction): Screen<P> {
    Filtered(env, s, s.view.text, if s.view.dir == Some(d) then None else Some(d))
  }

  /** The keys that change neither filter nor search. */
  function Moved(v: View, count: nat, key: Key): View {
    match key
    case Down =>
      if v.overlay.Some? then v.(overlayScroll := v.overlayScroll + 1)
      else if count > 0 && v.selected < count - 1 then
        v.(selected := v.selected + 1, follow := v.follow || v.selected + 2 >= count)
      else v
    case Up =>
      if v.overlay.Some? then v.(overlayScroll := Less(v.overlayScroll, 1))
      else if v.selected > 0 then v.(selected := v.selected - 1, follow := false)
      else v
    case Overlay(kind) => if v.overlay == Some(kind) then v.(overlay := None) else v.(overlay := Some(kind), overlayScroll := 0)
    case OpenStream(kind, found) => if found then v.(overlay := Some(kind), overlayScroll := 0) else v
    case Escape => v.(overlay := None)
    case End => if count > 0 then v.(selected := count - 1, follow := true) else v
    case Home => v.(selected := 0, follow := false)
    case PageDown =>
      var row := Min(v.selected + 20, Less(count, 1));
      v.(selected := row, follow := v.follow || row + 1 >= count)
    case PageUp => v.(selected := Less(v.selected, 20), follow := false)
    case _ => v
  }

  function KeyStep<P>(env: Env<P>, s: Screen<P>, key: Key): Screen<P> {
    match key
    case SearchNext => Searched(env, s)
    case ToggleIn => Toggled(env, s, In)
    case ToggleOut => Toggled(env, s, Out)
    case _ => s.(view := Moved(s.view, Count(s), key))
  }

  /** The filter text as entered, or as recalled by `:name`. */
  function FilterText(input: string, saved: map<string, string>): Option<string> {
    if input == "" || input[0] != ':' then Some(input)
    else if input[1..] in saved then Some(saved[input[1..]])
    else None
  }

  function FilterStep<P>(env: Env<P>, s: Screen<P>, input: string, saved: map<string, string>): Screen<P> {
    if input == "" then Filtered(env, s, None, s.view.dir) else
    var text := FilterText(input, saved);
    if text.None? then s else
    var parsed := ParseFilter(text.value);
    if parsed.Ok? then Filtered(env, s, Some(parsed.value), s.view.dir) else s
  }

  predicate OnScrollbar(area: Rect, count: nat, col: nat, row: nat) {
    && area.width != 0 && area.height != 0 && count > Less(area.height, 3)
    && col == area.x + area.width - 1 && area.y + 1 <= row < area.y + Less(area.height, 1)
  }

  /** The row of the list a scrollbar cell stands for. */
  function ScrollTarget(area: Rect, count: nat, row: nat): nat
    requires count > 0
  {
    var height := Less(area.height, 2);
    Min(Less(row, area.y + 1) * (count - 1) / (if height > 2 then height - 1 else 1), count - 1)
  }

  function ScrollStep(v: View, area: Rect, count: nat, row: nat): View {
    if count == 0 || Less(area.height, 2) == 0 then v
    else v.(selected := ScrollTarget(area, count, row), follow := false)
  }

  function ClickStep(v: View, area: Rect, count: nat, col: nat, row: nat): View {
    if area.width == 0 || area.height == 0 || count == 0 then v
    else if !(area.x <= col < area.x + area.width && area.y <= row < area.y + area.height) || row < area.y + 2 then v
    else
      var height := Less(area.height, 3);
      var target := (if v.selected >= height then v.selected - height + 1 else 0) + (row - (area.y + 2));
      if target < count then v.(selected := target, follow := false) else v
  }

  function MouseStep(v: View, count: nat, e: Event): View {
    match e
    case WheelDown =>
      if v.overlay.Some? then v.(overlayScroll := v.overlayScroll + 3)
      else if count > 0 then
        var row := Min(v.selected + 3, count - 1);
        v.(selected := row, follow := v.follow || row + 1 >= count)
      else v
    case WheelUp =>
      if v.overlay.Some? then v.(overlayScroll := Less(v.overlayScroll, 3))
      else v.(selected := Less(v.selected, 3), follow := false)
    case LeftDown(area, col, row) =>
      if v.overlay.Some? then v
      else if OnScrollbar(area, count, col, row) then ScrollStep(v.(drag := true), area, count, row)
      else ClickStep(v, area, count, col, row)
    case LeftDrag(area, col, row) =>
      if v.overlay.Some? then v
      else if v.drag then ScrollStep(v, area, count, row)
      else ClickStep(v, area, count, col, row)
    case LeftUp => v.(drag := false)
    case _ => v
  }

  function Step<P>(env: Env<P>, s: Screen<P>, e: Event): Screen<P> {
    match e
    case Press(key) => KeyStep(env, s, key)
    case FilterEnter(input, saved) => FilterStep(env, s, input, saved)
    case SearchEnter(query) =>
      if env.compiles(query) then Searched(env, s.(view := s.view.(search := Some(query)))) else s
    case SearchEscape => s.(view := s.view.(search := None))
    case _ => s.(view := MouseStep(s.view, Count(s), e))
  }

  // ---------------------------------------------------------------- arrivals

  function Arrived<P>(env: Env<P>, s: Screen<P>, capacity: nat, p: P): Screen<P> {
    s.(packets := Pushed(s.packets, capacity, p), indices := Edited(env, s, capacity, p))
  }

  function AllArrived<P>(env: Env<P>, s: Screen<P>, capacity: nat, batch: seq<P>): Screen<P> {
    if batch == [] then s
    else Arrived(env, AllArrived(env, s, capacity, batch[..|batch| - 1]), capacity, batch[|batch| - 1])
  }

  /** After a batch of packets: follow the newest, or keep the selection in the list. */
  function Settled<P>(s: Screen<P>): Screen<P> {
    if s.view.follow then (if Count(s) > 0 then Select(s, Count(s) - 1) else s)
    else Select(s, Min(s.view.selected, Less(Count(s), 1)))
  }

  datatype Input<P> = Ui(event: Event) | Batch(packets: seq<P>)

  /** One turn of the interface: an event, or whatever has been captured. */
  function Turn<P>(env: Env<P>, s: Screen<P>, capacity: nat, input: Input<P>): Screen<P> {
    match input
    case Ui(e) => Step(env, s, e)
    case Batch(batch) => Settled(AllArrived(env, s, capacity, batch))
  }

  /** The screen after a session: every event and arrival in order. */
  function Session<P>(env: Env<P>, capacity: nat, inputs: seq<Input<P>>): Screen<P> {
    if inputs == [] then Screen(START, [], None)
    else Turn(env, Session(env, capacity, inputs[..|inputs| - 1]), capacity, inputs[|inputs| - 1])
  }
}
