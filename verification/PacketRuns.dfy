/** Whole sessions of the packet list: arrivals, filter changes, keys and mouse, in any order. */
module PacketRuns {
  import opened Bytes
  import opened FilterSyntax
  import opened FilterIndex
  import opened FilterParser
  import opened PacketRings
  import opened PacketView

  // ---------------------------------------------------------------- the edited list

  /** The list that is kept is the one a rebuild would give. */
  predicate Current<P>(env: Env<P>, s: Screen<P>) {
    s.indices == Rebuilt(env, s.view, s.packets)
  }

  lemma ArrivedCurrent<P>(env: Env<P>, s: Screen<P>, capacity: nat, p: P)
    requires Current(env, s)
    ensures Current(env, Arrived(env, s, capacity, p))
  {
    PassingPushed(Test(env, s.view.text, s.view.dir), s.packets, capacity, p);
    hide Passing, Shifted;
  }

  lemma {:induction false} AllArrivedCurrent<P>(env: Env<P>, s: Screen<P>, capacity: nat, batch: seq<P>)
    requires Current(env, s)
    ensures Current(env, AllArrived(env, s, capacity, batch)) && AllArrived(env, s, capacity, batch).view == s.view
    ensures AllArrived(env, s, capacity, batch).packets == PushedAll(s.packets, capacity, batch)
  {
    if batch != [] {
      hide Current, Edited;
      AllArrivedCurrent(env, s, capacity, batch[..|batch| - 1]);
      ArrivedCurrent(env, AllArrived(env, s, capacity, batch[..|batch| - 1]), capacity, batch[|batch| - 1]);
    }
  }

  /** Only a filter in force matters to the list. */
  lemma SameFilters<P>(env: Env<P>, s: Screen<P>, v: View)
    requires Current(env, s) && v.text == s.view.text && v.dir == s.view.dir
    ensures Current(env, s.(view := v))
  {
  }

  lemma FilteredCurrent<P>(env: Env<P>, s: Screen<P>, text: Option<FilterExpr>, dir: Option<Direction>)
    ensures Current(env, Filtered(env, s, text, dir))
  {
  }

  lemma StepCurrent<P>(env: Env<P>, s: Screen<P>, e: Event)
    requires Current(env, s)
    ensures Current(env, Step(env, s, e)) && Step(env, s, e).packets == s.packets
  {
    hide Current, Rebuilt, NextMatch, ScrollStep, ClickStep, OnScrollbar, ParseFilter, FilterText;
    match e {
      case FilterEnter(input, saved) => {
        FilteredCurrent(env, s, None, s.view.dir);
        var text := FilterText(input, saved);
        if text.Some? && ParseFilter(text.value).Ok? {
          FilteredCurrent(env, s, Some(ParseFilter(text.value).value), s.view.dir);
        }
      }
      case Press(ToggleIn) => { FilteredCurrent(env, s, s.view.text, if s.view.dir == Some(In) then None else Some(In)); }
      case Press(ToggleOut) => { FilteredCurrent(env, s, s.view.text, if s.view.dir == Some(Out) then None else Some(Out)); }
      case _ => {
        KeepsFilters(env, s, e);
        SameFilters(env, s, Step(env, s, e).view);
      }
    }
  }

  lemma KeepsFilters<P>(env: Env<P>, s: Screen<P>, e: Event)
    requires !e.FilterEnter? && e != Press(ToggleIn) && e != Press(ToggleOut)
    ensures var r := Step(env, s, e);
      r == s.(view := r.view) && r.view.text == s.view.text && r.view.dir == s.view.dir
  {
    hide Count, NextMatch;
  }

  lemma {:induction false} SessionCurrent<P>(env: Env<P>, capacity: nat, inputs: seq<Input<P>>)
    ensures Current(env, Session(env, capacity, inputs))
    ensures Session(env, capacity, inputs).packets == PushedAll([], capacity, Captured(inputs))
  {
    if inputs != [] {
      var n := |inputs| - 1;
      var s := Session(env, capacity, inputs[..n]);
      SessionCurrent(env, capacity, inputs[..n]);
      hide Session, Current, Step, Count;
      match inputs[n] {
        case Ui(e) => { StepCurrent(env, s, e); }
        case Batch(batch) => {
          var all := AllArrived(env, s, capacity, batch);
          AllArrivedCurrent(env, s, capacity, batch);
          SameFilters(env, all, Settled(all).view);
          PushedTwice([], capacity, Captured(inputs[..n]), batch);
        }
      }
    }
  }

  /** Everything that arrived in a session, in order. */
  function Captured<P>(inputs: seq<Input<P>>): seq<P> {
    if inputs == [] then [] else
    var before, last := Captured(inputs[..|inputs| - 1]), inputs[|inputs| - 1];
    if last.Batch? then before + last.packets else before
  }

  lemma {:induction false} PushedTwice<P>(packets: seq<P>, capacity: nat, a: seq<P>, b: seq<P>)
    ensures PushedAll(PushedAll(packets, capacity, a), capacity, b) == PushedAll(packets, capacity, a + b)
  {
    if b == [] {
      assert a + b == a;
    } else {
      var n := |b| - 1;
      PushedTwice(packets, capacity, a, b[..n]);
      assert (a + b)[..|a + b| - 1] == a + b[..n];
    }
  }

  /**
   INDEX. After any session, the list that was shifted, appended to and rebuilt along the way exists
   exactly when a filter is set, and then holds in increasing order exactly the positions of the
   buffered packets that pass, the buffer being the newest packets that arrived.
   */
  lemma IndexIsExact<P>(env: Env<P>, capacity: nat, inputs: seq<Input<P>>)
    ensures var s := Session(env, capacity, inputs);
      var (v, index) := (s.view, s.indices);
      && s.packets == Newest(Captured(inputs), Room(capacity))
      && (index.Some? <==> v.text.Some? || v.dir.Some?)
      && (index.Some? ==>
          && (forall i, j :: 0 <= i < j < |index.value| ==> index.value[i] < index.value[j])
          && (forall k: nat :: k in index.value <==>
              && k < |s.packets|
              && (v.text.Some? ==> env.matches(v.text.value, s.packets[k]))
              && (v.dir.Some? ==> env.direction(s.packets[k]) == v.dir.value)))
  {
    var s := Session(env, capacity, inputs);
    SessionCurrent(env, capacity, inputs);
    RingHoldsNewest(capacity, Captured(inputs));
    PassingExactly(Test(env, s.view.text, s.view.dir), s.packets);
    hide Session, Passing, Captured;
  }

  // ---------------------------------------------------------------- the selection

  predicate InRange(v: View, count: nat) {
    count > 0 ==> v.selected < count
  }

  lemma {:induction false} MatchInRange<P>(env: Env<P>, s: Screen<P>, off: nat)
    requires 1 <= off && s.view.search.Some? && InRange(s.view, Count(s))
    ensures Count(s) > 0 ==> NextMatch(env, s, off) < Count(s)
    decreases Count(s) + 1 - off
  {
    hide Count, Shown;
    if off <= Count(s) {
      MatchInRange(env, s, off + 1);
    }
  }

  lemma SearchInRange<P>(env: Env<P>, s: Screen<P>)
    requires InRange(s.view, Count(s))
    ensures InRange(Searched(env, s).view, Count(Searched(env, s)))
  {
    if s.view.search.Some? {
      MatchInRange(env, s, 1);
    }
  }

  lemma MouseInRange(v: View, count: nat, e: Event)
    requires InRange(v, count)
    ensures InRange(MouseStep(v, count, e), count)
  {
    hide OnScrollbar;
  }

  lemma StepInRange<P>(env: Env<P>, s: Screen<P>, e: Event)
    requires InRange(s.view, Count(s))
    ensures InRange(Step(env, s, e).view, Count(Step(env, s, e)))
  {
    hide MouseStep, Searched, Rebuilt, ParseFilter, FilterText;
    match e {
      case Press(SearchNext) => { SearchInRange(env, s); }
      case SearchEnter(query) => { SearchInRange(env, s.(view := s.view.(search := Some(query)))); }
      case Press(_) => {}
      case FilterEnter(_, _) => {}
      case SearchEscape => {}
      case _ => { MouseInRange(s.view, Count(s), e); }
    }
  }

  /** After any event of any session, if a packet is visible then a visible packet is selected. */
  lemma {:induction false} SelectionStaysInRange<P>(env: Env<P>, capacity: nat, inputs: seq<Input<P>>)
    ensures var s := Session(env, capacity, inputs); InRange(s.view, Count(s))
  {
    if inputs != [] {
      hide Step;
      var n := |inputs| - 1;
      SelectionStaysInRange(env, capacity, inputs[..n]);
      if inputs[n].Ui? {
        StepInRange(env, Session(env, capacity, inputs[..n]), inputs[n].event);
      }
    }
  }

  // ---------------------------------------------------------------- the rows

  /** Every row of the list shows a packet that passes, and only rows of the list do. */
  lemma RowsShow<P>(env: Env<P>, capacity: nat, inputs: seq<Input<P>>, row: nat)
    ensures var s := Session(env, capacity, inputs);
      && (Shown(s, row).Some? <==> row < Count(s))
      && (row < Count(s) ==> Test(env, s.view.text, s.view.dir)(Shown(s, row).value))
  {
    var s := Session(env, capacity, inputs);
    SessionCurrent(env, capacity, inputs);
    var test := Test(env, s.view.text, s.view.dir);
    PassingExactly(test, s.packets);
    hide Session, Passing;
    assert row < |Passing(test, s.packets)| ==> Passing(test, s.packets)[row] in Passing(test, s.packets);
  }

  /** While following, a batch leaves the newest visible packet selected: none after it passes. */
  lemma FollowShowsNewest<P>(env: Env<P>, capacity: nat, inputs: seq<Input<P>>, batch: seq<P>, k: nat)
    requires var s := Session(env, capacity, inputs + [Batch(batch)]);
      s.view.follow && k < |s.packets| && Test(env, s.view.text, s.view.dir)(s.packets[k])
    ensures var s := Session(env, capacity, inputs + [Batch(batch)]);
      && s.view.selected < Count(s)
      && k <= if s.indices.Some? then s.indices.value[s.view.selected] else s.view.selected
  {
    var all := inputs + [Batch(batch)];
    var s := Session(env, capacity, all);
    SessionCurrent(env, capacity, all);
    assert all[..|inputs|] == inputs;
    assert Count(s) > 0 ==> s.view.selected == Count(s) - 1 by {
      hide Current, AllArrived;
    }
    var test := Test(env, s.view.text, s.view.dir);
    PassingExactly(test, s.packets);
    var index := Passing(test, s.packets);
    hide Passing, Session;
    assert k in index;
    var i :| 0 <= i < |index| && index[i] == k;
    assert i == |index| - 1 || index[i] < index[|index| - 1];
  }

  // ---------------------------------------------------------------- search

  /** The row `k` steps after the selection, wrapping round, shows a match. */
  predicate FindsAfter<P>(env: Env<P>, s: Screen<P>, k: nat) {
    s.view.search.Some? && Count(s) > 0 &&
    var p := Shown(s, (s.view.selected + k) % Count(s));
    p.Some? && env.finds(s.view.search.value, p.value)
  }

  ghost predicate NoneBetween<P>(env: Env<P>, s: Screen<P>, a: nat, b: nat) {
    forall k: nat :: a <= k < b ==> !FindsAfter(env, s, k)
  }

  /** The search stops at the nearest match after the selection, wrapping round, or stays put. */
  lemma {:induction false} SearchFindsNearest<P>(env: Env<P>, s: Screen<P>, off: nat) returns (k: nat)
    requires s.view.search.Some? && 1 <= off <= Count(s) + 1
    ensures var r := NextMatch(env, s, off);
      && off <= k <= Count(s) + 1 && NoneBetween(env, s, off, k)
      && (if k <= Count(s) then FindsAfter(env, s, k) && r == (s.view.selected + k) % Count(s) else r == s.view.selected)
    decreases Count(s) + 1 - off
  {
    hide Count, Shown;
    if off > Count(s) || FindsAfter(env, s, off) {
      k := off;
    } else {
      k := SearchFindsNearest(env, s, off + 1);
    }
  }
}
