/**
 Compressed domain names (`decode/dns.rs`, section 4.1.4 of RFC 1035): what the parser
 returns, which encodings it accepts, and that it never loops.
 */
module DnsNames {
  import opened Bytes

  type Text = seq<byte>

  const MAX_DEPTH := 128
  const DOT: byte := 46

  /** `labels.join(".")` */
  function Join(labels: seq<Text>): Text {
    if labels == [] then []
    else if |labels| == 1 then labels[0]
    else labels[0] + ([DOT] + Join(labels[1..]))
  }

  function PointerAt(data: seq<byte>, pos: nat): nat
    requires pos + 1 < |data|
  {
    Be16(data[pos] % 64, data[pos + 1])
  }

  /** The name at `pos` and the position after it; `depth` counts the pointers followed. */
  function ParseName(data: seq<byte>, pos: nat, base: nat, depth: nat): (r: Option<(Text, nat)>)
    ensures r.Some? ==> pos < r.value.1 <= |data|
    decreases if depth > MAX_DEPTH then 0 else MAX_DEPTH + 1 - depth, 1, 0
  {
    if depth > MAX_DEPTH then None else Labels(data, pos, base, depth, [])
  }

  function Labels(data: seq<byte>, pos: nat, base: nat, depth: nat, labels: seq<Text>): (r: Option<(Text, nat)>)
    requires depth <= MAX_DEPTH
    ensures r.Some? ==> pos < r.value.1 <= |data|
    decreases MAX_DEPTH + 1 - depth, 0, if pos < |data| then |data| - pos else 0
  {
    if pos >= |data| then None
    else if data[pos] == 0 then Some((Join(labels), pos + 1))
    else if data[pos] >= 192 then
      if pos + 1 >= |data| then None else
      var part := ParseName(data, base + PointerAt(data, pos), base, depth + 1);
      if part.None? then None
      else Some((if labels == [] then part.value.0 else Join(labels + [part.value.0]), pos + 2))
    else
      var end := pos + 1 + data[pos];
      if end > |data| then None else Labels(data, end, base, depth, labels + [data[pos + 1..end]])
  }

  /** `parse_dns_name`: a loop over labels, recursive at a pointer. */
  method ParseDnsName(data: seq<byte>, start: nat, base: nat, depth: nat) returns (r: Option<(Text, nat)>)
    ensures r == ParseName(data, start, base, depth)
    decreases if depth > MAX_DEPTH then 0 else MAX_DEPTH + 1 - depth
  {
    if depth > MAX_DEPTH {
      return None;
    }
    var pos, labels := start, [];
    while true
      invariant pos >= 0
      invariant Labels(data, pos, base, depth, labels) == ParseName(data, start, base, depth)
      decreases if pos < |data| then |data| - pos else 0
    {
      if pos >= |data| {
        return None;
      }
      var len := data[pos];
      if len == 0 {
        return Some((Join(labels), pos + 1));
      }
      if len >= 192 {
        if pos + 1 >= |data| {
          return None;
        }
        var part := ParseDnsName(data, base + PointerAt(data, pos), base, depth + 1);
        if part.None? {
          return None;
        }
        if labels != [] {
          return Some((Join(labels + [part.value.0]), pos + 2));
        }
        return Some((part.value.0, pos + 2));
      }
      pos := pos + 1;
      if pos + len > |data| {
        return None;
      }
      labels := labels + [data[pos..pos + len]];
      pos := pos + len;
    }
  }

  // ---------------------------------------------------------------- encodings

  /** How a name may stand in a message: labels, then the root or a pointer to another name. */
  datatype Name = Root | Label(text: Text, next: Name) | Pointer(offset: nat, target: Name)

  /**
   `n` stands at `pos`. RFC 1035 allows labels of at most 63 bytes; the parser takes any length
   byte below 192 as a label, so encodings are described with its bound.
   */
  predicate Encodes(data: seq<byte>, base: nat, pos: nat, n: Name)
    decreases n
  {
    match n
    case Root => pos < |data| && data[pos] == 0
    case Label(text, next) =>
      && 1 <= |text| < 192
      && pos + 1 + |text| <= |data| && data[pos] == |text| && data[pos + 1..pos + 1 + |text|] == text
      && Encodes(data, base, pos + 1 + |text|, next)
    case Pointer(offset, target) =>
      && pos + 1 < |data| && data[pos] >= 192 && offset == PointerAt(data, pos)
      && Encodes(data, base, base + offset, target)
  }

  /** Pointers followed in a row. */
  function Hops(n: Name): nat {
    match n
    case Root => 0
    case Label(_, next) => Hops(next)
    case Pointer(_, target) => 1 + Hops(target)
  }

  /** Bytes the name occupies where it stands: up to its root byte or its first pointer. */
  function Linear(n: Name): nat {
    match n
    case Root => 1
    case Label(text, next) => 1 + |text| + Linear(next)
    case Pointer(_, _) => 2
  }

  /** The labels that make up the name (section 3.1 of RFC 1035). */
  function AllLabels(n: Name): seq<Text> {
    match n
    case Root => []
    case Label(text, next) => [text] + AllLabels(next)
    case Pointer(_, target) => AllLabels(target)
  }

  /** A pointer, after at least one label, that leads to the root and nothing else. */
  predicate Dangling(n: Name) {
    match n
    case Root => false
    case Label(_, next) => (next.Pointer? && AllLabels(next) == []) || Dangling(next)
    case Pointer(_, target) => Dangling(target)
  }

  /** What the parser joins: a pointer's target is one part. */
  function Parts(n: Name): seq<Text> {
    match n
    case Root => []
    case Label(text, next) => [text] + Parts(next)
    case Pointer(_, target) => [Join(Parts(target))]
  }

  // ---------------------------------------------------------------- accepted exactly

  lemma RootStep(data: seq<byte>, pos: nat, base: nat, depth: nat, labels: seq<Text>)
    requires depth <= MAX_DEPTH && pos < |data| && data[pos] == 0
    ensures Labels(data, pos, base, depth, labels) == Some((Join(labels), pos + 1))
  {
    hide Join, PointerAt;
  }

  lemma LabelStep(data: seq<byte>, pos: nat, base: nat, depth: nat, labels: seq<Text>, text: Text)
    requires depth <= MAX_DEPTH && 1 <= |text| < 192 && pos + 1 + |text| <= |data|
    requires data[pos] == |text| && data[pos + 1..pos + 1 + |text|] == text
    ensures Labels(data, pos, base, depth, labels) == Labels(data, pos + 1 + |text|, base, depth, labels + [text])
  {
    hide Join, PointerAt, ParseName;
  }

  lemma PointerStep(data: seq<byte>, pos: nat, base: nat, depth: nat, labels: seq<Text>)
    requires depth <= MAX_DEPTH && pos + 1 < |data| && data[pos] >= 192
    ensures var target := base + PointerAt(data, pos);
      Labels(data, pos, base, depth, labels) ==
        if depth == MAX_DEPTH then None else
        var part := Labels(data, target, base, depth + 1, []);
        if part.None? then None else Some((Join(labels + [part.value.0]), pos + 2))
  {
    hide PointerAt;
    if labels == [] {
      assert forall part: Text :: labels + [part] == [part];
    }
  }

  lemma {:induction false} LabelsRead(data: seq<byte>, pos: nat, base: nat, depth: nat, labels: seq<Text>, n: Name)
    requires depth <= MAX_DEPTH && Encodes(data, base, pos, n)
    ensures Labels(data, pos, base, depth, labels)
            == if depth + Hops(n) <= MAX_DEPTH then Some((Join(labels + Parts(n)), pos + Linear(n))) else None
    decreases n
  {
    hide Labels, Join, PointerAt;
    match n
    case Root =>
      RootStep(data, pos, base, depth, labels);
      assert labels + [] == labels;
    case Label(text, next) =>
      LabelStep(data, pos, base, depth, labels, text);
      LabelsRead(data, pos + 1 + |text|, base, depth, labels + [text], next);
      assert labels + [text] + Parts(next) == labels + Parts(n);
    case Pointer(offset, target) =>
      PointerStep(data, pos, base, depth, labels);
      if depth < MAX_DEPTH {
        LabelsRead(data, base + offset, base, depth + 1, [], target);
        assert [] + Parts(target) == Parts(target);
      }
  }

  lemma {:induction false} LabelsFound(data: seq<byte>, pos: nat, base: nat, depth: nat, labels: seq<Text>) returns (n: Name)
    requires depth <= MAX_DEPTH && Labels(data, pos, base, depth, labels).Some?
    ensures Encodes(data, base, pos, n)
    decreases MAX_DEPTH + 1 - depth, if pos < |data| then |data| - pos else 0
  {
    if data[pos] == 0 {
      n := Root;
    } else if data[pos] >= 192 {
      var target := LabelsFound(data, base + PointerAt(data, pos), base, depth + 1, []);
      n := Pointer(PointerAt(data, pos), target);
    } else {
      var end := pos + 1 + data[pos];
      var text := data[pos + 1..end];
      var next := LabelsFound(data, end, base, depth, labels + [text]);
      n := Label(text, next);
    }
  }

  /** The name shown: its labels joined by dots, with a spare dot when a pointer dangles. */
  lemma {:induction false} ShownName(n: Name)
    ensures Join(Parts(n)) == Join(AllLabels(n)) + if Dangling(n) then [DOT] else []
    ensures n.Root? <==> Parts(n) == []
  {
    match n
    case Root =>
    case Label(text, next) =>
      ShownName(next);
      if AllLabels(next) == [] {
        NothingDangles(next);
      }
    case Pointer(_, target) => ShownName(target);
  }

  lemma {:induction false} NothingDangles(n: Name)
    requires AllLabels(n) == []
    ensures !Dangling(n)
  {
    if n.Pointer? {
      NothingDangles(n.target);
    }
  }

  /**
   NAMES. For every position the parser answers if and only if a name stands there whose chain
   of pointers has at most 128 hops. It then returns the labels joined by dots and the position
   after the linear part; the text is exactly the name unless a pointer leads to the root only.
   */
  lemma NameParsed(data: seq<byte>, base: nat, pos: nat, n: Name)
    requires Encodes(data, base, pos, n)
    ensures ParseName(data, pos, base, 0).Some? <==> Hops(n) <= 128
    ensures Hops(n) <= 128 ==>
      && ParseName(data, pos, base, 0)
         == Some((Join(AllLabels(n)) + if Dangling(n) then [DOT] else [], pos + Linear(n)))
      && (ParseName(data, pos, base, 0) == Some((Join(AllLabels(n)), pos + Linear(n))) <==> !Dangling(n))
  {
    LabelsRead(data, pos, base, 0, [], n);
    ShownName(n);
    assert [] + Parts(n) == Parts(n);
    var full := Join(AllLabels(n));
    assert full + [] == full && |full + [DOT]| == |full| + 1;
  }

  /** The label "a" and a pointer to a zero byte: a name of one label, shown with a spare dot. */
  lemma DanglingShown()
    ensures var data, n := [0, 1, 97, 0xC0, 0], Label([97], Pointer(0, Root));
      && Encodes(data, 0, 1, n) && Join(AllLabels(n)) == [97]
      && ParseName(data, 1, 0, 0) == Some(([97, DOT], 5))
  {
    var data: seq<byte>, n := [0, 1, 97, 0xC0, 0], Label([97], Pointer(0, Root));
    assert data[2..3] == [97];
    assert Encodes(data, 0, 3, n.next);
    assert AllLabels(n.next) == [] && Dangling(n) && Linear(n) == 4;
    assert AllLabels(n) == [[97]];
    NameParsed(data, 0, 1, n);
    assert [97] + [DOT] == [97, DOT];
  }

  lemma NameMeans(data: seq<byte>, base: nat, pos: nat) returns (n: Name)
    requires ParseName(data, pos, base, 0).Some?
    ensures Encodes(data, base, pos, n) && Hops(n) <= 128
  {
    n := LabelsFound(data, pos, base, 0, []);
    NameParsed(data, base, pos, n);
  }

  // ---------------------------------------------------------------- cycles

  /** Where the walk goes next from `pos`: past a label or to a pointer's target. */
  function Next(data: seq<byte>, base: nat, pos: nat): Option<nat> {
    if pos >= |data| || data[pos] == 0 then None
    else if data[pos] >= 192 then
      if pos + 1 < |data| then Some(base + PointerAt(data, pos)) else None
    else Some(pos + 1 + data[pos])
  }

  function Walk(data: seq<byte>, base: nat, pos: nat, steps: nat): Option<nat>
    decreases steps
  {
    if steps == 0 then Some(pos) else
    var next := Next(data, base, pos);
    if next.None? then None else Walk(data, base, next.value, steps - 1)
  }

  function Size(n: Name): nat {
    match n
    case Root => 0
    case Label(_, next) => 1 + Size(next)
    case Pointer(_, target) => 1 + Size(target)
  }

  /** A position holds at most one name. */
  lemma {:induction false} EncodesUnique(data: seq<byte>, base: nat, pos: nat, n: Name, m: Name)
    requires Encodes(data, base, pos, n) && Encodes(data, base, pos, m)
    ensures n == m
    decreases n
  {
    match n
    case Root =>
    case Label(text, next) => EncodesUnique(data, base, pos + 1 + |text|, next, m.next);
    case Pointer(offset, target) => EncodesUnique(data, base, base + offset, target, m.target);
  }

  lemma {:induction false} WalkShrinks(data: seq<byte>, base: nat, pos: nat, n: Name, steps: nat) returns (m: Name)
    requires Encodes(data, base, pos, n) && Walk(data, base, pos, steps).Some?
    ensures Encodes(data, base, Walk(data, base, pos, steps).value, m) && Size(m) + steps == Size(n)
    decreases steps
  {
    if steps == 0 {
      m := n;
    } else {
      match n
      case Label(text, next) => m := WalkShrinks(data, base, pos + 1 + |text|, next, steps - 1);
      case Pointer(offset, target) => m := WalkShrinks(data, base, base + offset, target, steps - 1);
    }
  }

  /** CYCLES. A name that leads back to itself, through any labels and pointers, is refused. */
  lemma CycleRefused(data: seq<byte>, base: nat, pos: nat, steps: nat)
    requires steps > 0 && Walk(data, base, pos, steps) == Some(pos)
    ensures ParseName(data, pos, base, 0) == None
  {
    if ParseName(data, pos, base, 0).Some? {
      var n := NameMeans(data, base, pos);
      var m := WalkShrinks(data, base, pos, n, steps);
      EncodesUnique(data, base, pos, n, m);
    }
  }
}
