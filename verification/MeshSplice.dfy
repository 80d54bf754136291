/**
 * tools/client_model/ue_cook.py: a cooked skeletal mesh cut into labelled parts, and the mesh
 * data of another model spliced in between the parts that are kept.
 */
module MeshSplice {
  import opened Results
  import opened Bytes
  import opened SkelMesh

  // ----- cutting by a table of parts -----

  datatype Label =
    | PropBlock | SkelStrip | Bounds | Materials | RefSkel | Cooked | NumLods | LodHeader
    | RequiredBones | Sections | ActiveBones | BufferSize | DataStrip
    | Index | Position | VertexBuffer | SkinWeight | Color | Adjacency | Tail

  datatype Slot = Slot(name: Label, body: Body)

  /** From the skeleton to the level-of-detail header. */
  const SKELETON: seq<Slot> := [
    Slot(RefSkel, Items([Arr(12), Arr(40), Arr(12)])),
    Slot(Cooked, Items([Fixed(4)])),
    Slot(NumLods, Items([One])),
    Slot(LodHeader, Items([Fixed(10)]))]

  /** From the bone lists to the streamed data's strip flags. */
  const LISTS: seq<Slot> := [
    Slot(RequiredBones, Items([Arr(2)])),
    Slot(Sections, Counted(SECTION)),
    Slot(ActiveBones, Items([Arr(2)])),
    Slot(BufferSize, Items([Fixed(4)])),
    Slot(DataStrip, Items([Fixed(2)]))]

  const COLORS: seq<Slot> := [Slot(Color, Items([Fixed(10), Bulk]))]

  /** The streamed buffers. */
  function Buffers(colors: bool): seq<Slot> {
    [Slot(Index, Items([Fixed(1), Bulk])),
     Slot(Position, Items([Fixed(8), Bulk])),
     Slot(VertexBuffer, Items([Fixed(18), Bulk, Bulk])),
     Slot(SkinWeight, Items([Fixed(22), Bulk, Fixed(6), Bulk]))]
    + (if colors then COLORS else [])
    + [Slot(Adjacency, Items([Fixed(1), Bulk]))]
  }

  function Layout(colors: bool): (slots: seq<Slot>)
    ensures |slots| == if colors then 15 else 14
  {
    SKELETON + LISTS + Buffers(colors)
  }

  function Concat(parts: seq<Data>): Data {
    if parts == [] then [] else parts[0] + Concat(parts[1..])
  }

  /** Cuts one part per slot off the front; the last piece is what is left. */
  function Cut(slots: seq<Slot>, s: Data): (r: Option<seq<Data>>)
    ensures r.Some? ==> |r.value| == |slots| + 1
  {
    if slots == [] then Some([s])
    else
      var n := BodyExtent(slots[0].body, s);
      if n.None? then None
      else
        var more := Cut(slots[1..], s[n.value..]);
        if more.None? then None else Some([s[..n.value]] + more.value)
  }

  /** The bytes are exactly one such part. */
  predicate Fills(body: Body, part: Data) { BodyExtent(body, part) == Some(|part|) }

  ghost predicate AllFill(slots: seq<Slot>, parts: seq<Data>) {
    |parts| == |slots| + 1 && forall i :: 0 <= i < |slots| ==> Fills(slots[i].body, parts[i])
  }

  lemma ConcatCons(x: Data, parts: seq<Data>)
    ensures Concat([x] + parts) == x + Concat(parts)
  {
    assert ([x] + parts)[1..] == parts;
  }

  lemma ConcatOne(x: Data)
    ensures Concat([x]) == x
  {
    assert [x] == [x] + [];
    ConcatCons(x, []);
  }

  lemma {:induction false} ConcatAppend(s: seq<Data>, t: seq<Data>)
    ensures Concat(s + t) == Concat(s) + Concat(t)
  {
    if s == [] {
      assert s + t == t;
    } else {
      assert s + t == [s[0]] + (s[1..] + t);
      ConcatCons(s[0], s[1..] + t);
      ConcatAppend(s[1..], t);
    }
  }

  lemma CutStep(slots: seq<Slot>, s: Data, n: nat, more: seq<Data>)
    requires slots != [] && BodyExtent(slots[0].body, s) == Some(n) && Cut(slots[1..], s[n..]) == Some(more)
    ensures Cut(slots, s) == Some([s[..n]] + more)
  {
  }

  lemma CutSplit(slots: seq<Slot>, s: Data) returns (n: nat, more: seq<Data>)
    requires slots != [] && Cut(slots, s).Some?
    ensures n <= |s| && BodyExtent(slots[0].body, s) == Some(n) && Cut(slots[1..], s[n..]) == Some(more)
    ensures Cut(slots, s).value == [s[..n]] + more
  {
    n := BodyExtent(slots[0].body, s).value;
    more := Cut(slots[1..], s[n..]).value;
  }

  /** The pieces put end to end are the bytes that were cut. */
  lemma {:induction false} CutTiles(slots: seq<Slot>, s: Data, parts: seq<Data>)
    requires Cut(slots, s) == Some(parts)
    ensures Concat(parts) == s
    decreases |slots|
  {
    hide BodyExtent;
    if slots == [] {
      ConcatOne(s);
    } else {
      var n, more := CutSplit(slots, s);
      CutTiles(slots[1..], s[n..], more);
      ConcatCons(s[..n], more);
    }
  }

  lemma FillsOwn(body: Body, s: Data, n: nat)
    requires BodyExtent(body, s) == Some(n)
    ensures Fills(body, s[..n])
  {
    assert s[..n][..n] == s[..n];
    ExtentIsOwn(body, s, s[..n], n);
  }

  lemma {:induction false} CutFills(slots: seq<Slot>, s: Data, parts: seq<Data>)
    requires Cut(slots, s) == Some(parts)
    ensures AllFill(slots, parts)
    decreases |slots|
  {
    hide BodyExtent;
    if slots != [] {
      var n, more := CutSplit(slots, s);
      CutFills(slots[1..], s[n..], more);
      FillsOwn(slots[0].body, s, n);
      forall i | 0 <= i < |slots| ensures Fills(slots[i].body, parts[i]) {
        if i > 0 { assert Fills(slots[1..][i - 1].body, more[i - 1]); }
      }
    }
  }

  lemma FillsInFront(body: Body, part: Data, rest: Data)
    requires Fills(body, part)
    ensures BodyExtent(body, part + rest) == Some(|part|)
    ensures (part + rest)[..|part|] == part && (part + rest)[|part|..] == rest
  {
    assert part[..|part|] == part;
    ExtentIsOwn(body, part, part + rest, |part|);
  }

  /** Parts that fill their slots, put end to end, are cut exactly where they were joined. */
  lemma {:induction false} CutRestores(slots: seq<Slot>, parts: seq<Data>)
    requires AllFill(slots, parts)
    ensures Cut(slots, Concat(parts)) == Some(parts)
    decreases |slots|
  {
    hide BodyExtent, Fills;
    if slots == [] {
      ConcatOne(parts[0]);
      assert parts == [parts[0]];
    } else {
      var rest := parts[1..];
      forall i | 0 <= i < |slots[1..]| ensures Fills(slots[1..][i].body, rest[i]) {
        assert Fills(slots[i + 1].body, parts[i + 1]);
      }
      CutRestores(slots[1..], rest);
      assert parts == [parts[0]] + rest;
      ConcatCons(parts[0], rest);
      FillsInFront(slots[0].body, parts[0], Concat(rest));
      CutStep(slots, Concat(parts), |parts[0]|, rest);
    }
  }

  // ----- the whole mesh -----

  /** The four parts in front of the skeleton. */
  const HEAD: nat := 4

  /** The label of every part, in order. */
  function Labels(colors: bool): (ls: seq<Label>)
    ensures |ls| == HEAD + |Layout(colors)| + 1
  {
    FIRST + LabelsOf(Layout(colors)) + [Tail]
  }

  function LabelsOf(slots: seq<Slot>): (ls: seq<Label>)
    ensures |ls| == |slots|
  {
    seq(|slots|, i requires 0 <= i < |slots| => slots[i].name)
  }

  datatype Parsed = Parsed(parts: seq<Data>, colors: bool)

  function Front(payload: Data, r: nat, rs: nat): seq<Data>
    requires r + 30 <= rs <= |payload|
  {
    [payload[..r], payload[r..r + 2], payload[r + 2..r + 30], payload[r + 30..rs]]
  }

  /** The parts `parse_segments` finds; `None` where it fails. */
  function Segments(payload: Data, names: seq<Tag>): (p: Option<Parsed>)
    ensures p.Some? ==> |p.value.parts| == |Labels(p.value.colors)|
  {
    var props := PropEnd(payload, names, TURNS, false);
    if props.None? then None
    else
      var r, colors := props.value.0, props.value.1;
      var rs := FindRefskel(payload, |names|, r + 30);
      if rs.None? then None
      else
        var rest := Cut(Layout(colors), payload[rs.value..]);
        if rest.None? then None
        else Some(Parsed(Front(payload, r, rs.value) + rest.value, colors))
  }

  lemma {:induction false} FrontTiles(payload: Data, r: nat, rs: nat)
    requires r + 30 <= rs <= |payload|
    ensures Concat(Front(payload, r, rs)) == payload[..rs]
  {
    var a, b, c, d := payload[..r], payload[r..r + 2], payload[r + 2..r + 30], payload[r + 30..rs];
    ConcatFour(a, b, c, d);
    assert a + (b + (c + d)) == payload[..rs];
  }

  lemma ConcatFour(a: Data, b: Data, c: Data, d: Data)
    ensures Concat([a, b, c, d]) == a + (b + (c + d))
  {
    assert [a, b, c, d] == [a] + ([b] + ([c] + ([d] + [])));
    ConcatCons(d, []);
    ConcatCons(c, [d] + []);
    ConcatCons(b, [c] + ([d] + []));
    ConcatCons(a, [b] + ([c] + ([d] + [])));
  }

  /** The parts cover the payload contiguously: joined they are the payload. */
  lemma SegmentsTile(payload: Data, names: seq<Tag>)
    requires Segments(payload, names).Some?
    ensures Concat(Segments(payload, names).value.parts) == payload
  {
    hide PropEnd, FindRefskel, Cut;
    var props := PropEnd(payload, names, TURNS, false).value;
    var rs := FindRefskel(payload, |names|, props.0 + 30).value;
    var rest := Cut(Layout(props.1), payload[rs..]).value;
    CutTiles(Layout(props.1), payload[rs..], rest);
    FrontTiles(payload, props.0, rs);
    ConcatAppend(Front(payload, props.0, rs), rest);
    assert payload[..rs] + payload[rs..] == payload;
  }

  // ----- the cursor that finds them -----

  datatype Segment = Segment(name: Label, start: nat, end: nat)

  predicate InsideOf(payload: Data, seg: Segment) { seg.start <= seg.end <= |payload| }

  function BytesOf(payload: Data, seg: Segment): Data
    requires InsideOf(payload, seg)
  {
    payload[seg.start..seg.end]
  }

  /** The recorded ranges run on from each other up to `o`, and these are their labels and bytes. */
  ghost predicate Recorded(payload: Data, segs: seq<Segment>, labels: seq<Label>, parts: seq<Data>, o: nat) {
    && |segs| == |labels| == |parts| && o <= |payload|
    && (forall i :: 0 <= i < |segs| ==> InsideOf(payload, segs[i]))
    && (forall i :: 0 <= i < |segs| ==> segs[i].name == labels[i] && BytesOf(payload, segs[i]) == parts[i])
    && (forall i :: 0 <= i < |segs| ==> segs[i].start == if i == 0 then 0 else segs[i - 1].end)
    && o == if segs == [] then 0 else segs[|segs| - 1].end
  }

  lemma RecordOne(payload: Data, segs: seq<Segment>, labels: seq<Label>, parts: seq<Data>, o: nat, l: Label, end: nat)
    requires Recorded(payload, segs, labels, parts, o) && o <= end <= |payload|
    ensures Recorded(payload, segs + [Segment(l, o, end)], labels + [l], parts + [payload[o..end]], end)
  {
  }

  /** One item of a part at the cursor. */
  method Skip(payload: Data, o: nat, it: Item) returns (r: Option<nat>)
    requires o <= |payload|
    ensures r == (var n := Extent(it, payload[o..]); if n.None? then None else Some(o + n.value))
  {
    hide ArrayBytes, BulkBytes;
    match it {
      case Fixed(n) => r := if o + n <= |payload| then Some(o + n) else None;
      case One =>
        r := if o + 4 <= |payload| && DecI32(payload[o..]) == 1 then Some(o + 4) else None;
      case Arr(elem) =>
        if o + 4 > |payload| { return None; }
        ArrayBytesIsProduct(DecI32(payload[o..]), elem);
        var end := o + 4 + DecI32(payload[o..]) * elem;
        r := if o + 4 <= end <= |payload| then Some(end) else None;
      case Bulk =>
        if o + 8 > |payload| { return None; }
        var es, n := DecI32(payload[o..]), DecI32(payload[o + 4..]);
        assert payload[o..][4..] == payload[o + 4..];
        BulkBytesIsProduct(es, n);
        var end := o + 8 + es * n;
        r := if o + 8 <= end <= |payload| then Some(end) else None;
    }
  }

  function Onto(o: nat, n: Option<nat>): Option<nat> { if n.None? then None else Some(o + n.value) }

  lemma ExtentAllStep(items: seq<Item>, s: Data, n: nat)
    requires items != [] && Extent(items[0], s) == Some(n)
    ensures ExtentAll(items, s) == Onto(n, ExtentAll(items[1..], s[n..]))
  {
  }

  method SkipAll(payload: Data, start: nat, items: seq<Item>) returns (r: Option<nat>)
    requires start <= |payload|
    ensures r == Onto(start, ExtentAll(items, payload[start..]))
  {
    hide Extent;
    var o := start;
    var i := 0;
    while i < |items|
      invariant 0 <= i <= |items| && start <= o <= |payload|
      invariant Onto(start, ExtentAll(items, payload[start..])) == Onto(o, ExtentAll(items[i..], payload[o..]))
    {
      var next := Skip(payload, o, items[i]);
      if next.None? { return None; }
      ExtentAllStep(items[i..], payload[o..], next.value - o);
      DropDrop(payload, o, next.value - o);
      assert items[i..][1..] == items[i + 1..];
      o := next.value;
      i := i + 1;
    }
    return Some(o);
  }

  lemma RepeatStep(count: int, unit: seq<Item>, s: Data, n: nat)
    requires 0 < count && ExtentAll(unit, s) == Some(n)
    ensures Repeat(count, unit, s) == Onto(n, Repeat(count - 1, unit, s[n..]))
  {
  }

  lemma NoUnits(unit: seq<Item>)
    ensures forall n: int, s: Data :: n <= 0 ==> Repeat(n, unit, s) == Some(0)
  {
  }

  lemma UnitFails(unit: seq<Item>, left: int, s: Data)
    requires 0 < left && ExtentAll(unit, s).None?
    ensures Repeat(left, unit, s).None?
  {
  }

  lemma OntoOnto(o: nat, k: nat, n: Option<nat>)
    ensures Onto(o, Onto(k, n)) == Onto(o + k, n)
  {
  }

  lemma UnitDone(payload: Data, unit: seq<Item>, o: nat, left: int, next: nat)
    requires o <= |payload| && 0 < left && Onto(o, ExtentAll(unit, payload[o..])) == Some(next)
    ensures o <= next <= |payload|
    ensures Onto(o, Repeat(left, unit, payload[o..])) == Onto(next, Repeat(left - 1, unit, payload[next..]))
  {
    hide ExtentAll;
    RepeatStep(left, unit, payload[o..], next - o);
    DropDrop(payload, o, next - o);
    assert Repeat(left, unit, payload[o..]) == Onto(next - o, Repeat(left - 1, unit, payload[next..]));
    OntoOnto(o, next - o, Repeat(left - 1, unit, payload[next..]));
  }

  /** The section loop: a count, then that many units. */
  method SkipCounted(payload: Data, start: nat, unit: seq<Item>) returns (r: Option<nat>)
    requires start <= |payload|
    ensures r == Onto(start, BodyExtent(Counted(unit), payload[start..]))
  {
    hide ExtentAll, DecI32, Repeat;
    if start + 4 > |payload| { return None; }
    var count := DecI32(payload[start..]);
    var o := start + 4;
    assert payload[start..][4..] == payload[o..];
    NoUnits(unit);
    var left := count;
    while left > 0
      invariant left <= count && start + 4 <= o <= |payload|
      invariant Onto(start, BodyExtent(Counted(unit), payload[start..])) == Onto(o, Repeat(left, unit, payload[o..]))
    {
      var next := SkipAll(payload, o, unit);
      if next.None? {
        UnitFails(unit, left, payload[o..]);
        return None;
      }
      UnitDone(payload, unit, o, left, next.value);
      o := next.value;
      left := left - 1;
    }
    return Some(o);
  }

  method SkipBody(payload: Data, start: nat, body: Body) returns (r: Option<nat>)
    requires start <= |payload|
    ensures r == Onto(start, BodyExtent(body, payload[start..]))
  {
    match body {
      case Items(items) => r := SkipAll(payload, start, items);
      case Counted(unit) => r := SkipCounted(payload, start, unit);
    }
  }

  /** The cut from some slot on, seen from the parts before it. */
  function Resume(before: seq<Data>, rest: Option<seq<Data>>): Option<seq<Data>> {
    if rest.None? then None else Some(before + rest.value)
  }

  lemma ResumeStep(before: seq<Data>, slots: seq<Slot>, s: Data, n: nat)
    requires slots != [] && BodyExtent(slots[0].body, s) == Some(n)
    ensures Resume(before, Cut(slots, s)) == Resume(before + [s[..n]], Cut(slots[1..], s[n..]))
  {
    var more := Cut(slots[1..], s[n..]);
    if more.Some? { assert before + ([s[..n]] + more.value) == before + [s[..n]] + more.value; }
  }

  const FIRST: seq<Label> := [PropBlock, SkelStrip, Bounds, Materials]

  /** The loop over the table after `i` slots; `whole` is what the cut will come to. */
  ghost predicate Progress(payload: Data, slots: seq<Slot>, i: nat, segs: seq<Segment>, parts: seq<Data>, o: nat,
                           whole: Option<seq<Data>>) {
    && i <= |slots| && o <= |payload|
    && Recorded(payload, segs, FIRST + LabelsOf(slots)[..i], parts, o)
    && whole == Resume(parts, Cut(slots[i..], payload[o..]))
  }

  lemma SlotDone(payload: Data, slots: seq<Slot>, i: nat, segs: seq<Segment>, parts: seq<Data>, o: nat,
                 whole: Option<seq<Data>>, end: nat)
    requires Progress(payload, slots, i, segs, parts, o, whole) && i < |slots|
    requires Onto(o, BodyExtent(slots[i].body, payload[o..])) == Some(end)
    ensures o <= end <= |payload|
    ensures Progress(payload, slots, i + 1, segs + [Segment(slots[i].name, o, end)],
                     parts + [payload[o..end]], end, whole)
  {
    hide BodyExtent, Recorded, Cut;
    ResumeStep(parts, slots[i..], payload[o..], end - o);
    DropDrop(payload, o, end - o);
    RecordOne(payload, segs, FIRST + LabelsOf(slots)[..i], parts, o, slots[i].name, end);
    assert slots[i..][1..] == slots[i + 1..] && payload[o..][..end - o] == payload[o..end];
    assert FIRST + LabelsOf(slots)[..i] + [slots[i].name] == FIRST + LabelsOf(slots)[..i + 1];
  }

  lemma SlotFails(payload: Data, slots: seq<Slot>, i: nat, segs: seq<Segment>, parts: seq<Data>, o: nat,
                  whole: Option<seq<Data>>)
    requires Progress(payload, slots, i, segs, parts, o, whole) && i < |slots|
    requires BodyExtent(slots[i].body, payload[o..]).None?
    ensures whole.None?
  {
  }

  lemma AllSlotsDone(payload: Data, colors: bool, segs: seq<Segment>, parts: seq<Data>, o: nat,
                     whole: Option<seq<Data>>)
    requires Progress(payload, Layout(colors), |Layout(colors)|, segs, parts, o, whole)
    ensures whole.Some?
    ensures Recorded(payload, segs + [Segment(Tail, o, |payload|)], Labels(colors), whole.value, |payload|)
  {
    hide Recorded;
    var slots := Layout(colors);
    assert slots[|slots|..] == [] && LabelsOf(slots)[..|slots|] == LabelsOf(slots);
    RecordOne(payload, segs, FIRST + LabelsOf(slots), parts, o, Tail, |payload|);
    assert payload[o..|payload|] == payload[o..];
  }

  /** `parse_segments`: the labelled ranges, which run on from each other and cover the payload. */
  method ParseSegments(payload: Data, names: seq<Tag>) returns (r: Option<(seq<Segment>, bool)>)
    ensures r.Some? <==> Segments(payload, names).Some?
    ensures r.Some? ==>
      var p := Segments(payload, names).value;
      r.value.1 == p.colors && Recorded(payload, r.value.0, Labels(p.colors), p.parts, |payload|)
  {
    hide PropEnd, FindRefskel, BodyExtent, Recorded, Progress, Cut;
    var props := PropertyBlockEnd(payload, names);
    if props.None? { return None; }
    var start, colors := props.value.0, props.value.1;
    var rs := LocateRefskel(payload, |names|, start + 30);
    if rs.None? { return None; }
    var segs := CutFrom(payload, start, rs.value, colors);
    if segs.None? { return None; }
    return Some((segs.value, colors));
  }

  /** The ranges in front of the skeleton, then one per table entry, then the tail. */
  method CutFrom(payload: Data, start: nat, rs: nat, colors: bool) returns (r: Option<seq<Segment>>)
    requires start + 30 <= rs <= |payload|
    ensures var rest := Cut(Layout(colors), payload[rs..]);
      if rest.None? then r.None?
      else r.Some? && Recorded(payload, r.value, Labels(colors), Front(payload, start, rs) + rest.value, |payload|)
  {
    hide BodyExtent, Recorded, Progress, Cut;
    var segs := FrontSegments(payload, start, rs);
    ghost var parts := Front(payload, start, rs);
    var slots := Layout(colors);
    ghost var whole := Resume(parts, Cut(slots, payload[rs..]));
    var o: nat := rs;
    var i := 0;
    StartsCut(payload, start, rs, colors, segs);
    while i < |slots|
      invariant 0 <= i <= |slots| && o <= |payload|
      invariant Progress(payload, slots, i, segs, parts, o, whole)
    {
      var end := SkipBody(payload, o, slots[i].body);
      if end.None? {
        SlotFails(payload, slots, i, segs, parts, o, whole);
        return None;
      }
      SlotDone(payload, slots, i, segs, parts, o, whole, end.value);
      segs := segs + [Segment(slots[i].name, o, end.value)];
      parts := parts + [payload[o..end.value]];
      o := end.value;
      i := i + 1;
    }
    AllSlotsDone(payload, colors, segs, parts, o, whole);
    return Some(segs + [Segment(Tail, o, |payload|)]);
  }

  lemma StartsCut(payload: Data, start: nat, rs: nat, colors: bool, segs: seq<Segment>)
    requires start + 30 <= rs <= |payload|
    requires Recorded(payload, segs, FIRST, Front(payload, start, rs), rs)
    ensures var parts := Front(payload, start, rs);
      Progress(payload, Layout(colors), 0, segs, parts, rs, Resume(parts, Cut(Layout(colors), payload[rs..])))
  {
    hide Recorded, Cut;
    assert FIRST + LabelsOf(Layout(colors))[..0] == FIRST && Layout(colors)[0..] == Layout(colors);
  }

  method FrontSegments(payload: Data, r: nat, rs: nat) returns (segs: seq<Segment>)
    requires r + 30 <= rs <= |payload|
    ensures Recorded(payload, segs, FIRST, Front(payload, r, rs), rs)
  {
    segs := [Segment(PropBlock, 0, r), Segment(SkelStrip, r, r + 2), Segment(Bounds, r + 2, r + 30),
             Segment(Materials, r + 30, rs)];
  }
}
