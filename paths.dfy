/** The output-path search of hdafindoutputpaths (hda.c:438-516): for every
    output-capable pin complex, a depth-first search with an explicit stack
    (pathstackpush, hda.c:420-436) along the widgets' connection lists to
    the first audio output converter it meets. */
module HdaPaths {
  import opened HdaTypes
  import opened HdaConnections

  const WIDGET_TYPE_AUDIO_OUT: u8 := 0
  const WIDGET_TYPE_AUDIO_MIXER: u8 := 2
  const WIDGET_TYPE_PIN_COMPLEX: u8 := 4

  /** The number of entries of the codec's widget table, indexed by node id. */
  const WIDGET_TABLE_SIZE: nat := 0x100

  /** The depth beyond which the search does not descend. */
  const MAX_DEPTH: nat := 20

  /** hdawidget_t, as hdaenumeratecodec fills it. */
  datatype Widget = Widget(
    connections: seq<Connection>,
    pinCaps: bv32,
    inAmpCaps: bv32,
    outAmpCaps: bv32,
    config: bv32,
    widgetType: u8,
    nid: u8)

  /** The two tests a pin passes before a search starts from it
      (hda.c:443-449): bit 4 of its pin capabilities (output capable) is
      set, and bits 30-31 of the pin capabilities are not 1. */
  predicate SearchablePin(w: Widget) {
    w.pinCaps & (1 << 4) != 0 && w.pinCaps >> 30 != 1
  }

  /** The "no connection" test reads the pin capabilities instead of the
      configuration default, whose port-connectivity field (bits 30-31) it
      is meant for: the configuration default never matters. */
  lemma {:induction false} SearchablePinIgnoresConfig(w: Widget, config: bv32)
    ensures SearchablePin(w.(config := config)) <==> SearchablePin(w)
  {
  }

  /** Witnesses of the misplaced test: an output-capable pin whose
      configuration default says "no physical connection" (01 in bits
      30-31) is still searched, and one whose pin capabilities hold 01 in
      bits 30-31 is skipped although its configuration default says
      "jack". */
  lemma {:induction false} SearchablePinWitnesses()
    ensures var unconnected := Widget([], 0x10, 0, 0, 0x4000_0000, WIDGET_TYPE_PIN_COMPLEX, 1);
      unconnected.config >> 30 == 1 && SearchablePin(unconnected)
    ensures var jack := Widget([], 0x4000_0010, 0, 0, 0, WIDGET_TYPE_PIN_COMPLEX, 2);
      jack.config >> 30 == 0 && !SearchablePin(jack)
  {
  }

  /** A widget table as hdaenumeratecodec leaves it: one entry per 8-bit
      node id, and connection lists short enough for the 8-bit connindex. */
  predicate WidgetTable(widgets: seq<Widget>) {
    |widgets| == WIDGET_TABLE_SIZE && forall n | 0 <= n < |widgets| :: |widgets[n].connections| < 0x100
  }

  /** Node b is in the connection list of node a. */
  predicate Connected(widgets: seq<Widget>, a: u8, b: u8)
    requires |widgets| == WIDGET_TABLE_SIZE
  {
    exists c | 0 <= c < |widgets[a].connections| :: widgets[a].connections[c].nid == b
  }

  /** A recorded output path: a searchable pin, then widgets each in the
      connection list of the one before, ending in an audio output, with no
      widget twice and at most MAX_DEPTH + 1 widgets. */
  predicate OutputPath(widgets: seq<Widget>, path: seq<u8>)
    requires |widgets| == WIDGET_TABLE_SIZE
  {
    2 <= |path| <= MAX_DEPTH + 1 &&
    SearchablePin(widgets[path[0]]) &&
    widgets[path[|path| - 1]].widgetType == WIDGET_TYPE_AUDIO_OUT &&
    (forall i | 0 <= i < |path| - 1 :: Connected(widgets, path[i], path[i + 1])) &&
    (forall i, j | 0 <= i < j < |path| :: path[i] != path[j])
  }

  /** pathstackentry_t: a widget (by node id) and the index of the next
      connection to follow. */
  datatype StackEntry = StackEntry(widget: u8, connIndex: u8)

  /** pathstack_t: a growable array of entries of which the first `size`
      are in use. */
  class PathStack {
    var data: array<StackEntry>
    var size: int
    var cap: int

    ghost predicate Valid()
      reads this
    {
      cap == data.Length && 0 <= size <= cap && (cap == 0 || cap >= 8)
    }

    /** The entries in use, bottom first. */
    ghost function Contents(): seq<StackEntry>
      reads this, data
      requires Valid()
    {
      data[..size]
    }

    /** `pathstack_t stack = {}`: empty, with no storage. */
    constructor ()
      ensures Valid() && size == 0 && cap == 0 && fresh(data)
    {
      data := new StackEntry[0];
      size := 0;
      cap := 0;
    }

    /** The capacity pathstackpush grows a full stack to. */
    static function GrownCap(cap: int): (newCap: int)
      requires cap == 0 || cap >= 8
      ensures newCap > cap && newCap >= 8
    {
      if cap == 0 then 8 else cap + cap / 2
    }

    /** pathstackpush (hda.c:420-436): a full stack grows to GrownCap, the
        entries in use are kept, and the new entry goes on top. */
    method Push(entry: StackEntry)
      modifies this, data
      requires Valid()
      ensures Valid()
      ensures old(size) == old(cap) ==> cap == GrownCap(old(cap)) && fresh(data)
      ensures old(size) < old(cap) ==> cap == old(cap) && data == old(data)
      ensures size == old(size) + 1
      ensures data[..size] == old(data[..size]) + [entry]
    {
      if size == cap {
        var newCap := GrownCap(cap);
        // realloc: fresh storage holding the old entries
        var oldData, n := data, size;
        var newData := new StackEntry[newCap](_ => entry);
        var i := 0;
        while i < n
          invariant 0 <= i <= n && newData.Length == newCap > n
          invariant newData[..i] == oldData[..i]
          modifies newData
        {
          newData[i] := oldData[i];
          i := i + 1;
        }
        data := newData;
        cap := newCap;
      }
      data[size] := entry;
      size := size + 1;
    }
  }

  // The search's invariants and its termination measure.

  /** The shape of the search stack while the search runs from `pin`: the
      pin at the bottom; each entry's connIndex within its connection list;
      each higher entry the connection its predecessor last took; no widget
      twice; no audio output on it. */
  ghost predicate StackShape(widgets: seq<Widget>, pin: u8, s: seq<StackEntry>)
    requires |widgets| == WIDGET_TABLE_SIZE
  {
    (|s| > 0 ==> s[0].widget == pin) &&
    (forall d | 0 <= d < |s| :: s[d].connIndex as int <= |widgets[s[d].widget].connections|) &&
    (forall d | 0 <= d < |s| - 1 ::
      1 <= s[d].connIndex && widgets[s[d].widget].connections[s[d].connIndex - 1].nid == s[d + 1].widget) &&
    (forall a, b | 0 <= a < b < |s| :: s[a].widget != s[b].widget) &&
    (forall d | 0 <= d < |s| :: widgets[s[d].widget].widgetType != WIDGET_TYPE_AUDIO_OUT)
  }

  /** The connections an entry has still to follow. */
  ghost function Remaining(widgets: seq<Widget>, e: StackEntry): nat
    requires |widgets| == WIDGET_TABLE_SIZE
  {
    var n := |widgets[e.widget].connections|;
    if e.connIndex as int <= n then n - e.connIndex as int else 0
  }

  /** r copies of w added up; kept apart from `*` so that the measure needs
      no nonlinear arithmetic. */
  ghost function Times(r: nat, w: nat): nat
  {
    if r == 0 then 0 else w + Times(r - 1, w)
  }

  lemma {:induction false} TimesStep(r: nat, w: nat)
    requires r >= 1
    ensures Times(r, w) == w + Times(r - 1, w)
  {
  }

  lemma {:induction false} TimesProduct(r: nat, w: nat)
    ensures Times(r, w) == r * w
    decreases r
  {
    if r > 0 {
      TimesProduct(r - 1, w);
      assert r * w == (r - 1) * w + w;
    }
  }

  /** The weight of stack level d: every level outweighs all levels above. */
  ghost function Weight(d: nat): (w: nat)
    requires d <= MAX_DEPTH
    ensures w > 0
    decreases MAX_DEPTH - d
  {
    if d == MAX_DEPTH then 1 else 0x100 * Weight(d + 1)
  }

  lemma {:induction false} TimesMonotone(r: nat, k: nat, w: nat)
    requires r <= k
    ensures Times(r, w) <= Times(k, w)
    decreases k
  {
    if r < k {
      TimesMonotone(r, k - 1, w);
    }
  }

  /** Fewer than 0x100 connections on one level weigh less than one
      connection on the level below. */
  lemma {:induction false} WeightStep(r: nat, d: nat)
    requires 0 < d <= MAX_DEPTH && r < 0x100
    ensures Times(r, Weight(d)) < Weight(d - 1)
  {
    var w := Weight(d);
    TimesMonotone(r, 0xff, w);
    TimesProduct(0xff, w);
  }

  /** The search's measure: the connections left on each level, weighted by
      level. Taking a connection lowers it, even when an entry is pushed;
      popping an exhausted entry leaves it unchanged. */
  ghost function Potential(widgets: seq<Widget>, s: seq<StackEntry>): nat
    requires |widgets| == WIDGET_TABLE_SIZE && |s| <= MAX_DEPTH
    decreases |s|
  {
    if |s| == 0 then 0
    else Potential(widgets, s[..|s| - 1]) + Times(Remaining(widgets, s[|s| - 1]), Weight(|s| - 1))
  }

  /** The measure of a stack with one more entry on top. */
  lemma {:induction false} PotentialSnoc(widgets: seq<Widget>, p: seq<StackEntry>, e: StackEntry)
    requires |widgets| == WIDGET_TABLE_SIZE && |p| < MAX_DEPTH
    ensures Potential(widgets, p + [e]) == Potential(widgets, p) + Times(Remaining(widgets, e), Weight(|p|))
  {
    var s := p + [e];
    assert s[..|s| - 1] == p;
  }

  /** Taking one connection from the top entry lowers the measure by that
      level's weight. */
  lemma {:induction false} PotentialTake(widgets: seq<Widget>, init: seq<StackEntry>, last: StackEntry, top: StackEntry)
    requires |widgets| == WIDGET_TABLE_SIZE && |init| < MAX_DEPTH
    requires Remaining(widgets, last) >= 1
    requires top.widget == last.widget && top.connIndex as int == last.connIndex as int + 1
    ensures Potential(widgets, init + [top]) == Potential(widgets, init + [last]) - Weight(|init|)
  {
    PotentialSnoc(widgets, init, last);
    PotentialSnoc(widgets, init, top);
    assert Remaining(widgets, top) == Remaining(widgets, last) - 1;
    TimesStep(Remaining(widgets, last), Weight(|init|));
  }

  /** Pushing an entry with fewer than 0x100 connections after taking one
      still leaves the measure below where it was before the take. */
  lemma {:induction false} PotentialPush(widgets: seq<Widget>, init: seq<StackEntry>, last: StackEntry, top: StackEntry, pushed: StackEntry)
    requires WidgetTable(widgets) && |init| + 1 < MAX_DEPTH
    requires Remaining(widgets, last) >= 1
    requires top.widget == last.widget && top.connIndex as int == last.connIndex as int + 1
    requires pushed.connIndex == 0
    ensures Potential(widgets, init + [top] + [pushed]) < Potential(widgets, init + [last])
  {
    PotentialSnoc(widgets, init + [top], pushed);
    PotentialTake(widgets, init, last, top);
    assert |widgets[pushed.widget].connections| < 0x100;
    WeightStep(Remaining(widgets, pushed), |init| + 1);
  }

  /** Popping an exhausted entry leaves the measure unchanged. */
  lemma {:induction false} PotentialPop(widgets: seq<Widget>, init: seq<StackEntry>, last: StackEntry)
    requires |widgets| == WIDGET_TABLE_SIZE && |init| < MAX_DEPTH
    requires Remaining(widgets, last) == 0
    ensures Potential(widgets, init) == Potential(widgets, init + [last])
  {
    PotentialSnoc(widgets, init, last);
  }

  lemma {:induction false} ShapePop(widgets: seq<Widget>, pin: u8, init: seq<StackEntry>, last: StackEntry)
    requires |widgets| == WIDGET_TABLE_SIZE && StackShape(widgets, pin, init + [last])
    ensures StackShape(widgets, pin, init)
  {
    assert forall d | 0 <= d < |init| :: init[d] == (init + [last])[d];
  }

  lemma {:induction false} ShapeAdvance(widgets: seq<Widget>, pin: u8, s: seq<StackEntry>, top: StackEntry)
    requires |widgets| == WIDGET_TABLE_SIZE && 0 < |s| && StackShape(widgets, pin, s)
    requires top.widget == s[|s| - 1].widget && top.connIndex as int == s[|s| - 1].connIndex as int + 1
    requires top.connIndex as int <= |widgets[top.widget].connections|
    ensures StackShape(widgets, pin, s[..|s| - 1] + [top])
  {
  }

  lemma {:induction false} ShapePush(widgets: seq<Widget>, pin: u8, s: seq<StackEntry>, next: u8)
    requires |widgets| == WIDGET_TABLE_SIZE && 0 < |s| && StackShape(widgets, pin, s)
    requires 1 <= s[|s| - 1].connIndex
    requires widgets[s[|s| - 1].widget].connections[s[|s| - 1].connIndex - 1].nid == next
    requires forall d | 0 <= d < |s| :: s[d].widget != next
    requires widgets[next].widgetType != WIDGET_TYPE_AUDIO_OUT
    ensures StackShape(widgets, pin, s + [StackEntry(next, 0)])
  {
  }

  // The search.

  /** The copy of the stack's widgets, followed by the audio output reached,
      that hdafindoutputpaths allocates as a path (hda.c:468-478). */
  method CopyPath(stack: PathStack, next: u8, ghost s: seq<StackEntry>) returns (path: seq<u8>)
    requires stack.Valid() && stack.data[..stack.size] == s
    ensures |path| == |s| + 1 && path[|s|] == next
    ensures forall d | 0 <= d < |s| :: path[d] == s[d].widget
  {
    var pathWidgets := new u8[stack.size + 1];
    var i := 0;
    while i < stack.size
      invariant 0 <= i <= stack.size
      invariant forall d | 0 <= d < i :: pathWidgets[d] == s[d].widget
    {
      pathWidgets[i] := stack.data[i].widget;
      i := i + 1;
    }
    pathWidgets[stack.size] := next;
    path := pathWidgets[..];
  }

  /** The circularity check (hda.c:492-498): whether a widget is already on
      the stack. */
  method OnStack(stack: PathStack, nid: u8, ghost s: seq<StackEntry>) returns (circular: bool)
    requires stack.Valid() && stack.data[..stack.size] == s
    ensures circular <==> exists d | 0 <= d < |s| :: s[d].widget == nid
  {
    circular := false;
    var i := 0;
    while i < stack.size
      invariant 0 <= i <= stack.size
      invariant forall d | 0 <= d < i :: s[d].widget != nid
    {
      if stack.data[i].widget == nid {
        assert s[i].widget == nid;
        return true;
      }
      i := i + 1;
    }
  }

  /** Takes the top entry's next connection (hda.c:457-463): its connIndex
      moves on by one, and the widget that connection leads to is returned. */
  method TakeConnection(stack: PathStack, widgets: seq<Widget>) returns (next: u8, taken: StackEntry)
    requires WidgetTable(widgets) && stack.Valid() && 0 < stack.size
    requires stack.data[stack.size - 1].connIndex as int < |widgets[stack.data[stack.size - 1].widget].connections|
    modifies stack.data
    ensures stack.Valid()
    ensures var top := old(stack.data[stack.size - 1]);
      taken.widget == top.widget && taken.connIndex as int == top.connIndex as int + 1 &&
      next == widgets[top.widget].connections[top.connIndex].nid
    ensures stack.data[..stack.size] == old(stack.data[..stack.size - 1]) + [taken]
  {
    var top := stack.data[stack.size - 1];
    next := widgets[top.widget].connections[top.connIndex].nid;
    taken := StackEntry(top.widget, top.connIndex + 1);
    stack.data[stack.size - 1] := taken;
    assert stack.data[..stack.size] == old(stack.data[..stack.size - 1]) + [taken];
  }

  /** Pushes the widget reached (hda.c:503-506) onto a stack of the search's
      shape, which it keeps. */
  method Descend(stack: PathStack, widgets: seq<Widget>, pin: u8, next: u8, ghost s: seq<StackEntry>)
    requires WidgetTable(widgets) && stack.Valid() && 0 < stack.size < MAX_DEPTH
    requires stack.data[..stack.size] == s && StackShape(widgets, pin, s)
    requires 1 <= s[|s| - 1].connIndex
    requires widgets[s[|s| - 1].widget].connections[s[|s| - 1].connIndex - 1].nid == next
    requires forall d | 0 <= d < |s| :: s[d].widget != next
    requires widgets[next].widgetType != WIDGET_TYPE_AUDIO_OUT
    modifies stack, stack.data
    ensures stack.Valid()
    ensures stack.data == old(stack.data) || fresh(stack.data)
    ensures stack.data[..stack.size] == s + [StackEntry(next, 0)]
    ensures StackShape(widgets, pin, s + [StackEntry(next, 0)])
  {
    ShapePush(widgets, pin, s, next);
    stack.Push(StackEntry(next, 0));
  }

  /** What follows taking a connection to `next` (hda.c:464-507): record the
      path if `next` is an audio output, or else push `next` unless it is
      already on the stack or the stack is MAX_DEPTH deep. */
  method Arrive(stack: PathStack, widgets: seq<Widget>, pin: u8, next: u8, ghost s: seq<StackEntry>)
    returns (path: Option<seq<u8>>, ghost after: seq<StackEntry>)
    requires WidgetTable(widgets) && SearchablePin(widgets[pin])
    requires stack.Valid() && 0 < stack.size <= MAX_DEPTH
    requires stack.data[..stack.size] == s && StackShape(widgets, pin, s)
    requires 1 <= s[|s| - 1].connIndex
    requires widgets[s[|s| - 1].widget].connections[s[|s| - 1].connIndex - 1].nid == next
    modifies stack, stack.data
    ensures stack.Valid() && stack.size <= MAX_DEPTH
    ensures stack.data == old(stack.data) || fresh(stack.data)
    ensures stack.data[..stack.size] == after && StackShape(widgets, pin, after)
    ensures path.Some? ==> stack.size == 0 && OutputPath(widgets, path.value) && path.value[0] == pin
    ensures path.None? ==> after == s || (|s| < MAX_DEPTH && after == s + [StackEntry(next, 0)])
  {
    if widgets[next].widgetType == WIDGET_TYPE_AUDIO_OUT {
      var found := CopyPath(stack, next, s);
      RecordedPath(widgets, pin, s, next, found);
      // only one path per pin complex
      stack.size := 0;
      return Some(found), [];
    }
    var circular := OnStack(stack, next, s);
    if circular || stack.size >= MAX_DEPTH {
      return None, s;
    }
    Descend(stack, widgets, pin, next, s);
    return None, s + [StackEntry(next, 0)];
  }

  /** The part of a search turn after the top entry was found to have a
      connection left (hda.c:457-507): take it and arrive at the widget it
      leads to. The measure falls. */
  method Advance(stack: PathStack, widgets: seq<Widget>, pin: u8, ghost before: seq<StackEntry>)
    returns (path: Option<seq<u8>>, ghost after: seq<StackEntry>)
    requires WidgetTable(widgets) && SearchablePin(widgets[pin])
    requires stack.Valid() && 0 < stack.size <= MAX_DEPTH
    requires stack.data[..stack.size] == before && StackShape(widgets, pin, before)
    requires before[|before| - 1].connIndex as int < |widgets[before[|before| - 1].widget].connections|
    modifies stack, stack.data
    ensures stack.Valid() && stack.size <= MAX_DEPTH
    ensures stack.data == old(stack.data) || fresh(stack.data)
    ensures stack.data[..stack.size] == after && StackShape(widgets, pin, after)
    ensures path.Some? ==> stack.size == 0 && OutputPath(widgets, path.value) && path.value[0] == pin
    ensures path.None? ==> Potential(widgets, after) < Potential(widgets, before)
  {
    ghost var init := before[..|before| - 1];
    ghost var top := before[|before| - 1];
    assert before == init + [top];
    var nextNid, taken := TakeConnection(stack, widgets);
    PotentialTake(widgets, init, top, taken);
    ShapeAdvance(widgets, pin, before, taken);
    ghost var s := init + [taken];
    path, after := Arrive(stack, widgets, pin, nextNid, s);
    if path.None? && after != s {
      PotentialPush(widgets, init, top, taken, StackEntry(nextNid, 0));
      assert after == init + [taken] + [StackEntry(nextNid, 0)];
    }
  }

  /** One turn of the search loop (hda.c:456-508): pop the top entry if its
      connections are exhausted, otherwise advance. The search measure
      falls, or stays while the stack shrinks. */
  method SearchStep(stack: PathStack, widgets: seq<Widget>, pin: u8, ghost before: seq<StackEntry>)
    returns (path: Option<seq<u8>>, ghost after: seq<StackEntry>)
    requires WidgetTable(widgets) && SearchablePin(widgets[pin])
    requires stack.Valid() && 0 < stack.size <= MAX_DEPTH
    requires stack.data[..stack.size] == before && StackShape(widgets, pin, before)
    modifies stack, stack.data
    ensures stack.Valid() && stack.size <= MAX_DEPTH
    ensures stack.data == old(stack.data) || fresh(stack.data)
    ensures stack.data[..stack.size] == after && StackShape(widgets, pin, after)
    ensures path.Some? ==> stack.size == 0 && OutputPath(widgets, path.value) && path.value[0] == pin
    ensures path.None? ==>
      var p, q := Potential(widgets, before), Potential(widgets, after);
      q < p || (q == p && |after| < |before|)
  {
    var top := stack.data[stack.size - 1];
    if top.connIndex as int == |widgets[top.widget].connections| {
      ghost var init := before[..|before| - 1];
      assert before == init + [top];
      stack.size := stack.size - 1;
      ShapePop(widgets, pin, init, top);
      PotentialPop(widgets, init, top);
      return None, init;
    }
    path, after := Advance(stack, widgets, pin, before);
  }

  /** The depth-first search from one pin complex (hda.c:451-508): the path
      it records, if any, is an output path starting at that pin. The stack
      is left empty. */
  method SearchFromPin(stack: PathStack, widgets: seq<Widget>, pin: u8) returns (path: Option<seq<u8>>)
    requires WidgetTable(widgets) && SearchablePin(widgets[pin])
    requires widgets[pin].widgetType == WIDGET_TYPE_PIN_COMPLEX
    requires stack.Valid() && stack.size == 0
    modifies stack, stack.data
    ensures stack.Valid() && stack.size == 0
    ensures stack.data == old(stack.data) || fresh(stack.data)
    ensures path.Some? ==> OutputPath(widgets, path.value) && path.value[0] == pin
  {
    stack.Push(StackEntry(pin, 0));
    ghost var contents := [StackEntry(pin, 0)];
    assert stack.data[..stack.size] == contents;
    while stack.size != 0
      invariant stack.Valid() && 0 <= stack.size <= MAX_DEPTH
      invariant stack.data == old(stack.data) || fresh(stack.data)
      invariant stack.data[..stack.size] == contents && StackShape(widgets, pin, contents)
      decreases Potential(widgets, contents), |contents|
    {
      path, contents := SearchStep(stack, widgets, pin, contents);
      if path.Some? {
        return;
      }
    }
    path := None;
  }

  /** hdafindoutputpaths (hda.c:438-516) over the codec's widget table and
      the node ids of its pin complexes. The returned paths (codec->outpaths)
      are output paths in the sense of OutputPath; `pinOf` names the pin each
      starts from: at most one path per pin, in pin order. */
  method FindOutputPaths(widgets: seq<Widget>, pinNids: seq<u8>) returns (outPaths: seq<seq<u8>>, ghost pinOf: seq<nat>)
    requires WidgetTable(widgets)
    requires forall i | 0 <= i < |pinNids| :: widgets[pinNids[i]].widgetType == WIDGET_TYPE_PIN_COMPLEX
    ensures |outPaths| <= |pinNids|
    ensures forall i | 0 <= i < |outPaths| :: OutputPath(widgets, outPaths[i]) && outPaths[i][0] in pinNids
    ensures |pinOf| == |outPaths|
    ensures forall i | 0 <= i < |outPaths| ::
      OutputPath(widgets, outPaths[i]) && pinOf[i] < |pinNids| && outPaths[i][0] == pinNids[pinOf[i]]
    ensures forall i, j | 0 <= i < j < |outPaths| :: pinOf[i] < pinOf[j]
  {
    var stack := new PathStack();
    outPaths := [];
    pinOf := [];
    var pinIndex := 0;
    while pinIndex < |pinNids|
      invariant 0 <= pinIndex <= |pinNids|
      invariant stack.Valid() && stack.size == 0
      invariant fresh(stack) && fresh(stack.data)
      invariant |pinOf| == |outPaths| <= pinIndex
      invariant forall i | 0 <= i < |outPaths| ::
        OutputPath(widgets, outPaths[i]) && pinOf[i] < pinIndex && outPaths[i][0] == pinNids[pinOf[i]]
      invariant forall i, j | 0 <= i < j < |outPaths| :: pinOf[i] < pinOf[j]
    {
      var pinNid := pinNids[pinIndex];
      var pin := widgets[pinNid];
      if pin.pinCaps & (1 << 4) != 0 && pin.pinCaps >> 30 != 1 {
        var path := SearchFromPin(stack, widgets, pinNid);
        if path.Some? {
          outPaths := outPaths + [path.value];
          pinOf := pinOf + [pinIndex];
        }
      }
      pinIndex := pinIndex + 1;
    }
  }

  /** The path recorded when the connection the top of a stack of the
      search's shape last took leads to an audio output is an output path. */
  lemma {:induction false} RecordedPath(widgets: seq<Widget>, pin: u8, s: seq<StackEntry>, next: u8, path: seq<u8>)
    requires WidgetTable(widgets) && 0 < |s| <= MAX_DEPTH && StackShape(widgets, pin, s)
    requires SearchablePin(widgets[pin])
    requires 1 <= s[|s| - 1].connIndex
    requires widgets[s[|s| - 1].widget].connections[s[|s| - 1].connIndex - 1].nid == next
    requires widgets[next].widgetType == WIDGET_TYPE_AUDIO_OUT
    requires |path| == |s| + 1 && path[|s|] == next && forall d | 0 <= d < |s| :: path[d] == s[d].widget
    ensures OutputPath(widgets, path)
  {
    forall i | 0 <= i < |path| - 1 ensures Connected(widgets, path[i], path[i + 1]) {
      var c := s[i].connIndex as int - 1;
      assert widgets[path[i]].connections[c].nid == path[i + 1];
    }
  }
}
