/** The commands with which the driver makes an output path the codec's
    active one (hdasetactivepath, hda.c:849-932) and programs its converter
    for a set of stream parameters (hdasetactiveparams, hda.c:1152-1169).
    Each command is one hdasendverbandwait call; the commands are given in
    the order the driver sends them. */
module HdaActivation {
  import opened HdaTypes
  import opened HdaVerbs
  import opened HdaConnections
  import opened HdaPaths
  import opened HdaFormat

  /** The gain set on an amplifier: bits 8-14 of its capabilities, which
      hold the number of gain steps (section 7.3.4.10 of the HDA
      specification), that is, the largest gain. */
  function MaxGain(ampCaps: bv32): (g: u8)
    ensures g < 0x80
  {
    ((ampCaps >> 8) & 0x7f) as u8
  }

  /** AMP_SET_OUT | AMP_SET_LEFT | AMP_SET_RIGHT | AMP_SET_GAIN(gain): the
      output amplifier of both channels at the given gain, unmuted. The
      fields are disjoint bits, so the | of the source is a sum. */
  function OutAmp(ampCaps: bv32): (data: u16)
    ensures data / 0x1000 == 0xb && data % 0x1000 == MaxGain(ampCaps)
  {
    AMP_SET_OUT + AMP_SET_LEFT + AMP_SET_RIGHT + MaxGain(ampCaps)
  }

  /** AMP_SET_IN | AMP_SET_LEFT | AMP_SET_RIGHT | AMP_SET_GAIN(gain). */
  function InAmp(ampCaps: bv32): (data: u16)
    ensures data / 0x1000 == 0x7 && data % 0x1000 == MaxGain(ampCaps)
  {
    AMP_SET_IN + AMP_SET_LEFT + AMP_SET_RIGHT + MaxGain(ampCaps)
  }

  /** PIN_CONTROL_SET_HPHN | PIN_CONTROL_SET_OUT_ENABLE. */
  const PIN_OUT_HPHN: u8 := 0xc0

  /** The stream the output converter is bound to, and the stream number
      the stream descriptor carries in SDnCTL (hda.c:1480, 1780). */
  const OUTPUT_STREAM_TAG: u8 := 1

  /** The selector index the inner loop of hdasetactivepath finds for the
      next widget (hda.c:864-869): that of the first connection naming it,
      searching from position j, or 0 when none does. */
  function FirstSelector(conns: seq<Connection>, nid: u8, j: nat): u8
    requires j <= |conns|
    decreases |conns| - j
  {
    if j == |conns| then 0
    else if conns[j].nid == nid then conns[j].selectorIndex
    else FirstSelector(conns, nid, j + 1)
  }

  /** FirstSelector yields the selector of the first connection naming the
      node, searching from j ... */
  lemma {:induction false} FirstSelectorFound(conns: seq<Connection>, nid: u8, j: nat, k: nat)
    requires j <= k < |conns| && conns[k].nid == nid
    requires forall k' | j <= k' < k :: conns[k'].nid != nid
    ensures FirstSelector(conns, nid, j) == conns[k].selectorIndex
    decreases k - j
  {
    if j < k {
      FirstSelectorFound(conns, nid, j + 1, k);
    }
  }

  /** ... and 0 when no connection from j on names it. */
  lemma {:induction false} FirstSelectorNone(conns: seq<Connection>, nid: u8, j: nat)
    requires j <= |conns|
    requires forall k | j <= k < |conns| :: conns[k].nid != nid
    ensures FirstSelector(conns, nid, j) == 0
    decreases |conns| - j
  {
    if j < |conns| {
      FirstSelectorNone(conns, nid, j + 1);
    }
  }

  /** The inner loop of hdasetactivepath (hda.c:864-869). */
  method SelectorIndex(conns: seq<Connection>, nid: u8) returns (index: u8)
    ensures index == FirstSelector(conns, nid, 0)
  {
    index := 0;
    var j := 0;
    while j < |conns|
      invariant 0 <= j <= |conns|
      invariant FirstSelector(conns, nid, j) == FirstSelector(conns, nid, 0)
    {
      if nid == conns[j].nid {
        index := conns[j].selectorIndex;
        return;
      }
      j := j + 1;
    }
  }

  /** What the widget-type branch of hdasetactivepath sends (hda.c:878-925). */
  function TypeCommands(w: Widget): seq<Command> {
    if w.widgetType == WIDGET_TYPE_PIN_COMPLEX then
      (if w.pinCaps & (1 << 16) != 0 then [SetEapdEnable(w.nid, EAPD_ENABLE_EAPD)] else []) +
      [SetAmpGainMute(w.nid, OutAmp(w.outAmpCaps)), SetPinControl(w.nid, PIN_OUT_HPHN)]
    else if w.widgetType == WIDGET_TYPE_AUDIO_MIXER then
      [SetAmpGainMute(w.nid, OutAmp(w.outAmpCaps)), SetAmpGainMute(w.nid, InAmp(w.inAmpCaps))]
    else if w.widgetType == WIDGET_TYPE_AUDIO_OUT then
      [SetAmpGainMute(w.nid, OutAmp(w.outAmpCaps)), SetConverterControl(w.nid, OUTPUT_STREAM_TAG, 0)]
    else
      [SetAmpGainMute(w.nid, OutAmp(w.outAmpCaps))]
  }

  /** What hdasetactivepath sends for widget i of the path (hda.c:853-925):
      power it up, select the next widget when it has a choice, then set up
      its amplifiers, pin and converter. */
  function WidgetCommands(widgets: seq<Widget>, path: seq<u8>, i: nat): seq<Command>
    requires |widgets| == WIDGET_TABLE_SIZE && i < |path|
  {
    var w := widgets[path[i]];
    [SetPowerState(w.nid, 0)] +
    (if i != |path| - 1 && |w.connections| > 1
     then [SetConnection(w.nid, FirstSelector(w.connections, widgets[path[i + 1]].nid, 0))]
     else []) +
    TypeCommands(w)
  }

  /** The blocks of commands for the widgets of the path, in path order. */
  function Blocks(widgets: seq<Widget>, path: seq<u8>): (bs: seq<seq<Command>>)
    requires |widgets| == WIDGET_TABLE_SIZE
    ensures |bs| == |path|
  {
    seq(|path|, i requires 0 <= i < |path| => WidgetCommands(widgets, path, i))
  }

  /** The blocks one after the other. */
  function Concat<T>(bs: seq<seq<T>>): seq<T> {
    if bs == [] then [] else Concat(bs[..|bs| - 1]) + bs[|bs| - 1]
  }

  /** Element u of block i sits right after the blocks before i. */
  lemma {:induction false} ConcatAt<T>(bs: seq<seq<T>>, i: nat, u: nat)
    requires i < |bs| && u < |bs[i]|
    ensures |Concat(bs[..i])| + u < |Concat(bs)|
    ensures Concat(bs)[|Concat(bs[..i])| + u] == bs[i][u]
    decreases |bs|
  {
    var init := bs[..|bs| - 1];
    if i == |bs| - 1 {
      assert bs[..i] == init;
    } else {
      assert init[..i] == bs[..i];
      ConcatAt(init, i, u);
    }
  }

  /** Every element of the concatenation comes from some block. */
  lemma {:induction false} ConcatOwner<T>(bs: seq<seq<T>>, t: nat) returns (i: nat, u: nat)
    requires t < |Concat(bs)|
    ensures i < |bs| && u < |bs[i]| && t == |Concat(bs[..i])| + u
    ensures Concat(bs)[t] == bs[i][u]
    decreases |bs|
  {
    var init := bs[..|bs| - 1];
    if t < |Concat(init)| {
      i, u := ConcatOwner(init, t);
      assert init[..i] == bs[..i];
    } else {
      i, u := |bs| - 1, t - |Concat(init)|;
      assert bs[..i] == init;
    }
  }

  /** What hdasetactivepath sends for the whole path. */
  function PathCommands(widgets: seq<Widget>, path: seq<u8>): seq<Command>
    requires |widgets| == WIDGET_TABLE_SIZE
  {
    Concat(Blocks(widgets, path))
  }

  /** The widget-type branch of hdasetactivepath (hda.c:878-925). */
  method SetUpWidget(widget: Widget) returns (cmds: seq<Command>)
    ensures cmds == TypeCommands(widget)
  {
    if widget.widgetType == WIDGET_TYPE_PIN_COMPLEX {
      cmds := [];
      if widget.pinCaps & (1 << 16) != 0 {
        cmds := [SetEapdEnable(widget.nid, EAPD_ENABLE_EAPD)];
      }
      cmds := cmds + [SetAmpGainMute(widget.nid, OutAmp(widget.outAmpCaps))];
      cmds := cmds + [SetPinControl(widget.nid, PIN_OUT_HPHN)];
    } else if widget.widgetType == WIDGET_TYPE_AUDIO_MIXER {
      cmds := [SetAmpGainMute(widget.nid, OutAmp(widget.outAmpCaps))];
      cmds := cmds + [SetAmpGainMute(widget.nid, InAmp(widget.inAmpCaps))];
    } else if widget.widgetType == WIDGET_TYPE_AUDIO_OUT {
      cmds := [SetAmpGainMute(widget.nid, OutAmp(widget.outAmpCaps))];
      cmds := cmds + [SetConverterControl(widget.nid, OUTPUT_STREAM_TAG, 0)];
    } else {
      cmds := [SetAmpGainMute(widget.nid, OutAmp(widget.outAmpCaps))];
    }
  }

  /** One iteration of the outer loop of hdasetactivepath (hda.c:854-925). */
  method ActivateWidget(widgets: seq<Widget>, path: seq<u8>, i: nat) returns (cmds: seq<Command>)
    requires |widgets| == WIDGET_TABLE_SIZE && i < |path|
    ensures cmds == WidgetCommands(widgets, path, i)
  {
    var widget := widgets[path[i]];
    cmds := [SetPowerState(widget.nid, 0)];
    if i != |path| - 1 {
      var next := widgets[path[i + 1]];
      if |widget.connections| > 1 {
        var index := SelectorIndex(widget.connections, next.nid);
        cmds := cmds + [SetConnection(widget.nid, index)];
      }
    }
    var setup := SetUpWidget(widget);
    cmds := cmds + setup;
  }

  /** The outer loop of hdasetactivepath (hda.c:853-926): the commands for
      every widget of the path, in path order. */
  method ActivePathCommands(widgets: seq<Widget>, path: seq<u8>) returns (cmds: seq<Command>)
    requires |widgets| == WIDGET_TABLE_SIZE
    ensures cmds == PathCommands(widgets, path)
  {
    ghost var bs := Blocks(widgets, path);
    cmds := [];
    var i := 0;
    while i < |path|
      invariant 0 <= i <= |path|
      invariant cmds == Concat(bs[..i])
    {
      var block := ActivateWidget(widgets, path, i);
      assert bs[..i + 1][..i] == bs[..i];
      cmds := cmds + block;
      i := i + 1;
    }
    assert bs[..i] == bs;
  }

  /** Every widget's commands begin with powering it up, are all addressed
      to it, and can all be sent: none trips the converter-control assert. */
  lemma {:induction false} WidgetCommandsShape(widgets: seq<Widget>, path: seq<u8>, i: nat)
    requires |widgets| == WIDGET_TABLE_SIZE && i < |path|
    ensures var c := WidgetCommands(widgets, path, i);
      2 <= |c| <= 5 && c[0] == SetPowerState(widgets[path[i]].nid, 0) &&
      forall t | 0 <= t < |c| :: c[t].nid == widgets[path[i]].nid && Encodable(c[t])
  {
  }

  /** Only an audio output's commands bind a converter to a stream, with
      their last command. */
  lemma {:induction false} WidgetConverter(widgets: seq<Widget>, path: seq<u8>, i: nat)
    requires |widgets| == WIDGET_TABLE_SIZE && i < |path|
    ensures var c := WidgetCommands(widgets, path, i);
      forall t | 0 <= t < |c| && c[t].SetConverterControl? ::
        widgets[path[i]].widgetType == WIDGET_TYPE_AUDIO_OUT && t == |c| - 1 &&
        c[t] == SetConverterControl(widgets[path[i]].nid, OUTPUT_STREAM_TAG, 0)
    ensures widgets[path[i]].widgetType == WIDGET_TYPE_AUDIO_OUT ==>
      var c := WidgetCommands(widgets, path, i);
      c[|c| - 1] == SetConverterControl(widgets[path[i]].nid, OUTPUT_STREAM_TAG, 0)
  {
  }

  /** Every command hdasetactivepath sends can be sent (none trips the
      converter-control assert) and is addressed to a widget of the path. */
  lemma {:induction false} SentToPath(widgets: seq<Widget>, path: seq<u8>, t: nat)
    requires |widgets| == WIDGET_TABLE_SIZE && t < |PathCommands(widgets, path)|
    ensures Encodable(PathCommands(widgets, path)[t])
    ensures exists i | 0 <= i < |path| :: PathCommands(widgets, path)[t].nid == widgets[path[i]].nid
  {
    var bs := Blocks(widgets, path);
    var i, u := ConcatOwner(bs, t);
    WidgetCommandsShape(widgets, path, i);
    var blk: seq<Command> := bs[i];
    assert PathCommands(widgets, path)[t] == blk[u];
    assert blk[u].nid == widgets[path[i]].nid;
  }

  /** The first command addressed to a widget of the path powers it up: no
      widget is configured before it is powered. */
  lemma {:induction false} PowerUpFirst(widgets: seq<Widget>, path: seq<u8>, t: nat)
    requires |widgets| == WIDGET_TABLE_SIZE && t < |PathCommands(widgets, path)|
    ensures exists t' | 0 <= t' <= t ::
      PathCommands(widgets, path)[t'] == SetPowerState(PathCommands(widgets, path)[t].nid, 0)
  {
    var bs := Blocks(widgets, path);
    var i, u := ConcatOwner(bs, t);
    ConcatAt(bs, i, 0);
    var blk: seq<Command> := WidgetCommands(widgets, path, i);
    assert bs[i] == blk;
    WidgetCommandsShape(widgets, path, i);
    var start := |Concat(bs[..i])|;
    ghost var cmds: seq<Command> := PathCommands(widgets, path);
    assert cmds[t] == blk[u] && cmds[start] == blk[0];
    assert start <= t && cmds[start] == SetPowerState(cmds[t].nid, 0);
  }

  /** The output converter at the end of an output path is bound to stream 1
      (the stream number the stream descriptor is given) ... */
  lemma {:induction false} ConverterBound(widgets: seq<Widget>, path: seq<u8>)
    requires |widgets| == WIDGET_TABLE_SIZE && 1 <= |path|
    requires widgets[path[|path| - 1]].widgetType == WIDGET_TYPE_AUDIO_OUT
    ensures SetConverterControl(widgets[path[|path| - 1]].nid, OUTPUT_STREAM_TAG, 0) in PathCommands(widgets, path)
  {
    var n := |path|;
    var bs := Blocks(widgets, path);
    var last: seq<Command> := WidgetCommands(widgets, path, n - 1);
    assert bs[n - 1] == last;
    WidgetConverter(widgets, path, n - 1);
    ConcatAt(bs, n - 1, |last| - 1);
  }

  /** ... and is the only converter the path's commands bind when no
      earlier widget of the path is an audio output. */
  lemma {:induction false} ConverterOnly(widgets: seq<Widget>, path: seq<u8>, t: nat)
    requires |widgets| == WIDGET_TABLE_SIZE && 1 <= |path|
    requires forall i | 0 <= i < |path| - 1 :: widgets[path[i]].widgetType != WIDGET_TYPE_AUDIO_OUT
    requires t < |PathCommands(widgets, path)| && PathCommands(widgets, path)[t].SetConverterControl?
    ensures PathCommands(widgets, path)[t] == SetConverterControl(widgets[path[|path| - 1]].nid, OUTPUT_STREAM_TAG, 0)
  {
    var bs := Blocks(widgets, path);
    var i, u := ConcatOwner(bs, t);
    var blk: seq<Command> := WidgetCommands(widgets, path, i);
    assert bs[i] == blk;
    WidgetConverter(widgets, path, i);
  }


  /** A widget with a choice of inputs, other than the last, is switched to
      the selector stored with the first connection naming the next widget
      of the path. */
  lemma {:induction false} NextSelected(widgets: seq<Widget>, path: seq<u8>, i: nat, c: nat)
    requires |widgets| == WIDGET_TABLE_SIZE && i + 1 < |path|
    requires |widgets[path[i]].connections| > 1 && c < |widgets[path[i]].connections|
    requires widgets[path[i]].connections[c].nid == widgets[path[i + 1]].nid
    requires forall c' | 0 <= c' < c :: widgets[path[i]].connections[c'].nid != widgets[path[i + 1]].nid
    ensures SetConnection(widgets[path[i]].nid, widgets[path[i]].connections[c].selectorIndex)
      in PathCommands(widgets, path)
  {
    FirstSelectorFound(widgets[path[i]].connections, widgets[path[i + 1]].nid, 0, c);
    var bs := Blocks(widgets, path);
    assert bs[i][1] == SetConnection(widgets[path[i]].nid, widgets[path[i]].connections[c].selectorIndex);
    ConcatAt(bs, i, 1);
  }

  /** What hdasetactiveparams sends to the converter at the end of the path
      (hda.c:1156-1163), and the format word it also writes to the stream
      descriptor's SDnFMT (hda.c:1165): a channel-count command and a format
      command, both to the converter. The channel count sent is the
      requested one, the format word the one makehdaformat settles on. */
  function ActiveParamsCommands(outNid: u8, params: HwParams): (r: (seq<Command>, bv16))
    ensures |r.0| == 2 && r.0[0].SetConverterChannels? && r.0[1].SetConverterFormat?
    ensures r.0[0].nid == outNid && r.0[1].nid == outNid
    ensures r.0[0].channels == params.channels
    ensures r.1 < 0x8000 && r.0[1].format == r.1 as int
    ensures FormatChannels(r.1) == NegotiateChannels(params.channels)
    ensures FormatBits(r.1) == NegotiateSampleSize(params.bits).0
    ensures FormatRate(r.1) == FormatRate(NegotiateRate(params.sampleRate).1)
  {
    var fmt := MakeHdaFormat(params).format;
    ([SetConverterChannels(outNid, params.channels), SetConverterFormat(outNid, fmt as u16)], fmt)
  }

  /** On the wire, the converter learns its channel count from the data byte
      of the first verb (plus one) and the stream's from the data word of
      the second. The two agree exactly for requests of 1 to 16 channels; a
      request of 0 announces 256 channels against a format of 2. */
  lemma {:induction false} ActiveParamsChannels(codecAddr: u8, outNid: u8, params: HwParams)
    requires codecAddr < 0x10
    ensures var r := ActiveParamsCommands(outNid, params);
      var announced := VerbPayload(Encode(codecAddr, r.0[0])) % 0x100 + 1;
      var format := VerbPayload(Encode(codecAddr, r.0[1])) % 0x1_0000;
      format == r.1 as int &&
      (announced == FormatChannels(r.1) <==> 1 <= params.channels <= 16) &&
      (params.channels == 0 ==> announced == 0x100 && FormatChannels(r.1) == 2)
  {
    var r := ActiveParamsCommands(outNid, params);
    assert r.0[0] == SetConverterChannels(outNid, params.channels);
    assert VerbPayload(Encode(codecAddr, r.0[0])) % 0x100 == ToU8(params.channels - 1);
    assert r.0[1] == SetConverterFormat(outNid, r.1 as int);
    assert VerbPayload(Encode(codecAddr, r.0[1])) % 0x1_0000 == r.1 as int;
    ConverterChannelsAgree(params.channels);
  }

  /** The channel count SET_CONVERTER_CHANNELS announces (its data byte
      plus one) agrees with the count makehdaformat settles on, which the
      format word carries (MakeHdaFormat), exactly for requests of 1 to 16
      channels; a request of 0 announces 256 channels against a format of 2. */
  lemma {:induction false} ConverterChannelsAgree(requested: u8)
    ensures ToU8(requested - 1) + 1 == NegotiateChannels(requested) <==> 1 <= requested <= 16
    ensures requested == 0 ==> ToU8(requested - 1) + 1 == 0x100 && NegotiateChannels(requested) == 2
  {
    if requested == 0 {
      assert ToU8(requested - 1) == 0xff;
    } else {
      assert ToU8(requested - 1) == requested - 1;
    }
  }
}
