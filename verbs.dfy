/** Codec commands ("verbs") and their 32-bit encoding, section 7.3 of the
    Intel High Definition Audio Specification rev. 1.0a (hda.c:78-121,
    286-407). */
module HdaVerbs {
  import opened HdaTypes

  // Verb identifiers. Four-bit identifiers are long verbs (16-bit data),
  // twelve-bit identifiers are short verbs (8-bit data).
  const VERB_SET_CONVERTER_FMT: u16 := 2
  const VERB_SET_AMP_GAIN_MUTE: u16 := 3
  const VERB_SET_PROC_COEF: u16 := 4
  const VERB_SET_COEF_INDEX: u16 := 5
  const VERB_GET_PROC_COEF: u16 := 0xc
  const VERB_SET_CONNECTION: u16 := 0x701
  const VERB_SET_POWER_STATE: u16 := 0x705
  const VERB_SET_CONVERTER_CONTROL: u16 := 0x706
  const VERB_SET_PIN_CONTROL: u16 := 0x707
  const VERB_SET_EAPD_ENABLE: u16 := 0x70c
  const VERB_SET_CONVERTER_CHANNELS: u16 := 0x72d
  const VERB_GET_PARAM: u16 := 0xf00
  const VERB_GET_CONN_LIST_ENTRY: u16 := 0xf02
  const VERB_GET_CONFIG_DEFAULT: u16 := 0xf1c

  // Payload bits of the amplifier gain/mute, pin control and EAPD verbs.
  const AMP_SET_MUTE: u16 := 0x80
  const AMP_SET_RIGHT: u16 := 0x1000
  const AMP_SET_LEFT: u16 := 0x2000
  const AMP_SET_IN: u16 := 0x4000
  const AMP_SET_OUT: u16 := 0x8000
  const PIN_CONTROL_SET_IN_ENABLE: u8 := 0x20
  const PIN_CONTROL_SET_OUT_ENABLE: u8 := 0x40
  const PIN_CONTROL_SET_HPHN: u8 := 0x80
  const EAPD_ENABLE_EAPD: u8 := 2

  /** The fields of a verb word: codec address in bits 28-31, node id in bits
      20-27, payload in bits 0-19. */
  function VerbCodecAddr(v: u32): u8 { v / 0x1000_0000 }
  function VerbNid(v: u32): u8 { v / 0x10_0000 % 0x100 }
  function VerbPayload(v: u32): int { v % 0x10_0000 }

  /** makeverb: packs the three fields; its two asserts are its requires. */
  function MakeVerb(codecAddr: u8, nid: u8, payload: u32): (v: u32)
    requires payload < 0x10_0000
    requires codecAddr < 0x10
    ensures VerbCodecAddr(v) == codecAddr
    ensures VerbNid(v) == nid
    ensures VerbPayload(v) == payload
  {
    // the fields occupy disjoint bits, so the source's bitwise or is a sum
    payload + nid * 0x10_0000 + codecAddr * 0x1000_0000
  }

  /** makeshortverb: a 12-bit identifier above an 8-bit data byte. */
  function MakeShortVerb(codecAddr: u8, nid: u8, id: u16, data: u8): (v: u32)
    requires id < 0x1000
    requires codecAddr < 0x10
    ensures VerbCodecAddr(v) == codecAddr && VerbNid(v) == nid
    ensures VerbPayload(v) / 0x100 == id && VerbPayload(v) % 0x100 == data
  {
    MakeVerb(codecAddr, nid, id * 0x100 + data)
  }

  /** makelongverb: a 4-bit identifier above a 16-bit data word. */
  function MakeLongVerb(codecAddr: u8, nid: u8, id: u8, data: u16): (v: u32)
    requires id < 0x10
    requires codecAddr < 0x10
    ensures VerbCodecAddr(v) == codecAddr && VerbNid(v) == nid
    ensures VerbPayload(v) / 0x1_0000 == id && VerbPayload(v) % 0x1_0000 == data
  {
    MakeVerb(codecAddr, nid, id * 0x1_0000 + data)
  }

  /** The commands the driver's hdaset... and hdaget... helpers send (hda.c:336-407). */
  datatype Command =
    | SetConverterFormat(nid: u8, format: u16)
    | SetAmpGainMute(nid: u8, gain: u16)
    | SetProcCoef(nid: u8, coef: u16)
    | SetCoefIndex(nid: u8, coefIndex: u16)
    | GetProcCoef(nid: u8)
    | SetConnection(nid: u8, selector: u8)
    | SetPowerState(nid: u8, state: u8)
    | SetConverterControl(nid: u8, stream: u8, channel: u8)
    | SetPinControl(nid: u8, control: u8)
    | SetEapdEnable(nid: u8, eapd: u8)
    | SetConverterChannels(nid: u8, channels: u8)
    | GetParameter(nid: u8, param: u8)
    | GetConnListEntry(nid: u8, offset: u8)
    | GetConfigDefault(nid: u8)

  /** What a helper asserts before it builds its verb: the stream number of
      hdasetconvertercontrol fits in four bits and its channel has a clear low
      nibble (hda.c:372-373). */
  predicate Encodable(c: Command) {
    c.SetConverterControl? ==> c.stream < 0x10 && c.channel % 0x10 == 0
  }

  /** The identifier and data byte of the converter-control verb:
      (stream << 4) | channel, in uint8_t. */
  function ConverterControlData(stream: u8, channel: u8): u8
    requires stream < 0x10
  {
    ((stream as bv8 << 4) | (channel as bv8)) as u8
  }

  /** With channel 0 the converter-control byte is the stream number in
      bits 4-7. */
  lemma ConverterControlStream(stream: u8)
    requires stream < 0x10
    ensures ConverterControlData(stream, 0) == stream * 0x10
  {
    var b := stream as bv8;
    assert (b << 4) | 0 == b * 16;
    assert (b * 16) as int == (b as int) * 16;
  }

  /** The verb word each helper sends to the codec at codecAddr. */
  function Encode(codecAddr: u8, c: Command): (v: u32)
    requires codecAddr < 0x10
    requires Encodable(c)
    ensures VerbCodecAddr(v) == codecAddr && VerbNid(v) == c.nid
  {
    match c
    case SetConverterFormat(nid, format) => MakeLongVerb(codecAddr, nid, VERB_SET_CONVERTER_FMT, format)
    case SetAmpGainMute(nid, gain) => MakeLongVerb(codecAddr, nid, VERB_SET_AMP_GAIN_MUTE, gain)
    case SetProcCoef(nid, coef) => MakeLongVerb(codecAddr, nid, VERB_SET_PROC_COEF, coef)
    case SetCoefIndex(nid, index) => MakeLongVerb(codecAddr, nid, VERB_SET_COEF_INDEX, index)
    case GetProcCoef(nid) => MakeLongVerb(codecAddr, nid, VERB_GET_PROC_COEF, 0)
    case SetConnection(nid, index) => MakeShortVerb(codecAddr, nid, VERB_SET_CONNECTION, index)
    case SetPowerState(nid, state) => MakeShortVerb(codecAddr, nid, VERB_SET_POWER_STATE, state)
    case SetConverterControl(nid, stream, channel) =>
      MakeShortVerb(codecAddr, nid, VERB_SET_CONVERTER_CONTROL, ConverterControlData(stream, channel))
    case SetPinControl(nid, control) => MakeShortVerb(codecAddr, nid, VERB_SET_PIN_CONTROL, control)
    case SetEapdEnable(nid, eapd) => MakeShortVerb(codecAddr, nid, VERB_SET_EAPD_ENABLE, eapd)
    case SetConverterChannels(nid, channels) =>
      // channels - 1 is computed in int and passed as uint8_t: 0 becomes 0xff
      MakeShortVerb(codecAddr, nid, VERB_SET_CONVERTER_CHANNELS, ToU8(channels - 1))
    case GetParameter(nid, param) => MakeShortVerb(codecAddr, nid, VERB_GET_PARAM, param)
    case GetConnListEntry(nid, offset) => MakeShortVerb(codecAddr, nid, VERB_GET_CONN_LIST_ENTRY, offset)
    case GetConfigDefault(nid) => MakeShortVerb(codecAddr, nid, VERB_GET_CONFIG_DEFAULT, 0)
  }

  /** The command a verb word carries, read back the way a codec reads it:
      payloads whose top four bits name a long verb carry 16 data bits,
      all others carry a 12-bit identifier and 8 data bits; the
      converter-control byte holds the stream in bits 4-7 and the channel in
      bits 0-3. */
  function Decode(v: u32): Option<(u8, Command)> {
    DecodeFields(VerbCodecAddr(v), VerbNid(v), VerbPayload(v))
  }

  function DecodeFields(addr: u8, nid: u8, p: int): Option<(u8, Command)>
    requires 0 <= p < 0x10_0000
  {
    var longId := p / 0x1_0000;
    if longId in {VERB_SET_CONVERTER_FMT, VERB_SET_AMP_GAIN_MUTE, VERB_SET_PROC_COEF,
                  VERB_SET_COEF_INDEX, VERB_GET_PROC_COEF}
    then DecodeLong(addr, nid, longId, p % 0x1_0000)
    else DecodeShort(addr, nid, p / 0x100, p % 0x100)
  }

  function DecodeLong(addr: u8, nid: u8, id: int, data: u16): Option<(u8, Command)> {
    if id == VERB_SET_CONVERTER_FMT then Some((addr, SetConverterFormat(nid, data)))
    else if id == VERB_SET_AMP_GAIN_MUTE then Some((addr, SetAmpGainMute(nid, data)))
    else if id == VERB_SET_PROC_COEF then Some((addr, SetProcCoef(nid, data)))
    else if id == VERB_SET_COEF_INDEX then Some((addr, SetCoefIndex(nid, data)))
    else if id == VERB_GET_PROC_COEF && data == 0 then Some((addr, GetProcCoef(nid)))
    else None
  }

  function DecodeShort(addr: u8, nid: u8, id: int, data: u8): Option<(u8, Command)> {
    if id == VERB_SET_CONNECTION then Some((addr, SetConnection(nid, data)))
    else if id == VERB_SET_POWER_STATE then Some((addr, SetPowerState(nid, data)))
    else if id == VERB_SET_CONVERTER_CONTROL then
      Some((addr, SetConverterControl(nid, data / 0x10, data % 0x10)))
    else if id == VERB_SET_PIN_CONTROL then Some((addr, SetPinControl(nid, data)))
    else if id == VERB_SET_EAPD_ENABLE then Some((addr, SetEapdEnable(nid, data)))
    else if id == VERB_SET_CONVERTER_CHANNELS then
      Some((addr, SetConverterChannels(nid, ToU8(data + 1))))
    else if id == VERB_GET_PARAM then Some((addr, GetParameter(nid, data)))
    else if id == VERB_GET_CONN_LIST_ENTRY then Some((addr, GetConnListEntry(nid, data)))
    else if id == VERB_GET_CONFIG_DEFAULT && data == 0 then Some((addr, GetConfigDefault(nid)))
    else None
  }

  /** A short verb with one of the driver's identifiers (0x7xx and 0xfxx)
      is read back as a short verb. */
  lemma ShortVerbDecodes(v: u32, id: u16, data: u8)
    requires id / 0x100 == 7 || id / 0x100 == 0xf
    requires VerbPayload(v) / 0x100 == id && VerbPayload(v) % 0x100 == data
    ensures Decode(v) == DecodeShort(VerbCodecAddr(v), VerbNid(v), id, data)
  {
    var p := VerbPayload(v);
    assert p == id * 0x100 + data;
    assert p / 0x1_0000 == id / 0x100;
  }

  /** A long verb is read back as a long verb. */
  lemma LongVerbDecodes(v: u32, id: u16, data: u16)
    requires id in {VERB_SET_CONVERTER_FMT, VERB_SET_AMP_GAIN_MUTE, VERB_SET_PROC_COEF,
                    VERB_SET_COEF_INDEX, VERB_GET_PROC_COEF}
    requires VerbPayload(v) / 0x1_0000 == id && VerbPayload(v) % 0x1_0000 == data
    ensures Decode(v) == DecodeLong(VerbCodecAddr(v), VerbNid(v), id, data)
  {
  }

  /** Every command the driver can build is read back by the codec as the
      same command addressed to the same codec, provided the converter
      channel is 0 (the only value hda.c passes). */
  lemma {:induction false} EncodeDecode(codecAddr: u8, c: Command)
    requires codecAddr < 0x10
    requires Encodable(c)
    requires c.SetConverterControl? ==> c.channel == 0
    ensures Decode(Encode(codecAddr, c)) == Some((codecAddr, c))
  {
    var v := Encode(codecAddr, c);
    match c
    case SetConverterFormat(_, d) => LongVerbDecodes(v, VERB_SET_CONVERTER_FMT, d);
    case SetAmpGainMute(_, d) => LongVerbDecodes(v, VERB_SET_AMP_GAIN_MUTE, d);
    case SetProcCoef(_, d) => LongVerbDecodes(v, VERB_SET_PROC_COEF, d);
    case SetCoefIndex(_, d) => LongVerbDecodes(v, VERB_SET_COEF_INDEX, d);
    case GetProcCoef(_) => LongVerbDecodes(v, VERB_GET_PROC_COEF, 0);
    case SetConnection(_, d) => ShortVerbDecodes(v, VERB_SET_CONNECTION, d);
    case SetPowerState(_, d) => ShortVerbDecodes(v, VERB_SET_POWER_STATE, d);
    case SetConverterControl(_, stream, channel) =>
      ConverterControlStream(stream);
      ShortVerbDecodes(v, VERB_SET_CONVERTER_CONTROL, stream * 0x10);
    case SetPinControl(_, d) => ShortVerbDecodes(v, VERB_SET_PIN_CONTROL, d);
    case SetEapdEnable(_, d) => ShortVerbDecodes(v, VERB_SET_EAPD_ENABLE, d);
    case SetConverterChannels(_, ch) => ShortVerbDecodes(v, VERB_SET_CONVERTER_CHANNELS, ToU8(ch - 1));
    case GetParameter(_, d) => ShortVerbDecodes(v, VERB_GET_PARAM, d);
    case GetConnListEntry(_, d) => ShortVerbDecodes(v, VERB_GET_CONN_LIST_ENTRY, d);
    case GetConfigDefault(_) => ShortVerbDecodes(v, VERB_GET_CONFIG_DEFAULT, 0);
  }
}
