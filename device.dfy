/** The OSS device operations of an output path (hda.c:1272-1563): the
    setters of rate, channel count and sample format, queueing data for
    playback, pausing and resuming the stream, the free space query, and
    the exclusive open and close of the codec. */
module HdaDevice {
  import opened HdaTypes
  import opened HdaRegisters
  import opened HdaVerbs
  import opened HdaFormat
  import opened HdaPaths
  import opened HdaActivation
  import opened HdaStream

  /** The limits every output path announces (hda.c:705-709). */
  const MIN_RATE: int := 5513
  const MAX_RATE: int := 192000
  const MIN_CHANNELS: int := 1
  const MAX_CHANNELS: int := 16

  /** The sample formats of the OSS interface. */
  const AFMT_U8: int := 0x8
  const AFMT_S16_LE: int := 0x10
  const AFMT_U16_LE: int := 0x80

  const INT_MAX: int := 0x7fff_ffff

  // ----- Setters -----

  /** The rate hdasetrate settles on (hda.c:1275-1280). */
  function ClampRate(rate: int): (r: int)
    ensures MIN_RATE <= r <= MAX_RATE
    ensures r == rate <==> MIN_RATE <= rate <= MAX_RATE
  {
    if rate < MIN_RATE then MIN_RATE else if rate > MAX_RATE then MAX_RATE else rate
  }

  /** Out of range the rate moves to the nearer bound, so clamping twice
      changes no more, and a larger request never gets a smaller rate. */
  lemma {:induction false} RateClamped(rate: int)
    ensures rate < MIN_RATE ==> ClampRate(rate) == MIN_RATE
    ensures rate > MAX_RATE ==> ClampRate(rate) == MAX_RATE
    ensures ClampRate(ClampRate(rate)) == ClampRate(rate)
    ensures forall r | rate <= r :: ClampRate(rate) <= ClampRate(r)
  {
  }

  /** The channel count hdasetchannels settles on (hda.c:1293-1298). Out of
      range it is replaced by the RATE bounds, not the channel bounds; the
      source is followed. */
  function ChannelsAsWritten(channels: int): int {
    if channels < MIN_CHANNELS then MIN_RATE else if channels > MAX_CHANNELS then MAX_RATE else channels
  }

  /** In range the count is kept. Below it the call returns 5513 and stores
      137 (5513 truncated to uint8_t); above it, 192000 and 0. So an
      out-of-range request never leaves an announced count behind. */
  lemma {:induction false} ChannelsReplaced(channels: int)
    ensures MIN_CHANNELS <= channels <= MAX_CHANNELS ==>
      ChannelsAsWritten(channels) == channels && ToU8(ChannelsAsWritten(channels)) == channels
    ensures channels < MIN_CHANNELS ==> ChannelsAsWritten(channels) == 5513 && ToU8(ChannelsAsWritten(channels)) == 137
    ensures channels > MAX_CHANNELS ==> ChannelsAsWritten(channels) == 192000 && ToU8(ChannelsAsWritten(channels)) == 0
    ensures MIN_CHANNELS <= ToU8(ChannelsAsWritten(channels)) <= MAX_CHANNELS <==> MIN_CHANNELS <= channels <= MAX_CHANNELS
  {
    if channels < MIN_CHANNELS {
      assert ToU8(5513) == 137;
    } else if channels > MAX_CHANNELS {
      assert ToU8(192000) == 0;
    }
  }

  /** What hdasetfmt does with a requested format (hda.c:1311-1337): the
      format it reports, the sample size it stores, and the signedness it
      stores, if any. */
  datatype FmtChoice = FmtChoice(returned: int, bits: u8, signed: Option<bool>)

  function ChooseFormat(fmt: int): FmtChoice {
    if fmt == AFMT_U16_LE then FmtChoice(AFMT_U16_LE, 16, Some(false))
    else if fmt == AFMT_S16_LE then FmtChoice(AFMT_S16_LE, 16, Some(true))
    else FmtChoice(AFMT_U8, 8, None)
  }

  /** The two 16-bit formats are honoured; everything else falls back to
      unsigned 8-bit and leaves the signedness alone. The result is always
      one of the announced formats and asking for it again gives it back. */
  lemma {:induction false} FormatChosen(fmt: int)
    ensures ChooseFormat(fmt).returned in {AFMT_U8, AFMT_S16_LE, AFMT_U16_LE}
    ensures ChooseFormat(fmt).returned == fmt <==> fmt in {AFMT_U8, AFMT_S16_LE, AFMT_U16_LE}
    ensures ChooseFormat(ChooseFormat(fmt).returned) == ChooseFormat(fmt) || ChooseFormat(fmt).returned == AFMT_U8
    ensures ChooseFormat(fmt).bits == (if ChooseFormat(fmt).returned == AFMT_U8 then 8 else 16)
    ensures ChooseFormat(fmt).signed.Some? <==> fmt == AFMT_U16_LE || fmt == AFMT_S16_LE
    ensures ChooseFormat(fmt).signed == Some(true) <==> fmt == AFMT_S16_LE
  {
  }

  // ----- Buffer geometry of hdaqueue -----

  /** The fragment count hdaqueue uses: 2 when none was set (hda.c:1349-1351). */
  function FragmentCount(count: int): int {
    if count == 0 then 2 else count
  }

  /** The fragment size hdaqueue derives when none was set
      (hda.c:1352-1356): 50 ms of audio. The byte rate is computed in
      32-bit unsigned arithmetic and the milliseconds are truncated. */
  function DefaultFragmentSize(p: HwParams): int {
    var bytesPerSecond := (p.sampleRate * p.channels * (p.bits / 8)) % 0x1_0000_0000;
    (bytesPerSecond / 1000) * 50
  }

  /** For any parameters the setters can store, the byte rate does not wrap,
      and the default fragment is at most 50 ms of the exact byte rate. */
  lemma {:induction false} DefaultFragmentExact(p: HwParams)
    requires p.sampleRate <= MAX_RATE && (p.bits == 8 || p.bits == 16)
    ensures DefaultFragmentSize(p) == (p.sampleRate * p.channels * (p.bits / 8)) / 1000 * 50
    ensures 0 <= DefaultFragmentSize(p) <= INT_MAX
    ensures DefaultFragmentSize(p) * 20 <= p.sampleRate * p.channels * (p.bits / 8)
  {
    ByteRateFits(p);
    FiftyMilliseconds(p.sampleRate * p.channels * (p.bits / 8));
  }

  /** The byte rate of parameters the setters can store fits in 32 bits. */
  lemma {:induction false} ByteRateFits(p: HwParams)
    requires p.sampleRate <= MAX_RATE && (p.bits == 8 || p.bits == 16)
    ensures 0 <= p.sampleRate * p.channels * (p.bits / 8) < 0x1_0000_0000
  {
    var rc := p.sampleRate * p.channels;
    MulBound(p.sampleRate, MAX_RATE, p.channels, 255);
    if p.bits == 8 {
      assert rc * (p.bits / 8) == rc;
    } else {
      assert rc * (p.bits / 8) == rc + rc;
    }
  }

  /** 50 ms of a 32-bit byte rate, in whole milliseconds, is an int and at
      most a twentieth of the rate. */
  lemma {:induction false} FiftyMilliseconds(x: nat)
    requires x < 0x1_0000_0000
    ensures 0 <= x / 1000 * 50 <= INT_MAX
    ensures x / 1000 * 50 * 20 <= x
  {
    var ms := x / 1000;
    assert ms * 1000 <= x;
    assert ms * 50 * 20 == ms * 1000;
  }

  lemma {:induction false} MulBound(a: nat, bigA: nat, b: nat, bigB: nat)
    requires a <= bigA && b <= bigB
    ensures a * b <= bigA * bigB
  {
    assert a * b <= bigA * b by {
      assert (bigA - a) * b >= 0;
    }
    assert bigA * b <= bigA * bigB by {
      assert bigA * (bigB - b) >= 0;
    }
  }


  /** The defaults for 44.1 kHz, 16 bits and 2 channels, the parameters every
      path starts with: 8800-byte fragments, two of them. */
  lemma {:induction false} DefaultBuffer()
    ensures DefaultFragmentSize(HwParams(44100, 16, 2)) == 8800
    ensures FragmentCount(0) * DefaultFragmentSize(HwParams(44100, 16, 2)) == 17600
  {
  }

  /** The number of pages hdaqueue copies before it starts the stream
      (hda.c:1409-1415). */
  function InitialCount(fragmentSize: int): (n: nat)
    requires fragmentSize >= 0
  {
    if fragmentSize < PAGE_SIZE * 2 then 2 else fragmentSize / PAGE_SIZE
  }

  /** At least two pages are copied; from two pages of fragment on, the
      copied pages fit inside one fragment and cover all but its last
      partial page. */
  lemma {:induction false} InitialCountBounds(fragmentSize: int)
    requires fragmentSize >= 0
    ensures InitialCount(fragmentSize) >= 2
    ensures fragmentSize >= 2 * PAGE_SIZE ==>
      InitialCount(fragmentSize) * PAGE_SIZE <= fragmentSize < (InitialCount(fragmentSize) + 1) * PAGE_SIZE
    ensures InitialCount(fragmentSize) < BDL_ENTRIES <==> fragmentSize < BUFFER_BYTES
  {
    if fragmentSize >= 2 * PAGE_SIZE {
      var q := fragmentSize / PAGE_SIZE;
      assert fragmentSize == q * PAGE_SIZE + fragmentSize % PAGE_SIZE;
    }
  }

  /** The `(int)` cast of hdagetbufferavail (hda.c:1547): the free space,
      a size_t, seen as a 32-bit int. */
  function SizeToInt(x: nat): (r: int)
    ensures x <= INT_MAX ==> r == x
    ensures INT_MAX < x < 0x1_0000_0000 ==> r < 0
  {
    U32ToInt(x % 0x1_0000_0000)
  }

  // ----- The exclusive lock -----

  /** MUTEX_TRY on the exclusive lock, a semaphore of initial count 1
      (hda.c:558): it succeeds and takes one unit when the count is not 0. */
  function TryLock(count: nat): (r: (bool, nat)) {
    if count > 0 then (true, count - 1) else (false, count)
  }

  datatype LockOp = OpenOp | CloseOp

  /** One hdaopen or hdaclose on the lock's count; the second component
      counts the holders, the successful opens not yet closed. */
  function Step(count: nat, holders: nat, op: LockOp): (nat, nat) {
    if op == OpenOp then
      var (ok, c) := TryLock(count);
      (c, if ok then holders + 1 else holders)
    else (count + 1, if holders > 0 then holders - 1 else 0)
  }

  /** A trace of opens and closes applied in order. */
  function Replay(count: nat, holders: nat, ops: seq<LockOp>): (nat, nat)
    decreases |ops|
  {
    if ops == [] then (count, holders)
    else
      var (c, h) := Step(count, holders, ops[0]);
      Replay(c, h, ops[1..])
  }

  /** Every close of the trace comes from a holder. */
  predicate Balanced(count: nat, holders: nat, ops: seq<LockOp>)
    decreases |ops|
  {
    ops == [] ||
    ((ops[0] == OpenOp || holders > 0) &&
     var (c, h) := Step(count, holders, ops[0]);
     Balanced(c, h, ops[1..]))
  }

  /** While closes come from holders, count plus holders stays 1 from the
      initial count of 1: at most one opener holds the device. */
  lemma {:induction false} LockExclusive(count: nat, holders: nat, ops: seq<LockOp>)
    requires count + holders == 1 && Balanced(count, holders, ops)
    ensures Replay(count, holders, ops).0 + Replay(count, holders, ops).1 == 1
    ensures Replay(count, holders, ops).1 <= 1
    decreases |ops|
  {
    if ops != [] {
      var (c, h) := Step(count, holders, ops[0]);
      LockExclusive(c, h, ops[1..]);
    }
  }

  /** In that state an open succeeds exactly when nobody holds the device. */
  lemma {:induction false} OpenSucceedsWhenFree(count: nat, holders: nat)
    requires count + holders == 1
    ensures TryLock(count).0 <==> holders == 0
  {
  }

  /** An unbalanced close raises the count to 2, after which two opens both
      succeed: the lock acts as a flag only while closes match opens. */
  lemma {:induction false} UnbalancedCloseAdmitsTwo()
    ensures Replay(1, 0, [CloseOp, OpenOp, OpenOp]) == (0, 2)
  {
    assert [CloseOp, OpenOp, OpenOp][1..] == [OpenOp, OpenOp];
    assert [OpenOp, OpenOp][1..] == [OpenOp];
    assert [OpenOp][1..] == [];
  }

  // ----- Output paths -----

  /** hdapath_t (hda.c:259-268): the widgets of the path, pin first and
      converter last, the parameters the setters store, whether they changed
      since the converter was last programmed, the signedness, and the
      fragment geometry the OSS layer stores (oss.c:182-186). */
  class OutPath {
    const nids: seq<u8>
    var activeParams: HwParams
    var paramsChanged: bool
    var isSigned: bool
    var fragmentSize: int
    var fragmentCount: int

    /** A path as initcodec leaves it (hda.c:468, 734-735, 836-845):
        44.1 kHz, 16 bits, 2 channels, marked changed, unsigned, and no
        fragment geometry yet. */
    constructor (path: seq<u8>)
      requires |path| >= 1
      ensures nids == path
      ensures activeParams == HwParams(44100, 16, 2) && paramsChanged && !isSigned
      ensures fragmentSize == 0 && fragmentCount == 0
    {
      nids := path;
      activeParams := HwParams(44100, 16, 2);
      paramsChanged := true;
      isSigned := false;
      fragmentSize := 0;
      fragmentCount := 0;
    }

    /** hdasetrate (hda.c:1272-1288). */
    method SetRate(rate: int) returns (r: int)
      modifies this
      ensures r == ClampRate(rate)
      ensures activeParams == old(activeParams).(sampleRate := r)
      ensures paramsChanged == (old(paramsChanged) || old(activeParams).sampleRate != r)
      ensures isSigned == old(isSigned) && fragmentSize == old(fragmentSize) && fragmentCount == old(fragmentCount)
    {
      r := rate;
      if r < MIN_RATE {
        r := MIN_RATE;
      } else if r > MAX_RATE {
        r := MAX_RATE;
      }
      if activeParams.sampleRate != r {
        activeParams := activeParams.(sampleRate := r);
        paramsChanged := true;
      }
    }

    /** hdasetchannels (hda.c:1290-1306): the count compared and stored is
        the one ChannelsAsWritten settles on, truncated to uint8_t. */
    method SetChannels(channels: int) returns (r: int)
      modifies this
      ensures r == ChannelsAsWritten(channels)
      ensures activeParams == if old(activeParams).channels != r then old(activeParams).(channels := ToU8(r)) else old(activeParams)
      ensures paramsChanged == (old(paramsChanged) || old(activeParams).channels != r)
      ensures isSigned == old(isSigned) && fragmentSize == old(fragmentSize) && fragmentCount == old(fragmentCount)
    {
      r := channels;
      if r < MIN_CHANNELS {
        r := MIN_RATE;
      } else if r > MAX_CHANNELS {
        r := MAX_RATE;
      }
      if activeParams.channels != r {
        activeParams := activeParams.(channels := ToU8(r));
        paramsChanged := true;
      }
    }

    /** hdasetfmt (hda.c:1308-1339). */
    method SetFmt(fmt: int) returns (r: int)
      modifies this
      ensures var c := ChooseFormat(fmt);
        && r == c.returned
        && activeParams == old(activeParams).(bits := c.bits)
        && paramsChanged == (old(paramsChanged) || old(activeParams).bits != c.bits)
        && isSigned == (if c.signed.Some? then c.signed.value else old(isSigned))
      ensures fragmentSize == old(fragmentSize) && fragmentCount == old(fragmentCount)
    {
      var bits: u8 := if fmt == AFMT_U16_LE || fmt == AFMT_S16_LE then 16 else 8;
      if activeParams.bits != bits {
        activeParams := activeParams.(bits := bits);
        paramsChanged := true;
      }
      if fmt == AFMT_U16_LE {
        isSigned := false;
        r := AFMT_U16_LE;
      } else if fmt == AFMT_S16_LE {
        isSigned := true;
        r := AFMT_S16_LE;
      } else {
        r := AFMT_U8;
      }
    }
  }

  /** A repeated setter call with the value it returned changes nothing
      more: the rate and format come back as they are and stored. */
  lemma {:induction false} SettersSettle(rate: int, fmt: int)
    ensures ClampRate(ClampRate(rate)) == ClampRate(rate)
    ensures ChooseFormat(ChooseFormat(fmt).returned).returned == ChooseFormat(fmt).returned
    ensures ChooseFormat(ChooseFormat(fmt).returned).bits == ChooseFormat(fmt).bits
  {
  }

  // ----- The codec -----

  /** What hdaqueue sees of the caller's iovec (iovec.h is not part of this
      model): the rest of one page of user memory, or a page that cannot be
      fetched, with the error iovec_iterator_next_page returns for it. */
  datatype IoChunk = Bytes(data: seq<u8>) | Fault(errno: int)

  /** The bytes of the chunks, in order, ignoring faults. */
  function Data(chunks: seq<IoChunk>): seq<u8>
    decreases |chunks|
  {
    if chunks == [] then []
    else
      var last := chunks[|chunks| - 1];
      Data(chunks[..|chunks| - 1]) + (if last.Bytes? then last.data else [])
  }

  /** The chunks a queue call may be given: non-empty pages, at most a page
      each, and errors that are not 0. */
  predicate WellFormedChunks(chunks: seq<IoChunk>) {
    forall i | 0 <= i < |chunks| ::
      match chunks[i]
      case Bytes(d) => 0 < |d| <= PAGE_SIZE
      case Fault(e) => e != 0
  }

  /** The data of a prefix of the chunks is a prefix of their data. */
  lemma {:induction false} DataPrefix(chunks: seq<IoChunk>, k: nat)
    requires k <= |chunks|
    ensures |Data(chunks[..k])| <= |Data(chunks)|
    ensures Data(chunks)[..|Data(chunks[..k])|] == Data(chunks[..k])
    decreases |chunks| - k
  {
    if k < |chunks| {
      DataPrefix(chunks, k + 1);
      DataSnoc(chunks, k);
    } else {
      assert chunks[..k] == chunks;
    }
  }

  /** One more chunk adds its bytes behind the others. */
  lemma {:induction false} DataSnoc(chunks: seq<IoChunk>, k: nat)
    requires k < |chunks|
    ensures Data(chunks[..k + 1]) == Data(chunks[..k]) + (if chunks[k].Bytes? then chunks[k].data else [])
  {
    assert chunks[..k + 1][..k] == chunks[..k];
  }

  /** How hdaqueue ends: with its return value and, on success, the count
      it stores through `writep`; or with the writer still asleep when the
      schedule runs out; or where the start of the stream would need 256
      pages or more: the copy would run past the buffer descriptor list, or,
      at exactly 256, the position set after it would be one past its last
      page. */
  datatype QueueOutcome = Returned(ret: int, written: Option<nat>) | QueueBlocked | BdlOverrun

  /** The data up to an offset inside chunk k is a prefix of all the data. */
  lemma {:induction false} DataAt(chunks: seq<IoChunk>, k: nat, off: nat)
    requires k < |chunks| && chunks[k].Bytes? && off <= |chunks[k].data|
    ensures |Data(chunks[..k])| + off <= |Data(chunks)|
    ensures Data(chunks)[..|Data(chunks[..k])| + off] == Data(chunks[..k]) + chunks[k].data[..off]
  {
    DataSnoc(chunks, k);
    DataPrefix(chunks, k + 1);
    var d := Data(chunks[..k + 1]);
    assert d == Data(chunks[..k]) + chunks[k].data;
    assert d[..|Data(chunks[..k])| + off] == Data(chunks[..k]) + chunks[k].data[..off];
  }

  /** The iovec iterator after `tocopy` bytes of chunk k, from `off` on,
      were used (hda.c:1397-1401): it stays in the chunk, at the first byte
      not copied, or moves to the next chunk, and the data it has passed
      grows by exactly the bytes copied. */
  lemma {:induction false} IteratorAdvance(chunks: seq<IoChunk>, k: nat, off: nat, tocopy: nat, k2: nat, off2: nat)
    requires k < |chunks| && chunks[k].Bytes? && 0 < tocopy && off + tocopy <= |chunks[k].data|
    requires (k2, off2) == if off + tocopy < |chunks[k].data| then (k, off + tocopy) else (k + 1, 0)
    ensures k2 <= |chunks|
    ensures |Data(chunks[..k2])| + off2 == |Data(chunks[..k])| + off + tocopy <= |Data(chunks)|
    ensures off2 > 0 ==> k2 < |chunks| && chunks[k2].Bytes? && off2 < |chunks[k2].data|
    ensures k2 == |chunks| ==> |Data(chunks[..k2])| + off2 == |Data(chunks)|
    ensures Data(chunks)[..|Data(chunks[..k2])| + off2] ==
      Data(chunks)[..|Data(chunks[..k])| + off] + chunks[k].data[off..off + tocopy]
  {
    var page := chunks[k].data;
    DataAt(chunks, k, off);
    assert page[..off] + page[off..off + tocopy] == page[..off + tocopy];
    if off + tocopy < |page| {
      DataAt(chunks, k, off + tocopy);
    } else {
      ChunkPassed(chunks, k);
      if k2 == |chunks| {
        assert chunks[..k2] == chunks;
      }
    }
  }

  /** Once the iterator passes the whole of chunk k, the data it has passed
      is that of the first k + 1 chunks. */
  lemma {:induction false} ChunkPassed(chunks: seq<IoChunk>, k: nat)
    requires k < |chunks| && chunks[k].Bytes?
    ensures |Data(chunks[..k + 1])| == |Data(chunks[..k])| + |chunks[k].data| <= |Data(chunks)|
    ensures Data(chunks)[..|Data(chunks[..k + 1])|] == Data(chunks[..k]) + chunks[k].data
  {
    DataSnoc(chunks, k);
    DataPrefix(chunks, k + 1);
  }

  /** The fragment size hdaqueue uses when it sets up the FIFO. */
  function FragmentSize(size: int, p: HwParams): int {
    if size == 0 then DefaultFragmentSize(p) else size
  }

  /** hdacodec_t (hda.c:270-284), with the first output stream of its
      controller and the verbs sent to it so far, oldest first. */
  class Codec {
    const widgets: seq<Widget>
    const stream: Stream
    var activeOutPath: OutPath?
    var exclusiveLock: nat
    var sent: seq<Command>

    ghost predicate Valid()
      reads this, stream, stream.pages
    {
      |widgets| == WIDGET_TABLE_SIZE && stream.Valid()
    }

    /** hdaenumeratecodec (hda.c:545-558): no active path yet, and the
        exclusive lock free. */
    constructor (table: seq<Widget>, outStream: Stream)
      requires |table| == WIDGET_TABLE_SIZE && outStream.Valid()
      ensures Valid()
      ensures widgets == table && stream == outStream
      ensures activeOutPath == null && exclusiveLock == 1 && sent == []
    {
      widgets := table;
      stream := outStream;
      activeOutPath := null;
      exclusiveLock := 1;
      sent := [];
    }

    /** The nid of the converter a path ends at (hda.c:1161). */
    function OutNid(path: OutPath): u8
      requires |widgets| == WIDGET_TABLE_SIZE && |path.nids| >= 1
      reads this, path
    {
      widgets[path.nids[|path.nids| - 1]].nid
    }

    /** hdasetactivepath (hda.c:849-932). */
    method SetActivePath(path: OutPath)
      requires |widgets| == WIDGET_TABLE_SIZE
      modifies this
      ensures activeOutPath == path
      ensures sent == old(sent) + PathCommands(widgets, path.nids)
      ensures exclusiveLock == old(exclusiveLock)
    {
      var cmds := ActivePathCommands(widgets, path.nids);
      sent := sent + cmds;
      activeOutPath := path;
    }

    /** hdasetactiveparams (hda.c:1152-1169): the converter of the active
        path gets the channel count and the format word, and so does the
        stream descriptor's SDnFMT. */
    method SetActiveParams(params: HwParams)
      requires |widgets| == WIDGET_TABLE_SIZE && activeOutPath != null && |activeOutPath.nids| >= 1
      modifies this, stream
      ensures activeOutPath == old(activeOutPath) && exclusiveLock == old(exclusiveLock)
      ensures sent == old(sent) + ActiveParamsCommands(OutNid(activeOutPath), params).0
      ensures stream.fmt == ActiveParamsCommands(OutNid(activeOutPath), params).1
      ensures stream.ctl0 == old(stream.ctl0) && stream.ctl2 == old(stream.ctl2)
      ensures unchanged(stream`currentPos, stream`buffer, stream`bufferSem, stream`played)
    {
      var r := ActiveParamsCommands(OutNid(activeOutPath), params);
      sent := sent + r.0;
      stream.fmt := r.1;
    }

    /** hdaresume_unlocked (hda.c:1498-1521); hdaresume (hda.c:1523-1535)
        is the same under the stream mutex. The path becomes the active
        one, its parameters are programmed if they changed, and the stream
        runs. */
    method ResumeUnlocked(path: OutPath) returns (ret: int)
      requires Valid() && |path.nids| >= 1
      modifies this, path, stream
      ensures Valid()
      ensures ret == 0 && activeOutPath == path && !path.paramsChanged
      ensures sent == old(sent)
        + (if old(activeOutPath) != path then PathCommands(widgets, path.nids) else [])
        + (if old(path.paramsChanged) then ActiveParamsCommands(OutNid(path), path.activeParams).0 else [])
      ensures stream.fmt == if old(path.paramsChanged) then ActiveParamsCommands(OutNid(path), path.activeParams).1 else old(stream.fmt)
      ensures stream.ctl0 == SdCtl0SetRun(old(stream.ctl0), true) && stream.ctl2 == old(stream.ctl2)
      ensures stream.View() == old(stream.View())
      ensures path.activeParams == old(path.activeParams) && path.isSigned == old(path.isSigned)
      ensures path.fragmentSize == old(path.fragmentSize) && path.fragmentCount == old(path.fragmentCount)
      ensures exclusiveLock == old(exclusiveLock)
    {
      if activeOutPath != path {
        SetActivePath(path);
      }
      assert activeOutPath == path && path.paramsChanged == old(path.paramsChanged) && sent == old(sent)
        + (if old(activeOutPath) != path then PathCommands(widgets, path.nids) else []);
      if activeOutPath.paramsChanged {
        activeOutPath.paramsChanged := false;
        SetActiveParams(activeOutPath.activeParams);
      }
      stream.SetRun(true);
      ret := 0;
    }

    /** hdagetbufferavail (hda.c:1537-1549). */
    method GetBufferAvail() returns (ret: int, avail: int)
      requires Valid()
      ensures ret == 0 && avail == SizeToInt(stream.buffer.FreeSpace())
      ensures stream.buffer.size <= INT_MAX ==> 0 <= avail <= INT_MAX && avail + stream.buffer.DataCount() == stream.buffer.size
    {
      var space := stream.buffer.FreeSpace();
      avail := SizeToInt(space);
      ret := 0;
    }

    /** hdaopen (hda.c:1551-1557). */
    method Open() returns (ret: int)
      modifies this
      ensures ret == (if TryLock(old(exclusiveLock)).0 then 0 else EBUSY)
      ensures exclusiveLock == TryLock(old(exclusiveLock)).1
      ensures activeOutPath == old(activeOutPath) && sent == old(sent)
    {
      if exclusiveLock == 0 {
        return EBUSY;
      }
      exclusiveLock := exclusiveLock - 1;
      ret := 0;
    }

    /** hdaclose (hda.c:1559-1563). */
    method Close() returns (ret: int)
      modifies this
      ensures ret == 0 && exclusiveLock == old(exclusiveLock) + 1
      ensures activeOutPath == old(activeOutPath) && sent == old(sent)
    {
      exclusiveLock := exclusiveLock + 1;
      ret := 0;
    }

    /** The start of hdaqueue (hda.c:1348-1359): a FIFO that has no
        capacity yet gets fragment count times fragment size bytes, with
        the defaults filled in on the path. */
    method SetUpBuffer(path: OutPath)
      requires Valid() && path.fragmentCount >= 0 && path.fragmentSize >= 0
      requires stream.buffer.size == 0 ==>
        0 <= FragmentCount(path.fragmentCount) * FragmentSize(path.fragmentSize, path.activeParams) <= INT_MAX
      modifies path, stream
      ensures Valid()
      ensures old(stream.buffer.size) == 0 ==>
        && path.fragmentCount == FragmentCount(old(path.fragmentCount))
        && path.fragmentSize == FragmentSize(old(path.fragmentSize), path.activeParams)
        && stream.View() == old(stream.View()).(buffer := FifoInit(path.fragmentCount * path.fragmentSize))
      ensures old(stream.buffer.size) != 0 ==>
        path.fragmentCount == old(path.fragmentCount) && path.fragmentSize == old(path.fragmentSize) &&
        stream.View() == old(stream.View())
      ensures path.fragmentSize >= 0 && Queued(stream.View()) == Queued(old(stream.View()))
      ensures path.activeParams == old(path.activeParams) && path.paramsChanged == old(path.paramsChanged)
      ensures path.isSigned == old(path.isSigned)
      ensures stream.ctl0 == old(stream.ctl0) && stream.ctl2 == old(stream.ctl2) && stream.fmt == old(stream.fmt)
    {
      if stream.buffer.size == 0 {
        if path.fragmentCount == 0 {
          path.fragmentCount := 2;
        }
        if path.fragmentSize == 0 {
          var p := path.activeParams;
          var bytesPerSecond := (p.sampleRate * p.channels * (p.bits / 8)) % 0x1_0000_0000;
          var bytesPerMs := bytesPerSecond / 1000;
          path.fragmentSize := bytesPerMs * 50;
        }
        stream.InitBuffer(path.fragmentCount * path.fragmentSize);
      }
    }

    /** The start of playback in hdaqueue (hda.c:1405-1430): once the
        stream is stopped and a fragment is buffered, the first pages of the
        list are filled, the position set past them, and the path resumed.
        It reports an overrun, and changes nothing, where the start would
        need 256 pages or more: with more than 256 the copy runs past the
        list, and with exactly 256 the position set after it is one past
        the last page, which the next completion indexes. */
    method StartIfReady(path: OutPath) returns (overrun: bool)
      requires Valid() && |path.nids| >= 1 && path.fragmentSize >= 0
      modifies this, path, stream, stream.pages
      ensures Valid()
      ensures path.fragmentSize == old(path.fragmentSize) && path.fragmentCount == old(path.fragmentCount)
      ensures Queued(stream.View()) == Queued(old(stream.View()))
      ensures stream.buffer.size == old(stream.buffer.size)
      ensures var ready := !SdCtl0Run(old(stream.ctl0)) && old(stream.buffer.DataCount()) >= path.fragmentSize;
        && overrun == (ready && InitialCount(path.fragmentSize) >= BDL_ENTRIES)
        && (ready && !overrun ==>
             && activeOutPath == path && !path.paramsChanged
             && stream.View() == PrefillSpec(old(stream.View()), InitialCount(path.fragmentSize)).(pos := InitialCount(path.fragmentSize) * PAGE_SIZE)
             && sent == old(sent)
                  + (if old(activeOutPath) != path then PathCommands(widgets, path.nids) else [])
                  + (if old(path.paramsChanged) then ActiveParamsCommands(OutNid(path), path.activeParams).0 else [])
             && stream.fmt == (if old(path.paramsChanged) then ActiveParamsCommands(OutNid(path), path.activeParams).1 else old(stream.fmt))
             && stream.ctl0 == SdCtl0SetRun(old(stream.ctl0), true) && stream.ctl2 == old(stream.ctl2))
        && (!ready || overrun ==>
             && stream.View() == old(stream.View())
             && stream.ctl0 == old(stream.ctl0) && stream.ctl2 == old(stream.ctl2) && stream.fmt == old(stream.fmt)
             && activeOutPath == old(activeOutPath) && sent == old(sent) && path.paramsChanged == old(path.paramsChanged))
      ensures path.activeParams == old(path.activeParams) && path.isSigned == old(path.isSigned)
      ensures exclusiveLock == old(exclusiveLock)
    {
      overrun := false;
      if !SdCtl0Run(stream.ctl0) && stream.buffer.DataCount() >= path.fragmentSize {
        var initialCount := if path.fragmentSize < PAGE_SIZE * 2 then 2 else path.fragmentSize / PAGE_SIZE;
        if initialCount >= BDL_ENTRIES {
          return true;
        }
        PrefillConserves(stream.View(), initialCount);
        stream.Prefill(initialCount);
        var ret := ResumeUnlocked(path);
      }
    }

    /** One pass through the copy of hdaqueue (hda.c:1379-1403): part of
        chunk k, from `off` on, goes into the FIFO, and the iterator is set
        back to the first byte not copied. */
    method CopyChunk(chunks: seq<IoChunk>, k: nat, off: nat, ghost q0: seq<u8>)
      returns (k2: nat, off2: nat, tocopy: nat)
      requires Valid() && stream.buffer.FreeSpace() > 0
      requires k < |chunks| && chunks[k].Bytes? && off < |chunks[k].data|
      requires WellFormedChunks(chunks) && |Data(chunks[..k])| + off <= |Data(chunks)|
      requires Queued(stream.View()) == q0 + Data(chunks)[..|Data(chunks[..k])| + off]
      modifies stream
      ensures Valid()
      ensures 0 < tocopy && k2 <= |chunks|
      ensures |Data(chunks[..k2])| + off2 == |Data(chunks[..k])| + off + tocopy
      ensures off2 > 0 ==> k2 < |chunks| && chunks[k2].Bytes? && off2 < |chunks[k2].data|
      ensures k2 == |chunks| ==> |Data(chunks[..k2])| + off2 == |Data(chunks)|
      ensures |Data(chunks[..k2])| + off2 <= |Data(chunks)|
      ensures Queued(stream.View()) == q0 + Data(chunks)[..|Data(chunks[..k2])| + off2]
      ensures stream.buffer.size == old(stream.buffer.size)
      ensures stream.ctl0 == old(stream.ctl0) && stream.ctl2 == old(stream.ctl2) && stream.fmt == old(stream.fmt)
    {
      tocopy := stream.CopyFrom(chunks[k].data, off);
      if off + tocopy < |chunks[k].data| {
        k2, off2 := k, off + tocopy;
      } else {
        k2, off2 := k + 1, 0;
      }
      IteratorAdvance(chunks, k, off, tocopy, k2, off2);
    }

    /** hdaqueue (hda.c:1341-1441): the caller's bytes go into the FIFO in
        order, as much of each page as fits; a full FIFO puts the writer to
        sleep on `buffersem`; the first time a fragment is buffered while
        the stream is stopped, playback starts. The bytes that entered the
        FIFO are always the first `done` bytes of the data, whatever ends
        the call. */
    method Queue(path: OutPath, chunks: seq<IoChunk>, size: nat, schedule: seq<Wakeup>)
      returns (outcome: QueueOutcome, done: nat)
      requires Valid() && |path.nids| >= 1
      requires WellFormedChunks(chunks) && |Data(chunks)| == size
      requires path.fragmentCount >= 0 && path.fragmentSize >= 0
      requires stream.buffer.size == 0 ==>
        0 <= FragmentCount(path.fragmentCount) * FragmentSize(path.fragmentSize, path.activeParams) <= INT_MAX
      modifies this, path, stream, stream.pages
      ensures Valid()
      ensures done <= size
      ensures Queued(stream.View()) == Queued(old(stream.View())) + Data(chunks)[..done]
      ensures outcome.Returned? ==> (outcome.ret == 0 <==> done == size)
      ensures outcome.Returned? && outcome.ret == 0 ==> outcome.written == Some(size)
      ensures outcome.Returned? && outcome.ret != 0 ==>
        && outcome.written == None
        && ((outcome.ret == EINTR && Interrupted in schedule) ||
            (exists i | 0 <= i < |chunks| :: chunks[i] == Fault(outcome.ret) && done == |Data(chunks[..i])|))
      ensures outcome == QueueBlocked ==> done < size
    {
      SetUpBuffer(path);
      ghost var q0 := Queued(stream.View());
      var ret := 0;
      done := 0;
      var k: nat := 0;
      var off: nat := 0;
      var sp: nat := 0;
      while done < size
        invariant Valid() && path.fragmentSize >= 0
        invariant 0 <= sp <= |schedule| && k <= |chunks|
        invariant done == |Data(chunks[..k])| + off
        invariant off > 0 ==> k < |chunks| && chunks[k].Bytes? && off < |chunks[k].data|
        invariant k == |chunks| ==> done == size
        invariant done <= size
        invariant Queued(stream.View()) == q0 + Data(chunks)[..done]
        invariant ret == 0
        decreases |schedule| - sp, size - done
      {
        if stream.buffer.FreeSpace() == 0 {
          var e, used := stream.Wait(schedule[sp..]);
          if e == WaitInterrupted {
            assert schedule[sp..][used - 1] == schedule[sp + used - 1];
            ret := EINTR;
            break;
          }
          if e == StillBlocked {
            return QueueBlocked, done;
          }
          sp := sp + used;
          continue;
        }
        if chunks[k].Fault? {
          ret := chunks[k].errno;
          break;
        }
        var tocopy;
        k, off, tocopy := CopyChunk(chunks, k, off, q0);
        done := done + tocopy;
        var overrun := StartIfReady(path);
        if overrun {
          return BdlOverrun, done;
        }
      }
      if ret != 0 {
        return Returned(ret, None), done;
      }
      outcome := Returned(0, Some(size));
    }
  }
}
