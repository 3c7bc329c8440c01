/** The playback engine of the first output stream descriptor: its byte
    FIFO (ringbuffer_t), the 256 pages of its buffer descriptor list, the
    interrupt that refills one page per buffer completion (hdastream_irq,
    hda.c:1186-1218), and the waits of a writer for space in the FIFO. The
    interrupts that run while a thread waits are given as a schedule. */
module HdaStream {
  import opened HdaTypes
  import opened HdaRegisters

  /** Entries of the buffer descriptor list, each one page (hda.c:1814-1823). */
  const BDL_ENTRIES: nat := 256

  /** The cyclic buffer length SDnCBL: all pages of the list (hda.c:1808). */
  const BUFFER_BYTES: nat := 256 * PAGE_SIZE

  /** ringbuffer_t, whose header is not part of this model, as a bounded FIFO
      of bytes: its capacity (RINGBUFFER_SIZE) and the bytes it holds, oldest
      first (RINGBUFFER_DATACOUNT is their number). */
  datatype Fifo = Fifo(size: nat, data: seq<u8>) {
    predicate Valid() { |data| <= size }

    function DataCount(): nat { |data| }

    /** RINGBUFFER_FREESPACE. */
    function FreeSpace(): (n: nat)
      requires Valid()
      ensures DataCount() + n == size
    {
      size - |data|
    }
  }

  /** ringbuffer_init: an empty FIFO of the given capacity. */
  function FifoInit(size: nat): (f: Fifo)
    ensures f.Valid() && f.DataCount() == 0 && f.FreeSpace() == size
  {
    Fifo(size, [])
  }

  /** ringbuffer_write: the bytes go in behind those already held. */
  function FifoWrite(f: Fifo, bytes: seq<u8>): (g: Fifo)
    requires f.Valid() && |bytes| <= f.FreeSpace()
    ensures g.Valid() && g.size == f.size
    ensures g.DataCount() == f.DataCount() + |bytes| && g.FreeSpace() == f.FreeSpace() - |bytes|
  {
    Fifo(f.size, f.data + bytes)
  }

  /** ringbuffer_read: up to n of the oldest bytes come out, and the FIFO
      keeps the rest. */
  function FifoRead(f: Fifo, n: nat): (r: (seq<u8>, Fifo))
    requires f.Valid()
    ensures r.1.Valid() && r.1.size == f.size
    ensures |r.0| == if n <= f.DataCount() then n else f.DataCount()
    ensures r.0 + r.1.data == f.data
  {
    var k := if n <= |f.data| then n else |f.data|;
    (f.data[..k], Fifo(f.size, f.data[k..]))
  }

  /** ringbuffer_remove: up to n of the oldest bytes are dropped. */
  function FifoRemove(f: Fifo, n: nat): (g: Fifo)
    requires f.Valid()
    ensures g.Valid() && g.size == f.size
    ensures g.DataCount() == if n <= f.DataCount() then f.DataCount() - n else 0
  {
    FifoRead(f, n).1
  }

  /** Bytes leave the FIFO in the order they entered it: after a write, the
      held bytes come out first, then the written ones. */
  lemma {:induction false} FifoOrder(f: Fifo, bytes: seq<u8>, n: nat)
    requires f.Valid() && |bytes| <= f.FreeSpace() && n <= f.DataCount() + |bytes|
    ensures FifoRead(FifoWrite(f, bytes), n).0 == (f.data + bytes)[..n]
    ensures n <= f.DataCount() ==> FifoRead(FifoWrite(f, bytes), n).0 == FifoRead(f, n).0
  {
    var g := FifoWrite(f, bytes);
    var r := FifoRead(g, n);
    assert r.0 + r.1.data == f.data + bytes;
    assert r.0 == (r.0 + r.1.data)[..n];
    if n <= f.DataCount() {
      var q := FifoRead(f, n);
      assert q.0 == (q.0 + q.1.data)[..n];
      assert (f.data + bytes)[..n] == f.data[..n];
    }
  }

  /** A stream position names a page of the list: a page multiple below the
      cyclic buffer length. */
  predicate ValidPosition(pos: nat) {
    pos % PAGE_SIZE == 0 && pos < BUFFER_BYTES
  }

  /** `currentpos` after a buffer completion (hda.c:1209-1212): one page on,
      and back to 0 at the end of the list. */
  function NextPosition(pos: nat): nat {
    if pos + PAGE_SIZE == BUFFER_BYTES then 0 else pos + PAGE_SIZE
  }

  /** The position after k buffer completions. */
  function PositionAfter(pos: nat, k: nat): nat {
    if k == 0 then pos else NextPosition(PositionAfter(pos, k - 1))
  }

  /** The position stays valid: it advances by a page modulo the buffer. */
  lemma {:induction false} NextPositionWraps(pos: nat)
    requires ValidPosition(pos)
    ensures ValidPosition(NextPosition(pos))
    ensures NextPosition(pos) == (pos + PAGE_SIZE) % BUFFER_BYTES
  {
    var q := pos / PAGE_SIZE;
    assert pos == q * PAGE_SIZE;
    assert q < 256;
  }

  /** After k completions the stream is k pages further on, modulo the
      buffer length: every page of the list comes round once per 256. */
  lemma {:induction false} PositionCycles(pos: nat, k: nat)
    requires ValidPosition(pos)
    ensures ValidPosition(PositionAfter(pos, k))
    ensures PositionAfter(pos, k) == (pos + k * PAGE_SIZE) % BUFFER_BYTES
    decreases k
  {
    if k > 0 {
      PositionCycles(pos, k - 1);
      var p := PositionAfter(pos, k - 1);
      NextPositionWraps(p);
      var x := pos + (k - 1) * PAGE_SIZE;
      assert p == x % BUFFER_BYTES;
      assert x == (x / BUFFER_BYTES) * BUFFER_BYTES + p;
      assert pos + k * PAGE_SIZE == (x / BUFFER_BYTES) * BUFFER_BYTES + (p + PAGE_SIZE);
      ModAddMultiple(x / BUFFER_BYTES, p + PAGE_SIZE);
    }
  }

  /** Adding whole buffers does not change the remainder. */
  lemma {:induction false} ModAddMultiple(m: nat, y: nat)
    ensures (m * BUFFER_BYTES + y) % BUFFER_BYTES == y % BUFFER_BYTES
    decreases m
  {
    if m > 0 {
      ModAddMultiple(m - 1, y);
      assert m * BUFFER_BYTES + y == (m - 1) * BUFFER_BYTES + y + BUFFER_BYTES;
    }
  }

  /** A page of zero bytes: what an underflow plays (hda.c:1197). */
  function ZeroPage(): (p: seq<u8>)
    ensures |p| == PAGE_SIZE && forall i | 0 <= i < |p| :: p[i] == 0
  {
    seq(PAGE_SIZE, _ => 0)
  }

  /** semaphore_signal_limit(sem, 1): a signal that does not raise the count
      past 1. semaphore.h is not part of this model. */
  function SignalLimit(count: nat, limit: nat): nat {
    if count < limit then count + 1 else count
  }

  /** The part of the stream the interrupt and the writers change: the
      position, the FIFO, the count of `buffersem` and the list's pages;
      `played` is every byte moved from the FIFO into a page so far. */
  datatype StreamView = StreamView(pos: nat, buffer: Fifo, sem: nat, pages: seq<seq<u8>>, played: seq<u8>)

  /** Every byte ever written to the FIFO: those already moved to a page,
      then those still held. */
  function Queued(v: StreamView): seq<u8> {
    v.played + v.buffer.data
  }

  predicate ValidView(v: StreamView) {
    ValidPosition(v.pos) && v.buffer.Valid() &&
    |v.pages| == BDL_ENTRIES && forall i | 0 <= i < |v.pages| :: |v.pages[i]| == PAGE_SIZE
  }

  /** hdastream_irq (hda.c:1186-1212): the page the controller just played is
      refilled from the FIFO, or zeroed when the FIFO holds less than a page;
      `buffersem` is signalled on an underflow (up to 1) and when the FIFO
      falls below half its capacity; the position advances one page. */
  function Refill(v: StreamView): (w: StreamView)
    requires ValidView(v)
  {
    var index := v.pos / PAGE_SIZE;
    var size := v.buffer.DataCount();
    if size < PAGE_SIZE then
      v.(pos := NextPosition(v.pos), sem := SignalLimit(v.sem, 1), pages := v.pages[index := ZeroPage()])
    else
      var (bytes, rest) := FifoRead(v.buffer, PAGE_SIZE);
      var sem := if size - PAGE_SIZE < v.buffer.size / 2 then v.sem + 1 else v.sem;
      StreamView(NextPosition(v.pos), rest, sem, v.pages[index := bytes], v.played + bytes)
  }

  /** A refill keeps the stream well formed and touches only the page at the
      old position. */
  lemma {:induction false} RefillValid(v: StreamView)
    requires ValidView(v)
    ensures ValidView(Refill(v)) && Refill(v).buffer.size == v.buffer.size
    ensures Queued(Refill(v)) == Queued(v)
    ensures Refill(v).pos == (v.pos + PAGE_SIZE) % BUFFER_BYTES
    ensures forall i | 0 <= i < BDL_ENTRIES && i != v.pos / PAGE_SIZE :: Refill(v).pages[i] == v.pages[i]
  {
    NextPositionWraps(v.pos);
  }

  /** With less than a page buffered, the page is silenced, the FIFO is left
      as it was and a writer can be woken. */
  lemma {:induction false} RefillUnderflow(v: StreamView)
    requires ValidView(v) && v.buffer.DataCount() < PAGE_SIZE
    ensures Refill(v).pages[v.pos / PAGE_SIZE] == ZeroPage()
    ensures Refill(v).buffer == v.buffer && Refill(v).played == v.played
    ensures Refill(v).sem >= 1 && Refill(v).sem <= if v.sem == 0 then 1 else v.sem
  {
  }

  /** Otherwise exactly one page of the oldest bytes is played, and a writer
      is signalled exactly when less than half the capacity stays buffered. */
  lemma {:induction false} RefillConsumes(v: StreamView)
    requires ValidView(v) && v.buffer.DataCount() >= PAGE_SIZE
    ensures Refill(v).pages[v.pos / PAGE_SIZE] + Refill(v).buffer.data == v.buffer.data
    ensures Refill(v).played == v.played + Refill(v).pages[v.pos / PAGE_SIZE]
    ensures |Refill(v).pages[v.pos / PAGE_SIZE]| == PAGE_SIZE
    ensures Refill(v).buffer.DataCount() == v.buffer.DataCount() - PAGE_SIZE
    ensures Refill(v).sem == v.sem + 1 <==> Refill(v).buffer.DataCount() < v.buffer.size / 2
    ensures Refill(v).sem == v.sem + 1 || Refill(v).sem == v.sem
  {
  }

  /** What the scheduler does for a blocked writer: the wait is interrupted
      by a signal, or the given number of buffer completions happen first. */
  datatype Wakeup = Interrupted | Completions(count: nat)

  /** How a semaphore_wait on `buffersem` ends: woken normally, interrupted,
      or still blocked when the schedule runs out. */
  datatype WaitEnd = Woken | WaitInterrupted | StillBlocked

  /** k buffer completions in a row. */
  function RefillTimes(v: StreamView, k: nat): (w: StreamView)
    requires ValidView(v)
    ensures ValidView(w)
    decreases k
  {
    if k == 0 then v
    else
      var u := RefillTimes(v, k - 1);
      RefillValid(u);
      Refill(u)
  }

  /** semaphore_wait(&strm->buffersem, true) against a schedule: each entry
      is an interruption, or some completions after which the wait takes a
      pending signal if there is one and otherwise goes on waiting. The
      result says how the wait ended and how many entries it used. */
  function WaitSpec(v: StreamView, schedule: seq<Wakeup>): (r: (WaitEnd, nat, StreamView))
    requires ValidView(v)
    ensures ValidView(r.2) && r.1 <= |schedule|
    ensures r.0 != StillBlocked ==> r.1 >= 1
    decreases |schedule|
  {
    if schedule == [] then (StillBlocked, 0, v)
    else if schedule[0].Interrupted? then (WaitInterrupted, 1, v)
    else
      var u := RefillTimes(v, schedule[0].count);
      if u.sem > 0 then (Woken, 1, u.(sem := u.sem - 1))
      else
        var (e, used, w) := WaitSpec(u, schedule[1..]);
        (e, used + 1, w)
  }

  /** One uninterrupted entry of a wait's schedule. */
  lemma {:induction false} WaitUnfold(v: StreamView, schedule: seq<Wakeup>)
    requires ValidView(v) && schedule != [] && !schedule[0].Interrupted?
    ensures var u := RefillTimes(v, schedule[0].count);
      WaitSpec(v, schedule) ==
        if u.sem > 0 then (Woken, 1, u.(sem := u.sem - 1)) else AfterWaits(WaitSpec(u, schedule[1..]), 1)
  {
  }

  /** Waiting changes the FIFO only by what the completions play, so the
      capacity is kept and no byte is added. */
  lemma {:induction false} RefillTimesShrinks(v: StreamView, k: nat)
    requires ValidView(v)
    ensures RefillTimes(v, k).buffer.size == v.buffer.size
    ensures RefillTimes(v, k).buffer.DataCount() <= v.buffer.DataCount()
    ensures Queued(RefillTimes(v, k)) == Queued(v)
    decreases k
  {
    if k > 0 {
      RefillTimesShrinks(v, k - 1);
      var u := RefillTimes(v, k - 1);
      RefillValid(u);
      if u.buffer.DataCount() >= PAGE_SIZE {
        RefillConsumes(u);
      }
    }
  }

  /** A wait keeps the FIFO's capacity, adds no byte to it, and loses or
      reorders none of the bytes queued so far. */
  lemma {:induction false} WaitShrinks(v: StreamView, schedule: seq<Wakeup>)
    requires ValidView(v)
    ensures WaitSpec(v, schedule).2.buffer.size == v.buffer.size
    ensures WaitSpec(v, schedule).2.buffer.DataCount() <= v.buffer.DataCount()
    ensures Queued(WaitSpec(v, schedule).2) == Queued(v)
    decreases |schedule|
  {
    if schedule != [] && !schedule[0].Interrupted? {
      var u := RefillTimes(v, schedule[0].count);
      RefillTimesShrinks(v, schedule[0].count);
      if u.sem == 0 {
        WaitShrinks(u, schedule[1..]);
      }
    }
  }

  /** The start-up copy of hdaqueue (hda.c:1419-1423): each of the first
      `count` pages of the list receives up to one page of the oldest bytes;
      ringbuffer_read fills only as much of a page as the FIFO holds. */
  function PrefillSpec(v: StreamView, count: nat): (w: StreamView)
    requires ValidView(v) && count <= BDL_ENTRIES
    ensures ValidView(w) && w.pos == v.pos && w.sem == v.sem && w.buffer.size == v.buffer.size
    decreases count
  {
    if count == 0 then v else PrefillPage(PrefillSpec(v, count - 1), count - 1)
  }

  /** One page of the start-up copy, into page `index` of the list. */
  function PrefillPage(u: StreamView, index: nat): (w: StreamView)
    requires ValidView(u) && index < BDL_ENTRIES
    ensures ValidView(w) && w.pos == u.pos && w.sem == u.sem && w.buffer.size == u.buffer.size
    ensures Queued(w) == Queued(u)
  {
    var (bytes, rest) := FifoRead(u.buffer, PAGE_SIZE);
    assert (u.played + bytes) + rest.data == u.played + (bytes + rest.data);
    u.(buffer := rest, played := u.played + bytes,
       pages := u.pages[index := bytes + u.pages[index][|bytes|..]])
  }

  /** The start-up copy plays the queued bytes in order and loses none. */
  lemma {:induction false} PrefillConserves(v: StreamView, count: nat)
    requires ValidView(v) && count <= BDL_ENTRIES
    ensures Queued(PrefillSpec(v, count)) == Queued(v)
    decreases count
  {
    if count > 0 {
      PrefillConserves(v, count - 1);
    }
  }

  /** It leaves the pages from `count` on as they were. */
  lemma {:induction false} PrefillKeepsRest(v: StreamView, count: nat, i: nat)
    requires ValidView(v) && count <= i < BDL_ENTRIES
    ensures PrefillSpec(v, count).pages[i] == v.pages[i]
    decreases count
  {
    if count > 0 {
      PrefillKeepsRest(v, count - 1, i);
    }
  }

  /** With at least `count` pages buffered, the start-up copy takes
      exactly the oldest count * PAGE_SIZE bytes. */
  lemma {:induction false} PrefillFull(v: StreamView, count: nat)
    requires ValidView(v) && count <= BDL_ENTRIES && count * PAGE_SIZE <= v.buffer.DataCount()
    ensures PrefillSpec(v, count).buffer.data == v.buffer.data[count * PAGE_SIZE..]
    decreases count
  {
    if count > 0 {
      PrefillFull(v, count - 1);
      var u := PrefillSpec(v, count - 1);
      var k := (count - 1) * PAGE_SIZE;
      var r := FifoRead(u.buffer, PAGE_SIZE);
      assert r.1.data == u.buffer.data[PAGE_SIZE..];
      assert u.buffer.data[PAGE_SIZE..] == v.buffer.data[k + PAGE_SIZE..];
    }
  }

  /** ... and page i of the list then holds the i-th page of those bytes. */
  lemma {:induction false} PrefillPageAt(v: StreamView, count: nat, i: nat)
    requires ValidView(v) && count <= BDL_ENTRIES && count * PAGE_SIZE <= v.buffer.DataCount()
    requires i < count
    ensures PrefillSpec(v, count).pages[i] == v.buffer.data[i * PAGE_SIZE..(i + 1) * PAGE_SIZE]
    decreases count
  {
    var u := PrefillSpec(v, count - 1);
    if i < count - 1 {
      PrefillPageAt(v, count - 1, i);
    } else {
      PrefillFull(v, count - 1);
      var r := FifoRead(u.buffer, PAGE_SIZE);
      assert r.0 == u.buffer.data[..PAGE_SIZE];
      assert r.0 == v.buffer.data[i * PAGE_SIZE..(i + 1) * PAGE_SIZE];
    }
  }

  /** The wait of hdapause (hda.c:1450-1465): while a page or more is
      buffered, sleep on `buffersem`; an interruption ends the wait early.
      The flag says whether the schedule ran out with the writer asleep. */
  function DrainSpec(v: StreamView, schedule: seq<Wakeup>): (r: (bool, StreamView))
    requires ValidView(v)
    ensures ValidView(r.1)
    decreases |schedule|
  {
    if v.buffer.DataCount() < PAGE_SIZE then (false, v)
    else
      var (e, used, w) := WaitSpec(v, schedule);
      if e == Woken then DrainSpec(w, schedule[used..])
      else (e == StillBlocked, w)
  }

  /** A drain that is neither interrupted nor left asleep ends with less
      than a page buffered: the interrupt never has a full page to play. */
  lemma {:induction false} DrainEmpties(v: StreamView, schedule: seq<Wakeup>)
    requires ValidView(v)
    requires forall i | 0 <= i < |schedule| :: !schedule[i].Interrupted?
    ensures !DrainSpec(v, schedule).0 ==> DrainSpec(v, schedule).1.buffer.DataCount() < PAGE_SIZE
    ensures Queued(DrainSpec(v, schedule).1) == Queued(v)
    decreases |schedule|
  {
    if v.buffer.DataCount() >= PAGE_SIZE {
      WaitShrinks(v, schedule);
      var (e, used, w) := WaitSpec(v, schedule);
      if e == Woken {
        DrainEmpties(w, schedule[used..]);
      } else if e == WaitInterrupted {
        WaitNotInterrupted(v, schedule);
      }
    }
  }

  /** A schedule without interruptions never ends a wait interrupted. */
  lemma {:induction false} WaitNotInterrupted(v: StreamView, schedule: seq<Wakeup>)
    requires ValidView(v)
    requires forall i | 0 <= i < |schedule| :: !schedule[i].Interrupted?
    ensures WaitSpec(v, schedule).0 != WaitInterrupted
    decreases |schedule|
  {
    if schedule != [] {
      var u := RefillTimes(v, schedule[0].count);
      if u.sem == 0 {
        WaitNotInterrupted(u, schedule[1..]);
      }
    }
  }

  /** How hdapause ends: it returns 0, or its writer is still asleep when
      the schedule runs out. */
  datatype PauseOutcome = Paused(ret: int) | PauseBlocked

  /** A wait ends interrupted only at an interruption of its schedule. */
  lemma {:induction false} WaitEndsAtInterruption(v: StreamView, schedule: seq<Wakeup>)
    requires ValidView(v)
    ensures WaitSpec(v, schedule).0 == WaitInterrupted ==> schedule[WaitSpec(v, schedule).1 - 1] == Interrupted
    decreases |schedule|
  {
    if schedule != [] && !schedule[0].Interrupted? {
      var u := RefillTimes(v, schedule[0].count);
      if u.sem == 0 {
        WaitEndsAtInterruption(u, schedule[1..]);
      }
    }
  }

  /** The stream's reason to panic: the interrupt came without the buffer
      completion status (the `__assert(SDSTS_BCIS(sts))` of hda.c:1215). */
  datatype StreamPanic = NoBufferCompletion

  /** hdastream_t for the first output stream (hda.c:200-208), with the
      SDnCTL bytes 0 and 2 and SDnFMT of its descriptor, and the pages its
      list points at. */
  class Stream {
    var ctl0: bv8
    var ctl2: bv8
    var fmt: bv16
    var currentPos: nat
    var buffer: Fifo
    var bufferSem: nat
    const pages: array<seq<u8>>
    ghost var played: seq<u8>

    ghost predicate Valid()
      reads this, pages
    {
      ValidView(View())
    }

    ghost function View(): StreamView
      reads this, pages
    {
      StreamView(currentPos, buffer, bufferSem, pages[..], played)
    }

    /** The stream part of initcontroller (hda.c:1772-1823): interrupts on
        completion enabled, stream number 1, position 0, an empty FIFO of no
        capacity, no signal pending, and the list's pages as allocated. */
    constructor (ctl0Reg: bv8, ctl2Reg: bv8, fmtReg: bv16, initialPages: seq<seq<u8>>)
      requires |initialPages| == BDL_ENTRIES && forall i | 0 <= i < |initialPages| :: |initialPages[i]| == PAGE_SIZE
      ensures Valid()
      ensures ctl0 == SdCtl0SetIoce(ctl0Reg, true) && ctl2 == SdCtl2SetStrm(ctl2Reg, 1) && fmt == fmtReg
      ensures View() == StreamView(0, Fifo(0, []), 0, initialPages, [])
      ensures fresh(pages)
    {
      ctl0 := SdCtl0SetIoce(ctl0Reg, true);
      ctl2 := SdCtl2SetStrm(ctl2Reg, 1);
      fmt := fmtReg;
      currentPos := 0;
      buffer := Fifo(0, []);
      bufferSem := 0;
      played := [];
      pages := new seq<u8>[BDL_ENTRIES](i requires 0 <= i < BDL_ENTRIES reads {} => initialPages[i]);
    }

    /** hdastream_irq (hda.c:1186-1218), given the SDnSTS value it reads; it
        returns the value written back to acknowledge the completion. */
    method Interrupt(sts: bv8) returns (r: Result<bv8, StreamPanic>)
      requires Valid()
      modifies this, pages
      ensures Valid()
      ensures View() == Refill(old(View()))
      ensures r == if SdStsBcis(sts) then Ok(SdStsClearBcis(sts)) else Panic(NoBufferCompletion)
      ensures ctl0 == old(ctl0) && ctl2 == old(ctl2) && fmt == old(fmt)
    {
      RefillValid(View());
      var pos := currentPos;
      var index := pos / PAGE_SIZE;
      var size := buffer.DataCount();
      if size < PAGE_SIZE {
        pages[index] := ZeroPage();
        bufferSem := SignalLimit(bufferSem, 1);
      } else {
        var (bytes, rest) := FifoRead(buffer, PAGE_SIZE);
        pages[index] := bytes;
        buffer := rest;
        played := played + bytes;
        if size - PAGE_SIZE < buffer.size / 2 {
          bufferSem := bufferSem + 1;
        }
      }
      currentPos := currentPos + PAGE_SIZE;
      if currentPos == 256 * PAGE_SIZE {
        currentPos := 0;
      }
      if !SdStsBcis(sts) {
        return Panic(NoBufferCompletion);
      }
      r := Ok(SdStsClearBcis(sts));
    }

    /** A run of buffer completions while a writer sleeps; the controller
        raises them with the completion status set. */
    method Completions(k: nat)
      requires Valid()
      modifies this, pages
      ensures Valid()
      ensures View() == RefillTimes(old(View()), k)
      ensures ctl0 == old(ctl0) && ctl2 == old(ctl2) && fmt == old(fmt)
    {
      var n := 0;
      while n < k
        invariant 0 <= n <= k && Valid()
        invariant View() == RefillTimes(old(View()), n)
        invariant ctl0 == old(ctl0) && ctl2 == old(ctl2) && fmt == old(fmt)
      {
        var r := Interrupt(4);
        n := n + 1;
      }
    }

    /** One uninterrupted sleep: the completions happen, then the sleeper
        takes a pending signal if there is one. */
    method SleepThrough(k: nat) returns (woken: bool)
      requires Valid()
      modifies this, pages
      ensures Valid()
      ensures var u := RefillTimes(old(View()), k);
        woken == (u.sem > 0) && View() == if woken then u.(sem := u.sem - 1) else u
      ensures ctl0 == old(ctl0) && ctl2 == old(ctl2) && fmt == old(fmt)
    {
      Completions(k);
      woken := bufferSem > 0;
      if woken {
        bufferSem := bufferSem - 1;
      }
    }

    /** semaphore_wait(&strm->buffersem, true) as WaitSpec describes it. */
    method Wait(schedule: seq<Wakeup>) returns (e: WaitEnd, used: nat)
      requires Valid()
      modifies this, pages
      ensures Valid()
      ensures (e, used, View()) == WaitSpec(old(View()), schedule)
      ensures buffer.size == old(buffer.size) && Queued(View()) == Queued(old(View()))
      ensures e == WaitInterrupted ==> 1 <= used <= |schedule| && schedule[used - 1] == Interrupted
      ensures e != StillBlocked ==> 1 <= used <= |schedule|
      ensures ctl0 == old(ctl0) && ctl2 == old(ctl2) && fmt == old(fmt)
      decreases |schedule|
    {
      WaitShrinks(View(), schedule);
      WaitEndsAtInterruption(View(), schedule);
      if schedule == [] {
        return StillBlocked, 0;
      }
      if schedule[0].Interrupted? {
        return WaitInterrupted, 1;
      }
      WaitUnfold(View(), schedule);
      var woken := SleepThrough(schedule[0].count);
      if woken {
        return Woken, 1;
      }
      var rest;
      e, rest := Wait(schedule[1..]);
      used := rest + 1;
    }

    /** hdastreamrun (hda.c:1171-1175). */
    method SetRun(run: bool)
      modifies this
      ensures ctl0 == SdCtl0SetRun(old(ctl0), run)
      ensures ctl2 == old(ctl2) && fmt == old(fmt) && View() == old(View())
    {
      var c := ctl0;
      c := SdCtl0SetRun(c, run);
      ctl0 := c;
    }

    /** One copy of hdaqueue (hda.c:1387-1391): as much of the rest of a
        page, from `offset` on, as the FIFO has room for. */
    method CopyFrom(page: seq<u8>, offset: nat) returns (tocopy: nat)
      requires Valid() && buffer.FreeSpace() > 0 && offset < |page|
      modifies this
      ensures Valid()
      ensures tocopy == if old(buffer.FreeSpace()) < |page| - offset then old(buffer.FreeSpace()) else |page| - offset
      ensures 0 < tocopy <= |page| - offset
      ensures View() == old(View()).(buffer := FifoWrite(old(buffer), page[offset..offset + tocopy]))
      ensures Queued(View()) == Queued(old(View())) + page[offset..offset + tocopy]
      ensures ctl0 == old(ctl0) && ctl2 == old(ctl2) && fmt == old(fmt)
    {
      var freespace := buffer.FreeSpace();
      var remaining := |page| - offset;
      tocopy := if freespace < remaining then freespace else remaining;
      buffer := FifoWrite(buffer, page[offset..offset + tocopy]);
    }

    /** ringbuffer_init of hdaqueue (hda.c:1358). */
    method InitBuffer(size: nat)
      requires Valid()
      modifies this
      ensures Valid()
      ensures View() == old(View()).(buffer := FifoInit(size))
      ensures ctl0 == old(ctl0) && ctl2 == old(ctl2) && fmt == old(fmt)
    {
      buffer := FifoInit(size);
    }

    /** Starting the stream in hdaqueue (hda.c:1405-1429): the first `count`
        pages are filled from the FIFO and the position set past them. */
    method Prefill(count: nat)
      requires Valid() && count < BDL_ENTRIES
      modifies this, pages
      ensures Valid()
      ensures View() == PrefillSpec(old(View()), count).(pos := count * PAGE_SIZE)
      ensures ctl0 == old(ctl0) && ctl2 == old(ctl2) && fmt == old(fmt)
    {
      var offset := 0;
      while offset < count
        invariant 0 <= offset <= count && Valid()
        invariant View() == PrefillSpec(old(View()), offset)
        invariant ctl0 == old(ctl0) && ctl2 == old(ctl2) && fmt == old(fmt)
      {
        var (bytes, rest) := FifoRead(buffer, PAGE_SIZE);
        pages[offset] := bytes + pages[offset][|bytes|..];
        buffer := rest;
        played := played + bytes;
        offset := offset + 1;
      }
      currentPos := count * PAGE_SIZE;
    }

    /** The pause loop of hdapause as DrainSpec describes it. */
    method Drain(schedule: seq<Wakeup>) returns (blocked: bool)
      requires Valid()
      modifies this, pages
      ensures Valid()
      ensures (blocked, View()) == DrainSpec(old(View()), schedule)
      ensures ctl0 == old(ctl0) && ctl2 == old(ctl2) && fmt == old(fmt)
    {
      var rest := schedule;
      while true
        invariant Valid()
        invariant DrainSpec(old(View()), schedule) == DrainSpec(View(), rest)
        invariant ctl0 == old(ctl0) && ctl2 == old(ctl2) && fmt == old(fmt)
        decreases |rest|
      {
        if buffer.DataCount() < PAGE_SIZE {
          return false;
        }
        ghost var before := View();
        var e, used := Wait(rest);
        if e != Woken {
          return e == StillBlocked;
        }
        rest := rest[used..];
      }
    }

    /** The reset of hdapause (hda.c:1469-1490): the descriptor is put into
        reset and out of it, completion interrupts are enabled again, the
        stream number is set to 1, the position goes back to 0 and the FIFO
        is emptied. The controller is taken to acknowledge each change of
        SRST at once, so the two polling loops end. */
    method Reset()
      requires Valid()
      modifies this
      ensures Valid()
      ensures ctl0 == SdCtl0SetIoce(SdCtl0SetRst(SdCtl0SetRst(old(ctl0), true), false), true)
      ensures ctl2 == SdCtl2SetStrm(old(ctl2), 1) && fmt == old(fmt)
      ensures View() == old(View()).(pos := 0, buffer := FifoRemove(old(buffer), old(buffer).DataCount()))
    {
      var c := SdCtl0SetRst(ctl0, true);
      ctl0 := c;
      c := SdCtl0SetRst(ctl0, false);
      ctl0 := c;
      c := SdCtl0SetIoce(ctl0, true);
      ctl0 := c;
      ctl2 := SdCtl2SetStrm(ctl2, 1);
      currentPos := 0;
      buffer := FifoRemove(buffer, buffer.DataCount());
    }

    /** hdapause (hda.c:1443-1496): optionally sleep until less than a page
        is buffered (only while the stream runs), stop the DMA engine, and
        optionally reset the descriptor and drop what the FIFO holds. */
    method Pause(waitUntilEmpty: bool, reset: bool, schedule: seq<Wakeup>) returns (r: PauseOutcome)
      requires Valid()
      modifies this, pages
      ensures Valid()
      ensures var d := if waitUntilEmpty && SdCtl0Run(old(ctl0)) then DrainSpec(old(View()), schedule) else (false, old(View()));
        && r == (if d.0 then PauseBlocked else Paused(0))
        && (!d.0 ==> ctl0 == PausedControl(old(ctl0), reset))
        && (!d.0 ==> View() == if reset then d.1.(pos := 0, buffer := FifoRemove(d.1.buffer, d.1.buffer.DataCount())) else d.1)
        && (!d.0 ==> ctl2 == if reset then SdCtl2SetStrm(old(ctl2), 1) else old(ctl2))
      ensures fmt == old(fmt)
    {
      if waitUntilEmpty && SdCtl0Run(ctl0) {
        var blocked := Drain(schedule);
        if blocked {
          return PauseBlocked;
        }
      }
      SetRun(false);
      if reset {
        Reset();
      }
      r := Paused(0);
    }
  }

  /** SDnCTL byte 0 after hdapause: RUN cleared, then, with a reset, SRST
      set and cleared and IOCE set. */
  function PausedControl(ctl0: bv8, reset: bool): bv8 {
    var c := SdCtl0SetRun(ctl0, false);
    if reset then SdCtl0SetIoce(SdCtl0SetRst(SdCtl0SetRst(c, true), false), true) else c
  }

  /** A paused stream is stopped and out of reset, and a reset one has its
      completion interrupt enabled; no other control bit changes. */
  lemma {:induction false} PausedStopped(ctl0: bv8, reset: bool)
    ensures !SdCtl0Run(PausedControl(ctl0, reset))
    ensures reset ==> !SdCtl0Rst(PausedControl(ctl0, reset)) && SdCtl0Ioce(PausedControl(ctl0, reset))
    ensures !reset ==> SdCtl0Rst(PausedControl(ctl0, reset)) == SdCtl0Rst(ctl0)
    ensures PausedControl(ctl0, reset) & 0xf8 == ctl0 & 0xf8
  {
    var c := SdCtl0SetRun(ctl0, false);
    assert c & !2 == ctl0 & !2;
    if reset {
      var c1 := SdCtl0SetRst(c, true);
      var c2 := SdCtl0SetRst(c1, false);
      var c3 := SdCtl0SetIoce(c2, true);
      assert c3 & !4 == c2 & !4 && c2 & !1 == c1 & !1 && c1 & !1 == c & !1;
    }
  }

  /** A wait's outcome once `used` earlier entries have been spent. */
  function AfterWaits(r: (WaitEnd, nat, StreamView), used: nat): (WaitEnd, nat, StreamView) {
    (r.0, r.1 + used, r.2)
  }
}
