/** The command ring bookkeeping of the controller: hdasendverbandwait
    (hda.c:303-334) places each verb in the next CORB entry and records the
    sending thread in the waiter table at the RIRB entry its response will
    occupy; hda_irq (hda.c:1220-1270) wakes the waiters of the responses
    the controller reports, or dispatches the stream interrupts. The CORB
    and RIRB are the command and response rings of sections 4.4.1 and 4.4.2
    of the Intel High Definition Audio Specification rev. 1.0a; blocking is
    split into the step before the thread sleeps and the step after it is
    woken, and threads are opaque identifiers. */
module HdaCommandRing {
  import opened HdaTypes
  import opened HdaRegisters

  const U32_MAX: u32 := 0xffff_ffff

  /** An opaque thread identifier, as stored in the waiter table. */
  type Waiter = nat

  /** The ring sizes the SZCAP choice can yield (SelectRingSize). */
  predicate RingEntries(count: nat) { count == 2 || count == 16 || count == 256 }

  /** d * n is at least n for a positive multiplier. */
  lemma {:induction false} MulAtLeast(d: int, n: int)
    requires d >= 1 && n > 0
    ensures d * n >= n
    decreases d
  {
    if d > 1 {
      MulAtLeast(d - 1, n);
      assert d * n == (d - 1) * n + n;
    }
  }

  /** Quotient and remainder are the unique ones. */
  lemma {:induction false} DivModUnique(x: int, q: int, r: int, n: int)
    requires n > 0 && 0 <= r < n && x == q * n + r
    ensures x % n == r && x / n == q
  {
    var d := q - x / n;
    assert x == (x / n) * n + x % n;
    assert d * n == x % n - r;
    if d >= 1 {
      MulAtLeast(d, n);
    } else if d <= -1 {
      MulAtLeast(-d, n);
    }
  }

  /** Arithmetic of the k-th sent verb's slot: the slot after slot k mod
      count is (k + 1) mod count. */
  lemma {:induction false} ModStep(k: nat, n: nat)
    requires n >= 2
    ensures (k + 1) % n == if k % n == n - 1 then 0 else k % n + 1
  {
    var q := k / n;
    var r := k % n;
    assert k == q * n + r;
    if r == n - 1 {
      DivModUnique(k + 1, q + 1, 0, n);
    } else {
      DivModUnique(k + 1, q, r + 1, n);
    }
  }

  /** The value `corbptr` holds after k verbs: the slot of the k-th verb,
      except that the last slot is replaced by UINT32_MAX so that the next
      increment wraps around to 0 (hda.c:316-319). */
  function CorbPtrAfter(k: nat, count: nat): (p: u32)
    requires RingEntries(count)
    ensures p == U32_MAX || p < count - 1
  {
    if k % count == count - 1 then U32_MAX else k % count
  }

  /** The value the int `rirbptr` holds after k verbs: UINT32_MAX converted to
      int is -1, so the next increment yields 0 (hda.c:320-322). */
  function RirbPtrAfter(k: nat, count: nat): (p: int)
    requires RingEntries(count)
    ensures p == -1 || 0 <= p < count - 1
  {
    if k % count == count - 1 then U32ToInt(U32_MAX) else k % count
  }

  /** The pre-increment of the uint32_t `corbptr` (hda.c:310) picks entry
      (k + 1) mod count for the (k + 1)-th verb, and the wrap test leaves the
      pointer describing k + 1 verbs. */
  lemma {:induction false} CorbPtrStep(k: nat, count: nat)
    requires RingEntries(count)
    ensures (CorbPtrAfter(k, count) + 1) % 0x1_0000_0000 == (k + 1) % count
    ensures var used := (k + 1) % count;
      CorbPtrAfter(k + 1, count) == if used == count - 1 then U32_MAX else used
  {
    ModStep(k, count);
  }

  /** The same for the int `rirbptr` (hda.c:309). */
  lemma {:induction false} RirbPtrStep(k: nat, count: nat)
    requires RingEntries(count)
    ensures RirbPtrAfter(k, count) + 1 == (k + 1) % count
    ensures var used := (k + 1) % count;
      RirbPtrAfter(k + 1, count) == if used == count - 1 then U32ToInt(U32_MAX) else used
  {
    ModStep(k, count);
  }

  /** Fewer than count verbs in flight never share a slot: the k1-th and the
      k2-th verb use different entries when k2 - k1 < count, which is what the
      `entrysem` semaphore initialised to the RIRB size guarantees
      (hda.c:1719). */
  lemma {:induction false} InFlightSlotsDistinct(k1: nat, k2: nat, n: nat)
    requires 0 < n && k1 < k2 < k1 + n
    ensures k1 % n != k2 % n
  {
    var q := k1 / n;
    var r := k1 % n;
    var e := k2 - k1;
    assert k1 == q * n + r;
    if r + e < n {
      DivModUnique(k2, q, r + e, n);
    } else {
      assert k2 == (q + 1) * n + (r + e - n);
      DivModUnique(k2, q + 1, r + e - n, n);
    }
  }

  /** The number of increments (with wrap at n) from slot a to slot b. */
  function Distance(a: nat, b: nat, n: nat): (d: nat)
    requires a < n && b < n
    ensures d < n
    ensures (a + d) % n == b
  {
    WrapOnce(b, n);
    if a <= b then b - a else n - a + b
  }

  /** A slot index is its own remainder, also after one full turn. */
  lemma {:induction false} WrapOnce(b: nat, n: nat)
    requires b < n
    ensures b % n == b && (n + b) % n == b
  {
    assert n + b == 1 * n + b;
  }

  /** The slots hda_irq visits from lastprocessedrirb to the reported write
      pointer: the cyclic span including both ends. */
  function Span(a: nat, b: nat, n: nat): (s: seq<nat>)
    requires a < n && b < n
    ensures |s| == Distance(a, b, n) + 1
  {
    seq(Distance(a, b, n) + 1, k => (a + k) % n)
  }

  /** Before the walk reaches b it does not pass b. */
  lemma {:induction false} SpanFirstHit(a: nat, b: nat, n: nat, j: nat)
    requires a < n && b < n && j < Distance(a, b, n)
    ensures (a + j) % n != b
  {
    var d := Distance(a, b, n);
    if a + j < n {
      assert (a + j) % n == a + j;
      if a <= b {
        assert a + j < b;
      } else {
        assert a + j > b;
      }
    } else {
      assert a + j - n < n;
      assert (a + j) % n == a + j - n;
      assert a > b && a + j - n < b;
    }
  }

  /** The span starts at a and ends at b. */
  lemma {:induction false} SpanEnds(a: nat, b: nat, n: nat)
    requires a < n && b < n
    ensures Span(a, b, n)[0] == a
    ensures Span(a, b, n)[|Span(a, b, n)| - 1] == b
  {
  }

  /** The span's slots are distinct ring entries. */
  lemma {:induction false} SpanDistinct(a: nat, b: nat, n: nat)
    requires a < n && b < n
    ensures forall k :: 0 <= k < |Span(a, b, n)| ==> Span(a, b, n)[k] < n
    ensures forall k1, k2 :: 0 <= k1 < k2 < |Span(a, b, n)| ==> Span(a, b, n)[k1] != Span(a, b, n)[k2]
  {
    var s := Span(a, b, n);
    forall k1, k2 | 0 <= k1 < k2 < |s|
      ensures s[k1] != s[k2]
    {
      InFlightSlotsDistinct(a + k1, a + k2, n);
    }
  }

  /** The walk's increment with wrap moves to the span's next slot. */
  lemma {:induction false} SpanNext(a: nat, b: nat, n: nat, j: nat)
    requires a < n && b < n && j < Distance(a, b, n)
    ensures Span(a, b, n)[j] != b
    ensures Span(a, b, n)[j + 1] == if Span(a, b, n)[j] + 1 == n then 0 else Span(a, b, n)[j] + 1
  {
    SpanFirstHit(a, b, n, j);
    ModStep(a + j, n);
  }

  /** A slot is woken exactly when it lies no further from a than b does. */
  lemma {:induction false} SpanMembership(a: nat, b: nat, n: nat, x: nat)
    requires a < n && b < n
    ensures x in Span(a, b, n) <==> x < n && Distance(a, x, n) <= Distance(a, b, n)
  {
    var s := Span(a, b, n);
    if x < n && Distance(a, x, n) <= Distance(a, b, n) {
      assert s[Distance(a, x, n)] == x;
    }
    if x in s {
      var k :| 0 <= k < |s| && s[k] == x;
      assert x < n;
      if Distance(a, x, n) > k {
        SpanFirstHit(a, x, n, k);
      } else if Distance(a, x, n) < k {
        InFlightSlotsDistinct(a + Distance(a, x, n), a + k, n);
      }
    }
  }

  /** Consecutive interrupts overlap: the write pointer of one walk is the
      first slot of the next, so the entry reported last is woken again
      (the walk at hda.c:1227 starts at lastprocessedrirb itself). */
  lemma {:induction false} ConsecutiveWalksOverlap(a: nat, b: nat, c: nat, n: nat)
    requires a < n && b < n && c < n
    ensures Span(a, b, n)[|Span(a, b, n)| - 1] == Span(b, c, n)[0]
    ensures |Span(a, b, n)| + |Span(b, c, n)| == Distance(a, b, n) + Distance(b, c, n) + 2
  {
    SpanEnds(a, b, n);
    SpanEnds(b, c, n);
  }

  /** Why a walk stops: the waiter table has no thread at a visited slot (the
      `__assert(ctrl->threads[i])` of hda.c:1229). */
  datatype IrqPanic = NoWaiter(slot: nat)

  /** The threads woken for the given slots, in order, or the first slot
      without a waiter. */
  function Wake(threads: seq<Option<Waiter>>, slots: seq<nat>): Result<seq<Waiter>, IrqPanic>
    requires forall k :: 0 <= k < |slots| ==> slots[k] < |threads|
  {
    if slots == [] then Ok([])
    else
      var last := slots[|slots| - 1];
      var w := Wake(threads, slots[..|slots| - 1]);
      if w.Panic? then w
      else if threads[last].None? then Panic(NoWaiter(last))
      else Ok(w.value + [threads[last].value])
  }

  /** Wake fails exactly when some visited slot has no waiter, naming the
      first one; otherwise it yields each visited slot's thread. */
  lemma {:induction false} WakeMeaning(threads: seq<Option<Waiter>>, slots: seq<nat>)
    requires forall k :: 0 <= k < |slots| ==> slots[k] < |threads|
    ensures Wake(threads, slots).Panic? <==> exists k :: 0 <= k < |slots| && threads[slots[k]].None?
    ensures Wake(threads, slots).Panic? ==>
      exists k :: 0 <= k < |slots| && slots[k] == Wake(threads, slots).reason.slot &&
        threads[slots[k]].None? && forall k' :: 0 <= k' < k ==> threads[slots[k']].Some?
    ensures Wake(threads, slots).Ok? ==>
      |Wake(threads, slots).value| == |slots| &&
      forall k :: 0 <= k < |slots| ==> threads[slots[k]] == Some(Wake(threads, slots).value[k])
    decreases |slots|
  {
    if slots != [] {
      var init := slots[..|slots| - 1];
      WakeMeaning(threads, init);
      assert forall k :: 0 <= k < |init| ==> init[k] == slots[k];
    }
  }

  /** Once a prefix of the slots panics, the whole walk panics the same way. */
  lemma {:induction false} WakePanicStays(threads: seq<Option<Waiter>>, slots: seq<nat>, m: nat)
    requires forall k :: 0 <= k < |slots| ==> slots[k] < |threads|
    requires m <= |slots| && Wake(threads, slots[..m]).Panic?
    ensures Wake(threads, slots) == Wake(threads, slots[..m])
    decreases |slots|
  {
    if m < |slots| {
      var init := slots[..|slots| - 1];
      assert init[..m] == slots[..m];
      WakePanicStays(threads, init, m);
    } else {
      assert slots[..m] == slots;
    }
  }

  /** One more visited slot with a waiter extends the woken threads. */
  lemma {:induction false} WakeSnoc(threads: seq<Option<Waiter>>, slots: seq<nat>, j: nat)
    requires forall k :: 0 <= k < |slots| ==> slots[k] < |threads|
    requires j < |slots| && Wake(threads, slots[..j]).Ok? && threads[slots[j]].Some?
    ensures Wake(threads, slots[..j + 1]) == Ok(Wake(threads, slots[..j]).value + [threads[slots[j]].value])
  {
    assert slots[..j + 1][..j] == slots[..j];
  }

  /** A visited slot without a waiter ends the walk in a panic naming it. */
  lemma {:induction false} WakeStops(threads: seq<Option<Waiter>>, slots: seq<nat>, j: nat)
    requires forall k :: 0 <= k < |slots| ==> slots[k] < |threads|
    requires j < |slots| && Wake(threads, slots[..j]).Ok? && threads[slots[j]].None?
    ensures Wake(threads, slots) == Panic(NoWaiter(slots[j]))
  {
    assert slots[..j + 1][..j] == slots[..j];
    WakePanicStays(threads, slots, j + 1);
  }

  /** The streams a controller exposes, in the order of the SIS bits of
      INTSTS: input streams, then output streams, then bidirectional ones. */
  datatype StreamRef = InStream(index: nat) | OutStream(index: nat) | BiStream(index: nat)

  function StreamOf(i: nat, inCount: nat, outCount: nat): StreamRef {
    if i < inCount then InStream(i)
    else if i < inCount + outCount then OutStream(i - inCount)
    else BiStream(i - inCount - outCount)
  }

  predicate Sis(sts: bv32, i: nat)
    requires i < 32
  {
    (sts >> i) & 1 == 1
  }

  /** The streams whose interrupt bit is set among the first `upto`. */
  function Signalled(sts: bv32, inCount: nat, outCount: nat, upto: nat): seq<StreamRef>
    requires upto <= 30
  {
    if upto == 0 then []
    else
      Signalled(sts, inCount, outCount, upto - 1) +
        (if Sis(sts, upto - 1) then [StreamOf(upto - 1, inCount, outCount)] else [])
  }

  /** StreamOf tells the streams apart. */
  lemma {:induction false} StreamOfInjective(i: nat, j: nat, inCount: nat, outCount: nat)
    requires StreamOf(i, inCount, outCount) == StreamOf(j, inCount, outCount)
    ensures i == j
  {
  }

  /** A stream is serviced exactly when its bit in INTSTS is set. */
  lemma {:induction false} SignalledMembership(sts: bv32, inCount: nat, outCount: nat, upto: nat, i: nat)
    requires upto <= 30
    ensures StreamOf(i, inCount, outCount) in Signalled(sts, inCount, outCount, upto) <==> i < upto && Sis(sts, i)
    decreases upto
  {
    if upto > 0 {
      SignalledMembership(sts, inCount, outCount, upto - 1, i);
      if StreamOf(i, inCount, outCount) == StreamOf(upto - 1, inCount, outCount) {
        StreamOfInjective(i, upto - 1, inCount, outCount);
      }
    }
  }

  /** The stream branch of hda_irq (hda.c:1247-1268): which streams have
      their hdastream_irq called, in order. */
  method SignalledStreams(sts: bv32, inCount: nat, outCount: nat, biCount: nat) returns (streams: seq<StreamRef>)
    requires inCount + outCount + biCount <= 30
    ensures streams == Signalled(sts, inCount, outCount, inCount + outCount + biCount)
  {
    var total := inCount + outCount + biCount;
    streams := [];
    var i := 0;
    while i < total
      invariant 0 <= i <= total
      invariant streams == Signalled(sts, inCount, outCount, i)
    {
      if (sts >> i) & 1 == 1 {
        var strm;
        if i < inCount {
          strm := InStream(i);
        } else if i < inCount + outCount {
          strm := OutStream(i - inCount);
        } else {
          strm := BiStream(i - inCount - outCount);
        }
        streams := streams + [strm];
      }
      i := i + 1;
    }
  }

  /** What hda_irq did: woke the waiters of the reported responses and
      acknowledged RIRBSTS, or named the streams to service. */
  datatype IrqOutcome =
    | Responses(woken: seq<Waiter>, rirbSts: bv8)
    | Streams(streams: seq<StreamRef>)

  /** The controller state the command ring uses (hda.c:210-233): ring sizes,
      both ring pointers, the last processed response slot, the rings and
      the waiter table, the CORBWP register and the count of `entrysem`. */
  class Controller {
    const corbCount: nat
    const rirbCount: nat
    var corbPtr: u32
    var rirbPtr: int
    var lastProcessedRirb: int
    const corb: array<u32>
    const rirb: array<u32>
    const threads: array<Option<Waiter>>
    var corbWp: bv16
    var entryFree: nat
    /** The number of verbs sent so far. */
    ghost var sent: nat

    ghost predicate Valid()
      reads this
    {
      RingEntries(corbCount) && RingEntries(rirbCount) &&
      corb.Length == corbCount && rirb.Length == rirbCount &&
      threads.Length == rirbCount && corb != rirb &&
      corbPtr == CorbPtrAfter(sent, corbCount) &&
      rirbPtr == RirbPtrAfter(sent, rirbCount) &&
      0 <= lastProcessedRirb < rirbCount &&
      entryFree <= rirbCount
    }

    /** The command-ring part of initcontroller (hda.c:1589-1591, 1715-1719),
        with the ring sizes chosen by SelectRingSize. */
    constructor (corbEntries: nat, rirbEntries: nat, corbWpReg: bv16)
      requires RingEntries(corbEntries) && RingEntries(rirbEntries)
      ensures Valid()
      ensures corbCount == corbEntries && rirbCount == rirbEntries
      ensures corbPtr == 0 && rirbPtr == 0 && lastProcessedRirb == 1
      ensures sent == 0 && entryFree == rirbEntries && corbWp == corbWpReg
      ensures forall i :: 0 <= i < threads.Length ==> threads[i].None?
      ensures fresh(corb) && fresh(rirb) && fresh(threads)
    {
      corbCount := corbEntries;
      rirbCount := rirbEntries;
      corbPtr := 0;
      rirbPtr := 0;
      lastProcessedRirb := 1;
      corb := new u32[corbEntries];
      rirb := new u32[rirbEntries];
      threads := new Option<Waiter>[rirbEntries](_ => None);
      corbWp := corbWpReg;
      entryFree := rirbEntries;
      sent := 0;
    }

    /** hdasendverbandwait up to the point where the thread sleeps
        (hda.c:304-327): the verb goes to CORB entry `sent` mod corbCount,
        CORBWP is pointed at it, and the calling thread becomes the waiter of
        RIRB entry `sent` mod rirbCount, whose index is returned. The blocking
        wait on `entrysem` is the precondition that a slot is free. */
    method PostVerb(verb: u32, self: Waiter) returns (slot: nat)
      requires Valid() && entryFree > 0
      modifies this, corb, threads
      ensures Valid()
      ensures sent == old(sent) + 1 && entryFree == old(entryFree) - 1
      ensures slot == sent % rirbCount
      ensures corb[..] == old(corb[..])[sent % corbCount := verb]
      ensures threads[..] == old(threads[..])[slot := Some(self)]
      ensures corbWp == CorbWpSetWp(old(corbWp), (sent % corbCount) as bv16)
      ensures lastProcessedRirb == old(lastProcessedRirb)
    {
      RirbPtrStep(sent, rirbCount);
      CorbPtrStep(sent, corbCount);
      entryFree := entryFree - 1;
      rirbPtr := rirbPtr + 1;
      var rirbSlot: u8 := rirbPtr;
      corbPtr := (corbPtr + 1) % 0x1_0000_0000;
      corb[corbPtr] := verb;
      corbWp := CorbWpSetWp(corbWp, corbPtr as bv16);
      if corbPtr == corbCount - 1 {
        corbPtr := U32_MAX;
      }
      if rirbPtr == rirbCount - 1 {
        rirbPtr := U32ToInt(U32_MAX);
      }
      threads[rirbSlot] := Some(self);
      sent := sent + 1;
      slot := rirbSlot;
    }

    /** hdasendverbandwait after the thread is woken (hda.c:329-333): the
        response is read from the RIRB entry of its slot and the `entrysem`
        slot is released. */
    method TakeResponse(slot: nat) returns (resp: u32)
      requires Valid() && slot < rirbCount && entryFree < rirbCount
      modifies this
      ensures Valid()
      ensures resp == rirb[slot]
      ensures entryFree == old(entryFree) + 1
      ensures sent == old(sent) && corbPtr == old(corbPtr) && rirbPtr == old(rirbPtr)
      ensures lastProcessedRirb == old(lastProcessedRirb) && corbWp == old(corbWp)
    {
      resp := rirb[slot];
      entryFree := entryFree + 1;
    }

    /** The wake loop of hda_irq (hda.c:1227-1240): every slot of the
        inclusive cyclic span from lastprocessedrirb to the write pointer is
        visited in order and its waiter woken; a slot without a waiter stops
        the walk with a panic. The write pointer is an entry of the ring,
        which the controller guarantees. */
    method Walk(wp: nat) returns (r: Result<seq<Waiter>, IrqPanic>)
      requires Valid() && wp < rirbCount
      ensures r == Wake(threads[..], Span(lastProcessedRirb, wp, rirbCount))
    {
      ghost var t := threads[..];
      ghost var span := Span(lastProcessedRirb, wp, rirbCount);
      ghost var j := 0;
      SpanEnds(lastProcessedRirb, wp, rirbCount);
      SpanDistinct(lastProcessedRirb, wp, rirbCount);
      var i := lastProcessedRirb;
      var woken := [];
      while true
        invariant 0 <= j < |span| && i == span[j]
        invariant Wake(t, span[..j]) == Ok(woken)
        decreases |span| - j
      {
        if threads[i].None? {
          WakeStops(t, span, j);
          return Panic(NoWaiter(i));
        }
        WakeSnoc(t, span, j);
        woken := woken + [threads[i].value];
        if i == wp {
          break;
        }
        SpanNext(lastProcessedRirb, wp, rirbCount, j);
        i := i + 1;
        if i == rirbCount {
          i := 0;
        }
        j := j + 1;
      }
      assert span[..j + 1] == span;
      return Ok(woken);
    }

    /** The response branch of hda_irq (hda.c:1224-1246): the walk, after
        which lastprocessedrirb becomes the write pointer. */
    method WakeResponders(wp: nat) returns (r: Result<seq<Waiter>, IrqPanic>)
      requires Valid() && wp < rirbCount
      modifies this
      ensures Valid()
      ensures r == Wake(threads[..], Span(old(lastProcessedRirb), wp, rirbCount))
      ensures lastProcessedRirb == if r.Ok? then wp else old(lastProcessedRirb)
      ensures sent == old(sent) && corbPtr == old(corbPtr) && rirbPtr == old(rirbPtr)
      ensures entryFree == old(entryFree) && corbWp == old(corbWp)
    {
      r := Walk(wp);
      if r.Ok? {
        lastProcessedRirb := wp;
      }
    }

    /** hda_irq (hda.c:1220-1270): a response interrupt wakes the waiters of
        the reported responses and acknowledges RIRBSTS; any other interrupt
        services the signalled streams. */
    method HandleInterrupt(rirbSts: bv8, rirbWpReg: bv16, intSts: bv32, inCount: nat, outCount: nat, biCount: nat)
      returns (r: Result<IrqOutcome, IrqPanic>)
      requires Valid() && inCount + outCount + biCount <= 30
      requires RirbStsIntFl(rirbSts) ==> RirbWpWp(rirbWpReg) < rirbCount
      modifies this
      ensures Valid()
      ensures RirbStsIntFl(rirbSts) ==>
        var w := Wake(threads[..], Span(old(lastProcessedRirb), RirbWpWp(rirbWpReg), rirbCount));
        (w.Ok? ==> r == Ok(Responses(w.value, RirbStsClearIntFl(rirbSts))) &&
                   lastProcessedRirb == RirbWpWp(rirbWpReg)) &&
        (w.Panic? ==> r == Panic(w.reason))
      ensures !RirbStsIntFl(rirbSts) ==>
        r == Ok(Streams(Signalled(intSts, inCount, outCount, inCount + outCount + biCount))) &&
        lastProcessedRirb == old(lastProcessedRirb)
      ensures sent == old(sent) && corbPtr == old(corbPtr) && rirbPtr == old(rirbPtr)
      ensures entryFree == old(entryFree) && corbWp == old(corbWp)
    {
      if rirbSts & 1 == 1 {
        var wp := RirbWpWp(rirbWpReg);
        var w := WakeResponders(wp);
        if w.Panic? {
          return Panic(w.reason);
        }
        var sts := RirbStsClearIntFl(rirbSts);
        r := Ok(Responses(w.value, sts));
      } else {
        var streams := SignalledStreams(intSts, inCount, outCount, biCount);
        r := Ok(Streams(streams));
      }
    }
  }
}
