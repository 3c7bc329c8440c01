/** The connection-list decode of hdaenumeratecodec (hda.c:607-669): the
    short-form connection list of section 7.3.3.3 of the Intel High
    Definition Audio Specification rev. 1.0a, read four entries per
    GET_CONN_LIST_ENTRY response, with range entries expanded. */
module HdaConnections {
  import opened HdaTypes

  /** hdawidgetconnection_t: a connected widget and the index of the
      list entry that names it (the value SET_CONNECTION selects it by). */
  datatype Connection = Connection(nid: u8, selectorIndex: u8)

  /** The `__assert`s of the decode that can fail. */
  datatype ConnListPanic =
    | LongForm          // bit 7 of the list length: long-form entries
    | RangeFirst        // a range entry at position 0
    | RangeAfterRange   // a range entry right after another range entry
    | RangeDescending   // a range ending below the entry before it

  /** Bit 7 of a short-form entry marks a range from the previous entry. */
  predicate IsRange(b: u8) { b >= 0x80 }

  /** Bits 0-6 of a short-form entry: the node id it names. */
  function EntryNid(b: u8): u8 { b % 0x80 }

  /** Entry k of the list: byte k % 4 of the response to the read at the
      offset k - k % 4. */
  function ListByte(responses: seq<bv32>, k: nat): u8
    requires k / 4 < |responses|
  {
    ByteOf(responses[k / 4], k % 4)
  }

  /** Byte i of a response, `(value >> (i * 8)) & 0xff`. */
  function ByteOf(value: bv32, i: nat): u8
    requires i < 4
  {
    var shifted := if i == 0 then value else if i == 1 then value >> 8 else if i == 2 then value >> 16 else value >> 24;
    (shifted & 0xff) as u8
  }

  /** The first `len` entries the responses carry. */
  function Entries(responses: seq<bv32>, len: nat): (e: seq<u8>)
    requires (len + 3) / 4 <= |responses|
    ensures |e| == len
  {
    if len == 0 then [] else Entries(responses, len - 1) + [ListByte(responses, len - 1)]
  }

  lemma {:induction false} EntriesAt(responses: seq<bv32>, len: nat, k: nat)
    requires (len + 3) / 4 <= |responses| && k < len
    ensures Entries(responses, len)[k] == ListByte(responses, k)
    decreases len
  {
    if k < len - 1 {
      EntriesAt(responses, len - 1, k);
    }
  }

  /** The assert entry k trips, if any (hda.c:624-627). */
  function RangeCheck(e: seq<u8>, k: nat): Option<ConnListPanic>
    requires k < |e|
  {
    if !IsRange(e[k]) then None
    else if k == 0 then Some(RangeFirst)
    else if IsRange(e[k - 1]) then Some(RangeAfterRange)
    else if EntryNid(e[k]) < e[k - 1] then Some(RangeDescending)
    else None
  }

  /** The first assert the first k entries trip, scanning in list order. */
  function FirstPanic(e: seq<u8>, k: nat): Option<ConnListPanic>
    requires k <= |e|
  {
    if k == 0 then None
    else
      var p := FirstPanic(e, k - 1);
      if p.Some? then p else RangeCheck(e, k - 1)
  }

  /** None of the first k entries trips an assert. */
  predicate WellFormed(e: seq<u8>, k: nat) {
    k <= |e| && forall j | 0 <= j < k :: RangeCheck(e, j).None?
  }

  /** The number of connections entry k adds (hda.c:624-634): one for a
      node id, and the distance from the previous entry for a range. */
  function EntryCount(e: seq<u8>, k: nat): nat
    requires k < |e| && RangeCheck(e, k).None?
  {
    if IsRange(e[k]) then EntryNid(e[k]) - e[k - 1] else 1
  }

  /** The count the first pass accumulates in connectioncount over the
      first k entries. */
  function ListCount(e: seq<u8>, k: nat): nat
    requires WellFormed(e, k)
  {
    if k == 0 then 0 else ListCount(e, k - 1) + EntryCount(e, k - 1)
  }

  /** The node ids entry k stands for: itself, or for a range the ids after
      the previous entry up to the range's end. */
  function EntryNids(e: seq<u8>, k: nat): (nids: seq<u8>)
    requires k < |e| && RangeCheck(e, k).None?
    ensures |nids| == EntryCount(e, k)
  {
    if IsRange(e[k]) then
      seq(EntryNid(e[k]) - e[k - 1], t requires 0 <= t < EntryNid(e[k]) - e[k - 1] => (e[k - 1] + 1 + t) as u8)
    else [e[k]]
  }

  /** The node ids of the first k entries, range entries expanded. */
  function ExpandNids(e: seq<u8>, k: nat): seq<u8>
    requires WellFormed(e, k)
  {
    if k == 0 then [] else ExpandNids(e, k - 1) + EntryNids(e, k - 1)
  }

  /** The connections array after a range's inner loop has run m times
      (hda.c:648-656): m new elements carry the ids after `start` and keep
      the selector byte the allocator left, and, because the selector is
      stored through `connections` rather than `connection`, element 0's
      selector becomes the position before the range. */
  function RangeWritten(prev: seq<Connection>, start: int, m: nat, i: int, uninit: nat -> Connection): (s: seq<Connection>)
    requires 0 <= start && start + m < 0x100
    ensures |s| == |prev| + m
  {
    var s := prev + seq(m, t requires 0 <= t < m => Connection((start + 1 + t) as u8, uninit(|prev| + t).selectorIndex));
    if m > 0 then s[0 := Connection(s[0].nid, ToU8(i - 1))] else s
  }

  /** The connections the second pass writes for the first k entries
      (hda.c:643-664); `uninit` is the content of the freshly allocated
      connections array. */
  function DecodePrefix(e: seq<u8>, uninit: nat -> Connection, k: nat): (s: seq<Connection>)
    requires WellFormed(e, k)
    ensures |s| == ListCount(e, k)
  {
    if k == 0 then []
    else
      var prev := DecodePrefix(e, uninit, k - 1);
      var i := k - 1;
      assert RangeCheck(e, i).None?;
      if IsRange(e[i]) then RangeWritten(prev, e[i - 1], EntryCount(e, i), i, uninit)
      else prev + [Connection(e[i], ToU8(i))]
  }

  // Facts about prefixes.

  lemma {:induction false} FirstPanicNone(e: seq<u8>, k: nat)
    requires k <= |e|
    ensures FirstPanic(e, k).None? <==> WellFormed(e, k)
  {
    if k > 0 {
      FirstPanicNone(e, k - 1);
    }
  }

  lemma {:induction false} FirstPanicExtends(e: seq<u8>, q: nat, k: nat)
    requires q <= k <= |e| && FirstPanic(e, q).Some?
    ensures FirstPanic(e, k) == FirstPanic(e, q)
    decreases k - q
  {
    if q < k {
      FirstPanicExtends(e, q, k - 1);
    }
  }

  lemma {:induction false} ListCountMonotone(e: seq<u8>, j: nat, k: nat)
    requires WellFormed(e, k) && j <= k
    ensures ListCount(e, j) <= ListCount(e, k)
    decreases k - j
  {
    if j < k {
      ListCountMonotone(e, j, k - 1);
    }
  }

  lemma {:induction false} RangeWrittenStep(prev: seq<Connection>, start: int, m: nat, i: int, uninit: nat -> Connection)
    requires 0 <= start && start + m + 1 < 0x100
    ensures var s := RangeWritten(prev, start, m, i, uninit) + [Connection((start + 1 + m) as u8, uninit(|prev| + m).selectorIndex)];
      RangeWritten(prev, start, m + 1, i, uninit) == s[0 := Connection(s[0].nid, ToU8(i - 1))]
  {
  }

  lemma {:induction false} ListByteOfRead(responses: seq<bv32>, read: nat, i: nat)
    requires i < 4 && read < |responses|
    ensures ByteOf(responses[read], i) == ListByte(responses, 4 * read + i)
  {
    assert (4 * read + i) / 4 == read && (4 * read + i) % 4 == i;
  }

  /** The entries the response with index `read` carries. */
  lemma {:induction false} ChunkEntries(responses: seq<bv32>, len: nat, read: nat, toRead: nat)
    requires (len + 3) / 4 <= |responses| && read < |responses|
    requires toRead <= 4 && 4 * read + toRead <= len
    ensures forall i | 0 <= i < toRead :: Entries(responses, len)[4 * read + i] == ByteOf(responses[read], i)
  {
    forall i | 0 <= i < toRead ensures Entries(responses, len)[4 * read + i] == ByteOf(responses[read], i) {
      ListByteOfRead(responses, read, i);
      EntriesAt(responses, len, 4 * read + i);
    }
  }

  /** The first failing entry decides the panic of the whole list. */
  lemma {:induction false} PanicAt(e: seq<u8>, k: nat)
    requires k < |e| && WellFormed(e, k) && RangeCheck(e, k).Some?
    ensures FirstPanic(e, |e|) == RangeCheck(e, k)
  {
    FirstPanicNone(e, k);
    FirstPanicExtends(e, k + 1, |e|);
  }

  /** The entries of one GET_CONN_LIST_ENTRY response, stored into `tmp`
      from `readOffset` on and checked (hda.c:616-637): either the count
      grows by what the entries add, or the first failing assert is
      reported. */
  method ReadResponse(tmp: array<u8>, readOffset: nat, toRead: nat, value: bv32, count: nat, ghost e: seq<u8>)
    returns (r: Result<nat, ConnListPanic>)
    modifies tmp
    requires 0 < toRead <= 4 && readOffset + toRead <= tmp.Length == |e|
    requires forall i | 0 <= i < toRead :: e[readOffset + i] == ByteOf(value, i)
    requires forall j | 0 <= j < readOffset :: tmp[j] == e[j]
    requires WellFormed(e, readOffset) && count == ListCount(e, readOffset)
    ensures r.Panic? ==> FirstPanic(e, |e|) == Some(r.reason)
    ensures r.Ok? ==> forall j | 0 <= j < readOffset + toRead :: tmp[j] == e[j]
    ensures r.Ok? ==> WellFormed(e, readOffset + toRead) && r.value == ListCount(e, readOffset + toRead)
  {
    var count: nat := count;
    var i := 0;
    while i < toRead
      invariant 0 <= i <= toRead
      invariant forall j | 0 <= j < readOffset + i :: tmp[j] == e[j]
      invariant WellFormed(e, readOffset + i) && count == ListCount(e, readOffset + i)
    {
      var k := readOffset + i;
      ghost var count0 := count;
      var entry := ByteOf(value, i);
      tmp[k] := entry;
      if IsRange(entry) {
        if k == 0 {
          PanicAt(e, k);
          return Panic(RangeFirst);
        }
        var before := tmp[k - 1];
        if IsRange(before) {
          PanicAt(e, k);
          return Panic(RangeAfterRange);
        }
        if EntryNid(entry) < before {
          PanicAt(e, k);
          return Panic(RangeDescending);
        }
        var rangeCount := ToU8(EntryNid(entry) - before);
        count := count + rangeCount;
      } else {
        count := count + 1;
      }
      assert RangeCheck(e, k).None? && count == count0 + EntryCount(e, k);
      i := i + 1;
    }
    return Ok(count);
  }

  /** The first pass (hda.c:614-638): the entries are read four per
      response into `tmp`, each range entry is checked by the asserts, and
      connectioncount sums what each entry adds. */
  method ReadConnectionList(len: nat, responses: seq<bv32>) returns (r: Result<(seq<u8>, nat), ConnListPanic>)
    requires (len + 3) / 4 <= |responses|
    ensures var e := Entries(responses, len);
      var p := FirstPanic(e, len);
      (p.Some? ==> r == Panic(p.value)) &&
      (p.None? ==> WellFormed(e, len) && r == Ok((e, ListCount(e, len))))
  {
    ghost var e := Entries(responses, len);
    var tmp := new u8[len];
    var count: nat := 0;
    var readOffset := 0;
    ghost var readCount := 0;
    while readOffset < len
      invariant 0 <= readOffset <= len && (readOffset == len || readOffset == 4 * readCount)
      invariant forall j | 0 <= j < readOffset :: tmp[j] == e[j]
      invariant WellFormed(e, readOffset) && count == ListCount(e, readOffset)
    {
      // The read at offset readOffset is the response with index readCount.
      ReadIndex(len, readCount);
      var value := responses[readOffset / 4];
      var toRead := if len - readOffset < 4 then len - readOffset else 4;
      ChunkEntries(responses, len, readCount, toRead);
      var read := ReadResponse(tmp, readOffset, toRead, value, count, e);
      if read.Panic? {
        return Panic(read.reason);
      }
      count := read.value;
      readOffset := readOffset + toRead;
      readCount := readCount + 1;
    }
    assert tmp[..] == e;
    FirstPanicNone(e, len);
    return Ok((tmp[..], count));
  }

  lemma {:induction false} ReadIndex(len: nat, readCount: nat)
    requires 4 * readCount < len
    ensures readCount < (len + 3) / 4 && (4 * readCount) / 4 == readCount
  {
  }

  /** The inner loop of the second pass for a range entry at position i
      (hda.c:648-656): one element per id after `start` up to `end`, each
      store of the selector going to element 0. */
  method ExpandRange(connections: array<Connection>, offset: nat, start: nat, end: nat, i: int, ghost uninit: nat -> Connection)
    returns (newOffset: nat)
    modifies connections
    requires start <= end < 0x80 && offset + (end - start) <= connections.Length
    requires forall t | offset <= t < connections.Length :: connections[t] == uninit(t)
    ensures newOffset == offset + (end - start)
    ensures connections[..newOffset] == RangeWritten(old(connections[..offset]), start, end - start, i, uninit)
    ensures forall t | newOffset <= t < connections.Length :: connections[t] == uninit(t)
  {
    ghost var prev := connections[..offset];
    newOffset := offset;
    var j := start + 1;
    while j <= end
      invariant start + 1 <= j <= end + 1
      invariant newOffset == offset + (j - start - 1)
      invariant connections[..newOffset] == RangeWritten(prev, start, j - start - 1, i, uninit)
      invariant forall t | newOffset <= t < connections.Length :: connections[t] == uninit(t)
    {
      RangeWrittenStep(prev, start, j - start - 1, i, uninit);
      connections[newOffset] := Connection(j as u8, connections[newOffset].selectorIndex);
      newOffset := newOffset + 1;
      connections[0] := Connection(connections[0].nid, ToU8(i - 1));
      j := j + 1;
    }
  }

  /** One turn of the second pass (hda.c:645-663): entry i is written to the
      connections array, a range expanded. */
  method ExpandEntry(connections: array<Connection>, tmp: seq<u8>, i: nat, offset: nat, ghost uninit: nat -> Connection)
    returns (newOffset: nat)
    modifies connections
    requires |tmp| < 0x80 && i < |tmp| && WellFormed(tmp, |tmp|)
    requires offset == ListCount(tmp, i) && ListCount(tmp, i + 1) <= connections.Length
    requires connections[..offset] == DecodePrefix(tmp, uninit, i)
    requires forall t | offset <= t < connections.Length :: connections[t] == uninit(t)
    ensures newOffset == ListCount(tmp, i + 1)
    ensures connections[..newOffset] == DecodePrefix(tmp, uninit, i + 1)
    ensures forall t | newOffset <= t < connections.Length :: connections[t] == uninit(t)
  {
    assert RangeCheck(tmp, i).None?;
    var entry := tmp[i];
    if IsRange(entry) {
      newOffset := ExpandRange(connections, offset, tmp[i - 1], EntryNid(entry), i, uninit);
    } else {
      connections[offset] := Connection(entry, ToU8(i));
      newOffset := offset + 1;
      assert connections[..newOffset] == DecodePrefix(tmp, uninit, i) + [Connection(entry, ToU8(i))];
    }
  }

  /** The second pass (hda.c:640-666): the connections array of the first
      pass's size is filled entry by entry, ranges expanded, and the
      asserted total `offset == connectioncount` holds. */
  method ExpandConnectionList(tmp: seq<u8>, count: nat, uninit: nat -> Connection) returns (conns: seq<Connection>)
    requires |tmp| < 0x80 && WellFormed(tmp, |tmp|) && count == ListCount(tmp, |tmp|)
    ensures conns == DecodePrefix(tmp, uninit, |tmp|)
  {
    var len := |tmp|;
    var connections := new Connection[count](t => uninit(t));
    var offset := 0;
    var i := 0;
    while i < len
      invariant 0 <= i <= len
      invariant offset == ListCount(tmp, i) <= count
      invariant connections[..offset] == DecodePrefix(tmp, uninit, i)
      invariant forall t | offset <= t < count :: connections[t] == uninit(t)
    {
      ListCountMonotone(tmp, i + 1, len);
      offset := ExpandEntry(connections, tmp, i, offset, uninit);
      i := i + 1;
    }
    assert offset == count;
    assert connections[..] == connections[..offset];
    return connections[..];
  }

  /** The connection-list decode of hdaenumeratecodec (hda.c:607-669) for a
      widget whose capabilities announce a list (`present`) of `connListLen`
      entries; `responses` are the answers to the GET_CONN_LIST_ENTRY reads
      at offsets 0, 4, 8, ... and `uninit` the content of the freshly
      allocated connections array. A widget without a list has no
      connections; otherwise the decode stops at the first failing assert. */
  method DecodeConnectionList(present: bool, connListLen: u8, responses: seq<bv32>, uninit: nat -> Connection)
    returns (r: Result<seq<Connection>, ConnListPanic>)
    requires present && 0 < connListLen < 0x80 ==> (connListLen + 3) / 4 <= |responses|
    ensures !present || connListLen == 0 ==> r == Ok([])
    ensures present && connListLen >= 0x80 ==> r == Panic(LongForm)
    ensures present && 0 < connListLen < 0x80 ==>
      var e := Entries(responses, connListLen);
      var p := FirstPanic(e, |e|);
      (p.Some? ==> r == Panic(p.value)) &&
      (p.None? ==> WellFormed(e, |e|) && r == Ok(DecodePrefix(e, uninit, |e|)))
  {
    if !present || connListLen == 0 {
      return Ok([]);
    }
    if connListLen >= 0x80 {
      return Panic(LongForm);
    }
    var read := ReadConnectionList(connListLen, responses);
    if read.Panic? {
      return Panic(read.reason);
    }
    var (tmp, count) := read.value;
    var conns := ExpandConnectionList(tmp, count, uninit);
    return Ok(conns);
  }

  // What the decoded list holds.

  /** The node ids of a list of connections. */
  function Nids(cs: seq<Connection>): (nids: seq<u8>)
    ensures |nids| == |cs|
  {
    seq(|cs|, p requires 0 <= p < |cs| => cs[p].nid)
  }

  /** The decoded node ids are the entries with every range expanded, and
      there are exactly as many as the first pass counted. */
  lemma {:induction false} DecodedNids(e: seq<u8>, uninit: nat -> Connection, k: nat)
    requires WellFormed(e, k)
    ensures Nids(DecodePrefix(e, uninit, k)) == ExpandNids(e, k)
    ensures |ExpandNids(e, k)| == ListCount(e, k)
  {
    if k > 0 {
      DecodedNids(e, uninit, k - 1);
      assert RangeCheck(e, k - 1).None?;
      var prev := DecodePrefix(e, uninit, k - 1);
      var s := DecodePrefix(e, uninit, k);
      var nids := ExpandNids(e, k);
      assert |nids| == ListCount(e, k);
      forall p | 0 <= p < |s| ensures s[p].nid == nids[p] {
        if p < |prev| {
          assert s[p].nid == prev[p].nid;
          assert nids[p] == ExpandNids(e, k - 1)[p];
        }
      }
    }
  }

  /** Elements written for earlier entries keep their place, except that
      element 0 may have its selector replaced. */
  lemma {:induction false} DecodeStable(e: seq<u8>, uninit: nat -> Connection, m: nat, k: nat)
    requires WellFormed(e, k) && m <= k
    ensures ListCount(e, m) <= ListCount(e, k)
    ensures forall p | 0 < p < ListCount(e, m) :: DecodePrefix(e, uninit, k)[p] == DecodePrefix(e, uninit, m)[p]
    ensures ListCount(e, m) > 0 ==> DecodePrefix(e, uninit, k)[0].nid == DecodePrefix(e, uninit, m)[0].nid
    decreases k - m
  {
    if m < k {
      DecodeStable(e, uninit, m, k - 1);
      assert RangeCheck(e, k - 1).None?;
    }
  }

  /** A node-id entry at position j lands at the position the first pass had
      counted up to j, with selector j (for any position but 0). */
  lemma {:induction false} LiteralEntryDecodes(e: seq<u8>, uninit: nat -> Connection, k: nat, j: nat)
    requires WellFormed(e, k) && j < k && !IsRange(e[j])
    ensures ListCount(e, j) < ListCount(e, k)
    ensures var c := DecodePrefix(e, uninit, k)[ListCount(e, j)];
      c.nid == e[j] && (ListCount(e, j) > 0 ==> c.selectorIndex == ToU8(j))
  {
    DecodeStable(e, uninit, j + 1, k);
  }

  /** The t-th id of a range entry at position j lands after the elements
      counted before j; its selector is whatever the allocator left there. */
  lemma {:induction false} RangeEntryDecodes(e: seq<u8>, uninit: nat -> Connection, k: nat, j: nat, t: nat)
    requires WellFormed(e, k) && j < k && IsRange(e[j]) && RangeCheck(e, j).None? && t < EntryCount(e, j)
    ensures ListCount(e, j) + t < ListCount(e, k)
    ensures var p := ListCount(e, j) + t;
      var c := DecodePrefix(e, uninit, k)[p];
      c.nid as int == e[j - 1] + 1 + t && (p > 0 ==> c.selectorIndex == uninit(p).selectorIndex)
  {
    DecodeStable(e, uninit, j + 1, k);
  }

  /** The last range entry among the first k that adds connections, or -1. */
  function LastRange(e: seq<u8>, k: nat): int
    requires WellFormed(e, k)
  {
    if k == 0 then -1
    else if IsRange(e[k - 1]) && EntryCount(e, k - 1) > 0 then k - 1
    else LastRange(e, k - 1)
  }

  /** Element 0 (always the first entry's node id) carries selector 0 when
      no range adds connections, and otherwise the position before the last
      such range: the only selector the range loop stores lands there. */
  lemma {:induction false} FirstConnectionSelector(e: seq<u8>, uninit: nat -> Connection, k: nat)
    requires WellFormed(e, k) && k > 0
    ensures ListCount(e, k) > 0
    ensures DecodePrefix(e, uninit, k)[0].nid == e[0]
    ensures DecodePrefix(e, uninit, k)[0].selectorIndex == if LastRange(e, k) >= 0 then ToU8(LastRange(e, k) - 1) else 0
  {
    assert RangeCheck(e, k - 1).None?;
    if k > 1 {
      FirstConnectionSelector(e, uninit, k - 1);
    } else {
      assert RangeCheck(e, 0).None?;
    }
  }

  /** Without range entries the decode is one connection per entry, whose
      selector is its own position. */
  lemma {:induction false} NoRangesDecode(e: seq<u8>, uninit: nat -> Connection, k: nat)
    requires k <= |e| && forall j | 0 <= j < k :: !IsRange(e[j])
    ensures WellFormed(e, k)
    ensures DecodePrefix(e, uninit, k) == seq(k, j requires 0 <= j < k => Connection(e[j], ToU8(j)))
  {
    if k > 0 {
      NoRangesDecode(e, uninit, k - 1);
    }
  }
}
