/** Binary search for a slot in the SlotHashes sysvar: an entry count, then (slot, hash) newest first. */
module SlotHash {
  import opened Bytes
  import opened Wrappers
  import opened Errors

  const ENTRY_LEN := 40

  type Hash = h: seq<byte> | |h| == 32 witness seq(32, _ => 0)

  datatype Entry = Entry(slot: u64, hash: Hash)

  function Count(data: seq<byte>): nat
    requires |data| >= 8
  {
    LeValue(data[..8])
  }

  /** The bytes hold every entry the count announces. */
  predicate WellFormed(data: seq<byte>) {
    |data| >= 8 && Count(data) > 0 && 8 + Count(data) * ENTRY_LEN <= |data|
  }

  lemma {:induction false} EntryInBounds(data: seq<byte>, i: nat)
    requires WellFormed(data) && i < Count(data)
    ensures 0 <= 8 + i * ENTRY_LEN <= 8 + i * ENTRY_LEN + 40 <= |data|
  {
  }

  function SlotAt(data: seq<byte>, i: nat): nat
    requires WellFormed(data) && i < Count(data)
  {
    LeValue(data[8 + i * ENTRY_LEN..8 + i * ENTRY_LEN + 8])
  }

  function HashAt(data: seq<byte>, i: nat): seq<byte>
    requires WellFormed(data) && i < Count(data)
  {
    data[8 + i * ENTRY_LEN + 8..8 + i * ENTRY_LEN + 40]
  }

  ghost predicate StrictlyDescending(data: seq<byte>)
    requires WellFormed(data)
  {
    forall i, j {:trigger SlotAt(data, i), SlotAt(data, j)} ::
      0 <= i < j < Count(data) ==> SlotAt(data, i) > SlotAt(data, j)
  }

  ghost predicate Holds(data: seq<byte>, slot: u64, hash: seq<byte>)
    requires WellFormed(data)
  {
    exists i {:trigger SlotAt(data, i)} :: 0 <= i < Count(data) && SlotAt(data, i) == slot && HashAt(data, i) == hash
  }

  /**
   * Whatever the bytes, a returned hash is stored for the slot. When the entries descend, it is the
   * only one stored for it, and the search fails only if there is none. The size computation may
   * overflow, which aborts the instruction.
   */
  method FetchSlotHash(data: seq<byte>, slot: u64) returns (r: Result<seq<byte>, PhygitalError>)
    ensures |data| < 8 ==> r == Err(InvalidSysvarDataFormat)
    ensures |data| >= 8 && 8 + Count(data) * ENTRY_LEN >= TWO_64 ==> r == Err(Runtime)
    ensures |data| >= 8 && !WellFormed(data) && 8 + Count(data) * ENTRY_LEN < TWO_64
            ==> r == Err(InvalidSysvarDataFormat)
    ensures WellFormed(data) && 8 + Count(data) * ENTRY_LEN < TWO_64 ==>
              && (r.Ok? ==> Holds(data, slot, r.value))
              && (r.Err? ==> r.error == InvalidSlotHash)
    ensures WellFormed(data) && 8 + Count(data) * ENTRY_LEN < TWO_64 && StrictlyDescending(data) ==>
              forall hash :: Holds(data, slot, hash) <==> r == Ok(hash)
  {
    hide LeValue;
    if |data| < 8 {
      return Err(InvalidSysvarDataFormat);
    }
    var count := LeValue(data[..8]);
    assert count == Count(data);
    if count > 0 && 8 + count * ENTRY_LEN >= TWO_64 {
      return Err(Runtime);
    }
    if count == 0 || 8 + count * ENTRY_LEN > |data| {
      return Err(InvalidSysvarDataFormat);
    }
    var left, right := 0, count;
    while left < right
      invariant 0 <= left <= right <= count
      invariant StrictlyDescending(data) ==> forall i :: 0 <= i < left ==> SlotAt(data, i) > slot
      invariant StrictlyDescending(data) ==> forall i :: right <= i < count ==> SlotAt(data, i) < slot
      decreases right - left
    {
      var mid := left + (right - left) / 2;
      var pos := 8 + mid * ENTRY_LEN;
      EntryInBounds(data, mid);
      var found := LeValue(data[pos..pos + 8]);
      assert found == SlotAt(data, mid);
      if found == slot {
        assert data[pos + 8..pos + 40] == HashAt(data, mid);
        return Ok(data[pos + 8..pos + 40]);
      } else if found > slot {
        left := mid + 1;
      } else {
        right := mid;
      }
    }
    r := Err(InvalidSlotHash);
  }

  // ---------------------------------------------------------------- the sysvar's own encoding

  function EncodeEntry(e: Entry): (b: seq<byte>)
    ensures |b| == ENTRY_LEN
  {
    Le(e.slot, 8) + e.hash
  }

  function EncodeEntries(entries: seq<Entry>): (b: seq<byte>)
    ensures |b| == |entries| * ENTRY_LEN
  {
    if entries == [] then []
    else EncodeEntries(entries[..|entries| - 1]) + EncodeEntry(entries[|entries| - 1])
  }

  function Sysvar(entries: seq<Entry>): seq<byte> {
    Le(|entries|, 8) + EncodeEntries(entries)
  }

  lemma {:induction false} EntrySits(entries: seq<Entry>, i: nat)
    requires i < |entries|
    ensures (i + 1) * ENTRY_LEN <= |EncodeEntries(entries)|
    ensures EncodeEntries(entries)[i * ENTRY_LEN..(i + 1) * ENTRY_LEN] == EncodeEntry(entries[i])
    decreases |entries|
  {
    var n := |entries| - 1;
    var head := EncodeEntries(entries[..n]);
    var last := EncodeEntry(entries[n]);
    assert EncodeEntries(entries) == head + last;
    if i < n {
      EntrySits(entries[..n], i);
      assert (head + last)[i * ENTRY_LEN..(i + 1) * ENTRY_LEN] == head[i * ENTRY_LEN..(i + 1) * ENTRY_LEN];
    } else {
      assert (head + last)[i * ENTRY_LEN..(i + 1) * ENTRY_LEN] == last;
    }
  }

  /** What the search reads at position i of an encoded sysvar, trailing bytes or not, is its i-th entry. */
  lemma {:induction false} SysvarReads(entries: seq<Entry>, rest: seq<byte>, i: nat)
    requires i < |entries| < TWO_64
    ensures var data := Sysvar(entries) + rest;
            && WellFormed(data) && Count(data) == |entries|
            && SlotAt(data, i) == entries[i].slot && HashAt(data, i) == entries[i].hash
  {
    hide LeValue, Le, EncodeEntries;
    var data := Sysvar(entries) + rest;
    var body := EncodeEntries(entries);
    assert data[..8] == Le(|entries|, 8);
    U64RoundTrip(|entries|);
    EntrySits(entries, i);
    var at := 8 + i * ENTRY_LEN;
    EntryInBounds(data, i);
    assert data[at..at + 40] == body[i * ENTRY_LEN..(i + 1) * ENTRY_LEN];
    assert data[at..at + 8] == data[at..at + 40][..8] == Le(entries[i].slot, 8);
    assert data[at + 8..at + 40] == data[at..at + 40][8..] == entries[i].hash;
    U64RoundTrip(entries[i].slot);
  }

  ghost predicate NewestFirst(entries: seq<Entry>) {
    forall i, j :: 0 <= i < j < |entries| ==> entries[i].slot > entries[j].slot
  }

  /** An encoded sysvar holds exactly its entries, and descends when they do. */
  lemma {:induction false} SysvarHoldsItsEntries(entries: seq<Entry>, rest: seq<byte>, slot: u64, hash: Hash)
    requires 0 < |entries| < TWO_64
    ensures var data := Sysvar(entries) + rest;
            && WellFormed(data)
            && (Holds(data, slot, hash) <==> Entry(slot, hash) in entries)
            && (StrictlyDescending(data) <==> NewestFirst(entries))
  {
    hide Sysvar, SlotAt, HashAt;
    var data := Sysvar(entries) + rest;
    SysvarReads(entries, rest, 0);
    forall i: nat | i < |entries|
      ensures SlotAt(data, i) == entries[i].slot && HashAt(data, i) == entries[i].hash
    {
      SysvarReads(entries, rest, i);
    }
    if Entry(slot, hash) in entries {
      var i :| 0 <= i < |entries| && entries[i] == Entry(slot, hash);
      assert SlotAt(data, i) == slot;
    }
  }
}
