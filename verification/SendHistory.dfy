/** The history of sent data: kept in memory, saved to and loaded from the registry. */
module SendHistory {
  import opened Bytes

  const MAX_MEMBLOCK_SIZE := 33554432     // kMAX_MEMBLOCK_SIZE
  const MAX_RECORDS := 64

  datatype Record = Record(encoding: int, data: seq<byte>)

  // ---- 32-bit integers in memory

  predicate IsInt32(n: int) {
    -0x8000_0000 <= n < 0x8000_0000
  }

  /** The four bytes of the int `n` is cast to, lowest first. */
  function Le32(n: int): (r: seq<byte>)
    ensures |r| == 4
  {
    [AsByte(n % 0x100), AsByte(n / 0x100 % 0x100), AsByte(n / 0x1_0000 % 0x100), AsByte(n / 0x100_0000 % 0x100)]
  }

  function Int32(s: seq<byte>, at: nat): int
    requires at + 4 <= |s|
  {
    Signed(s[at] as int + 0x100 * s[at + 1] as int + 0x1_0000 * s[at + 2] as int + 0x100_0000 * s[at + 3] as int)
  }

  function Signed(u: int): int {
    if u >= 0x8000_0000 then u - 0x1_0000_0000 else u
  }

  lemma Int32RoundTrip(front: seq<byte>, n: int, tail: seq<byte>)
    requires IsInt32(n)
    ensures Int32(front + Le32(n) + tail, |front|) == n
  {
    hide Le32;
    Int32Inside(front, Le32(n), tail);
    Le32Value(n);
  }

  lemma Int32Inside(front: seq<byte>, b: seq<byte>, tail: seq<byte>)
    requires |b| == 4
    ensures Int32(front + b + tail, |front|) == Int32(b, 0)
  {
    hide Signed;
    var s, at := front + b + tail, |front|;
    assert s[at] == b[0] && s[at + 1] == b[1] && s[at + 2] == b[2] && s[at + 3] == b[3];
  }

  lemma Le32Value(n: int)
    requires IsInt32(n)
    ensures Int32(Le32(n), 0) == n
  {
    hide AsByte, Signed;
    var a, b, c, d := n % 0x100, n / 0x100 % 0x100, n / 0x1_0000 % 0x100, n / 0x100_0000 % 0x100;
    ByteValue(a);
    ByteValue(b);
    ByteValue(c);
    ByteValue(d);
    FourDigits(n);
    assert Int32(Le32(n), 0) == Signed(a + 0x100 * b + 0x1_0000 * c + 0x100_0000 * d);
    SignedMod(n);
  }

  /** The lowest byte first, modulo 2^32. */
  lemma Le32Order(n: int)
    ensures var b := Le32(n);
      b[0] as int + b[1] as int * 0x100 + b[2] as int * 0x1_0000 + b[3] as int * 0x100_0000 == n % 0x1_0000_0000
  {
    hide AsByte;
    ByteValue(n % 0x100);
    ByteValue(n / 0x100 % 0x100);
    ByteValue(n / 0x1_0000 % 0x100);
    ByteValue(n / 0x100_0000 % 0x100);
    FourDigits(n);
  }

  lemma SignedMod(n: int)
    requires IsInt32(n)
    ensures Signed(n % 0x1_0000_0000) == n
  {
  }

  lemma FourDigits(n: int)
    ensures n % 0x100 + 0x100 * (n / 0x100 % 0x100) + 0x1_0000 * (n / 0x1_0000 % 0x100)
            + 0x100_0000 * (n / 0x100_0000 % 0x100) == n % 0x1_0000_0000
  {
    assert n / 0x1_0000 == n / 0x100 / 0x100 && n / 0x100_0000 == n / 0x1_0000 / 0x100;
    assert n / 0x1_0000_0000 == n / 0x100_0000 / 0x100;
  }

  // ---- what is saved

  function Entry(r: Record): seq<byte> {
    Le32(r.encoding) + Le32(|r.data|) + r.data
  }

  function Entries(records: seq<Record>): seq<byte> {
    if records == [] then [] else Entry(records[0]) + Entries(records[1..])
  }

  /** Byte by byte: encoding and size, the lowest byte first, then the data. */
  lemma EntryLayout(r: Record)
    ensures var b := Entry(r);
      && |b| == 8 + |r.data| && b[8..] == r.data
      && b[0] as int + b[1] as int * 0x100 + b[2] as int * 0x1_0000 + b[3] as int * 0x100_0000
         == r.encoding % 0x1_0000_0000
      && b[4] as int + b[5] as int * 0x100 + b[6] as int * 0x1_0000 + b[7] as int * 0x100_0000
         == |r.data| % 0x1_0000_0000
  {
    hide Le32;
    Le32Order(r.encoding);
    Le32Order(|r.data|);
  }

  lemma {:induction false} EntriesAppended(records: seq<Record>, r: Record)
    ensures Entries(records + [r]) == Entries(records) + Entry(r)
  {
    hide Entry;
    if records == [] {
      assert ([] + [r])[1..] == [] && Entries([r]) == Entry(r) + [];
    } else {
      assert (records + [r])[1..] == records[1..] + [r];
      EntriesAppended(records[1..], r);
    }
  }

  // ---- what is loaded

  /** The records, or what the code does not guard against: reading past the block, a negative size. */
  datatype Loaded = Records(records: seq<Record>) | Fault

  function Load(count: nat, data: seq<byte>): Loaded {
    if |data| > MAX_MEMBLOCK_SIZE then Records([]) else LoadFrom(data, 0, count)
  }

  /** The loop of LoadSendHistory from `ptr` on, with `count` records to go: it also ends where the block does. */
  function LoadFrom(data: seq<byte>, ptr: nat, count: nat): Loaded
    decreases count
  {
    if count == 0 then Records([])
    else if ptr + 4 > |data| then Fault
    else if ptr + 4 == |data| then Records([])
    else if ptr + 8 > |data| then Fault
    else if ptr + 8 == |data| then Records([])
    else
      var size := Int32(data, ptr + 4);
      if size > MAX_MEMBLOCK_SIZE then Records([])
      else if size < 0 || ptr + 8 + size > |data| then Fault
      else
        var r := Record(Int32(data, ptr), data[ptr + 8..ptr + 8 + size]);
        if ptr + 8 + size == |data| then Records([r]) else
        Prepended(r, LoadFrom(data, ptr + 8 + size, count - 1))
  }

  lemma EntryIsRead(front: seq<byte>, r: Record, tail: seq<byte>)
    requires IsInt32(r.encoding) && |r.data| <= MAX_MEMBLOCK_SIZE
    ensures var data := front + Entry(r) + tail; var ptr := |front|;
      && Int32(data, ptr) == r.encoding && Int32(data, ptr + 4) == |r.data|
      && data[ptr + 8..ptr + 8 + |r.data|] == r.data
  {
    hide Le32, Int32;
    var data := front + Entry(r) + tail;
    Int32RoundTrip(front, r.encoding, Le32(|r.data|) + r.data + tail);
    assert data == front + Le32(r.encoding) + (Le32(|r.data|) + r.data + tail);
    Int32RoundTrip(front + Le32(r.encoding), |r.data|, r.data + tail);
    assert data == (front + Le32(r.encoding)) + Le32(|r.data|) + (r.data + tail);
  }

  /** A block that ends inside an entry: between its parts the loop just ends, inside one it would leave the block. */
  lemma CutBlock(front: seq<byte>, r: Record, k: nat, count: nat)
    requires IsInt32(r.encoding) && |r.data| <= MAX_MEMBLOCK_SIZE && k < |Entry(r)| && count > 0
    ensures LoadFrom(front + Entry(r)[..k], |front|, count) == if k == 4 || k == 8 then Records([]) else Fault
  {
    hide Int32, Le32;
    EntrySize(r);
    var data := front + Entry(r)[..k];
    if k > 8 {
      EntryIsRead(front, r, []);
      SameInt32(front + Entry(r) + [], data, |front| + 4);
    }
  }

  lemma SameInt32(s: seq<byte>, t: seq<byte>, at: nat)
    requires at + 4 <= |s| && at + 4 <= |t| && s[at..at + 4] == t[at..at + 4]
    ensures Int32(s, at) == Int32(t, at)
  {
    hide Signed;
    var x, y := s[at..at + 4], t[at..at + 4];
    assert s[at] == x[0] && s[at + 1] == x[1] && s[at + 2] == x[2] && s[at + 3] == x[3];
    assert t[at] == y[0] && t[at + 1] == y[1] && t[at + 2] == y[2] && t[at + 3] == y[3];
  }

  /** A size over 32 MiB ends the loop; a negative one, or one past the end, would leave the block. */
  lemma BadSize(data: seq<byte>, ptr: nat, count: nat)
    requires count > 0 && ptr + 8 < |data|
    ensures var size := Int32(data, ptr + 4);
      && (size > MAX_MEMBLOCK_SIZE ==> LoadFrom(data, ptr, count) == Records([]))
      && (size < 0 || |data| - ptr - 8 < size <= MAX_MEMBLOCK_SIZE ==> LoadFrom(data, ptr, count) == Fault)
  {
    hide Int32;
  }

  /** All records come back, except the last one when it is empty. */
  function Survivors(records: seq<Record>): seq<Record> {
    if records != [] && records[|records| - 1].data == [] then records[..|records| - 1] else records
  }

  function Prepended(r: Record, rest: Loaded): Loaded {
    match rest
    case Records(records) => Records([r] + records)
    case Fault => Fault
  }

  lemma LoadStep(front: seq<byte>, r: Record, tail: seq<byte>, count: nat)
    requires IsInt32(r.encoding) && |r.data| <= MAX_MEMBLOCK_SIZE && count > 0
    ensures var data := front + Entry(r) + tail;
      LoadFrom(data, |front|, count) ==
      if tail != [] then Prepended(r, LoadFrom(data, |front + Entry(r)|, count - 1))
      else Records(if r.data == [] then [] else [r])
  {
    hide Int32, Le32;
    EntryIsRead(front, r, tail);
    EntrySize(r);
  }

  lemma {:induction false} LoadEntries(front: seq<byte>, records: seq<Record>)
    requires forall r :: r in records ==> IsInt32(r.encoding) && |r.data| <= MAX_MEMBLOCK_SIZE
    ensures LoadFrom(front + Entries(records), |front|, |records|) == Records(Survivors(records))
    decreases |records|
  {
    hide Entry, IsInt32;
    if records != [] {
      hide LoadFrom;
      var r, rest := records[0], records[1..];
      assert records == [r] + rest;
      assert front + Entries(records) == front + Entry(r) + Entries(rest);
      LoadStep(front, r, Entries(rest), |records|);
      if rest == [] {
        assert [r][..0] == [];
      } else {
        LoadEntries(front + Entry(r), rest);
        SomeEntries(rest);
        assert Survivors(records) == [r] + Survivors(rest);
      }
    }
  }

  /** What is loaded when `loaded` comes before it. */
  function Behind(loaded: seq<Record>, rest: Loaded): Loaded {
    match rest
    case Records(records) => Records(loaded + records)
    case Fault => Fault
  }

  lemma BehindNone(rest: Loaded)
    ensures Behind([], rest) == rest
  {
  }

  lemma BehindEnds(loaded: seq<Record>)
    ensures Behind(loaded, Records([])) == Records(loaded) && Behind(loaded, Fault) == Fault
  {
  }

  lemma BehindOneMore(loaded: seq<Record>, r: Record, rest: Loaded)
    ensures Behind(loaded, Prepended(r, rest)) == Behind(loaded + [r], rest)
    ensures Behind(loaded, Records([r])) == Records(loaded + [r])
  {
    if rest.Records? {
      assert loaded + ([r] + rest.records) == loaded + [r] + rest.records;
    }
  }

  lemma EntrySize(r: Record)
    ensures |Entry(r)| == 8 + |r.data|
  {
  }

  lemma SomeEntries(records: seq<Record>)
    requires records != []
    ensures |Entries(records)| >= 8
  {
    EntrySize(records[0]);
  }

  lemma {:induction false} EntriesBound(records: seq<Record>, r: Record)
    requires r in records
    ensures |r.data| <= |Entries(records)|
  {
    hide Entry;
    EntrySize(records[0]);
    if r != records[0] {
      EntriesBound(records[1..], r);
    }
  }

  /** Save and then load gives the history back exactly if it is empty, or fits into 32 MiB and does not end
      with an empty record. */
  lemma SaveThenLoad(records: seq<Record>)
    requires forall r :: r in records ==> IsInt32(r.encoding)
    ensures Load(|records|, Entries(records)) == Records(records) <==>
            records == [] || (|Entries(records)| <= MAX_MEMBLOCK_SIZE && records[|records| - 1].data != [])
  {
    hide Int32, Entry, LoadFrom, Entries;
    if |Entries(records)| <= MAX_MEMBLOCK_SIZE {
      forall r | r in records
        ensures |r.data| <= MAX_MEMBLOCK_SIZE
      {
        EntriesBound(records, r);
      }
      LoadEntries([], records);
      assert [] + Entries(records) == Entries(records);
    } else if records == [] {
      NoEntries();
    }
  }

  lemma NoEntries()
    ensures Entries([]) == []
  {
  }

  // ---- the history in memory

  ghost predicate Distinct(records: seq<Record>) {
    forall i, j :: 0 <= i < j < |records| ==> records[i] != records[j]
  }

  class History {
    var records: seq<Record>
    var savedData: seq<byte>      // the registry values HistoryData and HistoryCount
    var savedCount: nat

    /** Reachable by sends of non-empty data. */
    ghost predicate Valid()
      reads this
    {
      && Distinct(records) && |records| <= MAX_RECORDS
      && forall r :: r in records ==> IsInt32(r.encoding) && r.data != []
    }

    constructor ()
      ensures Valid() && records == []
    {
      records, savedData, savedCount := [], [], 0;
    }

    /** A repeated send changes nothing; a new one goes to the front, and the oldest is dropped past 64. */
    method Append(encoding: int, buffer: seq<byte>)
      requires Valid() && IsInt32(encoding) && buffer != []
      modifies this`records
      ensures Valid()
      ensures var r := Record(encoding, buffer);
        if r in old(records) then records == old(records)
        else records == [r] + old(records)[..Min(|old(records)|, MAX_RECORDS - 1)]
    {
      var history := Record(encoding, buffer);
      for i := 0 to |records|
        invariant records == old(records) && history !in records[..i]
      {
        if history == records[i] {
          return;
        }
        assert records[..i + 1] == records[..i] + [records[i]];
      }
      assert records[..|records|] == records;
      records := [history] + records;
      if |records| > MAX_RECORDS {
        records := records[..|records| - 1];
      }
    }

    method Save()
      modifies this`savedData, this`savedCount
      ensures savedData == Entries(records) && savedCount == |records|
    {
      hide Entry;
      var buffer: seq<byte> := [];
      for i := 0 to |records|
        invariant buffer == Entries(records[..i])
      {
        buffer := PutEntry(buffer, records[i]);
        EntriesAppended(records[..i], records[i]);
        assert records[..i + 1] == records[..i] + [records[i]];
      }
      assert records[..|records|] == records;
      savedData, savedCount := buffer, |records|;
    }

    method PutEntry(buffer: seq<byte>, history: Record) returns (result: seq<byte>)
      ensures result == buffer + Entry(history)
    {
      result := buffer + Le32(history.encoding);
      result := result + Le32(|history.data|);
      result := result + history.data;
    }

    /** `fault` says that the loop would have left the block; it never does on what Save wrote. */
    method LoadSaved() returns (fault: bool)
      modifies this`records
      ensures match Load(savedCount, savedData)
        case Records(loaded) => !fault && records == old(records) + loaded
        case Fault => fault
    {
      hide Int32, Behind;
      fault := false;
      if |savedData| > MAX_MEMBLOCK_SIZE {
        return;
      }
      ghost var whole := Load(savedCount, savedData);
      var ptr, i, end := 0, 0, |savedData|;
      ghost var loaded: seq<Record> := [];
      BehindNone(whole);
      while i < savedCount
        invariant 0 <= i <= savedCount && 0 <= ptr && records == old(records) + loaded
        invariant whole == Behind(loaded, LoadFrom(savedData, ptr, savedCount - i))
      {
        BehindEnds(loaded);
        if ptr + 4 > end {
          return true;
        }
        var encoding := Int32(savedData, ptr);
        ptr := ptr + 4;
        if ptr >= end {
          break;
        }
        if ptr + 4 > end {
          return true;
        }
        var size := Int32(savedData, ptr);
        ptr := ptr + 4;
        if ptr >= end || size > MAX_MEMBLOCK_SIZE {
          break;
        }
        if size < 0 || ptr + size > end {
          return true;
        }
        var history := Record(encoding, savedData[ptr..ptr + size]);
        records := records + [history];
        BehindOneMore(loaded, history, LoadFrom(savedData, ptr + size, savedCount - i - 1));
        loaded := loaded + [history];
        ptr, i := ptr + size, i + 1;
        if ptr >= end {
          break;
        }
      }
      BehindEnds(loaded);
    }
  }

  /** Closing and starting the program keeps any history reachable by sends whose block is at most 32 MiB. */
  method Restart(before: History) returns (after: History)
    requires before.Valid() && |Entries(before.records)| <= MAX_MEMBLOCK_SIZE
    modifies before
    ensures fresh(after) && after.Valid() && after.records == before.records == old(before.records)
  {
    hide Load, LoadFrom, Entries;
    before.Save();
    after := new History();
    after.savedData, after.savedCount := before.savedData, before.savedCount;
    SaveThenLoad(before.records);
    NoEntries();
    var fault := after.LoadSaved();
  }
}
