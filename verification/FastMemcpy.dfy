/** fast_memcpy: overlapping stores of fixed widths against one plain copy. */
module FastMemcpy {
  import opened Bytes

  const CACHE_SIZE := 0x200000

  // ---- memory

  /** Memory `m` after `n` bytes have been loaded from `s` and then stored at `d`. */
  function Copy(m: seq<byte>, d: nat, s: nat, n: nat): (r: seq<byte>)
    requires d + n <= |m| && s + n <= |m|
    ensures |r| == |m|
  {
    m[..d] + m[s..s + n] + m[d + n..]
  }

  lemma CopyAt(m: seq<byte>, d: nat, s: nat, n: nat, i: nat)
    requires d + n <= |m| && s + n <= |m| && i < |m|
    ensures Copy(m, d, s, n)[i] == if d <= i < d + n then m[s + (i - d)] else m[i]
  {
  }

  lemma CopyNone(m: seq<byte>, d: nat, s: nat)
    requires d <= |m| && s <= |m|
    ensures Copy(m, d, s, 0) == m
  {
    assert m[..d] + m[s..s] + m[d..] == m;
  }

  predicate Disjoint(d: nat, s: nat, n: nat) {
    d + n <= s || s + n <= d
  }

  // ---- the stores fast_memcpy makes, in order

  /** A store of `width` bytes that begins `back` bytes before the end, from what was loaded there. */
  datatype Store = Store(back: nat, width: nat)

  /** The switch of _impl_memcpy_tiny, fall-through included. From 64 on: first 64 bytes, then the case of
      the rest; and each case from 32 on is 32 bytes and the case of the rest. */
  function Tail(size: nat): seq<Store>
    requires size <= 128
  {
    if size == 128 then [Store(128, 128)]
    else if size >= 64 then [Store(size, 64)] + Medium(size - 64)
    else Medium(size)
  }

  function Medium(size: nat): seq<Store> {
    if size >= 32 then [Store(size, 32)] + Small(size - 32) else Small(size)
  }

  function Small(size: nat): seq<Store> {
    match size
    case 0 => []
    case 1 => [Store(1, 1)]
    case 2 => [Store(2, 2)]
    case 3 => [Store(3, 2), Store(1, 1)]
    case 4 => [Store(4, 4)]
    case 5 => [Store(5, 4), Store(1, 1)]
    case 6 => [Store(6, 4), Store(2, 2)]
    case 7 => [Store(7, 4), Store(4, 4)]
    case 8 => [Store(8, 8)]
    case 9 => [Store(9, 8), Store(1, 1)]
    case 10 => [Store(10, 8), Store(2, 2)]
    case 11 => [Store(11, 8), Store(4, 4)]
    case 12 => [Store(12, 8), Store(4, 4)]
    case 13 => [Store(13, 8), Store(5, 4), Store(1, 1)]
    case 14 => [Store(14, 8), Store(8, 8)]
    case 15 => [Store(15, 8), Store(8, 8)]
    case 16 => [Store(16, 16)]
    case 17 => [Store(17, 16), Store(1, 1)]
    case 18 => [Store(18, 16), Store(2, 2)]
    case 19 => [Store(19, 16), Store(3, 2), Store(1, 1)]
    case 20 => [Store(20, 16), Store(4, 4)]
    case 21 => [Store(21, 16), Store(5, 4), Store(1, 1)]
    case 22 => [Store(22, 16), Store(6, 4), Store(2, 2)]
    case 23 => [Store(23, 16), Store(7, 4), Store(4, 4)]
    case 24 => [Store(24, 16), Store(16, 16)]
    case 25 => [Store(25, 16), Store(16, 16)]
    case 26 => [Store(26, 16), Store(16, 16)]
    case 27 => [Store(27, 16), Store(16, 16)]
    case 28 => [Store(28, 16), Store(16, 16)]
    case 29 => [Store(29, 16), Store(16, 16)]
    case 30 => [Store(30, 16), Store(16, 16)]
    case 31 => [Store(31, 16), Store(16, 16)]
    case _ => []
  }

  /** The loops over 128 bytes and the tail behind them. */
  function Blocked(left: nat): seq<Store> {
    if left >= 128 then [Store(left, 128)] + Blocked(left - 128) else Tail(left)
  }

  /** How far `dst` is from the next address divisible by 16. */
  function Padding(dst: nat): nat {
    (16 - dst % 16) % 16
  }

  function Stores(dst: nat, size: nat): seq<Store> {
    if size <= 128 then Tail(size)
    else if Padding(dst) > 0 then [Store(size, 16)] + Blocked(size - Padding(dst))
    else Blocked(size)
  }

  // ---- they leave no gap

  /** With `left` bytes to go, each store begins at the latest where the one before has ended and behind where it
      began, `upper` bytes before the end at most; and the last one ends at the end. */
  predicate Covers(stores: seq<Store>, upper: nat, left: nat) {
    if stores == [] then left == 0
    else
      var x := stores[0];
      && 0 < x.width <= x.back <= upper && x.back - x.width <= left <= x.back
      && Covers(stores[1..], x.back - 1, x.back - x.width)
  }

  lemma CoversFirst(x: Store, rest: seq<Store>, upper: nat, left: nat)
    requires 0 < x.width <= x.back <= upper && x.back - x.width <= left <= x.back
    requires Covers(rest, x.back - 1, x.back - x.width)
    ensures Covers([x] + rest, upper, left)
  {
    assert ([x] + rest)[1..] == rest;
  }

  /** What a case of the table looks like. */
  predicate Chained(t: seq<Store>, size: nat) {
    && |t| <= 3 && (|t| == 0 ==> size == 0)
    && (|t| > 0 ==> 0 < t[0].width <= t[0].back == size && t[|t| - 1].width == t[|t| - 1].back)
    && (|t| > 1 ==> Follows(t[0], t[1])) && (|t| > 2 ==> Follows(t[1], t[2]))
  }

  /** `y` begins behind where `x` began, and at most 8 bytes before where it ended. */
  predicate Follows(x: Store, y: Store) {
    0 < y.width <= y.back < x.back && y.back - y.width <= x.back - x.width <= y.back <= x.back - x.width + 8
  }

  lemma EveryCase(size: nat)
    requires size < 32
    ensures Chained(Small(size), size)
  {
  }

  /** Every case of the table covers its size. */
  lemma SmallCovers(size: nat)
    requires size < 32
    ensures Covers(Small(size), size, size) && Close(Small(size), size)
  {
    hide Small, Covers, Close;
    var t := Small(size);
    EveryCase(size);
    if |t| == 0 {
      assert t == [];
      NoStores(0);
    } else if |t| == 1 {
      assert t == [t[0]];
      LastStore(t[0], size);
    } else if |t| == 2 {
      assert t == [t[0]] + [t[1]];
      LastStore(t[1], t[0].back - t[0].width);
      ThenStore(t[0], [t[1]], t[1].back, size);
    } else {
      assert t == [t[0]] + [t[1], t[2]] && [t[1], t[2]] == [t[1]] + [t[2]];
      LastStore(t[2], t[1].back - t[1].width);
      ThenStore(t[1], [t[2]], t[2].back, t[0].back - t[0].width);
      ThenStore(t[0], [t[1], t[2]], t[1].back, size);
    }
  }

  lemma LastStore(x: Store, left: nat)
    requires 0 < x.width == x.back && left <= x.back <= left + 8
    ensures Covers([x], x.back, left) && Close([x], left)
  {
    assert [x][1..] == [];
  }

  lemma ThenStore(x: Store, rest: seq<Store>, upper: nat, left: nat)
    requires 0 < x.width <= x.back && x.back - x.width <= left <= x.back <= left + 8 && upper < x.back
    requires Covers(rest, upper, x.back - x.width) && Close(rest, x.back - x.width)
    ensures Covers([x] + rest, x.back, left) && Close([x] + rest, left)
  {
    hide Covers, Close;
    CoversUnder(rest, upper, x.back - x.width, x.back - 1);
    CoversFirst(x, rest, x.back, left);
    CloseFirst(x, rest, left);
  }

  lemma CoversUnder(stores: seq<Store>, upper: nat, left: nat, upper': nat)
    requires Covers(stores, upper, left) && upper <= upper'
    ensures Covers(stores, upper', left)
  {
  }

  lemma MediumCovers(size: nat)
    requires size < 64
    ensures Covers(Medium(size), size, size) && Close(Medium(size), size)
  {
    hide Covers, Close, Small;
    if size >= 32 {
      SmallCovers(size - 32);
      CoversUnder(Small(size - 32), size - 32, size - 32, size - 1);
      CoversFirst(Store(size, 32), Small(size - 32), size, size);
      CloseFirst(Store(size, 32), Small(size - 32), size);
    } else {
      SmallCovers(size);
    }
  }

  /** The stores of every case up to 128 leave no gap and stay inside. */
  lemma TailCovers(size: nat)
    requires size <= 128
    ensures Covers(Tail(size), size, size) && Close(Tail(size), size)
  {
    hide Covers, Close, Medium;
    if size == 128 {
      NoStores(127);
      CoversFirst(Store(128, 128), [], 128, 128);
      CloseFirst(Store(128, 128), [], 128);
      assert [Store(128, 128)] + [] == [Store(128, 128)];
    } else if size >= 64 {
      MediumCovers(size - 64);
      CoversUnder(Medium(size - 64), size - 64, size - 64, size - 1);
      CoversFirst(Store(size, 64), Medium(size - 64), size, size);
      CloseFirst(Store(size, 64), Medium(size - 64), size);
    } else {
      MediumCovers(size);
    }
  }

  lemma NoStores(upper: nat)
    ensures Covers([], upper, 0) && Close([], 0)
  {
  }

  lemma {:induction false} BlockedCovers(left: nat)
    ensures Covers(Blocked(left), left, left) && Close(Blocked(left), left)
  {
    hide Covers, Close, Tail;
    if left >= 128 {
      BlockedCovers(left - 128);
      CoversUnder(Blocked(left - 128), left - 128, left - 128, left - 1);
      CoversFirst(Store(left, 128), Blocked(left - 128), left, left);
      CloseFirst(Store(left, 128), Blocked(left - 128), left);
    } else {
      TailCovers(left);
    }
  }

  /** For every address and size the stores cover exactly the bytes to be copied. */
  lemma StoresCover(dst: nat, size: nat)
    ensures Covers(Stores(dst, size), size, size)
  {
    hide Tail, Blocked;
    if size <= 128 {
      TailCovers(size);
    } else {
      var p := Padding(dst);
      BlockedCovers(size - p);
      if p > 0 {
        BlockedStart(size - p);
        AfterHead(Blocked(size - p), size - p, size);
        CoversFirst(Store(size, 16), Blocked(size - p), size, size);
      }
    }
  }

  lemma BlockedStart(left: nat)
    requires left > 112
    ensures Blocked(left) != [] && Blocked(left)[0].back == left && 16 <= Blocked(left)[0].width <= left
  {
    hide Medium;
  }

  /** The first block may begin inside the head. */
  lemma AfterHead(stores: seq<Store>, left: nat, size: nat)
    requires Covers(stores, left, left) && stores != [] && stores[0].width >= 16 && stores[0].back == left
    requires left < size <= left + 15 && size > 16
    ensures Covers(stores, size - 1, size - 16)
  {
  }

  // ---- what the stores do

  predicate Within(stores: seq<Store>, m: seq<byte>, dd: nat, ss: nat) {
    dd <= |m| && ss <= |m| &&
    forall i :: 0 <= i < |stores| ==> stores[i].width <= stores[i].back && stores[i].back <= dd && stores[i].back <= ss
  }

  /** Memory after the stores, the ends of the two regions being `dd` and `ss`. */
  function Stored(m: seq<byte>, stores: seq<Store>, dd: nat, ss: nat): (r: seq<byte>)
    requires Within(stores, m, dd, ss)
    ensures |r| == |m|
    decreases |stores|
  {
    if stores == [] then m
    else Stored(Copy(m, dd - stores[0].back, ss - stores[0].back, stores[0].width), stores[1..], dd, ss)
  }

  lemma {:induction false} CoversWithin(stores: seq<Store>, upper: nat, left: nat, m: seq<byte>, dd: nat, ss: nat)
    requires Covers(stores, upper, left) && upper <= dd <= |m| && upper <= ss <= |m|
    ensures Within(stores, m, dd, ss)
    decreases |stores|
  {
    if stores != [] {
      CoversWithin(stores[1..], stores[0].back - 1, stores[0].back - stores[0].width, m, dd, ss);
      assert forall i :: 0 < i < |stores| ==> stores[i] == stores[1..][i - 1];
    }
  }

  /** What fast_memcpy does to any memory, whether the regions overlap or not. */
  function FastCopied(m: seq<byte>, dst: nat, src: nat, size: nat): (r: seq<byte>)
    requires dst + size <= |m| && src + size <= |m|
    ensures |r| == |m|
  {
    StoresCover(dst, size);
    CoversWithin(Stores(dst, size), size, size, m, dst + size, src + size);
    Stored(m, Stores(dst, size), dst + size, src + size)
  }

  /** Every store loads bytes that no store before it has written. */
  predicate Safe(stores: seq<Store>, dd: nat, ss: nat, n: nat, left: nat) {
    stores == [] ||
    (var x := stores[0];
     && n <= dd && n <= ss && left <= n && x.width <= x.back <= n
     && (ss - x.back >= dd - left || ss - x.back + x.width <= dd - n)
     && Safe(stores[1..], dd, ss, n, x.back - x.width))
  }

  /** With the first `c` bytes copied, a store at `a` that loads none of them copies up to its own end. */
  lemma StoreMore(m: seq<byte>, d: nat, s: nat, c: nat, a: nat, w: nat)
    requires a <= c <= a + w && d + a + w <= |m| && s + a + w <= |m|
    requires s + a >= d + c || s + a + w <= d
    ensures Copy(Copy(m, d, s, c), d + a, s + a, w) == Copy(m, d, s, a + w)
  {
    hide Copy;
    var x := Copy(m, d, s, c);
    var y := Copy(x, d + a, s + a, w);
    var z := Copy(m, d, s, a + w);
    forall i: nat | i < |m|
      ensures y[i] == z[i]
    {
      CopyAt(x, d + a, s + a, w, i);
      CopyAt(m, d, s, a + w, i);
      CopyAt(m, d, s, c, if d + a <= i < d + a + w then s + a + (i - d - a) else i);
    }
  }

  /** Safe stores that cover the rest complete the copy. */
  lemma {:induction false} SafeCopies(m: seq<byte>, d: nat, s: nat, n: nat, c: nat, stores: seq<Store>, upper: nat)
    requires d + n <= |m| && s + n <= |m| && c <= n && upper <= n
    requires Covers(stores, upper, n - c) && Safe(stores, d + n, s + n, n, n - c)
    requires Within(stores, m, d + n, s + n)
    ensures Stored(Copy(m, d, s, c), stores, d + n, s + n) == Copy(m, d, s, n)
    decreases |stores|
  {
    hide Copy;
    if stores != [] {
      var x := stores[0];
      StoreMore(m, d, s, c, n - x.back, x.width);
      assert forall i :: 0 <= i < |stores[1..]| ==> stores[1..][i] == stores[i + 1];
      SafeCopies(m, d, s, n, n - x.back + x.width, stores[1..], x.back - 1);
    }
  }

  lemma {:induction false} DisjointIsSafe(stores: seq<Store>, d: nat, s: nat, n: nat, upper: nat, left: nat)
    requires Disjoint(d, s, n) && Covers(stores, upper, left) && upper <= n && left <= n
    ensures Safe(stores, d + n, s + n, n, left)
    decreases |stores|
  {
    if stores != [] {
      DisjointIsSafe(stores[1..], d, s, n, stores[0].back - 1, stores[0].back - stores[0].width);
    }
  }

  /** On disjoint regions the stores are one plain copy. */
  lemma DisjointIsCopied(m: seq<byte>, dst: nat, src: nat, size: nat)
    requires dst + size <= |m| && src + size <= |m| && Disjoint(dst, src, size)
    ensures FastCopied(m, dst, src, size) == Copy(m, dst, src, size)
  {
    hide Copy, Stores, Stored;
    StoresCover(dst, size);
    CoversWithin(Stores(dst, size), size, size, m, dst + size, src + size);
    DisjointIsSafe(Stores(dst, size), dst, src, size, size, size);
    CopyNone(m, dst, src);
    SafeCopies(m, dst, src, size, 0, Stores(dst, size), size);
  }

  lemma InThreeParts(r: seq<byte>, m: seq<byte>, d: nat, s: nat, n: nat)
    requires |r| == |m| && d + n <= |m| && s + n <= |m|
    ensures r == Copy(m, d, s, n) <==>
            r[d..d + n] == m[s..s + n] && r[..d] == m[..d] && r[d + n..] == m[d + n..]
  {
    var z := Copy(m, d, s, n);
    assert z[..d] == m[..d] && z[d..d + n] == m[s..s + n] && z[d + n..] == m[d + n..];
    assert r == r[..d] + r[d..d + n] + r[d + n..];
  }

  // ---- the code; the index of a byte is its address

  /** Registers are loaded first, then stored. */
  method StoreWide(mem: array<byte>, d: nat, s: nat, w: nat)
    requires d + w <= mem.Length && s + w <= mem.Length
    modifies mem
    ensures mem[..] == Copy(old(mem[..]), d, s, w)
  {
    var registers := mem[s..s + w];
    for k := 0 to w
      invariant mem[..d] == old(mem[..d]) && mem[d..d + k] == registers[..k] && mem[d + k..] == old(mem[d + k..])
    {
      mem[d + k] := registers[k];
      assert mem[d..d + k + 1] == mem[d..d + k] + [registers[k]];
    }
    assert mem[..] == mem[..d] + mem[d..d + w] + mem[d + w..];
  }

  /** The instructions that fault on an address not divisible by 16. */
  method StoreAligned(mem: array<byte>, d: nat, s: nat, w: nat, loadAligned: bool)
    requires d + w <= mem.Length && s + w <= mem.Length && d % 16 == 0 && (loadAligned ==> s % 16 == 0)
    modifies mem
    ensures mem[..] == Copy(old(mem[..]), d, s, w)
  {
    StoreWide(mem, d, s, w);
  }

  /** _impl_memcpy_tiny, on any memory. */
  method Tiny(mem: array<byte>, dst: nat, src: nat, size: nat)
    requires size <= 128 && dst + size <= mem.Length && src + size <= mem.Length
    requires Within(Tail(size), mem[..], dst + size, src + size)
    modifies mem
    ensures mem[..] == Stored(old(mem[..]), Tail(size), dst + size, src + size)
  {
    hide Copy, Tail;
    var dd, ss, stores := dst + size, src + size, Tail(size);
    while stores != []
      invariant Within(stores, mem[..], dd, ss)
      invariant Stored(mem[..], stores, dd, ss) == Stored(old(mem[..]), Tail(size), dd, ss)
      decreases |stores|
    {
      StoreWide(mem, dd - stores[0].back, ss - stores[0].back, stores[0].width);
      stores := stores[1..];
    }
  }

  lemma FirstBlock(m: seq<byte>, left: nat, dd: nat, ss: nat)
    requires left >= 128 && Within(Blocked(left), m, dd, ss)
    ensures left <= dd <= |m| && left <= ss <= |m|
    ensures var m' := Copy(m, dd - left, ss - left, 128);
      && Within(Blocked(left - 128), m', dd, ss)
      && Stored(m', Blocked(left - 128), dd, ss) == Stored(m, Blocked(left), dd, ss)
  {
    hide Copy, Tail;
    var x, rest := Store(left, 128), Blocked(left - 128);
    assert Blocked(left) == [x] + rest && Blocked(left)[0] == x;
    FirstStore(m, x, rest, dd, ss);
  }

  lemma FirstStore(m: seq<byte>, x: Store, rest: seq<Store>, dd: nat, ss: nat)
    requires Within([x] + rest, m, dd, ss)
    ensures x.width <= x.back <= dd <= |m| && x.back <= ss <= |m|
    ensures var m' := Copy(m, dd - x.back, ss - x.back, x.width);
      Within(rest, m', dd, ss) && Stored(m', rest, dd, ss) == Stored(m, [x] + rest, dd, ss)
  {
    hide Copy;
    assert ([x] + rest)[0] == x && ([x] + rest)[1..] == rest;
    assert forall i :: 0 <= i < |rest| ==> rest[i] == ([x] + rest)[i + 1];
  }

  /** The loops over 128 bytes, which differ in the kind of load and store only; `rest` bytes remain. */
  method Blocks(mem: array<byte>, dd: nat, ss: nat, left: nat, loadAligned: bool) returns (rest: nat)
    requires Within(Blocked(left), mem[..], dd, ss) && left <= dd && left <= ss
    requires (dd - left) % 16 == 0 && (loadAligned ==> (ss - left) % 16 == 0)
    modifies mem
    ensures rest < 128 && rest <= left && Within(Tail(rest), mem[..], dd, ss)
    ensures Stored(mem[..], Tail(rest), dd, ss) == Stored(old(mem[..]), Blocked(left), dd, ss)
  {
    hide Copy, Tail, Within, Stored;
    rest := left;
    while rest >= 128
      invariant rest <= left && Within(Blocked(rest), mem[..], dd, ss)
      invariant (dd - rest) % 16 == 0 && (loadAligned ==> (ss - rest) % 16 == 0)
      invariant Stored(mem[..], Blocked(rest), dd, ss) == Stored(old(mem[..]), Blocked(left), dd, ss)
    {
      FirstBlock(mem[..], rest, dd, ss);
      StoreAligned(mem, dd - rest, ss - rest, 128, loadAligned);
      rest := rest - 128;
    }
  }

  /** For every size, alignment and content: the stores above, in order, with every aligned instruction on an
      aligned address; on disjoint regions exactly the `size` bytes are copied and nothing else changes. */
  method FastCopy(mem: array<byte>, dst: nat, src: nat, size: nat)
    requires dst + size <= mem.Length && src + size <= mem.Length
    modifies mem
    ensures mem[..] == FastCopied(old(mem[..]), dst, src, size)
    ensures Disjoint(dst, src, size) ==> mem[..] == Copy(old(mem[..]), dst, src, size)
    ensures Disjoint(dst, src, size) ==>
      && mem[..][dst..dst + size] == old(mem[..])[src..src + size]
      && mem[..][..dst] == old(mem[..])[..dst] && mem[..][dst + size..] == old(mem[..])[dst + size..]
  {
    hide Copy, Tail, Stored, Covers, Blocked, Within;
    ghost var m := mem[..];
    var dd, ss := dst + size, src + size;
    StoresCover(dst, size);
    CoversWithin(Stores(dst, size), size, size, m, dd, ss);
    if Disjoint(dst, src, size) {
      DisjointIsCopied(m, dst, src, size);
      InThreeParts(Copy(m, dst, src, size), m, dst, src, size);
    }
    if size == 0 {
      NothingStored(m, dd, ss);
      return;
    }
    if size <= 128 {
      Tiny(mem, dst, src, size);
      return;
    }
    var padding := (16 - dst % 16) % 16;
    var left := size;
    if padding > 0 {
      FirstStore(m, Store(size, 16), Blocked(size - padding), dd, ss);
      StoreWide(mem, dst, src, 16);
      left := size - padding;
    }
    var rest;
    if left <= CACHE_SIZE {
      rest := Blocks(mem, dd, ss, left, false);
    } else if (ss - left) % 16 == 0 {
      rest := Blocks(mem, dd, ss, left, true);
    } else {
      rest := Blocks(mem, dd, ss, left, false);
    }
    Tiny(mem, dd - rest, ss - rest, rest);
  }

  lemma NothingStored(m: seq<byte>, dd: nat, ss: nat)
    requires dd <= |m| && ss <= |m|
    ensures Within(Tail(0), m, dd, ss) && Stored(m, Tail(0), dd, ss) == m
  {
  }

  // ---- moving down by `k` over an overlap

  /** Every store begins at most `k` bytes before where the one before has ended, `left` bytes from the end. */
  predicate Clear(stores: seq<Store>, k: nat, left: nat) {
    stores == [] ||
    (stores[0].width <= stores[0].back <= left + k && Clear(stores[1..], k, stores[0].back - stores[0].width))
  }

  lemma {:induction false} ClearIsSafe(stores: seq<Store>, d: nat, k: nat, n: nat, upper: nat, left: nat)
    requires k > 0 && Covers(stores, upper, left) && upper <= n && left <= n
    ensures Clear(stores, k, left) <==> Safe(stores, d + n, d + k + n, n, left)
    decreases |stores|
  {
    if stores != [] {
      ClearIsSafe(stores[1..], d, k, n, stores[0].back - 1, stores[0].back - stores[0].width);
    }
  }

  /** Where the first store begins that loads what has been overwritten. */
  function Clash(stores: seq<Store>, k: nat, n: nat, left: nat): nat
    requires !Clear(stores, k, left)
  {
    var x := stores[0];
    if x.width <= x.back <= left + k then Clash(stores[1..], k, n, x.back - x.width)
    else if x.back <= n then n - x.back else 0
  }

  /** Stores that begin behind byte `i` leave it alone. */
  lemma {:induction false} Untouched(
    m: seq<byte>, stores: seq<Store>, upper: nat, left: nat, dd: nat, ss: nat, i: nat)
    requires Covers(stores, upper, left) && Within(stores, m, dd, ss) && upper < dd && i < dd - upper
    ensures Stored(m, stores, dd, ss)[i] == m[i]
    decreases |stores|
  {
    hide Copy;
    if stores != [] {
      var x := stores[0];
      CopyAt(m, dd - x.back, ss - x.back, x.width, i);
      assert forall j :: 0 <= j < |stores[1..]| ==> stores[1..][j] == stores[j + 1];
      Untouched(Copy(m, dd - x.back, ss - x.back, x.width), stores[1..], x.back - 1, x.back - x.width, dd, ss, i);
    }
  }

  /** At the first clash the byte `k` further on arrives. */
  lemma {:induction false} ClashShows(
    m: seq<byte>, d: nat, k: nat, n: nat, c: nat, stores: seq<Store>, upper: nat)
    requires k > 0 && d + k + n <= |m| && c <= n && upper <= n
    requires Covers(stores, upper, n - c) && !Clear(stores, k, n - c)
    requires Within(stores, m, d + n, d + k + n)
    ensures var a := Clash(stores, k, n, n - c);
      a + k < n && Stored(Copy(m, d, d + k, c), stores, d + n, d + k + n)[d + a] == m[d + k + a + k]
    decreases |stores|
  {
    hide Copy;
    var x := stores[0];
    var a := n - x.back;
    assert forall i :: 0 <= i < |stores[1..]| ==> stores[1..][i] == stores[i + 1];
    if x.width <= x.back <= n - c + k {
      StoreMore(m, d, d + k, c, a, x.width);
      ClashShows(m, d, k, n, a + x.width, stores[1..], x.back - 1);
    } else {
      var before := Copy(m, d, d + k, c);
      var after := Copy(before, d + a, d + k + a, x.width);
      CopyAt(before, d + a, d + k + a, x.width, d + a);
      CopyAt(m, d, d + k, c, d + k + a);
      Untouched(after, stores[1..], x.back - 1, x.back - x.width, d + n, d + k + n, d + a);
    }
  }

  /** fast_memcpy has moved `size` bytes down by `k`, within memory `m`. */
  ghost predicate MovedDown(m: seq<byte>, dst: nat, k: nat, size: nat)
    requires dst + k + size <= |m|
  {
    FastCopied(m, dst, dst + k, size) == Copy(m, dst, dst + k, size)
  }

  /** A memory in which only byte `i` is not zero. */
  function OneAt(length: nat, i: nat): (m: seq<byte>)
    ensures |m| == length
  {
    seq(length, j => if j == i then 1 else 0)
  }

  lemma ClearMoves(m: seq<byte>, dst: nat, k: nat, size: nat)
    requires k > 0 && dst + k + size <= |m| && Clear(Stores(dst, size), k, size)
    ensures MovedDown(m, dst, k, size)
  {
    hide Copy, Stores, Stored;
    StoresCover(dst, size);
    CoversWithin(Stores(dst, size), size, size, m, dst + size, dst + k + size);
    ClearIsSafe(Stores(dst, size), dst, k, size, size, size);
    CopyNone(m, dst, dst + k);
    SafeCopies(m, dst, dst + k, size, 0, Stores(dst, size), size);
  }

  lemma ClashSpoils(dst: nat, k: nat, size: nat)
    requires k > 0 && !Clear(Stores(dst, size), k, size)
    ensures exists m: seq<byte> :: dst + k + size <= |m| && !MovedDown(m, dst, k, size)
  {
    hide Copy, Stores, Stored, Clash, Clear;
    var stores := Stores(dst, size);
    var a := Clash(stores, k, size, size);
    var m := OneAt(dst + k + size, dst + k + a);
    StoresCover(dst, size);
    CoversWithin(stores, size, size, m, dst + size, dst + k + size);
    CopyNone(m, dst, dst + k);
    ClashShows(m, dst, k, size, 0, stores, size);
    CopyAt(m, dst, dst + k, size, dst + a);
    assert !MovedDown(m, dst, k, size);
  }

  /** Moving any size down by any distance is right for every content exactly if each store begins at most that
      distance before the end of the one before. */
  lemma MovesDownIff(dst: nat, k: nat, size: nat)
    requires k > 0
    ensures (forall m: seq<byte> :: dst + k + size <= |m| ==> MovedDown(m, dst, k, size))
            <==> Clear(Stores(dst, size), k, size)
  {
    hide MovedDown, Stores, Clear;
    if Clear(Stores(dst, size), k, size) {
      forall m: seq<byte> | dst + k + size <= |m|
        ensures MovedDown(m, dst, k, size)
      {
        ClearMoves(m, dst, k, size);
      }
    } else {
      ClashSpoils(dst, k, size);
    }
  }

  // ---- the condition, from address, size and distance

  /** Every store begins at most 8 bytes before the end of the one before. */
  predicate Close(stores: seq<Store>, left: nat) {
    Clear(stores, 8, left)
  }

  lemma CloseFirst(x: Store, rest: seq<Store>, left: nat)
    requires x.width <= x.back <= left + 8 && Close(rest, x.back - x.width)
    ensures Close([x] + rest, left)
  {
    assert ([x] + rest)[1..] == rest;
  }

  lemma ClearFirst(x: Store, rest: seq<Store>, k: nat, left: nat)
    ensures Clear([x] + rest, k, left) <==> x.width <= x.back <= left + k && Clear(rest, k, x.back - x.width)
  {
    assert ([x] + rest)[1..] == rest;
  }

  /** The blocks are clear; what is left over decides. */
  lemma {:induction false} BlocksClear(left: nat, k: nat)
    ensures Clear(Blocked(left), k, left) <==> Clear(Tail(left % 128), k, left % 128)
  {
    hide Clear, Tail;
    if left >= 128 {
      ClearFirst(Store(left, 128), Blocked(left - 128), k, left);
      BlocksClear(left - 128, k);
    }
  }

  /** Up to 128 bytes the table decides; beyond, the case of the last, partial block, and the first 16 bytes: the
      first block must not begin more than `k` before their end. */
  lemma ClearIff(dst: nat, k: nat, size: nat)
    requires k > 0
    ensures Clear(Stores(dst, size), k, size) <==>
      if size <= 128 then Clear(Tail(size), k, size)
      else var p := Padding(dst); var rest := (size - p) % 128;
           (p > 0 ==> k >= 16 - p) && Clear(Tail(rest), k, rest)
  {
    hide Clear, Tail, Blocked;
    if size > 128 {
      var p := Padding(dst);
      BlocksClear(size - p, k);
      if p > 0 {
        ClearFirst(Store(size, 16), Blocked(size - p), k, size);
        BlockedStart(size - p);
        HeadClear(Blocked(size - p), size - p, size, k);
      }
    }
  }

  lemma HeadClear(stores: seq<Store>, left: nat, size: nat, k: nat)
    requires stores != [] && stores[0].back == left && 16 <= stores[0].width <= left < size && size > 16
    ensures Clear(stores, k, size - 16) <==> k >= left - (size - 16) && Clear(stores, k, left)
  {
  }

  lemma {:induction false} ClearFurther(stores: seq<Store>, k: nat, k': nat, left: nat)
    requires Clear(stores, k, left) && k <= k'
    ensures Clear(stores, k', left)
    decreases |stores|
  {
    if stores != [] {
      ClearFurther(stores[1..], k, k', stores[0].back - stores[0].width);
    }
  }

  lemma FarIsClear(dst: nat, k: nat, size: nat)
    requires k >= 15 || (k >= 8 && size <= 128)
    ensures Clear(Stores(dst, size), k, size)
  {
    hide Clear, Tail, Stores, Covers;
    ClearIff(dst, k, size);
    var rest := if size <= 128 then size else (size - Padding(dst)) % 128;
    TailCovers(rest);
    ClearFurther(Tail(rest), 8, k, rest);
  }

  /** Moves by at least 15 bytes, or by 8 if at most 128 bytes are moved, are always right. */
  lemma FarMovesAreRight(m: seq<byte>, dst: nat, k: nat, size: nat)
    requires dst + k + size <= |m| && (k >= 15 || (k >= 8 && size <= 128))
    ensures MovedDown(m, dst, k, size)
  {
    hide Clear, Stores, MovedDown;
    FarIsClear(dst, k, size);
    ClearMoves(m, dst, k, size);
  }

  /** What this means for the last block a long Remove cuts: `used - delsize` bytes are moved down by `delsize` to
      the start of the block at address `dst`. */
  lemma FrontCutIff(dst: nat, used: nat, delsize: nat)
    requires 0 < delsize < used
    ensures (forall m: seq<byte> :: dst + used <= |m| ==> FrontCut(m, dst, used, delsize))
            <==> Clear(Stores(dst, used - delsize), delsize, used - delsize)
    ensures delsize >= 15 || (delsize >= 8 && used - delsize <= 128)
            ==> Clear(Stores(dst, used - delsize), delsize, used - delsize)
  {
    hide FrontCut, MovedDown, Clear, Stores;
    var size := used - delsize;
    forall m: seq<byte> | dst + used <= |m|
      ensures MovedDown(m, dst, delsize, size) <==> FrontCut(m, dst, used, delsize)
    {
      FrontCutIsMove(m, dst, used, delsize);
    }
    MovesDownIff(dst, delsize, size);
    if forall m: seq<byte> :: dst + used <= |m| ==> FrontCut(m, dst, used, delsize) {
      assert forall m: seq<byte> :: dst + delsize + size <= |m| ==> MovedDown(m, dst, delsize, size);
    } else {
      var m: seq<byte> :| dst + used <= |m| && !FrontCut(m, dst, used, delsize);
      assert !MovedDown(m, dst, delsize, size);
    }
    if delsize >= 15 || (delsize >= 8 && size <= 128) {
      FarIsClear(dst, delsize, size);
    }
  }

  /** The bytes kept stand at the block's start, and memory around it is as before. */
  ghost predicate FrontCut(m: seq<byte>, dst: nat, used: nat, delsize: nat)
    requires delsize <= used && dst + used <= |m|
  {
    var r, size := FastCopied(m, dst, dst + delsize, used - delsize), used - delsize;
    r[dst..dst + size] == m[dst + delsize..dst + used] && r[..dst] == m[..dst] && r[dst + size..] == m[dst + size..]
  }

  lemma FrontCutIsMove(m: seq<byte>, dst: nat, used: nat, delsize: nat)
    requires delsize <= used && dst + used <= |m|
    ensures MovedDown(m, dst, delsize, used - delsize) <==> FrontCut(m, dst, used, delsize)
  {
    hide FastCopied;
    InThreeParts(FastCopied(m, dst, dst + delsize, used - delsize), m, dst, dst + delsize, used - delsize);
  }

  /** Moving 57 bytes down by one is among the wrong moves: the third store begins 7 bytes before the end of the
      second. */
  lemma OverlapGoesWrong(dst: nat)
    ensures exists m: seq<byte> :: dst + 58 <= |m| && !MovedDown(m, dst, 1, 57)
  {
    var x, y, z := Store(57, 32), Store(25, 16), Store(16, 16);
    assert Stores(dst, 57) == [x] + [y, z] && [x, y, z][1..] == [y, z] && [y, z][1..] == [z];
    assert !Clear([z], 1, 9);
    assert !Clear([y, z], 1, 25);
    assert !Clear([x, y, z], 1, 57);
    ClashSpoils(dst, 1, 57);
  }
}
