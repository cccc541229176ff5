/** A number and its bit vector. */
module Conversion {

  lemma ThereAndBack(n: nat)
    requires n < 256
    ensures (n as bv8) as nat == n
  {
    var b := n as bv8;
    assert (b as nat) as bv8 == b;
    if n < 128 {
      assert b < 128;
    } else {
      assert b >= 128;
    }
  }

  lemma LowHalf(n: nat)
    requires n < 128
    ensures (n as bv8) < 128
  {
    ThereAndBack(n);
  }
}

/** Bytes and the few sequence functions that every other module uses. */
module Bytes {
  import Conversion

  type byte = bv8

  /** The byte of a value that fits into one. */
  function AsByte(n: nat): byte
    requires n < 256
  {
    n as byte
  }

  lemma ByteValue(n: nat)
    requires n < 256
    ensures AsByte(n) as nat == n
  {
    Conversion.ThereAndBack(n);
  }

  lemma LowByte(n: nat)
    requires n < 128
    ensures AsByte(n) < 128 && AsByte(n) as nat == n
  {
    Conversion.LowHalf(n);
    Conversion.ThereAndBack(n);
  }

  function Min(a: nat, b: nat): nat {
    if a < b then a else b
  }

  /** What memset writes: `n` copies of `b`. */
  function Repeat(b: byte, n: nat): (r: seq<byte>)
    ensures |r| == n
    ensures forall i :: 0 <= i < n ==> r[i] == b
  {
    seq(n, _ => b)
  }

  lemma RepeatSplit(b: byte, m: nat, n: nat)
    ensures Repeat(b, m) + Repeat(b, n) == Repeat(b, m + n)
  {
    hide Repeat;
  }

  lemma RepeatSlice(b: byte, n: nat, cut: nat)
    requires cut <= n
    ensures Repeat(b, n)[..cut] == Repeat(b, cut) && Repeat(b, n)[cut..] == Repeat(b, n - cut)
  {
    hide Repeat;
  }

  lemma RepeatOne(b: byte)
    ensures Repeat(b, 1) == [b]
  {
  }

  /** The concatenation of a sequence of sequences. */
  function Flatten<T>(s: seq<seq<T>>): seq<T> {
    if s == [] then [] else s[0] + Flatten(s[1..])
  }

  lemma {:induction false} FlattenConcat<T>(a: seq<seq<T>>, b: seq<seq<T>>)
    ensures Flatten(a + b) == Flatten(a) + Flatten(b)
  {
    if a == [] {
      assert a + b == b;
    } else {
      assert (a + b)[1..] == a[1..] + b;
      FlattenConcat(a[1..], b);
    }
  }

  lemma FlattenNone<T>(s: seq<seq<T>>)
    requires s == []
    ensures Flatten(s) == []
  {
  }

  lemma FlattenOne<T>(x: seq<T>)
    ensures Flatten([x]) == x
  {
    assert [x][1..] == [];
  }

  lemma SplitFlat<T>(s: seq<seq<T>>, i: nat)
    requires i <= |s|
    ensures Flatten(s) == Flatten(s[..i]) + Flatten(s[i..])
  {
    assert s == s[..i] + s[i..];
    FlattenConcat(s[..i], s[i..]);
  }

  /** Element `i` sits between the flattened prefix and the flattened suffix. */
  lemma FlattenAt<T>(s: seq<seq<T>>, i: nat)
    requires i < |s|
    ensures Flatten(s) == Flatten(s[..i]) + s[i] + Flatten(s[i + 1..])
  {
    assert s == s[..i] + s[i..];
    FlattenConcat(s[..i], s[i..]);
  }

  /** Replacing element `i` changes only what lies between prefix and suffix. */
  lemma FlattenUpdate<T>(s: seq<seq<T>>, i: nat, x: seq<T>)
    requires i < |s|
    ensures Flatten(s[i := x]) == Flatten(s[..i]) + x + Flatten(s[i + 1..])
  {
    var t := s[i := x];
    FlattenAt(t, i);
    assert t[..i] == s[..i] && t[i + 1..] == s[i + 1..];
  }

  function Inserted<T>(s: seq<T>, i: nat, x: T): seq<T>
    requires i <= |s|
  {
    s[..i] + [x] + s[i..]
  }

  function Removed<T>(s: seq<T>, i: nat): seq<T>
    requires i < |s|
  {
    s[..i] + s[i + 1..]
  }

  lemma FlattenInserted<T>(s: seq<seq<T>>, i: nat, x: seq<T>)
    requires i <= |s|
    ensures Flatten(Inserted(s, i, x)) == Flatten(s[..i]) + x + Flatten(s[i..])
  {
    var t := Inserted(s, i, x);
    FlattenAt(t, i);
    assert t[..i] == s[..i] && t[i + 1..] == s[i..];
  }

  lemma FlattenAppended<T>(s: seq<seq<T>>, x: seq<T>)
    ensures Flatten(s + [x]) == Flatten(s) + x
  {
    FlattenConcat(s, [x]);
    FlattenOne(x);
  }

  lemma FlattenRemoved<T>(s: seq<seq<T>>, i: nat)
    requires i < |s|
    ensures Flatten(Removed(s, i)) == Flatten(s[..i]) + Flatten(s[i + 1..])
  {
    FlattenConcat(s[..i], s[i + 1..]);
  }

  /** The low seven bits of a byte. */
  function Low7(b: byte): nat {
    (b & 0x7F) as nat
  }

  lemma Low7Bound(b: byte)
    ensures Low7(b) < 128
  {
    assert b & 0x7F < 128;
  }

  /** They are the byte without its top bit. */
  lemma Low7Is(b: byte)
    ensures b as nat == Low7(b) + if b >= 128 then 128 else 0
  {
    var low := b & 0x7F;
    if b < 128 {
      assert low == b;
    } else {
      assert low == b - 128;
    }
  }

  lemma SevenBits(b: byte)
    requires b < 128
    ensures b & 0x7F == b && (b | 0x80) & 0x7F == b && b & 0x80 == 0 && (b | 0x80) & 0x80 == 0x80
  {
  }

  /** How often `x` occurs in `q`. */
  function Times<T(==)>(q: seq<T>, x: T): nat {
    multiset(q)[x]
  }

  lemma TimesConcat<T>(a: seq<T>, b: seq<T>, x: T)
    ensures Times(a + b, x) == Times(a, x) + Times(b, x)
  {
  }

  lemma TimesNone<T>(x: T)
    ensures Times([], x) == 0
  {
  }

  lemma TimesOne<T>(y: T, x: T)
    ensures Times([y], x) == if x == y then 1 else 0
  {
  }

  lemma TimesHead<T>(q: seq<T>, x: T)
    requires q != []
    ensures Times(q, x) == (if x == q[0] then 1 else 0) + Times(q[1..], x)
  {
    assert q == [q[0]] + q[1..];
  }

  lemma TimesRemoved<T>(q: seq<T>, i: nat, x: T)
    requires i < |q|
    ensures Times(q, x) == (if x == q[i] then 1 else 0) + Times(Removed(q, i), x)
  {
    assert q == q[..i] + [q[i]] + q[i + 1..];
  }
}
