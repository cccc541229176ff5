/** A byte sequence cut into pieces, and edits made to one piece at a time. */
module Segments {
  import opened Bytes

  /** Replace `s[lo..hi]` by `p`. */
  function Edit<T>(s: seq<T>, lo: nat, hi: nat, p: seq<T>): seq<T>
    requires lo <= hi <= |s|
  {
    s[..lo] + p + s[hi..]
  }

  lemma EditCut<T>(s: seq<T>, at: nat, n: nat)
    requires at + n <= |s|
    ensures Edit(s, at, at + n, []) == s[..at] + s[at + n..]
  {
  }

  /** Store `p` over `s` from `lo` on, as far as `s` reaches. */
  function Overwritten<T>(s: seq<T>, lo: nat, p: seq<T>): (r: seq<T>)
    ensures |r| == |s|
  {
    if lo >= |s| then s
    else var n := Min(|p|, |s| - lo); Edit(s, lo, lo + n, p[..n])
  }

  /** The `size` items of `s` from `lo` on, or as many as there are. */
  function Slice<T>(s: seq<T>, lo: nat, size: nat): seq<T> {
    if lo >= |s| then [] else s[lo..Min(lo + size, |s|)]
  }

  /** The offset at which piece `i` starts. */
  function StartOf<T>(segs: seq<seq<T>>, i: nat): nat
    requires i <= |segs|
  {
    |Flatten(segs[..i])|
  }

  lemma StartOfNext<T>(segs: seq<seq<T>>, i: nat)
    requires i < |segs|
    ensures StartOf(segs, i + 1) == StartOf(segs, i) + |segs[i]|
    ensures Flatten(segs[..i + 1]) == Flatten(segs[..i]) + segs[i]
  {
    assert segs[..i + 1] == segs[..i] + [segs[i]];
    FlattenConcat(segs[..i], [segs[i]]);
    FlattenOne(segs[i]);
  }

  lemma StartOfEnds<T>(segs: seq<seq<T>>)
    ensures StartOf(segs, 0) == 0 && StartOf(segs, |segs|) == |Flatten(segs)|
  {
    assert segs[..|segs|] == segs;
  }

  lemma StartOfBounds<T>(segs: seq<seq<T>>, i: nat)
    requires i < |segs|
    ensures StartOf(segs, i) + |segs[i]| <= |Flatten(segs)|
    ensures Flatten(segs)[..StartOf(segs, i)] == Flatten(segs[..i])
    ensures Flatten(segs)[StartOf(segs, i) + |segs[i]|..] == Flatten(segs[i + 1..])
    ensures Flatten(segs)[StartOf(segs, i)..StartOf(segs, i) + |segs[i]|] == segs[i]
  {
    FlattenAt(segs, i);
  }

  lemma PieceSlice<T>(segs: seq<seq<T>>, i: nat, lo: nat, hi: nat)
    requires i < |segs| && lo <= hi <= |segs[i]|
    ensures var s := StartOf(segs, i);
      s + |segs[i]| <= |Flatten(segs)| && Flatten(segs)[s + lo..s + hi] == segs[i][lo..hi]
  {
    hide Flatten;
    StartOfBounds(segs, i);
    var f, s := Flatten(segs), StartOf(segs, i);
    assert segs[i] == f[s..s + |segs[i]|];
    forall j | 0 <= j < hi - lo
      ensures f[s + lo..s + hi][j] == segs[i][lo..hi][j]
    {
    }
  }

  /** Having copied `data` from `index` on, the next stretch to copy lies in piece `i` at `at`. */
  lemma CopyStep<T>(segs: seq<seq<T>>, i: nat, at: nat, len: nat, data: seq<T>, index: nat)
    requires i < |segs| && at + len <= |segs[i]| && StartOf(segs, i) + at == index + |data| <= |Flatten(segs)|
    requires data == Flatten(segs)[index..index + |data|]
    ensures index + |data| + len <= |Flatten(segs)|
    ensures data + segs[i][at..at + len] == Flatten(segs)[index..index + |data| + len]
    ensures at + len == |segs[i]| ==> StartOf(segs, i + 1) == index + |data| + len
  {
    hide Flatten;
    PieceSlice(segs, i, at, at + len);
    StartOfNext(segs, i);
  }

  lemma CopyDone<T>(whole: seq<T>, index: nat, size: nat, data: seq<T>)
    requires index < |whole| && index + |data| <= |whole| && data == whole[index..index + |data|]
    requires |data| == size || (|data| < size && index + |data| == |whole|)
    ensures data == Slice(whole, index, size)
  {
  }

  /** An edit inside piece `i` is the same edit of the whole, `StartOf(segs, i)` further on. */
  lemma FlattenEdit<T>(segs: seq<seq<T>>, i: nat, lo: nat, hi: nat, p: seq<T>)
    requires i < |segs| && lo <= hi <= |segs[i]|
    ensures StartOf(segs, i) + hi <= |Flatten(segs)|
    ensures Flatten(segs[i := Edit(segs[i], lo, hi, p)])
         == Edit(Flatten(segs), StartOf(segs, i) + lo, StartOf(segs, i) + hi, p)
  {
    hide Flatten, Edit;
    FlattenAt(segs, i);
    FlattenUpdate(segs, i, Edit(segs[i], lo, hi, p));
    EditInside(Flatten(segs[..i]), segs[i], Flatten(segs[i + 1..]), lo, hi, p);
  }

  lemma EditInside<T>(a: seq<T>, s: seq<T>, b: seq<T>, lo: nat, hi: nat, p: seq<T>)
    requires lo <= hi <= |s|
    ensures Edit(a + s + b, |a| + lo, |a| + hi, p) == a + Edit(s, lo, hi, p) + b
  {
    assert (a + s + b)[..|a| + lo] == a + s[..lo];
    assert (a + s + b)[|a| + hi..] == s[hi..] + b;
  }

  ghost predicate SameCuts<T>(a: seq<seq<T>>, b: seq<seq<T>>) {
    |a| == |b| && forall i :: 0 <= i < |a| ==> |a[i]| == |b[i]|
  }

  lemma {:induction false} SameStarts<T>(a: seq<seq<T>>, b: seq<seq<T>>, i: nat)
    requires SameCuts(a, b) && i <= |a|
    ensures StartOf(a, i) == StartOf(b, i)
  {
    if i > 0 {
      SameStarts(a, b, i - 1);
      StartOfNext(a, i - 1);
      StartOfNext(b, i - 1);
    }
  }

  /** The piece that holds offset `offset`. */
  function Locate<T>(segs: seq<seq<T>>, offset: nat): (i: nat)
    requires offset < |Flatten(segs)|
    ensures i < |segs|
  {
    if offset < |segs[0]| then 0 else 1 + Locate(segs[1..], offset - |segs[0]|)
  }

  lemma {:induction false} LocateFound<T>(segs: seq<seq<T>>, offset: nat, i: nat)
    requires i < |segs| && StartOf(segs, i) <= offset < StartOf(segs, i) + |segs[i]|
    ensures offset < |Flatten(segs)| && Locate(segs, offset) == i
  {
    FlattenAt(segs, i);
    if i > 0 {
      assert segs[..i][1..] == segs[1..][..i - 1];
      LocateFound(segs[1..], offset - |segs[0]|, i - 1);
    }
  }

  lemma {:induction false} LocateStart<T>(segs: seq<seq<T>>, offset: nat)
    requires offset < |Flatten(segs)|
    ensures var i := Locate(segs, offset); StartOf(segs, i) <= offset < StartOf(segs, i) + |segs[i]|
  {
    var i := Locate(segs, offset);
    if offset >= |segs[0]| {
      LocateStart(segs[1..], offset - |segs[0]|);
      assert segs[..i][1..] == segs[1..][..i - 1];
    }
  }

  lemma Flatten3<T>(x: seq<T>, mid: seq<seq<T>>, rest: seq<seq<T>>)
    ensures Flatten([x] + mid + rest) == x + Flatten(mid) + Flatten(rest)
  {
    assert [x] + mid + rest == [x] + (mid + rest);
    FlattenConcat([x], mid + rest);
    FlattenConcat(mid, rest);
    FlattenOne(x);
  }

  /** Only the first piece may be empty. */
  ghost predicate Dense<T>(segs: seq<seq<T>>) {
    forall i :: 1 <= i < |segs| ==> segs[i] != []
  }

  /** `p` in pieces of `size`, the last one perhaps shorter. */
  function Chunks<T>(p: seq<T>, size: nat): seq<seq<T>>
    requires size > 0
  {
    if p == [] then [] else [p[..Min(|p|, size)]] + Chunks(p[Min(|p|, size)..], size)
  }

  /** The last piece is filled up to `size`, and what is left goes into new pieces. */
  function Appended<T>(segs: seq<seq<T>>, data: seq<T>, size: nat): seq<seq<T>>
    requires segs != [] && |segs[|segs| - 1]| <= size && size > 0
  {
    var n := |segs| - 1;
    var fit := Min(|data|, size - |segs[n]|);
    segs[n := segs[n] + data[..fit]] + Chunks(data[fit..], size)
  }

  /** The two branches of an append: into the last piece alone, or past its end. */
  lemma AppendedIs<T>(segs: seq<seq<T>>, data: seq<T>, size: nat)
    requires segs != [] && |segs[|segs| - 1]| <= size && size > 0
    ensures var n := |segs| - 1; var fit := size - |segs[n]|; var end := |segs[n]|;
      Appended(segs, data, size) ==
        if |data| > fit then segs[n := Edit(segs[n], end, end, data[..fit])] + Chunks(data[fit..], size)
        else segs[n := Edit(segs[n], end, end, data)]
  {
    hide Chunks;
    var n := |segs| - 1;
    var fit := Min(|data|, size - |segs[n]|);
    assert Edit(segs[n], |segs[n]|, |segs[n]|, data[..fit]) == segs[n] + data[..fit];
    if |data| <= size - |segs[n]| {
      assert data[..fit] == data;
      NoChunks(data[fit..], size);
      assert segs[n := segs[n] + data] + [] == segs[n := segs[n] + data];
    }
  }

  lemma {:induction false} ChunksAre<T>(p: seq<T>, size: nat)
    requires size > 0
    ensures Flatten(Chunks(p, size)) == p && [] !in Chunks(p, size)
  {
    if p != [] {
      ChunksAre(p[Min(|p|, size)..], size);
      assert p == p[..Min(|p|, size)] + p[Min(|p|, size)..];
    }
  }

  lemma NextChunk<T>(mid: seq<seq<T>>, p: seq<T>, size: nat)
    requires size > 0 && p != []
    ensures mid + [p[..Min(|p|, size)]] + Chunks(p[Min(|p|, size)..], size) == mid + Chunks(p, size)
  {
  }

  lemma NoChunks<T>(p: seq<T>, size: nat)
    requires size > 0 && p == []
    ensures Chunks(p, size) == []
  {
  }

  lemma AppendedToLast<T>(segs: seq<seq<T>>, p: seq<T>)
    requires segs != [] && Dense(segs)
    ensures var n := |segs| - 1; var filled := segs[n := Edit(segs[n], |segs[n]|, |segs[n]|, p)];
      Dense(filled) && Flatten(filled) == Flatten(segs) + p
  {
    hide Flatten;
    var n := |segs| - 1;
    FlattenEdit(segs, n, |segs[n]|, |segs[n]|, p);
    StartOfNext(segs, n);
    assert segs[..n + 1] == segs;
  }

  lemma PrependedToFirst<T>(segs: seq<seq<T>>, p: seq<T>)
    requires segs != [] && Dense(segs)
    ensures var filled := segs[0 := Edit(segs[0], 0, 0, p)];
      Dense(filled) && Flatten(filled) == p + Flatten(segs)
  {
    FlattenEdit(segs, 0, 0, 0, p);
  }

  /** The front of `data` fills the last piece, the rest makes the new pieces `mid`. */
  lemma AppendedInto<T>(segs: seq<seq<T>>, data: seq<T>, cut: nat, mid: seq<seq<T>>)
    requires segs != [] && Dense(segs) && cut <= |data| && Flatten(mid) == data[cut..] && [] !in mid
    ensures var n := |segs| - 1; var filled := segs[n := Edit(segs[n], |segs[n]|, |segs[n]|, data[..cut])];
      Dense(filled + mid) && Flatten(filled + mid) == Flatten(segs) + data
  {
    hide Flatten, Edit;
    var n := |segs| - 1;
    AppendedToLast(segs, data[..cut]);
    FlattenConcat(segs[n := Edit(segs[n], |segs[n]|, |segs[n]|, data[..cut])], mid);
    assert data == data[..cut] + data[cut..];
  }

  lemma AppendedFacts<T>(segs: seq<seq<T>>, data: seq<T>, size: nat)
    requires segs != [] && Dense(segs) && |segs[|segs| - 1]| <= size && size > 0
    ensures Dense(Appended(segs, data, size)) && Flatten(Appended(segs, data, size)) == Flatten(segs) + data
  {
    hide Flatten, Edit, Chunks, Dense, Appended;
    AppendedIs(segs, data, size);
    var fit := size - |segs[|segs| - 1]|;
    if |data| > fit {
      ChunksAre(data[fit..], size);
      AppendedInto(segs, data, fit, Chunks(data[fit..], size));
    } else {
      AppendedToLast(segs, data);
    }
  }

  /** The back of `data` goes to the front of the first piece, the rest makes new pieces before it. */
  lemma PrependedInto<T>(segs: seq<seq<T>>, data: seq<T>, cut: nat, x: seq<T>, mid: seq<seq<T>>)
    requires segs != [] && Dense(segs) && cut <= |data| && x + Flatten(mid) == data[..cut] && [] !in mid
    requires segs[0] != [] || cut < |data|
    ensures var filled := segs[0 := Edit(segs[0], 0, 0, data[cut..])];
      Dense([x] + mid + filled) && Flatten([x] + mid + filled) == data + Flatten(segs)
  {
    hide Flatten;
    var filled := segs[0 := Edit(segs[0], 0, 0, data[cut..])];
    PrependedToFirst(segs, data[cut..]);
    Flatten3(x, mid, filled);
    assert data == data[..cut] + data[cut..];
    assert filled[0] != [];
  }

  lemma SameCutsDense<T>(a: seq<seq<T>>, b: seq<seq<T>>)
    requires SameCuts(a, b) && Dense(b)
    ensures Dense(a) && |Flatten(a)| == |Flatten(b)|
  {
    SameStarts(a, b, |a|);
    StartOfEnds(a);
    StartOfEnds(b);
  }

  lemma FillStart(segs: seq<seq<byte>>, fill: byte, index: nat)
    requires index <= |Flatten(segs)|
    ensures SameCuts(segs, segs) && Flatten(segs) == Edit(Flatten(segs), index, index, Repeat(fill, 0))
  {
  }

  /** Filling piece `i` extends the filled range from `done` to `done + len` bytes. */
  lemma FillStep(segs: seq<seq<byte>>, cuts: seq<seq<byte>>, whole: seq<byte>,
                 i: nat, at: nat, len: nat, fill: byte, index: nat, done: nat)
    requires SameCuts(segs, cuts) && i < |segs| && at + len <= |segs[i]|
    requires StartOf(cuts, i) + at == index + done <= |whole|
    requires Flatten(segs) == Edit(whole, index, index + done, Repeat(fill, done))
    ensures var out := segs[i := Edit(segs[i], at, at + len, Repeat(fill, len))];
      && SameCuts(out, cuts)
      && index + done + len <= |whole|
      && Flatten(out) == Edit(whole, index, index + done + len, Repeat(fill, done + len))
    ensures at + len == |segs[i]| ==> StartOf(cuts, i + 1) == index + done + len
  {
    hide Flatten, Repeat;
    SameStarts(segs, cuts, i);
    FlattenEdit(segs, i, at, at + len, Repeat(fill, len));
    StartOfNext(cuts, i);
    assert Repeat(fill, done) + Repeat(fill, len) == Repeat(fill, done + len);
  }

  lemma FilledAll(segs: seq<seq<byte>>, cuts: seq<seq<byte>>, whole: seq<byte>, fill: byte, index: nat, size: nat)
    requires SameCuts(segs, cuts) && Dense(cuts) && whole == Flatten(cuts) && index < |whole|
    requires var n := Min(size, |whole| - index); Flatten(segs) == Edit(whole, index, index + n, Repeat(fill, n))
    ensures Dense(segs) && Flatten(segs) == Overwritten(whole, index, Repeat(fill, size)) && |Flatten(segs)| == |whole|
  {
    SameCutsDense(segs, cuts);
    var n := Min(size, |whole| - index);
    assert Repeat(fill, size)[..n] == Repeat(fill, n);
  }

  /** What an insert that overflows its block leaves: the tail displaced from the block
      stands before the part of `p` that did not fit. */
  function Spilled<T>(s: seq<T>, index: nat, end: nat, p: seq<T>, fit: nat): (r: seq<T>)
    requires index <= end <= |s| && fit <= |p|
    ensures |r| == |s| + |p|
  {
    s[..index] + p[..fit] + s[index..end] + p[fit..] + s[end..]
  }

  lemma SpilledFits<T>(s: seq<T>, index: nat, end: nat, p: seq<T>)
    requires index <= end <= |s|
    ensures Spilled(s, index, end, p, |p|) == Edit(s, index, index, p)
  {
    assert s[index..] == s[index..end] + s[end..];
  }

  /** The prefix and the suffix around piece `i` once `p` has been put into it. */
  lemma InsertHead<T>(segs: seq<seq<T>>, i: nat, at: nat, p: seq<T>)
    requires i < |segs| && at < |segs[i]| && Dense(segs)
    ensures var out := segs[i := Edit(segs[i], at, at, p)]; var start := StartOf(segs, i);
      && Dense(out) && start + |segs[i]| <= |Flatten(segs)|
      && Flatten(out) == Edit(Flatten(segs), start + at, start + at, p)
      && Flatten(out[..i + 1]) == Flatten(segs)[..start + at] + p + Flatten(segs)[start + at..start + |segs[i]|]
      && Flatten(out[i + 1..]) == Flatten(segs)[start + |segs[i]|..]
  {
    hide Flatten, Edit, StartOf;
    var out := segs[i := Edit(segs[i], at, at, p)];
    FlattenEdit(segs, i, at, at, p);
    StartOfBounds(segs, i);
    StartOfNext(out, i);
    assert out[..i] == segs[..i] && out[i + 1..] == segs[i + 1..];
    EditedFront(Flatten(segs), StartOf(segs, i), segs[i], at, p);
    EditDense(segs, i, at, p);
  }

  lemma EditDense<T>(segs: seq<seq<T>>, i: nat, at: nat, p: seq<T>)
    requires i < |segs| && at < |segs[i]| && Dense(segs)
    ensures Dense(segs[i := Edit(segs[i], at, at, p)])
  {
  }

  /** The edited piece, seen in the whole. */
  lemma EditedFront<T>(f: seq<T>, s: nat, seg: seq<T>, at: nat, p: seq<T>)
    requires s + |seg| <= |f| && f[s..s + |seg|] == seg && at <= |seg|
    ensures f[..s] + Edit(seg, at, at, p) == f[..s + at] + p + f[s + at..s + |seg|]
  {
    assert f[..s + at] == f[..s] + f[s..s + |seg|][..at];
    assert f[s + at..s + |seg|] == f[s..s + |seg|][at..];
  }

  lemma InsertPiece<T>(segs: seq<seq<T>>, i: nat, x: seq<T>)
    requires 0 < i <= |segs| && Dense(segs) && x != []
    ensures var out := Inserted(segs, i, x);
      Dense(out) && Flatten(out[..i + 1]) == Flatten(segs[..i]) + x && out[i + 1..] == segs[i..]
  {
    var out := Inserted(segs, i, x);
    assert out[..i] == segs[..i];
    StartOfNext(out, i);
  }

  lemma InsertBefore<T>(segs: seq<seq<T>>, i: nat, x: seq<T>)
    requires i < |segs| && Dense(segs)
    ensures var out := segs[i := Edit(segs[i], 0, 0, x)];
      Dense(out) && Flatten(out) == Flatten(segs[..i]) + x + Flatten(segs[i..])
  {
    hide Flatten;
    FlattenEdit(segs, i, 0, 0, x);
    assert segs == segs[..i] + segs[i..];
    FlattenConcat(segs[..i], segs[i..]);
  }

  /** A spilling insert is a true insert exactly when the displaced tail and the overflow commute. */
  lemma SpilledExact<T>(s: seq<T>, index: nat, end: nat, p: seq<T>, fit: nat)
    requires index <= end <= |s| && fit <= |p|
    ensures Spilled(s, index, end, p, fit) == Edit(s, index, index, p)
       <==> s[index..end] + p[fit..] == p[fit..] + s[index..end]
  {
    var t, r := s[index..end], p[fit..];
    var head, tail := s[..index] + p[..fit], s[end..];
    assert Spilled(s, index, end, p, fit) == head + (t + r) + tail;
    assert Edit(s, index, index, p) == head + (r + t) + tail by {
      assert p == p[..fit] + r;
      assert s[index..] == t + tail;
    }
    var a, b := head + (t + r) + tail, head + (r + t) + tail;
    assert a[|head|..|head| + |t| + |r|] == t + r;
    assert b[|head|..|head| + |t| + |r|] == r + t;
  }

  lemma SpilledKeeps<T>(s: seq<T>, index: nat, end: nat, p: seq<T>, fit: nat)
    requires index <= end <= |s| && fit <= |p|
    ensures var out := Spilled(s, index, end, p, fit);
      out[..index] == s[..index] && multiset(out) == multiset(s) + multiset(p)
  {
    assert s == s[..index] + s[index..end] + s[end..];
    assert p == p[..fit] + p[fit..];
  }

  /** Bytes equal to `x` throughout. */
  ghost predicate AllAre<T>(s: seq<T>, x: T) {
    forall i :: 0 <= i < |s| ==> s[i] == x
  }

  /** Zeros spilled in place of `n` bytes `fill`, behind the displaced tail `t`. */
  lemma ZeroSpillExact(t: seq<byte>, fill: byte, n: nat)
    requires t != [] && 0 < n
    ensures t + Repeat(0, n) == Repeat(fill, n) + t <==> fill == 0 && AllAre(t, 0)
  {
    if t + Repeat(0, n) == Repeat(fill, n) + t {
      ZeroSpillTail(t, fill, n, |t|);
      var both := t + Repeat(0, n);
      assert both[|t|] == 0;
      assert both[0] == (Repeat(fill, n) + t)[0] == fill;
    }
  }

  lemma SpilledParts(s: seq<byte>, index: nat, end: nat, fill: byte, fit: nat, n: nat)
    requires index < end <= |s|
    ensures var t, head, tail := s[index..end], s[..index] + Repeat(fill, fit), s[end..];
      && Spilled(s, index, end, Repeat(fill, fit) + Repeat(0, n), fit) == head + (t + Repeat(0, n)) + tail
      && Edit(s, index, index, Repeat(fill, fit + n)) == head + (Repeat(fill, n) + t) + tail
  {
    hide Repeat;
    var t, data := s[index..end], Repeat(fill, fit) + Repeat(0, n);
    assert data[..fit] == Repeat(fill, fit) && data[fit..] == Repeat(0, n);
    assert Repeat(fill, fit + n) == Repeat(fill, fit) + Repeat(fill, n);
    assert s[index..] == t + s[end..];
  }

  /** A spilling fill whose overflow is written as zeros. */
  lemma SpilledZeros(s: seq<byte>, index: nat, end: nat, fill: byte, fit: nat, n: nat)
    requires index < end <= |s|
    ensures Spilled(s, index, end, Repeat(fill, fit) + Repeat(0, n), fit)
         == Edit(s, index, index, Repeat(fill, fit + n))
      <==> n == 0 || (fill == 0 && AllAre(s[index..end], 0))
  {
    hide AllAre, Repeat, Spilled, Edit;
    SpilledParts(s, index, end, fill, fit, n);
    var t, head, tail := s[index..end], s[..index] + Repeat(fill, fit), s[end..];
    var a, b := head + (t + Repeat(0, n)) + tail, head + (Repeat(fill, n) + t) + tail;
    assert a[|head|..|head| + |t| + n] == t + Repeat(0, n);
    assert b[|head|..|head| + |t| + n] == Repeat(fill, n) + t;
    if n > 0 {
      ZeroSpillExact(t, fill, n);
    } else {
      assert t + Repeat(0, n) == Repeat(fill, n) + t;
    }
  }

  lemma {:induction false} ZeroSpillTail(t: seq<byte>, fill: byte, n: nat, k: nat)
    requires 0 < n && k <= |t| && t + Repeat(0, n) == Repeat(fill, n) + t
    ensures forall i :: |t| - k <= i < |t| ==> t[i] == 0
  {
    if k > 0 {
      ZeroSpillTail(t, fill, n, k - 1);
      var i := |t| - k;
      var l, r := t + Repeat(0, n), Repeat(fill, n) + t;
      assert r[i + n] == t[i];
      assert l[i + n] == 0;
    }
  }

  /** Dropping an empty piece changes nothing. */
  lemma EmptyRemoved<T>(segs: seq<seq<T>>, i: nat)
    requires i < |segs| && segs[i] == []
    ensures Flatten(Removed(segs, i)) == Flatten(segs)
  {
    FlattenAt(segs, i);
    FlattenRemoved(segs, i);
  }

  /** What is left around piece `i` once its bytes from `at` on are gone. */
  lemma TailCut<T>(segs: seq<seq<T>>, i: nat, at: nat)
    requires i < |segs| && at < |segs[i]|
    ensures var out := segs[i := segs[i][..at]]; var start := StartOf(segs, i);
      && start + |segs[i]| <= |Flatten(segs)|
      && Flatten(out[..i]) == Flatten(segs)[..start] && Flatten(out[..i + 1]) == Flatten(segs)[..start + at]
      && Flatten(out[i + 1..]) == Flatten(segs)[start + |segs[i]|..]
  {
    hide Flatten;
    var out := segs[i := segs[i][..at]];
    StartOfBounds(segs, i);
    StartOfNext(out, i);
    assert out[..i] == segs[..i] && out[i + 1..] == segs[i + 1..];
    var f, s := Flatten(segs), StartOf(segs, i);
    assert f[..s + at] == f[..s] + f[s..s + |segs[i]|][..at];
  }

  /** Piece `k` is the first of the rest. */
  lemma FirstOfRest<T>(segs: seq<seq<T>>, k: nat)
    requires k < |segs|
    ensures Flatten(segs[k..]) == segs[k] + Flatten(segs[k + 1..])
  {
    assert segs[k..][1..] == segs[k + 1..];
  }

  /** `s` without the `size` items from `index` on, or as many of them as there are. */
  function Cut<T>(s: seq<T>, index: nat, size: nat): seq<T> {
    if index >= |s| then s else Edit(s, index, Min(index + size, |s|), [])
  }

  /** The range of `size` items from `index` on ends inside the piece it starts in. */
  ghost predicate InOnePiece<T>(segs: seq<seq<T>>, index: nat, size: nat)
    requires index < |Flatten(segs)|
  {
    var i := Locate(segs, index);
    index + size <= StartOf(segs, i) + |segs[i]|
  }

  /** They are in one piece, and not all of it. */
  ghost predicate InsidePiece<T>(segs: seq<seq<T>>, index: nat, size: nat) {
    index < |Flatten(segs)| && InOnePiece(segs, index, size) && size < |segs[Locate(segs, index)]|
  }

  /** The pieces without them. */
  ghost function CutInside<T>(segs: seq<seq<T>>, index: nat, size: nat): seq<seq<T>>
    requires InsidePiece(segs, index, size)
  {
    LocateStart(segs, index);
    var i := Locate(segs, index);
    var at := index - StartOf(segs, i);
    segs[i := Edit(segs[i], at, at + size, [])]
  }

  /** `k` is where the kept front ends; the rest starts `gone` items after `index`. */
  ghost predicate CutSoFar<T>(segs: seq<seq<T>>, k: nat, whole: seq<T>, index: nat, gone: nat)
    requires k <= |segs|
  {
    && index + gone <= |whole|
    && Flatten(segs[..k]) == whole[..index]
    && Flatten(segs[k..]) == whole[index + gone..]
  }

  lemma CutPiece<T>(segs: seq<seq<T>>, k: nat, whole: seq<T>, index: nat, gone: nat)
    requires 1 <= k < |segs| && Dense(segs) && CutSoFar(segs, k, whole, index, gone)
    ensures segs[k] != []
    ensures Dense(Removed(segs, k)) && CutSoFar(Removed(segs, k), k, whole, index, gone + |segs[k]|)
  {
    hide Flatten;
    var out := Removed(segs, k);
    assert out[..k] == segs[..k] && out[k..] == segs[k + 1..];
    FirstOfRest(segs, k);
  }

  lemma CutPart<T>(segs: seq<seq<T>>, k: nat, n: nat, whole: seq<T>, index: nat, gone: nat)
    requires 1 <= k < |segs| && Dense(segs) && CutSoFar(segs, k, whole, index, gone) && n < |segs[k]|
    ensures var out := segs[k := segs[k][n..]]; Dense(out) && CutSoFar(out, k, whole, index, gone + n)
  {
    hide Flatten;
    var out := segs[k := segs[k][n..]];
    assert out[..k] == segs[..k] && out[k + 1..] == segs[k + 1..];
    FirstOfRest(segs, k);
    FirstOfRest(out, k);
  }

  lemma CutDone<T>(segs: seq<seq<T>>, k: nat, whole: seq<T>, index: nat, size: nat, gone: nat)
    requires k <= |segs| && CutSoFar(segs, k, whole, index, gone) && index < |whole|
    requires gone == size || (k == |segs| && gone <= size)
    ensures Flatten(segs) == Cut(whole, index, size) && |Flatten(segs)| == |whole| - gone
  {
    SplitFlat(segs, k);
  }

  lemma StartCut<T>(segs: seq<seq<T>>, k: nat, whole: seq<T>, index: nat, gone: nat)
    requires k <= |segs| && index + gone <= |whole|
    requires Flatten(segs[..k]) == whole[..index] && Flatten(segs[k..]) == whole[index + gone..]
    ensures CutSoFar(segs, k, whole, index, gone)
  {
  }

  /** Pieces of the same sizes still hold the `n` bytes that should have gone from piece `k`. */
  lemma CutPartLength<T>(segs: seq<seq<T>>, k: nat, n: nat, whole: seq<T>, index: nat, size: nat)
    requires 1 <= k < |segs| && 0 < n < |segs[k]| && n < size && CutSoFar(segs, k, whole, index, size - n)
    ensures forall out :: SameCuts(out, segs) ==> |Flatten(out)| > |Cut(whole, index, size)|
  {
    forall out | SameCuts(out, segs)
      ensures |Flatten(out)| > |Cut(whole, index, size)|
    {
      SameStarts(out, segs, |segs|);
      StartOfEnds(out);
      StartOfEnds(segs);
      SplitFlat(segs, k);
      FirstOfRest(segs, k);
    }
  }

  // ---- sequences that commute

  /** `n` copies of the word `w`. */
  function Power<T>(w: seq<T>, n: nat): seq<T> {
    if n == 0 then [] else w + Power(w, n - 1)
  }

  lemma {:induction false} PowerSum<T>(w: seq<T>, i: nat, j: nat)
    ensures Power(w, i + j) == Power(w, i) + Power(w, j)
  {
    if i > 0 {
      PowerSum(w, i - 1, j);
      assert Power(w, i) == w + Power(w, i - 1);
      assert Power(w, i + j) == w + Power(w, i + j - 1);
    } else {
      assert Power(w, 0) + Power(w, j) == Power(w, j);
    }
  }

  lemma PowerOne<T>(w: seq<T>)
    ensures Power(w, 1) == w && Power(w, 0) == []
  {
    assert Power(w, 1) == w + Power(w, 0);
  }

  ghost predicate OneWord<T(!new)>(a: seq<T>, b: seq<T>) {
    exists w: seq<T>, i: nat, j: nat :: a == Power(w, i) && b == Power(w, j)
  }

  /** Two sequences commute exactly if both are repetitions of one word. */
  lemma CommuteIff<T(!new)>(a: seq<T>, b: seq<T>)
    ensures a + b == b + a <==> OneWord(a, b)
  {
    hide Power;
    if a + b == b + a {
      var w, i, j := WordOf(a, b);
    }
    if OneWord(a, b) {
      var w: seq<T>, i: nat, j: nat :| a == Power(w, i) && b == Power(w, j);
      PowerSum(w, i, j);
      PowerSum(w, j, i);
    }
  }

  lemma {:induction false} WordOf<T>(a: seq<T>, b: seq<T>) returns (w: seq<T>, i: nat, j: nat)
    requires a + b == b + a
    ensures a == Power(w, i) && b == Power(w, j)
    decreases |a| + |b|
  {
    hide Power;
    if a == [] {
      w, i, j := b, 0, 1;
      PowerOne(w);
    } else if b == [] {
      w, i, j := a, 1, 0;
      PowerOne(w);
    } else if |a| <= |b| {
      var rest := ShorterRest(a, b);
      w, i, j := WordOf(a, rest);
      PowerSum(w, i, j);
      j := i + j;
    } else {
      var rest := ShorterRest(b, a);
      w, i, j := WordOf(rest, b);
      PowerSum(w, j, i);
      i := j + i;
    }
  }

  /** The shorter one begins the longer, and commutes with what is left of it. */
  lemma ShorterRest<T>(a: seq<T>, b: seq<T>) returns (rest: seq<T>)
    requires a + b == b + a && |a| <= |b|
    ensures b == a + rest && a + rest == rest + a && |rest| == |b| - |a|
  {
    rest := b[|a|..];
    assert (a + b)[..|a|] == a && (b + a)[..|a|] == b[..|a|];
    assert b == a + rest;
    assert (a + b)[|a|..] == b && (b + a)[|a|..] == rest + a;
  }
}
