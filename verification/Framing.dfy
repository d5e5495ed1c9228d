/**
 Cutting a byte buffer into server-sent-event frames, and what that means for chunked input (sections 9.2.5 and 9.2.6
 of the WHATWG HTML Standard).

 The parser looks for LF LF anywhere in its buffer before it looks for CR LF CR LF.  Framing is
 therefore independent of how the bytes were chunked exactly when no CR LF CR LF precedes an LF LF
 in the stream.
 */
module Framing {
  import opened Basics
  import opened Utf8

  datatype Separator = Lf | Crlf
  {
    function Bytes(): (bs: seq<byte>) { if Lf? then [10, 10] else [13, 10, 13, 10] }
    function Len(): (n: nat) { if Lf? then 2 else 4 }
  }

  /** Does separator `sep` stand at position `i`? */
  predicate At(bs: seq<byte>, sep: Separator, i: int)
  {
    0 <= i && i + sep.Len() <= |bs| &&
    if sep.Lf? then bs[i] == 10 && bs[i + 1] == 10
    else bs[i] == 13 && bs[i + 1] == 10 && bs[i + 2] == 13 && bs[i + 3] == 10
  }

  /** Leftmost position of `sep` at or after `from`. */
  function Find(bs: seq<byte>, sep: Separator, from: nat): (r: Option<nat>)
    ensures r.Some? ==> from <= r.value && At(bs, sep, r.value)
    ensures forall i :: from <= i && (r.None? || i < r.value) ==> !At(bs, sep, i)
    decreases |bs| - from
  {
    if from + sep.Len() > |bs| then None
    else if At(bs, sep, from) then Some(from)
    else Find(bs, sep, from + 1)
  }

  /** A frame taken off the front of a buffer, and the separator that ended it. */
  datatype Cut = Cut(frame: seq<byte>, sep: Separator)
  {
    function Len(): (n: nat) { |frame| + sep.Len() }
  }

  function NextCut(buffer: seq<byte>): (r: Option<Cut>)
    ensures r.Some? ==> At(buffer, r.value.sep, |r.value.frame|) && r.value.frame == buffer[..|r.value.frame|]
  {
    match Find(buffer, Lf, 0)
    case Some(p) => Some(Cut(buffer[..p], Lf))
    case None =>
      match Find(buffer, Crlf, 0)
      case Some(p) => Some(Cut(buffer[..p], Crlf))
      case None => None
  }

  /** All frames one push takes from `buffer`, and the bytes it leaves behind. */
  function Drain(buffer: seq<byte>): (r: (seq<Cut>, seq<byte>))
    decreases |buffer|
  {
    match NextCut(buffer)
    case None => ([], buffer)
    case Some(cut) =>
      var (cuts, rest) := Drain(buffer[cut.Len()..]);
      ([cut] + cuts, rest)
  }

  /** Pushing `chunks` one after another on top of `buffer`. */
  function DrainChunks(buffer: seq<byte>, chunks: seq<seq<byte>>): (r: (seq<Cut>, seq<byte>))
    decreases |chunks|
  {
    if chunks == [] then ([], buffer)
    else
      var (cuts, rest) := Drain(buffer + chunks[0]);
      var (more, last) := DrainChunks(rest, chunks[1..]);
      (cuts + more, last)
  }

  function Concat(chunks: seq<seq<byte>>): (bs: seq<byte>)
  {
    if chunks == [] then [] else chunks[0] + Concat(chunks[1..])
  }

  function Bytes(cuts: seq<Cut>): (bs: seq<byte>)
  {
    if cuts == [] then [] else cuts[0].frame + cuts[0].sep.Bytes() + Bytes(cuts[1..])
  }

  lemma {:induction false} BytesConcat(a: seq<Cut>, b: seq<Cut>)
    ensures Bytes(a + b) == Bytes(a) + Bytes(b)
  {
    if a == [] {
      assert a + b == b;
    } else {
      assert (a + b)[1..] == a[1..] + b;
      BytesConcat(a[1..], b);
    }
  }

  lemma SeparatorBytes(bs: seq<byte>, sep: Separator, i: nat)
    requires At(bs, sep, i)
    ensures bs == bs[..i] + sep.Bytes() + bs[i + sep.Len()..]
  {
    assert bs[i..i + sep.Len()] == sep.Bytes();
  }

  /** No byte is lost or invented by one push. */
  lemma {:induction false} DrainConserves(buffer: seq<byte>)
    ensures Bytes(Drain(buffer).0) + Drain(buffer).1 == buffer
    decreases |buffer|
  {
    match NextCut(buffer)
    case None =>
    case Some(cut) =>
      var rest := buffer[cut.Len()..];
      DrainConserves(rest);
      SeparatorBytes(buffer, cut.sep, |cut.frame|);
      var (cuts, last) := Drain(rest);
      assert ([cut] + cuts)[1..] == cuts;
      assert Bytes([cut] + cuts) + last == cut.frame + cut.sep.Bytes() + (Bytes(cuts) + last);
  }

  /** For any stream at all: drained frames, their separators and the buffer are the bytes pushed. */
  lemma {:induction false} ChunksConserve(buffer: seq<byte>, chunks: seq<seq<byte>>)
    ensures var r := DrainChunks(buffer, chunks); Bytes(r.0) + r.1 == buffer + Concat(chunks)
    decreases |chunks|
  {
    if chunks == [] {
      assert buffer + [] == buffer;
    } else {
      var (cuts, rest) := Drain(buffer + chunks[0]);
      var (more, last) := DrainChunks(rest, chunks[1..]);
      DrainConserves(buffer + chunks[0]);
      ChunksConserve(rest, chunks[1..]);
      BytesConcat(cuts, more);
      Regroup(Bytes(cuts), rest, Concat(chunks[1..]), buffer, chunks[0], Bytes(more), last);
    }
  }

  lemma Regroup(a: seq<byte>, rest: seq<byte>, tail: seq<byte>, buffer: seq<byte>, chunk: seq<byte>, b: seq<byte>,
                last: seq<byte>)
    requires a + rest == buffer + chunk && b + last == rest + tail
    ensures a + b + last == buffer + (chunk + tail)
  {
    assert a + b + last == a + (b + last);
    assert a + (rest + tail) == (a + rest) + tail;
  }

  /** No CR LF CR LF comes before an LF LF. */
  ghost predicate LfFirst(bs: seq<byte>)
  {
    forall p, q :: At(bs, Crlf, p) && At(bs, Lf, q) ==> q < p
  }

  /** The cut a prefix allows is the cut of the whole. */
  lemma NextCutStable(a: seq<byte>, b: seq<byte>)
    requires LfFirst(a + b) && NextCut(a).Some?
    ensures NextCut(a + b) == NextCut(a)
  {
    var cut := NextCut(a).value;
    var p := |cut.frame|;
    assert At(a + b, cut.sep, p);
    var lf := Find(a + b, Lf, 0);
    if cut.sep == Lf {
      assert forall i :: 0 <= i < p ==> At(a + b, Lf, i) ==> At(a, Lf, i);
    } else {
      assert forall i :: 0 <= i < p ==> At(a + b, Lf, i) ==> At(a, Lf, i);
      assert lf.None?;
      assert Find(a, Crlf, 0) == Some(p);
      assert forall i :: 0 <= i < p ==> At(a + b, Crlf, i) ==> At(a, Crlf, i);
      assert Find(a + b, Crlf, 0) == Some(p);
    }
    assert (a + b)[..p] == a[..p];
  }

  lemma SuffixLfFirst(bs: seq<byte>, k: nat)
    requires LfFirst(bs) && k <= |bs|
    ensures LfFirst(bs[k..])
  {
    forall p, q | At(bs[k..], Crlf, p) && At(bs[k..], Lf, q) ensures q < p {
      assert At(bs, Crlf, p + k) && At(bs, Lf, q + k);
    }
  }

  /** Draining a prefix first, then the remainder with the rest of the bytes, changes nothing. */
  lemma {:induction false} DrainSplit(a: seq<byte>, b: seq<byte>)
    requires LfFirst(a + b)
    ensures var (cuts, rest) := Drain(a); Drain(a + b) == (cuts + Drain(rest + b).0, Drain(rest + b).1)
    decreases |a|
  {
    match NextCut(a)
    case None =>
      assert [] + Drain(a + b).0 == Drain(a + b).0;
    case Some(cut) =>
      NextCutStable(a, b);
      var k := cut.Len();
      assert (a + b)[k..] == a[k..] + b;
      SuffixLfFirst(a + b, k);
      DrainSplit(a[k..], b);
      var (cuts, rest) := Drain(a[k..]);
      assert [cut] + (cuts + Drain(rest + b).0) == ([cut] + cuts) + Drain(rest + b).0;
  }

  lemma RestLfFirst(a: seq<byte>, b: seq<byte>)
    requires LfFirst(a + b)
    ensures LfFirst(Drain(a).1 + b)
  {
    var k := |Bytes(Drain(a).0)|;
    DrainConserves(a);
    SuffixLfFirst(a + b, k);
    assert (a + b)[k..] == Drain(a).1 + b;
  }

  /** Under the condition, any chunking frames the stream as one push does. */
  lemma {:induction false} ChunkingInvariant(buffer: seq<byte>, chunks: seq<seq<byte>>)
    requires LfFirst(buffer + Concat(chunks)) && NextCut(buffer).None?
    ensures DrainChunks(buffer, chunks) == Drain(buffer + Concat(chunks))
    decreases |chunks|
  {
    if chunks == [] {
      assert buffer + [] == buffer;
    } else {
      var whole, tail := buffer + chunks[0], Concat(chunks[1..]);
      assert buffer + Concat(chunks) == whole + tail;
      DrainSplit(whole, tail);
      DrainLeavesNoCut(whole);
      RestLfFirst(whole, tail);
      ChunkingInvariant(Drain(whole).1, chunks[1..]);
    }
  }

  lemma {:induction false} DrainLeavesNoCut(buffer: seq<byte>)
    ensures NextCut(Drain(buffer).1).None?
    decreases |buffer|
  {
    match NextCut(buffer)
    case None =>
    case Some(cut) => DrainLeavesNoCut(buffer[cut.Len()..]);
  }

  lemma TwoChunks(a: seq<byte>, b: seq<byte>)
    ensures var (cuts, rest) := Drain(a); DrainChunks([], [a, b]) == (cuts + Drain(rest + b).0, Drain(rest + b).1)
  {
    var (cuts, rest) := Drain(a);
    assert [] + a == a && [a, b][1..] == [b] && [b][1..] == [];
    assert DrainChunks(Drain(rest + b).1, []) == ([], Drain(rest + b).1);
    assert Drain(rest + b).0 + [] == Drain(rest + b).0;
    assert DrainChunks(rest, [b]) == Drain(rest + b);
  }

  /** Pushing `head` and then `tail` frames differently from pushing them together. */
  ghost predicate SplitDiffers(head: seq<byte>, tail: seq<byte>)
  {
    Drain(head).0 + Drain(Drain(head).1 + tail).0 != Drain(head + tail).0
  }

  /** A first LF LF frame inside `head` is common to both ways, so the difference is further on. */
  lemma SplitDiffersLater(head: seq<byte>, tail: seq<byte>)
    requires NextCut(head).Some? && NextCut(head) == NextCut(head + tail)
    requires SplitDiffers(head[NextCut(head).value.Len()..], tail)
    ensures SplitDiffers(head, tail)
  {
    var cut := NextCut(head).value;
    var later := head[cut.Len()..];
    assert (head + tail)[cut.Len()..] == later + tail;
    var (cuts, rest) := Drain(later);
    var ours := cuts + Drain(rest + tail).0;
    assert ([cut] + cuts) + Drain(rest + tail).0 == [cut] + ours;
    assert ([cut] + ours)[1..] == ours;
    assert ([cut] + Drain(later + tail).0)[1..] == Drain(later + tail).0;
  }

  /** `head` ends with its only CR LF CR LF, and an LF LF comes later. */
  ghost predicate EndsInCrlf(head: seq<byte>, tail: seq<byte>)
  {
    && |head| >= 4 && At(head, Crlf, |head| - 4)
    && (forall i :: 0 <= i < |head| - 4 ==> !At(head, Crlf, i))
    && exists q :: At(head + tail, Lf, q) && |head| - 4 < q
  }

  lemma FirstFrameDiffers(head: seq<byte>, tail: seq<byte>, lf: nat)
    requires EndsInCrlf(head, tail) && Find(head + tail, Lf, 0) == Some(lf) && |head| - 4 <= lf
    ensures SplitDiffers(head, tail)
  {
    var bs, p := head + tail, |head| - 4;
    assert forall i :: 0 <= i ==> At(head, Lf, i) ==> At(bs, Lf, i);
    assert Find(head, Lf, 0).None?;
    assert Find(head, Crlf, 0) == Some(p);
    assert Drain(head).0[0] == Cut(head[..p], Crlf);
    assert Drain(bs).0[0] == Cut(bs[..lf], Lf);
  }

  lemma AfterFirstLf(head: seq<byte>, tail: seq<byte>, lf: nat)
    requires EndsInCrlf(head, tail) && Find(head + tail, Lf, 0) == Some(lf) && lf < |head| - 4
    ensures lf + 2 <= |head| && NextCut(head) == NextCut(head + tail) == Some(Cut(head[..lf], Lf))
    ensures EndsInCrlf(head[lf + 2..], tail)
  {
    var bs, p, k := head + tail, |head| - 4, lf + 2;
    assert At(head, Lf, lf);
    assert forall i :: 0 <= i < lf ==> At(head, Lf, i) ==> At(bs, Lf, i);
    assert head[..lf] == bs[..lf];
    var later := head[k..];
    assert later + tail == bs[k..];
    var q :| At(bs, Lf, q) && p < q;
    assert At(later + tail, Lf, q - k);
    assert At(later, Crlf, p - k);
    forall i | 0 <= i < p - k ensures !At(later, Crlf, i) {
      assert At(later, Crlf, i) ==> At(head, Crlf, i + k);
    }
  }

  /** Where the condition fails, a split right after the first CR LF CR LF shows it. */
  lemma {:induction false} SplitAfterCrlfDiffers(head: seq<byte>, tail: seq<byte>)
    requires EndsInCrlf(head, tail)
    ensures SplitDiffers(head, tail)
    decreases |head|
  {
    var lf := Find(head + tail, Lf, 0).value;
    if lf < |head| - 4 {
      AfterFirstLf(head, tail, lf);
      SplitAfterCrlfDiffers(head[lf + 2..], tail);
      SplitDiffersLater(head, tail);
    } else {
      FirstFrameDiffers(head, tail, lf);
    }
  }

  /** A stream that breaks the condition has a chunking that frames it differently. */
  lemma BadChunking(bs: seq<byte>) returns (chunks: seq<seq<byte>>)
    requires !LfFirst(bs)
    ensures Concat(chunks) == bs && DrainChunks([], chunks) != Drain(bs)
  {
    var p0, q :| At(bs, Crlf, p0) && At(bs, Lf, q) && p0 <= q;
    var p := Find(bs, Crlf, 0).value;
    var head, tail := bs[..p + 4], bs[p + 4..];
    assert bs == head + tail;
    assert forall i :: 0 <= i < p ==> At(head, Crlf, i) ==> At(bs, Crlf, i);
    assert At(head + tail, Lf, q) && |head| - 4 < q;
    SplitAfterCrlfDiffers(head, tail);
    TwoChunks(head, tail);
    chunks := [head, tail];
    assert chunks[1..] == [tail] && [tail][1..] == [];
    assert Concat([tail]) == tail;
  }

  /** The exact law: framing is independent of the chunking if and only if no CR LF CR LF precedes
      an LF LF in the stream. */
  lemma ChunkingLaw(bs: seq<byte>)
    ensures (forall chunks :: Concat(chunks) == bs ==> DrainChunks([], chunks) == Drain(bs)) <==> LfFirst(bs)
  {
    assert [] + bs == bs;
    if LfFirst(bs) {
      forall chunks | Concat(chunks) == bs ensures DrainChunks([], chunks) == Drain(bs) {
        ChunkingInvariant([], chunks);
      }
    } else {
      var chunks := BadChunking(bs);
    }
  }
}
