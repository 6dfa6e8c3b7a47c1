/**
  Cutting a compressed byte stream into payloads at the marker 00 00 FF FF
  (src/Discord/IngestThread.cpp), independently of how the stream arrives.
*/
module StreamSplitter {
  type Bytes = seq<bv8>

  const MARKER: Bytes := [0x00, 0x00, 0xFF, 0xFF]

  predicate MarkerAt(s: Bytes, i: int) {
    0 <= i && i + 4 <= |s| && s[i..i + 4] == MARKER
  }

  /** The marker is the bytes 00 00 FF FF. */
  lemma MarkerBytes(s: Bytes, i: int)
    ensures MarkerAt(s, i) <==>
            0 <= i && i + 4 <= |s| && s[i] == 0x00 && s[i + 1] == 0x00 && s[i + 2] == 0xFF && s[i + 3] == 0xFF
  {
    if 0 <= i && i + 4 <= |s| {
      var four := s[i..i + 4];
      assert four == [s[i], s[i + 1], s[i + 2], s[i + 3]];
      if four == MARKER {
        assert four[0] == 0x00 && four[1] == 0x00 && four[2] == 0xFF && four[3] == 0xFF;
      }
    }
  }

  ghost predicate NoMarker(s: Bytes) {
    forall i :: !MarkerAt(s, i)
  }

  /** A payload ends with a marker and holds no other. */
  ghost predicate Payload(s: Bytes) {
    MarkerAt(s, |s| - 4) && forall i :: i < |s| - 4 ==> !MarkerAt(s, i)
  }

  ghost function Concat(xs: seq<Bytes>): Bytes {
    if xs == [] then [] else xs[0] + Concat(xs[1..])
  }

  lemma {:induction false} ConcatAppend(a: seq<Bytes>, b: seq<Bytes>)
    ensures Concat(a + b) == Concat(a) + Concat(b)
  {
    if a == [] {
      assert a + b == b;
    } else {
      assert (a + b)[1..] == a[1..] + b;
      ConcatAppend(a[1..], b);
      assert a[0] + (Concat(a[1..]) + Concat(b)) == a[0] + Concat(a[1..]) + Concat(b);
    }
  }

  lemma ConcatOne(x: Bytes)
    ensures Concat([x]) == x
  {
    assert [x][1..] == [];
  }

  /** `s` is the payloads one after another, then a rest without a marker. */
  ghost predicate IsSplit(s: Bytes, payloads: seq<Bytes>, rest: Bytes) {
    && s == Concat(payloads) + rest
    && (forall p :: p in payloads ==> Payload(p))
    && NoMarker(rest)
  }

  lemma MarkerInPrefix(a: Bytes, b: Bytes, i: int)
    requires i + 4 <= |a|
    ensures MarkerAt(a + b, i) <==> MarkerAt(a, i)
  {
    if 0 <= i {
      assert (a + b)[i..i + 4] == a[i..i + 4];
    }
  }

  /** A stream can be cut in one way only. */
  lemma {:induction false} SplitUnique(s: Bytes, p1: seq<Bytes>, r1: Bytes, p2: seq<Bytes>, r2: Bytes)
    requires IsSplit(s, p1, r1) && IsSplit(s, p2, r2)
    ensures p1 == p2 && r1 == r2
    decreases |p1|
  {
    if p1 == [] && p2 == [] {
      EmptySplit(s, r1);
      EmptySplit(s, r2);
    } else if p1 == [] {
      EmptySplit(s, r1);
      FirstPayload(s, p2, r2);
    } else if p2 == [] {
      EmptySplit(s, r2);
      FirstPayload(s, p1, r1);
    } else {
      FirstPayload(s, p1, r1);
      FirstPayload(s, p2, r2);
      assert |p1[0]| == |p2[0]|;
      var n := |p1[0]|;
      assert p1[0] == s[..n] == p2[0];
      SplitUnique(s[n..], p1[1..], r1, p2[1..], r2);
    }
  }

  lemma EmptySplit(s: Bytes, r: Bytes)
    requires IsSplit(s, [], r)
    ensures s == r && NoMarker(s)
  {
    assert s == r;
  }

  /** The first payload is the shortest prefix of the stream that ends with a marker. */
  lemma FirstPayload(s: Bytes, p: seq<Bytes>, r: Bytes)
    requires IsSplit(s, p, r) && p != []
    ensures |p[0]| <= |s| && p[0] == s[..|p[0]|] && IsSplit(s[|p[0]|..], p[1..], r)
    ensures MarkerAt(s, |p[0]| - 4) && forall i :: i < |p[0]| - 4 ==> !MarkerAt(s, i)
  {
    var head, tail := p[0], Concat(p[1..]) + r;
    assert Payload(head);
    assert s == head + tail;
    MarkerInPrefix(head, tail, |head| - 4);
    forall i | i < |head| - 4 ensures !MarkerAt(s, i) {
      MarkerInPrefix(head, tail, i);
    }
    assert s[|head|..] == tail;
  }

  /** Cutting what was left over together with new input continues the cut of everything before it. */
  lemma SplitContinues(s: Bytes, payloads: seq<Bytes>, rest: Bytes, more: Bytes, next: seq<Bytes>, rest': Bytes)
    requires IsSplit(s, payloads, rest) && IsSplit(rest + more, next, rest')
    ensures IsSplit(s + more, payloads + next, rest')
  {
    ConcatAppend(payloads, next);
    assert s + more == Concat(payloads) + (rest + more);
    assert Concat(payloads) + (Concat(next) + rest') == Concat(payloads + next) + rest';
  }

  /** The first marker at or after `from`, or -1. */
  function IndexOf(s: Bytes, from: nat): (i: int)
    requires from <= |s|
    ensures i == -1 ==> forall k :: from <= k ==> !MarkerAt(s, k)
    ensures i != -1 ==> from <= i && MarkerAt(s, i) && forall k :: from <= k < i ==> !MarkerAt(s, k)
    decreases |s| - from
  {
    if MarkerAt(s, from) then from
    else if from == |s| then -1
    else IndexOf(s, from + 1)
  }

  /** The part of a buffer from one cursor to the end of the next marker is a payload. */
  lemma SegmentIsPayload(s: Bytes, cursor: nat, i: int)
    requires cursor <= i && MarkerAt(s, i) && forall k :: cursor <= k < i ==> !MarkerAt(s, k)
    ensures Payload(s[cursor..i + 4])
  {
    var seg := s[cursor..i + 4];
    SliceMarker(s, cursor, i + 4, i - cursor);
    forall k | k < |seg| - 4 ensures !MarkerAt(seg, k) {
      if 0 <= k {
        SliceMarker(s, cursor, i + 4, k);
      }
    }
  }

  lemma SliceMarker(s: Bytes, lo: nat, hi: nat, k: nat)
    requires lo <= hi <= |s| && k + 4 <= hi - lo
    ensures MarkerAt(s[lo..hi], k) <==> MarkerAt(s, lo + k)
  {
    var inner, outer := s[lo..hi][k..k + 4], s[lo + k..lo + k + 4];
    assert forall j :: 0 <= j < 4 ==> inner[j] == s[lo..hi][k + j] == s[lo + k + j] == outer[j];
    assert inner == outer;
  }

  lemma TailHasNoMarker(s: Bytes, cursor: nat)
    requires cursor <= |s| && forall k :: cursor <= k ==> !MarkerAt(s, k)
    ensures NoMarker(s[cursor..])
  {
    forall k ensures !MarkerAt(s[cursor..], k) {
      if 0 <= k && k + 4 <= |s| - cursor {
        SliceMarker(s, cursor, |s|, k);
        assert s[cursor..] == s[cursor..|s|];
      }
    }
  }

  /** The payloads of a whole stream. */
  ghost function Payloads(s: Bytes): seq<Bytes>
    decreases |s|
  {
    var i := IndexOf(s, 0);
    if i == -1 then [] else [s[..i + 4]] + Payloads(s[i + 4..])
  }

  /** What follows the last marker of a stream. */
  ghost function Rest(s: Bytes): Bytes
    decreases |s|
  {
    var i := IndexOf(s, 0);
    if i == -1 then s else Rest(s[i + 4..])
  }

  lemma SplitPrepend(head: Bytes, tail: Bytes, payloads: seq<Bytes>, rest: Bytes)
    requires Payload(head) && IsSplit(tail, payloads, rest)
    ensures IsSplit(head + tail, [head] + payloads, rest)
  {
    var all := [head] + payloads;
    assert all[1..] == payloads;
    assert head + (Concat(payloads) + rest) == Concat(all) + rest;
  }

  /** Every stream has a cut ... */
  lemma {:induction false} PayloadsSplit(s: Bytes)
    ensures IsSplit(s, Payloads(s), Rest(s))
    decreases |s|
  {
    var i := IndexOf(s, 0);
    if i == -1 {
      TailHasNoMarker(s, 0);
      assert s[0..] == s;
      assert Concat([]) + s == s;
    } else {
      SegmentIsPayload(s, 0, i);
      assert s[0..i + 4] == s[..i + 4];
      PayloadsSplit(s[i + 4..]);
      SplitPrepend(s[..i + 4], s[i + 4..], Payloads(s[i + 4..]), Rest(s[i + 4..]));
      assert s == s[..i + 4] + s[i + 4..];
    }
  }

  /** ... and this is the only one. */
  lemma SplitIsPayloads(s: Bytes, payloads: seq<Bytes>, rest: Bytes)
    requires IsSplit(s, payloads, rest)
    ensures payloads == Payloads(s) && rest == Rest(s)
  {
    PayloadsSplit(s);
    SplitUnique(s, payloads, rest, Payloads(s), Rest(s));
  }

  /** The cut of a longer stream extends the cut of a shorter one. */
  lemma PayloadsExtend(s: Bytes, more: Bytes)
    ensures Payloads(s + more) == Payloads(s) + Payloads(Rest(s) + more)
    ensures Rest(s + more) == Rest(Rest(s) + more)
  {
    PayloadsSplit(s);
    PayloadsSplit(Rest(s) + more);
    SplitContinues(s, Payloads(s), Rest(s), more, Payloads(Rest(s) + more), Rest(Rest(s) + more));
    SplitIsPayloads(s + more, Payloads(s) + Payloads(Rest(s) + more), Rest(Rest(s) + more));
  }
}
