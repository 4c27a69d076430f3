/** The length-prefixed stream codec. A message is its encoded bytes. */
module Codec {
  import opened Types
  import opened Sequences

  type Bytes = seq<Byte>

  const U32: nat := 0x1_0000_0000
  const MSG_SIZE: nat := 4

  /** The longest message whose length plus the length field still fits 32 bits. */
  const MAX_PAYLOAD: nat := U32 - MSG_SIZE - 1

  function PutU32(n: nat): (r: Bytes)
    requires n < U32
    ensures |r| == MSG_SIZE
  {
    [n / 0x100_0000, n / 0x1_0000 % 0x100, n / 0x100 % 0x100, n % 0x100]
  }

  function ReadU32(b: Bytes): (n: nat)
    requires |b| == MSG_SIZE
    ensures n < U32
  {
    0x100_0000 * (b[0] as int) + 0x1_0000 * (b[1] as int) + 0x100 * (b[2] as int) + b[3]
  }

  lemma U32RoundTrip(n: nat)
    requires n < U32
    ensures ReadU32(PutU32(n)) == n
  {
    var q1, q2, q3 := n / 0x100, n / 0x1_0000, n / 0x100_0000;
    assert q1 == 0x100 * (q1 / 0x100) + q1 % 0x100 && q1 / 0x100 == q2;
    assert q2 == 0x100 * (q2 / 0x100) + q2 % 0x100 && q2 / 0x100 == q3;
  }

  /** The length field has its most significant byte first. */
  lemma LengthIsBigEndian(n: nat)
    requires n < U32
    ensures var b := PutU32(n);
            n == 0x100_0000 * (b[0] as int) + 0x1_0000 * (b[1] as int) + 0x100 * (b[2] as int) + b[3]
  {
    U32RoundTrip(n);
  }

  /** The length is cut to 32 bits. */
  function Frame(m: Bytes): Bytes {
    PutU32(|m| % U32) + m
  }

  function Stream(ms: seq<Bytes>): Bytes {
    if ms == [] then [] else Frame(ms[0]) + Stream(ms[1..])
  }

  /** One call of `encode`, which cuts the length to 32 bits: None where it panics, because length and length field do
      not add up in 32 bits, or because the buffer, which reserved room for the cut length and had `slack` to spare,
      cannot take the message. */
  function EncodeOne(m: Bytes, slack: nat): Option<Bytes> {
    var size := |m| % U32;
    if size + MSG_SIZE >= U32 || |m| > size + slack then None else Some(Frame(m))
  }

  function EncodeAll(ms: seq<Bytes>, slack: nat -> nat): Option<Bytes>
    decreases |ms|
  {
    if ms == [] then Some([])
    else
      match (EncodeOne(ms[0], slack(|ms|)), EncodeAll(ms[1..], slack))
      case (Some(first), Some(rest)) => Some(first + rest)
      case _ => None
  }

  predicate Fits(m: Bytes) {
    |m| <= MAX_PAYLOAD
  }

  ghost predicate AllFit(ms: seq<Bytes>) {
    forall m :: m in ms ==> Fits(m)
  }

  // ----- decoding

  /** One call of `decode`: nothing yet, a message, or a panic of the length's arithmetic. */
  datatype Decoded = More | Item(m: Bytes, rest: Bytes) | Panicked

  /** The sum of length and length field is a checked 32-bit sum. */
  function DecodeOne(src: Bytes): (d: Decoded)
    ensures d.Item? ==> |d.rest| < |src|
  {
    if |src| < MSG_SIZE then More
    else
      var size := ReadU32(src[..MSG_SIZE]);
      if size + MSG_SIZE >= U32 then Panicked
      else if |src| < size + MSG_SIZE then More
      else Item(src[MSG_SIZE..MSG_SIZE + size], src[MSG_SIZE + size..])
  }

  datatype Outcome = Done(items: seq<Bytes>, rest: Bytes) | Crashed

  function Prepend(items: seq<Bytes>, o: Outcome): Outcome {
    if o.Done? then Done(items + o.items, o.rest) else Crashed
  }

  /** Decoding until nothing comes. */
  function DecodeAll(src: Bytes): Outcome
    decreases |src|
  {
    match DecodeOne(src)
    case More => Done([], src)
    case Panicked => Crashed
    case Item(m, rest) => Prepend([m], DecodeAll(rest))
  }

  /** Chunks arrive one by one; after each the buffer is decoded until nothing comes. */
  function FeedAll(buffer: Bytes, chunks: seq<Bytes>): Outcome
    decreases |chunks|
  {
    if chunks == [] then Done([], buffer)
    else
      match DecodeAll(buffer + chunks[0])
      case Crashed => Crashed
      case Done(items, rest) => Prepend(items, FeedAll(rest, chunks[1..]))
  }

  // ----- round trip

  /** A frame is four bytes that give the length, most significant first, and the message. */
  lemma FrameLayout(m: Bytes)
    requires |m| < U32
    ensures var f := Frame(m);
            && |f| == 4 + |m| && f[4..] == m
            && |m| == 0x100_0000 * (f[0] as int) + 0x1_0000 * (f[1] as int) + 0x100 * (f[2] as int) + f[3]
  {
    LengthIsBigEndian(|m|);
    hide PutU32;
  }

  /** A whole frame at the front of the buffer is decoded and nothing else is touched. */
  lemma FrameDecodes(m: Bytes, more: Bytes)
    requires Fits(m)
    ensures DecodeOne(Frame(m) + more) == Item(m, more)
  {
    hide PutU32;
    hide ReadU32;
    var src := Frame(m) + more;
    assert src[..MSG_SIZE] == PutU32(|m|);
    U32RoundTrip(|m|);
    assert src[MSG_SIZE..MSG_SIZE + |m|] == m;
    assert src[MSG_SIZE + |m|..] == more;
  }

  lemma PartialFrameWaits(m: Bytes, n: nat)
    requires Fits(m) && n < |Frame(m)|
    ensures DecodeOne(Frame(m)[..n]) == More
  {
    hide PutU32;
    hide ReadU32;
    if n >= MSG_SIZE {
      assert Frame(m)[..n][..MSG_SIZE] == PutU32(|m|);
      U32RoundTrip(|m|);
    }
  }

  lemma FrameThenRest(m: Bytes, more: Bytes)
    requires Fits(m)
    ensures DecodeAll(Frame(m) + more) == Prepend([m], DecodeAll(more))
  {
    FrameDecodes(m, more);
  }

  lemma PartialFrameStays(m: Bytes, n: nat)
    requires Fits(m) && n < |Frame(m)|
    ensures DecodeAll(Frame(m)[..n]) == Done([], Frame(m)[..n])
  {
    PartialFrameWaits(m, n);
  }

  /** `o` is the outcome of the first n bytes of a stream: the first k messages, and the bytes of
      the unfinished frame after them. */
  ghost predicate WholeFrames(ms: seq<Bytes>, n: nat, k: nat, o: Outcome) {
    && o.Done? && k <= |ms| && n <= |Stream(ms)|
    && o.items == ms[..k] && Stream(ms[..k]) + o.rest == Stream(ms)[..n]
    && (if k < |ms| then |o.rest| < |Frame(ms[k])| else o.rest == [])
  }

  /** One more whole frame in front. */
  lemma WholeFramesStep(ms: seq<Bytes>, r: nat, j: nat, o: Outcome)
    requires ms != [] && WholeFrames(ms[1..], r, j, o)
    ensures WholeFrames(ms, |Frame(ms[0])| + r, j + 1, Prepend([ms[0]], o))
  {
    hide Frame;
    var f := Frame(ms[0]);
    var head := ms[1..][..j];
    assert ms[..j + 1] == [ms[0]] + head && ms[..j + 1][1..] == head;
    assert Stream(ms)[..|f| + r] == f + Stream(ms[1..])[..r];
    assert Stream(ms[..j + 1]) + o.rest == f + (Stream(head) + o.rest);
  }

  lemma {:induction false} PrefixDecodes(ms: seq<Bytes>, n: nat) returns (k: nat)
    requires AllFit(ms) && n <= |Stream(ms)|
    ensures WholeFrames(ms, n, k, DecodeAll(Stream(ms)[..n]))
  {
    hide *;
    if Unfinished(ms, n) {
      k := 0;
      NoFrameYet(ms, n);
    } else {
      StreamUnfolds(ms, n);
      var r := n - |Frame(ms[0])|;
      var rest := Stream(ms[1..])[..r];
      FrameThenRest(ms[0], rest);
      var j := PrefixDecodes(ms[1..], r);
      WholeFramesStep(ms, r, j, DecodeAll(rest));
      k := j + 1;
    }
  }

  /** The first n bytes of the stream do not hold its first frame. */
  ghost predicate Unfinished(ms: seq<Bytes>, n: nat) {
    ms == [] || n < |Frame(ms[0])|
  }

  lemma NoFrameYet(ms: seq<Bytes>, n: nat)
    requires AllFit(ms) && n <= |Stream(ms)| && Unfinished(ms, n)
    ensures DecodeAll(Stream(ms)[..n]) == Done([], Stream(ms)[..n])
    ensures WholeFrames(ms, n, 0, Done([], Stream(ms)[..n]))
  {
    hide Frame;
    if ms != [] {
      assert Stream(ms)[..n] == Frame(ms[0])[..n];
      PartialFrameStays(ms[0], n);
    }
    assert ms[..0] == [];
  }

  lemma StreamUnfolds(ms: seq<Bytes>, n: nat)
    requires AllFit(ms) && n <= |Stream(ms)| && !Unfinished(ms, n)
    ensures ms != [] && Fits(ms[0]) && AllFit(ms[1..]) && |Frame(ms[0])| <= n <= |Frame(ms[0])| + |Stream(ms[1..])|
    ensures Stream(ms)[..n] == Frame(ms[0]) + Stream(ms[1..])[..n - |Frame(ms[0])|]
  {
    hide Frame;
    hide Fits;
  }

  /** Decoding can stop anywhere in a stream and go on later. */
  lemma {:induction false} Resume(ms: seq<Bytes>, p: nat, n: nat)
    requires AllFit(ms) && p <= n <= |Stream(ms)|
    ensures var first := DecodeAll(Stream(ms)[..p]);
            && first.Done?
            && DecodeAll(Stream(ms)[..n]) == Prepend(first.items, DecodeAll(first.rest + Stream(ms)[p..n]))
  {
    hide *;
    if Unfinished(ms, p) {
      NoFrameYet(ms, p);
      assert Stream(ms)[..p] + Stream(ms)[p..n] == Stream(ms)[..n];
      PrependNothing(DecodeAll(Stream(ms)[..n]));
    } else {
      StreamUnfolds(ms, p);
      StillUnfolds(ms, p, n);
      var f := |Frame(ms[0])|;
      var tail := Stream(ms[1..]);
      FrameThenRest(ms[0], tail[..p - f]);
      FrameThenRest(ms[0], tail[..n - f]);
      Resume(ms[1..], p - f, n - f);
      var first := DecodeAll(tail[..p - f]);
      PrependedItems(ms[0], first);
      PrependTwice([ms[0]], first.items, DecodeAll(first.rest + Stream(ms)[p..n]));
    }
  }

  lemma StillUnfolds(ms: seq<Bytes>, p: nat, n: nat)
    requires AllFit(ms) && p <= n <= |Stream(ms)| && !Unfinished(ms, p)
    ensures ms != [] && |Frame(ms[0])| <= p && n <= |Frame(ms[0])| + |Stream(ms[1..])|
    ensures var f := |Frame(ms[0])|;
            && Stream(ms)[..n] == Frame(ms[0]) + Stream(ms[1..])[..n - f]
            && Stream(ms)[p..n] == Stream(ms[1..])[p - f..n - f]
  {
    hide Frame;
    hide AllFit;
  }

  lemma PrependNothing(o: Outcome)
    ensures Prepend([], o) == o
  {
    assert o.Done? ==> [] + o.items == o.items;
  }

  lemma PrependedItems(m: Bytes, o: Outcome)
    requires o.Done?
    ensures Prepend([m], o) == Done([m] + o.items, o.rest)
  {
  }

  lemma PrependTwice(a: seq<Bytes>, b: seq<Bytes>, o: Outcome)
    ensures Prepend(a, Prepend(b, o)) == Prepend(a + b, o)
  {
    if o.Done? {
      assert a + (b + o.items) == (a + b) + o.items;
    }
  }

  lemma {:induction false} FeedFrom(ms: seq<Bytes>, p: nat, chunks: seq<Bytes>)
    requires AllFit(ms) && p + |Flatten(chunks)| <= |Stream(ms)|
    requires Flatten(chunks) == Stream(ms)[p..p + |Flatten(chunks)|]
    ensures var first := DecodeAll(Stream(ms)[..p]);
            first.Done? && Prepend(first.items, FeedAll(first.rest, chunks)) == DecodeAll(Stream(ms)[..p + |Flatten(chunks)|])
    decreases |chunks|
  {
    hide DecodeAll;
    hide Frame;
    var all := Stream(ms);
    Resume(ms, p, p);
    var first := DecodeAll(all[..p]);
    if chunks != [] {
      var c := chunks[0];
      var q := p + |c|;
      FlattenFront(chunks);
      var n := |Flatten(chunks)|;
      assert all[p..p + n][..|c|] == all[p..q];
      assert c == Flatten(chunks)[..|c|];
      assert Flatten(chunks[1..]) == Flatten(chunks)[|c|..] == all[q..q + |Flatten(chunks[1..])|];
      Resume(ms, p, q);
      FeedFrom(ms, q, chunks[1..]);
      var next := DecodeAll(first.rest + c);
      assert next.Done?;
      PrependTwice(first.items, next.items, FeedAll(next.rest, chunks[1..]));
    } else {
      assert first.items + [] == first.items;
    }
  }

  /** Stream round trip: whatever prefix of a stream of fitting messages has arrived, and in whatever chunks,
      exactly the messages whose frames are whole have been decoded, in order, and the buffer
      holds exactly the unfinished frame. */
  lemma StreamRoundTrip(ms: seq<Bytes>, chunks: seq<Bytes>) returns (k: nat)
    requires AllFit(ms) && Flatten(chunks) <= Stream(ms)
    ensures WholeFrames(ms, |Flatten(chunks)|, k, FeedAll([], chunks))
    ensures Flatten(chunks) == Stream(ms) ==> FeedAll([], chunks) == Done(ms, [])
  {
    var n := |Flatten(chunks)|;
    FeedFrom(ms, 0, chunks);
    assert Stream(ms)[..0] == [];
    var o := FeedAll([], chunks);
    PrependNothing(o);
    k := PrefixDecodes(ms, n);
    if Flatten(chunks) == Stream(ms) {
      FullStreamIsWhole(ms, k, o);
    }
  }

  lemma {:induction false} StreamSplit(ms: seq<Bytes>, k: nat)
    requires k <= |ms|
    ensures Stream(ms) == Stream(ms[..k]) + Stream(ms[k..])
  {
    if k == 0 {
      assert ms[..0] == [] && ms[0..] == ms;
    } else {
      hide *;
      var tail := ms[1..];
      StreamSplit(tail, k - 1);
      StreamHead(ms);
      StreamHead(ms[..k]);
      assert ms[..k][1..] == tail[..k - 1] && tail[k - 1..] == ms[k..];
      Regroup(Frame(ms[0]), Stream(tail[..k - 1]), Stream(ms[k..]));
    }
  }

  lemma StreamHead(ms: seq<Bytes>)
    requires ms != []
    ensures Stream(ms) == Frame(ms[0]) + Stream(ms[1..])
  {
  }

  lemma Regroup(a: Bytes, b: Bytes, c: Bytes)
    ensures a + (b + c) == (a + b) + c
  {
  }

  lemma FullStreamIsWhole(ms: seq<Bytes>, k: nat, o: Outcome)
    requires WholeFrames(ms, |Stream(ms)|, k, o)
    ensures o == Done(ms, [])
  {
    StreamSplit(ms, k);
    assert Stream(ms)[..|Stream(ms)|] == Stream(ms);
    assert |o.rest| == |Stream(ms[k..])|;
    assert ms[..|ms|] == ms;
  }

  // ----- messages that do not fit

  /** A message that does not fit either panics the decoder as soon as its length field has
      arrived, or comes out shorter than it went in. */
  lemma MisfitBreaks(m: Bytes, more: Bytes)
    requires !Fits(m)
    ensures var c := Frame(m)[..MSG_SIZE];
            && (|m| % U32 > MAX_PAYLOAD ==> DecodeAll(c) == Crashed)
            && (|m| % U32 <= MAX_PAYLOAD ==>
                  DecodeOne(Frame(m) + more).Item? && DecodeOne(Frame(m) + more).m != m)
  {
    var size := |m| % U32;
    var c := Frame(m)[..MSG_SIZE];
    assert c[..MSG_SIZE] == PutU32(size);
    assert (Frame(m) + more)[..MSG_SIZE] == PutU32(size);
    U32RoundTrip(size);
    if size <= MAX_PAYLOAD {
      assert size < |m|;
      assert |(Frame(m) + more)[MSG_SIZE..MSG_SIZE + size]| == size;
    }
  }

  lemma FlattenPair(a: Bytes, b: Bytes)
    ensures Flatten([a, b]) == a + b
  {
    assert [a, b][..1] == [a] && [a][..0] == [];
    assert Flatten([a]) == [] + a == a;
  }

  /** A whole frame in front of the first chunk is decoded first. */
  lemma FeedAfterFrame(m: Bytes, a: Bytes, b: Bytes)
    requires Fits(m)
    ensures FeedAll([], [Frame(m) + a, b]) == Prepend([m], FeedAll([], [a, b]))
  {
    hide Frame;
    assert [] + (Frame(m) + a) == Frame(m) + a && [] + a == a;
    assert [Frame(m) + a, b][1..] == [b] && [a, b][1..] == [b];
    FrameThenRest(m, a);
    hide DecodeAll;
    var o := DecodeAll(a);
    if o.Done? {
      PrependTwice([m], o.items, FeedAll(o.rest, [b]));
    }
  }

  /** As soon as one message does not fit, some chunking loses the stream. */
  lemma {:induction false} MisfitLosesStream(ms: seq<Bytes>) returns (a: Bytes, b: Bytes)
    requires !AllFit(ms)
    ensures a + b == Stream(ms) && FeedAll([], [a, b]) != Done(ms, [])
  {
    if Fits(ms[0]) {
      var a', b' := MisfitLosesStream(ms[1..]);
      a, b := Frame(ms[0]) + a', b';
      FeedAfterFrame(ms[0], a', b');
      hide Frame;
      var o := FeedAll([], [a', b']);
      assert a + b == Frame(ms[0]) + (a' + b');
      assert o.Done? && [ms[0]] + o.items == ms ==> o.items == ms[1..];
    } else {
      a, b := MisfitFirst(ms);
    }
  }

  lemma MisfitFirst(ms: seq<Bytes>) returns (a: Bytes, b: Bytes)
    requires ms != [] && !Fits(ms[0])
    ensures a + b == Stream(ms) && FeedAll([], [a, b]) != Done(ms, [])
  {
    var m, more := ms[0], Stream(ms[1..]);
    var all := Frame(m) + more;
    assert |Frame(m)| >= MSG_SIZE;
    MisfitBreaks(m, more);
    hide Frame;
    hide DecodeOne;
    if |m| % U32 > MAX_PAYLOAD {
      a, b := Frame(m)[..MSG_SIZE], all[MSG_SIZE..];
      assert a + b == all;
      hide Stream;
      FirstChunkCrashes(a, b);
    } else {
      a, b := all, [];
      assert a + b == all;
      hide Stream;
      FirstItemStays(a, b, DecodeOne(all));
      assert ms[0] == m;
    }
  }

  lemma FirstChunkCrashes(a: Bytes, b: Bytes)
    requires DecodeAll(a) == Crashed
    ensures FeedAll([], [a, b]) == Crashed
  {
    hide DecodeAll;
    assert [] + a == a;
  }

  /** What comes out first stays first. */
  lemma FirstItemStays(a: Bytes, b: Bytes, d: Decoded)
    requires d.Item? && DecodeOne(a) == d
    ensures var o := FeedAll([], [a, b]); o.Done? ==> o.items != [] && o.items[0] == d.m
  {
    hide DecodeOne;
    assert [] + a == a && [a, b][1..] == [b];
    var o := DecodeAll(d.rest);
    assert DecodeAll(a) == Prepend([d.m], o);
    hide DecodeAll;
    if o.Done? {
      var last := FeedAll(o.rest, [b]);
      assert FeedAll([], [a, b]) == Prepend([d.m] + o.items, last);
      hide FeedAll;
      assert last.Done? ==> (([d.m] + o.items) + last.items)[0] == d.m;
    }
  }

  lemma {:induction false} EncodeGivesStream(ms: seq<Bytes>, slack: nat -> nat)
    ensures EncodeAll(ms, slack).Some? ==> EncodeAll(ms, slack).value == Stream(ms)
    ensures AllFit(ms) ==> EncodeAll(ms, slack).Some?
  {
    hide Frame;
    if ms != [] {
      EncodeGivesStream(ms[1..], slack);
      assert AllFit(ms) ==> Fits(ms[0]) && AllFit(ms[1..]);
      assert Fits(ms[0]) ==> EncodeOne(ms[0], slack(|ms|)) == Some(Frame(ms[0]));
    }
  }

  /** The encoder takes the messages, and every chunking of what it writes gives them back. */
  ghost predicate Survives(ms: seq<Bytes>, slack: nat -> nat) {
    && EncodeAll(ms, slack).Some?
    && forall chunks: seq<Bytes> :: Flatten(chunks) == EncodeAll(ms, slack).value ==> FeedAll([], chunks) == Done(ms, [])
  }

  /** Whatever room the buffers have to spare, messages survive exactly when all of them fit. */
  lemma RoundTripExactlyWhenFits(ms: seq<Bytes>, slack: nat -> nat)
    ensures Survives(ms, slack) <==> AllFit(ms)
  {
    hide Stream;
    hide FeedAll;
    hide EncodeAll;
    EncodeGivesStream(ms, slack);
    if AllFit(ms) {
      forall chunks: seq<Bytes> | Flatten(chunks) == Stream(ms) ensures FeedAll([], chunks) == Done(ms, []) {
        var _ := StreamRoundTrip(ms, chunks);
      }
    } else {
      var a, b := MisfitLosesStream(ms);
      FlattenPair(a, b);
      assert EncodeAll(ms, slack).Some? ==> Flatten([a, b]) == EncodeAll(ms, slack).value;
    }
  }

  /** A connection's buffers: the encoder appends to `out`, the decoder splits off `src`. */
  class MsgPacketCodec {
    var src: Bytes
    var out: Bytes

    constructor ()
      ensures src == [] && out == []
    {
      src, out := [], [];
    }

    /** `slack` is the spare room of the buffer beyond what the call reserves. */
    method Encode(m: Bytes, slack: nat) returns (ok: bool)
      modifies this`out
      ensures match EncodeOne(m, slack)
              case Some(frame) => ok && out == old(out) + frame
              case None => !ok
      ensures Fits(m) ==> ok && out == old(out) + Frame(m)
    {
      var size := |m| % U32;
      if size + MSG_SIZE >= U32 {
        return false;
      }
      var room := size + MSG_SIZE + slack;
      out := out + PutU32(size);
      room := room - MSG_SIZE;
      if |m| > room {
        return false;
      }
      out := out + m;
      assert out == old(out) + (PutU32(size) + m);
      return true;
    }

    /** `ok` is false where the program panics. */
    method Decode() returns (ok: bool, item: Option<Bytes>)
      modifies this`src
      ensures match DecodeOne(old(src))
              case More => ok && item == None && src == old(src)
              case Item(m, rest) => ok && item == Some(m) && src == rest
              case Panicked => !ok
    {
      if |src| < MSG_SIZE {
        return true, None;
      }
      var size := ReadU32(src[..MSG_SIZE]);
      if size + MSG_SIZE >= U32 {
        return false, None;
      }
      if |src| >= size + MSG_SIZE {
        src := src[MSG_SIZE..];
        var buf := src[..size];
        src := src[size..];
        assert buf == old(src)[MSG_SIZE..MSG_SIZE + size] && src == old(src)[MSG_SIZE + size..];
        return true, Some(buf);
      }
      return true, None;
    }

    /** The reader's loop: a chunk arrives and is decoded until nothing comes. */
    method Feed(chunk: Bytes) returns (ok: bool, items: seq<Bytes>)
      modifies this`src
      ensures match DecodeAll(old(src) + chunk)
              case Crashed => !ok
              case Done(ms, rest) => ok && items == ms && src == rest
    {
      hide DecodeOne;
      src := src + chunk;
      items := [];
      while true
        invariant DecodeAll(old(src) + chunk) == Prepend(items, DecodeAll(src))
        decreases |src|
      {
        ghost var before := src;
        var fine, item := Decode();
        if !fine {
          return false, items;
        }
        if item.None? {
          return true, items;
        }
        PrependTwice(items, [item.value], DecodeAll(src));
        items := items + [item.value];
      }
    }
  }
}
