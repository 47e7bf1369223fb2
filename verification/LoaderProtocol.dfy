// The loader's wire format: a 20-byte header, then blocks of up to 64 bytes, each followed by the sum of its
// bytes, and sent again until the peer accepts it (comp_test/verilator/verilator_main.cpp).

module LoaderProtocol {

  import opened Words
  import opened Sequences

  const ACK: U8 := 0x06
  const BLOCK_ACK: U8 := 0x17
  const BLOCK_NACK: U8 := 0x15
  const MAGIC: U32 := 0x314B4D42

  // ---- Numbers on the wire

  function ToU32(x: nat): U32 { x % 0x1_0000_0000 }

  function Sum(bytes: seq<U8>): nat {
    if bytes == [] then 0 else Sum(bytes[..|bytes| - 1]) + bytes[|bytes| - 1]
  }

  /** A byte counts for what it is, */
  lemma SumOne(b: U8)
    ensures Sum([b]) == b
  {
    assert [b][..0] == [];
  }

  /** and a string for the sum of its parts. */
  lemma {:induction false} SumAppend(a: seq<U8>, b: seq<U8>)
    ensures Sum(a + b) == Sum(a) + Sum(b)
  {
    if b == [] {
      assert a + b == a;
    } else {
      assert (a + b)[..|a + b| - 1] == a + b[..|b| - 1];
      SumAppend(a, b[..|b| - 1]);
    }
  }

  lemma {:induction false} SumBound(bytes: seq<U8>)
    ensures Sum(bytes) <= 0xff * |bytes|
  {
    if bytes != [] {
      SumBound(bytes[..|bytes| - 1]);
    }
  }

  // ---- Blocks and frames

  function BlockCount(payload: seq<U8>): nat { (|payload| + 63) / 64 }

  function BlockEnd(size: nat, b: nat): nat {
    if 64 * b + 64 <= size then 64 * b + 64 else size
  }

  function Block(payload: seq<U8>, b: nat): (bytes: seq<U8>)
    requires b < BlockCount(payload)
    ensures 1 <= |bytes| <= 64 && |bytes| == BlockEnd(|payload|, b) - 64 * b
  {
    payload[64 * b..BlockEnd(|payload|, b)]
  }

  function BlockSum(payload: seq<U8>, b: nat): U32
    requires b < BlockCount(payload)
  {
    ToU32(Sum(Block(payload, b)))
  }

  /** A block as it is sent: its bytes, then their sum. */
  function Frame(payload: seq<U8>, b: nat): (bytes: seq<U8>)
    requires b < BlockCount(payload)
    ensures |bytes| == |Block(payload, b)| + 4
  {
    Block(payload, b) + Le32(BlockSum(payload, b))
  }

  function Header(payload: seq<U8>, base: U32, entry: U32): (bytes: seq<U8>)
    ensures |bytes| == 20
  {
    Le32(MAGIC) + Le32(base) + Le32(entry) + Le32(ToU32(|payload|)) + Le32(ToU32(Sum(payload)))
  }

  // ---- Replies: true for a block that the peer accepted, false for one that it wants again

  function Accepted(replies: seq<bool>): (n: nat)
    ensures n <= |replies|
  {
    if replies == [] then 0
    else Accepted(replies[..|replies| - 1]) + if replies[|replies| - 1] then 1 else 0
  }

  /** Replies that a sender of `count` blocks can have counted: it stops at the last block. */
  predicate Plausible(replies: seq<bool>, count: nat) {
    replies == [] || (Plausible(replies[..|replies| - 1], count) && Accepted(replies[..|replies| - 1]) < count)
  }

  lemma PlausibleNext(replies: seq<bool>, count: nat, reply: bool)
    requires Plausible(replies, count) && Accepted(replies) < count
    ensures Plausible(replies + [reply], count)
    ensures Accepted(replies + [reply]) == Accepted(replies) + if reply then 1 else 0
  {
    assert (replies + [reply])[..|replies|] == replies;
  }

  lemma {:induction false} PlausibleBound(replies: seq<bool>, count: nat)
    requires Plausible(replies, count)
    ensures Accepted(replies) <= count
  {
    if replies != [] {
      PlausibleBound(replies[..|replies| - 1], count);
    }
  }

  /** The frames that got these replies: each reply is for the first block not accepted before. */
  function Frames(payload: seq<U8>, replies: seq<bool>): seq<U8>
    requires Plausible(replies, BlockCount(payload))
  {
    if replies == [] then [] else
      var before := replies[..|replies| - 1];
      Frames(payload, before) + Frame(payload, Accepted(before))
  }

  lemma FramesNext(payload: seq<U8>, replies: seq<bool>, reply: bool)
    requires Plausible(replies, BlockCount(payload)) && Accepted(replies) < BlockCount(payload)
    ensures Plausible(replies + [reply], BlockCount(payload))
    ensures Frames(payload, replies + [reply]) == Frames(payload, replies) + Frame(payload, Accepted(replies))
  {
    PlausibleNext(replies, BlockCount(payload), reply);
    assert (replies + [reply])[..|replies|] == replies;
  }

  // ---- The other end of the wire

  /** What a receiver has after these frames, if it knows the payload's size and keeps the blocks that it
      accepts: it cuts the stream by its own count of blocks. */
  function Receive(size: nat, stream: seq<U8>, replies: seq<bool>): (r: (seq<U8>, seq<U8>))
  {
    if replies == [] then ([], stream) else
      var before := replies[..|replies| - 1];
      var (data, rest) := Receive(size, stream, before);
      var n := BlockEnd(size, Accepted(before)) - 64 * Accepted(before);
      if n < 0 || |rest| < n + 4 then (data, rest)
      else (if replies[|replies| - 1] then data + rest[..n] else data, rest[n + 4..])
  }

  // One more frame at the front of what is left
  lemma ReceiveOne(payload: seq<U8>, before: seq<bool>, reply: bool, stream: seq<U8>, more: seq<U8>)
    requires Plausible(before, BlockCount(payload)) && Accepted(before) < BlockCount(payload)
    requires Receive(|payload|, stream, before)
             == (payload[..AcceptedBytes(payload, before)], Frame(payload, Accepted(before)) + more)
    ensures Plausible(before + [reply], BlockCount(payload))
    ensures Receive(|payload|, stream, before + [reply]) == (payload[..AcceptedBytes(payload, before + [reply])], more)
  {
    PlausibleNext(before, BlockCount(payload), reply);
    assert (before + [reply])[..|before|] == before;
    var b := Accepted(before);
    var frame, n := Frame(payload, b), |Block(payload, b)|;
    assert (frame + more)[..n] == Block(payload, b) && (frame + more)[n + 4..] == more;
    assert AcceptedBytes(payload, before) == 64 * b;
    assert payload[..64 * b] + Block(payload, b) == payload[..BlockEnd(|payload|, b)];
    assert reply ==> AcceptedBytes(payload, before + [reply]) == BlockEnd(|payload|, b);
  }

  lemma LastReply(replies: seq<bool>)
    requires replies != []
    ensures replies[..|replies| - 1] + [replies[|replies| - 1]] == replies
  {
  }

  /** The receiver's view: it gets exactly the accepted prefix of the payload, and has consumed whole frames. */
  lemma {:induction false} ReceiveFrames(payload: seq<U8>, replies: seq<bool>, more: seq<U8>)
    requires Plausible(replies, BlockCount(payload))
    ensures Receive(|payload|, Frames(payload, replies) + more, replies)
            == (payload[..AcceptedBytes(payload, replies)], more)
  {
    if replies == [] {
      assert [] + more == more;
    } else {
      var before, last := replies[..|replies| - 1], replies[|replies| - 1];
      var frame := Frame(payload, Accepted(before));
      Regroup(Frames(payload, before), frame, more);
      ReceiveFrames(payload, before, frame + more);
      LastReply(replies);
      ReceiveOne(payload, before, last, Frames(payload, replies) + more, more);
    }
  }

  function AcceptedBytes(payload: seq<U8>, replies: seq<bool>): (n: nat)
    ensures n <= |payload|
  {
    if 64 * Accepted(replies) <= |payload| then 64 * Accepted(replies) else |payload|
  }

  /** Once every block is accepted the receiver has the payload. */
  lemma AllReceived(payload: seq<U8>, replies: seq<bool>)
    requires Plausible(replies, BlockCount(payload)) && Accepted(replies) == BlockCount(payload)
    ensures Receive(|payload|, Frames(payload, replies), replies) == (payload, [])
  {
    ReceiveFrames(payload, replies, []);
    assert Frames(payload, replies) + [] == Frames(payload, replies);
    assert payload[..|payload|] == payload;
  }

  lemma FiveWords(a: seq<U8>, b: seq<U8>, c: seq<U8>, d: seq<U8>, e: seq<U8>, h: seq<U8>)
    requires |a| == |b| == |c| == |d| == |e| == 4 && h == a + b + c + d + e
    ensures |h| == 20 && h[0..4] == a && h[4..8] == b && h[8..12] == c && h[12..16] == d && h[16..20] == e
  {
  }

  /** The header tells the receiver the size (of a payload under 4 GiB) and the sum. */
  lemma HeaderSays(payload: seq<U8>, base: U32, entry: U32)
    ensures var h: seq<U8> := Header(payload, base, entry);
            && FromLe32(h[0..4]) == MAGIC && FromLe32(h[4..8]) == base && FromLe32(h[8..12]) == entry
            && FromLe32(h[12..16]) == ToU32(|payload|) && FromLe32(h[16..20]) == ToU32(Sum(payload))
  {
    ReadWords(Header(payload, base, entry), MAGIC, base, entry, ToU32(|payload|), ToU32(Sum(payload)));
  }

  lemma ReadWords(h: seq<U8>, a: U32, b: U32, c: U32, d: U32, e: U32)
    requires h == Le32(a) + Le32(b) + Le32(c) + Le32(d) + Le32(e)
    ensures |h| == 20 && FromLe32(h[0..4]) == a && FromLe32(h[4..8]) == b && FromLe32(h[8..12]) == c
    ensures FromLe32(h[12..16]) == d && FromLe32(h[16..20]) == e
  {
    FiveWords(Le32(a), Le32(b), Le32(c), Le32(d), Le32(e), h);
    ReadWord(h[0..4], a);
    ReadWord(h[4..8], b);
    ReadWord(h[8..12], c);
    ReadWord(h[12..16], d);
    ReadWord(h[16..20], e);
  }

  lemma ReadWord(bytes: seq<U8>, v: U32)
    requires bytes == Le32(v)
    ensures FromLe32(bytes) == v
  {
    Le32RoundTrip(v);
  }

  /** The magic number goes out as the letters BMK1. */
  lemma MagicLetters()
    ensures Le32(MAGIC) == ['B' as int, 'M' as int, 'K' as int, '1' as int]
  {
  }

  /** The sum in a frame is that of its block: 64 bytes cannot overflow it. */
  lemma FrameSum(payload: seq<U8>, b: nat)
    requires b < BlockCount(payload)
    ensures var n := |Block(payload, b)|; FromLe32(Frame(payload, b)[n..]) == Sum(Frame(payload, b)[..n])
  {
    SumBound(Block(payload, b));
    Le32RoundTrip(BlockSum(payload, b));
    var n := |Block(payload, b)|;
    assert Frame(payload, b)[n..] == Le32(BlockSum(payload, b)) && Frame(payload, b)[..n] == Block(payload, b);
  }
}
