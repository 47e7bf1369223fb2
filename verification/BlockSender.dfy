// The host's payload senders (fpga/scripts/run_fpga_benchmark_ddr3.py), against a peer whose acknowledgements and
// replies may be anything.

module BlockSender {
  import opened Words
  import opened Sequences
  import opened LoaderProtocol

  // ---- Cutting up the payload

  /** The slices that `range(0, len(payload), size)` walks through. */
  function Slices(payload: seq<U8>, size: nat): seq<seq<U8>>
    requires size > 0
  {
    if payload == [] then []
    else if |payload| <= size then [payload]
    else [payload[..size]] + Slices(payload[size..], size)
  }

  /** The slices are the payload, */
  lemma {:induction false} SlicesLossless(payload: seq<U8>, size: nat)
    requires size > 0
    ensures Concat(Slices(payload, size)) == payload
  {
    if payload == [] {
    } else if |payload| <= size {
      ConcatFirst(payload, []);
      assert [payload] + [] == [payload] && payload + [] == payload;
    } else {
      SlicesLossless(payload[size..], size);
      ConcatFirst(payload[..size], Slices(payload[size..], size));
      assert payload[..size] + payload[size..] == payload;
    }
  }

  /** and there are len/size of them, rounded up. */
  lemma {:induction false} SlicesCount(payload: seq<U8>, size: nat)
    requires size > 0
    ensures var n := |Slices(payload, size)|; |payload| <= size * n < |payload| + size
  {
    if |payload| > size {
      SlicesCount(payload[size..], size);
      var m := |Slices(payload[size..], size)|;
      assert size * (m + 1) == size * m + size;
    }
  }

  // The slice at `off`, and the slices from there on
  lemma SliceAt(payload: seq<U8>, size: nat, off: nat)
    requires size > 0 && off < |payload|
    ensures var end := if off + size <= |payload| then off + size else |payload|;
            Slices(payload[off..], size) == [payload[off..end]] + Slices(payload[end..], size)
  {
    var rest := payload[off..];
    if |rest| <= size {
      assert payload[off..|payload|] == rest && payload[|payload|..] == [];
      assert [rest] + [] == [rest];
    } else {
      assert rest[..size] == payload[off..off + size] && rest[size..] == payload[off + size..];
    }
  }

  // Where a slice from `off` on ends
  function SliceEnd(size: nat, off: nat, length: nat): nat { if off + size <= length then off + size else length }

  // The parts from the k-th one on are the slices from `off` on.
  ghost predicate Cut(payload: seq<U8>, size: nat, parts: seq<seq<U8>>, off: nat, k: nat) {
    size > 0 && off <= |payload| && k <= |parts| && parts[k..] == Slices(payload[off..], size)
  }

  lemma CutStart(payload: seq<U8>, size: nat, parts: seq<seq<U8>>)
    requires size > 0 && parts == Slices(payload, size)
    ensures Cut(payload, size, parts, 0, 0)
  {
    assert payload[0..] == payload && parts[0..] == parts;
  }

  lemma CutNext(payload: seq<U8>, size: nat, parts: seq<seq<U8>>, off: nat, k: nat, end: nat)
    requires Cut(payload, size, parts, off, k) && off < |payload| && end == SliceEnd(size, off, |payload|)
    ensures off < end <= |payload| && k < |parts| && parts[k] == payload[off..end]
    ensures Cut(payload, size, parts, end, k + 1)
  {
    SliceAt(payload, size, off);
    assert parts[k] == parts[k..][0] && parts[k + 1..] == parts[k..][1..];
  }

  lemma CutEnd(payload: seq<U8>, size: nat, parts: seq<seq<U8>>, k: nat)
    requires Cut(payload, size, parts, |payload|, k)
    ensures k == |parts|
  {
    assert payload[|payload|..] == [];
    assert |parts[k..]| == 0;
  }

  // ---- The board, as the host sees it

  datatype Verdict = Ack | Nack | Timeout | Unknown

  /** Everything that passes between host and board, in order. */
  datatype Act = Wrote(bytes: seq<U8>) | Acked(seen: bool) | Replied(reply: Verdict)

  class Serial {
    ghost var log: seq<Act>

    method Write(bytes: seq<U8>)
      modifies this
      ensures log == old(log) + [Wrote(bytes)]
    {
      log := log + [Wrote(bytes)];
    }

    method WaitForChunkAck() returns (seen: bool)
      modifies this
      ensures log == old(log) + [Acked(seen)]
    {
      seen := *;
      log := log + [Acked(seen)];
    }

    method WaitForBlockReply() returns (reply: Verdict)
      modifies this
      ensures log == old(log) + [Replied(reply)]
    {
      reply := *;
      log := log + [Replied(reply)];
    }
  }

  function BytesOf(log: seq<Act>): seq<U8> {
    if log == [] then [] else
      var last := log[|log| - 1];
      BytesOf(log[..|log| - 1]) + if last.Wrote? then last.bytes else []
  }

  lemma {:induction false} BytesAppend(a: seq<Act>, b: seq<Act>)
    ensures BytesOf(a + b) == BytesOf(a) + BytesOf(b)
  {
    if b == [] {
      assert a + b == a;
    } else {
      assert (a + b)[..|a + b| - 1] == a + b[..|b| - 1];
      BytesAppend(a, b[..|b| - 1]);
    }
  }

  // ---- One pass over the chunks of a block

  function Misses(acks: seq<bool>): (n: nat)
    ensures n <= |acks|
  {
    if acks == [] then 0 else Misses(acks[..|acks| - 1]) + if acks[|acks| - 1] then 0 else 1
  }

  /** Each chunk goes out and then its acknowledgement is waited for. */
  function ChunkLog(chunks: seq<seq<U8>>, acks: seq<bool>): seq<Act>
    requires |acks| <= |chunks|
  {
    if acks == [] then [] else
      var n := |acks| - 1;
      ChunkLog(chunks, acks[..n]) + [Wrote(chunks[n]), Acked(acks[n])]
  }

  lemma ChunkNext(chunks: seq<seq<U8>>, acks: seq<bool>, ack: bool, log0: seq<Act>, log: seq<Act>)
    requires |acks| < |chunks| && log == log0 + ChunkLog(chunks, acks) + [Wrote(chunks[|acks|])] + [Acked(ack)]
    ensures log == log0 + ChunkLog(chunks, acks + [ack])
    ensures Misses(acks + [ack]) == Misses(acks) + if ack then 0 else 1
  {
    assert (acks + [ack])[..|acks|] == acks;
    var before, w := ChunkLog(chunks, acks), Wrote(chunks[|acks|]);
    Regroup(log0 + before, [w], [Acked(ack)]);
    Regroup(log0, before, [w] + [Acked(ack)]);
    assert [w] + [Acked(ack)] == [w, Acked(ack)];
  }

  // Only the last acknowledgement can be missing, if that is not tolerated; then the sender has given up.
  ghost predicate ChunksOk(acks: seq<bool>, count: nat, allowAckMiss: bool, timeout: bool) {
    && |acks| <= count && (timeout <==> !allowAckMiss && acks != [] && !acks[|acks| - 1])
    && (!allowAckMiss ==> forall i :: 0 <= i < |acks| - 1 ==> acks[i])
    && (!timeout ==> |acks| == count)
  }

  datatype Chunks = Chunks(sent: nat, timeout: bool, misses: nat)

  // one chunk and its acknowledgement
  method SendChunk(ser: Serial, payload: seq<U8>, chunkBytes: nat, off: nat, misses0: nat, ghost chunks: seq<seq<U8>>,
                   ghost acks0: seq<bool>, ghost log0: seq<Act>)
    returns (seen: bool, end: nat, misses: nat, ghost acks: seq<bool>)
    requires Cut(payload, chunkBytes, chunks, off, |acks0|) && off < |payload|
    requires ser.log == log0 + ChunkLog(chunks, acks0) && misses0 == Misses(acks0)
    modifies ser
    ensures acks == acks0 + [seen] && |acks| <= |chunks|
    ensures ser.log == log0 + ChunkLog(chunks, acks) && misses == Misses(acks)
    ensures off < end <= |payload| && Cut(payload, chunkBytes, chunks, end, |acks|)
  {
    end := SliceEnd(chunkBytes, off, |payload|);
    CutNext(payload, chunkBytes, chunks, off, |acks0|, end);
    ser.Write(payload[off..end]);
    seen := ser.WaitForChunkAck();
    ChunkNext(chunks, acks0, seen, log0, ser.log);
    acks := acks0 + [seen];
    misses := misses0;
    if !seen {
      misses := misses + 1;
    }
  }

  method SendUartPayloadWithAck(ser: Serial, payload: seq<U8>, chunkBytes: nat, allowAckMiss: bool)
    returns (r: Chunks, ghost acks: seq<bool>)
    requires chunkBytes > 0
    modifies ser
    ensures ChunksOk(acks, |Slices(payload, chunkBytes)|, allowAckMiss, r.timeout)
    ensures ser.log == old(ser.log) + ChunkLog(Slices(payload, chunkBytes), acks)
    ensures r.sent == |acks| && r.misses == Misses(acks)
  {
    var sent, timeout, misses := 0, false, 0;
    acks := [];
    var off := 0;
    ghost var chunks := Slices(payload, chunkBytes);
    CutStart(payload, chunkBytes, chunks);
    while off < |payload|
      invariant 0 <= off <= |payload| && sent == |acks| <= |chunks|
      invariant Cut(payload, chunkBytes, chunks, off, sent)
      invariant ser.log == old(ser.log) + ChunkLog(chunks, acks) && misses == Misses(acks) && !timeout
      invariant !allowAckMiss ==> forall i :: 0 <= i < |acks| ==> acks[i]
    {
      var seen;
      seen, off, misses, acks := SendChunk(ser, payload, chunkBytes, off, misses, chunks, acks, old(ser.log));
      sent := sent + 1;
      if !seen && !allowAckMiss {
        timeout := true;
        break;
      }
    }
    if !timeout {
      CutEnd(payload, chunkBytes, chunks, sent);
    }
    assert ChunksOk(acks, |chunks|, allowAckMiss, timeout);
    r := Chunks(sent, timeout, misses);
  }

  // ---- The sum of a block, and the peer's reply

  /** The sum goes out and its acknowledgement is waited for; behind a missing one comes a reply, if there are
      replies left. */
  function SumLog(sum: seq<U8>, acks: seq<bool>, replies: seq<Verdict>): seq<Act> {
    if acks == [] then [] else
      var n := |acks| - 1;
      SumLog(sum, acks[..n], replies) + [Wrote(sum), Acked(acks[n])]
      + if !acks[n] && n < |replies| then [Replied(replies[n])] else []
  }

  lemma {:induction false} SumLogSame(sum: seq<U8>, acks: seq<bool>, replies: seq<Verdict>, more: seq<Verdict>)
    requires replies <= more && (|acks| <= |replies| || replies == more)
    ensures SumLog(sum, acks, replies) == SumLog(sum, acks, more)
  {
    if acks != [] {
      SumLogSame(sum, acks[..|acks| - 1], replies, more);
    }
  }

  lemma SumStep(sum: seq<U8>, acks: seq<bool>, replies: seq<Verdict>, ack: bool, log0: seq<Act>, log: seq<Act>)
    requires |acks| == |replies| && log == log0 + SumLog(sum, acks, replies) + [Wrote(sum)] + [Acked(ack)]
    ensures log == log0 + SumLog(sum, acks + [ack], replies)
  {
    assert (acks + [ack])[..|acks|] == acks;
    var before := SumLog(sum, acks, replies);
    Regroup(log0 + before, [Wrote(sum)], [Acked(ack)]);
    Regroup(log0, before, [Wrote(sum)] + [Acked(ack)]);
    assert [Wrote(sum)] + [Acked(ack)] == [Wrote(sum), Acked(ack)];
    assert before + [Wrote(sum), Acked(ack)] + [] == before + [Wrote(sum), Acked(ack)];
  }

  lemma ReplyStep(sum: seq<U8>, acks: seq<bool>, replies: seq<Verdict>, reply: Verdict, log0: seq<Act>, log: seq<Act>)
    requires |acks| == |replies| + 1 && !acks[|replies|] && log == log0 + SumLog(sum, acks, replies) + [Replied(reply)]
    ensures log == log0 + SumLog(sum, acks, replies + [reply])
  {
    var n := |replies|;
    SumLogSame(sum, acks[..n], replies, replies + [reply]);
    var before := SumLog(sum, acks[..n], replies) + [Wrote(sum), Acked(acks[n])];
    assert before + [] == before;
    Regroup(log0, before, [Replied(reply)]);
  }

  datatype Sums = Sums(copies: nat, misses: nat, reply: Verdict, timeout: bool)

  // Copies are sent until one is acknowledged or a reply comes; every reply before the last one is a timeout.
  ghost predicate SumsOk(acks: seq<bool>, replies: seq<Verdict>, tries: nat, allowAckMiss: bool, r: Sums) {
    && 1 <= |acks| <= tries && (forall i :: 0 <= i < |acks| - 1 ==> !acks[i])
    && (!allowAckMiss ==> |acks| == 1 && replies == [])
    && (allowAckMiss ==> |replies| == |acks| - if acks[|acks| - 1] then 1 else 0)
    && (forall i :: 0 <= i < |replies| - 1 ==> replies[i] == Timeout)
    && (r.timeout <==> !allowAckMiss && !acks[0])
    && r.reply == (if replies == [] then Timeout else replies[|replies| - 1])
    && (acks[|acks| - 1] ==> r.reply == Timeout)
    && (allowAckMiss && !acks[|acks| - 1] && r.reply == Timeout ==> |acks| == tries)
    && r.copies == |acks| && r.misses == |acks| - if acks[|acks| - 1] then 1 else 0
  }

  method SendChecksum(ser: Serial, checksum: U32, tries: nat, allowAckMiss: bool)
    returns (r: Sums, ghost acks: seq<bool>, ghost replies: seq<Verdict>)
    requires tries >= 1
    modifies ser
    ensures SumsOk(acks, replies, tries, allowAckMiss, r)
    ensures ser.log == old(ser.log) + SumLog(Le32(checksum), acks, replies)
  {
    var copies, misses, reply, timeout := 0, 0, Timeout, false;
    acks, replies := [], [];
    while copies < tries
      invariant 0 <= copies <= tries && ser.log == old(ser.log) + SumLog(Le32(checksum), acks, replies)
      invariant misses == copies == |acks| == |replies| && reply == Timeout && !timeout && (copies > 0 ==> allowAckMiss)
      invariant forall i :: 0 <= i < |acks| ==> !acks[i] && replies[i] == Timeout
    {
      ser.Write(Le32(checksum));
      copies := copies + 1;
      var seen := ser.WaitForChunkAck();
      SumStep(Le32(checksum), acks, replies, seen, old(ser.log), ser.log);
      acks := acks + [seen];
      if seen {
        break;
      }
      misses := misses + 1;
      if allowAckMiss {
        reply := ser.WaitForBlockReply();
        ReplyStep(Le32(checksum), acks, replies, reply, old(ser.log), ser.log);
        replies := replies + [reply];
        if reply != Timeout {
          break;
        }
      } else {
        timeout := true;
        break;
      }
    }
    r := Sums(copies, misses, reply, timeout);
  }

  // ---- Attempts

  datatype Params = Params(chunkBytes: nat, blockBytes: nat, tries: nat, retryLimit: nat, allowAckMiss: bool) {
    predicate Usable() { chunkBytes > 0 && blockBytes > 0 && tries >= 1 }
  }

  // The arguments as the caller gives them: the loop over the sum runs at least once, a negative limit not at all.
  function ParamsOf(chunkBytes: nat, blockBytes: nat, checksumRetryLimit: int, retryLimit: int,
                    allowAckMiss: bool): Params {
    Params(chunkBytes, blockBytes, if checksumRetryLimit < 1 then 1 else checksumRetryLimit,
           if retryLimit < 0 then 0 else retryLimit, allowAckMiss)
  }

  datatype Outcome = Accepted | Refused | Failed

  /** One attempt at a block, by what came back: the acknowledgements of its chunks and of the copies of its sum,
      the replies in between, and the reply waited for at the end. */
  datatype Attempt = Attempt(acks: seq<bool>, sumAcks: seq<bool>, replies: seq<Verdict>, last: seq<Verdict>) {
    // The verdict is the last reply of all.
    function Outcome(): Outcome {
      var all := replies + last;
      if all == [] then Failed
      else match all[|all| - 1]
        case Ack => Accepted
        case Nack => Refused
        case _ => Failed
    }
  }

  ghost predicate AttemptOk(a: Attempt, block: seq<U8>, p: Params)
    requires p.Usable()
  {
    exists lost: bool, r: Sums :: AttemptMade(a, block, p, lost, r)
  }

  // `lost`: a chunk was not acknowledged; otherwise `r` sums up how the sum was sent
  ghost predicate AttemptMade(a: Attempt, block: seq<U8>, p: Params, lost: bool, r: Sums)
    requires p.Usable()
  {
    && ChunksOk(a.acks, |Slices(block, p.chunkBytes)|, p.allowAckMiss, lost)
    && if lost then a.sumAcks == [] && a.replies == a.last == [] else
         && SumsOk(a.sumAcks, a.replies, p.tries, p.allowAckMiss, r)
         && |a.last| == if !r.timeout && r.reply == Timeout then 1 else 0
  }

  function BlockChecksum(block: seq<U8>): U32 { ToU32(Sum(block)) }

  ghost function AttemptLog(a: Attempt, block: seq<U8>, p: Params): seq<Act>
    requires p.Usable() && |a.acks| <= |Slices(block, p.chunkBytes)|
  {
    ChunkLog(Slices(block, p.chunkBytes), a.acks) + SumLog(Le32(BlockChecksum(block)), a.sumAcks, a.replies)
    + if a.last == [] then [] else [Replied(a.last[0])]
  }

  function Repeated(bytes: seq<U8>, n: nat): seq<U8> {
    if n == 0 then [] else Repeated(bytes, n - 1) + bytes
  }

  lemma {:induction false} ChunkBytesOf(chunks: seq<seq<U8>>, acks: seq<bool>)
    requires |acks| <= |chunks|
    ensures BytesOf(ChunkLog(chunks, acks)) == Concat(chunks[..|acks|])
  {
    if acks != [] {
      var n := |acks| - 1;
      ChunkBytesOf(chunks, acks[..n]);
      ConcatNext(chunks, n);
      PairBytes(chunks[n], acks[n]);
      BytesAppend(ChunkLog(chunks, acks[..n]), [Wrote(chunks[n]), Acked(acks[n])]);
    }
  }

  lemma PairBytes(bytes: seq<U8>, ack: bool)
    ensures BytesOf([Wrote(bytes), Acked(ack)]) == bytes
  {
    var pair, one := [Wrote(bytes), Acked(ack)], [Wrote(bytes)];
    assert pair[..|pair| - 1] == one && one[..|one| - 1] == [];
    assert BytesOf(one) == [] + bytes == bytes;
    assert BytesOf(pair) == bytes + [];
  }

  lemma {:induction false} SumBytesOf(sum: seq<U8>, acks: seq<bool>, replies: seq<Verdict>)
    ensures BytesOf(SumLog(sum, acks, replies)) == Repeated(sum, |acks|)
  {
    if acks != [] {
      var n := |acks| - 1;
      var before := SumLog(sum, acks[..n], replies);
      var pair := [Wrote(sum), Acked(acks[n])];
      SumBytesOf(sum, acks[..n], replies);
      PairBytes(sum, acks[n]);
      BytesAppend(before, pair);
      if !acks[n] && n < |replies| {
        QuietEnd(before + pair, replies[n]);
      } else {
        assert before + pair + [] == before + pair;
      }
    }
  }

  lemma QuietEnd(log: seq<Act>, reply: Verdict)
    ensures BytesOf(log + [Replied(reply)]) == BytesOf(log)
  {
    assert (log + [Replied(reply)])[..|log|] == log;
    assert BytesOf(log) + [] == BytesOf(log);
  }

  /** An attempt that reaches its sum has put the exact block on the wire, and its sum once or more behind it. */
  lemma WholeAttempt(a: Attempt, block: seq<U8>, p: Params)
    requires p.Usable() && AttemptOk(a, block, p) && a.sumAcks != []
    ensures BytesOf(AttemptLog(a, block, p)) == block + Repeated(Le32(BlockChecksum(block)), |a.sumAcks|)
  {
    var chunks, sum := Slices(block, p.chunkBytes), Le32(BlockChecksum(block));
    var log := ChunkLog(chunks, a.acks) + SumLog(sum, a.sumAcks, a.replies);
    ChunkBytesOf(chunks, a.acks);
    SumBytesOf(sum, a.sumAcks, a.replies);
    BytesAppend(ChunkLog(chunks, a.acks), SumLog(sum, a.sumAcks, a.replies));
    SlicesLossless(block, p.chunkBytes);
    assert chunks[..|a.acks|] == chunks;
    if a.last != [] {
      QuietEnd(log, a.last[0]);
    } else {
      assert log + [] == log;
    }
  }

  datatype Sent = Sent(outcome: Outcome, chunks: nat, chunkMisses: nat, sumMisses: nat)

  // What the counters make of an attempt
  function SentBy(a: Attempt): Sent { Sent(a.Outcome(), |a.acks|, Misses(a.acks), Misses(a.sumAcks)) }

  lemma AttemptLogIs(a: Attempt, block: seq<U8>, p: Params, log0: seq<Act>, log1: seq<Act>, log2: seq<Act>,
                     log3: seq<Act>)
    requires p.Usable() && |a.acks| <= |Slices(block, p.chunkBytes)|
    requires log1 == log0 + ChunkLog(Slices(block, p.chunkBytes), a.acks)
    requires log2 == log1 + SumLog(Le32(BlockChecksum(block)), a.sumAcks, a.replies)
    requires log3 == log2 + if a.last == [] then [] else [Replied(a.last[0])]
    ensures log3 == log0 + AttemptLog(a, block, p)
  {
    var x, y := ChunkLog(Slices(block, p.chunkBytes), a.acks), SumLog(Le32(BlockChecksum(block)), a.sumAcks, a.replies);
    var z := if a.last == [] then [] else [Replied(a.last[0])];
    assert log0 + x + y + z == log0 + (x + y + z);
  }

  // the reply that decides
  method LastReply(ser: Serial, s: Sums) returns (reply: Verdict, ghost last: seq<Verdict>)
    modifies ser
    ensures ser.log == old(ser.log) + if last == [] then [] else [Replied(last[0])]
    ensures last == if s.reply == Timeout then [reply] else []
    ensures s.reply != Timeout ==> reply == s.reply
  {
    reply, last := s.reply, [];
    if reply == Timeout {
      reply := ser.WaitForBlockReply();
      last := [reply];
    }
  }

  function OutcomeOf(reply: Verdict): Outcome {
    if reply == Ack then Accepted else if reply == Nack then Refused else Failed
  }

  lemma OutcomeIs(a: Attempt, p: Params, r: Sums, reply: Verdict)
    requires SumsOk(a.sumAcks, a.replies, p.tries, p.allowAckMiss, r) && !r.timeout
    requires a.last == if r.reply == Timeout then [reply] else []
    requires r.reply != Timeout ==> reply == r.reply
    ensures a.Outcome() == OutcomeOf(reply)
  {
    var all := a.replies + a.last;
    assert all[|all| - 1] == reply;
  }

  method SendAttempt(ser: Serial, block: seq<U8>, p: Params) returns (sent: Sent, ghost a: Attempt)
    requires p.Usable()
    modifies ser
    ensures AttemptOk(a, block, p) && sent == SentBy(a) && ser.log == old(ser.log) + AttemptLog(a, block, p)
  {
    ghost var acks, sumAcks, replies, last;
    var r, s, reply;
    r, acks := SendUartPayloadWithAck(ser, block, p.chunkBytes, p.allowAckMiss);
    ghost var log1 := ser.log;
    if r.timeout {
      a := Attempt(acks, [], [], []);
      AttemptLogIs(a, block, p, old(ser.log), log1, log1, log1);
      assert AttemptMade(a, block, p, true, Sums(0, 0, Timeout, false));
      return Sent(Failed, r.sent, r.misses, 0), a;
    }
    var checksum := BlockChecksum(block);
    s, sumAcks, replies := SendChecksum(ser, checksum, p.tries, p.allowAckMiss);
    ghost var log2 := ser.log;
    SumMisses(sumAcks);
    if s.timeout {
      a := Attempt(acks, sumAcks, replies, []);
      AttemptLogIs(a, block, p, old(ser.log), log1, log2, log2);
      assert AttemptMade(a, block, p, false, s);
      return Sent(Failed, r.sent, r.misses, s.misses), a;
    }
    reply, last := LastReply(ser, s);
    a := Attempt(acks, sumAcks, replies, last);
    AttemptLogIs(a, block, p, old(ser.log), log1, log2, ser.log);
    OutcomeIs(a, p, s, reply);
    assert AttemptMade(a, block, p, false, s);
    sent := Sent(OutcomeOf(reply), r.sent, r.misses, s.misses);
  }

  // all acknowledgements of the sum but the last one are missing
  lemma {:induction false} SumMisses(acks: seq<bool>)
    requires acks != [] && forall i :: 0 <= i < |acks| - 1 ==> !acks[i]
    ensures Misses(acks) == |acks| - if acks[|acks| - 1] then 1 else 0
  {
    if |acks| > 1 {
      SumMisses(acks[..|acks| - 1]);
    }
  }

  // ---- Histories of attempts

  function AcceptedIn(h: seq<Attempt>): nat {
    if h == [] then 0 else AcceptedIn(h[..|h| - 1]) + if h[|h| - 1].Outcome() == Accepted then 1 else 0
  }

  function RefusedIn(h: seq<Attempt>): nat {
    if h == [] then 0 else RefusedIn(h[..|h| - 1]) + if h[|h| - 1].Outcome() == Refused then 1 else 0
  }

  // how often the current block was refused
  function Streak(h: seq<Attempt>): nat {
    if h == [] then 0 else
      match h[|h| - 1].Outcome()
      case Accepted => 0
      case Refused => Streak(h[..|h| - 1]) + 1
      case Failed => Streak(h[..|h| - 1])
  }

  predicate Ended(h: seq<Attempt>) { h != [] && h[|h| - 1].Outcome() == Failed }

  /** Each attempt is at the first block not accepted yet, no block is tried more often than the limit, and
      nothing follows a failed attempt. */
  ghost predicate Legal(h: seq<Attempt>, blocks: seq<seq<U8>>, p: Params)
    requires p.Usable()
  {
    h != [] ==>
      var before := h[..|h| - 1];
      && Legal(before, blocks, p) && !Ended(before)
      && AcceptedIn(before) < |blocks| && Streak(before) < p.retryLimit
      && AttemptOk(h[|h| - 1], blocks[AcceptedIn(before)], p)
  }

  /** All that passes in their course. */
  ghost function LogOf(h: seq<Attempt>, blocks: seq<seq<U8>>, p: Params): seq<Act>
    requires p.Usable() && Legal(h, blocks, p)
  {
    if h == [] then [] else
      var before := h[..|h| - 1];
      LogOf(before, blocks, p) + AttemptLog(h[|h| - 1], blocks[AcceptedIn(before)], p)
  }

  lemma LegalNext(h: seq<Attempt>, blocks: seq<seq<U8>>, p: Params, a: Attempt)
    requires p.Usable() && Legal(h, blocks, p) && !Ended(h) && AcceptedIn(h) < |blocks| && Streak(h) < p.retryLimit
    requires AttemptOk(a, blocks[AcceptedIn(h)], p)
    ensures Legal(h + [a], blocks, p)
    ensures LogOf(h + [a], blocks, p) == LogOf(h, blocks, p) + AttemptLog(a, blocks[AcceptedIn(h)], p)
    ensures AcceptedIn(h + [a]) == AcceptedIn(h) + if a.Outcome() == Accepted then 1 else 0
    ensures RefusedIn(h + [a]) == RefusedIn(h) + if a.Outcome() == Refused then 1 else 0
    ensures Streak(h + [a]) == match a.Outcome()
                               case Accepted => 0
                               case Refused => Streak(h) + 1
                               case Failed => Streak(h)
    ensures Ended(h + [a]) <==> a.Outcome() == Failed
    ensures SumsOf(h + [a]) == SumsOf(h).Plus(SentBy(a))
  {
    assert (h + [a])[..|h|] == h;
  }

  /** No block is refused more than the limit allows, so all of them together are not either. */
  lemma {:induction false} RefusedBound(h: seq<Attempt>, blocks: seq<seq<U8>>, p: Params)
    requires p.Usable() && Legal(h, blocks, p)
    ensures Streak(h) <= p.retryLimit && RefusedIn(h) <= p.retryLimit * AcceptedIn(h) + Streak(h)
    ensures RefusedIn(h) <= p.retryLimit * (AcceptedIn(h) + 1)
  {
    if h != [] {
      var before := h[..|h| - 1];
      RefusedBound(before, blocks, p);
      assert p.retryLimit * (AcceptedIn(before) + 1) == p.retryLimit * AcceptedIn(before) + p.retryLimit;
    }
    assert p.retryLimit * (AcceptedIn(h) + 1) == p.retryLimit * AcceptedIn(h) + p.retryLimit;
  }

  // The counters of a history
  datatype Totals = Totals(chunks: nat, chunkMisses: nat, sumMisses: nat) {
    function Plus(a: Sent): Totals { Totals(chunks + a.chunks, chunkMisses + a.chunkMisses, sumMisses + a.sumMisses) }
  }

  function SumsOf(h: seq<Attempt>): Totals {
    if h == [] then Totals(0, 0, 0) else SumsOf(h[..|h| - 1]).Plus(SentBy(h[|h| - 1]))
  }

  datatype Result = Result(totals: Totals, timeout: bool, acks: nat, nacks: nat, retries: nat, limitHit: bool,
                           failedBlock: int)

  // The attempts so far, and all that passed in their course
  ghost predicate Logged(h: seq<Attempt>, blocks: seq<seq<U8>>, p: Params, log0: seq<Act>, log: seq<Act>)
    requires p.Usable()
  {
    Legal(h, blocks, p) && log == log0 + LogOf(h, blocks, p)
  }

  lemma LoggedNext(h: seq<Attempt>, blocks: seq<seq<U8>>, p: Params, a: Attempt, log0: seq<Act>, log1: seq<Act>,
                   log2: seq<Act>)
    requires p.Usable() && Logged(h, blocks, p, log0, log1) && !Ended(h) && AcceptedIn(h) < |blocks|
    requires Streak(h) < p.retryLimit
    requires AttemptOk(a, blocks[AcceptedIn(h)], p) && log2 == log1 + AttemptLog(a, blocks[AcceptedIn(h)], p)
    ensures Logged(h + [a], blocks, p, log0, log2)
  {
    LegalNext(h, blocks, p, a);
    Regroup(log0, LogOf(h, blocks, p), AttemptLog(a, blocks[AcceptedIn(h)], p));
  }

  // the counters of a history
  ghost predicate Counters(h: seq<Attempt>, t: Totals, nacks: nat, retries: nat) {
    t == SumsOf(h) && nacks == RefusedIn(h) && retries == RefusedIn(h)
  }

  // One attempt more
  method OneMore(ser: Serial, block: seq<U8>, p: Params, t0: Totals, nacks0: nat, retries0: nat,
                 ghost blocks: seq<seq<U8>>, ghost h0: seq<Attempt>, ghost log0: seq<Act>)
    returns (outcome: Outcome, t: Totals, nacks: nat, retries: nat, ghost h: seq<Attempt>)
    requires p.Usable() && Logged(h0, blocks, p, log0, ser.log) && !Ended(h0) && AcceptedIn(h0) < |blocks|
    requires Streak(h0) < p.retryLimit
    requires block == blocks[AcceptedIn(h0)] && Counters(h0, t0, nacks0, retries0)
    modifies ser
    ensures Logged(h, blocks, p, log0, ser.log) && Counters(h, t, nacks, retries)
    ensures AcceptedIn(h) == AcceptedIn(h0) + (if outcome == Accepted then 1 else 0)
    ensures (Ended(h) <==> outcome == Failed)
    ensures Streak(h) == match outcome case Accepted => 0 case Refused => Streak(h0) + 1 case Failed => Streak(h0)
  {
    var sent;
    ghost var a, log1 := *, ser.log;
    sent, a := SendAttempt(ser, block, p);
    h := h0 + [a];
    LoggedNext(h0, blocks, p, a, log0, log1, ser.log);
    LegalNext(h0, blocks, p, a);
    outcome, t, nacks, retries := sent.outcome, t0.Plus(sent), nacks0, retries0;
    if outcome == Refused {
      nacks := nacks + 1;
      retries := retries + 1;
    }
  }

  /** The attempts at one block, until it is accepted, one fails, or the limit is reached. */
  method SendBlock(ser: Serial, block: seq<U8>, p: Params, t0: Totals, nacks0: nat, retries0: nat,
                   ghost blocks: seq<seq<U8>>, ghost h0: seq<Attempt>, ghost log0: seq<Act>)
    returns (done: bool, failed: bool, t: Totals, nacks: nat, retries: nat, ghost h: seq<Attempt>)
    requires p.Usable() && Logged(h0, blocks, p, log0, ser.log) && !Ended(h0) && AcceptedIn(h0) < |blocks|
    requires Streak(h0) == 0
    requires block == blocks[AcceptedIn(h0)] && Counters(h0, t0, nacks0, retries0)
    modifies ser
    ensures Logged(h, blocks, p, log0, ser.log) && Counters(h, t, nacks, retries) && (failed <==> Ended(h))
    ensures !(done && failed)
    ensures AcceptedIn(h) == AcceptedIn(h0) + if done then 1 else 0
    ensures Streak(h) == if done then 0 else if failed then Streak(h) else p.retryLimit
  {
    done, failed, t, nacks, retries, h := false, false, t0, nacks0, retries0, h0;
    var attempt := 0;
    while attempt < p.retryLimit
      invariant 0 <= attempt <= p.retryLimit && Logged(h, blocks, p, log0, ser.log) && !Ended(h)
      invariant AcceptedIn(h) == AcceptedIn(h0)
      invariant Streak(h) == attempt && Counters(h, t, nacks, retries) && !done && !failed
    {
      var outcome;
      outcome, t, nacks, retries, h := OneMore(ser, block, p, t, nacks, retries, blocks, h, log0);
      if outcome == Accepted {
        done := true;
        break;
      }
      if outcome == Failed {
        failed := true;
        break;
      }
      attempt := attempt + 1;
    }
  }

  // What the counters report while blocks are still being sent, and at the end
  ghost predicate Reports(r: Result, h: seq<Attempt>) {
    Counters(h, r.totals, r.nacks, r.retries) && r.acks == AcceptedIn(h)
  }

  ghost predicate Going(r: Result, h: seq<Attempt>) {
    Reports(r, h) && !Ended(h) && Streak(h) == 0 && !r.timeout && !r.limitHit && r.failedBlock == -1
  }

  /** Either every block was accepted, or exactly one of the two failures is reported, at the block after the
      accepted ones. */
  ghost predicate Verdicts(r: Result, h: seq<Attempt>, count: nat, p: Params) {
    && Reports(r, h) && r.acks <= count
    && (r.timeout <==> Ended(h))
    && (r.limitHit <==> !Ended(h) && r.acks < count)
    && (r.limitHit ==> Streak(h) == p.retryLimit)
    && r.failedBlock == if r.timeout || r.limitHit then r.acks else -1
  }

  // the body of the loop over the blocks
  method SendNext(ser: Serial, block: seq<U8>, blockIdx: nat, p: Params, r0: Result, ghost blocks: seq<seq<U8>>,
                  ghost h0: seq<Attempt>, ghost log0: seq<Act>)
    returns (r: Result, stop: bool, ghost h: seq<Attempt>)
    requires p.Usable() && Logged(h0, blocks, p, log0, ser.log) && Going(r0, h0) && r0.acks == blockIdx < |blocks|
    requires block == blocks[blockIdx]
    modifies ser
    ensures Logged(h, blocks, p, log0, ser.log)
    ensures if stop then Verdicts(r, h, |blocks|, p) else Going(r, h) && r.acks == blockIdx + 1
  {
    var done, failed, t, nacks, retries;
    done, failed, t, nacks, retries, h := SendBlock(ser, block, p, r0.totals, r0.nacks, r0.retries, blocks, h0, log0);
    r := r0.(totals := t, nacks := nacks, retries := retries);
    stop := true;
    if failed {
      r := r.(timeout := true, failedBlock := blockIdx);
    } else if !done {
      r := r.(limitHit := true, failedBlock := blockIdx);
    } else {
      r := r.(acks := r.acks + 1);
      stop := false;
    }
  }

  // ---- The result, by what has passed over the wire

  /** What the counters and flags say of everything that has passed: the replies and the missing acknowledgements in
      it are counted, and its last act tells why a transfer has failed. */
  ghost predicate ReadsOff(r: Result, log: seq<Act>) {
    && r.acks == Count(log, Replied(Ack)) && r.nacks == r.retries == Count(log, Replied(Nack))
    && r.totals.chunkMisses + r.totals.sumMisses == Count(log, Acked(false))
    && (r.timeout <==> log != [] && log[|log| - 1] in {Acked(false), Replied(Timeout), Replied(Unknown)})
    && (r.limitHit && log != [] ==> log[|log| - 1] == Replied(Nack))
  }

  lemma {:induction false} ChunkActs(chunks: seq<seq<U8>>, acks: seq<bool>, v: Verdict)
    requires |acks| <= |chunks|
    ensures var log := ChunkLog(chunks, acks);
            && Count(log, Replied(v)) == 0 && Count(log, Acked(false)) == Misses(acks)
            && (acks != [] ==> log != [] && log[|log| - 1] == Acked(acks[|acks| - 1]))
  {
    if acks != [] {
      var n := |acks| - 1;
      var pair := [Wrote(chunks[n]), Acked(acks[n])];
      ChunkActs(chunks, acks[..n], v);
      CountAppend(ChunkLog(chunks, acks[..n]), pair, Replied(v));
      CountAppend(ChunkLog(chunks, acks[..n]), pair, Acked(false));
      CountTwo(Wrote(chunks[n]), Acked(acks[n]), Replied(v));
      CountTwo(Wrote(chunks[n]), Acked(acks[n]), Acked(false));
    }
  }

  // a copy of the sum, and the reply behind a missing acknowledgement
  function CopyLog(sum: seq<U8>, ack: bool, reply: seq<Verdict>): seq<Act> {
    [Wrote(sum), Acked(ack)] + if reply != [] then [Replied(reply[0])] else []
  }

  lemma CopyActs(sum: seq<U8>, ack: bool, reply: seq<Verdict>, v: Verdict)
    requires |reply| <= 1
    ensures Count(CopyLog(sum, ack, reply), Replied(v)) == Count(reply, v)
    ensures Count(CopyLog(sum, ack, reply), Acked(false)) == if ack then 0 else 1
  {
    var pair := [Wrote(sum), Acked(ack)];
    CountTwo(Wrote(sum), Acked(ack), Replied(v));
    CountTwo(Wrote(sum), Acked(ack), Acked(false));
    if reply == [] {
      assert pair + [] == pair;
    } else {
      assert reply == [reply[0]];
      CountAppend(pair, [Replied(reply[0])], Replied(v));
      CountAppend(pair, [Replied(reply[0])], Acked(false));
      CountOne(Replied(reply[0]), Replied(v));
      CountOne(Replied(reply[0]), Acked(false));
      CountOne(reply[0], v);
    }
  }

  // The replies that come behind the first k copies
  function FirstOf(replies: seq<Verdict>, k: nat): seq<Verdict> { if k <= |replies| then replies[..k] else replies }

  lemma {:induction false} SumActs(sum: seq<U8>, acks: seq<bool>, replies: seq<Verdict>, v: Verdict)
    requires forall i :: 0 <= i < |acks| && i < |replies| ==> !acks[i]
    ensures Count(SumLog(sum, acks, replies), Replied(v)) == Count(FirstOf(replies, |acks|), v)
    ensures Count(SumLog(sum, acks, replies), Acked(false)) == Misses(acks)
  {
    if acks == [] {
      assert FirstOf(replies, 0) == [];
    } else {
      var n := |acks| - 1;
      var reply := if n < |replies| then [replies[n]] else [];
      var before, copy := SumLog(sum, acks[..n], replies), CopyLog(sum, acks[n], reply);
      SumActs(sum, acks[..n], replies, v);
      Regroup(before, [Wrote(sum), Acked(acks[n])], if reply != [] then [Replied(reply[0])] else []);
      assert SumLog(sum, acks, replies) == before + copy;
      CountAppend(before, copy, Replied(v));
      CountAppend(before, copy, Acked(false));
      CopyActs(sum, acks[n], reply, v);
      CountAppend(FirstOf(replies, n), reply, v);
      assert FirstOf(replies, |acks|) == FirstOf(replies, n) + reply;
    }
  }

  lemma SumEnds(sum: seq<U8>, acks: seq<bool>, replies: seq<Verdict>)
    requires acks != [] && |replies| <= |acks| && (|replies| == |acks| ==> !acks[|acks| - 1])
    ensures var log := SumLog(sum, acks, replies);
            && log != []
            && log[|log| - 1] == if |replies| == |acks| then Replied(replies[|acks| - 1]) else Acked(acks[|acks| - 1])
  {
  }

  // All replies before the last one are timeouts.
  lemma LastDecides(all: seq<Verdict>, v: Verdict)
    requires v != Timeout && forall i :: 0 <= i < |all| - 1 ==> all[i] == Timeout
    ensures Count(all, v) == if all != [] && all[|all| - 1] == v then 1 else 0
  {
    if all != [] {
      NoneOf(all[..|all| - 1], v);
    }
  }

  lemma {:induction false} NoneOf(all: seq<Verdict>, v: Verdict)
    requires v != Timeout && forall i :: 0 <= i < |all| ==> all[i] == Timeout
    ensures Count(all, v) == 0
  {
    if all != [] {
      NoneOf(all[..|all| - 1], v);
    }
  }

  // What an attempt leaves in the log: the number of such replies and of missing acknowledgements, and its last act
  ghost predicate Leaves(a: Attempt, log: seq<Act>) {
    && log != []
    && Count(log, Replied(Ack)) == (if a.Outcome() == Accepted then 1 else 0)
    && Count(log, Replied(Nack)) == (if a.Outcome() == Refused then 1 else 0)
    && Count(log, Acked(false)) == Misses(a.acks) + Misses(a.sumAcks)
    && (a.Outcome() == Accepted ==> log[|log| - 1] == Replied(Ack))
    && (a.Outcome() == Refused ==> log[|log| - 1] == Replied(Nack))
    && (a.Outcome() == Failed ==> log[|log| - 1] in {Acked(false), Replied(Timeout), Replied(Unknown)})
  }

  lemma PartsCounted(x: seq<Act>, y: seq<Act>, z: seq<Act>, v: Act)
    ensures Count(x + y + z, v) == Count(x, v) + Count(y, v) + Count(z, v)
  {
    CountAppend(x + y, z, v);
    CountAppend(x, y, v);
  }

  lemma LastActs(last: seq<Verdict>, v: Verdict)
    requires |last| <= 1
    ensures var log: seq<Act> := if last == [] then [] else [Replied(last[0])];
            Count(log, Replied(v)) == Count(last, v) && Count(log, Acked(false)) == 0
  {
    if last != [] {
      assert last == [last[0]];
      CountOne(Replied(last[0]), Replied(v));
      CountOne(Replied(last[0]), Acked(false));
      CountOne(last[0], v);
    }
  }

  // the replies of a kind in an attempt's log are those among its replies
  lemma AttemptReplies(a: Attempt, block: seq<U8>, p: Params, v: Verdict)
    requires p.Usable() && |a.acks| <= |Slices(block, p.chunkBytes)| && |a.last| <= 1 && |a.replies| <= |a.sumAcks|
    requires forall i :: 0 <= i < |a.sumAcks| && i < |a.replies| ==> !a.sumAcks[i]
    ensures Count(AttemptLog(a, block, p), Replied(v)) == Count(a.replies + a.last, v)
    ensures Count(AttemptLog(a, block, p), Acked(false)) == Misses(a.acks) + Misses(a.sumAcks)
  {
    var chunks, sum := Slices(block, p.chunkBytes), Le32(BlockChecksum(block));
    var x, y, z := ChunkLog(chunks, a.acks), SumLog(sum, a.sumAcks, a.replies),
      if a.last == [] then [] else [Replied(a.last[0])];
    PartsCounted(x, y, z, Replied(v));
    PartsCounted(x, y, z, Acked(false));
    ChunkActs(chunks, a.acks, v);
    SumActs(sum, a.sumAcks, a.replies, v);
    assert FirstOf(a.replies, |a.sumAcks|) == a.replies;
    LastActs(a.last, v);
    CountAppend(a.replies, a.last, v);
  }

  lemma LostLeaves(a: Attempt, block: seq<U8>, p: Params, r: Sums)
    requires p.Usable() && block != [] && AttemptMade(a, block, p, true, r)
    ensures Leaves(a, AttemptLog(a, block, p))
  {
    var chunks := Slices(block, p.chunkBytes);
    AttemptReplies(a, block, p, Ack);
    AttemptReplies(a, block, p, Nack);
    ChunkActs(chunks, a.acks, Ack);
    assert a.replies + a.last == [];
    assert AttemptLog(a, block, p) == ChunkLog(chunks, a.acks);
  }

  lemma SentLeaves(a: Attempt, block: seq<U8>, p: Params, r: Sums)
    requires p.Usable() && block != [] && AttemptMade(a, block, p, false, r)
    ensures Leaves(a, AttemptLog(a, block, p))
  {
    var all, sum := a.replies + a.last, Le32(BlockChecksum(block));
    AttemptReplies(a, block, p, Ack);
    AttemptReplies(a, block, p, Nack);
    LastDecides(all, Ack);
    LastDecides(all, Nack);
    SumEnds(sum, a.sumAcks, a.replies);
    LastAct(a, block, p);
  }

  // the last act of an attempt that has sent its sum
  lemma LastAct(a: Attempt, block: seq<U8>, p: Params)
    requires p.Usable() && |a.acks| <= |Slices(block, p.chunkBytes)| && |a.last| <= 1 && a.sumAcks != []
    ensures var log, sums := AttemptLog(a, block, p), SumLog(Le32(BlockChecksum(block)), a.sumAcks, a.replies);
            && log != [] && sums != []
            && log[|log| - 1] == if a.last != [] then Replied(a.last[0]) else sums[|sums| - 1]
  {
  }

  lemma AttemptLeaves(a: Attempt, block: seq<U8>, p: Params)
    requires p.Usable() && block != [] && AttemptOk(a, block, p)
    ensures |a.acks| <= |Slices(block, p.chunkBytes)| && Leaves(a, AttemptLog(a, block, p))
  {
    var lost: bool, r: Sums :| AttemptMade(a, block, p, lost, r);
    if lost {
      LostLeaves(a, block, p, r);
    } else {
      SentLeaves(a, block, p, r);
    }
  }

  lemma {:induction false} SlicesNotEmpty(payload: seq<U8>, size: nat)
    requires size > 0
    ensures forall b :: 0 <= b < |Slices(payload, size)| ==> Slices(payload, size)[b] != []
  {
    if |payload| > size {
      SlicesNotEmpty(payload[size..], size);
    }
  }

  // the same for a whole history
  ghost predicate HistoryLeaves(h: seq<Attempt>, log: seq<Act>) {
    && Count(log, Replied(Ack)) == AcceptedIn(h) && Count(log, Replied(Nack)) == RefusedIn(h)
    && Count(log, Acked(false)) == SumsOf(h).chunkMisses + SumsOf(h).sumMisses
    && (h == [] <==> log == [])
    && (h != [] ==> EndsAs(h[|h| - 1].Outcome(), log))
  }

  ghost predicate EndsAs(outcome: Outcome, log: seq<Act>) {
    && log != []
    && (outcome == Accepted ==> log[|log| - 1] == Replied(Ack))
    && (outcome == Refused ==> log[|log| - 1] == Replied(Nack))
    && (outcome == Failed ==> log[|log| - 1] in {Acked(false), Replied(Timeout), Replied(Unknown)})
  }

  lemma HistoryNext(before: seq<Attempt>, log: seq<Act>, a: Attempt, more: seq<Act>, h: seq<Attempt>)
    requires HistoryLeaves(before, log) && Leaves(a, more) && h == before + [a]
    ensures HistoryLeaves(h, log + more)
  {
    assert h[..|h| - 1] == before;
    CountAppend(log, more, Replied(Ack));
    CountAppend(log, more, Replied(Nack));
    CountAppend(log, more, Acked(false));
  }

  lemma {:induction false} LegalLeaves(h: seq<Attempt>, blocks: seq<seq<U8>>, p: Params)
    requires p.Usable() && Legal(h, blocks, p) && forall b :: 0 <= b < |blocks| ==> blocks[b] != []
    ensures HistoryLeaves(h, LogOf(h, blocks, p))
  {
    if h != [] {
      var before, a := h[..|h| - 1], h[|h| - 1];
      LegalLeaves(before, blocks, p);
      AttemptLeaves(a, blocks[AcceptedIn(before)], p);
      assert h == before + [a];
      HistoryNext(before, LogOf(before, blocks, p), a, AttemptLog(a, blocks[AcceptedIn(before)], p), h);
    }
  }

  // At the limit the last attempt was refused.
  lemma LimitRefused(h: seq<Attempt>, blocks: seq<seq<U8>>, p: Params)
    requires p.Usable() && Legal(h, blocks, p) && h != [] && !Ended(h) && Streak(h) == p.retryLimit
    ensures h[|h| - 1].Outcome() == Refused
  {
  }

  lemma VerdictsReadOff(r: Result, h: seq<Attempt>, blocks: seq<seq<U8>>, p: Params)
    requires p.Usable() && Legal(h, blocks, p) && Verdicts(r, h, |blocks|, p)
    requires forall b :: 0 <= b < |blocks| ==> blocks[b] != []
    ensures ReadsOff(r, LogOf(h, blocks, p))
  {
    LegalLeaves(h, blocks, p);
    if r.limitHit && h != [] {
      LimitRefused(h, blocks, p);
    }
  }

  // the loop over the blocks
  method SendBlocks(ser: Serial, payload: seq<U8>, chunkBytes: nat, blockBytes: nat, checksumRetryLimit: int,
                    retryLimit: int, allowAckMiss: bool)
    returns (r: Result, ghost h: seq<Attempt>)
    requires chunkBytes > 0 && blockBytes > 0
    modifies ser
    ensures var p := ParamsOf(chunkBytes, blockBytes, checksumRetryLimit, retryLimit, allowAckMiss);
            var blocks := Slices(payload, blockBytes);
            Logged(h, blocks, p, old(ser.log), ser.log) && Verdicts(r, h, |blocks|, p)
  {
    var p := ParamsOf(chunkBytes, blockBytes, checksumRetryLimit, retryLimit, allowAckMiss);
    ghost var blocks, log0 := Slices(payload, blockBytes), ser.log;
    h := [];
    r := Result(Totals(0, 0, 0), false, 0, 0, 0, false, -1);
    var start, blockIdx, stop := 0, 0, false;
    CutStart(payload, blockBytes, blocks);
    assert log0 == log0 + [];
    while start < |payload|
      invariant 0 <= start <= |payload| && blockIdx <= |blocks|
      invariant Cut(payload, blockBytes, blocks, start, blockIdx)
      invariant Logged(h, blocks, p, log0, ser.log) && Going(r, h) && r.acks == blockIdx
    {
      var end := SliceEnd(blockBytes, start, |payload|);
      CutNext(payload, blockBytes, blocks, start, blockIdx, end);
      r, stop, h := SendNext(ser, payload[start..end], blockIdx, p, r, blocks, h, log0);
      if stop {
        return;
      }
      start, blockIdx := end, blockIdx + 1;
    }
    CutEnd(payload, blockBytes, blocks, blockIdx);
  }

  /** Whatever the peer does, the result is that of the attempts that pass in order over the wire, and can be read off
      what has passed. */
  method SendUartPayloadWithBlockChecksums(ser: Serial, payload: seq<U8>, chunkBytes: nat, blockBytes: nat,
                                           checksumRetryLimit: int, retryLimit: int, allowAckMiss: bool)
    returns (r: Result, ghost h: seq<Attempt>)
    requires chunkBytes > 0 && blockBytes > 0
    modifies ser
    ensures var p := ParamsOf(chunkBytes, blockBytes, checksumRetryLimit, retryLimit, allowAckMiss);
            var blocks := Slices(payload, blockBytes);
            Logged(h, blocks, p, old(ser.log), ser.log) && Verdicts(r, h, |blocks|, p)
    ensures old(ser.log) <= ser.log && ReadsOff(r, ser.log[|old(ser.log)|..])
  {
    ghost var p := ParamsOf(chunkBytes, blockBytes, checksumRetryLimit, retryLimit, allowAckMiss);
    ghost var blocks := Slices(payload, blockBytes);
    r, h := SendBlocks(ser, payload, chunkBytes, blockBytes, checksumRetryLimit, retryLimit, allowAckMiss);
    SlicesNotEmpty(payload, blockBytes);
    VerdictsReadOff(r, h, blocks, p);
    assert ser.log[|old(ser.log)|..] == LogOf(h, blocks, p);
  }

  /** With a limit of at most 1, the sum goes out at most once; */
  lemma OneCopy(a: Attempt, block: seq<U8>, chunkBytes: nat, blockBytes: nat, tries: int, retryLimit: int, miss: bool)
    requires chunkBytes > 0 && blockBytes > 0
    requires AttemptOk(a, block, ParamsOf(chunkBytes, blockBytes, tries, retryLimit, miss))
    ensures |a.sumAcks| <= if tries < 1 then 1 else tries
  {
  }

  /** a limit of 0 or less allows no attempt. */
  lemma NoAttempt(h: seq<Attempt>, blocks: seq<seq<U8>>, chunkBytes: nat, blockBytes: nat, tries: int, retryLimit: int,
                  miss: bool)
    requires chunkBytes > 0 && blockBytes > 0 && retryLimit <= 0
    requires Legal(h, blocks, ParamsOf(chunkBytes, blockBytes, tries, retryLimit, miss))
    ensures h == []
  {
  }

  /** The data of the accepted attempts, as sent. */
  ghost function AcceptedData(h: seq<Attempt>, blocks: seq<seq<U8>>, p: Params): seq<U8>
    requires p.Usable() && Legal(h, blocks, p)
  {
    if h == [] then [] else
      var before, a := h[..|h| - 1], h[|h| - 1];
      AcceptedData(before, blocks, p)
      + if a.Outcome() == Accepted then Concat(Slices(blocks[AcceptedIn(before)], p.chunkBytes)[..|a.acks|]) else []
  }

  lemma {:induction false} AcceptedBlocks(h: seq<Attempt>, blocks: seq<seq<U8>>, p: Params)
    requires p.Usable() && Legal(h, blocks, p)
    ensures AcceptedIn(h) <= |blocks| && AcceptedData(h, blocks, p) == Concat(blocks[..AcceptedIn(h)])
  {
    if h != [] {
      var before, a := h[..|h| - 1], h[|h| - 1];
      AcceptedBlocks(before, blocks, p);
      var n := AcceptedIn(before);
      if a.Outcome() == Accepted {
        var chunks := Slices(blocks[n], p.chunkBytes);
        assert chunks[..|a.acks|] == chunks;
        SlicesLossless(blocks[n], p.chunkBytes);
        assert blocks[..n + 1][..n] == blocks[..n];
      }
    }
  }

  /** A run without a failure has got the whole payload accepted, in ceil(len/blockBytes) blocks. */
  lemma SuccessDelivers(h: seq<Attempt>, payload: seq<U8>, p: Params)
    requires p.Usable() && var blocks := Slices(payload, p.blockBytes); Legal(h, blocks, p) && AcceptedIn(h) == |blocks|
    ensures AcceptedData(h, Slices(payload, p.blockBytes), p) == payload
    ensures |payload| <= p.blockBytes * AcceptedIn(h) < |payload| + p.blockBytes
  {
    var blocks := Slices(payload, p.blockBytes);
    AcceptedBlocks(h, blocks, p);
    assert blocks[..|blocks|] == blocks;
    SlicesLossless(payload, p.blockBytes);
    SlicesCount(payload, p.blockBytes);
  }
}
