// LoaderHost: the sender of the simulated UART loader (comp_test/verilator/verilator_main.cpp).

module VerilatorMain {
  import opened Words
  import opened Sequences
  import opened LoaderProtocol

  // ---- The protocol, apart from how the sender counts

  datatype Job = Job(payload: seq<U8>, base: U32, entry: U32) {
    function Count(): nat { BlockCount(payload) }
  }

  datatype Wait = Sending | ForAck | ForReply

  /** Where a transfer stands: the bytes of the header sent, or the replies counted, the bytes of the current frame
      sent and what the sender waits for. */
  datatype Session =
    | Waiting
    | InHeader(sent: nat)
    | HeaderSent
    | InBlock(replies: seq<bool>, sent: nat, wait: Wait)
    | Finished(replies: seq<bool>)

  // The sender stops for an acknowledgement after every fourth byte of a block of n, after its last one, and
  // after the sum.
  predicate Stop(n: nat, sent: nat) { (0 < sent <= n && (sent % 4 == 0 || sent == n)) || sent == n + 4 }

  predicate SentOk(n: nat, sent: nat, wait: Wait) {
    match wait
    case Sending => sent < n + 4
    case ForAck => sent <= n + 4 && Stop(n, sent)
    case ForReply => sent == n + 4
  }

  ghost predicate Allowed(s: Session, job: Job) {
    match s
    case InHeader(sent) => sent < 20
    case InBlock(replies, sent, wait) =>
      && Plausible(replies, job.Count())
      && if Accepted(replies) < job.Count() then SentOk(|Block(job.payload, Accepted(replies))|, sent, wait)
         else job.Count() == 0 && sent == 0 && wait == Sending
    case Finished(replies) => Plausible(replies, job.Count()) && Accepted(replies) == job.Count()
    case _ => true
  }

  /** Everything sent so far. */
  ghost function Wire(s: Session, job: Job): seq<U8>
    requires Allowed(s, job)
  {
    var header := Header(job.payload, job.base, job.entry);
    match s
    case Waiting => []
    case InHeader(sent) => header[..sent]
    case HeaderSent => header
    case InBlock(replies, sent, _) =>
      header + Frames(job.payload, replies)
      + (if Accepted(replies) < job.Count() then Frame(job.payload, Accepted(replies))[..sent] else [])
    case Finished(replies) => header + Frames(job.payload, replies)
  }

  /** A byte is due. */
  ghost predicate Active(s: Session, job: Job) {
    s.InHeader? || (s.InBlock? && s.wait == Sending && Accepted(s.replies) < job.Count())
  }

  ghost function Due(s: Session, job: Job): U8
    requires Allowed(s, job) && Active(s, job)
  {
    if s.InHeader? then Header(job.payload, job.base, job.entry)[s.sent]
      else Frame(job.payload, Accepted(s.replies))[s.sent]
  }

  ghost function Sent(s: Session, job: Job): (r: Session)
    requires Allowed(s, job) && Active(s, job)
    ensures Allowed(r, job)
  {
    if s.InHeader? then
      if s.sent + 1 == 20 then HeaderSent else InHeader(s.sent + 1)
    else
      var n := |Block(job.payload, Accepted(s.replies))|;
      InBlock(s.replies, s.sent + 1, if Stop(n, s.sent + 1) then ForAck else Sending)
  }

  /** What a byte from the peer does: anything not waited for is ignored. */
  ghost function Heard(s: Session, job: Job, byte: U8): (r: Session)
    requires Allowed(s, job)
    ensures Allowed(r, job)
  {
    match s
    case InBlock(replies, sent, ForAck) =>
      if byte != ACK then s
      else InBlock(replies, sent, if sent == |Block(job.payload, Accepted(replies))| + 4 then ForReply else Sending)
    case InBlock(replies, sent, ForReply) =>
      if byte != BLOCK_ACK && byte != BLOCK_NACK then s else
        var reply := byte == BLOCK_ACK;
        PlausibleNext(replies, job.Count(), reply);
        if reply && Accepted(replies) + 1 == job.Count() then Finished(replies + [reply])
          else InBlock(replies + [reply], 0, Sending)
    case _ => s
  }

  lemma SentGrows(s: Session, job: Job)
    requires Allowed(s, job) && Active(s, job)
    ensures Wire(Sent(s, job), job) == Wire(s, job) + [Due(s, job)]
  {
    if s.InHeader? {
      var h := Header(job.payload, job.base, job.entry);
      assert h[..s.sent + 1] == h[..s.sent] + [h[s.sent]] && h[..20] == h;
    } else {
      var f := Frame(job.payload, Accepted(s.replies));
      assert f[..s.sent + 1] == f[..s.sent] + [f[s.sent]];
    }
  }

  // A reply opens the next attempt, of the next block if the peer took this one.
  lemma HeardReply(s: Session, job: Job, byte: U8)
    requires Allowed(s, job)
    ensures s.InBlock? && s.wait == ForReply && byte == BLOCK_NACK ==>
              Heard(s, job, byte) == InBlock(s.replies + [false], 0, Sending)
                && Accepted(s.replies + [false]) == Accepted(s.replies)
    ensures s.InBlock? && s.wait == ForReply && byte == BLOCK_ACK ==>
              && Accepted(s.replies + [true]) == Accepted(s.replies) + 1
              && Heard(s, job, byte) == if Accepted(s.replies) + 1 == job.Count() then Finished(s.replies + [true])
                else InBlock(s.replies + [true], 0, Sending)
  {
    if s.InBlock? && s.wait == ForReply {
      PlausibleNext(s.replies, job.Count(), true);
      PlausibleNext(s.replies, job.Count(), false);
    }
  }

  lemma WireAtStart(s: Session, job: Job)
    requires Allowed(s, job) && ((s.InBlock? && s.sent == 0) || s.Finished?)
    ensures Wire(s, job) == Header(job.payload, job.base, job.entry) + Frames(job.payload, s.replies)
  {
  }

  /** Hearing a byte changes nothing on the wire: a reply is counted only behind a whole frame. */
  lemma HeardKeeps(s: Session, job: Job, byte: U8)
    requires Allowed(s, job)
    ensures Wire(Heard(s, job, byte), job) == Wire(s, job)
  {
    if s.InBlock? && s.wait == ForReply && (byte == BLOCK_ACK || byte == BLOCK_NACK) {
      FramesNext(job.payload, s.replies, byte == BLOCK_ACK);
      var f := Frame(job.payload, Accepted(s.replies));
      assert f[..s.sent] == f;
      var r := Heard(s, job, byte);
      assert r.replies == s.replies + [byte == BLOCK_ACK] && (r.InBlock? ==> r.sent == 0);
      Regroup(Header(job.payload, job.base, job.entry), Frames(job.payload, s.replies), f);
      WireAtStart(r, job);
    }
  }

  /** Done: the peer has accepted every block, and what it has is the payload. */
  lemma FinishedDelivers(s: Session, job: Job)
    requires Allowed(s, job) && s.Finished?
    ensures Accepted(s.replies) == job.Count() && |Wire(s, job)| >= 20
    ensures Wire(s, job)[..20] == Header(job.payload, job.base, job.entry)
    ensures Receive(|job.payload|, Wire(s, job)[20..], s.replies) == (job.payload, [])
  {
    AllReceived(job.payload, s.replies);
    assert Wire(s, job)[20..] == Frames(job.payload, s.replies);
  }

  /** In the middle of a transfer it has exactly the accepted blocks, and the rest is one attempt under way. */
  lemma BlockDelivers(s: Session, job: Job)
    requires Allowed(s, job) && s.InBlock? && Accepted(s.replies) < job.Count()
    ensures |Wire(s, job)| >= 20
    ensures Receive(|job.payload|, Wire(s, job)[20..], s.replies)
         == (job.payload[..64 * Accepted(s.replies)], Frame(job.payload, Accepted(s.replies))[..s.sent])
  {
    var rest := Frame(job.payload, Accepted(s.replies))[..s.sent];
    ReceiveFrames(job.payload, s.replies, rest);
    Behind(Header(job.payload, job.base, job.entry), Frames(job.payload, s.replies), rest);
  }

  lemma Behind(header: seq<U8>, frames: seq<U8>, rest: seq<U8>)
    requires |header| == 20
    ensures (header + frames + rest)[20..] == frames + rest
  {
  }

  // ---- The sender of the source

  datatype Phase =
    | Idle | HeaderPhase | WaitLoadStart | PayloadChunk | WaitChunkAck | BlockChecksum | WaitChecksumAck
    | WaitBlockReply | Done

  method SumOf(payload: seq<U8>, start: nat, end: nat) returns (sum: U32)
    requires start <= end <= |payload|
    ensures sum == ToU32(Sum(payload[start..end]))
  {
    sum := 0;
    var idx := start;
    while idx < end
      invariant start <= idx <= end && sum == ToU32(Sum(payload[start..idx]))
    {
      assert payload[start..idx + 1][..idx - start] == payload[start..idx];
      sum := ToU32(sum + payload[idx]);
      idx := idx + 1;
    }
  }

  method PushU32Le(bytes: seq<U8>, value: U32) returns (r: seq<U8>)
    ensures r == bytes + Le32(value)
  {
    r := bytes + [value % 0x100];
    r := r + [value / 0x100 % 0x100];
    r := r + [value / 0x1_0000 % 0x100];
    r := r + [value / 0x100_0000 % 0x100];
  }

  method MakeHeader(payload: seq<U8>, base: U32, entry: U32) returns (header: seq<U8>)
    ensures header == Header(payload, base, entry)
  {
    header := PushU32Le([], MAGIC);
    header := PushU32Le(header, base);
    header := PushU32Le(header, entry);
    header := PushU32Le(header, ToU32(|payload|));
    var sum := SumOf(payload, 0, |payload|);
    assert payload[0..|payload|] == payload;
    header := PushU32Le(header, sum);
  }

  method BlockSums(payload: seq<U8>) returns (sums: seq<U32>)
    ensures |sums| == BlockCount(payload) && forall b :: 0 <= b < |sums| ==> sums[b] == BlockSum(payload, b)
  {
    sums := [];
    var block := 0;
    while block < BlockCount(payload)
      invariant 0 <= block <= BlockCount(payload) && |sums| == block
      invariant forall b :: 0 <= b < block ==> sums[b] == BlockSum(payload, b)
    {
      var sum := SumOf(payload, 64 * block, BlockEnd(|payload|, block));
      sums := sums + [sum];
      block := block + 1;
    }
  }

  // What the constructor computes from the configuration
  datatype Config = Config(payload: seq<U8>, header: seq<U8>, blockChecksums: seq<U32>, headerGap: nat,
                           payloadStartGap: nat, payloadGap: nat, payloadChunkGap: nat)

  ghost predicate Configured(cfg: Config, job: Job) {
    && cfg.payload == job.payload && cfg.header == Header(job.payload, job.base, job.entry)
    && |cfg.blockChecksums| == job.Count()
    && forall b :: 0 <= b < job.Count() ==> cfg.blockChecksums[b] == BlockSum(job.payload, b)
  }

  // The fields of the sender, as a value
  datatype Fields = Fields(phase: Phase, headerIdx: nat, payloadIdx: nat, blockStart: nat, currentBlock: nat,
                           checksumIdx: nat, chunkBytesSent: nat, gapCountdown: nat, bytesSentTotal: nat)

  const INITIAL := Fields(Idle, 0, 0, 0, 0, 0, 0, 0, 0)

  function Started(c: Fields, cfg: Config): Fields {
    if c.phase == Idle then c.(phase := HeaderPhase, gapCountdown := cfg.headerGap) else c
  }

  function PayloadAllowed(c: Fields, cfg: Config): Fields {
    if c.phase != WaitLoadStart then c else
      c.(phase := PayloadChunk, blockStart := 0, payloadIdx := 0, chunkBytesSent := 0,
        gapCountdown := cfg.payloadStartGap)
  }

  function Observed(c: Fields, cfg: Config, byte: U8): Fields {
    if c.phase == WaitChunkAck && byte == ACK then c.(phase := PayloadChunk, gapCountdown := cfg.payloadChunkGap)
    else if c.phase == WaitChecksumAck && byte == ACK then c.(phase := WaitBlockReply)
    else if c.phase == WaitBlockReply && byte == BLOCK_ACK then
      var next := c.currentBlock + 1;
      c.(currentBlock := next, blockStart := next * 64, payloadIdx := next * 64, checksumIdx := 0,
         phase := if next >= |cfg.blockChecksums| then Done else PayloadChunk, gapCountdown := cfg.payloadChunkGap)
    else if c.phase == WaitBlockReply && byte == BLOCK_NACK then
      c.(payloadIdx := c.blockStart, chunkBytesSent := 0, checksumIdx := 0, phase := PayloadChunk,
        gapCountdown := cfg.payloadChunkGap)
    else c
  }

  datatype Out = Nothing | Byte(value: U8)

  // One cycle. The indices are guarded where the source relies on its counters; FieldsInRange shows that the
  // guards never matter.
  function Driven(c: Fields, cfg: Config): (Fields, Out) {
    if c.gapCountdown != 0 then (c.(gapCountdown := c.gapCountdown - 1), Nothing)
    else match c.phase
      case HeaderPhase => DrivenHeader(c, cfg)
      case PayloadChunk => DrivenPayload(c, cfg)
      case BlockChecksum => DrivenChecksum(c, cfg)
      case _ => (c, Nothing)
  }

  function DrivenHeader(c: Fields, cfg: Config): (Fields, Out) {
    if c.headerIdx >= |cfg.header| then (c.(phase := WaitLoadStart), Nothing) else
      var d := c.(headerIdx := c.headerIdx + 1, bytesSentTotal := c.bytesSentTotal + 1, gapCountdown := cfg.headerGap);
      (if d.headerIdx >= |cfg.header| then d.(phase := WaitLoadStart) else d, Byte(cfg.header[c.headerIdx]))
  }

  function DrivenPayload(c: Fields, cfg: Config): (Fields, Out) {
    if c.currentBlock >= |cfg.blockChecksums| then (c.(phase := Done), Nothing) else
      var end := if c.blockStart + 64 <= |cfg.payload| then c.blockStart + 64 else |cfg.payload|;
      if c.payloadIdx >= end then
        (c.(phase := BlockChecksum, checksumIdx := 0, gapCountdown := cfg.payloadGap), Nothing)
      else
        var d := c.(payloadIdx := c.payloadIdx + 1, bytesSentTotal := c.bytesSentTotal + 1,
          chunkBytesSent := c.chunkBytesSent + 1,
                    gapCountdown := cfg.payloadGap);
        (if d.chunkBytesSent == 4 || d.payloadIdx >= end then d.(chunkBytesSent := 0, phase := WaitChunkAck) else d,
         Byte(cfg.payload[c.payloadIdx]))
  }

  function DrivenChecksum(c: Fields, cfg: Config): (Fields, Out) {
    if c.currentBlock >= |cfg.blockChecksums| || c.checksumIdx >= 4 then (c, Nothing) else
      var d := c.(bytesSentTotal := c.bytesSentTotal + 1, checksumIdx := c.checksumIdx + 1,
        gapCountdown := cfg.payloadGap);
      (if d.checksumIdx == 4 then d.(phase := WaitChecksumAck) else d,
       Byte(Le32(cfg.blockChecksums[c.currentBlock])[c.checksumIdx]))
  }

  class LoaderHost {
    const payload: seq<U8>
    const header: seq<U8>
    const blockChecksums: seq<U32>
    const headerGap: nat
    const payloadStartGap: nat
    const payloadGap: nat
    const payloadChunkGap: nat
    var phase: Phase
    var headerIdx: nat
    var payloadIdx: nat
    var blockStart: nat
    var currentBlock: nat
    var checksumIdx: nat
    var chunkBytesSent: nat
    var gapCountdown: nat
    var bytesSentTotal: nat

    ghost function Cfg(): Config {
      Config(payload, header, blockChecksums, headerGap, payloadStartGap, payloadGap, payloadChunkGap)
    }

    ghost function Now(): Fields
      reads this
    {
      Fields(phase, headerIdx, payloadIdx, blockStart, currentBlock, checksumIdx, chunkBytesSent, gapCountdown,
        bytesSentTotal)
    }

    // what the source relies on to index its buffers
    ghost predicate InRange()
      reads this
    {
      phase == BlockChecksum ==> currentBlock < |blockChecksums| && checksumIdx < 4
    }

    constructor (payload: seq<U8>, base: U32, entry: U32, headerGap: nat, payloadStartGap: nat, payloadGap: nat,
                 payloadChunkGap: nat)
      ensures Configured(Cfg(), Job(payload, base, entry)) && Now() == INITIAL
      ensures this.headerGap == headerGap && this.payloadStartGap == payloadStartGap
      ensures this.payloadGap == payloadGap && this.payloadChunkGap == payloadChunkGap
    {
      var h := MakeHeader(payload, base, entry);
      var sums := BlockSums(payload);
      this.payload, header, blockChecksums := payload, h, sums;
      this.headerGap, this.payloadStartGap := headerGap, payloadStartGap;
      this.payloadGap, this.payloadChunkGap := payloadGap, payloadChunkGap;
      phase := Idle;
      headerIdx, payloadIdx, blockStart, currentBlock := 0, 0, 0, 0;
      checksumIdx, chunkBytesSent, gapCountdown, bytesSentTotal := 0, 0, 0, 0;
    }

    method Start()
      modifies this
      ensures Now() == Started(old(Now()), Cfg())
    {
      if phase == Idle {
        phase := HeaderPhase;
        gapCountdown := headerGap;
      }
    }

    method AllowPayloadStart()
      modifies this
      ensures Now() == PayloadAllowed(old(Now()), Cfg())
    {
      if phase == WaitLoadStart {
        phase := PayloadChunk;
        blockStart := 0;
        payloadIdx := 0;
        chunkBytesSent := 0;
        gapCountdown := payloadStartGap;
      }
    }

    method ObserveTxByte(byte: U8)
      modifies this
      ensures Now() == Observed(old(Now()), Cfg(), byte)
    {
      if phase == WaitChunkAck && byte == 0x06 {
        phase := PayloadChunk;
        gapCountdown := payloadChunkGap;
      } else if phase == WaitChecksumAck && byte == 0x06 {
        phase := WaitBlockReply;
      } else if phase == WaitBlockReply && byte == 0x17 {
        currentBlock := currentBlock + 1;
        blockStart := currentBlock * 64;
        payloadIdx := blockStart;
        checksumIdx := 0;
        phase := if currentBlock >= |blockChecksums| then Done else PayloadChunk;
        gapCountdown := payloadChunkGap;
      } else if phase == WaitBlockReply && byte == 0x15 {
        payloadIdx := blockStart;
        chunkBytesSent := 0;
        checksumIdx := 0;
        phase := PayloadChunk;
        gapCountdown := payloadChunkGap;
      }
    }

    method Drive() returns (out: Out)
      requires InRange()
      modifies this
      ensures (Now(), out) == Driven(old(Now()), Cfg())
    {
      out := Nothing;
      if gapCountdown != 0 {
        gapCountdown := gapCountdown - 1;
        return;
      }
      match phase
      case Idle =>
      case WaitLoadStart =>
      case WaitChunkAck =>
      case WaitChecksumAck =>
      case WaitBlockReply =>
      case Done =>
      case HeaderPhase =>
        if headerIdx < |header| {
          out := Byte(header[headerIdx]);
          headerIdx := headerIdx + 1;
          bytesSentTotal := bytesSentTotal + 1;
          gapCountdown := headerGap;
        }
        if headerIdx >= |header| {
          phase := WaitLoadStart;
        }
      case PayloadChunk =>
        if currentBlock >= |blockChecksums| {
          phase := Done;
          return;
        }
        var blockEnd := if blockStart + 64 <= |payload| then blockStart + 64 else |payload|;
        if payloadIdx >= blockEnd {
          phase := BlockChecksum;
          checksumIdx := 0;
          gapCountdown := payloadGap;
          return;
        }
        out := Byte(payload[payloadIdx]);
        payloadIdx := payloadIdx + 1;
        bytesSentTotal := bytesSentTotal + 1;
        chunkBytesSent := chunkBytesSent + 1;
        gapCountdown := payloadGap;
        if chunkBytesSent == 4 || payloadIdx >= blockEnd {
          chunkBytesSent := 0;
          phase := WaitChunkAck;
        }
      case BlockChecksum =>
        var checksum := blockChecksums[currentBlock];
        out := Byte(ByteOf(checksum, checksumIdx));
        bytesSentTotal := bytesSentTotal + 1;
        checksumIdx := checksumIdx + 1;
        gapCountdown := payloadGap;
        if checksumIdx == 4 {
          phase := WaitChecksumAck;
        }
    }
  }

  // one byte of a checksum, low one first
  function ByteOf(v: U32, i: nat): (b: U8)
    requires i < 4
    ensures b == Le32(v)[i]
  {
    match i
    case 0 => v % 0x100
    case 1 => v / 0x100 % 0x100
    case 2 => v / 0x1_0000 % 0x100
    case _ => v / 0x100_0000 % 0x100
  }

  // ---- The sender carries out the protocol

  /** The transfer that the fields stand for. */
  ghost predicate Stands(c: Fields, s: Session, job: Job) {
    Allowed(s, job) &&
    match s
    case Waiting => c.phase == Idle && c.headerIdx == 0 && c.currentBlock == c.checksumIdx == 0
    case InHeader(k) => c.phase == HeaderPhase && c.headerIdx == k && c.currentBlock == c.checksumIdx == 0
    case HeaderSent => c.phase == WaitLoadStart && c.currentBlock == c.checksumIdx == 0
    case Finished(replies) => c.phase == Done && c.currentBlock == Accepted(replies)
    case InBlock(replies, k, wait) =>
      && c.currentBlock == Accepted(replies) && c.blockStart == 64 * c.currentBlock
      && if c.currentBlock < job.Count() then InBlockOf(c, |Block(job.payload, c.currentBlock)|, k, wait)
         else c.phase == PayloadChunk && AtByte(c, 0, 0)
  }

  // k bytes into a frame with n bytes of data
  predicate InBlockOf(c: Fields, n: nat, k: nat, wait: Wait) {
    match c.phase
    case PayloadChunk => wait == Sending && k <= n && AtByte(c, k, 0) && c.chunkBytesSent == if k < n then k % 4 else 0
    case WaitChunkAck => wait == ForAck && k <= n && AtByte(c, k, 0) && c.chunkBytesSent == 0
    case BlockChecksum => wait == Sending && n <= k < n + 4 && AtByte(c, n, k - n) && c.chunkBytesSent == 0
    case WaitChecksumAck => wait == ForAck && k == n + 4 && AtByte(c, n, 4) && c.chunkBytesSent == 0
    case WaitBlockReply => wait == ForReply && k == n + 4 && AtByte(c, n, 4) && c.chunkBytesSent == 0
    case _ => false
  }

  predicate AtByte(c: Fields, k: nat, sum: nat) { c.payloadIdx == c.blockStart + k && c.checksumIdx == sum }

  lemma ObservedAck(c: Fields, s: Session, job: Job, cfg: Config)
    requires Stands(c, s, job) && c.phase in {WaitChunkAck, WaitChecksumAck}
    ensures Stands(Observed(c, cfg, ACK), Heard(s, job, ACK), job)
  {
  }

  lemma ObservedTake(c: Fields, s: Session, job: Job, cfg: Config)
    requires Stands(c, s, job) && Configured(cfg, job) && c.phase == WaitBlockReply
    ensures Stands(Observed(c, cfg, BLOCK_ACK), Heard(s, job, BLOCK_ACK), job)
  {
    HeardReply(s, job, BLOCK_ACK);
  }

  lemma ObservedRepeat(c: Fields, s: Session, job: Job, cfg: Config)
    requires Stands(c, s, job) && c.phase == WaitBlockReply
    ensures Stands(Observed(c, cfg, BLOCK_NACK), Heard(s, job, BLOCK_NACK), job)
  {
    HeardReply(s, job, BLOCK_NACK);
  }

  predicate Expected(c: Fields, byte: U8) {
    (c.phase in {WaitChunkAck, WaitChecksumAck} && byte == ACK)
      || (c.phase == WaitBlockReply && byte in {BLOCK_ACK, BLOCK_NACK})
  }

  lemma ObservedOther(c: Fields, s: Session, job: Job, cfg: Config, byte: U8)
    requires Stands(c, s, job) && !Expected(c, byte)
    ensures Observed(c, cfg, byte) == c && Heard(s, job, byte) == s
  {
  }

  lemma StandsObserved(c: Fields, s: Session, job: Job, cfg: Config, byte: U8)
    requires Stands(c, s, job) && Configured(cfg, job)
    ensures Stands(Observed(c, cfg, byte), Heard(s, job, byte), job)
  {
    if !Expected(c, byte) {
      ObservedOther(c, s, job, cfg, byte);
    } else if byte == ACK {
      ObservedAck(c, s, job, cfg);
    } else if byte == BLOCK_ACK {
      ObservedTake(c, s, job, cfg);
    } else {
      ObservedRepeat(c, s, job, cfg);
    }
  }

  lemma StandsHeader(c: Fields, s: Session, job: Job, cfg: Config)
    requires Stands(c, s, job) && Configured(cfg, job) && c.phase == HeaderPhase
    ensures s.InHeader? && DrivenHeader(c, cfg).1 == Byte(Due(s, job))
    ensures Stands(DrivenHeader(c, cfg).0, Sent(s, job), job)
  {
  }

  lemma StandsChunk(c: Fields, s: Session, job: Job, cfg: Config)
    requires Stands(c, s, job) && Configured(cfg, job) && c.phase == PayloadChunk && s.InBlock?
    requires c.currentBlock < job.Count()
    requires s.sent < |Block(job.payload, c.currentBlock)|
    ensures Active(s, job) && DrivenPayload(c, cfg).1 == Byte(Due(s, job))
    ensures Stands(DrivenPayload(c, cfg).0, Sent(s, job), job)
  {
    ChunkCount(s.sent);
  }

  lemma StandsBlockEnd(c: Fields, s: Session, job: Job, cfg: Config)
    requires Stands(c, s, job) && Configured(cfg, job) && c.phase == PayloadChunk && s.InBlock?
    requires c.currentBlock < job.Count()
    requires s.sent >= |Block(job.payload, c.currentBlock)|
    ensures Active(s, job) && s.sent == |Block(job.payload, c.currentBlock)|
    ensures DrivenPayload(c, cfg).1 == Nothing && Stands(DrivenPayload(c, cfg).0, s, job)
    ensures DrivenPayload(c, cfg).0.phase == BlockChecksum
  {
  }

  // counting to 4 from 0 is counting modulo 4
  lemma ChunkCount(k: nat)
    ensures (k + 1) % 4 == if k % 4 + 1 == 4 then 0 else k % 4 + 1
  {
  }

  lemma StandsChecksum(c: Fields, s: Session, job: Job, cfg: Config)
    requires Stands(c, s, job) && Configured(cfg, job) && c.phase == BlockChecksum
    ensures s.InBlock? && Active(s, job) && DrivenChecksum(c, cfg).1 == Byte(Due(s, job))
    ensures Stands(DrivenChecksum(c, cfg).0, Sent(s, job), job)
  {
  }

  // An empty payload is finished at once.
  lemma StandsEmpty(c: Fields, s: Session, job: Job, cfg: Config)
    requires Stands(c, s, job) && Configured(cfg, job) && c.phase == PayloadChunk && c.currentBlock >= job.Count()
    ensures s.InBlock? && job.Count() == 0 && DrivenPayload(c, cfg).1 == Nothing
    ensures Stands(DrivenPayload(c, cfg).0, Finished(s.replies), job)
    ensures Wire(Finished(s.replies), job) == Wire(s, job)
  {
    PlausibleBound(s.replies, 0);
  }

  // ---- One cycle

  function Bytes(out: Out): seq<U8> { if out.Byte? then [out.value] else [] }

  ghost function DrivenTo(c: Fields, s: Session, job: Job): Session
    requires Allowed(s, job)
  {
    if c.gapCountdown != 0 then s
    else if s.InBlock? && Accepted(s.replies) >= job.Count() then Finished(s.replies)
    else if Active(s, job) && !TurnsToSum(c, s, job) then Sent(s, job)
    else s
  }

  // the cycle without a byte between a block and its sum
  ghost predicate TurnsToSum(c: Fields, s: Session, job: Job)
    requires Allowed(s, job) && Active(s, job)
  {
    c.phase == PayloadChunk && s.InBlock? && s.sent == |Block(job.payload, Accepted(s.replies))|
  }

  /** A cycle from transfer s to transfer t sends the byte that is due, or none. */
  ghost predicate Cycles(c: Fields, cfg: Config, s: Session, t: Session, job: Job)
    requires Allowed(s, job)
  {
    var (d, out) := Driven(c, cfg);
    Stands(d, t, job) && Wire(t, job) == Wire(s, job) + Bytes(out)
      && d.bytesSentTotal == c.bytesSentTotal + |Bytes(out)|
  }

  lemma CyclesQuiet(c: Fields, s: Session, job: Job, cfg: Config)
    requires Stands(c, s, job) && (c.gapCountdown != 0 || c.phase !in {HeaderPhase, PayloadChunk, BlockChecksum})
    ensures DrivenTo(c, s, job) == s && Cycles(c, cfg, s, s, job)
  {
  }

  lemma CyclesHeader(c: Fields, s: Session, job: Job, cfg: Config)
    requires Stands(c, s, job) && Configured(cfg, job) && c.gapCountdown == 0 && c.phase == HeaderPhase
    ensures Active(s, job) && DrivenTo(c, s, job) == Sent(s, job) && Cycles(c, cfg, s, Sent(s, job), job)
  {
    StandsHeader(c, s, job, cfg);
    SentGrows(s, job);
  }

  lemma CyclesChecksum(c: Fields, s: Session, job: Job, cfg: Config)
    requires Stands(c, s, job) && Configured(cfg, job) && c.gapCountdown == 0 && c.phase == BlockChecksum
    ensures Active(s, job) && DrivenTo(c, s, job) == Sent(s, job) && Cycles(c, cfg, s, Sent(s, job), job)
  {
    StandsChecksum(c, s, job, cfg);
    SentGrows(s, job);
  }

  lemma CyclesPayload(c: Fields, s: Session, job: Job, cfg: Config)
    requires Stands(c, s, job) && Configured(cfg, job) && c.gapCountdown == 0 && c.phase == PayloadChunk
    requires c.currentBlock < job.Count()
    ensures Cycles(c, cfg, s, DrivenTo(c, s, job), job)
  {
    if s.sent < |Block(job.payload, c.currentBlock)| {
      CyclesChunk(c, s, job, cfg);
    } else {
      CyclesBlockEnd(c, s, job, cfg);
    }
  }

  lemma CyclesChunk(c: Fields, s: Session, job: Job, cfg: Config)
    requires Stands(c, s, job) && Configured(cfg, job) && c.gapCountdown == 0 && c.phase == PayloadChunk
    requires c.currentBlock < job.Count()
    requires s.InBlock? && s.sent < |Block(job.payload, c.currentBlock)|
    ensures Active(s, job) && DrivenTo(c, s, job) == Sent(s, job) && Cycles(c, cfg, s, Sent(s, job), job)
  {
    StandsChunk(c, s, job, cfg);
    SentGrows(s, job);
  }

  lemma CyclesBlockEnd(c: Fields, s: Session, job: Job, cfg: Config)
    requires Stands(c, s, job) && Configured(cfg, job) && c.gapCountdown == 0 && c.phase == PayloadChunk
    requires c.currentBlock < job.Count()
    requires s.InBlock? && s.sent >= |Block(job.payload, c.currentBlock)|
    ensures DrivenTo(c, s, job) == s && Cycles(c, cfg, s, s, job) && Driven(c, cfg).0.phase == BlockChecksum
  {
    StandsBlockEnd(c, s, job, cfg);
  }

  lemma CyclesEmpty(c: Fields, s: Session, job: Job, cfg: Config)
    requires Stands(c, s, job) && Configured(cfg, job) && c.gapCountdown == 0 && c.phase == PayloadChunk
    requires c.currentBlock >= job.Count()
    ensures Cycles(c, cfg, s, DrivenTo(c, s, job), job)
  {
    StandsEmpty(c, s, job, cfg);
  }

  lemma StandsDriven(c: Fields, s: Session, job: Job, cfg: Config)
    requires Stands(c, s, job) && Configured(cfg, job)
    ensures Cycles(c, cfg, s, DrivenTo(c, s, job), job)
  {
    if c.gapCountdown != 0 || c.phase !in {HeaderPhase, PayloadChunk, BlockChecksum} {
      CyclesQuiet(c, s, job, cfg);
    } else if c.phase == HeaderPhase {
      CyclesHeader(c, s, job, cfg);
    } else if c.phase == BlockChecksum {
      CyclesChecksum(c, s, job, cfg);
    } else if c.currentBlock < job.Count() {
      CyclesPayload(c, s, job, cfg);
    } else {
      CyclesEmpty(c, s, job, cfg);
    }
  }

  // ---- Whole runs, against any peer

  datatype Event = StartCall | AllowCall | Reply(byte: U8) | Cycle

  /** The fields and everything sent, after any sequence of events. */
  function RunOf(cfg: Config, events: seq<Event>): (Fields, seq<U8>) {
    if events == [] then (INITIAL, []) else
      var (c, wire) := RunOf(cfg, events[..|events| - 1]);
      var (d, sent) := Stepped(c, cfg, events[|events| - 1]);
      (d, wire + sent)
  }

  /** The block replies among them: those that came when one was waited for. */
  function RepliesOf(cfg: Config, events: seq<Event>): seq<bool> {
    if events == [] then [] else
      var before := events[..|events| - 1];
      RepliesOf(cfg, before) + Counts(RunOf(cfg, before).0, events[|events| - 1])
  }

  function Counted(s: Session): seq<bool> { if s.InBlock? || s.Finished? then s.replies else [] }

  lemma StandsCalls(c: Fields, s: Session, job: Job, cfg: Config)
    requires Stands(c, s, job) && Configured(cfg, job)
    ensures Stands(Started(c, cfg), if s.Waiting? then InHeader(0) else s, job)
    ensures Stands(PayloadAllowed(c, cfg), if s.HeaderSent? then InBlock([], 0, Sending) else s, job)
    ensures s.Waiting? ==> Wire(InHeader(0), job) == Wire(s, job)
    ensures s.HeaderSent? ==> Wire(InBlock([], 0, Sending), job) == Wire(s, job)
  {
  }

  lemma HeardCounts(c: Fields, s: Session, job: Job, byte: U8)
    requires Stands(c, s, job)
    ensures Counted(Heard(s, job, byte)) == Counted(s) + if c.phase == WaitBlockReply
            && byte in {BLOCK_ACK, BLOCK_NACK} then [byte == BLOCK_ACK] else []
  {
  }

  // the transfer after an event
  ghost function After(c: Fields, s: Session, job: Job, e: Event): Session
    requires Allowed(s, job)
  {
    match e
    case StartCall => if s.Waiting? then InHeader(0) else s
    case AllowCall => if s.HeaderSent? then InBlock([], 0, Sending) else s
    case Reply(byte) => Heard(s, job, byte)
    case Cycle => DrivenTo(c, s, job)
  }

  /** The fields stand for a transfer that is allowed, the wire holds what that transfer says, and it has counted
      these replies. */
  ghost predicate Sound(c: Fields, wire: seq<U8>, replies: seq<bool>, s: Session, job: Job) {
    Stands(c, s, job) && wire == Wire(s, job) && c.bytesSentTotal == |wire| && Counted(s) == replies
  }

  function Stepped(c: Fields, cfg: Config, e: Event): (Fields, seq<U8>) {
    match e
    case StartCall => (Started(c, cfg), [])
    case AllowCall => (PayloadAllowed(c, cfg), [])
    case Reply(byte) => (Observed(c, cfg, byte), [])
    case Cycle => (Driven(c, cfg).0, Bytes(Driven(c, cfg).1))
  }

  function Counts(c: Fields, e: Event): seq<bool> {
    if e.Reply? && c.phase == WaitBlockReply && e.byte in {BLOCK_ACK, BLOCK_NACK} then [e.byte == BLOCK_ACK] else []
  }

  lemma SoundCall(c: Fields, wire: seq<U8>, replies: seq<bool>, s: Session, job: Job, cfg: Config, e: Event)
    requires Configured(cfg, job) && Sound(c, wire, replies, s, job) && (e.StartCall? || e.AllowCall?)
    ensures Sound(Stepped(c, cfg, e).0, wire, replies, After(c, s, job, e), job)
  {
    StandsCalls(c, s, job, cfg);
  }

  lemma SoundReply(c: Fields, wire: seq<U8>, replies: seq<bool>, s: Session, job: Job, cfg: Config, byte: U8)
    requires Configured(cfg, job) && Sound(c, wire, replies, s, job)
    ensures Sound(Observed(c, cfg, byte), wire, replies + Counts(c, Reply(byte)), Heard(s, job, byte), job)
  {
    StandsObserved(c, s, job, cfg, byte);
    HeardKeeps(s, job, byte);
    HeardCounts(c, s, job, byte);
  }

  lemma SoundCycle(c: Fields, wire: seq<U8>, replies: seq<bool>, s: Session, job: Job, cfg: Config)
    requires Configured(cfg, job) && Sound(c, wire, replies, s, job)
    ensures Sound(Driven(c, cfg).0, wire + Bytes(Driven(c, cfg).1), replies, DrivenTo(c, s, job), job)
  {
    StandsDriven(c, s, job, cfg);
  }

  lemma SoundStep(c: Fields, wire: seq<U8>, replies: seq<bool>, s: Session, job: Job, cfg: Config, e: Event)
    requires Configured(cfg, job) && Sound(c, wire, replies, s, job)
    ensures Sound(Stepped(c, cfg, e).0, wire + Stepped(c, cfg, e).1, replies + Counts(c, e), After(c, s, job, e), job)
  {
    match e
    case Reply(byte) => SoundReply(c, wire, replies, s, job, cfg, byte);
    case Cycle => SoundCycle(c, wire, replies, s, job, cfg);
    case _ => SoundCall(c, wire, replies, s, job, cfg, e);
  }

  /** Whatever the peer sends and whenever it does, the run is sound. */
  lemma {:induction false} RunSafe(cfg: Config, job: Job, events: seq<Event>) returns (s: Session)
    requires Configured(cfg, job)
    ensures Sound(RunOf(cfg, events).0, RunOf(cfg, events).1, RepliesOf(cfg, events), s, job)
  {
    if events == [] {
      s := Waiting;
    } else {
      var before, e := events[..|events| - 1], events[|events| - 1];
      s := RunSafe(cfg, job, before);
      var c := RunOf(cfg, before).0;
      SoundStep(c, RunOf(cfg, before).1, RepliesOf(cfg, before), s, job, cfg, e);
      s := After(c, s, job, e);
    }
  }

  /** Done means that every block was accepted, in order, and that the peer has the payload. With blocks to send,
      it is also reached no later than that. */
  lemma DoneDelivers(cfg: Config, job: Job, events: seq<Event>)
    requires Configured(cfg, job)
    ensures var (c, wire) := RunOf(cfg, events); var replies := RepliesOf(cfg, events);
            && c.currentBlock == Accepted(replies) <= job.Count()
            && (c.phase == Done ==>
                  && Accepted(replies) == job.Count() && |wire| >= 20
                    && wire[..20] == Header(job.payload, job.base, job.entry)
                  && Receive(|job.payload|, wire[20..], replies) == (job.payload, []))
            && (0 < job.Count() == Accepted(replies) ==> c.phase == Done)
  {
    var s := RunSafe(cfg, job, events);
    if s.Finished? {
      FinishedDelivers(s, job);
    }
  }

  /** In between, the peer has exactly the blocks it accepted; a reply is waited for, and counted, only right
      behind a whole attempt: the block's bytes and their sum. */
  lemma BlocksInOrder(cfg: Config, job: Job, events: seq<Event>)
    requires Configured(cfg, job)
    ensures var (c, wire) := RunOf(cfg, events); var b := c.currentBlock;
            c.phase in {PayloadChunk, WaitChunkAck, BlockChecksum, WaitChecksumAck, WaitBlockReply}
              && b < job.Count() ==>
              |wire| >= 20 &&
              var (data, attempt) := Receive(|job.payload|, wire[20..], RepliesOf(cfg, events));
              && data == job.payload[..64 * b] && attempt <= Frame(job.payload, b)
              && (c.phase == WaitBlockReply ==> attempt == Frame(job.payload, b))
  {
    var s := RunSafe(cfg, job, events);
    if s.InBlock? && Accepted(s.replies) < job.Count() {
      BlockDelivers(s, job);
      var f := Frame(job.payload, Accepted(s.replies));
      assert f[..|f|] == f;
    }
  }

  /** No run indexes a buffer out of its bounds. */
  lemma FieldsInRange(cfg: Config, job: Job, events: seq<Event>)
    requires Configured(cfg, job)
    ensures var c := RunOf(cfg, events).0;
            && (c.phase == HeaderPhase ==> c.headerIdx < |cfg.header|)
            && (c.phase == PayloadChunk ==> c.payloadIdx <= |cfg.payload|)
            && (c.phase == BlockChecksum ==> c.currentBlock < |cfg.blockChecksums| && c.checksumIdx < 4)
  {
    var s := RunSafe(cfg, job, events);
  }

  // ---- The pace of the bytes

  function CyclesFrom(c: Fields, cfg: Config, n: nat): (Fields, seq<U8>) {
    if n == 0 then (c, []) else
      var (d, sent) := CyclesFrom(c, cfg, n - 1);
      (Driven(d, cfg).0, sent + Bytes(Driven(d, cfg).1))
  }

  /** The next n cycles send nothing and the one after them this byte. */
  predicate QuietThen(c: Fields, cfg: Config, n: nat, next: U8) {
    CyclesFrom(c, cfg, n).1 == [] && Driven(CyclesFrom(c, cfg, n).0, cfg).1 == Byte(next)
  }

  lemma {:induction false} GapRuns(c: Fields, cfg: Config, n: nat)
    requires n <= c.gapCountdown
    ensures CyclesFrom(c, cfg, n) == (c.(gapCountdown := c.gapCountdown - n), [])
  {
    if n > 0 {
      GapRuns(c, cfg, n - 1);
      var d := c.(gapCountdown := c.gapCountdown - (n - 1));
      assert Driven(d, cfg) == (d.(gapCountdown := d.gapCountdown - 1), Nothing);
      var none: seq<U8> := [];
      assert CyclesFrom(c, cfg, n - 1) == (d, none) && none + Bytes(Nothing) == none;
      assert d.(gapCountdown := d.gapCountdown - 1) == c.(gapCountdown := c.gapCountdown - n);
    } else {
      assert c.(gapCountdown := c.gapCountdown - 0) == c;
    }
  }

  lemma GapEnds(c: Fields, cfg: Config, n: nat, next: U8)
    requires n == c.gapCountdown && Driven(c.(gapCountdown := 0), cfg).1 == Byte(next)
    ensures QuietThen(c, cfg, n, next)
  {
    GapRuns(c, cfg, n);
  }

  /** The bytes of the header are one header gap behind the start and behind each other. */
  lemma HeaderPace(c: Fields, cfg: Config)
    ensures c.phase == Idle && c.headerIdx < |cfg.header| ==>
              QuietThen(Started(c, cfg), cfg, cfg.headerGap, cfg.header[c.headerIdx])
    ensures c.phase == HeaderPhase && c.gapCountdown == 0 && c.headerIdx + 1 < |cfg.header| ==>
              QuietThen(Driven(c, cfg).0, cfg, cfg.headerGap, cfg.header[c.headerIdx + 1])
  {
    if c.phase == Idle && c.headerIdx < |cfg.header| {
      GapEnds(Started(c, cfg), cfg, cfg.headerGap, cfg.header[c.headerIdx]);
    }
    if c.phase == HeaderPhase && c.gapCountdown == 0 && c.headerIdx + 1 < |cfg.header| {
      GapEnds(Driven(c, cfg).0, cfg, cfg.headerGap, cfg.header[c.headerIdx + 1]);
    }
  }

  // A payload byte is due when the gap is over.
  predicate PayloadDue(c: Fields, cfg: Config) {
    && c.phase == PayloadChunk && c.currentBlock < |cfg.blockChecksums|
    && c.payloadIdx < c.blockStart + 64 && c.payloadIdx < |cfg.payload|
  }

  lemma PayloadGapEnds(c: Fields, cfg: Config, n: nat)
    requires PayloadDue(c, cfg) && n == c.gapCountdown
    ensures QuietThen(c, cfg, n, cfg.payload[c.payloadIdx])
  {
    GapEnds(c, cfg, n, cfg.payload[c.payloadIdx]);
  }

  /** The first payload byte is one start gap behind the call that allows it, those of a chunk one payload gap behind
      each other, and the first one of a chunk one chunk gap behind the acknowledgement of the last one, or the refusal
      of the block. */
  lemma PayloadPace(c: Fields, cfg: Config)
    ensures var d := PayloadAllowed(c, cfg);
            c.phase == WaitLoadStart && PayloadDue(d, cfg) ==> QuietThen(d, cfg, cfg.payloadStartGap, cfg.payload[0])
    ensures var d := Driven(c, cfg).0;
            PayloadDue(c, cfg) && c.gapCountdown == 0 && PayloadDue(d, cfg) ==>
              QuietThen(d, cfg, cfg.payloadGap, cfg.payload[c.payloadIdx + 1])
    ensures var d := Observed(c, cfg, ACK);
            c.phase == WaitChunkAck && PayloadDue(d, cfg) ==>
              QuietThen(d, cfg, cfg.payloadChunkGap, cfg.payload[c.payloadIdx])
    ensures var d := Observed(c, cfg, BLOCK_NACK);
            c.phase == WaitBlockReply && PayloadDue(d, cfg) ==>
              QuietThen(d, cfg, cfg.payloadChunkGap, cfg.payload[c.blockStart])
  {
    var a, b, d, e := PayloadAllowed(c, cfg), Driven(c, cfg).0, Observed(c, cfg, ACK), Observed(c, cfg, BLOCK_NACK);
    if c.phase == WaitLoadStart && PayloadDue(a, cfg) {
      PayloadGapEnds(a, cfg, cfg.payloadStartGap);
    }
    if PayloadDue(c, cfg) && c.gapCountdown == 0 && PayloadDue(b, cfg) {
      PayloadGapEnds(b, cfg, cfg.payloadGap);
    }
    if c.phase == WaitChunkAck && PayloadDue(d, cfg) {
      PayloadGapEnds(d, cfg, cfg.payloadChunkGap);
    }
    if c.phase == WaitBlockReply && PayloadDue(e, cfg) {
      PayloadGapEnds(e, cfg, cfg.payloadChunkGap);
    }
  }

  // ---- The object, driven by events

  // What the source relies on to index its buffers holds in every run.
  lemma InRangeAfter(host: LoaderHost, job: Job, events: seq<Event>)
    requires Configured(host.Cfg(), job) && host.Now() == RunOf(host.Cfg(), events).0
    ensures host.InRange()
  {
    FieldsInRange(host.Cfg(), job, events);
  }

  method StepHost(host: LoaderHost, e: Event, ghost job: Job, ghost events: seq<Event>) returns (sent: seq<U8>)
    requires Configured(host.Cfg(), job) && host.Now() == RunOf(host.Cfg(), events).0
    modifies host
    ensures (host.Now(), sent) == Stepped(old(host.Now()), host.Cfg(), e)
  {
    sent := [];
    match e
    case StartCall => host.Start();
    case AllowCall => host.AllowPayloadStart();
    case Reply(byte) => host.ObserveTxByte(byte);
    case Cycle =>
      InRangeAfter(host, job, events);
      var out := host.Drive();
      sent := Bytes(out);
  }

  /** A sender that goes through any events ends with the fields, and has sent the bytes, that the theorems speak of. */
  method RunHost(host: LoaderHost, events: seq<Event>, ghost job: Job) returns (wire: seq<U8>)
    requires Configured(host.Cfg(), job) && host.Now() == INITIAL
    modifies host
    ensures (host.Now(), wire) == RunOf(host.Cfg(), events)
  {
    wire := [];
    for i := 0 to |events|
      invariant (host.Now(), wire) == RunOf(host.Cfg(), events[..i])
    {
      assert events[..i + 1][..i] == events[..i];
      var sent := StepHost(host, events[i], job, events[..i]);
      wire := wire + sent;
    }
    assert events[..|events|] == events;
  }

  // ---- A responsive peer

  /** An event that the sender waits for: the calls that start it, the peer's answers, or a cycle to send in. */
  predicate Awaited(c: Fields, e: Event) {
    match c.phase
    case Idle => e == StartCall
    case WaitLoadStart => e == AllowCall
    case WaitChunkAck => e == Reply(ACK)
    case WaitChecksumAck => e == Reply(ACK)
    case WaitBlockReply => e == Reply(BLOCK_ACK) || e == Reply(BLOCK_NACK)
    case Done => true
    case _ => e == Cycle
  }

  function Stage(s: Session): nat {
    match s
    case Waiting => 3
    case InHeader(_) => 2
    case HeaderSent => 1
    case _ => 0
  }

  // bytes left of the header or the frame
  ghost function BytesLeft(s: Session, job: Job): nat
    requires Allowed(s, job)
  {
    match s
    case InHeader(k) => 20 - k
    case InBlock(replies, k, _) => if Accepted(replies) < job.Count() then |Frame(job.payload, Accepted(replies))| - k
      else 1
    case _ => 0
  }

  function Steps(c: Fields): nat {
    match c.phase
    case WaitChunkAck => 4
    case PayloadChunk => 3
    case BlockChecksum => 2
    case WaitChecksumAck => 1
    case _ => 0
  }

  /** A step nearer to the end of the attempt: a later stage, fewer bytes left, a later phase or a shorter gap. */
  ghost predicate Nearer(c: Fields, s: Session, d: Fields, t: Session, job: Job)
    requires Allowed(s, job)
  {
    && Allowed(t, job) && Counted(t) == Counted(s)
    && (|| Stage(t) < Stage(s)
        || (Stage(t) == Stage(s) && BytesLeft(t, job) < BytesLeft(s, job))
        || (Stage(t) == Stage(s) && BytesLeft(t, job) == BytesLeft(s, job) && Steps(d) < Steps(c))
        || (Stage(t) == Stage(s) && BytesLeft(t, job) == BytesLeft(s, job) && Steps(d) == Steps(c)
          && d.gapCountdown < c.gapCountdown))
  }

  lemma SentNearer(c: Fields, s: Session, d: Fields, job: Job)
    requires Allowed(s, job) && Active(s, job)
    ensures Nearer(c, s, d, Sent(s, job), job)
  {
  }

  lemma CycleNearer(c: Fields, s: Session, job: Job, cfg: Config)
    requires Stands(c, s, job) && Configured(cfg, job) && c.phase in {HeaderPhase, PayloadChunk, BlockChecksum}
    requires c.gapCountdown == 0
    ensures Nearer(c, s, Driven(c, cfg).0, DrivenTo(c, s, job), job)
  {
    var d := Driven(c, cfg).0;
    if c.phase == HeaderPhase {
      CyclesHeader(c, s, job, cfg);
      SentNearer(c, s, d, job);
    } else if c.phase == BlockChecksum {
      CyclesChecksum(c, s, job, cfg);
      SentNearer(c, s, d, job);
    } else if c.currentBlock < job.Count() {
      if s.sent < |Block(job.payload, c.currentBlock)| {
        CyclesChunk(c, s, job, cfg);
        SentNearer(c, s, d, job);
      } else {
        CyclesBlockEnd(c, s, job, cfg);
      }
    }
  }

  lemma GapNearer(c: Fields, s: Session, job: Job, cfg: Config)
    requires Allowed(s, job) && c.gapCountdown > 0
    ensures Nearer(c, s, Driven(c, cfg).0, DrivenTo(c, s, job), job)
  {
  }

  lemma AnswerNearer(c: Fields, s: Session, job: Job, cfg: Config)
    requires Stands(c, s, job) && Configured(cfg, job) && c.phase in {WaitChunkAck, WaitChecksumAck}
    ensures Nearer(c, s, Observed(c, cfg, ACK), Heard(s, job, ACK), job)
  {
  }

  /** Until Done, every awaited event brings the end of the attempt nearer, or is the reply that ends it; */
  lemma Progress(c: Fields, s: Session, job: Job, cfg: Config, e: Event)
    requires Stands(c, s, job) && Configured(cfg, job) && c.phase != Done && Awaited(c, e)
    ensures if c.phase == WaitBlockReply then |Counts(c, e)| == 1 && Accepted(Counted(s)) < job.Count()
            else Nearer(c, s, Stepped(c, cfg, e).0, After(c, s, job, e), job)
  {
    if c.phase == WaitBlockReply {
      ReplyCounts(c, s, job, e);
    } else if c.phase in {WaitChunkAck, WaitChecksumAck} {
      AnswerNearer(c, s, job, cfg);
    } else if c.phase in {HeaderPhase, PayloadChunk, BlockChecksum} {
      if c.gapCountdown == 0 {
        CycleNearer(c, s, job, cfg);
      } else {
        GapNearer(c, s, job, cfg);
      }
    }
  }

  // a reply is counted, and opens the next attempt
  lemma ReplyCounts(c: Fields, s: Session, job: Job, e: Event)
    requires Stands(c, s, job) && c.phase == WaitBlockReply && Awaited(c, e)
    ensures |Counts(c, e)| == 1 && Accepted(Counted(s)) < job.Count()
  {
  }

  /** any other event loses nothing: it takes at most a cycle off the gap. */
  lemma StrayHarmless(c: Fields, s: Session, job: Job, cfg: Config, e: Event)
    requires Stands(c, s, job) && !Awaited(c, e)
    ensures After(c, s, job, e) == s && Counts(c, e) == []
    ensures var d := Stepped(c, cfg, e).0; Steps(d) == Steps(c) && d.gapCountdown <= c.gapCountdown
  {
    match e
    case Reply(byte) => ObservedOther(c, s, job, cfg, byte);
    case Cycle => CyclesQuiet(c, s, job, cfg);
    case _ =>
  }

  // The first n events of a run without end
  function Prefix(events: nat -> Event, n: nat): (r: seq<Event>)
    ensures |r| == n && forall i :: 0 <= i < n ==> r[i] == events(i)
  {
    seq(n, i requires 0 <= i => events(i))
  }

  function FieldsAt(cfg: Config, events: nat -> Event, n: nat): Fields { RunOf(cfg, Prefix(events, n)).0 }
  function RepliesAt(cfg: Config, events: nat -> Event, n: nat): seq<bool> { RepliesOf(cfg, Prefix(events, n)) }

  /** What the sender waits for comes sooner or later, again and again, whatever comes in between. */
  ghost predicate Responsive(cfg: Config, events: nat -> Event) { forall n :: ComesAfter(cfg, events, n) }

  ghost predicate ComesAfter(cfg: Config, events: nat -> Event, n: nat)
    { exists k: nat :: k >= n && ComesAt(cfg, events, k) }

  predicate ComesAt(cfg: Config, events: nat -> Event, k: nat) { Awaited(FieldsAt(cfg, events, k), events(k)) }

  predicate RefusesAtMost(replies: seq<bool>, refusals: nat) { |replies| <= Accepted(replies) + refusals }

  // How many attempts there can be at most
  function AttemptsLeft(replies: seq<bool>, job: Job, refusals: nat): int { refusals + job.Count() - |replies| }

  lemma AttemptsBound(s: Session, job: Job, refusals: nat)
    requires Allowed(s, job) && RefusesAtMost(Counted(s), refusals)
    ensures AttemptsLeft(Counted(s), job, refusals) >= 0
  {
    if s.InBlock? || s.Finished? {
      PlausibleBound(s.replies, job.Count());
    }
  }

  // The run at n, with what it stands for
  ghost predicate SoundAt(cfg: Config, job: Job, events: nat -> Event, n: nat, s: Session) {
    var (c, wire) := RunOf(cfg, Prefix(events, n));
    Sound(c, wire, RepliesAt(cfg, events, n), s, job)
  }

  lemma SoundNext(cfg: Config, job: Job, events: nat -> Event, n: nat, s: Session)
    requires Configured(cfg, job) && SoundAt(cfg, job, events, n, s)
    ensures var c := FieldsAt(cfg, events, n);
            && SoundAt(cfg, job, events, n + 1, After(c, s, job, events(n)))
            && FieldsAt(cfg, events, n + 1) == Stepped(c, cfg, events(n)).0
            && RepliesAt(cfg, events, n + 1) == RepliesAt(cfg, events, n) + Counts(c, events(n))
  {
    var p := Prefix(events, n + 1);
    assert p[..n] == Prefix(events, n);
    var (c, wire) := RunOf(cfg, Prefix(events, n));
    SoundStep(c, wire, RepliesAt(cfg, events, n), s, job, cfg, events(n));
  }

  // From event n on, the next awaited one being at k
  lemma {:induction false} DoneFrom(cfg: Config, job: Job, events: nat -> Event, refusals: nat, n: nat, s: Session,
                                    k: nat) returns (m: nat)
    requires Configured(cfg, job) && Responsive(cfg, events) && n <= k && ComesAt(cfg, events, k)
    requires forall i :: RefusesAtMost(RepliesAt(cfg, events, i), refusals)
    requires SoundAt(cfg, job, events, n, s)
    ensures FieldsAt(cfg, events, m).phase == Done
    decreases AttemptsLeft(Counted(s), job, refusals), Stage(s), BytesLeft(s, job), Steps(FieldsAt(cfg, events, n)),
              FieldsAt(cfg, events, n).gapCountdown, k - n
  {
    var c, e := FieldsAt(cfg, events, n), events(n);
    var t := After(c, s, job, e);
    AttemptsBound(s, job, refusals);
    SoundNext(cfg, job, events, n, s);
    if c.phase == Done {
      m := n;
    } else if Awaited(c, e) {
      assert ComesAfter(cfg, events, n + 1);
      var j :| j >= n + 1 && ComesAt(cfg, events, j);
      Progress(c, s, job, cfg, e);
      m := DoneFrom(cfg, job, events, refusals, n + 1, t, j);
    } else {
      StrayHarmless(c, s, job, cfg, e);
      m := DoneFrom(cfg, job, events, refusals, n + 1, t, k);
    }
  }

  /** Every run in which what is waited for always comes in the end, and at most so many blocks are refused, gets to
      Done: stray bytes, idle cycles and calls at the wrong time do not matter. */
  lemma DoneReached(cfg: Config, job: Job, events: nat -> Event, refusals: nat)
    requires Configured(cfg, job) && Responsive(cfg, events)
    requires forall i :: RefusesAtMost(RepliesAt(cfg, events, i), refusals)
    ensures exists m :: FieldsAt(cfg, events, m).phase == Done
  {
    assert Prefix(events, 0) == [];
    assert ComesAfter(cfg, events, 0);
    var k :| k >= 0 && ComesAt(cfg, events, k);
    var m := DoneFrom(cfg, job, events, refusals, 0, Waiting, k);
  }

  // ---- There are such runs

  // What a peer does that answers at once and accepts everything
  function Answer(c: Fields): (e: Event)
    ensures Awaited(c, e) && e != Reply(BLOCK_NACK)
  {
    match c.phase
    case Idle => StartCall
    case WaitLoadStart => AllowCall
    case WaitChunkAck => Reply(ACK)
    case WaitChecksumAck => Reply(ACK)
    case WaitBlockReply => Reply(BLOCK_ACK)
    case _ => Cycle
  }

  function AnsweredRun(cfg: Config, n: nat): (events: seq<Event>)
    ensures |events| == n
  {
    if n == 0 then [] else
      var before := AnsweredRun(cfg, n - 1);
      before + [Answer(RunOf(cfg, before).0)]
  }

  function AnswerAt(cfg: Config, n: nat): Event { Answer(RunOf(cfg, AnsweredRun(cfg, n)).0) }
  function AnsweredEvents(cfg: Config): nat -> Event { (n: nat) => AnswerAt(cfg, n) }

  lemma {:induction false} AnsweredAt(cfg: Config, n: nat, i: nat)
    requires i < n
    ensures AnsweredRun(cfg, n)[i] == AnswerAt(cfg, i)
  {
    if i < n - 1 {
      AnsweredAt(cfg, n - 1, i);
    }
  }

  lemma AnsweredPrefix(cfg: Config, n: nat)
    ensures Prefix(AnsweredEvents(cfg), n) == AnsweredRun(cfg, n)
  {
    var p, run := Prefix(AnsweredEvents(cfg), n), AnsweredRun(cfg, n);
    forall i | 0 <= i < n
      ensures p[i] == run[i]
    {
      AnsweredAt(cfg, n, i);
    }
  }

  lemma {:induction false} NoneRefused(cfg: Config, n: nat)
    ensures RefusesAtMost(RepliesOf(cfg, AnsweredRun(cfg, n)), 0)
  {
    if n > 0 {
      NoneRefused(cfg, n - 1);
      var before, events := AnsweredRun(cfg, n - 1), AnsweredRun(cfg, n);
      assert events[..|events| - 1] == before;
      AcceptedNext(RepliesOf(cfg, before), Counts(RunOf(cfg, before).0, events[n - 1]));
    }
  }

  lemma AcceptedNext(replies: seq<bool>, counts: seq<bool>)
    requires RefusesAtMost(replies, 0) && (counts == [] || counts == [true])
    ensures RefusesAtMost(replies + counts, 0)
  {
    if counts == [] {
      assert replies + counts == replies;
    } else {
      assert (replies + counts)[..|replies|] == replies;
    }
  }

  /** A peer that answers at once and accepts everything makes such a run, so with it the payload arrives. */
  lemma AnswersDeliver(cfg: Config, job: Job)
    requires Configured(cfg, job)
    ensures exists n: nat :: var (c, wire) := RunOf(cfg, AnsweredRun(cfg, n));
              c.phase == Done && |wire| >= 20
                && Receive(|job.payload|, wire[20..], RepliesOf(cfg, AnsweredRun(cfg, n))) == (job.payload, [])
  {
    var events := AnsweredEvents(cfg);
    forall n: nat
      ensures ComesAfter(cfg, events, n) && RefusesAtMost(RepliesAt(cfg, events, n), 0)
    {
      AnsweredPrefix(cfg, n);
      NoneRefused(cfg, n);
      assert ComesAt(cfg, events, n);
    }
    DoneReached(cfg, job, events, 0);
    var m: nat :| FieldsAt(cfg, events, m).phase == Done;
    AnsweredPrefix(cfg, m);
    DoneDelivers(cfg, job, AnsweredRun(cfg, m));
  }
}
