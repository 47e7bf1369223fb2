// The loader's beacon frames, mixed into the byte stream of the board: the incremental filter and the batch
// decoder (fpga/scripts/run_fpga_benchmark_ddr3.py).

module Beacons {
  import opened Words
  import opened Sequences

  const SOF: U8 := 0xA5

  function Check(seqno: U8, kind: U8, arg: U8): U8 { XorByte(XorByte(XorByte(SOF, seqno), kind), arg) }

  /** The five bytes of a frame, of which the first is 0xA5, cancel each other. */
  lemma CheckCancels(seqno: U8, kind: U8, arg: U8)
    ensures XorByte(XorByte(XorByte(XorByte(0xA5, seqno), kind), arg), Check(seqno, kind, arg)) == 0
  {
    XorSelf(Check(seqno, kind, arg), 8);
  }

  /** What the stream is made of: beacon frames and other bytes. */
  datatype Token = Other(byte: U8) | Beacon(seqno: U8, kind: U8, arg: U8) {
    function Bytes(): (r: seq<U8>)
      ensures r != []
    {
      match this
      case Other(b) => [b]
      case Beacon(n, k, a) => [SOF, n, k, a, Check(n, k, a)]
    }
  }

  function Flatten(tokens: seq<Token>): seq<U8> {
    if tokens == [] then [] else tokens[0].Bytes() + Flatten(tokens[1..])
  }

  lemma Associates(x: seq<U8>, y: seq<U8>, z: seq<U8>)
    ensures (x + y) + z == x + (y + z)
  {
  }

  lemma {:induction false} FlattenAppend(a: seq<Token>, b: seq<Token>)
    ensures Flatten(a + b) == Flatten(a) + Flatten(b)
  {
    if a == [] {
      assert a + b == b;
    } else {
      FlattenAppend(a[1..], b);
      assert (a + b)[0] == a[0] && (a + b)[1..] == a[1..] + b;
      Associates(a[0].Bytes(), Flatten(a[1..]), Flatten(b));
    }
  }

  // ---- How the stream is cut up

  predicate GoodFrame(raw: seq<U8>) {
    |raw| >= 5 && raw[0] == SOF && raw[4] == Check(raw[1], raw[2], raw[3])
  }

  // the next token can be told
  predicate Decided(raw: seq<U8>) { raw != [] && (raw[0] != SOF || |raw| >= 5) }

  function First(raw: seq<U8>): (t: Token)
    requires Decided(raw)
    ensures |t.Bytes()| <= |raw| && t.Bytes() + raw[|t.Bytes()|..] == raw
  {
    if GoodFrame(raw) then Beacon(raw[1], raw[2], raw[3]) else Other(raw[0])
  }

  /** The tokens of a stream, and the bytes at its end that more bytes may still turn into a frame. */
  function Scan(raw: seq<U8>): (seq<Token>, seq<U8>) {
    if !Decided(raw) then ([], raw) else
      var t := First(raw);
      var (rest, tail) := Scan(raw[|t.Bytes()|..]);
      ([t] + rest, tail)
  }

  /** Nothing is lost or invented: the tokens and the tail are the stream, and the tail is empty or the beginning
      of a frame. */
  lemma {:induction false} ScanLossless(raw: seq<U8>)
    ensures Flatten(Scan(raw).0) + Scan(raw).1 == raw
    ensures |Scan(raw).1| < 5 && !Decided(Scan(raw).1)
  {
    if Decided(raw) {
      var t := First(raw);
      var rest := raw[|t.Bytes()|..];
      ScanLossless(rest);
      assert Scan(raw).0[1..] == Scan(rest).0;
      assert t.Bytes() + Flatten(Scan(rest).0) + Scan(rest).1 == t.Bytes() + rest;
    }
  }

  lemma FirstAppend(a: seq<U8>, b: seq<U8>)
    requires Decided(a)
    ensures var n := |First(a).Bytes()|; Decided(a + b) && First(a + b) == First(a) && (a + b)[n..] == a[n..] + b
  {
  }

  lemma Prepend(t: Token, x: seq<Token>, y: seq<Token>)
    ensures [t] + (x + y) == ([t] + x) + y
  {
  }

  /** More bytes never change what is decided. */
  lemma {:induction false} ScanAppend(a: seq<U8>, b: seq<U8>)
    ensures Scan(a + b) == (Scan(a).0 + Scan(Scan(a).1 + b).0, Scan(Scan(a).1 + b).1)
  {
    if Decided(a) {
      var t := First(a);
      var x := a[|t.Bytes()|..];
      FirstAppend(a, b);
      ScanAppend(x, b);
      Prepend(t, Scan(x).0, Scan(Scan(x).1 + b).0);
    } else {
      assert Scan(a) == ([], a);
      assert [] + Scan(a + b).0 == Scan(a + b).0;
    }
  }

  // ---- The check byte

  // one byte of the frame's content
  predicate OneChanged(a: seq<U8>, b: seq<U8>, k: nat) {
    |a| == |b| == 5 && 1 <= k < 5 && a[k] != b[k] && forall i :: 0 <= i < 5 && i != k ==> a[i] == b[i]
  }

  /** A frame with one wrong byte behind its first is never taken for a frame. */
  lemma OneByteError(frame: seq<U8>, got: seq<U8>, k: nat)
    requires GoodFrame(frame) && OneChanged(frame, got, k)
    ensures !GoodFrame(got)
  {
    var x := XorByte(SOF, frame[1]);
    var y := XorByte(x, frame[2]);
    if GoodFrame(got) {
      var u := XorByte(SOF, got[1]);
      var v := XorByte(u, got[2]);
      if k == 1 {
        XorByteInjective(y, v, frame[3]);
        XorByteInjective(x, u, frame[2]);
        XorByteInjective(frame[1], got[1], SOF);
      } else if k == 2 {
        XorByteInjective(y, v, frame[3]);
        XorByteInjective(frame[2], got[2], x);
      } else if k == 3 {
        XorByteInjective(frame[3], got[3], y);
      }
    }
  }

  // ---- The parts of a token list

  function Others(tokens: seq<Token>): seq<U8> {
    if tokens == [] then [] else
      var last := tokens[|tokens| - 1];
      Others(tokens[..|tokens| - 1]) + if last.Other? then [last.byte] else []
  }

  function Beacons(tokens: seq<Token>): (n: nat)
    ensures n <= |tokens|
  {
    if tokens == [] then 0 else
      Beacons(tokens[..|tokens| - 1]) + if tokens[|tokens| - 1].Beacon? then 1 else 0
  }

  lemma PartsNext(tokens: seq<Token>, t: Token)
    ensures Others(tokens + [t]) == Others(tokens) + (if t.Other? then [t.byte] else [])
    ensures Beacons(tokens + [t]) == Beacons(tokens) + if t.Beacon? then 1 else 0
    ensures Flatten(tokens + [t]) == Flatten(tokens) + t.Bytes()
  {
    assert (tokens + [t])[..|tokens|] == tokens;
    FlattenAppend(tokens, [t]);
    assert Flatten([t]) == t.Bytes() by {
      assert [t][1..] == [];
      assert t.Bytes() + [] == t.Bytes();
    }
  }

  lemma {:induction false} OthersAppend(a: seq<Token>, b: seq<Token>)
    ensures Others(a + b) == Others(a) + Others(b)
  {
    if b == [] {
      assert a + b == a;
    } else {
      var last := b[|b| - 1];
      assert (a + b)[..|a + b| - 1] == a + b[..|b| - 1];
      OthersAppend(a, b[..|b| - 1]);
    }
  }

  /** Every byte of a stream is passed through, part of a frame, or still undecided. */
  lemma LengthsAdd(raw: seq<U8>)
    ensures |raw| == |Others(Scan(raw).0)| + 5 * Beacons(Scan(raw).0) + |Scan(raw).1|
  {
    ScanLossless(raw);
    TokenLengths(Scan(raw).0);
  }

  lemma {:induction false} TokenLengths(tokens: seq<Token>)
    ensures |Flatten(tokens)| == |Others(tokens)| + 5 * Beacons(tokens)
  {
    if tokens != [] {
      var init, last := tokens[..|tokens| - 1], tokens[|tokens| - 1];
      assert tokens == init + [last];
      TokenLengths(init);
      PartsNext(init, last);
    }
  }

  // ---- Which token lists survive the wire

  /** No byte of its own can be taken for the start of a frame. */
  ghost predicate Clear(tokens: seq<Token>) {
    tokens != [] ==>
      Clear(tokens[1..]) && (tokens[0] == Other(SOF) ==> |Flatten(tokens)| >= 5 && !GoodFrame(Flatten(tokens)))
  }

  /** A token list is decoded to itself exactly if it is clear. */
  lemma {:induction false} ClearRoundTrip(tokens: seq<Token>)
    ensures Scan(Flatten(tokens)) == (tokens, []) <==> Clear(tokens)
  {
    if tokens != [] {
      var raw, t := Flatten(tokens), tokens[0];
      ClearRoundTrip(tokens[1..]);
      assert raw[|t.Bytes()|..] == Flatten(tokens[1..]);
      assert tokens == [t] + tokens[1..];
      if t != Other(SOF) {
        assert Decided(raw) && First(raw) == t;
      } else if Decided(raw) {
        assert First(raw) == t <==> !GoodFrame(raw);
        assert First(raw) != t ==> Scan(raw).0[0] != tokens[0];
      }
    }
  }

  /** So frames mixed with any bytes but 0xA5 come out as they went in: an acknowledgement byte inside a frame is
      never passed on, and one outside always is. */
  lemma {:induction false} InterleavedRoundTrip(tokens: seq<Token>)
    requires forall i :: 0 <= i < |tokens| ==> tokens[i] != Other(SOF)
    ensures Scan(Flatten(tokens)) == (tokens, [])
  {
    NoStraySof(tokens);
    ClearRoundTrip(tokens);
  }

  lemma {:induction false} NoStraySof(tokens: seq<Token>)
    requires forall i :: 0 <= i < |tokens| ==> tokens[i] != Other(SOF)
    ensures Clear(tokens)
  {
    if tokens != [] {
      NoStraySof(tokens[1..]);
    }
  }

  // ---- The incremental filter

  class LoaderBeaconStreamFilter {
    var pending: seq<U8>

    ghost predicate Valid()
      reads this
    {
      |pending| < 5 && (pending != [] ==> pending[0] == SOF)
    }

    constructor ()
      ensures Valid() && pending == []
    {
      pending := [];
    }

    /** Passes on the bytes outside frames of everything that is now decided. */
    method Feed(chunk: seq<U8>) returns (passthrough: seq<U8>)
      modifies this
      ensures var (tokens, tail) := Scan(old(pending) + chunk); passthrough == Others(tokens) && pending == tail
      ensures Valid()
    {
      ghost var all := pending + chunk;
      ghost var done: seq<Token> := [];
      pending := pending + chunk;
      passthrough := [];
      ScanLossless(all);
      assert done + Scan(all).0 == Scan(all).0;
      while pending != []
        invariant Scan(all) == (done + Scan(pending).0, Scan(pending).1) && passthrough == Others(done)
        decreases |pending|
      {
        if Decided(pending) {
          NextToken(all, done, pending);
          PartsNext(done, First(pending));
          done := done + [First(pending)];
        }
        if pending[0] != SOF {
          passthrough := passthrough + [pending[0]];
          pending := pending[1..];
          continue;
        }
        if |pending| < 5 {
          break;
        }
        if pending[4] == Check(pending[1], pending[2], pending[3]) {
          pending := pending[5..];
        } else {
          passthrough := passthrough + [pending[0]];
          pending := pending[1..];
        }
      }
      assert Scan(pending) == ([], pending);
      assert done + [] == done;
    }
  }

  lemma NextToken(all: seq<U8>, done: seq<Token>, rest: seq<U8>)
    requires Scan(all) == (done + Scan(rest).0, Scan(rest).1) && Decided(rest)
    ensures var t := First(rest); var next := rest[|t.Bytes()|..];
            Scan(all) == (done + [t] + Scan(next).0, Scan(next).1)
  {
    var t := First(rest);
    var more := Scan(rest[|t.Bytes()|..]).0;
    assert done + ([t] + more) == done + [t] + more;
  }

  /** However a stream is cut into chunks, a fresh filter passes on the same bytes and keeps the same tail as for
      the whole stream. */
  method FeedAll(chunks: seq<seq<U8>>) returns (filter: LoaderBeaconStreamFilter, passthrough: seq<U8>)
    ensures fresh(filter) && filter.Valid()
    ensures passthrough == Others(Scan(Concat(chunks)).0) && filter.pending == Scan(Concat(chunks)).1
  {
    filter := new LoaderBeaconStreamFilter();
    passthrough := [];
    var i := 0;
    ghost var tokens: seq<Token> := [];
    while i < |chunks|
      invariant 0 <= i <= |chunks| && fresh(filter) && filter.Valid()
      invariant Scan(Concat(chunks[..i])) == (tokens, filter.pending) && passthrough == Others(tokens)
    {
      ConcatNext(chunks, i);
      ScanAppend(Concat(chunks[..i]), chunks[i]);
      ghost var more := Scan(filter.pending + chunks[i]).0;
      OthersAppend(tokens, more);
      tokens := tokens + more;
      var out := filter.Feed(chunks[i]);
      passthrough := passthrough + out;
      i := i + 1;
    }
    assert chunks[..i] == chunks;
  }

  // ---- The batch decoder

  datatype Event = Event(offset: nat, seqno: U8, kind: U8, arg: U8)

  /** The frames among the tokens, with where they stand in the stream. */
  function Events(tokens: seq<Token>): seq<Event> {
    if tokens == [] then [] else
      var init, last := tokens[..|tokens| - 1], tokens[|tokens| - 1];
      Events(init) + if last.Beacon? then [Event(|Flatten(init)|, last.seqno, last.kind, last.arg)] else []
  }

  // A SOF that is passed on headed a frame with a wrong check byte.
  function BadFrames(tokens: seq<Token>): nat {
    if tokens == [] then 0 else
      BadFrames(tokens[..|tokens| - 1]) + if tokens[|tokens| - 1] == Other(SOF) then 1 else 0
  }

  lemma EventsNext(tokens: seq<Token>, t: Token)
    ensures Events(tokens + [t])
         == Events(tokens) + if t.Beacon? then [Event(|Flatten(tokens)|, t.seqno, t.kind, t.arg)] else []
    ensures BadFrames(tokens + [t]) == BadFrames(tokens) + if t == Other(SOF) then 1 else 0
  {
    assert (tokens + [t])[..|tokens|] == tokens;
  }

  // the bytes that stand behind each other in a stream
  predicate StandsAt(raw: seq<U8>, e: Event) {
    && e.offset + 5 <= |raw| && raw[e.offset] == 0xA5
    && raw[e.offset + 1] == e.seqno && raw[e.offset + 2] == e.kind && raw[e.offset + 3] == e.arg
    && raw[e.offset + 4] == Check(e.seqno, e.kind, e.arg)
  }

  lemma StandsBefore(a: seq<U8>, b: seq<U8>, e: Event)
    requires StandsAt(a, e)
    ensures StandsAt(a + b, e)
  {
    assert forall i :: 0 <= i < |a| ==> (a + b)[i] == a[i];
  }

  /** Every event gives the place of its frame in the stream. */
  lemma {:induction false} EventsStand(tokens: seq<Token>, k: nat)
    requires k < |Events(tokens)|
    ensures StandsAt(Flatten(tokens), Events(tokens)[k])
  {
    var init, last := tokens[..|tokens| - 1], tokens[|tokens| - 1];
    assert tokens == init + [last];
    PartsNext(init, last);
    if k < |Events(init)| {
      EventsStand(init, k);
      StandsBefore(Flatten(init), last.Bytes(), Events(init)[k]);
    } else {
      assert forall i :: 0 <= i < 5 ==> (Flatten(init) + last.Bytes())[|Flatten(init)| + i] == last.Bytes()[i];
    }
  }

  // The stream up to idx is made of the tokens in `done`, and what follows is scanned behind them.
  ghost predicate ScannedTo(raw: seq<U8>, done: seq<Token>, idx: nat) {
    idx <= |raw| && |Flatten(done)| == idx && Scan(raw) == (done + Scan(raw[idx..]).0, Scan(raw[idx..]).1)
  }

  lemma ScanStart(raw: seq<U8>)
    ensures ScannedTo(raw, [], 0)
  {
    assert raw[0..] == raw;
    assert [] + Scan(raw).0 == Scan(raw).0;
  }

  lemma ScanEnd(raw: seq<U8>, done: seq<Token>, idx: nat)
    requires ScannedTo(raw, done, idx) && (idx == |raw| || !DecidedAt(raw, idx))
    ensures Scan(raw).0 == done
  {
    assert Scan(raw[idx..]).0 == [];
    assert done + [] == done;
  }

  // the token at position idx of the stream, if it is decided
  predicate DecidedAt(raw: seq<U8>, idx: nat)
    requires idx < |raw|
  {
    raw[idx] != SOF || idx + 4 < |raw|
  }

  function TokenAt(raw: seq<U8>, idx: nat): Token
    requires idx < |raw| && DecidedAt(raw, idx)
  {
    if raw[idx] == SOF && raw[idx + 4] == Check(raw[idx + 1], raw[idx + 2], raw[idx + 3]) then
      Token.Beacon(raw[idx + 1], raw[idx + 2], raw[idx + 3])
    else Other(raw[idx])
  }

  lemma TokenStep(raw: seq<U8>, done: seq<Token>, idx: nat)
    requires idx < |raw| && DecidedAt(raw, idx) && ScannedTo(raw, done, idx)
    ensures var t := TokenAt(raw, idx); ScannedTo(raw, done + [t], idx + |t.Bytes()|)
  {
    TokenIs(raw, idx);
    NextToken(raw, done, raw[idx..]);
    PartsNext(done, TokenAt(raw, idx));
  }

  lemma TokenIs(raw: seq<U8>, idx: nat)
    requires idx < |raw| && DecidedAt(raw, idx)
    ensures var rest, t := raw[idx..], TokenAt(raw, idx);
            && Decided(rest) && First(rest) == t && idx + |t.Bytes()| <= |raw|
            && rest[|t.Bytes()|..] == raw[idx + |t.Bytes()|..]
  {
  }

  method DecodeLoaderBeaconFrames(raw: seq<U8>) returns (events: seq<Event>, passthrough: seq<U8>, badFrames: nat)
    ensures var tokens := Scan(raw).0;
            events == Events(tokens) && passthrough == Others(tokens) && badFrames == BadFrames(tokens)
  {
    events, passthrough, badFrames := [], [], 0;
    var idx := 0;
    ghost var done: seq<Token> := [];
    ScanStart(raw);
    while idx < |raw|
      invariant 0 <= idx <= |raw| && ScannedTo(raw, done, idx)
      invariant events == Events(done) && passthrough == Others(done) && badFrames == BadFrames(done)
    {
      ghost var next: nat := idx;
      if DecidedAt(raw, idx) {
        ghost var t := TokenAt(raw, idx);
        TokenStep(raw, done, idx);
        PartsNext(done, t);
        EventsNext(done, t);
        done, next := done + [t], idx + |t.Bytes()|;
      }
      if raw[idx] != SOF {
        passthrough := passthrough + [raw[idx]];
        idx := idx + 1;
        assert idx == next;
        continue;
      }
      if idx + 4 >= |raw| {
        break;
      }
      if raw[idx + 4] != Check(raw[idx + 1], raw[idx + 2], raw[idx + 3]) {
        badFrames := badFrames + 1;
        passthrough := passthrough + [raw[idx]];
        idx := idx + 1;
        assert idx == next;
        continue;
      }
      events := events + [Event(idx, raw[idx + 1], raw[idx + 2], raw[idx + 3])];
      idx := idx + 5;
      assert idx == next;
    }
    ScanEnd(raw, done, idx);
  }
}
