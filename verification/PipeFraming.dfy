/** The pipe's framing: UTF-16 messages end in a zero code unit, and the reader reassembles them
    however the bytes happen to be cut into reads. */
module PipeFraming {
  import opened Text

  type Byte = b: int | 0 <= b < 0x100
  type CodeUnit = u: int | 0 <= u < 0x10000

  /** A read that leaves more than this unterminated is thrown away as garbage. */
  const LIMIT := 4 * 1024 * 1024

  // ----- The sender -----

  function UnitBytes(u: CodeUnit): seq<Byte> {
    [u % 0x100, u / 0x100]
  }

  function Unit(lo: Byte, hi: Byte): CodeUnit {
    (lo as int) + 0x100 * (hi as int)
  }

  /** Encoding.Unicode.GetBytes */
  function Encode(message: seq<CodeUnit>): (r: seq<Byte>)
    ensures |r| == 2 * |message|
  {
    if message == [] then [] else UnitBytes(message[0]) + Encode(message[1..])
  }

  /** Encoding.Unicode.GetString, on an even number of bytes. */
  function Decode(bytes: seq<Byte>): (r: seq<CodeUnit>)
    ensures |r| == |bytes| / 2
  {
    if |bytes| < 2 then [] else [Unit(bytes[0], bytes[1])] + Decode(bytes[2..])
  }

  /** PipeClient.Send: the message and a terminating zero. */
  function Send(message: seq<CodeUnit>): seq<Byte> {
    Encode(message) + [0, 0]
  }

  function SendAll(messages: seq<seq<CodeUnit>>): seq<Byte> {
    if messages == [] then [] else Send(messages[0]) + SendAll(messages[1..])
  }

  // ----- The stream, cut at its terminators -----

  predicate IsTerminator(b: seq<Byte>, i: nat) {
    i + 1 < |b| && b[i] == 0 && b[i + 1] == 0
  }

  /** The first terminator at from, from + 2, ...; without one, an index where none can start. */
  function Terminator(b: seq<Byte>, from: nat): (r: nat)
    ensures r >= from && (r - from) % 2 == 0
    ensures r + 1 < |b| ==> IsTerminator(b, r)
    ensures forall i :: from <= i < r && (i - from) % 2 == 0 ==> !IsTerminator(b, i)
    decreases |b| - from
  {
    if from + 1 >= |b| || IsTerminator(b, from) then from else Terminator(b, from + 2)
  }

  /** No terminator so far. */
  predicate Plain(b: seq<Byte>) {
    Terminator(b, 0) + 1 >= |b|
  }

  /** The messages a stream holds, and the unterminated rest. Empty messages are dropped. */
  function Messages(b: seq<Byte>): (r: (seq<seq<CodeUnit>>, seq<Byte>))
    ensures |r.1| <= |b|
    decreases |b|
  {
    var t := Terminator(b, 0);
    if t + 1 >= |b| then ([], b)
    else
      var rest := Messages(b[t + 2..]);
      ((if t > 0 then [Decode(b[..t])] else []) + rest.0, rest.1)
  }

  lemma {:induction false} TerminatorAppend(b: seq<Byte>, more: seq<Byte>, from: nat)
    ensures Terminator(b, from) + 1 < |b| ==> Terminator(b + more, from) == Terminator(b, from)
    decreases |b| - from
  {
    if from + 1 < |b| && !IsTerminator(b, from) { TerminatorAppend(b, more, from + 2); }
  }

  /** Bytes without a terminator get their first one, if at all, where the added bytes begin. */
  lemma {:induction false} TerminatorLater(b: seq<Byte>, more: seq<Byte>, from: nat)
    requires Terminator(b, from) + 1 >= |b|
    ensures Terminator(b + more, from) + 1 >= |b|
    decreases |b| - from
  {
    if from + 1 < |b| { TerminatorLater(b, more, from + 2); }
  }

  /** Reading on from the unterminated rest gives what reading the whole stream gives. */
  lemma {:induction false} MessagesAppend(b: seq<Byte>, more: seq<Byte>)
    ensures Messages(b + more) == (Messages(b).0 + Messages(Messages(b).1 + more).0, Messages(Messages(b).1 + more).1)
    decreases |b|
  {
    hide Decode, IsTerminator, Terminator;
    var t := Terminator(b, 0);
    if t + 1 < |b| {
      MessagesAppendStep(b, more);
      MessagesAppend(b[t + 2..], more);
      var first := if t > 0 then [Decode(b[..t])] else [];
      var m, rest := Messages(b[t + 2..]).0, Messages(b[t + 2..]).1;
      hide Messages;
      MessagesStep(b);
      Reassociate(first, m, Messages(rest + more).0);
    } else {
      assert [] + Messages(b + more).0 == Messages(b + more).0;
    }
  }

  lemma MessagesStep(b: seq<Byte>)
    requires Terminator(b, 0) + 1 < |b|
    ensures var t := Terminator(b, 0);
            Messages(b) == ((if t > 0 then [Decode(b[..t])] else []) + Messages(b[t + 2..]).0, Messages(b[t + 2..]).1)
  {
  }

  lemma MessagesAppendStep(b: seq<Byte>, more: seq<Byte>)
    requires Terminator(b, 0) + 1 < |b|
    ensures var t := Terminator(b, 0);
            var tail := Messages(b[t + 2..] + more);
            Messages(b + more) == ((if t > 0 then [Decode(b[..t])] else []) + tail.0, tail.1)
  {
    hide Decode, IsTerminator;
    var t := Terminator(b, 0);
    TerminatorAppend(b, more, 0);
    assert (b + more)[..t] == b[..t] && (b + more)[t + 2..] == b[t + 2..] + more;
  }

  // ----- Round trip -----

  lemma {:induction false} DecodeEncode(message: seq<CodeUnit>)
    ensures Decode(Encode(message)) == message
  {
    if message != [] {
      var e := Encode(message);
      assert e[2..] == Encode(message[1..]);
      DecodeEncode(message[1..]);
      assert Unit(e[0], e[1]) == message[0];
      assert message == [message[0]] + message[1..];
    }
  }

  /** A message without a zero code unit ends at its own terminator. */
  lemma {:induction false} SendTerminates(message: seq<CodeUnit>, more: seq<Byte>)
    requires 0 !in message
    ensures Terminator(Send(message) + more, 0) == 2 * |message|
  {
    TerminatorShift(message, more, []);
    assert [] + Send(message) + more == Send(message) + more;
  }

  lemma {:induction false} TerminatorShift(message: seq<CodeUnit>, more: seq<Byte>, before: seq<Byte>)
    requires 0 !in message
    ensures Terminator(before + Send(message) + more, |before|) == |before| + 2 * |message|
    decreases |message|
  {
    var b := before + Send(message) + more;
    if message != [] {
      var u := message[0];
      assert Encode(message) == UnitBytes(u) + Encode(message[1..]);
      assert b == (before + UnitBytes(u)) + Send(message[1..]) + more;
      assert u in message && u != 0;
      assert b[|before|] == u % 0x100 && b[|before| + 1] == u / 0x100;
      assert !IsTerminator(b, |before|);
      TerminatorShift(message[1..], more, before + UnitBytes(u));
    } else {
      assert b[|before|] == 0 && b[|before| + 1] == 0;
    }
  }

  predicate Sendable(message: seq<CodeUnit>) {
    message != [] && 0 !in message
  }

  /** Everything sent is read back, in order, with nothing left over. */
  lemma {:induction false} SentIsRead(messages: seq<seq<CodeUnit>>)
    requires forall i :: 0 <= i < |messages| ==> Sendable(messages[i])
    ensures Messages(SendAll(messages)) == (messages, [])
  {
    if messages != [] {
      var m, rest := messages[0], SendAll(messages[1..]);
      var b := Send(m) + rest;
      SendTerminates(m, rest);
      assert b[..2 * |m|] == Encode(m) && b[2 * |m| + 2..] == rest;
      DecodeEncode(m);
      SentIsRead(messages[1..]);
      assert messages == [m] + messages[1..];
    }
  }

  // ----- The reader, one read at a time -----

  /** pending and the messages handed to the form. */
  datatype Reader = Reader(pending: seq<Byte>, delivered: seq<seq<CodeUnit>>)

  /** One read: deliver what is complete, keep the rest, drop it if it is hopeless. */
  function Read(r: Reader, chunk: seq<Byte>): Reader {
    var b := r.pending + chunk;
    var (messages, rest) := Messages(b);
    Reader(if rest == b && |b| > LIMIT then [] else rest, r.delivered + messages)
  }

  function ReadAll(r: Reader, chunks: seq<seq<Byte>>): Reader
    decreases |chunks|
  {
    if chunks == [] then r else ReadAll(Read(r, chunks[0]), chunks[1..])
  }

  function Joined(chunks: seq<seq<Byte>>): seq<Byte> {
    if chunks == [] then [] else chunks[0] + Joined(chunks[1..])
  }

  const IDLE := Reader([], [])

  /** No message in the stream is so long that a read could find more than LIMIT bytes of it. */
  predicate Fits(b: seq<Byte>)
    decreases |b|
  {
    var t := Terminator(b, 0);
    if t + 1 >= |b| then |b| <= LIMIT else t < LIMIT && Fits(b[t + 2..])
  }

  /** In a stream that fits, nothing read so far is hopeless, and the rest still fits. */
  lemma {:induction false} FitsAppend(b: seq<Byte>, more: seq<Byte>)
    requires Fits(b + more)
    ensures |Messages(b).1| <= LIMIT && Fits(Messages(b).1 + more)
    decreases |b|
  {
    var t := Terminator(b, 0);
    if t + 1 < |b| {
      TerminatorAppend(b, more, 0);
      assert (b + more)[t + 2..] == b[t + 2..] + more;
      FitsAppend(b[t + 2..], more);
    } else {
      TerminatorLater(b, more, 0);
    }
  }

  /** However the bytes are cut into reads, exactly the stream's messages are delivered. */
  lemma {:induction false} AnyChunking(r: Reader, chunks: seq<seq<Byte>>)
    requires Plain(r.pending) && Fits(r.pending + Joined(chunks))
    ensures var (messages, rest) := Messages(r.pending + Joined(chunks));
            ReadAll(r, chunks) == Reader(rest, r.delivered + messages)
    decreases |chunks|
  {
    if chunks == [] {
      assert r.pending + [] == r.pending && r.delivered + [] == r.delivered;
    } else {
      hide Messages, Fits, Terminator, Plain, Read;
      var b, more := r.pending + chunks[0], Joined(chunks[1..]);
      Reassociate(r.pending, chunks[0], more);
      FitsAppend(b, more);
      MessagesAppend(b, more);
      RestIsPlain(b);
      KeptRead(r, chunks[0]);
      AnyChunking(Read(r, chunks[0]), chunks[1..]);
      Reassociate(r.delivered, Messages(b).0, Messages(Messages(b).1 + more).0);
    }
  }

  lemma KeptRead(r: Reader, chunk: seq<Byte>)
    requires |Messages(r.pending + chunk).1| <= LIMIT
    ensures Read(r, chunk) == Reader(Messages(r.pending + chunk).1, r.delivered + Messages(r.pending + chunk).0)
  {
  }

  /** The unterminated rest holds no message. */
  lemma {:induction false} RestIsPlain(b: seq<Byte>)
    ensures Plain(Messages(b).1)
    decreases |b|
  {
    var t := Terminator(b, 0);
    if t + 1 < |b| { RestIsPlain(b[t + 2..]); }
  }

  /** Whatever messages are sent and however the pipe cuts them up, they arrive unchanged, in order,
      each once. */
  lemma Delivered(messages: seq<seq<CodeUnit>>, chunks: seq<seq<Byte>>)
    requires forall i :: 0 <= i < |messages| ==> Sendable(messages[i]) && 2 * |messages[i]| < LIMIT
    requires Joined(chunks) == SendAll(messages)
    ensures ReadAll(IDLE, chunks) == Reader([], messages)
  {
    SentIsRead(messages);
    SentFits(messages);
    assert [] + Joined(chunks) == Joined(chunks);
    AnyChunking(IDLE, chunks);
    assert [] + messages == messages;
  }

  lemma {:induction false} SentFits(messages: seq<seq<CodeUnit>>)
    requires forall i :: 0 <= i < |messages| ==> Sendable(messages[i]) && 2 * |messages[i]| < LIMIT
    ensures Fits(SendAll(messages))
  {
    if messages != [] {
      var m, rest := messages[0], SendAll(messages[1..]);
      SendTerminates(m, rest);
      assert (Send(m) + rest)[2 * |m| + 2..] == rest;
      SentFits(messages[1..]);
    }
  }

  // ----- The limit is exact -----

  /** The same stream, read one byte at a time. */
  function Bytewise(b: seq<Byte>): seq<seq<Byte>> {
    if b == [] then [] else [[b[0]]] + Bytewise(b[1..])
  }

  predicate Dropped(r: Reader, chunks: seq<seq<Byte>>)
    decreases |chunks|
  {
    chunks != [] &&
    var b := r.pending + chunks[0];
    ((Messages(b).1 == b && |b| > LIMIT) || Dropped(Read(r, chunks[0]), chunks[1..]))
  }

  /** A stream survives every way of cutting it up exactly when it fits: if it does not, reading
      it byte by byte drops data. */
  lemma ChunkingSafeIff(b: seq<Byte>)
    ensures Fits(b) <==> forall chunks :: Joined(chunks) == b ==> !Dropped(IDLE, chunks)
  {
    if Fits(b) {
      forall chunks | Joined(chunks) == b ensures !Dropped(IDLE, chunks) {
        assert [] + Joined(chunks) == b;
        NeverDropped(IDLE, chunks);
      }
    } else {
      JoinedBytewise(b);
      assert [] + b == b;
      BytewiseDrops([], b, []);
      assert IDLE == Reader([], []);
    }
  }

  lemma {:induction false} NeverDropped(r: Reader, chunks: seq<seq<Byte>>)
    requires Plain(r.pending) && Fits(r.pending + Joined(chunks))
    ensures !Dropped(r, chunks)
    decreases |chunks|
  {
    if chunks != [] {
      var b, more := r.pending + chunks[0], Joined(chunks[1..]);
      assert r.pending + Joined(chunks) == b + more;
      FitsAppend(b, more);
      RestIsPlain(b);
      NeverDropped(Read(r, chunks[0]), chunks[1..]);
    }
  }

  lemma {:induction false} JoinedBytewise(b: seq<Byte>)
    ensures Joined(Bytewise(b)) == b
  {
    if b != [] {
      JoinedBytewise(b[1..]);
      assert b == [b[0]] + b[1..];
    }
  }

  lemma {:induction false} BytewiseDrops(pending: seq<Byte>, b: seq<Byte>, delivered: seq<seq<CodeUnit>>)
    requires Plain(pending) && |pending| <= LIMIT && !Fits(pending + b)
    ensures Dropped(Reader(pending, delivered), Bytewise(b))
    decreases |b|
  {
    assert b == [] ==> pending + b == pending;
    if b != [] {
      var p := pending + [b[0]];
      var chunks := Bytewise(b);
      assert chunks[0] == [b[0]] && chunks[1..] == Bytewise(b[1..]);
      if !(Messages(p).1 == p && |p| > LIMIT) {
        BytewiseStep(pending, b);
        var next := Read(Reader(pending, delivered), [b[0]]);
        BytewiseDrops(next.pending, b[1..], next.delivered);
      }
    }
  }

  lemma BytewiseStep(pending: seq<Byte>, b: seq<Byte>)
    requires Plain(pending) && |pending| <= LIMIT && b != [] && !Fits(pending + b)
    ensures var rest := Messages(pending + [b[0]]).1;
            Plain(rest) && rest in {[], pending + [b[0]]} && !Fits(rest + b[1..])
  {
    hide Decode, IsTerminator;
    var p := pending + [b[0]];
    assert pending + b == p + b[1..];
    RestIsPlain(p);
    var t := Terminator(p, 0);
    if t + 1 < |p| {
      CompletedByOne(pending, b[0]);
      TerminatorAppend(p, b[1..], 0);
      assert (p + b[1..])[t + 2..] == [] + b[1..];
    }
  }

  /** One more byte can only complete the terminator at the very end. */
  lemma CompletedByOne(pending: seq<Byte>, x: Byte)
    requires Plain(pending) && !Plain(pending + [x])
    ensures Terminator(pending + [x], 0) == |pending| - 1
    ensures Messages(pending + [x]).1 == []
  {
    hide Decode, IsTerminator;
    var p := pending + [x];
    TerminatorLater(pending, [x], 0);
    assert p[Terminator(p, 0) + 2..] == [];
  }

  // ----- The read loop -----

  /** No message ends between start and i. */
  predicate NoneBefore(b: seq<Byte>, start: nat, i: nat)
    requires start <= |b|
  {
    start <= i && (i - start) % 2 == 0 && Terminator(b[start..], 0) == Terminator(b[start..], i - start)
  }

  lemma ScanStart(b: seq<Byte>, start: nat)
    requires start <= |b|
    ensures NoneBefore(b, start, start)
  {
  }

  lemma ScanOn(b: seq<Byte>, start: nat, i: nat)
    requires start <= |b| && NoneBefore(b, start, i) && i + 1 < |b| && !(b[i] == 0 && b[i + 1] == 0)
    ensures NoneBefore(b, start, i + 2)
  {
    assert !IsTerminator(b[start..], i - start);
  }

  lemma ScanHit(b: seq<Byte>, start: nat, i: nat)
    requires start <= |b| && NoneBefore(b, start, i) && i + 1 < |b| && b[i] == 0 && b[i + 1] == 0
    ensures var tail := Messages(b[i + 2..]);
            Messages(b[start..]) == ((if i > start then [Decode(b[start..i])] else []) + tail.0, tail.1)
  {
    hide Decode;
    var s := b[start..];
    assert IsTerminator(s, i - start);
    assert s[..i - start] == b[start..i] && s[i - start + 2..] == b[i + 2..];
  }

  lemma ScanEnd(b: seq<Byte>, start: nat, i: nat)
    requires start <= |b| && NoneBefore(b, start, i) && i + 1 >= |b|
    ensures Messages(b[start..]) == ([], b[start..])
  {
  }

  class PipeClient {
    var pending: seq<Byte>
    var delivered: seq<seq<CodeUnit>>

    function State(): Reader
      reads this
    {
      Reader(pending, delivered)
    }

    constructor ()
      ensures State() == IDLE
    {
      pending, delivered := [], [];
    }

    /** What the loop does with the bytes of one read. */
    method Receive(chunk: seq<Byte>)
      modifies this
      ensures State() == Read(old(State()), chunk)
    {
      hide Decode, Messages, NoneBefore;
      pending := pending + chunk;
      ghost var b, before := pending, delivered;
      assert b[0..] == b;
      var start, i := 0, 0;
      ScanStart(b, 0);
      while i + 1 < |pending|
        invariant pending == b && 0 <= start <= |b| && start <= i && NoneBefore(b, start, i)
        invariant before + Messages(b).0 == delivered + Messages(b[start..]).0
        invariant Messages(b).1 == Messages(b[start..]).1
        decreases |pending| - i
      {
        if pending[i] != 0 || pending[i + 1] != 0 {
          ScanOn(b, start, i);
          i := i + 2;
          continue;
        }
        ScanHit(b, start, i);
        if i > start {
          assert delivered + ([Decode(b[start..i])] + Messages(b[i + 2..]).0)
              == (delivered + [Decode(b[start..i])]) + Messages(b[i + 2..]).0;
          delivered := delivered + [Decode(pending[start..i])];
        }
        start := i + 2;
        i := i + 2;
        ScanStart(b, start);
      }
      ScanEnd(b, start, i);
      if start > 0 {
        pending := pending[start..];
      } else if |pending| > LIMIT {
        pending := [];
      }
    }

    method ReadLoop(chunks: seq<seq<Byte>>)
      modifies this
      ensures State() == ReadAll(old(State()), chunks)
    {
      for i := 0 to |chunks|
        invariant ReadAll(old(State()), chunks) == ReadAll(State(), chunks[i..])
      {
        assert chunks[i..][0] == chunks[i] && chunks[i..][1..] == chunks[i + 1..];
        Receive(chunks[i]);
      }
    }
  }
}
