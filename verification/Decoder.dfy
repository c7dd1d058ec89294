// The incremental decoder of the byte stream between hives: a call byte, seven bytes
// of body size, the body, in whatever pieces the network delivers them.
module Decoder {
  type byte = x: int | 0 <= x < 256

  const STATE_WAITING_MESSAGE: int := -1
  const BUFFER_SIZE: int := 4096

  datatype Message = Message(call: byte, body: seq<byte>)

  // What the context's fields stand for.
  datatype View = Waiting | Sizing(call: byte, got: seq<byte>) | Filling(call: byte, length: nat, got: seq<byte>) | Closed

  // Whether the connection stays open after the last of these messages.
  type Handler = seq<Message> -> bool

  datatype Stream = Stream(view: View, delivered: seq<Message>)

  function LittleEndian(b: seq<byte>): nat
  {
    if b == [] then 0 else b[0] + 256 * LittleEndian(b[1..])
  }

  function Bytes(n: nat, k: nat): (r: seq<byte>)
    ensures |r| == k
  {
    if k == 0 then [] else [n % 256] + Bytes(n / 256, k - 1)
  }

  function Encode(m: Message): seq<byte> { [m.call] + Bytes(|m.body|, 7) + m.body }

  function SevenBytes(b0: int, b1: int, b2: int, b3: int, b4: int, b5: int, b6: int): int
  {
    b0 + 0x100 * b1 + 0x1_0000 * b2 + 0x100_0000 * b3 + 0x1_0000_0000 * b4 + 0x100_0000_0000 * b5 + 0x1_0000_0000_0000 * b6
  }

  // On the wire: the call, the length of the body in seven bytes, lowest first, the body.
  lemma Wire(m: Message, k: nat)
    requires |m.body| < 0x100_0000_0000_0000
    ensures var e := Encode(m);
            |e| == 8 + |m.body| && e[0] == m.call && (k < |m.body| ==> e[8 + k] == m.body[k]) &&
            |m.body| == SevenBytes(e[1], e[2], e[3], e[4], e[5], e[6], e[7])
  {
    assert Power256(7) == 0x100_0000_0000_0000;
    var size := Bytes(|m.body|, 7);
    BytesBack(|m.body|, 7);
    Unrolled(size);
    assert Encode(m) == [m.call] + size + m.body;
  }

  lemma Unrolled(b: seq<byte>)
    requires |b| == 7
    ensures LittleEndian(b) == SevenBytes(b[0], b[1], b[2], b[3], b[4], b[5], b[6])
  {
    Unroll(b, 4);
    Unroll(b, 3);
    Unroll(b, 2);
    Unroll(b, 1);
    Unroll(b, 0);
    Unroll(b, 5);
    Unroll(b, 6);
    assert b[0..] == b;
  }

  lemma Unroll(b: seq<byte>, k: nat)
    requires k < |b|
    ensures LittleEndian(b[k..]) == b[k] + 256 * LittleEndian(b[k + 1..])
  {
    assert b[k..][1..] == b[k + 1..];
  }

  function EncodeAll(ms: seq<Message>): seq<byte>
  {
    if ms == [] then [] else EncodeAll(ms[..|ms| - 1]) + Encode(ms[|ms| - 1])
  }

  // ---------------------------------------------------------------- byte by byte

  function Deliver(s: Stream, m: Message, handler: Handler): Stream
  {
    var all := s.delivered + [m];
    Stream(if handler(all) then Waiting else Closed, all)
  }

  // A message without a body is delivered only when the next byte is there.
  function Settled(s: Stream, handler: Handler): Stream
  {
    if s.view.Filling? && s.view.length == 0 then Deliver(s, Message(s.view.call, []), handler) else s
  }

  function Took(s: Stream, b: byte, handler: Handler): Stream
  {
    match s.view
    case Waiting => s.(view := Sizing(b, []))
    case Sizing(c, got) =>
      s.(view := if |got| + 1 >= 7 then Filling(c, LittleEndian(got + [b]), []) else Sizing(c, got + [b]))
    case Filling(c, n, got) =>
      if |got| + 1 >= n then Deliver(s, Message(c, got + [b]), handler) else s.(view := Filling(c, n, got + [b]))
    case Closed => s
  }

  function Feed(s: Stream, bytes: seq<byte>, handler: Handler): Stream
  {
    if bytes == [] then s
    else Took(Settled(Feed(s, bytes[..|bytes| - 1], handler), handler), bytes[|bytes| - 1], handler)
  }

  // Chunk invariance, for the byte by byte decoder.
  lemma {:induction false} FeedTwice(s: Stream, xs: seq<byte>, ys: seq<byte>, handler: Handler)
    ensures Feed(s, xs + ys, handler) == Feed(Feed(s, xs, handler), ys, handler)
    decreases |ys|
  {
    if ys == [] {
      assert xs + ys == xs;
    } else {
      var front, last, all := ys[..|ys| - 1], ys[|ys| - 1], xs + ys;
      FeedTwice(s, xs, front, handler);
      assert all[..|all| - 1] == xs + front && all[|all| - 1] == last;
    }
  }

  lemma FeedOne(s: Stream, b: byte, handler: Handler)
    ensures Feed(s, [b], handler) == Took(Settled(s, handler), b, handler)
  {
    assert [b][..0] == [];
  }

  // ---------------------------------------------------------------- many bytes at once

  lemma {:induction false} FeedSizes(s: Stream, bytes: seq<byte>, handler: Handler)
    requires s.view.Sizing? && |s.view.got| + |bytes| <= 7 && |s.view.got| < 7
    ensures Feed(s, bytes, handler) ==
      var got := s.view.got + bytes;
      s.(view := if |got| == 7 then Filling(s.view.call, LittleEndian(got), []) else Sizing(s.view.call, got))
    decreases |bytes|
  {
    if bytes == [] {
      assert s.view.got + [] == s.view.got;
    } else {
      var front, last := bytes[..|bytes| - 1], bytes[|bytes| - 1];
      FeedSizes(s, front, handler);
      assert s.view.got + bytes == (s.view.got + front) + [last];
    }
  }

  lemma {:induction false} FeedBody(s: Stream, bytes: seq<byte>, handler: Handler)
    requires s.view.Filling? && |s.view.got| < s.view.length && |s.view.got| + |bytes| <= s.view.length
    ensures Feed(s, bytes, handler) ==
      var got := s.view.got + bytes;
      if |got| == s.view.length then Deliver(s, Message(s.view.call, got), handler)
      else s.(view := Filling(s.view.call, s.view.length, got))
    decreases |bytes|
  {
    if bytes == [] {
      assert s.view.got + [] == s.view.got;
    } else {
      var front, last := bytes[..|bytes| - 1], bytes[|bytes| - 1];
      FeedBody(s, front, handler);
      assert s.view.got + bytes == (s.view.got + front) + [last];
    }
  }

  lemma {:induction false} FeedClosed(s: Stream, bytes: seq<byte>, handler: Handler)
    requires s.view.Closed?
    ensures Feed(s, bytes, handler) == s
    decreases |bytes|
  {
    if bytes != [] { FeedClosed(s, bytes[..|bytes| - 1], handler); }
  }

  // ---------------------------------------------------------------- round trip

  lemma {:induction false} BytesBack(n: nat, k: nat)
    requires n < Power256(k)
    ensures LittleEndian(Bytes(n, k)) == n
  {
    if k > 0 {
      BytesBack(n / 256, k - 1);
      assert Bytes(n, k)[1..] == Bytes(n / 256, k - 1);
    }
  }

  function Power256(k: nat): nat { if k == 0 then 1 else 256 * Power256(k - 1) }

  ghost predicate Encodable(m: Message) { |m.body| < Power256(7) }

  lemma EncodeOne(s: Stream, m: Message, handler: Handler)
    requires s.view.Waiting? && Encodable(m)
    ensures Feed(s, Encode(m), handler) ==
      if m.body == [] then s.(view := Filling(m.call, 0, [])) else Deliver(s, m, handler)
  {
    var size := Bytes(|m.body|, 7);
    var s1 := s.(view := Sizing(m.call, []));
    var s2 := s.(view := Filling(m.call, |m.body|, []));
    FeedTwice(s, [m.call], size, handler);
    FeedOne(s, m.call, handler);
    FeedSizes(s1, size, handler);
    assert [] + size == size;
    BytesBack(|m.body|, 7);
    FeedTwice(s, [m.call] + size, m.body, handler);
    if m.body != [] {
      FeedBody(s2, m.body, handler);
      assert [] + m.body == m.body;
    }
  }

  // An empty message in front of another is delivered with that one's first byte.
  lemma EncodeAfter(s: Stream, m: Message, handler: Handler)
    requires (s.view.Waiting? || (s.view.Filling? && s.view.length == 0 && Settled(s, handler).view.Waiting?)) && Encodable(m)
    ensures Feed(s, Encode(m), handler) == Feed(Settled(s, handler), Encode(m), handler)
  {
    var rest := Encode(m)[1..];
    assert Encode(m) == [m.call] + rest;
    FeedTwice(s, [m.call], rest, handler);
    FeedTwice(Settled(s, handler), [m.call], rest, handler);
    FeedOne(s, m.call, handler);
    FeedOne(Settled(s, handler), m.call, handler);
  }

  ghost predicate Open(handler: Handler, ms: seq<Message>)
  {
    forall n :: 0 < n <= |ms| ==> handler(ms[..n])
  }

  // Every message delivered, but a last one with an empty body, which waits.
  function Decoded(ms: seq<Message>): Stream
  {
    if ms == [] || ms[|ms| - 1].body != [] then Stream(Waiting, ms)
    else Stream(Filling(ms[|ms| - 1].call, 0, []), ms[..|ms| - 1])
  }

  lemma DecodedSettles(ms: seq<Message>, handler: Handler)
    requires Open(handler, ms)
    ensures Settled(Decoded(ms), handler) == Stream(Waiting, ms)
  {
    if ms != [] {
      assert ms[..|ms| - 1] + [ms[|ms| - 1]] == ms;
      assert ms[..|ms|] == ms;
    }
  }

  lemma OneMoreDecoded(ms: seq<Message>, m: Message, handler: Handler)
    requires handler(ms + [m]) && Encodable(m)
    ensures Feed(Stream(Waiting, ms), Encode(m), handler) == Decoded(ms + [m])
  {
    EncodeOne(Stream(Waiting, ms), m, handler);
    assert (ms + [m])[..|ms|] == ms;
  }

  // Encode, then decode, any messages.
  lemma {:induction false} RoundTrip(ms: seq<Message>, handler: Handler)
    requires Open(handler, ms) && forall i :: 0 <= i < |ms| ==> Encodable(ms[i])
    ensures Feed(Stream(Waiting, []), EncodeAll(ms), handler) == Decoded(ms)
    decreases |ms|
  {
    if ms != [] {
      var front, m := ms[..|ms| - 1], ms[|ms| - 1];
      forall n | 0 < n <= |front| ensures handler(front[..n]) { assert front[..n] == ms[..n]; }
      assert front + [m] == ms && ms[..|ms|] == ms;
      RoundTrip(front, handler);
      DecodedSettles(front, handler);
      FeedTwice(Stream(Waiting, []), EncodeAll(front), Encode(m), handler);
      EncodeAfter(Decoded(front), m, handler);
      OneMoreDecoded(front, m, handler);
    }
  }

  // So the round trip is complete exactly when the last message has a body.
  lemma RoundTripExact(ms: seq<Message>, handler: Handler)
    requires Open(handler, ms) && forall i :: 0 <= i < |ms| ==> Encodable(ms[i])
    ensures Feed(Stream(Waiting, []), EncodeAll(ms), handler).delivered == ms <==> ms == [] || ms[|ms| - 1].body != []
  {
    RoundTrip(ms, handler);
  }

  // ---------------------------------------------------------------- the loop over a chunk

  // No message announced on the way is longer than the buffer.
  ghost predicate FitsBuffer(s: Stream, bytes: seq<byte>, handler: Handler)
  {
    forall n :: 0 <= n <= |bytes| ==> ViewFits(Feed(s, bytes[..n], handler).view)
  }

  ghost predicate ViewFits(v: View) { v.Filling? ==> v.length <= BUFFER_SIZE }

  // The connection stays open through these bytes, and no message on the way is longer
  // than the buffer.
  ghost predicate FlowsThrough(s: Stream, bytes: seq<byte>, handler: Handler)
  {
    forall n :: 0 <= n <= |bytes| ==> Steady(Feed(s, bytes[..n], handler).view)
  }

  ghost predicate Steady(v: View) { ViewFits(v) && !v.Closed? }

  lemma FlowsTwice(s: Stream, xs: seq<byte>, ys: seq<byte>, handler: Handler)
    requires FlowsThrough(s, xs, handler) && FlowsThrough(Feed(s, xs, handler), ys, handler)
    ensures FlowsThrough(s, xs + ys, handler)
  {
    forall n | 0 <= n <= |xs + ys| ensures Steady(Feed(s, (xs + ys)[..n], handler).view) {
      if n <= |xs| {
        assert (xs + ys)[..n] == xs[..n];
      } else {
        assert (xs + ys)[..n] == xs + ys[..n - |xs|];
        FeedTwice(s, xs, ys[..n - |xs|], handler);
      }
    }
  }

  // A part of what flows through does so too, from where the part in front leads.
  lemma PartFlows(s: Stream, xs: seq<byte>, ys: seq<byte>, zs: seq<byte>, handler: Handler)
    requires FlowsThrough(s, xs + ys + zs, handler)
    ensures FlowsThrough(Feed(s, xs, handler), ys, handler)
  {
    forall n | 0 <= n <= |ys| ensures Steady(Feed(Feed(s, xs, handler), ys[..n], handler).view) {
      FeedTwice(s, xs, ys[..n], handler);
      assert (xs + ys + zs)[..|xs| + n] == xs + ys[..n];
    }
  }

  // A message that fits: its call, its size, its body.
  ghost predicate Fits(m: Message) { |m.body| <= BUFFER_SIZE }

  lemma SizeFlows(s: Stream, call: byte, length: nat, handler: Handler)
    requires s.view == Sizing(call, []) && length <= BUFFER_SIZE
    ensures FlowsThrough(s, Bytes(length, 7), handler)
    ensures Feed(s, Bytes(length, 7), handler) == s.(view := Filling(call, length, []))
  {
    var size := Bytes(length, 7);
    BytesBack(length, 7);
    forall n | 0 <= n <= |size| ensures Steady(Feed(s, size[..n], handler).view) {
      FeedSizes(s, size[..n], handler);
      assert [] + size[..n] == size[..n];
      assert n == 7 ==> size[..n] == size;
    }
    FeedSizes(s, size, handler);
    assert [] + size == size;
  }

  lemma BodyFlows(s: Stream, m: Message, handler: Handler)
    requires s.view == Filling(m.call, |m.body|, []) && Fits(m) && handler(s.delivered + [m])
    ensures FlowsThrough(s, m.body, handler)
  {
    forall n | 0 <= n <= |m.body| ensures Steady(Feed(s, m.body[..n], handler).view) {
      if n > 0 {
        FeedBody(s, m.body[..n], handler);
        assert [] + m.body[..n] == m.body[..n];
        assert n == |m.body| ==> m.body[..n] == m.body;
      }
    }
  }

  lemma MessageFlows(s: Stream, m: Message, handler: Handler)
    requires s.view.Waiting? && Fits(m) && handler(s.delivered + [m])
    ensures FlowsThrough(s, Encode(m), handler)
  {
    var s1, size := s.(view := Sizing(m.call, [])), Bytes(|m.body|, 7);
    FeedOne(s, m.call, handler);
    assert [m.call][..0] == [] && [m.call][..1] == [m.call];
    assert FlowsThrough(s, [m.call], handler);
    SizeFlows(s1, m.call, |m.body|, handler);
    FlowsTwice(s, [m.call], size, handler);
    FeedTwice(s, [m.call], size, handler);
    BodyFlows(Feed(s1, size, handler), m, handler);
    FlowsTwice(s, [m.call] + size, m.body, handler);
  }

  // An empty message in front does no harm.
  lemma SettledFlows(s: Stream, bytes: seq<byte>, handler: Handler)
    requires Steady(s.view) && FlowsThrough(Settled(s, handler), bytes, handler)
    ensures FlowsThrough(s, bytes, handler)
  {
    forall n | 0 <= n <= |bytes| ensures Steady(Feed(s, bytes[..n], handler).view) {
      if n > 0 {
        FeedSettled(s, bytes[..n], handler);
        assert Steady(Feed(Settled(s, handler), bytes[..n], handler).view);
      }
    }
  }

  lemma {:induction false} AllFlow(ms: seq<Message>, handler: Handler)
    requires Open(handler, ms) && forall i :: 0 <= i < |ms| ==> Fits(ms[i])
    ensures FlowsThrough(Stream(Waiting, []), EncodeAll(ms), handler)
    decreases |ms|
  {
    if ms != [] {
      var front, m := ms[..|ms| - 1], ms[|ms| - 1];
      forall n | 0 < n <= |front| ensures handler(front[..n]) { assert front[..n] == ms[..n]; }
      assert front + [m] == ms && ms[..|ms|] == ms;
      AllFlow(front, handler);
      AllEncodable(front);
      RoundTrip(front, handler);
      DecodedSettles(front, handler);
      MessageFlows(Stream(Waiting, front), m, handler);
      SettledFlows(Decoded(front), Encode(m), handler);
      FlowsTwice(Stream(Waiting, []), EncodeAll(front), Encode(m), handler);
    }
  }

  lemma AllEncodable(ms: seq<Message>)
    requires forall i :: 0 <= i < |ms| ==> Fits(ms[i])
    ensures forall i :: 0 <= i < |ms| ==> Encodable(ms[i])
  {
    assert Power256(7) > BUFFER_SIZE;
  }

  // Encoded messages that fit keep every chunk of theirs inside the buffer.
  lemma EncodedFits(ms: seq<Message>, handler: Handler)
    requires Open(handler, ms) && forall i :: 0 <= i < |ms| ==> Fits(ms[i])
    ensures FitsBuffer(Stream(Waiting, []), EncodeAll(ms), handler)
  {
    AllFlow(ms, handler);
    var s, bytes := Stream(Waiting, []), EncodeAll(ms);
    forall n | 0 <= n <= |bytes| ensures ViewFits(Feed(s, bytes[..n], handler).view) {
      assert Steady(Feed(s, bytes[..n], handler).view);
    }
  }

  // ---------------------------------------------------------------- many chunks

  function Joined(chunks: seq<seq<byte>>): seq<byte>
  {
    if chunks == [] then [] else Joined(chunks[..|chunks| - 1]) + chunks[|chunks| - 1]
  }

  lemma {:induction false} JoinedPart(chunks: seq<seq<byte>>, i: nat) returns (rest: seq<byte>)
    requires i < |chunks|
    ensures Joined(chunks) == Joined(chunks[..i]) + chunks[i] + rest
    decreases |chunks|
  {
    var front := chunks[..|chunks| - 1];
    if i == |chunks| - 1 {
      rest := [];
    } else {
      assert front[..i] == chunks[..i];
      var r := JoinedPart(front, i);
      rest := r + chunks[|chunks| - 1];
    }
  }

  // The next chunk of encoded messages can be received, whatever the chunks are.
  lemma NextChunk(ms: seq<Message>, chunks: seq<seq<byte>>, i: nat, handler: Handler)
    requires Open(handler, ms) && forall i :: 0 <= i < |ms| ==> Fits(ms[i])
    requires Joined(chunks) == EncodeAll(ms) && i < |chunks|
    ensures var s := Feed(Stream(Waiting, []), Joined(chunks[..i]), handler);
            FitsBuffer(s, chunks[i], handler) && !s.view.Closed? &&
            Feed(s, chunks[i], handler) == Feed(Stream(Waiting, []), Joined(chunks[..i + 1]), handler)
  {
    AllFlow(ms, handler);
    var s0, front := Stream(Waiting, []), Joined(chunks[..i]);
    var rest := JoinedPart(chunks, i);
    PartFlows(s0, front, chunks[i], rest, handler);
    var s := Feed(s0, front, handler);
    forall n | 0 <= n <= |chunks[i]| ensures ViewFits(Feed(s, chunks[i][..n], handler).view) {
      assert Steady(Feed(s, chunks[i][..n], handler).view);
    }
    assert Steady(Feed(s, chunks[i][..0], handler).view) && chunks[i][..0] == [];
    assert chunks[..i + 1][..i] == chunks[..i];
    FeedTwice(s0, front, chunks[i], handler);
  }

  method CopyInto(buffer: array<byte>, at: nat, bytes: seq<byte>)
    requires at + |bytes| <= buffer.Length
    modifies buffer
    ensures buffer[..at + |bytes|] == old(buffer[..at]) + bytes
  {
    ghost var before := buffer[..at];
    for i := 0 to |bytes|
      invariant buffer[..at] == before && buffer[at..at + i] == bytes[..i]
    {
      buffer[at + i] := bytes[i];
    }
    assert buffer[..at + |bytes|] == buffer[..at] + buffer[at..at + |bytes|];
  }

  class Connection {
    const handler: Handler
    const buffer: array<byte>
    var call: byte
    var length: int
    var currentLength: int
    var open: bool
    var delivered: seq<Message>

    constructor (handler: Handler)
      ensures Valid() && fresh(buffer) && Stands() == Stream(Waiting, []) && this.handler == handler && buffer.Length == 4096
    {
      this.handler := handler;
      buffer := new byte[BUFFER_SIZE];
      call, length, currentLength, open, delivered := 0, STATE_WAITING_MESSAGE, 0, true, [];
    }

    // STATE_WAITING_BODY_SIZE_k is -1 - k: k - 1 size bytes are in the buffer.
    ghost predicate Valid()
      reads this
    {
      buffer.Length == BUFFER_SIZE && -8 <= length <= BUFFER_SIZE &&
      (length >= 0 ==> 0 <= currentLength <= length && (currentLength < length || length == 0))
    }

    ghost function Stands(): Stream
      requires Valid()
      reads this, buffer
    {
      Stream(if !open then Closed
             else if length == STATE_WAITING_MESSAGE then Waiting
             else if length < 0 then Sizing(call, buffer[..-2 - length])
             else Filling(call, length, buffer[..currentLength]), delivered)
    }

    // One received chunk: the state and the messages are what the bytes, one by one, give.
    method Receive(chunk: seq<byte>)
      requires Valid() && open && FitsBuffer(Stands(), chunk, handler)
      modifies this, buffer
      ensures Valid() && Stands() == Feed(old(Stands()), chunk, handler)
    {
      var processed := 0;
      ghost var s0 := Stands();
      assert chunk[..0] == [];
      while processed < |chunk| && open
        invariant 0 <= processed <= |chunk| && Valid()
        invariant CaughtUp(Stands(), Feed(s0, chunk[..processed], handler), processed < |chunk|, handler)
        decreases |chunk| - processed, length == 0
      {
        ghost var start, before := processed, Stands();
        RestFits(s0, before, chunk, start, handler);
        if length == STATE_WAITING_MESSAGE {
          call := chunk[processed];
          processed := processed + 1;
          length := -2;
          FeedOne(before, chunk[start], handler);
          assert chunk[start..processed] == [chunk[start]];
          assert buffer[..0] == [];
        } else if length < 0 {
          processed := ReceiveSize(chunk, processed);
        } else {
          processed := ReceiveBody(chunk, processed);
        }
        if processed > start {
          Advance(s0, before, chunk, start, processed, handler);
        }
      }
      assert chunk[..|chunk|] == chunk;
      if !open && processed < |chunk| {
        Advance(s0, Stands(), chunk, processed, |chunk|, handler);
        FeedClosed(Stands(), chunk[processed..], handler);
      }
    }

    // All chunks of some encoded messages, wherever the network cuts them.
    method ReceiveAll(chunks: seq<seq<byte>>, ghost ms: seq<Message>)
      requires Valid() && Stands() == Stream(Waiting, []) && Joined(chunks) == EncodeAll(ms)
      requires Open(handler, ms) && forall i :: 0 <= i < |ms| ==> Fits(ms[i])
      modifies this, buffer
      ensures Valid() && Stands() == Decoded(ms)
    {
      for i := 0 to |chunks|
        invariant Valid() && Stands() == Feed(Stream(Waiting, []), Joined(chunks[..i]), handler)
      {
        NextChunk(ms, chunks, i, handler);
        Receive(chunks[i]);
      }
      assert chunks[..|chunks|] == chunks;
      AllEncodable(ms);
      RoundTrip(ms, handler);
    }

    // The size bytes that are there; the last ones come straight from the chunk.
    method ReceiveSize(chunk: seq<byte>, processed: nat) returns (next: nat)
      requires Valid() && open && length < STATE_WAITING_MESSAGE && processed < |chunk|
      requires forall n :: processed < n <= |chunk| ==> ViewFits(Feed(Stands(), chunk[processed..n], handler).view)
      modifies this, buffer
      ensures Valid() && processed < next <= |chunk| && Stands() == Feed(old(Stands()), chunk[processed..next], handler)
    {
      var readBytes := |chunk| - processed;
      var currentSize := -2 - length;
      var missing := 7 - currentSize;
      ghost var got := buffer[..currentSize];
      next := if readBytes >= missing then processed + missing else |chunk|;
      FeedSizes(Stands(), chunk[processed..next], handler);
      assert ViewFits(Feed(Stands(), chunk[processed..next], handler).view);
      if readBytes >= missing {
        var bytes := buffer[..currentSize] + chunk[processed..next];
        length, currentLength := LittleEndian(bytes), 0;
        assert buffer[..0] == [];
      } else {
        CopyInto(buffer, currentSize, chunk[processed..next]);
        length := -2 - (currentSize + readBytes);
      }
    }

    // The body bytes that are there. A body without bytes is complete at once.
    method ReceiveBody(chunk: seq<byte>, processed: nat) returns (next: nat)
      requires Valid() && open && length >= 0 && processed < |chunk|
      modifies this, buffer
      ensures Valid() && processed <= next <= |chunk| && (next == processed <==> old(length) == 0) && (next == processed ==> length != 0)
      ensures Stands() == if next == processed then Settled(old(Stands()), handler)
                          else Feed(old(Stands()), chunk[processed..next], handler)
    {
      var readBytes := |chunk| - processed;
      var missing := length - currentLength;
      next := if readBytes >= missing then processed + missing else |chunk|;
      var piece := chunk[processed..next];
      if length > 0 { FeedBody(Stands(), piece, handler); }
      CopyInto(buffer, currentLength, piece);
      if readBytes >= missing {
        currentLength := length;
        delivered := delivered + [Message(call, buffer[..length])];
        open := handler(delivered);
        length := STATE_WAITING_MESSAGE;
      } else {
        currentLength := currentLength + readBytes;
      }
    }
  }

  // The fields are where the bytes read so far lead, or an empty message further.
  ghost predicate CaughtUp(now: Stream, read: Stream, more: bool, handler: Handler)
  {
    now == read || (more && now == Settled(read, handler))
  }

  lemma FeedSettled(s: Stream, bytes: seq<byte>, handler: Handler)
    requires bytes != []
    ensures Feed(Settled(s, handler), bytes, handler) == Feed(s, bytes, handler)
  {
    assert bytes == bytes[..1] + bytes[1..];
    FeedTwice(s, bytes[..1], bytes[1..], handler);
    FeedTwice(Settled(s, handler), bytes[..1], bytes[1..], handler);
    FeedOne(s, bytes[0], handler);
    FeedOne(Settled(s, handler), bytes[0], handler);
    assert bytes[..1] == [bytes[0]];
  }

  lemma Advance(s0: Stream, now: Stream, chunk: seq<byte>, i: nat, j: nat, handler: Handler)
    requires i < j <= |chunk| && CaughtUp(now, Feed(s0, chunk[..i], handler), true, handler)
    ensures Feed(s0, chunk[..j], handler) == Feed(now, chunk[i..j], handler)
  {
    assert chunk[..j] == chunk[..i] + chunk[i..j];
    FeedTwice(s0, chunk[..i], chunk[i..j], handler);
    FeedSettled(Feed(s0, chunk[..i], handler), chunk[i..j], handler);
  }

  lemma RestFits(s0: Stream, now: Stream, chunk: seq<byte>, i: nat, handler: Handler)
    requires i < |chunk| && FitsBuffer(s0, chunk, handler) && CaughtUp(now, Feed(s0, chunk[..i], handler), true, handler)
    ensures forall n :: i < n <= |chunk| ==> ViewFits(Feed(now, chunk[i..n], handler).view)
  {
    forall n | i < n <= |chunk| ensures ViewFits(Feed(now, chunk[i..n], handler).view) {
      Advance(s0, now, chunk, i, n, handler);
    }
  }
}
