/** The relay stream from the rule process to the consumer: a length, metadata and a packet of 32 bytes for each
    message; or a packet alone. Sends and receives may be cut anywhere. Integers are little-endian. */
module RelayFraming {

  type byte = x: int | 0 <= x < 256

  const TWO_32 := 0x1_0000_0000
  type word = x: nat | x < TWO_32

  const TASK_MAGIC := 0x49513941
  const MAX_META := 65536
  const PACKET_SIZE: nat := 32

  datatype Packet = Packet(magic: nat, slotIndex: nat, width: nat, height: nat, channels: nat, dataType: nat,
                           timestamp: nat)
  {
    predicate Fits() {
      && magic < TWO_32 && slotIndex < TWO_32 && width < TWO_32 && height < TWO_32 && channels < TWO_32
      && dataType < TWO_32 && timestamp < TWO_32 * TWO_32
    }
  }

  /** What is sent, with metadata or in the old form without; and what the consumer makes of it. */
  datatype AnyMessage = WithMeta(meta: seq<byte>, packet: Packet) | Bare(packet: Packet)

  datatype Frame = Frame(meta: seq<byte>, packet: Packet)

  /** How the receive loop ends: the peer is gone, possibly inside a message; the loop spins on a word that it does not
      consume, until it is shut down; the wanted number of frames is reached; it is shut down; a frame cannot be mapped
      or released. */
  datatype End = Disconnected | Stuck | Enough | ShutDown | Failed

  function Word(x: word): (r: seq<byte>)
    ensures |r| == 4
  {
    [x % 256, x / 256 % 256, x / 65536 % 256, x / 16777216]
  }

  function WordAt(b: seq<byte>, i: nat): (x: nat)
    requires i + 4 <= |b|
    ensures x < TWO_32
  {
    b[i] as int + 256 * b[i + 1] as int + 65536 * b[i + 2] as int + 16777216 * b[i + 3] as int
  }

  lemma DigitsOfWord(x: nat)
    ensures x % 256 + 256 * (x / 256 % 256) + 65536 * (x / 65536 % 256) + 16777216 * (x / 16777216) == x
  {
    assert x / 65536 == x / 256 / 256 && x / 16777216 == x / 65536 / 256;
  }

  lemma WordRoundTrip(x: word, before: seq<byte>, after: seq<byte>)
    ensures WordAt(before + Word(x) + after, |before|) == x
  {
    var w := Word(x);
    var b := before + w + after;
    assert b[|before|] == w[0] && b[|before| + 1] == w[1] && b[|before| + 2] == w[2] && b[|before| + 3] == w[3];
    DigitsOfWord(x);
  }

  function WordsBytes(xs: seq<word>): (r: seq<byte>)
    ensures |r| == 4 * |xs|
  {
    if xs == [] then [] else Word(xs[0]) + WordsBytes(xs[1..])
  }

  lemma {:induction false} WordOfWords(xs: seq<word>, i: nat)
    requires i < |xs|
    ensures WordAt(WordsBytes(xs), 4 * i) == xs[i]
  {
    if i == 0 {
      FirstWord(xs[0], WordsBytes(xs[1..]));
    } else {
      WordOfWords(xs[1..], i - 1);
      assert WordsBytes(xs)[4 * i..4 * i + 4] == WordsBytes(xs[1..])[4 * i - 4..4 * i];
      SameWord(WordsBytes(xs), 4 * i, WordsBytes(xs[1..]), 4 * i - 4);
    }
  }

  lemma SameWord(b: seq<byte>, i: nat, c: seq<byte>, j: nat)
    requires i + 4 <= |b| && j + 4 <= |c| && b[i..i + 4] == c[j..j + 4]
    ensures WordAt(b, i) == WordAt(c, j)
  {
    var x, y := b[i..i + 4], c[j..j + 4];
    assert x[0] == b[i] && x[1] == b[i + 1] && x[2] == b[i + 2] && x[3] == b[i + 3];
    assert y[0] == c[j] && y[1] == c[j + 1] && y[2] == c[j + 2] && y[3] == c[j + 3];
  }

  lemma FirstWord(x: word, after: seq<byte>)
    ensures WordAt(Word(x) + after, 0) == x
  {
    assert Word(x) + after == [] + Word(x) + after;
    WordRoundTrip(x, [], after);
  }

  function PacketBytes(p: Packet): (r: seq<byte>)
    requires p.Fits()
    ensures |r| == PACKET_SIZE
  {
    WordsBytes([p.magic, p.slotIndex, p.width, p.height, p.channels, p.dataType,
                p.timestamp % TWO_32, p.timestamp / TWO_32])
  }

  function PacketOf(b: seq<byte>): (p: Packet)
    requires |b| == PACKET_SIZE
    ensures p.Fits()
  {
    Packet(WordAt(b, 0), WordAt(b, 4), WordAt(b, 8), WordAt(b, 12), WordAt(b, 16), WordAt(b, 20),
           WordAt(b, 24) + TWO_32 * WordAt(b, 28))
  }

  lemma PacketRoundTrip(p: Packet)
    requires p.Fits()
    ensures PacketOf(PacketBytes(p)) == p
  {
    var words: seq<word> := [p.magic, p.slotIndex, p.width, p.height, p.channels, p.dataType,
                             p.timestamp % TWO_32, p.timestamp / TWO_32];
    forall i | 0 <= i < 8 ensures WordAt(PacketBytes(p), 4 * i) == words[i] {
      WordOfWords(words, i);
    }
    assert WordAt(PacketBytes(p), 4 * 1) == words[1] && WordAt(PacketBytes(p), 4 * 2) == words[2];
    assert WordAt(PacketBytes(p), 4 * 3) == words[3] && WordAt(PacketBytes(p), 4 * 4) == words[4];
    assert WordAt(PacketBytes(p), 4 * 5) == words[5] && WordAt(PacketBytes(p), 4 * 6) == words[6];
    assert WordAt(PacketBytes(p), 4 * 7) == words[7] && WordAt(PacketBytes(p), 4 * 0) == words[0];
  }

  lemma LowByteFirst(x: word)
    ensures var w := Word(x);
            w[0] as int + 0x100 * w[1] as int + 0x1_0000 * w[2] as int + 0x100_0000 * w[3] as int == x
  {
    DigitsOfWord(x);
  }

  lemma {:induction false} WordsInOrder(xs: seq<word>, i: nat)
    requires i < |xs|
    ensures WordsBytes(xs)[4 * i..4 * i + 4] == Word(xs[i])
  {
    if i > 0 {
      WordsInOrder(xs[1..], i - 1);
      assert WordsBytes(xs)[4 * i..4 * i + 4] == WordsBytes(xs[1..])[4 * i - 4..4 * i];
    }
  }

  /** The layout on the wire: which bytes carry which field of a packet. */
  lemma PacketLayout(p: Packet)
    requires p.Fits()
    ensures var b := PacketBytes(p);
            && b[0..4] == Word(p.magic) && b[4..8] == Word(p.slotIndex) && b[8..12] == Word(p.width)
            && b[12..16] == Word(p.height) && b[16..20] == Word(p.channels) && b[20..24] == Word(p.dataType)
            && b[24..28] == Word(p.timestamp % TWO_32) && b[28..32] == Word(p.timestamp / TWO_32)
  {
    var words: seq<word> := [p.magic, p.slotIndex, p.width, p.height, p.channels, p.dataType,
                             p.timestamp % TWO_32, p.timestamp / TWO_32];
    WordsInOrder(words, 0);
    WordsInOrder(words, 1);
    WordsInOrder(words, 2);
    WordsInOrder(words, 3);
    WordsInOrder(words, 4);
    WordsInOrder(words, 5);
    WordsInOrder(words, 6);
    WordsInOrder(words, 7);
  }

  // What is sent

  predicate Sendable(m: AnyMessage) {
    m.packet.Fits() && m.packet.magic == TASK_MAGIC && (m.WithMeta? ==> |m.meta| < TWO_32)
  }

  type Message = m: AnyMessage | Sendable(m) witness Bare(Packet(TASK_MAGIC, 0, 0, 0, 0, 0, 0))

  function Encode(m: Message): (r: seq<byte>)
    ensures |r| >= PACKET_SIZE
  {
    match m
    case WithMeta(meta, packet) => Word(|meta|) + meta + PacketBytes(packet)
    case Bare(packet) => PacketBytes(packet)
  }

  /** The bytes of the messages from number `i` on. */
  function EncodeFrom(ms: seq<Message>, i: nat): seq<byte>
    decreases |ms| - i
  {
    if i >= |ms| then [] else Encode(ms[i]) + EncodeFrom(ms, i + 1)
  }

  function ExpectedFrame(m: Message): Frame { Frame(if m.WithMeta? then m.meta else [], m.packet) }

  /** The frames of the messages from number `i` up to `n`. */
  function ExpectedFrom(ms: seq<Message>, i: nat, n: nat): seq<Frame>
    requires i <= n <= |ms|
    decreases n - i
  {
    if i == n then [] else [ExpectedFrame(ms[i])] + ExpectedFrom(ms, i + 1, n)
  }

  // The receive loop as a function of the bytes that arrive

  datatype Result = Result(frames: seq<Frame>, end: End)

  function Prepended(frames: seq<Frame>, r: Result): Result { r.(frames := frames + r.frames) }

  /** The number of frames wanted; whether the shutdown flag is seen before round `i`; whether frame number `i` can be
      mapped, and released. */
  datatype Course = Course(limit: int, shutdown: nat -> bool, mapped: nat -> bool, released: nat -> bool)

  /** The decoder goes on from a word that is the magic number or a sensible length. */
  predicate Accepted(peek: nat) { peek == TASK_MAGIC || 0 < peek < MAX_META }

  /** The bytes before the packet, for the word that the peek saw. */
  function HeaderSize(peek: nat): nat { if peek == TASK_MAGIC then 0 else 4 + peek }

  function MetaOf(b: seq<byte>, peek: nat): seq<byte>
    requires HeaderSize(peek) <= |b|
  {
    if peek == TASK_MAGIC then [] else b[4..4 + peek]
  }

  /** What the loop delivers from the bytes, given `count` frames and `round` messages so far. */
  function Decode(b: seq<byte>, c: Course, count: nat, round: nat): Result
    decreases |b|, 0
  {
    if count >= c.limit then Result([], Enough)
    else if c.shutdown(round) then Result([], ShutDown)
    else if |b| < 4 then Result([], Disconnected)
    else if !Accepted(WordAt(b, 0)) then Result([], Stuck)
    else
      var h := HeaderSize(WordAt(b, 0));
      if |b| < h + PACKET_SIZE then Result([], Disconnected)
      else
        var frame := Frame(MetaOf(b, WordAt(b, 0)), PacketOf(b[h..h + PACKET_SIZE]));
        if frame.packet.magic != TASK_MAGIC then Decode(b[h + PACKET_SIZE..], c, count, round + 1)
        else Deliver(frame, b[h + PACKET_SIZE..], c, count, round)
  }

  function Deliver(frame: Frame, rest: seq<byte>, c: Course, count: nat, round: nat): Result
    decreases |rest|, 1
  {
    if !c.mapped(count) then Result([], Failed)
    else if !c.released(count) then Result([frame], Failed)
    else Prepended([frame], Decode(rest, c, count + 1, round + 1))
  }

  ghost predicate Understood(m: Message) { m.WithMeta? ==> 0 < |m.meta| < MAX_META }

  /** The parts of a concatenation. */
  lemma Parts(w: seq<byte>, meta: seq<byte>, p: seq<byte>, rest: seq<byte>)
    ensures var b := w + meta + p + rest;
            && b[|w|..|w| + |meta|] == meta && b[|w| + |meta|..|w| + |meta| + |p|] == p
            && b[|w| + |meta| + |p|..] == rest
  {
  }

  lemma PeekMeta(m: Message, rest: seq<byte>)
    requires m.WithMeta?
    ensures WordAt(Encode(m) + rest, 0) == |m.meta|
  {
    assert Encode(m) + rest == Word(|m.meta|) + (m.meta + PacketBytes(m.packet) + rest);
    FirstWord(|m.meta|, m.meta + PacketBytes(m.packet) + rest);
  }

  lemma PeekBare(m: Message, rest: seq<byte>)
    requires m.Bare?
    ensures WordAt(Encode(m) + rest, 0) == TASK_MAGIC
  {
    PacketRoundTrip(m.packet);
    assert WordAt(Encode(m) + rest, 0) == WordAt(PacketBytes(m.packet), 0);
  }

  /** A message that the loop understands comes first: its frame is delivered and the loop goes on after it. */
  lemma DecodeGoodMessage(m: Message, rest: seq<byte>, c: Course, count: nat, round: nat)
    requires Understood(m)
    ensures Decode(Encode(m) + rest, c, count, round) ==
            if count >= c.limit then Result([], Enough)
            else if c.shutdown(round) then Result([], ShutDown)
            else Deliver(ExpectedFrame(m), rest, c, count, round)
  {
    PacketRoundTrip(m.packet);
    if m.WithMeta? {
      PeekMeta(m, rest);
      Parts(Word(|m.meta|), m.meta, PacketBytes(m.packet), rest);
    } else {
      PeekBare(m, rest);
      Parts([], [], PacketBytes(m.packet), rest);
      assert Encode(m) + rest == [] + [] + PacketBytes(m.packet) + rest;
    }
  }

  /** A metadata length that is zero or at least 65536 stops the loop; if it happens to be the magic number, the header
      is taken for a packet. In no case does the message come out. */
  lemma DecodeBadMessage(m: Message, rest: seq<byte>, c: Course, count: nat, round: nat)
    requires !Understood(m) && count < c.limit && !c.shutdown(round) && c.mapped(count)
    ensures var r := Decode(Encode(m) + rest, c, count, round);
            if |m.meta| == TASK_MAGIC then r.frames != [] && r.frames[0].meta == []
            else r == Result([], Stuck)
  {
    PeekMeta(m, rest);
    if |m.meta| == TASK_MAGIC {
      var b := Encode(m) + rest;
      assert WordAt(b[..PACKET_SIZE], 0) == WordAt(b, 0);
    }
  }

  ghost predicate Undisturbed(c: Course) {
    forall i: nat {:trigger c.mapped(i)} :: !c.shutdown(i) && c.mapped(i) && c.released(i)
  }

  /** How many of `n` messages an undisturbed loop is to deliver, and how it is to end. */
  function Wanted(c: Course, n: nat): nat { if c.limit < 0 then 0 else if c.limit <= n then c.limit else n }

  function WantedEnd(c: Course, n: nat): End { if c.limit <= n then Enough else Disconnected }

  ghost predicate AllUnderstood(ms: seq<Message>, i: nat, n: nat)
    requires i <= n <= |ms|
    decreases n - i
  {
    i < n ==> Understood(ms[i]) && AllUnderstood(ms, i + 1, n)
  }

  lemma {:induction false} AllUnderstoodIff(ms: seq<Message>, i: nat, n: nat)
    requires i <= n <= |ms|
    ensures AllUnderstood(ms, i, n) <==> forall j :: i <= j < n ==> Understood(ms[j])
    decreases n - i
  {
    if i < n {
      AllUnderstoodIff(ms, i + 1, n);
    }
  }

  ghost predicate ComesOut(ms: seq<Message>, c: Course, i: nat, round: nat)
    requires i <= Wanted(c, |ms|)
  {
    Decode(EncodeFrom(ms, i), c, i, round) == Result(ExpectedFrom(ms, i, Wanted(c, |ms|)), WantedEnd(c, |ms|))
  }

  lemma PrependInjective(frame: Frame, r: Result, q: Result)
    ensures Prepended([frame], r) == Prepended([frame], q) <==> r == q
  {
    assert ([frame] + r.frames)[1..] == r.frames && ([frame] + q.frames)[1..] == q.frames;
  }

  lemma GoodStep(ms: seq<Message>, c: Course, i: nat, round: nat)
    requires Undisturbed(c) && i < Wanted(c, |ms|) && Understood(ms[i])
    ensures ComesOut(ms, c, i, round) <==> ComesOut(ms, c, i + 1, round + 1)
  {
    DecodeGoodMessage(ms[i], EncodeFrom(ms, i + 1), c, i, round);
    assert c.mapped(i) && c.mapped(round);
    PrependInjective(ExpectedFrame(ms[i]), Decode(EncodeFrom(ms, i + 1), c, i + 1, round + 1),
                     Result(ExpectedFrom(ms, i + 1, Wanted(c, |ms|)), WantedEnd(c, |ms|)));
  }

  lemma BadStep(ms: seq<Message>, c: Course, i: nat, round: nat)
    requires Undisturbed(c) && i < Wanted(c, |ms|) && !Understood(ms[i])
    ensures !ComesOut(ms, c, i, round)
  {
    assert c.mapped(i) && c.mapped(round);
    DecodeBadMessage(ms[i], EncodeFrom(ms, i + 1), c, i, round);
    assert ExpectedFrom(ms, i, Wanted(c, |ms|))[0].meta == ms[i].meta;
  }

  lemma OneStep(ms: seq<Message>, c: Course, i: nat, round: nat)
    requires Undisturbed(c) && i < Wanted(c, |ms|)
    ensures ComesOut(ms, c, i, round) <==> Understood(ms[i]) && ComesOut(ms, c, i + 1, round + 1)
  {
    if Understood(ms[i]) {
      GoodStep(ms, c, i, round);
    } else {
      BadStep(ms, c, i, round);
    }
  }

  lemma LastStep(ms: seq<Message>, c: Course, i: nat, round: nat)
    requires Undisturbed(c) && i == Wanted(c, |ms|)
    ensures ComesOut(ms, c, i, round)
  {
    assert c.mapped(round);
    assert i < c.limit ==> EncodeFrom(ms, i) == [];
  }

  lemma {:induction false} RoundTripFrom(ms: seq<Message>, c: Course, i: nat, round: nat)
    requires Undisturbed(c) && i <= Wanted(c, |ms|)
    ensures ComesOut(ms, c, i, round) <==> AllUnderstood(ms, i, Wanted(c, |ms|))
    decreases |ms| - i
  {
    if i == Wanted(c, |ms|) {
      LastStep(ms, c, i, round);
    } else {
      RoundTripFrom(ms, c, i + 1, round + 1);
      OneStep(ms, c, i, round);
    }
  }

  function EncodeAll(ms: seq<Message>): seq<byte>
  {
    EncodeFrom(ms, 0)
  }

  function Expected(ms: seq<Message>, n: nat): seq<Frame>
    requires n <= |ms|
  {
    ExpectedFrom(ms, 0, n)
  }

  /** The round trip of an undisturbed loop gives back exactly what was sent, up to the number of frames wanted, if and
      only if every metadata length up to there is from 1 to 65535. */
  lemma RoundTripIff(ms: seq<Message>, c: Course)
    requires Undisturbed(c)
    ensures Decode(EncodeAll(ms), c, 0, 0) == Result(Expected(ms, Wanted(c, |ms|)), WantedEnd(c, |ms|))
       <==> forall j :: 0 <= j < Wanted(c, |ms|) ==> Understood(ms[j])
  {
    RoundTripFrom(ms, c, 0, 0);
    AllUnderstoodIff(ms, 0, Wanted(c, |ms|));
  }

  /** A disturbed loop delivers a first part of what was sent: it ends early, but nothing is left out or changed. */
  lemma {:induction false} DisturbedTakesPrefix(ms: seq<Message>, c: Course, i: nat, round: nat) returns (n: nat)
    requires i <= |ms| && forall j :: i <= j < |ms| ==> Understood(ms[j])
    ensures i <= n <= |ms| && Decode(EncodeFrom(ms, i), c, i, round).frames == ExpectedFrom(ms, i, n)
    ensures i <= c.limit ==> n <= c.limit
    decreases |ms| - i
  {
    n := i;
    if i < |ms| {
      DecodeGoodMessage(ms[i], EncodeFrom(ms, i + 1), c, i, round);
      if i < c.limit && !c.shutdown(round) && c.mapped(i) {
        n := i + 1;
        if c.released(i) {
          n := DisturbedTakesPrefix(ms, c, i + 1, round + 1);
        }
      }
    }
  }

  // The loops over a stream socket

  /** `wire` holds the bytes sent and not yet received; `cut(i)` bounds what the i-th call transfers. A send with a
      bound of zero or less fails; a receive gets at least one byte unless the peer is gone. */
  class Socket {
    var wire: seq<byte>
    var calls: nat
    const cut: nat -> int

    constructor (cut: nat -> int)
      ensures wire == [] && this.cut == cut
    {
      wire, calls := [], 0;
      this.cut := cut;
    }

    method Send(data: seq<byte>) returns (n: int)
      requires data != []
      modifies this
      ensures n <= |data| && (cut(old(calls)) > 0 ==> n > 0)
      ensures wire == old(wire) + if n > 0 then data[..n] else []
      ensures calls == old(calls) + 1
    {
      n := if cut(calls) < |data| then cut(calls) else |data|;
      calls := calls + 1;
      if n > 0 {
        wire := wire + data[..n];
      }
    }

    method Recv(max: nat) returns (data: seq<byte>)
      requires 0 < max
      modifies this
      ensures |data| <= max && old(wire) == data + wire && (data == [] <==> old(wire) == [])
    {
      var n := if cut(calls) < 1 then 1 else if cut(calls) < max then cut(calls) else max;
      if n > |wire| {
        n := |wire|;
      }
      calls := calls + 1;
      data, wire := wire[..n], wire[n..];
    }
  }

  /** sendAll: everything, or a proper part and false. */
  method SendAll(socket: Socket, data: seq<byte>) returns (ok: bool, ghost total: nat)
    modifies socket
    ensures total <= |data| && (ok <==> total == |data|)
    ensures socket.wire == old(socket.wire) + data[..total]
    ensures (forall i :: socket.cut(i) > 0) ==> ok
  {
    var sent := 0;
    while sent < |data|
      invariant 0 <= sent <= |data| && socket.wire == old(socket.wire) + data[..sent]
    {
      var n := socket.Send(data[sent..]);
      if n <= 0 {
        return false, sent;
      }
      assert data[..sent + n] == data[..sent] + data[sent..][..n];
      sent := sent + n;
    }
    return true, sent;
  }

  /** RecvAll: the next `len` bytes, however they are cut, or false at the end of the stream. */
  method RecvAll(socket: Socket, len: nat) returns (ok: bool, data: seq<byte>)
    modifies socket
    ensures ok <==> len <= |old(socket.wire)|
    ensures ok ==> data == old(socket.wire)[..len] && socket.wire == old(socket.wire)[len..]
  {
    data := [];
    while |data| < len
      invariant |data| <= len && old(socket.wire) == data + socket.wire
      decreases len - |data|
    {
      var part := socket.Recv(len - |data|);
      if part == [] {
        return false, data;
      }
      data := data + part;
    }
    return true, data;
  }

  lemma PrefixOfSum(a: seq<byte>, b: seq<byte>, t: nat)
    requires t <= |b|
    ensures (a + b)[..|a| + t] == a + b[..t]
  {
  }

  /** Sends a header part and then a body; what arrives is a prefix of the two together. */
  method SendTwo(socket: Socket, first: seq<byte>, second: seq<byte>) returns (ok: bool, ghost total: nat)
    modifies socket
    ensures total <= |first + second| && (ok <==> total == |first + second|)
    ensures socket.wire == old(socket.wire) + (first + second)[..total]
    ensures (forall i :: socket.cut(i) > 0) ==> ok
  {
    ok, total := SendAll(socket, first);
    assert total <= |first| ==> (first + second)[..total] == first[..total];
    if !ok {
      return;
    }
    ghost var sent: nat;
    ok, sent := SendAll(socket, second);
    PrefixOfSum(first, second, sent);
    assert first[..|first|] == first;
    total := |first| + sent;
  }

  /** The sends of processScenePayload, or the one of the old form. */
  method SendMessage(socket: Socket, m: Message) returns (ok: bool, ghost total: nat)
    modifies socket
    ensures total <= |Encode(m)| && (ok <==> total == |Encode(m)|)
    ensures socket.wire == old(socket.wire) + Encode(m)[..total]
    ensures (forall i :: socket.cut(i) > 0) ==> ok
  {
    var body := PacketBytes(m.packet);
    if m.Bare? {
      ok, total := SendAll(socket, body);
      return;
    }
    var header := Word(|m.meta|) + m.meta;
    ok, total := SendTwo(socket, Word(|m.meta|), m.meta);
    assert Encode(m) == header + body;
    assert total <= |header| ==> (header + body)[..total] == header[..total];
    if ok {
      ghost var sent: nat;
      ok, sent := SendAll(socket, body);
      PrefixOfSum(header, body, sent);
      assert header[..|header|] == header;
      total := |header| + sent;
    }
  }

  /** One message, with metadata unless the peek saw the magic number. */
  method ReceiveMessage(socket: Socket, peek: nat) returns (ok: bool, meta: seq<byte>, packet: Packet)
    requires |socket.wire| >= 4 && peek == WordAt(socket.wire, 0)
    modifies socket
    ensures ok <==> HeaderSize(peek) + PACKET_SIZE <= |old(socket.wire)|
    ensures ok ==>
              && meta == MetaOf(old(socket.wire), peek)
              && packet == PacketOf(old(socket.wire)[HeaderSize(peek)..HeaderSize(peek) + PACKET_SIZE])
              && socket.wire == old(socket.wire)[HeaderSize(peek) + PACKET_SIZE..]
  {
    meta, packet := [], Packet(0, 0, 0, 0, 0, 0, 0);
    if peek != TASK_MAGIC {
      var okLen, len := RecvAll(socket, 4);
      ok, meta := RecvAll(socket, peek);
      if !ok {
        return;
      }
    }
    var bytes;
    ok, bytes := RecvAll(socket, PACKET_SIZE);
    if ok {
      packet := PacketOf(bytes);
    }
  }

  /** One round on a whole message. */
  lemma DecodeNext(b: seq<byte>, c: Course, count: nat, round: nat, meta: seq<byte>, packet: Packet, rest: seq<byte>)
    requires count < c.limit && !c.shutdown(round) && |b| >= 4 && Accepted(WordAt(b, 0))
    requires var h := HeaderSize(WordAt(b, 0));
             && h + PACKET_SIZE <= |b| && meta == MetaOf(b, WordAt(b, 0)) && packet == PacketOf(b[h..h + PACKET_SIZE])
             && rest == b[h + PACKET_SIZE..]
    ensures Decode(b, c, count, round) ==
            if packet.magic == TASK_MAGIC then Deliver(Frame(meta, packet), rest, c, count, round)
            else Decode(rest, c, count, round + 1)
  {
  }

  /** One round of the receive loop behind its test: `stop` says how it breaks off, if it does. */
  method ReceiveRound(socket: Socket, c: Course, frames: seq<Frame>, round: nat)
    returns (after: seq<Frame>, stop: Stop)
    requires |frames| < c.limit && !c.shutdown(round) && |socket.wire| >= 4
    modifies socket
    ensures stop.Break? ==> Prepended(frames, Decode(old(socket.wire), c, |frames|, round)) == Result(after, stop.end)
    ensures stop.GoOn? ==>
              && Prepended(frames, Decode(old(socket.wire), c, |frames|, round))
                 == Prepended(after, Decode(socket.wire, c, |after|, round + 1))
              && |socket.wire| < |old(socket.wire)|
  {
    var peek := WordAt(socket.wire, 0);
    if !Accepted(peek) {
      // The word stays in the stream: every later round meets it again.
      return frames, Break(Stuck);
    }
    ghost var before := socket.wire;
    var ok, meta, packet := ReceiveMessage(socket, peek);
    if !ok {
      return frames, Break(Disconnected);
    }
    DecodeNext(before, c, |frames|, round, meta, packet, socket.wire);
    if packet.magic != TASK_MAGIC {
      return frames, GoOn;
    }
    if !c.mapped(|frames|) {
      return frames, Break(Failed);
    }
    if !c.released(|frames|) {
      return frames + [Frame(meta, packet)], Break(Failed);
    }
    PrependOne(frames, Frame(meta, packet), Decode(socket.wire, c, |frames| + 1, round + 1));
    return frames + [Frame(meta, packet)], GoOn;
  }

  datatype Stop = GoOn | Break(end: End)

  /** The receive loop of the consumer. The peek is taken to see four bytes whenever four bytes are still to come. */
  method ReceiveLoop(socket: Socket, c: Course) returns (frames: seq<Frame>, end: End)
    modifies socket
    ensures Result(frames, end) == Decode(old(socket.wire), c, 0, 0)
  {
    frames := [];
    var round := 0;
    ghost var all := Decode(socket.wire, c, 0, 0);
    while |frames| < c.limit && !c.shutdown(round) && |socket.wire| >= 4
      invariant all == Prepended(frames, Decode(socket.wire, c, |frames|, round))
      decreases |socket.wire|
    {
      var stop;
      frames, stop := ReceiveRound(socket, c, frames, round);
      if stop.Break? {
        return frames, stop.end;
      }
      round := round + 1;
    }
    return frames, if |frames| >= c.limit then Enough else if c.shutdown(round) then ShutDown else Disconnected;
  }

  lemma PrependOne(frames: seq<Frame>, frame: Frame, r: Result)
    ensures Prepended(frames, Prepended([frame], r)) == Prepended(frames + [frame], r)
  {
    assert frames + ([frame] + r.frames) == (frames + [frame]) + r.frames;
  }

  lemma Regroup(a: seq<byte>, b: seq<byte>, c: seq<byte>)
    ensures a + (b + c) == (a + b) + c
  {
  }

  /** Over a socket that takes at least a byte at a time, the whole message is sent. */
  method SendWhole(socket: Socket, m: Message)
    requires forall i :: socket.cut(i) > 0
    modifies socket
    ensures socket.wire == old(socket.wire) + Encode(m)
  {
    var ok, total := SendMessage(socket, m);
    assert Encode(m)[..|Encode(m)|] == Encode(m);
  }

  method SendList(socket: Socket, ms: seq<Message>)
    requires socket.wire == [] && forall i :: socket.cut(i) > 0
    modifies socket
    ensures socket.wire == EncodeAll(ms)
  {
    var i := 0;
    while i < |ms|
      invariant 0 <= i <= |ms|
      invariant socket.wire + EncodeFrom(ms, i) == EncodeAll(ms)
    {
      ghost var was := socket.wire;
      SendWhole(socket, ms[i]);
      Regroup(was, Encode(ms[i]), EncodeFrom(ms, i + 1));
      i := i + 1;
    }
  }

  /** End to end, for any cutting of sends and receives: what comes out is what went in, up to the number of frames
      wanted, if and only if every metadata length up to there is from 1 to 65535. A loop that is disturbed delivers
      a first part. */
  method SendAndReceive(ms: seq<Message>, cut: nat -> int, c: Course) returns (frames: seq<Frame>, end: End)
    requires forall i :: cut(i) > 0
    ensures Undisturbed(c) ==>
              var n := Wanted(c, |ms|);
              frames == Expected(ms, n) && end == WantedEnd(c, |ms|) <==> forall j :: 0 <= j < n ==> Understood(ms[j])
    ensures (forall m :: m in ms ==> Understood(m)) ==> exists n :: 0 <= n <= |ms| && frames == Expected(ms, n)
  {
    var socket := new Socket(cut);
    SendList(socket, ms);
    frames, end := ReceiveLoop(socket, c);
    if Undisturbed(c) {
      RoundTripIff(ms, c);
    }
    if forall m :: m in ms ==> Understood(m) {
      ghost var n := DisturbedTakesPrefix(ms, c, 0, 0);
      assert frames == Expected(ms, n);
    }
  }
}
