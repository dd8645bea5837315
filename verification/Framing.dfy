/** The byte layout of a queued message: the length as an 8-byte word followed by the body. */
module Framing {

  type byte = x: int | 0 <= x < 256

  type Message = seq<byte>

  /** sizeof(size_t) */
  const WORD := 8

  const TWO64 := 0x1_0000_0000_0000_0000

  /** No object is larger than PTRDIFF_MAX bytes. */
  const SIZE_LIMIT := 0x7FFF_FFFF_FFFF_FFFF

  /** The object representation of an integer: `width` bytes, least significant first. */
  function Encode(n: nat, width: nat): (b: seq<byte>)
    ensures |b| == width
  {
    if width == 0 then [] else [n % 256] + Encode(n / 256, width - 1)
  }

  function Decode(b: seq<byte>): nat
  {
    if b == [] then 0 else b[0] + 256 * Decode(b[1..])
  }

  /** Number of values that `width` bytes can hold. */
  function Range(width: nat): (r: nat)
    ensures r > 0
  {
    if width == 0 then 1 else 256 * Range(width - 1)
  }

  lemma {:induction false} DecodeEncode(n: nat, width: nat)
    requires n < Range(width)
    ensures Decode(Encode(n, width)) == n
  {
    if width == 0 {
    } else {
      DecodeEncode(n / 256, width - 1);
      assert Encode(n, width)[1..] == Encode(n / 256, width - 1);
    }
  }

  lemma RangeOfWord()
    ensures Range(WORD) == TWO64
  {
  }

  lemma WordRoundTrip(n: nat)
    requires n < TWO64
    ensures Decode(Encode(n, WORD)) == n
  {
    RangeOfWord();
    DecodeEncode(n, WORD);
  }

  function Frame(m: Message): (b: seq<byte>)
    ensures |b| == WORD + |m|
  {
    Encode(|m|, WORD) + m
  }

  function Frames(ms: seq<Message>): seq<byte>
  {
    if ms == [] then [] else Frame(ms[0]) + Frames(ms[1..])
  }

  /** A message whose length a size_t can hold. */
  predicate Encodable(m: Message) { |m| < TWO64 }

  /** The buffer starts with a complete frame: the peek and both reads of msg_queue_read succeed. */
  predicate HasFrame(b: seq<byte>)
  {
    |b| >= WORD && |b| >= WORD + Decode(b[..WORD])
  }

  function HeadBody(b: seq<byte>): Message
    requires HasFrame(b)
  {
    b[WORD..WORD + Decode(b[..WORD])]
  }

  function AfterHead(b: seq<byte>): seq<byte>
    requires HasFrame(b)
  {
    b[WORD + Decode(b[..WORD])..]
  }

  lemma Regroup(a: seq<byte>, b: seq<byte>, c: seq<byte>)
    ensures a + (b + c) == a + b + c
  {
  }

  lemma {:induction false} FramesAppend(ms: seq<Message>, m: Message)
    ensures Frames(ms + [m]) == Frames(ms) + Frame(m)
  {
    if ms == [] {
      assert [m][1..] == [];
    } else {
      var rest := ms[1..];
      FramesAppend(rest, m);
      assert (ms + [m])[1..] == rest + [m] && (ms + [m])[0] == ms[0];
      Regroup(Frame(ms[0]), Frames(rest), Frame(m));
    }
  }

  /** Parsing the front of a framed buffer gives back the first message and the rest. */
  lemma ParseHead(ms: seq<Message>)
    requires ms != [] && Encodable(ms[0])
    ensures HasFrame(Frames(ms))
    ensures HeadBody(Frames(ms)) == ms[0]
    ensures AfterHead(Frames(ms)) == Frames(ms[1..])
  {
    var m, b := ms[0], Frames(ms);
    assert b == Encode(|m|, WORD) + (m + Frames(ms[1..]));
    assert b[..WORD] == Encode(|m|, WORD);
    WordRoundTrip(|m|);
  }

  /** A buffer has at most one reading as a sequence of frames. */
  lemma {:induction false} FramesInjective(a: seq<Message>, b: seq<Message>)
    requires forall m | m in a :: Encodable(m)
    requires forall m | m in b :: Encodable(m)
    requires Frames(a) == Frames(b)
    ensures a == b
  {
    if a != [] && b != [] {
      ParseHead(a);
      ParseHead(b);
      FramesInjective(a[1..], b[1..]);
      assert a == [a[0]] + a[1..] && b == [b[0]] + b[1..];
    }
  }
}
