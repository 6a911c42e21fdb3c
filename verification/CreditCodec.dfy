/**
 Credit messages: buffer lengths as big-endian 64-bit numbers, at most 100 to
 a message, and the loops that write, split and read them.
 */
module CreditCodec {
  import opened QueueModel

  type Byte = n: nat | n < 256

  const MAX_CREDITS_PER_BUFFER: nat := 100
  const CREDIT_BYTES: nat := 8

  // ---------------------------------------------------------------- numbers

  /** n as k big-endian bytes, higher bytes cut off. */
  ghost function BigEndian(n: nat, k: nat): (bytes: seq<Byte>)
    ensures |bytes| == k
  {
    if k == 0 then [] else BigEndian(n / 256, k - 1) + [n % 256]
  }

  ghost function FromBigEndian(bytes: seq<Byte>): nat {
    if bytes == [] then 0 else 256 * FromBigEndian(bytes[..|bytes| - 1]) + bytes[|bytes| - 1]
  }

  ghost function Pow256(k: nat): nat {
    if k == 0 then 1 else 256 * Pow256(k - 1)
  }

  lemma {:induction false} BigEndianRoundTrip(n: nat, k: nat)
    requires n < Pow256(k)
    ensures FromBigEndian(BigEndian(n, k)) == n
  {
    if k > 0 {
      BigEndianRoundTrip(n / 256, k - 1);
      assert BigEndian(n, k)[..k - 1] == BigEndian(n / 256, k - 1);
    }
  }

  lemma {:induction false} FromBigEndianBound(bytes: seq<Byte>)
    ensures FromBigEndian(bytes) < Pow256(|bytes|)
  {
    if bytes != [] {
      FromBigEndianBound(bytes[..|bytes| - 1]);
    }
  }

  /** The first byte is the most significant one. */
  lemma {:induction false} HighestByteFirst(bytes: seq<Byte>)
    requires bytes != []
    ensures FromBigEndian(bytes) == bytes[0] * Pow256(|bytes| - 1) + FromBigEndian(bytes[1..])
  {
    if |bytes| > 1 {
      var front, last := bytes[..|bytes| - 1], bytes[|bytes| - 1];
      HighestByteFirst(front);
      assert bytes[1..][..|bytes| - 2] == front[1..];
      Regroup(front[0], Pow256(|front| - 1), FromBigEndian(front[1..]), last);
    }
  }

  lemma Regroup(a: nat, p: nat, rest: nat, last: nat)
    ensures 256 * (a * p + rest) + last == a * (256 * p) + (256 * rest + last)
  {
    Commute(a, p);
  }

  lemma Commute(a: nat, p: nat)
    ensures 256 * (a * p) == a * (256 * p)
  {
  }

  lemma EightBytes()
    ensures Pow256(8) == 0x1_0000_0000_0000_0000
  {
    assert Pow256(4) == 0x1_0000_0000;
  }

  // ---------------------------------------------------------------- messages

  ghost function Encode(lengths: seq<Size>): (message: seq<Byte>)
    ensures |message| == CREDIT_BYTES * |lengths|
  {
    if lengths == [] then [] else Encode(lengths[..|lengths| - 1]) + BigEndian(lengths[|lengths| - 1], CREDIT_BYTES)
  }

  ghost function Credit(message: seq<Byte>, i: nat): Size
    requires CREDIT_BYTES * (i + 1) <= |message|
  {
    EightBytes();
    FromBigEndianBound(message[CREDIT_BYTES * i..CREDIT_BYTES * (i + 1)]);
    FromBigEndian(message[CREDIT_BYTES * i..CREDIT_BYTES * (i + 1)])
  }

  /** The numbers in a message; a trailing fragment is ignored. */
  ghost function Decode(message: seq<Byte>): seq<Size> {
    seq(|message| / CREDIT_BYTES, i requires 0 <= i < |message| / CREDIT_BYTES => Credit(message, i))
  }

  /** A later message tail does not change an earlier number. */
  lemma CreditPrefix(message: seq<Byte>, more: seq<Byte>, i: nat)
    requires CREDIT_BYTES * (i + 1) <= |message|
    ensures Credit(message + more, i) == Credit(message, i)
  {
    assert (message + more)[CREDIT_BYTES * i..CREDIT_BYTES * (i + 1)]
        == message[CREDIT_BYTES * i..CREDIT_BYTES * (i + 1)];
  }

  lemma {:induction false} EncodedCredit(lengths: seq<Size>, i: nat)
    requires i < |lengths|
    ensures Credit(Encode(lengths), i) == lengths[i]
  {
    var last := |lengths| - 1;
    var front := Encode(lengths[..last]);
    var tail := BigEndian(lengths[last], CREDIT_BYTES);
    if i < last {
      EncodedCredit(lengths[..last], i);
      CreditPrefix(front, tail, i);
    } else {
      assert Encode(lengths)[CREDIT_BYTES * i..CREDIT_BYTES * (i + 1)] == tail;
      EightBytes();
      BigEndianRoundTrip(lengths[last], CREDIT_BYTES);
    }
  }

  /** Reading a message gives back what was written, for every list of 64-bit lengths. */
  lemma DecodeEncode(lengths: seq<Size>)
    ensures Decode(Encode(lengths)) == lengths
  {
    forall i | 0 <= i < |lengths|
      ensures Credit(Encode(lengths), i) == lengths[i]
    {
      EncodedCredit(lengths, i);
    }
  }

  ghost function DecodeAll(messages: seq<seq<Byte>>): seq<Size> {
    if messages == [] then [] else Decode(messages[0]) + DecodeAll(messages[1..])
  }

  lemma {:induction false} DecodeAllSnoc(messages: seq<seq<Byte>>, m: seq<Byte>)
    ensures DecodeAll(messages + [m]) == DecodeAll(messages) + Decode(m)
  {
    if messages == [] {
      assert messages + [m] == [m];
    } else {
      DecodeAllSnoc(messages[1..], m);
      assert (messages + [m])[1..] == messages[1..] + [m];
    }
  }

  // ---------------------------------------------------------------- the loops

  /** Stores one number: `dest[i] = bufferLengths[i]`. */
  method Store(dest: array<Byte>, at: nat, n: Size)
    requires at + CREDIT_BYTES <= dest.Length
    modifies dest
    ensures dest[at..at + CREDIT_BYTES] == BigEndian(n, CREDIT_BYTES)
    ensures dest[..at] == old(dest[..at])
  {
    var rest: nat := n;
    var k: nat := CREDIT_BYTES;
    while k > 0
      invariant k <= CREDIT_BYTES
      invariant BigEndian(n, CREDIT_BYTES) == BigEndian(rest, k) + dest[at + k..at + CREDIT_BYTES]
      invariant dest[..at] == old(dest[..at])
    {
      k := k - 1;
      ghost var tail := dest[at + k + 1..at + CREDIT_BYTES];
      dest[at + k] := rest % 256;
      assert dest[at + k..at + CREDIT_BYTES] == [rest % 256] + tail;
      rest := rest / 256;
    }
    assert dest[at..at + CREDIT_BYTES] == dest[at + k..at + CREDIT_BYTES];
  }

  /** `SendCreditUpdate`: writes the lengths into a credit buffer, which holds 100 of them. */
  method WriteCredits(lengths: seq<Size>, dest: array<Byte>) returns (used: nat)
    requires |lengths| <= MAX_CREDITS_PER_BUFFER && dest.Length == MAX_CREDITS_PER_BUFFER * CREDIT_BYTES
    modifies dest
    ensures used <= dest.Length && dest[..used] == Encode(lengths)
  {
    used := 0;
    for i := 0 to |lengths|
      invariant used == CREDIT_BYTES * i && dest[..used] == Encode(lengths[..i])
    {
      ghost var front := dest[..used];
      Store(dest, used, lengths[i]);
      assert dest[..used + CREDIT_BYTES] == front + dest[used..used + CREDIT_BYTES];
      assert lengths[..i + 1][..i] == lengths[..i];
      used := used + CREDIT_BYTES;
    }
    assert lengths[..|lengths|] == lengths;
  }

  method Load(src: array<Byte>, at: nat) returns (n: Size)
    requires at + CREDIT_BYTES <= src.Length
    ensures n == FromBigEndian(src[at..at + CREDIT_BYTES])
  {
    var value: nat := 0;
    for k := 0 to CREDIT_BYTES
      invariant value == FromBigEndian(src[at..at + k])
    {
      assert src[at..at + k + 1][..k] == src[at..at + k];
      value := 256 * value + src[at + k];
    }
    FromBigEndianBound(src[at..at + CREDIT_BYTES]);
    EightBytes();
    n := value;
  }

  /** The reading loop of `AckHandlerThread`: the numbers it passes to `AddCredit`, in order. */
  method ReadCredits(src: array<Byte>, used: nat) returns (credits: seq<Size>)
    requires used <= src.Length
    ensures credits == Decode(src[..used])
  {
    credits := [];
    var numCredits := used / CREDIT_BYTES;
    for i := 0 to numCredits
      invariant |credits| == i
      invariant forall j :: 0 <= j < i ==> credits[j] == Credit(src[..used], j)
    {
      var n := Load(src, CREDIT_BYTES * i);
      assert src[..used][CREDIT_BYTES * i..CREDIT_BYTES * (i + 1)]
          == src[CREDIT_BYTES * i..CREDIT_BYTES * i + CREDIT_BYTES];
      credits := credits + [n];
    }
  }

  /** One credit buffer, filled and cut to the bytes used. */
  method Message(lengths: seq<Size>) returns (message: seq<Byte>)
    requires 0 < |lengths| <= MAX_CREDITS_PER_BUFFER
    ensures 0 < |message| <= MAX_CREDITS_PER_BUFFER * CREDIT_BYTES && Decode(message) == lengths
  {
    var creditBuffer := new Byte[MAX_CREDITS_PER_BUFFER * CREDIT_BYTES];
    var used := WriteCredits(lengths, creditBuffer);
    DecodeEncode(lengths);
    message := creditBuffer[..used];
  }

  /** The sending loop of `PostConfigure`: splits all lengths into messages. */
  method SplitCredits(lengths: seq<Size>) returns (messages: seq<seq<Byte>>)
    ensures forall i :: 0 <= i < |messages| ==> 0 < |messages[i]| <= MAX_CREDITS_PER_BUFFER * CREDIT_BYTES
    ensures DecodeAll(messages) == lengths
  {
    messages := [];
    var sent := 0;
    while sent < |lengths|
      invariant sent <= |lengths| && DecodeAll(messages) == lengths[..sent]
      invariant forall i :: 0 <= i < |messages| ==> 0 < |messages[i]| <= MAX_CREDITS_PER_BUFFER * CREDIT_BYTES
    {
      var creditsLeft := |lengths| - sent;
      var creditsToSend := if creditsLeft < MAX_CREDITS_PER_BUFFER then creditsLeft else MAX_CREDITS_PER_BUFFER;
      var message := Message(lengths[sent..sent + creditsToSend]);
      DecodeAllSnoc(messages, message);
      assert lengths[..sent + creditsToSend] == lengths[..sent] + lengths[sent..sent + creditsToSend];
      messages := messages + [message];
      sent := sent + creditsToSend;
    }
    assert lengths[..sent] == lengths;
  }
}
