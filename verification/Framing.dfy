/** The length-prefixed result of a plugin worker, read under a deadline (_encode_result, the send in _worker, _wait_slice,
    _read_exactly and _receive in shadowscan/plugin_process.py). */
module Framing {
  type Byte = x: int | 0 <= x < 256

  const MAX_RESULT_BYTES := 0x100_0000
  const LENGTH_BYTES := 8
  const MAX_RECV := 65536
  const MAX_WAIT := 86400

  // ---------------------------------------------------------------- encoding

  datatype Encoded = Payload(bytes: seq<Byte>) | TooLarge

  function Joined(chunks: seq<seq<Byte>>): seq<Byte> {
    if chunks == [] then [] else Joined(chunks[..|chunks| - 1]) + chunks[|chunks| - 1]
  }

  lemma {:induction false} JoinedGrows(chunks: seq<seq<Byte>>, n: nat)
    requires n <= |chunks|
    ensures |Joined(chunks[..n])| <= |Joined(chunks)|
    decreases |chunks|
  {
    if n == |chunks| {
      assert chunks[..n] == chunks;
    } else {
      var m := |chunks| - 1;
      assert chunks[..m][..n] == chunks[..n];
      JoinedGrows(chunks[..m], n);
    }
  }

  /** _encode_result: the encoder's chunks one after another, refused as soon as they exceed the limit. */
  method EncodeResult(chunks: seq<seq<Byte>>) returns (r: Encoded)
    ensures r == if |Joined(chunks)| <= MAX_RESULT_BYTES then Payload(Joined(chunks)) else TooLarge
  {
    var output: seq<Byte> := [];
    for n := 0 to |chunks|
      invariant output == Joined(chunks[..n]) && |output| <= MAX_RESULT_BYTES
    {
      assert chunks[..n + 1][..n] == chunks[..n];
      output := output + chunks[n];
      if |output| > MAX_RESULT_BYTES {
        JoinedGrows(chunks, n + 1);
        return TooLarge;
      }
    }
    assert chunks[..|chunks|] == chunks;
    r := Payload(output);
  }

  // ---------------------------------------------------------------- the length prefix

  function Power(k: nat): (p: nat)
    ensures p > 0
  {
    if k == 0 then 1 else 256 * Power(k - 1)
  }

  // n.to_bytes(k, "big")
  function ToBytes(n: nat, k: nat): (r: seq<Byte>)
    ensures |r| == k
  {
    if k == 0 then [] else ToBytes(n / 256, k - 1) + [n % 256]
  }

  // int.from_bytes(s, "big")
  function FromBytes(s: seq<Byte>): nat {
    if s == [] then 0 else 256 * FromBytes(s[..|s| - 1]) + s[|s| - 1]
  }

  /** A length survives the prefix whenever it fits. */
  lemma {:induction false} LengthRoundTrip(n: nat, k: nat)
    requires n < Power(k)
    ensures FromBytes(ToBytes(n, k)) == n
    decreases k
  {
    if k > 0 {
      assert n / 256 < Power(k - 1);
      LengthRoundTrip(n / 256, k - 1);
      var s := ToBytes(n / 256, k - 1);
      assert (s + [n % 256])[..k - 1] == s;
    }
  }

  lemma LimitFits()
    ensures MAX_RESULT_BYTES < Power(LENGTH_BYTES)
  {
    assert Power(4) == 256 * 256 * 256 * 256 by {
      assert Power(1) == 256 && Power(2) == 256 * 256 && Power(3) == 256 * 256 * 256;
    }
    assert Power(5) == 256 * Power(4) && Power(6) == 256 * Power(5) && Power(7) == 256 * Power(6) && Power(8) == 256 * Power(7);
  }

  function Frame(payload: seq<Byte>): seq<Byte> {
    ToBytes(|payload|, LENGTH_BYTES) + payload
  }

  /** The worker sends its result, or the fixed error payload when the result exceeds the limit. */
  method SendResult(chunks: seq<seq<Byte>>, failure: seq<Byte>) returns (sent: seq<Byte>)
    requires |failure| <= MAX_RESULT_BYTES
    ensures exists p :: |p| <= MAX_RESULT_BYTES && sent == Frame(p)
                        && p == if |Joined(chunks)| <= MAX_RESULT_BYTES then Joined(chunks) else failure
  {
    var encoded := EncodeResult(chunks);
    var payload := if encoded.Payload? then encoded.bytes else failure;
    sent := ToBytes(|payload|, LENGTH_BYTES) + payload;
    assert sent == Frame(payload);
  }

  // ---------------------------------------------------------------- the channel

  // One receive: how long it takes, and how many bytes the operating system hands over.
  datatype Step = Step(delay: nat, size: nat)

  datatype Received = Data(chunk: seq<Byte>) | Slice | Closed

  // What the peer has sent and will ever send, and the schedule on which it arrives.
  class Channel {
    var incoming: seq<Byte>
    var schedule: seq<Step>
    var now: int

    constructor (incoming: seq<Byte>, schedule: seq<Step>, now: int)
      ensures this.incoming == incoming && this.schedule == schedule && this.now == now
    {
      this.incoming, this.schedule, this.now := incoming, schedule, now;
    }

    /** recv(limit) with a timeout: some bytes in order, the end of the stream, or nothing before the timeout. */
    method Recv(limit: nat, timeout: nat) returns (r: Received)
      requires limit > 0 && timeout > 0
      modifies this
      ensures now >= old(now)
      ensures r.Data? ==> 0 < |r.chunk| <= limit && old(incoming) == r.chunk + incoming
      ensures r.Slice? ==> now >= old(now) + timeout && incoming == old(incoming)
      ensures r.Closed? ==> incoming == old(incoming) == []
    {
      var step := Step(0, limit);
      if schedule != [] {
        step, schedule := schedule[0], schedule[1..];
      }
      if step.delay >= timeout {
        now := now + step.delay;
        return Slice;
      }
      now := now + step.delay;
      if incoming == [] {
        return Closed;
      }
      var size := if step.size == 0 then 1 else step.size;
      size := if size > limit then limit else size;
      size := if size > |incoming| then |incoming| else size;
      r := Data(incoming[..size]);
      incoming := incoming[size..];
    }
  }

  // ---------------------------------------------------------------- reading

  datatype Outcome = Ok(bytes: seq<Byte>) | TimedOut | EndedEarly | TooLong

  // The time left before the deadline, at most one wait slice; nothing once it has passed.
  function WaitSlice(now: int, deadline: int): nat {
    if deadline <= now then 0 else if deadline - now < MAX_WAIT then deadline - now else MAX_WAIT
  }

  /** A wait is the time left, at most a day, and nothing once the deadline has come. */
  lemma WaitSliceIs(now: int, deadline: int)
    ensures WaitSlice(now, deadline) == 0 <==> now >= deadline
    ensures WaitSlice(now, deadline) <= 86_400
    ensures now < deadline <= now + 86_400 ==> WaitSlice(now, deadline) == deadline - now
    ensures now + 86_400 <= deadline ==> WaitSlice(now, deadline) == 86_400
  {
  }

  method ReadExactly(channel: Channel, size: nat, deadline: int) returns (r: Outcome)
    modifies channel
    ensures r.Ok? || r.TimedOut? || r.EndedEarly?
    ensures r.Ok? ==> |r.bytes| == size && old(channel.incoming) == r.bytes + channel.incoming
    ensures r.EndedEarly? ==> |old(channel.incoming)| < size
    ensures r.TimedOut? ==> channel.now >= deadline
    ensures channel.now >= old(channel.now)
  {
    var result: seq<Byte> := [];
    while |result| < size
      invariant |result| <= size && old(channel.incoming) == result + channel.incoming
      invariant channel.now >= old(channel.now)
      decreases size - |result| + (if deadline > channel.now then deadline - channel.now else 0)
    {
      var slice := WaitSlice(channel.now, deadline);
      if slice == 0 {
        return TimedOut;
      }
      var want := size - |result|;
      var got := channel.Recv(if want < MAX_RECV then want else MAX_RECV, slice);
      match got {
        case Slice =>
          continue;
        case Closed =>
          return EndedEarly;
        case Data(chunk) =>
          result := result + chunk;
      }
    }
    r := Ok(result);
  }

  /** _receive: exactly the framed payload, however the stream is split and whatever follows it, or a timeout. A declared
      length beyond the limit is refused before any of its body is read, and a stream that ends early is an error. */
  method Receive(channel: Channel, deadline: int) returns (r: Outcome)
    modifies channel
    ensures r.TimedOut? ==> channel.now >= deadline
    ensures r.Ok? ==> |r.bytes| <= MAX_RESULT_BYTES && |old(channel.incoming)| >= LENGTH_BYTES + |r.bytes|
                      && FromBytes(old(channel.incoming)[..LENGTH_BYTES]) == |r.bytes|
                      && old(channel.incoming)[LENGTH_BYTES..] == r.bytes + channel.incoming
    ensures r.TooLong? ==> |old(channel.incoming)| >= LENGTH_BYTES
                           && FromBytes(old(channel.incoming)[..LENGTH_BYTES]) > MAX_RESULT_BYTES
                           && channel.incoming == old(channel.incoming)[LENGTH_BYTES..]
    ensures r.EndedEarly? ==> |old(channel.incoming)| < LENGTH_BYTES
                              || (FromBytes(old(channel.incoming)[..LENGTH_BYTES]) <= MAX_RESULT_BYTES
                                  && |old(channel.incoming)| < LENGTH_BYTES + FromBytes(old(channel.incoming)[..LENGTH_BYTES]))
  {
    hide FromBytes;
    var sent := channel.incoming;
    r := ReadExactly(channel, LENGTH_BYTES, deadline);
    if !r.Ok? {
      return;
    }
    assert sent[..LENGTH_BYTES] == r.bytes && sent[LENGTH_BYTES..] == channel.incoming;
    var size := FromBytes(r.bytes);
    if size > MAX_RESULT_BYTES {
      return TooLong;
    }
    r := ReadExactly(channel, size, deadline);
  }

  /** End to end: whatever the worker encoded, the parent receives it unchanged, or gives up once the deadline has passed. */
  method Exchange(chunks: seq<seq<Byte>>, failure: seq<Byte>, trailing: seq<Byte>, schedule: seq<Step>, now: int, deadline: int)
    returns (r: Outcome, end: int)
    requires |failure| <= MAX_RESULT_BYTES
    ensures (r.TimedOut? && end >= deadline) || r == Ok(if |Joined(chunks)| <= MAX_RESULT_BYTES then Joined(chunks) else failure)
  {
    hide Joined, ToBytes, FromBytes, Power;
    var sent := SendResult(chunks, failure);
    ghost var p := if |Joined(chunks)| <= MAX_RESULT_BYTES then Joined(chunks) else failure;
    var channel := new Channel(sent + trailing, schedule, now);
    LimitFits();
    LengthRoundTrip(|p|, LENGTH_BYTES);
    ghost var all := sent + trailing;
    assert all[..LENGTH_BYTES] == ToBytes(|p|, LENGTH_BYTES) && all[LENGTH_BYTES..] == p + trailing;
    r := Receive(channel, deadline);
    end := channel.now;
    if r.Ok? {
      assert r.bytes == (r.bytes + channel.incoming)[..|p|] == (p + trailing)[..|p|] == p;
    }
  }
}
