/**
 DCP2 frames on a byte stream: a length-prefixed encoding that survives any way the network cuts
 the stream into pieces.
 */
module Framing {
  import opened Words

  const MAGIC: Bytes := ['D' as int, 'C' as int, 'P' as int, '2' as int]
  const DCP2_VERSION := 2
  const HEADER := 8
  const MIN_PAYLOAD := 4
  const MAX_PAYLOAD := 4096

  datatype Frame = Frame(service: u8, op: u8, sequence: u16, body: Bytes)

  predicate Sendable(f: Frame) { |f.body| <= MAX_PAYLOAD - MIN_PAYLOAD }

  function BuildFrame(f: Frame): (b: Bytes)
    ensures |b| == HEADER + MIN_PAYLOAD + |f.body|
  {
    MAGIC + Be(2, DCP2_VERSION) + Be(2, MIN_PAYLOAD + |f.body|) + [f.service, f.op] + Be(2, f.sequence) + f.body
  }

  datatype Head = Incomplete | Broken | Whole(frame: Frame, rest: Bytes)

  /** The frame at the head of the received bytes, once all of it is there. */
  function TakeFrame(b: Bytes): (r: Head)
    ensures r.Whole? ==> |r.rest| < |b|
  {
    Limits();
    if |b| < HEADER then Incomplete
    else
      var length := FromBe(b[6..8]);
      if b[..4] != MAGIC || FromBe(b[4..6]) != DCP2_VERSION || length < MIN_PAYLOAD || length > MAX_PAYLOAD then Broken
      else if |b| < HEADER + length then Incomplete
      else Whole(Frame(b[8], b[9], FromBe(b[10..12]), b[12..HEADER + length]), b[HEADER + length..])
  }

  datatype Drained = Drained(frames: seq<Frame>, rest: Bytes, broken: bool)

  /** All whole frames at the head of the received bytes. */
  function Drain(b: Bytes): Drained
    decreases |b|
  {
    match TakeFrame(b)
    case Incomplete => Drained([], b, false)
    case Broken => Drained([], b, true)
    case Whole(f, rest) =>
      var d := Drain(rest);
      d.(frames := [f] + d.frames)
  }

  function BuildAll(fs: seq<Frame>): Bytes {
    if fs == [] then [] else BuildFrame(fs[0]) + BuildAll(fs[1..])
  }

  ghost predicate AllSendable(fs: seq<Frame>) { forall i :: 0 <= i < |fs| ==> Sendable(fs[i]) }

  lemma BuiltParts(f: Frame, rest: Bytes)
    requires Sendable(f)
    ensures var b := BuildFrame(f) + rest;
      && b[..4] == MAGIC && FromBe(b[4..6]) == DCP2_VERSION && FromBe(b[6..8]) == MIN_PAYLOAD + |f.body|
      && b[8] == f.service && b[9] == f.op && FromBe(b[10..12]) == f.sequence
      && b[12..12 + |f.body|] == f.body && b[12 + |f.body|..] == rest
  {
    hide Be, FromBe, Limit;
    Limits();
    var b := BuildFrame(f) + rest;
    FromBeOfHeld(2, 2);
    FromBeOfHeld(2, MIN_PAYLOAD + |f.body|);
    FromBeOfHeld(2, f.sequence);
    assert b[4..6] == Be(2, 2);
    assert b[6..8] == Be(2, MIN_PAYLOAD + |f.body|);
    assert b[10..12] == Be(2, f.sequence);
  }

  /** A whole frame is taken off the stream exactly as it was built. */
  lemma TakeBuilt(f: Frame, rest: Bytes)
    requires Sendable(f)
    ensures TakeFrame(BuildFrame(f) + rest) == Whole(f, rest)
  {
    hide FromBe, BuildFrame;
    assert |BuildFrame(f)| == HEADER + MIN_PAYLOAD + |f.body|;
    BuiltParts(f, rest);
  }

  /** A frame cut short is waited for, never misread. */
  lemma TakeCut(f: Frame, n: nat)
    requires Sendable(f) && n < |BuildFrame(f)|
    ensures TakeFrame(BuildFrame(f)[..n]) == Incomplete
  {
    hide FromBe, BuildFrame;
    assert |BuildFrame(f)| == HEADER + MIN_PAYLOAD + |f.body|;
    BuiltParts(f, []);
    var b, c := BuildFrame(f) + [], BuildFrame(f)[..n];
    assert b == BuildFrame(f);
    if n >= HEADER {
      assert c[..4] == b[..4] && c[4..6] == b[4..6] && c[6..8] == b[6..8];
    }
  }

  lemma TakeNothing()
    ensures TakeFrame([]) == Incomplete
  {
  }

  /** More bytes only add to what has already been taken. */
  lemma {:induction false} DrainMore(a: Bytes, b: Bytes)
    ensures var d := Drain(a);
      if d.broken then Drain(a + b).broken && Drain(a + b).frames == d.frames
      else Drain(a + b) == Drain(d.rest + b).(frames := d.frames + Drain(d.rest + b).frames)
    decreases |a|
  {
    hide TakeFrame;
    match TakeFrame(a)
    case Incomplete => assert Drain(a) == Drained([], a, false);
    case Broken => TakeStillBroken(a, b);
    case Whole(f, rest) =>
      TakeMore(a, b);
      DrainMore(rest, b);
      assert Drain(a).frames == [f] + Drain(rest).frames;
  }

  lemma TakeStillBroken(a: Bytes, b: Bytes)
    requires TakeFrame(a).Broken?
    ensures TakeFrame(a + b).Broken?
  {
    hide FromBe;
    assert (a + b)[..4] == a[..4] && (a + b)[4..6] == a[4..6] && (a + b)[6..8] == a[6..8];
  }

  lemma TakeMore(a: Bytes, b: Bytes)
    requires TakeFrame(a).Whole?
    ensures TakeFrame(a + b) == Whole(TakeFrame(a).frame, TakeFrame(a).rest + b)
  {
    hide FromBe;
    var c, length := a + b, FromBe(a[6..8]);
    assert c[..4] == a[..4] && c[4..6] == a[4..6] && c[6..8] == a[6..8] && c[10..12] == a[10..12];
    assert c[12..HEADER + length] == a[12..HEADER + length] && c[HEADER + length..] == a[HEADER + length..] + b;
  }

  /** However much of the stream has arrived, the frames taken are the first ones sent. */
  lemma {:induction false} DrainOfStream(fs: seq<Frame>, n: nat)
    requires AllSendable(fs) && n <= |BuildAll(fs)|
    ensures var d := Drain(BuildAll(fs)[..n]);
      && !d.broken && d.frames <= fs && (n == |BuildAll(fs)| ==> d.frames == fs && d.rest == [])
    decreases fs
  {
    hide TakeFrame, BuildFrame;
    var b := BuildAll(fs)[..n];
    if fs != [] {
      var k := |BuildFrame(fs[0])|;
      if n < k {
        TakeCut(fs[0], n);
        assert b == BuildFrame(fs[0])[..n];
      } else {
        var rest := BuildAll(fs[1..])[..n - k];
        assert b == BuildFrame(fs[0]) + rest;
        TakeBuilt(fs[0], rest);
        DrainOfStream(fs[1..], n - k);
        assert fs == [fs[0]] + fs[1..];
      }
    } else {
      TakeNothing();
    }
  }

  /** The receiving end of a connection: bytes that have arrived and not been taken yet. */
  class Receiver {
    var received: Bytes
    /** All bytes that ever arrived, and all frames taken from them. */
    ghost var arrived: Bytes
    ghost var taken: seq<Frame>

    ghost predicate Valid()
      reads this
    {
      Drain(arrived) == Drain(received).(frames := taken + Drain(received).frames)
    }

    constructor ()
      ensures Valid() && received == [] && arrived == [] && taken == []
    {
      received, arrived, taken := [], [], [];
    }

    method Feed(chunk: Bytes)
      requires Valid() && !Drain(received).broken
      modifies this
      ensures Valid() && received == old(received) + chunk && arrived == old(arrived) + chunk && taken == old(taken)
    {
      hide TakeFrame, Drain;
      DrainMore(arrived, chunk);
      DrainMore(received, chunk);
      assert Drain(arrived).rest == Drain(received).rest;
      received := received + chunk;
      arrived := arrived + chunk;
    }

    method Take() returns (head: Head)
      requires Valid()
      modifies this
      ensures Valid() && head == TakeFrame(old(received)) && arrived == old(arrived)
      ensures taken == old(taken) + if head.Whole? then [head.frame] else []
      ensures received == if head.Whole? then head.rest else old(received)
    {
      hide FromBe, Limit;
      ghost var d := Drain(received);
      head := Incomplete;
      if |received| >= HEADER {
        Limits();
        var length := FromBe(received[6..8]);
        if received[..4] != MAGIC || FromBe(received[4..6]) != DCP2_VERSION || length < MIN_PAYLOAD || length > MAX_PAYLOAD {
          return Broken;
        }
        if |received| >= HEADER + length {
          head := Whole(Frame(received[8], received[9], FromBe(received[10..12]), received[12..HEADER + length]),
                        received[HEADER + length..]);
          received := received[HEADER + length..];
          taken := taken + [head.frame];
        }
      }
    }
  }

  /** However the stream was cut, the frames taken are those sent, in order; none is lost, none invented. */
  lemma TakenAsSent(r: Receiver, fs: seq<Frame>)
    requires r.Valid() && AllSendable(fs) && r.arrived <= BuildAll(fs)
    ensures r.taken <= fs && !Drain(r.received).broken && !TakeFrame(r.received).Broken?
    ensures r.arrived == BuildAll(fs) && TakeFrame(r.received).Incomplete? ==> r.taken == fs && r.received == []
  {
    hide TakeFrame;
    var n := |r.arrived|;
    assert BuildAll(fs)[..n] == r.arrived;
    DrainOfStream(fs, n);
  }
}
