/**
 Writing into a caller's buffer: big-endian numbers, rows of them, and plain copies.
 */
module Buffers {
  import opened Words

  /** The bytes of `a`, with those of `b` in place of the ones from `at` on. */
  ghost function Over(a: Bytes, at: nat, b: Bytes): Bytes
    requires at + |b| <= |a|
  {
    a[..at] + b + a[at + |b|..]
  }

  method Put(out: array<u8>, at: nat, width: nat, v: nat)
    requires at + width <= out.Length
    modifies out
    ensures out[..] == Over(old(out[..]), at, Be(width, v))
  {
    var k, rest := width, v;
    while k > 0
      invariant 0 <= k <= width
      invariant Be(width, v) == Be(k, rest) + out[at + k..at + width]
      invariant out[..at + k] == old(out[..at + k])
      invariant out[at + width..] == old(out[at + width..])
    {
      k := k - 1;
      ghost var written := out[at + k + 1..at + width];
      out[at + k] := rest % 0x100;
      rest := rest / 0x100;
      assert out[at + k..at + width] == [out[at + k]] + written;
    }
    assert out[..] == out[..at] + out[at..at + width] + out[at + width..];
  }

  method PutFields(out: array<u8>, at: nat, layout: seq<nat>, values: seq<nat>)
    requires |layout| == |values| && at + Size(layout) <= out.Length
    modifies out
    ensures out[..] == Over(old(out[..]), at, Pack(layout, values))
  {
    hide Pack, Be, Size;
    NoFields();
    var i, used := 0, at;
    while i < |layout|
      invariant 0 <= i <= |layout| && used + Size(layout[i..]) == at + Size(layout)
      invariant used == at + |Pack(layout[..i], values[..i])|
      invariant out[..used] == old(out[..at]) + Pack(layout[..i], values[..i])
      invariant out[used..] == old(out[..])[used..]
    {
      ghost var before := out[..];
      SizeStep(layout[i..]);
      assert layout[i..][1..] == layout[i + 1..];
      Put(out, used, layout[i], values[i]);
      PackAppend(layout[..i], values[..i], layout[i], values[i]);
      assert layout[..i + 1] == layout[..i] + [layout[i]] && values[..i + 1] == values[..i] + [values[i]];
      assert out[..used + layout[i]] == before[..used] + Be(layout[i], values[i]);
      assert out[used + layout[i]..] == before[used + layout[i]..];
      used := used + layout[i];
      i := i + 1;
    }
    assert layout[..i] == layout && values[..i] == values;
    assert out[..] == out[..used] + out[used..];
  }

  method PutBytes(out: array<u8>, at: nat, b: Bytes)
    requires at + |b| <= out.Length
    modifies out
    ensures out[..] == Over(old(out[..]), at, b)
  {
    var i := 0;
    while i < |b|
      invariant 0 <= i <= |b|
      invariant out[..at + i] == old(out[..at]) + b[..i]
      invariant out[at + i..] == old(out[..])[at + i..]
    {
      out[at + i] := b[i];
      i := i + 1;
    }
    assert b[..i] == b;
    assert out[..] == out[..at + i] + out[at + i..];
  }
}
