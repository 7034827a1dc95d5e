/** A file as the bytes it holds, and the two ways a download writes to it. */
module FileBytes {
  type Byte = bv8

  /** The first `n` bytes, padded with zeros when the file is shorter. */
  function Front(file: seq<Byte>, n: nat): (r: seq<Byte>)
    ensures |r| == n
  {
    if n <= |file| then file[..n] else file + seq(n - |file|, _ => 0)
  }

  function Back(file: seq<Byte>, n: nat): seq<Byte> { if n <= |file| then file[n..] else [] }

  /** A write at an offset. One past the end of the file extends it and leaves a hole of zeros;
      one of nothing does nothing. */
  function PutBytes(file: seq<Byte>, offset: nat, data: seq<Byte>): seq<Byte> {
    if data == [] then file else Front(file, offset) + data + Back(file, offset + |data|)
  }

  /** The byte at an offset, zero where the file has none yet. */
  function At(file: seq<Byte>, p: nat): Byte { if p < |file| then file[p] else 0 }

  /** A write changes its own range and nothing else, and never shortens the file. */
  lemma PutAt(file: seq<Byte>, offset: nat, data: seq<Byte>)
    ensures var t := PutBytes(file, offset, data);
            && |t| == (if data == [] || offset + |data| <= |file| then |file| else offset + |data|)
            && forall p: nat :: At(t, p) == if offset <= p < offset + |data| then data[p - offset] else At(file, p)
  {
  }

  /** What `write_at` keeps of `data` when the range ends at `last`. */
  function Capped(data: seq<Byte>, offset: nat, last: nat): seq<Byte>
    requires offset <= last
  {
    if offset + |data| <= last + 1 then data else data[..last + 1 - offset]
  }

  lemma CappedIsFront(data: seq<Byte>, offset: nat, last: nat)
    requires offset <= last
    ensures var n := |Capped(data, offset, last)|;
            && n <= |data| && Capped(data, offset, last) == data[..n]
            && offset + n <= last + 1 && (n < |data| ==> offset + n == last + 1)
  {
  }

  /** Two writes end to end are one write. */
  lemma PutsConcat(file: seq<Byte>, offset: nat, a: seq<Byte>, b: seq<Byte>)
    ensures PutBytes(PutBytes(file, offset, a), offset + |a|, b) == PutBytes(file, offset, a + b)
  {
    if a == [] {
      assert a + b == b;
    } else if b == [] {
      assert a + b == a;
    } else {
      var once := PutBytes(file, offset, a);
      assert Front(once, offset + |a|) == Front(file, offset) + a;
      assert Back(once, offset + |a| + |b|) == Back(file, offset + |a| + |b|);
      assert Front(file, offset) + (a + b) == Front(file, offset) + a + b;
    }
  }

  lemma PutSplit(file: seq<Byte>, offset: nat, data: seq<Byte>, cut: nat)
    requires cut <= |data|
    ensures PutBytes(PutBytes(file, offset, data[..cut]), offset + cut, data[cut..]) == PutBytes(file, offset, data)
  {
    PutsConcat(file, offset, data[..cut], data[cut..]);
    assert data[..cut] + data[cut..] == data;
  }
}
