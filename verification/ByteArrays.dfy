/** Chunks as mutable arrays: overwriting them in place, and copying them into one. */
module ByteArrays {
  import opened Bytes

  ghost function Contents(chunks: seq<array<byte>>): (c: seq<seq<byte>>)
    reads chunks
    ensures |c| == |chunks|
    ensures forall i | 0 <= i < |c| :: c[i] == chunks[i][..]
  {
    seq(|chunks|, i requires 0 <= i < |chunks| reads chunks => chunks[i][..])
  }

  /** No two entries are the same array. */
  ghost predicate Unaliased(chunks: seq<array<byte>>) {
    forall i, j | 0 <= i < j < |chunks| :: chunks[i] != chunks[j]
  }

  method Fill(chunk: array<byte>)
    modifies chunk
    ensures chunk[..] == Zeros(chunk.Length)
  {
    for i := 0 to chunk.Length
      invariant Zeroed(chunk[..i])
    {
      chunk[i] := 0;
    }
    assert chunk[..] == chunk[..chunk.Length];
    ZeroedIsZeros(chunk[..]);
  }

  method FillAll(chunks: seq<array<byte>>)
    modifies chunks
    ensures forall i | 0 <= i < |chunks| :: chunks[i][..] == Zeros(chunks[i].Length)
  {
    for n := 0 to |chunks|
      invariant forall i | 0 <= i < n :: chunks[i][..] == Zeros(chunks[i].Length)
    {
      Fill(chunks[n]);
    }
  }

  /** Copies a chunk to its place in a larger buffer. */
  method Set(bytes: array<byte>, chunk: array<byte>, offset: nat)
    requires bytes != chunk && offset + chunk.Length <= bytes.Length
    modifies bytes
    ensures bytes[..] == old(bytes[..offset]) + chunk[..] + old(bytes[offset + chunk.Length..])
  {
    for i := 0 to chunk.Length
      invariant bytes[..] == old(bytes[..offset]) + chunk[..i] + old(bytes[offset + i..])
    {
      bytes[offset + i] := chunk[i];
    }
  }

  lemma PrefixFits(chunks: seq<array<byte>>, n: nat)
    requires n < |chunks|
    ensures Contents(chunks)[..n + 1] == Contents(chunks)[..n] + [chunks[n][..]]
    ensures Concat(Contents(chunks)[..n + 1]) == Concat(Contents(chunks)[..n]) + chunks[n][..]
    ensures Total(Contents(chunks)[..n]) + chunks[n].Length <= Total(Contents(chunks))
  {
    hide Concat, Total;
    var c := Contents(chunks);
    assert c[..n + 1] == c[..n] + [c[n]];
    ConcatLast(c[..n], c[n]);
    assert c == c[..n + 1] + c[n + 1..];
    ConcatSplit(c[..n + 1], c[n + 1..]);
  }

  /** One buffer holding the chunks back to back. */
  method Assemble(chunks: seq<array<byte>>, total: nat) returns (bytes: array<byte>)
    requires total == Total(Contents(chunks))
    ensures fresh(bytes) && bytes[..] == Concat(Contents(chunks))
  {
    hide Concat, Total;
    bytes := new byte[total];
    var offset := 0;
    ghost var c := Contents(chunks);
    EmptyTotal(c);
    for n := 0 to |chunks|
      invariant Contents(chunks) == c
      invariant offset == Total(c[..n]) <= total
      invariant bytes[..offset] == Concat(c[..n])
    {
      PrefixFits(chunks, n);
      Set(bytes, chunks[n], offset);
      offset := offset + chunks[n].Length;
    }
    assert c[..|chunks|] == c;
    assert bytes[..] == bytes[..offset];
  }

  lemma EmptyTotal(c: seq<seq<byte>>)
    ensures Total(c[..0]) == 0 && Concat(c[..0]) == []
  {
  }
}
