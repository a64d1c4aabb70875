/** Long text split across several NVS entries (lib/nvs_chunk). */
module NvsChunk {

  function Chunks(data: string, size: nat): (chunks: seq<string>)
    ensures forall i :: 0 <= i < |chunks| ==> 0 < |chunks[i]| <= size
    ensures size > 0 && data != "" ==> (|chunks| - 1) * size < |data| <= |chunks| * size
    decreases |data|
  {
    if data == "" || size == 0 then []
    else if |data| <= size then [data]
    else [data[..size]] + Chunks(data[size..], size)
  }

  function Concat(chunks: seq<string>): string
  {
    if chunks == [] then "" else chunks[0] + Concat(chunks[1..])
  }

  /** joinChunks(splitIntoChunks(s, n)) == s for any n > 0. */
  lemma {:induction false} ConcatChunks(data: string, size: nat)
    requires size > 0
    ensures Concat(Chunks(data, size)) == data
    decreases |data|
  {
    if |data| > size {
      ConcatChunks(data[size..], size);
      assert data == data[..size] + data[size..];
    }
  }

  lemma {:induction false} ConcatAppend(a: seq<string>, b: seq<string>)
    ensures Concat(a + b) == Concat(a) + Concat(b)
  {
    if a == [] {
      assert a + b == b;
    } else {
      assert (a + b)[1..] == a[1..] + b;
      ConcatAppend(a[1..], b);
    }
  }

  method SplitIntoChunks(data: string, size: nat) returns (chunks: seq<string>)
    ensures chunks == Chunks(data, size)
  {
    chunks := [];
    if |data| == 0 || size == 0 { return; }
    var pos := 0;
    while pos < |data|
      invariant pos <= |data|
      invariant Chunks(data, size) == chunks + Chunks(data[pos..], size)
    {
      var len := |data| - pos;
      if len > size { len := size; }
      assert data[pos..][..len] == data[pos..pos + len] && data[pos..][len..] == data[pos + len..];
      assert pos + len == |data| ==> data[pos..pos + len] == data[pos..];
      chunks := chunks + [data[pos..pos + len]];
      pos := pos + len;
    }
  }

  method JoinChunks(chunks: seq<string>) returns (out: string)
    ensures out == Concat(chunks)
  {
    out := "";
    for i := 0 to |chunks|
      invariant out + Concat(chunks[i..]) == Concat(chunks)
    {
      assert chunks[i..][1..] == chunks[i + 1..];
      out := out + chunks[i];
    }
  }
}
