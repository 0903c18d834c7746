/** How far a chunked body can pass its limit before the parser sees it. */
module BodyLimit {
  import opened Bytes
  import opened RequestSpec
  import opened RequestLaws
  import opened RoundTrip

  /**
   * Over every fragmentation of a beginning of a printed request: the body is a beginning of the
   * data, and if the data is over the limit it goes no further than the end of the first chunk
   * that passes it. So it exceeds the limit by at most the size of that chunk.
   */
  lemma OvershootWithinChunk(h: Head, k: Coding, suffix: string, limit: nat, pieces: seq<string>, rest: string)
    requires ValidHead(h) && ValidCoding(k) && ChunkedCoding(FieldMap(h.fields, map[]))
    requires pieces != [] && Join(pieces) + rest == PrintHead(h) + (PrintCoding(k) + suffix)
    ensures var body, fit := ParseAll(Fresh(limit), pieces).body, Fit(k.chunks, 0, limit);
            if limit == 0 || |Concat(k.chunks)| <= limit then body <= Concat(k.chunks)
            else fit < |k.chunks| && body <= Concat(k.chunks[..fit + 1])
                 && |Concat(k.chunks[..fit])| <= limit && |body| <= limit + |k.chunks[fit].data|
  {
    hide Run, FieldMap, HeadRead, PrintHead, PrintCoding, Concat;
    var r := ParseAll(Fresh(limit), pieces);
    var whole := [Join(pieces), rest];
    assert Join(whole) == Join(pieces) + rest by {
      assert whole[1..] == [rest] && [rest][1..] == [];
      assert Join([rest]) == rest + "" == rest;
    }
    FragmentationInvariance(Fresh(limit), pieces);
    FragmentationInvariance(Fresh(limit), whole);
    SplitInvariance(Fresh(limit), Join(pieces), rest);
    ChunkedRoundTrip(h, k, suffix, limit, whole);
    BodyGrows(r.Feed(rest));
    if limit > 0 && |Concat(k.chunks)| > limit {
      LastOfPrefix(k.chunks, Fit(k.chunks, 0, limit));
      NothingBefore(k.chunks);
    }
  }

  lemma NothingBefore(chunks: seq<Chunk>)
    ensures |Concat(chunks[..0])| == 0
  {
  }

  lemma {:induction false} LastOfPrefix(chunks: seq<Chunk>, k: nat)
    requires k < |chunks|
    ensures |Concat(chunks[..k + 1])| == |Concat(chunks[..k])| + |chunks[k].data|
    decreases k
  {
    ConcatPrefix(chunks, k);
    if k > 0 {
      ConcatPrefix(chunks, k - 1);
      LastOfPrefix(chunks[1..], k - 1);
    }
  }

  /**
   * And it does pass it: cut the stream inside any chunk that follows chunks within the limit, and
   * every byte of it that has come is in the body, whatever the limit, with no error.
   */
  lemma MidChunkUnchecked(h: Head, before: seq<Chunk>, c: Chunk, m: nat, limit: nat, pieces: seq<string>)
    requires ValidHead(h) && ChunkedCoding(FieldMap(h.fields, map[]))
    requires (forall i :: 0 <= i < |before| ==> ValidChunk(before[i])) && ValidChunk(c) && 0 < m < |c.data|
    requires limit == 0 || |Concat(before)| <= limit
    requires pieces != []
    requires Join(pieces) == PrintHead(h) + (PrintChunks(before) + (c.size + c.ext + CRLF + c.data[..m]))
    ensures ParseAll(Fresh(limit), pieces)
         == HeadRead(h, limit, "").(body := Concat(before) + c.data[..m], chunk := Data, remaining := |c.data| - m)
    ensures HeadRead(h, limit, "").state.Body?
  {
    hide Run, FieldMap, HeadRead, PrintHead;
    var part := c.size + c.ext + CRLF + c.data[..m];
    var r := HeadRead(h, limit, PrintChunks(before) + part);
    FragmentationInvariance(Fresh(limit), pieces);
    HeadParses(h, limit, PrintChunks(before) + part);
    ChunkedHeadRead(h, limit, PrintChunks(before) + part, "");
    ChunksParse(before, part, r);
    assert r.body + Concat(before) == Concat(before);
    var n := r.(body := Concat(before), buffer := part);
    SizeLineStep(c.size, c.ext, |c.data|, c.data[..m], n);
    PartAbsorbed(WithChunkSize(n.(buffer := c.data[..m]), |c.data|));
  }

  lemma PartAbsorbed(d: Request)
    requires d.state.Body? && d.chunked && d.chunk.Data? && 0 < |d.buffer| < d.remaining
    ensures Run(d) == d.(body := d.body + d.buffer, buffer := "", remaining := d.remaining - |d.buffer|)
  {
    assert d.buffer[..|d.buffer|] == d.buffer;
    RunStep(d, d.Take(|d.buffer|).(remaining := d.remaining - |d.buffer|));
  }
}
