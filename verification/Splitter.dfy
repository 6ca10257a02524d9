// Merging of small chunks in app/infrastructure/knowledge/document_splitter_service.py. The chunks
// are objects and grow in place.
module Splitter {
  import opened Common

  class Document {
    var pageContent: string
    const metadata: map<string, string>

    constructor (pageContent: string, metadata: map<string, string>)
      ensures this.pageContent == pageContent && this.metadata == metadata
    {
      this.pageContent, this.metadata := pageContent, metadata;
    }
  }

  // A merged chunk: the number of the document that heads it, and its text.
  datatype Chunk = Chunk(head: nat, text: string)

  const SEPARATOR := "\n\n"

  predicate Absorbs(last: Chunk, text: string, limit: int, minSize: int) {
    |text| < minSize && |last.text| < limit
  }

  function AddChunk(chunks: seq<Chunk>, n: nat, text: string, limit: int, minSize: int): seq<Chunk> {
    if chunks != [] && Absorbs(chunks[|chunks| - 1], text, limit, minSize) then
      var last := chunks[|chunks| - 1];
      chunks[..|chunks| - 1] + [Chunk(last.head, last.text + SEPARATOR + text)]
    else chunks + [Chunk(n, text)]
  }

  // What merging texts comes to; limit is twice the chunk size.
  function Chunks(texts: seq<string>, limit: int, minSize: int): (r: seq<Chunk>)
    ensures (r == []) == (texts == [])
  {
    if texts == [] then []
    else
      var n := |texts| - 1;
      AddChunk(Chunks(texts[..n], limit, minSize), n, texts[n], limit, minSize)
  }

  function TextsOf(chunks: seq<Chunk>): (r: seq<string>)
    ensures |r| == |chunks| && forall g | 0 <= g < |r| :: r[g] == chunks[g].text
  {
    seq(|chunks|, g requires 0 <= g < |chunks| => chunks[g].text)
  }

  function Contents(documents: seq<Document>): (r: seq<string>)
    reads documents
    ensures |r| == |documents| && forall i | 0 <= i < |r| :: r[i] == documents[i].pageContent
  {
    seq(|documents|, i requires 0 <= i < |documents| reads documents => documents[i].pageContent)
  }

  // ----- The method -----

  ghost predicate AreDistinct(documents: seq<Document>) {
    forall i, j | 0 <= i < j < |documents| :: documents[i] != documents[j]
  }

  // The outputs are the head objects, holding the texts of the chunks; all other objects are as
  // they were.
  ghost predicate Realizes(outputs: seq<Document>, documents: seq<Document>, texts: seq<string>, chunks: seq<Chunk>)
    requires |texts| == |documents|
    reads documents
  {
    && |outputs| == |chunks|
    && (forall g | 0 <= g < |chunks| :: chunks[g].head < |documents| && outputs[g] == documents[chunks[g].head])
    && (forall g | 0 <= g < |chunks| :: documents[chunks[g].head].pageContent == chunks[g].text)
    && forall k: nat | k < |documents| && !IsHead(chunks, k) :: documents[k].pageContent == texts[k]
  }

  ghost predicate IsHead(chunks: seq<Chunk>, k: nat) {
    exists g :: 0 <= g < |chunks| && chunks[g].head == k
  }

  // Heads increase, from the first document on.
  ghost predicate HeadsIncrease(chunks: seq<Chunk>, n: nat) {
    && (forall g, h | 0 <= g < h < |chunks| :: chunks[g].head < chunks[h].head)
    && (forall g | 0 <= g < |chunks| :: chunks[g].head < n)
    && (chunks != [] ==> chunks[0].head == 0)
  }

  lemma AddKeepsHeads(chunks: seq<Chunk>, n: nat, text: string, limit: int, minSize: int)
    requires HeadsIncrease(chunks, n) && (chunks == [] ==> n == 0)
    ensures HeadsIncrease(AddChunk(chunks, n, text, limit, minSize), n + 1)
  {}

  lemma {:induction false} ChunkHeadsIncrease(texts: seq<string>, limit: int, minSize: int)
    ensures HeadsIncrease(Chunks(texts, limit, minSize), |texts|)
  {
    if texts != [] {
      var n := |texts| - 1;
      ChunkHeadsIncrease(texts[..n], limit, minSize);
      AddKeepsHeads(Chunks(texts[..n], limit, minSize), n, texts[n], limit, minSize);
    }
  }

  lemma OneMoreText(texts: seq<string>, i: nat, limit: int, minSize: int)
    requires i < |texts|
    ensures Chunks(texts[..i + 1], limit, minSize)
            == AddChunk(Chunks(texts[..i], limit, minSize), i, texts[i], limit, minSize)
  {
    assert texts[..i + 1][..i] == texts[..i];
  }

  method MergeSmallChunks(documents: seq<Document>, chunkSize: int, minSize: int) returns (merged: seq<Document>)
    requires AreDistinct(documents)
    modifies documents
    ensures Realizes(merged, documents, old(Contents(documents)),
                     Chunks(old(Contents(documents)), chunkSize * 2, minSize))
  {
    merged := [];
    if documents == [] {
      return;
    }
    ghost var texts := Contents(documents);
    ghost var chunks := Chunks(texts[..1], chunkSize * 2, minSize);
    OneMoreText(texts, 0, chunkSize * 2, minSize);
    var current := documents[0];
    for i := 1 to |documents|
      invariant chunks == Chunks(texts[..i], chunkSize * 2, minSize)
      invariant Realizes(merged + [current], documents, texts, chunks) && HeadsIncrease(chunks, i)
    {
      OneMoreText(texts, i, chunkSize * 2, minSize);
      AddKeepsHeads(chunks, i, texts[i], chunkSize * 2, minSize);
      merged, current := MergeOne(documents, i, merged, current, chunkSize * 2, minSize, texts, chunks);
      chunks := AddChunk(chunks, i, texts[i], chunkSize * 2, minSize);
    }
    assert texts[..|documents|] == texts;
    merged := merged + [current];
  }

  // One pass of the loop.
  method MergeOne(documents: seq<Document>, i: nat, merged: seq<Document>, current: Document, limit: int, minSize: int,
                  ghost texts: seq<string>, ghost chunks: seq<Chunk>)
    returns (merged': seq<Document>, current': Document)
    requires AreDistinct(documents) && |texts| == |documents| && i < |documents|
    requires Realizes(merged + [current], documents, texts, chunks) && HeadsIncrease(chunks, i)
    modifies documents
    ensures Realizes(merged' + [current'], documents, texts, AddChunk(chunks, i, texts[i], limit, minSize))
  {
    merged', current' := merged, current;
    var doc := documents[i];
    ghost var n := |chunks| - 1;
    assert (merged + [current])[n] == current && !IsHead(chunks, i);
    if |doc.pageContent| < minSize && |current.pageContent| < limit {
      GrowLast(documents, merged, current, doc, texts, chunks);
    } else {
      merged' := merged + [current];
      current' := doc;
      NewHead(documents, merged', doc, i, texts, chunks);
    }
  }

  method GrowLast(documents: seq<Document>, merged: seq<Document>, current: Document, doc: Document,
                  ghost texts: seq<string>, ghost chunks: seq<Chunk>)
    requires AreDistinct(documents) && |texts| == |documents| && chunks != []
    requires Realizes(merged + [current], documents, texts, chunks) && HeadsIncrease(chunks, |documents|)
    requires current in documents
    modifies current
    ensures var last := chunks[|chunks| - 1];
            Realizes(merged + [current], documents, texts,
                     chunks[..|chunks| - 1] + [Chunk(last.head, last.text + SEPARATOR + old(doc.pageContent))])
  {
    ghost var n := |chunks| - 1;
    assert (merged + [current])[n] == current == documents[chunks[n].head];
    ghost var grown := chunks[..n] + [Chunk(chunks[n].head, chunks[n].text + SEPARATOR + doc.pageContent)];
    current.pageContent := current.pageContent + SEPARATOR + doc.pageContent;
    forall k: nat | k < |documents| && !IsHead(grown, k)
      ensures documents[k].pageContent == texts[k]
    {
      assert grown[n].head == chunks[n].head;
      assert forall g | 0 <= g < n :: grown[g].head == chunks[g].head;
    }
  }

  lemma NewHead(documents: seq<Document>, outputs: seq<Document>, doc: Document, i: nat,
                texts: seq<string>, chunks: seq<Chunk>)
    requires |texts| == |documents| && i < |documents| && doc == documents[i] && !IsHead(chunks, i)
    requires Realizes(outputs, documents, texts, chunks)
    ensures Realizes(outputs + [doc], documents, texts, chunks + [Chunk(i, texts[i])])
  {
    var more := chunks + [Chunk(i, texts[i])];
    forall k: nat | k < |documents| && !IsHead(more, k)
      ensures documents[k].pageContent == texts[k]
    {
      assert more[|chunks|].head == i;
      assert forall g | 0 <= g < |chunks| :: more[g].head == chunks[g].head;
    }
  }

  // ----- What merging keeps -----

  function JoinText(parts: seq<string>): string {
    if parts == [] then ""
    else if |parts| == 1 then parts[0]
    else JoinText(parts[..|parts| - 1]) + SEPARATOR + parts[|parts| - 1]
  }

  lemma JoinMore(parts: seq<string>, part: string)
    requires parts != []
    ensures JoinText(parts + [part]) == JoinText(parts) + SEPARATOR + part
  {
    assert (parts + [part])[..|parts|] == parts;
  }

  lemma JoinLonger(parts: seq<string>, last: string, part: string)
    ensures JoinText(parts + [last + SEPARATOR + part]) == JoinText(parts + [last]) + SEPARATOR + part
  {
    if parts == [] {
      assert parts + [last] == [last] && parts + [last + SEPARATOR + part] == [last + SEPARATOR + part];
    } else {
      JoinMore(parts, last);
      JoinMore(parts, last + SEPARATOR + part);
      var front := JoinText(parts) + SEPARATOR;
      Associate(front, last, SEPARATOR);
      Associate(front, last + SEPARATOR, part);
    }
  }

  lemma JoinOfAdded(chunks: seq<Chunk>, n: nat, text: string, limit: int, minSize: int)
    requires chunks != []
    ensures JoinText(TextsOf(AddChunk(chunks, n, text, limit, minSize))) == JoinText(TextsOf(chunks)) + SEPARATOR + text
  {
    var more, last := AddChunk(chunks, n, text, limit, minSize), chunks[|chunks| - 1];
    if Absorbs(last, text, limit, minSize) {
      var front := TextsOf(chunks[..|chunks| - 1]);
      assert TextsOf(chunks) == front + [last.text] && TextsOf(more) == front + [last.text + SEPARATOR + text];
      JoinLonger(front, last.text, text);
    } else {
      assert TextsOf(more) == TextsOf(chunks) + [text];
      JoinMore(TextsOf(chunks), text);
    }
  }

  // Nothing is lost: the outputs joined by a blank line are the inputs joined by a blank line.
  lemma {:induction false} JoinIsKept(texts: seq<string>, limit: int, minSize: int)
    ensures JoinText(TextsOf(Chunks(texts, limit, minSize))) == JoinText(texts)
  {
    if |texts| == 1 {
      assert Chunks(texts[..0], limit, minSize) == [] && TextsOf([Chunk(0, texts[0])]) == texts;
    } else if texts != [] {
      var n := |texts| - 1;
      JoinIsKept(texts[..n], limit, minSize);
      JoinOfAdded(Chunks(texts[..n], limit, minSize), n, texts[n], limit, minSize);
    }
  }

  // ----- Contiguous groups -----

  // Where chunk g ends: at the head of the next, or with the documents.
  function End(chunks: seq<Chunk>, n: nat, g: nat): nat
    requires g < |chunks|
  {
    if g + 1 < |chunks| then chunks[g + 1].head else n
  }

  ghost predicate IsGroup(c: Chunk, texts: seq<string>, end: nat) {
    c.head < end <= |texts| && c.text == JoinText(texts[c.head..end])
  }

  lemma GroupStays(c: Chunk, texts: seq<string>, end: nat, more: seq<string>)
    requires IsGroup(c, texts, end)
    ensures IsGroup(c, texts + more, end)
  {
    assert (texts + more)[c.head..end] == texts[c.head..end];
  }

  lemma GroupGrows(c: Chunk, texts: seq<string>, text: string)
    requires IsGroup(c, texts, |texts|)
    ensures IsGroup(Chunk(c.head, c.text + SEPARATOR + text), texts + [text], |texts| + 1)
  {
    assert (texts + [text])[c.head..|texts| + 1] == texts[c.head..] + [text];
    assert texts[c.head..|texts|] == texts[c.head..];
    JoinMore(texts[c.head..], text);
  }

  lemma GroupStarts(texts: seq<string>, text: string)
    ensures IsGroup(Chunk(|texts|, text), texts + [text], |texts| + 1)
  {
    assert (texts + [text])[|texts|..|texts| + 1] == [text];
  }

  ghost predicate AreGroups(chunks: seq<Chunk>, texts: seq<string>) {
    forall g: nat | g < |chunks| :: IsGroup(chunks[g], texts, End(chunks, |texts|, g))
  }

  // Each chunk is the join of a run of documents that starts at its head and ends where the next
  // chunk starts.
  lemma {:induction false} ChunksAreGroups(texts: seq<string>, limit: int, minSize: int)
    ensures AreGroups(Chunks(texts, limit, minSize), texts)
  {
    if texts != [] {
      var init, text := texts[..|texts| - 1], texts[|texts| - 1];
      ChunksAreGroups(init, limit, minSize);
      AddedGroups(Chunks(init, limit, minSize), init, text, limit, minSize);
      assert texts == init + [text];
    }
  }

  lemma AddedGroups(chunks: seq<Chunk>, texts: seq<string>, text: string, limit: int, minSize: int)
    requires AreGroups(chunks, texts)
    ensures AreGroups(AddChunk(chunks, |texts|, text, limit, minSize), texts + [text])
  {
    var more := AddChunk(chunks, |texts|, text, limit, minSize);
    forall g: nat | g < |more|
      ensures IsGroup(more[g], texts + [text], End(more, |texts| + 1, g))
    {
      if g + 1 < |more| {
        GroupStays(chunks[g], texts, End(chunks, |texts|, g), [text]);
      } else if |more| == |chunks| {
        GroupGrows(chunks[g], texts, text);
      } else {
        GroupStarts(texts, text);
      }
    }
  }

  // ----- Sizes -----

  // A chunk is no longer than the text that heads it, or than twice the chunk size and the least size.
  ghost predicate IsSmall(c: Chunk, texts: seq<string>, limit: int, minSize: int) {
    c.head < |texts| && (|c.text| <= |texts[c.head]| || |c.text| <= limit + minSize)
  }

  // At a boundary the next head is not small, or the chunk before it was full.
  ghost predicate IsBoundary(before: Chunk, next: Chunk, texts: seq<string>, limit: int, minSize: int) {
    next.head < |texts| && (|texts[next.head]| >= minSize || |before.text| >= limit)
  }

  ghost predicate SizesFit(chunks: seq<Chunk>, texts: seq<string>, limit: int, minSize: int) {
    && (forall g | 0 <= g < |chunks| :: IsSmall(chunks[g], texts, limit, minSize))
    && (forall g | 0 < g < |chunks| :: IsBoundary(chunks[g - 1], chunks[g], texts, limit, minSize))
  }

  lemma SizesStay(chunks: seq<Chunk>, texts: seq<string>, text: string, limit: int, minSize: int)
    requires SizesFit(chunks, texts, limit, minSize)
    ensures SizesFit(chunks, texts + [text], limit, minSize)
  {
    assert forall i | 0 <= i < |texts| :: (texts + [text])[i] == texts[i];
  }

  lemma LastMayGrow(chunks: seq<Chunk>, texts: seq<string>, last: Chunk, limit: int, minSize: int)
    requires chunks != [] && SizesFit(chunks, texts, limit, minSize)
    requires last.head == chunks[|chunks| - 1].head && |last.text| <= limit + minSize
    ensures SizesFit(chunks[..|chunks| - 1] + [last], texts, limit, minSize)
  {}

  lemma MayStart(chunks: seq<Chunk>, texts: seq<string>, next: Chunk, limit: int, minSize: int)
    requires SizesFit(chunks, texts, limit, minSize) && next.head < |texts| && next.text == texts[next.head]
    requires chunks != [] ==> IsBoundary(chunks[|chunks| - 1], next, texts, limit, minSize)
    ensures SizesFit(chunks + [next], texts, limit, minSize)
  {}

  lemma AddedSizes(chunks: seq<Chunk>, texts: seq<string>, text: string, limit: int, minSize: int)
    requires SizesFit(chunks, texts, limit, minSize)
    ensures SizesFit(AddChunk(chunks, |texts|, text, limit, minSize), texts + [text], limit, minSize)
  {
    SizesStay(chunks, texts, text, limit, minSize);
    if chunks != [] && Absorbs(chunks[|chunks| - 1], text, limit, minSize) {
      var last := chunks[|chunks| - 1];
      LastMayGrow(chunks, texts + [text], Chunk(last.head, last.text + SEPARATOR + text), limit, minSize);
    } else {
      MayStart(chunks, texts + [text], Chunk(|texts|, text), limit, minSize);
    }
  }

  lemma {:induction false} ChunkSizesFit(texts: seq<string>, limit: int, minSize: int)
    ensures SizesFit(Chunks(texts, limit, minSize), texts, limit, minSize)
  {
    if texts != [] {
      var n := |texts| - 1;
      ChunkSizesFit(texts[..n], limit, minSize);
      assert texts == texts[..n] + [texts[n]];
      AddedSizes(Chunks(texts[..n], limit, minSize), texts[..n], texts[n], limit, minSize);
    }
  }

  // ----- Where chunks start -----

  // The text of document n heads a chunk: it is the first, or it is not small, or the chunk before it
  // was full when it came.
  ghost predicate Heads(texts: seq<string>, n: nat, limit: int, minSize: int)
    requires n < |texts|
  {
    || n == 0 || |texts[n]| >= minSize
    || var before := Chunks(texts[..n], limit, minSize); before != [] && |before[|before| - 1].text| >= limit
  }

  // A document heads a chunk exactly then; if not, its text goes to the end of the chunk before, after
  // two line feeds.
  lemma {:induction false} HeadsExactlyWhen(texts: seq<string>, limit: int, minSize: int)
    requires texts != []
    ensures var (n, before, after) := (|texts| - 1, Chunks(texts[..|texts| - 1], limit, minSize),
                                       Chunks(texts, limit, minSize));
            if Heads(texts, n, limit, minSize) then
              && |after| == |before| + 1 && after[..|before|] == before
              && after[|before|].head == n && after[|before|].text == texts[n]
            else
              && |after| == |before| > 0 && after[..|before| - 1] == before[..|before| - 1]
              && after[|before| - 1].head == before[|before| - 1].head
              && after[|before| - 1].text == before[|before| - 1].text + "\n\n" + texts[n]
  {}

  lemma HeadsStay(before: seq<Chunk>, after: seq<Chunk>, n: nat, starts: bool)
    requires HeadsIncrease(before, n) && |after| == |before| + if starts then 1 else 0
    requires forall g | 0 <= g < |before| :: after[g].head == before[g].head
    requires starts ==> after[|before|].head == n
    ensures forall k: nat | k < n :: IsHead(after, k) <==> IsHead(before, k)
    ensures IsHead(after, n) <==> starts
  {
    forall k: nat | k < n && IsHead(before, k)
      ensures IsHead(after, k)
    {
      var g :| 0 <= g < |before| && before[g].head == k;
      assert after[g].head == k;
    }
  }

  lemma LastTextHeads(texts: seq<string>, limit: int, minSize: int)
    requires texts != []
    ensures var (n, before, after) := (|texts| - 1, Chunks(texts[..|texts| - 1], limit, minSize),
                                       Chunks(texts, limit, minSize));
            && (forall k: nat | k < n :: IsHead(after, k) <==> IsHead(before, k))
            && (IsHead(after, n) <==> Heads(texts, n, limit, minSize))
  {
    var n := |texts| - 1;
    ChunkHeadsIncrease(texts[..n], limit, minSize);
    HeadsExactlyWhen(texts, limit, minSize);
    HeadsStay(Chunks(texts[..n], limit, minSize), Chunks(texts, limit, minSize), n, Heads(texts, n, limit, minSize));
  }

  lemma HeadsInPrefix(texts: seq<string>, n: nat, k: nat, limit: int, minSize: int)
    requires k < n <= |texts|
    ensures Heads(texts[..n], k, limit, minSize) <==> Heads(texts, k, limit, minSize)
  {
    assert texts[..n][..k] == texts[..k];
  }

  // Only small texts that come while the chunk before is not full are absorbed: every document that
  // heads no chunk of the result is one.
  lemma {:induction false} AbsorbedAreSmall(texts: seq<string>, limit: int, minSize: int, k: nat)
    requires k < |texts|
    ensures IsHead(Chunks(texts, limit, minSize), k) <==> Heads(texts, k, limit, minSize)
    decreases |texts|
  {
    var n := |texts| - 1;
    LastTextHeads(texts, limit, minSize);
    if k < n {
      AbsorbedAreSmall(texts[..n], limit, minSize, k);
      HeadsInPrefix(texts, n, k, limit, minSize);
    }
  }
}
