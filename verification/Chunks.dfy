/** Strings held as lists of chunks, and copying them out in pieces of other sizes. */
module Chunks {
  import opened Blocks
  import opened Sequences

  /** The bytes of a string held as a list of chunks of any sizes, from chunk `c` on. */
  function FlatFrom(chunks: seq<Data>, c: nat): Data
    decreases |chunks| - c
  {
    if c < |chunks| then chunks[c] + FlatFrom(chunks, c + 1) else []
  }

  function Flat(chunks: seq<Data>): Data {
    FlatFrom(chunks, 0)
  }

  /** The bytes not yet copied when `off` bytes of chunk `c` have been. */
  function Unread(chunks: seq<Data>, c: nat, off: nat): Data
    requires c < |chunks| ==> off <= |chunks[c]|
  {
    if c < |chunks| then chunks[c][off..] + FlatFrom(chunks, c + 1) else []
  }

  lemma RestFromStart(chunks: seq<Data>, c: nat)
    ensures Unread(chunks, c, 0) == FlatFrom(chunks, c)
  {
    assert c < |chunks| ==> chunks[c][0..] == chunks[c];
  }

  lemma RestStep(chunks: seq<Data>, c: nat, off: nat, run: Data)
    requires c < |chunks| && off + |run| <= |chunks[c]| && run == chunks[c][off..off + |run|]
    ensures Unread(chunks, c, off) == run + Unread(chunks, c, off + |run|)
    ensures off + |run| == |chunks[c]| ==> Unread(chunks, c, off) == run + Unread(chunks, c + 1, 0)
  {
    DropPrefix(chunks[c], FlatFrom(chunks, c + 1), off, run);
    RestFromStart(chunks, c + 1);
  }

  lemma DropPrefix(s: Data, tail: Data, off: nat, run: Data)
    requires off + |run| <= |s| && run == s[off..off + |run|]
    ensures s[off..] + tail == run + (s[off + |run|..] + tail)
    ensures off + |run| == |s| ==> s[off..] + tail == run + tail
  {
    assert s[off..] == run + s[off + |run|..];
    AddAssoc(run, s[off + |run|..], tail);
  }

  /** The copying has reached byte `off` of chunk `c`, and `done` is all it has copied. */
  ghost predicate Copied(chunks: seq<Data>, c: nat, off: nat, done: Data) {
    && (c < |chunks| ==> off <= |chunks[c]|)
    && done + Unread(chunks, c, off) == Flat(chunks)
  }

  lemma CopiedStart(chunks: seq<Data>)
    ensures Copied(chunks, 0, 0, [])
  {
    RestFromStart(chunks, 0);
    assert [] + Flat(chunks) == Flat(chunks);
  }

  lemma CopiedBound(chunks: seq<Data>, c: nat, off: nat, done: Data)
    requires Copied(chunks, c, off, done)
    ensures |done| < |Flat(chunks)| ==> c < |chunks|
    ensures |done| == |Flat(chunks)| ==> done == Flat(chunks)
  {
    assert Flat(chunks) == done + Unread(chunks, c, off);
  }

  lemma CopiedStep(chunks: seq<Data>, c: nat, off: nat, done: Data, run: Data, c': nat, off': nat)
    requires Copied(chunks, c, off, done)
    requires c < |chunks| && off + |run| <= |chunks[c]| && run == chunks[c][off..off + |run|]
    requires if off + |run| == |chunks[c]| then c' == c + 1 && off' == 0 else c' == c && off' == off + |run|
    ensures Copied(chunks, c', off', done + run)
  {
    RestStep(chunks, c, off, run);
    AddAssoc(done, run, Unread(chunks, c', off'));
  }

  /** Copy at most `n` bytes from one chunk, and pass on to the next chunk at its end. */
  method CopyRun(chunks: seq<Data>, c: nat, off: nat, n: nat, ghost done: Data) returns (run: Data, c': nat, off': nat)
    requires c < |chunks| && Copied(chunks, c, off, done)
    ensures |run| <= n && Copied(chunks, c', off', done + run)
    ensures c' == c + 1 || (c' == c && |run| == n)
  {
    var bytes := |chunks[c]| - off;
    var x := if n < bytes then n else bytes;
    run, c', off' := chunks[c][off..off + x], c, off + x;
    assert |run| == x;
    if off' == |chunks[c]| {
      c', off' := c + 1, 0;
    }
    CopiedStep(chunks, c, off, done, run, c', off');
  }

  /** Copy the next `n` bytes, whatever chunks they lie in. */
  method CopyPiece(chunks: seq<Data>, c: nat, off: nat, n: nat, ghost done: Data)
    returns (piece: Data, c': nat, off': nat)
    requires Copied(chunks, c, off, done) && |done| + n <= |Flat(chunks)|
    ensures |piece| == n && Copied(chunks, c', off', done + piece)
  {
    piece, c', off' := [], c, off;
    var left := n;
    assert done + piece == done;
    while left != 0
      invariant 0 <= left <= n && |piece| == n - left
      invariant Copied(chunks, c', off', done + piece)
      decreases |chunks| - c', left
    {
      var run;
      CopiedBound(chunks, c', off', done + piece);
      run, c', off' := CopyRun(chunks, c', off', left, done + piece);
      AddAssoc(done, piece, run);
      piece, left := piece + run, left - |run|;
    }
  }
}
