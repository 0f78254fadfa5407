/** Byte streams cut into chunks. */
module Chunks {
  type Bytes = seq<bv8>

  function Joined(chunks: seq<Bytes>): Bytes {
    if chunks == [] then [] else chunks[0] + Joined(chunks[1..])
  }

  lemma {:induction false} JoinedTogether(a: seq<Bytes>, b: seq<Bytes>)
    ensures Joined(a + b) == Joined(a) + Joined(b)
  {
    if a == [] {
      assert a + b == b;
    } else {
      assert (a + b)[1..] == a[1..] + b;
      JoinedTogether(a[1..], b);
    }
  }

  lemma JoinedOne(chunk: Bytes)
    ensures Joined([chunk]) == chunk
  {
    assert Joined([chunk][1..]) == [];
  }

  lemma JoinedOneMore(chunks: seq<Bytes>, i: nat)
    requires i < |chunks|
    ensures Joined(chunks[..i + 1]) == Joined(chunks[..i]) + chunks[i]
  {
    hide Joined;
    assert chunks[..i + 1] == chunks[..i] + [chunks[i]];
    JoinedTogether(chunks[..i], [chunks[i]]);
    JoinedOne(chunks[i]);
  }

  lemma JoinedSplit(chunks: seq<Bytes>, i: nat)
    requires i <= |chunks|
    ensures Joined(chunks) == Joined(chunks[..i]) + Joined(chunks[i..])
  {
    assert chunks == chunks[..i] + chunks[i..];
    JoinedTogether(chunks[..i], chunks[i..]);
  }
}
