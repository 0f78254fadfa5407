/** Searching a file for secrets chunk by chunk (kigumi/pi.py), and the bounded evidence buffers. */
module SecretSearch {
  import opened Chunks

  predicate OccursAt(needle: Bytes, s: Bytes, i: nat) {
    i + |needle| <= |s| && s[i..i + |needle|] == needle
  }

  ghost predicate Occurs(needle: Bytes, s: Bytes) {
    exists i: nat :: OccursAt(needle, s, i)
  }

  /** `needle in searchable`. */
  method Contains(s: Bytes, needle: Bytes) returns (found: bool)
    ensures found <==> Occurs(needle, s)
  {
    var i := 0;
    while i + |needle| <= |s|
      invariant forall j: nat :: j < i ==> !OccursAt(needle, s, j)
    {
      if s[i..i + |needle|] == needle {
        assert OccursAt(needle, s, i);
        return true;
      }
      i := i + 1;
    }
    return false;
  }

  ghost predicate AnyOccurs(needles: seq<Bytes>, s: Bytes) {
    exists k :: 0 <= k < |needles| && Occurs(needles[k], s)
  }

  method ContainsAny(s: Bytes, needles: seq<Bytes>) returns (found: bool)
    ensures found <==> AnyOccurs(needles, s)
  {
    for k := 0 to |needles|
      invariant forall j :: 0 <= j < k ==> !Occurs(needles[j], s)
    {
      var hit := Contains(s, needles[k]);
      if hit {
        return true;
      }
    }
    return false;
  }

  function Longest(needles: seq<Bytes>): (n: nat)
    requires needles != []
    ensures forall k :: 0 <= k < |needles| ==> |needles[k]| <= n
    ensures exists k :: 0 <= k < |needles| && |needles[k]| == n
  {
    var last := |needles[|needles| - 1]|;
    if |needles| == 1 then last
    else
      var rest := Longest(needles[..|needles| - 1]);
      if rest >= last then rest else last
  }

  /** `s[-n:]` for n > 0, and nothing for n = 0. */
  function Tail(s: Bytes, n: nat): Bytes {
    if n == 0 then [] else if |s| <= n then s else s[|s| - n..]
  }

  /** An occurrence in part of a text is one in the whole, and one within a part is one in that part. */
  lemma Shifted(needle: Bytes, before: Bytes, s: Bytes, i: nat)
    ensures OccursAt(needle, s, i) <==> OccursAt(needle, before + s, |before| + i)
  {
    if i + |needle| <= |s| {
      assert (before + s)[|before| + i..|before| + i + |needle|] == s[i..i + |needle|];
    }
  }

  lemma Extended(needle: Bytes, s: Bytes, after: Bytes, i: nat)
    requires i + |needle| <= |s|
    ensures OccursAt(needle, s, i) <==> OccursAt(needle, s + after, i)
  {
    assert (s + after)[i..i + |needle|] == s[i..i + |needle|];
  }

  /** A needle that is new in `seen + chunk` begins within the overlap that was kept. */
  lemma NewHitIsInWindow(needle: Bytes, seen: Bytes, chunk: Bytes, n: nat)
    requires 0 < |needle| <= n + 1 && !Occurs(needle, seen)
    ensures Occurs(needle, seen + chunk) <==> Occurs(needle, Tail(seen, n) + chunk)
  {
    hide OccursAt;
    var tail := Tail(seen, n);
    var before := seen[..|seen| - |tail|];
    assert seen + chunk == before + (tail + chunk);
    if Occurs(needle, seen + chunk) {
      var i: nat :| OccursAt(needle, seen + chunk, i);
      if i + |needle| <= |seen| {
        Extended(needle, seen, chunk, i);
      }
      Shifted(needle, before, tail + chunk, i - |before|);
    }
    if Occurs(needle, tail + chunk) {
      var i: nat :| OccursAt(needle, tail + chunk, i);
      Shifted(needle, before, tail + chunk, i);
    }
  }

  /** The overlap after a chunk is the tail of everything seen. */
  lemma OverlapIsTail(seen: Bytes, chunk: Bytes, n: nat)
    ensures Tail(Tail(seen, n) + chunk, n) == Tail(seen + chunk, n)
  {
    if n > 0 && |seen| > n {
      var tail := seen[|seen| - n..];
      assert seen + chunk == seen[..|seen| - n] + (tail + chunk);
    }
  }

  lemma WindowDecides(needles: seq<Bytes>, seen: Bytes, chunk: Bytes)
    requires needles != [] && (forall k :: 0 <= k < |needles| ==> needles[k] != []) && !AnyOccurs(needles, seen)
    ensures AnyOccurs(needles, seen + chunk) <==> AnyOccurs(needles, Tail(seen, Longest(needles) - 1) + chunk)
  {
    hide Occurs;
    hide Tail;
    hide Longest;
    var window, whole := Tail(seen, Longest(needles) - 1) + chunk, seen + chunk;
    forall k | 0 <= k < |needles|
      ensures Occurs(needles[k], whole) <==> Occurs(needles[k], window)
    {
      assert needles[k] != [] && !Occurs(needles[k], seen);
      NewHitIsInWindow(needles[k], seen, chunk, Longest(needles) - 1);
    }
  }

  lemma HitsStay(needles: seq<Bytes>, s: Bytes, x: Bytes)
    ensures AnyOccurs(needles, s) ==> AnyOccurs(needles, s + x)
  {
    if AnyOccurs(needles, s) {
      var k :| 0 <= k < |needles| && Occurs(needles[k], s);
      var i: nat :| OccursAt(needles[k], s, i);
      Extended(needles[k], s, x, i);
      assert Occurs(needles[k], s + x);
    }
  }

  /**
    The loop of `_assert_workspace_secrets_absent` over one file: however it is cut into chunks, a
    hit is reported exactly when some secret occurs in the whole file.
   */
  method SearchChunks(chunks: seq<Bytes>, needles: seq<Bytes>) returns (found: bool)
    requires forall k :: 0 <= k < |needles| ==> needles[k] != []
    ensures found <==> AnyOccurs(needles, Joined(chunks))
  {
    if needles == [] {
      return false;
    }
    var overlapBytes := Longest(needles) - 1;
    var overlap: Bytes := [];
    for i := 0 to |chunks|
      invariant !AnyOccurs(needles, Joined(chunks[..i]))
      invariant overlap == Tail(Joined(chunks[..i]), overlapBytes)
    {
      ghost var seen := Joined(chunks[..i]);
      JoinedOneMore(chunks, i);
      var searchable := overlap + chunks[i];
      var hit := ContainsAny(searchable, needles);
      WindowDecides(needles, seen, chunks[i]);
      if hit {
        JoinedSplit(chunks, i + 1);
        HitsStay(needles, Joined(chunks[..i + 1]), Joined(chunks[i + 1..]));
        return true;
      }
      OverlapIsTail(seen, chunks[i], overlapBytes);
      overlap := Tail(searchable, overlapBytes);
    }
    assert chunks[..|chunks|] == chunks;
    return false;
  }

  // -------------------------------------------------------- evidence buffers

  class Buffer {
    var data: Bytes

    constructor ()
      ensures data == []
    {
      data := [];
    }

    /** `_append_bounded`: keeps as much as fits and says whether that was all. */
    method AppendBounded(more: Bytes, limit: nat) returns (whole: bool)
      modifies this
      ensures old(data) <= data && data <= old(data) + more
      ensures |old(data)| <= limit ==> |data| <= limit
      ensures whole <==> data == old(data) + more
      ensures !whole ==> |data| >= limit
    {
      var remaining := if limit > |data| then limit - |data| else 0;
      whole := |more| <= remaining;
      var kept := if whole then more else more[..remaining];
      data := data + kept;
    }

    /** `_append_record_bounded`: all or nothing. */
    method AppendRecordBounded(record: Bytes, limit: nat) returns (fits: bool)
      modifies this
      ensures fits <==> |old(data)| + |record| <= limit
      ensures data == if fits then old(data) + record else old(data)
    {
      fits := |data| + |record| <= limit;
      if fits {
        data := data + record;
      }
    }
  }
}
