/**
  The JSON Lines framer over the standard output of a Pi process (kigumi/pi.py): bytes arrive in
  chunks cut anywhere, and whole records are handed on as soon as their newline is there.
 */
module Framing {
  import opened Wrappers
  import opened Chunks

  const LF: bv8 := 10
  const CR: bv8 := 13

  datatype Fault = TooLong | StrictLf | EmptyRecord | Rejected | Partial

  /** What is made of a record, given all records handed on before it. */
  datatype Verdict = Accept | Settle | Reject

  type Judge = (seq<Bytes>, Bytes) -> Verdict

  datatype Outcome = Settled | Failed(fault: Fault) | Exited

  /** Where the first newline is; the length when there is none. */
  function FirstNewline(s: Bytes): (n: nat)
    ensures n <= |s| && (n < |s| ==> s[n] == LF) && forall i :: 0 <= i < n ==> s[i] != LF
  {
    if s == [] then 0
    else if s[0] == LF then 0
    else 1 + FirstNewline(s[1..])
  }

  function LineFault(line: Bytes, limit: nat): Option<Fault> {
    if |line| + 1 > limit then Some(TooLong)
    else if |line| > 0 && line[|line| - 1] == CR then Some(StrictLf)
    else if line == [] then Some(EmptyRecord)
    else None
  }

  // ----------------------------------------------- the stream as one piece

  /** The records handed on and how it ends, for a whole stream, stopping at the settling record. */
  function Walk(limit: nat, judge: Judge, s: Bytes, handed: seq<Bytes>): (seq<Bytes>, Outcome)
    decreases |s|
  {
    var n := FirstNewline(s);
    if n == |s| then (handed, if |s| > limit then Failed(TooLong) else if s != [] then Failed(Partial) else Exited)
    else
      var line := s[..n];
      if LineFault(line, limit).Some? then (handed, Failed(LineFault(line, limit).value))
      else match judge(handed, line)
        case Reject => (handed, Failed(Rejected))
        case Settle => (handed + [line], Settled)
        case Accept => Walk(limit, judge, s[n + 1..], handed + [line])
  }

  // ------------------------------------------------------ chunk by chunk

  datatype Drained = Drained(buffer: Bytes, handed: seq<Bytes>, settled: bool, fault: Option<Fault>)

  /** The inner loop: every complete record in the buffer, also after one that settles. */
  function Drain(limit: nat, judge: Judge, buffer: Bytes, handed: seq<Bytes>, settled: bool): Drained
    decreases |buffer|
  {
    var n := FirstNewline(buffer);
    if n == |buffer| then
      Drained(buffer, handed, settled, if |buffer| > limit then Some(TooLong) else None)
    else
      var line := buffer[..n];
      var rest := buffer[n + 1..];
      if LineFault(line, limit).Some? then Drained(rest, handed, settled, LineFault(line, limit))
      else match judge(handed, line)
        case Reject => Drained(rest, handed, settled, Some(Rejected))
        case Settle => Drain(limit, judge, rest, handed + [line], true)
        case Accept => Drain(limit, judge, rest, handed + [line], settled)
  }

  /** The outer loop over the chunks that arrive. */
  function Feed(limit: nat, judge: Judge, chunks: seq<Bytes>, buffer: Bytes, handed: seq<Bytes>): (seq<Bytes>, Outcome)
    decreases |chunks|
  {
    if chunks == [] then (handed, if buffer != [] then Failed(Partial) else Exited)
    else
      var d := Drain(limit, judge, buffer + chunks[0], handed, false);
      if d.fault.Some? then (d.handed, Failed(d.fault.value))
      else if d.settled then (d.handed, Settled)
      else Feed(limit, judge, chunks[1..], d.buffer, d.handed)
  }

  /** The loops of `PiRpcAdapter.run`. */
  method Frame(limit: nat, judge: Judge, chunks: seq<Bytes>) returns (handed: seq<Bytes>, outcome: Outcome)
    ensures (handed, outcome) == Feed(limit, judge, chunks, [], [])
  {
    var buffer: Bytes := [];
    handed := [];
    var next := 0;
    var settled := false;
    while !settled
      invariant 0 <= next <= |chunks|
      invariant !settled ==> Feed(limit, judge, chunks[next..], buffer, handed) == Feed(limit, judge, chunks, [], [])
      invariant settled ==> (handed, Settled) == Feed(limit, judge, chunks, [], [])
      decreases !settled, |chunks| - next
    {
      if next == |chunks| {
        return handed, if buffer != [] then Failed(Partial) else Exited;
      }
      ghost var whole := Drain(limit, judge, buffer + chunks[next], handed, false);
      assert chunks[next..][0] == chunks[next] && chunks[next..][1..] == chunks[next + 1..];
      buffer := buffer + chunks[next];
      next := next + 1;
      var newline := FirstNewline(buffer);
      while newline < |buffer|
        invariant newline == FirstNewline(buffer)
        invariant Drain(limit, judge, buffer, handed, settled) == whole
        decreases |buffer|
      {
        var line := buffer[..newline];
        buffer := buffer[newline + 1..];
        var fault := LineFault(line, limit);
        if fault.Some? {
          return handed, Failed(fault.value);
        }
        var verdict := judge(handed, line);
        if verdict.Reject? {
          return handed, Failed(Rejected);
        }
        handed := handed + [line];
        if verdict.Settle? {
          settled := true;
        }
        newline := FirstNewline(buffer);
      }
      if |buffer| > limit {
        return handed, Failed(TooLong);
      }
    }
    outcome := Settled;
  }

  // ------------------------------------------------------ chunk independence

  /** More bytes do not move a newline that is already there. */
  lemma {:induction false} NewlineStays(s: Bytes, x: Bytes)
    requires FirstNewline(s) < |s|
    ensures FirstNewline(s + x) == FirstNewline(s)
  {
    if s[0] != LF {
      assert (s + x)[1..] == s[1..] + x;
      NewlineStays(s[1..], x);
    }
  }

  /** An unfinished record over the limit fails the same way whatever follows. */
  lemma TooLongAlready(limit: nat, judge: Judge, s: Bytes, x: Bytes, handed: seq<Bytes>)
    requires FirstNewline(s) == |s| && |s| > limit
    ensures Walk(limit, judge, s + x, handed) == (handed, Failed(TooLong))
  {
    assert forall i :: 0 <= i < |s| ==> (s + x)[i] == s[i];
  }

  /** Handing on only ever adds records. */
  lemma {:induction false} DrainAdds(limit: nat, judge: Judge, buffer: Bytes, handed: seq<Bytes>, settled: bool)
    ensures handed <= Drain(limit, judge, buffer, handed, settled).handed
    ensures settled ==> Drain(limit, judge, buffer, handed, settled).settled
    decreases |buffer|
  {
    hide FirstNewline;
    hide LineFault;
    var n := FirstNewline(buffer);
    if n < |buffer| && LineFault(buffer[..n], limit).None? && !judge(handed, buffer[..n]).Reject? {
      DrainAdds(limit, judge, buffer[n + 1..], handed + [buffer[..n]], settled || judge(handed, buffer[..n]).Settle?);
    }
  }

  /** One drained chunk is where the walk over the same bytes, and whatever follows them, stands. */
  lemma {:induction false} DrainFollowsWalk(limit: nat, judge: Judge, buffer: Bytes, handed: seq<Bytes>, x: Bytes)
    ensures var d := Drain(limit, judge, buffer, handed, false);
            var (records, outcome) := Walk(limit, judge, buffer + x, handed);
            if d.settled then outcome.Settled? && records <= d.handed
            else if d.fault.Some? then (records, outcome) == (d.handed, Failed(d.fault.value))
            else Walk(limit, judge, d.buffer + x, d.handed) == (records, outcome) && |d.buffer| <= limit
                 && FirstNewline(d.buffer) == |d.buffer|
    decreases |buffer|
  {
    hide FirstNewline;
    hide LineFault;
    var n := FirstNewline(buffer);
    if n == |buffer| {
      if |buffer| > limit {
        TooLongAlready(limit, judge, buffer, x, handed);
      }
    } else {
      NewlineStays(buffer, x);
      var line := buffer[..n];
      assert (buffer + x)[..n] == line && (buffer + x)[n + 1..] == buffer[n + 1..] + x;
      if LineFault(line, limit).None? {
        match judge(handed, line)
        case Reject =>
        case Settle => DrainAdds(limit, judge, buffer[n + 1..], handed + [line], true);
        case Accept => DrainFollowsWalk(limit, judge, buffer[n + 1..], handed + [line], x);
      }
    }
  }

  /**
    However the bytes are cut into chunks, the records handed on up to the settling one, and any
    failure before it, are those of the stream as a whole.
   */
  lemma {:induction false} ChunksDoNotMatter(limit: nat, judge: Judge, chunks: seq<Bytes>, buffer: Bytes,
                                             handed: seq<Bytes>)
    requires FirstNewline(buffer) == |buffer| && |buffer| <= limit
    ensures var (records, outcome) := Walk(limit, judge, buffer + Joined(chunks), handed);
            var (records', outcome') := Feed(limit, judge, chunks, buffer, handed);
            if outcome.Settled? then records <= records' else (records', outcome') == (records, outcome)
    ensures Feed(limit, judge, chunks, buffer, handed).1.Settled? ==>
              Walk(limit, judge, buffer + Joined(chunks), handed).1.Settled?
    decreases |chunks|
  {
    if chunks == [] {
      assert buffer + Joined(chunks) == buffer;
    } else {
      var x := Joined(chunks[1..]);
      assert buffer + Joined(chunks) == (buffer + chunks[0]) + x;
      DrainFollowsWalk(limit, judge, buffer + chunks[0], handed, x);
      var d := Drain(limit, judge, buffer + chunks[0], handed, false);
      if d.fault.None? && !d.settled {
        ChunksDoNotMatter(limit, judge, chunks[1..], d.buffer, d.handed);
      }
    }
  }

  // ------------------------------------------------- records are the lines

  /** Records as they stood in the stream: each followed by its newline. */
  function Lines(records: seq<Bytes>): Bytes {
    if records == [] then [] else Lines(records[..|records| - 1]) + records[|records| - 1] + [LF]
  }

  predicate Line(record: Bytes, limit: nat) {
    LF !in record && 0 < |record| < limit && record[|record| - 1] != CR
  }

  lemma LinesOfOneMore(records: seq<Bytes>, line: Bytes, rest: Bytes)
    ensures Lines(records + [line]) + rest == Lines(records) + (line + [LF] + rest)
  {
    assert (records + [line])[..|records|] == records;
  }

  lemma CutAt<T>(s: seq<T>, n: nat, x: T)
    requires n < |s| && s[n] == x
    ensures s == s[..n] + [x] + s[n + 1..]
  {
  }

  lemma NotBefore<T>(s: seq<T>, n: nat, x: T)
    requires n <= |s| && forall i :: 0 <= i < n ==> s[i] != x
    ensures x !in s[..n]
  {
  }

  lemma CutAtNewline(s: Bytes)
    ensures var n := FirstNewline(s);
            LF !in s[..n] && (n < |s| ==> s == s[..n] + [LF] + s[n + 1..])
  {
    hide FirstNewline;
    var n := FirstNewline(s);
    NotBefore(s, n, LF);
    if n < |s| {
      CutAt(s, n, LF);
    }
  }

  lemma FaultlessIsLine(line: Bytes, limit: nat)
    requires LF !in line
    ensures LineFault(line, limit).None? <==> Line(line, limit)
  {
  }

  /** Draining a buffer takes whole lines off its front; without a fault nothing else goes. */
  lemma {:induction false} DrainTakesLines(limit: nat, judge: Judge, buffer: Bytes, handed: seq<Bytes>, settled: bool)
    ensures var d := Drain(limit, judge, buffer, handed, settled);
            && handed <= d.handed && (forall i :: |handed| <= i < |d.handed| ==> Line(d.handed[i], limit))
            && Lines(d.handed) <= Lines(handed) + buffer
            && (d.fault.None? ==> Lines(d.handed) + d.buffer == Lines(handed) + buffer && LF !in d.buffer)
    decreases |buffer|
  {
    hide LineFault;
    hide Line;
    hide Lines;
    hide FirstNewline;
    var n := FirstNewline(buffer);
    CutAtNewline(buffer);
    assert buffer[..|buffer|] == buffer;
    if n < |buffer| {
      var line := buffer[..n];
      FaultlessIsLine(line, limit);
      LinesOfOneMore(handed, line, buffer[n + 1..]);
      if LineFault(line, limit).None? && !judge(handed, line).Reject? {
        DrainTakesLines(limit, judge, buffer[n + 1..], handed + [line], settled || judge(handed, line).Settle?);
      }
    }
  }

  /**
    However the bytes are cut and however the run ends, the records handed on, each followed by its newline, are
    a prefix of the stream, and all of it when the process just exits; and every one of them is a proper line.
   */
  lemma {:induction false} RecordsAreTheLines(limit: nat, judge: Judge, chunks: seq<Bytes>, buffer: Bytes,
                                              handed: seq<Bytes>)
    ensures var (records, outcome) := Feed(limit, judge, chunks, buffer, handed);
            && handed <= records && (forall i :: |handed| <= i < |records| ==> Line(records[i], limit))
            && Lines(records) <= Lines(handed) + (buffer + Joined(chunks))
            && (outcome.Exited? ==> Lines(records) == Lines(handed) + (buffer + Joined(chunks)))
    decreases |chunks|
  {
    hide Drain;
    hide Line;
    hide Lines;
    if chunks == [] {
      assert buffer + Joined(chunks) == buffer;
    } else {
      var x := Joined(chunks[1..]);
      var d := Drain(limit, judge, buffer + chunks[0], handed, false);
      DrainTakesLines(limit, judge, buffer + chunks[0], handed, false);
      assert buffer + Joined(chunks) == (buffer + chunks[0]) + x;
      assert Lines(handed) + (buffer + chunks[0] + x) == (Lines(handed) + (buffer + chunks[0])) + x;
      if d.fault.None? && !d.settled {
        RecordsAreTheLines(limit, judge, chunks[1..], d.buffer, d.handed);
        assert Lines(d.handed) + (d.buffer + x) == (Lines(d.handed) + d.buffer) + x;
      }
    }
  }

  /** Two ways of cutting the same bytes agree on everything up to the settling record. */
  lemma AnyTwoCutsAgree(limit: nat, judge: Judge, chunks: seq<Bytes>, others: seq<Bytes>)
    requires Joined(chunks) == Joined(others)
    ensures var (records, outcome) := Walk(limit, judge, Joined(chunks), []);
            var (left, l) := Feed(limit, judge, chunks, [], []);
            var (right, r) := Feed(limit, judge, others, [], []);
            && (if outcome.Settled? then records <= left && records <= right
                else (left, l) == (right, r) == (records, outcome))
  {
    assert [] + Joined(chunks) == Joined(chunks) && [] + Joined(others) == Joined(others);
    ChunksDoNotMatter(limit, judge, chunks, [], []);
    ChunksDoNotMatter(limit, judge, others, [], []);
  }

  /**
    A record is taken exactly when it, with its newline, is within the limit, not empty and without a carriage return.
   */
  lemma RecordLengthIsExact(limit: nat, judge: Judge, line: Bytes, x: Bytes, handed: seq<Bytes>)
    requires forall i :: 0 <= i < |line| ==> line[i] != LF
    requires judge(handed, line).Accept?
    ensures var s := line + [LF] + x;
            var fault := LineFault(line, limit);
            Walk(limit, judge, s, handed) ==
              if fault.None? then Walk(limit, judge, x, handed + [line]) else (handed, Failed(fault.value))
    ensures LineFault(line, limit) == Some(TooLong) <==> |line| + 1 > limit
  {
    var s := line + [LF] + x;
    var n := FirstNewline(s);
    assert s[|line|] == LF;
    assert forall i :: 0 <= i < |line| ==> s[i] == line[i];
    assert s[..n] == line && s[n + 1..] == x;
  }

  /** A judge that is satisfied with any record. */
  function Eager(): Judge {
    (_, _) => Settle
  }

  const LINE: Bytes := [65]
  const END: Bytes := [LF]

  lemma SettledThenEmpty()
    ensures Drain(10, Eager(), LINE + END + END, [], false) == Drained([], [LINE], true, Some(EmptyRecord))
    ensures Drain(10, Eager(), LINE + END, [], false) == Drained([], [LINE], true, None)
  {
    NewlineAfterLine(END);
    NewlineAfterLine([]);
    assert LINE + END + [] == LINE + END && [] + [LINE] == [LINE];
    assert END[..0] == [] && END[1..] == [];
    assert Drain(10, Eager(), END, [LINE], true) == Drained([], [LINE], true, Some(EmptyRecord));
    assert Drain(10, Eager(), [], [LINE], true) == Drained([], [LINE], true, None);
  }

  lemma NewlineAfterLine(x: Bytes)
    ensures var s := LINE + END + x;
            FirstNewline(s) == 1 && s[..1] == LINE && s[2..] == x
  {
    var s := LINE + END + x;
    assert s[0] == 65 && s[1] == LF;
  }

  /** After the settling record the cut does matter: the rest of its own chunk is still examined. */
  lemma CutAfterSettlingMatters()
    ensures Joined([LINE + END + END]) == Joined([LINE + END, END])
    ensures Feed(10, Eager(), [LINE + END + END], [], []).1 == Failed(EmptyRecord)
    ensures Feed(10, Eager(), [LINE + END, END], [], []).1 == Settled
  {
    hide Drain;
    SettledThenEmpty();
    JoinedTogether([LINE + END], [END]);
    JoinedOne(LINE + END);
    JoinedOne(END);
    JoinedOne(LINE + END + END);
    assert [LINE + END] + [END] == [LINE + END, END];
    assert [] + (LINE + END + END) == LINE + END + END && [] + (LINE + END) == LINE + END;
  }

  // ---------------------------------------------------- what the endings mean

  /** The next complete line of what is left. */
  predicate NextLine(rest: Bytes, line: Bytes) {
    LF !in line && line + [LF] <= rest
  }

  /** What is left of the stream when it ends this way. */
  ghost predicate Ends(limit: nat, judge: Judge, records: seq<Bytes>, rest: Bytes, outcome: Outcome) {
    match outcome
    case Exited => rest == []
    case Settled => records != [] && judge(records[..|records| - 1], records[|records| - 1]) == Settle
    case Failed(fault) =>
      match fault
      case Partial => rest != [] && |rest| <= limit && LF !in rest
      case TooLong => |rest| > limit && LF !in rest[..limit]
      case EmptyRecord => limit >= 1 && NextLine(rest, [])
      case StrictLf =>
        exists line :: NextLine(rest, line) && line != [] && |line| < limit && line[|line| - 1] == CR
      case Rejected => exists line :: NextLine(rest, line) && Line(line, limit) && judge(records, line) == Reject
  }

  /** All records from place `n` on were accepted, but for a last one that settles. */
  predicate Judged(judge: Judge, records: seq<Bytes>, n: nat, outcome: Outcome) {
    forall k :: n <= k < |records| ==>
      judge(records[..k], records[k]) == if outcome.Settled? && k == |records| - 1 then Settle else Accept
  }

  lemma EndsHere(limit: nat, judge: Judge, s: Bytes, handed: seq<Bytes>)
    requires var n := FirstNewline(s);
             n == |s| || LineFault(s[..n], limit).Some? || judge(handed, s[..n]).Reject?
    ensures var (records, outcome) := Walk(limit, judge, s, handed);
            records == handed && !outcome.Settled? && Ends(limit, judge, handed, s, outcome)
  {
    hide FirstNewline;
    var n := FirstNewline(s);
    CutAtNewline(s);
    assert s[..|s|] == s;
    if n < |s| {
      FaultlessIsLine(s[..n], limit);
      assert NextLine(s, s[..n]) by { assert s[..n] + [LF] == s[..n + 1]; }
      if n + 1 > limit {
        assert s[..limit] == s[..n][..limit];
      }
    }
  }

  /**
    The meaning of every ending of a whole stream: each record handed on was accepted given those before it, the last
    one settles exactly when the stream settled, and what is left shows the fault.
   */
  lemma {:induction false} WalkMeans(limit: nat, judge: Judge, s: Bytes, handed: seq<Bytes>, before: Bytes)
    requires before == Lines(handed)
    ensures var (records, outcome) := Walk(limit, judge, s, handed);
            && handed <= records && Judged(judge, records, |handed|, outcome)
            && Lines(records) <= before + s
            && Ends(limit, judge, records, (before + s)[|Lines(records)|..], outcome)
            && (outcome.Settled? ==> |records| > |handed|)
    decreases |s|
  {
    hide LineFault;
    hide Lines;
    hide FirstNewline;
    hide Line;
    var n := FirstNewline(s);
    CutAtNewline(s);
    if n == |s| || LineFault(s[..n], limit).Some? || judge(handed, s[..n]).Reject? {
      EndsHere(limit, judge, s, handed);
      assert (before + s)[|before|..] == s;
    } else {
      var line := s[..n];
      var more := handed + [line];
      var x := s[n + 1..];
      LinesOfOneMore(handed, line, []);
      LinesOfOneMore(handed, line, x);
      assert Lines(more) == Lines(more) + [];
      assert before + s == Lines(more) + x;
      assert more[..|handed|] == handed && more[|more| - 1] == line;
      if judge(handed, line).Accept? {
        WalkMeans(limit, judge, x, more, Lines(more));
        var (records, outcome) := Walk(limit, judge, x, more);
        assert records[..|handed|] == handed && records[|handed|] == line;
      }
    }
  }

  predicate NoneRejected(judge: Judge, records: seq<Bytes>, n: nat) {
    forall k :: n <= k < |records| ==> !judge(records[..k], records[k]).Reject?
  }

  lemma {:induction false} DrainRejectsNone(limit: nat, judge: Judge, buffer: Bytes, handed: seq<Bytes>, settled: bool)
    ensures var d := Drain(limit, judge, buffer, handed, settled);
            && handed <= d.handed && NoneRejected(judge, d.handed, |handed|)
            && (d.settled <==> settled || exists k :: |handed| <= k < |d.handed|
                                                      && judge(d.handed[..k], d.handed[k]).Settle?)
    decreases |buffer|
  {
    hide FirstNewline;
    hide LineFault;
    var n := FirstNewline(buffer);
    if n < |buffer| && LineFault(buffer[..n], limit).None? && !judge(handed, buffer[..n]).Reject? {
      var line := buffer[..n];
      var more := handed + [line];
      var settled' := settled || judge(handed, line).Settle?;
      DrainRejectsNone(limit, judge, buffer[n + 1..], more, settled');
      var d := Drain(limit, judge, buffer, handed, settled);
      assert d == Drain(limit, judge, buffer[n + 1..], more, settled');
      assert d.handed[..|handed|] == handed && d.handed[|handed|] == line;
    }
  }

  /** However the bytes are cut: nothing rejected is handed on, and the run settles only after a settling record. */
  lemma {:induction false} OnlyJudgedRecordsAreHanded(limit: nat, judge: Judge, chunks: seq<Bytes>, buffer: Bytes,
                                                      handed: seq<Bytes>)
    ensures var (records, outcome) := Feed(limit, judge, chunks, buffer, handed);
            && handed <= records && NoneRejected(judge, records, |handed|)
            && (outcome.Settled? ==>
                  exists k :: |handed| <= k < |records| && judge(records[..k], records[k]).Settle?)
    decreases |chunks|
  {
    hide Drain;
    if chunks != [] {
      DrainRejectsNone(limit, judge, buffer + chunks[0], handed, false);
      var d := Drain(limit, judge, buffer + chunks[0], handed, false);
      if d.fault.None? && !d.settled {
        OnlyJudgedRecordsAreHanded(limit, judge, chunks[1..], d.buffer, d.handed);
        var records := Feed(limit, judge, chunks, buffer, handed).0;
        forall k | |handed| <= k < |d.handed|
          ensures !judge(records[..k], records[k]).Reject?
        {
          assert records[..k] == d.handed[..k] && records[k] == d.handed[k];
        }
      }
    }
  }
}
