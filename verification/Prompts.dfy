/**
  The prompt printer (kigumi/prompt.py): material is put between backtick fences longer than any
  backtick run in it, and templates are filled in one pass over their slots.
 */
module Prompts {
  import opened Wrappers

  const LF := '\n'
  const TICK := '`'

  // ------------------------------------------------------------------ fences

  /** The number of backticks the text begins with. */
  function Ticks(s: string): (n: nat)
    ensures n <= |s| && (forall i :: 0 <= i < n ==> s[i] == TICK) && (n < |s| ==> s[n] != TICK)
  {
    if s == [] || s[0] != TICK then 0 else 1 + Ticks(s[1..])
  }

  /** The longest run of backticks anywhere. */
  function LongestRun(s: string): (n: nat)
    ensures n >= Ticks(s)
    ensures forall i :: 0 <= i <= |s| ==> Ticks(s[i..]) <= n
  {
    if s == [] then 0
    else
      var rest := LongestRun(s[1..]);
      assert forall i :: 0 < i <= |s| ==> s[i..] == s[1..][i - 1..];
      assert s[0..] == s;
      if Ticks(s) > rest then Ticks(s) else rest
  }

  function Repeat(c: char, n: nat): (s: string)
    ensures |s| == n && forall i :: 0 <= i < n ==> s[i] == c
  {
    if n == 0 then "" else [c] + Repeat(c, n - 1)
  }

  /** `_fence_for`. */
  function FenceFor(body: string): (fence: string)
    ensures |fence| >= 3 && |fence| > LongestRun(body)
    ensures forall i :: 0 <= i < |fence| ==> fence[i] == TICK
  {
    Repeat(TICK, if LongestRun(body) + 1 > 3 then LongestRun(body) + 1 else 3)
  }

  /** `inject` without a title: `info` is empty for text and `json` for anything else. */
  function Inject(body: string, info: string): string {
    var fence := FenceFor(body);
    fence + info + [LF] + body + [LF] + fence + [LF]
  }

  // ----------------------------------- reading back, after CommonMark 0.31

  /** The length of the first line. */
  function LineEnd(s: string): (n: nat)
    ensures n <= |s| && (n < |s| ==> s[n] == LF) && forall i :: 0 <= i < n ==> s[i] != LF
  {
    if s == [] || s[0] == LF then 0 else 1 + LineEnd(s[1..])
  }

  function Spaces(s: string): (n: nat)
    ensures n <= |s| && (forall i :: 0 <= i < n ==> s[i] == ' ') && (n < |s| ==> s[n] != ' ')
  {
    if s == [] || s[0] != ' ' then 0 else 1 + Spaces(s[1..])
  }

  /**
    A closing fence (section 4.5 of CommonMark 0.31): at most three spaces, at least as many
    backticks as the opening fence, and nothing but spaces or tabs after them.
   */
  predicate Closes(line: string, fence: nat) {
    var indented := Spaces(line);
    var ticks := Ticks(line[indented..]);
    && indented <= 3 && ticks >= fence
    && forall i :: indented + ticks <= i < |line| ==> line[i] == ' ' || line[i] == '\t'
  }

  /** The lines of a fenced block, up to its closing fence or the end of the text. */
  function BlockContent(s: string, fence: nat): string
    decreases |s|
  {
    var n := LineEnd(s);
    if Closes(s[..n], fence) || n == |s| then (if n == |s| && !Closes(s[..n], fence) then s else "")
    else s[..n] + [LF] + BlockContent(s[n + 1..], fence)
  }

  /** What a reader finds in a block that opens on the first line: its info string and its content. */
  function ReadBlock(s: string): Option<(string, string)> {
    var n := LineEnd(s);
    var fence := Ticks(s[..n]);
    if fence < 3 || n == |s| then None
    else Some((s[fence..n], BlockContent(s[n + 1..], fence)))
  }

  lemma RunIsBounded(body: string, i: nat)
    requires i <= |body|
    ensures Ticks(body[i..]) <= LongestRun(body)
  {
  }

  /** A line of the body is never a closing fence: its backticks are too few. */
  lemma BodyLineDoesNotClose(body: string, i: nat, n: nat, fence: nat)
    requires i + n <= |body| && fence > LongestRun(body) && fence >= 1
    ensures !Closes(body[i..i + n], fence)
  {
    hide LongestRun;
    hide Ticks;
    hide Spaces;
    var line := body[i..i + n];
    var k := Spaces(line);
    RunIsBounded(body, i + k);
    TicksOfPrefix(body[i + k..], |line| - k);
    assert body[i + k..][..|line| - k] == line[k..];
  }

  lemma {:induction false} TicksOfPrefix(s: string, n: nat)
    requires n <= |s|
    ensures Ticks(s[..n]) <= Ticks(s)
  {
    if n > 0 && s[0] == TICK {
      assert s[..n][1..] == s[1..][..n - 1];
      TicksOfPrefix(s[1..], n - 1);
    }
  }

  lemma {:induction false} TicksOfFence(fence: string, x: string)
    requires (forall i :: 0 <= i < |fence| ==> fence[i] == TICK) && (x == [] || x[0] != TICK)
    ensures Ticks(fence + x) == |fence|
  {
    if fence == [] {
      assert fence + x == x;
    } else {
      assert (fence + x)[1..] == fence[1..] + x;
      TicksOfFence(fence[1..], x);
    }
  }

  lemma {:induction false} LineEndAt(line: string, x: string)
    requires forall i :: 0 <= i < |line| ==> line[i] != LF
    ensures LineEnd(line + [LF] + x) == |line|
  {
    var s := line + [LF] + x;
    assert s[|line|] == LF && forall i :: 0 <= i < |line| ==> s[i] == line[i];
  }

  /** A run of fence backticks alone on its line closes the block. */
  lemma FenceCloses(fence: string)
    requires forall i :: 0 <= i < |fence| ==> fence[i] == TICK
    requires |fence| > 0
    ensures Closes(fence, |fence|)
  {
    assert Spaces(fence) == 0;
    assert fence[0..] == fence && fence + [] == fence;
    TicksOfFence(fence, []);
  }

  /** One line of content, read off a text that goes on after it. */
  lemma ContentLine(line: string, x: string, fence: nat)
    requires (forall i :: 0 <= i < |line| ==> line[i] != LF) && !Closes(line, fence)
    ensures BlockContent(line + [LF] + x, fence) == line + [LF] + BlockContent(x, fence)
  {
    hide Closes;
    var s := line + [LF] + x;
    LineEndAt(line, x);
    assert s[..|line|] == line && s[|line| + 1..] == x;
  }

  lemma ContentEnds(fence: string)
    requires |fence| >= 3 && forall k :: 0 <= k < |fence| ==> fence[k] == TICK
    ensures BlockContent(fence + [LF], |fence|) == ""
  {
    hide Closes;
    assert fence + [LF] + [] == fence + [LF];
    LineEndAt(fence, []);
    FenceCloses(fence);
    assert (fence + [LF])[..|fence|] == fence;
  }

  lemma SplitAt(s: string, n: nat)
    requires n < |s| && s[n] == LF
    ensures s == s[..n] + [LF] + s[n + 1..]
  {
  }

  lemma Regrouped(line: string, next: string, close: string)
    ensures (line + [LF] + next) + [LF] + close == line + [LF] + (next + [LF] + close)
    ensures (line + [LF] + next) + [LF] == line + [LF] + (next + [LF])
  {
  }

  /** Reading the content up to the closing fence gives back the rest of the body, with its line end. */
  lemma {:induction false} ContentIsBody(body: string, i: nat, fence: string)
    requires i <= |body| && |fence| > LongestRun(body) && |fence| >= 3
    requires forall k :: 0 <= k < |fence| ==> fence[k] == TICK
    ensures BlockContent(body[i..] + [LF] + (fence + [LF]), |fence|) == body[i..] + [LF]
    decreases |body| - i
  {
    hide Closes;
    hide BlockContent;
    hide LongestRun;
    hide LineEnd;
    var rest := body[i..];
    var n := LineEnd(rest);
    var line := rest[..n];
    var close := fence + [LF];
    assert line == body[i..i + n];
    BodyLineDoesNotClose(body, i, n, |fence|);
    ContentEnds(fence);
    if n == |rest| {
      assert line == rest;
      ContentLine(rest, close, |fence|);
    } else {
      var next := body[i + n + 1..];
      assert next == rest[n + 1..];
      SplitAt(rest, n);
      Regrouped(line, next, close);
      ContentLine(line, next + [LF] + close, |fence|);
      ContentIsBody(body, i + n + 1, fence);
    }
  }

  /** Whatever the body, a reader of the printed block finds exactly its info string and the body. */
  lemma InjectedBodyIsReadBack(body: string, info: string)
    requires info == "" || info == "json"
    ensures ReadBlock(Inject(body, info)) == Some((info, body + [LF]))
  {
    hide BlockContent;
    hide FenceFor;
    hide LongestRun;
    var fence := FenceFor(body);
    var x := body + [LF] + (fence + [LF]);
    assert Inject(body, info) == (fence + info) + [LF] + x;
    LineEndAt(fence + info, x);
    TicksOfFence(fence, info);
    assert Inject(body, info)[..|fence + info|] == fence + info;
    assert Inject(body, info)[|fence|..|fence + info|] == info;
    assert Inject(body, info)[|fence + info| + 1..] == x;
    assert body[0..] == body;
    ContentIsBody(body, 0, fence);
  }

  // --------------------------------------------------------------- templates

  predicate IsStart(c: char) {
    'a' <= c <= 'z' || c == '_'
  }

  predicate IsPart(c: char) {
    IsStart(c) || '0' <= c <= '9'
  }

  /** How many name characters follow. */
  function NameLength(s: string): (n: nat)
    ensures n <= |s| && (forall i :: 0 <= i < n ==> IsPart(s[i])) && (n < |s| ==> !IsPart(s[n]))
  {
    if s == [] || !IsPart(s[0]) then 0 else 1 + NameLength(s[1..])
  }

  /** The name of the slot the text begins with, if it begins with one. */
  function SlotAt(s: string): (name: Option<string>)
    ensures name.Some? ==> |s| >= |name.value| + 4 && s[..|name.value| + 4] == "{{" + name.value + "}}"
    ensures name.Some? ==>
              && name.value != "" && IsStart(name.value[0])
              && forall i :: 0 <= i < |name.value| ==> IsPart(name.value[i])
  {
    if |s| < 2 || s[..2] != "{{" then None
    else
      var n := NameLength(s[2..]);
      if n == 0 || !IsStart(s[2]) || n + 4 > |s| || s[n + 2..n + 4] != "}}" then None
      else
        assert s[..n + 4] == "{{" + s[2..n + 2] + "}}";
        Some(s[2..n + 2])
  }

  datatype Piece = Text(c: char) | Slot(name: string)

  /** The template as the single left-to-right pass of the pattern sees it. */
  function Pieces(s: string): seq<Piece>
    decreases |s|
  {
    if s == [] then []
    else
      var slot := SlotAt(s);
      if slot.Some? then [Slot(slot.value)] + Pieces(s[|slot.value| + 4..])
      else [Text(s[0])] + Pieces(s[1..])
  }

  function SlotNames(s: string): set<string> {
    set p | p in Pieces(s) && p.Slot? :: p.name
  }

  function Filled(pieces: seq<Piece>, slots: map<string, string>): string {
    if pieces == [] then ""
    else
      (match pieces[0]
       case Text(c) => [c]
       case Slot(name) => if name in slots then slots[name] else "")
      + Filled(pieces[1..], slots)
  }

  /** `render_template`: the slots supplied must be exactly the slots of the template. */
  function Render(s: string, slots: map<string, string>): Option<string> {
    if slots.Keys != SlotNames(s) then None else Some(Filled(Pieces(s), slots))
  }

  function SlotText(name: string): string {
    "{{" + name + "}}"
  }

  lemma {:induction false} FilledWithItself(s: string, slots: map<string, string>)
    requires forall p :: p in Pieces(s) && p.Slot? ==> p.name in slots && slots[p.name] == SlotText(p.name)
    ensures Filled(Pieces(s), slots) == s
    decreases |s|
  {
    if s != [] {
      var slot := SlotAt(s);
      var n := if slot.Some? then |slot.value| + 4 else 1;
      var pieces := Pieces(s);
      assert pieces[1..] == Pieces(s[n..]);
      assert pieces[0] in pieces;
      assert forall p :: p in Pieces(s[n..]) ==> p in pieces;
      FilledWithItself(s[n..], slots);
      assert s == s[..n] + s[n..];
      assert slot.Some? ==> s[..n] == SlotText(slot.value);
    }
  }

  /** Binding every slot to its own text renders the template back. */
  lemma RenderingItselfIsIdentity(s: string)
    ensures Render(s, map name | name in SlotNames(s) :: SlotText(name)) == Some(s)
  {
    var slots := map name | name in SlotNames(s) :: SlotText(name);
    forall p | p in Pieces(s) && p.Slot?
      ensures p.name in slots && slots[p.name] == SlotText(p.name)
    {
      assert p.name in SlotNames(s);
    }
    FilledWithItself(s, slots);
    assert slots.Keys == SlotNames(s);
  }

  lemma {:induction false} FilledTogether(a: seq<Piece>, b: seq<Piece>, slots: map<string, string>)
    ensures Filled(a + b, slots) == Filled(a, slots) + Filled(b, slots)
  {
    if a == [] {
      assert a + b == b;
    } else {
      assert (a + b)[1..] == a[1..] + b;
      FilledTogether(a[1..], b, slots);
    }
  }

  /**
    Inserted values are never expanded again: whatever a value contains, even slot texts, the
    rendering is the literal pieces of the template with each slot replaced by its value as it is.
   */
  lemma ValuesAreNotReexpanded(s: string, slots: map<string, string>, i: nat)
    requires slots.Keys == SlotNames(s) && i < |Pieces(s)| && Pieces(s)[i].Slot?
    ensures var pieces := Pieces(s);
            && pieces[i].name in slots
            && Render(s, slots)
               == Some(Filled(pieces[..i], slots) + slots[pieces[i].name] + Filled(pieces[i + 1..], slots))
  {
    hide Pieces;
    hide Filled;
    var pieces := Pieces(s);
    assert pieces[i] in pieces && pieces[i].name in SlotNames(s);
    assert pieces == pieces[..i] + ([pieces[i]] + pieces[i + 1..]);
    FilledTogether(pieces[..i], [pieces[i]] + pieces[i + 1..], slots);
    FilledTogether([pieces[i]], pieces[i + 1..], slots);
    FilledSlot(pieces[i].name, slots);
    assert pieces[i] == Slot(pieces[i].name);
    var before, after := Filled(pieces[..i], slots), Filled(pieces[i + 1..], slots);
    assert before + (slots[pieces[i].name] + after) == before + slots[pieces[i].name] + after;
  }

  lemma FilledSlot(name: string, slots: map<string, string>)
    requires name in slots
    ensures Filled([Slot(name)], slots) == slots[name]
  {
    var pieces := [Slot(name)];
    assert pieces[1..] == [];
    assert Filled(pieces, slots) == slots[name] + Filled(pieces[1..], slots);
  }

  // ---------------------------------------------------- what is a slot

  /** A slot name: a lower-case letter or underscore, then those or digits. */
  predicate IsName(name: string) {
    && name != "" && (name[0] == '_' || 'a' <= name[0] <= 'z')
    && forall i :: 0 <= i < |name| ==> name[i] == '_' || 'a' <= name[i] <= 'z' || '0' <= name[i] <= '9'
  }

  lemma {:induction false} NameEnds(name: string, x: string)
    requires (forall i :: 0 <= i < |name| ==> IsPart(name[i])) && x != "" && !IsPart(x[0])
    ensures NameLength(name + x) == |name|
    decreases |name|
  {
    if name == "" {
      assert name + x == x;
    } else {
      assert (name + x)[1..] == name[1..] + x;
      NameEnds(name[1..], x);
    }
  }

  /** A text begins with a slot exactly when it begins with a name between double braces. */
  lemma SlotAtExactly(s: string, name: string)
    ensures SlotAt(s) == Some(name) <==> IsName(name) && SlotText(name) <= s
  {
    if IsName(name) && SlotText(name) <= s {
      var x := s[|name| + 4..];
      assert s == SlotText(name) + x;
      assert s[..2] == "{{" && s[2..] == name + ("}}" + x);
      NameEnds(name, "}}" + x);
      assert s[|name| + 2..|name| + 4] == "}}" && s[2..|name| + 2] == name;
    }
  }

  function Texts(s: string): seq<Piece> {
    if s == "" then [] else [Text(s[0])] + Texts(s[1..])
  }

  /** Text without an opening brace stays text, and the slot after it is one, whatever follows. */
  lemma {:induction false} TextThenSlot(text: string, name: string, x: string)
    requires '{' !in text && IsName(name)
    ensures Pieces(text + SlotText(name) + x) == Texts(text) + [Slot(name)] + Pieces(x)
    ensures name in SlotNames(text + SlotText(name) + x)
    decreases |text|
  {
    var s := text + SlotText(name) + x;
    if text == "" {
      assert s == SlotText(name) + x;
      SlotAtExactly(s, name);
      assert s[|name| + 4..] == x;
    } else {
      assert s[1..] == text[1..] + SlotText(name) + x && s[0] == text[0];
      assert SlotAt(s).None?;
      TextThenSlot(text[1..], name, x);
      assert [Text(s[0])] + (Texts(text[1..]) + [Slot(name)] + Pieces(x)) == Texts(text) + [Slot(name)] + Pieces(x);
    }
    assert Slot(name) in Pieces(s);
  }

  /** The fence is no longer than it has to be: three backticks, or one more than some run in the body. */
  lemma {:induction false} LongestRunIsThere(body: string) returns (i: nat)
    ensures i <= |body| && Ticks(body[i..]) == LongestRun(body)
    decreases |body|
  {
    if body == "" || Ticks(body) > LongestRun(body[1..]) {
      i := 0;
      assert body[0..] == body;
    } else {
      var j := LongestRunIsThere(body[1..]);
      i := j + 1;
      assert body[i..] == body[1..][j..];
    }
  }

  lemma FenceIsShortest(body: string)
    ensures |FenceFor(body)| == 3 || exists i :: 0 <= i <= |body| && Ticks(body[i..]) == |FenceFor(body)| - 1
  {
    var i := LongestRunIsThere(body);
  }
}
