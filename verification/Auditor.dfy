/** The terminal auditor: a one-pass byte automaton with two buffers that recovers the
    commands a user typed, and the multi-pass reading of the same bytes that it must agree
    with, however the stream is cut into calls of RecordInput. */
module Auditor {
  import opened Basics
  import opened Runs

  const BEL: byte := 0x07
  const ESC: byte := 0x1b
  const SPACE: byte := 0x20
  const BACKSLASH: byte := 0x5c
  const LEFT_BRACKET: byte := 0x5b
  const RIGHT_BRACKET: byte := 0x5d
  const SEMICOLON: byte := 0x3b
  const TILDE: byte := 0x7e

  // ---------- character classes ----------

  predicate IsLetter(b: byte) { 0x41 <= b <= 0x5a || 0x61 <= b <= 0x7a }

  predicate IsDigit(b: byte) { 0x30 <= b <= 0x39 }

  predicate IsFinal(b: byte) { IsLetter(b) || b == TILDE }

  predicate IsPrintable(b: byte) { 32 <= b < 127 }

  predicate IsNewline(b: byte) { b == 0x0d || b == 0x0a }

  predicate IsBackspace(b: byte) { b == 0x7f || b == 0x08 }

  // Ctrl+C and Ctrl+U both discard the line typed so far.
  predicate IsKill(b: byte) { b == 0x03 || b == 0x15 }

  // The ASCII part of what strings.TrimSpace removes.
  predicate IsSpace(b: byte) { 0x09 <= b <= 0x0d || b == SPACE }

  ghost predicate AllPrintable(s: seq<byte>) { forall k :: 0 <= k < |s| ==> IsPrintable(s[k]) }

  // ---------- the code's helper functions ----------

  // isEscapeSequenceComplete, branch by branch.
  predicate IsEscapeSequenceComplete(s: seq<byte>)
  {
    if |s| < 2 then false
    else if s[1] == LEFT_BRACKET then
      (|s| >= 3 && IsFinal(s[|s| - 1])) || |s| > 20
    else if s[1] == RIGHT_BRACKET then
      s[|s| - 1] == BEL
      || (|s| >= 3 && s[|s| - 2] == ESC && s[|s| - 1] == BACKSLASH)
      || |s| > 256
    else if s[1] == 0x4e || s[1] == 0x4f then |s| >= 3
    else true
  }

  // Length of the longest prefix of s whose bytes all satisfy p.
  function Span(p: byte -> bool, s: seq<byte>): (n: nat)
    ensures n <= |s|
  {
    if s == [] || !p(s[0]) then 0 else 1 + Span(p, s[1..])
  }

  // The three regular expressions of cleanCommand: the length of the match that starts
  // at s[0], or 0. In each, the starred class excludes what follows it, so a match is unique.
  function MatchBracketedPaste(s: seq<byte>): (n: nat)
    ensures n <= |s|
    ensures n > 0 ==> s[0] == ESC
  {
    if |s| < 2 || s[0] != ESC || s[1] != LEFT_BRACKET then 0 else
      var k := Span((b: byte) => IsDigit(b), s[2..]);
      if k > 0 && 2 + k < |s| && s[2 + k] == TILDE then 3 + k else 0
  }

  function MatchAnsiEscape(s: seq<byte>): (n: nat)
    ensures n <= |s|
    ensures n > 0 ==> s[0] == ESC
  {
    if |s| < 2 || s[0] != ESC || s[1] != LEFT_BRACKET then 0 else
      var k := Span((b: byte) => IsDigit(b) || b == SEMICOLON, s[2..]);
      if 2 + k < |s| && IsFinal(s[2 + k]) then 3 + k else 0
  }

  function MatchOscSequence(s: seq<byte>): (n: nat)
    ensures n <= |s|
    ensures n > 0 ==> s[0] == ESC
  {
    if |s| < 2 || s[0] != ESC || s[1] != RIGHT_BRACKET then 0 else
      var k := Span((b: byte) => b != BEL && b != ESC, s[2..]);
      if 2 + k < |s| && s[2 + k] == BEL then 3 + k
      else if 3 + k < |s| && s[2 + k] == ESC && s[3 + k] == BACKSLASH then 4 + k
      else 0
  }

  function RemoveMatches(match_: seq<byte> -> nat, s: seq<byte>): seq<byte>
    requires forall t :: match_(t) <= |t|
  {
    if s == [] then []
    else
      var n := match_(s);
      if n > 0 then RemoveMatches(match_, s[n..]) else [s[0]] + RemoveMatches(match_, s[1..])
  }

  function TrimLeft(s: seq<byte>): seq<byte>
  {
    if s != [] && IsSpace(s[0]) then TrimLeft(s[1..]) else s
  }

  function TrimRight(s: seq<byte>): seq<byte>
  {
    if s != [] && IsSpace(s[|s| - 1]) then TrimRight(s[..|s| - 1]) else s
  }

  function TrimSpace(s: seq<byte>): seq<byte> { TrimRight(TrimLeft(s)) }

  function CleanCommand(s: seq<byte>): seq<byte>
  {
    var s1 := RemoveMatches(MatchBracketedPaste, s);
    var s2 := RemoveMatches(MatchAnsiEscape, s1);
    var s3 := RemoveMatches(MatchOscSequence, s2);
    var s4 := RemoveMatches(t => if t != [] && t[0] == ESC then 1 else 0, s3);
    TrimSpace(s4)
  }

  // The four bare prompts: $ # > %
  predicate IsPrompt(s: seq<byte>) { s in [[0x24], [0x23], [0x3e], [0x25]] }

  predicate IsPromptOnly(s: seq<byte>) { IsPrompt(TrimSpace(s)) }

  // ---------- the automaton ----------

  /** The auditor's buffers, and the commands handed to saveCommand so far, oldest first. */
  datatype State = State(input: seq<byte>, inEscape: bool, escape: seq<byte>, saved: seq<seq<byte>>)

  const FRESH := State([], false, [], [])

  function Feed(st: State, b: byte): State
  {
    if b == ESC then st.(inEscape := true, escape := [b])
    else if st.inEscape then
      var e := st.escape + [b];
      if IsEscapeSequenceComplete(e) then st.(inEscape := false, escape := []) else st.(escape := e)
    else if IsNewline(b) then
      var cmd := CleanCommand(st.input);
      st.(input := [], saved := if cmd != [] && !IsPromptOnly(cmd) then st.saved + [cmd] else st.saved)
    else if IsBackspace(b) then
      if |st.input| > 0 then st.(input := st.input[..|st.input| - 1]) else st
    else if IsKill(b) then st.(input := [])
    else if IsPrintable(b) then st.(input := st.input + [b])
    else st
  }

  /** The auditor object: RecordInput updates its fields byte by byte. */
  class SessionAuditor {
    var inputBuffer: seq<byte>
    var inEscapeSeq: bool
    var escapeBuffer: seq<byte>
    var currentCommand: seq<byte>
    var saved: seq<seq<byte>>

    ghost function Abs(): State reads this
    {
      State(inputBuffer, inEscapeSeq, escapeBuffer, saved)
    }

    constructor ()
      ensures Abs() == FRESH
    {
      inputBuffer, inEscapeSeq, escapeBuffer, currentCommand, saved := [], false, [], [], [];
    }

    method RecordInput(data: seq<byte>)
      modifies this
      ensures Abs() == Run(Feed, old(Abs()), data)
    {
      hide IsEscapeSequenceComplete, CleanCommand, IsPromptOnly, Run;
      assert Run(Feed, old(Abs()), data[..0]) == old(Abs()) by { RunNone(Feed, old(Abs())); }
      for i := 0 to |data|
        invariant Abs() == Run(Feed, old(Abs()), data[..i])
      {
        var b := data[i];
        assert data[..i + 1] == data[..i] + [b];
        RunSnoc(Feed, old(Abs()), data[..i], b);
        if b == ESC {
          inEscapeSeq := true;
          escapeBuffer := [];
          escapeBuffer := escapeBuffer + [b];
          continue;
        }
        if inEscapeSeq {
          escapeBuffer := escapeBuffer + [b];
          if IsEscapeSequenceComplete(escapeBuffer) {
            inEscapeSeq := false;
            escapeBuffer := [];
          }
          continue;
        }
        if b == 0x0d || b == 0x0a {
          var cmd := CleanCommand(inputBuffer);
          if cmd != [] && !IsPromptOnly(cmd) {
            currentCommand := cmd;
            saved := saved + [cmd];
          }
          inputBuffer := [];
        } else if b == 0x7f || b == 0x08 {
          if |inputBuffer| > 0 {
            inputBuffer := inputBuffer[..|inputBuffer| - 1];
          }
        } else if b == 0x03 {
          inputBuffer := [];
        } else if b == 0x15 {
          inputBuffer := [];
        } else {
          if b >= 32 && b < 127 {
            inputBuffer := inputBuffer + [b];
          }
        }
      }
      assert data[..|data|] == data;
    }
  }

  // ---------- what every reachable state keeps ----------

  // The bound on the escape buffer while a sequence is open.
  function OpenLimit(e: seq<byte>): nat
  {
    if |e| < 2 then 1
    else if e[1] == LEFT_BRACKET then 20
    else if e[1] == RIGHT_BRACKET then 256
    else 2
  }

  ghost predicate OpenEscape(e: seq<byte>)
  {
    && 1 <= |e| <= OpenLimit(e)
    && e[0] == ESC
    && (forall k :: 1 <= k < |e| ==> e[k] != ESC)
    && !IsEscapeSequenceComplete(e)
  }

  ghost predicate Inv(st: State)
  {
    && AllPrintable(st.input)
    && (if st.inEscape then OpenEscape(st.escape) else st.escape == [])
  }

  lemma FeedKeepsInv(st: State, b: byte)
    requires Inv(st)
    ensures Inv(Feed(st, b))
  {
    hide CleanCommand, IsPromptOnly;
    if st.inEscape && b != ESC {
      var e := st.escape + [b];
      assert forall k :: 1 <= k < |e| ==> e[k] != ESC;
    }
  }

  /** In every run the input buffer is printable ASCII, and the escape buffer is empty or holds
      an unfinished sequence of at most 256 bytes whose only ESC is its first byte. */
  lemma {:induction false} ReachableStates(bs: seq<byte>)
    ensures Inv(Run(Feed, FRESH, bs))
  {
    forall t, b | Inv(t) ensures Inv(Feed(t, b)) { FeedKeepsInv(t, b); }
    Invariant(Feed, Inv, FRESH, bs);
  }

  /** The ESC-backslash test is dead code: in every run, the byte that ends an OSC sequence
      is BEL, or the one that takes the sequence past 256 bytes. */
  lemma {:induction false} OscNeverEndsAtBackslash(bs: seq<byte>, b: byte)
    requires var st := Run(Feed, FRESH, bs);
      st.inEscape && b != ESC && |st.escape| >= 2 && st.escape[1] == RIGHT_BRACKET
    ensures var st := Run(Feed, FRESH, bs);
      Feed(st, b).inEscape <==> b != BEL && |st.escape| < 256
  {
    ReachableStates(bs);
  }

  // ---------- the multi-pass reading: pass 1, escape sequences ----------

  // A control sequence of exactly n bytes, by kind (n bytes of s, the first being ESC).
  ghost predicate IsSequence(s: seq<byte>, n: nat)
    requires 2 <= n <= |s|
  {
    if s[1] == LEFT_BRACKET then n >= 3 && (IsFinal(s[n - 1]) || n == 21)
    else if s[1] == RIGHT_BRACKET then s[n - 1] == BEL || n == 257
    else if s[1] == 0x4e || s[1] == 0x4f then n == 3
    else n == 2
  }

  // Where an escape sequence stops: at its own end, before the next ESC, or at the end of input.
  ghost predicate StopsAt(s: seq<byte>, n: nat)
    requires 1 <= n <= |s|
  {
    n == |s| || s[n] == ESC || (n >= 2 && IsSequence(s, n))
  }

  ghost function SequenceEnd(s: seq<byte>, n: nat): (end: nat)
    requires 1 <= n <= |s|
    ensures n <= end <= |s| && StopsAt(s, end)
    ensures forall k :: n <= k < end ==> !StopsAt(s, k)
    decreases |s| - n
  {
    if StopsAt(s, n) then n else SequenceEnd(s, n + 1)
  }

  ghost function StripEscapes(s: seq<byte>): seq<byte>
    decreases |s|
  {
    if s == [] then []
    else if s[0] == ESC then StripEscapes(s[SequenceEnd(s, 1)..])
    else [s[0]] + StripEscapes(s[1..])
  }

  // ---------- pass 2: lines ----------

  function LineEnd(t: seq<byte>): (n: nat)
    ensures n <= |t|
    ensures n < |t| ==> IsNewline(t[n])
    ensures forall k :: 0 <= k < n ==> !IsNewline(t[k])
  {
    if t == [] || IsNewline(t[0]) then 0 else 1 + LineEnd(t[1..])
  }

  // The lines the user completed with CR or LF.
  function Lines(t: seq<byte>): seq<seq<byte>>
    decreases |t|
  {
    var n := LineEnd(t);
    if n == |t| then [] else [t[..n]] + Lines(t[n + 1..])
  }

  // ---------- pass 3: line editing, read from the right with a count of pending backspaces ----------

  function Unwind(line: seq<byte>, pending: nat): seq<byte>
  {
    if line == [] then []
    else
      var b, rest := line[|line| - 1], line[..|line| - 1];
      if IsBackspace(b) then Unwind(rest, pending + 1)
      else if IsKill(b) then []
      else if !IsPrintable(b) then Unwind(rest, pending)
      else if pending > 0 then Unwind(rest, pending - 1)
      else Unwind(rest, 0) + [b]
  }

  // ---------- pass 4: trim, and drop empty lines and bare prompts ----------

  function Command(line: seq<byte>): seq<byte> { TrimSpace(Unwind(line, 0)) }

  function Commands(lines: seq<seq<byte>>): seq<seq<byte>>
  {
    if lines == [] then []
    else
      var cmd := Command(lines[0]);
      (if cmd != [] && !IsPrompt(cmd) then [cmd] else []) + Commands(lines[1..])
  }

  ghost function MultiPass(bs: seq<byte>): seq<seq<byte>> { Commands(Lines(StripEscapes(bs))) }

  // ---------- cleanCommand on a reachable buffer is plain trimming ----------

  lemma {:induction false} NothingToRemove(match_: seq<byte> -> nat, s: seq<byte>)
    requires forall t :: match_(t) <= |t|
    requires forall t :: match_(t) > 0 ==> t[0] == ESC
    requires AllPrintable(s)
    ensures RemoveMatches(match_, s) == s
  {
    if s != [] {
      NothingToRemove(match_, s[1..]);
    }
  }

  /** The regular expressions of cleanCommand never fire on a reachable buffer. */
  lemma {:induction false} CleanIsTrim(s: seq<byte>)
    requires AllPrintable(s)
    ensures CleanCommand(s) == TrimSpace(s)
  {
    NothingToRemove(MatchBracketedPaste, s);
    NothingToRemove(MatchAnsiEscape, s);
    NothingToRemove(MatchOscSequence, s);
    NothingToRemove(t => if t != [] && t[0] == ESC then 1 else 0, s);
  }

  lemma {:induction false} TrimLeftShape(s: seq<byte>)
    ensures var t := TrimLeft(s); t == [] || !IsSpace(t[0])
  {
    if s != [] && IsSpace(s[0]) { TrimLeftShape(s[1..]); }
  }

  lemma {:induction false} TrimRightShape(s: seq<byte>)
    ensures var t := TrimRight(s); t <= s && (t == [] || !IsSpace(t[|t| - 1]))
  {
    if s != [] && IsSpace(s[|s| - 1]) { TrimRightShape(s[..|s| - 1]); }
  }

  lemma {:induction false} TrimIdempotent(s: seq<byte>)
    ensures TrimSpace(TrimSpace(s)) == TrimSpace(s)
  {
    TrimLeftShape(s);
    TrimRightShape(TrimLeft(s));
  }

  // ---------- the automaton against the passes ----------

  // The line editor the automaton becomes once escape sequences are gone.
  datatype Editor = Editor(input: seq<byte>, saved: seq<seq<byte>>)

  function View(st: State): Editor { Editor(st.input, st.saved) }

  function Edit(ed: Editor, b: byte): Editor
  {
    View(Feed(State(ed.input, false, [], ed.saved), if b == ESC then 0 else b))
  }

  // While an escape sequence is being read, the bytes collected are a prefix of the input.
  ghost predicate Inside(st: State, r: State, s: seq<byte>, n: nat)
    requires 1 <= n <= |s|
  {
    && View(r) == View(st)
    && (if n >= 2 && IsSequence(s, n) then !r.inEscape && r.escape == [] else r.inEscape && r.escape == s[..n])
  }

  lemma InsideStep(st: State, r: State, s: seq<byte>, n: nat)
    requires s != [] && s[0] == ESC && 1 <= n < |s|
    requires Inside(st, r, s, n) && !StopsAt(s, n)
    requires forall k :: 1 <= k < n ==> s[k] != ESC
    requires n <= OpenLimit(s[..n])
    ensures Inside(st, Feed(r, s[n]), s, n + 1)
    ensures n + 1 < |s| && !StopsAt(s, n + 1) ==> n + 1 <= OpenLimit(s[..n + 1])
  {
    hide CleanCommand, IsPromptOnly;
    assert s[..n + 1] == s[..n] + [s[n]];
    CompleteIffSequence(s, n + 1);
  }

  lemma InsideStart(st: State, s: seq<byte>)
    requires s != [] && s[0] == ESC
    ensures Inside(st, Run(Feed, st, s[..1]), s, 1)
  {
    assert s[..1] == [] + [s[0]];
    RunSnoc(Feed, st, [], s[0]);
    hide CleanCommand, IsPromptOnly, IsEscapeSequenceComplete, IsSequence;
  }

  lemma {:induction false} InsideEscape(st: State, s: seq<byte>, n: nat)
    requires s != [] && s[0] == ESC && 1 <= n <= SequenceEnd(s, 1)
    ensures Inside(st, Run(Feed, st, s[..n]), s, n)
    ensures forall k :: 1 <= k < n ==> s[k] != ESC
    ensures n < SequenceEnd(s, 1) ==> n <= OpenLimit(s[..n])
  {
    hide Feed, Run, Inside, IsSequence, SequenceEnd;
    if n == 1 {
      InsideStart(st, s);
    } else {
      InsideEscape(st, s, n - 1);
      var r := Run(Feed, st, s[..n - 1]);
      assert !StopsAt(s, n - 1);
      InsideStep(st, r, s, n - 1);
      assert s[..n] == s[..n - 1] + [s[n - 1]];
      RunSnoc(Feed, st, s[..n - 1], s[n - 1]);
    }
  }

  // The code's completeness test, on a buffer with a single ESC that was not complete before.
  lemma CompleteIffSequence(s: seq<byte>, n: nat)
    requires 2 <= n <= |s| && s[0] == ESC
    requires forall k :: 1 <= k < n ==> s[k] != ESC
    requires n > 2 ==> !IsSequence(s, n - 1) && n <= 1 + OpenLimit(s[..n - 1])
    ensures IsEscapeSequenceComplete(s[..n]) <==> IsSequence(s, n)
  {
  }

  lemma SkipEscape(st: State, s: seq<byte>)
    requires s != [] && s[0] == ESC
    ensures var n := SequenceEnd(s, 1);
      var r := Run(Feed, st, s[..n]);
      && View(r) == View(st)
      && (r.inEscape ==> s[n..] == [] || s[n..][0] == ESC)
      && Run(Feed, st, s) == Run(Feed, r, s[n..])
  {
    hide CleanCommand, IsPromptOnly;
    var n := SequenceEnd(s, 1);
    InsideEscape(st, s, n);
    assert s == s[..n] + s[n..];
    RunConcat(Feed, st, s[..n], s[n..]);
  }

  /** Reading the stream with its escape sequences is editing the stream without them. */
  lemma {:induction false} StripThenEdit(st: State, s: seq<byte>)
    requires st.inEscape ==> s == [] || s[0] == ESC
    ensures View(Run(Feed, st, s)) == Run(Edit, View(st), StripEscapes(s))
    decreases |s|
  {
    hide CleanCommand, IsPromptOnly;
    if s == [] {
    } else if s[0] == ESC {
      var n := SequenceEnd(s, 1);
      SkipEscape(st, s);
      StripThenEdit(Run(Feed, st, s[..n]), s[n..]);
    } else {
      var r := Feed(st, s[0]);
      assert s == [s[0]] + s[1..];
      RunCons(Feed, st, s[0], s[1..]);
      StripThenEdit(r, s[1..]);
      assert View(r) == Edit(View(st), s[0]);
      RunCons(Edit, View(st), s[0], StripEscapes(s[1..]));
    }
  }

  // Stripping leaves no ESC behind.
  lemma {:induction false} StripLeavesNoEscape(s: seq<byte>)
    ensures ESC !in StripEscapes(s)
    decreases |s|
  {
    if s != [] {
      StripLeavesNoEscape(if s[0] == ESC then s[SequenceEnd(s, 1)..] else s[1..]);
    }
  }

  function DropLast(s: seq<byte>, k: nat): seq<byte> { if k <= |s| then s[..|s| - k] else [] }

  // The editor's stack holds what the right-to-left reading finds.
  lemma {:induction false} EditIsUnwind(ed: Editor, line: seq<byte>, k: nat)
    requires ed.input == []
    requires forall i :: 0 <= i < |line| ==> !IsNewline(line[i]) && line[i] != ESC
    ensures var r := Run(Edit, ed, line);
      r.saved == ed.saved && AllPrintable(r.input) && Unwind(line, k) == DropLast(r.input, k)
    decreases |line|
  {
    hide CleanCommand, IsPromptOnly;
    if line != [] {
      var b, rest := line[|line| - 1], line[..|line| - 1];
      EditIsUnwind(ed, rest, if IsBackspace(b) then k + 1 else if IsPrintable(b) && k > 0 then k - 1 else k);
    }
  }

  // A newline saves the command of the line it ends, and empties the buffer.
  lemma EditLine(ed: Editor, line: seq<byte>, newline: byte)
    requires ed.input == [] && IsNewline(newline)
    requires forall i :: 0 <= i < |line| ==> !IsNewline(line[i]) && line[i] != ESC
    ensures Run(Edit, ed, line + [newline]) == Editor([], ed.saved + Commands([line]))
  {
    hide CleanCommand, TrimSpace, IsPrompt;
    var mid := Run(Edit, ed, line);
    EditIsUnwind(ed, line, 0);
    assert Unwind(line, 0) == mid.input;
    CleanIsTrim(mid.input);
    TrimIdempotent(mid.input);
    RunSnoc(Edit, ed, line, newline);
    assert [line][1..] == [];
    assert Commands([]) == [];
  }

  lemma EditLineThen(saved: seq<seq<byte>>, line: seq<byte>, newline: byte, rest: seq<byte>)
    requires IsNewline(newline)
    requires forall i :: 0 <= i < |line| ==> !IsNewline(line[i]) && line[i] != ESC
    ensures Run(Edit, Editor([], saved), line + [newline] + rest)
         == Run(Edit, Editor([], saved + Commands([line])), rest)
  {
    hide Edit, Commands;
    EditLine(Editor([], saved), line, newline);
    RunConcat(Edit, Editor([], saved), line + [newline], rest);
  }

  lemma EditUnfinishedLine(saved: seq<seq<byte>>, t: seq<byte>)
    requires ESC !in t && LineEnd(t) == |t|
    ensures Run(Edit, Editor([], saved), t).saved == saved
  {
    hide Edit;
    EditIsUnwind(Editor([], saved), t, 0);
  }

  /** The editor saves the commands of the completed lines. */
  lemma {:induction false} EditSavesCommands(saved: seq<seq<byte>>, t: seq<byte>)
    requires ESC !in t
    ensures Run(Edit, Editor([], saved), t).saved == saved + Commands(Lines(t))
    decreases |t|
  {
    hide Edit, Run, Command;
    var n := LineEnd(t);
    if n == |t| {
      EditUnfinishedLine(saved, t);
    } else {
      var line, rest := t[..n], t[n + 1..];
      var first, others := Commands([line]), Commands(Lines(rest));
      calc {
        Run(Edit, Editor([], saved), t).saved;
        { assert t == line + [t[n]] + rest; EditLineThen(saved, line, t[n], rest); }
        Run(Edit, Editor([], saved + first), rest).saved;
        { EditSavesCommands(saved + first, rest); }
        saved + first + others;
        saved + (first + others);
        { CommandsCons(line, Lines(rest)); }
        saved + Commands(Lines(t));
      }
    }
  }

  lemma CommandsCons(line: seq<byte>, lines: seq<seq<byte>>)
    ensures Commands([line] + lines) == Commands([line]) + Commands(lines)
  {
    assert ([line] + lines)[1..] == lines;
    assert [line][1..] == [];
  }

  /** The automaton saves exactly the commands of the multi-pass reading, for every byte stream. */
  lemma {:induction false} OnePassIsMultiPass(bs: seq<byte>)
    ensures Run(Feed, FRESH, bs).saved == MultiPass(bs)
  {
    StripThenEdit(FRESH, bs);
    StripLeavesNoEscape(bs);
    EditSavesCommands([], StripEscapes(bs));
  }

  // ---------- chunking ----------

  function Concat(chunks: seq<seq<byte>>): seq<byte>
  {
    if chunks == [] then [] else Concat(chunks[..|chunks| - 1]) + chunks[|chunks| - 1]
  }

  // One RecordInput call per chunk, as its contract describes it.
  function Record(st: State, chunk: seq<byte>): State { Run(Feed, st, chunk) }

  /** However a stream is cut into RecordInput calls, the commands saved are those of the whole stream. */
  lemma {:induction false} ChunkingDoesNotMatter(chunks: seq<seq<byte>>)
    ensures Run(Record, FRESH, chunks) == Run(Feed, FRESH, Concat(chunks))
    ensures Run(Record, FRESH, chunks).saved == MultiPass(Concat(chunks))
  {
    if chunks != [] {
      var front, last := chunks[..|chunks| - 1], chunks[|chunks| - 1];
      ChunkingDoesNotMatter(front);
      RunConcat(Feed, FRESH, Concat(front), last);
    }
    OnePassIsMultiPass(Concat(chunks));
  }

  // ---------- what trimming and the keys do, in bytes ----------

  // The bytes that TrimSpace cuts off: tab, line feed, vertical tab, form feed, carriage return, space.
  predicate White(b: byte) { b in {0x09, 0x0a, 0x0b, 0x0c, 0x0d, 0x20} }

  // t is s without the white space at its two ends.
  ghost predicate Trimmed(s: seq<byte>, t: seq<byte>)
  {
    exists i, j :: 0 <= i <= j <= |s| && TrimmedAt(s, t, i, j)
  }

  ghost predicate TrimmedAt(s: seq<byte>, t: seq<byte>, i: nat, j: nat)
    requires i <= j <= |s|
  {
    && t == s[i..j]
    && (forall k :: 0 <= k < i || j <= k < |s| ==> White(s[k]))
    && (t != [] ==> !White(t[0]) && !White(t[|t| - 1]))
  }

  lemma {:induction false} TrimLeftCuts(s: seq<byte>) returns (i: nat)
    ensures i <= |s| && TrimLeft(s) == s[i..] && forall k :: 0 <= k < i ==> White(s[k])
    ensures i < |s| ==> !White(s[i])
  {
    if s != [] && IsSpace(s[0]) {
      var k := TrimLeftCuts(s[1..]);
      i := k + 1;
      assert s[i..] == s[1..][k..];
      assert forall m :: 1 <= m < i ==> s[m] == s[1..][m - 1];
    } else {
      i := 0;
    }
  }

  lemma {:induction false} TrimRightCuts(s: seq<byte>) returns (j: nat)
    ensures j <= |s| && TrimRight(s) == s[..j] && forall k :: j <= k < |s| ==> White(s[k])
    ensures j > 0 ==> !White(s[j - 1])
  {
    if s != [] && IsSpace(s[|s| - 1]) {
      j := TrimRightCuts(s[..|s| - 1]);
      assert s[..j] == s[..|s| - 1][..j];
      assert forall m :: j <= m < |s| - 1 ==> s[m] == s[..|s| - 1][m];
    } else {
      j := |s|;
    }
  }

  /** Trimming cuts off all white space at both ends of a string, and nothing else. */
  lemma {:induction false} TrimCutsWhite(s: seq<byte>)
    ensures Trimmed(s, TrimSpace(s))
  {
    var i := TrimLeftCuts(s);
    var k := TrimRightCuts(s[i..]);
    var j := i + k;
    assert TrimSpace(s) == s[i..][..k] == s[i..j];
    assert forall m :: j <= m < |s| ==> s[m] == s[i..][m - i];
    assert TrimmedAt(s, TrimSpace(s), i, j);
  }

  /** There is only one way to do that. */
  lemma {:induction false} TrimmedIsUnique(s: seq<byte>, t: seq<byte>, u: seq<byte>)
    requires Trimmed(s, t) && Trimmed(s, u)
    ensures t == u
  {
    var i, j :| 0 <= i <= j <= |s| && TrimmedAt(s, t, i, j);
    var k, l :| 0 <= k <= l <= |s| && TrimmedAt(s, u, k, l);
    assert t != [] ==> t[0] == s[i] && t[|t| - 1] == s[j - 1];
    assert u != [] ==> u[0] == s[k] && u[|u| - 1] == s[l - 1];
  }

  // What the four bare prompts are.
  predicate Bare(t: seq<byte>) { |t| == 1 && t[0] in {0x24, 0x23, 0x3e, 0x25} }

  lemma BareIsPrompt(t: seq<byte>)
    ensures Bare(t) <==> IsPrompt(t)
  {
    assert |t| == 1 ==> t == [t[0]];
  }

  // The lines a stream completes, as edited.
  ghost function EditedLines(bs: seq<byte>): seq<seq<byte>> { EditAll(Lines(StripEscapes(bs))) }

  function EditAll(lines: seq<seq<byte>>): seq<seq<byte>>
  {
    if lines == [] then [] else [Unwind(lines[0], 0)] + EditAll(lines[1..])
  }

  // The commands are, in order, the edited lines without the white space at their ends, but for those with
  // nothing or a bare prompt left.
  ghost predicate CommandsOf(edited: seq<seq<byte>>, commands: seq<seq<byte>>)
  {
    if edited == [] then commands == []
    else if exists t :: Trimmed(edited[0], t) && t != [] && !Bare(t) then
      commands != [] && Trimmed(edited[0], commands[0]) && CommandsOf(edited[1..], commands[1..])
    else CommandsOf(edited[1..], commands)
  }

  lemma {:induction false} CommandsAreTrimmed(lines: seq<seq<byte>>)
    ensures CommandsOf(EditAll(lines), Commands(lines))
  {
    if lines != [] {
      CommandsAreTrimmed(lines[1..]);
      var line, cmd := Unwind(lines[0], 0), Command(lines[0]);
      TrimCutsWhite(line);
      BareIsPrompt(cmd);
      assert EditAll(lines)[1..] == EditAll(lines[1..]);
      hide Trimmed, TrimSpace, IsPrompt, Bare;
      if cmd != [] && !Bare(cmd) {
        assert Commands(lines) == [cmd] + Commands(lines[1..]);
        assert Commands(lines)[1..] == Commands(lines[1..]);
      } else {
        assert Commands(lines) == Commands(lines[1..]);
        forall t | Trimmed(line, t) ensures t == cmd { TrimmedIsUnique(line, t, cmd); }
      }
    }
  }

  /** For every byte stream, however it is cut, the commands saved are, in order, the edited lines without the
      white space at their ends, but for those of which nothing or a bare prompt is left. */
  lemma {:induction false} SavedAreTrimmedLines(chunks: seq<seq<byte>>)
    ensures CommandsOf(EditedLines(Concat(chunks)), Run(Record, FRESH, chunks).saved)
  {
    ChunkingDoesNotMatter(chunks);
    CommandsAreTrimmed(Lines(StripEscapes(Concat(chunks))));
  }

  // Printable text goes into the buffer as it is.
  lemma {:induction false} TypingAppends(st: State, text: seq<byte>)
    requires !st.inEscape && forall k :: 0 <= k < |text| ==> 0x20 <= text[k] < 0x7f
    ensures Run(Feed, st, text) == st.(input := st.input + text)
  {
    hide CleanCommand, IsPromptOnly;
    if text != [] {
      TypingAppends(st, text[..|text| - 1]);
    } else {
      assert st.input + text == st.input;
    }
  }

  /** Typing, in bytes: text followed by CR or LF is saved without the white space at its ends, Backspace and
      Delete take a character back, Ctrl+C and Ctrl+U the line, and other control characters do nothing. */
  lemma {:induction false} KeysAsNamed(saved: seq<seq<byte>>, text: seq<byte>, c: byte, b: byte)
    requires (forall k :: 0 <= k < |text| ==> 0x20 <= text[k] < 0x7f) && 0x20 <= c < 0x7f
    ensures var st := State(text, false, [], saved);
      && (b in {0x0d, 0x0a} ==>
            exists t :: Trimmed(text, t)
              && Feed(st, b) == State([], false, [], if t == [] || Bare(t) then saved else saved + [t]))
      && (b in {0x7f, 0x08} ==> Feed(Feed(st, c), b) == st && Feed(st.(input := []), b) == st.(input := []))
      && (b in {0x03, 0x15} ==> Feed(st, b) == st.(input := []))
      && (b !in {0x0d, 0x0a, 0x7f, 0x08, 0x03, 0x15, 0x1b} && !(0x20 <= b < 0x7f) ==> Feed(st, b) == st)
  {
    assert (text + [c])[..|text|] == text;
    CleanIsTrim(text);
    TrimIdempotent(text);
    TrimCutsWhite(text);
    BareIsPrompt(TrimSpace(text));
    assert Trimmed(text, CleanCommand(text));
    hide CleanCommand, TrimSpace, Trimmed, IsPrompt, Bare;
  }

  /** Escape sequences, in bytes and in every run: ESC starts one afresh; inside one every byte is collected, and
      it ends one that starts with `[` when it is a letter or `~` or the 21st byte, one that starts with `]` when
      it is BEL or the 257th, one that starts with `N` or `O` at once, and is the end of any other by itself. */
  lemma {:induction false} EscapesAsNamed(bs: seq<byte>, b: byte)
    ensures var st := Run(Feed, FRESH, bs);
      if b == 0x1b then Feed(st, b) == st.(inEscape := true, escape := [0x1b])
      else if st.inEscape then
        var e := st.escape;
        var goesOn := if |e| == 1 then b in {0x5b, 0x5d, 0x4e, 0x4f}
                      else if e[1] == 0x5b then !(0x41 <= b <= 0x5a || 0x61 <= b <= 0x7a || b == 0x7e) && |e| < 20
                      else e[1] == 0x5d && b != 0x07 && |e| < 256;
        Feed(st, b) == st.(inEscape := goesOn, escape := if goesOn then e + [b] else [])
      else !Feed(st, b).inEscape && Feed(st, b).escape == []
  {
    ReachableStates(bs);
    hide CleanCommand, IsPromptOnly;
  }
}
