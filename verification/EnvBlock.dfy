/**
 The managed comment block in a `.env` file: where it is put, how it is replaced, and that editing
 settles without touching a byte outside it.
 */
module EnvBlock {
  import opened Utf8
  import opened Wrappers

  datatype Reason = Undecodable | RenderedCredential | MarkersInvalid

  datatype Newline = Crlf | Lf

  function NewlineText(n: Newline): string { if n.Crlf? then "\r\n" else "\n" }

  // ---------- lines ----------

  /** The line boundaries of `str.splitlines`. */
  predicate IsBreak(c: char) {
    c == '\n' || c == '\r' || c == '\U{0B}' || c == '\U{0C}' || '\U{1C}' <= c <= '\U{1E}' || c == '\U{85}' || c == '\U{2028}' || c == '\U{2029}'
  }

  lemma LineBoundaries(c: char)
    ensures IsBreak(c) <==> c as int in {10, 11, 12, 13, 28, 29, 30, 133, 8232, 8233}
  {
  }

  predicate NoBreak(s: string) { forall i | 0 <= i < |s| :: !IsBreak(s[i]) }

  function FirstLine(t: string): (n: nat)
    requires t != ""
    ensures 0 < n <= |t|
  {
    if t[0] == '\r' && |t| > 1 && t[1] == '\n' then 2
    else if IsBreak(t[0]) || |t| == 1 then 1
    else 1 + FirstLine(t[1..])
  }

  function SplitLines(t: string): seq<string> {
    if t == "" then [] else [t[..FirstLine(t)]] + SplitLines(t[FirstLine(t)..])
  }

  function Concat(lines: seq<string>): string {
    if lines == [] then "" else lines[0] + Concat(lines[1..])
  }

  /** Without the line feeds and carriage returns at its end. */
  function Stripped(line: string): string {
    if line != "" && (line[|line| - 1] == '\n' || line[|line| - 1] == '\r') then Stripped(line[..|line| - 1]) else line
  }

  function Positions(lines: seq<string>, mark: string, from: nat): seq<nat> {
    if lines == [] then []
    else (if Stripped(lines[0]) == mark then [from] else []) + Positions(lines[1..], mark, from + 1)
  }

  // ---------- the majority of line ends ----------

  function CountLf(t: string): nat {
    if t == "" then 0 else (if t[0] == '\n' then 1 else 0) + CountLf(t[1..])
  }

  function CountCrlf(t: string): nat {
    if |t| < 2 then 0 else (if t[0] == '\r' && t[1] == '\n' then 1 else 0) + CountCrlf(t[1..])
  }

  function Majority(t: string): Newline {
    if CountCrlf(t) >= CountLf(t) - CountCrlf(t) then Crlf else Lf
  }

  // ---------- the edit, for a block of any lines ----------

  function Ended(lines: seq<string>, n: Newline): (r: seq<string>)
    ensures |r| == |lines|
  {
    if lines == [] then [] else [lines[0] + NewlineText(n)] + Ended(lines[1..], n)
  }

  function Render(block: seq<string>, n: Newline): string { Concat(Ended(block, n)) }

  /** The first line of a block marks its start, the last its end. */
  predicate Block(block: seq<string>) {
    && |block| >= 2 && block[0] != "" && block[|block| - 1] != "" && block[0] != block[|block| - 1]
    && (forall i | 0 <= i < |block| :: NoBreak(block[i]))
    && (forall i | 0 < i < |block| - 1 :: block[i] != block[0] && block[i] != block[|block| - 1])
  }

  function StartOf(block: seq<string>): string
    requires block != []
  {
    block[0]
  }

  function EndOf(block: seq<string>): string
    requires block != []
  {
    block[|block| - 1]
  }

  /** `credential` is the secret filter over the rendered text. */
  function RewriteText(content: string, block: seq<string>, credential: string -> bool): Result<string, Reason>
    requires block != []
  {
    var newline := Majority(content);
    var rendered := Render(block, newline);
    if credential(rendered) then Err(RenderedCredential)
    else
      var lines := SplitLines(content);
      var starts, ends := Positions(lines, StartOf(block), 0), Positions(lines, EndOf(block), 0);
      if |starts| != |ends| || |starts| > 1 || (starts != [] && starts[0] >= ends[0]) then Err(MarkersInvalid)
      else if starts != [] then
        PositionsInRange(lines, EndOf(block), 0);
        Ok(Concat(lines[..starts[0]]) + rendered + Concat(lines[ends[0] + 1..]))
      else Ok(Terminated(content, newline) + rendered)
  }

  /** With a line end, unless there is one. */
  function Terminated(content: string, n: Newline): string {
    if content == "" || content[|content| - 1] == '\n' || content[|content| - 1] == '\r' then content
    else content + NewlineText(n)
  }

  const BOM: Bytes := [0xEF, 0xBB, 0xBF]

  function BomOf(raw: Bytes): Bytes { if BOM <= raw then BOM else [] }

  function TextOf(raw: Bytes): Option<string> { Decode(if BOM <= raw then raw[3..] else raw) }

  function RewriteBytes(raw: Bytes, block: seq<string>, credential: string -> bool): Result<Bytes, Reason>
    requires block != []
  {
    var (bom, content) := if BOM <= raw then (BOM, raw[3..]) else ([], raw);
    var text := Decode(content);
    if text.None? then Err(Undecodable)
    else
      var output := RewriteText(text.value, block, credential);
      if output.Err? then Err(output.error) else Ok(bom + Encode(output.value))
  }

  lemma {:induction false} PositionsInRange(lines: seq<string>, mark: string, from: nat)
    ensures forall i | 0 <= i < |Positions(lines, mark, from)| :: from <= Positions(lines, mark, from)[i] < from + |lines|
  {
    if lines != [] {
      PositionsInRange(lines[1..], mark, from + 1);
    }
  }

  lemma {:induction false} PositionsConcat(a: seq<string>, b: seq<string>, mark: string, from: nat)
    ensures Positions(a + b, mark, from) == Positions(a, mark, from) + Positions(b, mark, from + |a|)
  {
    if a == [] {
      assert a + b == b;
    } else {
      assert a + b == [a[0]] + (a[1..] + b);
      PositionsHead(a[0], a[1..] + b, mark, from);
      assert a == [a[0]] + a[1..];
      PositionsHead(a[0], a[1..], mark, from);
      PositionsConcat(a[1..], b, mark, from + 1);
      assert from + 1 + |a[1..]| == from + |a|;
    }
  }

  lemma PositionsHead(line: string, rest: seq<string>, mark: string, from: nat)
    ensures Positions([line] + rest, mark, from) == (if Stripped(line) == mark then [from] else []) + Positions(rest, mark, from + 1)
  {
    assert ([line] + rest)[1..] == rest;
  }

  // ---------- splitting and joining ----------

  lemma {:induction false} ConcatOfSplit(t: string)
    ensures Concat(SplitLines(t)) == t
  {
    if t != "" {
      var k := FirstLine(t);
      ConcatOfSplit(t[k..]);
      assert SplitLines(t)[1..] == SplitLines(t[k..]);
      assert t == t[..k] + t[k..];
    }
  }

  lemma {:induction false} ConcatConcat(a: seq<string>, b: seq<string>)
    ensures Concat(a + b) == Concat(a) + Concat(b)
  {
    if a == [] {
      assert a + b == b;
    } else {
      assert (a + b)[1..] == a[1..] + b;
      ConcatConcat(a[1..], b);
    }
  }

  /** `a` ends a line when `b` follows. */
  predicate EndsLine(a: string, b: string) {
    a == "" || (IsBreak(a[|a| - 1]) && !(a[|a| - 1] == '\r' && b != "" && b[0] == '\n'))
  }

  lemma {:induction false} FirstLineConcat(a: string, b: string)
    requires a != "" && EndsLine(a, b)
    ensures FirstLine(a + b) == FirstLine(a)
  {
    if |a| > 1 {
      assert (a + b)[1..] == a[1..] + b;
      if !IsBreak(a[0]) {
        FirstLineConcat(a[1..], b);
      }
    }
  }

  lemma {:induction false} SplitConcat(a: string, b: string)
    requires EndsLine(a, b)
    ensures SplitLines(a + b) == SplitLines(a) + SplitLines(b)
    decreases |a|
  {
    if a == "" {
      assert a + b == b;
    } else {
      FirstLineConcat(a, b);
      var k := FirstLine(a);
      assert (a + b)[..k] == a[..k] && (a + b)[k..] == a[k..] + b;
      SplitConcat(a[k..], b);
      assert [a[..k]] + (SplitLines(a[k..]) + SplitLines(b)) == ([a[..k]] + SplitLines(a[k..])) + SplitLines(b);
    }
  }

  lemma {:induction false} FirstLineEnds(t: string)
    requires t != "" && FirstLine(t) < |t|
    ensures EndsLine(t[..FirstLine(t)], t[FirstLine(t)..])
  {
    if !(t[0] == '\r' && t[1] == '\n') && !IsBreak(t[0]) {
      FirstLineEnds(t[1..]);
      var k := FirstLine(t[1..]);
      assert t[..k + 1][k] == t[1..][..k][k - 1] && t[k + 1..] == t[1..][k..];
    }
  }

  /** A text cut between two lines: both halves have their lines. */
  lemma {:induction false} CutLines(t: string, i: nat) returns (p: string, q: string)
    requires i <= |SplitLines(t)|
    ensures t == p + q && SplitLines(p) == SplitLines(t)[..i] && SplitLines(q) == SplitLines(t)[i..]
    ensures q != "" ==> EndsLine(p, q)
    decreases |t|
  {
    if i == 0 {
      p, q := "", t;
    } else {
      var first, rest := t[..FirstLine(t)], t[FirstLine(t)..];
      var tail := SplitLines(rest);
      p, q := CutLines(rest, i - 1);
      HeadJoins(t, p, q);
      HeadCut(first, tail, i);
      CutStep(t, first, rest, p, q);
      p := first + p;
    }
  }

  lemma CutStep(t: string, first: string, rest: string, p: string, q: string)
    requires t == first + rest && rest == p + q
    ensures t == (first + p) + q
  {
  }

  lemma HeadCut(line: string, lines: seq<string>, i: nat)
    requires 0 < i <= |lines| + 1
    ensures ([line] + lines)[..i] == [line] + lines[..i - 1] && ([line] + lines)[i..] == lines[i - 1..]
  {
  }

  lemma HeadJoins(t: string, p: string, q: string)
    requires t != "" && t[FirstLine(t)..] == p + q
    ensures SplitLines(t[..FirstLine(t)] + p) == [t[..FirstLine(t)]] + SplitLines(p)
    ensures q != "" && EndsLine(p, q) ==> EndsLine(t[..FirstLine(t)] + p, q)
  {
    var first := t[..FirstLine(t)];
    FirstLineWhole(t);
    if p + q != "" {
      FirstLineEnds(t);
      assert p != "" ==> (p + q)[0] == p[0];
    }
    if p == "" {
      assert first + p == first && p + q == q;
    } else {
      SplitConcat(first, p);
    }
  }

  /** A first line on its own is one line. */
  lemma {:induction false} FirstLineWhole(t: string)
    requires t != ""
    ensures SplitLines(t[..FirstLine(t)]) == [t[..FirstLine(t)]]
  {
    var k := FirstLine(t);
    FirstLineAgain(t);
    var u := t[..k];
    assert u[..k] == u && u[k..] == "";
    assert SplitLines(u) == [u[..k]] + SplitLines(u[k..]);
  }

  lemma {:induction false} FirstLineAgain(t: string)
    requires t != ""
    ensures FirstLine(t[..FirstLine(t)]) == FirstLine(t)
  {
    var k := FirstLine(t);
    var u := t[..k];
    assert u[0] == t[0] && |u| == k;
    if t[0] == '\r' && |t| > 1 && t[1] == '\n' {
      assert k == 2 && u[1] == t[1];
      assert FirstLine(u) == 2;
    } else if IsBreak(t[0]) || |t| == 1 {
      assert FirstLine(u) == 1;
    } else {
      FirstLineAgain(t[1..]);
      assert u[1..] == t[1..][..k - 1];
      assert FirstLine(u) == 1 + FirstLine(u[1..]);
    }
  }

  // ---------- marks ----------

  lemma {:induction false} PositionsMean(lines: seq<string>, mark: string, from: nat, x: nat)
    ensures x in Positions(lines, mark, from) <==> from <= x < from + |lines| && Stripped(lines[x - from]) == mark
  {
    if lines != [] {
      assert lines == [lines[0]] + lines[1..];
      PositionsHead(lines[0], lines[1..], mark, from);
      PositionsMean(lines[1..], mark, from + 1, x);
      assert from < x < from + |lines| ==> lines[1..][x - from - 1] == lines[x - from];
    }
  }

  predicate Unmarked(lines: seq<string>, mark: string) {
    forall i | 0 <= i < |lines| :: Stripped(lines[i]) != mark
  }

  lemma {:induction false} UnmarkedPositions(lines: seq<string>, mark: string, from: nat)
    ensures Unmarked(lines, mark) <==> Positions(lines, mark, from) == []
  {
    if lines != [] {
      UnmarkedPositions(lines[1..], mark, from + 1);
      assert Unmarked(lines, mark) <==> Stripped(lines[0]) != mark && Unmarked(lines[1..], mark) by {
        assert forall i | 0 < i < |lines| :: lines[i] == lines[1..][i - 1];
      }
    }
  }

  /** A single mark: nothing else is marked. */
  lemma OnlyMark(lines: seq<string>, mark: string, p: nat)
    requires Positions(lines, mark, 0) == [p]
    ensures p < |lines| && Stripped(lines[p]) == mark
    ensures forall i | 0 <= i < |lines| && i != p :: Stripped(lines[i]) != mark
  {
    PositionsMean(lines, mark, 0, p);
    assert p in [p];
    forall i | 0 <= i < |lines| && i != p
      ensures Stripped(lines[i]) != mark
    {
      PositionsMean(lines, mark, 0, i);
      assert i !in [p];
    }
  }

  // ---------- the rendered block ----------

  lemma {:induction false} OneLine(line: string, n: Newline)
    requires NoBreak(line)
    ensures FirstLine(line + NewlineText(n)) == |line| + |NewlineText(n)|
  {
    var nl := NewlineText(n);
    if line == "" {
      assert line + nl == nl;
    } else {
      assert (line + nl)[1..] == line[1..] + nl;
      OneLine(line[1..], n);
    }
  }

  lemma StripOne(line: string, c: char)
    requires c == '\n' || c == '\r'
    ensures Stripped(line + [c]) == Stripped(line)
  {
    assert (line + [c])[..|line|] == line;
  }

  lemma {:induction false} StrippedLine(line: string, n: Newline)
    requires NoBreak(line)
    ensures Stripped(line + NewlineText(n)) == line
  {
    var t := line + NewlineText(n);
    assert line != "" ==> !IsBreak(line[|line| - 1]);
    assert Stripped(line) == line;
    if n.Crlf? {
      assert t == (line + "\r") + "\n";
      StripOne(line + "\r", '\n');
      StripOne(line, '\r');
    } else {
      StripOne(line, '\n');
    }
  }

  lemma {:induction false} SplitEnded(lines: seq<string>, n: Newline)
    requires forall i | 0 <= i < |lines| :: NoBreak(lines[i])
    ensures SplitLines(Concat(Ended(lines, n))) == Ended(lines, n)
    ensures |Ended(lines, n)| == |lines| && forall i | 0 <= i < |lines| :: Stripped(Ended(lines, n)[i]) == lines[i]
  {
    if lines != [] {
      var a := lines[0] + NewlineText(n);
      var rest := Ended(lines[1..], n);
      SplitEnded(lines[1..], n);
      OneLine(lines[0], n);
      StrippedLine(lines[0], n);
      assert a[..|a|] == a && a[|a|..] == "";
      assert SplitLines(a) == [a];
      assert a[|a| - 1] == '\n';
      SplitConcat(a, Concat(rest));
      assert Ended(lines, n)[1..] == rest;
    }
  }

  lemma {:induction false} PlainMarks(lines: seq<string>, n: Newline, mark: string, p: nat, from: nat)
    requires forall i | 0 <= i < |lines| :: NoBreak(lines[i])
    requires p < |lines| && lines[p] == mark && forall i | 0 <= i < |lines| && i != p :: lines[i] != mark
    ensures Positions(Ended(lines, n), mark, from) == [from + p]
  {
    StrippedLine(lines[0], n);
    var rest := Ended(lines[1..], n);
    assert Ended(lines, n) == [lines[0] + NewlineText(n)] + rest;
    PositionsHead(lines[0] + NewlineText(n), rest, mark, from);
    if p == 0 {
      SplitEnded(lines[1..], n);
      UnmarkedPositions(rest, mark, from + 1);
    } else {
      PlainMarks(lines[1..], n, mark, p - 1, from + 1);
    }
  }

  // ---------- counting line ends ----------

  lemma {:induction false} CountLfConcat(a: string, b: string)
    ensures CountLf(a + b) == CountLf(a) + CountLf(b)
  {
    if a == "" {
      assert a + b == b;
    } else {
      assert (a + b)[1..] == a[1..] + b;
      CountLfConcat(a[1..], b);
    }
  }

  lemma {:induction false} CountCrlfConcat(a: string, b: string)
    requires a == "" || b == "" || a[|a| - 1] != '\r' || b[0] != '\n'
    ensures CountCrlf(a + b) == CountCrlf(a) + CountCrlf(b)
  {
    if a == "" {
      assert a + b == b;
    } else if b == "" {
      assert a + b == a;
    } else {
      assert (a + b)[1..] == a[1..] + b;
      CountCrlfConcat(a[1..], b);
    }
  }

  lemma {:induction false} CountLine(line: string, n: Newline)
    requires NoBreak(line)
    ensures CountLf(line + NewlineText(n)) == 1 && CountCrlf(line + NewlineText(n)) == if n.Crlf? then 1 else 0
  {
    var nl := NewlineText(n);
    if line == "" {
      assert line + nl == nl;
      assert nl[1..] == if n.Crlf? then "\n" else "";
      assert "\n"[1..] == "" && CountLf("\n") == 1;
    } else {
      assert (line + nl)[1..] == line[1..] + nl;
      CountLine(line[1..], n);
    }
  }

  lemma {:induction false} CountEnded(lines: seq<string>, n: Newline)
    requires forall i | 0 <= i < |lines| :: NoBreak(lines[i])
    ensures CountLf(Concat(Ended(lines, n))) == |lines|
    ensures CountCrlf(Concat(Ended(lines, n))) == if n.Crlf? then |lines| else 0
  {
    if lines != [] {
      var a := lines[0] + NewlineText(n);
      CountLine(lines[0], n);
      CountEnded(lines[1..], n);
      CountLfConcat(a, Concat(Ended(lines[1..], n)));
      CountCrlfConcat(a, Concat(Ended(lines[1..], n)));
      assert Ended(lines, n)[1..] == Ended(lines[1..], n);
    }
  }

  // ---------- a document around a block ----------

  predicate NoMarks(lines: seq<string>, block: seq<string>)
    requires block != []
  {
    Unmarked(lines, StartOf(block)) && Unmarked(lines, EndOf(block))
  }

  /** What stands before and behind a block: whole lines, none of them a mark. */
  predicate Outside(a: string, b: string, block: seq<string>)
    requires block != []
  {
    && (a == "" || IsBreak(a[|a| - 1]))
    && NoMarks(SplitLines(a), block) && NoMarks(SplitLines(b), block)
  }

  function Document(a: string, block: seq<string>, n: Newline, b: string): string {
    a + Render(block, n) + b
  }

  lemma {:induction false} EndedEnds(lines: seq<string>, n: Newline)
    requires lines != []
    ensures var t := Concat(Ended(lines, n)); t != "" && t[|t| - 1] == '\n'
  {
    var rest := Ended(lines[1..], n);
    assert Ended(lines, n)[1..] == rest;
    if |lines| > 1 {
      EndedEnds(lines[1..], n);
    }
  }

  lemma RenderShape(block: seq<string>, n: Newline)
    requires Block(block)
    ensures var t := Render(block, n); t != "" && t[|t| - 1] == '\n' && t[0] != '\n'
  {
    EndedEnds(block, n);
    assert Render(block, n)[0] == block[0][0];
  }

  lemma DocumentLines(a: string, block: seq<string>, n: Newline, b: string)
    requires Block(block) && Outside(a, b, block)
    ensures SplitLines(Document(a, block, n, b)) == SplitLines(a) + Ended(block, n) + SplitLines(b)
  {
    RenderShape(block, n);
    SplitEnded(block, n);
    var r := Render(block, n);
    SplitConcat(a, r);
    assert (a + r)[|a + r| - 1] == r[|r| - 1];
    SplitConcat(a + r, b);
  }

  lemma ThreePositions(x: seq<string>, y: seq<string>, z: seq<string>, mark: string)
    requires Unmarked(x, mark) && Unmarked(z, mark)
    ensures Positions(x + y + z, mark, 0) == Positions(y, mark, |x|)
  {
    PositionsConcat(x + y, z, mark, 0);
    PositionsConcat(x, y, mark, 0);
    UnmarkedPositions(x, mark, 0);
    UnmarkedPositions(z, mark, |x + y|);
  }

  /** Between unmarked lines only the block is marked. */
  lemma AroundMark(lines: seq<string>, x: seq<string>, z: seq<string>, block: seq<string>, n: Newline, p: nat)
    requires Block(block) && NoMarks(x, block) && NoMarks(z, block) && (p == 0 || p == |block| - 1)
    requires lines == x + Ended(block, n) + z
    ensures Positions(lines, block[p], 0) == [|x| + p]
  {
    MarkedOnce(block, n, p, |x|);
    ThreePositions(x, Ended(block, n), z, block[p]);
  }

  lemma MarkedOnce(block: seq<string>, n: Newline, p: nat, from: nat)
    requires Block(block) && (p == 0 || p == |block| - 1)
    ensures Positions(Ended(block, n), block[p], from) == [from + p]
  {
    PlainMarks(block, n, block[p], p, from);
  }

  lemma Slices(x: seq<string>, y: seq<string>, z: seq<string>)
    ensures (x + y + z)[..|x|] == x && (x + y + z)[|x| + |y|..] == z
  {
  }

  /** Editing a document around a block only changes the line ends of the block. */
  lemma DocumentRewrites(a: string, block: seq<string>, n: Newline, b: string, credential: string -> bool)
    requires Block(block) && Outside(a, b, block)
    ensures var m := Majority(Document(a, block, n, b));
      RewriteText(Document(a, block, n, b), block, credential)
        == (if credential(Render(block, m)) then Err(RenderedCredential) else Ok(Document(a, block, m, b)))
  {
    DocumentLines(a, block, n, b);
    ConcatOfSplit(a);
    ConcatOfSplit(b);
    AroundRewrites(Document(a, block, n, b), SplitLines(a), SplitLines(b), block, n, credential);
  }

  lemma AroundRewrites(t: string, x: seq<string>, z: seq<string>, block: seq<string>, n: Newline, credential: string -> bool)
    requires Block(block) && NoMarks(x, block) && NoMarks(z, block)
    requires SplitLines(t) == x + Ended(block, n) + z
    ensures var r := Render(block, Majority(t));
      RewriteText(t, block, credential) == (if credential(r) then Err(RenderedCredential) else Ok(Concat(x) + r + Concat(z)))
  {
    AroundMark(SplitLines(t), x, z, block, n, 0);
    AroundMark(SplitLines(t), x, z, block, n, |block| - 1);
    BetweenRewrites(t, x, Ended(block, n), z, block, credential);
  }

  lemma BetweenRewrites(t: string, x: seq<string>, y: seq<string>, z: seq<string>, block: seq<string>, credential: string -> bool)
    requires |block| >= 2 && |y| == |block| && SplitLines(t) == x + y + z
    requires Positions(SplitLines(t), StartOf(block), 0) == [|x|]
    requires Positions(SplitLines(t), EndOf(block), 0) == [|x| + |block| - 1]
    ensures var r := Render(block, Majority(t));
      RewriteText(t, block, credential) == (if credential(r) then Err(RenderedCredential) else Ok(Concat(x) + r + Concat(z)))
  {
    Slices(x, y, z);
    MarkedRewrites(t, SplitLines(t), block, credential, |x|, |x| + |block| - 1);
  }

  /** The edit of a text with one start line and one later end line. */
  lemma MarkedRewrites(t: string, lines: seq<string>, block: seq<string>, credential: string -> bool, s: nat, e: nat)
    requires block != [] && s < e && lines == SplitLines(t)
    requires Positions(lines, StartOf(block), 0) == [s] && Positions(lines, EndOf(block), 0) == [e]
    ensures e < |lines|
    ensures var r := Render(block, Majority(t));
      RewriteText(t, block, credential)
        == (if credential(r) then Err(RenderedCredential) else Ok(Concat(lines[..s]) + r + Concat(lines[e + 1..])))
  {
    PositionsInRange(lines, EndOf(block), 0);
    assert Positions(lines, EndOf(block), 0)[0] == e;
  }

  lemma DocumentCounts(a: string, block: seq<string>, n: Newline, b: string)
    requires Block(block)
    ensures CountLf(Document(a, block, n, b)) == CountLf(a) + |block| + CountLf(b)
    ensures CountCrlf(Document(a, block, n, b)) == CountCrlf(a) + (if n.Crlf? then |block| else 0) + CountCrlf(b)
  {
    var r := Render(block, n);
    RenderShape(block, n);
    CountEnded(block, n);
    CountLfConcat(a + r, b);
    CountLfConcat(a, r);
    CountCrlfConcat(a, r);
    assert (a + r)[|a + r| - 1] == '\n';
    CountCrlfConcat(a + r, b);
  }

  /** The majority of line ends settles after one edit of the block. */
  lemma MajoritySettles(a: string, block: seq<string>, n: Newline, b: string)
    requires Block(block)
    ensures var m := Majority(Document(a, block, n, b)); Majority(Document(a, block, m, b)) == m
  {
    DocumentCounts(a, block, n, b);
    DocumentCounts(a, block, Majority(Document(a, block, n, b)), b);
  }

  // ---------- every accepted text ----------

  /** Line `s` is the only start mark and the later line `e` the only end mark. */
  ghost predicate Marked(lines: seq<string>, block: seq<string>, s: nat, e: nat)
    requires block != []
  {
    && s < e < |lines|
    && (forall i | 0 <= i < |lines| :: Stripped(lines[i]) == StartOf(block) <==> i == s)
    && (forall i | 0 <= i < |lines| :: Stripped(lines[i]) == EndOf(block) <==> i == e)
  }

  /** An accepted text with a block has one start line and a later end line; the lines from the one to
      the other are replaced, the lines before and behind them stay. */
  lemma ReplacesOnlyTheBlock(content: string, block: seq<string>, credential: string -> bool)
    returns (s: nat, e: nat, a: string, former: string, b: string)
    requires Block(block) && RewriteText(content, block, credential).Ok?
    requires Positions(SplitLines(content), StartOf(block), 0) != []
    ensures var lines := SplitLines(content);
      Marked(lines, block, s, e) && a == Concat(lines[..s]) && former == Concat(lines[s..e + 1]) && b == Concat(lines[e + 1..])
    ensures content == a + former + b && Outside(a, b, block)
    ensures SplitLines(a) == SplitLines(content)[..s] && SplitLines(b) == SplitLines(content)[e + 1..]
    ensures RewriteText(content, block, credential) == Ok(Document(a, block, Majority(content), b))
  {
    s, e := MarksOf(content, block, credential);
    a, former, b := CutTwice(content, s, e + 1);
    ConcatOfSplit(a);
    ConcatOfSplit(former);
    ConcatOfSplit(b);
    OutsideOf(SplitLines(content), s, e, block);
  }

  lemma MarksOf(content: string, block: seq<string>, credential: string -> bool) returns (s: nat, e: nat)
    requires Block(block) && RewriteText(content, block, credential).Ok?
    requires Positions(SplitLines(content), StartOf(block), 0) != []
    ensures var lines := SplitLines(content);
      && Marked(lines, block, s, e)
      && RewriteText(content, block, credential) == Ok(Concat(lines[..s]) + Render(block, Majority(content)) + Concat(lines[e + 1..]))
  {
    var lines := SplitLines(content);
    s, e := Positions(lines, StartOf(block), 0)[0], Positions(lines, EndOf(block), 0)[0];
    OnlyMark(lines, StartOf(block), s);
    OnlyMark(lines, EndOf(block), e);
    MarkedRewrites(content, lines, block, credential, s, e);
  }

  lemma CutTwice(t: string, s: nat, e: nat) returns (a: string, m: string, b: string)
    requires s < e <= |SplitLines(t)|
    ensures t == a + m + b && SplitLines(a) == SplitLines(t)[..s] && SplitLines(b) == SplitLines(t)[e..]
    ensures SplitLines(m) == SplitLines(t)[s..e]
    ensures a == "" || IsBreak(a[|a| - 1])
  {
    var p;
    p, b := CutLines(t, e);
    a, m := CutLines(p, s);
    assert SplitLines(t)[..e][..s] == SplitLines(t)[..s];
    assert SplitLines(t)[..e][s..] == SplitLines(t)[s..e];
    assert |SplitLines(m)| > 0;
  }

  lemma OutsideOf(lines: seq<string>, s: nat, e: nat, block: seq<string>)
    requires block != [] && s < e < |lines|
    requires forall i | 0 <= i < |lines| && i != s :: Stripped(lines[i]) != StartOf(block)
    requires forall i | 0 <= i < |lines| && i != e :: Stripped(lines[i]) != EndOf(block)
    ensures NoMarks(lines[..s], block) && NoMarks(lines[e + 1..], block)
  {
  }

  lemma {:induction false} WholeLineNoBreak(t: string)
    requires t != "" && FirstLine(t) == |t| && !IsBreak(t[|t| - 1])
    ensures NoBreak(t)
  {
    if |t| > 1 {
      WholeLineNoBreak(t[1..]);
      assert forall i | 0 < i < |t| :: t[i] == t[1..][i - 1];
    }
  }

  lemma {:induction false} LastLineUnmarked(t: string, n: Newline, mark: string)
    requires t != "" && FirstLine(t) == |t| && t[|t| - 1] != '\n' && t[|t| - 1] != '\r'
    requires Unmarked([t], mark) && mark != ""
    ensures Unmarked(SplitLines(t + NewlineText(n)), mark)
  {
    assert [t][0] == t && Stripped(t) == t;
    if IsBreak(t[|t| - 1]) {
      BrokenLast(t, n);
      StrippedLine("", n);
      assert "" + NewlineText(n) == NewlineText(n);
    } else {
      WholeLineNoBreak(t);
      PlainLast(t, n);
      StrippedLine(t, n);
    }
  }

  lemma BrokenLast(t: string, n: Newline)
    requires t != "" && FirstLine(t) == |t| && IsBreak(t[|t| - 1]) && t[|t| - 1] != '\r'
    ensures SplitLines(t + NewlineText(n)) == [t, NewlineText(n)]
  {
    SplitConcat(t, NewlineText(n));
    FirstLineWhole(t);
    assert t[..|t|] == t;
    PlainLast("", n);
    assert "" + NewlineText(n) == NewlineText(n);
  }

  lemma PlainLast(t: string, n: Newline)
    requires NoBreak(t)
    ensures SplitLines(t + NewlineText(n)) == [t + NewlineText(n)]
  {
    OneLine(t, n);
    var u := t + NewlineText(n);
    assert u[..|u|] == u && u[|u|..] == "";
  }

  lemma {:induction false} TerminatedUnmarked(t: string, n: Newline, mark: string)
    requires t != "" && t[|t| - 1] != '\n' && t[|t| - 1] != '\r'
    requires Unmarked(SplitLines(t), mark) && mark != ""
    ensures Unmarked(SplitLines(t + NewlineText(n)), mark)
    decreases |t|
  {
    var k := FirstLine(t);
    var first, rest := t[..k], t[k..];
    assert SplitLines(t) == [first] + SplitLines(rest);
    if k == |t| {
      assert first == t && SplitLines(rest) == [] && SplitLines(t) == [t];
      LastLineUnmarked(t, n, mark);
    } else {
      TailUnmarked(first, SplitLines(rest), mark);
      TerminatedUnmarked(rest, n, mark);
      FirstLineStays(t, NewlineText(n));
      HeadUnmarked(first, SplitLines(rest + NewlineText(n)), mark);
    }
  }

  lemma FirstLineStays(t: string, more: string)
    requires t != "" && FirstLine(t) < |t|
    ensures SplitLines(t + more) == [t[..FirstLine(t)]] + SplitLines(t[FirstLine(t)..] + more)
  {
    var first, rest := t[..FirstLine(t)], t[FirstLine(t)..];
    FirstLineEnds(t);
    FirstLineWhole(t);
    assert (rest + more)[0] == rest[0];
    SplitConcat(first, rest + more);
    assert first + (rest + more) == t + more;
  }

  lemma TailUnmarked(line: string, lines: seq<string>, mark: string)
    requires Unmarked([line] + lines, mark)
    ensures Stripped(line) != mark && Unmarked(lines, mark)
  {
    assert ([line] + lines)[0] == line;
    assert forall i | 0 <= i < |lines| :: lines[i] == ([line] + lines)[i + 1];
  }

  lemma HeadUnmarked(line: string, lines: seq<string>, mark: string)
    requires Stripped(line) != mark && Unmarked(lines, mark)
    ensures Unmarked([line] + lines, mark)
  {
  }

  /** An accepted text without a block gets one at its end, after a line end. */
  lemma AppendsTheBlock(content: string, block: seq<string>, credential: string -> bool)
    requires Block(block) && RewriteText(content, block, credential).Ok?
    requires Positions(SplitLines(content), StartOf(block), 0) == []
    ensures var a := Terminated(content, Majority(content));
      Outside(a, "", block) && RewriteText(content, block, credential) == Ok(Document(a, block, Majority(content), ""))
  {
    var n := Majority(content);
    var lines := SplitLines(content);
    UnmarkedPositions(lines, StartOf(block), 0);
    UnmarkedPositions(lines, EndOf(block), 0);
    var a := Terminated(content, n);
    if a != content {
      TerminatedUnmarked(content, n, StartOf(block));
      TerminatedUnmarked(content, n, EndOf(block));
    }
    assert a + Render(block, n) + "" == a + Render(block, n);
  }

  lemma TerminatedCounts(content: string, n: Newline)
    ensures var a := Terminated(content, n);
      || a == content
      || (CountLf(a) == CountLf(content) + 1 && CountCrlf(a) == CountCrlf(content) + if n.Crlf? then 1 else 0)
  {
    if Terminated(content, n) != content {
      CountLfConcat(content, NewlineText(n));
      CountCrlfConcat(content, NewlineText(n));
      CountLine("", n);
      assert "" + NewlineText(n) == NewlineText(n);
    }
  }

  lemma AppendingKeepsMajority(content: string, block: seq<string>)
    requires Block(block)
    ensures var n := Majority(content); Majority(Document(Terminated(content, n), block, n, "")) == n
  {
    var n := Majority(content);
    TerminatedCounts(content, n);
    DocumentCounts(Terminated(content, n), block, n, "");
  }

  /** Any accepted text comes out as a document around the block. */
  lemma AcceptedIsDocument(content: string, block: seq<string>, credential: string -> bool) returns (a: string, b: string)
    requires Block(block) && RewriteText(content, block, credential).Ok?
    ensures Outside(a, b, block) && RewriteText(content, block, credential) == Ok(Document(a, block, Majority(content), b))
  {
    if Positions(SplitLines(content), StartOf(block), 0) == [] {
      a, b := Terminated(content, Majority(content)), "";
      AppendsTheBlock(content, block, credential);
    } else {
      var s, e, former;
      s, e, a, former, b := ReplacesOnlyTheBlock(content, block, credential);
    }
  }

  /** It has exactly one start line and one end line. */
  lemma OneBlockAfterwards(content: string, block: seq<string>, credential: string -> bool)
    requires Block(block) && RewriteText(content, block, credential).Ok?
    ensures var lines := SplitLines(RewriteText(content, block, credential).value);
      |Positions(lines, StartOf(block), 0)| == 1 && |Positions(lines, EndOf(block), 0)| == 1
  {
    var n := Majority(content);
    var a, b := AcceptedIsDocument(content, block, credential);
    DocumentLines(a, block, n, b);
    AroundMark(SplitLines(Document(a, block, n, b)), SplitLines(a), SplitLines(b), block, n, 0);
    AroundMark(SplitLines(Document(a, block, n, b)), SplitLines(a), SplitLines(b), block, n, |block| - 1);
  }

  /** Without a block at first, editing again changes nothing. */
  lemma FirstBlockIsIdempotent(content: string, block: seq<string>, credential: string -> bool)
    requires Block(block) && RewriteText(content, block, credential).Ok?
    requires Positions(SplitLines(content), StartOf(block), 0) == []
    ensures var output := RewriteText(content, block, credential).value; RewriteText(output, block, credential) == Ok(output)
  {
    AppendsTheBlock(content, block, credential);
    var n := Majority(content);
    var a := Terminated(content, n);
    AppendingKeepsMajority(content, block);
    DocumentRewrites(a, block, n, "", credential);
  }

  /** From any accepted text the third edit gives what the second gave. */
  lemma ThirdEqualsSecond(content: string, block: seq<string>, credential: string -> bool)
    requires Block(block) && RewriteText(content, block, credential).Ok?
    requires RewriteText(RewriteText(content, block, credential).value, block, credential).Ok?
    ensures var second := RewriteText(RewriteText(content, block, credential).value, block, credential).value;
      RewriteText(second, block, credential) == Ok(second)
  {
    if Positions(SplitLines(content), StartOf(block), 0) == [] {
      FirstBlockIsIdempotent(content, block, credential);
    } else {
      var s, e, a, former, b := ReplacesOnlyTheBlock(content, block, credential);
      Settling(a, block, Majority(content), b, credential);
    }
  }

  /** An accepted edit leaves a text that only the secret filter can refuse, over the block with the
      line ends that prevail now. */
  lemma OnlyFilterRefuses(content: string, block: seq<string>, credential: string -> bool)
    requires Block(block) && RewriteText(content, block, credential).Ok?
    ensures var output := RewriteText(content, block, credential).value;
      var next := RewriteText(output, block, credential);
      if credential(Render(block, Majority(output))) then next == Err(RenderedCredential) else next.Ok?
  {
    var n := Majority(content);
    if Positions(SplitLines(content), StartOf(block), 0) == [] {
      AppendsTheBlock(content, block, credential);
      DocumentRewrites(Terminated(content, n), block, n, "", credential);
    } else {
      var s, e, a, former, b := ReplacesOnlyTheBlock(content, block, credential);
      DocumentRewrites(a, block, n, b, credential);
    }
  }

  lemma Settling(a: string, block: seq<string>, n: Newline, b: string, credential: string -> bool)
    requires Block(block) && Outside(a, b, block)
    requires RewriteText(Document(a, block, n, b), block, credential).Ok?
    ensures var second := RewriteText(Document(a, block, n, b), block, credential).value;
      RewriteText(second, block, credential) == Ok(second)
  {
    DocumentRewrites(a, block, n, b, credential);
    MajoritySettles(a, block, n, b);
    DocumentRewrites(a, block, Majority(Document(a, block, n, b)), b, credential);
  }

  // ---------- bytes ----------

  /** A text encodes to a byte order mark first only if it starts with that character. */
  lemma BomStarts(c: char, rest: Bytes, other: Bytes)
    requires BOM <= EncodeChar(c) + rest
    ensures BOM <= EncodeChar(c) + other
  {
    var e := EncodeChar(c);
    assert (e + rest)[0] == e[0];
    assert |e| == 3;
    assert (e + rest)[..3] == e && (e + other)[..3] == e;
  }

  /** What an accepted text becomes starts as it did, or with the block. */
  lemma StartsAlike(content: string, block: seq<string>, credential: string -> bool)
    requires Block(block) && RewriteText(content, block, credential).Ok?
    ensures var output := RewriteText(content, block, credential).value;
      output != "" && (output[0] == block[0][0] || (content != "" && output[0] == content[0]))
  {
    var n := Majority(content);
    RenderShape(block, n);
    assert Render(block, n)[0] == block[0][0];
    if Positions(SplitLines(content), StartOf(block), 0) == [] {
      AppendsTheBlock(content, block, credential);
    } else {
      var s, e, a, former, b := ReplacesOnlyTheBlock(content, block, credential);
    }
  }

  /** The next edit reads back the text this one wrote, and keeps the byte order mark or its absence. */
  lemma NextEdit(raw: Bytes, block: seq<string>, credential: string -> bool)
    requires Block(block) && block[0][0] as int < 0x80 && RewriteBytes(raw, block, credential).Ok?
    ensures var bom := if BOM <= raw then BOM else [];
      var text := Decode(if BOM <= raw then raw[3..] else raw).value;
      var output := RewriteText(text, block, credential).value;
      && RewriteBytes(raw, block, credential) == Ok(bom + Encode(output))
      && RewriteBytes(bom + Encode(output), block, credential)
         == (var next := RewriteText(output, block, credential); if next.Err? then Err(next.error) else Ok(bom + Encode(next.value)))
  {
    var text := Decode(if BOM <= raw then raw[3..] else raw).value;
    var output := RewriteText(text, block, credential).value;
    DecodeOfEncode(output);
    if BOM <= raw {
      assert (BOM + Encode(output))[3..] == Encode(output);
    } else {
      assert [] + Encode(output) == Encode(output);
      NoBomAppears(raw, text, output, block, credential);
    }
  }

  lemma NoBomAppears(raw: Bytes, text: string, output: string, block: seq<string>, credential: string -> bool)
    requires Block(block) && block[0][0] as int < 0x80
    requires !(BOM <= raw) && Decode(raw) == Some(text) && RewriteText(text, block, credential) == Ok(output)
    ensures !(BOM <= Encode(output))
  {
    StartsAlike(text, block, credential);
    EncodeOfDecode(raw);
    if text != "" && output[0] == text[0] {
      SameStart(output, text);
    } else {
      AsciiStart(output);
    }
  }

  lemma SameStart(x: string, y: string)
    requires x != "" && y != "" && x[0] == y[0]
    ensures BOM <= Encode(x) ==> BOM <= Encode(y)
  {
    if BOM <= Encode(x) {
      BomStarts(x[0], Encode(x[1..]), Encode(y[1..]));
    }
  }

  lemma AsciiStart(x: string)
    requires x != "" && x[0] as int < 0x80
    ensures !(BOM <= Encode(x))
  {
    assert Encode(x)[0] == x[0] as int;
  }

  lemma BytesThirdEqualsSecond(raw: Bytes, block: seq<string>, credential: string -> bool, first: Bytes, second: Bytes)
    requires Block(block) && block[0][0] as int < 0x80
    requires RewriteBytes(raw, block, credential) == Ok(first) && RewriteBytes(first, block, credential) == Ok(second)
    ensures RewriteBytes(second, block, credential) == Ok(second)
  {
    NextEdit(raw, block, credential);
    var text := Decode(if BOM <= raw then raw[3..] else raw).value;
    ThirdEqualsSecond(text, block, credential);
    BomKept(raw, first, block, credential);
    NextEdit(first, block, credential);
  }

  lemma BomKept(raw: Bytes, first: Bytes, block: seq<string>, credential: string -> bool)
    requires Block(block) && block[0][0] as int < 0x80 && RewriteBytes(raw, block, credential) == Ok(first)
    ensures (BOM <= raw) == (BOM <= first)
    ensures var text := Decode(if BOM <= raw then raw[3..] else raw).value;
      Decode(if BOM <= first then first[3..] else first) == Some(RewriteText(text, block, credential).value)
  {
    var text := Decode(if BOM <= raw then raw[3..] else raw).value;
    var output := RewriteText(text, block, credential).value;
    DecodeOfEncode(output);
    if BOM <= raw {
      assert (BOM + Encode(output))[3..] == Encode(output);
    } else {
      assert [] + Encode(output) == Encode(output);
      NoBomAppears(raw, text, output, block, credential);
    }
  }

  /** The bytes of all lines but those from the start line to the end line are preserved. */
  lemma BytesOutsidePreserved(raw: Bytes, block: seq<string>, credential: string -> bool)
    returns (s: nat, e: nat, before: Bytes, former: Bytes, after: Bytes)
    requires Block(block) && RewriteBytes(raw, block, credential).Ok?
    requires Positions(SplitLines(TextOf(raw).value), StartOf(block), 0) != []
    ensures var lines := SplitLines(TextOf(raw).value);
      && Marked(lines, block, s, e) && before == BomOf(raw) + Encode(Concat(lines[..s]))
      && former == Encode(Concat(lines[s..e + 1])) && after == Encode(Concat(lines[e + 1..]))
    ensures raw == before + former + after
    ensures RewriteBytes(raw, block, credential) == Ok(before + Encode(Render(block, Majority(TextOf(raw).value))) + after)
  {
    var bom, content := BomOf(raw), if BOM <= raw then raw[3..] else raw;
    var text := Decode(content).value;
    var a, m, b;
    s, e, a, m, b := ReplacesOnlyTheBlock(text, block, credential);
    var r := Render(block, Majority(text));
    EncodeOfDecode(content);
    EncodeThree(a, m, b);
    EncodeThree(a, r, b);
    before, former, after := bom + Encode(a), Encode(m), Encode(b);
    BomSplits(raw);
    Regroup(bom, Encode(a), Encode(m), Encode(b));
    Regroup(bom, Encode(a), Encode(r), Encode(b));
  }

  /** What an edit adds to a text without a block: a line end, unless there is one, and the block. */
  function Appendix(content: string, block: seq<string>): string {
    var n := Majority(content);
    Terminated(content, n)[|content|..] + Render(block, n)
  }

  /** Without a block the old file is a front part of the new one. */
  lemma AppendsToTheBytes(raw: Bytes, block: seq<string>, credential: string -> bool, first: Bytes)
    requires Block(block) && RewriteBytes(raw, block, credential) == Ok(first)
    requires Positions(SplitLines(TextOf(raw).value), StartOf(block), 0) == []
    ensures first == raw + Encode(Appendix(TextOf(raw).value, block))
  {
    var text := TextOf(raw).value;
    var more := Appendix(text, block);
    AppendsTheBlock(text, block, credential);
    TextAppended(text, block);
    EncodeOfDecode(if BOM <= raw then raw[3..] else raw);
    EncodeConcat(text, more);
    BomSplits(raw);
    Associative(BomOf(raw), Encode(text), Encode(more));
  }

  lemma TextAppended(content: string, block: seq<string>)
    ensures var n := Majority(content); Document(Terminated(content, n), block, n, "") == content + Appendix(content, block)
  {
    var n := Majority(content);
    var a := Terminated(content, n);
    assert a == content + a[|content|..];
    assert a + Render(block, n) + "" == content + (a[|content|..] + Render(block, n));
  }

  lemma Associative(a: Bytes, b: Bytes, c: Bytes)
    ensures a + (b + c) == (a + b) + c
  {
  }

  lemma BomSplits(raw: Bytes)
    ensures raw == (if BOM <= raw then BOM else []) + (if BOM <= raw then raw[3..] else raw)
  {
  }

  lemma EncodeThree(a: string, b: string, c: string)
    ensures Encode(a + b + c) == Encode(a) + Encode(b) + Encode(c)
  {
    EncodeConcat(a + b, c);
    EncodeConcat(a, b);
  }

  lemma Regroup(a: Bytes, b: Bytes, c: Bytes, d: Bytes)
    ensures a + (b + c + d) == (a + b) + c + d
  {
  }

  // ---------- the block of this program ----------

  const START := "# >>> yasb-limitora managed block v1 " + "(id: yasb-limitora) >>>"
  const END := "# <<< yasb-limitora managed block v1 " + "(id: yasb-limitora) <<<"
  const NOTICE := "# Managed by yasb-limitora setup. " + "YASB loads this file at startup."
  const COMMENT_ONLY := "# This block is documentation only: " + "every line is a comment."
  const PRIVATE_VALUES := "# Private values remain in your own " + ".env entries."
  const LOCATION := "# Default configuration location: " + "%LOCALAPPDATA%\\yasb-limitora\\config.json"
  const INVOCATION := "# M6 no-PATH invocation (short-path alias): "

  function BlockLines(invocation: string): seq<string> {
    [START, NOTICE, COMMENT_ONLY, PRIVATE_VALUES, LOCATION, INVOCATION + invocation, END]
  }

  function Rewrite(raw: Bytes, invocation: string, credential: string -> bool): Result<Bytes, Reason> {
    RewriteBytes(raw, BlockLines(invocation), credential)
  }

  /** From the space to the tilde: no line boundary. */
  predicate Graphic(s: string) { forall i | 0 <= i < |s| :: ' ' <= s[i] <= '~' }

  lemma PhrasesNoBreak(a: string, b: string)
    requires Graphic(a) && Graphic(b)
    ensures NoBreak(a + b)
  {
  }

  lemma StartNoBreak()
    ensures NoBreak(START)
  {
    PhrasesNoBreak("# >>> yasb-limitora managed block v1 ", "(id: yasb-limitora) >>>");
  }

  lemma EndNoBreak()
    ensures NoBreak(END)
  {
    PhrasesNoBreak("# <<< yasb-limitora managed block v1 ", "(id: yasb-limitora) <<<");
  }

  lemma NoticeNoBreak()
    ensures NoBreak(NOTICE)
  {
    PhrasesNoBreak("# Managed by yasb-limitora setup. ", "YASB loads this file at startup.");
  }

  lemma CommentOnlyNoBreak()
    ensures NoBreak(COMMENT_ONLY)
  {
    PhrasesNoBreak("# This block is documentation only: ", "every line is a comment.");
  }

  lemma PrivateValuesNoBreak()
    ensures NoBreak(PRIVATE_VALUES)
  {
    PhrasesNoBreak("# Private values remain in your own ", ".env entries.");
  }

  lemma LocationNoBreak()
    ensures NoBreak(LOCATION)
  {
    PhrasesNoBreak("# Default configuration location: ", "%LOCALAPPDATA%\\yasb-limitora\\config.json");
  }

  lemma InvocationNoBreak()
    ensures NoBreak(INVOCATION)
  {
    assert Graphic(INVOCATION);
  }

  /** Third characters tell the seven lines apart. */
  lemma ThirdCharacters(invocation: string)
    ensures START[2] == '>' && END[2] == '<' && NOTICE[2] == 'M' && COMMENT_ONLY[2] == 'T'
    ensures PRIVATE_VALUES[2] == 'P' && LOCATION[2] == 'D' && (INVOCATION + invocation)[2] == 'M'
  {
    assert (INVOCATION + invocation)[2] == INVOCATION[2];
  }

  lemma NoBreakConcat(a: string, b: string)
    requires NoBreak(a) && NoBreak(b)
    ensures NoBreak(a + b)
  {
  }

  /** With an invocation free of line boundaries the seven lines form a block. */
  lemma BlockLinesAreBlock(invocation: string)
    requires NoBreak(invocation)
    ensures Block(BlockLines(invocation))
  {
    StartNoBreak();
    EndNoBreak();
    NoticeNoBreak();
    CommentOnlyNoBreak();
    PrivateValuesNoBreak();
    LocationNoBreak();
    InvocationNoBreak();
    NoBreakConcat(INVOCATION, invocation);
    ThirdCharacters(invocation);
  }

  /** From any accepted input, a third application equals the second. */
  lemma EditingSettles(raw: Bytes, invocation: string, credential: string -> bool, first: Bytes, second: Bytes)
    requires NoBreak(invocation)
    requires Rewrite(raw, invocation, credential) == Ok(first) && Rewrite(first, invocation, credential) == Ok(second)
    ensures Rewrite(second, invocation, credential) == Ok(second)
  {
    BlockLinesAreBlock(invocation);
    StartIsAscii();
    BytesThirdEqualsSecond(raw, BlockLines(invocation), credential, first, second);
  }

  /** After an accepted edit the next one is accepted if and only if the filter passes the block with
      the line ends that prevail now, so in particular if the same line ends prevail as before. */
  lemma NextEditAccepted(raw: Bytes, invocation: string, credential: string -> bool, first: Bytes)
    requires NoBreak(invocation) && Rewrite(raw, invocation, credential) == Ok(first)
    ensures TextOf(first).Some?
    ensures var again := Rewrite(first, invocation, credential);
      && (again.Ok? <==> !credential(Render(BlockLines(invocation), Majority(TextOf(first).value))))
      && (again.Err? ==> again.error == RenderedCredential)
      && (Majority(TextOf(first).value) == Majority(TextOf(raw).value) ==> again.Ok?)
  {
    var block := BlockLines(invocation);
    BlockLinesAreBlock(invocation);
    StartIsAscii();
    BomKept(raw, first, block, credential);
    NextEdit(raw, block, credential);
    OnlyFilterRefuses(TextOf(raw).value, block, credential);
  }

  lemma StartIsAscii()
    ensures START[0] == '#'
  {
  }

  /** Input without a block: every byte is kept, a line end and the block follow, and one application is
      enough. */
  lemma FirstEditIsIdempotent(raw: Bytes, invocation: string, credential: string -> bool, first: Bytes)
    requires NoBreak(invocation) && Rewrite(raw, invocation, credential) == Ok(first)
    requires Positions(SplitLines(TextOf(raw).value), START, 0) == []
    ensures first == raw + Encode(Appendix(TextOf(raw).value, BlockLines(invocation)))
    ensures Rewrite(first, invocation, credential) == Ok(first) && TextOf(first).Some?
    ensures |Positions(SplitLines(TextOf(first).value), START, 0)| == 1 && |Positions(SplitLines(TextOf(first).value), END, 0)| == 1
  {
    var block := BlockLines(invocation);
    BlockLinesAreBlock(invocation);
    StartIsAscii();
    NextEdit(raw, block, credential);
    AppendsToTheBytes(raw, block, credential, first);
    FirstBlockIsIdempotent(TextOf(raw).value, block, credential);
    OneBlockAfterwards(TextOf(raw).value, block, credential);
    BomKept(raw, first, block, credential);
  }

  /** Input with a block: it has one start line and a later end line, and every byte outside the lines
      from the one to the other is preserved. */
  lemma OutsideIsPreserved(raw: Bytes, invocation: string, credential: string -> bool, first: Bytes)
    returns (s: nat, e: nat, before: Bytes, former: Bytes, after: Bytes)
    requires NoBreak(invocation) && Rewrite(raw, invocation, credential) == Ok(first)
    requires Positions(SplitLines(TextOf(raw).value), START, 0) != []
    ensures var lines := SplitLines(TextOf(raw).value);
      && Marked(lines, BlockLines(invocation), s, e) && before == BomOf(raw) + Encode(Concat(lines[..s]))
      && former == Encode(Concat(lines[s..e + 1])) && after == Encode(Concat(lines[e + 1..]))
    ensures raw == before + former + after
    ensures first == before + Encode(Render(BlockLines(invocation), Majority(TextOf(raw).value))) + after
  {
    BlockLinesAreBlock(invocation);
    s, e, before, former, after := BytesOutsidePreserved(raw, BlockLines(invocation), credential);
  }

  /** Input with a block: read again, the result has the lines before and behind the old block and the
      new block between them. */
  lemma OutsideLinesStay(raw: Bytes, invocation: string, credential: string -> bool, first: Bytes) returns (s: nat, e: nat)
    requires NoBreak(invocation) && Rewrite(raw, invocation, credential) == Ok(first)
    requires Positions(SplitLines(TextOf(raw).value), START, 0) != []
    ensures var lines, block := SplitLines(TextOf(raw).value), BlockLines(invocation);
      && Marked(lines, block, s, e) && TextOf(first).Some?
      && SplitLines(TextOf(first).value) == lines[..s] + Ended(block, Majority(TextOf(raw).value)) + lines[e + 1..]
  {
    var block, text := BlockLines(invocation), TextOf(raw).value;
    BlockLinesAreBlock(invocation);
    StartIsAscii();
    BomKept(raw, first, block, credential);
    var a, former, b;
    s, e, a, former, b := ReplacesOnlyTheBlock(text, block, credential);
    DocumentLines(a, block, Majority(text), b);
  }

  lemma StartInMiddle(lines: seq<string>, x: seq<string>, block: seq<string>, n: Newline, z: seq<string>)
    requires Block(block) && NoMarks(x, block) && NoMarks(z, block) && lines == x + Ended(block, n) + z
    ensures Positions(lines, StartOf(block), 0) == [|x|]
  {
    AroundMark(lines, x, z, block, n, 0);
  }

  lemma StartInDocument(a: string, block: seq<string>, n: Newline, b: string)
    requires Block(block) && Outside(a, b, block)
    ensures Positions(SplitLines(Document(a, block, n, b)), StartOf(block), 0) == [|SplitLines(a)|]
  {
    var lines, x, z := SplitLines(Document(a, block, n, b)), SplitLines(a), SplitLines(b);
    assert lines == x + Ended(block, n) + z by {
      DocumentLines(a, block, n, b);
    }
    StartInMiddle(lines, x, block, n, z);
  }

  lemma BlockInDocument(a: string, block: seq<string>, n: Newline, b: string)
    requires Block(block) && Outside(a, b, block)
    ensures var lines, p := SplitLines(Document(a, block, n, b)), |SplitLines(a)|;
      p + |block| <= |lines| && forall k | 0 <= k < |block| :: Stripped(lines[p + k]) == block[k]
  {
    DocumentLines(a, block, n, b);
    BlockInMiddle(SplitLines(Document(a, block, n, b)), SplitLines(a), block, n, SplitLines(b));
  }

  lemma BlockInMiddle(lines: seq<string>, x: seq<string>, block: seq<string>, n: Newline, z: seq<string>)
    requires Block(block) && lines == x + Ended(block, n) + z
    ensures |x| + |block| <= |lines| && forall k | 0 <= k < |block| :: Stripped(lines[|x| + k]) == block[k]
  {
    SplitEnded(block, n);
    forall k | 0 <= k < |block| ensures Stripped(lines[|x| + k]) == block[k] {
      assert lines[|x| + k] == Ended(block, n)[k];
    }
  }

  /** Any accepted text comes out with the lines of the block, in order, from its one start line on. */
  lemma BlockStandsThere(content: string, block: seq<string>, credential: string -> bool) returns (p: nat)
    requires Block(block) && RewriteText(content, block, credential).Ok?
    ensures StandsAt(SplitLines(RewriteText(content, block, credential).value), block, p)
  {
    var a, b := AcceptedIsDocument(content, block, credential);
    p := |SplitLines(a)|;
    DocumentShows(a, block, Majority(content), b);
  }

  /** The block's lines stand from `p` on, where its one start line is. */
  predicate StandsAt(lines: seq<string>, block: seq<string>, p: nat)
    requires block != []
  {
    && p + |block| <= |lines| && Positions(lines, StartOf(block), 0) == [p]
    && forall k | 0 <= k < |block| :: Stripped(lines[p + k]) == block[k]
  }

  lemma DocumentShows(a: string, block: seq<string>, n: Newline, b: string)
    requires Block(block) && Outside(a, b, block)
    ensures StandsAt(SplitLines(Document(a, block, n, b)), block, |SplitLines(a)|)
  {
    StartInDocument(a, block, n, b);
    BlockInDocument(a, block, n, b);
  }

  /** The block shows how to invoke the program: the line behind the four notices ends in exactly the
      given invocation, and the end line follows. */
  lemma InvocationIsShown(raw: Bytes, invocation: string, credential: string -> bool, first: Bytes) returns (p: nat)
    requires NoBreak(invocation) && Rewrite(raw, invocation, credential) == Ok(first)
    ensures TextOf(first).Some?
    ensures var lines := SplitLines(TextOf(first).value);
      && p + 7 <= |lines| && Stripped(lines[p]) == START && Stripped(lines[p + 6]) == END
      && Stripped(lines[p + 5]) == INVOCATION + invocation
  {
    var block := BlockLines(invocation);
    BlockLinesAreBlock(invocation);
    StartIsAscii();
    BomKept(raw, first, block, credential);
    p := BlockStandsThere(TextOf(raw).value, block, credential);
    assert block[5] == INVOCATION + invocation;
  }
}
