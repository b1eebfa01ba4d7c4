/** The `$…$` tokenizer that splits a text node into plain text and inline math
    (`splitInlineMathSegments`). `\$` stands for a literal dollar sign; a `$` that is
    still open at a line break or at the end of the input is given back as text. */
module InlineMath {
  import opened Text

  datatype Segment = TextSeg(value: string) | MathSeg(value: string)

  /** The tokenizer's variables between two characters. */
  datatype ScanState = ScanState(result: seq<Segment>, buffer: string, mathBuffer: string, inMath: bool)

  const Start := ScanState([], [], [], false)

  /** Appends `s` to whichever buffer is active. */
  function Append(st: ScanState, s: string): ScanState {
    if st.inMath then st.(mathBuffer := st.mathBuffer + s) else st.(buffer := st.buffer + s)
  }

  /** A `$` outside an escape: closes math (a blank formula becomes the text `$$`),
      or opens it after moving pending text into a segment. */
  function OnDollar(st: ScanState): ScanState {
    if st.inMath then
      var latex := Trim(st.mathBuffer);
      if latex != [] then ScanState(st.result + [MathSeg(latex)], st.buffer, [], false)
      else ScanState(st.result, st.buffer + "$$", [], false)
    else if st.buffer != [] then ScanState(st.result + [TextSeg(st.buffer)], [], st.mathBuffer, true)
    else st.(inMath := true)
  }

  /** A line break inside math: the `$` and the math so far go back into the text. */
  function OnBreak(st: ScanState, c: char): ScanState {
    ScanState(st.result, st.buffer + "$" + st.mathBuffer + [c], [], false)
  }

  predicate IsBreak(c: char) { c == '\n' || c == '\r' }

  /** What the loop of `splitInlineMathSegments` does with the rest `s` of the input,
      starting from state `st`; one case per branch of its body. */
  function Scan(st: ScanState, s: string): ScanState
    decreases |s|
  {
    if s == [] then st
    else if s[0] == '\\' && |s| > 1 && s[1] == '$' then Scan(Append(st, "$"), s[2..])
    else if s[0] == '$' then Scan(OnDollar(st), s[1..])
    else if st.inMath && IsBreak(s[0]) then Scan(OnBreak(st, s[0]), s[1..])
    else Scan(Append(st, [s[0]]), s[1..])
  }

  lemma ScanEscapeCons(st: ScanState, rest: string)
    ensures Scan(st, "\\$" + rest) == Scan(Append(st, "$"), rest)
  {
    assert ("\\$" + rest)[2..] == rest;
  }

  lemma ScanDollarCons(st: ScanState, rest: string)
    ensures Scan(st, "$" + rest) == Scan(OnDollar(st), rest)
  {
    assert ("$" + rest)[1..] == rest;
  }

  lemma ScanBreakCons(st: ScanState, c: char, rest: string)
    requires st.inMath && IsBreak(c)
    ensures Scan(st, [c] + rest) == Scan(OnBreak(st, c), rest)
  {
    assert ([c] + rest)[1..] == rest;
  }

  /** Any other character, including a `\` that does not precede a `$`, is copied
      into the active buffer. */
  lemma ScanCharCons(st: ScanState, c: char, rest: string)
    requires c != '$' && !(st.inMath && IsBreak(c))
    requires c == '\\' ==> rest == [] || rest[0] != '$'
    ensures Scan(st, [c] + rest) == Scan(Append(st, [c]), rest)
  {
    assert ([c] + rest)[1..] == rest;
  }

  /** The code after the loop: an open `$` goes back into the text, and a non-empty
      text buffer becomes the last segment. */
  function Finish(st: ScanState): seq<Segment> {
    var buffer := if st.inMath then st.buffer + "$" + st.mathBuffer else st.buffer;
    st.result + (if buffer != [] then [TextSeg(buffer)] else [])
  }

  function Split(text: string): seq<Segment> {
    Finish(Scan(Start, text))
  }

  predicate HasLineBreak(s: string) {
    exists i :: 0 <= i < |s| && (s[i] == '\n' || s[i] == '\r')
  }

  /** Math is non-empty, trimmed and on one line; text is non-empty. */
  predicate GoodSegment(g: Segment) {
    match g
    case TextSeg(v) => v != []
    case MathSeg(v) => v != [] && !IsWs(v[0]) && !IsWs(v[|v| - 1]) && !HasLineBreak(v)
  }

  predicate GoodSegments(r: seq<Segment>) {
    forall k :: 0 <= k < |r| ==> GoodSegment(r[k])
  }

  /** Trimming keeps a contiguous piece of the string, so it adds no line break. */
  lemma TrimNoLineBreak(s: string)
    requires !HasLineBreak(s)
    ensures !HasLineBreak(Trim(s))
  {
    var d := DropWs(s);
    DropWsSuffix(s);
    var t := TrimEnd(d);
    assert forall i :: 0 <= i < |t| ==> t[i] == s[|s| - |d| + i];
  }

  lemma {:induction false} ScanGood(st: ScanState, s: string)
    requires GoodSegments(st.result) && !HasLineBreak(st.mathBuffer)
    ensures GoodSegments(Scan(st, s).result) && !HasLineBreak(Scan(st, s).mathBuffer)
    decreases |s|
  {
    if s == [] {
    } else if s[0] == '\\' && |s| > 1 && s[1] == '$' {
      var st' := Append(st, "$");
      assert st.inMath ==> st'.mathBuffer == st.mathBuffer + "$";
      ScanGood(st', s[2..]);
    } else if s[0] == '$' {
      if st.inMath {
        TrimNoLineBreak(st.mathBuffer);
      }
      ScanGood(OnDollar(st), s[1..]);
    } else if st.inMath && IsBreak(s[0]) {
      ScanGood(OnBreak(st, s[0]), s[1..]);
    } else {
      var st' := Append(st, [s[0]]);
      assert st.inMath ==> st'.mathBuffer == st.mathBuffer + [s[0]];
      ScanGood(st', s[1..]);
    }
  }

  /** Every math segment is non-empty, trimmed and free of line breaks, and no text
      segment is empty. */
  lemma SplitGood(text: string)
    ensures GoodSegments(Split(text))
  {
    ScanGood(Start, text);
  }

  /** Characters other than `$`, `\` and, inside math, line breaks. */
  predicate Plain(s: string, inMath: bool) {
    forall i :: 0 <= i < |s| ==> s[i] != '$' && s[i] != '\\' && (inMath ==> !IsBreak(s[i]))
  }

  lemma AppendAppend(st: ScanState, a: string, b: string)
    ensures Append(Append(st, a), b) == Append(st, a + b)
  {
    assert st.buffer + a + b == st.buffer + (a + b);
    assert st.mathBuffer + a + b == st.mathBuffer + (a + b);
  }

  lemma {:induction false} ScanPlain(st: ScanState, s: string, rest: string)
    requires Plain(s, st.inMath)
    ensures Scan(st, s + rest) == Scan(Append(st, s), rest)
    decreases |s|
  {
    if s == [] {
      assert s + rest == rest;
      assert Append(st, s) == st;
    } else {
      assert s + rest == [s[0]] + (s[1..] + rest);
      ScanCharCons(st, s[0], s[1..] + rest);
      ScanPlain(Append(st, [s[0]]), s[1..], rest);
      AppendAppend(st, [s[0]], s[1..]);
      assert [s[0]] + s[1..] == s;
    }
  }

  /** A `$` still open at the end of the input is given back as text, dollar sign
      included; the text before it stays a segment of its own. */
  lemma UnclosedDollarIsText(t: string, s: string)
    requires Plain(t, false) && Plain(s, true)
    ensures Split(t + "$" + s) == (if t != [] then [TextSeg(t)] else []) + [TextSeg("$" + s)]
  {
    assert t + "$" + s == t + ("$" + s);
    ScanPlain(Start, t, "$" + s);
    var st1 := Append(Start, t);
    assert st1 == ScanState([], t, [], false);
    ScanDollarCons(st1, s);
    var open := if t != [] then [TextSeg(t)] else [];
    var st2 := ScanState(open, [], [], true);
    assert OnDollar(st1) == st2;
    ScanPlain(st2, s, []);
    assert s + [] == s;
    var st3 := ScanState(open, [], s, true);
    assert Append(st2, s) == st3;
    assert Scan(st3, []) == st3;
    assert [] + "$" + s == "$" + s;
    assert Finish(st3) == open + [TextSeg("$" + s)];
  }

  /** A line break inside math closes nothing: the `$`, the math so far and the
      break go back into the text, and the rest of the line is text again. */
  lemma LineBreakReopensText(s: string, nl: char, u: string)
    requires Plain(s, true) && Plain(u, false) && IsBreak(nl)
    ensures Split("$" + s + [nl] + u) == [TextSeg("$" + s + [nl] + u)]
  {
    var st1 := ScanState([], [], [], true);
    var st2 := ScanState([], [], s, true);
    var st3 := ScanState([], "$" + s + [nl], [], false);
    var st4 := ScanState([], "$" + s + [nl] + u, [], false);
    calc {
      Scan(Start, "$" + s + [nl] + u);
      { assert "$" + s + [nl] + u == "$" + (s + ([nl] + u)); }
      Scan(Start, "$" + (s + ([nl] + u)));
      { ScanDollarCons(Start, s + ([nl] + u)); assert OnDollar(Start) == st1; }
      Scan(st1, s + ([nl] + u));
      { ScanPlain(st1, s, [nl] + u); assert Append(st1, s) == st2; }
      Scan(st2, [nl] + u);
      { ScanBreakCons(st2, nl, u); assert OnBreak(st2, nl) == st3; }
      Scan(st3, u);
      { ScanPlain(st3, u, []); assert u + [] == u; assert Append(st3, u) == st4; }
      Scan(st4, []);
    }
    assert Finish(st4) == [TextSeg("$" + s + [nl] + u)];
  }

  /** Writes `$` as `\$`, the one escape the tokenizer knows. */
  function Escape(v: string): (r: string)
    ensures v != [] ==> r != [] && r[0] != '$' && (r[0] == '\\' <==> v[0] == '$' || v[0] == '\\')
  {
    if v == [] then [] else (if v[0] == '$' then "\\$" else [v[0]]) + Escape(v[1..])
  }

  function RenderSegment(g: Segment): string {
    match g
    case TextSeg(v) => Escape(v)
    case MathSeg(v) => "$" + Escape(v) + "$"
  }

  /** The source text a list of segments comes from. */
  function Render(segs: seq<Segment>): string {
    if segs == [] then [] else RenderSegment(segs[0]) + Render(segs[1..])
  }

  /** A segment may end in `\` only as the final text segment (anywhere else it
      would escape the next delimiter). */
  predicate SafeEnd(segs: seq<Segment>, k: int)
    requires 0 <= k < |segs| && segs[k].value != []
  {
    (segs[k].TextSeg? && k == |segs| - 1) || segs[k].value[|segs[k].value| - 1] != '\\'
  }

  /** Segments the tokenizer reproduces from their rendering: each good, no two
      text segments in a row, and safe ends. */
  predicate Renderable(segs: seq<Segment>) {
    GoodSegments(segs) &&
    (forall k :: 0 <= k < |segs| - 1 ==> !(segs[k].TextSeg? && segs[k + 1].TextSeg?)) &&
    (forall k :: 0 <= k < |segs| ==> SafeEnd(segs, k))
  }

  lemma RenderableTail(segs: seq<Segment>)
    requires Renderable(segs) && segs != []
    ensures Renderable(segs[1..])
    ensures GoodSegment(segs[0]) && SafeEnd(segs, 0)
    ensures |segs| > 1 && segs[0].TextSeg? ==> segs[1].MathSeg?
  {
    var rest := segs[1..];
    forall k | 0 <= k < |rest| ensures GoodSegment(rest[k]) && SafeEnd(rest, k) {
      assert rest[k] == segs[k + 1];
      assert SafeEnd(segs, k + 1);
    }
    forall k | 0 <= k < |rest| - 1 ensures !(rest[k].TextSeg? && rest[k + 1].TextSeg?) {
      assert rest[k] == segs[k + 1] && rest[k + 1] == segs[k + 2];
    }
  }

  /** An escaped `$` is scanned as a literal `$`. */
  lemma ScanEscapedDollar(st: ScanState, v: string, rest: string)
    requires v != [] && v[0] == '$'
    ensures Scan(st, Escape(v) + rest) == Scan(Append(st, [v[0]]), Escape(v[1..]) + rest)
  {
    var tail := Escape(v[1..]) + rest;
    assert Escape(v) + rest == "\\$" + tail by {
      assert Escape(v) == "\\$" + Escape(v[1..]);
    }
    ScanEscapeCons(st, tail);
    assert "$" == [v[0]];
  }

  /** Any other first character of an escaped string is scanned on its own. */
  lemma ScanEscapedChar(st: ScanState, v: string, rest: string)
    requires v != [] && v[0] != '$' && (v[|v| - 1] != '\\' || rest == [] || rest[0] != '$')
    requires st.inMath ==> !IsBreak(v[0])
    ensures Scan(st, Escape(v) + rest) == Scan(Append(st, [v[0]]), Escape(v[1..]) + rest)
  {
    var tail := Escape(v[1..]) + rest;
    assert Escape(v) + rest == [v[0]] + tail by {
      assert Escape(v) == [v[0]] + Escape(v[1..]);
    }
    assert v[0] == '\\' ==> tail == [] || tail[0] != '$' by {
      if v[1..] == [] {
        assert tail == rest && v[|v| - 1] == v[0];
      } else {
        assert tail[0] == Escape(v[1..])[0];
      }
    }
    ScanCharCons(st, v[0], tail);
  }

  lemma {:induction false} ScanEscaped(st: ScanState, v: string, rest: string)
    requires v == [] || v[|v| - 1] != '\\' || rest == [] || rest[0] != '$'
    requires st.inMath ==> forall i :: 0 <= i < |v| ==> !IsBreak(v[i])
    ensures Scan(st, Escape(v) + rest) == Scan(Append(st, v), rest)
    decreases |v|
  {
    if v == [] {
      assert Escape(v) + rest == rest;
      assert Append(st, v) == st;
    } else {
      if v[0] == '$' {
        ScanEscapedDollar(st, v, rest);
      } else {
        ScanEscapedChar(st, v, rest);
      }
      assert v[1..] == [] || v[1..][|v[1..]| - 1] == v[|v| - 1];
      ScanEscaped(Append(st, [v[0]]), v[1..], rest);
      AppendAppend(st, [v[0]], v[1..]);
      assert [v[0]] + v[1..] == v;
    }
  }

  lemma TrimmedIsTrim(v: string)
    requires v != [] && !IsWs(v[0]) && !IsWs(v[|v| - 1])
    ensures Trim(v) == v
  {
    assert DropWs(v) == v;
    assert TrimEnd(v) == v;
  }

  lemma RenderStartsWithDollar(segs: seq<Segment>)
    requires Renderable(segs) && segs != []
    ensures Render(segs) != [] && (Render(segs)[0] == '$' <==> segs[0].MathSeg?)
  {
    assert GoodSegment(segs[0]);
    assert Render(segs) == RenderSegment(segs[0]) + Render(segs[1..]);
  }

  lemma NoBreakIndices(v: string)
    requires !HasLineBreak(v)
    ensures forall i :: 0 <= i < |v| ==> !IsBreak(v[i])
  {
  }

  /** A text segment: its escaped characters land in the text buffer. */
  lemma ScanRenderText(result: seq<Segment>, v: string, tail: string)
    requires v != [] && (v[|v| - 1] != '\\' || tail == [] || tail[0] != '$')
    ensures Scan(ScanState(result, [], [], false), Escape(v) + tail) == Scan(ScanState(result, v, [], false), tail)
  {
    var st := ScanState(result, [], [], false);
    assert Append(st, v) == ScanState(result, v, [], false) by {
      assert [] + v == v;
    }
    ScanEscaped(st, v, tail);
  }

  /** A math segment: `$`, the escaped formula and `$` close into one math segment,
      after the pending text buffer, if any, has become a segment of its own. */
  lemma ScanRenderMath(result: seq<Segment>, buffer: string, v: string, tail: string)
    requires GoodSegment(MathSeg(v)) && v[|v| - 1] != '\\'
    ensures var open := if buffer != [] then result + [TextSeg(buffer)] else result;
            Scan(ScanState(result, buffer, [], false), "$" + Escape(v) + "$" + tail) ==
            Scan(ScanState(open + [MathSeg(v)], [], [], false), tail)
  {
    var st := ScanState(result, buffer, [], false);
    var open := if buffer != [] then result + [TextSeg(buffer)] else result;
    assert "$" + Escape(v) + "$" + tail == "$" + (Escape(v) + ("$" + tail));
    ScanDollarCons(st, Escape(v) + ("$" + tail));
    var st1 := ScanState(open, [], [], true);
    assert OnDollar(st) == st1;
    NoBreakIndices(v);
    ScanEscaped(st1, v, "$" + tail);
    var st2 := ScanState(open, [], v, true);
    assert [] + v == v;
    assert Append(st1, v) == st2;
    ScanDollarCons(st2, tail);
    TrimmedIsTrim(v);
    assert OnDollar(st2) == ScanState(open + [MathSeg(v)], [], [], false);
  }

  /** The tokenizer state after the rendering of one segment, from a state with an
      empty math buffer outside math. */
  function AfterSegment(result: seq<Segment>, buffer: string, g: Segment): ScanState {
    match g
    case TextSeg(v) => ScanState(result, v, [], false)
    case MathSeg(v) =>
      ScanState((if buffer != [] then result + [TextSeg(buffer)] else result) + [MathSeg(v)], [], [], false)
  }

  lemma ScanRenderStep(result: seq<Segment>, buffer: string, segs: seq<Segment>)
    requires Renderable(segs) && segs != []
    requires buffer != [] ==> segs[0].MathSeg?
    ensures Scan(ScanState(result, buffer, [], false), Render(segs)) ==
            Scan(AfterSegment(result, buffer, segs[0]), Render(segs[1..]))
  {
    var rest := segs[1..];
    RenderableTail(segs);
    var tail := Render(rest);
    assert Render(segs) == RenderSegment(segs[0]) + tail;
    if rest != [] {
      RenderStartsWithDollar(rest);
    }
    var g := segs[0];
    if g.TextSeg? {
      ScanRenderText(result, g.value, tail);
    } else {
      assert RenderSegment(g) + tail == "$" + Escape(g.value) + "$" + tail;
      ScanRenderMath(result, buffer, g.value, tail);
    }
  }

  lemma {:induction false} ScanRender(result: seq<Segment>, buffer: string, segs: seq<Segment>)
    requires Renderable(segs)
    requires buffer != [] ==> segs == [] || segs[0].MathSeg?
    ensures Finish(Scan(ScanState(result, buffer, [], false), Render(segs))) ==
            result + (if buffer != [] then [TextSeg(buffer)] else []) + segs
    decreases |segs|, 1
  {
    if segs == [] {
      assert Render(segs) == [];
    } else {
      ScanRenderStep(result, buffer, segs);
      RenderableTail(segs);
      ScanRenderNext(result, buffer, segs);
    }
  }

  lemma {:induction false} ScanRenderNext(result: seq<Segment>, buffer: string, segs: seq<Segment>)
    requires Renderable(segs) && segs != []
    requires buffer != [] ==> segs[0].MathSeg?
    ensures Finish(Scan(AfterSegment(result, buffer, segs[0]), Render(segs[1..]))) ==
            result + (if buffer != [] then [TextSeg(buffer)] else []) + segs
    decreases |segs|, 0
  {
    RenderableTail(segs);
    var open := if buffer != [] then result + [TextSeg(buffer)] else result;
    var next := AfterSegment(result, buffer, segs[0]);
    assert next.mathBuffer == [] && !next.inMath;
    assert next.buffer != [] ==> segs[1..] == [] || segs[1..][0].MathSeg?;
    ScanRender(next.result, next.buffer, segs[1..]);
    AfterSegmentAppend(result, buffer, segs);
  }

  lemma AfterSegmentAppend(result: seq<Segment>, buffer: string, segs: seq<Segment>)
    requires segs != [] && GoodSegment(segs[0]) && (buffer != [] ==> segs[0].MathSeg?)
    ensures var next := AfterSegment(result, buffer, segs[0]);
            next.result + (if next.buffer != [] then [TextSeg(next.buffer)] else []) + segs[1..] ==
            result + (if buffer != [] then [TextSeg(buffer)] else []) + segs
  {
    var g, rest := segs[0], segs[1..];
    assert segs == [g] + rest;
    if g.TextSeg? {
      assert result + [TextSeg(g.value)] + rest == result + segs;
    } else {
      var open := if buffer != [] then result + [TextSeg(buffer)] else result;
      assert open + [g] + rest == open + segs;
    }
  }

  /** `\$` is a literal dollar sign. Text whose every `$` is escaped comes back as
      one text segment, each `\$` read as `$`; inside math, an escaped `$` is part
      of the formula and does not close it. */
  lemma EscapedDollar(v: string)
    requires v != []
    ensures Split(Escape(v)) == [TextSeg(v)]
    ensures GoodSegment(MathSeg(v)) && v[|v| - 1] != '\\' ==> Split("$" + Escape(v) + "$") == [MathSeg(v)]
  {
    EscapedText(v);
    if GoodSegment(MathSeg(v)) && v[|v| - 1] != '\\' {
      EscapedMath(v);
    }
  }

  lemma EscapedText(v: string)
    requires v != []
    ensures Split(Escape(v)) == [TextSeg(v)]
  {
    ScanEscaped(Start, v, []);
    assert Escape(v) + [] == Escape(v);
    assert Append(Start, v) == ScanState([], v, [], false);
  }

  lemma EscapedMath(v: string)
    requires GoodSegment(MathSeg(v)) && v[|v| - 1] != '\\'
    ensures Split("$" + Escape(v) + "$") == [MathSeg(v)]
  {
    var segs := [MathSeg(v)];
    assert Renderable(segs) by {
      assert SafeEnd(segs, 0);
    }
    SplitRenderRoundTrip(segs);
    assert Render(segs[1..]) == [];
    assert Render(segs) == "$" + Escape(v) + "$";
  }

  lemma SplitRenderRoundTrip(segs: seq<Segment>)
    requires Renderable(segs)
    ensures Split(Render(segs)) == segs
  {
    ScanRender([], [], segs);
    assert [] + [] + segs == segs;
  }

  /** `splitInlineMathSegments`, the character loop itself. */
  method SplitInlineMathSegments(text: string) returns (result: seq<Segment>)
    ensures result == Split(text)
    ensures GoodSegments(result)
  {
    result := [];
    var buffer: string := [];
    var mathBuffer: string := [];
    var inMath := false;
    var i := 0;
    while i < |text|
      invariant 0 <= i <= |text|
      invariant Scan(ScanState(result, buffer, mathBuffer, inMath), text[i..]) == Scan(Start, text)
    {
      var ch := text[i];
      assert text[i..] == [ch] + text[i + 1..];
      if ch == '\\' && i + 1 < |text| && text[i + 1] == '$' {
        assert text[i..] == "\\$" + text[i + 2..];
        ScanEscapeCons(ScanState(result, buffer, mathBuffer, inMath), text[i + 2..]);
        if inMath {
          mathBuffer := mathBuffer + "$";
        } else {
          buffer := buffer + "$";
        }
        i := i + 2;
      } else if ch == '$' {
        ScanDollarCons(ScanState(result, buffer, mathBuffer, inMath), text[i + 1..]);
        if inMath {
          var latex := Trim(mathBuffer);
          if latex != [] {
            result := result + [MathSeg(latex)];
          } else {
            buffer := buffer + "$$";
          }
          mathBuffer := [];
          inMath := false;
        } else {
          if buffer != [] {
            result := result + [TextSeg(buffer)];
            buffer := [];
          }
          inMath := true;
        }
        i := i + 1;
      } else if inMath && (ch == '\n' || ch == '\r') {
        ScanBreakCons(ScanState(result, buffer, mathBuffer, inMath), ch, text[i + 1..]);
        buffer := buffer + "$" + mathBuffer + [ch];
        mathBuffer := [];
        inMath := false;
        i := i + 1;
      } else {
        ScanCharCons(ScanState(result, buffer, mathBuffer, inMath), ch, text[i + 1..]);
        if inMath {
          mathBuffer := mathBuffer + [ch];
        } else {
          buffer := buffer + [ch];
        }
        i := i + 1;
      }
    }
    if inMath {
      buffer := buffer + "$" + mathBuffer;
    }
    if buffer != [] {
      result := result + [TextSeg(buffer)];
    }
    SplitGood(text);
  }
}
