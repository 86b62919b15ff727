/** The normal form in which a managed layer is fingerprinted: lines that only name things for display leave no
    trace, nor does a metadata block that holds nothing else. A line is the text between two newlines. */
module ManagedLayer {
  import opened Text
  import opened Wrappers

  type Line = string

  predicate IsBlank(c: char) {
    c == ' ' || c == '\t'
  }

  function SkipBlank(line: Line): Line {
    if line != "" && IsBlank(line[0]) then SkipBlank(line[1..]) else line
  }

  predicate Named(text: string) {
    StartsWith(text, "string ui:displayName =") || StartsWith(text, "ui:displayName =")
  }

  /** A line that authors a display name. */
  predicate Display(line: Line) {
    Named(SkipBlank(line))
  }

  /** Blanks aside, the line ends in an opening parenthesis. */
  predicate EndsOpen(line: Line) {
    if line == "" then false
    else if IsBlank(line[|line| - 1]) then EndsOpen(line[..|line| - 1])
    else line[|line| - 1] == '('
  }

  predicate Closing(line: Line) {
    forall i | 0 <= i < |line| :: IsBlank(line[i]) || line[i] == ')'
  }

  predicate Loose(c: char) {
    IsBlank(c) || c == '('
  }

  function Strip(line: Line): Line {
    if line != "" && Loose(line[|line| - 1]) then Strip(line[..|line| - 1]) else line
  }

  function StripLast(lines: seq<Line>): seq<Line> {
    if lines == [] then [] else lines[..|lines| - 1] + [Strip(lines[|lines| - 1])]
  }

  /** A display line at the head of `rest` is all that its metadata block holds. */
  predicate Block(previous: Option<Line>, rest: seq<Line>) {
    previous.Some? && |rest| > 1 && EndsOpen(previous.value) && Closing(rest[1])
  }

  /** The normal form of what is done and what is to come, after the given line. */
  function Normal(previous: Option<Line>, rest: seq<Line>, done: seq<Line>): seq<Line>
    decreases |rest|
  {
    if rest == [] then done
    else if !Display(rest[0]) then Normal(Some(rest[0]), rest[1..], done + [rest[0]])
    else if Block(previous, rest) then Normal(Some(rest[1]), rest[2..], StripLast(done))
    else Normal(Some(rest[0]), rest[1..], done)
  }

  function NormalForm(lines: seq<Line>): seq<Line> {
    Normal(None, lines, [])
  }

  // ---- The loop over the lines ----

  method IsDisplayLine(line: Line) returns (r: bool)
    ensures r <==> Display(line)
  {
    var start := 0;
    while start < |line| && IsBlank(line[start])
      invariant start <= |line|
      invariant SkipBlank(line) == SkipBlank(line[start..])
    {
      assert line[start..][1..] == line[start + 1..];
      start := start + 1;
    }
    return Named(line[start..]);
  }

  method LineEndsOpen(line: Line) returns (r: bool)
    ensures r <==> EndsOpen(line)
  {
    var end := |line|;
    assert line[..end] == line;
    while end > 0 && IsBlank(line[end - 1])
      invariant end <= |line|
      invariant EndsOpen(line) <==> EndsOpen(line[..end])
    {
      assert line[..end][..end - 1] == line[..end - 1];
      end := end - 1;
    }
    return end > 0 && line[end - 1] == '(';
  }

  method StripLine(line: Line) returns (r: Line)
    ensures r == Strip(line)
  {
    r := line;
    while r != "" && Loose(r[|r| - 1])
      invariant Strip(line) == Strip(r)
      decreases |r|
    {
      r := r[..|r| - 1];
    }
  }

  /** The normal form, line by line. */
  method NormalizeLayer(lines: seq<Line>) returns (normalized: seq<Line>)
    ensures normalized == NormalForm(lines)
  {
    normalized := [];
    var index := 0;
    assert lines[0..] == lines;
    while index < |lines|
      invariant 0 <= index <= |lines|
      invariant Normal(if index == 0 then None else Some(lines[index - 1]), lines[index..], normalized)
          == NormalForm(lines)
    {
      assert lines[index..][1..] == lines[index + 1..];
      var display := IsDisplayLine(lines[index]);
      if display {
        var open := false;
        if index > 0 { open := LineEndsOpen(lines[index - 1]); }
        if index > 0 && index + 1 < |lines| && open && Closing(lines[index + 1]) {
          assert lines[index..][2..] == lines[index + 2..];
          if normalized != [] {
            var stripped := StripLine(normalized[|normalized| - 1]);
            normalized := normalized[..|normalized| - 1] + [stripped];
          }
          index := index + 1;
        }
        index := index + 1;
        continue;
      }
      normalized := normalized + [lines[index]];
      index := index + 1;
    }
  }

  // ---- Idempotence ----

  lemma {:induction false} StripIsPrefix(line: Line)
    ensures |Strip(line)| <= |line| && Strip(line) == line[..|Strip(line)|]
  {
    if line != "" && Loose(line[|line| - 1]) {
      StripIsPrefix(line[..|line| - 1]);
    }
  }

  lemma {:induction false} SkipThenRest(prefix: Line, rest: Line)
    requires SkipBlank(prefix) != ""
    ensures SkipBlank(prefix + rest) == SkipBlank(prefix) + rest
  {
    if prefix != "" && IsBlank(prefix[0]) {
      SkipThenRest(prefix[1..], rest);
      assert (prefix + rest)[1..] == prefix[1..] + rest;
    }
  }

  /** Stripping makes no display line. */
  lemma StripMakesNoDisplay(line: Line)
    requires Display(Strip(line))
    ensures Display(line)
  {
    StripIsPrefix(line);
    var prefix, rest := Strip(line), line[|Strip(line)|..];
    assert line == prefix + rest;
    SkipThenRest(prefix, rest);
    var text := SkipBlank(prefix);
    assert StartsWith(text, "string ui:displayName =") ==> StartsWith(text + rest, "string ui:displayName =");
    assert StartsWith(text, "ui:displayName =") ==> StartsWith(text + rest, "ui:displayName =");
  }

  predicate NoDisplay(lines: seq<Line>) {
    forall i | 0 <= i < |lines| :: !Display(lines[i])
  }

  lemma {:induction false} NormalHasNoDisplay(previous: Option<Line>, rest: seq<Line>, done: seq<Line>)
    requires NoDisplay(done)
    ensures NoDisplay(Normal(previous, rest, done))
    decreases |rest|
  {
    if rest != [] {
      if !Display(rest[0]) {
        NormalHasNoDisplay(Some(rest[0]), rest[1..], done + [rest[0]]);
      } else if Block(previous, rest) {
        if done != [] && Display(Strip(done[|done| - 1])) { StripMakesNoDisplay(done[|done| - 1]); }
        NormalHasNoDisplay(Some(rest[1]), rest[2..], StripLast(done));
      } else {
        NormalHasNoDisplay(Some(rest[0]), rest[1..], done);
      }
    }
  }

  lemma {:induction false} NormalKeepsPlain(previous: Option<Line>, rest: seq<Line>, done: seq<Line>)
    requires NoDisplay(rest)
    ensures Normal(previous, rest, done) == done + rest
    decreases |rest|
  {
    if rest != [] {
      NormalKeepsPlain(Some(rest[0]), rest[1..], done + [rest[0]]);
      assert done + [rest[0]] + rest[1..] == done + rest;
    }
  }

  /** Normalizing twice is normalizing once, and a layer without display names is its own normal form. */
  lemma NormalFormIsIdempotent(lines: seq<Line>)
    ensures NormalForm(NormalForm(lines)) == NormalForm(lines)
    ensures NoDisplay(lines) ==> NormalForm(lines) == lines
  {
    NormalHasNoDisplay(None, lines, []);
    NormalKeepsPlain(None, NormalForm(lines), []);
    if NoDisplay(lines) { NormalKeepsPlain(None, lines, []); }
  }

  // ---- Changing a display line ----

  function Count(previous: Option<Line>, rest: seq<Line>): nat
    decreases |rest|
  {
    if rest == [] then 0
    else if !Display(rest[0]) then 1 + Count(Some(rest[0]), rest[1..])
    else if Block(previous, rest) then Count(Some(rest[1]), rest[2..])
    else Count(Some(rest[0]), rest[1..])
  }

  lemma {:induction false} NormalCounts(previous: Option<Line>, rest: seq<Line>, done: seq<Line>)
    ensures |Normal(previous, rest, done)| == |done| + Count(previous, rest)
    decreases |rest|
  {
    if rest != [] {
      if !Display(rest[0]) {
        NormalCounts(Some(rest[0]), rest[1..], done + [rest[0]]);
      } else if Block(previous, rest) {
        NormalCounts(Some(rest[1]), rest[2..], StripLast(done));
      } else {
        NormalCounts(Some(rest[0]), rest[1..], done);
      }
    }
  }

  lemma {:induction false} BlankHasNoName(line: Line)
    requires Closing(line)
    ensures !Display(line)
  {
    if line != "" && IsBlank(line[0]) {
      BlankHasNoName(line[1..]);
    } else {
      assert line != "" ==> line[0] == ')';
    }
  }

  /** What follows is a display line and a line of blanks and closing parentheses. */
  predicate BlockEnd(rest: seq<Line>) {
    |rest| > 1 && Display(rest[0]) && Closing(rest[1])
  }

  lemma PreviousMatters(p: Line, q: Line, rest: seq<Line>, done: seq<Line>)
    ensures Normal(Some(p), rest, done) == Normal(Some(q), rest, done) <==>
            (EndsOpen(p) <==> EndsOpen(q)) || !BlockEnd(rest)
  {
    if BlockEnd(rest) && EndsOpen(p) != EndsOpen(q) {
      BlankHasNoName(rest[1]);
      NormalCounts(Some(rest[1]), rest[2..], StripLast(done));
      NormalCounts(Some(rest[1]), rest[2..], done + [rest[1]]);
      assert rest[1..][1..] == rest[2..];
    }
  }

  /** One display line in place of another leaves the normal form as it is, exactly unless one of the two ends in an
      opening parenthesis, the other does not, and the end of a block follows. */
  lemma {:induction false} DisplayLineIsInvisible(previous: Option<Line>, before: seq<Line>, d: Line, e: Line,
                                                  after: seq<Line>, done: seq<Line>)
    requires Display(d) && Display(e)
    ensures Normal(previous, before + [d] + after, done) == Normal(previous, before + [e] + after, done) <==>
            (EndsOpen(d) <==> EndsOpen(e)) || !BlockEnd(after)
    decreases |before|
  {
    var x, y := before + [d] + after, before + [e] + after;
    if Closing(d) { BlankHasNoName(d); }
    if Closing(e) { BlankHasNoName(e); }
    if before == [] {
      assert x[1..] == after && y[1..] == after;
      if Block(previous, x) {
        assert x[2..] == y[2..];
        BlankHasNoName(after[0]);
      } else {
        PreviousMatters(d, e, after, done);
      }
    } else if !Display(before[0]) {
      assert x[1..] == before[1..] + [d] + after && y[1..] == before[1..] + [e] + after;
      DisplayLineIsInvisible(Some(before[0]), before[1..], d, e, after, done + [before[0]]);
    } else if |before| > 1 && Block(previous, x) {
      assert x[2..] == before[2..] + [d] + after && y[2..] == before[2..] + [e] + after;
      DisplayLineIsInvisible(Some(before[1]), before[2..], d, e, after, StripLast(done));
    } else {
      assert x[1..] == before[1..] + [d] + after && y[1..] == before[1..] + [e] + after;
      DisplayLineIsInvisible(Some(before[0]), before[1..], d, e, after, done);
    }
  }

  /** A display name that ends in an opening parenthesis is seen: another in its place changes the normal form. */
  lemma OpenDisplayLineIsVisible()
    ensures NormalForm(["ui:displayName =("] + ["ui:displayName =2", ")"])
            != NormalForm(["ui:displayName =1"] + ["ui:displayName =2", ")"])
  {
    var d, e, f := "ui:displayName =(", "ui:displayName =1", "ui:displayName =2";
    assert StartsWith(d, "ui:displayName =") && StartsWith(e, "ui:displayName =") && StartsWith(f, "ui:displayName =");
    assert SkipBlank(d) == d && SkipBlank(e) == e && SkipBlank(f) == f;
    assert EndsOpen(d) && !EndsOpen(e) && BlockEnd([f, ")"]);
    DisplayLineIsInvisible(None, [], d, e, [f, ")"], []);
    assert [] + [d] + [f, ")"] == [d] + [f, ")"] && [] + [e] + [f, ")"] == [e] + [f, ")"];
  }

  // ---- Adding a block that holds only a display line ----

  /** Ends a header line and opens its metadata: blanks and opening parentheses, one of them last but for blanks. */
  predicate Opener(text: string) {
    EndsOpen(text) && forall i | 0 <= i < |text| :: Loose(text[i])
  }

  lemma {:induction false} StripForgetsLoose(line: Line, tail: string)
    requires forall i | 0 <= i < |tail| :: Loose(tail[i])
    ensures Strip(line + tail) == Strip(line)
    decreases |tail|
  {
    if tail == "" {
      assert line + tail == line;
    } else {
      var shorter := tail[..|tail| - 1];
      assert (line + tail)[..|line + tail| - 1] == line + shorter;
      StripForgetsLoose(line, shorter);
    }
  }

  lemma {:induction false} EndsOpenWithTail(line: Line, tail: string)
    requires EndsOpen(tail)
    ensures EndsOpen(line + tail)
    decreases |tail|
  {
    if IsBlank(tail[|tail| - 1]) {
      assert (line + tail)[..|line + tail| - 1] == line + tail[..|tail| - 1];
      EndsOpenWithTail(line, tail[..|tail| - 1]);
    }
  }

  lemma {:induction false} OpenIsLoose(line: Line)
    requires EndsOpen(line)
    ensures Strip(line) != line && !Closing(line)
    decreases |line|
  {
    StripIsPrefix(line[..|line| - 1]);
    if IsBlank(line[|line| - 1]) { OpenIsLoose(line[..|line| - 1]); }
  }

  lemma {:induction false} ClosingIsNotOpen(line: Line)
    requires Closing(line)
    ensures !EndsOpen(line)
  {
    if line != "" { ClosingIsNotOpen(line[..|line| - 1]); }
  }

  /** The lines of a header whose metadata is one display line. */
  function WithBlock(h: Line, opener: string, d: Line, closing: Line): seq<Line> {
    [h + opener, d, closing]
  }

  predicate BlockLines(opener: string, d: Line, closing: Line) {
    Opener(opener) && Display(d) && Closing(closing)
  }

  lemma {:induction false} SkipIsSuffix(line: Line)
    ensures |SkipBlank(line)| <= |line| && SkipBlank(line) == line[|line| - |SkipBlank(line)|..]
  {
    if line != "" && IsBlank(line[0]) { SkipIsSuffix(line[1..]); }
  }

  lemma {:induction false} SkipThroughBlank(prefix: Line, rest: Line)
    requires SkipBlank(prefix) == ""
    ensures SkipBlank(prefix + rest) == SkipBlank(rest)
  {
    if prefix == "" {
      assert prefix + rest == rest;
    } else {
      assert (prefix + rest)[1..] == prefix[1..] + rest;
      SkipThroughBlank(prefix[1..], rest);
    }
  }

  lemma NameEndsInHeader(text: string, tail: string, name: string)
    requires StartsWith(text + tail, name) && name != "" && !Loose(name[|name| - 1])
    requires forall i | 0 <= i < |tail| :: Loose(tail[i])
    ensures StartsWith(text, name)
  {
    assert name[|name| - 1] == (text + tail)[|name| - 1];
    assert |name| <= |text|;
    assert text[..|name|] == (text + tail)[..|name|];
  }

  lemma FirstOf(text: string, prefix: string)
    requires StartsWith(text, prefix) && prefix != ""
    ensures text != "" && text[0] == prefix[0]
  {
  }

  lemma LooseHasNoName(text: string)
    requires forall i | 0 <= i < |text| :: Loose(text[i])
    ensures !Named(text)
  {
    if StartsWith(text, "string ui:displayName =") { FirstOf(text, "string ui:displayName ="); }
    if StartsWith(text, "ui:displayName =") { FirstOf(text, "ui:displayName ="); }
  }

  /** Opening metadata makes no display line. */
  lemma OpenerMakesNoDisplay(h: Line, tail: string)
    requires Display(h + tail) && forall i | 0 <= i < |tail| :: Loose(tail[i])
    ensures Display(h)
  {
    var long, short := "string ui:displayName =", "ui:displayName =";
    var text := SkipBlank(h);
    if text == "" {
      SkipThroughBlank(h, tail);
      SkipIsSuffix(tail);
      LooseHasNoName(SkipBlank(tail));
    } else {
      SkipThenRest(h, tail);
      NameEndsInHeader(text, tail, if StartsWith(text + tail, long) then long else short);
    }
  }

  lemma OpenedHeader(h: Line, opener: string)
    requires Opener(opener)
    ensures EndsOpen(h + opener) && !Closing(h + opener) && Strip(h + opener) == Strip(h)
  {
    EndsOpenWithTail(h, opener);
    OpenIsLoose(h + opener);
    StripForgetsLoose(h, opener);
  }

  lemma HeaderIsPlain(h: Line, opener: string)
    requires Opener(opener) && !Display(h)
    ensures !Display(h + opener)
  {
    if Display(h + opener) { OpenerMakesNoDisplay(h, opener); }
  }

  lemma BlockIsRead(previous: Option<Line>, h: Line, opener: string, d: Line, closing: Line, after: seq<Line>,
                    done: seq<Line>)
    requires BlockLines(opener, d, closing) && !Display(h)
    ensures Normal(previous, WithBlock(h, opener, d, closing) + after, done)
            == Normal(Some(closing), after, done + [Strip(h)])
  {
    var lines := WithBlock(h, opener, d, closing) + after;
    OpenedHeader(h, opener);
    HeaderIsPlain(h, opener);
    assert lines[1..] == [d, closing] + after && lines[1..][2..] == after;
    assert StripLast(done + [h + opener]) == done + [Strip(h)];
  }

  predicate NoOpenDisplay(lines: seq<Line>) {
    forall i | 0 <= i < |lines| :: Display(lines[i]) ==> !EndsOpen(lines[i])
  }

  /** Only the last line done can still change. */
  lemma {:induction false} EarlierIsKept(previous: Option<Line>, rest: seq<Line>, first: seq<Line>, second: seq<Line>)
    requires second != []
    ensures first <= Normal(previous, rest, first + second)
    decreases |rest|
  {
    if rest != [] {
      if !Display(rest[0]) {
        assert first + second + [rest[0]] == first + (second + [rest[0]]);
        EarlierIsKept(Some(rest[0]), rest[1..], first, second + [rest[0]]);
      } else if Block(previous, rest) {
        assert StripLast(first + second) == first + StripLast(second);
        EarlierIsKept(Some(rest[1]), rest[2..], first, StripLast(second));
      } else {
        EarlierIsKept(Some(rest[0]), rest[1..], first, second);
      }
    }
  }

  lemma {:induction false} LastIsKept(p: Line, rest: seq<Line>, done: seq<Line>)
    requires NoOpenDisplay(rest) && (!EndsOpen(p) || !BlockEnd(rest))
    ensures done <= Normal(Some(p), rest, done)
    decreases |rest|
  {
    if rest != [] {
      if !Display(rest[0]) {
        EarlierIsKept(Some(rest[0]), rest[1..], done, [rest[0]]);
      } else {
        LastIsKept(rest[0], rest[1..], done);
      }
    }
  }

  lemma BlockAtHead(h: Line, closing: Line, after: seq<Line>, done: seq<Line>)
    requires Closing(closing)
    ensures Strip(h) == h ==> Normal(Some(closing), after, done + [Strip(h)]) == Normal(Some(h), after, done + [h])
    ensures NoOpenDisplay(after) && Strip(h) != h ==>
              Normal(Some(closing), after, done + [Strip(h)]) != Normal(Some(h), after, done + [h])
  {
    ClosingIsNotOpen(closing);
    if Strip(h) == h {
      if EndsOpen(h) { OpenIsLoose(h); }
      PreviousMatters(closing, h, after, done + [h]);
    } else if NoOpenDisplay(after) {
      if EndsOpen(h) && BlockEnd(after) {
        BlankHasNoName(after[1]);
        assert after[1..][1..] == after[2..];
        NormalCounts(Some(after[1]), after[2..], StripLast(done + [h]));
        NormalCounts(Some(after[1]), after[2..], done + [Strip(h)] + [after[1]]);
      } else {
        LastIsKept(h, after, done + [h]);
        LastIsKept(closing, after, done + [Strip(h)]);
        assert Normal(Some(h), after, done + [h])[|done|] == (done + [h])[|done|];
        assert Normal(Some(closing), after, done + [Strip(h)])[|done|] == (done + [Strip(h)])[|done|];
      }
    }
  }

  /** Giving a header a metadata block that holds only a display line leaves the normal form as it is, whatever
      surrounds the header, when the header ends in none of the characters that the stripping removes; and only
      then, if no display line after it ends in an opening parenthesis. */
  lemma {:induction false} BlockIsInvisible(previous: Option<Line>, before: seq<Line>, h: Line, opener: string, d: Line,
                                            closing: Line, after: seq<Line>, done: seq<Line>)
    requires BlockLines(opener, d, closing) && !Display(h) && !Closing(h)
    ensures Strip(h) == h ==>
              Normal(previous, before + WithBlock(h, opener, d, closing) + after, done)
              == Normal(previous, before + [h] + after, done)
    ensures NoOpenDisplay(after) && Strip(h) != h ==>
              Normal(previous, before + WithBlock(h, opener, d, closing) + after, done)
              != Normal(previous, before + [h] + after, done)
    decreases |before|
  {
    var x, y := before + WithBlock(h, opener, d, closing) + after, before + [h] + after;
    OpenedHeader(h, opener);
    if before == [] {
      assert x == WithBlock(h, opener, d, closing) + after;
      assert y[1..] == after && y[0] == h;
      BlockIsRead(previous, h, opener, d, closing, after, done);
      BlockAtHead(h, closing, after, done);
    } else if !Display(before[0]) {
      assert x[1..] == before[1..] + WithBlock(h, opener, d, closing) + after && y[1..] == before[1..] + [h] + after;
      BlockIsInvisible(Some(before[0]), before[1..], h, opener, d, closing, after, done + [before[0]]);
    } else if |before| > 1 && Block(previous, x) {
      assert x[2..] == before[2..] + WithBlock(h, opener, d, closing) + after && y[2..] == before[2..] + [h] + after;
      BlockIsInvisible(Some(before[1]), before[2..], h, opener, d, closing, after, StripLast(done));
    } else {
      assert x[1..] == before[1..] + WithBlock(h, opener, d, closing) + after && y[1..] == before[1..] + [h] + after;
      BlockIsInvisible(Some(before[0]), before[1..], h, opener, d, closing, after, done);
    }
  }

  // ---- What is hashed ----

  function LittleEndian(n: nat, width: nat): seq<nat> {
    if width == 0 then [] else [n % 256] + LittleEndian(n / 256, width - 1)
  }

  function Power(width: nat): nat {
    if width == 0 then 1 else 256 * Power(width - 1)
  }

  function ReadLittle(bytes: seq<nat>): nat {
    if bytes == [] then 0 else bytes[0] + 256 * ReadLittle(bytes[1..])
  }

  /** Least byte first. */
  lemma {:induction false} LittleEndianReadsBack(n: nat, width: nat)
    requires n < Power(width)
    ensures ReadLittle(LittleEndian(n, width)) == n && forall b | b in LittleEndian(n, width) :: b < 256
  {
    if width > 0 {
      var bytes := LittleEndian(n, width);
      assert bytes[1..] == LittleEndian(n / 256, width - 1);
      LittleEndianReadsBack(n / 256, width - 1);
    }
  }

  lemma {:induction false} LittleEndianIsInjective(m: nat, n: nat, width: nat)
    requires m < Power(width) && n < Power(width) && LittleEndian(m, width) == LittleEndian(n, width)
    ensures m == n
    decreases width
  {
    if width > 0 {
      assert LittleEndian(m, width)[0] == m % 256 && LittleEndian(n, width)[0] == n % 256;
      assert LittleEndian(m, width)[1..] == LittleEndian(m / 256, width - 1);
      assert LittleEndian(n, width)[1..] == LittleEndian(n / 256, width - 1);
      LittleEndianIsInjective(m / 256, n / 256, width - 1);
    }
  }

  lemma {:induction false} LittleEndianLength(n: nat, width: nat)
    ensures |LittleEndian(n, width)| == width
    decreases width
  {
    if width > 0 { LittleEndianLength(n / 256, width - 1); }
  }

  function Bytes(line: Line): seq<nat> {
    seq(|line|, i requires 0 <= i < |line| => line[i] as nat)
  }

  /** The bytes given to the hash: each line after its length. */
  function Framed(lines: seq<Line>): seq<nat> {
    if lines == [] then [] else LittleEndian(|lines[0]|, 8) + Bytes(lines[0]) + Framed(lines[1..])
  }

  predicate Measurable(lines: seq<Line>) {
    forall i | 0 <= i < |lines| :: |lines[i]| < Power(8)
  }

  lemma FrameHead(lines: seq<Line>)
    requires lines != []
    ensures |Framed(lines)| >= 8 + |lines[0]|
    ensures Framed(lines)[..8] == LittleEndian(|lines[0]|, 8)
    ensures Framed(lines)[8..8 + |lines[0]|] == Bytes(lines[0])
    ensures Framed(lines)[8 + |lines[0]|..] == Framed(lines[1..])
  {
    LittleEndianLength(|lines[0]|, 8);
  }

  /** The framing loses nothing: layers hash alike, under an injective hash, exactly when their normal forms agree. */
  lemma {:induction false} FramingIsInjective(a: seq<Line>, b: seq<Line>)
    requires Measurable(a) && Measurable(b)
    ensures Framed(a) == Framed(b) <==> a == b
    decreases |a|
  {
    if a != [] { FrameHead(a); }
    if b != [] { FrameHead(b); }
    if a != [] && b != [] && Framed(a) == Framed(b) {
      LittleEndianIsInjective(|a[0]|, |b[0]|, 8);
      assert |a[0]| == |b[0]|;
      forall i | 0 <= i < |a[0]| ensures a[0][i] == b[0][i] {
        assert Bytes(a[0])[i] == Bytes(b[0])[i];
      }
      assert a[0] == b[0];
      FramingIsInjective(a[1..], b[1..]);
      assert a == [a[0]] + a[1..] && b == [b[0]] + b[1..];
    }
  }

  // ---- What the lines' properties mean ----

  predicate BlankFromTo(line: Line, from: nat, to: nat)
    requires from <= to <= |line|
  {
    forall i | from <= i < to :: line[i] == ' ' || line[i] == '\t'
  }

  /** After nothing but blanks, one of the two texts that name a display name. */
  predicate NamesAfter(line: Line, n: nat) {
    && n <= |line| && BlankFromTo(line, 0, n)
    && ("string ui:displayName =" <= line[n..] || "ui:displayName =" <= line[n..])
  }

  lemma {:induction false} SkippedBlanks(line: Line) returns (n: nat)
    ensures n <= |line| && SkipBlank(line) == line[n..] && BlankFromTo(line, 0, n)
    ensures n < |line| ==> line[n] != ' ' && line[n] != '\t'
  {
    n := 0;
    assert line[0..] == line;
    if line != "" && IsBlank(line[0]) {
      var rest := SkippedBlanks(line[1..]);
      n := rest + 1;
      assert line[n..] == line[1..][rest..];
      forall i | 0 <= i < n ensures line[i] == ' ' || line[i] == '\t' {
        if i > 0 { assert line[i] == line[1..][i - 1]; }
      }
    }
  }

  lemma NameIsAfterAllBlanks(line: Line, n: nat, m: nat)
    requires n <= |line| && BlankFromTo(line, 0, n) && (n < |line| ==> line[n] != ' ' && line[n] != '\t')
    requires NamesAfter(line, m)
    ensures m == n
  {
    assert line[m] == line[m..][0] && line[m] != ' ' && line[m] != '\t';
  }

  /** A display line is blanks and then one of the two texts. */
  lemma DisplayExactlyWhen(line: Line)
    ensures Display(line) <==> exists n: nat :: NamesAfter(line, n)
  {
    var n := SkippedBlanks(line);
    if m: nat :| NamesAfter(line, m) { NameIsAfterAllBlanks(line, n, m); }
    if Display(line) { assert NamesAfter(line, n); }
  }

  /** An opening parenthesis, and nothing but blanks after it. */
  predicate OpensAt(line: Line, n: nat) {
    n < |line| && line[n] == '(' && BlankFromTo(line, n + 1, |line|)
  }

  lemma OneMoreBlank(line: Line, n: nat)
    requires line != "" && IsBlank(line[|line| - 1])
    ensures OpensAt(line, n) <==> OpensAt(line[..|line| - 1], n)
  {
    var front := line[..|line| - 1];
    if OpensAt(front, n) {
      forall i | n + 1 <= i < |line| ensures line[i] == ' ' || line[i] == '\t' {
        if i < |front| { assert line[i] == front[i]; }
      }
    }
  }

  lemma {:induction false} EndsOpenExactlyWhen(line: Line)
    ensures EndsOpen(line) <==> exists n: nat :: OpensAt(line, n)
  {
    if line != "" {
      var last := |line| - 1;
      if IsBlank(line[last]) {
        EndsOpenExactlyWhen(line[..last]);
        if n: nat :| OpensAt(line, n) { OneMoreBlank(line, n); }
        if n: nat :| OpensAt(line[..last], n) { OneMoreBlank(line, n); }
      } else if line[last] == '(' {
        assert OpensAt(line, last);
      }
    }
  }

  lemma ClosingExactlyWhen(line: Line)
    ensures Closing(line) <==> forall c | c in line :: c == ' ' || c == '\t' || c == ')'
  {
    if Closing(line) {
      forall c | c in line ensures c == ' ' || c == '\t' || c == ')' {
        var i :| 0 <= i < |line| && line[i] == c;
      }
    }
    if forall c | c in line :: c == ' ' || c == '\t' || c == ')' {
      forall i | 0 <= i < |line| ensures IsBlank(line[i]) || line[i] == ')' { assert line[i] in line; }
    }
  }

  /** What is stripped is all the blanks and opening parentheses at the end. */
  lemma {:induction false} StripExactly(line: Line)
    ensures Strip(line) <= line
    ensures forall i | |Strip(line)| <= i < |line| :: line[i] == ' ' || line[i] == '\t' || line[i] == '('
    ensures Strip(line) != "" ==>
              var c := line[|Strip(line)| - 1]; c != ' ' && c != '\t' && c != '('
  {
    StripIsPrefix(line);
    if line != "" && Loose(line[|line| - 1]) {
      StripExactly(line[..|line| - 1]);
      StripIsPrefix(line[..|line| - 1]);
    }
  }
}
