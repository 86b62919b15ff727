/** How a clip template is numbered: the times its metadata spans, stepped through one by one, and the digits that
    take the place of its marks. Arithmetic is exact; the rounding of doubles is not part of this model. */
module ClipTimes {
  import opened Text
  import opened Wrappers
  import opened AssetPaths
  import opened ClosureValue
  import opened LocalizeTheorems

  // ---- Times ----

  const SLACK: real := 0.0000001
  const MOST_FILES: nat := 1_000_000
  const LEAST_TIME: int := -0x8000_0000_0000_0000
  const GREATEST_TIME: int := 0x7FFF_FFFF_FFFF_FFFF

  /** Toward zero, and no further than 64 bits. */
  function Truncated(time: real): int {
    var whole := if time < 0.0 then -((-time).Floor) else time.Floor;
    if whole < LEAST_TIME then LEAST_TIME else if whole > GREATEST_TIME then GREATEST_TIME else whole
  }

  /** The whole part, unless it does not fit. */
  lemma TruncatedIsWholePart(time: real)
    requires LEAST_TIME as real < time < GREATEST_TIME as real
    ensures time >= 0.0 ==> Truncated(time) as real <= time < Truncated(time) as real + 1.0
    ensures time < 0.0 ==> Truncated(time) as real - 1.0 < time <= Truncated(time) as real
  {
  }

  function TimeAt(start: real, stride: real, k: nat): real {
    start + (k as real) * stride
  }

  predicate InRange(start: real, end: real, stride: real, k: nat) {
    TimeAt(start, stride, k) <= end + SLACK
  }

  /** Exactly the times that lie in the range, truncated, in order. */
  predicate Spans(start: real, end: real, stride: real, times: seq<int>) {
    && !InRange(start, end, stride, |times|)
    && forall k | 0 <= k < |times| ::
         InRange(start, end, stride, k) && times[k] == Truncated(TimeAt(start, stride, k))
  }

  lemma TimesAscend(start: real, stride: real, i: nat, j: nat)
    requires stride > 0.0 && i < j
    ensures TimeAt(start, stride, i) < TimeAt(start, stride, j)
  {
    assert (j as real) * stride - (i as real) * stride == ((j - i) as real) * stride;
  }

  lemma SpansAll(start: real, end: real, stride: real, times: seq<int>, k: nat)
    requires stride > 0.0 && Spans(start, end, stride, times)
    ensures InRange(start, end, stride, k) <==> k < |times|
  {
    if k > |times| { TimesAscend(start, stride, |times|, k); }
  }

  lemma SpanIsUnique(start: real, end: real, stride: real, a: seq<int>, b: seq<int>)
    requires stride > 0.0 && Spans(start, end, stride, a) && Spans(start, end, stride, b)
    ensures a == b
  {
    SpansAll(start, end, stride, a, |b|);
    SpansAll(start, end, stride, b, |a|);
  }

  /** The program's loop. It gives up when it has made more than a million files. */
  method ExpandTimes(start: real, end: real, stride: real) returns (times: Option<seq<int>>)
    requires stride > 0.0 && start <= end
    ensures times.None? <==> InRange(start, end, stride, MOST_FILES)
    ensures times.Some? ==> Spans(start, end, stride, times.value) && 0 < |times.value| <= MOST_FILES
  {
    var made: seq<int> := [];
    var time := start;
    while time <= end + SLACK
      invariant |made| <= MOST_FILES && time == TimeAt(start, stride, |made|)
      invariant forall k | 0 <= k < |made| ::
                  InRange(start, end, stride, k) && made[k] == Truncated(TimeAt(start, stride, k))
      decreases MOST_FILES - |made|
    {
      assert ((|made| + 1) as real) * stride == (|made| as real) * stride + stride;
      made := made + [Truncated(time)];
      time := time + stride;
      if |made| > MOST_FILES { return None; }
    }
    SpansAll(start, end, stride, made, MOST_FILES);
    return Some(made);
  }

  /** The three times of a template: doubles, finite, a stride that goes forward, and a range that is not empty. */
  predicate Ranges(start: Option<Value>, end: Option<Value>, stride: Option<Value>) {
    && start.Some? && start.value.Double? && start.value.number.Some?
    && end.Some? && end.value.Double? && end.value.number.Some?
    && stride.Some? && stride.value.Double? && stride.value.number.Some?
    && stride.value.number.value > 0.0 && start.value.number.value <= end.value.number.value
  }

  ghost function ClipNumbers(start: Option<Value>, end: Option<Value>, stride: Option<Value>): Option<seq<int>> {
    if Ranges(start, end, stride)
       && exists times ::
            Spans(start.value.number.value, end.value.number.value, stride.value.number.value, times)
            && |times| <= MOST_FILES
    then
      var times :|
        Spans(start.value.number.value, end.value.number.value, stride.value.number.value, times)
        && |times| <= MOST_FILES;
      Some(times)
    else None
  }

  /** What the loop makes is what the template's numbering says. */
  method NumberClip(start: Option<Value>, end: Option<Value>, stride: Option<Value>) returns (times: Option<seq<int>>)
    ensures times == ClipNumbers(start, end, stride)
    ensures times != Some([])
  {
    if !Ranges(start, end, stride) { return None; }
    var first, last, step := start.value.number.value, end.value.number.value, stride.value.number.value;
    times := ExpandTimes(first, last, step);
    forall other | Spans(first, last, step, other) && |other| <= MOST_FILES ensures times == Some(other) {
      SpansAll(first, last, step, other, MOST_FILES);
      SpanIsUnique(first, last, step, times.value, other);
    }
  }

  // ---- Digits ----

  function Zeros(count: int): string {
    if count <= 0 then "" else Zeros(count - 1) + "0"
  }

  function ZeroFilled(width: int, n: nat): string {
    Zeros(width - |Decimal(n)|) + Decimal(n)
  }

  /** At least `width` characters: a sign if there is one, zeros, digits. */
  function Padded(width: nat, n: int): string {
    if n < 0 then "-" + ZeroFilled(width - 1, -n) else ZeroFilled(width, n)
  }

  function ReadInt(text: string): int {
    if text != "" && text[0] == '-' then 0 - NumberOf(text[1..]) else NumberOf(text)
  }

  lemma {:induction false} ZerosAreZeros(count: int)
    ensures |Zeros(count)| == (if count <= 0 then 0 else count) && forall c | c in Zeros(count) :: c == '0'
    ensures NumberOf(Zeros(count)) == 0
  {
    if count > 0 {
      ZerosAreZeros(count - 1);
      assert Zeros(count)[..|Zeros(count)| - 1] == Zeros(count - 1);
    }
  }

  lemma {:induction false} LeadingZeros(count: int, digits: string)
    ensures NumberOf(Zeros(count) + digits) == NumberOf(digits)
    decreases |digits|
  {
    ZerosAreZeros(count);
    if digits == "" {
      assert Zeros(count) + digits == Zeros(count);
    } else {
      var front := digits[..|digits| - 1];
      assert (Zeros(count) + digits)[..|Zeros(count) + digits| - 1] == Zeros(count) + front;
      LeadingZeros(count, front);
    }
  }

  predicate Digits(text: string) {
    text != "" && forall c | c in text :: '0' <= c <= '9'
  }

  lemma DecimalIsDigits(n: nat)
    ensures Digits(Decimal(n)) && NumberOf(Decimal(n)) == n
  {
    DecimalReadsBack(n);
    DecimalIsPlain(n);
  }

  lemma ZerosAndDigits(count: int, digits: string)
    requires Digits(digits)
    ensures var text := Zeros(count) + digits;
      && Digits(text) && NumberOf(text) == NumberOf(digits)
      && |text| == if count <= 0 then |digits| else count + |digits|
  {
    LeadingZeros(count, digits);
    ZerosAreZeros(count);
  }

  /** Zeros and digits: they read as the digits. */
  lemma ZeroFilledReads(width: int, n: nat)
    ensures Digits(ZeroFilled(width, n)) && NumberOf(ZeroFilled(width, n)) == n
    ensures |ZeroFilled(width, n)| == if |Decimal(n)| < width then width else |Decimal(n)|
  {
    DecimalIsDigits(n);
    ZerosAndDigits(width - |Decimal(n)|, Decimal(n));
  }

  lemma SignedReads(digits: string)
    requires Digits(digits)
    ensures ReadInt("-" + digits) == 0 - NumberOf(digits) && !HasHash("-" + digits)
  {
    assert ("-" + digits)[1..] == digits;
  }

  lemma UnsignedReads(digits: string)
    requires Digits(digits)
    ensures ReadInt(digits) == NumberOf(digits) && !HasHash(digits)
  {
    assert digits[0] in digits;
  }

  lemma NegativeReadsBack(width: nat, m: nat)
    requires 0 < m
    ensures Padded(width, 0 - m) == "-" + ZeroFilled(width - 1, m)
    ensures ReadInt(Padded(width, 0 - m)) == 0 - m && !HasHash(Padded(width, 0 - m))
    ensures |Padded(width, 0 - m)| == if |Decimal(m)| + 1 < width then width else |Decimal(m)| + 1
  {
    ZeroFilledReads(width - 1, m);
    SignedReads(ZeroFilled(width - 1, m));
  }

  lemma PositiveReadsBack(width: nat, n: nat)
    ensures ReadInt(Padded(width, n)) == n && !HasHash(Padded(width, n))
    ensures |Padded(width, n)| == if |Decimal(n)| < width then width else |Decimal(n)|
  {
    ZeroFilledReads(width, n);
    UnsignedReads(ZeroFilled(width, n));
  }

  /** A padded number reads back, has no marks, and is as wide as asked unless its sign and digits need more. */
  lemma PaddedReadsBack(width: nat, n: int)
    ensures ReadInt(Padded(width, n)) == n && !HasHash(Padded(width, n))
    ensures var needed := if n < 0 then |Decimal(-n)| + 1 else |Decimal(n)|;
      |Padded(width, n)| == if needed < width then width else needed
  {
    if n < 0 { NegativeReadsBack(width, -n); } else { PositiveReadsBack(width, n); }
  }

  ghost const CLIP_NUMBERING: Numbering := Numbering((start, end, stride) => ClipNumbers(start, end, stride), Padded)

  lemma ClipsArePaddedWithoutMarks()
    ensures PadsWithoutMarks(CLIP_NUMBERING)
  {
    forall width: nat, time: int ensures !HasHash(CLIP_NUMBERING.pad(width, time)) { PaddedReadsBack(width, time); }
  }

  // ---- Templates ----

  /** One run of marks in all the steps: `n` of them at `at` in one step. */
  predicate OneRun(steps: seq<string>, step: nat, at: nat, n: nat) {
    && step < |steps| && 0 < n && at + n <= |steps[step]|
    && (forall i | 0 <= i < |steps[step]| :: steps[step][i] == '#' <==> at <= i < at + n)
    && forall i | 0 <= i < |steps| && i != step :: '#' !in steps[i]
  }

  lemma {:induction false} RunIsCounted(text: string, n: nat)
    requires n <= |text| && (forall i | 0 <= i < n :: text[i] == '#') && (n < |text| ==> text[n] != '#')
    ensures HashRun(text) == n
    decreases |text|
  {
    if n > 0 { RunIsCounted(text[1..], n - 1); }
  }

  lemma {:induction false} CountedRun(text: string)
    ensures forall i | 0 <= i < HashRun(text) :: text[i] == '#'
    ensures HashRun(text) < |text| ==> text[HashRun(text)] != '#'
  {
    if text != "" && text[0] == '#' {
      CountedRun(text[1..]);
      forall i | 0 <= i < HashRun(text) ensures text[i] == '#' {
        if i > 0 { assert text[i] == text[1..][i - 1]; }
      }
    }
  }

  lemma {:induction false} FirstIsFirst(text: string, at: nat)
    requires at < |text| && text[at] == '#' && forall i | 0 <= i < at :: text[i] != '#'
    ensures HasHash(text) && FirstHash(text) == at
    decreases |text|
  {
    if at > 0 { FirstIsFirst(text[1..], at - 1); }
  }

  lemma {:induction false} NothingBeforeFirst(text: string)
    requires HasHash(text)
    ensures forall i | 0 <= i < FirstHash(text) :: text[i] != '#'
  {
    if text[0] != '#' {
      assert text[1..] + [] == text[1..] && '#' in text[1..];
      NothingBeforeFirst(text[1..]);
    }
  }

  lemma StepOfRun(steps: seq<string>, step: nat, at: nat, n: nat)
    requires OneRun(steps, step, at, n)
    ensures HashStep(steps) == Some(step) && FirstHash(steps[step]) == at
    ensures HashRun(steps[step][at..]) == n && AfterRun(steps[step]) == steps[step][at + n..]
  {
    var text := steps[step];
    assert text[at] == '#';
    FirstIsFirst(text, at);
    RunIsCounted(text[at..], n);
    assert text[at..][n..] == text[at + n..];
    assert HasHash(text);
  }

  lemma RunIsTemplate(steps: seq<string>, step: nat, at: nat, n: nat)
    requires OneRun(steps, step, at, n)
    ensures IsTemplate(steps)
  {
    StepOfRun(steps, step, at, n);
    var rest := AfterRun(steps[step]);
    forall i | 0 <= i < |rest| ensures rest[i] != '#' { assert rest[i] == steps[step][at + n + i]; }
  }

  lemma TemplateHasRun(steps: seq<string>) returns (step: nat, at: nat, n: nat)
    requires IsTemplate(steps)
    ensures OneRun(steps, step, at, n)
  {
    step := HashStep(steps).value;
    var text := steps[step];
    at := FirstHash(text);
    n := HashRun(text[at..]);
    NothingBeforeFirst(text);
    CountedRun(text[at..]);
    assert text[at..][0] == '#';
    forall i | 0 <= i < |text| ensures text[i] == '#' <==> at <= i < at + n {
      if at <= i < at + n { assert text[i] == text[at..][i - at]; }
      if at + n <= i { assert text[i] == AfterRun(text)[i - at - n]; }
    }
  }

  /** A template expands exactly if it has one run of marks and its range some times, and then each file is the
      template with the padded time in the place of the run. */
  lemma ExpandsExactlyWhen(numbering: Numbering, clip: seq<Entry>, template: Asset)
    ensures var times :=
              numbering.times(Get(clip, "templateStartTime"), Get(clip, "templateEndTime"),
                              Get(clip, "templateStride"));
      ExpandTemplate(numbering, clip, template).Some? <==>
      times.Some? && times.value != [] && exists step, at, n :: OneRun(template.steps, step, at, n)
  {
    if IsTemplate(template.steps) { var step, at, n := TemplateHasRun(template.steps); }
    if step: nat, at: nat, n: nat :| OneRun(template.steps, step, at, n) { RunIsTemplate(template.steps, step, at, n); }
  }

  lemma ExpandedFile(numbering: Numbering, clip: seq<Entry>, template: Asset, step: nat, at: nat, n: nat, i: nat)
    requires ExpandTemplate(numbering, clip, template).Some? && OneRun(template.steps, step, at, n)
    ensures var times, files :=
              numbering.times(Get(clip, "templateStartTime"), Get(clip, "templateEndTime"),
                              Get(clip, "templateStride")).value,
              ExpandTemplate(numbering, clip, template).value;
      && |files| == |times|
      && (i < |files| ==>
            files[i] == template.(steps := template.steps[step :=
                          template.steps[step][..at] + numbering.pad(n, times[i]) + template.steps[step][at + n..]]))
  {
    StepOfRun(template.steps, step, at, n);
  }

  /** Two files of one template are one exactly if their times truncate to one number. */
  lemma FilesDifferByTime(clip: seq<Entry>, template: Asset, i: nat, j: nat)
    requires ExpandTemplate(CLIP_NUMBERING, clip, template).Some?
    requires i < |ExpandTemplate(CLIP_NUMBERING, clip, template).value|
    requires j < |ExpandTemplate(CLIP_NUMBERING, clip, template).value|
    ensures var times, files := TemplateTimes(CLIP_NUMBERING, clip).value,
                                ExpandTemplate(CLIP_NUMBERING, clip, template).value;
      |files| == |times| && (files[i] == files[j] <==> times[i] == times[j])
  {
    var step, at, n := TemplateHasRun(template.steps);
    ExpandedFile(CLIP_NUMBERING, clip, template, step, at, n, i);
    ExpandedFile(CLIP_NUMBERING, clip, template, step, at, n, j);
    var times, files := TemplateTimes(CLIP_NUMBERING, clip).value, ExpandTemplate(CLIP_NUMBERING, clip, template).value;
    var before, after := template.steps[step][..at], template.steps[step][at + n..];
    if files[i] == files[j] {
      var x, y := Padded(n, times[i]), Padded(n, times[j]);
      assert files[i].steps[step] == before + x + after && files[j].steps[step] == before + y + after;
      SameMiddle(before, x, y, after);
      PaddedReadsBack(n, times[i]);
      PaddedReadsBack(n, times[j]);
    }
  }

  lemma SameMiddle(before: string, x: string, y: string, after: string)
    requires before + x + after == before + y + after
    ensures x == y
  {
    var whole := before + x + after;
    assert |x| == |y|;
    assert x == whole[|before|..|before| + |x|] && y == whole[|before|..|before| + |y|];
  }
}
