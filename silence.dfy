/** Silence detection: the matcher for the engine's `silence_start:` and
    `silence_end: … | silence_duration:` diagnostic lines, the line-by-line
    gap parser, and the heuristic that turns gaps into suggested chapters.
    The engine's diagnostic lines, the probed total duration and the engine's
    outcome are inputs; `num` stands for `parseFloat` of a captured number. */
module Silence {
  import opened Text

  /** One silence gap; `end` and `duration` stay 0 until an end line closes it. */
  datatype Gap = Gap(start: real, end: real, duration: real)

  /** One suggested chapter. */
  datatype Span = Span(start: real, end: real, duration: real)

  /** `\s` of JavaScript regular expressions: the whitespace and line
      terminator characters. */
  predicate IsSpace(c: char)
  {
    c == '\t' || c == '\n' || c == '\U{B}' || c == '\U{C}' || c == '\r' || c == ' '
    || c == '\U{A0}' || c == '\U{1680}' || ('\U{2000}' <= c <= '\U{200A}')
    || c == '\U{2028}' || c == '\U{2029}' || c == '\U{202F}' || c == '\U{205F}'
    || c == '\U{3000}' || c == '\U{FEFF}'
  }

  /** `[\d.]`. */
  predicate IsNumChar(c: char) { IsDigit(c) || c == '.' }

  /** The end of the whitespace run that starts at `i` (`\s*`, greedy). */
  function SkipSpace(s: string, i: nat): (j: nat)
    requires i <= |s|
    decreases |s| - i
    ensures i <= j <= |s| && (j == |s| || !IsSpace(s[j]))
    ensures forall k :: i <= k < j ==> IsSpace(s[k])
  {
    if i < |s| && IsSpace(s[i]) then SkipSpace(s, i + 1) else i
  }

  /** The end of the `[\d.]` run that starts at `i` (`[\d.]*`, greedy). */
  function NumRun(s: string, i: nat): (j: nat)
    requires i <= |s|
    decreases |s| - i
    ensures i <= j <= |s| && (j == |s| || !IsNumChar(s[j]))
    ensures forall k :: i <= k < j ==> IsNumChar(s[k])
  {
    if i < |s| && IsNumChar(s[i]) then NumRun(s, i + 1) else i
  }

  const StartKey: string := "silence_start:"
  const EndKey: string := "silence_end:"
  const DurationKey: string := "silence_duration:"

  /** `silence_start:\s*([\d.]+)` anchored at `k`: the captured number text. */
  function StartAt(line: string, k: nat): Option<string>
  {
    if !OccursAt(line, StartKey, k) then None
    else
      var i := SkipSpace(line, k + |StartKey|);
      var j := NumRun(line, i);
      if j == i then None else Some(line[i..j])
  }

  /** `silence_end:\s*([\d.]+)\s*\|\s*silence_duration:\s*([\d.]+)` anchored at
      `k`: the two captured number texts. */
  function EndAt(line: string, k: nat): Option<(string, string)>
  {
    if !OccursAt(line, EndKey, k) then None
    else
      var i1 := SkipSpace(line, k + |EndKey|);
      var j1 := NumRun(line, i1);
      if j1 == i1 then None
      else match DurationAfter(line, j1)
        case None => None
        case Some(d) => Some((line[i1..j1], d))
  }

  /** `\s*\|\s*silence_duration:\s*([\d.]+)` anchored at `j`: the duration text. */
  function DurationAfter(line: string, j: nat): Option<string>
    requires j <= |line|
  {
    var i2 := SkipSpace(line, j);
    if i2 == |line| || line[i2] != '|' then None
    else
      var i3 := SkipSpace(line, i2 + 1);
      if !OccursAt(line, DurationKey, i3) then None
      else
        var i4 := SkipSpace(line, i3 + |DurationKey|);
        var j4 := NumRun(line, i4);
        if j4 == i4 then None else Some(line[i4..j4])
  }

  /** The leftmost match of the start pattern at or after `k`. */
  function StartFrom(line: string, k: nat): (r: Option<string>)
    requires k <= |line|
    decreases |line| - k
    ensures r.None? <==> forall m :: k <= m <= |line| ==> StartAt(line, m).None?
  {
    if StartAt(line, k).Some? then StartAt(line, k)
    else if k == |line| then None
    else StartFrom(line, k + 1)
  }

  function EndFrom(line: string, k: nat): (r: Option<(string, string)>)
    requires k <= |line|
    decreases |line| - k
    ensures r.None? <==> forall m :: k <= m <= |line| ==> EndAt(line, m).None?
  {
    if EndAt(line, k).Some? then EndAt(line, k)
    else if k == |line| then None
    else EndFrom(line, k + 1)
  }

  /** `line.match(/silence_start:\s*([\d.]+)/)`, as its capture. */
  function MatchStart(line: string): Option<string>
  {
    StartFrom(line, 0)
  }

  /** `line.match(/silence_end:…silence_duration:\s*([\d.]+)/)`, as its captures. */
  function MatchEnd(line: string): Option<(string, string)>
  {
    EndFrom(line, 0)
  }

  /** A start line as the engine prints it is matched, and the number it
      carries is captured exactly. */
  lemma MatchStartLine(ds: string, rest: string)
    requires |ds| > 0 && forall i :: 0 <= i < |ds| ==> IsNumChar(ds[i])
    requires rest == [] || !IsNumChar(rest[0])
    ensures MatchStart(StartKey + " " + ds + rest) == Some(ds)
  {
    var line := StartKey + " " + ds + rest;
    assert line[..14] == StartKey;
    assert line[14] == ' ' && line[15..15 + |ds|] == ds;
    assert SkipSpace(line, 15) == 15;
    var j := NumRun(line, 15);
    NumRunStops(line, 15, ds, rest);
  }

  /** The `[\d.]` run that starts at `i` ends exactly after `ds`. */
  lemma NumRunStops(line: string, i: nat, ds: string, rest: string)
    requires i + |ds| + |rest| == |line| && line[i..i + |ds|] == ds && line[i + |ds|..] == rest
    requires forall k :: 0 <= k < |ds| ==> IsNumChar(ds[k])
    requires rest == [] || !IsNumChar(rest[0])
    ensures NumRun(line, i) == i + |ds|
    decreases |ds|
  {
    if |ds| > 0 {
      assert line[i] == ds[0];
      assert line[i + 1..i + 1 + |ds[1..]|] == ds[1..];
      NumRunStops(line, i + 1, ds[1..], rest);
    } else if rest != [] {
      assert line[i] == rest[0];
    }
  }

  lemma SkipNone(s: string, i: nat)
    requires i < |s| && !IsSpace(s[i])
    ensures SkipSpace(s, i) == i
  {
  }

  lemma SkipOne(s: string, i: nat)
    requires i + 1 < |s| && s[i] == ' ' && !IsSpace(s[i + 1])
    ensures SkipSpace(s, i) == i + 1
  {
  }

  /** An end line as the engine prints it is matched, and both numbers it
      carries are captured exactly. */
  lemma MatchEndLine(e: string, d: string)
    requires |e| > 0 && forall i :: 0 <= i < |e| ==> IsNumChar(e[i])
    requires |d| > 0 && forall i :: 0 <= i < |d| ==> IsNumChar(d[i])
    ensures MatchEnd(EndKey + " " + e + " | " + DurationKey + " " + d) == Some((e, d))
  {
    var mid := " | " + DurationKey + " ";
    var line := EndKey + " " + e + mid + d;
    EndLineLayout(e, d, mid, line);
    EndAtLayout(e, d, mid, line);
    assert MatchEnd(line) == Some((e, d));
    EndLineText(e, d);
  }

  /** Where the parts of a printed end line sit. */
  lemma EndLineLayout(e: string, d: string, mid: string, line: string)
    requires |e| > 0 && |d| > 0
    requires mid == " | " + DurationKey + " " && line == EndKey + " " + e + mid + d
    ensures |line| == 34 + |e| + |d|
    ensures line[..12] == EndKey && line[12] == ' ' && line[13] == e[0]
    ensures line[13..13 + |e|] == e && line[13 + |e|..] == mid + d
    ensures line[13 + |e|] == ' ' && line[14 + |e|] == '|' && line[15 + |e|] == ' ' && line[16 + |e|] == 's'
    ensures line[16 + |e|..33 + |e|] == DurationKey
    ensures line[33 + |e|] == ' ' && line[34 + |e|] == d[0] && line[34 + |e|..] == d
  {
  }

  lemma EndAtLayout(e: string, d: string, mid: string, line: string)
    requires |e| > 0 && forall i :: 0 <= i < |e| ==> IsNumChar(e[i])
    requires |d| > 0 && forall i :: 0 <= i < |d| ==> IsNumChar(d[i])
    requires mid == " | " + DurationKey + " "
    requires |line| == 34 + |e| + |d|
    requires line[..12] == EndKey && line[12] == ' ' && line[13] == e[0]
    requires line[13..13 + |e|] == e && line[13 + |e|..] == mid + d
    requires line[13 + |e|] == ' ' && line[14 + |e|] == '|' && line[15 + |e|] == ' ' && line[16 + |e|] == 's'
    requires line[16 + |e|..33 + |e|] == DurationKey
    requires line[33 + |e|] == ' ' && line[34 + |e|] == d[0] && line[34 + |e|..] == d
    ensures EndAt(line, 0) == Some((e, d))
  {
    var n := |e|;
    SkipOne(line, 12);
    NumRunStops(line, 13, e, mid + d);
    DurationLayout(d, line, 13 + n);
    assert OccursAt(line, EndKey, 0);
  }

  lemma DurationLayout(d: string, line: string, j: nat)
    requires |d| > 0 && forall i :: 0 <= i < |d| ==> IsNumChar(d[i])
    requires |line| == j + 21 + |d|
    requires line[j] == ' ' && line[j + 1] == '|' && line[j + 2] == ' ' && line[j + 3] == 's'
    requires line[j + 3..j + 20] == DurationKey
    requires line[j + 20] == ' ' && line[j + 21] == d[0] && line[j + 21..] == d
    ensures DurationAfter(line, j) == Some(d)
  {
    SkipOne(line, j);
    SkipOne(line, j + 2);
    SkipOne(line, j + 20);
    NumRunStops(line, j + 21, d, []);
    assert OccursAt(line, DurationKey, j + 3);
  }

  lemma EndLineText(e: string, d: string)
    ensures EndKey + " " + e + " | " + DurationKey + " " + d == EndKey + " " + e + (" | " + DurationKey + " ") + d
  {
  }

  /** A line without the start key never opens a gap. */
  lemma NoKeyNoStart(line: string)
    requires forall k :: 0 <= k <= |line| ==> !OccursAt(line, StartKey, k)
    ensures MatchStart(line).None?
  {
  }

  /** One diagnostic line: a start match opens a gap; then an end match, when
      there is a gap, closes the last one. */
  function Step(gaps: seq<Gap>, line: string, num: string -> real): seq<Gap>
  {
    Apply(gaps, MatchStart(line), MatchEnd(line), num)
  }

  /** A line's effect given what the two patterns captured in it. */
  function Apply(gaps: seq<Gap>, start: Option<string>, end: Option<(string, string)>, num: string -> real): seq<Gap>
  {
    Close(Open(gaps, start, num), end, num)
  }

  /** A start capture appends an open gap. */
  function Open(gaps: seq<Gap>, start: Option<string>, num: string -> real): seq<Gap>
  {
    if start.Some? then gaps + [Gap(num(start.value), 0.0, 0.0)] else gaps
  }

  /** An end capture closes the last gap, if there is one. */
  function Close(gaps: seq<Gap>, end: Option<(string, string)>, num: string -> real): seq<Gap>
  {
    if end.Some? && |gaps| > 0 then
      gaps[|gaps| - 1 := Gap(gaps[|gaps| - 1].start, num(end.value.0), num(end.value.1))]
    else gaps
  }

  lemma ParseStep(lines: seq<string>, n: nat, num: string -> real)
    requires n < |lines|
    ensures Gaps(lines[..n + 1], num) == Apply(Gaps(lines[..n], num), MatchStart(lines[n]), MatchEnd(lines[n]), num)
  {
    assert lines[..n + 1][..n] == lines[..n];
  }

  /** The gaps after reading `lines` in order. */
  function Gaps(lines: seq<string>, num: string -> real): seq<Gap>
  {
    if lines == [] then [] else Step(Gaps(lines[..|lines| - 1], num), lines[|lines| - 1], num)
  }

  /** The `stderr` handler over the whole run: the gap list grows on start
      lines and its last element is closed on end lines. */
  method ParseGaps(lines: seq<string>, num: string -> real) returns (gaps: seq<Gap>)
    ensures gaps == Gaps(lines, num)
  {
    gaps := [];
    var n := 0;
    assert lines[..0] == [];
    while n < |lines|
      invariant 0 <= n <= |lines|
      invariant gaps == Gaps(lines[..n], num)
    {
      gaps := OnLine(gaps, lines[n], num);
      ParseStep(lines, n, num);
      n := n + 1;
    }
    assert lines[..|lines|] == lines;
  }

  /** One `stderr` line: push a gap on a start match, then close the last gap
      on an end match. */
  method OnLine(gaps: seq<Gap>, line: string, num: string -> real) returns (next: seq<Gap>)
    ensures next == Step(gaps, line, num)
  {
    next := gaps;
    var start := MatchStart(line);
    var end := MatchEnd(line);
    if start.Some? {
      next := next + [Gap(num(start.value), 0.0, 0.0)];
    }
    if end.Some? && |next| > 0 {
      var last := next[|next| - 1];
      next := next[|next| - 1 := Gap(last.start, num(end.value.0), num(end.value.1))];
    }
  }

  /** A start line alone appends `{start, end: 0, duration: 0}`. */
  lemma StepStartOnly(gaps: seq<Gap>, line: string, num: string -> real)
    requires MatchStart(line).Some? && MatchEnd(line).None?
    ensures Step(gaps, line, num) == gaps + [Gap(num(MatchStart(line).value), 0.0, 0.0)]
  {
  }

  /** An end line alone closes the last gap, keeping its start and every
      earlier gap; with no gap yet it changes nothing. */
  lemma StepEndOnly(gaps: seq<Gap>, line: string, num: string -> real)
    requires MatchStart(line).None? && MatchEnd(line).Some?
    ensures gaps == [] ==> Step(gaps, line, num) == []
    ensures gaps != [] ==>
      var r := Step(gaps, line, num);
      && |r| == |gaps| && r[..|r| - 1] == gaps[..|gaps| - 1]
      && r[|r| - 1] == Gap(gaps[|gaps| - 1].start, num(MatchEnd(line).value.0), num(MatchEnd(line).value.1))
  {
  }

  /** Any other line leaves the gaps as they are. */
  lemma StepOther(gaps: seq<Gap>, line: string, num: string -> real)
    requires MatchStart(line).None? && MatchEnd(line).None?
    ensures Step(gaps, line, num) == gaps
  {
  }

  /** The number of lines with a start match. */
  function CountStarts(lines: seq<string>): nat
  {
    if lines == [] then 0
    else CountStarts(lines[..|lines| - 1]) + (if MatchStart(lines[|lines| - 1]).Some? then 1 else 0)
  }

  /** There is one gap per start line, and end lines never add one. */
  lemma {:induction false} GapCount(lines: seq<string>, num: string -> real)
    ensures |Gaps(lines, num)| == CountStarts(lines)
  {
    if lines != [] {
      GapCount(lines[..|lines| - 1], num);
    }
  }

  /** Line `n` is the `k`-th start line and gap `k` starts at its number. */
  predicate StartLineOf(lines: seq<string>, num: string -> real, k: nat, n: nat)
    requires n < |lines| && k < |Gaps(lines, num)|
  {
    && MatchStart(lines[n]).Some? && CountStarts(lines[..n]) == k
    && Gaps(lines, num)[k].start == num(MatchStart(lines[n]).value)
  }

  /** Every gap's start is the number of some start line, read in order: the
      k-th gap starts where the k-th start line says. */
  lemma {:induction false} GapStartsFromLines(lines: seq<string>, num: string -> real, k: nat)
    requires k < |Gaps(lines, num)|
    ensures exists n :: 0 <= n < |lines| && StartLineOf(lines, num, k, n)
  {
    assert lines != [];
    var init := lines[..|lines| - 1];
    var last := lines[|lines| - 1];
    var prev := Gaps(init, num);
    assert Gaps(lines, num) == Step(prev, last, num);
    StepKeepsStarts(prev, last, num, k);
    if k < |prev| {
      GapStartsFromLines(init, num, k);
      var n :| 0 <= n < |init| && StartLineOf(init, num, k, n);
      assert lines[n] == init[n] && lines[..n] == init[..n];
      assert StartLineOf(lines, num, k, n);
    } else {
      GapCount(init, num);
      assert lines[..|lines| - 1] == init;
      assert StartLineOf(lines, num, k, |lines| - 1);
    }
  }

  /** A step never changes a gap's start and only appends at the end. */
  lemma StepKeepsStarts(gaps: seq<Gap>, line: string, num: string -> real, k: nat)
    requires k < |Step(gaps, line, num)|
    ensures k < |gaps| ==> Step(gaps, line, num)[k].start == gaps[k].start
    ensures k >= |gaps| ==>
              k == |gaps| && MatchStart(line).Some? && Step(gaps, line, num)[k].start == num(MatchStart(line).value)
  {
    ApplyKeepsStarts(gaps, MatchStart(line), MatchEnd(line), num, k);
  }

  lemma ApplyKeepsStarts(gaps: seq<Gap>, start: Option<string>, end: Option<(string, string)>, num: string -> real, k: nat)
    requires k < |Apply(gaps, start, end, num)|
    ensures k < |gaps| ==> Apply(gaps, start, end, num)[k].start == gaps[k].start
    ensures k >= |gaps| ==> k == |gaps| && start.Some? && Apply(gaps, start, end, num)[k].start == num(start.value)
  {
  }

  // ---------------------------------------------------------------------
  // Gaps to suggested chapters.

  const EdgeMin: real := 0.5
  const MiddleMin: real := 30.0

  /** `[0, g0.start]` when the first gap starts more than 0.5 s in. */
  function Leading(gaps: seq<Gap>): seq<Span>
    requires gaps != []
  {
    if gaps[0].start > EdgeMin then [Span(0.0, gaps[0].start, gaps[0].start)] else []
  }

  /** The span between gap `u` and gap `u+1`. */
  function Between(gaps: seq<Gap>, u: nat): Span
    requires u + 1 < |gaps|
  {
    Span(gaps[u].end, gaps[u + 1].start, gaps[u + 1].start - gaps[u].end)
  }

  /** The middle spans of the first `u` neighbouring pairs that last 30 s or more. */
  function Middles(gaps: seq<Gap>, u: nat): seq<Span>
    requires u < |gaps|
  {
    if u == 0 then []
    else Middles(gaps, u - 1) + (if Between(gaps, u - 1).duration >= MiddleMin then [Between(gaps, u - 1)] else [])
  }

  /** `[last.end, total]` when the last gap ends more than 0.5 s before the end. */
  function Trailing(gaps: seq<Gap>, total: real): seq<Span>
    requires gaps != []
  {
    var last := gaps[|gaps| - 1];
    if total - last.end > EdgeMin then [Span(last.end, total, total - last.end)] else []
  }

  /** The suggested chapters for the gaps of a file `total` seconds long. */
  function Suggested(gaps: seq<Gap>, total: real): seq<Span>
  {
    if gaps == [] then [Span(0.0, total, total)]
    else Leading(gaps) + Middles(gaps, |gaps| - 1) + Trailing(gaps, total)
  }

  /** The `end` handler's loop that pushes the suggestions one by one. */
  method SuggestChapters(gaps: seq<Gap>, total: real) returns (r: seq<Span>)
    ensures r == Suggested(gaps, total)
  {
    r := [];
    if |gaps| == 0 {
      r := r + [Span(0.0, total, total)];
      return;
    }
    if gaps[0].start > EdgeMin {
      r := r + [Span(0.0, gaps[0].start, gaps[0].start)];
    }
    var u := 0;
    while u < |gaps| - 1
      invariant 0 <= u <= |gaps| - 1
      invariant r == Leading(gaps) + Middles(gaps, u)
    {
      var w := gaps[u].end;
      var s := gaps[u + 1].start;
      var e := s - w;
      if e >= MiddleMin {
        r := r + [Span(w, s, e)];
      }
      u := u + 1;
    }
    var f := gaps[|gaps| - 1];
    if total - f.end > EdgeMin {
      r := r + [Span(f.end, total, total - f.end)];
    }
  }

  /** Without gaps the whole file is one chapter. */
  lemma NoGapsOneChapter(total: real)
    ensures Suggested([], total) == [Span(0.0, total, total)]
  {
  }

  /** Middle spans, both ways: the span after pair `u` is suggested exactly when
      it lasts 30 s or more, and every middle span is such a span. */
  lemma {:induction false} MiddlesExactly(gaps: seq<Gap>, u: nat)
    requires u < |gaps|
    ensures forall v :: 0 <= v < u ==> (Between(gaps, v) in Middles(gaps, u) <== Between(gaps, v).duration >= MiddleMin)
    ensures forall m :: m in Middles(gaps, u) ==>
              exists v :: 0 <= v < u && m == Between(gaps, v) && Between(gaps, v).duration >= MiddleMin
    ensures |Middles(gaps, u)| <= u
  {
    if u > 0 {
      MiddlesExactly(gaps, u - 1);
    }
  }

  /** Each suggested span's duration is its end minus its start, and there are
      at most one more spans than gaps. */
  lemma SuggestedShape(gaps: seq<Gap>, total: real)
    ensures forall k :: 0 <= k < |Suggested(gaps, total)| ==>
              Suggested(gaps, total)[k].duration == Suggested(gaps, total)[k].end - Suggested(gaps, total)[k].start
    ensures |Suggested(gaps, total)| <= |gaps| + 1
  {
    if gaps != [] {
      MiddlesExactly(gaps, |gaps| - 1);
      var ms := Middles(gaps, |gaps| - 1);
      forall k | 0 <= k < |ms|
        ensures ms[k].duration == ms[k].end - ms[k].start
      {
        assert ms[k] in ms;
      }
    }
  }

  /** With gaps, every suggested span lasts more than 0.5 s. */
  lemma SuggestedLongerThanEdge(gaps: seq<Gap>, total: real)
    requires gaps != []
    ensures forall m :: m in Suggested(gaps, total) ==> m.duration > EdgeMin
  {
    MiddlesExactly(gaps, |gaps| - 1);
  }

  /** The leading span `[0, g0.start]` is suggested exactly when the first gap
      starts more than 0.5 s in. */
  lemma LeadingExactly(gaps: seq<Gap>, total: real)
    requires gaps != []
    ensures Span(0.0, gaps[0].start, gaps[0].start) in Suggested(gaps, total) <==> gaps[0].start > EdgeMin
  {
    SuggestedLongerThanEdge(gaps, total);
  }

  /** The trailing span `[last.end, total]` is suggested exactly when the last
      gap ends more than 0.5 s before the end of the file. */
  lemma TrailingExactly(gaps: seq<Gap>, total: real)
    requires gaps != []
    ensures var last := gaps[|gaps| - 1];
      Span(last.end, total, total - last.end) in Suggested(gaps, total) <==> total - last.end > EdgeMin
  {
    SuggestedLongerThanEdge(gaps, total);
  }

  /** Gaps as a real scan reports them: each closed, in order, inside the file. */
  predicate WellFormed(gaps: seq<Gap>, total: real)
  {
    && (forall k :: 0 <= k < |gaps| ==> 0.0 <= gaps[k].start <= gaps[k].end)
    && (forall k :: 0 <= k < |gaps| - 1 ==> gaps[k].end <= gaps[k + 1].start)
    && (gaps != [] ==> gaps[|gaps| - 1].end <= total)
  }

  /** Spans that never run backwards and never overlap, in order. */
  predicate Ordered(spans: seq<Span>)
  {
    && (forall i :: 0 <= i < |spans| ==> spans[i].start <= spans[i].end)
    && (forall i, j :: 0 <= i < j < |spans| ==> spans[i].end <= spans[j].start)
  }

  lemma {:induction false} GapsMonotone(gaps: seq<Gap>, total: real, a: nat, b: nat)
    requires WellFormed(gaps, total) && a < b < |gaps|
    ensures gaps[a].end <= gaps[b].start
  {
    if a + 1 < b {
      GapsMonotone(gaps, total, a, b - 1);
    }
  }

  /** The middle spans of the first `u` pairs are ordered and lie between the
      end of the first gap and the start of gap `u`. */
  lemma {:induction false} MiddlesOrdered(gaps: seq<Gap>, total: real, u: nat)
    requires WellFormed(gaps, total) && u < |gaps|
    ensures Ordered(Middles(gaps, u))
    ensures forall m :: m in Middles(gaps, u) ==> gaps[0].end <= m.start && m.end <= gaps[u].start
  {
    if u > 0 {
      MiddlesOrdered(gaps, total, u - 1);
      var b := Between(gaps, u - 1);
      if u - 1 > 0 {
        GapsMonotone(gaps, total, 0, u - 1);
      }
      var prev := Middles(gaps, u - 1);
      forall m | m in prev
        ensures m.end <= b.start
      {
      }
    }
  }

  /** Spans `xs` then `ys` stay ordered when every span of `xs` ends before
      every span of `ys` starts. */
  lemma ConcatOrdered(xs: seq<Span>, ys: seq<Span>)
    requires Ordered(xs) && Ordered(ys)
    requires forall x: Span, y: Span :: x in xs && y in ys ==> x.end <= y.start
    ensures Ordered(xs + ys)
  {
    var zs := xs + ys;
    forall i, j | 0 <= i < j < |zs|
      ensures zs[i].end <= zs[j].start
    {
      if j < |xs| {
      } else if i >= |xs| {
        assert zs[i] == ys[i - |xs|] && zs[j] == ys[j - |xs|];
      } else {
        assert zs[i] in xs && zs[j] in ys;
      }
    }
  }

  /** The leading span, when there is one, runs forwards and ends where
      the first gap starts. */
  lemma LeadingPlaced(gaps: seq<Gap>, total: real)
    requires WellFormed(gaps, total) && gaps != []
    ensures Ordered(Leading(gaps))
    ensures forall x: Span :: x in Leading(gaps) ==> x.end <= gaps[0].end
  {
  }

  /** The trailing span, when there is one, runs forwards from the end of the
      last gap. */
  lemma TrailingPlaced(gaps: seq<Gap>, total: real)
    requires WellFormed(gaps, total) && gaps != []
    ensures Ordered(Trailing(gaps, total))
    ensures forall y: Span :: y in Trailing(gaps, total) ==> y.start == gaps[|gaps| - 1].end
  {
  }

  /** The leading span and the middle spans are in order, and all of them end
      by the end of the last gap. */
  lemma LeadAndMiddlesOrdered(gaps: seq<Gap>, total: real)
    requires WellFormed(gaps, total) && gaps != []
    ensures Ordered(Leading(gaps) + Middles(gaps, |gaps| - 1))
    ensures forall x: Span :: x in Leading(gaps) + Middles(gaps, |gaps| - 1) ==> x.end <= gaps[|gaps| - 1].end
  {
    var n := |gaps|;
    var lead := Leading(gaps);
    var ms := Middles(gaps, n - 1);
    MiddlesOrdered(gaps, total, n - 1);
    LeadingPlaced(gaps, total);
    if n - 1 > 0 {
      GapsMonotone(gaps, total, 0, n - 1);
    }
    ConcatOrdered(lead, ms);
    forall x: Span | x in lead + ms
      ensures x.end <= gaps[n - 1].end
    {
      assert x in lead || x in ms;
    }
  }

  /** For gaps as a real scan reports them, the suggested chapters are in
      order and never overlap. */
  lemma SuggestedOrdered(gaps: seq<Gap>, total: real)
    requires WellFormed(gaps, total)
    requires gaps == [] ==> total >= 0.0
    ensures Ordered(Suggested(gaps, total))
  {
    if gaps != [] {
      var head := Leading(gaps) + Middles(gaps, |gaps| - 1);
      var trail := Trailing(gaps, total);
      LeadAndMiddlesOrdered(gaps, total);
      TrailingPlaced(gaps, total);
      ConcatOrdered(head, trail);
    }
  }

  // ---------------------------------------------------------------------
  // The handler.

  /** How the engine's scan ends. */
  datatype ScanOutcome = ScanDone | ScanError(message: string)

  datatype DetectResult = DetectResult(success: bool, silences: seq<Gap>, suggested: seq<Span>,
                                       totalDuration: real, error: Option<string>)

  /** The filter text, with the defaults -50 dB and 1.5 s for missing options. */
  function SilenceFilter(noise: Option<int>, minDuration: Option<string>): string
  {
    var n := match noise case Some(v) => v case None => -50;
    var d := match minDuration case Some(t) => t case None => "1.5";
    "silencedetect=noise=" + IntStr(n) + "dB:d=" + d
  }

  /** Without options the scan listens for -50 dB lasting 1.5 s. */
  lemma DefaultFilter()
    ensures SilenceFilter(None, None) == "silencedetect=noise=-50dB:d=1.5"
  {
    assert NatStr(50) == "50";
    assert IntStr(-50) == "-50";
    DefaultFilterText();
  }

  lemma DefaultFilterText()
    ensures "silencedetect=noise=" + "-50" + "dB:d=" + "1.5" == "silencedetect=noise=-50dB:d=1.5"
  {
    assert "silencedetect=noise=" + "-50" == "silencedetect=noise=-50";
    assert "silencedetect=noise=-50" + "dB:d=" == "silencedetect=noise=-50dB:d=";
  }

  /** The detect-silence handler: a missing file fails before anything runs; a
      failed scan reports the error with no gaps; a finished scan reports the
      parsed gaps and the suggestions. `total` is the probed duration (0 when
      the probe fails or has none). */
  method DetectSilence(fileExists: bool, total: real, lines: seq<string>, outcome: ScanOutcome,
                       num: string -> real) returns (r: DetectResult)
    ensures !fileExists ==> r == DetectResult(false, [], [], 0.0, Some("File not found"))
    ensures fileExists && outcome.ScanError? ==> r == DetectResult(false, [], [], total, Some(outcome.message))
    ensures fileExists && outcome.ScanDone? ==>
              r == DetectResult(true, Gaps(lines, num), Suggested(Gaps(lines, num), total), total, None)
  {
    if !fileExists {
      return DetectResult(false, [], [], 0.0, Some("File not found"));
    }
    var gaps := ParseGaps(lines, num);
    match outcome {
      case ScanError(msg) =>
        r := DetectResult(false, [], [], total, Some(msg));
      case ScanDone =>
        var suggested := SuggestChapters(gaps, total);
        r := DetectResult(true, gaps, suggested, total, None);
    }
  }
}
