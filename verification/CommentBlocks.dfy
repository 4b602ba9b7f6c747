/** Comment blocks of a source file, in one pass (scripts/lint-comments.py, `marker_of` and `blocks`). */
module CommentBlocks {
  import opened Wrappers
  import opened Order

  // ── One line ───────────────────────────────────────────────────────────────

  /** What `str.strip` takes off: `str.isspace`, code point by code point. */
  predicate IsSpace(c: char) {
    var n := c as int;
    || 9 <= n <= 13 || 28 <= n <= 32 || n in {0x85, 0xA0, 0x1680, 0x2028, 0x2029, 0x202F, 0x205F, 0x3000}
    || 0x2000 <= n <= 0x200A
  }

  lemma AsciiSpaces(c: char)
    requires c as int < 128
    ensures IsSpace(c) <==> c in " \t\n\r" || c as int in {11, 12, 28, 29, 30, 31}
  {
  }

  function LeftStrip(s: string): string { if s != "" && IsSpace(s[0]) then LeftStrip(s[1..]) else s }

  function RightStrip(s: string): string {
    if s != "" && IsSpace(s[|s| - 1]) then RightStrip(s[..|s| - 1]) else s
  }

  function Strip(s: string): string { RightStrip(LeftStrip(s)) }

  predicate Blank(s: string) { forall k :: 0 <= k < |s| ==> IsSpace(s[k]) }

  /** Nothing to strip: empty, or its first and its last character are not white space. */
  predicate Tight(s: string) { s != "" ==> !IsSpace(s[0]) && !IsSpace(s[|s| - 1]) }

  lemma {:induction false} LeftStripSkips(blanks: string, s: string)
    requires Blank(blanks) && (s != "" ==> !IsSpace(s[0]))
    ensures LeftStrip(blanks + s) == s
  {
    if blanks == "" {
      assert blanks + s == s;
    } else {
      assert (blanks + s)[1..] == blanks[1..] + s;
      LeftStripSkips(blanks[1..], s);
    }
  }

  lemma {:induction false} RightStripSkips(s: string, blanks: string)
    requires Blank(blanks) && (s != "" ==> !IsSpace(s[|s| - 1]))
    ensures RightStrip(s + blanks) == s
  {
    if blanks == "" {
      assert s + blanks == s;
    } else {
      var n := |blanks| - 1;
      assert (s + blanks)[..|s| + n] == s + blanks[..n];
      RightStripSkips(s, blanks[..n]);
    }
  }

  /** Stripping takes the white space off both ends, however much there is, and nothing else. */
  lemma StripSkips(before: string, s: string, after: string)
    requires Blank(before) && Blank(after) && Tight(s)
    ensures Strip(before + s + after) == s
  {
    if s == "" {
      BlankBoth(before, after);
      LeftStripSkips(before + s + after, "");
      assert before + s + after + "" == before + s + after;
    } else {
      assert before + s + after == before + (s + after);
      LeftStripSkips(before, s + after);
      RightStripSkips(s, after);
    }
  }

  lemma BlankBoth(a: string, b: string)
    requires Blank(a) && Blank(b)
    ensures Blank(a + "" + b)
  {
  }

  /** Every line is a tight middle between two stretches of white space. */
  lemma {:induction false} Trimmed(s: string) returns (i: nat, j: nat)
    ensures i <= j <= |s| && Blank(s[..i]) && Blank(s[j..]) && Tight(s[i..j]) && Strip(s) == s[i..j]
  {
    i, j := 0, |s|;
    while i < |s| && IsSpace(s[i])
      invariant i <= |s| && Blank(s[..i])
    {
      i := i + 1;
    }
    while j > i && IsSpace(s[j - 1])
      invariant i <= j <= |s| && Blank(s[j..])
    {
      j := j - 1;
    }
    assert s == s[..i] + s[i..j] + s[j..];
    StripSkips(s[..i], s[i..j], s[j..]);
  }

  /** The line starts with this marker and with none listed before it. */
  predicate FirstFitting(line: string, markers: seq<string>, i: int) {
    0 <= i < |markers| && markers[i] <= Strip(line) && forall j :: 0 <= j < i ==> !(markers[j] <= Strip(line))
  }

  /** The first listed marker the line starts with. */
  function MarkerOf(line: string, markers: seq<string>): (m: Option<string>)
    ensures m.None? <==> forall k :: k in markers ==> !(k <= Strip(line))
    ensures m.Some? ==> m.value <= Strip(line) && exists i :: FirstFitting(line, markers, i) && markers[i] == m.value
  {
    var fits := (marker: string) => marker <= Strip(line);
    var m := First(markers, fits);
    if m.Some? then
      FirstComesFirst(markers, fits);
      assert exists i :: FirstFitting(line, markers, i) && markers[i] == m.value;
      m
    else m
  }

  /** What the scan makes of a line: code, or a comment that may be a fence. */
  datatype Line = Code | Comment(marker: string, fence: bool)

  predicate TogglesFence(line: string, marker: string)
    requires marker <= Strip(line)
  {
    "```" <= Strip(Strip(line)[|marker|..])
  }

  function Classify(line: string, markers: seq<string>): Line {
    match MarkerOf(line, markers)
    case None => Code
    case Some(marker) => Comment(marker, TogglesFence(line, marker))
  }

  // ── Whatever the indentation ───────────────────────────────────────────────

  /** A list of comment markers: none is empty, and none begins or ends in white space. */
  predicate Markers(markers: seq<string>) {
    forall m :: m in markers ==> m != "" && Tight(m)
  }

  lemma PrefixOfTight(m: string, s: string, after: string)
    requires m != "" && Tight(m) && Blank(after)
    ensures m <= s + after <==> m <= s
  {
    if m <= s + after {
      var whole, last := s + after, |m| - 1;
      assert whole[last] == m[last];
      assert forall k :: |s| <= k < |whole| ==> whole[k] == after[k - |s|];
      assert last < |s|;
      assert m == whole[..|m|] == s[..|m|];
    }
  }

  lemma IndentEnds(blanks: string, text: string, i: nat, j: nat)
    requires Blank(blanks) && text != "" && !IsSpace(text[0])
    requires i <= j <= |blanks + text|
    requires Blank((blanks + text)[..i]) && Blank((blanks + text)[j..]) && Tight((blanks + text)[i..j])
    ensures i == |blanks| && text == (blanks + text)[i..j] + (blanks + text)[j..]
  {
    var s := blanks + text;
    assert forall k :: 0 <= k < |blanks| ==> s[k] == blanks[k];
    assert forall k :: 0 <= k < i ==> IsSpace(s[..i][k]);
    assert forall k :: j <= k < |s| ==> s[k] == s[j..][k - j];
    assert s[|blanks|] == text[0];
    assert i <= |blanks| < j && s[i] == s[i..j][0];
    assert text == s[|blanks|..];
  }

  /** Of an indented text stripping keeps all but the blanks it ends in. */
  lemma Unindented(blanks: string, text: string) returns (after: string)
    requires Blank(blanks) && text != "" && !IsSpace(text[0])
    ensures Blank(after) && text == Strip(blanks + text) + after
  {
    var i, j := Trimmed(blanks + text);
    IndentEnds(blanks, text, i, j);
    after := (blanks + text)[j..];
  }

  predicate FirstPrefix(text: string, markers: seq<string>, i: int) {
    0 <= i < |markers| && markers[i] <= text && forall j :: 0 <= j < i ==> !(markers[j] <= text)
  }

  /**
   However far it is indented and whatever blanks it ends in, a line is a comment exactly when the
   text after the indentation starts with a listed marker, and the first such marker is its marker.
   */
  lemma IndentedComment(blanks: string, text: string, markers: seq<string>)
    requires Blank(blanks) && text != "" && !IsSpace(text[0]) && Markers(markers)
    ensures var m := MarkerOf(blanks + text, markers);
      && (m.None? <==> forall k :: k in markers ==> !(k <= text))
      && (m.Some? ==> exists i :: FirstPrefix(text, markers, i) && markers[i] == m.value)
  {
    var kept := Strip(blanks + text);
    var after := Unindented(blanks, text);
    forall k | k in markers
      ensures k <= text <==> k <= kept
    {
      PrefixOfTight(k, kept, after);
    }
    var m := MarkerOf(blanks + text, markers);
    if m.Some? {
      var n :| FirstFitting(blanks + text, markers, n) && markers[n] == m.value;
      assert forall k :: 0 <= k <= n ==> markers[k] in markers;
      assert FirstPrefix(text, markers, n);
    }
  }

  /** A comment is a fence exactly when what follows its marker, blanks aside, starts with three backticks. */
  lemma FenceAfterMarker(blanks: string, marker: string, gap: string, text: string)
    requires Blank(blanks) && Blank(gap) && marker != "" && Tight(marker)
    requires text != "" ==> !IsSpace(text[0])
    ensures var line := blanks + (marker + gap + text);
      && marker <= Strip(line)
      && (TogglesFence(line, marker) <==> "```" <= text)
  {
    var whole := marker + gap + text;
    assert whole[0] == marker[0] && marker <= whole;
    var kept := Strip(blanks + whole);
    var after := Unindented(blanks, whole);
    PrefixOfTight(marker, kept, after);
    AfterPrefix(marker, kept, after, gap, text);
    FenceIn(kept[|marker|..], after, gap, text);
  }

  lemma AfterPrefix(marker: string, kept: string, after: string, gap: string, text: string)
    requires marker <= kept && kept + after == marker + gap + text
    ensures kept[|marker|..] + after == gap + text
  {
    assert gap + text == (marker + gap + text)[|marker|..];
    assert kept[|marker|..] + after == (kept + after)[|marker|..];
  }

  lemma FenceIn(rest: string, after: string, gap: string, text: string)
    requires Blank(gap) && Blank(after) && rest + after == gap + text && (text != "" ==> !IsSpace(text[0]))
    ensures "```" <= Strip(rest) <==> "```" <= text
  {
    var i, j := Trimmed(rest);
    var s, end := rest[i..j], rest[j..] + after;
    assert rest + after == rest[..i] + (s + end);
    SameStart(rest[..i], s, end, gap, text);
    PrefixOfTight("```", s, end);
  }

  /** Where the first character that is not white space stands does not depend on how a line is cut. */
  lemma SameStart(a: string, s: string, end: string, b: string, t: string)
    requires a + (s + end) == b + t && Blank(a) && Blank(b) && Blank(end)
    requires (s != "" ==> !IsSpace(s[0])) && (t != "" ==> !IsSpace(t[0]))
    ensures if s == "" then t == "" else t == s + end
  {
    var w := a + (s + end);
    assert forall k :: 0 <= k < |a| ==> w[k] == a[k];
    assert forall k :: |a| + |s| <= k < |w| ==> w[k] == end[k - |a| - |s|];
    assert forall k :: 0 <= k < |b| ==> (b + t)[k] == b[k];
    assert s != "" ==> w[|a|] == s[0];
    assert t != "" ==> (b + t)[|b|] == t[0];
    assert t == (b + t)[|b|..] && s + end == w[|a|..];
  }

  // ── The blocks of a file ───────────────────────────────────────────────────

  datatype Block = Block(marker: string, start: nat, prose: nat)

  predicate StartsRun(lines: seq<Line>, i: int) {
    0 <= i < |lines| && lines[i].Comment? && (i == 0 || lines[i - 1].Code?)
  }

  /** Where the run of comment lines from i on ends. */
  function RunEnd(lines: seq<Line>, i: nat): (j: nat)
    requires i <= |lines|
    ensures i <= j <= |lines| && (forall k :: i <= k < j ==> lines[k].Comment?) && (j == |lines| || lines[j].Code?)
    decreases |lines| - i
  {
    if i < |lines| && lines[i].Comment? then RunEnd(lines, i + 1) else i
  }

  predicate IsFence(line: Line) { line.Comment? && line.fence }

  ghost function Fences(lines: seq<Line>, i: int, j: int): set<int> {
    set k | i <= k < j && 0 <= k < |lines| && IsFence(lines[k])
  }

  /** Inside a fence: an odd number of fences since the block began. */
  ghost predicate Fenced(lines: seq<Line>, i: int, k: int) {
    |Fences(lines, i, k)| % 2 == 1
  }

  /** The lines of a block that are neither fences nor inside one. */
  ghost function Prose(lines: seq<Line>, i: int, j: int): set<int> {
    set k | i <= k < j && 0 <= k < |lines| && !IsFence(lines[k]) && !Fenced(lines, i, k)
  }

  ghost function BlockAt(lines: seq<Line>, i: nat): Block
    requires StartsRun(lines, i)
  {
    Block(lines[i].marker, i + 1, |Prose(lines, i, RunEnd(lines, i))|)
  }

  /** The maximal runs that start before line n, in order. */
  ghost function Runs(lines: seq<Line>, n: nat): seq<Block>
    requires n <= |lines|
  {
    if n == 0 then []
    else Runs(lines, n - 1) + if StartsRun(lines, n - 1) then [BlockAt(lines, n - 1)] else []
  }

  ghost predicate IsRunOf(lines: seq<Line>, n: nat, b: Block)
    requires n <= |lines|
  {
    1 <= b.start <= n && StartsRun(lines, b.start - 1) && b == BlockAt(lines, b.start - 1)
  }

  lemma {:induction false} RunsAreBlocks(lines: seq<Line>, n: nat)
    requires n <= |lines|
    ensures forall b :: b in Runs(lines, n) ==> IsRunOf(lines, n, b)
  {
    if n > 0 {
      RunsAreBlocks(lines, n - 1);
      forall b | b in Runs(lines, n)
        ensures IsRunOf(lines, n, b)
      {
        if b in Runs(lines, n - 1) {
          assert IsRunOf(lines, n - 1, b);
        }
      }
    }
  }

  lemma {:induction false} RunsRise(lines: seq<Line>, n: nat)
    requires n <= |lines|
    ensures forall p, q :: 0 <= p < q < |Runs(lines, n)| ==> Runs(lines, n)[p].start < Runs(lines, n)[q].start
  {
    if n > 0 {
      RunsRise(lines, n - 1);
      RunsAreBlocks(lines, n - 1);
      var earlier := Runs(lines, n - 1);
      forall p | 0 <= p < |earlier|
        ensures earlier[p].start < n
      {
        assert IsRunOf(lines, n - 1, earlier[p]);
      }
    }
  }

  lemma {:induction false} RunIn(lines: seq<Line>, n: nat, i: nat)
    requires i < n <= |lines| && StartsRun(lines, i)
    ensures BlockAt(lines, i) in Runs(lines, n)
  {
    var b := BlockAt(lines, i);
    if i < n - 1 {
      RunIn(lines, n - 1, i);
    } else {
      assert Runs(lines, n) == Runs(lines, i) + [b];
    }
  }

  /** Every maximal run is listed once, at its place. */
  lemma RunsListed(lines: seq<Line>, n: nat, i: nat)
    requires n <= |lines| && StartsRun(lines, i)
    ensures BlockAt(lines, i) in Runs(lines, n) <==> i < n
    ensures forall b :: b in Runs(lines, n) ==> IsRunOf(lines, n, b)
    ensures forall p, q :: 0 <= p < q < |Runs(lines, n)| ==> Runs(lines, n)[p].start < Runs(lines, n)[q].start
  {
    RunsAreBlocks(lines, n);
    RunsRise(lines, n);
    if i < n {
      RunIn(lines, n, i);
    }
  }

  lemma FencesOneMore(lines: seq<Line>, i: int, j: int)
    requires 0 <= i <= j < |lines|
    ensures |Fences(lines, i, j + 1)| == |Fences(lines, i, j)| + if IsFence(lines[j]) then 1 else 0
  {
    assert Fences(lines, i, j + 1) == Fences(lines, i, j) + if IsFence(lines[j]) then {j} else {};
  }

  lemma ProseOneMore(lines: seq<Line>, i: int, j: int)
    requires 0 <= i <= j < |lines|
    ensures |Prose(lines, i, j + 1)|
         == |Prose(lines, i, j)| + if !IsFence(lines[j]) && !Fenced(lines, i, j) then 1 else 0
  {
    assert Prose(lines, i, j + 1)
        == Prose(lines, i, j) + if !IsFence(lines[j]) && !Fenced(lines, i, j) then {j} else {};
  }

  // ── What a block says ──────────────────────────────────────────────────────

  predicate IsLine(text: seq<string>, markers: seq<string>, lines: seq<Line>, i: int) {
    0 <= i < |text| == |lines| && lines[i] == Classify(text[i], markers)
  }

  predicate AreLines(text: seq<string>, markers: seq<string>, lines: seq<Line>) {
    |lines| == |text| && forall i {:trigger IsLine(text, markers, lines, i)} ::
      0 <= i < |text| ==> IsLine(text, markers, lines, i)
  }

  function LinesOf(text: seq<string>, markers: seq<string>): (lines: seq<Line>)
    ensures AreLines(text, markers, lines)
  {
    seq(|text|, i requires 0 <= i < |text| => Classify(text[i], markers))
  }

  lemma TheLines(text: seq<string>, markers: seq<string>) returns (lines: seq<Line>)
    ensures AreLines(text, markers, lines)
  {
    lines := LinesOf(text, markers);
  }

  lemma SameLines(text: seq<string>, markers: seq<string>, lines: seq<Line>)
    requires AreLines(text, markers, lines)
    ensures lines == LinesOf(text, markers)
  {
    var same := LinesOf(text, markers);
    assert forall i :: 0 <= i < |text| ==>
      IsLine(text, markers, lines, i) && IsLine(text, markers, same, i) && lines[i] == same[i];
  }

  /** A block is named after its first line's marker, and the line before it is code or not there. */
  lemma BlockTells(text: seq<string>, markers: seq<string>, lines: seq<Line>, b: Block)
    requires AreLines(text, markers, lines) && b in Runs(lines, |lines|)
    ensures 1 <= b.start <= |text| && MarkerOf(text[b.start - 1], markers) == Some(b.marker)
    ensures b.start == 1 || MarkerOf(text[b.start - 2], markers).None?
  {
    BlockStarts(lines, b);
    LineTells(text, markers, lines, b.start - 1);
    if b.start > 1 {
      LineTells(text, markers, lines, b.start - 2);
    }
  }

  lemma BlockStarts(lines: seq<Line>, b: Block)
    requires b in Runs(lines, |lines|)
    ensures 1 <= b.start <= |lines| && lines[b.start - 1].Comment? && lines[b.start - 1].marker == b.marker
    ensures b.start == 1 || lines[b.start - 2].Code?
  {
    RunsAreBlocks(lines, |lines|);
    assert IsRunOf(lines, |lines|, b);
  }

  lemma LineTells(text: seq<string>, markers: seq<string>, lines: seq<Line>, i: nat)
    requires AreLines(text, markers, lines) && i < |text|
    ensures if lines[i].Code? then MarkerOf(text[i], markers).None?
            else MarkerOf(text[i], markers) == Some(lines[i].marker)
  {
    assert IsLine(text, markers, lines, i);
  }

  /** Over a stretch without a fence either every line is prose or none is. */
  lemma {:induction false} Stretch(lines: seq<Line>, i: nat, a: nat, b: nat)
    requires i <= a <= b <= |lines| && forall k :: a <= k < b ==> !IsFence(lines[k])
    ensures |Fences(lines, i, b)| == |Fences(lines, i, a)|
    ensures |Prose(lines, i, b)| == |Prose(lines, i, a)| + if Fenced(lines, i, a) then 0 else b - a
    decreases b - a
  {
    if a < b {
      Stretch(lines, i, a, b - 1);
      FencesOneMore(lines, i, b - 1);
      ProseOneMore(lines, i, b - 1);
    }
  }

  /** Without a fence every line of a block is prose; a fence that is never closed hides all that follows it. */
  lemma OpenFenceHides(lines: seq<Line>, i: nat, p: nat, j: nat)
    requires i <= p <= j <= |lines| && (p < j ==> IsFence(lines[p]))
    requires forall k :: i <= k < j && k != p ==> !IsFence(lines[k])
    ensures |Prose(lines, i, j)| == p - i
  {
    assert Fences(lines, i, i) == {} && Prose(lines, i, i) == {};
    Stretch(lines, i, i, p);
    if p < j {
      FencesOneMore(lines, i, p);
      ProseOneMore(lines, i, p);
      Stretch(lines, i, p + 1, j);
    }
  }

  /** Two fences hide themselves and what is between them, and nothing else. */
  lemma FencesHide(lines: seq<Line>, i: nat, p: nat, q: nat, j: nat)
    requires i <= p < q < j <= |lines| && IsFence(lines[p]) && IsFence(lines[q])
    requires forall k :: i <= k < j && k != p && k != q ==> !IsFence(lines[k])
    ensures |Prose(lines, i, j)| == (p - i) + (j - q - 1)
  {
    OpenFenceHides(lines, i, p, q);
    assert Fences(lines, i, q) == {p};
    FencesOneMore(lines, i, q);
    ProseOneMore(lines, i, q);
    Stretch(lines, i, q + 1, j);
  }

  // ── One pass ───────────────────────────────────────────────────────────────

  /** The variables of the scan: the blocks yielded, and the open block if there is one. */
  datatype Scan = Scan(found: seq<Block>, kind: Option<string>, start: nat, count: nat, fenced: bool)

  function Yielded(s: Scan): seq<Block> {
    if s.kind.Some? then s.found + [Block(s.kind.value, s.start, s.count)] else s.found
  }

  /** One step of the pass, on line number n + 1. */
  function Step(s: Scan, n: nat, line: Line): Scan {
    match line
    case Code => if s.kind.None? then s else Scan(Yielded(s), None, n + 1, 0, false)
    case Comment(marker, fence) =>
      var t := if s.kind.None? then Scan(s.found, Some(marker), n + 1, 0, false) else s;
      if fence then t.(fenced := !t.fenced) else if t.fenced then t else t.(count := t.count + 1)
  }

  function Pass(lines: seq<Line>, n: nat): Scan
    requires n <= |lines|
  {
    if n == 0 then Scan([], None, 0, 0, false) else Step(Pass(lines, n - 1), n - 1, lines[n - 1])
  }

  /** What the pass has counted: every run that ended, and of the run it is in, all up to here. */
  ghost predicate Counted(lines: seq<Line>, n: nat, s: Scan)
    requires n <= |lines|
  {
    if s.kind.None? then (n == 0 || lines[n - 1].Code?) && s.found == Runs(lines, n)
    else
      && 1 <= s.start <= n && StartsRun(lines, s.start - 1)
      && (forall k :: s.start - 1 <= k < n ==> lines[k].Comment?)
      && s.kind.value == lines[s.start - 1].marker
      && s.count == |Prose(lines, s.start - 1, n)|
      && s.fenced == Fenced(lines, s.start - 1, n)
      && s.found == Runs(lines, s.start - 1)
  }

  lemma {:induction false} NoRunInside(lines: seq<Line>, i: nat, n: nat)
    requires i < n <= |lines| && StartsRun(lines, i) && forall k :: i <= k < n ==> lines[k].Comment?
    ensures Runs(lines, n) == Runs(lines, i) + [BlockAt(lines, i)]
  {
    if n > i + 1 {
      NoRunInside(lines, i, n - 1);
    }
  }

  lemma {:induction false} RunEndAt(lines: seq<Line>, i: nat, n: nat)
    requires i <= n <= |lines| && (forall k :: i <= k < n ==> lines[k].Comment?) && (n == |lines| || lines[n].Code?)
    ensures RunEnd(lines, i) == n
    decreases n - i
  {
    if i < n {
      RunEndAt(lines, i + 1, n);
    }
  }

  /** At the end of a run the block counted is the run's. */
  lemma BlockCloses(lines: seq<Line>, n: nat, s: Scan)
    requires n <= |lines| && Counted(lines, n, s) && (n == |lines| || lines[n].Code?)
    ensures Yielded(s) == Runs(lines, n)
  {
    if s.kind.Some? {
      NoRunInside(lines, s.start - 1, n);
      RunEndAt(lines, s.start - 1, n);
    }
  }

  lemma CountsOn(lines: seq<Line>, n: nat, s: Scan)
    requires n < |lines| && Counted(lines, n, s)
    ensures Counted(lines, n + 1, Step(s, n, lines[n]))
  {
    if lines[n].Code? {
      BlockCloses(lines, n, s);
    } else {
      var i := if s.kind.None? then n else s.start - 1;
      assert Fences(lines, n, n) == {} && Prose(lines, n, n) == {};
      FencesOneMore(lines, i, n);
      ProseOneMore(lines, i, n);
    }
  }

  lemma PassNext(lines: seq<Line>, n: nat, s: Scan)
    requires n < |lines| && s == Pass(lines, n)
    ensures Pass(lines, n + 1) == Step(s, n, lines[n])
  {
  }

  lemma {:induction false} PassCounts(lines: seq<Line>, n: nat)
    requires n <= |lines|
    ensures Counted(lines, n, Pass(lines, n))
  {
    if n > 0 {
      PassCounts(lines, n - 1);
      CountsOn(lines, n - 1, Pass(lines, n - 1));
    }
  }

  lemma PassYields(lines: seq<Line>, s: Scan)
    requires s == Pass(lines, |lines|)
    ensures Yielded(s) == Runs(lines, |lines|)
  {
    PassCounts(lines, |lines|);
    BlockCloses(lines, |lines|, s);
  }

  /** What the pass reads of one line: its marker, and whether what follows the marker is a fence. */
  method ReadLine(text: seq<string>, n: nat, markers: seq<string>, ghost lines: seq<Line>)
    returns (marker: Option<string>, fence: bool)
    requires n < |text| == |lines| && AreLines(text, markers, lines)
    ensures lines[n] == if marker.None? then Code else Comment(marker.value, fence)
  {
    assert IsLine(text, markers, lines, n);
    marker := MarkerOf(text[n], markers);
    fence := marker.Some? && TogglesFence(text[n], marker.value);
  }

  /** `blocks`: exactly the maximal runs of comment lines, each with its first marker, its first line and its prose. */
  method Blocks(text: seq<string>, markers: seq<string>) returns (found: seq<Block>)
    ensures found == Runs(LinesOf(text, markers), |text|)
  {
    ghost var lines := TheLines(text, markers);
    found := [];
    var kind: Option<string>, start: nat, count: nat, fenced := None, 0, 0, false;
    for n := 0 to |text|
      invariant Scan(found, kind, start, count, fenced) == Pass(lines, n)
    {
      PassNext(lines, n, Scan(found, kind, start, count, fenced));
      var marker, fence := ReadLine(text, n, markers, lines);
      if marker.None? != kind.None? {
        if kind.Some? {
          found := found + [Block(kind.value, start, count)];
        }
        kind, start, count, fenced := marker, n + 1, 0, false;
      }
      if marker.None? {
        continue;
      }
      if fence {
        fenced := !fenced;
      } else if !fenced {
        count := count + 1;
      }
    }
    SameLines(text, markers, lines);
    PassYields(lines, Scan(found, kind, start, count, fenced));
    if kind.Some? {
      found := found + [Block(kind.value, start, count)];
    }
  }
}
