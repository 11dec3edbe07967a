/**
 * The three pattern pairs of the Claude Code adapter, as lines of text, and
 * the proof that they may be rewritten in any source file.
 */
module AdapterPatterns {
  import opened Prelude
  import opened TextOccurrences
  import opened SourceRewriter

  // ---------------------------------------------------------------- patterns made of lines

  /** A line: one newline, at its end. */
  ghost predicate IsLine(line: string) {
    line != "" && forall k | 0 <= k < |line| :: line[k] == '\n' <==> k == |line| - 1
  }

  ghost predicate AreLines(lines: seq<string>) {
    lines != [] && forall i | 0 <= i < |lines| :: IsLine(lines[i])
  }

  function Text(lines: seq<string>): string {
    if lines == [] then "" else lines[0] + Text(lines[1..])
  }

  predicate EndsWith(line: string, tail: string) {
    |tail| <= |line| && line[|line| - |tail|..] == tail
  }

  /** `lines[k]`, shortened to `first`, begins at offset `s` of the text. */
  ghost predicate BeginsInLine(lines: seq<string>, first: string, s: nat, k: nat) {
    k < |lines| && EndsWith(lines[k], first) && s == |Text(lines[..k])| + |lines[k]| - |first|
  }

  lemma TextOfTail(lines: seq<string>, k: nat)
    requires 0 < k <= |lines|
    ensures Text(lines[..k]) == lines[0] + Text(lines[1..][..k - 1])
  {
    assert lines[..k][1..] == lines[1..][..k - 1];
  }

  /** Overlaid texts break their first lines at the same place. */
  lemma NewlinesAlign(u: string, n: nat, w: string, m: nat, s: nat)
    requires s < n <= |u| && 0 < m <= |w|
    requires forall k | 0 <= k < n :: u[k] == '\n' <==> k == n - 1
    requires forall k | 0 <= k < m :: w[k] == '\n' <==> k == m - 1
    requires Starts(u, w, s)
    ensures m == n - s
  {
    assert s + (m - 1) < |u| ==> u[s + (m - 1)] == w[m - 1];
    assert n - 1 - s < |w| ==> u[s + (n - 1 - s)] == w[n - 1 - s];
  }

  /** One line-made text can start inside another only where its first line ends one of the other's lines. */
  lemma {:induction false} StartsAtLineEnd(u: seq<string>, w: seq<string>, s: nat) returns (k: nat)
    requires AreLines(u) && AreLines(w) && Starts(Text(u), Text(w), s)
    ensures BeginsInLine(u, w[0], s, k)
  {
    var U, W := Text(u), Text(w);
    var n, m := |u[0]|, |w[0]|;
    assert U == u[0] + Text(u[1..]) && W == w[0] + Text(w[1..]);
    if s < n {
      NewlinesAlign(U, n, W, m, s);
      forall j | 0 <= j < m ensures u[0][s..][j] == w[0][j] {
        assert U[s + j] == W[j];
      }
      assert u[0][s..] == w[0];
      assert Text(u[..0]) == "";
      k := 0;
    } else {
      assert Text([]) == "" && u[0] + "" == u[0];
      forall j | 0 <= j < |W| && s - n + j < |Text(u[1..])| ensures Text(u[1..])[s - n + j] == W[j] {
        assert U[s + j] == Text(u[1..])[s - n + j];
      }
      var k' := StartsAtLineEnd(u[1..], w, s - n);
      k := k' + 1;
      TextOfTail(u, k);
    }
  }

  ghost predicate NoLineEndsWith(lines: seq<string>, tail: string) {
    forall k | 0 <= k < |lines| :: !EndsWith(lines[k], tail)
  }

  lemma ApartByLines(u: seq<string>, w: seq<string>)
    requires AreLines(u) && AreLines(w) && NoLineEndsWith(u, w[0]) && NoLineEndsWith(w, u[0])
    ensures Apart(Text(u), Text(w))
  {
    forall s: nat ensures !Starts(Text(u), Text(w), s) && !Starts(Text(w), Text(u), s) {
      if Starts(Text(u), Text(w), s) {
        var k := StartsAtLineEnd(u, w, s);
      }
      if Starts(Text(w), Text(u), s) {
        var k := StartsAtLineEnd(w, u, s);
      }
    }
  }

  lemma NeverInsideByLines(u: seq<string>, w: seq<string>)
    requires AreLines(u) && AreLines(w) && NoLineEndsWith(u, w[0])
    ensures forall s: nat :: !Starts(Text(u), Text(w), s)
  {
    forall s: nat ensures !Starts(Text(u), Text(w), s) {
      if Starts(Text(u), Text(w), s) {
        var k := StartsAtLineEnd(u, w, s);
      }
    }
  }

  lemma SolidByLines(w: seq<string>)
    requires AreLines(w) && NoLineEndsWith(w[1..], w[0])
    ensures Solid(Text(w))
  {
    assert Text(w) == w[0] + Text(w[1..]);
    assert Text(w[..0]) == "";
    assert forall k | 0 < k < |w| :: w[1..][k - 1] == w[k];
    forall s: nat | s > 0 ensures !Starts(Text(w), Text(w), s) {
      if Starts(Text(w), Text(w), s) {
        var k := StartsAtLineEnd(w, w, s);
      }
    }
  }

  /** A one-line text that ends exactly one line of another, the last one, and is that line. */
  lemma EmbeddedLastLine(u: seq<string>, line: string)
    requires AreLines(u) && IsLine(line) && u[|u| - 1] == line && NoLineEndsWith(u[..|u| - 1], line)
    ensures forall s: nat | Starts(Text(u), Text([line]), s) :: OnlyAt(Text(u), Text([line]), s)
  {
    assert Text([line]) == line + Text([]);
    assert Text([line]) == line;
    var last := |Text(u[..|u| - 1])|;
    TextOfConcat(u[..|u| - 1], [line]);
    assert u[..|u| - 1] + [line] == u;
    assert forall k | 0 <= k < |u| - 1 :: u[..|u| - 1][k] == u[k];
    forall s: nat | Starts(Text(u), line, s) ensures s == last {
      var k := StartsAtLineEnd(u, [line], s);
    }
    assert Text(u)[last..last + |line|] == line;
    assert OccursAt(Text(u), line, last);
    forall q: nat | OccursAt(Text(u), line, q) ensures q == last {
      OccurrenceStarts(Text(u), line, q);
    }
  }

  lemma OccurrenceStarts(text: string, w: string, q: nat)
    requires w != "" && OccursAt(text, w, q)
    ensures Starts(text, w, q)
  {
    forall k | 0 <= k < |w| && q + k < |text| ensures text[q + k] == w[k] {
      assert text[q..q + |w|][k] == text[q + k];
    }
  }

  lemma {:induction false} TextOfConcat(a: seq<string>, b: seq<string>)
    ensures Text(a + b) == Text(a) + Text(b)
  {
    if a == [] {
      assert a + b == b;
    } else {
      assert (a + b)[1..] == a[1..] + b;
      TextOfConcat(a[1..], b);
    }
  }

  // ---------------------------------------------------------------- the patterns

  function Line(body: string): string {
    body + "\n"
  }

  const PREFIX_1 := "Work autonomously: inspect the" + " project with the available" + " tools, make the "
  const PREFIX_2 := "required edits in place, and" + " run relevant tests before" + " finishing. Every "
  const PREFIX_3 := "edit, command, and test must" + " be an actual tool call; never" + " put an intended "
  const PREFIX_4 := "command only in prose or a" + " Markdown code block, and" + " never merely describe "
  const PREFIX_5 := "a solution. Use targeted" + " searches and bounded file or" + " command output, do "
  const PREFIX_6 := "not reread unchanged content," + " make the smallest sufficient" + " edit, and stop "
  const PREFIX_7 := "after the narrowest relevant" + " verification succeeds."

  const AGENT_INSTRUCTION_PREFIX := PREFIX_1 + PREFIX_2 + PREFIX_3 + PREFIX_4 + PREFIX_5 + PREFIX_6 + PREFIX_7

  const ESCAPE := Line("        escaped_instruction =" + " shlex.quote(instruction)")
  const OPEN_INSTRUCTION := Line("        instruction = (")
  const QUOTED_PREFIX := Line("            '" + AGENT_INSTRUCTION_PREFIX + "'")
  const BLANK_LINE := Line("            + \"\\n\\n\"")
  const ADD_INSTRUCTION := Line("            + instruction")
  const CLOSE_INSTRUCTION := Line("        )")

  const API_KEY := Line("            \"ANTHROPIC_API_" + "KEY\": os.environ.get(" + "\"ANTHROPIC_API_KEY\")")
  const OR_AUTH_TOKEN := Line("            or os.environ.get(" + "\"ANTHROPIC_AUTH_TOKEN\")")
  const OR_EMPTY := Line("            or \"\",")
  const EMPTY_API_KEY := Line("            \"ANTHROPIC_API_" + "KEY\": \"\",")
  const AUTH_TOKEN := Line("            \"ANTHROPIC_AUTH_" + "TOKEN\": os.environ.get(" + "\"ANTHROPIC_AUTH_TOKEN\")")
  const OR_API_KEY := Line("            or os.environ.get(" + "\"ANTHROPIC_API_KEY\")")

  const DROP_EMPTY := Line("        env = {k: v for k, v" + " in env.items() if v}")
  const OPEN_ENV := Line("        env = {")
  const KEY_VALUE := Line("            k: v")
  const ENV_ITEMS := Line("            for k, v in env" + ".items()")
  const KEEP_KEY := Line("            if v or k ==" + " \"ANTHROPIC_API_KEY\"")
  const CLOSE_ENV := Line("        }")

  const PLAIN_INSTRUCTION := [ESCAPE]
  const AUTONOMOUS_INSTRUCTION :=
    [OPEN_INSTRUCTION, QUOTED_PREFIX, BLANK_LINE, ADD_INSTRUCTION, CLOSE_INSTRUCTION, ESCAPE]
  const API_KEY_AUTH := [API_KEY, OR_AUTH_TOKEN, OR_EMPTY]
  const OPENROUTER_AUTH := [EMPTY_API_KEY, AUTH_TOKEN, OR_API_KEY, OR_EMPTY]
  const DROP_EMPTY_ENV := [DROP_EMPTY]
  const KEEP_EMPTY_API_KEY := [OPEN_ENV, KEY_VALUE, ENV_ITEMS, KEEP_KEY, CLOSE_ENV]

  function AdapterPairs(): seq<Pair> {
    [Pair(Text(PLAIN_INSTRUCTION), Text(AUTONOMOUS_INSTRUCTION)),
     Pair(Text(API_KEY_AUTH), Text(OPENROUTER_AUTH)),
     Pair(Text(DROP_EMPTY_ENV), Text(KEEP_EMPTY_API_KEY))]
  }

  // ---------------------------------------------------------------- the patterns are made of lines

  /** The last three characters before the newline. */
  datatype Tail = Tail(a: char, b: char, c: char)

  ghost predicate LineEnding(line: string, tail: Tail) {
    IsLine(line) && |line| > 3
    && line[|line| - 4] == tail.a && line[|line| - 3] == tail.b && line[|line| - 2] == tail.c
  }

  lemma LiteralIsLine(body: string, tail: Tail)
    requires '\n' !in body && |body| >= 3
    requires body[|body| - 3] == tail.a && body[|body| - 2] == tail.b && body[|body| - 1] == tail.c
    ensures LineEnding(Line(body), tail)
  {
  }

  lemma EndingsDiffer(a: string, s: Tail, b: string, t: Tail)
    requires LineEnding(a, s) && LineEnding(b, t) && s != t
    ensures !EndsWith(a, b) && !EndsWith(b, a)
  {
    SuffixCharacters(a, b);
    SuffixCharacters(b, a);
  }

  lemma SuffixCharacters(line: string, tail: string)
    requires |line| > 3 && |tail| > 3
    ensures EndsWith(line, tail) ==>
              && line[|line| - 4] == tail[|tail| - 4] && line[|line| - 3] == tail[|tail| - 3]
              && line[|line| - 2] == tail[|tail| - 2]
  {
    if EndsWith(line, tail) {
      var end := line[|line| - |tail|..];
      assert end[|tail| - 4] == line[|line| - 4] && end[|tail| - 3] == line[|line| - 3] && end[|tail| - 2] == line[|line| - 2];
    }
  }

  lemma PlainInstructionLines()
    ensures LineEnding(ESCAPE, Tail('o', 'n', ')'))
    ensures LineEnding(OPEN_INSTRUCTION, Tail('=', ' ', '('))
    ensures LineEnding(QUOTED_PREFIX, Tail('s', '.', '\''))
  {
    LiteralIsLine("        escaped_instruction =" + " shlex.quote(instruction)", Tail('o', 'n', ')'));
    LiteralIsLine("        instruction = (", Tail('=', ' ', '('));
    PrefixHasNoNewline();
    QuotedIsLine(AGENT_INSTRUCTION_PREFIX);
  }

  lemma AutonomousInstructionLines()
    ensures LineEnding(BLANK_LINE, Tail('\\', 'n', '\"'))
    ensures LineEnding(ADD_INSTRUCTION, Tail('i', 'o', 'n'))
    ensures LineEnding(CLOSE_INSTRUCTION, Tail(' ', ' ', ')'))
  {
    LiteralIsLine("            + \"\\n\\n\"", Tail('\\', 'n', '\"'));
    LiteralIsLine("            + instruction", Tail('i', 'o', 'n'));
    LiteralIsLine("        )", Tail(' ', ' ', ')'));
  }

  lemma ApiKeyLines()
    ensures LineEnding(API_KEY, Tail('Y', '\"', ')'))
    ensures LineEnding(OR_AUTH_TOKEN, Tail('N', '\"', ')'))
    ensures LineEnding(OR_EMPTY, Tail('\"', '\"', ','))
  {
    LiteralIsLine("            \"ANTHROPIC_API_" + "KEY\": os.environ.get(" + "\"ANTHROPIC_API_KEY\")", Tail('Y', '\"', ')'));
    LiteralIsLine("            or os.environ.get(" + "\"ANTHROPIC_AUTH_TOKEN\")", Tail('N', '\"', ')'));
    LiteralIsLine("            or \"\",", Tail('\"', '\"', ','));
  }

  lemma OpenRouterLines()
    ensures LineEnding(EMPTY_API_KEY, Tail('\"', '\"', ','))
    ensures LineEnding(AUTH_TOKEN, Tail('N', '\"', ')'))
    ensures LineEnding(OR_API_KEY, Tail('Y', '\"', ')'))
  {
    LiteralIsLine("            \"ANTHROPIC_API_" + "KEY\": \"\",", Tail('\"', '\"', ','));
    LiteralIsLine("            \"ANTHROPIC_AUTH_" + "TOKEN\": os.environ.get(" + "\"ANTHROPIC_AUTH_TOKEN\")", Tail('N', '\"', ')'));
    LiteralIsLine("            or os.environ.get(" + "\"ANTHROPIC_API_KEY\")", Tail('Y', '\"', ')'));
  }

  lemma DropEmptyLines()
    ensures LineEnding(DROP_EMPTY, Tail(' ', 'v', '}'))
    ensures LineEnding(OPEN_ENV, Tail('=', ' ', '{'))
    ensures LineEnding(KEY_VALUE, Tail(':', ' ', 'v'))
  {
    LiteralIsLine("        env = {k: v for k, v" + " in env.items() if v}", Tail(' ', 'v', '}'));
    LiteralIsLine("        env = {", Tail('=', ' ', '{'));
    LiteralIsLine("            k: v", Tail(':', ' ', 'v'));
  }

  lemma KeepEmptyLines()
    ensures LineEnding(ENV_ITEMS, Tail('s', '(', ')'))
    ensures LineEnding(KEEP_KEY, Tail('E', 'Y', '\"'))
    ensures LineEnding(CLOSE_ENV, Tail(' ', ' ', '}'))
  {
    LiteralIsLine("            for k, v in env" + ".items()", Tail('s', '(', ')'));
    LiteralIsLine("            if v or k ==" + " \"ANTHROPIC_API_KEY\"", Tail('E', 'Y', '\"'));
    LiteralIsLine("        }", Tail(' ', ' ', '}'));
  }

  lemma PrefixStartHasNoNewline()
    ensures '\n' !in PREFIX_1 && '\n' !in PREFIX_2
  {
  }

  lemma PrefixMiddleHasNoNewline()
    ensures '\n' !in PREFIX_3 && '\n' !in PREFIX_4
  {
  }

  lemma PrefixEndHasNoNewline()
    ensures '\n' !in PREFIX_5 && '\n' !in PREFIX_6
  {
  }

  lemma PrefixCloseHasNoNewline()
    ensures '\n' !in PREFIX_7
  {
  }

  lemma NoNewlineInSeven(a: string, b: string, c: string, d: string, e: string, f: string, g: string)
    requires '\n' !in a && '\n' !in b && '\n' !in c && '\n' !in d && '\n' !in e && '\n' !in f && '\n' !in g
    ensures '\n' !in a + b + c + d + e + f + g
  {
  }

  lemma PrefixHasNoNewline()
    ensures '\n' !in AGENT_INSTRUCTION_PREFIX
  {
    PrefixStartHasNoNewline();
    PrefixMiddleHasNoNewline();
    PrefixEndHasNoNewline();
    PrefixCloseHasNoNewline();
    NoNewlineInSeven(PREFIX_1, PREFIX_2, PREFIX_3, PREFIX_4, PREFIX_5, PREFIX_6, PREFIX_7);
  }

  lemma QuotedIsLine(text: string)
    requires '\n' !in text && |text| >= 2 && text[|text| - 2] == 's' && text[|text| - 1] == '.'
    ensures LineEnding(Line("            '" + text + "'"), Tail('s', '.', '\''))
  {
    LiteralIsLine("            '" + text + "'", Tail('s', '.', '\''));
  }

  // ---------------------------------------------------------------- the pairs are compatible

  const ENDINGS := [
    Tail('o', 'n', ')'),
    Tail('=', ' ', '('),
    Tail('s', '.', '\''),
    Tail('\\', 'n', '\"'),
    Tail('i', 'o', 'n'),
    Tail(' ', ' ', ')'),
    Tail('Y', '\"', ')'),
    Tail('N', '\"', ')'),
    Tail('\"', '\"', ','),
    Tail('\"', '\"', ','),
    Tail('N', '\"', ')'),
    Tail('Y', '\"', ')'),
    Tail(' ', 'v', '}'),
    Tail('=', ' ', '{'),
    Tail(':', ' ', 'v'),
    Tail('s', '(', ')'),
    Tail('E', 'Y', '\"'),
    Tail(' ', ' ', '}')]

  /** Eighteen lines with the endings of the adapter lines, in the order of `AdapterLines`. */
  ghost predicate Shaped(l: seq<string>) {
    && |l| == 18 && (forall i | 0 <= i < 18 :: LineEnding(l[i], ENDINGS[i]))
    && |l[11]| < |l[6]| && |l[8]| < |l[9]|
  }

  ghost predicate Positions(at: seq<nat>) {
    at != [] && forall k | 0 <= k < |at| :: at[k] < 18
  }

  function Pick(l: seq<string>, at: seq<nat>): seq<string>
    requires |l| == 18 && Positions(at)
  {
    seq(|at|, k requires 0 <= k < |at| => l[at[k]])
  }

  function Side(l: seq<string>, at: seq<nat>): string
    requires |l| == 18 && Positions(at)
  {
    Text(Pick(l, at))
  }

  function Pairs(l: seq<string>): seq<Pair>
    requires |l| == 18
  {
    [Pair(Side(l, [0]), Side(l, [1, 2, 3, 4, 5, 0])),
     Pair(Side(l, [6, 7, 8]), Side(l, [9, 10, 11, 8])),
     Pair(Side(l, [12]), Side(l, [13, 14, 15, 16, 17]))]
  }

  ghost predicate Distinct(l: seq<string>, i: nat, j: nat)
    requires i < |l| && j < |l|
  {
    !EndsWith(l[i], l[j])
  }

  /** No other line ends with the first line of a pattern. */
  lemma FirstLinesAreDistinct(l: seq<string>)
    requires Shaped(l)
    ensures forall i, j | 0 <= i < 18 && j in {0, 1, 6, 9, 12, 13} && i != j :: Distinct(l, i, j)
  {
    forall i, j | 0 <= i < 18 && j in {0, 1, 6, 9, 12, 13} && i != j ensures Distinct(l, i, j) {
      assert LineEnding(l[i], ENDINGS[i]) && LineEnding(l[j], ENDINGS[j]);
      if ENDINGS[i] != ENDINGS[j] {
        EndingsDiffer(l[i], ENDINGS[i], l[j], ENDINGS[j]);
      } else {
        assert (i == 11 && j == 6) || (i == 8 && j == 9);
      }
    }
  }

  ghost predicate IsFirst(j: nat) {
    j in {0, 1, 6, 9, 12, 13}
  }

  lemma PickedLines(l: seq<string>, at: seq<nat>)
    requires Shaped(l) && Positions(at)
    ensures AreLines(Pick(l, at))
  {
    forall k | 0 <= k < |at| ensures IsLine(Pick(l, at)[k]) {
      assert LineEnding(l[at[k]], ENDINGS[at[k]]);
    }
  }

  lemma NoneEndsWith(l: seq<string>, at: seq<nat>, j: nat)
    requires Shaped(l) && Positions(at) && IsFirst(j) && j !in at
    ensures NoLineEndsWith(Pick(l, at), l[j])
  {
    FirstLinesAreDistinct(l);
    forall k | 0 <= k < |at| ensures !EndsWith(Pick(l, at)[k], l[j]) {
      assert Distinct(l, at[k], j);
    }
  }

  lemma SideIsSolid(l: seq<string>, at: seq<nat>)
    requires Shaped(l) && Positions(at) && IsFirst(at[0]) && at[0] !in at[1..]
    ensures Solid(Side(l, at))
  {
    PickedLines(l, at);
    if |at| > 1 {
      NoneEndsWith(l, at[1..], at[0]);
      assert Pick(l, at)[1..] == Pick(l, at[1..]);
    }
    SolidByLines(Pick(l, at));
  }

  lemma SidesApart(l: seq<string>, us: seq<nat>, ws: seq<nat>)
    requires Shaped(l) && Positions(us) && Positions(ws) && IsFirst(us[0]) && IsFirst(ws[0])
    requires us[0] !in ws && ws[0] !in us
    ensures Apart(Side(l, us), Side(l, ws))
  {
    PickedLines(l, us);
    PickedLines(l, ws);
    NoneEndsWith(l, us, ws[0]);
    NoneEndsWith(l, ws, us[0]);
    ApartByLines(Pick(l, us), Pick(l, ws));
  }

  /** A text always starts in itself, so two texts of which one never starts in the other differ. */
  lemma BothSidesDiffer(o: seq<string>, n: seq<string>)
    requires AreLines(o) && forall s: nat :: !Starts(Text(o), Text(n), s)
    ensures Text(o) != Text(n)
  {
    assert Text(o) == o[0] + Text(o[1..]);
    assert Starts(Text(o), Text(o), 0);
  }

  lemma ApartPairBehaves(l: seq<string>, os: seq<nat>, ns: seq<nat>)
    requires Shaped(l) && Positions(os) && Positions(ns) && IsFirst(os[0]) && IsFirst(ns[0])
    requires os[0] !in ns && ns[0] !in os && os[0] !in os[1..] && ns[0] !in ns[1..]
    ensures WellBehaved(Pair(Side(l, os), Side(l, ns)))
  {
    SideIsSolid(l, os);
    SideIsSolid(l, ns);
    SidesApart(l, os, ns);
    PickedLines(l, os);
    BothSidesDiffer(Pick(l, os), Pick(l, ns));
  }

  /** The instruction pair keeps its old line as the last line of the new text. */
  lemma InstructionPairBehaves(l: seq<string>)
    requires Shaped(l)
    ensures WellBehaved(Pair(Side(l, [0]), Side(l, [1, 2, 3, 4, 5, 0])))
  {
    var o, n := Pick(l, [0]), Pick(l, [1, 2, 3, 4, 5, 0]);
    SideIsSolid(l, [0]);
    SideIsSolid(l, [1, 2, 3, 4, 5, 0]);
    PickedLines(l, [0]);
    PickedLines(l, [1, 2, 3, 4, 5, 0]);
    NoneEndsWith(l, [0], 1);
    NeverInsideByLines(o, n);
    NoneEndsWith(l, [1, 2, 3, 4, 5], 0);
    assert n[..|n| - 1] == Pick(l, [1, 2, 3, 4, 5]);
    EmbeddedLastLine(n, l[0]);
    assert o == [l[0]];
    BothSidesDiffer(o, n);
  }

  lemma SidesUnrelated(l: seq<string>, o1: seq<nat>, n1: seq<nat>, o2: seq<nat>, n2: seq<nat>)
    requires Shaped(l) && Positions(o1) && Positions(n1) && Positions(o2) && Positions(n2)
    requires IsFirst(o1[0]) && IsFirst(n1[0]) && IsFirst(o2[0]) && IsFirst(n2[0])
    requires o1[0] !in o2 + n2 && n1[0] !in o2 + n2 && o2[0] !in o1 + n1 && n2[0] !in o1 + n1
    ensures Unrelated(Pair(Side(l, o1), Side(l, n1)), Pair(Side(l, o2), Side(l, n2)))
    ensures Unrelated(Pair(Side(l, o2), Side(l, n2)), Pair(Side(l, o1), Side(l, n1)))
  {
    SidesApart(l, o1, o2);
    SidesApart(l, o1, n2);
    SidesApart(l, n1, o2);
    SidesApart(l, n1, n2);
  }

  lemma InstructionUnrelated(l: seq<string>)
    requires Shaped(l)
    ensures Unrelated(Pairs(l)[0], Pairs(l)[1]) && Unrelated(Pairs(l)[1], Pairs(l)[0])
    ensures Unrelated(Pairs(l)[0], Pairs(l)[2]) && Unrelated(Pairs(l)[2], Pairs(l)[0])
  {
    SidesUnrelated(l, [0], [1, 2, 3, 4, 5, 0], [6, 7, 8], [9, 10, 11, 8]);
    SidesUnrelated(l, [0], [1, 2, 3, 4, 5, 0], [12], [13, 14, 15, 16, 17]);
  }

  lemma AuthUnrelated(l: seq<string>)
    requires Shaped(l)
    ensures Unrelated(Pairs(l)[1], Pairs(l)[2]) && Unrelated(Pairs(l)[2], Pairs(l)[1])
  {
    SidesUnrelated(l, [6, 7, 8], [9, 10, 11, 8], [12], [13, 14, 15, 16, 17]);
  }

  lemma PairsBehave(l: seq<string>)
    requires Shaped(l)
    ensures WellBehaved(Pairs(l)[0]) && WellBehaved(Pairs(l)[1]) && WellBehaved(Pairs(l)[2])
  {
    InstructionPairBehaves(l);
    ApartPairBehaves(l, [6, 7, 8], [9, 10, 11, 8]);
    ApartPairBehaves(l, [12], [13, 14, 15, 16, 17]);
  }

  lemma ThreeCompatible(p: Pair, q: Pair, r: Pair)
    requires WellBehaved(p) && WellBehaved(q) && WellBehaved(r)
    requires Unrelated(p, q) && Unrelated(q, p) && Unrelated(p, r) && Unrelated(r, p) && Unrelated(q, r) && Unrelated(r, q)
    ensures Compatible([p, q, r])
  {
  }

  lemma ShapedPairsAreCompatible(l: seq<string>)
    requires Shaped(l)
    ensures Compatible(Pairs(l))
  {
    PairsBehave(l);
    InstructionUnrelated(l);
    AuthUnrelated(l);
    var p, q, r := Pairs(l)[0], Pairs(l)[1], Pairs(l)[2];
    ThreeCompatible(p, q, r);
    assert Pairs(l) == [p, q, r];
  }

  function AdapterLines(): seq<string> {
    [ESCAPE, OPEN_INSTRUCTION, QUOTED_PREFIX, BLANK_LINE, ADD_INSTRUCTION, CLOSE_INSTRUCTION,
     API_KEY, OR_AUTH_TOKEN, OR_EMPTY, EMPTY_API_KEY, AUTH_TOKEN, OR_API_KEY,
     DROP_EMPTY, OPEN_ENV, KEY_VALUE, ENV_ITEMS, KEEP_KEY, CLOSE_ENV]
  }

  lemma AdapterLinesAreShaped()
    ensures Shaped(AdapterLines())
  {
    PlainInstructionLines();
    AutonomousInstructionLines();
    ApiKeyLines();
    OpenRouterLines();
    DropEmptyLines();
    KeepEmptyLines();
    LongerFirstLines();
  }

  lemma LongerFirstLines()
    ensures |OR_API_KEY| < |API_KEY| && |OR_EMPTY| < |EMPTY_API_KEY|
  {
  }

  lemma AdapterSides(l: seq<string>)
    requires |l| == 18
    ensures Side(l, [0]) == Text([l[0]])
    ensures Side(l, [1, 2, 3, 4, 5, 0]) == Text([l[1], l[2], l[3], l[4], l[5], l[0]])
    ensures Side(l, [6, 7, 8]) == Text([l[6], l[7], l[8]])
    ensures Side(l, [9, 10, 11, 8]) == Text([l[9], l[10], l[11], l[8]])
    ensures Side(l, [12]) == Text([l[12]])
    ensures Side(l, [13, 14, 15, 16, 17]) == Text([l[13], l[14], l[15], l[16], l[17]])
  {
    assert Pick(l, [0]) == [l[0]];
    assert Pick(l, [1, 2, 3, 4, 5, 0]) == [l[1], l[2], l[3], l[4], l[5], l[0]];
    assert Pick(l, [6, 7, 8]) == [l[6], l[7], l[8]];
    assert Pick(l, [9, 10, 11, 8]) == [l[9], l[10], l[11], l[8]];
    assert Pick(l, [12]) == [l[12]];
    assert Pick(l, [13, 14, 15, 16, 17]) == [l[13], l[14], l[15], l[16], l[17]];
  }

  lemma AdapterPairsAreCompatible()
    ensures Compatible(AdapterPairs())
  {
    var l := AdapterLines();
    AdapterLinesAreShaped();
    ShapedPairsAreCompatible(l);
    AdapterSides(l);
    assert AdapterPairs() == Pairs(l);
  }

  /**
   * The rewriter's contract on every source text: it succeeds exactly when
   * each of the three blocks is either still in its original form or already
   * replaced, and preparing a prepared text returns it unchanged.
   */
  lemma AdapterRewriteIsIdempotent(original: string)
    ensures NonEmpty(AdapterPairs())
    ensures var pairs := AdapterPairs();
            var r := Prepare(original, pairs);
            && (r.Ok? <==> forall i | 0 <= i < |pairs| :: Pending(original, pairs[i]) || Done(original, pairs[i]))
            && (r.Ok? ==> Prepare(r.value, pairs) == r && forall i | 0 <= i < |pairs| :: Done(r.value, pairs[i]))
  {
    AdapterPairsAreCompatible();
    PrepareCharacterised(original, AdapterPairs());
    if Prepare(original, AdapterPairs()).Ok? {
      PrepareIsIdempotent(original, AdapterPairs());
    }
  }

  method PrepareClaudeCodeSource(original: string) returns (r: Result<string, Mismatch>)
    ensures NonEmpty(AdapterPairs()) && r == Prepare(original, AdapterPairs())
    ensures r.Ok? ==> Prepare(r.value, AdapterPairs()) == r
  {
    AdapterRewriteIsIdempotent(original);
    r := PrepareSource(original, AdapterPairs());
  }
}
