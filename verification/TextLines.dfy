/** Python text operations used by the configuration rewriter: splitting into lines, joining, stripping,
    splitting into words, and substring search. */
module TextLines {

  predicate IsSpace(c: char) {
    var n := c as int;
    9 <= n <= 13 || 28 <= n <= 32 || n == 0x85 || n == 0xA0 || n == 0x1680 || 0x2000 <= n <= 0x200A
    || n == 0x2028 || n == 0x2029 || n == 0x202F || n == 0x205F || n == 0x3000
  }

  /** Line boundaries of `str.splitlines`; each of them is white space. */
  predicate IsBreak(c: char) {
    var n := c as int;
    10 <= n <= 13 || 28 <= n <= 30 || n == 0x85 || n == 0x2028 || n == 0x2029
  }

  /** The code points of Python's white space, and of its line boundaries. */
  lemma SpacesAre(c: char)
    ensures IsSpace(c) <==> c as int in {
      9, 10, 11, 12, 13, 28, 29, 30, 31, 32, 133, 160, 5760, 8192, 8193, 8194, 8195, 8196, 8197, 8198, 8199, 8200,
      8201, 8202, 8232, 8233, 8239, 8287, 12288}
    ensures IsBreak(c) <==> c as int in {10, 11, 12, 13, 28, 29, 30, 133, 8232, 8233}
    ensures IsBreak(c) ==> IsSpace(c)
  {
  }

  predicate AllSpace(s: string) {
    forall c :: c in s ==> IsSpace(c)
  }

  /** A line: text without a line boundary in it. */
  predicate IsLine(s: string) {
    forall c :: c in s ==> !IsBreak(c)
  }

  // ----- stripping -----

  function RStrip(s: string): string {
    if s != [] && IsSpace(s[|s| - 1]) then RStrip(s[..|s| - 1]) else s
  }

  function LStrip(s: string): string {
    if s != [] && IsSpace(s[0]) then LStrip(s[1..]) else s
  }

  /** Stripping keeps a prefix that does not end in white space and drops white space only. */
  lemma {:induction false} RStripPrefix(s: string)
    ensures |RStrip(s)| <= |s| && RStrip(s) == s[..|RStrip(s)|]
    ensures forall i :: |RStrip(s)| <= i < |s| ==> IsSpace(s[i])
    ensures RStrip(s) != [] ==> !IsSpace(RStrip(s)[|RStrip(s)| - 1])
  {
    if s != [] && IsSpace(s[|s| - 1]) {
      var front := s[..|s| - 1];
      RStripPrefix(front);
      assert s[..|RStrip(front)|] == front[..|RStrip(front)|];
    }
  }

  lemma RStripSplit(s: string)
    ensures |RStrip(s)| <= |s| && s == RStrip(s) + s[|RStrip(s)|..] && AllSpace(s[|RStrip(s)|..])
    ensures RStrip(s) != [] ==> !IsSpace(RStrip(s)[|RStrip(s)| - 1])
  {
    RStripPrefix(s);
    var k := |RStrip(s)|;
    forall c | c in s[k..]
      ensures IsSpace(c)
    {
      var i :| 0 <= i < |s[k..]| && s[k..][i] == c;
      assert s[k + i] == c;
    }
    assert s == s[..k] + s[k..];
  }

  lemma {:induction false} RStripOfSpace(a: string, w: string)
    requires AllSpace(w)
    ensures RStrip(a + w) == RStrip(a)
  {
    if w == [] {
      assert a + w == a;
    } else {
      assert (a + w)[..|a + w| - 1] == a + w[..|w| - 1];
      RStripOfSpace(a, w[..|w| - 1]);
    }
  }

  /** A text that does not end in white space is its own strip. */
  lemma RStripOfSolid(s: string)
    requires s != [] && !IsSpace(s[|s| - 1])
    ensures RStrip(s) == s
  {
  }

  lemma RStripTwice(s: string)
    ensures RStrip(RStrip(s)) == RStrip(s)
  {
    RStripSplit(s);
  }

  lemma RStripOfJoined(a: string, b: string)
    requires RStrip(b) != []
    ensures RStrip(a + b) == a + RStrip(b)
  {
    RStripSplit(b);
    var solid, rest := RStrip(b), b[|RStrip(b)|..];
    assert a + b == (a + solid) + rest;
    RStripOfSpace(a + solid, rest);
    RStripOfSolid(a + solid);
  }

  // ----- joining and splitting -----

  /** Index of the first line boundary, or the length. */
  function FirstBreak(s: string): (k: nat)
    ensures k <= |s| && IsLine(s[..k]) && (k < |s| ==> IsBreak(s[k]))
  {
    if s == [] || IsBreak(s[0]) then 0
    else
      var k := 1 + FirstBreak(s[1..]);
      assert s[..k] == [s[0]] + s[1..][..k - 1];
      k
  }

  /** A carriage return and the line feed after it are one boundary. */
  function BreakLength(s: string, k: nat): nat
    requires k < |s|
  {
    if s[k] == '\r' && k + 1 < |s| && s[k + 1] == '\n' then 2 else 1
  }

  function SplitLines(s: string): seq<string>
    decreases |s|
  {
    if s == [] then []
    else
      var k := FirstBreak(s);
      if k == |s| then [s] else [s[..k]] + SplitLines(s[k + BreakLength(s, k)..])
  }

  ghost predicate AllLines(lines: seq<string>) {
    forall i :: 0 <= i < |lines| ==> IsLine(lines[i])
  }

  lemma {:induction false} SplitGivesLines(s: string)
    ensures AllLines(SplitLines(s))
    decreases |s|
  {
    if s != [] {
      var k := FirstBreak(s);
      if k < |s| {
        SplitGivesLines(s[k + BreakLength(s, k)..]);
      } else {
        assert s[..k] == s;
      }
    }
  }

  function Join(lines: seq<string>): string {
    if |lines| == 0 then ""
    else if |lines| == 1 then lines[0]
    else lines[0] + "\n" + Join(lines[1..])
  }

  lemma {:induction false} JoinLast(front: seq<string>, last: string)
    requires front != []
    ensures Join(front + [last]) == Join(front) + "\n" + last
  {
    var all := front + [last];
    if |front| == 1 {
      assert all[1..] == [last];
    } else {
      assert all[1..] == front[1..] + [last];
      JoinLast(front[1..], last);
      assert Join(all) == front[0] + "\n" + (Join(front[1..]) + "\n" + last);
    }
  }

  lemma {:induction false} FirstBreakAt(line: string, rest: string)
    requires IsLine(line)
    ensures FirstBreak(line + "\n" + rest) == |line|
  {
    var s := line + "\n" + rest;
    if line != [] {
      assert s[1..] == line[1..] + "\n" + rest;
      FirstBreakAt(line[1..], rest);
      assert s[0] == line[0] && line[0] in line;
    }
  }

  lemma SplitStep(line: string, rest: string)
    requires IsLine(line)
    ensures SplitLines(line + "\n" + rest) == [line] + SplitLines(rest)
  {
    var s := line + "\n" + rest;
    FirstBreakAt(line, rest);
    assert s[|line|] == '\n' && s[..|line|] == line && s[|line| + 1..] == rest;
  }

  lemma JoinStep(lines: seq<string>)
    requires |lines| > 1
    ensures Join(lines) + "\n" == lines[0] + "\n" + (Join(lines[1..]) + "\n")
  {
  }

  /** Splitting undoes joining with line feeds, each line ended. */
  lemma {:induction false} SplitOfJoin(lines: seq<string>)
    requires lines != [] && AllLines(lines)
    ensures SplitLines(Join(lines) + "\n") == lines
  {
    assert SplitLines("") == [];
    assert |lines| == 1 ==> Join(lines) == lines[0];
    hide SplitLines, Join;
    if |lines| == 1 {
      assert Join(lines) + "\n" == lines[0] + "\n" + "";
      SplitStep(lines[0], "");
      assert lines == [lines[0]];
    } else {
      var rest := Join(lines[1..]) + "\n";
      JoinStep(lines);
      SplitStep(lines[0], rest);
      SplitOfJoin(lines[1..]);
      assert lines == [lines[0]] + lines[1..];
    }
  }

  // ----- the text the rewriter writes back -----

  function Output(lines: seq<string>): string {
    RStrip(Join(lines)) + "\n"
  }

  /** Trailing blank lines dropped, and the white space that ends the last line that is left. */
  function Trim(lines: seq<string>): (r: seq<string>)
    ensures r != []
  {
    if lines == [] then [""]
    else
      var front, last := lines[..|lines| - 1], lines[|lines| - 1];
      if RStrip(last) == [] then Trim(front) else front + [RStrip(last)]
  }

  lemma {:induction false} TrimGivesLines(lines: seq<string>)
    requires AllLines(lines)
    ensures AllLines(Trim(lines))
  {
    if lines != [] {
      var last := lines[|lines| - 1];
      if RStrip(last) == [] {
        TrimGivesLines(lines[..|lines| - 1]);
      } else {
        RStripSplit(last);
        assert forall c :: c in RStrip(last) ==> c in last;
      }
    }
  }

  lemma RStripOfBlankLine(a: string, last: string)
    requires AllSpace(last)
    ensures RStrip(a + "\n" + last) == RStrip(a)
  {
    assert a + "\n" + last == a + ("\n" + last);
    RStripOfSpace(a, "\n" + last);
  }

  lemma BlankIsSpace(s: string)
    requires RStrip(s) == []
    ensures AllSpace(s)
  {
    RStripPrefix(s);
  }

  lemma JoinBlankLast(front: seq<string>, last: string)
    requires RStrip(last) == []
    ensures RStrip(Join(front + [last])) == RStrip(Join(front))
  {
    if front == [] {
      assert front + [last] == [last];
    } else {
      JoinLast(front, last);
      BlankIsSpace(last);
      RStripOfBlankLine(Join(front), last);
    }
  }

  lemma JoinSolidLast(front: seq<string>, last: string)
    requires RStrip(last) != []
    ensures RStrip(Join(front + [last])) == Join(front + [RStrip(last)])
  {
    if front == [] {
      assert front + [last] == [last] && front + [RStrip(last)] == [RStrip(last)];
    } else {
      JoinLast(front, last);
      JoinLast(front, RStrip(last));
      RStripOfJoined(Join(front) + "\n", last);
    }
  }

  lemma {:induction false} JoinOfTrim(lines: seq<string>)
    ensures Join(Trim(lines)) == RStrip(Join(lines))
  {
    if lines != [] {
      var front, last := lines[..|lines| - 1], lines[|lines| - 1];
      assert lines == front + [last];
      if RStrip(last) == [] {
        JoinOfTrim(front);
        JoinBlankLast(front, last);
      } else {
        JoinSolidLast(front, last);
      }
    }
  }

  /** What reading the written text back gives. */
  lemma SplitOfOutput(lines: seq<string>)
    requires AllLines(lines)
    ensures SplitLines(Output(lines)) == Trim(lines)
  {
    JoinOfTrim(lines);
    TrimGivesLines(lines);
    SplitOfJoin(Trim(lines));
  }

  lemma SameTrimSameOutput(a: seq<string>, b: seq<string>)
    requires Trim(a) == Trim(b)
    ensures Output(a) == Output(b)
  {
    JoinOfTrim(a);
    JoinOfTrim(b);
  }

  // ----- words -----

  function WordLength(s: string): (k: nat)
    ensures k <= |s|
  {
    if s == [] || IsSpace(s[0]) then 0 else 1 + WordLength(s[1..])
  }

  /** The white-space separated words. */
  function Words(s: string): seq<string>
    decreases |s|
  {
    if s == [] then []
    else if IsSpace(s[0]) then Words(s[1..])
    else [s[..WordLength(s)]] + Words(s[WordLength(s)..])
  }

  lemma {:induction false} WordsOfSpace(w: string)
    requires AllSpace(w)
    ensures Words(w) == []
  {
    if w != [] {
      assert w[0] in w;
      WordsOfSpace(w[1..]);
    }
  }

  lemma {:induction false} WordLengthBefore(s: string, w: string)
    requires AllSpace(w)
    ensures WordLength(s + w) == WordLength(s)
  {
    if s == [] {
      assert s + w == w;
      assert w != [] ==> w[0] in w;
    } else {
      assert (s + w)[1..] == s[1..] + w && (s + w)[0] == s[0];
      WordLengthBefore(s[1..], w);
    }
  }

  /** White space at the end adds no word. */
  lemma {:induction false} WordsIgnoreTrailingSpace(s: string, w: string)
    requires AllSpace(w)
    ensures Words(s + w) == Words(s)
    decreases |s|
  {
    if s == [] {
      assert s + w == w;
      WordsOfSpace(w);
    } else if IsSpace(s[0]) {
      assert (s + w)[1..] == s[1..] + w && (s + w)[0] == s[0];
      WordsIgnoreTrailingSpace(s[1..], w);
    } else {
      WordLengthBefore(s, w);
      var k := WordLength(s);
      assert (s + w)[0] == s[0] && (s + w)[..k] == s[..k] && (s + w)[k..] == s[k..] + w;
      WordsIgnoreTrailingSpace(s[k..], w);
    }
  }

  function JoinWords(words: seq<string>): string {
    if |words| == 0 then ""
    else if |words| == 1 then words[0]
    else words[0] + " " + JoinWords(words[1..])
  }

  // ----- substrings -----

  predicate OccursAt(s: string, p: string, i: nat) {
    i + |p| <= |s| && s[i..i + |p|] == p
  }

  predicate Contains(s: string, p: string) {
    exists i :: 0 <= i <= |s| && OccursAt(s, p, i)
  }

  lemma ContainsInPart(s: string, p: string, from: nat, to: nat)
    requires from <= to <= |s| && Contains(s[from..to], p)
    ensures Contains(s, p)
  {
    var part := s[from..to];
    var i :| 0 <= i <= |part| && OccursAt(part, p, i);
    SameText(part, i, s, from + i, p);
  }

  /** An occurrence is an occurrence wherever the same characters stand. */
  lemma SameText(s: string, i: nat, t: string, j: nat, p: string)
    requires OccursAt(s, p, i) && j + |p| <= |t|
    requires forall m :: i <= m < i + |p| ==> s[m] == t[m - i + j]
    ensures Contains(t, p)
  {
    forall k | 0 <= k < |p|
      ensures t[j..j + |p|][k] == p[k]
    {
      assert s[i..i + |p|][k] == s[i + k];
    }
    assert t[j..j + |p|] == p;
    assert OccursAt(t, p, j);
  }

  lemma ContainsInFront(s: string, p: string, k: nat)
    requires k <= |s| && Contains(s[..k], p)
    ensures Contains(s, p)
  {
    assert s[..k] == s[0..k];
    ContainsInPart(s, p, 0, k);
  }

  lemma ContainsInRest(s: string, p: string, n: nat)
    requires n <= |s| && Contains(s[n..], p)
    ensures Contains(s, p)
  {
    assert s[n..] == s[n..|s|];
    ContainsInPart(s, p, n, |s|);
  }

  lemma Covers(s: string, p: string, i: nat, j: nat)
    requires OccursAt(s, p, i) && i <= j < i + |p|
    ensures s[j] in p
  {
    assert s[i..i + |p|][j - i] == s[j];
  }

  /** A pattern without the character `c` cannot reach across one. */
  lemma ContainsAcross(a: string, c: char, b: string, p: string)
    requires c !in p && Contains(a + [c] + b, p) && p != []
    ensures Contains(a, p) || Contains(b, p)
  {
    var s := a + [c] + b;
    var i :| 0 <= i <= |s| && OccursAt(s, p, i);
    if i + |p| <= |a| {
      SameText(s, i, a, i, p);
    } else if i > |a| {
      SameText(s, i, b, i - |a| - 1, p);
    } else {
      Covers(s, p, i, |a|);
    }
  }

  lemma {:induction false} ContainsBeforeSpace(a: string, w: string, p: string)
    requires AllSpace(w) && (forall c :: c in p ==> !IsSpace(c)) && p != [] && Contains(a + w, p)
    ensures Contains(a, p)
    decreases |w|
  {
    if w == [] {
      assert a + w == a;
    } else {
      var front, c := w[..|w| - 1], w[|w| - 1];
      assert a + w == (a + front) + [c] + [];
      ContainsAcross(a + front, c, [], p);
      if !Contains([], p) {
        ContainsBeforeSpace(a, front, p);
      }
    }
  }

  lemma NeedsFirst(s: string, p: string)
    requires p != [] && Contains(s, p)
    ensures p[0] in s
  {
    var i :| 0 <= i <= |s| && OccursAt(s, p, i);
    assert s[i..i + |p|][0] == s[i];
  }

  lemma {:induction false} WordsArePart(s: string, p: string, k: nat)
    requires k < |Words(s)| && Contains(Words(s)[k], p)
    ensures Contains(s, p)
    decreases |s|
  {
    if IsSpace(s[0]) {
      WordsArePart(s[1..], p, k);
      ContainsInRest(s, p, 1);
    } else {
      var n := WordLength(s);
      if k == 0 {
        ContainsInFront(s, p, n);
      } else {
        WordsArePart(s[n..], p, k - 1);
        ContainsInRest(s, p, n);
      }
    }
  }

  lemma SplitHead(s: string) returns (k: nat, n: nat)
    requires s != []
    ensures k <= n <= |s| && n > 0 && SplitLines(s) == [s[..k]] + SplitLines(s[n..])
  {
    k := FirstBreak(s);
    n := if k == |s| then k else k + BreakLength(s, k);
    assert s[..|s|] == s && s[|s|..] == [];
  }

  lemma {:induction false} LinesArePart(s: string, p: string, i: nat)
    requires i < |SplitLines(s)| && Contains(SplitLines(s)[i], p)
    ensures Contains(s, p)
    decreases |s|
  {
    assert s != [];
    hide SplitLines, Contains;
    var k, n := SplitHead(s);
    if i == 0 {
      ContainsInFront(s, p, k);
    } else {
      var rest := SplitLines(s[n..]);
      assert SplitLines(s)[i] == rest[i - 1];
      LinesArePart(s[n..], p, i - 1);
      ContainsInRest(s, p, n);
    }
  }

  // ----- what splitting does -----

  /** Splitting by its laws: no text gives no line, text without a boundary is one line, and a line ends at its first
      boundary, where a carriage return takes a line feed after it along. */
  lemma SplitLaws(line: string, b: char, rest: string)
    requires IsLine(line) && IsBreak(b)
    ensures SplitLines(line) == if line == "" then [] else [line]
    ensures !(b == '\r' && "\n" <= rest) ==> SplitLines(line + [b] + rest) == [line] + SplitLines(rest)
    ensures SplitLines(line + "\r\n" + rest) == [line] + SplitLines(rest)
  {
    FirstBreakIs(line, "");
    assert line + "" == line;
    if !(b == '\r' && "\n" <= rest) {
      assert rest != "" ==> ([b] + rest)[1] == rest[0];
      assert "\n" <= rest <==> rest != "" && rest[0] == '\n';
      SplitAt(line, [b], rest);
    }
    SplitAt(line, "\r\n", rest);
  }

  lemma {:induction false} FirstBreakIs(line: string, tail: string)
    requires IsLine(line) && (tail != "" ==> IsBreak(tail[0]))
    ensures FirstBreak(line + tail) == |line|
  {
    if line == [] {
      assert line + tail == tail;
    } else {
      assert (line + tail)[0] == line[0] && (line + tail)[1..] == line[1..] + tail && line[0] in line;
      FirstBreakIs(line[1..], tail);
    }
  }

  lemma SplitAt(line: string, b: string, rest: string)
    requires IsLine(line) && b != "" && IsBreak(b[0]) && |b| == BreakLength(b + rest, 0)
    ensures SplitLines(line + b + rest) == [line] + SplitLines(rest)
  {
    var s := line + b + rest;
    FirstBreakIs(line, b + rest);
    assert s == line + (b + rest);
    assert forall i :: 0 <= i < |b + rest| ==> s[|line| + i] == (b + rest)[i];
    assert BreakLength(s, |line|) == |b|;
    assert s[..|line|] == line && s[|line| + |b|..] == rest;
  }
}
