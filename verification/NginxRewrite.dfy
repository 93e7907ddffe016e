/** The rewrite of a whole nginx configuration and its inverse. */
module NginxRewrite {
  import opened NginxListeners
  import opened TextLines
  import opened Wrappers

  /** The two ports of a rewrite: the one nginx gives up and the one it moves to. */
  datatype Ports = Ports(open: nat, inner: nat)

  function PatchLines(codec: Codec, lines: seq<string>, ports: Ports): (r: seq<string>)
    ensures |r| == |lines|
    ensures forall i :: 0 <= i < |lines| ==> r[i] == PatchLine(codec, lines[i], ports.open, ports.inner)
  {
    if lines == [] then []
    else
      PatchLines(codec, lines[..|lines| - 1], ports) + [PatchLine(codec, lines[|lines| - 1], ports.open, ports.inner)]
  }

  function PatchText(codec: Codec, content: string, ports: Ports): string {
    Output(PatchLines(codec, SplitLines(content), ports))
  }

  function Listeners(lines: seq<string>, publicPort: nat): (r: set<nat>)
    ensures forall i :: i in r <==> 0 <= i < |lines| && IsTcpListen(lines[i], publicPort)
  {
    set i: nat | i < |lines| && IsTcpListen(lines[i], publicPort)
  }

  /** Some public listener is of the given address family. */
  ghost predicate SomeListener(lines: seq<string>, publicPort: nat, ipv6: bool) {
    exists i :: i in Listeners(lines, publicPort) && IsIpv6(lines[i]) == ipv6
  }

  function RestoreLines(codec: Codec, lines: seq<string>): Option<seq<string>> {
    if lines == [] then Some([])
    else
      match RestoreLines(codec, lines[..|lines| - 1])
      case None => None
      case Some(front) =>
        match RestoreLine(codec, lines[|lines| - 1])
        case None => None
        case Some(last) => Some(front + [last])
  }

  function RestoreText(codec: Codec, content: string): Option<string> {
    match RestoreLines(codec, SplitLines(content))
    case None => None
    case Some(lines) => Some(Output(lines))
  }

  /** What either rewrite does to a text without touching any line. */
  function Normalised(content: string): string {
    Output(SplitLines(content))
  }

  // ----- the loops -----

  lemma PatchPush(codec: Codec, front: seq<string>, last: string, ports: Ports)
    ensures PatchLines(codec, front + [last], ports) ==
      PatchLines(codec, front, ports) + [PatchLine(codec, last, ports.open, ports.inner)]
  {
    assert (front + [last])[..|front|] == front;
  }

  lemma ListenersPrefix(lines: seq<string>, publicPort: nat, i: nat)
    requires i < |lines|
    ensures Listeners(lines[..i + 1], publicPort) ==
      Listeners(lines[..i], publicPort) + if IsTcpListen(lines[i], publicPort) then {i} else {}
  {
    forall k
      ensures k in Listeners(lines[..i + 1], publicPort) <==>
        k in Listeners(lines[..i], publicPort) || (k == i && IsTcpListen(lines[i], publicPort))
    {
    }
  }

  lemma ReportPrefix(lines: seq<string>, publicPort: nat, i: nat, ipv6: bool)
    requires i < |lines|
    ensures |Listeners(lines[..i + 1], publicPort)| ==
      |Listeners(lines[..i], publicPort)| + if IsTcpListen(lines[i], publicPort) then 1 else 0
    ensures SomeListener(lines[..i + 1], publicPort, ipv6) <==>
      SomeListener(lines[..i], publicPort, ipv6) || (IsTcpListen(lines[i], publicPort) && IsIpv6(lines[i]) == ipv6)
  {
    ListenersPrefix(lines, publicPort, i);
    var before, after := Listeners(lines[..i], publicPort), Listeners(lines[..i + 1], publicPort);
    assert i !in before;
    forall k | k in before
      ensures k in after && lines[..i + 1][k] == lines[..i][k]
    {
    }
    assert i in after <==> IsTcpListen(lines[i], publicPort);
  }

  /** What the loop has counted after some lines. */
  ghost predicate Reports(lines: seq<string>, publicPort: nat, changed: nat, hasIpv4: bool, hasIpv6: bool) {
    && changed == |Listeners(lines, publicPort)|
    && (hasIpv4 <==> SomeListener(lines, publicPort, false))
    && (hasIpv6 <==> SomeListener(lines, publicPort, true))
  }

  lemma ReportsNext(lines: seq<string>, publicPort: nat, i: nat, changed: nat, hasIpv4: bool, hasIpv6: bool)
    requires i < |lines| && Reports(lines[..i], publicPort, changed, hasIpv4, hasIpv6)
    ensures
      if IsTcpListen(lines[i], publicPort) then
        Reports(lines[..i + 1], publicPort, changed + 1, hasIpv4 || !IsIpv6(lines[i]), hasIpv6 || IsIpv6(lines[i]))
      else Reports(lines[..i + 1], publicPort, changed, hasIpv4, hasIpv6)
  {
    ReportPrefix(lines, publicPort, i, false);
    ReportPrefix(lines, publicPort, i, true);
  }

  lemma ReportsNothing(publicPort: nat)
    ensures Reports([], publicPort, 0, false, false)
  {
  }

  method PatchNginxListeners(codec: Codec, content: string, publicPort: nat, internalPort: nat)
      returns (text: string, changed: nat, hasIpv4: bool, hasIpv6: bool)
    ensures text == PatchText(codec, content, Ports(publicPort, internalPort))
    ensures Reports(SplitLines(content), publicPort, changed, hasIpv4, hasIpv6)
  {
    var lines, ports := SplitLines(content), Ports(publicPort, internalPort);
    var output: seq<string> := [];
    changed, hasIpv4, hasIpv6 := 0, false, false;
    ReportsNothing(publicPort);
    for i := 0 to |lines|
      invariant output == PatchLines(codec, lines[..i], ports)
      invariant Reports(lines[..i], publicPort, changed, hasIpv4, hasIpv6)
    {
      assert lines[..i + 1] == lines[..i] + [lines[i]];
      PatchPush(codec, lines[..i], lines[i], ports);
      ReportsNext(lines, publicPort, i, changed, hasIpv4, hasIpv6);
      output := output + [PatchLine(codec, lines[i], publicPort, internalPort)];
      if IsTcpListen(lines[i], publicPort) {
        changed := changed + 1;
        hasIpv4 := hasIpv4 || !IsIpv6(lines[i]);
        hasIpv6 := hasIpv6 || IsIpv6(lines[i]);
      }
    }
    assert lines[..|lines|] == lines;
    text := Output(output);
  }

  lemma RestorePush(codec: Codec, front: seq<string>, last: string)
    requires RestoreLines(codec, front).Some?
    ensures RestoreLines(codec, front + [last]) ==
      match RestoreLine(codec, last)
      case None => None
      case Some(line) => Some(RestoreLines(codec, front).value + [line])
  {
    assert (front + [last])[..|front|] == front;
  }

  lemma {:induction false} RestoreFailsFrom(codec: Codec, lines: seq<string>, i: nat)
    requires i <= |lines| && RestoreLines(codec, lines[..i]) == None
    ensures RestoreLines(codec, lines) == None
    decreases |lines| - i
  {
    if i == |lines| {
      assert lines[..i] == lines;
    } else {
      assert lines[..i + 1][..i] == lines[..i];
      RestoreFailsFrom(codec, lines, i + 1);
    }
  }

  method RestoreNginxListeners(codec: Codec, content: string) returns (text: Option<string>)
    ensures text == RestoreText(codec, content)
  {
    var lines := SplitLines(content);
    var output: seq<string> := [];
    for i := 0 to |lines|
      invariant RestoreLines(codec, lines[..i]) == Some(output)
    {
      assert lines[..i + 1] == lines[..i] + [lines[i]];
      RestorePush(codec, lines[..i], lines[i]);
      var line := RestoreLine(codec, lines[i]);
      if line.None? {
        RestoreFailsFrom(codec, lines, i + 1);
        return None;
      }
      output := output + [line.value];
    }
    assert lines[..|lines|] == lines;
    text := Some(Output(output));
  }

  // ----- patching twice -----

  lemma {:induction false} NothingToPatch(codec: Codec, lines: seq<string>, ports: Ports)
    requires forall i :: 0 <= i < |lines| ==> !IsTcpListen(lines[i], ports.open)
    ensures PatchLines(codec, lines, ports) == lines
  {
  }

  lemma {:induction false} TrimTwice(lines: seq<string>)
    ensures Trim(Trim(lines)) == Trim(lines)
  {
    if lines == [] {
      assert [""][..0] == [];
    } else {
      var front, last := lines[..|lines| - 1], lines[|lines| - 1];
      if RStrip(last) == [] {
        TrimTwice(front);
      } else {
        RStripTwice(last);
        assert (front + [RStrip(last)])[..|front|] == front;
      }
    }
  }

  /** Every line the trimmed text has is empty, or a line of the text, or one with its end stripped. */
  lemma {:induction false} TrimmedLine(lines: seq<string>, j: nat)
    requires j < |Trim(lines)|
    ensures Trim(lines)[j] == "" || exists i :: 0 <= i < |lines| && (Trim(lines)[j] == lines[i] || Trim(lines)[j] == RStrip(lines[i]))
  {
    if lines != [] {
      var front, last := lines[..|lines| - 1], lines[|lines| - 1];
      if RStrip(last) == [] {
        TrimmedLine(front, j);
        if Trim(lines)[j] != "" {
          var i :| 0 <= i < |front| && (Trim(front)[j] == front[i] || Trim(front)[j] == RStrip(front[i]));
          assert lines[i] == front[i];
        }
      } else if j < |front| {
        assert Trim(lines)[j] == lines[j];
      } else {
        assert Trim(lines)[j] == RStrip(lines[|front|]);
      }
    }
  }

  lemma PatchedIsNoListener(codec: Codec, line: string, ports: Ports)
    requires Faithful(codec)
    ensures
      var patched := PatchLine(codec, line, ports.open, ports.inner);
      !IsTcpListen(patched, ports.open) && !IsTcpListen(RStrip(patched), ports.open)
  {
    if IsTcpListen(line, ports.open) {
      PatchedLine(codec, line, ports.open, ports.inner);
    }
    var patched := PatchLine(codec, line, ports.open, ports.inner);
    if IsTcpListen(RStrip(patched), ports.open) {
      StrippedListener(patched, ports.open);
    }
  }

  lemma PatchedAreLines(codec: Codec, content: string, ports: Ports)
    requires Faithful(codec)
    ensures AllLines(PatchLines(codec, SplitLines(content), ports))
  {
    SplitGivesLines(content);
    var lines := SplitLines(content);
    forall i | 0 <= i < |lines|
      ensures IsLine(PatchLines(codec, lines, ports)[i])
    {
      PatchedIsLine(codec, lines[i], ports.open, ports.inner);
    }
  }

  lemma NoListenerAt(codec: Codec, lines: seq<string>, ports: Ports, patched: seq<string>, j: nat)
    requires Faithful(codec) && patched == PatchLines(codec, lines, ports) && j < |Trim(patched)|
    ensures !IsTcpListen(Trim(patched)[j], ports.open)
  {
    TrimmedLine(patched, j);
    if Trim(patched)[j] != "" {
      var i :| 0 <= i < |patched| && (Trim(patched)[j] == patched[i] || Trim(patched)[j] == RStrip(patched[i]));
      PatchedIsNoListener(codec, lines[i], ports);
    }
  }

  lemma NoListenerLeft(codec: Codec, content: string, ports: Ports)
    requires Faithful(codec)
    ensures
      var again := SplitLines(PatchText(codec, content, ports));
      forall j :: 0 <= j < |again| ==> !IsTcpListen(again[j], ports.open)
  {
    var lines := SplitLines(content);
    var patched := PatchLines(codec, lines, ports);
    PatchedAreLines(codec, content, ports);
    SplitOfOutput(patched);
    forall j | 0 <= j < |Trim(patched)|
      ensures !IsTcpListen(Trim(patched)[j], ports.open)
    {
      NoListenerAt(codec, lines, ports, patched, j);
    }
  }

  /** Patching a patched text changes nothing and reports no change, for every text. */
  lemma PatchIsIdempotent(codec: Codec, content: string, ports: Ports)
    requires Faithful(codec)
    ensures PatchText(codec, PatchText(codec, content, ports), ports) == PatchText(codec, content, ports)
    ensures |Listeners(SplitLines(PatchText(codec, content, ports)), ports.open)| == 0
  {
    var patched := PatchLines(codec, SplitLines(content), ports);
    var again := SplitLines(PatchText(codec, content, ports));
    NoListenerLeft(codec, content, ports);
    PatchedAreLines(codec, content, ports);
    SplitOfOutput(patched);
    NothingToPatch(codec, again, ports);
    TrimTwice(patched);
    SameTrimSameOutput(again, patched);
    assert Listeners(again, ports.open) == {};
  }

  // ----- patching and restoring -----

  lemma RestoresLine(codec: Codec, line: string, ports: Ports)
    requires Faithful(codec) && !Contains(line, MARKER)
    ensures
      var patched := PatchLine(codec, line, ports.open, ports.inner);
      RestoreLine(codec, patched) == Some(line) && (RStrip(patched) == [] <==> RStrip(line) == [])
  {
    if IsTcpListen(line, ports.open) {
      PatchedLine(codec, line, ports.open, ports.inner);
      ListenIsNotBlank(line, ports.open);
    } else {
      NothingToFind(line, 0);
    }
  }

  lemma RestoresStripped(codec: Codec, line: string, ports: Ports) returns (back: string)
    requires Faithful(codec) && !Contains(line, MARKER)
    ensures RestoreLine(codec, RStrip(PatchLine(codec, line, ports.open, ports.inner))) == Some(back)
    ensures RStrip(back) == RStrip(line)
  {
    if IsTcpListen(line, ports.open) {
      PatchedLine(codec, line, ports.open, ports.inner);
      back := line;
    } else {
      back := RStrip(line);
      RStripSplit(line);
      RStripTwice(line);
      assert back == line[0..|back|];
      if Contains(back, MARKER) {
        ContainsInPart(line, MARKER, 0, |back|);
      }
      NothingToFind(back, 0);
    }
  }

  ghost predicate Unmarked(lines: seq<string>) {
    forall i :: 0 <= i < |lines| ==> !Contains(lines[i], MARKER)
  }

  lemma TrimPush(front: seq<string>, last: string)
    ensures Trim(front + [last]) == if RStrip(last) == [] then Trim(front) else front + [RStrip(last)]
  {
    assert (front + [last])[..|front|] == front;
  }

  lemma {:induction false} RestoresLines(codec: Codec, lines: seq<string>, ports: Ports)
    requires Faithful(codec) && Unmarked(lines)
    ensures RestoreLines(codec, PatchLines(codec, lines, ports)) == Some(lines)
  {
    if lines != [] {
      var front, last := lines[..|lines| - 1], lines[|lines| - 1];
      assert lines == front + [last];
      RestoresLines(codec, front, ports);
      RestoresLine(codec, last, ports);
      PatchPush(codec, front, last, ports);
      RestorePush(codec, PatchLines(codec, front, ports), PatchLine(codec, last, ports.open, ports.inner));
    }
  }

  lemma {:induction false} RestoresTrimmed(codec: Codec, lines: seq<string>, ports: Ports) returns (back: seq<string>)
    requires Faithful(codec) && Unmarked(lines)
    ensures RestoreLines(codec, Trim(PatchLines(codec, lines, ports))) == Some(back)
    ensures Trim(back) == Trim(lines)
  {
    if lines == [] {
      back := [] + [""];
      NoCapitalNoMarker("");
      NothingToFind("", 0);
      RestorePush(codec, [], "");
      TrimPush([], "");
    } else {
      var front, last := lines[..|lines| - 1], lines[|lines| - 1];
      assert lines == front + [last];
      var patched := PatchLine(codec, last, ports.open, ports.inner);
      RestoresLine(codec, last, ports);
      PatchPush(codec, front, last, ports);
      TrimPush(PatchLines(codec, front, ports), patched);
      if RStrip(last) == [] {
        back := RestoresTrimmed(codec, front, ports);
      } else {
        RestoresLines(codec, front, ports);
        var line := RestoresStripped(codec, last, ports);
        back := front + [line];
        RestorePush(codec, PatchLines(codec, front, ports), RStrip(patched));
        TrimPush(front, line);
      }
    }
  }

  /** Restoring a patched text gives the text back, up to the white space both rewrites drop at its end; line by
      line nothing is added or lost. */
  lemma RestoreUndoesPatch(codec: Codec, content: string, ports: Ports)
    requires Faithful(codec) && !Contains(content, MARKER)
    ensures RestoreText(codec, PatchText(codec, content, ports)) == Some(Normalised(content))
    ensures SplitLines(Normalised(content)) == Trim(SplitLines(content))
    ensures RestoreLines(codec, PatchLines(codec, SplitLines(content), ports)) == Some(SplitLines(content))
  {
    var lines := SplitLines(content);
    forall i | 0 <= i < |lines|
      ensures !Contains(lines[i], MARKER)
    {
      if Contains(lines[i], MARKER) {
        LinesArePart(content, MARKER, i);
      }
    }
    SplitGivesLines(content);
    SplitOfOutput(lines);
    PatchedAreLines(codec, content, ports);
    SplitOfOutput(PatchLines(codec, lines, ports));
    RestoresLines(codec, lines, ports);
    var back := RestoresTrimmed(codec, lines, ports);
    SameTrimSameOutput(back, lines);
  }
}
