/** Moving nginx's TCP listeners behind the proxy and back: `patch` rewrites each public listen line and keeps
    the original in a comment, `restore` puts the originals back. */
module NginxListeners {
  import opened TextLines
  import opened Wrappers

  const MARKER: string := "TUPOPROXY_ORIGINAL="

  /** The URL-safe base64 of RFC 4648, section 5, over UTF-8: only what the rewriter relies on is stated. */
  datatype Codec = Codec(encode: string -> string, decode: string -> Option<string>)

  predicate InAlphabet(c: char) {
    'A' <= c <= 'Z' || 'a' <= c <= 'z' || '0' <= c <= '9' || c == '_' || c == '=' || c == '-'
  }

  predicate AllInAlphabet(s: string) {
    forall c :: c in s ==> InAlphabet(c)
  }

  ghost predicate Faithful(codec: Codec) {
    forall line :: codec.decode(codec.encode(line)) == Some(line) && AllInAlphabet(codec.encode(line))
                   && (line != "" ==> codec.encode(line) != "")
  }

  // ----- one line -----

  function FirstSemicolon(s: string): (k: nat)
    ensures k <= |s| && ';' !in s[..k] && (k < |s| ==> s[k] == ';')
  {
    if s == [] || s[0] == ';' then 0
    else
      var k := 1 + FirstSemicolon(s[1..]);
      assert s[..k] == [s[0]] + s[1..][..k - 1];
      k
  }

  function Directive(s: string): string {
    s[..FirstSemicolon(s)]
  }

  function Comment(s: string): string {
    var k := FirstSemicolon(s);
    if k < |s| then s[k + 1..] else ""
  }

  predicate IsHost(h: string) {
    h == "*" || (h != "" && forall c :: c in h ==> '0' <= c <= '9' || c == '.')
  }

  predicate IsHost6(h: string) {
    h != "" && forall c :: c in h ==> '0' <= c <= '9' || 'a' <= c <= 'f' || 'A' <= c <= 'F' || c == ':'
  }

  /** `address` is the port alone, `host:port` or `[host]:port`. */
  predicate IsPublicAddress(address: string, port: string) {
    var n := |address| - |port| - 1;
    || address == port
    || (n >= 0 && address[n..] == ":" + port
        && (IsHost(address[..n])
            || (n >= 2 && address[0] == '[' && address[n - 1] == ']' && IsHost6(address[1..n - 1]))))
  }

  predicate IsListenDirective(stripped: string, publicPort: nat) {
    var words := Words(Directive(stripped));
    |words| >= 2 && IsPublicAddress(words[1], Digits(publicPort))
  }

  predicate IsTcpListen(line: string, publicPort: nat) {
    var stripped := LStrip(line);
    && "listen " <= stripped && !Contains(stripped, "quic") && !Contains(line, MARKER)
    && IsListenDirective(stripped, publicPort)
  }

  predicate IsIpv6(line: string) {
    var words := Words(Directive(LStrip(line)));
    |words| >= 2 && "[" <= words[1]
  }

  function Indent(line: string): string
    requires |LStrip(line)| <= |line|
  {
    line[..|line| - |LStrip(line)|]
  }

  function Loopback(ipv6: bool, internalPort: nat): string {
    (if ipv6 then "[::1]:" else "127.0.0.1:") + Digits(internalPort)
  }

  /** The directive's words with the loopback address, and `proxy_protocol` added when it is missing. */
  function Rewired(words: seq<string>, internalPort: nat): seq<string>
    requires |words| >= 2
  {
    var moved := words[1 := Loopback("[" <= words[1], internalPort)];
    if "proxy_protocol" in words[2..] then moved else moved + ["proxy_protocol"]
  }

  function Suffix(stripped: string): string {
    var comment := LStrip(RStrip(Comment(stripped)));
    if comment == "" then "" else " " + comment
  }

  function Head(line: string, internalPort: nat): string
    requires |Words(Directive(LStrip(line)))| >= 2
  {
    LStripShorter(line);
    Indent(line) + JoinWords(Rewired(Words(Directive(LStrip(line))), internalPort)) + "; # "
  }

  function PatchLine(codec: Codec, line: string, publicPort: nat, internalPort: nat): string {
    if IsTcpListen(line, publicPort) then
      Head(line, internalPort) + MARKER + codec.encode(line) + Suffix(LStrip(line))
    else line
  }

  lemma {:induction false} LStripShorter(s: string)
    ensures |LStrip(s)| <= |s| && s[|s| - |LStrip(s)|..] == LStrip(s) && AllSpace(s[..|s| - |LStrip(s)|])
  {
    if s != [] && IsSpace(s[0]) {
      LStripShorter(s[1..]);
      var k := |s| - |LStrip(s)|;
      assert s[..k] == [s[0]] + s[1..][..k - 1];
      assert s[k..] == s[1..][k - 1..];
    }
  }

  /** The longest run of alphabet characters at the front. */
  function Run(s: string): (r: string)
    ensures r <= s
  {
    if s == [] || !InAlphabet(s[0]) then [] else [s[0]] + Run(s[1..])
  }

  /** The first marker with at least one alphabet character behind it, as the text captured behind it. */
  function Search(line: string, i: nat): Option<string>
    decreases |line| - i
  {
    if i + |MARKER| > |line| then None
    else if line[i..i + |MARKER|] == MARKER && Run(line[i + |MARKER|..]) != [] then Some(Run(line[i + |MARKER|..]))
    else Search(line, i + 1)
  }

  /** `None` when the marker's text does not decode. */
  function RestoreLine(codec: Codec, line: string): Option<string> {
    match Search(line, 0)
    case None => Some(line)
    case Some(text) => codec.decode(text)
  }

  // ----- markers -----

  lemma MarkerIsOneWord()
    ensures |MARKER| == 19 && MARKER[0] == 'T' && forall c :: c in MARKER ==> !IsSpace(c) && c != ';' && c != '#'
  {
  }

  lemma {:induction false} NothingToFind(line: string, i: nat)
    requires !Contains(line, MARKER)
    ensures Search(line, i) == None
    decreases |line| - i
  {
    MarkerIsOneWord();
    if i + |MARKER| <= |line| {
      assert line[i..i + |MARKER|] == MARKER ==> OccursAt(line, MARKER, i);
      NothingToFind(line, i + 1);
    }
  }

  lemma {:induction false} RunOfText(text: string, rest: string)
    requires AllInAlphabet(text) && (rest != [] ==> !InAlphabet(rest[0]))
    ensures Run(text + rest) == text
  {
    if text == [] {
      assert text + rest == rest;
    } else {
      assert (text + rest)[0] == text[0] && (text + rest)[1..] == text[1..] + rest && text[0] in text;
      RunOfText(text[1..], rest);
      assert text == [text[0]] + text[1..];
    }
  }

  /** The search skips a head that ends in a space and has no marker of its own. */
  lemma {:induction false} SearchSkipsHead(head: string, text: string, rest: string, i: nat)
    requires head != [] && head[|head| - 1] == ' ' && !Contains(head, MARKER) && i <= |head|
    requires text != [] && AllInAlphabet(text) && (rest != [] ==> !InAlphabet(rest[0]))
    ensures Search(head + MARKER + text + rest, i) == Some(text)
    decreases |head| - i
  {
    var line := head + MARKER + text + rest;
    var n := |MARKER|;
    if i == |head| {
      assert line[i..i + n] == MARKER && line[i + n..] == text + rest;
      RunOfText(text, rest);
    } else {
      HeadHasNoMarker(head, MARKER + text + rest, i);
      assert line == head + (MARKER + text + rest);
      SearchSkipsHead(head, text, rest, i + 1);
    }
  }

  lemma HeadHasNoMarker(head: string, rest: string, i: nat)
    requires head != [] && head[|head| - 1] == ' ' && !Contains(head, MARKER) && i < |head|
    ensures !OccursAt(head + rest, MARKER, i)
  {
    MarkerIsOneWord();
    var line := head + rest;
    if OccursAt(line, MARKER, i) {
      if i + |MARKER| <= |head| {
        assert head[i..i + |MARKER|] == line[i..i + |MARKER|];
        assert OccursAt(head, MARKER, i);
      } else {
        Covers(line, MARKER, i, |head| - 1);
      }
    }
  }

  lemma {:induction false} ContainsAfterSpace(w: string, b: string, p: string)
    requires AllSpace(w) && (forall c :: c in p ==> !IsSpace(c)) && p != [] && Contains(w + b, p)
    ensures Contains(b, p)
  {
    if w == [] {
      assert w + b == b;
    } else {
      assert w[0] in w && w + b == [] + [w[0]] + (w[1..] + b);
      ContainsAcross([], w[0], w[1..] + b, p);
      if Contains(w[1..] + b, p) {
        ContainsAfterSpace(w[1..], b, p);
      }
    }
  }

  lemma {:induction false} JoinedWordsHaveNoMarker(words: seq<string>)
    requires forall k :: 0 <= k < |words| ==> !Contains(words[k], MARKER)
    ensures !Contains(JoinWords(words), MARKER)
  {
    MarkerIsOneWord();
    if |words| == 0 {
      if Contains("", MARKER) {
        NeedsFirst("", MARKER);
      }
    } else if |words| > 1 {
      JoinedWordsHaveNoMarker(words[1..]);
      var joined := words[0] + [' '] + JoinWords(words[1..]);
      assert joined == JoinWords(words);
      if Contains(joined, MARKER) {
        ContainsAcross(words[0], ' ', JoinWords(words[1..]), MARKER);
      }
    }
  }

  lemma NoCapitalNoMarker(s: string)
    requires 'T' !in s
    ensures !Contains(s, MARKER)
  {
    MarkerIsOneWord();
    if Contains(s, MARKER) {
      NeedsFirst(s, MARKER);
    }
  }

  lemma LoopbackIsPlain(ipv6: bool, port: nat)
    ensures 'T' !in Loopback(ipv6, port) && IsLine(Loopback(ipv6, port))
  {
    DigitsDenote(port);
  }

  lemma DirectiveIsPart(line: string, p: string)
    requires Contains(Directive(LStrip(line)), p)
    ensures Contains(line, p)
  {
    LStripShorter(line);
    var stripped := LStrip(line);
    var k := FirstSemicolon(stripped);
    assert stripped[..k] == stripped[0..k];
    ContainsInPart(stripped, p, 0, k);
    assert stripped == line[|line| - |stripped|..|line|];
    ContainsInPart(line, p, |line| - |stripped|, |line|);
  }

  lemma RewiredHasNoMarker(line: string, internalPort: nat)
    requires !Contains(line, MARKER) && |Words(Directive(LStrip(line)))| >= 2
    ensures !Contains(JoinWords(Rewired(Words(Directive(LStrip(line))), internalPort)), MARKER)
  {
    var words := Words(Directive(LStrip(line)));
    var moved := Rewired(words, internalPort);
    forall k | 0 <= k < |moved|
      ensures !Contains(moved[k], MARKER)
    {
      if k == 1 {
        LoopbackIsPlain("[" <= words[1], internalPort);
        NoCapitalNoMarker(moved[1]);
      } else if k == |words| {
        NoCapitalNoMarker("proxy_protocol");
      } else if Contains(words[k], MARKER) {
        WordsArePart(Directive(LStrip(line)), MARKER, k);
        DirectiveIsPart(line, MARKER);
      }
    }
    JoinedWordsHaveNoMarker(moved);
  }

  lemma HeadIsPlain(line: string, internalPort: nat)
    requires !Contains(line, MARKER) && |Words(Directive(LStrip(line)))| >= 2
    ensures
      var head := Head(line, internalPort);
      head != [] && head[|head| - 1] == ' ' && !Contains(head, MARKER)
  {
    MarkerIsOneWord();
    LStripShorter(line);
    RewiredHasNoMarker(line, internalPort);
    NoCapitalNoMarker(" # ");
    var joined := JoinWords(Rewired(Words(Directive(LStrip(line))), internalPort));
    var body := Indent(line) + joined;
    assert Head(line, internalPort) == body + [';'] + " # ";
    if Contains(body, MARKER) {
      ContainsAfterSpace(Indent(line), joined, MARKER);
    }
    if Contains(body + [';'] + " # ", MARKER) {
      ContainsAcross(body, ';', " # ", MARKER);
    }
  }

  // ----- a patched line -----

  lemma ListenIsNotBlank(line: string, publicPort: nat)
    requires IsTcpListen(line, publicPort)
    ensures line != "" && RStrip(line) != []
  {
    RStripSplit(line);
    LStripShorter(line);
    assert LStrip(line)[0] == 'l';
    assert 'l' in line;
  }

  lemma SuffixIsSolid(stripped: string)
    ensures
      var suffix := Suffix(stripped);
      suffix != "" ==> suffix[0] == ' ' && !IsSpace(suffix[|suffix| - 1])
  {
    var text := RStrip(Comment(stripped));
    RStripSplit(Comment(stripped));
    LStripShorter(text);
    assert LStrip(text) != "" ==> LStrip(text)[|LStrip(text)| - 1] == text[|text| - 1];
  }

  lemma EndIsSolid(front: string, text: string, suffix: string)
    requires text != [] && AllInAlphabet(text) && (suffix != "" ==> !IsSpace(suffix[|suffix| - 1]))
    ensures RStrip(front + text + suffix) == front + text + suffix
  {
    assert text[|text| - 1] in text;
    RStripOfSolid(front + text + suffix);
  }

  lemma MarkerAfterHead(head: string, rest: string)
    ensures Contains(head + MARKER + rest, MARKER)
  {
    var s := head + MARKER + rest;
    assert s[|head|..|head| + |MARKER|] == MARKER;
    assert OccursAt(s, MARKER, |head|);
  }

  lemma AssembledLine(codec: Codec, head: string, text: string, suffix: string)
    requires head != [] && head[|head| - 1] == ' ' && !Contains(head, MARKER)
    requires text != [] && AllInAlphabet(text)
    requires suffix != "" ==> suffix[0] == ' ' && !IsSpace(suffix[|suffix| - 1])
    ensures
      var s := head + MARKER + text + suffix;
      RestoreLine(codec, s) == codec.decode(text) && Contains(s, MARKER) && RStrip(s) == s
  {
    SearchSkipsHead(head, text, suffix, 0);
    assert head + MARKER + text + suffix == head + MARKER + (text + suffix);
    MarkerAfterHead(head, text + suffix);
    EndIsSolid(head + MARKER, text, suffix);
  }

  /** A rewritten line gives its original back, carries the marker, and does not end in white space. */
  lemma PatchedLine(codec: Codec, line: string, publicPort: nat, internalPort: nat)
    requires Faithful(codec) && IsTcpListen(line, publicPort)
    ensures
      var patched := PatchLine(codec, line, publicPort, internalPort);
      && RestoreLine(codec, patched) == Some(line)
      && Contains(patched, MARKER)
      && RStrip(patched) == patched != []
  {
    var head, text, suffix := Head(line, internalPort), codec.encode(line), Suffix(LStrip(line));
    HeadIsPlain(line, internalPort);
    ListenIsNotBlank(line, publicPort);
    SuffixIsSolid(LStrip(line));
    AssembledLine(codec, head, text, suffix);
  }

  /** Rewriting changes a line exactly when it is a public listener. */
  lemma ChangedIffListener(codec: Codec, line: string, publicPort: nat, internalPort: nat)
    requires Faithful(codec)
    ensures PatchLine(codec, line, publicPort, internalPort) != line <==> IsTcpListen(line, publicPort)
  {
    if IsTcpListen(line, publicPort) {
      PatchedLine(codec, line, publicPort, internalPort);
    }
  }

  // ----- a patched line is one line -----

  lemma CharOfPart(s: string, c: char)
    ensures c in s <==> Contains(s, [c])
  {
    if c in s {
      var i :| 0 <= i < |s| && s[i] == c;
      assert OccursAt(s, [c], i);
    }
    if Contains(s, [c]) {
      NeedsFirst(s, [c]);
    }
  }

  lemma {:induction false} JoinedWordsAreLine(words: seq<string>)
    requires forall k :: 0 <= k < |words| ==> IsLine(words[k])
    ensures IsLine(JoinWords(words))
  {
    if |words| > 1 {
      JoinedWordsAreLine(words[1..]);
    }
  }

  lemma RewiredIsLine(line: string, internalPort: nat)
    requires IsLine(line) && |Words(Directive(LStrip(line)))| >= 2
    ensures IsLine(JoinWords(Rewired(Words(Directive(LStrip(line))), internalPort)))
  {
    var words := Words(Directive(LStrip(line)));
    var moved := Rewired(words, internalPort);
    forall k | 0 <= k < |moved|
      ensures IsLine(moved[k])
    {
      if k == 1 {
        LoopbackIsPlain("[" <= words[1], internalPort);
      } else if k < |words| {
        forall c | c in words[k]
          ensures c in line
        {
          CharOfPart(words[k], c);
          WordsArePart(Directive(LStrip(line)), [c], k);
          DirectiveIsPart(line, [c]);
          CharOfPart(line, c);
        }
      }
    }
    JoinedWordsAreLine(moved);
  }

  lemma SuffixIsLine(line: string)
    requires IsLine(line)
    ensures IsLine(Suffix(LStrip(line)))
  {
    LStripShorter(line);
    var comment := Comment(LStrip(line));
    RStripSplit(comment);
    LStripShorter(RStrip(comment));
    forall c | c in LStrip(RStrip(comment))
      ensures c in line
    {
      assert c in RStrip(comment) && c in comment && c in LStrip(line);
    }
  }

  lemma PatchedIsLine(codec: Codec, line: string, publicPort: nat, internalPort: nat)
    requires Faithful(codec) && IsLine(line)
    ensures IsLine(PatchLine(codec, line, publicPort, internalPort))
  {
    if IsTcpListen(line, publicPort) {
      MarkerIsOneWord();
      LStripShorter(line);
      RewiredIsLine(line, internalPort);
      SuffixIsLine(line);
      assert IsLine(Head(line, internalPort));
      assert IsLine(codec.encode(line)) && IsLine(MARKER);
    }
  }

  // ----- white space at the end of a line -----

  lemma {:induction false} LStripBeforeSpace(s: string, w: string)
    requires LStrip(s) != []
    ensures LStrip(s + w) == LStrip(s) + w
  {
    if s != [] {
      assert (s + w)[0] == s[0] && (s + w)[1..] == s[1..] + w;
      if IsSpace(s[0]) {
        LStripBeforeSpace(s[1..], w);
      }
    }
  }

  lemma {:induction false} FirstSemicolonBeforeSpace(s: string, w: string)
    requires AllSpace(w)
    ensures FirstSemicolon(s + w) == if FirstSemicolon(s) < |s| then FirstSemicolon(s) else |s + w|
  {
    if s == [] {
      assert s + w == w;
      assert FirstSemicolon(w) < |w| ==> w[FirstSemicolon(w)] in w;
    } else {
      assert (s + w)[0] == s[0] && (s + w)[1..] == s[1..] + w;
      if s[0] != ';' {
        FirstSemicolonBeforeSpace(s[1..], w);
      }
    }
  }

  lemma WordsBeforeSpace(s: string, w: string)
    requires AllSpace(w)
    ensures Words(Directive(s + w)) == Words(Directive(s))
  {
    FirstSemicolonBeforeSpace(s, w);
    if FirstSemicolon(s) < |s| {
      assert Directive(s + w) == Directive(s);
    } else {
      assert Directive(s + w) == s + w && Directive(s) == s;
      WordsIgnoreTrailingSpace(s, w);
    }
  }

  /** Stripping a line's end does not turn it into a listener. */
  lemma StrippedListener(line: string, publicPort: nat)
    requires IsTcpListen(RStrip(line), publicPort)
    ensures IsTcpListen(line, publicPort)
  {
    MarkerIsOneWord();
    RStripSplit(line);
    var solid, w := RStrip(line), line[|RStrip(line)|..];
    assert LStrip(solid)[0] == 'l';
    LStripBeforeSpace(solid, w);
    WordsBeforeSpace(LStrip(solid), w);
    if Contains(line, MARKER) {
      ContainsBeforeSpace(solid, w, MARKER);
    }
    if Contains(LStrip(line), "quic") {
      ContainsBeforeSpace(LStrip(solid), w, "quic");
    }
    assert "listen " <= LStrip(solid) + w;
  }

  // ----- what a rewritten line says -----

  predicate IsWord(w: string) {
    w != [] && forall c :: c in w ==> !IsSpace(c) && c != ';'
  }

  lemma {:induction false} WordLengthOfWord(w: string, rest: string)
    requires (forall c :: c in w ==> !IsSpace(c)) && (rest != [] ==> IsSpace(rest[0]))
    ensures WordLength(w + rest) == |w|
  {
    if w == [] {
      assert w + rest == rest;
    } else {
      assert (w + rest)[0] == w[0] && (w + rest)[1..] == w[1..] + rest && w[0] in w;
      WordLengthOfWord(w[1..], rest);
    }
  }

  /** Splitting into words undoes joining them. */
  lemma {:induction false} WordsOfJoin(words: seq<string>)
    requires forall k :: 0 <= k < |words| ==> IsWord(words[k])
    ensures Words(JoinWords(words)) == words
  {
    if |words| == 1 {
      assert words[0][0] in words[0];
      WordLengthOfWord(words[0], "");
      assert words[0] + "" == words[0] && words == [words[0]] + [];
    } else if |words| > 1 {
      var first, rest := words[0], JoinWords(words[1..]);
      assert JoinWords(words) == first + (" " + rest);
      assert first[0] in first;
      WordLengthOfWord(first, " " + rest);
      assert (first + (" " + rest))[|first|..] == " " + rest && (" " + rest)[1..] == rest;
      WordsOfJoin(words[1..]);
      assert words == [first] + words[1..];
    }
  }

  lemma {:induction false} WordLengthIsSolid(s: string)
    ensures forall c :: c in s[..WordLength(s)] ==> !IsSpace(c)
    ensures s != [] && !IsSpace(s[0]) ==> WordLength(s) > 0
  {
    if s != [] && !IsSpace(s[0]) {
      WordLengthIsSolid(s[1..]);
      assert s[..WordLength(s)] == [s[0]] + s[1..][..WordLength(s[1..])];
    }
  }

  lemma {:induction false} WordsAreWords(s: string, k: nat)
    requires ';' !in s && k < |Words(s)|
    ensures IsWord(Words(s)[k])
    decreases |s|
  {
    if IsSpace(s[0]) {
      WordsAreWords(s[1..], k);
    } else {
      WordLengthIsSolid(s);
      if k > 0 {
        WordsAreWords(s[WordLength(s)..], k - 1);
      }
    }
  }

  lemma LoopbackIsWord(ipv6: bool, port: nat)
    ensures IsWord(Loopback(ipv6, port))
  {
    DigitsDenote(port);
  }

  lemma RewiredAreWords(line: string, internalPort: nat)
    requires |Words(Directive(LStrip(line)))| >= 2
    ensures
      var moved := Rewired(Words(Directive(LStrip(line))), internalPort);
      forall k :: 0 <= k < |moved| ==> IsWord(moved[k])
  {
    var words := Words(Directive(LStrip(line)));
    var moved := Rewired(words, internalPort);
    forall k | 0 <= k < |moved|
      ensures IsWord(moved[k])
    {
      if k == 1 {
        LoopbackIsWord("[" <= words[1], internalPort);
      } else if k < |words| {
        WordsAreWords(Directive(LStrip(line)), k);
      }
    }
  }

  lemma {:induction false} JoinedWordsAreSolid(words: seq<string>)
    requires words != [] && forall k :: 0 <= k < |words| ==> IsWord(words[k])
    ensures ';' !in JoinWords(words) && JoinWords(words) != [] && !IsSpace(JoinWords(words)[0])
  {
    assert words[0][0] in words[0];
    if |words| > 1 {
      JoinedWordsAreSolid(words[1..]);
    }
  }

  lemma {:induction false} LStripAfterSpace(w: string, b: string)
    requires AllSpace(w) && b != [] && !IsSpace(b[0])
    ensures LStrip(w + b) == b
  {
    if w == [] {
      assert w + b == b;
    } else {
      assert (w + b)[0] == w[0] && (w + b)[1..] == w[1..] + b && w[0] in w;
      LStripAfterSpace(w[1..], b);
    }
  }

  lemma {:induction false} FirstSemicolonAfter(s: string, rest: string)
    requires ';' !in s
    ensures FirstSemicolon(s + ";" + rest) == |s|
  {
    if s != [] {
      assert (s + ";" + rest)[0] == s[0] && (s + ";" + rest)[1..] == s[1..] + ";" + rest;
      FirstSemicolonAfter(s[1..], rest);
    }
  }

  lemma DirectiveOf(indent: string, joined: string, rest: string)
    requires AllSpace(indent) && joined != [] && !IsSpace(joined[0]) && ';' !in joined
    ensures Directive(LStrip(indent + joined + ";" + rest)) == joined
  {
    assert indent + joined + ";" + rest == indent + (joined + ";" + rest);
    LStripAfterSpace(indent, joined + ";" + rest);
    FirstSemicolonAfter(joined, rest);
  }

  lemma RewiredSays(words: seq<string>, internalPort: nat)
    requires |words| >= 2
    ensures
      var moved := Rewired(words, internalPort);
      && |words| <= |moved| <= |words| + 1
      && moved[1] == Loopback("[" <= words[1], internalPort)
      && (forall k :: 0 <= k < |words| && k != 1 ==> moved[k] == words[k])
      && "proxy_protocol" in moved[2..]
      && (|moved| > |words| ==> "proxy_protocol" !in words[2..])
  {
    var moved := Rewired(words, internalPort);
    if "proxy_protocol" in words[2..] {
      assert moved[2..] == words[2..];
    } else {
      assert moved[2..][|words| - 2] == "proxy_protocol";
    }
  }

  lemma PatchedText(codec: Codec, line: string, publicPort: nat, internalPort: nat, joined: string, rest: string)
    requires IsTcpListen(line, publicPort) && |LStrip(line)| <= |line|
    requires joined == JoinWords(Rewired(Words(Directive(LStrip(line))), internalPort))
    requires rest == " # " + MARKER + codec.encode(line) + Suffix(LStrip(line))
    ensures PatchLine(codec, line, publicPort, internalPort) == Indent(line) + joined + ";" + rest
  {
    hide Words, Rewired, JoinWords, LStrip, Suffix, Directive, Contains, IsPublicAddress, Digits;
    assert "; # " == ";" + " # ";
  }

  lemma PatchedWords(codec: Codec, line: string, publicPort: nat, internalPort: nat)
    requires IsTcpListen(line, publicPort)
    ensures Words(Directive(LStrip(PatchLine(codec, line, publicPort, internalPort)))) ==
      Rewired(Words(Directive(LStrip(line))), internalPort)
  {
    var moved := Rewired(Words(Directive(LStrip(line))), internalPort);
    var joined, rest := JoinWords(moved), " # " + MARKER + codec.encode(line) + Suffix(LStrip(line));
    LStripShorter(line);
    RewiredAreWords(line, internalPort);
    JoinedWordsAreSolid(moved);
    WordsOfJoin(moved);
    PatchedText(codec, line, publicPort, internalPort, joined, rest);
    DirectiveOf(Indent(line), joined, rest);
  }

  /** A rewritten line is the same directive on the loopback address of the same family: every other word keeps
      its place, and `proxy_protocol` is among the options. */
  lemma PatchedDirective(codec: Codec, line: string, publicPort: nat, internalPort: nat)
    requires IsTcpListen(line, publicPort)
    ensures
      var words := Words(Directive(LStrip(line)));
      var moved := Words(Directive(LStrip(PatchLine(codec, line, publicPort, internalPort))));
      && |words| <= |moved| <= |words| + 1
      && moved[1] == (if "[" <= words[1] then "[::1]:" else "127.0.0.1:") + Digits(internalPort)
      && (forall k :: 0 <= k < |words| && k != 1 ==> moved[k] == words[k])
      && "proxy_protocol" in moved[2..]
      && (|moved| > |words| ==> "proxy_protocol" !in words[2..])
  {
    PatchedWords(codec, line, publicPort, internalPort);
    RewiredSays(Words(Directive(LStrip(line))), internalPort);
  }

  // ----- which lines are listeners -----

  ghost predicate OnlyOf(s: string, allowed: string) {
    s != "" && forall c :: c in s ==> c in allowed
  }

  /** `*:port` or an IPv4 address and the port. */
  ghost predicate IsAddress4(address: string, port: string) {
    exists host :: address == host + ":" + port && (host == "*" || OnlyOf(host, "0123456789."))
  }

  /** A bracketed IPv6 address and the port. */
  ghost predicate IsAddress6(address: string, port: string) {
    exists host :: address == "[" + host + "]:" + port && OnlyOf(host, "0123456789abcdefABCDEF:")
  }

  lemma Address4Iff(address: string, port: string)
    ensures
      var n := |address| - |port| - 1;
      IsAddress4(address, port) <==> n >= 0 && address[n..] == ":" + port && IsHost(address[..n])
  {
    var n := |address| - |port| - 1;
    if IsAddress4(address, port) {
      var host :| address == host + ":" + port && (host == "*" || OnlyOf(host, "0123456789."));
      HostChars(host);
      assert address[..n] == host && address[n..] == ":" + port;
    }
    if n >= 0 && address[n..] == ":" + port && IsHost(address[..n]) {
      HostChars(address[..n]);
      assert address == address[..n] + ":" + port;
    }
  }

  lemma Address4Start(address: string, port: string)
    requires IsAddress4(address, port)
    ensures address != "" && address[0] != '['
  {
    Address4Iff(address, port);
    var host := address[..|address| - |port| - 1];
    assert host[0] in host && address[0] == host[0];
  }

  lemma Address6Iff(address: string, port: string)
    ensures
      var n := |address| - |port| - 1;
      IsAddress6(address, port) <==>
        n >= 2 && address[n..] == ":" + port && address[0] == '[' && address[n - 1] == ']' && IsHost6(address[1..n - 1])
  {
    var n := |address| - |port| - 1;
    if IsAddress6(address, port) {
      var host :| address == "[" + host + "]:" + port && OnlyOf(host, "0123456789abcdefABCDEF:");
      Host6Chars(host);
      assert address[1..n - 1] == host && address[n..] == ":" + port;
    }
    if n >= 2 && address[n..] == ":" + port && address[0] == '[' && address[n - 1] == ']' && IsHost6(address[1..n - 1]) {
      var host := address[1..n - 1];
      Host6Chars(host);
      assert address == "[" + host + "]:" + port;
    }
  }

  lemma PublicAddressIff(address: string, port: string)
    ensures IsPublicAddress(address, port) <==> address == port || IsAddress4(address, port) || IsAddress6(address, port)
  {
    Address4Iff(address, port);
    Address6Iff(address, port);
    hide IsAddress4, IsAddress6, IsHost, IsHost6;
  }

  lemma DigitOrDot(c: char)
    ensures c in "0123456789." <==> '0' <= c <= '9' || c == '.'
  {
    var allowed := "0123456789.";
    if '0' <= c <= '9' {
      assert allowed[c as int - '0' as int] == c;
    } else if c == '.' {
      assert allowed[10] == c;
    }
  }

  lemma HexOrColon(c: char)
    ensures c in "0123456789abcdefABCDEF:" <==> '0' <= c <= '9' || 'a' <= c <= 'f' || 'A' <= c <= 'F' || c == ':'
  {
    var allowed := "0123456789abcdefABCDEF:";
    if '0' <= c <= '9' {
      assert allowed[c as int - '0' as int] == c;
    } else if 'a' <= c <= 'f' {
      assert allowed[10 + (c as int - 'a' as int)] == c;
    } else if 'A' <= c <= 'F' {
      assert allowed[16 + (c as int - 'A' as int)] == c;
    } else if c == ':' {
      assert allowed[22] == c;
    }
  }

  lemma HostChars(host: string)
    ensures IsHost(host) <==> host == "*" || OnlyOf(host, "0123456789.")
  {
    forall c | c in host {
      DigitOrDot(c);
    }
  }

  lemma Host6Chars(host: string)
    ensures IsHost6(host) <==> OnlyOf(host, "0123456789abcdefABCDEF:")
  {
    forall c | c in host {
      HexOrColon(c);
    }
  }

  /** A line is a public TCP listener if and only if, behind its indentation, it starts with `listen` and a blank, does
      not mention quic, has no marker, and names the port alone, with an IPv4 host or with a bracketed IPv6 one. */
  lemma ListenerIff(line: string, publicPort: nat)
    ensures
      var text, port := LStrip(line), Digits(publicPort);
      var words := Words(Directive(text));
      IsTcpListen(line, publicPort) <==>
        && "listen " <= text && !Contains(text, "quic") && !Contains(line, "TUPOPROXY_ORIGINAL=")
        && |words| >= 2 && (words[1] == port || IsAddress4(words[1], port) || IsAddress6(words[1], port))
  {
    var words := Words(Directive(LStrip(line)));
    if |words| >= 2 {
      PublicAddressIff(words[1], Digits(publicPort));
    }
  }

  /** The family of a listener is the family of its address. */
  lemma ListenerFamily(line: string, publicPort: nat)
    requires IsTcpListen(line, publicPort)
    ensures IsIpv6(line) <==> IsAddress6(Words(Directive(LStrip(line)))[1], Digits(publicPort))
  {
    var address, port := Words(Directive(LStrip(line)))[1], Digits(publicPort);
    PublicAddressIff(address, port);
    DigitsDenote(publicPort);
    assert port[0] in port;
    if IsAddress4(address, port) {
      Address4Start(address, port);
    }
  }

  lemma ListenWords(address: string, options: seq<string>, comment: string)
    requires IsWord(address) && forall k :: 0 <= k < |options| ==> IsWord(options[k])
    ensures
      var words := ["listen", address] + options;
      && (forall k :: 0 <= k < |words| ==> IsWord(words[k]))
      && "listen " <= JoinWords(words) + ";" + comment
  {
    var words := ["listen", address] + options;
    var text := JoinWords(words) + ";" + comment;
    assert JoinWords(words) == "listen" + " " + JoinWords(words[1..]);
    assert text[..7] == "listen ";
  }

  lemma ListenTextIsListener(indent: string, words: seq<string>, comment: string, publicPort: nat)
    requires AllSpace(indent) && |words| >= 2 && IsPublicAddress(words[1], Digits(publicPort))
    requires forall k :: 0 <= k < |words| ==> IsWord(words[k])
    requires
      var text := JoinWords(words) + ";" + comment;
      "listen " <= text && !Contains(text, "quic") && !Contains(indent + text, MARKER)
    ensures IsTcpListen(indent + (JoinWords(words) + ";" + comment), publicPort)
  {
    hide Words, JoinWords, LStrip, Directive, Contains, IsPublicAddress, Digits, IsWord;
    var joined := JoinWords(words);
    JoinedWordsAreSolid(words);
    WordsOfJoin(words);
    assert indent + (joined + ";" + comment) == indent + joined + ";" + comment;
    DirectiveOf(indent, joined, comment);
    LStripAfterSpace(indent, joined + ";" + comment);
  }

  /** Every directive of that form is found, whatever its indentation, its options and its comment. */
  lemma ListenLineIsListener(indent: string, address: string, options: seq<string>, comment: string, publicPort: nat)
    requires AllSpace(indent) && IsPublicAddress(address, Digits(publicPort)) && IsWord(address)
    requires forall k :: 0 <= k < |options| ==> IsWord(options[k])
    requires
      var text := JoinWords(["listen", address] + options) + ";" + comment;
      !Contains(text, "quic") && !Contains(indent + text, MARKER)
    ensures IsTcpListen(indent + (JoinWords(["listen", address] + options) + ";" + comment), publicPort)
  {
    hide JoinWords, Contains, IsPublicAddress, Digits, IsTcpListen;
    ListenWords(address, options, comment);
    ListenTextIsListener(indent, ["listen", address] + options, comment, publicPort);
  }

  // ----- the text of a rewritten line -----

  /** The code points the marker's text may consist of: letters, digits, and three signs. */
  lemma AlphabetIs(c: char)
    ensures
      var n := c as int;
      InAlphabet(c) <==> 65 <= n <= 90 || 97 <= n <= 122 || 48 <= n <= 57 || n in {45, 61, 95}
  {
  }

  /** `core` is `text` without the white space at its ends. */
  ghost predicate IsTrimmed(text: string, core: string) {
    && (exists l, r :: AllSpace(l) && AllSpace(r) && text == l + core + r)
    && (core != "" ==> !IsSpace(core[0]) && !IsSpace(core[|core| - 1]))
  }

  lemma StripTrims(text: string)
    ensures IsTrimmed(text, LStrip(RStrip(text)))
  {
    RStripSplit(text);
    var solid := RStrip(text);
    LStripShorter(solid);
    var core := LStrip(solid);
    var l, r := solid[..|solid| - |core|], text[|solid|..];
    assert solid == l + core;
    assert text == l + core + r;
    if core != "" {
      LStripIsSolid(solid);
      assert core[|core| - 1] == solid[|solid| - 1];
    }
  }

  lemma {:induction false} LStripIsSolid(s: string)
    ensures LStrip(s) != "" ==> !IsSpace(LStrip(s)[0])
  {
    if s != [] && IsSpace(s[0]) {
      LStripIsSolid(s[1..]);
    }
  }

  /** A rewritten line in full: the indentation, the rewritten words, the marker with the encoded original, and the
      text that followed the original's semicolon, trimmed. */
  lemma PatchedLayout(codec: Codec, line: string, publicPort: nat, internalPort: nat) returns (indent: string, after: string, core: string)
    requires IsTcpListen(line, publicPort)
    ensures
      var text, words := LStrip(line), Words(Directive(LStrip(line)));
      && line == indent + text && AllSpace(indent) && |words| >= 2
      && ';' !in Directive(text) && (text == Directive(text) + ";" + after || (text == Directive(text) && after == ""))
      && IsTrimmed(after, core)
      && PatchLine(codec, line, publicPort, internalPort) ==
         indent + JoinWords(Rewired(words, internalPort)) + "; # TUPOPROXY_ORIGINAL=" + codec.encode(line)
         + (if core == "" then "" else " " + core)
  {
    hide Words, Rewired, JoinWords, LStrip, RStrip, Contains, IsPublicAddress, Digits, IsTrimmed, PatchLine;
    LStripShorter(line);
    var text := LStrip(line);
    indent, after := Indent(line), Comment(text);
    core := LStrip(RStrip(after));
    StripTrims(after);
    TextSplit(text);
    LayoutOf(codec, line, publicPort, internalPort, core);
    assert line == indent + text;
  }

  lemma TextSplit(text: string)
    ensures ';' !in Directive(text)
    ensures text == Directive(text) + ";" + Comment(text) || (text == Directive(text) && Comment(text) == "")
  {
    var k := FirstSemicolon(text);
    if k < |text| {
      assert text == text[..k] + ";" + text[k + 1..];
    }
  }

  lemma LayoutOf(codec: Codec, line: string, publicPort: nat, internalPort: nat, core: string)
    requires IsTcpListen(line, publicPort) && |LStrip(line)| <= |line| && core == LStrip(RStrip(Comment(LStrip(line))))
    ensures PatchLine(codec, line, publicPort, internalPort) ==
      Indent(line) + JoinWords(Rewired(Words(Directive(LStrip(line))), internalPort)) + "; # TUPOPROXY_ORIGINAL="
      + codec.encode(line) + (if core == "" then "" else " " + core)
  {
    hide Words, Rewired, JoinWords, LStrip, RStrip, Comment, Directive, Contains, IsPublicAddress, Digits;
    var head := Indent(line) + JoinWords(Rewired(Words(Directive(LStrip(line))), internalPort));
    assert head + "; # " + MARKER == head + "; # TUPOPROXY_ORIGINAL=";
  }
}
