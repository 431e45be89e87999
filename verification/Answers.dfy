/** The answer endpoint around the generator: fitting the context budget, sanitising, and naming the sources. */
module Answers {
  import opened Citations

  datatype Context = Context(chunk: string, path: string, startLine: nat, endLine: nat, content: string)

  function Decimal(n: nat): (text: string)
    ensures Digits(text)
    decreases n
  {
    if n < 10 then ["0123456789"[n]] else Decimal(n / 10) + ["0123456789"[n % 10]]
  }

  /** The number a text of digits denotes. */
  function Denoted(text: string): nat
    requires forall i | 0 <= i < |text| :: '0' <= text[i] <= '9'
    decreases |text|
  {
    if text == "" then 0 else 10 * Denoted(text[..|text| - 1]) + (text[|text| - 1] as int - '0' as int)
  }

  /** Decimal writes every number so that it reads back as itself, without a leading zero. */
  lemma {:induction false} DecimalReadsBack(n: nat)
    ensures Decimal(n) != "" && Denoted(Decimal(n)) == n && (Decimal(n)[0] == '0' ==> Decimal(n) == "0")
    decreases n
  {
    if n >= 10 {
      DecimalReadsBack(n / 10);
      assert Decimal(n)[..|Decimal(n)| - 1] == Decimal(n / 10);
    } else {
      assert Decimal(n)[..0] == "";
    }
  }

  /** Citation.label */
  function LabelOf(c: Context): string {
    "[" + c.path + ":" + Decimal(c.startLine) + "-" + Decimal(c.endLine) + "]"
  }

  lemma SeparatorInTail(a: string, b: string, s: string, t: string, c: char)
    requires a + [c] + s == b + [c] + t
    ensures |a| < |b| ==> c in s
  {
    if |a| < |b| {
      assert (b + [c] + t)[|b|] == c;
      assert (a + [c] + s)[|b|] == s[|b| - |a| - 1];
    }
  }

  /** Text after the last separator, when neither tail holds the separator. */
  lemma SameTails(a: string, b: string, s: string, t: string, c: char)
    requires a + [c] + s == b + [c] + t && c !in s && c !in t
    ensures a == b && s == t
  {
    var x := a + [c] + s;
    SeparatorInTail(a, b, s, t, c);
    SeparatorInTail(b, a, t, s, c);
    assert x[..|a|] == a && x[..|b|] == b && x[|a| + 1..] == s && x[|b| + 1..] == t;
  }

  /** A label names its place: equal labels have the same path and lines, whatever characters the paths hold. */
  lemma LabelsIdentify(c: Context, d: Context)
    ensures LabelOf(c) == LabelOf(d) <==> c.path == d.path && c.startLine == d.startLine && c.endLine == d.endLine
  {
    if LabelOf(c) == LabelOf(d) {
      var s, e, s', e' := Decimal(c.startLine), Decimal(c.endLine), Decimal(d.startLine), Decimal(d.endLine);
      Unbracketed(c.path, s, e);
      Unbracketed(d.path, s', e');
      SameTails(c.path + ":" + s, d.path + ":" + s', e, e', '-');
      SameTails(c.path, d.path, s, s', ':');
      DecimalReadsBack(c.startLine);
      DecimalReadsBack(c.endLine);
      DecimalReadsBack(d.startLine);
      DecimalReadsBack(d.endLine);
    }
  }

  lemma Unbracketed(path: string, s: string, e: string)
    ensures var l := "[" + path + ":" + s + "-" + e + "]"; l[1..|l| - 1] == path + ":" + s + "-" + e
  {
  }

  function LabelsOf(contexts: seq<Context>): (labels: seq<string>)
    ensures |labels| == |contexts|
  {
    seq(|contexts|, i requires 0 <= i < |contexts| => LabelOf(contexts[i]))
  }

  function Allowed(contexts: seq<Context>): set<string> {
    set c | c in contexts :: LabelOf(c)
  }

  // ---------- the context budget ----------

  function Size(contexts: seq<Context>): nat {
    if contexts == [] then 0 else Size(contexts[..|contexts| - 1]) + |contexts[|contexts| - 1].content|
  }

  lemma {:induction false} SizeGrows(results: seq<Context>, n: nat, m: nat)
    requires n <= m <= |results|
    ensures Size(results[..n]) <= Size(results[..m])
    decreases m - n
  {
    if n < m {
      assert results[..m][..m - 1] == results[..m - 1];
      SizeGrows(results, n, m - 1);
    }
  }

  /** The longest prefix of the results that fits the budget. */
  method Fit(results: seq<Context>, limit: int) returns (contexts: seq<Context>)
    ensures contexts <= results
    ensures contexts == [] || Size(contexts) <= limit
    ensures forall n | |contexts| < n <= |results| :: Size(results[..n]) > limit
  {
    contexts := [];
    var budget := limit;
    for i := 0 to |results|
      invariant contexts == results[..i]
      invariant budget == limit - Size(contexts) && (i > 0 ==> budget >= 0)
    {
      assert results[..i + 1][..i] == results[..i];
      if |results[i].content| > budget {
        forall n | i < n <= |results| ensures Size(results[..n]) > limit {
          SizeGrows(results, i + 1, n);
        }
        return;
      }
      contexts := contexts + [results[i]];
      budget := budget - |results[i].content|;
    }
  }

  // ---------- naming the sources ----------

  predicate Space(c: char) {
    '\t' <= c <= '\r' || '\U{1c}' <= c <= ' ' || c == '\U{85}' || c == '\U{a0}'
  }

  function Stripped(text: string): (r: string)
    ensures r <= text && forall i | |r| <= i < |text| :: Space(text[i])
    decreases |text|
  {
    if text != "" && Space(text[|text| - 1]) then Stripped(text[..|text| - 1]) else text
  }

  /** What rstrip takes off: line and form feeds, tabs and returns, separators, blanks, and nothing else; and all of it. */
  lemma {:induction false} StrippedEndsInText(text: string)
    ensures Stripped(text) != "" ==> Stripped(text)[|Stripped(text)| - 1] !in "\t\n\U{b}\U{c}\r\U{1c}\U{1d}\U{1e}\U{1f} \U{85}\U{a0}"
    ensures forall c | c in text[|Stripped(text)|..] :: c in "\t\n\U{b}\U{c}\r\U{1c}\U{1d}\U{1e}\U{1f} \U{85}\U{a0}"
    decreases |text|
  {
    hide Space;
    if text != "" {
      SpacesListed(text[|text| - 1]);
      StrippedEndsInText(text[..|text| - 1]);
      if Space(text[|text| - 1]) {
        var n := |Stripped(text)|;
        assert text[n..] == text[..|text| - 1][n..] + [text[|text| - 1]];
      }
    }
  }

  lemma SpacesListed(c: char)
    ensures Space(c) <==> c in "\t\n\U{b}\U{c}\r\U{1c}\U{1d}\U{1e}\U{1f} \U{85}\U{a0}"
  {
  }

  function Joined(labels: seq<string>): string {
    if labels == [] then ""
    else if |labels| == 1 then labels[0]
    else labels[0] + " " + Joined(labels[1..])
  }

  /** " ".join: single labels stand for themselves, and lists of labels are put together with one blank between. */
  lemma {:induction false} JoinedInParts(labels: seq<string>, k: nat)
    requires 0 < k < |labels|
    ensures Joined(labels) == Joined(labels[..k]) + " " + Joined(labels[k..]) && Joined([labels[k]]) == labels[k]
    decreases k
  {
    if k > 1 {
      JoinedInParts(labels[1..], k - 1);
      assert labels[..k][1..] == labels[1..][..k - 1] && labels[1..][k - 1..] == labels[k..];
    }
  }

  const HEADING := "\n\nSources: "
  // In three short literals, because what the solver has to know of it is costly to show for one long literal.
  const INSUFFICIENT := "Evidence insufficient: " + "no indexed source " + "matched the question."

  function FirstThree(labels: seq<string>): seq<string> {
    if |labels| <= 3 then labels else labels[..3]
  }

  /** The model's text cites one of the contexts. */
  predicate Cites(text: string, labels: seq<string>) {
    exists i | 0 <= i < |labels| :: Contains(text, labels[i])
  }

  function Sourced(text: string, labels: seq<string>): string {
    if Cites(text, labels) then text else Stripped(text) + HEADING + Joined(FirstThree(labels))
  }

  function Composed(generated: string, contexts: seq<Context>): string {
    if contexts == [] then INSUFFICIENT else Sourced(Sanitised(generated, Allowed(contexts)), LabelsOf(contexts))
  }

  method Answer(results: seq<Context>, limit: int, generate: seq<Context> -> string)
    returns (answer: string, citations: seq<Context>)
    ensures citations <= results && (citations == [] || Size(citations) <= limit)
    ensures answer == Composed(generate(citations), citations)
  {
    hide Sanitised, Cites, Stripped, Joined;
    citations := Fit(results, limit);
    var labels := LabelsOf(citations);
    answer := Sanitise(generate(citations), Allowed(citations));
    if citations != [] && !Cites(answer, labels) {
      answer := Stripped(answer) + HEADING + Joined(FirstThree(labels));
    }
    if citations == [] {
      answer := INSUFFICIENT;
    }
  }

  // ---------- what the reader can find in it ----------

  lemma LabelsAreOneLine(x: string, i: nat)
    requires i < |x| && x[i] == '\n'
    ensures !IsLabel(x)
  {
  }

  lemma Unmatched(text: string)
    requires text != "" && (Closing(text) < |text| ==> !IsLabel(text[..Closing(text) + 1]))
    ensures FindAll(text) == FindAll(text[1..])
  {
    hide IsLabel, Closing;
  }

  lemma {:induction false} FindAllByOpenLine(text: string, more: string)
    requires Open(text)
    ensures FindAll(text + ("\n" + more)) == FindAll(more)
    decreases |text|
  {
    hide IsLabel, Closing, FindAll;
    var tail := "\n" + more;
    var whole := text + tail;
    if text == "" {
      assert whole == ['\n'] + more;
      FindAllSkips('\n', more);
    } else {
      assert whole[1..] == text[1..] + tail;
      FindAllByOpenLine(text[1..], more);
      var k := Closing(whole);
      if k < |whole| {
        assert k >= |text|;
        assert whole[..k + 1][|text|] == '\n';
        LabelsAreOneLine(whole[..k + 1], |text|);
      }
      Unmatched(whole);
    }
  }

  /** A match never runs over a line break, so nothing matches across the heading. */
  lemma {:induction false} FindAllByLine(text: string, more: string)
    ensures FindAll(text + ("\n" + more)) == FindAll(text) + FindAll(more)
    decreases |text|
  {
    hide IsLabel, Closing, FindAll, Segment, Match;
    var tail := "\n" + more;
    if Open(text) {
      FindAllByOpenLine(text, more);
      FindAllOpen(text);
    } else {
      SegmentSplit(text);
      var k := Closing(text);
      var s, rest := text[..k + 1], text[k + 1..];
      FindAllBySegment(s, rest);
      assert text + tail == s + (rest + tail);
      FindAllBySegment(s, rest + tail);
      FindAllByLine(rest, more);
    }
  }

  lemma OpenTogether(text: string, tail: string)
    requires Open(text) && Open(tail)
    ensures Open(text + tail)
  {
  }

  /** Trailing text without a closing bracket adds no match and loses none. */
  lemma {:induction false} FindAllTrimmed(text: string, tail: string)
    requires Open(tail)
    ensures FindAll(text + tail) == FindAll(text)
    decreases |text|
  {
    hide Open, Closing, FindAll, Segment, Match;
    if Open(text) {
      OpenTogether(text, tail);
      FindAllOpen(text);
      FindAllOpen(text + tail);
    } else {
      SegmentSplit(text);
      var k := Closing(text);
      var s, rest := text[..k + 1], text[k + 1..];
      FindAllBySegment(s, rest);
      assert text + tail == s + (rest + tail);
      FindAllBySegment(s, rest + tail);
      FindAllTrimmed(rest, tail);
    }
  }

  lemma FindAllStripped(text: string)
    ensures FindAll(Stripped(text)) == FindAll(text)
  {
    var r := Stripped(text);
    assert text == r + text[|r|..];
    FindAllTrimmed(r, text[|r|..]);
  }

  /** Text up to a closing bracket is matched on its own. */
  lemma {:induction false} FindAllAfterBracket(text: string, more: string)
    requires text != "" && text[|text| - 1] == ']'
    ensures FindAll(text + more) == FindAll(text) + FindAll(more)
    decreases |text|
  {
    hide FindAll, Segment, Match, Closing;
    assert ']' in text;
    SegmentSplit(text);
    var k := Closing(text);
    var s, rest := text[..k + 1], text[k + 1..];
    FindAllBySegment(s, rest);
    assert text + more == s + (rest + more);
    FindAllBySegment(s, rest + more);
    if rest != "" {
      FindAllAfterBracket(rest, more);
    } else {
      assert rest + more == more;
      FindAllOpen("");
    }
  }

  lemma FindAllSkips(c: char, text: string)
    requires c != '['
    ensures FindAll([c] + text) == FindAll(text)
  {
    var whole := [c] + text;
    assert whole[1..] == text;
    assert Closing(whole) < |whole| ==> whole[..Closing(whole) + 1][0] == c;
  }

  lemma LabelShape(c: Context)
    ensures LabelOf(c) != "" && LabelOf(c)[|LabelOf(c)| - 1] == ']'
  {
  }

  /** All matches of some labels, one label after the other. */
  function FindEach(labels: seq<string>): seq<string> {
    if labels == [] then [] else FindAll(labels[0]) + FindEach(labels[1..])
  }

  lemma {:induction false} FindAllJoined(labels: seq<string>)
    requires forall i | 0 <= i < |labels| :: labels[i] != "" && labels[i][|labels[i]| - 1] == ']'
    ensures FindAll(Joined(labels)) == FindEach(labels)
    decreases |labels|
  {
    hide FindAll;
    if labels == [] {
      assert FindAll("") == [] by { FindAllOpen(""); }
    } else if |labels| == 1 {
      assert FindEach(labels[1..]) == [];
    } else {
      FindAllJoined(labels[1..]);
      FindAllAfterBracket(labels[0], " " + Joined(labels[1..]));
      FindAllSkips(' ', Joined(labels[1..]));
      assert labels[0] + " " + Joined(labels[1..]) == labels[0] + (" " + Joined(labels[1..]));
    }
  }

  lemma {:induction false} FindAllSources(text: string)
    ensures FindAll("Sources: " + text) == FindAll(text)
  {
    hide FindAll;
    var h := "Sources: ";
    var i := |h|;
    assert h[i..] + text == text;
    while i > 0
      invariant 0 <= i <= |h|
      invariant FindAll(h[i..] + text) == FindAll(text)
    {
      i := i - 1;
      assert h[i] != '[' && h[i..] + text == [h[i]] + (h[i + 1..] + text);
      FindAllSkips(h[i], h[i + 1..] + text);
    }
    assert h[0..] == h;
  }

  lemma FindAllSourced(text: string, labels: seq<string>)
    requires forall i | 0 <= i < |labels| :: labels[i] != "" && labels[i][|labels[i]| - 1] == ']'
    ensures FindAll(Sourced(text, labels)) == FindAll(text) + if Cites(text, labels) then [] else FindEach(FirstThree(labels))
  {
    hide FindAll, Cites, Stripped, Joined;
    if !Cites(text, labels) {
      var stripped, sources := Stripped(text), Joined(FirstThree(labels));
      assert stripped + HEADING + sources == stripped + ("\n" + ("\n" + ("Sources: " + sources)));
      assert "\n" + ("Sources: " + sources) == ['\n'] + ("Sources: " + sources);
      FindAllByLine(stripped, "\n" + ("Sources: " + sources));
      FindAllSkips('\n', "Sources: " + sources);
      FindAllSources(sources);
      FindAllJoined(FirstThree(labels));
      FindAllStripped(text);
    }
  }

  // ---------- what the endpoint promises ----------

  lemma FindEachHolds(labels: seq<string>)
    ensures forall m :: m in FindEach(labels) <==> exists i :: 0 <= i < |labels| && m in FindAll(labels[i])
  {
    hide FindAll;
    if labels != [] {
      FindEachHolds(labels[1..]);
      forall m ensures m in FindEach(labels) <==> exists i :: 0 <= i < |labels| && m in FindAll(labels[i]) {
        if m in FindEach(labels[1..]) {
          var i :| 0 <= i < |labels[1..]| && m in FindAll(labels[1..][i]);
          assert m in FindAll(labels[i + 1]);
        }
        if i :| 0 <= i < |labels| && m in FindAll(labels[i]) {
          if i > 0 {
            assert m in FindAll(labels[1..][i - 1]);
          }
        }
      }
    }
  }

  lemma InsufficientHasNoMatch()
    ensures FindAll(INSUFFICIENT) == []
  {
    hide FindAll;
    assert Open("Evidence insufficient: ") && Open("no indexed source ") && Open("matched the question.");
    FindAllOpen(INSUFFICIENT);
  }

  lemma SourcedMatches(text: string, labels: seq<string>, allowed: set<string>)
    requires forall i | 0 <= i < |labels| :: labels[i] != "" && labels[i][|labels[i]| - 1] == ']'
    requires forall l | l in FindAll(text) :: l in allowed
    ensures (forall l | l in FindAll(Sourced(text, labels)) :: l in allowed)
            <==> Cites(text, labels) || forall i | 0 <= i < |labels| && i < 3 :: forall m | m in FindAll(labels[i]) :: m in allowed
  {
    hide FindAll, Cites, Sourced, FindEach;
    var named := FirstThree(labels);
    FindAllSourced(text, labels);
    FindEachHolds(named);
    assert forall i | 0 <= i < |named| :: named[i] == labels[i];
  }

  /** Every match in the answer is the label of a context, exactly when the sanitised text already cites one or the labels
      named as sources hold no match besides labels of contexts. */
  lemma AnswerMatchesAreAllowed(generated: string, contexts: seq<Context>)
    ensures var allowed := Allowed(contexts);
            (forall l | l in FindAll(Composed(generated, contexts)) :: l in allowed)
            <==> contexts == [] || Cites(Sanitised(generated, allowed), LabelsOf(contexts))
                 || forall i | 0 <= i < |contexts| && i < 3 :: forall m | m in FindAll(LabelOf(contexts[i])) :: m in allowed
  {
    hide FindAll, Sanitised, Cites, Sourced, LabelOf;
    var allowed, labels := Allowed(contexts), LabelsOf(contexts);
    if contexts == [] {
      InsufficientHasNoMatch();
    } else {
      SanitisedMatchesAreAllowed(generated, allowed);
      forall i | 0 <= i < |labels| ensures labels[i] != "" && labels[i][|labels[i]| - 1] == ']' {
        LabelShape(contexts[i]);
      }
      SourcedMatches(Sanitised(generated, allowed), labels, allowed);
      assert forall i | 0 <= i < |contexts| :: labels[i] == LabelOf(contexts[i]);
      assert Composed(generated, contexts) == Sourced(Sanitised(generated, allowed), labels);
    }
  }

  predicate WellFormed(path: string) {
    path != "" && ']' !in path && '\n' !in path
  }

  /** A citation's label is one the pattern accepts exactly when its path is well-formed. */
  lemma LabelIsAccepted(c: Context)
    ensures IsLabel(LabelOf(c)) <==> WellFormed(c.path)
  {
    hide IsLabel, Decimal;
    if WellFormed(c.path) {
      ReferenceIsLabel(c.path, Decimal(c.startLine), Decimal(c.endLine));
    }
    if IsLabel(LabelOf(c)) {
      var path, s, e := LabelIsReference(LabelOf(c));
      Unbracketed(c.path, Decimal(c.startLine), Decimal(c.endLine));
      Unbracketed(path, s, e);
      SameTails(c.path + ":" + Decimal(c.startLine), path + ":" + s, Decimal(c.endLine), e, '-');
      SameTails(c.path, path, Decimal(c.startLine), s, ':');
    }
  }

  /** With well-formed paths every match in the answer is allowed, and an answer that has citations names one of them. */
  lemma AnswerIsGrounded(generated: string, contexts: seq<Context>)
    requires forall c | c in contexts :: WellFormed(c.path)
    ensures forall l | l in FindAll(Composed(generated, contexts)) :: l in Allowed(contexts)
    ensures contexts != [] ==> Cites(Composed(generated, contexts), LabelsOf(contexts))
  {
    hide FindAll, Sanitised, Stripped, LabelOf, IsLabel, WellFormed;
    AnswerMatchesAreAllowed(generated, contexts);
    forall i | 0 <= i < |contexts| ensures FindAll(LabelOf(contexts[i])) == [LabelOf(contexts[i])] {
      LabelIsAccepted(contexts[i]);
      LabelFindsItself(LabelOf(contexts[i]));
    }
    if contexts != [] {
      SourcesAreCited(Sanitised(generated, Allowed(contexts)), LabelsOf(contexts));
    }
  }

  lemma SourcesAreCited(text: string, labels: seq<string>)
    requires labels != []
    ensures Cites(Sourced(text, labels), labels)
  {
    if !Cites(text, labels) {
      var front := Stripped(text) + HEADING;
      var named := FirstThree(labels);
      var whole := front + Joined(named);
      assert named[0] == labels[0] && Joined(named)[..|labels[0]|] == labels[0];
      assert whole[|front|..|front| + |labels[0]|] == labels[0];
      assert OccursAt(whole, labels[0], |front|);
      assert Contains(whole, labels[0]);
    }
  }

  /** Brackets inside a path defeat it: the label of this one source holds a match that is nobody's label. */
  lemma BracketsInPathsLeak(c: Context)
    requires c.path == "x][y" && c.startLine == 1 && c.endLine == 2
    ensures exists l :: l in FindAll(Composed("", [c])) && l !in Allowed([c])
  {
    hide FindAll, Composed, IsLabel, Cites, Sanitised;
    var m := "[y:1-2]";
    LeakyLabel(c);
    assert m !in Allowed([c]);
    assert m in FindAll(LabelOf([c][0]));
    NothingToSanitise(Allowed([c]));
    NothingCites(LabelOf(c));
    assert LabelsOf([c]) == [LabelOf(c)];
    AnswerMatchesAreAllowed("", [c]);
    assert !Cites(Sanitised("", Allowed([c])), LabelsOf([c]));
  }

  lemma LeakyLabel(c: Context)
    requires c.path == "x][y" && c.startLine == 1 && c.endLine == 2
    ensures LabelOf(c) == "[x][y:1-2]" && "[y:1-2]" in FindAll(LabelOf(c))
  {
    hide FindAll, IsLabel;
    assert Decimal(1) == "1" && Decimal(2) == "2";
    var m := "[y:1-2]";
    assert LabelOf(c) == "[x]" + m;
    FindAllAfterBracket("[x]", m);
    YIsALabel();
    LabelFindsItself(m);
  }

  lemma YIsALabel()
    ensures IsLabel("[y:1-2]")
  {
    var l, body := "[y:1-2]", "y:1-2";
    assert |l| == 7;
    assert l[1..|l| - 1] == body;
    assert body[2..3] == "1" && body[4..] == "2";
    assert Reference(body, 1, 3);
  }

  lemma NothingToSanitise(allowed: set<string>)
    ensures Sanitised("", allowed) == ""
  {
    assert FindAll("") == [] && Disallowed([], allowed) == [];
    PurgeNothing("");
  }

  lemma NothingCites(l: string)
    requires l != ""
    ensures !Cites("", [l])
  {
  }

  lemma {:induction false} LabelsFindThemselves(labels: seq<string>)
    requires forall i | 0 <= i < |labels| :: FindAll(labels[i]) == [labels[i]]
    ensures FindEach(labels) == labels
    decreases |labels|
  {
    hide FindAll;
    if labels != [] {
      LabelsFindThemselves(labels[1..]);
    }
  }

  /** With well-formed paths: a text that cites a context is the answer; any other is followed by the labels of the first
      three contexts, or of all if there are fewer, and of nothing else. */
  lemma SourcesAreNamed(generated: string, contexts: seq<Context>)
    requires contexts != [] && forall c | c in contexts :: WellFormed(c.path)
    ensures var text, answer := Sanitised(generated, Allowed(contexts)), Composed(generated, contexts);
            if Cites(text, LabelsOf(contexts)) then answer == text
            else
              var named := LabelsOf(contexts)[..if |contexts| < 3 then |contexts| else 3];
              answer == Stripped(text) + "\n\nSources: " + Joined(named) && FindAll(answer) == FindAll(text) + named
  {
    hide FindAll, Sanitised, Stripped, LabelOf, IsLabel, WellFormed, Cites, FindEach;
    var text, labels := Sanitised(generated, Allowed(contexts)), LabelsOf(contexts);
    forall i | 0 <= i < |labels| ensures labels[i] != "" && labels[i][|labels[i]| - 1] == ']' && FindAll(labels[i]) == [labels[i]] {
      LabelShape(contexts[i]);
      LabelIsAccepted(contexts[i]);
      LabelFindsItself(labels[i]);
    }
    FindAllSourced(text, labels);
    LabelsFindThemselves(FirstThree(labels));
    assert FirstThree(labels) == labels[..if |contexts| < 3 then |contexts| else 3];
    assert HEADING == "\n\nSources: ";
  }
}
