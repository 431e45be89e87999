/** Citation labels in generated text: what the pattern finds, and what the find-all and replace-all loop leaves. */
module Citations {

  const REMOVED := "[unverified citation removed]"

  predicate Digits(text: string) {
    text != "" && forall i :: 0 <= i < |text| ==> '0' <= text[i] <= '9'
  }

  /** body is a nonempty path, a colon, digits, a dash and digits. */
  predicate Reference(body: string, colon: nat, dash: nat) {
    && 0 < colon < dash < |body|
    && body[colon] == ':' && body[dash] == '-'
    && Digits(body[colon + 1..dash]) && Digits(body[dash + 1..])
  }

  predicate IsReference(body: string) {
    exists colon, dash | 0 < colon < |body| && 0 < dash < |body| :: Reference(body, colon, dash)
  }

  /** The strings the pattern \[[^\]\n]+:\d+-\d+\] matches in full. */
  predicate IsLabel(t: string) {
    && |t| >= 2 && t[0] == '[' && t[|t| - 1] == ']'
    && (forall i :: 0 < i < |t| - 1 ==> t[i] != ']' && t[i] != '\n')
    && IsReference(t[1..|t| - 1])
  }

  /** The position of the first closing bracket, or the length. */
  /** The pattern read forwards: a path without closing brackets and line breaks, a colon, digits, a dash and digits, all in
      brackets. */
  lemma ReferenceIsLabel(path: string, s: string, e: string)
    requires path != "" && ']' !in path && '\n' !in path && Digits(s) && Digits(e)
    ensures IsLabel("[" + path + ":" + s + "-" + e + "]")
  {
    var t := "[" + path + ":" + s + "-" + e + "]";
    var body := path + ":" + s + "-" + e;
    assert t[1..|t| - 1] == body;
    BodyParts(path, s, e);
    assert Reference(body, |path|, |path| + 1 + |s|);
    forall i | 0 < i < |t| - 1 ensures t[i] != ']' && t[i] != '\n' {
      assert t[i] == body[i - 1];
      PlainBody(path, s, e, i - 1);
    }
  }

  /** And every label is of that form. */
  lemma LabelIsReference(t: string) returns (path: string, s: string, e: string)
    requires IsLabel(t)
    ensures t == "[" + path + ":" + s + "-" + e + "]"
    ensures path != "" && ']' !in path && '\n' !in path && Digits(s) && Digits(e)
  {
    hide Digits;
    var body := t[1..|t| - 1];
    var colon, dash :| 0 < colon < |body| && 0 < dash < |body| && Reference(body, colon, dash);
    path, s, e := body[..colon], body[colon + 1..dash], body[dash + 1..];
    CutAt(body, colon, dash);
    InBrackets(t, path, ":" + s + "-" + e);
    Regrouped(path, s, e);
  }

  lemma Associative(a: string, b: string, c: string)
    ensures a + (b + c) == a + b + c
  {
  }

  lemma Regrouped(path: string, s: string, e: string)
    ensures "[" + (path + (":" + s + "-" + e)) + "]" == "[" + path + ":" + s + "-" + e + "]"
  {
    Associative(path, ":" + s + "-", e);
    Associative(path, ":" + s, "-");
    Associative(path, ":", s);
    Associative("[", path + ":" + s + "-", e);
    Associative("[", path + ":" + s, "-");
    Associative("[", path + ":", s);
    Associative("[", path, ":");
  }

  lemma CutAt(body: string, colon: nat, dash: nat)
    requires colon < dash < |body| && body[colon] == ':' && body[dash] == '-'
    ensures body == body[..colon] + (":" + body[colon + 1..dash] + "-" + body[dash + 1..])
  {
    assert body[colon..dash] == ":" + body[colon + 1..dash];
    assert body[dash..] == "-" + body[dash + 1..];
    assert body == body[..colon] + (body[colon..dash] + body[dash..]);
  }

  lemma InBrackets(t: string, path: string, rest: string)
    requires |t| >= 2 && t[0] == '[' && t[|t| - 1] == ']' && t[1..|t| - 1] == path + rest
    requires forall i :: 0 < i < |t| - 1 ==> t[i] != ']' && t[i] != '\n'
    ensures t == "[" + (path + rest) + "]" && ']' !in path && '\n' !in path
  {
    assert t == [t[0]] + t[1..|t| - 1] + [t[|t| - 1]];
    assert forall i | 0 <= i < |path| :: path[i] == t[1..|t| - 1][i] == t[i + 1];
  }

  lemma BodyParts(path: string, s: string, e: string)
    ensures var body, dash := path + ":" + s + "-" + e, |path| + 1 + |s|;
            && body[|path|] == ':' && body[|path| + 1..dash] == s && body[dash] == '-' && body[dash + 1..] == e
  {
    var body, dash := path + ":" + s + "-" + e, |path| + 1 + |s|;
    assert body == (path + ":" + s) + ("-" + e);
    assert body[dash + 1..] == ("-" + e)[1..] == e;
    assert body[..dash] == path + ":" + s;
    assert body[|path| + 1..dash] == body[..dash][|path| + 1..] == s;
  }

  lemma PlainBody(path: string, s: string, e: string, i: nat)
    requires ']' !in path && '\n' !in path && Digits(s) && Digits(e) && i < |path + ":" + s + "-" + e|
    ensures var body := path + ":" + s + "-" + e; body[i] != ']' && body[i] != '\n'
  {
    assert i < |path| ==> (path + ":" + s + "-" + e)[i] == path[i];
  }

  function Closing(text: string): (k: nat)
    ensures k <= |text|
    ensures forall i :: 0 <= i < k ==> text[i] != ']'
    ensures k < |text| ==> text[k] == ']'
  {
    if text == "" || text[0] == ']' then 0 else 1 + Closing(text[1..])
  }

  /** re.findall: leftmost matches that do not overlap. A match can only end at the first closing bracket after its start. */
  function FindAll(text: string): seq<string>
    decreases |text|
  {
    if text == "" then []
    else
      var k := Closing(text);
      if k < |text| && IsLabel(text[..k + 1]) then [text[..k + 1]] + FindAll(text[k + 1..]) else FindAll(text[1..])
  }

  /** str.replace for a tag that is not empty, as no label is: leftmost occurrences that do not overlap. */
  function Replace(text: string, tag: string): string
    decreases |text|
  {
    if tag == "" || |text| < |tag| then text
    else if text[..|tag|] == tag then REMOVED + Replace(text[|tag|..], tag)
    else [text[0]] + Replace(text[1..], tag)
  }

  ghost predicate Ends(text: string, suffix: string) {
    |suffix| <= |text| && text[|text| - |suffix|..] == suffix
  }

  // ---------- text by segments, each up to a closing bracket ----------

  /** A stretch of text with one closing bracket, its last character. */
  ghost predicate Segment(s: string) {
    s != "" && s[|s| - 1] == ']' && forall i :: 0 <= i < |s| - 1 ==> s[i] != ']'
  }

  ghost predicate Open(text: string) {
    ']' !in text
  }

  /** The match that ends a segment, if any: its longest suffix that is a label. */
  ghost function Match(s: string): (found: seq<string>)
    ensures |found| <= 1
    ensures forall l | l in found :: IsLabel(l) && Ends(s, l)
  {
    if s == "" then [] else if IsLabel(s) then [s] else Match(s[1..])
  }

  lemma {:induction false} LongestLabelMatches(s: string, l: string)
    requires IsLabel(l) && Ends(s, l)
    ensures |Match(s)| == 1 && Ends(Match(s)[0], l)
    decreases |s|
  {
    if !IsLabel(s) {
      assert s != l;
      LongestLabelMatches(s[1..], l);
    }
  }

  lemma ClosingOf(s: string, rest: string)
    requires Segment(s)
    ensures Closing(s + rest) == |s| - 1 && (s + rest)[..|s|] == s && (s + rest)[|s|..] == rest
    decreases |s|
  {
    if s[0] != ']' {
      assert (s + rest)[1..] == s[1..] + rest;
      ClosingOf(s[1..], rest);
    }
  }

  lemma {:induction false} FindAllBySegment(s: string, rest: string)
    requires Segment(s)
    ensures FindAll(s + rest) == Match(s) + FindAll(rest)
    decreases |s|
  {
    ClosingOf(s, rest);
    if !IsLabel(s) {
      assert (s + rest)[1..] == s[1..] + rest;
      if |s| > 1 {
        FindAllBySegment(s[1..], rest);
      }
    }
  }

  lemma {:induction false} FindAllOpen(text: string)
    requires Open(text)
    ensures FindAll(text) == []
    decreases |text|
  {
    if text != "" {
      FindAllOpen(text[1..]);
    }
  }

  lemma LabelIsSegment(l: string)
    requires IsLabel(l)
    ensures Segment(l)
  {
  }

  /** An occurrence of a label at the front of a segment is the whole segment. */
  lemma LabelAtFront(s: string, rest: string, l: string)
    requires Segment(s) && Segment(l)
    ensures |l| <= |s + rest| && (s + rest)[..|l|] == l <==> s == l
  {
    if |l| <= |s + rest| && (s + rest)[..|l|] == l {
      assert forall i | 0 <= i < |l| :: (s + rest)[i] == l[i];
      assert (s + rest)[|s| - 1] == ']' && l[|l| - 1] == ']';
    }
  }

  /** The segment after replacing a label: its end goes, or nothing changes. */
  ghost function Purged(s: string, l: string): string {
    if Ends(s, l) then s[..|s| - |l|] + REMOVED else s
  }

  lemma PurgedStep(s: string, l: string)
    requires |s| > 1 && s != l && l != ""
    ensures Purged(s, l) == [s[0]] + Purged(s[1..], l)
  {
    assert Ends(s, l) <==> Ends(s[1..], l);
    assert s == [s[0]] + s[1..];
    if Ends(s, l) {
      assert s[..|s| - |l|] == [s[0]] + s[1..][..|s| - 1 - |l|];
    }
  }

  lemma ReplaceMatch(text: string, l: string)
    requires l != "" && |l| <= |text| && text[..|l|] == l
    ensures Replace(text, l) == REMOVED + Replace(text[|l|..], l)
  {
  }

  lemma ReplaceSkip(text: string, l: string)
    requires l != "" && |l| <= |text| && text[..|l|] != l
    ensures Replace(text, l) == [text[0]] + Replace(text[1..], l)
  {
  }

  lemma {:induction false} ReplaceBySegment(s: string, rest: string, l: string)
    requires Segment(s) && Segment(l)
    ensures Replace(s + rest, l) == Purged(s, l) + Replace(rest, l)
    decreases |s|
  {
    hide Ends, Replace;
    LabelAtFront(s, rest, l);
    if s == l {
      ReplaceMatch(s + rest, l);
      assert (s + rest)[|l|..] == rest;
      assert Purged(s, l) == REMOVED by { PurgedWhole(l); }
    } else if |s + rest| < |l| {
      ReplaceShort(rest, l);
      ReplaceShort(s + rest, l);
      assert Purged(s, l) == s by { PurgedShort(s, l); }
    } else {
      ReplaceSkip(s + rest, l);
      assert (s + rest)[0] == s[0] && (s + rest)[1..] == s[1..] + rest;
      if |s| > 1 {
        ReplaceBySegment(s[1..], rest, l);
        PurgedStep(s, l);
      } else {
        assert Purged(s, l) == s by { PurgedShort(s, l); }
        assert s[1..] + rest == rest;
      }
    }
  }

  lemma PurgedWhole(l: string)
    ensures Purged(l, l) == REMOVED
  {
    assert l[..0] == "";
  }

  lemma PurgedShort(s: string, l: string)
    requires |s| < |l| || (Segment(s) && Segment(l) && |s| == 1 && s != l)
    ensures Purged(s, l) == s
  {
  }

  lemma ReplaceShort(text: string, l: string)
    requires l != "" && |text| < |l|
    ensures Replace(text, l) == text
  {
  }

  lemma {:induction false} ReplaceOpen(text: string, l: string)
    requires Open(text) && Segment(l)
    ensures Replace(text, l) == text
    decreases |text|
  {
    if |text| >= |l| {
      assert text[..|l|][|l| - 1] != ']';
      ReplaceOpen(text[1..], l);
    }
  }

  // ---------- the sanitising loop ----------

  /** Replacing every bad label in turn. */
  function Purge(text: string, bad: seq<string>): string
    decreases |bad|
  {
    if bad == [] then text else Purge(Replace(text, bad[0]), bad[1..])
  }

  ghost function PurgedAll(s: string, bad: seq<string>): string
    decreases |bad|
  {
    if bad == [] then s else PurgedAll(Purged(s, bad[0]), bad[1..])
  }

  ghost predicate Labels(bad: seq<string>) {
    forall l | l in bad :: IsLabel(l)
  }

  lemma LabelEndsInDigit(text: string, l: string)
    requires IsLabel(l) && Ends(text, l)
    ensures |text| >= 3 && '0' <= text[|text| - 2] <= '9'
  {
    var body := l[1..|l| - 1];
    var colon, dash :| 0 < colon < |body| && 0 < dash < |body| && Reference(body, colon, dash);
    assert body[|body| - 1] == body[dash + 1..][|body| - dash - 2];
    assert text[|text| - 2] == l[|l| - 2];
  }

  /** The marker ends like a segment but never like a label. */
  lemma RemovedIsNoLabel(prefix: string, l: string)
    requires IsLabel(l)
    ensures !Ends(prefix + REMOVED, l)
  {
    var text := prefix + REMOVED;
    assert text[|text| - 2] == REMOVED[|REMOVED| - 2] == 'd';
    if Ends(text, l) {
      LabelEndsInDigit(text, l);
    }
  }

  lemma PurgedIsUnlabelled(s: string, l: string)
    requires Ends(s, l)
    ensures forall m | IsLabel(m) :: !Ends(Purged(s, l), m)
  {
    forall m | IsLabel(m) ensures !Ends(Purged(s, l), m) {
      RemovedIsNoLabel(s[..|s| - |l|], m);
    }
  }

  lemma PurgedSegment(s: string, l: string)
    requires Segment(s) && IsLabel(l)
    ensures Segment(Purged(s, l))
  {
  }

  /** A purged segment is either untouched, and then it ended with no bad label, or ends with no label at all. */
  lemma {:induction false} PurgedAllOutcome(s: string, bad: seq<string>)
    requires Segment(s) && Labels(bad)
    ensures Segment(PurgedAll(s, bad))
    ensures PurgedAll(s, bad) == s || forall l | IsLabel(l) :: !Ends(PurgedAll(s, bad), l)
    ensures PurgedAll(s, bad) == s ==> forall l | l in bad :: !Ends(s, l)
    decreases |bad|
  {
    hide Ends, IsLabel, Segment;
    if bad != [] {
      var t := Purged(s, bad[0]);
      assert IsLabel(bad[0]);
      PurgedSegment(s, bad[0]);
      PurgedAllOutcome(t, bad[1..]);
      if Ends(s, bad[0]) {
        PurgedIsUnlabelled(s, bad[0]);
        assert t != s;
        Unlabelled(t, bad[1..]);
      }
    }
  }

  /** A segment that ends with no label stays as it is. */
  lemma {:induction false} Unlabelled(s: string, bad: seq<string>)
    requires Labels(bad) && forall l | IsLabel(l) :: !Ends(s, l)
    ensures PurgedAll(s, bad) == s
    decreases |bad|
  {
    hide Ends, IsLabel;
    if bad != [] {
      assert IsLabel(bad[0]);
      Unlabelled(s, bad[1..]);
    }
  }

  lemma {:induction false} PurgeBySegment(s: string, rest: string, bad: seq<string>)
    requires Segment(s) && Labels(bad)
    ensures Purge(s + rest, bad) == PurgedAll(s, bad) + Purge(rest, bad)
    decreases |bad|
  {
    hide Segment, Replace, Purged, IsLabel;
    forall l | l in bad ensures Segment(l) {
      LabelIsSegment(l);
    }
    if bad != [] {
      ReplaceBySegment(s, rest, bad[0]);
      PurgedSegment(s, bad[0]);
      PurgeBySegment(Purged(s, bad[0]), Replace(rest, bad[0]), bad[1..]);
    }
  }

  lemma {:induction false} PurgeOpen(text: string, bad: seq<string>)
    requires Open(text) && Labels(bad)
    ensures Purge(text, bad) == text
    decreases |bad|
  {
    hide Open, Replace, IsLabel;
    forall l | l in bad ensures Segment(l) {
      LabelIsSegment(l);
    }
    if bad != [] {
      ReplaceOpen(text, bad[0]);
      PurgeOpen(text, bad[1..]);
    }
  }

  /** A text is open, or a segment and the text after it. */
  lemma SegmentSplit(text: string)
    requires !Open(text)
    ensures var k := Closing(text); k < |text| && Segment(text[..k + 1]) && text == text[..k + 1] + text[k + 1..]
  {
    hide Closing, Open, Segment;
    ClosingIsFound(text);
    FrontIsSegment(text, Closing(text));
  }

  lemma FrontIsSegment(text: string, k: nat)
    requires k < |text| && text[k] == ']' && forall i :: 0 <= i < k ==> text[i] != ']'
    ensures Segment(text[..k + 1])
  {
  }

  lemma ClosingIsFound(text: string)
    requires !Open(text)
    ensures Closing(text) < |text|
  {
    hide Closing;
    var i :| 0 <= i < |text| && text[i] == ']';
    assert Closing(text) <= i;
  }

  predicate OccursAt(text: string, l: string, i: nat) {
    i + |l| <= |text| && text[i..i + |l|] == l
  }

  predicate Contains(text: string, part: string) {
    exists i | 0 <= i <= |text| :: OccursAt(text, part, i)
  }

  /** l occurs in text and is a label. */
  ghost predicate HasLabel(text: string, l: string) {
    IsLabel(l) && Contains(text, l)
  }

  lemma OccurrenceBySegment(s: string, rest: string, l: string, i: nat)
    requires Segment(s) && Segment(l) && OccursAt(s + rest, l, i)
    ensures if i < |s| then Ends(s, l) else OccursAt(rest, l, i - |s|)
  {
    var text, e := s + rest, i + |l| - 1;
    assert forall k | 0 <= k < |l| :: text[i + k] == l[k];
    if i < |s| {
      assert text[e] == l[|l| - 1] == ']';
      assert text[|s| - 1] == ']';
      assert e >= |s| - 1;
      var k := |s| - 1 - i;
      assert text[i + k] == ']' && (k < |l| ==> l[k] == ']');
      assert s[|s| - |l|..] == l;
    } else {
      assert rest[i - |s|..i - |s| + |l|] == l;
    }
  }

  /** A label in a text ends its first segment or lies in the rest. */
  lemma LabelBySegment(s: string, rest: string, l: string)
    requires Segment(s) && IsLabel(l)
    ensures HasLabel(s + rest, l) <==> Ends(s, l) || HasLabel(rest, l)
  {
    LabelIsSegment(l);
    hide IsLabel, Segment;
    var text := s + rest;
    if HasLabel(text, l) {
      var i :| 0 <= i <= |text| && OccursAt(text, l, i);
      OccurrenceBySegment(s, rest, l, i);
    }
    if Ends(s, l) {
      assert text[|s| - |l|..|s| - |l| + |l|] == l;
      assert OccursAt(text, l, |s| - |l|);
    }
    if HasLabel(rest, l) {
      var i :| 0 <= i <= |rest| && OccursAt(rest, l, i);
      assert text[|s| + i..|s| + i + |l|] == l;
      assert OccursAt(text, l, |s| + i);
    }
  }

  lemma LabelsAreClosed(text: string, l: string)
    requires HasLabel(text, l)
    ensures !Open(text)
  {
    var i :| 0 <= i <= |text| && OccursAt(text, l, i);
    assert text[i + |l| - 1] == l[|l| - 1];
  }

  /** Everything the loop removes is a label, and it removes every match that is not allowed. */
  ghost predicate Covers(bad: seq<string>, allowed: set<string>, found: seq<string>) {
    Labels(bad) && forall l | l in found :: l in allowed || l in bad
  }

  /** Purging the disallowed matches leaves allowed matches only, all of them matches of the original text. */
  lemma {:induction false} PurgedMatchesAreAllowed(text: string, bad: seq<string>, allowed: set<string>)
    requires Covers(bad, allowed, FindAll(text)) && forall l | l in bad :: l !in allowed
    ensures forall l | l in FindAll(Purge(text, bad)) :: l in allowed && l in FindAll(text)
    decreases |text|
  {
    hide Purge, FindAll, Match, PurgedAll, Ends, IsLabel, Segment, Open, Closing;
    if Open(text) {
      PurgeOpen(text, bad);
      FindAllOpen(text);
    } else {
      SegmentSplit(text);
      var k := Closing(text);
      var s, rest := text[..k + 1], text[k + 1..];
      FindAllBySegment(s, rest);
      PurgedMatchesAreAllowed(rest, bad, allowed);
      PurgeBySegment(s, rest, bad);
      PurgedAllOutcome(s, bad);
      FindAllBySegment(PurgedAll(s, bad), Purge(rest, bad));
    }
  }

  /** And every label left in it, matched or not, occurred in the original text and is a suffix of an allowed match. */
  lemma {:induction false} PurgedLabelsAreSuffixes(text: string, bad: seq<string>, allowed: set<string>, l: string)
    requires Covers(bad, allowed, FindAll(text)) && forall b | b in bad :: b !in allowed
    requires HasLabel(Purge(text, bad), l)
    ensures HasLabel(text, l) && exists m :: m in FindAll(text) && m in allowed && Ends(m, l)
    decreases |text|
  {
    hide Purge, FindAll, Match, PurgedAll, Ends, IsLabel, Segment, Open, Closing, OccursAt;
    if Open(text) {
      PurgeOpen(text, bad);
      LabelsAreClosed(text, l);
    } else {
      SegmentSplit(text);
      var k := Closing(text);
      var s, rest := text[..k + 1], text[k + 1..];
      FindAllBySegment(s, rest);
      PurgeBySegment(s, rest, bad);
      PurgedAllOutcome(s, bad);
      LabelBySegment(PurgedAll(s, bad), Purge(rest, bad), l);
      LabelBySegment(s, rest, l);
      if HasLabel(Purge(rest, bad), l) {
        PurgedLabelsAreSuffixes(rest, bad, allowed, l);
      } else {
        LongestLabelMatches(s, l);
        assert Match(s)[0] in FindAll(text);
        assert Ends(s, Match(s)[0]);
      }
    }
  }

  function Disallowed(found: seq<string>, allowed: set<string>): (bad: seq<string>)
    ensures forall l :: l in bad <==> l in found && l !in allowed
  {
    if found == [] then []
    else (if found[0] in allowed then [] else [found[0]]) + Disallowed(found[1..], allowed)
  }

  function Sanitised(text: string, allowed: set<string>): string {
    Purge(text, Disallowed(FindAll(text), allowed))
  }

  method Sanitise(generated: string, allowed: set<string>) returns (text: string)
    ensures text == Sanitised(generated, allowed)
  {
    hide Replace, FindAll;
    text := generated;
    var found := FindAll(generated);
    for i := 0 to |found|
      invariant Purge(text, Disallowed(found[i..], allowed)) == Sanitised(generated, allowed)
    {
      assert found[i..][1..] == found[i + 1..];
      assert Disallowed(found[i..], allowed) == (if found[i] in allowed then [] else [found[i]]) + Disallowed(found[i + 1..], allowed);
      if found[i] !in allowed {
        assert ([found[i]] + Disallowed(found[i + 1..], allowed))[1..] == Disallowed(found[i + 1..], allowed);
        text := Replace(text, found[i]);
      } else {
        assert [] + Disallowed(found[i + 1..], allowed) == Disallowed(found[i + 1..], allowed);
      }
    }
  }

  lemma {:induction false} MatchesAreLabels(text: string)
    ensures Labels(FindAll(text))
    decreases |text|
  {
    hide IsLabel, Closing;
    if text != "" {
      var k := Closing(text);
      MatchesAreLabels(text[1..]);
      if k < |text| {
        MatchesAreLabels(text[k + 1..]);
      }
    }
  }

  /** Whatever the generator wrote, the pattern finds allowed labels only afterwards, and none that it did not find before:
      a replacement creates no label. */
  lemma SanitisedMatchesAreAllowed(text: string, allowed: set<string>)
    ensures forall l | l in FindAll(Sanitised(text, allowed)) :: l in allowed && l in FindAll(text)
  {
    hide Purge, FindAll, IsLabel;
    MatchesAreLabels(text);
    PurgedMatchesAreAllowed(text, Disallowed(FindAll(text), allowed), allowed);
  }

  /** Every label that ends an allowed label is allowed too. It holds when no allowed label has a bracket inside. */
  ghost predicate SuffixClosed(allowed: set<string>) {
    forall m, l | m in allowed && IsLabel(m) && IsLabel(l) && Ends(m, l) :: l in allowed
  }

  /** Matches aside, every substring of the sanitised text that the pattern accepts is allowed, for every text, exactly when
      the allowed labels are closed under label suffixes. */
  lemma SanitisedLabelsAreAllowed(allowed: set<string>)
    ensures (forall text: string, l: string | HasLabel(Sanitised(text, allowed), l) :: l in allowed) <==> SuffixClosed(allowed)
  {
    hide Purge, FindAll, IsLabel, Ends, Contains, Replace;
    if SuffixClosed(allowed) {
      forall text: string, l: string | HasLabel(Sanitised(text, allowed), l) ensures l in allowed {
        MatchesAreLabels(text);
        PurgedLabelsAreSuffixes(text, Disallowed(FindAll(text), allowed), allowed, l);
      }
    } else {
      var m, l :| m in allowed && IsLabel(m) && IsLabel(l) && Ends(m, l) && l !in allowed;
      LabelFindsItself(m);
      assert Disallowed([m], allowed) == [];
      assert Sanitised(m, allowed) == m by { PurgeNothing(m); }
      SuffixOccurs(m, l);
      assert HasLabel(Sanitised(m, allowed), l);
    }
  }

  lemma PurgeNothing(text: string)
    ensures Purge(text, []) == text
  {
  }

  lemma SuffixOccurs(text: string, l: string)
    requires Ends(text, l)
    ensures Contains(text, l)
  {
    assert text[|text| - |l|..|text| - |l| + |l|] == l;
    assert OccursAt(text, l, |text| - |l|);
  }

  lemma LabelFindsItself(l: string)
    requires IsLabel(l)
    ensures FindAll(l) == [l]
  {
    LabelIsSegment(l);
    FindAllBySegment(l, "");
    assert l + "" == l && FindAll("") == [];
  }

  /** An instance: the allowed label [[a:1-2] shields the label [a:1-2] inside it, which nobody allowed. */
  lemma InnerLabelSurvives()
    ensures HasLabel(Sanitised("[[a:1-2]", {"[[a:1-2]"}), "[a:1-2]") && FindAll("[[a:1-2]") == ["[[a:1-2]"]
  {
    hide Purge, FindAll;
    var outer, inner := "[[a:1-2]", "[a:1-2]";
    OuterAndInnerAreLabels();
    LabelFindsItself(outer);
    assert Disallowed([outer], {outer}) == [];
    PurgeNothing(outer);
    assert Sanitised(outer, {outer}) == outer;
    assert outer[1..] == inner;
    SuffixOccurs(outer, inner);
  }

  lemma OuterAndInnerAreLabels()
    ensures IsLabel("[[a:1-2]") && IsLabel("[a:1-2]")
  {
    var outer, inner := "[[a:1-2]", "[a:1-2]";
    assert |outer| == 8 && |inner| == 7;
    assert outer[1..|outer| - 1] == "[a:1-2" && inner[1..|inner| - 1] == "a:1-2";
    assert "[a:1-2"[3..4] == "1" && "[a:1-2"[5..] == "2";
    assert "a:1-2"[2..3] == "1" && "a:1-2"[4..] == "2";
    assert Reference("[a:1-2", 2, 4) && Reference("a:1-2", 1, 3);
  }

  lemma InnerBracketsSuffice(allowed: set<string>)
    requires forall m, i | m in allowed && 0 < i < |m| :: m[i] != '['
    ensures SuffixClosed(allowed)
  {
    forall m, l | m in allowed && IsLabel(m) && IsLabel(l) && Ends(m, l) ensures l in allowed {
      assert m[|m| - |l|] == l[0];
      assert |l| == |m|;
    }
  }

  // ---------- what sanitising leaves in place ----------

  function Kept(found: seq<string>, allowed: set<string>): (kept: seq<string>)
    ensures forall l | l in kept :: l in found && l in allowed
  {
    if found == [] then [] else (if found[0] in allowed then [found[0]] else []) + Kept(found[1..], allowed)
  }

  lemma {:induction false} KeptInParts(a: seq<string>, b: seq<string>, allowed: set<string>)
    ensures Kept(a + b, allowed) == Kept(a, allowed) + Kept(b, allowed)
    decreases |a|
  {
    if a == [] {
      assert a + b == b;
    } else {
      assert (a + b)[1..] == a[1..] + b;
      KeptInParts(a[1..], b, allowed);
    }
  }

  /** No match that is allowed ends in a label that is to be removed. */
  ghost predicate Unharmed(bad: seq<string>, allowed: set<string>, found: seq<string>) {
    forall m, b | m in found && m in allowed && b in bad :: !Ends(m, b)
  }

  lemma {:induction false} UntouchedSegment(s: string, bad: seq<string>)
    requires forall b | b in bad :: !Ends(s, b)
    ensures PurgedAll(s, bad) == s
    decreases |bad|
  {
    hide Ends;
    if bad != [] {
      UntouchedSegment(s, bad[1..]);
    }
  }

  lemma NoMatch(s: string)
    requires forall l | IsLabel(l) :: !Ends(s, l)
    ensures Match(s) == []
  {
    MatchEnds(s);
  }

  lemma MatchEnds(s: string)
    ensures Match(s) != [] ==> IsLabel(Match(s)[0]) && Ends(s, Match(s)[0])
  {
    hide IsLabel, Ends;
    assert Match(s) != [] ==> Match(s)[0] in Match(s);
  }

  lemma PurgedMatch(s: string, bad: seq<string>, allowed: set<string>)
    requires Segment(s) && Covers(bad, allowed, Match(s)) && Unharmed(bad, allowed, Match(s))
    requires forall b | b in bad :: b !in allowed
    ensures Match(PurgedAll(s, bad)) == Kept(Match(s), allowed)
  {
    hide Ends, IsLabel, Segment, Match;
    PurgedAllOutcome(s, bad);
    if Match(s) == [] {
      forall l | IsLabel(l) ensures !Ends(s, l) {
        if Ends(s, l) {
          LongestLabelMatches(s, l);
        }
      }
      Unlabelled(s, bad);
    } else {
      var m := Match(s)[0];
      assert Match(s) == [m] && IsLabel(m) && Ends(s, m);
      if m in allowed {
        forall b | b in bad ensures !Ends(s, b) {
          if Ends(s, b) {
            LongestLabelMatches(s, b);
          }
        }
        UntouchedSegment(s, bad);
      } else {
        NoMatch(PurgedAll(s, bad));
      }
    }
  }

  lemma {:induction false} PurgedMatches(text: string, bad: seq<string>, allowed: set<string>)
    requires Covers(bad, allowed, FindAll(text)) && Unharmed(bad, allowed, FindAll(text))
    requires forall b | b in bad :: b !in allowed
    ensures FindAll(Purge(text, bad)) == Kept(FindAll(text), allowed)
    decreases |text|
  {
    hide Purge, FindAll, Match, PurgedAll, Ends, IsLabel, Segment, Open, Closing, Kept;
    if Open(text) {
      PurgeOpen(text, bad);
      FindAllOpen(text);
      NothingKept(allowed);
    } else {
      SegmentSplit(text);
      var k := Closing(text);
      var s, rest := text[..k + 1], text[k + 1..];
      FindAllBySegment(s, rest);
      PurgedMatches(rest, bad, allowed);
      PurgedMatch(s, bad, allowed);
      PurgeBySegment(s, rest, bad);
      PurgedAllOutcome(s, bad);
      FindAllBySegment(PurgedAll(s, bad), Purge(rest, bad));
      KeptInParts(Match(s), FindAll(rest), allowed);
    }
  }

  lemma NothingKept(allowed: set<string>)
    ensures Kept([], allowed) == []
  {
  }

  lemma OneKept(m: string, l: string, allowed: set<string>)
    requires m in allowed && l !in allowed
    ensures Kept([m, l], allowed) == [m] && Disallowed([m, l], allowed) == [l]
  {
    assert [m, l][1..] == [l] && [l][1..] == [];
    assert Kept([l], allowed) == [] && Disallowed([l], allowed) == [l];
  }

  lemma Survivors(text: string, allowed: set<string>)
    requires SuffixClosed(allowed)
    ensures FindAll(Sanitised(text, allowed)) == Kept(FindAll(text), allowed)
  {
    hide Purge, FindAll, IsLabel, Ends, Kept, Replace;
    MatchesAreLabels(text);
    PurgedMatches(text, Disallowed(FindAll(text), allowed), allowed);
  }

  /** Sanitising removes the matches that are not allowed and keeps all others in their order, for every text, exactly when the
      allowed labels are closed under label suffixes. */
  lemma AllowedMatchesSurvive(allowed: set<string>)
    ensures (forall text: string :: FindAll(Sanitised(text, allowed)) == Kept(FindAll(text), allowed)) <==> SuffixClosed(allowed)
  {
    hide Sanitised, FindAll, IsLabel, Ends, Kept;
    if SuffixClosed(allowed) {
      forall text: string ensures FindAll(Sanitised(text, allowed)) == Kept(FindAll(text), allowed) {
        Survivors(text, allowed);
      }
    } else {
      var m, l :| m in allowed && IsLabel(m) && IsLabel(l) && Ends(m, l) && l !in allowed;
      LostInside(m, l, allowed);
    }
  }

  /** A removed label takes an allowed one that ends with it along. */
  lemma LostInside(m: string, l: string, allowed: set<string>)
    requires m in allowed && IsLabel(m) && IsLabel(l) && Ends(m, l) && l !in allowed
    ensures FindAll(Sanitised(m + l, allowed)) != Kept(FindAll(m + l), allowed)
  {
    hide Purge, FindAll, IsLabel, Ends, Kept, Replace, Segment, Match;
    LabelIsSegment(m);
    LabelFindsItself(m);
    LabelFindsItself(l);
    FindAllBySegment(m, l);
    FindAllBySegment(m, "");
    FindAllOpen("");
    assert m + "" == m && FindAll(m + l) == [m, l];
    OneKept(m, l, allowed);
    assert l in [l] && m in [m];
    PurgeBySegment(m, l, [l]);
    PurgedAllOutcome(m, [l]);
    NoMatch(PurgedAll(m, [l]));
    FindAllBySegment(PurgedAll(m, [l]), Purge(l, [l]));
    PurgedMatchesAreAllowed(l, [l], {});
    assert FindAll(Purge(m + l, [l])) == FindAll(Purge(l, [l]));
    assert m !in FindAll(Purge(l, [l]));
  }

  /** A text whose matches are all allowed is left as it is. */
  lemma CleanTextIsKept(text: string, allowed: set<string>)
    requires forall l | l in FindAll(text) :: l in allowed
    ensures Sanitised(text, allowed) == text
  {
    hide FindAll;
    var bad := Disallowed(FindAll(text), allowed);
    SomethingIn(bad);
  }

  lemma SomethingIn(labels: seq<string>)
    ensures labels != [] ==> exists l :: l in labels
  {
    if labels != [] {
      assert labels[0] in labels;
    }
  }

  // ---------- replacing one label ----------

  function JoinedBy(parts: seq<string>, separator: string): string
    requires parts != []
  {
    if |parts| == 1 then parts[0] else parts[0] + separator + JoinedBy(parts[1..], separator)
  }

  /** These parts are what splitting the text at the tag gives: none of them holds it. */
  ghost predicate Splits(text: string, tag: string, parts: seq<string>) {
    parts != [] && text == JoinedBy(parts, tag) && forall i | 0 <= i < |parts| :: !Contains(parts[i], tag)
  }

  /** Replacing a label leaves everything between its occurrences as it is and puts the marker in the place of each. */
  lemma {:induction false} ReplaceIsSplitAndJoin(text: string, l: string) returns (parts: seq<string>)
    requires IsLabel(l)
    ensures Splits(text, l, parts) && Replace(text, l) == JoinedBy(parts, REMOVED)
    decreases |text|
  {
    hide IsLabel, Contains;
    LabelIsSegment(l);
    assert |l| >= 2 by { LabelIsLong(l); }
    if |text| < |l| {
      parts := [text];
      assert !Contains(text, l) by { TooShort(text, l); }
    } else if text[..|l|] == l {
      var rest := ReplaceIsSplitAndJoin(text[|l|..], l);
      parts := [""] + rest;
      assert !Contains("", l) by { TooShort("", l); }
      assert parts[1..] == rest && text == "" + l + text[|l|..];
    } else {
      var rest := ReplaceIsSplitAndJoin(text[1..], l);
      parts := [[text[0]] + rest[0]] + rest[1..];
      assert parts[1..] == rest[1..] && text == [text[0]] + text[1..];
      JoinedFrom(text[0], rest, l);
      JoinedFrom(text[0], rest, REMOVED);
      PartExtended(text, l, rest);
    }
  }

  lemma LabelIsLong(l: string)
    requires IsLabel(l)
    ensures |l| >= 2
  {
  }

  lemma TooShort(text: string, l: string)
    requires |text| < |l|
    ensures !Contains(text, l)
  {
  }

  lemma JoinedFrom(c: char, parts: seq<string>, separator: string)
    requires parts != []
    ensures JoinedBy([[c] + parts[0]] + parts[1..], separator) == [c] + JoinedBy(parts, separator)
  {
    var longer := [[c] + parts[0]] + parts[1..];
    assert longer[1..] == parts[1..];
    if |parts| > 1 {
      assert [c] + parts[0] + separator + JoinedBy(parts[1..], separator) == [c] + (parts[0] + separator + JoinedBy(parts[1..], separator));
    }
  }

  /** The text does not start with the label, so the first part does not hold it with one more character in front either. */
  lemma PartExtended(text: string, l: string, rest: seq<string>)
    requires |l| >= 2 && Segment(l) && |text| >= |l| && text[..|l|] != l && Splits(text[1..], l, rest)
    ensures !Contains([text[0]] + rest[0], l)
  {
    var part := [text[0]] + rest[0];
    FirstPart(rest, l);
    assert text[1..][..|rest[0]|] == rest[0];
    assert part == text[..|part|];
    assert |part| >= |l| ==> part[..|l|] == text[..|l|];
    forall i | 0 <= i <= |part| ensures !OccursAt(part, l, i) {
      if OccursAt(part, l, i) {
        OccurrenceShifts(text[0], rest[0], l, i);
      }
    }
  }

  lemma OccurrenceShifts(c: char, text: string, l: string, i: nat)
    requires OccursAt([c] + text, l, i)
    ensures if i > 0 then i - 1 <= |text| && OccursAt(text, l, i - 1) else |l| <= |text| + 1 && ([c] + text)[..|l|] == l
  {
    if i > 0 {
      assert ([c] + text)[i..i + |l|] == text[i - 1..i - 1 + |l|];
    }
  }

  lemma FirstPart(parts: seq<string>, separator: string)
    requires parts != []
    ensures |parts[0]| <= |JoinedBy(parts, separator)| && JoinedBy(parts, separator)[..|parts[0]|] == parts[0]
  {
  }
}
