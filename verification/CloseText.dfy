/** The comment that announces a close and carries its marker. */
module CloseText {
  import opened Prelude
  import opened Text
  import opened LinearCodec
  import opened SourcePort
  import Decimal

  const MAX_COMMENT_BODY_BYTES: nat := 32 * 1024

  function MarkerFor(r: CloseRequest): Marker {
    Marker(1, r.effect.item.tenant, r.effect.item.externalId, r.key, r.digest, r.effect.correlation)
  }

  function TrimStart(s: string): string {
    if s != "" && IsWhitespace(s[0]) then TrimStart(s[1..]) else s
  }

  function Trim(s: string): string {
    var t := TrimStart(s);
    TrimEnd(t)
  }

  function TrimEnd(s: string): string {
    if s != "" && IsWhitespace(s[|s| - 1]) then TrimEnd(s[..|s| - 1]) else s
  }

  predicate IsSpace(s: string) {
    forall i :: 0 <= i < |s| ==> IsWhitespace(s[i])
  }

  lemma {:induction false} TrimStartCuts(s: string) returns (a: string)
    ensures s == a + TrimStart(s) && IsSpace(a)
    ensures TrimStart(s) != "" ==> !IsWhitespace(TrimStart(s)[0])
  {
    a := "";
    if s != "" && IsWhitespace(s[0]) {
      var rest := TrimStartCuts(s[1..]);
      a := [s[0]] + rest;
    }
  }

  lemma {:induction false} TrimEndCuts(s: string) returns (b: string)
    ensures s == TrimEnd(s) + b && IsSpace(b)
    ensures TrimEnd(s) != "" ==> !IsWhitespace(TrimEnd(s)[|TrimEnd(s)| - 1])
  {
    b := "";
    if s != "" && IsWhitespace(s[|s| - 1]) {
      var rest := TrimEndCuts(s[..|s| - 1]);
      b := rest + [s[|s| - 1]];
      assert s == s[..|s| - 1] + [s[|s| - 1]];
    }
  }

  /** Trimming cuts whitespace off both ends, all of it and nothing else. */
  lemma TrimCuts(s: string) returns (a: string, b: string)
    ensures s == a + Trim(s) + b && IsSpace(a) && IsSpace(b)
    ensures Trim(s) != "" ==> !IsWhitespace(Trim(s)[0]) && !IsWhitespace(Trim(s)[|Trim(s)| - 1])
  {
    a := TrimStartCuts(s);
    b := TrimEndCuts(TrimStart(s));
  }

  const HEADING: string := "ASF verified delivery\n\n- Outcome: "

  function PullRequestText(pr: PullRequest): string {
    "\n- Pull request: [" + pr.repository + "#" + Decimal.ToText(pr.number) + "](" + pr.url + ")"
  }

  function EvidenceText(c: Closure): string {
    "\n- Evidence: `" + c.evidenceId + "` (`" + c.evidenceDigest + "`)"
  }

  function CostText(c: Closure): string {
    if c.cost.Some? then "\n- Cost: " + Decimal.ToText(c.cost.value) + " microunits" else ""
  }

  function WallTimeText(c: Closure): string {
    if c.wallTime.Some? then "\n- Wall time: " + Decimal.ToText(c.wallTime.value) + " seconds" else ""
  }

  /** What follows the summary. */
  function Details(c: Closure, pr: PullRequest): string {
    PullRequestText(pr) + EvidenceText(c) + CostText(c) + WallTimeText(c)
  }

  /** The human-readable part of the comment. */
  function Prose(c: Closure, pr: PullRequest): string {
    HEADING + Trim(c.summary) + Details(c, pr)
  }

  function CloseComment(r: CloseRequest, marker: string): Result<string, Error> {
    match r.effect.closure.pullRequest
    case None => Err(InvalidRequest)
    case Some(pr) =>
      var body := Comment(Prose(r.effect.closure, pr), marker);
      if |body| > MAX_COMMENT_BODY_BYTES then Err(InvalidRequest) else Ok(body)
  }

  /**
   The caller's obligation: the prose holds no marker and leaves none open. The only other prose that
   does no harm already ends in the very marker of this request and leaves another one open.
   */
  predicate ReadsBack(keys: Keys, r: CloseRequest) {
    r.effect.closure.pullRequest.Some? ==>
      var prose := Prose(r.effect.closure, r.effect.closure.pullRequest.value);
      MarkersIn(keys, prose) == if EndsInsideMarker(prose) then [MarkerFor(r)] else []
  }

  /** The comment of a request decodes to exactly the request's own marker if and only if its prose lets it. */
  lemma CommentReadsBack(keys: Keys, r: CloseRequest)
    requires keys.Sound()
    ensures var comment := CloseComment(r, EncodeMarker(keys, MarkerFor(r)));
            comment.Ok? ==> (MarkersIn(keys, comment.value) == [MarkerFor(r)] <==> ReadsBack(keys, r))
  {
    hide Prose, MarkersIn, EndsInsideMarker, EncodeMarker;
    if r.effect.closure.pullRequest.Some? {
      var prose := Prose(r.effect.closure, r.effect.closure.pullRequest.value);
      DecodeComment(keys, prose, MarkerFor(r));
      if MarkersIn(keys, prose) != [] {
        assert |MarkersIn(keys, prose) + [MarkerFor(r)]| > 1;
      }
    }
  }

  /** When the prose leaves a marker open, the comment decodes as if it had none. */
  lemma OpenCommentDecodes(keys: Keys, r: CloseRequest)
    requires keys.Sound() && r.effect.closure.pullRequest.Some?
    requires EndsInsideMarker(Prose(r.effect.closure, r.effect.closure.pullRequest.value))
    ensures var comment := CloseComment(r, EncodeMarker(keys, MarkerFor(r)));
            comment.Ok? ==>
              MarkersIn(keys, comment.value) ==
              MarkersIn(keys, Prose(r.effect.closure, r.effect.closure.pullRequest.value))
  {
    DecodeComment(keys, Prose(r.effect.closure, r.effect.closure.pullRequest.value), MarkerFor(r));
  }

  // ------------------------------------------------------ prose that is open

  predicate HasNoBracket(c: Closure, pr: PullRequest) {
    '>' !in c.summary && '>' !in pr.repository && '>' !in pr.url && '>' !in c.evidenceId && '>' !in c.evidenceDigest
  }

  lemma {:induction false} TrimEndKeeps(s: string, c: char)
    requires c !in s
    ensures c !in TrimEnd(s)
  {
    if s != "" && IsWhitespace(s[|s| - 1]) { TrimEndKeeps(s[..|s| - 1], c); }
  }

  lemma {:induction false} TrimStartKeeps(s: string, c: char)
    requires c !in s
    ensures c !in TrimStart(s)
  {
    if s != "" && IsWhitespace(s[0]) { TrimStartKeeps(s[1..], c); }
  }

  lemma TrimKeeps(s: string, c: char)
    requires c !in s
    ensures c !in Trim(s)
  {
    TrimStartKeeps(s, c);
    TrimEndKeeps(TrimStart(s), c);
  }

  lemma DetailsHaveNoBracket(c: Closure, pr: PullRequest)
    requires HasNoBracket(c, pr)
    ensures '>' !in Details(c, pr)
  {
    assert '>' !in PullRequestText(pr) && '>' !in EvidenceText(c);
    assert '>' !in CostText(c) && '>' !in WallTimeText(c);
    hide PullRequestText, EvidenceText, CostText, WallTimeText;
  }

  lemma ProseHasNoBracket(c: Closure, pr: PullRequest)
    requires HasNoBracket(c, pr)
    ensures '>' !in Prose(c, pr)
  {
    TrimKeeps(c.summary, '>');
    DetailsHaveNoBracket(c, pr);
    hide Trim, Details;
  }

  /** A summary that mentions the marker prefix, in a closure without a closing bracket, is open prose. */
  lemma OpenSummary(keys: Keys, c: Closure, pr: PullRequest)
    requires Find(Trim(c.summary), MARKER_PREFIX).Some? && HasNoBracket(c, pr)
    ensures MarkersIn(keys, Prose(c, pr)) == [] && EndsInsideMarker(Prose(c, pr))
  {
    ProseHasNoBracket(c, pr);
    hide Trim, Details, Find, MarkersIn, EndsInsideMarker, HasNoBracket;
    FindInside(HEADING, Trim(c.summary), Details(c, pr), MARKER_PREFIX);
    hide Prose;
    FoundToTheEnd(Prose(c, pr), MARKER_SUFFIX);
    OpenProse(keys, Prose(c, pr));
  }

  lemma PrefixIsTrimmed()
    ensures Trim(MARKER_PREFIX) == MARKER_PREFIX && '>' !in MARKER_PREFIX && Find(MARKER_PREFIX, MARKER_PREFIX).Some?
  {
    FindIsLeast(MARKER_PREFIX, MARKER_PREFIX);
    assert OccursAt(MARKER_PREFIX, MARKER_PREFIX, 0);
    hide Find;
  }

  /** For example the prefix alone, as the summary of any closure without a closing bracket. */
  lemma PrefixAsSummary(keys: Keys, c: Closure, pr: PullRequest)
    requires c.summary == MARKER_PREFIX && HasNoBracket(c.(summary := ""), pr)
    ensures MarkersIn(keys, Prose(c, pr)) == [] && EndsInsideMarker(Prose(c, pr))
  {
    PrefixIsTrimmed();
    hide Trim, Prose, Find, MarkersIn, EndsInsideMarker;
    OpenSummary(keys, c, pr);
  }

  // -------------------------------------------------- the comment by lines

  /** A text put together from lines. */
  function Joined(lines: seq<string>): string
    requires lines != []
  {
    if |lines| == 1 then lines[0] else lines[0] + "\n" + Joined(lines[1..])
  }

  function PullRequestLine(pr: PullRequest): string {
    "- Pull request: [" + pr.repository + "#" + Decimal.ToText(pr.number) + "](" + pr.url + ")"
  }

  function EvidenceLine(c: Closure): string {
    "- Evidence: `" + c.evidenceId + "` (`" + c.evidenceDigest + "`)"
  }

  function CostLine(cost: nat): string {
    "- Cost: " + Decimal.ToText(cost) + " microunits"
  }

  function WallTimeLine(seconds: nat): string {
    "- Wall time: " + Decimal.ToText(seconds) + " seconds"
  }

  /** The lines of the figures that are known. */
  function FigureLines(c: Closure): seq<string> {
    (if c.cost.Some? then [CostLine(c.cost.value)] else [])
    + (if c.wallTime.Some? then [WallTimeLine(c.wallTime.value)] else [])
  }

  function Lines(c: Closure, pr: PullRequest): seq<string> {
    ["ASF verified delivery", "", "- Outcome: " + Trim(c.summary), PullRequestLine(pr), EvidenceLine(c)] + FigureLines(c)
  }

  lemma Regroup(n: string, a: string, b: string, c: string, d: string, e: string)
    ensures n + a + b + c + d + e == n + (a + b + c + d + e)
  {
    assert n + a + b == n + (a + b);
    assert n + a + b + c == n + (a + b + c);
    assert n + a + b + c + d == n + (a + b + c + d);
  }

  lemma PullRequestIsLine(pr: PullRequest)
    ensures PullRequestText(pr) == "\n" + PullRequestLine(pr)
  {
    var number := Decimal.ToText(pr.number);
    hide Decimal.ToText;
    assert "\n- Pull request: [" == "\n" + "- Pull request: [";
    Regroup("\n", "- Pull request: [", pr.repository, "#", number, "](");
    Regroup("\n", "- Pull request: [" + pr.repository + "#" + number + "](", pr.url, ")", "", "");
  }

  lemma EvidenceIsLine(c: Closure)
    ensures EvidenceText(c) == "\n" + EvidenceLine(c)
  {
    assert "\n- Evidence: `" == "\n" + "- Evidence: `";
    Regroup("\n", "- Evidence: `", c.evidenceId, "` (`", c.evidenceDigest, "`)");
  }

  lemma FiguresAreLines(c: Closure)
    ensures CostText(c) == if c.cost.Some? then "\n" + CostLine(c.cost.value) else ""
    ensures WallTimeText(c) == if c.wallTime.Some? then "\n" + WallTimeLine(c.wallTime.value) else ""
  {
  }

  lemma JoinedCons(line: string, lines: seq<string>)
    ensures Joined([line] + lines) == if lines == [] then line else line + "\n" + Joined(lines)
  {
    if lines == [] {
      assert [line] + lines == [line];
    } else {
      assert ([line] + lines)[1..] == lines;
    }
  }

  lemma EvidenceIsJoined(c: Closure)
    ensures Joined([EvidenceLine(c)] + FigureLines(c)) == EvidenceLine(c) + CostText(c) + WallTimeText(c)
  {
    FiguresAreLines(c);
    hide EvidenceLine, CostLine, WallTimeLine, CostText, WallTimeText;
    JoinedCons(EvidenceLine(c), FigureLines(c));
    if c.cost.Some? && c.wallTime.Some? {
      JoinedCons(CostLine(c.cost.value), [WallTimeLine(c.wallTime.value)]);
      assert FigureLines(c) == [CostLine(c.cost.value)] + [WallTimeLine(c.wallTime.value)];
    }
  }

  lemma DetailsAreJoined(c: Closure, pr: PullRequest)
    ensures Details(c, pr) == "\n" + Joined([PullRequestLine(pr)] + ([EvidenceLine(c)] + FigureLines(c)))
  {
    PullRequestIsLine(pr);
    EvidenceIsLine(c);
    hide PullRequestLine, EvidenceLine, PullRequestText, EvidenceText, CostText, WallTimeText, FigureLines;
    EvidenceIsJoined(c);
    JoinedCons(PullRequestLine(pr), [EvidenceLine(c)] + FigureLines(c));
    hide Joined;
  }

  /** The prose, line by line: heading, outcome, pull request, evidence and the figures that are known. */
  lemma ProseInLines(c: Closure, pr: PullRequest)
    ensures Prose(c, pr) == Joined(Lines(c, pr))
  {
    var rest := [PullRequestLine(pr)] + ([EvidenceLine(c)] + FigureLines(c));
    DetailsAreJoined(c, pr);
    hide PullRequestLine, EvidenceLine, FigureLines, Details, Trim;
    var outcome := "- Outcome: " + Trim(c.summary);
    assert Lines(c, pr) == ["ASF verified delivery"] + ([""] + ([outcome] + rest));
    JoinedCons(outcome, rest);
    JoinedCons("", [outcome] + rest);
    JoinedCons("ASF verified delivery", [""] + ([outcome] + rest));
    hide Joined, Lines;
    HeadingIsLines(Trim(c.summary), Joined(rest));
  }

  lemma HeadingIsLines(summary: string, rest: string)
    ensures HEADING + summary + ("\n" + rest)
            == "ASF verified delivery" + "\n" + ("" + "\n" + ("- Outcome: " + summary + "\n" + rest))
  {
    assert HEADING == "ASF verified delivery" + "\n" + ("" + "\n" + "- Outcome: ");
    Reassociate("ASF verified delivery", "\n", "- Outcome: ", summary, rest);
  }

  lemma Reassociate(a: string, n: string, o: string, summary: string, rest: string)
    ensures (a + n + ("" + n + o)) + summary + (n + rest) == a + n + ("" + n + (o + summary + n + rest))
  {
    assert "" + n == n;
  }
}
