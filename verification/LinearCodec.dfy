/**
 The signed texts of the Linear adapter: the close marker hidden in an issue comment and the
 intake cursor.

 The JSON printer and parser and the keyed MAC are parameters. Verifying a MAC recomputes it
 and compares, so nothing is assumed of it; of the JSON pair only the round trip is assumed.
 */
module LinearCodec {
  import opened Prelude
  import opened Text
  import opened Base64Url

  const MAX_CURSOR_BYTES: nat := 8 * 1024
  const MARKER_PREFIX: string := "<!-- asf-linear-close:v1:"
  const MARKER_SUFFIX: string := " -->"

  datatype Marker = Marker(version: nat, tenant: Name, externalId: Name, key: Name, digest: Name, correlation: Name)

  datatype CursorPayload = CursorPayload(version: nat, tenant: string, scope: string, cursor: string)

  /** The connector's secret, bound to the marker and the cursor domain, and its JSON codec. */
  datatype Keys = Keys(
    signMarker: seq<Byte> -> seq<Byte>,
    signCursor: seq<Byte> -> seq<Byte>,
    printMarker: Marker -> seq<Byte>,
    parseMarker: seq<Byte> -> Option<Marker>,
    printCursor: CursorPayload -> seq<Byte>,
    parseCursor: seq<Byte> -> Option<CursorPayload>)
  {
    ghost predicate Sound() {
      && (forall m: Marker :: parseMarker(printMarker(m)) == Some(m))
      && (forall p: CursorPayload :: parseCursor(printCursor(p)) == Some(p))
    }
  }

  // ---------------------------------------------------------------- markers

  function MarkerPayload(keys: Keys, m: Marker): string {
    Encode(keys.printMarker(m))
  }

  function MarkerSignature(keys: Keys, m: Marker): string {
    Encode(keys.signMarker(keys.printMarker(m)))
  }

  function MarkerText(keys: Keys, m: Marker): string {
    MarkerPayload(keys, m) + ":" + MarkerSignature(keys, m)
  }

  function EncodeMarker(keys: Keys, m: Marker): string {
    MARKER_PREFIX + MarkerText(keys, m) + MARKER_SUFFIX
  }

  /** What the text between a prefix and the next suffix contributes: at most one marker. */
  function Candidate(keys: Keys, text: string): seq<Marker> {
    match SplitOnce(text, ':')
    case None => []
    case Some((payload64, signature64)) =>
      match (Decode(payload64), Decode(signature64))
      case (Some(payload), Some(signature)) =>
        if keys.signMarker(payload) != signature then []
        else
          (match keys.parseMarker(payload)
           case Some(m) => if m.version == 1 then [m] else []
           case None => [])
      case _ => []
  }

  /** The first text enclosed between `open` and the next `close`, if any. */
  datatype Scan =
    | Clear                            // `open` does not occur
    | Unclosed(tail: string)           // it occurs, and no `close` follows
    | Enclosed(text: string, rest: string)

  function ScanFor(s: string, open: string, close: string): (r: Scan)
    requires open != ""
    ensures r.Enclosed? ==> |r.rest| < |s|
  {
    match Find(s, open)
    case None => Clear
    case Some(i) =>
      var tail := s[i + |open|..];
      match Find(tail, close)
      case None => Unclosed(tail)
      case Some(j) => Enclosed(tail[..j], tail[j + |close|..])
  }

  /** The authenticated markers enclosed between `open` and `close`, in order. */
  function MarkersBetween(keys: Keys, open: string, close: string, body: string): seq<Marker>
    requires open != ""
    decreases |body|
  {
    match ScanFor(body, open, close)
    case Enclosed(text, rest) => Candidate(keys, text) + MarkersBetween(keys, open, close, rest)
    case _ => []
  }

  /** At the end of this prose, is the scanner still looking for `close`? */
  predicate EndsInside(open: string, close: string, prose: string)
    requires open != ""
    decreases |prose|
  {
    match ScanFor(prose, open, close)
    case Clear => false
    case Unclosed(_) => true
    case Enclosed(_, rest) => EndsInside(open, close, rest)
  }

  function MarkersIn(keys: Keys, body: string): seq<Marker> {
    MarkersBetween(keys, MARKER_PREFIX, MARKER_SUFFIX, body)
  }

  predicate EndsInsideMarker(prose: string) {
    EndsInside(MARKER_PREFIX, MARKER_SUFFIX, prose)
  }

  /** The scanner's loop, for any pair of delimiters. */
  method DecodeBetween(keys: Keys, open: string, close: string, body: string)
    returns (markers: seq<Marker>)
    requires open != ""
    ensures markers == MarkersBetween(keys, open, close, body)
  {
    hide Candidate, Find;
    var remaining := body;
    markers := [];
    while true
      invariant markers + MarkersBetween(keys, open, close, remaining) ==
                MarkersBetween(keys, open, close, body)
      decreases |remaining|
    {
      ghost var before := remaining;
      var prefixIndex := Find(remaining, open);
      if prefixIndex.None? {
        assert ScanFor(before, open, close) == Clear;
        return;
      }
      remaining := remaining[prefixIndex.value + |open|..];
      var suffixIndex := Find(remaining, close);
      if suffixIndex.None? {
        assert ScanFor(before, open, close) == Unclosed(remaining);
        return;
      }
      var candidate := remaining[..suffixIndex.value];
      remaining := remaining[suffixIndex.value + |close|..];
      assert ScanFor(before, open, close) == Enclosed(candidate, remaining);
      markers := markers + Candidate(keys, candidate);
    }
  }

  method DecodeMarkers(keys: Keys, body: string) returns (markers: seq<Marker>)
    ensures markers == MarkersIn(keys, body)
  {
    markers := DecodeBetween(keys, MARKER_PREFIX, MARKER_SUFFIX, body);
  }

  /** A comment body: prose, a blank line, the marker. */
  function Comment(prose: string, marker: string): string {
    prose + "\n\n" + marker
  }

  // ------------------------------------------------- decoding a comment

  lemma CandidateOfMarker(keys: Keys, m: Marker)
    requires keys.Sound() && m.version == 1
    ensures Candidate(keys, MarkerText(keys, m)) == [m]
  {
    var payload, signature := MarkerPayload(keys, m), MarkerSignature(keys, m);
    EncodedText(keys.printMarker(m));
    SplitOnceAt(payload, signature, ':');
    DecodeInvertsEncode(keys.printMarker(m));
    DecodeInvertsEncode(keys.signMarker(keys.printMarker(m)));
  }

  /** A candidate with two separators is never accepted. */
  lemma CandidateWithTwoSeparators(keys: Keys, text: string, i: nat, j: nat)
    requires i < j < |text| && text[i] == ':' && text[j] == ':'
    ensures Candidate(keys, text) == []
  {
    var (a, b) := SplitOnce(text, ':').value;
    assert text[|a|] == ':' && text[|a| + 1..] == b;
    assert forall k :: 0 <= k < |a| ==> text[k] == a[k];
    assert b[j - |a| - 1] == ':';
    assert Decode(b).None?;
  }

  /** A suffix that ends in a character not found before it is found at the end. */
  lemma FindAtEnd(front: string, p: string)
    requires p != "" && p[|p| - 1] !in front
    requires forall i :: 0 <= i < |p| - 1 ==> p[i] != p[|p| - 1]
    ensures Find(front + p, p) == Some(|front|)
  {
    var s := front + p;
    forall j: nat | j < |front| ensures !OccursAt(s, p, j) {
      var k := j + |p| - 1;
      assert s[k] != p[|p| - 1];
      assert s[j..j + |p|][|p| - 1] == s[k];
    }
    assert s[|front|..|front| + |p|] == p;
    FindIs(s, p, |front|);
  }

  /** What the decoder relies on in its delimiters; the source's pair has it. */
  predicate Delimiters(open: string, close: string) {
    && open != "" && '\n' !in open
    && close != "" && '\n' !in close
    && (forall i :: 0 <= i < |close| - 1 ==> close[i] != close[|close| - 1])
    && close[|close| - 1] !in open && close[|close| - 1] != ':' && !InAlphabet(close[|close| - 1])
    && exists i, j :: 0 <= i < j < |open| && open[i] == ':' && open[j] == ':'
  }

  lemma TheDelimiters()
    ensures Delimiters(MARKER_PREFIX, MARKER_SUFFIX)
  {
    assert MARKER_PREFIX[21] == ':' && MARKER_PREFIX[24] == ':';
  }

  lemma ScanIs(s: string, open: string, close: string, tail: string, i: nat, j: nat)
    requires open != "" && Find(s, open) == Some(i) && s[i + |open|..] == tail
    requires Find(tail, close) == Some(j)
    ensures ScanFor(s, open, close) == Enclosed(tail[..j], tail[j + |close|..])
  {
  }

  lemma OpensAt(prose: string, open: string, text: string)
    requires open != "" && '\n' !in open
    ensures Find(Comment(prose, open + text), open) ==
            if Find(prose, open).Some? then Find(prose, open) else Some(|prose| + 2)
  {
    var marker := open + text;
    FindAcrossBreak(prose, marker, open);
    assert marker[0..|open|] == open;
    FindIs(marker, open, 0);
  }

  lemma ScanAfterClear(prose: string, open: string, text: string, close: string)
    requires Delimiters(open, close) && close[|close| - 1] !in text
    requires ScanFor(prose, open, close) == Clear
    ensures ScanFor(Comment(prose, open + text + close), open, close) == Enclosed(text, "")
  {
    var marker := open + text + close;
    assert marker == open + (text + close);
    OpensAt(prose, open, text + close);
    FindAtEnd(text, close);
    assert Comment(prose, marker)[|prose| + 2 + |open|..] == text + close;
    ScanIs(Comment(prose, marker), open, close, text + close, |prose| + 2, |text|);
  }

  lemma ScanAfterUnclosed(prose: string, open: string, text: string, close: string)
    requires Delimiters(open, close) && close[|close| - 1] !in text
    requires ScanFor(prose, open, close).Unclosed?
    ensures ScanFor(Comment(prose, open + text + close), open, close) ==
            Enclosed(Comment(ScanFor(prose, open, close).tail, open + text), "")
  {
    var marker := open + text + close;
    assert marker == open + (text + close);
    OpensAt(prose, open, text + close);
    var i := Find(prose, open).value;
    var tail := prose[i + |open|..];
    CutComment(prose, marker, i, |open|);
    ClosesAfterBreak(tail, open, text, close);
    ScanIs(Comment(prose, marker), open, close, Comment(tail, marker), i, |Comment(tail, open + text)|);
  }

  /** What follows the blank line does not disturb what is found before it. */
  lemma FoundBeforeBreak(prose: string, p: string, more: string, i: nat)
    requires p != "" && '\n' !in p && Find(prose, p) == Some(i)
    ensures Find(Comment(prose, more), p) == Some(i)
    ensures Comment(prose, more)[..i] == prose[..i]
    ensures Comment(prose, more)[i + |p|..] == Comment(prose[i + |p|..], more)
  {
    FindAcrossBreak(prose, more, p);
    CutComment(prose, more, i, |p|);
  }

  lemma ScanAfterEnclosed(prose: string, open: string, close: string, more: string)
    requires open != "" && '\n' !in open && close != "" && '\n' !in close
    requires ScanFor(prose, open, close).Enclosed?
    ensures ScanFor(Comment(prose, more), open, close) ==
            Enclosed(ScanFor(prose, open, close).text, Comment(ScanFor(prose, open, close).rest, more))
  {
    var i := Find(prose, open).value;
    var tail := prose[i + |open|..];
    var j := Find(tail, close).value;
    FoundBeforeBreak(prose, open, more, i);
    FoundBeforeBreak(tail, close, more, j);
    var tail' := Comment(tail, more);
    ScanIs(Comment(prose, more), open, close, tail', i, j);
    ScanIs(prose, open, close, tail, i, j);
  }

  /** With no `close` before the break, the first one is the marker's own. */
  lemma ClosesAfterBreak(tail: string, open: string, text: string, close: string)
    requires Delimiters(open, close) && close[|close| - 1] !in text
    requires Find(tail, close).None?
    ensures var n := |Comment(tail, open + text)|;
            var all := Comment(tail, open + text + close);
            && Find(all, close) == Some(n)
            && all[..n] == Comment(tail, open + text)
            && all[n + |close|..] == ""
  {
    FindAtEnd(open + text, close);
    FindAcrossBreak(tail, open + text + close, close);
  }

  lemma CutComment(prose: string, marker: string, j: nat, n: nat)
    requires j + n <= |prose|
    ensures Comment(prose, marker)[..j] == prose[..j]
    ensures Comment(prose, marker)[j + n..] == Comment(prose[j + n..], marker)
  {
  }

  /** An unclosed opening swallows the next marker whole, and what it swallows is no marker. */
  lemma CandidateSwallowed(keys: Keys, open: string, close: string, tail: string, text: string)
    requires Delimiters(open, close)
    ensures Candidate(keys, Comment(tail, open + text)) == []
  {
    var i, j :| 0 <= i < j < |open| && open[i] == ':' && open[j] == ':';
    var at := |tail| + 2;
    CandidateWithTwoSeparators(keys, Comment(tail, open + text), at + i, at + j);
  }

  lemma NothingFound(keys: Keys, open: string, close: string)
    requires open != ""
    ensures MarkersBetween(keys, open, close, "") == []
  {
    assert Find("", open).None?;
  }

  lemma {:induction false} DecodeCommentBetween(keys: Keys, open: string, close: string,
                                                prose: string, m: Marker)
    requires Delimiters(open, close) && keys.Sound() && m.version == 1
    ensures MarkersBetween(keys, open, close, Comment(prose, open + MarkerText(keys, m) + close)) ==
            MarkersBetween(keys, open, close, prose) + if EndsInside(open, close, prose) then [] else [m]
    decreases |prose|
  {
    hide Candidate, ScanFor, Find;
    var text := MarkerText(keys, m);
    assert close[|close| - 1] !in text by {
      EncodedText(keys.printMarker(m));
      EncodedText(keys.signMarker(keys.printMarker(m)));
    }
    NothingFound(keys, open, close);
    hide MarkerText, Comment, Delimiters;
    match ScanFor(prose, open, close)
    case Clear =>
      ScanAfterClear(prose, open, text, close);
      CandidateOfMarker(keys, m);
    case Unclosed(tail) =>
      ScanAfterUnclosed(prose, open, text, close);
      CandidateSwallowed(keys, open, close, tail, text);
    case Enclosed(_, rest) =>
      ScanAfterEnclosed(prose, open, close, open + text + close);
      DecodeCommentBetween(keys, open, close, rest, m);
  }

  /**
   Decoding a close comment, exactly: whatever the prose already held, and then the marker,
   unless the prose leaves a marker open, in which case the marker is swallowed.
   */
  lemma DecodeComment(keys: Keys, prose: string, m: Marker)
    requires keys.Sound() && m.version == 1
    ensures MarkersIn(keys, Comment(prose, EncodeMarker(keys, m))) ==
            MarkersIn(keys, prose) + if EndsInsideMarker(prose) then [] else [m]
  {
    TheDelimiters();
    DecodeCommentBetween(keys, MARKER_PREFIX, MARKER_SUFFIX, prose, m);
  }

  /** Prose that never mentions the marker prefix holds no marker and leaves none open. */
  lemma PlainProse(keys: Keys, prose: string)
    requires Find(prose, MARKER_PREFIX).None?
    ensures MarkersIn(keys, prose) == [] && !EndsInsideMarker(prose)
  {
  }

  lemma OpenBetween(keys: Keys, open: string, close: string, prose: string)
    requires open != "" && Find(prose, open).Some? && Find(prose, close).None?
    ensures MarkersBetween(keys, open, close, prose) == [] && EndsInside(open, close, prose)
  {
    var i := Find(prose, open).value;
    FindBehind(prose, close, i + |open|);
    hide Find, Candidate;
    assert ScanFor(prose, open, close) == Unclosed(prose[i + |open|..]);
  }

  /** Prose that mentions the prefix and never the suffix holds no marker and leaves one open. */
  lemma OpenProse(keys: Keys, prose: string)
    requires Find(prose, MARKER_PREFIX).Some? && Find(prose, MARKER_SUFFIX).None?
    ensures MarkersIn(keys, prose) == [] && EndsInsideMarker(prose)
  {
    hide Find, MarkersBetween, EndsInside;
    OpenBetween(keys, MARKER_PREFIX, MARKER_SUFFIX, prose);
  }

  predicate AreCurrent(ms: seq<Marker>) {
    forall i :: 0 <= i < |ms| ==> ms[i].version == 1
  }

  lemma CandidateIsCurrent(keys: Keys, text: string)
    ensures AreCurrent(Candidate(keys, text))
  {
  }

  /** Only markers of the current version are ever found. */
  lemma {:induction false} MarkersAreCurrent(keys: Keys, open: string, close: string, body: string)
    requires open != ""
    ensures AreCurrent(MarkersBetween(keys, open, close, body))
    decreases |body|
  {
    hide Candidate, ScanFor;
    match ScanFor(body, open, close)
    case Enclosed(text, rest) =>
      CandidateIsCurrent(keys, text);
      MarkersAreCurrent(keys, open, close, rest);
      assert MarkersBetween(keys, open, close, body) == Candidate(keys, text) + MarkersBetween(keys, open, close, rest);
    case _ =>
      assert MarkersBetween(keys, open, close, body) == [];
  }

  // ---------------------------------------------------------------- cursors

  datatype CursorError =
    EmptyOrOversizedCursor | Oversized | Malformed | MalformedPayload | MalformedSignature
    | SignatureMismatch | OutsideScope

  function Token(keys: Keys, p: CursorPayload): string {
    "linear.v1." + Encode(keys.printCursor(p)) + "." + Encode(keys.signCursor(keys.printCursor(p)))
  }

  function EncodeCursor(keys: Keys, tenant: string, scope: string, cursor: string)
    : Result<string, CursorError>
  {
    if cursor == "" || |cursor| > MAX_CURSOR_BYTES then Err(EmptyOrOversizedCursor)
    else Ok(Token(keys, CursorPayload(1, tenant, scope, cursor)))
  }

  function DecodeCursor(keys: Keys, tenant: string, token: string, scope: string)
    : Result<string, CursorError>
  {
    if |token| > MAX_CURSOR_BYTES then Err(Oversized)
    else
      var pieces := Split(token, '.');
      if |pieces| != 4 || pieces[0] != "linear" || pieces[1] != "v1" then Err(Malformed)
      else
        OpenCursor(keys, tenant, Decode(pieces[2]), Decode(pieces[3]), scope)
  }

  /** The checks on the decoded halves of a token. */
  function OpenCursor(keys: Keys, tenant: string, payload: Option<seq<Byte>>,
                      signature: Option<seq<Byte>>, scope: string): Result<string, CursorError>
  {
    match payload
    case None => Err(MalformedPayload)
    case Some(bytes) =>
      if signature.None? then Err(MalformedSignature)
      else if keys.signCursor(bytes) != signature.value then Err(SignatureMismatch)
      else
        match keys.parseCursor(bytes)
        case None => Err(Malformed)
        case Some(p) =>
          if p.version != 1 || p.tenant != tenant || p.scope != scope
             || p.cursor == "" || |p.cursor| > MAX_CURSOR_BYTES
          then Err(OutsideScope)
          else Ok(p.cursor)
  }

  lemma SplitFour(w: string, x: string, y: string, z: string, c: char)
    requires c !in w && c !in x && c !in y && c !in z
    ensures Split(w + [c] + (x + [c] + (y + [c] + z)), c) == [w, x, y, z]
  {
    var yz := y + [c] + z;
    var xyz := x + [c] + yz;
    SplitFirst(w, xyz, c);
    SplitFirst(x, yz, c);
    SplitFirst(y, z, c);
    calc {
      Split(w + [c] + xyz, c);
      [w] + ([x] + ([y] + Split(z, c)));
      [w] + ([x] + ([y] + [z]));
      [w, x, y, z];
    }
  }

  lemma SplitToken(a: string, b: string)
    requires '.' !in a && '.' !in b
    ensures Split("linear.v1." + a + "." + b, '.') == ["linear", "v1", a, b]
  {
    SplitFour("linear", "v1", a, b, '.');
    assert "linear.v1." + a + "." + b == "linear" + "." + ("v1" + "." + (a + "." + b));
  }

  /** What a token made for one tenant and scope decodes to under any tenant and scope. */
  lemma DecodeToken(keys: Keys, p: CursorPayload, tenant: string, scope: string)
    requires keys.Sound() && p.version == 1 && p.cursor != "" && |p.cursor| <= MAX_CURSOR_BYTES
    ensures DecodeCursor(keys, tenant, Token(keys, p), scope) ==
            if |Token(keys, p)| > MAX_CURSOR_BYTES then Err(Oversized)
            else if p.tenant == tenant && p.scope == scope then Ok(p.cursor)
            else Err(OutsideScope)
  {
    var bytes := keys.printCursor(p);
    var signature := keys.signCursor(bytes);
    EncodedText(bytes);
    EncodedText(signature);
    SplitToken(Encode(bytes), Encode(signature));
    DecodeInvertsEncode(bytes);
    DecodeInvertsEncode(signature);
  }

  /** What an issuer can work out beforehand: the length of the token for this payload. */
  function TokenLength(keys: Keys, p: CursorPayload): nat {
    var bytes := keys.printCursor(p);
    11 + EncodedLength(|bytes|) + EncodedLength(|keys.signCursor(bytes)|)
  }

  lemma TokenHasLength(keys: Keys, p: CursorPayload)
    ensures |Token(keys, p)| == TokenLength(keys, p)
  {
    EncodedTextLength(keys.printCursor(p));
    EncodedTextLength(keys.signCursor(keys.printCursor(p)));
    hide Encode, EncodedLength;
    assert |"linear.v1."| == 10;
  }

  /**
   An issued cursor is read back, exactly when its payload is short enough for the bound that only
   the reader checks, by the same tenant in the same scope, and by nobody else.
   */
  lemma CursorRoundTrip(keys: Keys, tenant: string, scope: string, cursor: string,
                        tenant': string, scope': string, token: string)
    requires keys.Sound()
    requires EncodeCursor(keys, tenant, scope, cursor) == Ok(token)
    ensures DecodeCursor(keys, tenant', token, scope').Ok? <==>
            && TokenLength(keys, CursorPayload(1, tenant, scope, cursor)) <= MAX_CURSOR_BYTES
            && tenant == tenant' && scope == scope'
    ensures DecodeCursor(keys, tenant', token, scope').Ok? ==>
            DecodeCursor(keys, tenant', token, scope').value == cursor
  {
    DecodeToken(keys, CursorPayload(1, tenant, scope, cursor), tenant', scope');
    TokenHasLength(keys, CursorPayload(1, tenant, scope, cursor));
    hide Token, TokenLength, DecodeCursor;
  }

  /** With the 32 bytes of an HMAC-SHA256 tag, the longest readable payload has 6103 bytes. */
  lemma ReadableRange(keys: Keys, p: CursorPayload)
    requires |keys.signCursor(keys.printCursor(p))| == 32
    ensures TokenLength(keys, p) <= MAX_CURSOR_BYTES <==> |keys.printCursor(p)| <= 6103
  {
  }

  /** Three quarters of the bound is already too long: such a cursor is issued but never readable. */
  lemma LongCursorIsUnreadable(keys: Keys, tenant: string, scope: string, cursor: string)
    requires keys.Sound()
    requires 3 * MAX_CURSOR_BYTES / 4 <= |cursor| <= MAX_CURSOR_BYTES
    requires |keys.printCursor(CursorPayload(1, tenant, scope, cursor))| >= |cursor|
    ensures EncodeCursor(keys, tenant, scope, cursor).Ok?
    ensures DecodeCursor(keys, tenant, EncodeCursor(keys, tenant, scope, cursor).value, scope) == Err(Oversized)
  {
    EncodedText(keys.printCursor(CursorPayload(1, tenant, scope, cursor)));
  }
}
