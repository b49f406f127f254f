/** What the decoders accept, on every text: only what carries the tag of its own payload. */
module CodecSoundness {
  import opened Prelude
  import opened Text
  import opened Base64Url
  import opened LinearCodec

  // ---------------------------------------------------------------- markers

  /** These two texts decode to a payload that says `m` and to the tag of that payload. */
  predicate IsSigned(keys: Keys, payload64: string, tag64: string, m: Marker) {
    && Decode(payload64).Some? && Decode(tag64) == Some(keys.signMarker(Decode(payload64).value))
    && keys.parseMarker(Decode(payload64).value) == Some(m) && m.version == 1
  }

  /** At this place of the body stands a marker text that is signed and says `m`. */
  predicate SignedAt(keys: Keys, open: string, close: string, body: string, i: nat, payload64: string, tag64: string,
                     m: Marker)
  {
    OccursAt(body, open + (payload64 + ":" + tag64) + close, i) && IsSigned(keys, payload64, tag64, m)
  }

  /** A candidate yields a marker exactly if it is a payload and that payload's own tag. */
  lemma CandidateMeans(keys: Keys, payload64: string, tag64: string, m: Marker)
    requires ':' !in payload64
    ensures Candidate(keys, payload64 + ":" + tag64) == [m] <==> IsSigned(keys, payload64, tag64, m)
    ensures Candidate(keys, payload64 + ":" + tag64) != [] ==>
              exists m' :: IsSigned(keys, payload64, tag64, m')
  {
    SplitOnceAt(payload64, tag64, ':');
    hide Decode;
    var found := Candidate(keys, payload64 + ":" + tag64);
    if found != [] {
      assert IsSigned(keys, payload64, tag64, found[0]);
    }
  }

  /** A marker text with any other tag contributes nothing. */
  lemma WrongTagIsNothing(keys: Keys, m: Marker, tag: seq<Byte>)
    requires tag != keys.signMarker(keys.printMarker(m))
    ensures Candidate(keys, Encode(keys.printMarker(m)) + ":" + Encode(tag)) == []
  {
    var payload := keys.printMarker(m);
    EncodedText(payload);
    DecodeInvertsEncode(payload);
    DecodeInvertsEncode(tag);
    hide Encode, Decode, Candidate;
    CandidateMeans(keys, Encode(payload), Encode(tag), m);
  }

  lemma CandidateIsSigned(keys: Keys, text: string, m: Marker) returns (payload64: string, tag64: string)
    requires m in Candidate(keys, text)
    ensures text == payload64 + ":" + tag64 && IsSigned(keys, payload64, tag64, m)
  {
    hide Decode;
    var cut := SplitOnce(text, ':').value;
    payload64, tag64 := cut.0, cut.1;
  }

  lemma OccursWithin(s: string, p: string, i: nat, from: nat)
    requires from <= |s| && OccursAt(s[from..], p, i)
    ensures OccursAt(s, p, from + i)
  {
    assert s[from..][i..i + |p|] == s[from + i..from + i + |p|];
  }

  /** What the scanner encloses stands in the text between its delimiters. */
  lemma EnclosedOccurs(s: string, open: string, close: string)
    requires open != "" && ScanFor(s, open, close).Enclosed?
    ensures Find(s, open).Some?
    ensures OccursAt(s, open + ScanFor(s, open, close).text + close, Find(s, open).value)
    ensures var n := |s| - |ScanFor(s, open, close).rest|; 0 <= n <= |s| && ScanFor(s, open, close).rest == s[n..]
  {
    FindIsLeast(s, open);
    var i := Find(s, open).value;
    var tail := s[i + |open|..];
    FindIsLeast(tail, close);
    var j := Find(tail, close).value;
    hide Find;
    assert s[i..i + |open|] == open && tail[j..j + |close|] == close;
    assert s[i..i + |open| + j + |close|] == s[i..i + |open|] + tail[..j] + tail[j..j + |close|];
    assert tail[j + |close|..] == s[i + |open| + j + |close|..];
  }

  lemma {:induction false} FoundIsSigned(keys: Keys, open: string, close: string, body: string, m: Marker)
    returns (i: nat, payload64: string, tag64: string)
    requires open != "" && m in MarkersBetween(keys, open, close, body)
    ensures SignedAt(keys, open, close, body, i, payload64, tag64, m)
    decreases |body|
  {
    hide Candidate, IsSigned, OccursAt;
    EnclosedOccurs(body, open, close);
    var scan := ScanFor(body, open, close);
    if m in Candidate(keys, scan.text) {
      payload64, tag64 := CandidateIsSigned(keys, scan.text, m);
      i := Find(body, open).value;
    } else {
      i, payload64, tag64 := FoundIsSigned(keys, open, close, scan.rest, m);
      var n := |body| - |scan.rest|;
      OccursWithin(body, open + (payload64 + ":" + tag64) + close, i, n);
      i := n + i;
    }
  }

  /**
   The decoder is sound on every body: each marker it finds stands there between prefix and suffix, as a
   payload and the tag of that payload.
   */
  lemma MarkersAreSigned(keys: Keys, body: string, m: Marker) returns (i: nat, payload64: string, tag64: string)
    requires m in MarkersIn(keys, body)
    ensures OccursAt(body, MARKER_PREFIX + (payload64 + ":" + tag64) + MARKER_SUFFIX, i)
    ensures Decode(payload64).Some? && Decode(tag64) == Some(keys.signMarker(Decode(payload64).value))
    ensures keys.parseMarker(Decode(payload64).value) == Some(m) && m.version == 1
  {
    hide MarkersBetween, Decode, OccursAt;
    i, payload64, tag64 := FoundIsSigned(keys, MARKER_PREFIX, MARKER_SUFFIX, body, m);
  }

  /** A comment with nothing but a wrongly signed marker text between its delimiters holds no marker. */
  lemma ForgedCommentIsNothing(keys: Keys, open: string, close: string, m: Marker, tag: seq<Byte>)
    requires Delimiters(open, close) && tag != keys.signMarker(keys.printMarker(m))
    ensures MarkersBetween(keys, open, close, open + (Encode(keys.printMarker(m)) + ":" + Encode(tag)) + close) == []
  {
    var text := Encode(keys.printMarker(m)) + ":" + Encode(tag);
    EncodedText(keys.printMarker(m));
    EncodedText(tag);
    WrongTagIsNothing(keys, m, tag);
    hide Encode, Candidate;
    var body := open + text + close;
    FindIs(body, open, 0) by { assert body[..|open|] == open; }
    assert body[|open|..] == text + close;
    FindAtEnd(text, close);
    ScanIs(body, open, close, text + close, 0, |text|);
    assert (text + close)[..|text|] == text && (text + close)[|text| + |close|..] == "";
    NothingFound(keys, open, close);
    hide Find, ScanFor;
    assert MarkersBetween(keys, open, close, body) == Candidate(keys, text) + MarkersBetween(keys, open, close, "");
  }

  // ---------------------------------------------------------------- cursors

  /** The pieces of a split, put together again. */
  lemma {:induction false} SplitRejoins(s: string, c: char)
    ensures |Split(s, c)| == 1 ==> s == Split(s, c)[0]
    ensures |Split(s, c)| > 1 ==>
              exists rest :: s == Split(s, c)[0] + [c] + rest && Split(rest, c) == Split(s, c)[1..]
  {
    match SplitOnce(s, c)
    case None =>
    case Some((a, b)) => assert Split(s, c)[1..] == Split(b, c);
  }

  lemma FourPieces(s: string, c: char)
    requires |Split(s, c)| == 4
    ensures var p := Split(s, c); s == p[0] + [c] + (p[1] + [c] + (p[2] + [c] + p[3]))
  {
    var p := Split(s, c);
    SplitRejoins(s, c);
    var x :| s == p[0] + [c] + x && Split(x, c) == p[1..];
    SplitRejoins(x, c);
    var y :| x == p[1] + [c] + y && Split(y, c) == p[1..][1..];
    SplitRejoins(y, c);
    var z :| y == p[2] + [c] + z && Split(z, c) == p[1..][1..][1..];
    SplitRejoins(z, c);
  }

  /** Any token that is accepted carries the tag of its own payload, and the payload is for this tenant and scope. */
  lemma AcceptedTokenIsSigned(keys: Keys, tenant: string, token: string, scope: string)
    returns (payload64: string, tag64: string)
    requires DecodeCursor(keys, tenant, token, scope).Ok?
    ensures token == "linear" + "." + ("v1" + "." + (payload64 + "." + tag64)) && |token| <= MAX_CURSOR_BYTES
    ensures Decode(payload64).Some? && Decode(tag64) == Some(keys.signCursor(Decode(payload64).value))
    ensures keys.parseCursor(Decode(payload64).value) ==
            Some(CursorPayload(1, tenant, scope, DecodeCursor(keys, tenant, token, scope).value))
    ensures 0 < |DecodeCursor(keys, tenant, token, scope).value| <= MAX_CURSOR_BYTES
  {
    hide Decode;
    var pieces := Split(token, '.');
    FourPieces(token, '.');
    hide Split;
    payload64, tag64 := pieces[2], pieces[3];
  }
}
