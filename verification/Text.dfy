/**
 Text searching as the standard string library does it.

 A `string` stands for the UTF-8 bytes of the source's string, one `char` below 256 for each
 byte, so `|s|` is the byte length the source measures.
 */
module Text {
  import opened Prelude

  predicate OccursAt(s: string, p: string, i: nat) {
    i + |p| <= |s| && s[i..i + |p|] == p
  }

  /** The least index at or after `from` at which `p` occurs. */
  function FindFrom(s: string, p: string, from: nat): (r: Option<nat>)
    requires from <= |s|
    ensures r.Some? ==> from <= r.value && r.value + |p| <= |s|
    decreases |s| - from
  {
    if OccursAt(s, p, from) then Some(from)
    else if from == |s| then None
    else FindFrom(s, p, from + 1)
  }

  function Find(s: string, p: string): (r: Option<nat>)
    ensures r.Some? ==> r.value + |p| <= |s|
  {
    FindFrom(s, p, 0)
  }

  lemma {:induction false} FindFromIsLeast(s: string, p: string, from: nat)
    requires from <= |s|
    ensures var r := FindFrom(s, p, from);
            && (r.Some? ==> OccursAt(s, p, r.value))
            && forall j: nat :: from <= j && (r.Some? ==> j < r.value) ==> !OccursAt(s, p, j)
    decreases |s| - from
  {
    if !OccursAt(s, p, from) && from < |s| {
      FindFromIsLeast(s, p, from + 1);
    }
  }

  /** `Find` gives the first occurrence, or none. */
  lemma FindIsLeast(s: string, p: string)
    ensures Find(s, p).Some? ==> OccursAt(s, p, Find(s, p).value)
    ensures forall j: nat :: (Find(s, p).Some? ==> j < Find(s, p).value) ==> !OccursAt(s, p, j)
  {
    FindFromIsLeast(s, p, 0);
  }

  /** There is only one first occurrence. */
  lemma FindIs(s: string, p: string, i: nat)
    requires OccursAt(s, p, i)
    requires forall j: nat :: j < i ==> !OccursAt(s, p, j)
    ensures Find(s, p) == Some(i)
  {
    FindIsLeast(s, p);
  }

  /** What is found is there to its last character. */
  lemma FoundToTheEnd(s: string, p: string)
    ensures p != "" && Find(s, p).Some? ==> p[|p| - 1] in s
  {
    FindIsLeast(s, p);
    if p != "" && Find(s, p).Some? {
      var i := Find(s, p).value;
      assert s[i..i + |p|][|p| - 1] == s[i + |p| - 1];
    }
  }

  /** What is found in the middle is found in the whole. */
  lemma FindInside(a: string, b: string, c: string, p: string)
    requires Find(b, p).Some?
    ensures Find(a + b + c, p).Some?
  {
    FindIsLeast(b, p);
    FindIsLeast(a + b + c, p);
    var i := Find(b, p).value;
    assert (a + b + c)[|a| + i..|a| + i + |p|] == b[i..i + |p|];
    assert OccursAt(a + b + c, p, |a| + i);
  }

  /** Nothing is found behind a point if nothing is found at all. */
  lemma FindBehind(s: string, p: string, i: nat)
    requires i <= |s| && Find(s, p).None?
    ensures Find(s[i..], p).None?
  {
    FindIsLeast(s, p);
    FindIsLeast(s[i..], p);
    if Find(s[i..], p).Some? {
      var j := Find(s[i..], p).value;
      assert s[i..][j..j + |p|] == s[i + j..i + j + |p|];
      assert OccursAt(s, p, i + j);
    }
  }

  /** Cut at the first occurrence of `c`, which belongs to neither piece. */
  function SplitOnce(s: string, c: char): (r: Option<(string, string)>)
    ensures r.None? <==> c !in s
    ensures r.Some? ==> c !in r.value.0 && s == r.value.0 + [c] + r.value.1
  {
    if s == "" then None
    else if s[0] == c then Some(("", s[1..]))
    else
      match SplitOnce(s[1..], c)
      case None => None
      case Some((a, b)) => Some(([s[0]] + a, b))
  }

  lemma {:induction false} SplitOnceAt(a: string, b: string, c: char)
    requires c !in a
    ensures SplitOnce(a + [c] + b, c) == Some((a, b))
  {
    var s := a + [c] + b;
    if a == "" {
      assert s[1..] == b;
    } else {
      assert s[1..] == a[1..] + [c] + b;
      SplitOnceAt(a[1..], b, c);
      assert a == [a[0]] + a[1..];
    }
  }

  /** The pieces between the occurrences of `c`; there is always at least one. */
  function Split(s: string, c: char): (r: seq<string>)
    ensures |r| > 0
    ensures forall i :: 0 <= i < |r| ==> c !in r[i]
    decreases |s|
  {
    match SplitOnce(s, c)
    case None => [s]
    case Some((a, b)) => [a] + Split(b, c)
  }

  lemma SplitFirst(a: string, b: string, c: char)
    requires c !in a
    ensures Split(a + [c] + b, c) == [a] + Split(b, c)
  {
    SplitOnceAt(a, b, c);
  }

  /** A pattern without a line break occurs on one side or the other of a blank line. */
  lemma OccursAcrossBreak(a: string, b: string, p: string, i: nat)
    requires p != "" && '\n' !in p
    ensures OccursAt(a + "\n\n" + b, p, i) <==>
            OccursAt(a, p, i) || (i >= |a| + 2 && OccursAt(b, p, i - |a| - 2))
  {
    var s := a + "\n\n" + b;
    if i + |p| <= |a| {
      assert s[i..i + |p|] == a[i..i + |p|];
    } else if i >= |a| + 2 {
      if i + |p| <= |s| {
        assert s[i..i + |p|] == b[i - |a| - 2..i - |a| - 2 + |p|];
      }
    } else if i + |p| <= |s| {
      // the occurrence would have to cover a line break
      var k := if i <= |a| then |a| else |a| + 1;
      assert s[i..i + |p|][k - i] == '\n';
    }
  }

  lemma FindAcrossBreak(a: string, b: string, p: string)
    requires p != "" && '\n' !in p
    ensures Find(a + "\n\n" + b, p) ==
            if Find(a, p).Some? then Find(a, p)
            else if Find(b, p).Some? then Some(|a| + 2 + Find(b, p).value)
            else None
  {
    var s := a + "\n\n" + b;
    FindIsLeast(s, p);
    FindIsLeast(a, p);
    FindIsLeast(b, p);
    forall i: nat
      ensures OccursAt(s, p, i) <==>
              OccursAt(a, p, i) || (i >= |a| + 2 && OccursAt(b, p, i - |a| - 2))
    {
      OccursAcrossBreak(a, b, p, i);
    }
    if Find(a, p).Some? {
      FindIs(s, p, Find(a, p).value);
    } else if Find(b, p).Some? {
      FindIs(s, p, |a| + 2 + Find(b, p).value);
    }
  }

  /** ASCII whitespace; the source's wider notion is only ever asked whether anything else is present. */
  predicate IsWhitespace(c: char) {
    c == ' ' || '\t' <= c <= '\r'
  }
}
