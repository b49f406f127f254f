/** Checking pages of a run's event log that come from an untrusted server. */
module RunmillPages {
  import opened Prelude

  const MAX_SAFE_INTEGER: nat := 9_007_199_254_740_991
  const U64_MAX: nat := 0xFFFF_FFFF_FFFF_FFFF

  /** A page, reduced to its event sequence numbers and its cursors. */
  datatype Page = Page(run: Name, seqs: seq<nat>, nextCursor: nat, hasMore: bool, gap: bool,
                       compactedThrough: Option<nat>, latest: nat)

  predicate Contiguous(seqs: seq<nat>) {
    forall i :: 0 <= i < |seqs| - 1 ==> seqs[i] + 1 == seqs[i + 1]
  }

  /** The request-independent checks; `stateVersion` is the run row's own. */
  predicate IsSane(p: Page, stateVersion: nat) {
    && p.latest != 0 && p.latest <= MAX_SAFE_INTEGER && p.latest == stateVersion
    && p.nextCursor <= MAX_SAFE_INTEGER
    && p.gap == p.compactedThrough.Some?
    && (p.compactedThrough.Some? ==> p.compactedThrough.value <= p.latest)
    && (forall i :: 0 <= i < |p.seqs| ==> p.seqs[i] <= p.latest)
    && Contiguous(p.seqs)
  }

  /** The checks against the request, in the source's order. */
  predicate Answers(p: Page, run: Name, after: nat, limit: nat) {
    if p.run != run || |p.seqs| > limit || !Contiguous(p.seqs) then false
    else if p.gap && (|| p.compactedThrough.None? || p.compactedThrough.value <= after
                      || p.seqs == [] || p.seqs[0] != p.compactedThrough.value + 1) then false
    else if !p.gap && (p.compactedThrough.Some? || (p.seqs != [] && p.seqs[0] != after + 1)) then false
    else if p.seqs == [] && (p.gap || after != p.latest || p.nextCursor != p.latest || p.hasMore) then false
    else if p.seqs != [] && p.seqs[|p.seqs| - 1] != p.nextCursor then false
    else if p.hasMore then |p.seqs| == limit && p.nextCursor < p.latest
    else p.nextCursor == p.latest
  }

  /** The bounds a client puts on its own request. */
  predicate RequestInRange(after: nat, limit: nat) {
    after <= MAX_SAFE_INTEGER && 1 <= limit <= 1_000
  }

  // -------------------------------------------------------- the honest server

  /** The numbers after `low` up to and including `high`. */
  function Range(low: nat, high: nat): (s: seq<nat>)
    ensures |s| == if low <= high then high - low else 0
    ensures forall i :: 0 <= i < |s| ==> s[i] == low + 1 + i
  {
    if low >= high then [] else seq(high - low, i requires i >= 0 => low + 1 + i)
  }

  function PageEnd(from: nat, limit: nat, latest: nat): nat {
    if from + limit < latest then from + limit else latest
  }

  /** What a log of length `latest`, whose first `compacted` entries are gone, returns. */
  function HonestPage(run: Name, after: nat, limit: nat, latest: nat, compacted: nat): Page
    requires after <= latest && compacted <= latest
  {
    var from := if compacted > after then compacted else after;
    var end := PageEnd(from, limit, latest);
    Page(run, Range(from, end), end, end < latest, compacted > after,
         if compacted > after then Some(compacted) else None, latest)
  }

  lemma {:induction false} ContiguousMeans(s: seq<nat>, i: nat)
    requires Contiguous(s) && i < |s|
    ensures s[i] == s[0] + i
  {
    if i > 0 { ContiguousMeans(s, i - 1); }
  }

  lemma ContiguousIsRange(s: seq<nat>, low: nat)
    requires Contiguous(s) && s != [] && s[0] == low + 1
    ensures s == Range(low, s[|s| - 1]) && s[|s| - 1] == low + |s|
  {
    forall i: nat | i < |s| ensures s[i] == low + 1 + i { ContiguousMeans(s, i); }
  }

  /**
   The validator is exact. A page without a gap is accepted iff it is the honest answer of a log
   of length `latest`; a page with a gap iff it is the honest, non-empty answer of a log that was
   compacted beyond the cursor.
   */
  lemma ValidatorIsExact(p: Page, run: Name, after: nat, limit: nat)
    requires limit >= 1
    ensures !p.gap ==>
              (Answers(p, run, after, limit) <==> after <= p.latest && p == HonestPage(run, after, limit, p.latest, 0))
    ensures p.gap ==>
              (Answers(p, run, after, limit) <==>
                 && p.compactedThrough.Some? && after < p.compactedThrough.value < p.latest
                 && p == HonestPage(run, after, limit, p.latest, p.compactedThrough.value))
  {
    if Answers(p, run, after, limit) {
      if p.seqs != [] { ContiguousIsRange(p.seqs, if p.gap then p.compactedThrough.value else after); }
    }
  }

  /** Of a page that answers the request, the checks on the page alone only ask for the right version and its range. */
  lemma SaneMeans(p: Page, stateVersion: nat, run: Name, after: nat, limit: nat)
    requires limit >= 1 && Answers(p, run, after, limit)
    ensures IsSane(p, stateVersion) <==> 1 <= p.latest <= 9_007_199_254_740_991 && stateVersion == p.latest
  {
    ValidatorIsExact(p, run, after, limit);
  }

  /** Within the client's own bounds no increment in the checks leaves a u64. */
  lemma IncrementsFit(p: Page, stateVersion: nat, after: nat, limit: nat)
    requires RequestInRange(after, limit) && IsSane(p, stateVersion)
    ensures after + 1 <= U64_MAX
    ensures p.compactedThrough.Some? ==> p.compactedThrough.value + 1 <= U64_MAX
    ensures forall i :: 0 <= i < |p.seqs| ==> p.seqs[i] + 1 <= U64_MAX
  {
  }

  // -------------------------------------------------------- following cursors

  /** Accepted pages, each asked for at the cursor of the one before, over a log that may grow. */
  ghost predicate Chain(run: Name, after: nat, limits: seq<nat>, pages: seq<Page>)
    requires |limits| == |pages|
    decreases |pages|
  {
    pages == [] ||
    (&& limits[0] >= 1 && Answers(pages[0], run, after, limits[0])
     && Chain(run, pages[0].nextCursor, limits[1..], pages[1..]))
  }

  function Events(pages: seq<Page>): seq<nat> {
    if pages == [] then [] else pages[0].seqs + Events(pages[1..])
  }

  function LastCursor(after: nat, pages: seq<Page>): nat {
    if pages == [] then after else pages[|pages| - 1].nextCursor
  }

  /** Is `n` in a compacted stretch the chain skips, from the cursor asked for to the gap's end? */
  predicate Skipped(after: nat, pages: seq<Page>, n: nat)
    decreases |pages|
  {
    pages != [] &&
    (|| (pages[0].compactedThrough.Some? && after < n <= pages[0].compactedThrough.value)
     || Skipped(pages[0].nextCursor, pages[1..], n))
  }

  lemma RangeAppend(a: nat, b: nat, c: nat)
    requires a <= b <= c
    ensures Range(a, b) + Range(b, c) == Range(a, c)
  {
  }

  /** Gap-free chains lose nothing and repeat nothing: exactly the next events, in order. */
  lemma {:induction false} ChainLosesNothing(run: Name, after: nat, limits: seq<nat>, pages: seq<Page>)
    requires |limits| == |pages| && Chain(run, after, limits, pages)
    requires forall i :: 0 <= i < |pages| ==> !pages[i].gap
    ensures after <= LastCursor(after, pages)
    ensures Events(pages) == Range(after, LastCursor(after, pages))
    decreases |pages|
  {
    if pages != [] {
      ValidatorIsExact(pages[0], run, after, limits[0]);
      ChainLosesNothing(run, pages[0].nextCursor, limits[1..], pages[1..]);
      RangeAppend(after, pages[0].nextCursor, LastCursor(after, pages));
    }
  }

  /** With gaps, each number passed is delivered or in a compacted stretch, and never both. */
  lemma {:induction false} ChainAccountsForAll(run: Name, after: nat, limits: seq<nat>, pages: seq<Page>, n: nat)
    requires |limits| == |pages| && Chain(run, after, limits, pages)
    ensures after <= LastCursor(after, pages)
    ensures (n in Events(pages) || Skipped(after, pages, n)) <==> after < n <= LastCursor(after, pages)
    ensures !(n in Events(pages) && Skipped(after, pages, n))
    ensures n in Events(pages) ==> multiset(Events(pages))[n] == 1
    decreases |pages|
  {
    if pages != [] {
      var p := pages[0];
      ValidatorIsExact(p, run, after, limits[0]);
      ChainAccountsForAll(run, p.nextCursor, limits[1..], pages[1..], n);
      assert LastCursor(after, pages) == LastCursor(p.nextCursor, pages[1..]);
      var from := if p.gap then p.compactedThrough.value else after;
      assert p.seqs == Range(from, p.nextCursor);
      RangeOnce(from, p.nextCursor, n);
      assert n in Events(pages) <==> n in p.seqs || n in Events(pages[1..]);
    }
  }

  lemma {:induction false} RangeOnce(low: nat, high: nat, n: nat)
    requires low <= high
    ensures n in Range(low, high) <==> low < n <= high
    ensures multiset(Range(low, high))[n] == if low < n <= high then 1 else 0
    decreases high - low
  {
    if low < n <= high { assert Range(low, high)[n - low - 1] == n; }
    if low < high {
      RangeOnce(low, high - 1, n);
      assert Range(low, high) == Range(low, high - 1) + [high];
    }
  }

  /**
   Catching up terminates: a page that announces more moves the cursor by exactly the limit past
   where the page starts, and a page that announces none ends at the end of the log.
   */
  lemma PageAdvances(p: Page, run: Name, after: nat, limit: nat)
    requires limit >= 1 && Answers(p, run, after, limit)
    ensures p.hasMore ==> p.nextCursor == (if p.gap then p.compactedThrough.value else after) + limit
    ensures p.hasMore ==> p.latest - p.nextCursor < p.latest - after
    ensures !p.hasMore ==> p.nextCursor == p.latest
  {
    ValidatorIsExact(p, run, after, limit);
  }

  /** Against a log that stands still, this many further pages are announced and then no more. */
  lemma {:induction false} CatchUpLength(run: Name, after: nat, limit: nat, latest: nat, pages: seq<Page>)
    requires limit >= 1 && Chain(run, after, seq(|pages|, _ => limit), pages)
    requires forall i :: 0 <= i < |pages| ==> pages[i].latest == latest && !pages[i].gap
    requires forall i :: 0 <= i < |pages| - 1 ==> pages[i].hasMore
    ensures pages != [] ==> (|pages| - 1) * limit < latest - after || (|pages| == 1 && after == latest)
    ensures pages != [] && !pages[|pages| - 1].hasMore ==> latest - after <= |pages| * limit
    decreases |pages|
  {
    if |pages| > 0 {
      var limits := seq(|pages|, _ => limit);
      ValidatorIsExact(pages[0], run, after, limit);
      if |pages| > 1 {
        assert limits[1..] == seq(|pages[1..]|, _ => limit);
        CatchUpLength(run, pages[0].nextCursor, limit, latest, pages[1..]);
      }
    }
  }
}
