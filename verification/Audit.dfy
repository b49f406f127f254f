/** The hash-linked audit chain: events, their verification in order, and the portable export. */
module Audit {
  import opened Prelude

  /** `body` is everything else of the event; `previous` is the hash it links to. */
  datatype Content = Content(id: Name, tenant: Name, previous: Option<Name>, body: Name)

  datatype Event = Event(content: Content, hash: Name)

  /** The canonical digest and the field checks. */
  datatype Rules = Rules(hash: Content -> Name, wellFormed: Content -> bool)
  {
    ghost predicate Injective() {
      forall a: Content, b: Content :: hash(a) == hash(b) ==> a == b
    }
  }

  datatype Error =
    | InvalidContent | HashMismatch
    | ForeignTenant(index: nat) | DuplicateId(index: nat) | DuplicateHash(index: nat) | OutOfOrder(index: nat)
    | UnsupportedFormat | CountMismatch | GenesisMismatch | HeadMismatch

  function Create(r: Rules, c: Content): Result<Event, Error> {
    if r.wellFormed(c) then Ok(Event(c, r.hash(c))) else Err(InvalidContent)
  }

  function Verify(r: Rules, e: Event): Option<Error> {
    if !r.wellFormed(e.content) then Some(InvalidContent)
    else if r.hash(e.content) != e.hash then Some(HashMismatch)
    else None
  }

  /** The hash that the event at a position has to link to. */
  function Link(events: seq<Event>, i: nat): Option<Name>
    requires i <= |events|
  {
    if i == 0 then None else Some(events[i - 1].hash)
  }

  ghost predicate IdSeen(events: seq<Event>, i: nat, id: Name)
    requires i <= |events|
  {
    exists j :: 0 <= j < i && events[j].content.id == id
  }

  ghost predicate HashSeen(events: seq<Event>, i: nat, hash: Name)
    requires i <= |events|
  {
    exists j :: 0 <= j < i && events[j].hash == hash
  }

  /** What is wrong with the event at a position, the first check that fails. */
  ghost function Fault(r: Rules, tenant: Name, events: seq<Event>, i: nat): Option<Error>
    requires i < |events|
  {
    var e := events[i];
    if Verify(r, e).Some? then Verify(r, e)
    else if e.content.tenant != tenant then Some(ForeignTenant(i))
    else if IdSeen(events, i, e.content.id) then Some(DuplicateId(i))
    else if HashSeen(events, i, e.hash) then Some(DuplicateHash(i))
    else if e.content.previous != Link(events, i) then Some(OutOfOrder(i))
    else None
  }

  ghost predicate Accepted(r: Rules, tenant: Name, events: seq<Event>) {
    forall i :: 0 <= i < |events| ==> Fault(r, tenant, events, i).None?
  }

  datatype Verified = Verified(tenant: Name, count: nat, genesisId: Option<Name>, genesisHash: Option<Name>,
                               headId: Option<Name>, headHash: Option<Name>)

  function Summary(tenant: Name, events: seq<Event>): Verified {
    if events == [] then Verified(tenant, 0, None, None, None, None)
    else
      var first, last := events[0], events[|events| - 1];
      Verified(tenant, |events|, Some(first.content.id), Some(first.hash), Some(last.content.id), Some(last.hash))
  }

  /** The verification loop: it accepts exactly the faultless chains and reports the first fault. */
  method VerifyAuditChain(r: Rules, tenant: Name, events: seq<Event>) returns (result: Result<Verified, Error>)
    ensures result.Ok? <==> Accepted(r, tenant, events)
    ensures result.Ok? ==> result.value == Summary(tenant, events)
    ensures result.Err? ==>
              exists i :: 0 <= i < |events| && Fault(r, tenant, events, i) == Some(result.error) &&
                          forall j :: 0 <= j < i ==> Fault(r, tenant, events, j).None?
  {
    var ids: set<Name> := {};
    var hashes: set<Name> := {};
    var expected: Option<Name> := None;
    for i := 0 to |events|
      invariant forall id :: id in ids <==> IdSeen(events, i, id)
      invariant forall hash :: hash in hashes <==> HashSeen(events, i, hash)
      invariant expected == Link(events, i)
      invariant forall j :: 0 <= j < i ==> Fault(r, tenant, events, j).None?
    {
      var e := events[i];
      ghost var fault := Fault(r, tenant, events, i);
      var error := Verify(r, e);
      if error.Some? { return Err(error.value); }
      if e.content.tenant != tenant { return Err(ForeignTenant(i)); }
      if e.content.id in ids { return Err(DuplicateId(i)); }
      ids := ids + {e.content.id};
      if e.hash in hashes { return Err(DuplicateHash(i)); }
      hashes := hashes + {e.hash};
      if e.content.previous != expected { return Err(OutOfOrder(i)); }
      expected := Some(e.hash);
    }
    result := Ok(Summary(tenant, events));
  }

  // --------------------------------------------------- what acceptance commits to

  /** The facts about an accepted chain that the proofs use. */
  lemma AcceptedMeans(r: Rules, tenant: Name, events: seq<Event>, i: nat)
    requires Accepted(r, tenant, events) && i < |events|
    ensures events[i].content.tenant == tenant && events[i].hash == r.hash(events[i].content)
    ensures events[i].content.previous == Link(events, i)
    ensures forall j :: 0 <= j < |events| && j != i ==>
              events[j].hash != events[i].hash && events[j].content.id != events[i].content.id
  {
    assert Fault(r, tenant, events, i).None?;
    forall j | 0 <= j < |events| && j != i
      ensures events[j].hash != events[i].hash && events[j].content.id != events[i].content.id
    {
      assert Fault(r, tenant, events, j).None?;
    }
  }

  /** A prefix of an accepted chain is accepted. */
  lemma PrefixIsAccepted(r: Rules, tenant: Name, events: seq<Event>, n: nat)
    requires Accepted(r, tenant, events) && n <= |events|
    ensures Accepted(r, tenant, events[..n])
  {
    forall i | 0 <= i < n ensures Fault(r, tenant, events[..n], i).None? {
      assert Fault(r, tenant, events, i).None?;
    }
  }

  /** Appending: exactly a well-formed, correctly hashed event with fresh identifiers and the right link. */
  lemma AppendIsAccepted(r: Rules, tenant: Name, events: seq<Event>, e: Event)
    requires Accepted(r, tenant, events)
    ensures Accepted(r, tenant, events + [e]) <==>
            && Verify(r, e).None? && e.content.tenant == tenant
            && e.content.previous == Summary(tenant, events).headHash
            && forall j :: 0 <= j < |events| ==> events[j].content.id != e.content.id && events[j].hash != e.hash
  {
    var all := events + [e];
    assert all[..|events|] == events;
    forall i | 0 <= i < |events| ensures Fault(r, tenant, all, i) == Fault(r, tenant, events, i) {
      assert forall id :: IdSeen(all, i, id) <==> IdSeen(events, i, id);
      assert forall hash :: HashSeen(all, i, hash) <==> HashSeen(events, i, hash);
    }
    assert all[|events|] == e;
    assert Accepted(r, tenant, all) <==> Fault(r, tenant, all, |events|).None?;
    assert IdSeen(all, |events|, e.content.id) <==> exists j :: 0 <= j < |events| && events[j].content.id == e.content.id;
    assert HashSeen(all, |events|, e.hash) <==> exists j :: 0 <= j < |events| && events[j].hash == e.hash;
  }

  /** Acceptance, in the fields of the events. */
  lemma AcceptedInFields(r: Rules, tenant: Name, events: seq<Event>)
    ensures Accepted(r, tenant, events) <==>
            && (forall i :: 0 <= i < |events| ==>
                  && r.wellFormed(events[i].content) && events[i].hash == r.hash(events[i].content)
                  && events[i].content.tenant == tenant)
            && (forall i, j :: 0 <= i < j < |events| ==>
                  events[i].content.id != events[j].content.id && events[i].hash != events[j].hash)
            && (events != [] ==> events[0].content.previous == None)
            && (forall i :: 0 < i < |events| ==> events[i].content.previous == Some(events[i - 1].hash))
  {
    if Accepted(r, tenant, events) {
      forall i | 0 <= i < |events|
        ensures r.wellFormed(events[i].content) && events[i].hash == r.hash(events[i].content)
        ensures events[i].content.tenant == tenant && events[i].content.previous == Link(events, i)
      {
        assert Fault(r, tenant, events, i).None?;
      }
      forall i, j | 0 <= i < j < |events|
        ensures events[i].content.id != events[j].content.id && events[i].hash != events[j].hash
      {
        assert Fault(r, tenant, events, j).None?;
      }
    }
  }

  /** The summary of a chain: its length, its first event and its last. */
  lemma SummaryMeans(tenant: Name, events: seq<Event>)
    ensures var v := Summary(tenant, events);
            && v.tenant == tenant && v.count == |events|
            && (events == [] ==> v == Verified(tenant, 0, None, None, None, None))
            && (events != [] ==>
                  && v.genesisId == Some(events[0].content.id) && v.genesisHash == Some(events[0].hash)
                  && v.headId == Some(events[|events| - 1].content.id) && v.headHash == Some(events[|events| - 1].hash))
  {
  }

  /** A created event extends the chain exactly if tenant, link and identifier are right. */
  lemma CreatedExtends(r: Rules, tenant: Name, events: seq<Event>, c: Content)
    requires r.Injective() && Accepted(r, tenant, events) && Create(r, c).Ok?
    ensures Accepted(r, tenant, events + [Create(r, c).value]) <==>
            && c.tenant == tenant && c.previous == Summary(tenant, events).headHash
            && forall j :: 0 <= j < |events| ==> events[j].content.id != c.id
  {
    AppendIsAccepted(r, tenant, events, Create(r, c).value);
    forall j | 0 <= j < |events| ensures events[j].hash == r.hash(events[j].content) {
      AcceptedMeans(r, tenant, events, j);
    }
  }

  /** With an injective digest the head hash commits to the whole history. */
  lemma {:induction false} HeadCommitsHistory(r: Rules, tenant: Name, a: seq<Event>, tenant': Name, b: seq<Event>)
    requires r.Injective() && Accepted(r, tenant, a) && Accepted(r, tenant', b)
    requires Summary(tenant, a).headHash == Summary(tenant', b).headHash
    ensures a == b && (a != [] ==> tenant == tenant')
    decreases |a|
  {
    if a != [] {
      var x, y := a[|a| - 1], b[|b| - 1];
      AcceptedMeans(r, tenant, a, |a| - 1);
      AcceptedMeans(r, tenant', b, |b| - 1);
      assert r.hash(x.content) == r.hash(y.content);
      assert x == y;
      PrefixIsAccepted(r, tenant, a, |a| - 1);
      PrefixIsAccepted(r, tenant', b, |b| - 1);
      HeadCommitsHistory(r, tenant, a[..|a| - 1], tenant', b[..|b| - 1]);
      assert a == a[..|a| - 1] + [x] && b == b[..|b| - 1] + [y];
    }
  }

  /**
   Whatever the digest: a chain put together from events of an accepted chain is accepted exactly
   when it is a prefix of it. Dropping, repeating, reordering or starting late never passes.
   */
  lemma SubchainIsPrefix(r: Rules, tenant: Name, a: seq<Event>, b: seq<Event>)
    requires Accepted(r, tenant, a) && forall i :: 0 <= i < |b| ==> b[i] in a
    ensures Accepted(r, tenant, b) <==> b <= a
  {
    if Accepted(r, tenant, b) {
      Follows(r, tenant, a, b, |b|);
      assert b[..|b|] == b;
    }
    if b <= a {
      assert b == a[..|b|];
      PrefixIsAccepted(r, tenant, a, |b|);
    }
  }

  lemma {:induction false} Follows(r: Rules, tenant: Name, a: seq<Event>, b: seq<Event>, n: nat)
    requires Accepted(r, tenant, a) && Accepted(r, tenant, b) && n <= |b|
    requires forall i :: 0 <= i < |b| ==> b[i] in a
    ensures n <= |a| && b[..n] == a[..n]
  {
    if n > 0 {
      Follows(r, tenant, a, b, n - 1);
      assert b[n - 1] in a;
      var k :| 0 <= k < |a| && a[k] == b[n - 1];
      AcceptedMeans(r, tenant, b, n - 1);
      AcceptedMeans(r, tenant, a, k);
      assert Link(a, k) == Link(b, n - 1);
      if n > 1 {
        assert b[n - 2] == b[..n - 1][n - 2] == a[n - 2];
        assert a[k - 1].hash == a[n - 2].hash;
        AcceptedMeans(r, tenant, a, n - 2);
      }
      assert k == n - 1;
      assert b[..n] == b[..n - 1] + [b[n - 1]] && a[..n] == a[..n - 1] + [a[n - 1]];
    }
  }

  // ------------------------------------------------------------------ exports

  const FORMAT: Name := 1

  datatype Export = Export(format: Name, tenant: Name, count: nat, genesisHash: Option<Name>,
                           headHash: Option<Name>, events: seq<Event>)

  method CreateExport(r: Rules, tenant: Name, events: seq<Event>) returns (result: Result<Export, Error>)
    ensures result.Ok? <==> Accepted(r, tenant, events)
    ensures result.Ok? ==> ExportIsValid(r, result.value) && result.value.tenant == tenant && result.value.events == events
  {
    var verified := VerifyAuditChain(r, tenant, events);
    match verified
    case Err(error) => return Err(error);
    case Ok(v) => return Ok(Export(FORMAT, tenant, v.count, v.genesisHash, v.headHash, events));
  }

  ghost predicate ExportIsValid(r: Rules, x: Export) {
    && x.format == FORMAT && Accepted(r, x.tenant, x.events)
    && var v := Summary(x.tenant, x.events);
       x.count == v.count && x.genesisHash == v.genesisHash && x.headHash == v.headHash
  }

  method VerifyExport(r: Rules, x: Export) returns (result: Result<Verified, Error>)
    ensures result.Ok? <==> ExportIsValid(r, x)
    ensures result.Ok? ==> result.value == Summary(x.tenant, x.events)
  {
    if x.format != FORMAT { return Err(UnsupportedFormat); }
    var verified := VerifyAuditChain(r, x.tenant, x.events);
    if verified.Err? { return verified; }
    if x.count != verified.value.count { return Err(CountMismatch); }
    if x.genesisHash != verified.value.genesisHash { return Err(GenesisMismatch); }
    if x.headHash != verified.value.headHash { return Err(HeadMismatch); }
    return verified;
  }

  /** Two valid exports with the same non-empty head are the same export, down to every field. */
  lemma ExportIsDetermined(r: Rules, x: Export, y: Export)
    requires r.Injective() && ExportIsValid(r, x) && ExportIsValid(r, y)
    requires x.headHash.Some? && x.headHash == y.headHash
    ensures x == y
  {
    HeadCommitsHistory(r, x.tenant, x.events, y.tenant, y.events);
  }

  /** An export is valid exactly if it has the format, its chain is accepted, and it states length and ends truly. */
  lemma ExportMeans(r: Rules, x: Export)
    ensures ExportIsValid(r, x) <==>
            && x.format == FORMAT && Accepted(r, x.tenant, x.events) && x.count == |x.events|
            && (if x.events == [] then x.genesisHash.None? && x.headHash.None?
                else x.genesisHash == Some(x.events[0].hash) && x.headHash == Some(x.events[|x.events| - 1].hash))
  {
  }
}
