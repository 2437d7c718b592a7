/**
 Expiring work leases shared by every gateway. One call is up to three separate
 statements, and statements of different gateways interleave freely.
 */
module Leases {
  import opened Common

  const MIN_TTL := 1000
  const MAX_TTL := 2 * 60 * 60000
  const MAX_NAME := 160

  datatype Lease = Lease(owner: string, until: int)
  type Table = map<string, Lease>

  datatype Request = Request(name: string, owner: string, ttl: int, now: int)

  function Granted(r: Request): Lease { Lease(r.owner, r.now + r.ttl) }

  predicate IsNameChar(c: char) {
    'A' <= c <= 'Z' || 'a' <= c <= 'z' || '0' <= c <= '9' || c == ':' || c == '_' || c == '-'
  }

  predicate IsName(s: string) { 1 <= |s| <= MAX_NAME && forall i | 0 <= i < |s| :: IsNameChar(s[i]) }

  predicate IsRequest(r: Request) { IsName(r.name) && IsName(r.owner) && MIN_TTL <= r.ttl <= MAX_TTL }

  /** The row may be overwritten: it is the caller's own, or it has expired by the caller's clock. */
  predicate Takeable(lease: Lease, r: Request) { lease.owner == r.owner || lease.until <= r.now }

  predicate CanUpdate(table: Table, r: Request) { r.name in table && Takeable(table[r.name], r) }

  predicate CanDelete(table: Table, name: string, owner: string) { name in table && table[name].owner == owner }

  /** Nobody else holds the name at this time: no row, the caller's own, or one that has reached its expiry. */
  predicate Free(table: Table, name: string, owner: string, now: int) {
    name in table ==> table[name].owner == owner || now >= table[name].until
  }

  datatype Result = Answer(acquired: bool) | Invalid

  class LeaseTable {
    var table: Table

    constructor ()
      ensures table == map[]
    {
      table := map[];
    }

    /** One call with no other gateway in between. */
    method TryAcquireLease(r: Request) returns (result: Result)
      modifies this
      ensures result.Invalid? <==> !IsRequest(r)
      ensures result.Answer? ==> (result.acquired <==> Free(old(table), r.name, r.owner, r.now))
      ensures table == if result == Answer(true) then old(table)[r.name := Granted(r)] else old(table)
    {
      if !IsRequest(r) { return Invalid; }
      var updated := Update(r);
      if updated { return Answer(true); }
      var found := Exists(r.name);
      if found { return Answer(false); }
      var inserted := Insert(r);
      return Answer(inserted);
    }

    method Update(r: Request) returns (changed: bool)
      modifies this
      ensures changed == CanUpdate(old(table), r)
      ensures table == if changed then old(table)[r.name := Granted(r)] else old(table)
    {
      changed := r.name in table && (table[r.name].owner == r.owner || table[r.name].until <= r.now);
      if changed { table := table[r.name := Lease(r.owner, r.now + r.ttl)]; }
    }

    method Exists(name: string) returns (found: bool)
      ensures found <==> name in table
    {
      found := name in table;
    }

    /** The unique key turns a lost race into a plain refusal. */
    method Insert(r: Request) returns (inserted: bool)
      modifies this
      ensures inserted <==> r.name !in old(table)
      ensures table == if inserted then old(table)[r.name := Granted(r)] else old(table)
    {
      inserted := r.name !in table;
      if inserted { table := table[r.name := Lease(r.owner, r.now + r.ttl)]; }
    }

    method ReleaseLease(name: string, owner: string)
      modifies this
      ensures table == if CanDelete(old(table), name, owner) then old(table) - {name} else old(table)
    {
      if name in table && table[name].owner == owner { table := table - {name}; }
    }
  }

  // ---------------------------------------------------------------- many gateways

  datatype Statement = AtUpdate | AtSelect | AtInsert | Returned(acquired: bool)
  datatype InFlight = InFlight(request: Request, at: Statement)

  /** What callers have been told, in the order it happened. */
  datatype Event = Acquired(request: Request) | Released(name: string, owner: string)

  datatype System = System(table: Table, calls: map<nat, InFlight>, events: seq<Event>)

  const Empty: System := System(map[], map[], [])

  datatype Step = Begin(id: nat, request: Request) | Execute(id: nat) | Vanish(id: nat) | Release(name: string, owner: string)

  function Wrote(s: System, id: nat, r: Request): System {
    System(s.table[r.name := Granted(r)], s.calls[id := InFlight(r, Returned(true))], s.events + [Acquired(r)])
  }

  function Reached(s: System, id: nat, at: Statement): System
    requires id in s.calls
  {
    s.(calls := s.calls[id := s.calls[id].(at := at)])
  }

  /** The next statement of one call, against whatever the table holds by then. */
  function Executed(s: System, id: nat): System
    requires id in s.calls
  {
    var r := s.calls[id].request;
    match s.calls[id].at
    case AtUpdate => if CanUpdate(s.table, r) then Wrote(s, id, r) else Reached(s, id, AtSelect)
    case AtSelect => Reached(s, id, if r.name in s.table then Returned(false) else AtInsert)
    case AtInsert => if r.name !in s.table then Wrote(s, id, r) else Reached(s, id, Returned(false))
    case Returned(_) => s
  }

  function Next(s: System, step: Step): System {
    match step
    case Begin(id, r) =>
      if id in s.calls || !IsRequest(r) then s else s.(calls := s.calls[id := InFlight(r, AtUpdate)])
    case Execute(id) => if id in s.calls then Executed(s, id) else s
    case Vanish(id) => s.(calls := s.calls - {id})
    case Release(name, owner) =>
      if CanDelete(s.table, name, owner) then s.(table := s.table - {name}, events := s.events + [Released(name, owner)]) else s
  }

  function Run(steps: seq<Step>): System {
    if steps == [] then Empty else Next(Run(steps[..|steps| - 1]), steps[|steps| - 1])
  }

  /** A call that no other step disturbs answers and writes what one undivided call would: it is granted exactly
      when the name is free, until its duration from now. */
  lemma UndisturbedCall(s: System, id: nat, r: Request)
    requires id !in s.calls && IsRequest(r)
    ensures var t := Next(Next(Next(Next(s, Begin(id, r)), Execute(id)), Execute(id)), Execute(id));
      var acquired := Free(s.table, r.name, r.owner, r.now);
      && id in t.calls && t.calls[id].at == Returned(acquired)
      && (if acquired then t.table == s.table[r.name := Lease(r.owner, r.now + r.ttl)] && t.events == s.events + [Acquired(r)]
          else t.table == s.table && t.events == s.events)
  {
  }

  /** A release gives back the caller's own lease of that name and nothing else. */
  lemma ReleaseMeans(s: System, name: string, owner: string)
    ensures var t := Next(s, Release(name, owner));
      if name in s.table && s.table[name].owner == owner
      then t.table == s.table - {name} && t.events == s.events + [Released(name, owner)]
      else t == s
  {
  }

  /** A call that was told yes has its grant among the events, in every interleaving. */
  lemma {:induction false} AnswersAreTrue(steps: seq<Step>, id: nat)
    requires id in Run(steps).calls && Run(steps).calls[id].at == Returned(true)
    ensures exists j :: 0 <= j < |Run(steps).events| && Run(steps).events[j] == Acquired(Run(steps).calls[id].request)
  {
    var front, last := steps[..|steps| - 1], steps[|steps| - 1];
    var s, t := Run(front), Run(steps);
    if id in s.calls && s.calls[id].at == Returned(true) {
      AnswersAreTrue(front, id);
      var j :| 0 <= j < |s.events| && s.events[j] == Acquired(s.calls[id].request);
      assert t.events[j] == s.events[j];
    } else {
      assert t.events == s.events + [Acquired(t.calls[id].request)];
      assert t.events[|s.events|] == Acquired(t.calls[id].request);
    }
  }

  predicate About(e: Event, name: string) { (if e.Acquired? then e.request.name else e.name) == name }

  /** Who holds the name according to the events alone. */
  function Holder(events: seq<Event>, name: string): Option<Lease> {
    if events == [] then None
    else
      var last := events[|events| - 1];
      if About(last, name) then (if last.Acquired? then Some(Granted(last.request)) else None)
      else Holder(events[..|events| - 1], name)
  }

  /** The event at this place was allowed by the holder before it. */
  predicate Fair(events: seq<Event>, j: nat)
    requires j < |events|
  {
    match events[j]
    case Acquired(r) => var holder := Holder(events[..j], r.name); holder.Some? ==> Takeable(holder.value, r)
    case Released(name, owner) => var holder := Holder(events[..j], name); holder.Some? && holder.value.owner == owner
  }

  function Row(table: Table, name: string): Option<Lease> { if name in table then Some(table[name]) else None }

  ghost predicate Inv(s: System) {
    (forall name :: Row(s.table, name) == Holder(s.events, name)) && (forall j | 0 <= j < |s.events| :: Fair(s.events, j))
  }

  function RowAfter(table: Table, e: Event, name: string): Option<Lease> {
    if !About(e, name) then Row(table, name) else if e.Acquired? then Some(Granted(e.request)) else None
  }

  lemma Appended(s: System, t: System, e: Event)
    requires Inv(s) && t.events == s.events + [e]
    requires Fair(t.events, |s.events|)
    requires forall name :: Row(t.table, name) == RowAfter(s.table, e, name)
    ensures Inv(t)
  {
    FrontOfSnoc(s.events, e);
    forall name ensures Row(t.table, name) == Holder(t.events, name) {
      assert Row(s.table, name) == Holder(s.events, name);
    }
    forall j | 0 <= j < |t.events| ensures Fair(t.events, j) {
      if j < |s.events| {
        assert Fair(s.events, j);
        assert t.events[..j] == s.events[..j];
      }
    }
  }

  lemma StepKeepsInv(s: System, step: Step)
    requires Inv(s)
    ensures Inv(Next(s, step))
  {
    var t := Next(s, step);
    if t.events != s.events {
      var e := t.events[|s.events|];
      assert t.events == s.events + [e];
      assert t.events[..|s.events|] == s.events;
      var name := if e.Acquired? then e.request.name else e.name;
      assert Row(s.table, name) == Holder(s.events, name);
      Appended(s, t, e);
    }
  }

  /** The row of every name is the lease last granted for it and not given back. */
  lemma {:induction false} RowIsLastAcquirer(steps: seq<Step>)
    ensures Inv(Run(steps))
  {
    if steps != [] {
      RowIsLastAcquirer(steps[..|steps| - 1]);
      StepKeepsInv(Run(steps[..|steps| - 1]), steps[|steps| - 1]);
    }
  }

  /** This event granted the lease, and nothing later is about the name. */
  predicate LastGrant(events: seq<Event>, i: nat, name: string, lease: Lease)
    requires i < |events|
  {
    && events[i].Acquired? && About(events[i], name) && Granted(events[i].request) == lease
    && forall k | i < k < |events| :: !About(events[k], name)
  }

  lemma LastGrantStays(events: seq<Event>, i: nat, name: string, lease: Lease)
    requires i < |events| - 1 && !About(events[|events| - 1], name)
    ensures LastGrant(events, i, name, lease) <==> LastGrant(events[..|events| - 1], i, name, lease)
  {
    var rest := events[..|events| - 1];
    assert forall k | 0 <= k < |rest| :: rest[k] == events[k];
  }

  /** What the holder is, without recursion: the last event about the name. */
  lemma {:induction false} HolderIsLastEvent(events: seq<Event>, name: string, lease: Lease)
    ensures Holder(events, name) == Some(lease) <==> exists i :: 0 <= i < |events| && LastGrant(events, i, name, lease)
  {
    if events != [] {
      var n := |events| - 1;
      HolderIsLastEvent(events[..n], name, lease);
      if About(events[n], name) {
        assert forall i | 0 <= i < n :: !LastGrant(events, i, name, lease);
        assert LastGrant(events, n, name, lease) <==> Holder(events, name) == Some(lease);
      } else {
        forall i | 0 <= i < n ensures LastGrant(events, i, name, lease) <==> LastGrant(events[..n], i, name, lease) {
          LastGrantStays(events, i, name, lease);
        }
      }
    }
  }

  /** The lease of `owner` ended at this event: given back, or taken over once it had expired. */
  predicate EndsLeaseOf(events: seq<Event>, l: nat, name: string, owner: string)
    requires l < |events|
  {
    var holder := Holder(events[..l], name);
    && holder.Some? && holder.value.owner == owner
    && (|| events[l] == Released(name, owner)
        || (events[l].Acquired? && events[l].request.name == name && events[l].request.owner != owner
            && holder.value.until <= events[l].request.now))
  }

  lemma {:induction false} LeaseEnds(events: seq<Event>, name: string, owner: string, i: nat, j: nat) returns (l: nat)
    requires i <= j < |events| && forall k | 0 <= k < |events| :: Fair(events, k)
    requires var holder := Holder(events[..i], name); holder.Some? && holder.value.owner == owner
    requires events[j].Acquired? && events[j].request.name == name && events[j].request.owner != owner
    ensures i <= l <= j && EndsLeaseOf(events, l, name, owner)
    decreases j - i
  {
    assert Fair(events, i);
    if EndsLeaseOf(events, i, name, owner) { return i; }
    assert events[..i + 1][..i] == events[..i];
    l := LeaseEnds(events, name, owner, i + 1, j);
  }

  /** In every interleaving: between one owner's success and a different owner's later success, the
      first owner either gave the lease back, or was overtaken by a caller whose clock had reached the
      expiry the first owner had last written. */
  lemma HandOver(steps: seq<Step>, i: nat, j: nat) returns (l: nat)
    requires var events := Run(steps).events;
      && i < j < |events| && events[i].Acquired? && events[j].Acquired?
      && events[i].request.name == events[j].request.name && events[i].request.owner != events[j].request.owner
    ensures var events := Run(steps).events;
      i < l <= j && EndsLeaseOf(events, l, events[i].request.name, events[i].request.owner)
  {
    RowIsLastAcquirer(steps);
    var events := Run(steps).events;
    FrontOfSnoc(events[..i], events[i]);
    assert events[..i + 1] == events[..i] + [events[i]];
    l := LeaseEnds(events, events[i].request.name, events[i].request.owner, i + 1, j);
  }

  /** Neighbouring successes of different owners with no event in between: the second caller's clock
      is at or past the expiry written by the first. */
  lemma TakeoverOnlyAfterExpiry(steps: seq<Step>, i: nat, j: nat)
    requires var events := Run(steps).events;
      && i < j < |events| && events[i].Acquired? && events[j].Acquired?
      && events[i].request.name == events[j].request.name && events[i].request.owner != events[j].request.owner
      && forall k | i < k < j :: !About(events[k], events[i].request.name)
    ensures var events := Run(steps).events; events[i].request.now + events[i].request.ttl <= events[j].request.now
  {
    RowIsLastAcquirer(steps);
    var events := Run(steps).events;
    assert Fair(events, j);
    var before := events[..j];
    assert forall k | i < k < j :: before[k] == events[k];
    assert before[i] == events[i];
    assert LastGrant(before, i, events[i].request.name, Granted(events[i].request));
    HolderIsLastEvent(before, events[i].request.name, Granted(events[i].request));
  }

  /** A renewal may move the expiry back: the owner's own row is overwritten whatever it says, so a
      later call with a shorter duration leaves less time than the earlier one had promised. */
  lemma RenewalMayShorten()
    ensures exists first: Request, second: Request ::
      && IsRequest(first) && IsRequest(second) && first.owner == second.owner && first.now <= second.now
      && CanUpdate(map[first.name := Granted(first)], second) && Granted(second).until < Granted(first).until
  {
    var first, second := Request("n", "o", MAX_TTL, 0), Request("n", "o", MIN_TTL, 1);
    assert IsRequest(first) && IsRequest(second);
    assert CanUpdate(map[first.name := Granted(first)], second) && Granted(second).until < Granted(first).until;
  }
}
