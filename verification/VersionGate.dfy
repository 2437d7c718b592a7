/** The browser's filter over versioned room messages. */
module VersionGate {
  /** The gate's fields as a value. */
  datatype Gate = Gate(latest: int, seen: set<string>)

  const Closed: Gate := Gate(-1, {})

  predicate Accepts(gate: Gate, kind: string, version: int) {
    version > gate.latest || (version == gate.latest && kind !in gate.seen)
  }

  function Next(gate: Gate, kind: string, version: int): Gate {
    if version > gate.latest then Gate(version, {kind})
    else if version == gate.latest then gate.(seen := gate.seen + {kind})
    else gate
  }

  class RoomVersionGate {
    var latest: int
    var seenAtLatest: set<string>

    function Value(): Gate
      reads this
    {
      Gate(latest, seenAtLatest)
    }

    constructor ()
      ensures Value() == Closed
    {
      latest, seenAtLatest := -1, {};
    }

    method Reset()
      modifies this
      ensures Value() == Closed
    {
      latest := -1;
      seenAtLatest := {};
    }

    method Accept(kind: string, version: int) returns (accepted: bool)
      modifies this
      ensures accepted == Accepts(old(Value()), kind, version)
      ensures Value() == Next(old(Value()), kind, version)
    {
      if version < latest { return false; }
      if version > latest {
        latest := version;
        seenAtLatest := {};
      }
      if kind in seenAtLatest { return false; }
      seenAtLatest := seenAtLatest + {kind};
      return true;
    }
  }

  datatype Message = Message(kind: string, version: int)

  /** The messages a gate lets through, in order. */
  function Passed(gate: Gate, messages: seq<Message>): seq<Message>
    decreases |messages|
  {
    if messages == [] then []
    else
      var m := messages[0];
      (if Accepts(gate, m.kind, m.version) then [m] else []) + Passed(Next(gate, m.kind, m.version), messages[1..])
  }

  /** Whatever arrives in whatever order, the messages let through never go back in version, and no
      kind passes twice at one version. */
  lemma {:induction false} PassedInOrderOnce(gate: Gate, messages: seq<Message>)
    ensures forall m :: m in Passed(gate, messages) ==> Accepts(gate, m.kind, m.version)
    ensures InOrderOnce(Passed(gate, messages))
    decreases |messages|
  {
    if messages != [] {
      var head := messages[0];
      var next := Next(gate, head.kind, head.version);
      var rest := Passed(next, messages[1..]);
      PassedInOrderOnce(next, messages[1..]);
      forall m | m in rest
        ensures Accepts(gate, m.kind, m.version)
        ensures Accepts(gate, head.kind, head.version) ==> head.version <= m.version && m != head
      {
        assert Accepts(next, m.kind, m.version);
      }
      if Accepts(gate, head.kind, head.version) {
        assert Passed(gate, messages) == [head] + rest;
        OrderedCons(head, rest);
      } else {
        assert Passed(gate, messages) == rest;
      }
    }
  }

  ghost predicate InOrderOnce(p: seq<Message>) {
    forall i, j | 0 <= i < j < |p| :: p[i].version <= p[j].version && p[i] != p[j]
  }

  lemma OrderedCons(head: Message, rest: seq<Message>)
    requires InOrderOnce(rest)
    requires forall m | m in rest :: head.version <= m.version && m != head
    ensures InOrderOnce([head] + rest)
  {
    var p := [head] + rest;
    forall i, j | 0 <= i < j < |p| ensures p[i].version <= p[j].version && p[i] != p[j] {
      assert p[j] == rest[j - 1] && rest[j - 1] in rest;
      if i > 0 { assert p[i] == rest[i - 1]; }
    }
  }

  /** Exactly the messages that are news get through: newer than everything before, or a new kind at
      the newest version. */
  lemma {:induction false} FirstNewestPasses(gate: Gate, before: seq<Message>, m: Message)
    requires m.version >= gate.latest && (forall i | 0 <= i < |before| :: before[i].version <= m.version)
    requires m !in before && (m.version == gate.latest ==> m.kind !in gate.seen)
    ensures Passed(gate, before + [m]) == Passed(gate, before) + [m]
    decreases |before|
  {
    if before == [] {
      assert before + [m] == [m];
      assert [m][1..] == [];
    } else {
      assert (before + [m])[1..] == before[1..] + [m];
      FirstNewestPasses(Next(gate, before[0].kind, before[0].version), before[1..], m);
    }
  }
}
