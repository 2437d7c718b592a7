/**
 A seat's armed pass shortcut: what it becomes as states are observed, and its
 stored JSON form.
 */
module PassUntil {
  import opened Common
  import Decimals

  const MAX_SAFE_INTEGER := 9007199254740991
  const MAX_SEEN := 256
  const MAX_KEY := 64

  /** A stack layer: a card, an activated ability of its source, or neither for a trigger. */
  datatype Layer = Layer(seat: nat, source: nat, card: Option<nat>, ability: bool, abilityIndex: Option<nat>)
  datatype ChainLink = ChainLink(attacker: nat, attackingCard: nat, resolved: bool)

  datatype State = State(turn: nat, activePlayer: nat, gameOver: bool, stack: seq<Layer>, chain: seq<ChainLink>)

  datatype LinkId = LinkId(index: nat, instanceId: nat)
  datatype Mode = TurnMode | ChainLinkMode | OpponentMode
  datatype Latch = TurnLatch(turn: nat) | ChainLinkLatch(turn: nat, link: Option<LinkId>) | OpponentLatch(turn: nat, seen: seq<string>)

  // ---------------------------------------------------------------- plays and links

  function LayerKey(layer: Layer): string {
    "layer:" + Decimals.Print(layer.source) + ":"
    + (if layer.card.Some? then Decimals.Print(layer.card.value) else "ability") + ":"
    + Decimals.Print(if layer.abilityIndex.Some? then layer.abilityIndex.value else 0)
  }

  function LinkKey(index: nat, link: ChainLink): string {
    "link:" + Decimals.Print(index) + ":" + Decimals.Print(link.attackingCard)
  }

  predicate IsPlay(layer: Layer, seat: nat) { layer.seat != seat && (layer.card.Some? || layer.ability) }

  predicate IsThreat(link: ChainLink, seat: nat) { link.attacker != seat && !link.resolved }

  function StackPlays(stack: seq<Layer>, seat: nat): seq<string> {
    if stack == [] then []
    else if IsPlay(stack[0], seat) then [LayerKey(stack[0])] + StackPlays(stack[1..], seat)
    else StackPlays(stack[1..], seat)
  }

  function LinkPlays(chain: seq<ChainLink>, from: nat, seat: nat): seq<string>
    requires from <= |chain|
    decreases |chain| - from
  {
    if from == |chain| then []
    else if IsThreat(chain[from], seat) then [LinkKey(from, chain[from])] + LinkPlays(chain, from + 1, seat)
    else LinkPlays(chain, from + 1, seat)
  }

  function OpponentPlays(s: State, seat: nat): seq<string> { StackPlays(s.stack, seat) + LinkPlays(s.chain, 0, seat) }

  function OpenLink(s: State): Option<LinkId> {
    if s.chain == [] || s.chain[|s.chain| - 1].resolved then None
    else Some(LinkId(|s.chain| - 1, s.chain[|s.chain| - 1].attackingCard))
  }

  predicate Within(a: seq<string>, b: seq<string>) { forall i | 0 <= i < |a| :: a[i] in b }

  predicate NoColon(s: string) { forall i | 0 <= i < |s| :: s[i] != ':' }

  lemma SplitAtColon(a: string, r: string, b: string, t: string)
    requires NoColon(a) && NoColon(b) && a + ":" + r == b + ":" + t
    ensures a == b && r == t
  {
    var x, y := a + ":" + r, b + ":" + t;
    assert forall i | 0 <= i < |a| :: x[i] == a[i];
    assert forall i | 0 <= i < |b| :: y[i] == b[i];
    assert x[|a|] == ':' && y[|b|] == ':';
    assert |a| == |b|;
    assert a == x[..|a|] && b == y[..|b|];
    assert r == x[|a| + 1..] && t == y[|b| + 1..];
  }

  lemma PrintIdentifies(n: nat, m: nat)
    ensures Decimals.Print(n) == Decimals.Print(m) <==> n == m
    ensures NoColon(Decimals.Print(n)) && Decimals.Print(n) != "ability"
  {
    Decimals.ValueOfPrint(n);
    Decimals.ValueOfPrint(m);
  }

  function CardPart(layer: Layer): string { if layer.card.Some? then Decimals.Print(layer.card.value) else "ability" }

  function AbilityNumber(layer: Layer): nat { if layer.abilityIndex.Some? then layer.abilityIndex.value else 0 }

  lemma CardPartIdentifies(a: Layer, b: Layer)
    ensures NoColon(CardPart(a)) && (CardPart(a) == CardPart(b) <==> a.card == b.card)
  {
    if a.card.Some? { PrintIdentifies(a.card.value, if b.card.Some? then b.card.value else 0); }
    if b.card.Some? { PrintIdentifies(b.card.value, if a.card.Some? then a.card.value else 0); }
  }

  lemma LayerKeyParts(layer: Layer)
    ensures LayerKey(layer) ==
      "layer:" + (Decimals.Print(layer.source) + ":" + (CardPart(layer) + ":" + Decimals.Print(AbilityNumber(layer))))
  {
  }

  lemma DropPrefix(prefix: string, a: string, b: string)
    requires prefix + a == prefix + b
    ensures a == b
  {
    assert a == (prefix + a)[|prefix|..] && b == (prefix + b)[|prefix|..];
  }

  /** Two stack plays share a key exactly when they have the same source, the same card or none, and the
      same ability. */
  lemma LayerKeyIdentifies(a: Layer, b: Layer)
    ensures LayerKey(a) == LayerKey(b) <==> a.source == b.source && a.card == b.card && AbilityNumber(a) == AbilityNumber(b)
  {
    PrintIdentifies(a.source, b.source);
    PrintIdentifies(b.source, a.source);
    PrintIdentifies(AbilityNumber(a), AbilityNumber(b));
    CardPartIdentifies(a, b);
    CardPartIdentifies(b, a);
    LayerKeyParts(a);
    LayerKeyParts(b);
    if LayerKey(a) == LayerKey(b) {
      var restA := CardPart(a) + ":" + Decimals.Print(AbilityNumber(a));
      var restB := CardPart(b) + ":" + Decimals.Print(AbilityNumber(b));
      DropPrefix("layer:", Decimals.Print(a.source) + ":" + restA, Decimals.Print(b.source) + ":" + restB);
      SplitAtColon(Decimals.Print(a.source), restA, Decimals.Print(b.source), restB);
      SplitAtColon(CardPart(a), Decimals.Print(AbilityNumber(a)), CardPart(b), Decimals.Print(AbilityNumber(b)));
    }
  }

  /** Chain links share a key exactly when they have the same place and the same attack, and never share
      one with a stack play. */
  lemma LinkKeyIdentifies(i: nat, a: ChainLink, j: nat, b: ChainLink, layer: Layer)
    ensures LinkKey(i, a) == LinkKey(j, b) <==> i == j && a.attackingCard == b.attackingCard
    ensures LinkKey(i, a) != LayerKey(layer)
  {
    PrintIdentifies(i, j);
    PrintIdentifies(j, i);
    PrintIdentifies(a.attackingCard, b.attackingCard);
    var restA := Decimals.Print(i) + ":" + Decimals.Print(a.attackingCard);
    var restB := Decimals.Print(j) + ":" + Decimals.Print(b.attackingCard);
    assert LinkKey(i, a) == "link:" + restA && LinkKey(j, b) == "link:" + restB;
    if LinkKey(i, a) == LinkKey(j, b) {
      assert restA == LinkKey(i, a)[5..] && restB == LinkKey(j, b)[5..];
      SplitAtColon(Decimals.Print(i), Decimals.Print(a.attackingCard), Decimals.Print(j), Decimals.Print(b.attackingCard));
    }
    assert LinkKey(i, a)[1] == 'i' && LayerKey(layer)[1] == 'a';
  }

  // ---------------------------------------------------------------- arming and observing

  function Refresh(s: State, seat: nat, armed: Latch): Option<Latch> {
    if s.gameOver then None
    else match armed
      case OpponentLatch(turn, seen) =>
        if s.turn != turn && s.activePlayer == seat then None
        else
          var plays := OpponentPlays(s, seat);
          if Within(plays, seen) then Some(OpponentLatch(turn, plays)) else None
      case TurnLatch(turn) => if s.turn != turn then None else Some(armed)
      case ChainLinkLatch(turn, link) =>
        if s.turn != turn then None
        else if link.None? then Some(ChainLinkLatch(turn, OpenLink(s)))
        else if OpenLink(s) == link then Some(armed) else None
  }

  function Arm(s: State, seat: nat, mode: Mode): Latch {
    var armed := match mode
      case OpponentMode => OpponentLatch(s.turn, OpponentPlays(s, seat))
      case TurnMode => TurnLatch(s.turn)
      case ChainLinkMode => ChainLinkLatch(s.turn, None);
    var refreshed := Refresh(s, seat, armed);
    if refreshed.Some? then refreshed.value else armed
  }

  /** The latch after observing every state in turn; once expired it stays expired. */
  function After(armed: Latch, seat: nat, states: seq<State>): Option<Latch> {
    if states == [] then Some(armed)
    else
      var before := After(armed, seat, states[..|states| - 1]);
      if before.None? then None else Refresh(states[|states| - 1], seat, before.value)
  }

  /** Observing one state twice is observing it once. */
  lemma RefreshIsIdempotent(s: State, seat: nat, armed: Latch)
    ensures var once := Refresh(s, seat, armed); once.Some? ==> Refresh(s, seat, once.value) == once
  {
    var plays := OpponentPlays(s, seat);
    assert Within(plays, plays);
  }

  /** The state the i-th observation is compared with: the one before it, or the one the latch was armed in. */
  function Previous(s: State, states: seq<State>, i: nat): State
    requires i <= |states|
  {
    if i == 0 then s else states[i - 1]
  }

  /** Nothing new from the opponent, and not a later turn of the seat itself. */
  predicate Quiet(before: State, s: State, seat: nat, turn: nat) {
    && !s.gameOver && (s.turn == turn || s.activePlayer != seat)
    && Within(OpponentPlays(s, seat), OpponentPlays(before, seat))
  }

  predicate QuietAt(s: State, states: seq<State>, i: nat, seat: nat)
    requires i < |states|
  {
    Quiet(Previous(s, states, i), states[i], seat, s.turn)
  }

  predicate StayedQuiet(s: State, states: seq<State>, seat: nat) {
    forall i | 0 <= i < |states| :: QuietAt(s, states, i, seat)
  }

  lemma QuietToTheEnd(s: State, states: seq<State>, seat: nat)
    requires states != []
    ensures StayedQuiet(s, states, seat) <==>
      StayedQuiet(s, states[..|states| - 1], seat) && QuietAt(s, states, |states| - 1, seat)
  {
    var front := states[..|states| - 1];
    forall i | 0 <= i < |front| ensures QuietAt(s, front, i, seat) == QuietAt(s, states, i, seat) {
      assert Previous(s, front, i) == Previous(s, states, i) && front[i] == states[i];
    }
  }

  lemma RefreshWhenQuiet(before: State, s: State, seat: nat, turn: nat)
    ensures Refresh(s, seat, OpponentLatch(turn, OpponentPlays(before, seat))) ==
      if Quiet(before, s, seat, turn) then Some(OpponentLatch(turn, OpponentPlays(s, seat))) else None
  {
  }

  lemma ArmedOpponent(s: State, seat: nat)
    ensures Arm(s, seat, OpponentMode) == OpponentLatch(s.turn, OpponentPlays(s, seat))
  {
    var plays := OpponentPlays(s, seat);
    assert Within(plays, plays);
  }

  /** Exactly when an opponent latch is still armed after any observations, and what it remembers then. */
  lemma {:induction false} OpponentLatchLives(s: State, seat: nat, states: seq<State>)
    ensures After(Arm(s, seat, OpponentMode), seat, states) ==
      if StayedQuiet(s, states, seat) then Some(OpponentLatch(s.turn, OpponentPlays(Previous(s, states, |states|), seat))) else None
  {
    ArmedOpponent(s, seat);
    if states != [] {
      var n := |states| - 1;
      OpponentLatchLives(s, seat, states[..n]);
      QuietToTheEnd(s, states, seat);
      assert Previous(s, states[..n], n) == Previous(s, states, n);
      RefreshWhenQuiet(Previous(s, states, n), states[n], seat, s.turn);
    }
  }

  lemma WithinTransitive(a: seq<string>, b: seq<string>, c: seq<string>)
    requires Within(a, b) && Within(b, c)
    ensures Within(a, c)
  {
    forall i | 0 <= i < |a| ensures a[i] in c {
      var j :| 0 <= j < |b| && b[j] == a[i];
      assert b[j] in c;
    }
  }

  lemma {:induction false} QuietShrinks(s: State, seat: nat, states: seq<State>, i: nat, j: nat)
    requires i <= j <= |states| && StayedQuiet(s, states, seat)
    ensures Within(OpponentPlays(Previous(s, states, j), seat), OpponentPlays(Previous(s, states, i), seat))
    decreases j - i
  {
    if i < j {
      QuietShrinks(s, seat, states, i, j - 1);
      assert QuietAt(s, states, j - 1, seat);
      WithinTransitive(OpponentPlays(states[j - 1], seat), OpponentPlays(Previous(s, states, j - 1), seat),
                       OpponentPlays(Previous(s, states, i), seat));
    }
  }

  /** While an opponent latch lives, every opposing play visible now was visible in every observation
      since arming, and it has not reached a later turn of its own seat. */
  lemma NothingNewWhileArmed(s: State, seat: nat, states: seq<State>, i: nat, j: nat)
    requires i <= j <= |states| && After(Arm(s, seat, OpponentMode), seat, states).Some?
    ensures Within(OpponentPlays(Previous(s, states, j), seat), OpponentPlays(Previous(s, states, i), seat))
    ensures forall k | 0 <= k < |states| :: states[k].turn == s.turn || states[k].activePlayer != seat
  {
    OpponentLatchLives(s, seat, states);
    QuietShrinks(s, seat, states, i, j);
    forall k | 0 <= k < |states| ensures states[k].turn == s.turn || states[k].activePlayer != seat {
      assert QuietAt(s, states, k, seat);
    }
  }

  // ---------------------------------------------------------------- said of the layers and links themselves

  /** Each card or activated ability that another seat has on the later stack was there before: from the same
      source, the same card or none, and the same ability. */
  ghost predicate NoNewLayer(before: State, s: State, seat: nat) {
    forall i | 0 <= i < |s.stack| && s.stack[i].seat != seat && (s.stack[i].card.Some? || s.stack[i].ability) ::
      exists j :: 0 <= j < |before.stack| && before.stack[j].seat != seat && (before.stack[j].card.Some? || before.stack[j].ability)
                  && SamePlay(before.stack[j], s.stack[i])
  }

  predicate SamePlay(a: Layer, b: Layer) {
    && a.source == b.source && a.card == b.card
    && (match (a.abilityIndex, b.abilityIndex)
        case (Some(m), Some(n)) => m == n
        case (Some(m), None) => m == 0
        case (None, Some(n)) => n == 0
        case (None, None) => true)
  }

  /** Each unresolved link on which another seat attacks was unresolved there before, with the same attack. */
  ghost predicate NoNewLink(before: State, s: State, seat: nat) {
    forall i | 0 <= i < |s.chain| && s.chain[i].attacker != seat && !s.chain[i].resolved ::
      i < |before.chain| && before.chain[i].attacker != seat && !before.chain[i].resolved
      && before.chain[i].attackingCard == s.chain[i].attackingCard
  }

  /** The latch survives observing `s` after `before`. */
  ghost predicate Survives(before: State, s: State, seat: nat, turn: nat) {
    !s.gameOver && (s.turn == turn || s.activePlayer != seat) && NoNewLayer(before, s, seat) && NoNewLink(before, s, seat)
  }

  lemma {:induction false} StackPlaysAre(stack: seq<Layer>, seat: nat)
    ensures forall key :: key in StackPlays(stack, seat) <==>
      exists i :: 0 <= i < |stack| && IsPlay(stack[i], seat) && LayerKey(stack[i]) == key
  {
    if stack != [] {
      StackPlaysAre(stack[1..], seat);
      forall key ensures key in StackPlays(stack, seat) <==>
                         exists i :: 0 <= i < |stack| && IsPlay(stack[i], seat) && LayerKey(stack[i]) == key {
        if i :| 0 <= i < |stack| && IsPlay(stack[i], seat) && LayerKey(stack[i]) == key {
          if i > 0 { assert stack[1..][i - 1] == stack[i]; }
        }
        if key in StackPlays(stack[1..], seat) {
          var i :| 0 <= i < |stack[1..]| && IsPlay(stack[1..][i], seat) && LayerKey(stack[1..][i]) == key;
          assert stack[i + 1] == stack[1..][i];
        }
      }
    }
  }

  lemma {:induction false} LinkPlaysAre(chain: seq<ChainLink>, from: nat, seat: nat)
    requires from <= |chain|
    ensures forall key :: key in LinkPlays(chain, from, seat) <==>
      exists i :: from <= i < |chain| && IsThreat(chain[i], seat) && LinkKey(i, chain[i]) == key
    decreases |chain| - from
  {
    if from < |chain| {
      LinkPlaysAre(chain, from + 1, seat);
    }
  }

  lemma LayersWithin(before: State, s: State, seat: nat)
    ensures (forall key | key in StackPlays(s.stack, seat) :: key in OpponentPlays(before, seat)) <==> NoNewLayer(before, s, seat)
  {
    StackPlaysAre(s.stack, seat);
    StackPlaysAre(before.stack, seat);
    LinkPlaysAre(before.chain, 0, seat);
    if forall key | key in StackPlays(s.stack, seat) :: key in OpponentPlays(before, seat) {
      forall i | 0 <= i < |s.stack| && s.stack[i].seat != seat && (s.stack[i].card.Some? || s.stack[i].ability)
        ensures exists j :: 0 <= j < |before.stack| && before.stack[j].seat != seat
                            && (before.stack[j].card.Some? || before.stack[j].ability) && SamePlay(before.stack[j], s.stack[i]) {
        LayerWasThere(before, s.stack[i], seat);
      }
    }
    if NoNewLayer(before, s, seat) {
      forall key | key in StackPlays(s.stack, seat) ensures key in OpponentPlays(before, seat) {
        var i :| 0 <= i < |s.stack| && IsPlay(s.stack[i], seat) && LayerKey(s.stack[i]) == key;
        var j :| 0 <= j < |before.stack| && before.stack[j].seat != seat
                 && (before.stack[j].card.Some? || before.stack[j].ability) && SamePlay(before.stack[j], s.stack[i]);
        LayerKeyIdentifies(before.stack[j], s.stack[i]);
      }
    }
  }

  /** A stack play whose key was among the plays of another state was a layer there, and no link. */
  lemma LayerWasThere(before: State, layer: Layer, seat: nat)
    requires LayerKey(layer) in OpponentPlays(before, seat)
    ensures exists j :: 0 <= j < |before.stack| && before.stack[j].seat != seat
                        && (before.stack[j].card.Some? || before.stack[j].ability) && SamePlay(before.stack[j], layer)
  {
    StackPlaysAre(before.stack, seat);
    LinkPlaysAre(before.chain, 0, seat);
    var key := LayerKey(layer);
    if key in LinkPlays(before.chain, 0, seat) {
      var i :| 0 <= i < |before.chain| && IsThreat(before.chain[i], seat) && LinkKey(i, before.chain[i]) == key;
      LinkKeyIdentifies(i, before.chain[i], i, before.chain[i], layer);
    }
    assert key in StackPlays(before.stack, seat);
    var j :| 0 <= j < |before.stack| && IsPlay(before.stack[j], seat) && LayerKey(before.stack[j]) == key;
    LayerKeyIdentifies(before.stack[j], layer);
  }

  lemma LinksWithin(before: State, s: State, seat: nat)
    ensures (forall key | key in LinkPlays(s.chain, 0, seat) :: key in OpponentPlays(before, seat)) <==> NoNewLink(before, s, seat)
  {
    LinkPlaysAre(s.chain, 0, seat);
    LinkPlaysAre(before.chain, 0, seat);
    if forall key | key in LinkPlays(s.chain, 0, seat) :: key in OpponentPlays(before, seat) {
      forall i | 0 <= i < |s.chain| && s.chain[i].attacker != seat && !s.chain[i].resolved
        ensures i < |before.chain| && before.chain[i].attacker != seat && !before.chain[i].resolved
                && before.chain[i].attackingCard == s.chain[i].attackingCard {
        assert LinkKey(i, s.chain[i]) in LinkPlays(s.chain, 0, seat);
        LinkWasThere(before, i, s.chain[i], seat);
      }
    }
    if NoNewLink(before, s, seat) {
      forall key | key in LinkPlays(s.chain, 0, seat) ensures key in OpponentPlays(before, seat) {
        var i :| 0 <= i < |s.chain| && IsThreat(s.chain[i], seat) && LinkKey(i, s.chain[i]) == key;
        assert IsThreat(before.chain[i], seat) && LinkKey(i, before.chain[i]) == key;
      }
    }
  }

  lemma LinkWasThere(before: State, i: nat, link: ChainLink, seat: nat)
    requires LinkKey(i, link) in OpponentPlays(before, seat)
    ensures i < |before.chain| && before.chain[i].attacker != seat && !before.chain[i].resolved
            && before.chain[i].attackingCard == link.attackingCard
  {
    StackPlaysAre(before.stack, seat);
    LinkPlaysAre(before.chain, 0, seat);
    var key := LinkKey(i, link);
    if key in StackPlays(before.stack, seat) {
      var j :| 0 <= j < |before.stack| && IsPlay(before.stack[j], seat) && LayerKey(before.stack[j]) == key;
      LinkKeyIdentifies(i, link, i, link, before.stack[j]);
    }
    assert key in LinkPlays(before.chain, 0, seat);
    var j :| 0 <= j < |before.chain| && IsThreat(before.chain[j], seat) && LinkKey(j, before.chain[j]) == key;
    LinkKeyIdentifies(i, link, j, before.chain[j], Layer(0, 0, None, false, None));
  }

  lemma QuietSurvives(before: State, s: State, seat: nat, turn: nat)
    ensures Quiet(before, s, seat, turn) <==> Survives(before, s, seat, turn)
  {
    var now, then' := OpponentPlays(s, seat), OpponentPlays(before, seat);
    LayersWithin(before, s, seat);
    LinksWithin(before, s, seat);
    assert forall key :: key in now <==> key in StackPlays(s.stack, seat) || key in LinkPlays(s.chain, 0, seat);
    assert Within(now, then') <==> forall key | key in now :: key in then';
  }

  /** An opponent latch is armed after any observations exactly if each of them went on with the game, was no
      later turn of the seat, and showed no layer and no link of another seat that the one before it had not. */
  lemma OpponentLatchMeans(s: State, seat: nat, states: seq<State>)
    ensures After(Arm(s, seat, OpponentMode), seat, states).Some? <==>
      forall i | 0 <= i < |states| :: Survives(if i == 0 then s else states[i - 1], states[i], seat, s.turn)
  {
    OpponentLatchLives(s, seat, states);
    forall i | 0 <= i < |states| ensures QuietAt(s, states, i, seat) <==> Survives(if i == 0 then s else states[i - 1], states[i], seat, s.turn) {
      QuietSurvives(Previous(s, states, i), states[i], seat, s.turn);
    }
  }

  /** A turn latch lives exactly as long as its turn and the game. */
  lemma {:induction false} TurnLatchLives(s: State, seat: nat, states: seq<State>)
    ensures After(Arm(s, seat, TurnMode), seat, states) ==
      if forall i | 0 <= i < |states| :: states[i].turn == s.turn && !states[i].gameOver then Some(TurnLatch(s.turn)) else None
  {
    if states != [] {
      var front, last := states[..|states| - 1], states[|states| - 1];
      TurnLatchLives(s, seat, front);
      assert (forall i | 0 <= i < |states| :: states[i].turn == s.turn && !states[i].gameOver)
             <==> (forall i | 0 <= i < |front| :: front[i].turn == s.turn && !front[i].gameOver) && last.turn == s.turn && !last.gameOver;
    }
  }

  /** The open link is the last one of the chain, by its place and its attack, as long as it is unresolved. */
  lemma OpenLinkMeans(s: State, index: nat, card: nat)
    ensures OpenLink(s) == Some(LinkId(index, card)) <==>
      |s.chain| == index + 1 && !s.chain[index].resolved && s.chain[index].attackingCard == card
    ensures OpenLink(s).None? <==> s.chain == [] || s.chain[|s.chain| - 1].resolved
  {
  }

  /** The first link open while the latch is armed. */
  function Bound(s: State, states: seq<State>): Option<LinkId> {
    if states == [] then (if s.gameOver then None else OpenLink(s))
    else
      var earlier := Bound(s, states[..|states| - 1]);
      if earlier.Some? then earlier else OpenLink(states[|states| - 1])
  }

  predicate SameLink(s: State, states: seq<State>, i: nat)
    requires i < |states|
  {
    var bound := Bound(s, states[..i]);
    !states[i].gameOver && states[i].turn == s.turn && (bound.Some? ==> OpenLink(states[i]) == bound)
  }

  /** A chain-link latch binds to the first link that opens, keeps that one link, and lives exactly
      as long as it stays the open one. */
  lemma {:induction false} ChainLinkLatchLives(s: State, seat: nat, states: seq<State>)
    ensures After(Arm(s, seat, ChainLinkMode), seat, states) ==
      if forall i | 0 <= i < |states| :: SameLink(s, states, i) then Some(ChainLinkLatch(s.turn, Bound(s, states))) else None
  {
    if states != [] {
      var front := states[..|states| - 1];
      ChainLinkLatchLives(s, seat, front);
      assert forall i | 0 <= i <= |front| :: front[..i] == states[..i];
      assert forall i | 0 <= i < |front| :: SameLink(s, front, i) == SameLink(s, states, i);
      assert (forall i | 0 <= i < |states| :: SameLink(s, states, i))
             <==> (forall i | 0 <= i < |front| :: SameLink(s, front, i)) && SameLink(s, states, |front|);
    }
  }

  // ---------------------------------------------------------------- stored JSON

  datatype Json = JNull | JBool(b: bool) | JInteger(n: int) | JFraction | JString(s: string)
                | JArray(items: seq<Json>) | JObject(fields: map<string, Json>)

  predicate NonNegativeInteger(v: Json) { v.JInteger? && 0 <= v.n <= MAX_SAFE_INTEGER }

  predicate HasExactKeys(fields: map<string, Json>, keys: set<string>, required: set<string>) {
    fields.Keys <= keys && required <= fields.Keys
  }

  predicate IsSeen(v: Json) {
    v.JArray? && |v.items| <= MAX_SEEN && forall i | 0 <= i < |v.items| :: v.items[i].JString? && |v.items[i].s| <= MAX_KEY
  }

  function Strings(items: seq<Json>): seq<string>
    requires forall i | 0 <= i < |items| :: items[i].JString?
  {
    seq(|items|, i requires 0 <= i < |items| => items[i].s)
  }

  function DecodeLink(v: Json): Option<LinkId> {
    if v.JObject? && HasExactKeys(v.fields, {"index", "instanceId"}, {"index", "instanceId"})
       && NonNegativeInteger(v.fields["index"]) && NonNegativeInteger(v.fields["instanceId"])
    then Some(LinkId(v.fields["index"].n, v.fields["instanceId"].n)) else None
  }

  /** `decodeStoredPassUntil`. */
  function Decode(v: Json): Option<Latch> {
    if !v.JObject? || "turn" !in v.fields || !NonNegativeInteger(v.fields["turn"]) then None
    else
      var fields, turn := v.fields, v.fields["turn"].n;
      var mode := if "mode" in fields then fields["mode"] else JNull;
      if mode == JString("opponent") then
        if HasExactKeys(fields, {"mode", "turn", "seen"}, {"mode", "turn", "seen"}) && IsSeen(fields["seen"])
        then Some(OpponentLatch(turn, Strings(fields["seen"].items))) else None
      else if mode == JString("turn") then
        if HasExactKeys(fields, {"mode", "turn"}, {"mode", "turn"}) then Some(TurnLatch(turn)) else None
      else if mode != JString("chain-link") || !HasExactKeys(fields, {"mode", "turn", "link"}, {"mode", "turn"}) then None
      else if "link" !in fields then Some(ChainLinkLatch(turn, None))
      else
        var link := DecodeLink(fields["link"]);
        if link.Some? then Some(ChainLinkLatch(turn, link)) else None
  }

  function Encode(latch: Latch): Json {
    match latch
    case TurnLatch(turn) => JObject(map["mode" := JString("turn"), "turn" := JInteger(turn)])
    case OpponentLatch(turn, seen) =>
      JObject(map["mode" := JString("opponent"), "turn" := JInteger(turn),
                  "seen" := JArray(seq(|seen|, i requires 0 <= i < |seen| => JString(seen[i])))])
    case ChainLinkLatch(turn, None) => JObject(map["mode" := JString("chain-link"), "turn" := JInteger(turn)])
    case ChainLinkLatch(turn, Some(link)) =>
      JObject(map["mode" := JString("chain-link"), "turn" := JInteger(turn),
                  "link" := JObject(map["index" := JInteger(link.index), "instanceId" := JInteger(link.instanceId)])])
  }

  predicate Storable(latch: Latch) {
    && latch.turn <= MAX_SAFE_INTEGER
    && (latch.OpponentLatch? ==> |latch.seen| <= MAX_SEEN && forall i | 0 <= i < |latch.seen| :: |latch.seen[i]| <= MAX_KEY)
    && (latch.ChainLinkLatch? && latch.link.Some? ==>
          latch.link.value.index <= MAX_SAFE_INTEGER && latch.link.value.instanceId <= MAX_SAFE_INTEGER)
  }

  /** A stored latch reads back as itself exactly when it is within the bounds, and nothing but the stored
      form of a latch is ever accepted. */
  lemma StoredRoundTrip(v: Json, latch: Latch)
    ensures Decode(Encode(latch)) == if Storable(latch) then Some(latch) else None
    ensures Decode(v) == Some(latch) ==> v == Encode(latch) && Storable(latch)
  {
    EncodedDecodes(latch);
    if Decode(v) == Some(latch) { DecodedEncodes(v); }
  }

  lemma EncodedDecodes(latch: Latch)
    ensures Decode(Encode(latch)) == if Storable(latch) then Some(latch) else None
  {
    var fields := Encode(latch).fields;
    if latch.OpponentLatch? {
      var items := fields["seen"].items;
      assert forall i | 0 <= i < |items| :: items[i] == JString(latch.seen[i]);
      assert Strings(items) == latch.seen;
      if Storable(latch) { assert IsSeen(fields["seen"]); }
      assert IsSeen(fields["seen"]) ==> forall i | 0 <= i < |latch.seen| :: items[i].JString? && |items[i].s| <= MAX_KEY;
    }
  }

  lemma DecodedEncodes(v: Json)
    requires Decode(v).Some?
    ensures v == Encode(Decode(v).value) && Storable(Decode(v).value)
  {
    var latch := Decode(v).value;
    var fields := Encode(latch).fields;
    match latch
    case TurnLatch(_) => assert v.fields == fields;
    case OpponentLatch(_, seen) =>
      assert v.fields["seen"].items == fields["seen"].items;
      assert v.fields == fields;
    case ChainLinkLatch(_, link) =>
      if link.Some? {
        assert v.fields["link"].fields == fields["link"].fields;
      }
      assert v.fields == fields;
  }

  /** Instance ids, indices and turns that are safe integers. */
  predicate SafeState(s: State) {
    && s.turn <= MAX_SAFE_INTEGER && |s.chain| <= MAX_SAFE_INTEGER
    && (forall i | 0 <= i < |s.chain| :: s.chain[i].attackingCard <= MAX_SAFE_INTEGER)
    && (forall i | 0 <= i < |s.stack| :: SafeLayer(s.stack[i]))
  }

  predicate SafeLayer(layer: Layer) {
    && layer.source <= MAX_SAFE_INTEGER && (layer.card.Some? ==> layer.card.value <= MAX_SAFE_INTEGER)
    && (layer.abilityIndex.Some? ==> layer.abilityIndex.value <= MAX_SAFE_INTEGER)
  }

  lemma PrintsShort(n: nat)
    requires n <= MAX_SAFE_INTEGER
    ensures |Decimals.Print(n)| <= 16
  {
    assert Decimals.Power(4) == 10000;
    assert Decimals.Power(8) == 100000000;
    assert Decimals.Power(12) == 1000000000000;
    assert Decimals.Power(16) == 10000000000000000;
    Decimals.PrintIsShort(n, 16);
  }

  lemma {:induction false} StackKeysAreShort(stack: seq<Layer>, seat: nat)
    requires forall i | 0 <= i < |stack| :: SafeLayer(stack[i])
    ensures forall i | 0 <= i < |StackPlays(stack, seat)| :: |StackPlays(stack, seat)[i]| <= MAX_KEY
    ensures |StackPlays(stack, seat)| <= |stack|
  {
    if stack != [] {
      StackKeysAreShort(stack[1..], seat);
      PrintsShort(stack[0].source);
      if stack[0].card.Some? { PrintsShort(stack[0].card.value); }
      PrintsShort(if stack[0].abilityIndex.Some? then stack[0].abilityIndex.value else 0);
    }
  }

  lemma {:induction false} LinkKeysAreShort(chain: seq<ChainLink>, from: nat, seat: nat)
    requires from <= |chain| <= MAX_SAFE_INTEGER && forall i | 0 <= i < |chain| :: chain[i].attackingCard <= MAX_SAFE_INTEGER
    ensures forall i | 0 <= i < |LinkPlays(chain, from, seat)| :: |LinkPlays(chain, from, seat)[i]| <= MAX_KEY
    ensures |LinkPlays(chain, from, seat)| <= |chain| - from
    decreases |chain| - from
  {
    if from < |chain| {
      LinkKeysAreShort(chain, from + 1, seat);
      PrintsShort(from);
      PrintsShort(chain[from].attackingCard);
    }
  }

  /** Every latch armed in a state with at most 256 layers and links survives storage; the count is
      the only bound an armed latch can break. */
  lemma ArmedLatchStores(s: State, seat: nat, mode: Mode)
    requires SafeState(s)
    ensures |OpponentPlays(s, seat)| <= |s.stack| + |s.chain|
    ensures Decode(Encode(Arm(s, seat, mode))) ==
      if mode.OpponentMode? && |OpponentPlays(s, seat)| > MAX_SEEN then None else Some(Arm(s, seat, mode))
  {
    var plays := OpponentPlays(s, seat);
    StackKeysAreShort(s.stack, seat);
    LinkKeysAreShort(s.chain, 0, seat);
    assert forall i | 0 <= i < |plays| :: |plays[i]| <= MAX_KEY;
    EncodedDecodes(Arm(s, seat, mode));
  }
}
