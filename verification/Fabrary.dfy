/**
 Fabrary's deck response printed as decklist text, and read back by the parser.
 */
module Fabrary {
  import opened Common
  import opened DecklistText
  import opened PrintedDecklist
  import Decimals
  import DecklistForms

  const MAX_CARDS := 256
  const MAX_CARD_QTY := 99
  const MAX_NAME := 256

  // ---------------------------------------------------------------- identifiers

  /** The catalogue's card of an identifier. */
  datatype CardData = CardData(name: string, pitch: Option<nat>)
  type Catalog = map<string, CardData>

  function Dashes(s: string): string { seq(|s|, i requires 0 <= i < |s| => if s[i] == '-' then '_' else s[i]) }

  /** Runs of underscores become one. */
  function Collapse(s: string): string {
    if |s| < 2 then s
    else if s[0] == '_' && s[1] == '_' then Collapse(s[1..])
    else [s[0]] + Collapse(s[1..])
  }

  function Normalized(identifier: string): string { Lower(Collapse(Dashes(identifier))) }

  function Spaced(s: string): string { seq(|s|, i requires 0 <= i < |s| => if s[i] == '_' then ' ' else s[i]) }

  function Unspaced(s: string): string { seq(|s|, i requires 0 <= i < |s| => if s[i] == ' ' then '_' else s[i]) }

  predicate EndsWith(s: string, end: string) { |end| <= |s| && s[|s| - |end|..] == end }

  /** The identifier without its colour, when it ends in one and the rest is on one line. */
  function WithoutColour(id: string, end: string, pitch: nat): Option<Named> {
    if EndsWith(id, end) && OneLine(id[..|id| - |end|]) then Some(Named(id[..|id| - |end|], Some(pitch))) else None
  }

  /** `readableUnknownIdentifier`: normalized identifiers hold no dashes and no doubled underscores. */
  function Readable(id: string): Named {
    var red, yellow := WithoutColour(id, "_red", 1), WithoutColour(id, "_yellow", 2);
    var blue, purple := WithoutColour(id, "_blue", 3), WithoutColour(id, "_purple", 4);
    var found := if red.Some? then red else if yellow.Some? then yellow else if blue.Some? then blue else purple;
    if found.Some? then Named(Spaced(found.value.name), found.value.pitch) else Named(Spaced(id), None)
  }

  /** The name and pitch a card is printed with. */
  function Resolved(catalog: Catalog, identifier: string): CardData {
    var id := Normalized(identifier);
    var fallback := Readable(id);
    var key := Unspaced(fallback.name);
    var unpitched := if fallback.pitch.Some? && key in catalog && Shown(catalog[key].pitch).None? then Some(catalog[key]) else None;
    if id in catalog then catalog[id]
    else if unpitched.Some? then unpitched.value
    else CardData(fallback.name, fallback.pitch)
  }

  function Resolver(catalog: Catalog): string -> CardData { identifier => Resolved(catalog, identifier) }

  function ItemOf(resolve: string -> CardData, identifier: string, qty: nat): Item {
    var card := resolve(identifier);
    Item(qty, card.name, card.pitch)
  }

  // ---------------------------------------------------------------- what identifiers stand for

  /** The characters that are not separators. */
  function Letters(s: string): string {
    if s == "" then "" else if s[0] == '-' || s[0] == '_' then Letters(s[1..]) else [s[0]] + Letters(s[1..])
  }

  /** No dash, no capital, and no two underscores in a row. */
  predicate Normal(s: string) {
    && (forall i | 0 <= i < |s| :: s[i] != '-' && !('A' <= s[i] <= 'Z'))
    && (forall i | 0 <= i < |s| - 1 :: s[i] != '_' || s[i + 1] != '_')
  }

  lemma DashesTail(s: string)
    requires s != ""
    ensures Dashes(s)[1..] == Dashes(s[1..]) && Dashes(s)[0] == if s[0] == '-' then '_' else s[0]
  {
  }

  lemma LowerTail(s: string)
    requires s != ""
    ensures Lower(s)[1..] == Lower(s[1..]) && |Lower(s)| == |s|
  {
  }

  lemma {:induction false} CollapseMeans(s: string)
    ensures Letters(Collapse(s)) == Letters(s)
    ensures s != "" ==> Collapse(s) != "" && Collapse(s)[0] == s[0]
    ensures forall i | 0 <= i < |Collapse(s)| - 1 :: Collapse(s)[i] != '_' || Collapse(s)[i + 1] != '_'
    ensures forall c :: c in Collapse(s) ==> c in s
  {
    if |s| >= 2 {
      CollapseMeans(s[1..]);
      assert s == [s[0]] + s[1..];
      if !(s[0] == '_' && s[1] == '_') { HeadAndTail(s[0], Collapse(s[1..])); }
    }
  }

  lemma {:induction false} DashesLetters(s: string)
    ensures Letters(Dashes(s)) == Letters(s)
  {
    if s != "" {
      DashesTail(s);
      DashesLetters(s[1..]);
    }
  }

  lemma {:induction false} LowerLetters(s: string)
    ensures Letters(Lower(s)) == Lower(Letters(s))
  {
    if s != "" {
      LowerTail(s);
      LowerLetters(s[1..]);
      if s[0] != '-' && s[0] != '_' {
        HeadAndTail(s[0], Letters(s[1..]));
        LowerTail([s[0]] + Letters(s[1..]));
      }
    }
  }

  /** A normalized identifier is normal and keeps all the letters, in lower case; nothing else is lost. */
  lemma NormalizedMeans(identifier: string)
    ensures Normal(Normalized(identifier)) && Letters(Normalized(identifier)) == Lower(Letters(identifier))
  {
    var dashes := Dashes(identifier);
    CollapseMeans(dashes);
    DashesLetters(identifier);
    LowerLetters(Collapse(dashes));
    var id, collapsed := Normalized(identifier), Collapse(dashes);
    forall i | 0 <= i < |id| ensures id[i] != '-' && !('A' <= id[i] <= 'Z') {
      assert collapsed[i] in collapsed;
      assert collapsed[i] in dashes;
    }
    assert forall i | 0 <= i < |id| :: id[i] == '_' <==> collapsed[i] == '_';
  }

  lemma {:induction false} CollapsedAlready(s: string)
    requires forall i | 0 <= i < |s| - 1 :: s[i] != '_' || s[i + 1] != '_'
    ensures Collapse(s) == s
  {
    if |s| >= 2 {
      assert forall i | 0 <= i < |s| - 1 :: s[1..][i] == s[i + 1];
      CollapsedAlready(s[1..]);
    }
  }

  /** A normal identifier stands for itself. */
  lemma NormalStays(s: string)
    requires Normal(s)
    ensures Normalized(s) == s
  {
    assert Dashes(s) == s;
    CollapsedAlready(s);
    assert Lower(s) == s;
  }

  /** The four colours an identifier may end in. */
  predicate ColourEnd(end: string, pitch: nat) {
    (pitch == 1 && end == "_red") || (pitch == 2 && end == "_yellow") || (pitch == 3 && end == "_blue") || (pitch == 4 && end == "_purple")
  }

  lemma OtherEnd(base: string, end: string, other: string, back: nat)
    requires 0 < back <= |end| && back <= |other| && end[|end| - back] != other[|other| - back]
    ensures !EndsWith(base + end, other)
  {
    var id := base + end;
    assert id[|id| - back] == end[|end| - back];
    assert |other| <= |id| ==> id[|id| - |other|..][|other| - back] == id[|id| - back];
  }

  lemma ColourCut(base: string, end: string, pitch: nat)
    requires OneLine(base)
    ensures WithoutColour(base + end, end, pitch) == Some(Named(base, Some(pitch)))
  {
    assert (base + end)[|base|..] == end && (base + end)[..|base|] == base;
  }

  lemma NotColoured(id: string, end: string, pitch: nat)
    requires !EndsWith(id, end)
    ensures WithoutColour(id, end, pitch).None?
  {
  }

  /** The readable form of an identifier that ends in a colour: the words before it, and its pitch. */
  lemma ReadableColour(base: string, end: string, pitch: nat)
    requires ColourEnd(end, pitch) && OneLine(base)
    ensures Readable(base + end) == Named(Spaced(base), Some(pitch))
  {
    var id := base + end;
    ColourCut(base, end, pitch);
    var red, yellow, blue, purple := "_red", "_yellow", "_blue", "_purple";
    assert red[3] == 'd' && yellow[6] == 'w' && blue[4] == 'e' && blue[3] == 'u' && purple[6] == 'e' && purple[5] == 'l';
    if pitch != 1 { OtherEnd(base, end, red, 1); NotColoured(id, red, 1); }
    if pitch != 2 { OtherEnd(base, end, yellow, 1); NotColoured(id, yellow, 2); }
    if pitch == 4 { OtherEnd(base, end, blue, 2); NotColoured(id, blue, 3); }
  }

  /** The readable form of any other identifier, one with a line break before its colour included: its words. */
  lemma ReadablePlain(s: string)
    requires forall base, end, pitch | ColourEnd(end, pitch) && OneLine(base) :: s != base + end
    ensures Readable(s) == Named(Spaced(s), None)
  {
    forall end, pitch | ColourEnd(end, pitch) ensures WithoutColour(s, end, pitch).None? {
      if EndsWith(s, end) { assert s == s[..|s| - |end|] + end; }
    }
  }

  /** The words of an identifier. */
  lemma SpacedMeans(s: string, i: nat)
    requires i < |s|
    ensures |Spaced(s)| == |s| && Spaced(s)[i] == (match s[i] case '_' => ' ' case c => c)
  {
  }

  /** What a card is printed as: the catalogue's card of the identifier; else, for an identifier with a colour,
      the catalogue's card without it if that has no pitch; else the words of the identifier and its colour. */
  lemma ResolvedMeans(catalog: Catalog, identifier: string, base: string, end: string, pitch: nat)
    requires ColourEnd(end, pitch) && OneLine(base) && (forall i | 0 <= i < |base| :: base[i] != ' ')
    requires Normalized(identifier) == base + end
    ensures Resolved(catalog, identifier) ==
      if base + end in catalog then catalog[base + end]
      else if base in catalog && (catalog[base].pitch == None || catalog[base].pitch == Some(0)) then catalog[base]
      else CardData(Spaced(base), Some(pitch))
  {
    ReadableColour(base, end, pitch);
    assert Unspaced(Spaced(base)) == base;
  }

  /** Without a colour there is nothing to try without it. */
  lemma ResolvedPlain(catalog: Catalog, identifier: string)
    requires Readable(Normalized(identifier)).pitch.None?
    ensures Resolved(catalog, identifier) ==
      if Normalized(identifier) in catalog then catalog[Normalized(identifier)] else CardData(Spaced(Normalized(identifier)), None)
  {
  }

  // ---------------------------------------------------------------- decoding

  datatype Value = Missing | Int(n: int) | OtherValue

  /** Null when the value is not a quantity. */
  function Quantity(value: Value, fallback: Option<nat>): Option<nat> {
    if value.Missing? && fallback.Some? then fallback
    else if value.Int? && 0 <= value.n <= MAX_CARD_QTY then Some(value.n)
    else None
  }

  datatype RawCard = NotARecord | RawCard(identifier: Option<string>, cardIdentifier: Option<string>, total: Value, sideboardTotal: Value)

  /** The response as far as it is read; `matchupsValid` stands for the matchup decoder's verdict. */
  datatype RawDeck = RawDeck(name: Option<string>, cards: Option<seq<RawCard>>, matchupsValid: bool)

  function IdentifierOf(card: RawCard): string
    requires card.RawCard?
  {
    if card.identifier.Some? then Trim(card.identifier.value)
    else if card.cardIdentifier.Some? then Trim(card.cardIdentifier.value) else ""
  }

  predicate ValidCard(card: RawCard) {
    && card.RawCard? && 1 <= |IdentifierOf(card)| <= MAX_NAME
    && Quantity(card.total, None).Some? && Quantity(card.sideboardTotal, Some(0)).Some?
  }

  function MainQty(card: RawCard): nat
    requires ValidCard(card)
  {
    Quantity(card.total, None).value
  }

  function SideQty(card: RawCard): nat
    requires ValidCard(card)
  {
    Quantity(card.sideboardTotal, Some(0)).value
  }

  predicate AllValid(cards: seq<RawCard>) { forall i | 0 <= i < |cards| :: ValidCard(cards[i]) }

  /** The main-deck cards to print, in order. */
  function MainItems(resolve: string -> CardData, cards: seq<RawCard>): seq<Item>
    requires AllValid(cards)
  {
    if cards == [] then []
    else
      var rest, last := MainItems(resolve, cards[..|cards| - 1]), cards[|cards| - 1];
      if MainQty(last) > 0 then rest + [ItemOf(resolve, IdentifierOf(last), MainQty(last))] else rest
  }

  function SideItems(resolve: string -> CardData, cards: seq<RawCard>): seq<Item>
    requires AllValid(cards)
  {
    if cards == [] then []
    else
      var rest, last := SideItems(resolve, cards[..|cards| - 1]), cards[|cards| - 1];
      if SideQty(last) > 0 then rest + [ItemOf(resolve, IdentifierOf(last), SideQty(last))] else rest
  }

  function Texts(items: seq<Item>): seq<string> { seq(|items|, i requires 0 <= i < |items| => CardText(items[i])) }

  function DeckLines(name: string, main: seq<Item>, side: seq<Item>): seq<string> {
    ["Name: " + name] + (["Deck cards"] + Texts(main)) + (if side != [] then ["Sideboard cards"] + Texts(side) else [])
  }

  function Join(lines: seq<string>): string {
    if lines == [] then "" else if |lines| == 1 then lines[0] else lines[0] + ("\n" + Join(lines[1..]))
  }

  predicate ValidDeck(deck: RawDeck) {
    && deck.matchupsValid && deck.name.Some? && 1 <= |Trim(deck.name.value)| <= MAX_NAME
    && deck.cards.Some? && |deck.cards.value| <= MAX_CARDS && AllValid(deck.cards.value)
  }

  lemma TextsSnoc(items: seq<Item>, item: Item)
    ensures Texts(items + [item]) == Texts(items) + [CardText(item)]
  {
  }

  lemma OneMoreCard(resolve: string -> CardData, cards: seq<RawCard>, i: nat)
    requires i < |cards| && AllValid(cards[..i]) && ValidCard(cards[i])
    ensures AllValid(cards[..i + 1])
    ensures MainItems(resolve, cards[..i + 1]) == if MainQty(cards[i]) > 0
      then MainItems(resolve, cards[..i]) + [ItemOf(resolve, IdentifierOf(cards[i]), MainQty(cards[i]))] else MainItems(resolve, cards[..i])
    ensures SideItems(resolve, cards[..i + 1]) == if SideQty(cards[i]) > 0
      then SideItems(resolve, cards[..i]) + [ItemOf(resolve, IdentifierOf(cards[i]), SideQty(cards[i]))] else SideItems(resolve, cards[..i])
  {
    var more := cards[..i + 1];
    AllValidSnoc(cards, i);
    assert more[..|more| - 1] == cards[..i] && more[|more| - 1] == cards[i];
  }

  lemma AllValidSnoc(cards: seq<RawCard>, i: nat)
    requires i < |cards| && AllValid(cards[..i]) && ValidCard(cards[i])
    ensures AllValid(cards[..i + 1])
  {
    var more := cards[..i + 1];
    assert forall k | 0 <= k < i :: more[k] == cards[..i][k];
  }

  /** The text of a valid deck that has anything in it. */
  function DeckText(resolve: string -> CardData, deck: RawDeck): Option<string> {
    if !ValidDeck(deck) then None
    else
      var main, side := MainItems(resolve, deck.cards.value), SideItems(resolve, deck.cards.value);
      if main == [] && side == [] then None else Some(Join(DeckLines(Trim(deck.name.value), main, side)))
  }

  /** The value stands for this quantity; an absent one for `absent`, if there is such a default. */
  predicate Amount(value: Value, absent: Option<nat>, qty: nat) {
    match value
    case Missing => absent == Some(qty)
    case Int(n) => n == qty && qty <= 99
    case OtherValue => false
  }

  lemma QuantityMeans(value: Value, absent: Option<nat>, qty: nat)
    ensures Quantity(value, absent) == Some(qty) <==> Amount(value, absent, qty)
  {
  }

  /** A card of the response: identified by a text of up to 256 characters, so many times in the deck and,
      if it says so, in the sideboard. */
  predicate Counted(card: RawCard, main: nat, side: nat) {
    && card.RawCard? && Amount(card.total, None, main) && Amount(card.sideboardTotal, Some(0), side)
    && match (card.identifier, card.cardIdentifier)
       case (Some(id), _) => Trim(id) != "" && |Trim(id)| < 257
       case (None, Some(id)) => Trim(id) != "" && |Trim(id)| < 257
       case _ => false
  }

  lemma CountedMeans(card: RawCard, main: nat, side: nat)
    ensures ValidCard(card) && MainQty(card) == main && SideQty(card) == side <==> Counted(card, main, side)
  {
    if card.RawCard? { QuantityMeans(card.total, None, main); QuantityMeans(card.sideboardTotal, Some(0), side); }
  }

  ghost predicate HasCounts(card: RawCard) { exists main, side :: Counted(card, main, side) }

  ghost predicate AllCounted(cards: seq<RawCard>) { forall i | 0 <= i < |cards| :: HasCounts(cards[i]) }

  ghost predicate SomeCounted(cards: seq<RawCard>) {
    exists i, main, side :: 0 <= i < |cards| && Counted(cards[i], main, side) && main + side > 0
  }

  lemma {:induction false} SomethingToPrint(resolve: string -> CardData, cards: seq<RawCard>)
    requires AllValid(cards)
    ensures MainItems(resolve, cards) != [] || SideItems(resolve, cards) != [] <==> SomeCounted(cards)
  {
    if cards != [] {
      var rest, last := cards[..|cards| - 1], cards[|cards| - 1];
      SomethingToPrint(resolve, rest);
      SomeCountedSnoc(rest, last);
      ItemsOfLast(resolve, cards);
      assert cards == rest + [last];
    }
  }

  lemma ItemsOfLast(resolve: string -> CardData, cards: seq<RawCard>)
    requires AllValid(cards) && cards != []
    ensures var rest, last := cards[..|cards| - 1], cards[|cards| - 1];
      && (MainItems(resolve, cards) != [] <==> MainItems(resolve, rest) != [] || MainQty(last) > 0)
      && (SideItems(resolve, cards) != [] <==> SideItems(resolve, rest) != [] || SideQty(last) > 0)
  {
  }

  lemma SomeCountedSnoc(rest: seq<RawCard>, last: RawCard)
    requires ValidCard(last)
    ensures SomeCounted(rest + [last]) <==> SomeCounted(rest) || MainQty(last) + SideQty(last) > 0
  {
    var cards := rest + [last];
    CountedMeans(last, MainQty(last), SideQty(last));
    assert cards[|rest|] == last;
    if SomeCounted(rest) {
      var i, main, side :| 0 <= i < |rest| && Counted(rest[i], main, side) && main + side > 0;
      assert cards[i] == rest[i];
    }
    if SomeCounted(cards) {
      var i, main, side :| 0 <= i < |cards| && Counted(cards[i], main, side) && main + side > 0;
      if i < |rest| { assert rest[i] == cards[i]; } else { CountedMeans(last, main, side); }
    }
  }

  /** A response is printed exactly if its matchups decode, its name is not blank and has at most 256
      characters, and its cards, at most 256 of them, are all counted and at least one more than zero times. */
  lemma DecodedMeans(resolve: string -> CardData, deck: RawDeck)
    ensures DeckText(resolve, deck).Some? <==>
      && deck.matchupsValid && deck.name.Some? && Trim(deck.name.value) != "" && |Trim(deck.name.value)| < 257
      && deck.cards.Some? && |deck.cards.value| < 257 && AllCounted(deck.cards.value) && SomeCounted(deck.cards.value)
  {
    if deck.cards.Some? {
      AllCountedMeans(deck.cards.value);
      if AllValid(deck.cards.value) { SomethingToPrint(resolve, deck.cards.value); }
    }
  }

  lemma AllCountedMeans(cards: seq<RawCard>)
    ensures AllValid(cards) <==> AllCounted(cards)
  {
    if AllValid(cards) {
      forall i | 0 <= i < |cards| ensures HasCounts(cards[i]) {
        CountedMeans(cards[i], MainQty(cards[i]), SideQty(cards[i]));
      }
    }
    if AllCounted(cards) {
      forall i | 0 <= i < |cards| ensures ValidCard(cards[i]) {
        var main, side :| Counted(cards[i], main, side);
        CountedMeans(cards[i], main, side);
      }
    }
  }

  /** `decodeFabraryDeck`: the deck text, or nothing for a malformed or empty response. */
  method DecodeFabraryDeck(catalog: Catalog, deck: RawDeck) returns (text: Option<string>)
    ensures text == DeckText(Resolver(catalog), deck)
  {
    if deck.name.None? || deck.cards.None? { return None; }
    var name, cards := Trim(deck.name.value), deck.cards.value;
    if name == "" || |name| > MAX_NAME || |cards| > MAX_CARDS || !deck.matchupsValid { return None; }
    var resolve := Resolver(catalog);
    var main, sideboard, valid := PrintCards(resolve, cards);
    if !valid || (|main| == 0 && |sideboard| == 0) { return None; }
    var lines := ["Name: " + name] + (["Deck cards"] + main) + if |sideboard| > 0 then ["Sideboard cards"] + sideboard else [];
    return Some(Join(lines));
  }

  /** The loop over the response's cards. */
  method PrintCards(resolve: string -> CardData, cards: seq<RawCard>) returns (main: seq<string>, sideboard: seq<string>, valid: bool)
    ensures valid == AllValid(cards)
    ensures valid ==> main == Texts(MainItems(resolve, cards)) && sideboard == Texts(SideItems(resolve, cards))
  {
    main, sideboard, valid := [], [], true;
    for i := 0 to |cards|
      invariant valid && AllValid(cards[..i])
      invariant main == Texts(MainItems(resolve, cards[..i])) && sideboard == Texts(SideItems(resolve, cards[..i]))
    {
      var card := cards[i];
      if card.NotARecord? { return [], [], false; }
      var identifier := IdentifierOf(card);
      var total, sideboardTotal := Quantity(card.total, None), Quantity(card.sideboardTotal, Some(0));
      if identifier == "" || |identifier| > MAX_NAME || total.None? || sideboardTotal.None? { return [], [], false; }
      OneMoreCard(resolve, cards, i);
      if total.value > 0 {
        TextsSnoc(MainItems(resolve, cards[..i]), ItemOf(resolve, identifier, total.value));
        main := main + [CardText(ItemOf(resolve, identifier, total.value))];
      }
      if sideboardTotal.value > 0 {
        TextsSnoc(SideItems(resolve, cards[..i]), ItemOf(resolve, identifier, sideboardTotal.value));
        sideboard := sideboard + [CardText(ItemOf(resolve, identifier, sideboardTotal.value))];
      }
    }
    assert cards[..|cards|] == cards;
  }

  // ---------------------------------------------------------------- lines of a joined text

  predicate NoFeed(s: string) { forall i | 0 <= i < |s| :: s[i] != '\n' }

  /** The lines a printed line turns into when another one follows. */
  function Segments(s: string): seq<string> {
    var i := IndexOf(s, '\n');
    if i == |s| then [StripCr(s)] else [StripCr(s[..i])] + Segments(s[i + 1..])
  }

  function AllSegments(lines: seq<string>): seq<string> {
    if lines == [] then [] else Segments(lines[0]) + AllSegments(lines[1..])
  }

  lemma FirstIndex(s: string, i: nat)
    requires i < |s| && s[i] == '\n' && forall k | 0 <= k < i :: s[k] != '\n'
    ensures IndexOf(s, '\n') == i
  {
  }

  lemma LinesHead(first: string, rest: string)
    requires NoFeed(first)
    ensures Lines(first + ("\n" + rest)) == [StripCr(first)] + Lines(rest)
  {
    var s := first + ("\n" + rest);
    assert s[|first|] == '\n';
    FirstIndex(s, |first|);
    assert s[..|first|] == first && s[|first| + 1..] == rest;
  }

  lemma {:induction false} LinesOfTwo(a: string, b: string)
    ensures Lines(a + ("\n" + b)) == Segments(a) + Lines(b)
    decreases |a|
  {
    var i := IndexOf(a, '\n');
    if i == |a| {
      LinesHead(a, b);
    } else {
      var first, rest := a[..i], a[i + 1..];
      assert a == first + ("\n" + rest);
      Regrouped(first, "\n", rest, "\n" + b);
      LinesHead(first, rest + ("\n" + b));
      LinesOfTwo(rest, b);
      Assoc([StripCr(first)], Segments(rest), Lines(b));
    }
  }

  lemma Regrouped(first: string, feed: string, rest: string, more: string)
    ensures (first + (feed + rest)) + more == first + (feed + (rest + more))
  {
  }

  lemma SameLine(a: string, b: string, section: Section)
    requires Trim(a) == Trim(b)
    ensures ParseLine(a, section) == ParseLine(b, section)
  {
  }

  lemma EntriesHead(parse: LineParser, line: string, rest: seq<string>, section: Section)
    ensures var first := parse(line, section);
      Entries(parse, [line] + rest, section) ==
        if first.entry.Some? then [first.entry.value] + Entries(parse, rest, first.section) else Entries(parse, rest, first.section)
    ensures EndSection(parse, [line] + rest, section) == EndSection(parse, rest, parse(line, section).section)
  {
    HeadAndTail(line, rest);
  }

  lemma ParseHead(line: string, rest: seq<string>, section: Section)
    ensures var first := ParseLine(line, section);
      ParseLines([line] + rest, section) ==
        if first.entry.Some? then [first.entry.value] + ParseLines(rest, first.section) else ParseLines(rest, first.section)
    ensures SectionAfter([line] + rest, section) == SectionAfter(rest, ParseLine(line, section).section)
  {
    EntriesHead(ParseLine, line, rest, section);
  }

  lemma SameTail(line: string, a: seq<string>, b: seq<string>, section: Section)
    requires ParseLines(a, ParseLine(line, section).section) == ParseLines(b, ParseLine(line, section).section)
    ensures ParseLines([line] + a, section) == ParseLines([line] + b, section)
  {
    ParseHead(line, a, section);
    ParseHead(line, b, section);
  }

  lemma SameLines(a: string, b: string, section: Section)
    requires Trim(a) == Trim(b)
    ensures ParseLines([a], section) == ParseLines([b], section)
  {
    SameLine(a, b, section);
    ParseHead(a, [], section);
    ParseHead(b, [], section);
    assert [a] + [] == [a] && [b] + [] == [b];
  }

  /** The last line parses alike with or without a carriage return at its end. */
  lemma {:induction false} LastLine(s: string, section: Section)
    ensures ParseLines(Lines(s), section) == ParseLines(Segments(s), section)
    decreases |s|
  {
    var i := IndexOf(s, '\n');
    if i == |s| {
      StripCrTrims(s);
      SameLines(StripCr(s), s, section);
    } else {
      var head, rest := StripCr(s[..i]), s[i + 1..];
      LastLine(rest, ParseLine(head, section).section);
      SameTail(head, Lines(rest), Segments(rest), section);
    }
  }

  lemma {:induction false} EntriesAppend(parse: LineParser, a: seq<string>, b: seq<string>, section: Section)
    ensures Entries(parse, a + b, section) == Entries(parse, a, section) + Entries(parse, b, EndSection(parse, a, section))
    ensures EndSection(parse, a + b, section) == EndSection(parse, b, EndSection(parse, a, section))
  {
    if a == [] {
      assert a + b == b;
    } else {
      var first := parse(a[0], section);
      EntriesAppend(parse, a[1..], b, first.section);
      assert (a + b)[0] == a[0] && (a + b)[1..] == a[1..] + b;
      if first.entry.Some? {
        Assoc([first.entry.value], Entries(parse, a[1..], first.section), Entries(parse, b, EndSection(parse, a, section)));
      }
    }
  }

  lemma ParseAppend(a: seq<string>, b: seq<string>, section: Section)
    ensures ParseLines(a + b, section) == ParseLines(a, section) + ParseLines(b, SectionAfter(a, section))
    ensures SectionAfter(a + b, section) == SectionAfter(b, SectionAfter(a, section))
  {
    EntriesAppend(ParseLine, a, b, section);
  }

  /** Joining lines and splitting the text again gives the lines' own segments. */
  lemma {:induction false} ParseJoined(lines: seq<string>, section: Section)
    requires lines != []
    ensures ParseLines(Lines(Join(lines)), section) == ParseLines(AllSegments(lines), section)
  {
    if |lines| == 1 {
      LastLine(lines[0], section);
      assert Segments(lines[0]) + [] == Segments(lines[0]);
    } else {
      LinesOfTwo(lines[0], Join(lines[1..]));
      var next := SectionAfter(Segments(lines[0]), section);
      ParseJoined(lines[1..], next);
      ParseAppend(Segments(lines[0]), Lines(Join(lines[1..])), section);
      ParseAppend(Segments(lines[0]), AllSegments(lines[1..]), section);
    }
  }

  lemma {:induction false} SegmentsAppend(a: seq<string>, b: seq<string>)
    ensures AllSegments(a + b) == AllSegments(a) + AllSegments(b)
  {
    if a == [] {
      assert a + b == b;
    } else {
      assert (a + b)[0] == a[0] && (a + b)[1..] == a[1..] + b;
      SegmentsAppend(a[1..], b);
      Assoc(Segments(a[0]), AllSegments(a[1..]), AllSegments(b));
    }
  }

  // ---------------------------------------------------------------- printed cards read back

  lemma OneSegment(s: string)
    requires NoFeed(s)
    ensures Segments(s) == [StripCr(s)]
  {
  }

  /** The first line of a printed card always yields one entry, whose name has no line feed. */
  lemma FirstSegment(item: Item, section: Section)
    ensures var line := Segments(CardText(item))[0];
      var parsed := ParseLine(line, section);
      parsed.entry.Some? && parsed.section == section && NoFeed(parsed.entry.value.name)
  {
    var text := CardText(item);
    var i := IndexOf(text, '\n');
    var raw := text[..i];
    assert Segments(text)[0] == StripCr(raw) by { if i == |text| { assert raw == text; } }
    assert Decimals.IsDigit(text[0]);
    assert i > 0 && raw[0] == text[0];
    StripCrTrims(raw);
    SameLine(StripCr(raw), raw, section);
    DigitLine(raw, section);
    TrimEndFacts(raw);
    assert NoFeed(raw) && NoFeed(TrimEnd(raw));
    NameHasNoFeed(TrimEnd(raw), section);
  }

  lemma NameHasNoFeed(line: string, section: Section)
    requires NoFeed(line)
    ensures NoFeed(CardOrBare(line, section).name)
  {
  }

  lemma NoFeedInText(item: Item)
    ensures NoFeed(CardText(item)) <==> NoFeed(item.name)
  {
    var digits := Decimals.Print(item.qty);
    var text := CardText(item);
    var suffix := Suffix(item.pitch);
    assert NoFeed(digits + "x ") && NoFeed(suffix);
    assert text == (digits + "x ") + item.name + suffix;
    assert forall i | 0 <= i < |item.name| :: text[|digits| + 2 + i] == item.name[i];
  }

  function EntriesFor(items: seq<Item>, section: Section): seq<Entry> {
    seq(|items|, i requires 0 <= i < |items| => EntryFor(items[i], section))
  }

  predicate AllWellFormed(items: seq<Item>) { forall i | 0 <= i < |items| :: WellFormed(items[i]) }

  function CardLines(items: seq<Item>): seq<string> { AllSegments(Texts(items)) }

  lemma CardLinesHead(items: seq<Item>)
    requires items != []
    ensures CardLines(items) == Segments(CardText(items[0])) + CardLines(items[1..])
  {
    assert Texts(items)[1..] == Texts(items[1..]);
  }

  /** What one printed card contributes: its entry exactly when it is well formed, and otherwise some
      entry that differs from it. */
  lemma OneCard(item: Item, section: Section)
    ensures var parsed := ParseLines(Segments(CardText(item)), section);
      && |parsed| >= 1
      && (WellFormed(item) ==> parsed == [EntryFor(item, section)] && SectionAfter(Segments(CardText(item)), section) == section)
      && (!WellFormed(item) ==> parsed[0] != EntryFor(item, section))
  {
    var text := CardText(item);
    var lines := Segments(text);
    FirstSegment(item, section);
    assert lines == [lines[0]] + lines[1..];
    ParseHead(lines[0], lines[1..], section);
    NoFeedInText(item);
    if NoFeed(item.name) {
      OneSegment(text);
      StripCrTrims(text);
      SameLine(StripCr(text), text, section);
      PrintedLine(item, section);
      ReadBackExact(item, section);
      assert lines[1..] == [];
    }
  }

  lemma EntriesForHead(items: seq<Item>, section: Section)
    requires items != []
    ensures EntriesFor(items, section) == [EntryFor(items[0], section)] + EntriesFor(items[1..], section)
    ensures AllWellFormed(items) <==> WellFormed(items[0]) && AllWellFormed(items[1..])
  {
    assert items == [items[0]] + items[1..];
  }

  /** Comparing what the first card and the rest contribute with what they should. */
  lemma CompareParts(head: seq<Entry>, tail: seq<Entry>, entry: Entry, entries: seq<Entry>, fits: bool)
    requires |head| >= 1 && (fits ==> head == [entry]) && (!fits ==> head[0] != entry)
    ensures head + tail == [entry] + entries <==> fits && tail == entries
  {
    if fits {
      HeadAndTail(entry, tail);
      HeadAndTail(entry, entries);
    } else {
      assert (head + tail)[0] != ([entry] + entries)[0];
    }
  }

  lemma {:induction false} CardsRoundTrip(items: seq<Item>, section: Section)
    ensures |ParseLines(CardLines(items), section)| >= |items|
    ensures ParseLines(CardLines(items), section) == EntriesFor(items, section) <==> AllWellFormed(items)
  {
    if items == [] {
      assert Texts(items) == [];
    } else {
      var lines := Segments(CardText(items[0]));
      var next := SectionAfter(lines, section);
      CardLinesHead(items);
      EntriesForHead(items, section);
      OneCard(items[0], section);
      CardsRoundTrip(items[1..], next);
      ParseAppend(lines, CardLines(items[1..]), section);
      CompareParts(ParseLines(lines, section), ParseLines(CardLines(items[1..]), next), EntryFor(items[0], section),
                   EntriesFor(items[1..], section), WellFormed(items[0]));
    }
  }

  // ---------------------------------------------------------------- the whole text

  /** A trimmed line that yields no entry: blank, a comment, a section title, the export's closing lines,
      or a `word:` that names no section or has nothing after it. */
  predicate SilentLine(line: string) {
    || line == "" || StartsWith(line, "#") || StartsWith(line, "//") || BareSection(line).Some? || IsAdvertisement(line)
    || (Header(line).Some? && (HeaderSection(Header(line).value.word).None? || Header(line).value.rest == ""))
  }

  /** The deck name prints no entry of its own: no other line terminator inside its first line, and
      nothing but silent lines after it. */
  predicate SilentName(name: string) {
    var i := IndexOf(name, '\n');
    OneLine(Trim(name[..i])) && SilentLines(LaterLines(name))
  }

  predicate SilentLines(lines: seq<string>) { forall i | 0 <= i < |lines| :: SilentLine(Trim(lines[i])) }

  lemma SilentParse(raw: string, section: Section)
    ensures ParseLine(raw, section).entry.None? <==> SilentLine(Trim(raw))
  {
  }

  lemma {:induction false} NoEntries(parse: LineParser, lines: seq<string>, section: Section)
    requires forall line, s, t :: parse(line, s).entry.None? <==> parse(line, t).entry.None?
    ensures Entries(parse, lines, section) == [] <==> forall i | 0 <= i < |lines| :: parse(lines[i], Deck).entry.None?
  {
    if lines != [] {
      NoEntries(parse, lines[1..], parse(lines[0], section).section);
      assert forall i | 0 <= i < |lines| - 1 :: lines[1..][i] == lines[i + 1];
      assert parse(lines[0], section).entry.None? <==> parse(lines[0], Deck).entry.None?;
    }
  }

  lemma SilentLinesParse(lines: seq<string>, section: Section)
    ensures ParseLines(lines, section) == [] <==> SilentLines(lines)
  {
    forall line, s, t ensures ParseLine(line, s).entry.None? <==> ParseLine(line, t).entry.None? {
      SilentParse(line, s);
      SilentParse(line, t);
    }
    NoEntries(ParseLine, lines, section);
    forall i | 0 <= i < |lines| ensures ParseLine(lines[i], Deck).entry.None? <==> SilentLine(Trim(lines[i])) {
      SilentParse(lines[i], Deck);
    }
  }

  /** The name's lines after its first one. */
  function LaterLines(name: string): seq<string> {
    var i := IndexOf(name, '\n');
    if i < |name| then Segments(name[i + 1..]) else []
  }

  lemma SegmentsHead(first: string, rest: string)
    requires NoFeed(first)
    ensures Segments(first + ("\n" + rest)) == [StripCr(first)] + Segments(rest)
  {
    var s := first + ("\n" + rest);
    assert s[|first|] == '\n';
    FirstIndex(s, |first|);
    assert s[..|first|] == first && s[|first| + 1..] == rest;
  }

  lemma PrefixedSegments(prefix: string, name: string)
    requires NoFeed(prefix)
    ensures Segments(prefix + name) == [StripCr(prefix + name[..IndexOf(name, '\n')])] + LaterLines(name)
  {
    var text := prefix + name;
    var i := IndexOf(name, '\n');
    if i == |name| {
      assert name[..i] == name;
      OneSegment(text);
    } else {
      var first, rest := name[..i], name[i + 1..];
      assert name == first + ("\n" + rest);
      Assoc(prefix, first, "\n" + rest);
      SegmentsHead(prefix + first, rest);
    }
  }

  lemma HeadThenSilent(line: string, rest: seq<string>)
    ensures ParseLines([line] + rest, Deck) == [] <==> ParseLine(line, Deck).entry.None? && SilentLines(rest)
  {
    ParseHead(line, rest, Deck);
    SilentLinesParse(rest, ParseLine(line, Deck).section);
  }

  /** The name's printed lines yield no entry exactly when the name is silent. */
  lemma NameLines(name: string)
    ensures ParseLines(Segments("Name: " + name), Deck) == [] <==> SilentName(name)
  {
    var first := name[..IndexOf(name, '\n')];
    PrefixedSegments("Name: ", name);
    FirstNameLine(first);
    HeadThenSilent(StripCr("Name: " + first), LaterLines(name));
  }

  /** A name without a line feed is silent exactly when it has no other line terminator either. */
  lemma NameLine(name: string)
    requires Trimmed(name) && NoFeed(name)
    ensures SilentName(name) <==> OneLine(name)
  {
    assert name[..|name|] == name;
    TrimTrimmed(name);
  }

  lemma FirstNameLine(first: string)
    ensures ParseLine(StripCr("Name: " + first), Deck).entry.None? <==> OneLine(Trim(first))
  {
    var line := "Name: " + first;
    StripCrTrims(line);
    SameLine(StripCr(line), line, Deck);
    assert "Name: " == "Name:" + " ";
    TrimTitled("Name:", first);
    NameParses(if Blank(first) then "" else " " + TrimEnd(first));
  }

  /** A word, a space and a text, trimmed. */
  lemma TrimTitled(word: string, text: string)
    requires Trimmed(word)
    ensures var rest := if Blank(text) then "" else " " + TrimEnd(text);
      Trim(word + " " + text) == word + rest && TrimStart(rest) == Trim(text)
  {
    var tail := " " + text;
    Assoc(word, " ", text);
    assert (word + tail)[0] == word[0];
    assert TrimStart(word + tail) == word + tail;
    BlankAfterSpace(text);
    TrimEndAppend(word, tail);
    assert TrimEnd(word) == word;
    if Blank(text) {
      TrimStartBlank(text);
    } else {
      TrimEndAppend(" ", text);
      assert (" " + TrimEnd(text))[1..] == TrimEnd(text);
      TrimCommutes(text);
    }
  }

  lemma NameHeader(rest: string)
    ensures Header("Name:" + rest) == if OneLine(TrimStart(rest)) then Some(HeaderLine("Name", TrimStart(rest))) else None
  {
    var word := "Name";
    assert DecklistForms.IsWord(word) by { assert word[0] == 'N' && word[1] == 'a' && word[2] == 'm' && word[3] == 'e'; }
    assert word + ":" == "Name:";
    DecklistForms.HeaderOf(word, rest);
  }

  lemma NameLower(rest: string)
    ensures var lower := Lower("Name:" + rest); |lower| >= 5 && lower[..4] == "name" && lower[4] == ':'
  {
    var line := "Name:" + rest;
    assert line[0] == 'N' && line[1] == 'a' && line[2] == 'm' && line[3] == 'e' && line[4] == ':';
  }

  lemma NameParses(rest: string)
    ensures ParseTrimmed("Name:" + rest, Deck).entry.None? <==> OneLine(TrimStart(rest))
  {
    var line := "Name:" + rest;
    NameLower(rest);
    NameHeader(rest);
    NameIsNoSection(line);
    NameIsNoAdvertisement(line);
    assert line[0] == 'N';
    assert !StartsWith(line, "#") && !StartsWith(line, "//") by { assert "#"[0] == '#' && "//"[0] == '/'; }
    assert Lower("Name") == "name";
  }

  lemma NameIsNoSection(line: string)
    requires line != "" && Lower(line)[0] == 'n'
    ensures BareSection(line).None?
  {
    var lower := Lower(line);
    NotBare(lower, "arena");
    NotBare(lower, "deck");
    NotBare(lower, "main");
    NotBare(lower, "sideboard");
    NotBare(lower, "maybeboard");
  }

  lemma NameIsNoAdvertisement(line: string)
    requires line != "" && Lower(line)[0] == 'n'
    ensures !IsAdvertisement(line)
  {
    var lower := Lower(line);
    assert "made with love at fabrary"[0] == 'm' && "made with love at the fabrary"[0] == 'm' && "see the full deck"[0] == 's';
    assert !StartsWith(lower, "see the full deck");
  }

  lemma SectionLine(line: string, section: Section, before: Section)
    requires Trimmed(line) && line[0] != '#' && line[0] != '/' && NoFeed(line) && BareSection(line) == Some(section)
    ensures ParseLine(line, before) == Parsed(None, section)
    ensures Segments(line) == [line]
  {
    TrimTrimmed(line);
    OneSegment(line);
    assert !StartsWith(line, "#") && !StartsWith(line, "//") by { assert "#"[0] == '#' && "//"[0] == '/'; }
  }

  lemma DeckSection()
    ensures BareSection("Deck cards") == Some(Deck)
  {
    assert Lower("Deck cards") == "deck" + " cards";
  }

  lemma SideboardSection()
    ensures BareSection("Sideboard cards") == Some(Sideboard)
  {
    var lower := Lower("Sideboard cards");
    assert lower == "sideboard" + " cards";
    NotBare(lower, "arena");
    NotBare(lower, "deck");
    NotBare(lower, "main");
  }

  lemma SectionThenCards(line: string, section: Section, items: seq<Item>, before: Section)
    requires Segments(line) == [line] && ParseLine(line, before) == Parsed(None, section)
    ensures ParseLines(AllSegments([line] + Texts(items)), before) == ParseLines(CardLines(items), section)
    ensures SectionAfter(AllSegments([line] + Texts(items)), before) == SectionAfter(CardLines(items), section)
  {
    HeadAndTail(line, Texts(items));
    ParseHead(line, CardLines(items), before);
  }

  lemma ThreeParts(first: string, second: seq<string>, third: seq<string>)
    ensures var s := SectionAfter(Segments(first), Deck);
      Parse(Join([first] + second + third)) ==
        ParseLines(Segments(first), Deck)
        + (ParseLines(AllSegments(second), s) + ParseLines(AllSegments(third), SectionAfter(AllSegments(second), s)))
  {
    var lines := [first] + second + third;
    assert lines == [first] + (second + third);
    ParseJoined(lines, Deck);
    HeadAndTail(first, second + third);
    SegmentsAppend(second, third);
    ParseAppend(Segments(first), AllSegments(second) + AllSegments(third), Deck);
    ParseAppend(AllSegments(second), AllSegments(third), SectionAfter(Segments(first), Deck));
  }

  function SideParsed(side: seq<Item>): seq<Entry> { if side == [] then [] else ParseLines(CardLines(side), Sideboard) }

  ghost predicate Opens(line: string, section: Section) { Segments(line) == [line] && forall s :: ParseLine(line, s) == Parsed(None, section) }

  lemma SectionOpens(line: string, section: Section)
    requires Trimmed(line) && line[0] != '#' && line[0] != '/' && NoFeed(line) && BareSection(line) == Some(section)
    ensures Opens(line, section)
  {
    forall s ensures ParseLine(line, s) == Parsed(None, section) && Segments(line) == [line] { SectionLine(line, section, s); }
    SectionLine(line, section, Deck);
  }

  lemma PartsOf(first: string, deckLine: string, main: seq<Item>, sideLine: string, side: seq<Item>)
    requires Opens(deckLine, Deck) && Opens(sideLine, Sideboard)
    ensures Parse(Join([first] + ([deckLine] + Texts(main)) + (if side != [] then [sideLine] + Texts(side) else []))) ==
      ParseLines(Segments(first), Deck) + (ParseLines(CardLines(main), Deck) + SideParsed(side))
  {
    var second, third := [deckLine] + Texts(main), if side != [] then [sideLine] + Texts(side) else [];
    ThreeParts(first, second, third);
    var s := SectionAfter(Segments(first), Deck);
    assert ParseLine(deckLine, s) == Parsed(None, Deck);
    SectionThenCards(deckLine, Deck, main, s);
    var t := SectionAfter(AllSegments(second), s);
    assert ParseLine(sideLine, t) == Parsed(None, Sideboard);
    if side != [] { SectionThenCards(sideLine, Sideboard, side, t); }
  }

  lemma DeckOpens()
    ensures Opens("Deck cards", Deck)
  {
    DeckSection();
    SectionOpens("Deck cards", Deck);
  }

  lemma SideboardOpens()
    ensures Opens("Sideboard cards", Sideboard)
  {
    SideboardSection();
    SectionOpens("Sideboard cards", Sideboard);
  }

  /** The text is its name's lines, then the main deck, then the sideboard. */
  lemma TextParts(name: string, main: seq<Item>, side: seq<Item>)
    ensures Parse(Join(DeckLines(name, main, side))) ==
      ParseLines(Segments("Name: " + name), Deck) + (ParseLines(CardLines(main), Deck) + SideParsed(side))
  {
    DeckOpens();
    SideboardOpens();
    PartsOf("Name: " + name, "Deck cards", main, "Sideboard cards", side);
  }

  lemma Cancel<T>(a: seq<T>, b: seq<T>, c: seq<T>, d: seq<T>, e: seq<T>)
    requires |b| >= |d| && |c| >= |e|
    ensures a + (b + c) == d + e <==> a == [] && b == d && c == e
  {
    if a + (b + c) == d + e {
      assert |a| == 0;
      assert a + (b + c) == b + c;
      assert (b + c)[..|b|] == b && (d + e)[..|b|] == d;
      assert (b + c)[|b|..] == c && (d + e)[|b|..] == e;
    }
  }

  /** Reading the printed text gives back, in order, every main and sideboard entry with its quantity,
      name, pitch and section, exactly when the deck name prints no entry of its own and every card is
      well formed. */
  lemma TextRoundTrip(name: string, main: seq<Item>, side: seq<Item>)
    ensures Parse(Join(DeckLines(name, main, side))) == EntriesFor(main, Deck) + EntriesFor(side, Sideboard)
            <==> SilentName(name) && AllWellFormed(main) && AllWellFormed(side)
  {
    TextParts(name, main, side);
    NameLines(name);
    CardsRoundTrip(main, Deck);
    CardsRoundTrip(side, Sideboard);
    assert side == [] ==> Texts(side) == [] && SideParsed(side) == EntriesFor(side, Sideboard);
    Cancel(ParseLines(Segments("Name: " + name), Deck), ParseLines(CardLines(main), Deck), SideParsed(side),
           EntriesFor(main, Deck), EntriesFor(side, Sideboard));
  }

  /** Such a name: its second line is a digit, which the parser takes for a card. */
  lemma ANameThatPrintsAnEntry(main: seq<Item>, side: seq<Item>)
    ensures !SilentName("A\n1")
    ensures Parse(Join(DeckLines("A\n1", main, side))) != EntriesFor(main, Deck) + EntriesFor(side, Sideboard)
  {
    DigitLineSpeaks("A\n1", "1");
    TextRoundTrip("A\n1", main, side);
  }

  lemma DigitLineSpeaks(name: string, line: string)
    requires |name| == 3 && name[0] != '\n' && name[1] == '\n' && name[2..] == line && Decimals.IsDigit(name[2])
    ensures !SilentName(name)
  {
    FirstIndex(name, 1);
    assert line[0] == name[2] && NoFeed(line);
    OneSegment(line);
    assert StripCr(line) == line;
    TrimTrimmed(line);
    DigitIsNotSilent(line);
    assert LaterLines(name) == [line];
    assert !SilentLine(Trim(LaterLines(name)[0]));
  }

  lemma DigitIsNotSilent(line: string)
    requires line != "" && Decimals.IsDigit(line[0])
    ensures !SilentLine(line)
  {
    NoComment(line);
    NoBareSection(line);
    NoAdvertisement(line);
    NoHeader(line);
  }

  /** What the decoder prints are the non-zero quantities only, none over the parser's clamp. */
  lemma {:induction false} PrintedQuantities(resolve: string -> CardData, cards: seq<RawCard>)
    requires AllValid(cards)
    ensures forall i | 0 <= i < |MainItems(resolve, cards)| :: 1 <= MainItems(resolve, cards)[i].qty <= MAX_LINE_QTY
    ensures forall i | 0 <= i < |SideItems(resolve, cards)| :: 1 <= SideItems(resolve, cards)[i].qty <= MAX_LINE_QTY
  {
    if cards != [] { PrintedQuantities(resolve, cards[..|cards| - 1]); }
  }

  /** From the response to the entries: the decoded text reads back as every non-zero main and sideboard
      entry exactly when the deck name is silent and the resolved names are well formed. */
  lemma DecodedRoundTrip(resolve: string -> CardData, deck: RawDeck)
    requires DeckText(resolve, deck).Some?
    ensures var main, side := MainItems(resolve, deck.cards.value), SideItems(resolve, deck.cards.value);
      Parse(DeckText(resolve, deck).value) == EntriesFor(main, Deck) + EntriesFor(side, Sideboard)
      <==> SilentName(Trim(deck.name.value)) && AllWellFormed(main) && AllWellFormed(side)
  {
    TextRoundTrip(Trim(deck.name.value), MainItems(resolve, deck.cards.value), SideItems(resolve, deck.cards.value));
  }
}
