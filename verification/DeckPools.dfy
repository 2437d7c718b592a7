/**
 From parsed decklist lines to a registered card pool, and the repair that
 stored pools go through when they are read.
 */
module DeckPools {
  import opened Common
  import opened DecklistText

  datatype Format = ClassicConstructed | SilverAge
  datatype Kind = HeroCard | EquipmentCard | TokenCard | OtherCard

  /** What validation reads of a card; `key` is its normalized name and pitch. */
  datatype Card = Card(id: string, name: string, key: string, kind: Kind, implemented: bool, inventory: bool, frontId: Option<string>,
                       weaponZone: bool, evo: bool, fitsSlot: bool, unlimited: bool)

  /** The printing a line names, if any. */
  type Finder = (string, Option<nat>) -> Option<Card>

  datatype Zone = HeroZone | WeaponZone | EquipmentZone | InventoryZone | DeckZone | SideboardZone | NoSlot | Token

  datatype Problem = MultipleHeroes(first: string, second: string) | UnknownSlot(name: string) | TokenInDeck(name: string) | NoHero
                   | TooManyCopies(key: string, count: nat) | TooSmall(size: nat) | TooLarge(size: nat)

  /** The working state of the loop. */
  datatype Draft = Draft(hero: Option<Card>, weapons: seq<string>, equipment: seq<string>, inventory: seq<string>,
                         deck: seq<string>, sideboard: seq<string>, copies: map<string, nat>,
                         missing: set<string>, unimplemented: set<string>, errors: seq<Problem>)

  const EmptyDraft := Draft(None, [], [], [], [], [], map[], {}, {}, [])

  datatype Pool = Pool(heroId: string, weaponIds: seq<string>, equipmentPool: seq<string>, inventoryPool: Option<seq<string>>,
                       deck: seq<string>, sideboard: Option<seq<string>>)

  datatype Validation = Valid(pool: Pool, heroName: string)
                      | Invalid(errors: seq<Problem>, missing: set<string>, unimplemented: set<string>)

  function MaxPoolSize(format: Format): nat { if format.ClassicConstructed? then 80 else 55 }
  function MaxCopies(format: Format): nat { if format.ClassicConstructed? then 3 else 2 }
  function MinDeckSize(format: Format): nat { if format.ClassicConstructed? then 60 else 40 }

  function ZoneOf(card: Card, section: Section): Zone {
    if card.kind.HeroCard? then (if card.inventory then InventoryZone else HeroZone)
    else if card.weaponZone then WeaponZone
    else if card.kind.EquipmentCard? && !card.evo then (if card.fitsSlot then EquipmentZone else NoSlot)
    else if card.kind.TokenCard? then Token
    else if section.Sideboard? then SideboardZone else DeckZone
  }

  function StoredId(card: Card): string {
    if card.kind.HeroCard? && card.inventory && card.frontId.Some? then card.frontId.value else card.id
  }

  function Times(id: string, n: nat): seq<string> { seq(n, _ => id) }

  function Usable(find: Finder, line: Entry): Option<Card> {
    var card := find(line.name, line.pitch);
    if card.Some? && card.value.implemented then card else None
  }

  function CopiesOf(copies: map<string, nat>, key: string): nat { if key in copies then copies[key] else 0 }

  // ---------------------------------------------------------------- validation

  /** One line of the loop. */
  function Added(d: Draft, find: Finder, line: Entry): Draft {
    var found := find(line.name, line.pitch);
    if found.None? then d.(missing := d.missing + {line.name})
    else if !found.value.implemented then d.(unimplemented := d.unimplemented + {found.value.name})
    else
      var card := found.value;
      var ids := Times(StoredId(card), line.qty);
      match ZoneOf(card, line.section)
      case InventoryZone => d.(inventory := d.inventory + ids)
      case HeroZone =>
        if d.hero.Some? then d.(errors := d.errors + [MultipleHeroes(d.hero.value.name, card.name)]) else d.(hero := Some(card))
      case WeaponZone => d.(weapons := d.weapons + ids)
      case EquipmentZone => d.(equipment := d.equipment + ids)
      case NoSlot => d.(errors := d.errors + [UnknownSlot(card.name)])
      case Token => d.(errors := d.errors + [TokenInDeck(card.name)])
      case _ =>
        var placed := if line.section.Sideboard? then d.(sideboard := d.sideboard + ids) else d.(deck := d.deck + ids);
        if card.unlimited then placed
        else placed.(copies := d.copies[card.key := CopiesOf(d.copies, card.key) + line.qty])
  }

  function Drafted(find: Finder, lines: seq<Entry>): Draft {
    if lines == [] then EmptyDraft else Added(Drafted(find, lines[..|lines| - 1]), find, lines[|lines| - 1])
  }

  predicate Overflowing(copies: map<string, nat>, format: Format) { exists key :: key in copies && copies[key] > MaxCopies(format) }

  function PoolSize(d: Draft): nat { |d.weapons| + |d.equipment| + |d.inventory| + |d.deck| + |d.sideboard| }

  predicate Acceptable(d: Draft, format: Format) {
    && d.missing == {} && d.unimplemented == {} && d.errors == [] && d.hero.Some? && !Overflowing(d.copies, format)
    && MinDeckSize(format) <= |d.deck| + |d.sideboard| && PoolSize(d) <= MaxPoolSize(format)
  }

  function PoolOf(d: Draft): Pool
    requires d.hero.Some?
  {
    Pool(d.hero.value.id, d.weapons, d.equipment, if d.inventory != [] then Some(d.inventory) else None, d.deck, Some(d.sideboard))
  }

  /** `validateDeck`. */
  method ValidateDeck(find: Finder, lines: seq<Entry>, format: Format) returns (result: Validation)
    ensures result.Valid? <==> Acceptable(Drafted(find, lines), format)
    ensures result.Valid? ==> result.pool == PoolOf(Drafted(find, lines)) && result.heroName == Drafted(find, lines).hero.value.name
    ensures result.Invalid? ==> result.errors != [] || result.missing != {} || result.unimplemented != {}
  {
    var d := EmptyDraft;
    for i := 0 to |lines|
      invariant d == Drafted(find, lines[..i])
    {
      assert lines[..i + 1][..i] == lines[..i];
      d := Added(d, find, lines[i]);
    }
    assert lines[..|lines|] == lines;
    var errors := d.errors + if d.hero.None? then [NoHero] else [];
    var keys := d.copies.Keys;
    ghost var over := false;
    while keys != {}
      invariant keys <= d.copies.Keys
      invariant over <==> exists key :: key in d.copies.Keys - keys && d.copies[key] > MaxCopies(format)
      invariant errors == [] <==> d.errors == [] && d.hero.Some? && !over
      decreases keys
    {
      ghost var some := Member(keys);
      var key :| key in keys;
      keys := keys - {key};
      if d.copies[key] > MaxCopies(format) {
        errors := errors + [TooManyCopies(key, d.copies[key])];
        over := true;
      }
    }
    if |d.deck| + |d.sideboard| < MinDeckSize(format) { errors := errors + [TooSmall(|d.deck| + |d.sideboard|)]; }
    if PoolSize(d) > MaxPoolSize(format) { errors := errors + [TooLarge(PoolSize(d))]; }
    if |d.missing| > 0 || |d.unimplemented| > 0 || |errors| > 0 { return Invalid(errors, d.missing, d.unimplemented); }
    return Valid(PoolOf(d), d.hero.value.name);
  }

  // ---------------------------------------------------------------- what a deck must be

  predicate InZone(find: Finder, line: Entry, zone: Zone) {
    Usable(find, line).Some? && ZoneOf(Usable(find, line).value, line.section) == zone
  }

  /** The copies of all lines that go to one zone, in the order of the lines. */
  function Expanded(find: Finder, lines: seq<Entry>, zone: Zone): seq<string> {
    if lines == [] then []
    else
      var rest, last := Expanded(find, lines[..|lines| - 1], zone), lines[|lines| - 1];
      if InZone(find, last, zone) then rest + Times(StoredId(Usable(find, last).value), last.qty) else rest
  }

  /** Main-deck and sideboard copies of one card together, unlimited cards apart. */
  function Copies(find: Finder, lines: seq<Entry>, key: string): nat {
    if lines == [] then 0
    else
      var last := lines[|lines| - 1];
      var counts := (InZone(find, last, DeckZone) || InZone(find, last, SideboardZone))
                    && !Usable(find, last).value.unlimited && Usable(find, last).value.key == key;
      Copies(find, lines[..|lines| - 1], key) + if counts then last.qty else 0
  }

  function Heroes(find: Finder, lines: seq<Entry>): nat {
    if lines == [] then 0
    else Heroes(find, lines[..|lines| - 1]) + if InZone(find, lines[|lines| - 1], HeroZone) then 1 else 0
  }

  /** Every line names an implemented card that may be registered. */
  predicate Registrable(find: Finder, lines: seq<Entry>) {
    forall i | 0 <= i < |lines| :: Usable(find, lines[i]).Some? && !InZone(find, lines[i], NoSlot) && !InZone(find, lines[i], Token)
  }

  function Size(find: Finder, lines: seq<Entry>): nat {
    |Expanded(find, lines, WeaponZone)| + |Expanded(find, lines, EquipmentZone)| + |Expanded(find, lines, InventoryZone)|
    + |Expanded(find, lines, DeckZone)| + |Expanded(find, lines, SideboardZone)|
  }

  predicate FewCopies(find: Finder, lines: seq<Entry>, format: Format, key: string) { Copies(find, lines, key) <= MaxCopies(format) }

  ghost predicate Legal(find: Finder, lines: seq<Entry>, format: Format) {
    && Registrable(find, lines) && Heroes(find, lines) == 1
    && (forall key :: FewCopies(find, lines, format, key))
    && MinDeckSize(format) <= |Expanded(find, lines, DeckZone)| + |Expanded(find, lines, SideboardZone)|
    && Size(find, lines) <= MaxPoolSize(format)
  }

  predicate ZonesReflect(find: Finder, lines: seq<Entry>, d: Draft) {
    && d.weapons == Expanded(find, lines, WeaponZone) && d.equipment == Expanded(find, lines, EquipmentZone)
    && d.inventory == Expanded(find, lines, InventoryZone)
    && d.deck == Expanded(find, lines, DeckZone) && d.sideboard == Expanded(find, lines, SideboardZone)
  }

  predicate VerdictReflects(find: Finder, lines: seq<Entry>, d: Draft) {
    && (d.hero.Some? <==> Heroes(find, lines) >= 1)
    && (d.missing == {} && d.unimplemented == {} && d.errors == [] <==> Registrable(find, lines) && Heroes(find, lines) <= 1)
  }

  /** The loop's state is what the lines say, zone by zone. */
  ghost predicate Reflects(find: Finder, lines: seq<Entry>, d: Draft) {
    ZonesReflect(find, lines, d) && VerdictReflects(find, lines, d) && forall key :: CopiesOf(d.copies, key) == Copies(find, lines, key)
  }

  lemma RegistrableSnoc(find: Finder, lines: seq<Entry>)
    requires lines != []
    ensures var last := lines[|lines| - 1];
      Registrable(find, lines) <==> (Registrable(find, lines[..|lines| - 1])
                                     && Usable(find, last).Some? && !InZone(find, last, NoSlot) && !InZone(find, last, Token))
  {
    var front := lines[..|lines| - 1];
    assert forall i | 0 <= i < |front| :: front[i] == lines[i];
  }

  lemma {:induction false} DraftZones(find: Finder, lines: seq<Entry>)
    ensures ZonesReflect(find, lines, Drafted(find, lines))
  {
    if lines != [] { DraftZones(find, lines[..|lines| - 1]); }
  }

  lemma {:induction false} DraftVerdict(find: Finder, lines: seq<Entry>)
    ensures VerdictReflects(find, lines, Drafted(find, lines))
  {
    if lines != [] {
      DraftVerdict(find, lines[..|lines| - 1]);
      RegistrableSnoc(find, lines);
    }
  }

  lemma {:induction false} DraftCopies(find: Finder, lines: seq<Entry>, key: string)
    ensures CopiesOf(Drafted(find, lines).copies, key) == Copies(find, lines, key)
  {
    if lines != [] { DraftCopies(find, lines[..|lines| - 1], key); }
  }

  lemma DraftReflects(find: Finder, lines: seq<Entry>)
    ensures Reflects(find, lines, Drafted(find, lines))
  {
    DraftZones(find, lines);
    DraftVerdict(find, lines);
    forall key ensures CopiesOf(Drafted(find, lines).copies, key) == Copies(find, lines, key) { DraftCopies(find, lines, key); }
  }

  /** A decklist is accepted exactly when it is legal. */
  lemma AcceptedIffLegal(find: Finder, lines: seq<Entry>, format: Format)
    ensures Acceptable(Drafted(find, lines), format) <==> Legal(find, lines, format)
  {
    var d := Drafted(find, lines);
    DraftReflects(find, lines);
    if !Overflowing(d.copies, format) {
      forall key ensures FewCopies(find, lines, format, key) {
        assert CopiesOf(d.copies, key) == Copies(find, lines, key);
      }
    } else {
      var key :| key in d.copies && d.copies[key] > MaxCopies(format);
      assert CopiesOf(d.copies, key) == Copies(find, lines, key);
      assert !FewCopies(find, lines, format, key);
    }
  }

  // ---------------------------------------------------------------- nothing is lost

  function AllCopies(find: Finder, lines: seq<Entry>): multiset<string> {
    if lines == [] then multiset{}
    else
      var last := lines[|lines| - 1];
      var more := if Usable(find, last).Some? && !InZone(find, last, HeroZone)
                  then multiset(Times(StoredId(Usable(find, last).value), last.qty)) else multiset{};
      AllCopies(find, lines[..|lines| - 1]) + more
  }

  function Registered(pool: Pool): multiset<string> {
    multiset(pool.weaponIds) + multiset(pool.equipmentPool)
    + multiset(if pool.inventoryPool.Some? then pool.inventoryPool.value else [])
    + multiset(pool.deck) + multiset(if pool.sideboard.Some? then pool.sideboard.value else [])
  }

  function InZones(find: Finder, lines: seq<Entry>): multiset<string> {
    multiset(Expanded(find, lines, WeaponZone)) + multiset(Expanded(find, lines, EquipmentZone))
    + multiset(Expanded(find, lines, InventoryZone))
    + multiset(Expanded(find, lines, DeckZone)) + multiset(Expanded(find, lines, SideboardZone))
  }

  function Share(find: Finder, line: Entry, zone: Zone): multiset<string> {
    if InZone(find, line, zone) then multiset(Times(StoredId(Usable(find, line).value), line.qty)) else multiset{}
  }

  lemma ExpandedSnoc(find: Finder, lines: seq<Entry>, zone: Zone)
    requires lines != []
    ensures multiset(Expanded(find, lines, zone)) ==
            multiset(Expanded(find, lines[..|lines| - 1], zone)) + Share(find, lines[|lines| - 1], zone)
  {
  }

  /** A registrable line is the hero's or belongs to exactly one zone of the pool. */
  lemma OneShare(find: Finder, line: Entry)
    requires Usable(find, line).Some? && !InZone(find, line, NoSlot) && !InZone(find, line, Token)
    ensures Share(find, line, WeaponZone) + Share(find, line, EquipmentZone) + Share(find, line, InventoryZone)
            + Share(find, line, DeckZone) + Share(find, line, SideboardZone)
            == if InZone(find, line, HeroZone) then multiset{} else multiset(Times(StoredId(Usable(find, line).value), line.qty))
  {
  }

  lemma AddShares(a: multiset<string>, b: multiset<string>, c: multiset<string>, d: multiset<string>, e: multiset<string>,
                  v: multiset<string>, w: multiset<string>, x: multiset<string>, y: multiset<string>, z: multiset<string>)
    ensures (a + v) + (b + w) + (c + x) + (d + y) + (e + z) == (a + b + c + d + e) + (v + w + x + y + z)
  {
  }

  lemma {:induction false} ZonesPartition(find: Finder, lines: seq<Entry>)
    requires Registrable(find, lines)
    ensures InZones(find, lines) == AllCopies(find, lines)
  {
    if lines != [] {
      var front := lines[..|lines| - 1];
      var last := lines[|lines| - 1];
      RegistrableSnoc(find, lines);
      ZonesPartition(find, front);
      ExpandedSnoc(find, lines, WeaponZone);
      ExpandedSnoc(find, lines, EquipmentZone);
      ExpandedSnoc(find, lines, InventoryZone);
      ExpandedSnoc(find, lines, DeckZone);
      ExpandedSnoc(find, lines, SideboardZone);
      OneShare(find, last);
      AddShares(multiset(Expanded(find, front, WeaponZone)), multiset(Expanded(find, front, EquipmentZone)),
                multiset(Expanded(find, front, InventoryZone)), multiset(Expanded(find, front, DeckZone)),
                multiset(Expanded(find, front, SideboardZone)),
                Share(find, last, WeaponZone), Share(find, last, EquipmentZone), Share(find, last, InventoryZone),
                Share(find, last, DeckZone), Share(find, last, SideboardZone));
    }
  }

  /** An accepted pool registers every copy of every line but the hero's, each exactly once. */
  lemma PoolIsTheDecklist(find: Finder, lines: seq<Entry>, format: Format)
    requires Acceptable(Drafted(find, lines), format)
    ensures Registered(PoolOf(Drafted(find, lines))) == AllCopies(find, lines)
  {
    AcceptedIffLegal(find, lines, format);
    DraftReflects(find, lines);
    ZonesPartition(find, lines);
  }

  // ---------------------------------------------------------------- what goes where

  datatype Part = Weapons | Equipment | Inventory | MainDeck | Side

  /** Which part of the pool a line's card belongs to: an extra hero to the inventory, a weapon-zone card to the
      weapons, equipment for a slot to the equipment, and any other card, evos included, to the deck or the
      sideboard it is listed under. */
  predicate Belongs(card: Card, section: Section, part: Part) {
    match part
    case Inventory => card.kind == HeroCard && card.inventory
    case Weapons => card.kind != HeroCard && card.weaponZone
    case Equipment => card.kind == EquipmentCard && !card.weaponZone && !card.evo && card.fitsSlot
    case MainDeck => InDeck(card) && section != Sideboard
    case Side => InDeck(card) && section == Sideboard
  }

  predicate InDeck(card: Card) { !card.weaponZone && (card.kind == OtherCard || (card.kind == EquipmentCard && card.evo)) }

  /** The id a copy is registered under: an extra hero's is that of its front. */
  function RegisteredId(card: Card): string {
    match card.kind
    case HeroCard => if card.inventory then (match card.frontId case Some(front) => front case None => card.id) else card.id
    case _ => card.id
  }

  /** As many copies as the line says, line after line. */
  function Listed(find: Finder, lines: seq<Entry>, part: Part): seq<string> {
    if lines == [] then []
    else
      var front, last := Listed(find, lines[..|lines| - 1], part), lines[|lines| - 1];
      match find(last.name, last.pitch)
      case Some(card) => if card.implemented && Belongs(card, last.section, part) then Repeat(front, RegisteredId(card), last.qty) else front
      case None => front
  }

  function Repeat(ids: seq<string>, id: string, n: nat): seq<string> { if n == 0 then ids else Repeat(ids, id, n - 1) + [id] }

  lemma {:induction false} RepeatIsTimes(ids: seq<string>, id: string, n: nat)
    ensures Repeat(ids, id, n) == ids + Times(id, n)
  {
    if n > 0 {
      RepeatIsTimes(ids, id, n - 1);
      assert Times(id, n) == Times(id, n - 1) + [id];
      Assoc(ids, Times(id, n - 1), [id]);
    }
  }

  function PartOf(zone: Zone): Part
    requires zone.WeaponZone? || zone.EquipmentZone? || zone.InventoryZone? || zone.DeckZone? || zone.SideboardZone?
  {
    match zone
    case WeaponZone => Weapons case EquipmentZone => Equipment case InventoryZone => Inventory
    case DeckZone => MainDeck case SideboardZone => Side
  }

  lemma ZoneMeans(find: Finder, line: Entry, zone: Zone)
    requires zone.WeaponZone? || zone.EquipmentZone? || zone.InventoryZone? || zone.DeckZone? || zone.SideboardZone?
    ensures InZone(find, line, zone) <==> Usable(find, line).Some? && Belongs(Usable(find, line).value, line.section, PartOf(zone))
    ensures Usable(find, line).Some? ==> StoredId(Usable(find, line).value) == RegisteredId(Usable(find, line).value)
  {
  }

  lemma {:induction false} ExpandedIsListed(find: Finder, lines: seq<Entry>, zone: Zone)
    requires zone.WeaponZone? || zone.EquipmentZone? || zone.InventoryZone? || zone.DeckZone? || zone.SideboardZone?
    ensures Expanded(find, lines, zone) == Listed(find, lines, PartOf(zone))
  {
    if lines != [] {
      var last := lines[|lines| - 1];
      ExpandedIsListed(find, lines[..|lines| - 1], zone);
      ZoneMeans(find, last, zone);
      if InZone(find, last, zone) {
        RepeatIsTimes(Expanded(find, lines[..|lines| - 1], zone), StoredId(Usable(find, last).value), last.qty);
      }
    }
  }

  /** The line names a hero that is played. */
  predicate NamesHero(find: Finder, line: Entry, card: Card) {
    find(line.name, line.pitch) == Some(card) && card.implemented && card.kind == HeroCard && !card.inventory
  }

  lemma {:induction false} DraftedHero(find: Finder, lines: seq<Entry>)
    ensures Drafted(find, lines).hero.Some? ==>
      exists i :: 0 <= i < |lines| && NamesHero(find, lines[i], Drafted(find, lines).hero.value)
  {
    if lines != [] {
      var front := lines[..|lines| - 1];
      DraftedHero(find, front);
      if Drafted(find, front).hero.Some? {
        var i :| 0 <= i < |front| && NamesHero(find, front[i], Drafted(find, front).hero.value);
        assert front[i] == lines[i];
      } else if Drafted(find, lines).hero.Some? {
        assert NamesHero(find, lines[|lines| - 1], Drafted(find, lines).hero.value);
      }
    }
  }

  /** Every part of an accepted pool holds exactly the copies of the lines that belong there, in the order of
      the lines, and the hero is the one a line names. */
  lemma PoolMeans(find: Finder, lines: seq<Entry>, format: Format)
    requires Acceptable(Drafted(find, lines), format)
    ensures var pool := PoolOf(Drafted(find, lines));
      && pool.weaponIds == Listed(find, lines, Weapons) && pool.equipmentPool == Listed(find, lines, Equipment)
      && pool.deck == Listed(find, lines, MainDeck) && pool.sideboard == Some(Listed(find, lines, Side))
      && pool.inventoryPool == (if Listed(find, lines, Inventory) == [] then None else Some(Listed(find, lines, Inventory)))
      && exists i, card :: 0 <= i < |lines| && NamesHero(find, lines[i], card) && pool.heroId == card.id
  {
    DraftReflects(find, lines);
    ExpandedIsListed(find, lines, WeaponZone);
    ExpandedIsListed(find, lines, EquipmentZone);
    ExpandedIsListed(find, lines, InventoryZone);
    ExpandedIsListed(find, lines, DeckZone);
    ExpandedIsListed(find, lines, SideboardZone);
    DraftedHero(find, lines);
  }

  /** The line names an implemented card that has a place in a pool. */
  predicate HasPlace(find: Finder, line: Entry) {
    match find(line.name, line.pitch)
    case Some(card) =>
      card.implemented && (card.kind == TokenCard ==> card.weaponZone)
      && (card.kind == EquipmentCard ==> card.weaponZone || card.evo || card.fitsSlot)
    case None => false
  }

  predicate HeroLine(find: Finder, line: Entry) {
    match find(line.name, line.pitch)
    case Some(card) => card.implemented && card.kind == HeroCard && !card.inventory
    case None => false
  }

  function HeroLines(find: Finder, lines: seq<Entry>): nat {
    if lines == [] then 0 else HeroLines(find, lines[..|lines| - 1]) + if HeroLine(find, lines[|lines| - 1]) then 1 else 0
  }

  /** A copy of this card that counts against the limit, in the deck or the sideboard. */
  predicate Limited(find: Finder, line: Entry, key: string) {
    match find(line.name, line.pitch)
    case Some(card) => card.implemented && InDeck(card) && !card.unlimited && card.key == key
    case None => false
  }

  function LimitedCopies(find: Finder, lines: seq<Entry>, key: string): nat {
    if lines == [] then 0
    else LimitedCopies(find, lines[..|lines| - 1], key) + if Limited(find, lines[|lines| - 1], key) then lines[|lines| - 1].qty else 0
  }

  /** What a format allows. */
  predicate CopiesAllowed(find: Finder, lines: seq<Entry>, format: Format, key: string) {
    LimitedCopies(find, lines, key) <= (match format case ClassicConstructed => 3 case SilverAge => 2)
  }

  predicate SizesAllowed(format: Format, deck: nat, pool: nat) {
    match format case ClassicConstructed => deck >= 60 && pool <= 80 case SilverAge => deck >= 40 && pool <= 55
  }

  function DeckCount(find: Finder, lines: seq<Entry>): nat { |Listed(find, lines, MainDeck)| + |Listed(find, lines, Side)| }

  function PoolCount(find: Finder, lines: seq<Entry>): nat {
    DeckCount(find, lines) + |Listed(find, lines, Weapons)| + |Listed(find, lines, Equipment)| + |Listed(find, lines, Inventory)|
  }

  lemma {:induction false} LinesCount(find: Finder, lines: seq<Entry>, key: string)
    ensures Heroes(find, lines) == HeroLines(find, lines) && Copies(find, lines, key) == LimitedCopies(find, lines, key)
  {
    if lines != [] {
      LinesCount(find, lines[..|lines| - 1], key);
    }
  }

  lemma HasPlaceMeans(find: Finder, line: Entry)
    ensures HasPlace(find, line) <==> Usable(find, line).Some? && !InZone(find, line, NoSlot) && !InZone(find, line, Token)
  {
  }

  lemma PlacesMean(find: Finder, lines: seq<Entry>)
    ensures Registrable(find, lines) <==> forall i | 0 <= i < |lines| :: HasPlace(find, lines[i])
  {
    forall i | 0 <= i < |lines| ensures HasPlace(find, lines[i]) <==>
      Usable(find, lines[i]).Some? && !InZone(find, lines[i], NoSlot) && !InZone(find, lines[i], Token) {
      HasPlaceMeans(find, lines[i]);
    }
  }

  lemma SizesMean(find: Finder, lines: seq<Entry>)
    ensures |Expanded(find, lines, DeckZone)| + |Expanded(find, lines, SideboardZone)| == DeckCount(find, lines)
    ensures Size(find, lines) == PoolCount(find, lines)
  {
    ExpandedIsListed(find, lines, WeaponZone);
    ExpandedIsListed(find, lines, EquipmentZone);
    ExpandedIsListed(find, lines, InventoryZone);
    ExpandedIsListed(find, lines, DeckZone);
    ExpandedIsListed(find, lines, SideboardZone);
  }

  lemma CopiesMean(find: Finder, lines: seq<Entry>, format: Format)
    ensures (forall key :: FewCopies(find, lines, format, key)) <==> (forall key :: CopiesAllowed(find, lines, format, key))
  {
    forall key ensures FewCopies(find, lines, format, key) <==> CopiesAllowed(find, lines, format, key) {
      LinesCount(find, lines, key);
    }
  }

  /** Every line has a place, one line names a hero, and copies and sizes are within what the format allows. */
  ghost predicate Allowed(find: Finder, lines: seq<Entry>, format: Format) {
    && (forall i | 0 <= i < |lines| :: HasPlace(find, lines[i])) && HeroLines(find, lines) == 1
    && (forall key :: CopiesAllowed(find, lines, format, key))
    && SizesAllowed(format, DeckCount(find, lines), PoolCount(find, lines))
  }

  lemma LegalMeans(find: Finder, lines: seq<Entry>, format: Format)
    ensures Legal(find, lines, format) <==> Allowed(find, lines, format)
  {
    PlacesMean(find, lines);
    SizesMean(find, lines);
    CopiesMean(find, lines, format);
    LinesCount(find, lines, "");
  }

  /** The validator accepts exactly the decklists that are allowed, said of the lines alone. */
  lemma AcceptedMeans(find: Finder, lines: seq<Entry>, format: Format)
    ensures Acceptable(Drafted(find, lines), format) <==> Allowed(find, lines, format)
  {
    AcceptedIffLegal(find, lines, format);
    LegalMeans(find, lines, format);
  }

  // ---------------------------------------------------------------- reading a stored pool

  const MAX_ZONE := 100
  const MAX_ID := 256

  predicate StorableId(id: string) { 1 <= |id| <= MAX_ID }

  predicate StorableZone(ids: seq<string>) { |ids| <= MAX_ZONE && forall i | 0 <= i < |ids| :: StorableId(ids[i]) }

  predicate StorablePool(pool: Pool) {
    && StorableId(pool.heroId) && StorableZone(pool.weaponIds) && StorableZone(pool.equipmentPool) && StorableZone(pool.deck)
    && (pool.inventoryPool.Some? ==> StorableZone(pool.inventoryPool.value))
    && (pool.sideboard.Some? ==> StorableZone(pool.sideboard.value))
  }

  /** The lists of a pool, and every id in it. */
  ghost predicate Lists(pool: Pool, ids: seq<string>) {
    || ids == pool.weaponIds || ids == pool.equipmentPool || ids == pool.deck
    || pool.inventoryPool == Some(ids) || pool.sideboard == Some(ids)
  }

  ghost predicate Mentions(pool: Pool, id: string) {
    id == pool.heroId || exists ids :: Lists(pool, ids) && id in ids
  }

  /** A pool can be stored when no list is longer than a hundred and no id empty or longer than 256. */
  lemma StorableMeans(pool: Pool)
    ensures StorablePool(pool) <==>
      (forall ids :: Lists(pool, ids) ==> |ids| <= 100) && (forall id :: Mentions(pool, id) ==> 1 <= |id| <= 256)
  {
    if StorablePool(pool) {
      forall id | Mentions(pool, id) ensures 1 <= |id| <= 256 { assert StorableId(id); }
    } else if forall id :: Mentions(pool, id) ==> 1 <= |id| <= 256 {
      forall ids | Lists(pool, ids) && |ids| <= 100 ensures StorableZone(ids) {
        forall i | 0 <= i < |ids| ensures StorableId(ids[i]) { assert Mentions(pool, ids[i]); }
      }
      assert Mentions(pool, pool.heroId);
      assert Lists(pool, pool.weaponIds) && Lists(pool, pool.equipmentPool) && Lists(pool, pool.deck);
      assert pool.inventoryPool.Some? ==> Lists(pool, pool.inventoryPool.value);
      assert pool.sideboard.Some? ==> Lists(pool, pool.sideboard.value);
    }
  }

  /** The cards of a list on one side of the weapon-zone test, in order. */
  function Sifted(ids: seq<string>, weapons: set<string>, keep: bool): seq<string> {
    if ids == [] then []
    else
      var rest := Sifted(ids[..|ids| - 1], weapons, keep);
      if (ids[|ids| - 1] in weapons) == keep then rest + [ids[|ids| - 1]] else rest
  }

  /** `normalizeDeckPoolCardZones`: weapon-zone cards move to the weapons, zone after zone. */
  function Repaired(pool: Pool, weapons: set<string>): Pool {
    var side := if pool.sideboard.Some? then pool.sideboard.value else [];
    Pool(pool.heroId,
         pool.weaponIds + Sifted(pool.equipmentPool, weapons, true) + Sifted(pool.deck, weapons, true) + Sifted(side, weapons, true),
         Sifted(pool.equipmentPool, weapons, false), pool.inventoryPool, Sifted(pool.deck, weapons, false),
         if pool.sideboard.Some? then Some(Sifted(side, weapons, false)) else None)
  }

  /** `filter(keepMainDeckCard)`, which pushes what it drops onto the weapons. */
  method SiftOut(ids: seq<string>, weapons: set<string>, weaponIds: seq<string>) returns (kept: seq<string>, moved: seq<string>)
    ensures kept == Sifted(ids, weapons, false) && moved == weaponIds + Sifted(ids, weapons, true)
  {
    kept, moved := [], weaponIds;
    for i := 0 to |ids|
      invariant kept == Sifted(ids[..i], weapons, false) && moved == weaponIds + Sifted(ids[..i], weapons, true)
    {
      assert ids[..i + 1][..i] == ids[..i];
      if ids[i] !in weapons {
        kept := kept + [ids[i]];
      } else {
        Assoc(weaponIds, Sifted(ids[..i], weapons, true), [ids[i]]);
        moved := moved + [ids[i]];
      }
    }
    assert ids[..|ids|] == ids;
  }

  /** `decodeDeckPool`: nothing for a corrupt row. */
  method DecodePool(pool: Pool, weapons: set<string>) returns (decoded: Option<Pool>)
    ensures decoded == if StorablePool(pool) then Some(Repaired(pool, weapons)) else None
  {
    if !StorablePool(pool) { return None; }
    var equipment, w1 := SiftOut(pool.equipmentPool, weapons, pool.weaponIds);
    var deck, w2 := SiftOut(pool.deck, weapons, w1);
    var side, w3 := SiftOut(if pool.sideboard.Some? then pool.sideboard.value else [], weapons, w2);
    return Some(Pool(pool.heroId, w3, equipment, pool.inventoryPool, deck, if pool.sideboard.Some? then Some(side) else None));
  }

  lemma {:induction false} SiftedFacts(ids: seq<string>, weapons: set<string>)
    ensures multiset(Sifted(ids, weapons, true)) + multiset(Sifted(ids, weapons, false)) == multiset(ids)
    ensures forall i | 0 <= i < |Sifted(ids, weapons, false)| :: Sifted(ids, weapons, false)[i] !in weapons
    ensures forall i | 0 <= i < |Sifted(ids, weapons, true)| :: Sifted(ids, weapons, true)[i] in weapons
  {
    if ids != [] {
      SiftedFacts(ids[..|ids| - 1], weapons);
      FrontAndLast(ids);
      assert multiset(ids) == multiset(ids[..|ids| - 1]) + multiset{ids[|ids| - 1]};
    }
  }

  lemma {:induction false} NothingToSift(ids: seq<string>, weapons: set<string>)
    requires forall i | 0 <= i < |ids| :: ids[i] !in weapons
    ensures Sifted(ids, weapons, false) == ids && Sifted(ids, weapons, true) == []
  {
    if ids != [] {
      NothingToSift(ids[..|ids| - 1], weapons);
      FrontAndLast(ids);
    }
  }

  predicate NoWeapons(ids: seq<string>, weapons: set<string>) { forall i | 0 <= i < |ids| :: ids[i] !in weapons }

  predicate InPlace(pool: Pool, weapons: set<string>) {
    && NoWeapons(pool.equipmentPool, weapons) && NoWeapons(pool.deck, weapons)
    && (pool.sideboard.Some? ==> NoWeapons(pool.sideboard.value, weapons))
  }

  /** The repair keeps every card, puts every weapon-zone card among the weapons, and changes a pool
      exactly when one was elsewhere; so repairing twice is repairing once. */
  lemma RepairFacts(pool: Pool, weapons: set<string>)
    ensures Registered(Repaired(pool, weapons)) == Registered(pool)
    ensures InPlace(Repaired(pool, weapons), weapons)
    ensures Repaired(pool, weapons) == pool <==> InPlace(pool, weapons)
    ensures Repaired(Repaired(pool, weapons), weapons) == Repaired(pool, weapons)
  {
    RepairKeeps(pool, weapons);
    RepairFixes(pool, weapons);
    RepairFixes(Repaired(pool, weapons), weapons);
  }

  lemma RepairKeeps(pool: Pool, weapons: set<string>)
    ensures Registered(Repaired(pool, weapons)) == Registered(pool)
    ensures InPlace(Repaired(pool, weapons), weapons)
  {
    var side := if pool.sideboard.Some? then pool.sideboard.value else [];
    SiftedFacts(pool.equipmentPool, weapons);
    SiftedFacts(pool.deck, weapons);
    SiftedFacts(side, weapons);
  }

  lemma RepairFixes(pool: Pool, weapons: set<string>)
    ensures Repaired(pool, weapons) == pool <==> InPlace(pool, weapons)
  {
    RepairKeeps(pool, weapons);
    if InPlace(pool, weapons) {
      var side := if pool.sideboard.Some? then pool.sideboard.value else [];
      NothingToSift(pool.equipmentPool, weapons);
      NothingToSift(pool.deck, weapons);
      NothingToSift(side, weapons);
      assert pool.weaponIds + [] + [] + [] == pool.weaponIds;
    }
  }

  /** The finder and the catalogue agree about which ids are weapon-zone cards, and ids can be stored. */
  ghost predicate Catalogued(find: Finder, weapons: set<string>) {
    forall name, pitch :: find(name, pitch).Some? ==> Consistent(find(name, pitch).value, weapons)
  }

  predicate Consistent(card: Card, weapons: set<string>) {
    (card.id in weapons <==> card.weaponZone) && StorableId(card.id) && StorableId(StoredId(card))
  }

  lemma {:induction false} ExpandedFacts(find: Finder, lines: seq<Entry>, zone: Zone, weapons: set<string>)
    requires Catalogued(find, weapons)
    ensures forall i | 0 <= i < |Expanded(find, lines, zone)| :: StorableId(Expanded(find, lines, zone)[i])
    ensures zone.EquipmentZone? || zone.DeckZone? || zone.SideboardZone? ==> NoWeapons(Expanded(find, lines, zone), weapons)
  {
    if lines != [] {
      ExpandedFacts(find, lines[..|lines| - 1], zone, weapons);
      var last := lines[|lines| - 1];
      if Usable(find, last).Some? { assert Consistent(find(last.name, last.pitch).value, weapons); }
    }
  }

  lemma {:induction false} HeroIsCatalogued(find: Finder, lines: seq<Entry>, weapons: set<string>)
    requires Catalogued(find, weapons)
    ensures Drafted(find, lines).hero.Some? ==> StorableId(Drafted(find, lines).hero.value.id)
  {
    if lines != [] {
      HeroIsCatalogued(find, lines[..|lines| - 1], weapons);
      var last := lines[|lines| - 1];
      if Usable(find, last).Some? { assert Consistent(find(last.name, last.pitch).value, weapons); }
    }
  }

  /** What import accepts, storage reads back unchanged. */
  lemma AcceptedPoolReadsBack(find: Finder, lines: seq<Entry>, format: Format, weapons: set<string>)
    requires Catalogued(find, weapons) && Acceptable(Drafted(find, lines), format)
    ensures var pool := PoolOf(Drafted(find, lines)); StorablePool(pool) && Repaired(pool, weapons) == pool
  {
    DraftReflects(find, lines);
    HeroIsCatalogued(find, lines, weapons);
    ExpandedFacts(find, lines, WeaponZone, weapons);
    ExpandedFacts(find, lines, EquipmentZone, weapons);
    ExpandedFacts(find, lines, InventoryZone, weapons);
    ExpandedFacts(find, lines, DeckZone, weapons);
    ExpandedFacts(find, lines, SideboardZone, weapons);
    RepairFixes(PoolOf(Drafted(find, lines)), weapons);
  }
}
