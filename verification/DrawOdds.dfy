/**
 What a bot may infer about hidden cards: the counts of cards not publicly
 seen, averages over them, and the odds of drawing at least one of a kind.
 Arithmetic is over the reals.
 */
module DrawOdds {
  import opened Common

  // ---------------------------------------------------------------- odds of at least one

  /** The number of ways to pick k of n. */
  function Choose(n: nat, k: nat): nat {
    if k == 0 then 1 else if n == 0 then 0 else Choose(n - 1, k - 1) + Choose(n - 1, k)
  }

  /** n * (n - 1) * … with k factors. */
  function Falling(n: nat, k: nat): nat
    requires k <= n
  {
    if k == 0 then 1 else Falling(n, k - 1) * (n - k + 1)
  }

  function Factorial(k: nat): nat { if k == 0 then 1 else Factorial(k - 1) * k }

  lemma {:induction false} FallingFirst(n: nat, k: nat)
    requires 0 < k <= n
    ensures Falling(n, k) == n * Falling(n - 1, k - 1)
  {
    if k > 1 {
      var rest, last := Falling(n - 1, k - 2), n - k + 1;
      calc {
        Falling(n, k);
      == { LastOfFalling(n, k, last); }
        Falling(n, k - 1) * last;
      == { FallingFirst(n, k - 1); }
        (n * rest) * last;
      == { Regrouped(n, rest, last); }
        n * (rest * last);
      == { LastOfFalling(n - 1, k - 1, last); }
        n * Falling(n - 1, k - 1);
      }
    }
  }

  lemma Regrouped(a: nat, b: nat, c: nat)
    ensures (a * b) * c == a * (b * c)
  {
  }

  lemma LastOfFalling(n: nat, draws: nat, factor: nat)
    requires 0 < draws <= n && factor == n - (draws - 1)
    ensures Falling(n, draws) == Falling(n, draws - 1) * factor
  {
  }

  lemma {:induction false} FallingPositive(n: nat, k: nat)
    requires k <= n
    ensures Falling(n, k) > 0
  {
    if k > 0 {
      FallingPositive(n, k - 1);
      PositiveProduct(Falling(n, k - 1), n - k + 1);
    }
  }

  lemma PositiveProduct(a: nat, b: nat)
    requires a > 0 && b > 0
    ensures a * b > 0
  {
  }

  lemma {:induction false} RealProduct(a: nat, b: nat)
    ensures (a * b) as real == a as real * b as real
  {
    if b > 0 {
      RealProduct(a, b - 1);
      assert a * b == a * (b - 1) + a;
      assert a as real * b as real == a as real * (b - 1) as real + a as real;
    }
  }

  lemma {:induction false} ChooseTooMany(n: nat, k: nat)
    requires k > n
    ensures Choose(n, k) == 0
  {
    if n > 0 {
      ChooseTooMany(n - 1, k - 1);
      ChooseTooMany(n - 1, k);
    }
  }

  /** Picking k in order is picking k and ordering them. */
  lemma {:induction false} ChooseFalling(n: nat, k: nat)
    requires k <= n
    ensures Choose(n, k) * Factorial(k) == Falling(n, k)
  {
    if k > 0 {
      ChooseFalling(n - 1, k - 1);
      FallingFirst(n, k);
      var front := Falling(n - 1, k - 1);
      if k <= n - 1 {
        ChooseFalling(n - 1, k);
        Pascal(Choose(n - 1, k - 1), Choose(n - 1, k), Factorial(k - 1), front, n, k);
      } else {
        ChooseTooMany(n - 1, k);
        Pascal(Choose(n - 1, k - 1), 0, Factorial(k - 1), front, n, k);
      }
    }
  }

  lemma Pascal(with: nat, without: nat, orders: nat, front: nat, n: nat, k: nat)
    requires 0 < k <= n && with * orders == front && without * (orders * k) == front * (n - k)
    ensures (with + without) * (orders * k) == n * front
  {
    assert (with + without) * (orders * k) == with * orders * k + without * (orders * k);
    assert front * k + front * (n - k) == n * front;
  }

  /** The product the loop builds: no success in any of the first `draws` draws. */
  function NoneDrawn(successes: nat, population: nat, draws: nat): real
    requires successes + draws <= population
  {
    if draws == 0 then 1.0
    else NoneDrawn(successes, population, draws - 1)
         * ((population - successes - (draws - 1)) as real / (population - (draws - 1)) as real)
  }

  function Odds(successes: int, population: int, draws: int): real {
    if successes <= 0 || draws <= 0 || population <= 0 then 0.0
    else if successes >= population || draws > population - successes then 1.0
    else 1.0 - NoneDrawn(successes, population, draws)
  }

  /** Without successes, draws or cards nothing is drawn; with more successes than cards something is. */
  lemma OddsOutside(successes: int, population: int, draws: int)
    ensures successes < 1 || draws < 1 || population < 1 ==> Odds(successes, population, draws) == 0.0
    ensures successes > population >= 1 && draws >= 1 ==> Odds(successes, population, draws) == 1.0
  {
  }

  method ProbabilityAtLeastOne(successes: int, population: int, draws: int) returns (p: real)
    ensures p == Odds(successes, population, draws)
    ensures 0.0 <= p <= 1.0
    ensures 0 <= successes <= population && 0 <= draws <= population ==>
      Choose(population, draws) > 0
      && p == 1.0 - Choose(population - successes, draws) as real / Choose(population, draws) as real
  {
    if 0 <= successes <= population && 0 <= draws <= population { OddsAreHypergeometric(successes, population, draws); }
    OddsInRange(successes, population, draws);
    if successes <= 0 || draws <= 0 || population <= 0 { return 0.0; }
    if successes >= population || draws > population - successes { return 1.0; }
    var none := 1.0;
    for index := 0 to draws
      invariant none == NoneDrawn(successes, population, index)
    {
      none := none * ((population - successes - index) as real / (population - index) as real);
    }
    return 1.0 - none;
  }

  /** `none` is the ratio of the two counts, without a division. */
  predicate IsRatio(none: real, good: nat, all: nat) { none * all as real == good as real }

  lemma OneMoreFactor(before: real, all: nat, good: nat, a: nat, g: nat)
    requires IsRatio(before, good, all) && a > 0
    ensures IsRatio(before * (g as real / a as real), good * g, all * a)
  {
    RealProduct(all, a);
    RealProduct(good, g);
    MoveFactor(before, all as real, good as real, a as real, g as real);
  }

  lemma MoveFactor(before: real, all: real, good: real, a: real, g: real)
    requires before * all == good && a > 0.0
    ensures before * (g / a) * (all * a) == good * g
  {
    var ratio := g / a;
    assert ratio * a == g;
    assert before * ratio * (all * a) == (before * all) * (ratio * a);
  }

  lemma {:induction false} NoneDrawnFalls(successes: nat, population: nat, draws: nat)
    requires successes + draws <= population
    ensures IsRatio(NoneDrawn(successes, population, draws), Falling(population - successes, draws), Falling(population, draws))
  {
    if draws > 0 {
      NoneDrawnFalls(successes, population, draws - 1);
      var a, g := population - (draws - 1), population - successes - (draws - 1);
      LastFactor(successes, population, draws, a, g);
      LastOfFalling(population, draws, a);
      LastOfFalling(population - successes, draws, g);
      NextRatio(NoneDrawn(successes, population, draws - 1), NoneDrawn(successes, population, draws),
                Falling(population - successes, draws - 1), Falling(population - successes, draws),
                Falling(population, draws - 1), Falling(population, draws), a, g);
    }
  }

  lemma NextRatio(none: real, next: real, good: nat, nextGood: nat, all: nat, nextAll: nat, a: nat, g: nat)
    requires IsRatio(none, good, all) && a > 0 && IsNext(none, next, a, g) && nextGood == good * g && nextAll == all * a
    ensures IsRatio(next, nextGood, nextAll)
  {
    OneMoreFactor(none, all, good, a, g);
  }

  /** One more factor of the product. */
  predicate IsNext(none: real, next: real, a: nat, g: nat)
    requires a > 0
  {
    next == none * (g as real / a as real)
  }

  lemma LastFactor(successes: nat, population: nat, draws: nat, a: nat, g: nat)
    requires successes + draws <= population && draws > 0
    requires a == population - (draws - 1) && g == population - successes - (draws - 1)
    ensures IsNext(NoneDrawn(successes, population, draws - 1), NoneDrawn(successes, population, draws), a, g)
  {
  }

  /** A quotient is determined by cross multiplication. */
  lemma Quotient(none: real, good: nat, all: nat)
    requires IsRatio(none, good, all) && all > 0
    ensures none == good as real / all as real
  {
  }

  lemma ProductPositive(a: nat, b: nat)
    requires a * b > 0
    ensures a > 0 && b > 0
  {
  }

  lemma CancelFactor(none: real, good: real, all: real, orders: real)
    requires orders > 0.0 && none * (all * orders) == good * orders
    ensures none * all == good
  {
    assert none * (all * orders) == (none * all) * orders;
    assert (none * all - good) * orders == 0.0;
  }

  /** For all populations, successes within it and draws within it: the hypergeometric probability. */
  lemma OddsAreHypergeometric(successes: nat, population: nat, draws: nat)
    requires successes <= population && draws <= population
    ensures Choose(population, draws) > 0
    ensures Odds(successes, population, draws)
            == 1.0 - Choose(population - successes, draws) as real / Choose(population, draws) as real
  {
    ChooseFalling(population, draws);
    FallingPositive(population, draws);
    ProductPositive(Choose(population, draws), Factorial(draws));
    if draws > population - successes {
      ChooseTooMany(population - successes, draws);
    } else {
      NoneDrawnChosen(successes, population, draws);
      Quotient(NoneDrawn(successes, population, draws), Choose(population - successes, draws), Choose(population, draws));
      if successes == 0 { NothingToFind(population, draws); }
    }
  }

  lemma NoneDrawnChosen(successes: nat, population: nat, draws: nat)
    requires successes + draws <= population
    ensures IsRatio(NoneDrawn(successes, population, draws), Choose(population - successes, draws), Choose(population, draws))
  {
    NoneDrawnFalls(successes, population, draws);
    ChooseFalling(population, draws);
    ChooseFalling(population - successes, draws);
    FallingPositive(population, draws);
    ProductPositive(Choose(population, draws), Factorial(draws));
    CancelOrders(NoneDrawn(successes, population, draws), Choose(population - successes, draws), Choose(population, draws), Factorial(draws));
  }

  lemma CancelOrders(none: real, good: nat, all: nat, orders: nat)
    requires orders > 0 && IsRatio(none, good * orders, all * orders)
    ensures IsRatio(none, good, all)
  {
    RealProduct(all, orders);
    RealProduct(good, orders);
    CancelFactor(none, good as real, all as real, orders as real);
  }

  lemma {:induction false} NothingToFind(population: nat, draws: nat)
    requires draws <= population
    ensures NoneDrawn(0, population, draws) == 1.0
  {
    if draws > 0 {
      NothingToFind(population, draws - 1);
      WholeRatio(population - (draws - 1));
    }
  }

  lemma WholeRatio(n: nat)
    requires n > 0
    ensures n as real / n as real == 1.0
  {
  }

  // ---------------------------------------------------------------- range and monotonicity

  lemma ScaleDown(x: real, y: real, p: real, q: real, u: real, v: real)
    requires 0.0 <= x <= y && 0.0 <= p <= q && u == x * p && v == y * q
    ensures 0.0 <= u <= v
  {
    calc {
      x * p;
    <= { Monotone(x, p, q); }
      x * q;
    ==
      q * x;
    <= { Monotone(q, x, y); }
      q * y;
    ==
      y * q;
    }
    Monotone(x, p, q);
  }

  lemma Fraction(a: int, b: int, n: int)
    requires 0 <= a <= b <= n && n > 0
    ensures 0.0 <= a as real / n as real <= b as real / n as real <= 1.0
  {
  }

  function Factor(successes: nat, population: nat, index: nat): real
    requires successes + index < population
  {
    (population - successes - index) as real / (population - index) as real
  }

  lemma FactorShrinks(few: nat, many: nat, population: nat, index: nat)
    requires few <= many && many + index < population
    ensures 0.0 <= Factor(many, population, index) <= Factor(few, population, index) <= 1.0
  {
    Fraction(population - many - index, population - few - index, population - index);
  }

  lemma NoneDrawnStep(successes: nat, population: nat, draws: nat)
    requires successes + draws <= population && draws > 0
    ensures NoneDrawn(successes, population, draws) == NoneDrawn(successes, population, draws - 1) * Factor(successes, population, draws - 1)
  {
  }

  /** More successes, or more draws, never make it likelier to draw none. */
  lemma {:induction false} NoneDrawnShrinks(few: nat, many: nat, population: nat, draws: nat)
    requires few <= many && many + draws <= population
    ensures 0.0 <= NoneDrawn(many, population, draws) <= NoneDrawn(few, population, draws) <= 1.0
    ensures draws > 0 ==> NoneDrawn(many, population, draws) <= NoneDrawn(many, population, draws - 1)
  {
    if draws > 0 {
      NoneDrawnShrinks(few, many, population, draws - 1);
      NoneDrawnStep(few, population, draws);
      NoneDrawnStep(many, population, draws);
      FactorShrinks(few, many, population, draws - 1);
      var x, y := NoneDrawn(many, population, draws - 1), NoneDrawn(few, population, draws - 1);
      var p, q := Factor(many, population, draws - 1), Factor(few, population, draws - 1);
      ShrinkBoth(x, y, p, q, NoneDrawn(many, population, draws), NoneDrawn(few, population, draws));
    }
  }

  lemma ShrinkBoth(x: real, y: real, p: real, q: real, u: real, v: real)
    requires 0.0 <= x <= y <= 1.0 && 0.0 <= p <= q <= 1.0 && u == x * p && v == y * q
    ensures 0.0 <= u <= v <= 1.0 && u <= x
  {
    ScaleDown(x, y, p, q, u, v);
    ByAtMostOne(x, p, u);
    ByAtMostOne(y, q, v);
  }

  /** A factor of at most one does not enlarge. */
  lemma ByAtMostOne(x: real, p: real, u: real)
    requires 0.0 <= x && 0.0 <= p <= 1.0 && u == x * p
    ensures 0.0 <= u <= x
  {
    Monotone(x, p, 1.0);
    assert x * 1.0 == x;
  }

  lemma Monotone(x: real, p: real, q: real)
    requires 0.0 <= x && 0.0 <= p <= q
    ensures 0.0 <= x * p <= x * q
  {
    assert x * (q - p) >= 0.0;
  }

  lemma {:induction false} NoneDrawnByDraws(successes: nat, population: nat, fewer: nat, draws: nat)
    requires fewer <= draws && successes + draws <= population
    ensures NoneDrawn(successes, population, draws) <= NoneDrawn(successes, population, fewer)
    decreases draws
  {
    if fewer < draws {
      NoneDrawnShrinks(successes, successes, population, draws);
      NoneDrawnByDraws(successes, population, fewer, draws - 1);
    }
  }

  lemma OddsInRange(successes: int, population: int, draws: int)
    ensures 0.0 <= Odds(successes, population, draws) <= 1.0
  {
    if 0 < successes && 0 < draws && successes + draws <= population {
      NoneDrawnShrinks(successes, successes, population, draws);
    }
  }

  /** For all integers, in range or not: the odds never fall as successes or draws grow. */
  lemma OddsAreMonotone(few: int, many: int, population: int, fewer: int, draws: int)
    requires few <= many && fewer <= draws
    ensures Odds(few, population, fewer) <= Odds(many, population, draws)
  {
    OddsInRange(few, population, fewer);
    OddsInRange(many, population, draws);
    if 0 < few && 0 < fewer && many + draws <= population {
      NoneDrawnShrinks(few, many, population, draws);
      NoneDrawnByDraws(few, population, fewer, draws);
    }
  }

  // ---------------------------------------------------------------- unseen cards

  datatype Card = Card(instanceId: int, cardId: string)
  type Counts = map<string, nat>

  ghost predicate Represents(counts: Counts, cards: multiset<string>) {
    && (forall id :: id in counts <==> id in cards)
    && (forall id :: id in counts ==> counts[id] == cards[id])
  }

  method CountIds(ids: seq<string>) returns (counts: Counts)
    ensures Represents(counts, multiset(ids))
  {
    counts := map[];
    for i := 0 to |ids|
      invariant Represents(counts, multiset(ids[..i]))
    {
      assert ids[..i + 1] == ids[..i] + [ids[i]];
      counts := counts[ids[i] := (if ids[i] in counts then counts[ids[i]] else 0) + 1];
    }
    assert ids[..|ids|] == ids;
  }

  predicate SeenBefore(placed: seq<Card>, instanceId: int) { exists i :: 0 <= i < |placed| && placed[i].instanceId == instanceId }

  /** The card ids of the placed cards, every physical card once, as it was first listed. */
  function Sightings(placed: seq<Card>): seq<string> {
    if placed == [] then []
    else
      var front, last := placed[..|placed| - 1], placed[|placed| - 1];
      if SeenBefore(front, last.instanceId) then Sightings(front) else Sightings(front) + [last.cardId]
  }

  /** Take one card of this id out of the counts, if there is one. */
  function Without(counts: Counts, id: string): Counts {
    if id !in counts then counts
    else if counts[id] <= 1 then counts - {id} else counts[id := counts[id] - 1]
  }

  lemma WithoutRepresents(counts: Counts, cards: multiset<string>, id: string)
    requires Represents(counts, cards)
    ensures Represents(Without(counts, id), cards - multiset{id})
  {
  }

  /** The counts of the list minus the cards sighted; more sightings of an id than copies leave none. */
  ghost predicate Unseen(counts: Counts, list: seq<string>, sightings: seq<string>) {
    Represents(counts, multiset(list) - multiset(sightings))
  }

  lemma NothingSighted(counts: Counts, list: seq<string>)
    requires Represents(counts, multiset(list))
    ensures Unseen(counts, list, [])
  {
    assert multiset(list) - multiset([]) == multiset(list);
  }

  lemma TakeSighting(counts: Counts, list: seq<string>, sightings: seq<string>, id: string)
    requires Unseen(counts, list, sightings)
    ensures Unseen(Without(counts, id), list, sightings + [id])
  {
    WithoutRepresents(counts, multiset(list) - multiset(sightings), id);
    assert multiset(sightings + [id]) == multiset(sightings) + multiset{id};
    assert multiset(list) - multiset(sightings + [id]) == multiset(list) - multiset(sightings) - multiset{id};
  }

  lemma OneMorePlaced(placed: seq<Card>, i: nat)
    requires i < |placed|
    ensures Sightings(placed[..i + 1]) == if SeenBefore(placed[..i], placed[i].instanceId) then Sightings(placed[..i])
                                          else Sightings(placed[..i]) + [placed[i].cardId]
    ensures forall id :: SeenBefore(placed[..i + 1], id) <==> SeenBefore(placed[..i], id) || id == placed[i].instanceId
  {
    var more, less := placed[..i + 1], placed[..i];
    assert more[..i] == less && more[i] == placed[i];
    assert forall j | 0 <= j < i :: more[j] == less[j];
  }

  method TakeOne(counts: Counts, id: string) returns (less: Counts)
    ensures less == Without(counts, id)
  {
    if id !in counts { return counts; }
    if counts[id] <= 1 { return counts - {id}; }
    return counts[id := counts[id] - 1];
  }

  /** The decklist minus the distinct physical cards that are publicly placed. */
  method UnseenCounts(list: seq<string>, placed: seq<Card>) returns (counts: Option<Counts>)
    ensures counts.None? <==> list == []
    ensures counts.Some? ==> Unseen(counts.value, list, Sightings(placed))
  {
    if |list| == 0 { return None; }
    var remaining := CountIds(list);
    var seen: set<int> := {};
    NothingSighted(remaining, list);
    assert placed[..0] == [];
    for i := 0 to |placed|
      invariant Unseen(remaining, list, Sightings(placed[..i]))
      invariant forall id :: id in seen <==> SeenBefore(placed[..i], id)
    {
      var card := placed[i];
      OneMorePlaced(placed, i);
      if card.instanceId in seen { continue; }
      seen := seen + {card.instanceId};
      TakeSighting(remaining, list, Sightings(placed[..i]), card.cardId);
      remaining := TakeOne(remaining, card.cardId);
    }
    assert placed[..|placed|] == placed;
    return Some(remaining);
  }

  /** When the list is the hidden cards plus the deck cards among those placed, the unseen counts are
      exactly the hidden cards: placed cards that are not deck cards take nothing away. */
  lemma UnseenIsHidden(list: seq<string>, hidden: multiset<string>, deckPlaced: multiset<string>, others: multiset<string>, placed: seq<Card>)
    requires multiset(Sightings(placed)) == deckPlaced + others
    requires multiset(list) == hidden + deckPlaced && multiset(list) !! others
    ensures multiset(list) - multiset(Sightings(placed)) == hidden
  {
    assert forall id :: id in list ==> id !in others;
    forall id ensures (multiset(list) - multiset(Sightings(placed)))[id] == hidden[id] {
      if id in others { assert id !in multiset(list); }
    }
  }

  // ---------------------------------------------------------------- averages

  /** A count map in its iteration order. */
  datatype Entry = Entry(cardId: string, count: nat)

  function Total(entries: seq<Entry>): nat {
    if entries == [] then 0 else Total(entries[..|entries| - 1]) + entries[|entries| - 1].count
  }

  /** The values of all cards, one by one. */
  function Expanded(entries: seq<Entry>, value: string -> real): seq<real> {
    if entries == [] then []
    else
      var last := entries[|entries| - 1];
      Expanded(entries[..|entries| - 1], value) + Copies(value(last.cardId), last.count)
  }

  function Copies(v: real, n: nat): seq<real> { if n == 0 then [] else Copies(v, n - 1) + [v] }

  function Sum(xs: seq<real>): real { if xs == [] then 0.0 else Sum(xs[..|xs| - 1]) + xs[|xs| - 1] }

  function Scaled(v: real, n: nat): real { v * n as real }

  lemma OneMoreCopy(v: real, n: nat)
    requires n > 0
    ensures Scaled(v, n) == Scaled(v, n - 1) + v
  {
  }

  lemma {:induction false} SumOfCopies(xs: seq<real>, v: real, n: nat)
    ensures Sum(xs + Copies(v, n)) == Sum(xs) + Scaled(v, n)
    ensures |Copies(v, n)| == n
  {
    if n == 0 {
      assert xs + [] == xs;
    } else {
      SumOfCopies(xs, v, n - 1);
      SumOfSnoc(xs, Copies(v, n - 1), v);
      OneMoreCopy(v, n);
    }
  }

  lemma SumOfSnoc(xs: seq<real>, ys: seq<real>, v: real)
    ensures Sum(xs + (ys + [v])) == Sum(xs + ys) + v
  {
    Assoc(xs, ys, [v]);
    FrontOfSnoc(xs + ys, v);
  }

  lemma {:induction false} ExpandedLength(entries: seq<Entry>, value: string -> real)
    ensures |Expanded(entries, value)| == Total(entries)
  {
    if entries != [] {
      var last := entries[|entries| - 1];
      ExpandedLength(entries[..|entries| - 1], value);
      SumOfCopies([], value(last.cardId), last.count);
    }
  }

  lemma OneMoreEntry(entries: seq<Entry>, value: string -> real, i: nat)
    requires i < |entries|
    ensures Sum(Expanded(entries[..i + 1], value)) ==
            Sum(Expanded(entries[..i], value)) + value(entries[i].cardId) * entries[i].count as real
  {
    assert entries[..i + 1][..i] == entries[..i];
    SumOfCopies(Expanded(entries[..i], value), value(entries[i].cardId), entries[i].count);
  }

  /** The mean over the cards counted one by one, and none when there is no card. */
  method AverageOver(entries: seq<Entry>, value: string -> real) returns (average: Option<real>)
    ensures average.None? <==> Expanded(entries, value) == []
    ensures average.Some? ==> average.value == Sum(Expanded(entries, value)) / |Expanded(entries, value)| as real
  {
    ExpandedLength(entries, value);
    var total := TotalCount(entries);
    if total == 0 { return None; }
    var sum := 0.0;
    for i := 0 to |entries|
      invariant sum == Sum(Expanded(entries[..i], value))
    {
      OneMoreEntry(entries, value, i);
      sum := sum + value(entries[i].cardId) * entries[i].count as real;
    }
    assert entries[..|entries|] == entries;
    return Some(sum / total as real);
  }

  method TotalCount(entries: seq<Entry>) returns (total: nat)
    ensures total == Total(entries)
  {
    total := 0;
    for i := 0 to |entries|
      invariant total == Total(entries[..i])
    {
      assert entries[..i + 1][..i] == entries[..i];
      total := total + entries[i].count;
    }
    assert entries[..|entries|] == entries;
  }
}
