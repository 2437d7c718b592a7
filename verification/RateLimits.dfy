/**
 Fixed-window rate limiting over one table of counters shared by every gateway,
 every limiter and the sweep that removes expired counters.
 */
module RateLimits {
  import opened Common

  const MIN_WINDOW := 1000

  datatype Config = Config(max: nat, windowMs: nat)

  /** One row: the hashed name is kept as the text that is hashed. */
  datatype Slot = Slot(name: string, start: nat)
  datatype Bucket = Bucket(count: nat, expiresAt: nat)
  type Buckets = map<Slot, Bucket>

  predicate IsNamespace(s: string) {
    1 <= |s| <= 40 && forall i | 0 <= i < |s| :: 'a' <= s[i] <= 'z' || '0' <= s[i] <= '9' || s[i] == '-'
  }

  predicate IsConfig(c: Config) { c.max >= 1 && c.windowMs >= MIN_WINDOW }

  const NUL: char := '\0'

  function BucketName(namespace: string, key: string, endpoint: string): string {
    namespace + [NUL] + key + [NUL] + endpoint
  }

  function WindowStart(now: nat, windowMs: nat): nat
    requires windowMs > 0
  {
    now / windowMs * windowMs
  }

  function Stored(b: Buckets, slot: Slot): nat { if slot in b then b[slot].count else 0 }

  function Counted(b: Buckets, slot: Slot, windowMs: nat): Buckets {
    b[slot := if slot in b then Bucket(b[slot].count + 1, b[slot].expiresAt) else Bucket(1, slot.start + windowMs)]
  }

  function Unexpired(b: Buckets, now: nat): Buckets { map slot | slot in b && b[slot].expiresAt > now :: b[slot] }

  class BucketTable {
    var rows: Buckets

    constructor ()
      ensures rows == map[]
    {
      rows := map[];
    }

    /** `allow`: insert the counter or add one to it, and compare what comes back. */
    method Allow(namespace: string, config: Config, key: string, endpoint: string, now: nat) returns (allowed: bool)
      requires IsConfig(config)
      modifies this
      ensures var slot := Slot(BucketName(namespace, key, endpoint), WindowStart(now, config.windowMs));
        rows == Counted(old(rows), slot, config.windowMs) && allowed == (Stored(old(rows), slot) < config.max)
    {
      var start := now / config.windowMs * config.windowMs;
      var slot := Slot(BucketName(namespace, key, endpoint), start);
      if slot in rows {
        rows := rows[slot := rows[slot].(count := rows[slot].count + 1)];
      } else {
        rows := rows[slot := Bucket(1, start + config.windowMs)];
      }
      return rows[slot].count <= config.max;
    }

    method Sweep(now: nat)
      modifies this
      ensures rows == Unexpired(old(rows), now)
    {
      rows := map slot | slot in rows && !(rows[slot].expiresAt <= now) :: rows[slot];
    }
  }

  // ---------------------------------------------------------------- names

  /** The namespace is the part of the hashed text before the first separator. */
  function NamespaceOf(name: string): string {
    if name == [] || name[0] == NUL then [] else [name[0]] + NamespaceOf(name[1..])
  }

  lemma {:induction false} NamespaceOfName(namespace: string, rest: string)
    requires forall i | 0 <= i < |namespace| :: namespace[i] != NUL
    ensures NamespaceOf(namespace + [NUL] + rest) == namespace
  {
    if namespace == [] {
      HeadAndTail(NUL, rest);
      assert namespace + [NUL] + rest == [NUL] + rest;
    } else {
      var tail := namespace[1..];
      NamespaceOfName(tail, rest);
      assert namespace + [NUL] + rest == [namespace[0]] + (tail + [NUL] + rest);
      HeadAndTail(namespace[0], tail + [NUL] + rest);
    }
  }

  /** Two limiters never count in each other's rows, whatever the keys contain. */
  lemma NamespacesDoNotMix(namespace: string, key: string, endpoint: string)
    requires IsNamespace(namespace)
    ensures NamespaceOf(BucketName(namespace, key, endpoint)) == namespace
  {
    NamespaceOfName(namespace, key + [NUL] + endpoint);
    assert BucketName(namespace, key, endpoint) == namespace + [NUL] + (key + [NUL] + endpoint);
  }

  /** The place of the first separator. */
  function FirstNul(s: string): nat {
    if s == [] || s[0] == NUL then 0 else 1 + FirstNul(s[1..])
  }

  lemma {:induction false} FirstNulAfter(a: string, rest: string)
    requires forall i | 0 <= i < |a| :: a[i] != NUL
    ensures FirstNul(a + [NUL] + rest) == |a|
  {
    if a != [] {
      FirstNulAfter(a[1..], rest);
      assert (a + [NUL] + rest)[1..] == a[1..] + [NUL] + rest;
    }
  }

  lemma SplitAtNul(a: string, rest: string, b: string, more: string)
    requires (forall i | 0 <= i < |a| :: a[i] != NUL) && (forall i | 0 <= i < |b| :: b[i] != NUL)
    ensures a + [NUL] + rest == b + [NUL] + more <==> a == b && rest == more
  {
    FirstNulAfter(a, rest);
    FirstNulAfter(b, more);
    if a + [NUL] + rest == b + [NUL] + more {
      assert a == (a + [NUL] + rest)[..|a|] && b == (b + [NUL] + more)[..|b|];
      assert rest == (a + [NUL] + rest)[|a| + 1..] && more == (b + [NUL] + more)[|b| + 1..];
    }
  }

  predicate NoNul(s: string) { forall i | 0 <= i < |s| :: s[i] != NUL }

  /** Calls count together exactly when namespace, key and endpoint are the same, as long as keys hold no
      separator. */
  lemma CountersApart(namespace: string, key: string, endpoint: string, namespace': string, key': string, endpoint': string)
    requires IsNamespace(namespace) && IsNamespace(namespace') && NoNul(key) && NoNul(key')
    ensures BucketName(namespace, key, endpoint) == BucketName(namespace', key', endpoint')
            <==> namespace == namespace' && key == key' && endpoint == endpoint'
  {
    assert BucketName(namespace, key, endpoint) == namespace + [NUL] + (key + [NUL] + endpoint);
    assert BucketName(namespace', key', endpoint') == namespace' + [NUL] + (key' + [NUL] + endpoint');
    SplitAtNul(namespace, key + [NUL] + endpoint, namespace', key' + [NUL] + endpoint');
    SplitAtNul(key, endpoint, key', endpoint');
  }

  /** A sweep removes exactly the counters whose window has ended. */
  lemma SweepMeans(b: Buckets, now: nat, slot: Slot)
    ensures slot in Unexpired(b, now) <==> slot in b && now < b[slot].expiresAt
    ensures slot in Unexpired(b, now) ==> Unexpired(b, now)[slot] == b[slot]
  {
  }

  // ---------------------------------------------------------------- runs

  /** A call that was let through. */
  datatype Admit = Admit(name: string, now: nat)

  datatype System = System(rows: Buckets, admits: seq<Admit>, clock: nat)

  const Empty: System := System(map[], [], 0)

  datatype Step = Call(namespace: string, key: string, endpoint: string, now: nat) | SweepAt(now: nat)

  type Configs = map<string, Config>

  predicate ValidConfigs(c: Configs) { forall ns :: ns in c ==> IsNamespace(ns) && IsConfig(c[ns]) }

  function Admitted(s: System, c: Config, name: string, now: nat): System
    requires IsConfig(c)
  {
    var slot := Slot(name, WindowStart(now, c.windowMs));
    System(Counted(s.rows, slot, c.windowMs),
           if Stored(s.rows, slot) < c.max then s.admits + [Admit(name, now)] else s.admits, now)
  }

  /** The clock does not run backwards: a step before the latest one is not part of a run. */
  function Next(s: System, configs: Configs, step: Step): System
    requires ValidConfigs(configs)
  {
    if step.now < s.clock then s
    else match step
      case Call(ns, key, endpoint, now) => if ns in configs then Admitted(s, configs[ns], BucketName(ns, key, endpoint), now) else s
      case SweepAt(now) => s.(rows := Unexpired(s.rows, now), clock := now)
  }

  function Run(configs: Configs, steps: seq<Step>): System
    requires ValidConfigs(configs)
  {
    if steps == [] then Empty else Next(Run(configs, steps[..|steps| - 1]), configs, steps[|steps| - 1])
  }

  /** Calls let through under one name at a time in [from, until). */
  function AdmitsIn(admits: seq<Admit>, name: string, from: nat, until: nat): nat {
    if admits == [] then 0
    else
      var last := admits[|admits| - 1];
      AdmitsIn(admits[..|admits| - 1], name, from, until) + if last.name == name && from <= last.now < until then 1 else 0
  }

  function Min(a: nat, b: nat): nat { if a <= b then a else b }

  /** Window number `k` of one name: never over the limit, and while it is still open the stored counter
      and the calls let through agree. */
  predicate WindowAgrees(s: System, c: Config, name: string, k: nat) {
    var start := k * c.windowMs;
    var n := AdmitsIn(s.admits, name, start, start + c.windowMs);
    n <= c.max && (start + c.windowMs > s.clock ==> n == Min(c.max, Stored(s.rows, Slot(name, start))))
  }

  predicate RowExpires(s: System, c: Config, name: string, k: nat) {
    var slot := Slot(name, k * c.windowMs);
    slot in s.rows ==> s.rows[slot].expiresAt == slot.start + c.windowMs
  }

  ghost predicate Inv(s: System, configs: Configs) {
    forall name, k: nat :: NamespaceOf(name) in configs ==>
      WindowAgrees(s, configs[NamespaceOf(name)], name, k) && RowExpires(s, configs[NamespaceOf(name)], name, k)
  }

  lemma WindowOf(now: nat, windowMs: nat, k: nat)
    requires windowMs > 0
    ensures WindowStart(now, windowMs) <= now < WindowStart(now, windowMs) + windowMs
    ensures WindowStart(now, windowMs) == k * windowMs <==> k * windowMs <= now < k * windowMs + windowMs
  {
    var q := now / windowMs;
    if k < q {
      assert (k + 1) * windowMs <= q * windowMs;
    } else if k > q {
      assert (q + 1) * windowMs <= k * windowMs;
    }
  }

  lemma CallKeepsInv(s: System, configs: Configs, ns: string, key: string, endpoint: string, now: nat)
    requires ValidConfigs(configs) && Inv(s, configs) && ns in configs && s.clock <= now
    ensures Inv(Admitted(s, configs[ns], BucketName(ns, key, endpoint), now), configs)
  {
    var called := BucketName(ns, key, endpoint);
    var t := Admitted(s, configs[ns], called, now);
    NamespacesDoNotMix(ns, key, endpoint);
    forall name, k: nat | NamespaceOf(name) in configs
      ensures WindowAgrees(t, configs[NamespaceOf(name)], name, k) && RowExpires(t, configs[NamespaceOf(name)], name, k)
    {
      var c := configs[NamespaceOf(name)];
      assert WindowAgrees(s, c, name, k) && RowExpires(s, c, name, k);
      WindowOf(now, c.windowMs, k);
      FrontOfSnoc(s.admits, Admit(called, now));
    }
  }

  lemma SweepKeepsInv(s: System, configs: Configs, now: nat)
    requires ValidConfigs(configs) && Inv(s, configs) && s.clock <= now
    ensures Inv(Next(s, configs, SweepAt(now)), configs)
  {
    var t := Next(s, configs, SweepAt(now));
    forall name, k: nat | NamespaceOf(name) in configs
      ensures WindowAgrees(t, configs[NamespaceOf(name)], name, k) && RowExpires(t, configs[NamespaceOf(name)], name, k)
    {
      var c := configs[NamespaceOf(name)];
      assert WindowAgrees(s, c, name, k) && RowExpires(s, c, name, k);
    }
  }

  lemma {:induction false} RunKeepsInv(configs: Configs, steps: seq<Step>)
    requires ValidConfigs(configs)
    ensures Inv(Run(configs, steps), configs)
  {
    if steps != [] {
      var s, step := Run(configs, steps[..|steps| - 1]), steps[|steps| - 1];
      RunKeepsInv(configs, steps[..|steps| - 1]);
      if s.clock <= step.now {
        match step
        case Call(ns, key, endpoint, now) => if ns in configs { CallKeepsInv(s, configs, ns, key, endpoint, now); }
        case SweepAt(now) => SweepKeepsInv(s, configs, now);
      }
    }
  }

  /** In every run, sweeps included, a call is let through exactly when fewer than `max` calls of its
      name were let through in its window so far; so a sweep never raises the bound, and never lowers it. */
  lemma LimiterIsExact(configs: Configs, steps: seq<Step>, ns: string, key: string, endpoint: string, now: nat)
    requires ValidConfigs(configs) && ns in configs && Run(configs, steps).clock <= now
    ensures var s := Run(configs, steps);
      var c, name := configs[ns], BucketName(ns, key, endpoint);
      var start := WindowStart(now, c.windowMs);
      Stored(s.rows, Slot(name, start)) < c.max <==> AdmitsIn(s.admits, name, start, start + c.windowMs) < c.max
  {
    var s := Run(configs, steps);
    var c, name := configs[ns], BucketName(ns, key, endpoint);
    RunKeepsInv(configs, steps);
    NamespacesDoNotMix(ns, key, endpoint);
    WindowOf(now, c.windowMs, now / c.windowMs);
    assert WindowAgrees(s, c, name, now / c.windowMs);
  }

  lemma {:induction false} SplitInterval(admits: seq<Admit>, name: string, from: nat, middle: nat, until: nat, low: nat, high: nat)
    requires low <= from <= middle <= until <= high
    ensures AdmitsIn(admits, name, from, until) <= AdmitsIn(admits, name, low, middle) + AdmitsIn(admits, name, middle, high)
  {
    if admits != [] {
      SplitInterval(admits[..|admits| - 1], name, from, middle, until, low, high);
    }
  }

  /** At most `max` in each window, and at most twice that in any interval as long as a window. */
  lemma BoundedInEveryInterval(configs: Configs, steps: seq<Step>, ns: string, key: string, endpoint: string, from: nat)
    requires ValidConfigs(configs) && ns in configs
    ensures var c, name := configs[ns], BucketName(ns, key, endpoint);
      var admits := Run(configs, steps).admits;
      && (forall k: nat :: AdmitsIn(admits, name, k * c.windowMs, k * c.windowMs + c.windowMs) <= c.max)
      && AdmitsIn(admits, name, from, from + c.windowMs) <= 2 * c.max
  {
    var c, name := configs[ns], BucketName(ns, key, endpoint);
    var s := Run(configs, steps);
    RunKeepsInv(configs, steps);
    NamespacesDoNotMix(ns, key, endpoint);
    forall k: nat ensures AdmitsIn(s.admits, name, k * c.windowMs, k * c.windowMs + c.windowMs) <= c.max {
      assert WindowAgrees(s, c, name, k);
    }
    AnyInterval(s, name, c, from);
  }

  lemma AnyInterval(s: System, name: string, c: Config, from: nat)
    requires c.windowMs > 0 && forall k: nat :: WindowAgrees(s, c, name, k)
    ensures AdmitsIn(s.admits, name, from, from + c.windowMs) <= 2 * c.max
  {
    var k := from / c.windowMs;
    WindowOf(from, c.windowMs, k);
    assert WindowAgrees(s, c, name, k) && WindowAgrees(s, c, name, k + 1);
    TwoWindows(s.admits, name, c, k, from);
  }

  /** An interval as long as a window lies within two neighbouring windows. */
  lemma TwoWindows(admits: seq<Admit>, name: string, c: Config, k: nat, from: nat)
    requires k * c.windowMs <= from < k * c.windowMs + c.windowMs
    requires AdmitsIn(admits, name, k * c.windowMs, k * c.windowMs + c.windowMs) <= c.max
    requires AdmitsIn(admits, name, (k + 1) * c.windowMs, (k + 1) * c.windowMs + c.windowMs) <= c.max
    ensures AdmitsIn(admits, name, from, from + c.windowMs) <= 2 * c.max
  {
    var start := k * c.windowMs;
    assert (k + 1) * c.windowMs == start + c.windowMs;
    SplitInterval(admits, name, from, start + c.windowMs, from + c.windowMs, start, start + c.windowMs + c.windowMs);
  }

  /** The factor two is reached: one call just before a window ends and one just after. */
  lemma TwiceIsReached(ns: string, key: string, endpoint: string, windowMs: nat)
    requires IsNamespace(ns) && windowMs >= MIN_WINDOW
    ensures var configs: Configs := map[ns := Config(1, windowMs)];
      var name := BucketName(ns, key, endpoint);
      ValidConfigs(configs) && AdmitsIn(Run(configs, [Call(ns, key, endpoint, windowMs - 1), Call(ns, key, endpoint, windowMs)]).admits,
                                        name, windowMs - 1, windowMs - 1 + windowMs) == 2
  {
    var configs: Configs := map[ns := Config(1, windowMs)];
    var name := BucketName(ns, key, endpoint);
    var steps := [Call(ns, key, endpoint, windowMs - 1), Call(ns, key, endpoint, windowMs)];
    WindowOf(windowMs - 1, windowMs, 0);
    WindowOf(windowMs, windowMs, 1);
    assert steps[..1] == [Call(ns, key, endpoint, windowMs - 1)];
    var one := Run(configs, steps[..1]);
    assert one == Next(Run(configs, []), configs, steps[0]) by { assert steps[..1][..0] == []; }
    assert one.admits == [Admit(name, windowMs - 1)];
    var two := Run(configs, steps);
    assert two.admits == [Admit(name, windowMs - 1)] + [Admit(name, windowMs)];
    FrontOfSnoc([Admit(name, windowMs - 1)], Admit(name, windowMs));
    assert AdmitsIn([], name, windowMs - 1, windowMs - 1 + windowMs) == 0;
    assert one.admits[..0] == [];
  }
}
