/**
 * The price-alert check of app/services/alerter.py: for every configured
 * rule, validate it, skip it when the same symbol and condition fired less
 * than 24 hours ago, fetch a quote, test the strict `above`/`below`
 * condition, push the alert and only then remember when it fired.
 *
 * Clocks are integer microseconds. Each `datetime.now()` the loop body
 * makes, the quote fetch and the push are inputs of one `World`.
 */
module Alerter {
  import opened Common

  /** `CACHE_DURATION`: 24 hours, in microseconds. */
  const CacheDuration: int := 24 * 60 * 60 * 1_000_000

  /** The cache key of a rule, `f"{symbol}_{condition}"`. */
  function Key(symbol: string, condition: string): (r: string)
    ensures |r| == |symbol| + 1 + |condition|
    ensures r[..|symbol|] == symbol && r[|symbol|] == '_' && r[|symbol| + 1..] == condition
  {
    symbol + "_" + condition
  }

  /** A `price_alerts` entry; a field is `None` when the key is missing. */
  datatype Rule = Rule(symbol: Option<string>, condition: Option<string>, target: Option<real>)

  /** `all([symbol, condition, target_price])`: no field is missing, empty or zero. */
  predicate IsComplete(rule: Rule): (r: bool)
    ensures r <==> rule.symbol.GetOr("") != [] && rule.condition.GetOr("") != [] && rule.target.GetOr(0.0) != 0.0
  {
    && rule.symbol.Some? && rule.symbol.value != []
    && rule.condition.Some? && rule.condition.value != []
    && rule.target.Some? && rule.target.value != 0.0
  }

  /** What `get_stock_data` gave: no usable quote (a falsy result or no
      `last_price`), a last price, or an exception. */
  datatype Quote = NoQuote | Price(last: real) | QuoteRaises

  /** Whether `push_price_alert` returned or raised. */
  datatype Push = Delivered | PushRaises

  /** Everything outside the cache one rule's check sees: the clock when the
      cache is consulted, the quote, the clock read for the alert's
      timestamp, the push, and the clock read when the cache is written. */
  datatype World = World(checkedAt: int, quote: Quote, stampedAt: int, push: Push, recordedAt: int)

  /** The alert details handed to the pusher. */
  datatype Alert = Alert(symbol: string, condition: string, target: real, current: real, timestamp: int)

  /** How the check of one rule ended. */
  datatype RuleOutcome =
    | Invalid                 // a field is missing or falsy
    | Suppressed              // fired less than CacheDuration ago
    | NoPrice                 // no usable quote
    | QuoteFailed             // the quote fetch raised
    | Quiet                   // the condition does not hold
    | Fired(alert: Alert)     // pushed and cached
    | PushFailed(alert: Alert) // the push raised; not cached

  /** One rule together with the world its check meets. */
  datatype Round = Round(rule: Rule, world: World)

  datatype Step = Step(outcome: RuleOutcome, cache: map<string, int>)

  datatype Run = Run(outcomes: seq<RuleOutcome>, cache: map<string, int>)

  /** `_is_in_cache` on a cache: the key was recorded less than
      `CacheDuration` before `now`. */
  predicate Fresh(cache: map<string, int>, key: string, now: int): (r: bool)
    ensures r ==> key in cache
    ensures key in cache && cache[key] <= now < cache[key] + CacheDuration ==> r
  {
    key in cache && now - cache[key] < CacheDuration
  }

  /** The strict comparison of the rule's condition; any condition other
      than `above` and `below` never triggers. */
  predicate Triggered(condition: string, current: real, target: real): (r: bool)
    ensures r ==> current != target && (condition == "above" || condition == "below")
    ensures r ==> (condition == "above" <==> current > target)
  {
    || (condition == "above" && current > target)
    || (condition == "below" && current < target)
  }

  /** The body of the `for alert_rule in alerts` loop, on values. */
  function Evaluate(cache: map<string, int>, rule: Rule, w: World): (r: Step)
    ensures !r.outcome.Fired? ==> r.cache == cache
    ensures r.outcome.Fired? ==>
      && IsComplete(rule) && r.outcome.alert.timestamp == w.stampedAt
      && Triggered(rule.condition.value, r.outcome.alert.current, rule.target.value)
      && r.cache == cache[Key(rule.symbol.value, rule.condition.value) := w.recordedAt]
  {
    if !IsComplete(rule) then Step(Invalid, cache)
    else
      var symbol, condition, target := rule.symbol.value, rule.condition.value, rule.target.value;
      if Fresh(cache, Key(symbol, condition), w.checkedAt) then Step(Suppressed, cache)
      else
        match w.quote
        case QuoteRaises => Step(QuoteFailed, cache)
        case NoQuote => Step(NoPrice, cache)
        case Price(current) =>
          if !Triggered(condition, current, target) then Step(Quiet, cache)
          else
            var alert := Alert(symbol, condition, target, current, w.stampedAt);
            if w.push == PushRaises then Step(PushFailed(alert), cache)
            else Step(Fired(alert), cache[Key(symbol, condition) := w.recordedAt])
  }

  /** The whole loop: the rules in order, each against the cache the
      previous ones left. */
  function Sweep(cache: map<string, int>, rounds: seq<Round>): (r: Run)
    ensures |r.outcomes| == |rounds|
    decreases |rounds|
  {
    if rounds == [] then Run([], cache)
    else
      var s := Evaluate(cache, rounds[0].rule, rounds[0].world);
      var rest := Sweep(s.cache, rounds[1..]);
      Run([s.outcome] + rest.outcomes, rest.cache)
  }

  /** The module-level `_alert_cache`. */
  class AlertCache {
    var entries: map<string, int>

    constructor ()
      ensures entries == map[]
    {
      entries := map[];
    }

    /** `_is_in_cache(symbol, condition)` at clock `now`. */
    function IsInCache(symbol: string, condition: string, now: int): (r: bool)
      reads this
      ensures r ==> Key(symbol, condition) in entries
      ensures Key(symbol, condition) in entries && entries[Key(symbol, condition)] <= now < entries[Key(symbol, condition)] + CacheDuration ==> r
    {
      Fresh(entries, Key(symbol, condition), now)
    }

    /** `_add_to_cache(symbol, condition)` at clock `now`: overwrites the entry. */
    method AddToCache(symbol: string, condition: string, now: int)
      modifies this
      ensures entries == old(entries)[Key(symbol, condition) := now]
    {
      entries := entries[Key(symbol, condition) := now];
    }

    /** One iteration of the rule loop. */
    method CheckRule(rule: Rule, w: World) returns (outcome: RuleOutcome)
      modifies this
      ensures Evaluate(old(entries), rule, w) == Step(outcome, entries)
    {
      if !IsComplete(rule) {
        return Invalid;
      }
      var symbol, condition, target := rule.symbol.value, rule.condition.value, rule.target.value;
      if IsInCache(symbol, condition, w.checkedAt) {
        return Suppressed;
      }
      match w.quote {
        case QuoteRaises =>
          return QuoteFailed;
        case NoQuote =>
          return NoPrice;
        case Price(current) =>
          var triggered := false;
          if condition == "above" && current > target {
            triggered := true;
          } else if condition == "below" && current < target {
            triggered := true;
          }
          if !triggered {
            return Quiet;
          }
          var alert := Alert(symbol, condition, target, current, w.stampedAt);
          if w.push == PushRaises {
            return PushFailed(alert);
          }
          AddToCache(symbol, condition, w.recordedAt);
          return Fired(alert);
      }
    }

    /** `check_price_alerts` once the rules are loaded: every rule is
        checked in order, and an exception raised while fetching, comparing
        or pushing for one rule does not stop the rest. */
    method CheckPriceAlerts(rounds: seq<Round>) returns (outcomes: seq<RuleOutcome>)
      modifies this
      ensures Sweep(old(entries), rounds) == Run(outcomes, entries)
    {
      outcomes := [];
      var i := 0;
      while i < |rounds|
        invariant 0 <= i <= |rounds|
        invariant var rest := Sweep(entries, rounds[i..]);
          Sweep(old(entries), rounds) == Run(outcomes + rest.outcomes, rest.cache)
      {
        assert rounds[i..][1..] == rounds[i + 1..];
        var outcome := CheckRule(rounds[i].rule, rounds[i].world);
        outcomes := outcomes + [outcome];
        i := i + 1;
      }
      assert rounds[i..] == [];
    }
  }

  // ------------------------------------------------------------ properties

  /** An entry suppresses its rule for strictly less than `CacheDuration`:
      still fresh one microsecond before, expired from then on, and an
      absent key is never fresh. */
  lemma CacheWindow(cache: map<string, int>, key: string, t: int, now: int)
    ensures Fresh(cache[key := t], key, now) <==> now < t + CacheDuration
    ensures Fresh(cache[key := t], key, t + CacheDuration - 1)
    ensures !Fresh(cache[key := t], key, t + CacheDuration)
    ensures key !in cache ==> !Fresh(cache, key, now)
  {
  }

  /** An incomplete rule is skipped before the cache or the quote is consulted. */
  lemma IncompleteRuleSkipped(cache: map<string, int>, rule: Rule, w: World)
    requires !IsComplete(rule)
    ensures Evaluate(cache, rule, w) == Step(Invalid, cache)
  {
  }

  /** A rule that fired less than `CacheDuration` ago is skipped whatever
      the quote would be: the cache is consulted before the fetch. */
  lemma FreshRuleSuppressed(cache: map<string, int>, rule: Rule, w: World)
    requires IsComplete(rule)
    ensures Evaluate(cache, rule, w).outcome == Suppressed
        <==> Fresh(cache, Key(rule.symbol.value, rule.condition.value), w.checkedAt)
    ensures Fresh(cache, Key(rule.symbol.value, rule.condition.value), w.checkedAt) ==>
      Evaluate(cache, rule, w).cache == cache
  {
  }

  /** The cache changes only when an alert is pushed, and then only in the
      rule's own entry, which records the clock read after the push. */
  lemma CacheWrittenOnlyAfterPush(cache: map<string, int>, rule: Rule, w: World)
    ensures var s := Evaluate(cache, rule, w);
      s.cache == if s.outcome.Fired?
        then cache[Key(rule.symbol.value, rule.condition.value) := w.recordedAt]
        else cache
  {
  }

  /** An alert goes out only when the price is strictly beyond the target
      in the rule's direction, and carries the rule and the price. */
  lemma AlertOnlyWhenTriggered(cache: map<string, int>, rule: Rule, w: World)
    ensures var o := Evaluate(cache, rule, w).outcome;
      (o.Fired? || o.PushFailed?) ==>
        && IsComplete(rule) && w.quote.Price?
        && o.alert == Alert(rule.symbol.value, rule.condition.value, rule.target.value, w.quote.last, w.stampedAt)
        && ((o.alert.condition == "above" && o.alert.current > o.alert.target)
            || (o.alert.condition == "below" && o.alert.current < o.alert.target))
  {
  }

  /** Conversely, a complete, uncached rule whose price is beyond its target
      always leads to a push. */
  lemma TriggeredRulePushed(cache: map<string, int>, rule: Rule, w: World)
    requires IsComplete(rule) && w.quote.Price?
    requires !Fresh(cache, Key(rule.symbol.value, rule.condition.value), w.checkedAt)
    requires Triggered(rule.condition.value, w.quote.last, rule.target.value)
    ensures var o := Evaluate(cache, rule, w).outcome;
      o.Fired? || o.PushFailed?
    ensures Evaluate(cache, rule, w).outcome.Fired? <==> w.push == Delivered
  {
  }

  /** A price equal to the target, or a condition other than `above` and
      `below`, never fires. */
  lemma NoAlertWithoutStrictCrossing(cache: map<string, int>, rule: Rule, w: World)
    requires IsComplete(rule) && w.quote.Price?
    requires w.quote.last == rule.target.value
      || (rule.condition.value != "above" && rule.condition.value != "below")
    ensures var o := Evaluate(cache, rule, w).outcome;
      !o.Fired? && !o.PushFailed? && Evaluate(cache, rule, w).cache == cache
  {
  }

  /** After a rule fires, the same rule is suppressed exactly while less
      than `CacheDuration` has passed since the entry was written. */
  lemma CooldownAfterFiring(cache: map<string, int>, rule: Rule, w: World, later: World)
    requires Evaluate(cache, rule, w).outcome.Fired?
    ensures Evaluate(Evaluate(cache, rule, w).cache, rule, later).outcome == Suppressed
        <==> later.checkedAt - w.recordedAt < CacheDuration
  {
  }

  /** A failed push is not remembered: the same rule, checked again no
      earlier, is not suppressed and is retried. */
  lemma RetryAfterPushFailure(cache: map<string, int>, rule: Rule, w: World, later: World)
    requires Evaluate(cache, rule, w).outcome.PushFailed?
    requires w.checkedAt <= later.checkedAt
    ensures Evaluate(Evaluate(cache, rule, w).cache, rule, later).outcome != Suppressed
  {
  }

  /** The rules that can fire have distinct cache keys unless they have the
      same symbol and condition: `_` cannot glue two of them together. */
  lemma KeyInjective(s1: string, c1: string, s2: string, c2: string)
    requires c1 == "above" || c1 == "below"
    requires c2 == "above" || c2 == "below"
    requires Key(s1, c1) == Key(s2, c2)
    ensures s1 == s2 && c1 == c2
  {
    var k := Key(s1, c1);
    assert |s1| == |s2|;
    assert s1 == k[..|s1|] && s2 == k[..|s2|];
    assert c1 == k[|s1| + 1..] && c2 == k[|s2| + 1..];
  }

  /** A rule with a different key is checked as if the other rule had not
      been checked at all. */
  lemma OtherKeysUnaffected(cache: map<string, int>, r1: Rule, w1: World, r2: Rule, w2: World)
    requires IsComplete(r1) && IsComplete(r2)
    requires Key(r1.symbol.value, r1.condition.value) != Key(r2.symbol.value, r2.condition.value)
    ensures Evaluate(Evaluate(cache, r1, w1).cache, r2, w2).outcome == Evaluate(cache, r2, w2).outcome
  {
  }

  /** Splitting the rules: the second part runs on the cache the first left. */
  lemma {:induction false} SweepAppend(cache: map<string, int>, a: seq<Round>, b: seq<Round>)
    ensures var first := Sweep(cache, a);
      var second := Sweep(first.cache, b);
      Sweep(cache, a + b) == Run(first.outcomes + second.outcomes, second.cache)
    decreases |a|
  {
    if a == [] {
      assert a + b == b;
    } else {
      assert (a + b)[1..] == a[1..] + b;
      var s := Evaluate(cache, a[0].rule, a[0].world);
      SweepAppend(s.cache, a[1..], b);
    }
  }

  /** The outcome of the rule at `i` is its evaluation against the cache the
      rules before it left. */
  lemma SweepAt(cache: map<string, int>, rounds: seq<Round>, i: nat)
    requires i < |rounds|
    ensures var before := Sweep(cache, rounds[..i]).cache;
      var s := Evaluate(before, rounds[i].rule, rounds[i].world);
      && Sweep(cache, rounds).outcomes[i] == s.outcome
      && Sweep(cache, rounds[..i + 1]).cache == s.cache
  {
    assert rounds == rounds[..i] + rounds[i..];
    SweepAppend(cache, rounds[..i], rounds[i..]);
    assert rounds[..i + 1] == rounds[..i] + [rounds[i]];
    SweepAppend(cache, rounds[..i], [rounds[i]]);
  }

  /** Entries are never removed, and none is lowered below a bound that its
      old value and every clock the sweep records meet. */
  lemma {:induction false} SweepKeepsEntries(cache: map<string, int>, rounds: seq<Round>, key: string, t: int)
    requires key in cache && cache[key] >= t
    requires forall k :: 0 <= k < |rounds| ==> rounds[k].world.recordedAt >= t
    ensures key in Sweep(cache, rounds).cache && Sweep(cache, rounds).cache[key] >= t
    decreases |rounds|
  {
    if rounds != [] {
      var s := Evaluate(cache, rounds[0].rule, rounds[0].world);
      CacheWrittenOnlyAfterPush(cache, rounds[0].rule, rounds[0].world);
      SweepKeepsEntries(s.cache, rounds[1..], key, t);
    }
  }

  /** Every entry the sweep leaves holds either its value from before the
      sweep or the clock recorded by a rule of the sweep that fired. */
  lemma {:induction false} SweepEntryOrigin(cache: map<string, int>, rounds: seq<Round>, key: string)
    requires key in Sweep(cache, rounds).cache
    ensures (key in cache && Sweep(cache, rounds).cache[key] == cache[key])
      || (exists k :: 0 <= k < |rounds| && Sweep(cache, rounds).outcomes[k].Fired?
            && Sweep(cache, rounds).cache[key] == rounds[k].world.recordedAt)
    decreases |rounds|
  {
    if rounds != [] {
      var r := Sweep(cache, rounds);
      var s := Evaluate(cache, rounds[0].rule, rounds[0].world);
      var rest := Sweep(s.cache, rounds[1..]);
      assert r.cache == rest.cache && r.outcomes == [s.outcome] + rest.outcomes;
      SweepEntryOrigin(s.cache, rounds[1..], key);
      if key in s.cache && rest.cache[key] == s.cache[key] {
        if key !in cache || s.cache[key] != cache[key] {
          assert r.outcomes[0].Fired? && r.cache[key] == rounds[0].world.recordedAt;
        }
      } else {
        var k :| 0 <= k < |rounds[1..]| && rest.outcomes[k].Fired? && rest.cache[key] == rounds[1..][k].world.recordedAt;
        assert r.outcomes[k + 1].Fired? && r.cache[key] == rounds[k + 1].world.recordedAt;
      }
    }
  }

  /** The clocks a sweep reads never go backwards. */
  ghost predicate InOrder(rounds: seq<Round>) {
    forall k, l :: 0 <= k < l < |rounds| ==> rounds[k].world.recordedAt <= rounds[l].world.recordedAt
  }

  /** Within one run of the loop, a rule that fired is not pushed again for
      the same symbol and condition while less than `CacheDuration` has
      passed, even when it is listed more than once. */
  lemma AtMostOneAlertPerWindow(cache: map<string, int>, rounds: seq<Round>, i: nat, j: nat)
    requires InOrder(rounds)
    requires i < j < |rounds|
    requires Sweep(cache, rounds).outcomes[i].Fired?
    requires IsComplete(rounds[i].rule) && IsComplete(rounds[j].rule)
    requires Key(rounds[j].rule.symbol.value, rounds[j].rule.condition.value)
          == Key(rounds[i].rule.symbol.value, rounds[i].rule.condition.value)
    requires rounds[j].world.checkedAt - rounds[i].world.recordedAt < CacheDuration
    ensures Sweep(cache, rounds).outcomes[j] == Suppressed
  {
    var ri, wi := rounds[i].rule, rounds[i].world;
    var key := Key(ri.symbol.value, ri.condition.value);
    SweepAt(cache, rounds, i);
    var afterI := Sweep(cache, rounds[..i + 1]).cache;
    CacheWrittenOnlyAfterPush(Sweep(cache, rounds[..i]).cache, ri, wi);
    assert key in afterI && afterI[key] == wi.recordedAt;
    var between := rounds[i + 1..j];
    assert rounds[..j] == rounds[..i + 1] + between;
    SweepAppend(cache, rounds[..i + 1], between);
    forall k | 0 <= k < |between| ensures between[k].world.recordedAt >= wi.recordedAt {
      assert between[k] == rounds[i + 1 + k];
    }
    SweepKeepsEntries(afterI, between, key, wi.recordedAt);
    SweepAt(cache, rounds, j);
  }
}
