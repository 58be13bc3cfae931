/**
 * The plugin's counters: transactions and their volume (in the currency's smallest unit) per
 * "type_currency" key, and how many accounts exist in total and per currency id. The counters
 * are Java `int`s (`AtomicInteger`) and the volumes Java `long`s (`AtomicLong`), so every
 * addition wraps around.
 */
module Metrics {
  import opened Wrappers
  import opened JavaInt
  import opened Decimal
  import opened Uuids
  import opened Currencies
  import opened Accounts

  type AccountMap = map<Uuid, map<string, AccountHolder>>

  /** A counter read from a map, zero when the key has none yet (`computeIfAbsent(key, 0)`). */
  function CountOf(counts: map<string, int>, key: string): int {
    if key in counts then counts[key] else 0
  }

  // ---------------------------------------------------------------------------------------
  // Wrapping counters

  /** Adds the steps one by one to a Java `int`, wrapping after each (`addAndGet`). */
  function AddEach32(start: int, steps: seq<int>): int
    decreases |steps|
  {
    if steps == [] then start else AddEach32(Wrap32(start + steps[0]), steps[1..])
  }

  function Sum(steps: seq<int>): int
    decreases |steps|
  {
    if steps == [] then 0 else steps[0] + Sum(steps[1..])
  }

  /**
   * Adding with wrap-around at every step ends on the same `int` as adding exactly and
   * wrapping once, so a counter can be modelled by its exact count cut to 32 bits.
   */
  lemma {:induction false} AddEach32IsWrappedSum(start: int, steps: seq<int>)
    requires IsInt32(start)
    ensures AddEach32(start, steps) == Wrap32(start + Sum(steps))
    decreases |steps|
  {
    if steps != [] {
      AddEach32IsWrappedSum(Wrap32(start + steps[0]), steps[1..]);
      Wrap32Add(start + steps[0], Sum(steps[1..]));
    }
  }

  // ---------------------------------------------------------------------------------------
  // Account counting

  /** The (player, key) pairs of the accounts of the given players. */
  ghost function Pairs(accounts: AccountMap, players: set<Uuid>): set<(Uuid, string)> {
    set p, k | p in players && p in accounts && k in accounts[p] :: (p, k)
  }

  /** One player's pairs for the given keys. */
  ghost function PlayerPairs(p: Uuid, keys: set<string>): set<(Uuid, string)> {
    set k | k in keys :: (p, k)
  }

  /** Those of the pairs whose account object carries the currency id. */
  ghost function InCurrency(accounts: AccountMap, pairs: set<(Uuid, string)>, currencyId: string): set<(Uuid, string)> {
    set pk | pk in pairs && pk.0 in accounts && pk.1 in accounts[pk.0] && accounts[pk.0][pk.1].currencyId == currencyId
  }

  /** Those of the pairs whose account object carries one of the currency ids. */
  ghost function InCurrencies(accounts: AccountMap, pairs: set<(Uuid, string)>, ids: set<string>): set<(Uuid, string)> {
    set pk | pk in pairs && pk.0 in accounts && pk.1 in accounts[pk.0] && accounts[pk.0][pk.1].currencyId in ids
  }

  /** The sum of the sizes of the given players' account maps, player by player. */
  ghost function SizeSum(accounts: AccountMap, players: set<Uuid>): nat
    decreases players
  {
    if players == {} then 0
    else
      var p :| p in players;
      (if p in accounts then |accounts[p]| else 0) + SizeSum(accounts, players - {p})
  }

  /** The sum of the per-currency counts over the given currency ids, id by id. */
  ghost function CurrencySum(accounts: AccountMap, pairs: set<(Uuid, string)>, ids: set<string>): nat
    decreases ids
  {
    if ids == {} then 0
    else
      var c :| c in ids;
      |InCurrency(accounts, pairs, c)| + CurrencySum(accounts, pairs, ids - {c})
  }

  /** One player's pairs are as many as the keys. */
  lemma {:induction false} PlayerPairsCount(p: Uuid, keys: set<string>)
    ensures |PlayerPairs(p, keys)| == |keys|
    decreases |keys|
  {
    if keys != {} {
      var k :| k in keys;
      var rest := keys - {k};
      PlayerPairsCount(p, rest);
      assert PlayerPairs(p, keys) == PlayerPairs(p, rest) + {(p, k)};
    }
  }

  /** The pairs of a set of players are one player's pairs plus the others'. */
  lemma PairsSplit(accounts: AccountMap, players: set<Uuid>, p: Uuid)
    requires p in players && p in accounts
    ensures Pairs(accounts, players) == Pairs(accounts, players - {p}) + PlayerPairs(p, accounts[p].Keys)
    ensures |Pairs(accounts, players)| == |Pairs(accounts, players - {p})| + |accounts[p]|
  {
    assert Pairs(accounts, players) == Pairs(accounts, players - {p}) + PlayerPairs(p, accounts[p].Keys);
    assert Pairs(accounts, players - {p}) !! PlayerPairs(p, accounts[p].Keys);
    PlayerPairsCount(p, accounts[p].Keys);
  }

  /** The number of accounts is the sum of the per-player map sizes. */
  lemma {:induction false} PairsCountIsSizeSum(accounts: AccountMap, players: set<Uuid>)
    ensures |Pairs(accounts, players)| == SizeSum(accounts, players)
    decreases players
  {
    if players != {} {
      var p :| p in players && SizeSum(accounts, players) ==
               (if p in accounts then |accounts[p]| else 0) + SizeSum(accounts, players - {p});
      PairsCountIsSizeSum(accounts, players - {p});
      if p in accounts {
        PairsSplit(accounts, players, p);
      } else {
        assert Pairs(accounts, players) == Pairs(accounts, players - {p});
      }
    }
  }

  /** Summing the per-currency counts over some ids counts the pairs in any of those ids. */
  lemma {:induction false} CurrencySumCounts(accounts: AccountMap, pairs: set<(Uuid, string)>, ids: set<string>)
    ensures CurrencySum(accounts, pairs, ids) == |InCurrencies(accounts, pairs, ids)|
    decreases ids
  {
    if ids == {} {
      assert InCurrencies(accounts, pairs, ids) == {};
    } else {
      var c :| c in ids && CurrencySum(accounts, pairs, ids) ==
               |InCurrency(accounts, pairs, c)| + CurrencySum(accounts, pairs, ids - {c});
      CurrencySumCounts(accounts, pairs, ids - {c});
      InCurrenciesSplit(accounts, pairs, ids, c);
    }
  }

  /** The pairs in a set of ids are those in one of them plus, apart from them, those in the rest. */
  lemma InCurrenciesSplit(accounts: AccountMap, pairs: set<(Uuid, string)>, ids: set<string>, c: string)
    requires c in ids
    ensures |InCurrencies(accounts, pairs, ids)|
            == |InCurrencies(accounts, pairs, ids - {c})| + |InCurrency(accounts, pairs, c)|
  {
    assert InCurrencies(accounts, pairs, ids)
        == InCurrencies(accounts, pairs, ids - {c}) + InCurrency(accounts, pairs, c);
    assert InCurrencies(accounts, pairs, ids - {c}) !! InCurrency(accounts, pairs, c);
  }

  /**
   * The per-currency counters agree with the counted pairs: a currency id has a counter exactly
   * when some counted account carries it, and the counter is how many do.
   */
  ghost predicate Tallies(accounts: AccountMap, counted: set<(Uuid, string)>, perCurrency: map<string, int>) {
    && (forall c :: c in perCurrency <==> InCurrency(accounts, counted, c) != {})
    && (forall c | c in perCurrency :: perCurrency[c] == |InCurrency(accounts, counted, c)|)
  }

  /**
   * Every account falls under exactly one currency id, so when the ids are those some account
   * carries, the per-currency counts add up to the number of accounts, which in turn is the sum
   * of the per-player map sizes.
   */
  lemma CurrencyCountsAddUp(accounts: AccountMap, ids: set<string>)
    requires forall c :: c in ids <==> InCurrency(accounts, Pairs(accounts, accounts.Keys), c) != {}
    ensures CurrencySum(accounts, Pairs(accounts, accounts.Keys), ids) == |Pairs(accounts, accounts.Keys)|
    ensures |Pairs(accounts, accounts.Keys)| == SizeSum(accounts, accounts.Keys)
  {
    var all := Pairs(accounts, accounts.Keys);
    CurrencySumCounts(accounts, all, ids);
    forall pk | pk in all ensures pk in InCurrencies(accounts, all, ids) {
      var c := accounts[pk.0][pk.1].currencyId;
      assert pk in InCurrency(accounts, all, c);
    }
    assert InCurrencies(accounts, all, ids) == all;
    PairsCountIsSizeSum(accounts, accounts.Keys);
  }

  /** Counting one more account: its currency id's count goes up by one, the others stay. */
  lemma TallyStep(accounts: AccountMap, counted: set<(Uuid, string)>, perCurrency: map<string, int>, p: Uuid, k: string)
    requires p in accounts && k in accounts[p] && (p, k) !in counted
    requires Tallies(accounts, counted, perCurrency)
    ensures var id := accounts[p][k].currencyId;
            Tallies(accounts, counted + {(p, k)}, perCurrency[id := CountOf(perCurrency, id) + 1])
  {
    var id := accounts[p][k].currencyId;
    assert InCurrency(accounts, counted + {(p, k)}, id) == InCurrency(accounts, counted, id) + {(p, k)};
    forall c | c != id
      ensures InCurrency(accounts, counted + {(p, k)}, c) == InCurrency(accounts, counted, c)
    {
    }
  }

  /**
   * The loops of `updateAccountMetrics`, with exact counts: for every player, the size of the
   * player's map is added to the total, and each of the player's accounts adds one under the
   * currency id its object carries.
   */
  method CountAccounts(m: AccountMap) returns (total: int, perCurrency: map<string, int>)
    ensures total == |Pairs(m, m.Keys)|
    ensures Tallies(m, Pairs(m, m.Keys), perCurrency)
  {
    total, perCurrency := 0, map[];
    var left := m.Keys;
    ghost var counted: set<(Uuid, string)> := {};
    assert Pairs(m, m.Keys - left) == {};
    while left != {}
      invariant left <= m.Keys
      invariant counted == Pairs(m, m.Keys - left)
      invariant total == |counted|
      invariant Tallies(m, counted, perCurrency)
      decreases |left|
    {
      var p :| p in left;
      assert m.Keys - (left - {p}) - {p} == m.Keys - left;
      PairsSplit(m, m.Keys - (left - {p}), p);
      total := total + |m[p]|;
      perCurrency := CountPlayer(m, counted, p, perCurrency);
      counted := counted + PlayerPairs(p, m[p].Keys);
      left := left - {p};
    }
    assert m.Keys - left == m.Keys;
  }

  /** The inner loop: counts one player's accounts under their currency ids. */
  method CountPlayer(m: AccountMap, ghost counted: set<(Uuid, string)>, p: Uuid, perCurrency: map<string, int>)
    returns (after: map<string, int>)
    requires p in m && counted !! PlayerPairs(p, m[p].Keys)
    requires Tallies(m, counted, perCurrency)
    ensures Tallies(m, counted + PlayerPairs(p, m[p].Keys), after)
  {
    after := perCurrency;
    var left := m[p].Keys;
    ghost var acc := counted;
    assert counted + PlayerPairs(p, m[p].Keys - left) == counted;
    while left != {}
      invariant left <= m[p].Keys
      invariant acc == counted + PlayerPairs(p, m[p].Keys - left)
      invariant Tallies(m, acc, after)
      decreases |left|
    {
      var k :| k in left;
      NextPair(m, counted, p, left, k);
      TallyStep(m, acc, after, p, k);
      var id := m[p][k].currencyId;
      after := after[id := CountOf(after, id) + 1];
      acc := acc + {(p, k)};
      left := left - {k};
    }
    assert m[p].Keys - left == m[p].Keys;
  }

  /** The next account of a player is not counted yet, and counting it extends the player's pairs. */
  lemma NextPair(m: AccountMap, counted: set<(Uuid, string)>, p: Uuid, left: set<string>, k: string)
    requires p in m && counted !! PlayerPairs(p, m[p].Keys) && k in left && left <= m[p].Keys
    ensures (p, k) !in counted + PlayerPairs(p, m[p].Keys - left)
    ensures counted + PlayerPairs(p, m[p].Keys - (left - {k})) == counted + PlayerPairs(p, m[p].Keys - left) + {(p, k)}
  {
    assert (p, k) in PlayerPairs(p, m[p].Keys);
    assert m[p].Keys - (left - {k}) == (m[p].Keys - left) + {k};
    assert PlayerPairs(p, m[p].Keys - (left - {k})) == PlayerPairs(p, m[p].Keys - left) + {(p, k)};
  }

  /** The exact per-currency counts cut to Java `int`s. */
  function WrapCounts(perCurrency: map<string, int>): (r: map<string, int>)
    ensures r.Keys == perCurrency.Keys
    ensures forall c | c in r :: r[c] == Wrap32(perCurrency[c]) && IsInt32(r[c])
  {
    map c | c in perCurrency :: Wrap32(perCurrency[c])
  }

  // ---------------------------------------------------------------------------------------
  // Transaction counting

  /** The key a transaction is counted under: the type (printed "null" when missing), "_", the id. */
  function MetricKey(txType: Option<string>, currencyId: string): (key: string)
    ensures |key| == |txType.GetOr("null")| + 1 + |currencyId|
    ensures key[|txType.GetOr("null")|] == '_'
    ensures key[..|txType.GetOr("null")|] == txType.GetOr("null")
    ensures key[|txType.GetOr("null")| + 1..] == currencyId
  {
    txType.GetOr("null") + "_" + currencyId
  }

  /** Two different transactions can share a key when a type or an id contains "_". */
  lemma MetricKeysCanCollide()
    ensures MetricKey(Some("a_b"), "c") == MetricKey(Some("a"), "b_c")
  {
  }

  /**
   * The amount in the currency's smallest unit as a `long` (`movePointRight` then `longValue`):
   * moved `decimalPlaces` to the right, cut toward zero, and cut to its low 64 bits.
   */
  function Units(amount: real, decimalPlaces: int): (u: int)
    ensures IsInt64(u)
  {
    Wrap64(TruncateTowardZero(MovePointRight(amount, decimalPlaces)))
  }

  /** Within the `long` range, the units are the shifted amount cut toward zero. */
  lemma UnitsTruncate(amount: real, decimalPlaces: int)
    requires IsInt64(TruncateTowardZero(MovePointRight(amount, decimalPlaces)))
    ensures var x := MovePointRight(amount, decimalPlaces);
            var u := Units(amount, decimalPlaces);
            && (x >= 0.0 ==> 0 <= u && u as real <= x < u as real + 1.0)
            && (x < 0.0 ==> u <= 0 && u as real - 1.0 < x <= u as real)
  {
  }

  /** 10.555 in a two-decimal currency counts as 1055 units. */
  lemma UnitsExample()
    ensures Units(10.555, 2) == 1055
  {
    assert MovePointRight(10.555, 2) == 1055.5;
  }

  /** The transaction counters: count and volume per key. */
  datatype Tally = Tally(counts: map<string, int>, volumes: map<string, int>)

  /** Every count fits a Java `int` and every volume a Java `long`. */
  predicate WellFormed(t: Tally) {
    && (forall k | k in t.counts :: IsInt32(t.counts[k]))
    && (forall k | k in t.volumes :: IsInt64(t.volumes[k]))
  }

  /**
   * `recordTransaction`: with metrics disabled nothing changes. A null currency throws before
   * anything is counted; a null amount throws after the count went up, so only the count
   * changes. Exceptions are caught and logged.
   */
  function Recorded(t: Tally, enabled: bool, txType: Option<string>, currency: Option<Currency>,
                    amount: Option<real>): Tally
  {
    if !enabled || currency.None? then t
    else
      var key := MetricKey(txType, currency.value.id);
      var counts := t.counts[key := Wrap32(CountOf(t.counts, key) + 1)];
      match amount
      case None => Tally(counts, t.volumes)
      case Some(x) =>
        Tally(counts, t.volumes[key := Wrap64(CountOf(t.volumes, key) + Units(x, currency.value.decimalPlaces))])
  }

  /**
   * What recording does to the counters: nothing when disabled or without a currency; otherwise
   * the key's count goes up by exactly one and, with an amount, the key's volume goes up by the
   * amount's units (both without overflow), and every other key keeps its count and volume.
   */
  lemma RecordedEffect(t: Tally, enabled: bool, txType: Option<string>, c: Option<Currency>, amount: Option<real>)
    ensures !enabled || c.None? ==> Recorded(t, enabled, txType, c, amount) == t
    ensures enabled && c.Some? ==>
      var key := MetricKey(txType, c.value.id);
      var r := Recorded(t, enabled, txType, c, amount);
      && r.counts.Keys == t.counts.Keys + {key}
      && (forall k | k in t.counts && k != key :: r.counts[k] == t.counts[k])
      && (IsInt32(CountOf(t.counts, key) + 1) ==> r.counts[key] == CountOf(t.counts, key) + 1)
      && (amount.None? ==> r.volumes == t.volumes)
      && (amount.Some? ==>
            && r.volumes.Keys == t.volumes.Keys + {key}
            && (forall k | k in t.volumes && k != key :: r.volumes[k] == t.volumes[k])
            && var units := Units(amount.value, c.value.decimalPlaces);
               IsInt64(CountOf(t.volumes, key) + units) ==> r.volumes[key] == CountOf(t.volumes, key) + units)
  {
  }

  /** Recording keeps every count an `int` and every volume a `long`. */
  lemma RecordedWellFormed(t: Tally, enabled: bool, txType: Option<string>, c: Option<Currency>, amount: Option<real>)
    requires WellFormed(t)
    ensures WellFormed(Recorded(t, enabled, txType, c, amount))
  {
  }

  /** Records a transaction for each amount in turn. */
  function RecordAll(t: Tally, txType: Option<string>, c: Currency, amounts: seq<Option<real>>): Tally
    decreases |amounts|
  {
    if amounts == [] then t else RecordAll(Recorded(t, true, txType, Some(c), amounts[0]), txType, c, amounts[1..])
  }

  /** After n transactions under one key, that key's count is the old count plus n, as an `int`. */
  lemma {:induction false} RecordAllCounts(t: Tally, txType: Option<string>, c: Currency, amounts: seq<Option<real>>)
    requires IsInt32(CountOf(t.counts, MetricKey(txType, c.id)))
    ensures CountOf(RecordAll(t, txType, c, amounts).counts, MetricKey(txType, c.id))
            == Wrap32(CountOf(t.counts, MetricKey(txType, c.id)) + |amounts|)
    decreases |amounts|
  {
    var key := MetricKey(txType, c.id);
    if amounts != [] {
      var t1 := Recorded(t, true, txType, Some(c), amounts[0]);
      assert CountOf(t1.counts, key) == Wrap32(CountOf(t.counts, key) + 1);
      RecordAllCounts(t1, txType, c, amounts[1..]);
      Wrap32Add(CountOf(t.counts, key) + 1, |amounts| - 1);
    }
  }

  class MetricsManager {
    var transactionCounts: map<string, int>
    var transactionVolumes: map<string, int>
    var totalAccounts: int
    var currencyAccounts: map<string, int>

    constructor ()
      ensures transactionCounts == map[] && transactionVolumes == map[]
      ensures totalAccounts == 0 && currencyAccounts == map[]
    {
      transactionCounts := map[];
      transactionVolumes := map[];
      totalAccounts := 0;
      currencyAccounts := map[];
    }

    /** `resetMetrics`: every counter back to empty or zero. */
    method ResetMetrics()
      modifies this
      ensures transactionCounts == map[] && transactionVolumes == map[]
      ensures totalAccounts == 0 && currencyAccounts == map[]
    {
      transactionCounts := map[];
      transactionVolumes := map[];
      totalAccounts := 0;
      currencyAccounts := map[];
    }

    /**
     * `updateAccountMetrics`: a null map changes nothing. Otherwise the account counters are
     * recounted from scratch: the total is the number of accounts, and each currency id that
     * some account object carries counts the accounts carrying it, both as Java `int`s.
     * Transaction counters are untouched.
     */
    method UpdateAccountMetrics(accounts: Option<AccountMap>)
      modifies this
      ensures transactionCounts == old(transactionCounts) && transactionVolumes == old(transactionVolumes)
      ensures accounts.None? ==> totalAccounts == old(totalAccounts) && currencyAccounts == old(currencyAccounts)
      ensures accounts.Some? ==>
        var all := Pairs(accounts.value, accounts.value.Keys);
        && totalAccounts == Wrap32(|all|)
        && (forall c :: c in currencyAccounts <==> InCurrency(accounts.value, all, c) != {})
        && (forall c | c in currencyAccounts :: currencyAccounts[c] == Wrap32(|InCurrency(accounts.value, all, c)|))
    {
      if accounts.None? {
        return;
      }
      var total, perCurrency := CountAccounts(accounts.value);
      totalAccounts := Wrap32(total);
      currencyAccounts := WrapCounts(perCurrency);
    }

    /** The transaction counters as one value. */
    function Transactions(): Tally
      reads this
    {
      Tally(transactionCounts, transactionVolumes)
    }

    /** `recordTransaction`: counts the transaction and adds its units under its key. */
    method RecordTransaction(enabled: bool, txType: Option<string>, currency: Option<Currency>, amount: Option<real>)
      modifies this
      ensures Transactions() == Recorded(old(Transactions()), enabled, txType, currency, amount)
      ensures totalAccounts == old(totalAccounts) && currencyAccounts == old(currencyAccounts)
    {
      if !enabled || currency.None? {
        return;
      }
      var key := MetricKey(txType, currency.value.id);
      transactionCounts := transactionCounts[key := Wrap32(CountOf(transactionCounts, key) + 1)];
      if amount.None? {
        return;
      }
      var units := Units(amount.value, currency.value.decimalPlaces);
      transactionVolumes := transactionVolumes[key := Wrap64(CountOf(transactionVolumes, key) + units)];
    }
  }
}
