# FrizzlenEco ledger core in Dafny

A model of the in-memory part of the FrizzlenEco economy plugin for Minecraft servers. It covers:

- the ledger of player accounts in several currencies (`EconomyManager`);
- the value types around it (`Currency` with its builder, `AccountHolder`, the balance-change and transaction events);
- the per-player currency preferences used by the Vault bridge (`VaultCurrencyAdapter`);
- the amount helpers (`EconomyUtil`);
- the counting done by `MetricsManager`.

Amounts are `java.math.BigDecimal` values, which are exact decimals. The model keeps them as Dafny `real`.

The parts of `BigDecimal` that depend on the scale have their own module, `Decimal`. Those parts are:

- `setScale` with HALF_UP rounding;
- `movePointRight`;
- truncation to a `long`;
- `toString`;
- `new BigDecimal(String)`.

Java's `int` and `long` arithmetic is modelled with explicit wrap-around (`JavaInt`). So are the hash codes the source relies on: `String.hashCode`, `UUID.hashCode` and `Objects.hash`.

Modules, one per source concern:

| module | file | models |
|---|---|---|
| `Wrappers` | wrappers.dfy | `Option`, standing for Java's null |
| `JavaInt` | java_int.dfy | 32/64-bit wrap-around, Java hash codes |
| `Uuids` | uuid.dfy | `java.util.UUID` and its hash |
| `Decimal` | decimal.dfy | the used part of `BigDecimal`, with the round trip `new BigDecimal(x.toString())` |
| `Currencies` | currency.dfy | `Currency` (a value), `CurrencyBuilder` (a class) |
| `Accounts` | account_holder.dfy | `AccountHolder` (a class whose balance and timestamps change in place) |
| `Events` | events.dfy | `BalanceChangeEvent`, `TransactionEvent` |
| `EconomyUtil` | economy_util.dfy | the static helpers |
| `Ledger` | ledger.dfy | what each ledger operation does, as functions on an abstract world, and the lemmas about them |
| `Economy` | economy_manager.dfy | the `EconomyManager` class, proved to follow `Ledger` |
| `Vault` | vault_currency_adapter.dfy | `VaultCurrencyAdapter` |
| `Metrics` | metrics_manager.dfy | `MetricsManager` counting |

The ledger class keeps the source's own state:

- the currency map;
- the default currency;
- a map from player to currency id to `AccountHolder` objects.

Its methods are proved equal, on the abstract state, to the functions of module `Ledger`. That state holds:

- the accounts as values;
- the log of fired events;
- the account states handed to the database.

The properties of the operations are proved once, as lemmas about those functions:

- bounds;
- frame conditions;
- idempotence;
- conservation by a transfer;
- what the refund after a failed transfer does.

## Model

| member | source | states |
|---|---|---|
| `JavaInt.Wrap32` | src/main/java/org/frizzlenpop/frizzlenEco/metrics/MetricsManager.java:111-112 | an `int` result is in range, equals the exact value when that fits, and differs from it by a multiple of 2^32 |
| `JavaInt.Wrap64` | src/main/java/org/frizzlenpop/frizzlenEco/metrics/MetricsManager.java:116-117 | the same for `long` and 2^64 |
| `JavaInt.Wrap32Add` | src/main/java/org/frizzlenpop/frizzlenEco/metrics/MetricsManager.java:87 | wrapping after each addition gives the same `int` as wrapping once at the end |
| `JavaInt.Wrap64Add` | src/main/java/org/frizzlenpop/frizzlenEco/metrics/MetricsManager.java:117 | the same for `long` |
| `JavaInt.StringHash` | src/main/java/org/frizzlenpop/frizzlenEco/economy/Currency.java:188 | `String.hashCode` over the UTF-16 units is always an `int` |
| `JavaInt.Hash1` | src/main/java/org/frizzlenpop/frizzlenEco/economy/Currency.java:188 | `Objects.hash` of one field is an `int` |
| `JavaInt.Hash2` | src/main/java/org/frizzlenpop/frizzlenEco/economy/AccountHolder.java:110 | `Objects.hash` of two fields is an `int` |
| `Uuids.UuidHash` | src/main/java/org/frizzlenpop/frizzlenEco/economy/AccountHolder.java:110 | `UUID.hashCode` is an `int` |
| `Decimal.RoundHalfUpIsHalfUp` | src/main/java/org/frizzlenpop/frizzlenEco/economy/Currency.java:172 | the HALF_UP rounding is nearest, a tie goes away from zero, and it is the only integer that meets this |
| `Decimal.SetScaleExact` | src/main/java/org/frizzlenpop/frizzlenEco/economy/Currency.java:172 | rescaling a value that already has at most `scale` decimals returns its unscaled value unchanged |
| `Decimal.TruncateTowardZero` | src/main/java/org/frizzlenpop/frizzlenEco/metrics/MetricsManager.java:115 | the result lies between zero and the value, less than one away from it |
| `Decimal.ParseToText` | src/main/java/org/frizzlenpop/frizzlenEco/util/EconomyUtil.java:89-95 | parsing what `toString` prints gives back the same unscaled value and scale, whenever the scale and adjusted exponent are `int`s |
| `Decimal.LayoutBelowOne` | src/main/java/org/frizzlenpop/frizzlenEco/economy/Currency.java:175 | below 1, `toString` prints "0.", then `scale - digits` zeros, then the digits |
| `Currencies.FormatTemplateLiteral` | src/main/java/org/frizzlenpop/frizzlenEco/economy/Currency.java:175 | a template without '%' prints as itself |
| `Currencies.FormatTemplateDefault` | src/main/java/org/frizzlenpop/frizzlenEco/economy/Currency.java:175 | the "%s%s" template prints the symbol followed by the amount text |
| `Currencies.FormatRoundsHalfUp` | src/main/java/org/frizzlenpop/frizzlenEco/economy/Currency.java:166-176 | with "%s%s", `format` prints the symbol and then a text that reads back as the HALF_UP rounding to `decimalPlaces`, at exactly that scale |
| `Currencies.FormatNullIsZero` | src/main/java/org/frizzlenpop/frizzlenEco/economy/Currency.java:167-169 | `format(null)` prints what `format(0)` prints |
| `Currencies.FormatExample` | src/main/java/org/frizzlenpop/frizzlenEco/economy/Currency.java:166-176 | an amount whose HALF_UP cents have four digits prints as "$dd.dd" from those digits |
| `Currencies.FormatTen` | src/test/java/org/frizzlenpop/frizzlenEco/EconomyTest.java:27 | 10 prints "$10.00" |
| `Currencies.FormatTenAndHalf` | src/test/java/org/frizzlenpop/frizzlenEco/EconomyTest.java:28 | 10.5 prints "$10.50" |
| `Currencies.FormatExactCents` | src/test/java/org/frizzlenpop/frizzlenEco/EconomyTest.java:29 | 10.55 prints "$10.55" |
| `Currencies.FormatRoundsTieUp` | src/test/java/org/frizzlenpop/frizzlenEco/EconomyTest.java:30 | 10.555 prints "$10.56": the tie rounds up |
| `Currencies.HashCode` | src/main/java/org/frizzlenpop/frizzlenEco/economy/Currency.java:186-189 | the hash code is an `int` computed from the id alone |
| `Currencies.EqualsById` | src/main/java/org/frizzlenpop/frizzlenEco/economy/Currency.java:178-189 | equality is an equivalence; currencies with equal ids are equal whatever their other fields, and have equal hash codes |
| `Currencies.MaxDouble` | src/main/java/org/frizzlenpop/frizzlenEco/economy/Currency.java:208 | the default maximum balance is positive |
| `Currencies.CurrencyBuilder.constructor` | src/main/java/org/frizzlenpop/frizzlenEco/economy/Currency.java:199-211 | the defaults: "Coins", "$", "%s%s", 2 places, not default, 100 initial, 0 min, `Double.MAX_VALUE` max, 0 interest, no negatives, enabled |
| `Currencies.CurrencyBuilder.Id` | src/main/java/org/frizzlenpop/frizzlenEco/economy/Currency.java:213-216 | replaces the id only and returns the same builder |
| `Currencies.CurrencyBuilder.Name` | src/main/java/org/frizzlenpop/frizzlenEco/economy/Currency.java:218-221 | replaces the name only and returns the same builder |
| `Currencies.CurrencyBuilder.Symbol` | src/main/java/org/frizzlenpop/frizzlenEco/economy/Currency.java:223-226 | replaces the symbol only and returns the same builder |
| `Currencies.CurrencyBuilder.Format` | src/main/java/org/frizzlenpop/frizzlenEco/economy/Currency.java:228-231 | replaces the template only and returns the same builder |
| `Currencies.CurrencyBuilder.DecimalPlaces` | src/main/java/org/frizzlenpop/frizzlenEco/economy/Currency.java:233-236 | replaces the decimal places only and returns the same builder |
| `Currencies.CurrencyBuilder.IsDefault` | src/main/java/org/frizzlenpop/frizzlenEco/economy/Currency.java:238-241 | replaces the default flag only and returns the same builder |
| `Currencies.CurrencyBuilder.InitialBalance` | src/main/java/org/frizzlenpop/frizzlenEco/economy/Currency.java:243-246 | replaces the initial balance only and returns the same builder |
| `Currencies.CurrencyBuilder.MinBalance` | src/main/java/org/frizzlenpop/frizzlenEco/economy/Currency.java:248-251 | replaces the minimum balance only and returns the same builder |
| `Currencies.CurrencyBuilder.MaxBalance` | src/main/java/org/frizzlenpop/frizzlenEco/economy/Currency.java:253-256 | replaces the maximum balance only and returns the same builder |
| `Currencies.CurrencyBuilder.InterestRate` | src/main/java/org/frizzlenpop/frizzlenEco/economy/Currency.java:258-261 | replaces the interest rate only and returns the same builder |
| `Currencies.CurrencyBuilder.AllowNegative` | src/main/java/org/frizzlenpop/frizzlenEco/economy/Currency.java:263-266 | replaces the negative-balance flag only and returns the same builder |
| `Currencies.CurrencyBuilder.IsEnabled` | src/main/java/org/frizzlenpop/frizzlenEco/economy/Currency.java:268-271 | replaces the enabled flag only and returns the same builder |
| `Currencies.CurrencyBuilder.Build` | src/main/java/org/frizzlenpop/frizzlenEco/economy/Currency.java:273-276 | every builder field goes unchanged into the currency |
| `Accounts.AccountHolder.constructor` | src/main/java/org/frizzlenpop/frizzlenEco/economy/AccountHolder.java:26-33 | the keys and name are as given; the balance is the initial balance; created and last transaction are both `now` |
| `Accounts.AccountHolder.SetBalance` | src/main/java/org/frizzlenpop/frizzlenEco/economy/AccountHolder.java:71-74 | the balance is replaced and the last transaction becomes `now`; `created` is kept |
| `Accounts.AccountHolder.SetCreated` | src/main/java/org/frizzlenpop/frizzlenEco/economy/AccountHolder.java:96-98 | only `created` changes |
| `Accounts.AccountHolder.HashCode` | src/main/java/org/frizzlenpop/frizzlenEco/economy/AccountHolder.java:108-111 | the hash code is an `int` computed from player and currency id |
| `Accounts.EqualsByKey` | src/main/java/org/frizzlenpop/frizzlenEco/economy/AccountHolder.java:100-111 | equality is an equivalence that holds exactly when (player, currency id) agree, and equal accounts hash alike |
| `Events.BalanceChangeEvent.Difference` | src/main/java/org/frizzlenpop/frizzlenEco/economy/events/BalanceChangeEvent.java:71-73 | old balance plus the difference is the new balance |
| `Events.BalanceChangeDirection` | src/main/java/org/frizzlenpop/frizzlenEco/economy/events/BalanceChangeEvent.java:79-89 | never both an increase and a decrease; neither exactly when the balances are equal; the direction is the sign of the difference |
| `Events.ExactlyOneKind` | src/main/java/org/frizzlenpop/frizzlenEco/economy/events/TransactionEvent.java:91-109 | each kind predicate holds exactly for its type, and exactly one holds |
| `EconomyUtil.PositiveIsNonNegative` | src/main/java/org/frizzlenpop/frizzlenEco/util/EconomyUtil.java:111-122 | positive implies non-negative; non-negative means positive or zero; null is neither |
| `EconomyUtil.PrintedAmountIsValid` | src/main/java/org/frizzlenpop/frizzlenEco/util/EconomyUtil.java:89-104 | every text `toString` prints is a valid amount and parses back to the same value and scale |
| `EconomyUtil.MalformedAmounts` | src/main/java/org/frizzlenpop/frizzlenEco/util/EconomyUtil.java:89-104 | "", "-", "+" and "." are not valid amounts |
| `EconomyUtil.RoundForDisplay` | src/main/java/org/frizzlenpop/frizzlenEco/util/EconomyUtil.java:25-31 | null counts as zero; the result has exactly `decimalPlaces` decimals and is the HALF_UP rounding |
| `EconomyUtil.FormatCurrencyCases` | src/main/java/org/frizzlenpop/frizzlenEco/util/EconomyUtil.java:48-54 | without a currency the result is a two-decimal rounding (null gives 0.00); with a currency it is that currency's `format` |
| `Ledger.Put` | src/main/java/org/frizzlenpop/frizzlenEco/economy/EconomyManager.java:262-271 | after putting one account, it is found and every other (player, currency) finds the same as before |
| `Ledger.AbsentAccountIsZero` | src/main/java/org/frizzlenpop/frizzlenEco/economy/EconomyManager.java:208-247 | a missing account reads as balance 0; a missing player has no account; `has` then holds exactly for amounts up to 0 |
| `Ledger.CreateAccountEffect` | src/main/java/org/frizzlenpop/frizzlenEco/economy/EconomyManager.java:256-280 | succeeds exactly with a player and a currency; an existing account leaves the world unchanged; a new one holds the initial balance; no other account changes |
| `Ledger.CreateAccountIdempotent` | src/main/java/org/frizzlenpop/frizzlenEco/economy/EconomyManager.java:264-267 | creating an account twice gives the same outcome as once |
| `Ledger.WithdrawEffect` | src/main/java/org/frizzlenpop/frizzlenEco/economy/EconomyManager.java:289-325 | succeeds exactly with all arguments, a positive amount, an account, and the result not below the minimum (unless negatives are allowed). A refusal changes nothing and no account is ever created. On success the balance drops by exactly the amount, others are untouched, and a decrease and a withdrawal are announced |
| `Ledger.DepositEffect` | src/main/java/org/frizzlenpop/frizzlenEco/economy/EconomyManager.java:334-370 | missing arguments or a non-positive amount change nothing. Otherwise the account exists afterwards (even when refused), succeeds exactly when old + amount stays within the maximum, and on success rises by exactly the amount with an increase and a deposit announced; no other account changes |
| `Ledger.TransferConserves` | src/main/java/org/frizzlenpop/frizzlenEco/economy/EconomyManager.java:380-408 | a successful transfer moves exactly the amount between two different players, keeps their sum, and leaves every other account untouched |
| `Ledger.TransferRefusedEarly` | src/main/java/org/frizzlenpop/frizzlenEco/economy/EconomyManager.java:380-394 | missing arguments, a non-positive amount, a self-transfer or a refused withdrawal change nothing |
| `Ledger.TransferRefundRestores` | src/main/java/org/frizzlenpop/frizzlenEco/economy/EconomyManager.java:396-402 | when the deposit leg fails and the refund succeeds, the transfer reports failure with both balances as before (the payee may now hold an empty account) |
| `Ledger.TransferCanLoseAmount` | src/main/java/org/frizzlenpop/frizzlenEco/economy/EconomyManager.java:396-402 | the refund is an ordinary deposit with the same ceiling: with balances already above the maximum, a failed transfer leaves the payer short of the amount |
| `Ledger.DepositCanEndBelowMinimum` | src/main/java/org/frizzlenpop/frizzlenEco/economy/EconomyManager.java:334-360 | a deposit into a missing account opens it at zero and checks only the maximum: with a minimum above zero, a successful deposit leaves an account below the minimum |
| `Ledger.CreateAccountCanExceedMaximum` | src/main/java/org/frizzlenpop/frizzlenEco/economy/EconomyManager.java:256-280 | creating an account checks neither bound: with an initial balance above the maximum, the new account starts above it |
| `Ledger.BoundsPreserved` | src/main/java/org/frizzlenpop/frizzlenEco/economy/EconomyManager.java:256-408 | for a currency whose initial balance and zero lie within its bounds, all four operations keep every account within the minimum (unless negatives are allowed) and the maximum |
| `Ledger.WithdrawBounds` | src/main/java/org/frizzlenpop/frizzlenEco/economy/EconomyManager.java:306-315 | a withdrawal keeps every account of the currency within bounds |
| `Ledger.DepositBounds` | src/main/java/org/frizzlenpop/frizzlenEco/economy/EconomyManager.java:351-360 | a deposit keeps every account of the currency within bounds |
| `Economy.Promoted` | src/main/java/org/frizzlenpop/frizzlenEco/economy/EconomyManager.java:136-144 | the promoted copy is the same currency, and equal to it by id, with the default flag set |
| `Economy.LoadedFacts` | src/main/java/org/frizzlenpop/frizzlenEco/economy/EconomyManager.java:104-133 | every loadable entry is present under its id; every currency is keyed by its own id; the default picked is marked default and present |
| `Economy.EconomyManager.constructor` | src/main/java/org/frizzlenpop/frizzlenEco/economy/EconomyManager.java:23-37 | a new ledger has no currencies, no default, no accounts and no events |
| `Economy.EconomyManager.LoadCurrencies` | src/main/java/org/frizzlenpop/frizzlenEco/economy/EconomyManager.java:79-152 | no entries: the coin currency is the only currency and the default. Otherwise: the loadable entries, with the last marked default as default, or else one loaded currency promoted. There is a default exactly when there is a currency; it is marked default and present; accounts are untouched |
| `Economy.EconomyManager.HasAccount` | src/main/java/org/frizzlenpop/frizzlenEco/economy/EconomyManager.java:208-215 | answers whether the ledger holds the account, without inserting anything |
| `Economy.EconomyManager.GetBalance` | src/main/java/org/frizzlenpop/frizzlenEco/economy/EconomyManager.java:223-235 | the account's balance, or 0 without one, without inserting anything |
| `Economy.EconomyManager.Has` | src/main/java/org/frizzlenpop/frizzlenEco/economy/EconomyManager.java:244-247 | whether that balance reaches the amount |
| `Economy.EconomyManager.GetPlayerAccounts` | src/main/java/org/frizzlenpop/frizzlenEco/economy/EconomyManager.java:415-417 | exactly the player's accounts (none for an unknown player), each under its own keys and holding what the ledger records |
| `Economy.EconomyManager.Insert` | src/main/java/org/frizzlenpop/frizzlenEco/economy/EconomyManager.java:340-348 | a fresh account object is put under the player and currency (creating the player's map); the abstract book gains exactly that account; currencies and default unchanged |
| `Economy.EconomyManager.Commit` | src/main/java/org/frizzlenpop/frizzlenEco/economy/EconomyManager.java:314-321 | the account gets its new balance and `now`, is saved, and the events are fired, as `Ledger.Commit`; currencies and default unchanged |
| `Economy.EconomyManager.Prepare` | src/main/java/org/frizzlenpop/frizzlenEco/economy/EconomyManager.java:339-349 | get-or-create of the account, as `Ledger.Open`, returning its balance; currencies and default unchanged |
| `Economy.EconomyManager.Announce` | src/main/java/org/frizzlenpop/frizzlenEco/economy/EconomyManager.java:405 | one event is appended and nothing else changes |
| `Economy.EconomyManager.CreateAccount` | src/main/java/org/frizzlenpop/frizzlenEco/economy/EconomyManager.java:256-280 | result and new state are those of `Ledger.CreateAccount`; currencies and default unchanged |
| `Economy.EconomyManager.Withdraw` | src/main/java/org/frizzlenpop/frizzlenEco/economy/EconomyManager.java:289-325 | result and new state are those of `Ledger.Withdraw`; the account maps are unchanged; currencies and default unchanged |
| `Economy.EconomyManager.Deposit` | src/main/java/org/frizzlenpop/frizzlenEco/economy/EconomyManager.java:334-370 | result and new state are those of `Ledger.Deposit`; currencies and default unchanged |
| `Economy.EconomyManager.Credit` | src/main/java/org/frizzlenpop/frizzlenEco/economy/EconomyManager.java:351-369 | on an existing account: refused exactly when the new balance would pass the maximum, and then nothing changes; otherwise the commit of `Ledger.Commit` with an increase and a deposit announced |
| `Economy.EconomyManager.Transfer` | src/main/java/org/frizzlenpop/frizzlenEco/economy/EconomyManager.java:380-408 | result and new state are those of `Ledger.Transfer`; currencies and default unchanged |
| `Vault.VaultCurrencyAdapter.constructor` | src/main/java/org/frizzlenpop/frizzlenEco/vault/VaultCurrencyAdapter.java:24-27 | no preferences |
| `Vault.VaultCurrencyAdapter.GetPlayerCurrency` | src/main/java/org/frizzlenpop/frizzlenEco/vault/VaultCurrencyAdapter.java:36-39 | the stored preference (a stored null included), else the default |
| `Vault.VaultCurrencyAdapter.SetPlayerCurrency` | src/main/java/org/frizzlenpop/frizzlenEco/vault/VaultCurrencyAdapter.java:47-49 | the player's lookup now gives the currency; every other player's lookup is unchanged |
| `Vault.VaultCurrencyAdapter.ResetPlayerCurrency` | src/main/java/org/frizzlenpop/frizzlenEco/vault/VaultCurrencyAdapter.java:56-58 | the player's lookup gives the default; only the player's entry is removed |
| `Vault.VaultCurrencyAdapter.ClearPreferences` | src/main/java/org/frizzlenpop/frizzlenEco/vault/VaultCurrencyAdapter.java:80-82 | every player's lookup gives the default |
| `Vault.FirstWithIdIsFirst` | src/main/java/org/frizzlenpop/frizzlenEco/vault/VaultCurrencyAdapter.java:67-74 | the search finds nothing exactly when no currency has the id; a currency found has the id and no earlier one has it |
| `Vault.GetCurrencyById` | src/main/java/org/frizzlenpop/frizzlenEco/vault/VaultCurrencyAdapter.java:67-74 | the loop returns the first currency with the id, else the default |
| `Vault.LookupAgreesWithMap` | src/main/java/org/frizzlenpop/frizzlenEco/vault/VaultCurrencyAdapter.java:67-74 | over the values of a map keyed by id, the search finds the currency stored under the id whatever the iteration order |
| `Metrics.AddEach32IsWrappedSum` | src/main/java/org/frizzlenpop/frizzlenEco/metrics/MetricsManager.java:86-87 | `addAndGet` step by step ends on the exact sum wrapped once to an `int` |
| `Metrics.PairsCountIsSizeSum` | src/main/java/org/frizzlenpop/frizzlenEco/metrics/MetricsManager.java:86-87 | the number of accounts is the sum of the per-player map sizes |
| `Metrics.CurrencyCountsAddUp` | src/main/java/org/frizzlenpop/frizzlenEco/metrics/MetricsManager.java:86-93 | over the ids some account carries, the per-currency counts add up to the number of accounts |
| `Metrics.TallyStep` | src/main/java/org/frizzlenpop/frizzlenEco/metrics/MetricsManager.java:89-92 | counting one more account raises its currency id's count by one and keeps the others |
| `Metrics.CountAccounts` | src/main/java/org/frizzlenpop/frizzlenEco/metrics/MetricsManager.java:86-93 | the loops count every account once in the total, and under each currency id exactly the accounts carrying it |
| `Metrics.CountPlayer` | src/main/java/org/frizzlenpop/frizzlenEco/metrics/MetricsManager.java:89-92 | the inner loop adds exactly one player's accounts to the per-currency counts |
| `Metrics.WrapCounts` | src/main/java/org/frizzlenpop/frizzlenEco/metrics/MetricsManager.java:89-92 | the same ids, each count wrapped to an `int` |
| `Metrics.MetricKey` | src/main/java/org/frizzlenpop/frizzlenEco/metrics/MetricsManager.java:108 | the key is the type ("null" when missing), then "_", then the id: its length is the sum, it starts with the type, '_' follows, and the rest is the id |
| `Metrics.MetricKeysCanCollide` | src/main/java/org/frizzlenpop/frizzlenEco/metrics/MetricsManager.java:108 | ("a_b", "c") and ("a", "b_c") share a key |
| `Metrics.Units` | src/main/java/org/frizzlenpop/frizzlenEco/metrics/MetricsManager.java:115 | the units are a `long` |
| `Metrics.UnitsTruncate` | src/main/java/org/frizzlenpop/frizzlenEco/metrics/MetricsManager.java:115 | within the `long` range, the units are the shifted amount truncated toward zero |
| `Metrics.UnitsExample` | src/main/java/org/frizzlenpop/frizzlenEco/metrics/MetricsManager.java:115 | 10.555 at two decimals is 1055 units |
| `Metrics.RecordedEffect` | src/main/java/org/frizzlenpop/frizzlenEco/metrics/MetricsManager.java:102-121 | disabled or no currency: nothing changes. Otherwise the key's count rises by exactly one; with an amount, its volume rises by the units (without overflow); every other key keeps its count and volume |
| `Metrics.RecordedWellFormed` | src/main/java/org/frizzlenpop/frizzlenEco/metrics/MetricsManager.java:111-117 | every count stays an `int` and every volume a `long` |
| `Metrics.RecordAllCounts` | src/main/java/org/frizzlenpop/frizzlenEco/metrics/MetricsManager.java:111-112 | after n transactions under one key, its count is the old count plus n, as an `int` |
| `Metrics.MetricsManager.constructor` | src/main/java/org/frizzlenpop/frizzlenEco/metrics/MetricsManager.java:24-27 | all counters start empty or zero |
| `Metrics.MetricsManager.ResetMetrics` | src/main/java/org/frizzlenpop/frizzlenEco/metrics/MetricsManager.java:65-70 | all counters back to empty or zero |
| `Metrics.MetricsManager.UpdateAccountMetrics` | src/main/java/org/frizzlenpop/frizzlenEco/metrics/MetricsManager.java:76-94 | null changes nothing. Otherwise the total is the number of accounts and each currency id some account carries counts the accounts carrying it, both as `int`s; transaction counters are untouched |
| `Metrics.MetricsManager.RecordTransaction` | src/main/java/org/frizzlenpop/frizzlenEco/metrics/MetricsManager.java:102-121 | the transaction counters become `Recorded` of the old ones; account counters are untouched |

## Left out

- Database and configuration I/O are not part of this model. `saveAccount` is the ghost `saved` map; `saveCurrency` and logging have no effect here.
- Loading accounts from the database and `initialize` / `shutdown` are not part of this model.
- `loadCurrencies` takes the configuration as a sequence of records.
  - A value of the wrong type (a failed cast) is not modelled.
  - `Economy.EconomyManager.LoadCurrencies`: an entry whose amount is not a number is skipped (`ConfigCurrency` gives None). The program behaves differently. `ConfigManager.getCurrencyConfigs` already builds every amount with `new BigDecimal` (config/ConfigManager.java:239-242). It is called at economy/EconomyManager.java:85, outside the per-entry handler. So one malformed amount throws before any entry is loaded, after the currencies and the default were cleared (lines 81-82). `initialize` then catches it and reports failure (lines 58-61). Failing initialisation is not part of this model.
- The order in which the `currencies` map yields its first entry is left to the map implementation. `LoadCurrencies` promotes some loaded currency and says which one only up to that choice.
- Concurrency (`ConcurrentHashMap`, atomic counters, the asynchronous stats task) is not modelled: every operation runs alone.
- Bukkit's event bus is modelled as a ghost log of events. Listeners are not modelled.
- The clock is a parameter `now`. `AccountHolder`'s constructor reads the clock twice; the model uses one `now` for both readings. `transfer` uses one `now` for all its legs.
- `Bukkit.getOfflinePlayer(...).getName()` becomes the parameter `names`: the names the server knows.
- Query arguments (`hasAccount`, `getBalance`, `has`, `getPlayerAccounts`) are taken as non-null. In the source a null currency throws `NullPointerException`.
- Currency ids are non-null strings.
- `Economy.EconomyManager.GetPlayerAccounts` returns the player's map as a value. The source returns the live map, so callers could modify the ledger through it; that aliasing is not modelled.
- `Ledger.BoundsPreserved` holds only for currencies with `SaneBounds`: initial balance and zero within the bounds. The program accepts any configured bounds, and outside them it breaks the bounds. A deposit opens a missing account at zero and checks only the maximum (`Ledger.DepositCanEndBelowMinimum`). `createAccount` checks neither bound (`Ledger.CreateAccountCanExceedMaximum`).
- `Economy.EconomyManager.Transfer` does not state that the account objects it adds are fresh (`Withdraw` and `Deposit` do).
- `Currency.format` interprets only `%s` and `%%`. Any other template gives None rather than `String.format`'s output or exception.
- `Currency.toString` and the getters are not modelled. The getters return the record's fields, which Dafny exposes directly.
- `formatDecimal`'s `NumberFormat` printing (grouping separators, locale) is not modelled. Only its rounding step is (`EconomyUtil.RoundForDisplay`).
- `EconomyUtil.getPlayer` (a Bukkit lookup) is not modelled.
- `parseAmount(null)` is not modelled: the text is a string.
- `Decimal.Parse` accepts ASCII digits only, while `new BigDecimal(String)` also accepts other Unicode digits.
- `movePointRight`'s `ArithmeticException` for a scale beyond an `int` is not modelled.
- `MetricsManager.logStats`, its scheduling, `initialize` and `shutdown` are not modelled.
- Whether metrics are enabled is a parameter of `RecordTransaction`.
- `Metrics.MetricsManager.UpdateAccountMetrics` counts exactly and wraps each counter once at the end. The source wraps at every `addAndGet`; `Metrics.AddEach32IsWrappedSum` proves the two agree.
- The source's `BigDecimal` amounts are exact. `double`, which only the Vault provider uses, is not part of this model.
