/**
 * The ledger object: the loaded currencies, the default one, and every player's accounts keyed
 * by player and currency id. Each operation is proved to change the ledger exactly as the
 * matching function of module Ledger says; the database and the event bus are the ghost
 * `saved` map and `events` log.
 */
module Economy {
  import opened Wrappers
  import opened Decimal
  import opened Uuids
  import opened Currencies
  import opened Events
  import opened Accounts
  import opened Ledger

  // ---------------------------------------------------------------------------------------------
  // Loading currencies

  /**
   * One entry of the configured currency list. The four amounts are kept as the text their
   * configuration values print as, which is what `new BigDecimal` reads.
   */
  datatype CurrencyConfig = CurrencyConfig(
    id: string, name: string, symbol: string, format: string, decimalPlaces: int, isDefault: bool,
    initialBalance: string, minBalance: string, maxBalance: string, interestRate: string,
    allowNegative: bool, isEnabled: bool)

  /** The currency a configuration entry describes, or None when one of its amounts is not a number. */
  function ConfigCurrency(cfg: CurrencyConfig): Option<Currency> {
    match (Parse(cfg.initialBalance), Parse(cfg.minBalance), Parse(cfg.maxBalance), Parse(cfg.interestRate))
    case (Some(initial), Some(min), Some(max), Some(rate)) =>
      Some(Currency(cfg.id, cfg.name, cfg.symbol, cfg.format, cfg.decimalPlaces, cfg.isDefault,
                    Value(initial.unscaled, initial.scale), Value(min.unscaled, min.scale),
                    Value(max.unscaled, max.scale), Value(rate.unscaled, rate.scale),
                    cfg.allowNegative, cfg.isEnabled))
    case _ => None
  }

  /** The currencies the entries load, keyed by id; a later entry replaces an earlier one with the same id. */
  function Loaded(configs: seq<CurrencyConfig>): map<string, Currency> {
    if configs == [] then map[]
    else
      var before := Loaded(configs[..|configs| - 1]);
      match ConfigCurrency(configs[|configs| - 1])
      case None => before
      case Some(c) => before[c.id := c]
  }

  /** The last loaded entry that is marked default, if any. */
  function LastDefault(configs: seq<CurrencyConfig>): Option<Currency> {
    if configs == [] then None
    else
      var before := LastDefault(configs[..|configs| - 1]);
      match ConfigCurrency(configs[|configs| - 1])
      case Some(c) => if c.isDefault then Some(c) else before
      case None => before
  }

  /**
   * Every entry that loads is present under its id, every currency is keyed by its own id, and
   * the default picked while loading is marked default and is present under its id.
   */
  lemma {:induction false} LoadedFacts(configs: seq<CurrencyConfig>)
    ensures forall id | id in Loaded(configs) :: Loaded(configs)[id].id == id
    ensures forall i | 0 <= i < |configs| && ConfigCurrency(configs[i]).Some? ::
              ConfigCurrency(configs[i]).value.id in Loaded(configs)
    ensures LastDefault(configs).Some? ==>
              LastDefault(configs).value.isDefault && LastDefault(configs).value.id in Loaded(configs)
  {
    if configs != [] {
      var prefix := configs[..|configs| - 1];
      LoadedFacts(prefix);
      forall i | 0 <= i < |configs| && ConfigCurrency(configs[i]).Some?
        ensures ConfigCurrency(configs[i]).value.id in Loaded(configs)
      {
        if i < |configs| - 1 {
          assert configs[i] == prefix[i];
        }
      }
    }
  }

  /** The currency synthesised when no currency is configured. */
  function DefaultCoin(): Currency {
    Currency("coin", "Coin", "$", "%s%s", 2, true, 100.0, 0.0, MaxDouble(), 0.0, false, true)
  }

  /** The copy of a currency that is put back as the default when no entry was marked default. */
  function Promoted(c: Currency): (p: Currency)
    ensures p.isDefault && p.id == c.id && Equals(p, Some(c))
    ensures p == c.(isDefault := true)
  {
    Currency(c.id, c.name, c.symbol, c.format, c.decimalPlaces, true, c.initialBalance,
             c.minBalance, c.maxBalance, c.interestRate, c.allowNegative, c.isEnabled)
  }

  // ---------------------------------------------------------------------------------------------
  // The ledger

  /** What the database and the rest of the model see of an account object. */
  ghost function Snapshot(h: AccountHolder): Account
    reads h
  {
    Account(h.playerName, h.balance, h.created, h.lastTransaction)
  }

  /** `Ledger.Deposit` taken apart at the point where the account has been opened. */
  lemma DepositSteps(w0: World, w1: World, p: Uuid, x: real, c: Currency, names: Names, now: Instant,
                     balance: real)
    requires x > 0.0 && w1 == Ledger.Open(w0, p, c.id, names, now) && balance == w1.book[p][c.id].balance
    ensures Ledger.Deposit(w0, Some(p), Some(x), Some(c), names, now) ==
      if balance + x > c.maxBalance then Outcome(false, w1)
      else Outcome(true, Ledger.Commit(w1, p, c.id, balance + x, now,
                                       [BalanceChanged(BalanceChangeEvent(p, c, balance, balance + x)),
                                        Transacted(TransactionEvent(DEPOSIT, None, Some(p), c, x))]))
  {
  }

  class EconomyManager {
    var currencies: map<string, Currency>
    var accounts: map<Uuid, map<string, AccountHolder>>
    var defaultCurrency: Option<Currency>
    /** The accounts as values: what every account object holds now. */
    ghost var book: Book
    /** Every event fired so far, oldest first. */
    ghost var events: seq<Event>
    /** What the database last received for each account. */
    ghost var saved: map<(Uuid, string), Account>

    /** The account objects the ledger owns. */
    ghost var Repr: set<AccountHolder>

    /**
     * Every account object sits under its own player and currency id, and `book` holds exactly
     * what the account objects hold.
     */
    ghost predicate Valid()
      reads this, Repr
    {
      && (forall p, k :: Find(book, p, k).Some? ==> p in accounts && k in accounts[p])
      && (forall p, k | p in accounts && k in accounts[p] ::
            && accounts[p][k] in Repr && accounts[p][k].playerUuid == p && accounts[p][k].currencyId == k
            && Find(book, p, k) == Some(Snapshot(accounts[p][k])))
    }

    ghost function State(): World
      reads this
    {
      Ledger.World(book, events, saved)
    }

    /** A new ledger has no currencies, no default and no accounts. */
    constructor ()
      ensures Valid() && State() == Ledger.World(map[], [], map[])
      ensures currencies == map[] && accounts == map[] && defaultCurrency == None
    {
      currencies := map[];
      accounts := map[];
      defaultCurrency := None;
      book := map[];
      events := [];
      saved := map[];
      Repr := {};
    }

    /**
     * `loadCurrencies`: replaces the currencies and the default. With no entries it installs the
     * coin currency as the default, built with the builder. Otherwise it loads every entry whose
     * amounts are numbers (a later entry replacing an earlier one with the same id), the default
     * being the last loaded entry marked default; when there is none but something loaded, one
     * loaded currency (whichever the map yields first) is put back marked default and becomes the
     * default. Accounts are untouched.
     */
    method LoadCurrencies(configs: seq<CurrencyConfig>, randomId: string)
      modifies this
      ensures accounts == old(accounts) && State() == old(State())
      ensures configs == [] ==> currencies == map["coin" := DefaultCoin()] && defaultCurrency == Some(DefaultCoin())
      ensures configs != [] && LastDefault(configs).Some? ==>
                currencies == Loaded(configs) && defaultCurrency == LastDefault(configs)
      ensures configs != [] && LastDefault(configs).None? && Loaded(configs) == map[] ==>
                currencies == map[] && defaultCurrency == None
      ensures configs != [] && LastDefault(configs).None? && Loaded(configs) != map[] ==>
                exists c :: c in Loaded(configs).Values && currencies == Loaded(configs)[c.id := Promoted(c)]
                            && defaultCurrency == Some(Promoted(c))
      ensures defaultCurrency.Some? <==> currencies != map[]
      ensures defaultCurrency.Some? ==> defaultCurrency.value.isDefault && defaultCurrency.value.id in currencies
      ensures forall id | id in currencies :: currencies[id].id == id
    {
      currencies := map[];
      defaultCurrency := None;
      if |configs| == 0 {
        var builder := new CurrencyBuilder(randomId);
        builder := builder.Id("coin");
        builder := builder.Name("Coin");
        builder := builder.Symbol("$");
        builder := builder.Format("%s%s");
        builder := builder.DecimalPlaces(2);
        builder := builder.IsDefault(true);
        builder := builder.InitialBalance(100.0);
        var coin := builder.Build();
        currencies := currencies[coin.id := coin];
        defaultCurrency := Some(coin);
        assert coin.id in currencies;
      } else {
        var i := 0;
        while i < |configs|
          invariant 0 <= i <= |configs|
          invariant currencies == Loaded(configs[..i]) && defaultCurrency == LastDefault(configs[..i])
          invariant accounts == old(accounts) && State() == old(State())
        {
          assert configs[..i + 1][..i] == configs[..i];
          match ConfigCurrency(configs[i]) {
            case Some(c) =>
              currencies := currencies[c.id := c];
              if c.isDefault {
                defaultCurrency := Some(c);
              }
            case None =>
          }
          i := i + 1;
        }
        assert configs[..i] == configs;
        LoadedFacts(configs);
        if defaultCurrency.None? && currencies != map[] {
          var someId :| someId in currencies;
          var first := currencies[someId];
          var promoted := Promoted(first);
          currencies := currencies[promoted.id := promoted];
          defaultCurrency := Some(promoted);
          assert promoted.id in currencies;
        }
      }
    }

    /** `hasAccount`: whether the player has an account in the currency; nothing is inserted. */
    function HasAccount(player: Uuid, currency: Currency): (r: bool)
      requires Valid()
      reads this, Repr
      ensures r == Ledger.HasAccount(book, player, currency.id)
    {
      player in accounts && currency.id in accounts[player]
    }

    /** `getBalance`: the account's balance, zero without an account; nothing is inserted. */
    function GetBalance(player: Uuid, currency: Currency): (r: real)
      requires Valid()
      reads this, Repr
      ensures r == BalanceOf(book, player, currency.id)
    {
      if player !in accounts then 0.0
      else if currency.id !in accounts[player] then 0.0
      else accounts[player][currency.id].balance
    }

    /** `has`: whether the balance reaches the amount. */
    function Has(player: Uuid, amount: real, currency: Currency): (r: bool)
      requires Valid()
      reads this, Repr
      ensures r == Ledger.Has(book, player, amount, currency.id)
    {
      GetBalance(player, currency) >= amount
    }

    /**
     * `getPlayerAccounts`: the player's accounts by currency id (none for an unknown player),
     * each holding what the ledger records for it.
     */
    function GetPlayerAccounts(player: Uuid): (r: map<string, AccountHolder>)
      requires Valid()
      reads this, Repr
      ensures forall k :: k in r <==> Ledger.HasAccount(book, player, k)
      ensures forall k | k in r :: r[k].playerUuid == player && r[k].currencyId == k
                                  && Find(book, player, k) == Some(Snapshot(r[k]))
    {
      if player in accounts then accounts[player] else map[]
    }

    /**
     * Puts a new account object for the player and currency id in place (creating the player's
     * map when needed), holding the given balance and created and last touched `now`.
     */
    method Insert(player: Uuid, playerName: Option<string>, currencyId: string, balance: real,
                  now: Instant) returns (account: AccountHolder)
      requires Valid() && Find(book, player, currencyId).None?
      modifies this
      ensures currencies == old(currencies) && defaultCurrency == old(defaultCurrency)
      ensures Valid() && fresh(account) && Repr == old(Repr) + {account}
      ensures player in accounts && currencyId in accounts[player] && accounts[player][currencyId] == account
      ensures State() == old(State()).(book := Put(old(book), player, currencyId,
                                                   Account(playerName, balance, now, now)))
    {
      var playerAccounts: map<string, AccountHolder> := if player in accounts then accounts[player] else map[];
      account := new AccountHolder(player, playerName, currencyId, balance, now);
      accounts, Repr, book :=
        accounts[player := playerAccounts[currencyId := account]], Repr + {account},
        Put(book, player, currencyId, Account(playerName, balance, now, now));
      forall p, k | Find(book, p, k).Some?
        ensures p in accounts && k in accounts[p]
      {
        if (p, k) != (player, currencyId) {
          assert Find(old(book), p, k).Some?;
        }
      }
      forall p, k | p in accounts && k in accounts[p]
        ensures accounts[p][k] in Repr && accounts[p][k].playerUuid == p && accounts[p][k].currencyId == k
        ensures Find(book, p, k) == Some(Snapshot(accounts[p][k]))
      {
        if (p, k) != (player, currencyId) {
          assert accounts[p][k] == old(accounts)[p][k];
          assert Find(book, p, k) == Find(old(book), p, k);
        }
      }
    }

    /**
     * Gives an existing account a new balance (which also records `now` as its last
     * transaction), hands it to the database and fires the given events.
     */
    method Commit(player: Uuid, currencyId: string, newBalance: real, now: Instant, fired: seq<Event>)
      requires Valid() && player in accounts && currencyId in accounts[player]
      modifies this, accounts[player][currencyId]
      ensures currencies == old(currencies) && defaultCurrency == old(defaultCurrency)
      ensures Valid() && accounts == old(accounts) && Repr == old(Repr)
      ensures Find(old(book), player, currencyId).Some?
      ensures State() == Ledger.Commit(old(State()), player, currencyId, newBalance, now, fired)
    {
      var account := accounts[player][currencyId];
      assert Find(book, player, currencyId) == Some(Snapshot(account));
      account.SetBalance(newBalance, now);
      book, saved, events :=
        Put(book, player, currencyId, Snapshot(account)), saved[(player, currencyId) := Snapshot(account)],
        events + fired;
    }

    /** The get-or-create step of `deposit`, as `Ledger.Open` describes it. */
    method Prepare(player: Uuid, currencyId: string, names: Names, now: Instant) returns (balance: real)
      requires Valid()
      modifies this
      ensures currencies == old(currencies) && defaultCurrency == old(defaultCurrency)
      ensures Valid() && fresh(Repr - old(Repr))
      ensures player in accounts && currencyId in accounts[player]
      ensures State() == Ledger.Open(old(State()), player, currencyId, names, now)
      ensures balance == book[player][currencyId].balance
    {
      if !(player in accounts && currencyId in accounts[player]) {
        var created := Insert(player, NameOf(names, player), currencyId, 0.0, now);
      }
      balance := accounts[player][currencyId].balance;
    }

    /** Fires one event; nothing else changes. */
    method Announce(e: Event)
      requires Valid()
      modifies this
      ensures currencies == old(currencies) && defaultCurrency == old(defaultCurrency)
      ensures Valid() && accounts == old(accounts) && Repr == old(Repr)
      ensures State() == old(State()).(events := old(events) + [e])
    {
      events := events + [e];
    }

    /** `createAccount`, as `Ledger.CreateAccount` describes it. */
    method CreateAccount(player: Option<Uuid>, playerName: Option<string>, currency: Option<Currency>,
                         now: Instant) returns (ok: bool)
      requires Valid()
      modifies this
      ensures currencies == old(currencies) && defaultCurrency == old(defaultCurrency)
      ensures Valid() && fresh(Repr - old(Repr))
      ensures Outcome(ok, State()) == Ledger.CreateAccount(old(State()), player, playerName, currency, now)
    {
      if player.None? || currency.None? {
        return false;
      }
      var p, c := player.value, currency.value;
      if p in accounts && c.id in accounts[p] {
        return true;
      }
      var account := Insert(p, playerName, c.id, c.initialBalance, now);
      saved, events :=
        saved[(p, c.id) := Account(playerName, c.initialBalance, now, now)],
        events + [BalanceChanged(BalanceChangeEvent(p, c, 0.0, c.initialBalance))];
      ok := true;
    }

    /** `withdraw`, as `Ledger.Withdraw` describes it; no account is ever added. */
    method Withdraw(player: Option<Uuid>, amount: Option<real>, currency: Option<Currency>,
                    now: Instant) returns (ok: bool)
      requires Valid()
      modifies this, Repr
      ensures currencies == old(currencies) && defaultCurrency == old(defaultCurrency)
      ensures Valid() && accounts == old(accounts) && Repr == old(Repr)
      ensures Outcome(ok, State()) == Ledger.Withdraw(old(State()), player, amount, currency, now)
    {
      if player.None? || amount.None? || currency.None? || amount.value <= 0.0 {
        return false;
      }
      var p, x, c := player.value, amount.value, currency.value;
      if p !in accounts {
        return false;
      }
      var playerAccounts := accounts[p];
      if c.id !in playerAccounts {
        return false;
      }
      var currentBalance := playerAccounts[c.id].balance;
      var newBalance := currentBalance - x;
      if !c.allowNegative && newBalance < c.minBalance {
        return false;
      }
      Commit(p, c.id, newBalance, now,
             [BalanceChanged(BalanceChangeEvent(p, c, currentBalance, newBalance)),
              Transacted(TransactionEvent(WITHDRAW, Some(p), None, c, x))]);
      ok := true;
    }

    /**
     * `deposit`, as `Ledger.Deposit` describes it. `names` is the server's record of player
     * names, consulted for an account created on the fly.
     */
    method Deposit(player: Option<Uuid>, amount: Option<real>, currency: Option<Currency>,
                   names: Names, now: Instant) returns (ok: bool)
      requires Valid()
      modifies this, Repr
      ensures currencies == old(currencies) && defaultCurrency == old(defaultCurrency)
      ensures Valid() && fresh(Repr - old(Repr))
      ensures Outcome(ok, State()) == Ledger.Deposit(old(State()), player, amount, currency, names, now)
    {
      if player.None? || amount.None? || currency.None? || amount.value <= 0.0 {
        return false;
      }
      var p, x, c := player.value, amount.value, currency.value;
      ghost var w0 := State();
      var currentBalance := Prepare(p, c.id, names, now);
      ghost var w1 := State();
      DepositSteps(w0, w1, p, x, c, names, now, currentBalance);
      ok := Credit(p, x, c, currentBalance, now);
    }

    /**
     * The rest of `deposit` once the account exists: refused when the new balance would pass
     * the currency's maximum, otherwise the balance is raised and the change announced.
     */
    method Credit(p: Uuid, x: real, c: Currency, currentBalance: real, now: Instant) returns (ok: bool)
      requires Valid() && p in accounts && c.id in accounts[p]
      requires currentBalance == book[p][c.id].balance
      modifies this, Repr
      ensures currencies == old(currencies) && defaultCurrency == old(defaultCurrency)
      ensures Valid() && accounts == old(accounts) && Repr == old(Repr)
      ensures !ok <==> currentBalance + x > c.maxBalance
      ensures !ok ==> State() == old(State())
      ensures ok ==> State() == Ledger.Commit(old(State()), p, c.id, currentBalance + x, now,
                                              [BalanceChanged(BalanceChangeEvent(p, c, currentBalance, currentBalance + x)),
                                               Transacted(TransactionEvent(DEPOSIT, None, Some(p), c, x))])
    {
      var newBalance := currentBalance + x;
      if newBalance > c.maxBalance {
        return false;
      }
      Commit(p, c.id, newBalance, now,
             [BalanceChanged(BalanceChangeEvent(p, c, currentBalance, newBalance)),
              Transacted(TransactionEvent(DEPOSIT, None, Some(p), c, x))]);
      ok := true;
    }

    /** `transfer`, as `Ledger.Transfer` describes it: a withdrawal, a deposit, and a refund on failure. */
    method Transfer(from: Option<Uuid>, to: Option<Uuid>, amount: Option<real>, currency: Option<Currency>,
                    names: Names, now: Instant) returns (ok: bool)
      requires Valid()
      modifies this, Repr
      ensures currencies == old(currencies) && defaultCurrency == old(defaultCurrency)
      ensures Valid()
      ensures Outcome(ok, State()) == Ledger.Transfer(old(State()), from, to, amount, currency, names, now)
    {
      if from.None? || to.None? || amount.None? || currency.None? || amount.value <= 0.0 {
        return false;
      }
      if from.value == to.value {
        return false;
      }
      var withdrawn := Withdraw(from, amount, currency, now);
      if !withdrawn {
        return false;
      }
      var deposited := Deposit(to, amount, currency, names, now);
      if !deposited {
        var refunded := Deposit(from, amount, currency, names, now);
        return false;
      }
      Announce(Transacted(TransactionEvent(TRANSFER, from, to, currency.value, amount.value)));
      ok := true;
    }
  }
}
