/**
 * What the ledger's operations do, stated on values: the accounts as a map from player to
 * currency id to account state, the events announced so far, and what was last handed to the
 * database for each account. The class in module Economy is proved to follow these functions;
 * the lemmas here state what the functions promise.
 */
module Ledger {
  import opened Wrappers
  import opened Uuids
  import opened Currencies
  import opened Events
  import opened Accounts

  /** The state of one account: the fields of an `AccountHolder` besides its keys. */
  datatype Account = Account(playerName: Option<string>, balance: real, created: Instant,
                             lastTransaction: Instant)

  /** Player UUID to currency id to account. */
  type Book = map<Uuid, map<string, Account>>

  /** An event handed to the server's event bus. */
  datatype Event = BalanceChanged(change: BalanceChangeEvent) | Transacted(transaction: TransactionEvent)

  /**
   * The ledger as the rest of the system sees it: the accounts, every event fired so far, and
   * the account state the database last received for each (player, currency id).
   */
  datatype World = World(book: Book, events: seq<Event>, saved: map<(Uuid, string), Account>)

  /** The names the server knows for players; a player it has never seen has none. */
  type Names = map<Uuid, string>

  /** The player's name as the server reports it, None (null) when unknown. */
  function NameOf(names: Names, player: Uuid): Option<string> {
    if player in names then Some(names[player]) else None
  }

  /** Whether an operation succeeded, and the world after it. */
  datatype Outcome = Outcome(ok: bool, world: World)

  // ---------------------------------------------------------------------------------------------
  // Queries

  function Find(book: Book, player: Uuid, currencyId: string): Option<Account> {
    if player in book && currencyId in book[player] then Some(book[player][currencyId]) else None
  }

  /** `hasAccount`: false when the player has no accounts or none in this currency. */
  predicate HasAccount(book: Book, player: Uuid, currencyId: string) {
    Find(book, player, currencyId).Some?
  }

  /** `getBalance`: the account's balance, or zero when there is no such account. */
  function BalanceOf(book: Book, player: Uuid, currencyId: string): real {
    match Find(book, player, currencyId)
    case Some(a) => a.balance
    case None => 0.0
  }

  /** `has`: whether the balance (zero without an account) reaches the amount. */
  predicate Has(book: Book, player: Uuid, amount: real, currencyId: string) {
    BalanceOf(book, player, currencyId) >= amount
  }

  /** The book with one account put in place, the player's other accounts kept. */
  function Put(book: Book, player: Uuid, currencyId: string, a: Account): (r: Book)
    ensures Find(r, player, currencyId) == Some(a)
    ensures forall q, k :: (q, k) != (player, currencyId) ==> Find(r, q, k) == Find(book, q, k)
  {
    book[player := (if player in book then book[player] else map[])[currencyId := a]]
  }

  /** An absent account reads as balance zero, and a missing player has no accounts. */
  lemma AbsentAccountIsZero(book: Book, player: Uuid, currencyId: string, amount: real)
    ensures !HasAccount(book, player, currencyId) ==> BalanceOf(book, player, currencyId) == 0.0
    ensures player !in book ==> !HasAccount(book, player, currencyId)
    ensures !HasAccount(book, player, currencyId) ==> (Has(book, player, amount, currencyId) <==> amount <= 0.0)
  {
  }

  /** Two books agree on every account except possibly one. */
  ghost predicate OthersUnchanged(before: Book, after: Book, player: Uuid, currencyId: string) {
    forall q, k :: (q, k) != (player, currencyId) ==> Find(after, q, k) == Find(before, q, k)
  }

  // ---------------------------------------------------------------------------------------------
  // Operations

  /**
   * `createAccount`: refused without a player or a currency; an existing account is kept as it
   * is (and the call still succeeds); otherwise a new account starts at the currency's initial
   * balance, is saved, and a change from zero to that balance is announced.
   */
  function CreateAccount(w: World, player: Option<Uuid>, playerName: Option<string>,
                         currency: Option<Currency>, now: Instant): Outcome
  {
    if player.None? || currency.None? then Outcome(false, w)
    else
      var p, c := player.value, currency.value;
      if HasAccount(w.book, p, c.id) then Outcome(true, w)
      else
        var a := Account(playerName, c.initialBalance, now, now);
        Outcome(true, World(Put(w.book, p, c.id, a),
                            w.events + [BalanceChanged(BalanceChangeEvent(p, c, 0.0, c.initialBalance))],
                            w.saved[(p, c.id) := a]))
  }

  /**
   * The common end of a successful withdrawal or deposit: the account gets its new balance and
   * `now` as its last transaction, is saved, and the given events are fired.
   */
  function Commit(w: World, player: Uuid, currencyId: string, newBalance: real, now: Instant,
                  fired: seq<Event>): World
    requires HasAccount(w.book, player, currencyId)
  {
    var a := w.book[player][currencyId].(balance := newBalance, lastTransaction := now);
    World(Put(w.book, player, currencyId, a), w.events + fired, w.saved[(player, currencyId) := a])
  }

  /**
   * `withdraw`: refused without a player, amount or currency, for an amount that is not
   * positive, without an account, and when the result would fall below the minimum balance
   * unless the currency allows negative balances. Otherwise the balance drops by the amount,
   * the account is saved, and a balance change and a withdrawal are announced.
   */
  function Withdraw(w: World, player: Option<Uuid>, amount: Option<real>,
                    currency: Option<Currency>, now: Instant): Outcome
  {
    if player.None? || amount.None? || currency.None? || amount.value <= 0.0 then Outcome(false, w)
    else
      var p, x, c := player.value, amount.value, currency.value;
      if !HasAccount(w.book, p, c.id) then Outcome(false, w)
      else
        var balance := w.book[p][c.id].balance;
        var newBalance := balance - x;
        if !c.allowNegative && newBalance < c.minBalance then Outcome(false, w)
        else
          Outcome(true, Commit(w, p, c.id, newBalance, now,
                               [BalanceChanged(BalanceChangeEvent(p, c, balance, newBalance)),
                                Transacted(TransactionEvent(WITHDRAW, Some(p), None, c, x))]))
  }

  /**
   * The first step of `deposit`: a missing account is created with balance zero under the name
   * the server knows for the player, if any; it is neither saved nor announced.
   */
  function Open(w: World, player: Uuid, currencyId: string, names: Names,
                now: Instant): (r: World)
    ensures HasAccount(r.book, player, currencyId)
  {
    if HasAccount(w.book, player, currencyId) then w
    else w.(book := Put(w.book, player, currencyId, Account(NameOf(names, player), 0.0, now, now)))
  }

  /**
   * `deposit`: refused without a player, amount or currency and for an amount that is not
   * positive. Otherwise a missing account is opened first, and stays even when the deposit is
   * then refused. The deposit is refused when the result would exceed the maximum balance;
   * otherwise the balance rises by the amount, the account is saved, and a balance change and a
   * deposit are announced.
   */
  function Deposit(w: World, player: Option<Uuid>, amount: Option<real>,
                   currency: Option<Currency>, names: Names, now: Instant): Outcome
  {
    if player.None? || amount.None? || currency.None? || amount.value <= 0.0 then Outcome(false, w)
    else
      var p, x, c := player.value, amount.value, currency.value;
      var w1 := Open(w, p, c.id, names, now);
      var balance := w1.book[p][c.id].balance;
      var newBalance := balance + x;
      if newBalance > c.maxBalance then Outcome(false, w1)
      else
        Outcome(true, Commit(w1, p, c.id, newBalance, now,
                             [BalanceChanged(BalanceChangeEvent(p, c, balance, newBalance)),
                              Transacted(TransactionEvent(DEPOSIT, None, Some(p), c, x))]))
  }

  /**
   * `transfer`: refused without both players, an amount and a currency, for an amount that is
   * not positive, and between a player and themself. A withdrawal from the payer comes first;
   * if it is refused, so is the transfer. Then a deposit to the payee; if that is refused, the
   * amount is deposited back to the payer (whatever that gives) and the transfer is refused.
   * Otherwise a transfer is announced.
   */
  function Transfer(w: World, from: Option<Uuid>, to: Option<Uuid>, amount: Option<real>,
                    currency: Option<Currency>, names: Names, now: Instant): Outcome
  {
    if from.None? || to.None? || amount.None? || currency.None? || amount.value <= 0.0 then Outcome(false, w)
    else if from.value == to.value then Outcome(false, w)
    else
      var withdrawn := Withdraw(w, from, amount, currency, now);
      if !withdrawn.ok then Outcome(false, w)
      else
        var deposited := Deposit(withdrawn.world, to, amount, currency, names, now);
        if !deposited.ok then
          Outcome(false, Deposit(deposited.world, from, amount, currency, names, now).world)
        else
          var event := Transacted(TransactionEvent(TRANSFER, from, to, currency.value, amount.value));
          Outcome(true, deposited.world.(events := deposited.world.events + [event]))
  }

  // ---------------------------------------------------------------------------------------------
  // What the operations promise

  /**
   * `createAccount` succeeds exactly when given a player and a currency. A new account holds the
   * initial balance and nothing else changes; an existing one is left exactly as it was.
   */
  lemma CreateAccountEffect(w: World, player: Option<Uuid>, name: Option<string>,
                            currency: Option<Currency>, now: Instant)
    ensures CreateAccount(w, player, name, currency, now).ok <==> player.Some? && currency.Some?
    ensures player.Some? && currency.Some? ==>
      var r := CreateAccount(w, player, name, currency, now).world.book;
      var p, c := player.value, currency.value;
      && HasAccount(r, p, c.id)
      && OthersUnchanged(w.book, r, p, c.id)
      && (HasAccount(w.book, p, c.id) ==> CreateAccount(w, player, name, currency, now).world == w)
      && (!HasAccount(w.book, p, c.id) ==> BalanceOf(r, p, c.id) == c.initialBalance)
  {
  }

  /** Creating an account twice is the same as creating it once. */
  lemma CreateAccountIdempotent(w: World, player: Option<Uuid>, name: Option<string>, name2: Option<string>,
                                currency: Option<Currency>, now: Instant, later: Instant)
    ensures var once := CreateAccount(w, player, name, currency, now);
            CreateAccount(once.world, player, name2, currency, later) == once
  {
    var once := CreateAccount(w, player, name, currency, now);
    if player.Some? && currency.Some? {
      assert HasAccount(once.world.book, player.value, currency.value.id);
    }
  }

  /**
   * A refused withdrawal changes nothing, and no withdrawal creates an account. A successful one
   * lowers the balance by exactly the amount, leaves it at or above the minimum unless negative
   * balances are allowed, touches no other account, and announces a decrease by the amount.
   */
  lemma WithdrawEffect(w: World, player: Option<Uuid>, amount: Option<real>,
                       currency: Option<Currency>, now: Instant)
    ensures var r := Withdraw(w, player, amount, currency, now);
      && (!r.ok ==> r.world == w)
      && (forall q, k :: HasAccount(r.world.book, q, k) <==> HasAccount(w.book, q, k))
      && (r.ok <==> player.Some? && amount.Some? && currency.Some? && amount.value > 0.0
                    && HasAccount(w.book, player.value, currency.value.id)
                    && (currency.value.allowNegative
                        || BalanceOf(w.book, player.value, currency.value.id) - amount.value >= currency.value.minBalance))
      && (r.ok ==>
            var p, x, c := player.value, amount.value, currency.value;
            && BalanceOf(r.world.book, p, c.id) == BalanceOf(w.book, p, c.id) - x
            && (!c.allowNegative ==> BalanceOf(r.world.book, p, c.id) >= c.minBalance)
            && OthersUnchanged(w.book, r.world.book, p, c.id)
            && |r.world.events| == |w.events| + 2
            && r.world.events[|w.events|].BalanceChanged?
            && r.world.events[|w.events|].change.Difference() == -x
            && r.world.events[|w.events|].change.IsDecrease()
            && r.world.events[|w.events| + 1].Transacted?
            && r.world.events[|w.events| + 1].transaction.IsWithdraw())
  {
    var r := Withdraw(w, player, amount, currency, now);
    if r.ok {
      var p, c := player.value, currency.value;
      forall q, k ensures HasAccount(r.world.book, q, k) <==> HasAccount(w.book, q, k) {
        if (q, k) != (p, c.id) {
          assert Find(r.world.book, q, k) == Find(w.book, q, k);
        }
      }
    }
  }

  /**
   * A deposit with a player, a currency and a positive amount always leaves the player with an
   * account in that currency (a missing one is created at zero, even when the deposit is then
   * refused). A refused deposit changes no balance; a successful one raises the balance (zero
   * for a new account) by exactly the amount and leaves it at or below the maximum, with no
   * minimum-balance check. No other account changes, and a success announces an increase.
   */
  lemma DepositEffect(w: World, player: Option<Uuid>, amount: Option<real>,
                      currency: Option<Currency>, names: Names, now: Instant)
    ensures var r := Deposit(w, player, amount, currency, names, now);
      && (!(player.Some? && amount.Some? && currency.Some? && amount.value > 0.0) ==> r == Outcome(false, w))
      && (player.Some? && amount.Some? && currency.Some? && amount.value > 0.0 ==>
            var p, x, c := player.value, amount.value, currency.value;
            && HasAccount(r.world.book, p, c.id)
            && OthersUnchanged(w.book, r.world.book, p, c.id)
            && (r.ok <==> BalanceOf(w.book, p, c.id) + x <= c.maxBalance)
            && (!r.ok ==> BalanceOf(r.world.book, p, c.id) == BalanceOf(w.book, p, c.id)
                          && r.world.events == w.events && r.world.saved == w.saved)
            && (!r.ok && HasAccount(w.book, p, c.id) ==> r.world == w)
            && (r.ok ==> BalanceOf(r.world.book, p, c.id) == BalanceOf(w.book, p, c.id) + x
                         && BalanceOf(r.world.book, p, c.id) <= c.maxBalance
                         && |r.world.events| == |w.events| + 2
                         && r.world.events[|w.events|].BalanceChanged?
                         && r.world.events[|w.events|].change.Difference() == x
                         && r.world.events[|w.events|].change.IsIncrease()
                         && r.world.events[|w.events| + 1].Transacted?
                         && r.world.events[|w.events| + 1].transaction.IsDeposit()))
  {
  }

  /**
   * A successful transfer moves exactly the amount from the payer to the payee: the payer's
   * balance drops by it, the payee's rises by it, their sum is preserved, and every other account
   * is untouched. Announced last is the transfer itself.
   */
  lemma TransferConserves(w: World, from: Uuid, to: Uuid, amount: real, c: Currency,
                          names: Names, now: Instant)
    requires Transfer(w, Some(from), Some(to), Some(amount), Some(c), names, now).ok
    ensures var r := Transfer(w, Some(from), Some(to), Some(amount), Some(c), names, now).world.book;
      && from != to && amount > 0.0
      && BalanceOf(r, from, c.id) == BalanceOf(w.book, from, c.id) - amount
      && BalanceOf(r, to, c.id) == BalanceOf(w.book, to, c.id) + amount
      && BalanceOf(r, from, c.id) + BalanceOf(r, to, c.id)
         == BalanceOf(w.book, from, c.id) + BalanceOf(w.book, to, c.id)
      && (forall q, k :: (q, k) != (from, c.id) && (q, k) != (to, c.id) ==> Find(r, q, k) == Find(w.book, q, k))
  {
    var withdrawn := Withdraw(w, Some(from), Some(amount), Some(c), now);
    WithdrawEffect(w, Some(from), Some(amount), Some(c), now);
    DepositEffect(withdrawn.world, Some(to), Some(amount), Some(c), names, now);
  }

  /**
   * A transfer that is refused before its withdrawal (same player twice, an amount that is not
   * positive, a missing argument) or by its withdrawal changes nothing.
   */
  lemma TransferRefusedEarly(w: World, from: Option<Uuid>, to: Option<Uuid>, amount: Option<real>,
                             currency: Option<Currency>, names: Names, now: Instant)
    requires from.None? || to.None? || amount.None? || currency.None? || amount.value <= 0.0
             || from == to || !Withdraw(w, from, amount, currency, now).ok
    ensures Transfer(w, from, to, amount, currency, names, now) == Outcome(false, w)
  {
  }

  /**
   * When the deposit leg is refused, the amount goes back to the payer: if that refund succeeds
   * the payer's balance is what it was before the transfer, the payee's balance is unchanged
   * (though a payee without an account now has one at zero), and the transfer reports failure.
   */
  lemma TransferRefundRestores(w: World, from: Uuid, to: Uuid, amount: real, c: Currency,
                               names: Names, now: Instant)
    requires from != to && amount > 0.0
    requires Withdraw(w, Some(from), Some(amount), Some(c), now).ok
    requires !Deposit(Withdraw(w, Some(from), Some(amount), Some(c), now).world, Some(to), Some(amount), Some(c), names, now).ok
    requires
      var afterDeposit := Deposit(Withdraw(w, Some(from), Some(amount), Some(c), now).world, Some(to), Some(amount), Some(c), names, now).world;
      Deposit(afterDeposit, Some(from), Some(amount), Some(c), names, now).ok
    ensures var r := Transfer(w, Some(from), Some(to), Some(amount), Some(c), names, now);
      && !r.ok
      && BalanceOf(r.world.book, from, c.id) == BalanceOf(w.book, from, c.id)
      && BalanceOf(r.world.book, to, c.id) == BalanceOf(w.book, to, c.id)
      && HasAccount(r.world.book, to, c.id)
  {
    var withdrawn := Withdraw(w, Some(from), Some(amount), Some(c), now);
    WithdrawEffect(w, Some(from), Some(amount), Some(c), now);
    var deposited := Deposit(withdrawn.world, Some(to), Some(amount), Some(c), names, now);
    DepositEffect(withdrawn.world, Some(to), Some(amount), Some(c), names, now);
    DepositEffect(deposited.world, Some(from), Some(amount), Some(c), names, now);
  }

  // ---------------------------------------------------------------------------------------------
  // Balance bounds

  /**
   * Every account in the currency's id lies within its bounds: at or above the minimum unless
   * negative balances are allowed, and at or below the maximum.
   */
  ghost predicate WithinBounds(book: Book, c: Currency) {
    forall p :: p in book && c.id in book[p] ==>
      (c.allowNegative || book[p][c.id].balance >= c.minBalance) && book[p][c.id].balance <= c.maxBalance
  }

  /** A currency whose initial balance and zero both lie within its bounds. */
  predicate SaneBounds(c: Currency) {
    c.minBalance <= 0.0 <= c.maxBalance && c.minBalance <= c.initialBalance <= c.maxBalance
  }

  /**
   * With sane bounds, creating accounts, withdrawing, depositing and transferring in a currency
   * keep all its accounts within bounds.
   */
  lemma BoundsPreserved(w: World, p: Uuid, q: Uuid, name: Option<string>, amount: Option<real>,
                        c: Currency, names: Names, now: Instant)
    requires SaneBounds(c) && WithinBounds(w.book, c)
    ensures WithinBounds(CreateAccount(w, Some(p), name, Some(c), now).world.book, c)
    ensures WithinBounds(Withdraw(w, Some(p), amount, Some(c), now).world.book, c)
    ensures WithinBounds(Deposit(w, Some(p), amount, Some(c), names, now).world.book, c)
    ensures WithinBounds(Transfer(w, Some(p), Some(q), amount, Some(c), names, now).world.book, c)
  {
    WithdrawBounds(w, p, amount, c, now);
    DepositBounds(w, p, amount, c, names, now);
    if amount.Some? && amount.value > 0.0 && p != q {
      var withdrawn := Withdraw(w, Some(p), amount, Some(c), now);
      WithdrawBounds(w, p, amount, c, now);
      DepositBounds(withdrawn.world, q, amount, c, names, now);
      var deposited := Deposit(withdrawn.world, Some(q), amount, Some(c), names, now);
      DepositBounds(deposited.world, p, amount, c, names, now);
    }
  }

  lemma WithdrawBounds(w: World, p: Uuid, amount: Option<real>, c: Currency, now: Instant)
    requires WithinBounds(w.book, c)
    ensures WithinBounds(Withdraw(w, Some(p), amount, Some(c), now).world.book, c)
  {
    var r := Withdraw(w, Some(p), amount, Some(c), now);
    if r.ok {
      forall q | q in r.world.book && c.id in r.world.book[q]
        ensures (c.allowNegative || r.world.book[q][c.id].balance >= c.minBalance)
                && r.world.book[q][c.id].balance <= c.maxBalance
      {
        assert Find(r.world.book, q, c.id) == Some(r.world.book[q][c.id]);
        if q != p {
          assert Find(w.book, q, c.id) == Find(r.world.book, q, c.id);
        } else {
          assert w.book[p][c.id].balance <= c.maxBalance;
        }
      }
    }
  }

  lemma DepositBounds(w: World, p: Uuid, amount: Option<real>, c: Currency,
                      names: Names, now: Instant)
    requires SaneBounds(c) && WithinBounds(w.book, c)
    ensures WithinBounds(Deposit(w, Some(p), amount, Some(c), names, now).world.book, c)
  {
    var r := Deposit(w, Some(p), amount, Some(c), names, now);
    if amount.Some? && amount.value > 0.0 {
      forall q | q in r.world.book && c.id in r.world.book[q]
        ensures (c.allowNegative || r.world.book[q][c.id].balance >= c.minBalance)
                && r.world.book[q][c.id].balance <= c.maxBalance
      {
        assert Find(r.world.book, q, c.id) == Some(r.world.book[q][c.id]);
        if q != p {
          assert Find(w.book, q, c.id) == Find(r.world.book, q, c.id);
        } else if HasAccount(w.book, p, c.id) {
          assert w.book[p][c.id].balance >= c.minBalance || c.allowNegative;
        }
      }
    }
  }

  // ---------------------------------------------------------------------------------------------
  // A transfer can lose its amount

  /** A currency whose maximum balance (50) lies below its initial balance (100). */
  function LowCeiling(): Currency {
    Currency("gem", "Gem", "$", "%s%s", 2, false, 100.0, 0.0, 50.0, 0.0, false, true)
  }

  /**
   * The refund that follows a refused deposit is itself a deposit, with the same ceiling: when
   * the payer's balance was already above the maximum, the refund is refused too and the amount
   * is gone. Here two accounts start at 100 in a currency capped at 50; a transfer of 10 leaves
   * the payer at 90, the payee at 100, and reports failure.
   */
  lemma TransferCanLoseAmount(a: Uuid, b: Uuid, names: Names, now: Instant)
    requires a != b
    ensures
      var c := LowCeiling();
      var w0 := World(map[], [], map[]);
      var w1 := CreateAccount(w0, Some(a), None, Some(c), now).world;
      var w2 := CreateAccount(w1, Some(b), None, Some(c), now).world;
      var r := Transfer(w2, Some(a), Some(b), Some(10.0), Some(c), names, now);
      && !r.ok
      && BalanceOf(w2.book, a, c.id) == 100.0 && BalanceOf(w2.book, b, c.id) == 100.0
      && BalanceOf(r.world.book, a, c.id) == 90.0 && BalanceOf(r.world.book, b, c.id) == 100.0
  {
    var c := LowCeiling();
    var w0 := World(map[], [], map[]);
    var w1 := CreateAccount(w0, Some(a), None, Some(c), now).world;
    var w2 := CreateAccount(w1, Some(b), None, Some(c), now).world;
    assert BalanceOf(w2.book, a, c.id) == 100.0;
    var withdrawn := Withdraw(w2, Some(a), Some(10.0), Some(c), now);
    assert withdrawn.ok && BalanceOf(withdrawn.world.book, a, c.id) == 90.0;
    assert BalanceOf(withdrawn.world.book, b, c.id) == 100.0;
    var deposited := Deposit(withdrawn.world, Some(b), Some(10.0), Some(c), names, now);
    assert !deposited.ok && deposited.world.book == withdrawn.world.book;
    var refund := Deposit(deposited.world, Some(a), Some(10.0), Some(c), names, now);
    assert !refund.ok && refund.world.book == deposited.world.book;
  }

  // ---------------------------------------------------------------------------------------------
  // Bounds are kept only for sane currencies

  /** A currency whose minimum balance (10) lies above zero. */
  function HighFloor(): Currency {
    Currency("gem", "Gem", "$", "%s%s", 2, false, 100.0, 10.0, 1000.0, 0.0, false, true)
  }

  /**
   * A deposit opens a missing account at zero and checks only the ceiling, so in a currency
   * whose minimum is above zero a first deposit of 5 succeeds and leaves the account below the
   * minimum of 10, although the book was within bounds before.
   */
  lemma DepositCanEndBelowMinimum(p: Uuid, names: Names, now: Instant)
    ensures
      var c := HighFloor();
      var w0 := World(map[], [], map[]);
      var r := Deposit(w0, Some(p), Some(5.0), Some(c), names, now);
      && !SaneBounds(c) && WithinBounds(w0.book, c)
      && r.ok && BalanceOf(r.world.book, p, c.id) == 5.0
      && !WithinBounds(r.world.book, c)
  {
    var c := HighFloor();
    var w0 := World(map[], [], map[]);
    var r := Deposit(w0, Some(p), Some(5.0), Some(c), names, now);
    assert Find(r.world.book, p, c.id).Some?;
    assert r.world.book[p][c.id].balance == 5.0;
  }

  /**
   * `createAccount` gives a new account the initial balance unchecked, so in a currency whose
   * initial balance (100) exceeds its maximum (50) the new account lies above the maximum.
   */
  lemma CreateAccountCanExceedMaximum(p: Uuid, now: Instant)
    ensures
      var c := LowCeiling();
      var w0 := World(map[], [], map[]);
      var r := CreateAccount(w0, Some(p), None, Some(c), now);
      && !SaneBounds(c) && WithinBounds(w0.book, c)
      && r.ok && BalanceOf(r.world.book, p, c.id) == 100.0
      && !WithinBounds(r.world.book, c)
  {
    var c := LowCeiling();
    var w0 := World(map[], [], map[]);
    var r := CreateAccount(w0, Some(p), None, Some(c), now);
    assert Find(r.world.book, p, c.id).Some?;
    assert r.world.book[p][c.id].balance == 100.0;
  }
}
