/**
 * One player's account in one currency. The player, the name and the currency are fixed when
 * the account is made; the balance and the two timestamps change in place.
 */
module Accounts {
  import opened Wrappers
  import opened JavaInt
  import opened Uuids

  /** An `Instant`, as a count of time units; the clock is read by the caller and passed in. */
  type Instant = int

  class AccountHolder {
    const playerUuid: Uuid
    /** The player's name, which the server may not know (null in the source). */
    const playerName: Option<string>
    const currencyId: string
    var balance: real
    var lastTransaction: Instant
    var created: Instant

    /** A new account holds the initial balance and was created and last touched `now`. */
    constructor (playerUuid: Uuid, playerName: Option<string>, currencyId: string,
                 initialBalance: real, now: Instant)
      ensures this.playerUuid == playerUuid && this.playerName == playerName
      ensures this.currencyId == currencyId
      ensures balance == initialBalance && created == now && lastTransaction == now
    {
      this.playerUuid := playerUuid;
      this.playerName := playerName;
      this.currencyId := currencyId;
      balance := initialBalance;
      created := now;
      lastTransaction := now;
    }

    /** Replacing the balance also records `now` as the last transaction; `created` stays. */
    method SetBalance(newBalance: real, now: Instant)
      modifies this
      ensures balance == newBalance && lastTransaction == now && created == old(created)
    {
      balance := newBalance;
      lastTransaction := now;
    }

    /** Changes the creation time and nothing else. */
    method SetCreated(time: Instant)
      modifies this
      ensures created == time
      ensures balance == old(balance) && lastTransaction == old(lastTransaction)
    {
      created := time;
    }

    /**
     * `equals`: two accounts are equal when they belong to the same player and currency;
     * balance, name and timestamps play no part.
     */
    predicate Equals(other: Option<AccountHolder>) {
      other.Some? && other.value.playerUuid == playerUuid && other.value.currencyId == currencyId
    }

    /** `hashCode`: `Objects.hash(playerUuid, currencyId)`. */
    function HashCode(): (h: int)
      ensures IsInt32(h)
    {
      Hash2(UuidHash(playerUuid), StringHash(currencyId))
    }
  }

  /**
   * Equality of accounts is an equivalence on (player, currency), and equal accounts have equal
   * hash codes whatever their balances.
   */
  lemma EqualsByKey(a: AccountHolder, b: AccountHolder, c: AccountHolder)
    ensures a.Equals(Some(a))
    ensures a.Equals(Some(b)) <==> b.Equals(Some(a))
    ensures a.Equals(Some(b)) && b.Equals(Some(c)) ==> a.Equals(Some(c))
    ensures a.Equals(Some(b)) ==> a.HashCode() == b.HashCode()
    ensures a.Equals(Some(b)) <==> (a.playerUuid, a.currencyId) == (b.playerUuid, b.currencyId)
  {
  }
}
