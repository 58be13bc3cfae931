/**
 * Which currency each player uses through Vault, the single-currency economy interface other
 * plugins call. Players without a preference use the ledger's default currency.
 */
module Vault {
  import opened Wrappers
  import opened Uuids
  import opened Currencies

  class VaultCurrencyAdapter {
    /** Player to preferred currency; a preference can be stored as null (None). */
    var preferences: map<Uuid, Option<Currency>>

    constructor ()
      ensures preferences == map[]
    {
      preferences := map[];
    }

    /**
     * `getPlayerCurrency`: the stored preference (a stored null included), or the ledger's
     * default currency when the player has none.
     */
    function GetPlayerCurrency(player: Uuid, defaultCurrency: Option<Currency>): (r: Option<Currency>)
      reads this
      ensures player !in preferences ==> r == defaultCurrency
      ensures player in preferences ==> r == preferences[player]
    {
      if player in preferences then preferences[player] else defaultCurrency
    }

    /** `setPlayerCurrency`: the player now uses the currency; every other player's lookup is unchanged. */
    method SetPlayerCurrency(player: Uuid, currency: Option<Currency>)
      modifies this
      ensures preferences == old(preferences)[player := currency]
      ensures forall d :: GetPlayerCurrency(player, d) == currency
      ensures forall q, d | q != player ::
                GetPlayerCurrency(q, d) == (if q in old(preferences) then old(preferences)[q] else d)
    {
      preferences := preferences[player := currency];
    }

    /** `resetPlayerCurrency`: the player is back on the default; every other player's lookup is unchanged. */
    method ResetPlayerCurrency(player: Uuid)
      modifies this
      ensures preferences == old(preferences) - {player}
      ensures forall d :: GetPlayerCurrency(player, d) == d
      ensures forall q, d | q != player ::
                GetPlayerCurrency(q, d) == (if q in old(preferences) then old(preferences)[q] else d)
    {
      preferences := preferences - {player};
    }

    /** `clearPreferences`: every player is back on the default. */
    method ClearPreferences()
      modifies this
      ensures preferences == map[]
      ensures forall q, d :: GetPlayerCurrency(q, d) == d
    {
      preferences := map[];
    }
  }

  /** The first currency in the sequence with the given id (a null id matches none). */
  function FirstWithId(currencies: seq<Currency>, currencyId: Option<string>): Option<Currency> {
    if currencies == [] then None
    else if Some(currencies[0].id) == currencyId then Some(currencies[0])
    else FirstWithId(currencies[1..], currencyId)
  }

  /**
   * A currency found is in the sequence, carries the id, and no currency before it does; when
   * none is found, no currency in the sequence carries the id.
   */
  lemma {:induction false} FirstWithIdIsFirst(currencies: seq<Currency>, currencyId: Option<string>)
    ensures FirstWithId(currencies, currencyId).None? <==>
              forall c | c in currencies :: Some(c.id) != currencyId
    ensures FirstWithId(currencies, currencyId).Some? ==>
              exists i :: 0 <= i < |currencies| && currencies[i] == FirstWithId(currencies, currencyId).value
                          && Some(currencies[i].id) == currencyId
                          && forall j | 0 <= j < i :: Some(currencies[j].id) != currencyId
  {
    if currencies != [] && Some(currencies[0].id) != currencyId {
      FirstWithIdIsFirst(currencies[1..], currencyId);
      if FirstWithId(currencies[1..], currencyId).Some? {
        var i :| 0 <= i < |currencies[1..]| && currencies[1..][i] == FirstWithId(currencies[1..], currencyId).value
                 && Some(currencies[1..][i].id) == currencyId
                 && forall j | 0 <= j < i :: Some(currencies[1..][j].id) != currencyId;
        assert currencies[i + 1] == currencies[1..][i];
        forall j | 0 <= j < i + 1 ensures Some(currencies[j].id) != currencyId {
          if j > 0 {
            assert currencies[j] == currencies[1..][j - 1];
          }
        }
      } else {
        forall c | c in currencies ensures Some(c.id) != currencyId {
          if c != currencies[0] {
            assert c in currencies[1..];
          }
        }
      }
    }
  }

  /**
   * `getCurrencyById`: walks the ledger's currencies in iteration order and returns the first
   * whose id equals the given one, or the default currency when none does.
   */
  method GetCurrencyById(currencies: seq<Currency>, currencyId: Option<string>,
                         defaultCurrency: Option<Currency>) returns (r: Option<Currency>)
    ensures r == (if FirstWithId(currencies, currencyId).Some? then FirstWithId(currencies, currencyId)
                  else defaultCurrency)
  {
    var i := 0;
    while i < |currencies|
      invariant 0 <= i <= |currencies|
      invariant FirstWithId(currencies, currencyId) == FirstWithId(currencies[i..], currencyId)
    {
      if Some(currencies[i].id) == currencyId {
        return Some(currencies[i]);
      }
      assert currencies[i..][1..] == currencies[i + 1..];
      i := i + 1;
    }
    return defaultCurrency;
  }

  /**
   * The ledger keeps its currencies in a map keyed by id, so the iteration order does not
   * matter: over exactly the map's currencies, the search finds the currency stored under the
   * id, and the default when the id is not a key.
   */
  lemma LookupAgreesWithMap(currencies: seq<Currency>, byId: map<string, Currency>, currencyId: string)
    requires forall k | k in byId :: byId[k].id == k
    requires forall c :: c in currencies <==> c in byId.Values
    ensures FirstWithId(currencies, Some(currencyId)) ==
              (if currencyId in byId then Some(byId[currencyId]) else None)
  {
    FirstWithIdIsFirst(currencies, Some(currencyId));
    if currencyId in byId {
      assert byId[currencyId] in byId.Values;
      assert byId[currencyId] in currencies;
      var found := FirstWithId(currencies, Some(currencyId)).value;
      assert found in byId.Values;
      var k :| k in byId && byId[k] == found;
    }
  }
}
