/** src/services/tokenManager.ts: one storage slot holding the session token and
    the instant it expires. Browser storage is a map from keys to records, the
    clock is the parameter `now` (milliseconds), and `jwtDecode` is left to the
    callers as a parameter. */
module TokenManager {
  import opened Wrappers

  /** The single storage key every operation uses. */
  const TokenKey := "authToken"

  datatype TokenRecord = TokenRecord(token: string, expiresAt: int)

  type Store = map<string, TokenRecord>

  /** Everything stored under other keys is left alone. */
  ghost predicate OthersUnchanged(before: Store, after: Store) {
    forall k :: k != TokenKey ==> (k in after <==> k in before) && (k in after ==> after[k] == before[k])
  }

  /** `saveToken(token, expiresIn)` at `now`: the slot holds `token`, expiring
      `expiresIn` seconds from now, replacing whatever it held. */
  function SaveToken(store: Store, token: string, expiresIn: nat, now: int): (r: Store)
    ensures TokenKey in r && r[TokenKey] == TokenRecord(token, now + expiresIn * 1000)
    ensures OthersUnchanged(store, r)
  {
    store[TokenKey := TokenRecord(token, now + expiresIn * 1000)]
  }

  /** What `getToken` returns, and the store it leaves behind. */
  datatype Lookup = Lookup(token: Option<string>, store: Store)

  /** `getToken` at `now`: the stored token while `now` has not passed its
      expiry (the expiry instant itself still counts); an expired record is
      deleted and nothing is returned. */
  function GetToken(store: Store, now: int): (r: Lookup)
    ensures r.token.Some? <==> TokenKey in store && now <= store[TokenKey].expiresAt
    ensures r.token.Some? ==> r.token.value == store[TokenKey].token && r.store == store
    ensures r.token.None? ==> TokenKey !in r.store && OthersUnchanged(store, r.store)
  {
    if TokenKey !in store then Lookup(None, store)
    else if now > store[TokenKey].expiresAt then Lookup(None, store - {TokenKey})
    else Lookup(Some(store[TokenKey].token), store)
  }

  /** `removeToken`: the slot is emptied. */
  function RemoveToken(store: Store): (r: Store)
    ensures TokenKey !in r
    ensures OthersUnchanged(store, r)
  {
    store - {TokenKey}
  }

  /** `isTokenValid` at `now`: a record exists and `now` has not passed its
      expiry. It only reads the store. */
  function IsTokenValid(store: Store, now: int): (r: bool)
    ensures r <==> TokenKey in store && now <= store[TokenKey].expiresAt
  {
    TokenKey in store && now <= store[TokenKey].expiresAt
  }

  // ---------------------------------------------------------------------------
  // Properties of single calls

  /** At the same instant on the same store, the validity check holds exactly
      when `getToken` returns a token. */
  lemma ValidIffGetReturnsToken(store: Store, now: int)
    ensures IsTokenValid(store, now) <==> GetToken(store, now).token.Some?
  {
  }

  /** A token just saved is returned until its expiry, at which instant it is
      still valid, and not after. */
  lemma SavedTokenLivesUntilExpiry(store: Store, token: string, expiresIn: nat, saved: int, now: int)
    ensures var s := SaveToken(store, token, expiresIn, saved);
      GetToken(s, now).token == (if now <= saved + expiresIn * 1000 then Some(token) else None)
  {
  }

  /** Reading an expired token deletes it: afterwards the check fails at every
      instant, and so does a second read. */
  lemma ExpiredReadEvicts(store: Store, now: int, later: int)
    requires TokenKey in store && now > store[TokenKey].expiresAt
    ensures !IsTokenValid(GetToken(store, now).store, later)
    ensures GetToken(GetToken(store, now).store, later).token.None?
  {
  }

  /** After `removeToken`, nothing is returned and the check fails. */
  lemma RemovedTokenIsGone(store: Store, now: int)
    ensures GetToken(RemoveToken(store), now).token.None?
    ensures !IsTokenValid(RemoveToken(store), now)
  {
  }

  // ---------------------------------------------------------------------------
  // Sequences of calls

  datatype Call = Save(token: string, expiresIn: nat) | Get | Remove | Check

  /** A call made at an instant of the clock. */
  datatype Step = Step(time: int, call: Call)

  /** The store after running the calls in order. */
  function Run(store: Store, steps: seq<Step>): Store
    decreases |steps|
  {
    if |steps| == 0 then store
    else
      var before := Run(store, steps[..|steps| - 1]);
      var last := steps[|steps| - 1];
      match last.call
      case Save(t, e) => SaveToken(before, t, e, last.time)
      case Get => GetToken(before, last.time).store
      case Remove => RemoveToken(before)
      case Check => before
  }

  /** The record written by the last `saveToken` not followed by a
      `removeToken`, if there is one. */
  function LastLiveSave(steps: seq<Step>): Option<TokenRecord>
    decreases |steps|
  {
    if |steps| == 0 then None
    else
      var last := steps[|steps| - 1];
      match last.call
      case Save(t, e) => Some(TokenRecord(t, last.time + e * 1000))
      case Remove => None
      case _ => LastLiveSave(steps[..|steps| - 1])
  }

  /** Starting from an empty slot, whatever the slot holds after any calls is
      the record of the last save not since removed. */
  lemma {:induction false} SlotHoldsLastLiveSave(store: Store, steps: seq<Step>)
    requires TokenKey !in store
    ensures TokenKey in Run(store, steps) ==> LastLiveSave(steps) == Some(Run(store, steps)[TokenKey])
    decreases |steps|
  {
    if |steps| > 0 {
      SlotHoldsLastLiveSave(store, steps[..|steps| - 1]);
    }
  }

  /** Starting from an empty slot, a read after any calls returns only the
      token of the last save not since removed, and only before its expiry. */
  lemma GetReturnsOnlyLiveToken(store: Store, steps: seq<Step>, now: int)
    requires TokenKey !in store
    ensures var got := GetToken(Run(store, steps), now).token;
      got.Some? ==> && LastLiveSave(steps).Some?
                    && got.value == LastLiveSave(steps).value.token
                    && now <= LastLiveSave(steps).value.expiresAt
  {
    SlotHoldsLastLiveSave(store, steps);
  }
}
