/** The nonce table `#__concordium_nonce`: one row per account address
    (its primary key), holding the current nonce, when it was issued and the
    user the address is linked to. This module states the challenge rule of
    the `nonce` task as a function of the table. */
module NonceStore {
  import opened Wrappers
  import opened Errors
  import opened Decimal
  import opened Php

  datatype NonceRow = NonceRow(nonce: string, createdAt: int, userId: Option<int>)

  /** Rows keyed by `account_address`; the key is unique, so a map. */
  type NonceTable = map<string, NonceRow>

  /** The language string PLG_SYSTEM_CONCORDIUM_NONCE_MESSAGE, split at its
      single `%s` placeholder. */
  datatype MessageTemplate = MessageTemplate(prefix: string, suffix: string)

  /** `getNonceMessage`: the template with the nonce in place of `%s`. */
  function NonceMessage(template: MessageTemplate, nonce: string): (m: string)
    ensures |m| == |template.prefix| + |nonce| + |template.suffix|
    ensures m[..|template.prefix|] == template.prefix
    ensures m[|template.prefix|..|template.prefix| + |nonce|] == nonce
    ensures m[|template.prefix| + |nonce|..] == template.suffix
  {
    template.prefix + nonce + template.suffix
  }

  /** The message determines the nonce: two nonces give the same message
      exactly when they are equal. */
  lemma NonceMessageInjective(template: MessageTemplate, a: string, b: string)
    ensures NonceMessage(template, a) == NonceMessage(template, b) <==> a == b
  {
    var p := |template.prefix|;
    if NonceMessage(template, a) == NonceMessage(template, b) {
      assert |a| == |b|;
      assert NonceMessage(template, a)[p..p + |a|] == a;
      assert NonceMessage(template, b)[p..p + |b|] == b;
    }
  }

  predicate IsNonce(s: string) {
    |s| == 6 && IsDigits(s)
  }

  /** Every stored nonce is six decimal digits. */
  predicate WellFormed(t: NonceTable) {
    forall a :: a in t ==> IsNonce(t[a].nonce)
  }

  /** Once a row has a user, the row stays and keeps that user. */
  predicate UserLinksKept(before: NonceTable, after: NonceTable) {
    forall a :: a in before && IdTruthy(before[a].userId) ==>
      a in after && after[a].userId == before[a].userId
  }

  /** A row is expired when `now` is strictly later than `created_at + expiry`. */
  predicate Expired(row: NonceRow, now: int, expiry: int) {
    now > row.createdAt + expiry
  }

  /** The window is inclusive: a row is live up to and including
      `created_at + expiry`, expired one step later, and stays expired. */
  lemma ExpiryBoundary(row: NonceRow, expiry: int, later: int)
    ensures !Expired(row, row.createdAt + expiry, expiry)
    ensures Expired(row, row.createdAt + expiry + 1, expiry)
    ensures Expired(row, later, expiry) ==> Expired(row, later + 1, expiry)
  {
  }

  predicate NeedsNewNonce(t: NonceTable, address: string, now: int, expiry: int) {
    address !in t || Expired(t[address], now, expiry)
  }

  /** The `nonce` task on the table: reuse the stored nonce while it is live,
      otherwise draw a new one and save it with `created_at = now`. The save
      binds nonce, address and time onto the loaded row, so an existing
      `user_id` is kept and a new row has none. Returns the new table and the
      nonce, or the error when the save fails. */
  function Challenge(t: NonceTable, address: string, now: int, expiry: int, draw: nat, saveOk: bool)
    : (out: (NonceTable, Result<string, Error>))
    requires draw <= MaxNonceDraw
    ensures out.1.Ok? ==> address in out.0 && out.0[address].nonce == out.1.value
    ensures out.1.Err? ==> out.1.error == SaveFailed && out.0 == t
    ensures out.0 != t ==> out.1.Ok? && out.0[address].createdAt == now && IsNonce(out.1.value)
    ensures out.0.Keys == t.Keys + (if out.1.Ok? then {address} else {})
    ensures forall a :: a in t && a != address ==> out.0[a] == t[a]
    ensures address in t ==> out.0[address].userId == t[address].userId
    ensures address !in t && address in out.0 ==> out.0[address].userId == None
    ensures UserLinksKept(t, out.0)
    ensures WellFormed(t) ==> WellFormed(out.0)
  {
    if !NeedsNewNonce(t, address, now, expiry) then (t, Ok(t[address].nonce))
    else if !saveOk then (t, Err(SaveFailed))
    else
      var nonce := FormatNonce(draw);
      var userId := if address in t then t[address].userId else None;
      (t[address := NonceRow(nonce, now, userId)], Ok(nonce))
  }

  /** A live nonce (`now <= created_at + expiry`) is returned unchanged and
      nothing is saved, whatever the draw and whether a save would succeed. */
  lemma ChallengeReusesLiveNonce(t: NonceTable, address: string, now: int, expiry: int, draw: nat, saveOk: bool)
    requires draw <= MaxNonceDraw
    requires address in t && now <= t[address].createdAt + expiry
    ensures Challenge(t, address, now, expiry, draw, saveOk) == (t, Ok(t[address].nonce))
  {
  }

  /** A missing or expired row gets the freshly drawn nonce, saved with
      `created_at = now`; a failed save leaves the table as it was. */
  lemma ChallengeIssuesFreshNonce(t: NonceTable, address: string, now: int, expiry: int, draw: nat, saveOk: bool)
    requires draw <= MaxNonceDraw
    requires NeedsNewNonce(t, address, now, expiry)
    ensures var out := Challenge(t, address, now, expiry, draw, saveOk);
      if saveOk then
        && out.1 == Ok(FormatNonce(draw))
        && out.0 == t[address := NonceRow(FormatNonce(draw), now, if address in t then t[address].userId else None)]
      else out == (t, Err(SaveFailed))
  {
  }

  /** Asking again inside the window of the issued nonce yields the same
      nonce and saves nothing, so a retry does not invalidate a signature in
      progress. */
  lemma {:induction false} ChallengeRepeatWithinWindow(
    t: NonceTable, address: string, now1: int, now2: int, expiry: int,
    draw1: nat, draw2: nat, save1: bool, save2: bool)
    requires draw1 <= MaxNonceDraw && draw2 <= MaxNonceDraw
    requires Challenge(t, address, now1, expiry, draw1, save1).1.Ok?
    requires now2 <= Challenge(t, address, now1, expiry, draw1, save1).0[address].createdAt + expiry
    ensures Challenge(Challenge(t, address, now1, expiry, draw1, save1).0, address, now2, expiry, draw2, save2)
         == Challenge(t, address, now1, expiry, draw1, save1)
  {
    var out := Challenge(t, address, now1, expiry, draw1, save1);
    ChallengeReusesLiveNonce(out.0, address, now2, expiry, draw2, save2);
  }

  /** Asking again after the window has passed replaces the nonce with the
      new draw and moves `created_at` to the new time. */
  lemma {:induction false} ChallengeRepeatAfterExpiry(
    t: NonceTable, address: string, now1: int, now2: int, expiry: int,
    draw1: nat, draw2: nat, save1: bool)
    requires draw1 <= MaxNonceDraw && draw2 <= MaxNonceDraw
    requires Challenge(t, address, now1, expiry, draw1, save1).1.Ok?
    requires now2 > Challenge(t, address, now1, expiry, draw1, save1).0[address].createdAt + expiry
    ensures var again := Challenge(Challenge(t, address, now1, expiry, draw1, save1).0, address, now2, expiry, draw2, true);
      again.1 == Ok(FormatNonce(draw2)) && again.0[address].createdAt == now2
  {
    var out := Challenge(t, address, now1, expiry, draw1, save1);
    ChallengeIssuesFreshNonce(out.0, address, now2, expiry, draw2, true);
  }
}
