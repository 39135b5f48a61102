/** Payments in Telegram Stars: the single Pro plan, the pre-checkout answer,
    the activation after a successful payment, and `/status`. */
module Billing {
  import opened Wrappers
  import opened Text
  import opened Numerals
  import opened Calendar
  import opened Accounts

  /** One `LabeledPrice`. */
  datatype Price = Price(caption: string, amount: int)

  /** The invoice `/plans` sends. The description text is left out. */
  datatype Invoice = Invoice(title: string, payload: string, currency: string, prices: seq<Price>)

  const PlanDays: int := 30
  const PlanPrice: int := 250

  /** The Pro plan: one price of 250 Stars (currency `XTR`) for 30 days. */
  function PlanInvoice(): (i: Invoice)
    ensures |i.prices| == 1 && i.prices[0].amount == PlanPrice && i.currency == "XTR"
    ensures i.payload == "pro_sub_30d"
  {
    Invoice("LazyBot Pro Subscription", "pro_sub_30d", "XTR", [Price("Pro Plan (30 kun)", PlanPrice)])
  }

  /** `process_pre_checkout` approves every query, whatever it carries. */
  function ApprovePreCheckout(payload: string, amount: int): (ok: bool)
    ensures ok
  {
    true
  }

  /** `on_successful_payment`: the expiry is `now + 30 days`, and the payer's
      row gets `is_pro` and that expiry in one update; nothing else changes.
      `None` when the date would pass year 9999, where the handler raises
      before updating. */
  method OnSuccessfulPayment(store: Store, tgId: int, now: Instant) returns (expiry: Option<Instant>)
    requires store.Valid()
    modifies store
    ensures store.Valid()
    ensures expiry == AddDays(now, PlanDays)
    ensures expiry.None? ==> store.users == old(store.users)
    ensures expiry.Some? ==> store.users == if tgId in old(store.users)
      then old(store.users)[tgId := old(store.users)[tgId].(isPro := true, expiry := expiry)]
      else old(store.users)
  {
    expiry := AddDays(now, PlanDays);
    if expiry.Some? {
      store.GrantPro(tgId, expiry.value);
    }
  }

  /** A paid subscription runs for exactly 30 days, to the microsecond. */
  lemma PaymentAddsThirtyDays(now: Instant)
    requires AddDays(now, PlanDays).Some?
    ensures DaysFromDate(DateOf(AddDays(now, PlanDays).value)) == DaysFromDate(DateOf(now)) + 30
  {
    AddDaysMovesDate(now, PlanDays);
  }

  /** Why `check_status` raises: there is no row (`None.is_pro`), or a Pro row
      has no expiry (`None.strftime`). */
  datatype StatusFailure = NoAccount | ProWithoutExpiry

  /** The status `/status` shows: the expiry date for a Pro account, else the
      free uses left. */
  function StatusText(u: User): (r: Result<string, StatusFailure>)
    ensures r.Err? <==> u.isPro && u.expiry.None?
    ensures r.Err? ==> r.error == ProWithoutExpiry
  {
    if u.isPro then
      match u.expiry
      case Some(t) => Ok("✅ Pro (Muddat: " + FormatDate(t) + ")")
      case None => Err(ProWithoutExpiry)
    else Ok("\U{1F193} Bepul (" + IntToString(u.freeUses) + " ta urinish qoldi)")
  }

  /** `check_status`: the reply for the sender's row. */
  function CheckStatus(u: Option<User>): (r: Result<string, StatusFailure>)
    ensures r.Err? <==> u.None? || (u.value.isPro && u.value.expiry.None?)
  {
    match u
    case None => Err(NoAccount)
    case Some(user) =>
      match StatusText(user)
      case Ok(status) => Ok("Sizning joriy holatingiz: **" + status + "**")
      case Err(e) => Err(e)
  }

  /** Every row of a valid store has a status reply: a Pro row always has an
      expiry, because every grant of Pro sets one. */
  lemma CheckStatusDefined(store: Store, tgId: int)
    requires store.Valid() && tgId in store.users
    ensures CheckStatus(store.Find(tgId)).Ok?
  {
    assert ProHasExpiry(store.users[tgId]);
  }

  /** A Pro reply carries the expiry date as `dd.mm.YYYY`; a free reply carries
      the count of free uses left. */
  lemma CheckStatusShows(u: User)
    requires CheckStatus(Some(u)).Ok?
    ensures u.isPro ==> Contains(CheckStatus(Some(u)).value, FormatDate(u.expiry.value))
    ensures !u.isPro ==> Contains(CheckStatus(Some(u)).value, IntToString(u.freeUses))
  {
    var head := "Sizning joriy holatingiz: **";
    if u.isPro {
      var d := FormatDate(u.expiry.value);
      var pre := head + "✅ Pro (Muddat: ";
      assert CheckStatus(Some(u)).value == pre + d + ")**";
      ContainsMiddle(pre, d, ")**");
    } else {
      var n := IntToString(u.freeUses);
      var pre := head + "\U{1F193} Bepul (";
      assert CheckStatus(Some(u)).value == pre + n + " ta urinish qoldi)**";
      ContainsMiddle(pre, n, " ta urinish qoldi)**");
    }
  }
}
