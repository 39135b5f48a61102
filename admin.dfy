/** `/givepro USER_ID DAYS`: the owner grants Pro to an account by hand. */
module Admin {
  import opened Wrappers
  import opened Text
  import opened Numerals
  import opened Calendar
  import opened Accounts

  /** `int(os.getenv("ADMIN_ID", 0))`: 0 when unset; `None` for the `ValueError`
      `int` raises on a malformed value. */
  function AdminId(env: Option<string>): (r: Option<int>)
    ensures env.None? ==> r == Some(0)
    ensures env.Some? ==> r == ParseInt(env.value)
  {
    match env
    case None => Some(0)
    case Some(s) => ParseInt(s)
  }

  /** What the command's text holds once split on whitespace. */
  datatype GiveProArgs = TooFewTokens | NotNumbers | Args(userId: int, days: int)

  /** `message.text.split()`, then `int(args[1])` and `int(args[2])`; tokens after
      the third are never read. */
  function ParseGivePro(text: string): (r: GiveProArgs)
    ensures r == TooFewTokens <==> |SplitWhitespace(text)| < 3
    ensures r.Args? ==>
      ParseInt(SplitWhitespace(text)[1]) == Some(r.userId) && ParseInt(SplitWhitespace(text)[2]) == Some(r.days)
    ensures r == NotNumbers <==>
      |SplitWhitespace(text)| >= 3 &&
      (ParseInt(SplitWhitespace(text)[1]).None? || ParseInt(SplitWhitespace(text)[2]).None?)
  {
    ParseArgs(SplitWhitespace(text))
  }

  /** The arguments read from the tokens of the command. */
  function ParseArgs(args: seq<string>): (r: GiveProArgs)
    ensures r == TooFewTokens <==> |args| < 3
    ensures r.Args? ==> ParseInt(args[1]) == Some(r.userId) && ParseInt(args[2]) == Some(r.days)
    ensures r == NotNumbers <==> |args| >= 3 && (ParseInt(args[1]).None? || ParseInt(args[2]).None?)
  {
    if |args| < 3 then TooFewTokens
    else
      match (ParseInt(args[1]), ParseInt(args[2]))
      case (Some(u), Some(d)) => Args(u, d)
      case _ => NotNumbers
  }

  /** Only the first three tokens decide the arguments. */
  lemma ExtraTokensIgnored(a: string, b: string)
    requires |SplitWhitespace(a)| >= 3 && |SplitWhitespace(b)| >= 3
    requires SplitWhitespace(a)[..3] == SplitWhitespace(b)[..3]
    ensures ParseGivePro(a) == ParseGivePro(b)
  {
    ArgsPrefix(SplitWhitespace(a), SplitWhitespace(b));
  }

  lemma ArgsPrefix(x: seq<string>, y: seq<string>)
    requires |x| >= 3 && |y| >= 3 && x[..3] == y[..3]
    ensures ParseArgs(x) == ParseArgs(y)
  {
    assert x[1] == x[..3][1] && x[2] == x[..3][2];
    assert y[1] == y[..3][1] && y[2] == y[..3][2];
  }

  /** The replies of `give_pro_status`; `Crashes` is the `OverflowError` that
      `timedelta` or the date addition raises and the handler does not catch. */
  datatype GiveProReply = NotTheBoss | FormatHelp | RealNumbersPlease | Crashes | Granted(userId: int, days: int, expiry: Instant)

  /** The reply `give_pro_status` gives, before any update. */
  function GiveProDecision(sender: int, adminId: int, text: string, now: Instant): (r: GiveProReply)
    ensures sender != adminId <==> r == NotTheBoss
    ensures r.Granted? ==> ParseGivePro(text) == Args(r.userId, r.days) && AddDays(now, r.days) == Some(r.expiry)
    ensures sender == adminId && ParseGivePro(text).Args? && AddDays(now, ParseGivePro(text).days).Some? ==> r.Granted?
  {
    if sender != adminId then NotTheBoss
    else
      match ParseGivePro(text)
      case TooFewTokens => FormatHelp
      case NotNumbers => RealNumbersPlease
      case Args(u, d) =>
        match AddDays(now, d)
        case None => Crashes
        case Some(e) => Granted(u, d, e)
  }

  /** `give_pro_status`: on a grant the target's row gets `is_pro` and the new
      expiry and nothing else; on every other reply no row changes. Whether the
      target can be notified afterwards does not matter: that failure is
      swallowed after the update. */
  method GivePro(store: Store, sender: int, adminId: int, text: string, now: Instant) returns (r: GiveProReply)
    requires store.Valid()
    modifies store
    ensures store.Valid()
    ensures r == GiveProDecision(sender, adminId, text, now)
    ensures !r.Granted? ==> store.users == old(store.users)
    ensures r.Granted? ==> store.users == if r.userId in old(store.users)
      then old(store.users)[r.userId := old(store.users)[r.userId].(isPro := true, expiry := Some(r.expiry))]
      else old(store.users)
  {
    r := GiveProDecision(sender, adminId, text, now);
    if r.Granted? {
      store.GrantPro(r.userId, r.expiry);
    }
  }
}
