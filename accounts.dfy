/** The `users` table: one account per Telegram id, with its free uses, its
    Pro subscription and its own template, and the row updates the handlers
    issue against it. */
module Accounts {
  import opened Wrappers
  import opened Text
  import opened Numerals
  import opened Calendar

  /** A row of `users`. The surrogate primary key `id` is left out: nothing
      reads it. `None` is SQL `NULL`. */
  datatype User = User(
    tgId: int,
    username: Option<string>,
    freeUses: int,
    isPro: bool,
    expiry: Option<Instant>,
    template: Option<string>,
    createdAt: Instant)

  const DefaultFreeUses: int := 2

  /** A new row with the column defaults: two free uses, not Pro, no expiry,
      no template. */
  function NewUser(tgId: int, username: Option<string>, now: Instant): (u: User)
    ensures u.tgId == tgId && u.username == username && u.createdAt == now
    ensures u.freeUses == DefaultFreeUses && !u.isPro && u.expiry.None? && u.template.None?
  {
    User(tgId, username, DefaultFreeUses, false, None, None, now)
  }

  /** A Pro account always knows when its subscription ends. */
  predicate ProHasExpiry(u: User) {
    u.isPro ==> u.expiry.Some?
  }

  function BoolText(b: bool): string {
    if b then "True" else "False"
  }

  /** `User.__repr__` */
  function Repr(u: User): (s: string)
    ensures |s| > 6 && s[..6] == "<User " && s[|s| - 1] == '>'
  {
    "<User " + IntToString(u.tgId) + " - Pro: " + BoolText(u.isPro) + ">"
  }

  /** The representation names the account's Telegram id, which reads back. */
  lemma ReprReadsBack(u: User)
    ensures var s := Repr(u); var n := |IntToString(u.tgId)|;
      |s| > 6 + n && s[..6] == "<User " && ParseInt(s[6..6 + n]) == Some(u.tgId)
  {
    var id := IntToString(u.tgId);
    SliceOfJoin("<User ", id, " - Pro: " + BoolText(u.isPro) + ">");
    assert Repr(u) == "<User " + id + (" - Pro: " + BoolText(u.isPro) + ">");
    ParseIntOfString(u.tgId);
  }

  /** The representation ends in `True>` exactly for a Pro account. */
  lemma ReprShowsPro(u: User)
    ensures var s := Repr(u); |s| >= 5 && (s[|s| - 5..] == "True>" <==> u.isPro)
  {
    var flag := BoolText(u.isPro) + ">";
    var head := "<User " + IntToString(u.tgId) + " - Pro: ";
    assert Repr(u) == head + flag;
    SuffixOfJoin(head, flag, 5);
    if !u.isPro {
      assert flag[|flag| - 5] == 'a';
    }
  }

  /** The table. Keys are Telegram ids: the `UNIQUE` constraint on `tg_id`
      allows one row per id. */
  class Store {
    var users: map<int, User>

    /** Each row is filed under its own Telegram id, and every Pro row has an
        expiry (every grant of Pro sets both together). */
    predicate Valid()
      reads this
    {
      (forall id :: id in users ==> users[id].tgId == id) &&
      (forall id :: id in users ==> ProHasExpiry(users[id]))
    }

    constructor ()
      ensures users == map[] && Valid()
    {
      users := map[];
    }

    /** `select(User).where(User.tg_id == id)` and `scalar_one_or_none()` */
    function Find(id: int): (u: Option<User>)
      reads this
      ensures u.Some? <==> id in users
      ensures u.Some? && Valid() ==> u.value.tgId == id && ProHasExpiry(u.value)
    {
      if id in users then Some(users[id]) else None
    }

    /** `session.add(user)` and commit, for an id with no row yet. */
    method Insert(u: User)
      requires Valid() && u.tgId !in users && ProHasExpiry(u)
      modifies this
      ensures Valid()
      ensures users == old(users)[u.tgId := u]
    {
      users := users[u.tgId := u];
    }

    /** `update(User).where(User.tg_id == id).values(template_text=t)`; no row,
        no change. */
    method SetTemplate(id: int, t: Option<string>)
      requires Valid()
      modifies this
      ensures Valid()
      ensures users == if id in old(users) then old(users)[id := old(users)[id].(template := t)] else old(users)
    {
      if id in users {
        users := users[id := users[id].(template := t)];
      }
    }

    /** `update(...).values(is_pro=True, expiry_date=e)`: both columns in one
        statement. */
    method GrantPro(id: int, e: Instant)
      requires Valid()
      modifies this
      ensures Valid()
      ensures users == if id in old(users) then old(users)[id := old(users)[id].(isPro := true, expiry := Some(e))] else old(users)
    {
      if id in users {
        users := users[id := users[id].(isPro := true, expiry := Some(e))];
      }
    }

    /** `update(...).values(free_uses=n)` */
    method SetFreeUses(id: int, n: int)
      requires Valid()
      modifies this
      ensures Valid()
      ensures users == if id in old(users) then old(users)[id := old(users)[id].(freeUses := n)] else old(users)
    {
      if id in users {
        users := users[id := users[id].(freeUses := n)];
      }
    }

    /** `user.is_pro = False` and commit; the expiry stays. */
    method Demote(id: int)
      requires Valid()
      modifies this
      ensures Valid()
      ensures users == if id in old(users) then old(users)[id := old(users)[id].(isPro := false)] else old(users)
    {
      if id in users {
        users := users[id := users[id].(isPro := false)];
      }
    }
  }
}
