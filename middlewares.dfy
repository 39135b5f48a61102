/** The two middlewares every message passes: the per-user throttle and the
    subscription check that ends expired Pro subscriptions. */
module Middlewares {
  import opened Wrappers
  import opened Text
  import opened Calendar
  import opened Accounts

  // ------------------------------------------------------------ throttle

  /** The default minimum gap, in seconds, between two accepted messages of a user. */
  const DefaultLimit: real := 1.0

  /** A user's message at `now` is let through when the user has no accepted
      message yet, or the last one is at least `limit` seconds old. */
  predicate Admits(last: Option<real>, limit: real, now: real) {
    last.None? || now - last.value >= limit
  }

  function LastAccepted(caches: map<int, real>, uid: int): Option<real> {
    if uid in caches then Some(caches[uid]) else None
  }

  /** Whether `ThrottlingMiddleware.__call__` hands the message on: admins
      always; anyone else as `Admits` says. */
  predicate Passes(caches: map<int, real>, limit: real, admins: seq<int>, uid: int, now: real) {
    uid in admins || Admits(LastAccepted(caches, uid), limit, now)
  }

  /** The cache after the call: a non-admin's accepted message records its
      time; admins and dropped messages leave the cache as it was. */
  function CachesAfter(caches: map<int, real>, limit: real, admins: seq<int>, uid: int, now: real): (r: map<int, real>)
    ensures forall u :: u != uid ==> LastAccepted(r, u) == LastAccepted(caches, u)
    ensures uid in admins || !Passes(caches, limit, admins, uid, now) ==> r == caches
  {
    if uid in admins || !Admits(LastAccepted(caches, uid), limit, now) then caches else caches[uid := now]
  }

  class Throttle {
    const limit: real
    var caches: map<int, real>

    constructor (limit: real)
      ensures this.limit == limit && caches == map[]
    {
      this.limit := limit;
      caches := map[];
    }

    /** `ThrottlingMiddleware.__call__`: whether the handler runs, and the
        sender's entry set to `now` when a non-admin's message passes. */
    method Call(admins: seq<int>, uid: int, now: real) returns (passes: bool)
      modifies this
      ensures passes == Passes(old(caches), limit, admins, uid, now)
      ensures caches == CachesAfter(old(caches), limit, admins, uid, now)
    {
      if uid in admins {
        return true;
      }
      if uid in caches {
        if now - caches[uid] < limit {
          return false;
        }
      }
      caches := caches[uid := now];
      passes := true;
    }
  }

  /** The verdicts on one non-admin user's messages at `times`, starting from the
      user's last accepted time `last`. Other users' messages do not matter:
      each call changes only the sender's entry. */
  function Verdicts(last: Option<real>, limit: real, times: seq<real>): (r: seq<bool>)
    ensures |r| == |times|
    decreases |times|
  {
    if times == [] then []
    else
      var ok := Admits(last, limit, times[0]);
      [ok] + Verdicts(if ok then Some(times[0]) else last, limit, times[1..])
  }

  /** The verdicts are the ones the cache gives message by message. */
  lemma VerdictsFollowCache(caches: map<int, real>, limit: real, admins: seq<int>, uid: int, times: seq<real>)
    requires uid !in admins && times != []
    ensures Verdicts(LastAccepted(caches, uid), limit, times)[0] == Passes(caches, limit, admins, uid, times[0])
    ensures Verdicts(LastAccepted(caches, uid), limit, times)[1..] ==
      Verdicts(LastAccepted(CachesAfter(caches, limit, admins, uid, times[0]), uid), limit, times[1..])
  {
  }

  /** With a non-negative limit, every accepted message is at least `limit`
      after the time it started from, and any two accepted messages are at
      least `limit` apart, however the times are ordered. */
  lemma {:induction false} AcceptedAreSpaced(last: Option<real>, limit: real, times: seq<real>)
    requires limit >= 0.0
    ensures var v := Verdicts(last, limit, times);
      forall j :: 0 <= j < |times| && v[j] && last.Some? ==> times[j] - last.value >= limit
    ensures var v := Verdicts(last, limit, times);
      forall i, j :: 0 <= i < j < |times| && v[i] && v[j] ==> times[j] - times[i] >= limit
    decreases |times|
  {
    if times != [] {
      var v := Verdicts(last, limit, times);
      var ok := Admits(last, limit, times[0]);
      var next := if ok then Some(times[0]) else last;
      var rest := Verdicts(next, limit, times[1..]);
      AcceptedAreSpaced(next, limit, times[1..]);
      assert v == [ok] + rest;
      assert forall j :: 1 <= j < |times| ==> v[j] == rest[j - 1] && times[j] == times[1..][j - 1];
    }
  }

  // ------------------------------------------------------------ subscription

  /** What the subscription middleware looks at in an update: the sender, the
      text if any, and whether it carries a document of type `application/pdf`. */
  datatype Event = Event(sender: int, text: Option<string>, isPdf: bool)

  /** A text starting with `/` goes straight to its handler. */
  predicate IsCommand(e: Event) {
    e.text.Some? && e.text.value != [] && StartsWith(e.text.value, "/")
  }

  /** The account after the expiry check: a Pro whose expiry has passed is no
      longer Pro; the expiry itself stays. */
  function Refreshed(u: User, now: Instant): (r: User)
    ensures r.(isPro := u.isPro) == u
    ensures r.isPro <==> u.isPro && (u.expiry.None? || u.expiry.value >= now)
  {
    if u.isPro && u.expiry.Some? && u.expiry.value < now then u.(isPro := false) else u
  }

  /** Refreshing twice at the same moment changes nothing more. */
  lemma RefreshedIdempotent(u: User, now: Instant)
    ensures Refreshed(Refreshed(u, now), now) == Refreshed(u, now)
  {
  }

  /** The accounts the check reads: non-command PDF uploads of non-admins. */
  predicate ChecksAccount(admins: seq<int>, e: Event) {
    !IsCommand(e) && e.isPdf && e.sender !in admins
  }

  /** `SubscriptionMiddleware.__call__`: the handler runs once on every path; the
      result is the `db_user` it is given. A command, another kind of update, an
      admin or a failing database read change nothing; otherwise a sender with
      a row gets `Refreshed` and is handed to the handler. */
  method Subscription(store: Store, admins: seq<int>, e: Event, now: Instant, dbFails: bool) returns (dbUser: Option<User>)
    requires store.Valid()
    modifies store
    ensures store.Valid()
    ensures !ChecksAccount(admins, e) || dbFails || e.sender !in old(store.users) ==>
      store.users == old(store.users) && dbUser.None?
    ensures ChecksAccount(admins, e) && !dbFails && e.sender in old(store.users) ==>
      dbUser == Some(Refreshed(old(store.users)[e.sender], now)) &&
      store.users == old(store.users)[e.sender := Refreshed(old(store.users)[e.sender], now)]
  {
    dbUser := None;
    if IsCommand(e) || !e.isPdf || e.sender in admins || dbFails {
      return;
    }
    var user := store.Find(e.sender);
    if user.Some? {
      var u := user.value;
      if u.isPro && u.expiry.Some? && u.expiry.value < now {
        store.Demote(e.sender);
      } else {
        assert old(store.users)[e.sender := u] == old(store.users);
      }
      dbUser := Some(Refreshed(u, now));
    }
  }
}
