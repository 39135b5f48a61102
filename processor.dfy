/** The PDF orchestrator: the admission gate for an upload, the per-user FIFO
    queues and their workers, the per-item pipeline with its error message and
    free-use charge, the progress pulses shown while the AI works, and the
    status edit that never fails. The event loop is modelled as a sequence of
    atomic steps: an upload, one processed item, a worker retiring. */
module Processor {
  import opened Wrappers
  import opened Text
  import opened Accounts
  import opened Records
  import PdfEngine
  import Extractor
  import Renderer

  // ------------------------------------------------------------ admission

  /** The answers of `handle_pdf` before anything is queued. */
  datatype Admission = Stranger | OutOfFreebies | Admitted

  /** A non-admin needs a row, and a free row needs a free use left; an admin
      passes even without a row. */
  function Admit(isAdmin: bool, user: Option<User>): (r: Admission)
    ensures r == Stranger <==> !isAdmin && user.None?
    ensures r == OutOfFreebies <==> !isAdmin && user.Some? && !user.value.isPro && user.value.freeUses <= 0
    ensures r == Admitted <==> isAdmin || (user.Some? && (user.value.isPro || user.value.freeUses > 0))
  {
    if user.None? && !isAdmin then Stranger
    else if !isAdmin && user.Some? && !user.value.isPro && user.value.freeUses <= 0 then OutOfFreebies
    else Admitted
  }

  // ------------------------------------------------------------ one item

  /** A queued upload: where to answer, which file, and the status message to
      edit and delete. */
  datatype Item = Item(chatId: int, fileId: string, msgId: int)

  /** Fetching a file from Telegram and writing it to a temporary file: the PDF,
      or the exception on the way. */
  datatype Download = Downloaded(pdf: PdfEngine.PdfSource) | DownloadFails(reason: string)

  /** The outside services one item goes through. */
  datatype Services = Services(
    files: string -> Download,
    ai: Extractor.AiBackend,
    route: (string, string) -> string,
    jinja: Renderer.Jinja)

  /** The message an item ends with; `delivered` is the rendered result, the
      other kind is the error message. */
  datatype Sent = Sent(chatId: int, text: string, delivered: bool)

  const ErrorPrefix: string := "\U{1F644} Ugh, even I can't fix this error: "

  /** The user's stored template, read with the row at the start of the item. */
  function TemplateOf(users: map<int, User>, uid: int): Option<string> {
    if uid in users then users[uid].template else None
  }

  /** The body of the `try` for one item: download, text extraction, the AI or
      regex record, rendering. An exception anywhere, including one that
      `render_result` lets through, becomes the error message, in the same chat. */
  function ItemReply(item: Item, template: Option<string>, env: Services): (r: Sent)
    ensures r.chatId == item.chatId
  {
    match env.files(item.fileId)
    case DownloadFails(reason) => Sent(item.chatId, ErrorPrefix + reason, false)
    case Downloaded(pdf) =>
      match Rendered(pdf, template, env)
      case Message(text) => Sent(item.chatId, text, true)
      case Raises(detail) => Sent(item.chatId, ErrorPrefix + detail, false)
  }

  /** The result of the pipeline is what the user sees: an item is delivered
      exactly when its file was fetched and rendering gave a message, and then
      the message is that rendering. */
  lemma ItemReplyDelivers(item: Item, template: Option<string>, env: Services)
    ensures var r := ItemReply(item, template, env);
      var f := env.files(item.fileId);
      (r.delivered <==> f.Downloaded? && Rendered(f.pdf, template, env).Message?) &&
      (r.delivered ==> r.text == Rendered(f.pdf, template, env).text)
  {
  }

  /** A failing item is answered with the error prefix followed by the reason:
      the download's exception or the one rendering let through. */
  lemma ItemReplyErrors(item: Item, template: Option<string>, env: Services)
    ensures var r := ItemReply(item, template, env);
      var f := env.files(item.fileId);
      (f.DownloadFails? ==> r.text == ErrorPrefix + f.reason) &&
      (f.Downloaded? && Rendered(f.pdf, template, env).Raises? ==>
        r.text == ErrorPrefix + Rendered(f.pdf, template, env).detail) &&
      (!r.delivered ==> StartsWith(r.text, ErrorPrefix))
  {
  }

  /** Extraction, the record and rendering for a fetched PDF. */
  function Rendered(pdf: PdfEngine.PdfSource, template: Option<string>, env: Services): Renderer.Outcome {
    Renderer.RenderResult(Extractor.SmartExtract(PdfEngine.ExtractText(pdf), env.ai, env.route), template, env.jinja)
  }

  /** The `try` body run for one item, step by step: fetch the file, read its
      text, build the record, render it, and leave with the error message at the
      first step that raises. */
  method Answer(item: Item, template: Option<string>, env: Services) returns (r: Sent)
    ensures r == ItemReply(item, template, env)
  {
    var file := env.files(item.fileId);
    if file.DownloadFails? {
      return Sent(item.chatId, ErrorPrefix + file.reason, false);
    }
    var text := PdfEngine.ExtractTextSync(file.pdf);
    var data := Extractor.SmartExtract(text, env.ai, env.route);
    var output := Renderer.RenderResult(data, template, env.jinja);
    if output.Raises? {
      return Sent(item.chatId, ErrorPrefix + output.detail, false);
    }
    r := Sent(item.chatId, output.text, true);
  }

  /** A findable user's rows after an item: a delivered result costs a non-admin
      free row one use, counted from the value read for this item. */
  function Charged(users: map<int, User>, admins: seq<int>, uid: int, delivered: bool): (r: map<int, User>)
    ensures forall id :: id in r <==> id in users
    ensures forall id :: id in users && id != uid ==> r[id] == users[id]
    ensures uid in users ==> r[uid].(freeUses := users[uid].freeUses) == users[uid]
    ensures uid in users ==>
      r[uid].freeUses == users[uid].freeUses - (if delivered && Pays(users, admins, uid) then 1 else 0)
  {
    if delivered && uid !in admins && uid in users && !users[uid].isPro then
      users[uid := users[uid].(freeUses := users[uid].freeUses - 1)]
    else users
  }

  /** Whether a user's deliveries are charged. */
  predicate Pays(users: map<int, User>, admins: seq<int>, uid: int) {
    uid !in admins && uid in users && !users[uid].isPro
  }

  /** The number of delivered results among `rs`. */
  function DeliveredCount(rs: seq<Sent>): (n: nat)
    ensures n <= |rs|
    decreases |rs|
  {
    if rs == [] then 0
    else DeliveredCount(rs[..|rs| - 1]) + (if rs[|rs| - 1].delivered then 1 else 0)
  }

  /** Step 5 of an item: the `free_uses` update after a delivered result. */
  method Charge(store: Store, admins: seq<int>, uid: int, delivered: bool)
    requires store.Valid()
    modifies store
    ensures store.Valid()
    ensures store.users == Charged(old(store.users), admins, uid, delivered)
  {
    var user := store.Find(uid);
    if delivered && uid !in admins && user.Some? && !user.value.isPro {
      store.SetFreeUses(uid, user.value.freeUses - 1);
    }
  }

  // ------------------------------------------------------------ queues and workers

  class Orchestrator {
    /** `user_queues`: one FIFO queue per user that ever uploaded; never removed. */
    var queues: map<int, seq<Item>>
    /** The users with a live entry in `user_workers`. */
    var workers: set<int>

    /** Every worker has its queue, and no waiting upload is without a worker. */
    predicate Valid()
      reads this
    {
      (forall uid :: uid in workers ==> uid in queues) &&
      (forall uid :: uid in queues && queues[uid] != [] ==> uid in workers)
    }

    constructor ()
      ensures queues == map[] && workers == {} && Valid()
    {
      queues := map[];
      workers := {};
    }

    function QueueOf(uid: int): seq<Item>
      reads this
    {
      if uid in queues then queues[uid] else []
    }

    /** `handle_pdf`: a refused upload changes nothing; an admitted one goes to
        the back of the user's queue (created when absent), and a worker is
        started exactly when the user has none. */
    method HandlePdf(store: Store, admins: seq<int>, uid: int, item: Item) returns (gate: Admission, spawned: bool)
      requires Valid()
      modifies this
      ensures Valid()
      ensures gate == Admit(uid in admins, store.Find(uid))
      ensures gate != Admitted ==> queues == old(queues) && workers == old(workers) && !spawned
      ensures gate == Admitted ==>
        queues == old(queues)[uid := old(QueueOf(uid)) + [item]] &&
        workers == old(workers) + {uid} &&
        (spawned <==> uid !in old(workers))
    {
      gate := Admit(uid in admins, store.Find(uid));
      spawned := false;
      if gate != Admitted {
        return;
      }
      if uid !in queues {
        queues := queues[uid := []];
      }
      queues := queues[uid := queues[uid] + [item]];
      if uid !in workers {
        workers := workers + {uid};
        spawned := true;
      }
    }

    /** One turn of the worker loop: the oldest item is taken off the queue and
        answered, and a delivered result is charged. */
    method ProcessNext(store: Store, admins: seq<int>, uid: int, env: Services) returns (reply: Sent)
      requires Valid() && store.Valid()
      requires uid in workers && QueueOf(uid) != []
      modifies this, store
      ensures Valid() && store.Valid()
      ensures workers == old(workers)
      ensures queues == old(queues)[uid := old(queues[uid])[1..]]
      ensures reply == ItemReply(old(queues[uid])[0], TemplateOf(old(store.users), uid), env)
      ensures store.users == Charged(old(store.users), admins, uid, reply.delivered)
    {
      var item := queues[uid][0];
      queues := queues[uid := queues[uid][1..]];
      var user := store.Find(uid);
      reply := Answer(item, if user.Some? then user.value.template else None, env);
      Charge(store, admins, uid, reply.delivered);
    }

    /** The `finally` of the worker: its entry leaves `user_workers`; the empty
        queue stays. */
    method Retire(uid: int)
      requires Valid() && uid in workers && QueueOf(uid) == []
      modifies this
      ensures Valid()
      ensures queues == old(queues) && workers == old(workers) - {uid}
    {
      workers := workers - {uid};
    }

    /** `process_user_queue` run to the end with no upload arriving meanwhile:
        every queued item is answered, in arrival order, a failing item not
        stopping the ones after it; a charged user loses one free use per
        delivered result; then the worker retires. */
    method RunWorker(store: Store, admins: seq<int>, uid: int, env: Services) returns (replies: seq<Sent>)
      requires Valid() && store.Valid() && uid in workers
      modifies this, store
      ensures Valid() && store.Valid()
      ensures queues == old(queues)[uid := []] && workers == old(workers) - {uid}
      ensures |replies| == |old(queues[uid])|
      ensures forall k :: 0 <= k < |replies| ==>
        replies[k] == ItemReply(old(queues[uid])[k], TemplateOf(old(store.users), uid), env)
      ensures store.users == ChargedTimes(old(store.users), admins, uid, DeliveredCount(replies))
    {
      ghost var queues0 := queues;
      ghost var users0 := store.users;
      replies := [];
      while queues[uid] != []
        invariant Draining(store, admins, uid, env, queues0, users0, replies)
        invariant workers == old(workers)
        decreases |queues[uid]|
      {
        replies := DrainStep(store, admins, uid, env, queues0, users0, replies);
      }
      Retire(uid);
    }

    /** Part way through `RunWorker`: the first `|replies|` items are answered
        and charged, the rest still queued. */
    ghost predicate Draining(store: Store, admins: seq<int>, uid: int, env: Services,
      queues0: map<int, seq<Item>>, users0: map<int, User>, replies: seq<Sent>)
      reads this, store
    {
      Valid() && store.Valid() && uid in workers && uid in queues0 &&
      |replies| <= |queues0[uid]| && queues == queues0[uid := queues0[uid][|replies|..]] &&
      Answered(queues0[uid], replies, TemplateOf(users0, uid), env) &&
      store.users == ChargedTimes(users0, admins, uid, DeliveredCount(replies))
    }

    /** One turn of the loop in `RunWorker`. */
    method DrainStep(store: Store, admins: seq<int>, uid: int, env: Services,
      ghost queues0: map<int, seq<Item>>, ghost users0: map<int, User>, replies: seq<Sent>) returns (next: seq<Sent>)
      requires Draining(store, admins, uid, env, queues0, users0, replies) && queues[uid] != []
      modifies this, store
      ensures Draining(store, admins, uid, env, queues0, users0, next)
      ensures workers == old(workers) && |queues[uid]| < old(|queues[uid]|)
    {
      ghost var items := queues0[uid];
      ghost var before := store.users;
      ChargedKeepsTemplate(users0, admins, uid, DeliveredCount(replies));
      assert items[|replies|..][0] == items[|replies|];
      var r := ProcessNext(store, admins, uid, env);
      ChargeAfterReply(users0, admins, uid, replies, r, before, store.users);
      AnsweredSnoc(items, replies, r, TemplateOf(users0, uid), env);
      next := replies + [r];
      assert items[|next| - 1..][1..] == items[|next|..];
    }
  }

  /** The rows after one more item of the worker: the charge of its reply on
      top of the earlier ones. */
  lemma ChargeAfterReply(users0: map<int, User>, admins: seq<int>, uid: int, replies: seq<Sent>, r: Sent,
    before: map<int, User>, after: map<int, User>)
    requires before == ChargedTimes(users0, admins, uid, DeliveredCount(replies))
    requires after == Charged(before, admins, uid, r.delivered)
    ensures after == ChargedTimes(users0, admins, uid, DeliveredCount(replies + [r]))
  {
    ChargedStep(users0, admins, uid, DeliveredCount(replies), r.delivered);
    DeliveredCountSnoc(replies, r);
  }

  /** The first `|replies|` items have been answered with `template`, in order. */
  ghost predicate Answered(items: seq<Item>, replies: seq<Sent>, template: Option<string>, env: Services) {
    |replies| <= |items| &&
    forall k :: 0 <= k < |replies| ==> replies[k] == ItemReply(items[k], template, env)
  }

  lemma AnsweredSnoc(items: seq<Item>, replies: seq<Sent>, r: Sent, template: Option<string>, env: Services)
    requires Answered(items, replies, template, env) && |replies| < |items|
    requires r == ItemReply(items[|replies|], template, env)
    ensures Answered(items, replies + [r], template, env)
  {
    var next := replies + [r];
    forall k | 0 <= k < |next|
      ensures next[k] == ItemReply(items[k], template, env)
    {
      if k < |replies| {
        assert next[k] == replies[k];
      }
    }
  }

  /** The rows after `n` charged deliveries: only the uploader's free-use count
      changes, and it goes down by `n` exactly when the uploader pays. */
  function ChargedTimes(users: map<int, User>, admins: seq<int>, uid: int, n: nat): (r: map<int, User>)
    ensures forall id :: id in r <==> id in users
    ensures forall id :: id in users && id != uid ==> r[id] == users[id]
    ensures uid in users ==> r[uid].(freeUses := users[uid].freeUses) == users[uid]
    ensures uid in users ==> r[uid].freeUses == users[uid].freeUses - (if Pays(users, admins, uid) then n else 0)
  {
    if Pays(users, admins, uid) then users[uid := users[uid].(freeUses := users[uid].freeUses - n)] else users
  }

  lemma ChargedKeepsTemplate(users: map<int, User>, admins: seq<int>, uid: int, n: nat)
    ensures TemplateOf(ChargedTimes(users, admins, uid, n), uid) == TemplateOf(users, uid)
    ensures Pays(ChargedTimes(users, admins, uid, n), admins, uid) == Pays(users, admins, uid)
  {
  }

  lemma ChargedStep(users: map<int, User>, admins: seq<int>, uid: int, n: nat, delivered: bool)
    ensures Charged(ChargedTimes(users, admins, uid, n), admins, uid, delivered) ==
      ChargedTimes(users, admins, uid, n + if delivered then 1 else 0)
  {
  }

  lemma DeliveredCountSnoc(rs: seq<Sent>, r: Sent)
    ensures DeliveredCount(rs + [r]) == DeliveredCount(rs) + if r.delivered then 1 else 0
  {
    assert (rs + [r])[..|rs + [r]| - 1] == rs;
  }

  // ------------------------------------------------------------ progress

  const PulseStart: int := 50
  const PulseCap: int := 95

  /** The status pulses shown while the AI task runs, for a task that is still
      running at `ticks` checks: from 50, up 5 while below 95, each new value
      shown. */
  method ProgressPulses(ticks: nat) returns (pulses: seq<int>)
    ensures |pulses| == if ticks < 9 then ticks else 9
    ensures forall k :: 0 <= k < |pulses| ==> pulses[k] == 55 + 5 * k
    ensures forall k :: 0 <= k < |pulses| ==> pulses[k] <= PulseCap
    ensures forall j, k :: 0 <= j < k < |pulses| ==> pulses[j] < pulses[k]
  {
    var percent := PulseStart;
    pulses := [];
    var i := 0;
    while i < ticks
      invariant 0 <= i <= ticks
      invariant |pulses| == if i < 9 then i else 9
      invariant percent == PulseStart + 5 * |pulses|
      invariant forall k :: 0 <= k < |pulses| ==> pulses[k] == 55 + 5 * k
    {
      if percent < PulseCap {
        percent := percent + 5;
        pulses := pulses + [percent];
      }
      i := i + 1;
    }
  }

  /** `(percent // 10) % len(quotes)` over the three quotes. */
  function QuoteIndex(percent: int): (i: int)
    ensures 0 <= i < 3
  {
    (percent / 10) % 3
  }

  /** The quotes cycle as 2, 0, 0, 1, 1, 2, 2, 0, 0 over the nine pulses. */
  lemma PulseQuotes(pulses: seq<int>)
    requires |pulses| == 9 && forall k :: 0 <= k < 9 ==> pulses[k] == 55 + 5 * k
    ensures seq(9, k requires 0 <= k < 9 => QuoteIndex(pulses[k])) == [2, 0, 0, 1, 1, 2, 2, 0, 0]
  {
  }

  // ------------------------------------------------------------ status edits

  /** What `bot.edit_message_text` does: the edited message, a
      `TelegramBadRequest` with its description, or any other exception. */
  datatype EditResult = Edited(messageId: int) | BadRequest(description: string) | OtherFailure

  /** `safe_edit_status`: the edited message, or `None` whatever went wrong;
      it never raises. */
  function SafeEditStatus(r: EditResult): (m: Option<int>)
    ensures m.Some? <==> r.Edited?
    ensures r.Edited? ==> m.value == r.messageId
  {
    match r
    case Edited(id) => Some(id)
    case BadRequest(_) => None
    case OtherFailure => None
  }
}
