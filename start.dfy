/** The account commands: `/start` registration and the status it shows,
    `/my_template`, `/reset_template`, and the `/set_template` dialogue that
    waits for the user's next text. */
module Start {
  import opened Wrappers
  import opened Text
  import opened Numerals
  import opened Calendar
  import opened Accounts
  import Renderer

  /** The status shown to a returning user: `Pro ✅`, or the free uses left. */
  function StatusText(u: User): (s: string)
    ensures u.isPro <==> s == "Pro ✅"
  {
    if u.isPro then "Pro ✅" else "Free (" + IntToString(u.freeUses) + " left) \U{1F193}"
  }

  /** A Pro status is the fixed text; any other status starts with `Free (` and
      the number after it reads back as the free uses left. */
  lemma StatusTextReadsBack(u: User)
    ensures var s := StatusText(u); var n := |IntToString(u.freeUses)|;
      (u.isPro ==> s == "Pro ✅") &&
      (!u.isPro ==> |s| > 6 + n && s[..6] == "Free (" && ParseInt(s[6..6 + n]) == Some(u.freeUses))
  {
    if !u.isPro {
      var d := IntToString(u.freeUses);
      var s := StatusText(u);
      SliceOfJoin("Free (", d, " left) \U{1F193}");
      ParseIntOfString(u.freeUses);
    }
  }

  /** Pro and free statuses never look alike. */
  lemma StatusTextTellsProApart(a: User, b: User)
    requires a.isPro && !b.isPro
    ensures StatusText(a) != StatusText(b)
  {
    assert StatusText(a)[0] == 'P';
    assert StatusText(b)[0] == 'F';
  }

  /** What `/start` answers: a welcome for a new account, or the status of an
      existing one. The greeting texts around these are left out. */
  datatype StartReply = Welcome | WelcomeBack(status: string)

  /** `cmd_start`: an unknown id gets a new row with the defaults and its
      username; a known id's row is left as it is. */
  method CmdStart(store: Store, tgId: int, username: Option<string>, now: Instant) returns (r: StartReply)
    requires store.Valid()
    modifies store
    ensures store.Valid()
    ensures tgId in old(store.users) ==>
      store.users == old(store.users) && r == WelcomeBack(StatusText(old(store.users)[tgId]))
    ensures tgId !in old(store.users) ==>
      store.users == old(store.users)[tgId := NewUser(tgId, username, now)] && r == Welcome
  {
    var user := store.Find(tgId);
    if user.None? {
      store.Insert(NewUser(tgId, username, now));
      r := Welcome;
    } else {
      r := WelcomeBack(StatusText(user.value));
    }
  }

  const DefaultTemplateLabel: string := "Alice's Default (Sassy & Bold) \U{1F485}"

  /** `/my_template`: the stored template when there is a non-empty one, else the
      name of the built-in template. */
  function CurrentTemplate(u: Option<User>): (s: string)
    ensures u.Some? && u.value.template.Some? && u.value.template.value != [] ==> s == u.value.template.value
    ensures u.None? || u.value.template.None? || u.value.template.value == [] ==> s == DefaultTemplateLabel
  {
    if u.Some? && u.value.template.Some? && u.value.template.value != [] then u.value.template.value
    else DefaultTemplateLabel
  }

  /** `/my_template` names the built-in template exactly when rendering would use it. */
  lemma CurrentTemplateMatchesRenderer(u: User)
    ensures Renderer.SelectTemplate(u.template).BuiltIn? ==> CurrentTemplate(Some(u)) == DefaultTemplateLabel
    ensures Renderer.SelectTemplate(u.template).UserText? ==>
      CurrentTemplate(Some(u)) == Renderer.SelectTemplate(u.template).text
  {
  }

  /** `cmd_reset_template`: the stored template becomes `NULL`. */
  method CmdResetTemplate(store: Store, tgId: int)
    requires store.Valid()
    modifies store
    ensures store.Valid()
    ensures store.users == if tgId in old(store.users)
      then old(store.users)[tgId := old(store.users)[tgId].(template := None)] else old(store.users)
  {
    store.SetTemplate(tgId, None);
  }

  const TagMarker: string := "{{"

  /** The commands `start.router` registers ahead of the waiting-state handlers. */
  datatype StartCommand = StartCmd | MyTemplateCmd | ResetTemplateCmd | SetTemplateCmd

  /** The command word aiogram's `Command` filter reads: the first whitespace
      token, when it begins with `/`, without the `/` and without an `@mention`. */
  function CommandWord(text: string): (w: Option<string>)
    ensures w.Some? ==> '@' !in w.value
  {
    var tokens := SplitWhitespace(text);
    if tokens == [] || tokens[0][0] != '/' then None
    else
      var name := tokens[0][1..];
      Some(name[..IndexOf(name, '@')])
  }

  /** The handler of `start.router` registered before `auto_cancel_template`
      that takes the text, if any: `CommandStart()` also takes `/start` with a
      payload, and every `Command` takes arguments after the word. */
  function RoutedCommand(text: string): (c: Option<StartCommand>)
    ensures c.Some? <==> (CommandWord(text).Some? &&
      CommandWord(text).value in {"start", "my_template", "reset_template", "set_template"})
  {
    match CommandWord(text)
    case Some("start") => Some(StartCmd)
    case Some("my_template") => Some(MyTemplateCmd)
    case Some("reset_template") => Some(ResetTemplateCmd)
    case Some("set_template") => Some(SetTemplateCmd)
    case _ => None
  }

  /** What the dialogue does with a text received while it waits for a template. */
  datatype TemplateStep = Routed(command: StartCommand) | Cancelled | Rejected | Saved

  /** The handlers that see a text in the waiting state, in their registration
      order: one of the four commands above runs its own handler; any other text
      starting with `/` cancels, and since `auto_cancel_template` returns a value
      the message counts as handled and nothing answers it; a text without `{{` is
      rejected; anything else is saved. */
  function Classify(text: string): (k: TemplateStep)
    ensures k.Routed? <==> RoutedCommand(text).Some?
    ensures k.Routed? ==> k.command == RoutedCommand(text).value
    ensures k == Cancelled <==> RoutedCommand(text).None? && StartsWith(text, "/")
    ensures k == Rejected <==> !StartsWith(text, "/") && !Contains(text, TagMarker) && RoutedCommand(text).None?
    ensures k == Saved <==> !StartsWith(text, "/") && Contains(text, TagMarker) && RoutedCommand(text).None?
  {
    var c := RoutedCommand(text);
    if c.Some? then Routed(c.value)
    else if StartsWith(text, "/") then Cancelled
    else if !Contains(text, TagMarker) then Rejected
    else Saved
  }

  /** The first token of `a + b` is `a` when `a` has no whitespace and `b` is
      empty or starts with whitespace. */
  lemma {:induction false} TokenEndAt(a: string, b: string)
    requires NoSpace(a) && (b == [] || IsSpace(b[0]))
    ensures TokenEnd(a + b) == |a|
    decreases |a|
  {
    if a != [] {
      assert (a + b)[1..] == a[1..] + b;
      TokenEndAt(a[1..], b);
    } else {
      assert a + b == b;
    }
  }

  /** The command word of `/name` followed by nothing or by whitespace and
      arguments is `name`. */
  lemma CommandWordOf(name: string, rest: string)
    requires NoSpace(name) && '@' !in name && (rest == [] || IsSpace(rest[0]))
    ensures CommandWord("/" + name + rest) == Some(name)
  {
    var a := "/" + name;
    var text := a + rest;
    assert "/" + name + rest == text;
    assert NoSpace(a) by {
      forall k | 0 <= k < |a| ensures !IsSpace(a[k]) {
        if k > 0 { assert a[k] == name[k - 1]; }
      }
    }
    assert TrimLeft(text) == text;
    TokenEndAt(a, rest);
    assert text[..|a|] == a;
    assert SplitWhitespace(text)[0] == a;
    assert a[1..] == name;
    assert IndexOf(name, '@') == |name|;
    assert name[..|name|] == name;
  }

  /** The four command words of `start.router`. */
  predicate RoutedWord(name: string) {
    name in {"start", "my_template", "reset_template", "set_template"}
  }

  /** While the dialogue waits, any other command is swallowed: it cancels, and
      no later handler (`cmd_help`, the commands of the other routers) runs. */
  lemma OtherCommandIsCancelled(name: string, rest: string)
    requires NoSpace(name) && '@' !in name && (rest == [] || IsSpace(rest[0]))
    requires !RoutedWord(name)
    ensures Classify("/" + name + rest) == Cancelled
  {
    CommandWordOf(name, rest);
    assert StartsWith("/" + name + rest, "/");
  }

  /** The four commands of `start.router` reach their own handlers, with or
      without arguments; `auto_cancel_template` never sees them. */
  lemma RoutedCommandIsKept(name: string, rest: string)
    requires NoSpace(name) && '@' !in name && (rest == [] || IsSpace(rest[0]))
    requires RoutedWord(name)
    ensures Classify("/" + name + rest).Routed?
    ensures name == "reset_template" ==> Classify("/" + name + rest) == Routed(ResetTemplateCmd)
  {
    CommandWordOf(name, rest);
  }

  /** `/help`, in particular, is cancelled while the dialogue waits. */
  lemma HelpIsCancelled()
    ensures Classify("/help") == Cancelled
  {
    OtherCommandIsCancelled("help", "");
    assert "/" + "help" + "" == "/help";
  }

  /** A saved template is never empty, so rendering uses it rather than the
      built-in one. */
  lemma SavedTemplateIsUsed(text: string)
    requires Classify(text) == Saved
    ensures Renderer.SelectTemplate(Some(text)) == Renderer.UserText(text)
  {
    assert text != [];
  }

  /** The users for whom `/set_template` is waiting for a template. */
  class TemplateDialogue {
    var waiting: set<int>

    constructor ()
      ensures waiting == {}
    {
      waiting := {};
    }

    /** `cmd_set_template`: from now on the user's next text is taken as a template. */
    method CmdSetTemplate(tgId: int)
      modifies this
      ensures waiting == old(waiting) + {tgId}
    {
      waiting := waiting + {tgId};
    }

    /** The next text of a waiting user. One of the four commands routed ahead
        of the dialogue has its own effect and the state is kept; another command
        clears the state and saves nothing; a text without `{{` is refused and the
        state is kept; any other text is stored verbatim and the state is cleared. */
    method OnText(store: Store, tgId: int, text: string, username: Option<string>, now: Instant)
      returns (k: TemplateStep)
      requires tgId in waiting && store.Valid()
      modifies this, store
      ensures store.Valid()
      ensures k == Classify(text)
      ensures k.Routed? ==> waiting == old(waiting)
      ensures k == Routed(StartCmd) ==> store.users == if tgId in old(store.users)
        then old(store.users) else old(store.users)[tgId := NewUser(tgId, username, now)]
      ensures k == Routed(MyTemplateCmd) || k == Routed(SetTemplateCmd) ==> store.users == old(store.users)
      ensures k == Routed(ResetTemplateCmd) ==> store.users == if tgId in old(store.users)
        then old(store.users)[tgId := old(store.users)[tgId].(template := None)] else old(store.users)
      ensures k == Cancelled ==> waiting == old(waiting) - {tgId} && store.users == old(store.users)
      ensures k == Rejected ==> waiting == old(waiting) && store.users == old(store.users)
      ensures k == Saved ==> waiting == old(waiting) - {tgId}
      ensures k == Saved ==> store.users == if tgId in old(store.users)
        then old(store.users)[tgId := old(store.users)[tgId].(template := Some(text))] else old(store.users)
    {
      k := Classify(text);
      match k
      case Routed(StartCmd) =>
        var _ := CmdStart(store, tgId, username, now);
      case Routed(MyTemplateCmd) =>
      case Routed(ResetTemplateCmd) =>
        CmdResetTemplate(store, tgId);
      case Routed(SetTemplateCmd) =>
        CmdSetTemplate(tgId);
        assert waiting == old(waiting);
      case Cancelled =>
        waiting := waiting - {tgId};
      case Rejected =>
      case Saved =>
        store.SetTemplate(tgId, Some(text));
        waiting := waiting - {tgId};
    }
  }
}
