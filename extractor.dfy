/** Field extraction from the text of a Rate Confirmation: the regex fallback,
    the cleanup of the AI reply, and the selection between the two followed by
    the mileage backfill. The AI service and the routing service are network
    calls and appear as parameters. */
module Extractor {
  import opened Wrappers
  import opened Text
  import opened Numerals
  import opened Records
  import opened Patterns

  // ------------------------------------------------------------ regex fallback

  /** `[l.strip() for l in lines if l.strip()]` */
  function NonBlankStripped(lines: seq<string>): (r: seq<string>)
    ensures |r| <= |lines|
    ensures AllStrippedLines(r)
    ensures r == [] <==> AllBlank(lines)
    decreases |lines|
  {
    if lines == [] then []
    else
      StripEmptyIff(lines[0]);
      var s := Strip(lines[0]);
      var rest := NonBlankStripped(lines[1..]);
      if s == [] then rest
      else
        StrippedLinesCons(s, rest);
        [s] + rest
  }

  /** Every line is non-empty and has no surrounding whitespace. */
  predicate AllStrippedLines(lines: seq<string>) {
    forall k :: 0 <= k < |lines| ==> lines[k] != [] && Trimmed(lines[k])
  }

  lemma StrippedLinesCons(x: string, rest: seq<string>)
    requires x != [] && Trimmed(x) && AllStrippedLines(rest)
    ensures AllStrippedLines([x] + rest)
  {
    assert forall k :: 1 <= k < |[x] + rest| ==> ([x] + rest)[k] == rest[k - 1];
  }

  /** The broker guess: the first three non-blank lines, stripped, joined by one
      space and cut to 100 characters. */
  function Broker(text: string): (b: string)
    ensures |b| <= 100
    ensures b == [] <==> AllSpace(text)
  {
    SplitLinesAllSpace(text);
    var lines := NonBlankStripped(SplitLines(text));
    if lines == [] then ""
    else
      var first := lines[..if |lines| < 3 then |lines| else 3];
      var joined := Join(first, " ");
      assert first[0] <= joined by { JoinStartsWithFirst(first, " "); }
      Prefix(joined, 100)
  }

  /** The first (up to) three entries of a line list. */
  function FirstThree(lines: seq<string>): (r: seq<string>)
    ensures |r| == if |lines| < 3 then |lines| else 3
    ensures r <= lines
  {
    lines[..if |lines| < 3 then |lines| else 3]
  }

  /** The broker depends on the first three non-blank lines alone: texts that
      agree on them, stripped, get the same broker. */
  lemma BrokerFromFirstThreeLines(t1: string, t2: string)
    requires FirstThree(NonBlankStripped(SplitLines(t1))) == FirstThree(NonBlankStripped(SplitLines(t2)))
    ensures Broker(t1) == Broker(t2)
  {
    var l1, l2 := NonBlankStripped(SplitLines(t1)), NonBlankStripped(SplitLines(t2));
    assert l1[..if |l1| < 3 then |l1| else 3] == FirstThree(l1);
    assert l2[..if |l2| < 3 then |l2| else 3] == FirstThree(l2);
    assert l1 == [] <==> l2 == [];
  }

  /** The broker starts with the first non-blank line, stripped (cut to 100
      characters); a second line follows after one space; a lone line is the
      whole broker. */
  lemma BrokerStartsWithFirstLine(text: string)
    ensures var lines := NonBlankStripped(SplitLines(text));
      lines != [] ==>
        Prefix(lines[0], 100) <= Broker(text) &&
        (|lines| >= 2 && |lines[0]| < 100 ==> Broker(text)[|lines[0]|] == ' ') &&
        (|lines| == 1 ==> Broker(text) == Prefix(lines[0], 100))
  {
    var lines := NonBlankStripped(SplitLines(text));
    if lines != [] {
      var first := FirstThree(lines);
      assert lines[..if |lines| < 3 then |lines| else 3] == first;
      var joined := Join(first, " ");
      JoinStartsWithFirst(first, " ");
      assert first[0] == lines[0];
      if |lines| >= 2 {
        assert joined == first[0] + " " + Join(first[1..], " ");
        assert joined[|lines[0]|] == ' ';
      }
    }
  }

  lemma JoinStartsWithFirst(parts: seq<string>, sep: string)
    requires parts != []
    ensures parts[0] <= Join(parts, sep)
  {
  }

  /** The shape of the group each pattern captures. */
  predicate Shaped(p: Pattern, g: string) {
    match p
    case LoadNumber => 5 <= |g| <= 10 && AllDigits(g)
    case RateAmount =>
      |g| >= 4 && g[|g| - 3] == '.' && IsDigit(g[|g| - 2]) && IsDigit(g[|g| - 1]) &&
      forall k :: 0 <= k < |g| - 3 ==> IsDigit(g[k]) || g[k] == ','
    case TotalMiles =>
      g != [] && forall k :: 0 <= k < |g| ==> IsDigit(g[k]) || g[k] == '.' || g[k] == ','
  }

  lemma TailShaped(p: Pattern, t: string, e: nat, k: nat, m: nat)
    requires TailSpan(p, t, e, k, m)
    ensures Shaped(p, t[k..m])
  {
    var g := t[k..m];
    var cls := match p case LoadNumber => Digit09 case RateAmount => DigitComma case TotalMiles => DigitDotComma;
    var n := if p == RateAmount then |g| - 3 else |g|;
    forall x | 0 <= x < |g|
      ensures g[x] == t[k + x] && (x < n ==> InClass(g[x], cls))
    {
      if x < n {
        assert InClass(t[k + x], cls);
      }
    }
  }

  /** The captured group is empty exactly when the pattern matches nowhere, and
      otherwise has the pattern's shape. */
  lemma GroupShaped(p: Pattern, t: string)
    ensures Group(p, t) == [] <==> NoMatchIn(p, t, 0, |t| + 1)
    ensures Group(p, t) != [] ==> Shaped(p, Group(p, t))
  {
    SearchSpec(p, t);
    if Search(p, t).Some? {
      var r := Search(p, t).value;
      assert Decomp(p, t, r.start, r.alt, r.groupStart, r.groupEnd);
      var e :| LabelSpan(t, r.start, e, Labels(p)[r.alt]) &&
        TailSpan(p, t, e, r.groupStart, r.groupEnd);
      TailShaped(p, t, e, r.groupStart, r.groupEnd);
    }
  }

  /** `regex_extract(text)`: the broker guess and the three pattern groups; the
      stop lists stay empty. */
  function RegexExtract(text: string): (r: Record)
    ensures r.pickups == [] && r.deliveries == []
    ensures |r.broker| <= 100 && (r.broker == [] <==> AllSpace(text))
    ensures r.loadNumber == [] || Shaped(LoadNumber, r.loadNumber)
    ensures r.rate == [] || Shaped(RateAmount, r.rate)
    ensures r.totalMiles == [] || Shaped(TotalMiles, r.totalMiles)
  {
    GroupShaped(LoadNumber, text);
    GroupShaped(RateAmount, text);
    GroupShaped(TotalMiles, text);
    EmptyRecord.(
      broker := Broker(text),
      loadNumber := Group(LoadNumber, text),
      rate := Group(RateAmount, text),
      totalMiles := Group(TotalMiles, text))
  }

  /** Each field is filled exactly when its pattern matches somewhere, and then
      holds the group of the leftmost, first-alternative, greedy match. */
  lemma RegexFieldsFollowSearch(text: string)
    ensures var r := RegexExtract(text);
      (r.loadNumber == [] <==> NoMatchIn(LoadNumber, text, 0, |text| + 1)) &&
      (r.rate == [] <==> NoMatchIn(RateAmount, text, 0, |text| + 1)) &&
      (r.totalMiles == [] <==> NoMatchIn(TotalMiles, text, 0, |text| + 1))
    ensures forall p :: Search(p, text).Some? ==>
      FirstMatch(p, text, 0, Search(p, text).value) &&
      Group(p, text) == text[Search(p, text).value.groupStart..Search(p, text).value.groupEnd]
  {
    GroupShaped(LoadNumber, text);
    GroupShaped(RateAmount, text);
    GroupShaped(TotalMiles, text);
    forall p | Search(p, text).Some?
      ensures FirstMatch(p, text, 0, Search(p, text).value)
    {
      SearchSpec(p, text);
    }
  }

  // ------------------------------------------------------------ AI reply cleanup

  const Fence: string := "```"

  /** `content.replace("```json", "").replace("```", "").strip()` */
  function CleanFences(content: string): (r: string)
    ensures !Contains(r, Fence)
  {
    var noJson := ReplaceAll(content, "```json", "");
    var noFence := ReplaceAll(noJson, Fence, "");
    NoFenceAfterRemoval(noJson);
    StripAddsNothing(noFence, Fence);
    Strip(noFence)
  }

  /** What the stripped text contains, the text contains. */
  lemma StripAddsNothing(s: string, sub: string)
    ensures Contains(Strip(s), sub) ==> Contains(s, sub)
  {
    var a := LeadCount(s);
    var b := a + |Strip(s)|;
    assert Strip(s) == s[a..b];
    if Contains(s[a..b], sub) {
      ContainsInSlice(s, a, b, sub);
    }
  }

  /** Removing every "```" leaves none behind: a backtick kept next to a removed
      fence cannot complete a new one. */
  lemma {:induction false} NoFenceAfterRemoval(t: string)
    ensures !Contains(ReplaceAll(t, Fence, ""), Fence)
    decreases |t|
  {
    if t != [] {
      if Fence <= t {
        assert ReplaceAll(t, Fence, "") == ReplaceAll(t[3..], Fence, "");
        NoFenceAfterRemoval(t[3..]);
      } else {
        var rest := ReplaceAll(t[1..], Fence, "");
        var r := [t[0]] + rest;
        assert ReplaceAll(t, Fence, "") == r;
        NoFenceAfterRemoval(t[1..]);
        forall i | 0 <= i <= |r|
          ensures !(Fence <= r[i..])
        {
          if i > 0 {
            assert r[i..] == rest[i - 1..];
          } else {
            NoFenceAtFront(t);
          }
        }
      }
    }
  }

  /** Keeping the first character of a text that does not start with "```" and
      removing the fences after it does not start a new fence. */
  lemma NoFenceAtFront(t: string)
    requires t != [] && !(Fence <= t)
    ensures !(Fence <= [t[0]] + ReplaceAll(t[1..], Fence, ""))
  {
    var r := [t[0]] + ReplaceAll(t[1..], Fence, "");
    if t[0] == '`' && |t| > 1 {
      var u := t[1..];
      assert !(Fence <= u);
      assert ReplaceAll(u, Fence, "") == [u[0]] + ReplaceAll(u[1..], Fence, "");
      if u[0] == '`' && |u| > 1 {
        var w := u[1..];
        assert w[0] != '`';
        assert !(Fence <= w);
        assert ReplaceAll(w, Fence, "") == [w[0]] + ReplaceAll(w[1..], Fence, "");
        assert r[2] == w[0];
      }
    }
  }

  // ------------------------------------------------------------ AI layer

  /** What the chat-completion call yields: the reply's content, or an exception
      anywhere in sending the request or reading `choices[0].message.content`. */
  datatype AiReply = Content(text: string) | CallFails

  /** What `json.loads` yields for a reply: a value Python treats as false (`{}`,
      `null`, ...) or an object with the record's keys. */
  datatype AiValue = FalsyValue | Object(fields: Record)

  /** The AI service as the extractor sees it: the configured key, the reply for
      a given document prefix (the prompt is a fixed text around it), and the
      JSON parser (`None` for a `JSONDecodeError`). */
  datatype AiBackend = AiBackend(
    apiKey: Option<string>,
    reply: string -> AiReply,
    parse: string -> Option<AiValue>)

  const AiTextLimit: nat := 12000

  predicate HasKey(b: AiBackend) {
    b.apiKey.Some? && b.apiKey.value != []
  }

  /** `deepseek_ai_extract(text)`; `None` when no key is set or on any exception. */
  function AiExtract(b: AiBackend, text: string): (r: Option<AiValue>)
    ensures !HasKey(b) ==> r.None?
    ensures HasKey(b) && b.reply(Prefix(text, AiTextLimit)).CallFails? ==> r.None?
    ensures HasKey(b) && b.reply(Prefix(text, AiTextLimit)).Content? ==>
      r == b.parse(CleanFences(b.reply(Prefix(text, AiTextLimit)).text))
  {
    if !HasKey(b) then None
    else
      match b.reply(Prefix(text, AiTextLimit))
      case CallFails => None
      case Content(c) => b.parse(CleanFences(c))
  }

  /** The AI layer only ever sees the first 12000 characters. */
  lemma AiSeesOnlyPrefix(b: AiBackend, t1: string, t2: string)
    requires Prefix(t1, AiTextLimit) == Prefix(t2, AiTextLimit)
    ensures AiExtract(b, t1) == AiExtract(b, t2)
  {
  }

  // ------------------------------------------------------------ selection and backfill

  /** `get_miles_free(origin, destination)`: `""` when either address is empty,
      otherwise whatever the routing service returns (`route`). */
  function MilesFree(origin: string, destination: string, route: (string, string) -> string): (m: string)
    ensures origin == [] || destination == [] ==> m == []
  {
    if origin == [] || destination == [] then "" else route(origin, destination)
  }

  /** The miles count as missing. */
  predicate MilesMissing(miles: string) {
    miles == "" || miles == "N/A" || miles == "0"
  }

  /** The miles are looked up when they are missing and both stop lists are
      non-empty. */
  predicate WantsBackfill(data: Record) {
    MilesMissing(data.totalMiles) && data.pickups != [] && data.deliveries != []
  }

  /** The in-place update of `total_miles` at the end of `smart_extract`. */
  function Backfill(data: Record, route: (string, string) -> string): (r: Record)
    ensures r.(totalMiles := data.totalMiles) == data
    ensures !WantsBackfill(data) ==> r == data
    ensures WantsBackfill(data) ==>
      r.totalMiles == MilesFree(data.pickups[0].address, data.deliveries[|data.deliveries| - 1].address, route)
  {
    if WantsBackfill(data) then
      var origin := data.pickups[0].address;
      var destination := data.deliveries[|data.deliveries| - 1].address;
      data.(totalMiles := MilesFree(origin, destination, route))
    else
      data
  }

  /** `smart_extract(text)`: the AI record when the AI layer yields a true value,
      the regex record otherwise, then the mileage backfill. */
  function SmartExtract(text: string, ai: AiBackend, route: (string, string) -> string): (r: Record)
    ensures AiExtract(ai, text).Some? && AiExtract(ai, text).value.Object? ==>
      r.(totalMiles := AiExtract(ai, text).value.fields.totalMiles) == AiExtract(ai, text).value.fields
    ensures AiExtract(ai, text).None? || AiExtract(ai, text).value.FalsyValue? ==> r == RegexExtract(text)
  {
    var data :=
      match AiExtract(ai, text)
      case Some(Object(fields)) => fields
      case _ => RegexExtract(text);
    Backfill(data, route)
  }

  /** The AI record, when there is one, is used whole: no field of the regex
      record enters the result. */
  lemma AiRecordUsedWhole(text: string, ai: AiBackend, route: (string, string) -> string)
    requires AiExtract(ai, text).Some? && AiExtract(ai, text).value.Object?
    ensures SmartExtract(text, ai, route) == Backfill(AiExtract(ai, text).value.fields, route)
  {
  }

  /** Without an AI record the result is exactly the regex record: its stop lists
      are empty, so the backfill never fires. */
  lemma FallbackIsRegex(text: string, ai: AiBackend, route: (string, string) -> string)
    requires AiExtract(ai, text).None? || AiExtract(ai, text).value.FalsyValue?
    ensures SmartExtract(text, ai, route) == RegexExtract(text)
  {
  }

  /** Without a key the bot runs on the regex extractor alone. */
  lemma NoKeyMeansRegex(text: string, ai: AiBackend, route: (string, string) -> string)
    requires !HasKey(ai)
    ensures SmartExtract(text, ai, route) == RegexExtract(text)
  {
    FallbackIsRegex(text, ai, route);
  }
}
