/** The settings read from the environment when the bot starts. `None` is an
    unset variable. */
module Config {
  import opened Wrappers
  import opened Text
  import opened Numerals

  /** Start-up fails with `ValueError`: for a missing token, or for an admin id
      that `int` does not accept. */
  datatype ConfigError = MissingBotToken | BadAdminId(fragment: string)

  /** `BOT_TOKEN`: required and non-empty. */
  function BotToken(env: Option<string>): (r: Result<string, ConfigError>)
    ensures r.Ok? <==> env.Some? && env.value != []
    ensures r.Ok? ==> r.value == env.value
  {
    if env.Some? && env.value != [] then Ok(env.value) else Err(MissingBotToken)
  }

  /** A missing `DEEPSEEK_API_KEY` only prints a warning; start-up goes on. */
  function DeepSeekWarning(env: Option<string>): (warns: bool)
    ensures warns <==> env.None? || env.value == []
  {
    env.None? || env.value == []
  }

  const SqliteUrl: string := "sqlite+aiosqlite:///./bot_database.db"
  const PostgresScheme: string := "postgres://"
  const AsyncpgScheme: string := "postgresql+asyncpg://"

  /** `DATABASE_URL`: a local SQLite file when unset or empty; a `postgres://`
      URL gets the asyncpg driver's scheme (`replace(..., 1)` changes the first
      occurrence, which is the prefix). */
  function DatabaseUrl(env: Option<string>): (u: string)
    ensures u != [] && !StartsWith(u, PostgresScheme)
  {
    if env.None? || env.value == [] then assert SqliteUrl[0] != PostgresScheme[0]; SqliteUrl
    else if StartsWith(env.value, PostgresScheme) then
      var u := AsyncpgScheme + env.value[|PostgresScheme|..];
      assert u[8] != PostgresScheme[8];
      u
    else env.value
  }

  /** The three cases of the URL: the default, the rewritten prefix with the rest
      of the URL kept, and every other URL unchanged. */
  lemma DatabaseUrlCases(env: Option<string>)
    ensures env.None? || env.value == [] ==> DatabaseUrl(env) == SqliteUrl
    ensures env.Some? && StartsWith(env.value, PostgresScheme) ==>
      StartsWith(DatabaseUrl(env), AsyncpgScheme) &&
      DatabaseUrl(env)[|AsyncpgScheme|..] == env.value[|PostgresScheme|..]
    ensures env.Some? && env.value != [] && !StartsWith(env.value, PostgresScheme) ==> DatabaseUrl(env) == env.value
  {
    if env.Some? && StartsWith(env.value, PostgresScheme) {
      var rest := env.value[|PostgresScheme|..];
      assert (AsyncpgScheme + rest)[|AsyncpgScheme|..] == rest;
    }
  }

  /** A rewritten URL is not rewritten again: the new scheme does not start with
      `postgres://`. */
  lemma DatabaseUrlIdempotent(env: Option<string>)
    ensures DatabaseUrl(Some(DatabaseUrl(env))) == DatabaseUrl(env)
  {
    var u := DatabaseUrl(env);
    if StartsWith(env.GetOr([]), PostgresScheme) && env.GetOr([]) != [] {
      assert u[8] == 'q';
      assert PostgresScheme[8] == ':';
    } else if env.None? || env.value == [] {
      assert u[0] == 's';
    }
  }

  /** `ADMIN_IDS = [int(f) for f in os.getenv("ADMIN_IDS", "").split(",") if f]` */
  function AdminIds(env: Option<string>): Result<seq<int>, ConfigError> {
    ParseAll(NonEmpty(Split(env.GetOr([]), ',')))
  }

  /** An unset variable gives no admins. */
  lemma NoAdminsWhenUnset()
    ensures AdminIds(None) == Ok([])
  {
    assert Split([], ',') == [[]];
    assert Split([], ',')[1..] == [];
  }

  /** The fragments `int` reads are the non-empty ones. */
  function NonEmpty(fragments: seq<string>): (r: seq<string>)
    ensures forall k :: 0 <= k < |r| ==> r[k] != []
    decreases |fragments|
  {
    if fragments == [] then []
    else (if fragments[0] == [] then [] else [fragments[0]]) + NonEmpty(fragments[1..])
  }

  /** `int` of every text, in order; the first text it refuses is the error. */
  function ParseAll(texts: seq<string>): (r: Result<seq<int>, ConfigError>)
    decreases |texts|
  {
    if texts == [] then Ok([])
    else match ParseInt(texts[0])
      case None => Err(BadAdminId(texts[0]))
      case Some(id) =>
        match ParseAll(texts[1..])
        case Err(e) => Err(e)
        case Ok(ids) => Ok([id] + ids)
  }

  /** Every text is one `int` accepts. */
  predicate AllInts(texts: seq<string>) {
    forall k :: 0 <= k < |texts| ==> ParseInt(texts[k]).Some?
  }

  /** `ids` holds the value of each text, in order. */
  predicate ParsedAs(texts: seq<string>, ids: seq<int>) {
    |ids| == |texts| && forall k :: 0 <= k < |texts| ==> ParseInt(texts[k]) == Some(ids[k])
  }

  /** `ParseAll` succeeds exactly when every text is an integer, and then gives
      one id per text, in order. */
  lemma {:induction false} ParseAllSpec(texts: seq<string>)
    ensures ParseAll(texts).Ok? <==> AllInts(texts)
    ensures ParseAll(texts).Ok? ==> ParsedAs(texts, ParseAll(texts).value)
    decreases |texts|
  {
    if texts != [] {
      ParseAllSpec(texts[1..]);
      AllIntsCons(texts);
      if ParseAll(texts).Ok? {
        ParsedAsCons(texts, ParseAll(texts).value);
      }
    }
  }

  lemma AllIntsCons(texts: seq<string>)
    requires texts != []
    ensures AllInts(texts) <==> ParseInt(texts[0]).Some? && AllInts(texts[1..])
  {
    var t := texts[1..];
    if AllInts(texts) {
      forall k | 0 <= k < |t|
        ensures ParseInt(t[k]).Some?
      {
        assert t[k] == texts[k + 1];
      }
    }
    if ParseInt(texts[0]).Some? && AllInts(t) {
      forall k | 1 <= k < |texts|
        ensures ParseInt(texts[k]).Some?
      {
        assert texts[k] == t[k - 1];
      }
    }
  }

  lemma ParsedAsCons(texts: seq<string>, ids: seq<int>)
    requires texts != [] && ids != []
    requires ParseInt(texts[0]) == Some(ids[0]) && ParsedAs(texts[1..], ids[1..])
    ensures ParsedAs(texts, ids)
  {
    var t := texts[1..];
    forall k | 1 <= k < |texts|
      ensures ParseInt(texts[k]) == Some(ids[k])
    {
      assert texts[k] == t[k - 1] && ids[k] == ids[1..][k - 1];
    }
  }

  /** `ADMIN_IDS` is well defined exactly when every non-empty fragment is an
      integer, and then holds one id per non-empty fragment, in order. */
  lemma AdminIdsSpec(env: Option<string>)
    ensures var ne := NonEmpty(Split(env.GetOr([]), ','));
      (AdminIds(env).Ok? <==> AllInts(ne)) &&
      (AdminIds(env).Ok? ==> ParsedAs(ne, AdminIds(env).value))
  {
    var ne := NonEmpty(Split(env.GetOr([]), ','));
    assert AdminIds(env) == ParseAll(ne);
    ParseAllSpec(ne);
  }

  /** The decimal ids joined with commas read back as the same ids. */
  lemma AdminIdsRoundTrip(ids: seq<int>)
    ensures AdminIds(Some(Join(IdTexts(ids), ","))) == Ok(ids)
  {
    if ids == [] {
      NoAdminsWhenUnset();
    } else {
      IdsSplit(ids);
      NonEmptyKeepsTexts(IdTexts(ids));
      ParseIdsOfTexts(ids);
    }
  }

  /** The decimal text of each id. */
  function IdTexts(ids: seq<int>): (r: seq<string>)
    ensures |r| == |ids| && forall k :: 0 <= k < |ids| ==> r[k] == IntToString(ids[k])
    decreases |ids|
  {
    if ids == [] then [] else [IntToString(ids[0])] + IdTexts(ids[1..])
  }

  /** No id text holds a comma, so splitting the joined texts gives them back. */
  lemma IdsSplit(ids: seq<int>)
    requires ids != []
    ensures Split(Join(IdTexts(ids), ","), ',') == IdTexts(ids)
  {
    var texts := IdTexts(ids);
    forall k | 0 <= k < |texts|
      ensures ',' !in texts[k]
    {
      NoCommaInId(ids[k]);
    }
    JoinSplit(texts, ',');
  }

  /** The decimal text of an id is a sign and digits. */
  lemma NoCommaInId(i: int)
    ensures ',' !in IntToString(i)
  {
    var t := IntToString(i);
    var d := if i < 0 then NatToString(-i) else NatToString(i);
    assert forall j :: 0 <= j < |d| ==> IsDigit(d[j]);
    assert forall j :: 0 <= j < |t| ==> t[j] == '-' || IsDigit(t[j]);
  }

  /** Texts that are all non-empty are all kept. */
  lemma {:induction false} NonEmptyKeepsTexts(texts: seq<string>)
    requires forall k :: 0 <= k < |texts| ==> texts[k] != []
    ensures NonEmpty(texts) == texts
    decreases |texts|
  {
    if texts != [] {
      assert forall k :: 0 <= k < |texts[1..]| ==> texts[1..][k] == texts[k + 1];
      NonEmptyKeepsTexts(texts[1..]);
      assert texts == [texts[0]] + texts[1..];
    }
  }

  lemma ParseAllCons(x: string, rest: seq<string>, v: int, vs: seq<int>)
    requires ParseInt(x) == Some(v) && ParseAll(rest) == Ok(vs)
    ensures ParseAll([x] + rest) == Ok([v] + vs)
  {
    assert ([x] + rest)[0] == x && ([x] + rest)[1..] == rest;
  }

  /** Parsing the id texts gives the ids. */
  lemma {:induction false} ParseIdsOfTexts(ids: seq<int>)
    ensures ParseAll(IdTexts(ids)) == Ok(ids)
    decreases |ids|
  {
    if ids != [] {
      ParseIntOfString(ids[0]);
      ParseIdsOfTexts(ids[1..]);
      ParseAllCons(IntToString(ids[0]), IdTexts(ids[1..]), ids[0], ids[1..]);
      assert [ids[0]] + ids[1..] == ids;
    }
  }
}
