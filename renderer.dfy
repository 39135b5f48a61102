/** The renderer: record sanitisation, address formatting, template selection,
    the newline collapse applied to the rendered text, and the error message for
    a failing template. Jinja2 is a parameter: a function from a user's template
    text and the sanitised record to rendered text or an exception. The built-in
    template is given as a small syntax tree (text, variables, `for` loops over
    the stop lists and an `if` on a stop's time) whose expansion is what Jinja2
    prints for it. */
module Renderer {
  import opened Wrappers
  import opened Text
  import opened Numerals
  import opened Records

  // ------------------------------------------------------------ addresses

  /** `_format_address(addr)`: empty stays empty; otherwise the stripped address,
      split after its first comma onto two lines when it is a single line with at
      least two commas. */
  function FormatAddress(addr: string): (r: string)
    ensures Trimmed(r)
    ensures addr == [] ==> r == []
    ensures addr != [] ==> Count(r, ',') == Count(Strip(addr), ',')
    ensures addr != [] && ('\n' in Strip(addr) || Count(Strip(addr), ',') < 2) ==> r == Strip(addr)
  {
    if addr == [] then []
    else
      var s := Strip(addr);
      if '\n' !in s && Count(s, ',') >= 2 then
        SplitAtFirstComma(s)
      else
        s
  }

  /** `f"{left.strip()},\n{right.strip()}"` for `left, right = s.split(",", 1)`. */
  function SplitAtFirstComma(s: string): (r: string)
    requires Trimmed(s) && Count(s, ',') >= 2
    ensures Trimmed(r) && '\n' in r
    ensures Count(r, ',') == Count(s, ',')
  {
    CountPresent(s, ',');
    var i := IndexOf(s, ',');
    var left, right := s[..i], s[i + 1..];
    CommaCounts(s, i);
    StripKeepsNonSpace(left, ',');
    StripKeepsNonSpace(right, ',');
    JoinedAtComma(Strip(left), Strip(right));
    Strip(left) + ",\n" + Strip(right)
  }

  /** Cutting at the first comma leaves no comma on the left. */
  lemma CommaCounts(s: string, i: nat)
    requires i == IndexOf(s, ',') && i < |s|
    ensures Count(s, ',') == 1 + Count(s[i + 1..], ',') && Count(s[..i], ',') == 0
  {
    var l, r := s[..i], s[i + 1..];
    SplitAround(s, i);
    assert ',' !in l;
    CountAbsent(l, ',');
    CountAppend(l, [','] + r, ',');
    CountHead(',', r);
  }

  lemma SplitAround(s: string, i: nat)
    requires i < |s|
    ensures s == s[..i] + ([s[i]] + s[i + 1..])
  {
  }

  lemma CountHead(c: char, r: string)
    ensures Count([c] + r, c) == 1 + Count(r, c)
  {
    assert ([c] + r)[1..] == r;
  }

  lemma JoinedAtComma(l: string, rr: string)
    requires Trimmed(l) && Trimmed(rr) && Count(rr, ',') >= 1
    ensures var r := l + ",\n" + rr;
      Trimmed(r) && '\n' in r && Count(r, ',') == Count(l, ',') + 1 + Count(rr, ',')
  {
    var r := l + ",\n" + rr;
    CountPresent(rr, ',');
    assert r == l + ([','] + (['\n'] + rr));
    CountAppend(l, [','] + (['\n'] + rr), ',');
    assert ([','] + (['\n'] + rr))[1..] == ['\n'] + rr;
    assert (['\n'] + rr)[1..] == rr;
    assert r[|r| - 1] == rr[|rr| - 1];
    assert r[0] == (if l == [] then ',' else l[0]);
    assert r[|l| + 1] == '\n';
  }

  /** Formatting an address twice changes nothing more. */
  lemma FormatAddressIdempotent(addr: string)
    ensures FormatAddress(FormatAddress(addr)) == FormatAddress(addr)
  {
    var r := FormatAddress(addr);
    if r != [] {
      StripTrimmed(r);
    }
  }

  /** A single-line address with two or more commas is cut at its first comma:
      the two halves are stripped and rejoined by a comma and a line break. */
  lemma FormatAddressSplitsAtFirstComma(addr: string)
    requires var s := Strip(addr); '\n' !in s && Count(s, ',') >= 2
    ensures var s := Strip(addr); var i := IndexOf(s, ',');
      i < |s| && s[i] == ',' && ',' !in s[..i] &&
      FormatAddress(addr) == Strip(s[..i]) + ",\n" + Strip(s[i + 1..])
  {
    var s := Strip(addr);
    CountPresent(s, ',');
    assert addr != [];
  }

  // ------------------------------------------------------------ sanitisation

  /** Python's `value or default` for a string. */
  function OrDefault(value: string, default: string): string {
    if value == [] then default else value
  }

  const DefaultBroker: string := "Rate Confirmation"
  const NotAvailable: string := "N/A"

  /** `(value or default).strip()` */
  function CleanScalar(value: string, default: string): (r: string)
    requires Trimmed(default) && default != []
    ensures Trimmed(r)
    ensures r == [] <==> value != [] && AllSpace(value)
  {
    StripEmptyIff(value);
    StripTrimmed(default);
    Strip(OrDefault(value, default))
  }

  /** An empty value gives the default; any other value gives its strip. */
  lemma CleanScalarCases(value: string, default: string)
    requires Trimmed(default) && default != []
    ensures value == [] ==> CleanScalar(value, default) == default
    ensures value != [] ==> CleanScalar(value, default) == Strip(value)
  {
    StripTrimmed(default);
  }

  /** One entry of the sanitised stop lists. */
  function CleanStop(p: Stop): (q: Stop)
    ensures Trimmed(q.facility) && Trimmed(q.address) && Trimmed(q.time)
    ensures q.time == [] <==> AllSpace(p.time)
  {
    StripEmptyIff(p.time);
    Stop(Strip(p.facility), FormatAddress(p.address), Strip(p.time))
  }

  /** A sanitised stop list: same length, same order, each entry cleaned. */
  function CleanStops(ps: seq<Stop>): (qs: seq<Stop>)
    ensures |qs| == |ps| && forall k :: 0 <= k < |ps| ==> qs[k] == CleanStop(ps[k])
  {
    seq(|ps|, k requires 0 <= k < |ps| => CleanStop(ps[k]))
  }

  /** `clean_data` of `render_result`. */
  function Sanitize(data: Record): (c: Record)
    ensures Trimmed(c.broker) && Trimmed(c.loadNumber) && Trimmed(c.rate)
    ensures c.totalMiles != []
  {
    var broker := CleanScalar(data.broker, DefaultBroker);
    var loadNumber := CleanScalar(data.loadNumber, NotAvailable);
    var rate := CleanScalar(data.rate, NotAvailable);
    var pickups := CleanStops(data.pickups);
    var deliveries := CleanStops(data.deliveries);
    Record(broker, loadNumber, pickups, deliveries, rate, OrDefault(data.totalMiles, NotAvailable))
  }

  /** `clean_data`'s broker: a falsy broker becomes `Rate Confirmation`, any
      other is stripped. */
  lemma SanitizeBroker(data: Record)
    ensures Sanitize(data).broker == if data.broker == [] then DefaultBroker else Strip(data.broker)
  {
    CleanScalarCases(data.broker, DefaultBroker);
  }

  /** `clean_data`'s load number and rate: a falsy value becomes `N/A`, any
      other is stripped. */
  lemma SanitizeNumbers(data: Record)
    ensures Sanitize(data).loadNumber == if data.loadNumber == [] then NotAvailable else Strip(data.loadNumber)
    ensures Sanitize(data).rate == if data.rate == [] then NotAvailable else Strip(data.rate)
  {
    CleanScalarCases(data.loadNumber, NotAvailable);
    CleanScalarCases(data.rate, NotAvailable);
  }

  /** `clean_data`'s mileage: a falsy value becomes `N/A`, any other is kept
      exactly as it came, unstripped. */
  lemma SanitizeMilesKept(data: Record)
    ensures Sanitize(data).totalMiles == if data.totalMiles == [] then NotAvailable else data.totalMiles
  {
  }

  /** A scalar field of the sanitised record is empty exactly when the
      extracted value was non-empty whitespace: `or` replaces only an empty
      value by its default. */
  lemma SanitizeBlankFields(data: Record)
    ensures var c := Sanitize(data);
      (c.broker == [] <==> data.broker != [] && AllSpace(data.broker)) &&
      (c.loadNumber == [] <==> data.loadNumber != [] && AllSpace(data.loadNumber)) &&
      (c.rate == [] <==> data.rate != [] && AllSpace(data.rate))
  {
  }

  /** The sanitised stop lists keep every stop, in order, each one cleaned. */
  lemma SanitizeStops(data: Record)
    ensures var c := Sanitize(data);
      |c.pickups| == |data.pickups| && |c.deliveries| == |data.deliveries| &&
      (forall k :: 0 <= k < |c.pickups| ==> c.pickups[k] == CleanStop(data.pickups[k])) &&
      (forall k :: 0 <= k < |c.deliveries| ==> c.deliveries[k] == CleanStop(data.deliveries[k]))
  {
  }

  /** Cleaning a cleaned stop changes nothing. */
  lemma CleanStopIdempotent(p: Stop)
    ensures CleanStop(CleanStop(p)) == CleanStop(p)
  {
    var q := CleanStop(p);
    StripTrimmed(q.facility);
    StripTrimmed(q.time);
    FormatAddressIdempotent(p.address);
  }

  // ------------------------------------------------------------ the default template

  /** The scalar variables a template can print. */
  datatype Field = BrokerField | LoadNumberField | TotalMilesField | RateField

  /** The attributes of a stop, `p.facility`, `p.address` and `p.time`. */
  datatype StopField = FacilityField | AddressField | TimeField

  datatype StopList = Pickups | Deliveries

  /** Output inside a loop body: text, `loop.index`, or a stop attribute. */
  datatype Flat = FText(text: string) | FIndex | FStop(field: StopField)

  /** A loop body element: output, or `{% if p.time %}...{% endif %}`. */
  datatype Inner = IFlat(flat: Flat) | IfTime(body: seq<Flat>)

  /** A top-level element: text, a variable, or a loop over one of the stop lists. */
  datatype Piece = PText(text: string) | PField(field: Field) | PFor(list: StopList, body: seq<Inner>)

  function FieldValue(c: Record, f: Field): string {
    match f
    case BrokerField => c.broker
    case LoadNumberField => c.loadNumber
    case TotalMilesField => c.totalMiles
    case RateField => c.rate
  }

  function StopValue(s: Stop, f: StopField): string {
    match f
    case FacilityField => s.facility
    case AddressField => s.address
    case TimeField => s.time
  }

  function RenderFlat(x: Flat, index: nat, s: Stop): string {
    match x
    case FText(t) => t
    case FIndex => NatToString(index)
    case FStop(f) => StopValue(s, f)
  }

  function RenderFlats(xs: seq<Flat>, index: nat, s: Stop): string
    decreases |xs|
  {
    if xs == [] then [] else RenderFlat(xs[0], index, s) + RenderFlats(xs[1..], index, s)
  }

  function RenderInner(x: Inner, index: nat, s: Stop): string {
    match x
    case IFlat(f) => RenderFlat(f, index, s)
    case IfTime(b) => if s.time != [] then RenderFlats(b, index, s) else []
  }

  function RenderInners(body: seq<Inner>, index: nat, s: Stop): string
    decreases |body|
  {
    if body == [] then [] else RenderInner(body[0], index, s) + RenderInners(body[1..], index, s)
  }

  /** A `for` loop over `stops`; `loop.index` counts from `index`. */
  function RenderLoop(body: seq<Inner>, stops: seq<Stop>, index: nat): string
    decreases |stops|
  {
    if stops == [] then [] else RenderInners(body, index, stops[0]) + RenderLoop(body, stops[1..], index + 1)
  }

  function RenderPiece(p: Piece, c: Record): string {
    match p
    case PText(t) => t
    case PField(f) => FieldValue(c, f)
    case PFor(l, b) => RenderLoop(b, if l == Pickups then c.pickups else c.deliveries, 1)
  }

  /** What Jinja2 prints for a template given as a syntax tree. */
  function Render(pieces: seq<Piece>, c: Record): string
    decreases |pieces|
  {
    if pieces == [] then [] else RenderPiece(pieces[0], c) + Render(pieces[1..], c)
  }

  lemma RenderInnersStep(body: seq<Inner>, k: nat, index: nat, s: Stop)
    requires k < |body|
    ensures RenderInners(body[k..], index, s) == RenderInner(body[k], index, s) + RenderInners(body[k + 1..], index, s)
  {
    assert body[k..][1..] == body[k + 1..];
  }

  lemma RenderStep(pieces: seq<Piece>, k: nat, c: Record)
    requires k < |pieces|
    ensures Render(pieces[k..], c) == RenderPiece(pieces[k], c) + Render(pieces[k + 1..], c)
  {
    assert pieces[k..][1..] == pieces[k + 1..];
  }

  const TimeLabel: string := "<b>TIME:</b> "
  const Rule: string := "\U{2014}\U{2014}\U{2014}\U{2014}\U{2014}\U{2014}\U{2014}\U{2014}\U{2014}\U{2014}\U{2014}\U{2014}\U{2014}"

  /** The body of each loop of `DEFAULT_TEMPLATE`, with "PU" or "DEL" as `tag`. */
  function StopBody(tag: string): seq<Inner> {
    [IFlat(FText("<b>" + tag)), IFlat(FIndex), IFlat(FText(":</b> ")), IFlat(FStop(FacilityField)),
     IFlat(FText("\n")), IFlat(FStop(AddressField)), IFlat(FText("\n")),
     IfTime([FText(TimeLabel), FStop(TimeField)]), IFlat(FText("\n"))]
  }

  /** `DEFAULT_TEMPLATE` with Jinja2's whitespace rules applied: `-%}` drops the
      newline after the loop head, and the final newline of the source is not
      kept. It prints only `broker`, `load_number`, the stop lists and their
      `facility`, `address` and `time`, `loop.index`, `total_miles` and `rate`. */
  const DefaultTemplate: seq<Piece> := [
    PText("\n<b>"), PField(BrokerField), PText("</b>\n\n<b>Load#</b> "), PField(LoadNumberField),
    PText("\n\n"), PFor(Pickups, StopBody("PU")), PText("\n" + Rule + "\n"),
    PFor(Deliveries, StopBody("DEL")), PText("\n\n<b>TOTAL MILES:</b> "), PField(TotalMilesField),
    PText("\n<b>RATE:</b> "), PField(RateField)]

  /** One stop block of the default template: the header line, the address, a
      TIME line only when the stop has a time, and a closing newline. */
  lemma StopBlock(tag: string, index: nat, s: Stop)
    ensures RenderInners(StopBody(tag), index, s) ==
      "<b>" + tag + (NatToString(index) + (":</b> " + (s.facility + ("\n" + (s.address + ("\n" +
      ((if s.time != [] then TimeLabel + s.time else []) + "\n")))))))
  {
    var b := StopBody(tag);
    StopBlockMiddle(tag, index, s);
    RenderInnersStep(b, 3, index, s);
    assert RenderInners(b[3..], index, s) == s.facility + RenderInners(b[4..], index, s);
    RenderInnersStep(b, 2, index, s);
    assert RenderInners(b[2..], index, s) == ":</b> " + RenderInners(b[3..], index, s);
    RenderInnersStep(b, 1, index, s);
    assert RenderInners(b[1..], index, s) == NatToString(index) + RenderInners(b[2..], index, s);
    RenderInnersStep(b, 0, index, s);
    assert RenderInners(b[0..], index, s) == "<b>" + tag + RenderInners(b[1..], index, s);
    assert b[0..] == b;
  }

  /** The stop block from the line break after the facility on. */
  lemma StopBlockMiddle(tag: string, index: nat, s: Stop)
    ensures RenderInners(StopBody(tag)[4..], index, s) ==
      "\n" + (s.address + ("\n" + ((if s.time != [] then TimeLabel + s.time else []) + "\n")))
  {
    var b := StopBody(tag);
    StopBlockEnd(tag, index, s);
    RenderInnersStep(b, 6, index, s);
    assert RenderInners(b[6..], index, s) == "\n" + RenderInners(b[7..], index, s);
    RenderInnersStep(b, 5, index, s);
    assert RenderInners(b[5..], index, s) == s.address + RenderInners(b[6..], index, s);
    RenderInnersStep(b, 4, index, s);
    assert RenderInners(b[4..], index, s) == "\n" + RenderInners(b[5..], index, s);
  }

  /** The end of a stop block: the TIME line, if any, and the closing newline. */
  lemma StopBlockEnd(tag: string, index: nat, s: Stop)
    ensures RenderInners(StopBody(tag)[7..], index, s) ==
      (if s.time != [] then TimeLabel + s.time else []) + "\n"
  {
    var b := StopBody(tag);
    var timeLine := [FText(TimeLabel), FStop(TimeField)];
    assert RenderFlats(timeLine, index, s) == TimeLabel + s.time by {
      var rest := [FStop(TimeField)];
      assert timeLine[1..] == rest;
      assert rest[1..] == [];
      assert RenderFlats(rest, index, s) == s.time;
    }
    assert b[9..] == [];
    RenderInnersStep(b, 8, index, s);
    assert RenderInners(b[8..], index, s) == "\n";
    RenderInnersStep(b, 7, index, s);
  }

  /** The part of the default template from the pickup loop on. */
  lemma DefaultRenderTail(c: Record)
    ensures Render(DefaultTemplate[5..], c) ==
      RenderLoop(StopBody("PU"), c.pickups, 1) + (("\n" + Rule + "\n") +
      (RenderLoop(StopBody("DEL"), c.deliveries, 1) +
      ("\n\n<b>TOTAL MILES:</b> " + (c.totalMiles + ("\n<b>RATE:</b> " + c.rate)))))
  {
    var t := DefaultTemplate;
    DefaultRenderTotals(c);
    assert t[7] == PFor(Deliveries, StopBody("DEL"));
    RenderForPiece(Deliveries, StopBody("DEL"), c);
    RenderStep(t, 7, c);
    assert Render(t[7..], c) == RenderLoop(StopBody("DEL"), c.deliveries, 1) + Render(t[8..], c);
    RenderStep(t, 6, c);
    assert Render(t[6..], c) == ("\n" + Rule + "\n") + Render(t[7..], c);
    assert t[5] == PFor(Pickups, StopBody("PU"));
    RenderForPiece(Pickups, StopBody("PU"), c);
    RenderStep(t, 5, c);
  }

  /** A loop piece prints its body once per stop of its list, counting from 1. */
  lemma RenderForPiece(l: StopList, body: seq<Inner>, c: Record)
    ensures RenderPiece(PFor(l, body), c) == RenderLoop(body, if l == Pickups then c.pickups else c.deliveries, 1)
  {
  }

  /** The last lines of the default template: total miles and rate. */
  lemma DefaultRenderTotals(c: Record)
    ensures Render(DefaultTemplate[8..], c) ==
      "\n\n<b>TOTAL MILES:</b> " + (c.totalMiles + ("\n<b>RATE:</b> " + c.rate))
  {
    var t := DefaultTemplate;
    assert t[12..] == [];
    RenderStep(t, 11, c);
    assert Render(t[11..], c) == c.rate;
    RenderStep(t, 10, c);
    assert Render(t[10..], c) == "\n<b>RATE:</b> " + Render(t[11..], c);
    RenderStep(t, 9, c);
    assert Render(t[9..], c) == c.totalMiles + Render(t[10..], c);
    RenderStep(t, 8, c);
  }

  /** The part of the default template before the pickup loop. */
  lemma DefaultRenderHead(c: Record)
    ensures Render(DefaultTemplate, c) ==
      "\n<b>" + (c.broker + ("</b>\n\n<b>Load#</b> " + (c.loadNumber + ("\n\n" +
      Render(DefaultTemplate[5..], c)))))
  {
    var t := DefaultTemplate;
    DefaultRenderLoad(c);
    RenderStep(t, 1, c);
    assert Render(t[1..], c) == c.broker + Render(t[2..], c);
    RenderStep(t, 0, c);
    assert Render(t[0..], c) == "\n<b>" + Render(t[1..], c);
    assert t[0..] == t;
  }

  /** The default template from the line after the broker to the pickup loop. */
  lemma DefaultRenderLoad(c: Record)
    ensures Render(DefaultTemplate[2..], c) ==
      "</b>\n\n<b>Load#</b> " + (c.loadNumber + ("\n\n" + Render(DefaultTemplate[5..], c)))
  {
    var t := DefaultTemplate;
    RenderStep(t, 4, c);
    assert Render(t[4..], c) == "\n\n" + Render(t[5..], c);
    RenderStep(t, 3, c);
    assert Render(t[3..], c) == c.loadNumber + Render(t[4..], c);
    RenderStep(t, 2, c);
  }

  /** The text the default template renders for a sanitised record. */
  lemma DefaultRender(c: Record)
    ensures Render(DefaultTemplate, c) ==
      "\n<b>" + (c.broker + ("</b>\n\n<b>Load#</b> " + (c.loadNumber + ("\n\n" +
      (RenderLoop(StopBody("PU"), c.pickups, 1) + (("\n" + Rule + "\n") +
      (RenderLoop(StopBody("DEL"), c.deliveries, 1) +
      ("\n\n<b>TOTAL MILES:</b> " + (c.totalMiles + ("\n<b>RATE:</b> " + c.rate))))))))))
  {
    DefaultRenderHead(c);
    DefaultRenderTail(c);
  }

  // ------------------------------------------------------------ newline collapse

  /** Three newlines start at `i`. */
  predicate TripleAt(s: string, i: int) {
    0 <= i && i + 2 < |s| && s[i] == '\n' && s[i + 1] == '\n' && s[i + 2] == '\n'
  }

  /** No three newlines in a row: `"\n\n\n" not in s`. */
  predicate NoTriple(s: string) {
    forall i :: 0 <= i < |s| ==> !TripleAt(s, i)
  }

  lemma NoTripleIsNotContains(s: string)
    ensures NoTriple(s) <==> !Contains(s, "\n\n\n")
  {
    if !NoTriple(s) {
      var i :| 0 <= i < |s| && TripleAt(s, i);
      assert s[i..][..3] == "\n\n\n";
    }
    if Contains(s, "\n\n\n") {
      var i :| 0 <= i <= |s| && "\n\n\n" <= s[i..];
      assert TripleAt(s, i);
    }
  }

  lemma NoTripleSlice(s: string, lo: nat, hi: nat)
    requires lo <= hi <= |s| && NoTriple(s)
    ensures NoTriple(s[lo..hi])
  {
    var r := s[lo..hi];
    forall i | 0 <= i < |r| ensures !TripleAt(r, i) {
      if TripleAt(r, i) {
        assert TripleAt(s, lo + i);
      }
    }
  }

  /** The end of the run of newlines starting at `i`. */
  function NewlineRunEnd(s: string, i: nat): (e: nat)
    requires i <= |s|
    ensures i <= e <= |s| && (e < |s| ==> s[e] != '\n')
    ensures forall k :: i <= k < e ==> s[k] == '\n'
    decreases |s| - i
  {
    if i == |s| || s[i] != '\n' then i else NewlineRunEnd(s, i + 1)
  }

  /** `re.sub(r'\n{3,}', '\n\n', s)`: every maximal run of three or more newlines
      becomes two. */
  function Collapse(s: string): (r: string)
    ensures s != [] && s[0] != '\n' ==> r != [] && r[0] == s[0]
    ensures s == [] <==> r == []
    decreases |s|
  {
    if s == [] then []
    else if s[0] != '\n' then [s[0]] + Collapse(s[1..])
    else
      var e := NewlineRunEnd(s, 0);
      (if e >= 3 then "\n\n" else s[..e]) + Collapse(s[e..])
  }

  /** A short piece followed by text that does not start with a newline adds no
      triple. */
  lemma NoTripleAfterPiece(piece: string, rest: string)
    requires |piece| <= 2 && NoTriple(rest) && (rest != [] ==> rest[0] != '\n')
    ensures NoTriple(piece + rest)
  {
    var r := piece + rest;
    forall i | 0 <= i < |r| ensures !TripleAt(r, i) {
      if TripleAt(r, i) {
        if i >= |piece| {
          assert TripleAt(rest, i - |piece|);
        }
      }
    }
  }

  lemma NoTripleAfterChar(c: char, rest: string)
    requires c != '\n' && NoTriple(rest)
    ensures NoTriple([c] + rest)
  {
    var r := [c] + rest;
    forall i | 0 <= i < |r| ensures !TripleAt(r, i) {
      if TripleAt(r, i) {
        assert TripleAt(rest, i - 1);
      }
    }
  }

  lemma {:induction false} CollapseNoTriple(s: string)
    ensures NoTriple(Collapse(s))
    decreases |s|
  {
    if s != [] {
      if s[0] != '\n' {
        CollapseNoTriple(s[1..]);
        NoTripleAfterChar(s[0], Collapse(s[1..]));
      } else {
        var e := NewlineRunEnd(s, 0);
        CollapseNoTriple(s[e..]);
        NoTripleAfterPiece(if e >= 3 then "\n\n" else s[..e], Collapse(s[e..]));
      }
    }
  }

  /** Text without three newlines in a row is left as it is. */
  lemma {:induction false} CollapseKeepsClean(s: string)
    requires NoTriple(s)
    ensures Collapse(s) == s
    decreases |s|
  {
    if s != [] {
      if s[0] != '\n' {
        NoTripleSlice(s, 1, |s|);
        assert s[1..|s|] == s[1..];
        CollapseKeepsClean(s[1..]);
        assert s == [s[0]] + s[1..];
      } else {
        var e := NewlineRunEnd(s, 0);
        assert e < 3 by {
          assert !TripleAt(s, 0);
        }
        NoTripleSlice(s, e, |s|);
        assert s[e..|s|] == s[e..];
        CollapseKeepsClean(s[e..]);
        assert s == s[..e] + s[e..];
      }
    }
  }

  /** The characters other than newlines, in order. */
  function WithoutNewlines(s: string): string
    decreases |s|
  {
    if s == [] then [] else (if s[0] == '\n' then [] else [s[0]]) + WithoutNewlines(s[1..])
  }

  lemma {:induction false} WithoutNewlinesAppend(a: string, b: string)
    ensures WithoutNewlines(a + b) == WithoutNewlines(a) + WithoutNewlines(b)
    decreases |a|
  {
    if a != [] {
      assert (a + b)[1..] == a[1..] + b;
      WithoutNewlinesAppend(a[1..], b);
    } else {
      assert a + b == b;
    }
  }

  lemma {:induction false} NewlinesOnly(a: string)
    requires forall k :: 0 <= k < |a| ==> a[k] == '\n'
    ensures WithoutNewlines(a) == []
    decreases |a|
  {
    if a != [] {
      NewlinesOnly(a[1..]);
    }
  }

  /** The collapse only removes newlines: every other character is kept, in order. */
  lemma {:induction false} CollapseKeepsText(s: string)
    ensures WithoutNewlines(Collapse(s)) == WithoutNewlines(s)
    decreases |s|
  {
    if s != [] {
      if s[0] != '\n' {
        CollapseKeepsText(s[1..]);
        WithoutNewlinesAppend([s[0]], Collapse(s[1..]));
      } else {
        var e := NewlineRunEnd(s, 0);
        var piece := if e >= 3 then "\n\n" else s[..e];
        CollapseKeepsText(s[e..]);
        WithoutNewlinesAppend(piece, Collapse(s[e..]));
        WithoutNewlinesAppend(s[..e], s[e..]);
        NewlinesOnly(piece);
        NewlinesOnly(s[..e]);
        assert s == s[..e] + s[e..];
      }
    }
  }

  /** The clean-up applied to a successful render. */
  function PostProcess(rendered: string): (r: string)
    ensures NoTriple(r) && Trimmed(r)
  {
    CollapseNoTriple(rendered);
    StripKeepsNoTriple(Collapse(rendered));
    Strip(Collapse(rendered))
  }

  lemma StripKeepsNoTriple(s: string)
    requires NoTriple(s)
    ensures NoTriple(Strip(s))
  {
    var a := LeadCount(s);
    var b := a + |Strip(s)|;
    assert Strip(s) == s[a..b];
    NoTripleSlice(s, a, b);
  }

  /** Cleaning a cleaned message again changes nothing. */
  lemma PostProcessIdempotent(rendered: string)
    ensures PostProcess(PostProcess(rendered)) == PostProcess(rendered)
  {
    var r := PostProcess(rendered);
    CollapseKeepsClean(r);
    StripTrimmed(r);
  }

  // ------------------------------------------------------------ render_result

  /** What Jinja2 does with a user's template text and the sanitised record:
      rendered text, a `TemplateError` (syntax or undefined-variable errors while
      parsing or rendering), or any other exception. */
  datatype EngineResult = Rendered(text: string) | TemplateError(detail: string) | OtherError(detail: string)

  type Jinja = (string, Record) -> EngineResult

  /** `render_result` returns a message, or lets an exception other than
      `TemplateError` escape. */
  datatype Outcome = Message(text: string) | Raises(detail: string)

  /** The template to render: the built-in one or a user's text. */
  datatype Choice = BuiltIn | UserText(text: string)

  /** `user_template if user_template else DEFAULT_TEMPLATE` */
  function SelectTemplate(userTemplate: Option<string>): (t: Choice)
    ensures t.BuiltIn? <==> userTemplate.None? || userTemplate.value == []
    ensures t.UserText? ==> t.text == userTemplate.value
  {
    if userTemplate.Some? && userTemplate.value != [] then UserText(userTemplate.value) else BuiltIn
  }

  /** Jinja2 applied to the chosen template; `DEFAULT_TEMPLATE` renders as its
      syntax tree says. */
  function RunTemplate(t: Choice, c: Record, jinja: Jinja): EngineResult {
    match t
    case BuiltIn => Rendered(Render(DefaultTemplate, c))
    case UserText(text) => jinja(text, c)
  }

  function TemplateErrorMessage(detail: string): (m: string)
    ensures m != [] && Contains(m, detail)
  {
    var m := "\U{26A0}\U{FE0F} <b>Template Error:</b> " + detail + "\n\nCheck your logic, honey. \U{1F485}";
    var n := |"\U{26A0}\U{FE0F} <b>Template Error:</b> "|;
    assert detail <= m[n..];
    m
  }

  /** `render_result(data, user_template)` */
  function RenderResult(data: Record, userTemplate: Option<string>, jinja: Jinja): (r: Outcome)
    ensures r.Raises? <==> RunTemplate(SelectTemplate(userTemplate), Sanitize(data), jinja).OtherError?
    ensures userTemplate.None? || userTemplate.value == [] ==> r.Message?
  {
    match RunTemplate(SelectTemplate(userTemplate), Sanitize(data), jinja)
    case Rendered(text) => Message(PostProcess(text))
    case TemplateError(detail) => Message(TemplateErrorMessage(detail))
    case OtherError(detail) => Raises(detail)
  }

  /** A rendered message never has three newlines in a row or surrounding
      whitespace, and is unchanged by cleaning it again; a `TemplateError` becomes
      a non-empty message naming it; anything else escapes. */
  lemma RenderResultCases(data: Record, userTemplate: Option<string>, jinja: Jinja)
    ensures var c := Sanitize(data);
      match RunTemplate(SelectTemplate(userTemplate), c, jinja)
      case Rendered(text) =>
        var m := RenderResult(data, userTemplate, jinja);
        m.Message? && NoTriple(m.text) && Trimmed(m.text) && PostProcess(m.text) == m.text
      case TemplateError(detail) =>
        var m := RenderResult(data, userTemplate, jinja);
        m.Message? && m.text != [] && Contains(m.text, detail)
      case OtherError(detail) => RenderResult(data, userTemplate, jinja) == Raises(detail)
  {
    match RunTemplate(SelectTemplate(userTemplate), Sanitize(data), jinja)
    case Rendered(text) => PostProcessIdempotent(text);
    case TemplateError(_) =>
    case OtherError(_) =>
  }

  /** Without a user template the default one is rendered, and that never fails. */
  lemma DefaultNeverFails(data: Record, userTemplate: Option<string>, jinja: Jinja)
    requires userTemplate.None? || userTemplate.value == []
    ensures RenderResult(data, userTemplate, jinja) ==
      Message(PostProcess(Render(DefaultTemplate, Sanitize(data))))
  {
  }
}
