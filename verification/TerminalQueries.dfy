/**
The byte-level state machine that spots terminal queries in a pane's output
(`TerminalResponseDetector`), and the answers this client gives to them.
*/
module TerminalQueries {
  import opened Primitives

  const ESC: byte := 0x1b
  const BEL: byte := 0x07
  const MAX_CSI_BYTES := 128
  const FOCUS_REPORTING_MODE := 1004
  const ALTERNATE_SCROLL_MODE := 1007
  /** ESC [ ? 1 ; 2 c */
  const PRIMARY_DEVICE_ATTRIBUTES: seq<byte> := [0x1b, 0x5b, 0x3f, 0x31, 0x3b, 0x32, 0x63]
  /** ESC [ 0 n */
  const DEVICE_STATUS_OK: seq<byte> := [0x1b, 0x5b, 0x30, 0x6e]

  datatype DetectorState = Ground | Escape | Csi | CsiIgnored | StringBody(escSeen: bool) | IgnoreOne

  datatype Query = DeviceQuery(answer: seq<byte>) | CursorQuery(private: bool)

  datatype ResponseKind = CursorPosition | Device

  datatype Response = Response(kind: ResponseKind, bytes: seq<byte>)

  /** The detector as a value: `csi` holds the parameter bytes collected so far. */
  datatype Detector = Detector(
    state: DetectorState, focusReporting: bool, alternateScroll: bool, csi: seq<byte>)

  // ---- parameters -----------------------------------------------------------

  predicate IsDigit(b: byte) {
    0x30 <= b <= 0x39
  }

  /** A byte that ends a control sequence (ECMA-48, section 5.4: 04/00 to 07/14). */
  predicate IsFinal(b: byte) {
    0x40 <= b <= 0x7e
  }

  function DigitValue(b: byte): nat
    requires IsDigit(b)
  {
    var code: int := b;
    code - 0x30
  }

  function DecimalValue(digits: seq<byte>): nat
    requires forall b :: b in digits ==> IsDigit(b)
  {
    if digits == [] then 0
    else
      var last := digits[|digits| - 1];
      assert last in digits;
      10 * DecimalValue(digits[..|digits| - 1]) + DigitValue(last)
  }

  /** What a maximal digit run contributes: nothing when empty or too large for `usize`. */
  function FlushRun(run: seq<byte>): seq<nat>
    requires forall b :: b in run ==> IsDigit(b)
  {
    if run == [] || DecimalValue(run) > U64_MAX then [] else [DecimalValue(run)]
  }

  function ParamsFrom(run: seq<byte>, rest: seq<byte>): seq<nat>
    requires forall b :: b in run ==> IsDigit(b)
    decreases |rest|
  {
    if rest == [] then FlushRun(run)
    else if IsDigit(rest[0]) then ParamsFrom(run + [rest[0]], rest[1..])
    else FlushRun(run) + ParamsFrom([], rest[1..])
  }

  /** The decimal parameters of a control sequence, in order. */
  function CsiParams(sequence: seq<byte>): seq<nat> {
    ParamsFrom([], sequence)
  }

  function FirstParam(params: seq<nat>): nat {
    if params == [] then 0 else params[0]
  }

  /** The query a complete control sequence asks, if any. */
  function CsiQuery(sequence: seq<byte>, final: byte): Option<Query> {
    var private := 0x3f in sequence;
    var first := FirstParam(CsiParams(sequence));
    if final == 0x63 && !private && first == 0 then Some(DeviceQuery(PRIMARY_DEVICE_ATTRIBUTES))
    else if final == 0x6e && !private && first == 5 then Some(DeviceQuery(DEVICE_STATUS_OK))
    else if final == 0x6e && first == 6 then Some(CursorQuery(private))
    else None
  }

  // ---- the state machine ----------------------------------------------------

  /** Private modes switched by a completed `CSI ? ... h` or `CSI ? ... l`. */
  function ObserveModes(d: Detector, final: byte): Detector {
    if (final == 0x68 || final == 0x6c) && 0x3f in d.csi then
      var params := CsiParams(d.csi);
      d.(focusReporting := if FOCUS_REPORTING_MODE in params then final == 0x68 else d.focusReporting,
         alternateScroll := if ALTERNATE_SCROLL_MODE in params then final == 0x68 else d.alternateScroll)
    else d
  }

  function StepEscape(d: Detector, b: byte): (Detector, Option<Query>) {
    if b == 0x63 then
      (d.(state := Ground, focusReporting := false, alternateScroll := false), None)
    else if b == 0x5b then (d.(state := Csi, csi := []), None)
    else if b in {0x5d, 0x50, 0x5f, 0x5e, 0x58} then (d.(state := StringBody(false)), None)
    else if b in {0x28, 0x29, 0x2a, 0x2b} then (d.(state := IgnoreOne), None)
    else if b == 0x5a then (d.(state := Ground), Some(DeviceQuery(PRIMARY_DEVICE_ATTRIBUTES)))
    else (d.(state := Ground), None)
  }

  /** One byte through the detector. */
  function Step(d: Detector, b: byte): (r: (Detector, Option<Query>))
    ensures r.1.Some? ==> r.0.state == Ground && d.state != Ground
    ensures |d.csi| <= MAX_CSI_BYTES ==> |r.0.csi| <= MAX_CSI_BYTES
  {
    match d.state
    case Ground => (if b == ESC then d.(state := Escape) else d, None)
    case Escape => StepEscape(d, b)
    case Csi =>
      if IsFinal(b) then (ObserveModes(d, b).(state := Ground), CsiQuery(d.csi, b))
      else if |d.csi| >= MAX_CSI_BYTES then (d.(state := CsiIgnored), None)
      else (d.(csi := d.csi + [b]), None)
    case CsiIgnored => (if IsFinal(b) then d.(state := Ground) else d, None)
    case StringBody(escSeen) =>
      if b == BEL || (escSeen && b == 0x5c) then (d.(state := Ground), None)
      else (d.(state := StringBody(b == ESC)), None)
    case IgnoreOne => (d.(state := Ground), None)
  }

  /** The detector after a run of bytes. */
  function Scan(d: Detector, bytes: seq<byte>): Detector
    decreases |bytes|
  {
    if bytes == [] then d else Scan(Step(d, bytes[0]).0, bytes[1..])
  }

  /** The queries completed by a run of bytes, in stream order. */
  function Asked(d: Detector, bytes: seq<byte>): seq<Query>
    decreases |bytes|
  {
    if bytes == [] then []
    else
      var (next, query) := Step(d, bytes[0]);
      (if query.Some? then [query.value] else []) + Asked(next, bytes[1..])
  }

  lemma {:induction false} ScanAppend(d: Detector, a: seq<byte>, b: seq<byte>)
    ensures Scan(d, a + b) == Scan(Scan(d, a), b)
    ensures Asked(d, a + b) == Asked(d, a) + Asked(Scan(d, a), b)
    decreases |a|
  {
    if a == [] {
      assert a + b == b;
    } else {
      assert (a + b)[0] == a[0] && (a + b)[1..] == a[1..] + b;
      ScanAppend(Step(d, a[0]).0, a[1..], b);
    }
  }

  // ---- which sequences ask what ---------------------------------------------

  /** Parameter and intermediate bytes are collected verbatim up to the cap, then dropped. */
  lemma {:induction false} CollectParams(d: Detector, body: seq<byte>)
    requires d.state == Csi && |d.csi| <= MAX_CSI_BYTES
    requires forall b :: b in body ==> !IsFinal(b)
    ensures Asked(d, body) == []
    ensures |d.csi| + |body| <= MAX_CSI_BYTES ==> Scan(d, body) == d.(csi := d.csi + body)
    ensures |d.csi| + |body| > MAX_CSI_BYTES ==> Scan(d, body).state == CsiIgnored
    decreases |body|
  {
    if body == [] {
      assert d.csi + body == d.csi;
    } else if |d.csi| < MAX_CSI_BYTES {
      var next := Step(d, body[0]).0;
      assert body[0] in body;
      assert forall b :: b in body[1..] ==> b in body;
      CollectParams(next, body[1..]);
      assert next.csi + body[1..] == d.csi + body;
    } else {
      assert body[0] in body;
      assert forall b :: b in body[1..] ==> b in body;
      StayIgnored(Step(d, body[0]).0, body[1..]);
    }
  }

  lemma {:induction false} StayIgnored(d: Detector, body: seq<byte>)
    requires d.state == CsiIgnored
    requires forall b :: b in body ==> !IsFinal(b)
    ensures Scan(d, body) == d && Asked(d, body) == []
  {
    if body != [] {
      assert body[0] in body;
      assert forall b :: b in body[1..] ==> b in body;
      StayIgnored(d, body[1..]);
    }
  }

  lemma ScanOne(d: Detector, b: byte)
    ensures Scan(d, [b]) == Step(d, b).0
    ensures Asked(d, [b]) == if Step(d, b).1.Some? then [Step(d, b).1.value] else []
  {
    assert [b][1..] == [];
  }

  lemma ScanIntroducer(d: Detector)
    requires d.state == Ground
    ensures Scan(d, [ESC, 0x5b]) == d.(state := Csi, csi := []) && Asked(d, [ESC, 0x5b]) == []
  {
    ScanOne(d, ESC);
    ScanOne(d.(state := Escape), 0x5b);
    ScanAppend(d, [ESC], [0x5b]);
    assert [ESC] + [0x5b] == [ESC, 0x5b];
  }

  /**
  A whole control sequence read from the ground state asks exactly the query its
  parameters and final byte name, whatever an earlier sequence left in the
  buffer; one whose body exceeds the buffer asks nothing.
  */
  lemma ControlSequenceRecognised(d: Detector, body: seq<byte>, final: byte)
    requires d.state == Ground
    requires IsFinal(final) && forall b :: b in body ==> !IsFinal(b)
    ensures Scan(d, [ESC, 0x5b] + body + [final]).state == Ground
    ensures Asked(d, [ESC, 0x5b] + body + [final])
            == (if |body| > MAX_CSI_BYTES || CsiQuery(body, final).None? then []
                else [CsiQuery(body, final).value])
  {
    var start := d.(state := Csi, csi := []);
    ScanIntroducer(d);
    ScanAppend(d, [ESC, 0x5b], body);
    CollectParams(start, body);
    ScanAppend(d, [ESC, 0x5b] + body, [final]);
    ScanOne(Scan(start, body), final);
    assert |body| <= MAX_CSI_BYTES ==> Scan(start, body).csi == body;
  }

  // ---- decimal rendering ----------------------------------------------------

  /** `n` in decimal, as `format!` writes it. */
  function Decimal(n: nat): (digits: seq<byte>)
    ensures digits != [] && forall b :: b in digits ==> IsDigit(b)
    ensures DecimalValue(digits) == n
    ensures n < 100_000 ==> |digits| <= 5
  {
    DecimalUpTo(n, 5)
  }

  function DecimalUpTo(n: nat, width: nat): (digits: seq<byte>)
    ensures digits != [] && forall b :: b in digits ==> IsDigit(b)
    ensures DecimalValue(digits) == n
    ensures width > 0 && n < PowerOfTen(width) ==> |digits| <= width
    decreases n
  {
    var last: byte := 0x30 + n % 10;
    if n < 10 then
      assert [last][..0] == [];
      [last]
    else
      FewerDigits(n, width);
      var front := DecimalUpTo(n / 10, if width == 0 then 0 else width - 1);
      var all := front + [last];
      assert all[..|all| - 1] == front;
      all
  }

  lemma FewerDigits(n: nat, width: nat)
    requires n >= 10
    ensures width > 0 && n < PowerOfTen(width) ==> width > 1 && n / 10 < PowerOfTen(width - 1)
  {
    if width > 0 && n < PowerOfTen(width) {
      var shorter := PowerOfTen(width - 1);
      assert PowerOfTen(width) == 10 * shorter;
      assert width == 1 ==> shorter == 1;
    }
  }

  function PowerOfTen(k: nat): nat {
    if k == 0 then 1 else 10 * PowerOfTen(k - 1)
  }

  /** Scanning a digit run extends the run being collected. */
  lemma {:induction false} ParamsDigits(run: seq<byte>, digits: seq<byte>, rest: seq<byte>)
    requires forall b :: b in run ==> IsDigit(b)
    requires forall b :: b in digits ==> IsDigit(b)
    ensures forall b :: b in run + digits ==> IsDigit(b)
    ensures ParamsFrom(run, digits + rest) == ParamsFrom(run + digits, rest)
    decreases |digits|
  {
    if digits == [] {
      assert digits + rest == rest && run + digits == run;
    } else {
      var all := digits + rest;
      assert all[0] == digits[0] && all[1..] == digits[1..] + rest;
      assert digits[0] in digits;
      assert forall b :: b in digits[1..] ==> b in digits;
      assert forall b :: b in run + [digits[0]] ==> IsDigit(b);
      ParamsDigits(run + [digits[0]], digits[1..], rest);
      assert run + [digits[0]] + digits[1..] == run + digits;
    }
  }

  /** `;`-separated decimal parameters. */
  function RenderParams(params: seq<nat>): seq<byte> {
    if params == [] then []
    else if |params| == 1 then Decimal(params[0])
    else Decimal(params[0]) + [0x3b] + RenderParams(params[1..])
  }

  lemma ReadLast(n: nat)
    requires n <= U64_MAX
    ensures CsiParams(Decimal(n)) == [n]
  {
    var digits := Decimal(n);
    ParamsDigits([], digits, []);
    assert digits + [] == digits && [] + digits == digits;
  }

  lemma ReadThen(n: nat, tail: seq<byte>)
    requires n <= U64_MAX
    ensures CsiParams(Decimal(n) + [0x3b] + tail) == [n] + CsiParams(tail)
  {
    var digits, rest := Decimal(n), [0x3b] + tail;
    ParamsDigits([], digits, rest);
    assert digits + [0x3b] + tail == digits + rest && [] + digits == digits;
    SeparatorEnds(digits, n, tail);
  }

  lemma SeparatorEnds(digits: seq<byte>, n: nat, tail: seq<byte>)
    requires digits == Decimal(n) && n <= U64_MAX
    ensures ParamsFrom(digits, [0x3b] + tail) == [n] + ParamsFrom([], tail)
  {
    var rest := [0x3b] + tail;
    assert rest[0] == 0x3b && rest[1..] == tail;
  }

  /** Reading parameters back undoes writing them, for every value a `usize` holds. */
  lemma {:induction false} ParamsRoundTrip(params: seq<nat>)
    requires forall p :: p in params ==> p <= U64_MAX
    ensures CsiParams(RenderParams(params)) == params
  {
    if params != [] {
      assert params[0] in params;
      if |params| == 1 {
        ReadLast(params[0]);
      } else {
        assert forall p :: p in params[1..] ==> p in params;
        ParamsRoundTrip(params[1..]);
        ReadThen(params[0], RenderParams(params[1..]));
      }
    }
  }

  // ---- answers --------------------------------------------------------------

  // Screens are at most 1000 by 1000 cells, so a cursor coordinate is far below this.
  type ScreenIndex = n: int | 0 <= n < U16_MAX

  /** The report body between the introducer and the final `R`. */
  function ReportBody(row: ScreenIndex, col: ScreenIndex): seq<byte> {
    Decimal(row + 1) + [0x3b] + Decimal(col + 1)
  }

  function CursorPositionReport(row: ScreenIndex, col: ScreenIndex, private: bool): (r: seq<byte>)
    ensures |r| <= 15
  {
    [ESC, 0x5b] + (if private then [0x3f] else []) + ReportBody(row, col) + [0x52]
  }

  function Resolve(query: Query, row: ScreenIndex, col: ScreenIndex): Response {
    match query
    case DeviceQuery(answer) => Response(Device, answer)
    case CursorQuery(private) => Response(CursorPosition, CursorPositionReport(row, col, private))
  }

  /** A cursor report, read as a control sequence, carries the one-based position back. */
  lemma ReportCarriesPosition(row: ScreenIndex, col: ScreenIndex, private: bool)
    ensures var report := CursorPositionReport(row, col, private);
            && report[..2] == [ESC, 0x5b]
            && report[|report| - 1] == 0x52
            && CsiParams(report[2..|report| - 1]) == [row + 1, col + 1]
            && (private <==> 0x3f in report[2..|report| - 1])
  {
    var params := [row + 1, col + 1];
    var body := ReportBody(row, col);
    assert params[1..] == [col + 1];
    assert RenderParams(params) == body;
    ParamsRoundTrip(params);
    var report := CursorPositionReport(row, col, private);
    var inner := report[2..|report| - 1];
    assert forall b :: b in body ==> b != 0x3f;
    if private {
      assert inner == [0x3f] + body;
      assert inner[0] == 0x3f && inner[1..] == body;
      assert ParamsFrom([], inner) == [] + ParamsFrom([], body);
    } else {
      assert inner == body;
    }
  }

  // ---- the imperative detector ----------------------------------------------

  class TerminalResponseDetector {
    var state: DetectorState
    var focusReporting: bool
    var alternateScroll: bool
    const csi: array<byte>
    var csiLen: nat

    ghost predicate Valid()
      reads this
    {
      csi.Length == MAX_CSI_BYTES && csiLen <= csi.Length
    }

    ghost function Value(): (d: Detector)
      requires Valid()
      reads this, csi
      ensures |d.csi| <= MAX_CSI_BYTES
    {
      Detector(state, focusReporting, alternateScroll, csi[..csiLen])
    }

    constructor ()
      ensures Valid() && fresh(csi)
      ensures Value() == Detector(Ground, false, false, [])
    {
      state, focusReporting, alternateScroll, csiLen := Ground, false, false, 0;
      csi := new byte[MAX_CSI_BYTES](_ => 0);
    }

    predicate IsGround()
      reads this
    {
      state == Ground
    }

    method ObserveModeChange(final: byte)
      requires Valid()
      modifies this`focusReporting, this`alternateScroll
      ensures Valid() && Value() == ObserveModes(old(Value()), final)
    {
      if final != 0x68 && final != 0x6c { return; }
      var sequence := csi[..csiLen];
      if 0x3f !in sequence { return; }
      var set_ := final == 0x68;
      var params := CsiParams(sequence);
      for i := 0 to |params|
        invariant focusReporting == if FOCUS_REPORTING_MODE in params[..i] then set_ else old(focusReporting)
        invariant alternateScroll == if ALTERNATE_SCROLL_MODE in params[..i] then set_ else old(alternateScroll)
      {
        assert params[..i + 1] == params[..i] + [params[i]];
        if params[i] == FOCUS_REPORTING_MODE { focusReporting := set_; }
        if params[i] == ALTERNATE_SCROLL_MODE { alternateScroll := set_; }
      }
      assert params[..|params|] == params;
    }

    method Advance(b: byte) returns (query: Option<Query>)
      requires Valid()
      modifies this, csi
      ensures Valid() && (Value(), query) == Step(old(Value()), b)
    {
      query := None;
      var next := state;
      match state {
        case Ground => if b == ESC { next := Escape; }
        case Escape =>
          next := Ground;
          if b == 0x63 {
            focusReporting, alternateScroll := false, false;
          } else if b == 0x5b {
            csiLen, next := 0, Csi;
          } else if b in {0x5d, 0x50, 0x5f, 0x5e, 0x58} {
            next := StringBody(false);
          } else if b in {0x28, 0x29, 0x2a, 0x2b} {
            next := IgnoreOne;
          } else if b == 0x5a {
            query := Some(DeviceQuery(PRIMARY_DEVICE_ATTRIBUTES));
          }
        case Csi =>
          if IsFinal(b) {
            query := CsiQuery(csi[..csiLen], b);
            ObserveModeChange(b);
            next := Ground;
          } else if csiLen >= MAX_CSI_BYTES {
            next := CsiIgnored;
          } else {
            csi[csiLen] := b;
            csiLen := csiLen + 1;
            assert csi[..csiLen] == old(csi[..csiLen]) + [b];
          }
        case CsiIgnored => if IsFinal(b) { next := Ground; }
        case StringBody(escSeen) =>
          next := if b == BEL || (escSeen && b == 0x5c) then Ground else StringBody(b == ESC);
        case IgnoreOne => next := Ground;
      }
      state := next;
    }
  }
}
