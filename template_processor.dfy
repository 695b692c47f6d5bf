/**
 * src/lib/templateProcessor.ts: the ticket template is rewritten by a fixed sequence of
 * first-match replacements, one per class name, with three helpers that compute the station
 * shift, the position of the "元" glyph and the redacted ID number.
 */
module TemplateProcessor {

  import opened Wrappers
  import opened Decimal
  import opened SlotReplace
  import opened Tickets

  // ---------------------------------------------------------------------------------------
  // Reading back a CSS pixel value, to say what a rendered style means.
  // ---------------------------------------------------------------------------------------

  /** The integer between `prefix` and `suffix` in `style`, if it has that shape. */
  function PxValue(style: string, prefix: string, suffix: string): (value: Option<int>)
  {
    if |prefix| + |suffix| <= |style| && style[..|prefix|] == prefix && style[|style| - |suffix|..] == suffix
    then ParseInt(style[|prefix|..|style| - |suffix|])
    else None
  }

  lemma PxValueRoundTrip(prefix: string, suffix: string, i: int)
    ensures PxValue(prefix + IntToString(i) + suffix, prefix, suffix) == Some(i)
  {
    var style := prefix + IntToString(i) + suffix;
    assert style[..|prefix|] == prefix;
    assert style[|style| - |suffix|..] == suffix;
    assert style[|prefix|..|style| - |suffix|] == IntToString(i);
    ParseIntToString(i);
  }

  /** `-${n}` for a positive n reads back as -n. */
  lemma NegatedRoundTrip(prefix: string, suffix: string, n: nat)
    requires n > 0
    ensures PxValue(prefix + "-" + NatToString(n) + suffix, prefix, suffix) == Some(-(n as int))
  {
    assert "-" + NatToString(n) == IntToString(-(n as int));
    PxValueRoundTrip(prefix, suffix, -(n as int));
  }

  // ---------------------------------------------------------------------------------------
  // getStationPositionStyle
  // ---------------------------------------------------------------------------------------

  datatype StationKind = Departure | Arrival

  /** The pixel offset for a station name of `length` characters: longer names move further. */
  function StationOffset(length: nat): (offset: nat)
  {
    if length >= 6 then 300
    else if length >= 5 then 220
    else if length >= 4 then 150
    else if length >= 3 then 90
    else if length >= 2 then 50
    else 0
  }

  /** The signed horizontal shift in px: departure moves left by half the offset, arrival right. */
  function StationShift(name: string, kind: StationKind): (shift: int)
  {
    var offset := StationOffset(|name|);
    if kind == Departure then -(offset / 2) else offset
  }

  const TranslatePrefix: string := " style=\"transform: translateX("
  const TranslateSuffix: string := "px);\""

  /** The style attribute text for a station container: none for a name shorter than two characters. */
  function StationPositionStyle(name: string, kind: StationKind): (style: string)
    ensures style == "" <==> |name| < 2
  {
    if name == "" then ""
    else
      var offset := StationOffset(|name|);
      if offset == 0 then ""
      else if kind == Departure then TranslatePrefix + "-" + NatToString(offset / 2) + TranslateSuffix
      else TranslatePrefix + NatToString(offset) + TranslateSuffix
  }

  /** `-${n}` for half an offset reads back as minus that half, whatever the offset. */
  lemma HalfOffsetRoundTrip(offset: nat)
    requires offset >= 2
    ensures PxValue(TranslatePrefix + "-" + NatToString(offset / 2) + TranslateSuffix, TranslatePrefix, TranslateSuffix)
            == Some(-(offset / 2))
  {
    NegatedRoundTrip(TranslatePrefix, TranslateSuffix, offset / 2);
  }

  /** `${n}` for an offset reads back as the offset itself, whatever the offset. */
  lemma OffsetRoundTrip(offset: nat)
    ensures PxValue(TranslatePrefix + NatToString(offset) + TranslateSuffix, TranslatePrefix, TranslateSuffix)
            == Some(offset)
  {
    assert IntToString(offset) == NatToString(offset);
    PxValueRoundTrip(TranslatePrefix, TranslateSuffix, offset);
  }

  /** A departure style reads back as minus half the offset. */
  lemma DepartureStyleMeaning(name: string)
    requires |name| >= 2
    ensures PxValue(StationPositionStyle(name, Departure), TranslatePrefix, TranslateSuffix) == Some(StationShift(name, Departure))
  {
    var offset := StationOffset(|name|);
    var style := StationPositionStyle(name, Departure);
    assert offset >= 50;
    assert style == TranslatePrefix + "-" + NatToString(offset / 2) + TranslateSuffix;
    HalfOffsetRoundTrip(offset);
    assert PxValue(style, TranslatePrefix, TranslateSuffix) == Some(-((offset / 2) as int));
  }

  /** An arrival style reads back as the offset itself. */
  lemma ArrivalStyleMeaning(name: string)
    requires |name| >= 2
    ensures PxValue(StationPositionStyle(name, Arrival), TranslatePrefix, TranslateSuffix) == Some(StationShift(name, Arrival))
  {
    var offset := StationOffset(|name|);
    var style := StationPositionStyle(name, Arrival);
    assert offset >= 50;
    assert style == TranslatePrefix + NatToString(offset) + TranslateSuffix;
    OffsetRoundTrip(offset);
    assert PxValue(style, TranslatePrefix, TranslateSuffix) == Some(offset);
  }

  /** A station style that is there reads back as the signed shift. */
  lemma StationStyleMeaning(name: string, kind: StationKind)
    requires |name| >= 2
    ensures PxValue(StationPositionStyle(name, kind), TranslatePrefix, TranslateSuffix) == Some(StationShift(name, kind))
  {
    if kind == Departure {
      DepartureStyleMeaning(name);
    } else {
      ArrivalStyleMeaning(name);
    }
  }

  /** Each offset tier holds for exactly the lengths the app assigns it. */
  lemma StationOffsetTiers(length: nat)
    ensures StationOffset(length) == 300 <==> length >= 6
    ensures StationOffset(length) == 220 <==> length == 5
    ensures StationOffset(length) == 150 <==> length == 4
    ensures StationOffset(length) == 90 <==> length == 3
    ensures StationOffset(length) == 50 <==> length == 2
    ensures StationOffset(length) == 0 <==> length <= 1
  {
  }

  /** A longer station name never moves less. */
  lemma StationOffsetMonotone(m: nat, n: nat)
    requires m <= n
    ensures StationOffset(m) <= StationOffset(n)
  {
  }

  /** The departure shift points left, the arrival shift right, and its size is exactly half. */
  lemma DepartureShiftIsHalf(name: string)
    ensures StationShift(name, Departure) <= 0 <= StationShift(name, Arrival)
    ensures StationShift(name, Arrival) == -2 * StationShift(name, Departure)
  {
  }

  // ---------------------------------------------------------------------------------------
  // getPriceUnitPositionStyle
  // ---------------------------------------------------------------------------------------

  const PriceBaseLeft: int := 150
  const PriceSpacing: int := -2
  const LeftPrefix: string := " style=\"left: "
  const LeftSuffix: string := "px;\""

  /** The width in px the price label gives one character: a decimal point is half a digit. */
  function CharWidth(c: char): (width: nat)
  {
    if c == '.' then 15 else 30
  }

  /**
   * The width of the whole price, summed character by character from the left; every
   * character is at least 15px and at most 30px wide.
   */
  function PriceWidth(price: string): (width: nat)
    ensures 15 * |price| <= width <= 30 * |price|
    decreases |price|
  {
    if price == [] then 0 else PriceWidth(price[..|price| - 1]) + CharWidth(price[|price| - 1])
  }

  /** Where the "元" glyph goes: just after the price label, which starts at 150px. */
  function PriceUnitLeft(price: string): (left: int)
  {
    PriceBaseLeft + PriceWidth(price) + PriceSpacing
  }

  /** The style attribute text for the price unit: none for an empty price. */
  function PriceUnitStyle(price: string): (style: string)
    ensures style == "" <==> price == ""
  {
    if price == "" then "" else LeftPrefix + IntToString(PriceUnitLeft(price)) + LeftSuffix
  }

  /** A price-unit style that is there reads back as the computed left edge. */
  lemma PriceUnitStyleMeaning(price: string)
    requires price != ""
    ensures PxValue(PriceUnitStyle(price), LeftPrefix, LeftSuffix) == Some(PriceUnitLeft(price))
  {
    PxValueRoundTrip(LeftPrefix, LeftSuffix, PriceUnitLeft(price));
  }

  /** The width is 30px per character less 15px per decimal point, whatever their order. */
  lemma {:induction false} PriceWidthCount(price: string)
    ensures PriceWidth(price) == 30 * |price| - 15 * multiset(price)['.']
    decreases |price|
  {
    if price != [] {
      var init, last := price[..|price| - 1], price[|price| - 1];
      PriceWidthCount(init);
      assert price == init + [last];
      assert multiset(price) == multiset(init) + multiset{last};
    }
  }

  lemma PriceUnitExample()
    ensures PriceUnitLeft("54.5") == 253
    ensures PriceUnitStyle("54.5") == " style=\"left: 253px;\""
  {
    PriceWidthCount("54.5");
    assert multiset("54.5")['.'] == 1;
  }

  /** The loop of getPriceUnitPositionStyle. */
  method PriceUnitPositionStyle(price: string) returns (style: string)
    ensures style == PriceUnitStyle(price)
  {
    if price == "" {
      return "";
    }
    var baseLeft, spacing := 150, -2;
    var totalWidth := 0;
    for i := 0 to |price|
      invariant totalWidth == PriceWidth(price[..i])
    {
      assert price[..i + 1][..i] == price[..i];
      if price[i] == '.' {
        totalWidth := totalWidth + 15;
      } else {
        totalWidth := totalWidth + 30;
      }
    }
    assert price[..|price|] == price;
    var leftPosition := baseLeft + totalWidth + spacing;
    assert leftPosition == PriceUnitLeft(price);
    style := LeftPrefix + IntToString(leftPosition) + LeftSuffix;
  }

  // ---------------------------------------------------------------------------------------
  // maskIdNumber
  // ---------------------------------------------------------------------------------------

  /** The RangeError that `String.prototype.repeat` throws for a negative count. */
  datatype RangeError = InvalidCountValue(count: int)

  /** `c.repeat(count)` for a one-character string `c`. */
  function Repeat(c: char, count: int): (r: Result<string, RangeError>)
    ensures r.Ok? <==> count >= 0
    ensures r.Ok? ==> |r.value| == count && forall k :: 0 <= k < count ==> r.value[k] == c
    decreases if count < 0 then 0 else count
  {
    if count < 0 then Err(InvalidCountValue(count))
    else if count == 0 then Ok("")
    else Ok([c] + Repeat(c, count - 1).value)
  }

  /**
   * Redacts an ID number: short ones are shown as they are, longer ones keep their first three
   * and last four characters with a `*` for each character in between. At exactly six
   * characters the number of stars is -1 and `repeat` throws.
   */
  function MaskIdNumber(id: string): (r: Result<string, RangeError>)
    ensures r.Err? <==> |id| == 6
    ensures r.Err? ==> r.error == InvalidCountValue(-1)
    ensures |id| < 6 ==> r == Ok(id)
    ensures |id| >= 7 ==> r.Ok? && |r.value| == |id|
    ensures |id| >= 7 ==> r.Ok? && r.value[..3] == id[..3] && r.value[|id| - 4..] == id[|id| - 4..]
    ensures |id| >= 7 ==> r.Ok? && forall k :: 3 <= k < |id| - 4 ==> r.value[k] == '*'
  {
    if id == "" || |id| < 6 then
      Ok(id)
    else
      var start := id[..3];
      var end := id[|id| - 4..];
      match Repeat('*', |id| - 7)
      case Err(e) => Err(e)
      case Ok(middle) => Ok(start + middle + end)
  }

  /** What the redaction shows is a function of the length and the visible characters only. */
  lemma MaskSeesOnlyEnds(a: string, b: string)
    requires |a| == |b| >= 7
    requires a[..3] == b[..3] && a[|a| - 4..] == b[|b| - 4..]
    ensures MaskIdNumber(a) == MaskIdNumber(b)
  {
    var ma, mb := MaskIdNumber(a).value, MaskIdNumber(b).value;
    forall k | 0 <= k < |a| ensures ma[k] == mb[k] {
      if k < 3 {
        assert ma[k] == ma[..3][k] && mb[k] == mb[..3][k];
      } else if k >= |a| - 4 {
        assert ma[k] == ma[|a| - 4..][k - (|a| - 4)] && mb[k] == mb[|b| - 4..][k - (|b| - 4)];
      }
    }
  }

  /** Redacting a redacted number changes nothing. */
  lemma MaskIdempotent(id: string)
    requires MaskIdNumber(id).Ok?
    ensures MaskIdNumber(MaskIdNumber(id).value) == MaskIdNumber(id)
  {
    if |id| >= 7 {
      var m := MaskIdNumber(id).value;
      var mm := MaskIdNumber(m).value;
      forall k | 0 <= k < |m| ensures mm[k] == m[k] {
        if k < 3 {
          assert mm[k] == mm[..3][k] && m[k] == m[..3][k];
        } else if k >= |m| - 4 {
          assert mm[k] == mm[|m| - 4..][k - (|m| - 4)] && m[k] == m[|m| - 4..][k - (|m| - 4)];
        }
      }
    }
  }

  lemma MaskExample()
    ensures MaskIdNumber("150301199001011234") == Ok("150***********1234")
  {
    var stars := Repeat('*', 11).value;
    assert stars == "***********" by {
      assert |stars| == 11;
      forall k | 0 <= k < 11 ensures stars[k] == "***********"[k] {
      }
    }
    var id := "150301199001011234";
    assert id[..3] == "150" && id[|id| - 4..] == "1234";
    assert MaskIdNumber(id) == Ok("150" + stars + "1234");
    var want := "150***********1234";
    assert "150" + stars + "1234" == want by {
      forall k | 0 <= k < 18 ensures ("150" + stars + "1234")[k] == want[k] {
      }
    }
  }

  // ---------------------------------------------------------------------------------------
  // processTemplate
  // ---------------------------------------------------------------------------------------

  /** One replacement of processTemplate: a whole slot, or just the attributes of a tag. */
  datatype Step =
    | Slot(cls: string, content: string)
    | Tag(cls: string, style: string)

  /** `<div class="cls"style>`: the opening tag with the style text spliced in before `>`. */
  function StyledOpen(cls: string, style: string): (tag: string)
  {
    "<div class=\"" + cls + "\"" + style + ">"
  }

  function ApplyStep(s: string, step: Step): (r: string)
  {
    match step
    case Slot(cls, content) => ReplaceSlot(s, cls, content)
    case Tag(cls, style) => ReplaceFirst(s, Open(cls), StyledOpen(cls, style))
  }

  /** The departure-time slot: date, a space, the time, then "开" (departs). */
  function DepartureText(d: TicketFormData): (text: string)
  {
    d.date + " " + d.departureTime + "开"
  }

  /** The seat-info slot: car number, "车", seat number, "号". */
  function SeatText(d: TicketFormData): (text: string)
  {
    d.carNumber + "车" + d.seatNumber + "号"
  }

  /** processTemplate makes thirteen replacements. */
  const StepCount: nat := 13

  /** The class each of processTemplate's replacements addresses, in order. */
  function ClassAt(k: nat): (cls: string)
    requires k < StepCount
  {
    match k
    case 0 => "ticket-number"
    case 1 => "departure-container"
    case 2 => "departure-station"
    case 3 => "arrival-container"
    case 4 => "arrival-station"
    case 5 => "train-number"
    case 6 => "departure-time"
    case 7 => "seat-info"
    case 8 => "price-label"
    case 9 => "price-unit"
    case 10 => "seat-type"
    case 11 => "name-label"
    case _ => "serial-number"
  }

  /** Steps 1, 3 and 9 rewrite a container's opening tag; the others replace a whole slot. */
  predicate IsTagStep(k: nat)
  {
    k == 1 || k == 3 || k == 9
  }

  /**
   * The k-th replacement processTemplate makes, counting from 0: the two station containers
   * get their shift, the price unit its left edge, and every slot its field's text.
   */
  function StepAt(d: TicketFormData, maskedId: string, k: nat): (step: Step)
    requires k < StepCount
  {
    match k
    case 0 => Slot("ticket-number", d.ticketNumber)
    case 1 => Tag("departure-container", StationPositionStyle(d.departureStation, Departure))
    case 2 => Slot("departure-station", d.departureStation)
    case 3 => Tag("arrival-container", StationPositionStyle(d.arrivalStation, Arrival))
    case 4 => Slot("arrival-station", d.arrivalStation)
    case 5 => Slot("train-number", d.trainNumber)
    case 6 => Slot("departure-time", DepartureText(d))
    case 7 => Slot("seat-info", SeatText(d))
    case 8 => Slot("price-label", d.price)
    case 9 => Tag("price-unit", PriceUnitStyle(d.price))
    case 10 => Slot("seat-type", d.seatType)
    case 11 => Slot("name-label", d.passengerName)
    case _ => Slot("serial-number", maskedId)
  }

  /** The text every replacement pattern starts with. */
  const DivClass: string := "<div class=\""

  lemma NoOccLonger(s: string, pat: string, more: string)
    requires NoOcc(s, pat)
    ensures NoOcc(s, pat + more)
  {
    forall i: nat ensures !OccursAt(s, pat + more, i) {
      assert !OccursAt(s, pat, i);
      if i + |pat + more| <= |s| {
        assert s[i..i + |pat|] == s[i..i + |pat + more|][..|pat|];
      }
    }
  }

  /** A step whose tag is missing leaves the text as it is. */
  lemma StepWithoutTag(s: string, step: Step)
    requires NoOcc(s, DivClass)
    ensures ApplyStep(s, step) == s
  {
    assert Open(step.cls) == DivClass + (step.cls + "\">");
    NoOccLonger(s, DivClass, step.cls + "\">");
  }

  /**
   * The first n replacements, applied in order. Naming the text in the decreases clause
   * keeps the verifier from unrolling all thirteen steps whenever n is a literal.
   */
  function ApplySteps(s: string, d: TicketFormData, maskedId: string, n: nat): (r: string)
    requires n <= StepCount
    decreases n, s
  {
    if n == 0 then s else ApplyStep(ApplySteps(s, d, maskedId, n - 1), StepAt(d, maskedId, n - 1))
  }

  /** One more step, stated apart from any template so that the unfolding stays cheap. */
  lemma ApplyStepsSucc(s: string, d: TicketFormData, maskedId: string, n: nat)
    requires 0 < n <= StepCount
    ensures ApplySteps(s, d, maskedId, n) == ApplyStep(ApplySteps(s, d, maskedId, n - 1), StepAt(d, maskedId, n - 1))
  {
  }

  /** A text without any `<div class="` passes through every replacement unchanged. */
  lemma {:induction false} StepsWithoutTags(s: string, d: TicketFormData, maskedId: string, n: nat)
    requires n <= StepCount && NoOcc(s, DivClass)
    ensures ApplySteps(s, d, maskedId, n) == s
  {
    if n > 0 {
      var k := n - 1;
      StepsWithoutTags(s, d, maskedId, k);
      NextStepWithoutTag(s, d, maskedId, k);
    }
  }

  lemma NextStepWithoutTag(s: string, d: TicketFormData, maskedId: string, k: nat)
    requires k < StepCount && NoOcc(s, DivClass) && ApplySteps(s, d, maskedId, k) == s
    ensures ApplySteps(s, d, maskedId, k + 1) == s
  {
    var step := StepAt(d, maskedId, k);
    StepWithoutTag(s, step);
    ApplyStepsSucc(s, d, maskedId, k + 1);
  }

  /**
   * What processTemplate returns, or the error it throws: the RangeError of `repeat(-1)`,
   * exactly when the ID number has six characters.
   */
  function Render(template: string, d: TicketFormData): (r: Result<string, RangeError>)
    ensures r.Err? <==> |d.idNumber| == 6
    ensures r.Err? ==> r.error == InvalidCountValue(-1)
  {
    match MaskIdNumber(d.idNumber)
    case Err(e) => Err(e)
    case Ok(masked) => Ok(ApplySteps(template, d, masked, StepCount))
  }

  /** A template without any `<div class="` tag comes back unchanged: a missing slot is no error. */
  lemma RenderWithoutTags(template: string, d: TicketFormData)
    requires NoOcc(template, DivClass) && |d.idNumber| != 6
    ensures Render(template, d) == Ok(template)
  {
    StepsWithoutTags(template, d, MaskIdNumber(d.idNumber).value, StepCount);
  }

  /** processTemplate: one local string rewritten thirteen times. */
  method ProcessTemplate(templateHtml: string, data: TicketFormData) returns (r: Result<string, RangeError>)
    ensures r == Render(templateHtml, data)
    ensures r.Err? <==> |data.idNumber| == 6
  {
    ghost var masked := MaskIdNumber(data.idNumber);
    ghost var m := if masked.Ok? then masked.value else "";
    var processedHtml := templateHtml;

    processedHtml := ReplaceSlot(processedHtml, "ticket-number", data.ticketNumber);
    assert processedHtml == ApplySteps(templateHtml, data, m, 1);

    var departurePositionStyle := StationPositionStyle(data.departureStation, Departure);
    processedHtml := ReplaceFirst(processedHtml, Open("departure-container"),
      StyledOpen("departure-container", departurePositionStyle));
    assert processedHtml == ApplySteps(templateHtml, data, m, 2);
    processedHtml := ReplaceSlot(processedHtml, "departure-station", data.departureStation);
    assert processedHtml == ApplySteps(templateHtml, data, m, 3);

    var arrivalPositionStyle := StationPositionStyle(data.arrivalStation, Arrival);
    processedHtml := ReplaceFirst(processedHtml, Open("arrival-container"),
      StyledOpen("arrival-container", arrivalPositionStyle));
    assert processedHtml == ApplySteps(templateHtml, data, m, 4);
    processedHtml := ReplaceSlot(processedHtml, "arrival-station", data.arrivalStation);
    assert processedHtml == ApplySteps(templateHtml, data, m, 5);

    processedHtml := ReplaceSlot(processedHtml, "train-number", data.trainNumber);
    assert processedHtml == ApplySteps(templateHtml, data, m, 6);

    processedHtml := ReplaceSlot(processedHtml, "departure-time",
      data.date + " " + data.departureTime + "开");
    assert processedHtml == ApplySteps(templateHtml, data, m, 7);

    processedHtml := ReplaceSlot(processedHtml, "seat-info",
      data.carNumber + "车" + data.seatNumber + "号");
    assert processedHtml == ApplySteps(templateHtml, data, m, 8);

    processedHtml := ReplaceSlot(processedHtml, "price-label", data.price);
    assert processedHtml == ApplySteps(templateHtml, data, m, 9);

    var priceUnitPositionStyle := PriceUnitPositionStyle(data.price);
    processedHtml := ReplaceFirst(processedHtml, Open("price-unit"),
      StyledOpen("price-unit", priceUnitPositionStyle));
    assert processedHtml == ApplySteps(templateHtml, data, m, 10);

    processedHtml := ReplaceSlot(processedHtml, "seat-type", data.seatType);
    assert processedHtml == ApplySteps(templateHtml, data, m, 11);

    processedHtml := ReplaceSlot(processedHtml, "name-label", data.passengerName);
    assert processedHtml == ApplySteps(templateHtml, data, m, 12);

    var maskedIdNumber := MaskIdNumber(data.idNumber);
    if maskedIdNumber.Err? {
      return Err(maskedIdNumber.error);
    }
    processedHtml := ReplaceSlot(processedHtml, "serial-number", maskedIdNumber.value);
    assert processedHtml == ApplySteps(templateHtml, data, m, 13);
    r := Ok(processedHtml);
  }

  // ---------------------------------------------------------------------------------------
  // getDefaultTicketData
  // ---------------------------------------------------------------------------------------

  /** The sample ticket the page starts with. */
  function DefaultTicketData(): (d: TicketFormData)
    ensures d.id.None?
    ensures d.ticketNumber != "" && d.departureStation != "" && d.arrivalStation != ""
    ensures MaskIdNumber(d.idNumber) == Ok(d.idNumber)
  {
    var d := TicketFormData(None, "D010570", "北京南", "天津", "C2241", "11:44", "2024年06月22日",
      "04F", "03", "54.5", "二等座", "damesck", "150***************");
    assert MaskIdNumber(d.idNumber).value == d.idNumber;
    d
  }
}
