/**
 * What processTemplate produces on a template whose thirteen elements each sit on a line of
 * their own, as in the ticket template. The elements may come in any order, be indented or
 * be missing, and other lines may lie between them. Every replacement lands on its element's
 * line: each slot ends up holding exactly its field's text, each container tag gets exactly
 * its style, and nothing else changes.
 */
module TicketLayout {

  import opened Wrappers
  import opened Decimal
  import opened SlotReplace
  import opened Tickets
  import opened TemplateProcessor

  // ---------------------------------------------------------------------------------------
  // Text as a sequence of lines.
  // ---------------------------------------------------------------------------------------

  /** The lines joined with "\n" between them. */
  function Join(lines: seq<string>): (text: string)
    decreases |lines|
  {
    if |lines| == 0 then ""
    else if |lines| == 1 then lines[0]
    else lines[0] + "\n" + Join(lines[1..])
  }

  /** The text before line k: empty, or the earlier lines each followed by "\n". */
  function Before(lines: seq<string>, k: nat): (text: string)
    requires k <= |lines|
  {
    if k == 0 then "" else Join(lines[..k]) + "\n"
  }

  /** The text after line k: empty, or "\n" and the later lines. */
  function After(lines: seq<string>, k: nat): (text: string)
    requires k < |lines|
  {
    if k == |lines| - 1 then "" else "\n" + Join(lines[k + 1..])
  }

  lemma Assoc(x: string, y: string, z: string)
    ensures x + (y + z) == (x + y) + z
  {
  }

  lemma {:induction false} JoinSplit(lines: seq<string>, k: nat)
    requires k < |lines|
    ensures Join(lines) == Before(lines, k) + lines[k] + After(lines, k)
    decreases |lines|
  {
    if k == 0 {
      if |lines| > 1 {
        var rest := Join(lines[1..]);
        assert After(lines, k) == "\n" + rest;
        Assoc(lines[0], "\n", rest);
        assert "" + lines[0] == lines[0];
      }
    } else {
      var head, tail := lines[0], lines[1..];
      JoinSplit(tail, k - 1);
      assert tail[k - 1] == lines[k];
      assert After(tail, k - 1) == After(lines, k) by {
        assert tail[k..] == lines[k + 1..];
      }
      assert Before(lines, k) == head + "\n" + Before(tail, k - 1) by {
        if k == 1 {
          assert lines[..k] == [head];
        } else {
          assert lines[..k][1..] == tail[..k - 1];
        }
      }
      var b, a := Before(tail, k - 1), After(lines, k);
      assert Join(lines) == (head + "\n") + ((b + lines[k]) + a);
      Assoc(head + "\n", b + lines[k], a);
      Assoc(head + "\n", b, lines[k]);
    }
  }

  lemma BeforeEndsALine(lines: seq<string>, k: nat)
    requires k <= |lines|
    ensures Before(lines, k) == [] || Before(lines, k)[|Before(lines, k)| - 1] == '\n'
  {
  }

  lemma AfterStartsALine(lines: seq<string>, k: nat)
    requires k < |lines| && After(lines, k) != []
    ensures IsLineTerminator(After(lines, k)[0])
  {
  }

  /** Lines none of which holds a one-line pattern join into a text that does not hold it. */
  lemma {:induction false} NoOccInLines(lines: seq<string>, pat: string)
    requires |pat| > 0 && NoLineTerminator(pat)
    requires forall j :: 0 <= j < |lines| ==> NoOcc(lines[j], pat)
    ensures NoOcc(Join(lines), pat)
    decreases |lines|
  {
    if |lines| == 0 {
      forall i: nat ensures !OccursAt("", pat, i) {
      }
    } else if |lines| > 1 {
      NoOccInLines(lines[1..], pat);
      NoOccJoin(lines[0], Join(lines[1..]), pat);
    }
  }

  lemma NoOccBefore(lines: seq<string>, k: nat, pat: string)
    requires k <= |lines| && |pat| > 0 && NoLineTerminator(pat)
    requires forall j :: 0 <= j < k ==> NoOcc(lines[j], pat)
    ensures NoOcc(Before(lines, k), pat)
  {
    if k == 0 {
      forall i: nat ensures !OccursAt("", pat, i) {
      }
    } else {
      NoOccInLines(lines[..k], pat);
      forall i: nat ensures !OccursAt("", pat, i) {
      }
      NoOccJoin(Join(lines[..k]), "", pat);
      assert Join(lines[..k]) + "\n" + "" == Before(lines, k);
    }
  }
  // ---------------------------------------------------------------------------------------
  // One replacement rewrites one line.
  // ---------------------------------------------------------------------------------------

  /** Replacing line k of the joined text, when the text around it is kept. */
  lemma JoinUpdate(lines: seq<string>, k: nat, line: string)
    requires k < |lines|
    ensures Join(lines[k := line]) == Before(lines, k) + (line + After(lines, k))
  {
    var lines' := lines[k := line];
    JoinSplit(lines', k);
    assert lines'[..k] == lines[..k];
    if k < |lines| - 1 {
      assert lines'[k + 1..] == lines[k + 1..];
    }
    Assoc(Before(lines, k), line, After(lines, k));
  }

  lemma OpenStartsATag(cls: string)
    ensures |Open(cls)| > 0 && Open(cls)[0] == '<'
  {
  }

  /** A slot on its own line is replaced there, whatever lines follow. */
  lemma SlotLineThenRest(indent: string, cls: string, body: string, rep: string, post: string)
    requires ClassName(cls) && NoAngle(indent) && NoAngle(body) && NoLineTerminator(body)
    requires post == [] || IsLineTerminator(post[0])
    ensures ReplaceMatch(indent + Open(cls) + body + Close + post, Open(cls), rep) == indent + rep + post
  {
    var open := Open(cls);
    var line := indent + open + body + Close;
    OpenHasNoLineTerminator(cls);
    OpenStartsATag(cls);
    ReplaceMatchLine(indent, open, body, rep);
    if post != [] {
      FirstSlotOfIndentedLine(indent, open, body);
      ReplaceMatchBefore(line, post, open, rep, |indent|, |indent| + |open| + |body|);
    } else {
      assert line + post == line;
    }
  }

  /**
   * A slot replacement whose tag appears on no earlier line, on a line that holds just that
   * slot after some indentation, rewrites exactly that line.
   */
  lemma SlotOnLine(lines: seq<string>, k: nat, cls: string, indent: string, body: string, content: string)
    requires k < |lines| && ClassName(cls) && NoAngle(indent)
    requires lines[k] == indent + Open(cls) + body + Close && NoAngle(body) && NoLineTerminator(body)
    requires forall j :: 0 <= j < k ==> NoOcc(lines[j], Open(cls))
    ensures ReplaceSlot(Join(lines), cls, content) == Join(lines[k := indent + (Open(cls) + content + Close)])
  {
    var open, rep := Open(cls), Open(cls) + content + Close;
    var pre, line, post := Before(lines, k), lines[k], After(lines, k);
    JoinSplit(lines, k);
    Assoc(pre, line, post);
    JoinUpdate(lines, k, indent + rep);
    OpenHasNoLineTerminator(cls);
    NoOccBefore(lines, k, open);
    BeforeEndsALine(lines, k);
    ReplaceMatchAfter(pre, line + post, open, rep);
    if post != [] {
      AfterStartsALine(lines, k);
    }
    SlotLineThenRest(indent, cls, body, rep, post);
    Assoc(indent, rep, post);
  }

  /** A tag at the start of a line, after the indentation, is replaced there, whatever follows. */
  lemma TagLineThenRest(indent: string, cls: string, rest: string, rep: string, post: string)
    requires ClassName(cls) && NoAngle(indent)
    requires post == [] || IsLineTerminator(post[0])
    ensures ReplaceFirst(indent + Open(cls) + rest + post, Open(cls), rep) == indent + (rep + rest) + post
  {
    var open := Open(cls);
    var line := indent + open + rest;
    OpenHasNoLineTerminator(cls);
    OpenStartsATag(cls);
    ReplaceFirstLine(indent, open, rest, rep);
    Assoc(indent, rep, rest);
    if post != [] {
      assert OccursAt(line, open, |indent|) by {
        assert line[|indent|..|indent| + |open|] == open;
      }
      ReplaceFirstBefore(line, post, open, rep, |indent|);
    } else {
      assert line + post == line;
    }
  }

  /** The same for a tag replacement on a line that starts, after the indentation, with the tag. */
  lemma TagOnLine(lines: seq<string>, k: nat, cls: string, indent: string, rest: string, rep: string)
    requires k < |lines| && ClassName(cls) && NoAngle(indent)
    requires lines[k] == indent + Open(cls) + rest
    requires forall j :: 0 <= j < k ==> NoOcc(lines[j], Open(cls))
    ensures ReplaceFirst(Join(lines), Open(cls), rep) == Join(lines[k := indent + (rep + rest)])
  {
    var open := Open(cls);
    var pre, line, post := Before(lines, k), lines[k], After(lines, k);
    JoinSplit(lines, k);
    Assoc(pre, line, post);
    JoinUpdate(lines, k, indent + (rep + rest));
    OpenHasNoLineTerminator(cls);
    NoOccBefore(lines, k, open);
    BeforeEndsALine(lines, k);
    ReplaceFirstAfter(pre, line + post, open, rep);
    if post != [] {
      AfterStartsALine(lines, k);
    }
    TagLineThenRest(indent, cls, rest, rep, post);
    Assoc(indent, rep + rest, post);
  }

  // ---------------------------------------------------------------------------------------
  // A line that opens a div of another class does not hold this class's tag.
  // ---------------------------------------------------------------------------------------

  /** In t, `<` only ever starts a closing tag. */
  ghost predicate AnglesClose(t: string)
  {
    forall i :: 0 <= i < |t| && t[i] == '<' ==> i + 1 < |t| && t[i + 1] == '/'
  }

  lemma Mismatch(s: string, pat: string, i: nat, t: nat)
    requires t < |pat| && (i + t < |s| ==> s[i + t] != pat[t])
    ensures !OccursAt(s, pat, i)
  {
    if i + |pat| <= |s| {
      assert s[i..i + |pat|][t] == s[i + t];
    }
  }

  /** Two different class names differ at some position both have, or one is longer. */
  lemma ClassesDiffer(c: string, other: string) returns (t: nat)
    requires c != other
    ensures t <= |c| && t <= |other|
    ensures t == |c| || t == |other| || c[t] != other[t]
    ensures t == |c| || t == |other| ==> |c| != |other|
  {
    t := 0;
    while t < |c| && t < |other| && c[t] == other[t]
      invariant t <= |c| && t <= |other| && c[..t] == other[..t]
    {
      t := t + 1;
    }
  }

  lemma OtherClassLacksTag(other: string, tail: string, c: string)
    requires ClassName(c) && ClassName(other) && c != other && AnglesClose(tail)
    ensures NoOcc(DivClass + other + "\"" + tail, Open(c))
  {
    var s, o := DivClass + other + "\"" + tail, Open(c);
    var h := 13 + |other|;
    assert o[0] == '<' && o[1] == 'd';
    forall i: nat ensures !OccursAt(s, o, i) {
      if i == 0 {
        var t := ClassesDiffer(c, other);
        if t == |c| {
          assert o[12 + t] == '"' && s[12 + t] == other[t];
        } else if t == |other| {
          assert s[12 + t] == '"' && o[12 + t] == c[t];
        } else {
          assert s[12 + t] == other[t] && o[12 + t] == c[t];
        }
        Mismatch(s, o, 0, 12 + t);
      } else if i < 12 {
        assert s[i] == DivClass[i];
        Mismatch(s, o, i, 0);
      } else if i < h - 1 {
        assert s[i] == other[i - 12];
        Mismatch(s, o, i, 0);
      } else if i < h || i >= |s| {
        Mismatch(s, o, i, 0);
      } else {
        assert s[i] == tail[i - h];
        if tail[i - h] == '<' {
          assert s[i + 1] == tail[i - h + 1];
          Mismatch(s, o, i, 1);
        } else {
          Mismatch(s, o, i, 0);
        }
      }
    }
  }

  lemma SlotLineShape(cls: string, content: string)
    requires NoAngle(content)
    ensures Open(cls) + content + Close == DivClass + cls + "\"" + (">" + content + Close)
    ensures AnglesClose(">" + content + Close)
  {
    var tail := ">" + content + Close;
    forall i | 1 <= i <= |content| ensures tail[i] != '<' {
      assert tail[i] == content[i - 1];
    }
  }

  lemma TagLineShape(cls: string, style: string, rest: string)
    requires NoAngle(style) && AnglesClose(rest)
    ensures StyledOpen(cls, style) + rest == DivClass + cls + "\"" + (style + ">" + rest)
    ensures AnglesClose(style + ">" + rest)
  {
    var tail := style + ">" + rest;
    var h := |style| + 1;
    forall i | 0 <= i < |tail| && tail[i] == '<' ensures i + 1 < |tail| && tail[i + 1] == '/' {
      if i >= h {
        assert tail[i] == rest[i - h];
        assert tail[i + 1] == rest[i + 1 - h];
      }
    }
  }

  // ---------------------------------------------------------------------------------------
  // The classes processTemplate addresses.
  // ---------------------------------------------------------------------------------------

  /** Step k addresses class k, and rewrites a tag exactly at the three container steps. */
  lemma StepShape(d: TicketFormData, maskedId: string, k: nat)
    requires k < StepCount
    ensures StepAt(d, maskedId, k).cls == ClassAt(k)
    ensures StepAt(d, maskedId, k).Tag? <==> IsTagStep(k)
  {
  }

  lemma ClassNamesValid(k: nat)
    requires k < StepCount
    ensures ClassName(ClassAt(k))
  {
    if k < 2 {
      TicketClassNamesValid(k);
    } else if k < 4 {
      DepartureClassNamesValid(k);
    } else if k < 6 {
      ArrivalClassNamesValid(k);
    } else if k < 8 {
      TimeClassNamesValid(k);
    } else if k < 10 {
      PriceClassNamesValid(k);
    } else {
      LastClassNamesValid(k);
    }
  }

  // The class names are checked two or three at a time: one check over all thirteen
  // literals is far more expensive than the sum of these.

  lemma TicketClassNamesValid(k: nat)
    requires k < 2
    ensures ClassName(ClassAt(k))
  {
  }

  lemma DepartureClassNamesValid(k: nat)
    requires 2 <= k < 4
    ensures ClassName(ClassAt(k))
  {
  }

  lemma ArrivalClassNamesValid(k: nat)
    requires 4 <= k < 6
    ensures ClassName(ClassAt(k))
  {
  }

  lemma TimeClassNamesValid(k: nat)
    requires 6 <= k < 8
    ensures ClassName(ClassAt(k))
  {
  }

  lemma PriceClassNamesValid(k: nat)
    requires 8 <= k < 10
    ensures ClassName(ClassAt(k))
  {
  }

  lemma LastClassNamesValid(k: nat)
    requires 10 <= k < StepCount
    ensures ClassName(ClassAt(k))
  {
  }

  /** processTemplate addresses thirteen different classes. */
  lemma ClassesDistinct(j: nat, k: nat)
    requires j < k < StepCount
    ensures ClassAt(j) != ClassAt(k)
  {
  }

  // ---------------------------------------------------------------------------------------
  // Ticket templates as lines.
  // ---------------------------------------------------------------------------------------

  type StepIndex = k: nat | k < StepCount

  /**
   * One line of a ticket template: the element that step `step` addresses, after some
   * indentation, or any other line. For a slot, `body` is the placeholder between its tags;
   * for a container or the price unit, everything on the line after the opening tag.
   */
  datatype Line = Element(step: StepIndex, indent: string, body: string) | Other(text: string)

  /** The element of step k as the template holds it. */
  function TemplateLine(k: nat, body: string): (line: string)
    requires k < StepCount
  {
    if IsTagStep(k) then Open(ClassAt(k)) + body else Open(ClassAt(k)) + body + Close
  }

  /** What a step leaves of its element: a slot holds the new content, a tag gains the style. */
  function FilledLine(step: Step, body: string): (line: string)
  {
    match step
    case Slot(cls, content) => Open(cls) + content + Close
    case Tag(cls, style) => StyledOpen(cls, style) + body
  }

  function LineText(line: Line): (text: string)
  {
    match line
    case Element(k, indent, body) => indent + TemplateLine(k, body)
    case Other(text) => text
  }

  function FilledLineText(line: Line, d: TicketFormData, maskedId: string): (text: string)
  {
    match line
    case Element(k, indent, body) => indent + FilledLine(StepAt(d, maskedId, k), body)
    case Other(text) => text
  }

  /** A line once the first n steps have run: filled if its step is among them. */
  function LineAfter(line: Line, d: TicketFormData, maskedId: string, n: nat): (text: string)
  {
    if line.Element? && line.step < n then FilledLineText(line, d, maskedId) else LineText(line)
  }

  function Mixed(lines: seq<Line>, d: TicketFormData, maskedId: string, n: nat): (texts: seq<string>)
    ensures |texts| == |lines|
  {
    seq(|lines|, i requires 0 <= i < |lines| => LineAfter(lines[i], d, maskedId, n))
  }

  function TemplateLines(lines: seq<Line>): (texts: seq<string>)
    ensures |texts| == |lines|
  {
    seq(|lines|, i requires 0 <= i < |lines| => LineText(lines[i]))
  }

  function FilledLines(lines: seq<Line>, d: TicketFormData, maskedId: string): (texts: seq<string>)
    ensures |texts| == |lines|
  {
    seq(|lines|, i requires 0 <= i < |lines| => FilledLineText(lines[i], d, maskedId))
  }

  lemma MixedAtStart(lines: seq<Line>, d: TicketFormData, maskedId: string)
    ensures Mixed(lines, d, maskedId, 0) == TemplateLines(lines)
  {
  }

  lemma MixedAtEnd(lines: seq<Line>, d: TicketFormData, maskedId: string)
    ensures Mixed(lines, d, maskedId, StepCount) == FilledLines(lines, d, maskedId)
  {
  }

  /**
   * What the theorem asks of a line: an element after indentation without `<`, a slot
   * placeholder without `<` or line break, a container or price-unit line in which `<` only
   * starts a closing tag (so `元</div>` may follow the price-unit tag), and any other line
   * without the opening tag of any of the thirteen classes.
   */
  ghost predicate LineWellFormed(line: Line)
  {
    match line
    case Element(k, indent, body) =>
      NoAngle(indent) && if IsTagStep(k) then AnglesClose(body) else NoAngle(body) && NoLineTerminator(body)
    case Other(text) => forall c :: 0 <= c < StepCount ==> NoOcc(text, Open(ClassAt(c)))
  }

  /** Well-formed lines, and no step's element twice: elements may come in any order, or be missing. */
  ghost predicate WellFormed(lines: seq<Line>)
  {
    && (forall i :: 0 <= i < |lines| ==> LineWellFormed(lines[i]))
    && (forall i, j :: 0 <= i < j < |lines| && lines[i].Element? && lines[j].Element? ==>
          lines[i].step != lines[j].step)
  }

  // ---------------------------------------------------------------------------------------
  // Field values that the theorem covers: no `<`, so no field can carry a tag.
  // ---------------------------------------------------------------------------------------

  predicate PlainFields(d: TicketFormData)
  {
    && NoAngle(d.ticketNumber) && NoAngle(d.departureStation) && NoAngle(d.arrivalStation)
    && NoAngle(d.trainNumber) && NoAngle(d.departureTime) && NoAngle(d.date)
    && NoAngle(d.seatNumber) && NoAngle(d.carNumber) && NoAngle(d.price)
    && NoAngle(d.seatType) && NoAngle(d.passengerName) && NoAngle(d.idNumber)
  }

  lemma DigitsHaveNoAngle(s: string)
    requires AllDigits(s)
    ensures NoAngle(s)
  {
    forall i | 0 <= i < |s| ensures s[i] != '<' {
      assert IsDigit(s[i]);
    }
  }

  lemma StationStyleHasNoAngle(name: string, kind: StationKind)
    ensures NoAngle(StationPositionStyle(name, kind))
  {
    var offset := StationOffset(|name|);
    DigitsHaveNoAngle(NatToString(offset / 2));
    DigitsHaveNoAngle(NatToString(offset));
  }

  lemma PriceStyleHasNoAngle(price: string)
    ensures NoAngle(PriceUnitStyle(price))
  {
    var left := PriceUnitLeft(price);
    DigitsHaveNoAngle(NatToString(left));
  }

  lemma MaskHasNoAngle(id: string)
    requires NoAngle(id) && MaskIdNumber(id).Ok?
    ensures NoAngle(MaskIdNumber(id).value)
  {
    var m := MaskIdNumber(id).value;
    if |id| >= 7 {
      forall k | 0 <= k < |m| ensures m[k] != '<' {
        if k < 3 {
          assert m[k] == m[..3][k] == id[..3][k];
        } else if k >= |id| - 4 {
          assert m[k] == m[|id| - 4..][k - (|id| - 4)] == id[|id| - 4..][k - (|id| - 4)];
        }
      }
    }
  }

  /** With plain fields, what every step writes is free of `<`. */
  lemma StepIsPlain(d: TicketFormData, maskedId: string, k: nat)
    requires k < StepCount && PlainFields(d) && NoAngle(maskedId)
    ensures StepAt(d, maskedId, k).Slot? ==> NoAngle(StepAt(d, maskedId, k).content)
    ensures StepAt(d, maskedId, k).Tag? ==> NoAngle(StepAt(d, maskedId, k).style)
  {
    StationStyleHasNoAngle(d.departureStation, Departure);
    StationStyleHasNoAngle(d.arrivalStation, Arrival);
    PriceStyleHasNoAngle(d.price);
  }

  lemma FilledLineLacksTag(step: Step, body: string, c: string)
    requires ClassName(step.cls) && ClassName(c) && step.cls != c
    requires step.Slot? ==> NoAngle(step.content)
    requires step.Tag? ==> NoAngle(step.style) && AnglesClose(body)
    ensures NoOcc(FilledLine(step, body), Open(c))
  {
    match step
    case Slot(cls, content) =>
      SlotLineShape(cls, content);
      OtherClassLacksTag(cls, ">" + content + Close, c);
    case Tag(cls, style) =>
      TagLineShape(cls, style, body);
      OtherClassLacksTag(cls, style + ">" + body, c);
  }

  /** A line, before or after its own step, holds no other class's opening tag. */
  lemma LineLacksTag(line: Line, d: TicketFormData, maskedId: string, n: nat, c: nat)
    requires LineWellFormed(line) && PlainFields(d) && NoAngle(maskedId) && c < StepCount
    requires line.Element? ==> line.step != c
    ensures NoOcc(LineAfter(line, d, maskedId, n), Open(ClassAt(c)))
  {
    match line
    case Other(_) =>
    case Element(k, indent, body) =>
      var cls := ClassAt(k);
      ClassNamesValid(k);
      ClassNamesValid(c);
      if k < c {
        ClassesDistinct(k, c);
      } else {
        ClassesDistinct(c, k);
      }
      // The element as the template holds it is what a step with the old content would leave.
      var step := if k < n then StepAt(d, maskedId, k)
                  else if IsTagStep(k) then Tag(cls, "") else Slot(cls, body);
      if k < n {
        StepShape(d, maskedId, k);
        StepIsPlain(d, maskedId, k);
      } else if IsTagStep(k) {
        assert StyledOpen(cls, "") == Open(cls);
      }
      FilledLineLacksTag(step, body, ClassAt(c));
      assert LineAfter(line, d, maskedId, n) == indent + FilledLine(step, body);
      OpenStartsATag(ClassAt(c));
      NoOccIndented(indent, FilledLine(step, body), Open(ClassAt(c)));
  }

  // ---------------------------------------------------------------------------------------
  // What processTemplate makes of a ticket template.
  // ---------------------------------------------------------------------------------------

  /** Step k finds its own element, since no other line can hold its tag, and fills it in. */
  lemma StepOnElement(lines: seq<Line>, d: TicketFormData, maskedId: string, k: nat, i: nat)
    requires k < StepCount && WellFormed(lines) && PlainFields(d) && NoAngle(maskedId)
    requires i < |lines| && lines[i].Element? && lines[i].step == k
    ensures ApplyStep(Join(Mixed(lines, d, maskedId, k)), StepAt(d, maskedId, k))
         == Join(Mixed(lines, d, maskedId, k + 1))
  {
    var texts := Mixed(lines, d, maskedId, k);
    var step := StepAt(d, maskedId, k);
    var cls := ClassAt(k);
    StepShape(d, maskedId, k);
    ClassNamesValid(k);
    forall j | 0 <= j < i ensures NoOcc(texts[j], Open(cls)) {
      LineLacksTag(lines[j], d, maskedId, k, k);
    }
    MixedStep(lines, d, maskedId, k, i);
    var indent, body := lines[i].indent, lines[i].body;
    match step
    case Slot(_, content) =>
      SlotOnLine(texts, i, cls, indent, body, content);
    case Tag(_, style) =>
      TagOnLine(texts, i, cls, indent, body, StyledOpen(cls, style));
  }

  /** Step k changes only the line of its element. */
  lemma MixedStep(lines: seq<Line>, d: TicketFormData, maskedId: string, k: nat, i: nat)
    requires k < StepCount && WellFormed(lines)
    requires i < |lines| && lines[i].Element? && lines[i].step == k
    ensures Mixed(lines, d, maskedId, k)[i := FilledLineText(lines[i], d, maskedId)]
         == Mixed(lines, d, maskedId, k + 1)
  {
    var texts, next := Mixed(lines, d, maskedId, k), Mixed(lines, d, maskedId, k + 1);
    var filled := FilledLineText(lines[i], d, maskedId);
    forall j | 0 <= j < |lines| ensures texts[i := filled][j] == next[j] {
      if j < i && lines[j].Element? {
        assert lines[j].step != k;
      } else if j > i && lines[j].Element? {
        assert lines[j].step != k;
      }
    }
  }

  /** Without an element for step k, no line holds its tag and the step changes nothing. */
  lemma StepWithoutElement(lines: seq<Line>, d: TicketFormData, maskedId: string, k: nat)
    requires k < StepCount && WellFormed(lines) && PlainFields(d) && NoAngle(maskedId)
    requires forall i :: 0 <= i < |lines| && lines[i].Element? ==> lines[i].step != k
    ensures ApplyStep(Join(Mixed(lines, d, maskedId, k)), StepAt(d, maskedId, k))
         == Join(Mixed(lines, d, maskedId, k + 1))
  {
    var texts := Mixed(lines, d, maskedId, k);
    var cls := ClassAt(k);
    StepShape(d, maskedId, k);
    ClassNamesValid(k);
    forall j | 0 <= j < |texts| ensures NoOcc(texts[j], Open(cls)) {
      LineLacksTag(lines[j], d, maskedId, k, k);
    }
    OpenHasNoLineTerminator(cls);
    OpenStartsATag(cls);
    NoOccInLines(texts, Open(cls));
    assert texts == Mixed(lines, d, maskedId, k + 1);
    StepWithoutOwnTag(Join(texts), StepAt(d, maskedId, k));
  }

  lemma StepOnMixed(lines: seq<Line>, d: TicketFormData, maskedId: string, k: nat)
    requires k < StepCount && WellFormed(lines) && PlainFields(d) && NoAngle(maskedId)
    ensures ApplyStep(Join(Mixed(lines, d, maskedId, k)), StepAt(d, maskedId, k))
         == Join(Mixed(lines, d, maskedId, k + 1))
  {
    if i :| 0 <= i < |lines| && lines[i].Element? && lines[i].step == k {
      StepOnElement(lines, d, maskedId, k, i);
    } else {
      StepWithoutElement(lines, d, maskedId, k);
    }
  }

  /** A text without a step's opening tag is left as it is by that step. */
  lemma StepWithoutOwnTag(s: string, step: Step)
    requires NoOcc(s, Open(step.cls))
    ensures ApplyStep(s, step) == s
  {
  }

  lemma {:induction false} StepsOnTemplate(lines: seq<Line>, d: TicketFormData, maskedId: string, n: nat)
    requires n <= StepCount && WellFormed(lines) && PlainFields(d) && NoAngle(maskedId)
    ensures ApplySteps(Join(Mixed(lines, d, maskedId, 0)), d, maskedId, n) == Join(Mixed(lines, d, maskedId, n))
  {
    if n > 0 {
      var k := n - 1;
      StepsOnTemplate(lines, d, maskedId, k);
      StepOnMixed(lines, d, maskedId, k);
      ApplyStepsSucc(Join(Mixed(lines, d, maskedId, 0)), d, maskedId, n);
    }
  }

  /**
   * The main theorem: on a template whose elements each sit on a line of their own, rendering
   * fills every slot with its field and styles every container, whatever the placeholders
   * said, and leaves every other line as it was, as long as no field holds a `<`.
   */
  lemma RenderTemplate(lines: seq<Line>, d: TicketFormData)
    requires WellFormed(lines) && PlainFields(d) && |d.idNumber| != 6
    ensures MaskIdNumber(d.idNumber).Ok?
    ensures Render(Join(TemplateLines(lines)), d) == Ok(Join(FilledLines(lines, d, MaskIdNumber(d.idNumber).value)))
  {
    var m := MaskIdNumber(d.idNumber).value;
    MaskHasNoAngle(d.idNumber);
    StepsOnTemplate(lines, d, m, StepCount);
    MixedAtStart(lines, d, m);
    MixedAtEnd(lines, d, m);
  }
}
