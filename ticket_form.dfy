/**
 * The ticket form (src/components/TicketForm.tsx): it edits one field of the ticket at a
 * time and converts between the date picker's `YYYY-MM-DD` and the ticket's
 * `YYYY年MM月DD日`.
 */
module TicketForm {

  import opened Wrappers
  import opened Decimal
  import opened Tickets

  // ---------------------------------------------------------------------------------------
  // Editing one field: `{ ...formData, [field]: value }`.
  // ---------------------------------------------------------------------------------------

  /** The text fields of a ticket, by name. */
  datatype Field =
    | TicketNumber | DepartureStation | ArrivalStation | TrainNumber | DepartureTime | Date
    | SeatNumber | CarNumber | Price | SeatType | PassengerName | IdNumber

  function Get(d: TicketFormData, field: Field): (value: string)
  {
    match field
    case TicketNumber => d.ticketNumber
    case DepartureStation => d.departureStation
    case ArrivalStation => d.arrivalStation
    case TrainNumber => d.trainNumber
    case DepartureTime => d.departureTime
    case Date => d.date
    case SeatNumber => d.seatNumber
    case CarNumber => d.carNumber
    case Price => d.price
    case SeatType => d.seatType
    case PassengerName => d.passengerName
    case IdNumber => d.idNumber
  }

  /** The ticket with one field replaced: that field reads `value`, all else is as before. */
  function With(d: TicketFormData, field: Field, value: string): (r: TicketFormData)
    ensures Get(r, field) == value
    ensures forall other :: other != field ==> Get(r, other) == Get(d, other)
    ensures r.id == d.id
  {
    match field
    case TicketNumber => d.(ticketNumber := value)
    case DepartureStation => d.(departureStation := value)
    case ArrivalStation => d.(arrivalStation := value)
    case TrainNumber => d.(trainNumber := value)
    case DepartureTime => d.(departureTime := value)
    case Date => d.(date := value)
    case SeatNumber => d.(seatNumber := value)
    case CarNumber => d.(carNumber := value)
    case Price => d.(price := value)
    case SeatType => d.(seatType := value)
    case PassengerName => d.(passengerName := value)
    case IdNumber => d.(idNumber := value)
  }

  /** A ticket is determined by its id and its fields, so With changes nothing else. */
  lemma SameFieldsSameTicket(d: TicketFormData, e: TicketFormData)
    requires d.id == e.id && forall field :: Get(d, field) == Get(e, field)
    ensures d == e
  {
    assert Get(d, TicketNumber) == Get(e, TicketNumber) && Get(d, DepartureStation) == Get(e, DepartureStation);
    assert Get(d, ArrivalStation) == Get(e, ArrivalStation) && Get(d, TrainNumber) == Get(e, TrainNumber);
    assert Get(d, DepartureTime) == Get(e, DepartureTime) && Get(d, Date) == Get(e, Date);
    assert Get(d, SeatNumber) == Get(e, SeatNumber) && Get(d, CarNumber) == Get(e, CarNumber);
    assert Get(d, Price) == Get(e, Price) && Get(d, SeatType) == Get(e, SeatType);
    assert Get(d, PassengerName) == Get(e, PassengerName) && Get(d, IdNumber) == Get(e, IdNumber);
  }

  /** Writing back the value a field already holds leaves the ticket as it was. */
  lemma WithOwnValue(d: TicketFormData, field: Field)
    ensures With(d, field, Get(d, field)) == d
  {
    SameFieldsSameTicket(With(d, field, Get(d, field)), d);
  }

  /** Of two edits to the same field, the later one wins. */
  lemma WithTwice(d: TicketFormData, field: Field, first: string, second: string)
    ensures With(With(d, field, first), field, second) == With(d, field, second)
  {
    SameFieldsSameTicket(With(With(d, field, first), field, second), With(d, field, second));
  }

  /** Edits to different fields can be made in either order. */
  lemma WithCommutes(d: TicketFormData, f: Field, v: string, g: Field, w: string)
    requires f != g
    ensures With(With(d, f, v), g, w) == With(With(d, g, w), f, v)
  {
    var a, b := With(With(d, f, v), g, w), With(With(d, g, w), f, v);
    forall field ensures Get(a, field) == Get(b, field) {
      if field != f && field != g {
        assert Get(a, field) == Get(d, field) == Get(b, field);
      }
    }
    SameFieldsSameTicket(a, b);
  }

  // ---------------------------------------------------------------------------------------
  // `value.split('-')`
  // ---------------------------------------------------------------------------------------

  /** The position of the first `c` in `s`. */
  function IndexOf(s: string, c: char): (i: nat)
    requires c in s
    ensures i < |s| && s[i] == c && c !in s[..i]
  {
    if s[0] == c then 0
    else
      var j := IndexOf(s[1..], c);
      assert s[..j + 1] == [s[0]] + s[1..][..j];
      j + 1
  }

  /** The first `c` is the one with no `c` before it. */
  lemma FirstIndex(s: string, c: char, j: nat)
    requires j < |s| && s[j] == c && c !in s[..j]
    ensures IndexOf(s, c) == j
  {
    var i := IndexOf(s, c);
    forall k | 0 <= k < j ensures s[k] != c {
      assert s[..j][k] == s[k];
    }
    forall k | 0 <= k < i ensures s[k] != c {
      assert s[..i][k] == s[k];
    }
  }

  /** JavaScript's split on a one-character separator: the pieces between separators. */
  function Split(s: string, sep: char): (parts: seq<string>)
    ensures |parts| >= 1
    ensures forall k :: 0 <= k < |parts| ==> sep !in parts[k]
    decreases |s|
  {
    if sep !in s then [s]
    else
      var i := IndexOf(s, sep);
      [s[..i]] + Split(s[i + 1..], sep)
  }

  /** Pieces glued back together with the separator between them. */
  function JoinWith(parts: seq<string>, sep: char): (s: string)
    requires |parts| >= 1
  {
    if |parts| == 1 then parts[0] else parts[0] + [sep] + JoinWith(parts[1..], sep)
  }

  /** Splitting loses nothing: the pieces rejoin to the original text. */
  lemma {:induction false} JoinSplit(s: string, sep: char)
    ensures JoinWith(Split(s, sep), sep) == s
    decreases |s|
  {
    if sep in s {
      var i := IndexOf(s, sep);
      JoinSplit(s[i + 1..], sep);
      assert s == s[..i] + [sep] + s[i + 1..];
    }
  }

  /** Pieces that hold no separator come back unchanged from a split of their join. */
  lemma {:induction false} SplitJoin(parts: seq<string>, sep: char)
    requires |parts| >= 1 && forall k :: 0 <= k < |parts| ==> sep !in parts[k]
    ensures Split(JoinWith(parts, sep), sep) == parts
  {
    if |parts| > 1 {
      SplitFirstPiece(parts[0], JoinWith(parts[1..], sep), sep);
      SplitJoin(parts[1..], sep);
      assert parts == [parts[0]] + parts[1..];
    }
  }

  /** A separator-free first piece is split off whole, and the rest is split on its own. */
  lemma SplitFirstPiece(head: string, rest: string, sep: char)
    requires sep !in head
    ensures Split(head + [sep] + rest, sep) == [head] + Split(rest, sep)
  {
    var s := head + [sep] + rest;
    assert s[|head|] == sep;
    assert s[..|head|] == head;
    FirstIndex(s, sep, |head|);
    assert s[|head| + 1..] == rest;
  }

  // ---------------------------------------------------------------------------------------
  // Date picker to ticket date: `${year}年${month}月${day}日`.
  // ---------------------------------------------------------------------------------------

  /** A destructured piece; a missing one prints as "undefined" in a template literal. */
  function Piece(parts: seq<string>, k: nat): (piece: string)
  {
    if k < |parts| then parts[k] else "undefined"
  }

  /**
   * The picker value as a ticket date. The text always ends in `日`; a value without a dash
   * fills only the year, and month and day print as "undefined".
   */
  function FormatChineseDate(value: string): (date: string)
    ensures |date| >= 3 && date[|date| - 1] == '日'
    ensures '-' !in value ==> date == value + "年undefined月undefined日"
  {
    var parts := Split(value, '-');
    Piece(parts, 0) + "年" + Piece(parts, 1) + "月" + Piece(parts, 2) + "日"
  }

  /** A date picker value: four digits, a dash, two digits, a dash, two digits. */
  predicate IsDateInput(year: string, month: string, day: string)
  {
    |year| == 4 && |month| == 2 && |day| == 2 && AllDigits(year) && AllDigits(month) && AllDigits(day)
  }

  lemma DigitsHaveNoDash(s: string)
    requires AllDigits(s)
    ensures '-' !in s
  {
    forall k | 0 <= k < |s| ensures s[k] != '-' {
      assert IsDigit(s[k]);
    }
  }

  /** The picker's `YYYY-MM-DD` is stored as `YYYY年MM月DD日`. */
  lemma FormatDateInput(year: string, month: string, day: string)
    requires IsDateInput(year, month, day)
    ensures FormatChineseDate(year + "-" + month + "-" + day) == year + "年" + month + "月" + day + "日"
  {
    DigitsHaveNoDash(year);
    DigitsHaveNoDash(month);
    DigitsHaveNoDash(day);
    var parts := [year, month, day];
    assert JoinWith(parts, '-') == year + "-" + month + "-" + day by {
      assert parts[1..] == [month, day] && parts[1..][1..] == [day];
      assert JoinWith([month, day], '-') == month + "-" + day;
      assert JoinWith(parts, '-') == year + "-" + (month + "-" + day);
    }
    SplitJoin(parts, '-');
  }

  // ---------------------------------------------------------------------------------------
  // Ticket date to date picker: the first match of /(\d{4})年(\d{2})月(\d{2})日/.
  // ---------------------------------------------------------------------------------------

  /** The pattern matches the eleven characters starting at i. */
  predicate DateAt(s: string, i: nat)
  {
    && i + 11 <= |s|
    && AllDigits(s[i..i + 4]) && s[i + 4] == '年'
    && AllDigits(s[i + 5..i + 7]) && s[i + 7] == '月'
    && AllDigits(s[i + 8..i + 10]) && s[i + 10] == '日'
  }

  /** The leftmost match at or after `from`, as the regex engine finds it. */
  function FindDate(s: string, from: nat): (r: Option<nat>)
    ensures r.Some? ==> from <= r.value && DateAt(s, r.value)
    ensures r.Some? ==> forall j :: from <= j < r.value ==> !DateAt(s, j)
    ensures r.None? ==> forall j :: from <= j ==> !DateAt(s, j)
    decreases |s| - from
  {
    if from + 11 > |s| then None
    else if DateAt(s, from) then Some(from)
    else FindDate(s, from + 1)
  }

  /**
   * The picker value the three captured groups make. There is one exactly when the pattern
   * matches somewhere in the ticket date; it has the picker's `YYYY-MM-DD` shape and holds
   * the digits of the leftmost match.
   */
  function ParseChineseDate(s: string): (r: Option<string>)
    ensures r.None? <==> forall i: nat :: !DateAt(s, i)
    ensures r.Some? ==> |r.value| == 10 && r.value[4] == '-' && r.value[7] == '-'
    ensures r.Some? ==> AllDigits(r.value[..4]) && AllDigits(r.value[5..7]) && AllDigits(r.value[8..])
    ensures forall i: nat :: DateAt(s, i) && (forall j: nat :: j < i ==> !DateAt(s, j))
              ==> r == Some(s[i..i + 4] + "-" + s[i + 5..i + 7] + "-" + s[i + 8..i + 10])
  {
    match FindDate(s, 0)
    case None => None
    case Some(i) => Some(s[i..i + 4] + "-" + s[i + 5..i + 7] + "-" + s[i + 8..i + 10])
  }

  /** Text in front of the date is skipped: the picker gets the digits of the match. */
  lemma ParseDateAfterText()
    ensures ParseChineseDate("出发2024年06月22日") == Some("2024-06-22")
  {
    var s := "出发2024年06月22日";
    assert !DateAt(s, 0) && !DateAt(s, 1) by {
      assert !IsDigit(s[0]) && !IsDigit(s[1]);
    }
    assert DateAt(s, 2) by {
      assert s[2..6] == "2024" && s[7..9] == "06" && s[10..12] == "22";
    }
    assert s[2..6] + "-" + s[7..9] + "-" + s[10..12] == "2024-06-22";
  }

  /** Picking a date and reading it back gives the date that was picked. */
  lemma DateInputRoundTrip(year: string, month: string, day: string)
    requires IsDateInput(year, month, day)
    ensures ParseChineseDate(FormatChineseDate(year + "-" + month + "-" + day)) == Some(year + "-" + month + "-" + day)
  {
    FormatDateInput(year, month, day);
    var s := year + "年" + month + "月" + day + "日";
    assert s[0..4] == year && s[5..7] == month && s[8..10] == day;
    assert DateAt(s, 0);
  }

  /** A ticket date that is exactly one match survives the trip to the picker and back. */
  lemma ChineseDateRoundTrip(s: string)
    requires |s| == 11 && DateAt(s, 0)
    ensures ParseChineseDate(s).Some?
    ensures FormatChineseDate(ParseChineseDate(s).value) == s
  {
    var year, month, day := s[0..4], s[5..7], s[8..10];
    assert ParseChineseDate(s) == Some(year + "-" + month + "-" + day);
    FormatDateInput(year, month, day);
    assert s == year + "年" + month + "月" + day + "日";
  }

  // ---------------------------------------------------------------------------------------
  // The form's state.
  // ---------------------------------------------------------------------------------------

  class TicketFormState {
    var formData: TicketFormData
    var dateInputValue: string

    constructor (initialData: TicketFormData)
      ensures formData == initialData && dateInputValue == ""
    {
      formData := initialData;
      dateInputValue := "";
    }

    /** The effect run when the page hands the form new data. */
    method SyncFromProps(initialData: TicketFormData)
      modifies this
      ensures formData == initialData
      ensures (initialData.date != "" && ParseChineseDate(initialData.date).Some?)
                ==> dateInputValue == ParseChineseDate(initialData.date).value
      ensures (initialData.date == "" || ParseChineseDate(initialData.date).None?)
                ==> dateInputValue == old(dateInputValue)
    {
      formData := initialData;
      if initialData.date != "" {
        var parsed := ParseChineseDate(initialData.date);
        if parsed.Some? {
          dateInputValue := parsed.value;
        }
      }
    }

    /** Replaces one field and hands the new ticket to the page. */
    method HandleInputChange(field: Field, value: string) returns (forwarded: TicketFormData)
      modifies this
      ensures formData == With(old(formData), field, value) && forwarded == formData
      ensures dateInputValue == old(dateInputValue)
    {
      var newData := With(formData, field, value);
      formData := newData;
      forwarded := newData;
    }

    /** The date picker changed: keep its value and store the date in Chinese form. */
    method HandleDateInput(value: string) returns (forwarded: TicketFormData)
      modifies this
      ensures dateInputValue == value && forwarded == formData
      ensures formData == With(old(formData), Date, if value == "" then "" else FormatChineseDate(value))
    {
      dateInputValue := value;
      if value != "" {
        var parts := Split(value, '-');
        var formattedDate := Piece(parts, 0) + "年" + Piece(parts, 1) + "月" + Piece(parts, 2) + "日";
        forwarded := HandleInputChange(Date, formattedDate);
      } else {
        forwarded := HandleInputChange(Date, "");
      }
    }

    /** The seat-type select; clearing it stores the empty string. */
    method HandleSeatTypeSelect(value: Option<string>) returns (forwarded: TicketFormData)
      modifies this
      ensures formData == With(old(formData), SeatType, value.GetOr("")) && forwarded == formData
      ensures dateInputValue == old(dateInputValue)
    {
      forwarded := HandleInputChange(SeatType, value.GetOr(""));
    }
  }

  /**
   * Picking a date sends the ticket to the page, which hands it straight back; the effect
   * then sets the picker to the date that was picked, and the ticket holds its Chinese form.
   */
  method PickDate(initialData: TicketFormData, year: string, month: string, day: string) returns (shown: string, stored: string)
    requires IsDateInput(year, month, day)
    ensures shown == year + "-" + month + "-" + day
    ensures stored == year + "年" + month + "月" + day + "日"
  {
    var form := new TicketFormState(initialData);
    var forwarded := form.HandleDateInput(year + "-" + month + "-" + day);
    FormatDateInput(year, month, day);
    DateInputRoundTrip(year, month, day);
    form.SyncFromProps(forwarded);
    shown := form.dateInputValue;
    stored := form.formData.date;
  }
}
