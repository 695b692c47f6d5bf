/**
 * The layout half of the PDF export (handleExportPDF in src/components/ActionButtons.tsx):
 * queued tickets are rendered one by one and placed on A4 pages, two columns by five rows.
 * The PDF library is represented by the sequence of calls the loop makes on it.
 */
module ActionButtons {

  import opened Wrappers
  import opened Decimal
  import opened Tickets
  import opened TemplateProcessor

  // ---------------------------------------------------------------------------------------
  // Page geometry, in millimetres.
  // ---------------------------------------------------------------------------------------

  const A4Width: nat := 210
  const A4Height: nat := 297
  const TicketWidth: nat := 86
  const TicketHeight: nat := 54
  /** The space left between neighbouring tickets. */
  const Gap: nat := 4

  /**
   * How many tickets fit across and down a page, and the margins that centre the grid.
   * The values are written out; GridSize proves that they are what the export code computes.
   */
  const Cols: nat := 2
  const Rows: nat := 5
  const TicketsPerPage: nat := 10
  const StartX: real := 17.0
  const StartY: real := 5.5

  /** cols and rows are the floor of page size over ticket size plus gap; the grid is centred. */
  lemma GridSize()
    ensures Cols == A4Width / (TicketWidth + Gap) && Rows == A4Height / (TicketHeight + Gap)
    ensures TicketsPerPage == Cols * Rows
    ensures StartX == (A4Width - (Cols * TicketWidth + (Cols - 1) * Gap)) as real / 2.0
    ensures StartY == (A4Height - (Rows * TicketHeight + (Rows - 1) * Gap)) as real / 2.0
  {
  }

  /** Where the loop puts the ticket at a given position of the queue. */
  datatype Placement = Placement(page: nat, row: nat, col: nat)

  function PlacementOf(ticketIndex: nat): (p: Placement)
    ensures p.row < Rows && p.col < Cols
    ensures ticketIndex == p.page * TicketsPerPage + p.row * Cols + p.col
  {
    var positionInPage := ticketIndex % TicketsPerPage;
    Placement(ticketIndex / TicketsPerPage, positionInPage / Cols, positionInPage % Cols)
  }

  /** Two tickets never share a cell of the same page. */
  lemma PlacementInjective(i: nat, j: nat)
    requires PlacementOf(i) == PlacementOf(j)
    ensures i == j
  {
  }

  /** The top-left corner of a cell. */
  function CellX(col: nat): (x: real)
  {
    StartX + (col * (TicketWidth + Gap)) as real
  }

  function CellY(row: nat): (y: real)
  {
    StartY + (row * (TicketHeight + Gap)) as real
  }

  /** Every ticket lies wholly on its page. */
  lemma CellInsidePage(ticketIndex: nat)
    ensures var p := PlacementOf(ticketIndex);
      && 0.0 <= CellX(p.col) && CellX(p.col) + TicketWidth as real <= A4Width as real
      && 0.0 <= CellY(p.row) && CellY(p.row) + TicketHeight as real <= A4Height as real
  {
    var p := PlacementOf(ticketIndex);
    assert p.col <= 1 && p.row <= 4;
  }

  /** Two tickets on the same page do not overlap: their cells are a gap apart. */
  lemma CellsApart(i: nat, j: nat)
    requires i != j && PlacementOf(i).page == PlacementOf(j).page
    ensures var p, q := PlacementOf(i), PlacementOf(j);
      || CellX(p.col) + TicketWidth as real + Gap as real <= CellX(q.col)
      || CellX(q.col) + TicketWidth as real + Gap as real <= CellX(p.col)
      || CellY(p.row) + TicketHeight as real + Gap as real <= CellY(q.row)
      || CellY(q.row) + TicketHeight as real + Gap as real <= CellY(p.row)
  {
    var p, q := PlacementOf(i), PlacementOf(j);
    if p.col == q.col && p.row == q.row {
      PlacementInjective(i, j);
    }
  }

  // ---------------------------------------------------------------------------------------
  // The export loop, as the calls it makes on the PDF document.
  // ---------------------------------------------------------------------------------------

  /** A call on the PDF document; the rasterised image is represented by the HTML it shows. */
  datatype PdfEvent =
    | AddPage
    | AddImage(html: string, x: real, y: real, width: nat, height: nat)

  /** A new page starts at every tenth ticket after the first page. */
  predicate StartsPage(ticketIndex: nat)
  {
    ticketIndex > 0 && ticketIndex % TicketsPerPage == 0
  }

  /** The image of the ticket at `ticketIndex`, rendered as `html`, at its cell. */
  function ImageOf(ticketIndex: nat, html: string): (image: PdfEvent)
  {
    var p := PlacementOf(ticketIndex);
    AddImage(html, CellX(p.col), CellY(p.row), TicketWidth, TicketHeight)
  }

  /** The calls the loop makes for the ticket at `ticketIndex`, rendered as `html`. */
  function TicketEvents(ticketIndex: nat, html: string): (events: seq<PdfEvent>)
  {
    (if StartsPage(ticketIndex) then [AddPage] else []) + [ImageOf(ticketIndex, html)]
  }

  /** What processTemplate gives for each queued ticket, in queue order. */
  function RenderQueue(template: string, queue: seq<TicketFormData>): (rendered: seq<Result<string, RangeError>>)
    ensures |rendered| == |queue|
  {
    seq(|queue|, i requires 0 <= i < |queue| => Render(template, queue[i]))
  }

  /** The calls made for the first n tickets, or the error the first bad ticket throws. */
  function ExportEvents(rendered: seq<Result<string, RangeError>>, n: nat): (r: Result<seq<PdfEvent>, RangeError>)
    requires n <= |rendered|
    ensures r.Ok? ==> n <= |r.value|
  {
    if n == 0 then Ok([])
    else match ExportEvents(rendered, n - 1)
      case Err(e) => Err(e)
      case Ok(events) =>
        match rendered[n - 1]
        case Err(e) => Err(e)
        case Ok(html) => Ok(events + TicketEvents(n - 1, html))
  }

  /** The number of pages the document has after the given calls. */
  function PageCount(events: seq<PdfEvent>): (n: nat)
  {
    if events == [] then 1
    else PageCount(events[..|events| - 1]) + (if events[|events| - 1].AddPage? then 1 else 0)
  }

  function Images(events: seq<PdfEvent>): (images: seq<PdfEvent>)
    ensures forall e :: e in images ==> e.AddImage?
  {
    if events == [] then []
    else Images(events[..|events| - 1]) + (if events[|events| - 1].AddImage? then [events[|events| - 1]] else [])
  }

  lemma {:induction false} PageCountAppend(a: seq<PdfEvent>, b: seq<PdfEvent>)
    ensures PageCount(a + b) == PageCount(a) + PageCount(b) - 1
    ensures Images(a + b) == Images(a) + Images(b)
  {
    if b == [] {
      assert a + b == a;
    } else {
      assert (a + b)[..|a + b| - 1] == a + b[..|b| - 1];
      PageCountAppend(a, b[..|b| - 1]);
    }
  }

  /** No ticket among the first n has a six-character ID number, the one the mask rejects. */
  predicate AllRenderable(queue: seq<TicketFormData>, n: nat)
    requires n <= |queue|
  {
    forall i :: 0 <= i < n ==> |queue[i].idNumber| != 6
  }

  /** The export goes through exactly when every ticket rendered. */
  lemma {:induction false} ExportSucceedsIff(rendered: seq<Result<string, RangeError>>, n: nat)
    requires n <= |rendered|
    ensures ExportEvents(rendered, n).Ok? <==> forall i :: 0 <= i < n ==> rendered[i].Ok?
  {
    if n > 0 {
      ExportSucceedsIff(rendered, n - 1);
    }
  }

  /** Every ticket of the queue renders exactly when none has a six-character ID number. */
  lemma QueueRendersIff(template: string, queue: seq<TicketFormData>)
    ensures (forall i :: 0 <= i < |queue| ==> RenderQueue(template, queue)[i].Ok?) <==> AllRenderable(queue, |queue|)
  {
    forall i | 0 <= i < |queue| ensures RenderQueue(template, queue)[i].Ok? <==> |queue[i].idNumber| != 6 {
    }
  }

  /** The page count grows by one exactly at the tickets that start a page. */
  lemma PagesGrow(n: nat)
    requires n > 0
    ensures (n - 1) / TicketsPerPage + 1
         == (if n == 1 then 1 else (n - 2) / TicketsPerPage + 1) + (if StartsPage(n - 1) then 1 else 0)
  {
    GridSize();
  }

  /** One ticket's calls: possibly a new page, then exactly its image at its cell. */
  lemma TicketEventsShape(ticketIndex: nat, html: string)
    ensures PageCount(TicketEvents(ticketIndex, html)) == if StartsPage(ticketIndex) then 2 else 1
    ensures Images(TicketEvents(ticketIndex, html)) == [ImageOf(ticketIndex, html)]
  {
    var last := TicketEvents(ticketIndex, html);
    var image := ImageOf(ticketIndex, html);
    var page: seq<PdfEvent> := [AddPage];
    assert Images(page) == [] && PageCount(page) == 2 by {
      assert page[..0] == [];
    }
    if StartsPage(ticketIndex) {
      assert last == page + [image];
      assert last[..1] == page;
    } else {
      assert last == [image] && last[..0] == [];
    }
  }

  /** A successful export of n tickets fills ceil(n / 10) pages (one page for none). */
  lemma {:induction false} ExportPageCount(rendered: seq<Result<string, RangeError>>, n: nat)
    requires n <= |rendered| && ExportEvents(rendered, n).Ok?
    ensures PageCount(ExportEvents(rendered, n).value) == if n == 0 then 1 else (n - 1) / TicketsPerPage + 1
  {
    if n > 0 {
      var k := n - 1;
      ExportPageCount(rendered, k);
      PagesStep(rendered, k);
      PagesGrow(n);
    }
  }

  /** One more ticket adds a page exactly when it starts one. */
  lemma PagesStep(rendered: seq<Result<string, RangeError>>, k: nat)
    requires k < |rendered| && ExportEvents(rendered, k + 1).Ok?
    ensures ExportEvents(rendered, k).Ok?
    ensures PageCount(ExportEvents(rendered, k + 1).value)
         == PageCount(ExportEvents(rendered, k).value) + (if StartsPage(k) then 1 else 0)
  {
    var prev := ExportEvents(rendered, k).value;
    var html := rendered[k].value;
    TicketEventsShape(k, html);
    PageCountAppend(prev, TicketEvents(k, html));
  }

  /**
   * A successful export holds one image per ticket, in queue order, each the rendered
   * ticket at the cell its position in the queue gives.
   */
  lemma {:induction false} ExportImages(rendered: seq<Result<string, RangeError>>, n: nat)
    requires n <= |rendered| && ExportEvents(rendered, n).Ok?
    ensures var images := Images(ExportEvents(rendered, n).value);
      && |images| == n
      && forall i :: 0 <= i < n ==> rendered[i].Ok? && images[i] == ImageOf(i, rendered[i].value)
  {
    if n > 0 {
      var k := n - 1;
      ExportImages(rendered, k);
      ImagesStep(rendered, k);
      var images, before := Images(ExportEvents(rendered, n).value), Images(ExportEvents(rendered, k).value);
      assert images == before + [ImageOf(k, rendered[k].value)];
      forall i | 0 <= i < n ensures rendered[i].Ok? && images[i] == ImageOf(i, rendered[i].value) {
        if i < k {
          assert images[i] == before[i] == ImageOf(i, rendered[i].value);
        } else {
          assert images[i] == ImageOf(k, rendered[k].value);
        }
      }
    }
  }

  /** One more ticket adds exactly its image after the images so far. */
  lemma ImagesStep(rendered: seq<Result<string, RangeError>>, k: nat)
    requires k < |rendered| && ExportEvents(rendered, k + 1).Ok?
    ensures ExportEvents(rendered, k).Ok? && rendered[k].Ok?
    ensures Images(ExportEvents(rendered, k + 1).value)
         == Images(ExportEvents(rendered, k).value) + [ImageOf(k, rendered[k].value)]
  {
    var prev := ExportEvents(rendered, k).value;
    var html := rendered[k].value;
    TicketEventsShape(k, html);
    PageCountAppend(prev, TicketEvents(k, html));
  }

  /** Eleven tickets take two pages. */
  lemma ElevenTicketsTwoPages(rendered: seq<Result<string, RangeError>>)
    requires |rendered| == 11 && ExportEvents(rendered, |rendered|).Ok?
    ensures PageCount(ExportEvents(rendered, |rendered|).value) == 2
  {
    ExportPageCount(rendered, |rendered|);
    GridSize();
  }

  // ---------------------------------------------------------------------------------------
  // handleExportPDF
  // ---------------------------------------------------------------------------------------

  const FilePrefix: string := "火车票批量_"

  /** The saved file's name: the ticket count and a timestamp the caller supplies. */
  function FileName(count: nat, timestamp: string): (name: string)
    ensures |FilePrefix| < |name| && name[..|FilePrefix|] == FilePrefix
    ensures name[|name| - 4..] == ".pdf"
  {
    FilePrefix + NatToString(count) + "张_" + timestamp + ".pdf"
  }

  /** The digits after the prefix read back as the number of tickets saved, and `张` follows them. */
  lemma FileNameCount(count: nat, timestamp: string)
    ensures var name, from, to := FileName(count, timestamp), |FilePrefix|, |FilePrefix| + |NatToString(count)|;
      && to < |name| && name[to] == '张'
      && AllDigits(name[from..to]) && ParseNat(name[from..to]) == count
  {
    var name, digits := FileName(count, timestamp), NatToString(count);
    assert name == FilePrefix + digits + ("张_" + timestamp + ".pdf");
    assert name[|FilePrefix|..|FilePrefix| + |digits|] == digits;
    ParseNatToString(count);
  }

  /** What pressing "export" ends in: the empty-queue alert, the failure alert, or a save. */
  datatype ExportOutcome =
    | NothingToExport
    | Failed(error: RangeError)
    | Saved(fileName: string, events: seq<PdfEvent>)

  function ExportResult(template: string, queue: seq<TicketFormData>, timestamp: string): (outcome: ExportOutcome)
    ensures outcome.NothingToExport? <==> |queue| == 0
    ensures outcome.Saved? ==> outcome.fileName == FileName(|queue|, timestamp) && |queue| <= |outcome.events|
  {
    if |queue| == 0 then NothingToExport
    else match ExportEvents(RenderQueue(template, queue), |queue|)
      case Err(e) => Failed(e)
      case Ok(events) => Saved(FileName(|queue|, timestamp), events)
  }

  /** An export saves a file exactly when the queue is non-empty and every ticket renders. */
  lemma ExportSavesIff(template: string, queue: seq<TicketFormData>, timestamp: string)
    ensures ExportResult(template, queue, timestamp).Saved?
        <==> |queue| > 0 && AllRenderable(queue, |queue|)
  {
    ExportSucceedsIff(RenderQueue(template, queue), |queue|);
    QueueRendersIff(template, queue);
  }

  /** The loop body after rendering: find the ticket's cell, start a page if due, add the image. */
  method PlaceTicket(pdf: seq<PdfEvent>, ticketIndex: nat, html: string) returns (events: seq<PdfEvent>)
    ensures events == pdf + TicketEvents(ticketIndex, html)
  {
    var pageIndex := ticketIndex / TicketsPerPage;
    var positionInPage := ticketIndex % TicketsPerPage;
    var row := positionInPage / Cols;
    var col := positionInPage % Cols;
    events := pdf;
    if ticketIndex > 0 && positionInPage == 0 {
      events := events + [AddPage];
    }
    var x := StartX + (col * (TicketWidth + Gap)) as real;
    var y := StartY + (row * (TicketHeight + Gap)) as real;
    assert PlacementOf(ticketIndex) == Placement(pageIndex, row, col);
    events := events + [AddImage(html, x, y, TicketWidth, TicketHeight)];
  }

  class ExportButton {
    var isExporting: bool

    constructor ()
      ensures !isExporting
    {
      isExporting := false;
    }

    /**
     * The template is passed in (the button fetches it) and so is the timestamp (the button
     * reads the clock). Whatever happens, the button is enabled again at the end.
     */
    method HandleExportPDF(template: string, queue: seq<TicketFormData>, timestamp: string) returns (outcome: ExportOutcome)
      modifies this
      ensures !isExporting
      ensures outcome == ExportResult(template, queue, timestamp)
    {
      isExporting := true;
      if |queue| == 0 {
        isExporting := false;
        return NothingToExport;
      }
      ghost var rendered := RenderQueue(template, queue);
      var events: seq<PdfEvent> := [];
      var ticketIndex := 0;
      while ticketIndex < |queue|
        invariant 0 <= ticketIndex <= |queue|
        invariant ExportEvents(rendered, ticketIndex) == Ok(events)
      {
        var ticket := queue[ticketIndex];
        var processed := ProcessTemplate(template, ticket);
        assert processed == rendered[ticketIndex];
        if processed.Err? {
          ExportFailsWith(rendered, ticketIndex, processed.error);
          isExporting := false;
          return Failed(processed.error);
        }
        var html := processed.value;
        ExportContinues(rendered, ticketIndex, events, html);
        events := PlaceTicket(events, ticketIndex, html);
        ticketIndex := ticketIndex + 1;
      }
      isExporting := false;
      outcome := Saved(FileName(|queue|, timestamp), events);
    }
  }

  lemma ExportContinues(rendered: seq<Result<string, RangeError>>, n: nat, events: seq<PdfEvent>, html: string)
    requires n < |rendered| && ExportEvents(rendered, n) == Ok(events) && rendered[n] == Ok(html)
    ensures ExportEvents(rendered, n + 1) == Ok(events + TicketEvents(n, html))
  {
  }

  /** A failed export fails with the error of one of its tickets. */
  lemma {:induction false} ExportErrorFrom(rendered: seq<Result<string, RangeError>>, n: nat)
    requires n <= |rendered| && ExportEvents(rendered, n).Err?
    ensures exists i :: 0 <= i < n && rendered[i] == Err(ExportEvents(rendered, n).error)
  {
    var k := n - 1;
    if ExportEvents(rendered, k).Err? {
      ExportErrorFrom(rendered, k);
    } else {
      assert rendered[k] == Err(ExportEvents(rendered, n).error);
    }
  }

  /** A failed export reports the redaction error, and some queued ID number has six characters. */
  lemma ExportFailure(template: string, queue: seq<TicketFormData>, timestamp: string)
    requires ExportResult(template, queue, timestamp).Failed?
    ensures ExportResult(template, queue, timestamp).error == InvalidCountValue(-1)
    ensures exists i :: 0 <= i < |queue| && |queue[i].idNumber| == 6
  {
    var rendered := RenderQueue(template, queue);
    ExportErrorFrom(rendered, |queue|);
    var i :| 0 <= i < |queue| && rendered[i] == Err(ExportResult(template, queue, timestamp).error);
    assert rendered[i] == Render(template, queue[i]);
  }

  /** The first ticket that fails to render decides the error of the whole export. */
  lemma ExportFailsWith(rendered: seq<Result<string, RangeError>>, n: nat, e: RangeError)
    requires n < |rendered| && ExportEvents(rendered, n).Ok? && rendered[n] == Err(e)
    ensures ExportEvents(rendered, |rendered|) == Err(e)
  {
    ExportStopsAt(rendered, n + 1, |rendered|);
  }

  /** Once a ticket fails to render, the export as a whole fails with its error. */
  lemma {:induction false} ExportStopsAt(rendered: seq<Result<string, RangeError>>, n: nat, m: nat)
    requires n <= m <= |rendered| && ExportEvents(rendered, n).Err?
    ensures ExportEvents(rendered, m) == ExportEvents(rendered, n)
  {
    if m > n {
      ExportStopsAt(rendered, n, m - 1);
    }
  }
}
