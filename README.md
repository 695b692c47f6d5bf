# RailMemo ticket generator — a Dafny model

RailMemo is a small web application that fills an HTML template of a Chinese railway ticket
with what the user types. It keeps a queue of at most ten tickets and exports the queue as an
A4 PDF with ten tickets per page. This project models the application's core and proves
properties of the model:

- **Template processor** (`template_processor.dfy`, `slot_replace.dfy`, `decimal.dfy`):
  - thirteen first-match regular-expression replacements in a fixed order;
  - the station-name shift and the position of the "元" glyph, both in pixels;
  - ID-number redaction;
  - the sample ticket the page starts with.
- **Template layout theorem** (`ticket_layout.dfy`): on a template whose elements each sit on
  a line of their own, rendering fills every slot with its field and styles every container,
  and leaves every other line as it was. The elements may come in any order, be indented or
  be missing, and other lines may lie between them. A container line may go on after its
  opening tag, closing tags included (the price unit's `元</div>`). The template's
  placeholder text does not matter.
- **Home page state** (`page.dfy`): the ticket being edited, the queue, the preview flag, and
  the four handlers that change them.
- **Ticket form** (`ticket_form.dfy`): field updates, conversion between the date picker's
  `YYYY-MM-DD` and the ticket's `YYYY年MM月DD日`, and the effect that syncs the picker.
- **PDF export** (`action_buttons.dfy`):
  - the grid geometry;
  - the export loop, recorded as the sequence of calls it makes on the PDF document;
  - the outcome: an empty-queue alert, a failure, or a saved file.

Stateful code is modelled as classes whose methods update fields: the page `Home`, the form
`TicketFormState` and the button `ExportButton`. Each method's `ensures` ties the new state to
pure functions, and the lemmas state properties of those functions. Code with loops is written
as methods with loops, each proved against a function: the price-unit width loop and the
export loop. Pure helpers are written as functions.

JavaScript's `replace` with a non-global regular expression replaces only the first match.
The slot patterns `<div class="X">.*?<\/div>` are lazy. Their `.` does not match a line
terminator (`\n`, `\r`, U+2028, U+2029). The model follows both rules exactly (`SlotReplace`).

At exactly six characters the code lets the ID number through the `< 6` guard and then
calls `'*'.repeat(-1)`, which throws a `RangeError`. The model follows the code:
`MaskIdNumber` returns `Err(InvalidCountValue(-1))`. That error propagates out of
`processTemplate`, so the export fails with it.

## Model

| member | source | states |
|---|---|---|
| Decimal.ParseNatToString | src/lib/templateProcessor.ts:165-167 | the decimal text written for a pixel offset reads back as the same number |
| Decimal.NatToStringInjective | src/lib/templateProcessor.ts:165-167 | distinct offsets are written as distinct texts |
| Decimal.ParseIntToString | src/lib/templateProcessor.ts:138 | an integer written with an optional minus sign reads back as itself, negative values included |
| SlotReplace.FindSlot | src/lib/templateProcessor.ts:36-39 | the match found is a slot span (opening tag, same-line text, `</div>`), it is the leftmost, and its end is the nearest `</div>`; no result means no span exists |
| SlotReplace.FindFirst | src/lib/templateProcessor.ts:43-46 | the leftmost occurrence of a plain pattern, or a proof that there is none |
| SlotReplace.ReplaceMatch | src/lib/templateProcessor.ts:36-39 | no match leaves the text unchanged; otherwise exactly the leftmost lazy match is cut out and the replacement spliced in |
| SlotReplace.ReplaceSlot | src/lib/templateProcessor.ts:47-50 | a slot's whole element becomes opening tag + new content + `</div>`, and nothing else changes |
| SlotReplace.ReplaceFirst | src/lib/templateProcessor.ts:43-46 | no occurrence leaves the text unchanged; otherwise exactly the first occurrence is replaced |
| SlotReplace.FirstSlotUnique | src/lib/templateProcessor.ts:36-39 | the leftmost lazy match is unique, so the replacement is well defined |
| SlotReplace.FirstSlotExists | src/lib/templateProcessor.ts:36-39 | whenever some slot span exists, a leftmost lazy match exists |
| SlotReplace.ReplaceMatchAfter | src/lib/templateProcessor.ts:36-39 | lines before the first opening tag pass through a slot replacement untouched |
| SlotReplace.ReplaceMatchBefore | src/lib/templateProcessor.ts:36-39 | a match on an earlier line leaves everything after that line's end untouched |
| SlotReplace.FirstSlotOfIndentedLine | src/lib/templateProcessor.ts:36-39 | on an indented line `open + body + </div>` with no `<` in the indentation or the body, the regex matches exactly from the opening tag to the `</div>` |
| SlotReplace.NoOccIndented | src/lib/templateProcessor.ts:43-46 | indentation without `<` in front of a text cannot create an opening tag |
| SlotReplace.ReplaceMatchLine | src/lib/templateProcessor.ts:47-50 | an indented line `open + body + </div>` with no tag in `body` keeps its indentation and has the rest replaced as a whole |
| SlotReplace.ReplaceFirstAfter | src/lib/templateProcessor.ts:54-57 | lines without the tag pass through a tag replacement untouched |
| SlotReplace.ReplaceFirstBefore | src/lib/templateProcessor.ts:54-57 | a tag found on an earlier line leaves the rest of the text untouched |
| SlotReplace.ReplaceFirstLine | src/lib/templateProcessor.ts:54-57 | an indented line holding the tag has that tag rewritten, and its indentation and the rest of the line kept |
| SlotReplace.NoOccJoin | src/lib/templateProcessor.ts:43-46 | joining two lines that lack a one-line pattern cannot create it |
| TemplateProcessor.PxValueRoundTrip | src/lib/templateProcessor.ts:138 | the number written into a style attribute is the number read back from it |
| TemplateProcessor.NegatedRoundTrip | src/lib/templateProcessor.ts:165 | `-${n}` reads back as -n |
| TemplateProcessor.StationPositionStyle | src/lib/templateProcessor.ts:142-169 | the style is empty exactly for names shorter than two characters |
| TemplateProcessor.DepartureStyleMeaning | src/lib/templateProcessor.ts:164-165 | a departure style reads back as minus half the length tier's offset |
| TemplateProcessor.ArrivalStyleMeaning | src/lib/templateProcessor.ts:166-168 | an arrival style reads back as the length tier's offset |
| TemplateProcessor.StationStyleMeaning | src/lib/templateProcessor.ts:142-169 | for a name of two or more characters the style carries the signed shift: left by half the offset for departure, right by the offset for arrival |
| TemplateProcessor.StationOffsetTiers | src/lib/templateProcessor.ts:149-159 | each offset (300, 220, 150, 90, 50, 0) is used for exactly its length tier |
| TemplateProcessor.StationOffsetMonotone | src/lib/templateProcessor.ts:149-159 | a longer station name never moves less |
| TemplateProcessor.DepartureShiftIsHalf | src/lib/templateProcessor.ts:163-168 | departure moves left and arrival right, and the departure shift is half the arrival shift |
| TemplateProcessor.PriceUnitStyle | src/lib/templateProcessor.ts:117-139 | no style exactly for an empty price |
| TemplateProcessor.PriceUnitStyleMeaning | src/lib/templateProcessor.ts:117-139 | a price's style carries the glyph's left edge 150 + width − 2 |
| TemplateProcessor.PriceWidthCount | src/lib/templateProcessor.ts:125-133 | the width is 30 px per character less 15 px per decimal point, whatever the order |
| TemplateProcessor.PriceWidth | src/lib/templateProcessor.ts:125-133 | the width lies between 15 px and 30 px per character |
| TemplateProcessor.PriceUnitExample | src/lib/templateProcessor.ts:117-139 | the sample price "54.5" puts the glyph at 253 px |
| TemplateProcessor.PriceUnitPositionStyle | src/lib/templateProcessor.ts:117-139 | the loop's result is the price-unit style function's value |
| TemplateProcessor.Repeat | src/lib/templateProcessor.ts:179 | `repeat` succeeds exactly for a non-negative count, giving that many copies |
| TemplateProcessor.MaskIdNumber | src/lib/templateProcessor.ts:172-182 | throws exactly at six characters; shorter numbers are returned unchanged; longer ones keep their length, their first 3 and last 4 characters, and have `*` in between |
| TemplateProcessor.MaskSeesOnlyEnds | src/lib/templateProcessor.ts:172-182 | a redacted number depends only on its length and its visible ends |
| TemplateProcessor.MaskIdempotent | src/lib/templateProcessor.ts:172-182 | redacting a redacted number changes nothing |
| TemplateProcessor.MaskExample | src/lib/templateProcessor.ts:172-182 | an 18-character number shows as `150***********1234` |
| TemplateProcessor.Render | src/lib/templateProcessor.ts:32-114 | processing throws exactly when the ID number has six characters, and then with the `RangeError` of `repeat(-1)` |
| TemplateProcessor.StepsWithoutTags | src/lib/templateProcessor.ts:32-114 | on a text without any `<div class="`, any number of the replacements changes nothing |
| TemplateProcessor.RenderWithoutTags | src/lib/templateProcessor.ts:32-114 | a template without any `<div class="` comes back unchanged |
| TemplateProcessor.ProcessTemplate | src/lib/templateProcessor.ts:32-114 | the thirteen replacements in source order give the rendering function's value, and throw exactly at six-character ID numbers |
| TemplateProcessor.DefaultTicketData | src/lib/templateProcessor.ts:185-200 | the sample ticket has no queue id, its three key fields are filled, and its ID number is already redacted |
| TicketLayout.JoinSplit | src/lib/templateProcessor.ts:32-114 | a multi-line template is the text before a line, the line, and the text after it |
| TicketLayout.NoOccInLines | src/lib/templateProcessor.ts:32-114 | lines that lack a one-line pattern join into a text that lacks it |
| TicketLayout.SlotOnLine | src/lib/templateProcessor.ts:36-39 | a slot replacement whose earlier lines lack the tag rewrites exactly its own line |
| TicketLayout.TagOnLine | src/lib/templateProcessor.ts:43-46 | a tag replacement whose earlier lines lack the tag rewrites exactly its own line |
| TicketLayout.ClassesDistinct | src/lib/templateProcessor.ts:32-114 | the thirteen replacements address thirteen different classes |
| TicketLayout.ClassNamesValid | src/lib/templateProcessor.ts:32-114 | every class name is free of quotes, `<` and line terminators |
| TicketLayout.StepShape | src/lib/templateProcessor.ts:32-114 | the k-th replacement addresses the k-th class, and it rewrites an opening tag exactly for the departure container, the arrival container and the price unit; the other ten replace whole slots |
| TicketLayout.FilledLineLacksTag | src/lib/templateProcessor.ts:32-114 | a filled-in element holds no other class's opening tag |
| TicketLayout.LineLacksTag | src/lib/templateProcessor.ts:32-114 | a line, before or after its own replacement, holds no other class's opening tag, so other replacements cannot hit it |
| TicketLayout.StepOnElement | src/lib/templateProcessor.ts:32-114 | a replacement finds its own element's line and fills it in, leaving every other line as it was |
| TicketLayout.StepWithoutElement | src/lib/templateProcessor.ts:32-114 | a replacement whose element the template lacks changes nothing |
| TicketLayout.StepOnMixed | src/lib/templateProcessor.ts:32-114 | replacement k fills in exactly the element of class k, if there is one |
| TicketLayout.StepsOnTemplate | src/lib/templateProcessor.ts:32-114 | after the first n replacements, exactly the elements of the first n classes are filled in |
| TicketLayout.RenderTemplate | src/lib/templateProcessor.ts:32-114 | on a template whose elements each sit on a line of their own, in any order and with other lines between, rendering fills every slot with its field, styles every container, puts the redacted ID number in the serial slot, and leaves every other line as it was |
| Page.RemoveById | src/app/page.tsx:43-45 | removal keeps only tickets of the queue, and none with the removed id |
| Page.RemoveByIdKeepsOthers | src/app/page.tsx:44 | every ticket with another id, or with none, survives |
| Page.RemoveByIdAppend | src/app/page.tsx:44 | removal works piece by piece, so the survivors keep their order |
| Page.RemoveByIdCount | src/app/page.tsx:44 | each ticket's multiplicity is kept, or dropped to zero if it carries the id |
| Page.RemoveAbsentId | src/app/page.tsx:44 | removing an id no ticket carries changes nothing |
| Page.RemoveByIdIdempotent | src/app/page.tsx:44 | removing an id twice is the same as once |
| Page.Home.PreviewVisible | src/app/page.tsx:96 | the preview shows only after "generate", never for a ticket whose three key fields are all empty, and always for a generated ticket with all three filled |
| Page.Home.constructor | src/app/page.tsx:11-13 | the page starts on the sample ticket, with an empty queue and no preview |
| Page.Home.HandleDataChange | src/app/page.tsx:17-25 | stores the ticket; the preview flag is set exactly when a key field is filled; the queue is unchanged |
| Page.Home.HandleGenerate | src/app/page.tsx:27-41 | queues a copy under the new id exactly when all key fields are filled and the queue has room; alerts on a full queue; with a key field missing it silently does nothing (outcome `MissingFields`, no alert in the source); in both of those cases nothing changes; the queue never exceeds ten |
| Page.Home.HandleRemoveTicket | src/app/page.tsx:43-45 | the queue becomes the filtered queue; nothing else changes |
| Page.Home.HandlePreviewTicket | src/app/page.tsx:47-50 | the chosen ticket becomes the edited one and the preview is shown if it has a key field |
| Page.GenerateElevenTimes | src/app/page.tsx:27-41 | eleven presses queue ten copies in order, each under its own id, and report the eleventh as a full queue |
| TicketForm.With | src/components/TicketForm.tsx:29-33 | the field takes the new value, every other field keeps its own, and the id is kept |
| TicketForm.SameFieldsSameTicket | src/types/ticket.ts:16-31 | a ticket is determined by its id and its twelve fields |
| TicketForm.WithOwnValue | src/components/TicketForm.tsx:30 | writing a field's own value back changes nothing |
| TicketForm.WithTwice | src/components/TicketForm.tsx:30 | the second write to a field wins |
| TicketForm.WithCommutes | src/components/TicketForm.tsx:30 | writes to different fields commute |
| TicketForm.IndexOf | src/components/TicketForm.tsx:96 | the first position of the separator |
| TicketForm.Split | src/components/TicketForm.tsx:96 | at least one part, none of which holds the separator |
| TicketForm.JoinSplit | src/components/TicketForm.tsx:96 | joining the parts with the separator gives back the string |
| TicketForm.SplitJoin | src/components/TicketForm.tsx:96 | splitting separator-free parts joined by the separator gives back the parts |
| TicketForm.FormatChineseDate | src/components/TicketForm.tsx:95-97 | the ticket date always ends in `日`; a value without `-` fills only the year and gets `undefined` for month and day, as the template literal prints them |
| TicketForm.FormatDateInput | src/components/TicketForm.tsx:95-98 | a picker date `Y-M-D` becomes `Y年M月D日` |
| TicketForm.FindDate | src/components/TicketForm.tsx:22 | the leftmost position where the date pattern matches, or proof that none does |
| TicketForm.ParseChineseDate | src/components/TicketForm.tsx:21-25 | a picker value comes out exactly when the pattern matches somewhere in the ticket date; it is the year, month and day digits of the leftmost match joined by dashes, in the `YYYY-MM-DD` shape |
| TicketForm.ParseDateAfterText | src/components/TicketForm.tsx:22-24 | text in front of the date is skipped: `出发2024年06月22日` gives the picker `2024-06-22` |
| TicketForm.DateInputRoundTrip | src/components/TicketForm.tsx:22-24 | a picked date, stored in Chinese form, is read back as the same picker value |
| TicketForm.ChineseDateRoundTrip | src/components/TicketForm.tsx:22-24 | an exact Chinese date read into the picker and stored again is unchanged |
| TicketForm.TicketFormState.constructor | src/components/TicketForm.tsx:14-15 | the form starts on the page's ticket with an empty picker |
| TicketForm.TicketFormState.SyncFromProps | src/components/TicketForm.tsx:18-27 | the form takes the page's ticket; the picker takes the matched date, or keeps its value when there is none |
| TicketForm.TicketFormState.HandleInputChange | src/components/TicketForm.tsx:29-33 | one field changes, the new ticket is handed to the page, and the picker is untouched |
| TicketForm.TicketFormState.HandleDateInput | src/components/TicketForm.tsx:92-102 | the picker keeps the raw value; the ticket's date becomes its Chinese form, or empty when cleared |
| TicketForm.TicketFormState.HandleSeatTypeSelect | src/components/TicketForm.tsx:144 | a cleared select stores the empty string, a choice stores itself |
| TicketForm.PickDate | src/components/TicketForm.tsx:18-33 | picking a date and receiving the ticket back shows the picked date and stores its Chinese form |
| ActionButtons.GridSize | src/components/ActionButtons.tsx:34-54 | two columns, five rows, ten per page, and the margins 17 mm and 5.5 mm that centre the grid |
| ActionButtons.PlacementOf | src/components/ActionButtons.tsx:100-103 | the row and column are within the grid and, with the page, determine the ticket's index |
| ActionButtons.PlacementInjective | src/components/ActionButtons.tsx:100-103 | two tickets never get the same cell of the same page |
| ActionButtons.CellInsidePage | src/components/ActionButtons.tsx:110-113 | every ticket lies wholly on the A4 page |
| ActionButtons.CellsApart | src/components/ActionButtons.tsx:110-113 | two tickets on a page are at least the 4 mm gap apart |
| ActionButtons.RenderQueue | src/components/ActionButtons.tsx:66-70 | one rendering per queued ticket, in queue order |
| ActionButtons.PageCountAppend | src/components/ActionButtons.tsx:105-113 | pages and images of consecutive calls add up |
| ActionButtons.ExportSucceedsIff | src/components/ActionButtons.tsx:66-114 | the loop runs to the end exactly when every ticket renders |
| ActionButtons.QueueRendersIff | src/components/ActionButtons.tsx:66-70 | every ticket renders exactly when no ID number has six characters |
| ActionButtons.TicketEventsShape | src/components/ActionButtons.tsx:100-113 | each ticket adds a page exactly at every tenth ticket after the first, then exactly one image at its cell |
| ActionButtons.ExportEvents | src/components/ActionButtons.tsx:66-114 | a loop that runs through n tickets has made at least n calls |
| ActionButtons.ExportErrorFrom | src/components/ActionButtons.tsx:66-114 | a failed loop fails with the error of one of the queued tickets |
| ActionButtons.ImagesStep | src/components/ActionButtons.tsx:105-113 | each ticket appends exactly its own image, at its cell, to the images so far |
| ActionButtons.PagesStep | src/components/ActionButtons.tsx:105-108 | each ticket adds a page exactly when it starts one |
| ActionButtons.ExportPageCount | src/components/ActionButtons.tsx:100-108 | n tickets fill ceil(n / 10) pages |
| ActionButtons.ExportImages | src/components/ActionButtons.tsx:66-114 | the document holds one image per ticket, in queue order, each the rendered ticket at its cell |
| ActionButtons.ElevenTicketsTwoPages | src/components/ActionButtons.tsx:100-108 | eleven tickets take two pages |
| ActionButtons.FileName | src/components/ActionButtons.tsx:121-122 | the file name starts with `火车票批量_` and ends with `.pdf` |
| ActionButtons.FileNameCount | src/components/ActionButtons.tsx:122 | the digits after the prefix read back as the number of tickets saved, followed by `张` |
| ActionButtons.ExportResult | src/components/ActionButtons.tsx:21-129 | the empty-queue alert comes exactly for an empty queue; a saved file bears the name for the queue's length and holds at least one call per ticket |
| ActionButtons.ExportFailure | src/components/ActionButtons.tsx:124-126 | a failed export reports the `RangeError` of redaction, and some queued ID number has six characters |
| ActionButtons.ExportSavesIff | src/components/ActionButtons.tsx:21-129 | a file is saved exactly when the queue is non-empty and no ID number has six characters |
| ActionButtons.ExportFailsWith | src/components/ActionButtons.tsx:124-126 | the first ticket that fails decides the error of the whole export |
| ActionButtons.ExportStopsAt | src/components/ActionButtons.tsx:66-114 | once a ticket fails, later tickets change nothing |
| ActionButtons.PlaceTicket | src/components/ActionButtons.tsx:100-113 | the loop body adds exactly the ticket's page break and image |
| ActionButtons.ExportButton.constructor | src/components/ActionButtons.tsx:15 | the button starts enabled, not exporting |
| ActionButtons.ExportButton.HandleExportPDF | src/components/ActionButtons.tsx:21-129 | the outcome is the export function's value (empty-queue alert, failure, or the named file with the loop's calls), and the button is enabled again whatever happens |

## Left out

- `getTemplateHTML` (`fetch` of the template file) is left out. The template is a parameter of the export, and a failed fetch is not modelled.
- `html2canvas`, the temporary DOM container and the 200 ms wait are left out. An image is represented by the HTML that was rendered into it.
- jsPDF is represented by the calls `addPage` and `addImage`. The document's bytes and `save` are not modelled; `save` is represented by the file name.
- `alert` and `console.error` are represented by the outcome values. `MissingFields` is the model's name for the silent case of handleGenerate, which shows no alert.
- The clock is a parameter. `Date.now()` becomes the `newId` parameter and the ISO timestamp becomes the `timestamp` parameter.
- React is reduced to plain state updates. Batching of state updates, stale closures and the timing of effects are not modelled. Each handler acts on the current state.
- `templateId` in `src/types/ticket.ts` is read by no core function, so the ticket record leaves it out.
- TicketForm.Field: `id` is not a form field. The form never edits it.
- SlotReplace.ReplaceMatch: the replacement text is inserted literally. JavaScript's `replace` expands `$&`, `$$`, `` $` `` and `$'` in it, so a field value containing `$` renders differently in the source.
- Lengths count Unicode code points. JavaScript counts UTF-16 code units, which differ for characters outside the Basic Multilingual Plane.
- TicketLayout.RenderTemplate is stated only for templates in which no two elements share a line, no element occurs twice, slot placeholders hold no `<` or line terminator, and other lines hold none of the thirteen opening tags; and only for fields without `<`. For other inputs the thirteen replacements are modelled by `Render`, but no closed form is proved.
- ActionButtons.ExportEvents states only a lower bound on the number of calls. Their pages and images are stated by ExportPageCount and ExportImages, and the error by ExportErrorFrom.
- ActionButtons.ExportButton.HandleExportPDF models only the `RangeError` of redaction as a failure. Failures of the fetch, of the canvas and of the PDF library are not modelled.
- `src/components/TicketPreview.tsx`, `src/components/FooterSocial.tsx` and `next.config.js` are not part of this model. They are presentation and build configuration.
