# Verified model of the VLM page-conversion service

The service takes a stream of page images, sends each page to a vision-language
model and maps the model's answer (DocTags, OTSL, HTML, LaTeX, Markdown, grounded
text) to a document fragment. This project models the parts of it whose behaviour
is hardest to see by reading, and proves what they guarantee for every input, every
run and every interleaving.

| file | what it models |
|---|---|
| `Common.dfy` | vocabulary shared by the models |
| `Ledger.dfy`, `Budget.dfy` | counting budgets and move-only leases |
| `Pipeline.dfy`, `StreamInvariant.dfy`, `SystemInvariant.dfy`, `PipelineTheorems.dfy`, `PipelineOutcomes.dfy`, `PipelineHalting.dfy`, `PipelineProgress.dfy`, `PipelineClosing.dfy` | the ConvertPages pipeline: any number of streams, each with a reader, workers and a writer, as one step system; how calls end and why, what halting does, and that nothing deadlocks |
| `Emphasis.dfy`, `EmphasisKinds.dfy` | the delimiter-stack pass over a Markdown paragraph, and which tags it makes |
| `Skyline.dfy`, `TableOrder.dfy`, `Latex.dfy`, `LatexKept.dfy`, `LatexExact.dfy`, `TableGrid.dfy` | the two cell placers, the document order of what they place, the LaTeX-to-HTML translation that feeds one of them, the cells it keeps and the tabulars it keeps in place, and grid stamping under the size caps |
| `Otsl.dfy`, `OtslRows.dfy`, `OtslEncoding.dfy` | the OTSL reader, its rows told by the tokens, and the encoding it inverts |
| `Entities.dfy`, `MarkupTree.dfy`, `MarkupNesting.dfy`, `MarkupRoundTrip.dfy`, `ElementScanner.dfy` | character references, the tolerant element tree and its nesting by tag name, the cached element scanner |
| `Normalize.dfy`, `LayoutForest.dfy`, `Endpoint.dfy` | annotation rewriting, the document forest, endpoint canonicalisation |

`dafny verify dfyconfig.toml` checks all of it.

Reading guide. Code that updates state in place is a class (`Budget`, `Lease`,
`TreeBuilder`, `Scanner`, `LayoutWriter`) or a method with a loop; each is proved
equal to a value-level function, and the theorems are about that function. The
pipeline is a step system because its guarantees are about interleavings: a step is
one access to shared state, every thread is a program counter, and a page's `Phase`
says which leases it holds and which line it stands in. Pages are named by their
position in the stream, since a client may repeat a page number.

Every lemma carries `{:induction false}`: inductions are written out.

Where the code falls short of what one would expect, the model keeps the code and
says exactly when it does meet the expectation:

- The openers-bottom floor in the emphasis pass is an absolute stack size. Once the
  stack has shrunk below it and grown again, it can hide an opener (`_c* d_ *x*`,
  `FloorsCanHideAnOpener`). The result equals the result of an unlimited search if
  and only if no closer meets a hidden opener (`FloorsExact`), and a floor the stack
  never fell below hides nothing (`KeptFloorsAreHarmless`).
- A text cell under a wide multirow can move one column in the LaTeX translation
  (`UntidyPositionsCanMove`). Positions are preserved if and only if every row is safe:
  what a placeholder with a kept cell to its right passed over is still covered at the
  end of the row, and no kept cell stands on a column an earlier cell still covers
  (`PositionsExact`). The first part fails when a later text cell of the row truncates
  the multirow just passed over, or a placeholder is wider than it; the second when a
  wide cell has reached over a multirow. Tabulars without multicolumn cells, tabulars
  whose multirows are one column wide and never reached over, and tabulars whose cells
  respect the multirows above them are always safe.
- The two placers read row spans differently: the skyline ends a span with its row
  group, the matrix with the table. Where neither drops a cell they put every cell in the
  same place if and only if no group cuts a span shorter than the table end would
  (`PlacersAgreeExactly`; `CrossingSpansDiffer` is a table that fails it).
- A section token in the middle of an OTSL row starts a new row, so an encoded table
  comes back with its own shape if and only if section cells start their rows
  (`ShapeComesBack`; `MidRowSectionSplits` is the smallest table that does not).
- The result of writing the final ConvertComplete message is ignored by the service,
  so an OK status means the trailer was handed to the transport, not that it arrived.

The forest theorem (`WriterBuildsAForest`) asks that every entry can carry children. The
writer meets this by construction: `add_entry` is private, its callers pass field
regions, texts, groups, pictures and tables only (src/mapping/layout.cpp:624, 655,
688-720, 733, 758, 764), and every text they make is code or has a base
(src/mapping/layout.cpp:26-45). The branch of `finish` for other parents is modelled
(`EachEntryOnce`, `ReachedFromBody`) and never taken.

## Model

| member | source | states |
|---|---|---|
| `Ledgers.SumWithout` | src/service/budget.h:45-51 | the live leases of a budget add up the same whichever lease is taken out first, so a release subtracts exactly one lease |
| `Ledgers.JoinKeeps` | src/service/budget.h:100-102 | entering the line keeps counter = sum of leases, arrival order and the account of all tickets; the line gains exactly that owner |
| `Ledgers.TakeKeeps` | src/service/budget.h:104-110 | the front waiter taking its amount keeps the counter within capacity and equal to the live leases, and grants in arrival order |
| `Ledgers.LeaveKeeps` | src/service/budget.h:111-116 | leaving from any place in the line keeps the order of the others and loses no ticket |
| `Ledgers.ReleaseKeeps` | src/service/budget.h:45-51 | giving back never underflows the counter and keeps it equal to the remaining leases |
| `Ledgers.NoOvertaking` | src/service/budget.h:59-60 | a later arrival is granted only after every earlier one was granted or left |
| `Ledgers.EveryHistoryIsSafeAndFair` | src/service/budget.h:27-31 | in every state of every history of a budget: counter = sum of live leases within capacity, and no grant overtook an earlier arrival that stayed |
| `Ledgers.BlockedFrontHasHolder` | src/service/budget.h:99-119 | a front waiter that does not fit is blocked by somebody's live lease: a clamped request always fits an idle budget |
| `Budgets.Budget.Enqueue` | src/service/budget.h:100-102 | the new budget state is the old one with the clamped request at the end of the line |
| `Budgets.Budget.Poll` | src/service/budget.h:103-118 | one pass of the waiting loop: grants exactly when in front and fitting (also when halted), else leaves exactly when halted, else changes nothing; a granted lease is the only owner of its amount |
| `Budgets.Budget.GiveBack` | src/service/budget.h:45-51 | the counter falls by exactly that lease's amount and the lease is no longer live |
| `Budgets.Lease.Reset` | src/service/budget.h:84-89 | gives the amount back once; an empty lease gives back nothing |
| `Budgets.Lease.Steal` | src/service/budget.h:68-69 | a move changes no budget and leaves the source empty |
| `Budgets.Lease.MoveFrom` | src/service/budget.h:70-77 | move assignment releases what was held, takes over the other lease, empties it, and is a no-op on itself |
| `StreamInvariant.ReaderKeeps` | src/service/vlm_convert_service.cpp:453-582 | every step of the reader keeps the stream invariant: pages, workers, channels, counters, events and shutdown order agree |
| `StreamInvariant.WorkerKeeps` | src/service/vlm_convert_service.cpp:396-448 | every step of a worker keeps the stream invariant |
| `StreamInvariant.WriterKeeps` | src/service/vlm_convert_service.cpp:257-285 | every step of the writer keeps the stream invariant; what it wrote is a prefix of what was pushed |
| `StreamInvariant.MoveKeeps` | src/service/vlm_convert_service.cpp:505-514 | every lease step of a page keeps its stream's invariant |
| `SystemInvariant.StepKeeps` | src/service/vlm_convert_service.cpp:242-552 | every step of any stream keeps all streams' invariants and keeps each budget equal to what the pages' phases hold and wait for |
| `SystemInvariant.EveryRunKeeps` | src/service/vlm_convert_service.cpp:242-582 | the invariant holds in every state of every run |
| `PipelineTheorems.OkMeansDelivered` | src/service/vlm_convert_service.cpp:242-582 | a stream that returns OK was never halted; the client was given exactly one PageStarted and later exactly one answer per admitted page, of the kind the page ended with, and nothing else, and then a trailer that counts the pages by their answers; when a call ends OK is `PipelineOutcomes.StatusIsDecided` |
| `PipelineTheorems.OkFinishesEveryPage` | src/service/vlm_convert_service.cpp:405-418 | under an OK status no page was skipped or refused |
| `PipelineTheorems.HaltSticks` | src/service/vlm_convert_service.cpp:248-255 | once set, the halt flag is set in every later state |
| `PipelineTheorems.OneCounterPerCall` | src/service/vlm_convert_service.cpp:554-581 | a call that ended bumped converted, rejected or failed according to its status, exactly one of them unless it ended CANCELLED; which status it has is `PipelineOutcomes.StatusIsDecided` |
| `PipelineTheorems.BudgetsMatchPages` | src/service/vlm_convert_service.cpp:396-447 | in every reachable state each budget's counter is the sum of its live leases and within capacity, a lease is live exactly while its page is in a phase that holds it, for one slot or for the page's bytes, at least one and at most the capacity, and nobody was overtaken |
| `PipelineTheorems.CallsStayWithinSlots` | src/service/vlm_convert_service.cpp:407-418 | in every state of every run, over all calls together: never more pages with an open request, or an answer not yet passed on, than there are slots |
| `PipelineTheorems.ReturnedGivesEverythingBack` | src/service/vlm_convert_service.cpp:509-552 | whichever way a call ends, no budget still holds or queues any of its pages and its own budget is empty |
| `PipelineTheorems.ReturnedLeavesNoPage` | src/service/vlm_convert_service.cpp:547-552 | after the joins no page is left with the reader, in the channel or with a worker |
| `PipelineOutcomes.RefusedAsEarned` | src/service/vlm_convert_service.cpp:458-503 | the read loop refuses a message exactly with the code it earns, by number, size, signature and page cap, and admits an image exactly when it earns none |
| `PipelineOutcomes.StepShows` | src/service/vlm_convert_service.cpp:242-582 | one step of any stream: a lost client, a page image read, a refusal and its code, an admitted page, a page's answer and its kind, and the halt flag each change exactly by the step that tells them |
| `PipelineOutcomes.HistoryShows` | src/service/vlm_convert_service.cpp:242-582 | over every run, a stream shows each of these facts exactly when one of its steps told it or the call was refused with it at the door |
| `PipelineOutcomes.ReturnedStays` | src/service/vlm_convert_service.cpp:547-582 | a returned call takes no further step and changes no more |
| `PipelineOutcomes.ReturnsOnce` | src/service/vlm_convert_service.cpp:547-582 | a call has returned exactly when it took its one Return step or was refused at the door |
| `PipelineOutcomes.StatusIsDecided` | src/service/vlm_convert_service.cpp:554-581 | over every run, a returned call has status OK exactly when no message was refused, the client was neither lost nor had cancelled at the end, a page image was read, and no page failed under abort_on_error; an error exactly with the code of what was refused, or INVALID_ARGUMENT when the client stayed and sent no page; CANCELLED exactly when nothing was refused and the client was lost or had cancelled; ABORTED exactly when only a failed page under abort_on_error stands against OK |
| `PipelineOutcomes.OptionsAreKept` | src/service/vlm_convert_service.cpp:222-242 | a call works to its end under the options it was opened with |
| `PipelineOutcomes.CapacitiesAreConfigured` | src/service/budget.h:23 | over every run every budget has its configured size, at least one |
| `PipelineOutcomes.EventsAreGenuine` | src/service/vlm_convert_service.cpp:430-441 | over every run, every event the client was given names an admitted page image with the number it was sent under, and every answer is of the kind a worker got for that page |
| `PipelineOutcomes.PagesEndAsAnswered` | src/service/vlm_convert_service.cpp:419-441 | the pages of a returned call that ended with an answer are exactly those a worker got that answer for |
| `PipelineOutcomes.OkDeliversTheAnswers` | src/service/vlm_convert_service.cpp:242-582 | a call that ends OK delivered, for every admitted page image, its start and then its one answer, of the one kind its worker got |
| `PipelineHalting.HaltedExactly` | src/service/vlm_convert_service.cpp:442-448 | a returned call was halted exactly when it was refused, lost its client or had a page fail under abort_on_error: each reason is acted on, and there is no other |
| `PipelineHalting.HaltStopsWork` | src/service/vlm_convert_service.cpp:405-407 | once a call is halted its reader takes at most the message it is already waiting for, and no page still in the queue is ever called for |
| `PipelineHalting.PagesGoInOrder` | src/service/vlm_convert_service.cpp:516-521 | pages are announced to the client and taken off the queue in the order their images were read |
| `PipelineProgress.CoreStepUsesWork` | src/service/vlm_convert_service.cpp:396-447 | every step that carries a page forward uses up a part of a finite amount of work |
| `PipelineProgress.CoreRunsAreBounded` | src/service/vlm_convert_service.cpp:396-447 | so such steps alone cannot go on for ever |
| `PipelineProgress.FreeMoves` | src/service/vlm_convert_service.cpp:396-447 | a page that waits for nobody can take its own next step |
| `PipelineProgress.EveryPageResolves` | src/service/vlm_convert_service.cpp:505-514 | from any page in the system at most six waits (line front, lease holder, job channel, busy worker) lead to a page that can step now, across streams |
| `PipelineProgress.WaitsDescend` | src/service/vlm_convert_service.cpp:396-447 | every wait leads to a lower rank: stream bytes, process bytes, job channel, call slots, and in each line from behind to the front |
| `PipelineProgress.WaitsNeverCycle` | src/service/vlm_convert_service.cpp:505-514 | no chain of waits, however chosen, meets a page twice or is longer than nine pages: stream-then-process-then-slot acquisition never forms a cycle |
| `PipelineProgress.NothingLeftMeansNobodyWaits` | src/service/budget.h:99-119 | where no page can step, every page of every stream is gone and every budget is empty with an empty line: no page waits for ever on a lease, the job channel or a worker |
| `PipelineClosing.OnwardUses` | src/service/vlm_convert_service.cpp:257-285 | every step of any thread, with a page or without, except reading and idle polls, uses up a part of what remains to be done |
| `PipelineClosing.LateCallGoesOn` | src/service/vlm_convert_service.cpp:542-552 | a call whose reader left its loop and whose pages are gone has an enabled step until it returns: no join and no channel wait is stuck |
| `PipelineClosing.OnwardRunsAreBounded` | src/service/vlm_convert_service.cpp:396-582 | such steps alone cannot go on for ever |
| `PipelineClosing.StuckMeansReturned` | src/service/vlm_convert_service.cpp:401-403 | where no such step is left every call has returned or is still reading, every page is gone and every budget is empty |
| `PipelineClosing.CallsWindDown` | src/service/vlm_convert_service.cpp:542-582 | from any state, within a known number of such steps, every call whose reader had left its loop returns |
| `PipelineClosing.EveryRunCanWindDown` | src/service/vlm_convert_service.cpp:242-582 | the same from every state of every run: no interleaving of any number of streams deadlocks |
| `Emphasis.FindOpener` | src/mapping/markdown_inline.cpp:296-309 | the nearest compatible opener at or above the floor, none nearer |
| `Emphasis.EmphasisIsNested` | src/mapping/markdown_inline.cpp:282-347 | the em and strong tags of the rendered paragraph form a properly nested, kind-matched bracket word, for every list of pieces |
| `Emphasis.RunsAreConserved` | src/mapping/markdown_inline.cpp:313-320 | per delimiter run, what remains plus one per em and two per strong tag is its original length |
| `Emphasis.ResolveEmphasis` | src/mapping/markdown_inline.cpp:284-335 | the loop over pieces, stack and floors computes the specified pass, whose tags `EmphasisKinds.TagsAreLinks`, `EmphasisKinds.OneEmPerPair` and `EmphasisKinds.EqualRuns` describe |
| `Emphasis.CloseRun` | src/mapping/markdown_inline.cpp:294-327 | the closer's inner loop takes openers until it is used up or finds none, two delimiters at a time while both runs have two, and reports whether it matched |
| `Emphasis.ScanBack` | src/mapping/markdown_inline.cpp:296-309 | the back-scan finds the specified opener |
| `Emphasis.OpensForExactly` | src/mapping/markdown_inline.cpp:299-308 | a run opens for a closer exactly when the characters agree, it may open and has delimiters left, and the rule of three on the two original lengths does not forbid it |
| `EmphasisKinds.TagsAreLinks` | src/mapping/markdown_inline.cpp:313-320 | for every paragraph the tags at a run are exactly those of its pairs: opening tags with the last pair outermost, closing tags in the order of the pairs |
| `EmphasisKinds.OneEmPerPair` | src/mapping/markdown_inline.cpp:313-320 | for every paragraph, one opener and one closer share at most one em pair; all their other pairs are strong |
| `EmphasisKinds.EqualRuns` | src/mapping/markdown_inline.cpp:284-335 | a text between runs of n of the same character comes out with n/2 strong pairs, one em pair outside them when n is odd, and no delimiters left |
| `Emphasis.FloorExact` | src/mapping/markdown_inline.cpp:292-331 | for one closer, the floor-limited search gives the unlimited search's result if and only if no opener is hidden below the floor |
| `Emphasis.FloorsExact` | src/mapping/markdown_inline.cpp:284-335 | for a whole paragraph, the floors change nothing if and only if no closer meets a hidden opener |
| `Emphasis.KeptFloorHidesNothing` | src/mapping/markdown_inline.cpp:328-330 | while the stack has not shrunk below a recorded floor, that floor hides no opener |
| `Emphasis.KeptFloorsAreHarmless` | src/mapping/markdown_inline.cpp:284-335 | a paragraph whose stack never falls below a floor it later uses renders as without floors |
| `Emphasis.FloorsCanHideAnOpener` | src/mapping/markdown_inline.cpp:284-335 | the concrete paragraph on which a floor hides an opener and changes the result |
| `Skyline.FirstFree` | src/mapping/layout.cpp:188-194 | the first column from the cursor on that no earlier cell covers |
| `Skyline.PlacementIsWellPlaced` | src/mapping/layout.cpp:173-217 | anchors are strictly row-major, none lies in an earlier cell, cells of a row do not overlap in it, and only given cells are placed with their own spans |
| `Skyline.RaiseAgrees` | src/mapping/layout.cpp:198-201 | raising a cell's columns keeps `occupied[c] > row` equivalent to "an earlier cell covers (row, c)" for this and every later row |
| `Skyline.NextFree` | src/mapping/layout.cpp:188-194 | skipping occupied columns finds the first uncovered one |
| `Skyline.PlaceOnSkyline` | src/mapping/layout.cpp:173-218 | the skyline loop places exactly as the naive placement that looks at every earlier cell |
| `Skyline.TableIsWellPlaced` | src/mapping/layout.cpp:147-219 | for every table with any row groups the placed cells are well placed and every span ends in its row group; the rows are the document's, by `TableOrder.RowsInDocumentOrder` |
| `TableOrder.RowsInDocumentOrder` | src/mapping/layout.cpp:153-172 | row i of child k stands behind all rows of the children before it, with its own cells and the end of its own section |
| `TableOrder.PlacedInDocumentOrder` | src/mapping/layout.cpp:147-219 | where nothing is dropped the n-th placed cell is the n-th cell of the source in document order, in its own row, with width max(1, colspan) and height max(1, rowspan) cut at its section's end, or the rest of the section when written 0 |
| `Skyline.PlaceOnMatrix` | src/mapping/deepseek.cpp:271-307 | the boolean-matrix loop places exactly as its naive placement |
| `Skyline.Mark` | src/mapping/deepseek.cpp:286-290 | the matrix marks exactly the covered positions |
| `Skyline.PlacersAgree` | src/mapping/deepseek.cpp:275-307 | where neither placer drops a cell of a table without row groups, both put every cell in the same place and cover the same positions |
| `Skyline.PlacersAgreeExactly` | src/mapping/layout.cpp:147-219 | for every table with any row groups where neither placer drops a cell: both put every cell in the same place if and only if, cell by cell, the group-limited row span is the plain one cut at the table end |
| `Skyline.CrossingSpansDiffer` | src/mapping/layout.cpp:184-187 | the concrete table on which a span that crosses its group makes the placers differ |
| `Latex.KeepCells` | src/mapping/nemotron.cpp:331-359 | the owners loop keeps and truncates cells as specified, or gives up past the column limit; what is kept is told by `LatexKept.TableIsKept` and `LatexKept.EveryCellIsAccounted` |
| `LatexKept.EveryCellIsAccounted` | src/mapping/nemotron.cpp:338-356 | from the tabular alone: with col the sum of the widths left of it, a cell is either empty and under a cell kept before it at (row, col), or kept, exactly once and next in order, at (row, col) with its own width, height and text |
| `LatexKept.TableIsKept` | src/mapping/nemotron.cpp:331-359 | the cells that come out are those kept ones in order; each is as high as written unless a text takes one of its columns first |
| `LatexKept.HeightMeans` | src/mapping/nemotron.cpp:344-352 | a kept cell no later text takes has its own height; a taken one ends at the row of the first text that stands inside it on a column no cell kept between covers |
| `Latex.TableOfOk` | src/mapping/nemotron.cpp:334-358 | kept cells come row by row inside the column limit, and truncation never empties a cell |
| `Latex.ItemsOfHtml` | src/mapping/nemotron.cpp:360-380 | reading the emitted rows in order gives back the kept cells with their spans |
| `LatexExact.RowExact` | src/mapping/nemotron.cpp:340-356 | the cells a row keeps stand at the columns the placer picks if and only if the row is safe at the guards of the loop |
| `LatexExact.PositionsExact` | src/mapping/nemotron.cpp:331-381 | the skyline placer puts every emitted cell where the owners loop had it if and only if every row is safe |
| `LatexExact.NarrowPositionsPreserved` | src/mapping/nemotron.cpp:331-381 | positions are preserved when multirows are one column wide and no cell reaches over one, with text or placeholders under them |
| `LatexExact.SingleColumnsPreserved` | src/mapping/nemotron.cpp:331-381 | a tabular without multicolumn cells keeps every position |
| `Latex.TidyPositionsPreserved` | src/mapping/nemotron.cpp:331-381 | positions are preserved for every tabular whose placeholders stand wholly on owned columns and whose other cells wholly on unowned ones |
| `Latex.UntidyPositionsCanMove` | src/mapping/nemotron.cpp:341-348 | a concrete tabular outside that condition whose text cell moves |
| `Grids.KeptShape` | src/mapping/builder.h:180-187 | the kept part is inside all caps, its product included, and is cut only where one more row or column would break a cap |
| `Grids.LastCoverIs` | src/mapping/layout.cpp:271-277 | the last cell in source order that covers a position is what the position holds |
| `Grids.NothingCovers` | src/mapping/layout.cpp:259-270 | an uncovered position holds its own empty 1x1 cell |
| `Grids.Affordable` | src/mapping/layout.cpp:250-258 | the early-exit count accepts exactly the tables whose copies cost at most the byte budget |
| `Grids.Stamp` | src/mapping/layout.cpp:271-277 | stamping one more cell turns the closed form for the cells before it into the closed form with it |
| `Grids.FillSpanTable` | src/mapping/layout.cpp:221-279 | source extent, kept shape, cut cells, the omitted-grid flag, and a full rectangular grid in closed form unless it is too costly |
| `Grids.KeptCellsAre` | src/mapping/layout.cpp:233-249 | exactly the cells anchored in the kept part are kept, cut to it |
| `Grids.VisibleAtAnchor` | src/mapping/layout.cpp:271-277 | with strictly row-major anchors every cell shows at its own anchor even when spans overlap |
| `Grids.EveryKeptCellIsVisible` | src/mapping/layout.cpp:221-279 | the same for the emitted grid of a whole table, with the cell's text, header flags and spans cut to the kept part |
| `TableLayout.MarkupTableShowsItsCells` | src/mapping/layout.cpp:147-279 | from markup rows to grid: every cell inside the caps is what the grid shows at its anchor, and ends in its row group; which source cell that is, is `TableLayout.MarkupTableShowsTheSource` |
| `TableLayout.MarkupTableShowsTheSource` | src/mapping/layout.cpp:147-279 | where nothing is dropped, the grid shows at the n-th cell's anchor the n-th cell of the source in document order, in its own row, with the spans its source asks for cut at its section and the caps |
| `Otsl.NextToken` | src/mapping/otsl.cpp:34-67 | one token of the stream and where the rest of it starts, or the end |
| `Otsl.ScanRows` | src/mapping/otsl.cpp:68-107 | the scan reports the shape of the materialised rows and stores exactly their part inside the window; both passes see the same shape |
| `OtslRows.RowsKeepEveryCell` | src/mapping/otsl.cpp:68-107 | for every token stream the rows put end to end are its cell tokens in order, other tokens skipped; a row starts exactly at a section cell or at the first cell after a row end; no row is empty, and none holds a section cell past its head |
| `Otsl.CellsAreSound` | src/mapping/otsl.cpp:143-177 | one cell per anchor, in strict reading order, every span inside the kept rows without clamping |
| `Otsl.ResolveSpans` | src/mapping/otsl.cpp:143-177 | the span loops compute those cells |
| `Otsl.WindowKeepsPlaces` | src/mapping/otsl.cpp:128-133 | kept tokens stand at their source row and column and nothing else is stored |
| `Otsl.EveryTextIsLaidOut` | src/mapping/otsl.cpp:111-218 | for every text, malformed or not: shape inside the caps, spans inside the grid, every anchor visible at its own position |
| `Otsl.ParseOtslGrid` | src/mapping/otsl.cpp:111-218 | accepts exactly the texts with a row; shape, cells, cut report and grid as specified |
| `OtslEncoding.LexRender` | src/mapping/otsl.cpp:34-67 | lexing inverts rendering for every list of tokens with plain text |
| `OtslEncoding.ShapeComesBack` | src/mapping/otsl.cpp:68-107 | the rows of an encoded table come back if and only if section cells start their rows; otherwise there are more rows |
| `OtslEncoding.MidRowSectionSplits` | src/mapping/otsl.cpp:96-99 | the concrete one-row table with a section cell on the right that is read as more rows |
| `OtslEncoding.AcrossComesBack` | src/mapping/otsl.cpp:152-156 | the run of horizontal fillers behind an anchor is its tile's width, cut to the window |
| `OtslEncoding.DownComesBack` | src/mapping/otsl.cpp:157-162 | the run of vertical fillers below an anchor is its tile's height, cut to the window |
| `OtslEncoding.ReadingInvertsWriting` | src/mapping/otsl.cpp:111-218 | for every tiling of every size, from text to cells: the reader finds the tiles in order, cut to the caps, and every kept position shows the tile that owns it |
| `OtslEncoding.SmallTablesComeBackWhole` | src/mapping/otsl.cpp:111-218 | inside the caps it finds exactly the tiles, each with its text, none for an empty cell, and the header or section flag of its kind |
| `Entities.DecodeEntities` | src/mapping/markup_tree.cpp:250-309 | the decoding loop computes the specified decoding |
| `Entities.DecodeInvertsEscape` | src/mapping/markup_tree.cpp:250-309 | decoding escaped text gives the text back, whatever follows it, for the CDATA, LaTeX-cell and Markdown escapers |
| `Entities.RoundTrip` | src/mapping/markdown_inline.cpp:26-45 | decode(escape(x)) = x for every x and every escaper |
| `Entities.NumbersDecode` | src/mapping/markup_tree.cpp:277-300 | every decimal and hexadecimal spelling, in either case and with leading zeros, of every scalar value decodes to its UTF-8 bytes within the name length limit; zero and surrogates decode to U+FFFD |
| `Entities.NumericSpelled` | src/mapping/markup_tree.cpp:280-300 | a number of any length is decoded unless its digits before the last already pass the last code point |
| `Entities.NamesDecode` | src/mapping/markup_tree.cpp:265-276 | amp, lt, gt, quot, apos and nbsp decode to their characters |
| `Entities.EscapeInto` | src/mapping/nemotron.cpp:190-202 | the escaping loop appends exactly the escaped text |
| `Entities.EscapedHasNoTags` | src/mapping/nemotron.cpp:190-202 | escaped cells and Markdown text hold no byte that could open or close a tag |
| `Entities.BytesReadBack` | src/mapping/markup_tree.cpp:229-248 | the UTF-8 bytes of every code point read back to it |
| `MarkupTree.TreeBuilder.Text` | src/mapping/markup_tree.cpp:136-148 | text extends a last text child or becomes a new child of the innermost open element |
| `MarkupTree.TreeBuilder.Open` | src/mapping/markup_tree.cpp:150-164 | implicit closing, the new child, and the depth and void rules for opening it |
| `MarkupTree.TreeBuilder.Close` | src/mapping/markup_tree.cpp:166-173 | closes to the innermost open element of that name, or does nothing |
| `MarkupTree.TreeBuilder.ImplicitClose` | src/mapping/markup_tree.cpp:178-207 | closes the nearest element the opening tag closes, unless a boundary comes first; the tags and boundaries are written out in `MarkupNesting.OpeningTagsEnd` |
| `MarkupTree.CloseEndsInnermost` | src/mapping/markup_tree.cpp:166-173 | a closing tag ends the innermost open element of its name and everything in it, or nothing when none is open |
| `MarkupTree.OpenEndsNearest` | src/mapping/markup_tree.cpp:178-207 | an opening tag ends an element exactly when the nearest one it closes has no boundary above it; by tag name in `MarkupNesting.OpeningTagsEnd` |
| `MarkupTree.BuildShaped` | src/mapping/markup_tree.cpp:129-212 | for every event sequence: a tree in document order, each stack entry the last child of the one below, no adjacent text siblings |
| `MarkupTree.AttachEnd` | src/mapping/markup_tree.cpp:146-158 | a new node extends the subtrees of exactly the open elements |
| `MarkupTree.ShownIsSlab` | src/mapping/markup_tree.cpp:129-212 | the text under a node is the text of a contiguous stretch of nodes in creation order |
| `MarkupTree.TreeShowsTheText` | src/mapping/markup_tree.cpp:129-212 | the tree, read in document order, shows exactly the decoded text events in order |
| `MarkupTree.TreeIsShallow` | src/mapping/markup_tree.cpp:159-163 | no node lies deeper than the depth cap plus one |
| `MarkupTree.TreeIsNested` | src/mapping/markup_tree.cpp:178-207 | in HTML mode no element's nearest ancestor among those it closes and their boundaries is one it closes; by tag name in `MarkupNesting.TagsAreNested` |
| `MarkupNesting.TagsAreNested` | src/mapping/markup_tree.cpp:178-207 | in HTML mode, for every event sequence: no td or th has a td or th as its nearest ancestor among td, th, tr, table; no tr a tr among tr, table; no li an li among li, ul, ol; no p a p among the block tags |
| `MarkupNesting.OpeningTagsEnd` | src/mapping/markup_tree.cpp:178-207 | what an opening td or th, tr, li or p ends, with the literal sets of closed tags and boundaries; every other tag ends nothing |
| `MarkupNesting.VoidsHaveNoChildren` | src/mapping/markup_tree.cpp:159-163 | in HTML mode a node with one of the fourteen void names has no children |
| `MarkupNesting.PlainTagsBuildAlike` | src/mapping/markup_tree.cpp:150-207 | with tags that are neither void nor close anything HTML mode builds what XML mode builds |
| `MarkupRoundTrip.TreesComeBack` | src/mapping/markup_tree.cpp:129-212 | every tree inside the depth cap, written as balanced events with escaped text, is built again node for node (XML mode) |
| `ElementScanner.Scanner.NextGt` | src/mapping/html.cpp:112-119 | the cached answer equals a fresh search for '>' |
| `ElementScanner.Scanner.NextClose` | src/mapping/html.cpp:121-130 | the cached answer equals a fresh search for that closing tag |
| `ElementScanner.Scanner.TryElement` | src/mapping/html.cpp:81-96 | an opener gives the element the uncached scan gives, with all caches still valid for every later search |
| `ElementScanner.Scanner.Next` | src/mapping/html.cpp:73-100 | every call finds what the scan without caches finds and goes on from the same position |
| `ElementScanner.OpenerBehindName` | src/mapping/html.cpp:78-88 | the next opener lies behind the name just read, which is why search positions never decrease |
| `ElementScanner.ScanFindsElements` | src/mapping/html.cpp:56-63 | a found element has a listed name that ends right there, its tag ends at the first '>' and its content at the first matching closing tag |
| `ElementScanner.OpensExactly` | src/mapping/html.cpp:80-88 | a '<' opens a name exactly when the name follows in any case and whitespace, '>' or '/' comes right behind it |
| `ElementScanner.WrittenElementIsFound` | src/mapping/html.cpp:56-63 | an element written out, with any attributes free of '>' and content free of the closing tag, is found whole |
| `ElementScanner.NothingIsMissed` | src/mapping/html.cpp:73-100 | the scan passes over no complete element, neither before the one it finds nor when it finds none |
| `ElementScanner.ElementsAreDisjoint` | src/mapping/html.cpp:73-100 | the elements of a whole run are disjoint and in source order |
| `Normalize.NormalizeUnlimitedOcr` | src/mapping/deepseek.cpp:314-383 | the search-and-append loop rewrites every annotation where it stands and copies everything else |
| `Normalize.ReadAnnotation` | src/mapping/deepseek.cpp:331-369 | the scanning steps behind an opener accept exactly the specified form |
| `Normalize.ParseAgrees` | src/mapping/deepseek.cpp:345-369 | a match depends on nothing behind it |
| `Normalize.RejectedStaysRejected` | src/mapping/deepseek.cpp:370-374 | rewriting what follows never turns a rejected annotation into an accepted one |
| `Normalize.RewrittenStays` | src/mapping/deepseek.cpp:375-380 | a rewritten annotation never matches again, whatever follows it |
| `Normalize.DocumentedFormIsRewritten` | src/mapping/deepseek.cpp:311-383 | every annotation of the documented form, whatever its blanks and numbers, is rewritten with its own label and box, and what follows is normalised on its own |
| `Normalize.OnlyTheDocumentedForm` | src/mapping/deepseek.cpp:345-369 | whatever is accepted has the documented form: blanks, a label, blanks and four numbers between bracket and closing mark |
| `Normalize.Idempotent` | src/mapping/deepseek.cpp:311-383 | normalising twice is normalising once, on every string |
| `Normalize.FixedPoints` | src/mapping/deepseek.cpp:311-383 | a text is left as it is if and only if no annotation matches anywhere in it |
| `Normalize.NothingLeftToRewrite` | src/mapping/deepseek.cpp:311-383 | no annotation of the accepted form is left after normalising |
| `LayoutForest.LayoutWriter.AddEntry` | src/mapping/layout.cpp:517-526 | a new handle at the end, with body list and child counts kept equal to what the entries say |
| `LayoutForest.LayoutWriter.ChildrenOf` | src/mapping/layout.cpp:528-531 | the number of children the finished item will list |
| `LayoutForest.LayoutWriter.Finish` | src/mapping/layout.cpp:963-1020 | child lists and parent refs of the finished document are those of the entries, or the error for an empty page |
| `LayoutForest.LayoutWriter.FinishBody` | src/mapping/builder.h:361-411 | the body's children are stamped and listed in order |
| `LayoutForest.CreationOrder` | src/mapping/layout.cpp:989-1020 | children keep creation order |
| `LayoutForest.WriterBuildsAForest` | src/mapping/layout.cpp:963-1020 | every document the writer finishes is a forest under the body: each entry in exactly its parent's list, once, naming that parent, with exactly its own children in creation order, reached from the body by exactly one way |
| `LayoutForest.ChildListsAreAcyclic` | src/mapping/layout.cpp:963-1020 | no way through child lists, from anywhere, meets the same item twice |
| `LayoutForest.OnlyPath` | src/mapping/layout.cpp:963-1020 | there is at most one way from the body to an entry |
| `Endpoints.StripSlashes` | src/vlm_client.cpp:279-282 | no trailing slash is left, and only trailing slashes were dropped |
| `Endpoints.RoutedEnds` | src/vlm_client.cpp:283-292 | a completed path is the base followed by nothing, by the route, or by version and route, according to how the base ends |
| `Endpoints.TargetSettles` | src/vlm_client.cpp:271-294 | a completed request target is completed to itself |
| `Endpoints.Reassembled` | src/vlm_client.cpp:226-266 | host and port put together again are the authority that was parsed |
| `Endpoints.CanonicalFormIsFixed` | src/vlm_client.cpp:206-295 | for every endpoint that parses, origin + target parses back to the same origin, host, port and target |
| `Endpoints.AuthorityExactly` | src/vlm_client.cpp:226-261 | an authority is accepted exactly when it is a host name or a bracketed address, alone on port 80 or followed by a port from 1 to 65535, and then split so |
| `Endpoints.ParsesExactly` | src/vlm_client.cpp:206-226 | an endpoint parses exactly when it is the scheme, such an authority and a printable tail |
| `Endpoints.TargetExactly` | src/vlm_client.cpp:268-294 | the target is the completed path and the query: trailing slashes and the fragment are dropped, the query is not |
| `Endpoints.SameExactly` | src/vlm_client.cpp:314-320 | two endpoints are the same exactly when their hosts differ at most in case, the ports are equal numbers and the targets are equal |
| `Endpoints.DefaultPortIsEighty` | src/vlm_client.cpp:252-253 | an endpoint without a port is the same as with :80, whatever follows |
| `Endpoints.SameIsAnEquivalence` | src/vlm_client.cpp:314-320 | comparing endpoints is an equivalence on those that parse, and each equals its canonical form |

## Left out

- gRPC, HTTP, protobuf and JSON transport, configuration, secrets, metrics pages, image decoding and cropping: I/O or foreign code.
- The VLM call itself (retries, timeouts, watchdog threads): a call is one step that answers with a document, with a raw page or, only after the stream halted, not at all. That it answers, and that a write to the client returns, are the two liveness assumptions.
- Fairness of the thread scheduler and of the condition variables: progress is stated as "a step is enabled, and such steps are bounded".
- Bytes held in the event queue, which the service leaves unbounded, and the counter of finished pages.
- Exceptions that are not standard exceptions: they would end the process.
- The calls refused before the pipeline starts are recorded only as ended with their status and one bump of the rejected counter; which option check refused them is not modelled.
- The scanner of a Markdown paragraph (escapes, literal spans, flanking rules): the emphasis results hold for every list of pieces it could produce.
- LaTeX cell syntax: a cell is its spans and whether its text is empty. `split_top_level` and `parse_latex_cell` are not part of this model.
- Reading span attributes from text: a markup cell carries its spans as numbers, with an unreadable attribute as 1, and DeepSeek's refusal of a table with an unreadable span is left out.
- Serialised cell sizes are an arbitrary function of the cell; the byte count is unbounded where the source counts in 64 bits.
- `parse_markup`'s own loop (comments, CDATA and tag syntax, attributes): the tree results hold for every sequence of text, opening and closing events.
- `LayoutForest.LayoutWriter.AddEntry`: takes the index of the new item as given and fresh; item contents, captions and provenance are not modelled.
- `ElementScanner.Scanner.Next`: tag names hold no '<', as every list of names in the source does.
- `MarkupRoundTrip.TreesComeBack`: XML mode only; in HTML mode void and implicitly closed elements make a tree depend on its tag names, which `MarkupTree.OpenEndsNearest` and `MarkupTree.TreeIsNested` describe.
- `fill_table_data`, the builder of tables without spans, is not part of this model.
- Format dispatch, label tables, boxes and other floating-point geometry.
