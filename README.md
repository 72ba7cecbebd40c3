# eBay pricing dashboard: a verified model of its listing store and pricing analysis

The dashboard is a single Streamlit script, app.py. It keeps a session dict
`listings` from SKU to a listing record (own price, own shipping and a list
of competitor offers) and an undo buffer of (SKU, competitor) pairs. The
store is changed by the CSV import, the add-product form, the editable
competitor table and the "Undo Last Delete" button, and it is read by the
CSV export. The dashboard loop opens an expander for every SKU that the
search box matches. Inside it, with "Only show overpriced" ticked, a listing
that has competitors but is not overpriced is skipped, which leaves its
expander empty. Otherwise the panel shows the user's total and, when there
are competitors, their statistics, an editable table, a bar chart and a
lowest/highest/mid-range verdict. For an overpriced listing it also shows a
suggested price reduction. A listing without competitors shows "No
competitor data added yet." instead of the statistics, table, chart and
verdict; its total is still shown.

This project models both parts in Dafny:

- **The listing store** (`store.dfy`) is a class whose fields are the dict
  (its key order `keys` and its entries `listings`) and the undo buffer. Each
  state-changing handler is a method that updates those fields in place.
  Most methods are proved equal to a pure function of the old state. Those
  functions live in `listings.dfy` (`Put`, the dict assignment),
  `importing.dfy` (the group loop of the CSV import), `productform.dfy` (the
  add-product form) and `exporting.dfy` (the flattening into CSV rows). The
  lemmas about them state what the handlers promise.
- **The pricing analysis** (`pricing.dfy`, `chart.dfy`) is a set of pure
  functions of one listing: totals, minimum, maximum and average,
  classification, the overpriced test that the filter and the suggestion
  share, search matching, and the chart data.
- `text.dfy` models the Python string operations used along the way:
  `replace`, `strip`, `splitlines`, `lower` and `in`.

Amounts are `real`. Python's `float` is the parameter
`parse: string -> Option<real>`, where `None` means that `float` raised. The
ratio `1.1` is written exactly, as `10 * my_total > 11 * min`. The pandas
`groupby` iteration order is the parameter `order`. It must list every group
key exactly once and is otherwise left open.

Behaviour of app.py worth knowing:
- An import stops at the first exception. This is either a new SKU with no
  blank-seller row (`.iloc[0]` raises) or a money cell that does not parse.
  The entries changed before that point stay changed. `ImportOutcome` holds the table
  reached and the error.
- Groups are visited in pandas' order (sorted keys by default), which need
  not be the order in which the SKUs first appear in the file.
- A new SKU takes its own row from the raw SKU column and not from the
  forward-filled one.
- The add-product form removes only `$` from its numbers. The CSV import
  removes `$` and `,`.
- Editing the competitor table replaces the list verbatim and pushes nothing
  onto the undo buffer.
- Undo pops the buffer before it looks up the SKU. For a SKU that is no
  longer in the dict the lookup raises after the pop, so the pair is lost
  (`UnknownSku`).
- The export writes columns SKU, Seller, Price, Shipping and Total. The
  import reads SKU, Seller's Name, Listed Price and BUYER Shipping Cost. So
  there is no export-then-import round trip to prove.
- Nothing rejects negative amounts on import. The form's number inputs have
  a minimum of 0, which `AddProduct` takes as its precondition.

## Model

| member | source | states |
|---|---|---|
| Listings.Put | app.py:66-70 | `listings[sku] = l`: the SKU maps to `l`; every other entry stays; a new SKU is appended to the iteration order and an existing one keeps its place; each key still appears exactly once |
| Listings.Total | app.py:109 | a competitor's total: price + shipping, as also computed at app.py lines 88 and 139; `Totals`, `Points` and `CompetitorRows` apply it to every competitor |
| Listings.MyTotal | app.py:106 | `my_total`: own price + own shipping; `AboveThreshold`, `Suggestion` and `YouPoint` compare it with the competitors' totals |
| Text.Remove | app.py:61-62 | `s.replace(ch, "")`: no `ch` is left and the result is no longer than the input |
| Text.RemoveCounts | app.py:61-62 | every character other than `ch` is kept with the same count |
| Text.RemoveAppend | app.py:61-62 | removing a character distributes over concatenation |
| Text.Clean | app.py:30-31 | a CSV money cell has every `$` and `,` removed and keeps all its other characters |
| Text.Strip | app.py:54-56 | `strip()` is the slice between the leading and trailing whitespace; everything cut off is whitespace; a non-empty result starts and ends with non-whitespace |
| Text.SplitLines | app.py:54-56 | `splitlines()`: the text between line boundaries over Python's boundary set, with "\r\n" as one boundary; the lemmas below state what it yields |
| Text.SplitLinesShape | app.py:54-56 | the empty text has no lines and any other text has some; never more lines than characters; text without a boundary is one line |
| Text.SplitLinesNoBreaks | app.py:54-56 | no line holds a line boundary |
| Text.LineEndsLength | app.py:54-56 | there is one boundary entry per line |
| Text.SplitLinesJoin | app.py:54-56 | round trip: the text is its lines, each followed by its boundary, in order |
| Text.LineEndsSeparate | app.py:54-56 | every line ends with exactly one boundary, except the last, which may end the text with none |
| Text.LineEndsCrLf | app.py:54-56 | "\r\n" is one boundary: a "\r" boundary is never followed by an empty line ended by "\n" |
| Text.LineEndsFilled | app.py:54-56 | a final boundary does not start another line: a line that ends the text without a boundary is never empty |
| Text.LastLineUnended | app.py:54-56 | in a non-empty text that does not end in a boundary, the last line ends the text |
| Text.Lower | app.py:102 | `lower()` keeps the length and lower-cases character by character |
| Text.LowerSlice | app.py:102 | lower-casing commutes with slicing |
| Text.Contains | app.py:102 | Python's `needle in hay` on strings; `ContainsAt` states its meaning |
| Text.ContainsAt | app.py:102 | `needle in hay` holds exactly when `needle` occurs at some offset of `hay` |
| Pricing.Totals | app.py:109 | one total per competitor, in stored order, each equal to price + shipping |
| Pricing.Min | app.py:110 | `min` is one of the totals and is at most every total |
| Pricing.Max | app.py:119 | `max` is one of the totals and is at least every total |
| Pricing.Sum | app.py:117 | `sum` of the totals; `SumBetween` bounds it |
| Pricing.SumBetween | app.py:117 | a sum of values in [lo, hi] lies in [n·lo, n·hi] |
| Pricing.Average | app.py:117 | `sum / len`; `AverageWithin` and `AverageBetween` bound it |
| Pricing.AverageWithin | app.py:117 | an average of values in [lo, hi] lies in [lo, hi] |
| Pricing.AverageBetween | app.py:117-119 | min ≤ average ≤ max for a non-empty list |
| Pricing.CompetitorStats | app.py:116-119 | statistics exist exactly when there are competitors; min ≤ average ≤ max; min and max bound every competitor total and are attained by some competitor |
| Pricing.Classify | app.py:150-155 | the lowest / highest / mid-range branches; `ClassifyMeaning` states what each verdict means |
| Pricing.ClassifyMeaning | app.py:150-155 | with competitors there is exactly one verdict: lowest iff below every competitor total, highest iff above every one, mid-range iff some total is ≤ and some is ≥ the user's; a tie with any competitor is mid-range; no competitors means no verdict |
| Pricing.AboveThreshold | app.py:111 | `my_total > min_price * 1.1` written as `10·my_total > 11·min` |
| Pricing.Overpriced | app.py:108-111 | a listing with competitors whose total exceeds the lowest competitor total by more than ten percent; `FilterAgreesWithSuggestion` ties it to the suggestion |
| Pricing.HiddenByFilter | app.py:108-112 | the `continue` of the overpriced filter; `FilterAgreesWithSuggestion` states when it fires |
| Pricing.Suggestion | app.py:157-158 | the suggested reduction, present exactly for overpriced listings (`FilterAgreesWithSuggestion`) and positive and tie-making (`SuggestionMeaning`) |
| Pricing.FilterAgreesWithSuggestion | app.py:108-112 | the filter and the suggestion apply the same test: with the filter on, a listing with competitors is hidden exactly when no reduction is suggested; a listing without competitors is never hidden; with the filter off nothing is hidden; a reduction is suggested exactly for overpriced listings |
| Pricing.SuggestionMeaning | app.py:157-158 | for non-negative competitor totals a suggested reduction is positive; lowering the own price by it produces a tie with the lowest competitor, hence mid-range; an overpriced listing is never "lowest" |
| Pricing.VisibleMeaning | app.py:102 | a SKU is shown exactly when the search term is empty or matches a slice of the SKU up to case |
| Pricing.Visible | app.py:102-103 | the search test; `VisibleMeaning` proves it is case-insensitive substring matching |
| Pricing.ExpanderKeys | app.py:101-105 | a SKU gets an expander exactly when the search matches it; never more expanders than SKUs |
| Pricing.ExpanderKeysInOrder | app.py:101-105 | the expanders follow dict order: the SKUs of a concatenation give the expanders of each part in turn |
| Pricing.ExpanderKeysOne | app.py:101-105 | a single SKU gets an expander exactly when it is visible; with `ExpanderKeysInOrder` this makes the expanders the in-order filter of the keys |
| Pricing.Shown | app.py:101-112 | the search matches the SKU and the overpriced filter does not skip it; `PanelKeys` and `PanelsInExpanders` use it |
| Pricing.PanelKeys | app.py:101-112 | a SKU's panel content is rendered exactly when the search matches it and the overpriced filter does not skip it |
| Pricing.PanelKeysInOrder | app.py:101-112 | the rendered panels of a concatenation are those of each part, in turn |
| Pricing.PanelKeysOne | app.py:101-112 | a single SKU's panel is rendered exactly when it is shown; with `PanelKeysInOrder` this makes the panels the in-order filter of the keys |
| Pricing.PanelsInExpanders | app.py:105-112 | every rendered panel has an expander, and an expander left empty belongs to a listing the overpriced filter skips |
| Chart.PointOf | app.py:139 | a competitor's bar: its seller and its total; `ChartDataMeaning` states which bars the chart holds |
| Chart.Points | app.py:139 | one (seller, total) point per competitor, in stored order |
| Chart.Dedup | app.py:141 | `drop_duplicates` keeps the same set of points, none twice, no more than before, and keeps the first point first |
| Chart.Insert | app.py:142 | inserting adds exactly one occurrence of the point; the result starts with the point or with the old first point |
| Chart.InsertSorted | app.py:142 | inserting into a sequence sorted by total keeps it sorted |
| Chart.SortByTotal | app.py:142 | `sort_values(by='total')` is sorted by total and is a permutation of its input |
| Chart.SortKeepsPoints | app.py:142 | sorting keeps the points and their number |
| Chart.YouPoint | app.py:140 | the user's bar: seller "You" at `my_total`; `ChartDataMeaning` states that the chart holds it |
| Chart.ChartData | app.py:139-142 | competitor points plus the user's bar, de-duplicated and sorted; `ChartDataShape` and `ChartDataMeaning` state what it holds |
| Chart.ChartDataShape | app.py:139-142 | the chart's bars are sorted by total, none occurs twice, and there is at most one more bar than competitors |
| Chart.ChartDataMeaning | app.py:139-142 | the chart contains the user's bar and every competitor's (seller, total) point, and nothing else |
| Chart.ChartDataWithoutCompetitors | app.py:139-142 | with an empty competitor list the chart holds the user's bar alone |
| Exporting.YouRow | app.py:80-86 | the SKU's own row: seller "You", own price and shipping, Total = Price + Shipping; `Block` and `ExportBlockAt` place it |
| Exporting.CompetitorRow | app.py:87-95 | one competitor's row: its seller, price and shipping, Total = Price + Shipping; `CompetitorRows` and `ExportBlockAt` place it |
| Exporting.CompetitorRows | app.py:87-95 | one row per competitor, in stored order, with total = price + shipping |
| Exporting.Block | app.py:80-95 | one SKU's rows: its "You" row with Total = Price + Shipping, then its competitor rows; `ExportBlockAt` places it in the export |
| Exporting.ExportRows | app.py:78-95 | the export holds Σ(1 + number of competitors) rows over the SKUs |
| Exporting.ExportRowsConsistent | app.py:80-95 | every exported row belongs to one of the SKUs and has Total = Price + Shipping |
| Exporting.ExportRowsSnoc | app.py:79 | one more SKU appends exactly its block of rows |
| Exporting.ExportRowsPrefix | app.py:79 | the rows of the first m SKUs are a prefix of the rows of all SKUs |
| Exporting.ExportBlockAt | app.py:79-95 | the block of the i-th SKU comes right after the rows of the SKUs before it and consists of its "You" row followed by one row per competitor in stored order |
| Importing.FilledKey | app.py:25 | `df['SKU'].ffill()` at one row; `FilledKeyIsNearest` characterises it |
| Importing.Amount | app.py:30-38 | `float(str(cell).replace('$', '').replace(',', ''))`, with `None` for a raise; `Clean` states what the cleaning keeps |
| Importing.FilledKeyIsNearest | app.py:25 | `ffill` gives a row the SKU of the nearest row at or above it whose SKU cell is filled, and gives no SKU exactly when every SKU cell up to it is blank |
| Importing.InGroup | app.py:25 | a row is in a SKU's group when its seller cell is filled and its forward-filled SKU is that SKU; `GroupUpTo`, `GroupIndices` and `GroupKeysMeaning` state the groups by it |
| Importing.GroupUpTo | app.py:25 | a seller row is in a SKU's group exactly when its forward-filled SKU is that SKU |
| Importing.GroupIndices | app.py:25 | the rows of a SKU's group, as increasing row indices, each listed once and none missing |
| Importing.GroupUpToInOrder | app.py:25-39 | the group's `k`-th offer comes from the `k`-th row of the group, so the group holds the seller rows in row order, each once |
| Importing.Group | app.py:25-26 | the group of a SKU over all rows; `GroupUpToInOrder` states its order |
| Importing.GroupKeys | app.py:25-26 | the keys `groupby` produces: the forward-filled SKUs of the seller rows |
| Importing.GroupKeysMeaning | app.py:25-26 | a key has a group exactly when its group is not empty, and a seller row above the first filled SKU is in no group |
| Importing.GroupOrder | app.py:26 | the groups are visited in some order that lists every key exactly once; `Import` takes it as its precondition |
| Importing.IsOwnRow | app.py:28 | the mask `(df['SKU'] == sku) & df["Seller's Name"].isna()` at one row: the raw SKU cell is the SKU and the seller cell is blank; `OwnRowIndex` finds the first such row |
| Importing.OwnRowIndex | app.py:28 | the own row of a new SKU is the first row whose raw SKU cell equals it and whose seller cell is blank, or there is none |
| Importing.Convert | app.py:35-38 | one seller row becomes a competitor when its price and then its shipping parse |
| Importing.FailingCell | app.py:37-38 | the cell reported for a record that does not convert: its price when the price does not parse, else its shipping; `AppendGroup` reports it for the first failing record |
| Importing.ConvertAll | app.py:34-39 | a whole group converted, or nothing; it is as long as the group, and `ConvertAllSome` and `ConvertAllAt` state the rest |
| Importing.ConvertAllSome | app.py:34-39 | a group converts exactly when every seller row's price and shipping parse |
| Importing.ConvertAllAt | app.py:34-39 | a converted group holds the competitor of each seller row, in row order |
| Importing.AppendGroup | app.py:34-39 | the append loop only extends the list, by at most the group's size; it finishes without error exactly when the whole group converts, and then the list is extended by exactly the converted group |
| Importing.AppendToListing | app.py:34-39 | the append loop applied to one SKU's entry of the table; `ImportKeyEntry` states its effect |
| Importing.ImportKey | app.py:26-39 | one pass of the group loop; `ImportKeyEntry` and `ImportKeyFrame` state its effect and frame |
| Importing.ImportAll | app.py:25-39 | the whole group loop, stopping at the first error; `ImportAllFrame`, `ImportAllEntry` and `ImportAllEffect` state its effect |
| Importing.ImportKeyEntry | app.py:26-39 | after one group succeeds, an existing SKU keeps its own price and shipping and its list is extended by the converted group; a new SKU takes its own amounts from its own row and the converted group as its list; a new SKU without an own row fails with the table untouched |
| Importing.ImportKeyFrame | app.py:26-39 | one group changes no other entry, has an entry for its SKU on success, only grows the iteration order, and keeps each key once |
| Importing.ImportAllFrame | app.py:25-39 | the import touches only grouped SKUs, only grows the iteration order and keeps the table well formed; on success the SKUs are the old ones plus the grouped ones |
| Importing.ImportAllEntry | app.py:25-39 | after a successful import, each grouped SKU's entry is as one group makes it from the entry before the import |
| Importing.ImportAllEffect | app.py:25-39 | the same for every grouped SKU at once |
| ProductForm.Lines | app.py:54-56 | `text.strip().splitlines()`; `Strip`, `SplitLinesJoin` and the other `SplitLines` lemmas state what it yields |
| ProductForm.LinesEndText | app.py:54-56 | a stripped text never ends in a boundary, since every boundary is whitespace, so its last line ends the text |
| ProductForm.ZipLength | app.py:57 | `zip` is as long as the shortest of its three inputs |
| ProductForm.Zip | app.py:57 | `zip` pairs the lines by position |
| ProductForm.Parsed | app.py:58-65 | one triple becomes a competitor when its price and then its shipping parse after removing `$`; otherwise it is skipped |
| ProductForm.ParseTriples | app.py:57-65 | the form loop never yields more competitors than triples |
| ProductForm.ParseTriplesSound | app.py:57-65 | every competitor comes from a triple whose price and shipping parse |
| ProductForm.ParseTriplesComplete | app.py:57-65 | every triple that parses contributes its competitor |
| ProductForm.ParseTriplesAll | app.py:57-65 | when every triple parses, none is dropped |
| ProductForm.ParseTriplesSnoc | app.py:57-65 | one more triple adds its competitor exactly when it parses |
| ProductForm.FormCompetitors | app.py:53-65 | the form never yields more competitors than the shortest of the three text areas has lines |
| Store.ParseForm | app.py:53-65 | the form loop over the zipped triples computes `ParseTriples` |
| Store.AppendOffersTo | app.py:34-39 | the append loop over one group computes `AppendGroup`, including the records kept before a failing cell |
| Store.ExportBlock | app.py:80-95 | one SKU's turn of the export loop appends exactly its block |
| Store.ListingStore.constructor | app.py:7-10 | a new session has no listings and an empty undo buffer |
| Store.ListingStore.Import | app.py:25-39 | the upload handler leaves the dict and error that `ImportAll` computes from the old dict; the undo buffer is untouched |
| Store.ListingStore.ImportGroup | app.py:26-39 | one group leaves the dict and error that `ImportKey` computes |
| Store.ListingStore.AppendOffers | app.py:34-39 | appending a group to an existing entry gives `AppendToListing` of the old dict |
| Store.ListingStore.AddProduct | app.py:52-70 | with an empty SKU nothing changes; otherwise the dict becomes `Put` of the submitted price, shipping and parsed competitors; the undo buffer is untouched |
| Store.ListingStore.ReplaceCompetitors | app.py:130 | the SKU's competitor list becomes the edited list verbatim; nothing else changes |
| Store.ListingStore.Undo | app.py:132-135 | with an empty buffer nothing changes; otherwise the last pair is removed from the buffer and its competitor is appended to the end of that SKU's list, with every other entry and the rest of the buffer unchanged; an unknown SKU loses the pair and changes no entry |
| Store.ListingStore.Export | app.py:78-95 | the export loop produces `ExportRows` of the dict in its iteration order |

## Left out

- Streamlit widgets, layout, HTML messages and `st.experimental_rerun` (app.py:12-22, 43-51, 113-126, 136, 151-160) are all UI. In particular the model does not capture that every interaction re-runs the script, so an uploaded file that is still selected is imported again on each re-run.
- `pd.read_csv`, `to_csv` and `download_button` (app.py:24, 96-97) are file I/O. An import reads already-split `Row` values: a blank SKU or seller cell is `None`, and a money cell is the text that `str()` gives for it. An export produces `ExportRow` values.
- SKU cells are taken as strings. `pd.read_csv` instead infers a column type. An all-digit SKU column with blank cells is read as float64, so the dict keys become floats such as `1001.0`. Such a key never equals the same SKU typed into the form, which is a `str`. The export then writes `1001.0`, and `sku.lower()` (app.py:102) raises as soon as a search term is entered. The model does not capture any of this.
- `st.data_editor` (app.py:129) is an opaque widget. Line 130 is modelled as replacing the list with an arbitrary given list of well-formed records. Missing or NaN fields in edited rows are not modelled.
- Nothing in app.py ever appends to the undo buffer. The model takes the buffer's contents as given and models only the pop and the append.
- The Plotly chart, colours, labels and `:.2f` formatting (app.py:143-147) are presentation. Only the (seller, total) data behind the chart is modelled.
- The dashboard computes its statistics and verdict from the competitor list as it was before the table edit on the same run. It draws the chart from the edited list. The pricing functions take the listing as a parameter, so this timing is left to the caller.
- Amounts and totals are exact `real` values. IEEE rounding of `float` arithmetic, NaN and infinities are not modelled.
- Pricing.AboveThreshold: uses the exact ratio 11/10. Python multiplies by the float `1.1`, which can disagree with it at the rounding boundary.
- Chart.SortByTotal: is a stable insertion sort. `sort_values` uses an unstable quicksort by default, so points with equal totals may come out in another order. The contract states only "sorted by total and a permutation", which holds for both.
- Text.Lower: lower-cases ASCII letters only. Python's `str.lower` also maps non-ASCII letters, and some of them to several characters.
- Store.ListingStore.Import: the iteration order of `groupby` is the parameter `order` and is not computed.
- Store.ListingStore.Undo: also models the empty buffer as `NothingToUndo`. The dashboard shows the button only when the buffer is not empty.
