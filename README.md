# DataSmartFlow quotation core in Dafny

This project models the logic of a pharmacy price-quotation web app. A user pastes a list of product names. Two server routes split that text into names, and the second looks each name up in a product catalogue. The chat component turns the rows it gets back into quoted products with quantities and a grand total. Tables sort, edit and export those products, and a correction form edits one product. Beside these sit the helpers the app uses:
- a text normaliser;
- an operating-system and browser detector;
- a Markdown table reader;
- a mock-data generator;
- the currency and product-list formatters.

The modules are:
- `TestProcess`, `ProcessProducts`, `Diagnostics`: the three list splitters;
- `PlatformUtils`, `MarkdownTable`: pure helpers;
- `ChatInterface` and `ChatSession`: the chat component, split into its pure functions and its state;
- `ResultsTable`, `ChatResultTable`, `CorrectionForm`: the table and form components;
- `MockData`, `Utils`: the generator and the formatters;
- `Strings`, `Numerals`: the JavaScript string and number built-ins the code relies on, such as `trim`, `split`, `parseInt` and `toFixed(2)`.

How values and outside effects are represented:
- Prices are whole cents (`int`).
- Each `Math.random()` draw is a `real` in [0, 1) passed in as a parameter.
- Outside functions are parameters: `Intl.NumberFormat`, `localeCompare` and the database lookup.
- `parseFloat` and JavaScript's `Number` coercion of a text are parameters too. Each maps a string to an optional amount in cents, with none standing for NaN.
- A quotation row's `preco` is a number, a string or missing (`Catalog.Price`).
- The message of the `TypeError` that a null entry raises in the conversion is a text parameter, because its wording depends on the JavaScript engine.

Where code updates state in place, the model is imperative:
- The chat session is a class whose handlers reassign its fields.
- The sort state is a class with two fields.
- The result table keeps its rows in an `array` and updates one slot of a copy.
- The correction form is a class.
- The loops of the splitters and the Markdown formatter are `while` loops with invariants.

`lib/utils.ts` and `app/lib/utils.ts` define `formatCurrency` and `formatProductList` identically. The `Utils` module models both; its rows below cite one file or the other.

## Model

| member | source | states |
|---|---|---|
| TestProcess.Post | app/api/test-process/route.ts:3-60 | `processed` is the answer of the branch the `productList` falls in: lines, commas, word groups, the single text, array elements, or nothing for any other truthy value. `count` is its length. |
| TestProcess.GroupWords | app/api/test-process/route.ts:39-44 | The `i += 3` loop pushes exactly the non-blank groups of up to three consecutive words, in order. |
| TestProcess.NewlineBranch | app/api/test-process/route.ts:15-23 | With a line break in the trimmed text, the result is its trimmed non-empty lines in order, commas or not. No entry holds a line break. |
| TestProcess.CommaBranch | app/api/test-process/route.ts:25-30 | Otherwise a comma splits the text into its trimmed non-empty pieces, none holding a comma or line break. |
| TestProcess.WordBranch | app/api/test-process/route.ts:34-44 | With more than five words: ceil(n/3) groups, the k-th being words 3k.. joined by single spaces. The groups joined by spaces give the words joined by spaces. |
| TestProcess.FewWordsBranch | app/api/test-process/route.ts:45-48 | Five words or fewer are one product, the trimmed text. |
| TestProcess.Processed | app/api/test-process/route.ts:8-53 | A missing `productList` gives `[""]`. A value that is neither text nor an array gives nothing. An array gives only non-empty trimmed entries. |
| TestProcess.BlankInput | app/api/test-process/route.ts:8-48 | Blank text gives `[""]`, as a missing list does. |
| TestProcess.GroupsCount | app/api/test-process/route.ts:39 | Of n words, the groups from word i number (n - i + 2) / 3. |
| TestProcess.GroupsJoin | app/api/test-process/route.ts:39-43 | Joining the groups from word i with spaces reproduces the words from i joined with spaces. |
| ProcessProducts.Post | app/api/process-products/route.ts:12-69 | A missing or empty input gets 400 "No input provided" before any lookup. Input without names gets 400 "No valid product names found". Otherwise the answer is the found results of the split names. |
| ProcessProducts.LookUpAll | app/api/process-products/route.ts:34-67 | The `for` loop with `continue` on a lookup error yields exactly `Found` of the names. |
| ProcessProducts.QueryFor | app/api/process-products/route.ts:41-55 | Every query reads table `produtos` with limit 10. It matches the code as well exactly when the name is all digits. |
| ProcessProducts.ProductNames | app/api/process-products/route.ts:24-27 | Every name is non-empty, trimmed, and free of `,` and `\n`. |
| ProcessProducts.NumericNames | app/api/process-products/route.ts:41-48 | Digit strings are numeric and query the code too. A numeric name holds no sign, blank or point. |
| ProcessProducts.FoundAppend | app/api/process-products/route.ts:36-67 | Results for a concatenation of name lists are the concatenation of the results, so the order follows the input. |
| ProcessProducts.FoundSkipsError | app/api/process-products/route.ts:57-60 | A failed lookup contributes nothing and the later names are still looked up. |
| ProcessProducts.FoundAllSucceed | app/api/process-products/route.ts:63-66 | When every lookup succeeds there is one result per name, in order, with `nomeOriginal` the name and `correspondencias` the rows, or `[]` for null data. |
| ProcessProducts.Found | app/api/process-products/route.ts:36-66 | There are never more results than names. |
| ProcessProducts.FoundFromNames | app/api/process-products/route.ts:36-66 | Each result names one of the names. |
| Diagnostics.ProcessText | app/diagnostics/page.tsx:115-138 | The click handler shows the prompt for blank text and otherwise lists `ItemsOf` the `\r?\n` lines. |
| Diagnostics.ItemsOfLines | app/diagnostics/page.tsx:128-136 | The outer loop over lines yields the items of every line, line after line. |
| Diagnostics.PushItems | app/diagnostics/page.tsx:129-135 | The inner loop appends the line's trimmed non-blank `[,;]` pieces to what was there. |
| Diagnostics.DropCr | app/diagnostics/page.tsx:125 | A piece loses one final character exactly when that character is `\r`, and otherwise is kept as it is. |
| Diagnostics.CrLfLine | app/diagnostics/page.tsx:125 | A line ended by `\r\n` is listed without its `\r`, followed by the lines of the rest of the text. |
| Diagnostics.BlankShowsPrompt | app/diagnostics/page.tsx:119-122 | The prompt is shown exactly when the text is all white space. |
| Diagnostics.LinesHaveNoBreak | app/diagnostics/page.tsx:125 | No line holds a line break. |
| Diagnostics.LinesWithoutCr | app/diagnostics/page.tsx:125 | Without `\r` the lines are exactly the pieces between the line breaks. |
| Diagnostics.ItemsOfAppend | app/diagnostics/page.tsx:128-135 | Items of consecutive lines come line after line, left to right. |
| Diagnostics.ItemsOf | app/diagnostics/page.tsx:128-135 | Every item of lines without breaks is trimmed, non-empty and free of `,`, `;` and `\n`. |
| Diagnostics.LineItemsClean | app/diagnostics/page.tsx:129-133 | The same for the items of one such line. |
| Diagnostics.ListedClean | app/diagnostics/page.tsx:125-137 | Every item listed for any non-blank text is trimmed, non-empty and free of `,`, `;` and `\n`. |
| PlatformUtils.NormalizeIsLineBreaks | lib/platform-utils.ts:36-39 | The two `replace` passes equal a one-pass reading in which each `\r\n` and each lone `\r` is one `\n`. |
| PlatformUtils.NormalizeLineBreaks | lib/platform-utils.ts:36-39 | Both passes together leave no `\r`. |
| PlatformUtils.NormalizeWithoutCr | lib/platform-utils.ts:38 | Text without `\r` is returned unchanged. |
| PlatformUtils.NormalizeLineBreaksIdempotent | lib/platform-utils.ts:36-39 | Normalising twice is normalising once. |
| PlatformUtils.CollapseSingleSpaced | lib/platform-utils.ts:45 | Replacing white-space runs by one space leaves no two adjacent white-space characters and keeps a non-blank first character. |
| PlatformUtils.NormalizeText | lib/platform-utils.ts:42-46 | The result has no white space at either end, no line break, tab or separator, and no run of white space. |
| PlatformUtils.NormalizeTextIdempotent | lib/platform-utils.ts:42-46 | `normalizeText` applied twice equals once. |
| PlatformUtils.DetectOS | lib/platform-utils.ts:4-17 | Without a window the answer is unknown; each label comes only with a window whose own test holds and every earlier test fails; unknown with a window means every test failed. |
| PlatformUtils.DetectBrowser | lib/platform-utils.ts:20-33 | Without a window the answer is unknown; each label comes only with a window whose own test holds and every earlier test fails; unknown with a window means every test failed. |
| PlatformUtils.NoWindowUnknown | lib/platform-utils.ts:4-21 | Without a window both detectors answer unknown. |
| PlatformUtils.OSPriority | lib/platform-utils.ts:4-17 | Each OS label is returned exactly when its test holds and no earlier test does; unknown exactly when none holds. |
| PlatformUtils.MacIntelRedundant | lib/platform-utils.ts:11 | The `MacIntel` test never decides: the `Mac` test already covers it. |
| PlatformUtils.AndroidNeedsNonLinuxPlatform | lib/platform-utils.ts:12-14 | An Android user agent on a platform naming Linux is classed as linux. |
| PlatformUtils.EdgeFirst | lib/platform-utils.ts:25 | `edge` is returned exactly when the user agent contains `Edg`. |
| PlatformUtils.ChromeExclusions | lib/platform-utils.ts:26 | `chrome` exactly when the agent names Chrome and none of Chromium, OPR, Edg. |
| PlatformUtils.SafariExclusions | lib/platform-utils.ts:28 | `safari` only when the agent names Safari and none of Chrome, Chromium, OPR, Edg, Firefox. |
| PlatformUtils.BrowserPriority | lib/platform-utils.ts:20-33 | Each browser label is returned exactly when its test holds and no earlier test does; unknown exactly when none holds. |
| PlatformUtils.OperaAfterOthers | lib/platform-utils.ts:25-29 | `opera` only for OPR or Opera when Edge, Firefox, the Chrome test and the Safari test all failed; OPR without Edg and Firefox is always Opera, whatever Chrome or Safari the agent names. |
| MarkdownTable.TooShortIsEmpty | components/markdown-table.tsx:10-14 | Fewer than two line breaks inside the trimmed text give empty headers and rows; otherwise the rows section exists. |
| MarkdownTable.RowCount | components/markdown-table.tsx:26-31 | There are as many rows as lines minus two, the k-th being the cells of line k + 2. |
| MarkdownTable.SeparatorIgnored | components/markdown-table.tsx:23-26 | Any text in place of line 1 gives the same table. |
| MarkdownTable.CellsInOrder | components/markdown-table.tsx:27-30 | Cells keep their left-to-right order across a `|`. |
| MarkdownTable.LineCellsClean | components/markdown-table.tsx:18-21 | The cells of a line are non-empty, trimmed, and free of `|` and `\n`. |
| MarkdownTable.ParseMarkdownTable | components/markdown-table.tsx:17-31 | Every header and every row cell of any text is non-empty, trimmed, and free of `|` and `\n`. |
| ChatInterface.CalculateTotal | components/chat-interface.tsx:157-159 | The total of products whose prices and quantities are all non-negative is non-negative. |
| ChatInterface.TotalAppend | components/chat-interface.tsx:157-159 | The total of two lists in sequence is the sum of their totals. |
| ChatInterface.TotalReplace | components/chat-interface.tsx:157-159 | Replacing one product moves the total by the difference of the two line totals. |
| ChatInterface.ToProduct | components/chat-interface.tsx:127-138 | The product made of row i is `prod-i` with quantity 1 and the row's AI flag. A number price is kept; a text price is parsed, and it is 0 when parsing fails; a missing price is 0. The name is the row's name, else "Produto sem nome". Supplier, category, brand, code and original name are the row's field, else `-`. A field left empty counts as missing. |
| ChatInterface.ConvertRawResults | components/chat-interface.tsx:124-139 | A non-array gives no products. An array fails (the `TypeError` of a null entry) exactly when some entry is null. Otherwise the result has one product per row. |
| ChatInterface.ConvertShape | components/chat-interface.tsx:127-138 | An array without null entries converts, in order, to products that each follow their row as `ToProduct` states. |
| ChatInterface.ConvertIdsDistinct | components/chat-interface.tsx:127-128 | No two converted products share an id. |
| ChatInterface.ConvertTotal | components/chat-interface.tsx:127-137 | For an array without null entries, the total of the converted products is the sum of the row prices, a text price counted as parsed. |
| ChatInterface.IsChatMessage | components/chat-interface.tsx:184 | A message is chat exactly when it has no line break, no comma and at most four spaces (five space-separated tokens). |
| ChatInterface.CleanList | components/chat-interface.tsx:206-213 | The cleaned list is "" when the message has no non-blank line. Otherwise its lines, split at `\n`, are exactly the trimmed non-empty lines of the message, in order. Cleaning it again at `\n` gives back the same lines. |
| ChatInterface.CleanListIdempotent | components/chat-interface.tsx:208-212 | Cleaning a cleaned list changes nothing. |
| ChatInterface.RandomIndex | components/chat-interface.tsx:85 | `floor(draw * n)` lies in [0, n) for a non-empty list. |
| ChatInterface.GetRandomResponse | components/chat-interface.tsx:84-87 | For a non-empty list the response is one of its entries. |
| ChatInterface.GetFallbackResponse | components/chat-interface.tsx:52-81 | The reply is always one of the replies of the message's branch: greeting, then help, then default. |
| ChatInterface.ExactGreetingsRedundant | components/chat-interface.tsx:56-63 | The exact comparisons with "oi" and "olá" never decide; the substring tests cover them. |
| ChatInterface.OiIsGreeting | components/chat-interface.tsx:53-65 | Any message whose lower-cased trimmed text contains "oi" is a greeting, even one asking for help. |
| ChatInterface.AjudaCoversPodeMeAjudar | components/chat-interface.tsx:70-74 | "pode me ajudar" is caught by the "ajuda" test first. |
| ChatInterface.TableText | components/chat-interface.tsx:90-92 | The export is "Nenhum resultado encontrado." exactly when the rows are not an array or are empty. |
| ChatInterface.FormatarTabelaMarkdown | components/chat-interface.tsx:90-121 | The `tabela +=` loop builds "Nenhum resultado encontrado." for a non-array or empty input, else the header, the separator and one line per non-null row. |
| ChatInterface.AppendRows | components/chat-interface.tsx:100-118 | The loop appends one line per row that is not null, skipping null rows, in order. |
| ChatInterface.SubtotalReadsBack | components/chat-interface.tsx:106-108 | A price that `Number` cannot read gives `R$ NaN`. Otherwise the cell is `R$ ` and an amount that reads back, with the comma made a point again, as price × (quantidade or 1). That factor is at least 1 unless the quantity is negative. |
| ChatInterface.RowRoundTrip | components/chat-interface.tsx:117 | The Markdown table reader gives back the cells of a line this formatter writes. |
| ChatInterface.TableRoundTrip | components/chat-interface.tsx:90-121 | Reading a table with clean cells back gives the eight headers and the cells of the non-null rows. |
| ChatInterface.TableOfNullRows | components/chat-interface.tsx:91-118 | A table whose rows are all null reads back as the empty table. |
| ChatSession.DropProcessing | components/chat-interface.tsx:187 | The filter leaves no processing message and never adds messages. |
| ChatSession.DropAppended | components/chat-interface.tsx:246 | Dropping the processing messages appended to a history without one gives the history back. |
| ChatSession.FailureOf | components/chat-interface.tsx:227-284 | An answer yields products exactly when it is ok JSON whose results are a non-empty array without null entries. A null entry reports the conversion's `TypeError`. |
| ChatSession.FailureIff | components/chat-interface.tsx:249-257 | An answer that yields products converts to one product per row, and at least one. With a null entry the conversion throws. |
| ChatSession.ErrorMessage | components/chat-interface.tsx:295-304 | The error reply is an assistant message marked as an error and not processing. The text is the fixed lead, then the detail, then the fixed tail. |
| ChatSession.Confirmation | components/chat-interface.tsx:264-272 | The confirmation is an assistant message, neither error nor processing. The number after the lead reads back as the count. The AI note is present when some products came from the AI, and the text ends with the total in bold. |
| ChatSession.KeptQuantity | components/chat-interface.tsx:318 | The kept quantity is the selected product's when non-zero, else 1. |
| ChatSession.SetQuantity | components/chat-interface.tsx:348-350 | Every product keeps all its fields but the quantity. The quantity becomes the new one exactly for the products with the id. Unique ids stay unique. |
| ChatSession.ReplaceById | components/chat-interface.tsx:321-324 | Every position keeps its id. A product with the updated id is replaced by the update, and any other is kept. Unique ids stay unique. |
| ChatSession.SetQuantityAt | components/chat-interface.tsx:348-350 | With unique ids, setting the quantity of the product at i changes that product's quantity alone. |
| ChatSession.SetQuantityTotal | components/chat-interface.tsx:353-355 | That change moves the total by price × (new quantity - old quantity). |
| ChatSession.SetQuantityUnknown | components/chat-interface.tsx:348-350 | An id no product has leaves the products unchanged. |
| ChatSession.ReplaceAt | components/chat-interface.tsx:321-325 | With unique ids, a correction replaces only the product with its id and moves the total by the line-total difference. |
| ChatSession.ReplaceIds | components/chat-interface.tsx:321-324 | A correction for an id no product carries changes nothing. |
| ChatSession.QuoteSession.constructor | components/chat-interface.tsx:142-153 | The session starts with the welcome message, no products, no total, and no selection. |
| ChatSession.QuoteSession.SendMessage | components/chat-interface.tsx:162-309 | Gives the message, request, product and total outcomes of `handleSendMessage` for each case below, and keeps `Valid`. |
| ChatSession.QuoteSession.Begin | components/chat-interface.tsx:166-179 | Appends the user message and the processing message and starts processing. |
| ChatSession.QuoteSession.Reply | components/chat-interface.tsx:187-198 | Drops the processing message, appends the reply and stops processing. |
| ChatSession.QuoteSession.Conclude | components/chat-interface.tsx:245-307 | A failure appends the error message and keeps products and total. Success takes the converted products, sets the total to their sum, and confirms with the count, the AI note and the formatted total. |
| ChatSession.QuoteSession.Accept | components/chat-interface.tsx:255-262 | The products become the converted rows (unique ids, one per row) and the total their price sum. |
| ChatSession.QuoteSession.HandleCorrection | components/chat-interface.tsx:311-314 | Selects the product and opens the form; nothing else changes. |
| ChatSession.QuoteSession.HandleSaveCorrection | components/chat-interface.tsx:316-339 | Replaces the product with the corrected one's id, with the kept quantity. It recomputes the total, closes the form and appends the confirmation. |
| ChatSession.QuoteSession.HandleCancelCorrection | components/chat-interface.tsx:341-344 | Closes the form and drops the selection; nothing else changes. |
| ChatSession.QuoteSession.HandleQuantityChange | components/chat-interface.tsx:347-356 | Products with the id take the quantity, and the total becomes the total of the updated list. |
| ResultsTable.Next | components/results-table.tsx:30-37 | The next sort state is always on the clicked field. |
| ResultsTable.ClickTwice | components/results-table.tsx:30-37 | Two clicks on the sorted field restore the state; two on another field end on it descending. |
| ResultsTable.ClickChanges | components/results-table.tsx:30-37 | A new field starts ascending; the sorted field always changes direction. |
| ResultsTable.SortState.constructor | components/results-table.tsx:27-28 | The table starts sorted by name, ascending. |
| ResultsTable.SortState.HandleSort | components/results-table.tsx:30-37 | The two fields move to the `Next` state. |
| ResultsTable.Clamp | components/results-table.tsx:41 | `Math.max(1, q)`: at least 1, and q itself when q ≥ 1. |
| ResultsTable.TypedRowQuantityFacts | components/results-table.tsx:154 | A typed quantity that does not parse, or parses to 0, becomes 1. It matches the other components' typed quantity. |
| ResultsTable.Buttons | components/results-table.tsx:144-159 | "-" at quantity 1 stays at 1; "+" adds one. |
| ResultsTable.ForwardQuantity | components/results-table.tsx:39-43 | The chat receives the clamped quantity, so every product with the id ends with a quantity ≥ 1. |
| ResultsTable.Compare | components/results-table.tsx:45-57 | Two numbers compare below zero exactly when the first comes first in the chosen direction, and at zero exactly when equal. Values that are not both strings or both numbers compare equal. |
| ResultsTable.Insert | components/results-table.tsx:45-58 | Inserting a product adds exactly that product to the multiset of the sorted rows. |
| ResultsTable.SortedProducts | components/results-table.tsx:45-58 | The sorted copy is a permutation of the products. |
| ResultsTable.SortedByNumber | components/results-table.tsx:53-55 | Sorting by price or quantity is non-decreasing ascending and non-increasing descending. |
| ResultsTable.SortKeepsTotal | components/results-table.tsx:45-58 | The sorted rows are as many as the products and add up to the same total. |
| ResultsTable.SubtotalIsLineTotal | components/results-table.tsx:168 | The row subtotal is price × quantity, the line total of the chat's total. |
| ChatResultTable.InitialTotal | components/chat-result-table.tsx:29-31 | After initialisation the grand total is the sum of `pvenda`. |
| ChatResultTable.Initial | components/chat-result-table.tsx:21-25 | One row per product, in order, each with quantity 1 and line total = quantity × `pvenda`. |
| ChatResultTable.ResultTable.constructor | components/chat-result-table.tsx:19-32 | The array holds the initial rows, and the grand total is the sum of `pvenda` and of the line totals. |
| ChatResultTable.ResultTable.EditedCopy | components/chat-result-table.tsx:40-48 | A fresh copy of the rows with only the slot at `index` replaced by its edit. |
| ChatResultTable.ResultTable.HandleQuantityChange | components/chat-result-table.tsx:34-55 | As written: the slot update, then a grand total that is the sum of the rows before the edit. |
| ChatResultTable.ResultTable.HandleQuantityChangeSynced | components/chat-result-table.tsx:34-48 | The same slot update, with the grand total equal to the sum of the updated rows. |
| ChatResultTable.EditKeepsRows | components/chat-result-table.tsx:35-48 | An edit keeps each row consistent with quantity ≥ 1 and leaves every other row unchanged. |
| ChatResultTable.EditTotal | components/chat-result-table.tsx:40-48 | After an edit the rows sum to the old sum moved by the edited row's change. |
| ChatResultTable.ExportData | components/chat-result-table.tsx:66-89 | One export row per product, in order, with the product's quantity and total. Then exactly one final row with "Grand Total:" and the grand total. |
| ChatResultTable.ReplaceNonAlnumChars | components/chat-result-table.tsx:103 | ASCII letters and digits stay in place; every other character becomes `_`. |
| ChatResultTable.Sanitize | components/chat-result-table.tsx:103 | The sanitised name holds the lower-cased letters and digits and `_` elsewhere, so only `[a-z0-9_]`. |
| ChatResultTable.SanitizeIdempotent | components/chat-result-table.tsx:103 | Sanitising twice is sanitising once. |
| ChatResultTable.FileName | components/chat-result-table.tsx:103 | The file name starts with `quotation_`, then a part as long as the requested name and holding only `[a-z0-9_]`, then `_`. It ends with `.xlsx`. |
| ChatResultTable.FileNameShape | components/chat-result-table.tsx:103 | The file name is `quotation_`, the sanitised name, `_`, the date before `T`, and `.xlsx`. |
| ChatResultTable.StaleTotalAfterEdit | components/chat-result-table.tsx:51-54 | An edit that changes the edited row's line total leaves the old sum different from the rows' new sum. |
| ChatResultTable.StaleTotalExample | components/chat-result-table.tsx:51-54 | One product at 10.00 typed to quantity "2": the rows sum to 20.00 while the recomputed grand total stays 10.00. |
| CorrectionForm.Stored | components/correction-form.tsx:36-43 | The price input stores the parsed number, or 0 when it cannot be read. The quantity input stores the typed quantity, which is at least 1, and 1 for unreadable text. Every other input stores the typed text. |
| CorrectionForm.Changed | components/correction-form.tsx:33-44 | An edit stores the coerced value in the named field only; other fields, the id and the AI flag are unchanged. |
| CorrectionForm.LastEditWins | components/correction-form.tsx:35-43 | A later edit of the same input overrides an earlier one. |
| CorrectionForm.EditsCommute | components/correction-form.tsx:35-43 | Edits of two different inputs commute. |
| CorrectionForm.ChangedQuantityPositive | components/correction-form.tsx:40-41 | Any edit of a form with a positive quantity keeps it positive. |
| CorrectionForm.QuantityEditDiscarded | components/chat-interface.tsx:318-319 | Saving overwrites the quantity, so an edit of the quantity input makes no difference to what is saved. |
| CorrectionForm.CorrectionForm.constructor | components/correction-form.tsx:30-31 | The form starts as a copy of the product, not submitting. |
| CorrectionForm.CorrectionForm.HandleChange | components/correction-form.tsx:33-44 | The form data becomes the edit of the previous data. |
| CorrectionForm.CorrectionForm.HandleSubmit | components/correction-form.tsx:46-62 | `onSave` receives the unchanged form data, and the form ends not submitting. |
| MockData.MockPrice | lib/mock-data.ts:5 | The price lies in [5.00, 100.00] and is the draw scaled to [5, 100) rounded to the nearest cent. |
| MockData.GenerateMockProducts | lib/mock-data.ts:2-3 | One row per name. |
| MockData.MockRow | lib/mock-data.ts:4-31 | The row names the product as typed and found. The price is between 5 and 100 reais, and `preco_original` is its `R$ ` text. Supplier and brand come from the fixed lists, and the code has the generated shape. There is no quantity and no AI flag. |
| MockData.MockRows | lib/mock-data.ts:3-31 | Each row's `original` and `produto` are the name. The price is in range, with `preco_original` its `R$ ` text. The supplier and brand come from the fixed lists. |
| MockData.MockCode | lib/mock-data.ts:11-13 | The code is `P` and four digits that read back as the drawn number. |
| MockData.MockPriceText | lib/mock-data.ts:5-8 | The two-decimal text of the price reads back as the price. |
| Utils.FormatCurrency | app/lib/utils.ts:15-25 | The `Intl` text when the formatter succeeds. |
| Utils.FallbackRoundTrip | lib/utils.ts:8-18 | The fallback is `R$ ` then the two-decimal text with a decimal comma, reading back as the amount. |
| Utils.FormatProductList | app/lib/utils.ts:30-38 | A missing or empty list gives "Nenhum produto encontrado". |
| Utils.ListLines | lib/utils.ts:24-27 | One line per product: the k-th line is `k+1. `, the k-th name, ` - ` and its formatted price. No line holds a line break when no name and no formatted price does. |
| Utils.ListSplitsIntoLines | lib/utils.ts:21-29 | Otherwise the text splits at `\n` into one line per product, with no trailing newline. |
| Numerals.ParseIntDecimal | components/results-table.tsx:154 | `parseInt` reads back the decimal text of any integer, with or without a minus sign. |
| Numerals.ParseIntNaN | components/correction-form.tsx:41 | Text whose first non-blank character is not a sign or digit parses to NaN. |
| Numerals.TypedQuantity | components/chat-result-table.tsx:35-38 | `Math.max(1, parseInt(v) \|\| 1)` is at least 1, and 1 for text that does not parse. |
| Numerals.TypedQuantityDecimal | components/chat-result-table.tsx:35-38 | A typed positive number is stored as is; zero or a negative one becomes 1. |
| Numerals.OrElse | components/correction-form.tsx:39 | `v \|\| fallback`: NaN and 0 give the fallback, any other number itself. |
| Numerals.Fixed2RoundTrip | components/chat-interface.tsx:108 | `toFixed(2)` of a cents amount reads back as that amount. |
| Numerals.NumberTextVsFixed2 | components/chat-interface.tsx:104 | The default number text is the two-decimal text without trailing zeros or a bare point. |
| Numerals.FourDigits | lib/mock-data.ts:11-13 | `padStart(4, "0")` of a number below 10000 is four digits reading back as it. |
| Strings.SplitCounts | app/api/process-products/route.ts:25 | `split` yields one piece more than separators and loses only the separators. |
| Strings.PiecesClean | app/api/test-process/route.ts:19-22 | The split-trim-filter chain yields non-empty trimmed pieces without separators. |
| Strings.TrimBlank | app/diagnostics/page.tsx:119 | `trim` yields "" exactly for all-white-space text. |
| Strings.JoinSplitRuns | lib/platform-utils.ts:45 | The words of a text joined by spaces equal its white-space runs collapsed to one space. |
| Catalog.TextOr | components/chat-interface.tsx:111-115 | `field \|\| "-"`: a missing or empty field prints the fallback, any other its text. |

The three `SendMessage` cases, from `handleSendMessage`:
- A blank message does nothing.
- A chat message gets its fallback reply.
- A list is sent cleaned to the product route, and the answer is handled as in `Conclude`.

## Left out

- Network, database and AI calls are not modelled:
  - the `fetch` to the product route is an `Answer` parameter;
  - the Supabase query is a `lookup` function parameter;
  - the OpenAI routes and helpers are not part of this model.
- The catch-all 500 answers of both routes are not modelled. They fire when the request body cannot be read (app/api/test-process/route.ts:61-67, app/api/process-products/route.ts:70-73).
- The `if (!productName) continue` guard is omitted. It can never fire, because every name is non-empty (`ProcessProducts.ProductNames`).
- The chat's "Não foi possível processar os resultados" branch is not modelled, because it can never be taken. A non-empty array either throws a `TypeError` at a null entry or converts to one product per row, so to at least one (`ChatInterface.ConvertRawResults`, `ChatSession.FailureIff`).
- The chat and the product route do not match, and the model keeps them apart:
  - the chat posts the JSON body `{ productList }` (components/chat-interface.tsx:217-224);
  - the route reads the form field `input` (app/api/process-products/route.ts:14-15), so a JSON body makes `formData()` throw and the route answers 500;
  - the route answers `resultados` (app/api/process-products/route.ts:69), while the chat reads `results` or `raw_results` (components/chat-interface.tsx:249).

  So `ProcessProducts.Post` takes the form field, the chat's `Answer` is a parameter, and no lemma ties the cleaned list (`ChatInterface.CleanList`) to the route's names.
- A `preco` that is JSON `null` is not told apart from a missing one. The conversion gives 0 for both, as the source does. The Markdown export would print `R$ null` and a subtotal of `R$ 0,00` for `null`, where the model prints the missing-price texts.
- Entries of the results array that are neither objects nor `null` (a number or a string) are not modelled. The source converts each to a product with every default.
- The chat reads `data.results \|\| data.raw_results \|\| []`. The model folds that choice into the single `results` of an `Answer`.
- Spreadsheet handling is not modelled: the XLSX workbook, the Blob, the download link and the ISO date of the clock. The timestamp is a parameter of `ChatResultTable.FileName`.
- React rendering is not modelled: JSX, effects, scrolling and state batching. State setters are synchronous field updates.
- `isPlatformCompatible` is not modelled. It probes `fetch`, `localStorage` and cookies.
- `Intl.NumberFormat`, `localeCompare`, `parseFloat` and the `Number` coercion are not modelled. They are uninterpreted function parameters.
- Floating point is not modelled. Prices are whole cents, and `toFixed(2)` rounds exactly, whereas binary doubles may round a value ending in …5 down.
- `Math.random` is not modelled. Each draw is a real parameter in [0, 1).
- `console` logging, the 500 ms delay before a correction is saved, and its `alert` on error are not modelled.
- `toLowerCase` and the `/i` flag fold case only for ASCII (and Latin-1 in `ChatInterface.Lower`). Other scripts are left as they are.
- ChatResultTable.ResultTable.HandleQuantityChange requires an index within the rows. Out of range the source throws a TypeError inside the state updater, and that error path is not modelled.
- ChatResultTable.ResultTable.EditedCopy and ChatResultTable.ResultTable.HandleQuantityChangeSynced require an index within the rows, for the same reason.
- ResultsTable.SortedProducts is proved to be a permutation. It is proved sorted only for the numeric fields (`ResultsTable.SortedByNumber`), because text order comes from the uninterpreted `localeCompare`. `Array.prototype.sort` is modelled as a stable insertion sort.
- Utils.ListSplitsIntoLines requires product names and formatted prices without line breaks; a name holding `\n` would add lines.
- ChatInterface.TableRoundTrip requires cells without `|` or line breaks, at least one non-null row, and no cell that is empty after trimming, because the reader drops such cells. With only null rows the table reads back as empty, losing its header (`ChatInterface.TableOfNullRows`).
- A quantity typed in the correction form is discarded when the chat saves the correction, since the chat puts back the selected product's quantity (`CorrectionForm.QuantityEditDiscarded`).

## Findings

| source | as written | input that shows it | evidently intended | confidence | as-written member | corrected member |
|---|---|---|---|---|---|---|
| components/chat-result-table.tsx:51-54 | After an edit, the deferred recompute sums `productsWithQuantity` as captured when the handler was created, i.e. the rows before the edit | one product with `pvenda` 10.00 and the quantity typed as "2": the rows now total 20.00 but the grand total is set to 10.00 | the grand total is the sum of the line totals after the edit | not executed | ChatResultTable.StaleTotalExample | ChatResultTable.ResultTable.HandleQuantityChangeSynced |
