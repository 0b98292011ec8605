# Texts visualiser: content sniffing and decoding of rich text values

This project models the decision logic of Aim's run-detail `TextsVisualizer`
component. The component shows a run's logged text values, which are records
`{step, index, text}`. A text can carry a rich payload in a data-URI envelope
`data:text/<subtype>,<payload>` (the data URI form of section 2 of RFC 2397).
The model covers:

- **the batch gate** (`is_all_custom_data`). The gate is false for a missing
  collection. Otherwise it holds when every text starts with `data:text/`.
- **the three kind tests**. A table value starts with `data:text/table,`.
  An HTML value starts with `data:text/html,`. A molecular value has a tag
  before its first comma that is exactly one of `data:text/pdb`,
  `data:text/sdf`, `data:text/pdbqt` or `data:text/mol2`.
- **the payload decoders**:
  - the table prefix strip, then the parse and the zip of each data row into
    a record keyed by column name;
  - the molecular split into file type and structure body at the first comma;
  - the HTML prefix strip and the iframe address built from it.
- **the dispatch**. When the gate holds, the value array is reversed in place
  and each item becomes a block with its step and at most one payload.
  Otherwise the whole collection goes to the fallback list.

The JavaScript built-ins the code relies on are modelled with their ECMAScript
semantics in `JsString`:

- `startsWith` and `indexOf`;
- `substring`, which clamps its arguments and swaps them when they are out of
  order, so `substring(0, -1)` is empty;
- `split`, and `split` with a limit;
- array indexing that yields `undefined` past the end.

The model has five modules, one per file:

- `Wrappers` (`wrappers.dfy`): `Option`, used where the code has `undefined`
  or `null`.
- `JsString` (`js_string.dfy`): the string built-ins. `Split` and `Join` are
  proved inverse in both directions.
- `DataUri` (`data_uri.dfy`): the classifiers, the `Classify` tagged variant
  and the prefix and comma decoders, with their round trips.
- `TableRecords` (`table_records.dfy`): the record zip. Its `reduce`
  accumulator loop is the method `ZipRow`, proved against the fold `Record`.
- `TextsVisualizer` (`texts_visualizer.dfy`): the gate loop, the in-place
  reversal, the per-item blocks and the component as a whole.

External collaborators are parameters:

- `JSON.parse` is `parse: string -> Option<TableData<V>>`, where `None` stands
  for the caught parse error.
- `encodeURIComponent` is `encode: string -> string`.
- Table cells are of an arbitrary type `V`.

Three edge cases of the code, as the model states them:

- An empty array passes the gate: the loop never runs, so the rich path is
  taken and renders no blocks.
- The molecular file type is `split('/')[1]` of the tag, which is the second
  `/`-separated piece, not the text after the last `/`; for the four
  molecular tags the two are the same.
- A molecular value without a comma (a bare `data:text/pdb`) is accepted by
  `is_moleculer_data`. Its decoding then finds no file type: `substring(0, -1)`
  is empty, so `split('/')[1]` is `undefined`. The whole value becomes the
  body (`MolecularWithoutComma`).

## Model

| member | source | states |
|---|---|---|
| `JsString.StartsWith` | aim/web/ui/src/pages/RunDetail/TextsVisualizer/TextsVisualizer.tsx:39 | `startsWith` holds iff the prefix is no longer than the string and equals its leading slice |
| `JsString.IndexOf` | aim/web/ui/src/pages/RunDetail/TextsVisualizer/TextsVisualizer.tsx:104-105 | `indexOf` gives -1 iff the character is absent; otherwise a position holding it with no earlier occurrence |
| `JsString.IndexOfIsFirst` | aim/web/ui/src/pages/RunDetail/TextsVisualizer/TextsVisualizer.tsx:104-105 | a position holding the character with none before it is the one `indexOf` returns |
| `JsString.Substring` | aim/web/ui/src/pages/RunDetail/TextsVisualizer/TextsVisualizer.tsx:104 | in-range `substring(a, b)` is the slice `[a, b)`; two non-positive arguments give the empty string; the result is never longer than the input |
| `JsString.SubstringFrom` | aim/web/ui/src/pages/RunDetail/TextsVisualizer/TextsVisualizer.tsx:64 | `substring(k)` is the suffix from `k`, or empty when `k` is past the end |
| `JsString.Split` | aim/web/ui/src/pages/RunDetail/TextsVisualizer/TextsVisualizer.tsx:104 | `split` on one character yields at least one piece, and no piece contains the separator |
| `JsString.JoinSplit` | aim/web/ui/src/pages/RunDetail/TextsVisualizer/TextsVisualizer.tsx:104 | joining the pieces of a split with the separator rebuilds the string |
| `JsString.SplitJoin` | aim/web/ui/src/pages/RunDetail/TextsVisualizer/TextsVisualizer.tsx:104 | splitting a join of separator-free pieces gives back exactly those pieces |
| `JsString.SplitLimit` | aim/web/ui/src/pages/RunDetail/TextsVisualizer/TextsVisualizer.tsx:56 | `split(sep, limit)` is the prefix of the full split holding `min(limit, pieces)` pieces |
| `JsString.Element` | aim/web/ui/src/pages/RunDetail/TextsVisualizer/TextsVisualizer.tsx:78-104 | array indexing yields the element in range and `undefined` beyond; it is both the row lookup `rs[i]` of the reduce (line 78), through which `TableRecords.RecordLastWins` states a record's cells, and `split('/')[1]` (line 104) |
| `DataUri.IsCustom` | aim/web/ui/src/pages/RunDetail/TextsVisualizer/TextsVisualizer.tsx:39 | definition (its body) of the gate's per-item test `startsWith('data:text/')`; `JsString.StartsWith` characterises it, and `DataUri.KindsAreCustom` proves every rich kind passes it |
| `DataUri.IsTable` | aim/web/ui/src/pages/RunDetail/TextsVisualizer/TextsVisualizer.tsx:46-48 | definition of `is_table_data`, the 16-character prefix test; `DataUri.TableTag`, `DataUri.KindsExclusive` and `DataUri.TableSplit` prove its properties |
| `DataUri.IsHtml` | aim/web/ui/src/pages/RunDetail/TextsVisualizer/TextsVisualizer.tsx:59-61 | definition of `is_html_data`, the 15-character prefix test; `DataUri.HtmlTag`, `DataUri.KindsExclusive` and `DataUri.HtmlSplit` prove its properties |
| `DataUri.IsMolecular` | aim/web/ui/src/pages/RunDetail/TextsVisualizer/TextsVisualizer.tsx:50-57 | definition of `is_moleculer_data`, set membership of the leading tag; `DataUri.MolecularIff` and `DataUri.OtherTagRejected` characterise it |
| `DataUri.Classify` | aim/web/ui/src/pages/RunDetail/TextsVisualizer/TextsVisualizer.tsx:194-202 | definition of the tagged kind, tested in the renderer's order; `DataUri.ClassifyIff` ties each kind to its test |
| `DataUri.LeadingTag` | aim/web/ui/src/pages/RunDetail/TextsVisualizer/TextsVisualizer.tsx:56 | `split(',', 1)[0]` has no comma; it is the whole text when the text has no comma, and otherwise the text starts with it followed by a comma |
| `DataUri.LeadingTagOf` | aim/web/ui/src/pages/RunDetail/TextsVisualizer/TextsVisualizer.tsx:56 | converse: a comma-free tag that the text equals, or starts with followed by a comma, is the leading tag |
| `DataUri.TableTag` | aim/web/ui/src/pages/RunDetail/TextsVisualizer/TextsVisualizer.tsx:46-48 | a table value's leading tag is `data:text/table` |
| `DataUri.HtmlTag` | aim/web/ui/src/pages/RunDetail/TextsVisualizer/TextsVisualizer.tsx:59-61 | an HTML value's leading tag is `data:text/html` |
| `DataUri.KindsExclusive` | aim/web/ui/src/pages/RunDetail/TextsVisualizer/TextsVisualizer.tsx:46-61 | no text is two of table, HTML and molecular |
| `DataUri.MolecularTagShape` | aim/web/ui/src/pages/RunDetail/TextsVisualizer/TextsVisualizer.tsx:51-55 | each molecular tag is `data:text/` followed by one of `pdb`, `sdf`, `pdbqt`, `mol2` |
| `DataUri.SubtypeHasNoSlash` | aim/web/ui/src/pages/RunDetail/TextsVisualizer/TextsVisualizer.tsx:51-55 | no molecular subtype contains `/` |
| `DataUri.KindsAreCustom` | aim/web/ui/src/pages/RunDetail/TextsVisualizer/TextsVisualizer.tsx:34-61 | every table, HTML or molecular text starts with `data:text/`, so it passes the gate's per-item test |
| `DataUri.ClassifyIff` | aim/web/ui/src/pages/RunDetail/TextsVisualizer/TextsVisualizer.tsx:194-202 | the tagged classification is Molecular, Table or Html exactly when the matching test holds, and a non-plain kind implies the `data:text/` prefix |
| `DataUri.MolecularIff` | aim/web/ui/src/pages/RunDetail/TextsVisualizer/TextsVisualizer.tsx:50-57 | a text is molecular iff it equals one of the four tags or starts with one followed by a comma |
| `DataUri.OtherTagRejected` | aim/web/ui/src/pages/RunDetail/TextsVisualizer/TextsVisualizer.tsx:50-57 | a comma-free tag outside the set, followed by a comma and anything, is not molecular (the set test is exact, not a prefix test) |
| `DataUri.ClassifyTableExample` | aim/web/ui/src/pages/RunDetail/TextsVisualizer/TextsVisualizer.tsx:46-48 | `data:text/table,{}` is a table |
| `DataUri.ClassifyMolecularExample` | aim/web/ui/src/pages/RunDetail/TextsVisualizer/TextsVisualizer.tsx:50-57 | `data:text/pdb,ATOM` is molecular |
| `DataUri.ClassifyHtmlExample` | aim/web/ui/src/pages/RunDetail/TextsVisualizer/TextsVisualizer.tsx:59-61 | `data:text/html,<p>x</p>` is HTML |
| `DataUri.ClassifyLongerTagExample` | aim/web/ui/src/pages/RunDetail/TextsVisualizer/TextsVisualizer.tsx:50-57 | `data:text/pdbx,` followed by anything is plain text |
| `DataUri.ClassifyHelloExample` | aim/web/ui/src/pages/RunDetail/TextsVisualizer/TextsVisualizer.tsx:46-61 | `hello` is plain text |
| `DataUri.TablePayload` | aim/web/ui/src/pages/RunDetail/TextsVisualizer/TextsVisualizer.tsx:64 | definition of the table prefix strip; `DataUri.TableSplit` and `DataUri.TableEnvelope` prove the round trip both ways |
| `DataUri.TableSplit` | aim/web/ui/src/pages/RunDetail/TextsVisualizer/TextsVisualizer.tsx:64 | a table value is the 16-character prefix followed by its stripped payload |
| `DataUri.TableEnvelope` | aim/web/ui/src/pages/RunDetail/TextsVisualizer/TextsVisualizer.tsx:64 | any payload under the table prefix is a table value whose strip returns that payload |
| `DataUri.HtmlPayload` | aim/web/ui/src/pages/RunDetail/TextsVisualizer/TextsVisualizer.tsx:129 | definition of the HTML prefix strip; `DataUri.HtmlSplit` and `DataUri.HtmlEnvelope` prove the round trip both ways |
| `DataUri.HtmlSplit` | aim/web/ui/src/pages/RunDetail/TextsVisualizer/TextsVisualizer.tsx:129 | an HTML value is the 15-character prefix followed by its stripped markup |
| `DataUri.HtmlEnvelope` | aim/web/ui/src/pages/RunDetail/TextsVisualizer/TextsVisualizer.tsx:129 | any markup under the HTML prefix is an HTML value whose strip returns that markup |
| `DataUri.HtmlUrl` | aim/web/ui/src/pages/RunDetail/TextsVisualizer/TextsVisualizer.tsx:134 | the iframe address is itself an HTML data URI whose payload is the encoded markup |
| `DataUri.MolecularDecode` | aim/web/ui/src/pages/RunDetail/TextsVisualizer/TextsVisualizer.tsx:103-105 | definition of the file-type and body split; `DataUri.DecodeWithComma`, `DataUri.MolecularRoundTrip` and `DataUri.MolecularWithoutComma` prove what it yields |
| `DataUri.SubtypeSplit` | aim/web/ui/src/pages/RunDetail/TextsVisualizer/TextsVisualizer.tsx:104 | `data:text/<sub>` splits at `/` into exactly `data:text` and the subtype |
| `DataUri.CommaAfterTag` | aim/web/ui/src/pages/RunDetail/TextsVisualizer/TextsVisualizer.tsx:104-105 | the first comma sits right after the leading tag, and the text is the tag, the comma and the rest |
| `DataUri.DecodeWithComma` | aim/web/ui/src/pages/RunDetail/TextsVisualizer/TextsVisualizer.tsx:103-105 | with a comma present, the file type is piece 1 of the leading tag split at `/`, and the body is everything after the first comma |
| `DataUri.MolecularRoundTrip` | aim/web/ui/src/pages/RunDetail/TextsVisualizer/TextsVisualizer.tsx:103-105 | a molecular value with a comma decodes to a file type in {pdb, sdf, pdbqt, mol2} and a body, and `data:text/` + type + `,` + body is the value |
| `DataUri.MolecularWithoutComma` | aim/web/ui/src/pages/RunDetail/TextsVisualizer/TextsVisualizer.tsx:103-105 | a molecular value without a comma is a bare tag, and it decodes to no file type with the whole value as body |
| `TableRecords.ColumnDefs` | aim/web/ui/src/pages/RunDetail/TextsVisualizer/TextsVisualizer.tsx:72-75 | one column definition per column, in order, with accessorKey and header both equal to the name |
| `TableRecords.Record` | aim/web/ui/src/pages/RunDetail/TextsVisualizer/TextsVisualizer.tsx:77-80 | definition of the `reduce` as a fold over the columns; `TableRecords.RecordKeys` and `TableRecords.RecordLastWins` prove its keys and values, and `TableRecords.ZipRow` is proved equal to it |
| `TableRecords.RecordKeys` | aim/web/ui/src/pages/RunDetail/TextsVisualizer/TextsVisualizer.tsx:76-81 | a record's keys are exactly the column names |
| `TableRecords.RecordLastWins` | aim/web/ui/src/pages/RunDetail/TextsVisualizer/TextsVisualizer.tsx:77-80 | a column maps to the row's cell at its last occurrence among the columns, and to `undefined` when the row is too short |
| `TableRecords.ZipRow` | aim/web/ui/src/pages/RunDetail/TextsVisualizer/TextsVisualizer.tsx:77-80 | the accumulator loop yields the fold's record: keys are the columns, and each column's value is `row[i]` at its last index `i` |
| `TableRecords.Records` | aim/web/ui/src/pages/RunDetail/TextsVisualizer/TextsVisualizer.tsx:76-81 | definition (its body) of `data.data.map(...)`, one folded record per data row; `TableRecords.BuildRecords` and `TableRecords.RenderTable` state its length and each element |
| `TableRecords.BuildRecords` | aim/web/ui/src/pages/RunDetail/TextsVisualizer/TextsVisualizer.tsx:76-81 | exactly one record per data row, in order, each the zip of the columns with that row |
| `TableRecords.TableViewOf` | aim/web/ui/src/pages/RunDetail/TextsVisualizer/TextsVisualizer.tsx:63-81 | definition of what the grid receives, the specification of `TableRecords.RenderTable`, which states its columns and records element by element |
| `TableRecords.RenderTable` | aim/web/ui/src/pages/RunDetail/TextsVisualizer/TextsVisualizer.tsx:63-81 | parse failure of the stripped payload yields `null`; otherwise the grid gets one definition per column and one zipped record per row |
| `TextsVisualizer.AllCustom` | aim/web/ui/src/pages/RunDetail/TextsVisualizer/TextsVisualizer.tsx:38-42 | definition of "every text starts with `data:text/`", the specification of `TextsVisualizer.IsAllCustomData`; `TextsVisualizer.ReversedAllCustom` proves it survives reversal |
| `TextsVisualizer.IsAllCustomData` | aim/web/ui/src/pages/RunDetail/TextsVisualizer/TextsVisualizer.tsx:34-44 | the gate is true iff the collection exists and every text starts with `data:text/`; an empty array passes |
| `TextsVisualizer.Reversed` | aim/web/ui/src/pages/RunDetail/TextsVisualizer/TextsVisualizer.tsx:190 | reversal keeps the length |
| `TextsVisualizer.ReversedAt` | aim/web/ui/src/pages/RunDetail/TextsVisualizer/TextsVisualizer.tsx:190 | element `k` of the reverse is element `n-1-k` of the original |
| `TextsVisualizer.ReverseInPlace` | aim/web/ui/src/pages/RunDetail/TextsVisualizer/TextsVisualizer.tsx:189-190 | `.reverse()` leaves the array holding the reverse of its old contents |
| `TextsVisualizer.ReversedAllCustom` | aim/web/ui/src/pages/RunDetail/TextsVisualizer/TextsVisualizer.tsx:188-190 | a collection passes the gate iff its reverse does |
| `TextsVisualizer.PartsOf` | aim/web/ui/src/pages/RunDetail/TextsVisualizer/TextsVisualizer.tsx:194-202 | definition of the three guarded renderers' output, in source order; `TextsVisualizer.BlockShowsAtMostOne` proves at most one part, the one of the item's kind |
| `TextsVisualizer.BlockOf` | aim/web/ui/src/pages/RunDetail/TextsVisualizer/TextsVisualizer.tsx:192-203 | definition of one block (step and parts), the specification of `TextsVisualizer.RenderBlock`; `TextsVisualizer.BlockShowsAtMostOne` proves its properties |
| `TextsVisualizer.BlockShowsAtMostOne` | aim/web/ui/src/pages/RunDetail/TextsVisualizer/TextsVisualizer.tsx:192-203 | a block shows its item's step and at most one payload, the one of the item's kind; plain text and unknown `data:text/` subtypes show only the step |
| `TextsVisualizer.RenderBlock` | aim/web/ui/src/pages/RunDetail/TextsVisualizer/TextsVisualizer.tsx:192-203 | the three guarded renderers produce the block specified by `BlockOf` |
| `TextsVisualizer.RenderBlocks` | aim/web/ui/src/pages/RunDetail/TextsVisualizer/TextsVisualizer.tsx:191-204 | `.map` gives one block per array element, in array order |
| `TextsVisualizer.RichBlocks` | aim/web/ui/src/pages/RunDetail/TextsVisualizer/TextsVisualizer.tsx:189-204 | definition of the rich path's blocks (reverse, then one block per element); `TextsVisualizer.RichBlockOrder` proves block `i` belongs to input element `n-1-i` |
| `TextsVisualizer.RichBlockOrder` | aim/web/ui/src/pages/RunDetail/TextsVisualizer/TextsVisualizer.tsx:189-204 | the rich path has one block per item, and block `i` is the block and step of input element `n-1-i` |
| `TextsVisualizer.Visualize` | aim/web/ui/src/pages/RunDetail/TextsVisualizer/TextsVisualizer.tsx:188-213 | a missing collection or a failed gate sends the whole, unchanged collection to the fallback list; a passed gate leaves the array reversed and yields the rich blocks in reverse input order |
| `TextsVisualizer.RenderTwice` | aim/web/ui/src/pages/RunDetail/TextsVisualizer/TextsVisualizer.tsx:189-190 | two renders of one rich array: the first shows latest first, the second oldest first |
| `TextsVisualizer.RerenderFlipsOrder` | aim/web/ui/src/pages/RunDetail/TextsVisualizer/TextsVisualizer.tsx:189-190 | for steps [1, 2], the first render's first block has step 2 and a render of the reversed array has step 1 first |
| `TextsVisualizer.VisualizeCopy` | aim/web/ui/src/pages/RunDetail/TextsVisualizer/TextsVisualizer.tsx:188-213 | the corrected component reverses a copy, so it changes nothing and yields the same view, latest first, on every render |

## Findings

| source | as written | input that shows it | evidently intended | confidence | as-written member | corrected member |
|---|---|---|---|---|---|---|
| aim/web/ui/src/pages/RunDetail/TextsVisualizer/TextsVisualizer.tsx:189-190 | `.reverse()` reverses `props.data.processedValues` in place during render | render a rich batch with steps [1, 2] twice from the same array: the first render shows 2, 1 and the second shows 1, 2 | render a reversed copy, so every render shows the latest step first and the caller's array is left alone | medium, not executed | `TextsVisualizer.RenderTwice` | `TextsVisualizer.VisualizeCopy` |

## Left out

- The container component `ParamsContainer.tsx` is not part of this model. It
  only forwards props and starts and aborts requests on an application model
  whose internals are not visible.
- The widgets are left out: the Miew 3-D viewer and its `init_miew` callback,
  `MaterialReactTable`, `react-iframe`, the full-screen wrapper, `DataList`
  and `ErrorBoundary`. They are foreign UI code. The model states only what
  each one is handed.
- `JSON.parse` is an uninterpreted parameter. It returns either a
  `{columns, data}` value or a failure. JSON that parses to something else
  makes the source throw a `TypeError` when it reads `data.columns` or
  `data.data`, and a `null` data row throws the same way at `rs[i]` (line 78).
  That exception is thrown while the component itself renders, so the
  `ErrorBoundary` that wraps its output (line 183) does not catch it; it
  propagates out of the component. It is not modelled.
- `encodeURIComponent` is an uninterpreted parameter. Percent-encoding is not
  reimplemented.
- The `console.log` calls and the `try`/`catch` around the viewer's JSX are
  left out. Their only effect is a log line.
- The fallback list's column configuration is left out. It is static display
  metadata. The model records only that the list receives the whole
  collection.
- The collection is modelled as an array or `null` (`array?<Item>`), and each
  `text` as a string. Other JavaScript values are not modelled, such as a
  truthy non-array, for which the gate's loop never runs, or a non-string text.
- Strings are Dafny strings, that is, sequences of Unicode scalar values.
  JavaScript's `length`, `indexOf` and `substring` count UTF-16 code units
  instead. The model stays consistent because every position it uses is
  taken on the string it came from and every prefix it tests is ASCII. A lone
  surrogate, which a JavaScript string can hold, cannot be represented.
- Records are maps from column name to cell. JavaScript's special object keys,
  such as `__proto__`, and key enumeration order are not modelled.
- The `props?.data?.processedValues || []` default on the rich path is not
  modelled separately. On the rich path the gate has already
  shown that the collection exists.
