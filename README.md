# Structural-design price calculator: a Dafny model

This project models the core of a browser-based price calculator for structural-engineering
design work. The user picks a construction type from a catalog. Types are keyed
"<category>.<subindex>" and priced as a fixed fee, per square metre or per retaining-wall
section. The user then enters dimensions and ticks surcharges (crane hall, complex geometry,
accelerated design, author's supervision). The calculator returns a total, a derivation log
and an error flag. Around it sits a workspace of saved projects, which can be saved, deleted,
archived, reordered by drag and drop, and imported from JSON files, plus the helpers that name
downloaded files.

Modules:

- `Calculator` (calculator_service.dfy) is the `calculate` function. It is an imperative method
  that builds the base price, the running price and the two logs step by step. It is proved
  against specification functions: the stage reached, the base price by strategy, the running
  price after each surcharge, and a closed-form total `(base + crane)·(1 + p/100)·1.5·1.15`.
  Lemmas relate these to each other and give worked examples.
- `Catalog` (catalog.dfy) holds the catalog, passed in as a parameter, with its validity
  conditions, and the `split('.')[0]` category of a key.
- `App` (app.dfy) holds the form reducer, the normalisation of imported records, and the
  save, delete, archive and unarchive list updates as functions from old state to new state.
  It also holds the two imports: the workspace import as a function, the multi-file import as a
  loop.
- `Sidebar` (sidebar.dfy) holds the active/archived split, the drag-and-drop reorder (a
  `DragState` class whose `Drop` performs the two splices) and the coefficient-panel
  visibility.
- `MainContent` (main_content.dfy) holds the grouped project-type selector: the `for…in` loop
  filling a dictionary, then the category table mapped to groups with the empty ones dropped.
  It also holds the visibility of the dimensional inputs and the section-count coercion.
- `FileService` (file_service.dfy) holds the timestamp and file-name builders.
- `JsString` and `Seqs` hold the JavaScript primitives these use: `trim`, the `\s` class,
  `String(n)`, `padStart`, `filter` and `splice`.

Encodings:

- Money and dimensions are exact reals.
- A JavaScript-falsy id, name or timestamp is written as `""` or `0`.
- A number input that reads NaN is `None`.
- An area bound counts only when it is present and non-zero, as the code's truthiness test does.
- Clock readings, locale-formatted dates, random fallback ids and the initial form are
  parameters. When a list of records is sanitised, the k-th record reads the clock as
  `clock(k)` and draws the fallback id `nextId(k)`.

Two behaviours of the code that the model keeps as written:

- The area-bound check ignores a bound of 0, not only an absent one.
- A `null` element in an imported list makes `sanitizeProject` throw. The workspace import then
  rejects the whole file. In the multi-file import, that file is reported as failed, but the
  projects pushed before the `null` are still imported.

## Model

| member | source | states |
|---|---|---|
| Calculator.Calculate | services/calculatorService.ts:4-94 | An unknown type gives total 0 and the one-line "select a type" log without error. An active bound violated by a positive, needed area gives total 0, the two-line log and error. A needed area ≤ 0 gives total 0 and the "enter area" log without error. Otherwise the result is the closed-form total with the priced log. error holds exactly in the out-of-bounds case. |
| Calculator.ComputeBasePrice | services/calculatorService.ts:30-50 | The base price by strategy: fixed is the base price; per area is base × area; a wall is base × sections plus 20 % of that per whole 10 m of additional length. Also gives the matching base log entry. |
| Calculator.ApplyAdditions | services/calculatorService.ts:52-84 | Crane, complexity, acceleration and supervision are applied in that order. Each percentage is taken of the running price. The additions list holds one line per applied surcharge with the price it was computed from. |
| Calculator.ChargedLengthSteps | services/calculatorService.ts:41-44 | The charged 10 m steps are 0 below 10 m, and floor(length/10) from 10 m on. They are positive iff the length is at least 10. |
| Calculator.IsCraneEligible | services/calculatorService.ts:17 | The crane categories V and VI are never flat-fee categories, so the percentage surcharges apply to them as well. |
| Calculator.NeedsArea | services/calculatorService.ts:18 | A per-area type always needs an area. Without a ticked crane, or outside categories V and VI, only per-area types need one. |
| Calculator.OutsideBounds | services/calculatorService.ts:20-21 | Absent or zero bounds never reject. An area within the stated bounds is never rejected. A zero maximum does not reject large areas. |
| Calculator.BaseNonNegative | services/calculatorService.ts:30-50 | With a non-negative catalog price and section count, and a positive area for a per-area type, the base price is not negative. |
| Calculator.NameIsNotPriced | services/calculatorService.ts:4-94 | The calculation never reads the object name or the display currency. Forms that differ only in those reach the same stage and the same total. |
| Calculator.StepsAreFloor | services/calculatorService.ts:41-43 | When the length is positive and its floor(length/10) is positive, that floor is the charged step count. Otherwise no step is charged. |
| Calculator.RunningPriceIsTotal | services/calculatorService.ts:52-84 | The price compounded step by step on the running total equals (base + crane)·(1 + p/100)·1.5·1.15, with a factor of 1 for each inactive surcharge. |
| Calculator.TotalAtLeastBase | services/calculatorService.ts:30-84 | With a non-negative catalog price and non-negative sections, 0 ≤ base ≤ total. |
| Calculator.FlatCategoryChargesBase | services/calculatorService.ts:61-63 | In categories I and VII nothing is added whatever the flags: the total equals the base price, there are no additions, and the log is the base entry alone. |
| Calculator.PricedLogShape | services/calculatorService.ts:86-94 | The log starts with the base entry. Its header carries a category label iff the category has a non-empty name in the table, and the label is that name. The additions entry appears iff some surcharge applied. The final-total entry appears iff total ≠ base and total > 0, and is then last. |
| Calculator.CompoundingExample | services/calculatorService.ts:63-84 | Base 100 with 10 % complexity, acceleration and supervision gives 110, then 165, then 189.75. |
| Calculator.RetainingWallExample | services/calculatorService.ts:37-50 | Base 100, 2 sections, 25 m gives 280; with 9 m it gives 200. |
| Calculator.AreaBoundsExample | services/calculatorService.ts:18-28 | Bounds 20..100: area 10 and 101 are rejected, 20 is priced, and 0 asks for an area. |
| Catalog.CategoryOf | services/calculatorService.ts:13 | The category is the prefix of the key before its first dot, or the whole key when it has no dot. |
| App.HandleInputChange | App.tsx:118-134 | The edited field takes the new value. A new project type also resets area to 0, sections to 1 and length to 0. Unticking complexity resets its percentage to 0. Every other field is unchanged. |
| App.InputChangeIdempotent | App.tsx:118-134 | Applying the same edit twice is the same as applying it once. |
| App.NewTypeAsksForArea | App.tsx:122-126 | After choosing a type that needs an area, the reset area makes the calculator stop at "enter the area". |
| App.ImportedId | App.tsx:20-24 | The id is the record's own id, else the id inside its data, else the fallback. It is never empty. |
| App.SanitizeProject | App.tsx:19-45 | A wrapped record keeps its data and archive flag. Its name is its own name, else the data's object name, else "Без име". Its timestamp is its own, else now. A bare form becomes the data of a new, unarchived record named by its object name or "Импортиран проект". |
| App.LegacyImportKeepsForm | App.tsx:37-44 | A bare form state imports as an unarchived project whose data is that form. |
| App.ExportRecord | services/fileService.ts:43-52 | A project is written as a wrapped record. Read back with any clock reading and fallback id, it keeps its id, data and archive flag. With a non-empty name and a timestamp it comes back unchanged. |
| App.SanitizeAll | App.tsx:272 | One sanitised project per record, in order, each with a non-empty id and name. The k-th record reads its own clock value and fallback id. |
| App.SavedName | App.tsx:139-147 | The saved name is the trimmed object name, or "Проект <date>" when that is blank. It is never empty. |
| App.SaveToWorkspace | App.tsx:138-183 | Updating the current project keeps length and order and rewrites only the entries with the current id (name, time, data with the saved name). Saving as new prepends one unarchived project and makes it current. A blank object name is replaced in the form. |
| App.WithoutId | App.tsx:201 | A project survives iff it was in the list and has a different id. |
| App.DeleteKeepsOrder | App.tsx:201 | Deleting from a joined list deletes from each part, so the survivors keep their order. |
| App.DeleteAbsentId | App.tsx:201 | Deleting an id nobody has leaves the list unchanged. |
| App.DeleteProject | App.tsx:198-211 | Removes exactly the entries with the id. Deleting the current project clears the current id and resets the form. Nothing else changes. |
| App.SetArchived | App.tsx:215 | Length and order are kept, and only the archive flag of the entries with the id changes. |
| App.ArchiveThenUnarchive | App.tsx:213-228 | Unarchiving undoes archiving for entries that were active. |
| App.ClearCurrentForm | App.tsx:313-321 | Every input returns to its initial value except the object name, which is kept. The projects, the workspace name and the current project are unchanged. |
| App.ClearedFormPricesLikeInitial | App.tsx:313-321 | A cleared form reaches the same stage and the same total as the initial form. |
| App.ArchiveProject | App.tsx:213-222 | Archives the entries with the id. Archiving the current project clears it and resets the form. |
| App.UnarchiveProject | App.tsx:224-228 | Only the entries with the id become unarchived. Length, order, the other entries, the current project and the form are kept. |
| App.ObjectPrefix | App.tsx:336-339 | The records reached by a forEach that stops at the first null element. It reaches the end iff there is no null. |
| App.PrefixStopsAtNull | App.tsx:336-339 | The list holds a null iff the reached records are fewer than its elements. |
| App.ReadWorkspaceFile | App.tsx:265-288 | A file without a project array, or with a null element, is rejected. An empty list is refused. Otherwise every element is sanitised, with the name "Импортирано работно място" for a bare array, else the file's name or "Без име". |
| App.ImportWorkspace | App.tsx:258-305 | On acceptance the file's projects and name replace the workspace, and the current project and form are reset. Otherwise nothing changes. |
| App.FailedFilesExactly | App.tsx:343-346 | The failure report names exactly the files that do not parse, are null or hold a null element. |
| App.PushFileRecords | App.tsx:336-339 | The forEach over one file pushes each record's sanitised project in order until a null. It reports whether it reached the end. |
| App.ReadOneFile | App.tsx:329-346 | One file contributes the projects of the records reached, and fails exactly as the failure predicate says. |
| App.ImportMultipleProjects | App.tsx:323-357 | All projects read from the files, in file order, are prepended to the list, and every failing file is reported. The k-th project pushed reads the k-th clock value and fallback id. |
| Sidebar.ActiveProjects | components/Sidebar.tsx:69 | The active list holds exactly the saved projects that are not archived. |
| Sidebar.ArchivedProjects | components/Sidebar.tsx:70 | The archived list holds exactly the archived saved projects. |
| Sidebar.PartitionProjects | components/Sidebar.tsx:69-70 | The two lists together hold every saved project exactly as often as the saved list does. |
| Sidebar.PartitionKeepsOrder | components/Sidebar.tsx:69-70 | Both lists keep the saved order: splitting a joined list splits each part. |
| Sidebar.Move | components/Sidebar.tsx:90-96 | The result is a permutation of the same length. The dragged item is at the drop index, and removing it gives back the list without the dragged item. |
| Sidebar.MovePositions | components/Sidebar.tsx:90-96 | The items between the two positions shift by one towards the drag index, and all others stay in place. |
| Sidebar.ReorderIsPermutation | components/Sidebar.tsx:87-99 | The new full list is a permutation of the saved list with the same length. The dragged project is at the drop index, the other active projects keep their order, and the archived projects follow them unchanged. |
| Sidebar.ReorderSplitsBack | components/Sidebar.tsx:69-70 | Splitting the reordered list again gives the moved active list and the same archived list. |
| Sidebar.DragState.DragStart | components/Sidebar.tsx:79-81 | Records the dragged index. |
| Sidebar.DragState.Drop | components/Sidebar.tsx:87-101 | With no drag, or a drop on the same index, nothing is emitted and the state is unchanged. Otherwise it emits the reordered list and ends the drag. |
| Sidebar.ArchiveHidesFromActive | components/Sidebar.tsx:69 | After archiving, no project with the id is active, and every other active project still is. |
| Sidebar.UnarchiveRestoresToActive | components/Sidebar.tsx:69 | After unarchiving, every entry with the id is on the active list again. |
| Sidebar.ShowCoefficients | components/Sidebar.tsx:67 | The coefficient panel is shown only for a catalog type. For one, it is shown exactly when a ticked acceleration would be charged, that is outside categories I and VII. |
| Sidebar.ShowCraneOption | components/Sidebar.tsx:347 | The crane checkbox is shown only inside the panel. For a catalog type it is shown exactly when a ticked crane would be charged. |
| Sidebar.ShowComplexityPercentage | components/Sidebar.tsx:361 | The percentage field is shown only inside the panel with complexity ticked. For a positive percentage it is shown exactly when the complexity surcharge applies. |
| Sidebar.PanelMatchesCalculator | components/Sidebar.tsx:64-67 | The coefficient panel is hidden exactly when no percentage surcharge can apply. When it is shown, each tick decides its surcharge. The crane charge applies iff the crane option is shown and ticked. |
| Sidebar.NumberOr | components/Sidebar.tsx:369 | A number input read with a fallback for falsy values: NaN or 0 gives the fallback, any other number is kept. The result is always the fallback or the number entered, and it is never 0 when the fallback is not 0. |
| Sidebar.NumberOrZero | components/Sidebar.tsx:369 | An empty field reads as 0, otherwise as the number entered. The area and additional-length fields of the main form (MainContent.tsx lines 67 and 101) are read the same way. |
| MainContent.TypesInMembers | components/MainContent.tsx:17-22 | A category's options are exactly the catalog keys with that prefix, each with its type's name. |
| MainContent.TypesInConcat | components/MainContent.tsx:17-22 | Within a group the options keep the catalog's enumeration order. |
| MainContent.GroupsAreListedCategories | components/MainContent.tsx:24-35 | Each group is a table category with at least one type, labelled from the table. |
| MainContent.ListedCategoriesHaveGroups | components/MainContent.tsx:24-35 | Every table category with at least one type has its group. |
| MainContent.GroupsForDistinct | components/MainContent.tsx:24-35 | A category table without repeats gives no category two groups. |
| MainContent.GroupsForConcat | components/MainContent.tsx:24-35 | Groups follow the order of the category table. |
| MainContent.EachTypeInOneGroup | components/MainContent.tsx:15-35 | In a valid catalog every type is offered in the group of its own category and in no other group. |
| MainContent.UnlistedCategoryNotOffered | components/MainContent.tsx:24-25 | A type whose category is not in the table is offered nowhere. |
| MainContent.GroupByCategory | components/MainContent.tsx:16-22 | After the loop, each category's entry is exactly its options in enumeration order, and no entry is empty. |
| MainContent.AddOption | components/MainContent.tsx:20-21 | The category's entry, created empty when missing, gains the option at its end; every other entry is unchanged. |
| MainContent.OptionGroupsAreCurated | components/MainContent.tsx:24-35 | Mapping the table's categories over the grouping loop's map and dropping the missing ones gives the curated groups. |
| MainContent.OwnGroupOffersType | components/MainContent.tsx:15-35 | A type of a listed category is offered in its category's group. |
| MainContent.OnlyOwnGroupOffersType | components/MainContent.tsx:15-35 | A group that offers a type is the group of that type's category. |
| MainContent.ProjectTypeOptions | components/MainContent.tsx:15-35 | The selector's groups are the curated groups: table order, non-empty categories only. |
| MainContent.ShowAreaInput | components/MainContent.tsx:41 | The area input is shown iff a catalog type is selected and the calculator's needs-area rule holds. A selected type without it is always priced. |
| MainContent.ShowFixedPriceInfo | components/MainContent.tsx:42 | The fixed-price note is shown only for a selected type without the area and wall inputs. The calculation is then priced at the type's fixed base price. |
| MainContent.ShowWallSections | components/MainContent.tsx:43 | For a selected type, the wall inputs are shown iff its base price is a retaining-wall price. |
| MainContent.VisibleInputsAgree | components/MainContent.tsx:37-43 | The area input is shown iff the calculator's needs-area rule holds. The fixed-price note is never shown with the area input or with the wall inputs. A selected type without the area input is always priced. |
| MainContent.WallSectionsFromInput | components/MainContent.tsx:93 | An empty or zero section count reads as 1, so it is never 0. |
| MainContent.HiddenInputsKeepStage | components/MainContent.tsx:41-43 | Values in hidden inputs do not change whether the calculation is priced, rejected or incomplete. |
| MainContent.HiddenInputsKeepFactors | components/MainContent.tsx:41-43 | Surcharge inputs hidden with the coefficient panel, and the percentage hidden while complexity is unticked, do not change the complexity, acceleration or supervision factor. |
| MainContent.HiddenInputsAreIgnored | components/MainContent.tsx:41-43 | Values in hidden inputs do not change the calculated total. This includes a percentage left in the field while complexity is unticked. |
| FileService.ReplaceUnsafe | services/fileService.ts:17 | Same length. Each whitespace character, slash, backslash, question mark, percent sign, asterisk, colon, vertical bar, double quote, less-than or greater-than sign becomes '_'. Every other character is kept, and the result holds no such character. |
| FileService.SanitizedName | services/fileService.ts:17 | A blank name becomes "proekt_SK". Otherwise the trimmed name, same length, with unsafe characters replaced. The result is never empty and holds no unsafe character. |
| FileService.SafeTextUnchanged | services/fileService.ts:17 | Text without unsafe characters is left unchanged. |
| FileService.Pad2 | services/fileService.ts:8-11 | A number below 100 becomes exactly two digits that read back as the number. |
| FileService.CreateTimestamp | services/fileService.ts:6-14 | The year's digits, then '-', month+1, '-', day, '_', hours, '-', minutes, with each field two-digit padded. Together with the contracts of DecimalString and Pad2, each field reads back as the number it was made from. |
| FileService.CreateFileName | services/fileService.ts:16-19 | The file name is the timestamp, '_', the sanitised name, '.', and the extension, in that order. |
| FileService.FileNameHasNoPathSeparator | services/fileService.ts:16-19 | No '/' can come from the object name, so a timestamp and extension without '/' give a file name without '/'. |
| JsString.Trim | services/fileService.ts:17 | `trim`: the result is the slice of the input between leading and trailing whitespace. It is empty iff the input is all whitespace, and otherwise neither starts nor ends with whitespace. |
| JsString.DecimalString | services/fileService.ts:7-11 | `String(n)`: decimal digits that read back as n, with no leading zero. |
| JsString.PadStart | services/fileService.ts:8-11 | `padStart`: the input preceded by enough fill characters to reach the width. |
| Seqs.FilterConcat | components/Sidebar.tsx:69-70 | `filter` on a concatenation is the concatenation of the filters. |
| Seqs.FilterSplit | components/Sidebar.tsx:69-70 | Two complementary filters hold each element exactly once in total. |

## Left out

- React rendering, modals, notifications, the theme, localStorage persistence, `FileReader` and
  `file.text()`, downloads and printing. These are I/O and presentation. A confirm dialog is
  modelled as accepted, and `JSON.parse` as a parsed value given to the import.
- `Date.now()`, `new Date()`, `Math.random()` and `toLocaleString`. The time, the calendar
  fields, the formatted date text and the fallback ids are parameters instead.
- `toFixed(2)`, the EUR/BGN conversion and the text of log lines. The log is a sequence of
  typed entries that carry the amounts.
- The catalog contents, which live in a constants module that is not part of this model. The
  catalog is a parameter. Its validity conditions are unique keys and every key's category in
  the category table.
- Scalar JSON files and scalar list elements. The workspace import rejects a file that is a
  non-null scalar with "Непознат формат." (App.tsx:274-282), as it rejects `null`. The
  multi-file import wraps a scalar file as a project (App.tsx:342), and both imports wrap a
  scalar list element. Such a project's data is not a form, which the form type cannot hold.
- Records whose `data` key holds something other than a form. With no name, `{ "data": null }`
  makes `sanitizeProject` throw when it reads the object name (App.tsx:30). Otherwise the value
  becomes the project's data. The record type holds a form as data, so neither case is modelled.
- `handleLoadProject`, `handleClearWorkspace`, `handleNewProject`, `handleExportWorkspace` and
  `handleReorderProjects`. These only read an entry or replace state wholesale with a given
  value. `handleClearCurrentForm` keeps the object name, so it is modelled as
  App.ClearCurrentForm.
- App.SanitizeProject: one call reads the clock twice. The reading inside the fallback id
  (App.tsx:20) and the reading for `lastModified` (App.tsx:31 or 41) become two independent
  parameters, `fallbackId` and `now`. Across calls, each record gets its own `clock(k)` and
  `nextId(k)`.
- Sidebar.DragState.Drop: requires both indices to lie in the active list. Rendering bounds only
  the drop index. The dragged index is cleared only after a completed drop (Sidebar.tsx:100), so
  after a cancelled drag and a delete or archive that shortens the active list, a later drop can
  see a stale dragged index past the end. The code then reads `undefined` (Sidebar.tsx:91) and
  splices it into the saved list (Sidebar.tsx:96). The project list cannot hold `undefined`, so
  that case is not modelled.
- FileService.CreateTimestamp: requires the calendar fields that `Date` produces (month index
  below 12, day up to 31, hour below 24, minute below 60) and a non-negative year.
- Numbers are exact reals. NaN that reaches the calculator directly and floating-point rounding
  are not modelled.
