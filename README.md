# Robot order task — a Dafny model

`tasks.py` is a robot-process-automation task that orders robots from a web
shop. It runs as follows:

1. It reads the orders from a downloaded CSV file.
2. For each order it fills in the form, screenshots the robot preview and submits the order. It clicks "order" at most ten times in all, stopping at the first click after which no error banner shows.
3. It reads the receipt from the confirmation page, draws it together with the preview into a combined image, and saves that image as a PDF named after the order id.
4. It archives every PDF of the working directory `output/robot_parts` into `output/robot_orders_<timestamp>.zip`.
5. Finally, whatever happened, it waits ten seconds and removes the working directory file by file.

This project models that core:

| module | models |
|---|---|
| `Submission` | `submit_form`. The retry loop is a method. It is proved against a trace function built from the first click that clears the banner. |
| `Receipt`, `PyRepr` | `get_receipt_text`. `str.replace` is modelled as one left-to-right pass, and Python's `repr` of the Body value as a one-element tuple. |
| `Layout` | The integer layout of `create_combined_image`. |
| `Artifacts` | The f-string file names, the archive name and the directory join. |
| `Archive` | `create_zip_file`: which listed files are archived, in which order and under which names. |
| `Cleanup` | `delete_robot_parts_folder`: best-effort file removal, then one attempt to remove the directory. |
| `Pipeline` | `create_robot`: the `try`/`finally` around the steps, including opening the CSV file and reading each record. "Step k raises" and "the cleanup raises" are inputs. |

Browser answers, the directory listing, filesystem outcomes and the clock
are all inputs to the model:

- `stillError[i]`: whether the error banner is up after click i;
- the order id the site assigns;
- the page texts;
- the scaled image size;
- the listing (or its failure) and per-file removal results;
- the timestamp string.

## Model

| member | source | states |
|---|---|---|
| `Submission.SubmitForm` | tasks.py:67-81 | The loop's trace is the reference trace: k failed rounds (click, 1000 ms pause) and the clearing click, or ten failed rounds and the error log. |
| `Submission.FirstClear` | tasks.py:72-77 | The first clearing click: every earlier click left the banner up, and the one found (if below ten) cleared it. |
| `Submission.SubmitClearsAfter` | tasks.py:72-77 | When click k is the first to clear the banner, there are exactly k clicks, k - 1 pauses and no error log. |
| `Submission.SubmitBoundsAndLog` | tasks.py:69-81 | Never more than ten clicks. The error is logged if and only if all ten clicks leave the banner up. |
| `Submission.SubmitPauseFollowsFailedClick` | tasks.py:73-77 | Click j sits at position 2j. A one-second pause follows it exactly when that click failed, the tenth included. |
| `Submission.RoundsShape` | tasks.py:72-77 | n failed rounds hold n clicks and n pauses, alternating, and no log. |
| `PyRepr.QuoteFor` | tasks.py:117 | The chosen quote occurs in the text only when both kinds of quote do, so it needs escaping only then. Single quotes are chosen whenever the text has no `'` or has a `"`. |
| `PyRepr.Repr` | tasks.py:117 | `repr(s)` starts and ends with the chosen quote and is at least two longer than `s`. Its partner is `PyRepr.ParseReprRepr`. |
| `PyRepr.TupleRepr` | tasks.py:117 | `{value,}` shows as `(`, the quoted text, then `,)`. |
| `PyRepr.Escape` | tasks.py:117 | The escaped text holds no control or other `\x`-escaped character and is at least as long as the text. |
| `PyRepr.ParseReprRepr` | tasks.py:117 | repr is lossless: parsing `repr(s)` gives back `s`. |
| `PyRepr.ReprOfPlainText` | tasks.py:117 | For text without quotes, backslashes or non-printables, the Body value shows as `('text',)`. |
| `Receipt.RemoveAll` | tasks.py:116-118 | `str.replace(label, '')` never lengthens the text. `Receipt.RemoveAllAbsent` and `Receipt.RemoveAllDropsFirstOccurrence` characterise it. |
| `Receipt.RemoveAllAbsent` | tasks.py:116-118 | `replace` leaves text without the label unchanged. |
| `Receipt.RemoveAllDropsFirstOccurrence` | tasks.py:116-118 | `replace` drops an occurrence anywhere in the text, keeps what precedes it, and resumes scanning after it. |
| `Receipt.RemoveAllIsSinglePass` | tasks.py:116 | `replace` does not rescan its output: `"HeHead: ad: "` becomes `"Head: "`. |
| `Receipt.NoNewlineRemoved` | tasks.py:116-118 | Removing a label cannot create a newline. |
| `Receipt.ReceiptText` | tasks.py:111-119 | The receipt ends in a newline, since every line appended ends with one. `Receipt.ReceiptHasSixLines` reads its lines back. |
| `Receipt.BodyLineReadsBack` | tasks.py:117 | The Body line is `Body: (…,)`, and the repr between the parentheses parses back to the value. |
| `Receipt.ReceiptSplitsIntoLines` | tasks.py:111-119 | Without newlines in the page texts, the receipt's lines are the six lines in their order. |
| `Receipt.ReceiptHasSixLines` | tasks.py:111-119 | The receipt ends in a newline and has six lines, each with its content: Order ID, Date, Address, Head without label, the Body tuple that reads back to the body without label, and Legs without label. |
| `Layout.CombinedLayout` | tasks.py:102-105 | The canvas is 500x600. The 400-wide receipt is centred at the top. The robot starts at y = 200, below the receipt, at x = floor((500 - w) / 2). |
| `Layout.RobotCentred` | tasks.py:104 | The right margin equals the left margin, plus one when the leftover width is odd. |
| `Layout.RobotInsideCanvas` | tasks.py:102-105 | The scaled robot lies inside the canvas if and only if it is at most 500 wide and 400 high. |
| `Layout.WideRobotFloors` | tasks.py:104 | A robot 501 pixels wide is pasted at x = -1, because `//` floors. |
| `Artifacts.JoinPath` | tasks.py:147 | `fs.join_path(dir, name)` for a bare name is `dir/name`, and the name reads back out of the path. |
| `Artifacts.Artifact.FileName` | tasks.py:56 | `robot_{n}.png`, `receipt_{id}.png`, `combined_{id}.png`, `order_{id}.pdf`: the prefix, key and suffix, and their lengths. |
| `Artifacts.KeyOfFileName` | tasks.py:90 | The key is read back out of the file name between prefix and suffix. |
| `Artifacts.FileNameInjective` | tasks.py:126 | Two artifacts share a file name only when they are the same artifact. |
| `Artifacts.PdfSuffixIffOrderPdf` | tasks.py:146 | A file name ends in `.pdf` if and only if it is an order document. |
| `Artifacts.ArchivePath` | tasks.py:141-142 | `output/robot_orders_{timestamp}.zip`, and the timestamp reads back out of it. |
| `Archive.CreateZipFile` | tasks.py:140-150 | The archive path, and one entry per `.pdf` name of the listing, in listing order, each read from the working directory and stored under its bare name. |
| `Archive.SelectedSplit` | tasks.py:145-148 | Filtering distributes over concatenation, so listing order is kept. |
| `Archive.SelectedMembers` | tasks.py:145-146 | A name is archived if and only if it is listed and ends in `.pdf`. |
| `Archive.EntriesAreDocuments` | tasks.py:146-148 | Every entry is a listed `.pdf` name, read from `output/robot_parts/<name>`. |
| `Archive.SelectedArtifacts` | tasks.py:145-148 | Over the task's own artifacts, the archive takes exactly the order documents, in order, and no image. |
| `Archive.DocumentCount` | tasks.py:145-148 | A directory holds as many order documents as there are positions holding one. |
| `Archive.ThreeDocumentsFourImages` | tasks.py:145-148 | Seven files, three of them documents at any positions, give an archive of three entries. |
| `Cleanup.DeleteRobotPartsFolder` | tasks.py:152-166 | An exception escapes exactly when the unguarded listing fails, and then nothing is removed. Otherwise the loop's trace is the reference trace: per file a removal attempt, plus a log line if it failed; then one directory removal, plus a log line if it failed. |
| `Cleanup.CleanupAttemptsEverything` | tasks.py:156-166 | Every listed file is attempted in order, whatever failed before. Exactly the failures are logged. The directory is attempted once, last. |
| `Cleanup.ListingDecidesDirectoryRemoval` | tasks.py:156-166 | The directory removal is attempted once when the listing succeeds, and not at all when it raises; then no file is attempted either. |
| `Cleanup.FailedCount` | tasks.py:156-160 | There are as many file error lines as failed removals, and one attempt per listed file. |
| `Pipeline.RunPrologue` | tasks.py:22-25 | The first four steps (browser delay, website, CSV download, opening the CSV file), in order, stopping at the one that raises, which is recorded as interrupted. |
| `Pipeline.RunRow` | tasks.py:26-32 | Reading the record and its order number, then the row's five steps, in order, stopping at the one that raises, which is recorded as interrupted. A completed submit step carries `submit_form`'s trace. |
| `Pipeline.RunRows` | tasks.py:26-32 | The row loop extends the prologue's trace row by row. Its trace stays a prefix of the plan whose last step is interrupted exactly when the step at that position raises. When none raised, every row's six steps have run. |
| `Pipeline.RunEpilogue` | tasks.py:26-33 | After the rows, the read that finds no further record and then `create_zip_file`, each run only if nothing raised before it. Both complete the `try` body's trace. |
| `Pipeline.RunTryBody` | tasks.py:22-33 | The `try` body's trace is the whole plan when no step raises. Otherwise it is the plan up to the raising step, with that step interrupted. An exception escapes exactly when a step of the plan raises. |
| `Pipeline.CreateRobot` | tasks.py:19-36 | The steps run are the `try` body up to the step that raises, that step interrupted, then the ten-second wait and the cleanup. An exception escapes exactly when a `try` step or the cleanup raised. Opening the CSV, reading a record, looking up its order number and the final read are steps of the `try` body too. |
| `Pipeline.CleanupEndsEveryRun` | tasks.py:21-36 | Whichever step raises, the run ends with the wait and the cleanup, which is interrupted exactly when it raises. Neither occurs earlier. |
| `Pipeline.RaisingStepEndsTheTry` | tasks.py:21-33 | When a step raises, the steps before it ran in full, it is recorded as interrupted, and only the completed steps count as having written files. |
| `Pipeline.MissingCsvFile` | tasks.py:21-36 | When opening the CSV file raises, the trace is the three earlier steps, the interrupted open, then the wait and the cleanup. No row runs and no archive is made. |
| `Pipeline.BadRecordAfterRows` | tasks.py:26-36 | When the read after the last good record raises, every row has run, the read is interrupted, and the wait and cleanup follow without `create_zip_file`. |
| `Pipeline.AllRowsAt` | tasks.py:26-32 | Row i's six steps (the read and the five calls) sit at positions 6i to 6i + 5 of the row loop. |
| `Pipeline.Written` | tasks.py:121-136 | Only the document step writes a PDF, as its last file, keyed by the order id. |
| `Pipeline.RowWrites` | tasks.py:121-136 | A row writes its preview, then the receipt image, the resized preview, the combined image and the PDF. |
| `Pipeline.CompleteRunArchivesEveryDocument` | tasks.py:26-33 | In a run where nothing raises, the documents written are one per row, named by the row's order id, in row order. The `.pdf` names among the files written are exactly theirs. |
| `Pipeline.DocumentFollowsFailedSubmit` | tasks.py:31-32 | When all ten clicks fail, the error is logged, and the document step for that row still runs right after. |

## Left out

- Browser automation is an input to the model: the clicks and selectors of `fill_form`, `open_robot_website` and `set_browser_time_delay`, and the page texts. `fill_form` and the other steps can only raise (`Pipeline.Step`).
- `Pipeline.Written`: an interrupted step counts as writing nothing. A step can write some files before it raises, for example a receipt image before the PDF fails; those files are not modelled.
- The CSV's contents and their parsing are inputs. Rows arrive as `Pipeline.Row` values; the `Body` value used in the selector is not interpreted. Opening the file, reading each record together with its order number, and the read past the last record are steps that can raise, like the others; why they raise (a missing file, a malformed line, a missing column) is not modelled. Closing the file at the end of the `with` block is not modelled.
- A `text_content()` that returns `None` is not modelled. Page texts are always strings.
- PIL drawing, the font, and the 0.6 scaling in floating point are not modelled. The scaled width and height are inputs to `Layout.CombinedLayout`.
- The PDF library and the zip writer are not modelled. The model records which files are written and which archive entries are made, not their bytes.
- Filesystem primitives are not modelled. The directory listing and the success of each removal are inputs. The listing order is whatever the input gives.
- `fs.join_path` is modelled as `dir + "/" + name`, for the bare names the task passes. Path normalisation is not modelled.
- `datetime.now()` and its `strftime` format are not modelled. The timestamp is an input string.
- Sleeps and the wait of `wait_for_timeout` are modelled as events carrying their duration; no time passes.
- Error logging is modelled as an event, but not its message format. The info log line after the archive is written is not modelled.
- `PyRepr.Repr`: escapes only characters up to U+00FF. Python also escapes non-printable characters above that range (`\uXXXX`, `\U…`) using the Unicode database, which is not part of this model.
- `Receipt.ReceiptHasSixLines`: holds only when the page texts other than the body contain no newline. With a newline, the text still follows `Receipt.ReceiptText`, but its lines are no longer six.
- `Pipeline.CompleteRunArchivesEveryDocument`: assumes the working directory starts empty and lists exactly the files the run wrote. Files left by earlier runs are not modelled.
