# SVG to TGS sticker bot — a Dafny model

This project models the core of a Telegram bot (`main.py`). Users send SVG files. The bot gathers the files a user sends in quick succession into one batch. Two seconds after the last file, it downloads, validates and converts each file to a TGS animated sticker and sends the results back. A small SQLite registry records users, bans and conversions, and an admin can broadcast a text to every user who is not banned.

The model has six modules, plus `Wrappers` (`wrappers.dfy`, an `Option` type):

- `Text` (`text.dfy`): the string operations the bot relies on.
  - `str.lower` on ASCII letters, `str.strip`, the `in` substring test and `str.endswith`.
  - `str.replace('.svg', '.tgs')`, which is case-sensitive.
- `Lottie` (`lottie.dfy`): a JSON value datatype, and the fixed Lottie document that the fallback tier writes, with its structural facts.
- `Converter` (`converter.dfy`): `validate_svg_file` and the two-tier choice of `convert_svg_to_tgs` / `_create_fallback_tgs`.
  - What the file system and the lottie library did is given as outcomes (`StoredFile`, `PrimaryOutcome`, `FallbackWrite`).
- `Registry` (`registry.dfy`): `DatabaseManager` as a class.
  - The users table is a map from user id to a row with a banned flag.
  - The conversions table is a sequence of events.
- `Batches` (`batch.dfy`): `_process_user_batch`, written as methods with loops over the captured files. Each method is proved equal to a specification function (`ScanPrefix`, `Finish`, `ProcessSpec`), and lemmas state what that specification means.
  - What happened to each file is a `FileEnv`: whether `get_file` and the download returned, the file on disk, what each tier did, and whether `send_document` returned.
- `Bot` (`bot.dfy`): the class `SvgBot`, holding `user_batches` and a timer counter.
  - It covers `handle_document`, the timer task `_process_batch_after_delay`, `/start` and `/broadcast`.
  - A timer task is a token (a natural number). Installing a new timer replaces the batch's token, which is how the old task is cancelled. Firing a token that is not the batch's current one does nothing, as a cancelled task never reaches `_process_user_batch`.
  - The firing task removes the entry before any work starts. Files sent after that start a fresh batch, with a new "Please wait" message and a new timer.

## Model

| member | source | states |
|---|---|---|
| Text.StripKeepsOccurrences | main.py:203-204 | stripping white space neither creates nor removes an occurrence of a pattern with visible ends, so the stripped test for "<svg" equals the test on the whole lowered text |
| Text.ReplaceSvgWithoutMatch | main.py:616 | a name without ".svg" in exactly that case, e.g. "A.SVG", is sent back unchanged |
| Text.ReplaceSvgExtension | main.py:616 | a name ending in ".svg" is sent under a name ending in ".tgs" |
| Lottie.FallbackDocumentHeader | main.py:280-290 | the fallback document has v "5.5.2", fr 30, ip 0, op 30, w 512, h 512 and exactly one layer |
| Lottie.FallbackLayerShape | main.py:290-325 | that layer is a shape layer (ty 4) spanning frames 0-30 whose shapes are one "rc" and one "fl", in that order |
| Lottie.FallbackWellFormed | main.py:280-326 | no object of the fallback document repeats a key |
| Lottie.FallbackIsSticker | main.py:280-326 | the fallback document meets the sticker header contract: version string, 30 fps, frames 0-30, 512x512, non-empty layers |
| Converter.ValidateSvgFile | main.py:188-217 | valid iff the size is at most 5 MiB, the text is readable UTF-8 and its lowered, stripped form contains "<svg"; size is checked first; unreadable text gives the read error; a file whose size cannot be read gives the generic validation failure; readable text without "<svg" gives the missing-tag error |
| Converter.CreateFallbackTgs | main.py:272-343 | succeeds iff the SVG could be read and the written file exists and is non-empty; whenever it writes, it writes exactly the fixed fallback document, which is a valid sticker document |
| Converter.ConvertSvgToTgs | main.py:231-265 | the primary tier is used iff lottie ran without raising and left a non-empty file; otherwise the fallback's result is the result |
| Converter.FallbackIgnoresContent | main.py:275-332 | the fallback outcome and document do not depend on what the SVG says |
| Converter.ValidatedFileConverts | main.py:178-343 | after validation passed, conversion fails iff lottie failed and the fallback file could not be written or came out empty |
| Registry.ActiveIsTotalMinusBanned | main.py:139-155 | total minus banned equals the number of users not banned |
| Registry.Database.constructor | main.py:65-99 | `CREATE TABLE IF NOT EXISTS` keeps the rows the database file already holds: the tables are exactly those found on disk |
| Registry.Database.IsBanned | main.py:130-137 | true iff the user has a row and it is banned, i.e. the id is among the banned ids; a missing row reads as not banned |
| Registry.Database.AddUser | main.py:101-110 | the row is replaced whole, so the ban flag returns to 0; conversions are unchanged |
| Registry.Database.BanUser | main.py:112-119 | returns true iff the row exists, and then sets its flag; nothing else changes |
| Registry.Database.UnbanUser | main.py:121-128 | returns true iff the row exists, and then clears its flag; nothing else changes |
| Registry.Database.GetStats | main.py:139-155 | total and banned counts, active = the users not banned, conversions = number of events (not files) |
| Registry.Database.LogConversion | main.py:157-164 | appends one event; users unchanged |
| Registry.Database.GetAllUserIds | main.py:166-172 | exactly the users not banned, each once, so as many ids as active users |
| Batches.AbortIsFinal | main.py:575-607 | once an exception has left the loop, later files change nothing |
| Batches.AbortedIffUnreached | main.py:578-588 | the loop raises iff some file's `get_file` or download raised |
| Batches.ConvertedArePassing | main.py:588-607 | every converted file was downloaded, validated and converted, is named by `.replace('.svg', '.tgs')`, and they keep batch order |
| Batches.PassingAreConverted | main.py:588-607 | when nothing raised, every file that validated and converted is in the converted list |
| Batches.TempsArePairs | main.py:575-588 | two temp paths (.svg, .tgs) per file reached, in batch order; the pair of file i is recorded iff every earlier file was fetched and downloaded and `get_file` returned for file i; exactly two per file when nothing raised |
| Batches.TempsDistinct | main.py:637-643 | the recorded temp paths are pairwise distinct, so each is unlinked once |
| Batches.BatchOutcome | main.py:609-643 | without a progress message nothing is edited; with one, the final status is "Done ✅" iff a conversion is logged; the log counts all converted files, at least one, all sent; "No files could be converted" iff nothing raised and no file passed; the log happens iff nothing raised, some file passed and every send returned; every temp path is unlinked |
| Batches.EveryFileConverted | main.py:575-627 | a batch whose files all download, pass and are delivered sends them all in order, logs one conversion of all of them and ends on "Done ✅" |
| Batches.ScanFiles | main.py:575-607 | the loop computes the specification `ScanPrefix` over all files, stopping at the first exception |
| Batches.SendConverted | main.py:613-624 | sends in order up to the first `send_document` that raises and reports whether one did |
| Batches.UnlinkAll | main.py:637-643 | `os.unlink` is attempted on every recorded path, in order, even after some raise `OSError`; exactly the paths whose unlink did not raise are removed |
| Batches.ProcessUserBatch | main.py:557-643 | processing a captured batch yields exactly the report `ProcessSpec` specifies, and attempts to unlink every temp path whatever the unlinks raise |
| Bot.SuccessfulCount | main.py:475-481 | the number of successful sends is the number of recipients that could be reached |
| Bot.SvgBot.constructor | main.py:348-351 | the database reopened with the rows it already holds, and no batches |
| Bot.Join | main.py:464 | `" ".join(args)`: the arguments in order with one space between neighbours, so its length is their total length plus one less than their number; a single argument is itself |
| Bot.SvgBot.StartCommand | main.py:353-356 | `/start` records the user without a ban check and so lifts a ban |
| Bot.SvgBot.HandleDocument | main.py:490-548 | banned users, non-SVG files and files over 5 MiB are refused and leave the batches untouched (exactly 5 MiB is accepted); the ban check comes before `add_user`; an accepted file is appended at the end of the user's batch, which is created if absent; other batches are unchanged; only a batch's first file sets the progress message; a new timer replaces the old one |
| Bot.SvgBot.FireTimer | main.py:550-570 | a cancelled or stale timer is a no-op; otherwise the entry is removed before processing, exactly its files are processed in order, and the conversion log grows by the report's one entry, if any |
| Bot.SvgBot.Broadcast | main.py:451-488 | non-admins and empty args stop before any send; the recipients are exactly the users not banned, each tried once in order; success + failed = recipients; success = the reachable ones |
| Bot.Debounce | main.py:490-570 | a second file cancels the first timer, which then fires without effect; the live timer flushes both files in order under the first progress message; a later file starts a fresh batch with its own progress message and timer |

## Left out

- Telegram transport is not modelled as calls. Replies, edits, `get_file`, downloads, `send_document` and `send_message` appear only as their outcomes: `FileEnv`, the `waitReply` and `statusSent` parameters, and the `reachable` set. Likewise the `unlinkFails` set names the temporary paths whose `os.unlink` raises, and the constructors take the tables already stored in the database file.
- Failures of `edit_text` are not modelled. Every edit of the progress and broadcast status messages is assumed to return, and so is the welcome reply of `/start`.
- SQLite is replaced by an in-memory map and sequence. Connection and SQL errors, the join and activity timestamps, and the order of `get_all_user_ids` (the query has no ORDER BY) are not modelled.
- asyncio interleavings are not modelled: the two-second sleep, `create_task`, and handlers running concurrently across `await`s. Each handler and timer firing runs atomically.
- A timer whose batch is present but holds a different token counts as cancelled. The source only checks `user_id in user_batches` after the sleep, but a cancelled task never gets there.
- The lottie library (`import_svg`, `export_tgs`) is given as a `PrimaryOutcome`. Setting 30 fps, frames 0-30 and 512x512 on the imported animation is not modelled.
- The gzip compression and the exact `json.dumps` bytes of the fallback are not modelled. The fill colour floats are kept as literal text.
- The outer `except` of `convert_svg_to_tgs` (main.py:267-269) is not modelled, because `_create_fallback_tgs` catches every exception itself.
- Text.Lower: only ASCII letters are lowered. This is enough for the comparisons the bot makes with "<svg" and ".svg", but Python's full Unicode case mapping is not modelled.
- The fallback tier reads the same stored text as the validator. A file readable during validation and not afterwards is not modelled.
- A `None` file name or file size, and failures creating temporary files, are not modelled. A download that raises is modelled; the temp paths are recorded before it runs.
- The `/stats`, `/ban`, `/unban` and `/help` command wrappers are left out: their admin gate, `int()` argument parsing and reply texts. The registry operations they call are modelled.
- Logging, environment configuration, `run()` and `main()` are left out, and `debug_test.py` is not part of this model.
- Converter.ValidateSvgFile: every exception from `os.path.getsize` is a single `Unstatable` case, and the error message texts are constructors, not strings.
