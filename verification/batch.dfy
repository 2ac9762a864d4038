/** The per-user batch and `_process_user_batch`: the loop that downloads,
    validates and converts each captured file in order, the "Done" or failure
    status, the deliveries, the single conversion log entry and the cleanup of
    every temporary path in `finally`. The Telegram calls and the file system
    are outside the model: what they did for each file is a `FileEnv`. */
module Batches {
  import opened Wrappers
  import opened Text
  import opened Converter

  /** Identity of a chat message the bot replies to or edits. */
  type MessageRef = nat

  /** A timer task created by `asyncio.create_task`. */
  type TimerToken = nat

  /** The fields of a Telegram document the bot reads. */
  datatype Document = Document(fileId: string, fileName: string, fileSize: nat, mimeType: string)

  /** One entry of a batch's `files` list: the document and the message that
      carried it. */
  datatype PendingFile = PendingFile(document: Document, message: MessageRef)

  /** `user_batches[user_id]`: the files in arrival order, the pending timer
      task and the "Please wait" message. */
  datatype Batch = Batch(files: seq<PendingFile>, timer: Option<TimerToken>, progress: Option<MessageRef>)

  /** The type gate of `handle_document`: the lowered file name ends in
      ".svg", or the MIME type is exactly "image/svg+xml". */
  predicate IsSvgSubmission(d: Document) {
    EndsWith(Lower(d.fileName), ".svg") || d.mimeType == "image/svg+xml"
  }

  /** What happened to one file while the batch was processed. */
  datatype FileEnv = FileEnv(
    fetched: bool,                 // `get_file` returned
    downloaded: bool,              // `download_to_drive` returned
    stored: StoredFile,            // the downloaded file as the validator sees it
    primary: PrimaryOutcome,       // what the lottie tier did
    fallbackWrite: FallbackWrite,  // what writing the fallback file did
    delivered: bool)               // `send_document` returned

  datatype Suffix = SvgSuffix | TgsSuffix

  /** The `NamedTemporaryFile` created with `suffix` for the file at index `file`. */
  datatype TempPath = TempPath(file: nat, suffix: Suffix)

  /** An entry of `converted_files`: the file's index in the batch and the name
      the TGS is sent under. */
  datatype Delivery = Delivery(file: nat, tgsName: string)

  /** The texts the progress message is edited to. */
  datatype Status =
    | Done               // "Done ✅"
    | NoFilesConverted   // "❌ No files could be converted."
    | ProcessingError    // "❌ An error occurred during processing."

  /** What processing one batch did: the converted files, the deliveries
      that went out, the edits to the progress message in order, the file
      count logged (if any), the temporary paths created and those `os.unlink` was called on. */
  datatype BatchReport = BatchReport(
    converted: seq<Delivery>,
    sent: seq<Delivery>,
    edits: seq<Status>,
    logged: Option<nat>,
    temps: seq<TempPath>,
    unlinked: seq<TempPath>)

  /** `original_name.replace('.svg', '.tgs')`. */
  function TgsName(d: Document): string {
    ReplaceSvg(d.fileName)
  }

  /** The text the fallback tier reads: only a file that is on disk has one. */
  function SvgText(f: StoredFile): Option<string> {
    if f.OnDisk? then f.text else None
  }

  /** The file passed validation and one of the two tiers produced output. */
  predicate Passes(env: FileEnv) {
    AcceptableSvg(env.stored)
    && ConvertSvgToTgs(env.primary, SvgText(env.stored), env.fallbackWrite).Converted?
  }

  /** The state of the per-file loop: `converted_files`, `temp_files`, and
      whether an exception has left the loop. */
  datatype Scan = Scan(converted: seq<Delivery>, temps: seq<TempPath>, aborted: bool)

  /** One iteration for the file at index `i`. `get_file` runs before the
      temporary files exist; the download after both paths are recorded; a
      failure of either raises out of the loop. A validation or conversion
      failure only skips the file. */
  function ScanStep(s: Scan, i: nat, f: PendingFile, env: FileEnv): Scan {
    if s.aborted then s
    else if !env.fetched then s.(aborted := true)
    else
      var temps := s.temps + [TempPath(i, SvgSuffix), TempPath(i, TgsSuffix)];
      if !env.downloaded then Scan(s.converted, temps, true)
      else if Passes(env) then Scan(s.converted + [Delivery(i, TgsName(f.document))], temps, false)
      else Scan(s.converted, temps, false)
  }

  /** The loop state after the first `k` files. */
  function ScanPrefix(files: seq<PendingFile>, envs: seq<FileEnv>, k: nat): (s: Scan)
    requires k <= |files| == |envs|
    ensures forall t | 0 <= t < |s.converted| :: s.converted[t].file < k
    ensures forall t | 0 <= t < |s.temps| :: s.temps[t].file < k
  {
    if k == 0 then Scan([], [], false)
    else ScanStep(ScanPrefix(files, envs, k - 1), k - 1, files[k - 1], envs[k - 1])
  }

  /** Index of the first converted file whose delivery raised, at or after
      `j`; `|cs|` when every delivery from `j` on went out. */
  function FirstUndelivered(cs: seq<Delivery>, envs: seq<FileEnv>, j: nat): (n: nat)
    requires j <= |cs|
    requires forall t | 0 <= t < |cs| :: cs[t].file < |envs|
    ensures j <= n <= |cs|
    ensures forall t | j <= t < n :: envs[cs[t].file].delivered
    ensures n < |cs| ==> !envs[cs[n].file].delivered
    decreases |cs| - j
  {
    if j == |cs| || !envs[cs[j].file].delivered then j else FirstUndelivered(cs, envs, j + 1)
  }

  /** An edit of the progress message, made only when there is one. */
  function Edit(edits: seq<Status>, progress: Option<MessageRef>, st: Status): seq<Status> {
    if progress.Some? then edits + [st] else edits
  }

  /** What follows the loop. Without an exception the progress message is
      first set to "Done ✅"; then either the converted files are sent in order
      and one conversion of `len(converted_files)` is logged, or, when none
      converted, the message becomes "No files could be converted". An
      exception (in the loop or in a send) sets it to the error text and logs
      nothing. Every temporary path recorded is unlinked. */
  function Finish(s: Scan, progress: Option<MessageRef>, envs: seq<FileEnv>): BatchReport
    requires forall t | 0 <= t < |s.converted| :: s.converted[t].file < |envs|
  {
    if s.aborted then
      BatchReport(s.converted, [], Edit([], progress, ProcessingError), None, s.temps, s.temps)
    else
      var edits := Edit([], progress, Done);
      if s.converted == [] then
        BatchReport(s.converted, [], Edit(edits, progress, NoFilesConverted), None, s.temps, s.temps)
      else
        var n := FirstUndelivered(s.converted, envs, 0);
        if n < |s.converted| then
          BatchReport(s.converted, s.converted[..n], Edit(edits, progress, ProcessingError), None, s.temps, s.temps)
        else
          BatchReport(s.converted, s.converted, edits, Some(|s.converted|), s.temps, s.temps)
  }

  /** `_process_user_batch` after the entry has been taken out of the map: an
      empty batch returns at once, otherwise the loop runs over every file. */
  function ProcessSpec(files: seq<PendingFile>, progress: Option<MessageRef>, envs: seq<FileEnv>): BatchReport
    requires |files| == |envs|
  {
    if files == [] then BatchReport([], [], [], None, [], [])
    else Finish(ScanPrefix(files, envs, |files|), progress, envs)
  }

  /** Once an exception has left the loop, later files change nothing. */
  lemma {:induction false} AbortIsFinal(files: seq<PendingFile>, envs: seq<FileEnv>, k: nat, m: nat)
    requires k <= m <= |files| == |envs|
    requires ScanPrefix(files, envs, k).aborted
    ensures ScanPrefix(files, envs, m) == ScanPrefix(files, envs, k)
    decreases m - k
  {
    if k < m {
      AbortIsFinal(files, envs, k, m - 1);
    }
  }

  /** The file got through `get_file` and the download without an exception. */
  predicate Reached(env: FileEnv) {
    env.fetched && env.downloaded
  }

  /** After `k` files the loop has raised iff some file among them failed to
      fetch or download. */
  lemma {:induction false} AbortedIffUnreached(files: seq<PendingFile>, envs: seq<FileEnv>, k: nat)
    requires k <= |files| == |envs|
    ensures ScanPrefix(files, envs, k).aborted <==> exists i | 0 <= i < k :: !Reached(envs[i])
  {
    if k > 0 {
      AbortedIffUnreached(files, envs, k - 1);
    }
  }

  /** `d` is the delivery of a file of the batch that was reached and
      passed, under the name `TgsName` gives it. */
  predicate ConvertedFrom(files: seq<PendingFile>, envs: seq<FileEnv>, d: Delivery)
    requires |files| == |envs|
  {
    d.file < |envs| && Reached(envs[d.file]) && Passes(envs[d.file]) && d.tgsName == TgsName(files[d.file].document)
  }

  /** The deliveries are in strictly increasing batch order. */
  predicate Increasing(cs: seq<Delivery>) {
    forall t, u | 0 <= t < u < |cs| :: cs[t].file < cs[u].file
  }

  /** The file at index `i` is among the deliveries. */
  predicate Lists(cs: seq<Delivery>, i: nat) {
    exists t | 0 <= t < |cs| :: cs[t].file == i
  }

  /** Every converted file was reached and passed, each is named by
      `TgsName`, and they are in strictly increasing batch order. */
  lemma {:induction false} ConvertedArePassing(files: seq<PendingFile>, envs: seq<FileEnv>, k: nat)
    requires k <= |files| == |envs|
    ensures forall t | 0 <= t < |ScanPrefix(files, envs, k).converted| ::
      ConvertedFrom(files, envs, ScanPrefix(files, envs, k).converted[t])
    ensures Increasing(ScanPrefix(files, envs, k).converted)
  {
    if k > 0 {
      ConvertedArePassing(files, envs, k - 1);
      var p := ScanPrefix(files, envs, k - 1);
      var cs := ScanPrefix(files, envs, k).converted;
      if cs != p.converted {
        var d := Delivery(k - 1, TgsName(files[k - 1].document));
        assert !p.aborted && Reached(envs[k - 1]) && Passes(envs[k - 1]);
        assert cs == p.converted + [d];
        forall t | 0 <= t < |cs| ensures ConvertedFrom(files, envs, cs[t]) {
          if t < |p.converted| {
            assert cs[t] == p.converted[t];
          } else {
            assert cs[t] == d;
          }
        }
        forall t, u | 0 <= t < u < |cs| ensures cs[t].file < cs[u].file {
          assert cs[t] == p.converted[t];
          if u < |p.converted| {
            assert cs[u] == p.converted[u];
          } else {
            assert cs[u] == d;
          }
        }
      }
    }
  }

  /** While nothing has raised, every file that passed is among the
      converted ones. */
  lemma {:induction false} PassingAreConverted(files: seq<PendingFile>, envs: seq<FileEnv>, k: nat)
    requires k <= |files| == |envs|
    ensures !ScanPrefix(files, envs, k).aborted ==>
      forall i | 0 <= i < k && Passes(envs[i]) :: Lists(ScanPrefix(files, envs, k).converted, i)
  {
    if k > 0 {
      PassingAreConverted(files, envs, k - 1);
      var p := ScanPrefix(files, envs, k - 1);
      var s := ScanPrefix(files, envs, k);
      if !s.aborted {
        assert !p.aborted;
        if Passes(envs[k - 1]) {
          assert s.converted == p.converted + [Delivery(k - 1, TgsName(files[k - 1].document))];
          assert s.converted[|p.converted|].file == k - 1;
        } else {
          assert s.converted == p.converted;
        }
        forall i | 0 <= i < k && Passes(envs[i]) ensures Lists(s.converted, i) {
          if i < k - 1 {
            var t :| 0 <= t < |p.converted| && p.converted[t].file == i;
            assert s.converted[t] == p.converted[t];
          }
        }
      }
    }
  }

  /** Path `a` is the .svg path (even `a`) or the .tgs path (odd `a`) of the
      file at index `a / 2`. */
  predicate Paired(ts: seq<TempPath>) {
    forall a | 0 <= a < |ts| :: ts[a] == TempPath(a / 2, if a % 2 == 0 then SvgSuffix else TgsSuffix)
  }

  /** Every file before index `i` got through `get_file` and the download. */
  predicate ReachedBefore(envs: seq<FileEnv>, i: nat)
    requires i <= |envs|
  {
    forall j | 0 <= j < i :: Reached(envs[j])
  }

  /** The temporary paths come in pairs, an .svg and a .tgs path for each
      file the loop reached, in batch order. The pair of file `i` is there
      exactly when every earlier file was reached and `get_file` returned
      for file `i` (the paths are recorded before its download); when
      nothing raised there are exactly two per file. */
  lemma {:induction false} TempsArePairs(files: seq<PendingFile>, envs: seq<FileEnv>, k: nat)
    requires k <= |files| == |envs|
    ensures |ScanPrefix(files, envs, k).temps| % 2 == 0 && |ScanPrefix(files, envs, k).temps| <= 2 * k
    ensures Paired(ScanPrefix(files, envs, k).temps)
    ensures forall i | 0 <= i < k ::
      2 * i < |ScanPrefix(files, envs, k).temps| <==> ReachedBefore(envs, i) && envs[i].fetched
    ensures !ScanPrefix(files, envs, k).aborted ==> |ScanPrefix(files, envs, k).temps| == 2 * k
  {
    if k > 0 {
      TempsArePairs(files, envs, k - 1);
      AbortedIffUnreached(files, envs, k - 1);
      var p := ScanPrefix(files, envs, k - 1);
      var ts := ScanPrefix(files, envs, k).temps;
      assert p.aborted <==> !ReachedBefore(envs, k - 1);
      if ts != p.temps {
        var n := |p.temps|;
        assert !p.aborted && envs[k - 1].fetched && n == 2 * (k - 1);
        assert ts == p.temps + [TempPath(k - 1, SvgSuffix), TempPath(k - 1, TgsSuffix)];
        forall a | 0 <= a < |ts| ensures ts[a] == TempPath(a / 2, if a % 2 == 0 then SvgSuffix else TgsSuffix) {
          if a < n {
            assert ts[a] == p.temps[a];
          } else if a == n {
            assert a / 2 == k - 1 && a % 2 == 0;
          } else {
            assert a / 2 == k - 1 && a % 2 == 1;
          }
        }
      }
    }
  }

  /** Paths laid out in such pairs are pairwise distinct: no path is
      recorded, or unlinked, twice. */
  lemma TempsDistinct(ts: seq<TempPath>)
    requires Paired(ts)
    ensures forall a, b | 0 <= a < b < |ts| :: ts[a] != ts[b]
  {
  }

  /** What one flush ends with:
      - with a progress message, the last edit is "Done ✅" exactly when a
        conversion was logged; without one, nothing is edited;
      - a log entry counts every converted file, at least one, all of them sent;
      - the last edit is "No files could be converted" exactly when nothing
        raised and no file passed;
      - a conversion is logged exactly when nothing raised, some file passed
        and every delivery went out;
      - with a progress message, when the loop did not raise, the first
        edit is "Done ✅";
      - every temporary path recorded is unlinked, and none twice. */
  lemma {:induction false} BatchOutcome(files: seq<PendingFile>, progress: Option<MessageRef>, envs: seq<FileEnv>)
    requires |files| == |envs| > 0
    ensures var r := ProcessSpec(files, progress, envs);
      progress.None? ==> r.edits == []
    ensures var r := ProcessSpec(files, progress, envs);
      progress.Some? ==> 0 < |r.edits| <= 2 && (r.edits[|r.edits| - 1] == Done <==> r.logged.Some?)
    ensures var r := ProcessSpec(files, progress, envs);
      r.logged.Some? ==> r.logged.value == |r.converted| > 0 && r.sent == r.converted
    ensures var r := ProcessSpec(files, progress, envs);
      progress.Some? ==>
        (r.edits[|r.edits| - 1] == NoFilesConverted <==>
          (forall i | 0 <= i < |envs| :: Reached(envs[i])) && (forall i | 0 <= i < |envs| :: !Passes(envs[i])))
    ensures var r := ProcessSpec(files, progress, envs);
      r.logged.Some? <==>
        (forall i | 0 <= i < |envs| :: Reached(envs[i]))
        && (exists i | 0 <= i < |envs| :: Passes(envs[i]))
        && (forall t | 0 <= t < |r.converted| :: envs[r.converted[t].file].delivered)
    ensures var r := ProcessSpec(files, progress, envs);
      progress.Some? && (forall i | 0 <= i < |envs| :: Reached(envs[i])) ==> r.edits[0] == Done
    ensures var r := ProcessSpec(files, progress, envs);
      r.unlinked == r.temps && forall a, b | 0 <= a < b < |r.unlinked| :: r.unlinked[a] != r.unlinked[b]
  {
    var k := |files|;
    AbortedIffUnreached(files, envs, k);
    ConvertedArePassing(files, envs, k);
    PassingAreConverted(files, envs, k);
    TempsArePairs(files, envs, k);
    var s := ScanPrefix(files, envs, k);
    TempsDistinct(s.temps);
    if !s.aborted && s.converted != [] {
      var n := FirstUndelivered(s.converted, envs, 0);
      assert Passes(envs[s.converted[0].file]);
      if n < |s.converted| {
        assert !envs[s.converted[n].file].delivered;
      }
    }
  }

  /** A batch whose every file downloads, passes and is delivered converts
      them all, in order, and logs one conversion of all of them. */
  lemma {:induction false} EveryFileConverted(files: seq<PendingFile>, progress: Option<MessageRef>, envs: seq<FileEnv>)
    requires |files| == |envs| > 0
    requires forall i | 0 <= i < |envs| :: Reached(envs[i]) && Passes(envs[i]) && envs[i].delivered
    ensures var r := ProcessSpec(files, progress, envs);
      |r.converted| == |files|
      && (forall t | 0 <= t < |files| :: r.converted[t] == Delivery(t, TgsName(files[t].document)))
      && r.sent == r.converted && r.logged == Some(|files|)
      && r.edits == Edit([], progress, Done)
  {
    var k := |files|;
    AbortedIffUnreached(files, envs, k);
    ConvertedArePassing(files, envs, k);
    PassingAreConverted(files, envs, k);
    var cs := ScanPrefix(files, envs, k).converted;
    IdentityIndices(cs, k, |cs|);
    // the last file is listed, at its own index
    assert Lists(cs, k - 1);
    var u :| 0 <= u < |cs| && cs[u].file == k - 1;
    assert |cs| == k by {
      assert cs[u].file == u;
      assert cs[|cs| - 1].file == |cs| - 1;
    }
  }

  /** Strictly increasing indices below `k` that include every index below
      `k` are the indices 0, 1, 2, ... themselves. */
  lemma {:induction false} IdentityIndices(cs: seq<Delivery>, k: nat, t: nat)
    requires t <= |cs|
    requires Increasing(cs)
    requires forall a | 0 <= a < |cs| :: cs[a].file < k
    requires forall i | 0 <= i < k :: Lists(cs, i)
    ensures forall j | 0 <= j < t :: cs[j].file == j
  {
    if t > 0 {
      IdentityIndices(cs, k, t - 1);
      var j := t - 1;
      assert cs[j].file >= j by {
        if j > 0 {
          assert cs[j - 1].file == j - 1;
        }
      }
      assert Lists(cs, j);
      var u :| 0 <= u < |cs| && cs[u].file == j;
      assert j <= u;
    }
  }

  /** The `for file_info in files` loop: it stops at the first exception. */
  method ScanFiles(files: seq<PendingFile>, envs: seq<FileEnv>) returns (s: Scan)
    requires |files| == |envs|
    ensures s == ScanPrefix(files, envs, |files|)
  {
    var converted: seq<Delivery> := [];
    var temps: seq<TempPath> := [];
    var aborted := false;
    var i := 0;
    while i < |files| && !aborted
      invariant 0 <= i <= |files|
      invariant Scan(converted, temps, aborted) == ScanPrefix(files, envs, i)
    {
      var env := envs[i];
      if !env.fetched {
        aborted := true;
      } else {
        temps := temps + [TempPath(i, SvgSuffix), TempPath(i, TgsSuffix)];
        if !env.downloaded {
          aborted := true;
        } else if ValidateSvgFile(env.stored).Valid? {
          var outcome := ConvertSvgToTgs(env.primary, SvgText(env.stored), env.fallbackWrite);
          if outcome.Converted? {
            converted := converted + [Delivery(i, TgsName(files[i].document))];
          }
        }
      }
      i := i + 1;
    }
    if aborted {
      AbortIsFinal(files, envs, i, |files|);
    }
    s := Scan(converted, temps, aborted);
  }

  /** The `send_document` loop: it stops at the first delivery that raises. */
  method SendConverted(cs: seq<Delivery>, envs: seq<FileEnv>) returns (sent: seq<Delivery>, failed: bool)
    requires forall t | 0 <= t < |cs| :: cs[t].file < |envs|
    ensures sent == cs[..FirstUndelivered(cs, envs, 0)]
    ensures failed <==> FirstUndelivered(cs, envs, 0) < |cs|
  {
    sent := [];
    var j := 0;
    while j < |cs| && envs[cs[j].file].delivered
      invariant 0 <= j <= |cs|
      invariant sent == cs[..j]
      invariant FirstUndelivered(cs, envs, 0) == FirstUndelivered(cs, envs, j)
    {
      sent := sent + [cs[j]];
      j := j + 1;
    }
    failed := j < |cs|;
  }

  /** The `finally` loop: `os.unlink` is attempted on every recorded path, in
      order. The paths in `unlinkFails` are those whose unlink raises
      `OSError`; the error is ignored and the loop goes on, so only those
      paths are left behind. */
  method UnlinkAll(temps: seq<TempPath>, unlinkFails: set<TempPath>) returns (attempted: seq<TempPath>, removed: seq<TempPath>)
    ensures attempted == temps
    ensures forall p :: p in removed <==> p in temps && p !in unlinkFails
  {
    attempted := [];
    removed := [];
    var t := 0;
    while t < |temps|
      invariant 0 <= t <= |temps|
      invariant attempted == temps[..t]
      invariant forall p :: p in removed <==> p in temps[..t] && p !in unlinkFails
    {
      assert temps[..t + 1] == temps[..t] + [temps[t]];
      attempted := attempted + [temps[t]];
      if temps[t] !in unlinkFails {
        removed := removed + [temps[t]];
      }
      t := t + 1;
    }
    assert temps[..t] == temps;
  }

  /** `_process_user_batch` over the files captured from the batch. */
  method ProcessUserBatch(files: seq<PendingFile>, progress: Option<MessageRef>, envs: seq<FileEnv>,
                          unlinkFails: set<TempPath>)
    returns (r: BatchReport)
    requires |files| == |envs|
    ensures r == ProcessSpec(files, progress, envs)
    ensures r.unlinked == r.temps
  {
    if |files| == 0 {
      return BatchReport([], [], [], None, [], []);
    }
    var s := ScanFiles(files, envs);
    var edits: seq<Status> := [];
    var sent: seq<Delivery> := [];
    var logged: Option<nat> := None;
    if s.aborted {
      edits := Edit(edits, progress, ProcessingError);
    } else {
      edits := Edit(edits, progress, Done);
      if |s.converted| > 0 {
        var failed;
        sent, failed := SendConverted(s.converted, envs);
        if failed {
          edits := Edit(edits, progress, ProcessingError);
        } else {
          logged := Some(|s.converted|);
        }
      } else {
        edits := Edit(edits, progress, NoFilesConverted);
      }
    }
    var unlinked, _ := UnlinkAll(s.temps, unlinkFails);
    r := BatchReport(s.converted, sent, edits, logged, s.temps, unlinked);
  }
}
