/** `TelegramBot`: the per-user batches that `handle_document` fills and the
    timer task flushes, `/start` and `/broadcast`. A timer task is a token:
    installing a new one cancels the old one, and a cancelled token that fires
    does nothing. */
module Bot {
  import opened Wrappers
  import opened Text
  import opened Converter
  import opened Registry
  import opened Batches

  /** How `handle_document` ended. `Queued` carries the timer installed for
      the batch; it is None when the "Please wait" reply for a first file
      raised, which leaves the handler before a timer is created. */
  datatype SubmitResult =
    | RejectedBanned     // "You are banned from using this bot."
    | RejectedNotSvg     // "Please send only SVG files."
    | RejectedTooLarge   // "File too large: ..."
    | Queued(token: Option<TimerToken>)

  /** The counts of the final "Broadcast Complete!" edit. */
  datatype Tally = Tally(success: nat, failed: nat, total: nat)

  datatype BroadcastResult =
    | AdminRequired                 // "Admin access required."
    | Usage                         // "Usage: /broadcast <message> ..."
    | StatusFailed                  // the "Broadcasting to N users" reply raised: nothing is sent
    | Sent(text: string, attempted: seq<UserId>, delivered: seq<UserId>, tally: Tally)

  /** The number of characters in all of `args`. */
  function TotalLength(args: seq<string>): nat {
    if args == [] then 0 else |args[0]| + TotalLength(args[1..])
  }

  /** `" ".join(args)`: the arguments in order, one space between each two. */
  function Join(args: seq<string>): (r: string)
    ensures args == [] ==> r == ""
    ensures args != [] ==> |r| == TotalLength(args) + |args| - 1
    ensures |args| == 1 ==> r == args[0]
    ensures |args| > 1 ==> r[..|args[0]| + 1] == args[0] + " " && r[|args[0]| + 1..] == Join(args[1..])
  {
    if args == [] then ""
    else if |args| == 1 then args[0]
    else args[0] + " " + Join(args[1..])
  }

  /** The recipients whose `send_message` returned, in the order tried. */
  function Successful(ids: seq<UserId>, reachable: set<UserId>): seq<UserId> {
    if ids == [] then []
    else
      var last := ids[|ids| - 1];
      Successful(ids[..|ids| - 1], reachable) + (if last in reachable then [last] else [])
  }

  /** Each recipient is tried once, so the successful sends are exactly the
      recipients that could be reached. */
  lemma {:induction false} SuccessfulCount(ids: seq<UserId>, reachable: set<UserId>)
    requires Distinct(ids)
    ensures |Successful(ids, reachable)| == |Elements(ids) * reachable|
  {
    if ids != [] {
      var init := ids[..|ids| - 1];
      var last := ids[|ids| - 1];
      DistinctInit(ids);
      ElementsSnoc(ids);
      SuccessfulCount(init, reachable);
      var before := Elements(init) * reachable;
      if last in reachable {
        assert Elements(ids) * reachable == before + {last};
      } else {
        assert Elements(ids) * reachable == before;
      }
    }
  }

  class SvgBot {
    const db: Database
    const adminId: UserId
    /** `user_batches`. */
    var userBatches: map<UserId, Batch>
    /** The token the next timer task gets. */
    var nextTimer: TimerToken

    /** Every batch holds at least one file, since a batch is only created
        by an append; every installed timer was issued, and no two batches
        share one. */
    ghost predicate Valid()
      reads this
    {
      && (forall u | u in userBatches :: userBatches[u].files != [])
      && (forall u | u in userBatches && userBatches[u].timer.Some? :: userBatches[u].timer.value < nextTimer)
      && (forall u, v | u in userBatches && v in userBatches && u != v && userBatches[u].timer.Some? ::
            userBatches[u].timer != userBatches[v].timer)
    }

    /** The user's batch has `token` as its pending, uncancelled timer. */
    predicate Live(userId: UserId, token: TimerToken)
      reads this
    {
      userId in userBatches && userBatches[userId].timer == Some(token)
    }

    /** `TelegramBot.__init__`: the database file is reopened with the rows
        it already holds, and there are no batches. */
    constructor (adminId: UserId, users0: map<UserId, UserRow>, conversions0: seq<ConversionEvent>)
      ensures this.adminId == adminId && fresh(db)
      ensures db.users == users0 && db.conversions == conversions0
      ensures userBatches == map[] && nextTimer == 0
      ensures Valid()
    {
      this.adminId := adminId;
      db := new Database(users0, conversions0);
      userBatches := map[];
      nextTimer := 0;
    }

    /** `start_command`: records the user, and so lifts any ban. */
    method StartCommand(userId: UserId, profile: Profile)
      modifies db
      ensures db.users == old(db.users)[userId := UserRow(profile, false)]
      ensures db.conversions == old(db.conversions)
      ensures !db.IsBanned(userId)
    {
      db.AddUser(userId, profile);
    }

    /** `handle_document`. The gates run in order: a banned user is refused
        before the user row is touched; every other user is recorded; then
        the type and the size (at most 5 MiB) are checked, and a refused
        file leaves the batches alone. An accepted file is appended to the
        user's batch, which is created when absent; other users' batches do
        not change. Only a file that starts a batch sets the progress
        message, to the "Please wait" reply (`waitReply`, None when that
        reply raised). The previous timer is cancelled and a fresh one
        installed, except when that reply raised. */
    method HandleDocument(userId: UserId, profile: Profile, doc: Document, message: MessageRef,
                          waitReply: Option<MessageRef>) returns (r: SubmitResult)
      requires Valid()
      modifies this, db
      ensures Valid()
      ensures old(db.IsBanned(userId)) ==>
        r == RejectedBanned && db.users == old(db.users) && db.conversions == old(db.conversions)
      ensures !old(db.IsBanned(userId)) ==>
        db.users == old(db.users)[userId := UserRow(profile, false)] && db.conversions == old(db.conversions)
      ensures !old(db.IsBanned(userId)) && !IsSvgSubmission(doc) ==> r == RejectedNotSvg
      ensures !old(db.IsBanned(userId)) && IsSvgSubmission(doc) && doc.fileSize > MaxFileSize ==> r == RejectedTooLarge
      ensures r.Queued? <==> !old(db.IsBanned(userId)) && IsSvgSubmission(doc) && doc.fileSize <= MaxFileSize
      ensures !r.Queued? ==> userBatches == old(userBatches) && nextTimer == old(nextTimer)
      ensures r.Queued? ==>
        && userId in userBatches
        && userBatches - {userId} == old(userBatches) - {userId}
        && userBatches[userId].files ==
             (if userId in old(userBatches) then old(userBatches)[userId].files else []) + [PendingFile(doc, message)]
        && userBatches[userId].progress ==
             (if userId in old(userBatches) then old(userBatches)[userId].progress else waitReply)
        && r.token == userBatches[userId].timer
      ensures r.Queued? && userId !in old(userBatches) && waitReply.None? ==>
        r.token == None && nextTimer == old(nextTimer)
      ensures r.Queued? && (userId in old(userBatches) || waitReply.Some?) ==>
        r.token == Some(old(nextTimer)) && nextTimer == old(nextTimer) + 1
    {
      if db.IsBanned(userId) {
        return RejectedBanned;
      }
      db.AddUser(userId, profile);
      if !IsSvgSubmission(doc) {
        return RejectedNotSvg;
      }
      if doc.fileSize > MaxFileSize {
        return RejectedTooLarge;
      }
      var batch := if userId in userBatches then userBatches[userId] else Batch([], None, None);
      batch := batch.(files := batch.files + [PendingFile(doc, message)]);
      if |batch.files| == 1 {
        if waitReply.None? {
          // the reply raised: the batch keeps the file, without a timer
          userBatches := userBatches[userId := batch];
          return Queued(None);
        }
        batch := batch.(progress := waitReply);
      }
      // cancelling the old timer is replacing its token
      batch := batch.(timer := Some(nextTimer));
      userBatches := userBatches[userId := batch];
      nextTimer := nextTimer + 1;
      r := Queued(batch.timer);
    }

    /** A timer task firing: `_process_batch_after_delay` after its sleep.
        A cancelled timer, or one for a user without a batch, does nothing.
        Otherwise the entry is taken out of the map before any work, exactly
        its files are processed in order, and one conversion is logged when
        the report says so. `envs` says what each captured file met. */
    method FireTimer(userId: UserId, token: TimerToken, envs: seq<FileEnv>, unlinkFails: set<TempPath>) returns (r: Option<BatchReport>)
      requires Valid()
      requires Live(userId, token) ==> |envs| == |userBatches[userId].files|
      modifies this, db
      ensures Valid()
      ensures nextTimer == old(nextTimer) && db.users == old(db.users)
      ensures !old(Live(userId, token)) ==>
        r == None && userBatches == old(userBatches) && db.conversions == old(db.conversions)
      ensures old(Live(userId, token)) ==>
        && userBatches == old(userBatches) - {userId}
        && r == Some(ProcessSpec(old(userBatches)[userId].files, old(userBatches)[userId].progress, envs))
        && db.conversions ==
             old(db.conversions) + (if r.value.logged.Some? then [ConversionEvent(userId, r.value.logged.value)] else [])
    {
      if !Live(userId, token) {
        return None;
      }
      var batch := userBatches[userId];
      userBatches := userBatches - {userId};
      var report := ProcessUserBatch(batch.files, batch.progress, envs, unlinkFails);
      if report.logged.Some? {
        db.LogConversion(userId, report.logged.value);
      }
      r := Some(report);
    }

    /** `broadcast_command`. Only the admin may broadcast, and only with a
        message; then the recipients are the users who are not banned, each
        tried once in order; the tally counts the sends that returned and
        the ones that raised, and is reported once, even to no one. */
    method Broadcast(caller: UserId, args: seq<string>, statusSent: bool, reachable: set<UserId>)
      returns (r: BroadcastResult)
      ensures caller != adminId ==> r == AdminRequired
      ensures caller == adminId && args == [] ==> r == Usage
      ensures caller == adminId && args != [] && !statusSent ==> r == StatusFailed
      ensures r.Sent? <==> caller == adminId && args != [] && statusSent
      ensures r.Sent? ==>
        && r.text == Join(args)
        && Distinct(r.attempted) && Elements(r.attempted) == ActiveIds(db.users)
        && r.delivered == Successful(r.attempted, reachable)
        && r.tally.success == |r.delivered| == |ActiveIds(db.users) * reachable|
        && r.tally.success + r.tally.failed == r.tally.total == |ActiveIds(db.users)|
    {
      if caller != adminId {
        return AdminRequired;
      }
      if args == [] {
        return Usage;
      }
      var text := Join(args);
      var ids := db.GetAllUserIds();
      if !statusSent {
        return StatusFailed;
      }
      var success, failed := 0, 0;
      var delivered: seq<UserId> := [];
      var i := 0;
      while i < |ids|
        invariant 0 <= i <= |ids|
        invariant delivered == Successful(ids[..i], reachable)
        invariant success == |delivered| && success + failed == i
      {
        assert ids[..i + 1][..i] == ids[..i];
        if ids[i] in reachable {
          success := success + 1;
          delivered := delivered + [ids[i]];
        } else {
          failed := failed + 1;
        }
        i := i + 1;
      }
      assert ids[..i] == ids;
      SuccessfulCount(ids, reachable);
      r := Sent(text, ids, delivered, Tally(success, failed, |ids|));
    }
  }

  /** Two files sent in quick succession by a user who is not banned: the
      second submission cancels the first timer, which then fires without
      effect; the second timer flushes both files, in order, under the first
      file's "Please wait" message; a third file afterwards starts a fresh
      batch with its own progress message and timer. */
  method Debounce(users0: map<UserId, UserRow>, conversions0: seq<ConversionEvent>,
                  userId: UserId, profile: Profile, d1: Document, d2: Document, d3: Document,
                  wait1: MessageRef, wait3: MessageRef, envs: seq<FileEnv>)
    returns (first: SubmitResult, second: SubmitResult, stale: Option<BatchReport>,
             flushed: Option<BatchReport>, third: SubmitResult, restarted: Batch)
    requires !(userId in users0 && users0[userId].banned)
    requires IsSvgSubmission(d1) && IsSvgSubmission(d2) && IsSvgSubmission(d3)
    requires d1.fileSize <= MaxFileSize && d2.fileSize <= MaxFileSize && d3.fileSize <= MaxFileSize
    requires |envs| == 2
    ensures first == Queued(Some(0)) && second == Queued(Some(1))
    ensures stale == None
    ensures flushed == Some(ProcessSpec([PendingFile(d1, 1), PendingFile(d2, 2)], Some(wait1), envs))
    ensures third == Queued(Some(2))
    ensures restarted == Batch([PendingFile(d3, 3)], Some(2), Some(wait3))
  {
    var bot := new SvgBot(0, users0, conversions0);
    first := bot.HandleDocument(userId, profile, d1, 1, Some(wait1));
    second := bot.HandleDocument(userId, profile, d2, 2, None);
    assert bot.userBatches[userId].files == [PendingFile(d1, 1)] + [PendingFile(d2, 2)] == [PendingFile(d1, 1), PendingFile(d2, 2)];
    stale := bot.FireTimer(userId, 0, envs, {});
    flushed := bot.FireTimer(userId, 1, envs, {});
    third := bot.HandleDocument(userId, profile, d3, 3, Some(wait3));
    restarted := bot.userBatches[userId];
  }
}
