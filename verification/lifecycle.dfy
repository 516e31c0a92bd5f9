/**
 * The vacation lifecycle across handlers: a booking is stored, its INSERT record is
 * reacted to, a decision changes it, and its MODIFY record closes the loop.
 */
module Lifecycle {
  import opened Wrappers
  import opened Dates
  import opened Strings
  import opened Store
  import opened Texts
  import opened Messages
  import opened Effects
  import opened Decorators
  import opened Reactor
  import opened Interactivity

  /** The change-feed record the store emits for the item at a vacation key. */
  function RecordOf(eventName: EventName, vacationId: string, image: Item): StreamRecord
  {
    StreamRecord(eventName, GenerateKey(VACATION, vacationId), image)
  }

  lemma VacationSortKeyIsVacationRecord(vacationId: string)
    ensures StartsWith(GenerateKey(VACATION, vacationId), VACATION_PREFIX)
  {
    assert GenerateKey(VACATION, vacationId)[..|VACATION_PREFIX|] == VACATION_PREFIX;
  }

  /**
   * Without a decision maker a booking goes PENDING → APPROVED with no approval prompt,
   * and the MODIFY that follows tells the requester once (after the team post, if a channel is set).
   */
  lemma {:induction false} AutoApprovalEndToEnd(t: Table, cfg: ReactorConfig, userId: string, username: string,
                                                start: Day, end: Day, vacationId: string)
    requires userId != ""
    requires cfg.decisionMaker.None?
    requires cfg.notificationsChannel.Some? ==> cfg.notificationsChannel.value != ""
    requires SaveVacation(t, userId, username, start, end, PENDING, vacationId).result.Success?
    ensures var t1 := SaveVacation(t, userId, username, start, end, PENDING, vacationId).table;
      var k := VacationKey(userId, vacationId);
      var onInsert := ProcessRecord(cfg, RecordOf(Insert, vacationId, t1[k]));
      var t2 := Apply(t1, onInsert.effects);
      && t1[k].status == Some(PENDING)
      && onInsert == Run([SetStatus(userId, vacationId, APPROVED)], Done)
      && k in t2 && t2[k] == t1[k].(status := Some(APPROVED))
      && var onModify := ProcessRecord(cfg, RecordOf(Modify, vacationId, t2[k]));
        && onModify.outcome == Done
        && NoStoreWrites(onModify.effects)
        && |onModify.effects| == (if cfg.notificationsChannel.Some? then 2 else 1)
        && (cfg.notificationsChannel.Some? ==>
              onModify.effects[0] == Post(ToChannel(cfg.notificationsChannel.value,
                [Section(TeamAnnouncement(cfg.nameOf(userId), start, end, GenerateEmojiSetBySeason(cfg.calendar, start)))])))
        && onModify.effects[|onModify.effects| - 1] == RequesterNotice(t2[k])
  {
    var t1 := SaveVacation(t, userId, username, start, end, PENDING, vacationId).table;
    var k := VacationKey(userId, vacationId);
    VacationSortKeyIsVacationRecord(vacationId);
    InsertWithoutDecisionMaker(cfg, RecordOf(Insert, vacationId, t1[k]));
    ApplyOne(t1, SetStatus(userId, vacationId, APPROVED));
    var t2 := UpdateVacationStatus(t1, userId, vacationId, APPROVED);
    assert Complete(t2[k]);
    ModifyToApproved(cfg, RecordOf(Modify, vacationId, t2[k]));
  }

  /** With a decision maker the INSERT sends "sent for approval" and then the prompt, whose block id names the vacation. */
  lemma PromptAfterBooking(t1: Table, cfg: ReactorConfig, userId: string, vacationId: string)
    requires userId != ""
    requires cfg.decisionMaker.Some? && cfg.decisionMaker.value != ""
    requires VacationKey(userId, vacationId) in t1 && Complete(t1[VacationKey(userId, vacationId)])
    requires t1[VacationKey(userId, vacationId)].userId == Some(userId)
    requires t1[VacationKey(userId, vacationId)].vacationId == Some(vacationId)
    ensures var img := t1[VacationKey(userId, vacationId)];
      var onInsert := ProcessRecord(cfg, RecordOf(Insert, vacationId, img));
      && onInsert.outcome == Done && NoStoreWrites(onInsert.effects) && |onInsert.effects| == 2
      && onInsert.effects[1] == Post(ToChannel(cfg.decisionMaker.value,
           ApprovalPrompt(cfg.nameOf(userId), img.start.value, img.end.value,
                          GenerateBlockIdForVacationDecision(userId, vacationId))))
  {
    VacationSortKeyIsVacationRecord(vacationId);
    InsertWithDecisionMaker(cfg, RecordOf(Insert, vacationId, t1[VacationKey(userId, vacationId)]));
  }

  /** The MODIFY after a decision keeps an approved vacation and deletes a declined one, telling the requester last. */
  lemma DecidedModify(t2: Table, cfg: ReactorConfig, userId: string, vacationId: string)
    requires var k := VacationKey(userId, vacationId);
      k in t2 && Complete(t2[k]) && t2[k].userId == Some(userId) && t2[k].vacationId == Some(vacationId)
      && t2[k].status.value in {APPROVED, DECLINED}
    requires cfg.notificationsChannel.Some? ==> cfg.notificationsChannel.value != ""
    ensures var k := VacationKey(userId, vacationId);
      var onModify := ProcessRecord(cfg, RecordOf(Modify, vacationId, t2[k]));
      var t3 := Apply(t2, onModify.effects);
      && onModify.outcome == Done
      && onModify.effects[|onModify.effects| - 1] == RequesterNotice(t2[k])
      && (t2[k].status == Some(APPROVED) ==> t3 == t2)
      && (t2[k].status == Some(DECLINED) ==> t3 == DeleteVacation(t2, userId, vacationId) && k !in t3)
  {
    var k := VacationKey(userId, vacationId);
    var rec := RecordOf(Modify, vacationId, t2[k]);
    VacationSortKeyIsVacationRecord(vacationId);
    if t2[k].status == Some(APPROVED) {
      ModifyToApproved(cfg, rec);
      ApplyPostsOnly(t2, ProcessRecord(cfg, rec).effects);
    } else {
      ModifyToDeclined(cfg, rec);
      ApplyTwo(t2, DeleteItem(userId, vacationId), RequesterNotice(t2[k]));
    }
  }

  /**
   * Button `button` of the prompt for this vacation, pressed on table t1: the decision returns
   * normally and stores the button's status; the MODIFY that follows keeps an approved vacation
   * APPROVED and removes a declined one.
   */
  ghost predicate DecisionSettles(t1: Table, cfg: ReactorConfig, userId: string, start: Day, end: Day,
                                  vacationId: string, button: nat, responseUrl: string)
    requires button < 2
  {
    var k := VacationKey(userId, vacationId);
    var prompt := ApprovalPrompt(cfg.nameOf(userId), start, end, GenerateBlockIdForVacationDecision(userId, vacationId))[4];
    var press := Action(prompt.buttons[button].actionId, prompt.blockId, prompt.buttons[button].value);
    var decision := ProcessBlockActions(t1, BlockActions([press], responseUrl));
    var t2 := Apply(t1, decision.effects);
    && decision.outcome == Done
    && k in t2 && t2[k].status == Some(press.value)
    && var t3 := Apply(t2, ProcessRecord(cfg, RecordOf(Modify, vacationId, t2[k])).effects);
      && (press.value == APPROVED ==> k in t3 && t3[k].status == Some(APPROVED))
      && (press.value == DECLINED ==> k !in t3)
  }

  /** The decision stage on a stored PENDING vacation: the prompt's button sets the status, and the MODIFY settles it. */
  lemma DecisionOnBooked(t1: Table, cfg: ReactorConfig, userId: string, username: string,
                         start: Day, end: Day, vacationId: string, button: nat, responseUrl: string)
    requires userId != "" && responseUrl != ""
    requires cfg.notificationsChannel.Some? ==> cfg.notificationsChannel.value != ""
    requires button < 2
    requires VacationKey(userId, vacationId) in t1
    requires t1[VacationKey(userId, vacationId)] == VacationItem(userId, vacationId, username, start, end, PENDING)
    ensures DecisionSettles(t1, cfg, userId, start, end, vacationId, button, responseUrl)
  {
    var k := VacationKey(userId, vacationId);
    var prompt := ApprovalPrompt(cfg.nameOf(userId), start, end, GenerateBlockIdForVacationDecision(userId, vacationId))[4];
    var press := Action(prompt.buttons[button].actionId, prompt.blockId, prompt.buttons[button].value);
    var payload := BlockActions([press], responseUrl);
    PendingDecisionApplied(t1, payload);
    var t2 := t1[k := t1[k].(status := Some(press.value))];
    assert press.value in {APPROVED, DECLINED};
    DecidedModify(t2, cfg, userId, vacationId);
  }

  /** With a decision maker, the prompt the INSERT sends for a stored PENDING vacation carries the buttons that settle it. */
  lemma PromptThenDecision(t1: Table, cfg: ReactorConfig, userId: string, username: string,
                           start: Day, end: Day, vacationId: string, button: nat, responseUrl: string)
    requires userId != "" && responseUrl != ""
    requires cfg.decisionMaker.Some? && cfg.decisionMaker.value != ""
    requires cfg.notificationsChannel.Some? ==> cfg.notificationsChannel.value != ""
    requires button < 2
    requires VacationKey(userId, vacationId) in t1
    requires t1[VacationKey(userId, vacationId)] == VacationItem(userId, vacationId, username, start, end, PENDING)
    ensures var prompt := ApprovalPrompt(cfg.nameOf(userId), start, end, GenerateBlockIdForVacationDecision(userId, vacationId))[4];
      && ProcessRecord(cfg, RecordOf(Insert, vacationId, t1[VacationKey(userId, vacationId)])).effects[1].delivery.blocks[4] == prompt
      && DecisionSettles(t1, cfg, userId, start, end, vacationId, button, responseUrl)
  {
    PromptAfterBooking(t1, cfg, userId, vacationId);
    DecisionOnBooked(t1, cfg, userId, username, start, end, vacationId, button, responseUrl);
  }

  /**
   * With a decision maker: pressing either button of the prompt on the freshly booked
   * vacation stores that status, and the MODIFY then keeps an approved vacation and
   * deletes a declined one.
   */
  lemma {:induction false} DecisionEndToEnd(t: Table, cfg: ReactorConfig, userId: string, username: string,
                                            start: Day, end: Day, vacationId: string, button: nat, responseUrl: string)
    requires userId != "" && responseUrl != ""
    requires cfg.decisionMaker.Some? && cfg.decisionMaker.value != ""
    requires cfg.notificationsChannel.Some? ==> cfg.notificationsChannel.value != ""
    requires button < 2
    requires SaveVacation(t, userId, username, start, end, PENDING, vacationId).result.Success?
    ensures var t1 := SaveVacation(t, userId, username, start, end, PENDING, vacationId).table;
      var k := VacationKey(userId, vacationId);
      var prompt := ApprovalPrompt(cfg.nameOf(userId), start, end, GenerateBlockIdForVacationDecision(userId, vacationId))[4];
      && k in t1
      && ProcessRecord(cfg, RecordOf(Insert, vacationId, t1[k])).effects[1].delivery.blocks[4] == prompt
      && DecisionSettles(t1, cfg, userId, start, end, vacationId, button, responseUrl)
  {
    var t1 := SaveVacation(t, userId, username, start, end, PENDING, vacationId).table;
    GetVacationAfterSave(t, userId, username, start, end, PENDING, vacationId);
    PromptThenDecision(t1, cfg, userId, username, start, end, vacationId, button, responseUrl);
  }

  /** A MODIFY to DECLINED delivered twice: neither delivery raises, and the second delete changes nothing. */
  lemma DeclinedRedeliveryIsHarmless(t: Table, cfg: ReactorConfig, rec: StreamRecord)
    requires StartsWith(rec.sk, VACATION_PREFIX) && rec.eventName == Modify
    requires Complete(rec.newImage) && rec.newImage.status == Some(DECLINED)
    ensures var effects := ProcessRecord(cfg, rec).effects;
      && ProcessRecord(cfg, rec).outcome == Done
      && Apply(Apply(t, effects), effects) == Apply(t, effects)
      && VacationKey(rec.newImage.userId.value, rec.newImage.vacationId.value) !in Apply(t, effects)
  {
    ModifyToDeclined(cfg, rec);
    var u := rec.newImage.userId.value;
    var v := rec.newImage.vacationId.value;
    ApplyTwo(t, DeleteItem(u, v), RequesterNotice(rec.newImage));
    ApplyTwo(DeleteVacation(t, u, v), DeleteItem(u, v), RequesterNotice(rec.newImage));
  }

  const PROCESS_VACATIONS: string := "process_vacations"

  /**
   * The wrapped batch: a failure on record k keeps the effects of records 0..k, skips the
   * rest, sends one health report naming the function and the error, and answers 200.
   */
  lemma WrappedBatchFailure(cfg: ReactorConfig, healthChannel: string, records: seq<StreamRecord>, k: nat)
    requires healthChannel != ""
    requires k < |records|
    requires forall i :: 0 <= i < k ==> ProcessRecord(cfg, records[i]).outcome.Returned?
    requires ProcessRecord(cfg, records[k]).outcome.Raised?
    ensures var failed := ProcessRecord(cfg, records[k]);
      UncaughtExceptionsHandler(PROCESS_VACATIONS, healthChannel, ProcessVacations(cfg, records)) ==
      Run(Concat(cfg, records[..k]) + failed.effects
          + [Post(ToChannel(healthChannel, [Section(LambdaError(PROCESS_VACATIONS, failed.outcome.error))]))],
          Returned(StatusCode(HTTP_OK)))
  {
    BatchStopsAtFirstFailure(cfg, records, k);
  }

  /** The wrapped batch without failures: every record's effects in order and the batch's own `None`. */
  lemma WrappedBatchSuccess(cfg: ReactorConfig, healthChannel: string, records: seq<StreamRecord>)
    requires forall i :: 0 <= i < |records| ==> ProcessRecord(cfg, records[i]).outcome.Returned?
    ensures UncaughtExceptionsHandler(PROCESS_VACATIONS, healthChannel, ProcessVacations(cfg, records)) ==
      Run(Concat(cfg, records), Done)
  {
    BatchInDeliveryOrder(cfg, records);
  }
}
