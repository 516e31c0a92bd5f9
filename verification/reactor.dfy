/**
 * process_vacations: the change-feed consumer. Each vacation record of a batch is
 * turned, in delivery order, into messages and store writes.
 */
module Reactor {
  import opened Wrappers
  import opened Errors
  import opened Dates
  import opened Strings
  import opened Store
  import opened Texts
  import opened Messages
  import opened Effects

  datatype Season = Winter | Spring | Summer | Autumn

  /** SeasonEmojiSet */
  function SeasonEmoji(s: Season): string
  {
    match s
    case Summer => ":palm_tree::airplane::sun_with_face::umbrella_on_ground:"
    case Autumn => ":maple_leaf::jack_o_lantern::coffee::fallen_leaf:"
    case Winter => ":snowboarder::skin-tone-2::christmas_tree::snowman::snowflake:"
    case Spring => ":bouquet::sun_with_face::strawberry::blossom:"
  }

  /** The season of a start month, by the cascade of month comparisons in the source. */
  function SeasonOfMonth(month: Month): (s: Season)
    ensures s == Winter <==> month in {12, 1, 2}
    ensures s == Spring <==> month in {3, 4, 5}
    ensures s == Summer <==> month in {6, 7, 8}
    ensures s == Autumn <==> month in {9, 10, 11}
  {
    if month < 3 || month == 12 then Winter
    else if month < 6 then Spring
    else if month < 9 then Summer
    else Autumn
  }

  /** generate_emoji_set_by_season */
  function GenerateEmojiSetBySeason(cal: Calendar, start: Day): string
  {
    SeasonEmoji(SeasonOfMonth(cal.monthOf(start)))
  }

  const VACATION_DECISION: string := "vacation_decision"
  const APPROVE_ACTION: string := "approve_vacation"
  const DECLINE_ACTION: string := "decline_vacation"

  /** generate_block_id_for_vacation_decision */
  function GenerateBlockIdForVacationDecision(userId: string, vacationId: string): BlockId
  {
    BlockId(VACATION_DECISION, userId, vacationId)
  }

  /** VACATION_STATUSES_RESPONSES_MAPPING, as a lookup that finds nothing for other statuses. */
  function StatusResponse(status: string): (r: Option<string>)
    ensures r.Some? <==> status == APPROVED || status == DECLINED
  {
    if status == DECLINED then Some(":neutral_face:. Contact your manager to get more information.")
    else if status == APPROVED then Some(":tada:. Have a good rest!")
    else None
  }

  datatype EventName = Insert | Modify | Remove

  /** One change-feed record: its kind, the item's sort key and its new image (no attributes when absent). */
  datatype StreamRecord = StreamRecord(eventName: EventName, sk: string, newImage: Item)

  /**
   * What the reactor reads besides the record: the configured decision maker and
   * notifications channel (absent when not configured), the chat user-name lookup,
   * and the calendar.
   */
  datatype ReactorConfig = ReactorConfig(
    decisionMaker: Option<string>,
    notificationsChannel: Option<string>,
    nameOf: string -> string,
    calendar: Calendar)

  /** The five blocks of the approval prompt: who, divider, dates, divider, the two buttons. */
  function ApprovalPrompt(requesterName: string, start: Day, end: Day, blockId: BlockId): seq<Block>
  {
    [ Section(BookingRequest(requesterName)),
      Divider,
      Section(DateRange(start, end)),
      Divider,
      Actions(blockId, [Button(APPROVE_ACTION, APPROVED), Button(DECLINE_ACTION, DECLINED)]) ]
  }

  /** notify_team_about_approved_vacation */
  function NotifyTeam(cfg: ReactorConfig, img: Item, channel: string): Result<Effect, Exception>
  {
    var start :- Need(img.start, START_DATE);
    var end :- Need(img.end, END_DATE);
    var userId :- Need(img.userId, USER_ID);
    var text := TeamAnnouncement(cfg.nameOf(userId), start, end, GenerateEmojiSetBySeason(cfg.calendar, start));
    var d :- SendMessage(Some(text), [], channel, "");
    Success(Post(d))
  }

  /** notify_requester_about_new_vacation_status */
  function NotifyRequester(img: Item): Result<Effect, Exception>
  {
    var start :- Need(img.start, START_DATE);
    var end :- Need(img.end, END_DATE);
    var status :- Need(img.status, STATUS);
    var remark :- Need(StatusResponse(status), status);
    var userId :- Need(img.userId, USER_ID);
    var d :- SendMessage(Some(StatusNotice(start, end, status, remark)), [], userId, "");
    Success(Post(d))
  }

  /** send_vacation_for_approvement */
  function SendForApproval(cfg: ReactorConfig, img: Item, decisionMaker: string): Result<Effect, Exception>
  {
    var start :- Need(img.start, START_DATE);
    var end :- Need(img.end, END_DATE);
    var userId :- Need(img.userId, USER_ID);
    var vacationId :- Need(img.vacationId, VACATION_ID);
    var blocks := ApprovalPrompt(cfg.nameOf(userId), start, end, GenerateBlockIdForVacationDecision(userId, vacationId));
    var d :- SendMessage(None, blocks, decisionMaker, "");
    Success(Post(d))
  }

  /** The declined vacation's own key is deleted. */
  function DeleteDeclined(img: Item): Result<Effect, Exception>
  {
    var userId :- Need(img.userId, USER_ID);
    var vacationId :- Need(img.vacationId, VACATION_ID);
    Success(DeleteItem(userId, vacationId))
  }

  /** A step that performs one effect, as a list of zero-or-one effects. */
  function OneStep(r: Result<Effect, Exception>): Result<seq<Effect>, Exception>
  {
    match r
    case Success(e) => Success([e])
    case Failure(x) => Failure(x)
  }

  /** A MODIFY: approved with a channel → team post; declined → delete; then always the requester. */
  function ProcessModify(cfg: ReactorConfig, img: Item): Run
  {
    match img.status
    case None => Run([], Raised(KeyError(STATUS)))
    case Some(status) =>
      var first :=
        if status == APPROVED && cfg.notificationsChannel.Some? then OneStep(NotifyTeam(cfg, img, cfg.notificationsChannel.value))
        else if status == DECLINED then OneStep(DeleteDeclined(img))
        else Success([]);
      match first
      case Failure(x) => Run([], Raised(x))
      case Success(prior) => Then(prior, NotifyRequester(img))
  }

  /** An INSERT: with a decision maker, two messages; without one, auto-approval. */
  function ProcessInsert(cfg: ReactorConfig, img: Item): Run
  {
    match img.userId
    case None => Run([], Raised(KeyError(USER_ID)))
    case Some(userId) =>
      match cfg.decisionMaker
      case Some(decisionMaker) =>
        (match SendMessage(Some(SentForApproval), [], userId, "")
         case Failure(x) => Run([], Raised(x))
         case Success(d) => Then([Post(d)], SendForApproval(cfg, img, decisionMaker)))
      case None =>
        match img.vacationId
        case None => Run([], Raised(KeyError(VACATION_ID)))
        case Some(vacationId) => Run([SetStatus(userId, vacationId, APPROVED)], Done)
  }

  const VACATION_PREFIX: string := VACATION + "#"

  /** One record of the batch. */
  function ProcessRecord(cfg: ReactorConfig, rec: StreamRecord): Run
  {
    if !StartsWith(rec.sk, VACATION_PREFIX) then Run([], Done)
    else
      match rec.eventName
      case Modify => ProcessModify(cfg, rec.newImage)
      case Insert => ProcessInsert(cfg, rec.newImage)
      case Remove => Run([], Done)
  }

  /** The records in delivery order; the first one that raises ends the batch. */
  function ProcessVacations(cfg: ReactorConfig, records: seq<StreamRecord>): Run
    decreases |records|
  {
    if records == [] then Run([], Done)
    else
      var head := ProcessRecord(cfg, records[0]);
      if head.outcome.Raised? then head
      else
        var rest := ProcessVacations(cfg, records[1..]);
        Run(head.effects + rest.effects, rest.outcome)
  }

  /** The effects of the records one after another. */
  function Concat(cfg: ReactorConfig, records: seq<StreamRecord>): seq<Effect>
    decreases |records|
  {
    if records == [] then [] else ProcessRecord(cfg, records[0]).effects + Concat(cfg, records[1..])
  }

  // ---- properties ----

  /** Every month of the year has exactly one season, and each season has three months. */
  lemma SeasonsCoverYear()
    ensures forall m: Month :: SeasonOfMonth(m) in {Winter, Spring, Summer, Autumn}
    ensures (set m: Month | SeasonOfMonth(m) == Winter) == {12, 1, 2}
    ensures (set m: Month | SeasonOfMonth(m) == Spring) == {3, 4, 5}
    ensures (set m: Month | SeasonOfMonth(m) == Summer) == {6, 7, 8}
    ensures (set m: Month | SeasonOfMonth(m) == Autumn) == {9, 10, 11}
  {
  }

  /** A vacation image with every attribute the reactor reads. */
  predicate Complete(img: Item)
  {
    img.userId.Some? && img.vacationId.Some? && img.start.Some? && img.end.Some? && img.status.Some?
    && img.userId.value != ""
  }

  function RemarkFor(status: string): string
  {
    match StatusResponse(status)
    case Some(remark) => remark
    case None => ""
  }

  /** The requester's outcome message for a complete image with the given status. */
  function RequesterNotice(img: Item): Effect
    requires Complete(img)
  {
    Post(ToChannel(img.userId.value, [Section(StatusNotice(img.start.value, img.end.value, img.status.value,
                                                           RemarkFor(img.status.value)))]))
  }

  lemma {:induction false} NonVacationRecordsIgnored(cfg: ReactorConfig, rec: StreamRecord)
    requires !StartsWith(rec.sk, VACATION_PREFIX)
    ensures ProcessRecord(cfg, rec) == Run([], Done)
  {
  }

  lemma RemoveIgnored(cfg: ReactorConfig, rec: StreamRecord)
    requires rec.eventName == Remove
    ensures ProcessRecord(cfg, rec) == Run([], Done)
  {
  }

  /** INSERT with a decision maker: "sent for approval" to the requester, then the prompt, and no write. */
  lemma InsertWithDecisionMaker(cfg: ReactorConfig, rec: StreamRecord)
    requires StartsWith(rec.sk, VACATION_PREFIX) && rec.eventName == Insert
    requires Complete(rec.newImage)
    requires cfg.decisionMaker.Some? && cfg.decisionMaker.value != ""
    ensures var img := rec.newImage; var u := img.userId.value;
      ProcessRecord(cfg, rec) == Run(
        [ Post(ToChannel(u, [Section(SentForApproval)])),
          Post(ToChannel(cfg.decisionMaker.value,
                         ApprovalPrompt(cfg.nameOf(u), img.start.value, img.end.value,
                                        BlockId(VACATION_DECISION, u, img.vacationId.value)))) ],
        Done)
    ensures NoStoreWrites(ProcessRecord(cfg, rec).effects)
  {
    TextToChannel(SentForApproval, rec.newImage.userId.value);
  }

  /** INSERT without a decision maker: one status write to APPROVED and no message. */
  lemma InsertWithoutDecisionMaker(cfg: ReactorConfig, rec: StreamRecord)
    requires StartsWith(rec.sk, VACATION_PREFIX) && rec.eventName == Insert
    requires rec.newImage.userId.Some? && rec.newImage.vacationId.Some?
    requires cfg.decisionMaker.None?
    ensures ProcessRecord(cfg, rec) ==
      Run([SetStatus(rec.newImage.userId.value, rec.newImage.vacationId.value, APPROVED)], Done)
  {
  }

  /** MODIFY to APPROVED: the team post exactly when a channel is configured, then the requester; no write. */
  lemma ModifyToApproved(cfg: ReactorConfig, rec: StreamRecord)
    requires StartsWith(rec.sk, VACATION_PREFIX) && rec.eventName == Modify
    requires Complete(rec.newImage) && rec.newImage.status == Some(APPROVED)
    requires cfg.notificationsChannel.Some? ==> cfg.notificationsChannel.value != ""
    ensures var img := rec.newImage;
      ProcessRecord(cfg, rec) == Run(
        (if cfg.notificationsChannel.Some? then
          [Post(ToChannel(cfg.notificationsChannel.value,
                          [Section(TeamAnnouncement(cfg.nameOf(img.userId.value), img.start.value, img.end.value,
                                                    GenerateEmojiSetBySeason(cfg.calendar, img.start.value)))]))]
         else [])
        + [RequesterNotice(img)],
        Done)
    ensures NoStoreWrites(ProcessRecord(cfg, rec).effects)
  {
    var img := rec.newImage;
    TextToChannel(StatusNotice(img.start.value, img.end.value, APPROVED, StatusResponse(APPROVED).value), img.userId.value);
    if cfg.notificationsChannel.Some? {
      var text := TeamAnnouncement(cfg.nameOf(img.userId.value), img.start.value, img.end.value,
                                   GenerateEmojiSetBySeason(cfg.calendar, img.start.value));
      TextToChannel(text, cfg.notificationsChannel.value);
    }
  }

  /** MODIFY to DECLINED: delete the vacation, then tell the requester; the team hears nothing. */
  lemma ModifyToDeclined(cfg: ReactorConfig, rec: StreamRecord)
    requires StartsWith(rec.sk, VACATION_PREFIX) && rec.eventName == Modify
    requires Complete(rec.newImage) && rec.newImage.status == Some(DECLINED)
    ensures ProcessRecord(cfg, rec) ==
      Run([DeleteItem(rec.newImage.userId.value, rec.newImage.vacationId.value), RequesterNotice(rec.newImage)], Done)
  {
    var img := rec.newImage;
    TextToChannel(StatusNotice(img.start.value, img.end.value, DECLINED, StatusResponse(DECLINED).value), img.userId.value);
  }

  /** MODIFY carrying any other status fails the outcome lookup with nothing done. */
  lemma ModifyToOtherStatusFails(cfg: ReactorConfig, rec: StreamRecord)
    requires StartsWith(rec.sk, VACATION_PREFIX) && rec.eventName == Modify
    requires rec.newImage.start.Some? && rec.newImage.end.Some? && rec.newImage.status.Some?
    requires rec.newImage.status.value != APPROVED && rec.newImage.status.value != DECLINED
    ensures ProcessRecord(cfg, rec) == Run([], Raised(KeyError(rec.newImage.status.value)))
  {
  }

  /** When no record raises, the batch performs each record's effects in delivery order and returns None. */
  lemma {:induction false} BatchInDeliveryOrder(cfg: ReactorConfig, records: seq<StreamRecord>)
    requires forall i :: 0 <= i < |records| ==> ProcessRecord(cfg, records[i]).outcome.Returned?
    ensures ProcessVacations(cfg, records) == Run(Concat(cfg, records), Done)
    decreases |records|
  {
    if records != [] {
      assert forall i :: 0 <= i < |records[1..]| ==> records[1..][i] == records[i + 1];
      BatchInDeliveryOrder(cfg, records[1..]);
      assert ProcessRecord(cfg, records[0]).outcome == Done;
    }
  }

  /** The first record that raises ends the batch: later records contribute nothing. */
  lemma {:induction false} BatchStopsAtFirstFailure(cfg: ReactorConfig, records: seq<StreamRecord>, k: nat)
    requires k < |records|
    requires forall i :: 0 <= i < k ==> ProcessRecord(cfg, records[i]).outcome.Returned?
    requires ProcessRecord(cfg, records[k]).outcome.Raised?
    ensures ProcessVacations(cfg, records) ==
      Run(Concat(cfg, records[..k]) + ProcessRecord(cfg, records[k]).effects, ProcessRecord(cfg, records[k]).outcome)
    decreases k
  {
    if k == 0 {
      assert records[..0] == [];
    } else {
      var tail := records[1..];
      assert forall i :: 0 <= i < |tail| ==> tail[i] == records[i + 1];
      BatchStopsAtFirstFailure(cfg, tail, k - 1);
      assert records[..k][0] == records[0];
      assert records[..k][1..] == tail[..k - 1];
      var head := ProcessRecord(cfg, records[0]);
      assert head.outcome.Returned?;
      assert Concat(cfg, records[..k]) == head.effects + Concat(cfg, tail[..k - 1]);
    }
  }
}
