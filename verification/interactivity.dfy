/**
 * process_interactivities: decisions from the approval prompt, booking submissions,
 * and the report of a user's booked vacations.
 */
module Interactivity {
  import opened Wrappers
  import opened Errors
  import opened Dates
  import opened Store
  import opened WorkingDays
  import opened Texts
  import opened Messages
  import opened Effects
  import opened Reactor

  // ---- decisions (block actions) ----

  /** A pressed button: its action id, the decoded block id of its block, and its value. */
  datatype Action = Action(actionId: string, blockId: BlockId, value: string)

  datatype BlockActions = BlockActions(actions: seq<Action>, responseUrl: string)

  /**
   * process_block_actions: only the first action counts; anything but an approve or
   * decline of a vacation decision is ignored; a decision is honoured only while the
   * stored status is PENDING.
   */
  function ProcessBlockActions(t: Table, payload: BlockActions): Run
  {
    if payload.actions == [] then Run([], Raised(IndexError))
    else
      var a := payload.actions[0];
      if a.actionId != APPROVE_ACTION && a.actionId != DECLINE_ACTION then Run([], Done)
      else if a.blockId.event != VACATION_DECISION then Run([], Done)
      else
        var userId := a.blockId.userId;
        var vacationId := a.blockId.vacationId;
        match GetVacation(t, userId, vacationId)
        case Failure(x) => Run([], Raised(x))
        case Success(item) =>
          match item.status
          case None => Run([], Raised(KeyError(STATUS)))
          case Some(status) =>
            if status != PENDING then Run([], Done)
            else
              var write := SetStatus(userId, vacationId, a.value);
              match item.username
              case None => Run([write], Raised(KeyError(USERNAME)))
              case Some(username) =>
                Then([write], PostOf(SendMessage(Some(DecisionConfirmation(username, a.value)), [], "", payload.responseUrl)))
  }

  predicate IsDecision(a: Action)
  {
    (a.actionId == APPROVE_ACTION || a.actionId == DECLINE_ACTION) && a.blockId.event == VACATION_DECISION
  }

  /** Other actions are dropped whatever the table holds, so the store is never read. */
  lemma IgnoredActionsTouchNothing(t1: Table, t2: Table, payload: BlockActions)
    requires payload.actions != [] && !IsDecision(payload.actions[0])
    ensures ProcessBlockActions(t1, payload) == Run([], Done)
    ensures ProcessBlockActions(t2, payload) == Run([], Done)
  {
  }

  /** A decision on a vacation that is no longer PENDING writes nothing and sends nothing. */
  lemma StaleDecisionIsNoOp(t: Table, payload: BlockActions)
    requires payload.actions != [] && IsDecision(payload.actions[0])
    requires var b := payload.actions[0].blockId;
      VacationKey(b.userId, b.vacationId) in t &&
      t[VacationKey(b.userId, b.vacationId)].status.Some? &&
      t[VacationKey(b.userId, b.vacationId)].status.value != PENDING
    ensures ProcessBlockActions(t, payload) == Run([], Done)
  {
  }

  /** On PENDING: one write of the button's value, then one confirmation to the response URL. */
  lemma PendingDecisionApplied(t: Table, payload: BlockActions)
    requires payload.actions != [] && IsDecision(payload.actions[0])
    requires payload.responseUrl != ""
    requires var b := payload.actions[0].blockId;
      VacationKey(b.userId, b.vacationId) in t &&
      t[VacationKey(b.userId, b.vacationId)].status == Some(PENDING) &&
      t[VacationKey(b.userId, b.vacationId)].username.Some?
    ensures var a := payload.actions[0]; var k := VacationKey(a.blockId.userId, a.blockId.vacationId);
      var run := ProcessBlockActions(t, payload);
      && run == Run([ SetStatus(a.blockId.userId, a.blockId.vacationId, a.value),
                      Post(ToWebhook(payload.responseUrl, [Section(DecisionConfirmation(t[k].username.value, a.value))])) ],
                    Done)
      && Apply(t, run.effects) == t[k := t[k].(status := Some(a.value))]
  {
    var run := ProcessBlockActions(t, payload);
    ApplyPostsOnlyAfterWrite(t, run.effects);
  }

  /** Deciding twice: after the first decision is applied, a second one on the same vacation does nothing. */
  lemma {:induction false} RepeatedDecisionIsNoOp(t: Table, first: BlockActions, second: BlockActions)
    requires first.actions != [] && IsDecision(first.actions[0]) && first.actions[0].value != PENDING
    requires var b := first.actions[0].blockId;
      VacationKey(b.userId, b.vacationId) in t && t[VacationKey(b.userId, b.vacationId)].status.Some?
    requires second.actions != [] && IsDecision(second.actions[0])
    requires second.actions[0].blockId == first.actions[0].blockId
    ensures var t' := Apply(t, ProcessBlockActions(t, first).effects);
      ProcessBlockActions(t', second) == Run([], Done)
  {
    var a := first.actions[0];
    var k := VacationKey(a.blockId.userId, a.blockId.vacationId);
    var run := ProcessBlockActions(t, first);
    if t[k].status.value == PENDING {
      assert run.effects[0] == SetStatus(a.blockId.userId, a.blockId.vacationId, a.value);
      assert NoStoreWrites(run.effects[1..]);
      ApplyPostsOnlyAfterWrite(t, run.effects);
    } else {
      assert run.effects == [];
    }
  }

  lemma ApplyPostsOnlyAfterWrite(t: Table, effects: seq<Effect>)
    requires effects != [] && effects[0].SetStatus?
    requires NoStoreWrites(effects[1..])
    ensures Apply(t, effects) == UpdateVacationStatus(t, effects[0].userId, effects[0].vacationId, effects[0].status)
  {
    ApplyPostsOnly(UpdateVacationStatus(t, effects[0].userId, effects[0].vacationId, effects[0].status), effects[1..]);
  }

  /** Pressing either button of the reactor's prompt on a PENDING vacation sets that button's status. */
  lemma PromptButtonsDecide(t: Table, name: string, start: Day, end: Day, userId: string, vacationId: string,
                            i: nat, responseUrl: string)
    requires var blocks := ApprovalPrompt(name, start, end, GenerateBlockIdForVacationDecision(userId, vacationId));
      i < |blocks[4].buttons|
    requires responseUrl != ""
    requires VacationKey(userId, vacationId) in t
    requires t[VacationKey(userId, vacationId)].status == Some(PENDING) && t[VacationKey(userId, vacationId)].username.Some?
    ensures var blocks := ApprovalPrompt(name, start, end, GenerateBlockIdForVacationDecision(userId, vacationId));
      var button := blocks[4].buttons[i];
      var payload := BlockActions([Action(button.actionId, blocks[4].blockId, button.value)], responseUrl);
      && button.value in {APPROVED, DECLINED}
      && ProcessBlockActions(t, payload).effects[0] == SetStatus(userId, vacationId, button.value)
      && ProcessBlockActions(t, payload).outcome == Done
  {
    var blocks := ApprovalPrompt(name, start, end, GenerateBlockIdForVacationDecision(userId, vacationId));
    var button := blocks[4].buttons[i];
    var payload := BlockActions([Action(button.actionId, blocks[4].blockId, button.value)], responseUrl);
    PendingDecisionApplied(t, payload);
  }

  // ---- the vacation report ----

  predicate AllStarted(vs: seq<Item>)
  {
    forall i :: 0 <= i < |vs| ==> vs[i].start.Some?
  }

  predicate SortedByStart(vs: seq<Item>)
    requires AllStarted(vs)
  {
    forall i, j :: 0 <= i < j < |vs| ==> vs[i].start.value <= vs[j].start.value
  }

  /** Insert before the first element that does not start earlier, keeping equal starts in their order. */
  function InsertByStart(x: Item, s: seq<Item>): (r: seq<Item>)
    requires x.start.Some? && AllStarted(s)
    ensures |r| == |s| + 1
    ensures multiset(r) == multiset(s) + multiset{x}
    ensures forall j :: 0 <= j < |r| ==> r[j] == x || r[j] in s
    ensures AllStarted(r)
    decreases |s|
  {
    if s == [] then [x]
    else if x.start.value <= s[0].start.value then [x] + s
    else
      assert s == [s[0]] + s[1..];
      [s[0]] + InsertByStart(x, s[1..])
  }

  lemma {:induction false} InsertByStartSorted(x: Item, s: seq<Item>)
    requires x.start.Some? && AllStarted(s) && SortedByStart(s)
    ensures SortedByStart(InsertByStart(x, s))
    decreases |s|
  {
    if s != [] && x.start.value > s[0].start.value {
      var rest := InsertByStart(x, s[1..]);
      InsertByStartSorted(x, s[1..]);
      var r := InsertByStart(x, s);
      assert r == [s[0]] + rest;
      forall j | 0 <= j < |rest| ensures s[0].start.value <= rest[j].start.value {
        if rest[j] != x {
          var i :| 0 <= i < |s[1..]| && s[1..][i] == rest[j];
          assert s[1..][i] == s[i + 1];
        }
      }
      forall i, j | 0 <= i < j < |r| ensures r[i].start.value <= r[j].start.value {
        if i > 0 {
          assert r[i] == rest[i - 1] && r[j] == rest[j - 1];
        } else {
          assert r[j] == rest[j - 1];
        }
      }
    }
  }

  /** The stable sort by start date of the report. */
  function SortByStart(s: seq<Item>): (r: seq<Item>)
    requires AllStarted(s)
    ensures AllStarted(r) && SortedByStart(r)
    ensures multiset(r) == multiset(s)
    ensures |r| == |s|
    decreases |s|
  {
    if s == [] then []
    else
      assert s == [s[0]] + s[1..];
      var rest := SortByStart(s[1..]);
      InsertByStartSorted(s[0], rest);
      InsertByStart(s[0], rest)
  }

  /** The report's running state: its lines, the running total and the by-year dictionary. */
  datatype Summary = Summary(lines: seq<ReportLine>, total: int, byYear: Tally)

  function SumDays(lines: seq<ReportLine>): int
  {
    if lines == [] then 0 else SumDays(lines[..|lines| - 1]) + lines[|lines| - 1].workingDays
  }

  /** The loop over the sorted vacations: each line counts [start, end) and feeds the dictionary. */
  function Accumulate(cal: Calendar, holidays: iset<Day>, vs: seq<Item>, index: nat, acc: Summary)
    : Result<Summary, Exception>
    requires AllStarted(vs)
    decreases |vs|
  {
    if vs == [] then Success(acc)
    else
      match vs[0].end
      case None => Failure(KeyError(END_DATE))
      case Some(end) =>
        var start := vs[0].start.value;
        var days := CountWorking(holidays, start, end);
        var line := ReportLine(index, start, end, days);
        Accumulate(cal, holidays, vs[1..], index + 1,
                   Summary(acc.lines + [line], acc.total + days, TallyRange(cal, holidays, start, end, acc.byYear)))
  }

  predicate AllDated(vs: seq<Item>)
  {
    forall i :: 0 <= i < |vs| ==> Dated(vs[i])
  }

  /** Line `index + i` reports vacation i; the total and the dictionary's sum grow by the lines' days. */
  lemma {:induction false} AccumulateFacts(cal: Calendar, holidays: iset<Day>, vs: seq<Item>, index: nat, acc: Summary)
    requires AllStarted(vs)
    ensures Accumulate(cal, holidays, vs, index, acc).Success? <==> AllDated(vs)
    ensures var r := Accumulate(cal, holidays, vs, index, acc);
      r.Success? ==>
        && |r.value.lines| == |acc.lines| + |vs|
        && r.value.lines[..|acc.lines|] == acc.lines
        && (forall i :: 0 <= i < |vs| ==>
              r.value.lines[|acc.lines| + i] ==
              ReportLine(index + i, vs[i].start.value, vs[i].end.value,
                         CountWorking(holidays, vs[i].start.value, vs[i].end.value)))
        && r.value.total - acc.total == SumDays(r.value.lines) - SumDays(acc.lines)
        && Total(r.value.byYear) - Total(acc.byYear) == r.value.total - acc.total
    decreases |vs|
  {
    if vs != [] {
      assert forall i :: 0 <= i < |vs[1..]| ==> vs[1..][i] == vs[i + 1];
      if vs[0].end.Some? {
        var start := vs[0].start.value;
        var end := vs[0].end.value;
        var days := CountWorking(holidays, start, end);
        var line := ReportLine(index, start, end, days);
        var acc' := Summary(acc.lines + [line], acc.total + days, TallyRange(cal, holidays, start, end, acc.byYear));
        assert Accumulate(cal, holidays, vs, index, acc) == Accumulate(cal, holidays, vs[1..], index + 1, acc');
        AccumulateFacts(cal, holidays, vs[1..], index + 1, acc');
        TallyRangeFacts(cal, holidays, start, end, acc.byYear);
        assert (acc.lines + [line])[..|acc.lines|] == acc.lines;
        assert SumDays(acc'.lines) == SumDays(acc.lines) + days by {
          assert acc'.lines[..|acc'.lines| - 1] == acc.lines;
        }
        var r := Accumulate(cal, holidays, vs, index, acc);
        if r.Success? {
          assert r.value.lines[..|acc'.lines|] == acc'.lines;
          assert r.value.lines[..|acc.lines|] == acc'.lines[..|acc.lines|];
          assert r.value.lines[|acc.lines|] == acc'.lines[|acc.lines|];
        }
        assert AllDated(vs) <==> AllDated(vs[1..]);
      } else {
        assert !AllDated(vs);
      }
    }
  }

  const SELECTED_USER: string := "Selected user"

  /**
   * send_user_vacations: the selected user's vacations sorted by start date, each with
   * its working days, then the total and the per-year figures, sent to the requester.
   */
  function SendUserVacations(t: Table, cal: Calendar, holidays: iset<Day>, requesterId: string, selectedUser: string): Run
  {
    var user := GetUser(t, selectedUser);
    var name := if user.Some? then Need(user.value.username, USERNAME) else Success(SELECTED_USER);
    match name
    case Failure(x) => Run([], Raised(x))
    case Success(username) =>
      var vs := GetUserVacations(t, selectedUser);
      if vs == [] then
        Then([], PostOf(SendMessage(Some(NoBookedVacations(username)), [], requesterId, "")))
      else if !AllStarted(vs) then Run([], Raised(KeyError(START_DATE)))
      else
        match Accumulate(cal, holidays, SortByStart(vs), 1, Summary([], 0, []))
        case Failure(x) => Run([], Raised(x))
        case Success(s) =>
          Then([], PostOf(SendMessage(Some(BookedVacations(username, s.lines, s.total, s.byYear)), [], requesterId, "")))
  }

  /** The name the report uses: the stored username, or "Selected user" for an unknown user. */
  function ReportName(t: Table, userId: string): string
    requires UserKey(userId) in t ==> t[UserKey(userId)].username.Some?
  {
    if UserKey(userId) in t then t[UserKey(userId)].username.value else SELECTED_USER
  }

  /** The report names a user by what `save_user_to_db` stored, and falls back only for a user never saved. */
  lemma ReportNameAfterSave(t: Table, userId: string, username: string, other: string)
    requires UserKey(other) in t ==> t[UserKey(other)].username.Some?
    requires other != userId
    ensures ReportName(SaveUser(t, userId, username), userId) == username
    ensures ReportName(SaveUser(t, userId, username), other) == ReportName(t, other)
    ensures UserKey(other) !in t ==> ReportName(t, other) == SELECTED_USER
  {
    GetUserAfterOtherSave(t, userId, username, other);
  }

  /** No vacations: the "doesn't have booked vacations" text, and nothing else. */
  lemma NoVacationsReport(t: Table, cal: Calendar, holidays: iset<Day>, requesterId: string, selectedUser: string)
    requires requesterId != ""
    requires UserKey(selectedUser) in t ==> t[UserKey(selectedUser)].username.Some?
    requires GetUserVacations(t, selectedUser) == []
    ensures SendUserVacations(t, cal, holidays, requesterId, selectedUser) ==
      Run([Post(ToChannel(requesterId, [Section(NoBookedVacations(ReportName(t, selectedUser)))]))], Done)
  {
  }

  /** The summary of a report over dated vacations, as `Accumulate` computes it from an empty start. */
  function ReportSummary(cal: Calendar, holidays: iset<Day>, vs: seq<Item>): (s: Summary)
    requires AllDated(vs)
  {
    AccumulateFacts(cal, holidays, vs, 1, Summary([], 0, []));
    Accumulate(cal, holidays, vs, 1, Summary([], 0, [])).value
  }

  /** A summary's lines follow the vacations one for one; its total is the lines' sum and the dictionary's sum. */
  lemma ReportSummaryFacts(cal: Calendar, holidays: iset<Day>, vs: seq<Item>)
    requires AllDated(vs)
    ensures var s := ReportSummary(cal, holidays, vs);
      && |s.lines| == |vs|
      && (forall i :: 0 <= i < |vs| ==>
            s.lines[i] == ReportLine(i + 1, vs[i].start.value, vs[i].end.value,
                                     CountWorking(holidays, vs[i].start.value, vs[i].end.value)))
      && s.total == SumDays(s.lines)
      && s.total == Total(s.byYear)
  {
    AccumulateFacts(cal, holidays, vs, 1, Summary([], 0, []));
    var s := ReportSummary(cal, holidays, vs);
    forall i | 0 <= i < |vs|
      ensures s.lines[i] == ReportLine(i + 1, vs[i].start.value, vs[i].end.value,
                                       CountWorking(holidays, vs[i].start.value, vs[i].end.value))
    {
      assert s.lines[0 + i] == s.lines[i];
    }
  }

  lemma SortedDated(vs: seq<Item>)
    requires AllDated(vs)
    ensures AllDated(SortByStart(vs))
  {
    var sorted := SortByStart(vs);
    forall i | 0 <= i < |sorted| ensures Dated(sorted[i]) {
      assert sorted[i] in multiset(vs);
    }
  }

  /** With dated vacations, the handler sends the report built from the sorted vacations, and nothing else. */
  lemma VacationsReportRun(t: Table, cal: Calendar, holidays: iset<Day>, requesterId: string, selectedUser: string)
    requires requesterId != ""
    requires UserKey(selectedUser) in t ==> t[UserKey(selectedUser)].username.Some?
    requires GetUserVacations(t, selectedUser) != [] && AllDated(GetUserVacations(t, selectedUser))
    ensures AllDated(SortByStart(GetUserVacations(t, selectedUser)))
    ensures var s := ReportSummary(cal, holidays, SortByStart(GetUserVacations(t, selectedUser)));
      SendUserVacations(t, cal, holidays, requesterId, selectedUser) ==
      Run([Post(ToChannel(requesterId, [Section(BookedVacations(ReportName(t, selectedUser), s.lines, s.total, s.byYear))]))], Done)
  {
    var vs := GetUserVacations(t, selectedUser);
    SortedDated(vs);
    assert AllStarted(vs);
    AccumulateFacts(cal, holidays, SortByStart(vs), 1, Summary([], 0, []));
    assert Accumulate(cal, holidays, SortByStart(vs), 1, Summary([], 0, [])).Success?;
    var s := ReportSummary(cal, holidays, SortByStart(vs));
    assert Accumulate(cal, holidays, SortByStart(vs), 1, Summary([], 0, [])) == Success(s);
    TextToChannel(BookedVacations(ReportName(t, selectedUser), s.lines, s.total, s.byYear), requesterId);
  }

  /**
   * A report text describes the vacations vs for `name`: one line per vacation of vs in ascending
   * start order (the sort is a permutation of vs), each with its dates, its number from 1 and its
   * working days, and a total equal both to the sum of the lines and to the sum of the per-year figures.
   */
  ghost predicate DescribesVacations(text: Text, name: string, vs: seq<Item>, holidays: iset<Day>)
    requires AllDated(vs)
  {
    assert AllStarted(vs);
    var sorted := SortByStart(vs);
    && text.BookedVacations? && text.username == name
    && |text.lines| == |vs|
    && multiset(sorted) == multiset(vs)
    && AllDated(sorted)
    && (forall i :: 0 <= i < |text.lines| ==>
          text.lines[i].start == sorted[i].start.value && text.lines[i].end == sorted[i].end.value)
    && (forall i, j :: 0 <= i < j < |text.lines| ==> text.lines[i].start <= text.lines[j].start)
    && (forall i :: 0 <= i < |text.lines| ==>
          text.lines[i].index == i + 1 &&
          text.lines[i].workingDays == CountWorking(holidays, text.lines[i].start, text.lines[i].end))
    && text.total == SumDays(text.lines)
    && text.total == Total(text.byYear)
  }

  /** The summary built from the sorted vacations yields a text that describes them. */
  lemma SummaryDescribesVacations(cal: Calendar, holidays: iset<Day>, vs: seq<Item>, name: string)
    requires AllDated(vs)
    ensures AllStarted(vs) && AllDated(SortByStart(vs))
    ensures var s := ReportSummary(cal, holidays, SortByStart(vs));
      DescribesVacations(BookedVacations(name, s.lines, s.total, s.byYear), name, vs, holidays)
  {
    assert AllStarted(vs);
    var sorted := SortByStart(vs);
    SortedDated(vs);
    ReportSummaryFacts(cal, holidays, sorted);
    var s := ReportSummary(cal, holidays, sorted);
    forall i, j | 0 <= i < j < |s.lines| ensures s.lines[i].start <= s.lines[j].start {
      assert s.lines[i].start == sorted[i].start.value;
      assert s.lines[j].start == sorted[j].start.value;
    }
  }

  /**
   * With dated vacations, one report goes to the requester, and its text describes the
   * selected user's vacations under the stored name (or "Selected user").
   */
  lemma VacationsReport(t: Table, cal: Calendar, holidays: iset<Day>, requesterId: string, selectedUser: string)
    requires requesterId != ""
    requires UserKey(selectedUser) in t ==> t[UserKey(selectedUser)].username.Some?
    requires GetUserVacations(t, selectedUser) != [] && AllDated(GetUserVacations(t, selectedUser))
    ensures var run := SendUserVacations(t, cal, holidays, requesterId, selectedUser);
      && run.outcome == Done && |run.effects| == 1
      && run.effects[0].Post? && run.effects[0].delivery == ToChannel(requesterId, run.effects[0].delivery.blocks)
      && |run.effects[0].delivery.blocks| == 1 && run.effects[0].delivery.blocks[0].Section?
      && DescribesVacations(run.effects[0].delivery.blocks[0].text, ReportName(t, selectedUser),
                            GetUserVacations(t, selectedUser), holidays)
  {
    var vs := GetUserVacations(t, selectedUser);
    VacationsReportRun(t, cal, holidays, requesterId, selectedUser);
    SummaryDescribesVacations(cal, holidays, vs, ReportName(t, selectedUser));
  }

  // ---- view submissions ----

  datatype ViewSubmission =
    | BookVacationView(userId: string, username: string, start: Day, end: Day)
    | SeeUserVacationsView(requesterId: string, selectedUser: string)
    | OtherView

  /** The table after the handler, and what it did. */
  datatype Step = Step(table: Table, run: Run)

  /**
   * process_view_submission: a booking saves a PENDING vacation under the fresh id and turns a
   * validation error into a message to the submitter; other errors escape.
   */
  function ProcessViewSubmission(t: Table, cal: Calendar, holidays: iset<Day>, view: ViewSubmission, freshId: string): Step
  {
    match view
    case BookVacationView(userId, username, start, end) =>
      var saved := SaveVacation(t, userId, username, start, end, PENDING, freshId);
      (match saved.result
       case Success(_) => Step(saved.table, Run([], Done))
       case Failure(ValidationError(reason)) =>
         Step(saved.table, Then([], PostOf(SendMessage(Some(NotBooked(reason)), [], userId, ""))))
       case Failure(other) => Step(saved.table, Run([], Raised(other))))
    case SeeUserVacationsView(requesterId, selectedUser) =>
      Step(t, SendUserVacations(t, cal, holidays, requesterId, selectedUser))
    case OtherView => Step(t, Run([], Done))
  }

  /** A rejected booking becomes one message to the submitter, not an exception; only the user record is written. */
  lemma RejectedBookingNotifiesSubmitter(t: Table, cal: Calendar, holidays: iset<Day>, userId: string, username: string,
                                         start: Day, end: Day, freshId: string)
    requires userId != ""
    requires SaveVacation(t, userId, username, start, end, PENDING, freshId).result.Failure?
    requires SaveVacation(t, userId, username, start, end, PENDING, freshId).result.error.ValidationError?
    ensures var step := ProcessViewSubmission(t, cal, holidays, BookVacationView(userId, username, start, end), freshId);
      var reason := SaveVacation(t, userId, username, start, end, PENDING, freshId).result.error.reason;
      && step.run == Run([Post(ToChannel(userId, [Section(NotBooked(reason))]))], Done)
      && step.table == SaveUser(t, userId, username)
  {
    var reason := SaveVacation(t, userId, username, start, end, PENDING, freshId).result.error.reason;
    TextToChannel(NotBooked(reason), userId);
  }

  /** An accepted booking is stored PENDING under the fresh id, with nothing sent. */
  lemma AcceptedBookingIsPending(t: Table, cal: Calendar, holidays: iset<Day>, userId: string, username: string,
                                 start: Day, end: Day, freshId: string)
    requires SaveVacation(t, userId, username, start, end, PENDING, freshId).result.Success?
    ensures var step := ProcessViewSubmission(t, cal, holidays, BookVacationView(userId, username, start, end), freshId);
      && step.run == Run([], Done)
      && step.table[VacationKey(userId, freshId)] == VacationItem(userId, freshId, username, start, end, PENDING)
  {
  }
}
