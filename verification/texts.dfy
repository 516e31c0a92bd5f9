/**
 * The messages the handlers send, by what they say rather than how they are
 * formatted: every text in the handlers is a non-empty f-string.
 */
module Texts {
  import opened Dates
  import opened Errors
  import opened WorkingDays

  /** One numbered line of a vacation report. */
  datatype ReportLine = ReportLine(index: nat, start: Day, end: Day, workingDays: nat)

  datatype Text =
      /** To the requester when a vacation goes to the decision maker. */
    | SentForApproval
      /** First section of the approval prompt: who asks. */
    | BookingRequest(requesterName: string)
      /** Third section of the approval prompt: which dates. */
    | DateRange(start: Day, end: Day)
      /** To the notifications channel when a vacation is approved, with the season's emoji set. */
    | TeamAnnouncement(requesterName: string, start: Day, end: Day, emoji: string)
      /** To the requester when the status changes: the status and its closing remark. */
    | StatusNotice(start: Day, end: Day, status: string, remark: string)
      /** To the decision's response URL. */
    | DecisionConfirmation(username: string, status: string)
      /** To the submitter of a booking the validator rejected. */
    | NotBooked(reason: ValidationReason)
    | NoBookedVacations(username: string)
    | BookedVacations(username: string, lines: seq<ReportLine>, total: int, byYear: Tally)
      /** The health-channel report: the function name and the error. */
    | LambdaError(lambdaName: string, error: Exception)
}
