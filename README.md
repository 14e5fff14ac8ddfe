# Coach outreach: a Dafny model of its selection, sending and bookkeeping rules

The system is a recruiting-outreach tool for a high-school athlete. It keeps one
Google Sheet with a row per college program. Each row has a school, a staff page
URL, and two coaches: the recruiting coordinator (RC) and the offensive-line
coach (OL), each with a name, a Twitter handle, an e-mail address and
follow-up columns. The tool:

- reads that sheet and picks the coaches to e-mail, with one shared
  de-duplication set, merging the two roles into one "dual" entry when both
  have the same address;
- sends the e-mails under a daily quota. It stamps the contacted date, the
  follow-up stage and the next-contact date into the sheet, and marks bad
  addresses or deletes the row when the account is blocked;
- keeps the in-memory trackers of what was sent (`EmailTracker`,
  `AnalyticsTracker`, the Twitter DM tracker);
- sends Twitter direct messages under the same kind of guards;
- keeps a response log with statistics, hot-lead scoring and the
  de-duplication of mailbox replies;
- runs two maintenance scripts. One migrates free-text notes into structured
  columns; the other deletes duplicate school rows.

The model is one Dafny module per source concern. Pure rules are functions,
each paired with lemmas that state what the rule means. Loops are methods
proved against a specification function of the whole run. Objects that the
source updates in place are classes whose methods state their whole new state.

| module (file) | models |
|---|---|
| `Text` (text.dfy) | Python string helpers: `strip`, ASCII `lower`, `in`, `replace`, `split()[-1]`, `int()`, `str()` |
| `Dates` (dates.dfy) | `%m/%d/%Y` parsing and formatting, day arithmetic, date order |
| `EmailRules` (email_rules.dfy) | the nested helpers of `get_coaches_to_email`; `is_single_valid_email`; the error markers of `send_to_coaches` |
| `CoachList` (coach_list.dfy) | the row loop of `get_coaches_to_email` |
| `EmailTracking` (email_tracking.dfy) | `EmailTracker`, `AnalyticsTracker` |
| `Placeholders` (placeholders.dfy) | literal `{key}` substitution shared by both senders |
| `EmailSender` (email_sender.dfy) | `send_to_coaches`, the cells it stamps, `prepare_email` |
| `Sheets` (sheets.dfy) | `SheetsManager`: column map, readers, selectors, writers, stats |
| `DmTracking`, `DmMessage`, `Twitter` (dm_tracker.dfy, dm_message.dfy, twitter.dfy) | `TwitterDMTracker`, `prepare_message`, `send_dm`'s guards and the two DM loops |
| `Responses` (responses.dfy) | `ResponseTracker` and the snippet text rule |
| `Notes` (notes.dfy) | `parse_notes` and `migrate_sheet` |
| `Dedup` (dedup.dfy) | `deduplicate_schools.py` |

Several things are parameters rather than computed: "today" (a `Date`, or an
ISO string for the trackers), "now" timestamps, the outcome of each SMTP send
and each browser DM, the replies read from the mailbox, the days since a
hot lead's last contact, the operator's confirmation answer, and which sheet
writes fail.

## Model

| member | source | states |
|---|---|---|
| Dates.DaysInMonth | outreach/email_sender.py:492 | every month has 28 to 31 days, and 29 exactly for February of a leap year |
| Dates.OnOrBeforeTotal | outreach/email_sender.py:493 | any two dates compare one way or the other, and dates on or before each other are equal |
| Dates.OnOrBeforeTransitive | sheets/manager.py:579 | the due comparison is transitive |
| Dates.NextDay | sheets/manager.py:656 | the next day is a valid date strictly after the given one |
| Dates.NextDayLeast | sheets/manager.py:656 | no valid date lies strictly between a date and its next day |
| Dates.AddDays | sheets/manager.py:656-657 | adding days to a valid date gives a valid date |
| Dates.AddDaysLater | sheets/manager.py:656-657 | the date so reached is on or after the start, and strictly after it when days are added |
| Dates.Pad2 | sheets/manager.py:632 | a two-digit field is two digits with the value it pads |
| Dates.PadYear | sheets/manager.py:632 | a year field is at least four digits, exactly four for years up to 9999 |
| Dates.FormatDate | sheets/manager.py:632 | a formatted date holds no whitespace |
| Dates.MonthField | outreach/email_sender.py:492 | a month field that parses lies in 1..12 |
| Dates.DayField | outreach/email_sender.py:492 | a day field that parses lies in 1..31 |
| Dates.ParseDate | outreach/email_sender.py:492 | a text that parses as month/day/year gives a valid date, and it is at most ten characters with a '/' |
| Dates.Pad2Fields | sheets/manager.py:632 | a padded month parses back as the same month |
| Dates.Pad2Day | sheets/manager.py:632 | a padded day parses back as the same day |
| Dates.PadYearValue | sheets/manager.py:632 | a padded year reads back as the same number |
| Dates.FormatParseRoundTrip | outreach/email_sender.py:851-854 | every valid date up to year 9999, formatted as `%m/%d/%Y`, parses back as that same date |
| Dates.FormatDateStripped | outreach/email_sender.py:492 | stripping a stamped date changes nothing |
| Dates.IsoFormat | outreach/email_sender.py:170-172 | a date's ISO key is `YYYY-MM-DD`, ten characters, for years up to 9999 |
| Dates.IsoFormatInjective | outreach/email_sender.py:170-172 | two dates up to year 9999 share an ISO key exactly when they are the same date |
| EmailRules.FirstMatch | outreach/email_sender.py:409-415 | the column is the first header containing one of the keywords, or -1 when no header does |
| EmailRules.FindCol | outreach/email_sender.py:409-415 | the header scan returns the first matching column |
| EmailRules.AnyKeywordIn | outreach/email_sender.py:412-414 | true exactly when some keyword occurs in the header |
| EmailRules.FirstMatchAt | outreach/email_sender.py:409-415 | a matching header preceded by no matching one is the column found |
| EmailRules.FirstMatchNone | outreach/email_sender.py:409-415 | with no matching header the column is -1 |
| EmailRules.PatternAt | outreach/email_sender.py:423 | an address matching the pattern splits at one '@' into a local part and a dotted domain with a final label of two or more letters |
| EmailRules.PatternChars | outreach/email_sender.py:423 | a matching address holds one '@' and no space, newline or carriage return |
| EmailRules.SingleValidIffValid | outreach/email_sender.py:800-813 | the sender's single-address check accepts exactly the addresses the reader's validity check accepts |
| EmailRules.PatternLower | outreach/email_sender.py:423 | lower-casing a matching address keeps it matching |
| EmailRules.DomainLower | outreach/email_sender.py:423 | lower-casing a matching domain keeps it matching |
| EmailRules.CleanEmail | outreach/email_sender.py:426-437 | a cleaned address is empty or valid |
| EmailRules.CleanEmailSendable | outreach/email_sender.py:823-824 | every non-empty cleaned address passes the sender's check after it is stripped and lower-cased again |
| EmailRules.ValidSendable | outreach/email_sender.py:823-824 | every valid address passes the sender's check after it is stripped and lower-cased |
| EmailRules.ValidMatched | outreach/email_sender.py:417-424 | a stripped address matching the pattern and shorter than 100 characters passes both checks |
| EmailRules.PatternNoSpace | outreach/email_sender.py:423 | a matching address holds no whitespace |
| EmailRules.NoIndicatorIn | outreach/email_sender.py:445-446 | none of the contacted indicators occurs in "", "no" or "false" |
| EmailRules.IsContactedMeaning | outreach/email_sender.py:439-447 | a cell counts as contacted exactly when, stripped and lower-cased, it is not "", "no" or "false" |
| EmailRules.StageOf | outreach/email_sender.py:555-556 | the stage is the cell's number when the stripped cell is all digits, else 0 |
| EmailRules.StampedDateDue | outreach/email_sender.py:486-495 | a stamped next-contact date is due exactly on and after that date |
| EmailRules.DueOfParsed | outreach/email_sender.py:486-495 | a stripped cell that parses as a date is due exactly on and after that date |
| EmailRules.LaterStampDue | outreach/email_sender.py:854 | a next-contact date stamped after today is not due today, and is due exactly from that date on |
| CoachList.ContactedColumn | outreach/email_sender.py:597-598 | a column to stamp exists exactly when the contacted column was found, and it is 1-based |
| CoachList.LastNameOf | outreach/email_sender.py:593 | the salutation name is never empty: the last word of the name, or "Coach" |
| CoachList.ReadRow | outreach/email_sender.py:513-556 | a read row has stripped school and names, and each address is empty or valid |
| CoachList.DualCandidate | outreach/email_sender.py:571-603 | a row with one shared address yields at most one "dual" entry, which meets the dual rule, and yields one whenever the rule wants it |
| CoachList.OlCandidate | outreach/email_sender.py:604-625 | the OL rule yields at most one eligible OL entry, and one whenever the rule wants it |
| CoachList.RcCandidate | outreach/email_sender.py:626-645 | the RC rule yields at most one eligible RC entry, and one whenever the rule wants it |
| CoachList.Candidates | outreach/email_sender.py:571-645 | a row yields at most two entries |
| CoachList.CandidatesEligible | outreach/email_sender.py:571-645 | every entry a row yields carries that row's number and meets its role's rule |
| CoachList.FactsOf | outreach/email_sender.py:513-556 | the rows are read one for one |
| CoachList.CandLists | outreach/email_sender.py:571-645 | each row's candidates carry its 1-based sheet row number (index + 2) |
| CoachList.AdmitExtends | outreach/email_sender.py:585-587 | admitting a row's candidates keeps the list so far and adds only candidates |
| CoachList.AdmitDistinct | outreach/email_sender.py:585-587 | admission through the seen set never lists an address twice |
| CoachList.AdmitEmails | outreach/email_sender.py:585-587 | the addresses seen afterwards are those seen before plus the candidates' |
| CoachList.FoldDistinct | outreach/email_sender.py:509-587 | the final list never holds one address twice |
| CoachList.FoldMember | outreach/email_sender.py:513-645 | every listed entry is a candidate of some row |
| CoachList.FoldListed | outreach/email_sender.py:585-587 | every candidate's address ends up in the list, from its own row or an earlier one |
| CoachList.CandListsEligible | outreach/email_sender.py:571-645 | every candidate of row k carries row number k + 2 and meets its role's rule for row k |
| CoachList.FoldEligible | outreach/email_sender.py:513-645 | every listed entry meets its role's rule for the row it names |
| CoachList.FoldSound | outreach/email_sender.py:513-645 | the list has distinct addresses and every entry is eligible for its row |
| CoachList.BuildSound | outreach/email_sender.py:396-656 | the selected coaches have distinct addresses and each is eligible for the row it names |
| CoachList.SelectedCoachListed | outreach/email_sender.py:571-645 | every address a row's rule wants to e-mail is selected, from that row or an earlier one |
| CoachList.DetectColumns | outreach/email_sender.py:450-474 | the column detection returns the first matching header for each keyword list |
| CoachList.AdmitAll | outreach/email_sender.py:585-587 | the loop admits the candidates in order and keeps the seen set equal to the listed addresses |
| CoachList.AdmitRow | outreach/email_sender.py:571-645 | one pass of the row loop extends the list to the next row's fold |
| CoachList.GetCoachesToEmail | outreach/email_sender.py:396-656 | the method returns the specified selection of the whole sheet |
| EmailTracking.StoreCount | outreach/email_sender.py:176-178 | storing a key grows the map by one exactly when the key is new |
| EmailTracking.EmailTracker.constructor | outreach/email_sender.py:118-121 | a new tracker has no sends, a zero count and today's date |
| EmailTracking.EmailTracker.TotalSent | outreach/email_sender.py:176-178 | the number of distinct addresses sent to: zero exactly when none is recorded, at least one once any address has been sent to |
| EmailTracking.EmailTracker.MarkSent | outreach/email_sender.py:158-166 | the record is stored under the lower-cased address, today's count grows by one, every spelling of the address counts as sent, and the total grows exactly when the address is new |
| EmailTracking.EmailTracker.GetDailyCount | outreach/email_sender.py:168-174 | on a new day the count is reset to 0 and the date moved, and the count is returned |
| EmailTracking.AddOnce | outreach/email_sender.py:250-251 | appending a school only when absent adds exactly that school, once, and keeps a list free of duplicates |
| EmailTracking.AnalyticsTracker.constructor | outreach/email_sender.py:184-197 | all counters zero and all collections empty |
| EmailTracking.AnalyticsTracker.RecordEmailSent | outreach/email_sender.py:226-241 | one more send in total and on today's date, the school added to the contacted set, nothing else changed |
| EmailTracking.AnalyticsTracker.RecordResponse | outreach/email_sender.py:243-253 | one more response, the school listed once as responded, nothing else changed |
| EmailTracking.AnalyticsTracker.RecordOffer | outreach/email_sender.py:255-265 | one more offer, the school listed once as offered, nothing else changed |
| EmailTracking.AnalyticsTracker.Stats | outreach/email_sender.py:267-283 | the stats report the emails, schools, responses and offers counters, and never more schools than sends nor fewer responses or offers than schools listed under them |
| Placeholders.Token | outreach/email_sender.py:725 | a placeholder is `{key}` |
| Placeholders.NoPlaceholderUnchanged | outreach/email_sender.py:724-727 | a template holding none of the placeholders comes back unchanged from the subject and the body passes |
| Placeholders.NoBraceUnchanged | outreach/email_sender.py:724-727 | a template without '{' comes back unchanged |
| EmailSender.StampColumnsMatchLayout | outreach/email_sender.py:867-870 | the stage, next-contact and e-mail status columns the sender writes are the sheet layout's columns, 1-based |
| EmailSender.NewStage | outreach/email_sender.py:861-864 | 0 after an intro; after a follow-up, one more than the current stage and at most 2 |
| EmailSender.StageRulesAgree | outreach/email_sender.py:861-864 | the sender and `mark_contacted_with_followup` compute the same new stage |
| EmailSender.StageReadBack | outreach/email_sender.py:879 | a stage written as text reads back as the same stage |
| EmailSender.StampsOnDates | outreach/email_sender.py:852-854 | the two dates stamped on day d read back as d and d + 3 days |
| EmailSender.StampsOnDue | outreach/email_sender.py:854 | the next-contact date stamped on day d is not due on d, and is due on a later day exactly from d + 3 days on |
| EmailSender.SuccessInRow | outreach/email_sender.py:872-892 | for any pair of stamps, a successful send writes only the entry's row: the stamps and the new stage in its contacted and follow-up columns, and all of them |
| EmailSender.SuccessCells | outreach/email_sender.py:851-892 | after a send on day d, only the entry's row is written: d in its contacted column(s), the new stage and d + 3 days in its role's follow-up columns (both roles' for a dual entry), and all of these are written |
| EmailSender.FailureOps | outreach/email_sender.py:905-946 | a blocked account deletes the row and nothing else; otherwise an invalid-recipient error marks the role's status column(s) "wrong"; any other error writes nothing |
| EmailSender.StepSound | outreach/email_sender.py:816-961 | one pass keeps the batch invariant: sends are bounded by the quota, counted with their recorded addresses, each coach counted once, and a deletion only ends a batch |
| EmailSender.RunStepSound | outreach/email_sender.py:816-961 | the batch invariant holds after pass k when it held after pass k - 1 |
| EmailSender.RunSound | outreach/email_sender.py:816-965 | the batch invariant holds after every pass |
| EmailSender.RunHalted | outreach/email_sender.py:818-820 | once the batch has stopped, the remaining passes change nothing |
| EmailSender.SendBounds | outreach/email_sender.py:763-970 | never more sends than the quota left; a spent quota skips everyone; every coach is sent, failed or skipped unless the account is blocked; every send's address is valid; a row deletion is the last write |
| EmailSender.BuiltAddressesSendable | outreach/email_sender.py:823-833 | no address that the reader selects fails the sender's format check |
| EmailSender.StampContacted | outreach/email_sender.py:874-877 | a contacted date is written only when the column is known |
| EmailSender.StampSuccess | outreach/email_sender.py:872-892 | the sheet receives exactly the cells of a successful send, in order |
| EmailSender.MarkFailure | outreach/email_sender.py:920-946 | the sheet receives exactly the writes of a failed send |
| EmailSender.AnyMarker | outreach/email_sender.py:910-917 | true exactly when one of the markers occurs in the error text |
| EmailSender.MarkAllSnoc | outreach/email_sender.py:845-846 | recording one more send updates its address's record and adds its school |
| EmailSender.TrackMark | outreach/email_sender.py:845 | the tracker records the send under the lower-cased address and counts it, keeping its last date |
| EmailSender.CountMark | outreach/email_sender.py:846 | the analytics count one more send in total and under today's ISO date, add the school, and leave the responses and offers alone |
| EmailSender.RecordMark | outreach/email_sender.py:845-846 | both trackers take in one more send |
| EmailSender.Deliver | outreach/email_sender.py:841-892 | a successful send updates the trackers and the sheet as the batch specification says |
| EmailSender.Fail | outreach/email_sender.py:905-961 | a failed send writes the failure cells, and the loop stops exactly when the account is blocked |
| EmailSender.Attempt | outreach/email_sender.py:836-961 | an attempt on a valid address has the effect the specification gives one pass |
| EmailSender.PassStep | outreach/email_sender.py:818-961 | one pass of the loop has the effect the specification gives it |
| EmailSender.SendOne | outreach/email_sender.py:816-961 | pass i takes the state after i passes to the state after i + 1 |
| EmailSender.SendAll | outreach/email_sender.py:816-965 | the loop's counters, sheet writes and tracker state are those of the whole-batch specification |
| EmailSender.SendToCoaches | outreach/email_sender.py:763-970 | the counts, the sheet writes, today's count, the sent records and the analytics are those of the batch specification from the tracker's state on entry, with the stamps of day `today` (`StampsOn`) and the quota keyed by that day's ISO date; the tracker's last date becomes that key, the analytics count the batch's sends under it, and the responses, offers and status lists are unchanged |
| EmailSender.CityState | outreach/email_sender.py:330-334 | "city, state" when both are given, else whichever is given, else empty |
| EmailSender.TemplatesFor | outreach/email_sender.py:710-718 | dual entries get the dual template, OL entries the OL one, all others the RC one |
| EmailSender.PrepareEmail | outreach/email_sender.py:657-729 | the subject gets one replacement pass per variable and the body two, in the variables' order |
| Sheets.Col | sheets/manager.py:69-94 | every field lies in the 22 columns |
| Sheets.FieldOf | sheets/manager.py:320-322 | a field found for a key has that key |
| Sheets.GetColIndex | sheets/manager.py:320-322 | the index is a column, or -1 exactly for a key that names no field |
| Sheets.ColumnKeys | sheets/manager.py:69-94 | each field's key looks up that field's column |
| Sheets.ColumnsDistinct | sheets/manager.py:69-94 | no two fields share a column |
| Sheets.SafeGet | sheets/manager.py:413-417 | the default off the row or on an empty cell, else the stripped cell |
| Sheets.SafeGetStripped | sheets/manager.py:413-417 | what is read is already stripped |
| Sheets.CollectMembers | sheets/manager.py:567-614 | an entry is selected exactly when some row contributes it |
| Sheets.SchoolRow | sheets/manager.py:366-403 | a row is listed exactly when its URL starts with "http" and some name is missing or for review, with the names it needs |
| Sheets.ReviewNeedsProcessing | sheets/manager.py:376-381 | a row with an http URL and a name for review is listed |
| Sheets.DoneRowsSkipped | sheets/manager.py:366-403 | every listed row has an http URL and a name still to find |
| Sheets.ScanSchools | sheets/manager.py:366-403 | the loop lists the rows the row rule selects, in order |
| Sheets.Reverse | sheets/manager.py:405-407 | the list in reverse order |
| Sheets.DueRole | sheets/manager.py:575-592 | a role is due exactly when its next-contact date parses and is on or before today, with its stage and whether it restarts (stage 2 or more) |
| Sheets.DueRow | sheets/manager.py:567-612 | a row without a school yields nothing; a due row yields RC before OL, with its school and row number |
| Sheets.BadStageDropsEntry | sheets/manager.py:580-592 | a stage cell that is not a number drops that role's entry |
| Sheets.ScanDue | sheets/manager.py:567-614 | the loop lists the due entries the row rule selects, in order |
| Sheets.DueEntriesAreDue | sheets/manager.py:550-614 | every listed follow-up is due today, with a school and a data row |
| Sheets.TwitterRole | sheets/manager.py:716-730 | a role is listed exactly when it has a handle, no response and no closed Twitter status |
| Sheets.TwitterRow | sheets/manager.py:708-747 | a row without a school yields nothing; otherwise one entry per wanted role, RC first |
| Sheets.ScanTwitter | sheets/manager.py:708-749 | the loop lists the Twitter candidates the row rule selects, in order |
| Sheets.TwitterEntriesWanted | sheets/manager.py:687-749 | every listed Twitter candidate has a school and a handle and is wanted by its row |
| Sheets.StatsBounds | sheets/manager.py:816-851 | the total is the number of rows, each name is counted once as found or for review, and there are at most two addresses and two handles per row |
| Sheets.CountRows | sheets/manager.py:816-860 | the loop computes the counts of all rows |
| Sheets.CountRow | sheets/manager.py:824-851 | one row adds its own counts |
| Sheets.Tally | sheets/manager.py:842-851 | a filled cell counts one |
| Sheets.TallyName | sheets/manager.py:826-839 | a name counts as found, or for review when it starts with "REVIEW:" |
| Sheets.NextStage | sheets/manager.py:650-661 | 0 after an intro; otherwise one more than the current stage, capped at 2 |
| Sheets.PyIndex | sheets/manager.py:647 | Python indexing, negative indices counting from the end, and an error outside the list |
| Sheets.SheetsManager.constructor | sheets/manager.py:170-176 | a manager on a sheet, with nothing read or written yet |
| Sheets.SheetsManager.GetAllData | sheets/manager.py:330-341 | the rows when connected, else nothing |
| Sheets.SheetsManager.UpdateCell | sheets/manager.py:425-436 | the cell is written when connected, and the result says whether it was |
| Sheets.SheetsManager.UpdateRc | sheets/manager.py:438-451 | the RC name is written, and the RC address when one is given; one write per cell when connected, no read |
| Sheets.SheetsManager.UpdateOl | sheets/manager.py:453-466 | the OL name is written, and the OL address when one is given; one write per cell when connected, no read |
| Sheets.SheetsManager.UpdateEmailStatus | sheets/manager.py:492-511 | the role's e-mail status column (21 for RC, 22 otherwise) receives the status; one write per cell when connected, no read |
| Sheets.SheetsManager.UpdateTwitterStatus | sheets/manager.py:751-770 | the role's Twitter status column (19 for RC, 20 otherwise) receives the status; one write per cell when connected, no read |
| Sheets.SheetsManager.UpdateFollowup | sheets/manager.py:521-548 | the role's stage and next-contact columns receive the stage and the date; one write per cell when connected, no read |
| Sheets.SheetsManager.ClearFollowup | sheets/manager.py:670-685 | the role's stage and next-contact cells are emptied; one write per cell when connected, no read |
| Sheets.SheetsManager.MarkResponded | sheets/manager.py:772-798 | the role's follow-up is cleared and its responded cell gets the given date or today; one write per cell when connected, no read |
| Sheets.SheetsManager.MarkContactedWithFollowup | sheets/manager.py:616-668 | a row past the data returns false; an unreadable stage, or today + 3 past year 9999, raises with nothing written; otherwise today, the next stage and today + 3 are written |
| Sheets.SheetsManager.GetSchoolsToProcess | sheets/manager.py:343-411 | the rows still to search, optionally reversed; nothing without data rows |
| Sheets.SheetsManager.GetDueFollowups | sheets/manager.py:550-614 | the due follow-ups of the data rows |
| Sheets.SheetsManager.GetCoachesForTwitter | sheets/manager.py:687-749 | the Twitter candidates of the data rows |
| Sheets.SheetsManager.GetStats | sheets/manager.py:800-860 | the counts of the data rows, or nothing without data rows |
| DmTracking.HandleKey | outreach/twitter_sender.py:185 | a handle's key never starts with '@' |
| DmTracking.HandleKeyCanonical | outreach/twitter_sender.py:183-196 | a leading '@' and letter case do not change the key, and keying is idempotent |
| DmTracking.Preview | outreach/twitter_sender.py:196 | a message of up to 50 characters is kept whole; a longer one keeps its first 50 and gains "..." |
| DmTracking.DMTracker.constructor | outreach/twitter_sender.py:79-84 | a new tracker has no DMs and a zero count |
| DmTracking.DMTracker.MarkSent | outreach/twitter_sender.py:188-199 | the record is stored under the handle's key, one more DM today, and every spelling of the handle counts as messaged |
| DmTracking.DMTracker.GetDailyCount | outreach/twitter_sender.py:201-208 | today's count, reset on a new day |
| DmMessage.PrepareMessage | outreach/twitter_sender.py:467-507 | one replacement pass per variable, in order |
| DmMessage.PlainTemplateUnchanged | outreach/twitter_sender.py:486-507 | a template without placeholders is sent as written |
| DmMessage.BlankNameRaises | outreach/twitter_sender.py:550 | the last-name expression raises for a name of one space |
| DmMessage.LastName | outreach/twitter_sender.py:550 | the last word of the name, "" for a blank name, and the expression's value whenever it does not raise |
| Twitter.GuardOrder | outreach/twitter_sender.py:369-392 | an already-messaged handle is refused first, a spent quota next, and a DM goes out exactly when it is new, under the limit, logged in and delivered |
| Twitter.Messages | outreach/twitter_sender.py:550-551 | one message per coach |
| Twitter.MessagesAt | outreach/twitter_sender.py:550-551 | each coach's message is built from its last name and school |
| Twitter.DmStepSound | outreach/twitter_sender.py:532-583 | one pass keeps the batch invariant: counts add up, sends stay under the limit, and the coaches messaged were new, in order, with distinct handles |
| Twitter.DmRunSound | outreach/twitter_sender.py:532-583 | the batch invariant holds after every pass |
| Twitter.DmRunHalted | outreach/twitter_sender.py:539-542 | once the limit has stopped the loop, the later passes change nothing |
| Twitter.DmBatchBounds | outreach/twitter_sender.py:509-590 | a batch sends no more than the limit left, counts each coach at most once, and never messages a handle twice or one already on record |
| Twitter.DMSender.constructor | outreach/twitter_sender.py:229-233 | a new sender with its limit, an empty tracker and no login |
| Twitter.DMSender.Stats | outreach/twitter_sender.py:592-601 | the DMs on record, today's count, the configured daily limit, and what is left of it, never negative |
| Twitter.DMSender.SendDm | outreach/twitter_sender.py:350-392 | the result follows the guards; only a DM that goes out is recorded and counted |
| Twitter.DMSender.DmOne | outreach/twitter_sender.py:532-583 | one pass of either DM loop has the effect the batch specification gives it |
| Twitter.DMSender.Pass | outreach/twitter_sender.py:532-583 | pass i takes the state after i passes to the state after i + 1 |
| Twitter.DMSender.SendToCoaches | outreach/twitter_sender.py:509-590 | the counts, the tracker and the day's total are those of the batch specification |
| Twitter.DMSender.SheetPass | outreach/twitter_sender.py:672-681 | after a DM that goes out, the coach's status cell reads "messaged" |
| Twitter.DMSender.SendToCoachesFromSheet | outreach/twitter_sender.py:603-705 | the sheet's Twitter candidates are messaged as the batch specification says, and exactly the messaged ones are marked on the sheet |
| Twitter.DMSender.SendToEntries | outreach/twitter_sender.py:635-705 | the sheet loop's counts, tracker and status writes are those of the batch specification |
| Twitter.Candidates | outreach/twitter_sender.py:632-636 | one coach per sheet candidate |
| Twitter.MarkMessagedSnoc | outreach/twitter_sender.py:677-681 | marking one more coach writes one more status cell |
| Responses.Snippet | enterprise/responses.py:155-156 | at most 153 characters, single-spaced and trimmed, the collapsed text itself when short, else its first 150 characters and "..." |
| Responses.SnippetIdempotent | enterprise/responses.py:155-156 | taking the snippet of a snippet changes nothing |
| Responses.LastSentMatch | enterprise/responses.py:325-329 | the latest send to the address, ignoring case, or none when there is none |
| Responses.FirstSentMatch | enterprise/responses.py:401-405 | the first send to the address, ignoring case, or none when there is none |
| Responses.OrNow | enterprise/responses.py:337 | the given time when it is non-empty, else now |
| Responses.NewResponse | enterprise/responses.py:331-338 | the normalized address, the subject, snippet and time given, and the name and school of the latest matching send (empty without one) |
| Responses.Addresses | enterprise/responses.py:371-372 | the set of distinct addresses of the sends (or of the responses) has at most one member per record and holds every record's address |
| Responses.AddressesFromRecords | enterprise/responses.py:371-372 | an address is in the set exactly when some record carries it |
| Responses.InitialFollowupSplit | enterprise/responses.py:374-375 | intro and follow-up sends never exceed the total, and add up to it when no follow-up number is negative |
| Responses.StatsOf | enterprise/responses.py:369-387 | totals, distinct coaches and responders bounded by the totals, and the intro/follow-up split |
| Responses.Divisions | enterprise/responses.py:393-397 | every send's division, "Unknown" when blank, is a table key |
| Responses.DivisionCoaches | enterprise/responses.py:393-397 | every address sent under a division is counted for it |
| Responses.DivisionCoachesSent | enterprise/responses.py:393-397 | every address counted for a division was sent under it |
| Responses.NoDivisionNoCoaches | enterprise/responses.py:393-397 | a division never sent to has no coaches |
| Responses.CreditedDivision | enterprise/responses.py:399-405 | a responder is credited to a division that was sent to |
| Responses.RespondersCredited | enterprise/responses.py:399-405 | a responder counts for a division exactly when its first matching send is in that division |
| Responses.DivisionTable | enterprise/responses.py:389-419 | one row per division sent to |
| Responses.DivisionResponderBounds | enterprise/responses.py:399-405 | a division's responders are responders credited to it |
| Responses.BucketsTable | enterprise/responses.py:407-419 | the buckets built by the loops give the division table |
| Responses.CoachStep | enterprise/responses.py:393-397 | one send adds its address to its division's bucket |
| Responses.ResponderStep | enterprise/responses.py:399-405 | one response adds its address to the bucket of its first matching send, or nothing |
| Responses.CoachBuckets | enterprise/responses.py:393-397 | the first loop buckets every send |
| Responses.FindFirstSent | enterprise/responses.py:401-405 | the inner loop finds the first matching send |
| Responses.AddResponders | enterprise/responses.py:399-405 | the second loop credits every responder |
| Responses.Insert | enterprise/responses.py:423-427 | insertion adds one element and keeps the others |
| Responses.SortDesc | enterprise/responses.py:423-427 | sorting is a permutation |
| Responses.InsertSorted | enterprise/responses.py:423-427 | insertion keeps a list sorted |
| Responses.SortDescSorted | enterprise/responses.py:423-427 | the result is sorted |
| Responses.Take | enterprise/responses.py:427 | `[:limit]`, including a negative limit |
| Responses.TakeSorted | enterprise/responses.py:427 | a prefix of a sorted list is sorted and drawn from it |
| Responses.ReceivedLaterOrder | enterprise/responses.py:425-426 | "received later" is a strict order |
| Responses.TakeComplete | enterprise/responses.py:427 | the slice of a sorted list is drawn from it, and nothing left out comes before anything kept |
| Responses.TopOfSort | enterprise/responses.py:423-427 | the first `limit` of a sort are in order, drawn from the input, and nothing left out comes before anything kept |
| Responses.RecentTop | enterprise/responses.py:423-427 | the same, stated on the receive times |
| Responses.RecentResponses | enterprise/responses.py:421-429 | exactly `limit` responses (or all; a negative limit drops that many from the end), drawn from the recorded ones, latest first, and none left out newer than one kept |
| Responses.RespondedSet | enterprise/responses.py:437 | every responder's lower-cased address is in the set |
| Responses.RespondedSetMembers | enterprise/responses.py:437 | an address is in the responded set exactly when some response's lower-cased address is that address |
| Responses.AddSendOrdered | enterprise/responses.py:442-459 | the tally keeps its first-seen order |
| Responses.AddSendCovers | enterprise/responses.py:442-459 | the tally lists every non-responding address sent to |
| Responses.SendsToSnoc | enterprise/responses.py:457 | one more send to the address counts one more |
| Responses.AddSendCounted | enterprise/responses.py:442-459 | each lead counts the sends to its address |
| Responses.SendsToNone | enterprise/responses.py:442-459 | an address with no send has count 0 |
| Responses.AddSendLatest | enterprise/responses.py:458-459 | each lead carries its latest send time |
| Responses.AddSendWitnessed | enterprise/responses.py:447-459 | each lead's fields come from a send to its address |
| Responses.TallyDescribes | enterprise/responses.py:440-459 | the tally describes exactly the non-responding addresses with their counts and latest times |
| Responses.LeadList | enterprise/responses.py:481 | the leads in the tally's order |
| Responses.DivisionScore | enterprise/responses.py:467-468 | a division scores 5 to 30 |
| Responses.RecencyScore | enterprise/responses.py:469-478 | 20 within 7 days, 10 within 14, else 0 |
| Responses.Score | enterprise/responses.py:462-479 | a lead scores 5 to 80, at least 15 once contacted |
| Responses.ScoreContacts | enterprise/responses.py:465 | one more contact adds 10 up to three contacts and nothing after |
| Responses.OutranksStrict | enterprise/responses.py:481 | ranking by score is a strict order |
| Responses.SendsToSent | enterprise/responses.py:442-457 | an address with a counted send was sent to |
| Responses.AllLeadsDescribe | enterprise/responses.py:440-459 | every lead is a non-responding address with its send count and latest send time |
| Responses.AllLeadsCover | enterprise/responses.py:437-459 | one lead per non-responding address sent to, none twice, and each for an address sent to |
| Responses.HotLeadsSound | enterprise/responses.py:431-482 | at most `limit` leads, none of them a responder, by non-increasing score, each with its send count and latest send time |
| Responses.DrawnDistinct | enterprise/responses.py:481 | leads drawn from a list of distinct addresses have distinct addresses |
| Responses.HotLeadsRanked | enterprise/responses.py:431-482 | the top `limit` leads: exactly `limit` of them (or all), distinct addresses, drawn from all the leads, and no lead left out scores more than one kept |
| Responses.Known | enterprise/responses.py:497-499 | every recorded (address, subject) pair is known |
| Responses.KnownRecorded | enterprise/responses.py:497-499 | every known pair was recorded |
| Responses.Unknown | enterprise/responses.py:507-509 | no more new replies than replies read |
| Responses.UnknownMembers | enterprise/responses.py:507-509 | a reply is new exactly when its pair was not known |
| Responses.Recorded | enterprise/responses.py:510-517 | one response recorded per new reply |
| Responses.ResponseTracker.constructor | enterprise/responses.py:171-177 | an empty log |
| Responses.ResponseTracker.HasResponded | enterprise/responses.py:364-367 | true exactly when the address, lower-cased and stripped, is the lower-cased address of some recorded response, that is, in the responded set |
| Responses.ResponseTracker.RecordSent | enterprise/responses.py:301-316 | the send is appended with its address normalized |
| Responses.ResponseTracker.RecordResponse | enterprise/responses.py:318-342 | the response is appended with the latest matching send's name and school, and the address then counts as responded |
| Responses.ResponseTracker.GetStats | enterprise/responses.py:369-387 | the totals, the number of distinct addresses sent to and responding, bounded by the totals, and the intro/follow-up split of the sends |
| Responses.ResponseTracker.GetStatsByDivision | enterprise/responses.py:389-419 | the division table |
| Responses.ResponseTracker.GetRecentResponses | enterprise/responses.py:421-429 | exactly `limit` of the logged responses (or all; Python slicing for a negative limit), latest first, and none left out newer than one kept |
| Responses.ResponseTracker.GetHotLeads | enterprise/responses.py:431-482 | the hot-lead list |
| Responses.ResponseTracker.CheckGmailForResponses | enterprise/responses.py:484-519 | nothing without sends; otherwise the replies whose pair was not known before are recorded, and their number returned |
| Notes.DigitsEnd | scripts/migrate_notes.py:69 | the end of the run of digits at a position |
| Notes.ColonRunEnd | scripts/migrate_notes.py:61 | the end of a run of colons and spaces |
| Notes.WordEnd | scripts/migrate_notes.py:61 | the end of a run of characters that are neither whitespace nor ';' |
| Notes.DateTail | scripts/migrate_notes.py:47 | a date part covers only date characters |
| Notes.DateEnd | scripts/migrate_notes.py:47 | a date matched at a position is date text of at least three characters |
| Notes.LinkEnd | scripts/migrate_notes.py:61 | a matched link is not empty |
| Notes.MatchAt | scripts/migrate_notes.py:45-72 | a pattern match ends after its start, and a captured group is a date |
| Notes.FollowUpNumberedDigit | scripts/migrate_notes.py:69 | a match of `Follow-up \d+ date` has at least one digit after "Follow-up " |
| Notes.FollowUpNoNumberExample | scripts/migrate_notes.py:69 | example: "Follow-up  3/14", with no number, is not a numbered follow-up |
| Notes.SearchFrom | scripts/migrate_notes.py:93 | the search returns a position where the pattern matches |
| Notes.SearchFromLeftmost | scripts/migrate_notes.py:93 | no earlier position matches |
| Notes.SubFrom | scripts/migrate_notes.py:98 | removing matches never lengthens the text |
| Notes.Sub | scripts/migrate_notes.py:98 | removing matches never lengthens the text |
| Notes.SubFromNoMatch | scripts/migrate_notes.py:98 | with no match from a position the rest is unchanged |
| Notes.SubNoMatch | scripts/migrate_notes.py:98 | with no match the text is unchanged |
| Notes.SubFromShrinks | scripts/migrate_notes.py:98 | a match makes the rest strictly shorter |
| Notes.SubShrinks | scripts/migrate_notes.py:98 | a match makes the text strictly shorter |
| Notes.FirstHitFrom | scripts/migrate_notes.py:92-99 | the first pattern in order that matches, or none |
| Notes.FindFirstHit | scripts/migrate_notes.py:92-99 | the loop returns the first pattern that matches |
| Notes.SubAll | scripts/migrate_notes.py:127-128 | removing the follow-up notes never lengthens the text |
| Notes.Clean | scripts/migrate_notes.py:130-137 | cleaned notes hold no ';', are single-spaced and trimmed, and are empty or hold a letter or digit |
| Notes.CleanSecondPass | scripts/migrate_notes.py:132-133 | the second whitespace pass changes nothing after the first |
| Notes.DateOrYes | scripts/migrate_notes.py:94-96 | the captured date, or "yes" |
| Notes.RespondedPart | scripts/migrate_notes.py:91-99 | a responded value exactly when a responded pattern matches, a date or "yes" |
| Notes.TwitterPart | scripts/migrate_notes.py:101-124 | "messaged", then "followed", then "wrong", each exactly when its patterns match and the earlier ones do not |
| Notes.ParseRemaining | scripts/migrate_notes.py:75-139 | the remaining notes are clean |
| Notes.ParseResponded | scripts/migrate_notes.py:91-99 | a responded value exactly when a responded pattern matches, a date or "yes" |
| Notes.ParseTwitter | scripts/migrate_notes.py:101-124 | one of four Twitter statuses, by precedence |
| Notes.FollowUpNumberedExample | scripts/migrate_notes.py:69 | example: a follow-up number before a date gives back its last digit to the date |
| Notes.RespondedExample | scripts/migrate_notes.py:49 | example: "responded 3/14/2024" captures the date |
| Notes.SubAllNoMatch | scripts/migrate_notes.py:127-128 | with no match the text is unchanged |
| Notes.CleanFixed | scripts/migrate_notes.py:130-137 | cleaning clean text changes nothing |
| Notes.CleanNotesUnchanged | scripts/migrate_notes.py:75-139 | clean notes no pattern touches come back unchanged, with nothing extracted |
| Notes.RespondedStep | scripts/migrate_notes.py:91-99 | the responded loop computes the responded part |
| Notes.TwitterStep | scripts/migrate_notes.py:101-124 | the Twitter loops compute the Twitter part |
| Notes.RemoveFollowups | scripts/migrate_notes.py:127-128 | the removal loop removes every follow-up pattern in turn |
| Notes.ParseNotes | scripts/migrate_notes.py:75-139 | the method computes the parse of the notes |
| Notes.Missing | scripts/migrate_notes.py:184-187 | exactly the expected headers no header carries, ignoring case and surrounding whitespace |
| Notes.FindCol | scripts/migrate_notes.py:200-204 | the first header containing the name, or -1 |
| Notes.CellAt | scripts/migrate_notes.py:240-244 | the cell, or "" off the row |
| Notes.ChangesOfProps | scripts/migrate_notes.py:246-269 | at most three changes, one per field, with the parsed values, and a notes change exactly when cleaning altered the notes |
| Notes.RowChangeLists | scripts/migrate_notes.py:236-272 | one change list per data row |
| Notes.ListedEntries | scripts/migrate_notes.py:271-272 | every listed row has its own changes, which are not empty |
| Notes.ListedOrdered | scripts/migrate_notes.py:236-272 | rows are listed in increasing order |
| Notes.ListedRows | scripts/migrate_notes.py:271-272 | a row is listed exactly when it has a change |
| Notes.CollectChanges | scripts/migrate_notes.py:236-272 | the loop computes the change list |
| Notes.WritesRows | scripts/migrate_notes.py:309-312 | every write goes to a listed row |
| Notes.Applied | scripts/migrate_notes.py:309-322 | without a failure every write takes effect |
| Notes.CellLog.constructor | scripts/migrate_notes.py:309-312 | nothing written |
| Notes.CellLog.Update | scripts/migrate_notes.py:312 | a successful write is appended |
| Notes.ApplyWrites | scripts/migrate_notes.py:307-330 | the writes that do not fail take effect in order, and success means none failed |
| Notes.MigrateSheet | scripts/migrate_notes.py:142-330 | no sheet or no data fails with nothing written; a dry run writes nothing; a live run missing a header stops; otherwise every change is attempted in order |
| Dedup.CountNonEmpty | scripts/deduplicate_schools.py:62-64 | never more than the row's number of cells |
| Dedup.CountNonEmptyExtremes | scripts/deduplicate_schools.py:62-64 | the count is the row's length exactly when no cell is blank, and 0 exactly when all are |
| Dedup.LastNaming | scripts/deduplicate_schools.py:72-77 | the last header naming the side, or none |
| Dedup.FindContactedCols | scripts/deduplicate_schools.py:72-77 | the header loop finds each side's contacted column |
| Dedup.ContactedCell | scripts/deduplicate_schools.py:79-80 | a side's value is truthy exactly when its cell is filled |
| Dedup.ContactedAsWritten | scripts/deduplicate_schools.py:67-83 | the value returned is truthy exactly when a contacted cell is filled, and it is a cell's text rather than a boolean whenever the RC cell is filled or an OL column exists |
| Dedup.SortKeyAsWritten | scripts/deduplicate_schools.py:150 | the sort key exists only for `False` or a number text |
| Dedup.ExampleSchoolCol | scripts/deduplicate_schools.py:108-112 | "School" is the school column |
| Dedup.ExampleContactedCols | scripts/deduplicate_schools.py:72-77 | "RC Contacted" is the RC column and there is no OL column |
| Dedup.DateContactedRaises | scripts/deduplicate_schools.py:150 | a date in a contacted cell of a duplicate makes the sort key fail |
| Dedup.ContactedTruthiness | scripts/deduplicate_schools.py:67-83 | the boolean check agrees with the truth value of what the script returns |
| Dedup.HasContactedData | scripts/deduplicate_schools.py:67-83 | the method computes the boolean check |
| Dedup.SchoolCol | scripts/deduplicate_schools.py:108-112 | the first header containing "school", or none |
| Dedup.FindSchoolCol | scripts/deduplicate_schools.py:108-112 | the loop finds the school column |
| Dedup.DataNames | scripts/deduplicate_schools.py:121 | one name per row |
| Dedup.DataRanks | scripts/deduplicate_schools.py:130-131 | one rank per row |
| Dedup.BestIn | scripts/deduplicate_schools.py:150-152 | the row kept for a name carries that name, and there is none only when no row does |
| Dedup.BestInIsBest | scripts/deduplicate_schools.py:150-152 | no row of the group outranks the kept one, and it outranks every earlier row |
| Dedup.OneKeptPerGroup | scripts/deduplicate_schools.py:135-159 | each group keeps exactly one row and deletes the others |
| Dedup.KeptIsBest | scripts/deduplicate_schools.py:150-153 | no deleted row of a group outranks its kept row (contacted first, then more filled cells), and the kept row outranks every earlier row of the group |
| Dedup.PlanSize | scripts/deduplicate_schools.py:163 | the rows deleted number the named rows less one per distinct name |
| Dedup.KeepFrom | scripts/deduplicate_schools.py:176-182 | deleting rows never adds any |
| Dedup.Positions | scripts/deduplicate_schools.py:176-182 | the surviving rows, in order |
| Dedup.KeepFromPositions | scripts/deduplicate_schools.py:176-182 | what survives is the rows at the surviving positions |
| Dedup.KeepFromSplit | scripts/deduplicate_schools.py:176-182 | deletion works piece by piece |
| Dedup.KeepFromUntouched | scripts/deduplicate_schools.py:176-182 | nothing deleted, nothing changed |
| Dedup.KeepFromBelow | scripts/deduplicate_schools.py:173-182 | rows above the deletions keep their place |
| Dedup.KeepFromWith | scripts/deduplicate_schools.py:173-182 | one more deletion at the top of the rest |
| Dedup.KeepFromDelete | scripts/deduplicate_schools.py:173-182 | deleting from the bottom up removes the planned rows and no others |
| Dedup.Sheet.constructor | scripts/deduplicate_schools.py:96 | a sheet with the given rows |
| Dedup.Sheet.DeleteRow | scripts/deduplicate_schools.py:178 | one row removed, later rows moving up |
| Dedup.DescendingSnoc | scripts/deduplicate_schools.py:173 | appending a smaller row keeps the order descending |
| Dedup.KeepFromFirstStays | scripts/deduplicate_schools.py:173-182 | when row 1 is not deleted it stays first, and the others that stay keep their order |
| Dedup.RowFact | scripts/deduplicate_schools.py:121-131 | a row's name and rank |
| Dedup.RowFacts | scripts/deduplicate_schools.py:120-132 | the loop computes every row's name and rank |
| Dedup.ChooseKeepers | scripts/deduplicate_schools.py:119-153 | each named group's kept row |
| Dedup.PlanDeletions | scripts/deduplicate_schools.py:144-173 | the planned rows, in descending order, are exactly the rows to delete |
| Dedup.DeleteAll | scripts/deduplicate_schools.py:173-182 | the sheet loses exactly the planned rows whose deletion succeeds |
| Dedup.Deduplicate | scripts/deduplicate_schools.py:86-184 | nothing without data or a school column; otherwise the plan, deleted only on "yes" |
| Dedup.HeaderStays | scripts/deduplicate_schools.py:102-103 | the header row is never deleted |
| Dedup.DataNamesAt | scripts/deduplicate_schools.py:121 | each row's name is at its index |
| Dedup.KeepFromNames | scripts/deduplicate_schools.py:176-182 | the kept rows' names are the kept names |
| Dedup.NamesAfterDeletion | scripts/deduplicate_schools.py:86-184 | afterwards no non-blank name appears twice and every group still has a row |
| Dedup.SheetAfterDeletion | scripts/deduplicate_schools.py:173-182 | afterwards the header row comes first, then the data rows kept |

## Left out

- The network and the outside services: SMTP sending, the IMAP mailbox scan inside `GmailResponseChecker`, the Selenium browser of the Twitter sender, and the gspread connection. Each outcome is a parameter: a send outcome per coach, a browser outcome per DM, the replies read, whether the sheet connected, and which writes fail.
- JSON persistence of the trackers (`_load`, `save`, `_save`), the Google Sheets copy of the DM tracker (`_load_from_sheets`), and the response log's sheet copy and `EmailLog` updates (`_save_to_sheets`, `_mark_responded_in_sheets`). The trackers start empty, as on a first run.
- Floating-point rates: `response_rate` in outreach/email_sender.py:278-280, enterprise/responses.py:377 and enterprise/responses.py:412-416. The model keeps the integer counts the rates divide.
- Timing: sleeps, random delays, login waits and the wall clock. "Today" and "now" are parameters.
- Logging, progress callbacks and printed summaries, including the `skipped_contacted` and `skipped_invalid` counters of `get_coaches_to_email`, which are only logged.
- The randomized `enterprise.templates` path of `prepare_email` (outreach/email_sender.py:687-707). enterprise/templates.py is not part of this model; the model takes the default templates.
- The per-row `except` of `get_coaches_to_email` (outreach/email_sender.py:647-649) and the `try`/`except` blocks around sheet writes. No modelled row operation raises, except the ones named under Findings.
- The `SchoolRecord` path of `get_schools_to_process`. The model takes the dictionary form.
- Thin wrappers that only forward a call: `delete_row`, `get_sent_list`, `mark_followed_on_sheet` and `mark_wrong_twitter_on_sheet`.
- Text semantics: `lower` is ASCII-only, `\d` and `isdigit` accept ASCII digits only, and `re.IGNORECASE` folds ASCII letters only. `int()` of text with underscores or non-ASCII digits is not modelled. Whitespace is Python's full `isspace` set.
- The `migrate_notes.py` regular expressions are written out as hand-made matchers, pattern by pattern, following Python's backtracking for these patterns. No general regular-expression engine is modelled.
- The days since a hot lead's last contact come from a function parameter, because `datetime.fromisoformat` and the clock are not modelled (enterprise/responses.py:470-478).
- The dedup grouping is modelled as a best-so-far choice per name. `list.sort` is stable, so the row it puts first is the earliest row of the highest rank; `Dedup.KeptIsBest` states that choice.
- EmailSender.StampSuccess: writes the stamps it is given; `EmailSender.SendToCoaches` passes the stamps of its day (`StampsOn(today)`), and `EmailSender.SuccessCells` states them.
- EmailSender.Deliver: likewise receives the day's stamps from `EmailSender.SendToCoaches` rather than formatting the date itself.
- EmailSender.SendToCoaches: reads the clock once per batch. The source calls `date.today()` for each send (outreach/email_sender.py:852) and in each tracker call, so a batch running past midnight stamps the later rows with the next day; the model stamps the whole batch with one day.
- EmailSender.StampsOnDates: stated for days whose date + 3 stays within year 9999. In the last three days of year 9999 `today + timedelta(days=3)` raises `OverflowError`, which the `try` around the sheet update (outreach/email_sender.py:850-894) catches, so that row gets no cells; the model writes a five-digit year there instead.
- Responses.StatsOf: leaves out the response rate (a float).
- Responses.DivisionTable: leaves out each division's rate (a float).
- EmailTracking.AnalyticsTracker.Stats: leaves out the response rate, `emails_by_date` and the status lists, which the tracker's fields already hold.
- Notes.ParseResponded: stated for non-empty notes; empty notes parse to three empty fields (`Notes.ParseNotes`).
- Dedup.Deduplicate: a deletion that fails is modelled by the `failing` set of row numbers, decided in advance.

## Findings

| source | as written | input that shows it | evidently intended | confidence | as-written member | corrected member |
|---|---|---|---|---|---|---|
| outreach/twitter_sender.py:550 | `name.split()[-1] if name else ''` raises `IndexError` when the name is non-empty but all whitespace, which ends the batch | `send_to_coaches` with a coach `{'handle': 'x', 'name': ' '}` | a blank name gives the empty last name, like an empty one | not executed | DmMessage.BlankNameRaises | DmMessage.LastName |
| scripts/deduplicate_schools.py:150 | `has_contacted_data` (lines 79-81) returns a cell's text, not a boolean, and `-int(...)` of a date such as `'3/14'` raises `ValueError`, so nothing is deleted | headers `["School", "RC Contacted"]`, rows `[["A", "3/14"], ["a", ""]]` | contacted rows sort first, on the truth value of the check | not executed | Dedup.DateContactedRaises | Dedup.KeptIsBest |
