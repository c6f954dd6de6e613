# Kasbokar studio: a verified model

This project models the calendar, booking, sync, migration, money, estimate, intake and cookie-jar
logic of the studio application, and proves what that logic promises. `dafny verify dfyconfig.toml`
checks all of it.

| files | what they model |
|---|---|
| `Civil`, `Tehran`, `StudioWeeks` | the civil calendar under `Date.UTC`, the Tehran wall clock, day keys, day swaps, Saturday weeks, ISO week labels |
| `Hours`, `SlotTheorems`, `StudioApprentices` | the slot allocator, booking round after round, apprentice Thursdays |
| `PocketBook`, `PocketPhone` | the phone calendar: the download merge, and every run of edits, moves, removals and downloads |
| `Migrations`, `MigrationOutcomes` | the embedded database start: module instances, callers and migration passes in any interleaving, with failures; what becomes of each caller |
| `StudioFinance`, `Balances` | grouped balances, and what they mean row by row |
| `Statements`, `CustomerLines` | the monthly statement: its totals, and each customer's line |
| `Payments`, `Commission` | payment and receipt plans, the requests they belong to, the studio's share |
| `Estimate`, `EstimateTheorems` | the price estimator |
| `Intake`, `IntakeAnswers` | the intake dialogue: what every run guarantees, and what each answer is taken to say |
| `CookieJar`, `CookieTheorems`, `CookieHeaders` | the smoke-test cookie adapter: jars, ingestion, single headers and lines |
| `Text`, `Numbers`, `OrderedMap` | strings, numerals, rounding and insertion-ordered maps used by the above |

Loops and objects of the source are methods and classes here, each proved equal to a specification
function; the promises are lemmas about those functions.

Conventions. Instants are whole milliseconds. The Tehran offset is the fixed three and a half hours
that `src/lib/hours.ts:7` states. `Date.UTC` reads the years 0 to 99 as 1900 to 1999, and a day key of
such a year, or of a negative one, does not lead back to its own day; `Tehran.Dated` (year 100 or
later) is therefore the condition on dates, and `Tehran.ShiftsAdd` proves that it is the exact one.
A part of a day key or clock time is a number when it consists of digits (the empty part is 0) and
NaN otherwise. Weekdays stand for their index in `WEEKDAYS_FA`. Money is whole tomans, ratios and
rounding arguments are reals, and `Math.round(x)` is floor(x + 1/2). A database transaction is atomic:
in `Migrations` a commit publishes what the pass has executed and inserted, and anything else discards
it. In `Payments` each handler is one step, so two requests racing between a check and its update are
not part of the model.

## What does not hold, and when it does

- Shifting a key by a and then b (`src/lib/hours.ts:50-54`) equals shifting by a + b exactly when the
  day between has a year of 100 or more (`Tehran.ShiftsAdd`).
- A download merges into the rows it saw before waiting for the server
  (`src/routes/studio.pocket.tsx:150-157`), so any move made meanwhile is lost
  (`PocketPhone.MoveDuringDownloadLost`); a protected row survives exactly when the download had seen
  it (`PocketPhone.FinishKeepsSeen`).
- Saving the draft of a row that a download or a removal took away drops the draft without a trace
  (`src/routes/studio.pocket.tsx:139`); `PocketPhone.SavedRow` gives both directions.
- Design keys join their parts with a bar (`src/lib/studio-finance.ts:103`), so two customers whose
  `who` contains one can share a design (`Statements.CrossedKeys`), and the lines then show more than
  is owed (`Statements.SharedKeyCountsTwice`). The lines stay within what is owed, for all amounts,
  exactly when the keys keep the customers apart (`Statements.LinesWithinReceivable`), as they do
  when no `who` contains a bar (`Statements.NoPipeTellsCustomers`).
- Approving a receipt must not add the deposit if it is already in the balance, says the comment at
  `src/lib/studio-finance.ts:237`. It does when staff recorded the deposit under any other note
  (`Payments.DepositCountedTwice`). `Payments.ApprovalAfterRun` gives the exact condition, for any
  balance and ledger at the start. Once a row bears the deposit's note, no later deposit of the request
  is added, not even after a cancellation and a new offer (`Payments.DepositNeverAddedAgain`), as long as
  staff neither delete nor rename that row (`src/lib/server/writes.ts:3600-3690`, not modelled).
- At most one receipt of a request is approved without a cancellation (`Payments.ReceiptApprovedOnce`),
  except that a later session is stored as booked with the payment status of its parent
  (`src/lib/server/writes.ts:4696-4706`), so a submitted receipt may still be approved there. Each
  submitted receipt is approved at most once in any case.
- Fixing the request type at the confirm step sends the request without the images the new type
  asks for (`Intake.CoverWithoutBodyImage`; exact condition in `Intake.TypeFixImages`).
- A phone number with a doubled country code is accepted but not stored in the 09 form
  (`Intake.DoubledCountryCode`; exact condition in `Intake.StoredPhoneForm`).
- `render_jar` taken by itself prints a cookie whose host reads as a comment as one
  (`CookieTheorems.JarRoundTrip` gives both directions). The script never gets there: hosts it reads are
  not comments, and those it stores come from the base URL.
- A tab in a cookie's value cuts the value when the jar is read back, so the jar read is the jar stored
  exactly when no name and no value holds a tab (`CookieTheorems.IngestedJarReads`), and two batches
  differ from one exactly when a cut cookie is not stored again or dropped by the second
  (`CookieTheorems.IngestTwice`; `CookieTheorems.TabbedValueCut` is an instance). A tab in a cookie's
  name moves its value to another name; `IngestTwice` is stated for batches that leave no such name.
- With an even number of usable ratios the calibration median is rounded, which leaves only the
  factors 0.75, 1 and 1.6 (`EstimateTheorems.CalibrationRange`).

## Model

| member | source | states |
|---|---|---|
| Civil.DayRoundTrip | src/lib/hours.ts:22-25 | every day number stands for a valid date that leads back to it |
| Civil.DateRoundTrip | src/lib/hours.ts:22-25 | every valid date leads to a day number that stands for it |
| Civil.NextDay | src/lib/hours.ts:52-53 | adding one to a day number is the calendar's rule for tomorrow, counted from 1970-01-01 |
| Civil.DayOrder | src/lib/hours.ts:52-53 | day numbers order exactly as their dates do |
| Civil.YearStartClosed | src/lib/hours.ts:268-272 | counting years one by one agrees with the closed form of section 21.4.1 of ECMA-262 |
| Tehran.ClockOfLocal | src/lib/hours.ts:19-30 | tehranClock undoes tehranLocalToIso for every valid date and minute, weekday included |
| Tehran.LocalOfClock | src/lib/hours.ts:19-30 | tehranLocalToIso undoes tehranClock up to the seconds within the minute |
| Tehran.KeyInjective | src/lib/hours.ts:45-48 | different days print different keys |
| Tehran.KeyOrder | src/lib/hours.ts:345 | for four-digit years, keys compare as strings exactly as their days compare |
| Tehran.ShiftOfKey | src/lib/hours.ts:50-54 | shifting a key moves its day by exactly that many days, across months and years |
| Tehran.ShiftsAdd | src/lib/hours.ts:50-54 | two shifts add up if and only if the day between has a year of at least 100 |
| Tehran.SwapTradesDays | src/lib/hours.ts:33-43 | nothing exactly on equal days; otherwise the days trade places and clock times and durations stay |
| Tehran.SwapTwice | src/lib/hours.ts:33-43 | swapping twice restores a start if and only if it lies on a whole minute |
| Tehran.WeekBounds | src/lib/hours.ts:57-70 | the bounds are midnights of a Saturday, k weeks from the one on or before the given day, and of the next |
| Tehran.WeeksTile | src/lib/hours.ts:57-70 | week k ends where week k + 1 starts, and holds an instant exactly when its Saturday is k weeks away |
| StudioWeeks.ComputeWeekKey | src/lib/studio-artists.ts:45-54 | the moved date and the ceiling give the specified label, for every key |
| StudioWeeks.LabelIsIsoWeek | src/lib/studio-artists.ts:45-54 | the label is the year of the week's Thursday and the count of weeks from that year's first Thursday |
| StudioWeeks.WeekNumbers | src/lib/studio-artists.ts:45-54 | numbers run from 1 to 53; week 1 holds the first Thursday and January 4; week 53 only in long years |
| StudioWeeks.SameKeySameWeek | src/lib/studio-artists.ts:45-54 | two days get the same key if and only if they lie in the same Monday-to-Sunday week |
| Hours.ToBusyRanges | src/lib/hours.ts:212-227 | the loop yields the ranges of the parsable, non-empty entries, bare starts with the fallback length |
| Hours.PushShift | src/lib/hours.ts:309-318 | the innermost loop offers exactly the whole jobs that fit between opening and closing |
| Hours.BuildSlotGrid | src/lib/hours.ts:244-321 | the loops yield the specified grid for every query, long jobs and special days included |
| Hours.BuildSlots | src/lib/hours.ts:233-242 | the free part of that grid |
| Hours.FirstOpenCustomerDay | src/lib/hours.ts:73-82 | the ninety-day loop yields the specified key |
| SlotTheorems.MinutesOfClock | src/lib/hours.ts:93-97 | a two-digit clock time reads as its minute of the day, midnight as 1440 |
| SlotTheorems.RowIsLast | src/lib/hours.ts:259 | the row in force for a weekday is the last one given for it |
| SlotTheorems.FreeSlotsExact | src/lib/hours.ts:244-321 | over the fields of the query: a slot is free if and only if it is as long as the job asked for (the given minutes, else the studio's slot length, else an hour; ten minutes at least), starts k whole jobs after an opening, ends by closing, begins twenty minutes from now or later, and its padded interval misses every busy entry; a job of twelve hours or more starts at the first opening of every max(1, round(minutes / 1440))-th day of max(days, five such spans) days; overnight minutes fold onto the same date |
| SlotTheorems.GridHolds | src/lib/hours.ts:244-321 | the same of the whole grid, which shows occupied starts exactly when asked to |
| SlotTheorems.ShiftsInForce | src/lib/hours.ts:104-111 | the shifts of a day: those of its special entry, none when that is closed; else those of the weekday's row with both times, or its single pair of times when it lists none |
| SlotTheorems.SpecialIsLast | src/lib/hours.ts:260 | the special day in force for a key is the last one given for it |
| SlotTheorems.ShiftOfClocks | src/lib/hours.ts:310-312 | a shift opens at its clock minute, and a close at or before that lies on the next day |
| SlotTheorems.OverlapShares | src/lib/hours.ts:194-196 | two stretches of time overlap if and only if they share an instant |
| SlotTheorems.SlotKeepsItsDate | src/lib/hours.ts:282-299 | every slot starts on the Tehran date its key names and at the time it shows, within the window |
| SlotTheorems.SlotsIncrease | src/lib/hours.ts:267-319 | long jobs, and tidy shifts within the day, give strictly increasing starts |
| SlotTheorems.NeverDoubleBooked | src/lib/hours.ts:212-321 | over any run of rounds, every slot taken misses the original busy ranges and all earlier bookings, its own buffers included |
| StudioApprentices.ThursdayOfKey | src/lib/studio-apprentices.ts:113-117 | the key test is true exactly on Thursdays |
| StudioApprentices.UpcomingThursdays | src/lib/studio-apprentices.ts:119-134 | the 400-day loop yields the specified list for every count |
| StudioApprentices.ThursdaysAreTheFirst | src/lib/studio-apprentices.ts:119-138 | up to 57, the list is the first `count` Thursdays from today, in order and one week apart |
| StudioApprentices.ThursdaysOf400Days | src/lib/studio-apprentices.ts:119-138 | for any count the list holds Thursdays of the next 400 days only, and from 58 on all of them |
| StudioApprentices.FirstOpenDay | src/lib/hours.ts:72-82 | fed with 13 or more weeks of Thursdays, the day is the earliest unblocked non-Thursday of the next 90, and today only when all are blocked |
| StudioApprentices.CloseThursdayHours | src/lib/studio-apprentices.ts:165-173 | the copy with Thursday rows closed, one pushed when there is none |
| StudioApprentices.ThursdayProtected | src/lib/studio-apprentices.ts:165-173 | a grid on closed hours is the open grid without exactly the Thursday slots that no special day restores |
| PocketBook.ApplyDownload | src/lib/pocket-book.ts:73-106 | the three loops over the map yield the specified rows |
| PocketBook.MergeIs | src/lib/pocket-book.ts:73-106 | on a well-formed phone the merge keeps the protected rows in order and appends the server's fresh ones |
| PocketBook.DownloadWellFormed | src/lib/pocket-book.ts:73-106 | downloads keep ids unique, server rows named after their job, and unpinned ones bare |
| PocketBook.EveryJobOnce | src/lib/pocket-book.ts:85-104 | after a download every job sent is present exactly once: the pinned row unchanged, or field by field what the last entry of that id says, unpinned and bare |
| PocketBook.LastOfIs | src/lib/pocket-book.ts:85-104 | the entry that counts is the one that no later entry of its id follows |
| PocketBook.DownloadHolds | src/lib/pocket-book.ts:73-106 | a row after a download is a protected one unchanged or a fresh one of an unpinned job; no protected row is lost |
| PocketBook.HistoryIndependent | src/lib/pocket-book.ts:73-106 | downloading I1 and then I2 gives the same rows, in the same order, as downloading I2 alone |
| PocketBook.DownloadIdempotent | src/lib/pocket-book.ts:73-106 | downloading the same jobs twice changes nothing |
| PocketPhone.Phone.PressDay | src/routes/studio.pocket.tsx:98-115 | the handler is the move step, or the selection step, on the whole state |
| PocketPhone.Phone.PressSave | src/routes/studio.pocket.tsx:117-143 | the handler is the save step on the whole state |
| PocketPhone.Phone.PressRemove | src/routes/studio.pocket.tsx:145-148 | the handler is the removal step on the whole state |
| PocketPhone.Phone.ServerAnswered | src/routes/studio.pocket.tsx:150-165 | the answer merges into the rows captured when the download started |
| PocketPhone.RunKeepsGood | src/routes/studio.pocket.tsx:98-165 | every run of add, edit, move, remove, download and reopening keeps the phone well-formed |
| PocketPhone.ReachableDownloads | src/lib/pocket-book.ts:73-106 | wherever a run leads from a well-formed phone, pages opened again included, downloads are history independent and idempotent |
| PocketPhone.EmptyPhoneDownloads | src/routes/studio.pocket.tsx:66-165 | so it is on every phone that started empty |
| PocketPhone.SavedRow | src/routes/studio.pocket.tsx:117-143 | a saved draft is on the phone if and only if it is new or its row is still there, with name, phone, style, placement, time, note, price digits, size and photo from the same field of the draft, on the selected day, pinned, with its row's id and job; otherwise no row changes |
| PocketPhone.TypedAndSaved | src/routes/studio.pocket.tsx:117-143 | a new draft that is saved lies behind all rows there were, which stay as they are |
| PocketPhone.MovedRow | src/routes/studio.pocket.tsx:98-112 | a moved row lies on its new day, pinned, otherwise unchanged, and every other row stays |
| PocketPhone.RemovedRow | src/routes/studio.pocket.tsx:145-148 | a confirmed removal takes away exactly the row of that id; an unconfirmed one nothing |
| PocketPhone.EditsSurvive | src/routes/studio.pocket.tsx:98-165 | over any run a pinned or phone-only row stays exactly as it is until the user touches it |
| PocketPhone.FinishKeepsSeen | src/routes/studio.pocket.tsx:154-157 | a finishing download keeps a protected row if and only if it had seen that row at its start |
| PocketPhone.MoveDuringDownloadLost | src/routes/studio.pocket.tsx:150-157 | any move of a protected row made while a download waits is undone by its answer |
| Migrations.PendingResumes | scripts/migration-plan.mjs:39-46 | after the first k files of a plan, what is pending is the rest of that plan |
| Migrations.Database.Migrate | src/lib/db.ts:151-169 | one pass applies and records its pending files, or exactly those before the failing one |
| Migrations.RunKeepsInv | src/lib/db.ts:119-223 | the invariant of slots, chain, passes and tables holds after every run of events |
| Migrations.OnePassAtATime | src/lib/db.ts:170-174 | over every interleaving of callers, instances and failures, at most one pass is active |
| Migrations.AppliedOnceAndRecorded | src/lib/db.ts:161-168 | committed files equal recorded names at every step, and no file commits twice |
| Migrations.InsertNeverClashes | src/lib/db.ts:42-48 | no pass ever inserts a name that is already recorded |
| Migrations.FailureLeavesPrefix | src/lib/db.ts:161-168 | a failed pass leaves exactly a prefix of its plan on top of what it found |
| Migrations.NextPassResumes | src/lib/db.ts:157-161 | a later pass over the same files plans exactly the rest, less what other passes have committed in between |
| Migrations.ReadyHasSchema | src/lib/db.ts:200-206 | a resolved client has every file of its module instance applied |
| Migrations.NeverWedged | src/lib/db.ts:170-171 | while anything waits, some step without a new failure is possible |
| Migrations.WorkShrinks | src/lib/db.ts:119-223 | every step but a new instance or call uses up a bounded amount of work |
| Migrations.EveryStartSettles | src/lib/db.ts:119-223 | from any point of any run, steps without new failures bring every caller and pass to rest |
| MigrationOutcomes.SmoothRun | src/lib/db.ts:207-223 | in every run without failures nobody who called is ever rejected, and the database is opened at most once |
| MigrationOutcomes.SmoothStartsResolve | src/lib/db.ts:207-223 | every run without failures can be brought to rest with a client for each caller, all its files applied |
| MigrationOutcomes.PassDecides | src/lib/db.ts:215-222 | with failures: an instance that no longer waits for its pass has a client if the pass is done and is rejected if the pass failed, until it is called again |
| MigrationOutcomes.FailureRejects | src/lib/db.ts:138-141 | when the database fails to open, those who wait for that attempt are rejected, if anything, until they call again |
| MigrationOutcomes.OpenStays | src/lib/db.ts:123-142 | a database that has opened is kept, whatever happens later |
| MigrationOutcomes.OpenedOnce | src/lib/db.ts:123-142 | the database is opened at most once more than opening it has failed, however many instances call |
| MigrationOutcomes.CallIsMemoized | src/lib/db.ts:207-223 | a call of an instance with nothing under way joins the one attempt at the database; any other call changes nothing |
| StudioFinance.GroupedDesigns | src/lib/studio-finance.ts:100-113 | the loop over the map yields the specified designs, for any row order |
| StudioFinance.DesignIsFold | src/lib/studio-finance.ts:100-113 | a design is the fold of exactly the rows with its key |
| StudioFinance.PriceIsMaximum | src/lib/studio-finance.ts:105-106 | a design's price is the maximum over its counted rows |
| StudioFinance.PaidIsBestStart | src/lib/studio-finance.ts:107-108 | what is paid is exactly the best of all continuations, or one base payment and the continuations after it |
| StudioFinance.PaidBounds | src/lib/studio-finance.ts:107-108 | max(M, S) <= paid <= M + S for any order, and M + S with the base rows first |
| StudioFinance.ComputeOpenReceivable | src/lib/studio-finance.ts:115-122 | the loop sums the open part of each design, of the month or of all |
| StudioFinance.AccountTotals | src/lib/studio-finance.ts:124-135 | paid is the sum over the designs of what was paid up to the price, paid + remaining = price, remaining = openReceivable(rows, false), settled exactly when a price is fully covered |
| Balances.OneDesignOpen | src/lib/studio-finance.ts:115-122 | rows of one design owe max(0, price - paid), and nothing to the month unless one of them is of the month |
| Balances.ReceivableSplits | src/lib/studio-finance.ts:115-122 | for any rows and any key, the receivable is that of the rows of this design plus that of all others |
| Balances.SettledExactly | src/lib/studio-finance.ts:115-122 | nothing is open if and only if every design of the rows has paid >= price |
| Balances.MonthOfDesign | src/lib/studio-finance.ts:100-113 | a design counts for the month if and only if one of its rows does |
| Balances.AppliedAtMostPaid | src/lib/studio-finance.ts:124-135 | what is applied is at most what was paid, with equality if and only if no design is overpaid |
| Balances.OneMoreRow | src/lib/studio-finance.ts:100-113 | what one more row of a design does to its price and its payments, case by case |
| Balances.SameDesignKey | src/lib/studio-finance.ts:103 | two rows are of one design if and only if customer, style and placement agree |
| Balances.NormIgnores | src/lib/studio-finance.ts:103 | case and outer white space do not count in that |
| Statements.MonthCustomerLines | src/lib/studio-finance.ts:163-193 | the three loops and the sort yield the specified lines |
| Statements.SortedDescending | src/lib/studio-finance.ts:192 | the lines come with the most paid this month first |
| Statements.StatementCarriesPayments | src/lib/studio-finance.ts:163-193 | paidThisMonth over all lines is the sum of max(0, round(amount)) over all payments |
| CustomerLines.StatementCarriesAmounts | src/lib/studio-finance.ts:174-176 | for whole amounts that are not negative, the lines carry exactly the sum of the amounts |
| CustomerLines.ReceivedIs | src/lib/studio-finance.ts:174-176 | a payment brings in its amount rounded half up, and nothing when negative |
| CustomerLines.LineOfCustomer | src/lib/studio-finance.ts:163-193 | a customer has exactly one line when a job of the month or money received in it is there, none otherwise; it shows the customer's own price, paid and open part, this month's money, and the first name that is no mere title, else the latest, else a stand-in |
| CustomerLines.SortedArranged | src/lib/studio-finance.ts:192 | the most paid this month comes first, equal amounts by name, for any transitive order of names |
| Statements.StatementCarriesOpenMoney | src/lib/studio-finance.ts:163-193 | remaining over all lines lies between the month's receivable and the whole one, equal to the latter exactly when no hidden customer owes |
| Statements.NoPipeTellsCustomers | src/lib/studio-finance.ts:103 | design keys keep customers apart when no `who` contains the separator |
| Statements.SharedKeyCountsTwice | src/lib/studio-finance.ts:103 | any two customers whose keys run together, each owing one unpaid job, owe twice the price on their lines and once over all jobs |
| Statements.LinesWithinReceivable | src/lib/studio-finance.ts:103 | for all amounts the lines stay within the receivable if and only if the keys keep the customers apart |
| Statements.CrossedKeys | src/lib/studio-finance.ts:103 | two customers whose keys run together |
| Payments.ComputePaymentPlan | src/lib/studio-finance.ts:222-235 | the steps yield the specified plan |
| Payments.PlanShape | src/lib/studio-finance.ts:222-235 | paid is the larger record plus new money, inserts are positive with at most one catch-up, and the ledger catches up exactly when it was not negative |
| Payments.PlanRows | src/lib/studio-finance.ts:222-235 | the rows noted as earlier sum to what the ledger lacks, the new ones to the new money, earlier ones first |
| Payments.PaymentRun | src/lib/studio-finance.ts:221-235 | any run ends at max(recorded, ledger) plus the positive payments, with ledger equal to balance throughout and one catch-up at most |
| Payments.ReceiptRun | src/lib/studio-finance.ts:237-242 | over any run on a request, the larger of balance and ledger grows by the payments and the counted deposits, and at most one approval of the run counts one |
| Payments.ReceiptApprovedOnce | src/lib/server/writes.ts:1052-1109 | each submitted receipt is approved at most once; on a request whose status follows from being booked, at most one between two cancellations |
| Payments.DepositNeverAddedAgain | src/lib/studio-finance.ts:237-242 | with the deposit row present, no run of any events adds a deposit again |
| Payments.ApprovalAdds | src/lib/studio-finance.ts:238-242 | when exactly one approval adds the deposit |
| Payments.ApprovalAfterRun | src/lib/studio-finance.ts:237-242 | from any balance and ledger and after any run, an approval adds the deposit if and only if no row bears its note and either money was paid in or a receipt approved since, or the balance exceeded the ledger by less than the deposit |
| Payments.DepositCountedTwice | src/lib/server/writes.ts:4293-4303 | from a new request, a deposit that staff record under another note is counted twice by its approval, under its own note once |
| Payments.ReceiptPath | src/lib/server/writes.ts:1023-1109 | a receipt on an open hold goes to review, turned down it may be sent again, approved it books; a late one expires the request |
| Payments.OfferPath | src/lib/server/writes.ts:825-1021 | an accepted offer opens a hold; no other can be proposed while one is open, under review or booked |
| Payments.CancelPath | src/lib/server/writes.ts:4195-4224 | a cancelled request keeps its money and can be offered anew |
| Commission.SplitExact | src/lib/tattoo-flow.ts:376-382 | studio + artist = gross, both within it, and the studio share is within half a toman of the rate |
| Commission.SharesGrow | src/lib/tattoo-flow.ts:376-382 | neither share falls when the takings grow |
| Commission.DealsAgree | src/lib/studio-artists.ts:31-36 | for rates of at most two decimals the two share rules agree |
| Commission.WholePercents | src/lib/studio-artists.ts:31-36 | whole percents are such rates |
| Commission.ShareIsPercent | src/lib/tattoo-flow.ts:376-382 | the studio's share is the given percent, to half a toman and half a hundredth of a percent; none at 0, all at 100 and beyond |
| Commission.PercentDeal | src/lib/studio-artists.ts:31-36 | the percent deal takes the given percent of what was earned, to half a toman, and nothing of a loss |
| Commission.ChairDeals | src/lib/studio-artists.ts:31-36 | a day more costs exactly the amount under a daily deal and nothing under a weekly one, a week more the reverse, an own chair nothing |
| Estimate.ComputeSampleScore | src/lib/tattoo-estimate.ts:125-137 | adding points one by one gives the specified score |
| EstimateTheorems.ScoreRange | src/lib/tattoo-estimate.ts:118-137 | a score lies between 0 and 116 |
| EstimateTheorems.RankOrder | src/lib/tattoo-estimate.ts:160-162 | the ranking is a permutation of the scored samples, better ones first |
| EstimateTheorems.RankStable | src/lib/tattoo-estimate.ts:160-162 | samples of equal score and anchor keep their order |
| EstimateTheorems.PickedAreBest | src/lib/tattoo-estimate.ts:163-165 | picked samples are within one size band, and one of the right size is left out only behind five that score as high or higher, anchors before others at equal score |
| EstimateTheorems.FivePicked | src/lib/tattoo-estimate.ts:163-165 | at most five are picked, none twice, and all of the right size when fewer |
| EstimateTheorems.RequestPoints | src/lib/tattoo-estimate.ts:118-137 | the same request counts 24 points, another rework for a rework 12, any other none |
| EstimateTheorems.BandPoints | src/lib/tattoo-estimate.ts:118-137 | the same size band counts 20 points, the next 8, any other none |
| EstimateTheorems.SharedPoints | src/lib/tattoo-estimate.ts:118-137 | places count 26 and styles 22 points times the share of common tokens, and nothing else adds to a score |
| EstimateTheorems.OverlapIsShare | src/lib/tattoo-estimate.ts:118-123 | that share is the number of common tokens over the longer of the two lists |
| EstimateTheorems.MedianIsMiddle | src/lib/tattoo-estimate.ts:139-144 | of every ascending arrangement of the values the median is the middle one, or the rounded mean of the middle two |
| EstimateTheorems.MedianPermuted | src/lib/tattoo-estimate.ts:139-144 | the order of the values does not matter |
| EstimateTheorems.MedianHalves | src/lib/tattoo-estimate.ts:139-144 | of an odd number of values at most half lie below the median and at most half above |
| EstimateTheorems.MedianGrows | src/lib/tattoo-estimate.ts:139-144 | raising values never lowers their median |
| EstimateTheorems.MedianBetween | src/lib/tattoo-estimate.ts:139-144 | the rounded median of whole numbers stays within their bounds |
| EstimateTheorems.RoundMoneyGrows | src/lib/tattoo-estimate.ts:146-149 | money rounding keeps order across the step change at 5 000 000 |
| EstimateTheorems.RoundMoneyNearest | src/lib/tattoo-estimate.ts:146-149 | money is rounded to the nearest 100 000, from 5 000 000 on to the nearest 500 000, half up, and to one step at least |
| EstimateTheorems.RaisingPricesRaisesEstimate | src/lib/tattoo-estimate.ts:158-226 | raising positive sample prices never lowers either bound nor withdraws the estimate |
| EstimateTheorems.EstimateIs | src/lib/tattoo-estimate.ts:158-226 | from the picked prices, size bands and usable ratios in any ascending arrangement: the middle price, the range around it scaled by size, colour and calibration, and the confidence |
| EstimateTheorems.NoEstimate | src/lib/tattoo-estimate.ts:158-226 | fewer than two samples of the right size give no price and low confidence |
| EstimateTheorems.WorkIs | src/lib/tattoo-estimate.ts:158-226 | fifty minutes a point of complexity, in as few sessions of three hours as hold them |
| EstimateTheorems.EstimateOrdered | src/lib/tattoo-estimate.ts:158-226 | min <= max, given exactly from two picked samples on, and the median lies between the cheapest and dearest pick |
| EstimateTheorems.CalibrationRange | src/lib/tattoo-estimate.ts:151-156 | the factor stays within 0.75 and 1.6, and an even count leaves only 0.75, 1 and 1.6 |
| EstimateTheorems.FactorIs | src/lib/tattoo-estimate.ts:151-156 | the factor is the middle of the positive ratios within 0.75 and 1.6, and 1 when there are fewer than three |
| EstimateTheorems.CalibrationGrows | src/lib/tattoo-estimate.ts:151-156 | raising usable past ratios, with the unusable ones as they are, never lowers the factor |
| EstimateTheorems.RaisingRatiosRaisesEstimate | src/lib/tattoo-estimate.ts:158-226 | raising usable past ratios never lowers either bound nor withdraws the estimate |
| Intake.TurnSound | src/lib/intake-desk.ts:77-167 | one turn keeps all accepted fields and emits only complete payloads, only in confirm |
| Intake.PayloadsComplete | src/lib/intake-desk.ts:64-167 | on every run a payload carries an accepted name, a valid mobile, a listed type, part and side, and sizes in 1..60 |
| Intake.TurnProgress | src/lib/intake-desk.ts:203-215 | outside fixes an accepted answer moves strictly forward, any other answer stays, and confirm is reached with a payload |
| Intake.SevenOrEightAnswers | src/lib/intake-desk.ts:313-322 | from any draft at the name, the payload comes with the seventh accepted answer, the eighth for covers and repairs, and not before |
| IntakeAnswers.TurnRemembers | src/lib/intake-desk.ts:77-167 | one turn changes the field of the question it answers, to the earliest listed option that the answer picks or mentions or the value it types, or a part first heard in talk, and no other |
| IntakeAnswers.RunRemembers | src/lib/intake-desk.ts:64-167 | on every run, fixes and talk included, each field of a draft and of a payload is what the last accepted answer at its question says |
| IntakeAnswers.AcceptedExactly | src/lib/intake-desk.ts:105-155 | when an answer is accepted, question by question |
| IntakeAnswers.AcceptedLeads | src/lib/intake-desk.ts:97-103 | an accepted answer leads to the next question, one in a fix back to confirm |
| IntakeAnswers.ConfirmLeads | src/lib/intake-desk.ts:158-167 | a yes sends the payload, a pick to fix opens that question, anything else stays |
| IntakeAnswers.ImagesAsSent | src/lib/intake-desk.ts:79-83 | the images are the ones last sent, and nothing else changes them |
| IntakeAnswers.AssistantAsked | src/lib/intake-desk.ts:77-103 | the assistant is asked exactly for the customer's own questions |
| IntakeAnswers.PhoneKeepsDigits | src/lib/format.ts:132-144 | the number stored ends in the ten digits typed |
| IntakeAnswers.MobileExactly | src/lib/format.ts:132-144 | digits are accepted if and only if, behind the country code, they are ten from a 9 on, with or without a zero in front |
| Intake.StoredPhoneForm | src/lib/format.ts:132-144 | an accepted number is stored in the 09 form if and only if one country code accounts for the length of its digits |
| Intake.DoubledCountryCode | src/lib/format.ts:132-144 | a number with a doubled country code is accepted and stored otherwise |
| Intake.SteadyRunsHaveImages | src/lib/intake-desk.ts:145-154 | on runs that never fix the type and never drop an image, every payload has its required images |
| Intake.SteadyStartsHaveImages | src/lib/intake-desk.ts:64-75 | so it is from both starts |
| Intake.TypeFixImages | src/lib/intake-desk.ts:158-167 | after fixing the type, picked or typed, and confirming, the images are there if and only if the flags as last sent cover the new type |
| Intake.CoverWithoutBodyImage | src/lib/intake-desk.ts:158-167 | a new tattoo turned into a cover is sent without an image of the body |
| CookieJar.JarPairs | scripts/align-smoke-cookie-jar.py:27-39 | the loop yields the specified pairs |
| CookieJar.RenderJar | scripts/align-smoke-cookie-jar.py:42-47 | the loop yields the specified text |
| CookieJar.AlignJar | scripts/align-smoke-cookie-jar.py:50-74 | the loop yields the specified text |
| CookieJar.CookieExpired | scripts/align-smoke-cookie-jar.py:77-93 | the attribute dictionary decides by the last max-age |
| CookieJar.IngestHeaders | scripts/align-smoke-cookie-jar.py:104-123 | aligning, folding in the headers and printing yield the specified text |
| CookieJar.CookieHeader | scripts/align-smoke-cookie-jar.py:126-130 | the header lists the pairs of the jar in order |
| CookieTheorems.JarRoundTrip | scripts/align-smoke-cookie-jar.py:27-47 | reading a printed jar gives the same cookies in the same order if and only if no plain host reads as a comment |
| CookieTheorems.AlignIdempotent | scripts/align-smoke-cookie-jar.py:50-74 | aligning an aligned jar changes nothing |
| CookieTheorems.IngestTwice | scripts/align-smoke-cookie-jar.py:104-123 | ingesting two header batches in turn prints the same jar as ingesting both at once if and only if every cookie left with a tab in its value is stored again or dropped by the second |
| CookieTheorems.TabbedValueCut | scripts/align-smoke-cookie-jar.py:104-123 | a cookie value with a tab for which they differ |
| CookieTheorems.LastWriteWins | scripts/align-smoke-cookie-jar.py:107-122 | ingesting is a map update with deletion in which the last word on each name wins |
| CookieTheorems.IngestedJarReads | scripts/align-smoke-cookie-jar.py:104-130 | the jar on disk reads as exactly the updated pairs, which the Cookie header then sends, if and only if none of them holds a tab in its name or value |
| CookieHeaders.MaxAgeHeader | scripts/align-smoke-cookie-jar.py:77-122 | `n=v; Max-Age=k` stores n with v if and only if v is not empty and k > 0, and drops n otherwise |
| CookieHeaders.LastAgeCounts | scripts/align-smoke-cookie-jar.py:77-93 | of two ages the second decides |
| CookieHeaders.AgedCookie | scripts/align-smoke-cookie-jar.py:104-122 | a jar after such a header holds the cookie exactly when its age is above zero |
| CookieHeaders.HttpOnlyHeader | scripts/align-smoke-cookie-jar.py:104-122 | a cookie marked HttpOnly in any case is stored as one |
| CookieHeaders.AlignKeepsJar | scripts/align-smoke-cookie-jar.py:50-74 | aligning changes nothing of the jar but the host and, without HTTPS, the secure flag, unless a line is blank behind its HttpOnly mark |
| CookieHeaders.LineFormat | scripts/align-smoke-cookie-jar.py:42-47 | a printed cookie is its seven fields with tabs between them |

## Left out

- Routes and React components apart from the four phone handlers, IndexedDB, fetches, confirm dialogs and toasts: user interface and I/O; what they deliver is a parameter of the model.
- The upper end of JavaScript dates (year 275760) and fractional minutes or durations: the calendar here is unbounded and minutes are whole.
- Number parsing beyond digit runs (signs, exponents, white space in key parts; underscores and other scripts in `int`): such parts read as NaN or raise.
- Case folding and trimming outside ASCII letters and the listed white-space characters.
- `jalaliDayLabel` and the other Intl labels, slot statuses and month views built on the grid (`src/lib/hours.ts:323-450`): they only count or print slots.
- The order `localeCompare` gives names: it is any function in `Statements`, and the fixed order of the file list in `Migrations`.
- The Neon pool, the geo seed (its errors are swallowed) and `getPglite`: no shared migration state.
- `Estimate`: token splitting and the size-band patterns stand for their results; the explanatory texts of an estimate are not modelled; ratios are finite.
- `Intake`: the wording, chips and assistant answers of a turn, the requested day of a payload, and Persian pattern details; sizes are the numbers matched, and `sizeLabel` is always empty in the source.
- `Payments`: of `src/lib/server/writes.ts` the payment, offer, receipt, cancellation and reconciliation steps of one request are modelled by what they do to its money and status; editing or deleting single ledger rows, payments redirected from follow-up sessions, slots, messages and bookings are not.
- `PocketPhone`: a download that outlives the page it was started on, and a page closed while its rows are being stored.
- Floating point: products and quotients are exact reals.
