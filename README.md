# Worklog remittances, modelled in Dafny

This project models the remittance bookkeeping of a worklog and payout
application, `backend/app/api/routes/worklogs/service.py`. Workers log work
against tasks. A worklog is worth its ACTIVE time at the task's hourly rate
plus its adjustments. A batch run pays every active user who has at least one
unpaid worklog of positive amount one remittance, whose total is the sum of
those positive amounts; other active users are skipped. A paginated listing
shows each worklog with its amount and whether it has been paid.

The database is modelled as one snapshot of its tables, `Models.Tables`:
one sequence of rows per table, in stored order. The SQL session is the
class `Models.Session`, which holds a snapshot and appends rows to it.

- Queries become filters over the sequences (`Seqs.Filter`).
- `session.get` by primary key becomes a search for the first row with that id.
- `add` / `flush` / `commit` become appends.

The two service entry points are imperative methods over the session:

- `Service.GenerateRemittancesForAllUsers` loops over the active users. It
  accumulates each user's total in a loop and appends the remittance row
  and its link rows.
- `Service.ListAllWorklogs` follows the source's branches. This includes
  the early return when REMITTED is asked for while nothing is paid; the
  model proves the filtered query would return the same empty page anyway.

Each method is proved equal to a function of the tables: `Service.Generate`
and `Service.Listing`. The properties are then proved about those functions:

- `AmountProps`: the amount formula, against a reference definition.
- `UnremittedProps`: the unpaid-worklog selection.
- `GenerationProps`: soundness, completeness and idempotence of the batch,
  through a loop invariant over the users visited.
- `ListingProps`: status parsing, paging, the partition into paid and
  unpaid, and the meaning of each row.

The model follows the code: there is no markup, no settle-once operation per
worklog and no audit log. Money is exact (`real`).

Generation reads the tables as they stand after the users before it. The
session flushes before each query, so the link rows added for earlier users
are visible to later ones.

## Model

| member | source | states |
|---|---|---|
| Seqs.Filter | backend/app/api/routes/worklogs/service.py:54-57 | a filtered query keeps exactly the rows satisfying the condition, and no more rows than it started with |
| Seqs.FilterCount | backend/app/api/routes/worklogs/service.py:54-57 | a filtered query keeps every row that satisfies the condition as often as it occurs, and drops every other row |
| Seqs.FilterSubsequence | backend/app/api/routes/worklogs/service.py:54-57 | a filtered query keeps the surviving rows in their stored order |
| Seqs.FilterPartition | backend/app/api/routes/worklogs/service.py:136-143 | a condition and its negation split a table: the multisets and the lengths of the two results add up to the table |
| Service.FindTask | backend/app/api/routes/worklogs/service.py:30 | the task lookup returns a task with the requested id, and returns nothing exactly when no task has that id |
| Service.HourlyRate | backend/app/api/routes/worklogs/service.py:30-31 | the rate is 0 when the task is missing, and otherwise the hourly rate of a task with that id |
| AmountProps.AmountFormula | backend/app/api/routes/worklogs/service.py:19-40 | `Service.CalculateWorklogAmount`: a worklog's amount is (the sum of its ACTIVE segments' minutes) / 60 × the hourly rate + the sum of its adjustments; both sums are against reference definitions that walk each table once |
| AmountProps.ActiveMinutesMatchReference | backend/app/api/routes/worklogs/service.py:22-27 | the minutes summed over the query for ACTIVE segments of the worklog equal the reference minute count |
| AmountProps.AdjustmentsMatchReference | backend/app/api/routes/worklogs/service.py:37-38 | the sum over the adjustment query equals the reference adjustment total |
| AmountProps.AmountIgnoresOtherSegments | backend/app/api/routes/worklogs/service.py:22-27 | a segment of another worklog, or one that is not ACTIVE, inserted anywhere leaves the amount unchanged |
| AmountProps.AmountIgnoresOtherAdjustments | backend/app/api/routes/worklogs/service.py:37-38 | an adjustment of another worklog, inserted anywhere, leaves the amount unchanged |
| AmountProps.AmountAddsActiveSegment | backend/app/api/routes/worklogs/service.py:22-34 | one more ACTIVE segment of the worklog adds its minutes / 60 × the rate |
| AmountProps.AmountAddsAdjustment | backend/app/api/routes/worklogs/service.py:37-40 | one more adjustment of the worklog adds its amount |
| AmountProps.AmountWithoutTask | backend/app/api/routes/worklogs/service.py:30-31 | when the task is missing, the amount is the adjustment total alone |
| AmountProps.AmountOfEmptyWorklog | backend/app/api/routes/worklogs/service.py:27 | with no ACTIVE segment and no adjustment the amount is 0 |
| Service.RemittedIds | backend/app/api/routes/worklogs/service.py:46-51 | the paid set holds exactly the worklog ids of the link rows joined to a SUCCEEDED remittance |
| Service.GetUnremittedWorklogs | backend/app/api/routes/worklogs/service.py:43-57 | a worklog is returned exactly when it belongs to the user and no link to a SUCCEEDED remittance names its id |
| UnremittedProps.UnremittedExactly | backend/app/api/routes/worklogs/service.py:43-57 | the result holds each such worklog as often as the table does, in table order |
| UnremittedProps.UnremittedIgnoresUnsucceededLinks | backend/app/api/routes/worklogs/service.py:46-50 | a link to a remittance that is not SUCCEEDED excludes nothing |
| UnremittedProps.SucceededLinkExcludes | backend/app/api/routes/worklogs/service.py:46-57 | a link to a SUCCEEDED remittance removes its worklog from every user's unpaid worklogs |
| UnremittedProps.RemittedIdsGrow | backend/app/api/routes/worklogs/service.py:46-51 | appending remittance rows and link rows never shrinks the paid set |
| UnremittedProps.UnremittedShrinks | backend/app/api/routes/worklogs/service.py:43-57 | after such appends, a user's unpaid worklogs are among the earlier ones |
| Service.Contributions | backend/app/api/routes/worklogs/service.py:79-83 | the collected pairs are exactly the worklogs of strictly positive amount, each with its amount |
| GenerationProps.ContributionsArePositiveWorklogs | backend/app/api/routes/worklogs/service.py:79-83 | the worklogs of the collected pairs are the positive-amount worklogs filtered from the unpaid list, one entry each, in list order |
| GenerationProps.ContributionsCount | backend/app/api/routes/worklogs/service.py:79-83 | each positive-amount worklog is collected as often as it occurs in the unpaid list, every other worklog never, and in list order |
| GenerationProps.ContributionsTotal | backend/app/api/routes/worklogs/service.py:76-83 | `Service.TotalOf`: the running total is the sum of the strictly positive amounts of the unpaid worklogs, against a reference sum |
| Service.CollectContributions | backend/app/api/routes/worklogs/service.py:76-83 | the loop's list is the collected pairs, and its running total is their sum |
| Service.LinksFor | backend/app/api/routes/worklogs/service.py:96-102 | one link row per collected pair, in order, each naming the new remittance, the worklog and its amount |
| Models.FreshRemittanceId | backend/app/api/routes/worklogs/service.py:93-94 | the id the flush assigns is used by no remittance row and no link row |
| Models.Session.AddRemittance | backend/app/api/routes/worklogs/service.py:88-94 | appends a remittance with the given user, total and status under a fresh id, returns that id, and changes nothing else |
| Models.Session.AddLink | backend/app/api/routes/worklogs/service.py:97-102 | appends one link row and changes nothing else |
| Service.AddLinks | backend/app/api/routes/worklogs/service.py:96-102 | the loop appends exactly the link rows of the collected pairs |
| Service.RemitUser | backend/app/api/routes/worklogs/service.py:72-104 | one user's pass only appends rows, and creates at most one remittance, counted in `created` |
| Service.RemitUserInSession | backend/app/api/routes/worklogs/service.py:72-104 | the loop body on the session produces exactly what one user's pass does |
| Service.RemitUsers | backend/app/api/routes/worklogs/service.py:67-107 | the run only appends rows, and the count it reports is the number of remittances appended |
| Service.ActiveUsers | backend/app/api/routes/worklogs/service.py:67-68 | the users visited are exactly the active ones |
| Service.Generate | backend/app/api/routes/worklogs/service.py:62-107 | the call only appends remittance and link rows, and its count is the number of remittances appended |
| Service.GenerateRemittancesForAllUsers | backend/app/api/routes/worklogs/service.py:62-107 | the method leaves the tables, and returns the count, given by the run over the active users in table order |
| GenerationProps.TotalPositive | backend/app/api/routes/worklogs/service.py:81-85 | a sum of strictly positive amounts is non-negative, and positive exactly when there is at least one amount |
| GenerationProps.LinkTotalOfLinksFor | backend/app/api/routes/worklogs/service.py:96-102 | the new link rows for a remittance add up to the collected total, and add nothing to any other remittance |
| GenerationProps.RemitUserCreatesIff | backend/app/api/routes/worklogs/service.py:72-104 | a user gets a remittance exactly when some unpaid worklog has a positive amount; otherwise nothing changes |
| GenerationProps.SettledAfterRemitUser | backend/app/api/routes/worklogs/service.py:72-104 | after a user's pass, no unpaid worklog of that user has a positive amount |
| GenerationProps.SettledPersists | backend/app/api/routes/worklogs/service.py:71-104 | later appends keep a settled user settled |
| GenerationProps.RemitUsersInv | backend/app/api/routes/worklogs/service.py:71-104 | the loop invariant holds over every prefix of the users: sound new remittances and links, settled visited users, one remittance per user |
| GenerationProps.GeneratedRemittancesAreSound | backend/app/api/routes/worklogs/service.py:76-94 | each new remittance is SUCCEEDED for an active user; its total is positive and equals the sum of its link rows; the user had an unpaid worklog of positive amount |
| GenerationProps.GeneratedLinksAreJustified | backend/app/api/routes/worklogs/service.py:79-102 | each new link row has a positive amount, points at a new remittance, and pays a worklog that was unpaid for that user before the call, at exactly its amount |
| GenerationProps.GenerateOncePerUser | backend/app/api/routes/worklogs/service.py:71-104 | no user receives two remittances from one call |
| GenerationProps.GenerateSettlesActiveUsers | backend/app/api/routes/worklogs/service.py:67-104 | after the call, no active user has an unpaid worklog of positive amount |
| GenerationProps.GenerateSkipsUsersWithoutEligibleWork | backend/app/api/routes/worklogs/service.py:72-86 | a user without an unpaid worklog of positive amount gets no remittance |
| GenerationProps.RemitSettledUsers | backend/app/api/routes/worklogs/service.py:71-86 | visiting only settled users changes nothing and creates nothing |
| GenerationProps.GenerateIdempotent | backend/app/api/routes/worklogs/service.py:62-107 | an immediate second call creates no remittance and leaves the tables as the first call left them |
| ListingProps.UpperIsWordIff | backend/app/api/routes/worklogs/service.py:129-130 | the upper case is an upper-case ASCII word exactly when the argument spells that word up to case |
| ListingProps.ParseStatusRemitted | backend/app/api/routes/worklogs/service.py:128-139 | `Service.ParseStatus`: the paid filter is chosen exactly when the argument is REMITTED in any mixture of cases |
| ListingProps.ParseStatusUnremitted | backend/app/api/routes/worklogs/service.py:128-143 | the unpaid filter is chosen exactly when the argument is UNREMITTED in any mixture of cases |
| ListingProps.ParseStatusRejects | backend/app/api/routes/worklogs/service.py:128-131 | a non-empty argument is rejected exactly when it spells neither word |
| ListingProps.ParseStatusIgnoresCase | backend/app/api/routes/worklogs/service.py:128-136 | upper-casing the argument first changes nothing |
| ListingProps.ParseStatusExamples | backend/app/api/routes/worklogs/service.py:128-136 | absent and empty select everything; "remitted", "UnReMiTtEd" and "remıtted" are accepted; "paid" and " REMITTED" are rejected |
| ListingProps.RejectedStatusIsEmpty | backend/app/api/routes/worklogs/service.py:128-131 | a rejected argument gives empty data and count 0, whatever the tables and the paging |
| ListingProps.NoStatusListsAll | backend/app/api/routes/worklogs/service.py:128-146 | absent and empty arguments list alike, and count every worklog |
| ListingProps.DefaultListing | backend/app/api/routes/worklogs/service.py:109-114 | with no status, skip 0 and limit 100 (the defaults) the count is every worklog and the page holds the rows of the first hundred worklogs, in table order |
| ListingProps.EmptyPageIff | backend/app/api/routes/worklogs/service.py:128-147 | the page is empty with count 0 exactly when the argument is rejected or nothing matches |
| Service.MatchingWorklogs | backend/app/api/routes/worklogs/service.py:133-145 | no filter keeps every worklog; REMITTED keeps exactly the paid ones, UNREMITTED exactly the unpaid ones |
| ListingProps.FiltersPartition | backend/app/api/routes/worklogs/service.py:133-145 | the REMITTED and UNREMITTED matches split the worklog table by membership in the paid set, each in table order |
| ListingProps.CountsAddUp | backend/app/api/routes/worklogs/service.py:133-146 | the REMITTED count plus the UNREMITTED count is the unfiltered count |
| Service.Window | backend/app/api/routes/worklogs/service.py:147 | the slice `[skip : skip + limit]` has length min(limit, max(0, count − skip)) and holds the matches from `skip` on, in order |
| Service.Listing | backend/app/api/routes/worklogs/service.py:110-179 | a page holds at most `limit` rows and at most `count` rows, the count is at most the number of worklogs, and a zero count comes with no rows |
| ListingProps.PageShape | backend/app/api/routes/worklogs/service.py:145-177 | the count is the number of matches, for any paging; the page holds the rows of the sliced matches, in order |
| ListingProps.PagesTile | backend/app/api/routes/worklogs/service.py:145-147 | two consecutive pages together are the page that spans both |
| Service.FirstSucceededLink | backend/app/api/routes/worklogs/service.py:155-161 | returns the first link row in table order that names the worklog and joins a SUCCEEDED remittance, or nothing when there is none |
| ListingProps.PaidIffPayingLink | backend/app/api/routes/worklogs/service.py:152-162 | a worklog is in the paid set exactly when that lookup finds a link row, so the fallback to 0 never applies |
| ListingProps.RowMeaning | backend/app/api/routes/worklogs/service.py:150-175 | `Service.RowFor`: a row is labelled REMITTED exactly when the worklog is paid; it shows the first paying link's amount when paid, and otherwise the amount computed now; the task title is shown exactly when the task exists |
| Service.BuildRows | backend/app/api/routes/worklogs/service.py:149-177 | the loop builds one row per worklog on the page, in page order, each the row `RowMeaning` describes |
| ListingProps.FilteredRowsCarryLabel | backend/app/api/routes/worklogs/service.py:136-175 | under the REMITTED filter every row is labelled REMITTED, and under UNREMITTED every row is UNREMITTED |
| Service.ListAllWorklogs | backend/app/api/routes/worklogs/service.py:110-179 | the method's page is the listing function's page, including both early returns |

## Left out

- Decimal rounding: money is an exact `real`, so the 28-digit context
  rounding of `minutes / 60` is not modelled.
- The output formatting is not modelled: the `float` cast of the amount, the
  string form of ids, and `created_at` with its ISO format.
- Ids are abstract naturals. In the model, a new remittance's id is one
  larger than every remittance id in use.
- Models.FreshRemittanceId: states freshness only. It does not model the
  database's actual choice of id (a UUID).
- The message string of the generation call is not modelled; its count is
  the returned `createdCount`.
- Paging takes non-negative `skip` and `limit`. Python's negative-index
  slicing is not modelled.
- The database's result order is taken to be table order.
- Service.Upper: covers only the characters whose upper case is a single
  ASCII letter (a–z, dotless i, long s) and leaves all others unchanged.
  Python's full Unicode `upper()` is not modelled. No other character's
  upper case consists only of letters of "REMITTED" or "UNREMITTED", so
  which arguments are accepted does not depend on this.
- Segment and remittance statuses other than ACTIVE and SUCCEEDED are
  collapsed into one other status each; the code only tests for those two.
- `app.models` is not part of this model. Its rows are reduced to the fields
  the service reads: the task title and rate, the user's active flag, the
  remittance's user, total and status.
- Transactions are not modelled. The single commit makes the whole
  generation one method's effect on the session.
- Concurrency between requests is not modelled.
