# Chaos Monkey: what may be killed, when, and never too often

This project models the part of Chaos Monkey that decides which instance of which group is
terminated, records each termination so that no two come too close together, and produces and
distributes the schedule of a day. It proves, for all inputs, runs and interleavings, what that
part is for:

* **Never too often.** The work-day walk behind the minimum time between kills, its agreement with
  the calendar and exactly when it fails; what a check refuses, and why; any number of clients that
  check at once under the locks of serializable transactions; and whole runs of the terminate
  command, one after the other or as interleaved processes, in which real kills of one key stay the
  minimum number of work days apart, and what happens when a commit or a read fails.
* **Only what is eligible.** From the answers of Spinnaker to the tree of an app, from the tree to
  groups that partition what is deployed, from a group to its eligible instances, and back to the
  key that the checker throttles on.
* **One schedule a day.** Populating a schedule, printing and reading it as a crontab, storing and
  retrieving it, and any number of hosts that publish and fetch.

## How the model is laid out

| file | what it holds |
|---|---|
| `Domain.dfy`, `Listing.dfy` | values, errors, ranging over the keys of a map |
| `WorkCalendar.dfy`, `WalkOrder.dfy`, `MinTime.dfy` | time zones with days of any length, the walk back over work days, when it respects the order of times, the query of the checker |
| `MySql.dfy` | the store as a class over two tables; an error leaves a table as it was |
| `Serializable.dfy`, `ConcurrentChecks.dfy` | transactions interleaved step by step under read and insert locks; clients that check at once |
| `Term.dfy`, `TermRuns.dfy`, `Processes.dfy` | the terminate command as a class with a trace of records, tracker calls and kills; runs of it; any number of them as interleaved processes |
| `Groups.dfy`, `Entries.dfy` | instance groups, schedule entries |
| `Deploy.dfy`, `AppTree.dfy`, `GetApp.dfy` | the linked tree of an app, building it, what it conserves |
| `InstanceGroups.dfy`, `Partition.dfy`, `Inhabited.dfy`, `Throttling.dfy` | the six groupings, the partition, when groups have instances, agreement with the throttling key |
| `Eligible.dfy`, `ListingOrder.dfy`, `Mock.dfy`, `Conservation.dfy`, `Regrouping.dfy` | eligible instances and their order, the in-memory deployment, independence of the grouping |
| `FromJson.dfy`, `Scheduling.dfy` | configurations, populating and sorting a schedule |
| `UtcTime.dfy`, `CronText.dfy` | UTC fields, crontab lines and commands and a reader for them |
| `Command.dfy`, `Hosts.dfy` | the schedule and fetch-schedule commands on one host and on many |

An instant is a whole number of seconds since 1970-01-01 00:00 UTC. A zone gives the local day of an
instant and the instant at which a local day starts; days may have any length. Calls to the outside
are inputs: the answers of the deployment, configuration values, coins, the clock, and which step of
a transaction fails. An object that the program updates in place is a class; its methods are proved
against functions of the old and new state, and the lemmas are about those functions. Where one
function of the program nests several loops, each inner loop is a method of its own.

## What the code does where its comments say otherwise, or say nothing

* `CheckWithDelay` does not return the error of a failing commit (mysql/mysql.go:276-283), so a kill
  can go ahead without a row: `TermRuns.KillIsInTableIff`, and a second kill may then follow at
  once: `TermRuns.BothKillIff`, `TermRuns.FailedCommitLetsTwoThrough`. `PublishWithDelay` does return it.
* No query asks for the error of a cursor that failed while it was read, except `Retrieve`; to `Check`
  and `Publish` such a cursor looks like one without rows (mysql/mysql.go:230-237, 358-365), so the
  minimum time is not kept: `TermRuns.FailedReadLetsTwoThrough`.
* The work-day walk goes back in strides of 24 hours (mysql/mysql.go:407-424). It agrees with the
  calendar for every time and every count exactly when every work day lasts 24 hours, whatever
  Saturdays and Sundays last: `WorkCalendar.WalksAgreeIff`. A later time can even give an earlier
  threshold, and never does exactly when every work day lasts a whole number of times 24 hours:
  `WalkOrder.WalkIsMonotoneIff`, `WalkOrder.ThresholdIsMonotoneIff`.
* A kill at or after `endHour` counts as one made a work day later: `MinTime.SelectsExactly`.
* `schedExists` asks for the UTC date of the publish instant (mysql/mysql.go:217), while rows are
  stored under the local date (mysql/mysql.go:111, 205). Once-per-date holds exactly when the two
  dates agree: `Hosts.BothPublishedIff`.
* Groups are not guaranteed an instance (deploy/eligible_instance_groups.go:36-37), with independent
  regions or without; each has one exactly when everything that is made a group has one:
  `Inhabited.EveryGroupInhabitedIff`, with witnesses `Inhabited.EmptyAccountIsAGroup` and
  `Inhabited.EmptyAsgIsAGroup`.
* A blank stack means any stack (grp/grp.go:188-193), so grouping by stack partitions exactly when no
  blank stack lies beside a nonblank one: `Partition.InExactlyOneGroupIff`.
* Termination times are on the date of the machine's clock (schedule/schedule.go:107, 137) and stored
  under the date in the configured zone (command/schedule.go:86-88): `Command.StoredForItsDateIff`.
  A clock change between the two hours can put some past the end hour:
  `Scheduling.EveryTimeIsInHoursIff`.
* An app that is named twice is scheduled twice: `Scheduling.AppNamedTwiceIsScheduledTwice`.
* `fromJSON` reads a negative minimum time without an error and the checker then refuses every
  termination: `FromJson.NegativeMinTimeIsReadButNeverPasses`.

## Model

| member | source | states |
|---|---|---|
| WorkCalendar.FiveWorkdaysAWeek | cal/cal.go:23-36 | the work days are Monday to Friday, five in every seven days and the same ones every week; 16 December 2015 was a Wednesday |
| WorkCalendar.WalksAgreeIff | mysql/mysql.go:407-424 | the walk in 24-hour strides finds the calendar's day for every time and every count exactly when every work day lasts 24 hours |
| WorkCalendar.WalkIsCalendarWalk | mysql/mysql.go:416-425 | on such zones each walk stops on the day that the calendar walk finds, whatever the lengths of weekend days |
| WorkCalendar.OtherLengthDisagrees | mysql/mysql.go:419-423 | any work day of another length makes some walk stop on a wrong day |
| WorkCalendar.ClockChangeOnWorkdayCountsItTwice | mysql/mysql.go:407-424 | a concrete 25-hour work day that the walk counts twice |
| WorkCalendar.CountBack | mysql/mysql.go:402-428 | the calendar walk stops on a work day with exactly n work days after it up to today |
| WorkCalendar.CountBackUnique | mysql/mysql.go:402-428 | no other work day has that many work days after it |
| WorkCalendar.ClosedForm | mysql/mysql.go:402-428 | going back n work days is going back n + 2 * ((n + 4 - w) div 5) days from the last work day, of weekday w |
| WorkCalendar.WalkSpecification | mysql/mysql.go:402-428 | the 24-hour walk stops on the unique work day with n work days after it, which is that of the closed form |
| WorkCalendar.SomeThresholds | mysql/mysql.go:402-428 | the thresholds of Thursday 17 December 2015 at 15:18:30, eight hours west of UTC, for none, one, four and nine days, as instants |
| WorkCalendar.HourByHour | mysql/mysql.go:421 | the hours of a day start and end with the day and follow each other at 3600 seconds, but for the hour of a clock change, which gets what the day lasts more or less than 24 hours |
| WorkCalendar.ThresholdAntitone | mysql/mysql.go:402-428 | more days give a strictly earlier threshold |
| WorkCalendar.WalkAntitone | mysql/mysql.go:416-425 | on every zone, whatever days last, the walk for more days never stops on a later day |
| WorkCalendar.ThresholdNeverLater | mysql/mysql.go:402-428 | whenever clocks change, more days never give a later threshold, if the clock shows the end hour between the two ends of a work day |
| WorkCalendar.LongDayKeepsHours | mysql/mysql.go:421 | the zone with one 25-hour day shows every hour from 0 to 24 between the two ends of each work day, so the above holds there |
| WorkCalendar.ThresholdMonotone | mysql/mysql.go:402-428 | when work days last 24 hours a later time never gives an earlier threshold, whatever the end hour; the exact condition is that of `WalkOrder.ThresholdIsMonotoneIff` |
| WalkOrder.WalkFollowsSlots | mysql/mysql.go:407-424 | when every work day lasts a whole number of times 24 hours, the walk depends only on the stretch of 24 hours of a work day in which it starts, and keeps their order |
| WalkOrder.OddWorkdayBreaksOrder | mysql/mysql.go:407-424 | if any work day does not, the walks from the last second of some Friday and the first of the Saturday after it end in the wrong order |
| WalkOrder.WalkIsMonotoneIff | mysql/mysql.go:407-427 | on every zone: a later time never gives an earlier day exactly when every work day lasts a whole number of times 24 hours, whatever weekends last |
| WalkOrder.WalkIsMonotoneIffRegular | mysql/mysql.go:407-427 | where work days last less than 48 hours, exactly when every work day lasts 24 |
| WalkOrder.ThresholdIsMonotoneIff | mysql/mysql.go:402-428 | the same of thresholds, for an end hour that the clock shows on every work day |
| WalkOrder.LongDayBreaksOrder | mysql/mysql.go:407-424 | a zone with one work day of 25 hours, of whatever weekday, on which a later time gives an earlier day |
| WorkCalendar.ReachesThresholdIff | mysql/mysql.go:402-428 | an earlier instant is at or after the threshold exactly when fewer than n work days separate its date from today, or n do and it was after hours |
| WorkCalendar.FixedZoneIsRegular | mysql/mysql.go:402-428 | a zone that never changes its clock meets all that is assumed of zones |
| MinTime.QueryFor | mysql/mysql.go:303-343 | a query is built exactly when the minimum time is not negative and the grouping is known |
| MinTime.SelectsIff | mysql/mysql.go:303-343 | a row is selected exactly when app and account, under stack grouping the stack, under cluster grouping the cluster, with independent regions the region are those of the instance, it is unleashed unless the termination is leashed, and it is not before the threshold |
| MinTime.RowHasKeyIff | mysql/mysql.go:314-332 | a row has the key of an instance exactly when those fields agree |
| MinTime.SelectsExactly | mysql/mysql.go:303-366 | an earlier row stands in the way exactly when it has the same key, is not a leashed row seen by an unleashed check, and too few work days separate the dates |
| MinTime.SelectsExactlyInWorkingHours | mysql/mysql.go:303-366 | for a kill in working hours of a work day: exactly when fewer than the minimum number of work days lie in (earlier date, later date] |
| MinTime.NotSelectedIsSpaced | mysql/mysql.go:303-366 | a row of the key that does not stand in the way is on an earlier or the same date, at least the minimum number of work days before |
| MinTime.LargerMinimumRefusesMore | mysql/mysql.go:303-366 | a row in the way under one minimum time is in the way under any larger one, on zones that change clocks on any day, if the clock shows the end hour between the two ends of a work day |
| MySql.Store.QueryOne | mysql/mysql.go:342-363 | the answer has a row exactly when the query selects one, and then one that it selects |
| MySql.Store.RespectsMinTime | mysql/mysql.go:303-366 | when it returns without an error, and when and with which row it reports a violation |
| MySql.Store.Check | mysql/mysql.go:264-297 | no error exactly when nothing fails before the commit and no row stands in the way; the table gains the one row then and only then, unless the commit fails; any error leaves it unchanged |
| MySql.Store.SchedExists | mysql/mysql.go:216-239 | true exactly when a row has the date that the instant has in UTC |
| MySql.Store.Publish | mysql/mysql.go:152-212 | all entries are stored under the local date or none; exactly when it succeeds and exactly when it reports an existing schedule |
| MySql.Store.Retrieve | mysql/mysql.go:114-143 | the entries stored under the local date of the instant, as a multiset |
| MySql.NoonKeepsDate | mysql/mysql.go:104-112 | noon UTC of a local date has that date in UTC |
| MySql.SqlDateIff | mysql/mysql.go:217 | the date that a publish asks for is the day of 24 hours, counted from 1970-01-01 00:00 UTC, in which its instant lies |
| MySql.RowNamesEntry | mysql/mysql.go:191-209 | each column of an entry's row is the field that it is named after |
| MySql.RowKeepsEntry | mysql/mysql.go:191-209 | an entry read back from its row is the same, a blank and an absent field being identified |
| MySql.PublishAddsToItsDateOnly | mysql/mysql.go:191-211 | publishing appends to what is retrieved for its own local date and changes no other date |
| MySql.PublishThenRetrieve | mysql/mysql.go:114-212 | what is retrieved at any instant of the same local date is, as a multiset, what was stored for it before and what was published if the publish went through; other dates are unchanged |
| MySql.SecondPublishIsRefusedIff | mysql/mysql.go:216-217 | a second schedule for a local date is refused exactly when the first is not empty and the local date is that of the second instant in UTC |
| MySql.EveningPublishIsNotRefused | mysql/mysql.go:216-217 | an instant, eight hours west of UTC, at which a second schedule for the same date is let through |
| Serializable.ReachesKeepsInv | mysql/mysql.go:243-297 | the invariant of the lock rules holds in every state reached by Begin, Read, Insert, Commit, Refuse and Rollback steps in any order |
| Serializable.CommitKeepsReads | mysql/mysql.go:152-171 | what a transaction read stays true while it inserts, although others commit |
| Serializable.InsertKeepsReads | mysql/mysql.go:205-209 | what a transaction read stays true although others insert |
| Serializable.EveryInterleavingIsSerial | mysql/mysql.go:243-297 | in every reachable state no committed transaction's query selects a row committed before it, and every refused one's query does select a committed row |
| Serializable.NothingElseWaits | mysql/mysql.go:243-297 | an insert waits only for locks of transactions that have read, and a transaction can be rolled back at any point |
| Serializable.InterleavingRefinesOneAtATime | mysql/mysql.go:243-297 | the table after any interleaving is the one that the committed transactions leave when run one at a time in commit order |
| Serializable.CommitOrdersAreSerialRuns | mysql/mysql.go:243-297 | the possible commit orders are exactly the serial runs in which each transaction finds nothing |
| ConcurrentChecks.NoRowMatchesALaterCheck | mysql/mysql.go:262-366 | for any clients and any interleaving, the table is its start and one row for each commit, and no row matches the query of a check that committed after it |
| ConcurrentChecks.CommittedChecksAreSpaced | mysql/mysql.go:262-366 | two committed checks of one key have the minimum number of work days between their dates, in whichever order |
| ConcurrentChecks.RacingChecksCannotBothCommit | mysql/mysql.go:262-297 | two checks of one key on one date cannot both commit when the minimum is at least one work day |
| ConcurrentChecks.CheckIsTestAndSet | mysql/mysql.go:270-297 | Check without faults does what its transaction does at once, which ties the class to the interleaved system |
| Term.StopsUnlessGatesOpen | term/term.go:52-143 | no gate ends a call exactly when all of them are open |
| Term.FirstClosedGateDecides | term/term.go:52-143 | for each gate, that it ends the call when all gates before it are open, and whether with an error or without |
| Term.Monkey.Terminate | term/term.go:52-93 | a call with a closed gate changes nothing and returns what that gate says; otherwise it attempts one picked instance or nothing |
| Term.Monkey.DoTerminate | term/term.go:95-181 | the same from the leashed gate on |
| Term.Monkey.Execute | term/term.go:155-178 | nothing happens unless the check accepts; then the row, the trackers and the kill, in that order |
| Term.Monkey.TrackAndKill | term/term.go:165-178 | the trackers up to the first that fails, then the kill if all worked and the call is not leashed |
| Term.Monkey.CallTrackers | term/term.go:165-170 | the trackers are called in order and none after one that fails |
| TermRuns.OneGatedKillPerCall | term/term.go:52-181 | a call kills at most once, as its last effect, unleashed, with every gate open and every tracker working, an eligible instance of its group |
| TermRuns.KillIsInTableIff | mysql/mysql.go:276-283 | a kill's row is in the table exactly when the commit worked |
| TermRuns.RowKeepsTermination | mysql/mysql.go:430-438 | each column of the recorded row is the field that it is named after, and together they give back the termination but for the cloud provider |
| TermRuns.EveryKillHasItsOwnRow | term/term.go:155-178 | over any run whose commits work, the table is its start and the recorded rows, and every kill follows its own row with only tracker calls in between |
| TermRuns.RunStaysSpaced | mysql/mysql.go:264-366 | over any run under one rule whose reads work no recorded row is in the way of a later one, whichever commits fail |
| TermRuns.KillsAreSpaced | term/term.go:52-181 | of two real kills of a run with one key, the first recorded by a commit that worked and the second let through by a read that worked, the dates are in order and the minimum number of work days apart, whatever fails elsewhere |
| TermRuns.TerminationsAreSpaced | mysql/mysql.go:264-366 | the same of any two terminations of a run, leashed or not, under the configuration of the later call; an unleashed one ignores leashed ones |
| TermRuns.EveryKillHasItsCall | term/term.go:172-178 | every kill of a run was made by exactly one of its calls |
| TermRuns.BothKillIff | mysql/mysql.go:270-366 | for any table and any two calls each of which alone would kill on it: both can be carried out one after the other exactly when the first one's commit fails, or the second one's read fails, or the second one's query does not select the row of the first |
| TermRuns.FailedCommitLetsTwoThrough | mysql/mysql.go:276-283 | for any two calls each of which alone would kill, a run in which the first one's commit fails has the effects of both, kills included |
| TermRuns.FailedReadLetsTwoThrough | mysql/mysql.go:358-365 | the same when the read of the second call fails |
| TermRuns.SpacingNeedsCommitAndRead | mysql/mysql.go:270-366 | a concrete deployment and configuration for which both runs exist, killing one instance twice at one time, and none in which neither step fails |
| TermRuns.KillsAreUnleashed | term/term.go:108-123 | every real kill of a run was made by a call with every gate open, unleashed and not in the test environment, on an instance it picked |
| TermRuns.PickedIsInGroup | term/term.go:184-197 | a picked instance is of the group's app and account, inside the group and free of never-eligible suffixes |
| Processes.ComesKeepsGood | term/term.go:155-178 | for any number of terminate processes and any interleaving of their check steps, tracker calls and kills, each process has had the effects that its progress allows and goes on only after its check returned |
| Processes.KillerActsAsIfAlone | term/term.go:95-181 | a process that has killed has had exactly the effects of a call that is alone, with every gate open: its row unless its commit failed, each tracker once and in order, one kill |
| Processes.LaterKillIsSpaced | mysql/mysql.go:262-366 | of two kills whose commits worked, the one that committed later keeps the minimum time of its own configuration to the other |
| Processes.InterleavedKillsAreSpaced | term/term.go:52-181 | two kills of one key by interleaved processes, both commits having worked, are the minimum number of work days apart |
| Groups.EqualIffSame | grp/grp.go:66-112 | Equal holds exactly of groups with the same fields, blank and absent being one |
| Entries.EntryEqualIffSame | schedule/schedule.go:204-206 | Equal entries are those with the same group fields and instant, so multisets of entries may be compared by value |
| Deploy.Cluster.RegionNames | deploy/deployment.go:165-177 | the regions in which the cluster has an ASG, each once |
| Deploy.Account.RegionNames | deploy/deployment.go:76-92 | the regions in which some cluster of the account has an ASG, each once |
| Deploy.Account.StackNames | deploy/deployment.go:115-126 | the stacks of the account's clusters, each once, or a panic exactly when a cluster's name does not parse |
| AppTree.NewASG | deploy/app.go:83-95 | an ASG linked to its cluster with the ids in order |
| AppTree.NewCluster | deploy/app.go:79-97 | a linked cluster that shows exactly the regions, ASGs and ids of its map |
| AppTree.NewAccount | deploy/app.go:76-98 | a linked account that shows exactly its clusters |
| AppTree.NewApp | deploy/app.go:73-102 | parent links are consistent and every account, cluster, region, ASG and id of the maps is in the tree once, and nothing else |
| GetApp.CollectGroups | spinnaker/spinnaker.go:317-338 | the map of enabled server groups, later ones replacing earlier ones |
| GetApp.CollectClusters | spinnaker/spinnaker.go:309-339 | every listed cluster is there, without regions if its server groups could not be retrieved |
| GetApp.GetApp | spinnaker/spinnaker.go:298-343 | a tree that shows the answers, or an error exactly when an account's provider is not known |
| GetApp.EnabledGroupsExactly | spinnaker/spinnaker.go:317-338 | a region and name are there exactly when an enabled server group has them, with the instances of the last such group |
| GetApp.TreeIsData | deploy/deployment.go:198-236 | the paths that the tree's instances give through their parents are exactly those of the maps |
| GetApp.GetAppConservesInstances | spinnaker/spinnaker.go:298-343 | those paths are exactly the instances of the last enabled server group of each region and name; nothing is lost or added and no disabled group is there |
| GetApp.GetAppKeepsClusters | spinnaker/spinnaker.go:301-316 | the tree has exactly the listed accounts, with their providers, and exactly their listed clusters, with or without server groups |
| GetApp.RegionsAreEnabled | spinnaker/spinnaker.go:317-332 | a cluster has a region exactly when an enabled server group of it is there |
| InstanceGroups.AppIndep | deploy/eligible_instance_groups.go:68-76 | one group for each account and region with an ASG |
| InstanceGroups.AppDep | deploy/eligible_instance_groups.go:79-85 | one group for each account |
| InstanceGroups.StackIndep | deploy/eligible_instance_groups.go:88-113 | one group for each account, stack and region with an ASG of that stack, or a panic exactly when a name does not parse |
| InstanceGroups.StackDep | deploy/eligible_instance_groups.go:116-125 | one group for each account and stack |
| InstanceGroups.ClusterIndep | deploy/eligible_instance_groups.go:128-139 | one group for each cluster and region with an ASG of the cluster |
| InstanceGroups.ClusterDep | deploy/eligible_instance_groups.go:142-151 | one group for each cluster |
| InstanceGroups.EligibleInstanceGroups | deploy/eligible_instance_groups.go:41-65 | the groups of the configured grouping, each once; exactly when it ends in an error or panic |
| Partition.GroupsAreGroups | deploy/eligible_instance_groups.go:41-151 | the groups of a tree are those that the maps it was built from call for |
| Partition.InExactlyOneGroupIff | grp/grp.go:222-234 | a deployed cluster and region is in exactly one group exactly when its name parses to the app's and, by stack, no blank stack lies beside its nonblank one |
| Partition.GroupsPartitionTheDeployment | deploy/eligible_instance_groups.go:41-151 | the returned groups are pairwise unequal and each deployed account, region and cluster is contained in exactly one |
| Partition.ListedGroupsDiffer | grp/grp.go:66-112 | groups listed once are pairwise unequal under Equal |
| Partition.IndependentGroupIsDeployed | deploy/eligible_instance_groups.go:68-139 | with independent regions every group contains a cluster that has an ASG in its region |
| Inhabited.AccountGroupsIff | deploy/eligible_instance_groups.go:79-85 | every whole-account group has an instance exactly when every account has one |
| Inhabited.RegionGroupsIff | deploy/eligible_instance_groups.go:68-76 | every account and region group has an instance exactly when every region with an ASG of the account has one |
| Inhabited.StackGroupsIff | deploy/eligible_instance_groups.go:116-125 | every stack group has an instance exactly when for every cluster some cluster of its stack, or of any if its stack is blank, has one |
| Inhabited.StackRegionGroupsIff | deploy/eligible_instance_groups.go:88-113 | the same in each region where the cluster has an ASG |
| Inhabited.ClusterGroupsIff | deploy/eligible_instance_groups.go:142-151 | every cluster group has an instance exactly when every cluster has one |
| Inhabited.ClusterRegionGroupsIff | deploy/eligible_instance_groups.go:128-139 | every cluster and region group has an instance exactly when every cluster has one in each region where it has an ASG |
| Inhabited.EveryGroupInhabitedIff | deploy/eligible_instance_groups.go:36-37 | the stated guarantee of an instance in each group holds exactly when everything that the grouping makes a group of has one, for each of the six groupings |
| Inhabited.ReturnedGroupsInhabitedIff | deploy/eligible_instance_groups.go:41-65 | the same of the groups that are returned for the tree |
| Inhabited.EmptyAccountIsAGroup | deploy/eligible_instance_groups.go:79-85 | an account without clusters is a group without instances |
| Inhabited.EmptyAsgIsAGroup | deploy/eligible_instance_groups.go:68-151 | an ASG without instances makes a group without instances under each of the six groupings |
| Partition.SameGroupIffSameKey | mysql/mysql.go:316-332 | two instances inside groups of an app are in the same group exactly when they have the same check key |
| Throttling.SameGroupIffThrottledTogether | mysql/mysql.go:304-332 | with nonblank stacks, coming from the same group and being looked for under the same key agree for two eligible instances exactly when, should only the stack tell them apart, their clusters have equal stacks just when their ASGs have; so always when each ASG has its cluster's stack |
| Throttling.GroupAgreesWithKeyIff | mysql/mysql.go:304-332 | the exact condition for that agreement without anything assumed of stacks, in terms of the groups' stacks |
| Eligible.Clusters | eligible/eligible.go:106-149 | the targeted sites in listing order, or an error exactly when a listing or name is missing |
| Eligible.AddSites | eligible/eligible.go:126-145 | appends the regions of one cluster that survive exceptions, suffixes and Contains |
| Eligible.GetInstances | eligible/eligible.go:211-238 | one instance for each id in order, with the stack of the ASG's name |
| Eligible.Instances | eligible/eligible.go:186-209 | the instances of the targeted sites in order, or an error exactly when an answer is missing |
| Eligible.PickRandomInstance | term/term.go:184-197 | some eligible instance, and none exactly when there is none or an answer is missing |
| Eligible.IsExceptionIff | eligible/eligible.go:87-95 | an exception matches exactly when each of its four fields is a star or the account, the stack of the cluster's name, its detail, and the region |
| Eligible.TargetedIff | eligible/eligible.go:126-145 | a cluster is targeted in a region exactly when its name parses, app, account, region, stack and cluster are what the group asks for, no exception matches and the name has none of the four suffixes |
| Eligible.PrefilterAgreesIff | eligible/eligible.go:151-176 | looking only at the group's region gives what filtering all regions gives, unless that region is targeted and listed twice |
| Eligible.TargetedRegionsExactly | eligible/eligible.go:126-145 | each targeted region is kept as often as it is listed and no other is |
| Eligible.TargetedSitesExactly | eligible/eligible.go:106-149 | a site is among the targeted exactly when its cluster is listed, deployed there, in the group, not an exception and has no never-eligible suffix |
| Eligible.NeverEligibleIff | eligible/eligible.go:97-104 | a cluster is never eligible exactly when its name ends in one of the four suffixes |
| Eligible.ExceptionShields | chaosmonkey.go:195-206 | an exception matches its own fields, everything exactly when all its fields are stars, and without stars nothing else |
| Eligible.EligibleExactly | eligible/eligible.go:186-238 | an instance is among the eligible exactly when its site is targeted and the deployment lists its id there |
| ListingOrder.EligibleInListingOrder | eligible/eligible.go:106-238 | of two eligible instances the earlier comes earlier in the listing of clusters, else of the cluster's regions, else of the ids |
| ListingOrder.EligibleOnceEach | eligible/eligible.go:186-238 | when nothing is listed twice no instance is eligible twice |
| Mock.MockDeployment.GetClusterNames | mock/deployment.go:76-83 | the clusters of the maps, each once, in any order |
| Mock.MockDeployment.GetRegionNames | mock/deployment.go:86-93 | the regions of the maps, each once, in any order |
| Mock.MockDeployment.GetInstanceIDs | mock/deployment.go:118-154 | the ids of all ASGs there with the name of the last, or an error exactly when the cluster is not deployed there |
| Mock.AnswerForOneAsg | mock/deployment.go:141-153 | for a place with one ASG the answer is its name and its ids in order |
| Conservation.BackedIsReady | mock/deployment.go:76-154 | the in-memory deployment gives every answer that the groups need when its names parse |
| Conservation.RowsAreColumns | eligible/eligible.go:186-209 | what the groups take, summed group by group, is what is taken place by place |
| Conservation.GroupTakesItsRow | eligible/eligible.go:106-209 | the eligible instances of a group are what it takes from all places of the app |
| Conservation.GroupsCoverEligibleInstances | eligible/eligible.go:106-209 | going through all groups gives each instance that no exception or suffix shields, as often as the deployment lists it, and nothing else |
| Conservation.RegroupingConservesInstances | deploy/eligible_instance_groups.go:41-151 | with one set of answers the eligible instances of all groups are a permutation of those of the whole-account groups, for every grouping and exception list |
| Regrouping.EligibleTimes | eligible/eligible.go:106-238 | an id is eligible at its place as often as it is listed there if the place is targeted, and else never |
| Regrouping.TwoCallsAgree | mock/deployment.go:76-154 | two calls for a group find the same ids in the same places equally often, in whatever order each ranges over the maps |
| Regrouping.RegroupingConservesIds | mock/deployment.go:141-153 | with every call ranging over the maps in its own order, accounts, clusters, regions and ids of all groups' eligible instances are a permutation of those of the whole-account groups |
| FromJson.ReadFromSomeJsonIff | spinnaker/fromjson.go:93-179 | a configuration can be read from some JSON exactly when its grouping is known, its mean time is positive if it is enabled and its exceptions name account and region |
| FromJson.AcceptedIff | spinnaker/fromjson.go:93-165 | JSON is accepted exactly when attributes, chaosMonkey and enabled are there, an enabled app has a positive mean time, a minimum time and a known grouping, and no exception has a blank account or region |
| FromJson.AcceptedIsReadAs | spinnaker/fromjson.go:129-178 | each field is read as it is, a missing time of a disabled app as 0 and its missing grouping as cluster |
| FromJson.NegativeMinTimeIsReadButNeverPasses | spinnaker/fromjson.go:146-156 | a negative minimum time is read, and no check is then let through to its query |
| Scheduling.AlwaysKillsIff | schedule/schedule.go:155-168 | a coin kills exactly when it times the mean time is at most one, so every coin does exactly when the mean time is one work day |
| Scheduling.ChooseTerminationTime | schedule/schedule.go:122-141 | a whole number of minutes within the interval after the start hour, or a panic exactly when the hours are not in order |
| Scheduling.TimeIsInWorkingHours | schedule/schedule.go:130-140 | when both hours are shown on the day and no clock change between them takes a minute or more from it, the time is on that day, between the hours and a whole minute after its start |
| Scheduling.EveryTimeIsInHoursIff | schedule/schedule.go:130-140 | every whole minute of the interval can be chosen, and all that can lie between the two hours exactly when no clock change between those takes a minute or more from the day |
| Scheduling.RegularDayKeepsHours | schedule/schedule.go:130-140 | a day of 24 hours meets that for all hours from 0 to 24 |
| Scheduling.TimeIsOnDateIff | schedule/schedule.go:107-137 | the time is on the local date of an instant exactly when the date on the machine's clock is that date |
| Scheduling.TimeIsWholeMinute | schedule/schedule.go:130-140 | where days begin at whole minutes the time is a whole minute |
| Scheduling.Schedule.AddChosen | schedule/schedule.go:102-110 | an entry for each group whose coin times the mean time is at most one, once, in order, at a fitting time; a panic exactly when there are groups and the mean time is not positive, or a coin falls so and the hours are not in order |
| Scheduling.Schedule.DoScheduleApp | schedule/schedule.go:81-111 | entries for the killed ones of the app's groups and none for a disabled app; a panic only when the location, the grouping, a name, the mean time or the hours call for it |
| Scheduling.Schedule.Populate | schedule/schedule.go:36-68 | examines the first apps that arrive up to the maximum, passes over those without a configuration, appends for each what fits it, and panics only when one of them is stuck |
| Scheduling.ExaminedExactly | schedule/schedule.go:41-60 | every app that can be retrieved arrives as often as it is named, and the first ones are examined, as many as there may be |
| Scheduling.SchedulableIsNotStuck | schedule/schedule.go:81-111 | an app that is schedulable is not stuck |
| Scheduling.ReadConfigurationsAreSchedulable | schedule/schedule.go:81-128 | with configurations read from JSON, a location that loads, hours in order and cluster names that parse where grouping is by stack, nothing panics; no more apps are examined than there may be |
| Scheduling.OnlyWantedEntries | schedule/schedule.go:81-111 | every entry is for a group of an enabled app that was examined, at a fitting time |
| Scheduling.ScheduledAsCoinsFall | schedule/schedule.go:102-110 | whatever its mean time, an examined enabled app has each of its groups on the schedule exactly once if the group's coin falls so and else not at all, in the order of the groups |
| Scheduling.NeverMoreOftenThanExamined | schedule/schedule.go:102-110 | no group is on the schedule more often than its app was examined |
| Scheduling.KillsAreOnDateIff | schedule/schedule.go:107-137 | all entries are for the local date of an instant exactly when there are none or the machine's date is that date |
| Scheduling.EveryGroupOnceADay | schedule/schedule.go:102-110 | with a mean time of one work day a group is on the schedule as often as its app was examined, so exactly once exactly when the app was examined once |
| Scheduling.AppNamedTwiceIsScheduledTwice | command/chaosmonkey.go:260-264 | an app named twice on the command line has each of its groups scheduled twice |
| Scheduling.Schedule.Sort | schedule/schedule.go:269-283 | the entries become a permutation of what they were in order of time |
| Scheduling.Schedule.Crontab | schedule/schedule.go:279-297 | sorts in place and prints one line for each entry in that order |
| UtcTime.FieldsGiveInstantIff | schedule/schedule.go:224-225 | the printed fields with the year give the instant back exactly when it is a whole minute |
| UtcTime.FieldsDetermineInstant | schedule/schedule.go:224-225 | two whole minutes of a year with the same fields are one instant |
| UtcTime.InstantShowsFields | schedule/schedule.go:224-225 | every date and clock time is shown by the instant made from it |
| UtcTime.MonthLengths | schedule/schedule.go:224-225 | the lengths of the twelve months |
| UtcTime.CalendarIsGregorian | schedule/schedule.go:224-225 | leap years, the lengths of years, and 146097 days in 400 of them from 1970-01-01 |
| UtcTime.DaysOfWeek | schedule/schedule.go:224-225 | Sunday is 0, days follow each other, and two known days |
| CronText.DecimalRoundTrip | schedule/schedule.go:225 | a printed number reads back as itself and contains no blank |
| CronText.DecimalDigits | schedule/schedule.go:225 | numbers are printed to the base of ten without leading zeros |
| CronText.WordsOfCommand | schedule/schedule.go:230-245 | the words of the printed command are the executable, app and account, then the cluster, stack and region flags that are present |
| CronText.CommandText | schedule/schedule.go:230-245 | the text of the command with its flags, each exactly when its field is not blank |
| CronText.FieldsInFull | schedule/schedule.go:225 | the fields of 19:28 UTC on 16 December 2015 |
| CronText.LineText | schedule/schedule.go:225 | the text of a line: the five fields, the account and the command between single blanks |
| CronText.WordsOfLine | schedule/schedule.go:224-225 | the words of a line are minute, hour, day, month and weekday, the account, and the words of the command |
| CronText.CommandRoundTripIff | schedule/schedule.go:230-245 | reading the words of the printed command gives the group back exactly when its names are free of blanks, app and account are there and neither looks like a flag |
| CronText.LineRoundTripIff | schedule/schedule.go:214-226 | reading a printed line in its year gives the entry back exactly when it is at a whole minute and its group is printable |
| CronText.TableRoundTrip | schedule/schedule.go:279-297 | reading a printed table line by line gives all entries back in order |
| Command.Host.RegisterWithCron | command/schedule.go:101-107 | the crontab of the sorted entries is installed unless the write fails |
| Command.Host.DeploySchedule | command/schedule.go:80-96 | succeeds exactly when the location loads, the publish goes through and the file is written; publishes and then installs the same entries; when nothing is published nothing is installed |
| Command.Host.FetchSchedule | command/fetchschedule.go:29-57 | installs the crontab of what is stored for the local date, empty or not |
| Command.Host.MakeSchedule | command/schedule.go:59-78 | what is published and what is installed are both what was populated; it fails only when the names are not known, an app is stuck, the location does not load, or the publish or the write fails |
| Command.StoredForItsDateIff | command/schedule.go:86-88 | what is stored under the local date of the publish is for that date exactly when there is nothing or the date on the machine's clock was that date |
| Command.InstalledLinesAreWanted | command/schedule.go:59-107 | an installed crontab, read in its year, has one line for each populated entry, and every line is for a group of an enabled examined app at a fitting time |
| Hosts.PublishIsTestAndSet | mysql/mysql.go:152-212 | a publish without faults does what its transaction does at once |
| Hosts.StoreKeepsGood | mysql/mysql.go:152-212 | any step of the store keeps every installed crontab empty or up to date |
| Hosts.OneScheduleADay | command/schedule.go:80-107 | while every publish has equal local and UTC dates, at most one nonempty schedule is published for a date, and every installed crontab is empty or renders what is stored for its host's date |
| Hosts.BothPublishedIff | mysql/mysql.go:216-217 | two nonempty schedules for one local date can both be published exactly when one of the publishes falls on another date in UTC |

## Left out

- HTTP, TLS, URLs and JSON bytes in `spinnaker/*`: the decoded answers are inputs.
- The SQL driver and the internals of InnoDB. That a read locks its predicate and that a matching insert waits is an assumption that rests on the SERIALIZABLE setting (mysql/mysql.go:245); waiting is a step that is not enabled. Any transaction may be rolled back at any step, so which one a deadlock chooses does not matter.
- Rounding of DATETIME columns and collation: instants are whole seconds and strings are compared exactly.
- A cursor that fails while it is read is a fault of the class in `MySql.dfy` and not a step of `Serializable.dfy` or `Processes.dfy`, where a read always sees the rows. A commit that fails is taken to have left no row.
- Processes whose call ends before its query, at a gate or on a configuration that gives none, have no effects and are not part of `Processes.dfy`.
- Conservation.RegroupingConservesInstances: the answers are the same for every call, so the names of ASGs and the stacks are too; when each call may name another ASG of a place, only account, cluster, region and id are conserved, which is `Regrouping.RegroupingConservesIds`.
- MySql.Store.Retrieve: a failure of any of its steps is one fault, because each has the same outcome.
- A row that cannot be scanned in `respectsMinTimeBetweenKills` changes only the id and time that the violation reports.
- The clock: each call of a run is given its time, and nothing is assumed about the order of those times.
- `frigga.Parse` is a library function: it is a parameter, and each property says what it assumes of it.
- The time zone database: zones are functions with the laws of `WorkCalendar.Sane`, which ask that no day is skipped and that the work days of a week last 24 hours together at least.
- Random generators: a pick is any value in range, a coin any real number in [0, 1); rounding of `1.0 / mean` is not modelled.
- CronText.CommandRoundTripIff: the reader splits on blanks and knows the three flags; other flags, and what a shell or cron makes of quotes, `$` and `%`, are not part of this model.
- When cron runs a line: a line with both day of the month and day of the week restricted may run on more days than the one meant, so nothing is claimed about how often it fires.
- Configuration files and command-line overrides, logging, error counting, migrations, installation and the no-op plug-ins; the constrainer keeps every entry.
- The goroutine that stays blocked when `Populate` stops early: apps arrive as a finite sequence.
- The algorithm of `sort.Sort`: an insertion sort by the same swaps stands in for it, and only order and permutation are promised.
- Scheduling.Schedule.Crontab: the source sorts through a copy of the struct that shares its entries; the sharing is modelled as one object whose entries are sorted in place.
- Command.Host.RegisterWithCron: a failing write may leave anything in the file, and nothing is promised about it.
- Scheduling.TimeIsInWorkingHours: the times of a day are those of `WorkCalendar.At`; what a library does with an hour that the clock skips or shows twice on a day of change is not modelled beyond that.
