# Aegis, from alert to remediation

A Dafny model of the path that an alert takes through Aegis: the correlator that turns raw alerts into
incidents, the outbox publisher, the Kafka consume loop, the investigator, the incident workflow, and the
chain of sanitiser, planner, policy and executor that narrows the answer of a language model to one bounded
action on the cluster. The services share database tables; a transaction is one atomic change of those
tables under their constraints.

`dafny verify dfyconfig.toml` checks the whole project.

## Structure

Code that changes things step by step is modelled by classes and loops: `CorrelatorSession`, `OutboxTable`,
`AegisConsumer`, `K8sExecutor`, `IncidentWorkflow`, `InvestigatorWorker`, `Investigation`, `RootServices`,
`SafeActions`. Each method is proved equal to a function on the tables (`Handle`, `Polled`, `Session`, `Call`,
`Step`, `Run`, ...). The theorems are about runs of those functions: all sequences of deliveries, crashes,
sends, signals and activity attempts.

| module | subject |
|---|---|
| `Schema` | table columns, the timeline and its fold |
| `Correlator` | the transaction for one raw alert |
| `Intake` | what a saved alert writes, against the event and against itself |
| `Conservation`, `Windows`, `Redelivery` | serial runs of the correlator: four tables that agree, severity, the timeline, the two sliding windows, repeated deliveries |
| `Workers`, `Freshness`, `Interleaved` | any interleaving of correlators, with crashes; when the alert lists stay complete; the timeline, the announcements and the severity in such runs |
| `Serial` | which concurrent runs are serial runs |
| `Outbox`, `Starvation`, `Publishers` | one poll, how long a row can wait, many publishers with rollbacks |
| `Pipeline` | from raw alerts to the incidents.created topic, with any number of correlators and publishers |
| `Consumer` | positions, commits, failed records |
| `Remediation`, `Answers` | sanitiser, planner, policy, dispatch; what becomes of each part of a model's answer |
| `Executor` | the execution table and repeated calls |
| `Workflow`, `Outcomes`, `Runs` | the workflow as a state machine, what stands behind each outcome, and what its whole runs do |
| `WorkflowRun` | the workflow object whose runs the state machine describes |
| `Joint` | interleaved correlators and the workflows of all incidents on the same tables |
| `Investigator`, `Fallback` | starting workflows, and investigating without Temporal |
| `Effects` | all that is done to the cluster on behalf of one incident |

Constraints: `processed_events` has the key (event id, consumer group)
(`database/migrations/versions/0001_initial_schema.py:182-185`); `remediation_executions` has its primary key,
a unique `plan_id` and a foreign key to `remediation_plans` (`database/models/models.py:195`).

What the environment chooses is a parameter: the clock (one reading per handler run, and no theorem needs it
to be monotone), the order of rows with equal `created_at`, the result of every send, commit and activity
attempt, the answer of the language model, signals, measurements.

## Where the code does not do what it says or seems to do

Each of these is proved, with the exact condition under which the code behaves where it is not the same for all
inputs.

- Correlation looks one hop up and in one direction, although the docstring says it walks the dependency
  graph upstream (`services/correlator/main.py:67-73`). One hop finds everything upstream of a service exactly
  when no direct dependent has a further one, which fails for postgres on the deployed graph:
  `Windows.OneHopSufficesExactlyWhenFlat`, `Windows.OneHopOneWay`.
- A resolved or malformed alert leaves no processed mark, so a firing alert that reuses its event id is handled.
  Keeping only first deliveries gives the same tables exactly when no id is revived in that way:
  `Redelivery.FirstDeliveriesSufficeExactlyWhenNoneRevived`, with an instance in `Redelivery.IdReuseIsNotARepeat`.
- Two correlators that attach to one incident at the same time lose an entry of `alert_ids`. In any concurrent
  run a list stays complete exactly when no commit to it wrote back a stale one:
  `Freshness.ListedExactlyWhenNeverStale`, with a run from empty tables in `Freshness.ThreeAlertsTwoListed`.
  In the same way a severity can drop; it is the highest exactly when the last commit that overwrote it was for a
  highest alert: `Interleaved.HighestExactlyWhenLastOverwriteTops`, with a run in
  `Interleaved.CriticalIsOverwritten`. The timeline keeps every alert: `Interleaved.InterleavedTheorem`.
- A failed Kafka record is not always redelivered, although the comment says so
  (`common/kafka/consumer.py:114`): the next commit of the session passes it. `Consumer.FateOfFailedRecord`.
- The sanitiser compares action names in upper case, the planner as they are: a permitted name in another
  case yields no plan, and the incident is resolved as diagnosed only:
  `Remediation.NoPlanExactlyWhenMisspelt`, `Runs.ResolvesUndoneExactlyWhenMisspelt`, with a run of an answer that
  says "restart_pod" in `Runs.LowerCaseResolvesUndone`.
- A plan that needs no approval gets no row in `remediation_plans`, so its execution can never be recorded. A run
  with an allowed plan can return exactly when the plan needs approval (`Runs.ReturnsExactlyWhenApprovalNeeded`);
  an automatic one acts up to three times and aborts (`Runs.AutomaticRestartActsThreeTimes`). In the fallback the
  plan row is not yet committed, with the same effect: for such a plan it acts and leaves the incident FAILED, or
  INVESTIGATING if something crashes or FAILED cannot be stored: `Fallback.ActsExactlyWhenAutomatic`,
  `Fallback.FallbackNeverResolves`, with an answer in `Fallback.FallbackRestarts`.
- An approval request that committed but went unreported is retried for ever against its own primary key:
  `Workflow.RequestStuckExactlyWhenRecorded`, with a run in `Runs.RequestGetsStuck`.
- A FAILURE row does not stop a retry from acting again: `Executor.ActsExactlyWhenNotSucceeded`, with the calls in
  `Executor.FailedActionIsRepeated`.
- The code handles a wait that returns without a decision; one that raises instead ends the run and leaves the
  incident AWAITING_APPROVAL, which happens only if no signal has come: `Runs.RaisedWaitLeavesWaiting`.
- What counts is the last signal before the wait returns, even if it came before the request:
  `Runs.ConsumedIsLastSignal`, `Runs.DecidesBeforeRequest`, with a run in `Runs.EarlyApprovalCounts`.
- A redelivered event whose workflow is still running starts the fallback beside it, and a start that raises after
  Temporal accepted it does so at once: `Investigator.RedeliveryBesideRunningWorkflow`,
  `Investigator.ActsOfDelivery`, with the deliveries in `Investigator.LostMarkDoublesTheWork`.
- The fallback writes no timeline row for two of its status changes and an unnamed one for another. For every
  failure, the timeline agrees with the status afterwards exactly when nothing was stored, a diagnosis was
  stored without a plan, or only the status that the incident already had: `Fallback.LogAgreesExactlyWhenTold`.

## Model

| member | source | states |
|---|---|---|
| Correlator.RootServices | services/correlator/main.py:67-73 | The loop over the dependency dictionary yields the service and exactly its direct dependents, for any graph. |
| Correlator.FirstNewest | services/correlator/main.py:143-153 | A newest matching row if any row matches, none otherwise. |
| Correlator.FindOpenIncident | services/correlator/main.py:135-153 | The newest open incident of the namespace within 300 s on the service or a dependent; none exactly when there is none; any row of a tie may be returned. |
| Correlator.CorrelatorSession.RecordOutbox | services/correlator/main.py:156-163 | Appends one outbox row with a fresh event id. |
| Correlator.CorrelatorSession.MarkProcessed | services/correlator/main.py:166-171 | Adds the event to the processed marks. |
| Correlator.CorrelatorSession.HandleRawAlert | services/correlator/main.py:187-345 | The in-place handler leaves all five tables as the specification says; it saves an alert, opens an incident or leaves a mark exactly when its result says so, and a raise or a skip changes nothing. |
| Correlator.CorrelatorSession.CorrelateInto | services/correlator/main.py:249-280 | Attaching: alert row, list, escalation, timeline and outbox row together, and no processed mark yet. |
| Correlator.CorrelatorSession.OpenIncident | services/correlator/main.py:288-331 | Opening: incident, alert, timeline and outbox row together, and no processed mark yet. |
| Intake.NamesRoundTrip | services/correlator/main.py:95-117 | The four severities and two statuses are read from exactly their names. |
| Intake.EffectiveExact | services/correlator/main.py:95-117 | An event raises unless its severity is one of the four names or missing and its status one of the two or missing; it reaches the database exactly if moreover it is firing or has no status. |
| Intake.SavedRows | services/correlator/main.py:187-345 | A saved alert tells the event, with the defaults for what is missing; its incident, timeline row and outbox row agree with it and with each other; and the event's id is marked. |
| Intake.OtherRowsStay | services/correlator/main.py:249-261 | A delivery changes no alert, no other incident, and of its own incident only the list and the severity. |
| Intake.MappingKeepsOrder | services/correlator/main.py:76-87 | The mapping to the incident scale keeps the order of the four alert severities and tells them apart. |
| Intake.RanksDescend | services/correlator/main.py:76-77 | Both scales descend in rank, and only info rises when it is mapped. |
| Conservation.RunConserves | services/correlator/main.py:249-331 | In every state of every serial run the keys are unique and the references resolve, outbox row i announces alert i, and each list is the ids of the incident's alerts. |
| Conservation.AlertInExactlyOneIncident | services/correlator/main.py:249-309 | Every saved alert is in the list of exactly one incident, its own, and exactly once. |
| Conservation.RowsFollowAlerts | services/correlator/main.py:271-331 | The rows of one incident follow its alerts, whatever rows of other incidents lie between. |
| Conservation.ConservationTheorem | services/correlator/main.py:249-331 | As many outbox rows as alerts; an incident has one INCIDENT_CREATED row and then one INCIDENT_UPDATED row per further alert, and the k-th lists its first k alerts in order. |
| Conservation.EscalateIsMaximum | services/correlator/main.py:76-87 | Comparing an alert's rank but storing its mapped severity is the maximum on the incident scale, although the two scales differ. |
| Conservation.SeverityTheorem | services/correlator/main.py:259-261 | In every serial run an incident's severity is the highest mapped severity among all its alerts, in whatever order they came. |
| Conservation.LogTheorem | services/correlator/main.py:263-317 | Folding an incident's timeline gives its status, in every serial run of the correlator, with status changes of others between that come with their row. |
| Conservation.TimelineTheorem | services/correlator/main.py:263-317 | In every serial run an incident's timeline starts with its one creation row and has one correlation row per further alert, in the order of `alert_ids`. |
| Windows.SpacedCount | services/correlator/main.py:120-132 | Times more than a gap apart number at most span / gap + 1 in a closed span. |
| Windows.SuppressionTheorem | services/correlator/main.py:222-229 | Two saved alerts with one fingerprint are more than 60 s apart. |
| Windows.SuppressionRate | services/correlator/main.py:120-132 | Any closed span of T holds at most T / 60 s + 1 saved alerts of one fingerprint. |
| Windows.SavesExactlyWhenUnheard | services/correlator/main.py:199-229 | A delivery saves its alert if and only if its event is firing and new and no firing alert of its fingerprint was saved in the last 60 s. |
| Windows.OpensExactlyWhenAllClosed | services/correlator/main.py:135-153 | A delivery opens an incident if and only if its event is firing and new, no alert of its fingerprint was saved in the last 60 s, and every incident of the namespace on the service or a direct dependent is resolved or failed or more than 300 s old. |
| Windows.AttachesToNewest | services/correlator/main.py:135-153 | An alert that opens no incident goes to a newest one of those that are open, recent, of its namespace, and on its service or a direct dependent. |
| Windows.SpacingTheorem | services/correlator/main.py:247-306 | In every serial run and for any dependency graph, an incident is more than 300 s younger than every earlier one on its service or a direct dependent that was open when it was created. |
| Windows.IncidentRate | services/correlator/main.py:135-153 | If its incidents are open whenever the next one is created, a service gets at most T / 300 s + 1 of them in a span of T. |
| Windows.OneHopSufficesExactlyWhenFlat | services/correlator/main.py:67-73 | For any graph and service, walking upstream any number of hops finds no more than the one hop of the code if and only if no direct dependent has a dependent that is not a direct one. |
| Windows.OneHopOneWay | services/correlator/main.py:60-73 | On the deployed graph that condition fails at postgres, which misses checkout two hops up, and the hop from payment does not lead back. |
| Windows.DeployedExactly | services/correlator/main.py:60-73 | On the deployed graph a service's alerts find exactly its own incidents and those of the services that name it as a dependency. |
| Redelivery.ProcessedIsSeen | services/correlator/main.py:341-342 | An event id is marked if and only if an effective delivery carried it. |
| Redelivery.RedeliveryTheorem | services/correlator/main.py:206-219 | Removing every repeated delivery from a run changes no table. |
| Redelivery.NoOpExactlyWhenSeen | services/correlator/main.py:199-219 | A delivery changes nothing if and only if its event is not effective or an effective delivery of its id came before. |
| Redelivery.FirstDeliveriesSufficeExactlyWhenNoneRevived | services/correlator/main.py:199-219 | The tables after any deliveries equal the tables after only the first delivery of each event id if and only if no id comes first with an event that leaves no mark and later with one that does. |
| Redelivery.FirstDeliveriesTheorem | services/correlator/main.py:187-342 | In particular they are equal if an event id determines its event. |
| Redelivery.IdReuseIsNotARepeat | services/correlator/main.py:201-204 | A run of a resolved and a firing alert under one id is such a revival, and the tables differ. |
| Workers.StepIsExact | services/correlator/main.py:206-345 | Every read, commit, crash or status change keeps the tables equal to the logged commits, with distinct event ids. |
| Workers.AtMostOnceTheorem | services/correlator/main.py:206-345 | Under any interleaving of workers, redeliveries and crashes, each event id commits at most once, exactly once if it is marked; alerts, outbox rows and incidents are the effects of those commits, one for one, and nothing else. |
| Workers.CrashLosesTransaction | services/correlator/main.py:206-345 | After a crash nothing of the worker's transaction takes effect until it begins again. |
| Workers.UninterruptedIsSerial | services/correlator/main.py:206-345 | A transaction whose steps no other worker interrupts does what the serial handler does. |
| Workers.ListConservedExactlyWhenFresh | services/correlator/main.py:254-257 | The write-back keeps the list of alerts complete if and only if the list that was read is still the stored one. |
| Workers.MessageTellsWhatWasRead | services/correlator/main.py:271-280 | The message of a concurrent commit lists what was read and the new alert; its status is the stored one if and only if that has not changed since it was read. |
| Workers.TwoWorkersLoseAnAlert | services/correlator/main.py:254-257 | From a state in which two workers have read one incident, their commits save two alerts and list one. |
| Freshness.AttachLists | services/correlator/main.py:254-257 | A concurrent commit leaves its incident's list complete if and only if it was complete and the list that was read is still stored, and leaves every other list as it was. |
| Freshness.ListedExactlyWhenNeverStale | services/correlator/main.py:247-257 | Under any interleaving of workers, crashes and status changes, an incident lists all its alerts if and only if no commit to it wrote back a stale list. |
| Freshness.TwoReadersRead | services/correlator/main.py:206-247 | From empty tables, three workers reach the state in which two have read the incident of the third, for any three different alerts of one service. |
| Freshness.ThreeAlertsTwoListed | services/correlator/main.py:254-257 | That run ends with three alerts of an incident that lists two. |
| Interleaved.InterleavedTheorem | services/correlator/main.py:263-331 | In every concurrent run each timeline folds to its incident's status, starts with its one creation row and names every further alert in order, also those that the list lost; outbox event ids are distinct, every row names an incident, and each incident is announced exactly once. |
| Interleaved.WriteHighest | services/correlator/main.py:259-261 | A commit that overwrites the severity makes it the highest exactly when no alert of the incident ranks above the new one; any other write leaves it the highest exactly when it was. |
| Interleaved.HighestExactlyWhenLastOverwriteTops | services/correlator/main.py:259-261 | Under any interleaving, an incident's severity is the highest among its alerts if and only if the last commit that overwrote it was for an alert that none of the incident's ranked above. |
| Interleaved.CriticalIsOverwritten | services/correlator/main.py:259-261 | From empty tables, a high alert can overwrite a critical severity that it has not read. |
| Serial.CurrentRunsAreSerial | services/correlator/main.py:206-345 | A concurrent run in which every commit still finds what its transaction read leaves the tables of the serial run of its commits, in their order. |
| Serial.SerialRunsAreCurrent | services/correlator/main.py:187-345 | Every serial run is such a concurrent run. |
| Outbox.Oldest | services/outbox_publisher/main.py:43-53 | An oldest eligible unlocked row, none exactly when there is none. |
| Outbox.OldestRowsAreBatch | services/outbox_publisher/main.py:43-53 | Taking oldest rows one by one answers the query with its limit, order and lock rule. |
| Outbox.BatchExists | services/outbox_publisher/main.py:43-55 | The query has an answer in every state of the table and its locks. |
| Outbox.BatchIsFull | services/outbox_publisher/main.py:43-55 | A batch has at most 50 rows, and fewer only if it has all the eligible unlocked ones. |
| Outbox.EligibleUntilTenFailures | services/outbox_publisher/main.py:46-49 | A new row is eligible, and stays so through failures until there are ten. |
| Outbox.PolledPublishes | services/outbox_publisher/main.py:57-67 | A poll publishes as many rows as sends succeeded. |
| Outbox.OutboxTable.PublishPending | services/outbox_publisher/main.py:37-85 | The loop gives each row of the batch the columns of its own send, leaves all other rows alone and counts the sends that succeeded. |
| Outbox.OutboxTable.Publish | services/outbox_publisher/main.py:57-83 | One round: a success sets published and clears the error, a failure adds one attempt and keeps the error. |
| Starvation.PollSpends | services/outbox_publisher/main.py:57-83 | A poll takes an attempt from the budget of the rows ahead for each of them that it serves. |
| Starvation.PassedOver | services/outbox_publisher/main.py:43-55 | A poll that passes over an eligible row uses up fifty attempts of rows ahead of it. |
| Starvation.WaitingCosts | services/outbox_publisher/main.py:32-83 | While a row waits, fifty per poll is paid from its own attempts and the budget ahead of it. |
| Starvation.StarvationBound | services/outbox_publisher/main.py:32-83 | With one publisher, a row with k eligible rows ahead is published or dead after k / 5 + 10 committed polls, whatever younger rows arrive, whichever sends fail and however many polls roll back. |
| Publishers.StepKeeps | services/outbox_publisher/main.py:41-83 | Every select, send, commit and rollback keeps open batches disjoint and eligible and every copy accounted for. |
| Publishers.ExecutionKeeps | services/outbox_publisher/main.py:41-83 | So does every run of any number of publishers. |
| Publishers.PublisherTheorem | services/outbox_publisher/main.py:41-83 | No row is in two open batches; published means at least one copy on the topic and at most nine failures; copies are one for the publication, one for an open batch that sent it, one per rolled-back batch that had sent it, and one per raising send that left one, of which there are at most as many as attempts; a row has a publication time exactly if it is published, and an error exactly if it failed and is not. |
| Publishers.TopicGrowsExactly | services/outbox_publisher/main.py:57-83 | A send that succeeds, or raises having left a copy, adds its row to the topic at once; a rollback and a commit leave the topic alone. |
| Pipeline.TablesAreCorrelated | services/outbox_publisher/main.py:57-83 | Publishing never changes the correlators' tables. |
| Pipeline.CommittedRowsAreEligible | services/correlator/main.py:156-163 | Every outbox row that a correlator commits reaches the publishers eligible and with its own timestamp. |
| Pipeline.TopicTheorem | services/correlator/main.py:290-331 | Under any interleaving of correlators and publishers, with crashes, rollbacks and resends, every message on incidents.created names an existing incident, and event ids and incidents determine each other. |
| Pipeline.EndToEndTheorem | services/outbox_publisher/main.py:57-67 | In every such run, once every row is published, every incident is announced on the topic by exactly one event id. |
| Consumer.AegisConsumer.ProcessRecord | common/kafka/consumer.py:82-115 | The record fails exactly if its check raised, or its handler was called and raised; it is skipped exactly if it was found processed; and the positions are stored exactly if nothing raised, the commit included. |
| Consumer.CommitsExactlyWhenNothingRaised | common/kafka/consumer.py:82-115 | A record moves its own partition by one, and stores all positions if and only if neither check, handler nor commit raised. |
| Consumer.AegisConsumer.Run | common/kafka/consumer.py:72-80 | The loop advances position and committed offsets as the trace of outcomes says. |
| Consumer.OffsetSafety | common/kafka/consumer.py:72-115 | In every run with restarts, for each offset below the committed one the handler returned or the event was known to be processed, unless its own check or handler raised and a later commit of that session passed it. |
| Consumer.CommittedIsGone | common/kafka/consumer.py:96-103 | An offset below the committed one is never delivered again, in any continuation. |
| Consumer.FateOfFailedRecord | common/kafka/consumer.py:105-115 | A failed record is lost if a commit of the session comes next, and still to come if a restart does. |
| Remediation.SafeActions | agents/root_cause_agent.py:294-313 | The loop over the model's actions computes the stripped list. |
| Remediation.StripExact | agents/root_cause_agent.py:294-313 | Whatever survives stripping has one of the three allowed names when capitalised, and no action object with such a name is lost, for any capitalisation that keeps the known names. |
| Remediation.AsciiUpperCapitalises | agents/root_cause_agent.py:297-298 | There are capitalisations that keep the known names and turn other words into them, such as that of ASCII letters. |
| Remediation.RcaIsPermitted | agents/root_cause_agent.py:286-316 | For every model answer, only actions with allowed names are recommended, also by the default. |
| Answers.TextBecomesItsAction | agents/root_cause_agent.py:306-313 | A text becomes a rollback if it mentions one in any case, else a restart, else a scale, else nothing, on the suspected component and with the text as reason. |
| Answers.ObjectIsKeptOrDropped | agents/root_cause_agent.py:295-305 | An object is kept unchanged if it names an allowed action in any case; anything else that is no text is dropped. |
| Answers.StripConcat | agents/root_cause_agent.py:294-313 | Stripping works item by item, in order. |
| Answers.FirstSpellingCounts | agents/root_cause_agent.py:288-293 | The list is read under the first of three keys with something in it. |
| Answers.EmptyValuesAreFalse | agents/root_cause_agent.py:288-293 | Null, false, zero and empty texts, lists and objects count as nothing. |
| Answers.RecommendsSurvivors | agents/root_cause_agent.py:286-316 | The survivors are recommended in order, or a rollback of the suspected component if there are none, and nothing for an answer that is not JSON. |
| Answers.OddLists | agents/root_cause_agent.py:288-295 | A text in place of the list is read letter by letter, an object key by key, and a number or truth value fails the diagnosis. |
| Answers.ActionsRoundTrip | agents/remediation_agent.py:53-62 | The six actions are read from exactly their names. |
| Answers.PlanFollowsAnswer | agents/remediation_agent.py:49-97 | A plan is the first action as the model put it: its name, its target and namespace or else the incident's, its replicas or else 3, low risk exactly for restarts and scales, and approval for the rest. |
| Answers.PlanMissesExactly | agents/remediation_agent.py:45-97 | There is no plan exactly if no action is there or the first is not named as a plannable one, and planning raises exactly if target, namespace or reason of a plannable one is no text. |
| Answers.VerdictExact | policies/remediation_policy.py:100-207 | Each rejection reason and each risk level occurs exactly under its condition, in the order of the checks. |
| Answers.DispatchFollowsPlan | services/remediation/k8s_executor.py:146-160 | What reaches the cluster has the plan's kind, target, namespace and number of replicas, where a missing number is 2 and true is 1. |
| Remediation.NoPlanExactlyWhenMisspelt | agents/remediation_agent.py:45-62 | A permitted first action yields no plan if and only if its name, as written, is not one of the three. |
| Remediation.PermittedParses | agents/remediation_agent.py:53-62 | A permitted name is a known action if and only if it is one of the three as written. |
| Remediation.PolicyExact | policies/remediation_policy.py:100-207 | The policy allows exactly the plans that dispatch to a bounded action on an allowed target and namespace, and configuration changes there; it asks for approval exactly for rollbacks and configuration changes. |
| Remediation.PlannerAgreesWithPolicy | agents/remediation_agent.py:64-97 | On every plan that is emitted and allowed, planner and policy agree on the risk level and on the need for approval. |
| Remediation.ChainTheorem | policies/remediation_policy.py:87-207 | For every model answer, an allowed plan dispatches to a restart, a scale or a rollback within bounds, to the replica count that was checked, and needs approval exactly if it is a rollback. |
| Executor.K8sExecutor.Record | services/remediation/k8s_executor.py:84-98 | One row in its own transaction, rejected exactly when a constraint or the commit fails. |
| Executor.K8sExecutor.ExecuteRemediation | services/remediation/k8s_executor.py:32-143 | The in-place call leaves the execution table and the cluster as the specification says, and never touches the plans. |
| Executor.CallIsBounded | services/remediation/k8s_executor.py:56-143 | Whatever fails, a call acts at most once and only as the plan says, changes no row, keeps one row per plan, and does nothing after a SUCCESS row. |
| Executor.ResultsAreRecorded | services/remediation/k8s_executor.py:56-143 | A SUCCESS row newly appears if and only if the action ran and its insertion was committed, a FAILURE row if and only if the action or the recording of its success failed and the failure was committed; rows are the plan's, and a result tells the row. |
| Executor.CrashesExactly | services/remediation/k8s_executor.py:56-143 | Of the calls without a result, those end in a crash in which the action or a record crashed, and the others in an error. |
| Executor.SuccessIsFinal | services/remediation/k8s_executor.py:62-107 | After a call that returned success, or was skipped, no later call with that id does anything. |
| Executor.ExecutorTheorem | services/remediation/k8s_executor.py:56-143 | Over any number of calls with crashes anywhere: one row per plan, at most one action per call, none once a SUCCESS row is committed. |
| Executor.MissingPlanNeverRecords | services/remediation/k8s_executor.py:109-133 | Without a committed plan row no call records or returns anything. |
| Executor.ActsExactlyWhenNotSucceeded | services/remediation/k8s_executor.py:62-81 | A call acts if and only if its check got through, its plan dispatches and no SUCCESS row is there, whatever other rows are. |
| Executor.RetryAfterFailureActsAgain | services/remediation/k8s_executor.py:80-133 | In particular a retry after a FAILURE row acts again, and then stores nothing and raises. |
| Executor.FailedActionIsRepeated | services/remediation/k8s_executor.py:80-133 | An action that raised is recorded as a failure, and the next call with the same id repeats it. |
| Executor.RecordsExactlyWhenInsertable | services/remediation/k8s_executor.py:84-98 | A call can return a recorded result if and only if its row satisfies the constraints. |
| Workflow.StepKeepsLog | workflows/incident_workflow.py:244-294 | Every transaction of every activity, reported or not, keeps the timeline in agreement with the status. |
| Workflow.LogTheorem | workflows/incident_workflow.py:244-515 | Folding the timeline gives the status after every commit of every run, with retries and crashes, and alerts between any two transactions. |
| Workflow.StepIsSafe | workflows/incident_workflow.py:64-228 | Every step keeps the run's place, the cleared plan and everything done to the cluster consistent. |
| Workflow.SafetyTheorem | workflows/incident_workflow.py:115-181 | For every model answer, signal and failure, the cluster sees at most three actions, all of them the cleared plan's: a restart, a scale to the checked count in 1..10, or a rollback after the consumed decision was "approved", on an allowed target and namespace. |
| Runs.LastSignal | workflows/incident_workflow.py:59-62 | The last signal of a run was sent to it, and there is none only if none was sent. |
| Runs.DecisionIsLastSignal | workflows/incident_workflow.py:59-62 | While a run is not over its decision is the last signal so far, wherever the run stood when it came. |
| Runs.ConsumedIsLastSignal | workflows/incident_workflow.py:145-160 | The decision that a run acts on is the last signal before its wait returned, before or after the request. |
| Runs.GoesOnExactlyWhenApproved | workflows/incident_workflow.py:151-173 | A wait that returns leads to the execution if and only if the last signal so far was an approval. |
| Runs.RaisedWaitLeavesWaiting | workflows/incident_workflow.py:145-158 | A wait can raise if and only if no signal has come; the run then ends with an error and the incident stays AWAITING_APPROVAL, whatever follows. |
| Runs.ExecutedAfterApproval | workflows/incident_workflow.py:131-181 | An execution that needs approval was preceded by a wait whose last signal approved. |
| Runs.DecidesBeforeRequest | workflows/incident_workflow.py:131-160 | Without a signal after the request, a run goes on to execute if and only if the decision from before it is an approval. |
| Runs.EarlyApprovalCounts | workflows/incident_workflow.py:59-173 | An approval sent while the model is still being asked leads a rollback that is proposed only later to its execution. |
| Runs.ResolvesUndoneExactlyWhenMisspelt | workflows/incident_workflow.py:98-112 | Planning resolves the incident with nothing done if and only if the first recommended action is not named exactly as the planner expects. |
| Runs.LowerCaseResolvesUndone | workflows/incident_workflow.py:82-112 | A run of an answer that asks to "restart_pod" returns RESOLVED with nothing done, for any capitalisation that makes that RESTART_POD. |
| Workflow.AgreementTheorem | workflows/incident_workflow.py:82-228 | A run returns "RESOLVED" if and only if the status is RESOLVED, otherwise it is FAILED; a resolved run did nothing, or its verification measured no error rate of 5% or more. |
| Outcomes.OutcomeTheorem | workflows/incident_workflow.py:82-228 | Every returned outcome is earned: a failed remediation has a FAILURE row, a verified one a SUCCESS row and a measurement below 5% or missing, an unrecovered one a measurement that is not; a rejection its decision, a timeout none, and both a plan that needs approval and nothing done; and the others nothing done. |
| Outcomes.VerifiedWasRecorded | workflows/incident_workflow.py:183-206 | Only a run whose plan has a SUCCESS row is verified. |
| Outcomes.StatusTellsPlace | workflows/incident_workflow.py:82-228 | In every run the incident's status tells where the workflow stands. |
| Outcomes.StepsDecide | workflows/incident_workflow.py:82-228 | Where a diagnosis, a plan, a policy check and a verification lead, for each branch. |
| Outcomes.FailuresAreRetried | workflows/incident_workflow.py:75-228 | A failed attempt is followed by another up to three, by none for the policy check, and by others for ever where no policy is given. |
| Outcomes.LostReportsKeepCommits | workflows/incident_workflow.py:244-515 | An attempt whose report is lost has committed what a reported one commits, and counts as failed. |
| Outcomes.RowsTellPlaces | workflows/incident_workflow.py:244-515 | Each kind of timeline row is logged exactly at its own step, and a status row names the status written. |
| Outcomes.CommitsLeaveRows | workflows/incident_workflow.py:244-515 | Every reported transaction has left its row, and a reported approval request its plan. |
| Workflow.AutomaticRemediationNeverReturns | workflows/incident_workflow.py:131-189 | A run whose plan needs no approval never returns, never verifies and never gets an execution row. |
| Runs.ReturnsExactlyWhenApprovalNeeded | workflows/incident_workflow.py:115-228 | From the check of a plan that the policy allows, some continuation returns, and some returns with the plan carried out, if and only if the plan needs human approval. |
| Runs.AutomaticRestartActsThreeTimes | workflows/incident_workflow.py:75-181 | An answer that recommends a restart leads to three restarts and an aborted run with nothing recorded, whatever happens to the calls once they are past their check. |
| Workflow.TerminationTheorem | workflows/incident_workflow.py:75-228 | No run moves more than 26 times, whatever fails and however often. |
| Runs.EndsAfterSuccesses | workflows/incident_workflow.py:75-228 | By its 26th successful attempt at the latest a run has returned or aborted, whatever fails in between. |
| Workflow.SuccessMoves | workflows/incident_workflow.py:82-228 | Every successful attempt moves a run on. |
| Workflow.GoesOnExactlyWhenNotStuck | workflows/incident_workflow.py:82-228 | A run can go on if and only if it has not ended and its approval request is not stuck. |
| Workflow.RequestStuckExactlyWhenRecorded | workflows/incident_workflow.py:133-137 | An approval request can still get through if and only if its plan row is not there yet. |
| Runs.RequestGetsStuck | workflows/incident_workflow.py:82-137 | A run from its start gets there: the request commits and is not reported. |
| Workflow.ApprovedPlanResolves | workflows/incident_workflow.py:131-216 | An approved plan does run through to RESOLVED, acting once. |
| WorkflowRun.IncidentWorkflow.ApprovalSignal | workflows/incident_workflow.py:59-62 | A signal sets the decision and nothing else. |
| WorkflowRun.IncidentWorkflow.StartAttempt | workflows/incident_workflow.py:243-255 | The first transaction of an attempt either commits status and row or ends the attempt. |
| WorkflowRun.IncidentWorkflow.DiagnoseAttempt | workflows/incident_workflow.py:257-310 | The model's answer and the second transaction end in a diagnosis, a failed one or a crash before or after the commit. |
| WorkflowRun.IncidentWorkflow.InvestigateActivity | workflows/incident_workflow.py:231-310 | Three attempts of two transactions each, with signals and alerts before and between them, are steps of the machine, ending in a diagnosis, a failed one or an aborted run. |
| WorkflowRun.IncidentWorkflow.PlanActivity | workflows/incident_workflow.py:313-334 | Three attempts end in a plan, in none or in an aborted run. |
| WorkflowRun.IncidentWorkflow.PolicyActivity | workflows/incident_workflow.py:337-357 | One attempt; its result is the policy's and decides where the run goes. |
| WorkflowRun.IncidentWorkflow.RequestApprovalActivity | workflows/incident_workflow.py:360-399 | It reports with the plan row written, or never, with the row in its way. |
| WorkflowRun.IncidentWorkflow.UpdateStatusActivity | workflows/incident_workflow.py:493-515 | Retried until it reports, it leaves the given status, whatever attempts committed before. |
| WorkflowRun.IncidentWorkflow.ExecuteActivity | workflows/incident_workflow.py:402-430 | Three attempts end in a result of the executor or in an aborted run. |
| WorkflowRun.IncidentWorkflow.ErrorRateOk | workflows/incident_workflow.py:442-459 | The error rate is fine unless one was read that is not below 5%. |
| WorkflowRun.IncidentWorkflow.VerifyActivity | workflows/incident_workflow.py:433-490 | Three attempts end in a verdict that the error rate alone decides, or in an aborted run. |
| WorkflowRun.IncidentWorkflow.WaitCondition | workflows/incident_workflow.py:145-149 | A wait that raises aborts the run, and only while there is no decision. |
| WorkflowRun.IncidentWorkflow.AwaitApproval | workflows/incident_workflow.py:130-166 | The run goes on only with an approval; otherwise it has ended as its result says. |
| WorkflowRun.IncidentWorkflow.Remediate | workflows/incident_workflow.py:168-227 | Execution, verification and the last status write end as the result says. |
| WorkflowRun.IncidentWorkflow.Run | workflows/incident_workflow.py:64-227 | Every run of the workflow object is a run of the state machine and ends where its result says; hence at most three bounded actions, a rollback only if the last signal before the wait returned was an approval. |
| Joint.StepCommitsOneRow | workflows/incident_workflow.py:244-515 | A step of a workflow commits at most one timeline row, and no status without one. |
| Joint.WriteIsLog | workflows/incident_workflow.py:244-515 | A workflow's transaction is, on the tables, a row logged by another service with the status it names. |
| Joint.JointRunIsConcurrent | workflows/incident_workflow.py:244-515 | A joint run of interleaved correlators and the workflows of all incidents is, for the tables, a concurrent run of the correlators; each workflow's view is that of the tables, and each workflow is safe. |
| Joint.JointTheorem | workflows/incident_workflow.py:244-515 | In every joint run, with statuses written between a correlator's reads and its commit, each timeline folds to its incident's status and tells of all its alerts, every incident is announced once, and each workflow mirrors the tables and is safe. |
| Joint.CurrentJointTheorem | services/correlator/main.py:249-331 | If moreover every correlator's commit still finds what it read, the four tables agree and severities are maxima, as in serial runs. |
| Investigator.InvestigatorWorker.StartIncidentWorkflow | workflows/incident_workflow.py:543-565 | A start is refused beside an open workflow; otherwise it opens one unless Temporal did not get it, and may raise in either case. |
| Investigator.InvestigatorWorker.HandleIncidentCreated | services/investigator/main.py:43-90 | The in-place handler leaves marks, open workflows and actions as the specification says, also when a start raises after it was accepted. |
| Investigator.ActsOfDelivery | services/investigator/main.py:62-79 | A delivery that is not ignored opens a workflow, runs the fallback, or both, and both if and only if the start was accepted and still raised. |
| Investigator.ActsTheorem | services/investigator/main.py:43-90 | One instance acts on an event once if it ends up marked, plus once per delivery that acted but raised, crashed or lost its mark, plus once per delivery whose start raised after it was accepted. |
| Investigator.MarksExactly | services/investigator/main.py:56-90 | A delivery newly marks its event if and only if it acted, no fallback of its own raised and the mark was stored; no other mark changes. |
| Investigator.OpensExactly | services/investigator/main.py:52-79 | A delivery opens a workflow, and runs the fallback, exactly under their conditions, and changes nothing else that is open. |
| Investigator.RereadingIsNoOp | services/investigator/main.py:231-243 | Reading a whole topic again under a fresh group id changes nothing if its events are marked. |
| Investigator.NoOpExactlyWhenActedOn | services/investigator/main.py:52-58 | In any run a delivery does nothing if and only if it names no incident, or its event id is not empty and could not be checked or was acted on by a delivery that kept its mark. |
| Investigator.RedeliveryBesideRunningWorkflow | services/investigator/main.py:62-79 | A delivery that is not ignored runs the fallback alone, however the start ends, if and only if the incident's workflow is open. |
| Investigator.LostMarkDoublesTheWork | services/investigator/main.py:62-90 | Two deliveries of one event, the first with a lost mark, start the workflow and then run the fallback beside it. |
| Investigator.OpensAgainExactlyWhenClosed | services/investigator/main.py:62-79 | An incident with an open workflow is given another exactly after that one closed. |
| Effects.ActionsAreBounded | services/investigator/main.py:62-79 | Over any acts of the investigator, the cluster sees at most three actions per started workflow and one per fallback, each within bounds. |
| Effects.IncidentTotal | services/investigator/main.py:43-90 | For one incident with one event id, the actions are at most three per started workflow and one per fallback, and at most three for the marked delivery, each unmarked one and each doubled one. |
| Fallback.Investigation.RemediatePlan | services/investigator/main.py:158-219 | The plan part of the second transaction, with the executor's own commits inside it, leaves status, timeline, plans and executions as the specification says. |
| Fallback.Investigation.RunInvestigationSync | services/investigator/main.py:93-228 | So does the whole fallback, with a failure or crash at each of its commits. |
| Fallback.FallbackSafety | services/investigator/main.py:174-188 | For every model answer and failure the fallback acts at most once, and never rolls back. |
| Fallback.FallbackNeverResolves | services/investigator/main.py:126-188 | It never resolves an incident: when it acts, nothing is recorded, its transaction is undone, and the incident is left FAILED or INVESTIGATING. |
| Fallback.ActsExactlyWhenAutomatic | services/investigator/main.py:110-228 | The fallback acts if and only if its first transaction and the executor's check got through and the answer leads to a plan that needs no approval; then the incident is FAILED if that can be stored and the executor does not crash, and INVESTIGATING otherwise. |
| Fallback.EndsAsDecided | services/investigator/main.py:126-219 | Committed without the executor, the fallback leaves a diagnosis, a plan that awaits approval, or a rejected one, each with its status, rows and plan row. |
| Fallback.EndsAsFailed | services/investigator/main.py:110-228 | When a transaction fails, no row of it is kept; a run that returns left FAILED. |
| Fallback.FallbackRestarts | services/investigator/main.py:174-188 | An answer that recommends a restart is carried out and leaves the incident FAILED, with nothing failing but the executor's own rows. |
| Fallback.WouldResolveExactlyWhenReturned | services/investigator/main.py:174-188 | Were the plan row committed first, an automatic plan would resolve the incident if and only if the executor returns, whatever it returns. |
| Fallback.ExecutorCommitsSurvive | services/investigator/main.py:174-188 | Whatever becomes of the fallback's transaction, the executor's own rows and actions stay. |
| Fallback.LogAgreesExactlyWhenTold | services/investigator/main.py:110-228 | For every model answer, failure and status before, the timeline gives the status afterwards if and only if nothing was stored, a diagnosis was stored without a plan, or the only thing stored is the status that was there. |
| Fallback.LogAgreesExactlyWhenNoPlan | services/investigator/main.py:110-228 | When nothing goes wrong and the incident had not failed before, that is if and only if a diagnosis was made and no plan. |

## Left out

- The API (`services/api/main.py`), a second writer of statuses that also reopens approvals, and the approvals
  table, which only the API reads.
- The alert ingestor, the Kafka producer and admin client, the agents' tools, prompts and the model provider:
  network clients. A send succeeds or raises; the model's answer is an arbitrary parsed value.
- Kubernetes calls and their result strings: one step that acts, raises or crashes.
- SHA-256, UUID and JSON text: a fingerprint is the hashed text, a new id is fresh, and payloads are values.
- Titles, labels, correlation ids, message keys, metrics, logging, demo services, frontend and manifests.
- More than one clock reading per handler run, and serialization failures of the database beyond its
  constraints and row locks.
- Temporal beyond attempts, signals, abnormal ends and stable arguments: the attempts of one activity do not
  overlap, and no attempt goes on after its timeout.
- Several investigator instances at once. The plans and executions of other incidents are arbitrary rows that
  do not change during a run; `Joint` shares alerts, incidents, timeline and outbox between incidents, but not
  plans and executions.
- Correlator.Normalize: raw alerts have string fields inside their payload; an event without a payload, which
  the code reads as its own payload, is not told apart, and a field of another type is not modelled.
- Correlator.Fingerprint: equal texts, not equal digests, so a collision of SHA-256 is not modelled; alert
  names, services and namespaces that contain colons may give one text, as in the code.
- Outbox.OutboxTable.PublishPending: describes a poll that commits; polls that roll back are events of
  `Starvation` and actions of `Publishers`, and the endless loop around it is an arbitrary history of them.
- Starvation.StarvationBound: is about one publisher, as the rows that others hold locked are not served; a row
  inserted later with the same timestamp is not younger and not covered, as the database may serve it first.
- Consumer.AegisConsumer.Run: start, stop, the running flag, rebalances and messages that are not JSON
  are not modelled; a session is the list of records it gets.
- Remediation.RunRca: the texts, confidence, evidence and reasoning are not modelled; the suspected component
  is an arbitrary string, and how the rest of the parsing ends is a parameter.
- Remediation.Dispatch: `int()` of floats and numeric strings, which the policy never lets through, counts as
  raising.
