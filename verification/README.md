# Mailing engine: a verified model

This project models the mass-send engine of the mailing module: the send sweep and its capped,
resumable drives, A/B campaigns and winner promotion, the targeting-domain language and the query it
compiles to, the trace and mailing lifecycles, opt-outs, and the SMS delivery pump.

Tables are sequences of rows and a row's id is its position (rows are soft-deleted, never removed).
Each guarded UPDATE or INSERT is one atomic step: a predicate for its WHERE arm, a function for its
SET arm, and a method on a repository class proved against them. The service loops are methods whose
contracts state the whole new table; the theorems quantify over every table, every run or every
interleaving of steps. Ids are naturals and a fresh uuid is the next position; the database clock is
a natural number of seconds.

What the source reaches outside itself for is a parameter, free in every theorem: case folding, the
HMAC bucket of an address, the uuid reader, the collation of addresses, tracker states, resolver
answers, the age of a trace, the mail seam's answer per trace, the billing seam, the short-link port,
and the host's run scope.

## How it is laid out

- `TraceLifecycle`, `TraceTable`, `BatchUpdate`: one trace and its verbs; the table under concurrent
  writers (the mint fence, soft-delete and reconcile batches).
- `SendWalk`, `MailDrive`, `Campaign`, `ExclusionRuns`, `RetryVerb`: one walk over the resolved list,
  capped passes against the uncapped plan, A/B campaigns over whole runs, who can never be reached,
  and retries.
- `Domain`, `Resolver`, `LikePattern`, `DomainMeaning`: the domain parser and printer, the query compiler
  against the direct meaning, what `like` really asks, and what each term means as written.
- `MailingLifecycle`, `Sweep`: the mailing row over whole histories; the sweep's claim, drive loop,
  accounting and isolation.
- `Subscriptions`, `TraceRoute`: opt-out flips and the public routes, up to what an unsubscribe does
  to the next resolution.
- `SmsPump`, `PumpRace`, `SmsSuppression`, `RetriedSms`: verdicts at any cadence, done-inference under
  a row lock with racing pumps and crashes, claim-time phone suppression, a retry followed through
  sweep and pump.
- `RepairedOptOut`: whom the repair arm hands to the mail seam after an opt-out.
- `Stats`, `AbRanking`, `AbPromotion`: the counts and ratios, winner ranking, winner copies.
- `MailTypes`: shared vocabulary.

Every lemma switches Dafny's automatic induction off and writes its induction out.

## What the proofs found

The model follows the code, also where its documentation says otherwise. Where a promise fails, the
theorem named says exactly when it holds, or follows the family of inputs on which it does not.

- `sent_date` is documented as stamped once; every completion stamps it again (`StampStandsIff`).
- A parked mailing that is canceled keeps its `send_error`; relaunched, it is never claimed and
  cannot be unparked (`ParkIsRecoverableIff`).
- The `opened` and `clicks` ratios can exceed 100, because an open before the transport verdict, or a
  click at any time, needs no send stamp (`TouchesWaitIff`).
- An opted-out address can still be mailed: a trace minted before the opt-out and never enqueued is
  repaired without a suppression check (`OptedOutIsHandedIff`).
- The domain language accepts `like` on an audience, and both readers of the domain skip the term:
  a mailing meant so for one audience goes to every live contact its other terms admit
  (`AudienceTermAsksNothingIff`).
- A mailing bound to a test after it has minted traces leaves their recipients out of the campaign
  (`CampaignPartitionIff`).
- A `like` value containing %, _ or a backslash does not mean "contains" (`LikeMeansContainsIff`).
- The pump's batch is documented as draining a larger backlog over consecutive runs; rows that stay
  transient keep their place in it (`BacklogDrainsIff`).
- A canceled tracker verdict depends on when the pump looked (`CancelLandsIff`).
- Two workers promoting one test make two winner copies (`OneCopyIff`).
- Ranking ties are documented as waiting; the code breaks them by id (`TieGoesToTheLeastId`).
- `complete_empty` is declared from `in_queue` only; its UPDATE also fires from `sending`
  (`GuardsAreEdgesIff`).
- `retry_failed` speaks of error and bounce traces; it frees error traces only
  (`BouncesAreNotRetried`).
- Retrying an sms mailing whose walk is over frees its failed traces and reports their number, yet the
  walk marker outlives the retry: nobody is sent to again (`SmsRetrySendsNobody`).
- Promoting an sms variant queues a mail mailing: the copy does not carry the channel
  (`SmsWinnerIsCopiedAsMail`).
- Both variants of a test sample with one seed, so the second variant only gets the band between the
  two percentages (`SecondVariantSendsTheBand`).
- A `mailing_domain` that targets no audience leaves the public unsubscribe with nothing to do
  (`UnsubscribedIsSelectedIff`).
- `domain_to_store` speaks of create and update; only create calls it, so an update stores an empty
  domain as it is.

## Model

| member | source | states |
|---|---|---|
| `TraceLifecycle.TraceStatusMachine.Transition` | src/domain/state_machine/trace_status_state_machine.rs:282-292 | a declared edge moves to its target and strictly raises the rank; any other is refused and moves nothing |
| `TraceLifecycle.TraceStatusMachine.TransitionToState` | src/domain/state_machine/trace_status_state_machine.rs:336-348 | reaches the target exactly when some declared edge leads there, and otherwise stays |
| `TraceLifecycle.TriggerIsTheMachine` | migrations/20260906100007_state_transition_check_mailing_traces_1c14ce41.up.sql:4-8 | the pairs the database trigger admits are exactly the pairs the generated machine leads through |
| `TraceLifecycle.GuardsAreTheMachine` | src/infrastructure/persistence/trace_repository.rs:280-447 | each `set_*` WHERE arm on a live row is exactly the machine's source set of its edge, and its SET arm lands on the edge's target |
| `TraceLifecycle.LastMoveDecides` | src/infrastructure/persistence/trace_repository.rs:280-447 | a whole run of verbs is decided by its last move: status, failure code and reason are that verb's, whatever was called before, between or after |
| `TraceLifecycle.MailBounceIff` | src/infrastructure/persistence/trace_repository.rs:358-389 | the code mail_bounce stands after a run exactly when its last move was a mail bounce, unless another verb was handed that code |
| `TraceLifecycle.MovesAreBounded` | src/infrastructure/persistence/trace_repository.rs:280-447 | any run of verbs by any callers moves a row at most five times; every move pays in rank |
| `TraceLifecycle.FiveMovesHappen` | src/infrastructure/persistence/trace_repository.rs:280-360 | five moves are reached: the bound is exact |
| `TraceLifecycle.TerminalAbsorbs` | src/domain/state_machine/trace_status_state_machine.rs:229-265 | reply, bounce, error and cancel absorb: no later run changes anything but the click and the channel links |
| `TraceLifecycle.FirstStampsStand` | src/infrastructure/persistence/trace_repository.rs:314-360 | the first submission, the first open and both channel links never change once set, over any run |
| `TraceLifecycle.StampsTellTheRun` | src/infrastructure/persistence/trace_repository.rs:280-462 | over any run: sent at the first send that matched, opened at the first open, reply or mail bounce, replied at the reply, clicked at the last click |
| `TraceLifecycle.MailLinkTellsTheRun` | src/infrastructure/persistence/trace_repository.rs:464-505 | the mail link is that of the first attachment that matched |
| `TraceLifecycle.RunsStaySound` | src/infrastructure/persistence/trace_repository.rs:280-462 | over any run of an engine-minted row: failure type set exactly in bounce, error and cancel; a canceled row was never sent; reply stamp exactly in reply; address never rewritten |
| `TraceLifecycle.OpenedUnsentIff` | src/infrastructure/persistence/trace_repository.rs:330-356 | over any run of a row not yet opened: it ends opened without a send stamp exactly when its first matching open or reply came before the transport verdict |
| `TraceTable.FenceLedger` | src/infrastructure/persistence/trace_repository.rs:138-173 | for any interleaving of mints, verbs and soft-deletes: at most one live non-cancel trace per (mailing, recipient), and the mints that won balance the holders and the holders lost |
| `TraceTable.FenceIsInductive` | migrations/20260426220007_create_mailing_trace_table.up.sql:55 | the partial unique index holds on every reachable table |
| `TraceTable.OneWinner` | src/infrastructure/persistence/trace_repository.rs:138-173 | however many workers race for a recipient, while nothing is canceled or freed at most one mint answers true, and none if a trace stood |
| `TraceTable.FenceIsPairwise` | migrations/20260426220007_create_mailing_trace_table.up.sql:55 | the counting form of the fence holds exactly when no two covered rows share a key, which is the index |
| `TraceTable.TablesStaySound` | src/infrastructure/persistence/trace_repository.rs:280-462 | every table reachable by engine mints, verbs and retries holds only sound rows |
| `TraceTable.TraceRepository.MintFenced` | src/infrastructure/persistence/trace_repository.rs:138-173 | answers true exactly when it created the trace; a fence hit is absorbed and changes nothing |
| `TraceTable.TraceRepository.MintTrace` | src/infrastructure/persistence/trace_repository.rs:88-122 | a violation is returned exactly when the row is fenced and its key is taken |
| `TraceTable.TraceRepository.Advance` | src/infrastructure/persistence/trace_repository.rs:526-536 | true exactly when the live row matched the verb's WHERE arm; no other row is touched |
| `TraceTable.TraceRepository.SoftDeleteFailed` | src/infrastructure/persistence/mailing_send_repository.rs:779-810 | for any batch of at least one the loop ends, frees exactly the live error traces of the mailing and returns how many there were |
| `TraceTable.TraceRepository.ReconcileSettled` | src/application/service/mailing_write_service.rs:885-907 | moves every settled trace it reads, so the backlog shrinks by min(5000, size), and counts as sent exactly those whose mail went out, the others as failed |
| `TraceTable.ReconcileDrains` | src/infrastructure/persistence/trace_repository.rs:576-591 | with no new verdicts k passes take exactly min(5000 k, size) out of the settled backlog |
| `TraceTable.ReconcileDrainsInCeil` | src/application/service/mailing_write_service.rs:885-907 | the backlog is empty after k passes exactly when k reaches ceil(size / 5000) |
| `TraceTable.OnePassTells` | src/application/service/mailing_write_service.rs:885-907 | one pass, to the field: a row stays as it was or its settled mail's verdict is written, with stamp, code and reason |
| `TraceTable.ReconcileCarriesVerdicts` | src/application/service/mailing_write_service.rs:885-907 | once drained every trace that had a settled mail carries that mail's verdict; the others are untouched |
| `SendWalk.Walk` | src/application/service/mailing_write_service.rs:1158-1198 | the loop's work lists and counters are the per-position decisions, and the counters plus the send list add up to the resolved list |
| `SendWalk.SendListIsExact` | src/application/service/mailing_write_service.rs:1158-1198 | the send list holds exactly the positions that are first of their address and neither seen, listed, opted out nor sampled out |
| `SendWalk.FatesHaveReasons` | src/application/service/mailing_write_service.rs:1158-1198 | each of the six fates of a position, exactly when: seen, the three causes in their order of precedence, sampled out, or sent to |
| `SendWalk.CancelListIsExact` | src/application/service/mailing_write_service.rs:1158-1198 | the cancel work holds exactly the withheld positions, each with the first of duplicate, blacklisted, opted out that applies |
| `SendWalk.FatesPartition` | src/application/service/mailing_write_service.rs:1158-1198 | conservation: seen, duplicate, blacklisted, opted out, non-member and to-send partition the list |
| `SendWalk.FragmentsAreNested` | src/application/service/mailing_write_service.rs:1721-1733 | fragments of one seed are nested by percentage: 0 admits nobody, 100 everybody |
| `SendWalk.NegativeFragmentIsEverybody` | src/application/service/mailing_write_service.rs:1721-1733 | the fragment is exactly the buckets below the percentage; a negative one, which the table's own check excludes, would wrap in the cast and admit everybody |
| `SendWalk.Resume` | src/application/service/mailing_write_service.rs:1086-1116 | after any prefix of the plan was traced, walking again plans exactly the rest |
| `SendWalk.SendCancelDisjoint` | src/application/service/mailing_write_service.rs:1158-1198 | nobody is both sent to and suppressed, and nobody with a standing trace is sent to |
| `MailDrive.HandledIsTheDisposition` | src/infrastructure/persistence/mailing_send_repository.rs:737-757 | the two flags of the probe together say who has a standing trace in scope |
| `MailDrive.MailSender.MintCancels` | src/application/service/mailing_write_service.rs:1200-1229 | adds one canceled trace per piece of cancel work, in order; the fence never stops one |
| `MailDrive.MailSender.MintBatch` | src/application/service/mailing_write_service.rs:1236-1272 | mints exactly the batch's unfenced recipients; mints and fence skips add up to the batch |
| `MailDrive.MailSender.EnqueueBatch` | src/application/service/mailing_write_service.rs:1274-1297 | each minted trace is linked to its mail or put in error; one refusal never stops the batch; the count is that of the mails taken |
| `MailDrive.MailSender.SendBatches` | src/application/service/mailing_write_service.rs:1231-1302 | the chunked mint, commit and enqueue loop equals one mint of the whole list: the commit grain is invisible |
| `MailDrive.MailSender.DrivePass` | src/application/service/mailing_write_service.rs:1086-1302 | one pass is the specified table change; each walk counter is the number of positions of its fate, minted and enqueued are the sends and the links among the traces added, and with fence skips and remainder they add up to the list |
| `MailDrive.PassWrites` | src/application/service/mailing_write_service.rs:1200-1297 | trace by trace, to the field: the suppressions a pass writes, with recipient, cause and code, and the sends, linked to the mail the seam queued or in error with its reason |
| `MailDrive.MailSender.RepairOrphans` | src/application/service/mailing_write_service.rs:981-1005 | each old unlinked outgoing mail trace of the mailing gets its link if the seam answers; a refusal leaves the trace as it was; no other trace is touched, in whatever order the orphans come, and the count is that of the answers |
| `MailDrive.RepairLinksExactly` | src/infrastructure/persistence/trace_repository.rs:549-570 | to the field: live outgoing unlinked mail traces of the mailing, at least five minutes old, gain the link the seam answers, and no other |
| `MailDrive.RepairOnlyLinks` | src/infrastructure/persistence/trace_repository.rs:549-570 | repair adds no trace and changes nothing but a missing mail link of the mailing's own traces |
| `MailDrive.RepairIsCalm` | src/application/service/mailing_write_service.rs:981-1005 | so a repair between two passes of any drive leaves who is handled, the fence and hence the capped plan as they were |
| `MailDrive.ChunksCompose` | src/application/service/mailing_write_service.rs:1231-1302 | enqueueing a list in two chunks gives the table of enqueueing it in one |
| `MailDrive.WorkIsMinted` | src/application/service/mailing_write_service.rs:1236-1272 | distinct recipients without standing traces are all minted: no fence skip in a single worker |
| `MailDrive.PassDeals` | src/application/service/mailing_write_service.rs:1086-1302 | after a pass exactly the suppressed and the worked recipients are newly dealt with |
| `MailDrive.CappedPassesSliceTheUncapped` | src/application/service/mailing_write_service.rs:1086-1332 | whatever calm activity and enqueue answers come between, capped pass k plans the k-th slice of the uncapped send list, and only the first pass suppresses, exactly as the uncapped pass would |
| `MailDrive.CompletedRunMintsTheUncapped` | src/application/service/mailing_write_service.rs:1086-1332 | the traces a completed capped run has minted, over all its passes, carry exactly the (recipient, sent or withheld, cause) facts of one unlimited pass, and as many of them, whatever calm activity and enqueue answers come between |
| `MailDrive.CompletesInCeilPasses` | src/application/service/mailing_write_service.rs:1231-1332 | with a budget of at least one the first completing pass is number max(1, ceil(n / budget)) |
| `MailDrive.ZeroBudgetNeverCompletes` | src/application/service/mailing_write_service.rs:1231-1234 | a budget of zero completes exactly when there is nobody to send to |
| `Campaign.DriveKeepsDisjointIff` | src/application/service/mailing_write_service.rs:1086-1097 | a drive keeps the campaign disjoint exactly when nobody on its work list, read off the table before the drive, holds a live trace of the campaign |
| `Campaign.TestDriveKeepsDisjoint` | src/application/service/mailing_write_service.rs:1086-1097 | a mailing that cites an A/B test meets that condition by its campaign-wide memory |
| `Campaign.PlainMailingCanRepeat` | src/application/service/mailing_write_service.rs:1094 | a plain mailing of the same campaign can reach a recipient a second time: a concrete table and drive |
| `Campaign.CampaignStaysDisjoint` | src/application/service/mailing_write_service.rs:1086-1198 | over any run of drives of test mailings, bound before or in the middle of it, verbs and retries no recipient holds two live non-cancel traces of the campaign |
| `Campaign.CampaignPartition` | tests/ab_seed_cases.rs:93-125 | for a mailing bound to the campaign before its first trace, when a drive that samples nobody out completes, each resolved recipient has exactly one live non-cancel trace in the campaign or a live cancel trace on that mailing |
| `Campaign.CampaignPartitionIff` | src/infrastructure/persistence/mailing_send_repository.rs:1176-1200 | in general that holds of a recipient exactly when the drive did not find it stranded: all it had was a live trace the mailing minted before it was bound |
| `Campaign.LateBindingStrands` | src/infrastructure/persistence/mailing_send_repository.rs:1176-1200 | a concrete table and drive, bound after a first trace, that leaves its recipient out of the campaign's books |
| `Campaign.CompletedDriveDealsWithAll` | src/application/service/mailing_write_service.rs:1304-1332 | a completed unsampled drive leaves no resolved recipient without a trace in scope |
| `Campaign.SecondVariantTakesTheRest` | src/application/service/mailing_write_service.rs:1086-1332 | for any samplers, once A has completed over however many capped passes, B sends exactly to those it would have sent to at the start and A did not |
| `Campaign.SecondVariantSendsTheBand` | tests/ab_seed_cases.rs:93-111 | once variant A at p percent has completed, over however many capped passes, variant B at q percent sends exactly to the deserving recipients with bucket in [p, q) |
| `Campaign.SmallerVariantSendsNobody` | src/application/service/mailing_write_service.rs:1721-1733 | so after any completed capped run a second variant of the same or a smaller percentage sends to nobody |
| `Subscriptions.SubscriptionRepository.FindLive` | src/infrastructure/persistence/subscription_repository.rs:123-139 | finds the live row of the pair exactly when there is one |
| `Subscriptions.SubscriptionRepository.Subscribe` | src/infrastructure/persistence/subscription_repository.rs:48-68 | converges on the live row and clears its opt-out, or adds exactly one row |
| `Subscriptions.SubscriptionRepository.OptOut` | src/infrastructure/persistence/subscription_repository.rs:75-97 | flips, stamps and records the reason only on a live row still in; a repeat changes nothing |
| `Subscriptions.SubscriptionRepository.Remove` | src/infrastructure/persistence/subscription_repository.rs:192-209 | soft-deletes exactly the live row of the pair |
| `Subscriptions.SubscriptionRepository.UnsubscribeByEmail` | src/application/service/subscription_write_service.rs:165-217 | field by field: every live row of a live contact with the address on the audience opts out with stamp and reason, first moments kept, and the address is then on the send-time suppression probe; refused exactly when none is on it, and then nothing changed |
| `Subscriptions.ContactIdsAreExact` | src/infrastructure/persistence/subscription_repository.rs:312-325 | the contacts found are exactly the live ones whose lowercased address matches |
| `ExclusionRuns.OptOutWins` | src/infrastructure/persistence/mailing_send_repository.rs:707-723 | while some live opted-out row of a live contact with the address remains, no drive of any mailing on any target mints a non-cancel trace for it, over any run |
| `ExclusionRuns.ProbeIsExact` | src/infrastructure/persistence/mailing_send_repository.rs:707-723 | the batched probe names exactly those of the list's addresses that some live opted-out row of a live contact speaks for |
| `ExclusionRuns.UnsubscribedIsSpared` | src/application/service/subscription_write_service.rs:165-217 | end to end: after an unsubscribe that found a row, no drive of any mailing on any target mints a non-cancel trace for the address, over any run in which nobody re-subscribes or removes the address; new contacts, new subscriptions and other addresses are free |
| `RepairedOptOut.OptedOutIsHandedIff` | src/application/service/mailing_write_service.rs:987-1005 | a drive after the opt-out hands the address to the mail seam exactly when it gets past its channel guard and an orphan of the mailing with that address is old enough |
| `RepairedOptOut.BarredIsHandedIff` | src/infrastructure/persistence/trace_repository.rs:549-570 | the same for any address the walk withholds, blacklisted ones included |
| `RepairedOptOut.OnlyHandedAnswersMatter` | src/application/service/mailing_write_service.rs:987-1297 | the seam is asked about exactly those traces: a drive's outcome depends on no other answer |
| `ExclusionRuns.FlipsKeepOptOuts` | src/infrastructure/persistence/subscription_repository.rs:75-97 | further flips neither end an opt-out nor move its first moment |
| `ExclusionRuns.SubscribeClearsOnlyItsRow` | src/infrastructure/persistence/subscription_repository.rs:48-68 | after a re-subscription the address stays suppressed exactly when another live opted-out row remains |
| `ExclusionRuns.OnlyFirstsEver` | src/application/service/mailing_write_service.rs:1158-1198 | for a fixed list order only the first recipient of an address ever gets a non-cancel trace of the mailing, over any run of passes, retries and list changes |
| `ExclusionRuns.OneRecipientPerAddress` | src/application/service/mailing_write_service.rs:1176-1180 | hence two non-cancel traces of one mailing with one address are of one recipient |
| `Domain.ParseDomain` | src/application/service/mailing_write_service.rs:1573-1659 | the refusing loops compute the item-by-item meaning of the domain language |
| `Domain.ReadTerm` | src/application/service/mailing_write_service.rs:1576-1658 | one term in either spelling, with the refusals in the source's order |
| `Domain.ReadsItemByItem` | src/application/service/mailing_write_service.rs:1573-1659 | a list parses exactly when every item does; otherwise the verdict is the first refused item's |
| `Domain.RoundTripIff` | src/application/service/mailing_write_service.rs:1664-1690 | the printed form of a domain reads back as that domain exactly when every term is well-formed |
| `DomainMeaning.StoredAsObjects` | src/application/service/mailing_write_service.rs:1662-1692 | the stored form is an array of objects with exactly the keys field, op and value, a list operator's value always an array |
| `Domain.ParseCanonicalParse` | src/application/service/mailing_write_service.rs:1573-1690 | for every raw value that parses: parse, print, parse gives the same domain, and printing is a fixpoint |
| `Domain.SpellingsAgree` | src/application/service/mailing_write_service.rs:1573-1610 | triple and object spellings of the same terms get the same verdict and the same canonical form |
| `Domain.StoredDomainsReparse` | src/application/service/mailing_write_service.rs:210-251 | every domain create stores re-parses at claim time to what was stored; an empty one adopts exactly `email != ''` on selling_customer and nothing elsewhere |
| `DomainMeaning.AdoptedDefaultMeans` | src/application/service/mailing_write_service.rs:210-251 | the adopted default selects exactly the live contacts that have an address |
| `DomainMeaning.EqualityMeans` | src/application/service/mailing_write_service.rs:1573-1659 | `=` and `!=`, in either spelling, on each of the six columns by name: exactly the live contacts whose folded text is, or is not, the folded value |
| `DomainMeaning.MembershipMeans` | src/infrastructure/persistence/mailing_send_repository.rs:636-656 | `in` and `not in` on each column: exactly the live contacts whose folded text is, or is not, among the folded values |
| `DomainMeaning.LikeMeans` | src/infrastructure/persistence/mailing_send_repository.rs:657-679 | `like` and `not like` on each column, for a value without wildcards: exactly the live contacts in whose folded text the folded value occurs, or does not |
| `DomainMeaning.AudienceMeans` | src/infrastructure/persistence/mailing_send_repository.rs:602-635 | `=` and `in` on the audience: a live subscription still in; `!=` and `not in`: none, opted out or not; an empty list asks nothing |
| `DomainMeaning.ColumnTermsConjoin` | src/infrastructure/persistence/mailing_send_repository.rs:636-679 | each further column term narrows the selection to the contacts it holds of |
| `DomainMeaning.SaidIsRefusedBecause` | src/application/service/mailing_write_service.rs:1611-1656 | field, operator, value shape, uuids: the refusal of a term is the first of these that fails, in terms of the names and shapes in the JSON |
| `DomainMeaning.RefusedBecause` | src/application/service/mailing_write_service.rs:1576-1610 | malformed and field-not-string, exactly when the JSON has that shape |
| `Resolver.CompileDomain` | src/infrastructure/persistence/mailing_send_repository.rs:587-679 | for every table and contact the generated predicates over the bound arguments select exactly what the domain means; placeholder i names argument i |
| `Resolver.EncodeDomain` | src/infrastructure/persistence/mailing_send_repository.rs:602-679 | seams first, then one predicate per column term: predicate and argument k encode the k-th clause under placeholder k |
| `Resolver.EncodingMeans` | src/infrastructure/persistence/mailing_send_repository.rs:602-679 | any query whose predicates encode the clauses of a well-formed domain selects what the domain means |
| `Resolver.ClausesMean` | src/infrastructure/persistence/mailing_send_repository.rs:602-679 | membership seams plus column predicates together are the direct meaning, with an empty audience list asking nothing |
| `Resolver.AudienceTermAsksNothingIff` | src/infrastructure/persistence/mailing_send_repository.rs:602-635 | an audience term of a parsed domain leaves the selection as it is without the term, in every domain, exactly when its operator is `like` or `not like` or it lists no audience |
| `Resolver.LikeAudienceMeansEverybody` | src/application/service/mailing_write_service.rs:1573-1659 | the witness: an audience `like` a uuid parses, and selects every live contact |
| `Resolver.RunQuery` | src/infrastructure/persistence/mailing_send_repository.rs:680-684 | the first cap rows of the answer: every live contact the domain means, each once, in email order under any collation |
| `Resolver.ResolveContacts` | src/application/service/mailing_write_service.rs:1010-1070 | refuses exactly when at least the cap are meant; otherwise nothing was truncated and the result is every contact the domain means, each once, in email order |
| `Resolver.SelectedIsExact` | src/infrastructure/persistence/mailing_send_repository.rs:587-684 | the resolved list is the answer: over all contacts, exactly those the domain means, each once, in email order |
| `Resolver.AnswersAgree` | src/infrastructure/persistence/mailing_send_repository.rs:680-684 | any two answers to one domain have the same rows and the same length, so how many contacts are meant does not depend on the order among equal emails |
| `Resolver.PlainLikeMeansContains` | src/infrastructure/persistence/mailing_send_repository.rs:657-660 | for a value without wildcards a `like` term asks for a case-insensitive occurrence |
| `LikePattern.LikeMeansContainsIff` | src/infrastructure/persistence/mailing_send_repository.rs:657-660 | the pattern means `contains` for every text exactly when the value has no %, _ or backslash |
| `LikePattern.WildcardsMean` | src/infrastructure/persistence/mailing_send_repository.rs:657-679 | % matches any text, _ any one character, and a backslash shields the character after it |
| `Resolver.CollectIds` | src/application/service/trace_route_service.rs:280-290 | appends each new id once; refuses at the first value that is no uuid |
| `Resolver.AudienceTargets` | src/application/service/trace_route_service.rs:268-293 | distinct ids of exactly the targeted audiences, the same ones the membership seam binds |
| `TraceRoute.TraceWriteService.Perform` | src/application/service/trace_write_service.rs:77-258 | missing, moved and skipped told apart; a code outside the sms vocabulary refused before any write |
| `TraceRoute.TraceRouteService.CheckConsistency` | src/application/service/trace_route_service.rs:205-228 | passes exactly for a live trace whose campaign is the code's |
| `TraceRoute.TraceRouteService.RecordClick` | src/application/service/trace_route_service.rs:127-148 | an inconsistent pair stamps nothing; a consistent one opens then stamps the click |
| `TraceRoute.TraceRouteService.RecordOpen` | src/application/service/trace_route_service.rs:153-158 | the pixel opens a consistent trace and nothing else |
| `TraceRoute.TraceRouteService.Unsubscribe` | src/application/service/trace_route_service.rs:163-201 | served exactly for a consistent live trace whose mailing's stored domain still parses; one truthful answer per targeted audience, and exactly the rows of the address on those audiences flipped, field by field; a refusal has its reason and changes nothing |
| `TraceRoute.UnsubscribedIsSelectedIff` | src/application/service/trace_route_service.rs:163-201 | a contact the domain selected is selected again after the unsubscribe exactly when the domain targets no audience |
| `MailingLifecycle.MailingStateMachine.Transition` | src/domain/state_machine/mailing_state_state_machine.rs:222-232 | a declared edge moves to its target; any other is refused and moves nothing |
| `MailingLifecycle.MailingStateMachine.TransitionToState` | src/domain/state_machine/mailing_state_state_machine.rs:276-286 | reaches the target exactly when some declared edge leads there, and otherwise stays |
| `MailingLifecycle.TriggerIsTheMachine` | migrations/20260906100006_state_transition_check_mailings_f3c80869.up.sql:4-8 | the pairs the database trigger admits are exactly the machine's |
| `MailingLifecycle.WritesFollowTheMachine` | src/infrastructure/persistence/mailing_send_repository.rs:183-372 | every statement is a stutter or takes a declared edge, so the trigger never raises on one |
| `MailingLifecycle.GuardsAreEdgesIff` | src/infrastructure/persistence/mailing_send_repository.rs:183-372 | each statement fires only on its edge, except complete_empty from sending; conversely every open edge is matched, unpark only with the marker |
| `MailingLifecycle.CompletionHistory` | src/infrastructure/persistence/mailing_send_repository.rs:241-253 | over any run: sent_date is the time of the last completion, and the flag is raised exactly when the first completion ever was a walk's |
| `MailingLifecycle.DoneIsStamped` | src/infrastructure/persistence/mailing_send_repository.rs:241-356 | done always carries sent_date, the stamp is never cleared and kpi_mail_required never falls |
| `MailingLifecycle.StampStandsIff` | src/infrastructure/persistence/mailing_send_repository.rs:238-253 | the next completion writes its own time, and overwrites a stamp that was standing exactly when an earlier completion of the history matched: it is not written once |
| `MailingLifecycle.RetryRestamps` | src/infrastructure/persistence/mailing_send_repository.rs:241-372 | complete, retry, complete: sent_date moves to the second completion |
| `MailingLifecycle.MarkerIsIdempotent` | src/infrastructure/persistence/mailing_send_repository.rs:270-288 | the sms walk marker is stamped once and moves nothing else |
| `MailingLifecycle.MarksAreExact` | src/infrastructure/persistence/mailing_send_repository.rs:201-288 | park and walk marker to the field: which rows they land on, what they write, and that they touch nothing else |
| `MailingLifecycle.WalkMarkerIsForever` | src/infrastructure/persistence/mailing_send_repository.rs:270-288 | no run clears the walk marker, cancel and relaunch included |
| `MailingLifecycle.ParkHoldsUntilUnparked` | src/infrastructure/persistence/mailing_send_repository.rs:201-236 | only an unpark clears the park; until then the mailing is never claimable |
| `MailingLifecycle.ParkIsRecoverableIff` | src/infrastructure/persistence/mailing_send_repository.rs:201-236 | a live parked mailing can ever be claimed again exactly while it is still sending |
| `MailingLifecycle.CancelTrapsAParked` | src/infrastructure/persistence/mailing_send_repository.rs:563-576 | park, cancel, relaunch: all succeed, and no disciplined run ever claims the mailing again |
| `MailingLifecycle.MailingRepository.Execute` | src/infrastructure/persistence/mailing_send_repository.rs:183-372 | true exactly when the live row matched; no other row is touched |
| `MailingLifecycle.MailingRepository.LaunchMailing` | src/application/service/mailing_write_service.rs:679-750 | launches exactly a live draft with a valid schedule and, for sms, a usable body; every refusal changes nothing |
| `MailingLifecycle.MailingRepository.CancelMailing` | src/application/service/mailing_write_service.rs:754-767 | succeeds exactly on a live mailing that is not a draft; the schedule is cleared, nothing else |
| `MailingLifecycle.MailingRepository.RequeueAfterDomainFix` | src/application/service/mailing_write_service.rs:772-785 | succeeds exactly on a live, sending, parked mailing and clears the park |
| `RetryVerb.RetryFailed` | src/application/service/mailing_write_service.rs:791-811 | refused with nothing changed unless the mailing is done and has live error traces; otherwise soft-deletes exactly those, re-queues, and returns their number |
| `RetryVerb.RetryOpensExactly` | src/infrastructure/persistence/mailing_send_repository.rs:779-810 | the fence opens for exactly the recipients whose standing trace was a live error of the mailing |
| `RetryVerb.RetryIsExhaustive` | src/infrastructure/persistence/mailing_send_repository.rs:814-827 | nothing failed is left: an immediate second retry refuses |
| `RetryVerb.RetriedDriveSendsIff` | src/application/service/mailing_write_service.rs:791-811 | the next drive plans for a listed recipient exactly when every trace that dealt with it was a freed error and the walk's own rules allow it |
| `RetryVerb.BouncesAreNotRetried` | src/infrastructure/persistence/mailing_send_repository.rs:776-777 | a recipient that bounced is never planned again |
| `RetriedSms.SmsRetrySendsNobody` | src/application/service/mailing_write_service.rs:791-811 | retry, then one whole sweep with its drives, reconcile, promotions, pump and inference, on a walked-out sms mailing: the failed traces are freed and stay so, the mailing is claimed and closed again, and no trace of it is minted on the way |
| `Sweep.ClaimIsExact` | src/infrastructure/persistence/mailing_send_repository.rs:137-164 | over the row's fields: claims only live, unparked mailings, queued or sending, with no schedule or one that has come, once each, within the batch; one of these is left out only when the batch is full, and no resume is taken while fresh work waits |
| `Sweep.ClaimGoesByAge` | src/infrastructure/persistence/mailing_send_repository.rs:137-164 | within each class a claim goes oldest first, and takes no mailing while an older due one of its class is left out |
| `Sweep.SendSweep.ClaimAndVet` | src/application/service/mailing_write_service.rs:828-853 | inside the claim each mailing that parses goes to sending and nothing else of it changes; each that does not is parked with the refusal; no other row is touched |
| `Sweep.SendSweep.DriveMailing` | src/application/service/mailing_write_service.rs:940-1332 | the drive's branches in order, repair arm included; the row ends done with stamp and flag, done empty, unchanged or parked as the answer says; an error leaves the mailing as it was and of the traces changes only what the repair of its own did |
| `Sweep.SendSweep.DriveRepaired` | src/application/service/mailing_write_service.rs:1007-1332 | the drive from the resolver on: what each answer makes of the mailing row, field by field; each error names its reason and comes exactly where the specification fails, with nothing written since the repair |
| `Sweep.SendSweep.DriveOrPark` | src/application/service/mailing_write_service.rs:863-882 | whatever the drive or its scope could not do is parked in sending with the first reason that applies |
| `Sweep.DriveEndsIff` | src/application/service/mailing_write_service.rs:940-1332 | exactly when a drive ends done, still sending, done empty, left alone, or parked and why, in terms of the plan, the row, and whether everybody left to send to fits the pass |
| `Sweep.DriveTellsTheRow` | src/infrastructure/persistence/mailing_send_repository.rs:241-356 | what each end makes of the mailing row: state, sent_date, first-completion flag, send_error; no other row moves |
| `Sweep.DriveWritesItsPlan` | src/application/service/mailing_write_service.rs:1086-1332 | the traces change by one pass of this mailing under its campaign, memory, list, policy, sampler and budget when it walks, and otherwise only by the repair |
| `Sweep.SendSweep.DriveClaims` | src/application/service/mailing_write_service.rs:859-883 | the loop is the fold of the drives, and its counters count each bucket |
| `Sweep.SendSweep.SendQueueSweep` | src/application/service/mailing_write_service.rs:824-883 | every claim lands in exactly one place: claimed equals parked, completed, completed empty, still sending and walked-out sms together; each counter is the number of claimed rows that show that end, and drive_failures those no drive could be completed for |
| `Sweep.FailureIsIsolated` | src/application/service/mailing_write_service.rs:856-883 | a mailing whose drive does not reach the walk, put anywhere in the order, changes no other mailing, no trace but the missing mail links of its own, and no counter of the mailings after it |
| `Sweep.DrivesAddTheirOwnTraces` | src/application/service/mailing_write_service.rs:940-1332 | the traces a sweep adds belong to the mailings it drove; every old trace stands, and only an unlinked one of a driven mailing may have gained its mail link |
| `Sweep.ParkedMintsNothing` | src/infrastructure/persistence/mailing_send_repository.rs:137-164 | over any run of sweeps and verbs a parked mailing keeps its error, gains no trace and has none touched by a sweep until it is unparked |
| `Stats.CountsHangTogether` | src/infrastructure/persistence/trace_repository.rs:691-725 | replied <= opened <= delivered; total splits into delivered, bounced, errored and in flight; total and canceled make the live traces; sent <= total |
| `Stats.ReachableCounts` | src/infrastructure/persistence/trace_repository.rs:691-725 | the same on every table reachable by engine mints, verbs and retries |
| `Stats.ColumnsTellTheRun` | src/infrastructure/persistence/trace_repository.rs:691-725 | each column by the verbs: over any run of a minted trace the status columns follow the last move, sent and clicked whether any send or click matched |
| `Stats.ErroredIsRetried` | src/infrastructure/persistence/trace_repository.rs:691-725 | errored is exactly what a retry frees, and zero after one that frees them all |
| `Stats.SentNeverFalls` | src/infrastructure/persistence/trace_repository.rs:691-725 | no verb, mint or other mailing's retry lowers `sent` |
| `Stats.RatioIsNearest` | src/infrastructure/persistence/trace_repository.rs:76-78 | the percentage is the nearest integer, and at most 100 exactly below half a percent of overshoot |
| `Stats.TouchesWaitIff` | src/infrastructure/persistence/trace_repository.rs:330-462 | over any run, every opened or replied (or every clicked) trace carries its send stamp at every step if and only if each open or reply (or click) whose guard matched found the send stamp there |
| `Stats.OrderedOpensStayWithinSent` | src/infrastructure/persistence/trace_repository.rs:330-356 | where every open or reply follows its send, replied <= opened <= sent over any run, and both ratios stay within 100 |
| `Stats.OrderedClicksStayWithinSent` | src/infrastructure/persistence/trace_repository.rs:69-72 | where every click follows its send, clicked <= sent over any run, and its ratio stays within 100 |
| `Stats.EarlyTouchesOvershoot` | src/infrastructure/persistence/trace_repository.rs:61-78 | two sends, one verdict, two opens, or two clicks: a ratio of 200 |
| `Stats.ComparedRatioIsAPercentage` | src/infrastructure/persistence/mailing_send_repository.rs:1034-1066 | channel comparison counts hits among the sent, so its ratio is a percentage on every table and axis |
| `Stats.ComparedTells` | src/infrastructure/persistence/mailing_send_repository.rs:990-1066 | a comparison row counts, on its channel's own axis by name, the sent traces that were clicked, replied to, or else opened; sms falls back to the mail axis |
| `SmsPump.VerdictsStayInTheVocabulary` | src/application/service/sms_delivery_pump_service.rs:99-136 | whatever the tracker carries the code written is a declared sms code, never mail_bounce; a bounce-class exception keeps its own |
| `SmsPump.VocabularyIsTheEnum` | migrations/20260830100000_mailing_sms_channel_overlay.up.sql:29-42 | the vocabulary, with the suppression code, is the database enum's sms members, so a code it admits never aborts a write |
| `SmsPump.SmsRunsLeaveNoMailMark` | src/infrastructure/persistence/trace_repository.rs:358-447 | over any run of sms verbs a trace never records a mail bounce, the fact the mail auto-blacklist counts, and never an open |
| `SmsPump.LookTakesTheFurther` | src/application/service/sms_delivery_pump_service.rs:99-136 | a tracker on its way moves the trace to the further of the two ranks and changes nothing else |
| `SmsPump.CadenceIndependence` | src/application/service/sms_delivery_pump_service.rs:209-247 | after any looks on the way a sent, bounce or exception verdict leaves the trace where the verdict alone would |
| `SmsPump.SlowPumpAgrees` | src/application/service/sms_delivery_pump_service.rs:151-168 | a pump that saw only some of the looks ends exactly where one that saw all does |
| `SmsPump.FirstVerdictStands` | src/application/service/sms_delivery_pump_service.rs:209-247 | once settled, later looks change nothing |
| `SmsPump.CancelLandsIff` | src/infrastructure/persistence/trace_repository.rs:429-447 | a canceled verdict lands exactly when no earlier look saw the message dispatched; otherwise the trace stays transient |
| `SmsPump.FirstCancelDecides` | src/application/service/sms_delivery_pump_service.rs:151-168 | while the tracker stays canceled no later look changes what the first canceled look left, so a missed cancel is missed for ever |
| `SmsPump.ApplyVerdict` | src/application/service/sms_delivery_pump_service.rs:209-247 | one verdict, field by field: the status each tracker state leads to, the tracker's own code verbatim where the vocabulary has it and else the channel's default, reason and stamp; true exactly when the row changed |
| `SmsPump.PumpTraces` | src/application/service/sms_delivery_pump_service.rs:154-168 | one pass is the batch over the scanned traces; advanced counts exactly the rows changed, and with skipped it adds up to the scan |
| `SmsPump.PassTells` | src/application/service/sms_delivery_pump_service.rs:154-168 | within the batch limit every live sms trace on its way with a known tracker gets its verdict, field by field, and no other trace changes |
| `SmsPump.SecondPassIsIdle` | src/application/service/sms_delivery_pump_service.rs:148-204 | within the batch limit a second pass over unchanged trackers changes nothing |
| `SmsPump.BacklogDrainsIff` | src/application/service/sms_delivery_pump_service.rs:48-50 | a waiting verdict is reached by the passes exactly when fewer than a batch of stuck rows come before it: larger backlogs do not always drain |
| `PumpRace.InferDone` | src/application/service/sms_delivery_pump_service.rs:170-201 | alone, a pass completes exactly the scanned walked-out mailings with no transient trace, each counted once |
| `PumpRace.InferenceTells` | src/application/service/sms_delivery_pump_service.rs:170-201 | to the field: within the batch, exactly the live unparked sms mailings in sending, walked out, with no message on its way are completed, stamped and flagged; no other row changes |
| `PumpRace.SecondInferenceIsIdle` | src/application/service/sms_delivery_pump_service.rs:148-204 | within the candidate batch a second pass over the same traces has nothing to complete |
| `PumpRace.InferenceIsSafe` | src/application/service/sms_delivery_pump_service.rs:170-201 | under any interleaving of pumps, verdicts, verbs, retries and crashes in which nothing transient is minted while a pump is closing, each inferred completion is of a sending, walked-out, unparked mailing without a transient trace at that step |
| `PumpRace.EdgesAreCountedOnce` | src/application/service/sms_delivery_pump_service.rs:181-201 | every inferred completion is counted by one pump, pending with it, or lost with its crash |
| `PumpRace.OneEdgePerOpening` | src/infrastructure/persistence/mailing_send_repository.rs:323-341 | however many pumps race, and whatever writes, verdicts, mints and crashes come between, the completions inferred are at most the openings: the one the run starts in and each event that takes the mailing back to sending |
| `PumpRace.PumpCloses` | src/application/service/sms_delivery_pump_service.rs:176-201 | a pump that finds the lock free on a mailing that may be closed takes it to done, stamped and flagged, and releases the lock |
| `PumpRace.CrashFreesTheLock` | src/application/service/sms_delivery_pump_service.rs:141-143 | a pump that dies before its commit loses its write and its lock, and nothing else changes |
| `PumpRace.LateMintIsClosedOver` | src/infrastructure/persistence/mailing_send_repository.rs:264-269 | from every state with a pump closing, minting a transient trace has a legal continuation that closes the mailing over it |
| `PumpRace.LateMintIff` | src/infrastructure/persistence/mailing_send_repository.rs:264-269 | minting a transient trace is harmless to every legal continuation exactly when no pump is closing |
| `PumpRace.MarkerDisciplineSuffices` | src/infrastructure/persistence/mailing_send_repository.rs:258-288 | a walk that mints nothing once its marker is stamped meets that discipline |
| `PumpRace.DisciplinedRunsAreSafe` | src/application/service/sms_delivery_pump_service.rs:170-201 | from idle pumps, over any run in which the walk mints nothing transient once its marker is stamped, every inferred completion is safe |
| `SmsSuppression.SmsSuppressionService.SuppressAtClaim` | src/application/service/sms_suppression_service.rs:126-184 | both halves keep the input order and split it by number, nobody is lost, and each barred recipient gets one canceled sms trace with the code sms_blacklist |
| `SmsSuppression.SuppressionClosesNoDoor` | src/application/service/sms_suppression_service.rs:126-184 | suppressions take no fence slot and leave the pump nothing to wait for |
| `AbRanking.AskSources` | src/application/service/mailing_write_service.rs:1496-1509 | the memo loop asks each distinct source at most once and fails exactly when a cited source is refused |
| `AbRanking.RankByInvoicedAmount` | src/application/service/mailing_write_service.rs:1477-1533 | refused, waiting and winner told apart exactly; the winner attributes the greatest amount, least id among ties |
| `AbRanking.WinnerIsOrderFree` | src/application/service/mailing_write_service.rs:1511-1533 | the winner does not depend on the order the variants are read in |
| `AbRanking.TieGoesToTheLeastId` | src/application/service/mailing_write_service.rs:1521-1526 | a tie does not wait: the least id wins |
| `AbPromotion.AbTestService.PromoteOne` | src/application/service/mailing_write_service.rs:1423-1469 | a live winner gets exactly one copy, at the end: live, in queue, unsampled, at 100 percent, of this test, in the winner's campaign; the guarded stamp goes with it; a seam refusal promotes nothing |
| `AbPromotion.EveryCopyIsQueued` | src/application/service/mailing_write_service.rs:1454-1468 | over any run of sweep turns and selections every row added is such a queued copy of an earlier row |
| `AbPromotion.OnlyTheRightTestsComplete` | src/application/service/mailing_write_service.rs:1391-1469 | a turn completes only a live open automatic test that is due, with the winner it named; a selection an open live test with one of its live rows |
| `AbPromotion.SmsWinnerIsCopiedAsMail` | src/infrastructure/persistence/mailing_send_repository.rs:1068-1097 | the copy takes the table's default channel: promoting an sms variant queues a mail mailing |
| `AbPromotion.AbTestService.PromoteDue` | src/application/service/mailing_write_service.rs:1391-1420 | alone, completes exactly the tests read as due that are automatic, whose first live variant's scope opened and whose ranking named a live row, one queued copy each; both counters are exact, and every other test waits |
| `AbPromotion.AbTestService.SelectWinner` | src/application/service/ab_test_write_service.rs:327-367 | accepts exactly a live open test and one of its live variants, and then adds the queued copy; each refusal has its reason and changes nothing |
| `AbPromotion.WinnerNeverChanges` | src/infrastructure/persistence/mailing_send_repository.rs:1100-1115 | once completed a test keeps its winner over any later promotions |
| `AbPromotion.RunsStayLedgered` | src/application/service/mailing_write_service.rs:1391-1469 | over any run of sweep turns and manual selections, one after another, every test has at most one winner copy, exactly when completed, of its winner, and no winner changes |
| `AbPromotion.OneCopyIff` | src/application/service/mailing_write_service.rs:1454-1468 | a test ends with at most one winner copy exactly when every promotion that ran found it open |
| `AbPromotion.RacingPromotionsCopyTwice` | src/application/service/mailing_write_service.rs:1454-1468 | two workers on one due test: two copies, the first one's winner stamped |

## Left out

- MailDrive.CappedPassesSliceTheUncapped: assumes the resolved list has distinct recipient ids, as a resolver over contacts gives, and one worker; between passes traces of this mailing may take any verb, but none is freed, canceled or minted in its campaign scope.
- Campaign.CampaignPartitionIff: drives run one after another; two workers driving sibling variants at once are outside it, and the fence alone is per mailing, not per campaign.
- Sweep.SendSweep.SendQueueSweep: covers the channel guard, the repair arm and steps (1) to (6) with one worker and no database error; SKIP LOCKED claiming by several workers is not modelled, and the age of a mailing is its row position.
- Resolver.RunQuery: the table scan and sort inside the database are not modelled; any order by email of all contacts, ties included, is admitted as the scan's.
- Resolver.PlainLikeMeansContains: folding is one character at a time, and must neither make nor unmake a wildcard; Unicode expansions are not modelled.
- MailDrive.MailSender.RepairOrphans: which traces gain their link is modelled; that a mail is enqueued exactly once is not claimed.
- Liveness: nothing says that a resumed mailing is claimed under a steady supply of fresh work, nor that an SMS mailing whose messages are canceled after dispatch ever completes.
- Auto-blacklist: the windowed bounce count over trace creation times; only the repair's age test is modelled, with creation times as a parameter.
- `update_draft`: its placeholders and binds do not line up, so only drafts being editable would be left to state.
- `create_mailing` and `create_ab_test` input checks, seed generation, the `bind_variant` update itself, `set_sms_winner_selection`, audience creation and archiving, contact upsert, default opt-out reasons: single guarded inserts or updates.
- `rank_variants_by_metric`: the stored-ratio ranking is one ORDER BY; promotion takes its answer, like the billing ranking's, as given.
- The role-checked transition variants and the display and parsing of states: the generated tables carry no role.
- STOP keyword and code checks for SMS: single-pass string predicates.
- HMAC, f64 rounding and uuid syntax: the bucket and the uuid reader are parameters and ratios are exact rationals.
- Transactions, pools, isolation levels, org scopes, tracing, events, pacing and batch delays; HTTP handlers, DTOs, seeders, exports and generated CRUD.
