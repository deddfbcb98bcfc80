# NodeHoster: a verified model

A Dafny model of the parts of NodeHoster that keep state over unbounded runs, with proofs of what
they promise. `dafny verify dfyconfig.toml` checks all of it.

| files | component |
|---|---|
| `AlertState`, `AlertModel`, `AlertSafety`, `AlertRefinement`, `AlertTrace`, `AlertVoices`, `AlertAnnouncements`, `NoticeCap`, `AlertChecks`, `AlertEngine` | resource alerts: the timed state machine, the engine over it, restarts, silences, the cap on notices, the checks an evaluation makes |
| `TrafficWindow`, `Percentile` | the traffic buffer behind rate metrics, percentiles of a histogram |
| `BackupCrypt`, `BackupStream` | the encrypted backup stream, its writer and its reader |
| `BackupSchedule`, `BackupNames`, `BackupRetention` | when backups run, how archives are named, which ones expire |
| `QueryEncoding`, `Sorting` | the canonical query string of signed requests |
| `OcspStapling` | the handshake cache and the OCSP tracking entries |
| `AccessRules`, `UserAdmins`, `SignInThrottle` | permissions, the last administrator, the limit on failed sign-ins |

How the model is built:

- Time is an integer number of nanoseconds. Go's zero time is `None` where the code tests for it.
- Each locked operation is one atomic step; store and disk writes succeed; new ids are never reused.
- Objects whose methods update fields are classes. Where theorems speak of whole runs, each method is
  proved to do exactly what a function on the object's state says, and the theorems are about sequences
  of those functions: what an alert evaluation does is `AlertModel.Do`, what a responder's answer does
  is `OcspStapling.Check`, and so on.
- Map iteration order is arbitrary: loops over maps take their keys in an order nothing is known about.
- The authenticated cipher is ideal: it opens exactly what has been sealed under its key. That rests on
  nonces being used once per key, the requirement of section 8 of NIST SP 800-38D, which
  `BackupCrypt.NoncesDistinct` proves within an archive; each archive draws its own salt and nonce
  prefix, so it has a header and a key of its own.
- An OCSP response is the value its DER encoding stands for; signature checking is ideal.
- Readings and percentiles are real numbers.

Where the code and its comments differ, the model follows the code:

- `ocspStapleMargin` is said to keep every handshake from carrying an expired response. That holds for
  responses that outlived an expiry pass (`OcspStapling.HandshakesStayValid`). A response fetched by a
  check asked for by hand is not followed by a pass, and one with seconds left stays in the handshakes
  after it expires (`OcspStapling.CheckByHandCanOutlive`). `OcspStapling.ValidUntilNextExpiry` says that
  those installed since the last pass are the only exceptions, `OcspStapling.NewStapleValidExactly`
  which of them stay valid until the next.
- `Unsilence` says that the next evaluation notifies a firing alert that was never notified. It does not
  when a reminder is due at that evaluation (`AlertAnnouncements.ReminderSwallowsAnnouncement`, a run
  from an empty server); `AlertAnnouncements.AnnouncedExactly` says when it does.
- `window` is said to keep the longest window a rule may ask for. With readings more than a minute
  apart it can drop the reading such a window needs (`TrafficWindow.SparseReadingsDiffer`);
  `TrafficWindow.SameReadingExactly` says when it has it.

What validation adds: `Next` itself does not check that all characters of "hh:mm" are digits, but every
time it gets comes from settings validated against a pattern. `BackupSchedule.SettingsGuardParse` says
that validation keeps out exactly the texts that would be misread. Rule ids are validated too: they are
ASCII and differ in more than case, which is all `AlertChecks.ChecksDistinct` needs of them.

## Model

| member | source | states |
|---|---|---|
| `AlertState.FiresExactly` | internal/alerts/state.go:79-124 | In every run with a forward clock, an evaluation fires if and only if the rule was not firing, the evaluation is a breach, and the condition was first seen at some breach, never cleared or resolved since, and has held without a gap for the hold period |
| `AlertState.PendingSince` | internal/alerts/state.go:98-112 | A pending rule's `Since` is the earliest evaluation from which the condition has held, watched without a gap |
| `AlertState.ResolvesExactly` | internal/alerts/state.go:89-95 | An evaluation resolves if and only if the rule was firing and a gapless run of evaluations without a breach, ending there, spans the recovery period |
| `AlertState.RemindsExactly` | internal/alerts/state.go:126-134 | A reminder is due if and only if the rule is firing, sees a breach, has reminders on, and the last fire or reminder is at least the interval ago |
| `AlertState.FireAndResolveAlternate` | internal/alerts/state.go:97-142 | Between two fires lies a resolution, between two resolutions a fire, and no resolution comes before a fire |
| `AlertState.FiresApart` | internal/alerts/state.go:79-142 | Two fires of one subject are at least a hold period and a recovery period apart |
| `AlertState.RemindersBounded` | internal/alerts/state.go:126-134 | A firing episode of length L has at most L divided by the interval reminders |
| `AlertSafety.NoticesInOrder` | internal/alerts/engine.go:216-342 | Over every interleaving of evaluations, silences, prunings and restarts, the notices of one alert are Fire, then reminders at least the rule's interval after every notice before them, then Resolve: at most one Fire, nothing before it, nothing after Resolve |
| `AlertSafety.NoResolutionLost` | internal/alerts/engine.go:6-11 | At any point of any run, restarts included, the alerts announced and not yet announced as resolved are exactly the notified ones in progress, firing in memory and in the store |
| `AlertSafety.RunKeeps` | internal/alerts/engine.go:100-342 | After every run the store's firing alerts are exactly the engine's, by key, ID and notification; every entry's phase agrees with its alert, its notified flag and time say what the log has told, and whatever was announced and not resolved is tracked |
| `AlertSafety.RestartRestores` | internal/alerts/engine.go:100-125 | A restart brings back exactly the keys that were firing, as the store has them, and nothing else |
| `AlertSafety.AfterEvaluation` | internal/alerts/engine.go:144-212 | After each evaluation of any run every entry is pending or firing, as its alert says, and its rule was in force in that evaluation |
| `AlertRefinement.EngineRefinesMachines` | internal/alerts/engine.go:144-306 | The sparse map refines one state machine for every key, restarts and silences included: an entry is in its machine's state but for the time of the last notice, and there is none exactly when the machine is inactive |
| `AlertRefinement.EngineRunsTheMachine` | internal/alerts/engine.go:214-306 | Without a restart a key is tracked exactly when the state machine, run over the key's own evaluations since it was last started over, is not inactive, and in that state but for the time of the last notice |
| `AlertTrace.SaysWhatTheMachineSays` | internal/alerts/engine.go:100-342 | For a key nobody silences, in every run with restarts: the entry is its machine's state in every field, and the notices of the key are exactly what the machine asks for, in that order and at those times, plus a resolution when it is stopped while firing |
| `AlertTrace.NoticesAreTransitions` | internal/alerts/engine.go:214-306 | Without restarts, an evaluation announces for such a key exactly the transition of the state machine run over the key's own history |
| `AlertVoices.EveryKeySpeaks` | internal/alerts/engine.go:100-342 | For every key in every run, with silences and restarts, the entry is to the last field the key's specification machine, which knows the silence and what was told, and the notices are exactly what it says: a firing once and as soon as no silence and no due reminder hinders it, reminders only of what was told and without a silence, an end exactly of what was told |
| `AlertRefinement.SilenceHolds` | internal/alerts/engine.go:206-331 | After a timed silence is set on a firing alert, no Fire or Remind for its key is produced before the silence ends, however often the alert resolves, pends and fires again, unless it is silenced or unsilenced again |
| `AlertAnnouncements.AnnouncedAfterEvaluation` | internal/alerts/engine.go:267-305 | After every evaluation of any run a checked alert is firing, not silenced and unannounced if and only if it was firing unannounced before, its silence is over and a reminder was due at the check |
| `AlertAnnouncements.AnnouncedExactly` | internal/alerts/engine.go:277-303 | At any point of any run, a firing alert that was never announced and is not silenced is announced, and open in memory and in the store, after the evaluation that checks it next if and only if neither a reminder nor its recovery is due at that check |
| `AlertAnnouncements.ReminderSwallowsAnnouncement` | internal/alerts/engine.go:277-283 | A run from an empty server: fired while silenced, unsilenced and checked when the reminder is due, an alert is still not announced |
| `NoticeCap.ByRankSorts` | internal/alerts/engine.go:344-363 | Sorting by rank loses and invents nothing and puts lower ranks first |
| `NoticeCap.CapKeepsTheMostImportant` | internal/alerts/engine.go:358-369 | With more than ten notices, ten are delivered and one summary counts the rest; nothing left out ranks before anything delivered, and the summary has the severity of the first left out, which none of the others precedes |
| `AlertChecks.EffectiveRules` | internal/model/alerts.go:380-415 | The loops compute the server's site rules with a site's own in their place, then the site's others, without those turned off or not suiting the site |
| `AlertChecks.EffectiveExactly` | internal/model/alerts.go:380-415 | A rule is checked on a site if and only if the site takes part and the setting that counts there has it turned on and suiting the site |
| `AlertChecks.SlotKeyInjective` | internal/model/slots.go:63-74 | The key of a site and slot is that of no other site or slot |
| `AlertChecks.ChecksDistinct` | internal/alerts/engine.go:144-189 | With settings as validated, an evaluation checks no key twice |
| `AlertChecks.WindowsAreBuffers` | internal/alerts/engine.go:151-176 | After every sequence of evaluations a subject's window is the buffer of all its readings since it was last gone |
| `AlertEngine.Engine.Load` | internal/alerts/engine.go:100-133 | The new engine holds the stored firing alerts, the later one on a shared key, and the newest timed silence per key still in force |
| `AlertEngine.Engine.Save` | internal/alerts/engine.go:333-342 | A pending alert is not stored; any other replaces its stored copy, and the time of saving is kept |
| `AlertEngine.Engine.FinishAlert` | internal/alerts/engine.go:313-331 | The alert is gone; a firing one is stored as resolved, its timed silence outlives it, and it is announced only if its firing was |
| `AlertEngine.Engine.AdvanceAlert` | internal/alerts/engine.go:237-306 | The tracked alert, the store, the silences and the notices after one observation are those of `AlertModel.Advance` |
| `AlertEngine.Engine.StepRule` | internal/alerts/engine.go:214-306 | One check ends an alert whose rule watches something else now, starts one only on a breach, and otherwise advances it |
| `AlertEngine.Engine.RunChecks` | internal/alerts/engine.go:151-189 | All checks not on hold are stepped in order, and every checked key counts as seen |
| `AlertEngine.Engine.EndUnseen` | internal/alerts/engine.go:190-205 | Exactly the alerts of unseen keys are ended, once each, in any order |
| `AlertEngine.Engine.CheckSites` | internal/alerts/engine.go:148-171 | Every sample goes into its window, and the rules in force on its site are checked in order on it |
| `AlertEngine.Engine.EvaluateAll` | internal/alerts/engine.go:135-212 | An evaluation takes the samples in, makes the checks the settings ask for, is a possible step of the model and keeps the invariant; what is delivered is the cap of what was produced |
| `AlertEngine.Engine.Find` | internal/alerts/engine.go:413-420 | The key of the alert with the ID, or nothing exactly when no alert in progress has it |
| `AlertEngine.Engine.SilenceAlert` | internal/alerts/engine.go:439-462 | Minutes out of range, a long note and an unknown ID are refused without a change; otherwise the alert is silenced until then, or until it resolves, and stored unless pending |
| `AlertEngine.Engine.UnsilenceAlert` | internal/alerts/engine.go:464-477 | The alert's silence and the one kept for its key are gone, and the alert is stored unless pending; an unknown ID changes nothing |
| `TrafficWindow.PruningLosesNothing` | internal/alerts/measure.go:56-121 | For every window up to the longest a rule may have, the delta from the pruned buffer is the delta from the whole history since the counters last started over, if readings are at most a minute apart and no 513 fall within the span kept |
| `TrafficWindow.BufferKeeps` | internal/alerts/measure.go:77-92 | After every sequence of samples in order the buffer is the history since the last reset without exactly the readings older than 31 minutes or beyond the newest 512 |
| `TrafficWindow.SameReadingExactly` | internal/alerts/measure.go:56-109 | For every window length the buffer measures from the reading the whole history would measure from if and only if that reading is at most 31 minutes old and among the newest 512 |
| `TrafficWindow.SparseReadingsDiffer` | internal/alerts/measure.go:62-109 | With readings 15 and 25 minutes apart the buffer answers for a shorter time than the history would |
| `TrafficWindow.DeltaNotNegative` | internal/alerts/measure.go:77-113 | Whatever was sampled, requests and errors of a window are never negative |
| `TrafficWindow.Window.AddReading` | internal/alerts/measure.go:77-92 | Counters that went down start the buffer over; too old and surplus entries go, the newest stays |
| `TrafficWindow.Window.DeltaOver` | internal/alerts/measure.go:94-121 | The last reading minus the newest one at least that old, or minus the oldest; nothing with fewer than two |
| `Percentile.Estimate` | internal/alerts/measure.go:123-154 | The loop computes the interpolated value of the first bucket that reaches the rank, for any counts and bounds |
| `Percentile.PercentileInBucket` | internal/alerts/measure.go:123-154 | The percentile lies between the bounds of the bucket where the cumulative count first reaches the rank, and is the lower bound of the overflow bucket |
| `Percentile.PercentileMonotone` | internal/alerts/measure.go:123-154 | A higher percentile is never a smaller value |
| `BackupCrypt.NoncesDistinct` | internal/backup/crypt.go:107-116 | Nonces of two chunks are equal only for the same chunk number and the same last mark |
| `BackupCrypt.OwnHeaderSupported` | internal/backup/crypt.go:68-74 | The header an archive gets passes every check of the reader |
| `BackupCrypt.RoundTrip` | internal/backup/crypt.go:178-238 | Reading an untouched stream gives back exactly the plaintext, then the end of the file |
| `BackupCrypt.DamageDetected` | internal/backup/crypt.go:17-29 | However many archives a passphrase has made, finished or not, and for every stream of bytes: what is released is a prefix of the plaintext its header belongs to, and reading ends without an error, with all of it, if and only if the stream is byte for byte what the writer of a finished archive wrote |
| `BackupCrypt.ForeignKeyRefused` | internal/backup/crypt.go:144-174 | Under a key that sealed nothing with this header nothing is released and reading fails at the first chunk |
| `BackupStream.NewEncrypter` | internal/backup/crypt.go:62-85 | An empty passphrase, and only that, is refused; otherwise the header is out, the key is the one for that header, and nothing is accepted yet |
| `BackupStream.Encrypter.Flush` | internal/backup/crypt.go:107-121 | The buffer is sealed under the counter and the last mark and written; it fails, changing nothing, only with the counter used up |
| `BackupStream.Encrypter.Write` | internal/backup/crypt.go:87-105 | The bytes are accepted and the output is the full chunks before the buffered rest; it fails exactly after a close and when the data exceeds what the counter can number |
| `BackupStream.Encrypter.Close` | internal/backup/crypt.go:123-129 | The output is the one stream of what was written, however it was split up: full chunks and one marked last, which is empty only for empty input; when the counter is used up it fails and leaves all but the closing undone |
| `BackupStream.Encrypter.ReadsBack` | internal/backup/crypt.go:17-29 | What a completed writer has put out reads back as what it took in, whatever other archives the passphrase has made, and every other stream with its header is refused or ends in an error after a prefix of it |
| `BackupStream.Encrypter.UnfinishedFails` | internal/backup/crypt.go:17-20 | Before the writer is closed no stream with its header reads to the end, and what is released is a prefix of what was written |
| `BackupStream.Decrypter.NextChunk` | internal/backup/crypt.go:178-217 | The next chunk is opened with the nonce of its place, or the archive is reported truncated or not authentic |
| `BackupStream.Decrypter.Read` | internal/backup/crypt.go:219-238 | In whatever sizes reads come, what was handed out is a prefix of what the stream gives, and all of it with the stream's own end once an end is reported |
| `BackupStream.NewDecrypter` | internal/backup/crypt.go:144-174 | Each refusal exactly in its case: foreign data, unsupported parameters and an unsupported chunk size before the key is used, then a first chunk that does not open as a wrong passphrase or a truncated archive; otherwise a reader of what the whole stream gives |
| `OcspStapling.RefreshedBeforeDropped` | internal/certs/ocsp.go:177-201 | After a valid answer the next check is not within a minute; with twice the margin left from now, or from the answer's own beginning if that is later, it comes before the staple is dropped; for an unknown certificate it is within the hour |
| `OcspStapling.BackoffBounds` | internal/certs/ocsp.go:379-382 | After failures the next check is between a minute and an hour away, never sooner after more of them |
| `OcspStapling.StaplesAreTracked` | internal/certs/ocsp.go:113-221 | After every sequence of steps a staple in the handshake cache is an authentic good response for the cached certificate and is the tracked entry's own; an entry claims to be stapled exactly when handshakes carry it, and to be good exactly with a good response |
| `OcspStapling.ExpireFreshens` | internal/certs/ocsp.go:262-293 | After an expiry every remaining staple has more than the margin left |
| `OcspStapling.ValidUntilNextExpiry` | internal/certs/ocsp.go:239-297 | At any point after an expiry a staple is valid for the margin after it, or was installed since by a check or a load and was valid then |
| `OcspStapling.HandshakesStayValid` | internal/certs/ocsp.go:42-44 | While nothing is installed no handshake carries an expired response for the margin after an expiry |
| `OcspStapling.NewStapleValidExactly` | internal/certs/ocsp.go:113-166 | A good response, from a check or from the disk at start, is stapled at once and stays through every sequence of steps that neither expires it nor touches its certificate; some handshake up to the next expiry carries it expired if and only if it is not valid beyond that expiry |
| `OcspStapling.CheckByHandCanOutlive` | internal/certs/ocsp.go:299-311 | A response checked by hand with a second left is still stapled two seconds later |
| `OcspStapling.Manager.PutStaple` | internal/certs/ocsp.go:203-221 | The pair is replaced by one with the response unless the certificate was replaced meanwhile, and the result says which |
| `OcspStapling.Manager.TrackPair` | internal/certs/ocsp.go:113-166 | A new entry, with the saved response if it is reused and still verifies, stapled if good; otherwise the saved one is discarded |
| `OcspStapling.Manager.SavePair` | internal/certs/manager.go:369-373 | New material is cached without a staple and tracked from scratch |
| `OcspStapling.Manager.TakeAnswer` | internal/certs/ocsp.go:386-401 | A valid answer is recorded, kept only if good, and the notices of a revocation and of a missing staple are marked as given |
| `OcspStapling.Manager.TakeFailure` | internal/certs/ocsp.go:379-401 | A failure is counted, the next check backs off, and a response still at hand is kept |
| `OcspStapling.Manager.CheckOne` | internal/certs/ocsp.go:330-404 | A verified answer replaces staple, entry and saved response together; anything else leaves the staple alone |
| `OcspStapling.Manager.ExpireAll` | internal/certs/ocsp.go:262-297 | Exactly the due entries lose their response, and handshakes with them; the invariant holds and what remains is fresh |
| `OcspStapling.Manager.Pass` | internal/certs/ocsp.go:239-260 | An expiry, then for each certificate asked its check and another expiry, each due one once and all of them unless shutdown begins; in the end every staple has more than the margin left at the time of the last expiry |
| `OcspStapling.Manager.DeletePair` | internal/certs/manager.go:582-602 | Pair, entry and saved response are gone together |
| `BackupSchedule.SettingsTimesParse` | internal/model/backup.go:167-185 | The settings accept exactly the written times of day, and each is read as written |
| `BackupSchedule.SettingsGuardParse` | internal/backup/schedule.go:71-80 | The settings accept a text if and only if it parses and its second and last characters are digits |
| `BackupSchedule.SettingsAlwaysSchedule` | internal/model/backup.go:182-193 | A validated time with validated weekdays always has a next instant |
| `BackupSchedule.NextOf` | internal/backup/schedule.go:81-95 | The least scheduled instant strictly after the given one; none exactly when no weekday of the list exists |
| `BackupSchedule.Next` | internal/backup/schedule.go:67-95 | The same for a time as text: it succeeds exactly if the text parses and a weekday exists |
| `BackupSchedule.Loop` | internal/backup/schedule.go:108-125 | A run starts at a tick if and only if an instant of the schedule as set then lies after the last check and not after the tick |
| `BackupSchedule.NoInstantTwice` | internal/backup/schedule.go:97-125 | No instant is seen by two ticks, so none causes two runs |
| `BackupSchedule.PassedDuringRunIsSkipped` | internal/backup/schedule.go:97-125 | An instant that passes during a run is seen by no tick |
| `BackupSchedule.EveryInstantSeen` | internal/backup/schedule.go:97-125 | Every instant after the start is seen by a tick or passed during a run |
| `BackupNames.MakeSafe` | internal/backup/archive.go:86-101 | Every character that is not safe becomes an underscore, a safe name stays as it is, and the result is never empty |
| `BackupNames.NameRoundTrip` | internal/backup/archive.go:79-115 | A name made for a host and a second reads back as the safe host and that second, whatever dashes and digits the host has |
| `BackupNames.ParsedNamesAreMade` | internal/backup/archive.go:79-115 | Every name that parses is the one made for what it parses as |
| `BackupNames.InstantsInOrder` | internal/backup/archive.go:103-115 | Times parsed from names compare exactly as their dates and times of day do |
| `BackupRetention.ListArchives` | internal/backup/schedule.go:21-38 | The objects named like archives, sorted newest first, with the host and time of their names |
| `BackupRetention.MineIs` | internal/backup/schedule.go:21-55 | A host's list is newest first by the dates in the names and holds exactly its objects named like archives, hosts compared without regard to case |
| `BackupRetention.FindExpired` | internal/backup/schedule.go:45-65 | The loops compute the archives that no rule keeps |
| `BackupRetention.ExpiredIsTail` | internal/backup/schedule.go:40-65 | With a rule on, what expires is exactly the complement of a prefix of the host's archives: never the newest, never one of the newest to keep, never one young enough, and everything else |
| `BackupRetention.OnlyOwnArchivesExpire` | internal/backup/schedule.go:40-55 | Another server's files and files not named like archives never expire |
| `BackupRetention.SecondPassFindsNothing` | internal/backup/schedule.go:40-65 | Deleting what expired and asking again at the same time finds nothing |
| `QueryEncoding.UriEncode` | internal/backup/s3.go:293-306 | The loop keeps unreserved bytes, and slashes if asked, and writes every other byte as a percent sign and two upper-case digits |
| `QueryEncoding.DecodeEncode` | internal/backup/s3.go:293-306 | Percent-decoding gives back every byte string |
| `QueryEncoding.CanonicalOfMultiset` | internal/backup/s3.go:310-333 | The query string depends only on which pairs there are |
| `QueryEncoding.QueryRecovered` | internal/backup/s3.go:310-333 | Splitting it at ampersands and equals signs and decoding recovers exactly the pairs |
| `QueryEncoding.CanonicalInjective` | internal/backup/s3.go:310-333 | Two queries have the same string if and only if they are the same pairs |
| `QueryEncoding.EncodingIgnoresMapOrder` | internal/backup/s3.go:315-321 | The order the map is gone through in does not show |
| `QueryEncoding.SignedQueryIsSentQuery` | internal/backup/s3.go:267-275 | Encoding what is parsed from the query that is sent gives that query again, so the signature covers it |
| `QueryEncoding.EncodeQuery` | internal/backup/s3.go:310-333 | The loops compute the canonical string of the map's pairs, the same for every order its keys could come in |
| `AccessRules.SiteRole` | internal/auth/access.go:98-111 | The strongest grant on the site, or the server-wide role; a role it returns for site-scoped access is granted there |
| `AccessRules.UserAccess` | internal/auth/access.go:43-54 | A user's grants count for at most operator on every site |
| `AccessRules.Restrict` | internal/auth/access.go:56-87 | The exact meet: on every site the least of the owner's rank, the token's role and operator when a server-wide owner is narrowed to sites, nothing outside the token's sites; on the server likewise |
| `AccessRules.LimitAccess` | internal/api/servers_proxy.go:360-367 | A limit to a real role is the meet with it; any other is refused |
| `AccessRules.RestrictionsCommute` | internal/auth/access.go:56-87 | Two restrictions have the same effect in either order |
| `AccessRules.WithPreviews` | internal/auth/previews.go:9-25 | On every site the best of its own grants and those on the sites it is a preview of; server-wide access stays as it is |
| `AccessRules.PreviewsMonotone` | internal/auth/previews.go:9-25 | An access within another stays within it once both are extended to previews |
| `AccessRules.RequestAccess` | internal/api/api.go:339-355 | On every site exactly the best, over it and the sites it is a preview of, of the meet of user, token and role limit there; on the server exactly their meet |
| `AccessRules.RequestWithin` | internal/api/api.go:339-355 | So a request never has more than its user with previews, than its token's role or than the limit, and with a token for sites it reaches only these and their previews |
| `UserAdmins.CheckUserAccess` | internal/auth/access.go:159-191 | Accepts exactly real roles with grants only for the sites role, at least one, each on an existing site, no site twice, as viewer or operator |
| `UserAdmins.FindMappedRole` | internal/auth/sso.go:50-61 | The role of the first rule that matches a value |
| `UserAdmins.UpdateRefusedExactly` | internal/api/auth.go:361-391 | A valid update is refused as one of the last administrator if and only if the record it asks for would leave no enabled one, role and disabled changed together or apart |
| `UserAdmins.DeleteRefusedExactly` | internal/api/auth.go:419-440 | Deleting another user is refused so if and only if no enabled administrator would be left |
| `UserAdmins.SsoKeepsAdmin` | internal/auth/sso.go:63-131 | A sign-in never removes the last enabled administrator, and keeps the role only where changing it would |
| `UserAdmins.AdminRemains` | internal/api/auth.go:320-440 | From any users with an enabled administrator every sequence of updates, deletions, creations and sign-ins leaves one |
| `UserAdmins.UserStore.IsLast` | internal/auth/sso.go:143-155 | True exactly when nobody else is an enabled administrator |
| `UserAdmins.UserStore.FindUser` | internal/store/auth.go:76-78 | A user of the name, compared without regard to case, or none exactly when there is none |
| `UserAdmins.UserStore.UpdateUser` | internal/api/auth.go:332-398 | The record and the outcome after an update, refusals leaving the users as they were |
| `UserAdmins.UserStore.DeleteUser` | internal/api/auth.go:419-440 | The users and the outcome after a deletion |
| `UserAdmins.UserStore.SsoLogin` | internal/auth/sso.go:76-141 | The user is looked up by name; an unknown one is created with the mapped or default role or refused, a known one's role worked out anew |
| `SignInThrottle.PruningLosesNothing` | internal/auth/auth.go:157-169 | The failures the pruned list counts at any later time are those the whole history since the last success would |
| `SignInThrottle.SixFailuresSpan` | internal/auth/auth.go:157-226 | Any six failures of a key with no success between them span at least fifteen minutes |
| `SignInThrottle.Service.Throttled` | internal/auth/auth.go:157-169 | The key's list is what is left of it within fifteen minutes, and five or more of those lock it |
| `SignInThrottle.Service.Fail` | internal/auth/auth.go:171-175 | A failure is added to the key's list |
| `SignInThrottle.Service.SignIn` | internal/auth/auth.go:179-226 | A locked attempt only prunes; otherwise a failure is recorded and a success forgets them all |

## Left out

- AlertEngine.Engine.EvaluateAll: which observation a rule makes of a sample and a window (`measureSite`, `measureServer`, `AlertRuleApplies`) is a function it is given, because these are lists of simple cases; readings, peaks and message texts are not modelled, and windows are held by content, not as objects.
- AlertRefinement.EngineRefinesMachines: leaves out the time of the last notice, which an announcement held back by a silence moves; `AlertVoices.EveryKeySpeaks` has it for every key, with a machine that knows the silences.
- AlertRefinement.EngineRunsTheMachine: leaves out the time of the last notice, for the same reason.
- AlertTrace.SaysWhatTheMachineSays: is about keys nobody silences, for which the plain state machine says it all; `AlertVoices.EveryKeySpeaks` is about every key.
- AlertTrace.NoticesAreTransitions: is about keys nobody silences, for the same reason.
- Silences set on a pending alert, and silences recalled after a restart: the code keeps these only in part, and nothing is claimed about them.
- Crashes in the middle of an operation, failing store writes and interleavings within a locked operation.
- Concurrency of an OCSP check with a replacement of the same certificate: each step is atomic.
- Real cryptography, key derivation, X.509 and OCSP encodings, fetching, and the events sent about certificates.
- Errors of the underlying reader and writer of the backup stream.
- Daylight-saving changes, in `Next` and in the age limit of retention: the clock has a fixed offset, and a day back is 86400 seconds back.
- Why a sign-in attempt fails or succeeds (`Login` up to its outcome), sessions and the bookkeeping of one-time codes.
- `OnSite`, `Server`, `Highest`, `SiteIDs` and `CanSee` of an access, and listing and history of alerts, which are simple queries.
- The settings handlers, the reverse proxy, ACME orders, transfer of backups and the user interfaces.
