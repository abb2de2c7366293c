# Verified models of Huliho's cores

A Dafny model of the parts of the mail client and server whose correctness
is not visible from one function: the codec of mailbox names, the parser of
authentication results, the protocol of the cache worker, the rate limits,
the streaming of blobs, the drawing of plain text, the reverse reading of
mail actions and the event log of organizations. Each module models one
source component with the same branches, constants and error cases. A loop
or an object that the source changes in place is a method or a class here,
tied to a specification function; what the source promises is proved about
that function. Protocols are step relations: what runs between two awaits is
one step, and the theorems hold over every run of steps.

`dafny verify dfyconfig.toml` checks all of it.

## Modules

- `Utf7` models modified UTF-7 (section 5.1.3 of RFC 3501) with concrete
  base64, UTF-16 and run buffering.
- `AuthText`, `AuthResults`, `AuthGrammar`, `AuthRoundTrip` and
  `AuthHeaders` model the Authentication-Results parser (section 2.2 of
  RFC 8601): the readers by index, a token grammar they refine, and written
  structures that read back. The grammar knows no index; what the source
  makes of a finished word or value (`VerdictOf`, `WithProperty`, `FromOf`,
  `Unescape`, `Summarize`) it shares with the readers. What a read header
  must answer is told apart from all of these, in the words of the header
  (`AuthRoundTrip.Told`), and `AuthHeaders.Line` writes a header in
  literals. A header is unfolded ahead of its quoted strings,
  so a quoted value reads back but for its folds
  (`AuthRoundTrip.PrintedHeaderReadsBack`,
  `AuthRoundTrip.QuotedDomainReadsBackExactly`, `AuthRoundTrip.FoldIsLost`).
  Text is UTF-16 code units; lower-casing the text of a `header.from` is a
  parameter.
- `BodyQueue`, `Coordinator`, `Leases` and `SenderIndex` model the cache
  worker: lanes of body fetches, timers and polls with the generation fence,
  the leases of undoable destroys, and the sender index beside the table.
- `RateLimit` models the backoff and the token buckets. Clocks are 64-bit
  milliseconds since 1970, given by the caller.
- `BlobDecode` and `BlobStream` model the windowed decoder and the stream
  through a bounded channel. A channel that a reader has dropped takes no
  more pieces. What the two library decoders make of bytes is a parameter
  with one law: base64 decodes quartet by quartet, quoted-printable line by
  line.
- `PlainText` models runs, quotes, the link budget and the first lines. The
  finder of addresses and the link policy are parameters; the finder's
  matches come in order and none lies over another.
- `Patch` and `Actions` model patches with their inverses, the pending rows
  of an email, and the actions with their reverse reading.
- `Identity` models users, roles, flags and the event log. New ids, the
  clock and the order of a grouped query are parameters; a scope is any
  user, organization and role.
- `Sequences` and `Wrappers` hold the facts and the option type all share.

## Where the code does not do what it is meant to

Each has a lemma with the exact condition, beside one that shows the failure.

- `delay_after` guards the width of the shift, not the bits it loses: from
  57 to 61 and from 63 to 67 failures the delay is nothing instead of the
  cap (`RateLimit.DelayIsIntendedExactly`).
- Sweeping a full bucket restarts its refill at its key's next take, so it
  can grant a take the kept bucket would refuse. It never does exactly when
  that next take comes a whole number of periods after the last refill, and
  the lead is always less than one token (`RateLimit.SweepNeverMoreExactly`,
  `RateLimit.PhasesPart`, `RateLimit.SweepingRunGrantsMore`,
  `RateLimit.SweepLeadsByLess`).
- The numbers of the patch log go on from its last row, so a number is used
  again once the last row left while an answer still names it: a job that
  destroys the email of a held destroy lets one tab's release or undo act on
  another tab's destroy (`Leases.NumbersStayApartExactly`,
  `Leases.AnotherTabsDestroyGoes`). The lease itself is safe in every run.
- A destroy of the database moves no batch count, so a read of the senders
  in flight is kept beside an empty table
  (`SenderIndex.DestroyDuringReadExactly`, `SenderIndex.DestroyedHeaderKept`),
  and a batch still to land lands beside it
  (`SenderIndex.DestroyWhileLandingExactly`,
  `SenderIndex.DestroyedHeaderLands`).
- The index folds put rows as they come while the table's reader checks
  them, so the two agree exactly while the rows put pass their schema
  (`SenderIndex.FoldAgreesExactly`, `SenderIndex.InvalidRowHeld`).
- Two spellings of a path name one member, and a patch holding both cannot
  be taken back (`Patch.UndoneExactly`, `Patch.TwoSpellings`,
  `Patch.TwoSpellingsStay`); paths that `pathOf` writes for distinct keys,
  none of them empty, never do this (`Patch.PathRoundTripExactly`).

## Assumptions

- Dexie transactions, the account's lock and a channel's operations are
  atomic steps. The generation check and the commit behind it are one step,
  since nothing between them waits on anything unsettled. Continuations of
  transactions run in their order.
- A tab's lock is granted once no earlier lock of its name is held, and a
  closed tab's locks go with it. Each held answer ends by one release, one
  drop, a failure, or with its tab; a failure that comes after the log took
  the destroy ends the hold as well.
- The server's answer to a window is the body from the offset on, as many
  bytes as one window holds.

## Model

| member | source | states |
|---|---|---|
| Utf7.RoundTrip | crates/imap-bridge/src/utf7.rs:36-112 | for every string of Unicode scalar values, decoding its wire form gives the string back, through concrete base64 without padding, UTF-16 surrogate pairs, `&-` and run flushing |
| Utf7.EncodedInjective | crates/imap-bridge/src/utf7.rs:80-102 | two names with one wire form are one name |
| Utf7.ReencodesExactlyCanonical | crates/imap-bridge/src/utf7.rs:36-112 | a wire name comes back as sent exactly when it is canonical by a grammar of its own: direct characters, `&-`, and maximal runs told by the alphabet, the zero bits left over and the pairing of surrogates, so the two functions are a bijection onto that grammar |
| Utf7.EncodedCanonical | crates/imap-bridge/src/utf7.rs:80-112 | every encoded name follows that grammar: direct characters, `&-`, and maximal shifted runs |
| Utf7.CanonicalReencodes | crates/imap-bridge/src/utf7.rs:36-112 | every canonical wire name is the encoding of what it decodes to |
| Utf7.RunReads | crates/imap-bridge/src/utf7.rs:60-78 | the run decoder accepts, as shifted characters, exactly the runs whose symbols cut sixteen bits at a time are such units with nothing but zero bits left over |
| Utf7.EncodedPrintable | crates/imap-bridge/src/utf7.rs:80-112 | only printable ASCII goes on the wire, for every name |
| Utf7.PlainStays | crates/imap-bridge/src/utf7.rs:32-102 | a name of the characters from the space to the tilde, none of them `&`, is its own wire form and its own decoding |
| Utf7.EncodesRuns | crates/imap-bridge/src/utf7.rs:80-112 | a stretch of characters below the space or above the tilde, with none such beside it, goes out as one closed run that spells it, a bit grammar of literals saying what a run spells |
| Utf7.EncodesAmpersand | crates/imap-bridge/src/utf7.rs:84-92 | an ampersand goes out as `&-`, wherever it stands |
| Utf7.DecodesRuns | crates/imap-bridge/src/utf7.rs:36-58 | a closed run reads as the text it spells, `&-` as an ampersand, and a run that spells no text as it was sent |
| Utf7.UnclosedStands | crates/imap-bridge/src/utf7.rs:36-58 | text without an ampersand and a run that never closes read as they were sent |
| Utf7.ReadsWhatIsSpelled | crates/imap-bridge/src/utf7.rs:60-78 | a run decodes to a text exactly when it spells that text: its symbols are the bits of the text's UTF-16 units followed by fewer than six zero bits |
| Utf7.Base64RoundTrip | crates/imap-bridge/src/utf7.rs:14-25 | section 4 of RFC 4648 with `,` for `/` and no padding: the symbols of any octets decode to them |
| Utf7.Base64Canonical | crates/imap-bridge/src/utf7.rs:20-25 | strict trailing bits: symbols that decode are the only spelling of what they decode to |
| Utf7.Utf16RoundTrip | crates/imap-bridge/src/utf7.rs:70-77 | the UTF-16 units of any text, surrogate pairs included, read back as the text |
| Utf7.Utf16Canonical | crates/imap-bridge/src/utf7.rs:77 | units that read as text are the units of that text, so a lone surrogate reads as nothing |
| Utf7.BigEndianRoundTrip | crates/imap-bridge/src/utf7.rs:70-76 | units as big-endian octets read back |
| Utf7.DecodeRunOfShifted | crates/imap-bridge/src/utf7.rs:60-78 | a run written by the encoder decodes to the characters it was written for |
| Utf7.DecodedStep | crates/imap-bridge/src/utf7.rs:38-58 | one turn of the decoding loop on a closed run is one step of the grammar |
| Utf7.FlushedRun | crates/imap-bridge/src/utf7.rs:104-112 | the characters buffered up to a flush are exactly one maximal run of the grammar |
| Utf7.Decode | crates/imap-bridge/src/utf7.rs:36-58 | the loop that moves `rest` and grows `out` computes the decoding by the grammar of runs |
| Utf7.Encode | crates/imap-bridge/src/utf7.rs:80-102 | the loop that fills and flushes the run buffer computes the encoding by maximal runs |
| Utf7.Flush | crates/imap-bridge/src/utf7.rs:104-112 | a flush writes the buffered run once, closed, and leaves the buffer empty |
| AuthText.CommentEndsWhereItCloses | packages/core/src/auth-results.ts:88-108 | the flat counter walk ends a comment exactly where its nested grammar does: on every written comment, whatever it nests and quotes |
| AuthText.UnescapeEscape | packages/core/src/auth-results.ts:167-173 | a quoted body reads back as the text whose quotes and backslashes were escaped |
| AuthText.QuotedBody | packages/core/src/auth-results.ts:110-124 | a quoted string ends at its own closing quote, never at an escaped one |
| AuthText.LengthWithinBytes | packages/core/src/auth-results.ts:72-74 | a text is never longer than its UTF-8 octets, so the first bound refuses nothing the second would admit |
| AuthText.BytesAreUtf8 | packages/core/src/auth-results.ts:72-74 | the length is the number of UTF-8 octets by section 3 of RFC 3629, half a surrogate pair counting as U+FFFD |
| AuthText.ScanRun | packages/core/src/auth-results.ts:76-86 | the loop stops at the first unit outside the class |
| AuthText.ScanComment | packages/core/src/auth-results.ts:90-108 | the loop with a depth counter computes the walk of the comment grammar, unclosed ones included |
| AuthText.ScanQuoted | packages/core/src/auth-results.ts:111-124 | the loop computes the end of the quoted string, or that it never closes |
| AuthResults.CutClauses | packages/core/src/auth-results.ts:143-165 | the loop computes the clauses; every piece end it takes is strictly ahead and within the text |
| AuthResults.ScanValue | packages/core/src/auth-results.ts:266-279 | the loop computes the value of quoted strings and bare units up to the next whitespace |
| AuthResults.ScanProperties | packages/core/src/auth-results.ts:282-301 | the loop computes the properties of a clause, the first value per name |
| AuthResults.ScanClauses | packages/core/src/auth-results.ts:315-328 | the loop computes the clauses within the bound, or that one breaks the grammar |
| AuthResults.WordExactly | packages/core/src/auth-results.ts:175-180 | a word is read exactly where one stands: white space, all the letters, digits, underscores and hyphens there are, and all white space behind them |
| AuthResults.VersionExactly | packages/core/src/auth-results.ts:217-228 | no slash names the version read here; behind a slash a word of digits is read and no other, and `1` alone is that version |
| AuthResults.Best | packages/core/src/auth-results.ts:330-335 | a verdict that occurs for the method and that no other one of it outranks; none where none occurs |
| AuthResults.ParseAuthenticationResults | packages/core/src/auth-results.ts:356-364 | the imperative parser computes the parse by its specification, bounds and refusals included |
| AuthGrammar.ClausesJoin | packages/core/src/auth-results.ts:141-165 | joined with semicolons the clauses are the header with one space for each outermost comment |
| AuthGrammar.SplitJoins | packages/core/src/auth-results.ts:141-165 | all a split drops is one blank closing piece |
| AuthGrammar.ClausesLex | packages/core/src/auth-results.ts:126-165 | cutting the text into clauses and cutting its tokens give the same clauses and refuse the same headers, so no semicolon inside a quoted string or a comment splits |
| AuthGrammar.SplitAgrees | packages/core/src/auth-results.ts:143-165 | what the parser splits is what the token grammar splits, for every header |
| AuthGrammar.ValueAgrees | packages/core/src/auth-results.ts:264-279 | reading a value at an index is parsing it from the tokens there, to the same place |
| AuthGrammar.PropertiesAgree | packages/core/src/auth-results.ts:281-301 | reading the properties of a clause by index is parsing them from its tokens |
| AuthGrammar.SpecAgrees | packages/core/src/auth-results.ts:217-248 | method, version and result by index are method, version and result by token |
| AuthGrammar.HeadAgrees | packages/core/src/auth-results.ts:182-215 | the server, or that the first piece is a clause already, by index as by token |
| AuthGrammar.ParseReadsGrammar | packages/core/src/auth-results.ts:354-364 | for every header within the bounds the index-walking parser answers what a token grammar answers, refusals included; the grammar walks no index, and shares with the parser what it makes of a finished word or value (verdicts, the first value of a name, escapes, the summary) |
| AuthGrammar.SameTokensSameResults | packages/core/src/auth-results.ts:354-364 | headers of the same tokens read the same |
| AuthRoundTrip.WrittenHeaderReadsBack | packages/core/src/auth-results.ts:143-364 | a header written from a structure (server, versions, clauses, quoted and bare values) with any whitespace and comments in its gaps reads as exactly what the structure says, told clause by clause in the words of the header: the best verdicts of spf and dkim, the verdict and the first `header.from` of the one dmarc clause in lower case without its closing dot, and nothing at all for two dmarc clauses |
| AuthRoundTrip.PrintedHeaderReadsBack | packages/core/src/auth-results.ts:143-364 | the printed form of every such structure within the bounds reads back as what the structure tells, but for the folds of its quoted values, which are taken out: a line feed ahead of a space or a tab, with the CR ahead of it |
| AuthRoundTrip.FoldlessHeaderReadsBack | packages/core/src/auth-results.ts:143-364 | a structure whose quoted values hold no fold, line feeds among them or not, prints to a header that reads back as what the structure itself tells |
| AuthRoundTrip.QuotedDomainReadsBackExactly | packages/core/src/auth-results.ts:354-364 | a quoted DMARC domain reads back exactly when its folds change nothing of what is compared |
| AuthRoundTrip.FoldIsLost | packages/core/src/auth-results.ts:354-364 | a quoted line feed and space reads back as the space alone |
| AuthRoundTrip.SummaryTells | packages/core/src/auth-results.ts:330-352 | for every structure: the answer is nothing exactly when two clauses are named dmarc; else the verdict of spf is one a clause named spf came out with and no other of them is better, that of dkim likewise, and DMARC's verdict and domain are those of its one clause, the words of methods and verdicts spelled out |
| AuthRoundTrip.TooManyRefused | packages/core/src/auth-results.ts:315-318 | a header of more than 32 clauses is not read |
| AuthRoundTrip.TooLongRefused | packages/core/src/auth-results.ts:356-359 | nor is one past 8192 octets |
| AuthRoundTrip.ServerRefused | packages/core/src/auth-results.ts:193-204 | nor is one whose server is longer than 255 octets or holds a control character |
| AuthHeaders.LineReadsBack | packages/core/src/auth-results.ts:143-364 | one literal writer, spelling every separator, reads back as the structure it wrote but for folds: the fields of the answer are those the structure tells, said without any function of the parser |
| AuthHeaders.TokensExactly | packages/core/src/auth-results.ts:88-139 | a text cuts into tokens exactly when it is a row of bare characters, quoted strings that close and comments that close, told by a grammar of its own |
| AuthHeaders.BrokenRefused | packages/core/src/auth-results.ts:126-165 | a header that is no such row is not read |
| AuthRoundTrip.SeamTokens | packages/core/src/auth-results.ts:354-364 | text put behind text that ends outside every quoted string and comment reads as the tokens of both, wherever a fold falls between them |
| AuthRoundTrip.WideningKeepsResult | packages/core/src/auth-results.ts:84-165 | behind or ahead of whitespace or a comment, outside quoted strings, more whitespace and whole comments change nothing a header within the bounds reads as, line breaks and folds at the seams included |
| AuthRoundTrip.CommentIsGapText | packages/core/src/auth-results.ts:88-108 | a comment of any nesting is such gap text |
| AuthRoundTrip.GapTextsAreGapText | packages/core/src/auth-results.ts:88-108 | one such gap text behind another is gap text |
| BodyQueue.FetchSettlesOnce | apps/web/src/cache/body-queue.ts:55-153 | over every run of reads, answers, limit refusals, pause timers and stops each fetch asked is exactly one of running, waiting or settled, and is attempted five times at most wherever it stands |
| BodyQueue.EveryRun | apps/web/src/cache/body-queue.ts:55-153 | in every reachable state of a lane: running and retried fetches together are two at most, the line is retried fetches then fresh ones in ask order, a line that stands means a pause or two fetches out; and the length of a run is bounded by the fetches asked |
| BodyQueue.StepKeeps | apps/web/src/cache/body-queue.ts:80-153 | each step keeps that shape, the wake-up and the count of every fetch |
| BodyQueue.StepMeasure | apps/web/src/cache/body-queue.ts:117-153 | every step but an ask uses up one of the attempts and wake-ups left |
| BodyQueue.LineBounded | apps/web/src/cache/body-queue.ts:140-147 | a line is fetches with a try behind and one left, then untried ones in the order asked |
| BodyQueue.AskSends | apps/web/src/cache/body-queue.ts:55-78 | a read stands last in line, and the head of the line goes out exactly while fewer than two are out and no pause stands |
| BodyQueue.EndSettles | apps/web/src/cache/body-queue.ts:129-152 | a limit answer up to the fourth try puts the fetch at the head of its line behind a pause; any other ending settles that one fetch as landed, refused or abandoned and sends what there is room for |
| BodyQueue.PauseSends | apps/web/src/cache/body-queue.ts:148-151 | the end of a pause sends what there is room for and nothing else |
| BodyQueue.StopAbandons | apps/web/src/cache/body-queue.ts:83-97 | a stop abandons the whole line in order and leaves the fetches out alone |
| BodyQueue.Lane.Drain | apps/web/src/cache/body-queue.ts:117-127 | the draining loop starts exactly the fetches the lane has room for |
| BodyQueue.Lane.Retry | apps/web/src/cache/body-queue.ts:140-152 | a refused fetch stands at the head of its line behind a pause, or is abandoned in a stopped lane |
| BodyQueue.Lane.Finish | apps/web/src/cache/body-queue.ts:129-138 | an answer settles the fetch or retries it, then the lane drains |
| BodyQueue.Lane.Push | apps/web/src/cache/body-queue.ts:69-76 | a fetch joins the end of the line and the lane drains |
| BodyQueue.Lane.Resume | apps/web/src/cache/body-queue.ts:148-151 | the pause ends and the lane drains |
| BodyQueue.Lane.Halt | apps/web/src/cache/body-queue.ts:89-96 | a stop abandons every fetch in line and leaves those out |
| BodyQueue.Queue.Read | apps/web/src/cache/body-queue.ts:55-78 | a read asks its account's lane and touches no other lane; a lane not idle stays in the map |
| BodyQueue.Queue.Attempted | apps/web/src/cache/body-queue.ts:129-138 | an answer reaches its own lane, which leaves the map only when idle |
| BodyQueue.Queue.Resume | apps/web/src/cache/body-queue.ts:148-151 | the end of a pause drains its own lane, which leaves the map only when it is idle, and leaves every other alone |
| BodyQueue.Queue.Stop | apps/web/src/cache/body-queue.ts:83-97 | a stopped lane leaves the map with its line abandoned; every other lane stays as it is |
| BodyQueue.Queue.LaneOf | apps/web/src/cache/body-queue.ts:99-107 | the lane held, or a new empty one |
| BodyQueue.Queue.Forget | apps/web/src/cache/body-queue.ts:110-115 | only an idle lane still in the map is forgotten |
| RateLimit.WindowBound | crates/server/src/rate.rs:99-178 | for every key, every run from empty buckets with a clock that never goes back and every window of W milliseconds of it, takes granted are at most `burst + (W + ms_per_token - 1) / ms_per_token`, sweeps included |
| RateLimit.ExactWait | crates/server/src/rate.rs:154-178 | after a refusal that names a wait, with no other take of the key, a take succeeds exactly from the named moment on, whatever other keys do |
| RateLimit.BurstThenWait | crates/server/src/rate.rs:154-177 | a key seen for the first time is granted its burst at one moment and then told to wait one period |
| RateLimit.PeriodSharesMinute | crates/server/src/rate.rs:99-106 | the period is the longest whole number of milliseconds that gives the minute its tokens; a minute for a rate of zero, one for a rate past 60 000 |
| RateLimit.SweepLeadsByLess | crates/server/src/rate.rs:132-178 | over every run, buckets that sweep lead buckets that never sweep by less than one token |
| RateLimit.SweepNeverMoreExactly | crates/server/src/rate.rs:158-165 | a bucket swept full and made anew by its key's next take never grants a later take the kept bucket would refuse, exactly when that next take comes a whole number of periods after the kept bucket's last refill |
| RateLimit.PhasesPart | crates/server/src/rate.rs:158-170 | otherwise the two do part: takes up to the end of the kept bucket's period leave both empty, and one period after the first take the bucket made anew grants a take the kept one refuses |
| RateLimit.SweepingRunGrantsMore | crates/server/src/rate.rs:154-178 | such a run of the buckets: over any map of 10 000 keys, another key's call sweeps a full bucket, and out of phase the sweeping map grants a later take that the unswept one refuses |
| RateLimit.DelayIsIntendedExactly | crates/server/src/rate.rs:82-89 | the delay is the doubled one up to the cap for every count of failures but 57 to 61 and 63 to 67, where the shift loses the bits and the delay is nothing |
| RateLimit.DelaysGrow | crates/server/src/rate.rs:82-89 | up to 56 failures the delays never shrink |
| RateLimit.SweepIsInvisible | crates/server/src/rate.rs:41-80 | a limiter that sweeps answers every question as one that never does, over every run with a clock that never goes back |
| RateLimit.FailureHolds | crates/server/src/rate.rs:43-71 | a failure counts one more, up to what 32 bits hold, or one again behind a quiet hour, and its key is held exactly for the delay of that count |
| RateLimit.StreakHolds | crates/server/src/rate.rs:41-89 | over every run from an empty tracker a key is held exactly for the doubled delay of its failures in a row, in literal milliseconds, the failures counted from the run itself: a success or a quiet hour starts them again |
| RateLimit.RowCounts | crates/server/src/rate.rs:53-71 | n failures, each less than an hour behind the last, are a row of n |
| RateLimit.LongestBlock | crates/server/src/rate.rs:43-50 | the answer is the longest block of the keys asked for, and nothing exactly when none of them is held |
| RateLimit.OthersKept | crates/server/src/rate.rs:53-71 | a failure leaves every other key as it is, or sweeps it past 10 000 keys once it was quiet for an hour |
| RateLimit.RefillExact | crates/server/src/rate.rs:115-130 | a refill turns whole periods into tokens up to the burst and keeps the remainder |
| RateLimit.SweptAreFull | crates/server/src/rate.rs:158-165 | a sweep takes out, past 10 000 buckets only, exactly those whose missing tokens have all come back by then |
| RateLimit.CallSpends | crates/server/src/rate.rs:154-177 | each call pays one period of the key's potential per token taken, and time adds no more than itself |
| RateLimit.Buckets.Take | crates/server/src/rate.rs:154-177 | the new map and the answer are those of one call of the specification, sweep included |
| RateLimit.RateLimiter.RecordFailure | crates/server/src/rate.rs:53-71 | the loop over the keys computes the specification's failures, sweep included |
| RateLimit.RateLimiter.RecordSuccess | crates/server/src/rate.rs:74-79 | the loop forgets exactly the keys named |
| Coordinator.EveryRun | apps/web/src/cache/coordinator.ts:153-347 | in every reachable state: each armed timer is the one its listed account holds and no account has two, each listed account has a timer or a poll in flight that arms one or halts everything, a list in force is newer than the last halt, and every write was captured in the generation and the store it lands in |
| Coordinator.StepKeeps | apps/web/src/cache/coordinator.ts:153-444 | every event keeps those four |
| Coordinator.NothingEarlierWrites | apps/web/src/cache/coordinator.ts:264-276 | past any event that moves the generation (a clear, a replaced store, an answer that the session ended), in whatever run follows, no write is under a guard of an earlier generation |
| Coordinator.StepMovesOn | apps/web/src/cache/coordinator.ts:427-444 | the generation moves on by one exactly at a clear, a replaced store or an answer of the generation in force that the session ended, writes only grow, each under the generation it finds, and the list's moment never goes back but at a restart |
| Coordinator.CommitWrites | apps/web/src/cache/coordinator.ts:267-279 | a commit adds exactly one write, that of its guard, when its generation is in force, and changes nothing at all otherwise |
| Coordinator.WritesCounted | apps/web/src/cache/coordinator.ts:264-288 | over every run the writes grow by exactly the commits of the generation in force |
| Coordinator.BegunWorkWrites | apps/web/src/cache/coordinator.ts:264-288 | work begun in any reachable state and persisted with no event between stores its batch |
| Coordinator.PollRound | apps/web/src/cache/coordinator.ts:319-366 | a timer that rings, a poll that answers and its delay: the account ends with one timer, due in ten seconds while it syncs for the first time and in a minute else, and every other account as it was |
| Coordinator.SessionEnds | apps/web/src/cache/coordinator.ts:334-344 | an answer of an earlier generation changes nothing but that its poll is over; one of the generation in force that the session ended empties the accounts, marks the halt, moves the generation, and guards the forgetting of the accounts it stopped under the new one |
| Coordinator.HurriedPolls | apps/web/src/cache/coordinator.ts:303-314 | exactly the accounts that wait and are stale, or the one a job hurries, are due at once; every other timer stays as it is |
| Coordinator.AttachLists | apps/web/src/cache/coordinator.ts:153-246 | a lease in time lists exactly its accounts, keeps those held, makes new ones due at once and guards the forgetting of those that left; a late one changes nothing |
| Coordinator.ReplacedStartsOver | apps/web/src/cache/coordinator.ts:153-246 | a replaced store is the next one and the next generation, and every account of the lease starts over |
| Coordinator.HaltEmpties | apps/web/src/cache/coordinator.ts:436-444 | a halt leaves no account and no timer, marks its moment and moves the generation by one |
| Coordinator.AnswerKeeps | apps/web/src/cache/coordinator.ts:324-347 | an answer of a poll, of whatever generation and outcome, leaves no listed account quiet |
| Coordinator.ListKeeps | apps/web/src/cache/coordinator.ts:226-246 | a list leaves exactly its own accounts listed, each with one timer or its poll |
| Coordinator.Worker.Schedule | apps/web/src/cache/coordinator.ts:290-301 | the account's old timer is cleared and one new one armed with the delay |
| Coordinator.Worker.Stop | apps/web/src/cache/coordinator.ts:400-409 | the account leaves with its timer |
| Coordinator.Worker.SetAccounts | apps/web/src/cache/coordinator.ts:226-246 | the two loops leave the listed accounts, their timers and the guard of the forgetting |
| Coordinator.Worker.StopEach | apps/web/src/cache/coordinator.ts:400-409 | the accounts leave with their timers and no other timer does |
| Coordinator.Worker.Halt | apps/web/src/cache/coordinator.ts:436-444 | every account stops, the moment is marked and the generation moves on |
| Coordinator.Worker.Restart | apps/web/src/cache/coordinator.ts:427-432 | the store counts on, every account stops, and no halt or list is remembered |
| Coordinator.Worker.Attach | apps/web/src/cache/coordinator.ts:153-167 | a lease restarts a replaced store, and lists its accounts exactly when it is no older than the list in force and newer than the last halt |
| Coordinator.Worker.PollNow | apps/web/src/cache/coordinator.ts:307-314 | each account is visited once, and polls at once when it waits and is stale |
| Coordinator.Worker.Focus | apps/web/src/cache/coordinator.ts:303-305 | every account whose last poll began ten seconds ago or earlier polls now |
| Coordinator.Worker.Online | apps/web/src/cache/coordinator.ts:146-149 | every account that waits polls now |
| Coordinator.Worker.PollBegins | apps/web/src/cache/coordinator.ts:319-326 | the account has no timer while its poll is in flight |
| Coordinator.Worker.PollAnswers | apps/web/src/cache/coordinator.ts:324-346 | a poll goes on exactly when it is of the generation in force and the session did not end |
| Coordinator.Worker.PollEnds | apps/web/src/cache/coordinator.ts:346-347 | the poll arms the next timer of its account with the delay of its sync, if that is still listed |
| Coordinator.Worker.Commit | apps/web/src/cache/coordinator.ts:267-279 | a guarded batch is written, as the one write added, exactly when its generation is still the one in force |
| Coordinator.Worker.Clear | apps/web/src/cache/coordinator.ts:462-467 | a clear halts |
| Leases.NoRunReleasesIt | apps/web/src/cache/client.ts:72-137 | in every run of tabs, workers, locks and flushes: while a call of a tab holds, no part of any flush releases a destroy held on that tab's lease |
| Leases.RowStandsExactly | apps/web/src/cache/writes.ts:64-109 | such a row keeps its place in a step exactly unless an answer settles its number or the server ended its email |
| Leases.HeldUntilAnswered | packages/core/src/cache/pending.ts:130-254 | over every run in which no job ends an email whose destroy an answer still holds, each number an answer names is a destroy of its own that waits, and of no other answer |
| Leases.NumbersStayApartExactly | packages/core/src/cache/pending.ts:159-164 | no change ever takes a number a held answer names exactly while the log still reaches past each |
| Leases.AnotherTabsDestroyGoes | packages/core/src/cache/pending.ts:159-199 | otherwise it fails: once a job destroyed the email of a held destroy, the next destroy takes its number and the first tab's release lets the second tab's destroy go |
| Leases.StepKeeps | apps/web/src/cache/client.ts:72-137 | one lock per tab, wanted exactly while a hold stands and one hold per call; a call past its wait has the lease granted; a flush that read the leases saw every holding call's |
| Leases.HoldLasts | apps/web/src/cache/client.ts:111-137 | a hold ends by its own answer or with its tab |
| Leases.WaitingIsAsked | apps/web/src/cache/client.ts:82-118 | a call that waits for its tab's lock comes to be asked by nothing but what the browser does with locks, from every reachable state |
| Leases.LapsedGoOut | packages/core/src/cache/pending.ts:201-210 | past the two steps of a flush no row is held without a lease that was seen, nor on a closed tab's |
| Leases.OwnedKeeps | packages/core/src/cache/pending.ts:130-254 | numbers of held answers stay their own rows' |
| Leases.ApartKeeps | packages/core/src/cache/pending.ts:130-254 | and answers of one account stay apart |
| Leases.SettleRows | packages/core/src/cache/pending.ts:175-254 | an answer that takes back takes each held row of its numbers out of the log, one that lets go leaves each of them held no longer with its lease; every other row, of this account or another, stays as it is |
| Leases.FlushRows | apps/web/src/cache/writes.ts:102-109 | a flush lets go exactly the held rows without a live lease, and what it sends takes out exactly the rows named that are held no longer |
| Leases.FlushRound | apps/web/src/cache/writes.ts:102-109 | a flush in full can run for every account that has none: past it a held row waits on exactly when a browser still holds its tab's lock, the others sent left the log, and the rest of them go out later |
| Leases.ChangeRows | packages/core/src/cache/pending.ts:130-173 | a change numbers its rows behind the last one, holds exactly its destroys on its tab's lease, and its answer names exactly those |
| Leases.EndedLetsGo | apps/web/src/cache/client.ts:101-136 | the end of a hold gives back one hold of its tab, and the lock with the last of them, and touches no other tab |
| Leases.TabLease.HoldLease | apps/web/src/cache/client.ts:82-99 | the first hold asks for the lock, a later one shares it |
| Leases.TabLease.LetLease | apps/web/src/cache/client.ts:101-107 | the last hold to end gives the lock back |
| Leases.PatchLog.MutateMany | packages/core/src/cache/pending.ts:130-173 | rows are numbered behind the last one, the destroys held on the lease |
| Leases.PatchLog.ReleaseWhere | packages/core/src/cache/pending.ts:175-190 | exactly the picked rows are held no longer |
| Leases.PatchLog.ReleaseHeld | packages/core/src/cache/pending.ts:193-199 | the held rows of the numbers named stay in the log, held no longer and with their leases; no other row changes |
| Leases.PatchLog.ReleaseLapsed | packages/core/src/cache/pending.ts:204-210 | exactly the held rows without a live lease go out |
| Leases.PatchLog.DropHeld | packages/core/src/cache/pending.ts:246-254 | the held rows of the numbers named leave the log; a released one and every other stay as they are |
| SenderIndex.IndexAgrees | apps/web/src/cache/db.ts:223-338 | over any table and any run of batches, reads and their steps, whenever no batch sits between its transaction and its continuation the held sender facts are absent or exactly those of the header table |
| SenderIndex.RefoldAgrees | apps/web/src/cache/db.ts:304-338 | batches already in a later snapshot may land on it again: the last write wins |
| SenderIndex.EffectsSettle | apps/web/src/cache/db.ts:323-338 | a run of batches leaves an id as it is or as it will, whatever stood there |
| SenderIndex.StepKeeps | apps/web/src/cache/db.ts:256-338 | every step keeps held facts and reads under the current count such that the batches still to land make them the table's |
| SenderIndex.FoldAgreesExactly | apps/web/src/cache/db.ts:116-128 | folding a batch equals reading the table anew exactly when no row it leaves fails its schema |
| SenderIndex.RereadHolds | apps/web/src/cache/db.ts:306-318 | a read that nothing overtakes holds, for each id, the fact of its row exactly when that row passes its schema |
| SenderIndex.ReadHeldExactly | apps/web/src/cache/db.ts:306-318 | a read is held exactly when no batch came since it began, and changes nothing else |
| SenderIndex.InvalidRowHeld | apps/web/src/cache/db.ts:116-128 | a row put that fails its schema is held in memory and read from no table |
| SenderIndex.DestroyDuringReadExactly | apps/web/src/cache/db.ts:296-302 | a read that a destroy overtakes leaves facts that agree with the emptied table exactly when a batch overtook it too or it had seen no row |
| SenderIndex.DestroyedHeaderKept | apps/web/src/cache/db.ts:296-318 | a header read, the database destroyed, the header's fact kept |
| SenderIndex.DestroyWhileLandingExactly | apps/web/src/cache/db.ts:281-338 | a destroy between transactions and their continuations, with the table read anew ahead of these, leaves facts that agree with the emptied table exactly when one of those batches drops the facts or none leaves a row |
| SenderIndex.DestroyedHeaderLands | apps/web/src/cache/db.ts:281-338 | a header written, the database destroyed and read, the header landing in memory beside an empty table |
| SenderIndex.Remove | apps/web/src/cache/db.ts:323-334 | the loop removes exactly the ids named |
| SenderIndex.PutRows | apps/web/src/cache/db.ts:134-141 | the loop puts rows, the last one of an id winning |
| SenderIndex.PutFacts | apps/web/src/cache/db.ts:335-337 | the loop puts the facts of rows, the last one of an id winning |
| SenderIndex.DexieMailStore.Transact | apps/web/src/cache/db.ts:256-280 | the account's table takes the batch, other accounts stay |
| SenderIndex.DexieMailStore.Land | apps/web/src/cache/db.ts:281-284 | the continuation counts a batch that touched headers and folds it, other accounts stay |
| SenderIndex.DexieMailStore.ApplySenderFacts | apps/web/src/cache/db.ts:323-338 | held facts take the batch, a reset drops them, absent ones stay absent |
| SenderIndex.DexieMailStore.ReadBegins | apps/web/src/cache/db.ts:306-307 | a read captures the count of now |
| SenderIndex.DexieMailStore.ReadRows | apps/web/src/cache/db.ts:308-313 | a read sees the facts of every row that passes its schema |
| SenderIndex.DexieMailStore.ReadEnds | apps/web/src/cache/db.ts:314-317 | a read is kept exactly when no batch overtook it |
| SenderIndex.DexieMailStore.Destroy | apps/web/src/cache/db.ts:296-302 | tables and facts go, the counts and the reads in flight stay |
| BlobDecode.StreamedIsWhole | crates/imap-bridge/src/blob/decode.rs:85-121 | for identity, base64 and quoted-printable without a long line: decoding a body in any windows is decoding it in one piece |
| BlobDecode.PushGoesOn | crates/imap-bridge/src/blob/decode.rs:89-121 | the edge of a window changes nothing of what is still to come |
| BlobDecode.MendedSplit | crates/imap-bridge/src/blob/decode.rs:131-160 | mending a quoted-printable body is a matter of whole lines |
| BlobDecode.OpensWithin | crates/imap-bridge/src/blob/decode.rs:150-164 | no equals sign looks past the break that ends its line |
| BlobDecode.QuartetsCut | crates/imap-bridge/src/blob/decode.rs:171-187 | what stands ahead of the cut is whole quartets, what is carried is fewer than four symbols |
| BlobDecode.AlphabetKept | crates/imap-bridge/src/blob/decode.rs:93-107 | of base64 exactly letters, digits, `+`, `/` and `=` reach the decoder, in order, whatever stands between them |
| BlobDecode.MendedEquals | crates/imap-bridge/src/blob/decode.rs:136-164 | an equals sign stands when two hexadecimal digits or a blank end of line follow it, and is written `=3D` otherwise |
| BlobDecode.MendedBreak | crates/imap-bridge/src/blob/decode.rs:136-148 | a line feed behind a CR stands, any other becomes CRLF |
| BlobDecode.ShortMeansThousand | crates/imap-bridge/src/blob/decode.rs:194-206 | the lines a body keeps short are those that break within every thousand bytes |
| BlobDecode.Quartets | crates/imap-bridge/src/blob/decode.rs:171-187 | the counting loop finds the end of the last whole quartet, a pad ending one early |
| BlobDecode.Lines | crates/imap-bridge/src/blob/decode.rs:189-206 | the cut is behind the last line break; in a long line it is ahead of an escape or CR it would split |
| BlobDecode.Mend | crates/imap-bridge/src/blob/decode.rs:131-148 | the loop writes a stray equals sign as its escape and a bare line feed as CRLF |
| BlobDecode.Decoder.Push | crates/imap-bridge/src/blob/decode.rs:85-121 | carried bytes and content are those of the specification for every encoding |
| BlobStream.EveryRun | crates/imap-bridge/src/blob.rs:94-107 | in every run of producer, channel and reader, failures and deaths included: what is answered begins the decoded body; an end with no error ahead of it comes behind all of it and only for a body that fits; an error no failure explains is `TooLarge` of a body that does not fit; behind the first end or error nothing but ends is answered |
| BlobStream.NextReads | crates/imap-bridge/src/blob.rs:271-294 | a window carries the read on or ends it with all the rest, a body of whole windows included; it is refused only when the body does not fit the limit or the offsets |
| BlobStream.OpensKept | crates/imap-bridge/src/blob.rs:140-160 | a blob opens with its first window kept; one refused there does not fit |
| BlobStream.StepKeeps | crates/imap-bridge/src/blob.rs:394-419 | every step keeps the pieces answered, in hand, in the channel and still to read together the whole body |
| BlobStream.OrphanEndsInTask | crates/imap-bridge/src/blob.rs:98-104 | a producer that died ahead of its closing step leaves the reader with what it sent and then `Task` |
| BlobStream.StepEnds | crates/imap-bridge/src/blob.rs:394-419 | every step but an answer past the end leaves less to do, so the reads end |
| BlobStream.NeverStuck | crates/imap-bridge/src/blob.rs:394-419 | until the reader has its end or its error some step that is no failure can be taken |
| BlobStream.ReadsToTheEnd | crates/imap-bridge/src/blob.rs:94-419 | every blob that opened can be read to its end without a failure, and then it is answered whole when its body fits the limit and the offsets, and breaks off as `TooLarge` when not |
| BlobStream.ReadsAheadWithin | crates/imap-bridge/src/blob.rs:36-44 | over every run three windows at most stand in the channel, and while somebody reads, only three of them keep a piece in hand from following |
| BlobStream.FailureTold | crates/imap-bridge/src/blob.rs:403-410 | a failing read is what the reader is told behind all it was still to be given |
| BlobStream.Reader.TookWindow | crates/imap-bridge/src/blob.rs:273-294 | offset, carried bytes, content and end of one window are those of the specification; a refused one moves nothing |
| BlobStream.Blob.Next | crates/imap-bridge/src/blob.rs:94-107 | each answer and the fused state behind it are those of the protocol's answer step |
| PlainText.Quoted | apps/web/src/mail/plain-text.tsx:161-182 | the leaves in order are exactly the runs, each under exactly its level of quotes; no quote is empty or beside another |
| PlainText.OneWayToQuote | apps/web/src/mail/plain-text.tsx:161-182 | those properties leave one tree only |
| PlainText.Level | apps/web/src/mail/plain-text.tsx:166-180 | one level takes exactly the runs up to the first one above it |
| PlainText.RunsOf | apps/web/src/mail/plain-text.tsx:74-89 | all lines in at most 2000 runs: below the bound depth and text of each line read back, past it the rest stands as written; neighbours differ in depth |
| PlainText.WrittenWithMarks | apps/web/src/mail/plain-text.tsx:69-72 | a quoted line is written as one mark for each level, a space and its text; one outside every quote as its text |
| PlainText.DrawsItsLines | apps/web/src/mail/plain-text.tsx:149-154 | the drawn text cuts back into the lines of its run, with one more behind an empty last line |
| PlainText.FirstLines | apps/web/src/mail/plain-text.tsx:30-39 | the text is cut behind its 50 000th line break exactly when text follows it |
| PlainText.Budget.Searched | apps/web/src/mail/plain-text.tsx:99-107 | all of the text while the budget lasts, else the longest whole lines that fit |
| PlainText.Budget.Linked | apps/web/src/mail/plain-text.tsx:122-147 | the pieces join to the text, and the links are the first ones the policy keeps, as many as the budget has |
| PlainText.LinkMatches | apps/web/src/mail/plain-text.tsx:122-147 | the loop over matches loses no text and draws the first links kept |
| PlainText.ChosenAre | apps/web/src/mail/plain-text.tsx:122-147 | a match draws its link exactly when the policy keeps it and fewer kept ones stand ahead of it than the budget has |
| PlainText.DrawRuns | apps/web/src/mail/plain-text.tsx:189-201 | over all runs of a message the links stay within 2000 and the searched units within 262 144, and every run's text is drawn whole |
| Patch.PathRoundTripExactly | packages/core/src/cache/patch.ts:13-35 | a path names the member it was written for exactly when the key is not empty, through the escapes of section 3 of RFC 6901 |
| Patch.PathWritten | packages/core/src/cache/patch.ts:13-17 | a path is `keywords/` or `mailboxIds/` and the key with `~0` for a tilde and `~1` for a slash |
| Patch.UndoneExactly | packages/core/src/cache/patch.ts:37-58 | the inverse takes a patch back over every state exactly when no two of its paths name one member |
| Patch.ReplayUndone | packages/core/src/cache/patch.ts:71-94 | rows replayed over a state and undone newest first leave it as it was, destroys among them, for all rows whose paths name members, none of them twice in a row |
| Patch.EmptiedLeaves | packages/core/src/cache/patch.ts:60-65 | a destroy leaves an email in no mailbox and its keywords alone |
| Patch.TwoSpellings | packages/core/src/cache/patch.ts:19-35 | two spellings of one keyword exist |
| Patch.TwoSpellingsStay | packages/core/src/cache/patch.ts:37-58 | a patch of both, laid over an email without the keyword and taken back, leaves the keyword there |
| Patch.PatchedHas | packages/core/src/cache/patch.ts:37-58 | a member is set as the last entry for it says, and as before where none names it |
| Patch.Lay | packages/core/src/cache/patch.ts:37-58 | the loop computes the patched state and the inverse together |
| Actions.ActionReadsBack | packages/core/src/actions.ts:164-209 | for every list with ids that stand once, every change an offered action builds reads back through `verbOf` as that action |
| Actions.MoveReadsBack | packages/core/src/actions.ts:211-220 | a picked move reads as not spam from Junk to the inbox, as archive into the archive, as a move otherwise |
| Actions.ActionMoves | packages/core/src/actions.ts:137-153 | every moving action's patch takes an email out of the mailbox shown and into the one of the action's role, leaves its others alone, never leaves it in none, and can be taken back |
| Actions.PickedMoves | packages/core/src/actions.ts:211-220 | so does every picked move |
| Actions.MoveBuilt | packages/core/src/actions.ts:69-100 | a moving action is built for every member, into another mailbox of its role; not spam exactly in Junk |
| Actions.MoveReads | packages/core/src/actions.ts:288-305 | a move reads by the role of the mailbox it enters, whatever keywords it writes |
| Actions.ActionBuilds | packages/core/src/actions.ts:80-209 | an action builds changes exactly where the rights of the mailboxes and their roles let it run: one for every member in order, for unread and star one for the newest, destroys for delete forever only |
| Actions.MoveBuilds | packages/core/src/actions.ts:93-97 | a picked move is built for every member exactly where the mailbox shown lets mail go and the other one, neither shown nor a bin, lets it in |
| Actions.ActionMarks | packages/core/src/actions.ts:112-198 | of the keywords an action writes exactly its own: seen, flagged, or junk and not junk where they may be set; what does not move leaves the mailboxes alone |
| Actions.MovedBetween | packages/core/src/actions.ts:247-266 | the loop collects the mailboxes entered and left in order |
| Identity.EveryRun | crates/server/src/identity.rs:61-303 | over every run each organization keeps an owner and each login names one user; while nothing was pruned, replaying an organization's events rebuilds exactly its users' roles and instance-admin flags, each event starting from what stood |
| Identity.StepKeeps | crates/server/src/identity.rs:61-361 | every operation, refused ones included, keeps an owner per organization and logins unique |
| Identity.StepRebuilds | crates/server/src/identity.rs:61-303 | every operation keeps log and users in step |
| Identity.RolesCapped | crates/server/src/identity.rs:100-257 | no step takes a user out or changes its login or organization, and every role given or changed is an actor's of the same organization who is no member, an admin never giving or taking the owner's |
| Identity.RoleLands | crates/server/src/identity.rs:213-257 | a role change is refused in the source's order or sets that one role and appends its event, told on users and log alone |
| Identity.UserLands | crates/server/src/identity.rs:117-141 | a new user is refused for the grant or the login or stands with its event |
| Identity.SystemLands | crates/server/src/identity.rs:61-304 | a personal user founds its organization and owns it; a flag lands on the user of its login; both with their events, or nothing changes |
| Identity.PruneRecords | crates/server/src/events.rs:203-243 | a prune removes of each organization as many rows as its one notice says, leaves no notice elsewhere and answers their sum |
| Identity.PruneRebuildsExactly | crates/server/src/events.rs:203-225 | with a clock that never went back, a pruned log still rebuilds every organization's users exactly when no row it lost said anything of a user |
| Identity.Store.CreatePersonalUser | crates/server/src/identity.rs:61-94 | a user owning a new organization with its two events, or nothing at all for a taken login |
| Identity.Store.InsertOrganizationUser | crates/server/src/identity.rs:117-141 | a user no higher than the actor, with its event |
| Identity.Store.SetRole | crates/server/src/identity.rs:213-257 | the role changes within the ceilings and never from the last owner; the refusals in the source's order |
| Identity.Store.SetInstanceAdmin | crates/server/src/identity.rs:279-304 | the flag and its event, or nothing where it stands that way |
| Identity.Store.EnsureAnotherOwner | crates/server/src/identity.rs:306-321 | counts whether another owner of the organization is left |
| Identity.Store.InsertUser | crates/server/src/identity.rs:323-361 | a new user exactly when its login is free |
| Identity.Store.RemovedPerOrganization | crates/server/src/events.rs:227-241 | the rows each organization is about to lose, and only organizations that lose some |
| Identity.Store.DeleteExpired | crates/server/src/events.rs:212-215 | exactly the rows older than the cutoff go, in order |
| Identity.Store.AppendNotices | crates/server/src/events.rs:216-222 | one notice per organization that lost rows, and their sum |
| Identity.Store.PruneLog | crates/server/src/events.rs:208-225 | the log is the rows kept and the notices; the answer is the rows removed |

## Left out

- BodyQueue.FetchSettlesOnce: does not model the values that a fetch resolves to, only how each one ends.
- Coordinator.EveryRun: does not model that a timer rings no sooner than its delay, posts to the tabs, the watches, or the stop of the write and job timers; a poll's reads and its reconciliation are one answer, and whether an account syncs for the first time is a parameter.
- Coordinator.Worker.SetAccounts: does not model the sweep of stored accounts behind a fresh list beyond the guard it takes.
- Leases.HeldUntilAnswered: does not model the rows' patches and emails; a destroy is its number, whether it is held and its lease. A forgotten account is a job that ends all its rows.
- Leases.LapsedGoOut: does not model when a flush comes, only what it does.
- SenderIndex.IndexAgrees: does not model another worker that writes to the same database, nor the tables beside the headers; a destroy lands with no batch between its steps and no read in flight that saw a row, and rows put pass their schema.
- RateLimit.WindowBound: does not model a poisoned lock, and takes clocks from 1970 on.
- BlobStream.EveryRun: does not model the folder, the session and the deadline of a turn; any failure of theirs is a failing read. The size a row or a structure states ahead of the first window is not part of this model.
- BlobDecode.StreamedIsWhole: a quoted-printable line of 1000 bytes or more is cut where it stands, which the decoder documents as its exception; the cut itself is modelled.
- PlainText.DrawRuns: does not model the splitting of a text into quoted lines, nor elements and their keys beyond a quote's first run.
- Actions.ActionReadsBack: ids are not empty and stand once in a list; the jobs of a folder and the keys of `actionFor` are not part of this model.
- Identity.EveryRun: other events of the log are one kind that says nothing of a user; credentials, sessions and the listing queries are not part of this model.
- Interface components, routing, HTTP clients, schema checks, TLS, SMTP, sealing, configuration and the URL parser behind the link policy are not part of this model.
- The search of mail, the folder jobs, the sync of changes and the settling of a refused flush are not part of this model.
