# Verified model of the ad-blocking extension and its companion

This project models, in Dafny, the parts of the program in which a compiled or stored form must agree with a simple
meaning, and proves that it does.

* **Subscription compiler** (`NetworkFilter`, `NetworkMeaning`, `NetworkText`, `NetworkWords`, `ScopeText`, `Chunks`,
  `Packing`, `Diagnostics`, `SubscriptionCompiler` and the `Subscription…` modules beside it). Filter lines become browser
  rules. The model gives rules a denotation (`Dnr`: which requests a rule applies to, and the verdict of a rule set by
  highest priority) and gives lines one of their own, spelled in the words of their text (`NetworkText.Targets`,
  `NetworkText.AllowsKind`, `ScopeText.Admits`, `SubscriptionCosmetics.AsksToHide`). The main results: packing hosts into
  groups never changes a verdict; without suppression and drops exactly those requests are blocked that an uncancelled
  plain line describes and no uncancelled exception exempts, and in general never more; exactly that is hidden which some
  line asks for and every line of every list permits; a `badfilter` cancels its target whatever the order of modifiers,
  lines and lists, exactly when the target has no hiding modifier and the badfilter line is an exception or at most 2,048
  bytes long; the rules, hiding rules and diagnostics as a whole pass the extension's own validator, and the report does
  for up to 200,000 lines.
* **Extension controller** (`Controller` and the `Controller…` modules, `Picker`). The journalled commit over extension
  storage and browser rules is a state machine with one step per `await`; calls fail or succeed as a whole, the worker
  may die before any step, jobs and a refresh interleave freely. Safety holds over every run; what each job makes of the
  configuration, that a job whose calls succeed is done, and that a commit one of whose calls fails changes nothing, are
  proved beside it.
* **DNS policy** (`DnsPolicy`, `DnsText`, `DnsCompile`, `DnsVerdict`). The folded host tables and the suffix walk are
  shown to decide exactly as a specification over the set of list lines, which `DnsText` reads from their text.
* **DNS cache** (`DnsCache`, `DnsCacheRuns`, `DnsCacheHits`). A class with a map and a deque refines a bounded list,
  oldest first; what is accepted, for how long, and when it is served are exact, and times to live never grow (section 5
  of RFC 2308).
* **The local compiler** (`LocalRules`, `LocalCompiler`, `LocalMeaning`, `LocalEffects`). A compiled list blocks, lets
  through and hides exactly what its lines say, and does so in the browser once saved.
* **Snapshot paging** (`Paging`, `PagingClient`), **the selector grammar** (`Selector`) and **the extension's validator**
  (`Validator`), with the round trip between the two programs and the agreement of their separately written checks.

`Text`, `Hosts`, `UrlFilter`, `Dnr` and `Reasons` hold what the components share. `dafny verify dfyconfig.toml` checks
everything, under a resource limit for each proof.

How some things are represented:

* A string is a sequence of Unicode scalar values. Rust's byte length is `Utf8Len`, JavaScript's `length` is `Utf16Len`.
* The compilers key rules by their canonical serialisation, so a rule map is a set of rules compared by structure. Domain
  lists, which are sorted and free of duplicates, are sets, and an absent list is the empty set. The two orders in which
  resource types may be listed are kept apart, because they serialise differently.
* Loops over text run over lines already cut and classified; the classification of a line is a function with the
  branches of the loop body.
* Some promises fail for some inputs, and the model keeps the code as it is:
  * An exception with `generichide` or `elemhide` and a network modifier adds a rule that its own `badfilter` does not
    cancel (`SubscriptionGaps.HidingCounterexample`), and a plain badfilter line over 2,048 bytes is refused although its
    shorter target was read (`SubscriptionGaps.LongCounterexample`). `SubscriptionBadfilter.BadfilterCancels` is the
    exact condition.
  * A badfilter line loses every `$` at its end, so one may name a line other than its own
    (`SubscriptionGaps.DollarCancels`).
  * The guard of an exception that cannot be translated is the rule of the bare exception, so the badfilter of the bare
    exception removes it, in whatever list it stands (`SubscriptionGaps.GuardLost`). `ExceptionsHonoured` therefore asks
    that nothing cancelled the exception's rules.
  * An exception line with a `#` in it is read as cosmetic or extended syntax and leaves neither rule, guard nor
    suppression (`SubscriptionPromises.ExceptionsAct`, `SubscriptionPromises.FragmentExceptionDropped`).
  * The companion accepts 300,000 lines a list, but the extension refuses a report with a counter above 600,002, and one
    line can raise three diagnostics (`SubscriptionManifest.FewLinesAccepted`, `SubscriptionManifest.ManyLinesRefused`).
* The picker's undo removes the first occurrence of a block that can overlap itself by one newline. It is therefore not
  exact for every text: `Picker.UndoRestores` gives the exact condition and `Picker.UndoCanDamage` a text for which it
  fails. With a token that is new to the text it always is exact (`Picker.FreshTokenUndo`).

## Model

| member | source | states |
|---|---|---|
| `UrlFilter.HostAnchorIsSuffixMatch` | companion/src/subscription_rules.rs:234-237 | with anchors, wildcards and separators given their matching meaning, a host anchor (two bars, the host, `^`) matches a URL exactly when its host is that host or a subdomain of it, in any case |
| `UrlFilter.MatchesIgnoresCase` | companion/src/subscription_rules.rs:477-479 | what any pattern matches with case it matches without, so a guard without `match-case` covers an exception with it |
| `Hosts.HostsAgree` | extension/src/shared/types.ts:50-52 | a host passes the companion's check exactly when, lower-cased, it passes the extension's regular expression |
| `Text.TrimIs` | companion/src/subscription_rules.rs:304 | `trim` takes the white space off both ends and nothing else |
| `Text.LinesRead` | companion/src/subscription_rules.rs:303 | lines without line feeds are read back as they were written; what follows the last line feed is a line if it is not empty |
| `Hosts.MatchesDomainIffSuffix` | extension/src/shared/types.ts:56 | the string test for a subdomain holds exactly when the domain is the rest of the host from some label on |
| `Dnr.OffersDecide` | companion/src/subscription_rules.rs:224-225 | the verdict on a request depends only on the action and priority pairs of the rules that apply |
| `NetworkFilter.Scopes` | companion/src/subscription_rules.rs:24-48 | the loop over a scope yields the lower-cased included and excluded domains, or refuses an invalid or over-long scope |
| `NetworkFilter.ParseModifiers` | companion/src/subscription_rules.rs:102-160 | the loop over the modifiers, with its early exits, computes the filter state whose meaning the next rows give |
| `ScopeText.ScopeReads` | companion/src/subscription_rules.rs:24-48 | a scope is accepted exactly when every entry names a valid host and neither plain nor negated entries name more than 200; its two sets are their lower-cased names |
| `ScopeText.ScopeAdmits` | companion/src/subscription_rules.rs:30-40 | the two sets admit a host exactly when the text does: no negated entry covers it, and some plain entry does or there is none |
| `NetworkMeaning.CombineAsBag` | companion/src/subscription_rules.rs:102-160 | modifiers are accepted exactly when, as a bag, each is supported, none repeats and no two conflict; the resulting state says of each modifier what it asks for |
| `NetworkMeaning.ModifierOrderIrrelevant` | companion/src/subscription_rules.rs:93-188 | under any permutation of its modifiers a filter succeeds or fails alike, with the same rules |
| `NetworkText.LineReads` | companion/src/subscription_rules.rs:93-188 | the rules of a line that compiles match exactly the requests that the words of its text describe: pattern with or without case, party, initiator domains and types of resource; `document` adds whole frames under the same words |
| `NetworkText.LineAccepted` | companion/src/subscription_rules.rs:93-177 | a line compiles exactly when its pattern is valid, every word is known, no name repeats, at most one word is about the party, and some type of resource is left |
| `NetworkText.PatternReads` | companion/src/subscription_rules.rs:50-67 | a pattern is valid exactly when it is a nonempty core without bars between its anchors, plain, within 2,048 bytes, no regular expression and no wildcard for a host |
| `NetworkWords.PartyLine` | companion/src/subscription_rules.rs:112-127 | each of the eight party words by itself restricts a line to the requests of its party |
| `NetworkWords.CaseLine` | companion/src/subscription_rules.rs:128-130 | `match-case` by itself restricts it to what the pattern matches with case |
| `NetworkWords.TypeLine` | companion/src/subscription_rules.rs:76-91 | each of the twelve type words by itself restricts it to that type of resource |
| `NetworkWords.NegatedTypeLine` | companion/src/subscription_rules.rs:147-172 | and with `~` to every other type but pages |
| `NetworkWords.DomainLine` | companion/src/subscription_rules.rs:134-146 | `domain=d` restricts it to initiators at or below d, and `domain=~d` to all others |
| `NetworkWords.DocumentLine` | companion/src/subscription_rules.rs:131-133 | `document` on an exception lets through the pages that its pattern matches with all in them, and no other request |
| `NetworkWords.BareLine` | companion/src/subscription_rules.rs:93-188 | a line without modifiers matches everything but pages that its pattern matches, without case |
| `SubscriptionLines.FormShape` | companion/src/subscription_rules.rs:298-502 | every line contributes block rules at priority 1 only, or allowing rules at priority 2 only if it is an exception, all of them unpacked |
| `Chunks.Chunk` | companion/src/subscription_rules.rs:254-256 | the hosts are cut into disjoint groups of 1 to 1,000 that together are all of them, in as few groups as possible |
| `Packing.FullHostIs` | companion/src/subscription_rules.rs:226-239 | exactly the patterns of two bars, a valid host and `^` are packable |
| `Packing.Group` | companion/src/subscription_rules.rs:226-253 | the first loop keeps unpackable rules and collects, for each rule without its pattern, exactly the lower-cased hosts of its packable rules |
| `Packing.PackNetwork` | companion/src/subscription_rules.rs:226-263 | unpackable rules stay, every group has 1 to 1,000 hosts of its own template, no host is lost, none is listed twice, and each template has as few groups as its hosts allow |
| `Packing.PackingPreservesMeaning` | companion/src/subscription_rules.rs:224-263 | for every request the packed rules offer the same actions at the same priorities as the unpacked ones, so the verdict is the same |
| `Packing.PackingShrinks` | companion/src/subscription_rules.rs:224-263 | packing never yields more rules than it was given |
| `Diagnostics.Log.Add` | companion/src/subscription_rules.rs:198-211 | every diagnostic is counted in total and by reason; the kept sample is the specified one |
| `Diagnostics.SampleBounds` | companion/src/subscription_rules.rs:198-211 | the sample of any log has at most 200 entries and at most five for one reason |
| `Diagnostics.SampleWhole` | companion/src/subscription_rules.rs:198-211 | a log within both limits is kept whole and in order |
| `SubscriptionCompiler.CollectGathers` | companion/src/subscription_rules.rs:298-502 | after any lines, each collected set and flag holds exactly what some single line contributes |
| `SubscriptionCompiler.ScanLines` | companion/src/subscription_rules.rs:298-502 | the loop over one source extends the collected state, its statistics, the origins of its hiding rules and the diagnostics by exactly its lines |
| `SubscriptionCompiler.EveryLineCounted` | companion/src/subscription_rules.rs:293-502 | each line is counted in exactly one class, and the hiding rules are the lines of the cosmetic class |
| `SubscriptionCompiler.SortRules` | companion/src/subscription_rules.rs:514 | the order lists every rule once with all exceptions before all blocks |
| `SubscriptionCompiler.Emit` | companion/src/subscription_rules.rs:506-528 | suppression removes the blocks; the budget cut drops blocks only, fills the budget, and fails exactly when the exceptions alone exceed it |
| `SubscriptionCompiler.EmitCosmetics` | companion/src/subscription_rules.rs:532-560 | the scoped hiding rules that must not be left out are emitted once each with the first line that asks for them; those left out are counted and diagnosed in order |
| `SubscriptionCompiler.CompileSubscriptions` | companion/src/subscription_rules.rs:265-572 | success means acceptable sources and an output made from exactly their lines, with the sample of all their diagnostics; failure means unacceptable sources or too many exceptions for the budget |
| `SubscriptionSafety.EmissionSafe` | companion/src/subscription_rules.rs:506-526 | suppression and the budget cut never turn a request into a blocked one, and change nothing when nothing is suppressed or dropped |
| `SubscriptionSafety.OutputSound` | companion/src/subscription_rules.rs:503-526 | a blocked request is matched by a surviving block rule of some line and by no surviving exception of any line, and no line suppressed blocks |
| `SubscriptionSafety.OutputExact` | companion/src/subscription_rules.rs:503-526 | without suppression and within the budget every request gets the verdict of the surviving translated lines |
| `SubscriptionSafety.LineOrderIrrelevant` | companion/src/subscription_rules.rs:286-505 | lines and sources in any order and repetition collect the same rules, cancellations and exemptions |
| `SubscriptionPromises.BlockOrigin` | companion/src/subscription_rules.rs:460-468 | a block rule comes from a supported plain line whose text describes every request the rule applies to |
| `SubscriptionPromises.GuardCovers` | companion/src/subscription_rules.rs:474-485 | guards let through every request to a URL the pattern matches, in either case, and the page-wide one covers frame requests |
| `SubscriptionPromises.FrameGuardCovers` | companion/src/subscription_rules.rs:480-483 | the page-wide guard lets through everything inside a frame that the pattern matches |
| `SubscriptionPromises.NeverOverBlocks` | companion/src/subscription_rules.rs:265-572 | a request the output blocks is described by a supported block line that was not cancelled, and no surviving rule or guard of any exception line that reaches the network filters applies to it |
| `SubscriptionPromises.ExceptionsHonoured` | companion/src/subscription_rules.rs:460-526 | unless a badfilter of it or of another line cancelled one of its rules, an exception line lets through every request its text exempts; if it cannot be translated, every request to URLs its pattern matches and, if page-wide, everything inside matched frames; all requests if even the pattern is unusable |
| `SubscriptionPromises.BlockedExactly` | companion/src/subscription_rules.rs:265-572 | when no line suppresses blocks and none is dropped, a request is blocked if and only if an uncancelled supported plain line describes it and no exception line exempts it |
| `SubscriptionPromises.ExemptExactly` | companion/src/subscription_rules.rs:460-502 | an exception of which nothing is cancelled exempts exactly the requests that its text, or the guard in its place, stands for |
| `SubscriptionText.FilterReads` | companion/src/subscription_rules.rs:305-372 | a line is read as a filter or badfilter exactly when it is no comment, has no `#`, and is an exception or at most 2,048 bytes long |
| `SubscriptionText.BlockLineReads` | companion/src/subscription_rules.rs:305-468 | the lines that can block are exactly the filters that are no exceptions and whose text is good |
| `SubscriptionText.CommentsDoNothing` | companion/src/subscription_rules.rs:306-309 | empty lines, comments and headers contribute nothing |
| `SubscriptionText.HidingOnlyMeans` | companion/src/subscription_rules.rs:394-447 | an exception has no network side exactly when all its modifiers are about hiding or mere context, and then adds no rule and suppresses nothing |
| `SubscriptionText.TranslationReads` | companion/src/subscription_rules.rs:424-447 | what is translated of any other exception keeps its mark, its pattern and every other modifier |
| `SubscriptionText.LineClassIs` | companion/src/subscription_rules.rs:298-502 | a line is counted as cosmetic exactly when it asks to hide something, and as network exactly when it is translated |
| `SubscriptionPromises.ExceptionsAct` | companion/src/subscription_rules.rs:315-502 | an exception line that is no badfilter adds a rule, suppresses blocks or exempts pages from hiding if and only if it has no `#` |
| `SubscriptionPromises.FragmentExceptionDropped` | companion/src/subscription_rules.rs:356-365 | the failing family: an exception with one `#` anywhere after its mark is dropped as extended syntax |
| `SubscriptionCosmetics.HidingLineReads` | companion/src/subscription_rules.rs:336-358 | a hiding line asks for one rule whose own scope covers exactly the hosts that the entries before its `##` admit; a refused one, and any other line, asks for none |
| `SubscriptionCosmetics.PermitsReads` | companion/src/subscription_rules.rs:315-459 | a line prevents hiding exactly where its text does: a `#@#` for the selector, or an exception's `document`, `elemhide` or `generichide` with the pages it names |
| `SubscriptionCosmetics.HiddenIsAsked` | companion/src/subscription_rules.rs:530-560 | whatever is hidden on a host is asked for by some line and permitted by every line of every list |
| `SubscriptionCosmetics.HiddenExactly` | companion/src/subscription_rules.rs:530-560 | when no hiding rule is dropped over the limit, exactly what some line with few enough exclusions asks for and every line permits is hidden |
| `SubscriptionCosmetics.ShownByLine` | companion/src/subscription_rules.rs:336-358 | a shown rule comes from a line of some list with the same selector whose scope entries admit the host |
| `SubscriptionCosmetics.ScopedLine` | companion/src/subscription_rules.rs:24-48 | `d##s` asks to hide on d and its subdomains only, and `~d##s` everywhere else |
| `SubscriptionCosmetics.ExceptedLine` | companion/src/subscription_rules.rs:24-48 | `d,~e##s` asks to hide on d and its subdomains except e and its subdomains |
| `SubscriptionCosmetics.GenericLine` | companion/src/subscription_rules.rs:336-358 | `##s` asks to hide everywhere |
| `SubscriptionCosmetics.ExemptionsHold` | companion/src/subscription_rules.rs:315-459 | no emitted rule hides a selector where a scoped `#@#` covers it, nor anything on a `document` or `elemhide` page, nor a generic rule on a `generichide` page; exemptions that name no page leave no such rule |
| `SubscriptionCosmetics.AnchoredHostIs` | companion/src/subscription_rules.rs:69-74 | an exemption names the host between the two bars of its pattern and the first `^` or `/` |
| `SubscriptionText.FirstDomainIs` | companion/src/subscription_rules.rs:403-412 | of several `domain=` modifiers the first names the pages of an exemption |
| `SubscriptionBadfilter.BadfilterCancels` | companion/src/subscription_rules.rs:310-393 | of a line that compiles, the badfilter line with its mark and pattern and its modifiers in any order cancels exactly the line's rules if and only if the line has neither `generichide` nor `elemhide` and the badfilter line is an exception or at most 2,048 bytes; otherwise it cancels nothing |
| `SubscriptionBadfilter.CancelledEverywhere` | companion/src/subscription_rules.rs:503-505 | in the first case no rule of the line survives in any list, before or after the badfilter |
| `SubscriptionBadfilter.UncancelledSurvives` | companion/src/subscription_rules.rs:310-447 | in the second case all rules of the line survive all its badfilters, unless the badfilter of another line cancels one of them |
| `SubscriptionBadfilter.BadfilterNames` | companion/src/subscription_rules.rs:369-393 | whatever its target, a badfilter line that is read cancels exactly the rules, if any, of a line with its mark, its pattern and, in any order, the modifiers it keeps after `badfilter` and every final `$` are taken off |
| `SubscriptionBadfilter.RefusedTarget` | companion/src/subscription_rules.rs:380-393 | the badfilter of a line that does not compile cancels nothing unless its remaining modifiers end in `$` |
| `SubscriptionGaps.HidingCounterexample` | companion/src/subscription_rules.rs:369-447 | a failing family: for every valid host, such as that of `SubscriptionGaps.AdsExample`, the host-anchored exception with `elemhide,script` adds a rule, and its badfilter cancels nothing |
| `SubscriptionGaps.LongCounterexample` | companion/src/subscription_rules.rs:310-314 | a failing family: for every plain pattern of 2,032 to 2,041 bytes, such as that of `SubscriptionGaps.LongExample`, the line with `script` adds rules, and its badfilter line is too long and cancels nothing |
| `SubscriptionGaps.DollarCancels` | companion/src/subscription_rules.rs:371-381 | the exception to `RefusedTarget`: for every valid host the badfilter of the uncompilable `script$` line cancels the rules of the `script` line |
| `SubscriptionGaps.GuardLost` | companion/src/subscription_rules.rs:474-505 | the badfilter of a bare exception, in any list, removes the guard of every untranslatable exception with the same pattern |
| `SubscriptionContract.NetworkContract` | extension/src/shared/native-client.ts:17-53 | every network rule the subscription compiler emits, numbered from one, passes the extension's validation; the rules fit the budget and supported equals emitted plus dropped |
| `SubscriptionContract.CosmeticContract` | extension/src/shared/native-client.ts:33-35 | every emitted hiding rule has at most 200 valid domains and excluded domains and an accepted selector |
| `SubscriptionContract.SubscriptionAccepted` | extension/src/shared/native-client.ts:43-53 | whatever the subscription compiler returns, the validator accepts as a whole: rules, hiding rules with their text and source, diagnostics and statistics; each text is a line that contributes its rule |
| `SubscriptionManifest.AcceptedByCounters` | extension/src/shared/native-client.ts:54-73 | of whatever compiles, the extension accepts the report if and only if none of its six counters passes 600,002: the sample and its truncation flag, supported and dropped rules, the statistics of exactly the requested lists and the counted reasons always agree |
| `SubscriptionManifest.CountersWithin` | companion/src/subscription_rules.rs:503-571 | over every compilation the rules supported and suppressed together, and the hiding rules, are at most twice the lines, and the diagnostics at most three times |
| `SubscriptionManifest.FewLinesAccepted` | extension/src/shared/native-client.ts:54-73 | up to 200,000 lines in all, every report is accepted |
| `SubscriptionManifest.ManyLinesRefused` | extension/src/shared/native-client.ts:62-64 | for every number of lines from 200,001 to the list limit there are lists that compile but whose report is refused |
| `SubscriptionContract.HideLineFits` | companion/src/subscription_rules.rs:310-314 | a line that contributes a hiding rule is at most 2,048 bytes, although marked lines skip the length check |
| `SubscriptionContract.CosmeticsConserved` | companion/src/subscription_rules.rs:529-571 | supported hiding rules are the cosmetic lines of all lists, and at least those emitted, dropped over the limit and left out together |
| `SubscriptionContract.ListStatsCount` | companion/src/subscription_rules.rs:499-501 | each list's statistics add up to its number of lines |
| `Selector.ValidCompound` | companion/src/rules.rs:212-257 | the scanner with its moving index accepts exactly the texts of the recursive grammar within the length limit |
| `Selector.ScanSelector` | companion/src/rules.rs:198-210 | the selector check accepts a compound, or a compound with one direct-child check whose child has a class or ID |
| `Selector.CompoundIsRegex` | extension/src/shared/types.ts:60 | the grammar accepts a nonempty text exactly when the extension's regular expression matches all of it |
| `Selector.CheckersAgree` | extension/src/shared/types.ts:58-67 | the companion's scanner and the extension's checker accept exactly the same strings |
| `Selector.CanonicalValid` | companion/src/rules.rs:261-268 | the canonical form of a valid selector is valid, and making it canonical again changes nothing |
| `Selector.CanonicalIdentifies` | companion/src/rules.rs:259-268 | valid selectors have the same canonical form exactly when they differ only in spaces around the child |
| `LocalRules.ParseScope` | companion/src/rules.rs:121-132 | the scope loop with its two early exits yields the lower-cased domains exactly when all are hosts and at most 200 differ |
| `LocalRules.KeyInjective` | companion/src/rules.rs:270-281 | different network rules have different keys |
| `LocalRules.ProbeFinds` | companion/src/rules.rs:299-302 | probing with wrap-around meets a free ID within as many steps as IDs are taken, whatever the hash |
| `LocalRules.AssignIds` | companion/src/rules.rs:290-306 | the loop gives each key in turn the first free ID from its home |
| `LocalRules.IdsDistinct` | companion/src/rules.rs:290-306 | all assigned IDs are different and lie between 1 and 999,999,999 |
| `LocalRules.HomesKept` | companion/src/rules.rs:290-306 | keys whose hashes differ modulo the range get the IDs of their hashes |
| `LocalCompiler.CheckLines` | companion/src/rules.rs:313-326 | the bounds loop accepts exactly texts whose lines have at most 2,048 bytes and of which at most 2,000 are not blank |
| `LocalCompiler.Compile` | companion/src/rules.rs:308-421 | compilation succeeds exactly on texts within bounds and yields the rules, diagnostics and totals of their lines |
| `LocalCompiler.NetworkDependsOnSet` | companion/src/rules.rs:334-417 | two texts with the same set of normalised network rules yield the same network rules with the same IDs, whatever the order and repetition of lines |
| `LocalMeaning.LocalVerdict` | companion/src/rules.rs:334-417 | a compiled list blocks exactly the requests that some plain line describes and no exception line does, and lets through exactly those that some exception line describes, where the text of a line describes a host with its subdomains, or their URLs that begin with a path, and with `$third-party` third-party requests only |
| `LocalMeaning.PathAnchorMatches` | companion/src/rules.rs:143-163 | with anchors given their matching meaning, a host with a path matches exactly the URLs of the host and its subdomains that begin with the path, in any case |
| `LocalMeaning.LocalHidden` | companion/src/rules.rs:107-131 | a compiled list hides a selector on exactly the hosts for which some line with that selector asks |
| `LocalRules.ScanDiagnoses` | companion/src/rules.rs:336-395 | every line that is not ignored is diagnosed once, in order, with its number and as what it became |
| `LocalEffects.LocalListDecides` | extension/src/background/controller.ts:28-43 | where protection is on and the page is not paused, a saved local list decides every request that one of its lines describes |
| `LocalEffects.CompiledIsValid` | extension/src/background/controller.ts:216-221 | whatever text compiles, under a list name of at most 128 bytes, makes a configuration that the controller takes as valid |
| `LocalEffects.PickTakesEffect` | extension/src/background/controller.ts:222-234 | a valid pick added to any text hides what was picked on its host and the subdomains, once the text compiles |
| `LocalCompiler.CompilationAccepted` | extension/src/shared/native-client.ts:43-53 | whatever compiles, under a list name of at most 128 bytes, the extension's validator accepts |
| `LocalCompiler.LinesConserved` | companion/src/rules.rs:336-395 | every line is diagnosed once or ignored, and emitted and unsupported rules are among the diagnosed |
| `Validator.CheckNetwork` | extension/src/shared/native-client.ts:46-47 | the loop accepts exactly lists of valid rules without a repeated ID |
| `Validator.ValidatedIsBounded` | extension/src/shared/native-client.ts:17-32 | no validated rule blocks a page or has the ID of a site override, and a local one neither lets whole frames through nor restricts initiators |
| `Validator.ValidatedIsValid` | extension/src/shared/native-client.ts:43-53 | whatever the validator accepts is what the controller relies on |
| `Controller.BuildDesiredRules` | extension/src/background/controller.ts:28-43 | the pushing loops build the merged array that the next rows describe |
| `Controller.DesiredIds` | extension/src/background/controller.ts:28-43 | IDs strictly increase from 1, and only site overrides have IDs in the override range |
| `Controller.DescribeInvertsIds` | extension/src/background/controller.ts:148-172 | a description exists exactly for the IDs of the merged array and is that of the rule with the ID |
| `Controller.LayeredPrecedence` | extension/src/background/controller.ts:28-43 | for every request the highest-priority verdict is site override, else local allow, local block, subscription allow, subscription block |
| `ControllerJobs.OverrideMeans` | extension/src/background/controller.ts:28-43 | a site override applies exactly to pages of the site and its subdomains and to what happens in them |
| `ControllerSafety.StepKeeps` | extension/src/background/controller.ts:91-147 | every step of the protocol, including failures and crashes, keeps the invariant that relates storage, browser and worker |
| `ControllerSafety.CrashSafeCommit` | extension/src/background/controller.ts:91-147 | over every run: storage without journal and with the stamp of its configuration agrees with the browser; an idle worker's rules are those of the committed configuration; a latched recovery error leaves the journal |
| `ControllerSafety.ProvenanceExact` | extension/src/background/controller.ts:113-172 | at every moment of every run a description means that the wanted rules are active, and describes the only active rule with that ID |
| `ControllerOrder.NoLostUpdates` | extension/src/background/controller.ts:102-147 | over every run the committed configuration is the initial one after exactly the saved jobs, each applied to the result of the one before, in queue order; every job whose caller was told of success after a commit is among them, and no job whose caller was told anything else |
| `ControllerJobs.SetSiteMeans` | extension/src/background/controller.ts:250-259 | pausing a domain adds it to the sites unless it is there, resuming it removes it; the sites are sorted and nothing else changes; no domain, or more than 200 sites, changes nothing |
| `ControllerJobs.FieldJobsMean` | extension/src/background/controller.ts:188-249 | switching protection, removing subscriptions and applying a refresh change that one field, and an overtaken refresh nothing |
| `ControllerJobs.ImportMeans` | extension/src/background/controller.ts:216-221 | an import saves the text, the name and the companion's valid answer, and nothing else |
| `ControllerJobs.AddPickerMeans` | extension/src/background/controller.ts:222-234 | a pick is saved at the end of the text exactly when it is valid, protection is on for the site, the element is not hidden yet and the companion's answer hides it |
| `ControllerJobs.RemovePickerMeans` | extension/src/background/controller.ts:236-245 | taking a pick back removes the first copy of its block exactly when the text has one |
| `ControllerJobs.PickThenUnpick` | extension/src/background/controller.ts:222-245 | a pick taken back at once leaves the text as it was if and only if it did not end with the block short of its last newline |
| `ControllerJobs.SitesFollowJobs` | extension/src/background/controller.ts:250-259 | over every run a site is paused in the committed configuration exactly when the last saved job about it paused it, or there was none and it was paused at first |
| `ControllerJobs.ToldPaused` | extension/src/background/controller.ts:102-259 | over every run, after a caller was told that a site is paused and no later job about it was saved, the rules installed by a ready worker block no request on it |
| `ControllerPages.PageSelectorsAre` | extension/src/background/controller.ts:260-262 | for valid configurations a page gets a selector exactly when protection is on for its domain and some rule of the local list or the subscriptions hides it there, and each only once: the limit of 12,000 cuts nothing off |
| `ControllerProgress.QuietStart` | extension/src/background/controller.ts:91-101 | a start on storage without journal whose stamp fits touches neither storage nor browser, and is ready |
| `ControllerProgress.JobCompletes` | extension/src/background/controller.ts:102-147 | the next job that comes to a commit that fits, and whose calls succeed, ends with its configuration stored without a journal and under its stamp, installed, and its caller told |
| `ControllerProgress.CommitAtomic` | extension/src/background/controller.ts:113-147 | if one call of a commit fails and the clean-up succeeds, nothing has changed outside and the worker goes on with the configuration it had |
| `ControllerProgress.TooManyRules` | extension/src/background/controller.ts:107-147 | a configuration with too many rules is given up before anything is installed |
| `ControllerProgress.RefreshQueues` | extension/src/background/controller.ts:188-205 | a refresh on a ready worker whose download stays within the budget is queued as the newest subscription change |
| `ControllerRefresh.NoResurrection` | extension/src/background/controller.ts:188-215 | over every run no removal of subscriptions lies between the beginning of a saved refresh and its saving |
| `ControllerBudget.RefreshFits` | extension/src/background/controller.ts:188-205 | where the browser allows the 2,200 reserved rules, over every run the configuration a fetched refresh commits needs no more rules than the browser allows, whatever was stored before or queued in between |
| `ControllerBudget.EverythingFits` | extension/src/background/controller.ts:102-205 | if moreover the configuration stored at the very beginning is within the budget, over every run every configuration the worker holds or commits fits, so the length check never fails |
| `ControllerRecovery.RestartRecovers` | extension/src/background/controller.ts:91-112 | if the configuration stored at the very beginning could be installed, then after any run that ended without a worker a start whose calls succeed leaves the committed configuration unchanged and its rules installed |
| `Picker.UndoSplice` | extension/src/background/controller.ts:236-246 | undo after edits around the block, where the text before holds no copy of it, gives exactly what stands before and after it if and only if the text before does not end with the block short of its last newline |
| `Picker.UndoRestores` | extension/src/background/controller.ts:222-246 | saving a new block and undoing it restores the text if and only if the text does not end with the block short of its last newline |
| `Picker.UndoCanDamage` | extension/src/background/controller.ts:242 | the failing case: for every token and rule a text without the block that undo does not restore |
| `Picker.FreshTokenUndo` | extension/src/background/controller.ts:265-269 | if the marker line is not in the text, saving and undoing restores it |
| `Picker.PickIsLine` | extension/src/background/controller.ts:265-269 | a valid pick is one rule line and a token without line breaks |
| `DnsText.NormalizeIs` | companion/src/dns/blocklist.rs:105-143 | a name is normalised exactly when, but for its case and one final dot of any kind, it is a valid host and no address, to that host in lower case |
| `DnsPolicy.RootDot` | companion/src/dns/blocklist.rs:109-114 | one dot of any of the four kinds at the end of a name changes nothing |
| `DnsPolicy.TwoDotsRefused` | companion/src/dns/blocklist.rs:109-138 | a name that ends in two dots is refused |
| `DnsPolicy.NormalizeIdempotent` | companion/src/dns/blocklist.rs:105-143 | normalising a normalised name succeeds and changes nothing |
| `DnsPolicy.WalkSuffixes` | companion/src/dns/blocklist.rs:493-501 | the loop over suffixes returns the rule stored under the key the walk finds |
| `DnsPolicy.SuffixMatchLongest` | companion/src/dns/blocklist.rs:493-501 | the walk finds a rule exactly when one covers the name by whole labels, and then the longest such rule |
| `DnsPolicy.UnconditionalShape` | companion/src/dns/blocklist.rs:410-425 | a line is taken as unconditional exactly when it is a bare host anchor, after `@@` for an exception, of a name that normalises; the second parse never refuses |
| `DnsPolicy.BlockLineShape` | companion/src/dns/blocklist.rs:200-233 | of all lines exactly the bare host anchor of a name blocks that host |
| `DnsPolicy.AllowLineShape` | companion/src/dns/blocklist.rs:200-233 | of all lines exactly `@@` and the bare host anchor of a name allows that host on its own terms |
| `DnsText.SuppressLineShape` | companion/src/dns/blocklist.rs:199-256 | a line suppresses all list blocks exactly when it is a directive, or an unclear exception or badfilter that has `document`, `doc` or `genericblock` or names no host |
| `DnsText.ProtectLineShape` | companion/src/dns/blocklist.rs:232-256 | it protects a host exactly when it is such a line without those and the text from its two bars to the first `^`, `/`, `:` or bar normalises to that host |
| `DnsText.IgnoreLineShape` | companion/src/dns/blocklist.rs:206-209 | it does nothing exactly when it is empty, a comment, a header, marked as cosmetic, or an exception from hiding only |
| `DnsPolicy.SaferLinesAct` | companion/src/dns/blocklist.rs:200-256 | no exception, badfilter or directive is lost: it allows, protects a suffix or suppresses, unless it is a comment or purely cosmetic |
| `DnsPolicy.SaferLinesDoNotBlock` | companion/src/dns/blocklist.rs:200-256 | exceptions, badfilters and directives never block |
| `DnsCompile.CheckSources` | companion/src/dns/blocklist.rs:151-181 | the loop accepts exactly sources with different names that are all good |
| `DnsCompile.FoldHolds` | companion/src/dns/blocklist.rs:190-257 | the folded tables hold, for every host, the first line that blocks or allows it and nothing else; the flag is set exactly by suppressing lines |
| `DnsCompile.ScanSource` | companion/src/dns/blocklist.rs:196-257 | the loop over one source extends tables, report and counts by exactly its lines |
| `DnsCompile.CompileUserHosts` | companion/src/dns/blocklist.rs:392-408 | the table of a user's hosts has exactly their normalised names, or the list is refused |
| `DnsCompile.LinesCounted` | companion/src/dns/blocklist.rs:196-257 | each line is counted in exactly one of blocks, allows, ignored and unsupported, and the unsupported are the diagnosed ones |
| `DnsCompile.Attribute` | companion/src/dns/blocklist.rs:269-290 | the loop over a table counts, for each source, exactly the hosts stored under its name |
| `DnsCompile.AttributionSums` | companion/src/dns/blocklist.rs:269-290 | the counts of different sources add up to the hosts of all of them |
| `DnsVerdict.CompilePolicy` | companion/src/dns/blocklist.rs:146-330 | compilation succeeds exactly on acceptable sources and hosts and yields the fold of all lines with its report |
| `DnsVerdict.DecisionRefinesLines` | companion/src/dns/blocklist.rs:333-360 | a name is blocked exactly when no user allow covers it and a user block does, or the text of some line blocks it, of none allows or protects it, and of none suppresses all blocks |
| `DnsVerdict.BlockProvenance` | companion/src/dns/blocklist.rs:352-359 | the rule reported for a list block is the first line that names the longest blocked suffix |
| `DnsVerdict.OrderIrrelevant` | companion/src/dns/blocklist.rs:190-360 | verdicts ignore the order and repetition of lines, sources and user hosts |
| `DnsVerdict.SaferLinesNeverBlock` | companion/src/dns/blocklist.rs:190-256 | adding exceptions, badfilters or directives never turns an allowed name into a blocked one |
| `DnsVerdict.SourceLinesCounted` | companion/src/dns/blocklist.rs:196-257 | each source's report counts each of its lines once |
| `DnsVerdict.CountsConserved` | companion/src/dns/blocklist.rs:259-327 | the diagnostics total is the number of unsupported lines, and the per-source candidate and allow counts add up to the sizes of the two tables |
| `DnsCache.Cache.Get` | companion/src/dns/cache.rs:39-58 | the answer is the aged copy of the entry or nothing, and only an expired entry of that key is removed |
| `DnsCache.Cache.Insert` | companion/src/dns/cache.rs:60-123 | an accepted answer becomes the newest entry in place of its key's old one, and of all entries the newest remain up to the capacity |
| `DnsCacheRuns.AnswerTtlExact` | companion/src/dns/cache.rs:71-97 | an answer is kept for t seconds exactly when it is cacheable and t is positive and the least of all record times and authority SOA minimums |
| `DnsCacheRuns.EntryLifetime` | companion/src/dns/cache.rs:71-122 | no entry outlives 3,600 seconds, the lesser of an authority SOA's time and minimum, or any of its stored records |
| `DnsCacheHits.StoredIs` | companion/src/dns/cache.rs:98-103 | the stored message is the given one, except that an SOA record in authority lives no longer than its minimum |
| `DnsCacheHits.AcceptedExactly` | companion/src/dns/cache.rs:60-122 | an answer is accepted exactly when it is whole, cacheable, bounded by a positive time and encodes within 16,384 bytes, for the lesser of that time and 3,600 seconds |
| `DnsCacheHits.UnboundedRefused` | companion/src/dns/cache.rs:71-97 | an answer that no record and no authority bounds is not accepted |
| `DnsCacheHits.ServedExactly` | companion/src/dns/cache.rs:39-46 | an entry is served exactly until its time has passed |
| `DnsCacheHits.ServedMessage` | companion/src/dns/cache.rs:46-57 | what is served is the stored message with the elapsed whole seconds taken off every time |
| `DnsCacheHits.RunServes` | companion/src/dns/cache.rs:39-123 | over every run a lookup serves the latest accepted answer for its key, exactly until its time has passed, while fewer different newer keys than the capacity were accepted and no lookup found it expired |
| `DnsCacheRuns.HitNeverExtends` | companion/src/dns/cache.rs:41-56 | on a hit the age is below the entry's time, the cast keeps it, no subtraction saturates, and each record's time is positive and its stored time minus the age |
| `DnsCacheRuns.HitKeepsShape` | companion/src/dns/cache.rs:46-57 | apart from times a hit is the stored message |
| `DnsCacheRuns.RunOrdered` | companion/src/dns/cache.rs:105-122 | after any run the entries are the latest accepted inserts of different keys, oldest first |
| `DnsCacheRuns.HitIsLatest` | companion/src/dns/cache.rs:39-123 | after any run what is found for a key is the latest accepted insert of that key |
| `DnsCacheRuns.EntrySurvives` | companion/src/dns/cache.rs:105-114 | eviction is oldest first: the latest insert of a key stays until as many different newer keys as the capacity were accepted or a lookup finds it expired |
| `DnsCacheRuns.RunHitSound` | companion/src/dns/cache.rs:39-123 | after any run a record of a hit is one of the latest accepted message for the key with the age taken off and something left |
| `Paging.FitPage` | companion/src/lists.rs:447-465 | the halving loop ends with the first end, going by halves, whose page fits, or when even one item does not |
| `Paging.SplitKind` | companion/src/lists.rs:445-488 | the loop over one kind yields the pages the next rows describe exactly when all fit and the snapshot stays within 64 MiB |
| `Paging.PagesTile` | companion/src/lists.rs:445-488 | pages tile the items in order, hold at most 128 items within the byte bound, are nonempty unless there are no items, and join back to the list |
| `Paging.FullPages` | companion/src/lists.rs:445-465 | where every 128 items fit a page, every page but the last holds 128 |
| `Paging.SplitFails` | companion/src/lists.rs:458-463 | a split is refused for its pages only when a page with a single item, or an empty one, exceeds the limit |
| `Paging.Persist` | companion/src/lists.rs:428-489 | the index and the files are those of the pages of all three kinds, within their item limits |
| `PagingClient.EveryPageServed` | companion/src/lists.rs:651-707 | every stored page passes every check of the page request, and a snapshot never has more pages than the index check admits |
| `PagingClient.ServedIsStored` | companion/src/lists.rs:654-707 | whatever became of the page files, a page served under the stored index is one of the stored pages, when digests tell pages apart |
| `PagingClient.FetchKind` | extension/src/shared/native-client.ts:122-145 | the page loop ends against any server and returns what the checked pages hold, or refuses |
| `PagingClient.AcceptedIsComplete` | extension/src/shared/native-client.ts:127-144 | whatever the server answers, an accepted traversal has exactly the announced number of items, all valid, within 25 MiB |
| `PagingClient.AcceptedIsChain` | extension/src/shared/native-client.ts:126-145 | whatever the server answers, what is accepted are the items of replies that follow one another to the end, each the answer for its place under the announced snapshot and total, with at most 128 items and 512 KiB |
| `PagingClient.ChainIsAccepted` | extension/src/shared/native-client.ts:126-145 | and the items of every such chain are accepted when they are valid and the bytes stay within 25 MiB |
| `PagingClient.ListRoundTrip` | extension/src/shared/native-client.ts:127-145 | a stored list comes back exactly when its own pages fit what is left of the 25 MiB, and is refused otherwise |
| `PagingClient.Refresh` | extension/src/shared/native-client.ts:121-147 | the loop over the three kinds carries one count of received bytes, and with the final check of the whole state returns the three fetched lists, or refuses |
| `PagingClient.AcceptedRefresh` | extension/src/shared/native-client.ts:121-146 | whatever the server answers, an accepted refresh has all three lists at their announced lengths, all items valid, within one total of 25 MiB |
| `PagingClient.SnapshotRoundTrip` | extension/src/shared/native-client.ts:111-147 | what was stored, a whole refresh gives back: all three lists if and only if the manifest with the pages of all of them, and the whole state, each stay within 25 MiB |

## Left out

- Strings with characters outside the Basic Latin range in host names: IDNA is library code, so `DnsPolicy.Normalize` and the host checks know ASCII names only.
- The IDNA checks on hyphens within a label belong to the library and are not part of this model.
- IPv6 literals as URL hosts: `UrlFilter.WellFormed` asks for a named or IPv4 host.
- SubscriptionCompiler.SortRules: exceptions come first, but the order by serialised text among equals is any order, so which blocks the budget drops is any choice of that number.
- Chunks.Chunk: which hosts share a group is any choice, as no later result depends on the sorted order.
- SubscriptionCompiler.CompileSubscriptions: which hiding rules remain over the limit of 10,000 is any choice.
- The texts of the report's reasons and the metadata of the lists: titles, addresses, digests and times are not part of `SubscriptionManifest.ManifestAccepted`.
- LocalRules.ParseScope: the texts of parse errors are not modelled; a refused line is one that yields nothing.
- Controller fields for progress, notification payloads, the truncated wording of descriptions, and `pageCountSafe`: they affect no rule or configuration. The controller is a state machine over values rather than a class, because the properties are about interleavings between awaits.
- The rule stamp is any function of the configuration; nothing relies on it being injective.
- Client validation of stored configurations beyond what the merged rules rely on.
- DnsCache.Cache.Insert: encoding a message and decoding it again is the identity with a size, and a message has only record times, SOA minimums, a response code and the truncated flag; sockets, resolvers and the wire format are not part of this model.
- DnsVerdict.CompilePolicy: messages and truncation of diagnosed text are not modelled; a diagnostic is the line with its meaning.
- Paging.Persist: digests, byte counts and page encodings are given functions; directories, staging, renaming, pruning and the raw source files are not part of this model.
- PagingClient.SnapshotRoundTrip: takes as given that a page measured by the client is at most 256 bytes longer than stored, which is the room the companion leaves; the size of the whole state is a given function of its lists.
- Downloads, activity buffers, messaging, diagnostics of the DNS service, routes, the user interface, content scripts, installers and command line.
