# Webblock daemon: model and proofs

The webblock daemon keeps one blocklist for everybody and one for each user, resolves their domains, and turns the
result into live packet filters. This project models that path in Dafny, from a request to the verdict on a packet, and
proves what the design promises about it. `dafny verify dfyconfig.toml` checks everything.

| modules | subject |
|---|---|
| Backend, Diff, Backends, Firewall | the desired state and its meaning for packets; deltas and deep copies; the two backends compared, and either of them |
| NftKernel, Nft, NftScript, NftMeaning, NftApply | a typed part of nftables with packet verdicts, the script and delta compilers, `Apply` with its self-heal |
| IpKernel, Iptables, IptablesSafety, IptablesMeaning, IptablesDelta, IptablesGap, IptablesApply, IptablesAtomicity | the same for ipset and iptables, where an apply is many steps and may stop between any two |
| Lists, Store, Decimal | list normal form and exact counts; files replaced by rename, through failures and crashes |
| Engine, RebuildProtocol, RebuildSafety, RebuildTheorems, RebuildProgress, RebuildMeaning | cache and state building; any number of interleaved add, remove and refresh operations, and what they mean item by item |
| Resolver | the worker pool over unbuffered channels |
| RateLimit, Validate, Urls, Authz, Handlers, Isolation, Requests | request semantics |
| EndToEnd | from the store to packets: pool, protocol and backends together |
| Wrappers, Sorting | shared vocabulary |

What the environment does is a parameter everywhere: which store read, file operation, firewall command or lookup fails
and when, which answers lookups give, what the clock says, how operations interleave, in which order Go walks a map.

Where the code does other than its documentation or comments say, the model follows the code:

- The `Apply` contract (`internal/backend/backend.go:41-42`) asks for atomicity. `nft` has it. The iptables backend does
  not: both its delta and its full apply change the global list first, so a block that moves from it to a user's is not
  in force in between. `ApplyStaysDroppedIff` says for exactly which packets this happens, `ApplyIsSafe` what holds all
  the same.
- The OUTPUT jump is to be there "exactly once" (`internal/backend/iptables.go:154-156`). A `-C` that fails although the
  jump is there makes a second one; `HookOnce` is an equivalence. `Teardown` removes one jump, so with two the jump and
  the chain stay; `TeardownRemovesOurs` is an equivalence too.
- Set names are "kept under" 31 characters (`internal/backend/iptables.go:186`), which holds exactly when the text of the
  uid has at most 19 characters (`NamesFit`), as it has for every uid of the kernel. Root can store a list for any Go int.
- `addUnique` counts an empty string that it then drops, so its count is the growth of the list exactly when none is
  added (`AddCountExact`). The handlers add none (`AcceptedPassUnchanged`).
- An incremental `Apply` is to heal drift (`internal/backend/nft.go:45`). When no list changed it issues no command and
  cannot notice any; `HealsRemovedTable` is an equivalence.
- `NormalizeDomain` is to treat a pasted URL as its host (`internal/validate/validate.go:22-24`). The first "://" of the
  whole text is taken for the end of its scheme, and user information is cut at the last `@` of what follows, before the
  path is: in a URL without a scheme a later "://" hides the host, and in any URL an `@` in its tail does.
  `UrlIsItsHost` is an equivalence, `LaterScheme`, `EmptyPort` and `LaterAt` are inputs on which the host is missed.
- Every `Apply` is to make the firewall match its state (`internal/backend/backend.go:41-43`). Root may store a list for
  any Go int, and one with something to block for a uid that does not fit makes every `Apply` fail, for all users. With
  iptables so does the null address of either family, 0.0.0.0 or ::, in any list, stored by any user or as the address of
  a domain: a hash:ip set refuses it, and the restore stops there. `AppliesSucceedIff` is an equivalence,
  `OneUidStopsAll` and `OneAddressStopsAll` are inputs.
- So users are isolated from each other with nft (`UsersAreIsolated`), but not with iptables: `NullAddressDisturbs` is an
  input, `AnswersSameIff` says when they are.

## Model

| member | source | states |
|---|---|---|
| EndToEnd.FirewallFollowsStore | cmd/webblockd/engine.go:123-191 | In every run of the protocol with either backend in it, its memory and kernel threaded through and its commands failing anywhere: at rest after a successful section, the kernel drops exactly the packets that the stored lists and the cache cover |
| RebuildMeaning.DroppedIff | cmd/webblockd/engine.go:82-191 | At rest after a successful section a packet is dropped iff, for the global list or its owner's, an IP that the edits committed in the run leave listed parses to its destination, or the last answer merged for a domain they leave listed has it |
| RebuildMeaning.AddedIsDropped | cmd/webblockd/engine.go:82-91 | The address of an IP that the last committed edit to name it added is dropped |
| RebuildMeaning.AnsweredIsDropped | cmd/webblockd/engine.go:130-146 | So is every address in the last merged answer for a domain that was added and not removed since |
| RebuildMeaning.ListsAreEdited | cmd/webblockd/engine.go:82-104 | After any run a domain or an IP is in a list iff the last committed edit of this list to name it is an add, or none names it and it was there before |
| RebuildMeaning.CacheIsRemembered | cmd/webblockd/engine.go:140-178 | After any run the cache has for a domain the addresses and expiry of the last answer merged for it, unless an Apply since was built from lists that do not name it; failed lookups and other domains' answers change nothing |
| RebuildMeaning.LooksUpIff | cmd/webblockd/engine.go:130-138 | A first section goes on to look up a domain iff it read it and it is uncached, or past its expiry in a periodic refresh, or this is the rebuild at startup; with one to look up it does not apply at once |
| RebuildMeaning.StartupLooksUpAll | cmd/webblockd/engine.go:195-210 | The rebuild at startup looks up every stored domain, unless a commit it missed has its own rebuild still to come |
| RebuildMeaning.UncachedFailed | cmd/webblockd/engine.go:140-165 | At rest, without failed reads in first sections, a stored domain without cached addresses is one whose last lookup failed |
| EndToEnd.AppliesSucceedIff | cmd/webblockd/engine.go:172-191 | At any point of any run, an Apply that meets no fault succeeds iff every user with anything to block fits the backend's uids and, for ipset, no list read stands for a null address through the cache; none succeeds otherwise |
| EndToEnd.OneUidStopsAll | cmd/webblockd/engine.go:182-191 | A list of one address for uid 2^32 makes every Apply of a state built from it fail, for all users |
| EndToEnd.OneAddressStopsAll | internal/backend/iptables.go:141-152 | 0.0.0.0 in the list of uid 1000 makes every Apply of the iptables backend fail, while a faultless one of nft succeeds |
| Handlers.RebuildsIff | cmd/webblockd/handlers.go:53-62 | The handlers' condition on the stored lists for a rebuild to succeed is the one under which an Apply does |
| Engine.LoadsIff | cmd/webblockd/engine.go:172-191 | The backend refuses something of a built state iff it can be told from the lists and the cache |
| EndToEnd.PoolAnswers | cmd/webblockd/engine.go:140-146 | What the worker pool returns for the distinct domains wanted is an answer the protocol takes: each resolved or failed, none both, no other |
| Firewall.SucceedsIff | internal/backend/backend.go:37-46 | With either backend in sync, a faultless Apply of distinct lists succeeds iff all uids fit and (nft, or no list holds the null address of its family); no Apply succeeds otherwise |
| Firewall.FaultlessIsPossible | internal/backend/backend.go:37-46 | Whatever the state, some Apply of it meets no fault |
| RebuildTheorems.NoLostUpdate | cmd/webblockd/engine.go:123-168 | In every interleaving of any number of operations, with none in flight and the last section successful, the applied state is one built from the current store and the current cache, although loadAll reads scope by scope |
| RebuildTheorems.VerdictsAreCurrent | cmd/webblockd/engine.go:123-191 | Then the applied state blocks exactly the packets that the current global list or the current list of their owner covers |
| RebuildTheorems.StepKeepsInv | cmd/webblockd/engine.go:123-231 | Every store access, lock, resolution and apply keeps the whole invariant: faithful readings, missed commits awaited by a queued operation, nothing lost, live state and cache matching, versions never going back |
| RebuildTheorems.DomainCoverage | cmd/webblockd/engine.go:130-178 | If no read of a first section fails, every stored domain is cached, or failed last time, or owed by an operation in flight; at rest only failed ones lack addresses, even when a domain moved between scopes during the reads |
| RebuildTheorems.UnseenIsWaiting | cmd/webblockd/engine.go:172-178 | A stored domain missing from a finished reading was put there by a commit whose own rebuild is still queued, so pruning it is harmless |
| RebuildProgress.RestIsReached | cmd/webblockd/engine.go:82-168 | From any state the invariant allows, a run without new requests has no more steps than a measure of that state, and it can go on exactly until all operations have returned |
| RebuildProgress.NeverStuck | cmd/webblockd/engine.go:123-168 | While some operation is in flight, one that is in flight can take a step |
| RebuildProgress.StepCosts | cmd/webblockd/engine.go:123-231 | Every step of an operation lowers the bound on its own remaining steps and touches no other operation |
| RebuildTheorems.ReadYourWrites | cmd/webblockd/engine.go:82-104 | After AddEntries or RemoveEntries returned success, the applied state was built from a version of the scope that includes its own commit, then and ever after |
| RebuildMeaning.WritesAreRead | cmd/webblockd/engine.go:82-104 | Then what is live was built from a list that holds, item by item, what the first so many committed edits of its scope make of the one before, its own edit among them |
| RebuildTheorems.LiveIsLastSuccess | cmd/webblockd/engine.go:172-191 | Only a successful Apply changes what is live, to the state it was given |
| RebuildTheorems.AppliesNeverGoBack | cmd/webblockd/engine.go:150-167 | For every scope, successive Apply calls are built from versions that never decrease, successful or not |
| RebuildSafety.StepKeepsMissed | cmd/webblockd/engine.go:213-231 | A commit that a running section has missed belongs to an operation still waiting for its own section; every step keeps this |
| RebuildSafety.ReadsExtend | cmd/webblockd/engine.go:213-231 | Each of the three kinds of store access adds current versions to a reading and changes nothing already read |
| Engine.Engine.PruneAndBuild | cmd/webblockd/engine.go:172-191 | Prunes the cache to exactly the wanted domains and builds a state of the lists and that cache, whatever the map order |
| Engine.Engine.IpSetFor | cmd/webblockd/engine.go:235-261 | The set of a blocklist: exactly its parsed IPs and the cached addresses of its domains, each once, by family |
| Engine.Engine.DomainsToResolve | cmd/webblockd/engine.go:195-210 | Exactly the wanted domains that are uncached, or expired or all of them as the mode says, each once |
| Engine.Engine.WantedDomains | cmd/webblockd/engine.go:285-296 | The union of the domains of all lists |
| Engine.Engine.MergeResolved | cmd/webblockd/engine.go:143-146 | Every answer replaces its cache entry with the new expiry and no other entry changes |
| Resolver.ExactlyOnce | internal/resolver/resolver.go:63-111 | In every schedule, each domain is looked up once for each time it was given; all land in the results or the failures, and distinct ones in exactly one of them with the answer of their lookup |
| Resolver.EveryScheduleEnds | internal/resolver/resolver.go:78-111 | Every schedule ends after the same number of steps, is stuck exactly when it has returned, and leaves no worker, feeder or open channel behind |
| Resolver.SafeChannels | internal/resolver/resolver.go:69-101 | Nothing is sent on a closed channel, none is closed twice, and never more lookups than workers are in flight |
| Resolver.NoDeadlock | internal/resolver/resolver.go:81-109 | In every state the invariant allows, some step is enabled iff the pool has not returned |
| Resolver.StepCounts | internal/resolver/resolver.go:81-109 | Every step, by whichever goroutine, lowers the measure by exactly one |
| NftScript.ScriptInstalls | internal/backend/nft.go:97-150 | From any ruleset the full script runs and installs exactly the state's table, or is refused, which happens exactly when a uid does not fit 32 bits |
| NftMeaning.ImplementsMeansSpec | internal/backend/nft.go:115-139 | Through drop rules, uid map, jump and default accept, the installed table drops a packet iff the global list or its owner's list has the address |
| NftMeaning.DeltaRefinesScript | internal/backend/nft.go:66-88 | On the previous state's table the delta runs unless a list repeats an address, and leaves exactly the table the full script builds for the next state |
| NftMeaning.DeltaMinimal | internal/backend/nft.go:66-88 | With the same users the delta is empty iff no set changed its membership |
| NftApply.ApplyKeepsSync | internal/backend/nft.go:30-55 | Success makes the kernel exact and remembered; failure leaves the old ruleset or the new state's, also when nft commits and then reports failure, and forgets the snapshot; without nft failures an Apply succeeds iff uids fit 32 bits |
| NftApply.RunsStayInSync | internal/backend/nft.go:30-55 | After any calls, with nft failing anywhere before or after its commit, from any ruleset, the kernel holds exactly the table of the snapshot, if there is one |
| NftApply.InSyncMeans | internal/backend/nft.go:30-55 | Then the snapshot is what the kernel does to every packet, and whichever call succeeds next makes it the state of that call |
| NftApply.HealsRemovedTable | internal/backend/nft.go:42-54 | With the table removed behind its back, the next Apply restores it exactly when some list changed |
| NftApply.NothingChangedNothingRun | internal/backend/nft.go:42-54 | With the users and all memberships as remembered, an Apply runs nothing and succeeds whatever nft would do |
| NftApply.NftBackend.Apply | internal/backend/nft.go:30-55 | The method, snapshots copied and state shared by reference, does to memory and kernel what the specification of one Apply says, and its snapshot shares nothing with its argument |
| NftApply.NftBackend.Teardown | internal/backend/nft.go:57-61 | The snapshot is forgotten, and unless nft fails before its commit the table is gone, whether or not there was one |
| Nft.BuildScript | internal/backend/nft.go:97-150 | The loops emit the specified sequence of commands |
| Nft.BuildDelta | internal/backend/nft.go:66-77 | The loops emit the specified element commands, for the users of the next state in order |
| Nft.SetNameInjective | internal/backend/nft.go:105-113 | Different lists and families have different nft sets |
| IptablesSafety.FullApplyReaches | internal/backend/iptables.go:86-98 | Stopped after any number of lines and commands, the full apply has kept the chain's sets existing, each live set old or new, each filter old or new; finished, it is exact; and on distinct lists it fails by itself iff some list holds the null address of its family or some uid is above 2^32 - 2 |
| IptablesMeaning.ReachedIsSafe | internal/backend/iptables.go:129-183 | At every such point nothing is dropped that neither the old kernel nor the new state drops, and what one list blocks before and after stays blocked, stale sets and left-over temporaries included |
| IptablesAtomicity.ApplyStaysDroppedIff | internal/backend/iptables.go:56-125 | From any remembered state, a packet that it and the new state block is dropped wherever the Apply stops, in its delta, its healing or its rebuild, iff the new global list has its address, or the old list of its owner had it, or a null address keeps the new global list from being loaded |
| IptablesGap.GlobalStuck | internal/backend/iptables.go:129-152 | With a null address in the global list, at every prefix of a full apply the global set behind it and both chains are as they were |
| IptablesAtomicity.DeltaGlobalBeforeUsers | internal/backend/iptables.go:102-113 | At every prefix of a delta either no user set has changed yet or both global sets hold their new contents |
| IptablesGap.StaysDroppedIff | internal/backend/iptables.go:86-98 | The same equivalence for the prefixes of a full apply alone |
| IptablesGap.GlobalBeforeUsers | internal/backend/iptables.go:129-137 | At every prefix either no user set has changed yet or both global sets hold their new contents |
| IptablesMeaning.ExactMeansSpec | internal/backend/iptables.go:157-183 | An exact kernel drops a packet iff the global list or its owner's list has the address |
| IptablesMeaning.RefreshingOneList | internal/backend/iptables.go:141-152 | Refreshing one list's sets, stopped anywhere, leaves the contents of every other list's sets unchanged |
| IptablesMeaning.ForeignSetsUntouched | internal/backend/iptables.go:129-152 | A full apply, stopped anywhere, changes no set without the prefix |
| IptablesSafety.RulesAcceptedIff | internal/backend/iptables.go:157-174 | Once the sets are refreshed, iptables-restore accepts the new chain iff all uids are from 0 to 2^32 - 2; every set it names exists |
| IptablesDelta.DeltaRefinesFull | internal/backend/iptables.go:102-125 | On an exact kernel a delta line is refused iff the next state holds a null address; stopped anywhere the sets are between the two states; finished the kernel is exact for the next |
| IptablesDelta.BetweenIsSafe | internal/backend/iptables.go:70-79 | At every prefix of a delta each list drops only what one of the two states blocks, and all that both block |
| IptablesDelta.DeltaMinimal | internal/backend/iptables.go:102-125 | With the same users no line is sent iff no set changed its membership |
| IptablesApply.ApplyKeepsSync | internal/backend/iptables.go:56-83 | Success makes the kernel exact and remembered, failure forgets the snapshot, the kernel stays one from which a rebuild works, and a rebuild of distinct lists that is not stopped succeeds iff uids fit and no list holds a null address |
| IptablesApply.ApplyIsSafe | internal/backend/iptables.go:56-83 | Wherever one Apply stops, delta and healing included, nothing is dropped that neither the old kernel nor the new state drops, and what one list blocks in both stays blocked |
| IptablesApply.NothingChangedNothingRun | internal/backend/iptables.go:70-82 | With the users and all memberships as remembered, an Apply runs nothing and succeeds |
| IptablesApply.UpdatesLeaveChains | internal/backend/iptables.go:24-26 | With the same users, an update that goes through leaves both chains and all OUTPUT rules as they are |
| IptablesApply.RunsStayInSync | internal/backend/iptables.go:56-83 | After any calls with failures at any step, from any kernel with old sets and chains of ours, the kernel is well kept and exactly the snapshot, if there is one |
| IptablesApply.InSyncMeans | internal/backend/iptables.go:56-83 | Then the snapshot is what the kernel does to every packet, and whichever call succeeds next makes it the state of that call |
| IptablesApply.IptablesBackend.Apply | internal/backend/iptables.go:56-83 | The method does to memory and kernel what the specification of one Apply says, and its snapshot shares nothing with its argument |
| IptablesApply.HookOnce | internal/backend/iptables.go:176-181 | From at most one jump, the check and insert leave exactly one iff the check did not fail while the jump was there, and two otherwise |
| IptablesApply.RunsKeepJumps | internal/backend/iptables.go:154-183 | Over every run with truthful checks there is at most one jump per family, and exactly one after a success |
| IptablesApply.StepsKeepOthers | internal/backend/iptables.go:157-183 | Whatever is run and wherever it stops, the other OUTPUT rules stay as they were and in order |
| IptablesApply.OthersAre | internal/backend/iptables.go:192-198 | Those are all rules of OUTPUT but our jumps |
| IptablesApply.TeardownRemovesOurs | internal/backend/iptables.go:192-211 | No set of ours is left, foreign sets and rules are unchanged, and per family the jump and the chain are gone iff there was at most one jump |
| IptablesApply.IptablesBackend.Teardown | internal/backend/iptables.go:192-211 | The commands and the loop over the listed sets amount to that teardown, or to its first half when the sets cannot be listed |
| Iptables.SetNameInjective | internal/backend/iptables.go:141-152 | Over all families and users set names differ, temporary names differ, and no set name is a temporary name |
| Iptables.NamesFit | internal/backend/iptables.go:185-190 | Names and temporary names fit 31 characters iff the uid's text has at most 19, which all 32-bit uids satisfy |
| Iptables.BuildRefresh | internal/backend/iptables.go:129-152 | The loops emit the create, flush, add, swap and destroy lines of every list in order |
| Iptables.BuildSetDelta | internal/backend/iptables.go:102-125 | The loops emit the specified add and del lines |
| Backends.SameVerdict | internal/backend/backend.go:37-46 | Kernels installed by the two backends for states with the same membership give every packet the same verdict |
| Backends.SameVerdictAfterApply | internal/backend/backend.go:37-46 | After a successful Apply of one state on each, from whatever the two found, every verdict is the same |
| Backends.EmptyUsersDoNotShow | cmd/webblockd/engine.go:184-189 | One backend given the state, the other the state without the users that have nothing to block: every verdict is the same |
| Diff.DiffStrings | internal/backend/diff.go:46-66 | Added and removed are disjoint, (prev with added) without removed is next, and both are empty iff membership is the same |
| Diff.SameUids | internal/backend/diff.go:32-42 | Equal sizes and inclusion one way amount to equal key sets |
| Diff.CloneState | internal/backend/diff.go:17-26 | The copy has the same value and shares no slice with the original |
| Lists.AddCountExact | internal/store/store.go:217-232 | The sorted union in normal form, with the count equal to the growth iff no empty string is added |
| Lists.RemoveCountExact | internal/store/store.go:234-250 | The sorted difference in normal form, with the count equal to the shrinking |
| Lists.EditedMeans | internal/store/store.go:194-215 | After an edit an item is in its list, domain or IP, iff the edit names it and adds, or does not name it and it was there |
| Lists.RemoveAll | internal/store/store.go:234-250 | Compacting in place over the same backing array yields that difference and count |
| Lists.AddUnique | internal/store/store.go:217-232 | The append loop followed by sorting yields that union and count |
| Lists.NoOpsNeverNegative | cmd/webblockd/handlers.go:77-81 | On normal lists the number of requested items that changed nothing is never negative |
| Store.UidOfPath | internal/store/store.go:81-86 | The directory listing inverts the path naming |
| Store.SaveIsAtomic | internal/store/store.go:117-147 | Interrupted at any operation, by an error or by a crash, a save leaves the old lists or the old lists with the target replaced |
| Store.StoreRefinesMap | internal/store/store.go:149-192 | Over every history of mutations, failures and crashes each scope loads what was last committed to it, and the uids found are exactly those ever committed to |
| Store.LoadsWhatWasAdded | internal/store/store.go:149-192 | Over every history of mutations, failures and crashes, a scope loads exactly the items that the last committed edit of it to name them added |
| Store.Store.Mutate | internal/store/store.go:151-162 | Iff reading and saving succeed the counts are returned, and then an item is in the target's list iff it is named and added, or not named and was there; no other list changes, and none otherwise |
| Store.Store.ListUserUIDs | internal/store/store.go:165-192 | The uids of the stored lists, ascending, each once |
| Decimal.AtoiInvertsItoa | internal/store/store.go:184-187 | Reading back the decimal text of any Go int yields it |
| Decimal.AtoiForgives | cmd/webblockd/authz.go:41-44 | A plus sign and leading zeros are accepted, a text without digits is not |
| RateLimit.RateLimiter.Allow | cmd/webblockd/ratelimit.go:28-42 | The method on shared count objects decides and updates as the pure window step does, for its uid only |
| RateLimit.AdmitsAtMost | cmd/webblockd/ratelimit.go:28-42 | In any closed interval of length l, over every run of requests by anybody, a uid is admitted at most (ceil(l/(window + 1 tick)) + 1) times the limit, 1 for limits below 1 |
| RateLimit.AdmitsAtMostPerWindow | cmd/webblockd/ratelimit.go:28-42 | So for positive windows at most (ceil(l/window) + 1) times |
| RateLimit.BoundReached | cmd/webblockd/ratelimit.go:33-36 | For every limit and every number of windows some run reaches the bound |
| RateLimit.RefusedOnlyWhenBusy | cmd/webblockd/ratelimit.go:33-39 | A refused request had the full limit of its uid admitted within the window's length before it |
| RateLimit.OthersDoNotMatter | cmd/webblockd/ratelimit.go:32-35 | Verdicts for a uid are those of the run with all other uids deleted |
| Validate.ValidIff | internal/validate/validate.go:59-99 | A domain is valid iff it is at least two well-formed labels joined by dots, at most 253 long, and no address |
| Validate.ValidIsFixed | internal/validate/validate.go:25-55 | Normalisation leaves every valid domain alone |
| Urls.UrlIsItsHost | internal/validate/validate.go:22-55 | A pasted URL, with or without scheme, user, final dot, port and tail, normalises to its host iff no text of its tail is taken for the host instead (a "://" after the host when there is no scheme, and then the last `@`), or that text names the same host; and what comes out otherwise |
| Urls.NamesHostIff | internal/validate/validate.go:40-54 | The last stages find a given host iff the text begins with it and goes on with a dot or not, one port or not, and then nothing or a separator |
| Urls.SchemeGoes | internal/validate/validate.go:32-35 | What the first "://" of the text leaves: all after the scheme, or the rest of the user information, or the rest of the tail |
| Urls.LaterScheme | internal/validate/validate.go:33-35 | "a.com/?http://b.com" becomes "b.com" |
| Urls.EmptyPort | internal/validate/validate.go:33-35 | "a.com://b.com" becomes "b.com" |
| Urls.LaterAt | internal/validate/validate.go:36-39 | "http://a.com/@b.com" becomes "b.com" |
| Validate.NormalizeDomain | internal/validate/validate.go:25-55 | The step-by-step method leaves every valid domain as it is, and otherwise computes the stages whose outcome on URLs Urls.UrlIsItsHost states |
| Validate.AcceptedPassUnchanged | cmd/webblockd/handlers.go:168-187 | What a client accepted, the daemon accepts unchanged iff it is at most 256 items; nothing accepted is empty |
| Validate.NormalizeAndValidate | cmd/webblockd/handlers.go:168-187 | The loops clean every input in order or stop at the first bad one, behind the limit on their number |
| Validate.CleanDomains | cmd/webblock/main.go:202-212 | The client's loop accepts all cleaned domains in order or returns the problem of the first bad one |
| Validate.CleanDomainIff | internal/validate/validate.go:57-80 | An input is accepted as a domain as d iff d is its normal form and is two or more well-formed labels joined by dots, short enough and no address |
| Validate.CleanIPIff | internal/validate/validate.go:101-113 | An input is accepted as an address, as its canonical text, iff without the spaces around it it parses to either family |
| Validate.GoodInputsIff | cmd/webblockd/handlers.go:168-187 | Inputs are taken iff there are at most 256 and each is clean, and then one by one as their clean texts |
| Validate.TrimIs | internal/validate/validate.go:26-29 | Trimming takes the spaces off both ends and nothing else |
| Validate.CaseDoesNotMatter | internal/validate/validate.go:30 | Inputs that differ in case, and in the spaces around them, have one normal form |
| Validate.ProblemMeans | internal/validate/validate.go:59-99 | What each error about a domain says holds of it |
| Authz.ScopesReached | cmd/webblockd/authz.go:22-54 | Over all targets, a caller other than root reaches its own list and nothing else, and root reaches every list the store can hold |
| Authz.RootTargets | cmd/webblockd/authz.go:30-54 | Target by target, for root: nothing and "global" are the global list, a number is that uid's list, another name is the list of the uid the user database has for it, and is denied if there is none or it is no number |
| Authz.OwnTargetsOnly | cmd/webblockd/authz.go:22-28 | Any other caller is allowed, to its own list, iff the target is empty or the text of its own uid |
| Handlers.Daemon.Handle | cmd/webblockd/server.go:71-95 | Decoding, rate limit, dispatch and handler together do to lists and windows, and answer, what the specification of one request says |
| Handlers.Daemon.Mutate | cmd/webblockd/handlers.go:32-67 | Authorization, then validation, then the edit; an error whenever the edit or its application failed, counts otherwise |
| Handlers.Daemon.ShowAsRoot | cmd/webblockd/handlers.go:104-128 | The loop returns the global list and exactly the stored users' lists by ascending uid |
| Requests.EditTaken | cmd/webblockd/handlers.go:32-67 | A saved add leaves every cleaned input in the target list and a saved remove none, domains and IPs each in their own; the rest of that list and all others stay; the answer names the action iff the rebuild succeeds |
| Requests.OnlyEditsChange | cmd/webblockd/handlers.go:32-67 | Nothing but a served, allowed, valid and saved add or remove changes any list |
| Requests.AnswerKinds | cmd/webblockd/dispatch.go:32-43 | Each answer but those to edits iff its check is the first to fail or its handler the one asked for: malformed, newer version, unknown action, status, views, denied, invalid, nothing to do |
| Requests.FailuresAreErrors | cmd/webblockd/handlers.go:60-64 | Failed reads and saves are answered with the one error and change no list |
| Requests.ServedAtMost | cmd/webblockd/server.go:82-87 | Over every history of connections the daemon serves a caller in any interval no more requests than the limiter's bound |
| Requests.RootIsShownAll | cmd/webblockd/handlers.go:104-128 | Root is answered the global list and then every stored list once, by ascending uid, with its owner's name |
| Requests.UserIsShownOwn | cmd/webblockd/handlers.go:130-148 | Any other caller is answered its own list and, to read only, the global one |
| Isolation.UsersAreIsolated | cmd/webblockd/handlers.go:97-148 | With nft, deleting from any history all requests by callers other than root and u leaves u's list, the global list, u's rate window and every answer u ever got unchanged, answers about failed rebuilds included |
| Isolation.AnswersSameIff | cmd/webblockd/handlers.go:32-148 | With either backend, and ipset sets not full (65536 elements by default), lists and rate window are unchanged, and the answers are iff at each rebuild u asked for that its own, the global and root's lists allow, the two histories agree on whether the backend refuses something of other users' stored lists at the cached addresses |
| Isolation.NullAddressDisturbs | cmd/webblockd/handlers.go:32-67 | With iptables, after one user stored 0.0.0.0 another user's request to add an address is answered with an error; without the first request it succeeds |
| Isolation.SameAnswerIff | cmd/webblockd/handlers.go:53-62 | Of two systems alike for a user, one request of the user is answered the same iff it gets to no rebuild or other users' lists are refused in both or in neither |
| Isolation.ReportIsExact | cmd/webblockd/handlers.go:32-86 | At any point of any history that began with lists in normal form, a saved edit is answered with exactly how much each list grew or shrank and how many requested items changed nothing, or with the error iff the rebuild did not succeed |

## Left out

- External processes: nft, ipset and iptables are typed interpreters that may fail at any step; `run`, `runStdin`, `listIpsets` and `Detect` are not modelled.
- Script text: commands are typed values; only names are text, because their injectivity matters.
- Firewall drift: of all foreign edits only the removal of the nft table is modelled. Foreign rules that refer to our sets, and OUTPUT rules that decide a packet before the jump, are not.
- Memory and element limits of the kernel's sets are not modelled: ipset sets are taken to hold any number of addresses, where hash:ip stops near 65536 by default, and there the success and isolation results for iptables end.
- UsersAreIsolated: requests are served one after another, interleaved requests being the subject of the rebuild protocol; faults of system calls, and the cache a rebuild builds from, are given with each request.
- AnswersSameIff: the same, and no ipset set is full.
- UrlIsItsHost: hosts are texts without `:`, so addresses in brackets are not covered.
- ShowAsRoot: the store reads of one show request fail together or not at all, which its answer cannot tell apart.
- NoLostUpdate: one process's engine; restarts are covered by the store's crash theorem and by starting from any store.
- SaveIsAtomic: a crash stops between operations; a file system that reorders a rename before the data it renames is not modelled, and the code does not sync.
- JSON: a complete file reads back as the list it was written from, a partial one does not parse.
- DNS, address parsing and the user database are parameters; what is needed of them is the predicate `Sane`, and that the user database does not change during a run.
- Strings are sequences of characters: the length limit on domains counts characters where the code counts bytes, which only changes which error a non-ASCII name gets.
- ExactlyOnce: what a single lookup does with its answer, `Resolve` and its sorting, is not modelled.
- Sockets, deadlines, peer credentials, tickers, logs, command line parsing and the rendering of labels and messages are not modelled; views and messages are typed values.
