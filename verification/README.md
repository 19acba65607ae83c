# Models and proofs of the server and compiler core

This project models five parts of the repository in Dafny and proves what they are for.

1. **The WebSocket registries** (`ws/internal/src`). `WsState` holds the connection, tombstone, per-IP, request and
   channel tables as one value and every registry operation as a function on it. `WsInvariants`, `WsAccounting` and
   `WsRuns` prove the membership invariant, the quotas, the life of proprietary channels and the empty-channel sweep for
   every run; `WsEffects` says of every step who and what comes, stays and goes; `WsQuota` what a creator's count says
   and when its next channel is allowed; `WsAdmission` how far the limit per IP holds when handshakes overlap. `WsRate`
   proves the request limit and `WsRequests` carries it over to runs. `WsLate` has the messages that a broken-off
   connection still has in its buffer, and its second closing, while the server goes on. `WsObjects` has the same
   operations as methods of classes that share objects by pointer and update them in place, each proved to compute the
   function of `WsState`; `WsLeaving` shows that the loops over maps inside them give the same result in every order.
2. **The query compiler** (`query`). `QueryCompile` and `QueryBuilding` are the compiler and the builder. `QueryMeaning`
   is an independent reading of SQL conditions: a lexer, a recursive-descent parser with the usual precedence of AND
   over OR, and an evaluator that binds arguments to placeholders from left to right and resolves qualified columns
   through the joins. `QueryProof` proves that compiling a tree and reading the text back gives the tree's truth value.
   `QueryAliases` has the join-alias table, and `QueryJoins` reads columns through the emitted joins, over the rows of a
   database.
3. **The JavaScript linker** (`jspp/compiler`). `FileOrder` and `FileGroup` are the ordering of class files by counted
   dependency paths, `ModuleScan` the search for modules, `Emission`, `Closure` and `LinkSteps` say what a build puts
   out and which files it takes in, and `Linker` is the recursive compiler itself. `LinkRuns` is its recursion as
   relations between what is noted before a call and after it, without any bound: every method of `Linker` is proved to
   be one of its runs, and a call that never comes back has none. `LinkEnds` says from which files it comes back.
   `LinkTexts` and `LinkPlacing` describe the text a build puts out: what stands where, at every depth.
4. **The scanners and parsers**. `Scanner` has the scanners for JavaScript text, `TokenRules` what their tokens are, and
   `ImportArgs` the cutting of import arguments; `MdLines`, `MdBlocks` and `MdParser` the block structure of Markdown,
   and `MdShapes` what its blocks look like; `LxmlForest`, `LxmlReader`, `LxmlSpine` and `LxmlParser` the parser of
   indented nodes, and `LxmlSpelling` what the texts it accepts say.
5. **The merge of configuration trees**. `ConfigMerge` is the merge as a function of trees; `ConfigHeap` has both
   implementations as methods that change map objects in a heap, one copying and one sharing what it takes over.

## What was found

- A connection that the server breaks off (`connection.go:345-350`) is closed twice, once by `Break` and once by the
  deferred call in `Handle`. The second call moves the tombstoned connection on to the status `Closed`, so when its
  tombstone expires, `Close` returns at once and its proprietary channels are never closed: `WsRuns.BreakOrphans`,
  `WsRuns.OrphanStays`. A proprietary channel whose creator is refused entry right after creating it, or that is created
  for a connection without entering it, is left alone in the same way. `WsRuns.HeldExactly` shows that among the steps of
  a run these are the only ways.
- The limit of connections per IP is checked before the client's handshake and not again when the connection is added
  (`connection.go:172-201`, `connections_repo.go:57-66`). Where handshakes of one IP overlap it can be exceeded: by as many
  connections as can be pending at once, less one (`WsAdmission.RunIpBound`), and for every limit and every such number
  there is a run that reaches this (`WsAdmission.IpBoundIsTight`). An addition keeps the limit if and only if the check,
  made at that moment, would pass (`WsAccounting.AddWithinLimit`). The table's count itself is always exact.
- After an invalid message, `Break` closes the connection, but `Handle` goes on with what is in its read buffer until the
  deferred second `Close` (`connection.go:169-244`, `connection.go:544-571`). Such late messages are no steps of the runs
  here, because they break what runs keep: a late entry that succeeds gives a channel a member that no lookup finds
  (`WsLate.LateEnterSound`), a late creation is missing in the tombstone's count (`WsLate.LateCreateCovered`), so that a
  creator can exceed its limit (`WsLate.LateCreateExceeds`), and a late proprietary channel is held by nobody
  (`WsLate.LateCreateHeld`). Through any late messages and other steps the tables stay sound but for what was entered late
  (`WsLate.LateRun`), and the second `Close` repairs them if and only if no channel entered late is listed by another
  connection that has taken the ID over by then (`WsLate.SecondCloseExactly`). If one is, the new owner of the ID loses the
  channel, or has it closed if it is proprietary (`WsLate.TakenOver`, `WsLate.TakenOverTorn`). If the tombstone has expired
  first, the second `Close` does nothing (`WsLate.SecondCloseTooLate`), and a late entry can stay for good
  (`WsLate.EntryForgotten`). It never repairs the count, and ends a late proprietary channel only if its creator was let in
  (`WsLate.LateChannelEnds`).
- A creator gets its quota back with every channel that is closed while it is live, and for those that are closed while it
  has only a tombstone it does not, even after a reconnect (`WsQuota.CountFollows`). Its next channel is allowed if and only
  if its open channels and those lost ones are fewer than the limit (`WsQuota.RunCreates`).
- `Reconnect` keeps the membership tables consistent exactly when the connection that takes over an old ID has joined no
  channel under its temporary one (`WsInvariants.SoundReconnect`).
- Within any minute the request limiter can accept one request less than twice its limit, and no more
  (`WsRate.MinuteBound`, `WsRate.MinuteBoundIsTight`).
- An empty group compiles to text that is no condition; every other tree compiles to one that means the same
  (`QueryProof.CompilePreservesMeaning`).
- A column of GROUP BY, HAVING or ORDER is joined exactly when there is a WHERE part and it mentions the column's relation
  (`QueryBuilding.LateColumnJoined`). A field of more than two segments means what its first two mean
  (`QueryMeaning.LongField`).
- Ordering a group of files ends exactly when no file extends itself through others (`FileOrder.CountingEnds`).
- Compiling a file comes back, for any order of the groups and any result of the module searches, if the file leads to no
  file on a cycle of forced imports and to no group with a cycle of class extensions (`LinkEnds.BuildableEnds`); where no
  module's file is unsound, only then (`LinkEnds.CompilingEnds`). Forced imports of a group with an unsound file do not
  count, since such a group is given up before anything is compiled. Where the file of some module is unsound, the failing
  module can cut a cycle off (`LinkEnds.SpoiltLoopEnds`). Text of compiled files is lost in the same case only
  (`Linker.Compiler.BuildFile`).
- In the text of a group a class stands in front of a class that extends it, unless imports lead to the latter from the
  former or from a file before it in the order (`LinkTexts.GroupPutsParentsFirst`, `Linker.BuiltInOrder`).
- A module search lists every module that the names lead to exactly when no two of those modules share a file
  (`ModuleScan.ModulesAreExact`).
- The language tag of a code fence is given to the block that the fence line finishes, and not to the code, unless
  nothing (or only fenced code) stands directly before it (`MdBlocks.FenceTagGoes`).
- A line that looks like a title, a rule or a table row is one inside a code fence, too: it interrupts the code, which goes
  on behind it as a block that starts with no fence (`MdShapes.FenceInterrupted`).
- The indented print of what the node parser read is accepted again, with the same result, exactly when the first node
  stands at depth 0; blank or comment lines let it stand at depth 1 (`LxmlReader.ReadThenPrint`).
- Merging a source twice is merging it once exactly when no nil map is taken over from it (`ConfigMerge.MergeTwice`). That
  holds in place too, where the first merge made dst share the source's map objects (`ConfigHeap.Heap.MergeAliasing`).

## Model

| member | source | states |
|---|---|---|
| WsInvariants.SoundStep | ws/internal/src/connections_repo.go:57-226 | Every enabled step of the server keeps: live and tombstone IDs disjoint, a live connection lists exactly the channels that list it, every channel member is a live connection, a tombstoned record lists nothing. Late messages are no steps (WsLate) |
| WsInvariants.SoundReconnect | ws/internal/src/connections_repo.go:105-141 | Re-keying keeps the membership tables consistent if and only if the connection joined no channel under its temporary ID |
| WsInvariants.SoundEnter | ws/internal/src/channel.go:102-146 | Entering, allowed, refused or repeated, keeps both sides of the membership in agreement |
| WsInvariants.SoundLeave | ws/internal/src/channel.go:170-199 | Leaving keeps both sides in agreement, also when it closes the creator's own channel and puts the other members out |
| WsInvariants.SoundCloseChannel | ws/internal/src/channel.go:214-243 | Closing a channel takes its key from every member and leaves all other memberships in agreement |
| WsInvariants.SoundClose | ws/internal/src/connection.go:305-343 | Closing a live connection, for good or as a tombstone, leaves no channel that lists it |
| WsInvariants.SoundExpire | ws/internal/src/connections_repo.go:196-226 | Expiring a tombstone keeps the membership of everybody else in agreement |
| WsInvariants.SoundCreate | ws/internal/src/channels_repo.go:66-125 | Creating a channel, or being refused, keeps the membership tables consistent |
| WsAccounting.CoveredStep | ws/internal/src/channels_repo.go:66-125 | Every step keeps: the channels open under a creator's ID are at most the count its connection or tombstone carries, and that count is within the limit. Late messages are no steps (WsLate) |
| WsAccounting.CountedStep | ws/internal/src/connections_repo.go:57-126 | Every step keeps: the per-IP table has exactly the number of live connections of each IP, and no zero or negative entry |
| WsAccounting.AddWithinLimit | ws/internal/src/connections_repo.go:57-66 | Adding a connection leaves its IP within the limit if and only if the check, made at that moment, would pass |
| WsAccounting.ClockedStep | ws/internal/src/channel.go:245-268 | Every step keeps: a registered channel has an empty-since time exactly while it has no member |
| WsRuns.RunConsistent | ws/internal/src/connections_repo.go:57-226 | Membership, quota, per-IP count and empty-since invariants hold at every moment of every run from the initial state, however handshakes overlap, short of late messages |
| WsRuns.RunLimits | ws/internal/src/channels_repo.go:66-125 | At every moment of every run, short of late messages: lookups of channel members succeed, nobody who is live or tombstoned has more channels open than the limit, an IP is listed exactly while it has a live connection, and with their exact number |
| WsRuns.EndsExactly | ws/internal/src/channel.go:164-243 | A registered channel disappears in a step if and only if the step is one of five named causes (closing, due sweep, owner's leaving, closing for good or expiring); otherwise creator and kind are unchanged |
| WsRuns.HeldExactly | ws/internal/src/channel.go:164-199 | A step keeps every proprietary channel held by its creator, live or tombstoned, if and only if it is none of the orphaning steps; for late messages see WsLate.LateCreateHeld |
| WsRuns.RunHeld | ws/internal/src/channel.go:164-199 | In a run without an orphaning step every proprietary channel is held by its creator throughout |
| WsRuns.CreatorGone | ws/internal/src/connections_repo.go:196-226 | Once a creator has closed for good, or its ordinary tombstone expired, no proprietary channel of its is left |
| WsRuns.WaitingStep | ws/internal/src/channel.go:170-199 | A proprietary channel waiting for its disconnected creator is kept by every step but its own closing, the expiry or the reconnect |
| WsRuns.RunWaits | ws/internal/src/connections_repo.go:83-103 | The same over any stretch of a run |
| WsRuns.RunSurvivesReconnect | ws/internal/src/connections_repo.go:83-141 | Over a run: a creator that disconnects and later reconnects from the same IP finds its proprietary channel, owned by it, with itself as a member again |
| WsRuns.BreakOrphans | ws/internal/src/connection.go:305-350 | A creator closed by Break, closed again as Handle returns, and expired, leaves its proprietary channel open with nobody to close it |
| WsRuns.OrphanStays | ws/internal/src/connections_repo.go:196-226 | An orphaned channel survives every step but an explicit close of it |
| WsRuns.EmptySinceRun | ws/internal/src/channel.go:245-256 | Over any run, the recorded time of an empty channel is the time of the step since which it has been empty without a break, and not before |
| WsRuns.SweepIsSafe | ws/internal/src/channels_repo.go:201-247 | The sweep closes only a channel that is neither proprietary nor the default one and had no member during the whole TTL before |
| WsRuns.SweepExactly | ws/internal/src/channels_repo.go:201-247 | A sweep closes a registered channel if and only if a TTL is set, the channel is neither proprietary nor the default one, and all states since some moment at least a TTL ago show it empty |
| WsQuota.ClosingCounts | ws/internal/src/channel.go:233-243 | Closing a channel takes one from the count of its creator if that is live, and changes no other count |
| WsQuota.CountFollows | ws/internal/src/channels_repo.go:66-125 | In every step, of every ID that keeps its connection or tombstone: the count rises and falls with the number of its open channels, but for those closed while it has only a tombstone |
| WsQuota.RunCount | ws/internal/src/connections_repo.go:83-141 | From admission on, through disconnecting and reconnecting: the count is the number of open channels plus that of the channels closed while the connection was away |
| WsQuota.RunCountExact | ws/internal/src/channel.go:233-243 | A connection that has not been away has as many channels open as its count says |
| WsQuota.RunCreates | ws/internal/src/channels_repo.go:66-125 | A valid request for a free key adds the channel if and only if there is no limit, or the creator's open channels and those closed while it was away are fewer |
| WsQuota.RunCreatesExactly | ws/internal/src/channels_repo.go:66-125 | For a creator that has not been away: if and only if there is no limit or its open channels are fewer |
| WsEffects.LiveExactly | ws/internal/src/connections_repo.go:57-141 | Live after a step are those added, those that took over a tombstone of their IP, and those live before that have neither closed nor taken over another ID |
| WsEffects.TombsExactly | ws/internal/src/connections_repo.go:83-226 | Tombstones after a step: put up by a closing that is not final, kept until due expiry, a reconnect of the same IP or an addition of the ID |
| WsEffects.TombstoneHolds | ws/internal/src/connections_repo.go:83-103 | A closing that is not final leaves the channels, the IP and the time until which the connection may come back |
| WsEffects.AppearsExactly | ws/internal/src/channels_repo.go:66-125 | A channel appears in a step if and only if the step is a valid request for its key within the creator's quota; it has the kind and creator asked for |
| WsEffects.MembersExactly | ws/internal/src/channel.go:102-199 | Members of a channel after any step are exactly those let in by it (entering, creating, or reconnecting to a tombstone that lists the channel) and those in before that have neither left nor closed |
| WsEffects.InitExactly | ws/internal/src/channels_repo.go:42-55 | The server starts with the default channel, if one is configured, and with nothing else |
| WsEffects.RunDefault | ws/internal/src/channels_repo.go:42-55 | In every run the default channel stays, unless it is closed by name |
| WsAdmission.RunIpBound | ws/internal/src/connection.go:169-205 | At every moment of every run: live and pending connections of an IP together are at most its limit plus the most that were pending at once, less one; so the limit holds while handshakes do not overlap |
| WsAdmission.IpBoundIsTight | ws/internal/src/connection.go:169-205 | For every limit and every number of pending handshakes there is a run with exactly that many live connections: all pass the check before any is added |
| WsLate.LateEnterSound | ws/internal/src/connection.go:544-571 | A message handled after Break that enters a channel breaks the membership tables if and only if it succeeds; the channel then has a member that no lookup finds |
| WsLate.ButStep | ws/internal/src/connections_repo.go:57-226 | Every step of the server keeps the membership tables sound but for the late entries of one ID |
| WsLate.LateLeaveFine | ws/internal/src/connection.go:374-382 | A late departure keeps this if and only if no new owner of the ID lists the channel |
| WsLate.LateRun | ws/internal/src/connection.go:207-244 | From Break on, through any late messages and any other steps of the server (but late departures from channels of a new owner), the tables are sound but for what was entered late |
| WsLate.SecondCloseExactly | ws/internal/src/connection.go:305-314 | After any such run, and in any order of its loop, the deferred second Close makes the tables sound if and only if no channel entered late is listed by a new owner of the ID |
| WsLate.SecondCloseRepairs | ws/internal/src/connection.go:305-314 | So it always does while nobody has taken the ID over; then it also leaves no channel open that was entered late and belongs to the connection |
| WsLate.LastCloseIsSecondClose | ws/internal/src/connection.go:305-314 | While the tombstone is the connection's own, the second Close has one result in every order; where nothing came late, it changes the status of the tombstoned connection and nothing else |
| WsLate.SecondCloseTooLate | ws/internal/src/connections_repo.go:196-226 | After the tombstone has expired the second Close does nothing, and the tables are sound if and only if no late member is left that its ID's owner does not list |
| WsLate.TakenOver | ws/internal/src/connections_repo.go:105-141 | A channel of the tombstone is entered late and another connection takes the ID over: the tables are sound again, and the closed connection still lists the channel |
| WsLate.TakenOverTorn | ws/internal/src/channel.go:170-199 | There the second Close takes the channel from the new owner, which goes on listing it, or closes it if it is proprietary |
| WsLate.EntryForgotten | ws/internal/src/connections_repo.go:196-226 | A channel that the tombstone does not list is entered late and the tombstone expires: the membership outlives the second Close |
| WsLate.LateCreateCovered | ws/internal/src/connection.go:790-866 | After a late creation the quota is covered if and only if it was refused or the tombstone's count had room to spare |
| WsLate.LateCreateExceeds | ws/internal/src/connections_repo.go:94-101 | One late creation, a reconnect and one more creation take a creator one channel beyond the limit |
| WsLate.LateCreateHeld | ws/internal/src/connection.go:790-866 | A late creation keeps every proprietary channel held if and only if it is refused or not proprietary, or the tombstone happens to list the key |
| WsLate.LateChannelEnds | ws/internal/src/channel.go:170-199 | The second Close ends a late proprietary channel if and only if its creator was let in |
| WsRate.FirstOfWindow | ws/internal/src/connections_repo.go:164-187 | After any history the counter is the window's opening time and the number of requests in it; a request is accepted if and only if it is among the first max of its window |
| WsRate.WindowBound | ws/internal/src/connections_repo.go:164-187 | At most max requests are accepted inside one window |
| WsRate.MinuteBound | ws/internal/src/connections_repo.go:164-187 | With a clock that does not go back, any stretch of a minute has at most 2 * max - 1 accepted requests, whatever happened before |
| WsRate.MinuteBoundIsTight | ws/internal/src/connections_repo.go:164-187 | For every limit there is a history that reaches that bound |
| WsRequests.RunCounters | ws/internal/src/connections_repo.go:164-187 | Under a request limit no entry of the request table is nil at any moment of a run, so the unchecked look into it is safe |
| WsRequests.RunHistory | ws/internal/src/connections_repo.go:105-187 | From a moment without a counter on, while the connection is live, under whatever IDs it has meanwhile: its counter in the run is the one the limiter has after its messages |
| WsRequests.RunMinuteBound | ws/internal/src/connections_repo.go:105-187 | In any minute of such a stretch of a run at most 2 * max - 1 messages of the connection pass, re-keying or not |
| WsLeaving.LeaveEachIsLeaveAll | ws/internal/src/connection.go:389-403 | Leaving the channels one at a time gives one result in whatever order the map yields them, and that result in closed form |
| WsLeaving.ExpireInSteps | ws/internal/src/connections_repo.go:196-226 | The sweep's steps for one entry (restore, close, forget) add up to the expiry as one step |
| WsLeaving.ReconnectInSteps | ws/internal/src/connections_repo.go:105-141 | Re-keying, rejoining one channel after the other and restoring the count add up to the reconnect as one step |
| WsObjects.Connection.CheckIn | ws/internal/src/connection.go:169-176 | Passes exactly when the IP may have one more connection at this moment; nothing is reserved and nothing changes |
| WsObjects.Connection.Admit | ws/internal/src/connection.go:177-205 | From the handshake to the message loop, whatever happened since the check: the connection is added exactly when the handshake succeeds and the origin is allowed; otherwise nothing changes |
| WsObjects.Connection.EnterChannel | ws/internal/src/connection.go:356-372 | Changes the shared objects as the registry model says; succeeds if and only if already a member or allowed |
| WsObjects.Connection.LeaveChannel | ws/internal/src/connection.go:374-382 | Changes connection, channel, other members and registry as the registry model says |
| WsObjects.Connection.LeaveAllChannels | ws/internal/src/connection.go:389-403 | Live, tombstoned or neither, and with the ID in whoever's hands: the channels are left one at a time, each once, in the order the loop takes; without a live owner of the ID all objects end as in the closed form of leaving |
| WsObjects.Connection.Close | ws/internal/src/connection.go:305-343 | By status: nothing, or the second Close (of an ID that may be another's by then), or removal or tombstone with leaving; for a connection that was never added, leaving alone. The whole new state in each case |
| WsObjects.Connection.IncrementCreatedChannels | ws/internal/src/connection.go:130-134 | Adds one to this connection's count and changes nothing else in any registry |
| WsObjects.Connection.DecrementCreatedChannels | ws/internal/src/connection.go:136-142 | Takes one from the count but never below zero |
| WsObjects.Channel.RefreshEmptySince | ws/internal/src/channel.go:245-256 | Leaves a time exactly while empty, and keeps an earlier one |
| WsObjects.Channel.AddConnection | ws/internal/src/channel.go:102-127 | The channel gains one live member; nothing else in any registry changes |
| WsObjects.Channel.Enter | ws/internal/src/channel.go:129-146 | Succeeds if and only if already a member or allowed; only then, and only if new, the member is added |
| WsObjects.Channel.Leave | ws/internal/src/channel.go:170-199 | The member is gone; the channel is closed as well exactly when it is proprietary, the leaver created it and is not merely disconnected |
| WsObjects.Channel.Close | ws/internal/src/channel.go:214-243 | Does nothing if closed before; otherwise takes the key from all members, credits a live creator and unregisters the channel |
| WsObjects.ConnRepo.Add | ws/internal/src/connections_repo.go:57-66 | The connection is live under its ID, in the place of any other; its IP counts one more and a tombstone of the ID is gone |
| WsObjects.ConnRepo.RemoveImmediate | ws/internal/src/connections_repo.go:68-81 | All four tables forget the ID and the IP counts one less, also where the connection is not live |
| WsObjects.ConnRepo.MarkDisconnected | ws/internal/src/connections_repo.go:83-103 | The connection gets a tombstone with its channels, count and expiry time; if it was live it leaves the live table, its IP counts one less and its request counter is gone |
| WsObjects.ConnRepo.Reconnect | ws/internal/src/connections_repo.go:105-141 | Succeeds if and only if there is a tombstone of the same IP; then the connection has the old ID, the old count and those old channels that still exist, which list it again |
| WsObjects.ConnRepo.CheckRequestLimit | ws/internal/src/connections_repo.go:164-187 | Counts the request in the ID's window and answers as the limiter model does |
| WsObjects.ConnRepo.Sweep | ws/internal/src/connections_repo.go:196-226 | Every tombstone is looked at, in some order, and exactly the due ones are expired one after the other; the membership invariant holds afterwards |
| WsObjects.ConnRepo.DropIP | ws/internal/src/connections_repo.go:228-233 | One less for the IP, and no entry once that is zero |
| WsObjects.ChannelRepo.Init | ws/internal/src/channels_repo.go:42-55 | From empty registries, the initial state: the default channel if one is configured |
| WsObjects.ChannelRepo.CreateChannel | ws/internal/src/channels_repo.go:66-125 | Creates exactly when the creator's count, the key and the validator allow it, charges the creator, and rolls back otherwise |
| WsObjects.ChannelRepo.Insert | ws/internal/src/channels_repo.go:150-160 | One new empty channel is registered; nothing else changes |
| WsObjects.ChannelRepo.Remove | ws/internal/src/channels_repo.go:175-179 | The key, and no other, is unregistered |
| WsObjects.ChannelRepo.Sweep | ws/internal/src/channels_repo.go:201-247 | Exactly the channels due when the sweep starts are closed, in some order, by the in-place Close |
| QueryProof.CompilePreservesMeaning | query/group.go:13-24 | For every tree and every truth of its tests: the compiled text, parsed and with its arguments bound in order, under any later alias table, is true exactly when the tree is; there is no parse exactly when some group is empty |
| QueryPlan.TextParses | query/group.go:13-24 | The text of a tree parses to that tree's expression and uses up the whole text and as many placeholders as it has arguments, or fails if a group is empty |
| QueryPlan.LexPlan | query/condition.go:13-38 | The text of any tree is cut by the lexer into the words meant, also where another word follows it |
| QueryProof.CompileIsPlan | query/condition.go:13-38 | The arguments are those of the tree from left to right, one for each placeholder in the text |
| QueryProof.ColumnResolves | query/compiler.go:33-53 | A compiled column, looked up through the joins of any later state, is the field that was meant |
| QueryMeaning.ShortFieldsApart | query/compiler.go:33-53 | Fields of one or two segments refer to the same column only if they are the same field, provided the naming keeps different names apart |
| QueryMeaning.LongField | query/compiler.go:33-53 | A longer field refers to the same column as its first two segments alone |
| QueryAliases.AliasInjective | query/compiler.go:21-31 | Different counts give different aliases |
| QueryAliases.SaneAlias | query/compiler.go:21-31 | Asking for an alias keeps distinct relations on distinct aliases and changes none that was given |
| QueryAliases.CompileJoins | query/compiler.go:33-57 | Compiling a tree adds aliases for exactly the relations it mentions and changes none that was given |
| QueryCompile.Compiler.AliasOf | query/compiler.go:21-31 | The mutable table after the call is the alias model's |
| QueryCompile.Compiler.ColumnOf | query/compiler.go:33-53 | Text and mutable table are the column model's |
| QueryCompile.Compiler.CompileNode | query/compiler.go:55-57 | The compiler that appends parts and arguments in loops over its mutable table gives the compile function's text, arguments and table |
| QueryBuilding.CombinedHolds | query/query_builder.go:86-105 | AndWhere means conjunction and Or disjunction with whatever the root was, and neither makes an empty group |
| QueryBuilding.QueryBuilder.Where | query/query_builder.go:80-84 | The condition replaces the previous root |
| QueryBuilding.QueryBuilder.AndWhere | query/query_builder.go:86-95 | The new root is the old one combined by AND with the condition, or the condition alone |
| QueryBuilding.QueryBuilder.OrWhere | query/query_builder.go:97-105 | The same with OR |
| QueryBuilding.QueryBuilder.Build | query/query_builder.go:193-217 | Text and arguments are those of the compiled root, and the joins are one for each alias and no other |
| QueryBuilding.QueryBuilder.EmitJoins | query/query_builder.go:203-217 | In any order of the map: exactly one LEFT JOIN for each relation with its alias, table and foreign key |
| QueryBuilding.WhereIsJoined | query/query_builder.go:197-217 | Every alias that qualifies a column of the WHERE text has exactly one join, and every join is used there |
| QueryBuilding.LateColumnJoined | query/query_builder.go:203-252 | Any column compiled after the joins, in whatever later state of the alias table, has its join if and only if there is a WHERE part and it mentions the relation |
| QueryJoins.JoinsRead | query/query_builder.go:203-217 | Over any database: a column of the text, read through the emitted joins, has the value of the field it stands for: of the row itself, or of the row of the relation's table whose id is the foreign key <relation>ID |
| FileOrder.CountingEnds | jspp/compiler/files_compiler.go:115-125 | The counting recursion ends from every file if and only if the dependency graph has no cycle |
| FileOrder.CounterIsPathCount | jspp/compiler/files_compiler.go:115-125 | Counting from every file once, in any order, leaves each with the number of dependency paths that end at it |
| FileOrder.ParentCountsLess | jspp/compiler/files_compiler.go:115-134 | A file's counter is strictly less than that of every file that depends on it |
| FileOrder.CounterOrderIsTopological | jspp/compiler/files_compiler.go:127-134 | Every order sorted by counter has all dependencies before their dependents, however ties are broken |
| FileGroup.NoteClasses | jspp/compiler/files_compiler.go:75-93 | The first file that defines a class keeps it; the parents are those of all definitions in order |
| FileGroup.DefinerIsFirst | jspp/compiler/files_compiler.go:75-93 | A class belongs to the first readable file of the group that defines it, and to none if none does |
| FileGroup.ParentsAre | jspp/compiler/files_compiler.go:90-92 | The parents of a file are the names its class definitions extend |
| FileGroup.Collect | jspp/compiler/files_compiler.go:55-102 | Fails if and only if some readable file is unsound; otherwise one new record for each readable file, and every class maps to its first definer |
| FileGroup.LinkFile | jspp/compiler/files_compiler.go:105-113 | The file is added, once, to exactly those files whose classes it extends |
| FileGroup.SetDependencies | jspp/compiler/files_compiler.go:104-113 | The dependencies are exactly the extension relation between different files, without duplicates |
| FileGroup.IncrementCounter | jspp/compiler/files_compiler.go:115-122 | Every counter rises by the number of paths from the start file to it |
| FileGroup.CountDependencies | jspp/compiler/files_compiler.go:115-125 | Every counter ends as the number of paths to its file, in any order of the map |
| FileGroup.SortFiles | jspp/compiler/files_compiler.go:127-134 | Every file exactly once, counters ascending |
| FileGroup.ParentsFirst | jspp/compiler/files_compiler.go:104-134 | In such an order a class's file comes before every file that extends it |
| FileGroup.OrderGroup | jspp/compiler/files_compiler.go:42-134 | From file names to order: fails only for an unsound file; otherwise every readable file once, each behind the files it extends |
| ModuleScan.CheckModule | jspp/compiler/modules_compiler.go:17-60 | Ends on cyclic imports; what it appends is what can be reached from the name and was not listed, each module and file once |
| ModuleScan.CheckModuleDependencies | jspp/compiler/modules_compiler.go:62-84 | The same for the names a file mentions; an unreadable file adds nothing |
| ModuleScan.CheckModules | jspp/compiler/imports_compiler.go:240-244 | The same for all module names of an import, in turn |
| ModuleScan.PathsAreExact | jspp/compiler/modules_compiler.go:17-84 | The files listed are exactly those of the modules that injector-resolved imports lead to, stopping at ignored, compiled or missing ones, each once |
| ModuleScan.ModulesAreExact | jspp/compiler/modules_compiler.go:17-84 | The modules listed are distinct and all reachable; they are all of them if and only if no two of those share a file |
| ModuleScan.SearchTakes | jspp/compiler/modules_compiler.go:17-84 | Listed are only known modules whose file is there, not ignored and not compiled; with the injector asked, the file of each such module that a requested name stands for is listed, and of each that the text of a listed file names |
| ModuleScan.SearchAsked | jspp/compiler/modules_compiler.go:17-84 | Every listed module is one that a requested name, or a name in the text of a listed file, stands for |
| Linker.Compiler.NoteFileCompiled | jspp/compiler/files_compiler.go:171-173 | The file is noted behind those noted before |
| Linker.Compiler.CompileFileGroup | jspp/compiler/files_compiler.go:42-156 | Fails exactly on an unsound readable file or a lost module; otherwise every readable file of the group is compiled, only what they lead to is noted, and both the noting and the text have a class before those that extend it, unless imports lead to the latter from the former or from an earlier file of the order |
| Linker.Compiler.EmitFiles | jspp/compiler/files_compiler.go:136-155 | Every sorted file is noted in its turn or before; the text is the concatenation, in that order, of one part for each file: its text, or nothing, and nothing of it again in a later part |
| Linker.Compiler.CompileFile | jspp/compiler/files_compiler.go:142-152 | The file is noted before its text is made; the text is its own pieces with the texts of its calls between them, at every depth |
| Linker.Compiler.ProcessImport | jspp/compiler/imports_compiler.go:210-278 | The file's pieces stay in order with the imported text between them, module text goes to the module code, and all files asked for are compiled afterwards when all files are sound |
| Linker.Compiler.PlugCalls | jspp/compiler/imports_compiler.go:261-275 | Inlines every call's path arguments between the file's own pieces |
| Linker.Compiler.PlugAll | jspp/compiler/imports_compiler.go:265-272 | What a call brings in is the concatenation of its path arguments' group texts, in the order of the arguments; failing ones are passed over |
| Linker.Compiler.PlugRequire | jspp/compiler/files_compiler.go:13-30 | The files of one path argument are compiled as a group with its flags |
| Linker.Compiler.ImportModules | jspp/compiler/imports_compiler.go:221-259 | The files of all reachable modules are compiled into the module code and the names noted once each |
| Linker.Compiler.BuildFile | jspp/compiler/compiler.go:153-197 | A whole build of a file that leads to no forced cycle and no cycle of class extensions ends; every file that is not forced appears whole and once or not at all. Where no module's file is unsound, noted are exactly the files the root leads to, and of those that are not forced each appears; where all files are sound, the noted ones are closed under what they ask for. The code is the texts of module groups and behind them the root's text with every import in its place. The build is one of the recursion's runs |
| LinkTexts.GroupPutsParentsFirst | jspp/compiler/files_compiler.go:113-155 | Of every group text, at whatever depth: all pieces of a class that no import forces stand before all pieces of a class that extends it, unless imports lead to the latter from the former or from an earlier file of the order |
| LinkTexts.WovenBetween | jspp/compiler/imports_compiler.go:261-278 | What stands at a file's i-th call stands between its own pieces i and i + 1 |
| LinkPlacing.NowhereElse | jspp/compiler/files_compiler.go:136-155 | A file that is whole and once in the code, with a piece in a group's text, is in that group's text only |
| Linker.BuiltInOrder | jspp/compiler/files_compiler.go:113-155 | In the whole code of a build: of two unforced files that one group puts out, all of a class stands before all of one that extends it, under the same terms |
| LinkSteps.OnceOrNever | jspp/compiler/files_compiler.go:136-173 | Whatever is not forced is emitted whole and once, if it is noted and no text was lost, and otherwise not at all |
| LinkSteps.TurnsDone | jspp/compiler/files_compiler.go:127-155 | Emitting in the sorted order notes a class's file before the files of the group that extend it, unless imports lead to such a file from the class's own file or from one before it in the order |
| Linker.CompiledExactly | jspp/compiler/imports_compiler.go:210-278 | After a build of sound files whose imports all resolve, a readable file is compiled if and only if imports lead to it from the root |
| LinkEnds.BuildableEnds | jspp/compiler/imports_compiler.go:210-278 | Whatever is noted already: compiling a file comes back if it leads to no file on a cycle of forced imports and to no group with a cycle of class extensions |
| LinkEnds.CompilingEnds | jspp/compiler/imports_compiler.go:210-278 | File by file, with nothing noted and no unsound module file: compiling comes back if and only if the file leads to no file on a cycle of forced imports, and to no path argument whose group has a cycle of class extensions |
| LinkEnds.LoopNeverEnds | jspp/compiler/files_compiler.go:136-169 | From a file on a cycle of forced imports no run of the recursion comes back, in whatever order groups are sorted and modules are found |
| LinkEnds.CompiledAreLed | jspp/compiler/files_compiler.go:136-169 | Whatever run of a new compiler comes back from a file, where no module's file is unsound, has noted exactly the files it leads to, by groups that are not given up and by modules of modules, and none of them is on a cycle of forced imports |
| LinkEnds.OrderedOnly | jspp/compiler/files_compiler.go:78-134 | A group has an order with parents first only if its class extensions form no cycle |
| LinkEnds.SpoiltLoopEnds | jspp/compiler/imports_compiler.go:240-249 | With an unsound module file a forced cycle can end: an input where it does |
| Closure.ClosedHolds | jspp/compiler/imports_compiler.go:226-272 | A list of compiled files closed under what each asks for holds everything that the first leads to |
| Closure.WantedReached | jspp/compiler/modules_compiler.go:17-84 | The files that a module search lists are reached by imports from the file that asked |
| Scanner.FindUnescapedByte | jspp/internal/lxml/parser.go:443-460 | The least position of the byte that no backslash escapes, or -1 exactly if there is none |
| Scanner.EscapedIsOdd | jspp/compiler/compiler.go:370-387 | A position is escaped exactly behind an odd number of backslashes |
| Scanner.StringEndIsFirstBare | jspp/internal/utils/string.go:11-87 | A literal ends behind the first unescaped quote of its kind, or with the text |
| Scanner.FindRegexLiteralEnd | jspp/internal/utils/string.go:119-144 | The loop computes the recursive search for the closing slash |
| Scanner.RegexCloseIsFirstStop | jspp/internal/utils/string.go:119-144 | That slash is the first unescaped one outside a character class, and there is none exactly if a newline comes first or nothing does |
| Scanner.TokensPartition | jspp/internal/utils/string.go:11-87 | The tokens are the text cut without gaps or overlaps |
| TokenRules.TokensExactly | jspp/compiler/compiler.go:395-466 | The tokens are the one cutting of the text that keeps to the rules of each kind: a literal ends behind its first bare quote, a line comment behind the first newline or at the end of the text, a block comment behind its first closing mark, a regular expression behind its flags, and code is what is none of these |
| Scanner.CutComments | jspp/compiler/compiler.go:395-466 | The output is the concatenation of all tokens that are not comments, each verbatim |
| Scanner.StepOver | jspp/compiler/compiler.go:420-460 | Comments and regular expressions are recognised as the token model says |
| Scanner.FindMatchingBrace | jspp/internal/utils/string.go:11-87 | The position of the first code token at which the brace depth returns to zero, or -1 exactly if it never does |
| Scanner.MatchIsFirst | jspp/internal/utils/string.go:11-87 | The search along the text finds the first token that closes what is open, for any number of open braces |
| Scanner.OpenUntilMatched | jspp/internal/utils/string.go:11-87 | Everything between an opening brace and its match leaves it open |
| Scanner.ImportCallAt | jspp/compiler/imports_compiler.go:37-92 | At a marker: a whole call up to its closing parenthesis, or no call begins before the place to go on from |
| Scanner.FindImportCalls | jspp/compiler/imports_compiler.go:37-92 | The spans are whole calls, in order and apart, and every other call lies inside one of them; what the arguments mean is not part of it |
| ImportArgs.SplitImportArgs | jspp/compiler/imports_compiler.go:97-131 | The arguments are the pieces between the top-level commas, in order and without white space at their ends; an empty piece counts unless it is the last |
| ImportArgs.CommasAreTop | jspp/compiler/imports_compiler.go:97-131 | The commas at which the text is cut are all those, and only those, that stand outside literals and brackets |
| ImportArgs.PiecesAreText | jspp/compiler/imports_compiler.go:97-131 | The pieces with their commas are the whole text |
| MdLines.NormalizeLine | jspp/internal/md/parser.go:33-51 | A normal line: empty or not blank, starting with exactly four spaces for each level of indentation |
| MdLines.NormalizeAgain | jspp/internal/md/parser.go:33-51 | A normal line is normalized to itself |
| MdLines.Outdented | jspp/internal/md/parser.go:161-165 | A nested line with four spaces and one level taken away is a normal line, and exactly those four characters are gone |
| MdLines.UnquotedArrows | jspp/internal/md/parser.go:82-85 | Stripping a quotation mark and normalizing leaves fewer '>' characters in a line that starts with one, and never more |
| MdBlocks.ParseData.IncSpaces | jspp/internal/md/blocks_builder.go:15-18 | One more blank line, and the number before is remembered |
| MdBlocks.ParseData.DropSpaces | jspp/internal/md/blocks_builder.go:20-23 | No blank lines, and the number before is remembered |
| MdBlocks.BlocksBuilder.DefineType | jspp/internal/md/blocks_builder.go:115-119 | The current kind becomes the previous one |
| MdBlocks.BlocksBuilder.CheckTitle | jspp/internal/md/blocks_builder.go:142-168 | A heading mark gives its level; an underline below the only line so far joins it as a title; any other line is left to the other checkers |
| MdBlocks.BlocksBuilder.CheckCodeBlockTyped | jspp/internal/md/blocks_builder.go:185-205 | Fence lines open and close in turn, everything between is fenced code, and only an opening tag is taken |
| MdBlocks.BlocksBuilder.RunCheckers | jspp/internal/md/blocks_builder.go:80-85 | The checkers in their order leave the builder as the typing model says |
| MdBlocks.BlocksBuilder.Feed | jspp/internal/md/blocks_builder.go:59-93 | One line: the new state and the block it finishes, if any, are the model's |
| MdBlocks.BuildBlocks | jspp/internal/md/blocks_builder.go:40-104 | The loop's blocks are those of the recursive model |
| MdBlocks.BuildSolid | jspp/internal/md/blocks_builder.go:45-104 | Every block has a kind and starts with a line that is not blank, and a quotation with one that starts with '>' |
| MdShapes.BuildCuts | jspp/internal/md/blocks_builder.go:45-246 | The blocks of normal lines are what the lines say, kind by kind: how each starts, which lines go on with it, that it ends only before a line that does not, and that only blank lines are left out between them |
| MdShapes.OneCut | jspp/internal/md/blocks_builder.go:45-246 | Any two such cuttings of the lines have the same blocks, but for fence tags; so it determines the kinds and the lines of all blocks |
| MdShapes.FenceInterrupted | jspp/internal/md/blocks_builder.go:142-205 | An input for which a code block starts with no fence: a title inside a fence interrupts it |
| MdBlocks.BuildPartition | jspp/internal/md/blocks_builder.go:45-104 | The lines of the blocks together have exactly the non-blank lines of the input in order, no line more and no '>' more |
| MdBlocks.FenceTagGoes | jspp/internal/md/blocks_builder.go:185-205 | An opening fence's tag stays with the fenced code if and only if nothing or fenced code stands open before it; otherwise the finished block gets it |
| MdParser.CutTrailingEmpty | jspp/internal/md/parser.go:53-58 | Exactly the blank lines at the end are cut |
| MdParser.ProcessMap | jspp/internal/md/parser.go:62-78 | Ends on any lines, by line count and number of '>'; the blocks changed in place are those of the recursive model |
| MdParser.ProcessBlockquoteBlock | jspp/internal/md/parser.go:80-88 | Ends, with fewer '>' in what is parsed below; the lines are gone and the content is the parse of the stripped lines |
| MdParser.UnquotedShrinks | jspp/internal/md/parser.go:80-88 | The lines of a quotation have strictly fewer '>' once stripped |
| MdParser.ProcessListBlock | jspp/internal/md/parser.go:94-199 | The loop that rewrites lines, length and index ends, and its items are those of the recursive model |
| MdParser.TakeNested | jspp/internal/md/parser.go:157-177 | Takes the lines up to the next non-blank one on top level, each one level out, and marks exactly those |
| MdParser.Nest | jspp/internal/md/parser.go:157-196 | The item with its content in place of the nested lines leaves fewer lines and the same items to come |
| MdParser.Join | jspp/internal/md/parser.go:125-133 | A continued line is joined to its item: one line less and the same items to come |
| MdParser.ParsedRenderable | jspp/internal/md/renderer.go:40-69 | At every depth of the parse, every block that is rendered by its first line has one |
| MdParser.Parse | jspp/internal/md/parser.go:22-29 | Every text at all is parsed to an end, into the blocks that the model gives for its normalized lines; all of them can be rendered |
| LxmlForest.PreorderOfForest | jspp/internal/lxml/parser.go:189-242 | The forest of a sequence of nodes, read in preorder, is the sequence |
| LxmlForest.ForestWell | jspp/internal/lxml/parser.go:205-242 | Where no node is more than one deeper than the one before, every child is exactly one deeper than its parent |
| LxmlForest.ForestOfPreorder | jspp/internal/lxml/parser.go:205-242 | A well-formed forest is the only one with its preorder |
| LxmlReader.ReadAccepts | jspp/internal/lxml/parser.go:150-243 | In an accepted text no node is more than one deeper than the one before, none is deeper than a node with HTML before it, and blocks are defined on top only |
| LxmlSpelling.ReadExactly | jspp/internal/lxml/parser.go:150-274 | A text is accepted, as certain nodes, if and only if for some width of a level it writes them down line by line (each head indented by depth times that width, with its HTML under it), their depths and definitions are legal, and it does not begin with an indented node |
| LxmlReader.AcceptedForest | jspp/internal/lxml/parser.go:150-243 | The nodes of an accepted text are the preorder of a forest in which every child is one deeper than its parent |
| LxmlReader.PrintThenRead | jspp/internal/lxml/parser.go:150-274 | Reading the indented print of a forest, at any width of a level, gives the forest back |
| LxmlReader.ReadThenPrint | jspp/internal/lxml/parser.go:245-274 | Printing what was read and reading it again gives the same nodes if the first stands at depth 0, and an error otherwise |
| LxmlSpine.OpenIsSpine | jspp/internal/lxml/parser.go:205-242 | The stack's depths are consecutive and end at the current depth, after every line |
| LxmlSpine.TreesByPosition | jspp/internal/lxml/tree/node.go:40-42 | The trees of the forest are those found by each node's own list of children |
| LxmlSpine.KidsLater | jspp/internal/lxml/parser.go:236-242 | A new node becomes a child of the open node one less deep, and of no other |
| LxmlSpine.TopsLater | jspp/internal/lxml/parser.go:236-242 | A new node is a top one exactly when it closes all open ones |
| LxmlSpine.NetIsForest | jspp/internal/lxml/parser.go:205-242 | Linking node after node to the top of the stack gives every node exactly its children in the forest, and the top nodes split into definitions and others in order |
| LxmlParser.Parser.GetDepth | jspp/internal/lxml/parser.go:245-274 | Depth or error as in the reader model, and the width of a level is fixed by the first indented line |
| LxmlParser.Parser.Drop | jspp/internal/lxml/parser.go:594-606 | That many entries are taken off the stack, or all |
| LxmlParser.Parser.EnterDepth | jspp/internal/lxml/parser.go:189-210 | Depth or error as in the reader model, and the stack is cut to the nodes less deep |
| LxmlParser.Parser.Link | jspp/internal/lxml/parser.go:236-241 | The new node is the last child of the top of the stack, or in the tree, and all other lists are as before |
| LxmlParser.Parser.Place | jspp/internal/lxml/parser.go:236-242 | All nodes, their children and the stack are those of the net with one node more |
| LxmlParser.Parser.ParseLine | jspp/internal/lxml/parser.go:150-243 | The objects follow the reader model line by line, with the same error where it has one, and stay such that the stack is consecutive; a line comes classified |
| LxmlParser.Parser.StackIsConsecutive | jspp/internal/lxml/parser.go:585-621 | The node objects on the stack have consecutive depths that end at the current depth |
| LxmlParser.ParseText | jspp/internal/lxml/parser.go:79-93 | A text is accepted exactly when the reader model accepts it; then the linked node objects and the two lists of the tree are the forest of its nodes, and otherwise the first error is reported |
| LxmlParser.NodeTree.AddNode | jspp/internal/lxml/tree/tree.go:22-32 | A definition goes to the blocks, any other node to the roots, each behind those before |
| LxmlParser.Node.AddNode | jspp/internal/lxml/tree/node.go:40-42 | The node becomes the last child |
| LxmlParser.Node.AddHTML | jspp/internal/lxml/tree/node.go:44-49 | The line is put behind the HTML of the node |
| ConfigMerge.MergeSelf | jspp/compiler/compiler.go:802-827 | Merging a tree into itself changes nothing if and only if it has no nil map |
| ConfigMerge.MergeTwice | jspp/compiler/compiler.go:802-827 | Merging the same source twice is merging it once if and only if no nil map is taken over |
| ConfigMerge.MergeTakes | jspp/compiler/compiler.go:802-827 | At every path of keys the merge has what the source has there, if something stands there or a scalar on the way, and otherwise what was there before |
| ConfigHeap.Heap.DeepCopy | jspp/compiler/compiler.go:787-800 | The copy shows the same tree in new map objects only, and no old one is changed |
| ConfigHeap.Heap.MergeCopying | jspp/compiler/compiler.go:802-827 | In place, dst ends as the merged tree; only its own map objects are changed, and none of the source's is reachable from it |
| ConfigHeap.Heap.MergeAliasing | kernel/config/config.go:107-119 | The loader's version ends with the same merged tree, changes only dst's own map objects and may share the source's; dst then holds all of the source, and merging the same source again, shared by now, changes nothing at all |
| ConfigHeap.AbsorbsTree | kernel/config/config.go:107-119 | Where dst holds all of the source in this way, merging the trees gives the tree of dst |
| ConfigHeap.SourceUnchanged | jspp/compiler/compiler.go:802-827 | After either merge the source shows the same tree in the same objects; after the copying one no map object is reached from both |
| ConfigHeap.MergeableAgain | jspp/compiler/compiler.go:802-827 | After a copying merge the same source can be merged in again under the same terms; after one that aliases, if and only if nothing is shared by then |

## Left out

WebSocket registries:

- Sockets, frames, goroutines and locks. A message, a closing and an entry of a sweep are one atomic step each, though they
  are made of several registry operations; the check of an IP and the addition behind the handshake are two. Message
  contents, broadcasts, sequence numbers and the data kept with a membership are not modelled (only which channels are
  listed is).
- WsInvariants.SoundStep: its steps, and those of the runs, do not include messages handled after Break; it would be false
  with them, and the lemmas of WsLate say exactly when. Of those messages, entering, leaving and creating are modelled;
  connecting and reconnecting by a connection that is closed already are not.
- WsAccounting.CoveredStep: the same; WsLate.LateCreateCovered has the condition.
- WsRuns.RunConsistent: runs without late messages.
- WsRuns.RunLimits: runs without late messages.
- WsRuns.HeldExactly: steps without late messages; WsLate.LateCreateHeld has the condition for those.
- Application callbacks. Whether a validator accepts a channel or an authorisation handler an entry is a parameter of the
  step, and the callbacks do not call back into the registries. IDs of new connections and keys of new channels are
  parameters; a new connection's ID is one nobody holds, and no ID is the empty string.
- Steps that only an embedding program can take: unregistering a channel without closing it, closing the default channel
  and then connecting.
- WsObjects.ConnRepo.MarkDisconnected: not for a connection whose ID another live connection has; IDs are random.
- WsObjects.ConnRepo.Reconnect: for a sound state and a connection that has joined nothing under its temporary ID. In any
  other state the broadcast to a channel's members can look up an ID that is gone, and that stops the program.
- WsObjects.ConnRepo.CheckRequestLimit: requires that the entry is not nil, which WsRequests.RunCounters proves of runs.
- Re-keying a connection that has joined channels under its temporary ID is no step of a run;
  WsInvariants.SoundReconnect says what it does to the membership tables. Under a request limit the re-keying message
  itself has been counted, so the connection has a request counter.
- WsRuns.RunHeld: its runs have no orphaning step, because such steps do orphan channels; WsRuns.HeldExactly has the
  condition for each step. The second close of a broken-off connection is the step SCloseAgain.
- Loops over a map take an order the map yields; the methods return that order as a ghost result.

Query compiler:

- GORM itself, preloads, paging, DISTINCT, and the text of GROUP BY, HAVING and ORDER. A subquery is an argument whose
  own compilation is left to GORM; table and column naming are parameters.
- QueryProof.CompilePreservesMeaning: names must be plain words (the compiler quotes nothing), path expressions with an
  arrow must be one word of the SQL lexer without a question mark, and the table's own alias must not look like a join alias.
- QueryProof.ColumnResolves: the same, and of a field of more than two segments the rest is ignored, as the compiler does;
  QueryMeaning.ShortFieldsApart says for which fields nothing is lost.
- QueryBuilding.WhereIsJoined: names must be plain words.
- QueryJoins.JoinsRead: values are numbers or null; of several rows with one id the first counts.

JavaScript linker:

- The text of files. A file is known by its class definitions and import calls, its text is a sequence of pieces between
  its calls, and two pieces are different text. The wrapper around a file, development markers, translation prefixes,
  application start code and code put before or after the input are not modelled. What an argument of an import call
  means - path or module, flag letters, the listing of directories - is not modelled: calls come with resolved arguments.
- The module names that a search finds in a file are those in its text on disk, while the calls that are compiled are
  those left by the inner directives; the model keeps both and assumes nothing about them.
- Linker.Compiler.BuildFile: where the file of a module is unsound, text of files already noted as compiled can be lost, in
  this model as in the program; which text is not said beyond "whole and once or not at all". The methods require that the
  file at hand leads to no cycle of class extensions within a group and no cycle of forced imports, since there the
  recursion has no end (FileOrder.CountingEnds, LinkEnds.CompilingEnds).
- LinkEnds.CompilingEnds: that a forced cycle is fatal is claimed where every module's file is sound; LinkEnds.SpoiltLoopEnds
  has an input for which it is not, and whether an unsound module saves a given build depends on what is compiled before.
  That no group of module files has a cycle of class extensions is asked of every search a led-to file can make, whatever is
  noted by then.
- Linker.BuiltInOrder: of two files that the same group puts out. A file that something has compiled before the group, or that
  is brought in as a module, stands where that put it, and so can stand in front of a class it extends.
- Scanner.FindImportCalls: the spans of the calls; ImportArgs cuts their arguments, and the rest is left out as above.
- The library sort is modelled as picking the least counter again and again, with ties broken in any way.
- That imported modules stand before their importers in the module code is not claimed; nested groups are put in front of
  the group that asked for them.

Scanners and parsers:

- The two loops that skip comments and regular expressions share one method here, Scanner.StepOver. That cutting comments
  twice is cutting them once is not claimed: a removed newline can make a following slash a regular expression.
- The renderer's HTML and its inline marks, and the parser combinators of node attributes.
- MdShapes.OneCut: the tags of fences are left to MdBlocks.FenceTagGoes.
- MdParser.ProcessListBlock: which lines survive in the content of an item is exactly what the program computes, but not
  all of them do: a second run of nested lines under one item overwrites the first.
- LxmlParser.ParseText: lines come classified, and no code is generated.
- LxmlParser.Parser.ParseLine: the regular expressions that classify a line are replaced by the four forms of a line, and
  the rest of a node line by whether it parses; texts, widget lists and the generated code are not modelled. HTML is kept
  line by line instead of as one string.

Configuration:

- Map objects are cells of a heap (the class ConfigHeap.Heap) addressed by number, because Dafny maps are values.
- ConfigHeap.Heap.MergeAliasing: for trees without nil maps (YAML decoding yields none, and writing to one would stop the
  program), and for two trees without common map objects or a dst that holds all of the source already. A source that is
  shared in part, as after another merge in between, is not covered.
- ConfigHeap.Heap.MergeCopying: for a tree that reaches no map object in two ways and a source without common ones. Nil maps
  are covered at every depth below the two arguments; for nil arguments the program returns at once.
- Merging is not associative, and no such claim is made.
- Environment variables in configuration files.

Not modelled at all: authorisation, migrations, sessions, HTTP, widgets, translation maps, the plugin cache and the
command line.
