# Burble: what its key exchange, planner, templates and channel client guarantee

A Dafny model of five parts of the Burble repository, with proofs of the
properties they are built for. `dafny verify dfyconfig.toml` checks everything;
the original program is not executed.

| part | modules |
|---|---|
| peer-held group keys: sessions that elect a leader, mint one key per epoch and seal it to each peer | `SessionSpec` (handlers as functions), `Session` (the objects, proved to compute them), `SessionSystem` (runs), `SessionInvariant`, `SessionTheorems`, `SessionPublishing`, `SessionPrompt`, `SessionMembership`, `SessionSettled`, `SessionConvergence`, `SessionRelabelling`, `SessionRuns`, `SessionAssumptions`, `SessionAnswers`, `Crypto`, `Labels`, `KeyEpochs`, `Utf16Order`, `Text` |
| encrypted frames over a hostile network | `FrameSpec`, `FrameCryptors`, `FrameDelivery`, `FrameAnswers`, `FrameHeader`, `FrameWire`, `ReplayWindows` |
| compose files: dependency graph, plan, execution against any driver | `ComposeSchema`, `ComposeErrors`, `Sorting`, `ServiceGraphs`, `ComposeDag`, `ComposeWaves`, `ComposeOrder`, `ComposePlan`, `ComposePlanShape`, `ComposeDeclared`, `ComposeAcceptance`, `ComposeExecutor`, `ComposeStartOrder`, `ComposeCalls` |
| the template language and its environment | `TemplateLexer`, `TemplateExpander`, `TemplateForms`, `EnvMaps` |
| the Phoenix channel client, and the key-order claim about configuration hashes | `PhoenixFrames`, `PhoenixReplies`, `Phoenix`, `JsonKeys`, `JsonWriters`, `JsonTexts` |

Code that changes things step by step is imperative here too, as classes and
methods with loops, each proved against a function or a relation on values; the
theorems about runs, graphs and texts are about those functions and relations.

## Assumptions about the environment

Key exchange. What is always assumed:

- `start()` is called once per membership, by a session whose id is not registered; `clear()` means leaving. The server's removal of a peer, and a rotation, are steps of their own and may come at any time. An id has one live session object.
- All peers run this code. Announced key sets and published blobs may be delivered late, repeatedly, in any order or never, to registered sessions and to sessions that have no keypair.
- The server refuses a publish for another epoch, from or to a peer that is not registered, or for a recipient that has a blob already; any other publish may be refused too, at any time.

What `SessionSystem.Rules` demands or not, theorem by theorem; `InsidersAgreeExactly` and `AgreementExactly` say which demands agreement needs:

- `atomic`: each handler, and `start()` with its refresh, is one step. Without it a handler may be interrupted, for any number of steps, between its last publish and the setting of the key, or between opening a blob and setting the key.
- `keeps`: the record of an emptied room is kept. Without it the next room starts at epoch 0, while blobs and key sets of the old one may still arrive.
- `anew`: every start draws a private key that was never drawn before.
- `prompt`: a key set is delivered only while it is the room's, a blob only while it is labelled with the room's epoch.
- `ordered`: key sets reach a session in epoch order. `completes`: once `start()` has registered, its key-set request is answered.
- `relabels` is a liberty: the relay may put other labels on a blob, for ids and rooms without a bar.

Whether a join bumps the epoch always, or only when a blob is stored, is a property of the room (`eager`).

Cryptography is symbolic. Key derivation and sealing are constructors over the
program's own salt, info and AAD texts; opening succeeds exactly when key and AAD
agree; agreement commutes.

Frames: one sending cryptor per sender and epoch, opens on a cryptor one after
another. The network invents no ciphertexts, but may put any header before any
body that was ever sealed.

Driver and transport answers, hashes and clocks are parameters: functions of
everything asked so far, or scripts. Each driver call takes at least one tick.

## Where the code and its documentation differ

The model follows the code.

- README.adoc:165-167 says any membership change bumps the epoch. The server (`server/lib/burble/media/e2ee.ex:711-723`), and the room used by `client/web/tests/e2ee_session_test.js:52`, bump on a join only when a blob is stored. Under the documented rule, and while the record lasts, agreement needs no promptness; under the other it needs prompt delivery (`InsidersAgreeExactly`).
- `server/lib/burble/media/e2ee.ex:582-589` drops the record of an emptied room, and its comment speaks of a fresh epoch; the number restarts at 0, so a session that still holds an old key can share its epoch number with the new room (`KeepingIsNeeded`). Among the sessions registered under the present record agreement survives this, under prompt delivery and new keypairs. Convergence survives it exactly when no member is ahead of the room (`ConvergesExactly`): `clear()` keeps the epoch (`client/web/e2ee-session.js:401-409`) and nothing ever lowers it.
- `client/web/e2ee-session.js:252` can move the epoch, and line 281 installs a key without comparing epochs again.
- A frame sealed from an empty plaintext never opens (`client/web/e2ee.js:378`), and an empty sender id is decoded as none.
- `lib.rs:253` calls a cycle's path ordered; it is the name-ordered list of all services held back, those behind a cycle included.
- `env.rs:13-14` says later files win; the earliest one does.
- `lexer.rs:134` gives names that start with a letter or underscore; the code accepts a leading digit.

## Model

| member | source | states |
|---|---|---|
| `SessionAssumptions.InsidersAgreeExactly` | client/web/e2ee-session.js:176-358 | For every choice of environment rules and for either bump rule of the server: in all reachable states the sessions that registered under the room's present record hold one room key per epoch if and only if handlers are not interrupted and either deliveries are prompt, with a kept record or new keypairs, or the record is kept, key sets come in order, every `start` completes and every membership change bumps the epoch |
| `SessionAssumptions.AgreementExactly` | client/web/e2ee-session.js:176-358 | The same for all sessions, those left over from earlier records included: exactly under the same conditions and a kept record |
| `SessionTheorems.Agreement` | client/web/e2ee-session.js:176-358 | Where every membership change bumps the epoch: in every reachable state of any number of sessions and one room, two sessions at one epoch that both hold a room key hold the same key; every held key was drawn in its holder's epoch by the lowest id of the only key set that epoch had; at most one key is ever drawn per epoch |
| `SessionPrompt.PromptAgreement` | server/lib/burble/media/e2ee.ex:711-723 | For either bump rule, across dropped records if every start draws a new private key: where a key set is delivered only while it is the room's, and a blob only while it is labelled with the room's epoch, the sessions that registered under the present record (all live members among them) agree, each key one of them holds was drawn for its holder's epoch, one sender published all blobs of an epoch, and they seal one key for different peers |
| `SessionAssumptions.WhileTheRecordLasts` | server/lib/burble/media/e2ee.ex:572-601 | For a server that drops the record of an emptied room, over every run in which it has not yet: no member is ahead of the room, one sender's blobs of an epoch seal one key for different peers, and all sessions agree under the conditions that a kept record would ask for |
| `SessionTheorems.EpochsNeverGoBack` | client/web/e2ee.js:485-495 | No step, whatever the environment does (key sets out of order and unanswered requests included), lowers any session's epoch |
| `SessionTheorems.EpochsNeverGoBackOverRuns` | client/web/e2ee-session.js:293-298 | The same over whole runs, for any session that is not constructed anew |
| `SessionPublishing.SendersAreConsistent` | client/web/e2ee-session.js:307-358 | Where the room's record is kept, in either kind of room and whatever else the rules allow (interruptions, refusals, repeated, late or unordered deliveries): all blobs one sender publishes in an epoch seal one key, and no two are for the same peer |
| `SessionAssumptions.SendersAreConsistentExactly` | client/web/e2ee-session.js:307-358 | For every choice of rules and either bump rule, that holds of everything ever published, in all reachable states, exactly when the room's record is kept |
| `SessionTheorems.RetriesAreStable` | client/web/e2ee-session.js:307-358 | Where every membership change bumps the epoch: for any pattern of refused publishes and repeated key sets, all blobs of an epoch, whoever published them, seal one key, no peer is published to twice in an epoch, and a leader holding the room key has already sealed that very key to every other peer of its key set |
| `SessionMembership.RetriesAreStableWhenPrompt` | client/web/e2ee-session.js:307-358 | For either bump rule, under prompt delivery with a kept record or new keypairs: all blobs of an epoch of the present record seal one key and go to different peers, and a member that leads the room at its epoch and holds the key has sealed that very key to every other member |
| `SessionTheorems.StepKeeps` | client/web/e2ee-session.js:176-298 | Under the rules of `Agreement`, every handler, `start`, `clear`, registration, removal and rotation keeps the protocol invariant (one key set per epoch, one drawn key per epoch by its leader, every stored blob sealed for its labels, served peers exactly the ones published to) |
| `SessionConvergence.ConvergesExactly` | client/web/e2ee-session.js:176-291 | Wherever `InsidersAgreeExactly` grants agreement, the server that drops emptied rooms under prompt delivery included: from a reachable state with at least two members, all live, some schedule of deliveries brings all members to the room's epoch under one key if and only if no member's session is ahead of the room |
| `SessionConvergence.Convergence` | client/web/e2ee-session.js:176-291 | From every such state with no member ahead of the room: any schedule of deliveries in which the leader, in however many rounds, comes to serve every peer not served before, and every other member has a blob of the present record delivered that was published for it, while it is at the epoch with the sender's registered key or can ask for the key set, ends with every member at that epoch under one common key; each is READY unless a blob on the wire can pass for another (relabelled, or from an earlier record with the same epoch number) |
| `SessionConvergence.KeptIsLevel` | server/lib/burble/media/e2ee.ex:572-601 | Where the record is kept no session of a member is ever ahead of the room |
| `SessionConvergence.ConvergenceIsPossible` | client/web/e2ee-session.js:307-358 | From every such state with no member ahead of the room there is a schedule that meets the hypotheses of `Convergence` |
| `SessionConvergence.BlobLands` | client/web/e2ee-session.js:217-291 | In such a room a blob of the present record, published for a member in the current epoch and delivered to it, leaves the member at that epoch with a room key, whether it had caught up, with the sender's registered key, or catches up by asking for the key set |
| `SessionRelabelling.StatusLostExactly` | client/web/e2ee-session.js:217-291 | A READY member of such a room keeps its key and epoch under every delivery of a blob, and stops being READY exactly when the blob claims to be one of this epoch's for it, from another member that it knows or can ask about, and no such blob was published under the present record |
| `SessionRelabelling.RelabellingLosesReady` | client/web/e2ee-session.js:283-290 | A relay that relabels can do this with any blob of the epoch that another member sealed for someone else, exactly when the member knows the sender or can ask |
| `SessionConvergence.KeySetCatchesUp` | client/web/e2ee-session.js:176-184 | A member of such a room that is handed the room's current key set is at the room's epoch with that key set |
| `SessionSettled.CaughtStays` | client/web/e2ee-session.js:176-184 | A member of such a room that is at the room's epoch stays there under every delivery |
| `SessionMembership.ReachableInformed` | client/web/e2ee-session.js:307-358 | Under prompt delivery with a kept record or new keypairs, in either kind of room: every blob of the room's epoch is sealed between two members under their registered keys, a leader that holds the key has published to every other member, and whoever holds the key has the registered key of the one who published it |
| `SessionAssumptions.OrderIsNeeded` | client/web/e2ee-session.js:176-184 | With every other demand met except promptness, agreement fails if a key set may arrive after a newer one: a run in which an older key set, which still replaces the cached one, makes a second leader in one epoch |
| `SessionAssumptions.CompletionIsNeeded` | client/web/e2ee-session.js:246-281 | Likewise if `start`'s key-set request may be refused: a run in which the refresh inside `onSealedKey` moves the epoch and the old epoch's key is then installed unchecked |
| `SessionAssumptions.EagerBumpIsNeeded` | server/lib/burble/media/e2ee.ex:711-723 | Likewise if a join bumps the epoch only when a blob is stored: a run that ends in two keys at one epoch, though no recipient is ever sent two blobs in one epoch |
| `SessionAssumptions.AtomicityIsNeeded` | client/web/e2ee-session.js:324-357 | With every other demand met, promptness included, and in either kind of room, agreement fails if a distribution may be interrupted after its last publish and before it sets the key: a run in which the session handles a newer key set there and then sets the old epoch's key in the new epoch |
| `SessionAssumptions.AtomicOpeningIsNeeded` | client/web/e2ee-session.js:260-283 | So it does if `onSealedKey` may be interrupted between opening the blob and setting the key |
| `SessionAssumptions.NewKeypairsAreNeeded` | client/web/e2ee-session.js:138-156 | Across a dropped record, with every other demand met, agreement among the sessions of the present record fails if a start may reuse a keypair: a run in which a blob of the earlier record opens in the new one |
| `SessionAssumptions.PromptnessIsNeeded` | client/web/e2ee-session.js:176-184 | Across a dropped record, with every other demand but promptness met and a bump on every membership change, it fails too: a run in which a key set of the earlier record makes a second leader in the new one |
| `SessionAssumptions.KeepingIsNeeded` | server/lib/burble/media/e2ee.ex:572-601 | With every other demand met and in either kind of room, agreement fails if the server drops the record of an emptied room, as it does: a run in which a new room reaches the epoch number under which a session that never left still holds the old room's key |
| `SessionAssumptions.KeepingIsNeededBySenders` | server/lib/burble/media/e2ee.ex:572-601 | There is also a run of that kind in which one sender publishes two different keys under one epoch number |
| `SessionAssumptions.ReturningMemberIsAhead` | client/web/e2ee-session.js:401-409 | A session that leaves keeps its epoch; back in a room whose record was dropped it takes the blob that the new leader publishes for it for an old one, and no schedule of deliveries makes the members converge |
| `SessionAssumptions.ReturningLeaderIsAhead` | client/web/e2ee-session.js:401-409 | If it is the leader that is back, the server refuses whatever it publishes, and again no schedule of deliveries makes the members converge |
| `Session.E2EESession.Start` | client/web/e2ee-session.js:138-156 | `start` computes exactly the specified new session state and room, and throws exactly when registration or the refresh does; the status is then FAILED |
| `Session.E2EESession.RefreshKeySet` | client/web/e2ee-session.js:162-165 | Fetching the key set hands the room's current epoch and keys to `onKeySet`, or throws and changes nothing |
| `Session.E2EESession.OnKeySet` | client/web/e2ee-session.js:176-206 | The handler's new epoch, key set, served peers, room key and status are exactly the specified ones, on each of its five ways out |
| `Session.E2EESession.DistributeRoomKey` | client/web/e2ee-session.js:307-358 | The publish loop computes the specified outcome: one key per epoch kept over retries, peers already served skipped, the first refusal ends it with what was published recorded, and only a complete round installs the key |
| `Session.E2EESession.OnSealedKey` | client/web/e2ee-session.js:217-291 | Each ignore reason, the single refresh, and the installation or failure to open are exactly the specified ones |
| `Session.E2EESession.Clear` | client/web/e2ee-session.js:401-409 | Leaving forgets keypair, keys, key set and served peers and keeps the epoch |
| `Session.RoomChannel.RegisterKey` | server/lib/burble/media/e2ee.ex:526-569 | A registration that is taken adds the key, and one with the key already known changes nothing; the epoch moves and stored blobs are dropped when a blob was stored (lines 711-723) or, under the documented rule, on every change |
| `Session.RoomChannel.PublishSealed` | server/lib/burble/media/e2ee.ex:629-647 | A publish is refused, and changes nothing, for another epoch than the room's, from or to a peer that is not registered, for a recipient that has a blob already, or for a reason the environment has; an accepted one is stored for its recipient and relayed |
| `SessionAnswers.StartAnswers` | client/web/e2ee-session.js:138-156 | A start is FAILED exactly if it throws; a refused registration throws and leaves the room and all of the session but keypair and status as they were, an unanswered key-set request throws after the registration; otherwise it ends AWAITING_KEY, or READY with a room key |
| `SessionAnswers.KeySetAnswers` | client/web/e2ee-session.js:176-206 | A key set makes a session throw exactly if there is someone else, it holds no key for the epoch in force, it has the least id, and it has no keypair or the room refuses a blob for a peer not served before; otherwise it ends READY exactly if there is someone else and it held the key or has the least id, and then it holds one |
| `SessionAnswers.BlobAnswers` | client/web/e2ee-session.js:217-291 | Each of the seven answers to a blob is given exactly for its reason, said of the blob's labels, the session and the room: recipient, sender, older epoch, later epoch not confirmed by the room, sender not among the keys at hand (asked for afresh if need be), not opening, opening; one that opens leaves its key and READY, one that does not leaves AWAITING_KEY, and those not looked at change nothing |
| `SessionAnswers.TakenOnce` | server/lib/burble/media/e2ee.ex:629-647 | A blob is taken exactly between two members, in the room's epoch, for one that has none; after it no other is for that recipient, and for the others nothing has changed |
| `SessionAnswers.RegisteredAgain` | server/lib/burble/media/e2ee.ex:526-569 | Registering again with the same key changes nothing; with another it replaces the first and keeps the order of ids |
| `KeyEpochs.KeyEpoch.AdvanceTo` | client/web/e2ee.js:485-495 | The epoch becomes the larger of the two; the room key is dropped exactly when the epoch moved; negative epochs are refused |
| `Utf16Order.LeaderIsLowest` | client/web/e2ee-session.js:42-45 | `leaderOf` is exactly the least id in UTF-16 code unit order, and none exactly for no ids |
| `Utf16Order.LeaderIgnoresOrder` | client/web/e2ee-session.js:42-45 | Peers that know the same ids elect the same leader, whatever order they list them in |
| `Utf16Order.UnitsAreUtf16` | client/web/e2ee-session.js:42-45 | The code units that ids are compared by are those of UTF-16 |
| `Crypto.SealAadInjective` | client/web/e2ee.js:193-195 | For room and peer ids without a bar, a sealed key's AAD determines room, epoch, sender and recipient |
| `Crypto.SealAadNamesEpoch` | client/web/e2ee.js:193-195 | Within a room a sealed key's AAD determines its epoch, whatever the ids hold |
| `Crypto.FrameAadInjective` | client/web/e2ee.js:345-347 | For room and sender ids without a bar, a frame's AAD determines room, epoch, sender and counter |
| `Crypto.AadPurposesDisjoint` | client/web/e2ee.js:345-347 | No frame AAD is a sealed-key AAD, whatever the ids hold |
| `Crypto.SealAadAmbiguousIffBar` | client/web/e2ee.js:193-195 | Within a room and epoch another pair of peers shares a sealed key's AAD exactly when one of the two ids holds a bar |
| `Crypto.PairwiseSymmetric` | client/web/e2ee.js:171-188 | Both ends derive the same pairwise key, each naming itself first |
| `Crypto.SealOpenRoundTrip` | client/web/e2ee.js:209-262 | What one peer seals for another opens there to the key that was sealed |
| `Crypto.OpensOnlyAsSealed` | client/web/e2ee.js:240-262 | A sealed key opens under exactly the key, room, epoch, sender and recipient it was sealed with |
| `Labels.PairwiseKeyInjective` | client/web/e2ee.js:171-188 | Equal pairwise keys mean the same room, the same epoch and the same two private keys, whatever the room and peer ids hold, and for ids without bars the same two peers |
| `Labels.KeysDoNotTravel` | client/web/e2ee.js:171-188 | A blob sealed with the pairwise key of one room, epoch and pair of private keys opens with no key derived for another, whatever labels it is opened under |
| `Labels.OnlyTheTwoOpen` | client/web/e2ee.js:209-262 | What one peer seals for another opens, under its own labels, for exactly the two private keys it was sealed between |
| `Labels.PairwiseSpells` | client/web/e2ee.js:171-188 | For ids without bars, the salt is `pairwise`, the room and the epoch in decimal, and the info is `burble-e2ee-pairwise-v1` and the two peer ids, the lower first in code unit order, with bars between |
| `Labels.SealedSpells` | client/web/e2ee.js:209-238 | A sealed key carries, for ids without bars, the AAD `burble-e2ee-group-v1`, room, epoch, sender and recipient, with bars between |
| `Labels.SealedFrameSpells` | client/web/e2ee.js:306-347 | A sealed frame carries the salt `frame` and epoch, the info `burble-e2ee-frame-v1`, `sender`, sender and counter, and the AAD `frame-aad`, room, epoch, sender and counter, each with bars between |
| `Text.DecimalReads` | client/web/e2ee.js:346 | A number's rendering has only digits, no leading zero but for zero itself, and reads back as the number |
| `Text.SplitUndoesJoin` | client/web/e2ee.js:193-195 | Cutting a joined text at its bars gives back the fields, if none holds one |
| `Text.DecimalInjective` | client/web/e2ee.js:346 | Different numbers are rendered differently |
| `FrameDelivery.AtMostOnceAuthentic` | client/web/e2ee.js:653-757 | For one sending cryptor per sender and one receiver, under any drop, duplicate, reorder, header rewrite or corruption: every released plaintext is what the named sender sealed at that epoch and counter, nothing is released twice, and no sender seals two frames in one slot |
| `FrameDelivery.ReleasedExactly` | client/web/e2ee.js:724-747 | A frame is released exactly when its header names the current epoch, the expected non-empty sender and a counter that perfect memory of that sender's releases would accept, and its body is a non-empty plaintext sealed in that slot |
| `FrameAnswers.RefusedExactly` | client/web/e2ee.js:724-747 | Every refusal is given after any run for its own reason and no other: the first, in the source's order, that applies, replays being judged by everything released for that sender in this epoch |
| `FrameAnswers.SealsAreNumbered` | client/web/e2ee.js:693-709 | Over any calls, a sealed frame carries the number of seals since the cryptor was made or reset, failed ones included, and a seal fails exactly when that number has left 32 bits, there is no room key, the epoch has left 32 bits, or the id is over 255 bytes |
| `FrameSpec.FailedOpenChangesNothing` | client/web/e2ee.js:743-747 | After a failed open every later answer, over any sequence of seals, opens and resets, is as if it had not been called |
| `FrameSpec.FrameKeyInjective` | client/web/e2ee.js:306-342 | A frame key belongs to one room key, epoch, sender and counter, even if the sender id holds a bar |
| `FrameCryptors.FrameCryptor.Seal` | client/web/e2ee.js:703-709 | Computes the specified wire form; a seal that fails after the exhaustion test still consumes its counter |
| `FrameCryptors.FrameCryptor.Open` | client/web/e2ee.js:724-747 | Computes the specified answer and state: checks in the source's order, and the counter recorded only after decryption succeeded |
| `FrameCryptors.FrameCryptor.Reset` | client/web/e2ee.js:693-696 | The send counter returns to zero and every replay window is forgotten |
| `ReplayWindows.NewWindowIsPerfect` | client/web/e2ee.js:418-446 | A new window, over any sequence of calls, answers as if every counter ever accepted were remembered, and never stores more counters than its size |
| `ReplayWindows.NewWindowAccepts` | client/web/e2ee.js:418-446 | Call by call: a counter is accepted exactly when no accepted call before it had the same counter or one at least a window's size above |
| `ReplayWindows.NeverForgets` | client/web/e2ee.js:424-446 | The same from any window that stands for a set of accepted counters: a call succeeds exactly for a counter that is new and less than the window size behind the highest |
| `ReplayWindows.AcceptRefines` | client/web/e2ee.js:435-446 | One call keeps the stored set equal to the accepted counters still inside the window |
| `ReplayWindows.StaysSmall` | client/web/e2ee.js:439-443 | The stored set of such a window never exceeds its size |
| `ReplayWindows.ReplayWindow.Accept` | client/web/e2ee.js:435-446 | The object's eviction loop computes the specified window; negative counters are refused and change nothing |
| `FrameHeader.DecodeEncode` | client/web/e2ee.js:570-622 | Decoding an encoded header in front of any body gives back epoch, counter, sender bytes and body; the sender comes back exactly when it is not the empty string, which decodes as none |
| `FrameHeader.EncodeDecode` | client/web/e2ee.js:598-622 | Whatever the decoder accepts re-encodes to the same bytes |
| `FrameHeader.EncodeFrameHeader` | client/web/e2ee.js:570-591 | The buffer the encoder fills is the specified header, and it refuses exactly non-uint32 numbers and senders over 255 bytes |
| `FrameWire.SealedHeadsTravel` | client/web/e2ee.js:703-709 | A seal that has a key and a counter left is refused exactly when its head has no bytes; otherwise the bytes, in front of any body, decode to its epoch, its counter, the UTF-8 form of its sender and that body |
| `FrameWire.HeadBytesInjective` | client/web/e2ee.js:570-591 | Two heads in front of two bodies give the same bytes only if they are the same head and body |
| `FrameWire.HeaderLayout` | client/web/e2ee.js:570-591 | A header is the byte 1, the number of sender bytes, those bytes, then the epoch and the counter in four bytes each with the most significant first, and nothing else |
| `FrameWire.EncodesExactly` | client/web/e2ee.js:570-591 | The encoder refuses exactly an epoch out of 32 bits, else a counter out of 32 bits, else a sender over 255 bytes, in this order |
| `FrameWire.DecodesExactly` | client/web/e2ee.js:598-622 | The decoder refuses exactly fewer than ten bytes, else a version other than 1, which it names, else fewer bytes than the sender's length asks for |
| `ComposeDag.BuildGraph` | tools/selur-compose/crates/selur-compose-plan/src/dag.rs:97-135 | The graph holds one edge per `depends_on` entry, duplicates counted, with matching in-degrees; otherwise the error names the first entry, in iteration order, that is not an active service |
| `ComposeDag.DepIsDependsOn` | tools/selur-compose/crates/selur-compose-plan/src/dag.rs:111-128 | There is an edge from one service to another exactly when the second's `depends_on` names the first |
| `ComposeDag.HealthyIsAnEdgeKind` | tools/selur-compose/crates/selur-compose-plan/src/dag.rs:222-254 | The services needed healthy are exactly those at the far end of a healthy edge |
| `ComposeWaves.TopologicalWaves` | tools/selur-compose/crates/selur-compose-plan/src/dag.rs:152-215 | Fails exactly when the graph has a cycle; otherwise wave `i` is the ascending list of layer `i` and the waves hold every service; a failure names, in name order, exactly the services that never become free |
| `ComposeWaves.NoUnderflow` | tools/selur-compose/crates/selur-compose-plan/src/dag.rs:186-192 | The in-degree that is decremented is at least one, even where the same dependency is written twice, and the successor is not queued yet |
| `ComposeOrder.WaveIsLongestChain` | tools/selur-compose/crates/selur-compose-plan/src/dag.rs:152-215 | Wave `i` holds exactly the services whose longest dependency chain has `i` edges; every service is in exactly one wave |
| `ComposeOrder.DependenciesComeEarlier` | tools/selur-compose/crates/selur-compose-plan/src/dag.rs:141-145 | Every dependency is in a strictly earlier wave |
| `ComposeOrder.NoLayeringIsShorter` | tools/selur-compose/crates/selur-compose-plan/src/dag.rs:141-145 | No assignment that puts dependencies first has fewer waves or starts any service earlier |
| `ComposeOrder.WavesAreDetermined` | tools/selur-compose/crates/selur-compose-plan/src/dag.rs:159-199 | The waves do not depend on hash-map iteration order: there is only one list of the layers |
| `ComposeOrder.StuckAreOnOrAfterCycle` | tools/selur-compose/crates/selur-compose-plan/src/dag.rs:203-211 | The services a cycle error names are exactly those on a cycle or depending, directly or indirectly, on one; a self-dependency counts |
| `ServiceGraphs.LayerIsLongestChain` | tools/selur-compose/crates/selur-compose-plan/src/dag.rs:152-200 | Repeatedly taking the services without remaining dependencies takes, in round `k`, those whose longest chain has `k` edges |
| `ServiceGraphs.AllBelowIffAcyclic` | tools/selur-compose/crates/selur-compose-plan/src/dag.rs:202-214 | Every service becomes free exactly when there is no cycle |
| `ComposePlan.MakePlan` | tools/selur-compose/crates/selur-compose-plan/src/lib.rs:329-587 | An accepted file has no fault of any kind and its operations have the plan shape, with the runs in the order of the waves; a refused one has the fault that the error names and none that is looked for before it (an unknown service being the first one, a hash error naming the first unhashable service in the order of the waves) |
| `ComposePlanShape.PlanExcludesFault` | tools/selur-compose/crates/selur-compose-plan/src/lib.rs:329-587 | A file that has a plan has none of the faults, so planning refuses exactly the faulty files |
| `ComposePlanShape.StartedOnceFromItsImage` | tools/selur-compose/crates/selur-compose-plan/src/lib.rs:358-574 | Every active service is started exactly once, after all network and volume creation; an image it builds or pulls is provided exactly once, after the creation and before the start, and the container runs from that very reference |
| `ComposePlanShape.RunsAfterDependencies` | tools/selur-compose/crates/selur-compose-plan/src/lib.rs:413-580 | Where a service is started, every dependency has been started, and every one it needs healthy has had its barrier |
| `ComposePlanShape.BarrierExactlyOnce` | tools/selur-compose/crates/selur-compose-plan/src/lib.rs:408-437 | A service needed healthy has exactly one barrier in the whole plan, after its own start |
| `ComposePlan.ValidateReferences` | tools/selur-compose/crates/selur-compose-plan/src/lib.rs:593-654 | Accepts exactly when every network and volume an active service names is declared; otherwise the error names the first undeclared reference of the first service that has one, its networks before its volumes |
| `ComposePlan.FilterIs` | tools/selur-compose/crates/selur-compose-plan/src/profiles.rs:39-75 | The active entries are exactly the file's entries that list no profile or list an enabled one, in key order |
| `ComposeAcceptance.PlannedExactly` | tools/selur-compose/crates/selur-compose-plan/src/lib.rs:329-587 | A file is planned exactly when every enabled profile occurs, every requested service is wanted (lists no profile, or an enabled one), every network and volume a wanted service uses is declared, every dependency of one is wanted, no wanted services depend on each other in a circle, and each has a hash; every refusal says something true of the file, a cycle error listing exactly the services held back by a circle |
| `ComposeDeclared.PlanIsDeclared` | tools/selur-compose/crates/selur-compose-plan/src/lib.rs:329-587 | The operations of a plan, each once, are exactly those the file declares, field by field: each declared network and volume with its driver; for each wanted service one build with its context and `project_service:latest`, or one pull of its image, and one run of that very image under the name `project_service` with its hash; one barrier for each service that a wanted one needs healthy |
| `ComposeDeclared.PlanKeepsOrder` | tools/selur-compose/crates/selur-compose-plan/src/lib.rs:358-580 | Networks come before volumes, these before images, these before everything else; what a service depends on is run before it, and a barrier stands after its own service and before every service that needs it |
| `ComposeStartOrder.StartOrder` | tools/selur-compose/crates/selur-compose-driver/src/executor.rs:78-190 | For every file `plan` accepts and every driver behaviour, failing at any call: each container is run at most once, only after all its dependencies were run and each it needs healthy was inspected as healthy, or as having no healthcheck, under the id its own run returned; every inspection is of such an id, so the name fallback is never used |
| `ComposeStartOrder.EverythingRuns` | tools/selur-compose/crates/selur-compose-driver/src/executor.rs:78-190 | When execution ends without an error every active service was run under the id reported for it, and every service needed healthy was seen healthy |
| `ComposeExecutor.Execute` | tools/selur-compose/crates/selur-compose-driver/src/executor.rs:78-190 | The calls made are those of a prefix of the plan minus skipped builds and pulls, ending with the plan or at the first operation that fails, whose failure is the error returned; the report has the ids of the runs and the tally of the rest |
| `ComposeExecutor.WaitUntilHealthy` | tools/selur-compose/crates/selur-compose-driver/src/healthcheck.rs:48-94 | Inspects one id until it is healthy, unhealthy, a call fails or the deadline has passed, each inspection but the last being undecided and in time; succeeds exactly on a healthy answer; the time returned is the start plus every call and every pause between calls |
| `ComposeCalls.CallsAreDeclared` | tools/selur-compose/crates/selur-compose-driver/src/executor.rs:78-190 | For every file `plan` accepts and every driver behaviour: each run is of a wanted service, with its image and its container name; each build has the declared context and the tag that is run, each pull the image that is run, each create call a declared name with its driver; skipped builds and pulls are never asked for |
| `ComposeCalls.EverythingIsAsked` | tools/selur-compose/crates/selur-compose-driver/src/executor.rs:78-190 | When execution ends without an error, every such call was made |
| `ComposeCalls.RequestsAreThePlan` | tools/selur-compose/crates/selur-compose-driver/src/executor.rs:78-190 | Inspections apart, the calls ask in turn for the plan's operations, the skipped ones apart, up to the end or up to and including the one that failed, each with that operation's own fields |
| `ComposeCalls.StartOrderDeclared` | tools/selur-compose/crates/selur-compose-driver/src/executor.rs:78-190 | `StartOrder` said of the file: each run is of a wanted service, at most one for each, after successful runs of everything its `depends_on` names, and after an inspection that found healthy, or without healthcheck, each it needs healthy; every inspection is of an id that an earlier run returned |
| `ComposeCalls.StopsAtTheFirstFailure` | tools/selur-compose/crates/selur-compose-driver/src/executor.rs:96-189 | No call is made after a failing one; the error is a call's failure exactly if the last call failed, with its text, and otherwise names the service of the barrier that found it unhealthy or ran out of time |
| `ComposeCalls.ReportCounts` | tools/selur-compose/crates/selur-compose-driver/src/executor.rs:96-189 | The report counts the create calls, builds and pulls that were made without failing |
| `ComposeCalls.BarrierEndsExactly` | tools/selur-compose/crates/selur-compose-driver/src/healthcheck.rs:48-94 | A barrier goes on exactly while answers are neither healthy, unhealthy, without healthcheck nor failing, and ends with the first that is: it goes through exactly on a healthy one or none, and otherwise gives the reason that applied |
| `ComposeCalls.BarrierWaitsOut` | tools/selur-compose/crates/selur-compose-driver/src/executor.rs:147-172 | A barrier that times out inspected the id its service's run returned, in turn, with two seconds between, until 125 seconds beyond the start period had passed, and not once more |
| `TemplateLexer.LexTemplate` | tools/selur-compose/crates/selur-compose-interp/src/lexer.rs:47-116 | The scan loop returns the lexing of the text; it succeeds exactly when some well-formed token list with correct offsets prints as the text |
| `TemplateLexer.LexIsExact` | tools/selur-compose/crates/selur-compose-interp/src/lexer.rs:47-116 | The lexer returns a token list exactly when it is the reading of the text (well formed, printing as the text, each offset the length printed before it), and an error exactly when the text up to the error's position reads on its own and what opens there is unterminated or malformed as the error says |
| `TemplateLexer.PrintUndoesLex` | tools/selur-compose/crates/selur-compose-interp/src/lexer.rs:47-116 | Printing the tokens of any accepted text gives the text back |
| `TemplateLexer.LexUndoesPrint` | tools/selur-compose/crates/selur-compose-interp/src/lexer.rs:47-116 | Lexing the printing of any well-formed token list with correct offsets gives the list back |
| `TemplateLexer.ReadingIsUnique` | tools/selur-compose/crates/selur-compose-interp/src/lexer.rs:47-116 | A text has at most one reading |
| `TemplateLexer.ParseIsExact` | tools/selur-compose/crates/selur-compose-interp/src/lexer.rs:124-182 | The inside of a pair of braces is accepted exactly when it prints a valid expansion, and as that expansion |
| `TemplateExpander.Expand` | tools/selur-compose/crates/selur-compose-interp/src/expander.rs:20-88 | The token loop with its two shortcuts computes the values of the tokens end to end, or the first refusal, against a linear scan of the environment |
| `TemplateExpander.ExpansionIsCompositional` | tools/selur-compose/crates/selur-compose-interp/src/expander.rs:20-88 | Unless the first text ends in a literal `$`, two texts together expand exactly when each does, to one result after the other; a lexing error of the second is reported at its shifted position |
| `TemplateExpander.EscapingIsExact` | tools/selur-compose/crates/selur-compose-interp/src/expander.rs:44 | Doubling every `$` makes any text expand to itself, in every environment |
| `TemplateExpander.PlainExpandsToItself` | tools/selur-compose/crates/selur-compose-interp/src/expander.rs:26-36 | A text with no `$$` and no `${` expands to itself |
| `TemplateExpander.CompositionalExactly` | tools/selur-compose/crates/selur-compose-interp/src/lexer.rs:47-116 | A text that lexes composes with every text in every environment exactly when it does not end in a literal `$` |
| `TemplateExpander.AnotherDollarAddsNothing` | tools/selur-compose/crates/selur-compose-interp/src/lexer.rs:67-73 | After any text that ends in a literal `$` and expands, one more `$` leaves the expansion as it was, so the two do not compose |
| `TemplateExpander.FirstRefusalIsNamed` | tools/selur-compose/crates/selur-compose-interp/src/expander.rs:40-85 | Expansion of a token list fails exactly when some token refuses, and the error is that of the first to refuse |
| `TemplateForms.PlainForm` | tools/selur-compose/crates/selur-compose-interp/src/expander.rs:46-56 | After any text in which nothing opens, `${name}` expands to the value, or is refused as undefined exactly when the name is not set |
| `TemplateForms.DefaultForms` | tools/selur-compose/crates/selur-compose-interp/src/expander.rs:58-70 | `${name-d}` expands to `d` exactly when the name is not set, `${name:-d}` exactly when it is not set or empty, and otherwise each to the value |
| `TemplateForms.RequiredForms` | tools/selur-compose/crates/selur-compose-interp/src/expander.rs:72-85 | `${name?msg}` is refused exactly when the name is not set, `${name:?msg}` exactly when it is not set or empty, with that message and the place the expansion starts; otherwise each expands to the value |
| `TemplateForms.MalformedIsRefused` | tools/selur-compose/crates/selur-compose-interp/src/lexer.rs:84-104 | Braces that close around anything but one of the five forms are refused at their dollar sign, whatever follows |
| `TemplateForms.FaultIs` | tools/selur-compose/crates/selur-compose-interp/src/lexer.rs:124-182 | They are refused as empty, as not starting with a name, or for what follows the longest name |
| `TemplateForms.UnclosedIsRefused` | tools/selur-compose/crates/selur-compose-interp/src/lexer.rs:84-92 | Braces that never close are refused at their dollar sign |
| `TemplateForms.FirstMatchBinds` | tools/selur-compose/crates/selur-compose-interp/src/env.rs:65-69 | A lookup answers with the first pair of that name, and with nothing exactly when no pair has it |
| `EnvMaps.IndexIsFaithful` | tools/selur-compose/crates/selur-compose-interp/src/env.rs:44-145 | Through any chain of `from_iter`, `with_overrides` and `with_env_files` keys stay unique and a lookup is the first match in a linear scan of everything supplied, in priority order |
| `EnvMaps.PriorityOrder` | tools/selur-compose/crates/selur-compose-interp/src/env.rs:73-145 | A lookup is answered by the overrides, else by the entries there before, else by the files |
| `EnvMaps.EarliestFileWins` | tools/selur-compose/crates/selur-compose-interp/src/env.rs:108-120 | Among files the earliest listed one that has the key answers |
| `EnvMaps.EnvMap.Get` | tools/selur-compose/crates/selur-compose-interp/src/env.rs:65-69 | The indexed lookup is the first match in the entries |
| `EnvMaps.FromIter` | tools/selur-compose/crates/selur-compose-interp/src/env.rs:44-57 | The entries are each key's first pair, in order, and the index agrees with them |
| `EnvMaps.WithOverrides` | tools/selur-compose/crates/selur-compose-interp/src/env.rs:73-100 | The entries are each key's first pair of the overrides followed by the old entries, and the index agrees with them |
| `EnvMaps.WithEnvFiles` | tools/selur-compose/crates/selur-compose-interp/src/env.rs:104-145 | Succeeds exactly when every file loads, and then the entries are each key's first pair of the old entries followed by the files in list order; otherwise the error is that of the first file that does not load |
| `Phoenix.PhoenixClient.NextBroadcast` | client/rust/src/phoenix.rs:169-195 | Hands out the oldest kept broadcast, else the next accepted one, whose event and payload are those of the last frame read; kept ones stay in order, none is lost or repeated; only heartbeats are sent; it returns none only once the wait has passed, and fails only on a frame that breaks every wait |
| `Phoenix.PhoenixClient.AwaitReply` | client/rust/src/phoenix.rs:123-139 | Ends with the first frame that answers the request's own reference, with the first fault, or at the timeout with neither seen. It succeeds only if the last frame read is a reply to that reference whose status is the text `ok`, with its response; it is rejected only by one with another status. Every broadcast read meanwhile is kept in arrival order |
| `Phoenix.PhoenixClient.Join` | client/rust/src/phoenix.rs:142-153 | Sends one join under a fresh reference; the topic is taken exactly when the reply accepts it, the last frame read then being a reply to that reference with status `ok`; a second join changes nothing |
| `Phoenix.PhoenixClient.Push` | client/rust/src/phoenix.rs:156-166 | Sends one frame under a fresh reference naming the join, and its result is decided by the first answer to that reference or the first fault, by its fields as for `AwaitReply` |
| `Phoenix.PhoenixClient.Beat` | client/rust/src/phoenix.rs:175-180 | Sends a heartbeat exactly when none is unanswered and nothing was sent for fifteen seconds, so at most one is ever outstanding |
| `Phoenix.PhoenixClient.Classify` | client/rust/src/phoenix.rs:84-121 | A reply to the outstanding heartbeat is consumed and ends it; every other frame is sorted as specified |
| `PhoenixReplies.ResponseIs` | client/rust/src/phoenix.rs:99-109 | A reply is a success exactly if its payload is an object whose status is the text `ok`, with its response or null; otherwise a rejection with the status text, empty if absent or not text, and that response |
| `PhoenixReplies.OutcomeMeans` | client/rust/src/phoenix.rs:123-139 | The wait's outcome, unless it timed out, is that of the last frame read, by its fields |
| `PhoenixReplies.PassedOverMeans` | client/rust/src/phoenix.rs:84-139 | A frame that a wait passes over is no close, no error and no reply to its reference |
| `PhoenixReplies.AcceptedCarries` | client/rust/src/phoenix.rs:111-121 | A frame is a broadcast exactly when it is no reply, error or close and its topic is the one in force or none is, and it carries its own event and payload |
| `PhoenixReplies.FrameIs` | client/rust/src/phoenix.rs:61-82 | A frame is read exactly from an array of five whose third and fourth items are texts, the second being its reference if it is a text |
| `PhoenixReplies.NoFrameIs` | client/rust/src/phoenix.rs:61-82 | The stream's end, a transport failure, text that is no JSON and JSON that is no frame are told apart |
| `PhoenixReplies.SentIsRead` | client/rust/src/phoenix.rs:47-59 | What one client sends another reads with the same reference, topic, event and payload |
| `PhoenixFrames.AcceptedKeepsOrder` | client/rust/src/phoenix.rs:114-119 | Each accepted broadcast frame stands once among the accepted ones, at the place given by how many were accepted before it |
| `PhoenixFrames.RefsAreFresh` | client/rust/src/phoenix.rs:42-45 | No two frames ever sent carry the same reference, and no reply answers two of them |
| `PhoenixFrames.OtherRepliesPassOver` | client/rust/src/phoenix.rs:133-137 | A reply to another request, however late, never ends the wait for this one |
| `PhoenixFrames.ReceivedOtherwise` | client/rust/src/phoenix.rs:84-121 | Every frame is exactly one of a fault, a reply to its reference, a broadcast for the topic in force, or something consumed |
| `JsonKeys.OrdersDisagreeExactly` | tools/selur-compose/crates/selur-compose-plan/src/hash.rs:19-27 | UTF-16 order and code-point order of two keys disagree exactly when at their first differing character one is above U+FFFF and the other in U+E000 to U+FFFF |
| `JsonKeys.SortedListsAgreeExactly` | tools/selur-compose/crates/selur-compose-plan/src/hash.rs:19-27 | The two sorted lists of a set of keys are the same exactly when no two keys are such a pair |
| `JsonKeys.WritersAgreeExactly` | tools/selur-compose/crates/selur-compose-plan/src/hash.rs:88-118 | Two writers that share a quoting under which no quoted key begins another and order keys in the two ways give the same bytes for a value exactly when no object anywhere in it holds such a pair of keys |
| `JsonWriters.LegacyAgreesExactly` | tools/selur-compose/crates/selur-compose-plan/src/hash.rs:88-118 | So do the earlier writer and the RFC 8785 one themselves, each sorting its keys from whatever order its maps list them in, under JSON's string escapes |
| `JsonWriters.JsonQuotes` | tools/selur-compose/crates/selur-compose-plan/src/hash.rs:99 | No JSON-quoted string begins another |
| `JsonWriters.ListingsExist` | tools/selur-compose/crates/selur-compose-plan/src/hash.rs:92-93 | Every map can be listed, so there are such writers |
| `JsonTexts.QuotedReads` | tools/selur-compose/crates/selur-compose-plan/src/hash.rs:99 | A quoted string reads back as the string by the JSON standard's own escapes |
| `JsonTexts.EscapesAreShort` | tools/selur-compose/crates/selur-compose-plan/src/hash.rs:99 | A character is escaped only where it must be, and by its number only where it has no short form |
| `JsonTexts.ArrayIs` | tools/selur-compose/crates/selur-compose-plan/src/hash.rs:108-111 | An array is written as its items in brackets with commas between, a leaf as its own text |
| `JsonTexts.ObjectIs` | tools/selur-compose/crates/selur-compose-plan/src/hash.rs:90-107 | An object is written as its members in braces with commas between, each a quoted key, a colon and the value, in the writer's order of keys |

## Left out

- The session's cache of frame cryptors, and several cryptors for one local id: each starts its counter at zero, so frame properties are per cryptor.
- Malformed epochs; a second `start()` in one membership; status callbacks, `lastError` and the details of returned objects.
- Session.RoomChannel.RegisterKey: does not say when a registration is refused (capacity, malformed key, missing key proof, server/lib/burble/media/e2ee.ex:534-538); in a run any registration may be refused.
- Session.RoomChannel.PublishSealed: does not model the size limits of a blob and the form of ids; in a run any publish may be refused.
- A publish that the server stores although its reply never reaches the session: a publish that throws has stored nothing.
- A broadcast that arrives between a refused registration and the next `start()`, when the session has a keypair and is not registered.
- WebCrypto, X25519, HKDF, AES-GCM and SHA-256 themselves, base64, and UTF-8 decoding of sender ids; encoded-transform and connection plumbing; failures of the key derivation on ill-formed input.
- Interleaving at other points than the last wait of a distribution and the opening of a blob: every other handler is one step.
- SessionSpec.Published: counts the last peer as served before the pause, where the source does so right after it (client/web/e2ee-session.js:346-352).
- `PlanOptions::services` is validated and never applied, as in the source; there is no barrier for `service_completed_successfully`, as in the source.
- The rest of a run or build specification: environment, ports, mounts, networks, command, entrypoint, restart policy, labels other than the configuration hash, build arguments, dockerfile, target and cache flag; stop grace period and forced removal.
- The value of the configuration hash (a parameter of planning), the writers' handling of numbers, and the refusal of strings with noncharacters: a leaf is the text both writers give it.
- `execute_wave_concurrent`, `HealthGate`, the build semaphore, the podman subprocess and JSON shims, and the command line.
- Reading and parsing `.env` files: a file is the list of its pairs or a failure. The field-by-field traversal in `visit.rs`.
- ComposeExecutor.Execute: does not return the health state of a barrier, which the source discards.
- TemplateLexer.LexTemplate: an error carries its kind and position, not the message text.
- Phoenix.PhoenixClient.TakeRef: does not model the overflow of a 64-bit counter.
- Cancelling a half-read frame, the client's `leave`, and JSON text itself: a frame is read in one step and arrives parsed.
- The relay and worker, the AI bridge and the room page: input and output with short, easy invariants.
