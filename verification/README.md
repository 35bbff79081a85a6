# Lethe, verified

Lethe is an anonymous board with end-to-end encrypted rooms and server-to-server federation. This project
models its five hard machines in Dafny and proves what they keep over whole runs:

1. the **linkable ring signature** behind room vouches, signer and both verifiers (`PrimeField`, `RingSig`,
   `RingTheorems`, `RingRefusals`), and the vouches built on it (`Vouches`, `BuildVouch`, `VouchRefusals`);
2. the **room tables and the browsers' room keys**: membership, invites, rekeying, roster publication, who can hold
   which key and what polling settles to (`Rooms`, `RoomRuns`, `Leaving`, `CreatorCheck`, `InviteChains`, `JoinCap`,
   `RosterMachine`, `KeyStore`, `KeyHolding`, `Convergence`, `Polling`, `RekeyLimits`, `PollAround`, `OvertakenPoll`);
3. **federation**: one server's threads and posts, what it lists, two servers replicating, the pull worker, cursors and
   paging (`Posts`, `Listing`, `Replication`, `Offering`, `RemovalRun`, `PullWorker`, `Paging`, `Cursor`);
4. the **replay window** with its pruned nonce table (`Replay`);
5. the **thread page** and the **byte encodings** (`ThreadView`, `ThreadTree`, `ThreadLabels`, `Encodings`, `Layouts`,
   `Base64`).

`Bytes` holds byte strings and their order. Check everything with `dafny verify dfyconfig.toml`.

## How to read it

Database tables are maps; a statement or a transaction is a function on them, and where the program changes state a
class has a method proved equal to that function. Handlers that make several statements are split into steps, and
`Exec` runs any list of steps, each from any handler, with one that is not enabled doing nothing. Theorems quantify over
every such list. Some states carry history (the log of rooms, the epoch a key was minted for, the removals processed);
no step reads it except to choose a value never used before.

Cryptography is symbolic or a parameter. The prime-order group is the integers modulo a prime, the challenge hash, point
validity, Ed25519 verification and the digests are arbitrary functions, a sealed box opens only for its recipient and an
authenticated ciphertext only under its key. Random choices are arguments.

## Results that differ from what the source says

- `Replay.ReplaySafetyExactly`: the slack for handler delay plus twice the clock skew is 479 seconds, not the 480 between
  a 120-second window and a 600-second prune age. Timestamps are whole seconds, so one stays fresh for nearly 121.
- `JoinCap.CapExactly`: fifty members is called a hard cap, but the count and the insert are two statements. When up to
  `k` joins can be between them, a cap holds in every run if and only if it is at least `49 + k`: fifty exactly for one
  join at a time.
- `RekeyLimits.RekeyConvergesExactly`: after a rekey polling is to bring every survivor the new key. Over every interleaving
  of single steps until the next rekey, each poll of a survivor that finds the new key leaves it last, under the new
  epoch, if and only if at the commit no poll of that browser had a key in hand and no answer was to bring it one it
  lacks. And no older key ever comes behind the new one if and only if nothing so under way had a key the browser lacks.
  Both failures happen, from a new room:
  - `Polling.TornPollIsStranded`: the member list and the epoch are two reads. A rekey between them leaves a survivor with
    its old key under the new epoch until the next rekey.
  - `OvertakenPoll.OlderKeyComesLast`: a poll past both reads is still granting while a rekey commits and a second poll
    takes the new key; then it puts its older key behind. The browser encrypts with a key that the removed member holds
    until the next rekey. `RekeyLimits.AdoptOvertakesExactly` says which polls do so.
- `PollAround.PollAroundARekeyExactly`: of a browser that polls once at a time, a poll and one more converge wherever in
  the first the rekey commits, but between its two reads; there if and only if its list showed no key.
- `Polling.LateJoinerIsStranded`: a poll grants before it adopts. From a new room, a member who joins after a rekey and is
  granted by a browser that has not polled since gets the old key marked with the new epoch, and keeps it in every
  interleaving until the next rekey. In every interleaving it gets the current key if and only if the granting poll began
  with it last (`RekeyLimits.JoinerGetsWhatThePollBeganWith`); `Polling.JoinerGetsGrantersLastKey` says the same of two
  whole polls with nothing in between.
- `ThreadView.DocumentedParentExactly`: the comments say a reply's parent is the first `>>N` that names an existing earlier
  post. The code looks at the first `>>N` only. The two agree on a post if and only if it is the OP, or has no usable
  `>>N`, or the first usable one is the first in its body or names the OP. `LaterReferenceIsIgnored` is a thread where
  they do not. The model follows the code.
- `RosterMachine.CanonicalMatchesLive`: the server lists one signing key per accepted row, the browser drops repeats. While
  two accepted active rows of a room share a signing key, its creator's browser cannot publish a roster
  (`SharedKeyBlocksTheRoster` is a run).
- `Replication.PassedIsNeverOffered`: a removal event whose ingest fails is logged and the cursor is saved past it, so it
  is never offered again; `RemovalRun.FailedRemovalIsNotRetried` is a run after which the peer goes on showing the body.
  `DeletionIsSafe` therefore speaks of removals that were processed.
- `Paging.PagingDelivers`: rows inserted at or before a stored cursor, which same-day random ids allow, are never
  delivered; every other row is, exactly once.
- `Base64.EncodeUndoesDecode`: the browser's decoder accepts strings with unused bits set, such as "AB", which do not encode
  back (`UnusedBitsAreLost`).
- `CreatorCheck.OnlyCreatorPassesExactly`: only the creator may remove a member, the handler says
  (crates/lethe-server/src/logic/rooms.rs:458-461). Its check lets any active row without an inviter through, so that is
  true of a room if and only if every other active member has an inviter or the creator's signing key; one join makes it
  false (`JoinerPasses`).
- `CreatorCheck.CreatorPassesWhileActive`: a removed creator never passes that check again, although its comment says
  removed creators still count (crates/lethe-server/src/db/rooms.rs:353-355).

## Hypotheses

- `creator_sig_pubkey` orders by a date. Ties go to the row inserted first and no join is dated before its room
  (`RoomRuns.NotBefore`).
- No two wraps of a rekey request are for one recipient, as the browser builds them. `Rooms.RekeyCoversIffDistinct`
  says what the server's check means without that.
- `RoomRuns.InviteForest` asks that granters be accepted, which holds for browsers that grant only while holding a key;
  `PendingGranterMakesACycle` shows the server alone does not enforce it, and `InviteChains.GrantKeepsForestExactly` says
  which grants it would have to refuse.
- `KeyHolding` runs honest browsers: fresh key pairs for every join, fresh room keys for every rekey.
- `Convergence.RekeyConverges` asks, of the survivor's own browser, that no poll have a key in hand and no answer be to bring
  it a key it lacks when the rekey commits; `RekeyLimits.RekeyConvergesExactly` says that it must.
- `JoinCap` and `Replay` state their exact bounds over keys of 32 bytes, the only ones the request decoder lets through
  (crates/lethe-server/src/logic/rooms.rs:634-640). `JoinCap.CapExactly` asks that there be that many such keys.
- `Vouches.ReaderVerifyVouch` and `BuildVouch.Build` take it that the curve library takes no point of another length than
  32 bytes.
- `RingRefusals` and `VouchRefusals` ask that the hashes in question do not meet on the inputs compared, and state it of
  those inputs alone.
- `Offering.DeletionIsOffered` asks that at the deletion no removal cursor of the peer, stored or about to be, is at or
  past the removal, as it is whenever they are dated before that day (`EarlierCursorsAreBehind`); a removal behind a
  cursor is never offered (`Replication.PassedIsNeverOffered`).
- `Replication`: post ids are never reused, the two servers differ, and an empty body trims to nothing.

## Model

| member | source | states |
|---|---|---|
| Bytes.ComparePubkeys | client/src/lib/ringsig.ts:100-105 | for keys of 32 bytes the sign is the bytewise order and zero means equal; for any keys, no number exactly when one ends first |
| Bytes.NeighboursSorted | crates/lethe-server/src/crypto.rs:221-224 | checking each key against the one before it is the same as the whole ring being strictly sorted |
| RingSig.RingVerify | client/src/lib/ringsig.ts:158-191 | accepts exactly when sizes and points are right, no multiplication throws and the walk closes; then there are 1 to 50 keys and every chain of challenges from c0, hash by hash, comes back to c0 |
| RingSig.VerifyVouch | crates/lethe-server/src/crypto.rs:189-264 | accepts exactly when the ring is strictly sorted, points are valid, scalars canonical and the walk closes; then every chain of challenges from c0 comes back to c0 |
| RingSig.RingSign | client/src/lib/ringsig.ts:109-154 | for every size and index: the two errors exactly, a throw only if a multiplication throws, or the signature with each random response in its place after the wrapped loop |
| RingSig.SignOthers | client/src/lib/ringsig.ts:124-146 | once round the ring from the signer both nullable arrays hold what the specification says, the signer's response alone missing |
| RingSig.WrapIndex | client/src/lib/ringsig.ts:126-141 | the remainder wraps an index past the end of the ring to its start |
| RingTheorems.WalkFollowsSigner | client/src/lib/ringsig.ts:109-191 | the verifier, who starts at 0, holds at each position the challenge the signer, who started after itself, held there |
| RingTheorems.Completeness | client/src/lib/ringsig.ts:109-191 | an honest signature closes the ring for every size, position and randomness; exactly when server and reader accept it |
| RingTheorems.Extraction | crates/lethe-server/src/crypto.rs:246-263 | two accepted signatures agreeing on L and R at a position with different challenges determine one scalar, behind both the key and the key image |
| RingRefusals.ReaderTakesOneMessage | client/src/lib/ringsig.ts:158-191 | where the challenges of two messages never meet, no signature is accepted by the reader under both |
| RingRefusals.ServerTakesOneMessage | crates/lethe-server/src/crypto.rs:189-264 | the same of the server's verifier |
| RingRefusals.ChangedResponseIsACollisionOrTheKey | client/src/lib/ringsig.ts:158-191 | if two signatures with one c0 and key image differ in their responses and both pass, then at some position one challenge follows two different inputs of the hash, or one input reached with two challenges, which gives the key away |
| Rooms.RoomStore.AddMemberRow | crates/lethe-server/src/db/rooms.rs:219-239 | inserts one pending, uninvited row, last in order, or for a known box key changes nothing |
| Rooms.RoomStore.Grant | crates/lethe-server/src/db/rooms.rs:282-311 | sets wrap and inviter exactly when the row is pending and the inviter active, pending inviters included |
| Rooms.RoomStore.SoftRemove | crates/lethe-server/src/db/rooms.rs:243-262 | afterwards no row of the signing key is active; each that was is the same row removed on this day, every other is untouched; true exactly when one was active |
| Rooms.RoomStore.RemoveAndRekeyRows | crates/lethe-server/src/db/rooms.rs:467-546 | each outcome exactly; on success the target is out that day, every other row is as it was but for the last wrap addressed to it, the epoch is one higher; on failure nothing has changed |
| Rooms.RoomStore.PublishRoster | crates/lethe-server/src/db/rooms.rs:183-217 | stores the roster, raises the epoch and enables vouching exactly when the epoch is the next one |
| Rooms.RecipientCount | crates/lethe-server/src/db/rooms.rs:503-508 | as many recipients as entries exactly when no recipient repeats |
| Rooms.RekeyExact | crates/lethe-server/src/db/rooms.rs:503-532 | with distinct recipients the count and membership checks accept exactly the survivor set; what every row then holds; a failed call changes nothing |
| Rooms.RekeyCoversIffDistinct | crates/lethe-server/src/db/rooms.rs:503-516 | an accepted rekey reaches every survivor exactly when its recipients are distinct |
| RoomRuns.RunEvolves | crates/lethe-server/src/db/rooms.rs:219-546 | over every run members stay listed, removal and acceptance are permanent, epochs only rise, stored rosters never change |
| RoomRuns.CreatorKeyIsStable | crates/lethe-server/src/db/rooms.rs:151-161 | in every run the creator query answers with the creator's row and no other |
| RoomRuns.LifeOf | crates/lethe-server/src/db/rooms.rs:151-546 | any statements against the tables of a new room leave the state the run function gives, with nothing gone back and the creator still the one rosters are checked against |
| Leaving.LeaverIsGone | crates/lethe-server/src/db/rooms.rs:243-262 | in every run from a leave until a join with its key: no active row has it, it is in no live ring and passes no creator check |
| CreatorCheck.PassesExactly | crates/lethe-server/src/db/rooms.rs:353-375 | in every run: the creator passes while active, and so does every other active member without an inviter |
| CreatorCheck.OnlyCreatorPassesExactly | crates/lethe-server/src/logic/rooms.rs:458-492 | only the creator passes if and only if every other active member has an inviter or shares its signing key |
| CreatorCheck.JoinerPasses | crates/lethe-server/src/logic/rooms.rs:458-492 | after one join the joiner passes, accepted by nobody |
| CreatorCheck.CreatorPassesWhileActive | crates/lethe-server/src/db/rooms.rs:353-375 | while nobody joins with its key the creator passes exactly while its row is active, and once removed never again |
| RoomRuns.InviteForest | crates/lethe-server/src/db/rooms.rs:282-311 | if granters are accepted, invited-by has no cycle and each chain reaches an uninvited row in fewer steps than members |
| InviteChains.GrantKeepsForestExactly | crates/lethe-server/src/db/rooms.rs:282-311 | a grant the server accepts keeps a forest if and only if walking up from the inviter does not come past the member it is for |
| InviteChains.RunKeepsPendingUninvited | crates/lethe-server/src/db/rooms.rs:219-311 | in every run a member without a wrap has no inviter |
| RoomRuns.PendingGranterMakesACycle | crates/lethe-server/src/db/rooms.rs:297-302 | a pending active member named as its own inviter becomes its own ancestor |
| JoinCap.CapUnderConcurrency | crates/lethe-server/src/logic/rooms.rs:197-209 | with at most k joins between count and insert, no interleaving has more than 49 + k active members |
| JoinCap.CapIsReached | crates/lethe-server/src/logic/rooms.rs:197-209 | for every k of one or more some run of 32-byte keys reaches 49 + k |
| JoinCap.CapExactly | crates/lethe-server/src/logic/rooms.rs:197-209 | a cap holds in every receivable run if and only if it is at least 49 + k; fifty if and only if k is one |
| JoinCap.RejoinIsNeverRefused | crates/lethe-server/src/logic/rooms.rs:197-207 | an active member's repeated join passes the check in every interleaving and its insert changes nothing |
| JoinCap.CountRefusesExactly | crates/lethe-server/src/logic/rooms.rs:200-205 | lookup and count refuse exactly a box without an active row when fifty rows are active |
| RosterMachine.CheckShape | crates/lethe-server/src/logic/rooms.rs:420-440 | the request checks pass exactly for 1 to 50 strictly sorted keys of 32 bytes and a 64-byte signature |
| RosterMachine.BeginsExactly | crates/lethe-server/src/logic/rooms.rs:408-440 | a request goes on exactly when it is for the epoch after the room's and well shaped |
| RosterMachine.InsertEndsTheRequest | crates/lethe-server/src/db/rooms.rs:183-217 | an insert stores the request's ring and signature exactly if its epoch is still the next one, and nothing else changes but that the request is over |
| RosterMachine.RosterMachineIsSound | crates/lethe-server/src/logic/rooms.rs:408-455 | with racing publishers: stored epochs are 1 to the current, vouching iff any, each roster well shaped, creator-signed, and live at a moment within its own request |
| RosterMachine.FirstRosterIsReachable | crates/lethe-server/src/logic/rooms.rs:408-455 | a creator alone in a new room can publish roster 1 |
| RosterMachine.StoredForGood | crates/lethe-server/src/db/rooms.rs:183-217 | no later step, a second publisher's among them, changes a stored roster |
| RosterMachine.CanonicalRing | client/src/lib/vouch.ts:108-116 | exactly the given keys, sorted and without repeats, strictly ascending when they are 32 bytes long |
| RosterMachine.CanonicalMatchesLive | client/src/pages/room.ts:149-155 | the browser's ring equals the server's live list exactly when no two accepted active rows share a signing key |
| RosterMachine.SharedKeyBlocksTheRoster | client/src/pages/room.ts:149-155 | after two joins under one signing key, both granted, no strictly sorted ring is the server's live list |
| Vouches.ValidateVouch | crates/lethe-server/src/logic/posts.rs:142-202 | accepts exactly the vouches for this room that cite its current epoch, carry the ring and signature stored for it and a valid ring signature, over its two reads of the room |
| Vouches.ReaderVerifyVouch | client/src/lib/vouch.ts:212-255 | for any ring at all: accepts exactly when lengths, order, epoch, creator signature and ring signature check out against the fetched roster |
| Vouches.VouchesAreDurable | crates/lethe-server/src/logic/posts.rs:142-202 | whatever the server once accepted, every later reader accepts if and only if no multiplication throws; its ring was live within the request that published it |
| BuildVouch.Build | client/src/lib/vouch.ts:152-186 | on a roster served in any order: refuses exactly those not on it, refuses exactly a canonical ring not signed, builds exactly when besides the ring's size and the multiplications allow a signature, and else throws; what it builds is signed at the member's place over the digest of this room, thread, body, epoch, ring and key image |
| BuildVouch.HonestVouchIsAccepted | client/src/lib/vouch.ts:152-186 | an honest member's vouch on the current roster is accepted by the server if and only if its points are |
| VouchRefusals.AcceptedCitesTheLastRoster | crates/lethe-server/src/logic/posts.rs:137-181 | in every run, the ring of an accepted vouch is that of the last roster published at its first read: a key not on it is in no accepted vouch, and an older epoch is refused |
| VouchRefusals.VouchIsForOnePost | client/src/lib/ringsig.ts:69-90 | where hashes do not meet, a vouch that a reader or the server takes in one thread for one body is taken by neither in another thread or for another body |
| VouchRefusals.BaseIsForOneMemberInOneThread | client/src/lib/ringsig.ts:48-54 | no two of room, thread and member hash the same input to a key image base |
| VouchRefusals.OneImageAThread | client/src/lib/vouch.ts:152-186 | all vouches one member builds in one thread carry one key image, whatever roster and body |
| KeyStore.RoomKeys.AppendRoomKey | client/src/lib/roomkey.ts:138-153 | adds an unknown key at the end and keeps the highest epoch |
| KeyStore.RoomKeys.EncryptMessage | client/src/lib/roomkey.ts:181-198 | always under the last key; fails exactly with no keys |
| KeyStore.RoomKeys.DecryptMessage | client/src/lib/roomkey.ts:212-238 | the newest key that is not wrong decides: its plaintext, or any other error; no key fits exactly when all are wrong |
| KeyStore.RoomKeys.ReadMessage | client/src/lib/roomkey.ts:212-238 | a message decrypts, to its own plaintext, if and only if its key is in the history |
| KeyStore.HistoryOnlyGrows | client/src/lib/roomkey.ts:138-153 | any number of appends keep the old history as a prefix, without repeats, with exactly the keys given and the highest epoch |
| KeyHolding.GrantIsSafe | client/src/pages/room.ts:419-451 | a grant, from keys read before the list, reaches only a box active after the key's epoch began |
| KeyHolding.CommitIsSafe | client/src/pages/room.ts:345-397 | a committed rekey leaves the new key with exactly the survivors, its sender among them |
| KeyHolding.HoldersWerePresent | client/src/pages/room.ts:108-145 | in every interleaving, whoever holds a key minted for an epoch had an active row at or after that epoch began |
| KeyHolding.RemovedNeverHoldLaterKeys | crates/lethe-server/src/db/rooms.rs:467-546 | a box removed by a rekey never, in any later state, holds a key of that epoch or a later one |
| KeyHolding.LeaverNeverHoldsLaterKeys | client/src/pages/room.ts:319-343 | a box that left never holds a key minted for an epoch that began later, in its browser or its row |
| KeyHolding.ForgottenForGood | client/src/pages/room.ts:332-339 | a browser that forgets the room holds no key of it in any later run |
| KeyHolding.OnlyHoldersRekey | client/src/pages/room.ts:351-355 | in every run, a browser with a rekey under way holds a key of the room as long as it keeps the room |
| KeyHolding.AnswerIsTakenOnce | client/src/pages/room.ts:377-389 | the answer to a rekey brings its browser the new key and epoch, once, and changes nothing else |
| Convergence.NextKeepsOrdered | client/src/pages/room.ts:108-145 | until the next rekey no single step of any browser takes a survivor's row off the new key, puts a key behind it, or loses one, with nothing else in hand at the commit |
| Convergence.AdoptingConverges | client/src/pages/room.ts:453-489 | with no older key in hand, a survivor's poll that found the new key leaves its browser with it last and the new epoch |
| Convergence.RekeyConverges | client/src/pages/room.ts:453-489 | from any new room, over every interleaving of single steps after a rekey, of each survivor whose browser then had no key in hand and no lacking key to come: once a poll that found the new key came to adopting it is last under the server's epoch, and no key is lost |
| Convergence.SeenEpochNeverAdopts | client/src/pages/room.ts:457 | over every interleaving of single steps, a browser with a key and the current epoch takes no key until the epoch moves |
| Polling.RekeyIsReachable | client/src/pages/room.ts:345-397 | every new room has a run up to a rekey that would commit with no key in hand, its two survivors holding the first |
| Polling.SurvivorConverges | client/src/pages/room.ts:453-489 | after that rekey one poll gives the survivor the new key behind the old |
| Polling.JoinerGetsGrantersLastKey | client/src/pages/room.ts:137-141 | after a whole granting poll and a whole poll of its own, a late joiner holds the current key if and only if its granter held it last before |
| Polling.LateJoinerIsStranded | client/src/pages/room.ts:137-141 | from every new room, a run after which a joiner has the old key under the new epoch, whatever follows before the next rekey |
| Polling.TornPollMissesTheRekey | crates/lethe-server/src/logic/rooms.rs:368-370 | a rekey between the two reads leaves the browser without the new key but with the new epoch |
| Polling.TornPollIsStranded | crates/lethe-server/src/logic/rooms.rs:368-370 | from every new room, a run after which a survivor has the old key under the new epoch, whatever follows before the next rekey |
| RekeyLimits.RekeyConvergesExactly | client/src/pages/room.ts:453-489 | over every interleaving, for every run up to a rekey: polls that find the new key leave it last under the new epoch if and only if the browser had no key in hand and no lacking key to come; no older key comes behind it if and only if none it lacked was in hand or to come |
| RekeyLimits.AdoptOvertakesExactly | client/src/lib/roomkey.ts:138-153 | one poll takes its browser off the new key if and only if it has in hand a key the browser lacks and began with no key or before the epoch seen by now |
| RekeyLimits.OlderKeyHidesTheNew | client/src/pages/room.ts:453-474 | any older key in hand: a run in which a poll that found the new key adopts nothing |
| RekeyLimits.OlderKeyOvertakes | client/src/pages/room.ts:453-474 | an older key in hand that the browser lacks: a run after which it comes behind the new one |
| RekeyLimits.OlderAnswerOvertakes | client/src/pages/room.ts:377-389 | the same for the answer to an earlier rekey of its own |
| RekeyLimits.JoinerGetsWhatThePollBeganWith | client/src/pages/room.ts:419-451 | over every interleaving, a member granted after a rekey comes to the last key the granting poll began with, so to the current one if and only if that was it |
| PollAround.PollAroundARekeyExactly | client/src/pages/room.ts:108-145 | wherever the commit falls in one poll, after one more the survivor has the new key last if and only if it fell not between the two reads or the list showed no key |
| OvertakenPoll.OlderKeyComesLast | client/src/pages/room.ts:453-474 | from every new room, a run after which a survivor of two rekeys encrypts with the key before last, which the removed member holds, whatever follows before the next |
| Posts.PostStore.InsertLocal | crates/lethe-server/src/db/posts.rs:37-75 | added exactly when the thread is there and the id new: with the next number, which is the new post count, its own id as origin id, and no other row changed |
| Posts.PostStore.InsertRemote | crates/lethe-server/src/db/posts.rs:95-148 | added exactly when its thread is there and origin pair and id are new, with the next number; otherwise nothing changes |
| Posts.PostStore.MaxSeq | crates/lethe-server/src/db/posts.rs:40-50 | the highest number in the thread, zero for none |
| Posts.PostStore.DeleteByAuthor | crates/lethe-server/src/db/posts.rs:227-259 | exactly for a post without a removal: a removal of this reason dated today, and the content wiped, in one step; else nothing |
| Posts.PostStore.RemoveCopy | crates/lethe-server/src/db/federation.rs:195-209 | every local copy of the named remote post carries a removal afterwards; a second removal is a no-op |
| Posts.PostStore.EnsureForFederation | crates/lethe-server/src/db/threads.rs:36-57 | the thread exists afterwards with the origin's date and no expiry, and an existing one is untouched |
| Posts.PostStore.DeleteExpired | crates/lethe-server/src/db/retention.rs:35-48 | in the threads' own columns: exactly those go whose expiry day has come or whose age in days exceeds their board's retention, with their posts and removals; counted |
| Posts.SweepIsByAge | crates/lethe-server/src/db/retention.rs:26-48 | if a thread goes, so does every older one of its board with no later expiry; what goes on one day goes on any later |
| Posts.PostStore.Create | crates/lethe-server/src/db/threads.rs:6-28 | a new thread of this server's own with its expiry, dated today and empty; a taken id changes nothing |
| Listing.SignerFirstSeq | crates/lethe-server/src/db/posts.rs:152-166 | the lowest number among the thread's posts the key signed, none for none |
| Listing.ListInThread | crates/lethe-server/src/db/posts.rs:274-347 | a page after a number is exactly the posts numbered from the next on, each with its content, first number of its signer and peer's name, or its tombstone |
| Listing.FirstSeqStandsForKey | crates/lethe-server/src/db/posts.rs:152-166 | two signed posts shown in a thread carry one first number exactly when one key signed both |
| Posts.RunKeepsInv | crates/lethe-server/src/db/posts.rs:37-148 | in every run each thread's posts are numbered 1 to its count, its date bounds theirs, a remote post is stored once, own posts keep one id |
| Posts.ThreadNeverFalls | crates/lethe-server/src/db/posts.rs:64-70 | while a thread exists its last-post date and count never fall |
| Posts.NumbersAreStable | crates/lethe-server/src/db/posts.rs:217-226 | while its thread exists a post keeps number, date and origin, and its content changes at most to nothing |
| Posts.DuplicatePullIsNoOp | crates/lethe-server/src/db/posts.rs:85-94 | storing a remote post again, in any later state with its thread, changes nothing |
| Replication.IngestIsSafe | crates/lethe-server/src/federation/pull.rs:298-361 | no event of a processed post is stored: its body is empty, so too short |
| Replication.RemovalIsApplied | crates/lethe-server/src/federation/pull.rs:363-400 | after a removal event every copy of its post carries a removal |
| Replication.QueriedRemovalsAreWiped | crates/lethe-server/src/db/post_removals.rs:77-129 | the removals the origin hands out are of posts it no longer has anything to show of |
| Replication.DeletionIsSafe | crates/lethe-server/src/federation/pull.rs:183-220 | once a removal event is processed, in every later state of any interleaving the peer shows only a tombstone |
| Offering.DeletionIsOffered | crates/lethe-server/src/db/post_removals.rs:77-129 | in every run after a deletion, until the peer takes the removal up or its thread goes, it is a row dated the day of the deletion ahead of the peer's cursor, and no page of removals comes back empty |
| Offering.EarlierCursorsAreBehind | crates/lethe-server/src/db/post_removals.rs:102-109 | cursors dated before the day of a deletion are behind its removal |
| Replication.PostsPageIs | crates/lethe-server/src/db/federation.rs:137-191 | a page of posts is of own posts by day, at most 200; a shorter one leaves out none dated after the cursor |
| Replication.RemovalsPageIs | crates/lethe-server/src/db/post_removals.rs:77-129 | a page of removals is of own posts' global removals by removal day, at most 200; a shorter one leaves out none dated after the cursor |
| RemovalRun.RemovalIsProcessed | crates/lethe-server/src/federation/pull.rs:183-220 | from two empty servers, deletion on any day, a run after which the peer holds a pulled body, has processed its removal and shows the tombstone ever after |
| Replication.CursorIsOrderKey | crates/lethe-server/src/federation/route.rs:73-78 | the cursor built from origin ids is the key of the page's last row in the order by row ids |
| Replication.PassedIsNeverOffered | crates/lethe-server/src/federation/pull.rs:227-232 | a removal at or before the stored cursor is on no later page, so a failed one is never retried |
| Replication.OnePullAtATime | crates/lethe-server/src/federation/pull.rs:124-232 | until a pull saves its cursors or is broken off no other begins and the stored cursors stay |
| Replication.NothingBeforeTheBackfill | crates/lethe-server/src/federation/pull.rs:227-232 | no pull asks for a removal at or before the cursor the operator began with |
| RemovalRun.FailedRemovalIsNotRetried | crates/lethe-server/src/federation/pull.rs:205-232 | from two empty servers a run after which the peer shows the deleted body and no later page offers its removal |
| PullWorker.Worker.ApplyPostEvent | crates/lethe-server/src/federation/pull.rs:298-361 | true exactly for a row newly added, with the event's fields and a body of at least three characters; otherwise the posts are untouched |
| PullWorker.Worker.Run | crates/lethe-server/src/federation/pull.rs:178-232 | all posts, then all removals, then the cursors, each carried over when the answer has none; the counts are the rows added |
| PullWorker.LoopsAreTheMachine | crates/lethe-server/src/federation/pull.rs:178-232 | the worker's loops end where the step machine does when nothing runs in between |
| Paging.FetchKeepsInv | crates/lethe-server/src/db/federation.rs:137-191 | a nonempty page moves the cursor strictly forward and takes exactly the rows it passes |
| Paging.PagingDelivers | crates/lethe-server/src/federation/route.rs:58-78 | until an empty page: the rows in strict order, all past the start but exactly those inserted behind the cursor |
| Paging.FixedTableIsDeliveredWhole | crates/lethe-server/src/db/feed.rs:57-127 | on a fixed table, either direction, every row past the start exactly once and in order |
| Paging.FeedPager.Ask | client/src/pages/feed.ts:114-124 | asks, from the cursor, exactly when no answer is awaited and the end is not reached |
| Paging.FeedPager.Receive | client/src/pages/feed.ts:124-154 | a page is a fetch step of that reader, newest first, and a page short of fifty means everything but late rows is there; a failure changes nothing but an error line and lets it ask again |
| Cursor.ParseUndoesPrint | crates/lethe-server/src/federation/route.rs:436-453 | parsing undoes printing for every valid day and 16-byte id |
| Cursor.ParsedIdIsCanonical | crates/lethe-server/src/federation/route.rs:436-449 | a text that parses names a valid day and spells its 16-byte id the only way there is |
| Cursor.ParsesExactly | crates/lethe-server/src/federation/route.rs:436-449 | a text is a given day and id exactly when it is that day in decimal, signed or not, of 32 bits and in the calendar, a dot, and the id's 16 bytes in base64url |
| Cursor.DigitsAreWritten | crates/lethe-server/src/federation/route.rs:451-453 | a day is printed in decimal without leading zeros |
| Cursor.NoCursorExactly | crates/lethe-server/src/federation/route.rs:436-440 | no cursor is read from none or an empty text, and only from those |
| Replay.NonceTable.RecordNonce | crates/lethe-server/src/db/nonces.rs:11-28 | true exactly for a nonce not there; an existing stamp is kept |
| Replay.NonceTable.Prune | crates/lethe-server/src/db/nonces.rs:32-45 | deletes exactly the nonces older than the age, and counts them |
| Replay.Serve | crates/lethe-server/src/db/nonces.rs:11-45 | any requests and sweeps on one table leave what the run function gives, and within the slack no request accepted twice |
| Replay.FreshForLessThan121 | crates/lethe-server/src/logic/rooms.rs:301-304 | a timestamp fresh at one moment is stale 121 seconds later |
| Replay.NoReplayHolds | crates/lethe-server/src/db/retention.rs:64-69 | with delay plus twice the skew at most 479 seconds no run accepts a request twice |
| Replay.TooLateIsReplayed | crates/lethe-server/src/db/retention.rs:64-69 | with any more, a run with 32-byte keys that does |
| Replay.ReplaySafetyExactly | crates/lethe-server/src/logic/rooms.rs:301-330 | replay safety over all runs holds if and only if delay plus twice the skew is at most 479 seconds |
| ThreadView.DocumentedParentExactly | client/src/pages/thread.ts:263-273 | for every post and thread, code and comments agree on the parent if and only if no later reference is the first usable one, unless it names the OP |
| ThreadView.LaterReferenceIsIgnored | client/src/pages/thread.ts:350-368 | a thread of storable posts on which they do not agree |
| ThreadView.ReferenceNames | client/src/pages/thread.ts:263-273 | `>>` and a number in decimal, behind text without `>`: the parent is that post if it is an earlier one of the thread, else the OP |
| ThreadView.NoReference | client/src/pages/thread.ts:263-273 | a body with no `>>` before a digit answers the OP |
| ThreadView.ContextOf | client/src/pages/thread.ts:290-299 | the early-breaking walk, in any order, computes exactly the proper ancestors of kept posts that are not kept |
| ThreadView.WalkUp | client/src/pages/thread.ts:292-298 | one walk ends and leaves everything above what it added accounted for |
| ThreadView.ApplyVouchFilter | client/src/pages/thread.ts:279-308 | which posts are plain, dimmed and hidden, for any view; the OP is never hidden |
| ThreadTree.BuildTree | client/src/pages/thread.ts:353-369 | each parent's list is its children in thread order |
| ThreadTree.ChildIffParent | client/src/pages/thread.ts:350-369 | a post is in exactly its parent's list |
| ThreadTree.PostList.RenderSubtree | client/src/pages/thread.ts:334-348 | appends the subtree's cards, or nothing for a missing post, and terminates |
| ThreadTree.PostList.Render | client/src/pages/thread.ts:176-202 | for any list, empty or without the OP too: the OP's card if it is there and the forest of its replies |
| ThreadTree.RenderingIsAPermutation | client/src/pages/thread.ts:185-198 | every post on the page exactly once, after its parent if that is there, at its level below the OP's replies, from 0 to at most 2 |
| ThreadTree.RepliesStandInThreadOrder | client/src/pages/thread.ts:334-369 | on the page any two replies to one post stand in thread order |
| ThreadLabels.AssignLabels | client/src/pages/thread.ts:375-402 | OP for the OP's key, otherwise one name exactly per key and per unsigned post, numbered from 1 in the order of first appearance |
| Encodings.EncodeInjective | crates/lethe-types/src/rooms.rs:143-431 | at the lengths the handlers enforce, equal bytes mean the same kind of message and the same fields |
| Encodings.SniffFindsKind | crates/lethe-types/src/posts.rs:139-217 | a few of the first thirteen bytes tell all seventeen kinds apart |
| Layouts.AllAreLaidOut | crates/lethe-types/src/rooms.rs:143-431 | every message: its tag, each field at its place, each number read back from its bytes, little-endian or big-endian as the side reading it expects |
| Layouts.FedPostIsRead | crates/lethe-server/src/federation/events.rs:111-127 | reading length-prefixed fields off a federated post's payload gives the versions, then its fields in order |
| Encodings.SameFedPost | crates/lethe-server/src/federation/events.rs:111-127 | a federated post's payload determines every field, absent author fields included |
| Encodings.SameFedRemoval | crates/lethe-server/src/federation/events.rs:129-139 | a federated removal's payload determines every field |
| Encodings.CanonicalRoster | crates/lethe-types/src/rooms.rs:181-191 | the buffer loop writes the roster message |
| Encodings.VouchMessageInput | crates/lethe-types/src/posts.rs:150-170 | the buffer loop writes the vouch message |
| Encodings.CanonicalPostPayload | crates/lethe-server/src/federation/events.rs:111-127 | the writers put down the federated post message field by field |
| Encodings.CanonicalRemovalPayload | crates/lethe-server/src/federation/events.rs:129-139 | the writers put down the federated removal message field by field |
| Base64.B64Encode | client/src/lib/b64.ts:7-29 | the index loop produces the unpadded base64url text |
| Base64.B64Decode | client/src/lib/b64.ts:31-55 | every write is in range, the preallocated array ends exactly full, errors are the decoder's |
| Base64.DecodeUndoesEncode | client/src/lib/b64.ts:7-55 | decoding an encoding gives back every byte array |
| Base64.EncodeUndoesDecode | client/src/lib/b64.ts:31-55 | encoding a decoding gives back the text if and only if its unused bits are zero |
| Base64.UnusedBitsAreLost | client/src/lib/b64.ts:31-55 | "AB" decodes to one zero byte, which encodes to "AA" |
| Base64.DecodeAccepts | client/src/lib/b64.ts:31-55 | refused exactly for a character outside the alphabet or one left over |
| Base64.EncodedBits | client/src/lib/b64.ts:7-29 | as binary numbers, each group of bytes and its characters are the same bits, zeros behind a short one |
| Base64.SymbolInAlphabet | client/src/lib/b64.ts:4-5 | a symbol is the character at its value's place in the 64-character alphabet |

## Left out

- Curve arithmetic, SHA-2, Ed25519, AEAD, sealed boxes: parameters or symbols with the laws named above; both sides are
  taken to accept the same curve points.
- Computational claims (unforgeability, anonymity, unlinkability): only the algebra and the key flow are decided here.
- HTTP, extractors, JSON and the base64 of request fields: handlers start from decoded fields; base64 errors of vouch
  fields and their place among the other checks are not modelled.
- Integer width of database columns: sequence numbers, epochs and counts are unbounded; the payload encodings do
  truncate. `now - ts` in the freshness check cannot overflow in the model.
- Proof of work, moderation beyond the minimum length, thread-title and body limits, boards other than as a label.
- Restricted invites, room messages and their retention, provenance, reports, admin tokens, server identity files.
- Rows from before federation that have no origin, and the statement that gives them one.
- Request signatures in the room steps: a step is taken by the browser it names; nonces are modelled in `Replay` alone.
- The membership check before the member list is served, and the key-pair check before a grant, only refuse requests; an
  honest browser's pair matches and the grant checks activity again. `KeyHolding` leaves both out.
- Browser storage migration and several tabs of one browser beyond any number of polls and rekeys at once.
- KeyHolding.Next: the server's read of the epoch and the browser's assignment of its list and epoch are one step, so a delay
  in delivering the answer is not modelled; `membersInFlight` keeps two such answers of one page from overlapping.
- Polling.JoinerGetsGrantersLastKey: speaks of whole polls; `RekeyLimits.JoinerGetsWhatThePollBeganWith` of any others.
- Adversarial browsers in `KeyHolding` and adversarial peers in `Replication`; both are about honest parties interleaving.
- Feed ordering by last comment while posts arrive: a thread's key moves then, and `Paging` only inserts rows.
- Encoders that are one concatenation have no method of their own; `Encodings.Encode` is their
  definition and `Layouts.AllAreLaidOut` says where their fields lie.
- Vouch badges, same-voucher marks and the voucher count: single lookups or counts.
- Listing.ListInThread: reads the tables once, where the program asks for each signer's first number after its list.
- RingSig.RingVerify: scalars are integers, so the byte comparison that ends the walk is equality of scalars.
- ThreadTree.RenderingIsAPermutation: asks for distinct numbers from 1, which `Posts.RunKeepsInv` gives every thread.
