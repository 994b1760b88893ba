# A verified model of the enclave's group store and address functions

The repository keeps user groups in a MongoDB database that the enclave does not trust. This project
models the parts of it that carry its logic and proves what they promise.

**The signed group store** (`trusted/MongoDatabase.cpp`). A group document holds hashed names and
encrypted keys, and a MAC over its name, its encrypted name and its member list. Clients read a document,
check its signature, predict the signature of the document as it will be after their update, and issue an
update that is conditional on the old signature, up to ten times. The modules

- `Primitives`, `Documents`: the idealised cryptography, documents as ordered field lists, the signature
  computation as the loop that feeds the MAC, and the server's find and conditional update;
- `Signatures`: why a predicted signature is right, and why selecting on the old signature is a
  compare-and-swap on contents;
- `Protocol`: any number of clients as a state machine in which each server call is one atomic step and
  snapshots may be stale;
- `Safety`, `Refinement`, `Progress`: what holds in every reachable state of every interleaving;
- `RetryLoop`: the retry loop as a loop, and its atomicity whatever others do between its server calls;
- `Calls`: what each call does in every reachable state, step by step, and as a whole when undisturbed;
- `KeyLengths`: the exact condition on keys under which signatures stay valid, with the run that breaks it;
- `Registry`, `Sweep`, `Database`: the client class as a class, run without interference, whose methods are proved
  against an abstract table of groups and a registry of users.

The server is reached through `FindOne` and `UpdateOne`; each is one atomic step. A signature tag is a
free term over the bytes fed to the MAC. Name hashes are 32-byte strings that do not collide on the names
in use (`World.Ideal`): plain group and user names, and user names followed by a group name.
`Primitives.IdealWorldsExist` shows that these assumptions contradict nothing. In the concurrent runs all
keys have one length, `World.keySize`, which the source calls `KEY_SIZE`. That this is needed is a result of
`KeyLengths`: over all ideal primitives and all runs, the signatures stay valid if and only if no two keys
differ in length, and for any two lengths there is a run that leaves a group which does not validate. Nonces,
and what the driver answers to a bulk operation without updates, are parameters.

**IP addresses** (`trusted/inet_pton_ntop.c`). `InetGrammar` states the grammar as syntax trees with the
bytes they denote, `InetRfc3986` shows that these are the nine alternatives of section 3.2.2 of RFC 3986,
`InetParse4`, `InetParse6` and `InetPton6` are the scanners over their buffers, `InetPrint` and `InetFormat` the
printers, and `InetCanonical` says of the bytes alone which text is printed. A string is the characters before `src_endp`.

**Supporting arithmetic.** `Scanf` is the format interpreter `vsscanf`, `PowerOfTwo` the bit-smearing
computation of libbson.

Loops, buffers and objects that the source updates in place are methods with loops, arrays and classes
here. Each is proved against a function or a predicate, about which the lemmas speak.

## Model

| member | source | states |
|---|---|---|
| Safety.EveryGroupValidates | trusted/MongoDatabase.cpp:168-443 | in every interleaving of any number of clients with stale snapshots, every stored group passes validate_group_signature |
| Safety.NoUserTwice | trusted/MongoDatabase.cpp:168-249 | in every interleaving no group lists a user twice: the conditional add re-checks `$ne` at the moment of the update |
| Safety.NoSignatureErrors | trusted/MongoDatabase.cpp:191-195 | in every interleaving no call throws a signature or decryption error |
| Safety.RunKeepsInv | trusted/MongoDatabase.cpp:168-443 | the invariant over whole runs: stored groups, snapshots and queued updates are well formed and correctly signed |
| Safety.StepKeepsInv | trusted/MongoDatabase.cpp:168-443 | each step of each kind of call, by any client, keeps that invariant |
| Safety.CommitKeepsGroup | trusted/MongoDatabase.cpp:198-228 | a conditional update computed from a snapshot leaves the document it matches, which may be another copy, well formed and correctly signed, with exactly that member pushed or pulled |
| Safety.CommitChangesGroup | trusted/MongoDatabase.cpp:226-238 | a conditional update that matches changes the document |
| Safety.BulkKeepsGroup | trusted/MongoDatabase.cpp:337-370 | a queued bulk removal, whose selector is the whole old document, does the same |
| Safety.UpdateKeepsSound | trusted/MongoDatabase.cpp:198-224 | an addition needs only equal signatures of snapshot and stored copy, a removal equal contents |
| Safety.SameTagSameGroup | trusted/MongoDatabase.cpp:277-285 | two well-formed copies of one group with one signature are the same document |
| Safety.SelectedByTag | trusted/MongoDatabase.cpp:177-206 | what the conditional selector says of the document it picks, in both directions: the old signature, and absence or presence of the user |
| Safety.NewGroupOk | trusted/MongoDatabase.cpp:408-428 | the document create_group inserts is well formed and correctly signed |
| Safety.BulkOpIsSwept | trusted/MongoDatabase.cpp:337-367 | conversely, a well-formed queued removal is what a sweep makes of the copy in its selector |
| Safety.SweepOk | trusted/MongoDatabase.cpp:337-367 | reading a well-formed group queues a removal predicted from it and never throws |
| Refinement.StoreIsReplayOfLog | trusted/MongoDatabase.cpp:176-319 | refinement: after every run the store represents exactly the replay of the committed operations (create if absent, append if absent, filter out) in commit order; none is lost |
| Refinement.StepRefines | trusted/MongoDatabase.cpp:176-319 | each step is one such operation on the state it acts on, or changes nothing |
| Refinement.CommitRefines | trusted/MongoDatabase.cpp:198-238 | a conditional update that matches is exactly the abstract append or filter on the table it commits against, where it has something to do |
| Refinement.BulkRefines | trusted/MongoDatabase.cpp:354-370 | a bulk update that matches is exactly the abstract filter |
| Refinement.InsertRefines | trusted/MongoDatabase.cpp:414-435 | an insert that succeeds creates a group that was absent, with one member |
| Refinement.ReturnedCall | trusted/MongoDatabase.cpp:183-190 | a call that returns has committed its operation in this step, or finds at this very moment that there is nothing to do |
| Calls.CreateStep | trusted/MongoDatabase.cpp:430-443 | in every run: create_group's insert creates an absent group; for a present one nothing is written and the call becomes the addition of the user, with ten attempts; a call that is over at once leaves the user in the group |
| Calls.UndisturbedRequest | trusted/MongoDatabase.cpp:168-324 | after any run, an add or removal whose steps follow each other returns and has done its abstract operation |
| Calls.UndisturbedCreate | trusted/MongoDatabase.cpp:408-443 | likewise create_group: the group created, or the user appended to the one that exists |
| Calls.SweepReads | trusted/MongoDatabase.cpp:337-367 | each group read adds one removal of that user to the queue, conditional on the whole document read |
| Calls.SweepExecutes | trusted/MongoDatabase.cpp:369-373 | in every run the queue is executed in order and to its end; each update filters its group exactly if the document is unchanged since it was read |
| Calls.UndisturbedSweep | trusted/MongoDatabase.cpp:326-374 | after any run, an undisturbed sweep over all groups returns and has filtered the user out of every group |
| Calls.InvalidIsRejected | trusted/MongoDatabase.cpp:191-195 | in any state, an add or removal that finds an invalid signature throws and writes nothing |
| Calls.SweepRejects | trusted/MongoDatabase.cpp:342-350 | in any state, a sweep throws for a name that does not decrypt and for an invalid signature, and otherwise goes on |
| Refinement.FindTells | trusted/MongoDatabase.cpp:177-190 | the find succeeds if and only if the operation would change the table |
| Refinement.EffectiveChanges | trusted/MongoDatabase.cpp:177-190 | an operation has something to do if and only if it changes the table |
| Refinement.BulkMissesChangedGroups | trusted/MongoDatabase.cpp:364-370 | under interference, a queued removal filters its group if and only if the stored document is still the one it was computed from; the user is left in the group exactly when it was in a changed one |
| Refinement.TableUnique | trusted/MongoDatabase.cpp:581-592 | a store represents at most one table |
| Refinement.FilterMatches | trusted/MongoDatabase.cpp:291-294 | pulling a hashed name from the members removes exactly that user's rows |
| RetryLoop.Retry | trusted/MongoDatabase.cpp:174-248 | the retry loop, run against a store that others may replace before each server call, makes exactly the steps of the protocol's client: ten attempts, the same outcome, the same write |
| RetryLoop.RetryIsAtomic | trusted/MongoDatabase.cpp:174-323 | whatever well-formed stores the loop meets at its server calls, of which there are at most twenty, a call that returns took effect at one of these calls, as the abstract operation on the table of that moment or as nothing to do there; a call that gives up has written nothing, and no other error arises |
| RetryLoop.GivesUpExactly | trusted/MongoDatabase.cpp:174-248 | the loop throws "after multiple attempts" if and only if ten turns in a row find a validly signed document that their update then does not match |
| RetryLoop.Undisturbed | trusted/MongoDatabase.cpp:174-248 | left alone, the loop ends in its first turn: nothing to do, an invalid signature, or an update that always matches |
| Progress.GivesUpAfterTenWrites | trusted/MongoDatabase.cpp:174-248 | a call throws "after multiple attempts" exactly when its attempts are spent, and then at least ten writes of its group were made since it began, all by other clients |
| Progress.AttemptsRemain | trusted/MongoDatabase.cpp:174-248 | if others begin fewer than ten calls on a group, or at most ten are begun on it in all, no call on that group runs out of attempts, however many calls there are on other groups |
| Progress.NoOneGivesUp | trusted/MongoDatabase.cpp:255-323 | hence a client for which this holds of every group has never thrown "after multiple attempts" |
| Progress.TenClients | trusted/MongoDatabase.cpp:174-248 | of ten clients that each make at most one call on every group, none ever throws it |
| Progress.RunKeepsAccounts | trusted/MongoDatabase.cpp:174-248 | in every run, failed attempts of a call are at most the writes of its group by others, and an untouched snapshot would still match |
| Progress.CommitKeepsAccount | trusted/MongoDatabase.cpp:226-238 | an update that matches nothing was overtaken by a write of the group between this client's find and its update |
| Progress.StepIsOneWrite | trusted/MongoDatabase.cpp:226-238 | a step makes at most one write, of the group it logs; a logged write changes the contents; no other client is touched |
| Progress.RunPotential | trusted/MongoDatabase.cpp:168-443 | the writes of a group that were made or may still follow are at most the calls begun on it, for all clients and for all but one |
| Signatures.PredictedRemove | trusted/MongoDatabase.cpp:649-653 | for every document with one "users" field, the signature predicted for a removal is that of the document after `$pull` and `$set` |
| Signatures.PredictedAdd | trusted/MongoDatabase.cpp:664-667 | for every document in which "users" is the last signed field, the signature predicted for an addition is that of the document after `$push` and `$set` |
| Signatures.FieldOrderKept | trusted/MongoDatabase.cpp:213-224 | updates keep the field order set at creation |
| Signatures.MemberStreamInjective | trusted/MongoDatabase.cpp:642-661 | with 32-byte names and keys of one length, equal byte streams come from equal member lists |
| Signatures.SignatureDeterminesGroup | trusted/MongoDatabase.cpp:625-673 | two valid copies of a group with one signature have equal contents |
| Signatures.AddCommitKeepsSignature | trusted/MongoDatabase.cpp:198-224 | an addition predicted from any copy with the same valid signature is right, whatever the key lengths |
| Signatures.RemoveCommitKeepsSignature | trusted/MongoDatabase.cpp:277-299 | a removal predicted from the stored copy itself is right for every member list |
| Signatures.RemoveNeedsOneKeyLength | trusted/MongoDatabase.cpp:277-299 | at the level of documents: a family of documents with keys of different lengths on which the removal's selector matches another copy and the result does not validate |
| KeyLengths.SafeExactlyForOneLength | trusted/MongoDatabase.cpp:251-299 | the exact condition: in every run over every ideal world all stored groups validate if and only if no two keys differ in length |
| KeyLengths.TwoLengthsFail | trusted/MongoDatabase.cpp:277-299 | for any two lengths, an ideal world and a run of two clients with proper names and encryptions of keys of these lengths that ends in a stored group which does not validate |
| KeyLengths.OneLengthIsSafe | trusted/MongoDatabase.cpp:168-443 | with keys of one length, whatever it is, no run does |
| Signatures.ShapedValidates | trusted/MongoDatabase.cpp:675-686 | a group document validates if and only if its tag is the MAC of its name, encrypted name and members |
| Documents.ComputeGroupSignature | trusted/MongoDatabase.cpp:625-673 | the loops feed the MAC exactly the signed stream of the document, with the member to skip or to append |
| Documents.FeedMembers | trusted/MongoDatabase.cpp:642-661 | the inner loop feeds every member but those of the skipped name |
| Documents.ValidateGroupSignature | trusted/MongoDatabase.cpp:675-686 | true if and only if the stored signature is the MAC of the signed stream |
| Primitives.HmacContext.Update | trusted/MongoDatabase.cpp:641 | sgx_hmac256_update appends to the bytes fed |
| Primitives.World.MemberHashInjective | trusted/MongoDatabase.cpp:581-592 | the salted hash separates the users of one group, since they share the suffix |
| Primitives.World.MemberHashTellsGroups | trusted/MongoDatabase.cpp:581-592 | the salt counts: one user has different hashes in different groups |
| Primitives.World.SaltIsAppended | trusted/MongoDatabase.cpp:584-587 | the salt is fed after the name: the salted hash is the plain hash of both |
| Database.MongoDatabase.CreateUser | trusted/MongoDatabase.cpp:445-464 | registers the user with its key, or reports a duplicate and changes nothing |
| Database.MongoDatabase.ReencryptUserKey | trusted/MongoDatabase.cpp:525-579 | returns an encryption of the registered key; throws only for an unknown user |
| Database.KeyOfUser | trusted/MongoDatabase.cpp:556-575 | for any document the server returns: an invalid signature or an undecryptable key is an error, and exactly these are; otherwise the key under the new nonce |
| Registry.UserSignatureBindsKey | trusted/MongoDatabase.cpp:607-611 | two valid user documents with one signature have the same name and key |
| Database.MongoDatabase.Perform | trusted/MongoDatabase.cpp:168-324 | undisturbed, add and remove succeed and have done exactly the abstract operation |
| Database.MongoDatabase.AddUserToGroup | trusted/MongoDatabase.cpp:163-166 | appends the user with its registered key if the group exists without it |
| Database.MongoDatabase.RemoveUserFromGroup | trusted/MongoDatabase.cpp:251-324 | filters the user out of the group |
| Database.MongoDatabase.CreateGroup | trusted/MongoDatabase.cpp:408-443 | creates a group of one member, or adds the member to the group that exists |
| Database.MongoDatabase.IsUserPartOfGroup | trusted/MongoDatabase.cpp:376-406 | true if and only if the group lists the user |
| Database.MongoDatabase.GetKeysOfGroup | trusted/MongoDatabase.cpp:466-523 | exactly the registered keys of the current members in joining order; throws only for a missing group or a key that is not of KEY_SIZE bytes |
| Database.KeysOfDocument | trusted/MongoDatabase.cpp:489-522 | for any group document the server returns: an error for the signature if and only if it is invalid; otherwise all keys, of 32 bytes each, in order, or the error of the first member without one |
| Database.DecryptKeys | trusted/MongoDatabase.cpp:505-519 | for any members: every member's key in order, each of 32 bytes, or the error of the first member without one |
| Database.MongoDatabase.RemoveUserFromAllGroups | trusted/MongoDatabase.cpp:326-374 | afterwards every group is its old list without that user |
| Database.MongoDatabase.QueueRemovals | trusted/MongoDatabase.cpp:337-367 | one removal is queued for every stored group, each predicted from the stored document, and no exception arises |
| Database.MongoDatabase.QueueRemoval | trusted/MongoDatabase.cpp:338-366 | one turn of that loop queues exactly what the sweep of the concurrent protocol queues for the stored document |
| Database.QueueDocument | trusted/MongoDatabase.cpp:338-366 | for any document the cursor yields: what the protocol's sweep queues, or the error it throws |
| Database.MongoDatabase.DeleteUser | trusted/MongoDatabase.cpp:129-144 | afterwards the user is in no group and is not registered; all others are as before |
| Sweep.FilterOne | trusted/MongoDatabase.cpp:364-370 | executing one queued removal filters its group and leaves the other queued selectors matching |
| Registry.FilterOutKeepsOthers | trusted/MongoDatabase.cpp:354-357 | filtering leaves no row of the user and every other row in its place between the rows before and after it |
| Registry.ApplyKeepsRegistered | trusted/MongoDatabase.cpp:163-166 | every member of every group stays a registered user with its registered key |
| Registry.FilterAllUnregisters | trusted/MongoDatabase.cpp:129-144 | after the sweep the user can be unregistered: no member depends on it |
| InetRfc3986.AlternativesAreTrees | trusted/inet_pton_ntop.c:67-148 | the syntax trees of the model are exactly the nine IPv6address alternatives of section 3.2.2 of RFC 3986 |
| InetParse6.Parse6IsTheGrammar | trusted/inet_pton_ntop.c:67-148 | the scanner accepts a text and yields sixteen bytes if and only if the grammar says the text denotes those bytes |
| InetParse6.Parse6Complete | trusted/inet_pton_ntop.c:67-148 | every text of a valid tree is accepted with its bytes: the groups before "::", zeros, the groups after it, a trailing dotted quad as two groups |
| InetParse6.Parse6Sound | trusted/inet_pton_ntop.c:67-148 | every accepted text is the text of a valid tree with those bytes |
| InetPton6.Pton6 | trusted/inet_pton_ntop.c:67-148 | over its buffers, inet_pton6 succeeds exactly on the IPv6address texts, stores the bytes they denote and leaves dst alone when it fails |
| InetPton6.Scan6InPlace | trusted/inet_pton_ntop.c:74-145 | the in-place scan computes the functional one |
| InetPton6.ScanGroups | trusted/inet_pton_ntop.c:90-127 | the loop keeps tp even and within the buffer, colonp not behind tp and val the value of the digits seen, and never changes what the rest of the text will yield |
| InetPton6.ScanChar | trusted/inet_pton_ntop.c:91-126 | one turn of the loop; at most four digits are seen, so the 0xffff test cannot fire |
| InetPton6.FinishInPlace | trusted/inet_pton_ntop.c:128-145 | the last group, the zeros and the length test |
| InetPton6.ExpandGap | trusted/inet_pton_ntop.c:139-141 | memmove and memset yield the bytes before "::", zeros, and the bytes after it, inside the buffer |
| InetGrammar.HexDigitValueIsPosition | trusted/inet_pton_ntop.c:17-25 | the value is d if and only if the character is the digit at position d, in either case |
| InetGrammar.HexDigitValue | trusted/inet_pton_ntop.c:17-25 | a value is returned, and not -1, exactly for the hexadecimal digits, and it is below 16 |
| InetGrammar.GroupsInNetworkOrder | trusted/inet_pton_ntop.c:114-115 | the first two digits of a four-digit group are its first byte, the last two its second |
| InetParse4.Parse4IsTheGrammar | trusted/inet_pton_ntop.c:27-61 | accepts exactly four dec-octets without leading zeros, with the bytes they denote |
| InetParse4.Parse4InvertsPrinting | trusted/inet_pton_ntop.c:27-61 | inet_pton4 and printing four bytes in decimal with dots between them are inverse bijections between accepted texts and four-byte arrays |
| InetParse4.DecOctetIsCanonical | trusted/inet_pton_ntop.c:36-43 | a dec-octet is the decimal text of its own value, and the decimal texts of bytes are the dec-octets |
| InetParse4.Pton4 | trusted/inet_pton_ntop.c:27-61 | over its buffers: stores the four bytes denoted, or leaves dst alone; the write index stays within 0..3 |
| InetPrint.SelectRun | trusted/inet_pton_ntop.c:245-268 | ends with the leftmost of the longest runs of at least two zero words, and with base -1 exactly when no two adjacent words are zero |
| InetPrint.HexIsCanonical | trusted/inet_pton_ntop.c:293 | the text of a word is the one h16 of its value in lower case without leading zeros, as sections 4.1 and 4.3 of RFC 5952 ask, and no other text is |
| InetPrint.ShortensOnce | trusted/inet_pton_ntop.c:245-268 | the rule of sections 4.2.2 and 4.2.3 of RFC 5952 picks one run |
| InetPrint.TreeWithDenotes | trusted/inet_pton_ntop.c:270-299 | what is printed, in each of the three forms, is a text of the grammar that denotes the address |
| InetPrint.ParsePrinted | trusted/inet_pton_ntop.c:222-308 | round trip: for every sixteen bytes, inet_pton6 reads the text of inet_ntop6 back to them |
| InetPrint.PrintedIsInjective | trusted/inet_pton_ntop.c:222-308 | distinct addresses have distinct texts |
| InetPrint.NormalForm | trusted/inet_pton_ntop.c:222-308 | printing what was read is an idempotent normal form |
| InetFormat.Ntop6 | trusted/inet_pton_ntop.c:222-308 | yields that text, and NULL exactly when its length plus one exceeds size |
| InetCanonical.DottedExactly | trusted/inet_pton_ntop.c:286-287 | the text has a dotted quad if and only if ten zero bytes are followed by ff ff, or by two more zero bytes and a seventh word that is not zero |
| InetCanonical.DottedText | trusted/inet_pton_ntop.c:276-292 | these addresses are written "::ffff:" or "::" and the last four bytes as a dotted quad |
| InetCanonical.HexText | trusted/inet_pton_ntop.c:274-298 | all others are eight hexadecimal words joined by colons, in which "::" stands for the run that sections 4.2.2 and 4.2.3 of RFC 5952 single out, if there is one |
| InetFormat.FormatWords | trusted/inet_pton_ntop.c:273-298 | the formatting loop writes that text, with every write inside the 46-byte buffer and without a failing inet_ntop4 |
| InetFormat.AddressTextLength | trusted/inet_pton_ntop.c:232 | no text has more than 39 characters |
| InetFormat.Ntop4 | trusted/inet_pton_ntop.c:204-214 | writes the four decimal texts joined by dots, or nothing when they need size characters or more |
| Scanf.Vsscanf | trusted/my_wrappers.c:411-456 | the interpreter stores exactly what the specification of the format reads, counts it, and leaves the int range exactly when that does |
| Scanf.ReadDigits | trusted/my_wrappers.c:426-431 | the negative accumulation yields minus the decimal value of the longest run of digits; it leaves the int range only if that value exceeds 2^31 |
| Scanf.ReadInt | trusted/my_wrappers.c:419-434 | the number read is the sign and the longest run of digits, if int holds their value |
| Scanf.IntFieldExact | trusted/my_wrappers.c:419-434 | "%d" on an optional sign and any digits, leading zeros included: their value if it lies within -2^31 .. 2^31 - 1, and an overflow otherwise |
| Scanf.LettersAndDigits | trusted/my_wrappers.c:424-441 | "%c" takes the ASCII letters and "%d" the ASCII digits |
| Scanf.ScanStops | trusted/my_wrappers.c:424-453 | scanning stops at the first mismatch of a directive or of a literal, with what was stored before it |
| Scanf.ScanOverflows | trusted/my_wrappers.c:428-434 | a number that int cannot hold is an overflow, whatever precedes it |
| Scanf.ScanInvertsPrinting | trusted/my_wrappers.c:411-456 | for any list of ints, letters and literals in which no digit follows a number and no literal "%" is followed by d or c, the printed text is scanned back to the values, without overflow |
| Scanf.ScanJoined | trusted/my_wrappers.c:411-456 | any list of 32-bit ints printed with a separator free of "%" that starts with a non-digit is read back whole |
| Scanf.ScanPrinted | trusted/my_wrappers.c:411-456 | scanning printed items in front of any text stores their values and goes on with that text |
| PowerOfTwo.NextPowerOfTwo | trusted/include/libbson-1.0/bson-types.h:539-554 | for 1 <= v <= 2^63 the least power of two that is not below v; 0 for every other v |
| PowerOfTwo.Smear | trusted/include/libbson-1.0/bson-types.h:542-549 | the or-shifts yield a block of ones that no power of two above the argument lies below |
| PowerOfTwo.OneBitIsPower | trusted/include/libbson-1.0/bson-types.h:557-561 | the same test on 64 bits accepts only 2^k with k below 64 |
| PowerOfTwo.PowerIsOneBit | trusted/include/libbson-1.0/bson-types.h:557-561 | the same test on 64 bits accepts every 2^k with k below 64 |
| PowerOfTwo.IsPowerOfTwoExactly | trusted/include/libbson-1.0/bson-types.h:557-561 | bson_is_power_of_two accepts the 32 powers of two and nothing else |
| PowerOfTwo.NextIsAccepted | trusted/include/libbson-1.0/bson-types.h:557-561 | up to 2^31, bson_is_power_of_two accepts the result |

## Left out

- The OCALL wrappers of `my_wrappers.c` and `ssl_wrappers.c`, everything under `untrusted/`, the `.edl`
  files, the pthread, ctype and uname stubs, and connection set-up: forwarding without logic.
- libmongoc and libbson internals: BSON bytes, the server's `_id` field, cursors, network failures and
  replica lag. A server call succeeds as one atomic step or reports the duplicate key.
- The unique indexes of `init_indexes` are assumed: a collection is a map from the stored name.
- `delete_all_data`, which empties both collections.
- The strength of HMAC and AES-GCM, the built-in keys, and an attacker who writes to the database.
- Documents.ComputeGroupSignature: a group document whose "name", "encname" or "users" field has another BSON
  type. No client writes one; the model feeds nothing for such a field, and what the driver's
  `bson_iter_binary` delivers there is not part of this model.
- Hashed names: the source concatenates a user name and its salt without a separator, so the salted hash of
  one user may equal the plain hash of another whose name is that user name followed by the group name.
  `World.Ideal` separates different byte strings only and allows this. It is harmless, because the two kinds
  of hash are never compared.
- RetryLoop.Retry: the retry loops of `add_user_to_group` and `remove_user_from_group` differ only in the
  selector, the update and the message, and are one loop with the request as parameter. The store at each of
  its server calls is the parameter `env`.
- Database.MongoDatabase.RemoveUserFromAllGroups: the guarantee is for a client that is not disturbed. The
  bulk update has no retry and skips groups that changed in between. For the concurrent runs the claims are
  signature safety, the refinement, for each update the exact condition of `Refinement.BulkMissesChangedGroups`
  and `Calls.SweepExecutes`, and for a whole sweep `Calls.UndisturbedSweep`. For an empty collection the driver's answer is `emptyBulk`.
- Database.MongoDatabase.DeleteUser: likewise for a client that is not disturbed, since it starts with that sweep.
- Database.MongoDatabase.GetKeysOfGroup: that members are registered users is claimed for undisturbed runs
  only, because `add_user_to_group` reads the key before it updates the group.
- Primitives.HmacContext.Update: the context is the bytes fed so far, not the hash state.
- InetFormat.Ntop4: models the characters copied; line 213 copies no terminating NUL.
- InetFormat.FormatWords: advances by the length of the dotted quad where line 290 takes `strlen` of characters
  that have no NUL of their own.
- InetFormat.Ntop6: models the text it is meant to return. The `strlen` of line 290 over a text without its
  NUL, and the copy of 46 bytes at line 307 whatever `size` is, are not modelled.
- The dispatchers `inet_pton` and `inet_ntop`, which choose by address family.
- Scanf.Vsscanf: an int overflow, which C leaves undefined, ends the model's scan with a flag; characters
  outside 0..127, for which the ctype tests are undefined, count as no digit and no letter.
- The `sscanf` wrapper, which returns no value.
- `bson_next_power_of_two` on 32-bit words.
