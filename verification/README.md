# NetForge verification model

This project models three parts of NetForge and proves what they are for.

**The SNMPv3 engine** (`ingest/asn1.py`, `ingest/aes.py`, `ingest/snmp_engine.py`): the BER codec, the AES-128
block cipher and its CFB mode, the message layer with its signature splice, the password fold, the transport under
a deadline, the engine with its clock, and the GETNEXT walk. The layers are proved one on the other, up to
`Discovery.NewEngineWalk`: a new engine that walks a subtree of any honest device returns exactly the instances
below the base, or raises when there are too many.

**The monitoring lifecycle** (`controller/monitoring.py`, `controller/store.py`, `controller/service.py`): alerts and
incidents in tables whose queries read index columns while the truth is in a payload, and periodic schedules whose
diagnoses feed them. The theorems are about every sequence of diagnoses, acknowledgements and resolutions, and every
series of passes.

**Topology and localization** (`controller/topology.py`, `controller/correlation.py`,
`analysis/multivantage.py`): finding the switch port of each host, augmenting a graph with host-to-switch edges, and
localizing a fault from several vantage points.

Code that changes state is a class or a method with loops, proved against a function on values; the theorems are
lemmas about those functions. Hash, HMAC, salts, clock readings and arriving datagrams are parameters. Source
exceptions are `Err` values.

| files | contents |
|---|---|
| `Results`, `Bytes`, `TextOrder` | results, big-endian integers and exclusive or, strings in code point order |
| `Dotted`, `Asn1`, `Asn1Theorems` | dotted object identifiers, the BER codec, its round trips |
| `SboxTable`, `Aes`, `AesTheorems`, `Cfb` | the cipher in place against FIPS-197, injectivity, the CFB mode |
| `BitVectors`, `GaloisField`, `SboxLaw`, `AesKnownAnswer` | arithmetic in GF(2^8), the constants of the cipher from it, the example of FIPS-197 worked out |
| `Message`, `Signature`, `MessageTheorems`, `MessageSizes` | messages, the splice, the round trip, datagram sizes |
| `WireFormat` | what messages are octet by octet, and under which vector they are encrypted |
| `Authentication` | when the digest of a message is checked and what it decides |
| `Password`, `Transport`, `Engine`, `Requests` | keys, reply matching, the engine, what it sends and learns |
| `ClockTheorems`, `FreshReplies` | over runs: which replies are accepted, what they do to the clock, none twice |
| `Mib`, `Agent`, `Discovery`, `WalkBounds` | the walk over a table, an honest device, the walk from end to end, its cost on any network |
| `Values` | what the values of a table are to the caller, type by type, up to the walk |
| `Monitoring`, `Tables`, `Lifecycle`, `Service` | rules, tables and queries, steps and their invariant, the store and service classes |
| `LifecycleTheorems`, `DiagnosisEffects` | runs, what a diagnosis does and leaves alone |
| `RowEffects`, `Provenance` | every operation field by field, the diagnoses alerts and incidents come from |
| `HealthyReports`, `LifecycleWitnesses` | what a healthy report clears, exactly; runs in which it clears less or more than its service |
| `Scheduling`, `Monitor` | the schedules and series of passes; one pass with its diagnoses |
| `Topology`, `Augmentation` | valid graphs, their augmentation with bindings |
| `Correlation`, `CorrelatedEvidence` | the bindings, and which telemetry each of them shows |
| `Localization`, `LocalizationTheorems`, `VerdictTheorems` | the decision, its independence of order, when each verdict is given and how sure it is |

Where the code does less than its documentation says, the model follows the code and the lemmas say exactly when
the documented property holds:

- `IntBodyShortest`: an integer is encoded in its shortest form exactly when it is not -2^(8k-1)
  (`ingest/asn1.py:63`); `Minus128IsNotShortest` shows one that is not.
- `OidRoundTrip`: an arc list comes back exactly when its first arc is 2, or 0 or 1 with a second arc below 40;
  nothing in `enc_oid` checks that.
- `WalkCompleteIff`: a walk is complete exactly when no text below the base equals one of the three exception texts
  (`ingest/asn1.py:172-177`) and there are fewer instances than the limit; `SentinelHidesInstance` shows one lost.
- `ClearsExactlyIf`: a healthy report clears all the alerts of its service exactly when at most 100 fire
  (`controller/store.py:352`); `ClearingFallsShort` is a run in which one of 101 stays.
- `ClosesExactlyIf`: it is certain to close an active incident exactly when at most 100 incidents, that one included,
  were opened no earlier (`controller/store.py:421-423`); `EqualTimesLeaveOneActive` is a run, all at one clock
  reading, after which it may leave an incident active whose alerts it has cleared. `HealthyClears` is both over runs.
- `NullServiceClearsEveryService`: a healthy report without a service works on all services
  (`controller/store.py:356`, `controller/store.py:412`); `OthersAreUntouched` says exactly when a diagnosis changes
  rows of another service, `NullServiceReachesOthers` gives runs that do.
- `HealthyExactlyIf`: observations that are all unknown localize as healthy (`analysis/multivantage.py:249`).
- `IsolatedAmongSeveral`: the sentence for an isolated vantage says that only it fails
  (`analysis/multivantage.py:142-146`), but several may; the lemma says exactly when, and `IsolatedWithTwoFailures`
  is such a list.
- `AuthenticatedExactlyIfFlagged`: an engine that uses authentication checks the digest of a reply only if the reply's
  own flags ask for it (`ingest/snmp_engine.py:233`), and nothing compares those flags with the security level. So an
  accepted reply is authenticated exactly when it is flagged; `AcceptedExactlyIf` says which replies are accepted, and
  `UnflaggedReplyIsAccepted` and `UnflaggedReplyMovesClock` give replies under no key that are, and that move the
  clock. RFC 3414 section 3.2 step 7 lets only authenticated messages move it; `ClockMovesOverRuns` says what holds
  instead over every run. Likewise a reply may leave its engine ID empty (`ingest/snmp_engine.py:443`).

## Model

| member | source | states |
|---|---|---|
| Asn1.Decode | ingest/asn1.py:112-129 | a decoded TLV consumes at least two octets more than its value and never reads past the buffer |
| Asn1.DecodeAll | ingest/asn1.py:132-138 | the loop that collects children, with its errors, equals the specification `Children` |
| Asn1.Base128Loop | ingest/asn1.py:79-89 | the shift-and-mark loop yields the base-128 groups, most significant first |
| Asn1.EncodeOid | ingest/asn1.py:92-99 | the loop over the arcs yields `EncOid`, with the same errors |
| Asn1.ParseGroups | ingest/asn1.py:154-161 | the accumulator loop yields exactly the base-128 groups of the value |
| Asn1Theorems.DecodeBounds | ingest/asn1.py:112-129 | the value is the slice of the buffer that ends at the returned offset |
| Asn1Theorems.DecodeWindow | ingest/asn1.py:112-129 | decoding inside a window of a buffer is decoding the buffer at the shifted offset |
| Asn1Theorems.LengthForm | ingest/asn1.py:44-48 | X.690 section 8.1.3: short form below 128, else a count octet and the big-endian length |
| Asn1Theorems.DecodeTlv | ingest/asn1.py:112-129 | a TLV decodes to its tag and value and the exact end offset, anywhere inside any bytes |
| Asn1Theorems.LongerIsRefused | ingest/asn1.py:122-123 | a length of 128 octets wraps to the indefinite form and is refused, so the bound of `DecodeTlv` is the real one |
| Asn1Theorems.ChildrenOfTlvs | ingest/asn1.py:132-138 | the children of a concatenation of TLVs are those TLVs, in order |
| Asn1Theorems.ChildrenPartition | ingest/asn1.py:132-138 | for any accepted buffer the children's spans follow one another, cover it exactly and take two octets or more each |
| Asn1Theorems.TreeRoundTrip | ingest/asn1.py:112-138 | for every TLV tree, decoding its encoding inside any bytes gives back the tree level by level and the end offset |
| Asn1Theorems.IntRoundTrip | ingest/asn1.py:55-64 | parsing the body of any integer gives the integer |
| Asn1Theorems.ParseIntInjective | ingest/asn1.py:141-147 | two bodies of one length that parse alike are equal |
| Asn1Theorems.IntBodyAgainst | ingest/asn1.py:55-64 | no other body of the integer is shorter, but for one octet at -2^(8k-1) |
| Asn1Theorems.MostNegativeIsPadded | ingest/asn1.py:63-64 | -2^(8k-1) takes k + 1 octets although k octets parse to it |
| Asn1Theorems.IntBodyShortest | ingest/asn1.py:55-64 | the body is the shortest exactly when the integer is no -2^(8k-1) |
| Asn1Theorems.Minus128IsNotShortest | ingest/asn1.py:63 | -128 is written FF 80 although 80 parses to it |
| Asn1Theorems.Base128Delimits | ingest/asn1.py:79-89 | base-128 groups end themselves: prepending one to any bytes prepends its number to the parse |
| Asn1Theorems.OidRoundTrip | ingest/asn1.py:154-167 | X.690 section 8.19: the arcs come back exactly when the first is 2, or 0 or 1 with the second below 40 |
| Asn1Theorems.OidTextRoundTrip | ingest/asn1.py:92-167 | the same through the dotted text on both sides |
| Dotted.ParseRender | ingest/asn1.py:93 | reading a rendered identifier gives its arcs |
| Dotted.RenderInjective | ingest/asn1.py:167 | different arc lists render differently |
| Dotted.PrefixIsSubtree | ingest/snmp_engine.py:482-491 | the textual prefix test with its dot is the subtree relation on arcs, and the text cut off is the rest of the arcs |
| Dotted.StripRender | ingest/snmp_engine.py:482 | stripping dots changes no rendered identifier |
| SboxTable.SboxInvertible | ingest/aes.py:15-34 | the S-box table has an inverse table |
| Aes.ExpandKey | ingest/aes.py:46-65 | the word list grouped by four is the key schedule of FIPS-197 section 5.2, whose values `AesKnownAnswer.RoundKeyIs` works out |
| Aes.ToState | ingest/aes.py:68-70 | the matrix holds the block column by column |
| Aes.FromState | ingest/aes.py:73-78 | the bytes are the matrix column by column |
| Aes.AddRoundKeyInPlace | ingest/aes.py:88-91 | the loops over the matrix are AddRoundKey |
| Aes.SubBytesInPlace | ingest/aes.py:96-98 | the loops over the matrix are SubBytes |
| Aes.ShiftRowsInPlace | ingest/aes.py:100-101 | the row rotations are ShiftRows |
| Aes.MixColumnsInPlace | ingest/aes.py:104-109 | the four updates of every column are the matrix product over GF(256) of FIPS-197 section 5.1.3 |
| Aes.Aes128EncryptBlock | ingest/aes.py:81-111 | for every key and block, with the length errors, the in-place rounds are the cipher of FIPS-197 section 5.1, whose values `AesKnownAnswer.KnownAnswer` works out |
| SboxLaw.RoundConstants | ingest/aes.py:36 | FIPS-197 section 5.2: the ten round constants are the powers of {02} in GF(2^8) |
| SboxLaw.SboxIsAffineOfInverse | ingest/aes.py:15-34 | FIPS-197 section 5.1.1: every byte but 0 has one inverse in GF(2^8), the table holds the affine map of it, and 0x63 for 0 |
| GaloisField.GfMulAssociative | ingest/aes.py:39-43 | multiplication in GF(2^8), made of the source's doubling, is associative |
| AesKnownAnswer.RoundKeyIs | ingest/aes.py:46-65 | the eleven round keys of the key 000102..0f are those of FIPS-197 appendix C.1 |
| AesKnownAnswer.RoundsAre | ingest/aes.py:94-110 | with that key and the block 00112233..ff, the state after each of the ten rounds |
| AesKnownAnswer.KnownAnswer | tests/test_snmp_engine.py:172-175 | the ciphertext is 69c4e0d86a7b0430d8cdb78070b4c55a |
| AesTheorems.XtimeLinear | ingest/aes.py:39-43 | multiplication by x is linear over exclusive or |
| AesTheorems.KernelIsZero | ingest/aes.py:104-109 | only the zero column is mixed to zero |
| AesTheorems.MixColumnInjective | ingest/aes.py:104-109 | different columns are mixed to different columns |
| AesTheorems.SubBytesInjective | ingest/aes.py:96-98 | different states are substituted differently |
| AesTheorems.ShiftRowsInjective | ingest/aes.py:100-101 | different states are shifted differently |
| AesTheorems.CipherInjective | ingest/aes.py:81-111 | under every key different blocks have different ciphertexts |
| Cfb.Aes128CfbEncrypt | ingest/aes.py:114-129 | the loop with its feedback is CFB encryption, with the errors of key and vector lengths |
| Cfb.Aes128CfbDecrypt | ingest/aes.py:132-147 | the loop with its feedback is CFB decryption, with the same errors |
| Cfb.LengthPreserved | ingest/aes.py:114-147 | both directions keep the length, for any block function |
| Cfb.DecryptEncrypt | ingest/aes.py:114-147 | decryption undoes encryption for every length, block function and vector |
| Cfb.EncryptDecrypt | ingest/aes.py:114-147 | encryption undoes decryption, so both are bijections |
| Cfb.EncryptPrefix | ingest/aes.py:114-129 | encrypting a prefix gives the prefix of the ciphertext |
| Cfb.DecryptAt | ingest/aes.py:132-147 | octet i of block b of the plaintext depends on that octet and the ciphertext block before it |
| Cfb.ErrorStaysLocal | ingest/aes.py:132-147 | changing ciphertext block k changes plaintext blocks k and k + 1 only, block k by the same difference |
| Cfb.AesCfbRoundTrip | ingest/aes.py:114-147 | whatever AES-CFB encrypts it decrypts |
| Password.PasswordToKey | ingest/snmp_engine.py:84-102 | RFC 3414 appendix A.2: the chunk loops feed the hash the 1048576 octets whose i-th is `pw[i mod len]`, then the digest around the engine ID; an empty password is refused |
| Password.LocalizedKeyIs | ingest/snmp_engine.py:84-102 | from any 1048576 octets that repeat the password the key is hash(hash(octets) + engine ID + hash(octets)) |
| Password.RepeatedGrows | ingest/snmp_engine.py:93-98 | one chunk at any index continues the repetition, across its wrap |
| Signature.OffsetPointsAtField | ingest/snmp_engine.py:105-130 | in every message whose envelope parses, the offset is where the authentication field stands |
| Signature.SpliceKeepsParse | ingest/snmp_engine.py:105-130 | replacing the field by as many octets changes the parse in that field only, and not its offset |
| Signature.AcceptsIffResigned | ingest/snmp_engine.py:233-240 | verification accepts exactly when the field has 12 octets and zeroing and signing again reproduces the message byte for byte |
| MessageTheorems.PduRoundTrip | ingest/snmp_engine.py:254-267 | every scoped PDU with encodable identifiers is read back field by field |
| MessageTheorems.FrameRoundTrip | ingest/snmp_engine.py:164-180 | the envelope is read back field by field, whatever the message data |
| MessageTheorems.SignedMessage | ingest/snmp_engine.py:181-187 | signing a message with a zeroed field keeps its parse and length, and the result verifies |
| MessageTheorems.MessageRoundTrip | ingest/snmp_engine.py:137-274 | for every combination of flags with its keys, every salt and content, decoding with verification accepts the encoding and recovers all fields and varbinds |
| MessageTheorems.NotSendable | ingest/snmp_engine.py:153-183 | without a key its flags need, or with a clock value that does not fit four octets under privacy, encoding fails |
| WireFormat.FrameIs | ingest/snmp_engine.py:164-180 | RFC 3412 section 6 and RFC 3414 section 2.4: every message is laid out with these tags, numbers and this order of fields |
| WireFormat.OnTheWire | ingest/snmp_engine.py:137-187 | with privFlag the privacy parameters are the salt and the data an octet string that AES turns back into the scoped PDU under a vector of four octets boots, four octets time and the salt; with authFlag the field holds the first 12 octets of the HMAC of the message with it zeroed; else both go as they are |
| WireFormat.FromTheWire | ingest/snmp_engine.py:242-253 | what is read from an encrypted message is decrypted under the boots, time and privacy parameters that it carries itself |
| WireFormat.RequestPduOctets | ingest/asn1.py:106-109 | a request PDU octet by octet for every identifier |
| WireFormat.Base128Octets | ingest/asn1.py:79-89 | seven bits an octet, most significant first, the top bit set in all but the last |
| WireFormat.DiscoveryOctets | ingest/snmp_engine.py:401-412 | the 72 octets of the discovery request, for IDs below 128 |
| MessageSizes.SmallRoundTrip | ingest/snmp_engine.py:137-274 | with fields of at most 10000 octets the message also fits one datagram |
| Transport.Host.SendRecv | ingest/snmp_engine.py:350-386 | the retry loop equals the specification of sends, waiting and reply, and fails with the SNMP error |
| Transport.Host.Await | ingest/snmp_engine.py:365-377 | the receive loop with its shrinking timeout equals the specification of one attempt |
| Transport.ListenMeaning | ingest/snmp_engine.py:366-377 | an attempt returns, at the time it arrives, the first datagram in time whose header carries the expected ID, whatever else arrives, or nothing if there is none |
| Transport.TransactBounds | ingest/snmp_engine.py:360-386 | at most `retries` + 1 sends and at most that many timeouts of waiting, for every trace |
| Transport.TransactMeaning | ingest/snmp_engine.py:360-386 | the reply is that of the first attempt that has one, and there is none only if no attempt has |
| Transport.TransactFrom | ingest/snmp_engine.py:360-386 | when the first attempts find nothing, the rest is the transaction from where they end, within their timeouts |
| FreshReplies.IdsDiffer | ingest/snmp_engine.py:337-340 | two requests fewer than 2^31 apart have different message and request IDs, in 31 bits |
| FreshReplies.NoReplyTwice | ingest/snmp_engine.py:425-452 | in a run of at most 2^31 exchanges, on any network, no two accepted responses answer one request and no datagram is accepted twice |
| Engine.SnmpV3Engine.LocalizeKeys | ingest/snmp_engine.py:388-392 | the keys are localized with the engine ID, the privacy key cut to 16 octets |
| Requests.CurrentTimeIs | ingest/snmp_engine.py:394-398 | the estimate is the stored time and the whole seconds since, at most 2147483647 |
| Requests.DiscoveryLearns | ingest/snmp_engine.py:413-423 | after a report the engine holds its engine ID, clock and time of arrival, a context, and the keys for its engine ID |
| Requests.RequestIsTimely | ingest/snmp_engine.py:425-436 | a device in step reads its own engine ID and boots in every request, and a time at most 150 seconds behind its own |
| Requests.WindowIs | ingest/snmp_engine.py:467-474 | a reply is in the window without authentication, from later boots, or at most 150 seconds off |
| Requests.AcceptIs | ingest/snmp_engine.py:441-452 | a parsed reply is accepted exactly when ID, engine ID, window and error status are right, and exactly a later clock is adopted |
| Engine.SnmpV3Engine.DiscoverEngine | ingest/snmp_engine.py:401-423 | the new state, world and result are those of `Discover` |
| Engine.SnmpV3Engine.AcceptParsed | ingest/snmp_engine.py:441-452 | the checks and the clock update are those of `Accept` |
| Engine.SnmpV3Engine.DoExchange | ingest/snmp_engine.py:425-452 | the new state, world and result are those of `Exchange` |
| Engine.SnmpV3Engine.DoGetNext | ingest/snmp_engine.py:461-465 | the first varbind or the error for an empty reply |
| Engine.SnmpV3Engine.Walk | ingest/snmp_engine.py:476-493 | the new state, world and result are those of `WalkTurn`, whose values `Values.NewEngineReadsValues` gives type by type |
| Authentication.ReadExactlyIf | ingest/snmp_engine.py:233-240 | with verification a message is read exactly when it is read without and, if its own flags ask for it, its digest is right; what is read is the same |
| Authentication.UnflaggedIgnoresKey | ingest/snmp_engine.py:233 | a message whose flags do not ask for it is read alike under every authentication key, under none and without verification |
| ClockTheorems.AcceptInOrder | ingest/snmp_engine.py:441-452 | whatever a reply holds, boots-time pair never goes back and engine ID and keys stay; only one for the outstanding request, with the stored engine ID or an empty one, from newer boots or within 150 s of the estimate, is accepted or moves the clock |
| ClockTheorems.AcceptedExactlyIf | ingest/snmp_engine.py:436-452 | under authentication a reply is accepted, and may move the clock, exactly when it reads without its digest, passes the other checks and, if flagged, has the right digest |
| ClockTheorems.AuthenticatedExactlyIfFlagged | ingest/snmp_engine.py:233 | an accepted reply is authenticated exactly when its own flags say so, whatever the security level |
| ClockTheorems.UnflaggedReplyIsAccepted | ingest/snmp_engine.py:233-452 | every unflagged response to the outstanding request, signed by no key and in the window, is accepted at every security level, and with later boots adopted |
| ClockTheorems.UnflaggedReplyMovesClock | ingest/snmp_engine.py:441-449 | for every engine with boots below 2^32 - 1 there is such a reply that moves its clock |
| ClockTheorems.EstimateMovesLittle | ingest/snmp_engine.py:445-449 | an update within the same boots moves the estimate by at most 150 s |
| ClockTheorems.ExchangeLegitimate | ingest/snmp_engine.py:425-452 | a whole exchange under any network: without a reply only the ids change, and an accepted response is in order and digest-checked exactly when flagged |
| ClockTheorems.ClockOverRuns | ingest/snmp_engine.py:394-474 | over every sequence of exchanges after discovery the stored clock never goes back, engine ID and keys stay, and each accepted response is in order and digest-checked exactly when flagged |
| ClockTheorems.ClockMovesOverRuns | ingest/snmp_engine.py:441-449 | over every such run only handled replies move the clock, each in order and with the right digest if flagged |
| Mib.SubtreeContiguous | ingest/snmp_engine.py:488 | what lies between a base and an instance below it lies below it, too |
| Mib.LessTransitive | tests/test_snmp_engine.py:67-70 | the numeric-lexicographic order of identifiers is transitive |
| Mib.LessMeans | tests/test_snmp_engine.py:67-70 | an identifier comes first if it begins the other or has the smaller arc where they first differ |
| Mib.SuccessorOfEntry | tests/test_snmp_engine.py:67-70 | the answer to GETNEXT at an instance is the instance after it |
| Mib.WalkComplete | ingest/snmp_engine.py:476-493 | over any ascending table without exception texts the walk returns all instances below the base, or raises when there are `max_oids` or more |
| Mib.WalkCompleteIff | ingest/snmp_engine.py:476-493 | it returns exactly those if and only if there is no such text below the base and there are fewer than `max_oids` |
| Mib.SubtreeMeaning | ingest/snmp_engine.py:489-491 | the returned map holds every instance below the base under its suffix with its value, and nothing else; `Values.SubtreeShows` says what the values are |
| Mib.SentinelHidesInstance | ingest/asn1.py:172-177 | a text equal to an exception text ends the walk without its instance |
| Agent.HonestExists | tests/test_snmp_engine.py:80-135 | for every device there is a network on which it answers every request honestly |
| Agent.HonestThoughLossy | tests/test_snmp_engine.py:80-135 | a network that loses every other datagram and delivers a malformed one before each answer is honest, too |
| Agent.HonestWithinWindow | ingest/snmp_engine.py:467-474 | with a timeout of up to 148 s an honest answer is always inside the window, and adopting its clock keeps engine and device in step |
| Agent.GetNextAnswered | ingest/snmp_engine.py:461-465 | against an honest device at every security level GETNEXT returns the successor's varbind within the time of its attempts and stays in step, whatever is lost, malformed or foreign before the answer |
| Agent.WalkFollowsTable | ingest/snmp_engine.py:476-493 | the walk over the wire equals the walk over the device's table |
| Agent.WalkEndToEnd | ingest/snmp_engine.py:476-493 | an engine in step with a device returns exactly the instances below the base or raises |
| Agent.WalkEndToEndIff | ingest/snmp_engine.py:476-493 | over the wire, too, it returns exactly those if and only if there is no exception text below the base and there are fewer than `max_oids` |
| Discovery.DiscoverySucceeds | ingest/snmp_engine.py:401-423 | against an honest device discovery succeeds within the time of its attempts and leaves the engine in step |
| Discovery.DiscoveryOnce | ingest/snmp_engine.py:403-404 | discovering before a walk or as its first step is the same |
| Discovery.NewEngineWalk | ingest/snmp_engine.py:401-493 | a new engine sharing passwords with an honest device walks completely: discovery, keys, encryption, signature, transport and window composed |
| Discovery.NewEngineFollowsTable | ingest/snmp_engine.py:401-493 | the walk of a new engine is the walk over the device's table, exception texts or not |
| Discovery.NewEngineWalkIff | ingest/snmp_engine.py:401-493 | a new engine returns exactly the instances below the base if and only if no exception text is there and they are fewer than `max_oids` |
| Values.ValueRoundTrip | ingest/asn1.py:170-192 | every value of every type, exceptions and unknown tags included, is read as what it means |
| Values.UnsignedDecodes | ingest/asn1.py:178-179 | the four unsigned types are read from any big-endian octets |
| Values.NewEngineReadsValues | ingest/snmp_engine.py:401-493 | a new engine that walks a device whose table holds typed values gets each below the base as what it means, exactly when none reads as an exception name and they are fewer than `max_oids` |
| WalkBounds.WalkWithin | ingest/snmp_engine.py:476-493 | on any network a walk with its discovery sends at most (`max_oids` + 1) * (`retries` + 1) datagrams and waits for at most as many timeouts |
| WalkBounds.WalkEntriesWereSaid | ingest/snmp_engine.py:476-493 | on any network every entry a walk returns is the first varbind of an accepted response that is in order and digest-checked if flagged |
| WalkBounds.WalkStopsExactlyIf | ingest/snmp_engine.py:479-493 | one round, on any network: which answer ends the walk with the entries so far, which is skipped, which is kept |
| Monitoring.MaxSeverity | controller/monitoring.py:153-156 | the result is one of the list of the highest rank, INFO for the empty list |
| Monitoring.MatchingRules | controller/monitoring.py:136-150 | exactly the rules that match are kept, none for a healthy report |
| Monitoring.DefaultRuleFiresExactlyIf | controller/monitoring.py:121-129 | the default rule fires exactly on unhealthy localizations at or above half confidence, for its service or for all |
| Tables.Query | controller/store.py:364-368 | descending by key, no row twice, cut at the limit, and no row left out has a greater key than one listed |
| Tables.TopByIsAll | controller/store.py:366 | a listing misses no row exactly when the rows fit in the limit |
| Tables.TopByHasGreatest | controller/store.py:421 | a row whose key exceeds all others is never cut off |
| Tables.AlwaysListedExactlyIf | controller/store.py:364-368 | a row is in every answer the query may give exactly when at most `limit` rows, it included, have keys no less than its own |
| Lifecycle.RaiseKeeps | controller/service.py:394-402 | raising an alert keeps columns and payloads in agreement and one firing alert per rule and service, and changes one row |
| Lifecycle.AttachKeeps | controller/service.py:442-464 | attaching keeps one active incident per service, distinct existing alerts of its service, severity the greatest of theirs, and changes one row |
| Lifecycle.FireKeeps | controller/service.py:393-404 | one turn of the loop over rules keeps the whole invariant |
| Lifecycle.ResolveServiceKeeps | controller/service.py:466-480 | resolving any listed rows keeps the invariant |
| Lifecycle.AcknowledgeKeeps | controller/service.py:423-430 | acknowledging keeps the invariant |
| Lifecycle.ResolveKeeps | controller/service.py:432-440 | resolving by hand keeps the invariant |
| LifecycleTheorems.RunKeepsInvariant | controller/service.py:376-480 | after every run: at most one firing alert per rule and service, one active incident per service, `resolved_at` set exactly when resolved, every alert in some incident, members distinct, existing and of the same service, aggregate severity, columns as in the payload |
| LifecycleTheorems.RunIsTidy | controller/service.py:376-480 | with strictly increasing diagnosis times per service the active incident is the newest of its service and all its alerts fire |
| HealthyReports.ClearsExactlyIf | controller/service.py:467-471 | a healthy report leaves no firing alert exactly when at most 100 fired |
| HealthyReports.ClosesExactlyIf | controller/service.py:472-480 | in any state, it closes an active incident whatever the listing answers exactly when at most 100 incidents, it included, were opened no earlier |
| HealthyReports.HealthyClears | controller/service.py:466-480 | after every run: the first exactly so, an incident stays active only if more than 100 were opened no earlier, and none does if diagnoses of a service come at increasing times |
| HealthyReports.NullServiceClearsEveryService | controller/store.py:356-358 | without a service the alerts of all services are cleared exactly when together they fit one listing, and the active incidents closed, of whatever service, are those listed |
| HealthyReports.ActiveAlertsFire | controller/service.py:466-480 | over every run, whatever the times, all alerts of an active incident fire as long as no listing can cut one off |
| HealthyReports.TimelyIsCovered | controller/service.py:376-480 | which holds of every run whose diagnoses come at increasing times per service |
| RowEffects.HealthyEffect | controller/service.py:466-480 | after every run a healthy report clears exactly the alerts it lists and resolves exactly the unresolved incidents it lists, with state, times and column, and changes no other row |
| RowEffects.ListingsAre | controller/store.py:351-424 | those lists are as long as there are rows, or 100 |
| RowEffects.AcknowledgeEffect | controller/service.py:423-430 | after every run an incident is acknowledged by it exactly when it is known and not resolved, with its time, and nothing else changes |
| RowEffects.ResolveEffect | controller/service.py:432-440 | likewise resolved, with `resolved_at` |
| RowEffects.OnlyOneEach | controller/store.py:370-435 | after every run no two incidents of a service are unresolved and no two alerts of a rule and service fire |
| LifecycleWitnesses.FiresEach | controller/service.py:393-404 | from an empty store n matching rules with different ids leave n firing alerts |
| LifecycleWitnesses.ClearingFallsShort | controller/store.py:352 | a run of one diagnosis under more than 100 rules, after which a healthy report leaves an alert firing |
| LifecycleWitnesses.EqualTimesLeaveOneActive | controller/store.py:421-423 | a run at one clock reading after which a healthy report may clear an alert and leave its incident active |
| LifecycleWitnesses.OneRuleExists | controller/monitoring.py:121-129 | the diagnosis that run repeats exists for every unhealthy report of at least half confidence: one rule, the default one, matches it |
| LifecycleWitnesses.NullServiceReachesOthers | controller/service.py:466-480 | after one diagnosis of a service, every healthy report without a service changes rows of it |
| LifecycleTheorems.ResolvedIsFinal | controller/service.py:423-440 | over every run a cleared alert or resolved incident never changes again, and no row disappears |
| LifecycleTheorems.QueriesReadPayloads | controller/store.py:351-424 | although upserts refresh only some columns, the listings filter and sort as if on the payloads |
| LifecycleTheorems.FindsTheOnlyOne | controller/store.py:370-435 | the firing alert of a rule and service and the active incident of a service are found exactly if they exist, and are unique |
| DiagnosisEffects.RaiseDeduplicates | controller/service.py:394-402 | an alert that fires already is refreshed and keeps row, severity and time; a row is added exactly when none fires, as the rule and the report say |
| RowEffects.RaiseEffect | controller/service.py:394-402 | the firing alert of the rule and service, if any, takes the diagnosis, the time and a regression; else a new row with every field; no other row changes |
| RowEffects.AttachEffect | controller/service.py:442-464 | the active incident of the service, if any, takes the alert to its end unless it has it, the graver severity, the verdict and the time; else a new one with every field; no other row changes |
| DiagnosisEffects.UnhealthyIsRecorded | controller/service.py:393-404 | after an unhealthy diagnosis each matching rule has a firing alert that shows it, in the active incident, which shows the verdict |
| Provenance.EveryRuleFires | controller/service.py:393-404 | the same with the condition written out: every enabled rule whose service, confidence and kinds fit the diagnosis has a firing alert, in an unresolved incident of the service |
| Provenance.AlertsComeFromDiagnoses | controller/monitoring.py:136-200 | over every run each alert, whatever became of it, was raised by a diagnosis under such a rule and shows what both say |
| Provenance.IncidentsComeFromDiagnoses | controller/service.py:442-464 | over every run each incident was opened by a diagnosis that was not healthy, at its time and for its service and target |
| DiagnosisEffects.OthersAreUntouched | controller/service.py:376-405 | a diagnosis changes a row of another service exactly when it is healthy and its listings hold one, for which it must name no service |
| LifecycleTheorems.SaveAlertAgreesExactlyIf | controller/store.py:322-342 | an upsert refreshes only some columns; every listing goes on answering for the payloads exactly if a row keeps its service and creation time |
| LifecycleTheorems.SaveIncidentAgreesExactlyIf | controller/store.py:380-398 | the same for incidents |
| Service.ControllerStore.ListAlertRules | controller/store.py:311-314 | every rule once, ascending by its key |
| Service.ControllerStore.ListAlerts | controller/store.py:351-368 | an answer `ORDER BY created_at DESC LIMIT` may give, with the stored payloads |
| Service.ControllerStore.ListIncidents | controller/store.py:407-424 | the same for incidents |
| Service.ControllerStore.FindFiringAlert | controller/store.py:370-377 | the newest row the query returns is the only one there is |
| Service.ControllerStore.FindActiveIncident | controller/store.py:426-435 | the same for the active incident |
| Service.ControllerService.RaiseAlert | controller/service.py:394-402 | refreshing or building and saving an alert is `Raise` |
| Service.ControllerService.AttachToIncident | controller/service.py:442-464 | opening or joining and saving an incident is `Attach` |
| Service.ControllerService.ResolveServiceRows | controller/service.py:466-480 | the two loops over listed snapshots are `ResolveService` and return the incidents they close |
| Service.ControllerService.ProcessDiagnosis | controller/service.py:376-405 | the tables afterwards are one `Step` with legal listings, and the outcome lists the alerts and incidents in rule order, given the regression flag |
| Service.ControllerService.AcknowledgeIncident | controller/service.py:423-430 | an incident that is known and not resolved is stored and returned as acknowledged, now; the rest of the tables and an unknown incident |
| Service.ControllerService.ResolveIncident | controller/service.py:432-440 | the same for resolving, with `resolved_at` |
| Scheduling.ScheduleStore.ListSchedules | controller/store.py:267-278 | every schedule, or every one of a service, once, ordered by service |
| Monitor.MonitorService.TryDiagnosis | controller/service.py:352-366 | a report goes through the pipeline as one legal step, an exception changes nothing there and leaves its text |
| Monitor.MonitorService.RunDueSchedules | controller/service.py:339-374 | each due schedule is tried exactly once and advanced, whatever the others raise; alerts and incidents are those after the diagnoses that raised nothing, one legal step each, whose reports are returned in order |
| Monitor.RunGoesOn | controller/service.py:339-374 | such steps after any run make a run, so every theorem about runs holds after any passes |
| Scheduling.ExecutionsAreSpaced | controller/monitoring.py:166-175 | at non-decreasing times two executions are at least an interval apart |
| Scheduling.DueAgain | controller/monitoring.py:166-175 | since the last execution the record shows its time and error, and the next is due an interval after it |
| Scheduling.RunsAgainExactlyWhenDue | controller/monitoring.py:159-163 | after an execution the next is at the first pass an interval or more later |
| Scheduling.ExecutesExactlyIf | controller/monitoring.py:159-163 | over every series of passes one tries a schedule exactly when it is enabled and an interval has gone by since the last that did, or none did and its first due time, if any, has come |
| Scheduling.DisabledNeverRuns | controller/monitoring.py:159-163 | a disabled schedule is never tried and never changes |
| Scheduling.GapIsBounded | controller/service.py:346-350 | with passes at most d apart consecutive executions are less than interval + d apart |
| Scheduling.FailuresAreTrailing | controller/monitoring.py:174 | the counter is the length of the trailing run of failures |
| Topology.ValidateGraph | controller/topology.py:81-94 | the validator accepts exactly unique ids with every endpoint declared |
| Augmentation.AugmentTopologyWithBindings | controller/correlation.py:222-279 | the loops with their early failures equal the specification `Augment` |
| Augmentation.SucceedsExactlyIf | controller/correlation.py:222-279 | for a valid topology it succeeds, with a valid graph, exactly when every binding names a switch, differs in its ends and has a known host |
| Augmentation.AugmentYields | controller/correlation.py:232-272 | old nodes, then the missing switches; old edges with ends, kind, capacity and tag keys, then a LAN edge for each binding that had none; an edge for every binding |
| Augmentation.AddedOnce | controller/correlation.py:266-272 | with unique keys no two added edges join the same nodes |
| Augmentation.BoundEdgeShowsBinding | controller/correlation.py:245-263 | with unique keys every edge of a binding shows its port, method, confidence and index, and keeps its other tags |
| Augmentation.AugmentIsIdempotent | controller/correlation.py:222-279 | augmenting twice is augmenting once |
| Correlation.MatchNeighbor | controller/correlation.py:133-153 | the loop over the hosts leaves the evidence of `AddLldp`: an address match before a name match, the least common identity, a later match over an earlier |
| Correlation.MatchEntry | controller/correlation.py:156-173 | the loop over the hosts leaves the evidence of `AddMac`; a line without an address leaves none |
| Correlation.CollectEvidence | controller/correlation.py:126-173 | the nested loops over switches, neighbors and table lines collect the evidence of all, by host and switch |
| Correlation.SortBindings | controller/correlation.py:175-219 | one binding for each slot with its identity, method, confidence, quality and sentences, ascending by host and switch |
| Correlation.CorrelateHostPorts | controller/correlation.py:113-219 | the whole function: the bindings of the evidence collected for the hosts of the topology |
| Correlation.EvidenceIs | controller/correlation.py:129-173 | a pair has LLDP evidence exactly when a neighbor of the switch matched the host, MAC evidence exactly when a line of its table did |
| Correlation.CorrelationIs | controller/correlation.py:175-218 | keys are unique, a pair is bound exactly when either kind was seen, and corroborated, in method, quality and at 0.95, exactly when both were |
| CorrelatedEvidence.LatestWins | controller/correlation.py:126-173 | of each kind the evidence of a pair is that of the last match in the last capture of the switch that has one |
| CorrelatedEvidence.BindingShowsLatest | controller/correlation.py:175-218 | a binding shows identity, port and sentence of the last neighbor to match and index and sentence of the last table line; without a neighbor everything of the line |
| CorrelatedEvidence.MatchingMeans | controller/correlation.py:130-160 | a neighbor matches a host exactly if they share an address or a name, a table line exactly if its address is the host's |
| CorrelatedEvidence.EvidenceMeans | controller/correlation.py:133-146 | a shared address counts before a name, and the identity is the least of those shared |
| CorrelatedEvidence.ConfidenceMeans | controller/correlation.py:175-206 | 0.95 for both kinds, 0.90 for a shared address, 0.82 for a name, 0.75 for a table line, with the method |
| CorrelatedEvidence.HostsAre | controller/correlation.py:117-124 | hosts are exactly the nodes that are hosts, agents or services or name an agent |
| Correlation.CorrelatedAugments | controller/correlation.py:113-279 | what is correlated on a valid topology augments it to a valid one exactly when no switch was taken for its own neighbor |
| Localization.BuildTrail | analysis/multivantage.py:311-347 | the loop yields one numbered link per observation in order and the closing verdict |
| LocalizationTheorems.OrderDoesNotMatter | analysis/multivantage.py:155-234 | with distinct role and vantage keys reordering the observations changes nothing in the report |
| LocalizationTheorems.HealthyExactlyIf | analysis/multivantage.py:248-250 | healthy exactly when something was observed and nothing failed or was degraded |
| LocalizationTheorems.StatusIsWorst | analysis/multivantage.py:295-308 | failed exactly if something failed, degraded exactly if nothing failed and something was degraded, unknown exactly without observations |
| LocalizationTheorems.TargetSideExactlyIf | analysis/multivantage.py:265-283 | target side exactly when the first destination vantage failed or every vantage did |
| LocalizationTheorems.CountsAreRight | analysis/multivantage.py:201-230 | the counts of the report are those of the observations |
| LocalizationTheorems.SharedMeansSeveral | analysis/multivantage.py:262-292 | a shared path is blamed only with two failures or, without any, two degradations |
| VerdictTheorems.VerdictExactlyIf | analysis/multivantage.py:237-292 | each of the six verdicts exactly when it is given, in terms of the observations: who is first of a role, who failed or was degraded, and how many |
| VerdictTheorems.ConfidenceIs | analysis/multivantage.py:209-212 | the confidence case by case: its base, the observations it rests on, and the nearest hundredth of the reduced base within bounds |
| VerdictTheorems.ReportIsInOrder | analysis/multivantage.py:163-166 | the report shows all observations, destinations, sources, thirds and others in turn, each by vantage |
| VerdictTheorems.TrailShows | analysis/multivantage.py:310-347 | the trail has a numbered step for each with vantage, text, status and confidence, and closes with the verdict |
| VerdictTheorems.EmptyReport | analysis/multivantage.py:170-199 | without observations the whole report is the inconclusive one at 0.05 |
| LocalizationTheorems.IsolatedAmongSeveral | analysis/multivantage.py:268-279 | among several failures a vantage is called isolated exactly when the destination is healthy, the source does not fail and the third vantage does |
| LocalizationTheorems.IsolatedWithTwoFailures | analysis/multivantage.py:268-279 | a list with two failures whose verdict is an isolated vantage |
| LocalizationTheorems.ConfidenceInRange | analysis/multivantage.py:108-109 | the confidence is between 0.05 and 0.99, also without observations |
| LocalizationTheorems.ConfidenceNeverDrops | analysis/multivantage.py:209-212 | raising confidences never changes the localization and never lowers the confidence |

## Left out

- Hash functions, HMAC and their strength: parameters of the right length; every digest is cut to 12 octets, so nothing is said about RFC 7860.
- Decoding of octet strings as UTF-8 or hexadecimal: a text value keeps its octets, so equal values mean equal octets and the exception texts are compared octet by octet.
- Asn1.EncodeOid: numbers that `int()` accepts beyond digits (signs, spaces, underscores) are refused in dotted identifiers.
- Negative arcs in identifiers: arcs are natural numbers.
- `get`, the checks of protocol names in the constructor, and the socket's own exceptions beyond a failed attempt: short branches.
- Time spent computing between two clock readings in `_send_recv`: taken as zero, so the bound on waiting is about waiting.
- A negative timeout, which the socket refuses: timeouts are not negative.
- Signature.AcceptsIffResigned: is about messages whose envelope parses; the others are refused before verification.
- Agent.WalkEndToEnd: the device's identifiers, values and names have at most 10000 octets, because a longer reply can exceed the 65507 octets that are received of one datagram; the device's clock runs at the host's rate, and its answer arrives in time in the attempt it was made in, after any lost attempts and any foreign or malformed datagrams.
- Agent.HonestWithinWindow: the timeout is at most 148 s, since a longer one alone can leave the window of 150 s.
- The rest of the store (agents, jobs, services, diagnoses, bindings), transactions and concurrent threads: every public call is one step.
- Row identifiers from `uuid4`: a supply that never repeats.
- Service.ControllerService.ProcessDiagnosis: the comparison with the service's baseline is left out; its result, the regression flag, is a parameter.
- The column `diagnosis_id` of alerts, which an upsert leaves at its first value: it is in the model, but no query reads it.
- Monitor.MonitorService.RunDueSchedules: what diagnosing a schedule yields, a report or an exception, is a parameter, and the pipeline itself raises nothing, so errors of the database are not modelled.
- Float rounding: times, confidences and intervals are real numbers, and rounding to two places is to the nearest, ties to even.
- LifecycleTheorems.RunIsTidy: the diagnoses of one service come at strictly increasing times, which a clock that stands still or is set back does not give; `HealthyReports` and `Tables.AlwaysListedExactlyIf` say what holds of all times.
- Correlation.CorrelateHostPorts: the names and MAC addresses of nodes, neighbors and table lines are parameters, since their extraction is string normalization.
- The texts of tags for confidence and index: they are part of a binding.
- Edges in the reverse direction (switch to host): the code matches host to switch only.
- The wording of the verdict and the report's identifier, timestamp, agent errors and names: the verdict is a value with what the sentence is made from.
- Diagnostic rules, metrics, path tracing, LLDP and SNMP counter parsing, HTTP, the command line and the user interface.
