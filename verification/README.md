# Cloaked network: packet format, ratchet, sponges, delivery and PANDA

Dafny models of five parts of the repository, with proofs of what they promise.

**Sphinx packets** (`core/sphinx`). A sender builds a nested header from the last hop back to the first; each hop checks a MAC,
takes one layer off in place and passes on a packet of the same length. `SphinxCommands` and `SphinxSuite` hold the routing
commands, the primitives and the geometry; `SphinxOnion` is the header as a value (blocks, filler, MACs) and `PeelLayer` the
filler invariant; `SphinxHeader` and `SphinxPacket` are the loops that build it and the in-place unwrapping; `SphinxUnwrap` and
`SphinxRoute` carry a packet along a path; `SphinxNike`, `SphinxKem`, `SphinxOverflow`, `SphinxSurb` and `SphinxReply`
instantiate this for the two formats and for reply blocks; `SphinxRefusal` and `SphinxLayout` say on the octets of a packet
what a hop accepts, refuses and passes on. The primitives are function values with laws: NIKE secrets commute with blinding,
decapsulation inverts encapsulation, the wide-block cipher is invertible; `LawsAreConsistent` shows that the laws can be met.
Random choices (private keys, KEM coins, the filling of unused slots, reply keys) are parameters.

**Double ratchet** (`doubleratchet/ratchet.go`). Keys are free terms: HMAC and hash are injective, the two key agreements
commute, a box opens only under its key. `DoubleRatchet` is the object; `RatchetReplay` follows one ratchet against any
ciphertexts at all; `RatchetHistory`, `RatchetParty` and `RatchetRun` follow two ratchets that completed their exchange with
each other over a network that loses, delays, repeats and reorders; `RatchetKept` is about the keys of messages that were
skipped, `RatchetSpoiled` about the runs in which one delivery has cost a ratchet its root key. Iteration over the saved-key
map takes any entry first.

**Sponge code** (`sphincsplus/ref/fips202.c`, `sphincsplus/haraka-aesni/haraka.c`). `Sponge` is the construction of FIPS 202
(section 4, padding of section 5.1) over any permutation, and a machine that takes and gives single bytes. `Keccak` holds the
step mappings of section 3.2 on lanes and the unrolled permutation; `KeccakBits` holds them on single bits, as the standard has
them; `KeccakTables` ties the tables to the standard; `KeccakState`, `KeccakHash`, `Haraka` and `HarakaHash` are the C
routines, and `HarakaSteps` is Haraka-512 as its designers define it. The AES round instruction is a function value.

**Reliable delivery.** `EgressQueue` and `PriorityQueue` are the queues, `SessionSpec`, `Session` and `SessionRun` the session
with its SURB map and timer worker, `SessionDeadlines` and `SessionResend` its retransmissions, `SessionCollect` its collector;
`SpoolStore`, `SpoolServer` and `SpoolReader` the spool server, its database and the client that reads a spool. Handlers are
atomic steps, identifiers are fresh, time never goes back, bolt is an ordered map.

**PANDA** (`panda`). `PandaServer` is the meeting place and the polling client, `PandaKx` the key exchange object, `PandaRun`
two clients that crash and restart from their last published snapshot, a network that repeats and reorders, and the meeting
place; `PandaMeeting` is how every such run can still be brought to its end.

Results that differ from what one would first expect, each stated with its exact condition:

- A packet that could be created is delivered if and only if no hop's commands repeat a `surb_reply` (`NikeEndToEnd`), which
  creation accepts (`RepeatedIsAccepted`); for KEM packets also all commands must fit before the ciphertext slot
  (`KemEndToEnd`), which `createKEMHeader` does not check (`OverflowIsAccepted`).
- A reply to a SURB comes back as its payload if and only if, besides, the last hop has a `surb_reply` (`SurbRoundTrip`): without
  one the last hop takes the payload field for a forward payload.
- A failed `Decrypt` leaves the ratchet as it was if and only if it fails before the root key is overwritten and did not first
  use up a saved key on an empty plaintext (`FailureKeepsStateIff`). After a late failure no message of the new epoch is ever
  accepted (`SpoiledReceiver`), and ten messages with the last delivered first are enough for one (`SpoilingCanHappen`).
- Every skipped message key is kept until it is used (`KeptInEveryRun`), but the search of the saved keys gives up at the first
  entry whose header key fits. A skipped message is decrypted in whatever order they are searched if and only if one entry alone
  is saved under its header key (`AnyOrderIff`); four messages of which the second and the fourth come first make two
  (`UnluckySearchCanHappen`). A skipped message with an empty plaintext is lost (`MissedEmptyIsLost`).
- One-shot and incremental absorbing agree if and only if the domain byte is below 128 or does not fall on the last byte of a
  block (`OneShotIsIncremental`).
- `sha3_512_inc_finalize` writes 32 of the 64 bytes of a SHA3-512 digest; they are its first 32 (`StandardFunctionsAgree`).
- When the collector takes the SURB entry of a reliable message, the message is never sent again (`TakenIsLost`). It takes one
  before the message is due to be sent again only if the round trip estimate exceeds its slop of 60 seconds, and for every such
  estimate it can (`TakenEarlyIff`); once the message is overdue it can take one whatever the estimate, by getting to it before
  the timer does (`TakenOverdue`).
- The spool reader never forgets a request: the deferred deletion passes the address of the identifier as the key. Duplicates are
  caught by the read offset alone, and that is enough (`PassesInOrder`).
- A PANDA client that restarts from its first snapshot takes part with a private key of zeros (`FirstSnapshotForgets`).
- From every state of every run two PANDA clients can finish without a further crash if and only if they have not made the same
  message for a meeting place (`MeetingCompletesIff`); drawing the same private key and filler makes them do so
  (`ClashCanHappen`).

## Model

| member | source | states |
|---|---|---|
| `SphinxCommands.ParseAfterPrint` | core/sphinx/commands/commands.go:57-203 | Every routing command printed and followed by anything parses back to itself and leaves exactly what followed. |
| `SphinxCommands.PrintAfterParse` | core/sphinx/commands/commands.go:57-203 | Whatever parses was the printed form of the command it parses to, followed by the rest. |
| `SphinxCommands.NullIsZeros` | core/sphinx/commands/commands.go:57-81 | A null command is recognised exactly when all that is left is zero. |
| `SphinxCommands.ScanPrinted` | core/sphinx/sphinx.go:366-394 | Commands followed by zero padding are scanned back one by one, refusing what the hop refuses. |
| `SphinxCommands.ScanIsCanonical` | core/sphinx/sphinx.go:366-394 | A successful scan determines the bytes: they are the printed commands and zeros. |
| `SphinxCommands.AdmitIff` | core/sphinx/sphinx.go:378-393 | A hop accepts commands exactly when they hold at most one next hop and at most one SURB reply, and keeps them all in order. |
| `SphinxCommands.ParseCommands` | core/sphinx/sphinx.go:366-394 | The parsing loop of a hop computes the scan. |
| `SphinxLayout.CommandOctets` | core/sphinx/commands/commands.go:30-203 | The octets of every routing command: its number, then its fields in order. |
| `SphinxSuite.NikeGeometry` | core/sphinx/geo/geo.go:206-286 | The lengths derived for a NIKE satisfy the geometry invariant, with the routing information NrHops slots long. |
| `SphinxSuite.KemGeometry` | core/sphinx/geo/geo.go:206-322 | The same for a KEM, with room in every slot for a ciphertext. |
| `SphinxLayout.SlotsSuffice` | core/sphinx/geo/geo.go:206-322 | A slot is exactly as long as a SURB reply and a next hop, which are the longest commands expected of a hop; for a KEM also as a ciphertext. |
| `SphinxOnion.CommandsToBytes` | core/sphinx/sphinx.go:116-133 | Serialises a hop's commands, or refuses a caller's next hop or too long a result, exactly as specified. |
| `SphinxOnion.XorBytes` | core/sphinx/sphinx.go:432-441 | The bytewise exclusive-or of two equally long strings. |
| `SphinxOnion.PeelLayer` | core/sphinx/sphinx.go:187-249 | Filler invariant: decrypting and shifting the routing field of hop i (block i followed by padding i - 1) gives that of hop i + 1, the fragment coming out in front. |
| `SphinxHeader.KeyStreams` | core/sphinx/sphinx.go:187-207 | The padding loop computes every hop's padding and header key stream. |
| `SphinxHeader.MakeFragment` | core/sphinx/sphinx.go:223-235 | A routing fragment with its next-hop command and zero filling, or the reason why it cannot be made. |
| `SphinxHeader.BuildHeader` | core/sphinx/sphinx.go:209-271 | The loop from the last hop to the first builds the onion's header, also for paths shorter than the maximum. |
| `SphinxPacket.EncryptPayload` | core/sphinx/sphinx.go:295-301 | The payload under the keys of all hops, the last innermost. |
| `SphinxPacket.FinishPacket` | core/sphinx/sphinx.go:274-304 | Header and payload become the packet, errors are passed on. |
| `SphinxPacket.CtIsZero` | core/utils/ctIsZero.go:21-27 | True exactly for all-zero strings. |
| `SphinxPacket.UnwrapInPlace` | core/sphinx/sphinx.go:309-430 | Unwrapping in the caller's buffer computes the outcome that the SphinxRefusal lemmas describe on the octets, leaving the next hop's packet in the buffer exactly when the packet is to be forwarded. |
| `SphinxRefusal.RefusedUnread` | core/sphinx/sphinx.go:309-335 | A packet is refused unread exactly if it is short or of another version, and then exactly if its key material is unusable, for either format. |
| `SphinxRefusal.MacDecides` | core/sphinx/sphinx.go:341-349 | A packet with usable key material is refused for its MAC, its buffer untouched, exactly when the 32 octets after the routing information are not the MAC of all octets before them; any other outcome means that they are. |
| `SphinxRefusal.CommandsDecide` | core/sphinx/sphinx.go:351-394 | An authentic packet is refused for its commands exactly when its slot does not hold printed commands and zeros, with at most one next hop and one surb_reply. |
| `SphinxRefusal.PayloadDecides` | core/sphinx/sphinx.go:396-427 | An authentic packet without a next hop is delivered exactly when its payload, one layer less, is long enough for the tag and begins with zeros, which come off; a surb_reply spares it both checks after the first. |
| `SphinxRefusal.ForwardsRest` | core/sphinx/sphinx.go:396-417 | The octets of the packet that a hop passes on: version, key material for the next hop, rest of the routing field, MAC of the next hop, payload one layer less. |
| `SphinxRefusal.TamperedPayloadIff` | core/sphinx/sphinx.go:396-427 | Along every path without a final surb_reply the last hop delivers exactly the payload fields that the creator could have made, as the payloads they were made from. |
| `SphinxUnwrap.SplitJoin` | core/sphinx/sphinx.go:309-349 | A packet splits into its parts and nothing else. |
| `SphinxUnwrap.LengthPreserved` | core/sphinx/sphinx.go:398-419 | The packet passed on is as long as the packet received. |
| `SphinxRoute.HopUnwraps` | core/sphinx/sphinx.go:309-430 | Hop i of a matching onion accepts the MAC, sees the commands meant for it, and passes on the packet of hop i + 1. |
| `SphinxRoute.TraverseFrom` | core/sphinx/sphinx.go:309-430 | From any hop on, the outcomes along the path are the specified ones. |
| `SphinxRoute.TraverseAll` | core/sphinx/sphinx.go:309-430 | Along the whole path every hop but the last forwards, for any payload field. |
| `SphinxRoute.LayersComeOff` | core/sphinx/sphinx.go:295-301 | The hops' decryptions undo the sender's encryptions one by one. |
| `SphinxRoute.RepeatedIsRefused` | core/sphinx/sphinx.go:384-388 | A repeated SURB reply anywhere on the path ends the journey there. |
| `SphinxRoute.ForwardDelivery` | core/sphinx/sphinx.go:274-430 | Delivery along the path with exactly the commands and the payload, if and only if nothing is repeated. |
| `SphinxNike.KeyAgreement` | core/sphinx/sphinx.go:152-185 | The keys hop i derives from the element left by hops 0 to i - 1 are those the creator derived through the nested blinding loop. |
| `SphinxNike.DeriveKeys` | core/sphinx/sphinx.go:141-185 | The double loop computes every hop's keys and group element. |
| `SphinxNike.CreateHeader` | core/sphinx/sphinx.go:135-272 | The header of the onion for the path, or the error the path deserves. |
| `SphinxNike.NewNikePacket` | core/sphinx/sphinx.go:274-304 | The packet of the onion for the path and payload, or the error. |
| `SphinxNike.NikeEndToEnd` | core/sphinx/sphinx.go:135-430 | For every geometry, path of 1 to NrHops hops and payload, a packet is delivered, each hop seeing exactly its commands, if and only if no hop's commands repeat a SURB reply. |
| `SphinxKem.CreateKEMHeader` | core/sphinx/kemsphinx.go:123-241 | The header with one encapsulation per hop, each ciphertext in the tail of the preceding fragment. |
| `SphinxKem.NewKEMPacket` | core/sphinx/kemsphinx.go:83-113 | The KEM packet for the path and payload, or the error. |
| `SphinxKem.KemMatches` | core/sphinx/kemsphinx.go:139-150 | Every hop derives the creator's keys by decapsulation. |
| `SphinxKem.KemEndToEnd` | core/sphinx/kemsphinx.go:83-366 | The same delivery theorem, if and only if also all commands fit before the ciphertext slot. |
| `SphinxOverflow.OverflowIsNotDelivered` | core/sphinx/kemsphinx.go:295-332 | A hop whose commands reach into the ciphertext slot never sees them as they were. |
| `SphinxOverflow.ForwardDeliveryIff` | core/sphinx/kemsphinx.go:199-204 | Delivery if and only if nothing is repeated and everything fits. |
| `SphinxOverflow.OverflowIsAccepted` | core/sphinx/kemsphinx.go:199-204 | A family of paths whose commands overflow the slot and are accepted by the creator. |
| `SphinxSurb.MakeSurb` | core/sphinx/surb.go:46-62 | The reply block and the blob of decryption keys, last hop first. |
| `SphinxSurb.NewPacketFromSURB` | core/sphinx/surb.go:67-102 | The packet made from a reply block, and the node to send it to. |
| `SphinxSurb.DecryptSURBPayload` | core/sphinx/surb.go:107-142 | The reply is restored with the keys, which are wiped whatever happens. |
| `SphinxSurb.RestoreUndoes` | core/sphinx/surb.go:117-134 | Encrypting with the hops' keys in reverse undoes what the path did to a payload. |
| `SphinxSurb.SurbRoundTrip` | core/sphinx/surb.go:32-142 | For either format and every payload: a reply leads to the first hop, every hop is told exactly its commands, the last among them the SURB identifier, and what comes out decrypts to the payload, if and only if no hop's commands repeat a surb_reply or overflow and the last hop has a surb_reply (or the geometry no payload tag). |
| `SphinxLayout.SurbLayout` | core/sphinx/surb.go:32-65 | The octets of a SURB, and the keys of hop k within its key blob. |
| `SphinxLayout.ReplyRefusals` | core/sphinx/surb.go:67-142 | Exactly which reply blocks, keys and replies are refused for their length. |
| `SphinxLayout.TamperedReplyIff` | core/sphinx/surb.go:107-142 | With the keys of a SURB a payload field decrypts to a reply exactly when it is what the path makes of that reply. |
| `SphinxReply.NewNikeSURB` | core/sphinx/surb.go:32-65 | A NIKE reply block for the path, or the error. |
| `SphinxReply.NewKemSURB` | core/sphinx/kemsphinx.go:50-81 | A KEM reply block for the path, or the error. |
| `SphinxReply.NikeSurbRoundTrip` | core/sphinx/surb.go:32-142 | A reply to a NIKE SURB comes back as its payload if and only if no hop repeats a surb_reply and the last hop has one (or the geometry no payload tag). |
| `SphinxReply.KemSurbRoundTrip` | core/sphinx/kemsphinx.go:50-81 | The same for KEM SURBs, if and only if, besides, all commands fit before the ciphertext slot. |
| `SphinxReply.RepeatedIsAccepted` | core/sphinx/sphinx.go:116-133 | In the geometry of any NIKE, creation accepts two surb_replies for the last hop, which hops refuse. |
| `SphinxReply.FormatsDeliverAlike` | core/sphinx/kemsphinx.go:83-366 | A NIKE packet and a KEM packet for the same nodes, commands and payload, unwrapped hop by hop, show every hop the same commands, up to the next hop's MAC, and hand over the same payload, when no commands repeat a surb_reply or overflow. |
| `DoubleRatchet.Ratchet.constructor` | doubleratchet/ratchet.go:338-381 | A new ratchet with two exchange keys and no other state. |
| `DoubleRatchet.Ratchet.CompleteKeyExchange` | doubleratchet/ratchet.go:457-547 | Both roles' keys from the peer's public keys, and every error path. |
| `DoubleRatchet.Ratchet.Encrypt` | doubleratchet/ratchet.go:550-623 | The ciphertext and the new state, opening a new epoch when the ratchet flag is set. |
| `DoubleRatchet.Ratchet.TrySavedKeys` | doubleratchet/ratchet.go:626-669 | Stops at the first entry whose header opens, for any iteration order. |
| `DoubleRatchet.Ratchet.SaveKeys` | doubleratchet/ratchet.go:677-726 | The n-th message key of the chain, the chain key after n, and exactly the skipped keys, or the error. |
| `DoubleRatchet.Ratchet.MergeSavedKeys` | doubleratchet/ratchet.go:730-748 | The skipped keys join the saved ones under their own buffer; RatchetKept.KeptInEveryRun says what that is good for. |
| `DoubleRatchet.Ratchet.Decrypt` | doubleratchet/ratchet.go:761-894 | The plaintext or error and the new state, on every path. |
| `RatchetReplay.SkippedPositions` | doubleratchet/ratchet.go:677-726 | The keys saved for skipped numbers are those at consecutive positions of the chain. |
| `RatchetReplay.DecryptInv` | doubleratchet/ratchet.go:761-894 | On any ciphertext, what Decrypt returns is its plaintext under a message key never used before, and saved and spent keys stay apart. |
| `RatchetReplay.NeverAcceptedTwice` | doubleratchet/ratchet.go:626-894 | In every run of calls, with any ciphertexts and any iteration order, no message key is accepted twice. |
| `RatchetReplay.ExchangeStartsRun` | doubleratchet/ratchet.go:457-547 | A completed exchange is a state such runs start from. |
| `RatchetReplay.FailureKeepsStateIff` | doubleratchet/ratchet.go:850-864 | A failed Decrypt leaves the state alone if and only if it fails before the root key is overwritten and did not first drop a saved key for an empty plaintext. |
| `RatchetHistory.HeaderKeyInjective` | doubleratchet/ratchet.go:866-871 | Within one direction every epoch has its own header key. |
| `RatchetHistory.MaterialShared` | doubleratchet/ratchet.go:827-853 | The receiver of an epoch derives the sender's key material from its own key and the header's. |
| `RatchetParty.PartyContinues` | doubleratchet/ratchet.go:592-623 | Sending within a turn puts the next message of the epoch on the wire and stays matched. |
| `RatchetParty.PartyOpens` | doubleratchet/ratchet.go:551-623 | Sending with the flag set opens a new epoch and stays matched. |
| `RatchetParty.CurrentMatched` | doubleratchet/ratchet.go:773-800 | A message of the epoch being received is decrypted exactly when it is within the window, and the state stays matched. |
| `RatchetParty.NextMatched` | doubleratchet/ratchet.go:802-894 | A message of the next epoch within the limit is decrypted, and the state stays matched. |
| `RatchetKept.NextKept` | doubleratchet/ratchet.go:802-894 | After it, the key of every message of both epochs that was passed over is saved. |
| `RatchetRun.ReceiveResult` | doubleratchet/ratchet.go:761-894 | What any delivery of a peer's message does, by where it stands to the receiver's counter. |
| `RatchetRun.StepInv` | doubleratchet/ratchet.go:550-894 | Every send and every delivery keeps both ratchets matched to the history. |
| `RatchetRun.RatchetsStayInStep` | doubleratchet/ratchet.go:457-894 | In every run root, header, chain and ratchet keys stay matched, at most one side has its flag set, and the sides are at most one step apart. |
| `RatchetRun.DeliveryInEveryRun` | doubleratchet/ratchet.go:761-894 | In every run a message not behind the receiver's counter is decrypted to its plaintext if and only if it is within the limit, and no peer message is returned twice. |
| `RatchetRun.SavedKeysInEveryRun` | doubleratchet/ratchet.go:677-748 | In every run saved keys are the right keys of messages passed over and never accepted, no number twice for one header key. |
| `RatchetKept.KeptInEveryRun` | doubleratchet/ratchet.go:677-748 | In every run each message of the other side that is behind the receiver's counter and was not accepted has its key among the saved ones, under its header key. |
| `RatchetKept.MissedIsDecryptedIff` | doubleratchet/ratchet.go:626-669 | In every run such a message is decrypted to its plaintext if and only if the search of the saved keys ends at the entry that holds its key; and it can. |
| `RatchetKept.AnyOrderIff` | doubleratchet/ratchet.go:626-669 | It is decrypted in whatever order the saved keys are searched if and only if a single entry is saved under its header key. |
| `RatchetKept.UnluckySearchCanHappen` | doubleratchet/ratchet.go:626-669 | After every exchange four messages, of which the second and the fourth come first, lead to a search that refuses the first. |
| `RatchetKept.DecryptedNoneHollow` | doubleratchet/ratchet.go:655-662 | Decryption of any ciphertext leaves no saved entry without keys. |
| `RatchetKept.MissedEmptyIsLost` | doubleratchet/ratchet.go:761-775 | A skipped message with an empty plaintext is refused although its key was saved, and the key is gone. |
| `RatchetSpoiled.SpoiledReceiver` | doubleratchet/ratchet.go:850-864 | At the end of any run, a message too far ahead at the start of an epoch is refused, and in every later run, whatever is sent and delivered, no message of that epoch is ever accepted, though each within the limit would have been before. |
| `RatchetSpoiled.SpoilingCanHappen` | doubleratchet/ratchet.go:837-864 | After every exchange: ten messages, of which the last is delivered first, do this. |
| `Keccak.HalfIteration` | sphincsplus/ref/fips202.c:115-208 | One unrolled half of the loop is the round of FIPS 202 on lanes; KeccakBits.RoundShown is that round on bits. |
| `Keccak.StatePermute` | sphincsplus/ref/fips202.c:71-332 | Twelve iterations of two rounds are the 24 rounds of the permutation, on every state. |
| `KeccakBits.LaneAndNot` | sphincsplus/ref/fips202.c:139-143 | The complement and conjunction of chi, bit by bit. |
| `KeccakBits.ChiShown` | sphincsplus/ref/fips202.c:139-205 | Section 3.2.4 bit by bit: a bit is flipped exactly if the next in its row is 0 and the one after it 1, on top of theta, rho and pi. |
| `KeccakBits.RoundShown` | sphincsplus/ref/fips202.c:115-208 | A round on lanes is the round of section 3.3 on single bits, with the standard's round constant. |
| `KeccakBits.PermutationShown` | sphincsplus/ref/fips202.c:71-332 | The permutation on lanes is the 24 rounds of the standard on single bits, for every state. |
| `KeccakBits.StateString` | sphincsplus/ref/fips202.c:23-48 | Bit j of byte i of the state is bit 8(i mod 8) + j of lane i div 8. |
| `KeccakBits.StartsAtZeros` | sphincsplus/ref/fips202.c:347-355 | Absorbing begins with the one state whose 200 bytes are all zero. |
| `KeccakTables.OffsetsOfTheStandard` | sphincsplus/ref/fips202.c:122-208 | The rotation offsets are (t + 1)(t + 2)/2 modulo 64 along the walk of section 3.2.2. |
| `KeccakTables.RolMovesBits` | sphincsplus/ref/fips202.c:14 | The rotation macro moves every bit n places up, counting modulo 64. |
| `KeccakTables.ConstantsOfTheStandard` | sphincsplus/ref/fips202.c:49-62 | The round constants are those of the shift register of section 3.2.5. |
| `KeccakState.Load64` | sphincsplus/ref/fips202.c:25-32 | The word of eight little-endian bytes. |
| `KeccakState.GroupXored` | sphincsplus/ref/fips202.c:358-360 | XORing a loaded word into a lane is XORing its eight bytes into the state. |
| `KeccakState.OfRateLaws` | sphincsplus/ref/fips202.c:438-460 | The lanes behave as 200 bytes: a byte XORed in is read back there and nowhere else. |
| `KeccakHash.XorBlock` | sphincsplus/ref/fips202.c:358-360 | A block goes into the state lane by lane as it would byte by byte. |
| `KeccakHash.MakeLastBlock` | sphincsplus/ref/fips202.c:367-374 | The padded last block. |
| `KeccakHash.Absorb` | sphincsplus/ref/fips202.c:347-378 | The one-shot absorbing of a message from the zero state. |
| `KeccakHash.SqueezeBlocks` | sphincsplus/ref/fips202.c:393-403 | The next blocks of output, written at their place and nowhere else. |
| `KeccakHash.Extendable` | sphincsplus/ref/fips202.c:628-676 | SHAKE: the output is the sponge construction's, for every input and output length. |
| `KeccakHash.Digest` | sphincsplus/ref/fips202.c:706-719 | SHA3: the digest is the first bytes of the sponge construction's output. |
| `KeccakHash.Incremental.constructor` | sphincsplus/ref/fips202.c:415-422 | The zero state with nothing absorbed. |
| `KeccakHash.Incremental.Absorb` | sphincsplus/ref/fips202.c:438-460 | Absorbs a chunk as the byte machine does, whatever was absorbed before. |
| `KeccakHash.Incremental.Finalize` | sphincsplus/ref/fips202.c:475-481 | Domain byte and closing bit go into the current block. |
| `KeccakHash.Incremental.Squeeze` | sphincsplus/ref/fips202.c:496-521 | Gives the next bytes of the output as the byte machine does, whatever was squeezed before. |
| `KeccakHash.Incremental.FinalizeDigest` | sphincsplus/ref/fips202.c:686-695 | The digest of what was absorbed. |
| `KeccakHash.AbsorbFormsAgreeIff` | sphincsplus/ref/fips202.c:347-481 | For every split and every rate, incremental and one-shot absorbing leave the same state if and only if the domain byte is below 128 or off the last byte. |
| `KeccakHash.IncrementalIsHash` | sphincsplus/ref/fips202.c:438-521 | Fed in any chunks and read in any pieces, the output is that of the construction for the concatenation. |
| `KeccakHash.IncrementalDigestIsHash` | sphincsplus/ref/fips202.c:678-719 | The incremental digest is the one-shot digest. |
| `KeccakHash.StandardFunctionsAgree` | sphincsplus/ref/fips202.c:523-738 | SHAKE128, SHAKE256, SHA3-256 and the 32 bytes of incremental SHA3-512 stay clear of the exception. |
| `Sponge.Sponge.OneShotIsConstruction` | sphincsplus/ref/fips202.c:347-378 | The one-shot state, permuted once, is that of the construction on the padded message. |
| `Sponge.Sponge.OneShotIsIncremental` | sphincsplus/ref/fips202.c:347-481 | One-shot and byte-wise absorbing agree if and only if domain byte and closing bit do not overlap. |
| `Sponge.Sponge.ChunkingIsIrrelevant` | sphincsplus/ref/fips202.c:438-460 | Absorbing depends on the concatenation of the chunks only. |
| `Sponge.Sponge.PiecesJoin` | sphincsplus/ref/fips202.c:496-521 | Squeezing calls give consecutive pieces of one stream. |
| `Sponge.Sponge.SqueezedByte` | sphincsplus/ref/fips202.c:496-521 | Every squeezed byte is the output byte of its position. |
| `Sponge.Sponge.IncrementalIsConstruction` | sphincsplus/ref/fips202.c:438-521 | Chunks in, pieces out, is the construction. |
| `Haraka.Mix4` | sphincsplus/haraka-aesni/haraka.c:56-64 | The eight unpack instructions permute the sixteen columns as specified. |
| `Haraka.Permute` | sphincsplus/haraka-aesni/haraka.c:407-436 | Five rounds in place. |
| `Haraka.PermuteFour` | sphincsplus/haraka-aesni/haraka.c:438-505 | Each of four states is permuted on its own. |
| `HarakaSteps.PermutationShown` | sphincsplus/haraka-aesni/haraka.c:407-436 | The permutation is five rounds of Haraka-512: two layers of AES rounds with their own constants, then the designers' permutation of the sixteen columns, for every state. |
| `HarakaSteps.PermutationIsInjective` | sphincsplus/haraka-aesni/haraka.c:407-436 | If the AES round is injective for every constant, no two states are permuted to the same. |
| `HarakaHash.Absorb` | sphincsplus/haraka-aesni/haraka.c:133-159 | The one-shot absorbing of a message. |
| `HarakaHash.SqueezeBlocks` | sphincsplus/haraka-aesni/haraka.c:229-240 | The next blocks of output, written at their place in the caller's buffer and nowhere else. |
| `HarakaHash.HarakaS` | sphincsplus/haraka-aesni/haraka.c:341-363 | The caller's buffer is filled with the sponge construction's output, for every input and output length. |
| `HarakaHash.Incremental.Absorb` | sphincsplus/haraka-aesni/haraka.c:279-302 | Absorbs a chunk as the byte machine does. |
| `HarakaHash.Incremental.Finalize` | sphincsplus/haraka-aesni/haraka.c:304-311 | Domain byte and closing bit go into the current block. |
| `HarakaHash.Incremental.Squeeze` | sphincsplus/haraka-aesni/haraka.c:313-339 | Gives the next bytes of the output as the byte machine does. |
| `HarakaHash.IncrementalIsHash` | sphincsplus/haraka-aesni/haraka.c:269-363 | The incremental form over any chunking equals haraka_S of the concatenation. |
| `HarakaHash.AbsorbFour` | sphincsplus/haraka-aesni/haraka.c:161-227 | Each lane absorbs its own message. |
| `HarakaHash.SqueezeBlocksFour` | sphincsplus/haraka-aesni/haraka.c:242-267 | Each lane gives its own next blocks. |
| `HarakaHash.HarakaSFour` | sphincsplus/haraka-aesni/haraka.c:365-405 | Each lane is haraka_S of that lane's input, for all lengths. |
| `EgressQueue.Queue.Push` | client/queue.go:57-67 | Appends at the end, or reports a full queue and leaves it. |
| `EgressQueue.Queue.Pop` | client/queue.go:71-82 | Takes the oldest item, or reports an empty queue. |
| `EgressQueue.Queue.Peek` | client/queue.go:86-94 | The oldest item, leaving the queue. |
| `PriorityQueue.RootIsMinimum` | core/queue/priority_queue.go:69-77 | The root of an ordered heap is a minimum. |
| `PriorityQueue.PriorityQueue.Enqueue` | core/queue/priority_queue.go:97-103 | Adds the entry and keeps the heap order. |
| `PriorityQueue.PriorityQueue.Peek` | core/queue/priority_queue.go:72-77 | An entry of least priority, if any. |
| `PriorityQueue.PriorityQueue.Dequeue` | core/queue/priority_queue.go:45-67 | Removes exactly an entry of least priority and keeps the heap order. |
| `PriorityQueue.PriorityQueue.DequeueIndex` | core/queue/priority_queue.go:88-93 | Removes exactly the entry at the index and keeps the heap order, the last entry sinking or rising in its place. |
| `Session.Session.Send` | client/send.go:194-217 | A message enters the egress queue, or an error is reported. |
| `Session.Session.Transmit` | client/send.go:63-128 | A transmission sets SURB, timer and message fields, or drops the message. |
| `Session.Session.SendHead` | client/send.go:38-54 | The head of the queue is sent and popped; an empty queue is a fatal error. |
| `Session.Session.SendLoopDecoy` | client/send.go:149-168 | A decoy with a SURB, never on the timer. |
| `Session.Session.Reschedule` | client/session.go:361-374 | A message still waiting gives up its SURB entry for a pending operation. |
| `Session.Session.ForwardHead` | client/timer_queue.go:93-104 | An entry of least priority leaves the timer and is pushed. |
| `Session.Session.PollTimer` | client/timer_queue.go:106-121 | The worker forwards a due head or sets its alarm. |
| `Session.Session.Alarm` | client/timer_queue.go:122-128 | What the alarm sets off. |
| `Session.Session.SendAgain` | client/send.go:56-61 | The message goes back to the egress queue, or is dropped exactly when that is full (SessionDeadlines.EndsIff). |
| `Session.Session.Acknowledge` | client/session.go:281-330 | A reply to a live SURB ends the wait; any other is ignored. |
| `Session.Session.GarbageCollect` | client/session.go:202-218 | Every entry is looked at once and expired ones are removed. |
| `SessionRun.ForwardInv` | client/session.go:361-374 | Forwarding a due entry keeps the invariant, whether or not the message still waits. |
| `SessionRun.AlarmDue` | client/timer_queue.go:106-131 | The alarm does not go off before the head of the queue is due, whatever was pushed meanwhile. |
| `SessionRun.StepInv` | client/send.go:38-128 | Every handler keeps the invariant. |
| `SessionRun.OnePlace` | client/send.go:38-128 | In every run a message is in exactly one of egress queue, pending operations and SURB map until its end, and then in none. |
| `SessionRun.OneTimerEntry` | client/timer_queue.go:60-131 | In every run a message has at most one timer entry. |
| `SessionRun.SentWhenDue` | client/session.go:281-374 | In every run a message is sent again only after the deadline of every earlier transmission, and nothing happens to it after its end: no transmission after the reply, and one reply at most. |
| `SessionRun.ResentIsReliable` | client/send.go:56-61 | Only reliable messages are sent again. |
| `SessionDeadlines.EndsIff` | client/send.go:56-128 | In every run a message ends, as answered, discarded, unsent, crowded out or collected, exactly in the step that is the cause of that: crowded out only when the egress queue is full. |
| `SessionDeadlines.BacksOffInEveryRun` | client/send.go:56-105 | In every run the k-th transmission of a reliable message is due again k + 2 round trip times after it was made, and those of others never. |
| `SessionResend.SentInEveryRun` | client/send.go:38-61 | From every state of every run a queued or pending message can be sent without any message being lost. |
| `SessionResend.ResentInEveryRun` | client/send.go:56-105 | From every state of every run a reliable message that waits for its reply can be sent again, after the deadline of every earlier transmission, without any message being lost. |
| `SessionResend.AlarmBringsItsHead` | client/timer_queue.go:93-131 | In every run the worker's alarm makes the head of its queue a pending operation at the time it is due. |
| `SessionCollect.TakenOverdueOrSlow` | client/session.go:202-218 | In every run, when the collector takes the entry of a reliable message, the message still has its timer entry, and that entry is overdue or the round trip estimate exceeds the slop. |
| `SessionCollect.LostForGood` | client/session.go:202-218 | In every run a message whose end is logged is never queued or waiting again, and nothing more is logged of it. |
| `SessionCollect.TakenIsLost` | client/session.go:202-218 | In every continuation of a run in which the collector took the entry of a reliable message, that message is in no queue and is never sent. |
| `SessionCollect.TakenEarlyIff` | client/session.go:202-218 | There is a run in which the collector takes the entry of a message sent with a given estimate before it is overdue, if and only if the estimate exceeds the slop. |
| `SessionCollect.TakenOverdue` | client/session.go:202-218 | For every estimate there is a run in which it takes the entry of an overdue message before the timer does. |
| `SpoolStore.BigEndianOrder` | memspool/server/spool.go:198-217 | Big-endian keys are walked through in numeric order. |
| `SpoolStore.NumberOfBigEndian` | memspool/server/spool.go:381-387 | A key reads back as its number. |
| `SpoolStore.LastIsNewest` | memspool/server/spool.go:214-217 | The last key walked through is that of the newest message. |
| `SpoolStore.FlushThenLoad` | memspool/server/spool.go:164-220 | Flushing a spool and loading it gives back every entry and the counter. |
| `SpoolStore.AppendSoundIff` | memspool/server/spool.go:455-466 | Appending keeps identifiers contiguous from 1 if and only if the 32-bit counter does not wrap around. |
| `SpoolServer.MemSpoolMap.CreateSpool` | memspool/server/spool.go:256-274 | A new spool with its bucket, or the existing one left alone. |
| `SpoolServer.MemSpoolMap.AppendToSpool` | memspool/server/spool.go:310-323 | The message under the next identifier of its spool. |
| `SpoolServer.MemSpoolMap.ReadFromSpool` | memspool/server/spool.go:325-342 | The message with the identifier, or which check failed. |
| `SpoolServer.MemSpoolMap.FlushSpool` | memspool/server/spool.go:352-401 | Dirty entries of a spool are written and marked clean. |
| `SpoolServer.MemSpoolMap.DoFlush` | memspool/server/spool.go:344-405 | All spools are flushed. |
| `SpoolServer.MemSpoolMap.LoadSpool` | memspool/server/spool.go:194-217 | A bucket becomes a spool, or its keys are refused. |
| `SpoolServer.MemSpoolMap.LoadAll` | memspool/server/spool.go:164-220 | The whole database becomes the spool map. |
| `SpoolServer.RestartKeepsSpools` | memspool/server/spool.go:164-220 | A restart gives back every spool, entry for entry, and its counter. |
| `SpoolServer.StepInv` | memspool/server/spool.go:256-466 | Creating, appending, flushing and restarting keep store and database in step. |
| `SpoolServer.ReadsWhatWasAppended` | memspool/server/spool.go:325-342 | In every run without purges message i of a spool is the i-th appended to it, across flushes and restarts, and any other read, as any whose signature does not verify, fails. |
| `SpoolReader.Reader.SendReadInbox` | catshadow/client.go:1006-1032 | A request for the message at the read offset, remembered. |
| `SpoolReader.Reader.OnReply` | catshadow/client.go:1128-1179 | What a reply does, and when the client panics. |
| `SpoolReader.StepInv` | catshadow/client.go:1006-1179 | Every step keeps reader, spool and network in step. |
| `SpoolReader.PassesInOrder` | catshadow/client.go:1128-1179 | In every run the client passes entries 1, 2, 3, ... once each and in order, and its offset is at most one past the server's count. |
| `SpoolReader.NeverPanics` | catshadow/client.go:1176-1177 | In no run does a reply come for a message not requested yet. |
| `SpoolReader.ReadAdvances` | catshadow/client.go:1006-1179 | From every state of every run with unread messages, a read, its service and a receipt that is not held back advance the reader by one, past the next message. |
| `SpoolReader.HeldBackIsKept` | catshadow/client.go:1144-1175 | In every run a reply held back for a pending key exchange changes nothing. |
| `SpoolReader.CatchesUp` | catshadow/client.go:1006-1179 | From every state of every run the reader can come to have passed every appended message, once and in order. |
| `PandaServer.Panda.Put` | panda/server/storage.go:301-309 | Stores under a new tag and refuses one that is present. |
| `PandaServer.Panda.OnRequest` | panda/server/panda.go:48-127 | The response and the new postings, on every path. |
| `PandaServer.PairsFirstTwo` | panda/server/panda.go:80-127 | The first two distinct messages under a tag are paired, whatever is posted in what order and how often; a third is told that the tag is contended. |
| `PandaServer.Exchange` | panda/client/client.go:61-126 | The first deciding reply is the outcome, and the delays between polls are as specified. |
| `PandaServer.DelayIsCapped` | panda/client/client.go:117-123 | The delay doubles from one second up to an hour. |
| `PandaKx.Exchanger.constructor` | panda/crypto/panda.go:56-87 | A new key exchange and its first snapshot. |
| `PandaKx.AcceptedIff` | panda/crypto/panda.go:56-63 | An exchange is accepted exactly when the random value has 32 octets and some filler brings the second message to the padded length. |
| `PandaKx.MessagesFill` | panda/crypto/panda.go:251-310 | Both messages have the padded length. |
| `PandaKx.Exchanger.UpdateSerialised` | panda/crypto/panda.go:128-154 | The snapshot; before the first exchange it holds the inputs only. |
| `PandaKx.FirstSnapshotForgets` | panda/crypto/panda.go:89-154 | The first snapshot depends on the inputs alone, and whoever restarts from it has a private key of zeros. |
| `PandaKx.LaterSnapshotIsWhole` | panda/crypto/panda.go:128-154 | Later snapshots determine the exchange. |
| `PandaKx.Exchanger.DerivePassword` | panda/crypto/panda.go:251-274 | Meeting places, key and first message. |
| `PandaKx.Exchanger.FirstExchange` | panda/crypto/panda.go:276-310 | The shared key and the second message, from the peer's first. |
| `PandaKx.Exchanger.SecondExchange` | panda/crypto/panda.go:312-342 | The peer's bytes, or which check failed; PandaKx.OpensPeer says when it is the one and when the other. |
| `PandaKx.UnpaddedPadded` | panda/crypto/panda.go:292-341 | Length prefix, bytes and filler read back as the bytes. |
| `PandaKx.OpensPeer` | panda/crypto/panda.go:276-342 | Two sides that met have the same shared key of 32 octets; each reads the other's bytes exactly, unless the first two octets of the key are both zero, which is refused. |
| `PandaRun.StepInv` | panda/crypto/panda.go:128-342 | Crashes, restarts, publishing, posts and responses keep the invariant. |
| `PandaRun.OneMessagePerTag` | panda/crypto/panda.go:169-249 | In every run a client posts at most one message per tag, across restarts from its last published snapshot. |
| `PandaRun.NeverContended` | panda/server/panda.go:80-127 | In every run of two clients no response says that a tag is contended. |
| `PandaRun.ResultIsPeers` | panda/crypto/panda.go:312-342 | In every run a result of the exchange is exactly the peer's bytes. |
| `PandaMeeting.MeetingCompletesIff` | panda/crypto/panda.go:128-342 | From every state of every run, whatever stage each client is at, a continuation without a crash leads to the same shared key on both sides and each to the other's bytes (or both to a refusal, if the first two octets of the key are zero), if and only if they have not made the same message for a meeting place. |
| `PandaMeeting.ClashCanHappen` | panda/crypto/panda.go:128-342 | Clients that draw the same private key and filler do make the same message. |

## Left out

- The primitives themselves (X25519, CSIDH, Kyber, AEZ, ChaCha, argon2, secretbox, the AES round): function values or terms with the laws given above.
- CBOR, JSON, protobuf and base64 codecs: requests, replies and snapshots are decoded values.
- Interleaving inside a handler: every handler of session, server and client is one atomic step.
- Purging of spools: it removes only the spool in memory, so a reload brings the spool back.
- Expiry of PANDA postings during a run, and the database of the meeting place: whether a posting has expired is an input of OnRequest, and runs assume that none has.
- Outbound acknowledgement and popping in catshadow, and SetSharedRandom in PANDA.
- Serialised ratchets, key lifetimes and wiping of saved keys.
- Decoy timing, drop decoys (which touch none of the modelled state), proxying, logging and configuration.
- SPHINCS+ signing, Reunion, wire sessions and PKI documents.
- Durations and clock readings are unbounded naturals; overflow of 64-bit nanoseconds is not modelled.
- HarakaHash.SqueezeBlocksFour: returns the bytes written rather than filling four buffers, and so does not model aliasing between them.
- HarakaHash.HarakaSFour: returns the four outputs, for the same reason.
- HarakaHash.Incremental.Squeeze: returns the bytes given out rather than filling the caller's buffer.
- SpoolServer.StepInv: assumes that no counter wraps around at 2^32, which SpoolStore.AppendSoundIff shows to be needed.
- SpoolReader.PassesInOrder: assumes that fewer than 2^32 - 2 messages are appended, for the same reason.
- RatchetRun.DeliveryInEveryRun: leaves out deliveries that spoil the receiver, which RatchetSpoiled.SpoiledReceiver follows, and takes plaintexts to be non-empty and message numbers below 2^32 - 1.
- RatchetKept.KeptInEveryRun: is about the same runs, and so are MissedIsDecryptedIff and AnyOrderIff.
- SessionResend.ResentInEveryRun: says that the message can be sent again, not that it is; nothing is assumed about when the sender and the timer get their turns.
- PandaMeeting.MeetingCompletesIff: says that the end can be reached, not that it is; nothing is assumed about the fairness of the network.
