# CipherLink: a verified model of session establishment

CipherLink lets two command-line clients agree on a session key through a relay that holds no keys.
This project models the path from the bytes that get signed up to whole runs of the system, and
proves what the protocol is for: the two clients agree on one session ID and one key, the handshake
completes exactly when no earlier occupant's handshake is left on the way, and no session key can be
worked out from what was sent. Agreement and completion are proved of an abstract system and carried down
to the two programs as they run, exchanging characters in pieces of any size.

`dafny verify dfyconfig.toml` checks everything.

## Layers

| files | what they model | source form |
|---|---|---|
| `Text`, `Base64`, `Canonical` | UTF-8, decimal numerals, base64, the signed byte encoding, concretely on bytes | functions |
| `Framing` | `LineBuffer`, as a class proved against a split of the text so far | class and functions |
| `JsonText`, `Transport` | `encode` and `decode` of flat messages; streams of messages; frame sizes | functions |
| `Crypto`, `Messages`, `Validation`, `Verdicts`, `Handshake` | idealised primitives, message validation and its verdicts, creation and verification of the signed messages | functions, one validation method with the source's loops |
| `Sessions`, `Outcomes`, `PeerSession` | the session state machine on values, what each message does to it, and the class with its fields and key buffers that refines it | functions, class |
| `Evidence` | the records behind every honest signature and ciphertext | functions |
| `HonestNetwork`, `HonestAgreement`, `Convergence` | two slots, FIFO lines, clients that come and go | step relation |
| `Provenance`, `Sketches`, `Prospects`, `ChurnConvergence`, `EntangledQueues`, `ChurnWitness` | who wrote each line in flight; a client reduced to what it waits for; when clients that come and go still complete the handshake, and how the queues show it | functions over the step relation |
| `Adversary`, `AdversaryWitness`, `Secrecy` | a network that drops, replays, reorders and invents; symbolic deduction | step relation |
| `Relaying`, `RelayRuns`, `RelayServer` | the relay server on values, its runs, and the class with its slot table and per-connection buffers | functions, class |
| `ClientQueue`, `ClientMachine`, `Startup` | the client's queue and key generation on values, the class, and what the server's lines do to a client | functions, class |
| `WholeSystem`, `Wires`, `Simulation`, `Programs` | the server and its clients joined by streams of characters, as a system that `HonestNetwork` abstracts | step relation over the functions above |

The classes state their whole new state as the value their specification function computes; the
properties are then proved about those functions, over every input and every run. What the functions
compute is in turn stated without them: the signed bytes field by field, the text of every line, each
verdict, answer, refusal and action under its own condition on the input (the lemmas whose names end
in `Exactly` or `Refusals`).

## Idealisations

* A public key is identified with its SHA-256 fingerprint, so fingerprints do not collide. PEM parsing
  and writing and modulus sizes are functions of an `Env` value about which nothing is assumed, except
  where `GoodIdentity` says that a generated key survives export and import.
* A ledger holds every (key, data, signature) triple that `sign` issued and the plaintext of every
  OAEP ciphertext. Random choices are parameters (`Coins`). `LawfulCoins` and `FreshCoins` say what
  the primitives guarantee about them: output sizes, no ciphertext with two meanings under one key,
  fresh session IDs and keys.
* The network of `Adversary` is trusted in one point only: a HELLO shown to a client carries its
  peer's signing key. Agreement and the secrecy of every ESTABLISHED session need no more than that;
  that encryption keys are genuine too is asked only by `NoCreatedKeyIsDeducible`, which covers keys
  of sessions that never completed.
* The programs of `WholeSystem` share a `Site`: a parser that undoes the modelled JSON.stringify on flat
  messages, and a wording of the notices that starts as the source's does. `SourceIsGood` shows one.

## What the proofs brought to light

* With clients that come and go, the handshake does not always complete. In either slot a client can
  become FAILED although no primitive throws (`BothRolesCanFail`, with the runs of `ResponderCanFail` and
  `InitiatorCanFail`): lines the client that stayed wrote for an earlier occupant reach the one that took
  its slot. A delivery makes a client FAILED exactly when it is a responder waiting for a KEY_EXCHANGE
  that gets one wrapped for somebody else, or an initiator waiting for an acknowledgement that gets one
  of another session (`FailsExactly`). Two clients in the slots complete the handshake if and only if
  neither is entangled (`ConvergesExactly`): the lines on their way to it do not hold a HELLO followed by
  a signed message of an earlier session. `EntangledExactly` reads this off the queues in every state: the
  lines already written, and which parts of the peer's inbox, from one departure to the next, make it sign.
  `RefillExactly` does so for the moment a slot is refilled.
* Validation does not always return. A refusal converts the version or the event to text
  (src/protocol/message.js:264, 342, 362), and a nested object with a property `toString` of its own has no
  text: `ThrowsExactly` names the inputs. The server calls validation outside any handler of exceptions
  (src/server.js:122), so a line that does this ends it, and nothing after it is handled: over every run the
  server ends if and only if some socket in a slot delivers such a line (`ServerEndsExactly`,
  `UnprintableVersionEndsServer`). The client has the same call (src/client.js:155) and shows the sender of a
  chat message without a check (src/client.js:206); see `RunCrashesExactly` and `UnprintableSenderCrashes`.
  No program that follows this repository sends such lines, and `ProgramsRefine` shows that with the two
  programs of the repository none of this happens.
* The responder's agreement is not injective: from every reachable world, a HELLO and a KEY_EXCHANGE bring
  it back to the very same session after a notice that its peer left (`ReplayRun`). Replay protection is
  documented as absent.
* A message marks the own HELLO as sent without sending it exactly when a valid HELLO of Client B reaches
  an initiator that has not sent its own and `createKeyExchange` throws (`HelloLostExactly`). `#fail` drops
  the HELLO that was due (src/security/peer-session.js:180-199), and a later join notice does not make up
  for it (`HelloLostAt`). This is the one exception in `TraceLanguage`.
* A buffer that a KEY_EXCHANGE is decrypted into becomes the session's key, or is zeroed, or still holds
  the accepted key with nobody referring to it, the last exactly when verification succeeds and signing
  the acknowledgement throws (`OnKeyExchange`; src/security/peer-session.js:215-235). `KeyLeftBehindAt`
  gives the inputs. The buffer that `createKeyExchange` draws a session key into is the session's key
  afterwards, or still holds the key with nobody referring to it, the latter exactly when a later step of the
  creation throws (`OnHello`; src/security/handshake.js:72-85).
* `createKeyExchange` puts no upper bound on key sizes, but its message is valid only up to 8192-bit
  moduli; `KeyExchangeComplete` gives the exact condition.
* The client refuses a chat line whose frame, newline included, exceeds the limit, while the server's
  limit leaves out the newline: `OneFrame` gives the server's exact condition, one byte larger.
* Every handshake line the server takes fits its receiver, but a chat line does exactly if it still fits
  with the version and sender the server puts in (`RelayedFits`). A chat line of 65536 bytes that did not
  come from the client program is accepted and relayed as 65568 bytes, which no receiver takes
  (`StampedFrameCanOverflow`); the receiving client disconnects.
* Handling messages crashes a client exactly when a presence notice comes before any greeting, a greeting
  names an identity the session class does not take, or the sender of a chat message has no text
  (`CrashesExactly`); the server never causes any of these, for any socket. The lookup in the session class also finds the names every JavaScript object inherits, so
  those are taken.

## Model

| member | source | states |
|---|---|---|
| `Base64.DecodeEncode` | src/protocol/message.js:222-227 | Decoding undoes encoding for every non-empty byte string |
| `Base64.CanonicalImage` | src/protocol/message.js:222-227 | The check accepts a text if and only if it is the encoding of some non-empty byte string |
| `Base64.CanonicalIffPadBitsZero` | src/protocol/message.js:222-227 | On texts matching the pattern, re-encoding gives the text back if and only if the pad bits of section 3.5 of RFC 4648 are zero |
| `Base64.CanonicalDecodeInjective` | src/protocol/message.js:222-227 | One byte string has one accepted text |
| `Base64.EncodeLength` | src/protocol/message.js:229-233 | Output length arithmetic: four characters for every three bytes or part of three |
| `Base64.EncodeExactly` | src/protocol/message.js:222-227 | Every group of three bytes is written as the four digits of its 24 bits in the alphabet of RFC 4648, given as a table; one or two last bytes are filled up with zero bits and padded |
| `Canonical.CanonicalPrefixFree` | src/protocol/canonical.js:36-97 | If the signed bytes of one field record begin those of another, the records are equal, so KEY_EXCHANGE and ACK never collide |
| `Canonical.CanonicalizeIff` | src/protocol/canonical.js:63-97 | Exactly which field records are encoded rather than refused: version not negative, no empty name, the key fields with KEY_EXCHANGE and only with it, no field of 2^32 bytes |
| `Canonical.CanonicalizeExactly` | src/protocol/canonical.js:16-27 | Which bytes are signed: exactly those that read, with nothing left, as the label, version, type, sender, recipient and session ID, and for KEY_EXCHANGE ciphertext and fingerprint, each behind four bytes that are its length with the most significant first |
| `Canonical.FieldsUnique` | src/protocol/canonical.js:36-44 | A list of length-prefixed fields can be read off the front of any bytes in only one way |
| `Text.Utf8Injective` | src/protocol/canonical.js:37 | Texts without lone surrogates are told apart by their UTF-8 bytes |
| `Text.Utf8Layout` | src/protocol/canonical.js:37 | How many bytes a character takes, which of them lead and which continue, and that they carry its number |
| `Text.DecimalExactly` | src/protocol/canonical.js:74 | String of a version is the one numeral without leading zeros that has its value |
| `Crypto.HexAt` | src/security/handshake.js:71-78 | A session ID is written with two lower-case digits for each byte, the higher first |
| `Framing.LineBuffer.Append` | src/protocol/message.js:160-173 | For every buffer and chunk: the pieces of buffer and chunk between newlines, returned and kept if each fits; otherwise the error, and an emptied buffer |
| `Framing.ChunkingInvariance` | src/protocol/message.js:149-174 | Fed in any chunks, a text fails if and only if a frame or the rest is over the limit; otherwise lines and residue are those of one split; before a failure the lines are a prefix of the true ones |
| `Framing.AnyTwoChunkingsAgree` | src/protocol/message.js:149-174 | Two ways of cutting one text both fail or give the same lines and residue |
| `Framing.SplitUnsplit` | src/protocol/message.js:162-165 | Lines joined by newlines split back into exactly those lines and rest |
| `Framing.BufferBounded` | src/protocol/message.js:141-148 | Between calls never more than one maximum-size frame is buffered |
| `JsonText.ParseStringify` | src/protocol/message.js:176-183 | Parsing the text of a flat message gives the same properties with the same values in the same order, whatever its strings contain |
| `JsonText.EscapesExactly` | src/protocol/message.js:176-178 | A character stands for itself exactly if it is no control, quote or backslash; each short escape as a literal; any other control as \u00 and two lower-case digits |
| `JsonText.QuotedExactly` | src/protocol/message.js:176-178 | A string is written as itself between quotes exactly if no character needs an escape |
| `JsonText.QuotedBytes` | src/protocol/message.js:176-178 | The exact number of bytes of any string literal |
| `JsonText.StringifyExactly` | src/protocol/message.js:176-178 | An object is written as its properties in their order with commas and braces and no space |
| `JsonText.StringifyHasNoNewline` | src/protocol/message.js:155-178 | Encoded text has no control character, so no raw newline, and is never blank |
| `Transport.TransportRoundTrip` | src/protocol/message.js:149-183 | A list of messages sent in any chunks: what was delivered decodes to a prefix at any moment, and in the end to exactly the list, unless a frame is over the limit, which is exactly when reception fails |
| `Transport.HandshakeFits` | src/protocol/message.js:116-130 | Every message that passes handshake validation fits a frame at up to six bytes per UTF-16 unit, in any property order |
| `Transport.HandshakesArrive` | src/protocol/message.js:149-183 | A stream of valid handshake messages never trips the limit and decodes to what was sent |
| `Transport.MessageText` | src/protocol/message.js:185-195 | The line of each handshake message: its properties in the order of its factory, and nothing else |
| `Messages.ValidateHandshakeMessage` | src/protocol/message.js:254-310 | The loops over the fields compute the specified verdict, valid, invalid with a reason, or thrown, whatever the order of the keys |
| `Messages.ThrowsExactly` | src/protocol/message.js:254-372 | Validation throws if and only if the version, with no private material found before it, or the event of a SYSTEM message is refused and cannot be converted to text; it returns for every other input |
| `Messages.PrintableExactly` | src/protocol/message.js:264 | A value has no text exactly if it is, or holds at some depth of lists, an object with an own `toString` |
| `Validation.ValidationExact` | src/protocol/message.js:254-372 | An object passes as a handshake message if and only if it is the object of a well-formed message |
| `Validation.HandshakeAccepts` | src/protocol/message.js:254-310 | Acceptance means: no private material, version 1, exactly the schema's fields, and every field check |
| `Verdicts.HandshakeExactly` | src/protocol/message.js:254-310 | An object of a handshake type is valid exactly if it has the fields of its type and no other, version 1, no private-key text, and each field what it should be, down to lengths, digits and key sizes |
| `Verdicts.HandshakeRefusals` | src/protocol/message.js:254-277 | Each refusal before the fields are looked at, under its own condition; of several missing fields the first of the schema is named |
| `Verdicts.FieldRefusals` | src/protocol/message.js:279-309 | Each refusal of a field, under its own condition |
| `Verdicts.PlainExactly` | src/protocol/message.js:320-372 | A value of no handshake type is valid exactly if it is a CHAT, ERROR or SYSTEM object whose version is absent or 1 and whose text is not blank, an event being one of the two with the name of a peer; nothing else is, reserved types included |
| `Verdicts.PlainRefusals` | src/protocol/message.js:320-372 | Each refusal of such a value, under its own condition |
| `Validation.SignedBytesDetermineMessage` | src/protocol/canonical.js:52-97 | Two validated messages with equal signed bytes agree on every wire field but the signature, base64 text included |
| `Handshake.KeyExchangeAcceptedIff` | src/security/handshake.js:109-146 | A KEY_EXCHANGE is accepted with (id, key) if and only if it is well formed, names both parties, its signer signed exactly these values for the own key, and it unwraps to 32 bytes |
| `Handshake.AckAcceptedIff` | src/security/handshake.js:165-182 | The same for the acknowledgement and the expected session ID |
| `Handshake.CreatedExactly` | src/security/handshake.js:71-101 | The message, ID and key that are made, and that exactly one signature is added, over the bytes that read as these values and the recipient's fingerprint |
| `Handshake.AckCreatedExactly` | src/security/handshake.js:149-162 | The same for the acknowledgement |
| `Handshake.KeyExchangeRefusals` | src/security/handshake.js:109-146 | Each reason for which a KEY_EXCHANGE is refused, under its own condition on the parties, the signed bytes and the ciphertext; nothing is unwrapped unless the signature is good |
| `Handshake.AckRefusals` | src/security/handshake.js:165-182 | The same for the acknowledgement |
| `Handshake.KeyExchangeComplete` | src/security/handshake.js:71-146 | The session key passes the length guard of OAEP under every accepted key; what createKeyExchange makes is well formed if and only if both moduli have at most 8192 bits, and is then accepted with the created id and key |
| `Handshake.AckComplete` | src/security/handshake.js:149-182 | The same for the acknowledgement pair |
| `Sessions.StepsKeepInv` | src/security/peer-session.js:102-262 | Every event keeps: key stored exactly in KEY_SENT and ESTABLISHED, peer keys absent exactly in NO_SESSION, own HELLO sent in every other state, no resting KEY_RECEIVED, A never rests in HELLO_EXCHANGED |
| `Sessions.EndedIsAbsorbing` | src/security/peer-session.js:135-165 | In ESTABLISHED and FAILED no message and no join notice changes a field or makes the client send |
| `Sessions.HandleMessageCases` | src/security/peer-session.js:149-165 | Anything at all is either refused without effect or treated as a well-formed message; it is refused by an exception out of validation, session unchanged, exactly when validation throws |
| `Outcomes.InputsExactly` | src/security/peer-session.js:149-165 | A message is refused as invalid, as unexpected or by the exception exactly if validation says so or it is a valid message of another type; any other is handled as the message it is |
| `Outcomes.RefusalsExactly` | src/security/peer-session.js:167-262 | Each refusal that leaves the session alone, under its own condition on role, state and message, and no other step is one |
| `Outcomes.GreetingExactly` | src/security/peer-session.js:167-200 | Session, event, messages and error after a HELLO that is due |
| `Outcomes.KeyExactly` | src/security/peer-session.js:202-236 | The same after a KEY_EXCHANGE that is due |
| `Outcomes.AckExactly` | src/security/peer-session.js:238-262 | The same after an acknowledgement that is due |
| `Sessions.TraceLanguage` | src/security/peer-session.js:112-143 | Between two departures of the peer a client emits exactly the part of HELLO and its one signed message that its state says, in that order and under its own name, if and only if it did not lose its HELLO; then it emits nothing |
| `Sessions.HelloLostExactly` | src/security/peer-session.js:167-200 | The own HELLO is marked as sent and not sent exactly when a valid peer HELLO reaches an initiator that has not sent it and createKeyExchange throws |
| `Sessions.CreationThrowsOnDraws` | src/security/handshake.js:71-101 | With draws of the right sizes createKeyExchange throws exactly if a primitive does or the ciphertext has 2^32 bytes or more |
| `Sessions.HelloLostAt` | src/security/peer-session.js:180-199 | Such inputs exist for every valid HELLO, and a later join notice sends nothing either |
| `PeerSessions.PeerSession.constructor` | src/security/peer-session.js:67-75 | A fresh session |
| `PeerSessions.PeerSession.GetterExactly` | src/security/peer-session.js:92-95 | For every valid session of either role the key getter gives a buffer if and only if the state is ESTABLISHED, and then the live one, holding the session key |
| `PeerSessions.PeerSession.HandleMessage` | src/security/peer-session.js:149-165 | The fields after any message, a throwing validation included, are those the state machine computes; a stored key buffer is kept untouched, newly adopted, or zeroed and let go; the buffer the getter exposes never changes; a decrypted buffer is stored, zeroed, or left behind exactly if signing the ACK throws; a drawn one is stored, or left behind exactly if creation throws; the getter gives a buffer exactly in ESTABLISHED, and then the session key |
| `PeerSessions.PeerSession.OnHello` | src/security/peer-session.js:167-200 | The same for HELLO; the buffer a session key was drawn into becomes the session's key on KEY_SENT, and still holds the key, with nobody referring to it, exactly when a later step of the creation throws |
| `PeerSessions.PeerSession.OnKeyExchange` | src/security/peer-session.js:202-236 | The same for KEY_EXCHANGE; the decrypted buffer becomes the session key on ESTABLISHED, is zeroed when its length is wrong, and still holds the accepted key exactly when verification succeeds and signing the ACK throws; after an accepted message the getter gives the accepted key |
| `PeerSessions.KeyLeftBehindAt` | src/security/peer-session.js:214-235 | For every key a known initiator made for a responder, signing that throws leaves exactly that key behind |
| `PeerSessions.PeerSession.OnKeyExchangeAck` | src/security/peer-session.js:238-262 | The same for KEY_EXCHANGE_ACK; after an accepted one the getter gives the buffer the key was created in, unchanged |
| `PeerSessions.PeerSession.OnPeerJoined` | src/security/peer-session.js:135-138 | The own HELLO once; no key buffer touched |
| `PeerSessions.PeerSession.OnPeerLeft` | src/security/peer-session.js:102-110 | Back to a fresh session; the stored key buffer is all zeros, also through references taken from the getter earlier, which gave one exactly in ESTABLISHED and gives none now |
| `PeerSessions.PeerSession.Fail` | src/security/peer-session.js:127-133 | FAILED, the stored key zeroed and let go, everything else kept |
| `PeerSessions.VerifyIntoBuffer` | src/security/handshake.js:109-146 | Verification into a buffer agrees with the specification; a key of the wrong length is zeroed before the error |
| `Evidence.AcceptedKeyIsRecorded` | src/security/handshake.js:109-146 | A KEY_EXCHANGE accepted under an honest signing key was created by its holder with that id and key for the acceptor's own encryption key |
| `Evidence.AcceptedAckIsRecorded` | src/security/handshake.js:165-182 | An accepted acknowledgement was issued by its signer for that session ID |
| `Evidence.StepKeepsSound` | src/security/peer-session.js:167-262 | Every step keeps every honest signature and every ciphertext explained by a recorded creation or acceptance |
| `HonestAgreement.StepKeepsInv` | src/server.js:78-178 | The invariant of the honest system is kept by connecting, disconnecting, relaying and delivering |
| `HonestAgreement.AgreementUnderChurn` | src/server.js:78-178 | In every reachable state, after any departures and refills, two ESTABLISHED clients in the slots hold the same session ID and key |
| `Convergence.TwoConnectsStart` | src/server.js:78-88 | Two connections to an empty server give a starting state of the convergence theorem |
| `Convergence.QuietStepDecreases` | src/security/peer-session.js:112-138 | Every relaying or delivering step lowers the measure, departures included, whether or not it succeeds |
| `Convergence.HandshakeConverges` | src/security/peer-session.js:112-262 | Without departures every interleaving ends within the measure (at most 14 steps), nobody is ever FAILED, and when nothing is left both are ESTABLISHED on one ID and key |
| `Convergence.NotStuck` | src/security/peer-session.js:149-165 | While anything is left to relay or deliver, a step can be taken |
| `Provenance.StepTraced` | src/server.js:78-178 | In every reachable state each line in flight was written by the client it names, for a session on record, and every part of an inbox between departures by one peer |
| `Provenance.StaleKeyExchangeFails` | src/security/peer-session.js:202-236 | A KEY_EXCHANGE that its signer did not create for this responder's key leaves the responder FAILED |
| `Provenance.FailsExactly` | src/security/peer-session.js:202-262 | In every reachable state, a delivery in which the primitives work makes a client FAILED if and only if it is a waiting responder with a key wrapped for another client, or a waiting initiator with an ACK of another session ID |
| `Sketches.QuietPair` | src/security/peer-session.js:167-262 | A pair with nothing on its way is done on both sides exactly if neither is tangled |
| `ChurnConvergence.DeliverySketched` | src/security/peer-session.js:149-262 | Every delivery is a step of the reduced clients, whatever came before |
| `ChurnConvergence.ConvergesExactly` | src/server.js:78-178 | From every reachable state with both slots taken, whoever came and went: once nothing is left to relay or deliver both clients are ESTABLISHED, on one ID and key, if and only if neither is entangled |
| `Prospects.ProspectExactly` | src/security/peer-session.js:167-236 | What a client will still sign before it has handled its departures, and whether a HELLO goes first, is a matter of one part of its inbox at a time |
| `EntangledQueues.EntangledExactly` | src/security/peer-session.js:102-262 | In every state, a client is entangled if and only if the lines written for it, its peer's HELLO flag, and the parts of the peer's inbox that make the peer sign say so; no client is run forward |
| `EntangledQueues.ConvergesByQueues` | src/server.js:78-178 | From every reachable state with both slots taken: once nothing is left to relay or deliver both clients are ESTABLISHED if and only if, by that reading of the queues, neither is entangled now |
| `EntangledQueues.EntangledInFlight` | src/server.js:142-151 | With no departure left to handle, entangled means FAILED, or that the lines in flight hold a HELLO, or follow one that was heard, and then a signed message of an earlier session |
| `EntangledQueues.RefillExactly` | src/server.js:78-88 | At the moment a slot is refilled, departures left to handle or not: the client that stayed is not entangled; the newcomer is exactly if the other's outbox holds a HELLO followed by a signed message, or a part of its inbox between two departures makes it sign, or the part before the first does and a HELLO is in the outbox or still to be sent |
| `ChurnWitness.ResponderCanFail` | src/security/peer-session.js:202-236 | For every three clients with different keys, a run from an empty server after which the second Client B becomes FAILED |
| `ChurnWitness.InitiatorCanFail` | src/security/peer-session.js:238-262 | For every four clients with different keys, a run from an empty server after which the third Client A becomes FAILED |
| `ChurnWitness.BothRolesCanFail` | src/security/peer-session.js:202-262 | Such clients, keys and draws exist |
| `Adversary.InitiatorAgreement` | src/security/peer-session.js:238-262 | Against any network: if A is ESTABLISHED, some earlier point of the same run had B ESTABLISHED with the same ID and key, which A had wrapped for B's real key |
| `Adversary.ResponderAgreement` | src/security/peer-session.js:202-236 | Against any network: B is ESTABLISHED only with an ID and key that A created and wrapped for B |
| `Adversary.IdNamesOneKey` | src/security/handshake.js:71-101 | A session ID belongs to at most one created key and at most one accepted one |
| `Adversary.ResponderReplay` | src/security/peer-session.js:20-24 | The same HELLO and KEY_EXCHANGE re-establish the same session after the peer left, at any later time |
| `Adversary.ReplayRun` | src/security/peer-session.js:20-24 | From every reachable world with B ESTABLISHED, a leave notice and two messages lead B back to the same session |
| `AdversaryWitness.BothCanBeEstablished` | src/security/peer-session.js:167-262 | From every two clients and every draw, a run with genuine HELLO keys makes both ESTABLISHED on the drawn key and one ID |
| `AdversaryWitness.EstablishedTwice` | src/security/peer-session.js:20-24 | From every two clients and every draw, a run makes both ESTABLISHED on one key, and its continuation makes B ESTABLISHED on it a second time while A stays in its session |
| `AdversaryWitness.BothCanShareASecret` | src/security/peer-session.js:167-262 | Such clients and draws exist, so the premises of agreement and secrecy hold of a run that completes |
| `Secrecy.DeductionRespectsGuards` | src/security/handshake.js:71-101 | No deduction gets at a secret that occurs only under wraps which cannot be opened |
| `Secrecy.AdversaryPowers` | src/security/handshake.js:71-101 | What deduction can do: anything heard or made up, taking apart pairs, signed data and wraps with a known key, and putting such terms together |
| `Secrecy.EstablishedKeysAreSecret` | src/security/peer-session.js:185-232 | Trusting only signing keys, the key of an ESTABLISHED session cannot be deduced from everything ever sent |
| `Secrecy.NoCreatedKeyIsDeducible` | src/security/handshake.js:71-101 | With genuine HELLO keys, no session key ever made, in any epoch, completed or not, can be deduced from everything ever sent |
| `Relaying.OriginalExactly` | src/server.js:129-151 | A line is passed on unchanged if and only if it is a well-formed handshake message naming this slot as sender and the other as recipient, if it has one, and the other slot is taken |
| `Relaying.ChatExactly` | src/server.js:153-168 | A chat message is passed on exactly for a CHAT object with a text that is not blank and a version that is absent or 1, with the other slot taken, under this slot's name, with its text |
| `Relaying.RestGoesBack` | src/server.js:113-156 | Everything else is answered to the socket it came from; a line that is not blank is without an answer exactly when its validation throws |
| `Relaying.AnswersExactly` | src/server.js:113-168 | Each other answer under its own condition: what does not parse, what validation refuses and why, a wrong sender, a wrong recipient, a type that is not taken, and the notice that the peer is away exactly for a line that would be passed on |
| `Relaying.FrameLimitExactly` | src/server.js:92-106 | A chunk that makes a frame too large gets one error and closes the connection; any other is cut into lines, and a closing connection is not read |
| `Relaying.ThirdIsTurnedAway` | src/server.js:67-76 | At most two sockets hold slots; a third changes neither and gets one error |
| `RelayRuns.EveryLineHandledOnce` | src/server.js:92-170 | Over every run and for every socket the lines handled are, in order and once each, the non-blank lines of the text it sent, up to the first whose validation throws if there is one; a prefix of them if a frame is too large |
| `RelayRuns.ServerEndsExactly` | src/server.js:92-170 | Over every run the server ends if and only if some socket in a slot, not closing, delivers a line whose validation throws |
| `RelayRuns.UnprintableVersionEndsServer` | src/server.js:120-127 | One chat line whose version is an object with its own `toString` ends the server, whatever comes later |
| `RelayRuns.StepRouting` | src/server.js:108-169 | What a client's line causes was caused by the occupant of a slot and goes to it or to the occupant of the other slot |
| `RelayRuns.RunRouting` | src/server.js:108-169 | Over every run each handled line got exactly its answer, and only handled lines put clients' packets on the wire; a line whose validation throws is not handled |
| `RelayRuns.PresenceCoherence` | src/server.js:81-88 | Over every run the holder of a slot was told its identity first, then PEER_JOINED and PEER_LEFT in turn, and the last one agrees with the other slot |
| `RelayRuns.OneFrame` | src/protocol/message.js:160-173 | A chat frame in any chunks fails at the server if and only if it is more than one byte over the limit, which is if its text and what escaping adds to it are over 65479 bytes |
| `RelayRuns.ChatLineExactly` | src/protocol/message.js:197-199 | The line of a chat message and its exact size, whatever its strings contain |
| `RelayRuns.ChatIsRelayedVerbatim` | src/server.js:158-165 | A chat frame the client finds small enough is delivered, accepted and relayed as the same frame, and delivered again |
| `RelayRuns.RelayedFits` | src/server.js:144-166 | A line the server takes and passes on unchanged fits its receiver; a chat line does if and only if it fits with the server's version and sender in it |
| `RelayRuns.StampedFrameCanOverflow` | src/server.js:158-165 | A foreign chat line of exactly the frame limit is accepted and relayed as a frame no receiver takes |
| `RelayServers.RelayServer.OnConnection` | src/server.js:67-88 | Slot table and writes after a connection are the specified ones; the other slot is untouched |
| `RelayServers.RelayServer.OnData` | src/server.js:92-170 | Buffer, closing flag, writes and whether the server goes down after a chunk are the specified ones, nothing at all when closing |
| `RelayServers.RelayServer.HandleLines` | src/server.js:108-169 | The loop writes one answer for every line that is not blank, in order, up to a line whose validation throws, and reports that |
| `RelayServers.RelayServer.Route` | src/server.js:113-168 | The answer to one line as `AnswersExactly` has it, or none if its validation throws |
| `RelayServers.RelayServer.OnClose` | src/server.js:172-178 | The slot is freed and the peer, if any, told |
| `ClientQueue.WaitingIsInvisible` | src/client.js:46-49 | However the stream is cut and whenever keys get ready, the client does what it would do without any waiting, in the same order: a prefix while keys are generated, all of it otherwise; a line whose validation throws ends it |
| `ClientQueue.RunIsFaithful` | src/client.js:158-182 | Over every run nothing is lost, duplicated or reordered: the queue is what arrived without what was handled, and is empty unless keys are being generated or the process ended, be it by a line whose validation throws |
| `ClientQueue.NothingAfterAssignment` | src/client.js:163-182 | Once key generation starts, drain handles nothing more |
| `ClientQueue.ActionsExactly` | src/client.js:184-214 | Each action under its own condition on the message |
| `ClientQueue.IdentitiesExactly` | src/security/peer-session.js:67-70 | The identities the session class takes, as a list of names |
| `ClientQueue.HandleExactly` | src/client.js:184-214 | What one message does to the client: keys for the assigned name, the end of the process exactly in the two cases that throw, and nothing else |
| `ClientQueue.QueuedExactly` | src/client.js:147-159 | A line is queued exactly if it is not blank and holds a valid message |
| `ClientQueue.ClosesExactly` | src/client.js:137-146 | The client means to close exactly after a chunk that makes a frame too large |
| `ClientQueue.CrashesExactly` | src/client.js:184-215 | The exact condition under which handling a sequence of messages throws: a presence notice before any greeting, an identity the session class refuses, or a sender without a text |
| `ClientQueue.RunCrashesExactly` | src/client.js:137-215 | Over every run, down to the lines: the client crashed if and only if validation of a line throws or handling its messages does |
| `ClientQueue.UnprintableSenderCrashes` | src/client.js:203-209 | A chat message that passes validation and crashes the client that shows it |
| `Startup.ServerNeverCrashesAClient` | src/server.js:67-88 | For every socket that ever connected, working through anything the server wrote to it, a client never calls a session it does not have, never shows what has no text, and its validation never throws |
| `ClientMachines.ClientMachine.OnData` | src/client.js:137-161 | Queue, flags and actions after a chunk are the specified ones, the crash out of validation included |
| `ClientMachines.ClientMachine.Drain` | src/client.js:163-167 | The loop handles messages in order until the queue is empty or keys are needed |
| `ClientMachines.ClientMachine.HandleMessage` | src/client.js:184-215 | The dispatch of one message |
| `ClientMachines.ClientMachine.OnKeysGenerated` | src/client.js:174-181 | What the timer does |
| `ClientMachines.ClientMachine.OnInput` | src/client.js:236-257 | A typed line is sent exactly if the socket is not destroyed, an identity is assigned, it is not blank, its first character after white space is no slash, and its frame, of a stated size, fits; the frame is the chat line of the trimmed text under the own identity |
| `ClientMachines.TrimExactly` | src/client.js:237 | The trimmed text is the one stretch of the line with nothing but white space around it and none at its ends |
| `ClientMachines.TypedTextArrives` | src/client.js:236-257 | Whatever the user types, if the client sends it the server accepts it and relays the same frame to the peer |
| `Simulation.LinesAnswered` | src/server.js:108-169 | A stretch of lines that the client program wrote: none makes validation throw; with a peer present exactly these lines go to it and nothing comes back, without one each is answered by a notice |
| `Wires.LinesExactly` | src/server.js:63-65 | Every line the server writes: the line it got, or its own properties in the order of their factory |
| `Simulation.DrainActs` | src/client.js:163-215 | Working off a queue, session calls and sends included, is a run of deliveries of `HonestNetwork` |
| `Simulation.ServerSimulates` | src/server.js:92-170 | The server reading the next characters of a stream is a run of relay steps of `HonestNetwork` |
| `Simulation.ReadsSimulates` | src/client.js:137-215 | A client reading the next characters of a stream is a run of deliveries |
| `Programs.StepSimulates` | src/server.js:67-178 | Every step of the programs is a run of `HonestNetwork` between the states they stand for, and keeps every line on the way one that its reader takes |
| `Programs.ProgramsRefine` | src/server.js:67-178 | Every run of the programs from an empty server, in pieces of any size and whatever the users type, stands for a run of `HonestNetwork`; the server stays up, no frame is too large, no client crashes |
| `Programs.ProgramsAgree` | src/security/peer-session.js:20-24 | In every state such a run reaches, two ESTABLISHED programs in the slots hold the same session ID and key |
| `Programs.ProgramsComplete` | src/client.js:137-215 | Two programs that connect to an empty server: nobody is ever FAILED, and once nothing is on the way both are ESTABLISHED on one session ID and key |
| `Programs.ProgramsConverge` | src/server.js:78-178 | From every state a run reaches, whoever came and went: once nothing is on the way both are ESTABLISHED if and only if no queue entangled a client |
| `Programs.ProgramsTire` | src/server.js:92-170 | Every piece read and every set of keys that gets ready lowers a well-founded measure, so runs of these steps end |
| `Programs.ProgramsNotStuck` | src/server.js:92-170 | Two programs that are not at rest can go on, if the primitives can serve what a client would do next |
| `Programs.SourceIsGood` | src/server.js:78-178 | The parser of this project and the notices as the server words them are a site of the kind assumed |

## Left out

- RSA, OAEP, PSS, SHA-256, PEM and random generation: idealised by the ledger, `Env` and `Coins`.
- Authenticity of HELLO keys: a hypothesis of the theorems about the adversarial network; the source documents key substitution as not addressed.
- Sockets, timers, backpressure, signals, shutdown, process exit and logging: replaced by connect, data, close and key-ready steps; writes are attempts.
- Raw bytes: `LineBuffer` is stated on decoded text, since the sockets decode UTF-8 chunk by chunk; lone surrogates do not exist in the modelled text.
- JsonText.ParseStringify: flat objects with strings, safe integers, booleans and null; messages have no other fields. The parser is stated only on what the writer writes; other texts reach the programs through their parser parameter. The server, the client and validation take the parser as a parameter, so they cover every line: of a nested value they see its items or its keys, and a number that is no integer stands as `Null`, which no check accepts either. That an engine may run out of stack on a deeply nested line is not modelled.
- Terminal interface, `/status`, `describeHandshake`, diagnostic fingerprints and the wording of errors: no property of interest; errors are constructors.
- Which unexpected field a verdict names: follows property order, so `UnexpectedField` carries no name.
- Canonical.CanonicalizeHandshake: JavaScript prints versions from 10^21 on with an exponent; the model prints all digits. Validated messages have version 1.
- PeerSessions.PeerSession.constructor: the identity is a `Role`, so the TypeError for other names is modelled where the client meets it, in `ClientQueue.TakesIdentity`.
- ClientMachines.ClientMachine.HandleMessage: says which session call is made, not its effect, which is `PeerSession`'s; session and queue are connected by order only.
- ClientMachines.ClientMachine.OnKeysGenerated: the created identity and session are a flag here; the session that follows is `PeerSession`, and its calls are the recorded actions.
- Convergence.HandshakeConverges: two fresh clients and no departures; `ChurnConvergence.ConvergesExactly` covers every reachable state.
- Programs.ProgramsComplete: that the primitives can serve every message along the way is a premise of coming to rest (`ProgramsNotStuck`), as in `Convergence.NotStuck`.
- WholeSystem: clients are the repository's own program; a foreign client in a slot is covered by `RelayRuns`, `ClientQueue` and `Adversary`, each on its own. A client leaves at once, and what it wrote and the server has not read by then is lost.
- Reserved features (REKEY, sequence numbers, encrypted chat): not implemented in the source.
