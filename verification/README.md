# An MQTT broker and client, modelled in Dafny

This project models the core of an MQTT 3.1.1 and MQTT 5 implementation: the
wire format (variable-length integers, MQTT 5 property blocks, packets, framing
over a byte stream), topic filters, packet identifiers and acknowledgement slots,
the QoS 1 and QoS 2 handshakes, and the broker's sessions, subscriptions, Wills
and fanout.

The files, bottom up:

| file | what it holds |
|---|---|
| `Wire.dfy`, `VarInt.dfy` | bytes, fixed-width and length-prefixed fields, variable byte integers |
| `Topic.dfy` | splitting, validation, parse and print of filters, wildcard matching |
| `PropertyFields.dfy`, `Properties.dfy`, `PropertyOrder.dfy` | the 27 properties, their decoder and encoder, round trip and canonical order |
| `Packets.dfy`, `Codec.dfy`, `CodecRoundTrip.dfy` | packets, their bodies as functions on bytes, the round trip |
| `Standard.dfy`, `PropertyStandard.dfy`, `PacketStandard.dfy` | the wire format written out a second time from the standard, and the codec proved equal to it |
| `Framing.dfy`, `Encoders.dfy` | the buffer decoder and the stream reader, chunking, the imperative encoders and the streaming writer |
| `Session.dfy`, `Receiver.dfy` | identifiers, acknowledgement slots, the receiver and the fate of each message |
| `Handshake.dfy`, `Completion.dfy`, `Losses.dfy` | the handshakes end to end, exactly when they complete, where the guarantees end |
| `Subscriptions.dfy`, `Outbound.dfy`, `Fanout.dfy`, `Broker.dfy`, `Server.dfy` | the broker's index against its history, the outbound queue and inflight table, fanout, the broker object, the server's dispatch |
| `Relay.dfy` | from a completed `send_publish` to the subscribers' queues |

Main results:

- **Canonicalisation.** Every property block the decoder accepts is re-encoded
  successfully, as the same records stably sorted by identifier; it comes back
  byte for byte exactly when its records already ascend.
- **Round trip, exactly.** An encoded packet decodes to itself, as far as the
  version carries it, and leaves the following bytes alone, if and only if the
  packet is well formed; no strict prefix is taken for anything; a list of
  packets survives any way of cutting the stream.
- **The wire format is the standard's.** A second description of the format, in
  literal bytes and independent of the codec's own tables, says what every number,
  string, property and packet looks like. The encoders write exactly that, and each
  parser accepts a body as a given packet if and only if the description allows it.
- **Chunking independence** of the incremental decoder, and agreement of the
  two decoders.
- **QoS 1 and QoS 2 end to end.** In every interleaving of tasks, reader, server,
  timeouts and dropped slots within the first 65535 identifiers, a message is
  handed to the server's chain at most once, with its own content, and exactly
  once if `send_publish` completes. All of this is while the connection is up.
- **Exactly when a handshake completes.** A QoS 1 task always completes once the
  links are empty, unless its timer or a drop of its slot disturbs it. A QoS 2
  task always gets past its first wait, and then completes if and only if the
  reader had not yet taken its PUBCOMP when the task installed the slot for it;
  otherwise no continuation completes it. A run in which this happens without any
  loss is shown.
- **Exactly when a message is lost.** In any run, with identifiers reused or not,
  a message the server has handled is lost if and only if the next packet of its
  identifier that the server handles is another PUBLISH. A run past the first
  65535 identifiers in which this happens is shown.
- **The broker refines its history.** After any sequence of operations the
  tree holds a pair exactly when the last event affecting it granted it. The
  session's own filter map differs from the tree on a filter under an exact
  condition on the history. A Will fires exactly when its registration is ended
  by a non-graceful unregister, and at most once.
- **Fanout exactness.** For each connection and QoS the queue grows by as many
  copies as there are due (filter, client) pairs, whatever the order in which the
  maps are walked, and no copy is above the QoS of the publish or of the grant; the
  inflight table is exactly what has been sent and not settled.
- **End to end.** Once `send_publish` of a QoS 2 message has completed, the server
  has handed it to the endpoint chain at one place only; if the chain lets it
  through, it was queued there once for every pair due by the broker's history at
  that moment, whatever other connections did.

A specification function is named after what it yields (`VbiAt`, `Decoded`,
`Grant`); the methods keep the names of the operations they model and are proved
against those functions.

## Model

| member | source | states |
|---|---|---|
| Wire.U32Reads | src/properties.rs:446-458 | the reader returns n exactly when the four big-endian bytes of n stand at the cursor |
| Wire.PrefixedReads | src/codec.rs:768-776 | a length-prefixed field is read exactly where its prefixed bytes stand |
| Wire.TextReads | src/codec.rs:756-766 | the same for text; only valid UTF-8 is read |
| VarInt.ReadVbi | src/properties.rs:392-412 | the loop returns what the closed form says, with the same errors |
| VarInt.WriteVbi | src/properties.rs:415-430 | appends the base-128 digits, or rejects a value above 268435455 |
| VarInt.EncodeRemainingLength | src/codec.rs:201-215 | the same digits, for any value |
| VarInt.DecodeRemainingLength | src/codec.rs:185-199 | value and length, incomplete, or malformed after four continued bytes |
| VarInt.VbiReads | src/properties.rs:392-430 | bijection: the reader accepts at a cursor exactly the encoding of a value of at most 268435455, and returns that value |
| VarInt.VbiPrefixFree | src/properties.rs:415-430 | no encoding is a prefix of another; no two values share one |
| VarInt.VbiLength | src/properties.rs:415-430 | at most four bytes exactly for values up to 268435455 |
| VarInt.RemainingExtendsVbi | src/codec.rs:185-199 | the fixed-header decoder agrees wherever the strict reader accepts |
| VarInt.DecodersAgreeExactly | src/codec.rs:185-199 | where the fixed-header decoder finds an integer, the strict reader finds the same if and only if the last digit is not padding |
| VarInt.RemainingElseVbiFails | src/codec.rs:185-199 | where the fixed-header decoder fails or waits, the strict reader fails |
| VarInt.RemainingAcceptsPadding | src/codec.rs:185-199 | an input on which the two differ: 0x80 0x00 reads as 0 |
| VarInt.RemainingReads | src/codec.rs:201-215 | what the fixed-header encoder writes is read back, or rejected exactly above the maximum |
| Topic.ParseSubscribeFilter | src/topic.rs:26-54 | the patterns of the levels, or the error of the first fault |
| Topic.ValidateSubscribeFilter | src/topic.rs:96-120 | the fast path accepts the same filters as the parser and fails with the same error |
| Topic.ParsePublishTopic | src/topic.rs:59-75 | literal levels that spell the topic, or its fault |
| Topic.ValidatePublishTopic | src/topic.rs:123-136 | the fast path accepts the same topics as the parser and fails with the same error |
| Topic.TopicFaultByBytes | src/topic.rs:123-136 | valid exactly with 1 to 65535 bytes, none 0x2B or 0x23; otherwise the error for empty, too long or wildcard |
| Topic.LevelsAreSlashed | src/topic.rs:26-54 | the levels contain no 0x2F and give the string back when joined by 0x2F |
| Topic.FilterIsStandard | src/topic.rs:96-120 | valid exactly with 1 to 65535 bytes, `+` and `#` alone in their level and `#` last; otherwise the error of the first level that breaks this |
| Topic.PatternsAreStandard | src/topic.rs:26-93 | the pattern of each level, and the level printed for each pattern: `+` for a regular expression |
| Topic.PrintUndoesParse | src/topic.rs:84-93 | printing a parsed filter gives the filter back, for every accepted filter |
| Topic.ParseUndoesPrint | src/topic.rs:84-93 | parsing undoes printing exactly on the printable paths |
| Topic.FilterMatches | src/broker.rs:137-162 | the two-index loop decides the level-by-level match |
| Topic.ValidFilterMatches | src/broker.rs:137-162 | for accepted filters: a prefix of levels, each 0x2B alone or equal byte for byte, with equal length unless 0x23 ends it |
| Topic.DollarTopics | src/broker.rs:137-162 | the matcher departs from section 4.7.2 of MQTT 3.1.1 if and only if a leading wildcard level matches a topic that starts with `$` |
| Topic.DollarWitness | src/broker.rs:137-162 | an input on which it does: filter `#`, topic `$S` |
| Topic.HashMatchesParent | src/broker.rs:137-162 | `a/#` matches `a` |
| PropertyFields.GetPut | src/properties.rs:50-79 | a stored field is read back |
| PropertyFields.GetPutOther | src/properties.rs:50-79 | storing one field leaves the others |
| PropertyFields.Extensional | src/properties.rs:50-79 | blocks that agree on all 27 fields are equal |
| PropertyCodec.RecordReads | src/properties.rs:104-229 | a record is read exactly where its bytes stand, for every identifier and kind |
| PropertyCodec.Parse | src/properties.rs:88-233 | the cursor loop with its seen mask returns what the recursive reading says, with the first error |
| PropertyCodec.CollectSound | src/properties.rs:104-229 | an accepted block is the concatenation of writable records, no optional one twice, stored in order |
| PropertyCodec.CollectComplete | src/properties.rs:104-229 | every such concatenation is accepted |
| PropertyCodec.WriteField | src/properties.rs:300-388 | one identifier and value, or the first field error |
| PropertyCodec.Encode | src/properties.rs:236-243 | length prefix and all records in the table's order, or the first error |
| PropertyOrder.BlockComplete | src/properties.rs:88-99 | every acceptable block is decoded wherever it stands |
| PropertyOrder.BlockSound | src/properties.rs:88-99 | nothing else is decoded |
| PropertyOrder.PropertiesRoundTrip | src/properties.rs:230-243 | whenever encoding succeeds, decoding the bytes in any context gives the block back and stops after it |
| PropertyOrder.PropertiesLocal | src/properties.rs:88-99 | the result depends only on the prefix and the block, never on later bytes |
| PropertyOrder.StableSortUnique | src/properties.rs:300-388 | ascending identifiers with the same values per identifier determine the record list |
| PropertyOrder.Canonicalisation | src/properties.rs:88-243 | for every accepted block, encoding succeeds and writes the same records stably sorted, under the same length prefix |
| PropertyOrder.CanonicalFixpoint | src/properties.rs:88-243 | the block comes back byte for byte exactly when its records already ascend |
| Standard.NumbersAreStandard | src/codec.rs:747-788 | numbers are big-endian, and a field is its two-byte length and its bytes; the packet encoders keep only the low 16 bits of a length |
| Standard.VarintIsStandard | src/properties.rs:415-430 | a variable byte integer is its one to four groups of seven bits, low group first, bit 7 set on all but the last |
| Standard.GroupsRead | src/codec.rs:185-199 | the value read from one to four bytes, as the weighted sum of the groups |
| Standard.GroupsFail | src/properties.rs:392-412 | four continued bytes are malformed to both readers; a cut integer is incomplete to one and an early end to the other |
| Standard.Utf8IsStandard | src/codec.rs:756-766 | a string is accepted if and only if it is the UTF-8 encoding of some sequence of Unicode scalar values |
| PropertyStandard.FaultIsFirst | src/properties.rs:245-298 | validation passes if and only if the eight flags are at most 1, the three limits are not 0, identifiers are in 1..268435455, authentication data has a method and the response topic is valid; otherwise it names the first violation in this order |
| PropertyStandard.EncodesExactly | src/properties.rs:236-388 | encoding succeeds if and only if the values are allowed and every field fits, and writes each property's identifier and bytes as listed, in ascending order under their length |
| PropertyStandard.AcceptsExactly | src/properties.rs:88-233 | decoding accepts a block as given properties if and only if it is a length and records, none but 0x0B and 0x26 twice, whose values are allowed |
| PropertyStandard.RejectsExactly | src/properties.rs:104-229 | after records in order, an identifier that names nothing is reported as unknown and a repeated one as a duplicate |
| PacketStandard.WrittenAsStandard | src/codec.rs:573-741 | every well-formed packet is written as its literal first byte, its length and the body of the second description, both versions |
| PacketStandard.ConnectExactly | src/codec.rs:279-347 | a body is parsed as a given CONNECT if and only if its name, level, flags, keep-alive, Will and credentials stand there in this order |
| PacketStandard.ConnackExactly | src/codec.rs:349-377 | the same for CONNACK, with the code numbers of each version |
| PacketStandard.PublishExactly | src/codec.rs:379-416 | the same for PUBLISH: flag bits, topic, an identifier exactly above QoS 0, block, and the rest as payload |
| PacketStandard.AckExactly | src/codec.rs:418-465 | the same for the four acknowledgements: low nibble 2 for PUBREL and 0 otherwise, identifier, and in version 5 nothing, a reason code, or a reason code and a block |
| PacketStandard.DisconnectExactly | src/codec.rs:221-266 | the same for DISCONNECT, without the identifier |
| PacketStandard.PingExactly | src/codec.rs:221-277 | PINGREQ and PINGRESP are parsed exactly from an empty body |
| PacketStandard.SubscribeExactly | src/codec.rs:467-498 | the same for SUBSCRIBE: at least one entry, with options up to 2, or in version 5 below 0x40, QoS not 3 and retain handling not 3 |
| PacketStandard.SubackExactly | src/codec.rs:500-521 | the same for SUBACK: codes 0 to 2 are grants, 0x80 and in version 5 anything above are failures |
| PacketStandard.UnsubscribeExactly | src/codec.rs:523-537 | the same for UNSUBSCRIBE: at least one topic |
| PacketStandard.UnsubackExactly | src/codec.rs:539-567 | the same for UNSUBACK: no codes in version 3.1.1, a block and the codes in version 5 |
| CodecRoundTrip.ConnectRoundTrip | src/codec.rs:279-347 | CONNECT with its flags, Will and credentials, both versions |
| CodecRoundTrip.PublishRoundTrip | src/codec.rs:379-416 | PUBLISH with its flags, identifier, properties and payload |
| CodecRoundTrip.SubscriptionPacketsRoundTrip | src/codec.rs:467-567 | SUBSCRIBE, SUBACK, UNSUBSCRIBE and UNSUBACK |
| CodecRoundTrip.BodyRoundTrip | src/codec.rs:221-266 | every packet kind: the body decodes to the packet as far as the version carries it |
| CodecRoundTrip.DecodedFits | src/codec.rs:221-266 | whatever is decoded has fields that fit their prefixes, and a PUBLISH identifier exactly above QoS 0 |
| CodecRoundTrip.EmptyListsRejected | src/codec.rs:467-537 | the empty lists that the encoders write are rejected |
| CodecRoundTrip.BodyRoundTripExactly | src/codec.rs:221-266 | the round trip holds if and only if the fields fit and the lists are filled |
| Framing.PacketBuffer.DecodePacketFromBytes | src/codec.rs:54-82 | result and remaining buffer are those of `Decoded`; an incomplete packet consumes nothing, a malformed body consumes its frame |
| Framing.ByteStream.ReadRemainingLength | src/codec.rs:167-183 | the byte-at-a-time loop reads what the slice decoder reads |
| Framing.ByteStream.ReadPacket | src/codec.rs:33-51 | the two decoders agree: same packet, same error; the bytes consumed on success and on every error; where the buffer decoder waits, the stream has ended |
| Framing.DecodedStable | src/codec.rs:54-82 | a packet or error found in a buffer is found in every extension, consuming the same bytes |
| Framing.DecodedErrors | src/codec.rs:54-82 | packet types 0 and 15 and an unending length are errors that consume nothing; an incomplete frame waits; any other is consumed whole with its body's result |
| Framing.ChunkingIndependent | src/codec.rs:54-82 | however a stream is cut, repeated decoding gives the same packets, first error and rest |
| Framing.PacketRoundTrip | src/codec.rs:54-105 | with any trailing bytes, decoding an encoding yields the packet and leaves the rest, if and only if the packet is well formed |
| Framing.PrefixIncomplete | src/codec.rs:54-82 | every strict prefix of an encoding is incomplete |
| Framing.StreamRoundTrip | src/codec.rs:54-105 | any list of well-formed packets, concatenated and cut anywhere, decodes to the list |
| Encoders.ParseSubscribe | src/codec.rs:467-498 | the cursor loop collects the subscriptions of the recursive reading |
| Encoders.ParseUnsubscribe | src/codec.rs:523-537 | the cursor loop collects the topics of the recursive reading |
| Encoders.EncodeConnect | src/codec.rs:573-617 | the buffer built step by step is the frame that the round trip is about |
| Encoders.EncodeConnack | src/codec.rs:619-638 | the same for CONNACK |
| Encoders.EncodePublish | src/codec.rs:640-660 | the same for PUBLISH |
| Encoders.PackPublishFlags | src/codec.rs:731-741 | the flag bits of PUBLISH |
| Encoders.EncodeSubscribe | src/codec.rs:662-676 | the same for SUBSCRIBE |
| Encoders.EncodeSuback | src/codec.rs:678-691 | the same for SUBACK |
| Encoders.EncodeUnsubscribe | src/codec.rs:693-709 | the same for UNSUBSCRIBE |
| Encoders.EncodeUnsuback | src/codec.rs:711-729 | the same for UNSUBACK |
| Encoders.EncodePacket | src/codec.rs:87-105 | every packet is encoded to the bytes that the decoder theorems are about |
| Encoders.PublishHeader | src/codec.rs:122-157 | header plus payload is byte for byte the simple encoding, including the separately computed length |
| Encoders.PacketWriter.WritePublishPacket | src/codec.rs:122-161 | writes exactly the simple encoding, nothing on error; the two succeed together except for QoS above 0 without an identifier |
| PacketIds.Counter.AllocatePacketId | src/session.rs:88-94 | the k-th allocation returns k modulo 65536 with 0 replaced by 1 |
| PacketIds.FirstIdsDistinct | src/session.rs:88-94 | the first 65535 identifiers are distinct |
| PacketIds.IdsCollide | src/session.rs:88-94 | exactly which allocations share an identifier |
| PacketIds.ConsecutiveCollision | src/session.rs:88-94 | allocations 65536 and 65537 both return 1 |
| AckSlots.AckTable.Insert | src/protocol.rs:824-831 | a slot under a taken identifier replaces it and closes the old waiter |
| AckSlots.AckTable.Fire | src/protocol.rs:939-969 | an acknowledgement removes the slot; it wakes the waiter only if the kinds agree |
| AckSlots.AckTable.GiveUp | src/protocol.rs:832-838 | a timeout removes whatever slot the identifier has |
| AckSlots.AckTable.Clear | src/session.rs:102-106 | `abandon` closes every waiter that has a slot |
| AckSlots.ResolvedOnce | src/protocol.rs:824-873 | no later event changes how a waiter was resolved |
| AckSlots.WaiterConserved | src/protocol.rs:824-969 | over any run the outcome of a waiter is the verdict of the first later event that touches it: success only by its own kind and identifier |
| Receiver.ServerConnection.SendPacket | src/channel.rs:199-203 | appends to the queue while the writer runs, and fails without effect after |
| Receiver.ServerConnection.AckInboundPublishPreChain | src/protocol.rs:616-640 | acknowledges and stores before the chain, by QoS; fails exactly when a reply is due and the writer has stopped |
| Receiver.ServerConnection.Receive | src/protocol.rs:517-604 | the connection's own branches of the dispatch; with the writer stopped, a QoS 1 message is not handed on, a QoS 2 one is stored or released, and the reply's failure is returned |
| Receiver.StoredIsUnreleased | src/protocol.rs:578-640 | `qos2_recv` is exactly the unreleased messages, each with its latest content |
| Receiver.HandedIsReleased | src/protocol.rs:517-604 | what is handed on is exactly what the history releases, in order; repeated PUBRELs give nothing |
| Receiver.PublishesConserved | src/protocol.rs:578-640 | per identifier: publishes = deliveries + overwrites + stored, and no more deliveries than PUBRELs |
| Receiver.PostsHanded | src/protocol.rs:517-536 | every QoS 1 PUBLISH is handed on, as often as it arrives |
| Receiver.EveryPhaseAnswered | src/protocol.rs:578-640 | one PUBACK per QoS 1 PUBLISH, one PUBREC per QoS 2 PUBLISH and one PUBCOMP per PUBREL, in order |
| Receiver.RequestsAnswered | src/protocol.rs:504-607 | one PUBREL per PUBREC, in order, and one PINGRESP per PINGREQ |
| Receiver.HandedAtOnce | src/protocol.rs:517-536 | a message of QoS 0 or 1 is handed on unchanged where it arrives; no packet but these and PUBREL hands on anything |
| Receiver.UnsentMeans | src/protocol.rs:578-640 | with the writer stopped: nothing queued, QoS 1 not handed on, QoS 2 stored, a PUBREL still hands its message on with its content |
| Receiver.HandedAtMeans | src/protocol.rs:578-604 | what a PUBREL hands on is the message of one earlier PUBLISH, with its properties, topic, payload, QoS and retain flag, dup cleared and the identifier set, or nothing |
| Receiver.FateExact | src/protocol.rs:578-640 | for any history and each QoS 2 PUBLISH: stored until the next packet of its identifier, handed on once there if that is a PUBREL, lost if and only if it is another PUBLISH |
| Handshake.StepKeeps | src/protocol.rs:841-873 | every step of client, reader, server or timer keeps the invariant while no identifier comes round again |
| Handshake.ExactlyOnce | src/protocol.rs:841-873 | QoS 2, in every run within the first 65535 identifiers: handed on at most once, equal to what was sent field by field, exactly once if completed; while the connection is up, a served message is handed on or stored |
| Handshake.AcknowledgedOnce | src/protocol.rs:822-840 | QoS 1, in the same runs: handed on at most once, equal to what was sent field by field, exactly once if acknowledged |
| Handshake.FiredIsAck | src/protocol.rs:939-956 | the handshake's firing of a slot is the step of the acknowledgement table |
| Handshake.FiredIsDrop | src/protocol.rs:939-956 | and so is its dropping of one |
| Handshake.InstalledIsRegister | src/protocol.rs:841-866 | installing a slot registers the task as its waiter in that table |
| Completion.AnswersCounted | src/protocol.rs:578-640 | the server sends as many PUBACKs, PUBRECs and PUBCOMPs of an identifier as it handles PUBLISHes and PUBRELs |
| Completion.RelRun | src/protocol.rs:341-347 | in any run, for any number of identifiers, each PUBREC heard has exactly one PUBREL, sent or pending |
| Completion.PassesFirstWait | src/protocol.rs:841-857 | once the links are empty, an undisturbed QoS 2 task has gone past its wait for PUBREC |
| Completion.CompletesExactly | src/protocol.rs:841-873 | once the links are empty, an undisturbed QoS 2 task is completed if and only if its PUBCOMP had not been taken when it installed its slot; if it had, no continuation completes it |
| Completion.AcknowledgedWhenQuiescent | src/protocol.rs:822-840 | once the links are empty, an undisturbed QoS 1 task is completed |
| Losses.FateOfTask | src/protocol.rs:578-640 | in any run, for any number of identifiers: a served message is lost if and only if the next packet of its identifier is another PUBLISH; otherwise it is stored or handed on once with its content |
| Losses.IdReuseLosesMessage | src/session.rs:83-94 | a run past the bound in which a launched message is so lost, with no loss on the links |
| Losses.HandshakeCanStall | src/protocol.rs:858-873 | a run in which PUBCOMP is taken before its slot is installed: handed on, links empty, task still waiting |
| Subscriptions.SessionsRefine | src/broker.rs:227-265 | a session exists exactly while a registration is in place, and holds what it gave |
| Subscriptions.TreeRefines | src/broker.rs:99-119 | the tree maps a pair to q exactly when the last event affecting it granted q; its clients have sessions and its filters are valid |
| Subscriptions.FiltersRefine | src/broker.rs:289-326 | a session's own filters are the grants since it registered |
| Subscriptions.FiltersWithinTree | src/broker.rs:289-326 | they are in the tree with equal QoS, and are all of it unless the session was registered without clean session over a live one |
| Subscriptions.MapsDifferExactly | src/broker.rs:227-255 | the two maps differ on a filter if and only if it was inherited and has not been touched since |
| Subscriptions.InheritedSubscription | src/broker.rs:227-255 | such a difference occurs |
| Subscriptions.WillFiresExactly | src/broker.rs:257-285 | a registered Will fires exactly at the first later registration event of its client, if that is a non-graceful unregister |
| Subscriptions.WillHasOrigin | src/broker.rs:257-285 | whenever a Will fires it is that of the registration in place |
| Subscriptions.WillFiresOnce | src/broker.rs:257-285 | each registered Will fires at most once |
| Subscriptions.DepartedHasNoSubscriptions | src/broker.rs:259-265 | after an unregister the client is in no subscriber set |
| Outbound.InflightIsOutstanding | src/broker.rs:349-361 | over any run, whoever else draws identifiers, the inflight table holds exactly the outstanding publishes, each under its own identifier |
| Outbound.ReceivingIs | src/channel.rs:199-203 | the queue takes packets exactly until the writer stops |
| Outbound.InflightWithinFirstIds | src/broker.rs:383-393 | within the first 65535 identifiers of the connection: in the table exactly when sent and not acknowledged or abandoned since, with the publish that was sent under it |
| Outbound.DeliveredAllQueue | src/broker.rs:348-377 | several deliveries append their copies in order and allocate consecutive identifiers |
| Outbound.DeliveredAllTable | src/broker.rs:350-358 | they add exactly the allocated identifiers to the table and change nothing else in it |
| Outbound.CopiesShape | src/broker.rs:363-372 | each copy: same topic, payload and properties, dup and retain cleared, identifier exactly above QoS 0 |
| Fanout.FanAllAt | src/broker.rs:337-378 | each connection sees only its own deliveries, in order |
| Fanout.MatchingMeans | src/broker.rs:137-162 | a held filter matches a topic exactly level by level, `+` for one level and a final `#` for the rest |
| Fanout.FanoutExact | src/broker.rs:337-378 | in every reachable index, for each connection and QoS the queue grows by as many copies as pairs are due by the history; a pair is due at the lesser of the QoS published and granted, so no copy is above either |
| Fanout.NothingDue | src/broker.rs:337-347 | a connection for which nothing is due is left as it was |
| Fanout.OrderIrrelevant | src/broker.rs:122-133 | the order in which the maps are walked does not change the counts |
| Fanout.WillSkipsDeparted | src/broker.rs:259-281 | a Will is never due to the client whose departure published it |
| BrokerState.Broker.RemoveClient | src/broker.rs:115-119 | the client leaves every subscriber set and nothing else changes |
| BrokerState.Broker.MatchingTargets | src/broker.rs:122-133 | every matching pair once, with its QoS, in some order |
| BrokerState.Broker.RegisterSession | src/broker.rs:227-255 | one Register event; session present exactly when not clean and a registration was in place |
| BrokerState.Broker.UnregisterSession | src/broker.rs:259-285 | one Unregister event; the Will of the registration in place is fanned out exactly when it fires, with its topic, payload, QoS and retain flag |
| BrokerState.Broker.Subscribe | src/broker.rs:289-316 | one Subscribing event; a code per filter, granted exactly for a valid filter of a registered client |
| BrokerState.Broker.Unsubscribe | src/broker.rs:318-326 | one Unsubscribing event |
| BrokerState.Broker.Publish | src/broker.rs:337-378 | the loop over the targets is the fanout, and extends each connection's trace by its own deliveries |
| BrokerState.Broker.InstallSlot | src/protocol.rs:799-831 | an operation on a connection draws the next identifier of its counter and registers a waiter under it |
| BrokerState.OnlyPubackSucceeds | src/broker.rs:383-393 | in every reachable broker a waiter for anything but PUBACK never succeeds, for PUBCOMP fires as PUBACK |
| BrokerState.Broker.AckOutbound | src/broker.rs:383-393 | settles the identifier on the connection that the client's session is bound to; a waiting slot leaves its table and succeeds only if it waits for PUBACK |
| BrokerState.Broker.CloseChannel | src/channel.rs:100-110 | the first close abandons inflight publishes and waiting slots; later ones change nothing |
| Server.RunServerChainThenDecideFanout | src/protocol.rs:728-770 | the last endpoint's message, unless some endpoint failed or suppressed it; dup and identifier are kept |
| Server.ChainedMeans | src/protocol.rs:728-770 | each endpoint sees what the one before left, its changes carried but for dup and identifier; the last message is fanned out if and only if every endpoint succeeded and none suppressed it |
| Server.IndexEventsMean | src/protocol.rs:536-560 | after UNSUBSCRIBE the client holds none of the packet's topics; after SUBSCRIBE a registered client holds each valid filter with the QoS last asked for; other clients and filters are untouched |
| Server.AfterAckMeans | src/broker.rs:383-393 | an acknowledgement takes its identifier out of the table of the client's connection and changes nothing else |
| Server.TracksStep | src/protocol.rs:504-607 | every packet keeps the connection's state equal to what its history says |
| Server.Handler.ReceiveAndFanOut | src/protocol.rs:517-604 | reply, or its failure once the writer has stopped, and the fanout of what the chain lets through |
| Server.Handler.Close | src/channel.rs:100-110 | the first close also drops the stored QoS 2 messages; what was handed on and answered stays |
| Server.Handler.DispatchServerInbound | src/protocol.rs:504-607 | reply, index operation, acknowledgement and fanout of each packet, and its error; over any history the broker is given exactly what the chain lets through of the messages handed on |
| Relay.CompletedHandedOnce | src/protocol.rs:578-604 | the server has handed on the message of a completed QoS 2 task at one place, as its own |
| Relay.FanQueues | src/broker.rs:337-378 | a fanout queues copies on every running connection, for each QoS as many as pairs are due there by the history |
| Relay.BoundAlways | src/broker.rs:227-255 | after every log each session's connection exists |
| Relay.CompletedIsQueued | src/protocol.rs:578-604 | in every log of a server that has handled what the client sent: the message of a completed `send_publish` is handed to the chain at one place only, and if let through is queued there once for every due pair |

## Left out

- Sockets, tasks, `select!`, timers, keep-alive and the writer actor (`src/channel.rs:223-256`): a timeout is a step that may happen at any time, a write is an append to a queue.
- Locking and interleavings inside one broker operation: each operation is an atomic step. Two connections that share a client identifier are covered only as far as their operations come one after the other.
- Endpoint routing and the endpoints themselves: the matched endpoints are an arbitrary list of functions of the message.
- Authentication, client configuration, `build_connect`, context accessors, error display: easy members only.
- CONNECT handling in `handle_server`, including the identifier made up for an empty one; so the empty source of a Will skips a client only if one was registered under the empty identifier.
- The client's own dispatch of inbound PUBLISH and PUBREL, which repeats the receiver without a broker.
- Retransmission, persistent sessions and liveness: not implemented by the system.
- The field names carried by length errors.
- Straight-line parsers (CONNECT, CONNACK, PUBLISH, acknowledgements, SUBACK, UNSUBACK) are functions of the bytes; the cursor they advance in place is their second result.
- Connections are numbered and their queues kept in one map of the broker, in place of shared references.
- BrokerState.Broker.Publish: ends at the queue in front of each writer; a copy queued after a connection is closed and before its writer stops may never be written.
- Relay.CompletedIsQueued: is about the server connection while its writer runs and it is not closed, and only about QoS 2.
- Handshake.ExactlyOnce: a close of the connection, which clears the server's stored messages, ends the run; past the 65535th identifier `Losses.FateOfTask` takes its place, without the claim about completion.
- Server.Handler: the queue for its own replies and the queue for publishes fanned out to it are kept apart; in the source they are one.
