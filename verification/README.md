# A verified model of VolantMQ's core

VolantMQ is an MQTT 3.1, 3.1.1 and 5.0 broker. This project models the four parts of it that carry the
hard promises and proves those promises about the model. `dafny verify dfyconfig.toml` checks the whole
project.

* **Topics** (`TopicMatch`, `TopicModel`, `NoLocal`, `Answers`, `TopicTrie`). One mutable tree with parent
  pointers holds subscriptions and retained messages. Every operation on it is proved to do what the same operation does
  on two flat maps, and every search to answer exactly what the flat maps answer: no match missed, none
  added, none repeated, and always in the order the flat maps fix. `TopicMatch` states the broker's match
  rules on their own, and how far they are from section 4.7 of MQTT 3.1.1 and from each other; `NoLocal`
  states what No Local should do to merged subscriptions and when it does; `Answers` states what publishing and
  subscribing owe a client in terms of the options byte and the clock alone.
* **Codec** (`Wire`, `Utf8`, `Properties`, `PropertyForms`, `PropertyBlock`, `Packets`, `PacketRoundTrip`,
  `PacketSoundness`, `PacketWriter`, `Messages`, `Framing`, `Versions`, `Spelling`, `Layout`, `Refusals`,
  `Replies`). Size, bytes and reading are three separate definitions. They are proved to agree for the variable byte integer, length-prefixed bytes, the
  property block with values in every form the encoders take and in whatever order its map is
  enumerated, the whole CONNECT, PUBLISH, SUBSCRIBE, PUBACK, PUBREC, PUBREL and PUBCOMP packets, and
  streams of them that arrive in chunks of any size; whatever the decoder accepts is proved lawful, and it is
  proved exactly when it can be encoded again and when a PUBLISH of one version is read in another.
  A property value may have several forms, such as one number or a list of one; reading back gives its
  *normal form*, and nothing else of a packet changes. `Spelling` and `Layout` spell the wire forms out by number
  and bit, after the tables of MQTT 5.0, and prove that the codec's are these; `Refusals` says which bytes are
  refused with which error, and `Replies` which bytes the broker answers with.
* **Delivery** (`FlowControl`, `Interleaving`, `WakeUp`, `Delivery`, `Conservation`, `Inbound`, `Persistence`,
  `Survival`, `Connection`). `Interleaving` is one transmitter and one receiver working side by side, one
  atomic access at a time, and `WakeUp` how the transmitter is started and stopped beside them;
  `Delivery` is the protocol at QoS 1 and 2 with callbacks as steps, across any number of connections of any
  version; `Conservation` proves of it that no message is lost, repeated or overtaken on its way out, as long
  as what was saved is read back; `Inbound` is the receiving side of QoS 2; `Persistence` saves the queues as
  encoded packets and loads them again for a connection of any version, and `Survival` proves over whole runs
  that messages survive this as often as the versions allow; `Connection` has the
  methods themselves, each proved equal to its step.
* **Sessions** (`SessionLife`, `LiveSession`, `Sessions`, `Takeover`, `Shutdown`, `SessionManager`). A will delay and a
  session expiry share one timer, and a count of live sessions is kept across takeover, expiry and shutdown,
  with the steps of setting up a connection one by one.

Code that changes things in place is modelled by classes and methods with loops (`TopicTrie.Provider`,
`PropertyBlock.Block`, the encoders, the packet objects of `Messages`, `Framing.Receiver`,
`Connection.Conn`, `LiveSession.Session`, `SessionManager.Manager`); each method is proved against a function, and the promises are proved about
those functions over all inputs and all runs.

## What turned out not to hold

Each of these is proved with the exact condition under which the code does what it should.

* Live search does not let `#` match when the next topic level is empty, which section 4.7.1.2 of MQTT
  3.1.1 allows (`TopicMatch.LiveVersusStandard`); retained search does (`TopicMatch.RetainedVersusLive`).
* With overlapping subscriptions merged, a subscription that No Local excludes still widens the entry when
  live search comes to it after the one that opens the entry, and adds its identifier or its higher QoS; what
  is published is what No Local prescribes exactly if that does not happen
  (`NoLocal.PublishedAsPrescribedExactlyIf`, `NoLocal.EntryWidened`).
* A retained message that a search drops because it has expired can leave an empty node in the tree
  (`TopicTrie.Provider.RetainSearch`).
* A retained message is dropped when less than a whole second is left, and, because the count of seconds is cut to
  32 bits, also in one second of every 2^32 before that (`Answers.ExpiredByClock`).
* The table of properties differs from that of MQTT 5.0 in exactly four entries (`Spelling.CarriedIsAllowed`): the
  will delay stands among the properties of CONNECT, a session expiry is not known in CONNACK, and user properties
  are refused in SUBSCRIBE and UNSUBSCRIBE.
* A version 5 client whose message is denied is answered with reason 0x98, which is not one for PUBACK or PUBREC, so
  the answer is malformed (`Replies.ReplyRead`, `Replies.DenialUnreadable`).
* A version 5 acknowledgement without properties is read to the end of the buffer, not of the packet, and
  a CONNECT with properties decoded for an earlier version fails (`PacketRoundTrip.PacketsThatDoNot`).
* Of several subscription identifiers, as a client with overlapping subscriptions gets them, the reader keeps
  the last (`PropertyForms.LastIdentifierSurvives`), and the length it keeps is then too long
  (`PropertyForms.NormalMeasuredExactlyIf`). The length kept for a block that was read is right exactly if the
  block was written without overlong numbers and without a second identifier
  (`PacketSoundness.LengthKeptRightExactlyIfTidy`).
* A list of binary values is written but not counted, and a string too long for its prefix is counted but not
  written (`PropertyForms.LengthRightExactlyIf`).
* A PUBLISH written in one version is read in another as the same message exactly if both are version 5 or
  neither is (`Versions.SameMessageExactlyIfCompatible`). The copy made for a subscriber keeps the publisher's
  version (packet/publish.go:67-70, whose comment asks for the session's), so a client can be sent, and a queue
  can hold, messages it cannot read: a 3.1.1 message saved on a version 5 connection comes back without its
  payload (`Survival.MessageDamaged`).
* An empty property block is not written: the byte for it is whatever the buffer held
  (`PropertyBlock.Block.Encode`). Encoding is right because the buffer is fresh (`PacketWriter.Encode`).
* A stream that fails inside a packet and goes on later is read from the packet's first byte again, so
  what had arrived is lost (`Framing.ResumedReadStartsOver`).
* The send quota stays non-negative exactly if fewer packets are restored than it allows
  (`Interleaving.SafeExactlyIfFewerRestored`).
* A PUBREC for anything but a packet sent and not acknowledged breaks the accounting, always
  (`Delivery.PubrecKeepsExactlyIfKnown`).
* Releasing an identifier before erasing its record can erase the record of the next packet that gets it
  (`Interleaving.OnlyLateEraseOrphans`, `Interleaving.RecordLost`).
* Without OfflineQoS0, saving a QoS 0 message fails (`Connection.Conn.Persist`).
* A message pushed after the transmitter has found nothing to send and before it has said that it stops is left
  without a transmitter, exactly then (`WakeUp.FineExceptWhenMissed`, `WakeUp.MissedStalls`,
  `WakeUp.MessageStalls`).
* A session that is stopped, by takeover or shutdown, publishes its will exactly if it has no delay or ends with the
  connection; a will that should wait is lost (`SessionLife.StopPublishesExactlyIf`).
* A connect that was overtaken can hide a live session from the map, and shutdown then waits for it
  (`Sessions.TrackedExceptWhenOvertaken`, `Sessions.SessionLost`).
* Shutdown stops a session safely exactly if its connection is not being set up, or is allocated, when the stop
  waits for its start (`Shutdown.HaltSafeExactlyIfNotJoining`, `Shutdown.HaltAllocatedWaits`). Before that it
  runs into a nil pointer on a new session (`Shutdown.HaltNewCrashes`) and leaves the count one short on one
  that was switched back (`Shutdown.HaltClaimedShort`, `Shutdown.HaltConfiguredTwice`).

## Model

| member | source | states |
|---|---|---|
| `TopicMatch.JoinSplit` | topics/mem/node.go:100-105 | splitting a topic at its separators loses nothing: joining gives it back |
| `TopicMatch.ValidTopicIsWildcardFree` | packet/packet.go:258-262 | a topic the codec accepts has no wildcard level |
| `TopicMatch.LiveVersusStandard` | topics/mem/node.go:165-198 | the rule of live delivery is that of section 4.7 of MQTT 3.1.1 less exactly the `#` against an empty next level |
| `TopicMatch.RetainedVersusLive` | topics/mem/node.go:236-306 | whatever live delivery matches, retained search finds; the only extra finds are a leading `+` against a `$` topic and a non-leading `#` against an empty next level |
| `TopicMatch.SearchExact` | topics/mem/node.go:165-198 | over any tree, live search visits each node whose path matches the topic exactly once and no other node |
| `TopicMatch.WalkHitsIsRetainedMatch` | topics/mem/node.go:236-260 | the level-by-level walk of retained search reaches exactly the topics its rule names |
| `TopicMatch.WildcardsSpelled` | topics/mem/node.go:165-198 | `#` alone reaches the topics whose first level is neither empty nor starts with `$`, `+` alone those of one level, live delivery without those that start with `$`; a topic reaches itself |
| `TopicMatch.WalkAscends` | topics/mem/node.go:165-186 | live search comes to the filters in ascending order: at the first level where two differ `#` before the level itself and that before `+`, and the shorter of two that agree first |
| `TopicModel.OrderAscends` | topics/mem/node.go:165-198 | so a client's matching subscriptions come in that order whatever the tree |
| `TopicModel.SearchAnswers` | topics/mem/node.go:165-198 | what a search through the tree collects for a subscriber is what its matching entries of the flat table give, each once, whatever other nodes there are, in an order that table and topic fix |
| `TopicModel.OneEntryPerSubscription` | topics/mem/node.go:327-338 | in non-overlapping mode the entries correspond one to one to the matching subscriptions that No Local does not exclude, each with its own options, QoS and identifier |
| `TopicModel.MergedEntry` | topics/mem/node.go:308-325 | in overlapping mode a subscriber gets one entry with the highest granted QoS and all nonzero identifiers from the first subscription that No Local lets through, or none |
| `TopicModel.MergedOrderIrrelevant` | topics/mem/node.go:19-32 | where No Local does not apply, QoS and identifiers of the merged entry do not depend on the order of the visits |
| `NoLocal.PrescribedExactlyIfNotWidened` | topics/mem/node.go:308-325 | for subscriptions visited in any order: the merged entry is the merge of those No Local does not exclude exactly if no excluded one behind the one that opens the entry has an identifier or a QoS above all that are not excluded |
| `NoLocal.PublishedAsPrescribedExactlyIf` | topics/mem/node.go:165-186 | the same for what live search publishes, in the order of its walk |
| `NoLocal.EntryWidened` | topics/mem/node.go:308-325 | subscriptions to `a` at QoS 0 and, with No Local, to `+` at QoS 2: the client gets its own message on `a` at QoS 2 instead of 0 |
| `Answers.GatheredIsOwed` | topics/mem/node.go:308-338 | by client and bit 2 of the options byte alone: when another client publishes, every matching subscription counts; when the client publishes itself, kept apart those without the bit, merged those from the first without it on, in ascending order; each entry has the options, QoS and nonzero identifiers of its subscriptions |
| `Answers.ExpiredByClock` | packet/publish.go:48-63 | a message without expiry or with at least a whole second left is kept and one with less is not, except that in one second of every 2^32 seconds it is not kept either |
| `TopicModel.MaxGranted` | topics/mem/node.go:308-325 | the QoS of a merged entry is an upper bound of the granted ones and one of them |
| `TopicModel.AliveTopics` | topics/mem/node.go:279-298 | the retained messages collected are those of the unexpired topics seen, each once |
| `TopicModel.RetainedAnswerOf` | topics/mem/node.go:262-306 | seeing each matching topic once gives each unexpired match once and drops exactly the expired ones |
| `TopicTrie.Provider.constructor` | topics/mem/node.go:51-65 | a new tree is well linked, has no empty node and holds nothing |
| `TopicTrie.Provider.LeafInsertNode` | topics/mem/node.go:67-82 | the node of the path exists afterwards, all links are right and no answer has changed |
| `TopicTrie.Provider.LeafSearchNode` | topics/mem/node.go:84-98 | finds the node of the path exactly if there is one |
| `TopicTrie.Provider.SubscriptionInsert` | topics/mem/node.go:100-119 | the tree holds what the flat table holds after the same insertion, says whether the subscription was there, and stays linked and pruned |
| `TopicTrie.Provider.Prune` | topics/mem/node.go:142-163 | pruning changes no answer, removes and reports exactly the empty nodes, and leaves none behind |
| `TopicTrie.Provider.SubscriptionRemove` | topics/mem/node.go:121-163 | the flat table after the same removal; found exactly if it was there; reports the removed nodes; leaves no empty node |
| `TopicTrie.Provider.RetainInsert` | topics/mem/node.go:200-206 | only this topic's retained message changes; the tree stays linked and pruned |
| `TopicTrie.Provider.RetainRemove` | topics/mem/node.go:208-234 | only this topic's retained message goes; the tree stays linked and pruned |
| `TopicTrie.Provider.Retain` | topics/mem/topics.go:204-225 | a payload stores, an empty payload clears, no other topic changes |
| `TopicTrie.Provider.GetSubscribers` | topics/mem/node.go:308-338 | one visit adds what one filter of the flat table adds, and acquires a subscriber as often as it adds an entry |
| `TopicTrie.Provider.SubscriptionRecurseSearch` | topics/mem/node.go:165-186 | the recursion collects from the nodes the match rule names, in order, with every acquire accounted for |
| `TopicTrie.Provider.SubscriptionSearch` | topics/mem/node.go:188-198 | so does the search from the root, where a `$` level is only taken literally |
| `TopicTrie.Provider.Publish` | topics/mem/topics.go:238-259 | every subscriber is handed exactly the one list of entries that the flat table prescribes, which is what is owed by client, options byte and match alone, and is released as often as it was acquired |
| `TopicTrie.Provider.GetRetained` | topics/mem/node.go:279-298 | the retained message of a node is returned if it has not expired and dropped if it has |
| `TopicTrie.Provider.AllRetained` | topics/mem/node.go:300-306 | everything retained at or below a node, each once |
| `TopicTrie.Provider.RetainRecurseSearch` | topics/mem/node.go:236-260 | what the filter reaches below a node, each once |
| `TopicTrie.Provider.RetainSearch` | topics/mem/node.go:262-277 | each unexpired retained message whose topic matches exactly once; matching expired ones are dropped and nothing else changes, by the expiry times and the clock; no empty node is left exactly if every dropped topic's node has subscribers or children |
| `TopicTrie.Provider.NodesAreThePrefixes` | topics/mem/node.go:142-163 | in a pruned tree the nodes are the root and the prefixes of what it holds, no more |
| `TopicTrie.Provider.Subscribe` | topics/mem/topics.go:104-120 | the flat table after the subscription, that is this one subscription with the QoS of bits 0 and 1 of its options and no other changed; the retained messages exactly when bits 4 and 5 ask for them |
| `TopicTrie.Provider.Unsubscribe` | topics/mem/topics.go:122-127 | the flat table after the removal, that is without the subscriptions at this filter of the one client or of all; found exactly if there was something to find |
| `TopicTrie.Provider.Run` | topics/mem/topics.go:104-127 | over every run of subscribe, unsubscribe, retain and clear the tree is the flat maps after the same run; without expiry it stays pruned |
| `Wire.ReadUvarint` | packet/header.go:285-299 | the loop on a 32-bit accumulator returns the number its base-128 digits spell, or refuses |
| `Wire.UvarintCalc` | packet/header.go:301-308 | the number of base-128 digits |
| `Wire.UvarintBound` | packet/header.go:285-299 | whatever is read is below 2^29 and took at most five bytes |
| `Wire.VarintRoundTrip` | packet/header.go:285-308 | reading undoes writing, whatever follows, exactly below 2^29, in at most four bytes for MQTT's range; larger numbers are refused |
| `Wire.PutUvarint` | packet/header.go:100-122 | writes exactly those digits and touches nothing else |
| `Wire.LPRoundTrip` | packet/routines.go:27-48 | length-prefixed bytes read back as themselves, whatever follows |
| `Wire.WriteLP` | packet/routines.go:51-69 | writes prefix and bytes exactly if they fit prefix and buffer, and otherwise changes nothing |
| `Wire.BigEndianRoundTrip` | packet/property.go:636-662 | two- and four-byte numbers read back as themselves |
| `Utf8.ValidExactlyIfChars` | packet/property.go:678-690 | the byte scanner accepts exactly the encodings of sequences of Unicode scalar values of RFC 3629 |
| `Spelling.NumbersRead` | packet/property.go:636-662 | numbers stand on the wire most significant byte first |
| `Spelling.DigitsRead` | packet/header.go:285-308 | and lengths as MQTT's variable byte integer, case by case for one to four bytes |
| `Properties.ItemLength` | packet/property.go:478-622 | an item takes as many bytes as its calculated length |
| `Properties.DecodeBody` | packet/property.go:624-737 | an item of any type reads back as itself, whatever follows |
| `Properties.LoopConsumes` | packet/property.go:413-445 | if the loop succeeds it has consumed exactly what was declared, though its 32-bit counter may wrap below zero on the way |
| `Properties.BlockConsumesDeclaredLength` | packet/property.go:400-448 | on every buffer of legal size reading a block ends, stays within the buffer, and if it succeeds has taken exactly the declared length |
| `Properties.ValueStored` | packet/property.go:624-901 | a property written in any form the encoders take and read back is stored in its normal form: a list of one as its element, a single pair as a list of one, user property lists as they are |
| `Properties.BlockRoundTrip` | packet/property.go:400-476 | for every order in which the map is enumerated and every form of its values: the bytes are the prefix and the sum of the calculated lengths, and reading them gives the map in its normal form |
| `PropertyForms.LengthRightExactlyIf` | packet/property.go:478-622 | what is written for a value of any form is as long as was calculated exactly if it is not a list of binary values and its strings fit their prefix |
| `PropertyForms.NormalTwice` | packet/property.go:624-737 | the normal form reads back as itself |
| `PropertyForms.LastIdentifierSurvives` | packet/property.go:664-676 | of a list of subscription identifiers exactly the last is read back |
| `PropertyForms.NormalMeasuredExactlyIf` | packet/property.go:413-445 | the length a block had is right for what is read back exactly if there was at most one subscription identifier, and otherwise too long |
| `PropertyForms.BlockReadsOrIsRefused` | packet/property.go:400-476 | values of any form in any order: the block is refused exactly if a property that may not be repeated is written more than once, and otherwise reads back in its normal form |
| `Properties.SetOnceMeasured` | packet/property.go:337-350 | setting a property that was not set keeps the stored length equal to the length of the block in any order |
| `PropertyBlock.Block.Set` | packet/property.go:337-350 | refuses unknown and misplaced identifiers, otherwise stores the value and adds its length on 32 bits; keeps the length right for one that was not set |
| `PropertyBlock.EncodeItem` | packet/property.go:739-901 | writes identifier and value and nothing else; of a string too long for its prefix, only the identifier |
| `PropertyBlock.EncodeBlock` | packet/property.go:450-476 | writes the length that is kept, right or wrong, and the values in some order of the map, or refuses a short buffer; an empty block writes nothing |
| `PropertyBlock.KnownLengthHasRoom` | packet/property.go:327-335 | a length that is right is room enough for every order, and what is written behind it is the block of the map |
| `PropertyBlock.Block.Encode` | packet/property.go:450-476 | the same for the object; if its length is right, what it writes is the block that reads back |
| `PropertyBlock.Block.Decode` | packet/property.go:400-448 | the loop with its wrapping counter ends and fills the object with what reading the block yields |
| `Spelling.PropertySpelled` | packet/property.go:739-901 | every property by its number with a value of the type MQTT 5.0 gives it: the bytes are the identifier and one byte, two or four bytes, base-128 digits, prefixed bytes or two of these |
| `Spelling.BlockSpelled` | packet/property.go:450-476 | a whole block is its length and these bytes, in the order of the map |
| `Spelling.CarriedIsAllowed` | packet/property.go:183-231 | the packets that may carry each property are those of MQTT 5.0, by packet, but for four entries |
| `Spelling.PropertyRead` | packet/property.go:400-448 | those bytes in a packet of any type are read to that value exactly if the packet may carry the property, and refused as malformed otherwise |
| `Spelling.RefusedIdentifier` | packet/property.go:413-428 | a block that starts with a property the packet may not carry, known or not, is refused as malformed |
| `Spelling.TwiceRead` | packet/property.go:413-428 | the same property twice is a protocol error except for user properties and the identifiers of a PUBLISH |
| `Packets.Size` | packet/header.go:129-137 | a size is given only for a legal remaining length |
| `PacketRoundTrip.PropsRoundTrip` | packet/property.go:400-476 | the block of a packet reads back in its normal form with its length; without a map to store into, exactly if it is empty |
| `PacketRoundTrip.PublishRoundTrip` | packet/publish.go:246-419 | a valid PUBLISH takes as many bytes as its size and reads back with its properties in normal form, whatever follows |
| `PacketRoundTrip.AckRoundTrip` | packet/puback.go:63-135 | an acknowledgement does so when it ends the buffer; with something behind it, exactly if it is not a version 5 one without properties |
| `PacketRoundTrip.SubscribeRoundTrip` | packet/subscribe.go:76-184 | a valid SUBSCRIBE does so, whatever follows |
| `PacketRoundTrip.ConnectRoundTrip` | packet/connect.go:235-540 | a valid CONNECT does so exactly if there is a map for its properties or it has none |
| `PacketRoundTrip.HeaderRoundTrip` | packet/header.go:224-274 | the fixed header of a valid packet is read as it was written |
| `PacketRoundTrip.PacketsRoundTrip` | packet/packet.go:200-253 | every valid packet of these kinds in versions 3.1, 3.1.1 and 5.0: as many bytes as its size says, and decoding them returns the packet, its properties in normal form, and that number |
| `Versions.SameMessageExactlyIfCompatible` | packet/publish.go:246-419 | every valid PUBLISH, written in one version and read in another, comes back as the same message exactly if both are version 5 or neither is; in any case with its topic, flags and identifier |
| `Versions.SampleDamaged` | packet/publish.go:65-71 | a 3.1.1 PUBLISH that version 5 reads without its payload |
| `PacketRoundTrip.PacketsThatDoNot` | packet/puback.go:63-90 | the two conditions are needed: outside them a valid packet never reads back as itself |
| `Layout.PacketSpelled` | packet/packet.go:200-211 | every valid packet, byte by byte: the number of its type and its flags, its length, and its fields in the places and under the connect flags that MQTT gives them |
| `Layout.InOrderExactly` | packet/packet.go:214-253 | the packets called valid are those that obey the rules of their type, by numbers and bits |
| `Layout.AcceptedInOrder` | packet/packet.go:214-253 | on every buffer, an accepted packet obeys them |
| `Refusals.HeaderRefused` | packet/header.go:224-274 | an empty buffer, an invalid type, wrong flags and QoS 3 are refused, each with its error |
| `Refusals.PacketCutShort` | packet/header.go:224-274 | a packet of which bytes are missing is refused for that |
| `Refusals.PublishRefused` | packet/publish.go:246-356 | QoS 3, a duplicate of QoS 0, a missing and a bad topic are refused, in this order and each with the error of its version |
| `Refusals.NoTopicRefused` | packet/publish.go:246-356 | in version 5 neither topic nor alias is a protocol error |
| `Refusals.PayloadRefused` | packet/publish.go:246-356 | so is, as malformed, a payload that is cut short |
| `Refusals.AckRefused` | packet/puback.go:63-90 | a reason that is none for its type is malformed in version 5; before, what follows the identifier is not looked at |
| `Refusals.IdCutShort` | packet/puback.go:63-90 | an identifier of which a byte is missing is read with zeros in its place |
| `Refusals.FilterRefused` | packet/subscribe.go:76-137 | a filter that is not text, has no options byte, or whose options are reserved or ask for QoS 3, is refused, each with its error |
| `Refusals.NoFilters` | packet/subscribe.go:76-137 | a SUBSCRIBE without filters is refused, with the error of its version |
| `Refusals.NameRefused` | packet/connect.go:321-350 | a protocol name that is not text, or not that of the level behind it, is refused |
| `Refusals.FlagsRefused` | packet/connect.go:321-420 | connect flags that break a rule are refused, each with the error of its version |
| `Refusals.ClientRefused` | packet/connect.go:400-487 | an empty client identifier without a clean session and one with other characters are refused |
| `Refusals.BlockCutShort` | packet/property.go:400-412 | a property block whose length has not ended is malformed |
| `Refusals.EncoderRefuses` | packet/packet.go:200-211 | what encoding refuses, by numbers and bits, and which reason comes first |
| `Refusals.SizeExactly` | packet/header.go:129-137 | the size of a packet of any length, and that it is refused exactly if its length, cut to 32 bits, is over the limit |
| `PacketSoundness.AcceptedBlock` | packet/property.go:400-448 | on every buffer, a block that is accepted holds only properties its packet may carry, each with a value of its type, and reads back as itself |
| `PacketSoundness.TraceExplains` | packet/property.go:413-445 | an accepted block is what the loop took, one after the other, in at least as many bytes as it is worth and exactly as many if no number is overlong |
| `PacketSoundness.LengthKeptRightExactlyIfTidy` | packet/property.go:400-448 | on every buffer of legal size: the length kept for an accepted block is right for its properties exactly if no number was overlong and no subscription identifier came after another, and otherwise too long |
| `PacketSoundness.AcceptedIsLawful` | packet/packet.go:214-253 | on every byte buffer, a packet that is accepted obeys all the rules of its type and version and lies within the buffer |
| `PacketSoundness.LawfulEncodesAgain` | packet/packet.go:200-253 | an accepted packet whose kept length is right can be encoded again and reads back as itself |
| `PacketWriter.EncodeProps` | packet/property.go:450-476 | into an empty buffer the block is written as its bytes, the empty one included, leaving out only strings that do not fit |
| `PacketWriter.EncodePublish` | packet/publish.go:358-403 | refuses for the source's reasons in its order, else writes exactly the packet's bytes |
| `PacketWriter.EncodeAck` | packet/puback.go:92-116 | the same for acknowledgements |
| `PacketWriter.EncodeFilters` | packet/subscribe.go:157-167 | the loop writes the filters in order, or stops at one that is too long |
| `PacketWriter.EncodeSubscribe` | packet/subscribe.go:139-168 | the same for SUBSCRIBE |
| `PacketWriter.ReadFilters` | packet/subscribe.go:89-124 | the loop over the filters reads what the bytes say or fails as they say |
| `PacketWriter.EncodeConnect` | packet/connect.go:235-319 | the same for CONNECT |
| `PacketWriter.ValidEncodes` | packet/packet.go:200-211 | a valid packet is never refused |
| `PacketWriter.EncodeHeader` | packet/header.go:100-122 | writes type, flags and remaining length |
| `PacketWriter.Encode` | packet/packet.go:200-211 | a buffer of exactly the size, filled with exactly the bytes of the packet and zeros in place of strings that do not fit, or the error; a packet whose properties can be read back fills it |
| `Messages.AckMessage.DecodeMessage` | packet/puback.go:63-90 | the object ends up as the packet the bytes spell, or fails with their error |
| `Messages.PublishMessage.DecodeMessage` | packet/publish.go:246-356 | the same for PUBLISH |
| `Messages.SubscribeMessage.DecodeMessage` | packet/subscribe.go:76-137 | the same for SUBSCRIBE |
| `Messages.ConnectMessage.DecodeMessage` | packet/connect.go:321-487 | the same for CONNECT, whose version is its own |
| `Messages.DecodeProps` | packet/property.go:400-448 | reading a block with a map to store into or without |
| `Messages.DecodePacket` | packet/packet.go:214-253 | through the fixed header and the object, exactly what the bytes spell; with `PacketRoundTrip.PacketsRoundTrip`, what was encoded |
| `Framing.Receiver.PeekSize` | connection/receiver.go:84-118 | peeking two to five bytes finds the size of the packet, or a protocol error, or the end of the stream |
| `Framing.Receiver.ReadFull` | connection/receiver.go:120-129 | in chunks of any size the buffer is filled with exactly the next bytes of the stream |
| `Framing.Receiver.ReadPacket` | connection/receiver.go:78-138 | hands exactly one packet's bytes to the decoder and leaves the rest, or reports the size limit or the end of the stream |
| `Framing.FrontIsRead` | connection/receiver.go:78-138 | a valid packet at the front of a stream is cut off exactly and decoded as it was sent |
| `Framing.StreamRoundTrip` | connection/receiver.go:78-138 | reading the concatenation of any list of valid packets yields exactly those packets in order |
| `Framing.ResumedReadStartsOver` | connection/receiver.go:113-129 | after the stream broke off inside a packet, that packet is handed over exactly if it is sent again from its start |
| `Refusals.LimitDecides` | connection/receiver.go:78-138 | a packet is refused exactly if it is longer than the limit, header included, and otherwise cut off exactly if all of it is there |
| `Refusals.HeaderDecides` | connection/receiver.go:84-118 | a length of more than four bytes is a protocol error, and a header that has not arrived is waited for |
| `Refusals.PendingDecides` | connection/receiver.go:113-138 | a packet that was begun is read to its size, whatever stands at the front of the stream |
| `FlowControl.EachIdOnce` | connection/flowControl.go:39-49 | the search meets each of the 65536 identifiers exactly once, counter wraparound included |
| `FlowControl.FreeIdFound` | connection/flowControl.go:39-49 | it finds a free one whenever there is one |
| `FlowControl.CounterWraps` | connection/flowControl.go:39-44 | the 64-bit counter wrapping does not disturb the turn of the identifiers |
| `FlowControl.FirstFree` | connection/flowControl.go:39-49 | the first free identifier in turn, all before it in use |
| `Interleaving.KeepsBalance` | connection/flowControl.go:27-56 | every atomic step keeps the quota non-negative and quota, identifiers in use and what is in hand at the maximum |
| `Interleaving.KeepsFlag` | connection/transmitter.go:66-76 | every atomic step keeps: the flag down means quota left, the flag up with quota left means a clearing under way |
| `Interleaving.LookFinds` | connection/flowControl.go:41-47 | a search that ends, ends with an identifier that was free, whatever the receiver freed meanwhile |
| `Interleaving.EveryInterleaving` | connection/transmitter.go:154-187 | the three together for every interleaving of transmitter and receiver |
| `Interleaving.SafeExactlyIfFewerRestored` | connection/flowControl.go:22-37 | the quota never goes negative in any run exactly if fewer packets were restored than it allows |
| `Interleaving.OnlyLateEraseOrphans` | connection/ack.go:21-30 | a step loses the record of a packet in flight exactly if it erases an identifier the transmitter has taken and stored again |
| `Interleaving.RecordLost` | connection/ack.go:21-30 | a run in which that happens right after a reconnect |
| `Interleaving.AckAlone` | connection/ack.go:21-30 | with the transmitter idle the atomic steps of an acknowledgement come to freeing the identifier, giving the quota back, lowering the flag if the quota was used up and erasing the record |
| `Interleaving.SendAlone` | connection/flowControl.go:27-50 | with the receiver idle those of a sending come to the first free identifier in turn, one from the quota, and the flag with the last |
| `Delivery.PopKeeps` | connection/transmitter.go:154-187 | sending keeps each identifier in use to one packet, and quota and flag right |
| `Delivery.PopSendsHead` | connection/transmitter.go:154-187 | what goes out is the packet at the head of the queue, with the identifier it has or gets, kept under that; nothing exactly if the queue is empty or the quota used up |
| `Delivery.PushedExactlyIf` | connection/transmitter.go:36-52 | exactly the messages of QoS 1 and 2 go to the message queue |
| `Delivery.AckedExactlyIf` | connection/netCallbacks.go:165-212 | the peer may finish any exchange at any time, but confirm only one in flight |
| `Delivery.PopFreshKeeps` | connection/transmitter.go:154-187 | a message gets an identifier nobody uses |
| `Delivery.FinishedKeeps` | connection/connection.go:458-468 | PUBACK and PUBCOMP keep all that, for whatever identifier |
| `Delivery.PubrecKeepsExactlyIfKnown` | connection/netCallbacks.go:173-200 | PUBREC keeps it exactly if its identifier is one of a packet sent and not acknowledged |
| `Delivery.PubrecExactly` | connection/netCallbacks.go:173-200 | in version 5 a PUBREC with a reason of 0x80 or more frees identifier and quota; any other puts a PUBREL in the packet's place and sends it |
| `Delivery.TurnGoesOn` | connection/flowControl.go:39-49 | the search for the next identifier goes on behind the last one given |
| `Delivery.OthersInOrder` | connection/transmitter.go:54-90 | in every run on one connection control packets and messages of QoS 0 go out once each in the order they were queued |
| `Delivery.ReopenKeeps` | connection/connection.go:288-397 | closing and opening again in any version keeps it, every identifier with its packet, whatever the packets are read back as |
| `Delivery.ReopenedExactly` | connection/connection.go:288-397 | a new connection place by place: the message queue in its order, each item read back, then the packets in flight, to be sent again; their identifiers taken from the new quota |
| `Delivery.NoSharedIds` | connection/transmitter.go:158-184 | in every run through any number of connections: unfinished exchanges never share an identifier, their number and the quota make the maximum, a new message gets none of theirs |
| `Delivery.ConfirmedByPubrec` | connection/netCallbacks.go:189-200 | a PUBREC without an error leaves only PUBREL to send |
| `Delivery.PubrelOnlyAfterPubrec` | connection/netCallbacks.go:173-212 | from then until the exchange ends, in every run and across reconnects, the message is not sent again and PUBREL stays to be sent or acknowledged |
| `Conservation.StepConserves` | connection/transmitter.go:154-187 | every step keeps each message in the queue or in flight, adds only the one pushed and lets go only of one the peer has settled, if a new connection reads back what was saved |
| `Conservation.EveryMessageAccountedFor` | connection/netCallbacks.go:165-212 | in every run through any number of connections that read back what was saved, each message is, as often as it was pushed, still queued, in flight or settled by the peer |
| `Conservation.SentInOrder` | connection/transmitter.go:36-52 | in every such run messages are sent for the first time in the order they were pushed, reconnects included |
| `Survival.StaysSavable` | connection/connection.go:334-397 | as long as incoming messages can be encoded and the versions of new connections can read what was saved, every step keeps everything held such that it can be saved and read back, and every new connection reads back the same messages |
| `Survival.RunStaysSavable` | connection/connection.go:288-397 | the same over every run |
| `Survival.MessagesSurvive` | connection/connection.go:288-397 | in every such run, through the encoded bytes: each message is held or settled as often as it was pushed, and messages are first sent in the order of the pushes |
| `Survival.MessageDamaged` | connection/connection.go:288-331 | a 3.1.1 message pushed on a version 5 connection that is closed and opened again: it comes back without its payload and is neither held nor settled |
| `WakeUp.KeepsSound` | connection/transmitter.go:189-268 | every step keeps a token or somebody to leave one for packets that can be sent |
| `WakeUp.FineExceptWhenMissed` | connection/transmitter.go:54-90 | packets that can be sent have a transmitter or one on its way after a step exactly if the step is not the call of txRun between the check and the stop |
| `WakeUp.NothingStalls` | connection/transmitter.go:54-90 | in every run without such a call no packet stalls |
| `WakeUp.WorkGetsDone` | connection/transmitter.go:189-268 | while packets do not stall, the steps under way lead to one being sent without another push |
| `WakeUp.TurnExactly` | connection/transmitter.go:270-281 | a turn takes one packet or two, from each queue at most one, and none only if there is none |
| `WakeUp.MissedStalls` | connection/transmitter.go:214-218 | after such a call the packets stall until there is another push |
| `WakeUp.MessageStalls` | connection/transmitter.go:189-218 | a run in which that happens |
| `Inbound.ReceiveBalances` | connection/netCallbacks.go:106-162 | each arrival keeps hand-overs and kept messages equal to exchanges begun |
| `Inbound.HandedExactlyOnce` | connection/netCallbacks.go:124-138 | for any interleaving of PUBLISH, repetitions and PUBREL, per identifier: handed over plus kept is exactly the accepted messages that found no exchange open |
| `Inbound.ReleaseHandsLatest` | connection/connection.go:448-453 | what PUBREL hands over is the message accepted last in that exchange |
| `Inbound.LowHandedAsArrived` | connection/netCallbacks.go:140-159 | in every run of arrivals the messages of QoS 0 and 1 handed over are exactly the accepted ones, each once and in the order of arrival |
| `Inbound.HistoryDecides` | connection/netCallbacks.go:106-162 | everything handed over and everything kept, as the history of arrivals says: QoS 0 and 1 on arrival, of QoS 2 on each release the message accepted last |
| `Inbound.OnlyAccepted` | connection/netCallbacks.go:106-122 | what was refused or denied is never handed over |
| `Persistence.LoadDecodes` | connection/connection.go:288-331 | loading encoded records is loading what they are read as, as long as all can be read |
| `Persistence.PubrelReads` | connection/connection.go:296-303 | a saved PUBREL reads back in every version |
| `Persistence.StoredReads` | connection/connection.go:288-331 | a saved message reads back as the same message exactly if its version is compatible with that of the connection, and in any case with its topic, flags and identifier |
| `Persistence.LoadQueue` | connection/flowControl.go:22-25 | a restored packet takes its identifier and one from the quota, so quota and identifiers in use keep their sum |
| `Persistence.LoadUndoesPersist` | connection/connection.go:288-397 | for a next connection of any version: loading succeeds if all records are legible to it, and whenever it succeeds gives the queue in order with the unacknowledged packets behind it, each with its identifier taken and counted, and every legible message as it was saved |
| `Persistence.NothingLostOrAdded` | connection/connection.go:334-397 | the multiset of queued messages and unacknowledged packets is what is saved |
| `Persistence.SavedOnce` | connection/connection.go:337-362 | saving changes only the duplicate flag of a QoS 1 packet and the identifier of an unsent one |
| `Persistence.SavedExactly` | connection/connection.go:337-362 | field by field: a packet not yet sent gets identifier 0, one of QoS 1 that was sent the duplicate bit, any other stays as it is |
| `Connection.Conn.constructor` | connection/connection.go:154-214 | a new connection has its full quota and holds nothing |
| `Connection.Conn.FlowAcquire` | connection/flowControl.go:27-50 | the loop takes the first free identifier in turn and says whether it took the last quota |
| `Connection.Conn.QPopPacket` | connection/transmitter.go:154-187 | is the sending step, or does nothing while closing |
| `Connection.Conn.PubOutRelease` | connection/ack.go:21-30 | is the finishing step for PUBACK and PUBCOMP and only erases the record otherwise |
| `Connection.Conn.PubInRelease` | connection/connection.go:448-453 | hands a kept message over and forgets it |
| `Connection.Conn.OnAck` | connection/netCallbacks.go:165-223 | each acknowledgement does its step and answers as the protocol says, with the bytes of PUBREL or PUBCOMP, and to no others |
| `Connection.Conn.ProcessAck` | connection/connection.go:231-286 | the same with the answer queued |
| `Connection.Conn.OnPublish` | connection/netCallbacks.go:106-162 | is the receiving step, and answers exactly to QoS 1 and 2, with the bytes of PUBACK or PUBREC, the identifier and, in version 5, the reason of a denial |
| `Replies.ReplyRead` | connection/netCallbacks.go:106-162 | a peer reads such an answer as it was meant exactly if its reason is one for its type |
| `Replies.DenialUnreadable` | packet/reasonCodes.go:98-118 | the answer to a denied message in version 5 is malformed |
| `Connection.Conn.Persist` | connection/connection.go:334-397 | drains both queues into records of exactly what is to be saved, or fails exactly for QoS 0 messages without OfflineQoS0 |
| `Connection.Conn.LoadPersistence` | connection/connection.go:288-331 | is the loading step, record by record |
| `Connection.Reconnected` | connection/connection.go:288-397 | the two together, through the encoded bytes and in any version: if the next connection opens it is the closed one, reopened, with every legible message as it was saved; it opens if all are legible |
| `SessionLife.DisconnectRunsOut` | clients/session.go:258-351 | after a disconnect, within two firings: a due will published exactly once at the earlier of will delay and expiry, or at once when the session ends with the connection or there is no delay; the session ends when its expiry has passed in all, with one close signal; its subscriber is let go when it is wiped |
| `SessionLife.TimerRunsOut` | clients/session.go:317-351 | what a running timer leads to and when |
| `SessionLife.DisconnectSettles` | clients/session.go:258-315 | a disconnected session has ended or has its timer running, never both |
| `SessionLife.EveryLife` | clients/session.go:146-351 | in every run a session closes once and only at its end, and offline it has ended or waits for the timer |
| `SessionLife.WillAtMostOnce` | clients/session.go:258-351 | in every run a will is published at most once, and not at all once it is no longer pending |
| `SessionLife.NormalDisconnectSilences` | clients/session.go:280-313 | after a normal disconnect it is never published |
| `SessionLife.ReconnectSilences` | clients/session.go:201-231 | nor after the client came back before the timer fired |
| `SessionLife.VisitRunsOut` | clients/session.go:111-351 | from what the client brings and how it leaves, for a new session or one that was offline: exactly its own will is published once, at once if the session ends with the connection and otherwise at the smaller of delay and expiry, if it is not taken back; the session ends at its time and for its reason |
| `SessionLife.EndsAtOnceExactlyIf` | clients/session.go:258-315 | when the client leaves the session ends at once exactly if it does not outlive the connection or has neither expiry nor will delay; otherwise when its timer runs to |
| `SessionLife.StopPublishesExactlyIf` | clients/session.go:146-164 | a stopped session publishes the will of the client that is there exactly if it has no delay or the session ends with the connection |
| `LiveSession.Session.constructor` | clients/session.go:95-109 | a new session is offline with the timer stopped |
| `LiveSession.Session.Reconfigure` | clients/session.go:111-117 | takes over what the connection brings and is live again |
| `LiveSession.Session.RunExpiry` | clients/session.go:233-256 | arms the one timer for will delay or expiry and keeps the rest of the expiry |
| `LiveSession.Session.OnDisconnect` | clients/session.go:258-315 | is the disconnect step |
| `LiveSession.Session.TimerCallback` | clients/session.go:317-351 | is the firing step |
| `LiveSession.Session.SetOnline` | clients/session.go:201-231 | stops the timer and says whether the session can be used |
| `LiveSession.Session.Stop` | clients/session.go:146-164 | faults on a session that has never had a connection; otherwise disconnects, stops the timer and closes if that has not been done |
| `LiveSession.Session.Join` | clients/session.go:119-144 | a client that connects stops the timer and brings its own configuration |
| `LiveSession.Session.Lives` | clients/session.go:111-351 | any life of the object once it has had a connection: it closes once and only at its end, offline it has ended or waits for the timer, and a will is published at most once |
| `LiveSession.Session.RunOut` | clients/session.go:258-351 | the client leaves for good: the timer fires at most twice, a due will is published once at its time and the session ends at its time with one close signal |
| `LiveSession.Session.Visit` | clients/session.go:111-351 | the same for the object, from joining to the end |
| `Sessions.StepKeeps` | clients/sessions.go:188-241 | every step keeps the count, each session's state and the map right |
| `Sessions.BecomeKeeps` | clients/sessions.go:531-554 | a session that signals its close leaves the map and the count, and both stay right |
| `Sessions.CountRight` | clients/sessions.go:188-241 | in every run of connects in their phases, takeovers, disconnects, firings and stops in which no stop meets a connection being set up: the count is the number of sessions that have not ended, each has closed once if it has ended and never otherwise, and one neither online nor being set up has ended or has its timer running |
| `Sessions.TrackedExceptWhenOvertaken` | clients/sessions.go:188-241 | the map leads to every session that has not ended, step by step, except exactly when an overtaken connect puts another session in its place |
| `Sessions.SessionLost` | clients/sessions.go:188-241 | a run in which that happens |
| `Takeover.FoundExactly` | clients/sessions.go:188-241 | a connect that finds a session online is turned away with nothing changed or, where replacing is allowed, ends it and takes its place uncounted; an offline one is taken up again; an ended one is replaced and counted; no other session changes |
| `Takeover.SetUpIsJoining` | clients/sessions.go:313-360 | configuring, allocating and starting is the client joining the session with what it brings |
| `Shutdown.HaltSettled` | clients/session.go:146-164 | stopping a session whose connection is not being set up ends it and keeps everything right |
| `Shutdown.HaltAllocatedWaits` | connection/netCallbacks.go:33-36 | the stop of an allocated connection waits for its start and then keeps everything right |
| `Shutdown.HaltNewCrashes` | clients/session.go:95-109 | the stop of a new session that has no connection yet runs into a fault |
| `Shutdown.HaltClaimedShort` | clients/session.go:146-164 | a session switched back and stopped before it is configured comes back to life uncounted |
| `Shutdown.HaltConfiguredTwice` | clients/session.go:146-164 | one stopped between configuration and allocation signals its close twice |
| `Shutdown.HaltSafeExactlyIfNotJoining` | clients/sessions.go:112-132 | a stop leaves the count right in all that follows exactly if the connection is not being set up |
| `Shutdown.ShutdownEndsAll` | clients/sessions.go:112-132 | shutdown with no connection short of being allocated and every session in sight ends all of them, in any order, and the count is zero |
| `SessionManager.Manager.LoadSession` | clients/sessions.go:188-241 | new, taken over, switched back or replaced, as the session found says; the count stays right |
| `SessionManager.Manager.UseFound` | clients/sessions.go:196-234 | the same for a wrap found earlier, when its lock is held |
| `SessionManager.Manager.SetUp` | clients/sessions.go:136-186 | configuring, allocating and starting in turn is the client joining the session with what it brings, and keeps the count right |
| `SessionManager.Manager.Shutdown` | clients/sessions.go:112-132 | stops every session in the map, in whatever order and whatever is being set up meanwhile; if nothing is short of being allocated, the map is empty and the count right |

## Left out

- Transports, websockets, netpoll, TLS, logging, configuration, `systree`, `auth` tables and the persistence library: plumbing and counters. The store is a sequence of records that gives back what was put; access control is a parameter.
- Wall-clock time is a parameter; the random client identifier and topic alias choice are not modelled.
- UNSUBSCRIBE, AUTH, UNSUBACK, CONNACK, SUBACK, DISCONNECT and the pings are not modelled as packets, so `Packets.Decode` requires one of the modelled types or an invalid type byte. The first three and DISCONNECT with a bare reason do not round trip as written (packet/unsubscribe.go:77, packet/auth.go:55-73, packet/unsuback.go:79-95, packet/disconnect.go:60).
- The offset that accompanies an error is not modelled anywhere in the codec, only the error.
- What a packet object's fields hold after decoding has failed is not stated; encoding takes the packet as a value.
- Retained objects that compute their message when asked (`DynamicValue`), saving retained messages on close, and the channel and goroutine around `publisher` are left out; so is the configuration path to overlapping mode, which is a flag here.
- Storing and loading of subscriptions and of session states across restarts (clients/sessions.go:556-775, the last part of clients/session.go:146-198) is left out: as written it does not give back what was stored.
- Expiry of queued messages and messages over the peer's size limit, which are dropped after taking an identifier, are left out; so is the topic alias.
- Error paths of a connect (a failed CONNACK or configuration) are left out of the session steps.
- TopicTrie.Provider.Publish: the recursion and the delivery are modelled in sequence, not the goroutines; a subscriber is a number.
- Connection.Conn.Persist: requires that what is held can be encoded, which `Survival.RunStaysSavable` shows holds in every run whose messages can be, in whatever versions.
- PropertyBlock.EncodeBlock: requires room for what will be written, as the source panics otherwise; `PropertyBlock.KnownLengthHasRoom` shows that a right length provides it.
- PropertyBlock.Block.Encode: requires the same.
- PacketWriter.Encode: requires that the kept length of the properties is right, that no list of binary values is among them (it is written and not counted, `PropertyForms.LengthRightExactlyIf`), and fewer than 2^32 bytes; `Packets.Size` models the 32-bit conversion of the length for any packet.
- PacketWriter.EncodeProps: requires the same.
- Properties.BlockRoundTrip: leaves out blocks of 2^29 bytes and more, which cannot be read back; `PropertyForms.BlockReadsOrIsRefused` adds values written more than once where that is not allowed.
- Properties.ItemLength: a list of lists of strings, which calcLenBinary counts and no encoder writes, is not among the values.
- Conservation.EveryMessageAccountedFor: holds for runs whose new connections read back what was saved; `Survival.MessagesSurvive` derives that from the versions, `Survival.MessageDamaged` shows a run without it.
- WakeUp.NothingStalls: counts the packets that can be sent and does not say which; the quit channel and write errors are left out.
- Delivery.NoSharedIds: treats each callback as one step; `Interleaving` has the finer steps for quota, identifiers and flag.
