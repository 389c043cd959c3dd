# Amadeus, modelled in Dafny

Amadeus is a plugin host written in Rust. Its plugins talk through an
in-process message bus. An iceoryx2 bridge carries the same messages
across processes as a fixed-size C-layout envelope, and a Python mirror of
that envelope, with an RSA/AES receiving example, talks to the bridge. A
core-system plugin keeps memos, reminders and users in SQLite and drives a
cron scheduler from bus messages.

This project models that core and proves properties of the model.

- **Envelope** (`envelope.dfy`, `py_envelope.dfy`). This is the 64-byte topic plus 4096-byte JSON body envelope, on both sides.
  - `from_json` is modelled as an in-place fill of fixed arrays.
  - The decoders are functions, with strict UTF-8 (RFC 3629, `utf8.dfy`).
  - Proved: the bounds; zero padding; round trips in both directions; the byte layout. The Python and Rust encoders fail on the same inputs and write the same bytes exactly when every U+0000 in the texts is trailing: the ctypes `c_char` assignment stops at the first zero byte, so `"a\u0000b"` is stored as `a` by Python and in full by Rust.
- **Secure receiver** (`secure_receiver.dfy`). The body classification of the Python receiving example (hybrid RSA-wrapped AES-GCM, legacy, plaintext) and its drain loop. The cryptographic primitives are parameters.
- **Bridge** (`receiver.dfy`, `iceoryx2_dispatcher.dfy`, `dispatcher_plugin.dfy`). Envelope-to-message conversion, the running-flag state machines, and the echo filters of the dispatcher plugin.
- **Messages and users** (`messages.dfy`, `user.dfy`). Message builders, priority order, wildcard permission matching and `has_permission`.
- **Routing and registries** (`distribution_center.dfy`, `plugin.dfy`, `lifecycle.dfy`, `dispatcher_registry.dfy`). The distribution center's tables, plugin registration filters, and the forward and reverse lifecycle runs with first-error exit.
- **Memo storage** (`memo_types.dfy`, `memo_query.dfy`, `memo_storage.dfy`, `legacy_storage.dfy`). Both SQLite stores as classes over in-memory tables. The meaning of every SQL statement is stated over those tables, including the query builder's WHERE, ORDER BY and LIMIT/OFFSET.
- **Core-system handlers** (`core_requests.dfy`, `core_config.dfy`, `scheduler.dfy`, `core_system.dfy`, `core_system_legacy.dfy`). The handlers of the newer and the older core-system plugin, run against the stores, an abstract cron scheduler and an outbox.
  - Proved among others: a memo created and then completed leaves the scheduler as it was.
- **Example plugins** (`example_config.dfy`, `example_handler.dfy`, `example_plugin.dfy`, `code4rena.dfy`). Their configuration and their state machines.

The model follows the code, also where the code does less than its own
subscriptions and comments announce. Two examples:
- `system.memo.update` is subscribed (amadeus/src/plugins/core_system/mod.rs:217), but no branch of the dispatch handles it, so it changes nothing.
- `system.user.grant_role` computes whether the caller holds `system:admin` and then grants the role regardless. The comments at amadeus/src/plugins/core_system/mod.rs:575 and mod.rs:582-583 say that only administrators should grant roles and that internal and admin-plugin callers are let through for testing.

Foreign code is passed in as function-valued parameters and is never interpreted: serde and `json.loads`/`json.dumps`, uuid generation and parsing, cron validation, RSA, AES-GCM and base64. The same goes for the wall clock, which comes in as a number.

## Model

| member | source | states |
|---|---|---|
| Envelope.Zeros | amadeus/src/ipc/iceoryx2_types.rs:31-33 | a buffer of `n` zero bytes |
| Envelope.Empty | amadeus/src/ipc/iceoryx2_types.rs:29-38 | `new()`: both buffers all zero, both lengths 0, priority 1, timestamp 0 |
| Envelope.Pack | amadeus/src/ipc/iceoryx2_types.rs:47-75 | `from_json` fails exactly when the topic is over 64 UTF-8 bytes or the body over 4096, the topic error first; on success each buffer holds the bytes at its front and zeros after, the lengths are the byte lengths, priority and timestamp are stored as given |
| Envelope.MessageTypeStr | amadeus/src/ipc/iceoryx2_types.rs:78-85 | refused with the length error exactly when the length is 0 or above 64; succeeds exactly when the first `len` bytes are the UTF-8 encoding of some text, and then returns the text they encode |
| Envelope.JsonStr | amadeus/src/ipc/iceoryx2_types.rs:88-95 | the same with bound 4096 on the body buffer |
| Envelope.EncodeEmptyIff | amadeus/src/ipc/iceoryx2_types.rs:56-61 | a topic encodes to no bytes exactly when it is empty |
| Envelope.PackDecode | amadeus/src/ipc/iceoryx2_types.rs:47-95 | a packed envelope decodes back to the topic and body it was packed from, except that an empty text is refused by the decoder |
| Envelope.DecodePack | amadeus/src/ipc/iceoryx2_types.rs:47-95 | an envelope whose texts decode and whose buffers are zero-padded is exactly what packing those texts builds |
| Envelope.LayoutFixed | amadeus/src/ipc/iceoryx2_types.rs:10-25 | the `#[repr(C)]` fields sit at offsets 0, 64, 65, 4162, 4164, 4168 and the record is 4176 bytes |
| Envelope.ForMessageTypeShape | amadeus/src/ipc/iceoryx2_types.rs:118-120 | the service name is `Amadeus/Message/` followed by the type with every space made an underscore |
| Envelope.ForMessageTypeNotInjective | amadeus/src/ipc/iceoryx2_types.rs:118-120 | two different types, one with a space and one with an underscore in its place, share a service name |
| Envelope.AmadeusMessageData.constructor | amadeus/src/ipc/iceoryx2_types.rs:29-38 | fresh buffers whose value is `new()` |
| Envelope.AmadeusMessageData.FromJson | amadeus/src/ipc/iceoryx2_types.rs:47-75 | the in-place `from_json` fails exactly when `Pack` does and otherwise holds exactly `Pack`'s value |
| Envelope.AmadeusMessageData.CopyFromSlice | amadeus/src/ipc/iceoryx2_types.rs:60-68 | `copy_from_slice` writes the source at the front of the buffer and keeps the rest |
| PyEnvelope.BeforeZero | amadeus/examples/iceoryx2/amadeus_message_data.py:75 | reading a `c_char` array yields the bytes before its first zero byte, and nothing else |
| PyEnvelope.LJust | amadeus/examples/iceoryx2/amadeus_message_data.py:60-67 | `ljust(n, b'\x00')` keeps the bytes at the front and pads with zeros to at least `n` |
| PyEnvelope.SetChars | amadeus/examples/iceoryx2/amadeus_message_data.py:60-67 | assigning to a `c_char` field raises exactly when the bytes before the first zero do not fit; otherwise the field keeps its length, holds those bytes at its front, a zero after them when there is room, and its old bytes beyond that |
| PyEnvelope.ChosenTimestamp | amadeus/examples/iceoryx2/amadeus_message_data.py:52-54 | the given timestamp, or the current time when none is given |
| PyEnvelope.AmadeusMessageData.Zeroed | amadeus/examples/iceoryx2/amadeus_message_data.py:50 | `super().__init__()` zero-fills every field |
| PyEnvelope.AmadeusMessageData.Init | amadeus/examples/iceoryx2/amadeus_message_data.py:42-71 | raises exactly when the encoded type is over 64 bytes or the encoded JSON over 4096, the type first; otherwise the buffers hold the zero-padded encodings of the texts cut at their first U+0000, the lengths are the full encoded lengths, the priority is taken modulo 256 and the timestamp modulo 2^64 |
| PyEnvelope.AmadeusMessageData.AssignText | amadeus/examples/iceoryx2/amadeus_message_data.py:60-67 | assigning a padded encoding to a zeroed field stores the padded encoding of the text before its first U+0000 |
| PyEnvelope.AmadeusMessageData.InitDefaults | amadeus/examples/iceoryx2/amadeus_message_data.py:42-48 | the defaults give an empty type, payload `{}`, priority 1 and the current time |
| PyEnvelope.AmadeusMessageData.GetMessageType | amadeus/examples/iceoryx2/amadeus_message_data.py:73-75 | the getter succeeds exactly when the first `message_type_len` bytes before the first zero are some text's encoding, and returns that text, which holds no U+0000; the length field is unsigned, and a negative value, which nothing stores, is a failure |
| PyEnvelope.AmadeusMessageData.GetJsonPayload | amadeus/examples/iceoryx2/amadeus_message_data.py:77-79 | the same for the JSON buffer and its length |
| PyEnvelope.AmadeusMessageData.GetPriorityName | amadeus/examples/iceoryx2/amadeus_message_data.py:81-84 | one of the four names exactly when the stored priority is 0..3, and the name of that priority |
| PyEnvelope.AmadeusMessageData.ToDict | amadeus/examples/iceoryx2/amadeus_message_data.py:121-130 | defined exactly when the payload getter succeeds; then the parsed payload, or the `Invalid JSON payload` error object when parsing fails |
| PyEnvelope.PriorityName | amadeus/examples/iceoryx2/amadeus_message_data.py:81-84 | a name from the list exactly when the priority is 0..3, and the name at that index; otherwise `Unknown(` and `)` around the decimal text of the priority, with a minus sign when it is negative, which parses back to the priority |
| PyEnvelope.LoadsOrError | amadeus/examples/iceoryx2/amadeus_message_data.py:121-130 | the parsed payload, or the `Invalid JSON payload` error object when parsing fails |
| PyEnvelope.FromDict | amadeus/examples/iceoryx2/amadeus_message_data.py:106-119 | the constructor applied to `json.dumps(data)`: it fails exactly when that text or the type is too long, with the type's error when both are, and otherwise stores the same fields as the constructor, texts cut at their first U+0000 |
| PyEnvelope.BeforeZeroPadded | amadeus/examples/iceoryx2/amadeus_message_data.py:60-75 | reading back a zero-padded encoding gives the encoding of the text before its first U+0000 |
| PyEnvelope.BeforeZeroNonZeroPrefix | amadeus/examples/iceoryx2/amadeus_message_data.py:75 | a zero-free prefix survives the `c_char` read |
| PyEnvelope.EncodePrefixLength | amadeus/examples/iceoryx2/amadeus_message_data.py:57-61 | cutting at the first U+0000 never lengthens the encoding |
| PyEnvelope.StoredTextReadsBack | amadeus/examples/iceoryx2/amadeus_message_data.py:60-79 | a getter returns the stored text up to its first U+0000, so exactly the text when it has none |
| PyEnvelope.RoundTrip | amadeus/examples/iceoryx2/amadeus_message_data.py:42-130 | constructing and then calling both getters returns the type and payload cut at their first U+0000, and `to_dict` parses that payload |
| PyEnvelope.SameBytesAsRust | amadeus/examples/iceoryx2/amadeus_message_data.py:27-104 | the ctypes layout and type name are Rust's; the constructor fails exactly when Rust's `from_json` does; when both succeed they write the same bytes exactly when every U+0000 in either text is trailing |
| PyEnvelope.StoreIntoZeroed | amadeus/examples/iceoryx2/amadeus_message_data.py:60-67 | a padded encoding assigned to a zeroed field leaves the padded encoding of the text before its first U+0000 |
| PyEnvelope.ReadChars | amadeus/examples/iceoryx2/amadeus_message_data.py:73-79 | a slice of the `c_char` read decodes exactly when it is some text's encoding, and that text has no U+0000 |
| PyEnvelope.StoredSameIff | amadeus/examples/iceoryx2/amadeus_message_data.py:57-67 | cutting a text at its first U+0000 leaves its padded encoding unchanged exactly when every U+0000 in it is trailing |
| PyEnvelope.PaddedEqualIff | amadeus/examples/iceoryx2/amadeus_message_data.py:60-67 | appending bytes before zero padding to a fixed width leaves the result unchanged exactly when the appended bytes are zeros |
| PyEnvelope.EncodeAllZeroIff | amadeus/examples/iceoryx2/amadeus_message_data.py:57-64 | an encoding is all zero bytes exactly when the text is all U+0000 |
| PyEnvelope.PaddedUnique | amadeus/examples/iceoryx2/amadeus_message_data.py:60-67 | two buffers of one length holding the same zero-padded content are equal |
| SecureReceiver.Classify | amadeus/examples/iceoryx2/rsa_test.py:107-145 | the branch taken is undefined (the membership test raises) exactly when testing for `secure_key` raises |
| SecureReceiver.Drain | amadeus/examples/iceoryx2/rsa_test.py:98-149 | every received sample is processed, in arrival order, one outcome each, whatever happened to the ones before |
| SecureReceiver.ClassifyObject | amadeus/examples/iceoryx2/rsa_test.py:107-145 | for an object: hybrid iff both `secure_key` and `secure_payload` are present, legacy iff only `secure_payload`, plaintext iff no `secure_payload` |
| SecureReceiver.PlaintextUntouched | amadeus/examples/iceoryx2/rsa_test.py:145-146 | a body without `secure_payload` is passed on unchanged |
| SecureReceiver.MissingIvIsHybridFailure | amadeus/examples/iceoryx2/rsa_test.py:110-129 | a hybrid body without `iv` is a hybrid decryption failure, at the `secure_key` base64 step or the `iv` lookup, never a legacy attempt or plaintext |
| SecureReceiver.HybridOpens | amadeus/examples/iceoryx2/rsa_test.py:110-127 | when every step succeeds in order, the result is what `json.loads` makes of the decrypted UTF-8 text |
| SecureReceiver.TamperedHybridRejected | amadeus/examples/iceoryx2/rsa_test.py:123-129 | a ciphertext that fails AES-GCM authentication is reported as a decryption failure |
| SecureReceiver.LegacyBadBase64IsProcessingError | amadeus/examples/iceoryx2/rsa_test.py:133-149 | bad base64 in a legacy body reaches the outer handler, not the decryption handler |
| SecureReceiver.NonObjectBodies | amadeus/examples/iceoryx2/rsa_test.py:104-149 | number and null bodies make the membership test raise; a string body is searched as text |
| Receiver.PriorityFromByte | amadeus/src/ipc/iceoryx2_receiver.rs:180-186 | bytes 0..3 give the priority with that discriminant; every other byte gives Normal |
| Receiver.PriorityByteRoundTrip | amadeus/src/ipc/iceoryx2_receiver.rs:180-186 | decoding a priority's own discriminant gives that priority back |
| Receiver.ConvertToMessage | amadeus/src/ipc/iceoryx2_receiver.rs:165-192 | fails on the topic first, then the body, then unparseable JSON, and only then; a success carries the decoded topic, the parsed body, the envelope's timestamp and mapped priority, and the `iceoryx2` external source |
| Receiver.Iceoryx2Receiver.constructor | amadeus/src/ipc/iceoryx2_receiver.rs:35-43 | names as given; not running, no sender, no task |
| Receiver.Iceoryx2Receiver.WithDefaultService | amadeus/src/ipc/iceoryx2_receiver.rs:46-48 | the default service name |
| Receiver.Iceoryx2Receiver.WithMessageTx | amadeus/src/ipc/iceoryx2_receiver.rs:51-54 | sets the sender and nothing else |
| Receiver.Iceoryx2Receiver.Start | amadeus/src/ipc/iceoryx2_receiver.rs:59-84 | a no-op when running; an error that changes nothing when there is no sender; otherwise the sender moves to the loop and the receiver runs |
| Receiver.Iceoryx2Receiver.Stop | amadeus/src/ipc/iceoryx2_receiver.rs:87-99 | a no-op when stopped; otherwise the flag is cleared and the tokio task joined |
| Receiver.RestartFindsNoSender | amadeus/src/ipc/iceoryx2_receiver.rs:59-99 | start, stop and start again fails the second time: the sender was taken by the first start |
| Iceoryx2Dispatcher.WithService | amadeus/src/dispatcher/iceoryx2.rs:39-49 | the default name, the given node and service, and an empty subscription set, which means every type |
| Iceoryx2Dispatcher.New | amadeus/src/dispatcher/iceoryx2.rs:34-36 | `with_service` on the default service name |
| Iceoryx2Dispatcher.WithName | amadeus/src/dispatcher/iceoryx2.rs:52-55 | the name changes and nothing else |
| Iceoryx2Dispatcher.SubscribeTo | amadeus/src/dispatcher/iceoryx2.rs:67-73 | the subscription set becomes exactly the listed types; name, node and service are kept |
| Iceoryx2Dispatcher.SubscribeToOne | amadeus/src/dispatcher/iceoryx2.rs:76-79 | one type is added and the others are kept |
| Iceoryx2Dispatcher.SubscribeOneByOne | amadeus/src/dispatcher/iceoryx2.rs:67-79 | subscribing one type at a time from an empty set gives the same set as `subscribe_to` |
| Iceoryx2Dispatcher.PrepareEnvelope | amadeus/src/dispatcher/iceoryx2.rs:221-234 | a serialisation failure is reported as such; otherwise the result is packing the JSON under the message type with the priority's discriminant and the message timestamp, and its error |
| Iceoryx2Dispatcher.BridgeRoundTrip | amadeus/src/dispatcher/iceoryx2.rs:221-234 | a receiver on the same service converts a prepared envelope back to the same type, priority and timestamp, with the serialised message as payload |
| Iceoryx2Dispatcher.PublishChannel.constructor | amadeus/src/dispatcher/iceoryx2.rs:97 | a new channel holds nothing and its receiver is alive |
| Iceoryx2Dispatcher.PublishChannel.Send | amadeus/src/dispatcher/iceoryx2.rs:237-238 | an envelope is queued after the earlier ones exactly when the receiver is alive; otherwise the send fails and nothing is queued |
| Iceoryx2Dispatcher.PublishChannel.Close | amadeus/src/dispatcher/iceoryx2.rs:97-186 | the publisher thread has ended: the receiver is gone and the queue is kept |
| Iceoryx2Dispatcher.Iceoryx2Dispatcher.constructor | amadeus/src/dispatcher/iceoryx2.rs:39-49 | not running, no channel, no task |
| Iceoryx2Dispatcher.Iceoryx2Dispatcher.Start | amadeus/src/dispatcher/iceoryx2.rs:87-186 | a no-op when running; otherwise a new empty channel with a live receiver is made and the dispatcher runs |
| Iceoryx2Dispatcher.Iceoryx2Dispatcher.Stop | amadeus/src/dispatcher/iceoryx2.rs:188-209 | a no-op when stopped; otherwise the flag is cleared and the sender dropped |
| Iceoryx2Dispatcher.Iceoryx2Dispatcher.SendMessage | amadeus/src/dispatcher/iceoryx2.rs:211-241 | refused when not running, then when there is no channel, then with the conversion's error, then with a send error when the receiver is gone; otherwise exactly the prepared envelope is queued; a refusal queues nothing |
| DispatcherPlugin.PluginIdentity | amadeus/src/plugins/iceoryx2_dispatcher/mod.rs:36-64 | named `Iceoryx2Dispatcher`, version 0.1.0, enabled, no author, the single property role = dispatcher, and privileged |
| DispatcherPlugin.Inbound | amadeus/src/plugins/iceoryx2_dispatcher/mod.rs:165-178 | a sample is kept exactly when its body decodes and deserialises and the message is not marked as this plugin's own; a kept message is the deserialised one, unchanged |
| DispatcherPlugin.Outbound | amadeus/src/plugins/iceoryx2_dispatcher/mod.rs:248-287 | a message is sent exactly when it is not from the iceoryx2 source and it packs; what is sent is the packed envelope |
| DispatcherPlugin.InboundsFiltered | amadeus/src/plugins/iceoryx2_dispatcher/mod.rs:162-178 | the receive thread forwards at most what it took, never this plugin's own messages, and each one comes from some sample |
| DispatcherPlugin.OutboundsFiltered | amadeus/src/plugins/iceoryx2_dispatcher/mod.rs:248-287 | the forwarding task sends at most what it received, never a message from iceoryx2, and each envelope packs some received message |
| DispatcherPlugin.PublishedMessageComesBack | amadeus/src/plugins/iceoryx2_dispatcher/mod.rs:165-287 | a message from another source that is published and read back from the same service passes both filters unchanged |
| DispatcherPlugin.Iceoryx2DispatcherPlugin.WithService | amadeus/src/plugins/iceoryx2_dispatcher/mod.rs:36-54 | the plugin's metadata, the given names, not running, no channel, no threads |
| DispatcherPlugin.Iceoryx2DispatcherPlugin.constructor | amadeus/src/plugins/iceoryx2_dispatcher/mod.rs:32-34 | the same on the default service |
| DispatcherPlugin.Iceoryx2DispatcherPlugin.SetupMessaging | amadeus/src/plugins/iceoryx2_dispatcher/mod.rs:75-114 | a new empty publisher channel with a live receiver, the running flag set, both threads started |
| DispatcherPlugin.Iceoryx2DispatcherPlugin.Stop | amadeus/src/plugins/iceoryx2_dispatcher/mod.rs:296-306 | the flag is cleared and both threads joined; the sender is kept, and it is closed when a publisher thread was running, since that thread's receiver is dropped when it ends |
| DispatcherPlugin.Iceoryx2DispatcherPlugin.ForwardInbound | amadeus/src/plugins/iceoryx2_dispatcher/mod.rs:162-178 | the receive thread forwards the filtered samples in order |
| DispatcherPlugin.Iceoryx2DispatcherPlugin.ForwardOutbound | amadeus/src/plugins/iceoryx2_dispatcher/mod.rs:248-287 | while the publisher thread holds its receiver, the filtered and packed messages are queued in order; once it has dropped it nothing is queued, since a failed send is ignored |
| Messages.NewMessageType | amadeus/src/message.rs:10-32 | `new`, `From<&str>` and `From<String>` keep the text unchanged |
| Messages.MessageTypeInjective | amadeus/src/message.rs:10-32 | two message types are equal exactly when their texts are |
| Messages.Discriminant | amadeus/src/message.rs:36-41 | every discriminant is below 4 |
| Messages.DefaultPriority | amadeus/src/message.rs:43-47 | the default priority is Normal, discriminant 1 |
| Messages.PriorityOrder | amadeus/src/message.rs:35-41 | the derived order is strict, total and transitive, and runs Low, Normal, High, Critical |
| Messages.Timestamp | amadeus/src/message.rs:150-156 | the clock reading in milliseconds, unchanged while it fits in `u64` |
| Messages.New | amadeus/src/message.rs:82-96 | the given type and payload, System source, Normal priority, no id, no metadata |
| Messages.FromExternal | amadeus/src/message.rs:98-113 | the same with an External source |
| Messages.FromPlugin | amadeus/src/message.rs:115-130 | the same with a Plugin source |
| Messages.WithPriority | amadeus/src/message.rs:132-135 | the priority is the given one and every other field is kept |
| Messages.WithId | amadeus/src/message.rs:138-141 | the id is the given one and every other field is kept |
| Messages.WithMetadata | amadeus/src/message.rs:144-147 | the key maps to the value, replacing an earlier value; the keys are the old ones plus that key, every other entry and every other field is kept |
| Messages.BuildersIndependent | amadeus/src/message.rs:132-148 | the builders commute, the last priority or id set wins, and a metadata write keeps every other key |
| User.MatchFrom | amadeus/src/core/user.rs:48-56 | a pattern split into the same segments as the requirement grants it |
| User.Matches | amadeus/src/core/user.rs:41-57 | the pattern `*` grants everything, and every pattern grants its own text |
| User.HasPermission | amadeus/src/core/user.rs:107-116 | holding the required permission or `*` grants it; without an `admin` or `root` role and with no permissions nothing is granted |
| User.MatchFromIff | amadeus/src/core/user.rs:48-56 | the segment loop from an agreeing prefix grants exactly when a `*` follows agreeing segments or the pattern is a segment-wise prefix of the requirement |
| User.MatchesIff | amadeus/src/core/user.rs:41-57 | `matches` holds exactly for `*`, for a `*` segment after segments that all agree, and for a segment-wise prefix |
| User.WildcardGrantsAll | amadeus/src/core/user.rs:42-44 | `*` grants every permission |
| User.ScopeWildcard | amadeus/src/core/user.rs:39-57 | `scope:*` grants the scope itself and everything under it |
| User.PrefixPattern | amadeus/src/core/user.rs:48-56 | a pattern without wildcard grants itself and anything it is a segment prefix of |
| User.Refusals | amadeus/src/core/user.rs:52-54 | `a:b` does not grant `a`, and `a` does not grant a different `c` |
| User.NewContext | amadeus/src/core/user.rs:88-95 | the given user, no roles, no permissions, no expiry |
| User.WithPermission | amadeus/src/core/user.rs:97-100 | adds exactly that permission and keeps everything else |
| User.WithRole | amadeus/src/core/user.rs:102-105 | appends the role and keeps everything else |
| User.ContextBasics | amadeus/src/core/user.rs:88-116 | a fresh context holds nothing; an `admin` or `root` role holds everything |
| User.BuildersGrant | amadeus/src/core/user.rs:97-116 | a new permission adds exactly what it matches; a new role adds everything if it is `admin` or `root` and nothing otherwise |
| DistributionCenter.DistributionCenter.constructor | amadeus/src/core/messaging/distribution_center.rs:30-32 | `new` is `with_capacity(1024)`: no channels, no direct channels, no global subscribers, no subscriptions, capacity 1024 |
| DistributionCenter.DistributionCenter.WithCapacity | amadeus/src/core/messaging/distribution_center.rs:35-43 | every table starts empty and the capacity is the one given |
| DistributionCenter.DistributionCenter.SubscribeAll | amadeus/src/core/messaging/distribution_center.rs:46-51 | a new global channel with exactly one receiver is added and its receiver returned; the typed channels, direct channels and subscription lists are unchanged |
| DistributionCenter.DistributionCenter.RegisterDirectChannel | amadeus/src/core/messaging/distribution_center.rs:54-57 | the plugin id maps to the given sender, replacing any earlier one; nothing else changes |
| DistributionCenter.DistributionCenter.SendDirect | amadeus/src/core/messaging/distribution_center.rs:60-68 | an unregistered id gives an error naming it; a registered but closed channel gives a send error; otherwise the message is appended to that channel's queue and Ok is returned |
| DistributionCenter.DistributionCenter.Subscribe | amadeus/src/core/messaging/distribution_center.rs:78-104 | the type's channel is created only when missing and gains one receiver, which is returned; the type is appended to the plugin's list even when already present; the other tables are unchanged |
| DistributionCenter.WithoutContents | amadeus/src/core/messaging/distribution_center.rs:107-113 | the `retain` used by `unsubscribe` keeps exactly the types other than the removed one and never lengthens the list |
| DistributionCenter.WithoutAbsent | amadeus/src/core/messaging/distribution_center.rs:107-113 | removing a type the plugin is not subscribed to leaves its list as it is |
| DistributionCenter.DistributionCenter.Unsubscribe | amadeus/src/core/messaging/distribution_center.rs:107-113 | every occurrence of the type leaves the plugin's list (a plugin with no entry is unaffected); the broadcast channels remain |
| DistributionCenter.DistributionCenter.UnsubscribeAll | amadeus/src/core/messaging/distribution_center.rs:116-119 | the plugin's entry is removed from the subscription table and nothing else changes |
| DistributionCenter.UnsubscribeClears | amadeus/src/core/messaging/distribution_center.rs:107-119 | after `unsubscribe` the plugin has no subscription to that type, and after `unsubscribe_all` it has none at all |
| DistributionCenter.DistributionCenter.Distribute | amadeus/src/core/messaging/distribution_center.rs:125-143 | the count returned is the receivers of the message type's channel, if it has one, plus the receivers of every global channel |
| DistributionCenter.DistributionCenter.GetSubscriptionStats | amadeus/src/core/messaging/distribution_center.rs:146-155 | the map has exactly the names of the types that have a channel, each with that channel's receiver count |
| DistributionCenter.DistributionCenter.GetPluginSubscriptions | amadeus/src/core/messaging/distribution_center.rs:158-164 | the plugin's list of subscribed types, or the empty list when it has no entry |
| Plugin.NewMetadata | amadeus/src/plugin.rs:31-40 | a fresh metadata record carries the given name, description and version, is enabled by default, has no author and no properties |
| Plugin.MetadataBuildersIndependent | amadeus/src/plugin.rs:43-58 | `enabled_by_default`, `author` and `with_property` each set their own field only, so they commute; a property write sets that key and keeps every other key and the name |
| Plugin.Keep | amadeus/src/plugin.rs:160-197 | the filtering used by the registration helpers keeps exactly the plugins whose metadata passes, never more than were given |
| Plugin.KeepAppend | amadeus/src/plugin.rs:186-197 | filtering distributes over concatenation, so registration keeps the order the plugins were given in |
| Plugin.KeepExtremes | amadeus/src/plugin.rs:186-197 | a filter that accepts all plugins registers them all unchanged; one that rejects all registers none |
| Lifecycle.Answers | amadeus/src/plugin.rs:68-96 | one hook's answer per registered component, in registration order; the plugin registry and the dispatcher registry both use it |
| Plugin.PluginRegistry.constructor | amadeus/src/plugin.rs:111-115 | a new registry has no plugins and no hook has been called |
| Plugin.PluginRegistry.WithEnabledPlugins | amadeus/src/plugin.rs:118-122 | only the plugins enabled by default are kept, in order |
| Plugin.PluginRegistry.WithAllPlugins | amadeus/src/plugin.rs:125-129 | every plugin given is kept, in order |
| Plugin.PluginRegistry.Register | amadeus/src/plugin.rs:146-149 | the plugin is appended at the end |
| Plugin.PluginRegistry.RegisterAll | amadeus/src/plugin.rs:152-157 | all plugins given are appended, in order |
| Plugin.PluginRegistry.RegisterEnabled | amadeus/src/plugin.rs:160-172 | exactly the plugins enabled by default are appended, in order |
| Plugin.PluginRegistry.RegisterByNames | amadeus/src/plugin.rs:175-183 | exactly the plugins whose name is in the list are appended, in their given order |
| Plugin.PluginRegistry.RegisterFiltered | amadeus/src/plugin.rs:186-197 | exactly the plugins whose metadata passes the filter are appended, in order |
| Plugin.PluginRegistry.RunForward | amadeus/src/plugin.rs:210-225 | the hook is called on plugins 0, 1, … up to and including the first that fails and on none after it; the result is Ok when all succeed, else that first error |
| Plugin.PluginRegistry.RunBackward | amadeus/src/plugin.rs:228-234 | the hook is called from the last plugin towards the first, stopping after the first failure, whose error is the result |
| Plugin.PluginRegistry.InitAll | amadeus/src/plugin.rs:210-216 | `init` runs in registration order and stops at the first failing plugin, whose error is returned |
| Plugin.PluginRegistry.StartAll | amadeus/src/plugin.rs:219-225 | `start` runs in registration order and stops at the first failing plugin, whose error is returned |
| Plugin.PluginRegistry.StopAll | amadeus/src/plugin.rs:228-234 | `stop` runs in reverse registration order and stops at the first failing plugin, whose error is returned |
| Plugin.PluginRegistry.Startup | amadeus/src/plugin.rs:237-241 | `init_all`; then `start_all` only when every plugin initialised; a failing `init` means no plugin is started and its error is returned |
| Plugin.PluginRegistry.Shutdown | amadeus/src/plugin.rs:244-247 | the same calls and result as `stop_all` |
| Plugin.PluginRegistry.SetupMessaging | amadeus/src/plugin.rs:276-310 | every plugin's `setup_messaging` is called once, in order, whatever each returns, and the result is always Ok |
| Plugin.ForwardRunStopsAtFailure | amadeus/src/plugin.rs:210-225 | when plugin k is the first to fail, exactly k+1 plugins are called and the run's result is plugin k's error |
| Plugin.BackwardRunVisitsAll | amadeus/src/plugin.rs:228-234 | when every plugin stops cleanly, `stop_all` calls each exactly once, last registered first, and returns Ok |
| Lifecycle.FirstErr | amadeus/src/plugin.rs:210-216 | the index of the first failing answer: every answer before it is Ok, and the one at it (if any) is an error |
| Lifecycle.FirstErrAt | amadeus/src/plugin.rs:210-216 | any index with only Ok answers before it and an error at it (or the end) is the first failure |
| Lifecycle.Reached | amadeus/src/plugin.rs:210-216 | the number of hooks a `?`-chained loop calls: all of them, or up to and including one that failed |
| Lifecycle.Verdict | amadeus/src/plugin.rs:210-216 | a `?`-chained loop returns Ok exactly when every answer is Ok, and otherwise the error of the last hook it called |
| DispatcherRegistry.DispatcherRegistry.constructor | amadeus/src/dispatcher/mod.rs:37-41 | a new registry holds no dispatcher and no hook has been called |
| DispatcherRegistry.DispatcherRegistry.Register | amadeus/src/dispatcher/mod.rs:44-47 | the dispatcher is appended at the end |
| DispatcherRegistry.DispatcherRegistry.StartAll | amadeus/src/dispatcher/mod.rs:60-67 | `start` is called in registration order up to and including the first failure, whose error is returned; Ok when all start |
| DispatcherRegistry.DispatcherRegistry.StopAll | amadeus/src/dispatcher/mod.rs:70-77 | `stop` is called from the last registered towards the first, up to and including the first failure, whose error is returned |
| DispatcherRegistry.StopFailureOfLastStopsEarly | amadeus/src/dispatcher/mod.rs:70-77 | when the last registered dispatcher fails to stop, it is the only one called and its error is the result |
| MemoTypes.DecodeTags | amadeus/src/plugins/core_system/storage/types.rs:35-37 | a NULL tags column and one that does not parse as a list both decode to no tags; otherwise the parsed list |
| MemoTypes.FromRow | amadeus/src/plugins/core_system/storage/types.rs:33-52 | the record copies every column but metadata and carries the decoded tags |
| MemoTypes.FromRowIgnoresMetadata | amadeus/src/plugins/core_system/storage/types.rs:33-52 | two rows differing only in metadata, or in tags text that decodes alike, give the same record |
| MemoTypes.TagPattern | amadeus/src/plugins/core_system/storage/mod.rs:221-227 | the text searched for a tag is the tag wrapped in double quotes |
| MemoTypes.QuotedListHasEach | amadeus/src/plugins/core_system/storage/mod.rs:221-227 | a JSON array of tags contains each of its tags in quotes |
| MemoTypes.EncodedTagFound | amadeus/src/plugins/core_system/storage/mod.rs:216-229 | a tag search matches every tag of a column written as a JSON array, so it never misses a stored tag |
| MemoTypes.CommaTagFalsePositive | amadeus/src/plugins/core_system/storage/mod.rs:216-229 | the search is textual: the tag `,` matches any column listing two or more tags |
| MemoQuery.AllHoldSnoc | amadeus/src/plugins/core_system/storage/mod.rs:175-231 | adding one `AND` condition keeps exactly the rows that met the earlier ones and meet the new one |
| MemoQuery.Push | amadeus/src/plugins/core_system/storage/mod.rs:175-231 | a pushed condition narrows the selection by exactly that condition |
| MemoQuery.PushStatus | amadeus/src/plugins/core_system/storage/mod.rs:184-192 | no status hides deleted memos; `all` adds no condition; any other status selects that status only |
| MemoQuery.PushTags | amadeus/src/plugins/core_system/storage/mod.rs:216-229 | an empty or absent tag list adds no condition; otherwise a row is kept when its tags column matches any of the tags |
| MemoQuery.BuildQuery | amadeus/src/plugins/core_system/storage/mod.rs:174-243 | the WHERE clause built keeps a row exactly when it meets every filter given (user, status, minimum priority, date range, keyword, tags); limit and offset are passed through |
| MemoQuery.SelectRows | amadeus/src/plugins/core_system/storage/mod.rs:175-231 | the selected rows are exactly the stored rows meeting the filters, each at most as often as stored |
| MemoQuery.PrecedesTotal | amadeus/src/plugins/core_system/storage/mod.rs:233 | the `ORDER BY todo_date ASC, priority DESC, created_at DESC` order relates any two rows |
| MemoQuery.PrecedesTransitive | amadeus/src/plugins/core_system/storage/mod.rs:233 | that order is transitive |
| MemoQuery.Insert | amadeus/src/plugins/core_system/storage/mod.rs:233 | inserting into an ordered list keeps it ordered and adds exactly the one row |
| MemoQuery.SortRows | amadeus/src/plugins/core_system/storage/mod.rs:233 | the sorted rows are ordered and a permutation of the input |
| MemoQuery.Skip | amadeus/src/plugins/core_system/storage/mod.rs:240-243 | the number of rows an OFFSET skips: the offset when given and non-negative, else none |
| MemoQuery.Paginate | amadeus/src/plugins/core_system/storage/mod.rs:236-243 | the page is the run of rows starting after the offset, at most `limit` long (a negative limit meaning no limit) |
| MemoQuery.PagesTile | amadeus/src/plugins/core_system/storage/mod.rs:236-243 | a page of k rows at offset o followed by everything from offset o+k is everything from offset o |
| MemoQuery.AnswerSound | amadeus/src/plugins/core_system/storage/mod.rs:174-249 | every record returned is a stored row meeting the filters, and the answer is in the ORDER BY order |
| MemoQuery.AnswerComplete | amadeus/src/plugins/core_system/storage/mod.rs:174-249 | without limit and offset, every stored row meeting the filters is returned, as often as stored |
| MemoQuery.Records | amadeus/src/plugins/core_system/storage/mod.rs:247-248 | one record per row, converted by `MemoRecord::from` |
| MemoQuery.PaginateAsWritten | amadeus/src/plugins/core_system/storage/mod.rs:236-243 | as written, an OFFSET without a LIMIT is a SQL syntax error; every other combination pages as intended |
| MemoQuery.OffsetWithoutLimit | amadeus/src/plugins/core_system/storage/mod.rs:236-243 | with two rows, no limit and offset 1, the query as written fails, while the intended answer is the second row |
| MemoQuery.OffsetAloneSkips | amadeus/src/plugins/core_system/storage/mod.rs:236-243 | intended behaviour: an offset alone skips that many rows and returns the rest |
| MemoStorage.ExpireAll | amadeus/src/plugins/core_system/storage/mod.rs:253-272 | every row is replaced by its expired form, row by row, in place |
| MemoStorage.ExpireAllIdempotent | amadeus/src/plugins/core_system/storage/mod.rs:253-272 | after one expiry pass nothing is left to expire, and a second pass changes nothing |
| MemoStorage.ExpireChangesOnlyStatus | amadeus/src/plugins/core_system/storage/mod.rs:257-265 | expiry changes only the status, and only from pending to expired |
| MemoStorage.KeptRows | amadeus/src/plugins/core_system/storage/mod.rs:276-296 | the scan leaves exactly the rows the recycle delete keeps, in table order |
| MemoStorage.Retain | amadeus/src/plugins/core_system/storage/mod.rs:276-296 | the rows kept by the recycle delete are exactly those that are not expired with a todo date before the cutoff |
| MemoStorage.RetainIncreasing | amadeus/src/plugins/core_system/storage/mod.rs:276-296 | deleting rows keeps the remaining ids in increasing order |
| MemoStorage.RetainKeys | amadeus/src/plugins/core_system/storage/mod.rs:276-296 | after recycling, ids remain increasing and below the next id to be assigned |
| MemoStorage.RecycleKeepsLive | amadeus/src/plugins/core_system/storage/mod.rs:276-296 | a memo that is not expired, or whose todo date is within the retention window, survives recycling |
| MemoStorage.Reminders | amadeus/src/plugins/core_system/storage/mod.rs:300-324 | the active reminders are exactly the pending rows with a reminder time or a cron pattern |
| MemoStorage.InfoOf | amadeus/src/plugins/core_system/storage/mod.rs:409-424 | a `UserInfo` read from a user row carries its id, name, platform and platform user id |
| MemoStorage.FindByPlatform | amadeus/src/plugins/core_system/storage/mod.rs:409-424 | a user is found exactly when one with that platform and platform user id exists, and the one found matches |
| MemoStorage.FindById | amadeus/src/plugins/core_system/storage/mod.rs:451-468 | a user is found exactly when one has that id, and the one found has it |
| MemoStorage.RolesOf | amadeus/src/plugins/core_system/storage/mod.rs:470-478 | the roles listed for a user are exactly the roles granted to that user |
| MemoStorage.MetadataIn | amadeus/src/plugins/core_system/storage/mod.rs:398-405 | reading metadata distinguishes a missing memo, a memo with NULL metadata and one with metadata text, each describing a stored row |
| MemoStorage.MetadataOfAppended | amadeus/src/plugins/core_system/storage/mod.rs:398-405 | a freshly inserted memo's metadata reads back as it was written |
| MemoStorage.GrantThenResolve | amadeus/src/plugins/core_system/storage/mod.rs:426-518 | a user that was created, given a role, and whose role was given a permission, resolves to a context that has that role and that permission |
| MemoStorage.Storage.constructor | amadeus/src/plugins/core_system/storage/mod.rs:17-41 | a new store has no memos, users or grants, and the first id is 1 |
| MemoStorage.Storage.AddMemo | amadeus/src/plugins/core_system/storage/mod.rs:134-170 | the new memo gets the next id, which no earlier memo has; it is appended pending with no metadata and the given columns; the other tables are unchanged |
| MemoStorage.Storage.QueryMemos | amadeus/src/plugins/core_system/storage/mod.rs:174-250 | fails with the SQL syntax error exactly when an offset is given without a limit, since `OFFSET` is appended without `LIMIT`; otherwise the records are the filtered, ordered, paginated rows, each converted to a record |
| MemoStorage.Storage.MarkExpiredMemos | amadeus/src/plugins/core_system/storage/mod.rs:253-272 | every pending memo with a past todo date becomes expired, and the count is how many did |
| MemoStorage.Storage.RecycleExpiredMemos | amadeus/src/plugins/core_system/storage/mod.rs:276-296 | expired memos whose todo date is older than the given number of days are deleted, and the count is how many were |
| MemoStorage.Storage.ActiveReminders | amadeus/src/plugins/core_system/storage/mod.rs:300-324 | exactly the pending memos with a reminder time or cron pattern, as reminder tuples |
| MemoStorage.Storage.UpdateWhere | amadeus/src/plugins/core_system/storage/mod.rs:327-375 | the row with the given id is rewritten; every other row is unchanged |
| MemoStorage.Storage.UpdateMemo | amadeus/src/plugins/core_system/storage/mod.rs:327-375 | a patch with no field set is an error and changes nothing; otherwise the set fields are written to the memo with that id and every other row is unchanged |
| MemoStorage.Storage.UpdateMemoStatus | amadeus/src/plugins/core_system/storage/mod.rs:378-385 | the memo with that id takes the new status; all other rows are unchanged |
| MemoStorage.Storage.UpdateMemoMetadata | amadeus/src/plugins/core_system/storage/mod.rs:388-395 | the memo with that id takes the new metadata; all other rows are unchanged |
| MemoStorage.Storage.GetMemoMetadata | amadeus/src/plugins/core_system/storage/mod.rs:398-405 | no memo, NULL metadata, or the stored metadata text of the memo with that id |
| MemoStorage.Storage.GetUserByPlatform | amadeus/src/plugins/core_system/storage/mod.rs:409-424 | the user with that platform and platform user id, or none when there is no such user |
| MemoStorage.Storage.CreateUser | amadeus/src/plugins/core_system/storage/mod.rs:426-449 | a new user row with the given uuid and time is appended; a uuid already in use is a duplicate key error that changes nothing |
| MemoStorage.Storage.GetUserContext | amadeus/src/plugins/core_system/storage/mod.rs:451-500 | none for an unknown user; otherwise the user's info, granted roles, the permissions of those roles, and no expiry |
| MemoStorage.Storage.AddRoleToUser | amadeus/src/plugins/core_system/storage/mod.rs:502-509 | a role for an unknown user is refused; a grant already present is ignored; otherwise it is added |
| MemoStorage.Storage.AddPermissionToRole | amadeus/src/plugins/core_system/storage/mod.rs:511-518 | a permission already granted is ignored; otherwise it is added |
| LegacyStorage.CountDueIsChanged | amadeus/src/storage/mod.rs:107-126 | the count returned by the expiry update is exactly the number of rows the update changes |
| LegacyStorage.Reminders | amadeus/src/storage/mod.rs:129-153 | the active reminders are exactly the pending rows with a reminder time or a cron pattern, as reminder tuples |
| LegacyStorage.Tagged | amadeus/src/storage/mod.rs:186-212 | exactly the pending rows whose tags column contains the tag in quotes, as (id, content) pairs |
| LegacyStorage.MetadataIn | amadeus/src/storage/mod.rs:176-183 | reading metadata distinguishes a missing memo, a memo with NULL metadata and one with metadata text, each describing a stored row |
| LegacyStorage.LegacyStorage.constructor | amadeus/src/storage/mod.rs:12-36 | a new store has no memos and the first id is 1 |
| LegacyStorage.LegacyStorage.AddMemo | amadeus/src/storage/mod.rs:81-104 | the new memo gets the next id, which no earlier memo has, and is appended pending with no metadata and the given columns |
| LegacyStorage.LegacyStorage.MarkExpiredMemos | amadeus/src/storage/mod.rs:107-126 | each pending memo with a todo date before now becomes expired, every other row is unchanged, and the count is how many changed |
| LegacyStorage.LegacyStorage.ActiveReminders | amadeus/src/storage/mod.rs:129-153 | exactly the pending memos with a reminder time or a cron pattern |
| LegacyStorage.LegacyStorage.UpdateMemoStatus | amadeus/src/storage/mod.rs:156-163 | the memo with that id takes the new status; all other rows are unchanged |
| LegacyStorage.LegacyStorage.UpdateMemoMetadata | amadeus/src/storage/mod.rs:166-173 | the memo with that id takes the new metadata; all other rows are unchanged |
| LegacyStorage.LegacyStorage.GetMemoMetadata | amadeus/src/storage/mod.rs:176-183 | no memo, NULL metadata, or the stored metadata text of the memo with that id |
| LegacyStorage.LegacyStorage.GetMemosByTag | amadeus/src/storage/mod.rs:186-212 | exactly the pending memos whose tags column contains the tag in quotes |
| LegacyStorage.StoredTagFound | amadeus/src/storage/mod.rs:81-104 | a memo added with a JSON array of tags is found by a search for any one of those tags |
| CoreConfig.Renders | amadeus/src/plugins/core_system/mod.rs:342-347 | with a template of the form prefix, `{content}`, suffix, the reminder text is prefix, content, suffix |
| CoreConfig.Unconfigured | amadeus/src/plugins/core_system/mod.rs:342-347 | a priority with no template gives the content unchanged, and a missing priority is read as 1 |
| CoreConfig.Default | amadeus/src/plugins/core_system/config.rs:24-54 | priorities 0 to 3 named Low, Normal, High and Critical, coloured gray, blue, orange and red, with their four templates, and 30 days of retention |
| CoreConfig.DefaultReminders | amadeus/src/plugins/core_system/config.rs:24-54 | with the default table every template has the placeholder, the four priorities render as their templates say, no priority renders as Normal, and any other priority yields the content alone |
| CoreRequests.Outbox.constructor | amadeus/src/plugins/core_system/mod.rs:120-130 | nothing has been sent yet |
| CoreRequests.Outbox.Send | amadeus/src/plugins/core_system/mod.rs:399-403 | the message is appended to what was sent |
| CoreRequests.AsString | amadeus/src/plugins/core_system/mod.rs:492 | `as_str` succeeds exactly on JSON strings |
| CoreRequests.AsI64 | amadeus/src/plugins/core_system/mod.rs:60-62 | a JSON number decodes to an `i64` exactly when it lies in the 64-bit signed range, and keeps its value |
| CoreRequests.AsI32 | amadeus/src/plugins/core_system/mod.rs:34 | a JSON number decodes to an `i32` exactly when it lies in the 32-bit signed range, and keeps its value |
| CoreRequests.StringItems | amadeus/src/plugins/core_system/mod.rs:32 | a list of JSON values decodes to strings exactly when every item is a string, keeping length and order |
| CoreRequests.AsStringList | amadeus/src/plugins/core_system/mod.rs:32 | `Vec<String>` decodes exactly from a JSON array of strings |
| CoreRequests.OptField | amadeus/src/plugins/core_system/mod.rs:29-36 | an absent or null optional field decodes to None; present, it must decode or the whole request fails |
| CoreRequests.DecodeCreate | amadeus/src/plugins/core_system/mod.rs:28-36 | a create request decodes exactly when the value is an object with a string `content` and each of `cron`, `remind_at`, `tags`, `todo_date` and `priority` is absent, null or of its type; the request carries that content and those fields |
| CoreRequests.DecodeAction | amadeus/src/plugins/core_system/mod.rs:59-62 | an action request decodes exactly from an object whose `id` is an `i64`, which it carries |
| CoreRequests.DecodeActionOf | amadeus/src/plugins/core_system/mod.rs:59-62 | `{"id": n}` decodes to n for every `i64` n |
| CoreRequests.DecodeQuery | amadeus/src/plugins/core_system/mod.rs:52-57 | a query decodes exactly when the value is an object whose nine optional fields are each absent, null or of their type; the query carries those fields, and the empty object is the query with no filter |
| CoreRequests.RecordsJson | amadeus/src/plugins/core_system/mod.rs:476-481 | one JSON object per record, in order |
| CoreRequests.DecodeCreateMinimal | amadeus/src/plugins/core_system/mod.rs:28-36 | `{"content": c}` decodes to a request with only content c |
| CoreRequests.DecodeCreateBadPriority | amadeus/src/plugins/core_system/mod.rs:28-36 | a priority that is not a number makes the whole create request undecodable |
| CoreSystem.OwnerOf | amadeus/src/plugins/core_system/mod.rs:319-320 | the memo belongs to the sender's user id exactly when the message carries a user context |
| CoreSystem.TagsColumn | amadeus/src/plugins/core_system/mod.rs:322-323 | the tags column is the JSON array of the tags, present exactly when tags were given |
| CoreSystem.MetadataNamesCreatedJobs | amadeus/src/plugins/core_system/mod.rs:335-392 | the uuids recorded in the memo's metadata are exactly those of the jobs the create scheduled |
| CoreSystem.PrimaryReminderText | amadeus/src/plugins/core_system/mod.rs:341-358 | the memo's cron job sends `system.memo.remind` with type `primary` and the reminder text configured for its priority |
| CoreSystem.NewRow | amadeus/src/plugins/core_system/mod.rs:325-333 | the stored row is pending, has no metadata yet, carries the request's fields, the owner and the priority defaulting to Normal |
| CoreSystem.HandleCreate | amadeus/src/plugins/core_system/mod.rs:315-410 | an undecodable payload changes nothing; otherwise the memo is stored under the next id, its cron job and (for a stage goal) a daily job are scheduled, their uuids are written as its metadata, the scheduler's uuid counter advances by the jobs added and `system.memo.created` is sent |
| CoreSystem.ScheduleCreateJobs | amadeus/src/plugins/core_system/mod.rs:340-392 | the main job is added when a cron is given and accepted, then the daily job when tagged `stage_goal` and accepted, and the metadata records exactly the uuids of the jobs added; the uuid counter advances by their number |
| CoreSystem.JobsToRemove | amadeus/src/plugins/core_system/mod.rs:416-434 | the jobs cancelled are the recorded uuids that parse, and no other |
| CoreSystem.WithStatus | amadeus/src/plugins/core_system/mod.rs:438 | the table after the status update changes only the rows with that id, and only their status |
| CoreSystem.HandleAction | amadeus/src/plugins/core_system/mod.rs:411-450 | an undecodable payload changes nothing; NULL metadata panics with nothing changed; otherwise the recorded jobs are cancelled, the status becomes completed or deleted and the success reply is sent |
| CoreSystem.SetStatus | amadeus/src/plugins/core_system/mod.rs:438 | the status update rewrites exactly the rows with that id |
| CoreSystem.CancelJobs | amadeus/src/plugins/core_system/mod.rs:419-433 | the scheduler loses the main job and each extra job whose uuid parses, and nothing else |
| CoreSystem.CancelExtras | amadeus/src/plugins/core_system/mod.rs:426-433 | the loop over the extra jobs removes exactly those whose uuid parses |
| CoreSystem.CancelUndoesCreate | amadeus/src/plugins/core_system/mod.rs:335-434 | when the metadata reads back as written and the new uuids are fresh and parse, cancelling removes exactly the jobs the create added |
| CoreSystem.CreateStep | amadeus/src/plugins/core_system/mod.rs:315-410 | a create adds its jobs and leaves metadata naming them, readable under the new id |
| CoreSystem.CompleteStep | amadeus/src/plugins/core_system/mod.rs:411-450 | completing a memo without NULL metadata drops exactly the jobs its metadata names |
| CoreSystem.CreateThenComplete | amadeus/src/plugins/core_system/mod.rs:315-450 | a create followed by the complete of the same memo leaves the scheduler with exactly the jobs it had |
| CoreSystem.ListParams | amadeus/src/plugins/core_system/mod.rs:451-473 | the query is the payload's filters (none when it does not decode), with the caller's own user id filled in when none is given and the caller is not an administrator |
| CoreSystem.HandleList | amadeus/src/plugins/core_system/mod.rs:451-485 | when the parameters put an offset without a limit, the query fails and nothing is sent; otherwise the reply lists the records the query answers for those parameters |
| CoreSystem.ListsOwnMemos | amadeus/src/plugins/core_system/mod.rs:465-473 | a caller who is not an administrator and names no user is shown only their own memos whenever a reply is sent |
| CoreSystem.AdminListsAll | amadeus/src/plugins/core_system/mod.rs:451-473 | an administrator sending an empty request gets a query with no pagination, so a reply is sent, and it shows every memo that is not deleted |
| CoreSystem.ScheduledMessage | amadeus/src/plugins/core_system/mod.rs:495-496 | the message to schedule is the payload's `message` field, decoded; none when the field is missing |
| CoreSystem.HandleSchedule | amadeus/src/plugins/core_system/mod.rs:490-514 | with a string cron, a decodable message and a cron the scheduler accepts, one job is added and `system.schedule.added` sent with its uuid; otherwise nothing changes |
| CoreSystem.ResolvedReplies | amadeus/src/plugins/core_system/mod.rs:530-538 | only a plugin sender gets a reply: one direct `system.user.resolved` message to it |
| CoreSystem.OnlyRole | amadeus/src/plugins/core_system/mod.rs:546-560 | a user with no grant yet, once given a role, holds exactly that role |
| CoreSystem.NoRoles | amadeus/src/plugins/core_system/mod.rs:546-560 | a user with no grant holds no role |
| CoreSystem.HandleResolve | amadeus/src/plugins/core_system/mod.rs:518-568 | a missing platform or platform user id changes nothing; a known user is answered with their context; an unknown one is created (named Unknown when no name is given) with the single role `user` and answered; a uuid clash changes nothing |
| CoreSystem.CreateAndResolve | amadeus/src/plugins/core_system/mod.rs:542-561 | an unknown user is stored under the given uuid with the role `user` only and answered with that context; a uuid clash changes nothing and sends nothing |
| CoreSystem.SendAll | amadeus/src/plugins/core_system/mod.rs:530-538 | the messages are appended in order |
| CoreSystem.HandleGrantRole | amadeus/src/plugins/core_system/mod.rs:569-590 | with string `user_id` and `role`, a known user not yet holding the role is granted it, whoever asks; in every other case the grants are unchanged |
| CoreSystem.HandleMessage | amadeus/src/plugins/core_system/mod.rs:232-260 | each of the seven routed types has exactly the effect its handler states (create, complete or delete, list, schedule add, resolve, grant role), and the parts of the state that handler does not touch are unchanged; `system.memo.update` and every other type change nothing; only complete and delete can panic |
| CoreSystem.ExpiryTick | amadeus/src/plugins/core_system/mod.rs:268-297 | one hourly tick marks the overdue memos expired, then deletes those expired past the configured days, with both counts |
| CoreSystem.NoneExpirable | amadeus/src/plugins/core_system/mod.rs:276-284 | a table with nothing overdue counts no expiry |
| CoreSystem.TickLeavesNothingDue | amadeus/src/plugins/core_system/mod.rs:268-297 | after a tick, no pending memo is left overdue |
| LegacyCoreSystem.CreateMetadata | amadeus/src/plugins/core_system.rs:234-285 | the job uuids recorded are exactly those the newer plugin would record, and the request's todo date and priority are kept alongside |
| LegacyCoreSystem.NewRow | amadeus/src/plugins/core_system.rs:230-232 | the stored row is pending, has no metadata yet, and carries the request's content, cron, reminder time, todo date and tags as a JSON array |
| LegacyCoreSystem.HandleCreate | amadeus/src/plugins/core_system.rs:225-297 | an undecodable payload changes nothing; otherwise the memo is stored under the next id, its jobs are scheduled, the scheduler's uuid counter advances by their number, the metadata naming them is written and `system.memo.created` is sent |
| LegacyCoreSystem.ScheduleCreateJobs | amadeus/src/plugins/core_system.rs:241-282 | the main job and the stage-goal job are added as the newer plugin adds them, the uuid counter advances by their number, and the metadata records those uuids with the todo date and priority |
| LegacyCoreSystem.Cancelled | amadeus/src/plugins/core_system.rs:302-320 | when the metadata reads and parses, the recorded uuids that parse are cancelled; otherwise none |
| LegacyCoreSystem.WithStatus | amadeus/src/plugins/core_system.rs:323-335 | the status update changes only the rows with that id, and only their status |
| LegacyCoreSystem.HandleAction | amadeus/src/plugins/core_system.rs:298-336 | an undecodable payload changes nothing; NULL metadata panics with nothing changed; otherwise the recorded jobs are cancelled, the status becomes completed or deleted and the success reply is sent |
| LegacyCoreSystem.SetStatus | amadeus/src/plugins/core_system.rs:324 | the status update rewrites exactly the rows with that id |
| LegacyCoreSystem.CancelUndoesCreate | amadeus/src/plugins/core_system.rs:225-336 | when the metadata reads back as written and the new uuids are fresh and parse, completing a memo removes exactly the jobs its create added |
| LegacyCoreSystem.ListEntry | amadeus/src/plugins/core_system.rs:341-362 | an entry has exactly the keys id, content, remind_at, cron, tags, todo_date and priority; todo date and priority come from the metadata, null when it is missing or does not parse; tags are null exactly when missing or unparseable |
| LegacyCoreSystem.ListEntries | amadeus/src/plugins/core_system.rs:341-363 | one entry per active reminder, in order |
| LegacyCoreSystem.HandleList | amadeus/src/plugins/core_system.rs:338-368 | the reply lists every active reminder, whoever asks and whatever the payload |
| LegacyCoreSystem.ListedAreActive | amadeus/src/plugins/core_system.rs:338-368 | an entry is in the list exactly when it is the entry of a pending memo with a reminder time or cron pattern |
| LegacyCoreSystem.CreatedEntryKeepsPriority | amadeus/src/plugins/core_system.rs:234-239 | a memo's priority and todo date, which have no column, are listed back from the metadata its create wrote |
| LegacyCoreSystem.HandleSchedule | amadeus/src/plugins/core_system.rs:377-401 | the same as the newer plugin's `system.schedule.add` |
| LegacyCoreSystem.HandleMessage | amadeus/src/plugins/core_system.rs:172-195 | each of the five routed types has exactly the effect its handler states (create, complete or delete, list, schedule add) and leaves the rest of the state unchanged; any other type changes nothing; only complete and delete can panic |
| LegacyCoreSystem.ExpiryTick | amadeus/src/plugins/core_system.rs:198-213 | one tick replaces each memo, in place and in order, by its state after expiry at that time (an overdue active memo becomes expired, every other memo is kept) and counts those changed; afterwards no memo is due |
| LegacyCoreSystem.ExpiredNotDue | amadeus/src/plugins/core_system.rs:198-213 | an expired row is not due again |
| CronScheduler.Drop | amadeus/src/plugins/core_system/scheduler/mod.rs:48-51 | removing jobs by uuid keeps exactly the jobs whose uuid is not removed, in order |
| CronScheduler.DropDrop | amadeus/src/plugins/core_system/mod.rs:419-433 | removing one set of uuids and then another is removing their union |
| CronScheduler.DropNothing | amadeus/src/plugins/core_system/mod.rs:416-435 | removing no uuid leaves the jobs as they are |
| CronScheduler.DropNone | amadeus/src/plugins/core_system/mod.rs:419-433 | removing uuids that no job has changes nothing |
| CronScheduler.DropAppended | amadeus/src/plugins/core_system/mod.rs:335-433 | removing exactly the uuids of jobs appended after others restores the earlier jobs |
| CronScheduler.JobScheduler.constructor | amadeus/src/plugins/core_system/scheduler/mod.rs:13-16 | a new scheduler has no jobs and has created none |
| CronScheduler.JobScheduler.AddCronJob | amadeus/src/plugins/core_system/scheduler/mod.rs:24-45 | a cron the scheduler accepts adds one job under the next uuid, which is returned; any other is an error that adds nothing |
| CronScheduler.JobScheduler.RemoveJob | amadeus/src/plugins/core_system/scheduler/mod.rs:48-51 | the job with that uuid is removed, and nothing else |
| Text.Contains | amadeus/src/plugins/core_system/storage/mod.rs:211-214 | a pattern is found only in a text at least as long; in a text of the same length exactly when the two are equal |
| Text.ReplaceAll | amadeus/src/plugins/core_system/mod.rs:344 | a replacement as long as the pattern keeps the length; replacing a pattern by itself gives the text back |
| Text.ContainsIff | amadeus/src/plugins/core_system/mod.rs:344 | a text contains a pattern exactly when the pattern occurs at some position |
| Text.ReplaceAllAbsent | amadeus/src/plugins/core_system/mod.rs:344 | replacing a pattern that does not occur leaves the text unchanged |
| Text.ReplaceAllFirst | amadeus/src/plugins/core_system/mod.rs:344 | text before the first occurrence is kept, that occurrence is replaced and the rest is replaced in turn |
| Text.ReplaceAllChar | amadeus/src/ipc/iceoryx2_types.rs:119 | replacing one character by another keeps the length and changes exactly the matching positions |
| Text.Split | amadeus/src/core/user.rs:45-46 | splitting always yields at least one part, and no part holds the separator |
| Text.JoinSplit | amadeus/src/core/user.rs:45-46 | joining the parts of a split with the separator gives back the text |
| Text.SplitPrefix | amadeus/src/core/user.rs:45-46 | a leading run without the separator becomes the start of the first part |
| Text.SplitJoin | amadeus/src/core/user.rs:45-46 | splitting parts joined by a separator they do not contain gives back the parts |
| Text.NatToString | amadeus/examples/iceoryx2/amadeus_message_data.py:84 | the decimal text of a number is non-empty and made of digits |
| Text.ParseNatToString | amadeus/examples/iceoryx2/amadeus_message_data.py:84 | reading back the decimal text of a number gives the number |
| Utf8.EncodeScalar | amadeus/src/ipc/iceoryx2_types.rs:56-64 | a character encodes to one to four bytes, and only NUL encodes to a zero byte |
| Utf8.DecodeScalar | amadeus/src/ipc/iceoryx2_types.rs:82-97 | a decoded character consumes at least one and at most the available bytes |
| Utf8.DecodeEncodeScalar | amadeus/src/ipc/iceoryx2_types.rs:82-97 | decoding the bytes of a character, whatever follows, gives it back with its length |
| Utf8.EncodeDecodeScalar | amadeus/src/ipc/iceoryx2_types.rs:82-97 | a character decoded from bytes re-encodes to the bytes it consumed |
| Utf8.DecodeEncode | amadeus/src/ipc/iceoryx2_types.rs:82-97 | decoding the UTF-8 encoding of a text gives the text back |
| Utf8.EncodeDecode | amadeus/src/ipc/iceoryx2_types.rs:82-97 | bytes that decode re-encode to the same bytes |
| Utf8.DecodeIffEncode | amadeus/src/ipc/iceoryx2_types.rs:82-97 | bytes decode to a text exactly when they are its encoding |
| Utf8.EncodeAppend | amadeus/src/ipc/iceoryx2_types.rs:56-64 | the encoding of a concatenation is the concatenation of the encodings |
| Utf8.EncodeHasZeroIff | amadeus/src/ipc/iceoryx2_types.rs:56-64 | an encoding contains a zero byte exactly when the text contains NUL |
| Utf8.DecodableIff | amadeus/src/ipc/iceoryx2_types.rs:82-97 | bytes decode exactly when they are the encoding of some text |
| Json.Get | amadeus/src/plugins/core_system/mod.rs:495 | a field is read exactly from an object that has the key, and it is that key's value |
| Json.GetStr | amadeus/src/plugins/core_system/mod.rs:492 | a string field is read exactly when the value is an object with the key and that field is a string, and it is that string |
| ExampleConfig.Default | amadeus/src/plugins/example_plugin/config.rs:11-19 | 4 workers, 30 seconds timeout, logging on, and this default passes validation |
| ExampleConfig.Load | amadeus/src/plugins/example_plugin/config.rs:23-31 | loading returns the configuration unchanged and always succeeds |
| ExampleConfig.Validate | amadeus/src/plugins/example_plugin/config.rs:34-42 | valid exactly when both the worker count and the timeout are positive; a zero worker count is reported first, then a zero timeout |
| ExampleConfig.ValidateIgnoresLogging | amadeus/src/plugins/example_plugin/config.rs:34-42 | the logging flag has no bearing on validity |
| ExampleHandler.DataHandler.constructor | amadeus/src/plugins/example_plugin/handler.rs:10-13 | a new handler has processed nothing |
| ExampleHandler.DataHandler.Init | amadeus/src/plugins/example_plugin/handler.rs:16-20 | initialising succeeds and resets the count |
| ExampleHandler.DataHandler.Start | amadeus/src/plugins/example_plugin/handler.rs:23-27 | starting succeeds and changes nothing |
| ExampleHandler.DataHandler.Process | amadeus/src/plugins/example_plugin/handler.rs:30-40 | processing a batch succeeds and adds its size to the count |
| ExampleHandler.DataHandler.Cleanup | amadeus/src/plugins/example_plugin/handler.rs:43-47 | cleaning up succeeds and resets the count |
| ExampleHandler.ProcessTwice | amadeus/src/plugins/example_plugin/handler.rs:30-40 | two batches count as their concatenation |
| ExamplePlugin.Metadata | amadeus/src/plugins/example_plugin/mod.rs:19-35 | named `example_plugin`, version 0.1.0, disabled by default, by Amadeus Team, with category example and complexity multi-file |
| ExamplePlugin.ExamplePlugin.constructor | amadeus/src/plugins/example_plugin/mod.rs:19-35 | the default configuration, a fresh handler with nothing processed, not initialised |
| ExamplePlugin.ExamplePlugin.Init | amadeus/src/plugins/example_plugin/mod.rs:48-60 | the configuration is loaded, the handler initialised, and the plugin is initialised |
| ExamplePlugin.ExamplePlugin.Start | amadeus/src/plugins/example_plugin/mod.rs:63-81 | before initialisation starting fails with "插件未初始化" and processes nothing; afterwards it processes the three sample items |
| ExamplePlugin.ExamplePlugin.Stop | amadeus/src/plugins/example_plugin/mod.rs:84-89 | the handler is cleaned up and the plugin is no longer initialised |
| ExamplePlugin.Session | amadeus/src/plugins/example_plugin/mod.rs:48-89 | start before init is refused; init then start processes 3 items; stop resets to 0; a start after stop is refused again |
| Code4rena.Metadata | amadeus/src/plugins/code4rena.rs:13-28 | named `code4rena`, version 0.1.0, enabled by default, by Amadeus Team, with category security and priority high |
| Code4rena.Code4renaPlugin.constructor | amadeus/src/plugins/code4rena.rs:13-28 | the plugin starts not running |
| Code4rena.Code4renaPlugin.Init | amadeus/src/plugins/code4rena.rs:42-47 | initialising succeeds and changes nothing |
| Code4rena.Code4renaPlugin.Start | amadeus/src/plugins/code4rena.rs:49-55 | starting succeeds and the plugin is running |
| Code4rena.Code4renaPlugin.Run | amadeus/src/plugins/code4rena.rs:57-69 | running succeeds, changes nothing, and scans exactly when the plugin is running |
| Code4rena.Code4renaPlugin.Stop | amadeus/src/plugins/code4rena.rs:71-78 | stopping succeeds and the plugin is no longer running |
| Code4rena.Session | amadeus/src/plugins/code4rena.rs:49-78 | a run before start scans nothing, a run after start scans, and a run after stop scans nothing |

## Left out

- Transport, threads and channels are left out: iceoryx2 nodes, publishers and subscribers, the poll loops, tokio tasks, broadcast and mpsc channels and locks. Their point is concurrency and I/O. Broadcast channels appear only as receiver counts, direct channels and the publisher channel as a queue with an open flag, and the poll loops as one pass over a sequence of samples. The dispatcher's publisher thread ending, and dropping its receiver, is only the `PublishChannel.Close` step; when and why it ends is not modelled.
- The cryptographic primitives (RSA PKCS#1 v1.5 of RFC 8017 section 7.2, AES-GCM of NIST SP 800-38D, base64 of RFC 4648 section 4, PEM export) are uninterpreted parameters. Only the order in which the receiver calls them, and how it handles their failures, is modelled.
- JSON serialisation and parsing (serde_json, `json.dumps`, `json.loads`, `Message::to_json`/`from_json`) are parameters over a JSON value datatype, not a text parser.
- SQLite plumbing is left out: pool and file creation, `init_schema` and its migrations. Database I/O errors are left out too. The statement errors that are modelled are listed per member: the OFFSET syntax error described under Findings, the empty `SET` of `MemoStorage.Storage.UpdateMemo`, the duplicate key of `MemoStorage.Storage.CreateUser`, and the unknown user of `MemoStorage.Storage.AddRoleToUser`. Each statement is modelled only by its effect on the tables.
- MemoQuery.BuildQuery, LegacyStorage.LegacyStorage.GetMemosByTag, LegacyStorage.Tagged, MemoTypes.TagPattern and Text.Contains: `LIKE` is modelled as case-sensitive substring search. SQLite's ASCII case folding, and `%` or `_` inside a keyword or tag acting as wildcards, are not modelled.
- Json.Value: `JNum` holds integers only. A fractional number where the source expects an `i32` or `i64` is rejected by serde like any other wrong type, and the model does not distinguish it from the other wrong types.
- PyEnvelope.FromDict: `json.dumps` is a total parameter, so the `TypeError` it raises for a value that is not JSON-serialisable is not modelled.
- MemoTypes.EncodedTagFound: the tags column is modelled as `serde_json::to_string` writes it for tags that need no escaping; JSON string escaping is not modelled.
- MemoStorage.RolesOf: `SELECT role FROM user_roles` has no ORDER BY, so SQL does not fix the order of the roles. The model lists them in table order; that order is one choice among those SQLite may return, and only which roles are listed is meant.
- `generate_keys` in amadeus/examples/iceoryx2/rsa_test.py:52-72 is left out: it calls the key-generation library and prints the PEM text, and states nothing that the receiving steps depend on.
- MemoQuery.SortRows: SQL leaves the order of rows with equal sort keys unspecified. The model fixes one such order, and no property depends on it.
- MemoStorage.Storage.RecycleExpiredMemos: the cutoff `now - days * 86400` is computed on unbounded integers; the `u64` to `i64` casts of the source are not modelled.
- The start-up reminder reload of both core-system plugins is left out (amadeus/src/plugins/core_system/mod.rs:144-206 and amadeus/src/plugins/core_system.rs:89-152). It re-schedules stored reminders through the scheduler and states nothing beyond what `get_active_reminders` and `add_cron_job` already state.
- The scheduler (amadeus/src/plugins/core_system/scheduler/mod.rs) is modelled as the list of its jobs. tokio-cron-scheduler itself is foreign code: whether it accepts a cron string and which uuid it gives a new job are parameters, and firing jobs on time is not modelled. src/scheduler.rs, which the older plugin imports, is not part of this model; the same job-list model stands in for it.
- src/core/messaging/message.rs is not part of this model. The handlers see a message as its type, payload, source, id and optional user context.
- CoreSystem.PrimaryReminderText: the replies' and triggers' timestamps, sources and priorities are not modelled, only their type and payload.
- CoreSystem.CancelJobs: uuid parsing is a parameter, so canonicalisation (a uuid written in upper case being the same job) is not modelled.
- ExampleHandler.DataHandler.Process: `processed_count` is an unbounded natural; `usize` overflow is not modelled.
- Messages.Timestamp: the clock is a parameter; only its reduction into `u64` milliseconds is modelled.
- `MessageManager`, `App::run`, `plugin_registry_ext.rs`, the message-context files, the WASM plugin, the Java mock server, and the Python command-line and test drivers are outside the modelled core.
- Each file is modelled as written, with no attempt to reconcile module mismatches between files: for example, the `Plugin` trait of src/plugin.rs has no `id` or `run`.

## Findings

| source | as written | input that shows it | evidently intended | confidence | as-written member | corrected member |
|---|---|---|---|---|---|---|
| amadeus/src/plugins/core_system/storage/mod.rs:236-243 | `query_memos` writes ` OFFSET n` only when an offset is given, and ` LIMIT m` only when a limit is given. SQLite accepts OFFSET only after LIMIT, so an offset without a limit is a syntax error and the query fails. | `limit: None, offset: Some(1)` on a table of two memos | skip `offset` rows and return the rest, for example by writing `LIMIT -1` when only an offset is given | not executed | MemoQuery.PaginateAsWritten, MemoQuery.OffsetWithoutLimit | MemoQuery.Paginate, MemoQuery.OffsetAloneSkips |

`MemoStorage.Storage.QueryMemos` and `CoreSystem.HandleList` keep the failure as written: the query fails and the list handler sends nothing. Every page the query does return is the one `MemoQuery.Paginate` defines, since `PaginateAsWritten` agrees with it on every other combination.
