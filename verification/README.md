# Verification model of the KDE Connect core

This project models the stateful parts of a KDE Connect implementation (the core event loop, the
service that mirrors it, the SMS window and the plugins with histories or codecs) and proves what
they promise over every input and every run.

- `Common.dfy`, `Bytes.dfy`, `Decimals.dfy`, `StableSort.dfy` — optional values and results; UTF-8, its
  lossy conversion and Unicode white space; decimal numerals; the stable sort.
- `Devices.dfy` — device records, certificate pins, the pairing store and the pairing table.
- `Registry.dfy` — the connection registry as a step machine: transport events, application events,
  queued core events, the service's mirror, restarts. Two queues separate every check from its use:
  the core queue and the connection-event channel.
- `PairingTable.dfy`, `RegistryInvariants.dfy`, `RegistryTheorems.dfy`, `FreshConsent.dfy` — the
  inductive invariant and what follows from it over every run: mutual and fresh consent, pins,
  dispatch, writers, announcements.
- `MirrorAgreement.dfy` — when the service's copy of the pairing states catches up with the store.
- `DeviceManagement.dfy`, `KdeConnectCore.dfy`, `ServiceMirror.dfy` — the device manager, the pairing
  manager, the event handlers and the service's map as classes that update their fields. A core object
  remembers the events it has handled; it is valid when they form a legal run and its fields are what
  the run leads to. Each handler extends the run by one event and states what it promises its caller.
- `Guarantees.dfy`, `Effects.dfy`, `Progress.dfy` — what each handler promises its caller: what may
  happen at most, what must happen and to which fields, and what must get done over a run (a pairing both
  sides ask for completes, a packet of a paired device reaches the plugins).
- `Notifications.dfy`, `NotificationTracker.dfy` — the bounded notification history with the recency list
  it implements, and what the tracker must show, told by the packets alone.
- `SmsIndex.dfy`, `SmsWindow.dfy`, `SmsCache.dfy` — the incremental message index, opening, sending and
  batches of messages, the keyed merge cache and the unread summary.
- `Framing.dfy`, `Payload.dfy`, `Download.dfy`, `FileTransfer.dfy`, `Transfers.dfy` — control lines, the
  bounded copy, publication without overwriting, and the life of a transfer.
- `Clipboard.dfy` — generations, seats, reads in flight and echo suppression.
- `Vcard.dfy`, `MountPath.dfy` — quoted-printable with unfolding, and octal mount path escapes.

## How the outside world appears

A certificate is a byte string and a connection presents one. Whether the pairing store can be read
or written, whether the connection task still waits for its acceptance, whether a writer is open and
whether a plugin is enabled are parameters of the events, so that these failures are runs like any
other. The environment (`Registry.Legal`) guarantees only that connection ids are not reused within one
life of the process, that a connection speaks between its acceptance and its one Disconnected, always
for the device it registered, that background tasks queue nothing but packets to send, that the service
restores devices before anything is handled, and that a record whose existence cannot be determined
hides no pin. The last is what kdeconnect-core/src/device.rs:106 needs: a record that cannot be found
counts as absent, and `RegistryTheorems.OtherCertificatesAreRefused` says exactly when that lets
another certificate register although a pin is stored. `NewConnection` events may come in any order of
their ids. Restarts keep the store and nothing else; since the counter of connection ids restarts too,
the history names a connection by the process's life and its id. After a start the service restores
devices from the records it can read (`Restore`, with the files it could read); a run without that
event is one in which it could read none. The theorems start from an arbitrary pairing store, of which
the empty one is a case.

The command list a paired device is sent on registration is a queued `SendPacket` and therefore one
more `Background` event; so are the packets plugins ask for.

## Where the code does less than one might expect

Each of these has its exact condition, for all inputs, and an input on which it fails.

- The mirror can stay wrong, in two ways. When a peer unpairs while the pairing store cannot be written,
  the core broadcasts NotPaired although the device stays paired (kdeconnect-core/src/lib.rs:390-400).
  And the service restores every record that says Paired (kdeconnect-service/src/dbus_interface.rs:1107-1139),
  also one without a pin or filed under another id, which the core does not trust.
  `MirrorAgreement.MirrorCatchesUp` says that the drained mirror is right about a device exactly when no
  step of the first kind is left uncorrected by a restart, a new connection or a successful unpairing, and
  it is not a device that was restored untrusted and that nothing was told about since. Runs that leave it
  wrong are `MirrorAgreement.TheMirrorCanDisagree` and `MirrorAgreement.RestoredWithoutPin`;
  `MirrorAgreement.WritableTidyStoreIsShown` rules both out.
- `has_unread` is narrower than its documentation (kdeconnect-core/src/plugins/sms.rs:299-331).
  `SmsCache.UnreadMeetsDocumentation` says that the two differ exactly when the summary is false although
  a thread that was never opened has an unread message and none at its latest date;
  `SmsCache.UnreadCanBeHidden` gives two messages on which they do. The model follows the code.
- White-space folding comes back exactly when no cut precedes white space (`Vcard.FoldingRoundTrip`),
  because continuation lines are trimmed rather than shortened by one character;
  `Vcard.FoldingCanLoseASpace` folds "N:a b" before its space.
- `set_text` does not advance the selection generation. `Clipboard.WriteSurvivesEarlierRead` says that a
  read begun before a remote write leaves the written text in place exactly when a notice came in between
  or it carries that very text; `Clipboard.EarlierReadOvertakesWrite` gives a run from the start of the
  worker in which it is replaced and the older text announced.
- Unescaping a mount path slices text at byte positions, which panics inside a character.
  `MountPath.UnescapeFailsExactly` says for which bytes, and `MountPath.UnescapeCanFail` gives a text. The
  kernel never writes one: `MountPath.MountPathsCompareEqual` covers every UTF-8 path it escapes.

`SmsIndex.MessageIndex.InsertOrMerge` and `MountPath.UnescapeUndoesEscape` are stated beyond what can reach
the code: phone ids are decimal numerals, so no id folded into a send starts with `sending_`, and the text
of a mount table is UTF-8.

## Model

| member | source | states |
|---|---|---|
| RegistryTheorems.MutualConsent | kdeconnect-core/src/lib.rs:298-371 | Over every run, with restarts and failing stores, a certificate the store trusts and did not trust at the start was presented by one registered connection of that device, over which the peer sent pair:true while it was current, and the user issued Pair or AcceptPairing while it was the device's last registered connection |
| FreshConsent.FreshConsent | kdeconnect-core/src/pairing.rs:45-83 | Every event that gives a device a pin it did not have is one side's ask, the other side's ask precedes it over the same connection, which presented the certificate pinned, and at every moment in between the device was unpaired and pending in the state the first ask left, over that connection |
| FreshConsent.PendingIsFresh | kdeconnect-core/src/device.rs:386-402 | A Requesting or Requested device was asked for over its last registered connection and has been pending so, over that connection, and unpaired ever since |
| RegistryTheorems.HistoryIsTrue | kdeconnect-core/src/lib.rs:404-424 | What the history records about a connection (presented, asked by the peer, asked by the user) was done by events of the run |
| RegistryTheorems.MemoryAgreesWithStore | kdeconnect-core/src/device.rs:330-402 | In every reachable state a device in memory is Paired iff it has a nonempty pin, the pin is its connection's certificate, and reloading its record yields the same flag and pin, even when stores failed |
| RegistryTheorems.RegistrationEndsPending | kdeconnect-core/src/device.rs:111-143 | A registration leaves the device NotPaired or Paired with the presented certificate live; a pending request never survives it |
| RegistryTheorems.PinStep | kdeconnect-core/src/device.rs:330-402 | One step never replaces a pin; it removes it exactly when it is a successful local Unpair, a RejectPairing of a device in memory, or a pair:false over the current connection |
| RegistryTheorems.PinsNeverChangeSilently | kdeconnect-core/src/lib.rs:383-401 | Between a state pinned to one certificate and a later one that is not lies an event of the run that unpinned the device, and a state right after it in which the device was unpaired |
| RegistryTheorems.OtherCertificatesAreRefused | kdeconnect-core/src/device.rs:96-157 | While a device is pinned, a connection presenting another certificate changes nothing at all, whatever reading the record comes to, unless the record is not found although it is there; then it registers as NotPaired with the pin still stored |
| RegistryTheorems.UnpairFreesTheDevice | kdeconnect-core/src/lib.rs:622-640 | After a successful Unpair with no connection recorded, any nonempty certificate registers, as NotPaired |
| RegistryTheorems.DispatchesAreAuthentic | kdeconnect-core/src/lib.rs:173-201 | Every packet handed to plugins arrived over the connection current at dispatch, from a Paired device whose pin is the certificate that connection presented, whatever was interleaved between the two checks |
| RegistryTheorems.DataGoesToPairedConnections | kdeconnect-core/src/lib.rs:502-593 | Data packets and registration greetings are queued only on the writer of the current connection of a device paired with that connection's certificate |
| RegistryTheorems.WritersFollowConnections | kdeconnect-core/src/lib.rs:336-358 | `writer_map` and `conn_id_map` have the same keys, and each writer belongs to the recorded connection, which is the last registered one |
| RegistryTheorems.DisconnectsTakeOnlyTheirOwn | kdeconnect-core/src/lib.rs:442-470 | A Disconnected removes exactly its own connection's writer and leaves every other one alone |
| RegistryTheorems.AnnouncementsSettle | kdeconnect-core/src/lib.rs:465-470 | Once no dropped connection of a device owes its Disconnected, the last Connected or Disconnected broadcast was Connected iff the device has a writer |
| RegistryInvariants.StepKeeps | kdeconnect-core/src/lib.rs:169-706 | Every legal step of every handler keeps the invariant that relates table, store, maps, queues, channel and history |
| RegistryInvariants.EveryRun | kdeconnect-core/src/lib.rs:169-706 | The invariant holds after every legal run from any pairing store |
| RegistryInvariants.NewPinHasConsent | kdeconnect-core/src/device.rs:330-356 | A step that creates a pin does so out of a pending state, over a connection on which both sides asked |
| Progress.OwnRequestCompletes | kdeconnect-core/src/pairing.rs:25-44 | In every run, a pair:true over the current connection of a Requesting device, the store being writable, leaves it Paired and pinned in the store to the certificate that connection presented |
| Progress.AcceptCompletes | kdeconnect-core/src/lib.rs:641-657 | In every run, accepting a Requested device that has a connection leaves it Paired and pinned to the certificate that connection presented, and queues exactly one pair:true, on its writer |
| Progress.BothAsking | kdeconnect-core/src/device.rs:330-402 | In every run, whoever asks first, once both sides have asked over the current connection of an unpaired device, it is Paired and pinned to the certificate that connection presented |
| Progress.PacketsReachPlugins | kdeconnect-core/src/lib.rs:173-201 | In every run, a plugin packet of a Paired device over its current connection is handed to the plugins, with that device, once the core has handled what is queued, whatever was queued before it |
| Effects.NewConnectionEffect | kdeconnect-core/src/lib.rs:298-371 | A connection with a valid id, a certificate and a record that can be read is let in exactly if nothing is pinned or its certificate is, and it does not replace another certificate of a recorded connection; it then takes over writer and connection, a paired device is greeted, and Connected is announced; a refused one changes nothing |
| Effects.IncomingEffect | kdeconnect-core/src/lib.rs:372-441 | Over the current connection, pair:true pins a Requesting device, makes an unpaired one Requested and asks the user, and leaves a paired one alone; pair:false unpins a paired device and tells the listeners; a packet is queued; over any other connection nothing changes |
| Effects.DroppingEffect | kdeconnect-core/src/lib.rs:442-470 | Closing, disconnecting and changing a plugin each take away the writer and the connection of the device they concern and nothing else, and announce that or not |
| Effects.CoreNextEffect | kdeconnect-core/src/lib.rs:169-294 | The oldest queued event is taken off and has exactly its effect on plugins, writers and listeners: a packet is dispatched iff it came over the current connection of a Paired device, one to be sent goes to the writer of a Paired device |
| PairingTable.UpdateKeepsTable | kdeconnect-core/src/device.rs:386-402 | Changing a pairing state keeps memory and store in agreement whatever fails, touches one device, and on success clears the persisted pin |
| PairingTable.SetPairedKeepsTable | kdeconnect-core/src/device.rs:330-384 | Approving or cancelling a pairing keeps memory and store in agreement, touches one device, and on success persists the live certificate or nothing |
| PairingTable.PairRequestKeepsTable | kdeconnect-core/src/pairing.rs:25-84 | An incoming pair:true keeps memory and store in agreement and touches one device |
| PairingTable.BindingAgrees | kdeconnect-core/src/device.rs:96-157 | A device loaded and bound agrees with its record, carries the presented certificate and is in no pending state |
| MirrorAgreement.SyncedStep | kdeconnect-core/src/lib.rs:390-400 | A step takes away the agreement of the pending pairing words with the store exactly when it is a pair:false of the paired peer whose store write fails with nothing about the device queued |
| MirrorAgreement.LaggingStep | kdeconnect-core/src/lib.rs:298-401 | A step ends the disagreement exactly when it is a restart, an announced connection of the device, or one of the three ways to unpin it |
| MirrorAgreement.SyncedUnlessMisled | kdeconnect-core/src/lib.rs:205-257 | After every run, the last queued or sent pairing word about a device is what the store says iff no misleading step is left uncorrected |
| MirrorAgreement.WritableStoreNeverMisleads | kdeconnect-core/src/device.rs:386-402 | As long as pairing-store writes for the peer's packets succeed, the core leaves the service misled about no device |
| MirrorAgreement.UntoldKeepsTrust | kdeconnect-service/src/dbus_interface.rs:1107-1139 | As long as nothing was told about a device since the last start, the store trusts a pin for it iff it did at the start |
| MirrorAgreement.RestoredFromBoot | kdeconnect-service/src/dbus_interface.rs:1117-1133 | What the service restored are devices of Paired records of the last start |
| MirrorAgreement.MirrorCatchesUp | kdeconnect-service/src/dbus_interface.rs:1292-1304 | In every reachable state, draining the core queue and then the channel leaves the service's `is_paired` for each device it knows, restored or told, equal to "the store trusts a pin for it" iff the run did not leave it misled about the device, nor is it one nothing was told about and the store did not trust at the last start |
| MirrorAgreement.WritableTidyStoreIsShown | kdeconnect-service/src/dbus_interface.rs:1107-1139 | If the peers' packets find the store writable and its Paired records have their pin and are filed under their own id, the drained service always agrees with the store |
| MirrorAgreement.TheMirrorCanDisagree | kdeconnect-core/src/lib.rs:390-400 | A concrete run of two events after which the drained service shows a trusted device as unpaired |
| MirrorAgreement.RestoredWithoutPin | kdeconnect-service/src/dbus_interface.rs:1107-1139 | A stored Paired record without a pin is shown as paired although the store trusts nothing for it |
| DeviceManagement.DeviceManager.AddOrUpdateDevice | kdeconnect-core/src/device.rs:314-318 | Registering a device that agrees with its record keeps memory and store in agreement about every device |
| DeviceManagement.DeviceManager.StoreIdentity | kdeconnect-core/src/device.rs:172-195 | The record, without pin unless Paired, reaches the store iff the id is valid and the write succeeds; nothing else changes |
| DeviceManagement.DeviceManager.SetPaired | kdeconnect-core/src/device.rs:330-384 | Approval of a Requesting or Requested device with a live certificate makes it Paired and pinned to that certificate in memory and store and queues DevicePaired, whenever ids are valid and the write succeeds; cancellation removes pairing and pin; otherwise nothing changes; memory and store stay in agreement |
| DeviceManagement.DeviceManager.UpdatePairState | kdeconnect-core/src/device.rs:386-402 | The device takes the state without pin in memory and store and the change is queued iff the device is known and the write succeeds; otherwise nothing changes; memory and store stay in agreement |
| DeviceManagement.PairingManager.HandlePairRequest | kdeconnect-core/src/pairing.rs:25-84 | A Requesting device becomes Paired and pinned to its live certificate if the store can be written; a paired one is ignored; any other known one becomes Requested and the caller must ask the user; memory and store stay in agreement |
| DeviceManagement.PairingManager.CancelPairing | kdeconnect-core/src/pairing.rs:86-88 | On success the device is neither paired in memory nor pinned in the store and no other device is touched; a failure changes nothing at all |
| KdeConnectCore.KdeConnectCore.NewConnection | kdeconnect-core/src/lib.rs:298-371 | Extends the run; exactly the welcome connection (certificate pinned, or nothing pinned) takes over writer and connection, is greeted if paired and announced as Connected, unless its task has gone; no pin changes; a refused one changes nothing |
| KdeConnectCore.KdeConnectCore.IncomingPacket | kdeconnect-core/src/lib.rs:372-441 | Extends the run; over the current connection a pair:true completes the own request with the certificate the connection presented or asks the user, a pair:false unpairs, a packet is queued, and no pair packet is sent; a stale connection changes nothing; a pin it creates was freshly agreed upon by both sides |
| KdeConnectCore.KdeConnectCore.ConnectionClosed | kdeconnect-core/src/lib.rs:442-470 | Extends the run; takes the writer of its own connection and no other and announces Disconnected, and changes nothing if another connection took over |
| KdeConnectCore.KdeConnectCore.Pair | kdeconnect-core/src/lib.rs:481-490 | Extends the run; a connected unpaired device is sent exactly one pair:true and becomes Requesting if the store can be written; any other is left alone; gives nobody a pin |
| KdeConnectCore.KdeConnectCore.AcceptPairing | kdeconnect-core/src/lib.rs:641-657 | Extends the run; a connected Requested device becomes Paired and pinned to its connection's certificate and is sent exactly one pair:true, if the store can be written; otherwise nothing changes and nothing is sent; what it pins was freshly agreed upon |
| KdeConnectCore.KdeConnectCore.RejectPairing | kdeconnect-core/src/lib.rs:658-665 | Extends the run; the device is sent exactly one pair:false if it has a writer, and is neither paired nor pinned afterwards, unless it is unknown or the store cannot be written, and then nothing about pairing changes |
| KdeConnectCore.KdeConnectCore.Unpair | kdeconnect-core/src/lib.rs:622-640 | Extends the run; the device is sent exactly one pair:false if it has a writer; afterwards no certificate is trusted for it in memory or store and the listeners are told, or, if the id is bad or the store cannot be written, nothing changed and nobody was |
| KdeConnectCore.KdeConnectCore.Disconnect | kdeconnect-core/src/lib.rs:666-673 | Extends the run; a device with a writer loses it and its connection and is announced as gone after having been announced as connected; any other event changes nothing |
| KdeConnectCore.KdeConnectCore.SetPluginEnabled | kdeconnect-core/src/lib.rs:701-704 | Extends the run; drops the connection without an announcement or a packet, and the Disconnected that will announce it is still owed |
| KdeConnectCore.KdeConnectCore.SendPacketTo | kdeconnect-core/src/lib.rs:502-516 | Extends the run; the packet goes to the writer of a Paired device and nowhere otherwise, and nothing else changes; the device is paired with the certificate its current connection presented |
| KdeConnectCore.KdeConnectCore.SendPacketWithReply | kdeconnect-core/src/lib.rs:517-537 | Extends the run; accepted iff the packet was queued, which is iff the device is Paired with the plugin enabled and the writer open |
| KdeConnectCore.KdeConnectCore.SendFilesTo | kdeconnect-core/src/lib.rs:541-593 | Extends the run; one share request a file, in order, on the writer of a Paired device, or none at all otherwise |
| KdeConnectCore.KdeConnectCore.Request | kdeconnect-core/src/lib.rs:491-501 | Extends the run; the packet is queued for a known device, nothing leaves and nothing about pairing or connections changes until the queued event is handled |
| KdeConnectCore.KdeConnectCore.CoreEvents | kdeconnect-core/src/lib.rs:169-294 | Extends the run; the oldest event is taken off and handled: a packet is dispatched exactly if it came over the current connection of a Paired device, a packet to be sent goes to the writer of a Paired device and nowhere otherwise, pairing events reach the listeners; dispatches are authentic, and no pairing and no connection changes |
| ServiceMirror.DeviceMirror.constructor | kdeconnect-service/src/dbus_interface.rs:1107-1139 | The loop over the directory restores exactly the devices of the Paired records it can read, under the id each record holds, as paired and not reachable, whatever the order of the files |
| ServiceMirror.DeviceMirror.HandleEvent | kdeconnect-service/src/dbus_interface.rs:1366-1382 | The map holds exactly the devices restored, connected or paired; each is shown as paired by the last word of all events about it or else as restored, and as reachable iff no Disconnected followed what last brought it |
| ServiceMirror.MirrorKnows | kdeconnect-service/src/dbus_interface.rs:1287-1442 | Over any events, the service knows exactly the devices restored or brought by a Connected or DevicePaired, and shows one as reachable iff no Disconnected of it followed the last of these |
| ServiceMirror.MirrorShowsStore | kdeconnect-service/src/dbus_interface.rs:1495-1504 | A service object that has handled all a core object with an empty queue has sent agrees with the pairing store about each device it knows, restored or told, iff the core's run did not leave it misled, nor stale about a device nothing was told about |
| Notifications.ReplayIsSuppressed | kdeconnect-core/src/plugins/notification.rs:47-88 | A notification last processed with the same visible content is not displayed again unless its key was cancelled or forgotten or at least 4096 other keys were processed since, over arbitrary traffic |
| Notifications.ReplayBoundIsSharp | kdeconnect-core/src/plugins/notification.rs:73-82 | Without cancellations and failed displays, the replay is displayed again iff at least 4096 other keys were processed since |
| Notifications.TrafficKeepsWf | kdeconnect-core/src/plugins/notification.rs:47-95 | The recency list never exceeds 4096 entries and never repeats a key |
| Notifications.NotificationHistory.ShouldDisplay | kdeconnect-core/src/plugins/notification.rs:47-88 | The map with sequence numbers behaves as the recency list; displays exactly a complete notification that is not a cancel, silent or a reply request and whose application, title and text are not those last recorded for its key, going by their hash; records what it processes and forgets what is cancelled |
| Notifications.NotificationHistory.Forget | kdeconnect-core/src/plugins/notification.rs:90-94 | Takes the key out of the recency list |
| NotificationTracker.NotificationTracker.ReceivedPacket | kdeconnect-core/src/plugins/notification.rs:103-134 | Over all packets so far: displays news, and what the screen lost, as long as the screen works, and never a silent, cancelled or incomplete one, nor a replay whose content was recorded with nothing for its key and fewer than 4096 other keys since |
| NotificationTracker.NewsIsDisplayed | kdeconnect-core/src/plugins/notification.rs:47-88 | Over arbitrary traffic, a complete notification that is not silent and no reply request is displayed if nothing for its key came before, the last was a cancel, or the hash tells the application name, title and text apart |
| NotificationTracker.LostIsRetried | kdeconnect-core/src/plugins/notification.rs:125-130 | Over arbitrary traffic, news the desktop failed to display is displayed when it comes again, as long as nothing else for its key came in between |
| NotificationTracker.ReplayIsHidden | kdeconnect-core/src/plugins/notification.rs:47-88 | Over arbitrary traffic, a notification whose content was recorded by an earlier packet for its key is hidden while nothing else for the key and fewer than 4096 other keys came since |
| SmsIndex.MessageIndex.Rebuild | cosmic-ext-connect-applet/src/plugins/sms/app.rs:45-57 | The index is that of the list, map for map and position list for position list |
| SmsIndex.MessageIndex.InsertOrMerge | cosmic-ext-connect-applet/src/plugins/sms/app.rs:64-106 | Does what a scan does, which is: drop a known id, else give the first waiting send it echoes its id, thread and date and nothing else, else append; keeps ids distinct, and leaves the index a rebuild would give iff no `sending_` id was folded |
| SmsIndex.ScanTakes | cosmic-ext-connect-applet/src/plugins/sms/app.rs:66-105 | A scan leaves a known message alone, puts the phone's id, thread and date on the first send of the text that waits within the window, and otherwise appends; every other message and field stays |
| SmsIndex.PendingFindsFirst | cosmic-ext-connect-applet/src/plugins/sms/app.rs:72-80 | Looking through the pending positions of the body finds the message a scan of the whole list finds |
| SmsIndex.FoldingRetains | cosmic-ext-connect-applet/src/plugins/sms/app.rs:82-92 | Folding removes one position from one pending list and changes no other |
| SmsWindow.BatchKeepsOrder | cosmic-ext-connect-applet/src/plugins/sms/app.rs:923-976 | After a batch ids and threads are distinct, the open thread is a date-ordered arrangement of the scanned messages in which those of one date keep their order, and every shown message is known and seen |
| SmsWindow.ReplayedBatchIsNoOp | cosmic-ext-connect-applet/src/plugins/sms/app.rs:923-976 | Handling the same batch again changes no message, preview, timestamp, unread flag, order or last-seen value |
| SmsWindow.FoldEnds | cosmic-ext-connect-applet/src/plugins/sms/app.rs:945-957 | A conversation ends at its latest date with the last body of that date, and is unread iff it was or a message from others arrived while it was not open |
| SmsWindow.BatchSees | cosmic-ext-connect-applet/src/plugins/sms/app.rs:934-939 | A batch takes the last-seen date of the open thread to its latest date, never back, and no other thread's |
| SmsWindow.BatchPreviews | cosmic-ext-connect-applet/src/plugins/sms/app.rs:945-976 | After a batch the conversations are the old ones, each at its latest date with the last body of that date and unread iff it was or a message marks it |
| SmsWindow.SentMessageIsFolded | cosmic-ext-connect-applet/src/plugins/sms/app.rs:680-691 | The phone's echo of a message just sent is folded, into that message unless an earlier send of the same text still waits |
| SmsWindow.SmsWindow.SendMessage | cosmic-ext-connect-applet/src/plugins/sms/app.rs:639-705 | A sent message is added to the open thread in order of dates and previewed in its conversation, newest conversation first, and the index follows; with no thread, recipient or conversation nothing changes; ids stay distinct unless two sends fall in one millisecond |
| SmsWindow.SmsWindow.SelectThread | cosmic-ext-connect-applet/src/plugins/sms/app.rs:602-611 | Opening a thread empties the view and the index, and takes its last-seen date to that of its conversation and no other's |
| SmsWindow.SmsWindow.DeliverOne | cosmic-ext-connect-applet/src/plugins/sms/app.rs:927-958 | One message updates last-seen times, thread, index and conversation as specified, keeping the index valid |
| SmsWindow.SmsWindow.HandleMessagesReceived | cosmic-ext-connect-applet/src/plugins/sms/app.rs:923-976 | The whole batch is handled: messages oldest first, conversations newest first, each with the date, preview and unread mark the batch gives it, every shown message known and seen, with an index valid for the new positions |
| StableSort.Sorts | cosmic-ext-connect-applet/src/plugins/sms/app.rs:963 | The sort by date orders and permutes |
| StableSort.SortIsStable | cosmic-ext-connect-applet/src/plugins/sms/app.rs:963 | Messages of one date keep their order |
| SmsCache.MergeKeepsLastVersions | kdeconnect-service/src/dbus_interface.rs:72-109 | The merged cache has each (thread, id) key once, in first-seen order, with its last version |
| SmsCache.MergesIsUnique | kdeconnect-service/src/dbus_interface.rs:86-101 | That promise determines the merged messages |
| SmsCache.MergeIsAssociative | kdeconnect-service/src/dbus_interface.rs:72-109 | Merging one packet after another is merging their concatenation |
| SmsCache.RemergeIsNoOp | kdeconnect-service/src/dbus_interface.rs:72-109 | Merging the same packet again changes nothing, the version included |
| SmsCache.MergeSmsCache | kdeconnect-service/src/dbus_interface.rs:75-109 | The one-pass loop with its position map computes that merge: each (thread, id) slot once, holding its last message; the incoming version wins, else the previous one stays |
| SmsCache.MergeBySlot | kdeconnect-service/src/dbus_interface.rs:86-108 | The merge has one message for each thread and id of the input, the last such one, and no other message |
| SmsCache.HasUnread | kdeconnect-core/src/plugins/sms.rs:308-333 | The one-pass summary is true iff some thread's latest date exceeds its seen date, or the thread was never opened and a message at its latest date is unread |
| SmsCache.UnreadIgnoresOrder | kdeconnect-core/src/plugins/sms.rs:308-333 | The summary does not depend on the order or repetition of messages |
| SmsCache.ThreadMeetsDocumentation | kdeconnect-core/src/plugins/sms.rs:299-331 | For one thread the code agrees with its documentation iff the thread was opened, has no unread message, or has one at its latest date |
| SmsCache.UnreadMeetsDocumentation | kdeconnect-core/src/plugins/sms.rs:299-331 | The summary is true only if its documentation says so, and differs exactly when it is false although some thread hides an unread message |
| SmsCache.UnreadCanBeHidden | kdeconnect-core/src/plugins/sms.rs:319-331 | An unread message before a read one in a thread never opened is not reported |
| Framing.ReadControlLine | kdeconnect-core/src/transport.rs:518-553 | Whatever the chunks, returns the text up to and including the first newline or to the orderly end of the stream; fails exactly when that exceeds the limit, is not UTF-8 or the stream broke before; never holds more than the limit, and consumes exactly the line |
| Framing.ReadPackets | kdeconnect-core/src/transport.rs:567-595 | The packets forwarded are the nonempty trimmed lines of the stream up to the first that ends the connection or until the core or the writing half goes away, whatever the chunks |
| Bytes.TrimDropsPadding | kdeconnect-core/src/transport.rs:573 | Trimming takes an ASCII blank off either side of a text that neither starts nor ends with white space |
| Framing.FramesAreReadBack | kdeconnect-core/src/protocol.rs:239-242 | Newline-free packets each written with a newline are read back one for one, also before a line that is too long |
| Framing.ReadIdentityLine | kdeconnect-core/src/transport.rs:63-75 | Reads exactly through the newline, leaving what follows on the socket, and refuses lines over 65536 bytes |
| Payload.CopyWithInactivityDeadline | kdeconnect-core/src/transport.rs:811-865 | For any reader, the bytes written are a prefix of the stream within the announced size, each read written is reported with its running total as far as the throttle lets it, and the copy succeeds exactly on a clean stream of at most that size; result, updates and bytes are those of the read-by-read specification |
| Payload.CopyKeepsPrefix | kdeconnect-core/src/transport.rs:822-865 | The read-by-read specification writes a prefix within the announced size and succeeds exactly on clean streams that fit, with all of them |
| Payload.ReportsIncrease | kdeconnect-core/src/transport.rs:860-863 | The reported byte counts strictly increase and never exceed what was written |
| Payload.EveryReadIsReported | kdeconnect-core/src/transport.rs:856-863 | Each read that is written is reported, with the running total of the bytes so far |
| Payload.TooMuchIsRefused | kdeconnect-core/src/transport.rs:836-855 | A clean stream longer than announced is refused as a size mismatch |
| Payload.ReceivePayload | kdeconnect-core/src/transport.rs:719-808 | Succeeds exactly when the size was announced, the peer presented the pinned certificate and a clean stream of exactly that size arrived, all of which is then in the file; a failure names the first stage that failed |
| Decimals.DecimalInjective | kdeconnect-core/src/download.rs:58 | Different numbers have different decimal suffixes |
| Decimals.DecimalReads | kdeconnect-core/src/download.rs:58 | A suffix reads back as its number, in decimal digits |
| Download.StemAndExtension | kdeconnect-core/src/download.rs:48-53 | A name is its stem and its extension, which begins at the last dot unless that is the first character |
| Download.CandidatesAreDistinct | kdeconnect-core/src/download.rs:54-59 | No two names of the numbered series are equal |
| Download.TakenIsBounded | kdeconnect-core/src/download.rs:54-65 | A finite directory cannot hold more names of the series than entries, so the loop ends |
| Download.FirstFreeIsUnique | kdeconnect-core/src/download.rs:54-65 | The destination is determined by the directory and the name |
| Download.Finish | kdeconnect-core/src/download.rs:38-67 | Ends on every directory, publishes the content under the first free name of the series, and changes no existing entry; a cache file replaces the old one; a failure changes nothing |
| Transfers.ReceiveInner | kdeconnect-core/src/plugins/share.rs:164-215 | A file appears, with exactly the announced bytes of the paired peer, iff every stage succeeds; otherwise the directory is unchanged and the error names the first stage that failed, a bad destination first and publishing last; the updates emitted are the due ones |
| Transfers.ReceiveAndReport | kdeconnect-core/src/plugins/share.rs:110-159 | Reports Completed iff the file was published, else Failed, and ends the transfer either way |
| Transfers.ReceiveShare | kdeconnect-core/src/plugins/share.rs:62-108 | A file share emits the announcement, the due updates and exactly one terminal status: Completed iff published, else Failed at the first failing stage, which is metadata without payload information; text and links emit none |
| Transfers.ReceiveAttachment | kdeconnect-core/src/plugins/sms.rs:104-176 | An attachment emits exactly one terminal status: Completed iff published under its name, else Failed at the first failing stage, which is metadata for a bad device id or file name |
| FileTransfer.IncomingTransfer.Progress | kdeconnect-core/src/filetransfer.rs:73-87 | A due update is sent with its byte count, and otherwise nothing; a larger one keeps the transfer running |
| FileTransfer.UpdatesKeepRunning | kdeconnect-core/src/filetransfer.rs:73-87 | Whatever is throttled, strictly increasing byte counts give strictly increasing updates within the bytes written |
| FileTransfer.DueUpdatesAreSent | kdeconnect-core/src/filetransfer.rs:73-87 | Every update that is due is sent with its own byte count, and no other |
| FileTransfer.IncomingTransfer.Complete | kdeconnect-core/src/filetransfer.rs:90-95 | Ends the transfer with the path and the byte count |
| FileTransfer.IncomingTransfer.Fail | kdeconnect-core/src/filetransfer.rs:99-105 | Ends the transfer with the stage |
| FileTransfer.EndedHasOneTerminal | kdeconnect-core/src/filetransfer.rs:67-105 | In an ended transfer the last status and no other is terminal, and progress before it strictly increases from zero |
| Clipboard.CurrentIsLastSource | kdeconnect-service/src/clipboard.rs:252-432 | In every run the current text is that of the last fresh read or remote write |
| Clipboard.EarlierReadsAreIgnored | kdeconnect-service/src/clipboard.rs:381-384 | A read is still fresh iff no selection notice came since it was begun; once one did, what it brings changes nothing |
| Clipboard.OnlyUserChangesArePublished | kdeconnect-service/src/clipboard.rs:415-431 | In every run, what is published was read for the last notice, of a seat noticed before: never a first snapshot and never an older selection |
| Clipboard.UserChangeIsNew | kdeconnect-service/src/clipboard.rs:375-432 | In every run, a read begun for a notice of a seat noticed before may be announced, and what it finds is announced iff that notice is the last one and the content is neither the written text nor what is shown |
| Clipboard.EchoesPublishNothing | kdeconnect-service/src/clipboard.rs:396-409 | After a remote write, any number of seat notices and reads that carry its text, with stale reads in between, publish nothing and keep the text |
| Clipboard.FirstReadAfterWrite | kdeconnect-service/src/clipboard.rs:396-419 | The first fresh read after a remote write is published iff it may be and its text differs from the one written, and the clipboard then shows it |
| Clipboard.WriteSurvivesEarlierRead | kdeconnect-service/src/clipboard.rs:252-282 | A read begun before a remote write leaves the written text in place iff a notice came in between or it carries that text |
| Clipboard.EarlierReadOvertakesWrite | kdeconnect-service/src/clipboard.rs:252-282 | A run from the start of the worker in which the text of a slow user change replaces the phone's later text and is announced |
| Clipboard.ClipboardWorker.SetClipboardText | kdeconnect-service/src/clipboard.rs:252-282 | Extends the run; the phone's text is shown at once, not sensitive, with this time, and awaits its echo, or nothing changes if there is nothing to write to; nothing is announced |
| Clipboard.ClipboardWorker.BeginSelectionRead | kdeconnect-service/src/clipboard.rs:284-373 | Advances the generation, empties the clipboard if there is no text to read and leaves it as it is otherwise, and announces nothing |
| Clipboard.ClipboardWorker.FinishSelectionRead | kdeconnect-service/src/clipboard.rs:375-420 | A read announces its content exactly if its generation is the current one, it may be announced, it carries content, that text is not the one just written, and text and sensitivity are not both those shown; the clipboard then shows what the read found and no write is pending; a stale read changes nothing |
| Clipboard.ClipboardWorker.HandleSelection | kdeconnect-service/src/clipboard.rs:422-432 | Extends the run; starts a read if there is text, to be announced iff the seat was noticed before; announces nothing itself, and no read begun earlier counts any more |
| Clipboard.ClipboardWorker.SelectionRead | kdeconnect-service/src/clipboard.rs:241-250 | Extends the run; announces its content exactly under those conditions, so that a user's change is announced iff the read was begun by the last notice and brings something new; the clipboard shows the text of the last fresh read or write |
| Vcard.DecodeQuotedPrintable | kdeconnect-core/src/plugin_interface.rs:633-654 | The loop decodes as specified, keeping incomplete escapes, and replaces what is not UTF-8 |
| Vcard.DecodeUndoesEncoding | kdeconnect-core/src/plugin_interface.rs:633-654 | Decoding undoes every encoder that escapes at least '=', with hexadecimal digits of either case (section 6.7 of RFC 2045) |
| Vcard.EncoderIsUndone | kdeconnect-core/src/plugin_interface.rs:633-654 | An encoder that writes the marked bytes as "=" and their two hexadecimal digits, spelled out, in either case, is undone by decoding |
| Vcard.UnfoldVcardLines | kdeconnect-core/src/plugin_interface.rs:656-683 | The loop unfolds as specified |
| Vcard.LinesOfJoin | kdeconnect-core/src/plugin_interface.rs:659 | Lines joined with either line ending are split back |
| Vcard.QuotedPrintableRoundTrip | kdeconnect-core/src/plugin_interface.rs:663-671 | A quoted-printable property soft-broken anywhere, as long as no continuation starts with white space, unfolds to one line whose value decodes to the original bytes, which come back as text iff they are UTF-8, without swallowing the next property |
| Vcard.ParameterMarks | kdeconnect-core/src/plugin_interface.rs:663-668 | Any property with ENCODING=QUOTED-PRINTABLE before its colon, in any case, is quoted-printable |
| Vcard.ShortPropertyJoinsNothing | kdeconnect-core/src/plugin_interface.rs:663-671 | A property too short to name the encoding joins nothing to itself, even if it ends in "=" |
| Vcard.FoldingRoundTrip | kdeconnect-core/src/plugin_interface.rs:660-662 | White-space folding with spaces or tabs (section 3.2 of RFC 6350) comes back, followed by the next property, iff no cut precedes white space |
| Vcard.FoldingCanLoseASpace | kdeconnect-core/src/plugin_interface.rs:660-662 | A name folded before its space unfolds without it |
| MountPath.UnescapeMountPath | kdeconnect-core/src/plugins/sftp.rs:571-588 | The loop unescapes as specified and replaces what is not UTF-8; None where the source would slice inside a character |
| MountPath.UnescapeUndoesEscape | kdeconnect-core/src/plugins/sftp.rs:571-588 | For every byte string and every escaping that includes the backslash, unescaping gives the original back exactly when no escape is followed by an unescaped continuation byte, and fails otherwise |
| MountPath.KernelSpelling | kdeconnect-core/src/plugins/sftp.rs:561-563 | The kernel writes space, tab, newline and backslash in these three octal digits, and every other byte as itself |
| MountPath.UnescapeFailsExactly | kdeconnect-core/src/plugins/sftp.rs:576-579 | On any bytes the slice fails iff some backslash is followed, right behind it or three bytes on, by the inside of a character |
| MountPath.UnescapeCanFail | kdeconnect-core/src/plugins/sftp.rs:576-579 | A text on which it does |
| MountPath.AsciiEndsCharacters | kdeconnect-core/src/plugins/sftp.rs:565-570 | In UTF-8 text no continuation byte follows an ASCII byte |
| MountPath.MountPathsCompareEqual | kdeconnect-core/src/plugins/sftp.rs:571-588 | Every UTF-8 path survives the kernel's escaping, and escaped paths compare equal iff the originals do |
| Bytes.LossyKeepsText | kdeconnect-core/src/plugins/sftp.rs:587 | The lossy conversion returns its input iff that is UTF-8 |

## Left out

- TLS, sockets, discovery, keepalive, clocks and timeouts: a connection presents a certificate, a stall is an outcome of a read, and throttling decides which progress updates are due.
- JSON and RON: records are values, and a malformed record or cache counts as an absent one.
- `pending_pair`: nothing is ever inserted into it, so removing from it has no effect.
- Plugin side effects, names, addresses, the copy of the channel for the media bridge, and the files removed by `cleanup_device_data`.
- The plugin settings: whether a plugin is enabled is a parameter of the event that asks.
- The service's `is_reachable` flag follows the events it is told (`ServiceMirror.MirrorKnows`) but is not claimed to agree with the core's connections, since a late DevicePaired sets it; nor is it claimed that the bootstrap packets of a queued DevicePaired go to a device still paired.
- Registry.Legal: treats the transport's channel as the order in which the environment chooses events, and an accepted connection as sending one Disconnected.
- Payload upload (the listener and copy tasks spawned by `send_payload`): only the share request it queues on the writer is modelled, and files or listeners that cannot be opened are simply not in the list.
- Overflow of the u64 notification sequence, of the u32 download suffix and of the 64-bit difference of two message dates; the selection generation does wrap at 2^64.
- SmsWindow.SmsWindow.SendMessage: with two sends within one millisecond, which share an id, only the index is claimed to be right, not that ids are distinct.
- Vcard.FoldingRoundTrip: leaves a folded property that itself ends like a quoted-printable soft break to Vcard.QuotedPrintableRoundTrip.
- SmsCache.HasUnread: keys the last-seen times by the thread number rather than by its decimal string.
- Message attachments, conversation lists merged from the phone (thread ids can repeat there), names and previews other than body and date.
- Notification fingerprints are an arbitrary function of application name, title and text; two contents with one fingerprint count as the same.
- The system volume drain loops, mount point names, D-Bus, Varlink, Wayland, view code and settings.
