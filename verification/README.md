# Signal-Server account directory and push dispatch, in Dafny

This project models three parts of Signal-Server and proves properties of each.

- **The account directory (`Accounts`).** It keeps five tables:
  - account records, keyed by account identifier (ACI);
  - the phone-number constraint table, E.164 → ACI;
  - the phone-number-identifier (PNI) constraint table, PNI → ACI;
  - the username-hash table, hash → ACI, with an expiry while the hash is only reserved;
  - the recently-deleted tombstones, E.164 → ACI.

  Each directory operation is an all-or-nothing conditional update of those tables. The operations are create (with re-registration over a live account), update under an optimistic version lock, delete, change number, and reserve, confirm and clear of a username hash. Lookups go by ACI, number, PNI, username hash, link handle and tombstone, and there is a username-availability check.
  - `AccountTables` states each operation as a pure transition of a `Tables` value. The transition returns the new tables, the outcome, and the caller's `Account` object as the directory leaves it (the Java code mutates that object: version, username fields).
  - `AccountStore.Accounts` is the stateful directory: a class with the five maps as fields and a pinned clock. Its methods update the maps in place and are proved to perform exactly those transitions and to keep the tables consistent.
  - `AccountInvariant` proves that every operation preserves that consistency.
  - `AccountProperties` proves the behaviour the directory's tests pin down.
- **The APNs sender (`APNSender.sendNotification`), in `ApnsSender`.** It proves which request is built for a notification (topic, payload, push type, delivery priority, collapse id, fixed expiration) and how an APNs response becomes a `SendPushNotificationResult`.
- **The push-notification manager, in `PushManager`.** It models the notification builders, with their choice of device token, and the routing decision table `Actions`: which sender, what is scheduled or cancelled instead of or after a send, and the reaction to an unregistered token. The class `PushNotificationManager` records the effects on its collaborators. Those are the device update that stamps an FCM device as uninstalled, the calls made to the senders and scheduler, and the queue reads of `handleMessagesRetrieved`.

`PushNotifications` holds the shared value types. `Common` holds `Option`.

After a switch to a new username hash the old link handle stops resolving (AccountsTest.java:806), so a confirmation mints a fresh handle whenever the caller already holds a confirmed hash; a handle the caller holds without a confirmed hash (in the tests, one saved by re-registration) is reused.

Time is an integer number of seconds. A reservation blocks until its expiry has strictly passed: an entry expiring at `now` still blocks.

## Model

| member | source | states |
|---|---|---|
| AccountTables.GetByAccountIdentifier | service/src/test/java/org/whispersystems/textsecuregcm/storage/AccountsTest.java:596-620 | present exactly when a record with that ACI exists, and then it is that record |
| AccountTables.GetByE164 | service/src/test/java/org/whispersystems/textsecuregcm/storage/AccountsTest.java:634-645 | present exactly when the number constraint points at a live record, and then it is that record |
| AccountTables.GetByPhoneNumberIdentifier | service/src/test/java/org/whispersystems/textsecuregcm/storage/AccountsTest.java:622-632 | present exactly when the PNI constraint points at a live record, and then it is that record |
| AccountTables.GetByUsernameHash | service/src/test/java/org/whispersystems/textsecuregcm/storage/AccountsTest.java:1051-1063 | resolves only a confirmed (expiry-less) entry whose owner is live; a reservation never resolves |
| AccountTables.FindRecentlyDeletedAccountIdentifier | service/src/test/java/org/whispersystems/textsecuregcm/storage/AccountsTest.java:184-210 | present exactly when the number has a tombstone, and then it is the tombstone's ACI |
| AccountTables.UsernameHashAvailable | service/src/test/java/org/whispersystems/textsecuregcm/storage/AccountsTest.java:946-962 | with a token, available exactly when that account could confirm the hash (free, lapsed, or its own live reservation); without one, exactly when free or lapsed |
| AccountTables.GetByUsernameLinkHandle | service/src/test/java/org/whispersystems/textsecuregcm/storage/AccountsTest.java:128-161 | empty exactly when no live record carries the handle; otherwise a live record carrying it, and the one record when a single account holds the handle |
| AccountTables.Unwrap | service/src/test/java/org/whispersystems/textsecuregcm/storage/AccountsTest.java:509-527 | the innermost cause of nested CompletionExceptions is never itself a CompletionException |
| AccountTables.UpdateFailure | service/src/test/java/org/whispersystems/textsecuregcm/storage/AccountsTest.java:488-527 | a failed update is a ConditionalCheckFailed exactly when the condition failed on a missing account; every other failure is a contested lock |
| AccountTables.Create | service/src/test/java/org/whispersystems/textsecuregcm/storage/AccountsTest.java:453-456 | a refused create leaves every table unchanged |
| AccountTables.Reclaim | service/src/test/java/org/whispersystems/textsecuregcm/storage/AccountsTest.java:397-453 | a refused re-registration leaves every table unchanged |
| AccountTables.Update | service/src/test/java/org/whispersystems/textsecuregcm/storage/AccountsTest.java:459-527 | a failed update leaves the tables and the caller's object unchanged |
| AccountTables.Delete | service/src/test/java/org/whispersystems/textsecuregcm/storage/AccountsTest.java:547-594 | deleting an unknown ACI changes nothing |
| AccountTables.ChangeNumber | service/src/test/java/org/whispersystems/textsecuregcm/storage/AccountsTest.java:719-774 | a cancelled number change leaves the tables and the caller unchanged |
| AccountTables.ReserveUsernameHash | service/src/test/java/org/whispersystems/textsecuregcm/storage/AccountsTest.java:1009-1031 | a refused reservation leaves the tables and the caller unchanged |
| AccountTables.ConfirmUsernameHash | service/src/test/java/org/whispersystems/textsecuregcm/storage/AccountsTest.java:820-867 | a refused confirmation leaves the tables and the caller unchanged |
| AccountTables.ClearUsernameHash | service/src/test/java/org/whispersystems/textsecuregcm/storage/AccountsTest.java:896-910 | a refused clear leaves the tables and the caller unchanged |
| AccountInvariant.CreatePreservesValid | service/src/test/java/org/whispersystems/textsecuregcm/storage/AccountsTest.java:163-210 | create keeps every record and its number and PNI constraints pointing at each other in both directions, with no tombstone on a live number |
| AccountInvariant.ReclaimPreservesValid | service/src/test/java/org/whispersystems/textsecuregcm/storage/AccountsTest.java:397-453 | re-registration keeps that consistency |
| AccountInvariant.UpdatePreservesValid | service/src/test/java/org/whispersystems/textsecuregcm/storage/AccountsTest.java:459-475 | update keeps that consistency |
| AccountInvariant.DeletePreservesValid | service/src/test/java/org/whispersystems/textsecuregcm/storage/AccountsTest.java:547-594 | delete keeps that consistency |
| AccountInvariant.ChangeNumberPreservesValid | service/src/test/java/org/whispersystems/textsecuregcm/storage/AccountsTest.java:663-711 | a number change keeps that consistency |
| AccountInvariant.ReservePreservesValid | service/src/test/java/org/whispersystems/textsecuregcm/storage/AccountsTest.java:912-945 | a reservation keeps that consistency |
| AccountInvariant.ConfirmPreservesValid | service/src/test/java/org/whispersystems/textsecuregcm/storage/AccountsTest.java:776-819 | a confirmation keeps that consistency |
| AccountInvariant.ClearPreservesValid | service/src/test/java/org/whispersystems/textsecuregcm/storage/AccountsTest.java:868-887 | clearing keeps that consistency |
| AccountStore.Accounts.constructor | service/src/test/java/org/whispersystems/textsecuregcm/storage/AccountsTest.java:108-126 | a new directory has five empty tables, which are consistent |
| AccountStore.Accounts.Pin | service/src/test/java/org/whispersystems/textsecuregcm/storage/AccountsTest.java:989-996 | the pinned clock reads the given instant |
| AccountStore.Accounts.Create | service/src/test/java/org/whispersystems/textsecuregcm/storage/AccountsTest.java:163-210 | the in-place writes are exactly the create transition and keep the tables consistent |
| AccountStore.Accounts.ReclaimAccount | service/src/test/java/org/whispersystems/textsecuregcm/storage/AccountsTest.java:397-453 | the in-place writes are exactly the re-registration transition |
| AccountStore.Accounts.Update | service/src/test/java/org/whispersystems/textsecuregcm/storage/AccountsTest.java:459-527 | the in-place writes are exactly the update transition and keep the tables consistent |
| AccountStore.Accounts.Delete | service/src/test/java/org/whispersystems/textsecuregcm/storage/AccountsTest.java:547-594 | the in-place writes are exactly the delete transition and keep the tables consistent |
| AccountStore.Accounts.ChangeNumber | service/src/test/java/org/whispersystems/textsecuregcm/storage/AccountsTest.java:663-774 | the in-place writes are exactly the number-change transition and keep the tables consistent |
| AccountStore.Accounts.ReserveUsernameHash | service/src/test/java/org/whispersystems/textsecuregcm/storage/AccountsTest.java:912-1031 | the in-place writes are exactly the reservation transition at the pinned clock and keep the tables consistent |
| AccountStore.Accounts.ConfirmUsernameHash | service/src/test/java/org/whispersystems/textsecuregcm/storage/AccountsTest.java:776-867 | the in-place writes are exactly the confirmation transition at the pinned clock and keep the tables consistent |
| AccountStore.Accounts.ClearUsernameHash | service/src/test/java/org/whispersystems/textsecuregcm/storage/AccountsTest.java:868-910 | the in-place writes are exactly the clear transition and keep the tables consistent |
| AccountProperties.CreateOnFreeNumber | service/src/test/java/org/whispersystems/textsecuregcm/storage/AccountsTest.java:163-175 | create on a free number returns true, resolves by ACI, number and PNI, and leaves no tombstone |
| AccountProperties.CreateIsIdempotent | service/src/test/java/org/whispersystems/textsecuregcm/storage/AccountsTest.java:176-182 | creating the same account again returns true and changes nothing |
| AccountProperties.RecreateWithNewPni | service/src/test/java/org/whispersystems/textsecuregcm/storage/AccountsTest.java:176-182 | re-creating a live account with a new free PNI returns true, frees the old PNI and resolves the new one to the new record, keeping the tables consistent |
| AccountProperties.CreateWithTakenIdentifierFails | service/src/test/java/org/whispersystems/textsecuregcm/storage/AccountsTest.java:454-456 | an ACI that holds another number is refused |
| AccountProperties.ReRegistrationKeepsIdentity | service/src/test/java/org/whispersystems/textsecuregcm/storage/AccountsTest.java:418-438 | re-registering a live number returns false, keeps the first ACI and PNI, and turns a confirmed hash into a reservation with the same link |
| AccountProperties.ReclaimedUsernameRestored | service/src/test/java/org/whispersystems/textsecuregcm/storage/AccountsTest.java:440-451 | confirming the reclaimed hash restores it with the same link handle and it resolves again |
| AccountProperties.ReRegistrationLinkReuse | service/src/test/java/org/whispersystems/textsecuregcm/storage/AccountsTest.java:328-395 | after re-registration and confirm the old link is reused exactly for a prior CONFIRMED or RESERVED_WITH_SAVED_LINK status; hash, encrypted name and link are set, no reservation |
| AccountProperties.UpdateVersionRules | service/src/test/java/org/whispersystems/textsecuregcm/storage/AccountsTest.java:459-505 | update succeeds exactly on a matching version and advances it; stale is a contested lock, unknown a failed condition; only the data, link and discoverability are rewritten |
| AccountProperties.UpdateMovesUsernameLink | service/src/test/java/org/whispersystems/textsecuregcm/storage/AccountsTest.java:129-161 | after update a newly minted link handle is held by this account alone, whose record carries the new encrypted username, and a previous unshared handle stops resolving |
| AccountProperties.TwoUpdatesAfterCreate | service/src/test/java/org/whispersystems/textsecuregcm/storage/AccountsTest.java:471-493 | two updates after create leave the version advanced by two |
| AccountProperties.UnwrapWrap | service/src/test/java/org/whispersystems/textsecuregcm/storage/AccountsTest.java:518-519 | any number of CompletionException layers unwrap to the same cause |
| AccountProperties.ConflictIsContested | service/src/test/java/org/whispersystems/textsecuregcm/storage/AccountsTest.java:507-527 | a transaction conflict, wrapped or not, is a contested lock that changes nothing |
| AccountProperties.DeleteRemovesAccount | service/src/test/java/org/whispersystems/textsecuregcm/storage/AccountsTest.java:547-579 | delete removes the record and its constraints, leaves a tombstone, and leaves every other account resolvable as before |
| AccountProperties.RecreateAfterDelete | service/src/test/java/org/whispersystems/textsecuregcm/storage/AccountsTest.java:580-594 | a new account on the deleted number is fresh and clears the tombstone |
| AccountProperties.ChangeNumberMovesAccount | service/src/test/java/org/whispersystems/textsecuregcm/storage/AccountsTest.java:663-711 | the account moves to the new number and PNI, the old ones stop resolving, and the old number's tombstone is exactly the displaced ACI given |
| AccountProperties.ChangeNumberConflict | service/src/test/java/org/whispersystems/textsecuregcm/storage/AccountsTest.java:719-774 | a held target number or PNI cancels the transaction with every table unchanged |
| AccountProperties.ReserveSetsOnlyReservation | service/src/test/java/org/whispersystems/textsecuregcm/storage/AccountsTest.java:912-921 | a reservation sets only the reserved hash, with an expiry, and the hash does not resolve |
| AccountProperties.ReservationBlocks | service/src/test/java/org/whispersystems/textsecuregcm/storage/AccountsTest.java:912-928 | until expiry has strictly passed nobody can reserve the hash and only the holder can confirm it |
| AccountProperties.ConfirmedHashIsTaken | service/src/test/java/org/whispersystems/textsecuregcm/storage/AccountsTest.java:820-853 | a confirmed hash can be reserved or confirmed by nobody, its owner included |
| AccountProperties.ExpiredReservationCanBeTaken | service/src/test/java/org/whispersystems/textsecuregcm/storage/AccountsTest.java:980-1007 | after expiry another account reserves and confirms the hash, it resolves to that account, and all others are refused |
| AccountProperties.AvailableIffConfirmSucceeds | service/src/test/java/org/whispersystems/textsecuregcm/storage/AccountsTest.java:946-962 | for an account with a current version, the hash is available to its token exactly when confirming it succeeds |
| AccountProperties.AvailabilityAfterReserve | service/src/test/java/org/whispersystems/textsecuregcm/storage/AccountsTest.java:946-952 | after a reservation and until it lapses, the hash is available to the reserving account's token and to no other token or missing token |
| AccountProperties.AvailabilityAfterConfirm | service/src/test/java/org/whispersystems/textsecuregcm/storage/AccountsTest.java:954-958 | after a confirmation the hash is available to no token at any time |
| AccountProperties.ConfirmClaimsHash | service/src/test/java/org/whispersystems/textsecuregcm/storage/AccountsTest.java:930-944 | confirming a free or own reserved hash clears the reservation, sets the hash, and leaves a permanent entry resolving to the caller |
| AccountProperties.ConfirmVersionMismatch | service/src/test/java/org/whispersystems/textsecuregcm/storage/AccountsTest.java:855-866 | a stale version refuses confirmation and leaves the caller's username state |
| AccountProperties.SwitchUsernameHash | service/src/test/java/org/whispersystems/textsecuregcm/storage/AccountsTest.java:776-819 | switching hashes deletes the old entry, the old unshared link stops resolving, and the freshly minted link is held by this account alone, with the new encrypted username |
| AccountProperties.ClearRemovesUsername | service/src/test/java/org/whispersystems/textsecuregcm/storage/AccountsTest.java:868-886 | clearing removes the entry, the hash, the link handle and the encrypted username |
| AccountProperties.ClearWithoutUsername | service/src/test/java/org/whispersystems/textsecuregcm/storage/AccountsTest.java:888-894 | clearing without a username is a successful no-op |
| AccountProperties.ClearVersionMismatch | service/src/test/java/org/whispersystems/textsecuregcm/storage/AccountsTest.java:896-910 | clearing with a stale version fails and the caller keeps its hash |
| ApnsSender.BuildRequest | service/src/main/java/org/whispersystems/textsecuregcm/push/APNSender.java:81-139 | an FCM token is refused; otherwise the topic is the bundle id (".voip" appended for VoIP), the expiration is fixed, VoIP push type is exactly a VoIP token, an alert is exactly an urgent APN, priority is immediate exactly when urgent or VoIP, and "incoming-message" collapses exactly urgent non-VoIP message notifications |
| ApnsSender.ToSendResult | service/src/main/java/org/whispersystems/textsecuregcm/push/APNSender.java:146-162 | accepted maps to (true, null, false); rejected to (false, reason or "unknown", unregistered), with unregistered exactly for "Unregistered" or "BadDeviceToken" |
| ApnsSender.SelectPayload | service/src/main/java/org/whispersystems/textsecuregcm/push/APNSender.java:90-114 | a custom property exactly for non-message types, under the type's key with the data; mutable content exactly for attempt-login and urgent non-VoIP messages; content-available exactly for challenges and non-urgent non-VoIP messages; a sound exactly for VoIP messages |
| ApnsSender.PayloadRules | service/src/main/java/org/whispersystems/textsecuregcm/push/APNSender.java:90-114 | message notifications get the VoIP, notification-service or background payload; the others carry their data under their own custom key |
| ApnsSender.HeadersCoherent | service/src/main/java/org/whispersystems/textsecuregcm/push/APNSender.java:116-129 | background push type is exactly conserve-power priority; a collapse id implies an immediate alert with the notification-service payload |
| ApnsSender.VoipTopicIffVoipPush | service/src/main/java/org/whispersystems/textsecuregcm/push/APNSender.java:82-86 | provided the bundle id does not itself end in ".voip", the topic ends in ".voip" exactly when the push type is VoIP |
| ApnsSender.MissingReasonIsUnknown | service/src/main/java/org/whispersystems/textsecuregcm/push/APNSender.java:155-158 | a rejection without a reason reports "unknown" and is not unregistered |
| PushManager.GetToken | service/src/test/java/org/whispersystems/textsecuregcm/push/PushNotificationManagerTest.java:105-134 | no token exactly when all three token fields are blank; otherwise a non-blank token from the field matching the returned type |
| PushManager.ToDevice | service/src/test/java/org/whispersystems/textsecuregcm/push/PushNotificationManagerTest.java:55-72 | built exactly when the device exists and has a token; then aimed at that account and device through the token the device currently prefers, with the given type, data and urgency |
| PushManager.NewMessageNotification | service/src/test/java/org/whispersystems/textsecuregcm/push/PushNotificationManagerTest.java:55-72 | built exactly when the device has a usable token; then a message notification with no data and the caller's urgency, to that device through its current token |
| PushManager.RegistrationChallengeNotification | service/src/test/java/org/whispersystems/textsecuregcm/push/PushNotificationManagerTest.java:74-84 | urgent, carries the challenge, has no account or device, and once accepted is only sent by the sender of its token type |
| PushManager.RateLimitChallengeNotification | service/src/test/java/org/whispersystems/textsecuregcm/push/PushNotificationManagerTest.java:86-103 | built exactly when the primary device has a usable token; then an urgent rate-limit challenge carrying the challenge to the primary device |
| PushManager.AttemptLoginNotification | service/src/test/java/org/whispersystems/textsecuregcm/push/PushNotificationManagerTest.java:105-134 | built exactly when the primary device has a usable token; then an urgent attempt-login notification carrying the context to the primary device |
| PushManager.Actions | service/src/test/java/org/whispersystems/textsecuregcm/push/PushNotificationManagerTest.java:136-265 | one sender or the background scheduler, never both; the background schedule exactly for non-urgent APN; recurring VoIP exactly after an accepted VoIP send to a device; the stamp exactly after a dead-token verdict for a device holding an FCM id and no stamp; cancellation exactly after one for a device without an FCM id; no action repeats |
| PushManager.CurrentTokenRouting | service/src/test/java/org/whispersystems/textsecuregcm/push/PushNotificationManagerTest.java:136-265 | for a notification through its device's current token, FCM never reaches APNs or the scheduler and APNs never reaches FCM or the device stamp |
| PushManager.FcmAcceptedOnlySends | service/src/test/java/org/whispersystems/textsecuregcm/push/PushNotificationManagerTest.java:136-158 | an accepted FCM notification is only sent by FCM |
| PushManager.ApnUrgencyDecides | service/src/test/java/org/whispersystems/textsecuregcm/push/PushNotificationManagerTest.java:160-191 | an urgent APN notification is sent; a non-urgent one is only scheduled as a background notification |
| PushManager.VoipAcceptedSchedulesRecurring | service/src/test/java/org/whispersystems/textsecuregcm/push/PushNotificationManagerTest.java:193-217 | an accepted VoIP notification is sent and a recurring VoIP notification scheduled |
| PushManager.UnregisteredReaction | service/src/test/java/org/whispersystems/textsecuregcm/push/PushNotificationManagerTest.java:219-265 | a dead FCM token stamps the device unless it already carries a stamp; a dead APNs token cancels scheduled notifications instead |
| PushManager.NewMessageToFcmDevice | service/src/test/java/org/whispersystems/textsecuregcm/push/PushNotificationManagerTest.java:55-72 | a new-message notification to an FCM device is FCM, type NOTIFICATION, no data, caller's urgency, sent by FCM alone |
| PushManager.PrimaryDeviceChannel | service/src/test/java/org/whispersystems/textsecuregcm/push/PushNotificationManagerTest.java:86-134 | the primary device's APN token yields urgent APN attempt-login and rate-limit notifications, an FCM token an FCM one, no token a refusal |
| PushManager.BlankTokensAreUnusable | service/src/test/java/org/whispersystems/textsecuregcm/push/PushNotificationManagerTest.java:105-134 | a device whose tokens are all empty or whitespace has no usable token |
| PushManager.WithDeviceUninstalled | service/src/test/java/org/whispersystems/textsecuregcm/push/PushNotificationManagerTest.java:236-237 | only the named device's uninstalled-feedback timestamp changes |
| PushManager.PushNotificationManager.constructor | service/src/test/java/org/whispersystems/textsecuregcm/push/PushNotificationManagerTest.java:41-53 | a new manager has made no calls and recorded no queue reads |
| PushManager.PushNotificationManager.SendNotification | service/src/test/java/org/whispersystems/textsecuregcm/push/PushNotificationManagerTest.java:136-265 | the calls made are those of the routing table; only a dead-token verdict for a device still holding an FCM id and no stamp changes an account, stamping that device today |
| PushManager.PushNotificationManager.HandleMessagesRetrieved | service/src/test/java/org/whispersystems/textsecuregcm/push/PushNotificationManagerTest.java:267-284 | one queue read is recorded for (ACI, device id, user agent) and the device's scheduled notifications are cancelled |
| PushManager.UninstalledStampIsLocal | service/src/test/java/org/whispersystems/textsecuregcm/push/PushNotificationManagerTest.java:219-240 | after the stamp, the notified device carries today's date and nothing else in any account changes |

## Left out

- `Accounts.java` and `PushNotificationManager.java` are not part of this model. Their behaviour is taken from `AccountsTest.java` and `PushNotificationManagerTest.java`, and the README table cites the test lines that pin each rule.
- AccountStore.Accounts.ChangeNumber: the displaced account's own record is not removed. The test (AccountsTest.java:663-711) only shows the displaced ACI becoming the old number's tombstone, and that is all `ChangeNumber` does with it.
- PushManager.Actions: a dead-token verdict does not clear the device token. The test (PushNotificationManagerTest.java:219-240) shows an FCM device stamped with an uninstalled-feedback timestamp instead, and the model does that.
- PushManager.UnregisteredFollowUp: the conditions of the dead-token reaction are reconstructed from what the tests stub, because `PushNotificationManager.java` is not part of this model. The stamp needs a device that still holds a non-blank FCM id (PushNotificationManagerTest.java:225) and no earlier stamp; any other device gets a cancellation. The tests exercise only mock defaults: a zero timestamp and no FCM id on the VoIP device.
- AccountTables.Create: re-creating a live ACI with a different PNI releases the PNI constraint the record held. The tests never re-create with another PNI and `Accounts.java` is not part of this model, so this is a choice that keeps the PNI table consistent, not observed behaviour.
- Link handles are not unique in `Tables.Valid`. A minted handle is random in the program; the lemmas about link lookups instead require that no other account holds the new handle.
- DynamoDB mechanics are not modelled: condition expressions, transactions, the SDK. Each operation is modelled by its outcome.
- JSON serialization of the account blob (field exclusion, device-id deserialization) is not modelled. The blob is the opaque `data` field.
- The `getAll` paging on a parallel scheduler is concurrency and is not modelled.
- Random ACIs, PNIs and link handles are supplied by the caller; `freshHandle` stands for the minted link handle.
- Races between concurrent callers are not modelled: operations are sequential. A backend exception raised by a concurrent transaction is the `raced` parameter of `Update`.
- Tombstones and reservations expire in the backend through TTL attributes. The model keeps a reservation's expiry and compares it to the clock, but it never purges tombstones.
- `Tables.Valid` covers records, number and PNI constraints in both directions, and tombstones. It does not tie username entries to records: the re-registration lemmas assume an account's confirmed hash entry is its own.
- The APNs client plumbing is not modelled: signing key, TLS, the network send, the metrics timer, the executor hop, `start`/`stop`. `sendNotification` is modelled by the request it builds and the result it derives from the response.
- The APNs payload JSON is not modelled. A payload is the record of the builder calls that produce it.
- Push latency recording and the asynchronous futures are not modelled. The scheduler and the latency recorder are the calls and queue reads recorded in `PushNotificationManager`.
- PushManager.GetToken: the order among several tokens on one device (FCM, then VoIP, then APN) is not pinned by the tests, which give each device a single token.
- `UnlinkDeviceCommand.java` is not modelled: it is CLI plumbing around collaborators.
- `SingleUseECPreKeyStore.java` is not modelled: it is a thin item mapping whose key layout lives in a superclass.
