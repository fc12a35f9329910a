/**
 * The push-notification manager: it builds notifications for an account's device, routes
 * each one to the FCM or APNs sender (or to the APNs scheduler instead), and reacts to the
 * sender's verdict. The routing is a decision table (`Actions`); the stateful part is
 * what the manager changes through its collaborators, kept in `PushNotificationManager`.
 */
module PushManager {
  import opened Common
  import opened PushNotifications

  // ------------------------------------------------------------------ builders

  /** The manager's one failure: the device is missing or has no usable push token. */
  datatype BuildError = NotPushRegistered

  datatype Built<T> = Built(notification: T) | Failed(error: BuildError)

  /** The characters `Character.isWhitespace` accepts. */
  predicate IsWhitespace(c: char) {
    || c == ' ' || c == '\t' || c == '\n' || c == '\U{000B}' || c == '\U{000C}' || c == '\r'
    || ('\U{001C}' <= c <= '\U{001F}')
    || c == '\U{1680}' || ('\U{2000}' <= c <= '\U{2006}') || ('\U{2008}' <= c <= '\U{200A}')
    || c == '\U{2028}' || c == '\U{2029}' || c == '\U{205F}' || c == '\U{3000}'
  }

  /** `StringUtils.isNotBlank`: present, and holding at least one non-whitespace character. */
  predicate IsNotBlank(s: Option<string>) {
    s.Some? && exists i | 0 <= i < |s.value| :: !IsWhitespace(s.value[i])
  }

  /** The token a device is reached through: FCM first, then APNs VoIP, then APNs. */
  function GetToken(d: Device): (r: Option<(string, TokenType)>)
    ensures r.None? <==> !IsNotBlank(d.gcmId) && !IsNotBlank(d.voipApnId) && !IsNotBlank(d.apnId)
    ensures r.Some? ==> TokenField(d, r.value.1) == Some(r.value.0) && IsNotBlank(TokenField(d, r.value.1))
  {
    if IsNotBlank(d.gcmId) then Some((d.gcmId.value, Fcm))
    else if IsNotBlank(d.voipApnId) then Some((d.voipApnId.value, ApnVoip))
    else if IsNotBlank(d.apnId) then Some((d.apnId.value, Apn))
    else None
  }

  /** The device's token field for a token type. */
  function TokenField(d: Device, t: TokenType): Option<string> {
    match t
    case Fcm => d.gcmId
    case ApnVoip => d.voipApnId
    case Apn => d.apnId
  }

  /** A notification of `notificationType` to the account's device `deviceId`, through its preferred token. */
  function ToDevice(account: PushAccount, deviceId: nat, notificationType: NotificationType,
                    data: Option<string>, urgent: bool): (r: Built<PushNotification>)
    ensures r.Built? <==> deviceId in account.devices && GetToken(account.devices[deviceId]).Some?
    ensures r.Built? ==>
      var d := account.devices[deviceId];
      && r.notification.destination == Some(account)
      && r.notification.destinationDevice == Some(d)
      && TokenField(d, r.notification.tokenType) == Some(r.notification.deviceToken)
      && ThroughCurrentToken(r.notification)
      && r.notification.notificationType == notificationType
      && r.notification.data == data
      && r.notification.urgent == urgent
  {
    if deviceId !in account.devices then Failed(NotPushRegistered)
    else
      var d := account.devices[deviceId];
      match GetToken(d)
      case None => Failed(NotPushRegistered)
      case Some((token, tokenType)) =>
        Built(PushNotification(token, tokenType, notificationType, data, Some(account), Some(d), urgent))
  }

  /** The notification reaches its device (if it names one) through the token that device currently prefers. */
  predicate ThroughCurrentToken(n: PushNotification) {
    n.destinationDevice.Some? ==> GetToken(n.destinationDevice.value) == Some((n.deviceToken, n.tokenType))
  }

  /** `sendNewMessageNotification`: a message notification, with no data and the caller's urgency. */
  function NewMessageNotification(account: PushAccount, deviceId: nat, urgent: bool): (r: Built<PushNotification>)
    ensures r.Built? <==> deviceId in account.devices && GetToken(account.devices[deviceId]).Some?
    ensures r.Built? ==>
      && r.notification.notificationType == Notification && r.notification.data.None?
      && r.notification.urgent == urgent
      && r.notification.destinationDevice == Some(account.devices[deviceId])
      && ThroughCurrentToken(r.notification)
  {
    ToDevice(account, deviceId, Notification, None, urgent)
  }

  /**
   * `sendRegistrationChallengeNotification`: an urgent challenge to a bare token, with no
   * account or device; it is always handed to a sender and, once accepted, nothing follows.
   */
  function RegistrationChallengeNotification(deviceToken: string, tokenType: TokenType, challengeToken: string): (r: PushNotification)
    ensures r.urgent && r.notificationType == Challenge && r.data == Some(challengeToken)
    ensures !HasDestination(r)
    ensures forall result: SendPushNotificationResult | result.accepted ::
      Actions(r, result) == [if tokenType == Fcm then SendWithFcm else SendWithApns]
  {
    PushNotification(deviceToken, tokenType, Challenge, Some(challengeToken), None, None, true)
  }

  /** `sendRateLimitChallengeNotification`: an urgent rate-limit challenge to the primary device. */
  function RateLimitChallengeNotification(account: PushAccount, challengeToken: string): (r: Built<PushNotification>)
    ensures r.Built? <==> PrimaryDeviceId in account.devices && GetToken(account.devices[PrimaryDeviceId]).Some?
    ensures r.Built? ==>
      && r.notification.notificationType == RateLimitChallenge && r.notification.data == Some(challengeToken)
      && r.notification.urgent
      && r.notification.destinationDevice == Some(account.devices[PrimaryDeviceId])
      && ThroughCurrentToken(r.notification)
  {
    ToDevice(account, PrimaryDeviceId, RateLimitChallenge, Some(challengeToken), true)
  }

  /** `sendAttemptLoginNotification`: an urgent attempt-login notification to the primary device. */
  function AttemptLoginNotification(account: PushAccount, context: string): (r: Built<PushNotification>)
    ensures r.Built? <==> PrimaryDeviceId in account.devices && GetToken(account.devices[PrimaryDeviceId]).Some?
    ensures r.Built? ==>
      && r.notification.notificationType == AttemptLoginNotificationHighPriority && r.notification.data == Some(context)
      && r.notification.urgent
      && r.notification.destinationDevice == Some(account.devices[PrimaryDeviceId])
      && ThroughCurrentToken(r.notification)
  {
    ToDevice(account, PrimaryDeviceId, AttemptLoginNotificationHighPriority, Some(context), true)
  }

  // ------------------------------------------------------------------ routing

  /** What the manager does with a notification, each aimed at the notification's destination and device. */
  datatype Action =
    | SendWithFcm
    | SendWithApns
    | ScheduleBackgroundNotification
    | ScheduleRecurringVoipNotification
    | CancelScheduledNotifications
    | MarkDeviceUninstalled

  predicate HasDestination(n: PushNotification) {
    n.destination.Some? && n.destinationDevice.Some?
  }

  /**
   * What follows a dead-token verdict for a known device: a device that still holds an
   * FCM id is stamped as uninstalled, unless it already carries a stamp; any other
   * device has its scheduled APNs notifications cancelled.
   */
  function UnregisteredFollowUp(d: Device): seq<Action> {
    if IsNotBlank(d.gcmId) then
      (if d.uninstalledFeedbackTimestamp == 0 then [MarkDeviceUninstalled] else [])
    else [CancelScheduledNotifications]
  }

  /**
   * The actions `sendNotification` takes, in order, given the verdict `result` the sender
   * would return. Every notification is either sent by exactly one sender or (non-urgent
   * APNs only) deferred to the scheduler, with `result` then playing no part; the device
   * is stamped only after a dead-token verdict for a device still holding an FCM id and
   * no stamp, and scheduled notifications are cancelled only after a dead-token verdict
   * for a device without one; no action repeats.
   */
  function Actions(n: PushNotification, result: SendPushNotificationResult): (acts: seq<Action>)
    ensures 1 <= |acts| <= 2
    ensures acts[0] in {SendWithFcm, SendWithApns} <==> !(n.tokenType == Apn && !n.urgent)
    ensures SendWithFcm in acts <==> n.tokenType == Fcm
    ensures SendWithApns in acts <==> n.tokenType != Fcm && !(n.tokenType == Apn && !n.urgent)
    ensures ScheduleBackgroundNotification in acts <==> n.tokenType == Apn && !n.urgent
    ensures ScheduleRecurringVoipNotification in acts <==> n.tokenType == ApnVoip && result.accepted && HasDestination(n)
    ensures MarkDeviceUninstalled in acts <==>
      && !(n.tokenType == Apn && !n.urgent) && !result.accepted && result.unregistered && HasDestination(n)
      && IsNotBlank(n.destinationDevice.value.gcmId) && n.destinationDevice.value.uninstalledFeedbackTimestamp == 0
    ensures CancelScheduledNotifications in acts <==>
      && !(n.tokenType == Apn && !n.urgent) && !result.accepted && result.unregistered && HasDestination(n)
      && !IsNotBlank(n.destinationDevice.value.gcmId)
    ensures forall i, j | 0 <= i < j < |acts| :: acts[i] != acts[j]
  {
    if n.tokenType == Apn && !n.urgent then
      [ScheduleBackgroundNotification]
    else
      var send := if n.tokenType == Fcm then SendWithFcm else SendWithApns;
      var followUp :=
        if result.accepted then
          (if n.tokenType == ApnVoip && HasDestination(n) then [ScheduleRecurringVoipNotification] else [])
        else if result.unregistered && HasDestination(n) then
          UnregisteredFollowUp(n.destinationDevice.value)
        else [];
      assert SendWithFcm !in followUp && SendWithApns !in followUp;
      [send] + followUp
  }

  /** The scheduler is an APNs facility. */
  predicate IsSchedulerAction(x: Action) {
    x == ScheduleBackgroundNotification || x == ScheduleRecurringVoipNotification || x == CancelScheduledNotifications
  }

  /**
   * For a notification sent through its device's current token (as every builder
   * produces), FCM tokens never reach the scheduler or the APNs sender, and APNs tokens
   * never reach FCM or the device update.
   */
  lemma CurrentTokenRouting(n: PushNotification, result: SendPushNotificationResult)
    requires ThroughCurrentToken(n)
    ensures var acts := Actions(n, result);
      && (n.tokenType == Fcm ==> forall x | x in acts :: !IsSchedulerAction(x) && x != SendWithApns)
      && (n.tokenType != Fcm ==> SendWithFcm !in acts && MarkDeviceUninstalled !in acts)
  {
    var acts := Actions(n, result);
    if HasDestination(n) {
      var d := n.destinationDevice.value;
      assert n.tokenType == Fcm <==> IsNotBlank(d.gcmId);
    }
  }

  /** An accepted FCM notification goes to the FCM sender and nowhere else. */
  lemma FcmAcceptedOnlySends(n: PushNotification, result: SendPushNotificationResult)
    requires n.tokenType == Fcm && result.accepted
    ensures Actions(n, result) == [SendWithFcm]
  {
  }

  /** An urgent APNs notification is sent and nothing is scheduled; a non-urgent one is only scheduled. */
  lemma ApnUrgencyDecides(n: PushNotification, result: SendPushNotificationResult)
    requires n.tokenType == Apn && result.accepted
    ensures Actions(n, result) == if n.urgent then [SendWithApns] else [ScheduleBackgroundNotification]
  {
  }

  /** An accepted VoIP notification is sent and a recurring VoIP notification scheduled, never a background one. */
  lemma VoipAcceptedSchedulesRecurring(n: PushNotification, result: SendPushNotificationResult)
    requires n.tokenType == ApnVoip && result.accepted && HasDestination(n)
    ensures Actions(n, result) == [SendWithApns, ScheduleRecurringVoipNotification]
  {
  }

  /**
   * A dead token reported for a known device, sent through its current token: for FCM
   * the device is marked uninstalled unless it already carries a stamp; for APNs its
   * scheduled notifications are cancelled instead.
   */
  lemma UnregisteredReaction(n: PushNotification, result: SendPushNotificationResult)
    requires !result.accepted && result.unregistered && HasDestination(n) && ThroughCurrentToken(n)
    requires !(n.tokenType == Apn && !n.urgent)
    ensures n.tokenType == Fcm ==>
      Actions(n, result) == if n.destinationDevice.value.uninstalledFeedbackTimestamp == 0
                            then [SendWithFcm, MarkDeviceUninstalled] else [SendWithFcm]
    ensures n.tokenType != Fcm ==> Actions(n, result) == [SendWithApns, CancelScheduledNotifications]
  {
    CurrentTokenRouting(n, result);
  }

  /**
   * The builders and the routing together: a new-message notification to a device that
   * has only an FCM token is an FCM notification to that token and is sent by FCM alone.
   */
  lemma NewMessageToFcmDevice(account: PushAccount, deviceId: nat, urgent: bool, token: string)
    requires deviceId in account.devices
    requires account.devices[deviceId].gcmId == Some(token) && IsNotBlank(Some(token))
    ensures var r := NewMessageNotification(account, deviceId, urgent);
      && r == Built(PushNotification(token, Fcm, Notification, None, Some(account), Some(account.devices[deviceId]), urgent))
      && Actions(r.notification, SendPushNotificationResult(true, None, false)) == [SendWithFcm]
  {
  }

  /**
   * The primary device's only token decides the channel: an APNs token yields an APNs
   * notification, an FCM token an FCM one, and no token at all refuses the notification.
   */
  lemma PrimaryDeviceChannel(account: PushAccount, context: string, challengeToken: string)
    requires PrimaryDeviceId in account.devices
    requires account.devices[PrimaryDeviceId].voipApnId.None?
    ensures var d := account.devices[PrimaryDeviceId];
      && (d.gcmId.None? && IsNotBlank(d.apnId) ==>
            && AttemptLoginNotification(account, context)
               == Built(PushNotification(d.apnId.value, Apn, AttemptLoginNotificationHighPriority,
                                         Some(context), Some(account), Some(d), true))
            && RateLimitChallengeNotification(account, challengeToken)
               == Built(PushNotification(d.apnId.value, Apn, RateLimitChallenge,
                                         Some(challengeToken), Some(account), Some(d), true)))
      && (d.apnId.None? && IsNotBlank(d.gcmId) ==>
            AttemptLoginNotification(account, context)
            == Built(PushNotification(d.gcmId.value, Fcm, AttemptLoginNotificationHighPriority,
                                      Some(context), Some(account), Some(d), true)))
      && (d.gcmId.None? && d.apnId.None? ==>
            AttemptLoginNotification(account, context) == Failed(NotPushRegistered))
  {
  }

  /** A whitespace-only or empty token is blank, so such a device is not push-registered. */
  lemma BlankTokensAreUnusable(d: Device)
    requires forall t: TokenType | TokenField(d, t).Some? ::
               forall i | 0 <= i < |TokenField(d, t).value| :: IsWhitespace(TokenField(d, t).value[i])
    ensures GetToken(d).None?
  {
    assert !IsNotBlank(TokenField(d, Fcm));
    assert !IsNotBlank(TokenField(d, ApnVoip));
    assert !IsNotBlank(TokenField(d, Apn));
  }

  // ------------------------------------------------------------------ state

  /** The account with device `deviceId` (when it has one) stamped as uninstalled on `day`. */
  function WithDeviceUninstalled(account: PushAccount, deviceId: nat, day: int): (r: PushAccount)
    ensures r.uuid == account.uuid && r.devices.Keys == account.devices.Keys
    ensures deviceId in r.devices ==> r.devices[deviceId] == account.devices[deviceId].(uninstalledFeedbackTimestamp := day)
    ensures forall id | id in r.devices && id != deviceId :: r.devices[id] == account.devices[id]
  {
    if deviceId in account.devices then
      account.(devices := account.devices[deviceId := account.devices[deviceId].(uninstalledFeedbackTimestamp := day)])
    else account
  }

  /** A read of a device's message queue, as the latency recorder sees it. */
  datatype QueueRead = QueueRead(accountUuid: Uuid, deviceId: nat, userAgent: string)

  /** One call the manager made: an action and the account and device it was aimed at. */
  datatype Call = Call(action: Action, accountUuid: Option<Uuid>, deviceId: Option<nat>)

  function Target(n: PushNotification, x: Action): Call {
    Call(x,
         if n.destination.Some? then Some(n.destination.value.uuid) else None,
         if n.destinationDevice.Some? then Some(n.destinationDevice.value.id) else None)
  }

  function Targets(n: PushNotification, acts: seq<Action>): (r: seq<Call>)
    ensures |r| == |acts|
    ensures forall i | 0 <= i < |acts| :: r[i] == Target(n, acts[i])
  {
    if acts == [] then [] else [Target(n, acts[0])] + Targets(n, acts[1..])
  }

  /**
   * The manager and the state it changes through its collaborators: the stored accounts
   * (through the accounts manager's device update), the calls made to the senders and
   * the scheduler, and the queue reads recorded by the latency recorder.
   */
  class PushNotificationManager {
    var accounts: map<Uuid, PushAccount>
    var calls: seq<Call>
    var queueReads: seq<QueueRead>
    /** The start of the current day, in milliseconds (`Util.todayInMillis()`). */
    const today: int

    constructor (accounts: map<Uuid, PushAccount>, today: int)
      ensures this.accounts == accounts && calls == [] && queueReads == [] && this.today == today
    {
      this.accounts := accounts;
      this.today := today;
      calls := [];
      queueReads := [];
    }

    /**
     * `sendNotification`, with `result` standing for the verdict the chosen sender returns.
     * The calls made are those of `Actions`; only a dead-token verdict for a device still
     * holding an FCM id and no stamp changes an account, whose device is stamped today.
     */
    method SendNotification(n: PushNotification, result: SendPushNotificationResult)
      modifies this`accounts, this`calls
      ensures calls == old(calls) + Targets(n, Actions(n, result))
      ensures accounts == if MarkDeviceUninstalled in Actions(n, result)
                          then old(accounts)[n.destination.value.uuid :=
                                 WithDeviceUninstalled(n.destination.value, n.destinationDevice.value.id, today)]
                          else old(accounts)
    {
      if n.tokenType == Apn && !n.urgent {
        calls := calls + [Target(n, ScheduleBackgroundNotification)];
        return;
      }
      var send := if n.tokenType == Fcm then SendWithFcm else SendWithApns;
      calls := calls + [Target(n, send)];
      if result.accepted {
        if n.tokenType == ApnVoip && n.destination.Some? && n.destinationDevice.Some? {
          calls := calls + [Target(n, ScheduleRecurringVoipNotification)];
        }
      } else if result.unregistered && n.destination.Some? && n.destinationDevice.Some? {
        var device := n.destinationDevice.value;
        if IsNotBlank(device.gcmId) {
          if device.uninstalledFeedbackTimestamp == 0 {
            var account := n.destination.value;
            accounts := accounts[account.uuid := WithDeviceUninstalled(account, device.id, today)];
            calls := calls + [Target(n, MarkDeviceUninstalled)];
          }
        } else {
          calls := calls + [Target(n, CancelScheduledNotifications)];
        }
      }
    }

    /** `handleMessagesRetrieved`: record the queue read, then cancel the device's scheduled notifications. */
    method HandleMessagesRetrieved(account: PushAccount, device: Device, userAgent: string)
      modifies this`calls, this`queueReads
      ensures queueReads == old(queueReads) + [QueueRead(account.uuid, device.id, userAgent)]
      ensures calls == old(calls) + [Call(CancelScheduledNotifications, Some(account.uuid), Some(device.id))]
    {
      queueReads := queueReads + [QueueRead(account.uuid, device.id, userAgent)];
      calls := calls + [Call(CancelScheduledNotifications, Some(account.uuid), Some(device.id))];
    }
  }

  /**
   * After an unregistered FCM verdict, the notified device of the destination account
   * carries today's date as its uninstalled-feedback timestamp, and nothing else about
   * that account or any other account changes.
   */
  lemma UninstalledStampIsLocal(accounts: map<Uuid, PushAccount>, n: PushNotification, today: int)
    requires HasDestination(n) && n.destinationDevice.value.id in n.destination.value.devices
    ensures var account := n.destination.value;
            var id := n.destinationDevice.value.id;
            var after := accounts[account.uuid := WithDeviceUninstalled(account, id, today)];
      && after[account.uuid].devices[id].uninstalledFeedbackTimestamp == today
      && after[account.uuid].devices[id] == account.devices[id].(uninstalledFeedbackTimestamp := today)
      && after[account.uuid].devices.Keys == account.devices.Keys
      && (forall other | other in account.devices && other != id :: after[account.uuid].devices[other] == account.devices[other])
      && (forall u | u in accounts && u != account.uuid :: after[u] == accounts[u])
  {
  }
}
