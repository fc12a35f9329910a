/**
 * The values that travel between the push-notification manager and its senders: the
 * notification to deliver, the device it is addressed to, and the sender's verdict.
 */
module PushNotifications {
  import opened Common

  type Uuid = nat

  /** The delivery network a device token belongs to. */
  datatype TokenType = Fcm | Apn | ApnVoip

  datatype NotificationType =
    | Notification
    | AttemptLoginNotificationHighPriority
    | Challenge
    | RateLimitChallenge

  /** The identifier of an account's primary device. */
  const PrimaryDeviceId: nat := 1

  /** The push-relevant part of a device: its tokens (absent when unset) and uninstalled-feedback timestamp. */
  datatype Device = Device(
    id: nat,
    gcmId: Option<string>,
    apnId: Option<string>,
    voipApnId: Option<string>,
    uninstalledFeedbackTimestamp: int)

  /** The push-relevant part of an account: its identifier and its devices by id. */
  datatype PushAccount = PushAccount(uuid: Uuid, devices: map<nat, Device>)

  /**
   * A notification to deliver. `destination` and `destinationDevice` are absent for a
   * registration challenge, which goes to a bare token before any account exists.
   */
  datatype PushNotification = PushNotification(
    deviceToken: string,
    tokenType: TokenType,
    notificationType: NotificationType,
    data: Option<string>,
    destination: Option<PushAccount>,
    destinationDevice: Option<Device>,
    urgent: bool)

  /** A sender's verdict: delivered or not, the rejection reason, and whether the token is dead. */
  datatype SendPushNotificationResult = SendPushNotificationResult(
    accepted: bool,
    errorCode: Option<string>,
    unregistered: bool)
}
