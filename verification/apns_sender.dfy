/**
 * The decisions the APNs sender makes for each notification: the request it hands to the
 * APNs client (topic, payload, push type, delivery priority, collapse id, expiration) and
 * how it turns the APNs response into a `SendPushNotificationResult`.
 */
module ApnsSender {
  import opened Common
  import opened PushNotifications

  /** The `apns-push-type` header. */
  datatype PushType = Alert | Background | Voip

  /** The `apns-priority` header: 10 (immediate) or 5 (conserve power). */
  datatype DeliveryPriority = Immediate | ConservePower

  /**
   * An APNs payload as the payload builder calls that produce it: sound, localized alert
   * key, the mutable-content and content-available flags, and at most one custom
   * property (a key and the notification's data, which may be null).
   */
  datatype Payload = Payload(
    sound: Option<string>,
    localizedAlertKey: Option<string>,
    mutableContent: bool,
    contentAvailable: bool,
    customProperty: Option<(string, Option<string>)>)

  const VoipNotificationPayload := Payload(Some("default"), Some("APN_Message"), false, false, None)
  const NseNotificationPayload := Payload(None, Some("APN_Message"), true, false, None)
  const BackgroundPayload := Payload(None, None, false, true, None)

  /** The fixed expiration of every request: `Integer.MAX_VALUE` seconds after the epoch, in milliseconds. */
  const MaxExpirationMillis: int := 0x7fff_ffff * 1000

  const CollapseIdIncomingMessage := "incoming-message"

  datatype ApnsRequest = ApnsRequest(
    deviceToken: string,
    topic: string,
    payload: Payload,
    expirationMillis: int,
    priority: DeliveryPriority,
    pushType: PushType,
    collapseId: Option<string>)

  /** An FCM token reaches the APNs sender: the sender refuses it (an IllegalArgumentException). */
  datatype SendError = UnsupportedTokenType(tokenType: TokenType)

  datatype Outcome<T> = Built(request: T) | Refused(error: SendError)

  /** The custom-property key under which each non-message notification carries its data. */
  function CustomPropertyKey(t: NotificationType): string {
    match t
    case Notification => ""
    case AttemptLoginNotificationHighPriority => "attemptLoginContext"
    case Challenge => "challenge"
    case RateLimitChallenge => "rateLimitChallenge"
  }

  /**
   * The payload: message notifications carry no custom property, every other type
   * carries its data under its own key; the mutable-content flag goes with an alert
   * that the notification service extension rewrites, the content-available flag with a
   * silent wake-up, and only a VoIP message notification plays a sound.
   */
  function SelectPayload(n: PushNotification, isVoip: bool): (p: Payload)
    ensures p.customProperty.Some? <==> n.notificationType != Notification
    ensures p.customProperty.Some? ==> p.customProperty.value == (CustomPropertyKey(n.notificationType), n.data)
    ensures p.mutableContent <==>
      n.notificationType == AttemptLoginNotificationHighPriority || (n.notificationType == Notification && !isVoip && n.urgent)
    ensures p.contentAvailable <==>
      n.notificationType in {Challenge, RateLimitChallenge} || (n.notificationType == Notification && !isVoip && !n.urgent)
    ensures p.sound.Some? <==> n.notificationType == Notification && isVoip
    ensures p.localizedAlertKey.Some? <==>
      n.notificationType == AttemptLoginNotificationHighPriority || (n.notificationType == Notification && (isVoip || n.urgent))
  {
    match n.notificationType
    case Notification =>
      if isVoip then VoipNotificationPayload
      else if n.urgent then NseNotificationPayload
      else BackgroundPayload
    case AttemptLoginNotificationHighPriority =>
      Payload(None, Some("APN_Message"), true, false, Some((CustomPropertyKey(n.notificationType), n.data)))
    case Challenge =>
      Payload(None, None, false, true, Some((CustomPropertyKey(n.notificationType), n.data)))
    case RateLimitChallenge =>
      Payload(None, None, false, true, Some((CustomPropertyKey(n.notificationType), n.data)))
  }

  /**
   * The request `sendNotification` hands to the APNs client for `n`, or the refusal of a
   * token type APNs does not serve.
   */
  function BuildRequest(bundleId: string, n: PushNotification): (r: Outcome<ApnsRequest>)
    ensures r.Refused? <==> n.tokenType == Fcm
    ensures r.Built? ==>
      && r.request.deviceToken == n.deviceToken
      && r.request.topic == (if n.tokenType == ApnVoip then bundleId + ".voip" else bundleId)
      && r.request.expirationMillis == MaxExpirationMillis
      && (r.request.pushType == Voip <==> n.tokenType == ApnVoip)
      && (r.request.pushType == Alert <==> n.tokenType == Apn && n.urgent)
      && (r.request.priority == Immediate <==> n.urgent || n.tokenType == ApnVoip)
      && (r.request.collapseId.Some? <==> n.notificationType == Notification && n.urgent && n.tokenType != ApnVoip)
      && (r.request.collapseId.Some? ==> r.request.collapseId.value == CollapseIdIncomingMessage)
  {
    match n.tokenType
    case Fcm => Refused(UnsupportedTokenType(n.tokenType))
    case _ =>
      var topic := if n.tokenType == Apn then bundleId else bundleId + ".voip";
      var isVoip := n.tokenType == ApnVoip;
      var pushType := if isVoip then Voip else if n.urgent then Alert else Background;
      var priority := if n.urgent || isVoip then Immediate else ConservePower;
      var collapseId :=
        if n.notificationType == Notification && n.urgent && !isVoip then Some(CollapseIdIncomingMessage) else None;
      Built(ApnsRequest(n.deviceToken, topic, SelectPayload(n, isVoip), MaxExpirationMillis, priority, pushType, collapseId))
  }

  // ------------------------------------------------------------------ response

  /** What the APNs client reports: accepted, or rejected with an optional reason. */
  datatype ApnsResponse = ApnsResponse(accepted: bool, rejectionReason: Option<string>)

  /** The rejection reasons that mean the token is dead. */
  predicate IsUnregisteredReason(reason: string) {
    reason == "Unregistered" || reason == "BadDeviceToken"
  }

  function ToSendResult(response: ApnsResponse): (r: SendPushNotificationResult)
    ensures r.accepted == response.accepted
    ensures r.accepted ==> r.errorCode.None? && !r.unregistered
    ensures !r.accepted ==> r.errorCode == Some(response.rejectionReason.GetOr("unknown"))
    ensures r.unregistered <==> !response.accepted && response.rejectionReason.Some?
                                && IsUnregisteredReason(response.rejectionReason.value)
  {
    if response.accepted then
      SendPushNotificationResult(true, None, false)
    else
      var reason := response.rejectionReason.GetOr("unknown");
      SendPushNotificationResult(false, Some(reason), IsUnregisteredReason(reason))
  }

  // ------------------------------------------------------------------ properties

  /** The payload carries exactly what the notification type and token call for. */
  lemma PayloadRules(bundleId: string, n: PushNotification)
    requires n.tokenType != Fcm
    ensures var p := BuildRequest(bundleId, n).request.payload;
      && (n.notificationType == Notification ==>
            p == (if n.tokenType == ApnVoip then VoipNotificationPayload
                  else if n.urgent then NseNotificationPayload
                  else BackgroundPayload))
      && (n.notificationType != Notification ==>
            p.customProperty == Some((CustomPropertyKey(n.notificationType), n.data)))
      && (n.notificationType == AttemptLoginNotificationHighPriority ==>
            p.mutableContent && p.localizedAlertKey == Some("APN_Message") && !p.contentAvailable)
      && (n.notificationType in {Challenge, RateLimitChallenge} ==>
            p.contentAvailable && p.localizedAlertKey.None? && !p.mutableContent)
  {
  }

  /**
   * The headers agree with each other: a background push is exactly a power-conserving one,
   * a collapsible push is an immediate alert with the notification-service payload, and a
   * background push of a message notification carries the content-available payload.
   */
  lemma HeadersCoherent(bundleId: string, n: PushNotification)
    requires n.tokenType != Fcm
    ensures var q := BuildRequest(bundleId, n).request;
      && (q.pushType == Background <==> q.priority == ConservePower)
      && (q.collapseId.Some? ==> q.pushType == Alert && q.priority == Immediate && q.payload == NseNotificationPayload)
      && (n.notificationType == Notification ==> (q.payload.contentAvailable <==> q.pushType == Background))
      && (q.pushType == Voip ==> q.collapseId.None? && q.priority == Immediate)
  {
  }

  /**
   * The VoIP topic is recognisable: provided the bundle id does not itself end in ".voip",
   * the topic ends in ".voip" exactly when the push type is VoIP.
   */
  lemma VoipTopicIffVoipPush(bundleId: string, n: PushNotification)
    requires n.tokenType != Fcm
    requires |bundleId| < 5 || bundleId[|bundleId| - 5..] != ".voip"
    ensures var q := BuildRequest(bundleId, n).request;
      (|q.topic| >= 5 && q.topic[|q.topic| - 5..] == ".voip") <==> q.pushType == Voip
  {
    var q := BuildRequest(bundleId, n).request;
    if n.tokenType == ApnVoip {
      assert q.topic[|q.topic| - 5..] == ".voip";
    }
  }

  /** A response without a rejection reason reports "unknown", which never marks the token dead. */
  lemma MissingReasonIsUnknown(response: ApnsResponse)
    requires !response.accepted && response.rejectionReason.None?
    ensures ToSendResult(response) == SendPushNotificationResult(false, Some("unknown"), false)
  {
  }
}
