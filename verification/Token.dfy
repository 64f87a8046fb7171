/** The action that executes, its stored form, and the capability that unlocks a provider call. */
module Token {
  import opened Text
  import opened Enums

  /** The scalar values a stored action holds. `JTime` stands for ISO text of an instant. */
  datatype Json = JStr(s: string) | JInt(n: int) | JNum(x: real) | JTime(t: int) | JNull

  /** The keys of a stored action, by name. */
  datatype Field =
    | FCaseId | FStrategy | FAmountPaise | FDiscountPct | FDiscountAmountPaise | FChargeAmountPaise
    | FLinkExpiryMinutes | FChannel | FMessageClass | FEscalationRung | FReferenceId | FAttemptNo | FSendAfter

  type Payload = map<Field, Json>

  datatype AppliedAction = AppliedAction(
    caseId: string,
    strategy: Strategy,
    amountPaise: int,
    discountPct: real,
    discountAmountPaise: int,
    chargeAmountPaise: int,
    linkExpiryMinutes: int,
    channel: Channel,
    messageClass: MessageClass,
    rung: Rung,
    reference: string,
    attemptNo: nat,
    sendAfter: Option<int>)

  function StrategyText(s: Strategy): string {
    match s
    case FreshLinkSameRail => "FRESH_LINK_SAME_RAIL"
    case FreshLinkAltRail => "FRESH_LINK_ALT_RAIL"
    case IncentivisedLink => "INCENTIVISED_LINK"
    case InvoiceReminder => "INVOICE_REMINDER"
    case MandateRetry => "MANDATE_RETRY"
    case MandateReauth => "MANDATE_REAUTH"
    case StaticUpiQr => "STATIC_UPI_QR"
    case NoAction => "NO_ACTION"
  }

  function StrategyOf(t: string): Option<Strategy> {
    if t == "FRESH_LINK_SAME_RAIL" then Some(FreshLinkSameRail)
    else if t == "FRESH_LINK_ALT_RAIL" then Some(FreshLinkAltRail)
    else if t == "INCENTIVISED_LINK" then Some(IncentivisedLink)
    else if t == "INVOICE_REMINDER" then Some(InvoiceReminder)
    else if t == "MANDATE_RETRY" then Some(MandateRetry)
    else if t == "MANDATE_REAUTH" then Some(MandateReauth)
    else if t == "STATIC_UPI_QR" then Some(StaticUpiQr)
    else if t == "NO_ACTION" then Some(NoAction)
    else None
  }

  function ChannelText(c: Channel): string {
    match c case WhatsApp => "WHATSAPP" case Sms => "SMS" case Email => "EMAIL" case NoChannel => "NONE"
  }

  function ChannelOf(t: string): Option<Channel> {
    if t == "WHATSAPP" then Some(WhatsApp)
    else if t == "SMS" then Some(Sms)
    else if t == "EMAIL" then Some(Email)
    else if t == "NONE" then Some(NoChannel)
    else None
  }

  function ClassText(m: MessageClass): string {
    match m case Transactional => "TRANSACTIONAL" case Marketing => "MARKETING"
  }

  function ClassOf(t: string): Option<MessageClass> {
    if t == "TRANSACTIONAL" then Some(Transactional) else if t == "MARKETING" then Some(Marketing) else None
  }

  function RungText(r: Rung): string {
    match r
    case A0Autonomous => "A0_AUTONOMOUS"
    case A1Flagged => "A1_FLAGGED"
    case A2Approval => "A2_APPROVAL"
    case A3ApprovalDual => "A3_APPROVAL_DUAL"
  }

  function RungOf(t: string): Option<Rung> {
    if t == "A0_AUTONOMOUS" then Some(A0Autonomous)
    else if t == "A1_FLAGGED" then Some(A1Flagged)
    else if t == "A2_APPROVAL" then Some(A2Approval)
    else if t == "A3_APPROVAL_DUAL" then Some(A3ApprovalDual)
    else None
  }

  function AsPayload(a: AppliedAction): Payload {
    map[
      FCaseId := JStr(a.caseId),
      FStrategy := JStr(StrategyText(a.strategy)),
      FAmountPaise := JInt(a.amountPaise),
      FDiscountPct := JNum(a.discountPct),
      FDiscountAmountPaise := JInt(a.discountAmountPaise),
      FChargeAmountPaise := JInt(a.chargeAmountPaise),
      FLinkExpiryMinutes := JInt(a.linkExpiryMinutes),
      FChannel := JStr(ChannelText(a.channel)),
      FMessageClass := JStr(ClassText(a.messageClass)),
      FEscalationRung := JStr(RungText(a.rung)),
      FReferenceId := JStr(a.reference),
      FAttemptNo := JInt(a.attemptNo),
      FSendAfter := match a.sendAfter case Some(t) => JTime(t) case None => JNull
    ]
  }

  predicate HasStr(p: Payload, k: Field) { k in p && p[k].JStr? }

  predicate HasInt(p: Payload, k: Field) { k in p && p[k].JInt? }

  /** Rebuilds the action; a missing key, an unknown enum text or a value of another shape fails. */
  function FromPayload(p: Payload): Option<AppliedAction> {
    if && HasStr(p, FCaseId) && HasStr(p, FStrategy) && StrategyOf(p[FStrategy].s).Some?
       && HasInt(p, FAmountPaise) && FDiscountPct in p && p[FDiscountPct].JNum?
       && HasInt(p, FDiscountAmountPaise) && HasInt(p, FChargeAmountPaise)
       && HasInt(p, FLinkExpiryMinutes)
       && HasStr(p, FChannel) && ChannelOf(p[FChannel].s).Some?
       && HasStr(p, FMessageClass) && ClassOf(p[FMessageClass].s).Some?
       && HasStr(p, FEscalationRung) && RungOf(p[FEscalationRung].s).Some?
       && HasStr(p, FReferenceId) && HasInt(p, FAttemptNo) && p[FAttemptNo].n >= 0
       && (FSendAfter in p ==> p[FSendAfter].JTime? || p[FSendAfter].JNull?)
    then
      Some(AppliedAction(
        p[FCaseId].s,
        StrategyOf(p[FStrategy].s).value,
        p[FAmountPaise].n,
        p[FDiscountPct].x,
        p[FDiscountAmountPaise].n,
        p[FChargeAmountPaise].n,
        p[FLinkExpiryMinutes].n,
        ChannelOf(p[FChannel].s).value,
        ClassOf(p[FMessageClass].s).value,
        RungOf(p[FEscalationRung].s).value,
        p[FReferenceId].s,
        p[FAttemptNo].n,
        if FSendAfter in p && p[FSendAfter].JTime? then Some(p[FSendAfter].t) else None))
    else None
  }

  lemma EnumTextsRoundTrip(s: Strategy, c: Channel, m: MessageClass, r: Rung)
    ensures StrategyOf(StrategyText(s)) == Some(s) && ChannelOf(ChannelText(c)) == Some(c)
    ensures ClassOf(ClassText(m)) == Some(m) && RungOf(RungText(r)) == Some(r)
  {
  }

  /** Storing an action and rebuilding it loses nothing. */
  lemma PayloadRoundTrip(a: AppliedAction)
    ensures FromPayload(AsPayload(a)) == Some(a)
  {
    EnumTextsRoundTrip(a.strategy, a.channel, a.messageClass, a.rung);
    hide StrategyOf, StrategyText, ChannelOf, ChannelText, ClassOf, ClassText, RungOf, RungText;
  }

  lemma EnumTextsAreTheOnlyOnes(t: string)
    ensures StrategyOf(t).Some? ==> StrategyText(StrategyOf(t).value) == t
    ensures ChannelOf(t).Some? ==> ChannelText(ChannelOf(t).value) == t
    ensures ClassOf(t).Some? ==> ClassText(ClassOf(t).value) == t
    ensures RungOf(t).Some? ==> RungText(RungOf(t).value) == t
  {
  }

  /** Nothing is made up either: an action comes only of a payload that stores it, key by key, a missing send time being none. */
  lemma RebuiltIsWhatIsStored(p: Payload, a: AppliedAction, k: Field)
    requires FromPayload(p) == Some(a)
    ensures k != FSendAfter ==> k in p && p[k] == AsPayload(a)[k]
    ensures k == FSendAfter ==> if k in p then p[k] == AsPayload(a)[k] else a.sendAfter.None?
  {
    hide StrategyOf, StrategyText, ChannelOf, ChannelText, ClassOf, ClassText, RungOf, RungText;
    if k.FStrategy? || k.FChannel? || k.FMessageClass? || k.FEscalationRung? {
      EnumTextsAreTheOnlyOnes(p[k].s);
    }
  }

  // --------------------------------------------------------------------------
  // Hashes and signatures are symbolic: equal exactly when key and material are.

  datatype ContentHash = ContentHash(material: Payload)

  datatype Signature = Hmac(key: string, material: Payload, mintedAt: int)

  datatype PolicyToken = PolicyToken(applied: AppliedAction, mintedAt: int, signature: Signature)

  function HashOf(a: AppliedAction): ContentHash {
    ContentHash(AsPayload(a))
  }

  function Sign(key: string, a: AppliedAction, mintedAt: int): Signature {
    Hmac(key, AsPayload(a), mintedAt)
  }

  function Mint(key: string, a: AppliedAction, now: int): PolicyToken {
    PolicyToken(a, now, Sign(key, a, now))
  }

  predicate Verifies(key: string, t: PolicyToken) {
    t.signature == Sign(key, t.applied, t.mintedAt)
  }

  function ReissueFromCommittedIntent(key: string, p: Payload, now: int): Option<(AppliedAction, PolicyToken)> {
    match FromPayload(p)
    case Some(a) => Some((a, PolicyToken(a, now, Sign(key, a, now))))
    case None => None
  }

  /** The approval hash and the signature each pin every field of the action. */
  lemma PinnedToOneAction(key: string, now: int, a: AppliedAction, b: AppliedAction)
    ensures HashOf(a) == HashOf(b) <==> a == b
    ensures Verifies(key, Mint(key, a, now).(applied := b)) <==> a == b
  {
    PayloadRoundTrip(a);
    PayloadRoundTrip(b);
  }

  /** From a row the firewall's action was committed to, the very same action comes back, authorised. */
  lemma ReissueRestoresTheCommittedAction(key: string, a: AppliedAction, now: int)
    ensures ReissueFromCommittedIntent(key, AsPayload(a), now) == Some((a, Mint(key, a, now)))
    ensures Verifies(key, Mint(key, a, now))
  {
    PayloadRoundTrip(a);
  }
}
