/**
 * The values the bounce pipeline passes around: the verdict, the messages a
 * mailbox hands out, and the normalised bounce record.
 */
module Reporting {
  import opened Wrappers

  /** BounceStatus: a classification, not a scale. */
  datatype BounceStatus = NotBounce | SoftBounce | HardBounce

  /**
   * The headers the core reads by name. Their string values are constants of
   * Sitecore.EDS.Core.Constants, which is not part of this model; only their
   * being distinct matters here.
   */
  datatype HeaderName = XSitecoreEnvironmentId | XBatchId | XSitecoreCampaign | XMessageId

  /** One entry of the mailbox listing: its POP3 unique id (UIDL) and its MIME text. */
  datatype Summary = Summary(uidl: string, mime: string)

  /**
   * A fully fetched message. `multipartReport` is what the engine's
   * IsMultipartReport says of it; `deliveryStatus` is what
   * GetDeliveryStatusInfo("Status") returns (None stands for null).
   */
  datatype Email = Email(
    uidl: string,
    mime: string,
    headers: map<HeaderName, string>,
    multipartReport: bool,
    deliveryStatus: Option<string>)
  {
    /** GetHeader: the header's value, or null when the message has no such header. */
    function GetHeader(name: HeaderName): (value: Option<string>)
    {
      if name in headers then Some(headers[name]) else None
    }
  }

  /** The bounce record handed to the caller's handler. */
  datatype Bounce = Bounce(
    id: string,
    messageId: Option<string>,
    campaignId: Option<string>,
    contactId: Option<string>,
    instanceId: Option<string>,
    bounceType: BounceStatus)
}
