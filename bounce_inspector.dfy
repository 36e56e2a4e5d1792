/**
 * ChilkatBounceInspector: decides whether a mailbox message is a bounce and of
 * which kind. The Chilkat bounce engine it derives from is foreign; it is
 * represented by three oracles fixed at construction (what ExamineMime leaves in
 * BounceType for a MIME text, whether ExamineEmail recognises a full message and
 * what it then leaves in BounceType) and by the engine's BounceType property.
 */
module ChilkatBounceInspection {
  import opened Wrappers
  import opened DotNetText
  import opened Reporting
  import opened Mailbox

  /** The engine codes as InspectMime reads them (after a MIME-only examination). */
  function MimeTable(code: int): (r: BounceStatus)
    ensures r == HardBounce <==> code == 1 || code == 5 || code == 12
    ensures r == SoftBounce <==> code == 2 || code == 4 || code == 11
  {
    match code
    case 1 | 5 | 12 => HardBounce
    case 2 | 4 | 11 => SoftBounce
    case _ => NotBounce
  }

  /** The engine codes as MapChilkatBounceToBounce reads them (after a full-message examination). */
  function FullTable(code: int): (r: BounceStatus)
    ensures r == HardBounce <==> code == 1
    ensures r == SoftBounce <==> code in {2, 3, 4, 5, 7, 10, 11, 13}
  {
    match code
    case 1 => HardBounce
    case 2 | 3 | 4 | 5 | 7 | 10 | 11 | 13 => SoftBounce
    case 6 | 8 | 9 | 12 | 14 => NotBounce
    case _ => NotBounce
  }

  /** The two tables are not one table: they part on exactly six codes. */
  lemma TablesDiffer(code: int)
    ensures MimeTable(code) != FullTable(code) <==> code in {3, 5, 7, 10, 12, 13}
    ensures code == 12 ==> MimeTable(code) == HardBounce && FullTable(code) == NotBounce
    ensures code == 5 ==> MimeTable(code) == HardBounce && FullTable(code) == SoftBounce
    ensures code in {3, 7, 10, 13} ==> MimeTable(code) == NotBounce && FullTable(code) == SoftBounce
  {
  }

  /** The range check on the parsed status number; None leaves the verdict as it was. */
  function StatusRange(n: int): (r: Option<BounceStatus>)
    ensures r == Some(NotBounce) <==> 200 <= n < 300
    ensures r == Some(SoftBounce) <==> 400 <= n < 500
    ensures r == Some(HardBounce) <==> 500 <= n < 600
  {
    if 200 <= n < 300 then Some(NotBounce)
    else if 400 <= n < 500 then Some(SoftBounce)
    else if 500 <= n < 600 then Some(HardBounce)
    else None
  }

  /**
   * The delivery-status fallback as the code does it: the Status field with its
   * dots deleted, parsed as an int, then range-checked. It does not split the
   * field into the class, subject and detail of an enhanced status code.
   */
  function DeliveryStatusVerdict(status: string): (r: Option<BounceStatus>)
    ensures var n := TryParseInt32(RemoveDots(status));
            && (r == Some(NotBounce) <==> n.Some? && 200 <= n.value < 300)
            && (r == Some(SoftBounce) <==> n.Some? && 400 <= n.value < 500)
            && (r == Some(HardBounce) <==> n.Some? && 500 <= n.value < 600)
  {
    match TryParseInt32(RemoveDots(status))
    case None => None
    case Some(n) => StatusRange(n)
  }

  /** The meaning section 3.1 of RFC 3463 gives to the class digit of an enhanced status code. */
  function ClassVerdict(c: char): (r: Option<BounceStatus>)
  {
    if c == '2' then Some(NotBounce)
    else if c == '4' then Some(SoftBounce)
    else if c == '5' then Some(HardBounce)
    else None
  }

  /** Deleting the dots of `c.s.d` leaves `csd`. */
  lemma DottedCodeDigits(c: char, s: char, d: char)
    requires c != '.' && s != '.' && d != '.'
    ensures RemoveDots([c, '.', s, '.', d]) == [c, s, d]
  {
    assert [c, '.', s, '.', d] == [c] + ['.', s, '.', d];
    RemoveDotsConcat([c], ['.', s, '.', d]);
    assert ['.', s, '.', d] == ['.'] + [s, '.', d];
    RemoveDotsConcat(['.'], [s, '.', d]);
    assert [s, '.', d] == [s] + ['.', d];
    RemoveDotsConcat([s], ['.', d]);
    assert ['.', d] == ['.'] + [d];
    RemoveDotsConcat(['.'], [d]);
  }

  /** A number of three digits falls in the range its first digit names. */
  lemma ThreeDigitRange(c: char, s: char, d: char)
    requires IsDigit(c) && IsDigit(s) && IsDigit(d)
    ensures StatusRange(DigitsValue([c, s, d])) == ClassVerdict(c)
  {
    ThreeDigitsValue(c, s, d);
    var n := DigitsValue([c, s, d]);
    assert 100 * DigitValue(c) <= n < 100 * DigitValue(c) + 100;
  }

  /** For a code whose three parts are single digits the fallback agrees with the class digit. */
  lemma SingleDigitStatus(c: char, s: char, d: char)
    requires IsDigit(c) && IsDigit(s) && IsDigit(d)
    ensures DeliveryStatusVerdict([c, '.', s, '.', d]) == ClassVerdict(c)
  {
    DottedCodeDigits(c, s, d);
    ThreeDigitsValue(c, s, d);
    TryParseDigits([c, s, d]);
    ThreeDigitRange(c, s, d);
  }

  lemma {:induction false} Pow10AtLeast1000(n: nat)
    requires n >= 3
    ensures Pow10(n) >= 1000
  {
    if n > 3 {
      Pow10AtLeast1000(n - 1);
    }
  }

  /**
   * Four or more digits with a non-zero lead never fall in a range: a detail of
   * two or three digits (as section 2 of RFC 3463 allows) leaves the verdict alone.
   */
  lemma LongStatusIgnored(status: string)
    requires |RemoveDots(status)| >= 4 && AllDigits(RemoveDots(status)) && RemoveDots(status)[0] != '0'
    ensures DeliveryStatusVerdict(status) == None
  {
    var digits := RemoveDots(status);
    TryParseDigits(digits);
    LeadingDigitBound(digits);
    Pow10AtLeast1000(|digits| - 1);
  }

  /** "5.1.1" (a permanent failure) is a hard bounce. */
  lemma HardStatusExample()
    ensures DeliveryStatusVerdict("5.1.1") == Some(HardBounce)
  {
    SingleDigitStatus('5', '1', '1');
  }

  /** "4.5.0" (a persistent transient failure) is a soft bounce. */
  lemma SoftStatusExample()
    ensures DeliveryStatusVerdict("4.5.0") == Some(SoftBounce)
  {
    SingleDigitStatus('4', '5', '0');
  }

  /** "2.0.0" (success) is no bounce. */
  lemma SuccessStatusExample()
    ensures DeliveryStatusVerdict("2.0.0") == Some(NotBounce)
  {
    SingleDigitStatus('2', '0', '0');
  }

  /** "7.0.0" falls in no range and leaves the verdict alone. */
  lemma OutOfRangeStatusExample()
    ensures DeliveryStatusVerdict("7.0.0") == None
  {
    SingleDigitStatus('7', '0', '0');
  }

  /**
   * A code `c.s.dd` with a two-digit detail and a non-zero class becomes a
   * four-digit number and is left as no bounce, whatever its class.
   */
  lemma TwoDigitDetailIgnored(c: char, s: char, d: char, e: char)
    requires IsDigit(c) && IsDigit(s) && IsDigit(d) && IsDigit(e) && c != '0'
    ensures DeliveryStatusVerdict([c, '.', s, '.', d, e]) == None
  {
    var code := [c, '.', s, '.', d, e];
    assert code == [c, '.', s, '.', d] + [e];
    RemoveDotsConcat([c, '.', s, '.', d], [e]);
    DottedCodeDigits(c, s, d);
    assert RemoveDots(code) == [c, s, d, e];
    LongStatusIgnored(code);
  }

  /** "4.7.12", a valid enhanced status code of class 4, becomes 4712 and is left as no bounce. */
  lemma TwoDigitDetailExample()
    ensures DeliveryStatusVerdict("4.7.12") == None
  {
    TwoDigitDetailIgnored('4', '7', '1', '2');
  }

  /** A field whose dot-free text opens with anything but white space, a sign or a digit is no number. */
  lemma NonNumericIgnored(status: string)
    requires RemoveDots(status) != []
    requires var c := RemoveDots(status)[0]; !IsWhite(c) && c != '+' && c != '-' && !IsDigit(c)
    ensures DeliveryStatusVerdict(status) == None
  {
    var t := RemoveDots(status);
    assert LeadingWhite(t) == 0;
    assert t[0..] == t;
    var k := TrailingWhite(t);
    TrailingWhiteSpan(t);
    assert k < |t|;
    var trimmed := Trimmed(t);
    assert trimmed == t[..|t| - k];
    assert trimmed != [] && trimmed[0] == t[0];
    assert !AllDigits(trimmed) by {
      assert !IsDigit(trimmed[0]);
    }
  }

  /** "garbage" leaves the verdict alone. */
  lemma GarbageExample()
    ensures DeliveryStatusVerdict("garbage") == None
  {
    RemoveDotsNoDots("garbage");
    NonNumericIgnored("garbage");
  }

  /** The fetches InspectEmail makes for a listed message, given the engine's MIME-only codes. */
  function InspectionEvents(mimeCode: string -> int, mail: Summary): (r: seq<Event>)
    ensures |r| <= 1
    ensures r == [] <==> MimeTable(mimeCode(mail.mime)) != NotBounce
    ensures r != [] ==> r[0] == Fetched(mail.uidl)
  {
    if MimeTable(mimeCode(mail.mime)) == NotBounce then [Fetched(mail.uidl)] else []
  }

  /** What InspectEmail comes to: a verdict, or the exception a null Status field raises. */
  datatype Inspection = Verdict(status: BounceStatus) | StatusUnavailable

  class ChilkatBounceInspector {
    /** ExamineMime oracle: the code left in BounceType for a MIME text. */
    const mimeCode: string -> int
    /** ExamineEmail oracle: whether the engine finds bounce evidence in a full message. */
    const recognizes: Email -> bool
    /** ExamineEmail oracle: the code it then leaves in BounceType. */
    const emailCode: Email -> int
    /** The engine's BounceType property: the code of the last examination. */
    var bounceType: int

    constructor (mimeCode: string -> int, recognizes: Email -> bool, emailCode: Email -> int)
      ensures this.mimeCode == mimeCode && this.recognizes == recognizes && this.emailCode == emailCode
    {
      this.mimeCode := mimeCode;
      this.recognizes := recognizes;
      this.emailCode := emailCode;
      bounceType := 0;
    }

    /** What InspectEmail returns for a listed message, given the mailbox contents. */
    function InspectionOf(store: map<string, Email>, mail: Summary): (r: Inspection)
    {
      var mimeVerdict := MimeTable(mimeCode(mail.mime));
      if mimeVerdict != NotBounce then Verdict(mimeVerdict)
      else if mail.uidl !in store then Verdict(NotBounce)
      else
        var email := store[mail.uidl];
        if recognizes(email) then Verdict(FullTable(emailCode(email)))
        else if !email.multipartReport then Verdict(NotBounce)
        else match email.deliveryStatus
          case None => StatusUnavailable
          case Some(status) =>
            match DeliveryStatusVerdict(status)
            case Some(v) => Verdict(v)
            case None => Verdict(NotBounce)
    }

    /** `inspect` gives, for every message, the verdict InspectEmail returns over the mailbox contents `store`. */
    ghost predicate Decides(inspect: Summary -> Inspection, store: map<string, Email>)
    {
      forall mail {:trigger InspectionOf(store, mail)} :: inspect(mail) == InspectionOf(store, mail)
    }

    /** A conclusive MIME-only verdict is final and costs no fetch. */
    lemma ShortCircuit(store: map<string, Email>, mail: Summary)
      requires MimeTable(mimeCode(mail.mime)) != NotBounce
      ensures InspectionOf(store, mail) == Verdict(MimeTable(mimeCode(mail.mime)))
      ensures InspectionEvents(mimeCode, mail) == []
    {
    }

    /** A message that cannot be fetched after an inconclusive MIME check is no bounce. */
    lemma VanishedMessage(store: map<string, Email>, mail: Summary)
      requires MimeTable(mimeCode(mail.mime)) == NotBounce && mail.uidl !in store
      ensures InspectionOf(store, mail) == Verdict(NotBounce)
      ensures InspectionEvents(mimeCode, mail) == [Fetched(mail.uidl)]
    {
    }

    /** When the engine recognises the full message, the full-message table decides, whatever the Status field says. */
    lemma EngineWins(store: map<string, Email>, mail: Summary)
      requires MimeTable(mimeCode(mail.mime)) == NotBounce && mail.uidl in store
      requires recognizes(store[mail.uidl])
      ensures InspectionOf(store, mail) == Verdict(FullTable(emailCode(store[mail.uidl])))
    {
    }

    /** Neither recognised nor a multipart report: no bounce. */
    lemma NotAReport(store: map<string, Email>, mail: Summary)
      requires MimeTable(mimeCode(mail.mime)) == NotBounce && mail.uidl in store
      requires !recognizes(store[mail.uidl]) && !store[mail.uidl].multipartReport
      ensures InspectionOf(store, mail) == Verdict(NotBounce)
    {
    }

    /** The delivery-status fallback, reached only for an unrecognised multipart report. */
    lemma StatusFallback(store: map<string, Email>, mail: Summary, status: string)
      requires MimeTable(mimeCode(mail.mime)) == NotBounce && mail.uidl in store
      requires !recognizes(store[mail.uidl]) && store[mail.uidl].multipartReport
      requires store[mail.uidl].deliveryStatus == Some(status)
      ensures DeliveryStatusVerdict(status).Some? ==>
                InspectionOf(store, mail) == Verdict(DeliveryStatusVerdict(status).value)
      ensures DeliveryStatusVerdict(status).None? ==> InspectionOf(store, mail) == Verdict(NotBounce)
    {
    }

    /**
     * InspectEmail fails exactly on an unrecognised multipart report without a
     * Status field, after an inconclusive MIME check.
     */
    lemma NullStatusUnavailable(store: map<string, Email>, mail: Summary)
      ensures InspectionOf(store, mail).StatusUnavailable? <==>
                && MimeTable(mimeCode(mail.mime)) == NotBounce && mail.uidl in store
                && !recognizes(store[mail.uidl]) && store[mail.uidl].multipartReport
                && store[mail.uidl].deliveryStatus.None?
    {
    }

    /** ExamineMime: the engine examines a MIME text and sets BounceType. */
    method ExamineMime(mimeText: string)
      modifies this
      ensures bounceType == mimeCode(mimeText)
    {
      bounceType := mimeCode(mimeText);
    }

    /** ExamineEmail: the engine examines a full message, sets BounceType and says whether it found evidence. */
    method ExamineEmail(email: Email) returns (found: bool)
      modifies this
      ensures found == recognizes(email) && bounceType == emailCode(email)
    {
      bounceType := emailCode(email);
      found := recognizes(email);
    }

    method InitBounceType(mimeText: string) returns (code: int)
      modifies this
      ensures code == mimeCode(mimeText) && bounceType == code
    {
      ExamineMime(mimeText);
      code := bounceType;
    }

    method InspectMime(mimeText: string) returns (status: BounceStatus)
      modifies this
      ensures status == MimeTable(mimeCode(mimeText))
      ensures bounceType == mimeCode(mimeText)
    {
      var code := InitBounceType(mimeText);
      status := MimeTable(code);
    }

    /**
     * InspectEmail: the MIME-only check, and only when that is inconclusive a
     * fetch, the engine examination and the delivery-status fallback.
     */
    method InspectEmail(mail: Summary, mailMan: Pop3Client) returns (r: Inspection)
      modifies this, mailMan`events
      ensures r == InspectionOf(mailMan.store, mail)
      ensures mailMan.events == old(mailMan.events) + InspectionEvents(mimeCode, mail)
      ensures bounceType == if MimeTable(mimeCode(mail.mime)) == NotBounce && mail.uidl in mailMan.store
                            then emailCode(mailMan.store[mail.uidl]) else mimeCode(mail.mime)
    {
      var bounceStatus := InspectMime(mail.mime);
      if bounceStatus == NotBounce {
        var email := mailMan.FetchEmail(mail.uidl);
        if email.Some? {
          var examined := ExamineEmail(email.value);
          if examined {
            bounceStatus := FullTable(bounceType);
          } else if email.value.multipartReport {
            match email.value.deliveryStatus
            case None =>
              return StatusUnavailable;
            case Some(status) =>
              var verdict := DeliveryStatusVerdict(status);
              if verdict.Some? {
                bounceStatus := verdict.value;
              }
          }
        }
      }
      r := Verdict(bounceStatus);
    }
  }
}
