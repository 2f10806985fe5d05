/**
 * The Gemini response status codes (section 3.2 and Appendix 1 of the Gemini
 * protocol specification) as the server names them, with the reason string each
 * one is sent with when no other meta is given, and the name `Display` prints.
 */
module Status {
  import opened Bytes

  datatype Status =
    | Input
    | Success
    | SuccessEndOfSession
    | RedirectTemporary
    | RedirectPermanent
    | TemporaryFailure
    | ServerUnavailable
    | CGIError
    | ProxyError
    | SlowDown
    | PermanentFailure
    | NotFound
    | Gone
    | ProxyRequestRefused
    | BadRequest
    | ClientCertificateRequired
    | TransientCertificateRequested
    | AuthorisedCertificateRequired
    | CertificateNotAccepted
    | FutureCertificateRejected
    | ExpiredCertificateRejected

  /** The discriminant `stat as u8`: the two-digit code on the wire. */
  function Code(s: Status): (c: nat)
    ensures 10 <= c <= 65
  {
    match s
    case Input => 10
    case Success => 20
    case SuccessEndOfSession => 21
    case RedirectTemporary => 30
    case RedirectPermanent => 31
    case TemporaryFailure => 40
    case ServerUnavailable => 41
    case CGIError => 42
    case ProxyError => 43
    case SlowDown => 44
    case PermanentFailure => 50
    case NotFound => 51
    case Gone => 52
    case ProxyRequestRefused => 53
    case BadRequest => 59
    case ClientCertificateRequired => 60
    case TransientCertificateRequested => 61
    case AuthorisedCertificateRequired => 62
    case CertificateNotAccepted => 63
    case FutureCertificateRejected => 64
    case ExpiredCertificateRejected => 65
  }

  /** Distinct statuses have distinct codes, so a code identifies its status. */
  lemma CodeInjective(a: Status, b: Status)
    requires Code(a) == Code(b)
    ensures a == b
  {
  }

  /** The response categories of the protocol, one per leading digit. */
  datatype Category = InputExpected | Successful | Redirection | TemporaryFail | PermanentFail | CertificateCondition

  /** The category of each status, as the protocol specification lists them. */
  function CategoryOf(s: Status): Category {
    match s
    case Input => InputExpected
    case Success | SuccessEndOfSession => Successful
    case RedirectTemporary | RedirectPermanent => Redirection
    case TemporaryFailure | ServerUnavailable | CGIError | ProxyError | SlowDown => TemporaryFail
    case PermanentFailure | NotFound | Gone | ProxyRequestRefused | BadRequest => PermanentFail
    case _ => CertificateCondition
  }

  function LeadingDigit(c: Category): nat {
    match c
    case InputExpected => 1
    case Successful => 2
    case Redirection => 3
    case TemporaryFail => 4
    case PermanentFail => 5
    case CertificateCondition => 6
  }

  /** The leading digit of every code is the digit of its status's category. */
  lemma CodeCategory(s: Status)
    ensures Code(s) / 10 == LeadingDigit(CategoryOf(s))
  {
  }

  /** `Status::to_str`: the default reason sent as meta. */
  function Reason(s: Status): (r: Str)
    ensures |r| > 0
  {
    Ascii(ReasonText(s))
  }

  function ReasonText(s: Status): string {
      match s
      case Input => "Input"
      case Success => "Success"
      case SuccessEndOfSession => "Success End Of Session"
      case RedirectTemporary => "Redirect Temporary"
      case RedirectPermanent => "Redirect Permanent"
      case TemporaryFailure => "Temporary Failure"
      case ServerUnavailable => "Server Unavailable"
      case CGIError => "CGI Error!"
      case ProxyError => "Proxy Error!"
      case SlowDown => "Slow Down!"
      case PermanentFailure => "Permanent Failure"
      case NotFound => "Not Found!"
      case Gone => "Gone!"
      case ProxyRequestRefused => "Proxy Request Refused"
      case BadRequest => "Bad Request!"
      case ClientCertificateRequired => "Client Certificate Required"
      case TransientCertificateRequested => "Transient Certificate Requested"
      case AuthorisedCertificateRequired => "Authorised Certificate Required"
      case CertificateNotAccepted => "Certificate Not Accepted"
      case FutureCertificateRejected => "Future Certificate Rejected"
      case ExpiredCertificateRejected => "Expired Certificate Rejected"
  }

  /** Every reason is printable ASCII, with no CR or LF, so it fits on a header line. */
  lemma ReasonIsPrintable(s: Status)
    ensures forall i :: 0 <= i < |Reason(s)| ==> 32 <= Reason(s)[i] < 127
  {
    ReasonTextPrintable(s);
    AsciiOfPrintable(ReasonText(s));
  }

  lemma ReasonTextPrintable(s: Status)
    ensures Printable(ReasonText(s))
  {
    match CategoryOf(s)
    case InputExpected => InputExpectedPrintable(s);
    case Successful => SuccessfulPrintable(s);
    case Redirection => RedirectionPrintable(s);
    case TemporaryFail => TemporaryFailPrintable(s);
    case PermanentFail => PermanentFailPrintable(s);
    case CertificateCondition => CertificateConditionPrintable(s);
  }

  // The printable check, one category at a time to keep each proof small.

  lemma InputExpectedPrintable(s: Status)
    requires CategoryOf(s) == InputExpected
    ensures Printable(ReasonText(s))
  {
    assert Printable(ReasonText(Input));
  }

  lemma SuccessfulPrintable(s: Status)
    requires CategoryOf(s) == Successful
    ensures Printable(ReasonText(s))
  {
    match s
    case Success => assert Printable(ReasonText(Success));
    case SuccessEndOfSession => assert Printable(ReasonText(SuccessEndOfSession));
  }

  lemma RedirectionPrintable(s: Status)
    requires CategoryOf(s) == Redirection
    ensures Printable(ReasonText(s))
  {
    match s
    case RedirectTemporary => assert Printable(ReasonText(RedirectTemporary));
    case RedirectPermanent => assert Printable(ReasonText(RedirectPermanent));
  }

  lemma TemporaryFailPrintable(s: Status)
    requires CategoryOf(s) == TemporaryFail
    ensures Printable(ReasonText(s))
  {
    match s
    case TemporaryFailure => assert Printable(ReasonText(TemporaryFailure));
    case ServerUnavailable => assert Printable(ReasonText(ServerUnavailable));
    case CGIError => assert Printable(ReasonText(CGIError));
    case ProxyError => assert Printable(ReasonText(ProxyError));
    case SlowDown => assert Printable(ReasonText(SlowDown));
  }

  lemma PermanentFailPrintable(s: Status)
    requires CategoryOf(s) == PermanentFail
    ensures Printable(ReasonText(s))
  {
    match s
    case PermanentFailure => assert Printable(ReasonText(PermanentFailure));
    case NotFound => assert Printable(ReasonText(NotFound));
    case Gone => assert Printable(ReasonText(Gone));
    case ProxyRequestRefused => assert Printable(ReasonText(ProxyRequestRefused));
    case BadRequest => assert Printable(ReasonText(BadRequest));
  }

  lemma CertificateConditionPrintable(s: Status)
    requires CategoryOf(s) == CertificateCondition
    ensures Printable(ReasonText(s))
  {
    match s
    case ClientCertificateRequired => CertificateRequestPrintable(s);
    case TransientCertificateRequested => CertificateRequestPrintable(s);
    case AuthorisedCertificateRequired => CertificateRequestPrintable(s);
    case CertificateNotAccepted => CertificateRejectionPrintable(s);
    case FutureCertificateRejected => CertificateRejectionPrintable(s);
    case ExpiredCertificateRejected => CertificateRejectionPrintable(s);
  }

  lemma CertificateRequestPrintable(s: Status)
    requires s == ClientCertificateRequired || s == TransientCertificateRequested || s == AuthorisedCertificateRequired
    ensures Printable(ReasonText(s))
  {
    match s
    case ClientCertificateRequired => assert Printable(ReasonText(ClientCertificateRequired));
    case TransientCertificateRequested => assert Printable(ReasonText(TransientCertificateRequested));
    case AuthorisedCertificateRequired => assert Printable(ReasonText(AuthorisedCertificateRequired));
  }

  lemma CertificateRejectionPrintable(s: Status)
    requires s == CertificateNotAccepted || s == FutureCertificateRejected || s == ExpiredCertificateRejected
    ensures Printable(ReasonText(s))
  {
    match s
    case CertificateNotAccepted => assert Printable(ReasonText(CertificateNotAccepted));
    case FutureCertificateRejected => assert Printable(ReasonText(FutureCertificateRejected));
    case ExpiredCertificateRejected => assert Printable(ReasonText(ExpiredCertificateRejected));
  }

  /** `Display` (the derived `Debug`): the variant's own identifier. */
  function Name(s: Status): (r: Str)
    ensures |r| > 0 && !IsDigit(r[0])
  {
    Ascii(NameText(s))
  }

  /** The identifier of the variant, which starts with a capital letter. */
  function NameText(s: Status): (t: string)
    ensures |t| > 0 && 'A' <= t[0] <= 'Z'
  {
      match s
      case Input => "Input"
      case Success => "Success"
      case SuccessEndOfSession => "SuccessEndOfSession"
      case RedirectTemporary => "RedirectTemporary"
      case RedirectPermanent => "RedirectPermanent"
      case TemporaryFailure => "TemporaryFailure"
      case ServerUnavailable => "ServerUnavailable"
      case CGIError => "CGIError"
      case ProxyError => "ProxyError"
      case SlowDown => "SlowDown"
      case PermanentFailure => "PermanentFailure"
      case NotFound => "NotFound"
      case Gone => "Gone"
      case ProxyRequestRefused => "ProxyRequestRefused"
      case BadRequest => "BadRequest"
      case ClientCertificateRequired => "ClientCertificateRequired"
      case TransientCertificateRequested => "TransientCertificateRequested"
      case AuthorisedCertificateRequired => "AuthorisedCertificateRequired"
      case CertificateNotAccepted => "CertificateNotAccepted"
      case FutureCertificateRejected => "FutureCertificateRejected"
      case ExpiredCertificateRejected => "ExpiredCertificateRejected"
  }

  /** The displayed name is the identifier, not the number: it differs from the rendered code. */
  lemma NameIsNotCode(s: Status)
    ensures Name(s) != Decimal(Code(s))
  {
    assert !IsDigit(Name(s)[0]);
  }

  /** The displayed name differs from the reason exactly for the multi-word and exclaimed reasons. */
  lemma NameVersusReason(s: Status)
    ensures Name(s) == Reason(s) <==> s in {Input, Success}
  {
    if s == Input || s == Success {
      assert NameText(s) == ReasonText(s);
    } else {
      NameLengthDiffers(s);
      assert |Name(s)| != |Reason(s)|;
    }
  }

  lemma NameLengthDiffers(s: Status)
    requires s != Input && s != Success
    ensures |NameText(s)| != |ReasonText(s)|
  {
  }
}
