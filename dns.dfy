/** The values the packet handler receives from the frame decoder: protocol
    layers, and the DNS message with its questions and answer records.
    Addresses and domain names are kept as the strings the DNS library's
    ToString gives for them. */
module Dns {
  import opened Wrappers
  import opened Decimal

  /** The numeric codes of the named RecordType members (section 3.2.2 of
      RFC 1035, section 3.2.3 of RFC 1035 for the query type ANY, RFC 3596
      for AAAA, RFC 2782 for SRV, section 6.1.1 of RFC 6891 for OPT). */
  const NAMED_CODES: set<nat> := {1, 2, 5, 6, 11, 12, 15, 16, 28, 33, 41, 255}

  /** A 16-bit type code that is none of the named members. */
  type UnlistedCode = n: nat | n < 0x1_0000 && n !in NAMED_CODES witness 0

  /** The RecordType enumeration: one constructor per named member, and
      Unlisted for a code the enumeration does not name. */
  datatype RecordType =
    | A | NS | CNAME | SOA | WKS | PTR | MX | TXT | AAAA | SRV | OPT | ANY
    | Unlisted(code: UnlistedCode)

  /** The types whose records the decoder produces without a typed payload. */
  predicate IsUntyped(t: RecordType) {
    t.WKS? || t.OPT? || t.ANY? || t.Unlisted?
  }

  type UntypedRecordType = t: RecordType | IsUntyped(t) witness OPT

  type UShort = n: nat | n < 0x1_0000

  /** An answer record. Its constructor is its type tag, and it carries the
      payload the library decodes for that type; the record types the handler
      does not render carry no payload. */
  datatype ResourceRecord =
    | ARecord(address: string)
    | AaaaRecord(address: string)
    | CanonicalName(canonicalDomainName: string)
    | Pointer(pointerDomainName: string)
    | MailExchange(preference: UShort, exchangeDomainName: string)
    | NameServer(nsDomainName: string)
    | StartOfAuthority(masterDomainName: string)
    | Service(priority: UShort, weight: UShort, port: UShort, target: string)
    | Text(key: string, value: string)
    | Generic(rtype: UntypedRecordType)
  {
    function Type(): (t: RecordType)
      ensures IsUntyped(t) <==> Generic?
    {
      match this
      case ARecord(_) => A
      case AaaaRecord(_) => AAAA
      case CanonicalName(_) => CNAME
      case Pointer(_) => PTR
      case MailExchange(_, _) => MX
      case NameServer(_) => NS
      case StartOfAuthority(_) => SOA
      case Service(_, _, _, _) => SRV
      case Text(_, _) => TXT
      case Generic(t) => t
    }
  }

  datatype Question = Question(qtype: RecordType, name: string)

  /** A DNS message as the decoder exposes it; a section the decoder left
      null is None. */
  datatype DnsMessage = DnsMessage(
    responseCode: nat,
    questions: Option<seq<Question>>,
    answers: Option<seq<ResourceRecord>>)

  /** One decoded protocol layer of a frame, outermost first. */
  datatype Layer =
    | Ethernet
    | IPv4(sourceAddress: string)
    | IPv6
    | Udp
    | Tcp
    | DnsReply(message: DnsMessage)

  predicate IsLetterOrDigit(c: char) {
    IsDigit(c) || 'A' <= c <= 'Z'
  }

  /** The enumeration's ToString: the member name, or the decimal code for
      an undefined value. */
  function TypeName(t: RecordType): (s: string)
    ensures |s| > 0 && forall i :: 0 <= i < |s| ==> IsLetterOrDigit(s[i])
    ensures t.Unlisted? <==> IsDigit(s[0])
  {
    match t
    case A => "A"
    case NS => "NS"
    case CNAME => "CNAME"
    case SOA => "SOA"
    case WKS => "WKS"
    case PTR => "PTR"
    case MX => "MX"
    case TXT => "TXT"
    case AAAA => "AAAA"
    case SRV => "SRV"
    case OPT => "OPT"
    case ANY => "ANY"
    case Unlisted(code) => NatToDecimal(code)
  }

  /** Different types never print the same name, so the "Type:" prefix of a
      rendered answer identifies its record type. */
  lemma TypeNameInjective(s: RecordType, t: RecordType)
    requires TypeName(s) == TypeName(t)
    ensures s == t
  {
    if s.Unlisted? && t.Unlisted? {
      DecimalRoundTrip(s.code);
      DecimalRoundTrip(t.code);
    }
  }
}
