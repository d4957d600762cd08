/** The rendering half of the packet handler: the response-code names, the
    per-type answer renderings, the response field and the output line. */
module Formatter {
  import opened Wrappers
  import opened Decimal
  import opened Text
  import opened Dns

  /** What the record-type switch throws, as a value: NotImplementedException
      for OPT, ANY and WKS, a plain Exception for any other type it does not list. */
  datatype FormatError =
    | UnsupportedRecordType(rtype: RecordType)
    | UnrecognizedRecordType(rtype: RecordType)

  // ---------------------------------------------------------------- response codes

  /** The response field of a message without answers. */
  function ResponseCodeName(rcode: nat): (s: string)
    ensures rcode <= 5 ==> ResponseCodeOf(s) == Some(rcode)
    ensures s == "RESERVED" <==> rcode > 5
  {
    match rcode
    case 0 => "NOERROR"
    case 1 => "FORMATERROR"
    case 2 => "SERVFAIL"
    case 3 => "NXDOMAIN"
    case 4 => "NOTIMPLEMENTED"
    case 5 => "REFUSED"
    case _ => "RESERVED"
  }

  /** Reads a response-code name back; RESERVED stands for many codes and is
      not read back. */
  function ResponseCodeOf(s: string): Option<nat> {
    if s == "NOERROR" then Some(0)
    else if s == "FORMATERROR" then Some(1)
    else if s == "SERVFAIL" then Some(2)
    else if s == "NXDOMAIN" then Some(3)
    else if s == "NOTIMPLEMENTED" then Some(4)
    else if s == "REFUSED" then Some(5)
    else None
  }

  /** The name for each code (section 4.1.1 of RFC 1035). NoError, FormatError,
      NotImplemented and Refused are the member names in upper case; ServerFailure
      and NameError print as the mnemonics SERVFAIL and NXDOMAIN. */
  lemma ResponseCodeNames(rcode: nat)
    ensures ResponseCodeName(0) == "NOERROR"
    ensures ResponseCodeName(1) == "FORMATERROR"
    ensures ResponseCodeName(2) == "SERVFAIL"
    ensures ResponseCodeName(3) == "NXDOMAIN"
    ensures ResponseCodeName(4) == "NOTIMPLEMENTED"
    ensures ResponseCodeName(5) == "REFUSED"
    ensures rcode > 5 ==> ResponseCodeName(rcode) == "RESERVED"
  {
  }

  // ---------------------------------------------------------------- MX, SRV, TXT

  /** FormatMx: the exchange name first, then the preference. */
  function FormatMx(preference: UShort, exchange: string): string {
    exchange + " " + NatToDecimal(preference)
  }

  function ParseMx(s: string): Option<(string, nat)> {
    match LastIndexOf(s, ' ')
    case None => None
    case Some(i) =>
      match ParseNat(s[i + 1..])
      case None => None
      case Some(n) => Some((s[..i], n))
  }

  /** Nothing of an MX value is lost: splitting at its last blank gives back
      the exchange name, blanks and all, and the preference. */
  lemma MxRoundTrip(preference: UShort, exchange: string)
    ensures ParseMx(FormatMx(preference, exchange)) == Some((exchange, preference as nat))
  {
    var d := NatToDecimal(preference);
    var s := exchange + " " + d;
    DecimalHasNo(preference, ' ');
    LastIndexAt(exchange, ' ', d);
    assert s[|exchange| + 1..] == d && s[..|exchange|] == exchange;
    ParseNatRoundTrip(preference);
  }

  /** FormatSrv: priority, weight, port and target, separated by blanks. */
  function FormatSrv(priority: UShort, weight: UShort, port: UShort, target: string): string {
    NatToDecimal(priority) + " " + (NatToDecimal(weight) + " " + (NatToDecimal(port) + " " + target))
  }

  /** Nothing of an SRV value is lost: its first three blank-separated fields
      read back as priority, weight and port, and the rest is the target. */
  lemma SrvRoundTrip(priority: UShort, weight: UShort, port: UShort, target: string)
    ensures ParseSrv(FormatSrv(priority, weight, port, target))
         == Some((priority as nat, weight as nat, port as nat, target))
  {
    var p, w, o := NatToDecimal(priority), NatToDecimal(weight), NatToDecimal(port);
    DecimalHasNo(priority, ' ');
    DecimalHasNo(weight, ' ');
    DecimalHasNo(port, ' ');
    ParseNatRoundTrip(priority);
    ParseNatRoundTrip(weight);
    ParseNatRoundTrip(port);
    SrvFieldsReadBack(p, w, o, target, priority, weight, port);
  }

  function ParseSrv(s: string): Option<(nat, nat, nat, string)> {
    match Cut(s, ' ')
    case None => None
    case Some((p, r1)) =>
      match Cut(r1, ' ')
      case None => None
      case Some((w, r2)) =>
        match Cut(r2, ' ')
        case None => None
        case Some((o, target)) =>
          match (ParseNat(p), ParseNat(w), ParseNat(o))
          case (Some(priority), Some(weight), Some(port)) => Some((priority, weight, port, target))
          case _ => None
  }

  /** Three blank-free fields that read as numbers, then a target, each
      field ended by one blank, read back field by field. */
  lemma SrvFieldsReadBack(p: string, w: string, o: string, target: string, priority: nat, weight: nat, port: nat)
    requires ' ' !in p && ' ' !in w && ' ' !in o
    requires ParseNat(p) == Some(priority) && ParseNat(w) == Some(weight) && ParseNat(o) == Some(port)
    ensures ParseSrv(p + " " + (w + " " + (o + " " + target))) == Some((priority, weight, port, target))
  {
    CutAt(p, ' ', w + " " + (o + " " + target));
    CutAt(w, ' ', o + " " + target);
    CutAt(o, ' ', target);
  }

  /** FormatTxt: the attribute key, a colon, and the value. */
  function FormatTxt(key: string, value: string): string {
    key + ":" + value
  }

  function ParseTxt(s: string): Option<(string, string)> {
    Cut(s, ':')
  }

  /** A TXT value holds one more character than key and value, the colon
      right after the key; it splits back at its first colon into key and
      value exactly when the key has no colon. */
  lemma TxtRoundTrip(key: string, value: string)
    ensures |FormatTxt(key, value)| == |key| + 1 + |value| && FormatTxt(key, value)[|key|] == ':'
    ensures ParseTxt(FormatTxt(key, value)) == Some((key, value)) <==> ':' !in key
  {
    var s := key + ":" + value;
    if ':' !in key {
      CutAt(key, ':', value);
    } else {
      // The first colon of s lies inside the key, so the cut ends before it.
      var j :| 0 <= j < |key| && key[j] == ':';
      assert s[j] == ':';
      IndexNotPast(s, ':', j);
    }
  }

  // ---------------------------------------------------------------- answer records

  /** The record-type switch: the value part of one answer. It succeeds for
      the nine types it lists; otherwise it names the record's type, as
      unsupported for OPT, ANY and WKS and as unrecognized for the rest. */
  function RenderValue(rr: ResourceRecord): (r: Result<string, FormatError>)
    ensures r.Success? <==> IsRendered(rr.Type())
    ensures r.Failure? ==> r.error.rtype == rr.Type()
    ensures r.Failure? ==> (r.error.UnsupportedRecordType? <==> rr.Type() in {OPT, ANY, WKS})
  {
    match rr
    case ARecord(address) => Success(address)
    case AaaaRecord(address) => Success(address)
    case CanonicalName(name) => Success(name)
    case Pointer(name) => Success(name)
    case MailExchange(preference, exchange) => Success(FormatMx(preference, exchange))
    case NameServer(name) => Success(name)
    case StartOfAuthority(master) => Success(master)
    case Service(priority, weight, port, target) => Success(FormatSrv(priority, weight, port, target))
    case Text(key, value) => Success(FormatTxt(key, value))
    case Generic(t) =>
      if t.OPT? || t.ANY? || t.WKS? then Failure(UnsupportedRecordType(t))
      else Failure(UnrecognizedRecordType(t))
  }

  /** The record types the switch renders. */
  predicate IsRendered(t: RecordType) {
    t.A? || t.AAAA? || t.CNAME? || t.PTR? || t.MX? || t.NS? || t.SOA? || t.SRV? || t.TXT?
  }

  /** One answer as "{Type}: {value}". */
  function RenderRecord(rr: ResourceRecord): (r: Result<string, FormatError>)
    ensures r.Success? <==> IsRendered(rr.Type())
    ensures r.Failure? ==> r.error.rtype == rr.Type()
    ensures r.Failure? ==> (r.error.UnsupportedRecordType? <==> rr.Type() in {OPT, ANY, WKS})
    ensures r.Success? ==> exists v :: r.value == TypeName(rr.Type()) + ": " + v
  {
    match RenderValue(rr)
    case Failure(e) => Failure(e)
    case Success(v) => Success(TypeName(rr.Type()) + ": " + v)
  }

  /** The rendering of each record that carries an address or a domain
      name: the type name, a colon, a blank, and that address or name. */
  lemma RecordRenderings(rr: ResourceRecord)
    ensures rr.ARecord? ==> RenderRecord(rr) == Success("A: " + rr.address)
    ensures rr.AaaaRecord? ==> RenderRecord(rr) == Success("AAAA: " + rr.address)
    ensures rr.CanonicalName? ==> RenderRecord(rr) == Success("CNAME: " + rr.canonicalDomainName)
    ensures rr.Pointer? ==> RenderRecord(rr) == Success("PTR: " + rr.pointerDomainName)
    ensures rr.NameServer? ==> RenderRecord(rr) == Success("NS: " + rr.nsDomainName)
    ensures rr.StartOfAuthority? ==> RenderRecord(rr) == Success("SOA: " + rr.masterDomainName)
  {
    match rr
    case ARecord(_) => RenderedWith(rr, "A: ");
    case AaaaRecord(_) => RenderedWith(rr, "AAAA: ");
    case CanonicalName(_) => RenderedWith(rr, "CNAME: ");
    case Pointer(_) => RenderedWith(rr, "PTR: ");
    case NameServer(_) => RenderedWith(rr, "NS: ");
    case StartOfAuthority(_) => RenderedWith(rr, "SOA: ");
    case _ =>
  }

  /** The rendering of MX, SRV and TXT records: the type name, a colon, a
      blank, and the record's layout. MX is the exchange, a blank and the
      preference; SRV is priority, weight, port and target separated by
      blanks; TXT is key, colon, value. Numbers are printed in decimal without
      leading zeros. */
  lemma LayoutRenderings(rr: ResourceRecord)
    ensures rr.MailExchange? ==>
      RenderRecord(rr) == Success("MX: " + FormatMx(rr.preference, rr.exchangeDomainName))
    ensures rr.Service? ==>
      RenderRecord(rr) == Success("SRV: " + FormatSrv(rr.priority, rr.weight, rr.port, rr.target))
    ensures rr.Text? ==> RenderRecord(rr) == Success("TXT: " + FormatTxt(rr.key, rr.value))
    ensures rr.MailExchange? ==>
      RenderRecord(rr) == Success("MX: " + (rr.exchangeDomainName + " " + NatToDecimal(rr.preference)))
    ensures rr.Service? ==>
      RenderRecord(rr) == Success("SRV: " + (NatToDecimal(rr.priority) + " " + (NatToDecimal(rr.weight) + " "
                                           + (NatToDecimal(rr.port) + " " + rr.target))))
    ensures rr.Text? ==> RenderRecord(rr) == Success("TXT: " + (rr.key + ":" + rr.value))
  {
    match rr
    case MailExchange(preference, exchange) => MxRendering(preference, exchange);
    case Service(priority, weight, port, target) => SrvRendering(priority, weight, port, target);
    case Text(key, value) => TxtRendering(key, value);
    case _ =>
  }

  lemma MxRendering(preference: UShort, exchange: string)
    ensures RenderRecord(MailExchange(preference, exchange))
         == Success("MX: " + (exchange + " " + NatToDecimal(preference)))
  {
    RenderedWith(MailExchange(preference, exchange), "MX: ");
  }

  lemma SrvRendering(priority: UShort, weight: UShort, port: UShort, target: string)
    ensures RenderRecord(Service(priority, weight, port, target))
         == Success("SRV: " + (NatToDecimal(priority) + " " + (NatToDecimal(weight) + " "
                              + (NatToDecimal(port) + " " + target))))
  {
    RenderedWith(Service(priority, weight, port, target), "SRV: ");
  }

  lemma TxtRendering(key: string, value: string)
    ensures RenderRecord(Text(key, value)) == Success("TXT: " + (key + ":" + value))
  {
    RenderedWith(Text(key, value), "TXT: ");
  }

  lemma RenderedWith(rr: ResourceRecord, prefix: string)
    requires RenderValue(rr).Success? && TypeName(rr.Type()) + ": " == prefix
    ensures RenderRecord(rr) == Success(prefix + RenderValue(rr).value)
  {
  }

  /** The answers' renderings in answer order, or the error of the first
      answer that fails: the Select is consumed in order by string.Join. */
  function RenderAll(answers: seq<ResourceRecord>): (r: Result<seq<string>, FormatError>)
    ensures r.Success? <==> forall i :: 0 <= i < |answers| ==> RenderRecord(answers[i]).Success?
    ensures r.Success? ==> |r.value| == |answers|
    ensures r.Success? ==> forall i :: 0 <= i < |answers| ==> r.value[i] == RenderRecord(answers[i]).value
    ensures r.Failure? ==> exists k :: 0 <= k < |answers| && RenderRecord(answers[k]) == Failure(r.error)
                                    && forall j :: 0 <= j < k ==> RenderRecord(answers[j]).Success?
  {
    if answers == [] then Success([])
    else
      match RenderRecord(answers[0])
      case Failure(e) => Failure(e)
      case Success(first) =>
        match RenderAll(answers[1..])
        case Failure(e) =>
          ghost var k :| 0 <= k < |answers[1..]| && RenderRecord(answers[1..][k]) == Failure(e)
                      && forall j :: 0 <= j < k ==> RenderRecord(answers[1..][j]).Success?;
          assert RenderRecord(answers[k + 1]) == Failure(e);
          Failure(e)
        case Success(rest) => Success([first] + rest)
  }

  // ---------------------------------------------------------------- response field

  predicate HasAnswers(m: DnsMessage) {
    m.answers.Some? && |m.answers.value| >= 1
  }

  /** The fourth field of every line printed for m: the response-code name
      when the answer list is null or empty; otherwise one rendering per
      answer, in answer order, joined by ", ", or the error of the first
      answer that fails to render. */
  function ResponseField(m: DnsMessage): (r: Result<string, FormatError>)
    ensures !HasAnswers(m) ==> r == Success(ResponseCodeName(m.responseCode))
    ensures HasAnswers(m) ==>
      (r.Success? <==> forall i :: 0 <= i < |m.answers.value| ==> RenderRecord(m.answers.value[i]).Success?)
    ensures HasAnswers(m) && r.Success? ==>
      r.value == Join(", ", seq(|m.answers.value|, i requires 0 <= i < |m.answers.value| =>
                                  RenderRecord(m.answers.value[i]).value))
    ensures HasAnswers(m) && r.Failure? ==>
      exists k :: 0 <= k < |m.answers.value| && RenderRecord(m.answers.value[k]) == Failure(r.error)
                  && forall j :: 0 <= j < k ==> RenderRecord(m.answers.value[j]).Success?
  {
    if !HasAnswers(m) then Success(ResponseCodeName(m.responseCode))
    else
      var answers := m.answers.value;
      match RenderAll(answers)
      case Failure(e) => Failure(e)
      case Success(parts) =>
        assert parts == seq(|m.answers.value|, i requires 0 <= i < |m.answers.value| =>
                              RenderRecord(m.answers.value[i]).value);
        Success(Join(", ", parts))
  }

  /** The response field reads only the response code and the answers, never
      the questions: every question of a message gets the same field. */
  lemma ResponseIgnoresQuestions(m: DnsMessage, n: DnsMessage)
    requires m.responseCode == n.responseCode && m.answers == n.answers
    ensures ResponseField(m) == ResponseField(n)
  {
  }

  /** A single answer is rendered with no separator. */
  lemma SingleAnswerHasNoSeparator(m: DnsMessage)
    requires m.answers.Some? && |m.answers.value| == 1
    ensures ResponseField(m) == RenderRecord(m.answers.value[0])
  {
  }

  /** One failing answer fails the whole field, with the first failing answer's error. */
  lemma FirstFailureWins(m: DnsMessage, k: nat)
    requires HasAnswers(m) && k < |m.answers.value| && RenderRecord(m.answers.value[k]).Failure?
    requires forall j :: 0 <= j < k ==> RenderRecord(m.answers.value[j]).Success?
    ensures ResponseField(m) == RenderRecord(m.answers.value[k])
  {
  }

  /** A reply without answers shows its response code: NXDOMAIN for a name
      error, FORMATERROR (not FMTERR) for a format error. */
  lemma ResponseCodeExamples()
    ensures ResponseField(DnsMessage(3, None, Some([]))) == Success("NXDOMAIN")
    ensures ResponseField(DnsMessage(1, None, None)) == Success("FORMATERROR")
  {
  }

  /** A single A answer: the type, a colon and the address, and no separator. */
  lemma AddressExample()
    ensures ResponseField(DnsMessage(0, None, Some([ARecord("93.184.216.34")])))
         == Success("A: 93.184.216.34")
  {
    assert "A" + ": " + "93.184.216.34" == "A: 93.184.216.34";
    assert RenderAll([ARecord("93.184.216.34")]).value == ["A: 93.184.216.34"];
  }

  lemma ExampleNumbers()
    ensures NatToDecimal(10) == "10" && NatToDecimal(20) == "20" && NatToDecimal(5060) == "5060"
  {
    assert NatToDecimal(506) == "506";
  }

  /** An MX answer shows the exchange before the preference. */
  lemma MailExchangeExample(exchange: string)
    ensures RenderRecord(MailExchange(10, exchange)) == Success("MX: " + exchange + " 10")
  {
    MxRendering(10, exchange);
    ExampleNumbers();
    assert exchange + " " + "10" == exchange + " 10";
    assert "MX: " + (exchange + " 10") == "MX: " + exchange + " 10";
  }

  /** An SRV value: priority, weight, port and target. */
  lemma ServiceValueExample(target: string)
    ensures FormatSrv(10, 20, 5060, target) == "10 20 5060 " + target
  {
    ExampleNumbers();
    assert "5060" + " " + target == "5060 " + target;
    assert "20" + " " + ("5060 " + target) == "20 5060 " + target;
    assert "10" + " " + ("20 5060 " + target) == "10 20 5060 " + target;
  }

  /** The same SRV answer as a rendered record. */
  lemma ServiceExample(target: string)
    ensures RenderRecord(Service(10, 20, 5060, target)) == Success("SRV: 10 20 5060 " + target)
  {
    SrvRendering(10, 20, 5060, target);
    ServiceValueExample(target);
    assert "SRV: " + ("10 20 5060 " + target) == "SRV: 10 20 5060 " + target;
  }

  /** Two answers are listed in answer order, separated by ", ". */
  lemma TwoAnswersExample(address: string, name: string)
    ensures ResponseField(DnsMessage(0, None, Some([ARecord(address), CanonicalName(name)])))
         == Success("A: " + address + ", CNAME: " + name)
  {
    var m := DnsMessage(0, None, Some([ARecord(address), CanonicalName(name)]));
    RecordRenderings(m.answers.value[0]);
    RecordRenderings(m.answers.value[1]);
    var parts := seq(|m.answers.value|, i requires 0 <= i < |m.answers.value| => RenderRecord(m.answers.value[i]).value);
    assert parts == ["A: " + address, "CNAME: " + name];
    JoinTwo(", ", "A: " + address, "CNAME: " + name);
    assert ("A: " + address) + ", " + ("CNAME: " + name) == "A: " + address + ", CNAME: " + name;
  }

  lemma JoinTwo(sep: string, x: string, y: string)
    ensures Join(sep, [x, y]) == x + sep + y
  {
    JoinAppend(sep, [x], y);
    assert [x] + [y] == [x, y];
  }

  // ---------------------------------------------------------------- output line

  /** One output line: query type, query name, server address, response, tab
      separated. */
  function FormatLine(q: Question, server: string, response: string): string {
    TypeName(q.qtype) + "\t" + q.name + "\t" + server + "\t" + response
  }

  function ParseLine(s: string): Option<(string, string, string, string)> {
    match Cut(s, '\t')
    case None => None
    case Some((qtype, r1)) =>
      match Cut(r1, '\t')
      case None => None
      case Some((name, r2)) =>
        match Cut(r2, '\t')
        case None => None
        case Some((server, response)) => Some((qtype, name, server, response))
  }

  /** The four fields of a line read back by splitting at its first three
      tabs, provided the name and the address hold no tab. */
  lemma LineRoundTrip(q: Question, server: string, response: string)
    ensures '\t' !in q.name && '\t' !in server ==>
              ParseLine(FormatLine(q, server, response)) == Some((TypeName(q.qtype), q.name, server, response))
  {
    if '\t' !in q.name && '\t' !in server {
      var t := TypeName(q.qtype);
      assert '\t' !in t;
      var r2 := server + "\t" + response;
      var r1 := q.name + "\t" + r2;
      assert t + "\t" + q.name + "\t" + server + "\t" + response == t + "\t" + r1;
      CutAt(t, '\t', r1);
      CutAt(q.name, '\t', r2);
      CutAt(server, '\t', response);
    }
  }
}
