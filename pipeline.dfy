/** The per-frame pipeline: the filter over the decoded layers, then the
    packet handler, which prints one line per question of the first DNS layer. */
module Pipeline {
  import opened Wrappers
  import opened Text
  import opened Dns
  import opened Formatter

  // ---------------------------------------------------------------- layer queries

  /** layers.OfType<UDP>().Any() */
  function ContainsUdp(layers: seq<Layer>): (b: bool)
    ensures b <==> exists i :: 0 <= i < |layers| && layers[i].Udp?
  {
    if layers == [] then false
    else if layers[0].Udp? then true
    else
      var b := ContainsUdp(layers[1..]);
      assert forall i :: 1 <= i < |layers| ==> layers[i] == layers[1..][i - 1];
      b
  }

  /** layers.OfType<IPv4>().FirstOrDefault(), as the source address it exposes. */
  function FirstIPv4(layers: seq<Layer>): (r: Option<string>)
    ensures r.Some? <==> exists i :: 0 <= i < |layers| && layers[i].IPv4?
    ensures r.Some? ==> exists i :: 0 <= i < |layers| && layers[i] == IPv4(r.value)
                                    && forall j :: 0 <= j < i ==> !layers[j].IPv4?
  {
    if layers == [] then None
    else if layers[0].IPv4? then Some(layers[0].sourceAddress)
    else
      var r := FirstIPv4(layers[1..]);
      assert forall i :: 1 <= i < |layers| ==> layers[i] == layers[1..][i - 1];
      r
  }

  /** layers.OfType<DNSReply>().FirstOrDefault(), as the message it carries. */
  function FirstDns(layers: seq<Layer>): (r: Option<DnsMessage>)
    ensures r.Some? <==> exists i :: 0 <= i < |layers| && layers[i].DnsReply?
    ensures r.Some? ==> exists i :: 0 <= i < |layers| && layers[i] == DnsReply(r.value)
                                    && forall j :: 0 <= j < i ==> !layers[j].DnsReply?
  {
    if layers == [] then None
    else if layers[0].DnsReply? then Some(layers[0].message)
    else
      var r := FirstDns(layers[1..]);
      assert forall i :: 1 <= i < |layers| ==> layers[i] == layers[1..][i - 1];
      r
  }

  // ---------------------------------------------------------------- the filter

  /** The where clause of the capture query: a UDP layer and an IPv4 layer,
      anywhere in the frame. The port is left to the capture filter. */
  predicate IsOfInterest(layers: seq<Layer>)
    ensures IsOfInterest(layers) <==>
              (exists i :: 0 <= i < |layers| && layers[i].Udp?) && (exists j :: 0 <= j < |layers| && layers[j].IPv4?)
  {
    ContainsUdp(layers) && FirstIPv4(layers).Some?
  }

  /** Adding or removing a layer that is neither UDP nor IPv4 never changes
      the filter's decision. */
  lemma FilterIgnoresOtherLayers(front: seq<Layer>, l: Layer, back: seq<Layer>)
    requires !l.Udp? && !l.IPv4?
    ensures IsOfInterest(front + [l] + back) == IsOfInterest(front + back)
  {
    var with, without := front + [l] + back, front + back;
    if ContainsUdp(with) {
      var i :| 0 <= i < |with| && with[i].Udp?;
      assert without[if i < |front| then i else i - 1].Udp?;
    }
    if ContainsUdp(without) {
      var i :| 0 <= i < |without| && without[i].Udp?;
      assert with[if i < |front| then i else i + 1].Udp?;
    }
    if FirstIPv4(with).Some? {
      var i :| 0 <= i < |with| && with[i].IPv4?;
      assert without[if i < |front| then i else i - 1].IPv4?;
    }
    if FirstIPv4(without).Some? {
      var i :| 0 <= i < |without| && without[i].IPv4?;
      assert with[if i < |front| then i else i + 1].IPv4?;
    }
  }

  // ---------------------------------------------------------------- the packet handler

  /** What PrintPacket prints for one frame: nothing without a DNS layer, a
      question list and an IPv4 layer; otherwise one line per question, or
      the formatting error if the response field cannot be rendered. */
  function PacketLines(layers: seq<Layer>): Result<seq<string>, FormatError> {
    var dnsReply, ipv4 := FirstDns(layers), FirstIPv4(layers);
    if dnsReply.None? || dnsReply.value.questions.None? || ipv4.None? then Success([])
    else
      var questions := dnsReply.value.questions.value;
      if |questions| == 0 then Success([])
      else
        match ResponseField(dnsReply.value)
        case Failure(e) => Failure(e)
        case Success(response) =>
          Success(seq(|questions|, i requires 0 <= i < |questions| => FormatLine(questions[i], ipv4.value, response)))
  }

  /** PrintPacket: the lines written for one frame, in order, and the error
      that the record-type switch raised, if any. */
  method PrintPacket(layers: seq<Layer>) returns (lines: seq<string>, failure: Option<FormatError>)
    ensures failure.None? ==> PacketLines(layers) == Success(lines)
    ensures failure.Some? ==> lines == [] && PacketLines(layers) == Failure(failure.value)
  {
    lines, failure := [], None;
    var dnsReply := FirstDns(layers);
    var ipv4 := FirstIPv4(layers);
    if dnsReply.None? || dnsReply.value.questions.None? || ipv4.None? {
      return;
    }
    var reply := dnsReply.value;
    var questions := reply.questions.value;
    var i := 0;
    while i < |questions|
      invariant 0 <= i <= |questions|
      invariant |lines| == i
      invariant i > 0 ==> ResponseField(reply).Success?
      invariant forall k :: 0 <= k < i ==> lines[k] == FormatLine(questions[k], ipv4.value, ResponseField(reply).value)
    {
      var q := questions[i];
      var serverIp := ipv4.value;
      var response := ResponseField(reply);
      if response.Failure? {
        failure := Some(response.error);
        return;
      }
      lines := lines + [FormatLine(q, serverIp, response.value)];
      i := i + 1;
    }
    if i > 0 {
      assert lines == seq(|questions|, k requires 0 <= k < |questions| =>
                            FormatLine(questions[k], ipv4.value, ResponseField(reply).value));
    }
  }

  /** Nothing is printed for a frame without a DNS layer, with a null question
      list, or without an IPv4 layer. */
  lemma SilentWithoutDnsOrIPv4(layers: seq<Layer>)
    requires || (forall i :: 0 <= i < |layers| ==> !layers[i].DnsReply?)
             || (forall i :: 0 <= i < |layers| ==> !layers[i].IPv4?)
             || (FirstDns(layers).Some? && FirstDns(layers).value.questions.None?)
    ensures PacketLines(layers) == Success([])
  {
  }

  /** When the response field renders, a message with N questions gives exactly
      N lines, in question order; each carries its question's type and name,
      the source address of the first IPv4 layer and the one response field
      of the message. */
  lemma OneLinePerQuestion(layers: seq<Layer>, reply: DnsMessage, server: string)
    requires FirstDns(layers) == Some(reply) && reply.questions.Some?
    requires FirstIPv4(layers) == Some(server)
    requires ResponseField(reply).Success?
    ensures PacketLines(layers).Success?
    ensures |PacketLines(layers).value| == |reply.questions.value|
    ensures forall i :: 0 <= i < |reply.questions.value| ==>
              PacketLines(layers).value[i] == FormatLine(reply.questions.value[i], server, ResponseField(reply).value)
  {
  }

  /** The four fields of each printed line read back by splitting at its first
      three tabs, when the query name and the server address hold no tab:
      every line of a packet shows the same server and the same response. */
  lemma LinesReadBack(layers: seq<Layer>, reply: DnsMessage, server: string, i: nat)
    requires FirstDns(layers) == Some(reply) && reply.questions.Some? && i < |reply.questions.value|
    requires FirstIPv4(layers) == Some(server)
    requires ResponseField(reply).Success?
    requires '\t' !in server && '\t' !in reply.questions.value[i].name
    ensures PacketLines(layers).Success? && i < |PacketLines(layers).value|
    ensures ParseLine(PacketLines(layers).value[i])
         == Some((TypeName(reply.questions.value[i].qtype), reply.questions.value[i].name, server, ResponseField(reply).value))
  {
    OneLinePerQuestion(layers, reply, server);
    LineRoundTrip(reply.questions.value[i], server, ResponseField(reply).value);
  }

  /** The response field is computed before the first line is written: if it
      fails, a message with questions prints no line at all. A message without
      questions never computes it and prints nothing, without failing. */
  lemma FailureSilencesPacket(layers: seq<Layer>, reply: DnsMessage)
    requires FirstDns(layers) == Some(reply) && reply.questions.Some?
    requires FirstIPv4(layers).Some?
    ensures |reply.questions.value| == 0 ==> PacketLines(layers) == Success([])
    ensures |reply.questions.value| > 0 && ResponseField(reply).Failure? ==>
              PacketLines(layers) == Failure(ResponseField(reply).error)
  {
  }

  // ---------------------------------------------------------------- filter, then handler

  /** What one captured frame produces: the filter, then PrintPacket. */
  function FrameLines(layers: seq<Layer>): Result<seq<string>, FormatError> {
    if IsOfInterest(layers) then PacketLines(layers) else Success([])
  }

  /** A frame without both a UDP and an IPv4 layer produces no line. */
  lemma UninterestingFrameSilent(layers: seq<Layer>)
    requires || (forall i :: 0 <= i < |layers| ==> !layers[i].Udp?)
             || (forall i :: 0 <= i < |layers| ==> !layers[i].IPv4?)
    ensures FrameLines(layers) == Success([])
  {
  }

  /** The subscription: each frame that passes the filter goes to PrintPacket. */
  method OnPacketArrival(layers: seq<Layer>) returns (lines: seq<string>, failure: Option<FormatError>)
    ensures failure.None? ==> FrameLines(layers) == Success(lines)
    ensures failure.Some? ==> lines == [] && FrameLines(layers) == Failure(failure.value)
  {
    lines, failure := [], None;
    if IsOfInterest(layers) {
      lines, failure := PrintPacket(layers);
    }
  }
}
