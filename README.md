# dnsnoop packet pipeline in Dafny

dnsnoop watches DNS traffic on a network interface. It prints one
tab-separated line per question of every DNS message it sees:
`query type`, `query name`, `server IP`, `response`.

This project models the per-frame part of the program:

- the filter on the decoded layers (a UDP layer and an IPv4 layer);
- the packet handler `PrintPacket`, which takes the first DNS layer and the
  first IPv4 layer and writes one line per question;
- the response field. With no answers, it is the response-code mnemonic. With
  answers, it is a `", "`-joined list of `"Type: value"`, one per answer record.
- the MX, SRV and TXT value layouts.

Files:

- `wrappers.dfy`: the Option and Result values. They replace the source's
  nulls and exceptions.
- `decimal.dfy`: decimal spelling of unsigned numbers, and its inverse.
- `text.dfy`: `string.Join`, and the searches the parsers use.
- `dns.dfy`: the decoded values. These are the layers, the DNS message, its
  questions and answer records, and the `RecordType` enumeration with its
  printed names.
- `formatter.dfy`: the response-code switch, the record-type switch,
  `FormatMx`/`FormatSrv`/`FormatTxt`, the response field and the output line.
  Each layout has a parser beside it, and a round-trip lemma stated on the
  layout function proves that the parser inverts it (for TXT, exactly when
  the key has no colon).
- `pipeline.dfy`: the filter, the layer lookups, the specification
  `PacketLines`, and `PrintPacket` itself. `PrintPacket` is a method whose
  loop over the questions appends to a sequence of lines.

How the model represents the source:

- The decoded frame is a `seq<Layer>`, outermost layer first. A frame the
  decoder cannot parse is the empty sequence. That is what
  `parsed?.Layers() ?? Enumerable.Empty` gives.
- A section of the DNS message that the decoder leaves `null` is `None`.
- Addresses and domain names are the strings their `ToString` produces.
- `RecordType` has one constructor per named member of the enumeration: A,
  NS, CNAME, SOA, WKS, PTR, MX, TXT, AAAA, SRV, OPT and ANY. Any other 16-bit
  code is `Unlisted`. `TypeName` prints a member's name, or the decimal code
  for an undefined value, as .NET's enum `ToString` does.
- An answer record's constructor is its type tag. Only A, AAAA, CNAME, PTR,
  MX, NS, SOA, SRV and TXT records carry a payload. The decoder builds
  records of the other types without one (`Generic`). Because of this, a
  payload that does not match its type, which would make the source's casts
  fail, cannot be represented.
- The two exceptions the record-type switch throws become
  `Failure(UnsupportedRecordType(t))` and `Failure(UnrecognizedRecordType(t))`.
  `NotImplementedException` is thrown for OPT, ANY and WKS, and a plain
  `Exception` for every other type not listed.
- The source computes the response inside the question loop, before it writes
  the line. A failure is therefore raised on the first question, and nothing
  is written for that packet. A message with no questions never computes the
  response, so it prints nothing and does not fail. `PrintPacket` keeps this
  order.

Two consequences of the code that the model keeps:

- One answer of an unsupported or unrecognized type suppresses every line of
  its packet. No per-record fallback is rendered.
- The handler does not check the query/response flag. Any DNS layer is
  reported, with the source address of the first IPv4 layer.

## Model

| member | source | states |
|---|---|---|
| `Pipeline.ContainsUdp` | dnsnoop/Program.cs:60 | true exactly when some layer of the frame is UDP |
| `Pipeline.FirstIPv4` | dnsnoop/Program.cs:83 | a result exactly when some layer is IPv4; the result is the source address of the first IPv4 layer, and no IPv4 layer comes before it |
| `Pipeline.FirstDns` | dnsnoop/Program.cs:82 | a result exactly when some layer is a DNS message; the result is the first one, and no DNS layer comes before it |
| `Pipeline.IsOfInterest` | dnsnoop/Program.cs:56-62 | a frame passes the filter if and only if it holds at least one UDP layer and at least one IPv4 layer; no port is checked |
| `Pipeline.FilterIgnoresOtherLayers` | dnsnoop/Program.cs:60-61 | inserting or removing a layer that is neither UDP nor IPv4, anywhere in the frame, never changes the filter's decision |
| `Pipeline.PrintPacket` | dnsnoop/Program.cs:80-135 | the loop over the questions writes exactly the lines `PacketLines` specifies; if the record-type switch fails, it writes no line and reports that error |
| `Pipeline.SilentWithoutDnsOrIPv4` | dnsnoop/Program.cs:82-84 | no line for a frame with no DNS layer, no IPv4 layer, or a null question list |
| `Pipeline.OneLinePerQuestion` | dnsnoop/Program.cs:90-134 | when the response renders, N questions give exactly N lines, in question order. Line i is `type \t name \t server \t response` for question i. The server is the first IPv4 layer's source address and the response is the message's one field |
| `Pipeline.LinesReadBack` | dnsnoop/Program.cs:90-134 | each printed line splits back at its first three tabs into its question's type name and name, the first IPv4 source address and the message's response field, when the name and the address hold no tab; so every line of a packet shows the same server and response |
| `Pipeline.FailureSilencesPacket` | dnsnoop/Program.cs:90-133 | with at least one question, a response that fails makes the packet fail with that error and print nothing; with no questions the packet prints nothing and does not fail |
| `Pipeline.UninterestingFrameSilent` | dnsnoop/Program.cs:56-64 | a frame without a UDP layer, or without an IPv4 layer, produces no line after filtering |
| `Pipeline.OnPacketArrival` | dnsnoop/Program.cs:56-64 | filter, then PrintPacket: the lines and error agree with `FrameLines`, and a failure writes nothing |
| `Formatter.ResponseCodeName` | dnsnoop/Program.cs:98-107 | codes 0 to 5 get names that read back to the same code; the name is RESERVED exactly when the code is above 5 |
| `Formatter.ResponseCodeNames` | dnsnoop/Program.cs:98-107 | 0 NOERROR, 1 FORMATERROR, 2 SERVFAIL, 3 NXDOMAIN, 4 NOTIMPLEMENTED, 5 REFUSED, any other code RESERVED |
| `Formatter.ResponseCodeExamples` | dnsnoop/Program.cs:96-107 | a name error with an empty answer list gives NXDOMAIN; a format error with a null answer list gives FORMATERROR |
| `Formatter.MxRoundTrip` | dnsnoop/Program.cs:142 | splitting a `FormatMx` value at its last blank gives back exactly the exchange, blanks in it included, and the preference |
| `Formatter.SrvRoundTrip` | dnsnoop/Program.cs:139-140 | a `FormatSrv` value's first three blank-separated fields read back as priority, weight and port, and the rest is exactly the target |
| `Formatter.TxtRoundTrip` | dnsnoop/Program.cs:137 | a `FormatTxt` value is one character longer than key and value together, with the colon right after the key; it reads back as key and value if and only if the key has no colon |
| `Formatter.RenderValue` | dnsnoop/Program.cs:113-128 | the switch yields a value if and only if the type is one of the nine it lists; a failure names the record's type, and is "unsupported" exactly for OPT, ANY and WKS |
| `Formatter.RenderRecord` | dnsnoop/Program.cs:113-129 | a record renders if and only if its type is one of A, AAAA, CNAME, PTR, MX, NS, SOA, SRV or TXT. A rendering is the type name, `": "` and a value. A failure names the record's type, and is "unsupported" exactly for OPT, ANY and WKS |
| `Formatter.RecordRenderings` | dnsnoop/Program.cs:113-129 | A and AAAA render as the type name, `": "` and the address; CNAME, PTR, NS and SOA as the type name, `": "` and the canonical, pointer, name-server or master name |
| `Formatter.LayoutRenderings` | dnsnoop/Program.cs:118-129 | MX renders as `MX: ` then exchange, blank and preference; SRV as `SRV: ` then priority, weight, port and target separated by blanks; TXT as `TXT: ` then key, colon and value, whatever the key. Numbers are decimal without leading zeros. Each equals `FormatMx`, `FormatSrv` or `FormatTxt` after the prefix, so MX and SRV values read back to their fields, and TXT values do when the key has no colon |
| `Formatter.RenderAll` | dnsnoop/Program.cs:111-130 | all answers render if and only if each one does; then there is one rendering per answer, in answer order; otherwise the error is that of the first answer that fails, and every earlier answer renders |
| `Formatter.FirstFailureWins` | dnsnoop/Program.cs:111-127 | when answer k is the first that fails, the response field fails with answer k's error |
| `Formatter.ResponseField` | dnsnoop/Program.cs:96-131 | a null or empty answer list gives the response-code name. Otherwise the field succeeds exactly when every answer renders; it is then the `", "`-join of the i-th answer's rendering for each i, in answer order; when it fails, its error is that of the first answer that fails, and every earlier answer renders |
| `Formatter.ResponseIgnoresQuestions` | dnsnoop/Program.cs:94-131 | two messages with the same response code and answers get the same response field, whatever their questions |
| `Formatter.SingleAnswerHasNoSeparator` | dnsnoop/Program.cs:111-130 | a single answer gives exactly its own rendering (or its error), with no separator |
| `Formatter.AddressExample` | dnsnoop/Program.cs:115 | one A answer for 93.184.216.34 gives `A: 93.184.216.34` |
| `Formatter.MailExchangeExample` | dnsnoop/Program.cs:142 | MX preference 10 with any exchange name x renders as `MX: x 10` |
| `Formatter.ServiceValueExample` | dnsnoop/Program.cs:139-140 | SRV priority 10, weight 20, port 5060 and any target t give the value `10 20 5060 t` |
| `Formatter.ServiceExample` | dnsnoop/Program.cs:122 | the same SRV record renders as `SRV: 10 20 5060 t` |
| `Formatter.TwoAnswersExample` | dnsnoop/Program.cs:111-130 | an A answer for address a then a CNAME answer for name n give `A: a, CNAME: n`, in that order |
| `Formatter.LineRoundTrip` | dnsnoop/Program.cs:133 | a `FormatLine` line splits back at its first three tabs into type name, query name, server and response, when the name and the server hold no tab |
| `Dns.TypeName` | dnsnoop/Program.cs:129 | a type prints as a non-empty run of capital letters and digits; it starts with a digit exactly for a code the enumeration does not name |
| `Dns.TypeNameInjective` | dnsnoop/Program.cs:129 | different record types never print the same name, so the `Type:` prefix identifies the type |
| `Dns.ResourceRecord.Type` | dnsnoop/Program.cs:113 | the records without a typed payload are exactly those of types OPT, ANY, WKS or an unnamed code |
| `Decimal.NatToDecimal` | dnsnoop/Program.cs:139-142 | a number prints as a non-empty run of digits, with a leading zero only for zero itself |
| `Decimal.DecimalRoundTrip` | dnsnoop/Program.cs:139-142 | the digits printed for n spell n |
| `Decimal.ParseNatRoundTrip` | dnsnoop/Program.cs:139-142 | reading back the printed number gives the number |
| `Text.Join` | dnsnoop/Program.cs:111 | a non-empty join starts with the first part, and its length is the parts' total length plus one separator per gap |
| `Text.JoinAppend` | dnsnoop/Program.cs:111 | joining one more part appends exactly the separator and that part |

## Left out

- Capture and event wiring in `Main` (dnsnoop/Program.cs:38-77) is not modelled. This covers device selection, opening the device, the native `udp and port P` filter, start/stop, statistics, the header line and waiting for Enter. It is I/O against the capture library and an event stream. `OnPacketArrival` stands for one delivery to the subscription.
- What happens to the session after an exception escapes the handler is not modelled, because it depends on the event stream and the capture thread. The model returns the error for that packet.
- Frame decoding (`EthernetIIFactory.ParseAs`, `Layers()`) is not modelled: it is a foreign library. Its output is the `seq<Layer>` parameter.
- How addresses and domain names are turned into text is left to the library: they are opaque strings.
- The SOA record's other fields, the question class, the message id and the header counts are not modelled. The handler never reads them.
- The verbose dump of the whole message (dnsnoop/Program.cs:87-88) is not modelled. It depends on the library's `ToString` and on a global log level.
- The text of the exceptions is not modelled. The error keeps only its kind and the record type.
- `ListDevices`, `WithIndex`, `Environment.Exit`, the version string, the banner and colours (dnsnoop/Program.cs:28-29, 44-51, 144-158) are not modelled. They are presentation and process control.
- The unused `let ipv4` in the capture query (dnsnoop/Program.cs:59) is not modelled: it affects nothing.
- The printed name of an undefined enumeration value is taken to be its decimal code. The enumeration's members and codes are taken from the DNS library, whose source is not part of this model.
