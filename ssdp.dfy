/** SSDP discovery of BLOBbox devices: one M-SEARCH probe to the UPnP multicast
    group, then replies collected until a receive times out (the exchange of section
    1.2 of the UPnP Device Architecture 1.0). The datagram socket is an object
    whose receives meet a scripted sequence of network events. */
module SSDP {
  import opened Wrappers
  import opened JavaInt
  import opened JavaStrings
  import opened StringUtilities
  import opened UPnP

  const TIMEOUT_S: int := 2
  const PORT: int := 1900
  const MCAST_IP: string := "239.255.255.250"
  const REPLY_BUF_SIZE: int := 1000

  /** Java's decimal rendering of a non-negative `int`, as string concatenation does it. */
  function DecimalString(n: nat): (s: string)
    ensures |s| > 0 && AllDigits(s)
  {
    var digit := ['0' + (n % 10) as char];
    if n < 10 then digit else DecimalString(n / 10) + digit
  }

  /** Reading the rendering back gives the number. */
  lemma {:induction false} DecimalStringRoundTrip(n: nat)
    ensures DecimalValue(DecimalString(n)) == n
  {
    var s := DecimalString(n);
    if n < 10 {
      assert s[..0] == [];
    } else {
      DecimalStringRoundTrip(n / 10);
      assert s[..|s| - 1] == DecimalString(n / 10);
    }
  }

  const CRLF: string := "\r\n"

  /** The M-SEARCH probe: multicast host, discovery, media renderers only, and a
      maximum wait equal to the socket timeout. */
  const SEARCH: string :=
    REQUEST_LINE + CRLF + HOST_HEADER + CRLF + MAN_HEADER + CRLF + ST_HEADER + CRLF +
    "MX:" + DecimalString(TIMEOUT_S) + CRLF +
    CRLF
  const REQUEST_LINE: string := "M-SEARCH * HTTP/1.1"
  const HOST_HEADER: string := "HOST:239.255.255.250:1900"
  const MAN_HEADER: string := "MAN:\"ssdp:discover\""
  const ST_HEADER: string := "ST:urn:schemas-upnp-org:" + "device:MediaRenderer:1"

  /** What one `receive` on the socket meets. */
  datatype SocketEvent = Reply(data: seq<byte>) | Timeout | IoError

  /** The calls made on the socket, in order. */
  datatype SocketCall = SetSoTimeout(ms: int) | Send(text: string, host: string, port: int) | Receive

  /** The network as a discovery run meets it: whether binding the local port or
      sending fails, and the events later receives meet. */
  datatype Network = Network(bindFails: bool, sendFails: bool, events: seq<SocketEvent>)

  /** The event the next `receive` meets: once the script is exhausted no more
      replies come, so the receive times out. */
  function NextEvent(pending: seq<SocketEvent>): (e: SocketEvent)
    ensures pending == [] ==> e == Timeout
  {
    if pending == [] then Timeout else pending[0]
  }

  class DatagramSocket {
    const port: int
    const sendFails: bool
    /** The events later receives meet. */
    var pending: seq<SocketEvent>
    /** The calls made on the socket so far. */
    var calls: seq<SocketCall>

    constructor (port: int, net: Network)
      ensures this.port == port && sendFails == net.sendFails && pending == net.events && calls == []
    {
      this.port := port;
      sendFails := net.sendFails;
      pending := net.events;
      calls := [];
    }

    method SetSoTimeout(ms: int)
      modifies this
      ensures calls == old(calls) + [SocketCall.SetSoTimeout(ms)] && pending == old(pending)
    {
      calls := calls + [SocketCall.SetSoTimeout(ms)];
    }

    method Send(text: string, host: string, port: int) returns (r: Outcome<IOException>)
      modifies this
      ensures calls == old(calls) + [SocketCall.Send(text, host, port)] && pending == old(pending)
      ensures r == if sendFails then Fail(IOException) else Pass
    {
      calls := calls + [SocketCall.Send(text, host, port)];
      r := if sendFails then Fail(IOException) else Pass;
    }

    /** `receive(packet)`: takes the next event; a reply's payload, cut to the buffer's
        length, is written over the front of `buf`, whose other bytes stay as they were. */
    method Receive(buf: array<byte>) returns (e: SocketEvent)
      modifies this, buf
      ensures e == NextEvent(old(pending))
      ensures pending == if old(pending) == [] then [] else old(pending)[1..]
      ensures calls == old(calls) + [SocketCall.Receive]
      ensures buf[..] == if e.Reply? then Received(old(buf[..]), e.data) else old(buf[..])
    {
      e := NextEvent(pending);
      if pending != [] {
        pending := pending[1..];
      }
      calls := calls + [SocketCall.Receive];
      if e.Reply? {
        var n := if |e.data| < buf.Length then |e.data| else buf.Length;
        var i := 0;
        while i < n
          modifies buf
          invariant 0 <= i <= n
          invariant forall j :: 0 <= j < buf.Length ==> buf[j] == if j < i then e.data[j] else old(buf[j])
        {
          buf[i] := e.data[i];
          i := i + 1;
        }
      }
    }
  }

  /** The bytes of a buffer holding `before` after a receive of `payload`: the payload,
      cut to the buffer's length, over the front, and the old bytes after it. */
  function Received(before: seq<byte>, payload: seq<byte>): (after: seq<byte>)
    ensures |after| == |before|
    ensures forall i :: 0 <= i < |after| ==> after[i] == if i < |payload| then payload[i] else before[i]
  {
    if |payload| >= |before| then payload[..|before|] else payload + before[|payload|..]
  }

  /** The `REPLY_BUF_SIZE`-byte buffer after a receive of `payload`: the payload,
      cut to the buffer's size, followed by the zero bytes of the fresh buffer. */
  function Buffer(payload: seq<byte>): seq<byte> {
    if |payload| >= REPLY_BUF_SIZE then payload[..REPLY_BUF_SIZE]
    else payload + seq(REPLY_BUF_SIZE - |payload|, _ => 0)
  }

  /** The buffer holds the payload's first `REPLY_BUF_SIZE` bytes and zeros after it. */
  lemma BufferContents(payload: seq<byte>)
    ensures |Buffer(payload)| == REPLY_BUF_SIZE
    ensures forall i :: 0 <= i < REPLY_BUF_SIZE ==> Buffer(payload)[i] == if i < |payload| then payload[i] else 0
  {
  }

  /** A freshly allocated buffer: `REPLY_BUF_SIZE` zero bytes. */
  function FreshBuffer(): (b: seq<byte>)
    ensures |b| == REPLY_BUF_SIZE && forall i :: 0 <= i < |b| ==> b[i] == 0
  {
    seq(REPLY_BUF_SIZE, _ => 0)
  }

  /** A receive into a fresh buffer leaves exactly `Buffer(payload)` in it: nothing of
      any earlier reply. */
  lemma FreshBufferHoldsReply(payload: seq<byte>)
    ensures Received(FreshBuffer(), payload) == Buffer(payload)
  {
    BufferContents(payload);
  }

  /** Why every receive gets a new buffer: a shorter reply received into the buffer of
      a longer one leaves the longer one's bytes behind it, so its text is not that of
      its own packet. */
  lemma ReusedBufferKeepsOldBytes(first: seq<byte>, second: seq<byte>)
    requires |second| < |first| && |second| < REPLY_BUF_SIZE && first[|second|] != 0
    ensures Received(Buffer(first), second)[|second|] == first[|second|]
    ensures Received(Buffer(first), second) != Buffer(second)
  {
    BufferContents(first);
    BufferContents(second);
    assert Buffer(second)[|second|] == 0;
  }

  /** The metadata of the device built from a reply packet. */
  function ReplyMetaData(payload: seq<byte>): map<string, string> {
    MetaData(PacketText(Buffer(payload)))
  }

  /** What `awaitReplies` returns for the events its receives meet: the metadata of
      the BLOBbox devices, in arrival order, or the `IOException` that ends it. */
  function Await(events: seq<SocketEvent>): (r: Result<seq<map<string, string>>, IOException>)
    ensures r.Success? ==> |r.value| <= |events|
  {
    if events == [] then Success([])
    else match events[0]
      case Timeout => Success([])
      case IoError => Failure(IOException)
      case Reply(data) =>
        var m := ReplyMetaData(data);
        match Await(events[1..])
        case Failure(e) => Failure(e)
        case Success(rest) => Success((if IsBlobboxMeta(m) then [m] else []) + rest)
  }

  /** The number of receives before the loop ends. */
  function ReceiveCount(events: seq<SocketEvent>): (n: nat)
    ensures 1 <= n <= |events| + 1
  {
    if events == [] || !events[0].Reply? then 1 else 1 + ReceiveCount(events[1..])
  }

  /** The events left after the loop ends. */
  function Unread(events: seq<SocketEvent>): seq<SocketEvent> {
    if events == [] then []
    else if !events[0].Reply? then events[1..]
    else Unread(events[1..])
  }

  function Receives(n: nat): (calls: seq<SocketCall>)
    ensures |calls| == n && forall i :: 0 <= i < n ==> calls[i] == Receive
  {
    seq(n, _ => Receive)
  }

  lemma ReceiveOnce(calls: seq<SocketCall>, n: nat)
    ensures calls + Receives(n) + [Receive] == calls + Receives(n + 1)
  {
    assert Receives(n + 1) == Receives(n) + [Receive];
  }

  /** `boxes` followed by the devices of the remaining events. */
  function Prepend(boxes: seq<map<string, string>>, r: Result<seq<map<string, string>>, IOException>)
    : Result<seq<map<string, string>>, IOException>
  {
    match r
    case Failure(e) => Failure(e)
    case Success(rest) => Success(boxes + rest)
  }

  /** One reply read: its device, if a BLOBbox, comes before those of the rest. */
  lemma AwaitReply(events: seq<SocketEvent>)
    requires events != [] && events[0].Reply?
    ensures var m := ReplyMetaData(events[0].data);
      Await(events) == Prepend(if IsBlobboxMeta(m) then [m] else [], Await(events[1..]))
    ensures ReceiveCount(events) == 1 + ReceiveCount(events[1..])
    ensures Unread(events) == Unread(events[1..])
  {
  }

  /** A timeout, an exhausted script or an `IOException` ends the loop. */
  lemma AwaitStop(events: seq<SocketEvent>)
    requires events == [] || !events[0].Reply?
    ensures Await(events) == if NextEvent(events).IoError? then Failure(IOException) else Success([])
    ensures ReceiveCount(events) == 1
    ensures Unread(events) == if events == [] then [] else events[1..]
  {
  }

  lemma PrependTwice(a: seq<map<string, string>>, b: seq<map<string, string>>,
                     r: Result<seq<map<string, string>>, IOException>)
    ensures Prepend(a, Prepend(b, r)) == Prepend(a + b, r)
  {
    if r.Success? {
      assert a + (b + r.value) == (a + b) + r.value;
    }
  }

  /** The bookkeeping of one reply: the devices found so far, then the reply's device
      if it is a BLOBbox, then those of the rest. */
  lemma ReplyStep(events: seq<SocketEvent>, found: seq<map<string, string>>) returns (kept: seq<map<string, string>>)
    requires events != [] && events[0].Reply?
    ensures kept == if IsBlobboxMeta(ReplyMetaData(events[0].data)) then [ReplyMetaData(events[0].data)] else []
    ensures Prepend(found, Await(events)) == Prepend(found + kept, Await(events[1..]))
    ensures ReceiveCount(events) == 1 + ReceiveCount(events[1..])
    ensures Unread(events) == Unread(events[1..])
  {
    AwaitReply(events);
    var m := ReplyMetaData(events[0].data);
    kept := if IsBlobboxMeta(m) then [m] else [];
    PrependTwice(found, kept, Await(events[1..]));
  }

  /** The device of one reply, parsed from the buffer it was received into. */
  method ReplyDevice(buf: array<byte>, payload: seq<byte>) returns (server: UPnPDevice)
    requires buf[..] == Received(FreshBuffer(), payload)
    ensures fresh(server) && server.metaData == ReplyMetaData(payload)
  {
    FreshBufferHoldsReply(payload);
    server := new UPnPDevice.FromPacket(buf[..]);
  }

  /** `awaitReplies`: receives, each time into a new zeroed buffer, until a timeout,
      keeping the devices that are BLOBboxes; any other `IOException` propagates. */
  method AwaitReplies(socket: DatagramSocket) returns (r: Result<seq<UPnPDevice>, IOException>)
    modifies socket
    ensures var spec := Await(old(socket.pending));
      r.Success? == spec.Success? &&
      (r.Success? ==>
         |r.value| == |spec.value| &&
         forall k :: 0 <= k < |r.value| ==> r.value[k].metaData == spec.value[k] && fresh(r.value[k]))
    ensures socket.calls == old(socket.calls) + Receives(ReceiveCount(old(socket.pending)))
    ensures socket.pending == Unread(old(socket.pending))
  {
    ghost var events := old(socket.pending);
    var boxes: seq<UPnPDevice> := [];
    ghost var found: seq<map<string, string>> := [];
    ghost var n := 0;
    assert Prepend(found, Await(events)) == Await(events) by {
      if Await(events).Success? {
        assert [] + Await(events).value == Await(events).value;
      }
    }
    while true
      invariant Await(events) == Prepend(found, Await(socket.pending))
      invariant |boxes| == |found|
      invariant forall k :: 0 <= k < |boxes| ==> boxes[k].metaData == found[k] && fresh(boxes[k])
      invariant ReceiveCount(events) == n + ReceiveCount(socket.pending)
      invariant socket.calls == old(socket.calls) + Receives(n)
      invariant Unread(events) == Unread(socket.pending)
      decreases |socket.pending|
    {
      ghost var before := socket.pending;
      var buf := new byte[REPLY_BUF_SIZE](_ => 0);
      assert buf[..] == FreshBuffer();
      var event := socket.Receive(buf);
      ReceiveOnce(old(socket.calls), n);
      n := n + 1;
      if event.Timeout? {
        AwaitStop(before);
        assert found + [] == found;
        r := Success(boxes);
        return;
      } else if event.IoError? {
        AwaitStop(before);
        r := Failure(IOException);
        return;
      }
      var server := ReplyDevice(buf, event.data);
      ghost var kept := ReplyStep(before, found);
      found := found + kept;
      if server.IsBlobbox() {
        boxes := boxes + [server];
      }
    }
  }

  /** What `findBlobboxDevices` returns on `net`. */
  function Discover(net: Network): Result<seq<map<string, string>>, IOException> {
    if net.bindFails || net.sendFails then Failure(IOException) else Await(net.events)
  }

  /** The calls `findBlobboxDevices` makes on the socket it binds. */
  function DiscoveryCalls(net: Network): seq<SocketCall> {
    [SetSoTimeout(TIMEOUT_S * 1000), Send(SEARCH, MCAST_IP, PORT)] +
    (if net.sendFails then [] else Receives(ReceiveCount(net.events)))
  }

  /** `findBlobboxDevices`: binds the SSDP port, sets the receive timeout, sends
      the probe and collects the replies. `socket` is null when binding fails. */
  method FindBlobboxDevices(net: Network) returns (r: Result<seq<UPnPDevice>, IOException>, socket: DatagramSocket?)
    ensures socket == null <==> net.bindFails
    ensures socket != null ==> fresh(socket) && socket.port == PORT && socket.calls == DiscoveryCalls(net)
    ensures var spec := Discover(net);
      r.Success? == spec.Success? &&
      (r.Success? ==>
         |r.value| == |spec.value| &&
         forall k :: 0 <= k < |r.value| ==> r.value[k].metaData == spec.value[k] && fresh(r.value[k]))
  {
    if net.bindFails {
      return Failure(IOException), null;
    }
    socket := new DatagramSocket(PORT, net);
    socket.SetSoTimeout(TIMEOUT_S * 1000);
    var sent := socket.Send(SEARCH, MCAST_IP, PORT);
    if sent.Fail? {
      return Failure(sent.error), socket;
    }
    r := AwaitReplies(socket);
  }

  /* ------------------------------------------------------------- properties */

  /** The payloads of the replies received before the loop ends. */
  function LeadingReplies(events: seq<SocketEvent>): (payloads: seq<seq<byte>>)
    ensures |payloads| <= |events|
    ensures forall k :: 0 <= k < |payloads| ==> events[k] == Reply(payloads[k])
    ensures |payloads| < |events| ==> !events[|payloads|].Reply?
  {
    if events == [] || !events[0].Reply? then [] else [events[0].data] + LeadingReplies(events[1..])
  }

  /** The metadata of each reply, each from its own packet alone. */
  function MetaDataOf(payloads: seq<seq<byte>>): (ms: seq<map<string, string>>)
    ensures |ms| == |payloads| && forall k :: 0 <= k < |ms| ==> ms[k] == ReplyMetaData(payloads[k])
  {
    seq(|payloads|, k requires 0 <= k < |payloads| => ReplyMetaData(payloads[k]))
  }

  /** The BLOBbox entries of `ms`, in their order. */
  function Blobboxes(ms: seq<map<string, string>>): seq<map<string, string>> {
    if ms == [] then [] else (if IsBlobboxMeta(ms[0]) then [ms[0]] else []) + Blobboxes(ms[1..])
  }

  /** `awaitReplies` returns exactly the BLOBbox devices of the replies that arrive
      before the first timeout, in arrival order; an `IOException` instead ends it
      with no list at all. An exhausted network is a timeout, so no reply gives an
      empty list. */
  lemma {:induction false} AwaitMeaning(events: seq<SocketEvent>)
    ensures var replies := LeadingReplies(events);
      Await(events) ==
        if NextEvent(events[|replies|..]).IoError? then Failure(IOException)
        else Success(Blobboxes(MetaDataOf(replies)))
  {
    if events != [] && events[0].Reply? {
      AwaitMeaning(events[1..]);
      LeadingRepliesStep(events);
      MetaDataOfTail(LeadingReplies(events));
    } else {
      assert events[0..] == events;
    }
  }

  lemma LeadingRepliesStep(events: seq<SocketEvent>)
    requires events != [] && events[0].Reply?
    ensures var replies := LeadingReplies(events);
      |replies| >= 1 && replies[0] == events[0].data && replies[1..] == LeadingReplies(events[1..]) &&
      events[|replies|..] == events[1..][|replies| - 1..]
  {
  }

  lemma MetaDataOfTail(payloads: seq<seq<byte>>)
    requires payloads != []
    ensures MetaDataOf(payloads)[1..] == MetaDataOf(payloads[1..])
  {
  }

  /** Every element of `Blobboxes(ms)` is a BLOBbox entry of `ms`. */
  lemma {:induction false} BlobboxesAreBlobboxes(ms: seq<map<string, string>>)
    ensures |Blobboxes(ms)| <= |ms|
    ensures forall k :: 0 <= k < |Blobboxes(ms)| ==> IsBlobboxMeta(Blobboxes(ms)[k]) && Blobboxes(ms)[k] in ms
  {
    if ms != [] {
      BlobboxesAreBlobboxes(ms[1..]);
    }
  }

  /** The positions, from `from` on, of the BLOBbox entries of `ms`, in increasing order. */
  function BlobboxPositions(ms: seq<map<string, string>>, from: nat): seq<nat>
    decreases |ms| - from
  {
    if from >= |ms| then []
    else (if IsBlobboxMeta(ms[from]) then [from] else []) + BlobboxPositions(ms, from + 1)
  }

  /** `Blobboxes(ms[from..])` takes the entries of `ms` at `BlobboxPositions(ms, from)`:
      increasing positions, exactly those of the BLOBbox entries. */
  lemma {:induction false} BlobboxPositionsMeaning(ms: seq<map<string, string>>, from: nat)
    requires from <= |ms|
    ensures var at := BlobboxPositions(ms, from);
      |at| == |Blobboxes(ms[from..])| &&
      (forall k :: 0 <= k < |at| ==> from <= at[k] < |ms| && Blobboxes(ms[from..])[k] == ms[at[k]]) &&
      (forall k, l :: 0 <= k < l < |at| ==> at[k] < at[l]) &&
      (forall j :: from <= j < |ms| ==> (IsBlobboxMeta(ms[j]) <==> j in at))
    decreases |ms| - from
  {
    if from < |ms| {
      BlobboxPositionsMeaning(ms, from + 1);
      assert ms[from..][0] == ms[from];
      assert ms[from..][1..] == ms[from + 1..];
    }
  }

  /** Each device `awaitReplies` returns is built from one reply alone: the k-th one's
      metadata is that of the zero-padded buffer of receive number `at[k]`, where `at`
      lists, in increasing order, exactly the receives before the loop ends whose
      reply is a BLOBbox. */
  lemma DevicesFromOwnReplies(events: seq<SocketEvent>)
    ensures var n := |LeadingReplies(events)|;
      var at := BlobboxPositions(MetaDataOf(LeadingReplies(events)), 0);
      Await(events).Success? ==>
        |Await(events).value| == |at| &&
        (forall k :: 0 <= k < |at| ==>
           at[k] < n && events[at[k]].Reply? &&
           Await(events).value[k] == MetaData(PacketText(Buffer(events[at[k]].data)))) &&
        (forall k, l :: 0 <= k < l < |at| ==> at[k] < at[l]) &&
        (forall j :: 0 <= j < n ==> events[j].Reply? && (IsBlobboxMeta(ReplyMetaData(events[j].data)) <==> j in at))
  {
    AwaitMeaning(events);
    var ms := MetaDataOf(LeadingReplies(events));
    BlobboxPositionsMeaning(ms, 0);
    assert ms[0..] == ms;
  }

  /** A discovery run sets the timeout to `TIMEOUT_S` seconds, then sends the probe
      exactly once, and receives only after that. */
  lemma ProbeSentOnce(net: Network)
    ensures var calls := DiscoveryCalls(net);
      calls[0] == SetSoTimeout(2000) &&
      calls[1] == Send(SEARCH, MCAST_IP, PORT) &&
      (forall i :: 0 <= i < |calls| && calls[i].Send? ==> i == 1) &&
      (forall i :: 0 <= i < |calls| && calls[i].Receive? ==> i > 1)
  {
  }

  /** Lines ending in CR LF split one by one. */
  lemma LineThenCRLF(line: string, rest: string)
    requires NoBreaks(line)
    ensures Lines(line + CRLF + rest) == [line] + Lines(rest)
  {
    var s := line + CRLF + rest;
    assert s[|line|] == '\r' && s[|line| + 1] == '\n';
    assert RunLength(s, LINE_BREAKS) == |line|;
    assert s[..|line|] == line;
    assert s[|line| + 2..] == rest;
  }

  predicate NoBreaks(line: string) {
    '\n' !in line && '\r' !in line
  }

  lemma RequestLineHasNoBreaks()
    ensures NoBreaks(REQUEST_LINE)
  {
  }

  lemma HostLineHasNoBreaks()
    ensures NoBreaks(HOST_HEADER)
  {
  }

  lemma ManLineHasNoBreaks()
    ensures NoBreaks(MAN_HEADER)
  {
  }

  lemma NoBreaksAppend(a: string, b: string)
    requires NoBreaks(a) && NoBreaks(b)
    ensures NoBreaks(a + b)
  {
    assert forall c :: c in a + b ==> c in a || c in b;
  }

  lemma STLineHasNoBreaks()
    ensures NoBreaks(ST_HEADER)
  {
    assert NoBreaks("ST:urn:schemas-upnp-org:");
    assert NoBreaks("device:MediaRenderer:1");
    NoBreaksAppend("ST:urn:schemas-upnp-org:", "device:MediaRenderer:1");
  }

  /** The probe is its five lines, each ended by CR LF, then an empty line. */
  lemma SearchLayout()
    ensures DecimalString(TIMEOUT_S) == "2"
    ensures SEARCH == REQUEST_LINE + CRLF + (HOST_HEADER + CRLF + (MAN_HEADER + CRLF +
      (ST_HEADER + CRLF + ("MX:2" + CRLF + ("" + CRLF + "")))))
  {
    assert "MX:" + DecimalString(TIMEOUT_S) == "MX:2";
  }

  /** Five CR LF terminated lines followed by an empty line. */
  lemma FiveLines(l1: string, l2: string, l3: string, l4: string, l5: string)
    requires NoBreaks(l1) && NoBreaks(l2) && NoBreaks(l3) && NoBreaks(l4) && NoBreaks(l5)
    ensures Lines(l1 + CRLF + (l2 + CRLF + (l3 + CRLF + (l4 + CRLF + (l5 + CRLF + ("" + CRLF + "")))))) ==
      [l1] + ([l2] + ([l3] + ([l4] + ([l5] + [""]))))
  {
    var t6 := "" + CRLF + "";
    var t5 := l5 + CRLF + t6;
    var t4 := l4 + CRLF + t5;
    var t3 := l3 + CRLF + t4;
    var t2 := l2 + CRLF + t3;
    LineThenCRLF("", "");
    ConsLine(l5, t6, [""]);
    ConsLine(l4, t5, [l5] + [""]);
    ConsLine(l3, t4, [l4] + ([l5] + [""]));
    ConsLine(l2, t3, [l3] + ([l4] + ([l5] + [""])));
    ConsLine(l1, t2, [l2] + ([l3] + ([l4] + ([l5] + [""]))));
  }

  lemma ConsLine(line: string, rest: string, lines: seq<string>)
    requires NoBreaks(line) && Lines(rest) == lines
    ensures Lines(line + CRLF + rest) == [line] + lines
  {
    LineThenCRLF(line, rest);
  }

  /** The probe's lines: the request line, the HOST, MAN and ST headers, the MX
      header whose value is the socket timeout in seconds, and a final blank line. */
  lemma SearchLines()
    ensures DecimalString(TIMEOUT_S) == "2"
    ensures Lines(SEARCH) == [REQUEST_LINE] + ([HOST_HEADER] + ([MAN_HEADER] + ([ST_HEADER] + (["MX:2"] + [""]))))
  {
    SearchLayout();
    RequestLineHasNoBreaks();
    HostLineHasNoBreaks();
    ManLineHasNoBreaks();
    STLineHasNoBreaks();
    assert NoBreaks("MX:2");
    FiveLines(REQUEST_LINE, HOST_HEADER, MAN_HEADER, ST_HEADER, "MX:2");
  }
}
