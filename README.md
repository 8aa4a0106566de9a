# BLOBbox remote control: a verified model of its core

The application is an Android remote control for the TVBLOB BLOBbox set-top box. Under its
activities sit five pieces of sequential logic, and this Dafny project models each of them
and proves what they promise:

- **Version strings and hex** (module `StringUtilities`, over `JavaInt` and `JavaStrings`).
  - A version string is tokenised on `.`, `_` and `-` into integer components.
  - Up to four components are packed, eight bits each, into one Java `int`. Java's 32-bit
    wrap-around, masked shift distance and bitwise or are written out (module `JavaInt`).
  - Bytes are rendered as lower-case hex and parsed back.
  - The loops are methods proved against specification functions. The documented examples
    are lemmas (module `VersionExamples`), and so are the order-preservation of packing and
    the hex round trip.
- **SSDP replies** (module `UPnP`).
  - A discovery reply is parsed into a header map. The device is a BLOBbox when its `USN`
    starts with `uuid:blobbox-`.
  - The description document sits behind a fill-once cache.
- **Discovery** (module `SSDP`).
  - One M-SEARCH probe is sent, then replies are collected until a receive times out. This is
    the exchange of section 1.2 of the UPnP Device Architecture 1.0.
  - The datagram socket is a class whose receives meet a scripted sequence of events:
    `Reply`, `Timeout` or `IoError`.
- **Session bootstrap** (module `Argo`).
  - The transport is a class with scripted replies and a log of the requests attempted.
  - The `validateClient` priming POST, the version gate and the challenge-response `login`
    are modelled.
  - The closed mapping of failures to exception kinds is modelled too. `Exceptions` lists
    those kinds.
  - SHA-1 and the host part of a URL are parameters: functions the model does not interpret.
- **Activities** (modules `Activity` and `LegacyActivity`).
  - The YouTube link helpers are pure string logic. The older copy of the activity base
    class has the same helpers, so they are modelled once.
  - Each base class maps how a session ended to one status code. The older class also shows
    the code and finishes.

`null` is `None` of `Option`. A call that may throw returns a `Result` or an `Outcome`, whose
error is the exception class.

The older base class `src/com/tvblob/fandango/myblobbox/AbstractBLOBboxActivty.java` repeats the
URL helpers of `AbstractBLOBboxActivity.java` line for line, so each `Activity` member below also
models its copy there:

- `YOUTUBE_PLAY_URL` is at line 37.
- `getYouTubeVideoID` is at lines 328-366.
- `getNonNullURL` is at lines 261-268.
- `getYouTubeURL` is at lines 374-377.
- `extractQuery` is at lines 386-392.
- `findVideoIDInQuery` is at lines 400-420.

The older class differs in its own status codes and its message handler, which are modelled in
`LegacyActivity`.

The M-SEARCH probe is modelled byte for byte as `trunk/src/com/tvblob/fandango/ssdp/SSDP.java`
lines 27-31 build it. Its headers have no space after the colon (`MAN:"ssdp:discover"`, `MX:2`).
The M-SEARCH example of the UPnP Device Architecture 1.0 writes them with one space; section 4.2
of RFC 2616 allows either.

## Model

| member | source | states |
|---|---|---|
| StringUtilities.IsValidHexString | tags/release-1_1_0/src/com/tvblob/fandango/base/StringUtilities.java:33-42 | true exactly when every character is a hexadecimal digit of either case; true for the empty string |
| StringUtilities.ParseInt | tags/release-1_1_0/src/com/tvblob/fandango/base/StringUtilities.java:93 | `Integer.parseInt` on ASCII: only a non-empty all-digit string below 2^31 parses, and its value is non-negative |
| StringUtilities.LeadingDigits | tags/release-1_1_0/src/com/tvblob/fandango/base/StringUtilities.java:111-115 | the index loop stops at the end of the leading digit run: everything before it is a digit, the character at it is not |
| StringUtilities.MixedValue | tags/release-1_1_0/src/com/tvblob/fandango/base/StringUtilities.java:104-119 | -1 when the token does not start with a digit; otherwise the decimal value of its leading digit run, and a `NumberFormatException` exactly when that value reaches 2^31 |
| StringUtilities.GetIntValueFromMixedString | tags/release-1_1_0/src/com/tvblob/fandango/base/StringUtilities.java:104-119 | the index loop yields the value of the leading digit run, -1 when the token does not start with a digit, and throws when that run overflows |
| StringUtilities.ComponentValue | tags/release-1_1_0/src/com/tvblob/fandango/base/StringUtilities.java:90-98 | a token contributes -1 when it does not start with a digit, otherwise the parse of its leading digit run, whether or not `parseInt` of the whole token failed |
| StringUtilities.NumeralComponent | tags/release-1_1_0/src/com/tvblob/fandango/base/StringUtilities.java:92-93 | an all-digit token that fits an `int` is its own value |
| StringUtilities.ComponentSign | tags/release-1_1_0/src/com/tvblob/fandango/base/StringUtilities.java:70-72 | a component is negative exactly when its token does not start with a digit, and then it is -1 |
| StringUtilities.Scan | tags/release-1_1_0/src/com/tvblob/fandango/base/StringUtilities.java:67-75 | the shared tokenizer loop only ever appends to the components collected so far |
| StringUtilities.VersionTokens | tags/release-1_1_0/src/com/tvblob/fandango/base/StringUtilities.java:65-66 | the tokenizer over "._-" yields only non-empty tokens |
| StringUtilities.VersionNumbers | tags/release-1_1_0/src/com/tvblob/fandango/base/StringUtilities.java:63-84 | what `getVersionNumbers` returns: every token read with no limit (its meaning is proved in `VersionNumbersMeaning`) |
| StringUtilities.GetVersionNumbers | tags/release-1_1_0/src/com/tvblob/fandango/base/StringUtilities.java:63-84 | the list-filling loop computes the specified component list (failure when a digit run overflows) |
| StringUtilities.ScanComponents | tags/release-1_1_0/src/com/tvblob/fandango/base/StringUtilities.java:67-75 | the loop keeps, in order, the value of each token up to the end, the limit or the first token without a leading digit; each kept value is non-negative and starts with a digit |
| StringUtilities.ScanFails | tags/release-1_1_0/src/com/tvblob/fandango/base/StringUtilities.java:90-119 | the loop throws exactly when it reaches, before the limit and before any non-digit token, a token whose digit run overflows `int` |
| StringUtilities.ScanReads | tags/release-1_1_0/src/com/tvblob/fandango/base/StringUtilities.java:67-75 | conversely, tokens whose values are `vs`, followed by the end, the limit or a non-digit token, are read as exactly `vs` |
| StringUtilities.VersionNumbersMeaning | tags/release-1_1_0/src/com/tvblob/fandango/base/StringUtilities.java:44-83 | `getVersionNumbers` returns at most one component per token, all >= 0, each the leading-digit value of its token, stopping only at the end or at a token that does not start with a digit |
| StringUtilities.PackLoopStep | tags/release-1_1_0/src/com/tvblob/fandango/base/StringUtilities.java:149 | one loop turn folds the component into the running value as `value << 8 | c` |
| StringUtilities.PackLoop | tags/release-1_1_0/src/com/tvblob/fandango/base/StringUtilities.java:136-151 | the value the loop accumulates, `value << 8 \| c` per component in Java `int` arithmetic (its value is proved in `PackLoopValue`) |
| StringUtilities.Pack | tags/release-1_1_0/src/com/tvblob/fandango/base/StringUtilities.java:152-155 | the loop value shifted left by 8 bits per missing component (its value is proved in `PackIsBase256`) |
| StringUtilities.CompoundVersionNumber | tags/release-1_1_0/src/com/tvblob/fandango/base/StringUtilities.java:134-156 | what `getCompoundVersionNumber(s, n)` returns: the packed first components, or the `NumberFormatException` (proved in `CompoundOfVersionNumbers`) |
| StringUtilities.CompoundVersion | tags/release-1_1_0/src/com/tvblob/fandango/base/StringUtilities.java:165-167 | the one-argument `getCompoundVersionNumber` is the two-argument one with four components |
| StringUtilities.GetCompoundVersionNumber | tags/release-1_1_0/src/com/tvblob/fandango/base/StringUtilities.java:134-156 | the counting loop and the final shift compute the specified packed value (failure when a digit run overflows) |
| StringUtilities.ScanPrefix | tags/release-1_1_0/src/com/tvblob/fandango/base/StringUtilities.java:140 | reading with a lower limit keeps the first components of the longer reading |
| StringUtilities.CompoundOfVersionNumbers | tags/release-1_1_0/src/com/tvblob/fandango/base/StringUtilities.java:121-156 | `getCompoundVersionNumber(s, n)` packs the first min(n, count) components that `getVersionNumbers(s)` finds |
| StringUtilities.PackLoopValue | tags/release-1_1_0/src/com/tvblob/fandango/base/StringUtilities.java:149 | on up to four components in 0..255 (first below 128) the folded value is their base-256 number |
| StringUtilities.PackIsBase256 | tags/release-1_1_0/src/com/tvblob/fandango/base/StringUtilities.java:125-155 | `getCompoundVersionNumber(s)` on components in range is the base-256 value of the zero-padded four components |
| StringUtilities.Base256OrdersLex | tags/release-1_1_0/src/com/tvblob/fandango/base/StringUtilities.java:125 | base-256 values of four in-range digits order like the digits, lexicographically |
| StringUtilities.CompoundOrderIsLexicographic | tags/release-1_1_0/src/com/tvblob/fandango/base/StringUtilities.java:121-156 | packed values compare like the zero-padded component vectors, lexicographically, in both directions |
| StringUtilities.PackIgnoresTrailingZero | tags/release-1_1_0/src/com/tvblob/fandango/base/StringUtilities.java:152-153 | a trailing 0 component does not change the packed value |
| StringUtilities.CompoundVersionOrder | tags/release-1_1_0/src/com/tvblob/fandango/base/StringUtilities.java:121-167 | for version strings with in-range components, comparing `getCompoundVersionNumber` values compares their first four components lexicographically, missing ones counting as 0 |
| StringUtilities.HexChar | tags/release-1_1_0/src/com/tvblob/fandango/base/StringUtilities.java:184-185 | `Character.forDigit(d, 16)` is a lower-case hex digit |
| StringUtilities.Hex | tags/release-1_1_0/src/com/tvblob/fandango/base/StringUtilities.java:176-188 | two characters per byte, at positions 2i and 2i+1: the digit of the high nibble, then of the low nibble |
| StringUtilities.BytesToHexString | tags/release-1_1_0/src/com/tvblob/fandango/base/StringUtilities.java:176-188 | the buffer-appending loop produces exactly `Hex(bytes)` |
| StringUtilities.NumericValue | tags/release-1_1_0/src/com/tvblob/fandango/base/StringUtilities.java:201-203 | `Character.getNumericValue` on ASCII lies in -1..35 |
| StringUtilities.Unhex | tags/release-1_1_0/src/com/tvblob/fandango/base/StringUtilities.java:196-206 | `|s| / 2` bytes, byte i from characters 2i and 2i+1 |
| StringUtilities.UnhexAt | tags/release-1_1_0/src/com/tvblob/fandango/base/StringUtilities.java:200-203 | byte i is built from characters 2i and 2i+1 and no others |
| StringUtilities.HexStringToBytes | tags/release-1_1_0/src/com/tvblob/fandango/base/StringUtilities.java:196-206 | the array-filling loop produces exactly `Unhex(s)` |
| StringUtilities.HexCharValue | tags/release-1_1_0/src/com/tvblob/fandango/base/StringUtilities.java:184-203 | `getNumericValue` undoes `forDigit(d, 16)` |
| StringUtilities.PairOfHexDigits | tags/release-1_1_0/src/com/tvblob/fandango/base/StringUtilities.java:201-203 | two hex digits of either case decode to `16 * hi + lo` |
| StringUtilities.HexIsValid | tags/release-1_1_0/src/com/tvblob/fandango/base/StringUtilities.java:176-188 | `bytesToHexString` output passes `isValidHexString` |
| StringUtilities.HexRoundTrip | tags/release-1_1_0/src/com/tvblob/fandango/base/StringUtilities.java:190-206 | `hexStringToBytes(bytesToHexString(b)) == b` |
| StringUtilities.UnhexOfHexDigits | tags/release-1_1_0/src/com/tvblob/fandango/base/StringUtilities.java:196-206 | a string of hex digits decodes pair by pair to the bytes they denote |
| StringUtilities.UnhexIgnoresOddChar | tags/release-1_1_0/src/com/tvblob/fandango/base/StringUtilities.java:197 | an odd trailing character is never read |
| VersionExamples.VersionNumbers_1_17_6 | tags/release-1_1_0/src/com/tvblob/fandango/base/StringUtilities.java:51 | `getVersionNumbers("1.17.6")` is [1, 17, 6] |
| VersionExamples.VersionNumbers_1_38_1_vweb | tags/release-1_1_0/src/com/tvblob/fandango/base/StringUtilities.java:52 | `getVersionNumbers("1.38.1-vweb0606-02")` is [1, 38, 1] |
| VersionExamples.VersionNumbers_1_16_5_2_3 | tags/release-1_1_0/src/com/tvblob/fandango/base/StringUtilities.java:53 | `getVersionNumbers("1.16.5.2.3")` is [1, 16, 5, 2, 3] |
| VersionExamples.VersionNumbers_1_16_x_5_2_3 | tags/release-1_1_0/src/com/tvblob/fandango/base/StringUtilities.java:54 | `getVersionNumbers("1.16.x.5.2.3")` is [1, 16] |
| VersionExamples.VersionNumbers_empty_and_foo | tags/release-1_1_0/src/com/tvblob/fandango/base/StringUtilities.java:55-56 | `getVersionNumbers("")` and `getVersionNumbers("foo")` are [] |
| VersionExamples.VersionNumbers_x_1_2_3 | tags/release-1_1_0/src/com/tvblob/fandango/base/StringUtilities.java:57 | `getVersionNumbers("x.1.2.3")` is [] |
| VersionExamples.VersionNumbers_1_43_2b_5 | tags/release-1_1_0/src/com/tvblob/fandango/base/StringUtilities.java:106-116 | a token with a leading digit run contributes it and the loop goes on: "1.43.2b.5" gives [1, 43, 2, 5] |
| VersionExamples.CompoundIgnoresExtraComponents | tags/release-1_1_0/src/com/tvblob/fandango/base/StringUtilities.java:127-128 | `getCompoundVersionNumber("1.2.3.4", 3) == getCompoundVersionNumber("1.2.3", 3)` |
| VersionExamples.CompoundPadsWithZeros | tags/release-1_1_0/src/com/tvblob/fandango/base/StringUtilities.java:152-167 | with four components "1.2" packs the same as "1.2.0.0" |
| VersionExamples.Compound_1_66_2 | src/com/tvblob/fandango/argo/ArgoClient.java:26-27 | `getCompoundVersionNumber("1.66.2")` is 0x01420200 |
| VersionExamples.Compound_1_64_10 | src/com/tvblob/fandango/argo/ArgoClient.java:29-30 | `getCompoundVersionNumber("1.64.10")` is 0x01400A00 |
| JavaStrings.IndexOf | trunk/src/com/tvblob/fandango/ssdp/UPnPDevice.java:79 | `indexOf(':')`: -1 exactly when absent, otherwise the first occurrence |
| JavaStrings.LastIndexOf | src/com/tvblob/fandango/myblobbox/AbstractBLOBboxActivity.java:325-331 | `lastIndexOf('?')`: -1 exactly when absent, otherwise the last occurrence |
| JavaStrings.Tokens | tags/release-1_1_0/src/com/tvblob/fandango/base/StringUtilities.java:65-68 | `StringTokenizer` hands out only non-empty delimiter-free tokens, at most one per character |
| JavaStrings.TokensOfJoined | tags/release-1_1_0/src/com/tvblob/fandango/base/StringUtilities.java:65-68 | tokens separated by single delimiters come back unchanged |
| JavaStrings.TokensKeepEveryOtherChar | tags/release-1_1_0/src/com/tvblob/fandango/base/StringUtilities.java:65-68 | the tokens, concatenated, are the input without its delimiters: runs of separators produce no empty token and lose nothing else |
| JavaStrings.Lines | trunk/src/com/tvblob/fandango/ssdp/UPnPDevice.java:73-78 | `readLine` yields lines free of CR and LF |
| JavaStrings.TrimStrips | trunk/src/com/tvblob/fandango/ssdp/UPnPDevice.java:81-82 | `trim` cuts a run of characters <= U+0020 at each end and keeps a middle that starts and ends with neither |
| UPnP.HeaderEntry | trunk/src/com/tvblob/fandango/ssdp/UPnPDevice.java:79-83 | a line contributes an entry exactly when it contains ':' |
| UPnP.HeaderEntryMeaning | trunk/src/com/tvblob/fandango/ssdp/UPnPDevice.java:79-83 | the key is the untrimmed text before the first ':' (so it holds no ':'), the value the trimmed rest |
| UPnP.FieldLine | trunk/src/com/tvblob/fandango/ssdp/UPnPDevice.java:79-82 | `key: value` maps the colon-free key to the whole value, later colons included |
| UPnP.LocationKeepsColons | trunk/src/com/tvblob/fandango/ssdp/UPnPDevice.java:63-82 | the LOCATION line "http://192.168.1.94:49152/description.xml" keeps its colons |
| UPnP.PutAllKeys | trunk/src/com/tvblob/fandango/ssdp/UPnPDevice.java:76-84 | a key is in the map exactly when some line has an entry for it |
| UPnP.PutAllLastWins | trunk/src/com/tvblob/fandango/ssdp/UPnPDevice.java:76-82 | a key maps to the value of the last line carrying it |
| UPnP.LastEntryWins | trunk/src/com/tvblob/fandango/ssdp/UPnPDevice.java:81-82 | a repeated key takes the later line's value |
| UPnP.PutLine | trunk/src/com/tvblob/fandango/ssdp/UPnPDevice.java:79-83 | one loop turn: `map.put(key, trimmed value)` when the line has ':', nothing otherwise |
| UPnP.Put | trunk/src/com/tvblob/fandango/ssdp/UPnPDevice.java:81-82 | `map.put` of a line's entry, and no change for a line without one |
| UPnP.PutAll | trunk/src/com/tvblob/fandango/ssdp/UPnPDevice.java:76-84 | the entries put in line order into an empty map (characterised by `PutAllKeys` and `PutAllLastWins`) |
| UPnP.MetaData | trunk/src/com/tvblob/fandango/ssdp/UPnPDevice.java:61-89 | the map `initMetaData` builds: the entries of the reply's lines, put in order |
| UPnP.PutLines | trunk/src/com/tvblob/fandango/ssdp/UPnPDevice.java:78-84 | the `readLine` loop builds exactly the map of the lines' entries, put in order |
| UPnP.InitMetaData | trunk/src/com/tvblob/fandango/ssdp/UPnPDevice.java:61-89 | `initMetaData(reply)` is the metadata map of the reply's lines |
| UPnP.FieldOfReply | trunk/src/com/tvblob/fandango/ssdp/UPnPDevice.java:52-98 | `getField(name)` is non-null exactly when some reply line has key `name`, and is then the trimmed value of the last such line |
| UPnP.PacketTextDecodes | trunk/src/com/tvblob/fandango/ssdp/UPnPDevice.java:45-47 | `new String(reply.getData())` decodes each byte of the buffer to one character |
| UPnP.PacketText | trunk/src/com/tvblob/fandango/ssdp/UPnPDevice.java:45-47 | `new String(reply.getData())` over the whole buffer, one character per byte |
| UPnP.IsBlobboxMeta | trunk/src/com/tvblob/fandango/ssdp/UPnPDevice.java:103-106 | `isBlobbox` on the header map: USN present and starting with "uuid:blobbox-" |
| UPnP.UPnPDevice.constructor | trunk/src/com/tvblob/fandango/ssdp/UPnPDevice.java:52-55 | the map is built once from the reply and the cache starts empty |
| UPnP.UPnPDevice.FromPacket | trunk/src/com/tvblob/fandango/ssdp/UPnPDevice.java:45-47 | a device from a packet is the device of its buffer's text |
| UPnP.UPnPDevice.GetField | trunk/src/com/tvblob/fandango/ssdp/UPnPDevice.java:96-98 | the stored value or null; reads only the immutable map |
| UPnP.UPnPDevice.IsBlobbox | trunk/src/com/tvblob/fandango/ssdp/UPnPDevice.java:103-106 | true exactly when USN is present and starts with "uuid:blobbox-" |
| UPnP.UPnPDevice.GetLocationURL | trunk/src/com/tvblob/fandango/ssdp/UPnPDevice.java:111-113 | `getField("LOCATION")` |
| UPnP.UPnPDevice.GetHost | trunk/src/com/tvblob/fandango/ssdp/UPnPDevice.java:120-130 | null exactly when LOCATION is absent or malformed, otherwise its host |
| UPnP.ReadXMLDocument | trunk/src/com/tvblob/fandango/ssdp/UPnPDevice.java:181-211 | null without a LOCATION or when it is not a URL; a `ClassCastException` exactly when the URL's connection is not HTTP; an `IOException` exactly when opening the stream fails; otherwise what the parser gave |
| UPnP.Opened | trunk/src/com/tvblob/fandango/ssdp/UPnPDevice.java:182-188 | at most one connection, to the LOCATION URL |
| UPnP.Describe | trunk/src/com/tvblob/fandango/ssdp/UPnPDevice.java:169-174 | a cached document is returned unchanged; otherwise the read's result, which fills the cache only when it is a document |
| UPnP.UPnPDevice.GetXMLDescription | trunk/src/com/tvblob/fandango/ssdp/UPnPDevice.java:169-174 | the result and the new cache are `Describe` of the old cache, and a connection is opened only while the cache is empty |
| UPnP.CacheFillsOnce | trunk/src/com/tvblob/fandango/ssdp/UPnPDevice.java:169-174 | once a document is cached every later call returns it and fetches nothing, whatever the network does |
| UPnP.EmptyCacheRefills | trunk/src/com/tvblob/fandango/ssdp/UPnPDevice.java:169-174 | the cache stays empty exactly when the read did not produce a document, so the next call reads again |
| SSDP.DecimalString | trunk/src/com/tvblob/fandango/ssdp/SSDP.java:31 | the decimal rendering of `TIMEOUT_S` is non-empty and all digits |
| SSDP.DecimalStringRoundTrip | trunk/src/com/tvblob/fandango/ssdp/SSDP.java:31 | reading the rendering back gives the number |
| SSDP.SearchLayout | trunk/src/com/tvblob/fandango/ssdp/SSDP.java:27-32 | the probe is the request line, HOST, MAN, ST and `MX:2`, each ended by CR LF, then an empty line |
| SSDP.SearchLines | trunk/src/com/tvblob/fandango/ssdp/SSDP.java:22-32 | read line by line the probe is M-SEARCH, HOST:239.255.255.250:1900, MAN:"ssdp:discover", ST:urn:schemas-upnp-org:device:MediaRenderer:1, MX equal to `TIMEOUT_S`, and a blank line |
| SSDP.NextEvent | trunk/src/com/tvblob/fandango/ssdp/SSDP.java:85-93 | a receive on an exhausted network times out |
| SSDP.DatagramSocket.constructor | trunk/src/com/tvblob/fandango/ssdp/SSDP.java:49 | a socket bound to the given port, meeting the network's events, with no calls made yet |
| SSDP.DatagramSocket.SetSoTimeout | trunk/src/com/tvblob/fandango/ssdp/SSDP.java:52 | the timeout call is logged and the pending events are untouched |
| SSDP.DatagramSocket.Receive | trunk/src/com/tvblob/fandango/ssdp/SSDP.java:84-85 | one receive takes the next event and is logged; a reply's payload, cut to the buffer's length, overwrites the front of the buffer and every later byte keeps its old value |
| SSDP.DatagramSocket.Send | trunk/src/com/tvblob/fandango/ssdp/SSDP.java:53 | one send is logged; it throws when the network refuses it |
| SSDP.Received | trunk/src/com/tvblob/fandango/ssdp/SSDP.java:84-85 | after a receive, byte i of the buffer is the payload's byte when i is within the payload and the old byte otherwise; the length is the buffer's |
| SSDP.BufferContents | trunk/src/com/tvblob/fandango/ssdp/SSDP.java:83-85 | each receive fills a fresh 1000-byte buffer: the payload, cut to size, then zeros |
| SSDP.FreshBufferHoldsReply | trunk/src/com/tvblob/fandango/ssdp/SSDP.java:79-85 | a receive into the new zeroed buffer leaves exactly the zero-padded payload: nothing of any earlier reply |
| SSDP.ReusedBufferKeepsOldBytes | trunk/src/com/tvblob/fandango/ssdp/SSDP.java:79-83 | were one buffer reused, a shorter reply after a longer one would keep the longer one's bytes behind it, the corruption the new buffer per receive avoids |
| SSDP.ReplyMetaData | trunk/src/com/tvblob/fandango/ssdp/SSDP.java:83-86 | the metadata of the device built from one reply's buffer (its meaning for the returned list is proved in `DevicesFromOwnReplies`) |
| SSDP.ReplyDevice | trunk/src/com/tvblob/fandango/ssdp/SSDP.java:86 | the device is built from the buffer its reply was received into, and its map is that reply's metadata |
| SSDP.Await | trunk/src/com/tvblob/fandango/ssdp/SSDP.java:73-95 | what `awaitReplies` returns for the events its receives meet: at most one device per event (characterised by `AwaitMeaning`) |
| SSDP.AwaitReply | trunk/src/com/tvblob/fandango/ssdp/SSDP.java:83-89 | a reply adds its device, if it is a BLOBbox, in front of those of the later replies |
| SSDP.AwaitStop | trunk/src/com/tvblob/fandango/ssdp/SSDP.java:77-94 | a timeout ends the loop with what was found; any other `IOException` ends it with no list |
| SSDP.AwaitReplies | trunk/src/com/tvblob/fandango/ssdp/SSDP.java:73-95 | the devices returned are freshly built, one per BLOBbox reply, with the specified metadata in arrival order; the socket sees one receive per reply plus the final one |
| SSDP.AwaitMeaning | trunk/src/com/tvblob/fandango/ssdp/SSDP.java:76-94 | `awaitReplies` returns exactly the BLOBbox devices of the replies before the first timeout, in order (empty when none arrives), or fails with no partial list on an `IOException` |
| SSDP.BlobboxesAreBlobboxes | trunk/src/com/tvblob/fandango/ssdp/SSDP.java:87-89 | every returned device is a BLOBbox from the received replies |
| SSDP.LeadingReplies | trunk/src/com/tvblob/fandango/ssdp/SSDP.java:78-90 | the replies read before the loop ends, the event after them not being a reply |
| SSDP.BlobboxPositionsMeaning | trunk/src/com/tvblob/fandango/ssdp/SSDP.java:87-89 | the kept devices are the entries at increasing positions, and those positions are exactly the BLOBbox ones |
| SSDP.DevicesFromOwnReplies | trunk/src/com/tvblob/fandango/ssdp/SSDP.java:78-90 | the k-th returned device's metadata is that of the zero-padded buffer of one receive; these receives come in increasing order and are exactly the BLOBbox replies before the loop ends |
| SSDP.FindBlobboxDevices | trunk/src/com/tvblob/fandango/ssdp/SSDP.java:48-56 | binds the SSDP port, logs exactly the timeout, the probe and the receives, and returns the specified devices or the `IOException` |
| SSDP.Discover | trunk/src/com/tvblob/fandango/ssdp/SSDP.java:48-56 | what `findBlobboxDevices` returns: an `IOException` when binding or sending fails, otherwise the result of `awaitReplies` |
| SSDP.DiscoveryCalls | trunk/src/com/tvblob/fandango/ssdp/SSDP.java:49-55 | the calls on the socket: the timeout, the probe, then the receives of `awaitReplies`, none when the send throws |
| SSDP.ProbeSentOnce | trunk/src/com/tvblob/fandango/ssdp/SSDP.java:49-55 | the timeout is set to 2000 ms first, the probe is sent exactly once, and every receive comes after it |
| Argo.PostOutcome | tags/release-1_1_0/src/com/tvblob/fandango/argo/JabsorbRPCClient.java:41-57 | a POST yields its status, or a `JSONRPCException` for a transport failure, or an `IllegalArgumentException` for a refused URL |
| Argo.CallOutcome | tags/release-1_1_0/src/com/tvblob/fandango/argo/JabsorbRPCClient.java:23 | a call yields the next scripted result or a `JSONRPCException` |
| Argo.PostStep | tags/release-1_1_0/src/com/tvblob/fandango/argo/JabsorbRPCClient.java:41-57 | one POST: its status or exception, and the conversation with the POST logged and one POST reply used |
| Argo.CallStep | tags/release-1_1_0/src/com/tvblob/fandango/argo/JabsorbRPCClient.java:23 | one remote call: its result or exception, and the conversation with the call logged and one call reply used |
| Argo.JabsorbRPCClient.constructor | tags/release-1_1_0/src/com/tvblob/fandango/argo/JabsorbRPCClient.java:30-32 | a client for the URI, with no request attempted yet |
| Argo.JabsorbRPCClient.SetConnectionTimeout | src/com/tvblob/fandango/argo/ArgoClient.java:211 | sets the connection timeout and nothing else |
| Argo.JabsorbRPCClient.SetSoTimeout | src/com/tvblob/fandango/argo/ArgoClient.java:212 | sets the socket timeout and nothing else |
| Argo.JabsorbRPCClient.PerformPost | tags/release-1_1_0/src/com/tvblob/fandango/argo/JabsorbRPCClient.java:41-57 | one POST: logged, status or exception, timeouts unchanged |
| Argo.JabsorbRPCClient.Call | tags/release-1_1_0/src/com/tvblob/fandango/argo/JabsorbRPCClient.java:23 | the `call`/`callString` that `JabsorbRPCClient` inherits, used by every `client.call` and `client.callString` of `ArgoClient` (lines 86, 106, 119, 127, 137, 174, 252, 269, 288 and 310): one logged remote call, its result or exception, timeouts unchanged |
| Argo.MinimumVersions | src/com/tvblob/fandango/argo/ArgoClient.java:26-30 | `MIN_VERSION_NUM` and `MIN_PH_VERSION_NUM` are the packed values of 1.66.2 and 1.64.10 |
| Argo.ArgoURL | src/com/tvblob/fandango/argo/ArgoClient.java:232-234 | "http://", then the ip verbatim, then "/argo?silent=true" |
| Argo.JSONRPCURL | src/com/tvblob/fandango/argo/ArgoClient.java:239-241 | "http://", then the ip verbatim, then "/jabsorb/JSON-RPC" |
| Argo.URLsIdentifyBox | src/com/tvblob/fandango/argo/ArgoClient.java:232-241 | each URL determines the ip, and the priming page never equals the JSON-RPC endpoint |
| Argo.IsSupportedVersion | src/com/tvblob/fandango/argo/ArgoClient.java:222-227 | null version throws `NullPointerException`, an overflowing one `IllegalArgumentException`; otherwise the boolean gate |
| Argo.SupportedVersionOrder | src/com/tvblob/fandango/argo/ArgoClient.java:222-227 | for in-range versions the gate is: at least 1.66.2.0, or at least 1.64.10.0 and containing ".PH.", lexicographically |
| Argo.MinimumVersionsAreGates | src/com/tvblob/fandango/argo/ArgoClient.java:222-227 | 1.66.2 is supported; 1.64.10 without ".PH." is not |
| Argo.ValidationFailure | src/com/tvblob/fandango/argo/ArgoClient.java:180-184 | `JSONRPCException` and `IllegalArgumentException` become `ArgoCommunicationException(ip)`; anything else passes through |
| Argo.Validate | src/com/tvblob/fandango/argo/ArgoClient.java:161-185 | fails only with a validation error; sends the priming POST and at most the version request |
| Argo.ValidateRejectsStatus | src/com/tvblob/fandango/argo/ArgoClient.java:166-171 | a status other than 204 throws `IncompatibleRemoteDeviceException(ip)` and the version is never asked for |
| Argo.ValidateOutcome | src/com/tvblob/fandango/argo/ArgoClient.java:166-179 | passes exactly on 204 and a supported version; an unsupported one throws `IncompatibleSoftwareVersionException` with the version string |
| Argo.ValidateTransportFailures | src/com/tvblob/fandango/argo/ArgoClient.java:180-184 | a transport failure or refused URL in either step, or an overflowing version, becomes `ArgoCommunicationException(ip)` |
| Argo.Digest | tags/release-1_0_2/src/com/tvblob/fandango/base/BLOBboxEncryptionUtils.java:35-51 | a missing UTF-8 throws `UnsupportedEncodingException`, a missing SHA-1 `NoSuchAlgorithmException`; otherwise a digest |
| Argo.DigestIsHexOfSHA1 | tags/release-1_0_2/src/com/tvblob/fandango/base/BLOBboxEncryptionUtils.java:35-40 | the digest is 40 hex digits from which `hexStringToBytes` recovers the SHA-1 |
| Argo.DigestInput | src/com/tvblob/fandango/argo/ArgoClient.java:124-125 | the digested text starts with the challenge, or "null" for a null one, and a ':', and ends with ':' user ':' password |
| Argo.Authenticate | src/com/tvblob/fandango/argo/ArgoClient.java:119-142 | the nobody-logged-in branch starts with the challenge request and sends at most four requests; failures are only login errors |
| Argo.Login | src/com/tvblob/fandango/argo/ArgoClient.java:101-151 | starts with `getAuthorizedUserName`, sends at most five requests, fails only with login errors |
| Argo.LoginWhenLoggedIn | src/com/tvblob/fandango/argo/ArgoClient.java:108-149 | any name other than null or "null" ends login after the first request |
| Argo.LoginSequence | src/com/tvblob/fandango/argo/ArgoClient.java:105-142 | with nobody logged in the requests are exactly getAuthorizedUserName, getLoginChallenge(user), login(hex SHA-1 of "challenge:user:password"), the priming POST, getAuthorizedUserName; their results are ignored |
| Argo.LoginNullChallenge | src/com/tvblob/fandango/argo/ArgoClient.java:119-134 | a null challenge is digested as "null:user:password" and the login throws `NullPointerException` after the POST |
| Argo.LoginFailure | src/com/tvblob/fandango/argo/ArgoClient.java:59-68 | `NoSuchAlgorithmException` and `UnsupportedEncodingException` become `IllegalStateException`, `JSONRPCException` becomes `ArgoAuthenticationException(ip)` |
| Argo.Construct | src/com/tvblob/fandango/argo/ArgoClient.java:46-70 | what the constructor does: validation, then login only if it passed, login failures mapped as in its catch blocks (characterised by `ConstructValidatesFirst` and `ConstructFailures`) |
| Argo.ValidateMakesNoLoginCall | src/com/tvblob/fandango/argo/ArgoClient.java:161-185 | validation never calls the authentication manager |
| Argo.LoginAsksFirst | src/com/tvblob/fandango/argo/ArgoClient.java:105-106 | login's first request goes to the authentication manager |
| Argo.ConstructValidatesFirst | src/com/tvblob/fandango/argo/ArgoClient.java:46-69 | the constructor's requests start with validation's; on validation failure nothing else is sent; after it login starts |
| Argo.ConstructFailures | src/com/tvblob/fandango/argo/ArgoClient.java:46-69 | an authentication failure exactly when login's transport failed; `IllegalStateException` exactly when the crypto was missing; success exactly when both steps pass |
| Argo.InitClient | src/com/tvblob/fandango/argo/ArgoClient.java:207-214 | a transport for `getJSONRPCURL(ip)` with both timeouts at 10000 ms |
| Argo.ValidateClient | src/com/tvblob/fandango/argo/ArgoClient.java:161-185 | the step-by-step method computes `Validate` and leaves the timeouts alone |
| Argo.LoginClient | src/com/tvblob/fandango/argo/ArgoClient.java:101-151 | the step-by-step method computes `Login` and leaves the timeouts alone |
| Argo.EnsureValid | src/com/tvblob/fandango/argo/ArgoClient.java:196-201 | validation on a fresh transport, with no login |
| Argo.ArgoClient.Open | src/com/tvblob/fandango/argo/ArgoClient.java:46-70 | construction: the transport ends in `Construct`'s state, success exactly when `Construct` passes, otherwise its exception |
| Argo.Rethrown | src/com/tvblob/fandango/argo/ArgoClient.java:249-256 | a `JSONRPCException` becomes an `ArgoException`; results pass unchanged |
| Argo.SessionCallsThrowArgoExceptions | src/com/tvblob/fandango/argo/ArgoClient.java:249-256 | every failure of a session call is an `ArgoException` |
| Argo.ArgoClient.Call | src/com/tvblob/fandango/argo/ArgoClient.java:249-256 | one transport call, its failure wrapped as `ArgoException("Failed to call " + name)` |
| Argo.ArgoClient.SendRemoteControlKey | src/com/tvblob/fandango/argo/ArgoClient.java:84-90 | one `keyinput.remoteControlKeyPressed(key)` call; failure is `ArgoException("Failed to send key " + key)` |
| Argo.ArgoClient.SendHOMEKeyIgnoreErrors | src/com/tvblob/fandango/argo/ArgoClient.java:72-78 | sends the HOME key and reports nothing |
| Activity.ExtractQuery | src/com/tvblob/fandango/myblobbox/AbstractBLOBboxActivity.java:318-331 | null exactly when there is no '?'; otherwise the possibly empty suffix after the last '?', which has no '?' |
| Activity.VideoIDIn | src/com/tvblob/fandango/myblobbox/AbstractBLOBboxActivity.java:344-358 | the value of the first pair whose name is "v", reading the tokens two by two (characterised by `VideoIDFound` and `VideoIDAbsent`) |
| Activity.FindVideoIDInQuery | src/com/tvblob/fandango/myblobbox/AbstractBLOBboxActivity.java:339-359 | the tokenizer loop over "&=" returns the positional video id of the tokens |
| Activity.VideoIDFound | src/com/tvblob/fandango/myblobbox/AbstractBLOBboxActivity.java:344-356 | the first "v" in a name position gives the next token, or "" when it is last |
| Activity.VideoIDAbsent | src/com/tvblob/fandango/myblobbox/AbstractBLOBboxActivity.java:347-358 | null exactly when no name position holds "v" |
| Activity.PairingIsPositional | src/com/tvblob/fandango/myblobbox/AbstractBLOBboxActivity.java:344-356 | in "a=v&v=x" the id is "x": pairs are by position, not by '=' |
| Activity.YouTubeVideoID | src/com/tvblob/fandango/myblobbox/AbstractBLOBboxActivity.java:267-305 | an id only for a URL whose host ends with ".youtube.com" and that has a query |
| Activity.IsYouTubeHost | src/com/tvblob/fandango/myblobbox/AbstractBLOBboxActivity.java:302-305 | the URL's host ends with ".youtube.com" |
| Activity.YouTubeVideoIDOfQuery | src/com/tvblob/fandango/myblobbox/AbstractBLOBboxActivity.java:267-293 | on a YouTube URL the id is read from the part after the last '?' |
| Activity.YouTubeExample | src/com/tvblob/fandango/myblobbox/AbstractBLOBboxActivity.java:313-316 | the documented watch link plays as `YOUTUBE_PLAY_URL + "25AuClGJB0M"` |
| Activity.YouTubeURL | src/com/tvblob/fandango/myblobbox/AbstractBLOBboxActivity.java:313-316 | null exactly when the id is null; otherwise the play prefix followed by the id |
| Activity.NonNullURL | src/com/tvblob/fandango/myblobbox/AbstractBLOBboxActivity.java:200-207 | throws `ArgoUnsupportedIntentException` exactly when `getURL` is null; otherwise the URL unchanged |
| Activity.StatusCode | src/com/tvblob/fandango/myblobbox/AbstractBLOBboxActivity.java:107-132 | one code per outcome: OK on success, a distinct code per known exception, OPERATION_FAILED for anything else |
| Activity.SetupOutcome | src/com/tvblob/fandango/myblobbox/AbstractBLOBboxActivity.java:107-110 | the operation runs only once the session is open, so a session failure is the outcome |
| Activity.BLOBboxActivity.SetupClientAndPerformOperation | src/com/tvblob/fandango/myblobbox/AbstractBLOBboxActivity.java:101-133 | exactly one code is sent: the code of the session's outcome, or of the operation when the session opened |
| Activity.SetupReportsSession | tags/release-1_1_0/src/com/tvblob/fandango/myblobbox/Constants.java:23-30 | OK exactly when validation, login and the operation succeed; device, version, communication and login failures have their own codes; never NO_DEVICE_FOUND |
| LegacyActivity.LegacyStatusCode | src/com/tvblob/fandango/myblobbox/AbstractBLOBboxActivty.java:162-194 | one code per outcome: 0 on success, REMOTE_FAIL, VERSION_FAIL, COMMS_FAIL, AUTH_FAIL, UNSUPPORTED_INTENT per exception, OPERATION_FAILED otherwise |
| LegacyActivity.LegacyCodesIdentifyOutcomes | src/com/tvblob/fandango/myblobbox/AbstractBLOBboxActivty.java:43-50 | the codes are pairwise distinct: two outcomes share a code exactly when they share a current code, and the numbers agree |
| LegacyActivity.DisplayFor | src/com/tvblob/fandango/myblobbox/AbstractBLOBboxActivty.java:85-122 | a code is shown as unexpected exactly when it is outside 0..6 |
| LegacyActivity.DisplayIsInjective | src/com/tvblob/fandango/myblobbox/AbstractBLOBboxActivty.java:85-122 | different codes reach different branches |
| LegacyActivity.DisplayMatchesOutcome | src/com/tvblob/fandango/myblobbox/AbstractBLOBboxActivty.java:85-122 | each outcome is shown by its own branch, never as unexpected |
| LegacyActivity.LegacyBLOBboxActivity.HandleMessage | src/com/tvblob/fandango/myblobbox/AbstractBLOBboxActivty.java:82-124 | every code, known or not, is shown by exactly one branch, then the activity finishes once |
| LegacyActivity.LegacyBLOBboxActivity.SetupClientAndPerformOperation | src/com/tvblob/fandango/myblobbox/AbstractBLOBboxActivty.java:162-194 | exactly one legacy code is sent, the code of the session's or the operation's outcome |

## Left out

- StringUtilities.ParseInt: ASCII decimal digits only. `Integer.parseInt` also accepts a leading '+' and non-ASCII Unicode digits, which the model rejects. A leading '-' never reaches it, because '-' separates tokens. So the model differs from the source on version strings holding such tokens: on "1.+5" the source reads the token "+5" as 5 and returns [1, 5], while the model stops at "+5" and returns [1]; a token of Arabic-Indic digits likewise parses in the source and stops the model.
- StringUtilities.IsValidHexString: recognises ASCII hex digits only. `Character.digit(c, 16)` also accepts full-width Unicode digits and letters.
- StringUtilities.NumericValue: `Character.getNumericValue` is modelled on ASCII digits and letters only; other characters give -1 here.
- Packed version order is proved only for components in 0..255 with a first component below 128, the range the source documents. Outside it the model still computes Java's wrapped `int`, but no order is claimed.
- UPnP.PacketText: the platform's default charset is taken to be ISO-8859-1, one character per byte. Android's default charset is UTF-8. The two agree on ASCII bytes (below 0x80, including the zero padding), so only a reply holding non-ASCII bytes decodes differently.
- UPnP.PacketTextDecodes: states the decoding of `UPnP.PacketText`, under the same ISO-8859-1 assumption.
- JavaStrings.Lines: `BufferedReader` over a `StringReader` cannot throw, so the `IOException` branch of `initMetaData` is not modelled.
- `getFriendlyName`, `getFriendlyNameIgnoreErrors` and `toString` of `UPnPDevice` are not modelled. They walk the DOM of the description document, which is a value the model does not look into.
- UPnP.ReadXMLDocument: opening the connection and parsing the XML are a parameter `fetch`. It decides, per URL, whether the connection is not an `HttpURLConnection` (the `ClassCastException` outcome), whether `getInputStream` throws, and what the parser gives. Which schemes give an HTTP connection is not modelled. Closing the stream and the connection is not modelled.
- UPnP.UPnPDevice.GetHost: `new URL(u).getHost()` is a parameter `urlHost`; `None` stands for a `MalformedURLException`. `Activity.YouTubeVideoID` uses the same parameter.
- SSDP: the socket is never closed in the source, and closing is not modelled. The receive timeout's length does not influence which events arrive, because the events are scripted.
- SSDP.FindBlobboxDevices: resolving the multicast address cannot fail in the model.
- Argo: the JSON-RPC and HTTP libraries are the scripted transport `JabsorbRPCClient`. `call` and `callString` are one operation, because every result the application reads is a string. JSON quoting of parameters is not modelled.
- Argo.Digest: SHA-1 of the UTF-8 encoding is the parameter `crypto.sha1`. Only its length of 20 bytes, the exact input string and the hex rendering are modelled.
- `playURI`, `browseURL` and `addDownload` of `ArgoClient` are not modelled. They are further calls with the same error wrapping as `Argo.ArgoClient.Call`.
- Logging (`Log.i`, `printStackTrace`) is not modelled. The one place where logging changes behaviour is kept: the log of a null challenge throws `NullPointerException`, see `Argo.LoginNullChallenge`.
- Activity.BLOBboxActivity.SetupClientAndPerformOperation: `performOperation` is a parameter giving its outcome, so the requests it sends on the transport are not modelled.
- LegacyActivity.LegacyBLOBboxActivity.SetupClientAndPerformOperation: the same simplification applies.
- The box address, user name and password are read from the preferences; here they are arguments. `getIP()` of the older activity is the constant `ip`.
- LegacyActivity.DisplayFor: the dialogs and toasts are the constructors of `Display`, without their texts.
- The Android user interface is not modelled: activities, dialogs, preferences, `getURL` and `getMimeType` of the intents, and the worker threads. The other activity and handler classes are not part of this model.
- A null URL passed to `getYouTubeVideoID` is caught there and gives null. The model's URLs are never null.
