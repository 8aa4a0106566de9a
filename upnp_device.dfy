/** A UPnP device as SSDP discovery sees it: the header map of its search reply,
    parsed once, and a fill-once cache for its XML description document. */
module UPnP {
  import opened Wrappers
  import opened JavaInt
  import opened JavaStrings

  const BLOBBOX_PREFIX: string := "uuid:blobbox-"
  const LOCATION_FIELD: string := "LOCATION"
  const USN_FIELD: string := "USN"

  /** A `java.io.IOException`. */
  datatype IOException = IOException

  /* ------------------------------------------------------------- reply headers */

  /** The map entry a reply line contributes: the text before its first ':', as is,
      and the trimmed text after it. A line without ':' contributes nothing. */
  function HeaderEntry(line: string): (e: Option<(string, string)>)
    ensures e.None? <==> ':' !in line
  {
    var index := IndexOf(line, ':');
    if index >= 0 && index < |line| then Some((line[..index], Trim(line[index + 1..])))
    else None
  }

  /** An entry's key is the colon-free text in front of the line's first ':', and its
      value is the trimmed rest of the line after that ':'. */
  lemma HeaderEntryMeaning(line: string)
    requires ':' in line
    ensures var e := HeaderEntry(line); var key := e.value.0;
      |key| < |line| && line[..|key|] == key && line[|key|] == ':' && ':' !in key &&
      e.value.1 == Trim(line[|key| + 1..])
  {
  }

  /** Whether `e` is an entry under `key`. */
  predicate IsEntryFor(e: Option<(string, string)>, key: string) {
    e.Some? && e.value.0 == key
  }

  /** The entries of the lines, one per line. */
  function Entries(lines: seq<string>): (es: seq<Option<(string, string)>>)
    ensures |es| == |lines| && forall i :: 0 <= i < |lines| ==> es[i] == HeaderEntry(lines[i])
  {
    seq(|lines|, i requires 0 <= i < |lines| => HeaderEntry(lines[i]))
  }

  /** `map.put` of one entry, if there is one. */
  function Put(m: map<string, string>, e: Option<(string, string)>): map<string, string> {
    match e
    case None => m
    case Some(kv) => m[kv.0 := kv.1]
  }

  /** The map after `put`-ting the entries in order into an empty map. */
  function PutAll(es: seq<Option<(string, string)>>): map<string, string> {
    if es == [] then map[] else Put(PutAll(es[..|es| - 1]), es[|es| - 1])
  }

  /** The metadata map `initMetaData` builds from a whole reply. */
  function MetaData(reply: string): map<string, string> {
    PutAll(Entries(Lines(reply)))
  }

  /** A key is present iff some entry carries it. */
  lemma {:induction false} PutAllKeys(es: seq<Option<(string, string)>>, key: string)
    ensures key in PutAll(es) <==> exists i :: 0 <= i < |es| && IsEntryFor(es[i], key)
    decreases |es|
  {
    if es != [] {
      var n := |es| - 1;
      PutAllKeys(es[..n], key);
      assert forall i :: 0 <= i < n ==> es[i] == es[..n][i];
    }
  }

  /** A present key has the value of the LAST entry carrying it: later lines
      overwrite earlier ones. */
  lemma {:induction false} PutAllLastWins(es: seq<Option<(string, string)>>, key: string)
    requires key in PutAll(es)
    ensures exists i :: 0 <= i < |es| && es[i] == Some((key, PutAll(es)[key])) &&
                        (forall j :: i < j < |es| ==> !IsEntryFor(es[j], key))
    decreases |es|
  {
    var n := |es| - 1;
    if IsEntryFor(es[n], key) {
      assert es[n] == Some((key, PutAll(es)[key]));
    } else {
      var init := es[..n];
      assert PutAll(es) == Put(PutAll(init), es[n]);
      assert key in PutAll(init) && PutAll(es)[key] == PutAll(init)[key];
      PutAllLastWins(init, key);
      var i :| 0 <= i < n && init[i] == Some((key, PutAll(init)[key])) &&
        forall j :: i < j < n ==> !IsEntryFor(init[j], key);
      assert es[i] == init[i];
      assert forall j :: i < j < n ==> es[j] == init[j];
    }
  }

  /** The last line wins when a key repeats. */
  lemma LastEntryWins(es: seq<Option<(string, string)>>, key: string, value: string)
    ensures PutAll(es + [Some((key, value))])[key] == value
  {
    assert (es + [Some((key, value))])[..|es|] == es;
  }

  /** The first ':' of `key + ": " + value` is the one after `key`, when `key` has none. */
  lemma FirstColon(key: string, value: string)
    requires ':' !in key
    ensures IndexOf(key + ": " + value, ':') == |key|
  {
    var line := key + ": " + value;
    assert line[|key|] == ':';
  }

  /** A line `key: value` with a colon-free key and an already trimmed value maps
      `key` to the whole value, colons included. */
  lemma FieldLine(key: string, value: string)
    requires ':' !in key
    requires value != [] && !IsTrimmable(value[0]) && !IsTrimmable(value[|value| - 1])
    ensures HeaderEntry(key + ": " + value) == Some((key, value))
  {
    var line := key + ": " + value;
    FirstColon(key, value);
    assert line[..|key|] == key;
    assert line[|key| + 1..] == [' '] + value;
    TrimSpaced(value);
  }

  const SAMPLE_LOCATION: string := "http://192.168.1.94:49152/description.xml"

  /** The LOCATION line of a BLOBbox reply keeps the colons of its URL. */
  lemma LocationKeepsColons()
    ensures HeaderEntry(LOCATION_FIELD + ": " + SAMPLE_LOCATION) == Some((LOCATION_FIELD, SAMPLE_LOCATION))
  {
    FieldLine(LOCATION_FIELD, SAMPLE_LOCATION);
  }

  /** `map.put` of a line's entry, spelled out. */
  lemma PutLine(m: map<string, string>, line: string)
    ensures var index := IndexOf(line, ':');
      Put(m, HeaderEntry(line)) ==
        if index >= 0 && index < |line| then m[line[..index] := Trim(line[index + 1..])] else m
  {
    PutAt(m, line, IndexOf(line, ':'));
  }

  lemma PutAt(m: map<string, string>, line: string, index: int)
    ensures Put(m, if index >= 0 && index < |line| then Some((line[..index], Trim(line[index + 1..]))) else None) ==
            if index >= 0 && index < |line| then m[line[..index] := Trim(line[index + 1..])] else m
  {
  }

  /** One more line read: its entry, if any, is put into the map built so far. */
  lemma PutAllStep(lines: seq<string>, i: nat)
    requires i < |lines|
    ensures PutAll(Entries(lines)[..i + 1]) == Put(PutAll(Entries(lines)[..i]), HeaderEntry(lines[i]))
  {
    var es := Entries(lines);
    assert es[..i + 1][..i] == es[..i];
  }

  /** `initMetaData`: reads the reply line by line and builds the metadata map. */
  method InitMetaData(reply: string) returns (map_: map<string, string>)
    ensures map_ == MetaData(reply)
  {
    map_ := PutLines(Lines(reply));
  }

  /** The `readLine` loop of `initMetaData`: each line with a ':' puts its entry. */
  method PutLines(lines: seq<string>) returns (map_: map<string, string>)
    ensures map_ == PutAll(Entries(lines))
  {
    map_ := map[];
    var i := 0;
    assert Entries(lines)[..0] == [];
    while i < |lines|
      invariant 0 <= i <= |lines|
      invariant map_ == PutAll(Entries(lines)[..i])
    {
      var line := lines[i];
      var index := IndexOf(line, ':');
      PutAllStep(lines, i);
      ghost var before := map_;
      if index >= 0 && index < |line| {
        map_ := map_[line[..index] := Trim(line[index + 1..])];
      }
      PutLine(before, line);
      i := i + 1;
    }
    assert Entries(lines)[..i] == Entries(lines);
  }

  /** `isBlobbox` on a metadata map: a USN field that starts with the BLOBbox prefix. */
  predicate IsBlobboxMeta(m: map<string, string>) {
    USN_FIELD in m && StartsWith(m[USN_FIELD], BLOBBOX_PREFIX)
  }

  /** `new String(buf)` on the received buffer: each byte decoded as the character
      with that code. */
  function PacketText(data: seq<byte>): string {
    seq(|data|, i requires 0 <= i < |data| => data[i] as char)
  }

  /** Each byte becomes the one character with that code. */
  lemma PacketTextDecodes(data: seq<byte>)
    ensures |PacketText(data)| == |data| && forall i :: 0 <= i < |data| ==> PacketText(data)[i] as int == data[i]
  {
  }

  /* ------------------------------------------------------- description cache */

  /** The parsed description document, represented by the text it was parsed from. */
  datatype Document = Document(xml: string)

  /** What opening and parsing the LOCATION URL gives: a connection that is not an
      `HttpURLConnection` (a scheme other than http or https), an `IOException` from
      `getInputStream`, or the parser's result (`None` for a SAX or parser configuration
      error, which `readXMLDocument` turns into null). */
  datatype Fetch = NotHttp | FetchFailed | Parsed(doc: Option<Document>)

  /** What `readXMLDocument` throws: the `IOException` of `getInputStream`, or the
      unchecked `ClassCastException` of the cast to `HttpURLConnection`. */
  datatype ReadError = ReadIOException | ClassCastException

  /** `readXMLDocument`: null without a LOCATION or when it is not a URL (`urlHost`
      gives `None`); a `ClassCastException` when its connection is not HTTP; otherwise
      the fetch's document, or its `IOException`. */
  function ReadXMLDocument(meta: map<string, string>, urlHost: string -> Option<string>,
                           fetch: string -> Fetch): (r: Result<Option<Document>, ReadError>)
    ensures r == Failure(ClassCastException) <==>
      LOCATION_FIELD in meta && urlHost(meta[LOCATION_FIELD]).Some? && fetch(meta[LOCATION_FIELD]).NotHttp?
    ensures r == Failure(ReadIOException) <==>
      LOCATION_FIELD in meta && urlHost(meta[LOCATION_FIELD]).Some? && fetch(meta[LOCATION_FIELD]).FetchFailed?
    ensures r.Success? && r.value.Some? ==>
      LOCATION_FIELD in meta && urlHost(meta[LOCATION_FIELD]).Some? &&
      fetch(meta[LOCATION_FIELD]) == Parsed(r.value)
  {
    if LOCATION_FIELD !in meta then Success(None)
    else
      var url := meta[LOCATION_FIELD];
      if urlHost(url).None? then Success(None)
      else match fetch(url)
        case NotHttp => Failure(ClassCastException)
        case FetchFailed => Failure(ReadIOException)
        case Parsed(d) => Success(d)
  }

  /** The URLs `readXMLDocument` opens: the LOCATION, when it is a URL. */
  function Opened(meta: map<string, string>, urlHost: string -> Option<string>): (urls: seq<string>)
    ensures |urls| <= 1
    ensures urls != [] ==> LOCATION_FIELD in meta && urls == [meta[LOCATION_FIELD]]
  {
    if LOCATION_FIELD in meta && urlHost(meta[LOCATION_FIELD]).Some? then [meta[LOCATION_FIELD]] else []
  }

  /** One `getXMLDescription` call on a cache holding `cached`: the result and the
      new cache content. */
  function Describe(cached: Option<Document>, meta: map<string, string>,
                    urlHost: string -> Option<string>, fetch: string -> Fetch)
    : (r: (Result<Option<Document>, ReadError>, Option<Document>))
    ensures cached.Some? ==> r == (Success(cached), cached)
    ensures cached.None? ==> r.0 == ReadXMLDocument(meta, urlHost, fetch)
    ensures r.0.Success? ==> r.1 == r.0.value
    ensures r.0.Failure? ==> r.1 == None
  {
    if cached.Some? then (Success(cached), cached)
    else
      var read := ReadXMLDocument(meta, urlHost, fetch);
      (read, if read.Success? then read.value else None)
  }

  /** The cache fills once: after a call has produced a document, every later call
      returns that same document and opens nothing, whatever the network does. */
  lemma CacheFillsOnce(cached: Option<Document>, meta: map<string, string>,
                       urlHost: string -> Option<string>, fetch1: string -> Fetch,
                       fetch2: string -> Fetch)
    requires Describe(cached, meta, urlHost, fetch1).1.Some?
    ensures var d := Describe(cached, meta, urlHost, fetch1).1;
      Describe(d, meta, urlHost, fetch2) == (Success(d), d) &&
      Describe(cached, meta, urlHost, fetch1).0 == Success(d)
  {
  }

  /** A read that yields null or throws leaves the cache empty, so the next call
      reads again; only a document fills it. */
  lemma EmptyCacheRefills(meta: map<string, string>, urlHost: string -> Option<string>,
                          fetch: string -> Fetch)
    ensures Describe(None, meta, urlHost, fetch).1.None? <==>
      !(ReadXMLDocument(meta, urlHost, fetch).Success? && ReadXMLDocument(meta, urlHost, fetch).value.Some?)
  {
  }

  class UPnPDevice {
    /** The reply headers, name to value; never changed after construction. */
    const metaData: map<string, string>
    /** The cached description document (null until a read produced one). */
    var doc: Option<Document>
    /** The URLs opened so far to read the description. */
    ghost var connections: seq<string>

    /** `UPnPDevice(String reply)`. */
    constructor (reply: string)
      ensures metaData == MetaData(reply) && doc == None && connections == []
    {
      var m := InitMetaData(reply);
      metaData := m;
      doc := None;
      connections := [];
    }

    /** `UPnPDevice(DatagramPacket reply)`: the text of the packet's whole buffer. */
    constructor FromPacket(data: seq<byte>)
      ensures metaData == MetaData(PacketText(data)) && doc == None && connections == []
    {
      var m := InitMetaData(PacketText(data));
      metaData := m;
      doc := None;
      connections := [];
    }

    /** `getField`: the value stored for `name`, or null. */
    function GetField(name: string): (r: Option<string>)
      ensures r.Some? <==> name in metaData
      ensures r.Some? ==> r.value == metaData[name]
    {
      if name in metaData then Some(metaData[name]) else None
    }

    function IsBlobbox(): (b: bool)
      ensures b <==> GetField(USN_FIELD).Some? && StartsWith(GetField(USN_FIELD).value, BLOBBOX_PREFIX)
    {
      IsBlobboxMeta(metaData)
    }

    function GetLocationURL(): (r: Option<string>)
      ensures r == GetField(LOCATION_FIELD)
    {
      GetField(LOCATION_FIELD)
    }

    /** `getHost`: the host of the LOCATION URL; null when LOCATION is absent or is
        not a URL. `urlHost` stands for `new URL(u).getHost()`, `None` for a
        `MalformedURLException`. */
    function GetHost(urlHost: string -> Option<string>): (r: Option<string>)
      ensures r.None? <==> GetLocationURL().None? || urlHost(GetLocationURL().value).None?
      ensures r.Some? ==> r == urlHost(GetLocationURL().value)
    {
      match GetLocationURL()
      case None => None
      case Some(url) => urlHost(url)
    }

    /** `getXMLDescription`: reads the document only while none is cached. */
    method GetXMLDescription(urlHost: string -> Option<string>, fetch: string -> Fetch)
      returns (r: Result<Option<Document>, ReadError>)
      modifies this
      ensures (r, doc) == Describe(old(doc), metaData, urlHost, fetch)
      ensures connections == old(connections) + (if old(doc).None? then Opened(metaData, urlHost) else [])
    {
      if doc.None? {
        var url := GetLocationURL();
        if url.None? {
          r := Success(None);
        } else if urlHost(url.value).None? {
          r := Success(None);
        } else {
          connections := connections + [url.value];
          match fetch(url.value)
          case NotHttp =>
            r := Failure(ClassCastException);
          case FetchFailed =>
            r := Failure(ReadIOException);
          case Parsed(d) =>
            doc := d;
            r := Success(d);
        }
      } else {
        r := Success(doc);
      }
    }
  }

  /** No line after line `i` has an entry for `name`. */
  predicate NoLaterEntry(lines: seq<string>, i: nat, name: string) {
    forall j :: i < j < |lines| ==> !IsEntryFor(HeaderEntry(lines[j]), name)
  }

  /** Some line has an entry for `name`. */
  predicate HasEntryFor(lines: seq<string>, name: string) {
    exists i :: 0 <= i < |lines| && IsEntryFor(HeaderEntry(lines[i]), name)
  }

  /** The last line with an entry for `name` maps it to `value`. */
  predicate LastEntryIs(lines: seq<string>, name: string, value: string) {
    exists i :: 0 <= i < |lines| && HeaderEntry(lines[i]) == Some((name, value)) && NoLaterEntry(lines, i, name)
  }

  /** What `getField` returns for a device built from `reply`: the trimmed text after
      the first ':' of the last reply line whose text before that ':' is `name`. */
  lemma FieldOfReply(d: UPnPDevice, reply: string, name: string)
    requires d.metaData == MetaData(reply)
    ensures d.GetField(name).Some? <==> HasEntryFor(Lines(reply), name)
    ensures d.GetField(name).Some? ==> LastEntryIs(Lines(reply), name, d.GetField(name).value)
  {
    FieldOfLines(Lines(reply), name);
  }

  /** `FieldOfReply`, on the lines of the reply. */
  lemma FieldOfLines(lines: seq<string>, name: string)
    ensures var m := PutAll(Entries(lines));
      (name in m <==> HasEntryFor(lines, name)) && (name in m ==> LastEntryIs(lines, name, m[name]))
  {
    var es := Entries(lines);
    PutAllKeys(es, name);
    if name in PutAll(es) {
      PutAllLastWins(es, name);
      var i :| 0 <= i < |es| && es[i] == Some((name, PutAll(es)[name])) &&
        forall j :: i < j < |es| ==> !IsEntryFor(es[j], name);
      assert HeaderEntry(lines[i]) == es[i];
      forall j | i < j < |lines|
        ensures !IsEntryFor(HeaderEntry(lines[j]), name)
      {
        assert es[j] == HeaderEntry(lines[j]);
      }
      assert NoLaterEntry(lines, i, name);
    } else {
      forall i | 0 <= i < |lines|
        ensures !IsEntryFor(HeaderEntry(lines[i]), name)
      {
        assert es[i] == HeaderEntry(lines[i]);
      }
    }
  }
}
