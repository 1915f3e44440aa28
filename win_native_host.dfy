/** The Windows helper's end of Chrome native messaging
    (native-host-windows/TabSwitcher/NativeMessaging/NativeMessagingHost.cs):
    chunked reads from standard input, the frame reader that stops the loop at
    end of input, the JSON field extraction with System.Text.Json's throwing
    accessors, and the framed writer. */
module WinNativeHost {
  import opened Common
  import opened Wire
  import opened Framing
  import MacHost

  // ---------------------------------------------------------------- input stream

  /** Standard input: the bytes still to come, and how many bytes each of the
      next `Read` calls hands back at most (the pipe's chunking; 0, or an empty
      list, means "all that was asked for"). */
  class InputStream {
    var data: seq<byte>
    var chunking: seq<nat>

    constructor (data: seq<byte>, chunking: seq<nat>)
      ensures this.data == data && this.chunking == chunking
    {
      this.data := data;
      this.chunking := chunking;
    }

    /** Stream.Read(buffer, offset, count): copies between 1 and `count` of the
        next bytes into the buffer; 0 only at end of input. */
    method Read(buffer: array<byte>, offset: nat, count: nat) returns (read: nat)
      requires offset + count <= buffer.Length
      modifies this, buffer
      ensures read <= count && read <= |old(data)|
      ensures count > 0 && |old(data)| > 0 ==> read > 0
      ensures data == old(data)[read..]
      ensures buffer[offset..offset + read] == old(data)[..read]
      ensures forall j :: 0 <= j < buffer.Length && !(offset <= j < offset + read) ==> buffer[j] == old(buffer[j])
    {
      var n := if count < |data| then count else |data|;
      if |chunking| > 0 {
        if 0 < chunking[0] < n {
          n := chunking[0];
        }
        chunking := chunking[1..];
      }
      var i := 0;
      while i < n
        invariant 0 <= i <= n && n <= count && n <= |data| && data == old(data)
        invariant |old(data)| > 0 && count > 0 ==> n > 0
        invariant forall j :: offset <= j < offset + i ==> buffer[j] == data[j - offset]
        invariant forall j :: 0 <= j < buffer.Length && !(offset <= j < offset + i) ==> buffer[j] == old(buffer[j])
      {
        buffer[offset + i] := data[i];
        i := i + 1;
      }
      read := n;
      data := data[n..];
    }
  }

  /** ReadExact: keep reading until `count` bytes are in or the input ends. */
  method ReadExact(stream: InputStream, buffer: array<byte>, count: nat) returns (totalRead: nat)
    requires count <= buffer.Length
    modifies stream, buffer
    ensures totalRead <= count
    ensures totalRead == if count <= |old(stream.data)| then count else |old(stream.data)|
    ensures buffer[..totalRead] == old(stream.data)[..totalRead]
    ensures stream.data == old(stream.data)[totalRead..]
  {
    ghost var d0 := stream.data;
    totalRead := 0;
    while totalRead < count
      invariant totalRead <= count && totalRead <= |d0|
      invariant stream.data == d0[totalRead..]
      invariant buffer[..totalRead] == d0[..totalRead]
      decreases count - totalRead
    {
      ghost var before := buffer[..];
      var read := stream.Read(buffer, totalRead, count - totalRead);
      if read == 0 {
        return totalRead;
      }
      forall j | 0 <= j < totalRead + read
        ensures buffer[j] == d0[j]
      {
        if j < totalRead {
          assert buffer[j] == before[j];
        } else {
          assert buffer[j] == buffer[totalRead..totalRead + read][j - totalRead];
        }
      }
      totalRead := totalRead + read;
    }
  }

  // ---------------------------------------------------------------- frames

  /** What one ReadMessage call does to standard input: the payload it
      accepted, the input left, and whether it hit the end of input (which
      stops the reader and reports the extension as gone). */
  datatype CsFrame = CsFrame(payload: Option<seq<byte>>, rest: seq<byte>, endOfInput: bool)

  /** The reader's frame rule: fewer than four header bytes is the end of
      input; a length of 0 or above 10 MiB is dropped after the header; a short
      payload is dropped. A length of exactly 10 MiB is accepted. */
  function CsReadFrame(input: seq<byte>): (r: CsFrame)
    ensures |r.rest| <= |input|
    ensures r.endOfInput <==> |input| < 4
    ensures r.payload.Some? ==> 0 < |r.payload.value| <= MaxMessageLength
    ensures |input| >= 4 ==> |r.rest| < |input|
  {
    if |input| < 4 then CsFrame(None, [], true)
    else
      var length := DecodeLength(input[..4]);
      if length == 0 || length > MaxMessageLength then CsFrame(None, input[4..], false)
      else if |input| - 4 < length then CsFrame(None, [], false)
      else CsFrame(Some(input[4..4 + length]), input[4 + length..], false)
  }

  /** The reader takes back exactly what SendMessage wrote, up to and including 10 MiB. */
  lemma CsReadFrameOfSentFrame(payload: seq<byte>, rest: seq<byte>)
    requires 0 < |payload| <= MaxMessageLength
    ensures CsReadFrame(EncodeFrame(payload) + rest) == CsFrame(Some(payload), rest, false)
  {
    var input := EncodeFrame(payload) + rest;
    assert input[..4] == EncodeFrame(payload)[..4];
    assert input[4..4 + |payload|] == payload;
    assert input[4 + |payload|..] == rest;
  }

  /** The two helpers differ on a payload of exactly 10 MiB: the Windows reader
      takes it, the macOS reader drops it and reads on after its header. */
  lemma HelpersDisagreeAtTenMiB(payload: seq<byte>, rest: seq<byte>)
    requires |payload| == MaxMessageLength
    ensures CsReadFrame(EncodeFrame(payload) + rest).payload == Some(payload)
    ensures MacHost.ReadFrame(EncodeFrame(payload) + rest) == MacHost.FrameRead(None, payload + rest)
  {
    CsReadFrameOfSentFrame(payload, rest);
    var input := EncodeFrame(payload) + rest;
    assert input[..4] == EncodeFrame(payload)[..4];
    assert input[4..] == payload + rest;
  }

  /** Everywhere else the two readers accept the same frames. */
  lemma HelpersAgreeBelowTenMiB(input: seq<byte>)
    requires |input| < 4 || DecodeLength(input[..4]) != MaxMessageLength
    ensures CsReadFrame(input).payload == MacHost.ReadFrame(input).payload
    ensures CsReadFrame(input).rest == MacHost.ReadFrame(input).rest
  {
  }

  // ---------------------------------------------------------------- messages

  /** A parsed message: the action and the fields read for it. */
  datatype NativeMessage = NativeMessage(
    action: string,
    bundleId: Option<string>,
    extensionVersion: Option<string>,
    selectedIndex: Option<int>,
    url: Option<string>,
    tabs: Option<seq<TabInfo>>,
    raw: map<string, Json>)

  /** `s.Substring(s.IndexOf(',') + 1)`: the text after the first comma. */
  function AfterFirstComma(s: string): (r: string)
    requires ',' in s
    ensures |r| < |s| && r == s[|s| - |r|..] && s[|s| - |r| - 1] == ','
    ensures ',' !in s[..|s| - |r| - 1]
  {
    if s[0] == ',' then s[1..] else AfterFirstComma(s[1..])
  }

  /** One element of the `tabs` array: Absent when it is skipped (a JSON null,
      or no id or no title), Throws when an accessor throws, which abandons the
      whole message. */
  function TabOf(node: Json): (g: Got<TabInfo>)
    ensures g.Value? ==> node.JObj? && CsInt(node.fields, "id") == Value(g.v.id) &&
                         CsString(node.fields, "title") == Value(g.v.title)
  {
    match node
    case JNull => Absent
    case JObj(obj) =>
      var id := CsInt(obj, "id");
      var title := CsString(obj, "title");
      if id.Throws? || title.Throws? then Throws
      else if id.Absent? || title.Absent? then Absent
      else
        var thumbnailData := CsString(obj, "thumbnail");
        var favIconUrl := CsString(obj, "favIconUrl");
        var url := CsString(obj, "url");
        if thumbnailData.Throws? || favIconUrl.Throws? || url.Throws? then Throws
        else
          var thumbnail := if thumbnailData.Value? && ',' in thumbnailData.v then Some(AfterFirstComma(thumbnailData.v)) else None;
          Value(TabInfo(id.v, title.v, if favIconUrl.Value? then favIconUrl.v else "", thumbnail,
                        if url.Value? then url.v else ""))
    case _ => Throws
  }

  /** ParseTabs over the array's elements, in order. */
  function TabsOf(items: seq<Json>): (g: Got<seq<TabInfo>>)
    ensures g.Value? ==> |g.v| <= |items|
    ensures g.Absent? ==> false
  {
    if |items| == 0 then Value([])
    else
      var init := TabsOf(items[..|items| - 1]);
      var last := TabOf(items[|items| - 1]);
      if init.Throws? || last.Throws? then Throws
      else if last.Absent? then init
      else Value(init.v + [last.v])
  }

  /** Parsing a list of tabs is parsing its two halves: order is kept. */
  lemma {:induction false} TabsOfAppend(a: seq<Json>, b: seq<Json>)
    ensures TabsOf(a + b) == (var x := TabsOf(a); var y := TabsOf(b);
                              if x.Throws? || y.Throws? then Throws else Value(x.v + y.v))
    decreases |b|
  {
    if |b| == 0 {
      assert a + b == a;
      assert TabsOf(a).Value? ==> TabsOf(a).v + [] == TabsOf(a).v;
    } else {
      var b0 := b[..|b| - 1];
      assert (a + b)[..|a + b| - 1] == a + b0;
      assert (a + b)[|a + b| - 1] == b[|b| - 1];
      TabsOfAppend(a, b0);
      var x, y := TabsOf(a), TabsOf(b0);
      if !(x.Throws? || y.Throws?) && TabOf(b[|b| - 1]).Value? {
        assert x.v + (y.v + [TabOf(b[|b| - 1]).v]) == x.v + y.v + [TabOf(b[|b| - 1]).v];
      }
    }
  }

  /** Every tab ParseTabs keeps comes from an element with an id and a title. */
  lemma {:induction false} TabsOfKeepsOnlyIdentifiedTabs(items: seq<Json>)
    requires TabsOf(items).Value?
    ensures forall t :: t in TabsOf(items).v ==> exists k :: 0 <= k < |items| && TabOf(items[k]) == Value(t)
    decreases |items|
  {
    if |items| > 0 {
      var init := items[..|items| - 1];
      TabsOfKeepsOnlyIdentifiedTabs(init);
      forall t | t in TabsOf(items).v
        ensures exists k :: 0 <= k < |items| && TabOf(items[k]) == Value(t)
      {
        if t in TabsOf(init).v {
          var k :| 0 <= k < |init| && TabOf(init[k]) == Value(t);
          assert items[k] == init[k];
        } else {
          assert TabOf(items[|items| - 1]) == Value(t);
        }
      }
    }
  }

  /** `doc["tabs"]?.AsArray()` handed to ParseTabs: no array is no tabs. */
  function TabsField(doc: map<string, Json>): Got<seq<TabInfo>> {
    if "tabs" !in doc || doc["tabs"].JNull? then Absent
    else if doc["tabs"].JArr? then TabsOf(doc["tabs"].items)
    else Throws
  }

  function GotToOption<T>(g: Got<T>): Option<T>
    requires !g.Throws?
  {
    if g.Value? then Some(g.v) else None
  }

  /** ParseMessage on the parsed document (`None` when the text is not JSON):
      no message without an object and a string `action`; each action reads
      its own fields; any accessor that throws drops the message. */
  function ParsedMessage(doc: Option<Json>): (r: Option<NativeMessage>)
    ensures r.Some? ==> doc.Some? && doc.value.JObj? && CsString(doc.value.fields, "action") == Value(r.value.action)
    ensures r.Some? && r.value.action != "show_switcher" ==> r.value.tabs.None?
    ensures r.Some? && r.value.action != "register" ==> r.value.bundleId.None? && r.value.extensionVersion.None?
    ensures r.Some? && r.value.action !in {"show_switcher", "update_selection"} ==> r.value.selectedIndex.None?
    ensures r.Some? && r.value.action != "url_copied" ==> r.value.url.None?
  {
    if doc.None? || !doc.value.JObj? then None
    else
      var obj := doc.value.fields;
      var action := CsString(obj, "action");
      if !action.Value? then None
      else
        var base := NativeMessage(action.v, None, None, None, None, None, obj);
        match action.v
        case "show_switcher" =>
          var index := CsInt(obj, "selectedIndex");
          var tabs := TabsField(obj);
          if index.Throws? || tabs.Throws? then None
          else Some(base.(selectedIndex := GotToOption(index), tabs := GotToOption(tabs)))
        case "update_selection" =>
          var index := CsInt(obj, "selectedIndex");
          if index.Throws? then None else Some(base.(selectedIndex := GotToOption(index)))
        case "register" =>
          var bundleId := CsString(obj, "bundleId");
          var version := CsString(obj, "extensionVersion");
          if bundleId.Throws? || version.Throws? then None
          else Some(base.(bundleId := GotToOption(bundleId), extensionVersion := GotToOption(version)))
        case "url_copied" =>
          var url := CsString(obj, "url");
          if url.Throws? then None else Some(base.(url := GotToOption(url)))
        case _ => Some(base)
  }

  /** ParseTabs: the loop over the array, skipping nulls and tabs without an id
      or a title; `None` stands for the exception that abandons the message. */
  method ParseTabs(items: seq<Json>) returns (tabs: Option<seq<TabInfo>>)
    ensures TabsOf(items).Throws? <==> tabs.None?
    ensures TabsOf(items).Value? ==> tabs == Some(TabsOf(items).v)
  {
    var acc: seq<TabInfo> := [];
    var i := 0;
    while i < |items|
      invariant 0 <= i <= |items|
      invariant TabsOf(items[..i]) == Value(acc)
    {
      assert items[..i + 1][..i] == items[..i];
      var tab := TabOf(items[i]);
      if tab.Throws? {
        TabsOfAppend(items[..i + 1], items[i + 1..]);
        assert items[..i + 1] + items[i + 1..] == items;
        return None;
      }
      if tab.Value? {
        acc := acc + [tab.v];
      }
      i := i + 1;
    }
    assert items[..i] == items;
    return Some(acc);
  }

  /** ParseMessage, with ParseTabs run as a loop. */
  method ParseMessage(doc: Option<Json>) returns (r: Option<NativeMessage>)
    ensures r == ParsedMessage(doc)
  {
    if doc.None? || !doc.value.JObj? {
      return None;
    }
    var obj := doc.value.fields;
    var action := CsString(obj, "action");
    if !action.Value? {
      return None;
    }
    if action.v != "show_switcher" {
      return ParsedMessage(doc);
    }
    var index := CsInt(obj, "selectedIndex");
    if index.Throws? {
      return None;
    }
    var tabs: Option<seq<TabInfo>> := None;
    if "tabs" in obj && !obj["tabs"].JNull? {
      if !obj["tabs"].JArr? {
        return None;
      }
      var parsed := ParseTabs(obj["tabs"].items);
      if parsed.None? {
        return None;
      }
      tabs := parsed;
    }
    return Some(NativeMessage(action.v, None, None, GotToOption(index), None, tabs, obj));
  }

  /** Where the two helpers read the same tab: for an element whose fields all
      have the expected kinds, the Windows helper keeps it exactly when the
      macOS helper does, with the same id, title, icon and URL. */
  lemma HelpersAgreeOnWellTypedTab(obj: map<string, Json>)
    requires "id" in obj ==> obj["id"].JNull? || (obj["id"].JNum? && Int32Min <= obj["id"].n <= Int32Max)
    requires forall key :: key in {"title", "thumbnail", "favIconUrl", "url"} && key in obj ==> obj[key].JNull? || obj[key].JStr?
    ensures TabOf(JObj(obj)).Value? <==> MacHost.ParseTabInfo(obj).Some?
    ensures TabOf(JObj(obj)).Value? ==>
      var t, u := TabOf(JObj(obj)).v, MacHost.ParseTabInfo(obj).value;
      t.id == u.id && t.title == u.title && t.favIconUrl == u.favIconUrl && t.url == u.url
  {
    assert "title" in {"title", "thumbnail", "favIconUrl", "url"};
    assert "thumbnail" in {"title", "thumbnail", "favIconUrl", "url"};
    assert "favIconUrl" in {"title", "thumbnail", "favIconUrl", "url"};
    assert "url" in {"title", "thumbnail", "favIconUrl", "url"};
  }

  /** The tab element both helpers are given below. */
  function TwoCommaTab(): map<string, Json> {
    map["id" := JNum(5), "title" := JStr("t"), "thumbnail" := JStr("a,b,c")]
  }

  lemma WindowsSplitsAtFirstComma()
    ensures TabOf(JObj(TwoCommaTab())).Value? && TabOf(JObj(TwoCommaTab())).v.thumbnail == Some("b,c")
  {
    assert "a,b,c"[1..] == ",b,c";
    assert ",b,c"[1..] == "b,c";
  }

  lemma AfterLastCommaOfTwoCommas()
    ensures MacHost.AfterLastComma("a,b,c") == "c"
  {
    assert "a,b,c"[..4] == "a,b,";
    assert "a,b,"[..3] == "a,b";
    assert "a,b"[..2] == "a,";
  }

  lemma MacSplitsAtLastComma()
    ensures MacHost.ParseTabInfo(TwoCommaTab()).Some? && MacHost.ParseTabInfo(TwoCommaTab()).value.thumbnail == Some("c")
  {
    AfterLastCommaOfTwoCommas();
    var d := TwoCommaTab();
    assert SwString(d, "thumbnail") == Some("a,b,c");
  }

  /** ... but not the same thumbnail: a data URL with two commas. */
  lemma HelpersSplitThumbnailsDifferently()
    ensures var obj := TwoCommaTab();
      TabOf(JObj(obj)).Value? && MacHost.ParseTabInfo(obj).Some? &&
      TabOf(JObj(obj)).v.thumbnail == Some("b,c") && MacHost.ParseTabInfo(obj).value.thumbnail == Some("c")
  {
    WindowsSplitsAtFirstComma();
    MacSplitsAtLastComma();
  }

  // ---------------------------------------------------------------- host

  /** All the messages the read loop hands on, from `input` to its end;
      `decode` is the platform's UTF-8 and JSON parser. */
  function CsMessages(input: seq<byte>, decode: seq<byte> -> Option<Json>): seq<NativeMessage>
    decreases |input|
  {
    if |input| < 4 then []
    else
      var f := CsReadFrame(input);
      var m := if f.payload.Some? then ParsedMessage(decode(f.payload.value)) else None;
      (if m.Some? then [m.value] else []) + CsMessages(f.rest, decode)
  }

  class NativeMessagingHost {
    const stdin: InputStream
    var stdout: seq<byte>
    var running: bool
    /** How many times OnDisconnected has fired. */
    var disconnects: nat
    /** The messages handed to OnMessageReceived, in order. */
    var received: seq<NativeMessage>

    constructor (stdin: InputStream)
      ensures this.stdin == stdin && stdout == [] && !running && disconnects == 0 && received == []
    {
      this.stdin := stdin;
      stdout := [];
      running := false;
      disconnects := 0;
      received := [];
    }

    method Start()
      modifies this`running
      ensures running
    {
      running := true;
    }

    method Stop()
      modifies this`running
      ensures !running
    {
      running := false;
    }

    /** SendMessage: the header and the serialized bytes go out together. */
    method SendMessage(json: seq<byte>)
      requires |json| < TwoTo32
      modifies this`stdout
      ensures stdout == old(stdout) + EncodeFrame(json)
    {
      var lengthBytes := LengthPrefix(|json|);
      stdout := stdout + lengthBytes + json;
      assert old(stdout) + lengthBytes + json == old(stdout) + (lengthBytes + json);
    }

    /** ReadMessage: one frame off standard input. End of input stops the
        loop and reports the disconnect; a bad length or short payload does not. */
    method ReadMessage(decode: seq<byte> -> Option<Json>) returns (message: Option<NativeMessage>)
      modifies this`running, this`disconnects, stdin
      ensures var f := CsReadFrame(old(stdin.data));
        stdin.data == f.rest &&
        running == (old(running) && !f.endOfInput) &&
        disconnects == old(disconnects) + (if f.endOfInput then 1 else 0) &&
        message == (if f.payload.Some? then ParsedMessage(decode(f.payload.value)) else None)
    {
      ghost var input := stdin.data;
      var lengthBuffer := new byte[4];
      var bytesRead := ReadExact(stdin, lengthBuffer, 4);
      if bytesRead < 4 {
        running := false;
        disconnects := disconnects + 1;
        return None;
      }
      assert lengthBuffer[..] == input[..4];
      var length := DecodeLength(lengthBuffer[..]);
      if length == 0 || length > MaxMessageLength {
        return None;
      }
      var messageBuffer := new byte[length];
      bytesRead := ReadExact(stdin, messageBuffer, length);
      if bytesRead < length {
        return None;
      }
      assert messageBuffer[..] == messageBuffer[..length];
      assert input[4..][..length] == input[4..4 + length];
      assert input[4..][length..] == input[4 + length..];
      message := ParseMessage(decode(messageBuffer[..]));
    }

    /** ReadLoop: read until end of input, handing each parsed message on. */
    method ReadLoop(decode: seq<byte> -> Option<Json>)
      modifies this`running, this`disconnects, this`received, stdin
      ensures old(running) ==> !running && disconnects == old(disconnects) + 1 &&
                               received == old(received) + CsMessages(old(stdin.data), decode) &&
                               stdin.data == []
      ensures !old(running) ==> received == old(received) && disconnects == old(disconnects) && stdin.data == old(stdin.data)
    {
      if !running {
        return;
      }
      ghost var input := stdin.data;
      while running
        invariant received + CsMessages(stdin.data, decode) == old(received) + CsMessages(input, decode)
        invariant running ==> disconnects == old(disconnects)
        invariant !running ==> disconnects == old(disconnects) + 1 && stdin.data == []
        decreases running, |stdin.data|
      {
        ghost var before := stdin.data;
        var message := ReadMessage(decode);
        if message.Some? {
          received := received + [message.value];
        }
        assert |before| >= 4 ==> CsMessages(before, decode) == (if message.Some? then [message.value] else []) + CsMessages(stdin.data, decode);
      }
    }
  }
}
