/** Named-pipe messaging between the Windows helper's instances
    (native-host-windows/TabSwitcher/IPC/InstanceCommunication.cs). The leader
    runs the pipe server and relays every line it receives to its other
    clients; followers write to the leader. A line is a JSON object whose
    `type` names the event. */
module InstanceCommunication {
  import opened Common
  import opened Wire

  /** The events the instances exchange, with their arguments. */
  datatype IpcEvent =
    | CtrlTabEvent(direction: string, showUI: bool, combineWindows: bool, targetBrowser: string)
    | CtrlReleaseEvent(targetBrowser: string)
    | RequestShowUIEvent(combineWindows: bool, targetBrowser: string)
    | CopyUrlEvent(targetBrowser: string)
    | ShortcutsChangedEvent
    | LeaderResignedEvent
    | ShowConfigEvent

  /** The events that have a Post method; the others are only ever received
      (`leaderResigned` is sent by Stop, `showConfig` by no code in the helper). */
  predicate Postable(e: IpcEvent) {
    !e.LeaderResignedEvent? && !e.ShowConfigEvent?
  }

  /** The object the source serialises for an event. */
  function Encode(e: IpcEvent): (doc: Json)
    ensures doc.JObj? && "type" in doc.fields
  {
    match e
    case CtrlTabEvent(d, s, c, t) =>
      JObj(map["type" := JStr("ctrlTab"), "direction" := JStr(d), "showUI" := JBool(s),
               "combineWindows" := JBool(c), "targetBrowser" := JStr(t)])
    case CtrlReleaseEvent(t) => JObj(map["type" := JStr("ctrlRelease"), "targetBrowser" := JStr(t)])
    case RequestShowUIEvent(c, t) =>
      JObj(map["type" := JStr("requestShowUI"), "combineWindows" := JBool(c), "targetBrowser" := JStr(t)])
    case CopyUrlEvent(t) => JObj(map["type" := JStr("copyUrl"), "targetBrowser" := JStr(t)])
    case ShortcutsChangedEvent => JObj(map["type" := JStr("shortcutsChanged")])
    case LeaderResignedEvent => JObj(map["type" := JStr("leaderResigned")])
    case ShowConfigEvent => JObj(map["type" := JStr("showConfig")])
  }

  /** One line read from a pipe: a JSON document, or text that does not parse. */
  datatype Line = JsonLine(doc: Json) | Unparsable

  /** `node?.GetValue<T>() ?? default`: None stands for the exception. */
  function OrDefault<T>(g: Got<T>, default: T): (r: Option<T>)
    ensures r.None? <==> g.Throws?
  {
    match g
    case Absent => Some(default)
    case Value(v) => Some(v)
    case Throws => None
  }

  /** HandleReceivedMessage: the event a line raises, if any. A line that does
      not parse, is not an object, has a `type` that is not a string or names
      no event, or holds a field of the wrong kind raises nothing (the
      exception is logged); missing fields take the defaults "" and false. */
  function Dispatch(line: Line): (r: Option<IpcEvent>)
    ensures r.Some? ==> line.JsonLine? && line.doc.JObj? && CsString(line.doc.fields, "type").Value?
  {
    if line.Unparsable? || !line.doc.JObj? then None
    else
      var f := line.doc.fields;
      match CsString(f, "type")
      case Value(t) =>
        var direction := OrDefault(CsString(f, "direction"), "");
        var showUI := OrDefault(CsBool(f, "showUI"), false);
        var combine := OrDefault(CsBool(f, "combineWindows"), false);
        var target := OrDefault(CsString(f, "targetBrowser"), "");
        if t == "ctrlTab" then
          if direction.Some? && showUI.Some? && combine.Some? && target.Some?
          then Some(CtrlTabEvent(direction.value, showUI.value, combine.value, target.value))
          else None
        else if t == "ctrlRelease" then
          if target.Some? then Some(CtrlReleaseEvent(target.value)) else None
        else if t == "requestShowUI" then
          if combine.Some? && target.Some? then Some(RequestShowUIEvent(combine.value, target.value)) else None
        else if t == "copyUrl" then
          if target.Some? then Some(CopyUrlEvent(target.value)) else None
        else if t == "shortcutsChanged" then Some(ShortcutsChangedEvent)
        else if t == "leaderResigned" then Some(LeaderResignedEvent)
        else if t == "showConfig" then Some(ShowConfigEvent)
        else None
      case _ => None
  }

  /** Every event survives being written as a line and read back. */
  lemma DispatchOfEncoded(e: IpcEvent)
    ensures Dispatch(JsonLine(Encode(e))) == Some(e)
  {
  }

  /** The `type` values HandleReceivedMessage has a case for. */
  const EventTypes: set<string> :=
    {"ctrlTab", "ctrlRelease", "requestShowUI", "copyUrl", "shortcutsChanged", "leaderResigned", "showConfig"}

  /** Lines that do not parse, are not objects, lack a string `type`, or
      whose `type` names no event raise nothing; a line that raises an event
      names one of the known types. */
  lemma DispatchIgnoresUnknown(line: Line)
    ensures (line.Unparsable? || !line.doc.JObj? || !CsString(line.doc.fields, "type").Value? ||
             CsString(line.doc.fields, "type").v !in EventTypes) ==> Dispatch(line) == None
    ensures Dispatch(line).Some? ==> CsString(line.doc.fields, "type").v in EventTypes
  {
  }

  /** A `ctrlTab` object raises the event exactly when none of its four
      fields holds a value of the wrong kind; then each missing (or null)
      string is "" and each missing boolean false, and each present field is
      taken as it is. */
  lemma DispatchDefaults(f: map<string, Json>)
    requires CsString(f, "type") == Value("ctrlTab")
    ensures Dispatch(JsonLine(JObj(f))).None? <==>
      CsString(f, "direction").Throws? || CsBool(f, "showUI").Throws? ||
      CsBool(f, "combineWindows").Throws? || CsString(f, "targetBrowser").Throws?
    ensures Dispatch(JsonLine(JObj(f))).Some? ==>
      var e := Dispatch(JsonLine(JObj(f))).value;
      e.CtrlTabEvent? &&
      (if "direction" in f && f["direction"].JStr? then e.direction == f["direction"].s else e.direction == "") &&
      (if "showUI" in f && f["showUI"].JBool? then e.showUI == f["showUI"].b else !e.showUI) &&
      (if "combineWindows" in f && f["combineWindows"].JBool? then e.combineWindows == f["combineWindows"].b else !e.combineWindows) &&
      (if "targetBrowser" in f && f["targetBrowser"].JStr? then e.targetBrowser == f["targetBrowser"].s else e.targetBrowser == "")
    ensures Dispatch(JsonLine(JObj(map["type" := JStr("ctrlTab")]))) == Some(CtrlTabEvent("", false, false, ""))
  {
    var f0 := map["type" := JStr("ctrlTab")];
    assert CsString(f0, "type") == Value("ctrlTab");
    assert "direction" !in f0 && "showUI" !in f0 && "combineWindows" !in f0 && "targetBrowser" !in f0;
  }

  /** One server-side pipe connection: whether the client is still connected
      and the lines written to it. */
  datatype Conn = Conn(connected: bool, written: seq<Line>)

  /** What BroadcastMessage does to connection i. */
  function Deliver(c: Conn, i: nat, line: Line, exclude: Option<nat>): Conn {
    if exclude == Some(i) || !c.connected then c else c.(written := c.written + [line])
  }

  /** BroadcastMessage over all connections: write the line to each connected
      client except the excluded one (write errors are swallowed). */
  function Broadcast(conns: seq<Conn>, line: Line, exclude: Option<nat>): (r: seq<Conn>)
    ensures |r| == |conns|
  {
    seq(|conns|, i requires 0 <= i < |conns| => Deliver(conns[i], i, line, exclude))
  }

  /** A broadcast appends the line exactly once to every connected client but
      the excluded one, leaves the rest untouched, and disconnects nobody. */
  lemma BroadcastReachesConnectedOthers(conns: seq<Conn>, line: Line, exclude: Option<nat>, i: nat)
    requires i < |conns|
    ensures Broadcast(conns, line, exclude)[i].connected == conns[i].connected
    ensures conns[i].connected && exclude != Some(i) ==> Broadcast(conns, line, exclude)[i].written == conns[i].written + [line]
    ensures !conns[i].connected || exclude == Some(i) ==> Broadcast(conns, line, exclude)[i] == conns[i]
  {
  }

  /** Relaying a follower's event: every other connected client receives one
      line, and reading that line raises the same event; the sender gets
      nothing back. */
  lemma RelayRaisesSameEventElsewhere(conns: seq<Conn>, e: IpcEvent, from: nat, i: nat)
    requires from < |conns| && i < |conns|
    ensures var r := Broadcast(conns, JsonLine(Encode(e)), Some(from));
      (i != from && conns[i].connected ==>
        |r[i].written| == |conns[i].written| + 1 && r[i].written[..|conns[i].written|] == conns[i].written &&
        Dispatch(r[i].written[|conns[i].written|]) == Some(e)) &&
      (i == from ==> r[i] == conns[i])
  {
    var r := Broadcast(conns, JsonLine(Encode(e)), Some(from));
    if i != from && conns[i].connected {
      assert r[i].written == conns[i].written + [JsonLine(Encode(e))];
      DispatchOfEncoded(e);
    }
  }

  /** The instance's IPC endpoint. */
  class InstanceCommunication {
    const isLeader: bool
    /** `_cts` has been cancelled. */
    var cancelled: bool
    /** The leader's server connections, in the order they were accepted. */
    var connections: seq<Conn>
    /** A follower's pipe to the leader is connected. */
    var clientConnected: bool
    /** A follower has created its writer (it connected at least once). */
    var hasClientWriter: bool
    /** Lines a follower wrote to the leader. */
    var toLeader: seq<Line>
    /** Events raised to this instance's handlers, in order. */
    var handled: seq<IpcEvent>

    constructor (isLeader: bool)
      ensures this.isLeader == isLeader && !cancelled && connections == [] && !clientConnected
      ensures !hasClientWriter && toLeader == [] && handled == []
    {
      this.isLeader := isLeader;
      cancelled := false;
      connections := [];
      clientConnected := false;
      hasClientWriter := false;
      toLeader := [];
      handled := [];
    }

    /** BroadcastMessage: one write per connection, in order. */
    method BroadcastMessage(line: Line, exclude: Option<nat>)
      modifies this`connections
      ensures connections == Broadcast(old(connections), line, exclude)
    {
      ghost var start := connections;
      var i := 0;
      while i < |connections|
        invariant 0 <= i <= |connections| == |start|
        invariant forall j :: 0 <= j < i ==> connections[j] == Deliver(start[j], j, line, exclude)
        invariant forall j :: i <= j < |connections| ==> connections[j] == start[j]
      {
        var c := connections[i];
        if exclude != Some(i) && c.connected {
          connections := connections[i := c.(written := c.written + [line])];
        }
        i := i + 1;
      }
      assert forall j :: 0 <= j < |start| ==> connections[j] == Broadcast(start, line, exclude)[j];
    }

    /** HandleReceivedMessage: raise the line's event, if it has one. */
    method HandleReceivedMessage(line: Line)
      modifies this`handled
      ensures handled == old(handled) + (if Dispatch(line).Some? then [Dispatch(line).value] else [])
    {
      var e := Dispatch(line);
      if e.Some? {
        handled := handled + [e.value];
      }
    }

    /** SendToLeader: written only while the follower's writer exists and its
        pipe is connected; otherwise the event is dropped. */
    method SendToLeader(e: IpcEvent)
      modifies this`toLeader
      ensures toLeader == old(toLeader) + (if hasClientWriter && clientConnected then [JsonLine(Encode(e))] else [])
    {
      if hasClientWriter && clientConnected {
        toLeader := toLeader + [JsonLine(Encode(e))];
      }
    }

    /** The effect of posting `e`: the leader broadcasts the event to its
        clients and raises it locally; a follower writes it to the leader
        when it can and does not raise it. */
    twostate predicate PostedOnce(e: IpcEvent)
      reads this
    {
      (isLeader ==> connections == Broadcast(old(connections), JsonLine(Encode(e)), None) &&
                    handled == old(handled) + [e] && toLeader == old(toLeader)) &&
      (!isLeader ==> connections == old(connections) && handled == old(handled) &&
                     toLeader == old(toLeader) + (if hasClientWriter && clientConnected then [JsonLine(Encode(e))] else []))
    }

    /** PostCtrlTab, PostCtrlRelease, PostRequestShowUI, PostCopyUrl and
        PostShortcutsChanged. */
    method Post(e: IpcEvent)
      requires Postable(e)
      modifies this`connections, this`handled, this`toLeader
      ensures PostedOnce(e)
    {
      if isLeader {
        BroadcastMessage(JsonLine(Encode(e)), None);
        handled := handled + [e];
      } else {
        SendToLeader(e);
      }
    }

    /** RunServer, one iteration: a client connects to the leader's pipe. */
    method AcceptClient()
      requires isLeader && !cancelled
      modifies this`connections
      ensures connections == old(connections) + [Conn(true, [])]
    {
      connections := connections + [Conn(true, [])];
    }

    /** A client's pipe breaks; writes to it are skipped from then on. */
    method ClientDisconnects(i: nat)
      requires i < |connections|
      modifies this`connections
      ensures connections == old(connections)[i := old(connections)[i].(connected := false)]
    {
      connections := connections[i := connections[i].(connected := false)];
    }

    /** HandleServerClient, one line read from connection `from`: the leader
        raises its event and relays the raw line to every other client. */
    method ServerReceivedLine(from: nat, line: Line)
      requires isLeader && from < |connections| && connections[from].connected
      modifies this`connections, this`handled
      ensures handled == old(handled) + (if Dispatch(line).Some? then [Dispatch(line).value] else [])
      ensures connections == Broadcast(old(connections), line, Some(from))
    {
      HandleReceivedMessage(line);
      BroadcastMessage(line, Some(from));
    }

    /** ConnectAsClient: a follower connects to the leader and creates its writer. */
    method ConnectToLeader()
      requires !isLeader && !cancelled
      modifies this`clientConnected, this`hasClientWriter
      ensures clientConnected && hasClientWriter
    {
      clientConnected := true;
      hasClientWriter := true;
    }

    /** The leader's end of a follower's pipe goes away. */
    method LeaderGone()
      modifies this`clientConnected
      ensures !clientConnected
    {
      clientConnected := false;
    }

    /** ConnectAsClient's read loop, one line: a follower raises its event. */
    method ClientReceivedLine(line: Line)
      requires !isLeader && clientConnected
      modifies this`handled
      ensures handled == old(handled) + (if Dispatch(line).Some? then [Dispatch(line).value] else [])
    {
      HandleReceivedMessage(line);
    }

    /** Stop: cancel, let a leader tell every connected client that it
        resigns, then close the client pipe and every server connection. */
    method Stop()
      modifies this`cancelled, this`connections, this`clientConnected
      ensures cancelled && !clientConnected && |connections| == |old(connections)|
      ensures forall i :: 0 <= i < |connections| ==> !connections[i].connected
      ensures forall i :: 0 <= i < |connections| ==>
        connections[i].written == old(connections)[i].written +
          (if isLeader && old(connections)[i].connected then [JsonLine(Encode(LeaderResignedEvent))] else [])
    {
      cancelled := true;
      if isLeader {
        BroadcastMessage(JsonLine(Encode(LeaderResignedEvent)), None);
      }
      clientConnected := false;
      var conns := connections;
      connections := seq(|conns|, i requires 0 <= i < |conns| => conns[i].(connected := false));
    }
  }
}
