/**
 * The Jabber session of transport_session.c as seen by its SAX callbacks:
 * a `jabber_machine` of flags (which stanza and which part of it the
 * parser is inside, and how far the connection has got) and a set of
 * growing buffers that collect the parts of the current stanza. Start
 * tags raise flags and append attributes to buffers, text is appended to
 * the buffers whose flags are up, and end tags lower flags, hand a
 * finished `<message>` to the message callback and empty the buffers.
 *
 * Connecting runs CONNECTING_1 (stream opened) -> CONNECTING_2 (the
 * server's `<stream:stream>` seen) -> connected, on the component
 * `<handshake>` of XEP-0114 or the `<iq type="result">` that answers the
 * `jabber:iq:auth` login of XEP-0078.
 */
module Jabber {
  import opened Wrappers
  import opened XmlAttrs
  import Buffers

  // ---------------------------------------------------------------------
  // atoi
  // ---------------------------------------------------------------------

  /** `isspace` in the C locale. */
  predicate IsSpace(c: char)
  {
    c == ' ' || '\t' <= c <= '\r'
  }

  predicate IsDigit(c: char)
  {
    '0' <= c <= '9'
  }

  function SkipSpace(s: string): (t: string)
    ensures |t| <= |s| && t == s[|s| - |t|..]
    ensures t != [] ==> !IsSpace(t[0])
  {
    if s != [] && IsSpace(s[0]) then SkipSpace(s[1..]) else s
  }

  /** The longest prefix of decimal digits. */
  function DigitPrefix(s: string): (d: string)
    ensures |d| <= |s| && d == s[..|d|]
    ensures forall i :: 0 <= i < |d| ==> IsDigit(d[i])
    ensures |d| < |s| ==> !IsDigit(s[|d|])
  {
    if s != [] && IsDigit(s[0]) then [s[0]] + DigitPrefix(s[1..]) else []
  }

  /** The value of one decimal digit. */
  function DigitValue(c: char): (v: int)
    requires IsDigit(c)
    ensures 0 <= v < 10
  {
    c as int - '0' as int
  }

  /** The value of a string of decimal digits, most significant first. */
  function DecimalValue(d: string): (v: int)
    requires forall i :: 0 <= i < |d| ==> IsDigit(d[i])
    ensures v >= 0
  {
    if d == [] then 0 else 10 * DecimalValue(d[..|d| - 1]) + DigitValue(d[|d| - 1])
  }

  /**
   * `atoi`: leading white space, an optional sign, then as many decimal
   * digits as there are; 0 when there are none.
   */
  function Atoi(s: string): int
  {
    var t := SkipSpace(s);
    if t != [] && t[0] == '-' then -DecimalValue(DigitPrefix(t[1..]))
    else if t != [] && t[0] == '+' then DecimalValue(DigitPrefix(t[1..]))
    else DecimalValue(DigitPrefix(t))
  }

  /** Decimal digits of `n`: the partner `atoi` reads back. */
  function Itoa(n: nat): (d: string)
    ensures d != [] && forall i :: 0 <= i < |d| ==> IsDigit(d[i])
  {
    if n < 10 then [(48 + n) as char] else Itoa(n / 10) + [(48 + n % 10) as char]
  }

  lemma {:induction false} DecimalValueOfItoa(n: nat)
    ensures DecimalValue(Itoa(n)) == n
  {
    if n >= 10 {
      DecimalValueOfItoa(n / 10);
      var d := Itoa(n);
      assert d[..|d| - 1] == Itoa(n / 10);
    }
  }

  lemma DigitPrefixOfDigits(d: string)
    requires forall i :: 0 <= i < |d| ==> IsDigit(d[i])
    ensures DigitPrefix(d) == d
  {
  }

  /** `atoi` of a string of digits is its decimal value. */
  lemma AtoiOfDigits(d: string)
    requires d != [] && forall i :: 0 <= i < |d| ==> IsDigit(d[i])
    ensures Atoi(d) == DecimalValue(d)
  {
    assert !IsSpace(d[0]) && d[0] != '-' && d[0] != '+';
    assert SkipSpace(d) == d;
    DigitPrefixOfDigits(d);
  }

  /** ... and after a minus sign, its negation. */
  lemma AtoiOfNegatedDigits(d: string)
    requires d != [] && forall i :: 0 <= i < |d| ==> IsDigit(d[i])
    ensures Atoi(['-'] + d) == -DecimalValue(d)
  {
    var m := ['-'] + d;
    assert SkipSpace(m) == m;
    assert m[1..] == d;
    DigitPrefixOfDigits(d);
  }

  /** `atoi` reads back what printing a number in decimal writes. */
  lemma AtoiReadsDecimal(n: nat)
    ensures Atoi(Itoa(n)) == n
    ensures Atoi(['-'] + Itoa(n)) == -(n as int)
  {
    DecimalValueOfItoa(n);
    AtoiOfDigits(Itoa(n));
    AtoiOfNegatedDigits(Itoa(n));
  }

  // ---------------------------------------------------------------------
  // The session state
  // ---------------------------------------------------------------------

  /** The `connecting` field: 0, CONNECTING_1 or CONNECTING_2. */
  datatype Phase = Idle | Connecting1 | Connecting2

  /** What the message callback receives for a finished `<message>`. */
  datatype Message = Message(
    body: string, subject: string, thread: string, recipient: string, from: string,
    routerFrom: string, routerTo: string, routerClass: string, routerCommand: string,
    broadcast: int, osrfXid: string,
    /** The error type and code, set when the error-type buffer is not empty. */
    error: Option<(string, int)>)

  /**
   * The `jabber_machine`: C `int` flags, set to 1 and cleared to 0, and
   * tested for being non-zero.
   */
  datatype Flags = Flags(
    connected: int, connecting: Phase,
    inMessage: int, inMessageBody: int, inThread: int, inSubject: int,
    inError: int, inMessageError: int, inIq: int, inPresence: int, inStatus: int)

  /** The contents of the session's growing buffers. */
  datatype Texts = Texts(
    body: string, subject: string, thread: string, from: string, status: string,
    recipient: string, messageErrorType: string, sessionId: string,
    routerTo: string, routerFrom: string, osrfXid: string,
    routerClass: string, routerCommand: string)

  datatype SessionState = SessionState(
    flags: Flags, bufs: Texts, messageErrorCode: int, routerBroadcast: int,
    /** Every message handed to the message callback so far. */
    delivered: seq<Message>)

  const EmptyTexts := Texts([], [], [], [], [], [], [], [], [], [], [], [], [])

  const InitialFlags := Flags(0, Idle, 0, 0, 0, 0, 0, 0, 0, 0, 0)

  /** `get_xml_attr`'s answer: the first value with that name, NULL for no attributes. */
  function AttrValue(atts: Option<seq<Attr>>, name: string): Option<string>
  {
    match atts
    case None => None
    case Some(a) => Lookup(a, name)
  }

  /** `buffer_add(buffer, get_xml_attr(atts, name))` on the buffer's contents. */
  function AddAttr(contents: string, atts: Option<seq<Attr>>, name: string): string
  {
    contents + Buffers.AddedText(AttrValue(atts, name))
  }

  /** `reset_session_buffers`: twelve buffers emptied; not the status buffer. */
  function ResetBuffers(b: Texts): Texts
  {
    Texts([], [], [], [], b.status, [], [], [], [], [], [], [], [])
  }

  /** The routing attributes of a `message` start tag, appended to their buffers. */
  function RoutingTexts(b: Texts, atts: Option<seq<Attr>>): Texts
  {
    b.(from := AddAttr(b.from, atts, "from"),
       recipient := AddAttr(b.recipient, atts, "to"),
       routerFrom := AddAttr(b.routerFrom, atts, "router_from"),
       osrfXid := AddAttr(b.osrfXid, atts, "osrf_xid"),
       routerTo := AddAttr(b.routerTo, atts, "router_to"),
       routerClass := AddAttr(b.routerClass, atts, "router_class"),
       routerCommand := AddAttr(b.routerCommand, atts, "router_command"))
  }

  /** The element names the SAX callbacks react to. */
  datatype Tag =
    | MessageTag | BodyTag | SubjectTag | ThreadTag | PresenceTag | StatusTag
    | StreamErrorTag | StreamTag | HandshakeTag | ErrorTag | IqTag | ErrorErrorTag
    | OtherTag

  /** The element name of a tag; `OtherTag` stands for every other name. */
  function NameOf(t: Tag): string
  {
    match t
    case MessageTag => "message"
    case BodyTag => "body"
    case SubjectTag => "subject"
    case ThreadTag => "thread"
    case PresenceTag => "presence"
    case StatusTag => "status"
    case StreamErrorTag => "stream:error"
    case StreamTag => "stream:stream"
    case HandshakeTag => "handshake"
    case ErrorTag => "error"
    case IqTag => "iq"
    case ErrorErrorTag => "error:error"
    case OtherTag => ""
  }

  /** The `strcmp` tests of the handlers: which tag an element name is. */
  function TagOf(name: string): (t: Tag)
    ensures t != OtherTag ==> NameOf(t) == name
  {
    if name == "message" then MessageTag
    else if name == "body" then BodyTag
    else if name == "subject" then SubjectTag
    else if name == "thread" then ThreadTag
    else if name == "presence" then PresenceTag
    else if name == "status" then StatusTag
    else if name == "stream:error" then StreamErrorTag
    else if name == "stream:stream" then StreamTag
    else if name == "handshake" then HandshakeTag
    else if name == "error" then ErrorTag
    else if name == "iq" then IqTag
    else if name == "error:error" then ErrorErrorTag
    else OtherTag
  }

  /** Every tag but `OtherTag` is recognised by its own name. */
  lemma TagOfName(t: Tag)
    requires t != OtherTag
    ensures TagOf(NameOf(t)) == t
  {
    match t
    case MessageTag =>
    case BodyTag =>
    case SubjectTag =>
    case ThreadTag =>
    case PresenceTag =>
    case StatusTag =>
    case StreamErrorTag =>
    case StreamTag =>
    case HandshakeTag =>
    case ErrorTag =>
    case IqTag =>
    case ErrorErrorTag =>
  }

  /**
   * How a start tag changes the flags, as `startElementHandler` tests them:
   * the parts of a message only inside one, the server's `stream:stream`
   * only in CONNECTING_1, and an `iq` of type result only in CONNECTING_2.
   * `isResult` says whether the tag's type attribute is "result".
   */
  function RaisedFlags(f: Flags, t: Tag, isResult: bool): Flags
  {
    match t
    case MessageTag => f.(inMessage := 1)
    case BodyTag => if f.inMessage != 0 then f.(inMessageBody := 1) else f
    case SubjectTag => if f.inMessage != 0 then f.(inSubject := 1) else f
    case ThreadTag => if f.inMessage != 0 then f.(inThread := 1) else f
    case PresenceTag => f.(inPresence := 1)
    case StatusTag => f.(inStatus := 1)
    case StreamErrorTag => f.(inError := 1, connected := 0)
    case StreamTag => if f.connecting == Connecting1 then f.(connecting := Connecting2) else f
    case HandshakeTag => f.(connected := 1, connecting := Idle)
    case ErrorTag => f.(inMessageError := 1)
    case IqTag =>
      if isResult && f.connecting == Connecting2
      then f.(inIq := 1, connected := 1, connecting := Idle)
      else f.(inIq := 1)
    case ErrorErrorTag => f
    case OtherTag => f
  }

  /**
   * How a start tag changes the buffers: a message's routing attributes,
   * a presence's sender and recipient, the stream id in CONNECTING_1 and
   * an error's type are appended.
   */
  function StartTexts(b: Texts, f: Flags, t: Tag, atts: Option<seq<Attr>>): Texts
  {
    match t
    case MessageTag => RoutingTexts(b, atts)
    case PresenceTag =>
      b.(from := AddAttr(b.from, atts, "from"), recipient := AddAttr(b.recipient, atts, "to"))
    case StreamTag =>
      if f.connecting == Connecting1 then b.(sessionId := AddAttr(b.sessionId, atts, "id")) else b
    case ErrorTag => b.(messageErrorType := AddAttr(b.messageErrorType, atts, "type"))
    case _ => b
  }

  /** An `error` start tag with a code sets the error code to `atoi` of it. */
  function StartErrorCode(code: int, t: Tag, atts: Option<seq<Attr>>): int
  {
    if t == ErrorTag && AttrValue(atts, "code").Some? then Atoi(AttrValue(atts, "code").value) else code
  }

  /** A `message` start tag with a broadcast attribute sets the broadcast flag to `atoi` of it. */
  function StartBroadcast(broadcast: int, t: Tag, atts: Option<seq<Attr>>): int
  {
    if t == MessageTag && AttrValue(atts, "broadcast").Some? then Atoi(AttrValue(atts, "broadcast").value)
    else broadcast
  }

  /** `startElementHandler`: the name's tag decides. */
  function StartElement(st: SessionState, name: string, atts: Option<seq<Attr>>): SessionState
  {
    StartWith(st, TagOf(name), atts)
  }

  /** `startElementHandler` for a tag, part by part. */
  function StartWith(st: SessionState, t: Tag, atts: Option<seq<Attr>>): SessionState
  {
    SessionState(
      RaisedFlags(st.flags, t, AttrValue(atts, "type") == Some("result")),
      StartTexts(st.bufs, st.flags, t, atts),
      StartErrorCode(st.messageErrorCode, t, atts),
      StartBroadcast(st.routerBroadcast, t, atts),
      st.delivered)
  }

  /**
   * The `error` branch as written: `atoi(get_xml_attr(atts, "code"))` runs
   * whether or not there is a code, and `atoi(NULL)` is undefined
   * behaviour, shown as `None`.
   */
  function ErrorStartAsWritten(st: SessionState, atts: Option<seq<Attr>>): (r: Option<SessionState>)
    ensures r.None? <==> AttrValue(atts, "code").None?
    ensures r.Some? ==> r.value == StartElement(st, "error", atts)
  {
    var st' := st.(flags := st.flags.(inMessageError := 1),
                   bufs := st.bufs.(messageErrorType := AddAttr(st.bufs.messageErrorType, atts, "type")));
    var code := AttrValue(atts, "code");
    if code.None? then None else Some(st'.(messageErrorCode := Atoi(code.value)))
  }

  /**
   * The `iq` branch as written: `strcmp(get_xml_attr(atts, "type"),
   * "result")` is undefined behaviour when there is no type attribute,
   * shown as `None`.
   */
  function IqStartAsWritten(st: SessionState, atts: Option<seq<Attr>>): (r: Option<SessionState>)
    ensures r.None? <==> AttrValue(atts, "type").None?
    ensures r.Some? ==> r.value == StartElement(st, "iq", atts)
  {
    var t := AttrValue(atts, "type");
    if t.None? then None
    else if t.value == "result" && st.flags.connecting == Connecting2 then
      Some(st.(flags := st.flags.(inIq := 1, connected := 1, connecting := Idle)))
    else Some(st.(flags := st.flags.(inIq := 1)))
  }

  /** The message built from the buffers when `</message>` arrives. */
  function MessageOf(st: SessionState): Message
  {
    var b := st.bufs;
    Message(b.body, b.subject, b.thread, b.recipient, b.from,
            b.routerFrom, b.routerTo, b.routerClass, b.routerCommand,
            st.routerBroadcast, b.osrfXid,
            if |b.messageErrorType| > 0 then Some((b.messageErrorType, st.messageErrorCode)) else None)
  }

  /** How an end tag changes the flags: each tag clears its own. */
  function ClosedFlags(f: Flags, t: Tag): Flags
  {
    match t
    case MessageTag => f.(inMessage := 0)
    case BodyTag => f.(inMessageBody := 0)
    case SubjectTag => f.(inSubject := 0)
    case ThreadTag => f.(inThread := 0)
    case IqTag => f.(inIq := 0)
    case PresenceTag => f.(inPresence := 0)
    case StatusTag => f.(inStatus := 0)
    case ErrorTag => f.(inMessageError := 0)
    case ErrorErrorTag => f.(inError := 0)
    case _ => f
  }

  /** The end tags after which `reset_session_buffers` runs. */
  predicate EndsStanza(t: Tag)
  {
    t == MessageTag || t == IqTag || t == PresenceTag
  }

  /** `endElementHandler`; `hasCallback` says whether a message callback is set. */
  function EndElement(st: SessionState, name: string, hasCallback: bool): SessionState
  {
    EndWith(st, TagOf(name), hasCallback)
  }

  /** `endElementHandler` for a tag, part by part. */
  function EndWith(st: SessionState, t: Tag, hasCallback: bool): SessionState
  {
    SessionState(
      ClosedFlags(st.flags, t),
      if EndsStanza(t) then ResetBuffers(st.bufs) else st.bufs,
      st.messageErrorCode,
      st.routerBroadcast,
      if t == MessageTag && hasCallback then st.delivered + [MessageOf(st)] else st.delivered)
  }

  /** `characterHandler`. */
  function Characters(st: SessionState, text: string): SessionState
  {
    var f, b := st.flags, st.bufs;
    var b' :=
      if f.inMessage != 0 then
        b.(body := if f.inMessageBody != 0 then b.body + text else b.body,
           subject := if f.inSubject != 0 then b.subject + text else b.subject,
           thread := if f.inThread != 0 then b.thread + text else b.thread)
      else b;
    st.(bufs := if f.inPresence != 0 && f.inStatus != 0 then b'.(status := b'.status + text) else b')
  }

  // ---------------------------------------------------------------------
  // The objects
  // ---------------------------------------------------------------------

  /**
   * The parts of `transport_session` the SAX callbacks use. The thirteen
   * growing buffers are held as one record of their contents.
   */
  class TransportSession {
    /** The `jabber_machine` the session points to. */
    var machine: Flags
    /** Whether `message_callback` is set. */
    const hasCallback: bool
    var bufs: Texts
    var messageErrorCode: int
    var routerBroadcast: int
    ghost var delivered: seq<Message>

    ghost function State(): SessionState
      reads this
    {
      SessionState(machine, bufs, messageErrorCode, routerBroadcast, delivered)
    }

    /** The state `init_transport` leaves: empty buffers, all flags and numbers 0. */
    constructor(hasCallback: bool)
      ensures State() == SessionState(InitialFlags, EmptyTexts, 0, 0, [])
      ensures this.hasCallback == hasCallback
    {
      machine := InitialFlags;
      this.hasCallback := hasCallback;
      bufs := EmptyTexts;
      messageErrorCode, routerBroadcast := 0, 0;
      delivered := [];
    }

    /** `reset_session_buffers`. */
    method ResetSessionBuffers() returns (r: int)
      modifies this
      ensures State() == old(State()).(bufs := ResetBuffers(old(bufs))) && r == 1
    {
      bufs := bufs.(body := [], subject := [], thread := [], from := [], recipient := []);
      bufs := bufs.(routerFrom := [], osrfXid := [], routerTo := [], routerClass := [], routerCommand := []);
      bufs := bufs.(messageErrorType := [], sessionId := []);
      return 1;
    }

    /** The `message` branch of `startElementHandler`. */
    method OnMessageStart(atts: Option<seq<Attr>>)
      modifies this
      ensures State() == StartWith(old(State()), MessageTag, atts)
    {
      machine := machine.(inMessage := 1);
      bufs := AddRoutingAttrs(bufs, atts);
      var broadcast := GetXmlAttr(atts, "broadcast");
      if broadcast.Some? {
        routerBroadcast := Atoi(broadcast.value);
      }
    }

    /** The `presence` branch. */
    method OnPresenceStart(atts: Option<seq<Attr>>)
      modifies this
      ensures State() == StartWith(old(State()), PresenceTag, atts)
    {
      machine := machine.(inPresence := 1);
      var from := BufferAddAttr(bufs.from, atts, "from");
      var recipient := BufferAddAttr(bufs.recipient, atts, "to");
      bufs := bufs.(from := from, recipient := recipient);
    }

    /** The `stream:stream` branch. */
    method OnStreamStart(atts: Option<seq<Attr>>)
      modifies this
      ensures State() == StartWith(old(State()), StreamTag, atts)
    {
      if machine.connecting == Connecting1 {
        machine := machine.(connecting := Connecting2);
        var id := BufferAddAttr(bufs.sessionId, atts, "id");
        bufs := bufs.(sessionId := id);
      }
    }

    /** The `error` branch, with the code read only when there is one. */
    method OnErrorStart(atts: Option<seq<Attr>>)
      modifies this
      ensures State() == StartWith(old(State()), ErrorTag, atts)
    {
      machine := machine.(inMessageError := 1);
      var errorType := BufferAddAttr(bufs.messageErrorType, atts, "type");
      bufs := bufs.(messageErrorType := errorType);
      var code := GetXmlAttr(atts, "code");
      if code.Some? {
        messageErrorCode := Atoi(code.value);
      }
    }

    /** The `iq` branch, with a missing type read as not "result". */
    method OnIqStart(atts: Option<seq<Attr>>)
      modifies this
      ensures State() == StartWith(old(State()), IqTag, atts)
    {
      machine := machine.(inIq := 1);
      var t := GetXmlAttr(atts, "type");
      if t == Some("result") && machine.connecting == Connecting2 {
        machine := machine.(connected := 1, connecting := Idle);
      }
    }

    /** The branches of `startElementHandler` that only set flags. */
    method OpenFlag(t: Tag, atts: Option<seq<Attr>>)
      requires t != MessageTag && t != PresenceTag && t != StreamTag && t != ErrorTag && t != IqTag
      modifies this
      ensures State() == StartWith(old(State()), t, atts)
    {
      var m := machine;
      if m.inMessage != 0 && t == BodyTag {
        m := m.(inMessageBody := 1);
      } else if m.inMessage != 0 && t == SubjectTag {
        m := m.(inSubject := 1);
      } else if m.inMessage != 0 && t == ThreadTag {
        m := m.(inThread := 1);
      } else if t == StatusTag {
        m := m.(inStatus := 1);
      } else if t == StreamErrorTag {
        m := m.(inError := 1, connected := 0);
      } else if t == HandshakeTag {
        m := m.(connected := 1, connecting := Idle);
      }
      machine := m;
    }

    /** The branches of `endElementHandler` that only lower a flag. */
    method CloseFlag(t: Tag)
      requires t != MessageTag && t != IqTag && t != PresenceTag
      modifies this
      ensures State() == EndWith(old(State()), t, hasCallback)
    {
      var m := machine;
      if t == BodyTag {
        m := m.(inMessageBody := 0);
      } else if t == SubjectTag {
        m := m.(inSubject := 0);
      } else if t == ThreadTag {
        m := m.(inThread := 0);
      } else if t == StatusTag {
        m := m.(inStatus := 0);
      } else if t == ErrorTag {
        m := m.(inMessageError := 0);
      } else if t == ErrorErrorTag {
        m := m.(inError := 0);
      }
      machine := m;
    }

    /**
     * `startElementHandler`, its branches in the methods above; the
     * `strcmp` tests are made once, by `TagOf`.
     */
    method StartElementHandler(name: string, atts: Option<seq<Attr>>)
      modifies this
      ensures State() == StartElement(old(State()), name, atts)
    {
      var t := TagOf(name);
      if t == MessageTag {
        OnMessageStart(atts);
      } else if t == PresenceTag {
        OnPresenceStart(atts);
      } else if t == StreamTag {
        OnStreamStart(atts);
      } else if t == ErrorTag {
        OnErrorStart(atts);
      } else if t == IqTag {
        OnIqStart(atts);
      } else {
        OpenFlag(t, atts);
      }
    }

    /** `endElementHandler`. */
    method EndElementHandler(name: string)
      modifies this
      ensures State() == EndElement(old(State()), name, hasCallback)
    {
      var t := TagOf(name);
      if t == MessageTag {
        if hasCallback {
          delivered := delivered + [MessageOf(State())];
        }
        machine := machine.(inMessage := 0);
        var _ := ResetSessionBuffers();
        return;
      }
      if t == IqTag {
        machine := machine.(inIq := 0);
        var _ := ResetSessionBuffers();
        return;
      }
      if t == PresenceTag {
        machine := machine.(inPresence := 0);
        var _ := ResetSessionBuffers();
        return;
      }
      CloseFlag(t);
    }

    /** `characterHandler`: `text` is the chunk `buffer_add_n` appends. */
    method CharacterHandler(text: string)
      modifies this
      ensures State() == Characters(old(State()), text)
    {
      if machine.inMessage != 0 {
        if machine.inMessageBody != 0 {
          bufs := bufs.(body := bufs.body + text);
        }
        if machine.inSubject != 0 {
          bufs := bufs.(subject := bufs.subject + text);
        }
        if machine.inThread != 0 {
          bufs := bufs.(thread := bufs.thread + text);
        }
      }
      if machine.inPresence != 0 && machine.inStatus != 0 {
        bufs := bufs.(status := bufs.status + text);
      }
    }
  }

  /** The seven `buffer_add` calls of a `message` start tag. */
  method AddRoutingAttrs(b: Texts, atts: Option<seq<Attr>>) returns (b': Texts)
    ensures b' == RoutingTexts(b, atts)
  {
    var from := BufferAddAttr(b.from, atts, "from");
    var recipient := BufferAddAttr(b.recipient, atts, "to");
    var routerFrom := BufferAddAttr(b.routerFrom, atts, "router_from");
    var osrfXid := BufferAddAttr(b.osrfXid, atts, "osrf_xid");
    var routerTo := BufferAddAttr(b.routerTo, atts, "router_to");
    var routerClass := BufferAddAttr(b.routerClass, atts, "router_class");
    var routerCommand := BufferAddAttr(b.routerCommand, atts, "router_command");
    b' := b.(from := from, recipient := recipient, routerFrom := routerFrom, osrfXid := osrfXid,
             routerTo := routerTo, routerClass := routerClass, routerCommand := routerCommand);
  }

  /** `buffer_add(buffer, get_xml_attr(atts, name))` on a buffer holding `contents`. */
  method BufferAddAttr(contents: string, atts: Option<seq<Attr>>, name: string) returns (r: string)
    ensures r == AddAttr(contents, atts, name)
  {
    var v := GetXmlAttr(atts, name);
    r := contents + Buffers.AddedText(v);
  }

  /**
   * `get_xml_attr`: walks the name/value pairs of the attribute array
   * and returns the value of the first pair whose name matches.
   */
  method GetXmlAttr(atts: Option<seq<Attr>>, attrName: string) returns (v: Option<string>)
    ensures v == AttrValue(atts, attrName)
  {
    if atts.None? {
      return None;
    }
    var pairs := atts.value;
    var i := 0;
    while i < |pairs|
      invariant i <= |pairs|
      invariant forall j :: 0 <= j < i ==> pairs[j].0 != attrName
    {
      if pairs[i].0 == attrName {
        FirstMatchIsLookup(pairs, attrName, i);
        return Some(pairs[i].1);
      }
      i := i + 1;
    }
    return None;
  }
}
