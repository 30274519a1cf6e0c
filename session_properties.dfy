/**
 * What the SAX callbacks of transport_session.c promise about the Jabber
 * session: how the connection handshake advances, which tags touch which
 * flags and buffers, what a finished stanza leaves behind, and what a
 * delivered message carries.
 */
module JabberProperties {
  import opened Wrappers
  import opened XmlAttrs
  import Buffers
  import opened Jabber

  /** One SAX callback. */
  datatype Event =
    | StartTag(name: string, atts: Option<seq<Attr>>)
    | EndTag(name: string)
    | Chars(text: string)

  function Handle(st: SessionState, e: Event, hasCallback: bool): SessionState
  {
    match e
    case StartTag(name, atts) => StartElement(st, name, atts)
    case EndTag(name) => EndElement(st, name, hasCallback)
    case Chars(text) => Characters(st, text)
  }

  /** The session after the parser has reported `events` in order. */
  function Feed(st: SessionState, events: seq<Event>, hasCallback: bool): SessionState
    decreases |events|
  {
    if events == [] then st
    else Feed(Handle(st, events[0], hasCallback), events[1..], hasCallback)
  }

  /** A connected session is not half-way through connecting. */
  ghost predicate Consistent(f: Flags)
  {
    f.connected != 0 ==> f.connecting == Idle
  }

  // ---------------------------------------------------------------------
  // Connecting
  // ---------------------------------------------------------------------

  /** The server's `<stream:stream>` moves CONNECTING_1 on and records the stream id. */
  lemma StreamAnswersFirstStep(st: SessionState, atts: Option<seq<Attr>>)
    requires st.flags.connecting == Connecting1
    ensures var r := StartElement(st, "stream:stream", atts);
      && r.flags == st.flags.(connecting := Connecting2)
      && r.bufs == st.bufs.(sessionId := st.bufs.sessionId + Buffers.AddedText(AttrValue(atts, "id")))
      && r.messageErrorCode == st.messageErrorCode && r.routerBroadcast == st.routerBroadcast
      && r.delivered == st.delivered
  {
  }

  /** In any other phase `<stream:stream>` changes nothing. */
  lemma StreamOutsideFirstStepIgnored(st: SessionState, atts: Option<seq<Attr>>)
    requires st.flags.connecting != Connecting1
    ensures StartElement(st, "stream:stream", atts) == st
  {
  }

  /** `<stream:error>` raises the stream-error flag and drops the connection, and touches nothing else. */
  lemma StreamErrorDisconnects(st: SessionState, atts: Option<seq<Attr>>)
    ensures StartElement(st, "stream:error", atts) == st.(flags := st.flags.(inError := 1, connected := 0))
  {
  }

  /** The component `<handshake>` connects, whatever the phase, and touches nothing else. */
  lemma HandshakeConnects(st: SessionState, atts: Option<seq<Attr>>)
    ensures StartElement(st, "handshake", atts) == st.(flags := st.flags.(connected := 1, connecting := Idle))
  {
  }

  /**
   * An `<iq>` completes the login exactly when it is a result and
   * CONNECTING_2 is under way; any other `<iq>` only raises `in_iq`.
   */
  lemma IqConnectsOnlyAsLoginResult(st: SessionState, atts: Option<seq<Attr>>)
    ensures var r := StartElement(st, "iq", atts);
      var login := AttrValue(atts, "type") == Some("result") && st.flags.connecting == Connecting2;
      && r.flags.inIq == 1
      && (login ==> r.flags.connected == 1 && r.flags.connecting == Idle)
      && (!login ==> r.flags == st.flags.(inIq := 1))
      && r.bufs == st.bufs && r.delivered == st.delivered
  {
    TagOfName(IqTag);
    assert StartElement(st, "iq", atts) ==
      st.(flags := RaisedFlags(st.flags, IqTag, AttrValue(atts, "type") == Some("result")));
  }

  /** The corrected `iq` branch: without a type attribute only `in_iq` is raised. */
  lemma IqWithoutTypeOnlyMarksIq(st: SessionState, atts: Option<seq<Attr>>)
    requires AttrValue(atts, "type").None?
    ensures StartElement(st, "iq", atts) == st.(flags := st.flags.(inIq := 1))
  {
  }

  /** As written, an `<iq>` without attributes makes `strcmp` read NULL. */
  lemma IqWithoutTypeIsUndefinedAsWritten(st: SessionState)
    ensures IqStartAsWritten(st, None).None?
    ensures IqStartAsWritten(st, Some([("id", "x")])).None?
  {
    assert Lookup([("id", "x")], "type") == None by {
      assert ("id", "x").0 != "type";
    }
  }

  /** The corrected `error` branch: without a code the previous code stays. */
  lemma ErrorWithoutCodeKeepsCode(st: SessionState, atts: Option<seq<Attr>>)
    requires AttrValue(atts, "code").None?
    ensures var r := StartElement(st, "error", atts);
      && r.messageErrorCode == st.messageErrorCode
      && r.flags == st.flags.(inMessageError := 1)
      && r.bufs.messageErrorType == st.bufs.messageErrorType + Buffers.AddedText(AttrValue(atts, "type"))
  {
  }

  /** ... and with a code, `atoi` of it is the new code. */
  lemma ErrorWithCodeReadsIt(st: SessionState, atts: Option<seq<Attr>>, n: nat)
    requires AttrValue(atts, "code") == Some(Itoa(n))
    ensures StartElement(st, "error", atts).messageErrorCode == n
  {
    TagOfName(ErrorTag);
    AtoiReadsDecimal(n);
  }

  /** As written, `<error type="cancel"/>` hands NULL to `atoi`. */
  lemma ErrorWithoutCodeIsUndefinedAsWritten(st: SessionState)
    ensures ErrorStartAsWritten(st, Some([("type", "cancel")])).None?
  {
    assert Lookup([("type", "cancel")], "code") == None by {
      assert ("type", "cancel").0 != "code";
    }
  }

  // ---------------------------------------------------------------------
  // Invariants of the flags
  // ---------------------------------------------------------------------

  /**
   * Which connection fields each start tag may change: `stream:error`
   * drops the connection, the server's `stream:stream` moves CONNECTING_1
   * on, and `handshake` or a login `iq` connects.
   */
  lemma StartConnection(f: Flags, t: Tag, isResult: bool)
    ensures var f' := RaisedFlags(f, t, isResult);
      || (f'.connected == f.connected && f'.connecting == f.connecting)
      || (t == StreamErrorTag && f'.connected == 0 && f'.connecting == f.connecting)
      || (t == StreamTag && f.connecting == Connecting1 && f'.connected == f.connected
          && f'.connecting == Connecting2)
      || ((t == HandshakeTag || t == IqTag) && f'.connected == 1 && f'.connecting == Idle)
  {
    match t {
      case MessageTag =>
      case BodyTag =>
      case SubjectTag =>
      case ThreadTag =>
      case PresenceTag =>
      case StatusTag =>
      case StreamErrorTag =>
      case StreamTag =>
      case HandshakeTag =>
      case ErrorTag =>
      case IqTag =>
      case ErrorErrorTag =>
      case OtherTag =>
    }
  }

  /** No start tag lowers the stream-error flag. */
  lemma StartKeepsStreamError(f: Flags, t: Tag, isResult: bool)
    requires f.inError != 0
    ensures RaisedFlags(f, t, isResult).inError != 0
  {
    match t {
      case MessageTag =>
      case BodyTag =>
      case SubjectTag =>
      case ThreadTag =>
      case PresenceTag =>
      case StatusTag =>
      case StreamErrorTag =>
      case StreamTag =>
      case HandshakeTag =>
      case ErrorTag =>
      case IqTag =>
      case ErrorErrorTag =>
      case OtherTag =>
    }
  }

  lemma StartKeepsConsistent(st: SessionState, name: string, atts: Option<seq<Attr>>)
    requires Consistent(st.flags)
    ensures Consistent(StartElement(st, name, atts).flags)
  {
    StartConnection(st.flags, TagOf(name), AttrValue(atts, "type") == Some("result"));
  }

  /** End tags never touch the connection fields, and only `</error:error>` lowers the stream-error flag. */
  lemma EndFlags(f: Flags, t: Tag)
    ensures var f' := ClosedFlags(f, t);
      && f'.connected == f.connected && f'.connecting == f.connecting
      && f'.inError == (if t == ErrorErrorTag then 0 else f.inError)
  {
    match t {
      case MessageTag =>
      case BodyTag =>
      case SubjectTag =>
      case ThreadTag =>
      case PresenceTag =>
      case StatusTag =>
      case StreamErrorTag =>
      case StreamTag =>
      case HandshakeTag =>
      case ErrorTag =>
      case IqTag =>
      case ErrorErrorTag =>
      case OtherTag =>
    }
  }

  lemma EndKeepsConsistent(st: SessionState, name: string, hasCallback: bool)
    requires Consistent(st.flags)
    ensures Consistent(EndElement(st, name, hasCallback).flags)
  {
    EndFlags(st.flags, TagOf(name));
  }

  lemma HandleKeepsConsistent(st: SessionState, e: Event, hasCallback: bool)
    requires Consistent(st.flags)
    ensures Consistent(Handle(st, e, hasCallback).flags)
  {
    match e {
      case StartTag(name, atts) => StartKeepsConsistent(st, name, atts);
      case EndTag(name) => EndKeepsConsistent(st, name, hasCallback);
      case Chars(text) => CharactersKeepFlags(st, text);
    }
  }

  /** Text never changes a flag. */
  lemma CharactersKeepFlags(st: SessionState, text: string)
    ensures Characters(st, text).flags == st.flags
    ensures Characters(st, text).delivered == st.delivered
  {
  }

  /** Every stretch of callbacks keeps a connected session out of the connecting phases. */
  lemma {:induction false} FeedKeepsConsistent(st: SessionState, events: seq<Event>, hasCallback: bool)
    requires Consistent(st.flags)
    ensures Consistent(Feed(st, events, hasCallback).flags)
    decreases |events|
  {
    if events != [] {
      HandleKeepsConsistent(st, events[0], hasCallback);
      FeedKeepsConsistent(Handle(st, events[0], hasCallback), events[1..], hasCallback);
    }
  }

  /** Only `</error:error>` lowers the stream-error flag, and it always does. */
  lemma StreamErrorClearedOnlyByItsEnd(st: SessionState, e: Event, hasCallback: bool)
    requires st.flags.inError != 0
    ensures Handle(st, e, hasCallback).flags.inError == 0 <==> e == EndTag("error:error")
  {
    match e {
      case StartTag(name, atts) => StartKeepsStreamError(st.flags, TagOf(name), AttrValue(atts, "type") == Some("result"));
      case EndTag(name) =>
        EndFlags(st.flags, TagOf(name));
        if TagOf(name) == ErrorErrorTag {
          assert name == "error:error";
        }
      case Chars(text) => CharactersKeepFlags(st, text);
    }
  }

  /** `body`, `subject` and `thread` outside a message are ignored. */
  lemma MessagePartsNeedMessage(st: SessionState, name: string, atts: Option<seq<Attr>>)
    requires st.flags.inMessage == 0
    requires name == "body" || name == "subject" || name == "thread"
    ensures StartElement(st, name, atts) == st
  {
  }

  // ---------------------------------------------------------------------
  // Buffers
  // ---------------------------------------------------------------------

  /** A missing attribute leaves its buffer as it was. */
  lemma AbsentAttributeLeavesBuffer(contents: string, atts: Option<seq<Attr>>, name: string)
    requires AttrValue(atts, name).None?
    ensures AddAttr(contents, atts, name) == contents
  {
  }

  /**
   * Text goes to the message parts whose flags are up and, inside a
   * presence's status, to the status buffer; nowhere else.
   */
  lemma CharactersRouting(st: SessionState, text: string)
    ensures var b, b' := st.bufs, Characters(st, text).bufs;
      var f := st.flags;
      && b'.body == (if f.inMessage != 0 && f.inMessageBody != 0 then b.body + text else b.body)
      && b'.subject == (if f.inMessage != 0 && f.inSubject != 0 then b.subject + text else b.subject)
      && b'.thread == (if f.inMessage != 0 && f.inThread != 0 then b.thread + text else b.thread)
      && b'.status == (if f.inPresence != 0 && f.inStatus != 0 then b.status + text else b.status)
      && b'.from == b.from && b'.recipient == b.recipient && b'.messageErrorType == b.messageErrorType
      && b'.sessionId == b.sessionId && b'.routerTo == b.routerTo && b'.routerFrom == b.routerFrom
      && b'.osrfXid == b.osrfXid && b'.routerClass == b.routerClass && b'.routerCommand == b.routerCommand
  {
  }

  /** Text outside a message and outside a presence status changes nothing. */
  lemma CharactersOutsideStanzaIgnored(st: SessionState, text: string)
    requires st.flags.inMessage == 0 && !(st.flags.inPresence != 0 && st.flags.inStatus != 0)
    ensures Characters(st, text) == st
  {
  }

  /**
   * The end of a message, iq or presence empties every buffer but the
   * status, and keeps the broadcast flag and the error code.
   */
  lemma StanzaEndEmptiesBuffers(st: SessionState, name: string, hasCallback: bool)
    requires name == "message" || name == "iq" || name == "presence"
    ensures var r := EndElement(st, name, hasCallback);
      && r.bufs.status == st.bufs.status
      && r.bufs == EmptyTexts.(status := st.bufs.status)
      && r.routerBroadcast == st.routerBroadcast && r.messageErrorCode == st.messageErrorCode
  {
  }

  /** The end of a message, iq or presence lowers that stanza's own flag and no other. */
  lemma StanzaEndLowersItsFlag(st: SessionState, name: string, hasCallback: bool)
    requires name == "message" || name == "iq" || name == "presence"
    ensures var f := EndElement(st, name, hasCallback).flags;
      && (name == "message" ==> f == st.flags.(inMessage := 0))
      && (name == "iq" ==> f == st.flags.(inIq := 0))
      && (name == "presence" ==> f == st.flags.(inPresence := 0))
  {
  }

  /** Emptying the buffers twice is emptying them once. */
  lemma ResetBuffersIdempotent(b: Texts)
    ensures ResetBuffers(ResetBuffers(b)) == ResetBuffers(b)
  {
  }

  // ---------------------------------------------------------------------
  // Delivery
  // ---------------------------------------------------------------------

  /** A message is delivered exactly at `</message>` with a callback set, and carries the buffers. */
  lemma DeliveryAtMessageEnd(st: SessionState, e: Event, hasCallback: bool)
    ensures var r := Handle(st, e, hasCallback);
      && (e == EndTag("message") && hasCallback ==> r.delivered == st.delivered + [MessageOf(st)])
      && (e != EndTag("message") || !hasCallback ==> r.delivered == st.delivered)
  {
  }

  /** The delivered message carries what the buffers held, its error only when a type was given. */
  lemma DeliveredMessageCarriesBuffers(st: SessionState)
    ensures var m := MessageOf(st);
      && m.body == st.bufs.body && m.subject == st.bufs.subject && m.thread == st.bufs.thread
      && m.from == st.bufs.from && m.recipient == st.bufs.recipient
      && m.routerFrom == st.bufs.routerFrom && m.routerTo == st.bufs.routerTo
      && m.routerClass == st.bufs.routerClass && m.routerCommand == st.bufs.routerCommand
      && m.osrfXid == st.bufs.osrfXid && m.broadcast == st.routerBroadcast
      && (m.error.Some? <==> st.bufs.messageErrorType != [])
      && (m.error.Some? ==> m.error.value == (st.bufs.messageErrorType, st.messageErrorCode))
  {
  }

  /** Feeding a concatenation is feeding its halves in turn. */
  lemma {:induction false} FeedAppend(st: SessionState, a: seq<Event>, b: seq<Event>, hasCallback: bool)
    ensures Feed(st, a + b, hasCallback) == Feed(Feed(st, a, hasCallback), b, hasCallback)
    decreases |a|
  {
    if a != [] {
      assert (a + b)[0] == a[0] && (a + b)[1..] == a[1..] + b;
      FeedAppend(Handle(st, a[0], hasCallback), a[1..], b, hasCallback);
    } else {
      assert a + b == b;
    }
  }
}
