/**
 * A worked session: a `<message>` from alice to bob with the body "hi",
 * fed through the SAX callbacks of transport_session.c to an idle
 * session with a message callback set.
 */
module JabberExample {
  import opened Wrappers
  import opened XmlAttrs
  import Buffers
  import opened Jabber
  import opened JabberProperties

  const IdleSession := SessionState(InitialFlags, EmptyTexts, 0, 0, [])

  const HelloAtts: Option<seq<Attr>> := Some([("from", "alice"), ("to", "bob")])

  /** `<message from="alice" to="bob"><body>hi</body></message>` */
  const HelloMessage := [StartTag("message", HelloAtts), StartTag("body", None), Chars("hi"), EndTag("body"), EndTag("message")]

  lemma HelloAttributes()
    ensures AttrValue(HelloAtts, "from") == Some("alice")
    ensures AttrValue(HelloAtts, "to") == Some("bob")
  {
    FirstMatchIsLookup(HelloAtts.value, "from", 0);
    FirstMatchIsLookup(HelloAtts.value, "to", 1);
  }

  /** A name neither attribute has is not found. */
  lemma HelloLacks(name: string)
    requires name != "from" && name != "to"
    ensures AttrValue(HelloAtts, name) == None
  {
  }

  lemma HelloSenderAndRecipient()
    ensures AddAttr([], HelloAtts, "from") == "alice"
    ensures AddAttr([], HelloAtts, "to") == "bob"
  {
    HelloAttributes();
    Buffers.CStrOfPlainText("alice");
    Buffers.CStrOfPlainText("bob");
  }

  lemma HelloAddsNothing(name: string)
    requires name != "from" && name != "to"
    ensures AddAttr([], HelloAtts, name) == []
  {
    HelloLacks(name);
  }

  lemma HelloRouting()
    ensures RoutingTexts(EmptyTexts, HelloAtts) == EmptyTexts.(from := "alice", recipient := "bob")
  {
    HelloSenderAndRecipient();
    HelloAddsNothing("router_from");
    HelloAddsNothing("osrf_xid");
    HelloAddsNothing("router_to");
    HelloAddsNothing("router_class");
    HelloAddsNothing("router_command");
  }

  const HelloOpen := IdleSession.(flags := InitialFlags.(inMessage := 1), bufs := EmptyTexts.(from := "alice", recipient := "bob"))
  const HelloInBody := HelloOpen.(flags := HelloOpen.flags.(inMessageBody := 1))
  const HelloRead := HelloInBody.(bufs := HelloInBody.bufs.(body := "hi"))
  const HelloBodyDone := HelloRead.(flags := HelloRead.flags.(inMessageBody := 0))

  /** The state after the opening tag: the message flag up, sender and recipient recorded. */
  lemma HelloOpened()
    ensures Handle(IdleSession, HelloMessage[0], true) == HelloOpen
  {
    TagOfName(MessageTag);
    HelloRouting();
    HelloLacks("broadcast");
  }

  lemma HelloBodySteps()
    ensures Handle(HelloOpen, HelloMessage[1], true) == HelloInBody
    ensures Handle(HelloInBody, HelloMessage[2], true) == HelloRead
    ensures Handle(HelloRead, HelloMessage[3], true) == HelloBodyDone
  {
    TagOfName(BodyTag);
  }

  lemma FeedStep(st: SessionState, events: seq<Event>, hasCallback: bool)
    requires events != []
    ensures Feed(st, events, hasCallback) == Feed(Handle(st, events[0], hasCallback), events[1..], hasCallback)
  {
  }

  lemma HelloFeed()
    ensures Feed(IdleSession, HelloMessage, true) == Feed(HelloBodyDone, [EndTag("message")], true)
  {
    HelloOpened();
    HelloBodySteps();
    var m := HelloMessage;
    FeedStep(IdleSession, m, true);
    FeedStep(HelloOpen, m[1..], true);
    assert m[1..][1..] == m[2..];
    FeedStep(HelloInBody, m[2..], true);
    assert m[2..][1..] == m[3..];
    FeedStep(HelloRead, m[3..], true);
    assert m[3..][1..] == [EndTag("message")];
  }

  /** A session that receives the message hands exactly it to the callback. */
  lemma HelloDelivered()
    ensures Feed(IdleSession, HelloMessage, true).delivered ==
      [Message("hi", [], [], "bob", "alice", [], [], [], [], 0, [], None)]
  {
    HelloFeed();
    TagOfName(MessageTag);
    FeedStep(HelloBodyDone, [EndTag("message")], true);
  }
}
