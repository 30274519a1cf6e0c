# OpenSRF message plumbing, modelled in Dafny

This project models four pieces of OpenSRF's message plumbing and proves
properties about them:

- **The XML gateway decoder.** `XMLGatewayParser` in `gateway.py` is a SAX
  content handler. It rebuilds one nested Python value from the gateway's
  XML reply: `null`, `boolean`, text, `array`, `object`, `element` wrappers
  and class-hinted records. Records come in two layouts: keyed, and
  positional ("array" wire protocol).
- **The growing buffer of `utils.c`.** This is a string buffer with a fixed
  terminator that doubles its capacity until the text fits. It is released
  when the capacity would pass `BUFFER_MAX_SIZE`.
- **`uescape`.** This turns a NUL-terminated UTF-8 string into an ASCII
  string with JSON-style `\uXXXX` escapes. It has a full-escape mode and a
  plain mode.
- **The Jabber session of `transport_session.c`.** This is the flag machine
  (`jabber_machine`) driven by the libxml2 SAX callbacks. Start tags raise
  flags and copy attributes into the session buffers. Text goes to the
  buffers whose flags are up. End tags lower flags, hand a finished
  `<message>` to the message callback and empty the buffers. Connecting goes
  through `CONNECTING_1` and `CONNECTING_2` to connected, on `<handshake>` or
  on an `<iq type="result">`. `atoi` for the `broadcast` and `code`
  attributes is modelled by `Jabber.Atoi`.
- **The socket list of `socket_bundle.c`.** This is the manager's singly
  linked list of `socket_node`s. The model covers adding at the head, finding
  the first node for a descriptor, and unlinking the first such node. It also
  covers the `max_fd` bound computed before `select`, the node that
  `_socket_handle_new_client` adds for an accepted client, and the
  seconds/microseconds split of `socket_send_timeout`.

## How it is modelled

- Code that changes things in place is modelled with classes:
  `Gateway.XmlGatewayParser`, `Buffers.GrowingBuffer` (its text lives in an
  `array<char>`), `Jabber.TransportSession` and `SocketBundle.SocketManager`
  (over `SocketNode` objects).
- Each method is proved to perform a pure transition function, or to keep
  the class's `Valid()` invariant and reach the new state it states.
- The lemmas state the behaviour the source promises about those functions.
  They are in `gateway_properties.dfy`, `session_properties.dfy`,
  `session_example.dfy` and the second half of `socket_list.dfy`.

Python containers are shared by reference: the gateway appends a fresh list,
dict or record to its parent and then keeps it on `objStack`. The model keeps
that identity explicit. Containers live in a heap and values refer to them by
index. `Gateway.Tree` reads a value back out of the heap.

## Model

| member | source | states |
|---|---|---|
| Gateway.Attach | src/python/osrf/gateway.py:127-153 | attaching a scalar, or a container newer than every open one, keeps the decoder invariant: open containers exist, containers only hold newer containers, every record's hint is registered |
| Gateway.Open | src/python/osrf/gateway.py:103-120 | creating a fresh list, dict or registered record, attaching it and opening it keeps the decoder invariant |
| Gateway.Start | src/python/osrf/gateway.py:89-124 | every start tag keeps the decoder invariant, whatever its name and attributes |
| Gateway.StartTag | src/python/osrf/gateway.py:89-124 | the start-tag dispatch keeps the decoder invariant |
| Gateway.End | src/python/osrf/gateway.py:155-157 | `</array>` and `</object>` pop the open container and raise on an empty stack; every other end tag changes nothing; nothing else changes |
| Gateway.Text | src/python/osrf/gateway.py:159-160 | attaching a decoded text chunk keeps the decoder invariant |
| Gateway.Step | src/python/osrf/gateway.py:89-160 | every SAX event keeps the decoder invariant |
| Gateway.Run | src/python/osrf/gateway.py:62-67 | a whole event stream, stopped at the first exception, keeps the decoder invariant |
| Gateway.XmlGatewayParser.constructor | src/python/osrf/gateway.py:74-78 | a new parser has no result and three empty stacks, and satisfies the invariant |
| Gateway.XmlGatewayParser.GetResult | src/python/osrf/gateway.py:80-81 | returns the recorded result, which refers only to containers that exist |
| Gateway.XmlGatewayParser.GetAttr | src/python/osrf/gateway.py:83-87 | returns the value of the first attribute with that name, or None |
| Gateway.XmlGatewayParser.AppendChild | src/python/osrf/gateway.py:127-153 | performs exactly the attach transition, including its exceptions, and keeps the invariant |
| Gateway.XmlGatewayParser.AttachByKey | src/python/osrf/gateway.py:139-153 | a dict or keyed record stores the child under the key popped from `keyStack`, or raises on an empty stack |
| Gateway.XmlGatewayParser.AttachByPosition | src/python/osrf/gateway.py:142-149 | a positional record stores the child under the key at the popped counter and pushes the next counter while keys remain |
| Gateway.XmlGatewayParser.OpenContainer | src/python/osrf/gateway.py:103-120 | performs the open transition (create, attach, push, and push a counter for a hinted array) and keeps the invariant |
| Gateway.XmlGatewayParser.StartElement | src/python/osrf/gateway.py:89-124 | performs the start-tag transition and keeps the invariant |
| Gateway.XmlGatewayParser.EndElement | src/python/osrf/gateway.py:155-157 | performs the end-tag transition and keeps the invariant |
| Gateway.XmlGatewayParser.Characters | src/python/osrf/gateway.py:159-160 | performs the text transition and keeps the invariant |
| GatewayProperties.StepKeepsResult | src/python/osrf/gateway.py:129-130 | once a result is recorded, no event replaces it |
| GatewayProperties.AttachKeepsResult | src/python/osrf/gateway.py:129-130 | attaching never replaces a recorded result |
| GatewayProperties.OpenKeepsResult | src/python/osrf/gateway.py:129-130 | opening a container never replaces a recorded result |
| GatewayProperties.RunKeepsResult | src/python/osrf/gateway.py:129-130 | over any stream, a recorded result stays the result |
| GatewayProperties.RootIsOutermostContainer | src/python/osrf/gateway.py:110-120 | when the reply opens with an array or object with no class hint or an empty one, that container is the result whatever follows |
| GatewayProperties.HintedRootIsOutermostRecord | src/python/osrf/gateway.py:101-108 | when the reply opens with a registered class hint, the first step opens one empty record of that class, and that record is the result whatever follows |
| GatewayProperties.AttachWithoutParent | src/python/osrf/gateway.py:129-132 | with no open container, a child only becomes the result if none was recorded |
| GatewayProperties.AttachToList | src/python/osrf/gateway.py:134-137 | a child attached to an open list is appended to it; no other container and no stack changes |
| GatewayProperties.AttachToDict | src/python/osrf/gateway.py:139-140 | a dict stores the child under the last announced key and pops it; it raises exactly when no key was announced |
| GatewayProperties.AttachToPositionalRecord | src/python/osrf/gateway.py:142-149 | a positional record fills the key at the counter, advances the counter while keys remain, and raises on no counter or a counter past the keys |
| GatewayProperties.AttachToNamedRecord | src/python/osrf/gateway.py:150-153 | a keyed record stores the child under the popped key, or raises on an empty key stack |
| GatewayProperties.HintedStartOpensRecord | src/python/osrf/gateway.py:101-108 | a start tag with a registered class hint attaches and opens an empty record, and pushes a counter 0 when the tag is `array` |
| GatewayProperties.UnknownHintRaises | src/python/osrf/gateway.py:101-103 | a class hint the registry does not know raises and leaves the parser unchanged |
| GatewayProperties.ElementAnnouncesKey | src/python/osrf/gateway.py:97-99 | `<element>` only pushes its `key` attribute (None if absent) |
| GatewayProperties.LeafTagsAttachWithoutFrame | src/python/osrf/gateway.py:93-124 | `<null>` attaches None and `<boolean>` attaches whether `value` is "true"; neither opens a container |
| GatewayProperties.OtherTagsIgnored | src/python/osrf/gateway.py:89-124 | any other unhinted tag changes nothing |
| GatewayProperties.ObjectExample | src/python/osrf/gateway.py:89-160 | `<object><element key="x">5</element></object>` decodes to `{"x": "5"}` |
| GatewayProperties.ArrayExample | src/python/osrf/gateway.py:89-160 | `<array><null/><boolean value="true"/></array>` decodes to `[None, True]` |
| GatewayProperties.TextChunksNotCoalesced | src/python/osrf/gateway.py:159-160 | two text callbacks inside one array become two separate strings |
| GatewayProperties.UnbalancedEndRaises | src/python/osrf/gateway.py:155-157 | `</array>` or `</object>` with nothing open raises |
| GatewayProperties.LeadingNullIsNotTheResult | src/python/osrf/gateway.py:129-130 | a leading `<null/>` leaves the result unset, so the next value becomes the result |
| FormDecoding.ReplacePlus | src/python/osrf/gateway.py:160 | every `+` becomes a space and every other character is kept, position by position |
| FormDecoding.HexDigit | src/python/osrf/gateway.py:160 | the hex digit chosen for a value reads back as that value |
| FormDecoding.UnquotePlusInvertsQuotePlus | src/python/osrf/gateway.py:160 | `unquote_plus` undoes `quote_plus` on every byte string |
| FormDecoding.UnquotePlusPlainText | src/python/osrf/gateway.py:160 | text without `%` or `+` passes through `unquote_plus` unchanged |
| FormDecoding.UnquoteNoLonger | src/python/osrf/gateway.py:160 | percent-decoding never lengthens the text |
| XmlAttrs.Lookup | src/python/osrf/gateway.py:83-87 | None exactly when no attribute has the name; otherwise the value of the first attribute that does |
| XmlAttrs.FirstMatchIsLookup | src/libopensrf/transport_session.c:499-511 | the value of the first pair whose name matches is what the lookup returns |
| Buffers.CStr | src/libopensrf/utils.c:180 | the C string of a buffer is its longest NUL-free prefix, ended by a NUL when shorter than the buffer |
| Buffers.CStrAtTerminator | src/libopensrf/utils.c:180 | the C string ends at the first NUL |
| Buffers.GrownSize | src/libopensrf/utils.c:186-189 | the grown capacity exceeds the needed length and is no smaller than the old capacity |
| Buffers.GrownSizeIsADoubling | src/libopensrf/utils.c:186-189 | the grown capacity is the old capacity doubled some number of times |
| Buffers.GrownSizeIsLeast | src/libopensrf/utils.c:186-189 | it is the smallest such doubling that exceeds the needed length |
| Buffers.ZeroCapacityNeverGrows | src/libopensrf/utils.c:186-189 | doubling a capacity of 0 never exceeds any length, so the loop as written never ends |
| Buffers.GrowingBuffer.constructor | src/libopensrf/utils.c:134-149 | a new buffer is empty, with the requested capacity plus one terminator byte, every byte of it NUL |
| Buffers.BufferInit | src/libopensrf/utils.c:134-149 | returns NULL exactly when the requested size exceeds the maximum, and otherwise an empty, all-NUL buffer of that capacity plus the terminator byte |
| Buffers.GrowingBuffer.Add | src/libopensrf/utils.c:177-208 | NULL or empty data change nothing and return 0; otherwise the data is appended after growing by doubling when needed, the new length is returned, and the buffer is freed with 0 returned when growth would pass the maximum |
| Buffers.GrowingBuffer.Grow | src/libopensrf/utils.c:186-203 | capacity becomes the least doubling above the needed length; success exactly when within the maximum; the text is copied into a fresh array |
| Buffers.GrowingBuffer.Append | src/libopensrf/utils.c:205-207 | the text is appended in place and the length grows by its size |
| Buffers.GrowingBuffer.AddChar | src/libopensrf/utils.c:256-262 | appends one character through the add path (a NUL appends nothing) and always returns 1 |
| Buffers.GrowingBuffer.Reset | src/libopensrf/utils.c:211-217 | the buffer becomes empty, the capacity is kept, the whole capacity is zeroed, and 1 is returned |
| Buffers.GrowingBuffer.Release | src/libopensrf/utils.c:222-227 | hands back exactly the text held, and the buffer object is gone |
| Escaping.Uescape | src/libopensrf/utils.c:266-366 | the loop computes the escaping function: each token escaped in order, or NULL on an invalid lead byte |
| Escaping.ReadSequence | src/libopensrf/utils.c:277-300 | succeeds exactly when all continuation bytes are present, and then yields the decoded code point and the index of the last byte read |
| Escaping.HexPaddedReadsBack | src/libopensrf/utils.c:302 | the `%04x` digits are lowercase ASCII hex digits that read back as the number |
| Escaping.HexPaddedWidth | src/libopensrf/utils.c:302 | a number below 16^w prints in exactly w digits |
| Escaping.MaskTestsSelectRanges | src/libopensrf/utils.c:279-293 | on lead bytes C0..F4, the `&` tests select the ranges F0.., E0..EF and C0..DF, and the `^` strips exactly the marker bits |
| Escaping.LowSixBitsAreRemainder | src/libopensrf/utils.c:298 | masking with 0x3F keeps the value modulo 64 |
| Escaping.LeadByteRanges | src/libopensrf/utils.c:281-293 | a lead byte announces 3, 2 or 1 continuation bytes and contributes its bits above the marker |
| Escaping.SequenceCutShortReadsPastEnd | src/libopensrf/utils.c:295-300 | on the string C3 00, the loop as written takes the NUL as the continuation byte and resumes at index 2, outside the string; the model returns NULL in both modes |
| Escaping.EscapeAsciiShape | src/libopensrf/utils.c:309-357 | one ASCII byte escapes to ASCII, and in full mode to text without control characters |
| Escaping.EscapedIsAscii | src/libopensrf/utils.c:266-366 | all output is ASCII, and in full mode it has no control characters |
| Escaping.PlainModeCopiesAscii | src/libopensrf/utils.c:355-357 | plain mode copies ASCII text unchanged |
| Escaping.UnescapeInvertsFullEscape | src/libopensrf/utils.c:311-352 | full-mode escaping of ASCII text always succeeds, and JSON unescaping reads it back exactly |
| Escaping.Utf8DecodesToCodePoint | src/libopensrf/utils.c:277-300 | for each code point from 0x80 to 0x10FFFF, the lead byte of its UTF-8 form announces the right number of continuation bytes, and the accumulated value is the code point |
| Escaping.EscapeOfUtf8 | src/libopensrf/utils.c:277-302 | any non-ASCII code point in UTF-8 escapes to `\u` followed by its `%04x` hex |
| Escaping.InvalidLeadByteFails | src/libopensrf/utils.c:304-307 | a byte 80..BF or above F4 in lead position makes the whole result NULL |
| Escaping.EscapeTwoByteExample | src/libopensrf/utils.c:277-302 | bytes C3 A9 escape to `\u00e9` |
| Escaping.EscapeFourByteExample | src/libopensrf/utils.c:277-302 | bytes F0 9F 98 80 escape to `\u1f600` (five digits, as `%04x` prints) |
| Jabber.AtoiReadsDecimal | src/libopensrf/transport_session.c:405-407 | `atoi` reads back any decimal number, with or without a minus sign |
| Jabber.AtoiOfDigits | src/libopensrf/transport_session.c:470 | `atoi` of a digit string is its decimal value |
| Jabber.DecimalValueOfItoa | src/libopensrf/transport_session.c:470 | the digits of a number have that number as their value |
| Jabber.TagOf | src/libopensrf/transport_session.c:389-491 | every recognised tag is recognised only from its exact element name |
| Jabber.TagOfName | src/libopensrf/transport_session.c:517-609 | each tag's element name is recognised as that tag |
| Jabber.ErrorStartAsWritten | src/libopensrf/transport_session.c:467-474 | as written, `<error>` without a `code` attribute has no defined outcome; with one, it is the modelled start |
| Jabber.IqStartAsWritten | src/libopensrf/transport_session.c:476-490 | as written, `<iq>` without a `type` attribute has no defined outcome; with one, it is the modelled start |
| Jabber.TransportSession.constructor | src/libopensrf/transport_session.c:93-126 | a new session has all flags cleared, empty buffers, error code 0 and broadcast 0 |
| Jabber.TransportSession.ResetSessionBuffers | src/libopensrf/transport_session.c:611-626 | empties the twelve reset buffers (not the status buffer) and returns 1; nothing else changes |
| Jabber.TransportSession.OnMessageStart | src/libopensrf/transport_session.c:396-410 | `<message>` raises `in_message`, appends its addressing and routing attributes, and reads `broadcast` when present |
| Jabber.TransportSession.OnPresenceStart | src/libopensrf/transport_session.c:431-436 | `<presence>` raises `in_presence` and appends `from` and `to` |
| Jabber.TransportSession.OnStreamStart | src/libopensrf/transport_session.c:453-458 | `<stream:stream>` advances CONNECTING_1 to CONNECTING_2 and records the session id |
| Jabber.TransportSession.OnErrorStart | src/libopensrf/transport_session.c:467-474 | `<error>` raises `in_message_error`, appends its type, and reads its code when present |
| Jabber.TransportSession.OnIqStart | src/libopensrf/transport_session.c:476-490 | `<iq>` raises `in_iq`, and connects on type "result" during CONNECTING_2 |
| Jabber.TransportSession.OpenFlag | src/libopensrf/transport_session.c:412-464 | the remaining start tags raise their flag, or change the connection state |
| Jabber.TransportSession.CloseFlag | src/libopensrf/transport_session.c:559-608 | the end tags that do not end a stanza lower their flag |
| Jabber.TransportSession.StartElementHandler | src/libopensrf/transport_session.c:389-491 | performs the start-tag transition of the session |
| Jabber.TransportSession.EndElementHandler | src/libopensrf/transport_session.c:517-609 | performs the end-tag transition, including delivery and the buffer reset |
| Jabber.TransportSession.CharacterHandler | src/libopensrf/transport_session.c:632-666 | performs the text transition of the session |
| Jabber.AddRoutingAttrs | src/libopensrf/transport_session.c:398-404 | appends each of the seven addressing and routing attributes to its own buffer |
| Jabber.BufferAddAttr | src/libopensrf/utils.c:177-182 | appending a possibly absent attribute value to a buffer |
| Jabber.GetXmlAttr | src/libopensrf/transport_session.c:499-511 | the scan returns the value of the first pair whose name matches, or NULL |
| JabberProperties.StreamAnswersFirstStep | src/libopensrf/transport_session.c:453-458 | in CONNECTING_1, `<stream:stream>` moves to CONNECTING_2 and appends the `id` to the session id, and nothing else changes |
| JabberProperties.StreamOutsideFirstStepIgnored | src/libopensrf/transport_session.c:453-458 | outside CONNECTING_1, `<stream:stream>` changes nothing |
| JabberProperties.StreamErrorDisconnects | src/libopensrf/transport_session.c:444-449 | `<stream:error>` raises the stream-error flag and clears `connected`, and nothing else changes |
| JabberProperties.HandshakeConnects | src/libopensrf/transport_session.c:460-464 | `<handshake>` connects and clears the connecting phase, and nothing else changes |
| JabberProperties.IqConnectsOnlyAsLoginResult | src/libopensrf/transport_session.c:476-484 | `<iq>` always raises `in_iq`; it connects exactly when its type is "result" during CONNECTING_2; no buffer changes |
| JabberProperties.IqWithoutTypeOnlyMarksIq | src/libopensrf/transport_session.c:476-490 | in the corrected model, an `<iq>` without a type only raises `in_iq` |
| JabberProperties.IqWithoutTypeIsUndefinedAsWritten | src/libopensrf/transport_session.c:479-480 | as written, an `<iq>` without a type reaches `strcmp` with NULL |
| JabberProperties.ErrorWithoutCodeKeepsCode | src/libopensrf/transport_session.c:467-474 | in the corrected model, an `<error>` without a code keeps the previous code, raises `in_message_error` and appends its type |
| JabberProperties.ErrorWithCodeReadsIt | src/libopensrf/transport_session.c:470 | an `<error>` with a decimal code stores that number |
| JabberProperties.ErrorWithoutCodeIsUndefinedAsWritten | src/libopensrf/transport_session.c:470 | as written, an `<error>` without a code reaches `atoi` with NULL |
| JabberProperties.StartConnection | src/libopensrf/transport_session.c:444-484 | a start tag changes the connection state only in one of four ways: stream error disconnects, stream answer advances, handshake or login connects, or nothing |
| JabberProperties.StartKeepsStreamError | src/libopensrf/transport_session.c:444-449 | no start tag clears the stream-error flag |
| JabberProperties.StartKeepsConsistent | src/libopensrf/transport_session.c:389-491 | start tags keep "connected implies not connecting" |
| JabberProperties.EndFlags | src/libopensrf/transport_session.c:517-609 | end tags never touch the connection state, and only `</error:error>` clears the stream-error flag |
| JabberProperties.EndKeepsConsistent | src/libopensrf/transport_session.c:517-609 | end tags keep "connected implies not connecting" |
| JabberProperties.HandleKeepsConsistent | src/libopensrf/transport_session.c:389-666 | every SAX event keeps "connected implies not connecting" |
| JabberProperties.CharactersKeepFlags | src/libopensrf/transport_session.c:632-666 | text never changes a flag or delivers a message |
| JabberProperties.FeedKeepsConsistent | src/libopensrf/transport_session.c:389-666 | any event stream keeps "connected implies not connecting" |
| JabberProperties.StreamErrorClearedOnlyByItsEnd | src/libopensrf/transport_session.c:605-608 | once raised, the stream-error flag is cleared by `</error:error>` and by no other event, `</stream:error>` included |
| JabberProperties.MessagePartsNeedMessage | src/libopensrf/transport_session.c:412-429 | outside a message, `<body>`, `<subject>` and `<thread>` change nothing |
| JabberProperties.AbsentAttributeLeavesBuffer | src/libopensrf/utils.c:177-178 | appending an absent attribute leaves the buffer as it was |
| JabberProperties.CharactersRouting | src/libopensrf/transport_session.c:641-659 | text goes to body, subject and thread only inside a message with that flag up, and to status only inside presence and status; every other buffer is kept |
| JabberProperties.CharactersOutsideStanzaIgnored | src/libopensrf/transport_session.c:641-659 | outside a message, and outside presence status, text changes nothing |
| JabberProperties.StanzaEndEmptiesBuffers | src/libopensrf/transport_session.c:554-626 | the end of a message, iq or presence empties every buffer but the status buffer, and keeps the error code and the broadcast value |
| JabberProperties.StanzaEndLowersItsFlag | src/libopensrf/transport_session.c:554-591 | the end of a message, iq or presence lowers that stanza's own flag and leaves every other flag as it was |
| JabberProperties.ResetBuffersIdempotent | src/libopensrf/transport_session.c:611-626 | resetting twice is resetting once |
| JabberProperties.DeliveryAtMessageEnd | src/libopensrf/transport_session.c:521-557 | a message is delivered exactly on `</message>` with a callback installed, and no other event delivers one |
| JabberProperties.DeliveredMessageCarriesBuffers | src/libopensrf/transport_session.c:530-548 | the delivered message carries every collected buffer, the broadcast value, and the error type and code exactly when an error type was collected |
| JabberExample.HelloRouting | src/libopensrf/transport_session.c:398-404 | `<message from="alice" to="bob">` fills only the sender and recipient buffers |
| JabberExample.HelloDelivered | src/libopensrf/transport_session.c:396-557 | `<message from="alice" to="bob"><body>hi</body></message>` delivers a message with body "hi" from alice to bob |
| SocketBundle.FirstIndexIsFirst | src/libopensrf/socket_bundle.c:351-360 | the search finds nothing exactly when no node has the descriptor, and otherwise stops at the first that does |
| SocketBundle.ParentOf | src/libopensrf/socket_bundle.c:68-70 | the parent id is kept when positive and is 0 otherwise |
| SocketBundle.TruncDiv | src/libopensrf/socket_bundle.c:452 | C division rounds toward zero: the remainder takes the dividend's sign and is smaller than the divisor |
| SocketBundle.RemoveFirstTakesOne | src/libopensrf/socket_bundle.c:363-392 | removal takes out exactly the first node with the descriptor, or changes nothing when there is none |
| SocketBundle.RemoveUndoesAdd | src/libopensrf/socket_bundle.c:363-378 | removing the descriptor just added restores the list |
| SocketBundle.RemovePassesOverOtherHead | src/libopensrf/socket_bundle.c:380-391 | a head with another descriptor stays, and removal goes on in the rest |
| SocketBundle.FindFindsNewest | src/libopensrf/socket_bundle.c:351-360 | a node just added is the one found for its descriptor |
| SocketBundle.MaxFdBounds | src/libopensrf/socket_bundle.c:537-545 | the maximum is at least 0 and at least every descriptor in the list |
| SocketBundle.MaxFdAttained | src/libopensrf/socket_bundle.c:537-545 | the maximum is 0 or some node's descriptor |
| SocketBundle.SelectBoundCoversAll | src/libopensrf/socket_bundle.c:537-545 | the bound passed to `select` is above every descriptor in the list |
| SocketBundle.AcceptedClientIsFound | src/libopensrf/socket_bundle.c:677-684 | a client accepted on an INET or UNIX server is the node found first for its descriptor, is a client of the server's type with the server as parent, and the rest of the list is unchanged |
| SocketBundle.SocketManager.constructor | src/libopensrf/socket_bundle.c:57-75 | a new manager has an empty list |
| SocketBundle.SocketManager.AddNode | src/libopensrf/socket_bundle.c:57-75 | a fresh node with the given fields is linked at the head; the rest of the list is unchanged |
| SocketBundle.SocketManager.FindNode | src/libopensrf/socket_bundle.c:351-360 | the walk returns NULL exactly when no node has the descriptor, and otherwise the first node that does |
| SocketBundle.SocketManager.RemoveNode | src/libopensrf/socket_bundle.c:363-392 | the list afterwards is the old list without its first node for the descriptor |
| SocketBundle.SocketManager.UnlinkHead | src/libopensrf/socket_bundle.c:373-378 | unlinking a matching head leaves the rest of the list |
| SocketBundle.SocketManager.Unlink | src/libopensrf/socket_bundle.c:383-388 | relinking the predecessor drops exactly the node after it |
| SocketBundle.SocketManager.SelectBound | src/libopensrf/socket_bundle.c:537-545 | the loop returns one more than the largest descriptor (1 for an empty list) |
| SocketBundle.SocketManager.HandleNewClient | src/libopensrf/socket_bundle.c:665-687 | a missing server or a failed accept returns -1 and leaves the list; otherwise 0, with the accepted client added at the head for an INET or UNIX server |
| SocketBundle.SplitTimeout | src/libopensrf/socket_bundle.c:451-453 | seconds and microseconds recombine to the input, the microseconds stay below one second, and they have the input's sign |

## Left out

- I/O is out of the model: sockets, `accept`, `select`, `send`, `recv`, libxml2's push parser and Python's `make_parser`. The accepted descriptor and the SAX events are parameters.
- Logging (`osrfLog*`, `fprintf`) is out of the model. It changes no state.
- socket_bundle.h is not part of this model. The endpoint kinds and address types become small datatypes.
- Only the socket-list part of `socket_bundle.c` is modelled. Connecting, listening, reading client data and the socket manager's lifetime are left out: they are system calls around the list.
- The message callback, `message_init` and `set_msg_error` are left out. The callback is a `hasCallback` flag. A delivered message is the record of the buffers it would copy. The `msg == NULL` exit at transport_session.c:550 is not modelled, because allocation does not fail in the model.
- The session buffers are modelled by their contents. Inside the session, `BUFFER_MAX_SIZE` failures are out of the model; the growing buffer itself models them. `buffer_add_n` is an append of the chunk.
- NULL receivers (`gb`, `ses`, `mgr`) are out of the model: an object in the model always exists. The NULL data and empty-data paths of `buffer_add` are modelled.
- `uescape` takes its `size` argument only for the initial capacity, so it is not modelled. The `MAX` limit of its output buffer is also out.
- Buffers.GrowingBuffer.Add: `int` overflow of `data_len + n_used` and of `size *= 2` is not modelled. Lengths are unbounded, and the maximum size is a parameter.
- Buffers.BufferInit: negative sizes cannot be expressed, because the size is a `nat`.
- Jabber.AtoiReadsDecimal: `atoi` is modelled without 32-bit overflow, which the C standard leaves undefined.
- Jabber.TagOf: the handlers' chains of `strcmp` are computed once as a tag. The order of the tests is kept in how the tags are handled.
- Escaping.MaskTestsSelectRanges: the byte masks are stated arithmetically. This lemma links the arithmetic to the `bv8` operations of the source.
- The `CONNECTING_1` and `CONNECTING_2` constants are modelled as a three-valued phase, with `Idle` for 0.
- The flags of `jabber_machine` are `int`s set to 1 and 0, as in the source.
- The record registry that `osrfNewObjectFromHint` consults is a map from hint to layout. An unknown hint raises. A known hint yields an empty record of that class.
- `get_xml_attr` skipping a name whose value is NULL is not modelled: libxml2 never passes a NULL value in the pair list.
- Python's `==` comparison of `result` with None is the model's `Null` test. The model's values have no user-defined `__eq__`.

## Findings

| source | as written | input that shows it | evidently intended | confidence | as-written member | corrected member |
|---|---|---|---|---|---|---|
| src/libopensrf/utils.c:186-189 | `size *= 2` in a loop until the length fits | a buffer created with `buffer_init(0)`, then any non-empty `buffer_add` | the buffer grows to hold the data | not executed; no caller in the core asks for 0 bytes | Buffers.ZeroCapacityNeverGrows | Buffers.GrowingBuffer.Grow |
| src/libopensrf/utils.c:295-300 | reads the announced continuation bytes without checking for the terminator | bytes C3 00: the loop reads the NUL as a continuation byte, then the next loop test reads past the end of the string | a sequence cut short by the terminator is rejected like any invalid sequence | not executed | Escaping.SequenceCutShortReadsPastEnd | Escaping.Uescape |
| src/libopensrf/transport_session.c:479-480 | `strcmp(get_xml_attr(atts, "type"), "result")` | `<iq id="x">` with no `type` attribute passes NULL to `strcmp` | an iq without a type is not a login result: only `in_iq` is raised | not executed | Jabber.IqStartAsWritten | JabberProperties.IqWithoutTypeOnlyMarksIq |
| src/libopensrf/transport_session.c:470 | `atoi(get_xml_attr(atts, "code"))` | `<error type="cancel">` with no `code` attribute passes NULL to `atoi` | an error without a code leaves the code as it was | not executed | Jabber.ErrorStartAsWritten | JabberProperties.ErrorWithoutCodeKeepsCode |
