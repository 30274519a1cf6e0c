/**
 * What the gateway decoder's handlers promise, stated over the transition
 * functions of module Gateway (which the parser's methods are proved to
 * perform), and a few complete event streams with their decoded values.
 */
module GatewayProperties {
  import opened Wrappers
  import opened XmlAttrs
  import opened Gateway
  import FormDecoding

  /** The container on top of `objStack`. */
  function TopId(d: Decoder): nat
    requires d.objStack != []
  {
    Last(d.objStack)
  }

  /** Every heap cell but `p` is unchanged. */
  predicate OthersUnchanged(h: seq<Container>, h': seq<Container>, p: nat) {
    |h'| == |h| && forall q :: 0 <= q < |h| && q != p ==> h'[q] == h[q]
  }

  // ---------------------------------------------------------------------------
  // The result

  /** Once a result is recorded, no event changes it. */
  lemma StepKeepsResult(reg: Registry, d: Decoder, e: Event)
    requires Valid(reg, d) && !d.result.Null?
    ensures Step(reg, d, e).0.result == d.result
  {
    match e
    case StartElement(name, attrs) =>
      var tag := TagOf(name);
      if tag == NullTag {
        AttachKeepsResult(reg, d, Null);
      } else if tag != ElementTag {
        var hint := Lookup(attrs, "class_hint");
        if hint.Some? && hint.value != "" {
          if hint.value in reg {
            OpenKeepsResult(reg, d, Record(hint.value, map[]), tag == ArrayTag);
          }
        } else if tag == ArrayTag {
          OpenKeepsResult(reg, d, List([]), false);
        } else if tag == ObjectTag {
          OpenKeepsResult(reg, d, Dict(map[]), false);
        } else if tag == BooleanTag {
          AttachKeepsResult(reg, d, Bool(Lookup(attrs, "value") == Some("true")));
        }
      }
    case EndElement(_) =>
    case Characters(text) =>
      AttachKeepsResult(reg, d, Str(FormDecoding.UnquotePlus(text)));
  }

  /** `appendChild` records a child as the result only while the result is None. */
  lemma AttachKeepsResult(reg: Registry, d: Decoder, child: Val)
    requires Valid(reg, d) && Attachable(d, child) && !d.result.Null?
    ensures Attach(reg, d, child).0.result == d.result
  {
  }

  lemma OpenKeepsResult(reg: Registry, d: Decoder, c: Container, pushCounter: bool)
    requires Valid(reg, d) && !d.result.Null?
    requires c == List([]) || c == Dict(map[]) || (c.Record? && c.fields == map[] && c.hint in reg)
    ensures Open(reg, d, c, pushCounter).0.result == d.result
  {
  }

  /** Once a result is recorded, the rest of the parse never changes it. */
  lemma {:induction false} RunKeepsResult(reg: Registry, d: Decoder, events: seq<Event>)
    requires Valid(reg, d) && !d.result.Null?
    ensures Run(reg, d, events).0.result == d.result
    decreases |events|
  {
    if events != [] {
      StepKeepsResult(reg, d, events[0]);
      var (d1, err) := Step(reg, d, events[0]);
      if err.None? {
        RunKeepsResult(reg, d1, events[1..]);
      }
    }
  }

  /**
   * A stream that opens with a plain array or object (no `class_hint`, or an
   * empty one) decodes to that outermost container.
   */
  lemma RootIsOutermostContainer(reg: Registry, name: string, attrs: seq<Attr>, rest: seq<Event>)
    requires name == "array" || name == "object"
    requires Lookup(attrs, "class_hint").None? || Lookup(attrs, "class_hint") == Some("")
    ensures Run(reg, Init(), [StartElement(name, attrs)] + rest).0.result == Ref(0)
  {
    var events := [StartElement(name, attrs)] + rest;
    var (d1, err) := Step(reg, Init(), events[0]);
    assert err.None? && d1.result == Ref(0);
    assert events[1..] == rest;
    RunKeepsResult(reg, d1, rest);
  }

  /** A stream that opens with a tag carrying a registered class hint decodes to that record. */
  lemma HintedRootIsOutermostRecord(reg: Registry, name: string, attrs: seq<Attr>, hint: string, rest: seq<Event>)
    requires name != "null" && name != "element"
    requires Lookup(attrs, "class_hint") == Some(hint) && hint != "" && hint in reg
    ensures var (d1, err) := Step(reg, Init(), StartElement(name, attrs));
      err.None? && d1.heap == [Record(hint, map[])] && d1.objStack == [0]
    ensures Run(reg, Init(), [StartElement(name, attrs)] + rest).0.result == Ref(0)
  {
    var events := [StartElement(name, attrs)] + rest;
    HintedStartOpensRecord(reg, Init(), name, attrs, hint);
    var (d1, err) := Step(reg, Init(), events[0]);
    assert err.None? && d1.result == Ref(0);
    assert events[1..] == rest;
    RunKeepsResult(reg, d1, rest);
  }

  // ---------------------------------------------------------------------------
  // appendChild

  /** With no open container, attaching changes nothing but (possibly) the result. */
  lemma AttachWithoutParent(reg: Registry, d: Decoder, child: Val)
    requires Valid(reg, d) && Attachable(d, child) && d.objStack == []
    ensures var (d', err) := Attach(reg, d, child);
      && err.None?
      && d'.heap == d.heap && d'.objStack == d.objStack
      && d'.keyStack == d.keyStack && d'.posStack == d.posStack
      && d'.result == (if d.result.Null? then child else d.result)
  {
  }

  /** A list parent gets the child at its end; the key and position stacks are untouched. */
  lemma AttachToList(reg: Registry, d: Decoder, child: Val)
    requires Valid(reg, d) && Attachable(d, child)
    requires d.objStack != [] && d.heap[TopId(d)].List?
    ensures var (d', err) := Attach(reg, d, child); var p := TopId(d);
      && err.None?
      && d'.heap[p] == List(d.heap[p].items + [child])
      && OthersUnchanged(d.heap, d'.heap, p)
      && d'.objStack == d.objStack && d'.keyStack == d.keyStack && d'.posStack == d.posStack
  {
  }

  /**
   * A dict parent pops exactly one key and stores the child under it,
   * overwriting any earlier value; with no key announced, it raises and
   * leaves the heap and the stacks as they were.
   */
  lemma AttachToDict(reg: Registry, d: Decoder, child: Val)
    requires Valid(reg, d) && Attachable(d, child)
    requires d.objStack != [] && d.heap[TopId(d)].Dict?
    ensures var (d', err) := Attach(reg, d, child); var p := TopId(d);
      && (err.Some? <==> d.keyStack == [])
      && (d.keyStack == [] ==>
            err == Some(EmptyKeyStack) && d'.heap == d.heap && d'.keyStack == [])
      && (d.keyStack != [] ==>
            && d'.keyStack == DropLast(d.keyStack)
            && d'.heap[p] == Dict(d.heap[p].entries[Last(d.keyStack) := child])
            && OthersUnchanged(d.heap, d'.heap, p))
      && d'.objStack == d.objStack && d'.posStack == d.posStack
  {
  }

  /**
   * A record whose protocol is "array" stores the child under `keys[i]` for
   * the popped counter `i` and pushes `i + 1` back only while it is a valid
   * index, so the assignment of the last key removes the record's counter.
   * An empty `posStack`, or a counter past the keys, raises; in the latter
   * case the counter has already been popped.
   */
  lemma AttachToPositionalRecord(reg: Registry, d: Decoder, child: Val)
    requires Valid(reg, d) && Attachable(d, child)
    requires d.objStack != [] && d.heap[TopId(d)].Record?
    requires reg[d.heap[TopId(d)].hint].wireProtocol == "array"
    ensures var (d', err) := Attach(reg, d, child); var p := TopId(d);
      var keys := reg[d.heap[p].hint].keys;
      && d'.objStack == d.objStack && d'.keyStack == d.keyStack
      && (d.posStack == [] ==> err == Some(EmptyPosStack) && d'.heap == d.heap && d'.posStack == [])
      && (d.posStack != [] && Last(d.posStack) >= |keys| ==>
            && err == Some(PositionOutOfRange(Last(d.posStack)))
            && d'.heap == d.heap && d'.posStack == DropLast(d.posStack))
      && (d.posStack != [] && Last(d.posStack) < |keys| ==>
            var i := Last(d.posStack);
            && err.None?
            && d'.heap[p] == Record(d.heap[p].hint, d.heap[p].fields[Some(keys[i]) := child])
            && OthersUnchanged(d.heap, d'.heap, p)
            && d'.posStack == DropLast(d.posStack) + (if i + 1 < |keys| then [i + 1] else []))
  {
  }

  /** A record of any other protocol pops its field name from `keyStack`, like a dict. */
  lemma AttachToNamedRecord(reg: Registry, d: Decoder, child: Val)
    requires Valid(reg, d) && Attachable(d, child)
    requires d.objStack != [] && d.heap[TopId(d)].Record?
    requires reg[d.heap[TopId(d)].hint].wireProtocol != "array"
    ensures var (d', err) := Attach(reg, d, child); var p := TopId(d);
      && d'.objStack == d.objStack && d'.posStack == d.posStack
      && (d.keyStack == [] ==> err == Some(EmptyKeyStack) && d'.heap == d.heap && d'.keyStack == [])
      && (d.keyStack != [] ==>
            && err.None?
            && d'.keyStack == DropLast(d.keyStack)
            && d'.heap[p] == Record(d.heap[p].hint, d.heap[p].fields[Last(d.keyStack) := child])
            && OthersUnchanged(d.heap, d'.heap, p))
  {
  }

  // ---------------------------------------------------------------------------
  // startElement

  /**
   * A start tag with a non-empty registered `class_hint`, whatever its name
   * (other than `null` and `element`), attaches a fresh empty record and, if
   * that did not raise, pushes it on `objStack`; it pushes counter 0 on
   * `posStack` exactly when the tag is named "array", whatever the record's
   * protocol.
   */
  lemma HintedStartOpensRecord(reg: Registry, d: Decoder, name: string, attrs: seq<Attr>, hint: string)
    requires Valid(reg, d)
    requires name != "null" && name != "element"
    requires Lookup(attrs, "class_hint") == Some(hint) && hint != "" && hint in reg
    ensures var (d', err) := Start(reg, d, name, attrs);
      var id := |d.heap|;
      var (a, e) := Attach(reg, d.(heap := d.heap + [Record(hint, map[])]), Ref(id));
      && (e.Some? ==> (d', err) == (a, e))
      && (e.None? ==>
            && err.None?
            && a.heap[id] == Record(hint, map[])
            && d'.heap == a.heap && d'.keyStack == a.keyStack && d'.result == a.result
            && d'.objStack == d.objStack + [id]
            && d'.posStack == a.posStack + (if name == "array" then [0] else []))
  {
  }

  /** A `class_hint` the registry does not know raises before anything changes. */
  lemma UnknownHintRaises(reg: Registry, d: Decoder, name: string, attrs: seq<Attr>, hint: string)
    requires Valid(reg, d)
    requires name != "null" && name != "element"
    requires Lookup(attrs, "class_hint") == Some(hint) && hint != "" && hint !in reg
    ensures Start(reg, d, name, attrs) == (d, Some(UnknownClassHint(hint)))
  {
  }

  /** `element` announces its `key` attribute (None if absent) and creates no value. */
  lemma ElementAnnouncesKey(reg: Registry, d: Decoder, attrs: seq<Attr>)
    requires Valid(reg, d)
    ensures var (d', err) := Start(reg, d, "element", attrs);
      && err.None?
      && d'.keyStack == d.keyStack + [Lookup(attrs, "key")]
      && d'.heap == d.heap && d'.result == d.result
      && d'.objStack == d.objStack && d'.posStack == d.posStack
  {
  }

  /** `null` attaches None, and `boolean` attaches whether `value` is "true"; neither opens a frame. */
  lemma LeafTagsAttachWithoutFrame(reg: Registry, d: Decoder, attrs: seq<Attr>)
    requires Valid(reg, d)
    requires Lookup(attrs, "class_hint").None?
    ensures Start(reg, d, "null", attrs) == Attach(reg, d, Null)
    ensures Start(reg, d, "boolean", attrs) == Attach(reg, d, Bool(Lookup(attrs, "value") == Some("true")))
    ensures Start(reg, d, "null", attrs).0.objStack == d.objStack
    ensures Start(reg, d, "boolean", attrs).0.objStack == d.objStack
  {
  }

  /** Any other tag without a class hint is ignored. */
  lemma OtherTagsIgnored(reg: Registry, d: Decoder, name: string, attrs: seq<Attr>)
    requires Valid(reg, d)
    requires name !in {"null", "element", "array", "object", "boolean"}
    requires Lookup(attrs, "class_hint").None? || Lookup(attrs, "class_hint") == Some("")
    ensures Start(reg, d, name, attrs) == (d, None)
  {
  }

  // ---------------------------------------------------------------------------
  // Complete streams

  /** One step that does not raise hands the rest of the stream to the next state. */
  lemma RunStep(reg: Registry, d: Decoder, es: seq<Event>, d1: Decoder)
    requires Valid(reg, d) && es != [] && Step(reg, d, es[0]) == (d1, None)
    ensures Run(reg, d, es) == Run(reg, d1, es[1..])
  {
  }

  /** A run of no events changes nothing. */
  lemma RunEmpty(reg: Registry, d: Decoder, es: seq<Event>)
    requires Valid(reg, d) && es == []
    ensures Run(reg, d, es) == (d, None)
  {
  }

  /** A run of one event that succeeds ends where the step leaves it. */
  lemma RunOne(reg: Registry, d0: Decoder, e0: Event, d1: Decoder)
    requires Valid(reg, d0) && Step(reg, d0, e0) == (d1, None)
    ensures Run(reg, d0, [e0]) == (d1, None)
  {
    var es := [e0];
    assert es[0] == e0;
    RunStep(reg, d0, es, d1);
    RunEmpty(reg, d1, es[1..]);
  }

  /** A run of two events that each succeed ends where the second step leaves it. */
  lemma RunTwo(reg: Registry, d0: Decoder, e0: Event, d1: Decoder, e1: Event, d2: Decoder)
    requires Valid(reg, d0) && Step(reg, d0, e0) == (d1, None) && Step(reg, d1, e1) == (d2, None)
    ensures Run(reg, d0, [e0, e1]) == (d2, None)
  {
    var es := [e0, e1];
    RunStep(reg, d0, es, d1);
    assert es[1..] == [e1];
    RunOne(reg, d1, e1, d2);
  }

  lemma RunFour(reg: Registry, d0: Decoder, e0: Event, d1: Decoder, e1: Event, d2: Decoder,
                e2: Event, d3: Decoder, e3: Event, d4: Decoder)
    requires Valid(reg, d0) && Step(reg, d0, e0) == (d1, None) && Step(reg, d1, e1) == (d2, None)
    requires Step(reg, d2, e2) == (d3, None) && Step(reg, d3, e3) == (d4, None)
    ensures Run(reg, d0, [e0, e1, e2, e3]) == (d4, None)
  {
    var es := [e0, e1, e2, e3];
    RunStep(reg, d0, es, d1);
    assert es[1..] == [e1, e2, e3];
    RunStep(reg, d1, [e1, e2, e3], d2);
    assert [e1, e2, e3][1..] == [e2, e3];
    RunTwo(reg, d2, e2, d3, e3, d4);
  }

  lemma RunFive(reg: Registry, d0: Decoder, e0: Event, d1: Decoder, e1: Event, d2: Decoder,
                e2: Event, d3: Decoder, e3: Event, d4: Decoder, e4: Event, d5: Decoder)
    requires Valid(reg, d0) && Step(reg, d0, e0) == (d1, None) && Step(reg, d1, e1) == (d2, None)
    requires Step(reg, d2, e2) == (d3, None) && Step(reg, d3, e3) == (d4, None)
    requires Step(reg, d4, e4) == (d5, None)
    ensures Run(reg, d0, [e0, e1, e2, e3, e4]) == (d5, None)
  {
    var es := [e0, e1, e2, e3, e4];
    RunStep(reg, d0, es, d1);
    assert es[1..] == [e1, e2, e3, e4];
    RunFour(reg, d1, e1, d2, e2, d3, e3, d4, e4, d5);
  }

  lemma RunSix(reg: Registry, d0: Decoder, e0: Event, d1: Decoder, e1: Event, d2: Decoder,
               e2: Event, d3: Decoder, e3: Event, d4: Decoder, e4: Event, d5: Decoder, e5: Event, d6: Decoder)
    requires Valid(reg, d0) && Step(reg, d0, e0) == (d1, None) && Step(reg, d1, e1) == (d2, None)
    requires Step(reg, d2, e2) == (d3, None) && Step(reg, d3, e3) == (d4, None)
    requires Step(reg, d4, e4) == (d5, None) && Step(reg, d5, e5) == (d6, None)
    ensures Run(reg, d0, [e0, e1, e2, e3, e4, e5]) == (d6, None)
  {
    var es := [e0, e1, e2, e3, e4, e5];
    RunStep(reg, d0, es, d1);
    assert es[1..] == [e1, e2, e3, e4, e5];
    RunFive(reg, d1, e1, d2, e2, d3, e3, d4, e4, d5, e5, d6);
  }

  /** Two decoder snapshots with the same fields are the same. */
  lemma SameDecoder(a: Decoder, b: Decoder)
    requires a.result == b.result && a.objStack == b.objStack && a.keyStack == b.keyStack
    requires a.posStack == b.posStack && a.heap == b.heap
    ensures a == b
  {
  }

  // The object example, one event at a time.

  lemma ObjectStep0(reg: Registry)
    ensures Step(reg, Init(), StartElement("object", [])) == (Decoder(Ref(0), [0], [], [], [Dict(map[])]), None)
  {
    var (d1, r1) := Step(reg, Init(), StartElement("object", []));
    assert r1.None? && d1.result == Ref(0) && d1.heap == [Dict(map[])] && d1.objStack == [0];
    assert d1.keyStack == [] && d1.posStack == [];
    SameDecoder(d1, Decoder(Ref(0), [0], [], [], [Dict(map[])]));
  }

  lemma ObjectStep1(reg: Registry)
    requires Valid(reg, Decoder(Ref(0), [0], [], [], [Dict(map[])]))
    ensures Step(reg, Decoder(Ref(0), [0], [], [], [Dict(map[])]), StartElement("element", [("key", "x")]))
         == (Decoder(Ref(0), [0], [Some("x")], [], [Dict(map[])]), None)
  {
    var d1 := Decoder(Ref(0), [0], [], [], [Dict(map[])]);
    var (d2, r2) := Step(reg, d1, StartElement("element", [("key", "x")]));
    assert r2.None? && d2.keyStack == [Some("x")] && d2 == d1.(keyStack := [Some("x")]);
  }

  lemma ObjectStep2(reg: Registry)
    requires Valid(reg, Decoder(Ref(0), [0], [Some("x")], [], [Dict(map[])]))
    ensures Step(reg, Decoder(Ref(0), [0], [Some("x")], [], [Dict(map[])]), Characters("5"))
         == (Decoder(Ref(0), [0], [], [], [Dict(map[Some("x") := Str("5")])]), None)
  {
    FormDecoding.UnquotePlusPlainText("5");
    var d2 := Decoder(Ref(0), [0], [Some("x")], [], [Dict(map[])]);
    var (d3, r3) := Step(reg, d2, Characters("5"));
    assert r3.None? && d3.keyStack == [] && d3.heap == [Dict(map[Some("x") := Str("5")])];
    SameDecoder(d3, Decoder(Ref(0), [0], [], [], [Dict(map[Some("x") := Str("5")])]));
  }

  lemma ObjectFinalTree(reg: Registry)
    ensures Valid(reg, Decoder(Ref(0), [], [], [], [Dict(map[Some("x") := Str("5")])]))
    ensures Decoded(reg, Decoder(Ref(0), [], [], [], [Dict(map[Some("x") := Str("5")])]))
         == VDict(map[Some("x") := VStr("5")])
  {
    var h := [Dict(map[Some("x") := Str("5")])];
    assert Tree(h, Str("5")) == VStr("5");
  }

  /** object / element key="x" / "5" / end element / end object decodes to {'x': '5'}. */
  lemma ObjectExample(reg: Registry)
    ensures var (d, err) := Run(reg, Init(), [
        StartElement("object", []), StartElement("element", [("key", "x")]),
        Characters("5"), EndElement("element"), EndElement("object")]);
      err.None? && Valid(reg, d) && Decoded(reg, d) == VDict(map[Some("x") := VStr("5")])
  {
    var e0, e1, e2, e3, e4 := StartElement("object", []), StartElement("element", [("key", "x")]),
      Characters("5"), EndElement("element"), EndElement("object");
    var d1 := Decoder(Ref(0), [0], [], [], [Dict(map[])]);
    var d2 := Decoder(Ref(0), [0], [Some("x")], [], [Dict(map[])]);
    var d3 := Decoder(Ref(0), [0], [], [], [Dict(map[Some("x") := Str("5")])]);
    var d5 := d3.(objStack := []);
    ObjectStep0(reg);
    ObjectStep1(reg);
    ObjectStep2(reg);
    assert Step(reg, d3, e3) == (d3, None);
    assert Step(reg, d3, e4) == (d5, None);
    RunFive(reg, Init(), e0, d1, e1, d2, e2, d3, e3, d3, e4, d5);
    ObjectFinalTree(reg);
  }

  // ---------------------------------------------------------------------------
  // Streams whose root is a plain array

  /** A fresh decoder's root list holding `items`. */
  function RootList(items: seq<Val>): Decoder {
    Decoder(Ref(0), [0], [], [], [List(items)])
  }

  predicate Scalars(items: seq<Val>) {
    forall i :: 0 <= i < |items| ==> !items[i].Ref?
  }

  lemma OpenRootArray(reg: Registry)
    ensures Step(reg, Init(), StartElement("array", [])) == (RootList([]), None)
  {
    var (d1, r1) := Step(reg, Init(), StartElement("array", []));
    assert r1.None? && d1.result == Ref(0) && d1.heap == [List([])] && d1.objStack == [0];
    assert d1.keyStack == [] && d1.posStack == [];
    SameDecoder(d1, RootList([]));
  }

  lemma AppendScalarToRootList(reg: Registry, items: seq<Val>, v: Val)
    requires Scalars(items) && !v.Ref?
    ensures Valid(reg, RootList(items))
    ensures Attach(reg, RootList(items), v) == (RootList(items + [v]), None)
  {
    var (d, r) := Attach(reg, RootList(items), v);
    assert d.heap == [List(items + [v])];
    SameDecoder(d, RootList(items + [v]));
  }

  lemma EndRootList(reg: Registry, items: seq<Val>)
    requires Scalars(items)
    ensures Valid(reg, RootList(items))
    ensures Step(reg, RootList(items), EndElement("array")) == (RootList(items).(objStack := []), None)
  {
  }

  lemma NullOnRootList(reg: Registry, items: seq<Val>)
    requires Scalars(items)
    ensures Valid(reg, RootList(items))
    ensures Step(reg, RootList(items), StartElement("null", [])) == (RootList(items + [Null]), None)
  {
    AppendScalarToRootList(reg, items, Null);
    assert Lookup([], "class_hint") == None;
    LeafTagsAttachWithoutFrame(reg, RootList(items), []);
  }

  lemma TrueOnRootList(reg: Registry, items: seq<Val>)
    requires Scalars(items)
    ensures Valid(reg, RootList(items))
    ensures Step(reg, RootList(items), StartElement("boolean", [("value", "true")]))
         == (RootList(items + [Bool(true)]), None)
  {
    AppendScalarToRootList(reg, items, Bool(true));
    assert Lookup([("value", "true")], "class_hint") == None;
    assert Lookup([("value", "true")], "value") == Some("true");
    LeafTagsAttachWithoutFrame(reg, RootList(items), [("value", "true")]);
  }

  lemma TextOnRootList(reg: Registry, items: seq<Val>, text: string)
    requires Scalars(items)
    requires forall i :: 0 <= i < |text| ==> text[i] != '%' && text[i] != '+'
    ensures Valid(reg, RootList(items))
    ensures Step(reg, RootList(items), Characters(text)) == (RootList(items + [Str(text)]), None)
  {
    FormDecoding.UnquotePlusPlainText(text);
    AppendScalarToRootList(reg, items, Str(text));
  }

  /** The decoded value of a finished root list of scalars. */
  lemma RootListTree(reg: Registry, items: seq<Val>, values: seq<Value>)
    requires Scalars(items) && |values| == |items|
    requires forall i :: 0 <= i < |items| ==> Tree([List(items)], items[i]) == values[i]
    ensures Valid(reg, RootList(items).(objStack := []))
    ensures Decoded(reg, RootList(items).(objStack := [])) == VList(values)
  {
    var t := Decoded(reg, RootList(items).(objStack := []));
    assert t.items == values;
  }

  lemma ArrayExampleRun(reg: Registry)
    ensures Run(reg, Init(), [
        StartElement("array", []), StartElement("null", []), EndElement("null"),
        StartElement("boolean", [("value", "true")]), EndElement("boolean"), EndElement("array")])
      == (RootList([Null, Bool(true)]).(objStack := []), None)
  {
    var e0, e1, e2, e3, e4, e5 := StartElement("array", []), StartElement("null", []), EndElement("null"),
      StartElement("boolean", [("value", "true")]), EndElement("boolean"), EndElement("array");
    var d1, d2, d3 := RootList([]), RootList([Null]), RootList([Null, Bool(true)]);
    OpenRootArray(reg);
    assert [] + [Null] == [Null];
    assert [Null] + [Bool(true)] == [Null, Bool(true)];
    NullOnRootList(reg, []);
    TrueOnRootList(reg, [Null]);
    assert Step(reg, d2, e2) == (d2, None);
    assert Step(reg, d3, e4) == (d3, None);
    EndRootList(reg, [Null, Bool(true)]);
    RunSix(reg, Init(), e0, d1, e1, d2, e2, d2, e3, d3, e4, d3, e5, d3.(objStack := []));
  }

  lemma ArrayExampleTree(reg: Registry)
    ensures Valid(reg, RootList([Null, Bool(true)]).(objStack := []))
    ensures Decoded(reg, RootList([Null, Bool(true)]).(objStack := [])) == VList([VNone, VBool(true)])
  {
    assert Tree([List([Null, Bool(true)])], Null) == VNone;
    assert Tree([List([Null, Bool(true)])], Bool(true)) == VBool(true);
    RootListTree(reg, [Null, Bool(true)], [VNone, VBool(true)]);
  }

  /** array / null / end null / boolean value="true" / end boolean / end array decodes to [None, True]. */
  lemma ArrayExample(reg: Registry)
    ensures var (d, err) := Run(reg, Init(), [
        StartElement("array", []), StartElement("null", []), EndElement("null"),
        StartElement("boolean", [("value", "true")]), EndElement("boolean"), EndElement("array")]);
      err.None? && Valid(reg, d) && Decoded(reg, d) == VList([VNone, VBool(true)])
  {
    ArrayExampleRun(reg);
    ArrayExampleTree(reg);
  }

  lemma TextChunksSteps(reg: Registry)
    ensures Step(reg, Init(), StartElement("array", [])) == (RootList([]), None)
    ensures Step(reg, RootList([]), Characters("ab")) == (RootList([Str("ab")]), None)
    ensures Step(reg, RootList([Str("ab")]), Characters("cd")) == (RootList([Str("ab"), Str("cd")]), None)
    ensures Step(reg, RootList([Str("ab"), Str("cd")]), EndElement("array"))
      == (RootList([Str("ab"), Str("cd")]).(objStack := []), None)
  {
    OpenRootArray(reg);
    assert [] + [Str("ab")] == [Str("ab")];
    assert [Str("ab")] + [Str("cd")] == [Str("ab"), Str("cd")];
    TextOnRootList(reg, [], "ab");
    TextOnRootList(reg, [Str("ab")], "cd");
    EndRootList(reg, [Str("ab"), Str("cd")]);
  }

  lemma TextChunksRun(reg: Registry)
    ensures Run(reg, Init(), [StartElement("array", []), Characters("ab"), Characters("cd"), EndElement("array")])
      == (RootList([Str("ab"), Str("cd")]).(objStack := []), None)
  {
    var e0, e1, e2, e3 := StartElement("array", []), Characters("ab"), Characters("cd"), EndElement("array");
    var d1, d2, d3 := RootList([]), RootList([Str("ab")]), RootList([Str("ab"), Str("cd")]);
    TextChunksSteps(reg);
    RunFour(reg, Init(), e0, d1, e1, d2, e2, d3, e3, d3.(objStack := []));
  }

  lemma TextChunksTree(reg: Registry)
    ensures Valid(reg, RootList([Str("ab"), Str("cd")]).(objStack := []))
    ensures Decoded(reg, RootList([Str("ab"), Str("cd")]).(objStack := [])) == VList([VStr("ab"), VStr("cd")])
  {
    assert Tree([List([Str("ab"), Str("cd")])], Str("ab")) == VStr("ab");
    assert Tree([List([Str("ab"), Str("cd")])], Str("cd")) == VStr("cd");
    RootListTree(reg, [Str("ab"), Str("cd")], [VStr("ab"), VStr("cd")]);
  }

  /**
   * Text is not coalesced: two character events inside one array become two
   * sibling strings, not one.
   */
  lemma TextChunksNotCoalesced(reg: Registry)
    ensures var (d, err) := Run(reg, Init(), [
        StartElement("array", []), Characters("ab"), Characters("cd"), EndElement("array")]);
      err.None? && Valid(reg, d) && Decoded(reg, d) == VList([VStr("ab"), VStr("cd")])
  {
    TextChunksRun(reg);
    TextChunksTree(reg);
  }

  /** An end tag with nothing open raises. */
  lemma UnbalancedEndRaises(reg: Registry, name: string)
    requires name == "array" || name == "object"
    ensures Run(reg, Init(), [EndElement(name)]).1 == Some(EmptyObjStack)
  {
  }

  /**
   * A leading None is not kept as the result: the test `result == None`
   * lets the next value take its place.
   */
  lemma LeadingNullIsNotTheResult(reg: Registry)
    ensures Run(reg, Init(), [StartElement("null", []), EndElement("null"),
                              StartElement("boolean", [("value", "true")])]).0.result == Bool(true)
  {
    var e0, e1, e2 := StartElement("null", []), EndElement("null"), StartElement("boolean", [("value", "true")]);
    assert Step(reg, Init(), e0) == (Init(), None);
    assert Step(reg, Init(), e1) == (Init(), None);
    assert Lookup([("value", "true")], "class_hint") == None;
    assert Lookup([("value", "true")], "value") == Some("true");
    assert Step(reg, Init(), e2).0.result == Bool(true);
    var es := [e0, e1, e2];
    RunStep(reg, Init(), es, Init());
    assert es[1..] == [e1, e2];
    RunStep(reg, Init(), [e1, e2], Init());
    assert [e1, e2][1..] == [e2];
  }
}
