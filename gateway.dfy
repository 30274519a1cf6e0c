/**
 * The XML gateway decoder (`XMLGatewayParser`): a push-driven SAX handler
 * that rebuilds one nested value from start-tag, end-tag and text events.
 *
 * Python containers are mutable objects shared by reference: the parser
 * appends a fresh list, dict or record to its parent and then keeps a second
 * reference to it on `objStack`, and `result` is a third reference to the
 * outermost one. The model keeps that identity explicit: every container the
 * parser creates lives in `heap`, and a value refers to a container by its
 * index there (`Ref(id)`). `Tree` reads a value back out of the heap.
 *
 * The handlers are specified by pure transition functions over a `Decoder`
 * snapshot (`Attach`, `Start`, `End`, `Text`); the class
 * `XmlGatewayParser` updates its fields in place and its methods are proved
 * to perform exactly those transitions.
 */
module Gateway {
  import opened Wrappers
  import opened XmlAttrs
  import FormDecoding

  /** A registry layout: the ordered field keys and the `wireProtocol` tag ("array" = positional). */
  datatype Layout = Layout(keys: seq<string>, wireProtocol: string)

  /** The record registry: class hint to layout. Read-only while decoding. */
  type Registry = map<string, Layout>

  /** A dict key or record field name; None when `<element>` carried no `key` attribute. */
  type Key = Option<string>

  /** A Python value as the parser holds it: scalars inline, containers by identity. */
  datatype Val = Null | Bool(b: bool) | Str(s: string) | Ref(id: nat)

  /** A mutable Python container: a list, a dict, or a class-hinted record. */
  datatype Container =
    | List(items: seq<Val>)
    | Dict(entries: map<Key, Val>)
    | Record(hint: string, fields: map<Key, Val>)

  /** The exceptions a handler can raise; each aborts the parse. */
  datatype Failure =
    | UnknownClassHint(hint: string)   // the registry has no such hint
    | EmptyKeyStack                    // `keyStack.pop()` on an empty list
    | EmptyPosStack                    // `posStack.pop()` on an empty list
    | PositionOutOfRange(pos: int)     // `keys[i]` with `i >= len(keys)`
    | EmptyObjStack                    // `objStack.pop()` on an empty list

  /** A snapshot of the parser's four fields plus the containers it has created. */
  datatype Decoder = Decoder(
    result: Val,
    objStack: seq<nat>,
    keyStack: seq<Key>,
    posStack: seq<int>,
    heap: seq<Container>)

  /** One SAX event. */
  datatype Event =
    | StartElement(name: string, attrs: seq<Attr>)
    | EndElement(name: string)
    | Characters(text: string)

  /** A decoded value, read back out of the heap. */
  datatype Value =
    | VNone
    | VBool(b: bool)
    | VStr(s: string)
    | VList(items: seq<Value>)
    | VDict(entries: map<Key, Value>)
    | VRecord(hint: string, fields: map<Key, Value>)

  function Last<T>(s: seq<T>): T
    requires s != []
  {
    s[|s| - 1]
  }

  function DropLast<T>(s: seq<T>): seq<T>
    requires s != []
  {
    s[..|s| - 1]
  }

  /** The initial state set by `__init__`. */
  function Init(): Decoder {
    Decoder(Null, [], [], [], [])
  }

  /** `v` refers, if at all, to a container strictly after `lo` and before `hi`. */
  predicate RefWithin(v: Val, lo: int, hi: int) {
    v.Ref? ==> lo < v.id < hi
  }

  predicate ChildrenWithin(c: Container, lo: int, hi: int) {
    match c
    case List(items) => forall i :: 0 <= i < |items| ==> RefWithin(items[i], lo, hi)
    case Dict(m) => forall k :: k in m ==> RefWithin(m[k], lo, hi)
    case Record(_, f) => forall k :: k in f ==> RefWithin(f[k], lo, hi)
  }

  /**
   * The decoder invariant: open containers exist, every container only holds
   * containers created after it (so the heap is a forest rooted at older
   * containers), every record's hint is registered, and counters are
   * non-negative.
   */
  predicate Valid(reg: Registry, d: Decoder) {
    && (forall k :: 0 <= k < |d.objStack| ==> d.objStack[k] < |d.heap|)
    && (forall i :: 0 <= i < |d.heap| ==> ChildrenWithin(d.heap[i], i, |d.heap|))
    && (forall i :: 0 <= i < |d.heap| ==> d.heap[i].Record? ==> d.heap[i].hint in reg)
    && RefWithin(d.result, -1, |d.heap|)
    && (forall k :: 0 <= k < |d.posStack| ==> d.posStack[k] >= 0)
  }

  /** A value that may be attached: a scalar, or a container newer than every open one. */
  predicate Attachable(d: Decoder, child: Val) {
    child.Ref? ==> child.id < |d.heap| && forall k :: 0 <= k < |d.objStack| ==> d.objStack[k] < child.id
  }

  /** The value `v` denotes in `heap`. */
  function Tree(heap: seq<Container>, v: Val): Value
    requires forall i :: 0 <= i < |heap| ==> ChildrenWithin(heap[i], i, |heap|)
    requires RefWithin(v, -1, |heap|)
    decreases if v.Ref? then |heap| - v.id else 0
  {
    match v
    case Null => VNone
    case Bool(b) => VBool(b)
    case Str(s) => VStr(s)
    case Ref(id) =>
      match heap[id]
      case List(items) =>
        VList(seq(|items|, i requires 0 <= i < |items| => Tree(heap, items[i])))
      case Dict(m) => VDict(map k | k in m :: Tree(heap, m[k]))
      case Record(h, f) => VRecord(h, map k | k in f :: Tree(heap, f[k]))
  }

  /** The decoded value of a decoder: its result, read out of its heap. */
  function Decoded(reg: Registry, d: Decoder): Value
    requires Valid(reg, d)
  {
    Tree(d.heap, d.result)
  }

  /**
   * `appendChild`: record the first non-None value as the result, then attach
   * the child to the container on top of `objStack`: a list appends it; a
   * dict, or a record whose protocol is not "array", stores it under a key
   * popped from `keyStack`; a positional record stores it by the counter on
   * top of `posStack`.
   */
  function Attach(reg: Registry, d: Decoder, child: Val): (r: (Decoder, Option<Failure>))
    requires Valid(reg, d) && Attachable(d, child)
    ensures Valid(reg, r.0)
  {
    var d := d.(result := if d.result.Null? then child else d.result);
    if d.objStack == [] then (d, None)
    else
      var p := Last(d.objStack);
      match d.heap[p]
      case List(items) => (d.(heap := d.heap[p := List(items + [child])]), None)
      case Dict(_) => AttachUnderKey(d, p, child)
      case Record(hint, _) =>
        if reg[hint].wireProtocol == "array" then AttachPositional(d, p, reg[hint].keys, child)
        else AttachUnderKey(d, p, child)
  }

  /** `parent[key] = child` for a dict, `parent.setField(key, child)` for a record. */
  function Store(c: Container, key: Key, child: Val): Container
    requires !c.List?
  {
    match c
    case Dict(m) => Dict(m[key := child])
    case Record(h, f) => Record(h, f[key := child])
  }

  /** Pop a key from `keyStack` (an exception if there is none) and store the child under it. */
  function AttachUnderKey(d: Decoder, p: nat, child: Val): (Decoder, Option<Failure>)
    requires p < |d.heap| && !d.heap[p].List?
  {
    if d.keyStack == [] then (d, Some(EmptyKeyStack))
    else (d.(keyStack := DropLast(d.keyStack),
             heap := d.heap[p := Store(d.heap[p], Last(d.keyStack), child)]), None)
  }

  /**
   * Pop the counter `i` from `posStack` (an exception if there is none), store
   * the child under `keys[i]` (an exception if out of range, after the pop) and
   * push `i + 1` back only if it is still a valid index.
   */
  function AttachPositional(d: Decoder, p: nat, keys: seq<string>, child: Val): (Decoder, Option<Failure>)
    requires p < |d.heap| && d.heap[p].Record?
    requires d.posStack != [] ==> Last(d.posStack) >= 0
  {
    if d.posStack == [] then (d, Some(EmptyPosStack))
    else
      var i := Last(d.posStack);
      var popped := DropLast(d.posStack);
      if i >= |keys| then (d.(posStack := popped), Some(PositionOutOfRange(i)))
      else
        (d.(posStack := if i + 1 < |keys| then popped + [i + 1] else popped,
            heap := d.heap[p := Store(d.heap[p], Some(keys[i]), child)]), None)
  }

  /** Create container `c`, attach it, and on success open it (and push counter 0 if asked). */
  function Open(reg: Registry, d: Decoder, c: Container, pushCounter: bool): (r: (Decoder, Option<Failure>))
    requires Valid(reg, d)
    requires c == List([]) || c == Dict(map[]) || (c.Record? && c.fields == map[] && c.hint in reg)
    ensures Valid(reg, r.0)
  {
    var id := |d.heap|;
    var d1 := d.(heap := d.heap + [c]);
    assert Valid(reg, d1) by {
      forall i | 0 <= i < |d1.heap| ensures ChildrenWithin(d1.heap[i], i, |d1.heap|) {
        if i < id { assert d1.heap[i] == d.heap[i]; }
      }
    }
    var (d2, err) := Attach(reg, d1, Ref(id));
    if err.Some? then (d2, err)
    else (d2.(objStack := d2.objStack + [id],
              posStack := if pushCounter then d2.posStack + [0] else d2.posStack), None)
  }

  /** The element names `startElement` tells apart, tested in the handler's order. */
  datatype Tag = NullTag | ElementTag | ArrayTag | ObjectTag | BooleanTag | OtherTag

  function TagOf(name: string): Tag
  {
    if name == "null" then NullTag
    else if name == "element" then ElementTag
    else if name == "array" then ArrayTag
    else if name == "object" then ObjectTag
    else if name == "boolean" then BooleanTag
    else OtherTag
  }

  /** `startElement`. */
  function Start(reg: Registry, d: Decoder, name: string, attrs: seq<Attr>): (r: (Decoder, Option<Failure>))
    requires Valid(reg, d)
    ensures Valid(reg, r.0)
  {
    StartTag(reg, d, TagOf(name), attrs)
  }

  function StartTag(reg: Registry, d: Decoder, tag: Tag, attrs: seq<Attr>): (r: (Decoder, Option<Failure>))
    requires Valid(reg, d)
    ensures Valid(reg, r.0)
  {
    if tag == NullTag then Attach(reg, d, Null)
    else if tag == ElementTag then (d.(keyStack := d.keyStack + [Lookup(attrs, "key")]), None)
    else
      var hint := Lookup(attrs, "class_hint");
      if hint.Some? && hint.value != "" then
        if hint.value !in reg then (d, Some(UnknownClassHint(hint.value)))
        else Open(reg, d, Record(hint.value, map[]), tag == ArrayTag)
      else if tag == ArrayTag then Open(reg, d, List([]), false)
      else if tag == ObjectTag then Open(reg, d, Dict(map[]), false)
      else if tag == BooleanTag then Attach(reg, d, Bool(Lookup(attrs, "value") == Some("true")))
      else (d, None)
  }

  /** `endElement`. */
  function End(d: Decoder, name: string): (r: (Decoder, Option<Failure>))
    ensures r.0.heap == d.heap && r.0.result == d.result
    ensures r.0.keyStack == d.keyStack && r.0.posStack == d.posStack
    ensures (name == "array" || name == "object") && d.objStack != [] ==>
              r == (d.(objStack := DropLast(d.objStack)), None)
    ensures (name == "array" || name == "object") && d.objStack == [] ==> r == (d, Some(EmptyObjStack))
    ensures !(name == "array" || name == "object") ==> r == (d, None)
  {
    if name == "array" || name == "object" then
      if d.objStack == [] then (d, Some(EmptyObjStack))
      else (d.(objStack := DropLast(d.objStack)), None)
    else (d, None)
  }

  /** `characters`. */
  function Text(reg: Registry, d: Decoder, chars: string): (r: (Decoder, Option<Failure>))
    requires Valid(reg, d)
    ensures Valid(reg, r.0)
  {
    Attach(reg, d, Str(FormDecoding.UnquotePlus(chars)))
  }

  /** One event: the handler the SAX driver calls for it. */
  function Step(reg: Registry, d: Decoder, e: Event): (r: (Decoder, Option<Failure>))
    requires Valid(reg, d)
    ensures Valid(reg, r.0)
  {
    match e
    case StartElement(name, attrs) => Start(reg, d, name, attrs)
    case EndElement(name) => End(d, name)
    case Characters(text) => Text(reg, d, text)
  }

  /**
   * The whole parse: the events in order, stopping at the first exception
   * (which propagates out of the SAX driver).
   */
  function Run(reg: Registry, d: Decoder, events: seq<Event>): (r: (Decoder, Option<Failure>))
    requires Valid(reg, d)
    ensures Valid(reg, r.0)
    decreases |events|
  {
    if events == [] then (d, None)
    else
      var (d1, err) := Step(reg, d, events[0]);
      if err.Some? then (d1, err) else Run(reg, d1, events[1..])
  }

  /**
   * The parser object. Its fields are the snapshot above; every handler
   * updates them in place and is proved to perform the transition that the
   * corresponding function specifies.
   */
  class XmlGatewayParser {
    const registry: Registry
    var result: Val
    var objStack: seq<nat>
    var keyStack: seq<Key>
    var posStack: seq<int>
    /** Every container created so far, by identity. */
    var heap: seq<Container>

    ghost function State(): Decoder
      reads this
    {
      Decoder(result, objStack, keyStack, posStack, heap)
    }

    ghost predicate Inv()
      reads this
    {
      Valid(registry, State())
    }

    /** `__init__`: no result and three empty stacks. */
    constructor (registry: Registry)
      ensures this.registry == registry && State() == Init() && Inv()
    {
      this.registry := registry;
      result, objStack, keyStack, posStack, heap := Null, [], [], [], [];
    }

    /** `getResult`: the value recorded by the first non-None attach, read out of the heap. */
    method GetResult() returns (r: Val)
      requires Inv()
      ensures r == result && RefWithin(r, -1, |heap|)
    {
      r := result;
    }

    /** `__getAttr`: the value of the first attribute named `name`, or None. */
    method GetAttr(attrs: seq<Attr>, name: string) returns (v: Option<string>)
      ensures v == Lookup(attrs, name)
    {
      for i := 0 to |attrs|
        invariant forall j :: 0 <= j < i ==> attrs[j].0 != name
      {
        if attrs[i].0 == name {
          v := Some(attrs[i].1);
          FirstMatchIsLookup(attrs, name, i);
          return;
        }
      }
      v := None;
    }

    /** `appendChild`. */
    method AppendChild(child: Val) returns (err: Option<Failure>)
      requires Inv() && Attachable(State(), child)
      modifies this
      ensures (State(), err) == Attach(registry, old(State()), child)
      ensures Inv()
    {
      if result.Null? {
        result := child;
      }
      if objStack == [] {
        return None;
      }
      var p := objStack[|objStack| - 1];
      match heap[p]
      case List(items) =>
        heap := heap[p := List(items + [child])];
        err := None;
      case Dict(_) =>
        err := AttachByKey(p, child);
      case Record(hint, _) =>
        if registry[hint].wireProtocol == "array" {
          err := AttachByPosition(p, registry[hint].keys, child);
        } else {
          err := AttachByKey(p, child);
        }
    }

    /** The dict / named-record branch of `appendChild`. */
    method AttachByKey(p: nat, child: Val) returns (err: Option<Failure>)
      requires p < |heap| && !heap[p].List?
      modifies this
      ensures (State(), err) == AttachUnderKey(old(State()), p, child)
    {
      if keyStack == [] {
        return Some(EmptyKeyStack);
      }
      var key := keyStack[|keyStack| - 1];
      keyStack := keyStack[..|keyStack| - 1];
      heap := heap[p := Store(heap[p], key, child)];
      err := None;
    }

    /** The positional-record branch of `appendChild`. */
    method AttachByPosition(p: nat, keys: seq<string>, child: Val) returns (err: Option<Failure>)
      requires p < |heap| && heap[p].Record?
      requires posStack != [] ==> Last(posStack) >= 0
      modifies this
      ensures (State(), err) == AttachPositional(old(State()), p, keys, child)
    {
      if posStack == [] {
        return Some(EmptyPosStack);
      }
      var i := posStack[|posStack| - 1];
      posStack := posStack[..|posStack| - 1];
      if i >= |keys| {
        return Some(PositionOutOfRange(i));
      }
      if i + 1 < |keys| {
        posStack := posStack + [i + 1];
      }
      heap := heap[p := Store(heap[p], Some(keys[i]), child)];
      err := None;
    }

    /** Create a container, attach it and, unless that raised, push it (and a counter if asked). */
    method OpenContainer(c: Container, pushCounter: bool) returns (err: Option<Failure>)
      requires Inv()
      requires c == List([]) || c == Dict(map[]) || (c.Record? && c.fields == map[] && c.hint in registry)
      modifies this
      ensures Inv()
      ensures (State(), err) == Open(registry, old(State()), c, pushCounter)
    {
      var id := |heap|;
      heap := heap + [c];
      assert State() == old(State()).(heap := old(State()).heap + [c]);
      err := AppendChild(Ref(id));
      if err.Some? {
        return;
      }
      objStack := objStack + [id];
      if pushCounter {
        posStack := posStack + [0];
      }
    }

    /** `startElement`. */
    method StartElement(name: string, attrs: seq<Attr>) returns (err: Option<Failure>)
      requires Inv()
      modifies this
      ensures Inv()
      ensures (State(), err) == Start(registry, old(State()), name, attrs)
    {
      var tag := TagOf(name);
      if tag == NullTag {
        err := AppendChild(Null);
        return;
      }
      if tag == ElementTag {
        var key := GetAttr(attrs, "key");
        keyStack := keyStack + [key];
        return None;
      }
      var hint := GetAttr(attrs, "class_hint");
      if hint.Some? && hint.value != "" {
        if hint.value !in registry {
          return Some(UnknownClassHint(hint.value));
        }
        err := OpenContainer(Record(hint.value, map[]), tag == ArrayTag);
        return;
      }
      if tag == ArrayTag {
        err := OpenContainer(List([]), false);
        return;
      }
      if tag == ObjectTag {
        err := OpenContainer(Dict(map[]), false);
        return;
      }
      if tag == BooleanTag {
        var value := GetAttr(attrs, "value");
        err := AppendChild(Bool(value == Some("true")));
        return;
      }
      err := None;
    }

    /** `endElement`. */
    method EndElement(name: string) returns (err: Option<Failure>)
      requires Inv()
      modifies this
      ensures Inv()
      ensures (State(), err) == End(old(State()), name)
    {
      err := None;
      if name == "array" || name == "object" {
        if objStack == [] {
          return Some(EmptyObjStack);
        }
        objStack := objStack[..|objStack| - 1];
      }
    }

    /** `characters`: one decoded string per call. */
    method Characters(chars: string) returns (err: Option<Failure>)
      requires Inv()
      modifies this
      ensures Inv()
      ensures (State(), err) == Text(registry, old(State()), chars)
    {
      err := AppendChild(Str(FormDecoding.UnquotePlus(chars)));
    }
  }
}
