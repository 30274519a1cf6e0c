/**
 * Attribute lookup shared by the two SAX front ends: the gateway parser's
 * private `__getAttr` and the Jabber session's `get_xml_attr` both answer
 * "the value of the first attribute with this name, or nothing".
 */
module XmlAttrs {
  import opened Wrappers

  /** An attribute of a start tag: its name and its value. */
  type Attr = (string, string)

  /** The value paired with the first attribute called `name`, or None. */
  function Lookup(attrs: seq<Attr>, name: string): (v: Option<string>)
    ensures v.None? <==> forall i :: 0 <= i < |attrs| ==> attrs[i].0 != name
    ensures v.Some? ==> exists i :: 0 <= i < |attrs| && attrs[i] == (name, v.value) &&
                          forall j :: 0 <= j < i ==> attrs[j].0 != name
  {
    if attrs == [] then None
    else if attrs[0].0 == name then
      assert attrs[0] == (name, attrs[0].1);
      Some(attrs[0].1)
    else
      var rest := Lookup(attrs[1..], name);
      if rest.Some? then
        var i :| 0 <= i < |attrs[1..]| && attrs[1..][i] == (name, rest.value) &&
                 forall j :: 0 <= j < i ==> attrs[1..][j].0 != name;
        assert attrs[i + 1] == (name, rest.value);
        assert forall j :: 0 <= j < i + 1 ==> attrs[j].0 != name by {
          forall j | 0 <= j < i + 1 ensures attrs[j].0 != name {
            if j > 0 { assert attrs[j] == attrs[1..][j - 1]; }
          }
        }
        rest
      else
        assert forall i :: 0 <= i < |attrs| ==> attrs[i].0 != name by {
          forall i | 0 <= i < |attrs| ensures attrs[i].0 != name {
            if i > 0 { assert attrs[i] == attrs[1..][i - 1]; }
          }
        }
        rest
  }

  /** The first attribute with the name carries the value `Lookup` finds. */
  lemma FirstMatchIsLookup(attrs: seq<Attr>, name: string, i: nat)
    requires i < |attrs| && attrs[i].0 == name
    requires forall j :: 0 <= j < i ==> attrs[j].0 != name
    ensures Lookup(attrs, name) == Some(attrs[i].1)
  {
    var v := Lookup(attrs, name);
    var i' :| 0 <= i' < |attrs| && attrs[i'] == (name, v.value) &&
              forall j :: 0 <= j < i' ==> attrs[j].0 != name;
    assert i' == i;
  }
}
