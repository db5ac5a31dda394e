/**
Counting assertions in a SAML response. The parser collapses an element tree into nested
dictionaries, merging repeated siblings into lists, and the counter walks those. The single
assertion check is only as good as the collapse: no element may be lost or counted twice.
*/
module SamlAssertions {
  import opened Options

  datatype Attribute = Attribute(name: string, value: string)

  /** An element with its tag, stripped text and children, or a comment or processing instruction. */
  datatype Xml = Element(tag: string, attributes: seq<Attribute>, text: string, children: seq<Xml>) | Comment

  datatype Field = Field(key: string, value: Value)

  /** What the parser yields; the fields of a dictionary are in insertion order. */
  datatype Value = Text(text: string) | Dict(fields: seq<Field>) | List(items: seq<Value>)

  // ----- names -----

  function AfterLast(s: string, c: char): (r: string) {
    if c !in s then s
    else if s[|s| - 1] == c then []
    else AfterLast(s[..|s| - 1], c) + [s[|s| - 1]]
  }

  /** The name without its namespace, in either notation. */
  function LocalName(tag: string): string {
    AfterLast(AfterLast(tag, '}'), ':')
  }

  lemma {:induction false} AfterLastSplits(s: string, c: char) returns (before: string)
    ensures c !in AfterLast(s, c)
    ensures if c in s then s == before + [c] + AfterLast(s, c) else s == AfterLast(s, c)
  {
    before := "";
    if c in s {
      var front, last := s[..|s| - 1], s[|s| - 1];
      assert s == front + [last];
      if last == c {
        before := front;
      } else {
        before := AfterLastSplits(front, c);
        assert before + [c] + AfterLast(front, c) + [last] == before + [c] + (AfterLast(front, c) + [last]);
      }
    }
  }

  /** Main result on names: the local name is the longest end of the tag that has neither '}' nor ':'. */
  lemma {:induction false} LocalNameExactly(tag: string)
    ensures var name := LocalName(tag);
            && '}' !in name && ':' !in name
            && |name| <= |tag| && tag[|tag| - |name|..] == name
            && (|name| < |tag| ==> tag[|tag| - |name| - 1] == '}' || tag[|tag| - |name| - 1] == ':')
  {
    var inner := AfterLast(tag, '}');
    var before := AfterLastSplits(tag, '}');
    var within := AfterLastSplits(inner, ':');
    assert ':' in inner ==> inner == within + [':'] + LocalName(tag);
  }

  lemma {:induction false} AfterLastTail(s: string, tail: string, c: char)
    requires c !in tail
    ensures AfterLast(s + tail, c) == AfterLast(s, c) + tail
  {
    if tail == [] {
      assert s + tail == s;
    } else if c in s {
      var front, last := tail[..|tail| - 1], tail[|tail| - 1];
      AfterLastTail(s, front, c);
      assert (s + tail)[..|s + tail| - 1] == s + front && tail == front + [last];
    }
  }

  lemma {:induction false} AfterMark(prefix: string, name: string, c: char)
    requires c !in name
    ensures AfterLast(prefix + [c] + name, c) == name
  {
    AfterLastTail(prefix + [c], name, c);
  }

  /** In Clark notation, behind a prefix, or alone: the local name is the name. */
  lemma {:induction false} LocalNameIs(prefix: string, name: string)
    requires '}' !in name && ':' !in name
    ensures LocalName(name) == name && LocalName(prefix + "}" + name) == name && LocalName(prefix + ":" + name) == name
  {
    AfterMark(prefix, name, '}');
    AfterLastTail(prefix, ":" + name, '}');
    assert prefix + (":" + name) == prefix + ":" + name;
    AfterMark(AfterLast(prefix, '}'), name, ':');
    assert AfterLast(prefix, '}') + (":" + name) == AfterLast(prefix, '}') + ":" + name;
  }

  /** Keys the parser makes up itself start with characters that no XML name starts with. */
  predicate IsXmlName(name: string) {
    name == [] || (name[0] != '@' && name[0] != '#')
  }

  predicate WellNamed(x: Xml)
    decreases x, 1
  {
    x.Element? ==> IsXmlName(LocalName(x.tag)) && AllWellNamed(x.children)
  }

  predicate AllWellNamed(xs: seq<Xml>)
    decreases xs, 0
  {
    xs == [] || (WellNamed(xs[0]) && AllWellNamed(xs[1..]))
  }

  // ----- dictionaries -----

  function Get(fields: seq<Field>, key: string): Option<Value> {
    if fields == [] then None
    else if fields[0].key == key then Some(fields[0].value)
    else Get(fields[1..], key)
  }

  /** Assignment keeps the place of a key that is there, and appends one that is not. */
  function Put(fields: seq<Field>, key: string, value: Value): seq<Field> {
    if fields == [] then [Field(key, value)]
    else if fields[0].key == key then [Field(key, value)] + fields[1..]
    else [fields[0]] + Put(fields[1..], key, value)
  }

  /** Repeated siblings collapse into a list. */
  function AddChild(fields: seq<Field>, key: string, value: Value): seq<Field> {
    match Get(fields, key)
    case None => Put(fields, key, value)
    case Some(List(items)) => Put(fields, key, List(items + [value]))
    case Some(existing) => Put(fields, key, List([existing, value]))
  }

  // ----- the collapse -----

  function AddAttributes(fields: seq<Field>, attributes: seq<Attribute>): seq<Field>
    decreases |attributes|
  {
    if attributes == [] then fields
    else AddAttributes(Put(fields, "@_" + LocalName(attributes[0].name), Text(attributes[0].value)), attributes[1..])
  }

  function Finish(fields: seq<Field>, text: string): Value {
    if fields == [] then Text(text)
    else if text != "" then Dict(Put(fields, "#text", Text(text)))
    else Dict(fields)
  }

  function Collapse(x: Xml): Value
    requires x.Element?
    decreases x, 1
  {
    Finish(AddChildren(AddAttributes([], x.attributes), x.children), x.text)
  }

  function AddChildren(fields: seq<Field>, children: seq<Xml>): seq<Field>
    decreases children, 0
  {
    if children == [] then fields
    else if children[0].Comment? then AddChildren(fields, children[1..])
    else AddChildren(AddChild(fields, LocalName(children[0].tag), Collapse(children[0])), children[1..])
  }

  method ElementToDict(x: Xml) returns (v: Value)
    requires x.Element?
    ensures v == Collapse(x)
    decreases x
  {
    var node: seq<Field> := [];
    for i := 0 to |x.attributes|
      invariant AddAttributes(node, x.attributes[i..]) == AddAttributes([], x.attributes)
    {
      node := Put(node, "@_" + LocalName(x.attributes[i].name), Text(x.attributes[i].value));
      assert x.attributes[i..][1..] == x.attributes[i + 1..];
    }
    ghost var start := node;
    assert x.attributes[|x.attributes|..] == [];
    assert x.children[0..] == x.children;
    for i := 0 to |x.children|
      invariant AddChildren(node, x.children[i..]) == AddChildren(start, x.children)
    {
      var child := x.children[i];
      assert x.children[i..][1..] == x.children[i + 1..];
      if child.Element? {
        var value := ElementToDict(child);
        var existing := Get(node, LocalName(child.tag));
        if existing.None? {
          node := Put(node, LocalName(child.tag), value);
        } else if existing.value.List? {
          node := Put(node, LocalName(child.tag), List(existing.value.items + [value]));
        } else {
          node := Put(node, LocalName(child.tag), List([existing.value, value]));
        }
      }
    }
    assert x.children[|x.children|..] == [];
    if node == [] {
      v := Text(x.text);
    } else {
      if x.text != "" {
        node := Put(node, "#text", Text(x.text));
      }
      v := Dict(node);
    }
  }

  // ----- the count -----

  function Entries(v: Option<Value>): nat {
    match v
    case None => 0
    case Some(List(items)) => |items|
    case Some(_) => 1
  }

  /** Entries under the key `name` in a dictionary and in every dictionary inside it. */
  function CountAll(v: Value, name: string): nat
    decreases v, 1
  {
    if v.Dict? then Entries(Get(v.fields, name)) + CountFields(v.fields, name) else 0
  }

  function CountFields(fields: seq<Field>, name: string): nat
    decreases fields, 0
  {
    if fields == [] then 0 else CountInside(fields[0].value, name) + CountFields(fields[1..], name)
  }

  /** What the loop over a dictionary's values adds for one value. */
  function CountInside(v: Value, name: string): nat
    decreases v, 2
  {
    match v
    case Text(_) => 0
    case Dict(_) => CountAll(v, name)
    case List(items) => CountItems(items, name)
  }

  function CountItems(items: seq<Value>, name: string): nat
    decreases items, 0
  {
    if items == [] then 0 else CountItems(items[..|items| - 1], name) + CountAll(items[|items| - 1], name)
  }

  method CountAllNodes(v: Value, name: string) returns (count: nat)
    ensures count == CountAll(v, name)
    decreases v
  {
    count := 0;
    if !v.Dict? { return; }
    count := Entries(Get(v.fields, name));
    assert v.fields[0..] == v.fields;
    for i := 0 to |v.fields|
      invariant count + CountFields(v.fields[i..], name) == CountAll(v, name)
    {
      var value := v.fields[i].value;
      assert v.fields[i..][1..] == v.fields[i + 1..];
      match value {
        case List(items) =>
          ghost var before := count;
          for j := 0 to |items|
            invariant count == before + CountItems(items[..j], name)
          {
            var more := CountAllNodes(items[j], name);
            count := count + more;
            assert items[..j + 1][..j] == items[..j];
          }
          assert items[..|items|] == items;
        case Dict(_) =>
          var more := CountAllNodes(value, name);
          count := count + more;
        case Text(_) =>
      }
    }
    assert v.fields[|v.fields|..] == [];
  }

  // ----- what is counted -----

  /** The elements of a tree whose local name is `name`. */
  function Elements(x: Xml, name: string): nat
    decreases x, 1
  {
    if x.Comment? then 0 else (if LocalName(x.tag) == name then 1 else 0) + ElementsIn(x.children, name)
  }

  function ElementsIn(xs: seq<Xml>, name: string): nat
    decreases xs, 0
  {
    if xs == [] then 0 else Elements(xs[0], name) + ElementsIn(xs[1..], name)
  }

  /** What a dictionary under construction contributes. */
  function Total(fields: seq<Field>, name: string): nat {
    Entries(Get(fields, name)) + CountFields(fields, name)
  }

  lemma {:induction false} GetPut(fields: seq<Field>, key: string, value: Value, other: string)
    ensures Get(Put(fields, key, value), other) == if key == other then Some(value) else Get(fields, other)
  {
    if fields != [] && fields[0].key != key {
      GetPut(fields[1..], key, value, other);
      assert Put(fields, key, value)[1..] == Put(fields[1..], key, value);
    }
  }

  lemma {:induction false} CountPut(fields: seq<Field>, key: string, value: Value, name: string)
    ensures CountFields(Put(fields, key, value), name) + (if Get(fields, key).Some? then CountInside(Get(fields, key).value, name) else 0)
         == CountFields(fields, name) + CountInside(value, name)
  {
    if fields == [] {
      assert [Field(key, value)][1..] == [];
    } else if fields[0].key == key {
      assert Put(fields, key, value)[1..] == fields[1..];
    } else {
      CountPut(fields[1..], key, value, name);
      assert Put(fields, key, value)[1..] == Put(fields[1..], key, value);
    }
  }

  lemma {:induction false} PairCount(a: Value, b: Value, name: string)
    ensures CountItems([a, b], name) == CountAll(a, name) + CountAll(b, name)
  {
    assert [a, b][..1] == [a] && [a][..0] == [];
    assert CountItems([a], name) == CountAll(a, name);
  }

  /** Adding a child adds one entry under its name and what is inside it, and nothing else. */
  lemma {:induction false} AddChildTotal(fields: seq<Field>, key: string, value: Value, name: string)
    requires !value.List?
    ensures Total(AddChild(fields, key, value), name) == Total(fields, name) + (if key == name then 1 else 0) + CountAll(value, name)
  {
    var existing := Get(fields, key);
    var added := match existing
      case None => value
      case Some(List(items)) => List(items + [value])
      case Some(v) => List([v, value]);
    GetPut(fields, key, added, name);
    CountPut(fields, key, added, name);
    if existing.Some? {
      if existing.value.List? {
        assert (existing.value.items + [value])[..|existing.value.items|] == existing.value.items;
      } else {
        PairCount(existing.value, value, name);
      }
    }
  }

  lemma {:induction false} AttributesTotal(fields: seq<Field>, attributes: seq<Attribute>, name: string)
    requires IsXmlName(name) && Total(fields, name) == 0
    requires forall key :: Get(fields, key).Some? ==> Get(fields, key).value.Text?
    ensures Total(AddAttributes(fields, attributes), name) == 0
    decreases |attributes|
  {
    if attributes != [] {
      var key, value := "@_" + LocalName(attributes[0].name), Text(attributes[0].value);
      assert key[0] == '@';
      CountPut(fields, key, value, name);
      forall other { GetPut(fields, key, value, other); }
      AttributesTotal(Put(fields, key, value), attributes[1..], name);
    }
  }

  /** A field whose key the parser made up holds text. */
  ghost predicate MadeUpIsText(fields: seq<Field>) {
    forall key :: Get(fields, key).Some? && !IsXmlName(key) ==> Get(fields, key).value.Text?
  }

  lemma {:induction false} AttributesAreText(fields: seq<Field>, attributes: seq<Attribute>)
    requires MadeUpIsText(fields)
    ensures MadeUpIsText(AddAttributes(fields, attributes))
    decreases |attributes|
  {
    if attributes != [] {
      var key, value := "@_" + LocalName(attributes[0].name), Text(attributes[0].value);
      forall other { GetPut(fields, key, value, other); }
      AttributesAreText(Put(fields, key, value), attributes[1..]);
    }
  }

  lemma {:induction false} FinishTotal(fields: seq<Field>, text: string, name: string)
    requires IsXmlName(name) && MadeUpIsText(fields)
    ensures CountAll(Finish(fields, text), name) == Total(fields, name)
  {
    GetPut(fields, "#text", Text(text), name);
    CountPut(fields, "#text", Text(text), name);
    assert !IsXmlName("#text");
  }

  lemma {:induction false} ChildrenTotal(fields: seq<Field>, children: seq<Xml>, name: string)
    requires IsXmlName(name) && AllWellNamed(children) && MadeUpIsText(fields)
    ensures Total(AddChildren(fields, children), name) == Total(fields, name) + ElementsIn(children, name)
    ensures MadeUpIsText(AddChildren(fields, children))
    decreases children, 0
  {
    if children != [] {
      var child := children[0];
      if child.Comment? {
        ChildrenTotal(fields, children[1..], name);
      } else {
        CollapseCounts(child, name);
        var key, value := LocalName(child.tag), Collapse(child);
        AddChildTotal(fields, key, value, name);
        AddChildIsText(fields, key, value);
        ChildrenTotal(AddChild(fields, key, value), children[1..], name);
      }
    }
  }

  lemma {:induction false} AddChildIsText(fields: seq<Field>, key: string, value: Value)
    requires IsXmlName(key) && MadeUpIsText(fields)
    ensures MadeUpIsText(AddChild(fields, key, value))
  {
    var existing := Get(fields, key);
    var added := match existing
      case None => value
      case Some(List(items)) => List(items + [value])
      case Some(v) => List([v, value]);
    forall other { GetPut(fields, key, added, other); }
  }

  /** The dictionary of an element counts the elements strictly inside it. */
  lemma {:induction false} CollapseCounts(x: Xml, name: string)
    requires x.Element? && IsXmlName(name) && WellNamed(x)
    ensures CountAll(Collapse(x), name) == ElementsIn(x.children, name)
    ensures !Collapse(x).List?
    decreases x, 1
  {
    var start := AddAttributes([], x.attributes);
    AttributesTotal([], x.attributes, name);
    AttributesAreText([], x.attributes);
    ChildrenTotal(start, x.children, name);
    FinishTotal(AddChildren(start, x.children), x.text, name);
  }

  // ----- what the dictionary holds -----

  /** The element children with a given local name, in order. */
  function Named(children: seq<Xml>, key: string): (r: seq<Xml>)
    ensures forall i :: 0 <= i < |r| ==> r[i].Element?
    ensures |r| <= |children|
  {
    if children == [] then []
    else (if children[0].Element? && LocalName(children[0].tag) == key then [children[0]] else []) + Named(children[1..], key)
  }

  function Collapsed(elements: seq<Xml>): (r: seq<Value>)
    requires forall i :: 0 <= i < |elements| ==> elements[i].Element?
    ensures |r| == |elements|
  {
    seq(|elements|, i requires 0 <= i < |elements| => Collapse(elements[i]))
  }

  /** One value stands for itself, several are a list. */
  function Gathered(values: seq<Value>): Option<Value> {
    if values == [] then None else if |values| == 1 then Some(values[0]) else Some(List(values))
  }

  /** The value of the last attribute with a given local name. */
  function LastAttribute(attributes: seq<Attribute>, name: string): Option<Value> {
    if attributes == [] then None
    else
      var later := LastAttribute(attributes[1..], name);
      if later.None? && LocalName(attributes[0].name) == name then Some(Text(attributes[0].value)) else later
  }

  lemma {:induction false} CollapseIsNoList(x: Xml)
    requires x.Element?
    ensures !Collapse(x).List?
  {
  }

  lemma {:induction false} AddGathers(fields: seq<Field>, values: seq<Value>, key: string, value: Value)
    requires Get(fields, key) == Gathered(values) && !value.List? && forall i :: 0 <= i < |values| ==> !values[i].List?
    ensures Get(AddChild(fields, key, value), key) == Gathered(values + [value])
  {
    var added := match Get(fields, key)
      case None => value
      case Some(List(items)) => List(items + [value])
      case Some(v) => List([v, value]);
    GetPut(fields, key, added, key);
    if |values| == 1 { assert values + [value] == [values[0], value]; }
  }

  lemma {:induction false} AddLeavesOthers(fields: seq<Field>, key: string, value: Value, other: string)
    requires key != other
    ensures Get(AddChild(fields, key, value), other) == Get(fields, other)
  {
    var added := match Get(fields, key)
      case None => value
      case Some(List(items)) => List(items + [value])
      case Some(v) => List([v, value]);
    GetPut(fields, key, added, other);
  }

  lemma {:induction false} CollapsedConcat(a: seq<Xml>, b: seq<Xml>)
    requires (forall i :: 0 <= i < |a| ==> a[i].Element?) && forall i :: 0 <= i < |b| ==> b[i].Element?
    ensures Collapsed(a + b) == Collapsed(a) + Collapsed(b)
  {
  }

  lemma {:induction false} NamedStep(children: seq<Xml>, values: seq<Value>, key: string)
    requires children != [] && children[0].Element? && LocalName(children[0].tag) == key
    ensures values + [Collapse(children[0])] + Collapsed(Named(children[1..], key)) == values + Collapsed(Named(children, key))
  {
    var rest := Named(children[1..], key);
    CollapsedConcat([children[0]], rest);
    assert Collapsed([children[0]]) == [Collapse(children[0])];
    assert values + [Collapse(children[0])] + Collapsed(rest) == values + ([Collapse(children[0])] + Collapsed(rest));
  }

  lemma {:induction false} NotNamed(children: seq<Xml>, key: string)
    requires children != [] && (children[0].Comment? || LocalName(children[0].tag) != key)
    ensures Named(children, key) == Named(children[1..], key)
  {
  }

  lemma {:induction false} ChildrenGather(fields: seq<Field>, children: seq<Xml>, values: seq<Value>, key: string)
    requires Get(fields, key) == Gathered(values) && forall i :: 0 <= i < |values| ==> !values[i].List?
    ensures Get(AddChildren(fields, children), key) == Gathered(values + Collapsed(Named(children, key)))
    decreases |children|
  {
    if children == [] {
      assert values + Collapsed([]) == values;
    } else if children[0].Comment? {
      NotNamed(children, key);
      ChildrenGather(fields, children[1..], values, key);
    } else {
      var name, value := LocalName(children[0].tag), Collapse(children[0]);
      CollapseIsNoList(children[0]);
      if name == key {
        AddGathers(fields, values, key, value);
        ChildrenGather(AddChild(fields, key, value), children[1..], values + [value], key);
        NamedStep(children, values, key);
      } else {
        AddLeavesOthers(fields, name, value, key);
        NotNamed(children, key);
        ChildrenGather(AddChild(fields, name, value), children[1..], values, key);
      }
    }
  }

  /** Children with XML names leave alone the keys the parser makes up. */
  lemma {:induction false} ChildrenLeaveMadeUp(fields: seq<Field>, children: seq<Xml>, key: string)
    requires AllWellNamed(children) && !IsXmlName(key)
    ensures Get(AddChildren(fields, children), key) == Get(fields, key)
    decreases |children|
  {
    if children != [] {
      var child := children[0];
      if child.Comment? {
        ChildrenLeaveMadeUp(fields, children[1..], key);
      } else {
        AddLeavesOthers(fields, LocalName(child.tag), Collapse(child), key);
        ChildrenLeaveMadeUp(AddChild(fields, LocalName(child.tag), Collapse(child)), children[1..], key);
      }
    }
  }

  lemma {:induction false} AttributesHold(fields: seq<Field>, attributes: seq<Attribute>, name: string)
    ensures Get(AddAttributes(fields, attributes), "@_" + name)
         == if LastAttribute(attributes, name).Some? then LastAttribute(attributes, name) else Get(fields, "@_" + name)
    decreases |attributes|
  {
    if attributes != [] {
      var key, value := "@_" + LocalName(attributes[0].name), Text(attributes[0].value);
      assert key == "@_" + name <==> LocalName(attributes[0].name) == name by {
        assert key[2..] == LocalName(attributes[0].name) && ("@_" + name)[2..] == name;
      }
      GetPut(fields, key, value, "@_" + name);
      AttributesHold(Put(fields, key, value), attributes[1..], name);
    }
  }

  lemma {:induction false} AttributesLeaveOthers(fields: seq<Field>, attributes: seq<Attribute>, key: string)
    requires key == [] || key[0] != '@'
    ensures Get(AddAttributes(fields, attributes), key) == Get(fields, key)
    decreases |attributes|
  {
    if attributes != [] {
      var made, value := "@_" + LocalName(attributes[0].name), Text(attributes[0].value);
      assert made[0] == '@';
      GetPut(fields, made, value, key);
      AttributesLeaveOthers(Put(fields, made, value), attributes[1..], key);
    }
  }

  predicate IsLeaf(x: Xml) {
    x.Element? && x.attributes == [] && forall i :: 0 <= i < |x.children| ==> x.children[i].Comment?
  }

  lemma {:induction false} OnlyCommentsAddNothing(fields: seq<Field>, children: seq<Xml>)
    ensures (forall i :: 0 <= i < |children| ==> children[i].Comment?) ==> AddChildren(fields, children) == fields
    ensures fields != [] || !(forall i :: 0 <= i < |children| ==> children[i].Comment?) ==> AddChildren(fields, children) != []
    decreases |children|
  {
    if children != [] {
      if children[0].Comment? {
        OnlyCommentsAddNothing(fields, children[1..]);
      } else {
        OnlyCommentsAddNothing(AddChild(fields, LocalName(children[0].tag), Collapse(children[0])), children[1..]);
      }
    }
  }

  lemma {:induction false} AttributesAddSomething(fields: seq<Field>, attributes: seq<Attribute>)
    ensures fields != [] || attributes != [] ==> AddAttributes(fields, attributes) != []
    decreases |attributes|
  {
    if attributes != [] {
      AttributesAddSomething(Put(fields, "@_" + LocalName(attributes[0].name), Text(attributes[0].value)), attributes[1..]);
    }
  }

  lemma {:induction false} LeafOrDictionary(x: Xml)
    requires x.Element?
    ensures if IsLeaf(x) then Collapse(x) == Text(x.text) else Collapse(x).Dict?
  {
    AttributesAddSomething([], x.attributes);
    OnlyCommentsAddNothing(AddAttributes([], x.attributes), x.children);
  }

  /**
  Main result: a leaf becomes its text. Any other element becomes a dictionary that holds under
  each name the children of that local name, in order, each collapsed; under `@_` and a name
  the last attribute of that local name; and under `#text` the text, if there is one.
  */
  lemma {:induction false} CollapseHolds(x: Xml, key: string)
    requires x.Element? && WellNamed(x)
    ensures if IsLeaf(x) then Collapse(x) == Text(x.text) else Collapse(x).Dict?
    ensures !IsLeaf(x) && IsXmlName(key) ==> Get(Collapse(x).fields, key) == Gathered(Collapsed(Named(x.children, key)))
    ensures !IsLeaf(x) ==> Get(Collapse(x).fields, "@_" + key) == LastAttribute(x.attributes, key)
    ensures !IsLeaf(x) ==> Get(Collapse(x).fields, "#text") == if x.text != "" then Some(Text(x.text)) else None
  {
    LeafOrDictionary(x);
    if !IsLeaf(x) {
      var start := AddAttributes([], x.attributes);
      var fields := AddChildren(start, x.children);
      assert ("@_" + key)[0] == '@' && "#text"[0] == '#';
      AttributesHold([], x.attributes, key);
      AttributesLeaveOthers([], x.attributes, "#text");
      ChildrenLeaveMadeUp(start, x.children, "@_" + key);
      ChildrenLeaveMadeUp(start, x.children, "#text");
      GetPut(fields, "#text", Text(x.text), "#text");
      GetPut(fields, "#text", Text(x.text), "@_" + key);
      if IsXmlName(key) {
        AttributesLeaveOthers([], x.attributes, key);
        ChildrenGather(start, x.children, [], key);
        assert [] + Collapsed(Named(x.children, key)) == Collapsed(Named(x.children, key));
        GetPut(fields, "#text", Text(x.text), key);
      }
    }
  }

  // ----- the check -----

  /** The parsed document: the root's dictionary under the root's name. */
  function ParseXml(root: Xml): Value
    requires root.Element?
  {
    Dict([Field(LocalName(root.tag), Collapse(root))])
  }

  /** Main result: the count in the parsed document is the number of elements of that name in the tree. */
  lemma {:induction false} CountIsExact(root: Xml, name: string)
    requires root.Element? && WellNamed(root) && IsXmlName(name)
    ensures CountAll(ParseXml(root), name) == Elements(root, name)
  {
    CollapseCounts(root, name);
    var dict, fields := Collapse(root), [Field(LocalName(root.tag), Collapse(root))];
    assert fields[1..] == [];
    assert CountFields(fields, name) == CountInside(dict, name) == CountAll(dict, name);
    assert Get(fields, name) == if LocalName(root.tag) == name then Some(dict) else None;
  }

  /**
  What the libraries do: which characters are white space, base64 followed by UTF-8, and the
  parser. None stands for an exception.
  */
  datatype Libraries = Libraries(isSpace: char -> bool, decode: string -> Option<string>, parse: string -> Option<Xml>)

  /** A parser gives an element with XML names. */
  ghost predicate ParsesWell(lib: Libraries) {
    forall text :: lib.parse(text).Some? ==> lib.parse(text).value.Element? && WellNamed(lib.parse(text).value)
  }

  function Stripped(lib: Libraries, s: string): (r: string)
    ensures forall c :: c in r <==> c in s && !lib.isSpace(c)
    ensures |r| <= |s|
  {
    if s == "" then "" else (if lib.isSpace(s[0]) then "" else [s[0]]) + Stripped(lib, s[1..])
  }

  datatype Check = Accepted | InvalidEncoding | InvalidXml | NoAssertion | MultipleAssertions(total: nat)

  /** The check by elements: what is said of a response whose text and root element are known. */
  function Verdict(text: Option<string>, root: Option<Xml>): Check
  {
    if text.None? || '<' !in text.value then InvalidEncoding
    else if root.None? then InvalidXml
    else
      var total := Elements(root.value, "Assertion") + Elements(root.value, "EncryptedAssertion");
      if total == 0 then NoAssertion else if total == 1 then Accepted else MultipleAssertions(total)
  }

  /** White space goes and everything else stays, in order. */
  lemma {:induction false} StrippedConcat(lib: Libraries, a: string, b: string)
    ensures Stripped(lib, a + b) == Stripped(lib, a) + Stripped(lib, b)
    ensures |a| == 1 ==> Stripped(lib, a) == if lib.isSpace(a[0]) then "" else a
  {
    if a == "" {
      assert a + b == b;
    } else {
      assert (a + b)[1..] == a[1..] + b;
      StrippedConcat(lib, a[1..], b);
    }
  }

  /** Main result: a response is accepted exactly when it reads as XML with one assertion, encrypted or not. */
  lemma {:induction false} VerdictExactly(text: Option<string>, root: Option<Xml>)
    ensures var readable := text != None && '<' in text.value;
      && (Verdict(text, root) == InvalidEncoding <==> !readable)
      && (Verdict(text, root) == InvalidXml <==> readable && root == None)
      && (readable && root != None ==>
            var total := Elements(root.value, "Assertion") + Elements(root.value, "EncryptedAssertion");
            && (Verdict(text, root) == Accepted <==> total == 1)
            && (Verdict(text, root) == NoAssertion <==> total == 0)
            && (total > 1 ==> Verdict(text, root) == MultipleAssertions(total)))
  {
  }

  lemma {:induction false} OneInside(outer: Xml, inner: Xml, name: string)
    requires outer.Element? && inner.Element? && outer.children == [inner] && inner.children == []
    ensures Elements(outer, name) == (if LocalName(outer.tag) == name then 1 else 0) + if LocalName(inner.tag) == name then 1 else 0
  {
    assert [inner][1..] == [];
    assert ElementsIn([], name) == 0;
    assert ElementsIn([inner], name) == Elements(inner, name) + ElementsIn([], name);
  }

  /** A tag in Clark notation, with a prefix, or plain. */
  predicate Spells(tag: string, namespace: string, name: string) {
    tag == namespace + "}" + name || tag == namespace + ":" + name || tag == name
  }

  lemma {:induction false} SpelledName(tag: string, namespace: string, name: string)
    requires Spells(tag, namespace, name) && '}' !in name && ':' !in name
    ensures LocalName(tag) == name
  {
    LocalNameIs(namespace, name);
  }

  /** A response with one assertion is accepted, whatever namespace or prefix its tags carry. */
  lemma {:induction false} NamespacedAssertionAccepted(text: string, root: Xml, assertion: Xml, outer: string, inner: string)
    requires '<' in text && root.Element? && assertion.Element? && root.children == [assertion] && assertion.children == []
    requires Spells(root.tag, outer, "Response") && Spells(assertion.tag, inner, "Assertion")
    ensures Verdict(Some(text), Some(root)) == Accepted
  {
    SpelledName(root.tag, outer, "Response");
    SpelledName(assertion.tag, inner, "Assertion");
    OneInside(root, assertion, "Assertion");
    OneInside(root, assertion, "EncryptedAssertion");
  }

  method ValidateSingleAssertion(lib: Libraries, response: string) returns (check: Check)
    requires ParsesWell(lib)
    ensures var text := lib.decode(Stripped(lib, response));
            check == Verdict(text, if text.Some? then lib.parse(text.value) else None)
  {
    var text := lib.decode(Stripped(lib, response));
    if text.None? || '<' !in text.value {
      return InvalidEncoding;
    }
    var document := lib.parse(text.value);
    if document.None? {
      return InvalidXml;
    }
    var root := document.value;
    var dict := ElementToDict(root);
    var parsed := Dict([Field(LocalName(root.tag), dict)]);
    var assertions := CountAllNodes(parsed, "Assertion");
    var encrypted := CountAllNodes(parsed, "EncryptedAssertion");
    CountIsExact(root, "Assertion");
    CountIsExact(root, "EncryptedAssertion");
    if assertions + encrypted == 0 {
      return NoAssertion;
    }
    if assertions + encrypted > 1 {
      return MultipleAssertions(assertions + encrypted);
    }
    check := Accepted;
  }
}
