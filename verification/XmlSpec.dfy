/** The schema-driven XML printer and parser as functions (ieee2030_5/xml_utils.py): the printer walks the fields of
    a record, the parser folds the attributes and then the children of an element into keyword arguments. */
module XmlSpec {
  import opened Common
  import opened XmlText

  // ----- floats -----

  /** A float is its 64-bit pattern. */
  type Float = nat

  /** str() and float(); read gives None where float() raises. */
  datatype FloatText = FloatText(show: Float -> string, read: string -> Option<Float>)

  // ----- schemas and values -----

  /** A dataclass: its name and its fields in order. */
  datatype Schema = Schema(name: string, fields: seq<Field>)

  datatype Field = Field(name: string, ty: Type, default: Value)

  datatype Type = TInt | TFloat | TBool | TText | TLink | TRecord(schema: Schema) | TList(item: Type)

  datatype Value =
    | VNone
    | VInt(n: int)
    | VFloat(bits: Float)
    | VBool(b: bool)
    | VText(text: string)
    | VLink(href: Option<string>, all: Option<int>)
    | VRecord(schema: Schema, values: seq<Value>)
    | VList(items: seq<Value>)

  datatype Attr = Attr(name: string, value: string)

  datatype Element = Element(tag: string, attrs: seq<Attr>, text: string, children: seq<Element>)

  /** Fields that the printer writes as attributes. */
  predicate IsAttribute(name: string) {
    name == "href" || name == "pollRate" || name == "all"
  }

  predicate IsLinkName(name: string) {
    EndsWith(name, "Link")
  }

  predicate IsMetadata(name: string) {
    name == "XML_TAG"
  }

  /** The name under which a field is printed. */
  function PrintedName(name: string): string {
    if name == "type_" then "type" else name
  }

  predicate IsSimple(v: Value) {
    v.VInt? || v.VFloat? || v.VBool? || v.VText?
  }

  function TextOf(fl: FloatText, v: Value): string
    requires IsSimple(v)
  {
    match v
    case VInt(n) => IntText(n)
    case VFloat(bits) => fl.show(bits)
    case VBool(b) => BoolText(b)
    case VText(t) => t
  }

  // ----- printer -----

  function LinkAttrs(href: Option<string>, all: Option<int>): seq<Attr> {
    (if href.Some? && href.value != "" then [Attr("href", href.value)] else [])
    + (if all.Some? then [Attr("all", IntText(all.value))] else [])
  }

  /** The attributes of a link that is printed field by field, as an item of a list. */
  function FieldAttrs(href: Option<string>, all: Option<int>): seq<Attr> {
    (if href.Some? then [Attr("href", href.value)] else [])
    + (if all.Some? then [Attr("all", IntText(all.value))] else [])
  }

  function AttrsOfField(fl: FloatText, f: Field, v: Value): seq<Attr> {
    if !IsMetadata(f.name) && IsSimple(v) && IsAttribute(PrintedName(f.name))
    then [Attr(PrintedName(f.name), TextOf(fl, v))] else []
  }

  function AttrsOf(fl: FloatText, fields: seq<Field>, values: seq<Value>): seq<Attr> {
    if fields == [] || values == [] then []
    else AttrsOfField(fl, fields[0], values[0]) + AttrsOf(fl, fields[1..], values[1..])
  }

  /** An item of a list is printed under the name of its class, if that is a dataclass. */
  function PrintItem(fl: FloatText, v: Value): seq<Element>
    decreases v, 2
  {
    match v
    case VRecord(s, _) => [Print(fl, s.name, v)]
    case VLink(href, all) => [Element("Link", FieldAttrs(href, all), "", [])]
    case _ => []
  }

  function PrintItems(fl: FloatText, items: seq<Value>): seq<Element>
    decreases items, 0
  {
    if items == [] then []
    else PrintItem(fl, items[0]) + PrintItems(fl, items[1..])
  }

  function ChildrenOfField(fl: FloatText, f: Field, v: Value): seq<Element>
    decreases v, 2
  {
    if IsMetadata(f.name) then []
    else
      var name := PrintedName(f.name);
      match v
      case VNone => []
      case VLink(href, all) => [Element(name, LinkAttrs(href, all), "", [])]
      case VRecord(_, _) => [Print(fl, name, v)]
      case VList(items) => PrintItems(fl, items)
      case _ => if IsAttribute(name) then [] else [Element(name, [], TextOf(fl, v), [])]
  }

  function ChildrenOf(fl: FloatText, fields: seq<Field>, values: seq<Value>): seq<Element>
    decreases values, 0
  {
    if fields == [] || values == [] then []
    else ChildrenOfField(fl, fields[0], values[0]) + ChildrenOf(fl, fields[1..], values[1..])
  }

  /** _dataclass_to_element */
  function Print(fl: FloatText, tag: string, v: Value): Element
    requires v.VRecord?
    decreases v, 1
  {
    Element(tag, AttrsOf(fl, v.schema.fields, v.values), "", ChildrenOf(fl, v.schema.fields, v.values))
  }

  // ----- parser -----

  type Kwargs = map<string, Value>

  function HintOf(fields: seq<Field>, name: string): Option<Type> {
    if fields == [] then None
    else if fields[0].name == name then Some(fields[0].ty)
    else HintOf(fields[1..], name)
  }

  /** The element type of a list hint, the hint itself otherwise. */
  function ActualType(ty: Type): Type {
    match ty
    case TList(item) => item
    case _ => ty
  }

  /** Convert a text to the hinted type; int() and float() may raise. */
  function Convert(fl: FloatText, ty: Type, text: string): Option<Value> {
    match ty
    case TInt =>
      var n := ParseInt(text);
      if n.None? then None else Some(VInt(n.value))
    case TFloat =>
      var x := fl.read(text);
      if x.None? then None else Some(VFloat(x.value))
    case TBool => Some(VBool(ParseBool(text)))
    case _ => Some(VText(text))
  }

  function InitLists(fields: seq<Field>): Kwargs {
    if fields == [] then map[]
    else
      var rest := InitLists(fields[1..]);
      if fields[0].ty.TList? then rest[fields[0].name := VList([])] else rest
  }

  function ParseAttr(fl: FloatText, s: Schema, a: Attr, kw: Kwargs): Option<Kwargs> {
    var hint := HintOf(s.fields, a.name);
    if hint.None? then Some(kw)
    else
      var v := Convert(fl, ActualType(hint.value), a.value);
      if v.None? then None else Some(kw[a.name := v.value])
  }

  function ParseAttrs(fl: FloatText, s: Schema, attrs: seq<Attr>, kw: Kwargs): Option<Kwargs>
    decreases |attrs|
  {
    if attrs == [] then Some(kw)
    else
      var kw1 := ParseAttr(fl, s, attrs[0], kw);
      if kw1.None? then None else ParseAttrs(fl, s, attrs[1..], kw1.value)
  }

  function ParseLink(attrs: seq<Attr>, link: Value): Option<Value>
    requires link.VLink?
    decreases |attrs|
  {
    if attrs == [] then Some(link)
    else if attrs[0].name == "href" then ParseLink(attrs[1..], link.(href := Some(attrs[0].value)))
    else if attrs[0].name == "all" then
      var n := ParseInt(attrs[0].value);
      if n.None? then None else ParseLink(attrs[1..], link.(all := n))
    else ParseLink(attrs[1..], link)
  }

  /** kwargs[name].append(v); a name that does not hold a list yet starts with an empty one. */
  function Append(kw: Kwargs, name: string, v: Value): Kwargs {
    kw[name := VList((if name in kw && kw[name].VList? then kw[name].items else []) + [v])]
  }

  function ParseChild(fl: FloatText, s: Schema, c: Element, kw: Kwargs): Option<Kwargs>
    decreases c, 2
  {
    var hint := HintOf(s.fields, c.tag);
    if hint.None? then Some(kw)
    else if IsLinkName(c.tag) || hint.value.TLink? then
      var link := ParseLink(c.attrs, VLink(None, None));
      if link.None? then None else Some(kw[c.tag := link.value])
    else if hint.value.TList? then
      if hint.value.item.TRecord? then
        var v := Parse(fl, c, hint.value.item.schema);
        if v.None? then None else Some(Append(kw, c.tag, v.value))
      else if c.text == "" then Some(kw)
      else
        var v := Convert(fl, hint.value.item, c.text);
        if v.None? then None else Some(Append(kw, c.tag, v.value))
    else if hint.value.TRecord? then
      var v := Parse(fl, c, hint.value.schema);
      if v.None? then None else Some(kw[c.tag := v.value])
    else if c.text == "" then Some(kw)
    else
      var v := Convert(fl, hint.value, c.text);
      if v.None? then None else Some(kw[c.tag := v.value])
  }

  function ParseChildren(fl: FloatText, s: Schema, children: seq<Element>, kw: Kwargs): Option<Kwargs>
    decreases children, 0
  {
    if children == [] then Some(kw)
    else
      var kw1 := ParseChild(fl, s, children[0], kw);
      if kw1.None? then None else ParseChildren(fl, s, children[1..], kw1.value)
  }

  /** cls(**kwargs): a missing field takes its default. */
  function Construct(fields: seq<Field>, kw: Kwargs): (values: seq<Value>)
    ensures |values| == |fields|
    ensures forall i :: 0 <= i < |fields| ==>
      values[i] == if fields[i].name in kw then kw[fields[i].name] else fields[i].default
  {
    if fields == [] then []
    else [if fields[0].name in kw then kw[fields[0].name] else fields[0].default] + Construct(fields[1..], kw)
  }

  /** _parse_element_to_dataclass; None stands for the exception of int() or float(). */
  function Parse(fl: FloatText, e: Element, s: Schema): Option<Value>
    decreases e, 1
  {
    var kw1 := ParseAttrs(fl, s, e.attrs, InitLists(s.fields));
    if kw1.None? then None
    else
      var kw2 := ParseChildren(fl, s, e.children, kw1.value);
      if kw2.None? then None else Some(VRecord(s, Construct(s.fields, kw2.value)))
  }
}
