/** The XML printer and parser as the source has them: loops that append attributes and children to an element, and
    that fill a dictionary of keyword arguments. */
module Xml {
  import opened Common
  import opened XmlText
  import opened XmlSpec

  /** _dataclass_to_element */
  method DataclassToElement(fl: FloatText, tag: string, v: Value) returns (e: Element)
    requires v.VRecord? && WellShaped(v)
    ensures e == Print(fl, tag, v)
    decreases v, 0
  {
    hide AttrsOfField, ChildrenOfField;
    var fields, values := v.schema.fields, v.values;
    var attrs: seq<Attr> := [];
    var children: seq<Element> := [];
    for i := 0 to |values|
      invariant attrs + AttrsOf(fl, fields[i..], values[i..]) == AttrsOf(fl, fields, values)
      invariant children + ChildrenOf(fl, fields[i..], values[i..]) == ChildrenOf(fl, fields, values)
    {
      assert fields[i..][1..] == fields[i + 1..] && values[i..][1..] == values[i + 1..];
      var a, c := FieldToElement(fl, fields[i], values[i]);
      attrs, children := attrs + a, children + c;
    }
    e := Element(tag, attrs, "", children);
  }

  /** The body of the loop over the fields. */
  method FieldToElement(fl: FloatText, f: Field, value: Value) returns (attrs: seq<Attr>, children: seq<Element>)
    requires WellShaped(value)
    ensures attrs == AttrsOfField(fl, f, value) && children == ChildrenOfField(fl, f, value)
    decreases value, 1
  {
    attrs, children := [], [];
    if value == VNone || IsMetadata(f.name) {
      return;
    }
    var name := PrintedName(f.name);
    if IsSimple(value) {
      if IsAttribute(name) {
        attrs := [Attr(name, TextOf(fl, value))];
      } else {
        children := [Element(name, [], TextOf(fl, value), [])];
      }
    } else if value.VLink? {
      children := [Element(name, LinkAttrs(value.href, value.all), "", [])];
    } else if value.VRecord? {
      var child := DataclassToElement(fl, name, value);
      children := [child];
    } else if value.VList? {
      children := ListToElements(fl, value.items);
    }
  }

  method ListToElements(fl: FloatText, items: seq<Value>) returns (elements: seq<Element>)
    requires forall i :: 0 <= i < |items| ==> WellShaped(items[i])
    ensures elements == PrintItems(fl, items)
    decreases items, 0
  {
    hide PrintItem;
    elements := [];
    for i := 0 to |items|
      invariant elements + PrintItems(fl, items[i..]) == PrintItems(fl, items)
    {
      assert items[i..][1..] == items[i + 1..];
      var item := ItemToElement(fl, items[i]);
      elements := elements + item;
    }
  }

  /** The body of the loop over the items of a list. */
  method ItemToElement(fl: FloatText, item: Value) returns (elements: seq<Element>)
    requires WellShaped(item)
    ensures elements == PrintItem(fl, item)
    decreases item, 1
  {
    if item.VRecord? {
      var child := DataclassToElement(fl, item.schema.name, item);
      return [child];
    }
    if item.VLink? {
      return [Element("Link", FieldAttrs(item.href, item.all), "", [])];
    }
    return [];
  }

  /** Every record inside has one value for each field of its dataclass. */
  ghost predicate WellShaped(v: Value) {
    match v
    case VRecord(s, values) => |values| == |s.fields| && forall i :: 0 <= i < |values| ==> WellShaped(values[i])
    case VList(items) => forall i :: 0 <= i < |items| ==> WellShaped(items[i])
    case _ => true
  }

  /** _parse_element_to_dataclass; None stands for the exception of int(). */
  method ParseElementToDataclass(fl: FloatText, e: Element, s: Schema) returns (r: Option<Value>)
    ensures r == Parse(fl, e, s)
    decreases e, 0
  {
    var kwargs := InitLists(s.fields);
    for i := 0 to |e.attrs|
      invariant ParseAttrs(fl, s, e.attrs[i..], kwargs) == ParseAttrs(fl, s, e.attrs, InitLists(s.fields))
    {
      var a := e.attrs[i];
      assert e.attrs[i..][1..] == e.attrs[i + 1..];
      var hint := HintOf(s.fields, a.name);
      if hint.Some? {
        var v := Convert(fl, ActualType(hint.value), a.value);
        if v.None? {
          return None;
        }
        kwargs := kwargs[a.name := v.value];
      }
    }
    ghost var parsed := kwargs;
    for i := 0 to |e.children|
      invariant ParseChildren(fl, s, e.children[i..], kwargs) == ParseChildren(fl, s, e.children, parsed)
    {
      assert e.children[i..][1..] == e.children[i + 1..];
      var more := ParseChildInto(fl, e.children[i], s, kwargs);
      if more.None? {
        return None;
      }
      kwargs := more.value;
    }
    return Some(VRecord(s, Construct(s.fields, kwargs)));
  }

  /** The body of the loop over the children. */
  method ParseChildInto(fl: FloatText, c: Element, s: Schema, kwargs: Kwargs) returns (r: Option<Kwargs>)
    ensures r == ParseChild(fl, s, c, kwargs)
    decreases c, 1
  {
    var hint := HintOf(s.fields, c.tag);
    if hint.None? {
      return Some(kwargs);
    }
    if IsLinkName(c.tag) || hint.value.TLink? {
      var link := ParseLink(c.attrs, VLink(None, None));
      if link.None? {
        return None;
      }
      return Some(kwargs[c.tag := link.value]);
    }
    var ty := ActualType(hint.value);
    var v: Option<Value>;
    if ty.TRecord? {
      v := ParseElementToDataclass(fl, c, ty.schema);
    } else if c.text == "" {
      return Some(kwargs);
    } else {
      v := Convert(fl, ty, c.text);
    }
    if v.None? {
      return None;
    }
    return Some(if hint.value.TList? then Append(kwargs, c.tag, v.value) else kwargs[c.tag := v.value]);
  }
}
