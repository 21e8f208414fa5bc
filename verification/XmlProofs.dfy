/** The XML round trip: what parsing a printed record gives, and exactly when it gives back the record. */
module XmlProofs {
  import opened Common
  import opened XmlText
  import opened XmlSpec

  // ----- what the printer is for -----

  /** A value of the field's type. Fields are neither metadata nor renamed, only links go into fields named like a
      link, and a list holds simple values, links, or records of one dataclass, whose name is that of the
      field or of none. The text of a float is read back as the float. */
  ghost predicate FieldFits(fl: FloatText, s: Schema, f: Field, v: Value)
    decreases v, 1
  {
    && !IsMetadata(f.name) && PrintedName(f.name) == f.name
    && match v
       case VNone => true
       case VInt(_) => f.ty == TInt && !IsLinkName(f.name)
       case VFloat(x) => f.ty == TFloat && !IsLinkName(f.name) && fl.show(x) != "" && fl.read(fl.show(x)) == Some(x)
       case VBool(_) => f.ty == TBool && !IsLinkName(f.name)
       case VText(_) => f.ty == TText && !IsLinkName(f.name)
       case VLink(_, _) => (IsLinkName(f.name) || f.ty == TLink) && !f.ty.TList?
       case VRecord(s', _) => f.ty == TRecord(s') && !IsLinkName(f.name) && Fits(fl, v)
       case VList(items) =>
         && f.ty.TList? && !IsLinkName(f.name)
         && match f.ty.item
            case TRecord(item) => (item.name ==
              f.name || HintOf(s.fields, item.name).None?) && ItemsFit(fl, item, items)
            case TLink => HintOf(s.fields, "Link").None? && forall i :: 0 <= i < |items| ==> items[i].VLink?
            case _ => forall i :: 0 <= i < |items| ==> IsSimple(items[i])
  }

  ghost predicate ItemsFit(fl: FloatText, s: Schema, items: seq<Value>)
    decreases items, 0
  {
    forall i :: 0 <= i < |items| ==> items[i].VRecord? && items[i].schema == s && Fits(fl, items[i])
  }

  /** Field names are distinct, and every field has one value, which fits it. */
  ghost predicate Fits(fl: FloatText, v: Value)
    requires v.VRecord?
    decreases v, 0
  {
    && DistinctNames(v.schema.fields)
    && |v.values| == |v.schema.fields|
    && (forall i :: 0 <= i < |v.values| ==> FieldFits(fl, v.schema, v.schema.fields[i], v.values[i]))
  }

  // ----- what comes back -----

  predicate InAttribute(f: Field, v: Value) {
    IsSimple(v) && IsAttribute(f.name)
  }

  /** The field leaves no trace in the element tree, or one that the parser skips. */
  predicate Dropped(f: Field, v: Value) {
    v == VNone || (v == VText("") && !IsAttribute(f.name))
  }

  /** The items of the list are printed under the name of the field. */
  predicate ListsByName(f: Field) {
    f.ty.TList? && f.ty.item.TRecord? && f.ty.item.schema.name == f.name
  }

  function FieldBack(f: Field, v: Value): Value
    decreases v, 1
  {
    if Dropped(f, v) then if f.ty.TList? then VList([]) else f.default
    else
      match v
      case VLink(href, all) => VLink(if href == Some("") then None else href, all)
      case VRecord(_, _) => Back(v)
      case VList(items) => VList(if ListsByName(f) then ItemsBack(items) else [])
      case _ => v
  }

  function ItemsBack(items: seq<Value>): (r: seq<Value>)
    ensures |r| == |items|
    decreases items, 0
  {
    if items == [] then []
    else [if items[0].VRecord? then Back(items[0]) else items[0]] + ItemsBack(items[1..])
  }

  /** The record that parsing the printed record gives. */
  function Back(v: Value): (r: Value)
    requires v.VRecord?
    ensures r.VRecord? && r.schema == v.schema
    decreases v, 0
  {
    VRecord(v.schema, seq(|v.values|, i requires 0 <= i < |v.values| =>
      if i < |v.schema.fields| then FieldBack(v.schema.fields[i], v.values[i]) else v.values[i]))
  }

  /** None survives as the default of its field, an empty text in an attribute or as the default, a link with a
      non-empty href or none, a list if its field bears the name of its items' dataclass or it is empty. */
  ghost predicate FieldSurvives(f: Field, v: Value)
    decreases v, 1
  {
    match v
    case VNone => f.default == VNone && !f.ty.TList?
    case VText(t) => t != "" || IsAttribute(f.name) || f.default == v
    case VLink(href, _) => href != Some("")
    case VRecord(_, _) => Survives(v)
    case VList(items) =>
      items == [] || (ListsByName(f) && forall i :: 0 <= i < |items| ==> items[i].VRecord? && Survives(items[i]))
    case _ => true
  }

  ghost predicate Survives(v: Value)
    requires v.VRecord?
    decreases v, 0
  {
    |v.values| == |v.schema.fields|
    && forall i :: 0 <= i < |v.values| ==> FieldSurvives(v.schema.fields[i], v.values[i])
  }

  ghost predicate DistinctNames(fields: seq<Field>) {
    forall i, j :: 0 <= i < j < |fields| ==> fields[i].name != fields[j].name
  }

  // ----- the form of the print -----

  lemma {:induction false} AttrsExactly(fl: FloatText, fields: seq<Field>, values: seq<Value>, a: Attr)
    requires |fields| == |values|
    ensures a in AttrsOf(fl, fields, values) <==>
      exists i :: 0 <= i < |fields| && a in AttrsOfField(fl, fields[i], values[i])
  {
    hide AttrsOfField;
    if fields != [] {
      AttrsExactly(fl, fields[1..], values[1..], a);
      if i :| 0 <= i < |fields| && a in AttrsOfField(fl, fields[i], values[i]) {
        assert i > 0 ==> a in AttrsOfField(fl, fields[1..][i - 1], values[1..][i - 1]);
      }
    }
  }

  lemma {:induction false} ChildrenContain(fl: FloatText, fields: seq<Field>, values: seq<Value>, i: nat, c: Element)
    requires |fields| == |values| && i < |fields| && c in ChildrenOfField(fl, fields[i], values[i])
    ensures c in ChildrenOf(fl, fields, values)
  {
    hide ChildrenOfField;
    if i > 0 {
      ChildrenContain(fl, fields[1..], values[1..], i - 1, c);
    }
  }

  /** The attributes of a printed record are exactly its simple values in fields named href, pollRate and all; every
      other simple value is the text of a child, under the name of its field. */
  lemma PrintedForm(fl: FloatText, tag: string, v: Value, i: nat, a: Attr)
    requires v.VRecord? && |v.values| == |v.schema.fields|
    ensures a in Print(fl, tag, v).attrs <==>
      exists j :: 0 <= j < |v.values| && IsSimple(v.values[j]) && v.schema.fields[j].name == a.name
        && a.name in {"href", "pollRate", "all"} && a.value == TextOf(fl, v.values[j])
    ensures i < |v.values| && IsSimple(v.values[i])
      && v.schema.fields[i].name !in {"href", "pollRate", "all", "XML_TAG", "type_"}
      ==> Element(v.schema.fields[i].name, [], TextOf(fl, v.values[i]), []) in Print(fl, tag, v).children
  {
    hide TextOf, AttrsOf, ChildrenOf;
    var fields := v.schema.fields;
    AttrsExactly(fl, fields, v.values, a);
    if i < |v.values| && IsSimple(v.values[i]) && fields[i].name !in {"href", "pollRate", "all", "XML_TAG", "type_"} {
      ChildrenContain(fl, fields, v.values, i, Element(fields[i].name, [], TextOf(fl, v.values[i]), []));
    }
  }

  // ----- folds and lookups -----

  function Lookup(kw: Kwargs, name: string): Option<Value> {
    if name in kw then Some(kw[name]) else None
  }

  lemma {:induction false} HintAt(fields: seq<Field>, i: nat)
    requires DistinctNames(fields) && i < |fields|
    ensures HintOf(fields, fields[i].name) == Some(fields[i].ty)
  {
    if i > 0 {
      HintAt(fields[1..], i - 1);
    }
  }

  lemma {:induction false} ParseAttrsAppend(fl: FloatText, s: Schema, a: seq<Attr>, b: seq<Attr>, kw: Kwargs)
    requires ParseAttrs(fl, s, a, kw).Some?
    ensures ParseAttrs(fl, s, a + b, kw) == ParseAttrs(fl, s, b, ParseAttrs(fl, s, a, kw).value)
    decreases |a|
  {
    if a == [] {
      assert a + b == b;
    } else {
      assert (a + b)[1..] == a[1..] + b;
      ParseAttrsAppend(fl, s, a[1..], b, ParseAttr(fl, s, a[0], kw).value);
    }
  }

  lemma {:induction false} ParseChildrenAppend(fl: FloatText, s: Schema, a: seq<Element>, b: seq<Element>, kw: Kwargs)
    requires ParseChildren(fl, s, a, kw).Some?
    ensures ParseChildren(fl, s, a + b, kw) == ParseChildren(fl, s, b, ParseChildren(fl, s, a, kw).value)
    decreases |a|
  {
    if a == [] {
      assert a + b == b;
    } else {
      assert (a + b)[1..] == a[1..] + b;
      ParseChildrenAppend(fl, s, a[1..], b, ParseChild(fl, s, a[0], kw).value);
    }
  }

  lemma {:induction false} InitListsAt(fields: seq<Field>, i: nat)
    requires DistinctNames(fields) && i < |fields|
    ensures Lookup(InitLists(fields), fields[i].name) == if fields[i].ty.TList? then Some(VList([])) else None
  {
    if i == 0 {
      NotInitialised(fields[1..], fields[0].name);
    } else {
      InitListsAt(fields[1..], i - 1);
    }
  }

  lemma {:induction false} NotInitialised(fields: seq<Field>, name: string)
    requires forall i :: 0 <= i < |fields| ==> fields[i].name != name
    ensures name !in InitLists(fields)
  {
    if fields != [] {
      NotInitialised(fields[1..], name);
    }
  }

  // ----- the attribute phase -----

  lemma ConvertText(fl: FloatText, s: Schema, f: Field, v: Value)
    requires FieldFits(fl, s, f, v) && IsSimple(v)
    ensures Convert(fl, ActualType(f.ty), TextOf(fl, v)) == Some(v)
    ensures !Dropped(f, v) && !IsAttribute(f.name) ==> TextOf(fl, v) != ""
  {
    match v {
      case VInt(n) => IntRoundTrip(n);
      case VFloat(_) =>
      case VBool(b) => BoolRoundTrip(b);
      case VText(_) =>
    }
  }

  /** The keyword arguments when the attributes of the first n fields have been parsed. */
  ghost predicate AttrsDone(s: Schema, values: seq<Value>, n: nat, kw: Kwargs)
    requires |values| == |s.fields|
  {
    forall i :: 0 <= i < |values| ==>
      Lookup(kw, s.fields[i].name) ==
        if i < n && InAttribute(s.fields[i], values[i]) then Some(values[i])
        else if s.fields[i].ty.TList? then Some(VList([])) else None
  }

  /** Parsing the attribute of one field, if it has one, stores the field's value. */
  lemma AttrStep(fl: FloatText, s: Schema, f: Field, v: Value, kw: Kwargs)
    requires FieldFits(fl, s, f, v) && HintOf(s.fields, f.name) == Some(f.ty)
    ensures ParseAttrs(fl, s, AttrsOfField(fl, f, v), kw) == Some(if InAttribute(f, v) then kw[f.name := v] else kw)
  {
    if InAttribute(f, v) {
      ConvertText(fl, s, f, v);
      hide Convert;
      var a := AttrsOfField(fl, f, v);
      assert |a| == 1 && a[1..] == [];
      assert ParseAttr(fl, s, a[0], kw) == Some(kw[f.name := v]);
    }
  }

  lemma AttrsDoneNext(s: Schema, values: seq<Value>, n: nat, kw: Kwargs)
    requires DistinctNames(s.fields) && |values| == |s.fields| && n < |values| && AttrsDone(s, values, n, kw)
    ensures AttrsDone(s, values, n + 1,
      if InAttribute(s.fields[n], values[n]) then kw[s.fields[n].name := values[n]] else kw)
  {
    hide InAttribute;
  }

  lemma {:induction false} AttrPhase(fl: FloatText, s: Schema, values: seq<Value>, n: nat, kw: Kwargs)
    requires Fits(fl, VRecord(s, values)) && n <= |values| && AttrsDone(s, values, n, kw)
    ensures ParseAttrs(fl, s, AttrsOf(fl, s.fields[n..], values[n..]), kw).Some?
    ensures AttrsDone(s, values, |values|, ParseAttrs(fl, s, AttrsOf(fl, s.fields[n..], values[n..]), kw).value)
    decreases |values| - n
  {
    if n < |values| {
      hide FieldFits, Convert, AttrsOfField;
      var f, v := s.fields[n], values[n];
      var first := AttrsOfField(fl, f, v);
      var kw1 := if InAttribute(f, v) then kw[f.name := v] else kw;
      HintAt(s.fields, n);
      AttrStep(fl, s, f, v, kw);
      AttrsDoneNext(s, values, n, kw);
      hide AttrsDone, InAttribute;
      AttrPhase(fl, s, values, n + 1, kw1);
      var rest := AttrsOf(fl, s.fields[n + 1..], values[n + 1..]);
      assert s.fields[n..][1..] == s.fields[n + 1..] && values[n..][1..] == values[n + 1..];
      ParseAttrsAppend(fl, s, first, rest, kw);
    }
  }

  // ----- the children phase -----

  /** What the arguments hold for a field, before or after its children have been parsed. */
  function Held(f: Field, v: Value, done: bool): Option<Value> {
    if InAttribute(f, v) then Some(v)
    else if f.ty.TList? then Some(if done then FieldBack(f, v) else VList([]))
    else if done && !Dropped(f, v) then Some(FieldBack(f, v))
    else None
  }

  ghost predicate ChildrenDone(s: Schema, values: seq<Value>, n: nat, kw: Kwargs)
    requires |values| == |s.fields|
  {
    forall i :: 0 <= i < |values| ==> Lookup(kw, s.fields[i].name) == Held(s.fields[i], values[i], i < n)
  }

  lemma LinkBack(href: Option<string>, all: Option<int>)
    ensures ParseLink(LinkAttrs(href, all), VLink(None, None)) == Some(VLink(if href ==
      Some("") then None else href, all))
  {
    var href' := if href == Some("") then None else href;
    var rest := if all.Some? then [Attr("all", IntText(all.value))] else [];
    if all.Some? {
      IntRoundTrip(all.value);
    }
    assert ParseLink(rest, VLink(href', None)) == Some(VLink(href', all));
    if href'.Some? {
      assert LinkAttrs(href, all)[1..] == rest;
    } else {
      assert LinkAttrs(href, all) == rest;
    }
  }

  /** The items of a list are appended one by one, in order, to the field that bears their name. */
  lemma {:induction false} ItemsPhase(fl: FloatText, s: Schema, item: Schema, items: seq<Value>, before: seq<Value>,
        kw: Kwargs)
    requires HintOf(s.fields, item.name) == Some(TList(TRecord(item))) && !IsLinkName(item.name)
    requires ItemsFit(fl, item, items) && Lookup(kw, item.name) == Some(VList(before))
    ensures ParseChildren(fl, s, PrintItems(fl, items), kw) == Some(kw[item.name := VList(before + ItemsBack(items))])
    decreases items, 0
  {
    hide Parse, Fits, Back, AttrsOf, ChildrenOf, ParseChild;
    if items == [] {
      assert before + ItemsBack(items) == before;
      assert kw[item.name := VList(before)] == kw;
    } else {
      var e, first := Print(fl, item.name, items[0]), Back(items[0]);
      ParsePrint(fl, item.name, items[0]);
      var kw1 := kw[item.name := VList(before + [first])];
      AppendItem(fl, s, item, e, before, first, kw);
      assert PrintItems(fl, items) == [e] + PrintItems(fl, items[1..]);
      FirstChild(fl, s, e, PrintItems(fl, items[1..]), kw, kw1);
      ItemsPhase(fl, s, item, items[1..], before + [first], kw1);
      hide ParseChildren, PrintItems, Print;
      assert before + [first] + ItemsBack(items[1..]) == before + ItemsBack(items);
      var after := VList(before + ItemsBack(items));
      assert kw1[item.name := after] == kw[item.name := after];
    }
  }

  lemma FirstChild(fl: FloatText, s: Schema, e: Element, rest: seq<Element>, kw: Kwargs, kw1: Kwargs)
    requires ParseChild(fl, s, e, kw) == Some(kw1)
    ensures ParseChildren(fl, s, [e] + rest, kw) == ParseChildren(fl, s, rest, kw1)
  {
    hide ParseChild;
    assert ([e] + rest)[1..] == rest;
  }

  lemma AppendItem(fl: FloatText, s: Schema, item: Schema, e: Element, before: seq<Value>, v: Value, kw: Kwargs)
    requires HintOf(s.fields, item.name) == Some(TList(TRecord(item))) && !IsLinkName(item.name)
    requires e.tag == item.name && Parse(fl, e, item) == Some(v) && Lookup(kw, item.name) == Some(VList(before))
    ensures ParseChild(fl, s, e, kw) == Some(kw[item.name := VList(before + [v])])
  {
    hide Parse;
  }

  /** Elements that no field is named after are skipped. */
  lemma {:induction false} UnnamedItems(fl: FloatText, s: Schema, item: Schema, items: seq<Value>, kw: Kwargs)
    requires HintOf(s.fields, item.name).None? && ItemsFit(fl, item, items)
    ensures ParseChildren(fl, s, PrintItems(fl, items), kw) == Some(kw)
    decreases |items|
  {
    if items != [] {
      UnnamedItems(fl, s, item, items[1..], kw);
      assert PrintItems(fl, items) == [Print(fl, item.name, items[0])] + PrintItems(fl, items[1..]);
    }
  }

  /** Links in a list are printed under a name that no field bears. */
  lemma {:induction false} LinkItems(fl: FloatText, s: Schema, items: seq<Value>, kw: Kwargs)
    requires HintOf(s.fields, "Link").None? && forall i :: 0 <= i < |items| ==> items[i].VLink?
    ensures ParseChildren(fl, s, PrintItems(fl, items), kw) == Some(kw)
    decreases |items|
  {
    if items != [] {
      LinkItems(fl, s, items[1..], kw);
      var e := Element("Link", FieldAttrs(items[0].href, items[0].all), "", []);
      assert PrintItems(fl, items) == [e] + PrintItems(fl, items[1..]);
      assert ParseChild(fl, s, e, kw) == Some(kw);
    }
  }

  /** Simple items are not printed. */
  lemma {:induction false} SimpleItems(fl: FloatText, items: seq<Value>)
    requires forall i :: 0 <= i < |items| ==> IsSimple(items[i])
    ensures PrintItems(fl, items) == []
    decreases |items|
  {
    if items != [] {
      SimpleItems(fl, items[1..]);
    }
  }

  lemma {:induction false} ListStep(fl: FloatText, s: Schema, f: Field, v: Value, kw: Kwargs)
    requires HintOf(s.fields, f.name) == Some(f.ty) && FieldFits(fl, s, f, v) && v.VList?
    requires Lookup(kw, f.name) == Some(VList([]))
    ensures ParseChildren(fl, s, ChildrenOfField(fl, f, v), kw) == Some(kw[f.name := FieldBack(f, v)])
    decreases v, 1
  {
    var none := VList([]);
    if ListsByName(f) {
      ItemsPhase(fl, s, f.ty.item.schema, v.items, [], kw);
      assert [] + ItemsBack(v.items) == ItemsBack(v.items);
    } else {
      if f.ty.item.TRecord? {
        UnnamedItems(fl, s, f.ty.item.schema, v.items, kw);
      } else if f.ty.item == TLink {
        LinkItems(fl, s, v.items, kw);
      } else {
        SimpleItems(fl, v.items);
      }
      assert kw[f.name := none] == kw;
    }
  }

  /** Parsing the children of one field stores what comes back of the field's value. */
  lemma {:induction false} FieldStep(fl: FloatText, s: Schema, f: Field, v: Value, kw: Kwargs)
    requires HintOf(s.fields, f.name) == Some(f.ty) && FieldFits(fl, s, f, v)
    requires Lookup(kw, f.name) == Held(f, v, false)
    ensures ParseChildren(fl, s, ChildrenOfField(fl, f, v), kw) ==
      Some(if InAttribute(f, v) || Dropped(f, v) then kw else kw[f.name := FieldBack(f, v)])
    decreases v, 2
  {
    match v {
      case VNone =>
      case VLink(href, all) => LinkBack(href, all);
      case VRecord(_, _) => ParsePrint(fl, f.name, v);
      case VList(items) => ListStep(fl, s, f, v, kw);
      case _ => ConvertText(fl, s, f, v);
    }
  }

  lemma {:induction false} ChildPhase(fl: FloatText, s: Schema, values: seq<Value>, n: nat, kw: Kwargs)
    requires Fits(fl, VRecord(s, values)) && n <= |values| && ChildrenDone(s, values, n, kw)
    ensures ParseChildren(fl, s, ChildrenOf(fl, s.fields[n..], values[n..]), kw).Some?
    ensures ChildrenDone(s, values, |values|, ParseChildren(fl, s, ChildrenOf(fl, s.fields[n..], values[n..]),
      kw).value)
    decreases values, 1, |values| - n
  {
    if n < |values| {
      var f, v := s.fields[n], values[n];
      assert FieldFits(fl, s, f, v);
      HintAt(s.fields, n);
      FieldStep(fl, s, f, v, kw);
      var kw1 := if InAttribute(f, v) || Dropped(f, v) then kw else kw[f.name := FieldBack(f, v)];
      assert ChildrenDone(s, values, n + 1, kw1);
      ChildPhase(fl, s, values, n + 1, kw1);
      var rest := ChildrenOf(fl, s.fields[n + 1..], values[n + 1..]);
      assert s.fields[n..][1..] == s.fields[n + 1..] && values[n..][1..] == values[n + 1..];
      ParseChildrenAppend(fl, s, ChildrenOfField(fl, f, v), rest, kw);
    }
  }

  /** Parsing the printed element tree of a record never raises, whatever the tag of the root, and gives the record
      back up to what the printer drops. */
  lemma {:induction false} ParsePrint(fl: FloatText, tag: string, v: Value)
    requires v.VRecord? && Fits(fl, v)
    ensures Parse(fl, Print(fl, tag, v), v.schema) == Some(Back(v))
    decreases v, 1
  {
    var s, values := v.schema, v.values;
    var kw0 := InitLists(s.fields);
    forall i | 0 <= i < |values|
      ensures Lookup(kw0, s.fields[i].name) == if s.fields[i].ty.TList? then Some(VList([])) else None
    {
      InitListsAt(s.fields, i);
    }
    assert s.fields[0..] == s.fields && values[0..] == values;
    AttrPhase(fl, s, values, 0, kw0);
    var kw1 := ParseAttrs(fl, s, AttrsOf(fl, s.fields, values), kw0).value;
    assert ChildrenDone(s, values, 0, kw1);
    ChildPhase(fl, s, values, 0, kw1);
    var kw2 := ParseChildren(fl, s, ChildrenOf(fl, s.fields, values), kw1).value;
    ConstructGivesBack(fl, s, values, kw2);
  }

  lemma HeldIsBack(fl: FloatText, s: Schema, f: Field, v: Value, kw: Kwargs)
    requires FieldFits(fl, s, f, v) && Lookup(kw, f.name) == Held(f, v, true)
    ensures (if f.name in kw then kw[f.name] else f.default) == FieldBack(f, v)
  {
    hide Fits, Back, ItemsFit, ItemsBack;
  }

  lemma ConstructGivesBack(fl: FloatText, s: Schema, values: seq<Value>, kw: Kwargs)
    requires Fits(fl, VRecord(s, values)) && ChildrenDone(s, values, |values|, kw)
    ensures VRecord(s, Construct(s.fields, kw)) == Back(VRecord(s, values))
  {
    hide FieldBack, FieldFits, Held, Lookup;
    forall i | 0 <= i < |values| ensures Construct(s.fields, kw)[i] == FieldBack(s.fields[i], values[i]) {
      HeldIsBack(fl, s, s.fields[i], values[i], kw);
    }
  }

  // ----- the round trip -----

  lemma {:induction false} FieldUnchanged(fl: FloatText, s: Schema, f: Field, v: Value)
    requires FieldFits(fl, s, f, v)
    ensures FieldBack(f, v) == v <==> FieldSurvives(f, v)
    decreases v, 1
  {
    match v {
      case VRecord(_, _) => Unchanged(fl, v);
      case VList(items) =>
        if ListsByName(f) {
          ItemsUnchanged(fl, f.ty.item.schema, items);
        }
      case _ =>
    }
  }

  lemma {:induction false} ItemsUnchanged(fl: FloatText, s: Schema, items: seq<Value>)
    requires ItemsFit(fl, s, items)
    ensures ItemsBack(items) == items <==> forall i :: 0 <= i < |items| ==> items[i].VRecord? && Survives(items[i])
    decreases items, 0
  {
    if items != [] {
      var rest := items[1..];
      Unchanged(fl, items[0]);
      ItemsUnchanged(fl, s, rest);
      assert items == [items[0]] + rest;
      assert ItemsBack(items)[1..] == ItemsBack(rest);
    }
  }

  lemma {:induction false} Unchanged(fl: FloatText, v: Value)
    requires v.VRecord? && Fits(fl, v)
    ensures Back(v) == v <==> Survives(v)
    decreases v, 0
  {
    forall i | 0 <= i < |v.values|
      ensures FieldBack(v.schema.fields[i], v.values[i]) == v.values[i] <==>
        FieldSurvives(v.schema.fields[i], v.values[i])
    {
      FieldUnchanged(fl, v.schema, v.schema.fields[i], v.values[i]);
    }
    assert Back(v) == v <==> forall i :: 0 <= i < |v.values| ==> Back(v).values[i] == v.values[i];
  }

  /** Exactly which records survive printing and parsing unchanged, nested records and the order of lists included. */
  lemma RoundTrip(fl: FloatText, tag: string, v: Value)
    requires v.VRecord? && Fits(fl, v)
    ensures Parse(fl, Print(fl, tag, v), v.schema) == Some(v) <==> Survives(v)
  {
    ParsePrint(fl, tag, v);
    Unchanged(fl, v);
  }
}
