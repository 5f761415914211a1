/** The Application value object: an id, a name, an optional default role
    and default organisation id, and an ordered list of available
    organisation ids; its hand-templated XML form and its toString. */
module Applications {
  import opened JavaLang

  // ---------------------------------------------------------------------
  // The list operations

  /** The first index at which v occurs in s, or |s| when it does not. */
  function FirstIndexOf(s: seq<Option<string>>, v: Option<string>): (k: nat)
    ensures k <= |s|
    ensures k < |s| ==> s[k] == v
    ensures forall j :: 0 <= j < k ==> s[j] != v
    ensures k == |s| <==> v !in s
  {
    if s == [] then 0
    else if s[0] == v then 0
    else 1 + FirstIndexOf(s[1..], v)
  }

  /** What ArrayList.remove(Object) does for a non-null String argument:
      drop the first element that equals it, if there is one. */
  function RemoveFirst(s: seq<Option<string>>, x: string): seq<Option<string>> {
    var k := FirstIndexOf(s, Some(x));
    if k < |s| then s[..k] + s[k + 1..] else s
  }

  /** Removing an element that is present takes exactly one copy of it out
      and keeps the order of the rest; removing one that is absent changes
      nothing. */
  lemma RemoveFirstEffect(s: seq<Option<string>>, x: string)
    ensures Some(x) !in s ==> RemoveFirst(s, x) == s
    ensures Some(x) in s ==>
      |RemoveFirst(s, x)| == |s| - 1 &&
      multiset(RemoveFirst(s, x)) == multiset(s) - multiset{Some(x)}
  {
    var k := FirstIndexOf(s, Some(x));
    if k < |s| {
      assert s == s[..k] + [s[k]] + s[k + 1..];
      assert multiset(s) == multiset(s[..k]) + multiset{s[k]} + multiset(s[k + 1..]);
    }
  }

  /** Elements before the first occurrence stay where they are, and later
      occurrences (duplicates) survive the removal. */
  lemma RemoveFirstKeepsPrefixAndDuplicates(s: seq<Option<string>>, x: string)
    requires Some(x) in s
    ensures RemoveFirst(s, x) == s[..FirstIndexOf(s, Some(x))] + s[FirstIndexOf(s, Some(x)) + 1..]
    ensures multiset(s)[Some(x)] >= 2 ==> Some(x) in RemoveFirst(s, x)
  {
    RemoveFirstEffect(s, x);
    var r := RemoveFirst(s, x);
    if multiset(s)[Some(x)] >= 2 {
      assert multiset(r)[Some(x)] >= 1;
    }
  }

  // ---------------------------------------------------------------------
  // The XML form

  const Prolog: string := "<?xml version=\"1.0\" encoding=\"UTF-8\" standalone=\"yes\"?> \n  <application>\n"
  const OrgIdsOpen: string := "<availableOrgIds>\n"
  const OrgIdsClose: string := "</availableOrgIds>"
  const OrgIdOpen: string := "<orgId>"
  const OrgIdClose: string := "</orgId>\n"
  const DocumentClose: string := OrgIdsClose + "\n" + " </application>\n"

  /** One field line of toXML: three spaces of indent, the value between the
      tags exactly as given, no escaping. */
  function Element(tag: string, value: string): string {
    "   <" + tag + ">" + value + "</" + tag + ">\n"
  }

  function OrgIdElement(o: Option<string>): string {
    OrgIdOpen + Render(o) + OrgIdClose
  }

  function OrgIdElements(xs: seq<Option<string>>): string {
    if xs == [] then "" else OrgIdElement(xs[0]) + OrgIdElements(xs[1..])
  }

  lemma {:induction false} OrgIdElementsAppend(xs: seq<Option<string>>, ys: seq<Option<string>>)
    ensures OrgIdElements(xs + ys) == OrgIdElements(xs) + OrgIdElements(ys)
  {
    if xs == [] {
      assert xs + ys == ys;
    } else {
      assert (xs + ys)[1..] == xs[1..] + ys;
      OrgIdElementsAppend(xs[1..], ys);
    }
  }

  /** The text buildAvailableOrgIsXml produces for a list. */
  function OrgIdsBlock(xs: seq<Option<string>>): string {
    OrgIdsOpen + OrgIdElements(xs) + OrgIdsClose
  }

  lemma EmptyOrgIdsBlock()
    ensures OrgIdsBlock([]) == "<availableOrgIds>\n</availableOrgIds>"
  {}

  /** Appending an org id to the list adds exactly one element to the end of
      the block. */
  lemma OrgIdsBlockAppend(xs: seq<Option<string>>, x: Option<string>)
    ensures OrgIdsBlock(xs + [x]) == OrgIdsOpen + (OrgIdElements(xs) + OrgIdElement(x)) + OrgIdsClose
  {
    OrgIdElementsAppend(xs, [x]);
    assert OrgIdElements([x]) == OrgIdElement(x) + OrgIdElements([]);
  }

  /** The text toXML produces. */
  function ApplicationXml(id: Option<string>, name: Option<string>, defaultRole: Option<string>,
                          defaultOrgid: Option<string>, orgIds: seq<Option<string>>): string
  {
    Prolog
    + Element("applicationid", Render(id))
    + Element("applicationname", Render(name))
    + Element("defaultrole", Render(defaultRole))
    + Element("defaultorgid", Render(defaultOrgid))
    + "  " + OrgIdsBlock(orgIds) + "\n"
    + " </application>\n"
  }

  /** A null field is written as the text "null", so a null field and a field
      holding "null" give the same document. */
  lemma NullFieldsWriteAsNull(name: Option<string>, orgIds: seq<Option<string>>)
    ensures ApplicationXml(None, name, None, None, orgIds)
         == ApplicationXml(Some("null"), name, Some("null"), Some("null"), orgIds)
  {}

  // ---------------------------------------------------------------------
  // A reference reader for the documents toXML writes

  /** A character an XML parser hands back unchanged inside character data:
      a Char of XML 1.0 (section 2.2), other than the markup characters
      '<', '&' and '>' (the last keeps "]]>" out) and other than carriage
      return, which end-of-line handling (section 2.11) turns into '\n'. */
  predicate XmlTextChar(c: char) {
    && c != '<' && c != '&' && c != '>' && c != '\r'
    && (c == '\t' || c == '\n' || (0x20 <= c as int && c as int != 0xFFFE && c as int != 0xFFFF))
  }

  /** Text that a document parser reads back as written. The condition is
      sufficient, not necessary: a lone '>' also reads back unchanged. */
  predicate Plain(v: string) {
    forall i :: 0 <= i < |v| ==> XmlTextChar(v[i])
  }

  /** The values a reader recovers from the fixed schema. */
  datatype XmlFields = XmlFields(id: string, name: string, defaultRole: string,
                                 defaultOrgid: string, orgIds: seq<string>)

  function Expect(s: string, lit: string): (r: Option<string>)
    ensures r.Some? <==> lit <= s
    ensures r.Some? ==> s == lit + r.value
  {
    if lit <= s then Some(s[|lit|..]) else None
  }

  lemma Regroup(a: string, b: string, c: string, d: string, e: string)
    ensures a + b + c + d + e == a + (b + (c + (d + e)))
  {}

  /** Character data up to the next '<'. */
  function ReadText(s: string): (r: (string, string))
    ensures r.0 + r.1 == s
    ensures '<' !in r.0
    ensures r.1 == [] || r.1[0] == '<'
  {
    if s == [] || s[0] == '<' then ([], s)
    else
      var (t, rest) := ReadText(s[1..]);
      ([s[0]] + t, rest)
  }

  lemma {:induction false} ReadTextOf(v: string, rest: string)
    requires '<' !in v
    requires rest == [] || rest[0] == '<'
    ensures ReadText(v + rest) == (v, rest)
  {
    var s := v + rest;
    if v == [] {
      assert s == rest;
    } else {
      assert s[0] == v[0] != '<';
      assert s[1..] == v[1..] + rest;
      ReadTextOf(v[1..], rest);
      assert ReadText(s) == ([s[0]] + v[1..], rest);
      assert [v[0]] + v[1..] == v;
    }
  }

  function ReadElement(s: string, tag: string): Option<(string, string)> {
    var s1 :- Expect(s, "   <" + tag + ">");
    var (v, r) := ReadText(s1);
    var r2 :- Expect(r, "</" + tag + ">\n");
    Some((v, r2))
  }

  lemma ReadElementOf(tag: string, v: string, rest: string)
    requires '<' !in v
    ensures ReadElement(Element(tag, v) + rest, tag) == Some((v, rest))
  {
    var open, close := "   <" + tag + ">", "</" + tag + ">\n";
    assert Element(tag, v) + rest == open + (v + (close + rest));
    ReadTextOf(v, close + rest);
  }

  function ReadOrgIds(s: string): Option<seq<string>>
    decreases |s|
  {
    if OrgIdOpen <= s then
      var (t, r) := ReadText(s[|OrgIdOpen|..]);
      var r2 :- Expect(r, OrgIdClose);
      var more :- ReadOrgIds(r2);
      Some([t] + more)
    else if s == DocumentClose then Some([])
    else None
  }

  function RenderAll(xs: seq<Option<string>>): (r: seq<string>)
    ensures |r| == |xs|
  {
    if xs == [] then [] else [Render(xs[0])] + RenderAll(xs[1..])
  }

  lemma {:induction false} ReadOrgIdsOf(xs: seq<Option<string>>)
    requires forall i :: 0 <= i < |xs| ==> Plain(Render(xs[i]))
    ensures ReadOrgIds(OrgIdElements(xs) + DocumentClose) == Some(RenderAll(xs))
  {
    var s := OrgIdElements(xs) + DocumentClose;
    if xs == [] {
      assert s == DocumentClose;
      assert s[1] != OrgIdOpen[1];
      assert !(OrgIdOpen <= s);
    } else {
      var v := Render(xs[0]);
      var tail := OrgIdElements(xs[1..]) + DocumentClose;
      var afterText := OrgIdClose + tail;
      assert Plain(v);
      assert OrgIdElements(xs) == OrgIdElement(xs[0]) + OrgIdElements(xs[1..]);
      Regroup(OrgIdOpen, v, OrgIdClose, OrgIdElements(xs[1..]), DocumentClose);
      assert s == OrgIdOpen + (v + afterText);
      assert OrgIdOpen <= s;
      assert s[|OrgIdOpen|..] == v + afterText;
      ReadTextOf(v, afterText);
      assert Expect(afterText, OrgIdClose) == Some(tail);
      ReadOrgIdsOf(xs[1..]);
      assert ReadOrgIds(s) == Some([v] + RenderAll(xs[1..]));
    }
  }

  /** Reading the document toXML writes gives back every field as rendered
      and the org ids in list order, provided no value contains a
      metacharacter (nothing is escaped). */
  function ReadApplicationXml(s: string): Option<XmlFields> {
    var s1 :- Expect(s, Prolog);
    var e1 :- ReadElement(s1, "applicationid");
    var e2 :- ReadElement(e1.1, "applicationname");
    var e3 :- ReadElement(e2.1, "defaultrole");
    var e4 :- ReadElement(e3.1, "defaultorgid");
    var s6 :- Expect(e4.1, "  " + OrgIdsOpen);
    var orgIds :- ReadOrgIds(s6);
    Some(XmlFields(e1.0, e2.0, e3.0, e4.0, orgIds))
  }

  lemma ExpectOf(lit: string, rest: string)
    ensures Expect(lit + rest, lit) == Some(rest)
  {
    assert lit <= lit + rest;
    assert (lit + rest)[|lit|..] == rest;
  }

  lemma RegroupDocument(p: string, e1: string, e2: string, e3: string, e4: string, indent: string,
                        open: string, elements: string, close: string, newline: string, end: string)
    ensures p + e1 + e2 + e3 + e4 + indent + (open + elements + close) + newline + end
         == p + (e1 + (e2 + (e3 + (e4 + ((indent + open) + (elements + (close + newline + end)))))))
  {}

  lemma PlainHasNoTag(v: string)
    requires Plain(v)
    ensures '<' !in v
  {}

  lemma ReadApplicationXmlInverts(id: Option<string>, name: Option<string>, defaultRole: Option<string>,
                                  defaultOrgid: Option<string>, orgIds: seq<Option<string>>)
    requires Plain(Render(id)) && Plain(Render(name))
    requires Plain(Render(defaultRole)) && Plain(Render(defaultOrgid))
    requires forall i :: 0 <= i < |orgIds| ==> Plain(Render(orgIds[i]))
    ensures ReadApplicationXml(ApplicationXml(id, name, defaultRole, defaultOrgid, orgIds))
         == Some(XmlFields(Render(id), Render(name), Render(defaultRole), Render(defaultOrgid), RenderAll(orgIds)))
  {
    var els := OrgIdElements(orgIds);
    var t5 := els + DocumentClose;
    var t4 := ("  " + OrgIdsOpen) + t5;
    var t3 := Element("defaultorgid", Render(defaultOrgid)) + t4;
    var t2 := Element("defaultrole", Render(defaultRole)) + t3;
    var t1 := Element("applicationname", Render(name)) + t2;
    var t0 := Element("applicationid", Render(id)) + t1;
    var doc := ApplicationXml(id, name, defaultRole, defaultOrgid, orgIds);
    RegroupDocument(Prolog, Element("applicationid", Render(id)), Element("applicationname", Render(name)),
                    Element("defaultrole", Render(defaultRole)), Element("defaultorgid", Render(defaultOrgid)),
                    "  ", OrgIdsOpen, els, OrgIdsClose, "\n", " </application>\n");
    assert doc == Prolog + t0;
    PlainHasNoTag(Render(id));
    PlainHasNoTag(Render(name));
    PlainHasNoTag(Render(defaultRole));
    PlainHasNoTag(Render(defaultOrgid));
    ExpectOf(Prolog, t0);
    ReadElementOf("applicationid", Render(id), t1);
    ReadElementOf("applicationname", Render(name), t2);
    ReadElementOf("defaultrole", Render(defaultRole), t3);
    ReadElementOf("defaultorgid", Render(defaultOrgid), t4);
    ExpectOf("  " + OrgIdsOpen, t5);
    ReadOrgIdsOf(orgIds);
  }

  // ---------------------------------------------------------------------
  // toString

  /** Guava's Joiner.on(sep).join: None when an element is null, because
      a joiner without a null policy throws NullPointerException. */
  function Join(xs: seq<Option<string>>, sep: string): Option<string> {
    if xs == [] then Some("")
    else
      var first :- xs[0];
      if |xs| == 1 then Some(first)
      else
        var rest :- Join(xs[1..], sep);
        Some(first + sep + rest)
  }

  lemma {:induction false} JoinSucceedsIffNoNull(xs: seq<Option<string>>, sep: string)
    ensures Join(xs, sep).Some? <==> None !in xs
  {
    if |xs| > 1 {
      JoinSucceedsIffNoNull(xs[1..], sep);
      assert xs == [xs[0]] + xs[1..];
    }
  }

  /** Joining one more element appends the separator and that element. */
  lemma {:induction false} JoinAppend(xs: seq<Option<string>>, x: string, sep: string)
    requires xs != [] && None !in xs
    ensures Join(xs, sep).Some?
    ensures Join(xs + [Some(x)], sep) == Some(Join(xs, sep).value + sep + x)
  {
    JoinSucceedsIffNoNull(xs, sep);
    var ys := xs + [Some(x)];
    assert ys[0] == xs[0];
    assert ys[1..] == xs[1..] + [Some(x)];
    if |xs| == 1 {
      assert ys[1..] == [Some(x)];
    } else {
      assert xs[1..] != [] && None !in xs[1..];
      JoinAppend(xs[1..], x, sep);
      var first, rest := xs[0].value, Join(xs[1..], sep).value;
      assert Join(ys, sep) == Some(first + sep + (rest + sep + x));
      assert first + sep + (rest + sep + x) == (first + sep + rest) + sep + x;
    }
  }

  function ApplicationText(id: Option<string>, name: Option<string>, defaultRole: Option<string>,
                           defaultOrgid: Option<string>, orgIds: seq<Option<string>>): Option<string>
  {
    var joined :- Join(orgIds, ", ");
    Some("Application{"
      + "appId='" + Render(id) + "'"
      + ", name='" + Render(name) + "'"
      + ", defaultrole='" + Render(defaultRole) + "'"
      + ", defaultOrgid='" + Render(defaultOrgid) + "'"
      + ", availableOrgIds = '" + joined + "'"
      + "}")
  }

  // ---------------------------------------------------------------------
  // fromXml

  /** What the XPath evaluations of fromXml yielded once the document parsed:
      the four field strings ("" for a missing element) and, per orgId node,
      its text or None where evaluating that node threw. */
  datatype XmlExtraction = XmlExtraction(id: string, name: string, defaultRole: string,
                                         defaultOrgid: string, orgIdNodes: seq<Option<string>>)

  /** The org ids fromXml keeps: those read before the first node that threw. */
  function OrgIdsBeforeFailure(nodes: seq<Option<string>>): (r: seq<Option<string>>)
    ensures r <= nodes
    ensures None !in r
    ensures |r| < |nodes| ==> nodes[|r|] == None
    ensures None !in nodes ==> r == nodes
  {
    nodes[..FirstIndexOf(nodes, None)]
  }

  function ExtractionOf(f: XmlFields): XmlExtraction {
    XmlExtraction(f.id, f.name, f.defaultRole, f.defaultOrgid, seq(|f.orgIds|, i requires 0 <= i < |f.orgIds| => Some(f.orgIds[i])))
  }

  class Application {
    var id: Option<string>
    var name: Option<string>
    var defaultRole: Option<string>
    var defaultOrgid: Option<string>
    var availableOrgIds: seq<Option<string>>

    constructor (id: Option<string>, name: Option<string>)
      ensures this.id == id && this.name == name
      ensures defaultRole == None && defaultOrgid == None
      ensures availableOrgIds == []
    {
      this.id := id;
      this.name := name;
      defaultRole := None;
      defaultOrgid := None;
      availableOrgIds := [];
    }

    constructor WithDefaults(id: Option<string>, name: Option<string>,
                             defaultRole: Option<string>, defaultOrgid: Option<string>)
      ensures this.id == id && this.name == name
      ensures this.defaultRole == defaultRole && this.defaultOrgid == defaultOrgid
      ensures availableOrgIds == []
    {
      this.id := id;
      this.name := name;
      this.defaultRole := defaultRole;
      this.defaultOrgid := defaultOrgid;
      availableOrgIds := [];
    }

    /** The list argument is None for a null reference; a null list leaves
        the initial empty list in place. */
    constructor WithOrgIds(id: Option<string>, name: Option<string>,
                           defaultRole: Option<string>, defaultOrgid: Option<string>,
                           availableOrgIds: Option<seq<Option<string>>>)
      ensures this.id == id && this.name == name
      ensures this.defaultRole == defaultRole && this.defaultOrgid == defaultOrgid
      ensures this.availableOrgIds == if availableOrgIds.Some? then availableOrgIds.value else []
    {
      this.id := id;
      this.name := name;
      this.defaultRole := defaultRole;
      this.defaultOrgid := defaultOrgid;
      this.availableOrgIds := [];
      new;
      SetAvailableOrgIds(availableOrgIds);
    }

    method SetAvailableOrgIds(xs: Option<seq<Option<string>>>)
      modifies this
      ensures availableOrgIds == if xs.Some? then xs.value else old(availableOrgIds)
      ensures id == old(id) && name == old(name)
      ensures defaultRole == old(defaultRole) && defaultOrgid == old(defaultOrgid)
    {
      if xs.Some? {
        availableOrgIds := xs.value;
      }
    }

    method AddAvailableOrgId(x: Option<string>)
      modifies this
      ensures availableOrgIds == if x.Some? then old(availableOrgIds) + [x] else old(availableOrgIds)
      ensures id == old(id) && name == old(name)
      ensures defaultRole == old(defaultRole) && defaultOrgid == old(defaultOrgid)
    {
      if x.Some? {
        availableOrgIds := availableOrgIds + [x];
      }
    }

    method RemoveAvailableOrgId(x: Option<string>)
      modifies this
      ensures availableOrgIds == if x.Some? then RemoveFirst(old(availableOrgIds), x.value) else old(availableOrgIds)
      ensures id == old(id) && name == old(name)
      ensures defaultRole == old(defaultRole) && defaultOrgid == old(defaultOrgid)
    {
      if x.Some? {
        availableOrgIds := RemoveFirst(availableOrgIds, x.value);
      }
    }

    method SetDefaultOrgid(defaultOrgid: Option<string>)
      modifies this
      ensures this.defaultOrgid == defaultOrgid
      ensures id == old(id) && name == old(name) && defaultRole == old(defaultRole)
      ensures availableOrgIds == old(availableOrgIds)
    {
      this.defaultOrgid := defaultOrgid;
    }

    method SetDefaultRole(defaultRole: Option<string>)
      modifies this
      ensures this.defaultRole == defaultRole
      ensures id == old(id) && name == old(name) && defaultOrgid == old(defaultOrgid)
      ensures availableOrgIds == old(availableOrgIds)
    {
      this.defaultRole := defaultRole;
    }

    method SetId(id: Option<string>)
      modifies this
      ensures this.id == id
      ensures name == old(name) && defaultRole == old(defaultRole) && defaultOrgid == old(defaultOrgid)
      ensures availableOrgIds == old(availableOrgIds)
    {
      this.id := id;
    }

    /** buildAvailableOrgIsXml: a StringBuilder filled element by element. */
    method BuildAvailableOrgIdsXml() returns (xml: string)
      ensures xml == OrgIdsBlock(availableOrgIds)
    {
      var builder := OrgIdsOpen;
      for i := 0 to |availableOrgIds|
        invariant builder == OrgIdsOpen + OrgIdElements(availableOrgIds[..i])
      {
        OrgIdElementsAppend(availableOrgIds[..i], [availableOrgIds[i]]);
        assert availableOrgIds[..i + 1] == availableOrgIds[..i] + [availableOrgIds[i]];
        builder := builder + (OrgIdOpen + Render(availableOrgIds[i]) + OrgIdClose);
      }
      assert availableOrgIds[..|availableOrgIds|] == availableOrgIds;
      builder := builder + OrgIdsClose;
      xml := builder;
    }

    method ToXml() returns (xml: string)
      ensures xml == ApplicationXml(id, name, defaultRole, defaultOrgid, availableOrgIds)
    {
      var block := BuildAvailableOrgIdsXml();
      xml := Prolog
        + Element("applicationid", Render(id))
        + Element("applicationname", Render(name))
        + Element("defaultrole", Render(defaultRole))
        + Element("defaultorgid", Render(defaultOrgid))
        + "  " + block + "\n"
        + " </application>\n";
    }

    /** toString; None where the joiner throws on a null org id. */
    function ToString(): (r: Option<string>)
      reads this
      ensures r.Some? <==> None !in availableOrgIds
    {
      JoinSucceedsIffNoNull(availableOrgIds, ", ");
      ApplicationText(id, name, defaultRole, defaultOrgid, availableOrgIds)
    }

    /** The field-to-object step of fromXml. None stands for the document not
        parsing or a field evaluation throwing: the object is never built and
        null is returned. A node evaluation that throws inside the loop is
        caught too, but after the object was built, so the object comes back
        with the org ids read so far. */
    static method FromXml(parsed: Option<XmlExtraction>) returns (a: Application?)
      ensures a == null <==> parsed.None?
      ensures a != null ==> fresh(a)
      ensures a != null ==>
        a.id == Some(parsed.value.id) && a.name == Some(parsed.value.name) &&
        a.defaultRole == Some(parsed.value.defaultRole) && a.defaultOrgid == Some(parsed.value.defaultOrgid) &&
        a.availableOrgIds == OrgIdsBeforeFailure(parsed.value.orgIdNodes)
    {
      if parsed.None? {
        return null;
      }
      var e := parsed.value;
      a := new Application.WithDefaults(Some(e.id), Some(e.name), Some(e.defaultRole), Some(e.defaultOrgid));
      var i := 0;
      while i < |e.orgIdNodes|
        invariant 0 <= i <= |e.orgIdNodes|
        invariant forall j :: 0 <= j < i ==> e.orgIdNodes[j].Some?
        invariant a.availableOrgIds == e.orgIdNodes[..i]
        invariant a.id == Some(e.id) && a.name == Some(e.name)
        invariant a.defaultRole == Some(e.defaultRole) && a.defaultOrgid == Some(e.defaultOrgid)
      {
        if e.orgIdNodes[i].None? {
          assert FirstIndexOf(e.orgIdNodes, None) == i;
          return;
        }
        a.AddAvailableOrgId(e.orgIdNodes[i]);
        assert e.orgIdNodes[..i + 1] == e.orgIdNodes[..i] + [e.orgIdNodes[i]];
        i := i + 1;
      }
      assert e.orgIdNodes[..i] == e.orgIdNodes;
      assert FirstIndexOf(e.orgIdNodes, None) == i;
    }
  }

  /** The round trip of toXML and fromXml: writing an application, reading the
      document back and mapping the values into a new object recovers every
      field as rendered and the org ids in order. A null field comes back as
      the string "null". */
  method XmlRoundTrip(a: Application) returns (b: Application?)
    requires Plain(Render(a.id)) && Plain(Render(a.name))
    requires Plain(Render(a.defaultRole)) && Plain(Render(a.defaultOrgid))
    requires forall i :: 0 <= i < |a.availableOrgIds| ==> Plain(Render(a.availableOrgIds[i]))
    ensures b != null
    ensures b.id == Some(Render(a.id)) && b.name == Some(Render(a.name))
    ensures b.defaultRole == Some(Render(a.defaultRole)) && b.defaultOrgid == Some(Render(a.defaultOrgid))
    ensures |b.availableOrgIds| == |a.availableOrgIds|
    ensures forall i :: 0 <= i < |a.availableOrgIds| ==> b.availableOrgIds[i] == Some(Render(a.availableOrgIds[i]))
  {
    var xml := a.ToXml();
    ReadApplicationXmlInverts(a.id, a.name, a.defaultRole, a.defaultOrgid, a.availableOrgIds);
    var fields := ReadApplicationXml(xml);
    b := Application.FromXml(Some(ExtractionOf(fields.value)));
    RenderAllAt(a.availableOrgIds);
  }

  lemma {:induction false} RenderAllAt(xs: seq<Option<string>>)
    ensures forall i :: 0 <= i < |xs| ==> RenderAll(xs)[i] == Render(xs[i])
  {
    if xs != [] {
      RenderAllAt(xs[1..]);
      assert forall i :: 1 <= i < |xs| ==> RenderAll(xs)[i] == RenderAll(xs[1..])[i - 1];
    }
  }
}
