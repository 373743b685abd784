/** Concrete records built from the values the library's test suite
    (spec/marcxella_spec.rb) names, with the answers it expects. Where the
    suite gives only a count, the values here are placeholders. */
module Scenarios {
  import opened Wrappers
  import opened Xml
  import opened SubFields
  import opened ControlFields
  import opened DataFields
  import opened Records

  function Sub(code: string, text: string): Node
  {
    Element("subfield", map["code" := code], text, [])
  }

  function Datafield(tag: string, ind1: string, ind2: string, subs: seq<Node>): Node
  {
    Element("datafield", map["tag" := tag, "ind1" := ind1, "ind2" := ind2], "", subs)
  }

  /** A record built from the values the tests name for the Kindred record:
      its leader, the 001 control field, and the 020 and 245 data fields.
      The tests give only the number of 650$a subfields (two), so the single
      650 field and its two subfield values are placeholders. */
  function KindredNode(): Node
  {
    Element("record", map[], "", [
      Element("leader", map[], "00000cam a2200000Mi 4500", []),
      Element("controlfield", map["tag" := "001"], "1027474578", []),
      Datafield("020", " ", " ", [Sub("a", "9781472214812")]),
      Datafield("245", "1", "0", [Sub("a", "Kindred /"), Sub("c", "Octavia E. Butler.")]),
      Datafield("650", " ", "0", [Sub("a", "Time travel"), Sub("a", "Slavery")])
    ])
  }

  lemma KindredLeader()
    ensures NewRecord(KindredNode()).leader == "00000cam a2200000Mi 4500"
  {
    var ns := KindredNode().children;
    LeaderOfOneElement(ns, 0);
  }

  lemma RenderedPair(a: SubField, c: SubField)
    ensures Rendered([a, c]) == SubFields.ToString(a) + SubFields.ToString(c)
  {
    assert [a, c][1..] == [c];
    assert [c][1..] == [];
  }

  lemma TitleRendering()
    ensures DataFields.ToString(DataField("245", "1", "0", [SubField("a", "Kindred /"), SubField("c", "Octavia E. Butler.")]))
         == "245  10$aKindred /$cOctavia E. Butler."
  {
    var a, c := SubField("a", "Kindred /"), SubField("c", "Octavia E. Butler.");
    var head := "245" + "  " + IndToString("1") + IndToString("0");
    assert DataFields.ToString(DataField("245", "1", "0", [a, c])) == head + Rendered([a, c]);
    RenderedPair(a, c);
    TitleHeader();
    SubFieldRendering();
    AuthorRendering();
    TitleJoined(head, SubFields.ToString(a), SubFields.ToString(c));
  }

  /** The three pieces of the 245 rendering, joined. */
  lemma TitleJoined(head: string, a: string, c: string)
    requires head == "245  10" && a == "$aKindred /" && c == "$cOctavia E. Butler."
    ensures head + a + c == "245  10$aKindred /$cOctavia E. Butler."
  {
  }

  lemma TitleHeader()
    ensures "245" + "  " + IndToString("1") + IndToString("0") == "245  10"
  {
  }

  lemma AuthorRendering()
    ensures SubFields.ToString(SubField("c", "Octavia E. Butler.")) == "$cOctavia E. Butler."
  {
  }

  lemma BlankIndicatorRendering()
    ensures DataFields.ToString(DataField("020", " ", " ", [SubField("a", "9781472214812")]))
         == "020  ##$a9781472214812"
  {
  }

  lemma ControlFieldRendering()
    ensures ControlFields.ToString(ControlField("001", "1027474578")) == "001    1027474578"
  {
  }

  lemma SubFieldRendering()
    ensures SubFields.ToString(SubField("a", "Kindred /")) == "$aKindred /"
  {
  }

  lemma ValuesPair(a: SubField, c: SubField)
    ensures DataFields.Values([a, c]) == a.value + c.value
  {
    assert [a, c][1..] == [c];
    assert [c][1..] == [];
    assert DataFields.Values([c]) == c.value + "";
    assert c.value + "" == c.value;
  }

  lemma TitleDisplay()
    ensures Display(DataField("245", "1", "0", [SubField("a", "Kindred /"), SubField("c", "Octavia E. Butler.")]))
         == "Kindred /Octavia E. Butler."
  {
    var a, c := SubField("a", "Kindred /"), SubField("c", "Octavia E. Butler.");
    var d := DataField("245", "1", "0", [a, c]);
    assert Display(d) == DataFields.Values(d.subfields);
    ValuesPair(a, c);
  }

  lemma KindredControlField()
    ensures FieldQuery(NewRecord(KindredNode()), Tag(Str("001")), None)
         == [F(Control(ControlField("001", "1027474578")))]
  {
    var ns := KindredNode().children;
    TaggedNodesSingle(ns, "001", 1);
    assert [ns[1]][1..] == [];
    assert Objectified([ns[1]]) == [Control(ControlField("001", "1027474578"))];
  }

  /** Children that are all subfield elements are all selected, in order. */
  lemma {:induction false} SubfieldNodesAll(ns: seq<Node>)
    requires forall i :: 0 <= i < |ns| ==> ns[i].name == "subfield"
    ensures SubfieldNodes(ns) == ns
  {
    if ns != [] {
      SubfieldNodesAll(ns[1..]);
    }
  }

  /** Children that are all field elements are all selected, in order. */
  lemma {:induction false} FieldNodesAll(ns: seq<Node>)
    requires forall i :: 0 <= i < |ns| ==> IsFieldNode(ns[i])
    ensures FieldNodes(ns) == ns
  {
    if ns != [] {
      FieldNodesAll(ns[1..]);
    }
  }

  /** A selector that matches one child only returns that child. */
  lemma {:induction false} TaggedNodesSingle(ns: seq<Node>, t: string, i: nat)
    requires i < |ns| && IsFieldNode(ns[i]) && Attr(ns[i], "tag") == t
    requires forall j :: 0 <= j < |ns| && j != i ==> !(IsFieldNode(ns[j]) && Attr(ns[j], "tag") == t)
    ensures TaggedNodes(ns, t) == [ns[i]]
  {
    if i == 0 {
      TaggedNodesNone(ns[1..], t);
    } else {
      TaggedNodesSingle(ns[1..], t, i - 1);
    }
  }

  lemma {:induction false} TaggedNodesNone(ns: seq<Node>, t: string)
    requires forall j :: 0 <= j < |ns| ==> !(IsFieldNode(ns[j]) && Attr(ns[j], "tag") == t)
    ensures TaggedNodes(ns, t) == []
  {
    if ns != [] {
      TaggedNodesNone(ns[1..], t);
    }
  }

  lemma TaggedOne(r: Record, t: string, n: Node)
    requires TaggedNodes(r.node.children, t) == [n] && n.name == "datafield"
    ensures Tagged(r, t) == [Data(DataFields.NewDataField(n))]
  {
    assert [n][1..] == [];
  }

  lemma SubfieldsOfOne(f: Field, c: string)
    ensures SubfieldsOf([f], c) == FieldSubfield(f, c)
  {
    assert [f][1..] == [];
  }

  lemma QueryTagged(r: Record, t: string, c: string, fs: seq<Field>)
    requires Tagged(r, t) == fs
    ensures FieldQuery(r, Tag(Str(t)), Some(c)) == AsSubfields(SubfieldsOf(fs, c))
  {
  }

  /** When one data field carries the tag, a subfield query reads that field. */
  lemma QueryOneDataField(r: Record, t: string, c: string, n: Node)
    requires TaggedNodes(r.node.children, t) == [n] && n.name == "datafield"
    ensures FieldQuery(r, Tag(Str(t)), Some(c)) == AsSubfields(DataFields.Subfield(DataFields.NewDataField(n), c))
  {
    var f := Data(DataFields.NewDataField(n));
    TaggedOne(r, t, n);
    SubfieldsOfOne(f, c);
    QueryTagged(r, t, c, [f]);
  }

  /** A data field element with two subfield children holds those two
      subfields, in order. */
  lemma TwoSubfields(t: string, i1: string, i2: string, c1: string, v1: string, c2: string, v2: string)
    ensures DataFields.NewDataField(Datafield(t, i1, i2, [Sub(c1, v1), Sub(c2, v2)])).subfields
         == [SubField(c1, v1), SubField(c2, v2)]
  {
    SubfieldNodesAll([Sub(c1, v1), Sub(c2, v2)]);
  }

  lemma TitleSubfields()
    ensures DataFields.NewDataField(KindredNode().children[3]).subfields
         == [SubField("a", "Kindred /"), SubField("c", "Octavia E. Butler.")]
  {
    TwoSubfields("245", "1", "0", "a", "Kindred /", "c", "Octavia E. Butler.");
  }

  lemma KindredTitleSubfield()
    ensures var es := FieldQuery(NewRecord(KindredNode()), Tag(Str("245")), Some("a"));
            es != [] && es[0] == S(SubField("a", "Kindred /"))
  {
    var ns := KindredNode().children;
    TaggedNodesSingle(ns, "245", 3);
    QueryOneDataField(NewRecord(KindredNode()), "245", "a", ns[3]);
    TitleSubfields();
    var subs := [SubField("a", "Kindred /"), SubField("c", "Octavia E. Butler.")];
    assert DataFields.SelectCode(subs, "a") == [subs[0]] + DataFields.SelectCode(subs[1..], "a");
  }

  lemma KindredItem001()
    ensures var es := ItemQuery(NewRecord(KindredNode()), Bare(Str("001")), None);
            |es| == 1 && es[0].F? && es[0].field.Control?
  {
    KindredControlField();
  }

  lemma KindredItem245()
    ensures var es := ItemQuery(NewRecord(KindredNode()), Bare(Str("245")), None);
            |es| == 1 && es[0].F? && es[0].field.Data?
  {
    var r := NewRecord(KindredNode());
    TaggedNodesSingle(r.node.children, "245", 3);
    TaggedOne(r, "245", r.node.children[3]);
    AsFieldsHead(Tagged(r, "245"));
  }

  lemma SubjectSubfields()
    ensures DataFields.NewDataField(KindredNode().children[4]).subfields
         == [SubField("a", "Time travel"), SubField("a", "Slavery")]
  {
    TwoSubfields("650", " ", "0", "a", "Time travel", "a", "Slavery");
  }

  lemma SubjectCodeA()
    ensures DataFields.Subfield(DataFields.NewDataField(KindredNode().children[4]), "a")
         == [SubField("a", "Time travel"), SubField("a", "Slavery")]
  {
    SubjectSubfields();
    SelectPair(SubField("a", "Time travel"), SubField("a", "Slavery"), "a");
  }

  lemma SelectPair(x: SubField, y: SubField, c: string)
    requires x.code == c && y.code == c
    ensures DataFields.SelectCode([x, y], c) == [x, y]
  {
    assert [x, y][1..] == [y];
    assert [y][1..] == [];
    assert DataFields.SelectCode([y], c) == [y];
  }

  lemma AsSubfieldsPair(a: SubField, b: SubField)
    ensures AsSubfields([a, b]) == [S(a), S(b)]
  {
    assert [a, b][1..] == [b];
    assert [b][1..] == [];
  }

  lemma KindredItem650a()
    ensures var es := ItemQuery(NewRecord(KindredNode()), Pair(Tag(Str("650")), Some("a")), None);
            es == [S(SubField("a", "Time travel")), S(SubField("a", "Slavery"))]
  {
    var ns := KindredNode().children;
    var a, b := SubField("a", "Time travel"), SubField("a", "Slavery");
    TaggedNodesSingle(ns, "650", 4);
    QueryOneDataField(NewRecord(KindredNode()), "650", "a", ns[4]);
    SubjectCodeA();
    AsSubfieldsPair(a, b);
  }

  lemma ListQueryThree(r: Record, x: SpecItem, y: SpecItem, z: SpecItem, c: Option<string>)
    ensures FieldQuery(r, List([x, y, z]), c) == ItemQuery(r, x, c) + ItemQuery(r, y, c) + ItemQuery(r, z, c)
  {
    assert [x, y, z] == [x] + ([y] + [z]);
    ListQueryAppend(r, [x], [y] + [z], c);
    ListQueryAppend(r, [y], [z], c);
    ListQuerySingle(r, x, c);
    ListQuerySingle(r, y, c);
    ListQuerySingle(r, z, c);
  }

  /** Three items, each answered separately, answer the Array together. */
  lemma MixedFromItems(r: Record, x: SpecItem, y: SpecItem, z: SpecItem, a: SubField, b: SubField)
    requires var e := ItemQuery(r, x, None); |e| == 1 && e[0].F? && e[0].field.Control?
    requires var e := ItemQuery(r, y, None); |e| == 1 && e[0].F? && e[0].field.Data?
    requires ItemQuery(r, z, None) == [S(a), S(b)]
    ensures var es := FieldQuery(r, List([x, y, z]), None);
            |es| == 4 && es[0].F? && es[0].field.Control? && es[1].F? && es[1].field.Data?
            && es[2] == S(a) && es[3] == S(b)
  {
    ListQueryThree(r, x, y, z, None);
    ConcatFour(ItemQuery(r, x, None), ItemQuery(r, y, None), ItemQuery(r, z, None));
  }

  lemma ConcatFour(e1: seq<Element>, e2: seq<Element>, e3: seq<Element>)
    requires |e1| == 1 && |e2| == 1 && |e3| == 2
    ensures var es := e1 + e2 + e3;
            |es| == 4 && es[0] == e1[0] && es[1] == e2[0] && es[2] == e3[0] && es[3] == e3[1]
  {
  }

  /** `field(["001", "245", ["650", "a"]])` is a control field, a data field
      and then the two 650$a subfields. */
  lemma KindredMixedQuery()
    ensures var es := FieldQuery(NewRecord(KindredNode()),
                                 List([Bare(Str("001")), Bare(Str("245")), Pair(Tag(Str("650")), Some("a"))]), None);
            |es| == 4 && es[0].F? && es[0].field.Control? && es[1].F? && es[1].field.Data?
            && es[2] == S(SubField("a", "Time travel")) && es[3] == S(SubField("a", "Slavery"))
  {
    KindredItem001();
    KindredItem245();
    KindredItem650a();
    MixedFromItems(NewRecord(KindredNode()), Bare(Str("001")), Bare(Str("245")), Pair(Tag(Str("650")), Some("a")),
                   SubField("a", "Time travel"), SubField("a", "Slavery"));
  }

  /** A record whose 110 field comes before its 100 field. */
  function CorporateFirstNode(): Node
  {
    Element("record", map[], "", [
      Element("leader", map[], "00000cam a2200000Mi 4500", []),
      Datafield("110", "2", " ", [Sub("a", "Society")]),
      Datafield("100", "1", " ", [Sub("a", "Butler, Octavia E.")])
    ])
  }

  /** A record whose only fields are a 110 and then a 100 has the 100 field
      as its main entry. */
  lemma MainEntryOfTwo(r: Record, a: Node, b: Node)
    requires FieldNodes(r.node.children) == [a, b]
    requires Attr(a, "tag") == "110" && Attr(b, "tag") == "100"
    ensures MainEntry(r).Some? && MainEntry(r).value.F? && FieldTag(MainEntry(r).value.field) == "100"
  {
    var fs := Fields(r);
    assert |fs| == 2 && FieldTag(fs[0]) == "110" && FieldTag(fs[1]) == "100";
    MainEntryFirst(r, 0, 1);
  }

  lemma CorporateFieldNodes()
    ensures var ns := CorporateFirstNode().children;
            FieldNodes(ns) == [ns[1], ns[2]] && Attr(ns[1], "tag") == "110" && Attr(ns[2], "tag") == "100"
  {
    var ns := CorporateFirstNode().children;
    FieldNodesAll(ns[1..]);
    assert ns[1..] == [ns[1], ns[2]];
  }

  /** `mainEntry` follows the order of its tag list, not the document: the
      100 field is chosen although a 110 field precedes it. */
  lemma MainEntryPrefers100()
    ensures var r := NewRecord(CorporateFirstNode());
            MainEntry(r).Some? && MainEntry(r).value.F? && FieldTag(MainEntry(r).value.field) == "100"
  {
    var ns := CorporateFirstNode().children;
    CorporateFieldNodes();
    MainEntryOfTwo(NewRecord(CorporateFirstNode()), ns[1], ns[2]);
  }
}
