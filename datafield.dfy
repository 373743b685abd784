/** lib/marcxella/datafield.rb: a data field has a tag, two indicators and
    its subfields in document order. */
module DataFields {
  import opened Xml
  import opened Seqs
  import SubFields

  type SubField = SubFields.SubField

  datatype DataField = DataField(tag: string, ind1: string, ind2: string, subfields: seq<SubField>)

  /** `node.css('subfield')`: the subfield children, in document order. */
  function SubfieldNodes(ns: seq<Node>): (r: seq<Node>)
    ensures forall n :: n in r <==> n in ns && n.name == "subfield"
    ensures forall n :: multiset(r)[n] == if n.name == "subfield" then multiset(ns)[n] else 0
    ensures IsSubsequence(r, ns)
  {
    if ns == [] then []
    else
      assert ns == [ns[0]] + ns[1..];
      if ns[0].name == "subfield" then [ns[0]] + SubfieldNodes(ns[1..])
      else SubfieldNodes(ns[1..])
  }

  /** `DataField.new(node)`: tag and indicators from the attributes, one
      subfield per subfield child, in the same order and number. */
  function NewDataField(n: Node): (d: DataField)
    ensures d.tag == Attr(n, "tag") && d.ind1 == Attr(n, "ind1") && d.ind2 == Attr(n, "ind2")
    ensures |d.subfields| == |SubfieldNodes(n.children)|
    ensures forall i :: 0 <= i < |d.subfields| ==>
              d.subfields[i] == SubFields.NewSubField(SubfieldNodes(n.children)[i])
  {
    var sn := SubfieldNodes(n.children);
    DataField(Attr(n, "tag"), Attr(n, "ind1"), Attr(n, "ind2"),
              seq(|sn|, i requires 0 <= i < |sn| => SubFields.NewSubField(sn[i])))
  }

  /** The subfields of `ss` whose code is `code`, in their original order. */
  function SelectCode(ss: seq<SubField>, code: string): (r: seq<SubField>)
    ensures forall s :: s in r <==> s in ss && s.code == code
    ensures forall s :: multiset(r)[s] == if s.code == code then multiset(ss)[s] else 0
    ensures IsSubsequence(r, ss)
    ensures |r| <= |ss|
  {
    if ss == [] then []
    else
      assert ss == [ss[0]] + ss[1..];
      if ss[0].code == code then [ss[0]] + SelectCode(ss[1..], code)
      else SelectCode(ss[1..], code)
  }

  /** `subfield(code)`: exactly the subfields carrying `code` (none, one or
      several), in field order. */
  function Subfield(d: DataField, code: string): (r: seq<SubField>)
    ensures forall s :: s in r <==> s in d.subfields && s.code == code
    ensures forall s :: multiset(r)[s] == if s.code == code then multiset(d.subfields)[s] else 0
    ensures IsSubsequence(r, d.subfields)
    ensures r == [] <==> forall s :: s in d.subfields ==> s.code != code
  {
    SelectCode(d.subfields, code)
  }

  /** The values of `ss` joined with no separator. */
  function Values(ss: seq<SubField>): string
  {
    if ss == [] then "" else ss[0].value + Values(ss[1..])
  }

  function ValueLengths(ss: seq<SubField>): nat
  {
    if ss == [] then 0 else |ss[0].value| + ValueLengths(ss[1..])
  }

  lemma {:induction false} ValuesAppend(a: seq<SubField>, b: seq<SubField>)
    ensures Values(a + b) == Values(a) + Values(b)
    ensures ValueLengths(a + b) == ValueLengths(a) + ValueLengths(b)
  {
    if a == [] {
      assert a + b == b;
    } else {
      assert (a + b)[1..] == a[1..] + b;
      ValuesAppend(a[1..], b);
    }
  }

  lemma {:induction false} ValuesLength(ss: seq<SubField>)
    ensures |Values(ss)| == ValueLengths(ss)
  {
    if ss != [] {
      ValuesLength(ss[1..]);
    }
  }

  /** Each value sits in the joined string between the values before it and
      the values after it. */
  lemma {:induction false} ValuesSplit(ss: seq<SubField>, i: nat)
    requires i < |ss|
    ensures Values(ss) == Values(ss[..i]) + ss[i].value + Values(ss[i + 1..])
  {
    var rest := [ss[i]] + ss[i + 1..];
    assert ss == ss[..i] + rest;
    ValuesAppend(ss[..i], rest);
    assert rest[1..] == ss[i + 1..];
  }

  /** `display`: the subfield values concatenated in order, no separators. */
  function Display(d: DataField): (r: string)
    ensures |r| == ValueLengths(d.subfields)
    ensures forall i :: 0 <= i < |d.subfields| ==>
              r == Values(d.subfields[..i]) + d.subfields[i].value + Values(d.subfields[i + 1..])
  {
    ValuesLength(d.subfields);
    forall i | 0 <= i < |d.subfields|
      ensures Values(d.subfields) == Values(d.subfields[..i]) + d.subfields[i].value + Values(d.subfields[i + 1..])
    {
      ValuesSplit(d.subfields, i);
    }
    Values(d.subfields)
  }

  /** `ind_to_s`: a blank indicator is shown as `#`, any other as itself. */
  function IndToString(i: string): (r: string)
    ensures i == " " ==> r == "#"
    ensures i != " " ==> r == i
    ensures r != " "
  {
    if i == " " then "#" else i
  }

  lemma IndToStringIdempotent(i: string)
    ensures IndToString(IndToString(i)) == IndToString(i)
  {
  }

  /** `@subfields.join('')`: the subfield renderings with no separator. */
  function Rendered(ss: seq<SubField>): (r: string)
    ensures |r| == |ss| + CodeLengths(ss) + ValueLengths(ss)
    ensures ss != [] ==> r[0] == '$'
  {
    if ss == [] then "" else SubFields.ToString(ss[0]) + Rendered(ss[1..])
  }

  function CodeLengths(ss: seq<SubField>): nat
  {
    if ss == [] then 0 else |ss[0].code| + CodeLengths(ss[1..])
  }

  lemma {:induction false} RenderedAppend(a: seq<SubField>, b: seq<SubField>)
    ensures Rendered(a + b) == Rendered(a) + Rendered(b)
  {
    if a == [] {
      assert a + b == b;
    } else {
      assert (a + b)[1..] == a[1..] + b;
      RenderedAppend(a[1..], b);
    }
  }

  /** Each subfield's `$<code><value>` sits in the joined string between the
      renderings of the subfields before it and after it. */
  lemma {:induction false} RenderedSplit(ss: seq<SubField>, i: nat)
    requires i < |ss|
    ensures Rendered(ss) == Rendered(ss[..i]) + SubFields.ToString(ss[i]) + Rendered(ss[i + 1..])
  {
    var rest := [ss[i]] + ss[i + 1..];
    assert ss == ss[..i] + rest;
    RenderedAppend(ss[..i], rest);
    assert rest[1..] == ss[i + 1..];
  }

  /** Where the subfields start in the rendering of `d`. */
  function HeaderLength(d: DataField): nat
  {
    |d.tag| + 2 + |IndToString(d.ind1)| + |IndToString(d.ind2)|
  }

  /** `to_s`, the `"%s  %s%s%s"` rendering: the tag, two spaces, the two
      rendered indicators, then the subfield renderings. */
  function ToString(d: DataField): (r: string)
    ensures |r| == HeaderLength(d) + |Rendered(d.subfields)|
    ensures r[..|d.tag|] == d.tag
    ensures r[|d.tag|..|d.tag| + 2] == "  "
    ensures r[|d.tag| + 2..HeaderLength(d)] == IndToString(d.ind1) + IndToString(d.ind2)
    ensures r[HeaderLength(d)..] == Rendered(d.subfields)
  {
    var head := d.tag + "  " + IndToString(d.ind1) + IndToString(d.ind2);
    var r := head + Rendered(d.subfields);
    assert r[..|head|] == head;
    r
  }

  /** With one-character indicators (as MARC has them), positions |tag|+2 and
      |tag|+3 of the rendering hold the indicators, `#` for a blank, and
      never a space. */
  lemma IndicatorPositions(d: DataField)
    requires |d.ind1| == 1 && |d.ind2| == 1
    ensures ToString(d)[|d.tag| + 2] == (if d.ind1 == " " then '#' else d.ind1[0])
    ensures ToString(d)[|d.tag| + 3] == (if d.ind2 == " " then '#' else d.ind2[0])
    ensures ToString(d)[|d.tag| + 2] != ' ' && ToString(d)[|d.tag| + 3] != ' '
  {
    var r := ToString(d);
    var ind := r[|d.tag| + 2..HeaderLength(d)];
    assert ind == IndToString(d.ind1) + IndToString(d.ind2);
    assert r[|d.tag| + 2] == ind[0];
    assert r[|d.tag| + 3] == ind[1];
    assert d.ind1 != " " ==> d.ind1 == [d.ind1[0]];
    assert d.ind2 != " " ==> d.ind2 == [d.ind2[0]];
  }
}
