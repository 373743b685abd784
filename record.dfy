/** lib/marcxella/record.rb: a record is its element node and its leader;
    `field` evaluates a tag specification against the record's control and
    data fields, in document order. */
module Records {
  import opened Wrappers
  import opened Xml
  import opened Seqs
  import Tags
  import SubFields
  import ControlFields
  import DataFields

  type SubField = SubFields.SubField

  /** The two kinds of field `objectify` produces. */
  datatype Field = Control(control: ControlFields.ControlField) | Data(data: DataFields.DataField)

  function FieldTag(f: Field): string
  {
    match f
    case Control(c) => c.tag
    case Data(d) => d.tag
  }

  /** The `subfields` reader of either kind of field. */
  function AllSubfields(f: Field): seq<SubField>
  {
    match f
    case Control(c) => ControlFields.Subfields(c)
    case Data(d) => d.subfields
  }

  /** `f.subfield(code)`, dispatched on the kind of field. */
  function FieldSubfield(f: Field, code: string): (r: seq<SubField>)
    ensures f.Control? ==> r == []
    ensures f.Data? ==> r == DataFields.Subfield(f.data, code)
    ensures forall s :: s in r <==> s in AllSubfields(f) && s.code == code
    ensures IsSubsequence(r, AllSubfields(f))
  {
    match f
    case Control(c) => ControlFields.Subfield(c, code)
    case Data(d) => DataFields.Subfield(d, code)
  }

  /** `objectify`: a `controlfield` element becomes a control field, any
      other element a data field. */
  function Objectify(n: Node): (f: Field)
    ensures f.Control? <==> n.name == "controlfield"
    ensures FieldTag(f) == Attr(n, "tag")
    ensures f.Control? ==> f.control == ControlFields.NewControlField(n)
    ensures f.Data? ==> f.data == DataFields.NewDataField(n)
  {
    if n.name == "controlfield" then Control(ControlFields.NewControlField(n))
    else Data(DataFields.NewDataField(n))
  }

  function Objectified(ns: seq<Node>): (fs: seq<Field>)
    ensures |fs| == |ns|
    ensures forall i :: 0 <= i < |ns| ==> fs[i] == Objectify(ns[i])
  {
    if ns == [] then [] else [Objectify(ns[0])] + Objectified(ns[1..])
  }

  predicate IsFieldNode(n: Node)
  {
    n.name == "controlfield" || n.name == "datafield"
  }

  /** `css('controlfield, datafield')`: the field children in document order. */
  function FieldNodes(ns: seq<Node>): (r: seq<Node>)
    ensures forall n :: n in r <==> n in ns && IsFieldNode(n)
    ensures forall n :: multiset(r)[n] == if IsFieldNode(n) then multiset(ns)[n] else 0
    ensures IsSubsequence(r, ns)
  {
    if ns == [] then []
    else
      assert ns == [ns[0]] + ns[1..];
      if IsFieldNode(ns[0]) then [ns[0]] + FieldNodes(ns[1..])
      else FieldNodes(ns[1..])
  }

  /** `css("controlfield[tag=\"t\"], datafield[tag=\"t\"]")`: the field
      children whose tag attribute is `t`, in document order. */
  function TaggedNodes(ns: seq<Node>, t: string): (r: seq<Node>)
    ensures forall n :: n in r <==> n in ns && IsFieldNode(n) && Attr(n, "tag") == t
    ensures forall n :: multiset(r)[n] == if IsFieldNode(n) && Attr(n, "tag") == t then multiset(ns)[n] else 0
    ensures IsSubsequence(r, ns)
  {
    if ns == [] then []
    else
      assert ns == [ns[0]] + ns[1..];
      if IsFieldNode(ns[0]) && Attr(ns[0], "tag") == t then [ns[0]] + TaggedNodes(ns[1..], t)
      else TaggedNodes(ns[1..], t)
  }

  /** `node.css('leader').text`: the text of the leader children, joined. */
  function LeaderText(ns: seq<Node>): string
  {
    if ns == [] then ""
    else (if ns[0].name == "leader" then ns[0].text else "") + LeaderText(ns[1..])
  }

  datatype Record = Record(node: Node, leader: string)

  /** `Record.new(node)`: keeps the node and reads the leader once. */
  function NewRecord(n: Node): (r: Record)
    ensures r.node == n && r.leader == LeaderText(n.children)
  {
    Record(n, LeaderText(n.children))
  }

  /** A record element with one leader child has that child's text as leader. */
  lemma {:induction false} LeaderOfOneElement(ns: seq<Node>, i: nat)
    requires i < |ns| && ns[i].name == "leader"
    requires forall j :: 0 <= j < |ns| && j != i ==> ns[j].name != "leader"
    ensures LeaderText(ns) == ns[i].text
  {
    if i == 0 {
      LeaderAbsent(ns[1..]);
    } else {
      LeaderOfOneElement(ns[1..], i - 1);
    }
  }

  /** Without a leader child the leader is the empty string. */
  lemma {:induction false} LeaderAbsent(ns: seq<Node>)
    requires forall n :: n in ns ==> n.name != "leader"
    ensures LeaderText(ns) == ""
  {
    if ns != [] {
      LeaderAbsent(ns[1..]);
    }
  }

  /** `fields`: every field child, classified by element name, with the tag of
      its element, in document order. */
  function Fields(r: Record): (fs: seq<Field>)
    ensures |fs| == |FieldNodes(r.node.children)|
    ensures forall i :: 0 <= i < |fs| ==>
              (fs[i].Control? <==> FieldNodes(r.node.children)[i].name == "controlfield")
              && FieldTag(fs[i]) == Attr(FieldNodes(r.node.children)[i], "tag")
    ensures forall i :: 0 <= i < |fs| ==> fs[i] == Objectify(FieldNodes(r.node.children)[i])
  {
    Objectified(FieldNodes(r.node.children))
  }

  /** The fields of `fs` tagged `t`, in their original order: the reference
      that the selector-based lookup is proved against. */
  function FilterTag(fs: seq<Field>, t: string): (r: seq<Field>)
    ensures forall f :: f in r <==> f in fs && FieldTag(f) == t
    ensures forall f :: multiset(r)[f] == if FieldTag(f) == t then multiset(fs)[f] else 0
    ensures IsSubsequence(r, fs)
  {
    if fs == [] then []
    else
      assert fs == [fs[0]] + fs[1..];
      if FieldTag(fs[0]) == t then [fs[0]] + FilterTag(fs[1..], t)
      else FilterTag(fs[1..], t)
  }

  /** The first field of `fs` tagged `t` heads the filter. */
  lemma {:induction false} FilterTagFirst(fs: seq<Field>, t: string, i: nat)
    requires i < |fs| && FieldTag(fs[i]) == t
    requires forall j :: 0 <= j < i ==> FieldTag(fs[j]) != t
    ensures FilterTag(fs, t) != [] && FilterTag(fs, t)[0] == fs[i]
  {
    if i > 0 {
      assert FieldTag(fs[0]) != t;
      assert FilterTag(fs, t) == FilterTag(fs[1..], t);
      FilterTagFirst(fs[1..], t, i - 1);
    } else {
      assert FilterTag(fs, t) == [fs[0]] + FilterTag(fs[1..], t);
    }
  }

  /** `field(t)` for one tag string, as the record computes it. */
  function Tagged(r: Record, t: string): seq<Field>
  {
    Objectified(TaggedNodes(r.node.children, t))
  }

  lemma {:induction false} TaggedNodesObjectified(ns: seq<Node>, t: string)
    ensures Objectified(TaggedNodes(ns, t)) == FilterTag(Objectified(FieldNodes(ns)), t)
  {
    if ns != [] {
      TaggedNodesObjectified(ns[1..], t);
      if IsFieldNode(ns[0]) {
        var fs := Objectified(FieldNodes(ns));
        assert fs == [Objectify(ns[0])] + Objectified(FieldNodes(ns[1..]));
        assert fs[1..] == Objectified(FieldNodes(ns[1..]));
      }
    }
  }

  /** Looking a tag up through the selector gives exactly the fields of
      `fields` carrying that tag, in document order. */
  lemma TaggedIsFilterOfFields(r: Record, t: string)
    ensures Tagged(r, t) == FilterTag(Fields(r), t)
  {
    TaggedNodesObjectified(r.node.children, t);
  }

  /** `fs.map{|f| f.subfield(code)}.flatten`. */
  function SubfieldsOf(fs: seq<Field>, code: string): (r: seq<SubField>)
    ensures forall s :: s in r ==> s.code == code
    ensures (forall f :: f in fs ==> f.Control?) ==> r == []
  {
    if fs == [] then []
    else FieldSubfield(fs[0], code) + SubfieldsOf(fs[1..], code)
  }

  /** A subfield is in the flattened result iff one of the fields yields it. */
  lemma {:induction false} SubfieldsOfMembers(fs: seq<Field>, code: string)
    ensures forall s :: s in SubfieldsOf(fs, code) <==> exists f :: f in fs && s in FieldSubfield(f, code)
  {
    if fs != [] {
      SubfieldsOfMembers(fs[1..], code);
      assert forall f :: f in fs <==> f == fs[0] || f in fs[1..];
    }
  }

  /** An item of a `field` result: a whole field or a subfield. */
  datatype Element = F(field: Field) | S(sub: SubField)

  /** Whole fields as result items. */
  function AsFields(fs: seq<Field>): (es: seq<Element>)
    ensures |es| == |fs|
  {
    if fs == [] then [] else [F(fs[0])] + AsFields(fs[1..])
  }

  lemma {:induction false} AsFieldsAppend(a: seq<Field>, b: seq<Field>)
    ensures AsFields(a + b) == AsFields(a) + AsFields(b)
  {
    if a == [] {
      assert a + b == b;
    } else {
      assert (a + b)[1..] == a[1..] + b;
      AsFieldsAppend(a[1..], b);
    }
  }

  lemma AsFieldsHead(fs: seq<Field>)
    requires fs != []
    ensures AsFields(fs)[0] == F(fs[0])
  {
  }

  lemma {:induction false} AsFieldsMembers(fs: seq<Field>)
    ensures forall e :: e in AsFields(fs) ==> e.F? && e.field in fs
  {
    if fs != [] {
      AsFieldsMembers(fs[1..]);
    }
  }

  lemma {:induction false} AsSubfieldsMembers(ss: seq<SubField>)
    ensures forall e :: e in AsSubfields(ss) ==> e.S? && e.sub in ss
  {
    if ss != [] {
      AsSubfieldsMembers(ss[1..]);
    }
  }

  /** Subfields as result items. */
  function AsSubfields(ss: seq<SubField>): (es: seq<Element>)
    ensures |es| == |ss|
  {
    if ss == [] then [] else [S(ss[0])] + AsSubfields(ss[1..])
  }

  /** A tag as a caller writes it: a string, or an Integer. */
  datatype TagValue = Str(s: string) | Int(n: int)

  /** The `tag` argument of `field`: a single tag or an Array. */
  datatype TagSpec = Tag(tag: TagValue) | List(items: seq<SpecItem>)

  /** An element of an Array argument: a bare tag, which takes the caller's
      default code, or an inner Array `[t0, t1]`, which is resolved as
      `field(t0, t1)`; a one-element inner Array has `t1 == nil`. */
  datatype SpecItem = Bare(tag: TagValue) | Pair(spec: TagSpec, code: Option<string>)

  /** An Integer tag is rendered with `"%0.3d"`; a string is used as given. */
  function Normalize(tv: TagValue): (t: string)
    ensures tv.Str? ==> t == tv.s
    ensures tv.Int? && tv.n >= 0 ==> 3 <= |t| && Tags.IsDigits(t) && Tags.Value(t) == tv.n
    ensures tv.Int? && 0 <= tv.n < 1000 ==> |t| == 3
    ensures tv.Int? && tv.n >= 100 ==> t == Tags.Decimal(tv.n)
    ensures tv.Int? && tv.n < 0 ==> 4 <= |t| && t[0] == '-' && Tags.IsDigits(t[1..]) && Tags.Value(t[1..]) == -tv.n
    ensures tv.Int? && -1000 < tv.n < 0 ==> |t| == 4
    ensures tv.Int? && tv.n <= -100 ==> t == "-" + Tags.Decimal(-tv.n)
  {
    match tv
    case Str(s) => s
    case Int(n) => Tags.Pad3(n)
  }

  /** `field(t, code)` for one tag string: the fields tagged `t` when there is
      no code, otherwise their subfields with that code. */
  function Resolve(r: Record, t: string, code: Option<string>): seq<Element>
  {
    match code
    case None => AsFields(Tagged(r, t))
    case Some(c) => AsSubfields(SubfieldsOf(Tagged(r, t), c))
  }

  /** Without a code, one tag yields fields of the record carrying that tag;
      with a code, subfields carrying that code. */
  lemma ResolveElements(r: Record, t: string, code: Option<string>)
    ensures code.None? ==> forall e :: e in Resolve(r, t, code) ==> e.F? && e.field in Fields(r) && FieldTag(e.field) == t
    ensures code.Some? ==> forall e :: e in Resolve(r, t, code) ==> e.S? && e.sub.code == code.value
  {
    match code
    case None =>
      TaggedIsFilterOfFields(r, t);
      AsFieldsMembers(Tagged(r, t));
    case Some(c) =>
      AsSubfieldsMembers(SubfieldsOf(Tagged(r, t), c));
  }

  /** `field(tag, code)`. */
  function FieldQuery(r: Record, spec: TagSpec, code: Option<string>): seq<Element>
    decreases spec
  {
    match spec
    case Tag(tv) => Resolve(r, Normalize(tv), code)
    case List(items) => ListQuery(r, items, code)
  }

  /** `tag.map{...}.flatten` for an Array argument. */
  function ListQuery(r: Record, items: seq<SpecItem>, code: Option<string>): seq<Element>
    decreases items
  {
    if items == [] then []
    else ItemQuery(r, items[0], code) + ListQuery(r, items[1..], code)
  }

  function ItemQuery(r: Record, item: SpecItem, code: Option<string>): seq<Element>
    decreases item
  {
    match item
    case Bare(tv) => Resolve(r, Normalize(tv), code)
    case Pair(spec, k) => FieldQuery(r, spec, k)
  }

  /** `include?(tag, code)`: the query finds something. */
  function Include(r: Record, spec: TagSpec, code: Option<string>): bool
  {
    FieldQuery(r, spec, code) != []
  }

  /** The Array `mainEntry` asks for, in this order. */
  const MainEntryTags: seq<string> := ["100", "110", "111", "130"]

  /** An Array of bare string tags. */
  function Bares(ts: seq<string>): (items: seq<SpecItem>)
    ensures |items| == |ts|
  {
    if ts == [] then [] else [Bare(Str(ts[0]))] + Bares(ts[1..])
  }

  function MainEntrySpec(): TagSpec
  {
    List(Bares(MainEntryTags))
  }

  /** `mainEntry`: the first element of the main-entry query, or nil. */
  function MainEntry(r: Record): Option<Element>
  {
    var es := FieldQuery(r, MainEntrySpec(), None);
    if es == [] then None else Some(es[0])
  }

  // ---- Properties of the query evaluator ----

  /** A bare tag string without a code yields exactly the fields carrying it,
      as a subsequence of `fields` in document order. */
  lemma QueryTag(r: Record, t: string)
    ensures FieldQuery(r, Tag(Str(t)), None) == AsFields(FilterTag(Fields(r), t))
  {
    TaggedIsFilterOfFields(r, t);
  }

  /** An Integer tag is the tag its `"%0.3d"` rendering names, e.g. 8 is "008". */
  lemma QueryIntTag(r: Record, n: int, code: Option<string>)
    ensures FieldQuery(r, Tag(Int(n)), code) == FieldQuery(r, Tag(Str(Tags.Pad3(n))), code)
    ensures 0 <= n < 1000 ==> |Tags.Pad3(n)| == 3
  {
  }

  /** A tag with a code yields the subfields with that code of the fields
      carrying the tag, concatenated in field order. */
  lemma QueryTagCode(r: Record, t: string, c: string)
    ensures FieldQuery(r, Tag(Str(t)), Some(c)) == AsSubfields(SubfieldsOf(FilterTag(Fields(r), t), c))
  {
    TaggedIsFilterOfFields(r, t);
  }

  /** Subfields asked of a tag only control fields carry: always empty. */
  lemma QueryControlOnly(r: Record, t: string, c: string)
    requires forall f :: f in Fields(r) && FieldTag(f) == t ==> f.Control?
    ensures FieldQuery(r, Tag(Str(t)), Some(c)) == []
  {
    QueryTagCode(r, t, c);
  }

  /** An Array argument is evaluated element by element and the results are
      concatenated in the order of the Array. */
  lemma {:induction false} ListQueryAppend(r: Record, a: seq<SpecItem>, b: seq<SpecItem>, code: Option<string>)
    ensures FieldQuery(r, List(a + b), code) == FieldQuery(r, List(a), code) + FieldQuery(r, List(b), code)
  {
    if a == [] {
      assert a + b == b;
    } else {
      assert (a + b)[0] == a[0];
      assert (a + b)[1..] == a[1..] + b;
      ListQueryAppend(r, a[1..], b, code);
    }
  }

  /** The empty Array finds nothing; a bare element takes the caller's code;
      a pair uses its own code, even nil, and ignores the caller's. */
  lemma ListQueryElements(r: Record, tv: TagValue, spec: TagSpec, k: Option<string>, code: Option<string>)
    ensures FieldQuery(r, List([]), code) == []
    ensures FieldQuery(r, List([Bare(tv)]), code) == FieldQuery(r, Tag(tv), code)
    ensures FieldQuery(r, List([Pair(spec, k)]), code) == FieldQuery(r, spec, k)
  {
    assert [Bare(tv)][1..] == [];
    assert ListQuery(r, [Bare(tv)], code) == ItemQuery(r, Bare(tv), code) + ListQuery(r, [], code);
    assert [Pair(spec, k)][1..] == [];
    assert ListQuery(r, [Pair(spec, k)], code) == ItemQuery(r, Pair(spec, k), code) + ListQuery(r, [], code);
  }

  /** A one-element Array answers what its element answers. */
  lemma ListQuerySingle(r: Record, item: SpecItem, code: Option<string>)
    ensures FieldQuery(r, List([item]), code) == ItemQuery(r, item, code)
  {
    assert [item][1..] == [];
    assert ListQuery(r, [item], code) == ItemQuery(r, item, code) + ListQuery(r, [], code);
  }

  /** `field([t1, [t2, v]])`: the fields tagged t1, then the subfields with
      code v of the fields tagged t2, whole fields and subfields in one
      result. */
  lemma MixedQuery(r: Record, t1: string, t2: string, v: string)
    ensures FieldQuery(r, List([Bare(Str(t1)), Pair(Tag(Str(t2)), Some(v))]), None)
         == AsFields(FilterTag(Fields(r), t1)) + AsSubfields(SubfieldsOf(FilterTag(Fields(r), t2), v))
  {
    var items := [Bare(Str(t1)), Pair(Tag(Str(t2)), Some(v))];
    assert items == [items[0]] + [items[1]];
    ListQueryAppend(r, [items[0]], [items[1]], None);
    ListQueryElements(r, Str(t1), Tag(Str(t2)), Some(v), None);
    QueryTag(r, t1);
    QueryTagCode(r, t2, v);
  }

  lemma FilterTagNonEmpty(fs: seq<Field>, t: string)
    ensures FilterTag(fs, t) != [] <==> exists f :: f in fs && FieldTag(f) == t
  {
    if exists f :: f in fs && FieldTag(f) == t {
      var f :| f in fs && FieldTag(f) == t;
      assert f in FilterTag(fs, t);
    } else if FilterTag(fs, t) != [] {
      assert FilterTag(fs, t)[0] in FilterTag(fs, t);
    }
  }

  lemma SubfieldsOfNonEmpty(fs: seq<Field>, t: string, c: string)
    ensures SubfieldsOf(FilterTag(fs, t), c) != [] <==>
              exists f, s :: f in fs && FieldTag(f) == t && f.Data? && s in f.data.subfields && s.code == c
  {
    var tagged := FilterTag(fs, t);
    var subs := SubfieldsOf(tagged, c);
    SubfieldsOfMembers(tagged, c);
    if exists f, s :: f in fs && FieldTag(f) == t && f.Data? && s in f.data.subfields && s.code == c {
      var f, s :| f in fs && FieldTag(f) == t && f.Data? && s in f.data.subfields && s.code == c;
      assert f in tagged;
      assert s in FieldSubfield(f, c);
      assert s in subs;
    }
    if subs != [] {
      var s := subs[0];
      assert s in subs;
      var f :| f in tagged && s in FieldSubfield(f, c);
      assert f.Data?;
    }
  }

  /** `include?(t)` holds iff some field carries tag t. */
  lemma IncludeTag(r: Record, t: string)
    ensures Include(r, Tag(Str(t)), None) <==> exists f :: f in Fields(r) && FieldTag(f) == t
  {
    QueryTag(r, t);
    FilterTagNonEmpty(Fields(r), t);
  }

  /** `include?(t, c)` holds iff some data field carrying t has a subfield
      with code c. */
  lemma IncludeTagCode(r: Record, t: string, c: string)
    ensures Include(r, Tag(Str(t)), Some(c)) <==>
              exists f, s :: f in Fields(r) && FieldTag(f) == t && f.Data? && s in f.data.subfields && s.code == c
  {
    QueryTagCode(r, t, c);
    SubfieldsOfNonEmpty(Fields(r), t, c);
  }

  /** The head of an Array is evaluated first, then the rest. */
  lemma ListQueryCons(r: Record, item: SpecItem, rest: seq<SpecItem>, code: Option<string>)
    ensures FieldQuery(r, List([item] + rest), code) == ItemQuery(r, item, code) + FieldQuery(r, List(rest), code)
  {
    assert ([item] + rest)[1..] == rest;
  }

  lemma BareTagQuery(r: Record, t: string)
    ensures ItemQuery(r, Bare(Str(t)), None) == AsFields(FilterTag(Fields(r), t))
  {
    TaggedIsFilterOfFields(r, t);
  }

  /** The fields of `fs` tagged ts[0], then those tagged ts[1], and so on. */
  function TagsFields(fs: seq<Field>, ts: seq<string>): seq<Field>
  {
    if ts == [] then [] else FilterTag(fs, ts[0]) + TagsFields(fs, ts[1..])
  }

  /** An Array of bare tags without a code yields the fields of each tag in
      turn: tag order first, document order within a tag. */
  lemma {:induction false} BareTagsQuery(r: Record, ts: seq<string>)
    ensures FieldQuery(r, List(Bares(ts)), None) == AsFields(TagsFields(Fields(r), ts))
  {
    if ts != [] {
      ListQueryCons(r, Bare(Str(ts[0])), Bares(ts[1..]), None);
      BareTagQuery(r, ts[0]);
      BareTagsQuery(r, ts[1..]);
      AsFieldsAppend(FilterTag(Fields(r), ts[0]), TagsFields(Fields(r), ts[1..]));
    }
  }

  lemma {:induction false} TagsFieldsEmpty(fs: seq<Field>, ts: seq<string>)
    ensures TagsFields(fs, ts) == [] <==> forall f :: f in fs ==> FieldTag(f) !in ts
  {
    if ts != [] {
      TagsFieldsEmpty(fs, ts[1..]);
      FilterTagNonEmpty(fs, ts[0]);
      assert forall t :: t in ts <==> t == ts[0] || t in ts[1..];
    }
  }

  lemma {:induction false} TagsFieldsHead(fs: seq<Field>, ts: seq<string>, k: nat)
    requires k < |ts| && FilterTag(fs, ts[k]) != []
    requires forall j :: 0 <= j < k ==> FilterTag(fs, ts[j]) == []
    ensures TagsFields(fs, ts) != [] && TagsFields(fs, ts)[0] == FilterTag(fs, ts[k])[0]
  {
    if k > 0 {
      TagsFieldsHead(fs, ts[1..], k - 1);
    }
  }

  /** `mainEntry` is the first field of the main-entry query. */
  lemma MainEntryIsFirstCandidate(r: Record)
    ensures var cs := TagsFields(Fields(r), MainEntryTags);
            MainEntry(r) == if cs == [] then None else Some(F(cs[0]))
  {
    BareTagsQuery(r, MainEntryTags);
    if TagsFields(Fields(r), MainEntryTags) != [] {
      AsFieldsHead(TagsFields(Fields(r), MainEntryTags));
    }
  }

  /** `mainEntry` is nil exactly when no field is tagged 100, 110, 111 or 130. */
  lemma MainEntryAbsent(r: Record)
    ensures MainEntry(r) == None <==> forall f :: f in Fields(r) ==> FieldTag(f) !in MainEntryTags
  {
    MainEntryIsFirstCandidate(r);
    TagsFieldsEmpty(Fields(r), MainEntryTags);
  }

  /** When some field carries MainEntryTags[k] and none carries an earlier
      tag of that list, `mainEntry` is the first field (in document order)
      tagged MainEntryTags[k], wherever the other main-entry fields stand:
      a 100 field wins over a 110 field that comes before it. */
  lemma MainEntryFirst(r: Record, k: nat, i: nat)
    requires k < |MainEntryTags|
    requires i < |Fields(r)| && FieldTag(Fields(r)[i]) == MainEntryTags[k]
    requires forall j :: 0 <= j < i ==> FieldTag(Fields(r)[j]) != MainEntryTags[k]
    requires forall f :: f in Fields(r) ==> FieldTag(f) !in MainEntryTags[..k]
    ensures MainEntry(r) == Some(F(Fields(r)[i]))
  {
    var fs := Fields(r);
    MainEntryIsFirstCandidate(r);
    FilterTagFirst(fs, MainEntryTags[k], i);
    forall j | 0 <= j < k
      ensures FilterTag(fs, MainEntryTags[j]) == []
    {
      assert MainEntryTags[j] in MainEntryTags[..k];
      FilterTagNonEmpty(fs, MainEntryTags[j]);
    }
    TagsFieldsHead(fs, MainEntryTags, k);
  }
}
