# marcxella record model

A Dafny model of the record layer of `marcxella`, a Ruby library that wraps
MARC-XML bibliographic records. A record element holds:

- a leader;
- control fields (00X), each a tag and a text value;
- data fields, each a tag, two indicators and an ordered list of subfields
  (each subfield a code and a value).

The library's central operation is `Record#field(tag, code = nil)`. It takes
one tag, written as a string or an Integer, or an Array of tags. An Array
element can be a bare tag or an inner `[tag, code]` Array. The answer is a
flat list of whole fields, or of subfields when a code applies, in a defined
order. `include?` and `mainEntry` are built on top of it.

All four core classes are immutable after construction, so the model is
written in values: datatypes, functions and lemmas.

- `xml.dfy` (module `Xml`) is the view of a parsed XML element the library
  relies on: its name, attributes, text and child elements.
- `subfield.dfy`, `controlfield.dfy` and `datafield.dfy` model the three field
  classes: construction from a node, code selection, and the `to_s` and
  `display` renderings.
- `tags.dfy` models the `"%0.3d"` rendering of an Integer tag.
- `record.dfy` models:
  - the record and its leader;
  - `objectify` and `fields`;
  - the tag-specification evaluator `field`, as a recursive evaluator over the
    datatypes `TagSpec` and `SpecItem`;
  - `include?` and `mainEntry`.

  Each query is proved against a reference built from `fields`: `FilterTag`
  keeps the fields carrying a tag, in document order.
- `scenarios.dfy` builds a record from the values the library's tests name
  for the Kindred record (its leader and its 001, 020 and 245 fields) and
  proves the answers those tests expect for them. The tests give only the
  number of 650$a subfields, so the 650 field and its two values are
  placeholders. The record leaves out the other fields the real Kindred
  record has (008, a second ISBN, 651).
- `seqs.dfy` and `wrappers.dfy` are small helpers: an order-preserving
  subsequence predicate and an `Option` type.

## Model

| member | source | states |
|---|---|---|
| `SubFields.NewSubField` | lib/marcxella/subfield.rb:4-7 | the subfield's code is the node's `code` attribute (empty when absent) and its value is the node's text, unchanged |
| `SubFields.ToString` | lib/marcxella/subfield.rb:9-11 | the rendering is `$`, then exactly the code, then exactly the value, and its length is 1 + code length + value length |
| `SubFields.ToStringDeterminesSubField` | lib/marcxella/subfield.rb:9-11 | when codes have one width, two subfields with the same rendering are equal, so the rendering loses nothing |
| `ControlFields.NewControlField` | lib/marcxella/controlfield.rb:13-17 | the control field's tag is the node's `tag` attribute and its value is the node's full text |
| `ControlFields.Subfields` | lib/marcxella/controlfield.rb:12-16 | the `subfields` reader of a control field is always empty |
| `ControlFields.Subfield` | lib/marcxella/controlfield.rb:28-30 | `subfield(code)` on a control field is empty for every code |
| `ControlFields.Index` | lib/marcxella/controlfield.rb:28-34 | `[](code)` on a control field gives the same answer as `subfield(code)`: empty for every code |
| `ControlFields.ToString` | lib/marcxella/controlfield.rb:21-23 | the rendering is the tag, then exactly four spaces, then the value, with nothing else |
| `ControlFields.ToStringDeterminesControlField` | lib/marcxella/controlfield.rb:21-23 | with tags of one width, the rendering determines the control field |
| `DataFields.SubfieldNodes` | lib/marcxella/datafield.rb:8 | `css('subfield')` keeps exactly the `subfield` children, each as many times as it occurs, in document order |
| `DataFields.NewDataField` | lib/marcxella/datafield.rb:4-9 | tag and indicators come from the attributes; the i-th subfield is built from the i-th `subfield` child, one per child, in the same order |
| `DataFields.SelectCode` | lib/marcxella/datafield.rb:19-21 | `select` keeps a subfield iff its code matches; matching subfields keep their multiplicity; the result keeps the original order and is no longer than the input |
| `DataFields.Subfield` | lib/marcxella/datafield.rb:19-21 | `subfield(code)` holds exactly the subfields with that code, with their multiplicities, in field order; it is empty iff no subfield has that code |
| `DataFields.ValuesAppend` | lib/marcxella/datafield.rb:11-13 | joining the values of two lists of subfields gives the two joins one after the other |
| `DataFields.ValuesSplit` | lib/marcxella/datafield.rb:11-13 | each subfield value sits in the join between the values before it and the values after it |
| `DataFields.Display` | lib/marcxella/datafield.rb:11-13 | `display` is as long as all the values together; every subfield's value sits between the values that precede it and those that follow it, with no separator |
| `DataFields.IndToString` | lib/marcxella/datafield.rb:23-29 | a blank indicator is shown as `#` and any other indicator as itself, so the result is never a blank |
| `DataFields.IndToStringIdempotent` | lib/marcxella/datafield.rb:23-29 | applying `ind_to_s` to its own result changes nothing |
| `DataFields.Rendered` | lib/marcxella/datafield.rb:16 | `@subfields.join('')` has one `$`, one code and one value per subfield, and starts with `$` when there is a subfield |
| `DataFields.RenderedAppend` | lib/marcxella/datafield.rb:16 | the rendering of two lists of subfields is the two renderings one after the other |
| `DataFields.RenderedSplit` | lib/marcxella/datafield.rb:16 | each subfield's `$<code><value>` sits in the join between the renderings of the subfields before it and after it |
| `DataFields.ToString` | lib/marcxella/datafield.rb:15-17 | the rendering is the tag, two spaces, the two shown indicators, then the joined subfield renderings |
| `DataFields.IndicatorPositions` | lib/marcxella/datafield.rb:15-29 | with one-character indicators, the two characters after tag and spaces are the indicators, `#` for a blank, and never a space |
| `Tags.Decimal` | lib/marcxella/record.rb:74-76 | the decimal numeral of a natural number: digits only, denotes the number, has no leading zero, and has at most three digits below 1000 |
| `Tags.Pad3` | lib/marcxella/record.rb:74-76 | `"%0.3d"` of a non-negative n is at least three digits denoting n, exactly three below 1000, and the plain numeral of n from 100 up; of a negative n it is `-` followed by at least three digits denoting -n, four characters in all above -1000, and `-` with the plain numeral of -n from -100 down |
| `Tags.ZerosAddNothing` | lib/marcxella/record.rb:74-76 | left zero padding does not change the number a numeral denotes |
| `Tags.Pad3Injective` | lib/marcxella/record.rb:74-76 | distinct Integer tags render to distinct tag strings |
| `Tags.OctalLiteralGotcha` | lib/marcxella/record.rb:15-20 | the integer 8 (Ruby's `010`) renders as `"008"`, and 10 renders as `"010"` |
| `Records.FieldSubfield` | lib/marcxella/record.rb:84 | `f.subfield(code)` on a control field is empty; on a data field it is exactly that data field's `subfield(code)` |
| `Records.Objectify` | lib/marcxella/record.rb:104-112 | a node becomes a control field iff its name is `controlfield`, otherwise a data field; the field carries the node's tag and is built by that class's constructor |
| `Records.Objectified` | lib/marcxella/record.rb:81 | mapping `objectify` keeps the length and converts each node in place |
| `Records.FieldNodes` | lib/marcxella/record.rb:90 | `css('controlfield, datafield')` keeps exactly the field children, each as many times as it occurs, in document order |
| `Records.TaggedNodes` | lib/marcxella/record.rb:79-80 | the tag selector keeps exactly the field children whose `tag` attribute is the tag, each as many times as it occurs, in document order |
| `Records.NewRecord` | lib/marcxella/record.rb:9-12 | the record keeps its node, and its leader is the text of the node's leader children |
| `Records.LeaderText` | lib/marcxella/record.rb:11 | `css('leader').text` joins the texts of the leader children; its meaning is stated by `Records.LeaderOfOneElement` and `Records.LeaderAbsent` |
| `Records.LeaderOfOneElement` | lib/marcxella/record.rb:11 | with exactly one leader child, the leader is that child's text |
| `Records.LeaderAbsent` | lib/marcxella/record.rb:11 | without a leader child, the leader is the empty string |
| `Records.Fields` | lib/marcxella/record.rb:89-91 | `fields` has one field per field child, in document order: the i-th field is the i-th field element objectified, a control field iff that element is a `controlfield`, carrying its tag |
| `Records.FilterTag` | lib/marcxella/record.rb:78-82 | the reference lookup holds exactly the fields carrying the tag, each as many times as it occurs, in their original order |
| `Records.FilterTagFirst` | lib/marcxella/record.rb:78-82 | the first field carrying the tag heads the lookup |
| `Records.Tagged` | lib/marcxella/record.rb:78-82 | `field(t)` for one tag string objectifies the selected elements; `Records.TaggedIsFilterOfFields` states that this is exactly `fields` filtered by tag t, in document order |
| `Records.TaggedNodesObjectified` | lib/marcxella/record.rb:78-91 | selecting by tag and then objectifying equals objectifying all fields and then filtering by tag |
| `Records.TaggedIsFilterOfFields` | lib/marcxella/record.rb:78-91 | the fields `field(t)` finds are exactly `fields` filtered by tag t, in document order |
| `Records.SubfieldsOf` | lib/marcxella/record.rb:84 | every subfield in the flattened projection carries the requested code, and the projection of control fields alone is empty |
| `Records.SubfieldsOfMembers` | lib/marcxella/record.rb:84 | a subfield is in the flattened projection iff one of the fields yields it |
| `Records.AsFieldsAppend` | lib/marcxella/record.rb:71 | whole fields as result items distribute over concatenation |
| `Records.Normalize` | lib/marcxella/record.rb:74-76 | a string tag is used unchanged; an Integer tag n >= 0 becomes at least three digits denoting n, exactly three below 1000, the plain numeral from 100 up; a negative one becomes `-` and at least three digits denoting -n, four characters in all above -1000, `-` and the plain numeral of -n from -100 down |
| `Records.Resolve` | lib/marcxella/record.rb:74-84 | `field(t, code)` for one tag: fields without a code, subfields with one; `Records.ResolveElements`, `Records.QueryTag` and `Records.QueryTagCode` state what it holds |
| `Records.ResolveElements` | lib/marcxella/record.rb:74-84 | a single tag with no code yields only fields of the record that carry the tag; with a code it yields only subfields with that code |
| `Records.FieldQuery` | lib/marcxella/record.rb:63-85 | `field(tag, code)` over the whole tag argument; its meaning is stated by `Records.QueryTag`, `Records.QueryIntTag`, `Records.QueryTagCode`, `Records.ListQueryElements` and `Records.MixedQuery` |
| `Records.ListQuery` | lib/marcxella/record.rb:64-72 | the mapped and flattened Array case; `Records.ListQueryAppend`, `Records.ListQueryCons`, `Records.ListQuerySingle` and `Records.BareTagsQuery` state its order |
| `Records.ItemQuery` | lib/marcxella/record.rb:64-72 | one Array element, resolved with the caller's code when bare and with its own code when an inner Array; stated by `Records.ListQueryElements` and `Records.BareTagQuery` |
| `Records.QueryTag` | lib/marcxella/record.rb:78-82 | `field(t)` for a string tag is exactly the fields of `fields` tagged t, in document order |
| `Records.QueryIntTag` | lib/marcxella/record.rb:74-76 | an Integer tag queries the tag its `"%0.3d"` rendering names; below 1000 that is a three-character tag |
| `Records.QueryTagCode` | lib/marcxella/record.rb:84 | `field(t, code)` is the subfields with that code of the fields tagged t, concatenated in field order |
| `Records.QueryControlOnly` | lib/marcxella/record.rb:84 | asking for subfields of a tag that only control fields carry gives an empty result |
| `Records.ListQueryAppend` | lib/marcxella/record.rb:64-72 | an Array query over two lists of items is the first list's answer followed by the second's |
| `Records.ListQueryElements` | lib/marcxella/record.rb:64-72 | the empty Array finds nothing; a bare element uses the caller's code; an inner pair uses its own code, even nil, and ignores the caller's |
| `Records.MixedQuery` | lib/marcxella/record.rb:53-55 | `field([t1, [t2, v]])` is the fields tagged t1, followed by the `$v` subfields of the fields tagged t2 |
| `Records.ListQuerySingle` | lib/marcxella/record.rb:64-72 | a one-element Array answers exactly what its element answers |
| `Records.ListQueryCons` | lib/marcxella/record.rb:64-72 | the head of an Array is evaluated first, then the rest |
| `Records.BareTagQuery` | lib/marcxella/record.rb:69 | a bare string element with no code yields the fields of `fields` carrying the tag |
| `Records.BareTagsQuery` | lib/marcxella/record.rb:64-72 | an Array of bare tags yields the fields of each tag in turn: tag order first, then document order within a tag |
| `Records.FilterTagNonEmpty` | lib/marcxella/record.rb:96-98 | the lookup by tag is non-empty iff some field carries the tag |
| `Records.SubfieldsOfNonEmpty` | lib/marcxella/record.rb:96-98 | the subfield projection of a tag is non-empty iff some data field with that tag has a subfield with that code |
| `Records.Include` | lib/marcxella/record.rb:96-98 | `include?` holds iff the query is non-empty; `Records.IncludeTag` and `Records.IncludeTagCode` state it in terms of the fields |
| `Records.IncludeTag` | lib/marcxella/record.rb:96-98 | `include?(t)` holds iff some field carries tag t |
| `Records.IncludeTagCode` | lib/marcxella/record.rb:96-98 | `include?(t, c)` holds iff some data field carrying t has a subfield with code c |
| `Records.TagsFieldsEmpty` | lib/marcxella/record.rb:100-102 | the fields of a tag list are empty iff no field carries a tag of the list |
| `Records.TagsFieldsHead` | lib/marcxella/record.rb:100-102 | when the first tag of the list that any field carries is the k-th, the first candidate is the first field with that tag |
| `Records.MainEntry` | lib/marcxella/record.rb:100-102 | the first element of the query for 100, 110, 111 and 130, or nil; stated by `Records.MainEntryIsFirstCandidate`, `Records.MainEntryAbsent` and `Records.MainEntryFirst` |
| `Records.MainEntryIsFirstCandidate` | lib/marcxella/record.rb:100-102 | `mainEntry` is the first field of the 100, 110, 111 and 130 candidates taken in that tag order, or nil when there are none |
| `Records.MainEntryAbsent` | lib/marcxella/record.rb:100-102 | `mainEntry` is nil exactly when no field carries 100, 110, 111 or 130 |
| `Records.MainEntryFirst` | lib/marcxella/record.rb:100-102 | `mainEntry` is the first field with the earliest main-entry tag in the list that any field carries, wherever the other main-entry fields stand |
| `Scenarios.KindredLeader` | spec/marcxella_spec.rb:113-115 | the Kindred record's leader is `00000cam a2200000Mi 4500` |
| `Scenarios.KindredControlField` | spec/marcxella_spec.rb:123-126 | `field("001")` of Kindred is the single control field 001 with value `1027474578` |
| `Scenarios.ControlFieldRendering` | spec/marcxella_spec.rb:351-355 | control field 001 renders as `001    1027474578` |
| `Scenarios.TitleRendering` | spec/marcxella_spec.rb:403-406 | the 245 field renders as `245  10$aKindred /$cOctavia E. Butler.` |
| `Scenarios.BlankIndicatorRendering` | spec/marcxella_spec.rb:408-410 | the 020 field with blank indicators renders as `020  ##$a9781472214812` |
| `Scenarios.SubFieldRendering` | spec/marcxella_spec.rb:437-441 | subfield a `Kindred /` renders as `$aKindred /` |
| `Scenarios.TitleDisplay` | lib/marcxella/datafield.rb:11-13 | `display` of the 245 field is `Kindred /Octavia E. Butler.` |
| `Scenarios.KindredTitleSubfield` | spec/marcxella_spec.rb:394-400 | `field("245", "a")` of Kindred is non-empty and starts with subfield a `Kindred /` |
| `Scenarios.KindredItem650a` | spec/marcxella_spec.rb:143-148 | on this record, `field([["650", "a"]])` yields its two 650$a subfields in order, the count the tests expect |
| `Scenarios.KindredMixedQuery` | lib/marcxella/record.rb:53-55 | `field(["001", "245", ["650", "a"]])` of Kindred is a control field, a data field, then the two 650$a subfields |
| `Scenarios.MainEntryPrefers100` | spec/marcxella_spec.rb:164-172 | when a 110 field comes before a 100 field, `mainEntry` is still the 100 field |

## Left out

- `Document` and `Collection` (lib/marcxella/document.rb, lib/marcxella/collection.rb) are thin wrappers that find record elements in a document. They are not part of this model.
- XML parsing and the CSS selector engine belong to the XML library. A selection such as `css('subfield')` or `controlfield[tag="245"], datafield[tag="245"]` is modelled as a filter over the element's direct children, in document order. That is how MARC-XML nests records, fields and subfields; the model does not capture deeper descendants.
- An absent attribute is `nil` in Ruby; here it reads as the empty string. Renderings agree, because `"%s"` shows `nil` as nothing. Two lookups differ:
  - `subfield("")` (lib/marcxella/datafield.rb:20) selects a subfield element without a `code` attribute here, while in Ruby its code is `nil` and is not equal to `""`.
  - `field("")` selects a field element without a `tag` attribute here, while the CSS selector `[tag=""]` on lib/marcxella/record.rb:80 matches only an element whose `tag` attribute is present and empty.
- Strings are sequences of characters. The model does not capture encodings or Unicode details of the XML text.
- The `field` argument is modelled as a string or an Integer, or an Array of such tags and inner Arrays. An inner Array is modelled by its first element and its optional second element. Other kinds of tag are not modelled. This covers an empty inner Array, which Ruby would look up as `field(nil, nil)`, and objects of other classes, which Ruby would format with `%s`. A subfield code is modelled as a string or nil only. A code of another class, as in `field("650", 5)` or an inner `["650", ["a"]]`, is not modelled; Ruby returns `[]` for it, because `s.code == code` (lib/marcxella/datafield.rb:20) never holds.
- A tag containing a double quote would change the CSS selector built on lib/marcxella/record.rb:80. The model treats every tag as a literal attribute value.
- The `raise "Wha?"` on lib/marcxella/record.rb:111 can never run, because both branches of the `if` return. It is not modelled.
- Records.SubfieldsOf: its own contract states codes and the control-field case. Which subfields it holds is stated separately, by `Records.SubfieldsOfMembers` and `Records.SubfieldsOfNonEmpty`.
- Records.AsFields: states only the length. The contents of the result are fixed by `Records.AsFieldsHead` (the first item wraps the first field) together with `Records.AsFieldsAppend`, and `Records.AsFieldsMembers` states that every item wraps a field of the input.
- Records.Include: it has no contract of its own. `Records.IncludeTag` and `Records.IncludeTagCode` state both directions for a single tag, with and without a code; for an Array tag only the definition (the query is non-empty) applies.
- The test suite calls accessors that lib/marcxella/record.rb does not define: `subfield`, `titleStatement`, `controlFields`, `codes`, `titles`, `subjects`, `lccn`, `isbns`, `issns` and other tag-range accessors. It also calls `value` on a data field, which defines `display` instead. The model follows the code, so these accessors are not modelled, and the expected `value` of the 245 field is stated for `display` (`Scenarios.TitleDisplay`).
- `mainEntry` (lib/marcxella/record.rb:100-102) evaluates `field(["100", "110", "111", "130"]).first`. The tags are taken in that list order, so a 100 field wins over an earlier 110 field; the model does the same.
