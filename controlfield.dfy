/** lib/marcxella/controlfield.rb: a control field (00X) has a tag and a value
    and never any subfields. */
module ControlFields {
  import opened Xml
  import opened SubFields

  datatype ControlField = ControlField(tag: string, value: string)

  /** `ControlField.new(node)`: the tag attribute and the text, unchanged. */
  function NewControlField(n: Node): (c: ControlField)
    ensures c.tag == Attr(n, "tag") && c.value == n.text
  {
    ControlField(Attr(n, "tag"), n.text)
  }

  /** The `subfields` reader: always the empty array. */
  function Subfields(c: ControlField): (r: seq<SubField>)
    ensures r == []
  {
    []
  }

  /** `subfield(code)`: empty whatever the code, so that control fields
      answer subfield queries like data fields. */
  function Subfield(c: ControlField, code: string): (r: seq<SubField>)
    ensures r == []
  {
    []
  }

  /** `self[code]`: the same answer as `subfield(code)`, empty whatever the code. */
  function Index(c: ControlField, code: string): (r: seq<SubField>)
    ensures r == [] && r == Subfield(c, code)
  {
    Subfield(c, code)
  }

  /** `to_s`, the `"%s    %s"` rendering: the tag, four spaces, the value. */
  function ToString(c: ControlField): (r: string)
    ensures |r| == |c.tag| + 4 + |c.value|
    ensures r[..|c.tag|] == c.tag
    ensures r[|c.tag|..|c.tag| + 4] == "    "
    ensures r[|c.tag| + 4..] == c.value
  {
    c.tag + "    " + c.value
  }

  /** With three-character tags the rendering splits back into the field. */
  lemma ToStringDeterminesControlField(a: ControlField, b: ControlField)
    requires |a.tag| == |b.tag| && ToString(a) == ToString(b)
    ensures a == b
  {
    assert a.tag == ToString(a)[..|a.tag|];
    assert a.value == ToString(a)[|a.tag| + 4..];
  }
}
