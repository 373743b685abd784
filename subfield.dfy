/** lib/marcxella/subfield.rb: a subfield is an immutable code and value. */
module SubFields {
  import opened Xml

  datatype SubField = SubField(code: string, value: string)

  /** `SubField.new(node)`: the code attribute and the text, unchanged. */
  function NewSubField(n: Node): (s: SubField)
    ensures s.code == Attr(n, "code") && s.value == n.text
  {
    SubField(Attr(n, "code"), n.text)
  }

  /** `to_s`, the `"$%s%s"` rendering: a dollar sign, the code, the value. */
  function ToString(s: SubField): (r: string)
    ensures |r| == 1 + |s.code| + |s.value|
    ensures r[0] == '$'
    ensures r[1..1 + |s.code|] == s.code && r[1 + |s.code|..] == s.value
  {
    "$" + s.code + s.value
  }

  /** With codes of one width (MARC codes are single characters) the
      rendering is unambiguous: it determines the subfield. */
  lemma ToStringDeterminesSubField(a: SubField, b: SubField)
    requires |a.code| == |b.code| && ToString(a) == ToString(b)
    ensures a == b
  {
    assert a.code == ToString(a)[1..1 + |a.code|];
    assert a.value == ToString(a)[1 + |a.code|..];
  }
}
