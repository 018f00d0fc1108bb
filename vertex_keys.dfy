/** Vertex ids become dictionary keys through `str(vid)`: their decimal spelling. */
module VertexKeys {

  function DigitChar(d: nat): char
    requires d < 10
  {
    "0123456789"[d]
  }

  function DigitValue(c: char): nat
  {
    if '0' <= c <= '9' then (c as int - '0' as int) as nat else 0
  }

  /** str(vid) for a vertex index: its decimal digits, most significant first. */
  function VertexKey(v: nat): (s: string)
    ensures |s| > 0 && (|s| > 1 ==> s[0] != '0')
    decreases v
  {
    if v < 10 then [DigitChar(v)] else VertexKey(v / 10) + [DigitChar(v % 10)]
  }

  /** Reads a string of decimal digits back as a number (the inverse of VertexKey). */
  function ParseKey(s: string): nat
  {
    if s == [] then 0 else ParseKey(s[..|s| - 1]) * 10 + DigitValue(s[|s| - 1])
  }

  /** A vertex key is made of decimal digits only. */
  lemma {:induction false} KeyIsDecimal(v: nat)
    ensures forall i :: 0 <= i < |VertexKey(v)| ==> '0' <= VertexKey(v)[i] <= '9'
    decreases v
  {
    if v >= 10 {
      KeyIsDecimal(v / 10);
    }
  }

  /** Reading a vertex key back gives the vertex index. */
  lemma {:induction false} KeyRoundTrip(v: nat)
    ensures ParseKey(VertexKey(v)) == v
    decreases v
  {
    if v < 10 {
      assert VertexKey(v)[..0] == [];
    } else {
      var s := VertexKey(v);
      assert s[..|s| - 1] == VertexKey(v / 10);
      KeyRoundTrip(v / 10);
    }
  }

  /** Distinct vertices get distinct keys, so `str` never merges two vertices' lists. */
  lemma KeyInjective(u: nat, v: nat)
    ensures VertexKey(u) == VertexKey(v) ==> u == v
  {
    KeyRoundTrip(u);
    KeyRoundTrip(v);
  }
}
