/** Pure helpers of the `Save_*` methods: the `.shp` suffix rule, attribute
    field names, and the split of the vector drainage network at its `-999`
    sentinel columns. The GDAL/OGR writing around them is not modelled. */
module ShapeNames {
  import opened Common

  predicate EndsWith(s: string, suffix: string)
  {
    |suffix| <= |s| && s[|s| - |suffix|..] == suffix
  }

  /** `if ruta.endswith('.shp') == False: ruta = ruta + '.shp'`. */
  function WithShp(ruta: string): (r: string)
    ensures EndsWith(r, ".shp")
    ensures |ruta| <= |r| && r[..|ruta|] == ruta
    ensures r == ruta <==> EndsWith(ruta, ".shp")
    ensures r != ruta ==> |r| == |ruta| + 4
  {
    if EndsWith(ruta, ".shp") then ruta else ruta + ".shp"
  }

  /** Applying the suffix rule twice is the same as once. */
  lemma WithShpIdempotent(ruta: string)
    ensures WithShp(WithShp(ruta)) == WithShp(ruta)
  {
  }

  /** `s[:n]`. */
  function Truncate(s: string, n: nat): (r: string)
    ensures |r| <= n && |r| <= |s|
    ensures |r| == n || |r| == |s|
    ensures r == s[..|r|]
  {
    if |s| <= n then s else s[..n]
  }

  /** The whitespace set of Python 2's `str.strip()`. */
  predicate IsSpace(c: char)
  {
    c == ' ' || c == '\t' || c == '\n' || c == '\r' || c == 11 as char || c == 12 as char
  }

  /** Number of leading whitespace characters. */
  function LeadingSpaces(s: string): (n: nat)
    ensures n <= |s|
    ensures forall i :: 0 <= i < n ==> IsSpace(s[i])
    ensures n == |s| || !IsSpace(s[n])
  {
    if s == [] || !IsSpace(s[0]) then 0 else 1 + LeadingSpaces(s[1..])
  }

  /** Number of trailing whitespace characters. */
  function TrailingSpaces(s: string): (n: nat)
    ensures n <= |s|
    ensures forall i :: |s| - n <= i < |s| ==> IsSpace(s[i])
    ensures n == |s| || !IsSpace(s[|s| - 1 - n])
  {
    if s == [] || !IsSpace(s[|s| - 1]) then 0 else 1 + TrailingSpaces(s[..|s| - 1])
  }

  /** `r` is `s` less `a` leading and some trailing whitespace characters. */
  predicate StrippedAt(s: string, r: string, a: nat)
  {
    a + |r| <= |s| && r == s[a..a + |r|]
    && (forall i :: 0 <= i < a ==> IsSpace(s[i]))
    && (forall i :: a + |r| <= i < |s| ==> IsSpace(s[i]))
  }

  /** `str.strip()`: the part of `s` between its leading and trailing
      whitespace; it neither starts nor ends with whitespace. */
  function Strip(s: string): (r: string)
    ensures StrippedAt(s, r, LeadingSpaces(s))
    ensures r == [] || (!IsSpace(r[0]) && !IsSpace(r[|r| - 1]))
  {
    var a := LeadingSpaces(s);
    if a == |s| then [] else s[a..|s| - TrailingSpaces(s)]
  }

  /** A string that neither starts nor ends with whitespace is its own strip. */
  lemma StripUnpadded(s: string)
    requires s == [] || (!IsSpace(s[0]) && !IsSpace(s[|s| - 1]))
    ensures Strip(s) == s
  {
    if s != [] {
      assert LeadingSpaces(s) == 0;
      assert TrailingSpaces(s) == 0;
      assert s[0..|s|] == s;
    }
  }

  /** Stripping twice is the same as once. */
  lemma StripIdempotent(s: string)
    ensures Strip(Strip(s)) == Strip(s)
  {
    StripUnpadded(Strip(s));
  }

  /** `s.index(c)`; `None` when `c` does not occur (Python raises). */
  function IndexOf(s: string, c: char): (r: Option<nat>)
    ensures r.None? <==> c !in s
    ensures r.Some? ==> r.value < |s| && s[r.value] == c && c !in s[..r.value]
  {
    if s == [] then None
    else if s[0] == c then Some(0)
    else match IndexOf(s[1..], c)
      case None => None
      case Some(i) => assert s[1..][..i] == s[1..i + 1]; Some(i + 1)
  }

  /** Attribute name of a basin parameter in `Save_Basin2Map`:
      `p[:p.index('[')].strip()[:10]`. A key without `[` raises. */
  function FieldName(p: string): (r: Option<string>)
    ensures r.Some? <==> '[' in p
    ensures r.Some? ==> |r.value| <= 10 && '[' !in r.value
    ensures r.Some? ==> r.value == [] || !IsSpace(r.value[0])
    ensures r.Some? ==>
      (exists i :: 0 <= i < |p| && p[i] == '[' && '[' !in p[..i] && r.value == Truncate(Strip(p[..i]), 10))
  {
    match IndexOf(p, '[')
    case None => None
    case Some(i) => Some(Truncate(Strip(p[..i]), 10))
  }

  /** `index` finds the first occurrence. */
  lemma {:induction false} IndexOfFirst(s: string, c: char, i: nat)
    requires i < |s| && s[i] == c && c !in s[..i]
    ensures IndexOf(s, c) == Some(i)
  {
    if i > 0 {
      assert s[0] == s[..i][0];
      assert s[1..][..i - 1] == s[1..i];
      IndexOfFirst(s[1..], c, i - 1);
    }
  }

  /** The name is taken from the text before the first bracket. */
  lemma FieldNameAt(p: string, i: nat)
    requires i < |p| && p[i] == '[' && '[' !in p[..i]
    ensures FieldName(p) == Some(Truncate(Strip(p[..i]), 10))
  {
    IndexOfFirst(p, '[', i);
  }

  /** A key such as `Area[km2]`: a name of at most ten characters that
      neither starts nor ends with whitespace, then the bracketed unit, is
      written under that name. */
  lemma FieldNameOfKey(name: string, unit: string)
    requires 0 < |name| <= 10 && '[' !in name
    requires !IsSpace(name[0]) && !IsSpace(name[|name| - 1])
    ensures FieldName(name + "[" + unit) == Some(name)
  {
    var p := name + "[" + unit;
    assert p[..|name|] == name;
    FieldNameAt(p, |name|);
    StripUnpadded(name);
  }

  /** A longer name is cut to the ten characters a DBF field name allows. */
  lemma FieldNameTruncated(name: string, unit: string)
    requires 10 < |name| && '[' !in name
    requires !IsSpace(name[0]) && !IsSpace(name[|name| - 1])
    ensures FieldName(name + "[" + unit) == Some(name[..10])
  {
    var p := name + "[" + unit;
    assert p[..|name|] == name;
    FieldNameAt(p, |name|);
    StripUnpadded(name);
  }
}
