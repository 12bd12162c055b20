/** Small shared vocabulary: optional values, Go string maps and Go's substring test. */
module Common {

  /** Go's nil-or-value: `None` stands for a nil pointer or a nil map. */
  datatype Option<+T> = None | Some(value: T)

  /** A Go `map[string]string`. */
  type StringMap = map<string, string>

  /** `sub` occurs in `s` at position `i`. */
  predicate OccursAt(s: string, sub: string, i: int)
  {
    0 <= i && i + |sub| <= |s| && s[i..i + |sub|] == sub
  }

  /** Go's `strings.Contains(s, sub)`: the empty string occurs in every string. */
  predicate Contains(s: string, sub: string)
  {
    exists i | 0 <= i <= |s| - |sub| :: OccursAt(s, sub, i)
  }

  /** A string contains each of its prefixes. */
  lemma ContainsPrefix(p: string, rest: string)
    ensures Contains(p + rest, p)
  {
    assert OccursAt(p + rest, p, 0) by {
      assert (p + rest)[0..|p|] == p;
    }
  }

  /** A string contains each of its suffixes. */
  lemma ContainsSuffix(rest: string, p: string)
    ensures Contains(rest + p, p)
  {
    var s := rest + p;
    assert OccursAt(s, p, |rest|) by {
      assert s[|rest|..|rest| + |p|] == p;
    }
  }

  /** A string cannot contain anything longer than itself. */
  lemma ContainsNoLonger(s: string, sub: string)
    requires Contains(s, sub)
    ensures |sub| <= |s|
  {
  }

  /** Go's read `m[k]` of a possibly nil map: the zero value "" when the key is absent. */
  function Lookup(m: Option<StringMap>, k: string): (v: string)
    ensures m.Some? && k in m.value ==> v == m.value[k]
    ensures (m.None? || k !in m.value) ==> v == ""
  {
    if m.Some? && k in m.value then m.value[k] else ""
  }

  /** Ranging over a possibly nil Go map: a nil map has no entries. */
  function Entries(m: Option<StringMap>): (r: StringMap)
    ensures m.None? ==> r == map[]
    ensures m.Some? ==> r == m.value
  {
    if m.Some? then m.value else map[]
  }
}
