/**
 * The string primitives the assertions rely on: `string.IsNullOrWhiteSpace`
 * and the case-insensitive string comparison behind `ValueCompare`.
 */
module Text {
  import opened Wrappers

  /** `char.IsWhiteSpace`: U+0009..U+000D, U+0085 and the Unicode separators (Zs, Zl, Zp). */
  predicate IsWhiteSpace(c: char) {
    var n := c as int;
    (0x09 <= n <= 0x0D) || n == 0x20 || n == 0x85 || n == 0xA0 || n == 0x1680
    || (0x2000 <= n <= 0x200A) || n == 0x2028 || n == 0x2029 || n == 0x202F
    || n == 0x205F || n == 0x3000
  }

  /** `string.IsNullOrWhiteSpace`: null, empty, or made only of white space. */
  predicate IsNullOrWhiteSpace(s: Option<string>) {
    s.None? || forall i | 0 <= i < |s.value| :: IsWhiteSpace(s.value[i])
  }

  /** Case folding of one character (ASCII letters only). */
  function FoldChar(c: char): (r: char)
    ensures 'A' <= c <= 'Z' ==> 'a' <= r <= 'z' && r as int == c as int + 32
    ensures !('A' <= c <= 'Z') ==> r == c
  {
    if 'A' <= c <= 'Z' then (c as int + 32) as char else c
  }

  /** The case-folded form of a string: the reference notion of "equal ignoring case". */
  function Fold(s: string): (r: string)
    ensures |r| == |s|
    ensures forall i | 0 <= i < |s| :: r[i] == FoldChar(s[i])
  {
    seq(|s|, i requires 0 <= i < |s| => FoldChar(s[i]))
  }

  /**
   * `StringComparer.InvariantCultureIgnoreCase.Compare`: a three-way,
   * character-by-character comparison of the folded strings.
   */
  function CompareIgnoreCase(s: string, t: string): (r: int)
    ensures -1 <= r <= 1
  {
    if s == [] then (if t == [] then 0 else -1)
    else if t == [] then 1
    else if FoldChar(s[0]) < FoldChar(t[0]) then -1
    else if FoldChar(t[0]) < FoldChar(s[0]) then 1
    else CompareIgnoreCase(s[1..], t[1..])
  }

  /** The comparison reports "equal" exactly when the folded strings coincide. */
  lemma {:induction false} CompareIgnoreCaseZero(s: string, t: string)
    ensures CompareIgnoreCase(s, t) == 0 <==> Fold(s) == Fold(t)
  {
    if s != [] && t != [] {
      CompareIgnoreCaseZero(s[1..], t[1..]);
      assert Fold(s) == [FoldChar(s[0])] + Fold(s[1..]);
      assert Fold(t) == [FoldChar(t[0])] + Fold(t[1..]);
    } else if s != [] {
      assert |Fold(s)| != |Fold(t)|;
    } else if t != [] {
      assert |Fold(s)| != |Fold(t)|;
    }
  }

  /** Folding never turns white space into non-white space or back. */
  lemma FoldPreservesBlank(s: Option<string>, t: Option<string>)
    requires s.Some? <==> t.Some?
    requires s.Some? ==> Fold(s.value) == Fold(t.value)
    ensures IsNullOrWhiteSpace(s) <==> IsNullOrWhiteSpace(t)
  {
    if s.Some? {
      assert |s.value| == |t.value|;
      forall i | 0 <= i < |s.value|
        ensures IsWhiteSpace(s.value[i]) <==> IsWhiteSpace(t.value[i])
      {
        assert FoldChar(s.value[i]) == Fold(s.value)[i] == Fold(t.value)[i] == FoldChar(t.value[i]);
      }
    }
  }
}
