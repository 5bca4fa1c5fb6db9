/** `string.IsNullOrWhiteSpace` and the `char.IsWhiteSpace` table it relies on. */
module Text {
  import opened Wrappers

  /** `char.IsWhiteSpace`: the Unicode space, line and paragraph separators,
      the control characters U+0009..U+000D and U+0085. */
  predicate IsWhiteSpace(c: char): (r: bool)
    ensures c as int < 0x80 ==> (r <==> c == ' ' || '\t' <= c <= '\r')
    ensures r ==> c as int <= 0x3000
  {
    var n := c as int;
    (0x09 <= n <= 0x0D) || n == 0x20 || n == 0x85 || n == 0xA0 || n == 0x1680
    || (0x2000 <= n <= 0x200A) || n == 0x2028 || n == 0x2029 || n == 0x202F
    || n == 0x205F || n == 0x3000
  }

  /** True when every character of `s` is white space (vacuously for ""). */
  function AllWhiteSpace(s: string): (r: bool)
    ensures r <==> forall i :: 0 <= i < |s| ==> IsWhiteSpace(s[i])
  {
    |s| == 0 || (IsWhiteSpace(s[0]) && AllWhiteSpace(s[1..]))
  }

  /** `string.IsNullOrWhiteSpace`: null, empty, or made only of white space. */
  function IsNullOrWhiteSpace(s: Option<string>): (r: bool)
    ensures r <==> (s.None? || forall i :: 0 <= i < |s.value| ==> IsWhiteSpace(s.value[i]))
    ensures s.Some? && s.value == "" ==> r
  {
    match s
    case None => true
    case Some(t) => AllWhiteSpace(t)
  }
}
