/** JavaScript strings: sequences of UTF-16 code units, lone surrogates included. */
module Text {
  type Unit = x: int | 0 <= x < 0x10000
  type Text = seq<Unit>

  /** An ASCII literal as code units. */
  function A(s: string): (t: Text)
    ensures |t| == |s|
    ensures forall i | 0 <= i < |s| && s[i] <= '~' :: t[i] == s[i] as int
  {
    seq(|s|, i requires 0 <= i < |s| => if s[i] <= '~' then s[i] as int else 0)
  }

  predicate IsHigh(c: Unit) { 0xd800 <= c <= 0xdbff }

  predicate IsLow(c: Unit) { 0xdc00 <= c <= 0xdfff }

  // The string starts with a well-formed surrogate pair.
  predicate StartsWithPair(s: Text) {
    |s| >= 2 && IsHigh(s[0]) && IsLow(s[1])
  }
}
