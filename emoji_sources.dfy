/** Twemoji file names (r4ilpy/emoji_sources.py): every code point of an
    emoji except VARIATION SELECTOR-16, written in lower-case hexadecimal,
    joined by "-" and followed by ".png". */
module EmojiSources {
  import opened Wrappers
  import opened Text
  import opened Lists

  /** U+FE0F, the only character named "VARIATION SELECTOR-16". */
  const VariationSelector16: char := '\U{FE0F}'

  predicate IsLowerHexDigit(c: char)
  {
    '0' <= c <= '9' || 'a' <= c <= 'f'
  }

  function HexDigit(d: nat): (c: char)
    requires d < 16
    ensures IsLowerHexDigit(c)
  {
    if d < 10 then ('0' as int + d) as char else ('a' as int + d - 10) as char
  }

  function HexDigitValue(c: char): (d: nat)
    requires IsLowerHexDigit(c)
    ensures d < 16
  {
    if c <= '9' then c as int - '0' as int else c as int - 'a' as int + 10
  }

  /** `f"{n:x}"`: lower-case hexadecimal without leading zeros, "0" for zero. */
  function LowerHex(n: nat): (s: string)
    ensures |s| >= 1
    ensures forall i :: 0 <= i < |s| ==> IsLowerHexDigit(s[i])
  {
    if n < 16 then [HexDigit(n)] else LowerHex(n / 16) + [HexDigit(n % 16)]
  }

  /** `int(s, 16)` on lower-case hexadecimal digits. */
  function ParseHex(s: string): nat
    requires forall i :: 0 <= i < |s| ==> IsLowerHexDigit(s[i])
  {
    if s == [] then 0 else ParseHex(s[..|s| - 1]) * 16 + HexDigitValue(s[|s| - 1])
  }

  /** Reading a hexadecimal component back gives the code point. */
  lemma {:induction false} LowerHexRoundTrip(n: nat)
    ensures ParseHex(LowerHex(n)) == n
  {
    if n < 16 {
      var s := LowerHex(n);
      assert s[..0] == [];
    } else {
      LowerHexRoundTrip(n / 16);
      var s := LowerHex(n);
      assert s[..|s| - 1] == LowerHex(n / 16);
    }
  }

  /** Only zero is written with a leading '0'. */
  lemma {:induction false} LowerHexNoLeadingZero(n: nat)
    ensures LowerHex(n)[0] == '0' <==> n == 0
  {
    if n >= 16 {
      LowerHexNoLeadingZero(n / 16);
    }
  }

  /** Different code points get different components. */
  lemma LowerHexInjective(m: nat, n: nat)
    requires LowerHex(m) == LowerHex(n)
    ensures m == n
  {
    LowerHexRoundTrip(m);
    LowerHexRoundTrip(n);
  }

  predicate Kept(c: char)
  {
    c != VariationSelector16
  }

  /** The code points that contribute a component, in input order. */
  function KeptCodepoints(emoji: string): seq<char>
  {
    Filter(emoji, Kept)
  }

  function Components(emoji: string): (parts: seq<string>)
    ensures |parts| == |KeptCodepoints(emoji)|
  {
    var kept := KeptCodepoints(emoji);
    seq(|kept|, i requires 0 <= i < |kept| => LowerHex(kept[i] as int))
  }

  /** `TwemojiEmojiSource.emoji_to_filename`. */
  function EmojiToFilename(emoji: string): string
  {
    Join(Components(emoji), "-") + ".png"
  }

  /** No component contains the separator. */
  lemma ComponentsHaveNoDash(emoji: string)
    ensures forall i :: 0 <= i < |Components(emoji)| ==> '-' !in Components(emoji)[i]
  {
    var parts := Components(emoji);
    forall i | 0 <= i < |parts|
      ensures '-' !in parts[i]
    {
      assert forall j :: 0 <= j < |parts[i]| ==> IsLowerHexDigit(parts[i][j]);
    }
  }

  /** The kept code points are exactly the characters of the emoji other
      than U+FE0F, in the order they appear in it. */
  lemma KeptCodepointsAreTheOthers(emoji: string)
    ensures forall c :: c in KeptCodepoints(emoji) <==> c in emoji && c != VariationSelector16
    ensures IsSubsequence(KeptCodepoints(emoji), emoji)
  {
    FilterMembers(emoji, Kept);
    FilterIsSubsequence(emoji, Kept);
  }

  /** U+FE0F never contributes a component: "fe0f" is not among them. */
  lemma NoVariationSelectorComponent(emoji: string)
    ensures LowerHex(0xFE0F) !in Components(emoji)
  {
    var kept := KeptCodepoints(emoji);
    KeptCodepointsAreTheOthers(emoji);
    forall i | 0 <= i < |kept|
      ensures Components(emoji)[i] != LowerHex(0xFE0F)
    {
      assert kept[i] in kept;
      if Components(emoji)[i] == LowerHex(0xFE0F) {
        LowerHexInjective(kept[i] as int, 0xFE0F);
      }
    }
  }

  /** One "-" between consecutive components, ".png" at the end, and just
      ".png" when every character was U+FE0F. */
  lemma EmojiToFilenameShape(emoji: string)
    ensures EndsWith(EmojiToFilename(emoji), ".png")
    ensures KeptCodepoints(emoji) == [] ==> EmojiToFilename(emoji) == ".png"
    ensures KeptCodepoints(emoji) != [] ==> Count(EmojiToFilename(emoji), '-') == |KeptCodepoints(emoji)| - 1
  {
    var parts := Components(emoji);
    if parts != [] {
      ComponentsHaveNoDash(emoji);
      JoinSeparatorCount(parts, '-');
      CountAppend(Join(parts, "-"), ".png", '-');
      CountAbsent(".png", '-');
    }
  }

  /** The code points a Twemoji file name stands for: the part before
      ".png" split at "-", each piece read as hexadecimal. */
  function FilenameCodepoints(name: string): Option<seq<nat>>
  {
    if !EndsWith(name, ".png") then None
    else
      var pieces := Split(name[..|name| - 4], '-');
      if exists i :: 0 <= i < |pieces| && !AllHex(pieces[i]) then None
      else Some(seq(|pieces|, i requires 0 <= i < |pieces| => ParseHex(pieces[i])))
  }

  predicate AllHex(s: string)
  {
    s != [] && forall j :: 0 <= j < |s| ==> IsLowerHexDigit(s[j])
  }

  /** A file name gives back the kept code points of its emoji, in order. */
  lemma FilenameRoundTrip(emoji: string)
    requires KeptCodepoints(emoji) != []
    ensures var kept := KeptCodepoints(emoji);
      FilenameCodepoints(EmojiToFilename(emoji)) == Some(seq(|kept|, i requires 0 <= i < |kept| => kept[i] as nat))
  {
    var kept := KeptCodepoints(emoji);
    var parts := Components(emoji);
    var name := EmojiToFilename(emoji);
    ComponentsHaveNoDash(emoji);
    SplitJoin(parts, '-');
    assert name[..|name| - 4] == Join(parts, "-");
    var pieces := Split(name[..|name| - 4], '-');
    assert pieces == parts;
    forall i | 0 <= i < |pieces|
      ensures AllHex(pieces[i]) && ParseHex(pieces[i]) == kept[i] as nat
    {
      LowerHexRoundTrip(kept[i] as nat);
    }
    assert !(exists i :: 0 <= i < |pieces| && !AllHex(pieces[i]));
    var codes := seq(|pieces|, i requires 0 <= i < |pieces| => ParseHex(pieces[i]));
    assert codes == seq(|kept|, i requires 0 <= i < |kept| => kept[i] as nat);
  }
}
