/**
 * The placeholder team badge: a colour picked by a 32-bit string hash of the
 * name, and up to two initials.
 */
module TeamLogoView {
  import opened Wrappers
  import opened JsText

  const TwoTo32: int := 0x1_0000_0000
  const TwoTo31: int := 0x8000_0000

  /** JavaScript's ToInt32: the integer reduced modulo 2^32 into [-2^31, 2^31). */
  function ToInt32(x: int): (r: int)
    ensures -TwoTo31 <= r < TwoTo31
    ensures (x - r) % TwoTo32 == 0
    ensures -TwoTo31 <= x < TwoTo31 ==> r == x
  {
    var m := x % TwoTo32;
    if m >= TwoTo31 then m - TwoTo32 else m
  }

  /** ToInt32 only sees its argument modulo 2^32. */
  lemma ToInt32Shift(x: int, k: int)
    ensures ToInt32(x + TwoTo32 * k) == ToInt32(x)
  {
    assert (x + TwoTo32 * k) % TwoTo32 == x % TwoTo32;
  }

  /** One loop step, `hash = ((hash << 5) - hash + code) | 0`, for a hash already in 32-bit range. */
  function HashStep(hash: int, code: int): int {
    ToInt32(ToInt32(hash * 32) - hash + code)
  }

  /** The step is the familiar multiply-by-31 and add, taken modulo 2^32. */
  lemma HashStepIs31(hash: int, code: int)
    ensures HashStep(hash, code) == ToInt32(31 * hash + code)
  {
    var t := ToInt32(hash * 32);
    var k := (hash * 32 - t) / TwoTo32;
    assert hash * 32 - t == TwoTo32 * k;
    ToInt32Shift(t - hash + code, k);
    assert t - hash + code + TwoTo32 * k == 31 * hash + code;
  }

  /** The hash the loop has built after reading `s` (the source's loop as a function of the prefix read). */
  function HashOf(s: string): (h: int)
    ensures -TwoTo31 <= h < TwoTo31
  {
    if |s| == 0 then 0 else HashStep(HashOf(s[..|s| - 1]), s[|s| - 1] as int)
  }

  /** The polynomial string hash `s[0]*31^(n-1) + ... + s[n-1]` over unbounded integers. */
  function PolyHash(s: string): int {
    if |s| == 0 then 0 else 31 * PolyHash(s[..|s| - 1]) + s[|s| - 1] as int
  }

  /** The 32-bit loop computes the polynomial hash reduced by ToInt32. */
  lemma {:induction false} HashOfIsPolyHash(s: string)
    ensures HashOf(s) == ToInt32(PolyHash(s))
  {
    if |s| > 0 {
      var p, c := s[..|s| - 1], s[|s| - 1] as int;
      HashOfIsPolyHash(p);
      var h, big := HashOf(p), PolyHash(p);
      HashStepIs31(h, c);
      var k := (big - h) / TwoTo32;
      assert big - h == TwoTo32 * k;
      ToInt32Shift(31 * h + c, 31 * k);
      assert 31 * h + c + TwoTo32 * (31 * k) == 31 * big + c;
    }
  }

  /** `Math.abs`. */
  function Abs(x: int): (r: int)
    ensures r >= 0 && (r == x || r == -x)
  {
    if x < 0 then -x else x
  }

  /** `hashString(str)`: the absolute value of the 32-bit hash, at most 2^31. */
  method HashString(str: string) returns (h: int)
    ensures h == Abs(HashOf(str))
    ensures 0 <= h <= TwoTo31
  {
    var hash := 0;
    for i := 0 to |str|
      invariant hash == HashOf(str[..i])
    {
      assert str[..i + 1][..i] == str[..i];
      hash := ToInt32(ToInt32(hash * 32) - hash + str[i] as int);
    }
    assert str[..|str|] == str;
    h := Abs(hash);
  }

  const Palette: seq<string> := ["#f97316", "#22c55e", "#3b82f6", "#eab308", "#ec4899", "#a855f7"]

  /** The badge colour of a name: the palette entry at the hash modulo the palette size. */
  function ColorOf(name: string): (color: string)
    ensures color in Palette
  {
    Palette[Abs(HashOf(name)) % |Palette|]
  }

  /** `pickColor(name)`. */
  method PickColor(name: string) returns (color: string)
    ensures color == ColorOf(name)
    ensures color in Palette
  {
    var h := HashString(name);
    color := Palette[h % |Palette|];
  }

  /** The empty name hashes to 0, and a one-letter name to its character code: "A" gets the last colour (65 mod 6 is 5). */
  lemma HashExamples()
    ensures HashOf("") == 0 && ColorOf("") == "#f97316"
    ensures HashOf("A") == 65 && ColorOf("A") == "#a855f7"
  {
    assert "A"[..0] == "";
  }

  /** The name shown: the given one when it is a string with something besides white space, else "?". */
  function SafeName(name: Option<string>): (s: string)
    ensures name.Some? && !IsBlank(name.value) ==> s == name.value
    ensures name.None? || IsBlank(name.value) ==> s == "?"
  {
    if name.Some? && !IsBlank(name.value) then name.value else "?"
  }

  /** `s.split(' ')`: the pieces between single spaces, empty ones included. */
  function Split(s: string): (pieces: seq<string>)
    ensures |pieces| > 0
    ensures forall i | 0 <= i < |pieces| :: ' ' !in pieces[i]
  {
    if |s| == 0 then [""]
    else
      var rest := Split(s[1..]);
      if s[0] == ' ' then [""] + rest
      else [[s[0]] + rest[0]] + rest[1..]
  }

  /** The pieces joined again with single spaces. */
  function JoinWithSpace(pieces: seq<string>): string
    requires |pieces| > 0
  {
    if |pieces| == 1 then pieces[0] else pieces[0] + " " + JoinWithSpace(pieces[1..])
  }

  /** Splitting loses nothing: joining the pieces with spaces gives the name back. */
  lemma {:induction false} SplitJoin(s: string)
    ensures JoinWithSpace(Split(s)) == s
  {
    if |s| > 0 {
      var rest := Split(s[1..]);
      SplitJoin(s[1..]);
      if s[0] == ' ' {
        assert ([""] + rest)[1..] == rest;
      } else {
        var pieces := [[s[0]] + rest[0]] + rest[1..];
        if |rest| > 1 {
          assert pieces[1..] == rest[1..];
          assert JoinWithSpace(rest) == rest[0] + " " + JoinWithSpace(rest[1..]);
        }
      }
    }
  }

  /** `.filter(Boolean)`: the non-empty pieces, in order. */
  function NonEmpty(pieces: seq<string>): (words: seq<string>)
    ensures forall i | 0 <= i < |words| :: words[i] != "" && words[i] in pieces
    ensures forall p | p in pieces && p != "" :: p in words
  {
    if |pieces| == 0 then []
    else if pieces[0] == "" then NonEmpty(pieces[1..])
    else [pieces[0]] + NonEmpty(pieces[1..])
  }

  /** A single piece is kept exactly when it is non-empty. */
  lemma NonEmptySingleton(p: string)
    ensures NonEmpty([p]) == if p == "" then [] else [p]
  {
    assert [p][1..] == [];
  }

  /** Filtering distributes over concatenation: every non-empty piece is kept, in order, each occurrence once. */
  lemma {:induction false} NonEmptyAppend(a: seq<string>, b: seq<string>)
    ensures NonEmpty(a + b) == NonEmpty(a) + NonEmpty(b)
  {
    if |a| == 0 {
      assert a + b == b;
    } else {
      var head := if a[0] == "" then [] else [a[0]];
      var rest := a[1..];
      SplitAppendFirst(a, b);
      calc {
        NonEmpty(a + b);
        { NonEmptyStep(a + b); }
        head + NonEmpty(rest + b);
        { NonEmptyAppend(rest, b); }
        head + (NonEmpty(rest) + NonEmpty(b));
        (head + NonEmpty(rest)) + NonEmpty(b);
        { NonEmptyStep(a); }
        NonEmpty(a) + NonEmpty(b);
      }
    }
  }

  lemma SplitAppendFirst(a: seq<string>, b: seq<string>)
    requires |a| > 0
    ensures (a + b)[0] == a[0] && (a + b)[1..] == a[1..] + b
  {
  }

  /** One unfolding of `NonEmpty` at the first piece. */
  lemma NonEmptyStep(s: seq<string>)
    requires |s| > 0
    ensures NonEmpty(s) == (if s[0] == "" then [] else [s[0]]) + NonEmpty(s[1..])
  {
  }

  function Words(s: string): seq<string> {
    NonEmpty(Split(s))
  }

  /** A name with a character other than a space has at least one word. */
  lemma {:induction false} WordsOfNonSpace(s: string, i: int)
    requires 0 <= i < |s| && s[i] != ' '
    ensures |Words(s)| > 0
  {
    var rest := Split(s[1..]);
    if s[0] != ' ' {
      assert Split(s)[0] != "";
    } else {
      WordsOfNonSpace(s[1..], i - 1);
      assert Split(s) == [""] + rest;
      assert Split(s)[1..] == rest;
    }
  }

  /** The initials: the upper-cased first character of each of the first two words. */
  function Initials(safeName: string): (r: string)
    ensures |r| == (if |Words(safeName)| < 2 then |Words(safeName)| else 2)
    ensures forall i | 0 <= i < |r| :: r[i] == UpperAscii(Words(safeName)[i][0])
  {
    var words := Words(safeName);
    var firstTwo := if |words| < 2 then words else words[..2];
    seq(|firstTwo|, i requires 0 <= i < |firstTwo| => UpperAscii(firstTwo[i][0]))
  }

  /** Every badge shows one or two initials. */
  lemma BadgeHasInitials(name: Option<string>)
    ensures 1 <= |Initials(SafeName(name))| <= 2
  {
    var s := SafeName(name);
    if s == "?" {
      WordsOfNonSpace(s, 0);
    } else {
      var i :| 0 <= i < |s| && !IsWhiteSpace(s[i]);
      WordsOfNonSpace(s, i);
    }
  }
}
