/** The skill badge: a logo image when one is available and has loaded, or
    else a coloured tile showing the skill's initials. */
module Skills {

  import opened Optional
  import opened Text

  // ---------------------------------------------------------------------
  // Initials
  // ---------------------------------------------------------------------

  /** `split(' ')` as JavaScript does it: every space ends a word, so two
      spaces in a row give an empty word and the empty string gives one
      empty word. */
  function Split(s: string): (words: seq<string>)
    ensures |words| >= 1
    decreases |s|
  {
    if s == [] then [""]
    else
      var rest := Split(s[1..]);
      if s[0] == ' ' then [""] + rest
      else [[s[0]] + rest[0]] + rest[1..]
  }

  /** `join(sep)`: the words with `sep` between neighbours. */
  function Join(words: seq<string>, sep: char): string
    requires |words| >= 1
    decreases |words|
  {
    if |words| == 1 then words[0] else words[0] + [sep] + Join(words[1..], sep)
  }

  /** No word produced by `Split` holds a space. */
  lemma {:induction false} SplitWordsHaveNoSpace(s: string)
    ensures forall w, k :: w in Split(s) && 0 <= k < |w| ==> w[k] != ' '
    decreases |s|
  {
    if s != [] {
      SplitWordsHaveNoSpace(s[1..]);
      var rest := Split(s[1..]);
      if s[0] != ' ' {
        forall w, k | w in Split(s) && 0 <= k < |w| ensures w[k] != ' ' {
          if w == [s[0]] + rest[0] {
            assert k == 0 || w[k] == rest[0][k - 1];
          } else {
            assert w in rest;
          }
        }
      }
    }
  }

  /** Joining the words of `split(' ')` with a space gives back the string. */
  lemma {:induction false} SplitJoinRoundTrip(s: string)
    ensures Join(Split(s), ' ') == s
    decreases |s|
  {
    if s != [] {
      SplitJoinRoundTrip(s[1..]);
      var rest := Split(s[1..]);
      if s[0] == ' ' {
        assert ([""] + rest)[1..] == rest;
      } else {
        var words := [[s[0]] + rest[0]] + rest[1..];
        if |rest| == 1 {
          assert Join(words, ' ') == [s[0]] + rest[0];
        } else {
          assert words[1..] == rest[1..];
          assert Join(rest, ' ') == rest[0] + [' '] + Join(rest[1..], ' ');
        }
      }
    }
  }

  /** `word[0]` for each word, joined: an empty word's `word[0]` is
      `undefined`, which `join` renders as nothing. */
  function FirstLetters(words: seq<string>): (r: string)
    ensures |r| <= |words|
    decreases |words|
  {
    if words == [] then []
    else (if words[0] == [] then [] else [words[0][0]]) + FirstLetters(words[1..])
  }

  /** `FirstLetters` distributes over concatenation. */
  lemma {:induction false} FirstLettersAppend(a: seq<string>, b: seq<string>)
    ensures FirstLetters(a + b) == FirstLetters(a) + FirstLetters(b)
    decreases |a|
  {
    if a == [] {
      assert a + b == b;
    } else {
      assert (a + b)[0] == a[0] && (a + b)[1..] == a[1..] + b;
      FirstLettersAppend(a[1..], b);
    }
  }

  /** Empty words, such as those between two consecutive spaces, add nothing
      to the initials. */
  lemma EmptyWordsAddNothing(a: seq<string>, b: seq<string>)
    ensures FirstLetters(a + [""] + b) == FirstLetters(a + b)
  {
    FirstLettersAppend(a + [""], b);
    FirstLettersAppend(a, [""]);
    FirstLettersAppend(a, b);
  }

  /** The characters of `s` that begin a word: each non-space character that
      comes first or follows a space. `atStart` says whether the character
      before `s` was a space (or there was none). */
  function WordStarts(s: string, atStart: bool): (r: string)
    ensures |r| <= |s|
    ensures forall k :: 0 <= k < |r| ==> r[k] != ' '
    decreases |s|
  {
    if s == [] then []
    else (if atStart && s[0] != ' ' then [s[0]] else []) + WordStarts(s[1..], s[0] == ' ')
  }

  /** The first letters of the words of `split(' ')` are exactly the
      word-start characters. */
  lemma {:induction false} FirstLettersAreWordStarts(s: string, atStart: bool)
    ensures WordStarts(s, atStart)
            == if atStart then FirstLetters(Split(s)) else FirstLetters(Split(s)[1..])
    decreases |s|
  {
    if s == [] {
      assert Split(s)[1..] == [];
    } else {
      var rest := Split(s[1..]);
      FirstLettersAreWordStarts(s[1..], s[0] == ' ');
      if s[0] == ' ' {
        assert Split(s) == [""] + rest;
        assert Split(s)[1..] == rest;
        assert FirstLetters([""] + rest) == FirstLetters(rest) by {
          assert ([""] + rest)[1..] == rest;
        }
      } else {
        var words := [[s[0]] + rest[0]] + rest[1..];
        assert Split(s) == words;
        assert words[1..] == rest[1..];
        assert FirstLetters(words) == [s[0]] + FirstLetters(rest[1..]);
      }
    }
  }

  /** `slice(0, 2)`. */
  function TakeTwo(s: string): (r: string)
    ensures |r| <= 2 && |r| <= |s|
    ensures r == s[..|r|]
    ensures |r| == if |s| < 2 then |s| else 2
  {
    if |s| <= 2 then s else s[..2]
  }

  /** `getInitials`: at most two characters, the upper-cased word-start
      characters of the name in word order. */
  function GetInitials(skillName: string): (r: string)
    ensures |r| <= 2
    ensures r == TakeTwo(ToUpper(WordStarts(skillName, true)))
  {
    FirstLettersAreWordStarts(skillName, true);
    TakeTwo(ToUpper(FirstLetters(Split(skillName))))
  }

  /** A single-word name gives its first character, upper-cased. */
  lemma {:induction false} SingleWordInitial(skillName: string)
    requires skillName != [] && forall k :: 0 <= k < |skillName| ==> skillName[k] != ' '
    ensures GetInitials(skillName) == [Upper(skillName[0])]
  {
    var rest := skillName[1..];
    assert WordStarts(rest, false) == [] by { NoStartsWithoutSpace(rest); }
    assert WordStarts(skillName, true) == [skillName[0]] + WordStarts(rest, false);
  }

  /** Without a space, no new word begins. */
  lemma {:induction false} NoStartsWithoutSpace(s: string)
    requires forall k :: 0 <= k < |s| ==> s[k] != ' '
    ensures WordStarts(s, false) == []
    decreases |s|
  {
    if s != [] {
      NoStartsWithoutSpace(s[1..]);
    }
  }

  /** Leading spaces do not change the initials. */
  lemma LeadingSpaceIgnored(skillName: string)
    ensures GetInitials([' '] + skillName) == GetInitials(skillName)
  {
    assert ([' '] + skillName)[1..] == skillName;
  }

  // ---------------------------------------------------------------------
  // Colour
  // ---------------------------------------------------------------------

  const TwoTo31: int := 0x8000_0000
  const TwoTo32: int := 0x1_0000_0000

  /** ECMAScript's ToInt32: the value modulo 2^32, read as a signed 32-bit integer. */
  function ToInt32(x: int): (r: int)
    ensures -TwoTo31 <= r < TwoTo31
    ensures (r - x) % TwoTo32 == 0
    ensures -TwoTo31 <= x < TwoTo31 ==> r == x
  {
    (x + TwoTo31) % TwoTo32 - TwoTo31
  }

  /** `h << 5` on a number: a 32-bit shift, so the product wraps modulo 2^32. */
  function ShiftLeft5(h: int): (r: int)
    ensures -TwoTo31 <= r < TwoTo31
    ensures (r - 32 * h) % TwoTo32 == 0
  {
    var t := ToInt32(h);
    var r := ToInt32(32 * t);
    DivisibleIsMultiple(t - h, TwoTo32);
    DivisibleIsMultiple(r - 32 * t, TwoTo32);
    var q1 := (t - h) / TwoTo32;
    var q2 := (r - 32 * t) / TwoTo32;
    assert r - 32 * h == TwoTo32 * (32 * q1 + q2);
    MultipleOfTwoTo32(32 * q1 + q2);
    r
  }

  /** A number divisible by `m` is `m` times its quotient. */
  lemma DivisibleIsMultiple(x: int, m: int)
    requires m > 0 && x % m == 0
    ensures x == m * (x / m)
  {
  }

  /** Every multiple of 2^32 is divisible by 2^32. */
  lemma MultipleOfTwoTo32(k: int)
    ensures (TwoTo32 * k) % TwoTo32 == 0
  {
  }

  /** Every multiple of 8 is divisible by 8. */
  lemma MultipleOfEight(k: int)
    ensures (8 * k) % 8 == 0
  {
  }

  /** One iteration of the hash loop: `charCodeAt(i) + ((hash << 5) - hash)`.
      The subtraction and addition are on doubles, exact while the hash stays
      below 2^53 in magnitude (see `HashStaysExact`). */
  function HashStep(h: int, c: char): int {
    c as int + (ShiftLeft5(h) - h)
  }

  /** The hash of a whole name: the loop's steps folded over its characters. */
  function Hash(s: string): int
    decreases |s|
  {
    if s == [] then 0 else HashStep(Hash(s[..|s| - 1]), s[|s| - 1])
  }

  /** Each character moves the hash by less than 2^31 + 0x110000. */
  const StepBound: int := TwoTo31 + 0x11_0000

  lemma {:induction false} HashBound(s: string)
    ensures -|s| * StepBound <= Hash(s) <= |s| * StepBound
    decreases |s|
  {
    if s != [] {
      HashBound(s[..|s| - 1]);
      assert (|s| - 1) * StepBound + StepBound == |s| * StepBound;
    }
  }

  /** For names up to 2^21 characters every intermediate hash is an integer
      below 2^53 in magnitude, so the double arithmetic of the code loses
      nothing and the integer model is exact. */
  lemma HashStaysExact(s: string)
    requires |s| <= 0x20_0000
    ensures -0x20_0000_0000_0000 < Hash(s) < 0x20_0000_0000_0000
  {
    HashBound(s);
    assert |s| * StepBound <= 0x20_0000 * StepBound;
  }

  /** The colour palette, in the code's order. */
  const Palette: seq<string> := [
    "bg-gray-600", "bg-gray-500", "bg-gray-700", "bg-slate-600",
    "bg-slate-500", "bg-zinc-600", "bg-zinc-500", "bg-stone-600"
  ]

  /** `Math.abs(hash) % colors.length`. */
  function ColorIndex(h: int): (i: nat)
    ensures i < |Palette|
    ensures (h >= 0 ==> (h - i) % 8 == 0) && (h < 0 ==> (-h - i) % 8 == 0)
  {
    var a := if h < 0 then -h else h;
    var i := a % |Palette|;
    assert a - i == 8 * (a / 8);
    MultipleOfEight(a / 8);
    i
  }

  /** The colour `getColorFromName` picks for a name. */
  function ColorFromName(skillName: string): (color: string)
    ensures color in Palette
  {
    Palette[ColorIndex(Hash(skillName))]
  }

  /** The empty name leaves the hash at 0 and gets the first colour. */
  lemma EmptyNameIsFirstColor()
    ensures ColorFromName("") == "bg-gray-600"
  {
  }

  /** `getColorFromName`: the hash loop, then the palette lookup. */
  method GetColorFromName(skillName: string) returns (color: string)
    ensures color == ColorFromName(skillName)
    ensures color in Palette
  {
    var colors := Palette;
    var hash := 0;
    for i := 0 to |skillName|
      invariant hash == Hash(skillName[..i])
    {
      assert skillName[..i + 1][..i] == skillName[..i];
      hash := skillName[i] as int + (ShiftLeft5(hash) - hash);
    }
    assert skillName[..|skillName|] == skillName;
    var index := (if hash < 0 then -hash else hash) % |colors|;
    color := colors[index];
  }

  // ---------------------------------------------------------------------
  // The badge
  // ---------------------------------------------------------------------

  /** What the badge shows. */
  datatype Icon = Logo(src: string) | InitialsTile(text: string, color: string)

  /** One skill badge and its `imageError` state. */
  class SkillIcon {
    const name: string
    const logoPath: Option<string>
    var imageError: bool

    constructor (name: string, logoPath: Option<string>)
      ensures this.name == name && this.logoPath == logoPath && !imageError
    {
      this.name := name;
      this.logoPath := logoPath;
      imageError := false;
    }

    /** `logoPath && !imageError`: an absent or empty path is falsy. */
    predicate ShowsLogo()
      reads this
    {
      logoPath.Some? && logoPath.value != [] && !imageError
    }

    /** The image's `onError` handler. The flag is only ever set, never
        cleared, so from here on the badge shows the initials. */
    method OnImageError()
      modifies this`imageError
      ensures imageError && !ShowsLogo()
    {
      imageError := true;
    }

    /** The badge's rendering decision. */
    method Render() returns (icon: Icon)
      ensures ShowsLogo() ==> icon == Logo(logoPath.value)
      ensures !ShowsLogo() ==> icon == InitialsTile(GetInitials(name), ColorFromName(name))
      ensures icon.InitialsTile? ==> |icon.text| <= 2 && icon.color in Palette
    {
      if logoPath.Some? && logoPath.value != [] && !imageError {
        icon := Logo(logoPath.value);
      } else {
        var color := GetColorFromName(name);
        icon := InitialsTile(GetInitials(name), color);
      }
    }
  }

}
