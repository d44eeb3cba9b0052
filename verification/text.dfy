/** String operations the components apply to user-visible text. A Dafny `char` is a whole
    Unicode scalar value, where JavaScript indexes UTF-16 code units: the two agree on text
    inside the Basic Multilingual Plane. Case mapping covers the ASCII letters only. */
module Text {
  import opened Values
  import opened Seqs

  predicate IsUpperLetter(c: char) { 'A' <= c <= 'Z' }
  predicate IsLowerLetter(c: char) { 'a' <= c <= 'z' }

  function LowerChar(c: char): char {
    if IsUpperLetter(c) then (c as int + 32) as char else c
  }

  function UpperChar(c: char): char {
    if IsLowerLetter(c) then (c as int - 32) as char else c
  }

  /** `String.prototype.toLowerCase`. */
  function ToLower(s: string): (r: string)
    ensures |r| == |s|
    ensures forall i :: 0 <= i < |s| ==> r[i] == LowerChar(s[i])
  {
    seq(|s|, i requires 0 <= i < |s| => LowerChar(s[i]))
  }

  /** `String.prototype.toUpperCase`. */
  function ToUpper(s: string): (r: string)
    ensures |r| == |s|
    ensures forall i :: 0 <= i < |s| ==> r[i] == UpperChar(s[i])
  {
    seq(|s|, i requires 0 <= i < |s| => UpperChar(s[i]))
  }

  /** Lower-casing forgets the case a string was typed in. */
  lemma LowerOfUpper(s: string)
    ensures ToLower(ToUpper(s)) == ToLower(s)
  {
    assert forall i :: 0 <= i < |s| ==> LowerChar(UpperChar(s[i])) == LowerChar(s[i]);
  }

  /** `needle` occurs in `hay` starting at index `i`. */
  ghost predicate OccursAt(hay: string, needle: string, i: int) {
    0 <= i <= |hay| && needle <= hay[i..]
  }

  /** `String.prototype.includes`: scan for a position where `needle` is a prefix. */
  predicate Contains(hay: string, needle: string)
    ensures |needle| == 0 ==> Contains(hay, needle)
    decreases |hay|
  {
    needle <= hay || (|hay| > 0 && Contains(hay[1..], needle))
  }

  /** The scan finds `needle` exactly when it occurs somewhere in `hay`. */
  lemma {:induction false} ContainsIffOccurs(hay: string, needle: string)
    ensures Contains(hay, needle) <==> exists i :: OccursAt(hay, needle, i)
    decreases |hay|
  {
    if Contains(hay, needle) {
      if needle <= hay {
        assert OccursAt(hay, needle, 0);
      } else {
        ContainsIffOccurs(hay[1..], needle);
        var j :| OccursAt(hay[1..], needle, j);
        assert hay[1..][j..] == hay[j + 1..];
        assert OccursAt(hay, needle, j + 1);
      }
    }
    if exists i :: OccursAt(hay, needle, i) {
      var i :| OccursAt(hay, needle, i);
      if i == 0 {
        assert needle <= hay;
      } else {
        assert hay[1..][i - 1..] == hay[i..];
        assert OccursAt(hay[1..], needle, i - 1);
        ContainsIffOccurs(hay[1..], needle);
      }
    }
  }

  /** A string embedded anywhere in a concatenation is found by the scan. */
  lemma ContainsPart(before: string, part: string, after: string)
    ensures Contains(before + part + after, part)
  {
    var hay := before + part + after;
    assert hay[|before|..] == part + after;
    assert OccursAt(hay, part, |before|);
    ContainsIffOccurs(hay, part);
  }

  /** Number of occurrences of the space character. */
  function SpaceCount(s: string): nat {
    if |s| == 0 then 0 else (if s[0] == ' ' then 1 else 0) + SpaceCount(s[1..])
  }

  /** `words.join(' ')`. */
  function Join(words: seq<string>): string
    requires |words| >= 1
  {
    if |words| == 1 then words[0] else words[0] + " " + Join(words[1..])
  }

  /** `s.split(' ')`: one word more than there are spaces, empty words kept, no word
      holding a space, and joining the words with spaces gives `s` back. */
  function Split(s: string): (words: seq<string>)
    ensures |words| == SpaceCount(s) + 1
    ensures forall i :: 0 <= i < |words| ==> ' ' !in words[i]
    ensures Join(words) == s
  {
    if |s| == 0 then [""]
    else
      var rest := Split(s[1..]);
      if s[0] == ' ' then
        assert [""] + rest == [""] + rest;
        var words := [""] + rest;
        assert words[1..] == rest;
        assert s == " " + s[1..];
        words
      else
        var words := [[s[0]] + rest[0]] + rest[1..];
        assert |rest| > 1 ==> Join(rest) == rest[0] + " " + Join(rest[1..]);
        assert s == [s[0]] + s[1..];
        assert words[1..] == rest[1..];
        words
  }

  /** Splitting a string that has no space yields just that string. */
  lemma {:induction false} SplitWithoutSpace(s: string)
    requires ' ' !in s
    ensures Split(s) == [s]
    decreases |s|
  {
    if |s| > 0 {
      assert ' ' !in s[1..] by {
        assert forall i :: 0 <= i < |s[1..]| ==> s[1..][i] == s[i + 1];
      }
      SplitWithoutSpace(s[1..]);
      assert s == [s[0]] + s[1..];
    }
  }

  /** A leading space-free word followed by a space splits off as the first word. */
  lemma {:induction false} SplitFirstWord(first: string, rest: string)
    requires ' ' !in first
    ensures Split(first + " " + rest) == [first] + Split(rest)
    decreases |first|
  {
    var s := first + " " + rest;
    if |first| == 0 {
      assert s == " " + rest;
      assert s[1..] == rest;
    } else {
      assert s[0] == first[0];
      assert s[1..] == first[1..] + " " + rest;
      assert ' ' !in first[1..] by {
        assert forall i :: 0 <= i < |first[1..]| ==> first[1..][i] == first[i + 1];
      }
      SplitFirstWord(first[1..], rest);
      assert first == [first[0]] + first[1..];
    }
  }

  /** `words.map(w => w[0]).join('')`: `w[0]` of an empty word is `undefined`, which
      `join` renders as the empty string, so empty words contribute nothing. */
  function FirstLetters(words: seq<string>): (r: string)
    ensures |r| <= |words|
  {
    if |words| == 0 then ""
    else (if |words[0]| > 0 then [words[0][0]] else "") + FirstLetters(words[1..])
  }

  /** When no word is empty, there is one letter per word, in word order. */
  lemma {:induction false} FirstLettersOfNonEmpty(words: seq<string>)
    requires forall i :: 0 <= i < |words| ==> |words[i]| > 0
    ensures |FirstLetters(words)| == |words|
    ensures forall i :: 0 <= i < |words| ==> FirstLetters(words)[i] == words[i][0]
    decreases |words|
  {
    if |words| > 0 {
      FirstLettersOfNonEmpty(words[1..]);
    }
  }

  /** `name.split(' ').map(n => n[0]).join('').toUpperCase()`: the avatar fallback. */
  function Initials(name: string): (r: string)
    ensures |r| <= SpaceCount(name) + 1
    ensures forall i :: 0 <= i < |r| ==> !IsLowerLetter(r[i])
  {
    ToUpper(FirstLetters(Split(name)))
  }

  function IsNonEmpty(): string -> bool {
    w => |w| > 0
  }

  /** The words of a split that are not empty, in order. */
  function NonEmptyWords(words: seq<string>): (r: seq<string>)
    ensures forall i :: 0 <= i < |r| ==> |r[i]| > 0
  {
    Filter(IsNonEmpty(), words)
  }

  /** An empty word contributes no letter: the letters are the first letters of the
      non-empty words, one each, in word order. */
  lemma {:induction false} FirstLettersSkipEmpty(words: seq<string>)
    ensures |FirstLetters(words)| == |NonEmptyWords(words)|
    ensures forall i :: 0 <= i < |FirstLetters(words)| ==>
      FirstLetters(words)[i] == NonEmptyWords(words)[i][0]
    decreases |words|
  {
    if |words| > 0 {
      FirstLettersSkipEmpty(words[1..]);
    }
  }

  /** For any name, doubled, leading or trailing spaces included, the initials are the
      upper-cased first letters of its non-empty words, in order. */
  lemma InitialsOfNonEmptyWords(name: string)
    ensures |Initials(name)| == |NonEmptyWords(Split(name))|
    ensures forall i :: 0 <= i < |Initials(name)| ==>
      Initials(name)[i] == UpperChar(NonEmptyWords(Split(name))[i][0])
  {
    FirstLettersSkipEmpty(Split(name));
  }

  /** A name made of non-empty words separated by single spaces yields exactly one
      upper-cased initial per word. */
  lemma InitialsPerWord(name: string)
    requires forall i :: 0 <= i < |Split(name)| ==> |Split(name)[i]| > 0
    ensures |Initials(name)| == |Split(name)|
    ensures forall i :: 0 <= i < |Split(name)| ==> Initials(name)[i] == UpperChar(Split(name)[i][0])
  {
    FirstLettersOfNonEmpty(Split(name));
  }

  predicate IsDigit(c: char) { '0' <= c <= '9' }

  function DigitChar(d: int): char
    requires 0 <= d < 10
  {
    ('0' as int + d) as char
  }

  function DigitValue(c: char): int
    requires IsDigit(c)
  {
    c as int - '0' as int
  }

  /** Decimal numeral of a natural number, most significant digit first. */
  function ShowNat(n: nat): (r: string)
    ensures |r| >= 1
    ensures forall i :: 0 <= i < |r| ==> IsDigit(r[i])
  {
    if n < 10 then [DigitChar(n)] else ShowNat(n / 10) + [DigitChar(n % 10)]
  }

  /** `Number.prototype.toString` for an integer-valued number: never the empty string. */
  function Show(n: int): (r: string)
    ensures |r| >= 1
  {
    if n < 0 then "-" + ShowNat(-n) else ShowNat(n)
  }

  predicate AllDigits(s: string) {
    forall i :: 0 <= i < |s| ==> IsDigit(s[i])
  }

  /** Value of a string of decimal digits. */
  function ReadNat(s: string): nat
    requires AllDigits(s)
  {
    if |s| == 0 then 0 else ReadNat(s[..|s| - 1]) * 10 + DigitValue(s[|s| - 1])
  }

  /** Reads an optionally negative decimal integer; anything else is refused. */
  function ReadInt(s: string): Option<int> {
    if |s| > 1 && s[0] == '-' && AllDigits(s[1..]) then Some(0 - ReadNat(s[1..]) as int)
    else if |s| > 0 && s[0] != '-' && AllDigits(s) then Some(ReadNat(s))
    else None
  }

  lemma {:induction false} ReadShowNat(n: nat)
    ensures ReadNat(ShowNat(n)) == n
    decreases n
  {
    if n >= 10 {
      var s := ShowNat(n);
      assert s[..|s| - 1] == ShowNat(n / 10);
      ReadShowNat(n / 10);
    }
  }

  /** `Show` writes a numeral that reads back as the same integer. */
  lemma ReadShow(n: int)
    ensures ReadInt(Show(n)) == Some(n)
  {
    var s := Show(n);
    if n < 0 {
      var digits := ShowNat(-n);
      assert s == "-" + digits;
      assert s[1..] == digits;
      assert AllDigits(digits);
      ReadShowNat(-n);
      assert ReadInt(s) == Some(0 - ReadNat(digits) as int);
    } else {
      assert s == ShowNat(n);
      assert IsDigit(s[0]) && AllDigits(s);
      ReadShowNat(n);
      assert ReadInt(s) == Some(ReadNat(s) as int);
    }
  }
}
