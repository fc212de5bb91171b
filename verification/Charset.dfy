/** Character classes of generated passwords, and the filter for look-alike characters. */
module Charset {
  const LOWERCASE := "abcdefghijklmnopqrstuvwxyz"
  const UPPERCASE := "ABCDEFGHIJKLMNOPQRSTUVWXYZ"
  const DIGITS := "0123456789"
  const SYMBOLS := "!@#$%^&*()-_=+[]{};:,.<>?/~"
  const AMBIGUOUS := "0Oo1lI|`"
  const LARGEST_CLASS := 27

  datatype CharClass = Lowercase | Uppercase | Digits | Symbols

  function Raw(c: CharClass): string {
    match c
    case Lowercase => LOWERCASE
    case Uppercase => UPPERCASE
    case Digits => DIGITS
    case Symbols => SYMBOLS
  }

  datatype CharSet = CharSet(lowercase: bool, uppercase: bool, digits: bool, symbols: bool)

  function Popcount(s: CharSet): nat {
    (if s.lowercase then 1 else 0) + (if s.uppercase then 1 else 0)
    + (if s.digits then 1 else 0) + (if s.symbols then 1 else 0)
  }

  function Filtered(raw: string, exclude: bool): (r: string)
    ensures |r| <= |raw|
    ensures forall c :: c in r <==> c in raw && (exclude ==> c !in AMBIGUOUS)
  {
    if !exclude then raw
    else if raw == "" then ""
    else
      assert raw == [raw[0]] + raw[1..];
      (if raw[0] in AMBIGUOUS then "" else [raw[0]]) + Filtered(raw[1..], exclude)
  }

  function Enabled(s: CharSet): (r: seq<CharClass>)
    ensures |r| == Popcount(s)
  {
    (if s.lowercase then [Lowercase] else [])
    + (if s.uppercase then [Uppercase] else [])
    + (if s.digits then [Digits] else [])
    + (if s.symbols then [Symbols] else [])
  }

  function FilteredAll(classes: seq<CharClass>, exclude: bool): (r: seq<string>)
    ensures |r| == |classes| && forall k :: 0 <= k < |r| ==> r[k] == Filtered(Raw(classes[k]), exclude)
  {
    if classes == [] then [] else [Filtered(Raw(classes[0]), exclude)] + FilteredAll(classes[1..], exclude)
  }

  function EnabledClasses(s: CharSet, exclude: bool): seq<string> {
    FilteredAll(Enabled(s), exclude)
  }

  function Concat(classes: seq<string>): string
    decreases |classes|
  {
    if classes == [] then "" else Concat(classes[..|classes| - 1]) + classes[|classes| - 1]
  }

  lemma {:induction false} ConcatHas(classes: seq<string>, c: char)
    ensures c in Concat(classes) <==> exists k :: 0 <= k < |classes| && c in classes[k]
    decreases |classes|
  {
    if classes != [] {
      var n := |classes| - 1;
      ConcatHas(classes[..n], c);
      assert forall k :: 0 <= k < n ==> classes[..n][k] == classes[k];
    }
  }

  function Alphabet(s: CharSet, exclude: bool): string {
    Concat(EnabledClasses(s, exclude))
  }

  /** Whatever the filter takes away, every enabled class keeps something; so the alphabet of a
      selection that enables anything is never empty, and it is a small one. */
  lemma ClassesSurviveFilter(s: CharSet, exclude: bool)
    ensures |EnabledClasses(s, exclude)| == Popcount(s)
    ensures forall k :: 0 <= k < Popcount(s) ==> 0 < |EnabledClasses(s, exclude)[k]| <= LARGEST_CLASS
    ensures Popcount(s) > 0 <==> Alphabet(s, exclude) != ""
    ensures |Alphabet(s, exclude)| <= LARGEST_CLASS * Popcount(s)
  {
    var classes := EnabledClasses(s, exclude);
    forall k | 0 <= k < |classes|
      ensures 0 < |classes[k]| <= LARGEST_CLASS
    {
      ClassSurvives(Enabled(s)[k], exclude);
    }
    ConcatSize(classes, LARGEST_CLASS);
    if Popcount(s) > 0 {
      assert classes[0][0] in classes[0];
      ConcatHas(classes, classes[0][0]);
    }
  }

  lemma ClassSurvives(c: CharClass, exclude: bool)
    ensures 0 < |Filtered(Raw(c), exclude)| <= LARGEST_CLASS
  {
    match c
    case Lowercase => Survives(Raw(c), 0, exclude);
    case Uppercase => Survives(Raw(c), 0, exclude);
    case Digits => Survives(Raw(c), 2, exclude);
    case Symbols => Survives(Raw(c), 0, exclude);
  }

  lemma Survives(raw: string, k: nat, exclude: bool)
    requires k < |raw| && raw[k] !in AMBIGUOUS
    ensures raw[k] in Filtered(raw, exclude)
  {
  }

  lemma {:induction false} ConcatSize(classes: seq<string>, size: nat)
    requires forall k :: 0 <= k < |classes| ==> |classes[k]| <= size
    ensures |Concat(classes)| <= size * |classes|
    decreases |classes|
  {
    if classes != [] {
      ConcatSize(classes[..|classes| - 1], size);
      assert size * |classes| == size * (|classes| - 1) + size;
    }
  }

  /** The alphabet holds exactly the unambiguous characters of the enabled classes. */
  lemma AlphabetIsUnion(s: CharSet, exclude: bool, c: char)
    ensures c in Alphabet(s, exclude) <==>
              (exclude ==> c !in AMBIGUOUS) && exists k :: 0 <= k < Popcount(s) && c in Raw(Enabled(s)[k])
  {
    ConcatHas(EnabledClasses(s, exclude), c);
  }

  /** The alphabet as it is built: one enabled class after another. */
  method BuildAlphabet(s: CharSet, exclude: bool) returns (out: string)
    ensures out == Alphabet(s, exclude)
  {
    out := PushAll(EnabledClasses(s, exclude));
  }

  method PushAll(classes: seq<string>) returns (out: string)
    ensures out == Concat(classes)
  {
    out := "";
    for i := 0 to |classes|
      invariant out == Concat(classes[..i])
    {
      assert classes[..i + 1][..i] == classes[..i];
      out := out + classes[i];
    }
    assert classes[..|classes|] == classes;
  }
}
