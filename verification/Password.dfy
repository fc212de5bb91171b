/** The password generator: reserve one character of each class, fill up, shuffle. */
module Password {
  import opened Wrappers
  import opened Sampling
  import opened Charset
  import opened Shuffle

  const DEFAULT_LENGTH := 20
  const OVERSAMPLE := 64

  datatype PasswordBuilder = PasswordBuilder(length: nat, classes: CharSet, excludeAmbiguous: bool)

  const DEFAULT := PasswordBuilder(DEFAULT_LENGTH, CharSet(true, true, true, true), false)

  function Validate(b: PasswordBuilder): Result<(), GenError> {
    var popcount := Popcount(b.classes);
    if b.length == 0 then Err(InvalidLength)
    else if popcount == 0 then Err(NoClassesEnabled)
    else if b.length < popcount then Err(LengthTooShort(b.length, popcount))
    else Ok(())
  }

  // Beyond this the index conversion to 32 bits panics.
  predicate Usable(b: PasswordBuilder) {
    Validate(b).Ok? && b.length <= U32_MAX
  }

  /* --------------------- A string as a function of the draws --------------------- */

  // What each position is picked from, before the shuffle.
  predicate Sound(sources: seq<string>) {
    0 < |sources| <= U32_MAX && forall k :: 0 <= k < |sources| ==> 0 < |sources[k]| <= U32_MAX
  }

  // The ranges drawn for, in order: one a position from `n` on, then the shuffle's.
  function RangesFrom(sources: seq<string>, n: nat): (r: seq<Range>)
    requires Sound(sources) && n <= |sources|
    ensures |r| == |sources| - n + |sources| - 1
    decreases |sources| - n
  {
    if n == |sources| then Downward(|sources| - 1) else [|sources[n]|] + RangesFrom(sources, n + 1)
  }

  lemma {:induction false} PickRangeAt(sources: seq<string>, n: nat, k: nat)
    requires Sound(sources) && n + k < |sources|
    ensures RangesFrom(sources, n)[k] == |sources[n + k]|
    decreases k
  {
    if 0 < k {
      PickRangeAt(sources, n + 1, k - 1);
    }
  }

  lemma {:induction false} ShuffleRangeAt(sources: seq<string>, n: nat, k: nat)
    requires Sound(sources) && n <= |sources| && k < |sources| - 1
    ensures RangesFrom(sources, n)[|sources| - n + k] == Downward(|sources| - 1)[k]
    decreases |sources| - n
  {
    if n < |sources| {
      ShuffleRangeAt(sources, n + 1, k);
    }
  }

  predicate Picks(sources: seq<string>, picks: seq<nat>) {
    |picks| <= |sources| && forall k :: 0 <= k < |picks| ==> picks[k] < |sources[k]|
  }

  function Picked(sources: seq<string>, picks: seq<nat>): (r: string)
    requires Picks(sources, picks)
    ensures |r| == |picks| && forall k :: 0 <= k < |r| ==> r[k] == sources[k][picks[k]]
  {
    seq(|picks|, k requires 0 <= k < |picks| => sources[k][picks[k]])
  }

  // Draws that can be made: a pick for each position and then the shuffle's choices.
  predicate Draws(sources: seq<string>, picks: seq<nat>, js: seq<nat>) {
    0 < |picks| == |sources| && Picks(sources, picks) && Complete(js, |sources| - 1)
  }

  function Arrangement(sources: seq<string>, picks: seq<nat>, js: seq<nat>): string
    requires Draws(sources, picks, js)
  {
    Shuffled(Picked(sources, picks), |sources| - 1, js)
  }

  lemma DrawsOfRanges(sources: seq<string>, indices: seq<nat>)
    requires Sound(sources) && |indices| == 2 * |sources| - 1
    requires forall k :: 0 <= k < |indices| ==> indices[k] < RangesFrom(sources, 0)[k]
    ensures Draws(sources, indices[..|sources|], indices[|sources|..])
  {
    var ranges := RangesFrom(sources, 0);
    PicksOfRanges(sources, indices, ranges);
    ChoicesOfRanges(sources, indices, ranges);
  }

  lemma PicksOfRanges(sources: seq<string>, indices: seq<nat>, ranges: seq<Range>)
    requires Sound(sources) && |indices| == |ranges| == 2 * |sources| - 1 && ranges == RangesFrom(sources, 0)
    requires forall k :: 0 <= k < |indices| ==> indices[k] < ranges[k]
    ensures Picks(sources, indices[..|sources|])
  {
    forall k | 0 <= k < |sources|
      ensures indices[k] < |sources[k]|
    {
      PickRangeAt(sources, 0, k);
      assert ranges[k] == |sources[k]|;
    }
  }

  lemma ChoicesOfRanges(sources: seq<string>, indices: seq<nat>, ranges: seq<Range>)
    requires Sound(sources) && |indices| == |ranges| == 2 * |sources| - 1 && ranges == RangesFrom(sources, 0)
    requires forall k :: 0 <= k < |indices| ==> indices[k] < ranges[k]
    ensures Complete(indices[|sources|..], |sources| - 1)
  {
    var n, js := |sources|, indices[|sources|..];
    forall k | 0 <= k < n - 1
      ensures js[k] < Downward(n - 1)[k]
    {
      ShuffleRangeAt(sources, 0, k);
      assert js[k] == indices[n + k];
    }
    DrawnAreChoices(js, n - 1);
  }

  // What the bytes give: None when they run out.
  function Outcome(sources: seq<string>, bytes: seq<Byte>): Option<string>
    requires Sound(sources)
  {
    var all := DrawAll(bytes, RangesFrom(sources, 0));
    if all.None? then None
    else
      DrawsOfRanges(sources, all.value.0);
      Some(Arrangement(sources, all.value.0[..|sources|], all.value.0[|sources|..]))
  }

  /* --------------------- What a caller is promised --------------------- */

  function ClassesOf(b: PasswordBuilder): seq<string> {
    EnabledClasses(b.classes, b.excludeAmbiguous)
  }

  function AlphabetOf(b: PasswordBuilder): string {
    Alphabet(b.classes, b.excludeAmbiguous)
  }

  // A character of each enabled class, and the rest from the whole alphabet.
  function SourcesOf(b: PasswordBuilder): (r: seq<string>)
    requires Usable(b)
    ensures |r| == b.length && Sound(r)
    ensures forall k :: 0 <= k < |ClassesOf(b)| ==> k < b.length && r[k] == ClassesOf(b)[k]
    ensures forall k :: |ClassesOf(b)| <= k < b.length ==> r[k] == AlphabetOf(b)
  {
    ClassesSurviveFilter(b.classes, b.excludeAmbiguous);
    ClassesOf(b) + seq(b.length - |ClassesOf(b)|, _ => AlphabetOf(b))
  }

  predicate Meets(password: string, class_: string) {
    exists i :: 0 <= i < |password| && password[i] in class_
  }

  predicate Acceptable(b: PasswordBuilder, password: string) {
    && |password| == b.length
    && (forall c :: c in password ==> c in AlphabetOf(b))
    && (forall k :: 0 <= k < |ClassesOf(b)| ==> Meets(password, ClassesOf(b)[k]))
  }

  lemma SameChars(s: string, t: string)
    requires multiset(s) == multiset(t)
    ensures |s| == |t| && forall c :: c in s <==> c in t
  {
    assert |multiset(s)| == |s| && |multiset(t)| == |t|;
    forall c
      ensures c in s <==> c in t
    {
      assert c in s <==> c in multiset(s);
      assert c in t <==> c in multiset(t);
    }
  }

  lemma MeetsMoves(s: string, t: string, k: nat, class_: string)
    requires multiset(s) == multiset(t) && k < |s| && s[k] in class_
    ensures Meets(t, class_)
  {
    SameChars(s, t);
    assert s[k] in t;
  }

  lemma InAlphabet(b: PasswordBuilder, k: nat, c: char)
    requires Usable(b) && k < b.length && c in SourcesOf(b)[k]
    ensures c in AlphabetOf(b)
  {
    ConcatHas(ClassesOf(b), c);
  }

  /** Whatever is drawn, the password has the length asked for, only characters of the filtered
      alphabet, and one of each enabled class. */
  lemma GeneratedIsAcceptable(b: PasswordBuilder, picks: seq<nat>, js: seq<nat>)
    requires Usable(b) && Draws(SourcesOf(b), picks, js)
    ensures Acceptable(b, Arrangement(SourcesOf(b), picks, js))
  {
    var s, t := Picked(SourcesOf(b), picks), Arrangement(SourcesOf(b), picks, js);
    ShuffleKeepsAll(s, b.length - 1, js);
    SameChars(s, t);
    forall c | c in s
      ensures c in AlphabetOf(b)
    {
      var k :| 0 <= k < |s| && s[k] == c;
      InAlphabet(b, k, c);
    }
    forall k | 0 <= k < |ClassesOf(b)|
      ensures Meets(t, ClassesOf(b)[k])
    {
      MeetsMoves(s, t, k, ClassesOf(b)[k]);
    }
  }

  /* --------------------- Nothing acceptable is left out --------------------- */

  predicate Disjoint(classes: seq<string>) {
    forall i, j, c :: 0 <= i < j < |classes| && c in classes[i] ==> c !in classes[j]
  }

  function ClassOf(c: char): Option<CharClass> {
    if 'a' <= c <= 'z' then Some(Lowercase)
    else if 'A' <= c <= 'Z' then Some(Uppercase)
    else if '0' <= c <= '9' then Some(Digits)
    else if '!' <= c <= '~' then Some(Symbols)
    else None
  }

  lemma RawIsOneClass(class_: CharClass, c: char)
    requires c in Raw(class_)
    ensures ClassOf(c) == Some(class_)
  {
    match class_
    case Lowercase => LowercaseCodes(c);
    case Uppercase => UppercaseCodes(c);
    case Digits => assert c in DIGITS;
    case Symbols => SymbolCodes(c);
  }

  lemma LowercaseCodes(c: char)
    requires c in LOWERCASE
    ensures 'a' <= c <= 'z'
  {
  }

  lemma UppercaseCodes(c: char)
    requires c in UPPERCASE
    ensures 'A' <= c <= 'Z'
  {
  }

  lemma SymbolCodes(c: char)
    requires c in SYMBOLS
    ensures ClassOf(c) == Some(Symbols)
  {
  }

  lemma ClassAt(b: PasswordBuilder, i: nat, c: char)
    requires i < |ClassesOf(b)| && c in ClassesOf(b)[i]
    ensures ClassOf(c) == Some(Enabled(b.classes)[i])
  {
    RawIsOneClass(Enabled(b.classes)[i], c);
  }

  lemma EnabledOnce(s: CharSet)
    ensures forall i, j :: 0 <= i < j < |Enabled(s)| ==> Enabled(s)[i] != Enabled(s)[j]
  {
  }

  lemma ClassesDisjoint(b: PasswordBuilder)
    ensures Disjoint(ClassesOf(b))
  {
    EnabledOnce(b.classes);
    forall i, j, c | 0 <= i < j < |ClassesOf(b)| && c in ClassesOf(b)[i]
      ensures c !in ClassesOf(b)[j]
    {
      ClassAt(b, i, c);
      if c in ClassesOf(b)[j] {
        ClassAt(b, j, c);
      }
    }
  }

  // The first `k` characters are of the first `k` classes.
  predicate Fronted(s: string, classes: seq<string>, k: nat) {
    k <= |classes| && k <= |s| && forall m :: 0 <= m < k ==> s[m] in classes[m]
  }

  lemma {:induction false} BringToFront(t: string, classes: seq<string>, k: nat) returns (s: string)
    requires k <= |classes| && k <= |t| && Disjoint(classes)
    requires forall m :: 0 <= m < |classes| ==> Meets(t, classes[m])
    ensures multiset(s) == multiset(t) && Fronted(s, classes, k)
  {
    if k == 0 {
      return t;
    }
    var s0 := BringToFront(t, classes, k - 1);
    SameChars(s0, t);
    assert Meets(t, classes[k - 1]);
    var i :| 0 <= i < |t| && t[i] in classes[k - 1];
    assert t[i] in s0;
    var p: nat :| p < |s0| && s0[p] == t[i];
    SwapKeepsAll(s0, k - 1, p);
    OneMoreFronted(s0, classes, k - 1, p);
    s := Swapped(s0, k - 1, p);
  }

  lemma OneMoreFronted(s: string, classes: seq<string>, k: nat, p: nat)
    requires Disjoint(classes) && Fronted(s, classes, k) && k < |classes| && k < |s|
    requires p < |s| && s[p] in classes[k]
    ensures Fronted(Swapped(s, k, p), classes, k + 1)
  {
    assert k <= p;
  }

  lemma {:induction false} IndicesInto(sources: seq<string>, s: string, n: nat) returns (picks: seq<nat>)
    requires n <= |s| == |sources|
    requires forall k :: 0 <= k < n ==> s[k] in sources[k]
    ensures |picks| == n && Picks(sources, picks) && Picked(sources, picks) == s[..n]
  {
    if n == 0 {
      return [];
    }
    var before := IndicesInto(sources, s, n - 1);
    var p: nat :| p < |sources[n - 1]| && sources[n - 1][p] == s[n - 1];
    picks := before + [p];
    assert forall k :: 0 <= k < n - 1 ==> Picked(sources, before)[k] == s[k];
  }

  lemma AnyOrder(sources: seq<string>, s: string, t: string) returns (picks: seq<nat>, js: seq<nat>)
    requires 0 < |s| == |sources| && multiset(s) == multiset(t)
    requires forall k :: 0 <= k < |s| ==> s[k] in sources[k]
    ensures Draws(sources, picks, js) && Arrangement(sources, picks, js) == t
  {
    SameChars(s, t);
    picks := IndicesInto(sources, s, |s|);
    assert s[..|s|] == s;
    js := ShuffleSurjective(s, |s| - 1, t);
  }

  lemma FrontedFits(b: PasswordBuilder, s: string, k: nat)
    requires Usable(b) && |s| == b.length && k < |s|
    requires forall c :: c in s ==> c in AlphabetOf(b)
    requires Fronted(s, ClassesOf(b), |ClassesOf(b)|)
    ensures s[k] in SourcesOf(b)[k]
  {
    if |ClassesOf(b)| <= k {
      assert s[k] in s;
    }
  }

  /** Every password a caller could accept is one the generator can make. */
  lemma AcceptableIsGenerated(b: PasswordBuilder, password: string) returns (picks: seq<nat>, js: seq<nat>)
    requires Usable(b) && Acceptable(b, password)
    ensures Draws(SourcesOf(b), picks, js) && Arrangement(SourcesOf(b), picks, js) == password
  {
    ClassesDisjoint(b);
    ClassesSurviveFilter(b.classes, b.excludeAmbiguous);
    var s := BringToFront(password, ClassesOf(b), |ClassesOf(b)|);
    SameChars(s, password);
    forall k: nat | k < |s|
      ensures s[k] in SourcesOf(b)[k]
    {
      FrontedFits(b, s, k);
    }
    picks, js := AnyOrder(SourcesOf(b), s, password);
  }

  lemma {:induction false} ZerosComplete(i: nat)
    ensures Complete(seq(i, _ => 0), i)
  {
    if 0 < i {
      ZerosComplete(i - 1);
      assert seq(i, _ => 0)[1..] == seq(i - 1, _ => 0);
    }
  }

  // There are at most as many classes as characters that meet them.
  lemma ClassesFit(password: string, classes: seq<string>)
    requires Disjoint(classes) && forall m :: 0 <= m < |classes| ==> Meets(password, classes[m])
    ensures |classes| <= |password|
  {
    var n := |password|;
    if n < |classes| {
      var s := BringToFront(password, classes, n);
      SameChars(s, password);
      assert Meets(password, classes[n]);
      var i: nat :| i < n && password[i] in classes[n];
      MeetsMoves(password, s, i, classes[n]);
      NoneLeft(s, classes);
    }
  }

  lemma NoneLeft(s: string, classes: seq<string>)
    requires Disjoint(classes) && |s| < |classes| && Fronted(s, classes, |s|)
    ensures !Meets(s, classes[|s|])
  {
  }

  /** Validation refuses exactly the requests that no password could meet. */
  lemma ValidIsPossible(b: PasswordBuilder)
    requires b.length <= U32_MAX
    ensures Validate(b).Ok? <==> 0 < b.length && exists password :: Acceptable(b, password)
    ensures Validate(b) == Err(InvalidLength) <==> b.length == 0
    ensures Validate(b) == Err(NoClassesEnabled) <==> 0 < b.length && AlphabetOf(b) == ""
    ensures forall length, classes :: Validate(b) == Err(LengthTooShort(length, classes)) <==>
              0 < length == b.length < |ClassesOf(b)| == classes
  {
    ClassesSurviveFilter(b.classes, b.excludeAmbiguous);
    if Validate(b).Ok? {
      var picks, js := seq(b.length, _ => 0), seq(b.length - 1, _ => 0);
      ZerosComplete(b.length - 1);
      GeneratedIsAcceptable(b, picks, js);
    }
    if 0 < b.length {
      forall password | Acceptable(b, password)
        ensures Validate(b).Ok?
      {
        AcceptableNeeds(b, password);
      }
    }
  }

  lemma AcceptableNeeds(b: PasswordBuilder, password: string)
    requires 0 < b.length && Acceptable(b, password)
    ensures 0 < Popcount(b.classes) <= b.length
  {
    ClassesSurviveFilter(b.classes, b.excludeAmbiguous);
    ClassesDisjoint(b);
    ClassesFit(password, ClassesOf(b));
    assert password[0] in AlphabetOf(b);
  }

  /* --------------------- The generator --------------------- */

  // The array's first `n` places hold the picks so far.
  ghost predicate PickedSoFar(sources: seq<string>, out: seq<char>, cursor: ByteCursor, n: nat)
    requires Sound(sources)
    reads cursor
  {
    && n <= |sources| == |out|
    && cursor.Fresh() && cursor.ranges + RangesFrom(sources, n) == RangesFrom(sources, 0)
    && |cursor.indices| == n && Picks(sources, cursor.indices) && out[..n] == Picked(sources, cursor.indices)
  }

  lemma NextSource(sources: seq<string>, ranges: seq<Range>, n: nat)
    requires Sound(sources) && n < |sources|
    ensures ranges + RangesFrom(sources, n) == ranges + [|sources[n]|] + RangesFrom(sources, n + 1)
  {
  }

  lemma PickedMore(sources: seq<string>, picks: seq<nat>, pick: nat, before: string, after: string)
    requires Picks(sources, picks) && |picks| < |sources| == |before| && pick < |sources[|picks|]|
    requires before[..|picks|] == Picked(sources, picks) && after == before[|picks| := sources[|picks|][pick]]
    ensures Picks(sources, picks + [pick]) && after[..|picks| + 1] == Picked(sources, picks + [pick])
  {
  }

  // One more character, at position `n`.
  method PickOne(ghost sources: seq<string>, source: string, out: array<char>, cursor: ByteCursor, n: nat)
    returns (r: Result<(), GenError>)
    requires Sound(sources) && n < |sources| == out.Length && source == sources[n]
    requires PickedSoFar(sources, out[..], cursor, n)
    modifies out, cursor
    ensures r.Ok? ==> PickedSoFar(sources, out[..], cursor, n + 1)
    ensures r.Err? ==> r.error == Csprng && Outcome(sources, cursor.bytes).None?
  {
    ghost var ranges, indices, before := cursor.ranges, cursor.indices, out[..];
    NextSource(sources, ranges, n);
    var index := cursor.UniformIndex(|source|);
    if index.Err? {
      DrawAllFails(cursor.bytes, ranges + [|source|], RangesFrom(sources, n + 1));
      return Err(index.error);
    }
    out[n] := source[index.value];
    PickedMore(sources, indices, index.value, before, out[..]);
    return Ok(());
  }

  // One of each enabled class.
  method Reserve(ghost sources: seq<string>, classes: seq<string>, out: array<char>, cursor: ByteCursor)
    returns (r: Result<(), GenError>)
    requires Sound(sources) && |classes| <= |sources| == out.Length && classes == sources[..|classes|]
    requires PickedSoFar(sources, out[..], cursor, 0)
    modifies out, cursor
    ensures r.Ok? ==> PickedSoFar(sources, out[..], cursor, |classes|)
    ensures r.Err? ==> r.error == Csprng && Outcome(sources, cursor.bytes).None?
  {
    for n := 0 to |classes|
      invariant PickedSoFar(sources, out[..], cursor, n)
    {
      ghost var source := sources[n];
      if classes[n] == "" {
        assert false;
      }
      r := PickOne(sources, classes[n], out, cursor, n);
      if r.Err? {
        return;
      }
    }
    return Ok(());
  }

  // The remaining positions, from the whole alphabet.
  method Fill(ghost sources: seq<string>, union: string, reserved: nat, out: array<char>, cursor: ByteCursor)
    returns (r: Result<(), GenError>)
    requires Sound(sources) && reserved <= |sources| == out.Length
    requires forall k :: reserved <= k < |sources| ==> sources[k] == union
    requires PickedSoFar(sources, out[..], cursor, reserved)
    modifies out, cursor
    ensures r.Ok? ==> PickedSoFar(sources, out[..], cursor, |sources|)
    ensures r.Err? ==> r.error == Csprng && Outcome(sources, cursor.bytes).None?
  {
    for n := reserved to out.Length
      invariant PickedSoFar(sources, out[..], cursor, n)
    {
      r := PickOne(sources, union, out, cursor, n);
      if r.Err? {
        return;
      }
    }
    return Ok(());
  }

  // A picked character for every position.
  method PickAll(ghost sources: seq<string>, classes: seq<string>, union: string, out: array<char>, cursor: ByteCursor)
    returns (r: Result<(), GenError>)
    requires Sound(sources) && |classes| <= |sources| == out.Length && classes == sources[..|classes|]
    requires forall k :: |classes| <= k < |sources| ==> sources[k] == union
    requires PickedSoFar(sources, out[..], cursor, 0)
    modifies out, cursor
    ensures r.Ok? ==> PickedSoFar(sources, out[..], cursor, |sources|) && out[..] == Picked(sources, cursor.indices)
    ensures r.Err? ==> r.error == Csprng && Outcome(sources, cursor.bytes).None?
  {
    r := Reserve(sources, classes, out, cursor);
    if r.Ok? {
      r := Fill(sources, union, |classes|, out, cursor);
    }
    assert out[..] == out[..out.Length];
  }

  lemma OutcomeIs(sources: seq<string>, bytes: seq<Byte>, indices: seq<nat>, end: nat)
    requires Sound(sources) && DrawAll(bytes, RangesFrom(sources, 0)) == Some((indices, end))
    ensures |indices| == 2 * |sources| - 1
    ensures Draws(sources, indices[..|sources|], indices[|sources|..])
    ensures Outcome(sources, bytes) == Some(Arrangement(sources, indices[..|sources|], indices[|sources|..]))
  {
    DrawsOfRanges(sources, indices);
  }

  lemma Halves(picks: seq<nat>, js: seq<nat>)
    ensures (picks + js)[..|picks|] == picks && (picks + js)[|picks|..] == js
  {
  }

  lemma OutcomeFound(sources: seq<string>, bytes: seq<Byte>, picks: seq<nat>, js: seq<nat>, end: nat)
    requires Sound(sources) && |picks| == |sources|
    requires DrawAll(bytes, RangesFrom(sources, 0)) == Some((picks + js, end))
    ensures Draws(sources, picks, js) && Outcome(sources, bytes) == Some(Arrangement(sources, picks, js))
  {
    OutcomeIs(sources, bytes, picks + js, end);
    Halves(picks, js);
  }

  lemma OutcomeMissing(sources: seq<string>, bytes: seq<Byte>, ranges: seq<Range>)
    requires Sound(sources) && ranges == RangesFrom(sources, 0) && DrawAll(bytes, ranges).None?
    ensures Outcome(sources, bytes).None?
  {
  }

  // The shuffle of what was picked.
  method ShufflePicked(ghost sources: seq<string>, out: array<char>, cursor: ByteCursor)
    returns (r: Result<(), GenError>, ghost js: seq<nat>)
    requires Sound(sources) && |sources| == out.Length
    requires PickedSoFar(sources, out[..], cursor, |sources|) && out[..] == Picked(sources, cursor.indices)
    modifies out, cursor
    ensures cursor.indices == old(cursor.indices) + js
    ensures r.Ok? ==>
              && |js| == |sources| - 1 && Draws(sources, old(cursor.indices), js)
              && out[..] == Arrangement(sources, old(cursor.indices), js)
              && Outcome(sources, cursor.bytes) == Some(out[..])
    ensures r.Err? ==> r.error == Csprng && Outcome(sources, cursor.bytes).None?
  {
    ghost var picks := cursor.indices;
    r, js := ShuffleInPlace(out, cursor);
    if r.Ok? {
      OutcomeFound(sources, cursor.bytes, picks, js, cursor.pos);
    } else {
      OutcomeMissing(sources, cursor.bytes, RangesFrom(sources, 0));
    }
  }

  // The picks, and then the shuffle.
  method Arrange(ghost sources: seq<string>, classes: seq<string>, union: string, length: nat, bytes: seq<Byte>)
    returns (r: Result<string, GenError>, ghost picks: seq<nat>, ghost js: seq<nat>)
    requires Sound(sources) && |classes| <= |sources| == length && classes == sources[..|classes|]
    requires forall k :: |classes| <= k < length ==> sources[k] == union
    ensures if r.Ok? then
              && |js| == length - 1 && Draws(sources, picks, js)
              && r.value == Arrangement(sources, picks, js) && Outcome(sources, bytes) == Some(r.value)
            else
              r.error == Csprng && Outcome(sources, bytes) == None
  {
    js := [];
    var cursor := new ByteCursor(bytes);
    var out := new char[length];
    var done := PickAll(sources, classes, union, out, cursor);
    picks := cursor.indices;
    if done.Ok? {
      done, js := ShufflePicked(sources, out, cursor);
    }
    r := if done.Ok? then Ok(out[..]) else Err(done.error);
  }

  // The words among `bytes` that are rejected on the way to a password.
  function RejectedIn(b: PasswordBuilder, bytes: seq<Byte>): nat
    requires Usable(b)
  {
    Rejections(bytes, RangesFrom(SourcesOf(b), 0))
  }

  /** The bytes suffice exactly when they have a word for each of the 2 * length - 1 draws and for
      each word rejected. */
  lemma SufficesExactly(b: PasswordBuilder, bytes: seq<Byte>)
    requires Usable(b) && 0 < b.length
    ensures Outcome(SourcesOf(b), bytes).Some?
            <==> BYTES_PER_DRAW * (2 * b.length - 1 + RejectedIn(b, bytes)) <= |bytes|
  {
    DrawsSucceedExactly(bytes, RangesFrom(SourcesOf(b), 0));
  }

  /** The password is a function of the bytes, and running out of them is the one failure left after
      validation. It takes 2 * length - 1 draws, so the bytes run out exactly when they are too few
      for these and for the words rejected. */
  method GenerateFromBytes(b: PasswordBuilder, bytes: seq<Byte>) returns (r: Result<string, GenError>)
    requires Validate(b).Ok? ==> Usable(b)
    ensures Validate(b).Err? ==> r == Err(Validate(b).error)
    ensures Validate(b).Ok? ==>
              r == match Outcome(SourcesOf(b), bytes) case Some(password) => Ok(password) case None => Err(Csprng)
    ensures r.Ok? ==> Acceptable(b, r.value)
    ensures Validate(b).Ok? ==>
              (r.Ok? <==> BYTES_PER_DRAW * (2 * b.length - 1 + RejectedIn(b, bytes)) <= |bytes|)
  {
    var valid := Validate(b);
    if valid.Err? {
      return Err(valid.error);
    }
    ClassesSurviveFilter(b.classes, b.excludeAmbiguous);
    var union := BuildAlphabet(b.classes, b.excludeAmbiguous);
    if union == "" {
      assert false;
    }
    var classes := EnabledClasses(b.classes, b.excludeAmbiguous);
    ghost var picks, js;
    r, picks, js := Arrange(SourcesOf(b), classes, union, b.length, bytes);
    SufficesExactly(b, bytes);
    if r.Ok? {
      GeneratedIsAcceptable(b, picks, js);
    }
  }

  /* --------------------- The entropy budget --------------------- */

  function Saturated(n: nat, usizeMax: nat): nat {
    if n <= usizeMax then n else usizeMax
  }

  // How many bytes `generate` asks the system for.
  function Needed(length: nat, usizeMax: nat): nat {
    Saturated(Saturated(Saturated(length * 2, usizeMax) + OVERSAMPLE, usizeMax) * BYTES_PER_DRAW, usizeMax)
  }

  /** Unless the size of the buffer saturates, the bytes of `generate` suffice exactly when at most
      65 of their words are rejected. */
  method Generate(b: PasswordBuilder, usizeMax: nat, random: Option<seq<Byte>>)
    returns (r: Result<string, GenError>)
    requires Validate(b).Ok? ==> Usable(b)
    requires random.Some? ==> |random.value| == Needed(b.length, usizeMax)
    ensures Validate(b).Err? ==> r == Err(Validate(b).error)
    ensures Validate(b).Ok? && random.None? ==> r == Err(Csprng)
    ensures Validate(b).Ok? && random.Some? ==>
              r == match Outcome(SourcesOf(b), random.value) case Some(password) => Ok(password) case None => Err(Csprng)
    ensures r.Ok? ==> Acceptable(b, r.value)
    ensures Validate(b).Ok? && random.Some? && BYTES_PER_DRAW * (2 * b.length + OVERSAMPLE) <= usizeMax ==>
              (r.Ok? <==> RejectedIn(b, random.value) <= OVERSAMPLE + 1)
  {
    var valid := Validate(b);
    if valid.Err? {
      return Err(valid.error);
    }
    if random.None? {
      return Err(Csprng);
    }
    r := GenerateFromBytes(b, random.value);
  }

  /* --------------------- How likely each password is --------------------- */

  // The bytes pick these characters and then arrange them as `password`.
  predicate Make(sources: seq<string>, bytes: seq<Byte>, picks: seq<nat>, password: string)
    requires Sound(sources)
  {
    && Outcome(sources, bytes) == Some(password)
    && DrawAll(bytes, RangesFrom(sources, 0)).value.0[..|sources|] == picks
  }

  // The bytes that pick `picks` and arrange them as the choices `js` do.
  lemma MadeByChoices(sources: seq<string>, bytes: seq<Byte>, picks: seq<nat>, js: seq<nat>)
    requires Sound(sources) && Draws(sources, picks, js) && Distinct(Picked(sources, picks))
    ensures Drawn(picks + js, RangesFrom(sources, 0))
    ensures Make(sources, bytes, picks, Arrangement(sources, picks, js))
            <==> Give(bytes, RangesFrom(sources, 0), picks + js)
  {
    var ranges, n := RangesFrom(sources, 0), |sources|;
    DrawsAreInRange(sources, picks, js);
    if Make(sources, bytes, picks, Arrangement(sources, picks, js)) {
      var all := DrawAll(bytes, ranges).value.0;
      DrawsOfRanges(sources, all);
      ShuffleInjective(Picked(sources, picks), n - 1, all[n..], js);
      assert all == all[..n] + all[n..];
    }
    assert (picks + js)[..n] == picks && (picks + js)[n..] == js;
  }

  lemma DrawsAreInRange(sources: seq<string>, picks: seq<nat>, js: seq<nat>)
    requires Sound(sources) && Draws(sources, picks, js)
    ensures Drawn(picks + js, RangesFrom(sources, 0))
  {
    var ranges, n := RangesFrom(sources, 0), |sources|;
    forall k | 0 <= k < |ranges|
      ensures (picks + js)[k] < ranges[k]
    {
      if k < n {
        PickRangeAt(sources, 0, k);
      } else {
        ShuffleRangeAt(sources, 0, k - n);
        ChoiceInRange(js, n - 1, k - n);
      }
    }
  }

  /** All arrangements of what was picked are equally likely: for any two of them there is an
      involution on the byte strings of each length that turns the strings which pick these
      characters and arrange them one way into those which pick them and arrange them the other. */
  lemma ArrangementsAreUniform(sources: seq<string>, picks: seq<nat>, s: string, t: string)
    returns (a: seq<nat>, b: seq<nat>)
    requires Sound(sources) && |picks| == |sources| && Picks(sources, picks)
    requires Distinct(Picked(sources, picks))
    requires multiset(s) == multiset(t) == multiset(Picked(sources, picks))
    ensures var ranges := RangesFrom(sources, 0);
            && Drawn(a, ranges) && Drawn(b, ranges)
            && forall bytes: seq<Byte> :: var other := ExchangedBytes(bytes, ranges, a, b);
                 && |other| == |bytes| && ExchangedBytes(other, ranges, a, b) == bytes
                 && (Make(sources, bytes, picks, s) <==> Make(sources, other, picks, t))
  {
    var all, ranges, n := Picked(sources, picks), RangesFrom(sources, 0), |sources|;
    SameChars(all, s);
    SameChars(all, t);
    assert all[n..] == s[n..] == t[n..] == [];
    var js := ShuffleSurjective(all, n - 1, s);
    var ks := ShuffleSurjective(all, n - 1, t);
    a, b := picks + js, picks + ks;
    DrawsAreInRange(sources, picks, js);
    DrawsAreInRange(sources, picks, ks);
    forall bytes: seq<Byte>
      ensures var other := ExchangedBytes(bytes, ranges, a, b);
              && |other| == |bytes| && ExchangedBytes(other, ranges, a, b) == bytes
              && (Make(sources, bytes, picks, s) <==> Make(sources, other, picks, t))
    {
      DrawsAreUniform(bytes, ranges, a, b);
      MadeByChoices(sources, bytes, picks, js);
      MadeByChoices(sources, ExchangedBytes(bytes, ranges, a, b), picks, ks);
    }
  }
}
