/**
 * The per-line tests of the ADC log scanner: the region marker, the console
 * prompt `HW11>`, the regular expression `HW11>\s+(\d+)` searched anywhere in
 * a line, and the exact bare prompt.
 */
module LineClassifier {

  import opened Wrappers
  import opened Text

  /** The text whose presence anywhere in a stripped line starts collection. */
  const Marker: string := "analog signal acquisition"

  /** The prompt the board echoes before each command. */
  const Prompt: string := "HW11>"

  /** A stripped line that contains the marker. The text of `Marker` is
      written out as a literal here: the verifier then treats it as a
      constant value, which keeps proofs about classified lines small. */
  predicate IsMarker(t: string) {
    Contains(t, "analog signal acquisition")
  }

  /** `IsMarker` is the substring test for `Marker`. */
  lemma IsMarkerContainsMarker(t: string)
    ensures IsMarker(t) <==> Contains(t, Marker)
  {
  }

  /** An attempt to match `HW11>\s+(\d+)` starting exactly at position `i`:
      the prompt, a maximal run of at least one whitespace character, then a
      maximal run of at least one digit, whose value is the captured group.
      Greedy `\s+` cannot give back a character and still reach a digit, so
      the maximal runs are the only way the pattern can match here. */
  function MatchAt(s: string, i: nat): (r: Option<nat>)
    requires i <= |s|
    ensures r.Some? ==> StartsWith(s[i..], Prompt)
  {
    if StartsWith(s[i..], Prompt) then
      var rest := s[i + |Prompt|..];
      var w := SpaceRun(rest);
      var d := DigitRun(rest[w..]);
      assert rest[w..w + d] == rest[w..][..d];
      if w >= 1 && d >= 1 then Some(DigitsValue(rest[w..w + d])) else None
    else None
  }

  /** `re.search`: the leftmost position at or after `from` where the pattern
      matches, or `None` when it matches nowhere from there on. */
  function FindPrompt(s: string, from: nat): (r: Option<nat>)
    requires from <= |s|
    ensures r.Some? ==> from <= r.value <= |s| && MatchAt(s, r.value).Some?
    ensures r.Some? ==> forall k :: from <= k < r.value ==> MatchAt(s, k).None?
    ensures r.None? ==> forall k :: from <= k <= |s| ==> MatchAt(s, k).None?
    decreases |s| - from
  {
    if MatchAt(s, from).Some? then Some(from)
    else if from == |s| then None
    else FindPrompt(s, from + 1)
  }

  /** The captured digits of `re.search(r'HW11>\s+(\d+)', s)`, as `int()` reads
      them, or `None` when the search fails. */
  function SearchPrompt(s: string): Option<nat> {
    match FindPrompt(s, 0)
    case Some(i) => MatchAt(s, i)
    case None => None
  }

  /** The search succeeds exactly when the pattern matches at some position,
      and then it captures the value of the leftmost match. */
  lemma SearchPromptIff(s: string)
    ensures SearchPrompt(s).Some? <==> exists k :: 0 <= k <= |s| && MatchAt(s, k).Some?
    ensures SearchPrompt(s).Some? ==>
      exists k :: 0 <= k <= |s| && MatchAt(s, k) == SearchPrompt(s) &&
        forall j :: 0 <= j < k ==> MatchAt(s, j).None?
  {
    match FindPrompt(s, 0)
    case Some(i) =>
      assert MatchAt(s, i) == SearchPrompt(s);
    case None =>
  }

  /** The pattern matches at position 0 of a prompt, a non-empty whitespace
      run, a non-empty digit run and any tail that does not continue the
      digits: the value is that of the digits, whatever the tail holds. */
  lemma PromptValueIgnoresTail(ws: string, ds: string, tail: string)
    requires ws != [] && AllSpaces(ws)
    requires ds != [] && AllDigits(ds)
    requires tail == [] || !IsDigit(tail[0])
    ensures SearchPrompt(Prompt + ws + ds + tail) == Some(DigitsValue(ds))
  {
    var s := Prompt + ws + ds + tail;
    MatchAtPromptStart(s, ws + ds + tail);
    var rest := ws + ds + tail;
    assert rest == ws + (ds + tail);
    SpaceRunOf(ws, ds + tail);
    assert rest[|ws|..] == ds + tail;
    DigitRunOf(ds, tail);
    assert rest[|ws|..|ws| + |ds|] == ds;
    assert MatchAt(s, 0) == Some(DigitsValue(ds));
  }

  /** A string that starts with the prompt is matched at 0 on what follows it. */
  lemma MatchAtPromptStart(s: string, rest: string)
    requires s == Prompt + rest
    ensures StartsWith(s[0..], Prompt) && s[|Prompt|..] == rest
  {
    assert s[0..] == s;
    assert s[..|Prompt|] == Prompt;
  }

  /** The text after the prompt that `\s+(\d+)` needs: at least one
      whitespace character, at least one digit, and a tail that does not
      continue the digits. */
  predicate SpacedDigits(ws: string, ds: string, tail: string) {
    ws != [] && AllSpaces(ws) && ds != [] && AllDigits(ds) && (tail == [] || !IsDigit(tail[0]))
  }

  /** The pattern `HW11>\s+(\d+)` read off the text: from position `i` the
      line is the prompt, whitespace, digits worth `v`, and a tail. */
  ghost predicate PatternAt(s: string, i: nat, v: nat)
    requires i <= |s|
  {
    exists ws, ds, tail :: SpacedDigits(ws, ds, tail) && s[i..] == Prompt + ws + ds + tail && v == DigitsValue(ds)
  }

  /** A match found at a position has the shape of the pattern there. */
  lemma MatchAtShape(s: string, i: nat)
    requires i <= |s|
    ensures MatchAt(s, i).Some? ==> PatternAt(s, i, MatchAt(s, i).value)
  {
    if MatchAt(s, i).Some? {
      var ws, ds, tail := MatchedParts(s, i);
      PatternWitness(s, i, ws, ds, tail);
      ShapeMatchAt(s, i, ws, ds, tail);
    }
  }

  /** The whitespace run, the digit run and the tail that a match reads
      after the prompt. */
  lemma MatchedParts(s: string, i: nat) returns (ws: string, ds: string, tail: string)
    requires i <= |s| && MatchAt(s, i).Some?
    ensures SpacedDigits(ws, ds, tail) && s[i..] == Prompt + ((ws + ds) + tail)
  {
    PromptThenRest(s, i);
    ws, ds, tail := RunsAfterPrompt(s[i + |Prompt|..]);
  }

  /** A text that starts with the prompt is the prompt and what follows. */
  lemma PromptThenRest(s: string, i: nat)
    requires i <= |s| && StartsWith(s[i..], Prompt)
    ensures s[i..] == Prompt + s[i + |Prompt|..]
  {
    assert s[i..] == s[i..][..|Prompt|] + s[i..][|Prompt|..];
  }

  /** The whitespace run and the digit run read after the prompt, when both
      are non-empty, and what is left after them. */
  lemma RunsAfterPrompt(rest: string) returns (ws: string, ds: string, tail: string)
    requires SpaceRun(rest) >= 1 && DigitRun(rest[SpaceRun(rest)..]) >= 1
    ensures SpacedDigits(ws, ds, tail) && rest == (ws + ds) + tail
  {
    var w := SpaceRun(rest);
    var d := DigitRun(rest[w..]);
    ws, ds, tail := rest[..w], rest[w..w + d], rest[w + d..];
    assert ds == rest[w..][..d];
    assert tail == rest[w..][d..];
    assert rest == (ws + ds) + tail;
  }

  /** A shape that the text has is a witness of the pattern. */
  lemma PatternWitness(s: string, i: nat, ws: string, ds: string, tail: string)
    requires i <= |s| && SpacedDigits(ws, ds, tail) && s[i..] == Prompt + ((ws + ds) + tail)
    ensures PatternAt(s, i, DigitsValue(ds)) && s[i..] == Prompt + ws + ds + tail
  {
    assert Prompt + ((ws + ds) + tail) == Prompt + ws + ds + tail;
  }

  /** Conversely, wherever the line has the shape of the pattern, the match
      at that position captures the value of its digits. */
  lemma ShapeMatchAt(s: string, i: nat, ws: string, ds: string, tail: string)
    requires i <= |s| && SpacedDigits(ws, ds, tail) && s[i..] == Prompt + ws + ds + tail
    ensures MatchAt(s, i) == Some(DigitsValue(ds))
  {
    var rest := ws + ds + tail;
    assert s[i..][..|Prompt|] == Prompt;
    assert s[i + |Prompt|..] == s[i..][|Prompt|..] == rest;
    RunsOfShape(ws, ds, tail);
  }

  /** The runs `MatchAt` reads after the prompt are exactly the whitespace
      and the digits of the shape. */
  lemma RunsOfShape(ws: string, ds: string, tail: string)
    requires SpacedDigits(ws, ds, tail)
    ensures var rest := ws + ds + tail;
      SpaceRun(rest) == |ws| && DigitRun(rest[|ws|..]) == |ds| && rest[|ws|..|ws| + |ds|] == ds
  {
    var rest := ws + ds + tail;
    assert rest == ws + (ds + tail);
    SpaceRunOf(ws, ds + tail);
    assert rest[|ws|..] == ds + tail;
    DigitRunOf(ds, tail);
  }

  /** A prompt followed by text in which the pattern cannot start a value
      (no whitespace run ending in a digit) and no second prompt: the search
      finds nothing. */
  lemma NoValueAfterPrompt(tail: string)
    requires !StartsWithSpacedDigit(tail)
    requires !Contains(tail, Prompt)
    ensures SearchPrompt(Prompt + tail).None?
  {
    var s := Prompt + tail;
    MatchAtPromptStart(s, tail);
    ContainsIff(tail, Prompt);
    forall k | 0 < k <= |s| ensures MatchAt(s, k).None? {
      NoLaterPrompt(tail, k);
    }
    assert FindPrompt(s, 0) == FindPrompt(s, 1);
  }

  /** `t` begins with at least one whitespace character followed by a digit. */
  predicate StartsWithSpacedDigit(t: string) {
    var w := SpaceRun(t);
    w >= 1 && w < |t| && IsDigit(t[w])
  }

  lemma NoLaterPrompt(tail: string, k: nat)
    requires 0 < k <= |Prompt| + |tail|
    requires forall i :: !OccursAt(tail, Prompt, i)
    ensures !StartsWith((Prompt + tail)[k..], Prompt)
  {
    var s := Prompt + tail;
    if k < |Prompt| {
      // the prompt does not overlap itself: its only 'H' is its first character
      assert s[k..][0] == Prompt[k] != Prompt[0];
    } else {
      // past the prompt, a match would be an occurrence in the tail
      var j := k - |Prompt|;
      assert s[k..] == tail[j..];
      assert !OccursAt(tail, Prompt, j);
      if j + |Prompt| <= |tail| {
        assert tail[j..][..|Prompt|] == tail[j..j + |Prompt|];
      }
    }
  }

  /** The bare prompt carries no value for the pattern. */
  lemma BarePromptHasNoValue()
    ensures SearchPrompt(Prompt).None?
  {
    assert Prompt[|Prompt|..] == [];
    forall k | 0 < k <= |Prompt| ensures MatchAt(Prompt, k).None? {
      assert |Prompt[k..]| < |Prompt|;
    }
  }

  /** The marker starts with an `a`, so a line without one has no marker. */
  lemma NoMarkerWithoutA(t: string)
    requires forall k :: 0 <= k < |t| ==> t[k] != 'a'
    ensures !IsMarker(t)
  {
    forall i | 0 <= i <= |t| - |Marker| ensures !OccursAt(t, Marker, i) {
      assert t[i..i + |Marker|][0] == t[i];
    }
    ContainsIff(t, Marker);
  }

  /** An integer literal has neither the marker nor the prompt in it. */
  lemma ParsedIsNeitherMarkerNorPrompt(t: string)
    requires ParseInt(t).Some?
    ensures !IsMarker(t) && !StartsWith(t, Prompt)
  {
    forall k | 0 <= k < |t| ensures IsDigit(t[k]) || t[k] == '+' || t[k] == '-' {
      if k > 0 && !IsDigit(t[0]) {
        assert t[k] == t[1..][k - 1];
      }
    }
    NoMarkerWithoutA(t);
  }

  /** A stripped line that is exactly the prompt (the source strips it once more). */
  predicate IsBarePrompt(t: string) {
    Strip(t) == Prompt
  }

  /** A prompt echo that ends collection: it starts with the prompt, the
      pattern finds no value in it, and it is not the bare prompt. */
  predicate IsTerminator(t: string) {
    StartsWith(t, Prompt) && SearchPrompt(t).None? && !IsBarePrompt(t)
  }

  /** The second `strip()` of the bare-prompt test changes nothing: a
      stripped log line passes it exactly when it is the prompt itself. */
  lemma StrippedBarePromptIff(line: string)
    ensures IsBarePrompt(Strip(line)) <==> Strip(line) == Prompt
  {
    StripIdempotent(line);
  }

  /** A stripped log line ends collection exactly when it starts with the
      prompt, the pattern matches at no position of it, and it is not the
      prompt alone. */
  lemma TerminatorIff(line: string)
    ensures var t := Strip(line);
      IsTerminator(t) <==>
        StartsWith(t, Prompt) && (forall k :: 0 <= k <= |t| ==> MatchAt(t, k).None?) && t != Prompt
  {
    StrippedBarePromptIff(line);
    SearchPromptIff(Strip(line));
  }

  /** What a stripped line is to the scanner. */
  datatype LineKind =
    | RegionStart                   // contains the marker
    | PromptWithoutValue            // a prompt echo that ends collection
    | BarePrompt                    // exactly the prompt
    | PromptWithValue(digits: nat)  // a prompt echo the pattern takes a value from
    | Integer(value: int)           // a whole-line integer literal
    | Noise                         // anything else

  /** The kind of a stripped line, decided in the order the loop body tests
      it: the marker first, then the prompt without a value, then the prompt
      with a value, then `int()` on the whole line. */
  function Classify(t: string): (k: LineKind)
    ensures k == RegionStart <==> IsMarker(t)
    ensures k == PromptWithoutValue <==> !IsMarker(t) && IsTerminator(t)
    ensures k.PromptWithValue? ==> !IsMarker(t) && StartsWith(t, Prompt) && SearchPrompt(t) == Some(k.digits)
    ensures k.Integer? ==> !IsMarker(t) && !StartsWith(t, Prompt) && ParseInt(t) == Some(k.value)
    ensures k == Noise ==> !IsMarker(t) && !StartsWith(t, Prompt) && ParseInt(t).None?
    ensures k == BarePrompt <==> !IsMarker(t) && StartsWith(t, Prompt) && SearchPrompt(t).None? && IsBarePrompt(t)
    ensures !IsMarker(t) && StartsWith(t, Prompt) && SearchPrompt(t).Some? ==> k == PromptWithValue(SearchPrompt(t).value)
    ensures !IsMarker(t) && !StartsWith(t, Prompt) ==>
              k == (if ParseInt(t).Some? then Integer(ParseInt(t).value) else Noise)
  {
    if IsMarker(t) then RegionStart
    else if StartsWith(t, Prompt) && SearchPrompt(t).None? then
      if Strip(t) != Prompt then PromptWithoutValue else BarePrompt
    else if StartsWith(t, Prompt) then PromptWithValue(SearchPrompt(t).value)
    else
      match ParseInt(t)
      case Some(v) => Integer(v)
      case None => Noise
  }

  /** A prompt echo the pattern finds a value in is classified by that value. */
  lemma ClassifyPromptWithValue(t: string, v: nat)
    requires !IsMarker(t) && StartsWith(t, Prompt) && SearchPrompt(t) == Some(v)
    ensures Classify(t) == PromptWithValue(v)
  {
  }

  /** The bare prompt is its own kind: what the source lets fall through
      the prompt tests and `int()` without effect. */
  lemma ClassifyBarePrompt()
    ensures Classify(Prompt) == BarePrompt
  {
    StripUnchanged(Prompt);
    BarePromptHasNoValue();
  }

  /** The sample a line of this kind carries, if any. */
  function KindValue(k: LineKind): Option<int> {
    match k
    case PromptWithValue(v) => Some(v)
    case Integer(v) => Some(v)
    case _ => None
  }
}
