/**
 * Concrete logs and what the scan makes of them.
 */
module ScanExamples {

  import opened Wrappers
  import opened Text
  import opened LineClassifier
  import opened RegionScanner
  import opened ScannerProperties

  /** A line with no marker, no prompt and no integer. */
  lemma ClassifyWord(t: string)
    requires t != [] && !IsSpace(t[0]) && !IsSpace(t[|t| - 1])
    requires |t| < |Marker| && 'a' <= t[0] <= 'z'
    ensures Classify(Strip(t)) == Noise
  {
    StripUnchanged(t);
    NotMarkerShort(t);
    assert !StartsWith(t, Prompt) by {
      assert t[0] != Prompt[0];
    }
    assert ParseInt(t).None? by {
      assert !IsDigit(t[0]);
    }
  }

  /** A line made of a whole marker between other text. */
  lemma ClassifyMarkerLine(before: string, after: string)
    requires before == [] || !IsSpace(before[0])
    requires after == [] || !IsSpace(after[|after| - 1])
    ensures Classify(Strip(before + Marker + after)) == RegionStart
  {
    var t := before + Marker + after;
    StripUnchanged(t);
    assert t[|before|..|before| + |Marker|] == Marker;
    assert OccursAt(t, Marker, |before|);
    ContainsIff(t, Marker);
  }

  /** `HW11> ` followed by the decimal spelling of `n`. */
  lemma ClassifyPromptValue(n: nat)
    ensures Classify(Strip(Prompt + " " + NatDigits(n))) == PromptWithValue(n)
  {
    var ds := NatDigits(n);
    var t := Prompt + " " + ds;
    assert t[|t| - 1] == ds[|ds| - 1];
    StripUnchanged(t);
    PromptDigitsValue(ds);
    NatDigitsValue(n);
    assert t[..|Prompt|] == Prompt;
    PromptDigitsNoMarker(ds);
    ClassifyPromptWithValue(t, n);
  }

  lemma PromptDigitsValue(ds: string)
    requires ds != [] && AllDigits(ds)
    ensures SearchPrompt(Prompt + " " + ds) == Some(DigitsValue(ds))
  {
    PromptValueIgnoresTail(" ", ds, "");
    assert Prompt + " " + ds + "" == Prompt + " " + ds;
  }

  lemma PromptDigitsNoMarker(ds: string)
    requires AllDigits(ds)
    ensures !IsMarker(Prompt + " " + ds)
  {
    var t := Prompt + " " + ds;
    assert forall k :: 0 <= k < |t| ==> t[k] != 'a' by {
      assert forall k :: |Prompt| + 1 <= k < |t| ==> t[k] == ds[k - |Prompt| - 1];
    }
    NoMarkerWithoutA(t);
  }

  /** A line that is the decimal spelling of `v`. */
  lemma ClassifyInteger(v: int)
    ensures Classify(Strip(FormatInt(v))) == Integer(v)
  {
    var t := FormatInt(v);
    assert IsDigit(t[|t| - 1]) by {
      if v < 0 { assert t[|t| - 1] == NatDigits(-v)[|NatDigits(-v)| - 1]; }
    }
    StripUnchanged(t);
    ParseFormatRoundTrip(v);
    ParsedIsNeitherMarkerNorPrompt(t);
  }

  /** A string shorter than the marker cannot contain it. */
  lemma NotMarkerShort(t: string)
    requires |t| < |Marker|
    ensures !IsMarker(t)
  {
  }

  /** `HW11> ` followed by a word: a prompt echo without a value. */
  lemma ClassifyPromptWord()
    ensures Classify(Strip(Prompt + " done")) == PromptWithoutValue
  {
    var t := Prompt + " done";
    StripUnchanged(t);
    assert SpaceRun(" done") == 1 by {
      assert " done"[1..] == "done";
    }
    assert " done"[1] == 'd';
    NoValueAfterPrompt(" done");
    assert t[..|Prompt|] == Prompt;
    NotMarkerShort(t);
  }

  /** A word of console noise: lower-case first letter, shorter than the
      marker, no whitespace at either end. */
  predicate NoiseWord(w: string) {
    w != [] && !IsSpace(w[0]) && !IsSpace(w[|w| - 1]) && |w| < |Marker| && 'a' <= w[0] <= 'z'
  }

  /** The shape of the log from the acquisition run: a noise word, the
      marker, a prompt echo with the value `a`, the bare value `b`, a bare
      prompt, the bare value `c`, the prompt echo `HW11> done`, and the bare
      value `d`. */
  function AcquisitionLines(noise: string, a: nat, b: int, c: int, d: int): seq<string> {
    [noise, "..." + Marker + "..."] + [Prompt + " " + NatDigits(a), FormatInt(b)]
      + [Prompt, FormatInt(c)] + [Prompt + " done", FormatInt(d)]
  }

  /** The kind of every line of the acquisition log. */
  lemma AcquisitionKinds(noise: string, a: nat, b: int, c: int, d: int)
    requires NoiseWord(noise)
    ensures Kinds(AcquisitionLines(noise, a, b, c, d))
         == [Noise, RegionStart, PromptWithValue(a), Integer(b),
             BarePrompt, Integer(c), PromptWithoutValue, Integer(d)]
  {
    var p1, p2 := [noise, "..." + Marker + "..."], [Prompt + " " + NatDigits(a), FormatInt(b)];
    var p3, p4 := [Prompt, FormatInt(c)], [Prompt + " done", FormatInt(d)];
    PreambleKinds(noise);
    FirstValuesKinds(a, b);
    BarePromptKinds(c);
    StopKinds(d);
    KindsOfFourParts(p1, p2, p3, p4, [Noise, RegionStart], [PromptWithValue(a), Integer(b)],
                     [BarePrompt, Integer(c)], [PromptWithoutValue, Integer(d)]);
    AcquisitionKindsJoin(a, b, c, d);
  }

  lemma AcquisitionKindsJoin(a: nat, b: int, c: int, d: int)
    ensures [Noise, RegionStart] + [PromptWithValue(a), Integer(b)] + [BarePrompt, Integer(c)]
              + [PromptWithoutValue, Integer(d)]
         == [Noise, RegionStart, PromptWithValue(a), Integer(b),
             BarePrompt, Integer(c), PromptWithoutValue, Integer(d)]
  {
  }

  /** The kinds of a log in four parts whose kinds are known. */
  lemma KindsOfFourParts(p1: seq<string>, p2: seq<string>, p3: seq<string>, p4: seq<string>,
                         k1: seq<LineKind>, k2: seq<LineKind>, k3: seq<LineKind>, k4: seq<LineKind>)
    requires Kinds(p1) == k1 && Kinds(p2) == k2 && Kinds(p3) == k3 && Kinds(p4) == k4
    ensures Kinds(p1 + p2 + p3 + p4) == k1 + k2 + k3 + k4
  {
    KindsAppend(p1, p2);
    KindsAppend(p1 + p2, p3);
    KindsAppend(p1 + p2 + p3, p4);
  }

  lemma PreambleKinds(noise: string)
    requires NoiseWord(noise)
    ensures Kinds([noise, "..." + Marker + "..."]) == [Noise, RegionStart]
  {
    ClassifyWord(noise);
    ClassifyMarkerLine("...", "...");
    KindsOfTwo(noise, "..." + Marker + "...", Noise, RegionStart);
  }

  lemma FirstValuesKinds(a: nat, b: int)
    ensures Kinds([Prompt + " " + NatDigits(a), FormatInt(b)]) == [PromptWithValue(a), Integer(b)]
  {
    ClassifyPromptValue(a);
    ClassifyInteger(b);
    KindsOfTwo(Prompt + " " + NatDigits(a), FormatInt(b), PromptWithValue(a), Integer(b));
  }

  lemma BarePromptKinds(c: int)
    ensures Kinds([Prompt, FormatInt(c)]) == [BarePrompt, Integer(c)]
  {
    ClassifyBarePrompt();
    assert Strip(Prompt) == Prompt by { StripUnchanged(Prompt); }
    ClassifyInteger(c);
    KindsOfTwo(Prompt, FormatInt(c), BarePrompt, Integer(c));
  }

  lemma StopKinds(d: int)
    ensures Kinds([Prompt + " done", FormatInt(d)]) == [PromptWithoutValue, Integer(d)]
  {
    ClassifyPromptWord();
    ClassifyInteger(d);
    KindsOfTwo(Prompt + " done", FormatInt(d), PromptWithoutValue, Integer(d));
  }

  /** Two lines whose kinds are known one by one. */
  lemma KindsOfTwo(l0: string, l1: string, k0: LineKind, k1: LineKind)
    requires Classify(Strip(l0)) == k0 && Classify(Strip(l1)) == k1
    ensures Kinds([l0, l1]) == [k0, k1]
  {
    KindAt([l0, l1], 0);
    KindAt([l0, l1], 1);
  }

  /** The bare prompt does not end the region, so `c` is taken; the prompt
      echo `HW11> done` does, so `d` is not. With 10, 20, 30 and 99 this is
      the log "noise", "...analog signal acquisition...", "HW11> 10", "20",
      "HW11>", "30", "HW11> done", "99", and the samples are 10, 20, 30. */
  lemma AcquisitionLog(noise: string, a: nat, b: int, c: int, d: int)
    requires NoiseWord(noise)
    ensures Scan(AcquisitionLines(noise, a, b, c, d), false) == [a, b, c]
  {
    AcquisitionKinds(noise, a, b, c, d);
    AcquisitionRun(a, b, c, d);
  }

  /** The acquisition log written out with the values 10, 20, 30 and 99. */
  lemma AcquisitionExample()
    ensures Scan(["noise", "...analog signal acquisition...", "HW11> 10", "20",
                  "HW11>", "30", "HW11> done", "99"], false) == [10, 20, 30]
  {
    ExampleNoise();
    ExampleLines();
    AcquisitionLog("noise", 10, 20, 30, 99);
  }

  lemma ExampleNoise()
    ensures NoiseWord("noise")
  {
  }

  /** The lines of the acquisition log with the values 10, 20, 30 and 99. */
  lemma ExampleLines()
    ensures AcquisitionLines("noise", 10, 20, 30, 99)
         == ["noise", "...analog signal acquisition...", "HW11> 10", "20",
             "HW11>", "30", "HW11> done", "99"]
  {
    ExampleSpellings();
    ExampleEchoes();
  }

  /** The decimal spellings of the example values. */
  lemma ExampleSpellings()
    ensures NatDigits(10) == "10"
    ensures FormatInt(20) == "20" && FormatInt(30) == "30" && FormatInt(99) == "99"
  {
    assert NatDigits(10) == NatDigits(1) + [DigitChar(0)];
  }

  /** The marker line and the prompt echoes of the example log. */
  lemma ExampleEchoes()
    ensures "..." + Marker + "..." == "...analog signal acquisition..."
    ensures Prompt + " " + "10" == "HW11> 10" && Prompt + " done" == "HW11> done"
  {
  }

  /** The walk over the kinds of the acquisition log. */
  lemma AcquisitionRun(a: nat, b: int, c: int, d: int)
    ensures Run([Noise, RegionStart, PromptWithValue(a), Integer(b),
                 BarePrompt, Integer(c), PromptWithoutValue, Integer(d)], false) == [a, b, c]
  {
    var stop := [PromptWithoutValue, Integer(d)];
    var region := [PromptWithValue(a), Integer(b), BarePrompt, Integer(c)] + stop;
    AcquisitionStop(d);
    AcquisitionRegion(a, b, c, stop);
    RunCons(Noise, [RegionStart] + region, false);
    RunCons(RegionStart, region, false);
    assert [Noise] + ([RegionStart] + region)
        == [Noise, RegionStart, PromptWithValue(a), Integer(b),
            BarePrompt, Integer(c), PromptWithoutValue, Integer(d)];
  }

  /** `HW11> done` ends the region: `d` is not taken. */
  lemma AcquisitionStop(d: int)
    ensures Run([PromptWithoutValue, Integer(d)], true) == []
  {
    RunCons(PromptWithoutValue, [Integer(d)], true);
    RunCons(Integer(d), [], false);
  }

  /** Inside the region `a`, `b` and `c` are taken; the bare prompt is not
      an end. */
  lemma AcquisitionRegion(a: nat, b: int, c: int, rest: seq<LineKind>)
    ensures Run([PromptWithValue(a), Integer(b), BarePrompt, Integer(c)] + rest, true)
         == [a, b, c] + Run(rest, true)
  {
    var r3 := [Integer(c)] + rest;
    var r2 := [BarePrompt] + r3;
    var r1 := [Integer(b)] + r2;
    RunCons(Integer(c), rest, true);
    RunCons(BarePrompt, r3, true);
    RunCons(Integer(b), r2, true);
    RunCons(PromptWithValue(a), r1, true);
    assert [PromptWithValue(a), Integer(b), BarePrompt, Integer(c)] + rest == [PromptWithValue(a)] + r1;
  }

  /** One step of the walk. */
  lemma RunCons(k: LineKind, rest: seq<LineKind>, collecting: bool)
    ensures Run([k] + rest, collecting)
         == Emitted(Transition(k, collecting)) + Run(rest, Transition(k, collecting).collecting)
  {
    assert ([k] + rest)[1..] == rest;
  }
}
