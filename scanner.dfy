/**
 * The ADC log scanner `parse_adc_data`: one pass over the lines of a console
 * log, driven by the single flag `collecting`, that gathers the integer
 * samples of the acquisition region(s).
 */
module RegionScanner {

  import opened Wrappers
  import opened Text
  import opened LineClassifier

  /** What one line does: the flag after it, and the sample it appends. */
  datatype StepResult = StepResult(collecting: bool, emitted: Option<int>)

  /** One iteration of the loop body on a line of kind `k`: the marker test
      is not guarded by the flag, every other test is. */
  function Transition(k: LineKind, collecting: bool): (r: StepResult)
    // a marker line turns collection on whatever the flag was, and appends nothing
    ensures k == RegionStart ==> r == StepResult(true, None)
    // outside a region nothing but a marker line has any effect
    ensures k != RegionStart && !collecting ==> r == StepResult(false, None)
    // inside a region a line appends exactly the value it carries, and only
    // a prompt echo without a value ends the region
    ensures k != RegionStart && collecting ==>
              r.emitted == KindValue(k) && (r.collecting <==> k != PromptWithoutValue)
  {
    match k
    case RegionStart => StepResult(true, None)
    case _ =>
      if !collecting then StepResult(false, None)
      else
        match k
        case PromptWithoutValue => StepResult(false, None)
        case PromptWithValue(v) => StepResult(true, Some(v))
        case Integer(v) => StepResult(true, Some(v))
        case _ => StepResult(true, None)
  }

  /** The samples a step appends: none or one. */
  function Emitted(r: StepResult): seq<int> {
    if r.emitted.Some? then [r.emitted.value] else []
  }

  /** The samples appended by a run of lines of kinds `ks`, starting with the
      flag `collecting`. Each line appends at most one sample. */
  function Run(ks: seq<LineKind>, collecting: bool): (out: seq<int>)
    ensures |out| <= |ks|
  {
    if ks == [] then []
    else
      var r := Transition(ks[0], collecting);
      Emitted(r) + Run(ks[1..], r.collecting)
  }

  /** The flag after a run of lines of kinds `ks`. */
  function Final(ks: seq<LineKind>, collecting: bool): bool {
    if ks == [] then collecting else Final(ks[1..], Transition(ks[0], collecting).collecting)
  }

  /** The kind of every line, once stripped. */
  function Kinds(lines: seq<string>): (ks: seq<LineKind>)
    ensures |ks| == |lines|
  {
    if lines == [] then [] else [Classify(Strip(lines[0]))] + Kinds(lines[1..])
  }

  /** The kind of line `i` is what `Classify` makes of it. */
  lemma {:induction false} KindAt(lines: seq<string>, i: nat)
    requires i < |lines|
    ensures Kinds(lines)[i] == Classify(Strip(lines[i]))
  {
    if i > 0 {
      KindAt(lines[1..], i - 1);
      assert lines[1..][i - 1] == lines[i];
    }
  }

  /** The reference semantics of `parse_adc_data`: the samples the lines of
      the log append, starting with the flag `collecting`. */
  function Scan(lines: seq<string>, collecting: bool): (out: seq<int>)
    ensures |out| <= |lines|
  {
    Run(Kinds(lines), collecting)
  }

  /** The loop invariant of `ParseAdcData`: the samples gathered from the
      first `i` lines, followed by what the remaining lines append from the
      current flag, are the samples of the whole log. */
  ghost predicate ScannedUpTo(ks: seq<LineKind>, i: nat, collecting: bool, acc: seq<int>)
    requires i <= |ks|
  {
    acc + Run(ks[i..], collecting) == Run(ks, false)
  }

  /** Appending what line `i` appends moves the scan on by one line. */
  lemma Advance(ks: seq<LineKind>, i: nat, collecting: bool, acc: seq<int>)
    requires i < |ks| && ScannedUpTo(ks, i, collecting, acc)
    ensures var r := Transition(ks[i], collecting);
            ScannedUpTo(ks, i + 1, r.collecting, acc + Emitted(r))
  {
    assert ks[i..][1..] == ks[i + 1..];
    var r := Transition(ks[i], collecting);
    assert acc + Emitted(r) + Run(ks[i + 1..], r.collecting) == acc + Run(ks[i..], collecting);
  }

  /** A marker line turns collection on. */
  lemma StepMarker(lines: seq<string>, i: nat, collecting: bool, acc: seq<int>)
    requires i < |lines| && ScannedUpTo(Kinds(lines), i, collecting, acc)
    requires Contains(Strip(lines[i]), Marker)
    ensures ScannedUpTo(Kinds(lines), i + 1, true, acc)
  {
    KindAt(lines, i);
    Advance(Kinds(lines), i, collecting, acc);
    assert acc + [] == acc;
  }

  /** While collecting, a prompt echo without a value that is not the bare
      prompt turns collection off. */
  lemma StepStop(lines: seq<string>, i: nat, acc: seq<int>)
    requires i < |lines| && ScannedUpTo(Kinds(lines), i, true, acc)
    requires var t := Strip(lines[i]);
      !Contains(t, Marker) && StartsWith(t, Prompt) && SearchPrompt(t).None? && Strip(t) != Prompt
    ensures ScannedUpTo(Kinds(lines), i + 1, false, acc)
  {
    KindAt(lines, i);
    Advance(Kinds(lines), i, true, acc);
    assert acc + [] == acc;
  }

  /** While collecting, a prompt echo the pattern matches appends its value. */
  lemma StepPromptValue(lines: seq<string>, i: nat, acc: seq<int>, v: nat)
    requires i < |lines| && ScannedUpTo(Kinds(lines), i, true, acc)
    requires var t := Strip(lines[i]);
      !Contains(t, Marker) && StartsWith(t, Prompt) && SearchPrompt(t) == Some(v)
    ensures ScannedUpTo(Kinds(lines), i + 1, true, acc + [v])
  {
    KindAt(lines, i);
    Advance(Kinds(lines), i, true, acc);
  }

  /** While collecting, a line `int()` accepts appends its value. */
  lemma StepInteger(lines: seq<string>, i: nat, acc: seq<int>, v: int)
    requires i < |lines| && ScannedUpTo(Kinds(lines), i, true, acc)
    requires var t := Strip(lines[i]);
      !Contains(t, Marker) && ParseInt(t) == Some(v)
    ensures ScannedUpTo(Kinds(lines), i + 1, true, acc + [v])
  {
    ParsedIsNeitherMarkerNorPrompt(Strip(lines[i]));
    KindAt(lines, i);
    Advance(Kinds(lines), i, true, acc);
  }

  /** While collecting, the bare prompt and lines `int()` rejects change
      nothing. */
  lemma StepSkip(lines: seq<string>, i: nat, acc: seq<int>)
    requires i < |lines| && ScannedUpTo(Kinds(lines), i, true, acc)
    requires var t := Strip(lines[i]);
      && !Contains(t, Marker) && ParseInt(t).None?
      && (!StartsWith(t, Prompt) || (SearchPrompt(t).None? && Strip(t) == Prompt))
    ensures ScannedUpTo(Kinds(lines), i + 1, true, acc)
  {
    KindAt(lines, i);
    Advance(Kinds(lines), i, true, acc);
    assert acc + [] == acc;
  }

  /** Outside a region a line without the marker changes nothing. */
  lemma StepIdle(lines: seq<string>, i: nat, acc: seq<int>)
    requires i < |lines| && ScannedUpTo(Kinds(lines), i, false, acc)
    requires !Contains(Strip(lines[i]), Marker)
    ensures ScannedUpTo(Kinds(lines), i + 1, false, acc)
  {
    KindAt(lines, i);
    Advance(Kinds(lines), i, false, acc);
    assert acc + [] == acc;
  }

  /** `parse_adc_data` on the lines of the file, already read: the loop with
      its flag, its appends and its `continue`s. */
  method ParseAdcData(lines: seq<string>) returns (adcData: seq<int>)
    ensures adcData == Scan(lines, false)
  {
    adcData := [];
    var collecting := false;
    assert Kinds(lines)[0..] == Kinds(lines);
    for i := 0 to |lines|
      invariant ScannedUpTo(Kinds(lines), i, collecting, adcData)
    {
      var line := Strip(lines[i]);

      if Contains(line, Marker) {
        StepMarker(lines, i, collecting, adcData);
        collecting := true;
        continue;
      }

      if collecting && StartsWith(line, Prompt) && SearchPrompt(line).None? {
        if !(Strip(line) == Prompt) {
          StepStop(lines, i, adcData);
          collecting := false;
          continue;
        }
      }

      if collecting && StartsWith(line, Prompt) {
        var found := SearchPrompt(line);
        if found.Some? {
          StepPromptValue(lines, i, adcData, found.value);
          adcData := adcData + [found.value];
          continue;
        }
      }

      if collecting {
        var value := ParseInt(line);
        if value.Some? {
          StepInteger(lines, i, adcData, value.value);
          adcData := adcData + [value.value];
        } else {
          StepSkip(lines, i, adcData);
        }
      } else {
        StepIdle(lines, i, adcData);
      }
    }
    assert Kinds(lines)[|lines|..] == [];
  }
}
