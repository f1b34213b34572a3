/**
 * What the scan promises over whole logs: where samples can come from, how a
 * region starts and ends, and which lines contribute which values.
 */
module ScannerProperties {

  import opened Wrappers
  import opened Text
  import opened LineClassifier
  import opened RegionScanner

  // ------------------------------------------------------------ line lists

  /** The kinds of a log whose first line is `line`. */
  lemma KindsCons(line: string, rest: seq<string>)
    ensures Kinds([line] + rest) == [Classify(Strip(line))] + Kinds(rest)
  {
    KindAt([line], 0);
    KindsAppend([line], rest);
  }

  /** The kinds of two logs one after the other. */
  lemma KindsAppend(a: seq<string>, b: seq<string>)
    ensures Kinds(a + b) == Kinds(a) + Kinds(b)
  {
    var l := a + b;
    forall i | 0 <= i < |l| ensures Kinds(l)[i] == (Kinds(a) + Kinds(b))[i] {
      KindAt(l, i);
      if i < |a| {
        assert l[i] == a[i];
        KindAt(a, i);
      } else {
        assert l[i] == b[i - |a|];
        KindAt(b, i - |a|);
      }
    }
  }

  /** The kinds of a suffix of a log. */
  lemma {:induction false} KindsSuffix(lines: seq<string>, k: nat)
    requires k <= |lines|
    ensures Kinds(lines[k..]) == Kinds(lines)[k..]
  {
    if k > 0 {
      KindsSuffix(lines[1..], k - 1);
      assert lines[1..][k - 1..] == lines[k..];
    }
  }

  // ---------------------------------------------------------------- provenance

  /** For each sample of `Run(ks, collecting)`, the position of the line it
      came from: one line per sample, in increasing order, and every sample
      is the value its line carries. */
  function RunOrigins(ks: seq<LineKind>, collecting: bool): (idx: seq<nat>)
    ensures |idx| == |Run(ks, collecting)|
    ensures forall j :: 0 <= j < |idx| ==> idx[j] < |ks|
    ensures forall j, k :: 0 <= j < k < |idx| ==> idx[j] < idx[k]
    ensures forall j :: 0 <= j < |idx| ==> KindValue(ks[idx[j]]) == Some(Run(ks, collecting)[j])
  {
    if ks == [] then []
    else
      var r := Transition(ks[0], collecting);
      var rest := RunOrigins(ks[1..], r.collecting);
      var idx := if r.emitted.Some? then [0] + Shift(rest) else Shift(rest);
      OriginsStep(ks, collecting, rest, idx);
      idx
  }

  /** Every position moved one line on. */
  function Shift(idx: seq<nat>): (r: seq<nat>)
    ensures |r| == |idx| && forall j :: 0 <= j < |idx| ==> r[j] == idx[j] + 1
  {
    seq(|idx|, j requires 0 <= j < |idx| => idx[j] + 1)
  }

  /** The origins of a run from the origins of its tail. */
  lemma OriginsStep(ks: seq<LineKind>, collecting: bool, rest: seq<nat>, idx: seq<nat>)
    requires ks != []
    requires var r := Transition(ks[0], collecting);
      var out := Run(ks[1..], r.collecting);
      |rest| == |out| &&
      (forall j :: 0 <= j < |rest| ==> rest[j] < |ks| - 1) &&
      (forall j, k :: 0 <= j < k < |rest| ==> rest[j] < rest[k]) &&
      (forall j :: 0 <= j < |rest| ==> KindValue(ks[1..][rest[j]]) == Some(out[j])) &&
      idx == if r.emitted.Some? then [0] + Shift(rest) else Shift(rest)
    ensures |idx| == |Run(ks, collecting)|
    ensures forall j :: 0 <= j < |idx| ==> idx[j] < |ks|
    ensures forall j, k :: 0 <= j < k < |idx| ==> idx[j] < idx[k]
    ensures forall j :: 0 <= j < |idx| ==> KindValue(ks[idx[j]]) == Some(Run(ks, collecting)[j])
  {
    var r := Transition(ks[0], collecting);
    var out := Run(ks[1..], r.collecting);
    ShiftOrigins(ks, rest, out);
    if r.emitted.Some? {
      assert Run(ks, collecting) == [r.emitted.value] + out;
      ConsOrigin(ks, Shift(rest), r.emitted.value, out);
    } else {
      assert Run(ks, collecting) == out;
    }
  }

  /** Origins in the tail of a run, moved one line on, are origins in the run. */
  lemma ShiftOrigins(ks: seq<LineKind>, rest: seq<nat>, out: seq<int>)
    requires ks != [] && |rest| == |out|
    requires forall j :: 0 <= j < |rest| ==> rest[j] < |ks| - 1
    requires forall j, k :: 0 <= j < k < |rest| ==> rest[j] < rest[k]
    requires forall j :: 0 <= j < |rest| ==> KindValue(ks[1..][rest[j]]) == Some(out[j])
    ensures forall j :: 0 <= j < |rest| ==> 0 < Shift(rest)[j] < |ks|
    ensures forall j, k :: 0 <= j < k < |rest| ==> Shift(rest)[j] < Shift(rest)[k]
    ensures forall j :: 0 <= j < |rest| ==> KindValue(ks[Shift(rest)[j]]) == Some(out[j])
  {
    forall j | 0 <= j < |rest| ensures KindValue(ks[Shift(rest)[j]]) == Some(out[j]) {
      assert ks[Shift(rest)[j]] == ks[1..][rest[j]];
    }
  }

  /** The first line of a run, when it appends `v`, is the origin of `v`. */
  lemma ConsOrigin(ks: seq<LineKind>, shifted: seq<nat>, v: int, out: seq<int>)
    requires ks != [] && KindValue(ks[0]) == Some(v) && |shifted| == |out|
    requires forall j :: 0 <= j < |shifted| ==> 0 < shifted[j] < |ks|
    requires forall j, k :: 0 <= j < k < |shifted| ==> shifted[j] < shifted[k]
    requires forall j :: 0 <= j < |shifted| ==> KindValue(ks[shifted[j]]) == Some(out[j])
    ensures var idx := [0] + shifted;
      (forall j :: 0 <= j < |idx| ==> idx[j] < |ks|) &&
      (forall j, k :: 0 <= j < k < |idx| ==> idx[j] < idx[k]) &&
      (forall j :: 0 <= j < |idx| ==> KindValue(ks[idx[j]]) == Some(([v] + out)[j]))
  {
    var idx := [0] + shifted;
    assert forall j :: 0 < j < |idx| ==> idx[j] == shifted[j - 1] && ([v] + out)[j] == out[j - 1];
  }

  /** Where every sample of `Scan(lines, collecting)` comes from: an
      increasing choice of lines, each carrying the sample it gave. */
  function Origins(lines: seq<string>, collecting: bool): (idx: seq<nat>)
    ensures |idx| == |Scan(lines, collecting)|
    ensures forall j :: 0 <= j < |idx| ==> idx[j] < |lines|
    ensures forall j, k :: 0 <= j < k < |idx| ==> idx[j] < idx[k]
    ensures forall j :: 0 <= j < |idx| ==>
              KindValue(Classify(Strip(lines[idx[j]]))) == Some(Scan(lines, collecting)[j])
  {
    var idx := RunOrigins(Kinds(lines), collecting);
    assert forall j :: 0 <= j < |idx| ==>
        KindValue(Classify(Strip(lines[idx[j]]))) == Some(Scan(lines, collecting)[j]) by {
      forall j | 0 <= j < |idx| {
        KindAt(lines, idx[j]);
      }
    }
    idx
  }

  /** Starting outside a region, every sample comes from a line that follows
      some region-start line. */
  lemma {:induction false} RunSamplesFollowStart(ks: seq<LineKind>, j: nat)
    requires j < |Run(ks, false)|
    ensures exists m :: 0 <= m < RunOrigins(ks, false)[j] && ks[m] == RegionStart
  {
    var r := Transition(ks[0], false);
    if ks[0] == RegionStart {
      assert RunOrigins(ks, false)[j] > 0;
    } else {
      RunSamplesFollowStart(ks[1..], j);
      var m :| 0 <= m < RunOrigins(ks[1..], false)[j] && ks[1..][m] == RegionStart;
      assert ks[m + 1] == RegionStart;
    }
  }

  /** No sample is taken from a line before the first marker line: the line
      each sample came from has a marker line somewhere before it. */
  lemma SamplesFollowMarker(lines: seq<string>, j: nat)
    requires j < |Scan(lines, false)|
    ensures exists m :: 0 <= m < Origins(lines, false)[j] && IsMarker(Strip(lines[m]))
  {
    RunSamplesFollowStart(Kinds(lines), j);
    StartsAreMarkers(lines);
  }

  /** Every region-start line is a marker line. */
  lemma StartsAreMarkers(lines: seq<string>)
    ensures forall m :: 0 <= m < |lines| && Kinds(lines)[m] == RegionStart ==> IsMarker(Strip(lines[m]))
  {
    forall m | 0 <= m < |lines| && Kinds(lines)[m] == RegionStart
      ensures IsMarker(Strip(lines[m]))
    {
      KindAt(lines, m);
    }
  }

  // ------------------------------------------------------ concatenated logs

  /** Running two pieces one after the other: the second piece starts with
      the flag the first piece left. */
  lemma {:induction false} RunAppend(a: seq<LineKind>, b: seq<LineKind>, collecting: bool)
    ensures Run(a + b, collecting) == Run(a, collecting) + Run(b, Final(a, collecting))
  {
    if a == [] {
      assert a + b == b;
    } else {
      var r := Transition(a[0], collecting);
      var tail := a[1..];
      assert (a + b)[0] == a[0] && (a + b)[1..] == tail + b;
      RunAppend(tail, b, r.collecting);
      var x, y := Run(tail, r.collecting), Run(b, Final(tail, r.collecting));
      assert Emitted(r) + (x + y) == (Emitted(r) + x) + y;
    }
  }

  /** The flag after two pieces is the flag the second piece leaves when
      started from the flag the first piece left. */
  lemma {:induction false} FinalAppend(a: seq<LineKind>, b: seq<LineKind>, collecting: bool)
    ensures Final(a + b, collecting) == Final(b, Final(a, collecting))
  {
    if a == [] {
      assert a + b == b;
    } else {
      assert (a + b)[0] == a[0] && (a + b)[1..] == a[1..] + b;
      FinalAppend(a[1..], b, Transition(a[0], collecting).collecting);
    }
  }

  /** Scanning a log in two pieces gives the samples of the whole log. */
  lemma ScanAppend(a: seq<string>, b: seq<string>, collecting: bool)
    ensures Scan(a + b, collecting) == Scan(a, collecting) + Scan(b, Final(Kinds(a), collecting))
  {
    KindsAppend(a, b);
    RunAppend(Kinds(a), Kinds(b), collecting);
  }

  // --------------------------------------------------- before the first marker

  /** Outside a region, lines of any kind but the region start change
      nothing. */
  lemma {:induction false} NothingBeforeStart(ks: seq<LineKind>, k: nat)
    requires k <= |ks|
    requires forall m :: 0 <= m < k ==> ks[m] != RegionStart
    ensures Run(ks, false) == Run(ks[k..], false)
    ensures Final(ks, false) == Final(ks[k..], false)
  {
    if k > 0 {
      assert ks[1..][k - 1..] == ks[k..];
      NothingBeforeStart(ks[1..], k - 1);
    }
  }

  /** No sample is taken before the first marker line: dropping the lines
      before it does not change the result. */
  lemma NothingBeforeMarker(lines: seq<string>, k: nat)
    requires k <= |lines|
    requires forall m {:trigger Strip(lines[m])} :: 0 <= m < k ==> !IsMarker(Strip(lines[m]))
    ensures Scan(lines, false) == Scan(lines[k..], false)
  {
    forall m | 0 <= m < k ensures Kinds(lines)[m] != RegionStart {
      KindAt(lines, m);
    }
    NothingBeforeStart(Kinds(lines), k);
    KindsSuffix(lines, k);
  }

  /** A log without any marker line yields no samples. */
  lemma NoMarkerNoSamples(lines: seq<string>)
    requires forall m {:trigger Strip(lines[m])} :: 0 <= m < |lines| ==> !IsMarker(Strip(lines[m]))
    ensures Scan(lines, false) == []
  {
    NothingBeforeMarker(lines, |lines|);
    assert lines[|lines|..] == [];
  }

  /** A marker line turns collection on whatever the flag was, so a marker
      after a terminated region opens a new one. */
  lemma MarkerRestarts(line: string, rest: seq<string>, collecting: bool)
    requires IsMarker(Strip(line))
    ensures Scan([line] + rest, collecting) == Scan(rest, true)
  {
    KindsCons(line, rest);
  }

  // ------------------------------------------------------ lines in a region

  /** A prompt echo without a value ends the region: it appends nothing, and
      the lines up to the next marker append nothing either. */
  lemma TerminatorStops(line: string, rest: seq<string>, k: nat)
    requires IsTerminator(Strip(line)) && !IsMarker(Strip(line))
    requires k <= |rest| && forall m {:trigger Strip(rest[m])} :: 0 <= m < k ==> !IsMarker(Strip(rest[m]))
    ensures Scan([line] + rest, true) == Scan(rest[k..], false)
  {
    KindsCons(line, rest);
    NothingBeforeMarker(rest, k);
  }

  /** `HW11>` alone neither ends the region nor appends a sample. */
  lemma BarePromptKeepsCollecting(line: string, rest: seq<string>)
    requires Strip(line) == Prompt
    ensures Scan([line] + rest, true) == Scan(rest, true)
  {
    KindsCons(line, rest);
    ClassifyBarePrompt();
  }

  /** In a region, `HW11>` followed by whitespace and digits appends the
      value of those digits; whatever follows the digits is ignored. */
  lemma PromptLineEmits(line: string, ws: string, ds: string, tail: string, rest: seq<string>)
    requires Strip(line) == Prompt + ws + ds + tail && !IsMarker(Strip(line))
    requires ws != [] && AllSpaces(ws)
    requires ds != [] && AllDigits(ds)
    requires tail == [] || !IsDigit(tail[0])
    ensures Scan([line] + rest, true) == [DigitsValue(ds)] + Scan(rest, true)
  {
    KindsCons(line, rest);
    PromptValueIgnoresTail(ws, ds, tail);
    assert StartsWith(Strip(line), Prompt) by {
      assert (Prompt + ws + ds + tail)[..|Prompt|] == Prompt;
    }
  }

  /** In a region, a line that is an integer literal (an optional sign and
      one or more digits, leading zeros allowed) appends its signed value,
      with no range check: negative values and values above 255 are kept. */
  lemma IntegerLineEmits(line: string, sign: string, ds: string, rest: seq<string>)
    requires IsSign(sign) && ds != [] && AllDigits(ds) && Strip(line) == sign + ds
    ensures Scan([line] + rest, true) == [SignedValue(sign, ds)] + Scan(rest, true)
  {
    KindsCons(line, rest);
    ParseIntLiteral(sign, ds);
    ParsedIsNeitherMarkerNorPrompt(Strip(line));
  }

  /** In a region, a line that is neither a prompt echo nor an integer is
      skipped without ending the region. */
  lemma OtherLineSkipped(line: string, rest: seq<string>)
    requires !IsMarker(Strip(line)) && !StartsWith(Strip(line), Prompt)
    requires ParseInt(Strip(line)).None?
    ensures Scan([line] + rest, true) == Scan(rest, true)
  {
    KindsCons(line, rest);
  }

  // ------------------------------------------------------------- whole regions

  /** The values carried by a run of lines, in order, with no flag involved:
      an independent account of what a region yields. */
  function Values(ks: seq<LineKind>): seq<int> {
    if ks == [] then []
    else
      var v := KindValue(ks[0]);
      (if v.Some? then [v.value] else []) + Values(ks[1..])
  }

  /** Inside a region, a run with neither a region start nor a prompt echo
      without a value yields exactly the values of its lines, and leaves the
      region open. */
  lemma {:induction false} RegionYieldsValues(ks: seq<LineKind>)
    requires forall m :: 0 <= m < |ks| ==> ks[m] != RegionStart && ks[m] != PromptWithoutValue
    ensures Run(ks, true) == Values(ks)
    ensures Final(ks, true)
  {
    if ks != [] {
      RegionYieldsValues(ks[1..]);
    }
  }

  /** A log made of noise, one marker line, a region of data lines, one
      terminating prompt echo and more noise yields exactly the values of
      the data lines, in order. */
  lemma RegionIsolation(pre: seq<string>, marker: string, data: seq<string>,
                        term: string, post: seq<string>)
    requires forall m {:trigger Strip(pre[m])} :: 0 <= m < |pre| ==> !IsMarker(Strip(pre[m]))
    requires IsMarker(Strip(marker))
    requires forall m {:trigger Strip(data[m])} :: 0 <= m < |data| ==>
               !IsMarker(Strip(data[m])) && !IsTerminator(Strip(data[m]))
    requires IsTerminator(Strip(term)) && !IsMarker(Strip(term))
    requires forall m {:trigger Strip(post[m])} :: 0 <= m < |post| ==> !IsMarker(Strip(post[m]))
    ensures Scan(pre + [marker] + data + [term] + post, false) == Values(Kinds(data))
  {
    KindsOfLog(pre, marker, data, term, post);
    IsolationKinds(pre, data, post);
    RunIsolation(Kinds(pre), Kinds(data), Kinds(post));
  }

  /** The kinds of the noise and the region of `RegionIsolation`. */
  lemma IsolationKinds(pre: seq<string>, data: seq<string>, post: seq<string>)
    requires forall m {:trigger Strip(pre[m])} :: 0 <= m < |pre| ==> !IsMarker(Strip(pre[m]))
    requires forall m {:trigger Strip(data[m])} :: 0 <= m < |data| ==>
               !IsMarker(Strip(data[m])) && !IsTerminator(Strip(data[m]))
    requires forall m {:trigger Strip(post[m])} :: 0 <= m < |post| ==> !IsMarker(Strip(post[m]))
    ensures forall m :: 0 <= m < |pre| ==> Kinds(pre)[m] != RegionStart
    ensures forall m :: 0 <= m < |data| ==>
              Kinds(data)[m] != RegionStart && Kinds(data)[m] != PromptWithoutValue
    ensures forall m :: 0 <= m < |post| ==> Kinds(post)[m] != RegionStart
  {
    NoMarkerNoStart(pre);
    NoMarkerNoStart(post);
    RegionKinds(data);
  }

  /** The kinds of a log laid out as noise, marker, region, terminator, noise. */
  lemma KindsOfLog(pre: seq<string>, marker: string, data: seq<string>, term: string, post: seq<string>)
    requires IsMarker(Strip(marker))
    requires IsTerminator(Strip(term)) && !IsMarker(Strip(term))
    ensures Kinds(pre + [marker] + data + [term] + post)
         == Kinds(pre) + [RegionStart] + Kinds(data) + [PromptWithoutValue] + Kinds(post)
  {
    assert Kinds([marker]) == [RegionStart];
    assert Kinds([term]) == [PromptWithoutValue];
    KindsAppend(pre, [marker]);
    KindsAppend(pre + [marker], data);
    KindsAppend(pre + [marker] + data, [term]);
    KindsAppend(pre + [marker] + data + [term], post);
  }

  /** Lines without the marker are not region starts. */
  lemma NoMarkerNoStart(lines: seq<string>)
    requires forall m {:trigger Strip(lines[m])} :: 0 <= m < |lines| ==> !IsMarker(Strip(lines[m]))
    ensures forall m :: 0 <= m < |lines| ==> Kinds(lines)[m] != RegionStart
  {
    forall m | 0 <= m < |lines| ensures Kinds(lines)[m] != RegionStart {
      KindAt(lines, m);
    }
  }

  /** Outside a region, a run without a region start in front of `b` leaves
      the result of `b` as it is. */
  lemma RunSkip(a: seq<LineKind>, b: seq<LineKind>)
    requires forall m :: 0 <= m < |a| ==> a[m] != RegionStart
    ensures Run(a + b, false) == Run(b, false)
  {
    RunAppend(a, b, false);
    NothingBeforeStart(a, |a|);
    assert a[|a|..] == [];
  }

  /** The kinds of region lines: neither a region start nor a terminator. */
  lemma RegionKinds(data: seq<string>)
    requires forall m {:trigger Strip(data[m])} :: 0 <= m < |data| ==>
               !IsMarker(Strip(data[m])) && !IsTerminator(Strip(data[m]))
    ensures forall m :: 0 <= m < |data| ==>
              Kinds(data)[m] != RegionStart && Kinds(data)[m] != PromptWithoutValue
  {
    forall m | 0 <= m < |data| ensures Kinds(data)[m] != RegionStart && Kinds(data)[m] != PromptWithoutValue {
      KindAt(data, m);
    }
  }

  /** `RegionIsolation` on the kinds of the lines. */
  lemma RunIsolation(pre: seq<LineKind>, data: seq<LineKind>, post: seq<LineKind>)
    requires forall m :: 0 <= m < |pre| ==> pre[m] != RegionStart
    requires forall m :: 0 <= m < |data| ==> data[m] != RegionStart && data[m] != PromptWithoutValue
    requires forall m :: 0 <= m < |post| ==> post[m] != RegionStart
    ensures Run(pre + [RegionStart] + data + [PromptWithoutValue] + post, false) == Values(data)
  {
    var region := [RegionStart] + (data + ([PromptWithoutValue] + post));
    LogLayout(pre, data, post);
    RunSkip(pre, region);
    RegionRun(data, post);
  }

  /** The log of `RunIsolation`, grouped from the marker on. */
  lemma LogLayout(pre: seq<LineKind>, data: seq<LineKind>, post: seq<LineKind>)
    ensures pre + [RegionStart] + data + [PromptWithoutValue] + post
         == pre + ([RegionStart] + (data + ([PromptWithoutValue] + post)))
  {
  }

  /** From the marker on, the run yields the values of the region. */
  lemma RegionRun(data: seq<LineKind>, post: seq<LineKind>)
    requires forall m :: 0 <= m < |data| ==> data[m] != RegionStart && data[m] != PromptWithoutValue
    requires forall m :: 0 <= m < |post| ==> post[m] != RegionStart
    ensures Run([RegionStart] + (data + ([PromptWithoutValue] + post)), false) == Values(data)
  {
    var tail := [PromptWithoutValue] + post;
    var rest := data + tail;
    assert ([RegionStart] + rest)[1..] == rest;
    assert Run([RegionStart] + rest, false) == Run(rest, true);
    RunAppend(data, tail, true);
    RegionYieldsValues(data);
    TerminatorEndsRun(post);
    assert Values(data) + [] == Values(data);
  }

  /** A terminator followed by lines without a region start yields nothing. */
  lemma TerminatorEndsRun(post: seq<LineKind>)
    requires forall m :: 0 <= m < |post| ==> post[m] != RegionStart
    ensures Run([PromptWithoutValue] + post, true) == []
  {
    assert ([PromptWithoutValue] + post)[1..] == post;
    NothingBeforeStart(post, |post|);
    assert post[|post|..] == [];
  }
}
