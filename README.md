# ADC log parser and plot bookkeeping, in Dafny

This project models the analysis script `Output_Files/plots.py`. The script reads the serial log of an acquisition run.
It pulls the integer ADC samples out of that log (`parse_adc_data`), then
draws three views of them (`plot_adc_analysis`, `plot_fft`):

- the full waveform against a time axis;
- the first 200 samples;
- the one-sided magnitude spectrum at the 8 kHz sample rate.

The model has three parts:

- **Text** (`text.dfy`): the pieces of Python string handling that the parser uses.
  - `str.strip()` (`Strip`).
  - The substring test `in` (`Contains`) and `str.startswith` (`StartsWith`).
  - `int()` on a stripped line (`ParseInt`), together with the decimal spelling it reads back (`FormatInt`).
- **LineClassifier** (`classifier.dfy`): one log line against the tests of the loop body.
  - The marker `"analog signal acquisition"` and the prompt `"HW11>"`.
  - `re.search(r'HW11>\s+(\d+)', line)` (`FindPrompt`, `SearchPrompt`).
  - The classification of a stripped line into the six ways the loop body treats it (`Classify`, `LineKind`).
- **RegionScanner** (`scanner.dfy`): `parse_adc_data` as an imperative method `ParseAdcData`.
  - It has the source's `for` loop, its `collecting` flag and its `continue`s.
  - It is proved equal to the reference walk `Scan`. `Scan` classifies every line (`Kinds`) and steps the flag through `Transition` (`Run`).
  - `ScannerProperties` (`scanner_properties.dfy`) proves what the scan promises: provenance and order of the samples, region isolation, and the effect of each line kind.
  - `ScanExamples` (`scan_examples.dfy`) works through the shape of an acquisition log: console noise, the marker, prompt echoes, bare values and a closing prompt.
- **Spectrum** (`spectrum.dfy`): the length and axis bookkeeping of the two plotting functions. It uses exact `real` arithmetic.
  - The empty-data guards.
  - The time axis `i * 1000/8000` ms and the zoom length `min(200, n)`.
  - numpy's `fftfreq` and its first `n//2` bins, the `2/n` magnitude scaling, and the Nyquist bound of `xlim`.
  - The magnitudes of the discrete Fourier transform are an input.

Three consequences of the code are worth stating:

- **A marker always turns collection on, whatever the current state.** A second marker after a terminating prompt therefore opens a second region, so a log can hold several regions. See `ScannerProperties.MarkerRestarts`.
- **A bare prompt does not end a region.** The log `"noise"`, `"...analog signal acquisition..."`, `"HW11> 10"`, `"20"`, `"HW11>"`, `"30"`, `"HW11> done"`, `"99"` yields `[10, 20, 30]`: the bare `"HW11>"` line does not stop collection, so `30` is taken, and `"HW11> done"` stops it before `99`. See `ScanExamples.AcquisitionExample` and `ScanExamples.AcquisitionLog`.
- **Samples are not checked against 0..255, and a sign is accepted.** `int()` reads `"-5"` and `"300"` like any other integer, and it reads `"+5"`, `"007"` and `"-0"` as 5, 7 and 0. The 0-255 range appears only in a plot label. See `Text.ParseIntLiteral` and `ScannerProperties.IntegerLineEmits`.

## Model

| member | source | states |
|---|---|---|
| Text.StripCutsSpaceOnly | Output_Files/plots.py:14 | `strip()` removes only whitespace, and only from the two ends: the result is a slice of the line with all-whitespace text before and after it |
| Text.Strip | Output_Files/plots.py:14 | the stripped line is no longer than the input and neither starts nor ends with whitespace |
| Text.StripIdempotent | Output_Files/plots.py:23 | stripping an already stripped line changes nothing, so the second `strip()` in the bare-prompt test sees the same text |
| Text.ContainsIff | Output_Files/plots.py:17 | `Contains`, the substring test `in`, holds exactly when the marker occurs at some position of the line |
| Text.StartsWithIff | Output_Files/plots.py:22 | `StartsWith`, `str.startswith`, holds exactly when the line is at least as long as the prefix and agrees with it character by character; a prefix followed by anything starts with that prefix |
| Text.ParseInt | Output_Files/plots.py:37-41 | `int()` succeeds only on a line starting with a digit or a sign; a `-` gives a value <= 0 and otherwise the value is >= 0 |
| Text.ParseIntLiteral | Output_Files/plots.py:37 | `int()` accepts every optional sign (none, `+` or `-`) followed by one or more digits, leading zeros included, and reads their signed value |
| Text.ParseIntShape | Output_Files/plots.py:37-41 | conversely, a string `int()` accepts is a sign (possibly none) followed by one or more digits, and the value read is their signed value; anything else raises `ValueError` (`None`) |
| Text.ParseFormatRoundTrip | Output_Files/plots.py:37 | `int()` reads back every integer written in decimal, negative ones included |
| LineClassifier.IsMarkerContainsMarker | Output_Files/plots.py:17 | the marker test is the substring test for `"analog signal acquisition"` |
| LineClassifier.MatchAt | Output_Files/plots.py:22 | a match of `HW11>\s+\d+` at a position begins with the prompt there |
| LineClassifier.MatchAtShape | Output_Files/plots.py:22-31 | a match at a position means the text from there is `HW11>`, at least one whitespace character, at least one digit and a tail that does not continue the digits, and the captured value is that of the digits (`PatternAt`) |
| LineClassifier.ShapeMatchAt | Output_Files/plots.py:22-31 | conversely, wherever the text has that shape, the pattern matches at that position and captures the value of the digits |
| LineClassifier.FindPrompt | Output_Files/plots.py:29 | `re.search` returns the leftmost position where `HW11>`, at least one whitespace and at least one digit match, and no earlier position matches; `None` means no position matches |
| LineClassifier.SearchPromptIff | Output_Files/plots.py:22-31 | `SearchPrompt`, `re.search(...)` with its group: it succeeds exactly when the pattern matches at some position, and then it captures the value of the leftmost match |
| LineClassifier.PromptValueIgnoresTail | Output_Files/plots.py:29-31 | for a prompt, whitespace, digits and a tail that does not continue the digits, the captured group is the digits' value, whatever the tail holds |
| LineClassifier.NoValueAfterPrompt | Output_Files/plots.py:22 | a prompt followed by text with no whitespace-then-digit and no second prompt gives no match |
| LineClassifier.BarePromptHasNoValue | Output_Files/plots.py:22-23 | the bare prompt `HW11>` has no match, so it reaches the bare-prompt test |
| LineClassifier.StrippedBarePromptIff | Output_Files/plots.py:23 | `IsBarePrompt`: the second `strip()` changes nothing, so a stripped line passes the bare-prompt test exactly when it is `HW11>` |
| LineClassifier.TerminatorIff | Output_Files/plots.py:22-25 | `IsTerminator`: a stripped line ends collection exactly when it starts with `HW11>`, the pattern matches at no position, and it is not `HW11>` alone |
| LineClassifier.Classify | Output_Files/plots.py:17-41 | the line is a region start exactly when it contains the marker; it stops collection exactly when it has no marker, starts with the prompt, has no match and is not the bare prompt; a prompt line with a match carries the captured value; an integer line carries `int()`'s value; anything else is one `int()` rejects; conversely the bare prompt, a prompt line with a match, an integer line and any other line each get their kind, so every line has exactly the kind the loop body's tests give it |
| LineClassifier.ClassifyBarePrompt | Output_Files/plots.py:23-41 | the bare prompt is its own kind: it neither stops collection nor yields a value |
| RegionScanner.Transition | Output_Files/plots.py:17-41 | a marker sets `collecting` and emits nothing, in either state; while not collecting nothing is emitted; while collecting the line emits its value, if any, and collection stops exactly on a prompt without value |
| RegionScanner.Run | Output_Files/plots.py:13-43 | every line contributes at most one sample, so there are no more samples than lines |
| RegionScanner.Scan | Output_Files/plots.py:5-43 | the reference walk: classify every line and step the flag; it appends at most one sample per line |
| RegionScanner.ParseAdcData | Output_Files/plots.py:5-43 | the loop over the lines, with `collecting` and the `continue`s, returns exactly the reference scan `Scan(lines, false)` |
| ScannerProperties.RunOrigins | Output_Files/plots.py:13-41 | every sample comes from its own line, the source lines are in increasing order, and each sample is the value that line's kind carries |
| ScannerProperties.Origins | Output_Files/plots.py:13-41 | the same, stated on the log lines: sample `j` is the value of line `Origins[j]`, in input order |
| ScannerProperties.SamplesFollowMarker | Output_Files/plots.py:8-19 | every sample comes from a line after some marker line |
| ScannerProperties.NothingBeforeMarker | Output_Files/plots.py:8-19 | lines before the first marker do not affect the scan |
| ScannerProperties.NoMarkerNoSamples | Output_Files/plots.py:8-19 | a log with no marker line yields no samples |
| ScannerProperties.ScanAppend | Output_Files/plots.py:13-43 | scanning two logs one after the other equals scanning the first and then the second from the flag the first left |
| ScannerProperties.RunAppend | Output_Files/plots.py:13-43 | the same on line kinds: the samples of two pieces are those of the first followed by those of the second, started from the flag the first left |
| ScannerProperties.FinalAppend | Output_Files/plots.py:13-43 | the flag after two pieces is the flag the second piece leaves when started from the first piece's flag |
| ScannerProperties.MarkerRestarts | Output_Files/plots.py:17-19 | a marker line emits nothing and makes the rest of the log scanned as collecting, whatever the prior state |
| ScannerProperties.TerminatorStops | Output_Files/plots.py:22-25 | while collecting, a prompt without value emits nothing and stops collection; the lines up to the next marker yield nothing |
| ScannerProperties.BarePromptKeepsCollecting | Output_Files/plots.py:23-41 | while collecting, a line that strips to `HW11>` emits nothing and does not stop collection |
| ScannerProperties.PromptLineEmits | Output_Files/plots.py:28-32 | while collecting, a prompt echo with whitespace and digits emits the digits' value and keeps collecting |
| ScannerProperties.IntegerLineEmits | Output_Files/plots.py:35-38 | while collecting, a line that strips to an optional sign and one or more digits (leading zeros allowed) emits their signed value |
| ScannerProperties.OtherLineSkipped | Output_Files/plots.py:35-41 | while collecting, a non-prompt line that `int()` rejects is skipped without effect |
| ScannerProperties.RegionYieldsValues | Output_Files/plots.py:28-41 | a stretch of lines without markers or terminators, scanned while collecting, yields exactly the values its lines carry, in order, and leaves collection on |
| ScannerProperties.RegionIsolation | Output_Files/plots.py:13-43 | noise without markers, one marker, data lines, a terminating prompt and trailing lines without markers yield exactly the data lines' values in order |
| ScanExamples.ClassifyPromptWord | Output_Files/plots.py:22-25 | `HW11> done` is a prompt without value, the kind that stops collection |
| ScanExamples.AcquisitionExample | Output_Files/plots.py:13-43 | the log `noise`, `...analog signal acquisition...`, `HW11> 10`, `20`, `HW11>`, `30`, `HW11> done`, `99` yields `[10, 20, 30]` |
| ScanExamples.AcquisitionLog | Output_Files/plots.py:13-43 | the log shape, with a short noise word first and values a, b, c, d, yields `[a, b, c]`: the bare prompt keeps `c`, and `HW11> done` drops `d` |
| Spectrum.TimeAxis | Output_Files/plots.py:53 | `np.arange(0, n) * (1000/8000)` has one time per sample |
| Spectrum.TimeAxisSpacing | Output_Files/plots.py:53 | the time axis starts at 0 ms, has one entry per sample, and its entries are 0.125 ms (one period at 8 kHz) apart |
| Spectrum.TimeAxisPrefix | Output_Files/plots.py:53-67 | the zoomed time axis is the time axis of the zoom length |
| Spectrum.ZoomEnd | Output_Files/plots.py:65 | the zoom length is at most 200 and at most n, and equals one of them |
| Spectrum.FftFreq | Output_Files/plots.py:85 | `np.fft.fftfreq(n, d)` has one frequency per transform bin |
| Spectrum.FftFreqBin | Output_Files/plots.py:85 | bin k of `fftfreq(n, d)` is `k/(n*d)` for the first `(n-1)//2 + 1` bins and `(k-n)/(n*d)` for the rest |
| Spectrum.FftFreqLowerHalf | Output_Files/plots.py:85-92 | with `d = 1/rate`, bin `k < n//2` is `k*rate/n`, and for a positive rate it lies in `[0, rate/2)` |
| Spectrum.PlotFft | Output_Files/plots.py:77-94 | no data is skipped; a zero rate fails in `1/sample_rate`; otherwise there are `n//2` frequencies `k*R/n` and `n//2` magnitudes `2/n` times the transform magnitude of bin k, shown up to `R/2` |
| Spectrum.SpectrumInsideWindow | Output_Files/plots.py:85-92 | for a positive rate every plotted frequency lies inside the `xlim` window `[0, R/2)`, and the bins are `R/n` apart |
| Spectrum.PlotAdcAnalysis | Output_Files/plots.py:45-75 | an empty sample list yields no views; otherwise the full time axis has n entries, entry i being `i/8` ms; the zoomed data and times are the first `min(200, n)` of each; the spectrum is `plot_fft` at 8000 |
| Spectrum.AnalysisReachesSpectrum | Output_Files/plots.py:47-82 | a non-empty sample list reaches a spectrum, provided every sample converts to a float: `n//2` bins, Nyquist 4000 Hz, no division by zero |

## Left out

- Reading the file (`open`, `readlines`, lines 10-11): the log is given as a sequence of lines. A final line without its newline is treated like any other line, since `strip()` removes the newline.
- The plotting calls (figure, plot, titles, labels, `xlim`, `show`): they are rendering only. Only the data they receive is modelled.
- `np.fft.fft` and `np.abs`: the magnitudes are a parameter `absY` with one entry per sample, as the transform returns.
- Floating point: axes and magnitudes are exact reals, so rounding in `i * 0.125`, `1/sample_rate` and `k/(n*d)` is not modelled.
- The `__main__` block, the `print` messages and the exception handlers (lines 96-109) are left out: they are entry-point plumbing.
- Unicode: whitespace is the ASCII part of Python's `str.isspace()` and digits are ASCII `0`-`9`. Unicode whitespace and digits, which `strip()`, `\s`, `\d` and `int()` also accept, are left out, as are the underscores `int()` allows between digits.
- Spectrum.AnalysisReachesSpectrum: assumes that converting the samples to 64-bit floats succeeds, and so do `Spectrum.PlotAdcAnalysis` and `Spectrum.PlotFft`. The samples are unbounded integers, and a sample beyond the float64 range (about 1.8e308, e.g. a data line `2` followed by 308 zeros) makes `plt.plot` at `Output_Files/plots.py` line 57 raise `OverflowError`, so the source stops there and never builds a spectrum (`np.fft.fft` at line 84 would raise too). The model has no float range and returns the views.
- The `title` argument of `plot_fft` only reaches a plot title and is left out.
- Text.ParseInt: does not model Python's limit on converting long decimal strings (from CPython 3.11, `int()` raises `ValueError` on more than 4300 digits). The model reads digit runs of any length.
- Text.ParseIntLiteral: holds for every length of digit run. Under that limit, a bare line of more than 4300 digits is skipped at `Output_Files/plots.py` lines 37-41, because the `ValueError` is caught.
- ScannerProperties.IntegerLineEmits: for the same reason, it also covers bare lines of more than 4300 digits, which the source skips.
- ScannerProperties.PromptLineEmits: the same limit. A prompt line whose captured group has more than 4300 digits makes `int(match.group(1))` at line 31 raise outside any `try`, and `parse_adc_data` fails. The model appends the value instead. `LineClassifier.PromptValueIgnoresTail` and `RegionScanner.ParseAdcData` share this gap.
