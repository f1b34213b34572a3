/**
 * The length and axis bookkeeping of the ADC plots: the time axis of the
 * full and zoomed waveform views, and the frequency axis and magnitude
 * scaling of the spectrum view. Axes are exact `real`s; the discrete
 * Fourier transform itself is not computed here, its magnitudes are an
 * input.
 */
module Spectrum {

  import opened Wrappers

  /** The acquisition rate of the ADC, in samples per second. */
  const AdcSampleRate: int := 8000

  /** At most this many samples are shown in the zoomed view. */
  const ZoomSamples: nat := 200

  /** `np.arange(0, n) * (1000/8000)`: the time of every sample in ms. */
  function TimeAxis(n: nat): (t: seq<real>)
    ensures |t| == n
  {
    seq(n, i requires 0 <= i < n => i as real * (1000.0 / AdcSampleRate as real))
  }

  /** The time axis starts at 0 and its samples are 0.125 ms apart. */
  lemma TimeAxisSpacing(n: nat)
    ensures n > 0 ==> TimeAxis(n)[0] == 0.0
    ensures forall i :: 0 <= i < n - 1 ==> TimeAxis(n)[i + 1] - TimeAxis(n)[i] == 0.125
    ensures forall i :: 0 <= i < n ==> TimeAxis(n)[i] == i as real / 8.0
  {
  }

  /** Slicing the time axis at the zoom end gives the time axis of the zoom. */
  lemma TimeAxisPrefix(m: nat, n: nat)
    requires m <= n
    ensures TimeAxis(n)[..m] == TimeAxis(m)
  {
  }

  /** `min(200, n)`: the number of samples in the zoomed view. */
  function ZoomEnd(n: nat): (z: nat)
    ensures z <= ZoomSamples && z <= n
    ensures z == n || z == ZoomSamples
  {
    if ZoomSamples < n then ZoomSamples else n
  }

  /** numpy's `fftfreq(n, d)`: the first `(n-1)//2 + 1` bins count up from
      0, the rest count up from `-(n//2)` to -1, all divided by `n*d`. */
  function FftFreq(n: nat, d: real): (f: seq<real>)
    requires n > 0 && d != 0.0
    ensures |f| == n
  {
    var half := (n - 1) / 2 + 1;
    var scale := 1.0 / (n as real * d);
    var positive := seq(half, k requires 0 <= k < half => k as real * scale);
    var negative := seq(n - half, k requires 0 <= k < n - half => (k - n / 2) as real * scale);
    positive + negative
  }

  /** Bin `k` of `fftfreq` stands for `k` cycles in the window when `k` is
      in the first half, and for `k - n` cycles otherwise. */
  lemma FftFreqBin(n: nat, d: real, k: nat)
    requires n > 0 && d != 0.0 && k < n
    ensures k < (n - 1) / 2 + 1 ==> FftFreq(n, d)[k] == k as real / (n as real * d)
    ensures k >= (n - 1) / 2 + 1 ==> FftFreq(n, d)[k] == (k - n) as real / (n as real * d)
  {
    var half := (n - 1) / 2 + 1;
    if k >= half {
      assert (k - half) - n / 2 == k - n;
    }
  }

  /** With `d = 1/rate`, the first `n//2` bins are `k * rate / n`: evenly
      spaced from 0 and, for a positive rate, below the Nyquist frequency. */
  lemma FftFreqLowerHalf(n: nat, rate: real, k: nat)
    requires n > 0 && rate != 0.0 && k < n / 2
    ensures FftFreq(n, 1.0 / rate)[k] == k as real * rate / n as real
    ensures rate > 0.0 ==> 0.0 <= FftFreq(n, 1.0 / rate)[k] < rate / 2.0
  {
    FftFreqBin(n, 1.0 / rate, k);
    ScaledByPeriod(k as real, n as real, rate);
    if rate > 0.0 {
      BelowHalfRate(k, n, rate);
    }
  }

  /** Dividing by `n` periods of `1/rate` is multiplying by `rate/n`. */
  lemma ScaledByPeriod(x: real, nr: real, rate: real)
    requires nr > 0.0 && rate != 0.0
    ensures x / (nr * (1.0 / rate)) == x * rate / nr
  {
    assert nr * (1.0 / rate) == nr / rate;
  }

  /** A bin below `n//2` is below half the rate. */
  lemma BelowHalfRate(k: nat, n: nat, rate: real)
    requires k < n / 2 && rate > 0.0
    ensures 0.0 <= k as real * rate / n as real < rate / 2.0
  {
    assert 2 * k < n;
    assert (k as real) * 2.0 < n as real;
    assert k as real * rate * 2.0 < n as real * rate;
  }

  /** The first `n//2` bins of `fftfreq(n, d)` with `d = 1/rate`. */
  lemma LowerHalfBins(n: nat, rate: real, d: real)
    requires n > 0 && rate != 0.0 && d == 1.0 / rate
    ensures forall k :: 0 <= k < n / 2 ==> FftFreq(n, d)[k] == k as real * rate / n as real
  {
    forall k | 0 <= k < n / 2
      ensures FftFreq(n, d)[k] == k as real * rate / n as real
    {
      FftFreqLowerHalf(n, rate, k);
    }
  }

  /** What `plot_fft` draws, or why it draws nothing. */
  datatype FftPlot =
    | SkippedNoData
    | DivisionByZero
    | SpectrumView(freqs: seq<real>, mags: seq<real>, nyquist: real)

  /** `plot_fft(wave_data, title, sample_rate)`. `absY` are the magnitudes
      `np.abs(np.fft.fft(wave_data))`, one per sample. An empty input is
      skipped; a zero rate fails in `1/sample_rate`; otherwise the first
      `n//2` frequencies are plotted against `2/n` times the magnitudes, up
      to half the rate. */
  function PlotFft(waveData: seq<int>, absY: seq<real>, sampleRate: int): (p: FftPlot)
    requires |absY| == |waveData|
    ensures p.SkippedNoData? <==> |waveData| == 0
    ensures p.DivisionByZero? <==> |waveData| > 0 && sampleRate == 0
    ensures p.SpectrumView? ==>
      && |p.freqs| == |p.mags| == |waveData| / 2
      && p.nyquist == sampleRate as real / 2.0
      && (forall k :: 0 <= k < |p.freqs| ==> p.freqs[k] == k as real * sampleRate as real / |waveData| as real)
      && (forall k :: 0 <= k < |p.mags| ==> p.mags[k] == 2.0 / |waveData| as real * absY[k])
  {
    var n := |waveData|;
    if n == 0 then SkippedNoData
    else if sampleRate == 0 then DivisionByZero
    else
      var rate := sampleRate as real;
      var period := 1.0 / rate;
      var xf := FftFreq(n, period)[..n / 2];
      LowerHalfBins(n, rate, period);
      SpectrumView(xf, seq(n / 2, k requires 0 <= k < n / 2 => 2.0 / n as real * absY[k]), rate / 2.0)
  }

  /** For a positive rate every plotted frequency lies in the window
      `[0, rate/2)` that `xlim` shows, and consecutive bins are `rate/n`
      apart. */
  lemma SpectrumInsideWindow(waveData: seq<int>, absY: seq<real>, sampleRate: int)
    requires |absY| == |waveData| && sampleRate > 0 && |waveData| > 0
    ensures var p := PlotFft(waveData, absY, sampleRate);
      && p.SpectrumView?
      && (forall k :: 0 <= k < |p.freqs| ==> 0.0 <= p.freqs[k] < p.nyquist)
      && (forall k :: 0 <= k < |p.freqs| - 1 ==>
            p.freqs[k + 1] - p.freqs[k] == sampleRate as real / |waveData| as real)
  {
    var p := PlotFft(waveData, absY, sampleRate);
    var n := |waveData|;
    var rate := sampleRate as real;
    forall k | 0 <= k < |p.freqs|
      ensures 0.0 <= p.freqs[k] < p.nyquist
    {
      FftFreqLowerHalf(n, rate, k);
    }
    forall k | 0 <= k < |p.freqs| - 1
      ensures p.freqs[k + 1] - p.freqs[k] == rate / n as real
    {
      assert (k + 1) as real * rate / n as real - k as real * rate / n as real == rate / n as real;
    }
  }

  /** The three views `plot_adc_analysis` draws. */
  datatype AdcViews = AdcViews(
    time: seq<real>,
    zoomEnd: nat,
    zoomTime: seq<real>,
    zoomData: seq<int>,
    fft: FftPlot)

  /** `plot_adc_analysis(adc_data)`: nothing for an empty sample list;
      otherwise the full waveform against its time axis, the first
      `min(200, n)` samples against theirs, and the spectrum at 8 kHz. */
  function PlotAdcAnalysis(adcData: seq<int>, absY: seq<real>): (r: Option<AdcViews>)
    requires |absY| == |adcData|
    ensures r.None? <==> adcData == []
    ensures r.Some? ==>
      && |r.value.time| == |adcData|
      && (forall i :: 0 <= i < |adcData| ==> r.value.time[i] == i as real / 8.0)
      && r.value.zoomEnd == ZoomEnd(|adcData|)
      && |r.value.zoomTime| == |r.value.zoomData| == r.value.zoomEnd
      && r.value.zoomData == adcData[..r.value.zoomEnd]
      && r.value.zoomTime == r.value.time[..r.value.zoomEnd]
      && r.value.fft == PlotFft(adcData, absY, AdcSampleRate)
  {
    if adcData == [] then None
    else
      var n := |adcData|;
      var time := TimeAxis(n);
      TimeAxisSpacing(n);
      var zoomEnd := ZoomEnd(n);
      Some(AdcViews(time, zoomEnd, time[..zoomEnd], adcData[..zoomEnd], PlotFft(adcData, absY, AdcSampleRate)))
  }

  /** A non-empty sample list reaches the spectrum: the guard means
      neither `n` nor the fixed 8 kHz rate is ever a divisor of zero, and
      the spectrum has `n//2` bins up to 4 kHz. Samples are unbounded here;
      a sample too large for a 64-bit float is not modelled. */
  lemma AnalysisReachesSpectrum(adcData: seq<int>, absY: seq<real>)
    requires |absY| == |adcData| && adcData != []
    ensures var r := PlotAdcAnalysis(adcData, absY);
      && r.Some?
      && r.value.fft.SpectrumView?
      && |r.value.fft.freqs| == |adcData| / 2
      && r.value.fft.nyquist == 4000.0
      && r.value.zoomTime == TimeAxis(ZoomEnd(|adcData|))
  {
    TimeAxisPrefix(ZoomEnd(|adcData|), |adcData|);
  }
}
