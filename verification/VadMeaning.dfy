/** What the detector's inputs and events are, in terms of samples and probabilities alone. */
module VadMeaning {
  import opened Common
  import opened Vad

  // ---------- Samples ----------

  /** The two's complement of a 16-bit number, low byte first. */
  function LowByte(v: int): byte {
    v % 256
  }

  function HighByte(v: int): byte {
    (v / 256) % 256
  }

  /** Every 16-bit sample is decoded from its little-endian bytes, as a fraction of 32768. */
  lemma {:induction false} SampleDecodes(v: int)
    requires -32768 <= v < 32768
    ensures Sample(LowByte(v), HighByte(v)) == (v as real) / 32768.0
  {
    var q := v / 256;
    assert v == 256 * q + LowByte(v) && -128 <= q < 128;
    assert HighByte(v) == if q < 0 then q + 256 else q;
  }

  function Encode(vs: seq<int>): Bytes {
    if vs == [] then [] else [LowByte(vs[0]), HighByte(vs[0])] + Encode(vs[1..])
  }

  lemma {:induction false} EncodeAt(vs: seq<int>, i: nat)
    requires i < |vs|
    ensures |Encode(vs)| == 2 * |vs|
    ensures Encode(vs)[2 * i] == LowByte(vs[i]) && Encode(vs)[2 * i + 1] == HighByte(vs[i])
  {
    hide LowByte, HighByte;
    if i > 0 {
      EncodeAt(vs[1..], i - 1);
    } else if |vs| > 1 {
      EncodeAt(vs[1..], 0);
    }
  }

  /** A whole window of 16-bit samples is decoded in order. */
  lemma {:induction false} WindowDecodes(vs: seq<int>)
    requires vs != [] && forall i :: 0 <= i < |vs| ==> -32768 <= vs[i] < 32768
    ensures |Samples(Encode(vs))| == |vs|
    ensures forall i :: 0 <= i < |vs| ==> Samples(Encode(vs))[i] == (vs[i] as real) / 32768.0
  {
    hide Sample, LowByte, HighByte, Encode;
    EncodeAt(vs, 0);
    forall i | 0 <= i < |vs| ensures Samples(Encode(vs))[i] == (vs[i] as real) / 32768.0 {
      EncodeAt(vs, i);
      SampleDecodes(vs[i]);
    }
  }

  // ---------- Inference inputs ----------

  /** Over every run over windows of at least 64 samples: input k is the last 64 samples of window k - 1, zeros for the
      first, followed by window k. */
  lemma {:induction false} InputMeans(cfg: Config, ws: seq<seq<real>>, k: nat)
    requires k < |ws| && forall i :: 0 <= i < |ws| ==> |ws[i]| >= 64
    ensures |RunWindows(cfg, INIT, ws).inputs| == |ws|
    ensures var input := RunWindows(cfg, INIT, ws).inputs[k];
      && |input| == 64 + |ws[k]| && input[64..] == ws[k]
      && forall j :: 0 <= j < 64 ==> input[j] == if k == 0 then 0.0 else ws[k - 1][|ws[k - 1]| - 64 + j]
  {
    hide RunWindows;
    InputsAreWindows(cfg, ws);
    assert InputExact(cfg, RunWindows(cfg, INIT, ws), ws, k);
  }

  // ---------- Events ----------

  /** The m probabilities before n, all after the first `from`, are at or above the positive threshold (for a start) or
      below the negative one (for an end). */
  ghost predicate RunBefore(cfg: Config, starts: bool, probs: seq<real>, from: nat, m: nat, n: nat)
    requires n <= |probs|
  {
    from + m <= n && forall k :: n - m <= k < n ==> if starts then probs[k] >= cfg.positive else probs[k] < cfg.negative
  }

  lemma {:induction false} TrailingIff(cfg: Config, starts: bool, probs: seq<real>, from: nat, m: nat, n: nat)
    requires 0 < m && n <= |probs|
    ensures TrailingRun(cfg, if starts then SpeechStart else SpeechEnd, probs[..n], from) >= m <==>
      RunBefore(cfg, starts, probs, from, m, n)
    decreases n
  {
    var kind, p := if starts then SpeechStart else SpeechEnd, probs[..n];
    if n > from && Qualifies(cfg, kind, probs[n - 1]) {
      assert p[..n - 1] == probs[..n - 1];
      if m > 1 {
        TrailingIff(cfg, starts, probs, from, m - 1, n - 1);
        if RunBefore(cfg, starts, probs, from, m, n) {
          assert RunBefore(cfg, starts, probs, from, m - 1, n - 1);
        }
      }
    }
  }

  /** Event i of a run: even ones are starts, odd ones ends; it comes at the first moment since the event before when as
      many windows as configured qualify without a gap, and carries the time of all windows up to then. */
  ghost predicate EventMeans(cfg: Config, c: Core, i: nat)
    requires i < |c.events|
  {
    var e, from, starts := c.events[i], (if i == 0 then 0 else c.events[i - 1].windows), i % 2 == 0;
    var m := if starts then cfg.minSpeechFrames else cfg.redemptionFrames;
    && e.kind == (if starts then SpeechStart else SpeechEnd) && e.windows <= |c.probs|
    && RunBefore(cfg, starts, c.probs, from, m, e.windows)
    && (forall n: nat :: from <= n < e.windows ==> !RunBefore(cfg, starts, c.probs, from, m, n))
    && e.duration == e.windows * cfg.frameDurationMs
  }

  /** Since the last event, the next one has not been due. */
  ghost predicate NoneMissing(cfg: Config, c: Core) {
    var i := |c.events|;
    var from, starts := (if i == 0 then 0 else c.events[i - 1].windows), i % 2 == 0;
    var m := if starts then cfg.minSpeechFrames else cfg.redemptionFrames;
    forall n: nat :: from <= n <= |c.probs| ==> !RunBefore(cfg, starts, c.probs, from, m, n)
  }

  lemma {:induction false} EventOkMeans(cfg: Config, c: Core, i: nat)
    requires ConfigOk(cfg) && i < |c.events| && EventOk(cfg, c, i) && DurationsExact(cfg, c)
    ensures EventMeans(cfg, c, i)
  {
    hide TrailingRun, RunBefore, Qualifies;
    var e, from, starts := c.events[i], (if i == 0 then 0 else c.events[i - 1].windows), i % 2 == 0;
    var m := if starts then cfg.minSpeechFrames else cfg.redemptionFrames;
    assert i > 0 ==> c.events[..i][i - 1] == c.events[i - 1];
    TrailingIff(cfg, starts, c.probs, from, m, e.windows);
    forall n: nat | from <= n < e.windows ensures !RunBefore(cfg, starts, c.probs, from, m, n) {
      TrailingIff(cfg, starts, c.probs, from, m, n);
    }
  }

  /** Over every run of windows: the events are exactly those that the probabilities call for. */
  lemma {:induction false} EventsMean(cfg: Config, ws: seq<seq<real>>)
    requires ConfigOk(cfg)
    ensures var c := RunWindows(cfg, INIT, ws);
      (forall i :: 0 <= i < |c.events| ==> EventMeans(cfg, c, i)) && NoneMissing(cfg, c)
  {
    hide RunWindows, EventMeans, EventOk, RunBefore, TrailingRun, CountersOk, DurationsExact;
    var c := RunWindows(cfg, INIT, ws);
    EventsAreExact(cfg, ws);
    DurationsAreExact(cfg, ws);
    forall i | 0 <= i < |c.events| ensures EventMeans(cfg, c, i) {
      EventOkMeans(cfg, c, i);
    }
    var i := |c.events|;
    var from, starts := (if i == 0 then 0 else c.events[i - 1].windows), i % 2 == 0;
    var m := if starts then cfg.minSpeechFrames else cfg.redemptionFrames;
    forall n: nat | from <= n <= |c.probs| ensures !RunBefore(cfg, starts, c.probs, from, m, n) {
      TrailingIff(cfg, starts, c.probs, from, m, n);
    }
  }
}
