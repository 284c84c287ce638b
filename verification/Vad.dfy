/** Voice activity as a function of the byte stream: the state machine behind pkg/audio/vad_silero_ort.go. */
module Vad {
  import opened Common

  const CONTEXT_LEN := 64

  datatype VADState = Begin | Inactive | Active

  datatype EventKind = SpeechStart | SpeechEnd

  /** A handler call: its kind, the duration passed to it, and the number of windows processed by then. */
  datatype Event = Event(kind: EventKind, duration: nat, windows: nat)

  /** Pre-computed constants and options. The model's answer depends on all inputs it has seen. */
  datatype Config = Config(
    bytesPerFrame: nat,
    bytesPerMillisecond: nat,
    frameDurationMs: nat,
    positive: real,
    negative: real,
    minSpeechFrames: nat,
    redemptionFrames: nat,
    infer: seq<seq<real>> -> real)

  predicate ConfigOk(cfg: Config) {
    && cfg.bytesPerFrame >= 2 * CONTEXT_LEN
    && cfg.bytesPerMillisecond > 0 && cfg.minSpeechFrames > 0 && cfg.redemptionFrames > 0
  }

  /** ParseFrameDuration in milliseconds, from the parsed nanoseconds: nothing, 20 for anything outside 10 to 300
      milliseconds, or the duration. */
  function FrameDurationMs(parsed: Option<int>): (ms: nat)
    ensures ms > 0 ==> 10 <= ms <= 300
  {
    if parsed.None? || parsed.value == 0 then 0
    else if parsed.value < 10 * 1_000_000 || parsed.value > 300 * 1_000_000 then 20
    else parsed.value / 1_000_000
  }

  /** A frame count, from the time or as given; the default if that is not positive. */
  function FrameCount(byTime: bool, ms: int, frameMs: nat, given: int, default: nat): (n: nat)
    requires default > 0 && (byTime ==> ms > 0 && frameMs > 0)
    ensures n > 0
    ensures byTime ==> n == if ms >= frameMs then ms / frameMs else default
    ensures !byTime ==> n == if given > 0 then given else default
  {
    var n := if byTime then ms / frameMs else given;
    if n <= 0 then default else n
  }

  /** NormalizeVADDetectorOption: millisecond settings win over frame counts, and both counts end up positive. A window
      too short to measure is replaced by the configured frame duration. */
  function NormalizeFrames(startMs: int, endMs: int, minFrames: int, redemption: int, windowMs: nat, frame: Option<int>)
    : (r: (nat, nat))
    ensures r.0 > 0 && r.1 > 0
    ensures startMs > 0 && endMs > 0 && windowMs > 0 ==>
      && (if startMs >= windowMs then r.0 == startMs / windowMs else r.0 == 5)
      && (if endMs >= windowMs then r.1 == endMs / windowMs else r.1 == 10)
    ensures startMs <= 0 || endMs <= 0 ==>
      && r.0 == (if minFrames > 0 then minFrames else 5)
      && r.1 == (if redemption > 0 then redemption else 10)
  {
    var frameMs := if windowMs > 0 then windowMs else FrameDurationMs(frame);
    var byTime := startMs > 0 && endMs > 0 && frameMs > 0;
    (FrameCount(byTime, startMs, frameMs, minFrames, 5), FrameCount(byTime, endMs, frameMs, redemption, 10))
  }

  function ChunkSize(sampleRate: nat): nat {
    if sampleRate == 8000 then 256 else 512
  }

  /** GetSampleSize for 16-bit mono audio. */
  function BytesPerMs(sampleRate: nat): nat {
    sampleRate * 16 / 1000 / 8
  }

  /** The constants a detector computes once, from a sample rate in Hz and the options. */
  function ConfigFor(sampleRate: nat, positive: real, negative: real, startMs: int, endMs: int, minFrames: int,
                     redemption: int, frame: Option<int>, infer: seq<seq<real>> -> real): (cfg: Config)
    requires sampleRate > 0 && BytesPerMs(sampleRate) > 0
    ensures ConfigOk(cfg) && cfg.positive == positive && cfg.negative == negative && cfg.infer == infer
    ensures sampleRate == 16000 ==> cfg.bytesPerFrame == 1024 && cfg.bytesPerMillisecond == 32 && cfg.frameDurationMs == 32
    ensures sampleRate == 8000 ==> cfg.bytesPerFrame == 512 && cfg.bytesPerMillisecond == 16 && cfg.frameDurationMs == 32
    ensures sampleRate in {8000, 16000} && startMs >= 32 && endMs >= 32 ==>
      cfg.minSpeechFrames == startMs / 32 && cfg.redemptionFrames == endMs / 32
    ensures cfg.bytesPerFrame == 2 * ChunkSize(sampleRate)
  {
    var bytes, perMs := 2 * ChunkSize(sampleRate), BytesPerMs(sampleRate);
    var frames := NormalizeFrames(startMs, endMs, minFrames, redemption, ChunkSize(sampleRate) * 1000 / sampleRate, frame);
    Config(bytes, perMs, bytes / perMs, positive, negative, frames.0, frames.1, infer)
  }

  // ---------- Samples ----------

  /** int16(lo) | int16(hi) << 8, as a fraction of 32768. */
  function Sample(lo: byte, hi: byte): real {
    var v := lo + 256 * hi;
    ((if v >= 0x8000 then v - 0x1_0000 else v) as real) / 32768.0
  }

  function Samples(pcm: seq<byte>): seq<real> {
    seq(|pcm| / 2, i requires 0 <= i < |pcm| / 2 => Sample(pcm[2 * i], pcm[2 * i + 1]))
  }

  /** The samples kept as context for the next window. */
  function Tail(samples: seq<real>): seq<real> {
    if |samples| >= CONTEXT_LEN then samples[|samples| - CONTEXT_LEN..] else samples
  }

  function Zeros(n: nat): seq<real> {
    seq(n, _ => 0.0)
  }

  // ---------- One window ----------

  /** Everything the detector has computed so far. */
  datatype Core = Core(
    state: VADState,
    speaking: nat,
    silence: nat,
    duration: nat,
    ctx: seq<real>,
    inputs: seq<seq<real>>,
    probs: seq<real>,
    events: seq<Event>)

  const INIT := Core(Begin, 0, 0, 0, Zeros(CONTEXT_LEN), [], [], [])

  type Bytes = seq<byte>

  /** The context in front of the next window: zeros at first, then the last samples of the window before. */
  function NextInput(c: Core, samples: seq<real>): seq<real> {
    (if |c.inputs| > 0 then c.ctx else Zeros(CONTEXT_LEN)) + samples
  }

  /** The hysteresis switch on one probability. */
  function Switch(cfg: Config, c: Core, p: real): Core {
    if c.state != Active then
      var n := if p >= cfg.positive then c.speaking + 1 else 0;
      if n >= cfg.minSpeechFrames then
        c.(state := Active, speaking := 0, silence := 0,
           events := c.events + [Event(SpeechStart, c.duration, |c.probs|)])
      else c.(speaking := n)
    else
      var n := if p >= cfg.negative then 0 else c.silence + 1;
      if n >= cfg.redemptionFrames then
        c.(state := Inactive, silence := 0, events := c.events + [Event(SpeechEnd, c.duration, |c.probs|)])
      else c.(silence := n)
  }

  /** Counts the window, builds its input and asks the model. */
  function Observed(cfg: Config, b: Core, samples: seq<real>): Core {
    var inputs := b.inputs + [NextInput(b, samples)];
    b.(duration := b.duration + cfg.frameDurationMs, ctx := Tail(samples), inputs := inputs,
       probs := b.probs + [cfg.infer(inputs)])
  }

  function Step(cfg: Config, c: Core, samples: seq<real>): Core {
    var o := Observed(cfg, c, samples);
    Switch(cfg, o, o.probs[|o.probs| - 1])
  }

  function RunWindows(cfg: Config, c: Core, ws: seq<seq<real>>): Core {
    if ws == [] then c else Step(cfg, RunWindows(cfg, c, ws[..|ws| - 1]), ws[|ws| - 1])
  }

  // ---------- Cutting a stream into windows ----------

  /** The full windows at the start of s. */
  function Cuts(cfg: Config, s: Bytes): (ws: seq<Bytes>)
    requires ConfigOk(cfg)
    ensures forall i :: 0 <= i < |ws| ==> |ws[i]| == cfg.bytesPerFrame
  {
    if |s| < cfg.bytesPerFrame then [] else [s[..cfg.bytesPerFrame]] + Cuts(cfg, s[cfg.bytesPerFrame..])
  }

  function Decoded(ws: seq<Bytes>): seq<seq<real>> {
    seq(|ws|, i requires 0 <= i < |ws| => Samples(ws[i]))
  }

  function Windows(cfg: Config, s: Bytes): seq<seq<real>>
    requires ConfigOk(cfg)
  {
    Decoded(Cuts(cfg, s))
  }

  function Rest(cfg: Config, s: Bytes): (r: Bytes)
    requires ConfigOk(cfg)
    ensures |r| < cfg.bytesPerFrame
  {
    if |s| < cfg.bytesPerFrame then s else Rest(cfg, s[cfg.bytesPerFrame..])
  }

  function Flatten(ws: seq<Bytes>): Bytes {
    if ws == [] then [] else ws[0] + Flatten(ws[1..])
  }

  /** The windows followed by the rest are the stream. */
  lemma {:induction false} WindowsCoverStream(cfg: Config, s: Bytes)
    requires ConfigOk(cfg)
    ensures Flatten(Cuts(cfg, s)) + Rest(cfg, s) == s
  {
    if |s| >= cfg.bytesPerFrame {
      var w, t := s[..cfg.bytesPerFrame], s[cfg.bytesPerFrame..];
      WindowsCoverStream(cfg, t);
      assert s == w + t;
      assert Cuts(cfg, s)[1..] == Cuts(cfg, t);
      assert Flatten(Cuts(cfg, s)) == w + Flatten(Cuts(cfg, t));
    }
  }

  lemma {:induction false} CutsConcat(cfg: Config, a: Bytes, b: Bytes)
    requires ConfigOk(cfg)
    ensures Cuts(cfg, a + b) == Cuts(cfg, a) + Cuts(cfg, Rest(cfg, a) + b)
    ensures Rest(cfg, a + b) == Rest(cfg, Rest(cfg, a) + b)
    decreases |a|
  {
    var n := cfg.bytesPerFrame;
    if |a| >= n {
      assert (a + b)[..n] == a[..n] && (a + b)[n..] == a[n..] + b;
      CutsConcat(cfg, a[n..], b);
    }
  }

  /** Bytes that arrive later only complete the rest. */
  lemma {:induction false} WindowsConcat(cfg: Config, a: Bytes, b: Bytes)
    requires ConfigOk(cfg)
    ensures Windows(cfg, a + b) == Windows(cfg, a) + Windows(cfg, Rest(cfg, a) + b)
    ensures Rest(cfg, a + b) == Rest(cfg, Rest(cfg, a) + b)
  {
    CutsConcat(cfg, a, b);
  }

  lemma {:induction false} RunConcat(cfg: Config, c: Core, x: seq<seq<real>>, y: seq<seq<real>>)
    ensures RunWindows(cfg, c, x + y) == RunWindows(cfg, RunWindows(cfg, c, x), y)
    decreases |y|
  {
    if y == [] {
      assert x + y == x;
    } else {
      var init := y[..|y| - 1];
      RunConcat(cfg, c, x, init);
      assert (x + y)[..|x + y| - 1] == x + init;
    }
  }

  // ---------- Feeding frames ----------

  /** The detector between two calls: what it computed, and the bytes that wait for a full window. */
  datatype Detector = Detector(core: Core, pending: Bytes)

  const FRESH := Detector(INIT, [])

  /** The detector after all full windows among the waiting bytes are processed. */
  function Drain(cfg: Config, d: Detector): Detector
    requires ConfigOk(cfg)
  {
    Detector(RunWindows(cfg, d.core, Windows(cfg, d.pending)), Rest(cfg, d.pending))
  }

  /** Processing the first window leaves the rest to do. */
  lemma {:induction false} FirstWindow(cfg: Config, c: Core, s: Bytes)
    requires ConfigOk(cfg) && |s| >= cfg.bytesPerFrame
    ensures var w, t := s[..cfg.bytesPerFrame], s[cfg.bytesPerFrame..];
      Drain(cfg, Detector(c, s)) == Drain(cfg, Detector(Step(cfg, c, Samples(w)), t))
  {
    var w, t := Samples(s[..cfg.bytesPerFrame]), s[cfg.bytesPerFrame..];
    assert Windows(cfg, s) == [w] + Windows(cfg, t);
    RunConcat(cfg, c, [w], Windows(cfg, t));
    assert RunWindows(cfg, c, [w]) == Step(cfg, RunWindows(cfg, c, []), w);
  }

  /** The detector that has consumed all of s. */
  function Consume(cfg: Config, d: Detector, s: Bytes): Detector
    requires ConfigOk(cfg)
  {
    Drain(cfg, Detector(d.core, d.pending + s))
  }

  predicate Accepts(cfg: Config, frame: Bytes)
    requires ConfigOk(cfg)
  {
    |frame| % cfg.bytesPerMillisecond == 0
  }

  /** The buffer holds three windows; older bytes are overwritten. */
  function Keep(cfg: Config, s: Bytes): Bytes {
    if |s| <= 3 * cfg.bytesPerFrame then s else s[|s| - 3 * cfg.bytesPerFrame..]
  }

  /** One call of Process. */
  function Feed(cfg: Config, d: Detector, frame: Bytes): Detector
    requires ConfigOk(cfg)
  {
    if !Accepts(cfg, frame) then d
    else Drain(cfg, Detector(d.core, Keep(cfg, d.pending + frame)))
  }

  function FeedAll(cfg: Config, d: Detector, frames: seq<Bytes>): Detector
    requires ConfigOk(cfg)
  {
    if frames == [] then d else Feed(cfg, FeedAll(cfg, d, frames[..|frames| - 1]), frames[|frames| - 1])
  }

  function Stream(frames: seq<Bytes>): Bytes {
    if frames == [] then [] else Stream(frames[..|frames| - 1]) + frames[|frames| - 1]
  }

  /** Full windows and rest account for every byte. */
  lemma {:induction false} WindowsCount(cfg: Config, s: Bytes)
    requires ConfigOk(cfg)
    ensures |s| == |Windows(cfg, s)| * cfg.bytesPerFrame + |Rest(cfg, s)|
    ensures |Rest(cfg, s)| == |s| % cfg.bytesPerFrame
    decreases |s|
  {
    var n := cfg.bytesPerFrame;
    if |s| >= n {
      var t := s[n..];
      WindowsCount(cfg, t);
      var k := |Windows(cfg, t)|;
      assert |Windows(cfg, s)| == k + 1;
      assert (k + 1) * n == k * n + n;
    }
    Remainder(|Windows(cfg, s)|, |Rest(cfg, s)|, n);
  }

  lemma {:induction false} Remainder(k: nat, r: nat, n: nat)
    requires r < n
    ensures (k * n + r) % n == r
  {
    var x := k * n + r;
    OneRemainder(k, r, x / n, x % n, n);
  }

  lemma {:induction false} OneRemainder(k: int, r: nat, q: int, m: nat, n: nat)
    requires r < n && m < n && k * n + r == q * n + m
    ensures r == m
  {
    assert (k - q) * n == k * n - q * n == m - r;
    assert (q - k) * n == q * n - k * n;
    if k > q {
      AtLeastOnce(k - q, n);
    } else if k < q {
      AtLeastOnce(q - k, n);
    }
  }

  lemma {:induction false} AtLeastOnce(a: nat, n: nat)
    requires a > 0
    ensures a * n >= n
  {
    assert a * n == (a - 1) * n + n;
  }

  /** The bytes a detector has processed or still holds. */
  function Taken(cfg: Config, d: Detector): nat {
    |d.core.inputs| * cfg.bytesPerFrame + |d.pending|
  }

  lemma {:induction false} DrainKeepsTaken(cfg: Config, d: Detector)
    requires ConfigOk(cfg)
    ensures Taken(cfg, Drain(cfg, d)) == Taken(cfg, d)
  {
    hide RunWindows, Windows, Rest, ConfigOk;
    var ws, n := Windows(cfg, d.pending), cfg.bytesPerFrame;
    InputsGrow(cfg, d.core, ws);
    WindowsCount(cfg, d.pending);
    assert (|d.core.inputs| + |ws|) * n == |d.core.inputs| * n + |ws| * n;
  }

  /** A call loses no byte exactly when the waiting bytes and the frame fit into three windows; otherwise what is
      lost is missing for good. */
  lemma {:induction false} FeedIsConsumeIff(cfg: Config, d: Detector, frame: Bytes)
    requires ConfigOk(cfg) && Accepts(cfg, frame)
    ensures Feed(cfg, d, frame) == Consume(cfg, d, frame) <==> |d.pending| + |frame| <= 3 * cfg.bytesPerFrame
    ensures Taken(cfg, Feed(cfg, d, frame)) <= Taken(cfg, d) + |frame|
    ensures Taken(cfg, Consume(cfg, d, frame)) == Taken(cfg, d) + |frame|
    ensures Taken(cfg, Feed(cfg, d, frame)) == Taken(cfg, d) + |frame| <==> |d.pending| + |frame| <= 3 * cfg.bytesPerFrame
  {
    hide Drain;
    var s := d.pending + frame;
    DrainKeepsTaken(cfg, Detector(d.core, s));
    DrainKeepsTaken(cfg, Detector(d.core, Keep(cfg, s)));
  }

  lemma {:induction false} ConsumeConcat(cfg: Config, d: Detector, a: Bytes, b: Bytes)
    requires ConfigOk(cfg)
    ensures Consume(cfg, d, a + b) == Consume(cfg, Consume(cfg, d, a), b)
  {
    hide RunWindows, Windows, Rest, ConfigOk;
    var p := d.pending;
    assert p + (a + b) == (p + a) + b;
    WindowsConcat(cfg, p + a, b);
    RunConcat(cfg, d.core, Windows(cfg, p + a), Windows(cfg, Rest(cfg, p + a) + b));
  }

  /** Every frame fits behind what the frames before it left waiting. */
  predicate AllFit(cfg: Config, frames: seq<Bytes>)
    requires ConfigOk(cfg)
  {
    forall i :: 0 <= i < |frames| ==>
      |Stream(frames[..i])| % cfg.bytesPerFrame + |frames[i]| <= 3 * cfg.bytesPerFrame
  }

  lemma {:induction false} AllFitSnoc(cfg: Config, frames: seq<Bytes>)
    requires ConfigOk(cfg) && frames != []
    ensures var init, last := frames[..|frames| - 1], frames[|frames| - 1];
      AllFit(cfg, frames) <==>
        AllFit(cfg, init) && |Stream(init)| % cfg.bytesPerFrame + |last| <= 3 * cfg.bytesPerFrame
  {
    var n := |frames| - 1;
    assert forall i :: 0 <= i <= n ==> frames[..n][..i] == frames[..i];
    assert frames[..n][..n] == frames[..n];
    if AllFit(cfg, frames) {
      forall i | 0 <= i < n ensures |Stream(frames[..n][..i])| % cfg.bytesPerFrame + |frames[..n][i]| <= 3 * cfg.bytesPerFrame {
        assert |Stream(frames[..i])| % cfg.bytesPerFrame + |frames[i]| <= 3 * cfg.bytesPerFrame;
      }
    }
  }

  lemma {:induction false} NothingConsumed(cfg: Config)
    requires ConfigOk(cfg)
    ensures Consume(cfg, FRESH, []) == FRESH && Taken(cfg, FRESH) == 0
  {
    assert FRESH.pending + [] == [];
    assert Windows(cfg, []) == [];
  }

  /** The detector depends on the byte stream alone exactly when every frame fits; then nothing is ever lost. */
  lemma {:induction false} FeedAllIsConsumeIff(cfg: Config, frames: seq<Bytes>)
    requires ConfigOk(cfg) && forall f :: f in frames ==> Accepts(cfg, f)
    ensures FeedAll(cfg, FRESH, frames) == Consume(cfg, FRESH, Stream(frames)) <==> AllFit(cfg, frames)
    ensures Taken(cfg, FeedAll(cfg, FRESH, frames)) <= |Stream(frames)|
    ensures Taken(cfg, FeedAll(cfg, FRESH, frames)) == |Stream(frames)| <==> AllFit(cfg, frames)
  {
    hide Feed, Consume, Taken;
    NothingConsumed(cfg);
    if frames != [] {
      hide AllFit;
      var init, last := frames[..|frames| - 1], frames[|frames| - 1];
      var d, s := FeedAll(cfg, FRESH, init), Stream(init);
      FeedAllIsConsumeIff(cfg, init);
      AllFitSnoc(cfg, frames);
      FeedIsConsumeIff(cfg, d, last);
      ConsumeConcat(cfg, FRESH, s, last);
      ConsumedAll(cfg, s);
      ConsumedAll(cfg, s + last);
    }
  }

  lemma {:induction false} ConsumedAll(cfg: Config, s: Bytes)
    requires ConfigOk(cfg)
    ensures var d := Consume(cfg, FRESH, s); Taken(cfg, d) == |s| && |d.pending| == |s| % cfg.bytesPerFrame
  {
    assert FRESH.pending + s == s;
    DrainKeepsTaken(cfg, Detector(FRESH.core, s));
    WindowsCount(cfg, s);
  }

  /** Frames of at most two windows always fit. */
  lemma SmallFramesFit(cfg: Config, frames: seq<Bytes>)
    requires ConfigOk(cfg) && forall f :: f in frames ==> |f| <= 2 * cfg.bytesPerFrame
    ensures AllFit(cfg, frames)
  {}

  /** Two splits of one stream, the first of which fits, give the same inputs, probabilities, events and waiting bytes
      exactly when the second fits too. */
  lemma {:induction false} SplitMattersIff(cfg: Config, fs: seq<Bytes>, gs: seq<Bytes>)
    requires ConfigOk(cfg) && Stream(fs) == Stream(gs) && AllFit(cfg, fs)
    requires (forall f :: f in fs ==> Accepts(cfg, f)) && forall g :: g in gs ==> Accepts(cfg, g)
    ensures FeedAll(cfg, FRESH, fs) == FeedAll(cfg, FRESH, gs) <==> AllFit(cfg, gs)
  {
    hide Consume, FeedAll, AllFit;
    FeedAllIsConsumeIff(cfg, fs);
    FeedAllIsConsumeIff(cfg, gs);
  }

  /** In particular, any two splits into frames of at most two windows. */
  lemma {:induction false} SplitDoesNotMatter(cfg: Config, fs: seq<Bytes>, gs: seq<Bytes>)
    requires ConfigOk(cfg) && Stream(fs) == Stream(gs)
    requires forall f :: f in fs ==> Accepts(cfg, f) && |f| <= 2 * cfg.bytesPerFrame
    requires forall g :: g in gs ==> Accepts(cfg, g) && |g| <= 2 * cfg.bytesPerFrame
    ensures FeedAll(cfg, FRESH, fs) == FeedAll(cfg, FRESH, gs)
  {
    hide FeedAll, AllFit;
    SmallFramesFit(cfg, fs);
    SmallFramesFit(cfg, gs);
    SplitMattersIff(cfg, fs, gs);
  }

  // ---------- The inference inputs ----------

  /** The k-th input, read off the windows alone: 64 samples of left context, zeros at the start, and the window. */
  function InputAt(ws: seq<seq<real>>, k: nat): seq<real>
    requires k < |ws|
  {
    (if k == 0 then Zeros(CONTEXT_LEN) else Tail(ws[k - 1])) + ws[k]
  }

  /** Every input is as above, and the model saw all of them in order. */
  ghost predicate InputsExact(cfg: Config, c: Core, ws: seq<seq<real>>) {
    && |c.inputs| == |c.probs| == |ws|
    && (forall k :: 0 <= k < |ws| ==> InputExact(cfg, c, ws, k))
    && (|ws| > 0 ==> c.ctx == Tail(ws[|ws| - 1]))
  }

  ghost predicate InputExact(cfg: Config, c: Core, ws: seq<seq<real>>, k: nat)
    requires |c.inputs| == |c.probs| == |ws| && k < |ws|
  {
    c.inputs[k] == InputAt(ws, k) && c.probs[k] == cfg.infer(c.inputs[..k + 1])
  }

  lemma StepLog(cfg: Config, c: Core, w: seq<real>)
    ensures var d := Step(cfg, c, w);
      && d.inputs == c.inputs + [NextInput(c, w)] && d.probs == c.probs + [cfg.infer(d.inputs)]
      && d.ctx == Tail(w) && d.duration == c.duration + cfg.frameDurationMs
      && (d.events == c.events || exists kind :: d.events == c.events + [Event(kind, d.duration, |d.probs|)])
  {}

  lemma {:induction false} StepKeepsInputs(cfg: Config, b: Core, d: Core, init: seq<seq<real>>, w: seq<real>)
    requires InputsExact(cfg, b, init)
    requires d.inputs == b.inputs + [NextInput(b, w)] && d.probs == b.probs + [cfg.infer(d.inputs)]
    requires d.ctx == Tail(w)
    ensures InputsExact(cfg, d, init + [w])
  {
    var ws := init + [w];
    forall k | 0 <= k < |init| ensures InputExact(cfg, d, ws, k) {
      assert InputExact(cfg, b, init, k);
      assert d.inputs[..k + 1] == b.inputs[..k + 1];
    }
    assert d.inputs[..|init| + 1] == d.inputs;
    assert InputExact(cfg, d, ws, |init|);
  }

  lemma {:induction false} InputsAreWindows(cfg: Config, ws: seq<seq<real>>)
    ensures InputsExact(cfg, RunWindows(cfg, INIT, ws), ws)
  {
    if ws != [] {
      var init, w := ws[..|ws| - 1], ws[|ws| - 1];
      InputsAreWindows(cfg, init);
      var b := RunWindows(cfg, INIT, init);
      StepLog(cfg, b, w);
      assert init + [w] == ws;
      StepKeepsInputs(cfg, b, Step(cfg, b, w), init, w);
    }
  }

  // ---------- Events ----------

  /** Whether a probability counts towards an event of this kind. */
  predicate Qualifies(cfg: Config, kind: EventKind, p: real) {
    match kind
    case SpeechStart => p >= cfg.positive
    case SpeechEnd => p < cfg.negative
  }

  function Needed(cfg: Config, kind: EventKind): nat {
    match kind
    case SpeechStart => cfg.minSpeechFrames
    case SpeechEnd => cfg.redemptionFrames
  }

  /** How many of the newest probabilities, back to position `from`, qualify without a gap. */
  function TrailingRun(cfg: Config, kind: EventKind, probs: seq<real>, from: nat): nat {
    if |probs| <= from || !Qualifies(cfg, kind, probs[|probs| - 1]) then 0
    else 1 + TrailingRun(cfg, kind, probs[..|probs| - 1], from)
  }

  /** Starts and ends alternate. */
  function KindAt(i: nat): EventKind {
    if i % 2 == 0 then SpeechStart else SpeechEnd
  }

  function LastEventAt(events: seq<Event>): nat {
    if events == [] then 0 else events[|events| - 1].windows
  }

  /** Event i is the first moment after event i - 1 at which its run of qualifying windows is long enough. */
  ghost predicate EventOk(cfg: Config, c: Core, i: nat)
    requires i < |c.events|
  {
    var e, from := c.events[i], LastEventAt(c.events[..i]);
    && e.kind == KindAt(i) && from < e.windows <= |c.probs|
    && TrailingRun(cfg, e.kind, c.probs[..e.windows], from) == Needed(cfg, e.kind)
    && forall n :: from <= n < e.windows ==> TrailingRun(cfg, e.kind, c.probs[..n], from) < Needed(cfg, e.kind)
  }

  /** All events are as they should be, and none is missing since the last one. */
  ghost predicate EventsExact(cfg: Config, c: Core) {
    var kind, from := KindAt(|c.events|), LastEventAt(c.events);
    && (forall i :: 0 <= i < |c.events| ==> EventOk(cfg, c, i))
    && from <= |c.probs|
    && (forall n :: from <= n <= |c.probs| ==> TrailingRun(cfg, kind, c.probs[..n], from) < Needed(cfg, kind))
  }

  /** The counters are the trailing run since the last event. */
  ghost predicate CountersOk(cfg: Config, c: Core) {
    var kind, from := KindAt(|c.events|), LastEventAt(c.events);
    && (c.state == Active <==> kind == SpeechEnd) && (c.state == Begin <==> c.events == [])
    && c.speaking == (if c.state == Active then 0 else TrailingRun(cfg, kind, c.probs, from))
    && c.silence == (if c.state == Active then TrailingRun(cfg, kind, c.probs, from) else 0)
  }

  lemma {:induction false} RunSnoc(cfg: Config, kind: EventKind, probs: seq<real>, p: real, from: nat)
    requires from <= |probs|
    ensures TrailingRun(cfg, kind, probs + [p], from)
      == if Qualifies(cfg, kind, p) then 1 + TrailingRun(cfg, kind, probs, from) else 0
  {
    assert (probs + [p])[..|probs|] == probs;
  }

  lemma {:induction false} EventsStayOk(cfg: Config, b: Core, d: Core, i: nat)
    requires i < |b.events| && EventOk(cfg, b, i) && b.events <= d.events && b.probs <= d.probs
    ensures EventOk(cfg, d, i)
  {
    var e, from := b.events[i], LastEventAt(b.events[..i]);
    assert d.events[..i] == b.events[..i] && d.events[i] == e;
    forall n | 0 <= n <= e.windows ensures d.probs[..n] == b.probs[..n] {}
  }

  /** What the switch does, in terms of the trailing run since the last event. */
  lemma {:induction false} SwitchStep(cfg: Config, b: Core, c: Core, p: real)
    requires ConfigOk(cfg) && CountersOk(cfg, b) && LastEventAt(b.events) <= |b.probs|
    requires c.(duration := b.duration, ctx := b.ctx, inputs := b.inputs, probs := b.probs) == b
    requires c.probs == b.probs + [p]
    ensures var d, kind, from := Switch(cfg, c, p), KindAt(|b.events|), LastEventAt(b.events);
      && d.probs == c.probs
      && d.events == b.events + (if TrailingRun(cfg, kind, c.probs, from) >= Needed(cfg, kind)
                                 then [Event(kind, c.duration, |c.probs|)] else [])
      && CountersOk(cfg, d)
  {
    var d := Switch(cfg, c, p);
    RunSnoc(cfg, KindAt(|b.events|), b.probs, p, LastEventAt(b.events));
    if |d.events| > |b.events| {
      assert LastEventAt(d.events) == |c.probs|;
      assert KindAt(|d.events|) != KindAt(|b.events|);
    }
  }

  lemma {:induction false} SwitchKeepsEvents(cfg: Config, b: Core, c: Core, p: real)
    requires ConfigOk(cfg) && EventsExact(cfg, b) && CountersOk(cfg, b)
    requires c.(duration := b.duration, ctx := b.ctx, inputs := b.inputs, probs := b.probs) == b
    requires c.probs == b.probs + [p]
    ensures EventsExact(cfg, Switch(cfg, c, p)) && CountersOk(cfg, Switch(cfg, c, p))
  {
    SwitchStep(cfg, b, c, p);
    LogGrows(cfg, b, Switch(cfg, c, p), p, c.duration);
  }

  /** The event that completes a run is as it should be. */
  lemma {:induction false} EventHappens(cfg: Config, b: Core, d: Core, p: real, duration: nat)
    requires EventsExact(cfg, b) && d.probs == b.probs + [p]
    requires var kind, from := KindAt(|b.events|), LastEventAt(b.events);
      && d.events == b.events + [Event(kind, duration, |d.probs|)]
      && TrailingRun(cfg, kind, d.probs, from) >= Needed(cfg, kind)
    ensures EventOk(cfg, d, |b.events|)
  {
    hide Qualifies, EventOk;
    var kind, from, m := KindAt(|b.events|), LastEventAt(b.events), |b.probs|;
    forall n | 0 <= n <= m ensures d.probs[..n] == b.probs[..n] {}
    assert d.probs[..m + 1] == d.probs && b.probs[..m] == b.probs && d.events[..|b.events|] == b.events;
    RunSnoc(cfg, kind, b.probs, p, from);
    assert EventOk(cfg, d, |b.events|) by {
      Completes(cfg, d, |b.events|);
    }
  }

  lemma Completes(cfg: Config, d: Core, i: nat)
    requires i < |d.events|
    requires var e, from := d.events[i], LastEventAt(d.events[..i]);
      && e.kind == KindAt(i) && from < e.windows <= |d.probs|
      && TrailingRun(cfg, e.kind, d.probs[..e.windows], from) == Needed(cfg, e.kind)
      && forall n :: from <= n < e.windows ==> TrailingRun(cfg, e.kind, d.probs[..n], from) < Needed(cfg, e.kind)
    ensures EventOk(cfg, d, i)
  {}

  /** One more probability, and the event it causes, keep the log exact. */
  lemma {:induction false} LogGrows(cfg: Config, b: Core, d: Core, p: real, duration: nat)
    requires ConfigOk(cfg) && EventsExact(cfg, b) && d.probs == b.probs + [p]
    requires var kind, from := KindAt(|b.events|), LastEventAt(b.events);
      d.events == b.events + (if TrailingRun(cfg, kind, d.probs, from) >= Needed(cfg, kind)
                              then [Event(kind, duration, |d.probs|)] else [])
    ensures EventsExact(cfg, d)
  {
    hide Qualifies, EventOk;
    var m := |b.probs|;
    forall i | 0 <= i < |b.events| ensures EventOk(cfg, d, i) {
      EventsStayOk(cfg, b, d, i);
    }
    assert d.probs[..m + 1] == d.probs;
    if |d.events| > |b.events| {
      EventHappens(cfg, b, d, p, duration);
      assert TrailingRun(cfg, KindAt(|d.events|), d.probs[..m + 1], m + 1) == 0;
    } else {
      forall n | 0 <= n <= m ensures d.probs[..n] == b.probs[..n] {}
    }
  }

  /** Over every run: starts and ends alternate, and each happens exactly when its run of consecutive qualifying
      windows since the event before reaches MinSpeechFrames or RedemptionFrames. */
  lemma {:induction false} EventsAreExact(cfg: Config, ws: seq<seq<real>>)
    requires ConfigOk(cfg)
    ensures var c := RunWindows(cfg, INIT, ws); EventsExact(cfg, c) && CountersOk(cfg, c)
  {
    if ws != [] {
      var init, w := ws[..|ws| - 1], ws[|ws| - 1];
      EventsAreExact(cfg, init);
      var b := RunWindows(cfg, INIT, init);
      var c := Observed(cfg, b, w);
      SwitchKeepsEvents(cfg, b, c, c.probs[|c.probs| - 1]);
    }
  }

  /** Every event carries the duration of the windows processed by then. */
  ghost predicate DurationsExact(cfg: Config, c: Core) {
    && c.duration == |c.probs| * cfg.frameDurationMs
    && forall i :: 0 <= i < |c.events| ==> c.events[i].duration == c.events[i].windows * cfg.frameDurationMs
  }

  lemma {:induction false} StepKeepsDurations(cfg: Config, b: Core, d: Core)
    requires DurationsExact(cfg, b) && |d.probs| == |b.probs| + 1 && d.duration == b.duration + cfg.frameDurationMs
    requires d.events == b.events || exists kind :: d.events == b.events + [Event(kind, d.duration, |d.probs|)]
    ensures DurationsExact(cfg, d)
  {
    var m, ms := |b.probs|, cfg.frameDurationMs;
    assert (m + 1) * ms == m * ms + ms;
  }

  lemma {:induction false} DurationsAreExact(cfg: Config, ws: seq<seq<real>>)
    ensures DurationsExact(cfg, RunWindows(cfg, INIT, ws))
  {
    if ws != [] {
      var init, w := ws[..|ws| - 1], ws[|ws| - 1];
      DurationsAreExact(cfg, init);
      var b := RunWindows(cfg, INIT, init);
      StepLog(cfg, b, w);
      StepKeepsDurations(cfg, b, Step(cfg, b, w));
    }
  }

  /** A run of length n means n consecutive qualifying windows at the end. */
  lemma {:induction false} RunMeans(cfg: Config, kind: EventKind, probs: seq<real>, from: nat)
    ensures var n := TrailingRun(cfg, kind, probs, from);
      && (n == 0 || from + n <= |probs|)
      && forall k :: |probs| - n <= k < |probs| ==> Qualifies(cfg, kind, probs[k])
    decreases |probs|
  {
    if |probs| > from && Qualifies(cfg, kind, probs[|probs| - 1]) {
      var init, n := probs[..|probs| - 1], TrailingRun(cfg, kind, probs, from);
      RunMeans(cfg, kind, init, from);
      forall k | |probs| - n <= k < |probs| ensures Qualifies(cfg, kind, probs[k]) {
        assert k < |init| ==> Qualifies(cfg, kind, init[k]);
      }
    }
  }

  /** What a call that overflows the buffer does: it drops the oldest bytes. */
  lemma {:induction false} OverflowLosesBytes(cfg: Config, d: Detector, frame: Bytes)
    requires ConfigOk(cfg) && |d.pending| + |frame| > 3 * cfg.bytesPerFrame && Accepts(cfg, frame)
    ensures var lost := |d.pending| + |frame| - 3 * cfg.bytesPerFrame;
      Feed(cfg, d, frame) == Drain(cfg, Detector(d.core, (d.pending + frame)[lost..]))
    ensures |Feed(cfg, d, frame).core.inputs| == |d.core.inputs| + 3 && Feed(cfg, d, frame).pending == []
  {
    var s := Keep(cfg, d.pending + frame);
    ThreeWindows(cfg, s);
    InputsGrow(cfg, d.core, Windows(cfg, s));
  }

  lemma {:induction false} ThreeWindows(cfg: Config, s: Bytes)
    requires ConfigOk(cfg) && |s| == 3 * cfg.bytesPerFrame
    ensures |Windows(cfg, s)| == 3 && Rest(cfg, s) == []
  {
    var n := cfg.bytesPerFrame;
    var t := s[n..];
    var u := t[n..];
    assert u[n..] == [];
    assert |Cuts(cfg, u)| == 1 + |Cuts(cfg, [])| && Rest(cfg, u) == [];
    assert |Cuts(cfg, t)| == 1 + |Cuts(cfg, u)| && Rest(cfg, t) == Rest(cfg, u);
  }

  lemma {:induction false} InputsGrow(cfg: Config, c: Core, ws: seq<seq<real>>)
    ensures |RunWindows(cfg, c, ws).inputs| == |c.inputs| + |ws|
  {
    if ws != [] {
      var init, w := ws[..|ws| - 1], ws[|ws| - 1];
      InputsGrow(cfg, c, init);
      StepLog(cfg, RunWindows(cfg, c, init), w);
    }
  }

  /** What a detector fed with fitting frames has done, read off the byte stream. */
  lemma {:induction false} DetectorReadsStream(cfg: Config, frames: seq<Bytes>)
    requires ConfigOk(cfg) && AllFit(cfg, frames) && forall f :: f in frames ==> Accepts(cfg, f)
    ensures var d, s := FeedAll(cfg, FRESH, frames), Stream(frames);
      && Flatten(Cuts(cfg, s)) + d.pending == s
      && InputsExact(cfg, d.core, Decoded(Cuts(cfg, s)))
      && EventsExact(cfg, d.core) && DurationsExact(cfg, d.core)
  {
    hide InputsExact, EventsExact, DurationsExact, AllFit, FeedAll;
    var s := Stream(frames);
    FeedAllIsConsumeIff(cfg, frames);
    assert FRESH.pending + s == s;
    WindowsCoverStream(cfg, s);
    InputsAreWindows(cfg, Windows(cfg, s));
    EventsAreExact(cfg, Windows(cfg, s));
    DurationsAreExact(cfg, Windows(cfg, s));
  }
}
