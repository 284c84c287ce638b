/** The streaming detector object: `SileroORTVADDetector` in pkg/audio/vad_silero_ort.go. */
module VadDetector {
  import opened Common
  import opened RingBuffers
  import opened Vad

  class SileroDetector {
    const cfg: Config
    const frameBuffer: RingBuffer<byte>
    const pcmFrameBuffer: array<byte>
    const inferBuffer: array<real>
    var state: VADState
    var duration: nat
    var speakingFrames: nat
    var silenceFrames: nat
    var ctx: seq<real>
    var frameCount: nat
    /** The inference inputs so far (the model is recurrent), its answers, and the handler calls so far. */
    var inputs: seq<seq<real>>
    ghost var probs: seq<real>
    var events: seq<Event>

    ghost predicate Valid()
      reads this, frameBuffer
    {
      && ConfigOk(cfg)
      && frameBuffer.Valid() && frameBuffer.size == 3 * cfg.bytesPerFrame
      && pcmFrameBuffer.Length == cfg.bytesPerFrame && frameBuffer.buf != pcmFrameBuffer
      && inferBuffer.Length == CONTEXT_LEN + cfg.bytesPerFrame / 2
      && frameCount == |inputs| == |probs| && |ctx| == CONTEXT_LEN
    }

    ghost function Core(): Core
      reads this
    {
      Vad.Core(state, speakingFrames, silenceFrames, duration, ctx, inputs, probs, events)
    }

    ghost function Snapshot(): Detector
      requires Valid()
      reads this, frameBuffer, frameBuffer.buf
    {
      Detector(Core(), frameBuffer.Contents())
    }

    /** sampleRate in Hz, 16 bit samples, one channel; the frame counts as in the options. */
    constructor (sampleRate: nat, positive: real, negative: real, startMs: int, endMs: int, minFrames: int, redemption: int,
                 frameDuration: Option<int>, infer: seq<seq<real>> -> real)
      requires sampleRate > 0 && BytesPerMs(sampleRate) > 0
      ensures Valid() && fresh(frameBuffer) && fresh(frameBuffer.buf) && fresh(pcmFrameBuffer) && fresh(inferBuffer)
      ensures Snapshot() == FRESH
      ensures cfg == ConfigFor(sampleRate, positive, negative, startMs, endMs, minFrames, redemption, frameDuration, infer)
    {
      var chunkSize := ChunkSize(sampleRate);
      var bytesPerFrame := chunkSize * 2;
      cfg := ConfigFor(sampleRate, positive, negative, startMs, endMs, minFrames, redemption, frameDuration, infer);
      frameBuffer := new RingBuffer<byte>(bytesPerFrame * 3);
      pcmFrameBuffer := new byte[bytesPerFrame];
      inferBuffer := new real[chunkSize + CONTEXT_LEN];
      state, duration, speakingFrames, silenceFrames := Begin, 0, 0, 0;
      ctx, frameCount, inputs, probs, events := Zeros(CONTEXT_LEN), 0, [], [], [];
    }

    /** BytesToFloat32 on one window. */
    method BytesToFloat32(pcm: seq<byte>) returns (samples: seq<real>)
      ensures samples == Samples(pcm)
    {
      samples := [];
      for i := 0 to |pcm| / 2
        invariant |samples| == i && forall j :: 0 <= j < i ==> samples[j] == Sample(pcm[2 * j], pcm[2 * j + 1])
      {
        samples := samples + [Sample(pcm[2 * i], pcm[2 * i + 1])];
      }
    }

    /** Fills the inference buffer: context (zeros before the first window), then the samples. */
    method BuildInput(samples: seq<real>)
      requires |samples| + CONTEXT_LEN == inferBuffer.Length && |ctx| == CONTEXT_LEN
      modifies inferBuffer
      ensures inferBuffer[..] == (if frameCount > 0 then ctx else Zeros(CONTEXT_LEN)) + samples
    {
      for i := 0 to CONTEXT_LEN
        invariant forall j :: 0 <= j < i ==> inferBuffer[j] == if frameCount > 0 then ctx[j] else 0.0
      {
        inferBuffer[i] := if frameCount > 0 then ctx[i] else 0.0;
      }
      for i := 0 to |samples|
        invariant forall j :: 0 <= j < CONTEXT_LEN ==> inferBuffer[j] == if frameCount > 0 then ctx[j] else 0.0
        invariant forall j :: 0 <= j < i ==> inferBuffer[CONTEXT_LEN + j] == samples[j]
      {
        inferBuffer[CONTEXT_LEN + i] := samples[i];
      }
    }

    /** The hysteresis switch; a handler call is appended to `events`. */
    method React(speechProb: real)
      requires ConfigOk(cfg) && frameCount == |probs|
      modifies `state, `speakingFrames, `silenceFrames, `events
      ensures Core() == Switch(cfg, old(Core()), speechProb)
    {
      match state {
        case Active =>
          if speechProb >= cfg.negative {
            silenceFrames := 0;
          } else {
            silenceFrames := silenceFrames + 1;
          }
          if silenceFrames >= cfg.redemptionFrames {
            state := Inactive;
            silenceFrames := 0;
            events := events + [Event(SpeechEnd, duration, frameCount)];
          }
        case _ =>
          if speechProb >= cfg.positive {
            speakingFrames := speakingFrames + 1;
          } else {
            speakingFrames := 0;
          }
          if speakingFrames >= cfg.minSpeechFrames {
            state := Active;
            speakingFrames := 0;
            silenceFrames := 0;
            events := events + [Event(SpeechStart, duration, frameCount)];
          }
      }
    }

    /** Counts one window, builds its inference input and keeps its tail as context. */
    method Observe(samples: seq<real>) returns (speechProb: real)
      requires Valid() && |samples| == cfg.bytesPerFrame / 2
      modifies this, inferBuffer
      ensures Valid() && Core() == Observed(cfg, old(Core()), samples)
      ensures |probs| > 0 && speechProb == probs[|probs| - 1]
    {
      duration := duration + cfg.frameDurationMs;
      BuildInput(samples);
      ctx := Tail(samples);
      frameCount := frameCount + 1;
      inputs := inputs + [inferBuffer[..]];
      speechProb := cfg.infer(inputs);
      probs := probs + [speechProb];
    }

    method ProcessWindow(pcmFrame: seq<byte>)
      requires Valid() && |pcmFrame| == cfg.bytesPerFrame
      modifies this, inferBuffer
      ensures Valid() && Core() == Step(cfg, old(Core()), Samples(pcmFrame))
    {
      hide Observed, Switch, Sample;
      var samples := BytesToFloat32(pcmFrame);
      var speechProb := Observe(samples);
      React(speechProb);
    }

    /** One pass through the loop of Process. */
    method TakeWindow()
      requires Valid() && |frameBuffer.Contents()| >= cfg.bytesPerFrame
      modifies this, frameBuffer, pcmFrameBuffer, inferBuffer
      ensures Valid()
      ensures Drain(cfg, Snapshot()) == Drain(cfg, old(Snapshot()))
      ensures |frameBuffer.Contents()| < |old(frameBuffer.Contents())|
    {
      FirstWindow(cfg, Core(), frameBuffer.Contents());
      var n := frameBuffer.Read(pcmFrameBuffer);
      assert pcmFrameBuffer[..] == old(frameBuffer.Contents())[..cfg.bytesPerFrame];
      ProcessWindow(pcmFrameBuffer[..]);
    }

    lemma Drained()
      requires Valid() && |frameBuffer.Contents()| < cfg.bytesPerFrame
      ensures Drain(cfg, Snapshot()) == Snapshot()
    {}

    /** The loop of Process: every full window in the buffer. (A short read cannot happen here.) */
    method DrainBuffer()
      requires Valid()
      modifies this, frameBuffer, pcmFrameBuffer, inferBuffer
      ensures Valid() && Snapshot() == Drain(cfg, old(Snapshot()))
    {
      while frameBuffer.Len() >= cfg.bytesPerFrame
        invariant Valid() && Drain(cfg, Snapshot()) == Drain(cfg, old(Snapshot()))
        decreases frameBuffer.count
      {
        TakeWindow();
      }
      Drained();
    }

    method Process(frame: seq<byte>) returns (ok: bool)
      requires Valid()
      modifies this, frameBuffer, frameBuffer.buf, pcmFrameBuffer, inferBuffer
      ensures Valid()
      ensures ok <==> |frame| % cfg.bytesPerMillisecond == 0
      ensures !ok ==> Snapshot() == old(Snapshot())
      ensures Snapshot() == Feed(cfg, old(Snapshot()), frame)
    {
      if |frame| % cfg.bytesPerMillisecond != 0 {
        return false;
      }
      frameBuffer.Write(frame);
      assert frameBuffer.Contents() == Keep(cfg, old(frameBuffer.Contents()) + frame);
      DrainBuffer();
      ok := true;
    }
  }
}
