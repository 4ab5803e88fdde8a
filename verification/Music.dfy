/** Streaming the soundtrack: pump_music keeps the stream topped up from one looping buffer. */
module Music {
  const MUSIC_LOOP_SAMPLES: nat := 176400
  const MUSIC_CHUNK_SAMPLES: nat := 2048
  const MUSIC_QUEUE_TARGET: nat := 16384   // bytes

  /** The first n samples of the loop repeated forever. */
  function Forever(loop: seq<int>, n: nat): (s: seq<int>)
    requires |loop| == MUSIC_LOOP_SAMPLES
    ensures |s| == n
  {
    seq(n, i requires 0 <= i < n => loop[i % MUSIC_LOOP_SAMPLES])
  }

  /** A piece of the loop that starts where the music stands continues it without a seam. */
  lemma Continues(loop: seq<int>, n: nat, k: nat)
    requires |loop| == MUSIC_LOOP_SAMPLES && n % MUSIC_LOOP_SAMPLES + k <= MUSIC_LOOP_SAMPLES
    ensures Forever(loop, n) + loop[n % MUSIC_LOOP_SAMPLES..n % MUSIC_LOOP_SAMPLES + k] == Forever(loop, n + k)
    ensures (n + k) % MUSIC_LOOP_SAMPLES ==
      if n % MUSIC_LOOP_SAMPLES + k == MUSIC_LOOP_SAMPLES then 0 else n % MUSIC_LOOP_SAMPLES + k
  {
  }

  /** Samples in the next put: a chunk, or what is left of the loop. */
  function NextPut(cursor: nat): (n: nat)
    requires cursor < MUSIC_LOOP_SAMPLES
    ensures 0 < n <= MUSIC_CHUNK_SAMPLES && cursor + n <= MUSIC_LOOP_SAMPLES
  {
    if cursor + MUSIC_CHUNK_SAMPLES > MUSIC_LOOP_SAMPLES then MUSIC_LOOP_SAMPLES - cursor else MUSIC_CHUNK_SAMPLES
  }

  /** Samples one call pushes when it finds this many bytes queued. */
  function Pumped(cursor: nat, queued: nat): nat
    requires cursor < MUSIC_LOOP_SAMPLES
    decreases MUSIC_QUEUE_TARGET - queued
  {
    if queued >= MUSIC_QUEUE_TARGET then 0
    else
      var n := NextPut(cursor);
      n + Pumped(if cursor + n >= MUSIC_LOOP_SAMPLES then 0 else cursor + n, queued + 2 * n)
  }

  /** A call tops the queue up to the target and stops within one chunk of it. */
  lemma {:induction false} PumpedFillsTheQueue(cursor: nat, queued: nat)
    requires cursor < MUSIC_LOOP_SAMPLES
    ensures queued >= MUSIC_QUEUE_TARGET <==> Pumped(cursor, queued) == 0
    ensures queued < MUSIC_QUEUE_TARGET ==>
      MUSIC_QUEUE_TARGET <= queued + 2 * Pumped(cursor, queued) < MUSIC_QUEUE_TARGET + 2 * MUSIC_CHUNK_SAMPLES
    decreases MUSIC_QUEUE_TARGET - queued
  {
    if queued < MUSIC_QUEUE_TARGET {
      var n := NextPut(cursor);
      PumpedFillsTheQueue(if cursor + n >= MUSIC_LOOP_SAMPLES then 0 else cursor + n, queued + 2 * n);
    }
  }

  class MusicPlayer {
    const loop: array<int>
    var ready: bool
    var cursor: nat
    var queued: nat                    // bytes in the audio stream
    ghost var pushed: seq<int>         // every sample ever put

    ghost predicate Valid()
      reads this, loop
    {
      && loop.Length == MUSIC_LOOP_SAMPLES
      && cursor == |pushed| % MUSIC_LOOP_SAMPLES
      && pushed == Forever(loop[..], |pushed|)
    }

    constructor (rendered: array<int>)
      requires rendered.Length == MUSIC_LOOP_SAMPLES
      ensures Valid() && loop == rendered && ready && pushed == [] && queued == 0
    {
      loop, ready := rendered, true;
      cursor, queued, pushed := 0, 0, [];
    }

    /** The device plays some of the queue; it does so between calls of PumpMusic. */
    method Play(bytes: nat)
      requires Valid()
      modifies this`queued
      ensures Valid() && queued == if bytes <= old(queued) then old(queued) - bytes else 0
    {
      queued := if bytes <= queued then queued - bytes else 0;
    }

    method PutStreamData(data: seq<int>)
      modifies this`queued, this`pushed
      ensures queued == old(queued) + 2 * |data| && pushed == old(pushed) + data
    {
      queued := queued + 2 * |data|;
      pushed := pushed + data;
    }

    method PumpMusic()
      requires Valid()
      modifies this`cursor, this`queued, this`pushed
      ensures Valid()
      ensures |pushed| == |old(pushed)| + if ready then Pumped(old(cursor), old(queued)) else 0
      ensures queued - old(queued) == 2 * (|pushed| - |old(pushed)|)
    {
      if !ready { return; }
      while queued < MUSIC_QUEUE_TARGET
        invariant Valid()
        invariant |pushed| + Pumped(cursor, queued) == |old(pushed)| + Pumped(old(cursor), old(queued))
        invariant queued + 2 * Pumped(cursor, queued) == old(queued) + 2 * Pumped(old(cursor), old(queued))
        decreases MUSIC_QUEUE_TARGET - queued
      {
        var n := MUSIC_CHUNK_SAMPLES;
        if cursor + n > MUSIC_LOOP_SAMPLES { n := MUSIC_LOOP_SAMPLES - cursor; }
        Continues(loop[..], |pushed|, n);
        assert loop[..][cursor..cursor + n] == loop[cursor..cursor + n];
        PutStreamData(loop[cursor..cursor + n]);
        cursor := cursor + n;
        if cursor >= MUSIC_LOOP_SAMPLES { cursor := 0; }
      }
    }
  }

  // ---- any number of calls --------------------------------------------------------------

  datatype Event = Pump | Drain(bytes: nat)
  datatype Stream = Stream(total: nat, queued: nat)

  function After(s: Stream, e: Event): Stream {
    match e
    case Pump =>
      var n := Pumped(s.total % MUSIC_LOOP_SAMPLES, s.queued);
      Stream(s.total + n, s.queued + 2 * n)
    case Drain(bytes) => s.(queued := if bytes <= s.queued then s.queued - bytes else 0)
  }

  function Run(s: Stream, es: seq<Event>): Stream
    decreases |es|
  {
    if |es| == 0 then s else After(Run(s, es[..|es| - 1]), es[|es| - 1])
  }

  /** Over any number of calls and any playback: the queue never exceeds the target by a chunk, and what
      has been played is a shorter prefix of the same endless loop. */
  lemma {:induction false} QueueStaysBounded(s: Stream, es: seq<Event>)
    requires 2 * s.total >= s.queued && s.queued < MUSIC_QUEUE_TARGET + 2 * MUSIC_CHUNK_SAMPLES
    ensures Run(s, es).queued < MUSIC_QUEUE_TARGET + 2 * MUSIC_CHUNK_SAMPLES
    ensures s.total <= Run(s, es).total && Run(s, es).queued <= 2 * Run(s, es).total
    ensures |es| > 0 && es[|es| - 1] == Pump ==> Run(s, es).queued >= MUSIC_QUEUE_TARGET
    decreases |es|
  {
    if |es| > 0 {
      var was := Run(s, es[..|es| - 1]);
      QueueStaysBounded(s, es[..|es| - 1]);
      PumpedFillsTheQueue(was.total % MUSIC_LOOP_SAMPLES, was.queued);
    }
  }

  /** A put is 2048 samples, but for the rest of a loop that has fewer left. */
  lemma PutsAreWhole(cursor: nat)
    requires cursor < MUSIC_LOOP_SAMPLES
    ensures NextPut(cursor) == if MUSIC_LOOP_SAMPLES - cursor < 2048 then MUSIC_LOOP_SAMPLES - cursor else 2048
    ensures MUSIC_LOOP_SAMPLES == 176400 && MUSIC_QUEUE_TARGET == 8 * 2048
  {
  }
}
