/** The character meter of the in-process TTS (pod/vihs_pod/pipeline/tts.py): how many
    characters of the clause each audio chunk is said to cover. Floats are reals here. */
module CharMeter {
  import opened Seqs
  import Pipeline
  import PipelineSafety

  datatype AudioChunk = AudioChunk(bytes: nat, durMs: nat, chars: nat)

  /** What the synthesis thread queues: one sentence's buffers, by length, or a pause. */
  datatype Item = Audio(idx: nat, pcms: seq<nat>) | Pause(ms: nat)

  function Bytes(cs: seq<AudioChunk>): nat {
    if cs == [] then 0 else Bytes(cs[..|cs| - 1]) + cs[|cs| - 1].bytes
  }

  function Chars(cs: seq<AudioChunk>): nat {
    if cs == [] then 0 else Chars(cs[..|cs| - 1]) + cs[|cs| - 1].chars
  }

  function Sum(xs: seq<nat>): nat {
    if xs == [] then 0 else Sum(xs[..|xs| - 1]) + xs[|xs| - 1]
  }

  /** Whole milliseconds of `bytes` of 16-bit mono audio. */
  function Ms(bytes: nat, rate: nat): (r: nat)
    requires rate > 0
  {
    RatioNonNegative(bytes, rate * 2);
    (bytes as real / (rate * 2) as real * 1000.0).Floor
  }

  lemma RatioNonNegative(a: nat, b: nat)
    requires b > 0
    ensures a as real / b as real >= 0.0
  {}

  function ChunkBytes(rate: nat, chunkMs: nat): (r: nat)
    ensures r >= 1
  {
    var b := (rate * 2 * chunkMs) / 1000;
    if b < 1 then 1 else b
  }

  lemma Snoc(cs: seq<AudioChunk>, c: AudioChunk)
    ensures Bytes(cs + [c]) == Bytes(cs) + c.bytes && Chars(cs + [c]) == Chars(cs) + c.chars
  {
    assert (cs + [c])[..|cs|] == cs;
  }

  lemma {:induction false} CharsConcat(a: seq<AudioChunk>, b: seq<AudioChunk>)
    ensures Chars(a + b) == Chars(a) + Chars(b)
  {
    if b == [] {
      assert a + b == a;
    } else {
      assert (a + b)[..|a + b| - 1] == a + b[..|b| - 1];
      CharsConcat(a, b[..|b| - 1]);
    }
  }

  // ---------------------------------------------------------------- the proportional share

  /** Characters due after `b` of `total` bytes of a sentence with a budget of `share`. */
  function Due(share: nat, b: nat, total: nat): int
    requires total > 0
  {
    ((share * b) as real / total as real).Floor
  }

  /** After every chunk the characters covered are exactly those due. */
  ghost predicate Proportional(cs: seq<AudioChunk>, share: nat, total: nat)
    requires total > 0
  {
    forall j | 0 <= j <= |cs| :: Chars(cs[..j]) == Due(share, Bytes(cs[..j]), total)
  }

  /** What the fraction carried over is. */
  ghost predicate Banked(cs: seq<AudioChunk>, share: nat, total: nat, bank: real)
    requires total > 0
  {
    && 0.0 <= bank < 1.0
    && bank == (share * Bytes(cs)) as real / total as real - Chars(cs) as real
  }

  /** The characters one chunk may take, the fraction carried over included. */
  function Alloc(share: nat, data: nat, total: nat, bank: real): real
    requires total > 0
  {
    share as real * (data as real / total as real) + bank
  }

  /** The budget is spent by one chunk, the fraction carried over. */
  lemma Spend(cs: seq<AudioChunk>, share: nat, total: nat, bank: real, c: AudioChunk, alloc: real)
    requires total > 0 && Banked(cs, share, total, bank)
    requires alloc == Alloc(share, c.bytes, total, bank)
    requires c.chars == alloc.Floor
    ensures Banked(cs + [c], share, total, alloc - c.chars as real)
  {
    Snoc(cs, c);
    Spread(share, Bytes(cs), c.bytes, total);
  }

  lemma AllocNonNegative(share: nat, data: nat, total: nat, bank: real)
    requires total > 0 && bank >= 0.0
    ensures Alloc(share, data, total, bank) >= 0.0
  {
    RatioNonNegative(data, total);
    ProductNonNegative(share as real, data as real / total as real);
  }

  lemma ProductNonNegative(a: real, b: real)
    requires a >= 0.0 && b >= 0.0
    ensures a * b >= 0.0
  {}

  lemma Spread(s: nat, b: nat, d: nat, total: nat)
    requires total > 0
    ensures (s * (b + d)) as real / total as real
      == (s * b) as real / total as real + s as real * (d as real / total as real)
  {
    assert s * (b + d) == s * b + s * d;
    SpreadReal((s * b) as real, s as real, d as real, total as real);
    ProductAsReal(s, d);
  }

  lemma ProductAsReal(a: nat, b: nat)
    ensures (a * b) as real == a as real * b as real
  {}

  lemma SpreadReal(x: real, s: real, d: real, t: real)
    requires t > 0.0
    ensures (x + s * d) / t == x / t + s * (d / t)
  {
    assert (x + s * d) / t == x / t + (s * d) / t;
    assert (s * d) / t == s * (d / t);
  }

  lemma ProportionalSnoc(cs: seq<AudioChunk>, c: AudioChunk, share: nat, total: nat, bank: real)
    requires total > 0 && Proportional(cs, share, total) && Banked(cs + [c], share, total, bank)
    ensures Proportional(cs + [c], share, total)
  {
    var more := cs + [c];
    assert Chars(more) == Due(share, Bytes(more), total);
    forall j | 0 <= j <= |more| ensures Chars(more[..j]) == Due(share, Bytes(more[..j]), total) {
      if j <= |cs| { assert more[..j] == cs[..j]; } else { assert more[..j] == more; }
    }
  }

  /** No more than the budget is ever due. */
  lemma DueWithin(share: nat, b: nat, total: nat)
    requires total > 0 && b <= total
    ensures Due(share, b, total) <= share
  {
    MulMonotone(share, b, total);
    ProductAsReal(share, total);
    RatioWithin((share * b) as real, share as real, total as real);
  }

  lemma RatioWithin(x: real, s: real, t: real)
    requires t > 0.0 && x <= s * t
    ensures x / t <= s
  {}

  // ---------------------------------------------------------------- one buffer

  function Millis(cs: seq<AudioChunk>): nat {
    if cs == [] then 0 else Millis(cs[..|cs| - 1]) + cs[|cs| - 1].durMs
  }

  lemma MillisSnoc(cs: seq<AudioChunk>, c: AudioChunk)
    ensures Millis(cs + [c]) == Millis(cs) + c.durMs
  {
    assert (cs + [c])[..|cs|] == cs;
  }

  /** Bytes are cut off no faster than milliseconds are. */
  ghost predicate OnTime(offset: nat, spent: nat, rate: nat) { offset * 1000 <= spent * (rate * 2) }

  lemma StaysOnTime(offset: nat, spent: nat, rate: nat, chunkMs: nat, data: nat)
    requires OnTime(offset, spent, rate) && rate * 2 * chunkMs >= 1000 && data <= ChunkBytes(rate, chunkMs)
    ensures OnTime(offset + data, spent + chunkMs, rate)
  {
    assert ChunkBytes(rate, chunkMs) * 1000 <= rate * 2 * chunkMs;
    assert (spent + chunkMs) * (rate * 2) == spent * (rate * 2) + chunkMs * (rate * 2);
    assert chunkMs * (rate * 2) == rate * 2 * chunkMs;
  }

  lemma MsIsWithin(pcm: nat, rate: nat)
    requires rate > 0
    ensures Ms(pcm, rate) * (rate * 2) <= pcm * 1000
  {
    var r := (rate * 2) as real;
    var x := pcm as real / r * 1000.0;
    assert x * r == pcm as real * 1000.0;
    assert Ms(pcm, rate) as real <= x;
    assert Ms(pcm, rate) as real * r <= x * r;
    ProductAsReal(Ms(pcm, rate), rate * 2);
  }

  /** While milliseconds remain so do bytes. */
  lemma DataLeft(offset: nat, remaining: nat, pcm: nat, rate: nat)
    requires rate > 0 && 0 < remaining <= Ms(pcm, rate) && OnTime(offset, Ms(pcm, rate) - remaining, rate)
    ensures offset < pcm
  {
    MsIsWithin(pcm, rate);
    var all := Ms(pcm, rate);
    assert all * (rate * 2) == (all - remaining) * (rate * 2) + remaining * (rate * 2);
    assert remaining * (rate * 2) >= rate * 2;
  }

  lemma MsMonotone(a: nat, b: nat, rate: nat)
    requires rate > 0 && a <= b
    ensures Ms(a, rate) <= Ms(b, rate)
  {
    RatioMonotone(a as real, b as real, (rate * 2) as real);
  }

  lemma RatioMonotone(a: real, b: real, t: real)
    requires t > 0.0 && a <= b
    ensures a / t <= b / t
  {}

  /** The meter inside one sentence: in proportion, and within the clause. */
  ghost predicate Metered(cs: seq<AudioChunk>, share: nat, total: nat, bank: real)
    requires total > 0
  {
    Proportional(cs, share, total) && Banked(cs, share, total, bank)
  }

  lemma MeteredSnoc(cs: seq<AudioChunk>, c: AudioChunk, share: nat, total: nat, bank: real, alloc: real)
    requires total > 0 && Metered(cs, share, total, bank)
    requires alloc == Alloc(share, c.bytes, total, bank) && c.chars == alloc.Floor
    ensures Metered(cs + [c], share, total, alloc - c.chars as real)
  {
    Spend(cs, share, total, bank, c, alloc);
    ProportionalSnoc(cs, c, share, total, alloc - c.chars as real);
  }

  lemma MeteredWithin(cs: seq<AudioChunk>, share: nat, total: nat, bank: real)
    requires total > 0 && Metered(cs, share, total, bank) && Bytes(cs) <= total
    ensures Chars(cs) <= share
  {
    assert cs[..|cs|] == cs;
    DueWithin(share, Bytes(cs), total);
  }

  /** A chunk's milliseconds make a whole byte or more, so its length is never rounded up. */
  predicate FullChunks(rate: nat, chunkMs: nat) { rate * 2 * chunkMs >= 1000 }

  /** Bytes of a buffer that are sent before its milliseconds are used up. */
  function CutBytes(pcm: nat, ms: nat, rate: nat, chunkMs: nat): (b: nat)
    requires chunkMs > 0
    ensures b <= pcm
    decreases ms
  {
    if ms == 0 || pcm == 0 then 0
    else
      var data := Min(ChunkBytes(rate, chunkMs), pcm);
      data + CutBytes(pcm - data, Minus(ms, chunkMs), rate, chunkMs)
  }

  /** Its milliseconds are used up before its bytes are. */
  predicate Closes(pcm: nat, ms: nat, rate: nat, chunkMs: nat)
    requires chunkMs > 0
    decreases ms
  {
    && ms > 0 && pcm > 0
    && (ms <= chunkMs || Closes(pcm - Min(ChunkBytes(rate, chunkMs), pcm), ms - chunkMs, rate, chunkMs))
  }

  lemma {:induction false} ClosesInTime(pcm: nat, offset: nat, remaining: nat, rate: nat, chunkMs: nat)
    requires rate > 0 && chunkMs > 0 && FullChunks(rate, chunkMs) && 0 < remaining <= Ms(pcm, rate)
    requires offset <= pcm && OnTime(offset, Ms(pcm, rate) - remaining, rate)
    ensures Closes(pcm - offset, remaining, rate, chunkMs)
    decreases remaining
  {
    DataLeft(offset, remaining, pcm, rate);
    if remaining > chunkMs {
      var data := Min(ChunkBytes(rate, chunkMs), pcm - offset);
      StaysOnTime(offset, Ms(pcm, rate) - remaining, rate, chunkMs, data);
      ClosesInTime(pcm, offset + data, remaining - chunkMs, rate, chunkMs);
    }
  }

  /** With whole chunks every buffer of a millisecond or more does. */
  lemma AudibleCloses(pcm: nat, rate: nat, chunkMs: nat)
    requires rate > 0 && chunkMs > 0 && FullChunks(rate, chunkMs) && Ms(pcm, rate) >= 1
    ensures Closes(pcm, Ms(pcm, rate), rate, chunkMs)
  {
    ClosesInTime(pcm, 0, Ms(pcm, rate), rate, chunkMs);
  }

  datatype Job = Job(pcm: nat, total: nat, share: nat, room: nat, closing: bool, rate: nat, chunkMs: nat)

  predicate Sensible(j: Job, before: seq<AudioChunk>) {
    j.rate > 0 && j.chunkMs > 0 && j.total > 0 && j.share <= j.room && Bytes(before) + j.pcm <= j.total
  }

  /** The same for all chunks but the last, which may be the one that closes the clause. */
  ghost predicate ButTheLast(cs: seq<AudioChunk>, share: nat, total: nat)
    requires total > 0
  {
    cs != [] ==> Proportional(cs[..|cs| - 1], share, total)
  }

  lemma ProportionalButTheLast(cs: seq<AudioChunk>, share: nat, total: nat)
    requires total > 0 && Proportional(cs, share, total)
    ensures ButTheLast(cs, share, total)
  {
    if cs != [] {
      var fewer := cs[..|cs| - 1];
      forall j | 0 <= j <= |fewer| ensures Chars(fewer[..j]) == Due(share, Bytes(fewer[..j]), total) {
        assert fewer[..j] == cs[..j];
      }
    }
  }

  /** Where the loop over one buffer stands. */
  ghost predicate Going(j: Job, before: seq<AudioChunk>, cs: seq<AudioChunk>, bank: real, offset: nat, remaining: nat)
    requires Sensible(j, before)
  {
    var all := Ms(j.pcm, j.rate);
    && remaining <= all && offset <= j.pcm && Bytes(cs) == Bytes(before) + offset
    && Chars(cs) <= j.room
    && (j.closing && remaining < all && remaining == 0 ==> Chars(cs) == j.room)
    && (!j.closing || remaining > 0 || all == 0 ==> Metered(cs, j.share, j.total, bank))
    && ButTheLast(cs, j.share, j.total)
    && Millis(cs) + remaining == Millis(before) + all
    && offset + CutBytes(j.pcm - offset, remaining, j.rate, j.chunkMs) == CutBytes(j.pcm, all, j.rate, j.chunkMs)
    && (remaining > 0 ==>
          Closes(j.pcm - offset, remaining, j.rate, j.chunkMs) == Closes(j.pcm, all, j.rate, j.chunkMs))
    && (remaining == 0 && all > 0 ==> Closes(j.pcm, all, j.rate, j.chunkMs))
  }

  lemma TakeDue(share: nat, total: nat, cs: seq<AudioChunk>, bank: real, alloc: real, metered: AudioChunk)
    requires total > 0 && Metered(cs, share, total, bank)
    requires alloc == Alloc(share, metered.bytes, total, bank) && metered.chars == alloc.Floor
    requires Bytes(cs) + metered.bytes <= total
    ensures Metered(cs + [metered], share, total, alloc - metered.chars as real)
    ensures Chars(cs) + metered.chars <= share
  {
    MeteredSnoc(cs, metered, share, total, bank, alloc);
    Snoc(cs, metered);
    MeteredWithin(cs + [metered], share, total, alloc - metered.chars as real);
  }

  lemma GoFurther(j: Job, before: seq<AudioChunk>, cs: seq<AudioChunk>, bank: real, offset: nat, remaining: nat,
      data: nat, thisMs: nat, alloc: real, c: AudioChunk)
    requires Sensible(j, before) && Going(j, before, cs, bank, offset, remaining)
    requires remaining > 0 && 0 < data == Min(ChunkBytes(j.rate, j.chunkMs), j.pcm - offset)
    requires thisMs == Min(j.chunkMs, remaining)
    requires alloc == Alloc(j.share, data, j.total, bank) && alloc.Floor >= 0
    requires c == AudioChunk(data, thisMs, if j.closing && remaining <= thisMs then j.room - Chars(cs) else alloc.Floor)
    ensures Going(j, before, cs + [c], alloc - alloc.Floor as real, offset + data, remaining - thisMs)
  {
    TakeDue(j.share, j.total, cs, bank, alloc, AudioChunk(data, thisMs, alloc.Floor));
    CutFurther(j, offset, remaining, data, thisMs);
    GoneFurther(j, before, cs, alloc - alloc.Floor as real, offset, remaining, data, thisMs, alloc.Floor, c);
  }

  lemma CutFurther(j: Job, offset: nat, remaining: nat, data: nat, thisMs: nat)
    requires j.chunkMs > 0 && remaining > 0 && offset < j.pcm
    requires data == Min(ChunkBytes(j.rate, j.chunkMs), j.pcm - offset) && thisMs == Min(j.chunkMs, remaining)
    ensures CutBytes(j.pcm - offset, remaining, j.rate, j.chunkMs)
      == data + CutBytes(j.pcm - offset - data, remaining - thisMs, j.rate, j.chunkMs)
    ensures Closes(j.pcm - offset, remaining, j.rate, j.chunkMs) <==>
      thisMs == remaining || Closes(j.pcm - offset - data, remaining - thisMs, j.rate, j.chunkMs)
  {}

  lemma GoneFurther(j: Job, before: seq<AudioChunk>, cs: seq<AudioChunk>, bank: real, offset: nat, remaining: nat,
      data: nat, thisMs: nat, due: nat, c: AudioChunk)
    requires Sensible(j, before) && 0 < remaining <= Ms(j.pcm, j.rate) && offset + data <= j.pcm
    requires Bytes(cs) == Bytes(before) + offset && Millis(cs) + remaining == Millis(before) + Ms(j.pcm, j.rate)
    requires Chars(cs) + due <= j.share && thisMs <= remaining
    requires Proportional(cs, j.share, j.total)
    requires Metered(cs + [AudioChunk(data, thisMs, due)], j.share, j.total, bank)
    requires c == AudioChunk(data, thisMs, if j.closing && remaining <= thisMs then j.room - Chars(cs) else due)
    requires offset + (data + CutBytes(j.pcm - offset - data, remaining - thisMs, j.rate, j.chunkMs))
      == CutBytes(j.pcm, Ms(j.pcm, j.rate), j.rate, j.chunkMs)
    requires Closes(j.pcm, Ms(j.pcm, j.rate), j.rate, j.chunkMs) <==>
      thisMs == remaining || Closes(j.pcm - offset - data, remaining - thisMs, j.rate, j.chunkMs)
    ensures Going(j, before, cs + [c], bank, offset + data, remaining - thisMs)
  {
    Snoc(cs, c);
    MillisSnoc(cs, c);
    assert (cs + [c])[..|cs|] == cs;
  }

  lemma DueNonNegative(j: Job, before: seq<AudioChunk>, cs: seq<AudioChunk>, bank: real, offset: nat, remaining: nat,
      data: nat)
    requires Sensible(j, before) && Going(j, before, cs, bank, offset, remaining) && remaining > 0
    ensures Alloc(j.share, data, j.total, bank).Floor >= 0
  {
    AllocNonNegative(j.share, data, j.total, bank);
  }

  lemma StartGoing(j: Job, before: seq<AudioChunk>, bank: real)
    requires Sensible(j, before) && Metered(before, j.share, j.total, bank)
    ensures Going(j, before, before, bank, 0, Ms(j.pcm, j.rate))
  {
    MeteredWithin(before, j.share, j.total, bank);
    ProportionalButTheLast(before, j.share, j.total);
  }

  /** One buffer of a sentence with a budget of `share` characters, `room` being what the clause
      has left; `closing` marks the last buffer of the last sentence. */
  method MeterBuffer(j: Job, before: seq<AudioChunk>, banked: real) returns (cs: seq<AudioChunk>, bank: real)
    requires Sensible(j, before) && Metered(before, j.share, j.total, banked)
    ensures Bytes(cs) == Bytes(before) + CutBytes(j.pcm, Ms(j.pcm, j.rate), j.rate, j.chunkMs)
    ensures Chars(cs) <= j.room && ButTheLast(cs, j.share, j.total)
    ensures if j.closing && Closes(j.pcm, Ms(j.pcm, j.rate), j.rate, j.chunkMs) then Chars(cs) == j.room
            else Metered(cs, j.share, j.total, bank)
    ensures Closes(j.pcm, Ms(j.pcm, j.rate), j.rate, j.chunkMs) || Ms(j.pcm, j.rate) == 0 ==>
              Millis(cs) == Millis(before) + Ms(j.pcm, j.rate)
  {
    cs, bank := before, banked;
    var offset, remaining := 0, Ms(j.pcm, j.rate);
    StartGoing(j, before, banked);
    while remaining > 0
      invariant 0 <= remaining && 0 <= offset
      invariant Going(j, before, cs, bank, offset, remaining)
    {
      var data := Min(ChunkBytes(j.rate, j.chunkMs), j.pcm - offset);
      if data == 0 { break; }
      var thisMs := Min(j.chunkMs, remaining);
      DueNonNegative(j, before, cs, bank, offset, remaining, data);
      var alloc := Alloc(j.share, data, j.total, bank);
      var chars := alloc.Floor;
      ghost var carried := bank;
      bank := alloc - chars as real;
      if j.closing && remaining <= thisMs { chars := j.room - Chars(cs); }
      GoFurther(j, before, cs, carried, offset, remaining, data, thisMs, alloc, AudioChunk(data, thisMs, chars));
      cs := cs + [AudioChunk(data, thisMs, chars)];
      offset, remaining := offset + data, remaining - thisMs;
    }
    Gone(j, before, cs, bank, offset, remaining);
  }

  /** The loop ends with no milliseconds or no bytes left. */
  lemma Gone(j: Job, before: seq<AudioChunk>, cs: seq<AudioChunk>, bank: real, offset: nat, remaining: nat)
    requires Sensible(j, before) && Going(j, before, cs, bank, offset, remaining)
    requires remaining == 0 || offset == j.pcm
    ensures Bytes(cs) == Bytes(before) + CutBytes(j.pcm, Ms(j.pcm, j.rate), j.rate, j.chunkMs)
    ensures if j.closing && Closes(j.pcm, Ms(j.pcm, j.rate), j.rate, j.chunkMs) then Chars(cs) == j.room
            else Metered(cs, j.share, j.total, bank)
    ensures Closes(j.pcm, Ms(j.pcm, j.rate), j.rate, j.chunkMs) || Ms(j.pcm, j.rate) == 0 ==>
              Millis(cs) == Millis(before) + Ms(j.pcm, j.rate)
  {}

  // ---------------------------------------------------------------- sentences and clause

  lemma {:induction false} SumPrefix(xs: seq<nat>, k: nat)
    requires k <= |xs|
    ensures Sum(xs[..k]) <= Sum(xs)
    ensures k < |xs| ==> Sum(xs[..k + 1]) == Sum(xs[..k]) + xs[k] <= Sum(xs)
    decreases |xs| - k
  {
    if k < |xs| {
      assert xs[..k + 1][..k] == xs[..k];
      SumPrefix(xs, k + 1);
    } else {
      assert xs[..k] == xs;
    }
  }

  lemma NothingMetered(share: nat, total: nat)
    requires total > 0
    ensures Metered([], share, total, 0.0)
  {
    assert share * 0 == 0;
    assert 0.0 / total as real == 0.0;
  }

  function CutAll(pcms: seq<nat>, rate: nat, chunkMs: nat): nat
    requires rate > 0 && chunkMs > 0
  {
    if pcms == [] then 0
    else
      var pcm := pcms[|pcms| - 1];
      CutAll(pcms[..|pcms| - 1], rate, chunkMs) + CutBytes(pcm, Ms(pcm, rate), rate, chunkMs)
  }

  lemma {:induction false} CutAllPrefix(pcms: seq<nat>, k: nat, rate: nat, chunkMs: nat)
    requires rate > 0 && chunkMs > 0 && k < |pcms|
    ensures CutAll(pcms[..k + 1], rate, chunkMs)
      == CutAll(pcms[..k], rate, chunkMs) + CutBytes(pcms[k], Ms(pcms[k], rate), rate, chunkMs)
  {
    assert pcms[..k + 1][..k] == pcms[..k];
  }

  lemma {:induction false} CutWithinSum(pcms: seq<nat>, rate: nat, chunkMs: nat)
    requires rate > 0 && chunkMs > 0
    ensures CutAll(pcms, rate, chunkMs) <= Sum(pcms)
  {
    if pcms != [] { CutWithinSum(pcms[..|pcms| - 1], rate, chunkMs); }
  }

  /** The sentence has something to meter. */
  predicate Sounds(pcms: seq<nat>, rate: nat)
    requires rate > 0
  {
    Sum(pcms) > 0 && Ms(Sum(pcms), rate) > 0
  }

  /** The last buffer of these is heard out. */
  predicate HeardOut(pcms: seq<nat>, rate: nat, chunkMs: nat)
    requires rate > 0 && chunkMs > 0
  {
    pcms != [] && Closes(pcms[|pcms| - 1], Ms(pcms[|pcms| - 1], rate), rate, chunkMs)
  }

  /** Characters a sentence with this budget takes of what the clause has left: all of it if it is
      the last and heard out, else what is due for the bytes that are sent. */
  function Took(pcms: seq<nat>, share: nat, room: nat, last: bool, rate: nat, chunkMs: nat): int
    requires rate > 0 && chunkMs > 0
  {
    if !Sounds(pcms, rate) then 0
    else if last && HeardOut(pcms, rate, chunkMs) then room
    else Due(share, CutAll(pcms, rate, chunkMs), Sum(pcms))
  }

  lemma HeardOutSounds(pcms: seq<nat>, rate: nat, chunkMs: nat)
    requires rate > 0 && chunkMs > 0 && HeardOut(pcms, rate, chunkMs)
    ensures Sounds(pcms, rate)
  {
    SumPrefix(pcms, |pcms| - 1);
    assert pcms[..|pcms|] == pcms;
    MsMonotone(pcms[|pcms| - 1], Sum(pcms), rate);
  }

  /** One sentence: its chunks cover its budget in proportion to their bytes, and the last
      sentence, if heard out, covers whatever the clause has left. */
  method MeterSentence(pcms: seq<nat>, share: nat, room: nat, last: bool, rate: nat, chunkMs: nat)
    returns (cs: seq<AudioChunk>)
    requires rate > 0 && chunkMs > 0 && share <= room
    ensures Chars(cs) <= room && Chars(cs) == Took(pcms, share, room, last, rate, chunkMs)
    ensures cs != [] ==> Sum(pcms) > 0 && ButTheLast(cs, share, Sum(pcms))
    ensures !(last && HeardOut(pcms, rate, chunkMs)) && cs != [] ==> Proportional(cs, share, Sum(pcms))
  {
    var total := Sum(pcms);
    cs := [];
    if total == 0 || Ms(total, rate) == 0 { return; }
    var bank := 0.0;
    NothingMetered(share, total);
    for k := 0 to |pcms|
      invariant Bytes(cs) == CutAll(pcms[..k], rate, chunkMs) <= Sum(pcms[..k])
      invariant Chars(cs) <= room && ButTheLast(cs, share, total)
      invariant if last && k == |pcms| && HeardOut(pcms, rate, chunkMs) then Chars(cs) == room
                else Metered(cs, share, total, bank)
    {
      SumPrefix(pcms, k);
      CutAllPrefix(pcms, k, rate, chunkMs);
      var job := Job(pcms[k], total, share, room, last && k == |pcms| - 1, rate, chunkMs);
      cs, bank := MeterBuffer(job, cs, bank);
    }
    assert pcms[..|pcms|] == pcms && cs[..|cs|] == cs;
  }

  method MeterPause(ms: nat, rate: nat, chunkMs: nat) returns (cs: seq<AudioChunk>)
    requires rate > 0
    ensures Chars(cs) == 0 && Bytes(cs) == (rate * 2 * ms) / 1000
  {
    cs := [];
    var silence := (rate * 2 * ms) / 1000;
    var off := 0;
    while off < silence
      invariant off <= silence && Bytes(cs) == off && Chars(cs) == 0
    {
      var size := ChunkBytes(rate, chunkMs);
      var data := if size < silence - off then size else silence - off;
      Snoc(cs, AudioChunk(data, Ms(data, rate), 0));
      cs := cs + [AudioChunk(data, Ms(data, rate), 0)];
      off := off + data;
    }
  }

  function Share(sentences: seq<nat>, idx: nat, room: nat): nat
    requires idx < |sentences|
  {
    if idx < |sentences| - 1 then Min(sentences[idx], room) else room
  }

  predicate Fitting(sentences: seq<nat>, items: seq<Item>) {
    forall item <- items :: item.Audio? ==> item.idx < |sentences|
  }

  /** Characters of the clause left after `k` items. */
  function Left(n: nat, sentences: seq<nat>, items: seq<Item>, k: nat, rate: nat, chunkMs: nat): int
    requires rate > 0 && chunkMs > 0 && Fitting(sentences, items) && k <= |items|
  {
    if k == 0 then n
    else
      var room := Left(n, sentences, items, k - 1, rate, chunkMs);
      if items[k - 1].Pause? || room <= 0 then room
      else room - TookBy(items[k - 1], sentences, room, rate, chunkMs)
  }

  function TookBy(item: Item, sentences: seq<nat>, room: nat, rate: nat, chunkMs: nat): int
    requires rate > 0 && chunkMs > 0 && item.Audio? && item.idx < |sentences|
  {
    Took(item.pcms, Share(sentences, item.idx, room), room, item.idx == |sentences| - 1, rate, chunkMs)
  }

  /** The last sentence was spoken, and its last buffer lasts a millisecond. */
  predicate EndsAudibly(sentences: seq<nat>, item: Item, rate: nat)
    requires rate > 0
  {
    && item.Audio? && item.idx == |sentences| - 1 && item.pcms != []
    && Ms(item.pcms[|item.pcms| - 1], rate) >= 1
  }

  /** A clause of `n` characters whose sentences have these lengths, whatever the voice made of
      them: what is covered is all but what the items leave, so never more than the clause. */
  method Meter(n: nat, sentences: seq<nat>, items: seq<Item>, rate: nat, chunkMs: nat) returns (cs: seq<AudioChunk>)
    requires rate > 0 && chunkMs > 0 && Fitting(sentences, items)
    ensures Chars(cs) <= n && Chars(cs) == n - Left(n, sentences, items, |items|, rate, chunkMs)
  {
    cs := [];
    for k := 0 to |items|
      invariant Chars(cs) <= n && Chars(cs) == n - Left(n, sentences, items, k, rate, chunkMs)
    {
      var more;
      var room := n - Chars(cs);
      assert items[k] in items;
      match items[k] {
        case Pause(ms) => more := MeterPause(ms, rate, chunkMs);
        case Audio(idx, pcms) =>
          more := MeterSentence(pcms, Share(sentences, idx, room), room, idx == |sentences| - 1, rate, chunkMs);
      }
      CharsConcat(cs, more);
      cs := cs + more;
    }
  }

  // ---------------------------------------------------------------- when a clause is covered exactly

  /** A sentence takes everything that is left exactly when it is the last and heard out, or all
      its bytes are sent and it is no shorter than what is left. */
  predicate TakesAll(item: Item, sentences: seq<nat>, room: nat, rate: nat, chunkMs: nat)
    requires rate > 0 && chunkMs > 0 && item.Audio? && item.idx < |sentences|
  {
    || (item.idx == |sentences| - 1 && HeardOut(item.pcms, rate, chunkMs))
    || (&& Sounds(item.pcms, rate) && CutAll(item.pcms, rate, chunkMs) == Sum(item.pcms)
        && Share(sentences, item.idx, room) == room)
  }

  lemma DueInFull(share: nat, b: nat, total: nat)
    requires total > 0 && b <= total && share > 0
    ensures 0 <= Due(share, b, total) <= share
    ensures Due(share, b, total) == share <==> b == total
  {
    DueWithin(share, b, total);
    RatioNonNegative(share * b, total);
    ProductAsReal(share, b);
    var x := (share * b) as real / total as real;
    if b == total {
      WholeDue(share, total);
    } else {
      LessRatio(share as real, b as real, total as real);
      assert x < share as real && Due(share, b, total) as real <= x;
    }
  }

  lemma WholeDue(share: nat, total: nat)
    requires total > 0
    ensures Due(share, total, total) == share
  {
    ProductAsReal(share, total);
    var y := (share * total) as real;
    assert y == share as real * total as real;
    WholeRatio(share as real, total as real, y);
  }

  lemma WholeRatio(s: real, t: real, y: real)
    requires t > 0.0 && y == s * t
    ensures y / t == s
  {}

  lemma LessRatio(s: real, b: real, t: real)
    requires 0.0 <= b < t && s > 0.0
    ensures (s * b) / t < s
  {
    assert s * b < s * t;
    RatioLess(s * b, s, t);
  }

  lemma RatioLess(x: real, s: real, t: real)
    requires t > 0.0 && x < s * t
    ensures x / t < s
  {}

  lemma TookExactly(item: Item, sentences: seq<nat>, room: nat, rate: nat, chunkMs: nat)
    requires rate > 0 && chunkMs > 0 && item.Audio? && item.idx < |sentences| && room > 0
    ensures 0 <= TookBy(item, sentences, room, rate, chunkMs) <= room
    ensures TookBy(item, sentences, room, rate, chunkMs) == room <==> TakesAll(item, sentences, room, rate, chunkMs)
  {
    var share := Share(sentences, item.idx, room);
    CutWithinSum(item.pcms, rate, chunkMs);
    if HeardOut(item.pcms, rate, chunkMs) { HeardOutSounds(item.pcms, rate, chunkMs); }
    if Sounds(item.pcms, rate) {
      if share > 0 { DueInFull(share, CutAll(item.pcms, rate, chunkMs), Sum(item.pcms)); }
      else { NothingDue(CutAll(item.pcms, rate, chunkMs), Sum(item.pcms)); }
    }
  }

  lemma NothingDue(b: nat, total: nat)
    requires total > 0
    ensures Due(0, b, total) == 0
  {
    assert 0 * b == 0 && 0.0 / total as real == 0.0;
  }

  /** After `k` items nothing is left exactly when there was nothing, or one of them took all that
      was left before it. */
  lemma {:induction false} LeftNothingExactly(n: nat, sentences: seq<nat>, items: seq<Item>, k: nat, rate: nat,
      chunkMs: nat)
    requires rate > 0 && chunkMs > 0 && Fitting(sentences, items) && k <= |items|
    ensures 0 <= Left(n, sentences, items, k, rate, chunkMs) <= n
    ensures Left(n, sentences, items, k, rate, chunkMs) == 0 <==>
      n == 0 || exists i | 0 <= i < k :: Finishes(n, sentences, items, i, rate, chunkMs)
  {
    if k > 0 {
      LeftNothingExactly(n, sentences, items, k - 1, rate, chunkMs);
      var room := Left(n, sentences, items, k - 1, rate, chunkMs);
      assert items[k - 1] in items;
      if items[k - 1].Audio? && room > 0 { TookExactly(items[k - 1], sentences, room, rate, chunkMs); }
      assert Left(n, sentences, items, k, rate, chunkMs) == 0 <==>
        room == 0 || Finishes(n, sentences, items, k - 1, rate, chunkMs);
      if Finishes(n, sentences, items, k - 1, rate, chunkMs) {
        assert exists i | 0 <= i < k :: Finishes(n, sentences, items, i, rate, chunkMs);
      }
    }
  }

  predicate Finishes(n: nat, sentences: seq<nat>, items: seq<Item>, i: nat, rate: nat, chunkMs: nat)
    requires rate > 0 && chunkMs > 0 && Fitting(sentences, items) && i < |items|
  {
    var room := Left(n, sentences, items, i, rate, chunkMs);
    assert items[i] in items;
    items[i].Audio? && room > 0 && TakesAll(items[i], sentences, room, rate, chunkMs)
  }

  /** A clause is covered exactly if and only if it is empty or some sentence took all that was
      left: the last one heard out, or one no shorter than that whose bytes were all sent. */
  lemma CoveredExactly(n: nat, sentences: seq<nat>, items: seq<Item>, rate: nat, chunkMs: nat, chars: nat)
    requires rate > 0 && chunkMs > 0 && Fitting(sentences, items)
    requires chars == n - Left(n, sentences, items, |items|, rate, chunkMs)
    ensures chars == n <==>
      n == 0 || exists i | 0 <= i < |items| :: Finishes(n, sentences, items, i, rate, chunkMs)
  {
    LeftNothingExactly(n, sentences, items, |items|, rate, chunkMs);
  }

  /** In particular once the last sentence's last buffer lasts a millisecond, if chunks are whole. */
  lemma {:induction false} AudibleEndCovers(n: nat, sentences: seq<nat>, items: seq<Item>, i: nat, k: nat, rate: nat,
      chunkMs: nat)
    requires rate > 0 && chunkMs > 0 && FullChunks(rate, chunkMs) && Fitting(sentences, items)
    requires i < k <= |items| && EndsAudibly(sentences, items[i], rate)
    ensures Left(n, sentences, items, k, rate, chunkMs) == 0
  {
    LeftNothingExactly(n, sentences, items, k - 1, rate, chunkMs);
    if i == k - 1 {
      var pcms := items[i].pcms;
      AudibleCloses(pcms[|pcms| - 1], rate, chunkMs);
      HeardOutSounds(pcms, rate, chunkMs);
    } else {
      AudibleEndCovers(n, sentences, items, i, k - 1, rate, chunkMs);
    }
  }

  // ---------------------------------------------------------------- what the pipeline relies on

  function AsChunks(cs: seq<AudioChunk>): seq<Pipeline.Chunk> {
    seq(|cs|, i requires 0 <= i < |cs| => Pipeline.Chunk(cs[i].chars, cs[i].durMs))
  }

  /** The total that the coverage contracts of `PipelineSafety` speak of is what the meter gives
      out: so a metered TTS always fits, and covers a clause exactly when the meter does. */
  lemma {:induction false} MeterMeetsContract(cs: seq<AudioChunk>)
    ensures PipelineSafety.Total(AsChunks(cs)) == Chars(cs)
  {
    if cs != [] {
      assert AsChunks(cs)[1..] == AsChunks(cs[1..]);
      assert cs == [cs[0]] + cs[1..];
      CharsConcat([cs[0]], cs[1..]);
      assert [cs[0]][..0] == [];
      MeterMeetsContract(cs[1..]);
    }
  }

  /** A TTS whose chunks the meter gave out, clause by clause, never covers more than a clause; and
      it covers every clause exactly when the meter does. */
  lemma MeteredTtsFits(tts: PipelineSafety.Tts, metered: string -> seq<AudioChunk>)
    requires forall text :: tts(text) == AsChunks(metered(text)) && Chars(metered(text)) <= |text|
    ensures PipelineSafety.Fits(tts)
    ensures PipelineSafety.Covers(tts) <==> forall text :: Chars(metered(text)) == |text|
  {
    forall text ensures PipelineSafety.Total(tts(text)) == Chars(metered(text)) { MeterMeetsContract(metered(text)); }
  }
}
