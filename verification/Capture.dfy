/**
 The two reader threads that capture a subprocess's output under a byte cap, reading each
 other's counters without synchronisation, and the size of what they captured once it has
 been decoded with replacement and encoded again.
*/
module Capture {
  import opened Runs
  type Byte = x: int | 0 <= x < 256

  /** out and err are the counter values that a thread has read and not yet used. */
  datatype Pc =
    | Reading
    | Have(chunk: seq<Byte>)
    | SawOut(chunk: seq<Byte>, out: nat)
    | Fits(chunk: seq<Byte>)
    | Appended(chunk: seq<Byte>)
    | Over(chunk: seq<Byte>, total: nat)
    | OverSawOut(chunk: seq<Byte>, total: nat, out: nat)
    | Cut
    | Draining
    | Finished

  /** at bytes of the stream have been read, kept is the chunk list joined, counter the shared counter. */
  datatype Reader = Reader(stream: seq<Byte>, at: nat, kept: seq<Byte>, counter: nat, failed: bool, pc: Pc)

  /** dropped is history: a thread has thrown away bytes that it had read. */
  datatype Sys = Sys(cap: nat, out: Reader, err: Reader, truncated: bool, dropped: bool)

  datatype Work = Fetch(n: nat) | ReadFails | LoadOut | LoadErr | Append | Count | Mark

  datatype Step = Step(isOut: bool, work: Work)

  const CHUNK: nat := 4096

  function Mine(s: Sys, isOut: bool): Reader {
    if isOut then s.out else s.err
  }

  /** What the thread of r can do next. */
  predicate Ready(r: Reader, w: Work) {
    match w
    case Fetch(n) =>
      && (r.pc.Reading? || r.pc.Draining?)
      && n <= CHUNK && r.at + n <= |r.stream| && (n == 0 <==> r.at == |r.stream|)
    case ReadFails => r.pc.Reading? || r.pc.Draining?
    case LoadOut => r.pc.Have? || r.pc.Over?
    case LoadErr => r.pc.SawOut? || r.pc.OverSawOut?
    case Append => r.pc.Fits?
    case Count => r.pc.Appended?
    case Mark => r.pc.Cut?
  }

  /** How many bytes of the chunk are still allowed after a second look at the counters: as many as fit. */
  function Allowed(cap: nat, used: nat, chunk: nat): (n: nat)
    ensures n <= chunk
    ensures n > 0 ==> used + n <= cap
    ensures n < chunk ==> used + n >= cap
  {
    var left := if used < cap then cap - used else 0;
    if left < chunk then left else chunk
  }

  /** One step of a reader; out and err are the shared counters at this moment. */
  function Move(cap: nat, out: nat, err: nat, r: Reader, w: Work): Reader
    requires Ready(r, w)
  {
    match w
    case Fetch(n) =>
      if n == 0 then r.(pc := Finished)
      else if r.pc.Draining? then r.(at := r.at + n)
      else r.(at := r.at + n, pc := Have(r.stream[r.at..r.at + n]))
    case ReadFails => r.(pc := Finished, failed := true)
    case LoadOut =>
      if r.pc.Have? then r.(pc := SawOut(r.pc.chunk, out)) else r.(pc := OverSawOut(r.pc.chunk, r.pc.total, out))
    case LoadErr =>
      if r.pc.SawOut? then
        var total := r.pc.out + err + |r.pc.chunk|;
        if total > cap then r.(pc := Over(r.pc.chunk, total)) else r.(pc := Fits(r.pc.chunk))
      else r.(kept := r.kept + r.pc.chunk[..Allowed(cap, r.pc.out + err, |r.pc.chunk|)], pc := Cut)
    case Append => r.(kept := r.kept + r.pc.chunk, pc := Appended(r.pc.chunk))
    case Count => r.(counter := r.counter + |r.pc.chunk|, pc := Reading)
    case Mark => r.(pc := Draining)
  }

  predicate Enabled(s: Sys, step: Step) {
    Ready(Mine(s, step.isOut), step.work)
  }

  function Do(s: Sys, step: Step): Sys
    requires Enabled(s, step)
  {
    var r := Mine(s, step.isOut);
    var next := Move(s.cap, s.out.counter, s.err.counter, r, step.work);
    var t := if step.isOut then s.(out := next) else s.(err := next);
    t.(truncated := s.truncated || step.work.Mark?,
       dropped := s.dropped || (step.work.LoadErr? && next.pc.Cut? && |next.kept| < next.at))
  }

  predicate Fresh(r: Reader) {
    r.at == 0 && r.kept == [] && r.counter == 0 && !r.failed && r.pc.Reading?
  }

  predicate Init(s: Sys) {
    Fresh(s.out) && Fresh(s.err) && !s.truncated && !s.dropped
  }

  ghost predicate Next(s: Sys, t: Sys) {
    exists step :: Enabled(s, step) && t == Do(s, step)
  }

  ghost predicate Behavior(run: seq<Sys>) {
    IsRun(run, Init, Next)
  }

  // ----- the invariant -----

  predicate HasChunk(pc: Pc) {
    pc.Have? || pc.SawOut? || pc.Fits? || pc.Over? || pc.OverSawOut?
  }

  predicate Truncating(pc: Pc) {
    pc.Cut? || pc.Draining?
  }

  /** Own facts of one reader: what it kept is a prefix of its stream, and its counter is exact. */
  predicate ReaderInv(cap: nat, r: Reader) {
    && r.at <= |r.stream| && |r.kept| <= cap && |r.kept| <= r.at && r.kept == r.stream[..|r.kept|]
    && r.counter <= |r.kept|
    && (r.pc.Reading? ==> |r.kept| == r.at && r.counter == r.at)
    && (HasChunk(r.pc) ==>
          && |r.kept| + |r.pc.chunk| == r.at && |r.pc.chunk| > 0 && r.counter == |r.kept|
          && r.pc.chunk == r.stream[|r.kept|..r.at])
    && (r.pc.Fits? ==> |r.kept| + |r.pc.chunk| <= cap)
    && (r.pc.Appended? ==> |r.kept| == r.at && r.counter + |r.pc.chunk| == r.at)
    && (Truncating(r.pc) ==> |r.kept| < r.at)
  }

  /** Counters only grow, so values read earlier are lower bounds; the own counter is read exactly. */
  predicate SightInv(cap: nat, out: nat, err: nat, r: Reader, isOut: bool) {
    && r.counter == (if isOut then out else err)
    && (r.pc.SawOut? || r.pc.OverSawOut? ==> r.pc.out <= out && (isOut ==> r.pc.out == r.counter))
    && (r.pc.Over? ==> cap < r.pc.total <= out + err + |r.pc.chunk|)
    && (r.pc.OverSawOut? ==> cap < r.pc.total <= r.pc.out + err + |r.pc.chunk|)
  }

  predicate Side(s: Sys, isOut: bool) {
    ReaderInv(s.cap, Mine(s, isOut)) && SightInv(s.cap, s.out.counter, s.err.counter, Mine(s, isOut), isOut)
  }

  predicate Flags(s: Sys) {
    && (s.truncated ==> s.dropped)
    && (s.dropped ==> s.out.at + s.err.at > s.cap)
    && (s.dropped ==> s.truncated || s.out.pc.Cut? || s.err.pc.Cut?)
    && (s.out.pc.Cut? || s.err.pc.Cut? ==> s.dropped)
    && (s.out.pc.Draining? || s.err.pc.Draining? ==> s.truncated)
    && (s.out.pc.Finished? && !s.out.failed ==> |s.out.kept| == |s.out.stream| || s.truncated)
    && (s.err.pc.Finished? && !s.err.failed ==> |s.err.kept| == |s.err.stream| || s.truncated)
  }

  // ----- progress -----

  /** How far a reader is from its end: bytes to read first, then its place in the loop. */
  function Left(r: Reader): nat
    requires r.at <= |r.stream|
  {
    (|r.stream| - r.at) * 10 +
    match r.pc
    case Have(_) => 9
    case SawOut(_, _) => 8
    case Over(_, _) => 7
    case OverSawOut(_, _, _) => 6
    case Cut => 5
    case Fits(_) => 4
    case Appended(_) => 3
    case Reading => 2
    case Draining => 1
    case Finished => 0
  }

  /** Every step brings a reader closer to its end, and until then there is one that it can take. */
  lemma ReadersFinish(cap: nat, out: nat, err: nat, r: Reader)
    requires r.at <= |r.stream|
    ensures forall w :: Ready(r, w) ==>
              var next := Move(cap, out, err, r, w); next.at <= |next.stream| && Left(next) < Left(r)
    ensures !r.pc.Finished? ==> exists w :: Ready(r, w)
  {
    var w := match r.pc
      case Have(_) => LoadOut
      case SawOut(_, _) => LoadErr
      case Over(_, _) => LoadOut
      case OverSawOut(_, _, _) => LoadErr
      case Fits(_) => Append
      case Appended(_) => Count
      case Cut => Mark
      case _ => ReadFails;
    assert !r.pc.Finished? ==> Ready(r, w);
  }

  // ----- both streams together -----

  function Total(s: Sys): nat {
    |s.out.kept| + |s.err.kept|
  }

  /** What a reader has decided to append and has not appended yet. */
  function Pending(r: Reader): nat {
    if r.pc.Fits? then |r.pc.chunk| else 0
  }

  /** A reader is ahead of its counter, and of what it can still append, by at most one chunk. */
  predicate ChunkInv(r: Reader) {
    && (HasChunk(r.pc) || r.pc.Appended? ==> |r.pc.chunk| <= CHUNK)
    && |r.kept| <= r.counter + CHUNK
  }

  /**
   The first reader checks against the second counter as it is; the second one may have read the first
   counter long ago, and then it knows of all but one chunk or there still is room.
  */
  predicate Together(s: Sys) {
    && ChunkInv(s.out) && ChunkInv(s.err)
    && Total(s) + Pending(s.out) + Pending(s.err) <= s.cap + CHUNK
    && (s.err.pc.SawOut? || s.err.pc.OverSawOut? ==>
          && (Total(s) <= s.cap || |s.out.kept| <= s.err.pc.out + CHUNK)
          && (s.out.pc.Fits? ==> s.err.pc.out == s.out.counter || Total(s) + |s.out.pc.chunk| <= s.cap))
  }

  predicate Apart(s: Sys) {
    Side(s, true) && Side(s, false) && Flags(s)
  }

  /** Whoever has dropped bytes has kept those that still fit, so the cap is used up. */
  predicate UsedUp(s: Sys) {
    s.dropped ==> Total(s) >= s.cap
  }

  predicate Inv(s: Sys) {
    Apart(s) && Together(s) && UsedUp(s)
  }

  lemma MoveKeepsChunk(cap: nat, out: nat, err: nat, r: Reader, w: Work, isOut: bool)
    requires ReaderInv(cap, r) && SightInv(cap, out, err, r, isOut) && ChunkInv(r) && Ready(r, w)
    ensures ChunkInv(Move(cap, out, err, r, w))
  {
  }

  lemma OutKeepsTogether(s: Sys, w: Work)
    requires Inv(s) && Ready(s.out, w)
    ensures Together(s.(out := Move(s.cap, s.out.counter, s.err.counter, s.out, w)))
  {
    MoveKeepsChunk(s.cap, s.out.counter, s.err.counter, s.out, w, true);
  }

  lemma ErrKeepsTogether(s: Sys, w: Work)
    requires Inv(s) && Ready(s.err, w)
    ensures Together(s.(err := Move(s.cap, s.out.counter, s.err.counter, s.err, w)))
  {
    MoveKeepsChunk(s.cap, s.out.counter, s.err.counter, s.err, w, false);
  }

  lemma MoveKeepsReader(cap: nat, out: nat, err: nat, r: Reader, w: Work, isOut: bool)
    requires ReaderInv(cap, r) && SightInv(cap, out, err, r, isOut) && Ready(r, w)
    ensures var next := Move(cap, out, err, r, w);
            && ReaderInv(cap, next) && next.counter >= r.counter
            && SightInv(cap, if isOut then next.counter else out, if isOut then err else next.counter, next, isOut)
            && next.at >= r.at
            && (w.LoadErr? && next.pc.Cut? ==> |next.kept| < next.at && next.at + (if isOut then err else out) > cap)
            && (next.pc.Cut? ==> w.LoadErr?)
            && (next.pc.Draining? ==> w.Mark? || r.pc.Draining?)
            && (next.pc.Finished? && !next.failed ==> r.pc.Draining? || |next.kept| == |next.stream|)
  {
    var next := Move(cap, out, err, r, w);
    if w.Append? || (w.LoadErr? && r.pc.OverSawOut?) {
      var n := if w.Append? then |r.pc.chunk| else Allowed(cap, r.pc.out + err, |r.pc.chunk|);
      assert next.kept == r.stream[..|r.kept|] + r.stream[|r.kept|..r.at][..n];
      assert next.kept == r.stream[..|next.kept|];
    }
  }

  /** The other reader's facts survive growth of a counter that is not its own. */
  lemma SightSurvives(cap: nat, out: nat, err: nat, out': nat, err': nat, r: Reader, isOut: bool)
    requires SightInv(cap, out, err, r, isOut) && out <= out' && err <= err'
    requires if isOut then out' == out else err' == err
    ensures SightInv(cap, out', err', r, isOut)
  {
  }

  lemma StepKeepsApart(s: Sys, step: Step)
    requires Apart(s) && Enabled(s, step)
    ensures Apart(Do(s, step))
  {
    var t := Do(s, step);
    assert Side(t, step.isOut) && Side(t, !step.isOut) && Flags(t) by {
      MoveKeepsReader(s.cap, s.out.counter, s.err.counter, Mine(s, step.isOut), step.work, step.isOut);
      SightSurvives(s.cap, s.out.counter, s.err.counter, t.out.counter, t.err.counter,
                    Mine(s, !step.isOut), !step.isOut);
    }
  }

  lemma StepKeepsUsedUp(s: Sys, step: Step)
    requires Inv(s) && Enabled(s, step)
    ensures UsedUp(Do(s, step))
  {
    var r := Mine(s, step.isOut);
    var next := Move(s.cap, s.out.counter, s.err.counter, r, step.work);
    assert |next.kept| >= |r.kept|;
    if step.work.LoadErr? && next.pc.Cut? {
      assert r.pc.OverSawOut?;
      var used := r.pc.out + s.err.counter;
      assert used + |r.pc.chunk| > s.cap;
      assert |next.kept| == |r.kept| + Allowed(s.cap, used, |r.pc.chunk|);
    }
  }

  lemma StepKeepsInv(s: Sys, step: Step)
    requires Inv(s) && Enabled(s, step)
    ensures Inv(Do(s, step))
  {
    StepKeepsApart(s, step);
    StepKeepsUsedUp(s, step);
    if step.isOut {
      OutKeepsTogether(s, step.work);
    } else {
      ErrKeepsTogether(s, step.work);
    }
  }

  lemma NextKeepsInv(s: Sys, t: Sys)
    requires Inv(s) && Next(s, t)
    ensures Inv(t)
  {
    var step :| Enabled(s, step) && t == Do(s, step);
    StepKeepsInv(s, step);
  }

  lemma Reachable(run: seq<Sys>, i: nat)
    requires Behavior(run) && i < |run|
    ensures Inv(run[i])
  {
    forall s, t | Inv(s) && Next(s, t) ensures Inv(t) {
      NextKeepsInv(s, t);
    }
    Keeps(run, Init, Next, Inv, i);
  }

  /** By how much both streams together may exceed the cap. */
  function Slack(cap: nat): nat {
    if cap < CHUNK then cap else CHUNK
  }

  /**
   Whenever the result is collected: each captured stream is a prefix of the real one within the
   cap, and both together exceed the cap by at most one chunk, and by no more than the cap. Once both
   readers are done, the result is marked truncated exactly if one of them dropped bytes; otherwise
   nothing that could be read is missing. Bytes are dropped only when the two streams together exceed
   the cap, and only once at least cap bytes have been kept.
  */
  lemma CaptureBounds(run: seq<Sys>, i: nat)
    requires Behavior(run) && i < |run|
    ensures var s := run[i];
            && s.out.kept <= s.out.stream && s.err.kept <= s.err.stream
            && |s.out.kept| <= s.cap && |s.err.kept| <= s.cap
            && |s.out.kept| + |s.err.kept| <= s.cap + Slack(s.cap)
            && (s.out.pc.Finished? && s.err.pc.Finished? ==> (s.truncated <==> s.dropped))
            && (s.out.pc.Finished? && s.err.pc.Finished? && !s.truncated && !s.out.failed && !s.err.failed ==>
                  s.out.kept == s.out.stream && s.err.kept == s.err.stream)
            && (s.dropped ==> |s.out.stream| + |s.err.stream| > s.cap)
            && (s.dropped ==> |s.out.kept| + |s.err.kept| >= s.cap)
  {
    Reachable(run, i);
  }

  lemma Extended(run: seq<Sys>, step: Step) returns (longer: seq<Sys>)
    requires Behavior(run) && Enabled(run[|run| - 1], step)
    ensures Behavior(longer) && longer == run + [Do(run[|run| - 1], step)]
  {
    longer := run + [Do(run[|run| - 1], step)];
    Runs.Extended(run, Init, Next, Do(run[|run| - 1], step));
  }

  /**
   The second reader has looked at the first counter before anything was captured; the first has kept k
   bytes since.
  */
  function Filling(out: seq<Byte>, err: seq<Byte>, k: nat): Sys
    requires k <= |out|
  {
    var first := Reader(out, k, out[..k], k, false, Reading);
    var second := Reader(err, |err|, [], 0, false, SawOut(err, 0));
    Sys(|out|, first, second, false, false)
  }

  lemma OneChunk(run: seq<Sys>, out: seq<Byte>, err: seq<Byte>, k: nat, n: nat) returns (longer: seq<Sys>)
    requires k + n <= |out| && 0 < n <= CHUNK
    requires Behavior(run) && run[|run| - 1] == Filling(out, err, k)
    ensures Behavior(longer) && longer[0] == run[0] && longer[|longer| - 1] == Filling(out, err, k + n)
  {
    longer := Extended(run, Step(true, Fetch(n)));
    longer := Extended(longer, Step(true, LoadOut));
    longer := Extended(longer, Step(true, LoadErr));
    longer := Extended(longer, Step(true, Append));
    assert out[..k] + out[k..k + n] == out[..k + n];
    longer := Extended(longer, Step(true, Count));
  }

  lemma {:induction false} Filled(run: seq<Sys>, out: seq<Byte>, err: seq<Byte>, k: nat) returns (longer: seq<Sys>)
    requires k <= |out| && Behavior(run) && run[|run| - 1] == Filling(out, err, k)
    ensures Behavior(longer) && longer[0] == run[0] && longer[|longer| - 1] == Filling(out, err, |out|)
    decreases |out| - k
  {
    if k == |out| {
      longer := run;
    } else {
      var n := if |out| - k < CHUNK then |out| - k else CHUNK;
      longer := OneChunk(run, out, err, k, n);
      longer := Filled(longer, out, err, k + n);
    }
  }

  /**
   The bound on both together is exact for every cap: the second reader looks at the first counter, the
   first stream fills the cap, and then the second reader still appends its whole chunk.
  */
  lemma CapPlusChunkIsReached(out: seq<Byte>, err: seq<Byte>) returns (run: seq<Sys>)
    requires |err| == Slack(|out|)
    ensures Behavior(run) && run[0].cap == |out|
    ensures var last := run[|run| - 1];
            |last.out.kept| + |last.err.kept| == last.cap + Slack(last.cap) && last.cap == |out| && !last.truncated
  {
    run := [Sys(|out|, Reader(out, 0, [], 0, false, Reading), Reader(err, 0, [], 0, false, Reading), false, false)];
    if out == [] {
    } else {
      run := Extended(run, Step(false, Fetch(|err|)));
      assert err[0..0 + |err|] == err;
      run := Extended(run, Step(false, LoadOut));
      assert run[|run| - 1] == Filling(out, err, 0);
      run := Filled(run, out, err, 0);
      run := Extended(run, Step(false, LoadErr));
      run := Extended(run, Step(false, Append));
    }
  }

  // ----- decoding with replacement, then encoding again -----

  predicate Tail(b: seq<Byte>, i: nat, lo: int, hi: int) {
    i < |b| && lo <= b[i] <= hi
  }

  /**
   The first unit of a non-empty byte string: how many bytes it takes, and whether they are one
   well-formed UTF-8 character (section 4 of RFC 3629) or a maximal ill-formed part.
  */
  function Unit(b: seq<Byte>): (u: (nat, bool))
    requires |b| > 0
    ensures 0 < u.0 <= |b| && u.0 <= 4
  {
    var h := b[0];
    if h < 0x80 then (1, true)
    else if 0xC2 <= h <= 0xDF then
      if Tail(b, 1, 0x80, 0xBF) then (2, true) else (1, false)
    else if 0xE0 <= h <= 0xEF then
      if !Tail(b, 1, if h == 0xE0 then 0xA0 else 0x80, if h == 0xED then 0x9F else 0xBF) then (1, false)
      else if !Tail(b, 2, 0x80, 0xBF) then (2, false)
      else (3, true)
    else if 0xF0 <= h <= 0xF4 then
      if !Tail(b, 1, if h == 0xF0 then 0x90 else 0x80, if h == 0xF4 then 0x8F else 0xBF) then (1, false)
      else if !Tail(b, 2, 0x80, 0xBF) then (2, false)
      else if !Tail(b, 3, 0x80, 0xBF) then (3, false)
      else (4, true)
    else (1, false)
  }

  /** A character that UTF-8 can encode. */
  type Scalar = c: int | 0 <= c < 0xD800 || 0xE000 <= c < 0x110000

  /** Its encoding (section 3 of RFC 3629). */
  function Utf8(c: Scalar): (b: seq<Byte>)
    ensures 0 < |b| <= 4
  {
    if c < 0x80 then [c]
    else if c < 0x800 then [0xC0 + c / 64, 0x80 + c % 64]
    else if c < 0x10000 then [0xE0 + c / 4096, 0x80 + c / 64 % 64, 0x80 + c % 64]
    else [0xF0 + c / 262144, 0x80 + c / 4096 % 64, 0x80 + c / 64 % 64, 0x80 + c % 64]
  }

  /** The encoding of a character is recognised in front of anything, and is taken as one unit. */
  lemma UnitOfCharacter(c: Scalar, rest: seq<Byte>)
    ensures Unit(Utf8(c) + rest) == (|Utf8(c)|, true)
  {
    var b := Utf8(c) + rest;
    assert b[0] == Utf8(c)[0] && (|Utf8(c)| > 1 ==> b[1] == Utf8(c)[1]);
    assert |Utf8(c)| > 2 ==> b[2] == Utf8(c)[2];
    assert |Utf8(c)| > 3 ==> b[3] == Utf8(c)[3];
  }

  lemma Digit(q: nat, r: nat)
    requires r < 64
    ensures (q * 64 + r) / 64 == q && (q * 64 + r) % 64 == r
  {
  }

  lemma Digits(c: nat)
    ensures c / 4096 == c / 64 / 64 && c / 262144 == c / 64 / 64 / 64
  {
  }

  /** The character with these three or four digits to the base 64. */
  lemma FromDigits(h: nat, x: nat, y: nat, z: nat) returns (c: nat)
    requires x < 64 && y < 64 && z < 64
    ensures c == h * 262144 + x * 4096 + y * 64 + z
    ensures c / 262144 == h && c / 4096 == h * 64 + x && c / 4096 % 64 == x && c / 64 % 64 == y && c % 64 == z
  {
    c := ((h * 64 + x) * 64 + y) * 64 + z;
    Digit((h * 64 + x) * 64 + y, z);
    Digit(h * 64 + x, y);
    Digit(h, x);
    Digits(c);
  }

  /** Nothing else is taken for a character. */
  lemma CharacterOfUnit(b: seq<Byte>) returns (c: Scalar)
    requires |b| > 0 && Unit(b).1
    ensures Utf8(c) == b[..Unit(b).0]
  {
    var n := Unit(b).0;
    var w: int := b[0];
    if n == 1 {
      c := w;
    } else if n == 2 {
      var x: int := b[1];
      c := FromDigits(0, 0, w - 0xC0, x - 0x80);
    } else if n == 3 {
      var x: int, y: int := b[1], b[2];
      c := FromDigits(0, w - 0xE0, x - 0x80, y - 0x80);
    } else {
      var x: int, y: int, z: int := b[1], b[2], b[3];
      c := FromDigits(w - 0xF0, x - 0x80, y - 0x80, z - 0x80);
    }
    assert |Utf8(c)| == n;
  }

  function Encoded(text: seq<Scalar>): seq<Byte> {
    if text == [] then [] else Utf8(text[0]) + Encoded(text[1..])
  }

  /** The text again as bytes: U+FFFD, three bytes long, stands for each ill-formed part. */
  function Reencoded(b: seq<Byte>): seq<Byte> {
    if b == [] then []
    else
      var (n, ok) := Unit(b);
      (if ok then b[..n] else [0xEF, 0xBF, 0xBD]) + Reencoded(b[n..])
  }

  lemma {:induction false} GrowsAtMostThreefold(b: seq<Byte>)
    ensures |Reencoded(b)| <= 3 * |b|
    decreases |b|
  {
    if b == [] {
    } else {
      GrowsAtMostThreefold(b[Unit(b).0..]);
    }
  }

  /** Well-formed output comes back byte for byte. */
  lemma {:induction false} TextSurvives(text: seq<Scalar>)
    ensures Reencoded(Encoded(text)) == Encoded(text)
  {
    if text == [] {
    } else {
      TextSurvives(text[1..]);
      UnitOfCharacter(text[0], Encoded(text[1..]));
      var b := Encoded(text);
      assert b[..|Utf8(text[0])|] == Utf8(text[0]) && b[|Utf8(text[0])|..] == Encoded(text[1..]);
    }
  }

  /** A lone ill-formed byte grows threefold, so the factor is exact. */
  lemma {:induction false} ThreefoldIsReached(n: nat)
    ensures |Reencoded(seq(n, _ => 0xFF as Byte))| == 3 * n
  {
    if n == 0 {
    } else {
      assert seq(n, _ => 0xFF as Byte)[1..] == seq(n - 1, _ => 0xFF as Byte);
      ThreefoldIsReached(n - 1);
    }
  }

  const MAX_CAP: nat := 10 * 1024 * 1024
  const MAX_OBSERVED: nat := 40 * 1024 * 1024

  /** With any configurable cap, the byte counts of a timeout record are within its field limits. */
  lemma TimeoutCountsFit(run: seq<Sys>, i: nat)
    requires Behavior(run) && i < |run| && run[i].cap <= MAX_CAP
    ensures |Reencoded(run[i].out.kept)| <= MAX_OBSERVED && |Reencoded(run[i].err.kept)| <= MAX_OBSERVED
  {
    CaptureBounds(run, i);
    GrowsAtMostThreefold(run[i].out.kept);
    GrowsAtMostThreefold(run[i].err.kept);
  }
}
