/**
 The resumable download of internal/agent/download.go: the staging file across attempts, against
 a server that serves one fixed image, and the time slept between attempts.
 */
module Downloads {
  import opened Wrappers

  /** How one HTTP exchange ended; `clean` is false when the transfer was cut after `body`. */
  datatype Reply =
    | NoReply                             // connection error, stall or deadline
    | OtherStatus(code: int)
    | Full(body: string, clean: bool)     // 200
    | Partial(body: string, clean: bool)  // 206
    | Unsatisfiable                       // 416

  predicate Prefix(s: string, image: string) {
    s <= image
  }

  /** Size of the partial file; a Range header "bytes=offset-" is sent when it is positive. */
  function Offset(dest: Option<string>): nat {
    if dest.Some? then |dest.value| else 0
  }

  /**
   What a server of `image` may answer (RFC 9110). It may ignore Range (section 14.2); a 206
   carries the selected range (15.3.7), which must exist; 416 answers a Range request only
   (15.5.17). Any transfer may be cut, and other errors may occur at any time.
   */
  predicate Follows(image: string, offset: nat, r: Reply) {
    match r
    case NoReply => true
    case OtherStatus(code) => code !in [200, 206, 416]
    case Full(body, clean) => Prefix(body, image) && (clean ==> body == image)
    case Partial(body, clean) =>
      && 0 < offset < |image|
      && Prefix(body, image[offset..]) && (clean ==> body == image[offset..])
    case Unsatisfiable => offset > 0
  }

  /** downloadOnce on the file: append a 206, restart on a 200, remove the file on a 416. */
  function FileAfter(dest: Option<string>, r: Reply): Option<string> {
    match r
    case NoReply => dest
    case OtherStatus(_) => dest
    case Full(body, _) => Some(body)
    case Partial(body, _) => if dest.Some? then Some(dest.value + body) else Some(body)
    case Unsatisfiable => None
  }

  predicate Succeeds(r: Reply) {
    (r.Full? || r.Partial?) && r.clean
  }

  /** The replies are what the server may give to the requests the attempts make. */
  predicate Served(image: string, dest: Option<string>, rs: seq<Reply>)
    decreases |rs|
  {
    rs != [] ==> Follows(image, Offset(dest), rs[0]) && Served(image, FileAfter(dest, rs[0]), rs[1..])
  }

  predicate PartOf(dest: Option<string>, image: string) {
    dest.Some? ==> Prefix(dest.value, image)
  }

  /** However the exchange ends, a partial file stays a prefix; success completes it. */
  lemma AttemptKeepsPrefix(image: string, dest: Option<string>, r: Reply)
    requires PartOf(dest, image) && Follows(image, Offset(dest), r)
    ensures PartOf(FileAfter(dest, r), image)
    ensures Succeeds(r) ==> FileAfter(dest, r) == Some(image)
    ensures r.Unsatisfiable? ==> FileAfter(dest, r) == None
  {
    if r.Partial? {
      assert dest.value == image[..|dest.value|];
      assert image == image[..|dest.value|] + image[|dest.value|..];
    }
  }

  /**
   Resuming is sound exactly for a prefix of the served image: after a clean 206 the file is the
   image if and only if the bytes kept were one.
   */
  lemma ResumeNeedsPrefix(image: string, kept: string, r: Reply)
    requires r.Partial? && r.clean && Follows(image, |kept|, r)
    ensures FileAfter(Some(kept), r) == Some(image) <==> Prefix(kept, image)
  {
    assert image == image[..|kept|] + image[|kept|..];
    if kept + r.body == image {
      assert (kept + r.body)[..|kept|] == kept;
    }
  }

  // ---- Bytes on the wire ----

  function Delivered(rs: seq<Reply>): nat
    decreases |rs|
  {
    if rs == [] then 0
    else
      var last := rs[|rs| - 1];
      Delivered(rs[..|rs| - 1]) + if last.Full? || last.Partial? then |last.body| else 0
  }

  function FileAfterAll(dest: Option<string>, rs: seq<Reply>): Option<string>
    decreases |rs|
  {
    if rs == [] then dest else FileAfter(FileAfterAll(dest, rs[..|rs| - 1]), rs[|rs| - 1])
  }

  /** While the server honours Range, no byte is fetched twice: the file holds all that was delivered. */
  lemma {:induction false} NothingFetchedTwice(dest: Option<string>, rs: seq<Reply>)
    requires forall r | r in rs :: r.NoReply? || r.OtherStatus? || r.Partial?
    ensures Offset(FileAfterAll(dest, rs)) == Offset(dest) + Delivered(rs)
    decreases |rs|
  {
    if rs != [] {
      NothingFetchedTwice(dest, rs[..|rs| - 1]);
    }
  }

  /** However many attempts are made, the file is a prefix of the image; after a success it is the image. */
  lemma {:induction false} AllKeepPrefix(image: string, dest: Option<string>, rs: seq<Reply>, n: nat)
    requires PartOf(dest, image) && Served(image, dest, rs) && n <= |rs|
    ensures PartOf(FileAfterAll(dest, rs[..n]), image) && Served(image, FileAfterAll(dest, rs[..n]), rs[n..])
    ensures n > 0 && Succeeds(rs[n - 1]) ==> FileAfterAll(dest, rs[..n]) == Some(image)
  {
    if n > 0 {
      AllKeepPrefix(image, dest, rs, n - 1);
      assert rs[..n][..n - 1] == rs[..n - 1] && rs[n - 1..][1..] == rs[n..];
      AttemptKeepsPrefix(image, FileAfterAll(dest, rs[..n - 1]), rs[n - 1]);
    }
  }

  /** After a 416 the next request is without Range, so it is answered by neither a 206 nor a 416. */
  lemma {:induction false} NoRangeAfter416(image: string, dest: Option<string>, rs: seq<Reply>, i: nat)
    requires Served(image, dest, rs) && i + 1 < |rs| && rs[i].Unsatisfiable?
    ensures !rs[i + 1].Partial? && !rs[i + 1].Unsatisfiable?
    decreases i
  {
    if i > 0 {
      NoRangeAfter416(image, FileAfter(dest, rs[0]), rs[1..], i - 1);
    } else {
      assert rs[1..][0] == rs[1];
    }
  }

  predicate KeepsFile(r: Reply) {
    r.NoReply? || r.OtherStatus? || r.Partial?
  }

  /** The bodies of the 206 answers, in order. */
  function Bodies(rs: seq<Reply>): string
    decreases |rs|
  {
    if rs == [] then ""
    else Bodies(rs[..|rs| - 1]) + Body(rs[|rs| - 1])
  }

  function Content(dest: Option<string>): string {
    if dest.Some? then dest.value else ""
  }

  function Body(r: Reply): string {
    if r.Partial? then r.body else ""
  }

  lemma KeepAppends(dest: Option<string>, r: Reply)
    requires KeepsFile(r)
    ensures Content(FileAfter(dest, r)) == Content(dest) + Body(r)
    ensures FileAfter(dest, r).None? <==> dest.None? && !r.Partial?
  {
  }

  lemma TailBodies(rs: seq<Reply>, j: nat)
    requires j + 1 < |rs|
    ensures Bodies(rs[j + 1..]) == Bodies(rs[..|rs| - 1][j + 1..]) + Body(rs[|rs| - 1])
  {
    var n, tail := |rs| - 1, rs[j + 1..];
    assert tail[..n - j - 1] == rs[..n][j + 1..] && tail[n - j - 1] == rs[n];
  }

  lemma Assoc(a: string, b: string, c: string)
    ensures a + b + c == a + (b + c)
  {
  }

  /** Answer `j` restarts the download and none after it does: a 200 starts a file anew, a 416 removes it. */
  predicate LastRestart(rs: seq<Reply>, j: nat) {
    j < |rs| && !KeepsFile(rs[j]) && forall i | j < i < |rs| :: KeepsFile(rs[i])
  }

  lemma OneLess(rs: seq<Reply>, j: nat)
    requires LastRestart(rs, j) && j + 1 < |rs|
    ensures LastRestart(rs[..|rs| - 1], j) && rs[..|rs| - 1][j] == rs[j] && KeepsFile(rs[|rs| - 1])
  {
  }

  /** The file then is what has been delivered since. */
  lemma {:induction false} FileSinceRestart(dest: Option<string>, rs: seq<Reply>, j: nat)
    requires LastRestart(rs, j)
    ensures Content(FileAfterAll(dest, rs)) == (if rs[j].Full? then rs[j].body else "") + Bodies(rs[j + 1..])
    decreases |rs|
  {
    var n := |rs| - 1;
    if j < n {
      OneLess(rs, j);
      FileSinceRestart(dest, rs[..n], j);
      KeepAppends(FileAfterAll(dest, rs[..n]), rs[n]);
      TailBodies(rs, j);
      Assoc(if rs[j].Full? then rs[j].body else "", Bodies(rs[..n][j + 1..]), Body(rs[n]));
    } else {
      assert rs[j + 1..] == [];
    }
  }

  /** And there is none exactly after a 416 that no 206 has followed. */
  lemma {:induction false} NoFileSinceRestart(dest: Option<string>, rs: seq<Reply>, j: nat)
    requires LastRestart(rs, j)
    ensures FileAfterAll(dest, rs).None? <==> rs[j].Unsatisfiable? && forall i | j < i < |rs| :: !rs[i].Partial?
    decreases |rs|
  {
    var n := |rs| - 1;
    if j < n {
      OneLess(rs, j);
      NoFileSinceRestart(dest, rs[..n], j);
      assert forall i | j < i < n :: rs[..n][i] == rs[i];
      KeepAppends(FileAfterAll(dest, rs[..n]), rs[n]);
    }
  }

  // ---- Backoff ----

  const TWO63 := 0x8000_0000_0000_0000

  function Pow2(k: nat): nat {
    if k == 0 then 1 else 2 * Pow2(k - 1)
  }

  /** A left shift of a signed 64-bit duration. */
  function Shl64(x: int, k: nat): int {
    var low := (x * Pow2(k)) % (2 * TWO63);
    if low < TWO63 then low else low - 2 * TWO63
  }

  function Min(a: int, b: int): int {
    if a < b then a else b
  }

  /** The backoff before attempt `attempt` (counted from 0). */
  function Backoff(o: Options, attempt: nat): int
    requires attempt > 0
  {
    Min(Shl64(o.baseBackoff, attempt - 1), o.maxBackoff)
  }

  datatype Options = Options(maxAttempts: int, baseBackoff: int, maxBackoff: int) {
    function WithDefaults(): Options {
      Options(if maxAttempts == 0 then 5 else maxAttempts,
              if baseBackoff == 0 then 500_000_000 else baseBackoff,
              if maxBackoff == 0 then 15_000_000_000 else maxBackoff)
    }

    /** Positive durations whose largest shift still fits in 63 bits. */
    predicate Safe() {
      && baseBackoff > 0 && maxBackoff > 0
      && (maxAttempts >= 2 ==> baseBackoff * Pow2(maxAttempts - 2) < TWO63)
    }
  }

  lemma Pow2Grows(j: nat, k: nat)
    requires j <= k
    ensures 1 <= Pow2(j) <= Pow2(k)
    decreases k
  {
    if j < k {
      Pow2Grows(j, k - 1);
    } else if k > 0 {
      Pow2Grows(j - 1, k - 1);
    }
  }

  lemma BackoffExact(o: Options, attempt: nat)
    requires o.Safe() && 1 <= attempt < o.maxAttempts
    ensures Backoff(o, attempt) == Min(o.baseBackoff * Pow2(attempt - 1), o.maxBackoff) > 0
  {
    Pow2Grows(attempt - 1, o.maxAttempts - 2);
    MulMonotone(o.baseBackoff, Pow2(attempt - 1), Pow2(o.maxAttempts - 2));
  }

  lemma MulMonotone(a: nat, b: nat, c: nat)
    requires b <= c
    ensures a * b <= a * c && (a > 0 && b > 0 ==> a * b > 0)
  {
    if a > 0 && b > 0 {
      assert a * b >= 1 * b;
    }
  }

  lemma {:induction false} Pow2Sum(j: nat, k: nat)
    ensures Pow2(j + k) == Pow2(j) * Pow2(k)
    decreases j
  {
    if j > 0 {
      Pow2Sum(j - 1, k);
    }
  }

  /** Every retry has a positive backoff to draw from. */
  ghost predicate CanDraw(o: Options) {
    forall a: nat | 1 <= a < o.maxAttempts :: Backoff(o, a) > 0
  }

  /** The first `attempts` attempts do. */
  predicate Drawn(o: Options, attempts: nat) {
    attempts <= 1 || (Drawn(o, attempts - 1) && Backoff(o, attempts - 1) > 0)
  }

  lemma {:induction false} DrawnMeansEach(o: Options, attempts: nat, a: nat)
    requires Drawn(o, attempts) && 1 <= a < attempts
    ensures Backoff(o, a) > 0
  {
    if a < attempts - 1 {
      DrawnMeansEach(o, attempts - 1, a);
    }
  }

  /** The retry at which the draw panics. */
  predicate PanicsAt(o: Options, attempt: nat) {
    0 < attempt < o.maxAttempts && Backoff(o, attempt) <= 0
  }

  lemma PanicLaw(o: Options, attempts: nat)
    ensures o.Safe() ==> !PanicsAt(o, attempts)
    ensures -TWO63 <= o.baseBackoff < TWO63 && o.maxAttempts >= 2 && Drawn(o, attempts) && attempts >= o.maxAttempts ==> o.Safe()
  {
    if o.Safe() && 0 < attempts < o.maxAttempts {
      BackoffExact(o, attempts);
    }
    if -TWO63 <= o.baseBackoff < TWO63 && o.maxAttempts >= 2 {
      DrawsExactlyWhenSafe(o);
      if Drawn(o, attempts) && attempts >= o.maxAttempts {
        forall a: nat | 1 <= a < o.maxAttempts ensures Backoff(o, a) > 0 {
          DrawnMeansEach(o, attempts, a);
        }
      }
    }
  }

  lemma ShiftIn63Bits(x: int, k: nat)
    requires 0 <= x * Pow2(k) < 2 * TWO63
    ensures Shl64(x, k) == if x * Pow2(k) < TWO63 then x * Pow2(k) else x * Pow2(k) - 2 * TWO63
  {
    SmallHasNoWrap(x * Pow2(k));
  }

  lemma SmallHasNoWrap(m: int)
    requires 0 <= m < 2 * TWO63
    ensures m % (2 * TWO63) == m
  {
  }

  lemma ShiftByNone(x: int)
    requires -TWO63 <= x < TWO63
    ensures Shl64(x, 0) == x
  {
    assert x * Pow2(0) == x;
  }

  /** The first shift that leaves 63 bits sets the sign bit, so positive backoffs are exact ones. */
  lemma {:induction false} DrawnMeansExact(o: Options, j: nat)
    requires -TWO63 <= o.baseBackoff < TWO63 && CanDraw(o) && j + 2 <= o.maxAttempts
    ensures 0 < o.baseBackoff * Pow2(j) < TWO63
  {
    assert Backoff(o, j + 1) > 0;
    if j == 0 {
      ShiftByNone(o.baseBackoff);
      assert o.baseBackoff * Pow2(0) == o.baseBackoff;
    } else {
      DrawnMeansExact(o, j - 1);
      assert o.baseBackoff * Pow2(j) == 2 * (o.baseBackoff * Pow2(j - 1));
      ShiftIn63Bits(o.baseBackoff, j);
    }
  }

  /** For 64-bit durations the random draws never panic if and only if the options are safe. */
  lemma DrawsExactlyWhenSafe(o: Options)
    requires -TWO63 <= o.baseBackoff < TWO63 && o.maxAttempts >= 2
    ensures CanDraw(o) <==> o.Safe()
  {
    if o.Safe() {
      forall a: nat | 1 <= a < o.maxAttempts ensures Backoff(o, a) > 0 {
        BackoffExact(o, a);
      }
    } else if CanDraw(o) {
      assert Backoff(o, 1) > 0;
      DrawnMeansExact(o, 0);
      DrawnMeansExact(o, o.maxAttempts - 2);
      assert false;
    }
  }

  /** With the default backoffs that is up to 36 attempts; a 37th would draw from a negative range. */
  lemma DefaultsAreSafeUpTo36(n: nat)
    requires n >= 2
    ensures var o := Options(n, 0, 0).WithDefaults();
            (CanDraw(o) <==> n <= 36) && Backoff(o, 36) < 0
  {
    var o := Options(n, 0, 0).WithDefaults();
    Pow2Of34();
    DrawsExactlyWhenSafe(o);
    ShiftIn63Bits(o.baseBackoff, 35);
    if n <= 36 {
      Pow2Grows(n - 2, 34);
    } else {
      Pow2Grows(35, n - 2);
    }
  }

  lemma Pow2Of34()
    ensures Pow2(34) == 0x4_0000_0000 && Pow2(35) == 0x8_0000_0000
  {
    assert Pow2(2) == 4 && Pow2(8) == 256;
    Pow2Sum(8, 8);
    Pow2Sum(16, 16);
    Pow2Sum(32, 2);
    assert Pow2(35) == 2 * Pow2(34);
  }

  /** From the 65th retry on the shift has pushed every bit out: no backoff is left to draw from. */
  lemma BackoffVanishes(o: Options, attempt: nat)
    requires attempt >= 65 && o.maxBackoff >= 0
    ensures Backoff(o, attempt) == 0
  {
    var k := attempt - 1;
    Pow2Sum(64, k - 64);
    Pow2Of64();
    var m := o.baseBackoff * Pow2(k - 64);
    assert o.baseBackoff * Pow2(k) == m * (2 * TWO63);
    MultipleHasNoRest(m, 2 * TWO63);
  }

  lemma Pow2Of64()
    ensures Pow2(64) == 2 * TWO63
  {
    assert Pow2(8) == 256;
    Pow2Sum(8, 8);
    Pow2Sum(16, 16);
    Pow2Sum(32, 32);
  }

  lemma MultipleHasNoRest(m: int, n: int)
    requires n > 0
    ensures (m * n) % n == 0
  {
    var q, r := (m * n) / n, (m * n) % n;
    assert m * n == q * n + r;
    assert (m - q) * n == r;
    AtLeastOneMultiple(m - q, n);
  }

  lemma AtLeastOneMultiple(a: int, n: int)
    requires n > 0
    ensures (a >= 1 ==> a * n >= n) && (a <= -1 ==> a * n <= -n)
  {
  }

  /** Half the backoff plus a random draw below it: between 1/2 and 3/2 of the backoff. */
  function Jittered(backoff: int, draw: nat): (sleep: int)
    requires backoff > 0
    ensures backoff / 2 <= sleep && 2 * sleep < 3 * backoff
    ensures 2 * sleep <= 3 * backoff - 2
  {
    backoff / 2 + draw % backoff
  }

  /** Jitter reaches every sleep between half the backoff and its own length above that. */
  lemma JitterReachesAll(backoff: int, sleep: int)
    requires backoff > 0 && backoff / 2 <= sleep < backoff / 2 + backoff
    ensures exists draw: nat :: Jittered(backoff, draw) == sleep
  {
    var draw: nat := sleep - backoff / 2;
    SmallRest(draw, backoff);
    assert Jittered(backoff, draw) == sleep;
  }

  lemma SmallRest(m: nat, n: nat)
    requires m < n
    ensures m % n == m
  {
  }

  /** The default schedule: five attempts, half a second doubling, and never more than fifteen seconds. */
  lemma DefaultSchedule()
    ensures var o := Options(0, 0, 0).WithDefaults();
            && o.maxAttempts == 5 && o.Safe()
            && Backoff(o, 1) == 500_000_000 && Backoff(o, 2) == 1_000_000_000
            && Backoff(o, 3) == 2_000_000_000 && Backoff(o, 4) == 4_000_000_000
            && Backoff(o, 5) == 8_000_000_000 && Backoff(o, 6) == 15_000_000_000
    ensures forall n: int, b: int, m: int | n != 0 && b != 0 && m != 0 :: Options(n, b, m).WithDefaults() == Options(n, b, m)
  {
    assert Pow2(3) == 8;
    assert Pow2(5) == 4 * Pow2(3);
  }

  /** Sleeps taken once `attempts` attempts have been made. */
  function Sleeps(attempts: nat): nat {
    if attempts == 0 then 0 else attempts - 1
  }

  function BackoffSum(o: Options, sleeps: nat): int {
    if sleeps == 0 then 0
    else BackoffSum(o, sleeps - 1) + Min(o.baseBackoff * Pow2(sleeps - 1), o.maxBackoff)
  }

  lemma {:induction false} BackoffSumBound(o: Options, sleeps: nat)
    requires o.baseBackoff > 0 && o.maxBackoff > 0
    ensures 0 <= BackoffSum(o, sleeps) <= o.baseBackoff * (Pow2(sleeps) - 1)
    ensures BackoffSum(o, sleeps) <= o.maxBackoff * sleeps
  {
    if sleeps > 0 {
      BackoffSumBound(o, sleeps - 1);
      var p := Pow2(sleeps - 1);
      Pow2Grows(0, sleeps - 1);
      MulMonotone(o.baseBackoff, 1, p);
      Doubling(o.baseBackoff, p);
      OneMore(o.maxBackoff, sleeps);
    }
  }

  lemma Doubling(base: int, p: int)
    ensures base * (2 * p - 1) == base * (p - 1) + base * p
  {
  }

  lemma OneMore(max: int, k: int)
    ensures max * k == max * (k - 1) + max
  {
  }

  /** Each of the first `sleeps` sleeps stayed below 3/2 of its backoff. */
  predicate Paced(o: Options, slept: int, sleeps: nat) {
    slept >= 0 && (o.Safe() ==> 2 * slept <= 3 * BackoffSum(o, sleeps) - 2 * sleeps)
  }

  lemma PacedOn(o: Options, slept: int, attempts: nat, sleep: int)
    requires attempts > 0 && Paced(o, slept, Sleeps(attempts)) && sleep >= 0
    requires o.Safe() ==> 2 * sleep <= 3 * Min(o.baseBackoff * Pow2(attempts - 1), o.maxBackoff) - 2
    ensures Paced(o, slept + sleep, Sleeps(attempts + 1))
  {
  }

  /** Half of each backoff so far. */
  function HalfSum(o: Options, sleeps: nat): int {
    if sleeps == 0 then 0 else HalfSum(o, sleeps - 1) + Backoff(o, sleeps) / 2
  }

  /** The bound on a whole download. */
  predicate SleptWithin(o: Options, slept: int) {
    o.Safe() && o.maxAttempts >= 2 ==>
      2 * slept < 3 * Min(o.baseBackoff * (Pow2(o.maxAttempts - 1) - 1), o.maxBackoff * (o.maxAttempts - 1))
  }

  lemma TotalSleep(o: Options, slept: int, sleeps: nat)
    requires Paced(o, slept, sleeps)
    requires o.maxAttempts >= 2 ==> sleeps <= o.maxAttempts - 1
    ensures SleptWithin(o, slept)
  {
    if o.Safe() && o.maxAttempts >= 2 {
      var n := o.maxAttempts - 1;
      BackoffSumBound(o, sleeps);
      Pow2Grows(sleeps, n);
      Pow2Grows(1, n);
      MulMonotone(o.baseBackoff, Pow2(sleeps) - 1, Pow2(n) - 1);
      MulMonotone(o.baseBackoff, 1, Pow2(n) - 1);
      MulMonotone(o.maxBackoff, sleeps, n);
      MulMonotone(o.maxBackoff, 1, n);
    }
  }

  // ---- The download loop ----

  datatype Outcome = Downloaded | GaveUp | Cancelled | Panicked

  class Downloader {
    var dest: Option<string>

    constructor (dest: Option<string>)
      ensures this.dest == dest
    {
      this.dest := dest;
    }

    /** How long attempt `attempt` waits; drawing from an empty range panics. */
    method Sleep(o: Options, attempt: nat, draw: nat) returns (sleep: Option<int>)
      requires attempt > 0
      ensures sleep.None? <==> Backoff(o, attempt) <= 0
      ensures sleep.Some? ==> Backoff(o, attempt) / 2 <= sleep.value && 2 * sleep.value < 3 * Backoff(o, attempt)
      ensures o.Safe() && attempt < o.maxAttempts ==>
                sleep.Some? && 2 * sleep.value <= 3 * Min(o.baseBackoff * Pow2(attempt - 1), o.maxBackoff) - 2
    {
      if o.Safe() && attempt < o.maxAttempts {
        BackoffExact(o, attempt);
      }
      var backoff := Backoff(o, attempt);
      return if backoff <= 0 then None else Some(Jittered(backoff, draw));
    }

    method DownloadOnce(r: Reply) returns (ok: bool)
      modifies this
      ensures dest == FileAfter(old(dest), r) && ok == Succeeds(r)
    {
      match r
      case NoReply => ok := false;
      case OtherStatus(_) => ok := false;
      case Unsatisfiable =>
        dest := None;
        ok := false;
      case Full(body, clean) =>
        dest := Some("");
        dest := Some(dest.value + body);
        assert "" + body == body;
        ok := clean;
      case Partial(body, clean) =>
        if dest.None? {
          dest := Some("");
        }
        dest := Some(dest.value + body);
        assert "" + body == body;
        ok := clean;
    }

    /** The attempts, under options that are filled in. */
    method Attempts(o: Options, replies: seq<Reply>, jitter: seq<nat>, cancelAt: Option<nat>)
      returns (out: Outcome, attempts: nat, slept: int)
      requires |replies| >= o.maxAttempts && |jitter| >= o.maxAttempts
      modifies this
      ensures attempts <= |replies| && dest == FileAfterAll(old(dest), replies[..attempts])
      ensures attempts <= if o.maxAttempts > 0 then o.maxAttempts else 0
      ensures out == Downloaded <==> attempts > 0 && Succeeds(replies[attempts - 1])
      ensures forall i | 0 <= i < attempts - 1 :: !Succeeds(replies[i])
      ensures out == GaveUp ==> attempts == if o.maxAttempts > 0 then o.maxAttempts else 0
      ensures out == Cancelled <==>
                && cancelAt == Some(attempts) && 0 < attempts < o.maxAttempts
                && !Succeeds(replies[attempts - 1]) && !PanicsAt(o, attempts)
      ensures (out == Panicked <==> PanicsAt(o, attempts) && !Succeeds(replies[attempts - 1])) && Drawn(o, attempts)
      ensures Paced(o, slept, Sleeps(attempts)) && slept >= HalfSum(o, Sleeps(attempts))
    {
      attempts, slept := 0, 0;
      while attempts < o.maxAttempts
        invariant attempts <= |replies| && (o.maxAttempts >= 0 ==> attempts <= o.maxAttempts)
        invariant o.maxAttempts < 0 ==> attempts == 0
        invariant dest == FileAfterAll(old(dest), replies[..attempts])
        invariant forall i | 0 <= i < attempts :: !Succeeds(replies[i])
        invariant Paced(o, slept, Sleeps(attempts)) && Drawn(o, attempts) && slept >= HalfSum(o, Sleeps(attempts))
      {
        if attempts > 0 {
          var sleep := Sleep(o, attempts, jitter[attempts]);
          if sleep.None? {
            return Panicked, attempts, slept;
          }
          if cancelAt == Some(attempts) {
            return Cancelled, attempts, slept;
          }
          PacedOn(o, slept, attempts, sleep.value);
          slept := slept + sleep.value;
        }
        assert replies[..attempts + 1][..attempts] == replies[..attempts];
        var ok := DownloadOnce(replies[attempts]);
        attempts := attempts + 1;
        if ok {
          return Downloaded, attempts, slept;
        }
      }
      return GaveUp, attempts, slept;
    }

    /**
     DownloadWithResume. `replies` is what the server answers, `jitter` the random draws (reduced
     to the range asked for), and `cancelAt` the attempt before which the context is cancelled.
     */
    method DownloadWithResume(ghost image: string, opts: Options, replies: seq<Reply>, jitter: seq<nat>,
                              cancelAt: Option<nat>)
      returns (out: Outcome, attempts: nat, slept: int)
      requires var n := opts.WithDefaults().maxAttempts; |replies| >= n && |jitter| >= n
      requires PartOf(dest, image) && Served(image, dest, replies)
      modifies this
      ensures attempts <= |replies| && dest == FileAfterAll(old(dest), replies[..attempts])
      ensures PartOf(dest, image)
      ensures out == Downloaded ==> dest == Some(image)
      ensures out == Downloaded <==> attempts > 0 && Succeeds(replies[attempts - 1])
      ensures forall i | 0 <= i < attempts - 1 :: !Succeeds(replies[i])
      ensures out == GaveUp ==> attempts == if opts.WithDefaults().maxAttempts > 0 then opts.WithDefaults().maxAttempts else 0
      ensures var o := opts.WithDefaults();
              out == Cancelled <==>
                && cancelAt == Some(attempts) && 0 < attempts < o.maxAttempts
                && !Succeeds(replies[attempts - 1]) && !PanicsAt(o, attempts)
      ensures slept >= HalfSum(opts.WithDefaults(), Sleeps(attempts))
      // It panics in the first retry, after failures only, whose backoff is not positive ...
      ensures var o := opts.WithDefaults();
              (out == Panicked <==> PanicsAt(o, attempts) && !Succeeds(replies[attempts - 1])) && Drawn(o, attempts)
      // ... so while all attempts fail it gives up in the end exactly if the options are safe.
      ensures opts.WithDefaults().Safe() ==> out != Panicked
      ensures var o := opts.WithDefaults();
              -TWO63 <= o.baseBackoff < TWO63 && o.maxAttempts >= 2 && cancelAt == None
              && (forall i | 0 <= i < o.maxAttempts :: !Succeeds(replies[i])) ==>
                out == if o.Safe() then GaveUp else Panicked
      ensures SleptWithin(opts.WithDefaults(), slept)
    {
      var o := opts.WithDefaults();
      ghost var start := dest;
      out, attempts, slept := Attempts(o, replies, jitter, cancelAt);
      AllKeepPrefix(image, start, replies, attempts);
      TotalSleep(o, slept, Sleeps(attempts));
      PanicLaw(o, attempts);
    }
  }
}
