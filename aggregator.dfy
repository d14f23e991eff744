/** The trial aggregator: a batch of `n` games with a fixed switch policy,
    the contestant's first pick itself drawn at random, and the progress
    snapshots handed to the user interface along the way. Each trial's
    random draws are an input; the snapshots the source schedules on the
    interface thread are the returned sequence. */
module Aggregator {
  import opened Doors
  import opened Resolver

  /** The random draws one simulated trial consumes: the contestant's first
      pick, the car, and the host's choice among the doors he may open. */
  datatype Draw = Draw(door: Door, winning: Door, hostPick: nat)

  /** One progress report: trials done, trials requested, wins, losses. */
  datatype Snapshot = Snapshot(runsDone: int, total: int, wins: int, losses: int)

  /** Whether a trial is won, by the rule of the game: a switching contestant
      wins exactly when the first pick missed the car, a staying one exactly
      when it hit it. The resolver is proved to follow this rule. */
  predicate TrialWon(switch: bool, d: Draw)
  {
    switch <==> d.door != d.winning
  }

  /** The batch helper that lists the `won` flag of `n` independent games. */
  function SimMonteHall(n: nat, switch: bool, draws: seq<Draw>): (r: seq<bool>)
    requires n <= |draws|
    ensures |r| == n
    ensures forall i :: 0 <= i < n ==> r[i] == TrialWon(switch, draws[i])
  {
    seq(n, i requires 0 <= i < n => PlayMonteHall(draws[i].door, switch, draws[i].winning, draws[i].hostPick).won)
  }

  /** Number of `true` entries. */
  function CountTrue(s: seq<bool>): (c: nat)
    ensures c <= |s|
  {
    if s == [] then 0 else CountTrue(s[..|s| - 1]) + (if s[|s| - 1] then 1 else 0)
  }

  /** How many trials pass between two snapshots: `max(1, n // 200)`. */
  function Batch(n: int): (b: int)
    ensures b >= 1
    ensures n < 400 ==> b == 1
    ensures n >= 200 ==> 200 * b <= n < 200 * (b + 1)
  {
    if n / 200 < 1 then 1 else n / 200
  }

  /** Whether trial `i` of `n` is followed by a snapshot. */
  predicate Emits(n: int, i: int)
  {
    i % Batch(n) == 0 || i == n
  }

  /** Wins among the first `k` trials. */
  function Wins(switch: bool, draws: seq<Draw>, k: nat): (w: nat)
    requires k <= |draws|
    ensures w <= k
  {
    if k == 0 then 0 else Wins(switch, draws, k - 1) + (if TrialWon(switch, draws[k - 1]) then 1 else 0)
  }

  /** Trials among the first `k` whose first pick was the car. */
  function RightPicks(draws: seq<Draw>, k: nat): (c: nat)
    requires k <= |draws|
    ensures c <= k
  {
    if k == 0 then 0 else RightPicks(draws, k - 1) + (if draws[k - 1].door == draws[k - 1].winning then 1 else 0)
  }

  /** The snapshots emitted during the first `k` of `n` trials. */
  function Snapshots(switch: bool, draws: seq<Draw>, n: nat, k: nat): seq<Snapshot>
    requires k <= n <= |draws|
  {
    if k == 0 then []
    else
      var w := Wins(switch, draws, k);
      Snapshots(switch, draws, n, k - 1) + (if Emits(n, k) then [Snapshot(k, n, w, k - w)] else [])
  }

  /** The simulation loop: runs trials 1..n, keeps a running win count and
      reports a snapshot after every `Batch(n)`-th trial and after the last. */
  method Simulate(willSwitch: bool, n: nat, draws: seq<Draw>) returns (reports: seq<Snapshot>)
    requires n <= |draws|
    ensures reports == Snapshots(willSwitch, draws, n, n)
  {
    var wins := 0;
    var batch := if n / 200 < 1 then 1 else n / 200;
    assert batch == Batch(n);
    reports := [];
    var done := 0;
    while done < n
      invariant 0 <= done <= n
      invariant wins == Wins(willSwitch, draws, done)
      invariant reports == Snapshots(willSwitch, draws, n, done)
    {
      var i := done + 1;
      var d := draws[i - 1];
      var outcome := PlayMonteHall(d.door, willSwitch, d.winning, d.hostPick);
      wins := wins + (if outcome.won then 1 else 0);
      assert outcome.won == TrialWon(willSwitch, d);
      if i % batch == 0 || i == n {
        var losses := i - wins;
        reports := reports + [Snapshot(i, n, wins, losses)];
      }
      SnapshotsStep(willSwitch, draws, n, i);
      done := i;
    }
  }

  /** One more trial adds at most one snapshot, at the end. */
  lemma SnapshotsStep(switch: bool, draws: seq<Draw>, n: nat, k: nat)
    requires 1 <= k <= n <= |draws|
    ensures Snapshots(switch, draws, n, k) == Snapshots(switch, draws, n, k - 1)
      + (if Emits(n, k) then [Snapshot(k, n, Wins(switch, draws, k), k - Wins(switch, draws, k))] else [])
  {
  }

  /** Every snapshot reports trials requested, wins and losses that agree:
      `0 <= wins <= runsDone`, `losses == runsDone - wins`, and `wins` is the
      number of games won so far; it is taken at a trial that emits. */
  lemma {:induction false} SnapshotsConsistent(switch: bool, draws: seq<Draw>, n: nat, k: nat)
    requires k <= n <= |draws|
    ensures forall j :: 0 <= j < |Snapshots(switch, draws, n, k)| ==>
      var s := Snapshots(switch, draws, n, k)[j];
      s.total == n && 1 <= s.runsDone <= k && Emits(n, s.runsDone)
      && s.wins == Wins(switch, draws, s.runsDone)
      && 0 <= s.wins <= s.runsDone && s.losses == s.runsDone - s.wins
  {
    if k > 0 {
      SnapshotsConsistent(switch, draws, n, k - 1);
    }
  }

  /** Snapshot positions strictly increase. */
  lemma {:induction false} SnapshotsIncreasing(switch: bool, draws: seq<Draw>, n: nat, k: nat)
    requires k <= n <= |draws|
    ensures forall j1, j2 :: 0 <= j1 < j2 < |Snapshots(switch, draws, n, k)| ==>
      Snapshots(switch, draws, n, k)[j1].runsDone < Snapshots(switch, draws, n, k)[j2].runsDone
  {
    if k > 0 {
      SnapshotsIncreasing(switch, draws, n, k - 1);
      SnapshotsWithin(switch, draws, n, k - 1);
      SnapshotsStep(switch, draws, n, k);
    }
  }

  /** Snapshots taken during the first `k` trials are numbered 1 to `k`. */
  lemma {:induction false} SnapshotsWithin(switch: bool, draws: seq<Draw>, n: nat, k: nat)
    requires k <= n <= |draws|
    ensures forall j :: 0 <= j < |Snapshots(switch, draws, n, k)| ==>
      1 <= Snapshots(switch, draws, n, k)[j].runsDone <= k
  {
    if k > 0 {
      SnapshotsWithin(switch, draws, n, k - 1);
      SnapshotsStep(switch, draws, n, k);
    }
  }

  /** A snapshot is taken after trial `i` exactly when `i % Batch(n) == 0`
      or `i == n`. */
  lemma {:induction false} SnapshotEmittedIff(switch: bool, draws: seq<Draw>, n: nat, k: nat, i: int)
    requires k <= n <= |draws|
    requires 1 <= i <= k
    ensures Emits(n, i) <==> exists j :: 0 <= j < |Snapshots(switch, draws, n, k)| && Snapshots(switch, draws, n, k)[j].runsDone == i
  {
    var s := Snapshots(switch, draws, n, k);
    var prev := Snapshots(switch, draws, n, k - 1);
    SnapshotsStep(switch, draws, n, k);
    SnapshotsWithin(switch, draws, n, k - 1);
    if i < k {
      SnapshotEmittedIff(switch, draws, n, k - 1, i);
      if Emits(n, i) {
        var j :| 0 <= j < |prev| && prev[j].runsDone == i;
        assert s[j] == prev[j];
      } else {
        forall j | 0 <= j < |s| ensures s[j].runsDone != i {
          if j < |prev| {
            assert s[j] == prev[j];
          }
        }
      }
    } else if Emits(n, i) {
      assert s[|s| - 1].runsDone == i;
    } else {
      assert s == prev;
    }
  }

  /** The last snapshot is the one taken after trial `n`, with the final
      counts; exactly one snapshot has `runsDone == n`. */
  lemma {:induction false} LastSnapshot(switch: bool, draws: seq<Draw>, n: nat)
    requires 1 <= n <= |draws|
    ensures var s := Snapshots(switch, draws, n, n);
      |s| >= 1 && s[|s| - 1] == Snapshot(n, n, Wins(switch, draws, n), n - Wins(switch, draws, n))
      && forall j :: 0 <= j < |s| - 1 ==> s[j].runsDone < n
  {
    SnapshotsWithin(switch, draws, n, n - 1);
    SnapshotsStep(switch, draws, n, n);
  }

  /** A batch of one trial produces exactly one snapshot. */
  lemma {:induction false} SingleTrial(switch: bool, draws: seq<Draw>)
    requires 1 <= |draws|
    ensures |Snapshots(switch, draws, 1, 1)| == 1
  {
    assert Snapshots(switch, draws, 1, 0) == [];
  }

  /** The number of snapshots: one per full batch, plus one for the last
      trial when `n` is not a multiple of the batch size. */
  lemma {:induction false} SnapshotCount(switch: bool, draws: seq<Draw>, n: nat, k: nat)
    requires k <= n <= |draws|
    ensures |Snapshots(switch, draws, n, k)| == k / Batch(n) + (if k == n && k % Batch(n) != 0 then 1 else 0)
  {
    if k > 0 {
      SnapshotCount(switch, draws, n, k - 1);
      var b := Batch(n);
      DivStep(k, b);
    }
  }

  lemma {:induction false} DivStep(k: nat, b: int)
    requires k >= 1 && b >= 1
    ensures k / b == (k - 1) / b + (if k % b == 0 then 1 else 0)
  {
    var q, r := (k - 1) / b, (k - 1) % b;
    if r == b - 1 {
      DivUnique(k, b, q + 1, 0);
    } else {
      DivUnique(k, b, q, r + 1);
    }
  }

  lemma {:induction false} DivUnique(k: int, b: int, q: int, r: int)
    requires b >= 1 && 0 <= r < b && k == q * b + r
    ensures k / b == q && k % b == r
  {
    var q', r' := k / b, k % b;
    assert (q - q') * b == r' - r;
    if q > q' {
      MulAtLeast(q - q', b);
    } else if q < q' {
      MulAtLeast(q' - q, b);
    }
  }

  lemma {:induction false} MulAtLeast(m: int, b: int)
    requires m >= 1 && b >= 1
    ensures m * b >= b
  {
    assert m * b == (m - 1) * b + b;
  }

  /** Over the same draws, switching wins exactly the trials whose first pick
      was wrong and staying wins exactly the others. */
  lemma {:induction false} WinsCountPicks(switch: bool, draws: seq<Draw>, k: nat)
    requires k <= |draws|
    ensures Wins(switch, draws, k) == if switch then k - RightPicks(draws, k) else RightPicks(draws, k)
  {
    if k > 0 {
      WinsCountPicks(switch, draws, k - 1);
    }
  }

  /** The list helper and the loop agree: the number of games the helper
      reports won is the loop's running win count. */
  lemma {:induction false} SimMonteHallCountsWins(n: nat, switch: bool, draws: seq<Draw>)
    requires n <= |draws|
    ensures CountTrue(SimMonteHall(n, switch, draws)) == Wins(switch, draws, n)
  {
    if n > 0 {
      var r := SimMonteHall(n, switch, draws);
      assert r[..n - 1] == SimMonteHall(n - 1, switch, draws);
      SimMonteHallCountsWins(n - 1, switch, draws);
    }
  }
}
