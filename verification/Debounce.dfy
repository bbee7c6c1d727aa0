/**
 The config-watch debouncer of `crates/spt-bin/src/config_watcher.rs`.

 `Debouncer.Poll` updates two fields in place. Its specification looks only at the
 history of polls: the maximal run of equal signatures a poll belongs to, and the
 signature that fired last. Instants and durations are nanoseconds.
 */
module Debounce {

  import opened Basics

  datatype FileSig = FileSig(mtime: Option<nat>, size: nat)

  /** One poll: the signature read (None when the file is unreadable) and the clock. */
  datatype Sample = Sample(sig: Option<FileSig>, now: nat)

  type History = seq<Sample>

  const MIN_POLL: nat := 250_000_000

  function Since(now: nat, since: nat): nat { if now < since then 0 else now - since }

  function Last(h: History): Sample
    requires h != []
  {
    h[|h| - 1]
  }

  function Init(h: History): History
    requires h != []
  {
    h[..|h| - 1]
  }

  // ----- Specification from the history -----

  /** The first poll of the maximal run of equal signatures that ends `h`. */
  function RunStart(h: History): (r: nat)
    requires h != []
    ensures r < |h|
  {
    if |h| > 1 && h[|h| - 2].sig == h[|h| - 1].sig then RunStart(Init(h)) else |h| - 1
  }

  /** The last poll of `h` fires: its signature is readable, differs from the one
      acted on last, is not seen for the first time, and has been there long enough. */
  predicate Fires(initial: Option<FileSig>, debounce: nat, h: History)
    decreases |h|, 0
  {
    && h != []
    && Last(h).sig.Some?
    && Last(h).sig != Applied(initial, debounce, Init(h))
    && RunStart(h) < |h| - 1
    && Since(Last(h).now, h[RunStart(h)].now) >= debounce
  }

  /** The signature of the last poll that fired, or the initial one. */
  function Applied(initial: Option<FileSig>, debounce: nat, h: History): Option<FileSig>
    decreases |h|, 1
  {
    if h == [] then initial
    else if Fires(initial, debounce, h) then Last(h).sig
    else Applied(initial, debounce, Init(h))
  }

  /** The run being waited for, if any, and the time it began. */
  function Pending(initial: Option<FileSig>, debounce: nat, h: History): Option<(FileSig, nat)>
  {
    if h == [] || Last(h).sig.None? || Last(h).sig == Applied(initial, debounce, h) then None
    else Some((Last(h).sig.value, h[RunStart(h)].now))
  }

  // ----- The state machine -----

  class Debouncer {
    var applied: Option<FileSig>
    var pending: Option<(FileSig, nat)>
    const debounce: nat
    ghost const initial: Option<FileSig>
    ghost var history: History

    ghost predicate Valid()
      reads this
    {
      && applied == Applied(initial, debounce, history)
      && pending == Pending(initial, debounce, history)
    }

    constructor (initial: Option<FileSig>, debounce: nat)
      ensures Valid() && history == []
      ensures this.initial == initial && this.debounce == debounce
      ensures applied == initial && pending == None
    {
      this.applied := initial;
      this.pending := None;
      this.debounce := debounce;
      this.initial := initial;
      this.history := [];
    }

    method Poll(cur: Option<FileSig>, now: nat) returns (fire: bool)
      requires Valid()
      modifies this
      ensures Valid()
      ensures history == old(history) + [Sample(cur, now)]
      ensures fire == Fires(initial, debounce, history)
      ensures (forall i :: 0 <= i < |history| ==> history[i].sig == initial) ==> !fire
    {
      history := history + [Sample(cur, now)];
      assert Init(history) == old(history);
      match cur {
        case None =>
          pending := None;
          fire := false;
        case Some(sig) =>
          if Some(sig) == applied {
            pending := None;
            fire := false;
          } else if pending.Some? && pending.value.0 == sig {
            if Since(now, pending.value.1) >= debounce {
              applied := Some(sig);
              pending := None;
              fire := true;
            } else {
              fire := false;
            }
          } else {
            pending := Some((sig, now));
            fire := false;
          }
      }
      if forall i :: 0 <= i < |history| ==> history[i].sig == initial {
        UnchangedNeverFires(initial, debounce, history, |history| - 1);
        assert history[..|history|] == history;
      }
    }
  }

  // ----- Runs of equal signatures -----

  /** Polls r..n-1 of `h` all read `sig`, and poll r-1 did not. */
  ghost predicate IsRun(h: History, r: nat, n: nat, sig: Option<FileSig>)
  {
    r < n <= |h| && (r > 0 ==> h[r - 1].sig != sig) && forall k :: r <= k < n ==> h[k].sig == sig
  }

  /** Poll `n` of `h` fires. */
  ghost predicate FiresAt(initial: Option<FileSig>, debounce: nat, h: History, n: nat)
    requires n < |h|
  {
    Fires(initial, debounce, h[..n + 1])
  }

  ghost predicate Monotone(h: History)
  {
    forall i, j :: 0 <= i <= j < |h| ==> h[i].now <= h[j].now
  }

  lemma InitOfPrefix(h: History, n: nat)
    requires n < |h|
    ensures Init(h[..n + 1]) == h[..n] && Last(h[..n + 1]) == h[n]
  {
  }

  lemma {:induction false} RunStartIsMaximal(h: History, n: nat)
    requires n < |h|
    ensures IsRun(h, RunStart(h[..n + 1]), n + 1, h[n].sig)
  {
    InitOfPrefix(h, n);
    if n > 0 && h[n - 1].sig == h[n].sig {
      RunStartIsMaximal(h, n - 1);
    }
  }

  lemma {:induction false} RunIsMaximal(h: History, r: nat, n: nat, sig: Option<FileSig>)
    requires IsRun(h, r, n, sig)
    ensures RunStart(h[..n]) == r
  {
    InitOfPrefix(h, n - 1);
    if r < n - 1 {
      assert h[..n][|h[..n]| - 2] == h[n - 2];
      RunIsMaximal(h, r, n - 1, sig);
    }
  }

  /** While the signature stays at the one acted on, nothing fires. */
  lemma {:induction false} AppliedStays(initial: Option<FileSig>, debounce: nat, h: History, k: nat, n: nat)
    requires k <= n <= |h|
    requires forall i :: k <= i < n ==> h[i].sig == Applied(initial, debounce, h[..k])
    ensures Applied(initial, debounce, h[..n]) == Applied(initial, debounce, h[..k])
    ensures forall i :: k <= i < n ==> !FiresAt(initial, debounce, h, i)
  {
    if k < n {
      AppliedStays(initial, debounce, h, k, n - 1);
      InitOfPrefix(h, n - 1);
    }
  }

  /** Without a fire, the signature acted on stays the same. */
  lemma {:induction false} AppliedWithoutFire(initial: Option<FileSig>, debounce: nat, h: History, k: nat, n: nat)
    requires k <= n <= |h|
    requires forall i :: k <= i < n ==> !FiresAt(initial, debounce, h, i)
    ensures Applied(initial, debounce, h[..n]) == Applied(initial, debounce, h[..k])
  {
    if k < n {
      AppliedWithoutFire(initial, debounce, h, k, n - 1);
      InitOfPrefix(h, n - 1);
      assert !FiresAt(initial, debounce, h, n - 1);
    }
  }

  /** A poll that fires is the only one of its run so far to do so. */
  lemma FiresOncePerRun(initial: Option<FileSig>, debounce: nat, h: History, r: nat, k: nat, n: nat)
    requires r <= k < n && n < |h| && IsRun(h, r, n + 1, h[n].sig)
    requires FiresAt(initial, debounce, h, n)
    ensures !FiresAt(initial, debounce, h, k)
  {
    if FiresAt(initial, debounce, h, k) {
      assert Last(h[..k + 1]) == h[k];
      AppliedStays(initial, debounce, h, k + 1, n);
      InitOfPrefix(h, n);
    }
  }

  // ----- Firing, by earlier fires alone -----

  /** Seeded with the signature it reads ever after, the debouncer never fires. */
  lemma UnchangedNeverFires(initial: Option<FileSig>, debounce: nat, h: History, n: nat)
    requires n < |h| && forall i :: 0 <= i <= n ==> h[i].sig == initial
    ensures !FiresAt(initial, debounce, h, n)
  {
    assert h[..0] == [];
    AppliedStays(initial, debounce, h, 0, n + 1);
  }

  /** Poll `k` fires and no later poll before `n` does. */
  ghost predicate LastFire(initial: Option<FileSig>, debounce: nat, h: History, k: nat, n: nat)
    requires n <= |h|
  {
    k < n && FiresAt(initial, debounce, h, k) && forall i :: k < i < n ==> !FiresAt(initial, debounce, h, i)
  }

  /** The signature of poll `n` is not the one acted on last: it differs from that of the
      last poll that fired, or from the initial one if none has. */
  ghost predicate IsNews(initial: Option<FileSig>, debounce: nat, h: History, n: nat)
    requires n < |h|
  {
    if forall i :: 0 <= i < n ==> !FiresAt(initial, debounce, h, i) then h[n].sig != initial
    else forall k: nat :: LastFire(initial, debounce, h, k, n) ==> h[k].sig != h[n].sig
  }

  lemma {:induction false} SomeLastFire(initial: Option<FileSig>, debounce: nat, h: History, i: nat, n: nat)
      returns (k: nat)
    requires i < n <= |h| && FiresAt(initial, debounce, h, i)
    ensures LastFire(initial, debounce, h, k, n)
    decreases n
  {
    if FiresAt(initial, debounce, h, n - 1) {
      k := n - 1;
    } else {
      k := SomeLastFire(initial, debounce, h, i, n - 1);
    }
  }

  lemma AppliedAfterLastFire(initial: Option<FileSig>, debounce: nat, h: History, k: nat, n: nat)
    requires n <= |h| && LastFire(initial, debounce, h, k, n)
    ensures Applied(initial, debounce, h[..n]) == h[k].sig
  {
    assert Last(h[..k + 1]) == h[k];
    AppliedWithoutFire(initial, debounce, h, k + 1, n);
  }

  lemma NewsIsNotApplied(initial: Option<FileSig>, debounce: nat, h: History, n: nat)
    requires n < |h|
    ensures IsNews(initial, debounce, h, n) <==> h[n].sig != Applied(initial, debounce, h[..n])
  {
    if forall i :: 0 <= i < n ==> !FiresAt(initial, debounce, h, i) {
      assert h[..0] == [];
      AppliedWithoutFire(initial, debounce, h, 0, n);
    } else {
      var i :| 0 <= i < n && FiresAt(initial, debounce, h, i);
      var k := SomeLastFire(initial, debounce, h, i, n);
      forall j: nat | LastFire(initial, debounce, h, j, n) ensures h[j].sig == Applied(initial, debounce, h[..n]) {
        AppliedAfterLastFire(initial, debounce, h, j, n);
      }
    }
  }

  /** Poll `n` fires iff it reads a file, its run began at an earlier poll and at least
      the debounce ago, and its signature is news. */
  lemma FiresIff(initial: Option<FileSig>, debounce: nat, h: History, n: nat, r: nat)
    requires n < |h| && IsRun(h, r, n + 1, h[n].sig)
    ensures FiresAt(initial, debounce, h, n) <==>
            && h[n].sig != None && r < n && (debounce == 0 || h[n].now >= h[r].now + debounce)
            && IsNews(initial, debounce, h, n)
  {
    NewsIsNotApplied(initial, debounce, h, n);
    RunIsMaximal(h, r, n + 1, h[n].sig);
    InitOfPrefix(h, n);
    assert h[..n + 1][r] == h[r];
  }

  // ----- Rate: fires over a whole history -----

  /** Two consecutive fires carry different signatures and are at least the
      debounce window apart; the window lies entirely after the first one. */
  lemma ConsecutiveFires(initial: Option<FileSig>, debounce: nat, h: History, i: nat, j: nat)
    requires i < j < |h| && Monotone(h)
    requires FiresAt(initial, debounce, h, i) && FiresAt(initial, debounce, h, j)
    requires forall k :: i < k < j ==> !FiresAt(initial, debounce, h, k)
    ensures h[i].sig != h[j].sig
    ensures h[j].now >= h[i].now + debounce
  {
    assert Last(h[..i + 1]) == h[i];
    AppliedWithoutFire(initial, debounce, h, i + 1, j);
    InitOfPrefix(h, j);
    RunStartIsMaximal(h, j);
  }

  ghost function FireCount(initial: Option<FileSig>, debounce: nat, h: History, n: nat): nat
    requires n <= |h|
  {
    if n == 0 then 0
    else FireCount(initial, debounce, h, n - 1) + if FiresAt(initial, debounce, h, n - 1) then 1 else 0
  }

  lemma {:induction false} CountWithoutFire(initial: Option<FileSig>, debounce: nat, h: History, k: nat, n: nat)
    requires k <= n <= |h|
    requires forall i :: k <= i < n ==> !FiresAt(initial, debounce, h, i)
    ensures FireCount(initial, debounce, h, n) == FireCount(initial, debounce, h, k)
  {
    if k < n {
      CountWithoutFire(initial, debounce, h, k, n - 1);
    }
  }

  /** `c` debounce windows, one after another. */
  function Windows(c: nat, debounce: nat): nat
  {
    if c == 0 then 0 else Windows(c - 1, debounce) + debounce
  }

  lemma {:induction false} WindowsClosed(c: nat, debounce: nat)
    ensures Windows(c, debounce) == c * debounce
  {
    if c > 0 {
      WindowsClosed(c - 1, debounce);
      Distribute(debounce, c - 1, 1);
    }
  }

  /** A poll that fires ends a run of at least the debounce with no other fire in it. */
  lemma RunAddsOne(initial: Option<FileSig>, debounce: nat, h: History, n: nat) returns (r: nat)
    requires n < |h| && Monotone(h) && FiresAt(initial, debounce, h, n)
    ensures r < n && h[n].now >= h[r].now + debounce
    ensures FireCount(initial, debounce, h, n + 1) == FireCount(initial, debounce, h, r) + 1
  {
    RunStartIsMaximal(h, n);
    r := RunStart(h[..n + 1]);
    forall k | r <= k < n ensures !FiresAt(initial, debounce, h, k) {
      FiresOncePerRun(initial, debounce, h, r, k, n);
    }
    CountWithoutFire(initial, debounce, h, r, n);
  }

  lemma {:induction false} WindowsFit(initial: Option<FileSig>, debounce: nat, h: History, n: nat)
    requires n < |h| && Monotone(h)
    ensures h[n].now >= h[0].now + Windows(FireCount(initial, debounce, h, n + 1), debounce)
  {
    if FiresAt(initial, debounce, h, n) {
      var r := RunAddsOne(initial, debounce, h, n);
      if r > 0 {
        WindowsFit(initial, debounce, h, r - 1);
      }
    } else if n > 0 {
      WindowsFit(initial, debounce, h, n - 1);
    }
  }

  /** k fires take at least k debounce windows, whatever is written to the file. */
  lemma FireRate(initial: Option<FileSig>, debounce: nat, h: History, n: nat)
    requires n < |h| && Monotone(h)
    ensures h[n].now >= h[0].now + FireCount(initial, debounce, h, n + 1) * debounce
  {
    WindowsFit(initial, debounce, h, n);
    WindowsClosed(FireCount(initial, debounce, h, n + 1), debounce);
  }

  // ----- Latency: a signature that stays put -----

  /** In a run of a new signature the first poll past the debounce window fires. */
  lemma FiresWhenDue(initial: Option<FileSig>, debounce: nat, h: History, r: nat, n: nat, sig: FileSig)
    requires r < n < |h| && IsRun(h, r, n + 1, Some(sig))
    requires Applied(initial, debounce, h[..r]) != Some(sig)
    requires Since(h[n].now, h[r].now) >= debounce
    ensures exists k :: r < k <= n && FiresAt(initial, debounce, h, k)
  {
    if forall k :: r < k <= n ==> !FiresAt(initial, debounce, h, k) {
      RunIsMaximal(h, r, r + 1, Some(sig));
      AppliedWithoutFire(initial, debounce, h, r, n);
      RunIsMaximal(h, r, n + 1, Some(sig));
      InitOfPrefix(h, n);
      assert FiresAt(initial, debounce, h, n);
    }
  }

  /** `poll_interval_for`: half the debounce, floored at 250 ms. */
  function PollIntervalFor(debounce: nat): nat
  {
    if debounce / 2 < MIN_POLL then MIN_POLL else debounce / 2
  }

  /** Polls after the first sighting that are sure to reach the debounce window. */
  function PollsToFire(debounce: nat): nat
  {
    if debounce <= 2 * MIN_POLL || debounce % 2 == 0 then 2 else 3
  }

  /** The polling interval in numbers, and after how many polls a change is due. */
  lemma PollNumbers(debounce: nat)
    ensures debounce <= 500_000_000 ==> PollIntervalFor(debounce) == 250_000_000
    ensures debounce > 500_000_000 ==> 2 * PollIntervalFor(debounce) <= debounce <= 2 * PollIntervalFor(debounce) + 1
    ensures PollsToFire(debounce) == if debounce > 500_000_000 && debounce % 2 == 1 then 3 else 2
  {
  }

  /** Polling every `PollIntervalFor`, a new signature that stays put fires by its
      third poll, or its fourth for an odd debounce above 500 ms. */
  lemma FiresWithinThreeOrFour(initial: Option<FileSig>, debounce: nat, h: History, r: nat, sig: FileSig)
    requires r + PollsToFire(debounce) < |h|
    requires IsRun(h, r, r + PollsToFire(debounce) + 1, Some(sig))
    requires Applied(initial, debounce, h[..r]) != Some(sig)
    requires forall i :: 0 <= i < |h| - 1 ==> h[i + 1].now >= h[i].now + PollIntervalFor(debounce)
    ensures exists k :: r < k <= r + PollsToFire(debounce) && FiresAt(initial, debounce, h, k)
  {
    assert h[r + 1].now >= h[r].now + PollIntervalFor(debounce);
    assert h[r + 2].now >= h[r + 1].now + PollIntervalFor(debounce);
    FiresWhenDue(initial, debounce, h, r, r + PollsToFire(debounce), sig);
  }

  /** The extra poll is needed: at exactly the polling interval, an odd debounce
      above 500 ms has not fired by the third poll. */
  lemma ThirdPollTooEarly(debounce: nat, sig: FileSig)
    requires debounce > 2 * MIN_POLL && debounce % 2 == 1
    ensures var p := PollIntervalFor(debounce);
            var h := [Sample(Some(sig), 0), Sample(Some(sig), p), Sample(Some(sig), 2 * p)];
            forall k :: 0 <= k < 3 ==> !FiresAt(None, debounce, h, k)
  {
    var p := PollIntervalFor(debounce);
    var h := [Sample(Some(sig), 0), Sample(Some(sig), p), Sample(Some(sig), 2 * p)];
    forall k | 0 <= k < 3 ensures !FiresAt(None, debounce, h, k) {
      RunIsMaximal(h, 0, k + 1, Some(sig));
      assert h[..k + 1][0] == h[0] && Last(h[..k + 1]) == h[k];
    }
  }
}
