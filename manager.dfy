/** lib/tf2pug/bot/manager.rb: the outbound message queue and the pool of bots
    that take turns sending from it. */
module Manager {
  import opened Wrappers

  /** One queued message: `{ :to, :message, :notice }`. */
  datatype Entry = Entry(to: string, message: string, notice: bool)

  /** One send: which bot sent which entry. */
  datatype Delivery<B> = Delivery(bot: B, entry: Entry)

  ghost predicate NoDuplicates<B>(s: seq<B>)
  {
    forall i, j :: 0 <= i < j < |s| ==> s[i] != s[j]
  }

  /** `@bots.push(@bots.shift)`: the front bot moves to the back. */
  function Rotate<B>(s: seq<B>): (r: seq<B>)
    ensures |r| == |s| && multiset(r) == multiset(s)
    ensures s != [] ==> r[|r| - 1] == s[0]
  {
    if s == [] then []
    else
      assert s == [s[0]] + s[1..];
      s[1..] + [s[0]]
  }

  /** Rotating never puts a bot in the pool twice. */
  lemma RotateKeepsNoDuplicates<B>(s: seq<B>)
    requires NoDuplicates(s)
    ensures NoDuplicates(Rotate(s))
  {
    if s != [] {
      var r := Rotate(s);
      forall i, j | 0 <= i < j < |r|
        ensures r[i] != r[j]
      {
        assert r[i] == s[i + 1];
        if j < |r| - 1 {
          assert r[j] == s[j + 1];
        }
      }
    }
  }

  /** `k` rotations in a row. */
  function RotateBy<B>(s: seq<B>, k: nat): (r: seq<B>)
    ensures |r| == |s| && multiset(r) == multiset(s)
  {
    if k == 0 then s else Rotate(RotateBy(s, k - 1))
  }

  lemma MulAtLeast(k: int, n: int)
    requires k >= 1 && n > 0
    ensures k * n >= n
  {
    if k > 1 {
      MulAtLeast(k - 1, n);
      assert k * n == (k - 1) * n + n;
    }
  }

  /** Quotient and remainder are unique. */
  lemma DivModUnique(x: int, q: int, r: int, n: int)
    requires n > 0 && 0 <= r < n && x == q * n + r
    ensures x % n == r && x / n == q
  {
    var q', r' := x / n, x % n;
    assert (q - q') * n == r' - r;
    if q - q' >= 1 {
      MulAtLeast(q - q', n);
    }
    if q' - q >= 1 {
      MulAtLeast(q' - q, n);
    }
  }

  /** Moving one place along the pool wraps from the last bot to the first. */
  lemma ModSucc(a: nat, n: nat)
    requires n > 0
    ensures (a + 1) % n == if a % n + 1 < n then a % n + 1 else 0
  {
    if a % n + 1 < n {
      DivModUnique(a + 1, a / n, a % n + 1, n);
    } else {
      DivModUnique(a + 1, a / n + 1, 0, n);
    }
  }

  /** After `k` rotations the pool starts at the bot that was `k` places along,
      wrapping around. */
  lemma {:induction false} RotateByAt<B>(s: seq<B>, k: nat)
    requires s != []
    ensures RotateBy(s, k) == s[k % |s|..] + s[..k % |s|]
  {
    if k == 0 {
      assert s[0..] + s[..0] == s;
    } else {
      var n := |s|;
      var m := (k - 1) % n;
      var next := k % n;
      RotateByAt(s, k - 1);
      ModSucc(k - 1, n);
      RotateStep(s, m, next);
      assert RotateBy(s, k) == Rotate(s[m..] + s[..m]);
    }
  }

  /** The bot at the front after `k` rotations is the one `k` places along. */
  lemma RotateByFront<B>(s: seq<B>, k: nat)
    requires s != []
    ensures RotateBy(s, k)[0] == s[k % |s|]
  {
    RotateByAt(s, k);
  }

  /** One rotation of the pool read from position `m` is the pool read from the
      next position, wrapping at the end. */
  lemma RotateStep<B>(s: seq<B>, m: nat, next: nat)
    requires m < |s| && next == if m + 1 < |s| then m + 1 else 0
    ensures Rotate(s[m..] + s[..m]) == s[next..] + s[..next]
  {
    var prev := s[m..] + s[..m];
    assert prev[0] == s[m];
    assert prev[1..] == s[m + 1..] + s[..m];
    if m + 1 < |s| {
      assert s[..m + 1] == s[..m] + [s[m]];
    } else {
      assert s[m + 1..] == [];
      assert s[..m] + [s[m]] == s;
      assert s[0..] + s[..0] == s;
    }
  }

  /** A full cycle of rotations gives the pool back unchanged. */
  lemma RotateFullCycle<B>(s: seq<B>)
    ensures RotateBy(s, |s|) == s
  {
    if s != [] {
      RotateByAt(s, |s|);
      assert s[0..] + s[..0] == s;
    } else {
      RotateEmpty(s, |s|);
    }
  }

  lemma {:induction false} RotateEmpty<B>(s: seq<B>, k: nat)
    requires s == []
    ensures RotateBy(s, k) == []
  {
    if k > 0 {
      RotateEmpty(s, k - 1);
    }
  }

  /** The sends that `k` steps of the loop make: entry `i` of the queue goes out
      through the bot at position `i` of the pool, counted round-robin. */
  function Schedule<B>(queue: seq<Entry>, bots: seq<B>, k: nat): (r: seq<Delivery<B>>)
    requires k <= |queue| && bots != []
    ensures |r| == k
    ensures forall i :: 0 <= i < k ==> r[i].entry == queue[i]
  {
    seq(k, i requires 0 <= i < k => Delivery(bots[i % |bots|], queue[i]))
  }

  /** Who sent each delivery of a log, in order. */
  function Senders<B>(log: seq<Delivery<B>>): (r: seq<B>)
    ensures |r| == |log|
  {
    seq(|log|, i requires 0 <= i < |log| => log[i].bot)
  }

  /** One more send extends the schedule by the front entry and the front bot
      of the pool as rotated so far; the queue loses that entry and the pool
      rotates once more. */
  lemma ScheduleExtend<B>(queue: seq<Entry>, bots: seq<B>, k: nat)
    requires k < |queue| && bots != []
    ensures Schedule(queue, bots, k) + [Delivery(RotateBy(bots, k)[0], queue[k])] == Schedule(queue, bots, k + 1)
    ensures queue[k..][1..] == queue[k + 1..]
    ensures Rotate(RotateBy(bots, k)) == RotateBy(bots, k + 1)
  {
    RotateByFront(bots, k);
  }

  /** The send `j` places into a window that starts at send `start` uses the bot
      at position `j` of the pool as rotated `start` times. */
  lemma WindowAt<B>(bots: seq<B>, start: nat, j: nat)
    requires bots != [] && j < |bots|
    ensures bots[(start + j) % |bots|] == (bots[start % |bots|..] + bots[..start % |bots|])[j]
  {
    var n := |bots|;
    var q, m := start / n, start % n;
    DivMod(start, n);
    var r := bots[m..] + bots[..m];
    if m + j < n {
      assert r[j] == bots[m + j];
      DivModUnique(start + j, q, m + j, n);
    } else {
      assert r[j] == bots[m + j - n];
      DivModUnique(start + j, q + 1, m + j - n, n);
    }
  }

  lemma DivMod(x: nat, n: nat)
    requires n > 0
    ensures x == x / n * n + x % n
  {
  }

  /** Any `|bots|` consecutive sends go out through the pool as it stood
      rotated at the first of them, so each bot sends as often as it occurs in
      the pool: exactly once when the pool has no duplicates. */
  lemma RoundRobinWindow<B>(queue: seq<Entry>, bots: seq<B>, start: nat)
    requires bots != [] && start + |bots| <= |queue|
    ensures Senders(Schedule(queue, bots, |queue|)[start..start + |bots|]) == RotateBy(bots, start)
    ensures multiset(Senders(Schedule(queue, bots, |queue|)[start..start + |bots|])) == multiset(bots)
  {
    var n := |bots|;
    var w := Senders(Schedule(queue, bots, |queue|)[start..start + n]);
    var m := start % n;
    var r := bots[m..] + bots[..m];
    RotateByAt(bots, start);
    forall j | 0 <= j < n
      ensures w[j] == r[j]
    {
      SenderAt(queue, bots, start, j);
      WindowAt(bots, start, j);
    }
    assert w == r;
  }

  /** The sender of send `j` of a window starting at `start`. */
  lemma SenderAt<B>(queue: seq<Entry>, bots: seq<B>, start: nat, j: nat)
    requires bots != [] && start + |bots| <= |queue| && j < |bots|
    ensures Senders(Schedule(queue, bots, |queue|)[start..start + |bots|])[j] == bots[(start + j) % |bots|]
  {
    var all := Schedule(queue, bots, |queue|);
    assert all[start..start + |bots|][j] == all[start + j];
  }

  /** `BotManager`: `@bots`, the pool of connected bots, and `@queue`, the
      messages waiting to go out. The bot type is left open. */
  class BotManager<B(==)> {
    var bots: seq<B>
    var queue: seq<Entry>

    /** No bot is in the pool twice. */
    ghost predicate Valid()
      reads this
    {
      NoDuplicates(bots)
    }

    constructor ()
      ensures Valid() && bots == [] && queue == []
    {
      bots := [];
      queue := [];
    }

    /** `add`: append the bot unless it is already in the pool. */
    method Add(bot: B)
      requires Valid()
      modifies this`bots
      ensures Valid() && bot in bots
      ensures bots == if bot in old(bots) then old(bots) else old(bots) + [bot]
    {
      if bot !in bots {
        bots := bots + [bot];
      }
    }

    /** `quit`: tell every bot to quit, in pool order, and empty the pool, which
        stops the send loop. `stopped` lists the bots told to quit. */
    method Quit() returns (stopped: seq<B>)
      requires Valid()
      modifies this`bots
      ensures Valid() && bots == [] && stopped == old(bots)
    {
      stopped := bots;
      bots := [];
    }

    /** `msg`: queue one entry at the back. */
    method Msg(to: string, message: string, notice: bool := false)
      modifies this`queue
      ensures queue == old(queue) + [Entry(to, message, notice)]
    {
      queue := queue + [Entry(to, message, notice)];
    }

    /** `notice`: `msg` with the notice flag set. */
    method Notice(to: string, message: string)
      modifies this`queue
      ensures queue == old(queue) + [Entry(to, message, true)]
    {
      Msg(to, message, true);
    }

    /** One pass of the `start` loop's body, which runs while the pool is not
        empty: send the front entry with the front bot and rotate that bot to the
        back; with nothing queued, only idle. */
    method Step() returns (sent: Option<Delivery<B>>)
      requires Valid() && bots != []
      modifies this`bots, this`queue
      ensures Valid()
      ensures old(queue) == [] ==> sent == None && queue == old(queue) && bots == old(bots)
      ensures old(queue) != [] ==>
                && sent == Some(Delivery(old(bots)[0], old(queue)[0]))
                && queue == old(queue)[1..]
                && bots == Rotate(old(bots))
    {
      if queue != [] {
        var tosend := queue[0];
        queue := queue[1..];
        var bot := bots[0];
        RotateKeepsNoDuplicates(bots);
        bots := bots[1..] + [bot];
        sent := Some(Delivery(bot, tosend));
      } else {
        sent := None;
      }
    }

    /** `start`, run for `ticks` passes of its loop: the first `min(ticks,
        |queue|)` entries go out in queue order, each through the next bot in
        round-robin order, and the pool ends rotated once per send. */
    method Start(ticks: nat) returns (log: seq<Delivery<B>>)
      requires Valid()
      modifies this`bots, this`queue
      ensures Valid()
      ensures old(bots) == [] ==> log == [] && queue == old(queue) && bots == old(bots)
      ensures old(bots) != [] ==>
                var n := if ticks < |old(queue)| then ticks else |old(queue)|;
                && log == Schedule(old(queue), old(bots), n)
                && queue == old(queue)[n..]
                && bots == RotateBy(old(bots), n)
    {
      ghost var q0, b0 := queue, bots;
      log := [];
      if bots == [] {
        return;
      }
      var t := 0;
      while |bots| > 0 && t < ticks
        invariant Valid() && b0 != [] && |bots| == |b0|
        invariant 0 <= t <= ticks && |log| == (if t < |q0| then t else |q0|)
        invariant log == Schedule(q0, b0, |log|)
        invariant queue == q0[|log|..] && bots == RotateBy(b0, |log|)
      {
        ghost var k := |log|;
        var sent := Step();
        if sent.Some? {
          ScheduleExtend(q0, b0, k);
          log := log + [sent.value];
        }
        t := t + 1;
      }
    }
  }
}
