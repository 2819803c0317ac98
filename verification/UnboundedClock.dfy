/** The clock that the wrapping tick of croutine.c stands for: ticks are counted
    without bound, and a sleeper is a wake time on that count. */
module UnboundedClock {

  type Id = nat

  datatype Clock = Clock(now: nat, sleeping: map<Id, nat>)

  /** Those of the sleepers whose time comes after `now`. */
  function After(sleeping: map<Id, nat>, now: nat): map<Id, nat> {
    map id | id in sleeping && sleeping[id] > now :: sleeping[id]
  }

  function Tick(c: Clock): Clock {
    Clock(c.now + 1, After(c.sleeping, c.now + 1))
  }

  function Ticks(c: Clock, n: nat): Clock {
    if n == 0 then c else Tick(Ticks(c, n - 1))
  }

  function Delay(c: Clock, id: Id, d: nat): Clock {
    c.(sleeping := c.sleeping[id := c.now + d])
  }

  ghost predicate AllAhead(c: Clock) {
    forall id :: id in c.sleeping ==> c.sleeping[id] > c.now
  }

  lemma {:induction false} TicksAre(c: Clock, n: nat)
    requires AllAhead(c)
    ensures Ticks(c, n) == Clock(c.now + n, After(c.sleeping, c.now + n))
  {
    if n == 0 {
      assert After(c.sleeping, c.now) == c.sleeping;
    } else {
      TicksAre(c, n - 1);
      assert After(After(c.sleeping, c.now + n - 1), c.now + n) == After(c.sleeping, c.now + n);
    }
  }

  /** A co-routine delayed by d > 0 ticks sleeps until the d-th later tick is
      processed, and not longer. */
  lemma SleepsExactly(c: Clock, id: Id, d: nat, n: nat)
    requires AllAhead(c) && d > 0
    ensures id in Ticks(Delay(c, id, d), n).sleeping <==> n < d
  {
    TicksAre(Delay(c, id, d), n);
  }
}
