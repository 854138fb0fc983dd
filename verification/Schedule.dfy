/** When the search restarts and simplifies, and why that comes to an end. */
module Schedule {
  import opened Cnf
  import opened Sequences
  import opened Trail
  import opened Undoing
  import opened Progress
  import opened Luby
  import opened Arithmetic

  /** How many variables are assigned for good. */
  function Fixed(trail: seq<Entry>): nat {
    |FixedLits(trail)|
  }

  function FixedLits(trail: seq<Entry>): set<Lit> {
    set e | e in trail && e.level == 0 :: e.lit
  }

  lemma {:induction false} FixedIsBounded(trail: seq<Entry>)
    ensures Fixed(trail) <= |trail|
  {
    if trail != [] {
      var front, last := trail[..|trail| - 1], trail[|trail| - 1];
      FixedIsBounded(front);
      assert trail == front + [last];
      SubsetCard(FixedLits(trail), FixedLits(front) + {last.lit});
    }
  }

  /** It never gets less. */
  lemma FixedGrows(a: Assignment, b: Assignment)
    requires a.Indexed() && b.Indexed() && ZeroKept(a, b)
    ensures Fixed(a.trail) <= Fixed(b.trail)
  {
    forall l | l in FixedLits(a.trail)
      ensures l in FixedLits(b.trail)
    {
      var e :| e in a.trail && e.level == 0 && e.lit == l;
      assert a.True(l) && a.Level(l.idx) == 0;
      assert b.trail[b.at[l.idx]] in b.trail;
    }
    SubsetCard(FixedLits(a.trail), FixedLits(b.trail));
  }

  /** The next restart is due after so many more conflicts. */
  function Interval(lubycnt: nat): nat
    requires lubycnt > 0
  {
    100 * LubyAt(lubycnt)
  }

  /** Since the last restart each conflict made the trail worth more, but for some number of conflicts carried over from
      before a simplification; and a restart as late as the one at position goal would need more worth than there is. */
  ghost predicate Scheduled(trail: seq<Entry>, n: nat, conflicts: nat, lubycnt: nat, lrestart: nat, carry: nat, goal: nat) {
    && 0 < lubycnt <= goal && lrestart <= conflicts + Interval(lubycnt)
    && conflicts + Interval(lubycnt) <= lrestart + Worth(trail, n) + carry
    && Ceiling(n) + carry < Interval(goal)
  }

  /** Nothing is rescheduled, or a restart was due. */
  ghost predicate Ticked(conflicts: nat, lubycnt0: nat, lrestart0: nat, lubycnt: nat, lrestart: nat) {
    || (lubycnt == lubycnt0 && lrestart == lrestart0)
    || (lrestart0 <= conflicts && lubycnt == lubycnt0 + 1 && lrestart == conflicts + Interval(lubycnt))
  }

  lemma TickedIntro(conflicts: nat, lubycnt: nat, lrestart: nat)
    ensures Ticked(conflicts, lubycnt, lrestart, lubycnt, lrestart)
    ensures lrestart <= conflicts ==> Ticked(conflicts, lubycnt, lrestart, lubycnt + 1, conflicts + Interval(lubycnt + 1))
  {
  }

  lemma TickedFacts(conflicts: nat, lubycnt0: nat, lrestart0: nat, lubycnt: nat, lrestart: nat)
    requires Ticked(conflicts, lubycnt0, lrestart0, lubycnt, lrestart)
    ensures lubycnt0 <= lubycnt <= lubycnt0 + 1
    ensures lubycnt == lubycnt0 ==> lrestart == lrestart0
    ensures lubycnt0 < lubycnt ==> lrestart == conflicts + Interval(lubycnt)
  {
  }

  lemma ScheduleStart(trail: seq<Entry>, n: nat, conflicts: nat, lubycnt: nat, lrestart: nat) returns (carry: nat, goal: nat)
    requires 0 < lubycnt && lrestart <= conflicts + Interval(lubycnt)
    ensures Scheduled(trail, n, conflicts, lubycnt, lrestart, carry, goal)
  {
    hide LubyAt, Ceiling, Worth;
    carry := conflicts + Interval(lubycnt) - lrestart;
    goal := LubyIsUnbounded(lubycnt, Ceiling(n) + carry);
  }

  lemma ScheduleKept(s: seq<Entry>, t: seq<Entry>, n: nat, conflicts: nat, more: nat, lubycnt: nat, lrestart: nat, carry: nat, goal: nat)
    requires Scheduled(s, n, conflicts, lubycnt, lrestart, carry, goal)
    requires conflicts <= more && more - conflicts <= Worth(t, n) - Worth(s, n)
    ensures Scheduled(t, n, more, lubycnt, lrestart, carry, goal)
  {
    hide LubyAt, Ceiling, Worth;
  }

  /** The restart at position goal is never due. */
  lemma ScheduleTicks(s: seq<Entry>, t: seq<Entry>, n: nat, conflicts: nat, lubycnt0: nat, lrestart0: nat, lubycnt: nat, lrestart: nat,
                      carry: nat, goal: nat)
    requires Scheduled(s, n, conflicts, lubycnt0, lrestart0, carry, goal) && Worth(s, n) <= Ceiling(n)
    requires Ticked(conflicts, lubycnt0, lrestart0, lubycnt, lrestart)
    requires lubycnt == lubycnt0 ==> Worth(s, n) <= Worth(t, n)
    ensures Scheduled(t, n, conflicts, lubycnt, lrestart, carry, goal)
  {
    hide LubyAt, Ceiling, Worth;
  }

  lemma ScheduledFacts(trail: seq<Entry>, n: nat, conflicts: nat, lubycnt: nat, lrestart: nat, carry: nat, goal: nat)
    requires Scheduled(trail, n, conflicts, lubycnt, lrestart, carry, goal)
    ensures 0 < lubycnt <= goal && lrestart <= conflicts + Interval(lubycnt)
  {
    hide LubyAt, Ceiling, Worth;
  }

  /** At every position some later value exceeds any bound. */
  lemma LubyIsUnbounded(n: nat, bound: nat) returns (goal: nat)
    ensures goal > 0 && n <= goal && bound < LubyAt(goal)
  {
    hide LubyAt;
    var k := n + bound + 2;
    Pow2Exceeds(k - 1);
    LastOfBlock(k);
    goal := Pow2(k) - 1;
  }
}
