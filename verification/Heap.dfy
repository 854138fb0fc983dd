/** The heap of variables that decisions are taken from. */
module Heap {
  import opened SoftFloat

  /** How a variable ranks: its importance flags and its score. */
  datatype Rnk = Rnk(score: Flt, moreImportant: bool, lessImportant: bool)

  function Importance(r: Rnk): nat {
    (if r.moreImportant then 2 else 0) + (if r.lessImportant then 0 else 1)
  }

  /** The order of decisions, up to ties. */
  predicate NotLower(r: Rnk, s: Rnk) {
    Importance(r) > Importance(s) || (Importance(r) == Importance(s) && r.score >= s.score)
  }

  lemma NotLowerIsTotal(r: Rnk, s: Rnk, t: Rnk)
    ensures NotLower(r, s) || NotLower(s, r)
    ensures NotLower(r, s) && NotLower(s, t) ==> NotLower(r, t)
    ensures NotLower(r, r)
  {
  }

  /** The comparison of the code: negative, zero or positive. Of two that are equal the one with the
      smaller index compares as greater. */
  function Compare(r: Rnk, i: nat, s: Rnk, j: nat): int {
    if !r.moreImportant && s.moreImportant then -1
    else if r.moreImportant && !s.moreImportant then 1
    else if !r.lessImportant && s.lessImportant then 1
    else if r.lessImportant && !s.lessImportant then -1
    else if r.score < s.score then -1
    else if r.score > s.score then 1
    else j - i
  }

  lemma CompareIsNotLower(r: Rnk, i: nat, s: Rnk, j: nat)
    ensures Compare(r, i, s, j) >= 0 ==> NotLower(r, s)
    ensures Compare(r, i, s, j) <= 0 ==> NotLower(s, r)
  {
  }

  /** Entry i of the heap ranks no higher than its parent. */
  predicate Under(h: seq<nat>, rnks: seq<Rnk>, i: nat)
    requires 2 <= i < |h| && InBounds(h, rnks)
  {
    NotLower(rnks[h[i / 2]], rnks[h[i]])
  }

  predicate InBounds(h: seq<nat>, rnks: seq<Rnk>) {
    forall i :: 0 <= i < |h| ==> h[i] < |rnks|
  }

  ghost predicate Ordered(h: seq<nat>, rnks: seq<Rnk>) {
    InBounds(h, rnks) && forall i :: 2 <= i < |h| ==> Under(h, rnks, i)
  }

  /** In order, but for the entry at p possibly ranking higher than its parent. */
  ghost predicate Rising(h: seq<nat>, rnks: seq<Rnk>, p: nat) {
    && InBounds(h, rnks)
    && (forall i :: 2 <= i < |h| && i != p ==> Under(h, rnks, i))
    && (forall c :: 2 <= c < |h| && c / 2 == p && p >= 2 ==> NotLower(rnks[h[p / 2]], rnks[h[c]]))
  }

  /** In order, but for the entry at p possibly ranking lower than its children. */
  ghost predicate Sinking(h: seq<nat>, rnks: seq<Rnk>, p: nat) {
    && InBounds(h, rnks)
    && (forall i :: 2 <= i < |h| && i / 2 != p ==> Under(h, rnks, i))
    && (forall c :: 2 <= c < |h| && c / 2 == p && p >= 2 ==> NotLower(rnks[h[p / 2]], rnks[h[c]]))
  }

  /** Slots and positions are inverse to each other; position 0 means that a variable is not on the heap. */
  ghost predicate Placed(h: seq<nat>, pos: seq<nat>) {
    && |h| > 0 && |pos| > 0 && h[0] == 0 && pos[0] == 0
    && (forall i :: 1 <= i < |h| ==> 0 < h[i] < |pos| && pos[h[i]] == i)
    && (forall v :: 0 <= v < |pos| && pos[v] != 0 ==> pos[v] < |h| && h[pos[v]] == v)
  }

  lemma {:induction false} TopIsBest(h: seq<nat>, rnks: seq<Rnk>, i: nat)
    requires Ordered(h, rnks) && 1 <= i < |h|
    ensures NotLower(rnks[h[1]], rnks[h[i]])
  {
    if i > 1 {
      TopIsBest(h, rnks, i / 2);
      assert Under(h, rnks, i);
      NotLowerIsTotal(rnks[h[1]], rnks[h[i / 2]], rnks[h[i]]);
    }
  }

  /** The parent at position q gives its place to the entry that rises from p. */
  lemma RiseStep(h: seq<nat>, rnks: seq<Rnk>, p: nat)
    requires 2 <= p < |h| && Rising(h, rnks, p) && NotLower(rnks[h[p]], rnks[h[p / 2]])
    ensures Rising(h[p := h[p / 2]][p / 2 := h[p]], rnks, p / 2)
  {
    var q := p / 2;
    var g := h[p := h[q]][q := h[p]];
    hide NotLower;
    forall i | 2 <= i < |g| && i != q
      ensures Under(g, rnks, i)
    {
      if i == p {
        assert g[i / 2] == h[p] && g[i] == h[q];
      } else if i / 2 == p {
        assert g[i / 2] == h[q] && g[i] == h[i];
      } else if i / 2 == q {
        assert g[i / 2] == h[p] && g[i] == h[i] && Under(h, rnks, i);
        NotLowerIsTotal(rnks[h[p]], rnks[h[q]], rnks[h[i]]);
      } else {
        assert g[i / 2] == h[i / 2] && g[i] == h[i] && Under(h, rnks, i);
      }
    }
    forall c | 2 <= c < |g| && c / 2 == q && q >= 2
      ensures NotLower(rnks[g[q / 2]], rnks[g[c]])
    {
      assert g[q / 2] == h[q / 2] && Under(h, rnks, q);
      if c == p {
        assert g[c] == h[q];
      } else {
        assert g[c] == h[c] && Under(h, rnks, c);
        NotLowerIsTotal(rnks[h[q / 2]], rnks[h[q]], rnks[h[c]]);
      }
    }
  }

  /** The larger child at position c gives its place to the entry that sinks from p. */
  lemma SinkStep(h: seq<nat>, rnks: seq<Rnk>, p: nat, c: nat)
    requires 1 <= p && 2 <= c < |h| && c / 2 == p && Sinking(h, rnks, p) && NotLower(rnks[h[c]], rnks[h[p]])
    requires forall o :: 2 <= o < |h| && o / 2 == p ==> NotLower(rnks[h[c]], rnks[h[o]])
    ensures Sinking(h[p := h[c]][c := h[p]], rnks, c)
  {
    var g := h[p := h[c]][c := h[p]];
    hide NotLower;
    forall i | 2 <= i < |g| && i / 2 != c
      ensures Under(g, rnks, i)
    {
      if i == c {
        assert g[i / 2] == h[c] && g[i] == h[p];
      } else if i / 2 == p {
        assert g[i / 2] == h[c] && g[i] == h[i];
      } else if i == p {
        assert g[i / 2] == h[p / 2] && g[i] == h[c];
      } else {
        assert g[i / 2] == h[i / 2] && g[i] == h[i] && Under(h, rnks, i);
      }
    }
    forall d | 2 <= d < |g| && d / 2 == c && c >= 2
      ensures NotLower(rnks[g[c / 2]], rnks[g[d]])
    {
      assert g[c / 2] == h[c] && g[d] == h[d] && Under(h, rnks, d);
    }
  }

  /** Two entries trade places. */
  lemma TradePlaces(h: seq<nat>, pos: seq<nat>, p: nat, q: nat)
    requires Placed(h, pos) && 1 <= p < |h| && 1 <= q < |h| && p != q
    ensures Placed(h[p := h[q]][q := h[p]], pos[h[q] := p][h[p] := q])
    ensures SameMembers(pos, pos[h[q] := p][h[p] := q])
  {
  }

  /** The same variables are on the heap. */
  ghost predicate SameMembers(pos: seq<nat>, pos': seq<nat>) {
    |pos| == |pos'| && forall v :: 0 <= v < |pos| ==> (pos[v] != 0 <==> pos'[v] != 0)
  }

  lemma MembersTrans(p: seq<nat>, q: seq<nat>, r: seq<nat>)
    requires SameMembers(p, q) && SameMembers(q, r)
    ensures SameMembers(p, r)
  {
  }

  /** What is left of a swap while the moving entry v is held aside. */
  lemma Held(h: seq<nat>, pos: seq<nat>, v: nat, p: nat, q: nat)
    requires p < |h| && q < |h| && p != q && v < |pos| && h[q] < |pos| && h[q] != v
    ensures var g := h[p := v];
      h[p := h[q]][q := v] == g[p := g[q]][q := g[p]]
    ensures pos[h[q] := p][v := q] == pos[v := p][h[q] := p][v := q]
  {
  }

  /** A higher rank may only violate the order towards the parent. */
  lemma RankGrows(h: seq<nat>, pos: seq<nat>, rnks: seq<Rnk>, more: seq<Rnk>, v: nat)
    requires Ordered(h, rnks) && Placed(h, pos) && |more| == |rnks| == |pos| && v < |rnks| && pos[v] > 0
    requires NotLower(more[v], rnks[v]) && forall u :: 0 <= u < |rnks| && u != v ==> more[u] == rnks[u]
    ensures Rising(h, more, pos[v])
  {
    hide NotLower;
    var p := pos[v];
    forall i | 2 <= i < |h| && i != p
      ensures Under(h, more, i)
    {
      assert Under(h, rnks, i) && h[i] != v;
      NotLowerIsTotal(more[v], rnks[v], rnks[h[i]]);
    }
    forall c | 2 <= c < |h| && c / 2 == p && p >= 2
      ensures NotLower(more[h[p / 2]], more[h[c]])
    {
      assert Under(h, rnks, p) && Under(h, rnks, c) && h[c] != v && h[p / 2] != v;
      NotLowerIsTotal(rnks[h[p / 2]], rnks[v], rnks[h[c]]);
    }
  }

  class Decisions {
    /** Slot 0 of the heap is unused, as is variable 0. */
    var heap: seq<nat>
    var pos: seq<nat>
    var rnks: seq<Rnk>
    var vinc: Flt
    var ilvinc: Flt
    var lscore: Flt

    ghost predicate Shaped()
      reads this`heap, this`pos, this`rnks
    {
      Placed(heap, pos) && |rnks| == |pos|
    }

    ghost predicate Valid()
      reads this`heap, this`pos, this`rnks
    {
      Shaped() && Ordered(heap, rnks)
    }

    /** Moves v up until its parent ranks higher. */
    method Hup(v: nat)
      requires Shaped() && 0 < v < |pos| && pos[v] > 0 && Rising(heap, rnks, pos[v])
      modifies this`heap, this`pos
      ensures Valid() && |heap| == old(|heap|) && SameMembers(old(pos), pos)
    {
      hide Placed, Rising, Ordered, NotLower, Compare, SameMembers;
      PlacedFacts(heap, pos);
      var vpos := pos[v];
      MembersRefl(pos);
      assert heap[vpos := v] == heap && pos[v := vpos] == pos;
      while vpos > 1
        invariant 1 <= vpos < |heap| == old(|heap|) && |rnks| == |pos| && v < |pos|
        invariant Placed(heap[vpos := v], pos[v := vpos]) && Rising(heap[vpos := v], rnks, vpos)
        invariant SameMembers(old(pos), pos[v := vpos])
      {
        ghost var g, gp := heap[vpos := v], pos[v := vpos];
        PlacedFacts(g, gp);
        var upos := vpos / 2;
        var u := heap[upos];
        assert g[upos] == u && g[vpos] == v;
        CompareIsNotLower(rnks[u], u, rnks[v], v);
        if Compare(rnks[u], u, rnks[v], v) > 0 {
          RisenEnd(g, rnks, vpos);
          break;
        }
        RiseStep(g, rnks, vpos);
        TradePlaces(g, gp, vpos, upos);
        Held(heap, pos, v, vpos, upos);
        MembersTrans(old(pos), gp, gp[u := vpos][v := upos]);
        heap := heap[vpos := u];
        pos := pos[u := vpos];
        vpos := upos;
      }
      if vpos <= 1 {
        RisenEnd(heap[vpos := v], rnks, vpos);
      }
      heap := heap[vpos := v];
      pos := pos[v := vpos];
    }

    /** Moves r down until its children rank no higher. */
    method Hdown(r: nat)
      requires Shaped() && 0 < r < |pos| && pos[r] > 0 && Sinking(heap, rnks, pos[r])
      modifies this`heap, this`pos
      ensures Valid() && |heap| == old(|heap|) && SameMembers(old(pos), pos)
    {
      hide Placed, Sinking, Ordered, NotLower, Compare, SameMembers;
      PlacedFacts(heap, pos);
      var end := |heap|;
      var rpos := pos[r];
      MembersRefl(pos);
      assert heap[rpos := r] == heap && pos[r := rpos] == pos;
      while true
        invariant 1 <= rpos < |heap| == end == old(|heap|) && |rnks| == |pos| && r < |pos|
        invariant Placed(heap[rpos := r], pos[r := rpos]) && Sinking(heap[rpos := r], rnks, rpos)
        invariant SameMembers(old(pos), pos[r := rpos])
        decreases end - rpos
      {
        ghost var g, gp := heap[rpos := r], pos[r := rpos];
        PlacedFacts(g, gp);
        var cpos := 2 * rpos;
        if cpos >= end {
          SunkEnd(g, rnks, rpos);
          break;
        }
        var opos := cpos + 1;
        var child := heap[cpos];
        assert g[cpos] == child && g[rpos] == r && (opos < end ==> g[opos] == heap[opos]);
        CompareIsNotLower(rnks[r], r, rnks[child], child);
        if Compare(rnks[r], r, rnks[child], child) < 0 {
          if opos < end {
            var other := heap[opos];
            CompareIsNotLower(rnks[child], child, rnks[other], other);
            NotLowerIsTotal(rnks[other], rnks[child], rnks[r]);
            if Compare(rnks[child], child, rnks[other], other) < 0 {
              child := other;
              cpos := opos;
            }
          }
        } else if opos < end {
          ghost var first := child;
          child := heap[opos];
          CompareIsNotLower(rnks[r], r, rnks[child], child);
          if Compare(rnks[r], r, rnks[child], child) >= 0 {
            SunkEnd(g, rnks, rpos);
            break;
          }
          NotLowerIsTotal(rnks[child], rnks[r], rnks[first]);
          cpos := opos;
        } else {
          SunkEnd(g, rnks, rpos);
          break;
        }
        NotLowerIsTotal(rnks[child], rnks[child], rnks[child]);
        SinkStep(g, rnks, rpos, cpos);
        TradePlaces(g, gp, rpos, cpos);
        Held(heap, pos, r, rpos, cpos);
        MembersTrans(old(pos), gp, gp[child := rpos][r := cpos]);
        heap := heap[rpos := child];
        pos := pos[child := rpos];
        rpos := cpos;
      }
      pos := pos[r := rpos];
      heap := heap[rpos := r];
    }

    constructor (vinc: Flt, ilvinc: Flt, lscore: Flt)
      ensures Valid() && |pos| == 1 && |heap| == 1 && this.vinc == vinc && this.ilvinc == ilvinc && this.lscore == lscore
    {
      heap, pos, rnks := [0], [0], [Rnk(0, false, false)];
      this.vinc, this.ilvinc, this.lscore := vinc, ilvinc, lscore;
    }

    /** One more variable, which goes onto the heap. */
    method IncMaxVar()
      requires Valid()
      modifies this`heap, this`pos, this`rnks
      ensures Valid() && |pos| == old(|pos|) + 1 && pos[old(|pos|)] > 0
      ensures forall v :: 0 <= v < old(|pos|) ==> (pos[v] != 0 <==> old(pos)[v] != 0)
      ensures rnks == old(rnks) + [Rnk(0, false, false)]
    {
      OneMore(heap, pos, rnks, Rnk(0, false, false));
      hide Placed, Ordered, NotLower;
      pos, rnks := pos + [0], rnks + [Rnk(0, false, false)];
      Hpush(|pos| - 1);
    }

    /** Puts r onto the heap. */
    method Hpush(r: nat)
      requires Valid() && 0 < r < |pos| && pos[r] == 0
      modifies this`heap, this`pos
      ensures Valid() && SameMembers(old(pos)[r := 1], pos)
    {
      hide Placed, Ordered, Rising, SameMembers;
      PushPlaced(heap, pos, rnks, r);
      pos := pos[r := |heap|];
      heap := heap + [r];
      Hup(r);
      PushMembers(old(pos), old(|heap|), r, pos);
    }

    /** Takes the best variable off the heap. */
    method Hpop() returns (res: nat)
      requires Valid() && |heap| > 1
      modifies this`heap, this`pos
      ensures Valid() && |heap| == old(|heap|) - 1 && res == old(heap[1]) && 0 < res < |pos|
      ensures SameMembers(old(pos)[res := 0], pos)
    {
      hide Placed, Ordered, Sinking, SameMembers;
      PlacedFacts(heap, pos);
      res := heap[1];
      var end := |heap| - 1;
      PopPlaced(heap, pos, rnks);
      if end == 1 {
        heap, pos := heap[..1], pos[res := 0];
        MembersRefl(pos);
        return;
      }
      var last := heap[end];
      pos := pos[res := 0][last := 1];
      heap := heap[..end][1 := last];
      ghost var p := pos;
      Hdown(last);
      PopMembers(old(pos), res, last, p, pos);
    }

    /** A variable that is no longer assigned goes back onto the heap. */
    method Unassign(v: nat)
      requires Valid() && 0 < v < |pos|
      modifies this`heap, this`pos
      ensures Valid() && SameMembers(old(pos)[v := 1], pos)
    {
      if pos[v] == 0 {
        Hpush(v);
      }
    }

    /** Takes assigned variables off until the best one is unassigned; that one stays. */
    method Sdecide(taken: set<nat>) returns (res: nat)
      requires Valid() && Waiting(pos, taken)
      requires exists v :: 0 < v < |pos| && v !in taken
      modifies this`heap, this`pos
      ensures Valid() && Waiting(pos, taken) && 0 < res < |pos| == old(|pos|) && res !in taken && pos[res] > 0
      ensures forall v :: 0 < v < |pos| && v !in taken ==> NotLower(rnks[res], rnks[v])
    {
      hide Placed, Ordered, NotLower, SameMembers;
      ghost var free :| 0 < free < |pos| && free !in taken;
      Nonempty(heap, pos, taken, free);
      while heap[1] in taken
        invariant Valid() && Waiting(pos, taken) && |pos| == old(|pos|) && |heap| > 1
        decreases |heap|
      {
        ghost var pos0 := pos;
        var r := Hpop();
        StillWaiting(pos0, taken, r, pos);
        Nonempty(heap, pos, taken, free);
      }
      res := heap[1];
      PlacedFacts(heap, pos);
      BestOfAll(heap, pos, rnks, taken);
    }

    /** Raises the score of a variable involved in a conflict. */
    method IncScore(v: nat, simplifying: bool, level: nat)
      requires Valid() && 0 < v < |pos|
      modifies this
      ensures Shaped() && SameMembers(old(pos), pos) && lscore == old(lscore) && ilvinc == old(ilvinc)
      ensures simplifying || level == 0 ==> rnks == old(rnks) && heap == old(heap) && pos == old(pos)
      ensures var bumped := Bumped(old(rnks), v, old(vinc));
        !simplifying && level > 0 ==> rnks == if bumped[v].score > lscore then Rescored(bumped, ilvinc) else bumped
      ensures simplifying || level == 0 || Bumped(old(rnks), v, old(vinc))[v].score <= lscore ==> vinc == old(vinc)
      ensures var bumped := Bumped(old(rnks), v, old(vinc));
        !simplifying && level > 0 && bumped[v].score > lscore ==> vinc == Mul(old(vinc), ilvinc)
      ensures var bumped := Bumped(old(rnks), v, old(vinc));
        bumped[v].score <= lscore || WeaklyMonotone(bumped, ilvinc) ==> Valid()
    {
      hide Placed, Ordered, NotLower, SameMembers, WeaklyMonotone, Rescored, Add;
      MembersRefl(pos);
      if simplifying || level == 0 {
        return;
      }
      var score := Add(rnks[v].score, vinc);
      ScoreGrows(rnks[v], vinc);
      Raise(v, score);
      if score > lscore {
        Vrescore();
      }
    }

    /** A variable fixed for good gets the highest score. */
    method FixVar(v: nat)
      requires Valid() && 0 < v < |pos|
      modifies this`heap, this`pos, this`rnks
      ensures Valid() && SameMembers(old(pos), pos) && rnks == old(rnks)[v := old(rnks[v]).(score := INF)]
    {
      Raise(v, INF);
    }

    /** Gives a variable a higher score and lets it rise. */
    method Raise(v: nat, score: Flt)
      requires Valid() && 0 < v < |pos| && score >= rnks[v].score
      modifies this`heap, this`pos, this`rnks
      ensures Valid() && SameMembers(old(pos), pos) && rnks == old(rnks)[v := old(rnks[v]).(score := score)]
    {
      hide Placed, Ordered, Rising, NotLower, SameMembers;
      MembersRefl(pos);
      ghost var before := rnks;
      HigherScore(rnks[v], score);
      rnks := rnks[v := rnks[v].(score := score)];
      PlacedFacts(heap, pos);
      if pos[v] > 0 {
        RankGrows(heap, pos, before, rnks, v);
        Hup(v);
      } else {
        RankElsewhere(heap, pos, before, rnks, v);
      }
    }

    /** Scales all scores down. */
    method Vrescore()
      requires Shaped()
      modifies this`rnks, this`vinc
      ensures Shaped() && rnks == Rescored(old(rnks), ilvinc) && vinc == Mul(old(vinc), ilvinc)
      ensures old(Valid()) && WeaklyMonotone(old(rnks), ilvinc) ==> Valid()
    {
      hide Placed, Ordered, NotLower, Mul;
      PlacedFacts(heap, pos);
      var p := 1;
      while p < |rnks|
        invariant 1 <= p <= |rnks| == old(|rnks|) && vinc == old(vinc)
        invariant forall v :: 0 <= v < |rnks| ==>
          rnks[v] == if 0 < v < p then old(rnks)[v].(score := Rescore(old(rnks)[v].score, ilvinc)) else old(rnks)[v]
      {
        if rnks[p].score != INF {
          rnks := rnks[p := rnks[p].(score := Mul(rnks[p].score, ilvinc))];
        }
        p := p + 1;
      }
      assert rnks == Rescored(old(rnks), ilvinc);
      vinc := Mul(vinc, ilvinc);
      if Ordered(heap, old(rnks)) && WeaklyMonotone(old(rnks), ilvinc) {
        RescoredOrdered(heap, pos, old(rnks), ilvinc);
      }
    }
  }

  function Bumped(rnks: seq<Rnk>, v: nat, vinc: Flt): (r: seq<Rnk>)
    requires v < |rnks|
    ensures |r| == |rnks|
  {
    rnks[v := rnks[v].(score := Add(rnks[v].score, vinc))]
  }

  /** The score rises by the increment, up to rounding down, so that the variable ranks no lower; all else stays. */
  lemma BumpIsSum(rnks: seq<Rnk>, v: nat, vinc: Flt)
    requires v < |rnks|
    ensures Truncates(Bumped(rnks, v, vinc)[v].score, Value(rnks[v].score) + Value(vinc))
    ensures NotLower(Bumped(rnks, v, vinc)[v], rnks[v])
    ensures Bumped(rnks, v, vinc)[v].moreImportant == rnks[v].moreImportant
    ensures Bumped(rnks, v, vinc)[v].lessImportant == rnks[v].lessImportant
    ensures forall u :: 0 <= u < |rnks| && u != v ==> Bumped(rnks, v, vinc)[u] == rnks[u]
  {
    hide Add, Truncates;
    AddIsTruncatedSum(rnks[v].score, vinc);
    ScoreGrows(rnks[v], vinc);
    HigherScore(rnks[v], Add(rnks[v].score, vinc));
  }

  function Rescore(s: Flt, inc: Flt): Flt {
    if s == INF then INF else Mul(s, inc)
  }

  function Rescored(rnks: seq<Rnk>, inc: Flt): (r: seq<Rnk>)
    ensures |r| == |rnks|
  {
    seq(|rnks|, v requires 0 <= v < |rnks| => if v == 0 then rnks[0] else rnks[v].(score := Rescore(rnks[v].score, inc)))
  }

  /** Rescoring may merge scores, but does not turn any two around. */
  ghost predicate WeaklyMonotone(rnks: seq<Rnk>, inc: Flt) {
    forall u, v :: 0 < u < |rnks| && 0 < v < |rnks| && rnks[u].score >= rnks[v].score ==>
      Rescore(rnks[u].score, inc) >= Rescore(rnks[v].score, inc)
  }

  /** Some score is lost in rescoring while a smaller one, which is not zero, is kept. */
  ghost predicate LosesOne(rnks: seq<Rnk>, inc: Flt) {
    exists u, v :: 0 < u < |rnks| && 0 < v < |rnks| && Overtakes(rnks[u].score, rnks[v].score, inc)
  }

  predicate Overtakes(larger: Flt, smaller: Flt, inc: Flt) {
    larger >= smaller && Lost(larger, inc) && smaller != ZERO && !Lost(smaller, inc)
  }

  /** Rescoring is weakly monotone exactly if no score is lost above one that is kept. */
  lemma RescoreIsMonotone(rnks: seq<Rnk>, inc: Flt)
    ensures WeaklyMonotone(rnks, inc) <==> !LosesOne(rnks, inc)
  {
    hide Mul, Lost;
    forall u, v | 0 < u < |rnks| && 0 < v < |rnks| && rnks[u].score >= rnks[v].score
      ensures Rescore(rnks[u].score, inc) >= Rescore(rnks[v].score, inc) <==> !Overtakes(rnks[u].score, rnks[v].score, inc)
    {
      PairRescored(rnks[u].score, rnks[v].score, inc);
    }
    if LosesOne(rnks, inc) {
      var u, v :| 0 < u < |rnks| && 0 < v < |rnks| && Overtakes(rnks[u].score, rnks[v].score, inc);
      assert !(Rescore(rnks[u].score, inc) >= Rescore(rnks[v].score, inc));
    }
  }

  lemma PairRescored(larger: Flt, smaller: Flt, inc: Flt)
    requires larger >= smaller
    ensures Rescore(larger, inc) >= Rescore(smaller, inc) <==> !Overtakes(larger, smaller, inc)
  {
    hide Mul;
    InfIsNotLost(inc);
    if larger != INF {
      MulIsMonotoneIff(smaller, inc, larger, inc);
      LostNeedsBoth(larger, inc);
    }
  }

  lemma InfIsNotLost(inc: Flt)
    ensures !Lost(INF, inc)
  {
  }

  lemma LostNeedsBoth(s: Flt, inc: Flt)
    ensures Lost(s, inc) ==> s != ZERO && inc != ZERO
  {
  }

  /** The solver rescores by 2^-90, and then the only score that is lost is 2^-14. */
  lemma RescoreByDefault(rnks: seq<Rnk>)
    ensures WeaklyMonotone(rnks, 14 * MSB) <==>
              !exists u, v :: 0 < u < |rnks| && 0 < v < |rnks| && rnks[u].score == 90 * MSB && 0 < rnks[v].score < 90 * MSB
  {
    hide WeaklyMonotone, Lost;
    RescoreIsMonotone(rnks, 14 * MSB);
    forall v | 0 <= v < |rnks|
      ensures Lost(rnks[v].score, 14 * MSB) <==> rnks[v].score == 90 * MSB
    {
      LostByDefault(rnks[v].score);
    }
    if u, v :| 0 < u < |rnks| && 0 < v < |rnks| && rnks[u].score == 90 * MSB && 0 < rnks[v].score < 90 * MSB {
      assert Overtakes(rnks[u].score, rnks[v].score, 14 * MSB);
    }
    if LosesOne(rnks, 14 * MSB) {
      var u, v :| 0 < u < |rnks| && 0 < v < |rnks| && Overtakes(rnks[u].score, rnks[v].score, 14 * MSB);
      assert rnks[u].score == 90 * MSB && 0 < rnks[v].score < 90 * MSB;
    }
  }

  lemma LostByDefault(s: Flt)
    ensures Lost(s, 14 * MSB) <==> s == 90 * MSB
  {
    assert Mantissa(14 * MSB) == MSB && Exponent(14 * MSB) == 14;
    assert Mantissa(s) * MSB / MSB == Mantissa(s);
    assert s == Exponent(s) * MSB + Mantissa(s) - MSB;
  }

  lemma RescoredOrdered(h: seq<nat>, pos: seq<nat>, rnks: seq<Rnk>, inc: Flt)
    requires Ordered(h, rnks) && Placed(h, pos) && |pos| == |rnks| && WeaklyMonotone(rnks, inc)
    ensures Ordered(h, Rescored(rnks, inc))
  {
    hide Mul;
    var more := Rescored(rnks, inc);
    forall i | 2 <= i < |h|
      ensures Under(h, more, i)
    {
      assert Under(h, rnks, i) && 0 < h[i] && 0 < h[i / 2];
    }
  }

  lemma HigherScore(r: Rnk, score: Flt)
    requires score >= r.score
    ensures NotLower(r.(score := score), r)
  {
  }

  lemma ScoreGrows(r: Rnk, vinc: Flt)
    ensures Add(r.score, vinc) >= r.score
  {
    AddIsMonotone(r.score, vinc, r.score, vinc);
  }

  lemma RankElsewhere(h: seq<nat>, pos: seq<nat>, rnks: seq<Rnk>, more: seq<Rnk>, v: nat)
    requires Ordered(h, rnks) && Placed(h, pos) && |more| == |rnks| == |pos| && 0 < v < |rnks| && pos[v] == 0
    requires forall u :: 0 <= u < |rnks| && u != v ==> more[u] == rnks[u]
    ensures Ordered(h, more)
  {
    forall i | 2 <= i < |h|
      ensures Under(h, more, i)
    {
      assert Under(h, rnks, i) && h[i] != v && h[i / 2] != v;
    }
  }

  lemma OneMore(h: seq<nat>, pos: seq<nat>, rnks: seq<Rnk>, r: Rnk)
    requires Placed(h, pos) && Ordered(h, rnks) && |pos| == |rnks|
    ensures Placed(h, pos + [0]) && Ordered(h, rnks + [r])
  {
    forall i | 2 <= i < |h|
      ensures Under(h, rnks + [r], i)
    {
      assert Under(h, rnks, i);
    }
  }

  lemma PushPlaced(h: seq<nat>, pos: seq<nat>, rnks: seq<Rnk>, r: nat)
    requires Placed(h, pos) && Ordered(h, rnks) && |pos| == |rnks| && 0 < r < |pos| && pos[r] == 0
    ensures Placed(h + [r], pos[r := |h|]) && Rising(h + [r], rnks, |h|) && |h| > 0
  {
    var g := h + [r];
    forall i | 2 <= i < |g| && i != |h|
      ensures Under(g, rnks, i)
    {
      assert Under(h, rnks, i);
    }
  }

  lemma PushMembers(before: seq<nat>, n: nat, r: nat, after: seq<nat>)
    requires r < |before| && n > 0 && SameMembers(before[r := n], after)
    ensures SameMembers(before[r := 1], after)
  {
  }

  /** The last entry replaces the first. */
  lemma PopPlaced(h: seq<nat>, pos: seq<nat>, rnks: seq<Rnk>)
    requires Placed(h, pos) && Ordered(h, rnks) && |pos| == |rnks| && |h| > 1
    ensures |h| == 2 ==> Placed(h[..1], pos[h[1] := 0]) && Ordered(h[..1], rnks)
    ensures var end := |h| - 1;
      |h| > 2 ==> h[1] != h[end] && Placed(h[..end][1 := h[end]], pos[h[1] := 0][h[end] := 1]) && Sinking(h[..end][1 := h[end]], rnks, 1)
  {
    var end := |h| - 1;
    if |h| > 2 {
      assert pos[h[1]] == 1 && pos[h[end]] == end;
      var g := h[..end][1 := h[end]];
      forall i | 2 <= i < |g| && i / 2 != 1
        ensures Under(g, rnks, i)
      {
        assert Under(h, rnks, i) && g[i] == h[i] && g[i / 2] == h[i / 2];
      }
    }
  }

  lemma PopMembers(before: seq<nat>, res: nat, last: nat, p: seq<nat>, after: seq<nat>)
    requires res < |before| && last < |before| && res != last && before[last] != 0 && p == before[res := 0][last := 1] && SameMembers(p, after)
    ensures SameMembers(before[res := 0], after)
  {
  }

  /** Every unassigned variable waits on the heap. */
  ghost predicate Waiting(pos: seq<nat>, taken: set<nat>) {
    forall v :: 0 < v < |pos| && v !in taken ==> pos[v] > 0
  }

  lemma StillWaiting(pos: seq<nat>, taken: set<nat>, r: nat, pos': seq<nat>)
    requires Waiting(pos, taken) && r in taken && r < |pos| && SameMembers(pos[r := 0], pos')
    ensures Waiting(pos', taken)
  {
  }

  /** While a variable is unassigned the heap is not empty. */
  lemma Nonempty(h: seq<nat>, pos: seq<nat>, taken: set<nat>, free: nat)
    requires Placed(h, pos) && Waiting(pos, taken) && 0 < free < |pos| && free !in taken
    ensures |h| > 1
  {
  }

  lemma BestOfAll(h: seq<nat>, pos: seq<nat>, rnks: seq<Rnk>, taken: set<nat>)
    requires Placed(h, pos) && Ordered(h, rnks) && |pos| == |rnks| && Waiting(pos, taken) && |h| > 1 && h[1] < |rnks|
    ensures forall v :: 0 < v < |pos| && v !in taken ==> NotLower(rnks[h[1]], rnks[v])
  {
    hide NotLower;
    forall v | 0 < v < |pos| && v !in taken
      ensures NotLower(rnks[h[1]], rnks[v])
    {
      TopIsBest(h, rnks, pos[v]);
    }
  }

  lemma PlacedFacts(h: seq<nat>, pos: seq<nat>)
    requires Placed(h, pos)
    ensures |h| > 0 && |pos| > 0 && h[0] == 0 && pos[0] == 0
    ensures forall i :: 1 <= i < |h| ==> 0 < h[i] < |pos| && pos[h[i]] == i
    ensures forall v :: 0 <= v < |pos| && pos[v] != 0 ==> pos[v] < |h| && h[pos[v]] == v
  {
  }

  lemma MembersRefl(pos: seq<nat>)
    ensures SameMembers(pos, pos)
  {
  }

  lemma RisenEnd(h: seq<nat>, rnks: seq<Rnk>, p: nat)
    requires 1 <= p < |h| && Rising(h, rnks, p) && (p > 1 ==> NotLower(rnks[h[p / 2]], rnks[h[p]]))
    ensures Ordered(h, rnks)
  {
  }

  lemma SunkEnd(h: seq<nat>, rnks: seq<Rnk>, p: nat)
    requires 1 <= p < |h| && Sinking(h, rnks, p)
    requires (2 * p < |h| ==> NotLower(rnks[h[p]], rnks[h[2 * p]])) && (2 * p + 1 < |h| ==> NotLower(rnks[h[p]], rnks[h[2 * p + 1]]))
    ensures Ordered(h, rnks)
  {
    forall i | 2 <= i < |h| && i / 2 == p
      ensures Under(h, rnks, i)
    {
      assert i == 2 * p || i == 2 * p + 1;
    }
  }
}
