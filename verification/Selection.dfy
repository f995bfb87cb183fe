/** Which twins a search picks (src/server/thread_functions/thread_worker.c:97-231). */
module Selection {
  import opened Common
  import opened Bresenham
  import opened PriorityTable
  import opened Domain

  /** A search on behalf of emergency e. */
  datatype Quest = Quest(cfg: Config, core: Core, e: nat)

  ghost predicate Sensible(q: Quest) {
    && ValidConfig(q.cfg)
    && Shape(q.cfg, q.core)
    && Rostered(q.cfg, q.core)
    && q.e < |q.core.emergencies|
  }

  function Self(q: Quest): Emergency
    requires q.e < |q.core.emergencies|
  {
    q.core.emergencies[q.e]
  }

  /** The level of the emergency a twin works for. */
  function WorkLevel(q: Quest, i: nat): nat
    requires i < |q.core.twins|
  {
    var t := q.core.twins[i];
    if t.emergency.Some? && t.emergency.value < |q.core.emergencies|
    then LevelOf(q.cfg, q.core.emergencies[t.emergency.value]) else 0
  }

  /** estimated_arrival_time */
  function Eta(q: Quest, i: nat): int
    requires Sensible(q) && i < |q.core.twins|
  {
    var t := q.core.twins[i];
    Manhattan(Self(q).x, Self(q).y, t.x, t.y) / q.cfg.rescuers[t.rtype].speed
  }

  /** is_preemptable_or_available */
  predicate Available(q: Quest, i: nat)
    requires Sensible(q) && i < |q.core.twins|
  {
    var t := q.core.twins[i];
    match t.status
    case Idle => true
    case Returning => false
    case _ => !(t.emergency.Some? && WorkLevel(q, i) >= LevelOf(q.cfg, Self(q)))
  }

  /** The twins find_best_twin does not skip; `taken` are the ones already flagged as candidates. */
  predicate Eligible(q: Quest, i: nat, taken: set<nat>)
    requires Sensible(q) && i < |q.core.twins|
  {
    && i !in taken
    && Available(q, i)
    && q.core.twins[i].emergency != Some(q.e)
    && !(Self(q).urgency.timeout != NO_TIMEOUT && Eta(q, i) > Self(q).urgency.timeout)
  }

  /** compare_twins: positive when a is preferable, negative when b is. */
  function CompareTwins(q: Quest, a: nat, b: nat): int
    requires Sensible(q) && a < |q.core.twins| && b < |q.core.twins|
  {
    var s, t := q.core.twins[a], q.core.twins[b];
    if (s.status == Idle) != (t.status == Idle) then
      if s.status == Idle then 1 else -1
    else if s.emergency.Some? && t.emergency.Some? && WorkLevel(q, a) != WorkLevel(q, b) then
      if WorkLevel(q, a) < WorkLevel(q, b) then 1 else -1
    else if Eta(q, a) != Eta(q, b) then
      Eta(q, b) - Eta(q, a)
    else if s.status == EnRoute && t.status == OnScene then 1
    else if t.status == EnRoute && s.status == OnScene then -1
    else 0
  }

  // ---------------------------------------------------------------- the order behind the comparison

  /** What makes a twin preferable: being idle, then working for a lower level, then
      arriving sooner, then not having arrived anywhere yet. */
  datatype Grade = Grade(busy: nat, level: nat, eta: int, onScene: nat)

  function GradeOf(q: Quest, i: nat): Grade
    requires Sensible(q) && i < |q.core.twins|
  {
    var t := q.core.twins[i];
    Grade(if t.status == Idle then 0 else 1,
          if t.status == Idle then 0 else WorkLevel(q, i),
          Eta(q, i),
          if t.status == OnScene then 1 else 0)
  }

  predicate Better(a: Grade, b: Grade) {
    || a.busy < b.busy
    || (a.busy == b.busy && a.level < b.level)
    || (a.busy == b.busy && a.level == b.level && a.eta < b.eta)
    || (a.busy == b.busy && a.level == b.level && a.eta == b.eta && a.onScene < b.onScene)
  }

  /** Better twin first; between equals, the one created first. */
  predicate Precedes(q: Quest, i: nat, j: nat)
    requires Sensible(q) && i < |q.core.twins| && j < |q.core.twins|
  {
    Better(GradeOf(q, i), GradeOf(q, j)) || (GradeOf(q, i) == GradeOf(q, j) && i < j)
  }

  /** On twins a search may take, compare_twins is the comparison of grades: a total preorder. */
  lemma ComparisonIsByGrade(q: Quest, a: nat, b: nat)
    requires Sensible(q) && a < |q.core.twins| && b < |q.core.twins|
    requires Available(q, a) && Available(q, b)
    ensures CompareTwins(q, a, b) > 0 <==> Better(GradeOf(q, a), GradeOf(q, b))
    ensures CompareTwins(q, a, b) < 0 <==> Better(GradeOf(q, b), GradeOf(q, a))
    ensures CompareTwins(q, a, b) == 0 <==> GradeOf(q, a) == GradeOf(q, b)
  {
    assert ShapeTwin(q.cfg, q.core, q.core.twins[a]) && ShapeTwin(q.cfg, q.core, q.core.twins[b]);
  }

  /** Precedence is a strict total order. */
  lemma PrecedenceIsStrictOrder(q: Quest, i: nat, j: nat, k: nat)
    requires Sensible(q) && i < |q.core.twins| && j < |q.core.twins| && k < |q.core.twins|
    ensures !Precedes(q, i, i)
    ensures Precedes(q, i, j) && Precedes(q, j, k) ==> Precedes(q, i, k)
    ensures i != j ==> (Precedes(q, i, j) <==> !Precedes(q, j, i))
  {
  }

  // ---------------------------------------------------------------- the best twin

  function TwinsOf(q: Quest, r: nat): (s: seq<nat>)
    requires Sensible(q) && r < |q.cfg.rescuers|
    ensures forall j :: 0 <= j < |s| ==> s[j] < |q.core.twins| && q.core.twins[s[j]].rtype == r
    ensures forall j, k :: 0 <= j < k < |s| ==> s[j] < s[k]
  {
    q.cfg.rescuers[r].twins
  }

  /** find_best_twin after the first n twins of the type. */
  function BestOf(q: Quest, r: nat, n: nat, taken: set<nat>): (b: Option<nat>)
    requires Sensible(q) && r < |q.cfg.rescuers| && n <= |TwinsOf(q, r)|
    ensures b.Some? ==> b.value < |q.core.twins|
  {
    if n == 0 then None
    else
      var b, i := BestOf(q, r, n - 1, taken), TwinsOf(q, r)[n - 1];
      if !Eligible(q, i, taken) then b
      else if b == None || CompareTwins(q, b.value, i) < 0 then Some(i)
      else b
  }

  function Best(q: Quest, r: nat, taken: set<nat>): (b: Option<nat>)
    requires Sensible(q) && r < |q.cfg.rescuers|
    ensures b.Some? ==> b.value < |q.core.twins|
  {
    BestOf(q, r, |TwinsOf(q, r)|, taken)
  }

  /** The scan finds the eligible twin that precedes all the others seen so far. */
  lemma {:induction false} BestOfPrecedes(q: Quest, r: nat, n: nat, taken: set<nat>)
    requires Sensible(q) && r < |q.cfg.rescuers| && n <= |TwinsOf(q, r)|
    ensures var b := BestOf(q, r, n, taken);
            && (b == None <==> forall j :: 0 <= j < n ==> !Eligible(q, TwinsOf(q, r)[j], taken))
            && (b.Some? ==> b.value in TwinsOf(q, r)[..n] && Eligible(q, b.value, taken))
            && (b.Some? ==>
                  forall j :: 0 <= j < n && Eligible(q, TwinsOf(q, r)[j], taken) && TwinsOf(q, r)[j] != b.value ==>
                    Precedes(q, b.value, TwinsOf(q, r)[j]))
  {
    hide Sensible, Available, CompareTwins, GradeOf, Better, Eta, WorkLevel;
    if n == 0 {
    } else {
      var ts := TwinsOf(q, r);
      var b, i := BestOf(q, r, n - 1, taken), ts[n - 1];
      BestOfPrecedes(q, r, n - 1, taken);
      assert ts[..n] == ts[..n - 1] + [i];
      if Eligible(q, i, taken) && b.Some? {
        ComparisonIsByGrade(q, b.value, i);
        if CompareTwins(q, b.value, i) < 0 {
          forall j | 0 <= j < n - 1 && Eligible(q, ts[j], taken) ensures Precedes(q, i, ts[j]) {
            PrecedenceIsStrictOrder(q, i, b.value, ts[j]);
          }
        }
      }
    }
  }

  // ---------------------------------------------------------------- the k best of one type

  /** The candidates picked for one request: the best, then the best of the others, and so on. */
  function Greedy(q: Quest, r: nat, k: nat, taken: set<nat>): (picks: seq<nat>)
    requires Sensible(q) && r < |q.cfg.rescuers|
    ensures |picks| <= k
    ensures forall j :: 0 <= j < |picks| ==> picks[j] < |q.core.twins|
  {
    if k == 0 then []
    else match Best(q, r, taken)
      case None => []
      case Some(b) => [b] + Greedy(q, r, k - 1, taken + {b})
  }

  ghost function EligibleTwins(q: Quest, r: nat, taken: set<nat>): set<nat>
    requires Sensible(q) && r < |q.cfg.rescuers|
  {
    set i | i in TwinsOf(q, r) && Eligible(q, i, taken)
  }

  lemma BestPrecedes(q: Quest, r: nat, taken: set<nat>)
    requires Sensible(q) && r < |q.cfg.rescuers|
    ensures match Best(q, r, taken)
            case None => EligibleTwins(q, r, taken) == {}
            case Some(b) => b in EligibleTwins(q, r, taken)
                            && EligibleTwins(q, r, taken + {b}) == EligibleTwins(q, r, taken) - {b}
                            && forall u :: u in EligibleTwins(q, r, taken) - {b} ==> Precedes(q, b, u)
  {
    var ts := TwinsOf(q, r);
    BestOfPrecedes(q, r, |ts|, taken);
    assert ts[..|ts|] == ts;
  }

  /** The picks come from the pool in order of precedence, and everyone they leave in it comes after them. */
  ghost predicate Optimal(q: Quest, picks: seq<nat>, pool: set<nat>)
    requires Sensible(q) && forall i :: i in pool ==> i < |q.core.twins|
  {
    && (forall j :: 0 <= j < |picks| ==> picks[j] in pool)
    && (forall i, j :: 0 <= i < j < |picks| ==> Precedes(q, picks[i], picks[j]))
    && (forall j, u :: 0 <= j < |picks| && u in pool && u !in picks ==> Precedes(q, picks[j], u))
  }

  lemma OptimalCons(q: Quest, b: nat, rest: seq<nat>, pool: set<nat>)
    requires Sensible(q) && (forall i :: i in pool ==> i < |q.core.twins|)
    requires b in pool && Optimal(q, rest, pool - {b})
    requires forall u :: u in pool - {b} ==> Precedes(q, b, u)
    ensures Optimal(q, [b] + rest, pool)
  {
    var picks := [b] + rest;
    forall j, u | 0 <= j < |picks| && u in pool && u !in picks ensures Precedes(q, picks[j], u) {
      assert u in pool - {b} && u !in rest;
    }
  }

  lemma OptimalNone(q: Quest, pool: set<nat>)
    requires Sensible(q) && forall i :: i in pool ==> i < |q.core.twins|
    ensures Optimal(q, [], pool)
  {
  }

  /** Greedy choice is optimal: the picks are eligible, in order of precedence, every
      eligible twin left out comes after every pick, and there are as many picks as
      asked for or as exist. */
  lemma {:induction false} GreedyIsOptimal(q: Quest, r: nat, k: nat, taken: set<nat>)
    requires Sensible(q) && r < |q.cfg.rescuers|
    ensures var picks, pool := Greedy(q, r, k, taken), EligibleTwins(q, r, taken);
            Optimal(q, picks, pool) && |picks| == if k < |pool| then k else |pool|
    decreases k
  {
    hide Sensible, Best, Eligible, Precedes;
    BestPrecedes(q, r, taken);
    if k == 0 || Best(q, r, taken).None? {
      OptimalNone(q, EligibleTwins(q, r, taken));
    } else {
      var b := Best(q, r, taken).value;
      GreedyIsOptimal(q, r, k - 1, taken + {b});
      OptimalCons(q, b, Greedy(q, r, k - 1, taken + {b}), EligibleTwins(q, r, taken));
    }
  }

  lemma GreedyCount(q: Quest, r: nat, k: nat, taken: set<nat>)
    requires Sensible(q) && r < |q.cfg.rescuers|
    ensures var pool := EligibleTwins(q, r, taken);
            |Greedy(q, r, k, taken)| == if k < |pool| then k else |pool|
  {
    GreedyIsOptimal(q, r, k, taken);
  }

  lemma GreedyEligible(q: Quest, r: nat, k: nat, taken: set<nat>)
    requires Sensible(q) && r < |q.cfg.rescuers|
    ensures forall j :: 0 <= j < |Greedy(q, r, k, taken)| ==>
              q.core.twins[Greedy(q, r, k, taken)[j]].rtype == r && Eligible(q, Greedy(q, r, k, taken)[j], taken)
  {
    GreedyIsOptimal(q, r, k, taken);
  }

  /** No twin is picked twice. */
  lemma PicksDistinct(q: Quest, r: nat, k: nat, taken: set<nat>)
    requires Sensible(q) && r < |q.cfg.rescuers|
    ensures var picks := Greedy(q, r, k, taken);
            forall i, j :: 0 <= i < j < |picks| ==> picks[i] != picks[j]
  {
    GreedyIsOptimal(q, r, k, taken);
    forall i, j | 0 <= i < j < |Greedy(q, r, k, taken)|
      ensures Greedy(q, r, k, taken)[i] != Greedy(q, r, k, taken)[j]
    {
      PrecedenceIsStrictOrder(q, Greedy(q, r, k, taken)[i], Greedy(q, r, k, taken)[j], 0);
    }
  }

  // ---------------------------------------------------------------- the search

  function Sought(q: Quest): seq<Request>
    requires Sensible(q)
  {
    assert ShapeEmergency(q.cfg, Self(q));
    Requests(q.cfg, Self(q))
  }

  function Missing(q: Quest, k: nat): nat
    requires Sensible(q) && k < |Sought(q)|
  {
    assert ShapeEmergency(q.cfg, Self(q));
    Self(q).missing[k]
  }

  function TypeOf(q: Quest, k: nat): (r: nat)
    requires Sensible(q) && k < |Sought(q)|
    ensures r < |q.cfg.rescuers|
  {
    assert ValidRequests(q.cfg, Sought(q));
    Sought(q)[k].rtype
  }

  function Flagged(cs: seq<nat>): set<nat> {
    set i | i in cs
  }

  /** The candidates once the first n requests are served, or None as soon as one cannot be. */
  function SearchUpTo(q: Quest, n: nat): Option<seq<nat>>
    requires Sensible(q) && n <= |Sought(q)|
  {
    if n == 0 then Some([])
    else match SearchUpTo(q, n - 1)
      case None => None
      case Some(cs) =>
        var picks := Greedy(q, TypeOf(q, n - 1), Missing(q, n - 1), Flagged(cs));
        if |picks| < Missing(q, n - 1) then None else Some(cs + picks)
  }

  function Search(q: Quest): Option<seq<nat>>
    requires Sensible(q)
  {
    SearchUpTo(q, |Sought(q)|)
  }

  /** The best missing-many twins of each requested type, each type on its own. */
  function Wishlist(q: Quest, n: nat): (cs: seq<nat>)
    requires Sensible(q) && n <= |Sought(q)|
    ensures forall j :: 0 <= j < |cs| ==> cs[j] < |q.core.twins|
  {
    if n == 0 then [] else Wishlist(q, n - 1) + Greedy(q, TypeOf(q, n - 1), Missing(q, n - 1), {})
  }

  ghost predicate Feasible(q: Quest, n: nat)
    requires Sensible(q) && n <= |Sought(q)|
  {
    forall k :: 0 <= k < n ==> |EligibleTwins(q, TypeOf(q, k), {})| >= Missing(q, k)
  }

  /** Flags on twins of other types do not change what is picked. */
  lemma {:induction false} BestUnaffected(q: Quest, r: nat, n: nat, taken: set<nat>, other: set<nat>)
    requires Sensible(q) && r < |q.cfg.rescuers| && n <= |TwinsOf(q, r)|
    requires forall i :: i in other && i < |q.core.twins| ==> q.core.twins[i].rtype != r
    ensures BestOf(q, r, n, taken + other) == BestOf(q, r, n, taken)
  {
    if n == 0 {
    } else {
      BestUnaffected(q, r, n - 1, taken, other);
    }
  }

  lemma {:induction false} GreedyUnaffected(q: Quest, r: nat, k: nat, taken: set<nat>, other: set<nat>)
    requires Sensible(q) && r < |q.cfg.rescuers|
    requires forall i :: i in other && i < |q.core.twins| ==> q.core.twins[i].rtype != r
    ensures Greedy(q, r, k, taken + other) == Greedy(q, r, k, taken)
    decreases k
  {
    BestUnaffected(q, r, |TwinsOf(q, r)|, taken, other);
    if k == 0 || Best(q, r, taken).None? {
    } else {
      var b := Best(q, r, taken).value;
      assert taken + other + {b} == (taken + {b}) + other;
      GreedyUnaffected(q, r, k - 1, taken + {b}, other);
    }
  }

  lemma TypesDiffer(q: Quest, k: nat, m: nat)
    requires Sensible(q) && k < |Sought(q)| && m < |Sought(q)| && k != m
    ensures TypeOf(q, k) != TypeOf(q, m)
  {
    assert ValidRequests(q.cfg, Sought(q));
  }

  /** Every candidate of the first n requests is of one of their types. */
  lemma {:induction false} WishlistTypes(q: Quest, n: nat, m: nat)
    requires Sensible(q) && n <= m < |Sought(q)|
    ensures forall j :: 0 <= j < |Wishlist(q, n)| ==> q.core.twins[Wishlist(q, n)[j]].rtype != TypeOf(q, m)
  {
    if n == 0 {
    } else {
      WishlistTypes(q, n - 1, m);
      GreedyEligible(q, TypeOf(q, n - 1), Missing(q, n - 1), {});
      TypesDiffer(q, n - 1, m);
    }
  }

  /** After the earlier requests, a request picks what it would pick alone. */
  lemma PicksAlone(q: Quest, n: nat)
    requires Sensible(q) && n < |Sought(q)|
    ensures Greedy(q, TypeOf(q, n), Missing(q, n), Flagged(Wishlist(q, n))) ==
            Greedy(q, TypeOf(q, n), Missing(q, n), {})
  {
    var other := Flagged(Wishlist(q, n));
    WishlistTypes(q, n, n);
    GreedyUnaffected(q, TypeOf(q, n), Missing(q, n), {}, other);
    assert {} + other == other;
  }

  lemma FeasibleStep(q: Quest, n: nat)
    requires Sensible(q) && n < |Sought(q)|
    ensures Feasible(q, n + 1) <==>
            Feasible(q, n) && |Greedy(q, TypeOf(q, n), Missing(q, n), {})| == Missing(q, n)
  {
    hide Sensible;
    GreedyCount(q, TypeOf(q, n), Missing(q, n), {});
  }

  /** The search succeeds exactly when every requested type has enough eligible twins,
      and then its candidates are the wish list. */
  lemma {:induction false} SearchIsComplete(q: Quest, n: nat)
    requires Sensible(q) && n <= |Sought(q)|
    ensures SearchUpTo(q, n) == if Feasible(q, n) then Some(Wishlist(q, n)) else None
  {
    hide Sensible, Greedy, TypeOf, Missing;
    if n == 0 {
      assert Feasible(q, n);
    } else {
      hide Feasible;
      SearchIsComplete(q, n - 1);
      FeasibleStep(q, n - 1);
      PicksAlone(q, n - 1);
    }
  }

  // ---------------------------------------------------------------- what the candidates are

  /** How many of the candidates are of rescuer type r. */
  function OfType(twins: seq<Twin>, cs: seq<nat>, r: nat): nat
    requires forall j :: 0 <= j < |cs| ==> cs[j] < |twins|
  {
    if cs == [] then 0
    else OfType(twins, cs[1..], r) + if twins[cs[0]].rtype == r then 1 else 0
  }

  lemma {:induction false} OfTypeAppend(twins: seq<Twin>, a: seq<nat>, b: seq<nat>, r: nat)
    requires forall j :: 0 <= j < |a| ==> a[j] < |twins|
    requires forall j :: 0 <= j < |b| ==> b[j] < |twins|
    ensures OfType(twins, a + b, r) == OfType(twins, a, r) + OfType(twins, b, r)
  {
    if a == [] {
      assert a + b == b;
    } else {
      assert (a + b)[1..] == a[1..] + b;
      OfTypeAppend(twins, a[1..], b, r);
    }
  }

  lemma {:induction false} OfTypeUniform(twins: seq<Twin>, cs: seq<nat>, s: nat, r: nat)
    requires forall j :: 0 <= j < |cs| ==> cs[j] < |twins| && twins[cs[j]].rtype == s
    ensures OfType(twins, cs, r) == if s == r then |cs| else 0
  {
    if cs == [] {
    } else {
      OfTypeUniform(twins, cs[1..], s, r);
    }
  }

  /** What preemption and dispatch may rely on. */
  ghost predicate Fit(q: Quest, cs: seq<nat>)
    requires Sensible(q)
  {
    && (forall j :: 0 <= j < |cs| ==> cs[j] < |q.core.twins| && Eligible(q, cs[j], {})
                                      && RequestOf(Sought(q), q.core.twins[cs[j]].rtype) < |Sought(q)|)
    && (forall i, j :: 0 <= i < j < |cs| ==> cs[i] != cs[j])
  }

  lemma PicksFit(q: Quest, n: nat)
    requires Sensible(q) && n < |Sought(q)|
    ensures Fit(q, Greedy(q, TypeOf(q, n), Missing(q, n), {}))
  {
    GreedyEligible(q, TypeOf(q, n), Missing(q, n), {});
    PicksDistinct(q, TypeOf(q, n), Missing(q, n), {});
    RequestExists(Sought(q), n);
  }

  lemma {:induction false} RequestExists(requests: seq<Request>, n: nat)
    requires n < |requests|
    ensures RequestOf(requests, requests[n].rtype) < |requests|
  {
  }

  lemma FitAppend(q: Quest, a: seq<nat>, b: seq<nat>, r: nat)
    requires Sensible(q) && Fit(q, a) && Fit(q, b)
    requires forall j :: 0 <= j < |a| ==> q.core.twins[a[j]].rtype != r
    requires forall j :: 0 <= j < |b| ==> q.core.twins[b[j]].rtype == r
    ensures Fit(q, a + b)
  {
  }

  lemma {:induction false} WishlistFit(q: Quest, n: nat)
    requires Sensible(q) && n <= |Sought(q)|
    ensures Fit(q, Wishlist(q, n))
  {
    hide Sensible;
    if n == 0 {
      assert Fit(q, []);
    } else {
      hide Fit, Eligible, Greedy;
      var r, m := TypeOf(q, n - 1), Missing(q, n - 1);
      WishlistFit(q, n - 1);
      PicksFit(q, n - 1);
      WishlistTypes(q, n - 1, n - 1);
      GreedyEligible(q, r, m, {});
      FitAppend(q, Wishlist(q, n - 1), Greedy(q, r, m, {}), r);
    }
  }

  /** A feasible request contributes its missing count to its own type only. */
  lemma PicksCount(q: Quest, n: nat, k: nat)
    requires Sensible(q) && n < |Sought(q)| && k < |Sought(q)| && Feasible(q, n + 1)
    ensures OfType(q.core.twins, Greedy(q, TypeOf(q, n), Missing(q, n), {}), TypeOf(q, k)) ==
            if k == n then Missing(q, k) else 0
  {
    var r, m := TypeOf(q, n), Missing(q, n);
    GreedyCount(q, r, m, {});
    GreedyEligible(q, r, m, {});
    OfTypeUniform(q.core.twins, Greedy(q, r, m, {}), r, TypeOf(q, k));
    if k != n {
      TypesDiffer(q, k, n);
    }
  }

  lemma {:induction false} WishlistCounts(q: Quest, n: nat, k: nat)
    requires Sensible(q) && n <= |Sought(q)| && k < |Sought(q)| && Feasible(q, n)
    ensures OfType(q.core.twins, Wishlist(q, n), TypeOf(q, k)) == if k < n then Missing(q, k) else 0
  {
    hide Sensible, Greedy, EligibleTwins, TypeOf, Missing;
    if n == 0 {
    } else {
      WishlistCounts(q, n - 1, k);
      PicksCount(q, n - 1, k);
      OfTypeAppend(q.core.twins, Wishlist(q, n - 1), Greedy(q, TypeOf(q, n - 1), Missing(q, n - 1), {}), TypeOf(q, k));
    }
  }

  lemma {:induction false} WishlistSize(q: Quest, n: nat)
    requires Sensible(q) && n <= |Sought(q)| && Feasible(q, n)
    requires |Self(q).missing| == |Sought(q)|
    ensures |Wishlist(q, n)| == Sum(Self(q).missing[..n])
  {
    if n == 0 {
    } else {
      WishlistSize(q, n - 1);
      GreedyCount(q, TypeOf(q, n - 1), Missing(q, n - 1), {});
      assert Self(q).missing[..n][..n - 1] == Self(q).missing[..n - 1];
    }
  }

  /** A successful search: distinct twins, each idle or working for a lower level, exactly
      as many of each type as are missing. */
  lemma SearchFinds(q: Quest)
    requires Sensible(q)
    ensures Search(q).Some? <==> Feasible(q, |Sought(q)|)
    ensures Search(q).Some? ==>
              && Fit(q, Search(q).value)
              && |Search(q).value| == Sum(Self(q).missing)
              && (forall k :: 0 <= k < |Sought(q)| ==>
                    OfType(q.core.twins, Search(q).value, TypeOf(q, k)) == Missing(q, k))
              && (forall j :: 0 <= j < |Search(q).value| ==>
                    var i := Search(q).value[j];
                    q.core.twins[i].status == Idle
                    || (OnDuty(q.core.twins[i]) && WorkLevel(q, i) < LevelOf(q.cfg, Self(q))))
  {
    var n := |Sought(q)|;
    assert ShapeEmergency(q.cfg, Self(q));
    SearchIsComplete(q, n);
    if Feasible(q, n) {
      WishlistFit(q, n);
      WishlistSize(q, n);
      assert Self(q).missing[..n] == Self(q).missing;
      forall k | 0 <= k < n ensures OfType(q.core.twins, Search(q).value, TypeOf(q, k)) == Missing(q, k) {
        WishlistCounts(q, n, k);
      }
      forall j | 0 <= j < |Search(q).value|
        ensures var i := Search(q).value[j];
                q.core.twins[i].status == Idle
                || (OnDuty(q.core.twins[i]) && WorkLevel(q, i) < LevelOf(q.cfg, Self(q)))
      {
        assert ShapeTwin(q.cfg, q.core, q.core.twins[Search(q).value[j]]);
      }
    }
  }
}
