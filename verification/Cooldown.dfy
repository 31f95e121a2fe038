// The cooldown walk: take the first eligible point, skip the points too close behind it,
// and so on. It sees only bar positions and verdicts.
module Cooldown {
  import opened Prelude

  // What a point outside any cooldown comes to.
  datatype Verdict = Silent | WrongRegime | Unlabelable | Enter

  datatype Course = Course(idx: seq<nat>, verdicts: seq<Verdict>, gap: nat)

  // Points name distinct bars, in order.
  ghost predicate ValidCourse(c: Course) {
    && |c.idx| == |c.verdicts|
    && forall i, j :: 0 <= i < j < |c.idx| ==> c.idx[i] < c.idx[j]
  }

  // How far a walk has come: the points entered, and how every other point was passed over.
  datatype Walk = Walk(taken: seq<nat>, silent: nat, regime: nat, unlabelable: nat, cooled: nat)

  function Points(w: Walk): nat {
    |w.taken| + w.silent + w.regime + w.unlabelable + w.cooled
  }

  const START := Walk([], 0, 0, 0, 0)

  predicate Cooling(c: Course, taken: seq<nat>, i: nat)
    requires i < |c.idx|
  {
    taken != [] && taken[|taken| - 1] < |c.idx| && c.idx[i] <= c.idx[taken[|taken| - 1]] + c.gap
  }

  function Step(c: Course, w: Walk, i: nat): Walk
    requires i < |c.idx| == |c.verdicts|
  {
    if Cooling(c, w.taken, i) then w.(cooled := w.cooled + 1)
    else
      match c.verdicts[i]
      case Silent => w.(silent := w.silent + 1)
      case WrongRegime => w.(regime := w.regime + 1)
      case Unlabelable => w.(unlabelable := w.unlabelable + 1)
      case Enter => w.(taken := w.taken + [i])
  }

  function WalkOver(c: Course, k: nat): Walk
    requires k <= |c.idx| == |c.verdicts|
  {
    if k == 0 then START else Step(c, WalkOver(c, k - 1), k - 1)
  }

  // The walk's entries: eligible, all before k.
  ghost predicate Entered(c: Course, taken: seq<nat>, k: nat)
    requires |c.idx| == |c.verdicts|
  {
    forall a :: 0 <= a < |taken| ==> taken[a] < k && taken[a] < |c.idx| && c.verdicts[taken[a]] == Enter
  }

  // Each entry lies more than the gap past the one before it.
  ghost predicate Spaced(c: Course, taken: seq<nat>) {
    taken == [] ||
    (var n := |taken| - 1;
     && taken[n] < |c.idx|
     && (n > 0 ==> taken[n - 1] < |c.idx| && c.idx[taken[n - 1]] + c.gap < c.idx[taken[n]])
     && Spaced(c, taken[..n]))
  }

  lemma EnteredExtend(c: Course, taken: seq<nat>, i: nat)
    requires i < |c.idx| == |c.verdicts| && Entered(c, taken, i)
    ensures Entered(c, taken, i + 1)
    ensures c.verdicts[i] == Enter ==> Entered(c, taken + [i], i + 1)
  {
  }

  lemma {:induction false} WalkEnters(c: Course, k: nat)
    requires k <= |c.idx| == |c.verdicts|
    ensures Entered(c, WalkOver(c, k).taken, k)
    decreases k
  {
    WalkStarts(c);
    hide Step, Entered, WalkOver, Cooling;
    if k > 0 {
      WalkEnters(c, k - 1);
      EnteredExtend(c, WalkOver(c, k - 1).taken, k - 1);
      WalkStep(c, k);
    }
  }

  // Every point is accounted for by exactly one outcome.
  lemma {:induction false} EveryPointCounted(c: Course, k: nat)
    requires k <= |c.idx| == |c.verdicts|
    ensures Points(WalkOver(c, k)) == k
    decreases k
  {
    if k == 0 {
      return;
    }
    EveryPointCounted(c, k - 1);
    WalkStep(c, k);
  }

  lemma WalkStarts(c: Course)
    requires |c.idx| == |c.verdicts|
    ensures WalkOver(c, 0) == START
    ensures Entered(c, [], 0) && Spaced(c, [])
  {
  }

  lemma WalkStep(c: Course, k: nat)
    requires 0 < k <= |c.idx| == |c.verdicts|
    ensures Points(WalkOver(c, k)) == Points(WalkOver(c, k - 1)) + 1
    ensures var before := WalkOver(c, k - 1).taken;
            WalkOver(c, k).taken
            == if Cooling(c, before, k - 1) || c.verdicts[k - 1] != Enter then before else before + [k - 1]
  {
  }

  lemma {:induction false} WalkSpaced(c: Course, k: nat)
    requires k <= |c.idx| == |c.verdicts|
    ensures Spaced(c, WalkOver(c, k).taken)
    decreases k
  {
    if k == 0 {
      WalkStarts(c);
    } else {
      WalkUnfolds(c, k);
      hide Step, WalkOver, Spaced;
      WalkSpaced(c, k - 1);
      SpacedStep(c, WalkOver(c, k - 1), k - 1);
    }
  }

  // And so more than the gap past every earlier one.
  lemma {:induction false} SpacedAt(c: Course, taken: seq<nat>, a: nat, b: nat)
    requires Spaced(c, taken) && a <= b < |taken|
    ensures taken[a] < |c.idx| && taken[b] < |c.idx|
    ensures a < b ==> c.idx[taken[a]] + c.gap < c.idx[taken[b]]
  {
    var n := |taken| - 1;
    if b < n {
      SpacedAt(c, taken[..n], a, b);
    } else if a < n {
      SpacedAt(c, taken[..n], a, n - 1);
    }
  }

  lemma SpacedStep(c: Course, w: Walk, i: nat)
    requires Spaced(c, w.taken) && i < |c.idx| == |c.verdicts|
    ensures Spaced(c, Step(c, w, i).taken)
  {
    assert (w.taken + [i])[..|w.taken|] == w.taken;
  }

  // i is taken, or sits in the cooldown behind a taken point.
  ghost predicate CoveredBy(c: Course, t: nat, i: nat) {
    t <= i < |c.idx| && c.idx[i] <= c.idx[t] + c.gap
  }

  lemma CoolingCovers(c: Course, taken: seq<nat>, i: nat)
    requires i < |c.idx| == |c.verdicts| && Entered(c, taken, i) && Cooling(c, taken, i)
    ensures taken != [] && CoveredBy(c, taken[|taken| - 1], i)
  {
  }

  // Every eligible point is taken or cooling down behind a taken one.
  lemma {:induction false} WalkCovers(c: Course, k: nat, i: nat) returns (a: nat)
    requires i < k <= |c.idx| == |c.verdicts| && c.verdicts[i] == Enter
    ensures a < |WalkOver(c, k).taken| && CoveredBy(c, WalkOver(c, k).taken[a], i)
  {
    hide WalkOver;
    var before, after := WalkOver(c, k - 1).taken, WalkOver(c, k).taken;
    if i < k - 1 {
      a := WalkCovers(c, k - 1, i);
      assert a < |after| && after[a] == before[a] by {
        WalkStep(c, k);
      }
    } else if Cooling(c, before, i) {
      a := |before| - 1;
      assert after == before by {
        WalkStep(c, k);
      }
      assert CoveredBy(c, before[a], i) by {
        WalkEnters(c, k - 1);
        CoolingCovers(c, before, i);
      }
    } else {
      a := |before|;
      assert a < |after| && after[a] == i by {
        WalkStep(c, k);
      }
    }
  }

  // A rival choice of eligible points, equally spaced.
  ghost predicate Rival(c: Course, chosen: seq<nat>)
    requires |c.idx| == |c.verdicts|
  {
    Entered(c, chosen, |c.idx|) && Spaced(c, chosen)
  }

  // taken's m-th entry exists and is no later than chosen's m-th.
  ghost predicate AheadAt(c: Course, taken: seq<nat>, chosen: seq<nat>, m: nat) {
    && m < |taken| && m < |chosen| && taken[m] < |c.idx| && chosen[m] < |c.idx|
    && c.idx[taken[m]] <= c.idx[chosen[m]]
  }

  lemma AheadStep(c: Course, taken: seq<nat>, chosen: seq<nat>, m: nat, a: nat)
    requires ValidCourse(c) && Spaced(c, taken) && Spaced(c, chosen) && m < |chosen| && chosen[m] < |c.idx|
    requires a < |taken| && CoveredBy(c, taken[a], chosen[m])
    requires m > 0 ==> AheadAt(c, taken, chosen, m - 1)
    ensures AheadAt(c, taken, chosen, m)
  {
    if m > 0 {
      BehindTheLead(c, taken, chosen, m, a);
    }
    NoLaterThanCover(c, taken, m, a, chosen[m]);
  }

  // Greedy stays ahead of every rival, entry by entry.
  lemma {:induction false} GreedyStaysAhead(c: Course, taken: seq<nat>, chosen: seq<nat>, m: nat)
    requires ValidCourse(c) && Rival(c, chosen) && m < |chosen|
    requires taken == WalkOver(c, |c.idx|).taken && Spaced(c, taken)
    ensures AheadAt(c, taken, chosen, m)
    decreases m
  {
    hide Spaced, WalkOver, AheadAt, Rival;
    if m > 0 {
      GreedyStaysAhead(c, taken, chosen, m - 1);
    }
    StaysAheadOnce(c, taken, chosen, m);
  }

  lemma StaysAheadOnce(c: Course, taken: seq<nat>, chosen: seq<nat>, m: nat)
    requires ValidCourse(c) && Rival(c, chosen) && m < |chosen|
    requires taken == WalkOver(c, |c.idx|).taken && Spaced(c, taken)
    requires m > 0 ==> AheadAt(c, taken, chosen, m - 1)
    ensures AheadAt(c, taken, chosen, m)
  {
    assert chosen[m] < |c.idx| && c.verdicts[chosen[m]] == Enter;
    hide ValidCourse, Spaced, WalkOver, AheadAt, Entered;
    var a := WalkCovers(c, |c.idx|, chosen[m]);
    AheadStep(c, taken, chosen, m, a);
  }

  lemma NoLaterThanCover(c: Course, taken: seq<nat>, m: nat, a: nat, i: nat)
    requires ValidCourse(c) && Spaced(c, taken) && m <= a < |taken| && CoveredBy(c, taken[a], i)
    ensures taken[m] < |c.idx| && c.idx[taken[m]] <= c.idx[i]
  {
    SpacedAt(c, taken, m, a);
    assert taken[a] < i ==> c.idx[taken[a]] < c.idx[i];
  }

  // A taken point within the gap of a rival's m-th lies past the walk's (m-1)-th.
  lemma BehindTheLead(c: Course, taken: seq<nat>, chosen: seq<nat>, m: nat, a: nat)
    requires Spaced(c, taken) && Spaced(c, chosen) && 0 < m < |chosen| && m - 1 < |taken|
    requires taken[m - 1] < |c.idx| && chosen[m - 1] < |c.idx| && chosen[m] < |c.idx|
    requires c.idx[taken[m - 1]] <= c.idx[chosen[m - 1]]
    requires a < |taken| && CoveredBy(c, taken[a], chosen[m])
    ensures a >= m
  {
    SpacedAt(c, chosen, m - 1, m);
    if a < m {
      SpacedAt(c, taken, a, m - 1);
    }
  }

  // No spacing-respecting set of eligible points is larger than the one the walk takes.
  lemma GreedyIsOptimal(c: Course, chosen: seq<nat>)
    requires ValidCourse(c) && Rival(c, chosen)
    ensures Rival(c, WalkOver(c, |c.idx|).taken)
    ensures |chosen| <= |WalkOver(c, |c.idx|).taken|
  {
    WalkEnters(c, |c.idx|);
    WalkSpaced(c, |c.idx|);
    if chosen != [] {
      GreedyStaysAhead(c, WalkOver(c, |c.idx|).taken, chosen, |chosen| - 1);
    }
  }

  // The courses share their first k points.
  ghost predicate AlikeUpTo(a: Course, b: Course, k: nat) {
    && |a.idx| == |a.verdicts| && |b.idx| == |b.verdicts| && k <= |a.idx| && k <= |b.idx| && a.gap == b.gap
    && forall i :: 0 <= i < k ==> a.idx[i] == b.idx[i] && a.verdicts[i] == b.verdicts[i]
  }

  // The walk over the first k points sees nothing of the later ones.
  lemma {:induction false} WalkLocal(a: Course, b: Course, k: nat)
    requires AlikeUpTo(a, b, k)
    ensures WalkOver(a, k) == WalkOver(b, k)
    decreases k
  {
    if k > 0 {
      AlikeShorter(a, b, k);
      WalkLocal(a, b, k - 1);
      WalkStepLocal(a, b, k);
      NextAlike(a, b, k, WalkOver(a, k - 1));
    }
  }

  lemma WalkStepLocal(a: Course, b: Course, k: nat)
    requires 0 < k && AlikeUpTo(a, b, k)
    ensures Step(a, WalkOver(a, k - 1), k - 1) == Step(b, WalkOver(a, k - 1), k - 1)
  {
    hide Step, WalkOver;
    WalkEnters(a, k - 1);
    StepLocal(a, b, WalkOver(a, k - 1), k - 1);
  }

  lemma NextAlike(a: Course, b: Course, k: nat, w: Walk)
    requires 0 < k <= |a.idx| == |a.verdicts| && k <= |b.idx| == |b.verdicts|
    requires WalkOver(a, k - 1) == w == WalkOver(b, k - 1) && Step(a, w, k - 1) == Step(b, w, k - 1)
    ensures WalkOver(a, k) == WalkOver(b, k)
  {
    hide Step;
  }

  lemma AlikeShorter(a: Course, b: Course, k: nat)
    requires 0 < k && AlikeUpTo(a, b, k)
    ensures AlikeUpTo(a, b, k - 1) && k <= |a.idx| == |a.verdicts| && k <= |b.idx| == |b.verdicts|
  {
  }

  lemma WalkUnfolds(c: Course, k: nat)
    requires 0 < k <= |c.idx| == |c.verdicts|
    ensures WalkOver(c, k) == Step(c, WalkOver(c, k - 1), k - 1)
  {
  }

  lemma StepLocal(a: Course, b: Course, w: Walk, i: nat)
    requires AlikeUpTo(a, b, i + 1) && Entered(a, w.taken, i)
    ensures Step(a, w, i) == Step(b, w, i)
  {
    if w.taken != [] {
      var t := w.taken[|w.taken| - 1];
      assert a.idx[t] == b.idx[t];
    }
  }

  // Walking on only appends later points.
  ghost predicate Continues(early: seq<nat>, late: seq<nat>, m: nat) {
    early <= late && forall a :: |early| <= a < |late| ==> m <= late[a]
  }

  lemma {:induction false} WalkExtends(c: Course, m: nat, k: nat)
    requires m <= k <= |c.idx| == |c.verdicts|
    ensures Continues(WalkOver(c, m).taken, WalkOver(c, k).taken, m)
  {
    hide Step, WalkOver, Cooling;
    if m < k {
      WalkExtends(c, m, k - 1);
      WalkStep(c, k);
    }
  }

  // ---- resuming a walk ---------------------------------------------------------------

  // The entries a walk makes among the j points from m on, as offsets from m, when it arrives
  // with the given entries behind it.
  function Resumed(c: Course, before: seq<nat>, m: nat, j: nat): (r: seq<nat>)
    requires m + j <= |c.idx| == |c.verdicts|
    ensures forall t :: 0 <= t < |r| ==> r[t] < j
  {
    if j == 0 then []
    else
      var made := Resumed(c, before, m, j - 1);
      if Held(c, before, m, made, j - 1) || c.verdicts[m + j - 1] != Enter then made else made + [j - 1]
  }

  // Whether the point at the offset is held back, by the last entry made or else the one brought.
  predicate Held(c: Course, before: seq<nat>, m: nat, made: seq<nat>, i: nat)
    requires m + i < |c.idx|
  {
    if made == [] then Cooling(c, before, m + i)
    else m + made[|made| - 1] < |c.idx| && c.idx[m + i] <= c.idx[m + made[|made| - 1]] + c.gap
  }

  function From(m: nat, offsets: seq<nat>): (r: seq<nat>)
    ensures |r| == |offsets| && forall t :: 0 <= t < |r| ==> r[t] == m + offsets[t]
  {
    seq(|offsets|, t requires 0 <= t < |offsets| => m + offsets[t])
  }

  lemma StepTaken(c: Course, w: Walk, i: nat)
    requires i < |c.idx| == |c.verdicts|
    ensures Step(c, w, i).taken == if Cooling(c, w.taken, i) || c.verdicts[i] != Enter then w.taken else w.taken + [i]
  {
  }

  // Walking on is resuming from where the walk stands.
  lemma {:induction false} WalkResumes(c: Course, m: nat, j: nat)
    requires m + j <= |c.idx| == |c.verdicts|
    ensures WalkOver(c, m + j).taken == WalkOver(c, m).taken + From(m, Resumed(c, WalkOver(c, m).taken, m, j))
    decreases j
  {
    hide WalkOver;
    var before := WalkOver(c, m).taken;
    if j == 0 {
      assert before + From(m, []) == before;
    } else {
      WalkResumes(c, m, j - 1);
      WalkUnfolds(c, m + j);
      ResumeStep(c, before, m, j, WalkOver(c, m + j - 1));
    }
  }

  lemma ResumeStep(c: Course, before: seq<nat>, m: nat, j: nat, w: Walk)
    requires 0 < j && m + j <= |c.idx| == |c.verdicts|
    requires w.taken == before + From(m, Resumed(c, before, m, j - 1))
    ensures Step(c, w, m + j - 1).taken == before + From(m, Resumed(c, before, m, j))
  {
    hide Resumed, Step, From, Held, Cooling;
    var made := Resumed(c, before, m, j - 1);
    ResumedUnfolds(c, before, m, j);
    StepTaken(c, w, m + j - 1);
    HeldIsCooling(c, before, m, made, j - 1);
    FromSnoc(before, m, made, j - 1);
  }

  lemma FromSnoc(before: seq<nat>, m: nat, made: seq<nat>, i: nat)
    ensures before + From(m, made + [i]) == before + From(m, made) + [m + i]
  {
    assert From(m, made + [i]) == From(m, made) + [m + i];
  }

  lemma HeldIsCooling(c: Course, before: seq<nat>, m: nat, made: seq<nat>, i: nat)
    requires m + i < |c.idx|
    ensures Held(c, before, m, made, i) == Cooling(c, before + From(m, made), m + i)
  {
    if made == [] {
      assert before + From(m, made) == before;
    }
  }

  lemma ResumedUnfolds(c: Course, before: seq<nat>, m: nat, j: nat)
    requires 0 < j && m + j <= |c.idx| == |c.verdicts|
    ensures var made := Resumed(c, before, m, j - 1);
            Resumed(c, before, m, j) == if Held(c, before, m, made, j - 1) || c.verdicts[m + j - 1] != Enter then made
                                        else made + [j - 1]
  {
  }

  // The two courses are alike from m and n on.
  ghost predicate ShareTail(a: Course, b: Course, m: nat, n: nat) {
    && ValidCourse(a) && ValidCourse(b) && a.gap == b.gap
    && m <= |a.idx| && n <= |b.idx| && |a.idx| - m == |b.idx| - n
    && forall i :: 0 <= i < |a.idx| - m ==> TailAt(a, b, m, n, i)
  }

  ghost predicate TailAt(a: Course, b: Course, m: nat, n: nat, i: nat) {
    && m + i < |a.idx| == |a.verdicts| && n + i < |b.idx| == |b.verdicts|
    && a.idx[m + i] == b.idx[n + i] && a.verdicts[m + i] == b.verdicts[n + i]
  }

  lemma ShareTailSymmetric(a: Course, b: Course, m: nat, n: nat)
    requires ShareTail(a, b, m, n)
    ensures ShareTail(b, a, n, m)
  {
    hide ValidCourse;
    forall i: nat | i < |b.idx| - n ensures TailAt(b, a, n, m, i) {
      assert TailAt(a, b, m, n, i);
    }
  }

  // An eligible point in the cooldown of the last entry brought along on one course but not on
  // the other.
  ghost predicate Contested(a: Course, b: Course, ta: seq<nat>, tb: seq<nat>, m: nat, n: nat, i: nat)
    requires m + i < |a.idx| && n + i < |b.idx| && |a.idx| == |a.verdicts|
  {
    a.verdicts[m + i] == Enter && Cooling(a, ta, m + i) != Cooling(b, tb, n + i)
  }

  // None of the j points past m and n is contested.
  ghost predicate Uncontested(a: Course, b: Course, ta: seq<nat>, tb: seq<nat>, m: nat, n: nat, j: nat)
    requires m + j <= |a.idx| == |a.verdicts| && n + j <= |b.idx|
  {
    forall i :: 0 <= i < j ==> !Contested(a, b, ta, tb, m, n, i)
  }

  lemma {:induction false} UncontestedResume(a: Course, b: Course, ta: seq<nat>, tb: seq<nat>, m: nat, n: nat, j: nat)
    requires ShareTail(a, b, m, n) && m + j <= |a.idx|
    requires Uncontested(a, b, ta, tb, m, n, j)
    ensures Resumed(a, ta, m, j) == Resumed(b, tb, n, j)
    decreases j
  {
    hide Resumed, Held, Cooling, Contested;
    if j == 0 {
      NoneMade(a, ta, m);
      NoneMade(b, tb, n);
    } else {
      UncontestedResume(a, b, ta, tb, m, n, j - 1);
      SharedAt(a, b, m, n, j - 1);
      ResumedUnfolds(a, ta, m, j);
      ResumedUnfolds(b, tb, n, j);
      var made := Resumed(a, ta, m, j - 1);
      if made != [] {
        SharedAt(a, b, m, n, made[|made| - 1]);
      }
      hide ShareTail;
      UncontestedStep(a, b, ta, tb, m, n, j - 1, made);
    }
  }

  lemma UncontestedStep(a: Course, b: Course, ta: seq<nat>, tb: seq<nat>, m: nat, n: nat, i: nat, made: seq<nat>)
    requires TailAt(a, b, m, n, i) && a.gap == b.gap && !Contested(a, b, ta, tb, m, n, i)
    requires made != [] ==> TailAt(a, b, m, n, made[|made| - 1])
    ensures Held(a, ta, m, made, i) || a.verdicts[m + i] != Enter
       <==> Held(b, tb, n, made, i) || b.verdicts[n + i] != Enter
  {
    hide Cooling;
  }

  lemma SharedAt(a: Course, b: Course, m: nat, n: nat, i: nat)
    requires ShareTail(a, b, m, n) && m + i < |a.idx|
    ensures TailAt(a, b, m, n, i)
  {
  }

  // The first entry made is out of the cooldown brought along.
  lemma {:induction false} FirstIsFree(c: Course, before: seq<nat>, m: nat, j: nat)
    requires m + j <= |c.idx| == |c.verdicts| && Resumed(c, before, m, j) != []
    ensures !Cooling(c, before, m + Resumed(c, before, m, j)[0])
    decreases j
  {
    hide Resumed, Cooling;
    NoneMade(c, before, m);
    ResumedUnfolds(c, before, m, j);
    if Resumed(c, before, m, j - 1) != [] {
      FirstIsFree(c, before, m, j - 1);
    }
  }

  lemma NoneMade(c: Course, before: seq<nat>, m: nat)
    requires m <= |c.idx| == |c.verdicts|
    ensures Resumed(c, before, m, 0) == []
  {
  }

  // A point past one that is out of the cooldown is out of it too.
  lemma CoolingFades(c: Course, before: seq<nat>, i: nat, k: nat)
    requires ValidCourse(c) && i <= k < |c.idx| && !Cooling(c, before, i)
    ensures !Cooling(c, before, k)
  {
  }

  // An eligible point outside that cooldown leaves an entry made at it or before it.
  lemma {:induction false} FreeIsEntered(c: Course, before: seq<nat>, m: nat, j: nat, i: nat)
    requires ValidCourse(c) && m + j <= |c.idx| && i < j
    requires c.verdicts[m + i] == Enter && !Cooling(c, before, m + i)
    ensures var r := Resumed(c, before, m, j); r != [] && r[0] <= i
    decreases j
  {
    hide ValidCourse, Cooling;
    if i < j - 1 {
      FreeIsEntered(c, before, m, j - 1, i);
    }
  }

  lemma ContestedDiffers(a: Course, b: Course, ta: seq<nat>, tb: seq<nat>, m: nat, n: nat, j: nat, i: nat)
    requires ShareTail(a, b, m, n) && m + j == |a.idx| && i < j
    requires a.verdicts[m + i] == Enter && n + i < |b.idx| && Cooling(a, ta, m + i) && !Cooling(b, tb, n + i)
    ensures Resumed(a, ta, m, j) != Resumed(b, tb, n, j)
  {
    hide Resumed, Cooling;
    assert TailAt(a, b, m, n, i);
    FreeIsEntered(b, tb, n, j, i);
    if Resumed(a, ta, m, j) == Resumed(b, tb, n, j) {
      var f := Resumed(a, ta, m, j)[0];
      FirstIsFree(a, ta, m, j);
      CoolingFades(a, ta, m + f, m + i);
    }
  }

  // Walks over courses alike from a point on make the same entries there exactly when no eligible
  // point is contested between the entries they bring along.
  lemma ResumeSameIff(a: Course, b: Course, ta: seq<nat>, tb: seq<nat>, m: nat, n: nat, j: nat)
    requires ShareTail(a, b, m, n) && m + j == |a.idx|
    ensures Resumed(a, ta, m, j) == Resumed(b, tb, n, j) <==> Uncontested(a, b, ta, tb, m, n, j)
  {
    hide Resumed, Cooling;
    if Uncontested(a, b, ta, tb, m, n, j) {
      UncontestedResume(a, b, ta, tb, m, n, j);
    } else {
      var i: nat :| i < j && Contested(a, b, ta, tb, m, n, i);
      assert TailAt(a, b, m, n, i);
      if Cooling(a, ta, m + i) {
        ContestedDiffers(a, b, ta, tb, m, n, j, i);
      } else {
        ShareTailSymmetric(a, b, m, n);
        ContestedDiffers(b, a, tb, ta, n, m, j, i);
      }
    }
  }

  // ---- what each point comes to -----------------------------------------------------------------

  // Some entry made before the point still cools it.
  ghost predicate Cooled(c: Course, taken: seq<nat>, i: nat)
    requires i < |c.idx|
  {
    exists a :: 0 <= a < |taken| && taken[a] < i && c.idx[i] <= c.idx[taken[a]] + c.gap
  }

  // The last entry cools whatever any entry does.
  lemma CoolingIsCooled(c: Course, k: nat)
    requires ValidCourse(c) && k < |c.idx|
    ensures Cooling(c, WalkOver(c, k).taken, k) <==> Cooled(c, WalkOver(c, k).taken, k)
  {
    hide WalkOver;
    var taken := WalkOver(c, k).taken;
    WalkEnters(c, k);
    WalkSpaced(c, k);
    if Cooled(c, taken, k) {
      var a :| 0 <= a < |taken| && taken[a] < k && c.idx[k] <= c.idx[taken[a]] + c.gap;
      SpacedAt(c, taken, a, |taken| - 1);
    }
  }

  // A later entry cools no earlier point.
  lemma CooledEarlier(c: Course, taken: seq<nat>, t: nat, i: nat)
    requires i < t && i < |c.idx|
    ensures Cooled(c, taken + [t], i) <==> Cooled(c, taken, i)
  {
    if Cooled(c, taken, i) {
      var a :| 0 <= a < |taken| && taken[a] < i && c.idx[i] <= c.idx[taken[a]] + c.gap;
      assert (taken + [t])[a] == taken[a];
    }
    if Cooled(c, taken + [t], i) {
      var a :| 0 <= a < |taken + [t]| && (taken + [t])[a] < i && c.idx[i] <= c.idx[(taken + [t])[a]] + c.gap;
      assert a < |taken|;
    }
  }

  lemma CooledStays(c: Course, k: nat, i: nat)
    requires ValidCourse(c) && i < k <= |c.idx|
    ensures Cooled(c, WalkOver(c, k).taken, i) <==> Cooled(c, WalkOver(c, k - 1).taken, i)
  {
    hide WalkOver, Cooled;
    WalkStep(c, k);
    if i < k - 1 {
      CooledEarlier(c, WalkOver(c, k - 1).taken, k - 1, i);
    } else {
      CooledAtEntry(c, WalkOver(c, k - 1).taken, k - 1);
    }
  }

  lemma CooledAtEntry(c: Course, taken: seq<nat>, i: nat)
    requires i < |c.idx|
    ensures Cooled(c, taken + [i], i) <==> Cooled(c, taken, i)
  {
    if Cooled(c, taken, i) {
      var a :| 0 <= a < |taken| && taken[a] < i && c.idx[i] <= c.idx[taken[a]] + c.gap;
      assert (taken + [i])[a] == taken[a];
    }
    if Cooled(c, taken + [i], i) {
      var a :| 0 <= a < |taken + [i]| && (taken + [i])[a] < i && c.idx[i] <= c.idx[(taken + [i])[a]] + c.gap;
      assert a < |taken|;
    }
  }

  // A point is entered exactly when it is eligible and no earlier entry cools it.
  lemma {:induction false} TakenIff(c: Course, k: nat, i: nat)
    requires ValidCourse(c) && i < k <= |c.idx|
    ensures i in WalkOver(c, k).taken <==> c.verdicts[i] == Enter && !Cooled(c, WalkOver(c, k).taken, i)
  {
    hide WalkOver, Cooling, Cooled, ValidCourse;
    assert |c.idx| == |c.verdicts| by {
      ValidLengths(c);
    }
    WalkStep(c, k);
    CooledStays(c, k, i);
    if i < k - 1 {
      TakenIff(c, k - 1, i);
    } else {
      CoolingIsCooled(c, i);
      WalkEnters(c, i);
      assert i !in WalkOver(c, i).taken;
    }
  }

  lemma ValidLengths(c: Course)
    requires ValidCourse(c)
    ensures |c.idx| == |c.verdicts|
  {
  }

  // The points before k that no entry cools and that come to the verdict.
  ghost function PassedOver(c: Course, taken: seq<nat>, k: nat, v: Verdict): set<int>
    requires k <= |c.idx| == |c.verdicts|
  {
    set i | 0 <= i < k && c.verdicts[i] == v && !Cooled(c, taken, i)
  }

  ghost function CooledBefore(c: Course, taken: seq<nat>, k: nat): set<int>
    requires k <= |c.idx|
  {
    set i | 0 <= i < k && Cooled(c, taken, i)
  }

  lemma PassedOverGrows(c: Course, k: nat, v: Verdict)
    requires ValidCourse(c) && 0 < k <= |c.idx|
    ensures var taken, before := WalkOver(c, k).taken, WalkOver(c, k - 1).taken;
            && |PassedOver(c, taken, k, v)|
               == |PassedOver(c, before, k - 1, v)|
                  + (if c.verdicts[k - 1] == v && !Cooling(c, before, k - 1) then 1 else 0)
            && |CooledBefore(c, taken, k)|
               == |CooledBefore(c, before, k - 1)| + (if Cooling(c, before, k - 1) then 1 else 0)
  {
    hide WalkOver, Cooling, Cooled;
    var taken, before := WalkOver(c, k).taken, WalkOver(c, k - 1).taken;
    CoolingIsCooled(c, k - 1);
    forall i: nat | i < k ensures Cooled(c, taken, i) <==> Cooled(c, before, i) {
      CooledStays(c, k, i);
    }
    OneMoreIn(PassedOver(c, before, k - 1, v), PassedOver(c, taken, k, v), k - 1);
    OneMoreIn(CooledBefore(c, before, k - 1), CooledBefore(c, taken, k), k - 1);
  }

  lemma OneMoreIn(fewer: set<int>, all: set<int>, n: int)
    requires n !in fewer && fewer == all - {n}
    ensures |all| == |fewer| + (if n in all then 1 else 0)
  {
    if n in all {
      assert all == fewer + {n};
    } else {
      assert all == fewer;
    }
  }

  // Each counter of the walk is the number of points it stands for.
  lemma {:induction false} CountersAre(c: Course, k: nat)
    requires ValidCourse(c) && k <= |c.idx|
    ensures var w := WalkOver(c, k);
            && w.silent == |PassedOver(c, w.taken, k, Silent)|
            && w.regime == |PassedOver(c, w.taken, k, WrongRegime)|
            && w.unlabelable == |PassedOver(c, w.taken, k, Unlabelable)|
            && |w.taken| == |PassedOver(c, w.taken, k, Enter)|
            && w.cooled == |CooledBefore(c, w.taken, k)|
  {
    hide Cooling, PassedOver, CooledBefore;
    if k == 0 {
      NothingPassedOver(c);
    } else {
      CountersAre(c, k - 1);
      PassedOverGrows(c, k, Silent);
      PassedOverGrows(c, k, WrongRegime);
      PassedOverGrows(c, k, Unlabelable);
      PassedOverGrows(c, k, Enter);
    }
  }

  lemma NothingPassedOver(c: Course)
    requires |c.idx| == |c.verdicts|
    ensures forall v :: PassedOver(c, [], 0, v) == {}
    ensures CooledBefore(c, [], 0) == {}
  {
  }
}
