/**
 The count of conflicting readings in the power history: which sets of readings give the same
 count in every order, and which do not.
 */
module PowerConflicts {
  import opened Wrappers
  import opened PowerHistory

  // What the intake sees of a reading, apart from its time.
  datatype Mark = Mark(power: Option<real>, series: Option<string>)

  function MarkOf(o: Observation): Mark { Mark(CleanPower(o), o.series) }

  function Marks(os: seq<Observation>): (r: seq<Mark>)
    ensures |r| == |os| && forall i :: 0 <= i < |r| ==> r[i] == MarkOf(os[i])
  {
    seq(|os|, i requires 0 <= i < |os| => MarkOf(os[i]))
  }

  // The readings of one time, and all the others.
  function Group(os: seq<Observation>, t: int): seq<Observation> {
    if |os| == 0 then []
    else
      var last := os[|os| - 1];
      Group(os[..|os| - 1], t) + if last.at == Some(t) then [last] else []
  }

  function Others(os: seq<Observation>, t: int): seq<Observation> {
    if |os| == 0 then []
    else
      var last := os[|os| - 1];
      Others(os[..|os| - 1], t) + if last.at != Some(t) then [last] else []
  }

  ghost function Conflicts(os: seq<Observation>): nat { TakenIn(os).conflicting }

  ghost predicate SameReadings(a: seq<Observation>, b: seq<Observation>) { multiset(a) == multiset(b) }

  // Every order of the readings gives the same count.
  ghost predicate OrderFree(os: seq<Observation>) {
    forall b :: SameReadings(os, b) ==> Conflicts(b) == Conflicts(os)
  }

  // ---------- one time ----------

  // The power that is held after readings of one time: void as soon as two of them differ.
  function Held(ms: seq<Mark>): Option<real>
    requires |ms| > 0
  {
    if forall i :: 0 <= i < |ms| ==> ms[i] == ms[0] then ms[0].power else None
  }

  function ConflictsOf(ms: seq<Mark>): nat {
    if |ms| <= 1 then 0
    else
      var front, last := ms[..|ms| - 1], ms[|ms| - 1];
      ConflictsOf(front) + if Held(front) != last.power || ms[0].series != last.series then 1 else 0
  }

  function Times(ms: seq<Mark>, x: Mark): nat { multiset(ms)[x] }

  ghost predicate AllEqual(ms: seq<Mark>) { forall x, y :: x in ms && y in ms ==> x == y }

  ghost predicate NoneUsable(ms: seq<Mark>) { forall x :: x in ms ==> x.power.None? }

  ghost predicate EquallyOften(ms: seq<Mark>) { forall x, y :: x in ms && y in ms ==> Times(ms, x) == Times(ms, y) }

  // The unusable reading of the same series.
  function Shadow(x: Mark): Mark { Mark(None, x.series) }

  // One usable reading, all others unusable ones of its series.
  ghost predicate OneAmongShadows(ms: seq<Mark>) { exists x :: x in ms && Lone(ms, x) }

  ghost predicate Lone(ms: seq<Mark>, x: Mark) {
    x.power.Some? && Times(ms, x) == 1 && forall y :: y in ms ==> y == x || y == Shadow(x)
  }

  ghost predicate AllDistinct(ms: seq<Mark>) { forall x :: x in ms ==> Times(ms, x) == 1 }

  ghost predicate NoShadows(ms: seq<Mark>) { forall x :: x in ms && x.power.Some? ==> Shadow(x) !in ms }

  // The condition for one time.
  ghost predicate Settled(ms: seq<Mark>) {
    || AllEqual(ms)
    || |ms| == 2
    || (NoneUsable(ms) && EquallyOften(ms))
    || OneAmongShadows(ms)
    || (AllDistinct(ms) && NoShadows(ms))
  }

  // ---------- counting at one time ----------

  lemma {:induction false} TimesAppend(a: seq<Mark>, b: seq<Mark>, x: Mark)
    ensures Times(a + b, x) == Times(a, x) + Times(b, x)
    ensures Times([x], x) == 1 && forall y :: y != x ==> Times([y], x) == 0
  {
  }

  lemma {:induction false} TimesLast(ms: seq<Mark>, x: Mark)
    requires |ms| > 0
    ensures Times(ms, x) == Times(ms[..|ms| - 1], x) + if ms[|ms| - 1] == x then 1 else 0
  {
    assert ms == ms[..|ms| - 1] + [ms[|ms| - 1]];
    TimesAppend(ms[..|ms| - 1], [ms[|ms| - 1]], x);
  }

  // An unusable first reading: every reading but its equals conflicts.
  lemma {:induction false} UnusableFirst(ms: seq<Mark>)
    requires |ms| > 0 && ms[0].power.None?
    ensures ConflictsOf(ms) == |ms| - Times(ms, ms[0])
  {
    hide Times;
    TimesLast(ms, ms[0]);
    if |ms| > 1 {
      var front := ms[..|ms| - 1];
      UnusableFirst(front);
      assert Held(front).None?;
    } else {
      assert ms[..0] == [];
      NoTimes(ms[0]);
    }
  }

  lemma {:induction false} NoTimes(x: Mark)
    ensures Times([], x) == 0
  {
  }

  // A usable first reading and its equals up to k, then another one: from there on only the
  // unusable readings of its series do not conflict.
  lemma {:induction false} UsableFirst(ms: seq<Mark>, k: nat)
    requires 0 < k < |ms| && ms[0].power.Some? && ms[k] != ms[0] && forall i :: 0 <= i < k ==> ms[i] == ms[0]
    ensures ConflictsOf(ms) == |ms| - k - Times(ms[k + 1..], Shadow(ms[0]))
  {
    hide Times;
    var front, last := ms[..|ms| - 1], ms[|ms| - 1];
    if k == |ms| - 1 {
      assert ms[k + 1..] == [];
      NoTimes(Shadow(ms[0]));
      Run(front);
      assert Held(front) == ms[0].power;
    } else {
      UsableFirst(front, k);
      assert front[k] != front[0];
      assert Held(front).None?;
      var rest := ms[k + 1..];
      TimesLast(rest, Shadow(ms[0]));
      assert rest[..|rest| - 1] == front[k + 1..];
    }
  }

  lemma {:induction false} Run(ms: seq<Mark>)
    requires forall i :: 0 <= i < |ms| ==> ms[i] == ms[0]
    ensures ConflictsOf(ms) == 0
  {
    if |ms| > 1 {
      Run(ms[..|ms| - 1]);
    }
  }

  lemma {:induction false} AllTheSame(ms: seq<Mark>, z: Mark)
    requires forall i :: 0 <= i < |ms| ==> ms[i] == z
    ensures Times(ms, z) == |ms|
  {
    hide Times;
    if |ms| == 0 {
      NoTimes(z);
    } else {
      TimesLast(ms, z);
      AllTheSame(ms[..|ms| - 1], z);
    }
  }

  // What a settled group counts, in terms that do not depend on its order.
  ghost function SettledCount(ms: seq<Mark>): int {
    if AllEqual(ms) then 0
    else if |ms| == 2 || OneAmongShadows(ms) then 1
    else if NoneUsable(ms) then |ms| - Times(ms, ms[0])
    else |ms| - 1
  }

  lemma {:induction false} SettledGroup(ms: seq<Mark>)
    requires Settled(ms)
    ensures ConflictsOf(ms) == SettledCount(ms)
  {
    hide Times;
    assert forall i :: 0 <= i < |ms| ==> ms[i] in ms;
    if AllEqual(ms) {
      Run(ms);
    } else if ms[0].power.None? {
      UnusableFirst(ms);
      SettledUnusableFirst(ms);
    } else {
      SettledUsableFirst(ms);
    }
  }

  lemma {:induction false} SettledUnusableFirst(ms: seq<Mark>)
    requires Settled(ms) && !AllEqual(ms) && ms[0].power.None?
    ensures |ms| - Times(ms, ms[0]) == SettledCount(ms)
  {
    assert ms[0] in ms;
    if OneAmongShadows(ms) {
      var x :| x in ms && Lone(ms, x);
      assert forall i :: 0 <= i < |ms| ==> ms[i] in ms;
      TimesOfTwo(ms, x, Shadow(x));
    } else if |ms| == 2 {
      TwoDiffer(ms);
    }
  }

  lemma {:induction false} TwoDiffer(ms: seq<Mark>)
    requires |ms| == 2 && !AllEqual(ms)
    ensures ms[0] != ms[1] && Times(ms, ms[0]) == 1
  {
    assert ms == [ms[0], ms[1]];
  }

  lemma {:induction false} TimesOfTwo(ms: seq<Mark>, x: Mark, z: Mark)
    requires x != z && forall i :: 0 <= i < |ms| ==> ms[i] == x || ms[i] == z
    ensures Times(ms, x) + Times(ms, z) == |ms|
  {
    hide Times;
    if |ms| == 0 {
      NoTimes(x);
      NoTimes(z);
    } else {
      TimesLast(ms, x);
      TimesLast(ms, z);
      TimesOfTwo(ms[..|ms| - 1], x, z);
    }
  }

  lemma {:induction false} SettledUsableFirst(ms: seq<Mark>)
    requires Settled(ms) && !AllEqual(ms) && ms[0].power.Some?
    ensures ConflictsOf(ms) == SettledCount(ms)
  {
    assert ms[0] in ms;
    if |ms| == 2 {
      UsableFirst(ms, 1);
      assert ms[2..] == [];
    } else {
      SecondDiffers(ms);
      UsableFirst(ms, 1);
      assert ms == [ms[0], ms[1]] + ms[2..];
      assert multiset(ms) == multiset{ms[0], ms[1]} + multiset(ms[2..]);
      if OneAmongShadows(ms) {
        var x :| x in ms && Lone(ms, x);
        assert x == ms[0];
        forall i | 0 <= i < |ms[2..]|
          ensures ms[2..][i] == Shadow(ms[0])
        {
          assert ms[i + 2] in ms && ms[2..][i] in multiset(ms[2..]);
        }
        AllTheSame(ms[2..], Shadow(ms[0]));
      }
    }
  }

  lemma {:induction false} SecondDiffers(ms: seq<Mark>)
    requires Settled(ms) && !AllEqual(ms) && ms[0].power.Some? && |ms| != 2
    ensures |ms| > 2 && ms[1] != ms[0] && Times(ms, ms[0]) == 1
  {
    assert ms[0] in ms;
    assert |ms| >= 2;
    assert ms == [ms[0], ms[1]] + ms[2..];
    assert multiset(ms) == multiset{ms[0], ms[1]} + multiset(ms[2..]);
  }

  // In a settled group every order counts the same.
  lemma {:induction false} SettledSame(ms: seq<Mark>, other: seq<Mark>)
    requires Settled(ms) && multiset(ms) == multiset(other)
    ensures ConflictsOf(ms) == ConflictsOf(other)
  {
    hide ConflictsOf;
    SettledBoth(ms, other);
    SettledGroup(ms);
    SettledGroup(other);
  }

  // Being settled and the count it gives do not depend on the order.
  lemma {:induction false} SettledBoth(ms: seq<Mark>, other: seq<Mark>)
    requires Settled(ms) && multiset(ms) == multiset(other)
    ensures Settled(other) && SettledCount(other) == SettledCount(ms)
  {
    assert |multiset(ms)| == |ms| && |multiset(other)| == |other|;
    assert forall x :: x in ms <==> x in multiset(ms);
    assert forall x :: x in other <==> x in multiset(other);
  }

  // ---------- two orders that count differently ----------

  lemma {:induction false} TakeOut(ms: seq<Mark>, x: Mark) returns (rest: seq<Mark>)
    requires x in ms
    ensures multiset(ms) == multiset{x} + multiset(rest) && |rest| + 1 == |ms|
  {
    var i :| 0 <= i < |ms| && ms[i] == x;
    rest := ms[..i] + ms[i + 1..];
    assert ms == ms[..i] + [x] + ms[i + 1..];
  }

  lemma {:induction false} TakeThree(ms: seq<Mark>, x: Mark, y: Mark, z: Mark) returns (rest: seq<Mark>)
    requires multiset{x, y, z} <= multiset(ms)
    ensures multiset(ms) == multiset{x, y, z} + multiset(rest)
  {
    assert x in multiset(ms);
    var rest1 := TakeOut(ms, x);
    assert y in multiset(rest1);
    var rest2 := TakeOut(rest1, y);
    assert z in multiset(rest2);
    rest := TakeOut(rest2, z);
  }

  lemma {:induction false} Arranged(x: Mark, y: Mark, z: Mark, rest: seq<Mark>)
    ensures multiset([x, y, z] + rest) == multiset{x, y, z} + multiset(rest)
    ensures ([x, y, z] + rest)[2..] == [z] + rest && ([x, y, z] + rest)[3..] == rest
  {
  }

  lemma {:induction false} OtherSecond(x: Mark, y: Mark, z: Mark, rest: seq<Mark>)
    requires x.power.Some? && y != x
    ensures ConflictsOf([x, y, z] + rest)
            == |rest| + 2 - Times(rest, Shadow(x)) - (if z == Shadow(x) then 1 else 0)
  {
    hide Times, ConflictsOf;
    var ms := [x, y, z] + rest;
    UsableFirst(ms, 1);
    Arranged(x, y, z, rest);
    TimesAppend([z], rest, Shadow(x));
  }

  lemma {:induction false} OtherThird(x: Mark, y: Mark, rest: seq<Mark>)
    requires x.power.Some? && y != x
    ensures ConflictsOf([x, x, y] + rest) == |rest| + 1 - Times(rest, Shadow(x))
  {
    hide Times, ConflictsOf;
    var ms := [x, x, y] + rest;
    UsableFirst(ms, 2);
    Arranged(x, x, y, rest);
  }

  ghost predicate TwoCounts(ms: seq<Mark>, a: seq<Mark>, b: seq<Mark>) {
    multiset(a) == multiset(ms) && multiset(b) == multiset(ms) && ConflictsOf(a) != ConflictsOf(b)
  }

  // No usable reading, and two that do not occur equally often.
  lemma {:induction false} UnequalTimes(ms: seq<Mark>, x: Mark, y: Mark) returns (a: seq<Mark>, b: seq<Mark>)
    requires x in ms && y in ms && x.power.None? && y.power.None? && Times(ms, x) != Times(ms, y)
    ensures TwoCounts(ms, a, b)
  {
    var restX := TakeOut(ms, x);
    var restY := TakeOut(ms, y);
    a, b := [x] + restX, [y] + restY;
    UnusableFirst(a);
    UnusableFirst(b);
    SameLength(a, ms);
    SameLength(b, ms);
  }

  lemma {:induction false} SameLength(a: seq<Mark>, b: seq<Mark>)
    requires multiset(a) == multiset(b)
    ensures |a| == |b|
  {
    assert |multiset(a)| == |a| && |multiset(b)| == |b|;
  }

  lemma {:induction false} TwoAndOne(ms: seq<Mark>, x: Mark, y: Mark)
    requires Times(ms, x) >= 2 && y in ms && y != x
    ensures multiset{x, x, y} <= multiset(ms)
  {
    assert y in multiset(ms);
  }

  // A usable reading that is repeated, and another one.
  lemma {:induction false} UsableTwice(ms: seq<Mark>, x: Mark, y: Mark) returns (a: seq<Mark>, b: seq<Mark>)
    requires x.power.Some? && Times(ms, x) >= 2 && y in ms && y != x
    ensures TwoCounts(ms, a, b)
  {
    hide ConflictsOf, Times;
    TwoAndOne(ms, x, y);
    var rest := TakeThree(ms, x, x, y);
    a, b := [x, x, y] + rest, [x, y, x] + rest;
    Arranged(x, x, y, rest);
    Arranged(x, y, x, rest);
    OtherThird(x, y, rest);
    OtherSecond(x, y, x, rest);
  }

  // A usable reading, an unusable one of its series, and a third one.
  lemma {:induction false} ShadowAndThird(ms: seq<Mark>, x: Mark, w: Mark) returns (a: seq<Mark>, b: seq<Mark>)
    requires x.power.Some? && x in ms && Shadow(x) in ms && w in ms && w != x && w != Shadow(x)
    ensures TwoCounts(ms, a, b)
  {
    var z := Shadow(x);
    assert x in multiset(ms) && z in multiset(ms) && w in multiset(ms);
    var rest := TakeThree(ms, x, z, w);
    hide ConflictsOf, Times;
    a, b := [x, z, w] + rest, [x, w, z] + rest;
    Arranged(x, z, w, rest);
    Arranged(x, w, z, rest);
    OtherSecond(x, z, w, rest);
    OtherSecond(x, w, z, rest);
  }

  // An unusable reading that is repeated, and a usable one without unusable ones of its series.
  lemma {:induction false} UnusableTwice(ms: seq<Mark>, x: Mark, z: Mark) returns (a: seq<Mark>, b: seq<Mark>)
    requires x.power.Some? && x in ms && Shadow(x) !in ms && z.power.None? && Times(ms, z) >= 2
    ensures TwoCounts(ms, a, b)
  {
    hide ConflictsOf, Times, Shadow;
    TwoAndOne(ms, z, x);
    var rest := TakeThree(ms, x, z, z);
    ShadowAbsent(ms, x, z, rest);
    a, b := [x, z, z] + rest, [z, x, z] + rest;
    Arranged(x, z, z, rest);
    Arranged(z, x, z, rest);
    OtherSecond(x, z, z, rest);
    UnusableFirst(b);
    TimesAppend([z, x, z], rest, z);
    TimesAppend([z, x], [z], z);
    TimesAppend([z], [x], z);
    assert [z, x] + [z] == [z, x, z] && [z] + [x] == [z, x];
  }

  lemma {:induction false} ShadowAbsent(ms: seq<Mark>, x: Mark, z: Mark, rest: seq<Mark>)
    requires Shadow(x) !in ms && z.power.None? && Times(ms, z) >= 2
    requires multiset(ms) == multiset{x, z, z} + multiset(rest)
    ensures z != Shadow(x) && Times(rest, Shadow(x)) == 0
  {
    assert Shadow(x) !in multiset(ms);
  }

  // Any group that is not settled has two orders with different counts.
  lemma {:induction false} UnsettledGroup(ms: seq<Mark>) returns (a: seq<Mark>, b: seq<Mark>)
    requires !Settled(ms)
    ensures TwoCounts(ms, a, b)
  {
    hide Times, TwoCounts;
    if NoneUsable(ms) {
      var x, y :| x in ms && y in ms && Times(ms, x) != Times(ms, y);
      a, b := UnequalTimes(ms, x, y);
    } else if x :| x in ms && x.power.Some? && Times(ms, x) >= 2 {
      var y := Another(ms, x);
      a, b := UsableTwice(ms, x, y);
    } else if x :| x in ms && x.power.Some? && Shadow(x) in ms {
      OccursOnce(ms, x);
      var w :| w in ms && w != x && w != Shadow(x);
      a, b := ShadowAndThird(ms, x, w);
    } else {
      var x :| x in ms && x.power.Some?;
      var z :| z in ms && Times(ms, z) != 1;
      OccursOnce(ms, z);
      a, b := UnusableTwice(ms, x, z);
    }
  }

  lemma {:induction false} OccursOnce(ms: seq<Mark>, x: Mark)
    requires x in ms
    ensures Times(ms, x) >= 1
  {
    assert x in multiset(ms);
  }

  lemma {:induction false} Another(ms: seq<Mark>, x: Mark) returns (y: Mark)
    requires x in ms && !AllEqual(ms)
    ensures y in ms && y != x
  {
    var u, v :| u in ms && v in ms && u != v;
    y := if u == x then v else u;
  }

  // ---------- the intake, one time at a time ----------

  // What the intake holds for readings of one time only.
  lemma {:induction false} GroupIntake(g: seq<Observation>, t: int)
    requires forall i :: 0 <= i < |g| ==> g[i].at == Some(t)
    ensures var s := TakenIn(g);
            && s.conflicting == ConflictsOf(Marks(g))
            && (|g| == 0 ==> s.byTime == map[] && s.seriesByTime == map[])
            && (|g| > 0 ==> s.byTime == map[t := Held(Marks(g))] && s.seriesByTime == map[t := Marks(g)[0].series])
  {
    hide CleanPower;
    if |g| > 0 {
      var front := g[..|g| - 1];
      GroupIntake(front, t);
      assert Marks(g)[..|g| - 1] == Marks(front);
      if |front| > 0 {
        HeldStep(Marks(g));
      }
    }
  }

  lemma {:induction false} HeldStep(ms: seq<Mark>)
    requires |ms| > 1
    ensures Held(ms) == if ms[|ms| - 1] == ms[0] then Held(ms[..|ms| - 1]) else None
  {
    var front := ms[..|ms| - 1];
    assert forall i :: 0 <= i < |front| ==> front[i] == ms[i];
  }

  // The intake of all readings is that of one time beside that of all others.
  ghost predicate Beside(s: Intake, own: Intake, others: Intake, t: int) {
    && s.conflicting == own.conflicting + others.conflicting
    && MapBeside(s.byTime, own.byTime, others.byTime, t)
    && MapBeside(s.seriesByTime, own.seriesByTime, others.seriesByTime, t)
  }

  ghost predicate MapBeside<V>(m: map<int, V>, own: map<int, V>, others: map<int, V>, t: int) {
    && (forall u :: u in m <==> if u == t then u in own else u in others)
    && (forall u :: u in m ==> m[u] == if u == t then own[u] else others[u])
  }

  lemma {:induction false} MapStep<V>(m: map<int, V>, own: map<int, V>, others: map<int, V>, t: int, u: int, v: V)
    requires MapBeside(m, own, others, t)
    ensures u == t ==> MapBeside(m[u := v], own[u := v], others, t)
    ensures u != t ==> MapBeside(m[u := v], own, others[u := v], t)
  {
  }

  lemma {:induction false} MapAt<V>(m: map<int, V>, own: map<int, V>, others: map<int, V>, t: int, u: int)
    requires MapBeside(m, own, others, t)
    ensures var n := if u == t then own else others;
            (u in m <==> u in n) && (u in m ==> m[u] == n[u])
  {
  }

  lemma {:induction false} BesideStep(s: Intake, own: Intake, others: Intake, t: int, o: Observation)
    requires Beside(s, own, others, t)
    ensures o.at == Some(t) ==> Beside(TakeOne(s, o), TakeOne(own, o), others, t)
    ensures o.at != Some(t) ==> Beside(TakeOne(s, o), own, TakeOne(others, o), t)
  {
    hide CleanPower, MapBeside;
    if o.at.Some? {
      var u := o.at.value;
      MapAt(s.byTime, own.byTime, others.byTime, t, u);
      MapAt(s.seriesByTime, own.seriesByTime, others.seriesByTime, t, u);
      MapStep(s.byTime, own.byTime, others.byTime, t, u, CleanPower(o));
      MapStep(s.byTime, own.byTime, others.byTime, t, u, None);
      MapStep(s.seriesByTime, own.seriesByTime, others.seriesByTime, t, u, o.series);
    }
  }

  lemma {:induction false} GroupBeside(os: seq<Observation>, t: int)
    ensures Beside(TakenIn(os), TakenIn(Group(os, t)), TakenIn(Others(os, t)), t)
  {
    hide TakeOne, Beside;
    if |os| == 0 {
      NothingBeside(t);
    } else {
      var front, last := os[..|os| - 1], os[|os| - 1];
      GroupBeside(front, t);
      BesideStep(TakenIn(front), TakenIn(Group(front, t)), TakenIn(Others(front, t)), t, last);
      if last.at == Some(t) {
        assert Others(os, t) == Others(front, t);
        assert Group(os, t)[..|Group(os, t)| - 1] == Group(front, t);
      } else {
        assert Group(os, t) == Group(front, t);
        assert Others(os, t)[..|Others(os, t)| - 1] == Others(front, t);
      }
    }
  }

  lemma {:induction false} NothingBeside(t: int)
    ensures Beside(TakenIn([]), TakenIn(Group([], t)), TakenIn(Others([], t)), t)
  {
  }

  // Conflicts are counted time by time.
  lemma {:induction false} ConflictsByTime(os: seq<Observation>, t: int)
    ensures Conflicts(os) == ConflictsOf(Marks(Group(os, t))) + Conflicts(Others(os, t))
  {
    hide TakenIn, Group, Others, ConflictsOf;
    GroupBeside(os, t);
    GroupAt(os, t);
    GroupIntake(Group(os, t), t);
  }

  lemma {:induction false} GroupAt(os: seq<Observation>, t: int)
    ensures forall i :: 0 <= i < |Group(os, t)| ==> Group(os, t)[i].at == Some(t)
    ensures forall i :: 0 <= i < |Others(os, t)| ==> Others(os, t)[i].at != Some(t)
    ensures |Others(os, t)| + |Group(os, t)| == |os|
  {
    if |os| > 0 {
      GroupAt(os[..|os| - 1], t);
    }
  }

  // ---------- reordering ----------

  lemma {:induction false} GroupTimes(os: seq<Observation>, t: int, o: Observation)
    ensures multiset(Group(os, t))[o] == if o.at == Some(t) then multiset(os)[o] else 0
    ensures multiset(Others(os, t))[o] == if o.at != Some(t) then multiset(os)[o] else 0
  {
    if |os| > 0 {
      var front, last := os[..|os| - 1], os[|os| - 1];
      assert os == front + [last];
      GroupTimes(front, t, o);
    }
  }

  lemma {:induction false} SameGroups(a: seq<Observation>, b: seq<Observation>, t: int)
    requires SameReadings(a, b)
    ensures SameReadings(Group(a, t), Group(b, t)) && SameReadings(Others(a, t), Others(b, t))
    ensures multiset(Marks(Group(a, t))) == multiset(Marks(Group(b, t)))
  {
    hide Group, Others, Marks;
    forall o: Observation
      ensures multiset(Group(a, t))[o] == multiset(Group(b, t))[o]
      ensures multiset(Others(a, t))[o] == multiset(Others(b, t))[o]
    {
      GroupTimes(a, t, o);
      GroupTimes(b, t, o);
    }
    SameMarks(Group(a, t), Group(b, t));
  }

  lemma {:induction false} MarksWithout(os: seq<Observation>, i: nat)
    requires i < |os|
    ensures var rest := os[..i] + os[i + 1..];
            && multiset(os) == multiset(rest) + multiset{os[i]}
            && multiset(Marks(os)) == multiset(Marks(rest)) + multiset{MarkOf(os[i])}
  {
    hide MarkOf, Marks;
    var l, r := os[..i], os[i + 1..];
    assert os == l + ([os[i]] + r);
    MarksAppend(l, [os[i]] + r);
    MarksAppend([os[i]], r);
    MarksAppend(l, r);
    MarksLength([os[i]]);
    assert Marks([os[i]]) == [MarkOf(os[i])];
    assert multiset(Marks(os)) == multiset(Marks(l)) + multiset(Marks([os[i]]) + Marks(r));
  }

  lemma {:induction false} MarksAppend(a: seq<Observation>, b: seq<Observation>)
    ensures Marks(a + b) == Marks(a) + Marks(b)
  {
    hide MarkOf;
  }

  lemma {:induction false} SameMarks(a: seq<Observation>, b: seq<Observation>)
    requires SameReadings(a, b)
    ensures multiset(Marks(a)) == multiset(Marks(b))
  {
    hide MarkOf, Marks;
    if |a| == 0 {
      assert |multiset(b)| == 0;
      assert b == [];
    } else {
      var n, o := |a| - 1, a[|a| - 1];
      MarksWithout(a, n);
      assert a[..n] + a[n + 1..] == a[..n];
      assert o in multiset(b);
      var i :| 0 <= i < |b| && b[i] == o;
      MarksWithout(b, i);
      var rest := b[..i] + b[i + 1..];
      assert multiset(a[..n]) + multiset{o} == multiset(rest) + multiset{o};
      assert multiset(a[..n]) == multiset(a[..n]) + multiset{o} - multiset{o};
      assert multiset(rest) == multiset(rest) + multiset{o} - multiset{o};
      SameMarks(a[..n], rest);
    }
  }

  // Any order of the marks is the order of some rearrangement of the readings.
  lemma {:induction false} Rearranged(g: seq<Observation>, ms: seq<Mark>) returns (h: seq<Observation>)
    requires multiset(Marks(g)) == multiset(ms)
    ensures SameReadings(g, h) && Marks(h) == ms
  {
    hide MarkOf, Marks;
    MarksLength(g);
    assert |multiset(Marks(g))| == |g| && |multiset(ms)| == |ms|;
    if |ms| == 0 {
      h := [];
    } else {
      var n, x := |ms| - 1, ms[|ms| - 1];
      assert ms == ms[..n] + [x];
      assert x in multiset(Marks(g));
      var i :| 0 <= i < |g| && Marks(g)[i] == x;
      MarksWithout(g, i);
      var rest := g[..i] + g[i + 1..];
      assert multiset(Marks(rest)) == multiset(Marks(rest)) + multiset{x} - multiset{x};
      assert multiset(ms[..n]) == multiset(ms[..n]) + multiset{x} - multiset{x};
      var front := Rearranged(rest, ms[..n]);
      h := front + [g[i]];
      MarksPushed(front, g[i]);
    }
  }

  lemma {:induction false} MarksLength(os: seq<Observation>)
    ensures |Marks(os)| == |os| && forall i :: 0 <= i < |os| ==> Marks(os)[i] == MarkOf(os[i])
  {
  }

  lemma {:induction false} MarksPushed(os: seq<Observation>, o: Observation)
    ensures Marks(os + [o]) == Marks(os) + [MarkOf(o)]
  {
    hide MarkOf;
  }

  lemma {:induction false} GroupOfOthers(os: seq<Observation>, t: int, u: int)
    ensures Group(Others(os, t), u) == if u == t then [] else Group(os, u)
  {
    hide Group, Others;
    if |os| == 0 {
      NoReadings(t);
      NoReadings(u);
    } else {
      var front, last := os[..|os| - 1], os[|os| - 1];
      GroupOfOthers(front, t, u);
      GroupLast(front, last, t);
      GroupLast(front, last, u);
      GroupLast(Others(front, t), last, u);
      assert os == front + [last];
    }
  }

  lemma {:induction false} NoReadings(t: int)
    ensures Group([], t) == [] && Others([], t) == []
  {
  }

  lemma {:induction false} GroupLast(front: seq<Observation>, last: Observation, t: int)
    ensures Group(front + [last], t) == (if last.at == Some(t) then Group(front, t) + [last] else Group(front, t))
    ensures Others(front + [last], t) == (if last.at == Some(t) then Others(front, t) else Others(front, t) + [last])
  {
    assert (front + [last])[..|front|] == front;
  }

  // The count of readings of which none has a time.
  lemma {:induction false} Untimed(os: seq<Observation>)
    requires forall i :: 0 <= i < |os| ==> os[i].at.None?
    ensures Conflicts(os) == 0
  {
    if |os| > 0 {
      Untimed(os[..|os| - 1]);
    }
  }

  ghost predicate AllSettled(os: seq<Observation>) { forall t :: Settled(Marks(Group(os, t))) }

  lemma {:induction false} SettledCounts(a: seq<Observation>, b: seq<Observation>)
    requires SameReadings(a, b) && AllSettled(a)
    ensures Conflicts(a) == Conflicts(b)
    decreases |a|
  {
    hide Conflicts, ConflictsOf, Settled, Group, Others, Marks;
    if i :| 0 <= i < |a| && a[i].at.Some? {
      var t := a[i].at.value;
      ConflictsByTime(a, t);
      ConflictsByTime(b, t);
      SameGroups(a, b, t);
      SettledSame(Marks(Group(a, t)), Marks(Group(b, t)));
      OthersSettled(a, t);
      OthersFewer(a, t, i);
      SettledCounts(Others(a, t), Others(b, t));
    } else {
      AlsoUntimed(a, b);
      Untimed(a);
      Untimed(b);
    }
  }

  lemma {:induction false} AlsoUntimed(a: seq<Observation>, b: seq<Observation>)
    requires SameReadings(a, b) && forall i :: 0 <= i < |a| ==> a[i].at.None?
    ensures forall i :: 0 <= i < |b| ==> b[i].at.None?
  {
    forall i | 0 <= i < |b|
      ensures b[i].at.None?
    {
      assert b[i] in multiset(a);
    }
  }

  lemma {:induction false} OthersFewer(os: seq<Observation>, t: int, i: nat)
    requires i < |os| && os[i].at == Some(t)
    ensures |Others(os, t)| < |os|
  {
    hide Group, Others;
    GroupAt(os, t);
    GroupTimes(os, t, os[i]);
    assert os[i] in multiset(os);
    assert os[i] in multiset(Group(os, t));
  }

  lemma {:induction false} OthersSettled(os: seq<Observation>, t: int)
    requires AllSettled(os)
    ensures AllSettled(Others(os, t))
  {
    hide Group, Others, Settled, Marks;
    forall u
      ensures Settled(Marks(Group(Others(os, t), u)))
    {
      GroupOfOthers(os, t, u);
      NothingSettled();
    }
  }

  lemma {:induction false} NothingSettled()
    ensures Settled(Marks([]))
  {
  }

  lemma {:induction false} UnsettledCounts(os: seq<Observation>, t: int)
    requires !Settled(Marks(Group(os, t)))
    ensures !OrderFree(os)
  {
    hide Settled, Group, Others, Marks, ConflictsOf, Conflicts;
    var g, rest := Group(os, t), Others(os, t);
    var x, y := UnsettledGroup(Marks(g));
    var g1 := Rearranged(g, x);
    var g2 := Rearranged(g, y);
    GroupFirst(os, g1, t);
    GroupFirst(os, g2, t);
    ConflictsByTime(g1 + rest, t);
    ConflictsByTime(g2 + rest, t);
  }

  // A rearranged group in front of all other readings.
  lemma {:induction false} GroupFirst(os: seq<Observation>, g: seq<Observation>, t: int)
    requires SameReadings(Group(os, t), g)
    ensures SameReadings(os, g + Others(os, t))
    ensures Group(g + Others(os, t), t) == g && Others(g + Others(os, t), t) == Others(os, t)
  {
    hide Group, Others;
    GroupAt(os, t);
    forall i | 0 <= i < |g|
      ensures g[i].at == Some(t)
    {
      assert g[i] in multiset(Group(os, t));
    }
    Parted(g, Others(os, t), t);
    forall o: Observation
      ensures multiset(os)[o] == multiset(g + Others(os, t))[o]
    {
      GroupTimes(os, t, o);
    }
  }

  lemma {:induction false} Parted(g: seq<Observation>, rest: seq<Observation>, t: int)
    requires forall i :: 0 <= i < |g| ==> g[i].at == Some(t)
    requires forall i :: 0 <= i < |rest| ==> rest[i].at != Some(t)
    ensures Group(g + rest, t) == g && Others(g + rest, t) == rest
  {
    hide Group, Others;
    if |rest| > 0 {
      var front, last := rest[..|rest| - 1], rest[|rest| - 1];
      Parted(g, front, t);
      GroupLast(g + front, last, t);
      assert g + rest == (g + front) + [last];
    } else if |g| > 0 {
      var front, last := g[..|g| - 1], g[|g| - 1];
      Parted(front, [], t);
      GroupLast(front, last, t);
      assert g + rest == front + [last] && front + [] == front;
    } else {
      assert g + rest == [];
      NoReadings(t);
    }
  }

  /**
   The count of conflicts is the same in every order of the readings if and only if at every time
   the readings are all equal, or exactly two, or all unusable with every series equally often, or
   one usable among unusable ones of its series, or all distinct with no unusable one sharing the
   series of a usable one.
   */
  lemma {:induction false} OrderFreeExactlyWhen(os: seq<Observation>)
    ensures OrderFree(os) <==> AllSettled(os)
  {
    hide Settled, Group, Marks, Conflicts;
    if AllSettled(os) {
      forall b | SameReadings(os, b)
        ensures Conflicts(b) == Conflicts(os)
      {
        SettledCounts(os, b);
      }
    } else {
      var t :| !Settled(Marks(Group(os, t)));
      UnsettledCounts(os, t);
    }
  }
}
