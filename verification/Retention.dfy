/** Which snapshots a retention policy lets go. */
module Retention {
  import opened Base

  /** `day` and `week` stand for the UTC date and the ISO week of the creation time. */
  datatype Snapshot = Snapshot(id: nat, job: Option<nat>, day: int, week: int)

  datatype Policy = Policy(keepLast: int, keepDaily: int, keepWeekly: int)
  {
    /** No positive number of last snapshots means thirty. */
    function Last(): nat { if keepLast <= 0 then 30 else keepLast }
  }

  /** Snapshots of one job compete with each other; one without a job stands alone. */
  datatype GroupKey = OfJob(job: nat) | Alone(id: nat)

  function KeyOf(x: Snapshot): GroupKey { if x.job.Some? then OfJob(x.job.value) else Alone(x.id) }

  function InGroup(key: GroupKey): Snapshot -> bool { (x: Snapshot) => KeyOf(x) == key }

  function Group(s: seq<Snapshot>, key: GroupKey): seq<Snapshot> { Filter(s, InGroup(key)) }

  function Days(s: seq<Snapshot>): set<int> { set i | 0 <= i < |s| :: s[i].day }

  function Weeks(s: seq<Snapshot>): set<int> { set i | 0 <= i < |s| :: s[i].week }

  /** Whether a snapshot is kept, from those of its group that come before it (the newer ones). */
  predicate Keeps(p: Policy, before: seq<Snapshot>, x: Snapshot) {
    || |before| < p.Last()
    || (x.day !in Days(before) && |Days(before)| < p.keepDaily)
    || (x.week !in Weeks(before) && |Weeks(before)| < p.keepWeekly)
  }

  predicate KeptAt(p: Policy, s: seq<Snapshot>, k: nat)
    requires k < |s|
  {
    Keeps(p, Group(s[..k], KeyOf(s[k])), s[k])
  }

  function Survivors(p: Policy, s: seq<Snapshot>): seq<Snapshot> {
    if s == [] then []
    else
      var n := |s| - 1;
      Survivors(p, s[..n]) + if KeptAt(p, s, n) then [s[n]] else []
  }

  function Expired(p: Policy, s: seq<Snapshot>): seq<nat> {
    if s == [] then []
    else
      var n := |s| - 1;
      Expired(p, s[..n]) + if KeptAt(p, s, n) then [] else [s[n].id]
  }

  // ---- the loops ----

  /** One pass over a group for the last snapshots. */
  method KeepLastOf(p: Policy, group: seq<Snapshot>, keep: set<nat>) returns (r: set<nat>)
    ensures forall id :: id in r <==> id in keep || exists i :: 0 <= i < |group| && i < p.Last() && group[i].id == id
  {
    r := keep;
    for i := 0 to |group|
      invariant forall id :: id in r <==> id in keep || exists j :: 0 <= j < i && j < p.Last() && group[j].id == id
    {
      if i < p.Last() { r := r + {group[i].id}; }
    }
  }

  lemma NoDays(s: seq<Snapshot>)
    ensures Days(s[..0]) == {} && Weeks(s[..0]) == {}
  {
  }

  lemma DaysSnoc(s: seq<Snapshot>, x: Snapshot)
    ensures Days(s + [x]) == Days(s) + {x.day} && Weeks(s + [x]) == Weeks(s) + {x.week}
  {
    var t := s + [x];
    assert t[|s|] == x && forall i :: 0 <= i < |s| ==> t[i] == s[i];
    forall d | d in Days(s) ensures d in Days(t) { var i :| 0 <= i < |s| && s[i].day == d; assert t[i].day == d; }
    forall w | w in Weeks(s) ensures w in Weeks(t) { var i :| 0 <= i < |s| && s[i].week == w; assert t[i].week == w; }
    assert t[|s|].day in Days(t) && t[|s|].week in Weeks(t);
  }

  lemma DaysGrow(s: seq<Snapshot>, i: nat, j: nat)
    requires i <= j <= |s|
    ensures Days(s[..i]) <= Days(s[..j]) && Weeks(s[..i]) <= Weeks(s[..j])
    ensures |Days(s[..i])| <= |Days(s[..j])| && |Weeks(s[..i])| <= |Weeks(s[..j])|
    decreases j - i
  {
    if i < j {
      DaysGrow(s, i, j - 1);
      assert s[..j] == s[..j - 1] + [s[j - 1]];
      DaysSnoc(s[..j - 1], s[j - 1]);
    }
    SubsetSize(Days(s[..i]), Days(s[..j]));
    SubsetSize(Weeks(s[..i]), Weeks(s[..j]));
  }

  predicate DailyAt(p: Policy, group: seq<Snapshot>, i: nat)
    requires i < |group|
  {
    group[i].day !in Days(group[..i]) && |Days(group[..i])| < p.keepDaily
  }

  predicate WeeklyAt(p: Policy, group: seq<Snapshot>, i: nat)
    requires i < |group|
  {
    group[i].week !in Weeks(group[..i]) && |Weeks(group[..i])| < p.keepWeekly
  }

  /** The newest snapshot of each of the newest days; the pass ends once enough days are kept. */
  method KeepDailyOf(p: Policy, group: seq<Snapshot>, keep: set<nat>) returns (r: set<nat>)
    ensures forall id :: id in r <==> id in keep || exists i :: 0 <= i < |group| && DailyAt(p, group, i) && group[i].id == id
  {
    hide Days, Weeks;
    NoDays(group);
    r := keep;
    var kept: set<int> := {};
    for i := 0 to |group|
      invariant kept == Days(group[..i])
      invariant forall id :: id in r <==> id in keep || exists j :: 0 <= j < i && DailyAt(p, group, j) && group[j].id == id
    {
      if p.keepDaily <= 0 || |kept| >= p.keepDaily {
        forall j | i <= j < |group| ensures !DailyAt(p, group, j) { DaysGrow(group, i, j); }
        return;
      }
      assert group[..i + 1] == group[..i] + [group[i]];
      DaysSnoc(group[..i], group[i]);
      if group[i].day !in kept {
        r, kept := r + {group[i].id}, kept + {group[i].day};
      }
    }
  }

  method KeepWeeklyOf(p: Policy, group: seq<Snapshot>, keep: set<nat>) returns (r: set<nat>)
    ensures forall id :: id in r <==> id in keep || exists i :: 0 <= i < |group| && WeeklyAt(p, group, i) && group[i].id == id
  {
    hide Days, Weeks;
    NoDays(group);
    r := keep;
    var kept: set<int> := {};
    for i := 0 to |group|
      invariant kept == Weeks(group[..i])
      invariant forall id :: id in r <==> id in keep || exists j :: 0 <= j < i && WeeklyAt(p, group, j) && group[j].id == id
    {
      if p.keepWeekly <= 0 || |kept| >= p.keepWeekly {
        forall j | i <= j < |group| ensures !WeeklyAt(p, group, j) { DaysGrow(group, i, j); }
        return;
      }
      assert group[..i + 1] == group[..i] + [group[i]];
      DaysSnoc(group[..i], group[i]);
      if group[i].week !in kept {
        r, kept := r + {group[i].id}, kept + {group[i].week};
      }
    }
  }

  predicate KeptInGroup(p: Policy, group: seq<Snapshot>, i: nat)
    requires i < |group|
  {
    i < p.Last() || DailyAt(p, group, i) || WeeklyAt(p, group, i)
  }

  /** Each member of the list stands in its group right after those of its group that come before it. */
  lemma {:induction false} GroupPosition(s: seq<Snapshot>, k: nat) returns (i: nat)
    requires k < |s|
    ensures var g := Group(s, KeyOf(s[k])); i < |g| && g[i] == s[k] && g[..i] == Group(s[..k], KeyOf(s[k]))
  {
    var key := KeyOf(s[k]);
    assert s == s[..k] + ([s[k]] + s[k + 1..]);
    FilterAppend(s[..k], [s[k]] + s[k + 1..], InGroup(key));
    FilterAppend([s[k]], s[k + 1..], InGroup(key));
    i := |Group(s[..k], key)|;
  }

  lemma {:induction false} GroupMember(s: seq<Snapshot>, key: GroupKey, i: nat) returns (k: nat)
    requires i < |Group(s, key)|
    ensures k < |s| && s[k] == Group(s, key)[i] && KeyOf(s[k]) == key && Group(s, key)[..i] == Group(s[..k], key)
  {
    var n := |s| - 1;
    assert s == s[..n] + [s[n]];
    FilterAppend(s[..n], [s[n]], InGroup(key));
    if i < |Group(s[..n], key)| {
      k := GroupMember(s[..n], key, i);
      assert s[..n][..k] == s[..k];
      assert Group(s, key)[..i] == Group(s[..n], key)[..i];
    } else {
      k := n;
      assert Group(s, key)[..i] == Group(s[..n], key);
    }
  }

  predicate UniqueIds(s: seq<Snapshot>) {
    forall i, j :: 0 <= i < j < |s| ==> s[i].id != s[j].id
  }

  ghost predicate Grouped(s: seq<Snapshot>, groups: map<GroupKey, seq<Snapshot>>) {
    forall key :: (if key in groups then groups[key] else []) == Group(s, key)
  }

  lemma GroupedSnoc(s: seq<Snapshot>, groups: map<GroupKey, seq<Snapshot>>, x: Snapshot)
    requires Grouped(s, groups)
    ensures Grouped(s + [x], groups[KeyOf(x) := (if KeyOf(x) in groups then groups[KeyOf(x)] else []) + [x]])
  {
    forall key ensures Group(s + [x], key) == Group(s, key) + if KeyOf(x) == key then [x] else [] {
      FilterAppend(s, [x], InGroup(key));
    }
  }

  ghost predicate KeptIn(p: Policy, s: seq<Snapshot>, key: GroupKey, id: nat) {
    exists i :: 0 <= i < |Group(s, key)| && KeptInGroup(p, Group(s, key), i) && Group(s, key)[i].id == id
  }

  /** The keys to keep, collected group by group in any order. */
  method KeepSet(p: Policy, s: seq<Snapshot>, groups: map<GroupKey, seq<Snapshot>>) returns (keep: set<nat>)
    requires Grouped(s, groups)
    ensures forall id :: id in keep <==> exists key :: key in groups && KeptIn(p, s, key, id)
  {
    hide DailyAt, WeeklyAt, Group;
    keep := {};
    var todo := groups.Keys;
    while todo != {}
      invariant todo <= groups.Keys
      invariant forall id :: id in keep <==> exists key :: key in groups && key !in todo && KeptIn(p, s, key, id)
    {
      var key := Pick(todo);
      var group := groups[key];
      assert group == Group(s, key);
      ghost var before := keep;
      keep := KeepLastOf(p, group, keep);
      keep := KeepDailyOf(p, group, keep);
      keep := KeepWeeklyOf(p, group, keep);
      assert forall id :: id in keep <==> id in before || KeptIn(p, s, key, id);
      todo := todo - {key};
    }
  }

  /** Groups the snapshots, marks what each group keeps, and lists the rest. */
  method ExpiredSnapshotIDs(s: seq<Snapshot>, p: Policy) returns (expired: seq<nat>)
    requires UniqueIds(s)
    ensures expired == Expired(p, s)
  {
    hide KeptInGroup, Group, KeptAt;
    var groups: map<GroupKey, seq<Snapshot>> := map[];
    NoGroups();
    for i := 0 to |s|
      invariant Grouped(s[..i], groups)
    {
      assert s[..i + 1] == s[..i] + [s[i]];
      GroupedSnoc(s[..i], groups, s[i]);
      var key := KeyOf(s[i]);
      groups := groups[key := (if key in groups then groups[key] else []) + [s[i]]];
    }
    assert s[..|s|] == s;
    var keep := KeepSet(p, s, groups);
    expired := [];
    for k := 0 to |s|
      invariant expired == Expired(p, s[..k])
    {
      KeptAgrees(p, s, groups, k);
      assert s[..k + 1][..k] == s[..k];
      KeptAtPrefix(p, s, k);
      if s[k].id !in keep { expired := expired + [s[k].id]; }
    }
  }

  lemma NoGroups()
    ensures Grouped([], map[])
  {
  }

  lemma KeptAtPrefix(p: Policy, s: seq<Snapshot>, k: nat)
    requires k < |s|
    ensures KeptAt(p, s[..k + 1], k) == KeptAt(p, s, k)
  {
    assert s[..k + 1][..k] == s[..k];
  }

  /** Marking by groups is deciding each snapshot by those before it. */
  lemma KeptAgrees(p: Policy, s: seq<Snapshot>, groups: map<GroupKey, seq<Snapshot>>, k: nat)
    requires UniqueIds(s) && Grouped(s, groups) && k < |s|
    ensures (exists key :: key in groups && KeptIn(p, s, key, s[k].id)) <==> KeptAt(p, s, k)
  {
    hide Group;
    var key := KeyOf(s[k]);
    var i := GroupPosition(s, k);
    assert key in groups by { assert (if key in groups then groups[key] else []) == Group(s, key); }
    assert KeptInGroup(p, Group(s, key), i) <==> KeptAt(p, s, k);
    if KeptAt(p, s, k) { assert KeptIn(p, s, key, s[k].id); }
    if key' :| key' in groups && KeptIn(p, s, key', s[k].id) {
      var j :| 0 <= j < |Group(s, key')| && KeptInGroup(p, Group(s, key'), j) && Group(s, key')[j].id == s[k].id;
      var k' := GroupMember(s, key', j);
      assert k' == k;
      SamePlace(Group(s, key), i, j);
    }
  }

  lemma SamePlace(g: seq<Snapshot>, i: nat, j: nat)
    requires i <= |g| && j <= |g| && g[..i] == g[..j]
    ensures i == j
  {
    assert |g[..i]| == i && |g[..j]| == j;
  }

  // ---- what the policy guarantees ----

  lemma FewerDays(a: seq<Snapshot>, b: seq<Snapshot>)
    requires forall x :: x in a ==> x in b
    ensures Days(a) <= Days(b) && Weeks(a) <= Weeks(b) && |Days(a)| <= |Days(b)| && |Weeks(a)| <= |Weeks(b)|
  {
    forall i | 0 <= i < |a| ensures a[i].day in Days(b) && a[i].week in Weeks(b) {
      assert a[i] in b;
      var j :| 0 <= j < |b| && b[j] == a[i];
    }
    SubsetSize(Days(a), Days(b));
    SubsetSize(Weeks(a), Weeks(b));
  }

  lemma GroupSnoc(s: seq<Snapshot>, x: Snapshot, key: GroupKey)
    ensures Group(s + [x], key) == Group(s, key) + if KeyOf(x) == key then [x] else []
  {
    FilterAppend(s, [x], InGroup(key));
  }

  /** The survivors of a group are some of its members. */
  lemma {:induction false} SurvivorsAreFewer(p: Policy, s: seq<Snapshot>, key: GroupKey)
    ensures |Group(Survivors(p, s), key)| <= |Group(s, key)|
    ensures forall x :: x in Group(Survivors(p, s), key) ==> x in Group(s, key)
  {
    hide KeptAt;
    if s != [] {
      var n := |s| - 1;
      SurvivorsAreFewer(p, s[..n], key);
      GroupSnoc(s[..n], s[n], key);
      GroupSnoc(Survivors(p, s[..n]), s[n], key);
      assert s == s[..n] + [s[n]];
      if !KeptAt(p, s, n) { assert Survivors(p, s) == Survivors(p, s[..n]); }
    }
  }

  /** Whoever is kept is kept again among the survivors. */
  lemma KeptAgain(p: Policy, before: seq<Snapshot>, fewer: seq<Snapshot>, x: Snapshot)
    requires Keeps(p, before, x) && |fewer| <= |before| && forall y :: y in fewer ==> y in before
    ensures Keeps(p, fewer, x)
  {
    FewerDays(fewer, before);
  }

  /** Applying the policy to what it kept lets nothing more go. */
  lemma {:induction false} RetentionIsAFixedPoint(p: Policy, s: seq<Snapshot>)
    ensures Survivors(p, Survivors(p, s)) == Survivors(p, s) && Expired(p, Survivors(p, s)) == []
    decreases |s|
  {
    if s != [] {
      var n := |s| - 1;
      var t := Survivors(p, s[..n]);
      RetentionIsAFixedPoint(p, s[..n]);
      if KeptAt(p, s, n) {
        var t' := t + [s[n]];
        SurvivorsAreFewer(p, s[..n], KeyOf(s[n]));
        KeptAgain(p, Group(s[..n], KeyOf(s[n])), Group(t, KeyOf(s[n])), s[n]);
        assert t'[..|t|] == t && KeptAt(p, t', |t|);
      } else {
        assert Survivors(p, s) == t;
      }
    }
  }

  /** A snapshot without a job is never let go. */
  lemma JoblessIsKept(p: Policy, s: seq<Snapshot>, k: nat)
    requires UniqueIds(s) && k < |s| && s[k].job.None?
    ensures KeptAt(p, s, k)
  {
    var key := KeyOf(s[k]);
    forall x | x in s[..k] ensures KeyOf(x) != key { var j :| 0 <= j < k && s[j] == x; }
    FilterNone(s[..k], InGroup(key));
  }

  function Min(a: nat, b: int): nat { if b <= 0 then 0 else if a < b then a else b }

  /** The most snapshots of a group that can be kept. */
  function Bound(p: Policy, g: seq<Snapshot>): nat {
    Min(|g|, p.Last()) + Min(|Days(g)|, p.keepDaily) + Min(|Weeks(g)|, p.keepWeekly)
  }

  lemma BoundGrows(p: Policy, g: seq<Snapshot>, x: Snapshot)
    ensures Bound(p, g + [x]) >= Bound(p, g) + if Keeps(p, g, x) then 1 else 0
  {
    hide Days, Weeks;
    DaysSnoc(g, x);
    SubsetSize(Days(g), Days(g) + {x.day});
    SubsetSize(Weeks(g), Weeks(g) + {x.week});
  }

  /** However many snapshots a job has, at most keepLast + keepDaily + keepWeekly of them are kept. */
  lemma {:induction false} JobKeepsAtMost(p: Policy, s: seq<Snapshot>, key: GroupKey)
    ensures |Group(Survivors(p, s), key)| <= Bound(p, Group(s, key))
    ensures Bound(p, Group(s, key)) <= p.Last() + (if p.keepDaily > 0 then p.keepDaily else 0) + (if p.keepWeekly > 0 then p.keepWeekly else 0)
    decreases |s|
  {
    hide Keeps, Group, Days, Weeks;
    if s != [] {
      var n := |s| - 1;
      var g, x, t := Group(s[..n], key), s[n], Survivors(p, s[..n]);
      JobKeepsAtMost(p, s[..n], key);
      assert s == s[..n] + [x];
      GroupSnoc(s[..n], x, key);
      GroupSnoc(t, x, key);
      BoundGrows(p, g, x);
      assert g + [] == g && Group(t, key) + [] == Group(t, key);
      if !KeptAt(p, s, n) { assert Survivors(p, s) == t; }
    } else {
      NoGroup(key);
    }
  }

  lemma NoGroup(key: GroupKey)
    ensures Group([], key) == []
  {
  }

  /** A policy that keeps at least as many of each kind keeps a superset. */
  lemma {:induction false} MoreKeepsMore(p: Policy, q: Policy, s: seq<Snapshot>)
    requires p.Last() <= q.Last() && p.keepDaily <= q.keepDaily && p.keepWeekly <= q.keepWeekly
    ensures forall x :: x in Survivors(p, s) ==> x in Survivors(q, s)
  {
    if s != [] { MoreKeepsMore(p, q, s[..|s| - 1]); }
  }

  // ---- which policy keeps more ----

  /** The week a day lies in: days are counted from a Thursday, and weeks begin on Mondays. */
  function WeekOf(day: int): int { (day + 3) / 7 }

  /** The lists there are: ids are unique, each snapshot's week is its day's, and a job's newest come first. */
  predicate Real(s: seq<Snapshot>) {
    && UniqueIds(s) && (forall i :: 0 <= i < |s| ==> s[i].week == WeekOf(s[i].day))
    && forall i, j :: 0 <= i < j < |s| && KeyOf(s[i]) == KeyOf(s[j]) ==> s[j].day <= s[i].day
  }

  /** `q` stands in for `p`: its number of last snapshots is no smaller; nor is its number of days, unless `p` wants
      one at most; nor its number of weeks, unless `p` wants one at most or `q` keeps all the days there can be in
      the weeks before the last. */
  predicate Covers(q: Policy, p: Policy) {
    && p.Last() <= q.Last() && (p.keepDaily <= 1 || p.keepDaily <= q.keepDaily)
    && (p.keepWeekly <= 1 || p.keepWeekly <= q.keepWeekly || 7 * (p.keepWeekly - 1) < q.keepDaily)
  }

  /** The `n` numbers after `from`. */
  function Range(from: int, n: nat): (r: set<int>)
    ensures (forall i :: i in r <==> from < i <= from + n) && |r| == n
  {
    if n == 0 then {} else Range(from, n - 1) + {from + n}
  }

  /** No week has more than seven days. */
  lemma {:induction false} SevenDays(days: set<int>, weeks: set<int>)
    requires forall d :: d in days ==> WeekOf(d) in weeks
    ensures |days| <= 7 * |weeks|
    decreases |weeks|
  {
    if w :| w in weeks {
      var inside := set d | d in days && WeekOf(d) == w;
      SevenDays(days - inside, weeks - {w});
      SubsetSize(inside, Range(7 * w - 4, 7));
      assert days == inside + (days - inside);
    } else {
      assert days == {};
    }
  }

  lemma CoveredIsKept(p: Policy, q: Policy, before: seq<Snapshot>, x: Snapshot)
    requires Covers(q, p) && Keeps(p, before, x) && x.week == WeekOf(x.day)
    requires forall i :: 0 <= i < |before| ==> before[i].week == WeekOf(before[i].day)
    ensures Keeps(q, before, x)
  {
    if |before| >= p.Last() {
      assert before[0].day in Days(before) && before[0].week in Weeks(before);
      NotEmpty(before);
      if x.week !in Weeks(before) && |Weeks(before)| < p.keepWeekly {
        forall d | d in Days(before) ensures WeekOf(d) in Weeks(before) {
          var i :| 0 <= i < |before| && before[i].day == d;
          assert before[i].week in Weeks(before);
        }
        SevenDays(Days(before), Weeks(before));
      }
    }
  }

  lemma NotEmpty(s: seq<Snapshot>)
    requires s != []
    ensures |Days(s)| >= 1 && |Weeks(s)| >= 1
  {
    assert s[0].day in Days(s) && s[0].week in Weeks(s);
    SubsetSize({s[0].day}, Days(s));
    SubsetSize({s[0].week}, Weeks(s));
  }

  /** Nothing but the calendar is needed for that. */
  lemma {:induction false} CoveringKeepsMore(p: Policy, q: Policy, s: seq<Snapshot>)
    requires Covers(q, p) && forall i :: 0 <= i < |s| ==> s[i].week == WeekOf(s[i].day)
    ensures forall x :: x in Survivors(p, s) ==> x in Survivors(q, s)
  {
    hide Keeps, Covers, WeekOf;
    if s != [] {
      var n := |s| - 1;
      CoveringKeepsMore(p, q, s[..n]);
      var g := Group(s[..n], KeyOf(s[n]));
      forall i | 0 <= i < |g| ensures g[i].week == WeekOf(g[i].day) {
        var k := GroupMember(s[..n], KeyOf(s[n]), i);
        assert s[k] == g[i];
      }
      if KeptAt(p, s, n) { CoveredIsKept(p, q, g, s[n]); }
    }
  }

  function DayAt(last: int, copies: nat, n: nat, i: nat): int {
    if i < copies then last + n else last + n - 1 - (i - copies)
  }

  /** Snapshots of one job: `copies` of them on the newest day, then one a day, down to day `last`. */
  function Daily(last: int, copies: nat, n: nat): (s: seq<Snapshot>)
    requires copies > 0 && n > 0
    ensures |s| == copies + n
  {
    seq(copies + n, i requires 0 <= i < copies + n =>
      Snapshot(i, Some(0), DayAt(last, copies, n, i), WeekOf(DayAt(last, copies, n, i))))
  }

  lemma {:induction false} OneJobIsAGroup(s: seq<Snapshot>)
    requires forall i :: 0 <= i < |s| ==> s[i].job == Some(0)
    ensures Group(s, OfJob(0)) == s
  {
    if s != [] {
      var n := |s| - 1;
      OneJobIsAGroup(s[..n]);
      assert s == s[..n] + [s[n]];
      GroupSnoc(s[..n], s[n], OfJob(0));
    } else {
      NoGroup(OfJob(0));
    }
  }

  lemma DailyAtIndex(last: int, copies: nat, n: nat)
    requires copies > 0 && n > 0
    ensures forall i :: 0 <= i < copies + n ==> (Daily(last, copies, n)[i].day == DayAt(last, copies, n, i)
      && Daily(last, copies, n)[i].week == WeekOf(DayAt(last, copies, n, i)) && Daily(last, copies, n)[i].job == Some(0))
    ensures Real(Daily(last, copies, n))
  {
    hide WeekOf;
  }

  /** The weeks of the `n` days after `last`. */
  function WeeksAfter(last: int, n: nat): set<int> { set d | d in Range(last, n) :: WeekOf(d) }

  /** What comes before the last of them. */
  lemma DailyBefore(last: int, copies: nat, n: nat)
    requires copies > 0 && n > 0
    ensures Real(Daily(last, copies, n))
    ensures var s := Daily(last, copies, n); var k := copies + n - 1;
      && s[k].day == last && s[k].week == WeekOf(last) && Group(s[..k], KeyOf(s[k])) == s[..k]
      && Days(s[..k]) == Range(last, n) && Weeks(s[..k]) == WeeksAfter(last, n)
  {
    hide WeekOf, Daily, Real, Group;
    DailyAtIndex(last, copies, n);
    var s, k := Daily(last, copies, n), copies + n - 1;
    OneJobIsAGroup(s[..k]);
    DaysOf(last, copies, n, s[..k]);
  }

  lemma DaysOf(last: int, copies: nat, n: nat, before: seq<Snapshot>)
    requires copies > 0 && n > 0 && |before| == copies + n - 1
    requires forall i :: 0 <= i < |before| ==> before[i].day == DayAt(last, copies, n, i) && before[i].week == WeekOf(before[i].day)
    ensures Days(before) == Range(last, n) && Weeks(before) == WeeksAfter(last, n)
  {
    hide WeekOf;
    forall d | d in Range(last, n) ensures d in Days(before) && WeekOf(d) in Weeks(before) {
      var i := if d == last + n then 0 else copies + last + n - 1 - d;
      assert before[i].day == d && before[i].week == WeekOf(d);
    }
  }

  lemma LastOfDaily(p: Policy, last: int, copies: nat, n: nat)
    requires copies > 0 && n > 0
    ensures Real(Daily(last, copies, n))
    ensures KeptAt(p, Daily(last, copies, n), copies + n - 1) <==> (
      copies + n - 1 < p.Last() || n < p.keepDaily || (WeekOf(last) !in WeeksAfter(last, n) && |WeeksAfter(last, n)| < p.keepWeekly))
  {
    assert last !in Range(last, n);
    hide Daily, Days, Weeks, WeekOf, Real, Range;
    DailyBefore(last, copies, n);
  }

  /** Fewer days are kept: the last snapshot is the first of its day and not of its week. */
  lemma TooFewDays(p: Policy, q: Policy)
    requires 1 < p.keepDaily && q.keepDaily < p.keepDaily
    ensures var n := p.keepDaily - 1; var s := Daily(-3, q.Last(), n);
      Real(s) && KeptAt(p, s, |s| - 1) && !KeptAt(q, s, |s| - 1)
  {
    hide Daily, KeptAt, Real, WeekOf, Range;
    var n := p.keepDaily - 1;
    LastOfDaily(p, -3, q.Last(), n);
    LastOfDaily(q, -3, q.Last(), n);
    SameWeek();
    assert -2 in Range(-3, n);
    assert WeekOf(-2) in WeeksAfter(-3, n);
  }

  lemma SameWeek()
    ensures WeekOf(-2) == WeekOf(-3)
  {
  }

  /** Fewer weeks are kept, and too few days: the last snapshot is the first of its week, after full weeks. */
  lemma TooFewWeeks(p: Policy, q: Policy)
    requires 1 < p.keepWeekly && q.keepWeekly < p.keepWeekly && q.keepDaily <= 7 * (p.keepWeekly - 1)
    ensures var n := 7 * (p.keepWeekly - 1); var s := Daily(3, q.Last(), n);
      Real(s) && KeptAt(p, s, |s| - 1) && !KeptAt(q, s, |s| - 1)
  {
    hide Daily, KeptAt, Real, WeekOf, Range, WeeksAfter;
    var w := p.keepWeekly - 1;
    LastOfDaily(p, 3, q.Last(), 7 * w);
    LastOfDaily(q, 3, q.Last(), 7 * w);
    FullWeeks(w);
  }

  lemma FullWeeks(w: nat)
    ensures WeeksAfter(3, 7 * w) == Range(0, w) && |Range(0, w)| == w && WeekOf(3) !in Range(0, w)
  {
    forall i | i in Range(0, w) ensures i in WeeksAfter(3, 7 * w) {
      assert WeekOf(7 * i) == i && 7 * i in Range(3, 7 * w);
    }
  }

  /** `n` snapshots of one job, all of one day. */
  function OneDay(n: nat): (s: seq<Snapshot>)
    ensures |s| == n
  {
    seq(n, i requires 0 <= i < n => Snapshot(i, Some(0), 0, 0))
  }

  /** Of one day's snapshots of a job only the last ones are kept. */
  lemma OneDayKept(p: Policy, n: nat)
    ensures Real(OneDay(n + 1)) && (KeptAt(p, OneDay(n + 1), n) <==> n < p.Last())
  {
    assert OneDay(n + 1)[..n] == OneDay(n);
    OneJobIsAGroup(OneDay(n));
    if n > 0 { assert OneDay(n)[0].day in Days(OneDay(n)) && OneDay(n)[0].week in Weeks(OneDay(n)); }
  }

  lemma {:induction false} SurvivorAt(p: Policy, s: seq<Snapshot>, k: nat)
    requires UniqueIds(s) && k < |s|
    ensures s[k] in Survivors(p, s) <==> KeptAt(p, s, k)
    decreases |s|
  {
    var n := |s| - 1;
    if k < n {
      SurvivorAt(p, s[..n], k);
      assert s[..n][..k] == s[..k];
      assert s[k] != s[n];
    } else {
      SurvivorsAreOld(p, s[..n]);
    }
  }

  lemma {:induction false} SurvivorsAreOld(p: Policy, s: seq<Snapshot>)
    ensures forall x :: x in Survivors(p, s) ==> x in s
  {
    hide KeptAt;
    if s != [] { SurvivorsAreOld(p, s[..|s| - 1]); assert s == s[..|s| - 1] + [s[|s| - 1]]; }
  }

  lemma KeptBreaks(p: Policy, q: Policy, s: seq<Snapshot>, k: nat)
    requires UniqueIds(s) && k < |s| && KeptAt(p, s, k) && !KeptAt(q, s, k)
    ensures s[k] in Survivors(p, s) && s[k] !in Survivors(q, s)
  {
    SurvivorAt(p, s, k);
    SurvivorAt(q, s, k);
  }

  /** One policy keeps a superset of what another keeps, of every list, if and only if it stands in for it. */
  lemma LargerPolicyKeepsMoreExactly(p: Policy, q: Policy)
    ensures Covers(q, p) <==> forall s :: Real(s) ==> forall x :: x in Survivors(p, s) ==> x in Survivors(q, s)
  {
    hide Survivors, KeptAt, Daily, OneDay, WeekOf;
    if Covers(q, p) {
      forall s | Real(s) ensures forall x :: x in Survivors(p, s) ==> x in Survivors(q, s) { CoveringKeepsMore(p, q, s); }
    } else if p.Last() > q.Last() {
      OneDayKept(p, q.Last());
      OneDayKept(q, q.Last());
      KeptBreaks(p, q, OneDay(q.Last() + 1), q.Last());
    } else if p.keepDaily > 1 && p.keepDaily > q.keepDaily {
      var s := Daily(-3, q.Last(), p.keepDaily - 1);
      TooFewDays(p, q);
      KeptBreaks(p, q, s, |s| - 1);
    } else {
      var s := Daily(3, q.Last(), 7 * (p.keepWeekly - 1));
      TooFewWeeks(p, q);
      KeptBreaks(p, q, s, |s| - 1);
    }
  }

  /** Raising keepLast from 0 to 1 lets a snapshot go that was kept before. */
  lemma ZeroKeepsMoreThanOne()
    ensures KeptAt(Policy(0, 0, 0), OneDay(2), 1) && !KeptAt(Policy(1, 0, 0), OneDay(2), 1)
  {
    OneDayKept(Policy(0, 0, 0), 1);
    OneDayKept(Policy(1, 0, 0), 1);
  }
}
