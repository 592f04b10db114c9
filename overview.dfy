/**
 * The dashboard's landing view (`DashboardOverview` in components/DashboardPage.tsx): the four
 * statistic cards, the alert list and the table of the five most recently arrived animals.
 */
module Overview {
  import opened Wrappers
  import opened Values
  import Text
  import Navigation

  const Maintenance := Str("Em Manutenção")
  const Observation := Str("Em Observação")
  const Operational := Str("Operacional")
  const OnDuty := Str("Ativo")

  datatype Stats = Stats(totalAnimals: nat, activeHabitats: nat, keepersOnShift: nat, pendingAlerts: nat)

  /** The four statistic cards. */
  function Statistics(animals: seq<Rec>, keepers: seq<Rec>, habitats: seq<Rec>): (s: Stats)
    ensures s.totalAnimals == |animals|
    ensures s.activeHabitats <= |habitats| && s.keepersOnShift <= |keepers|
    ensures s.pendingAlerts <= |habitats| + |animals|
    ensures s.activeHabitats == |Matching(habitats, "status", Operational)|
    ensures s.keepersOnShift == |Matching(keepers, "status", OnDuty)|
    ensures s.pendingAlerts == |Matching(habitats, "status", Maintenance)| + |Matching(animals, "status", Observation)|
  {
    Stats(
      |animals|,
      |Matching(habitats, "status", Operational)|,
      |Matching(keepers, "status", OnDuty)|,
      |Matching(habitats, "status", Maintenance)| + |Matching(animals, "status", Observation)|)
  }

  /**
   * The active-habitat card counts exactly the habitats that are "Operacional" and the on-shift
   * card exactly the keepers that are "Ativo"; each is zero exactly when no such record exists.
   */
  lemma StatisticsMeaning(animals: seq<Rec>, keepers: seq<Rec>, habitats: seq<Rec>)
    ensures var s := Statistics(animals, keepers, habitats);
      && (forall h :: h in Matching(habitats, "status", Operational) <==> h in habitats && Field(h, "status") == Operational)
      && (forall k :: k in Matching(keepers, "status", OnDuty) <==> k in keepers && Field(k, "status") == OnDuty)
      && (s.activeHabitats == 0 <==> forall i :: 0 <= i < |habitats| ==> Field(habitats[i], "status") != Operational)
      && (s.keepersOnShift == 0 <==> forall i :: 0 <= i < |keepers| ==> Field(keepers[i], "status") != OnDuty)
  {
    forall h ensures h in Matching(habitats, "status", Operational) <==> h in habitats && Field(h, "status") == Operational {
      MatchingComplete(habitats, "status", Operational, h);
    }
    forall k ensures k in Matching(keepers, "status", OnDuty) <==> k in keepers && Field(k, "status") == OnDuty {
      MatchingComplete(keepers, "status", OnDuty, k);
    }
    MatchingEmpty(habitats, "status", Operational);
    MatchingEmpty(keepers, "status", OnDuty);
  }

  /** The alert list: one link per habitat under maintenance, then one per animal under observation. */
  function Alerts(animals: seq<Rec>, habitats: seq<Rec>): seq<Navigation.View>
  {
    DetailLinks(Matching(habitats, "status", Maintenance), "habitatDetails")
      + DetailLinks(Matching(animals, "status", Observation), "animalDetails")
  }

  /** One `navigateTo({ page, params: { id } })` target per record, in order. */
  function DetailLinks(recs: seq<Rec>, page: string): (r: seq<Navigation.View>)
    ensures |r| == |recs|
    ensures forall i :: 0 <= i < |recs| ==> r[i] == Navigation.View(page, Some(recs[i].id))
  {
    if recs == [] then [] else [Navigation.View(page, Some(recs[0].id))] + DetailLinks(recs[1..], page)
  }

  /** The "Nenhum alerta pendente." placeholder is shown when both alert sources are empty. */
  predicate ShowsNoAlerts(animals: seq<Rec>, habitats: seq<Rec>)
  {
    |Matching(habitats, "status", Maintenance)| == 0 && |Matching(animals, "status", Observation)| == 0
  }

  /**
   * The pending-alerts card counts exactly the alert list's entries; it is zero exactly when no
   * habitat is under maintenance and no animal under observation, which is when the placeholder
   * is shown; and every alert leads to a drill-down page, so following it pushes onto the history.
   */
  lemma AlertsAgree(animals: seq<Rec>, keepers: seq<Rec>, habitats: seq<Rec>)
    ensures Statistics(animals, keepers, habitats).pendingAlerts == |Alerts(animals, habitats)|
    ensures Statistics(animals, keepers, habitats).pendingAlerts == 0 <==>
      (forall i :: 0 <= i < |habitats| ==> Field(habitats[i], "status") != Maintenance) &&
      (forall i :: 0 <= i < |animals| ==> Field(animals[i], "status") != Observation)
    ensures ShowsNoAlerts(animals, habitats) <==> Statistics(animals, keepers, habitats).pendingAlerts == 0
    ensures forall v :: v in Alerts(animals, habitats) ==> !Navigation.IsTopLevel(v.page)
  {
    MatchingEmpty(habitats, "status", Maintenance);
    MatchingEmpty(animals, "status", Observation);
    LinksAreDrillDowns(Matching(habitats, "status", Maintenance), "habitatDetails");
    LinksAreDrillDowns(Matching(animals, "status", Observation), "animalDetails");
  }

  /** Links to a page that is not a section never reach the top level. */
  lemma LinksAreDrillDowns(recs: seq<Rec>, page: string)
    requires !Navigation.IsTopLevel(page)
    ensures forall v :: v in DetailLinks(recs, page) ==> !Navigation.IsTopLevel(v.page)
  {
    var links := DetailLinks(recs, page);
    forall v | v in links
      ensures v.page == page
    {
      var i :| 0 <= i < |links| && links[i] == v;
    }
  }

  /** The ordering key of `new Date(a.arrivalDate)`: the digits of a YYYY-MM-DD date as a number. */
  function DateKey(a: Rec): int
  {
    match Field(a, "arrivalDate")
    case Str(s) => Text.DigitsValue(Text.DigitsOnly(s))
    case _ => 0
  }

  /** Most recent arrival first. */
  ghost predicate SortedDesc(s: seq<Rec>)
  {
    forall i, j :: 0 <= i < j < |s| ==> DateKey(s[i]) >= DateKey(s[j])
  }

  /** Places `x` after every record strictly more recent and before the rest. */
  function InsertDesc(x: Rec, s: seq<Rec>): (r: seq<Rec>)
    ensures |r| == |s| + 1
    ensures multiset(r) == multiset(s) + multiset{x}
    ensures forall k :: 0 <= k < |r| ==> r[k] == x || r[k] in s
  {
    if s == [] || DateKey(s[0]) <= DateKey(x) then
      [x] + s
    else
      assert s == [s[0]] + s[1..];
      [s[0]] + InsertDesc(x, s[1..])
  }

  /** Inserting into a sorted sequence keeps it sorted. */
  lemma {:induction false} InsertDescSorted(x: Rec, s: seq<Rec>)
    requires SortedDesc(s)
    ensures SortedDesc(InsertDesc(x, s))
  {
    if s == [] || DateKey(s[0]) <= DateKey(x) {
      forall k | 0 <= k < |s| ensures DateKey(s[k]) <= DateKey(x) {
        assert DateKey(s[k]) <= DateKey(s[0]);
      }
      ConsSorted(x, s);
    } else {
      var t := InsertDesc(x, s[1..]);
      SortedTail(s);
      InsertDescSorted(x, s[1..]);
      forall k | 0 <= k < |t| ensures DateKey(t[k]) <= DateKey(s[0]) {
        if t[k] != x {
          var m :| 0 <= m < |s[1..]| && s[1..][m] == t[k];
          assert s[1..][m] == s[m + 1];
        }
      }
      ConsSorted(s[0], t);
    }
  }

  /** Dropping the most recent record keeps the rest sorted. */
  lemma SortedTail(s: seq<Rec>)
    requires s != [] && SortedDesc(s)
    ensures SortedDesc(s[1..])
  {
    var tail := s[1..];
    forall i, j | 0 <= i < j < |tail| ensures DateKey(tail[i]) >= DateKey(tail[j]) {
      assert tail[i] == s[i + 1] && tail[j] == s[j + 1];
    }
  }

  /** A record no less recent than every record of a sorted sequence can go in front of it. */
  lemma ConsSorted(h: Rec, t: seq<Rec>)
    requires SortedDesc(t)
    requires forall k :: 0 <= k < |t| ==> DateKey(t[k]) <= DateKey(h)
    ensures SortedDesc([h] + t)
  {
    var r := [h] + t;
    forall i, j | 0 <= i < j < |r| ensures DateKey(r[i]) >= DateKey(r[j]) {
      assert r[j] == t[j - 1];
      if i > 0 {
        assert r[i] == t[i - 1];
      }
    }
  }

  /** `[...animals].sort((a, b) => date(b) - date(a))`, as the stable insertion sort. */
  function SortDesc(s: seq<Rec>): (r: seq<Rec>)
    ensures |r| == |s|
    ensures multiset(r) == multiset(s)
  {
    if s == [] then []
    else
      assert s == [s[0]] + s[1..];
      InsertDesc(s[0], SortDesc(s[1..]))
  }

  /** The sorted copy is ordered most recent first. */
  lemma {:induction false} SortDescSorted(s: seq<Rec>)
    ensures SortedDesc(SortDesc(s))
  {
    if s != [] {
      SortDescSorted(s[1..]);
      InsertDescSorted(s[0], SortDesc(s[1..]));
    }
  }

  function Min(a: int, b: int): int { if a < b then a else b }

  /** `.slice(0, 5)` of the sorted copy. */
  function RecentAnimals(animals: seq<Rec>): seq<Rec>
  {
    var sorted := SortDesc(animals);
    sorted[..Min(5, |sorted|)]
  }

  /**
   * The recent-arrivals table holds five animals (all of them when there are fewer), most recent
   * first, each one an animal of the collection; every animal left out arrived no later than
   * every animal shown.
   */
  lemma RecentAnimalsSpec(animals: seq<Rec>)
    ensures var r := RecentAnimals(animals);
      && |r| == Min(5, |animals|)
      && SortedDesc(r)
      && multiset(r) <= multiset(animals)
      && forall x, k :: x in multiset(animals) - multiset(r) && 0 <= k < |r| ==> DateKey(x) <= DateKey(r[k])
  {
    var sorted := SortDesc(animals);
    SortDescSorted(animals);
    var n := Min(5, |sorted|);
    TakeSorted(sorted, n);
    TakeKeepsLatest(sorted, n);
  }

  /** A prefix of a sorted sequence is sorted and drawn from it. */
  lemma TakeSorted(s: seq<Rec>, n: nat)
    requires SortedDesc(s) && n <= |s|
    ensures SortedDesc(s[..n])
    ensures multiset(s[..n]) <= multiset(s)
  {
    var r := s[..n];
    assert s == r + s[n..];
    forall i, j | 0 <= i < j < |r| ensures DateKey(r[i]) >= DateKey(r[j]) {
      assert r[i] == s[i] && r[j] == s[j];
    }
  }

  /** Every record a prefix of a sorted sequence leaves out is no more recent than any it keeps. */
  lemma TakeKeepsLatest(s: seq<Rec>, n: nat)
    requires SortedDesc(s) && n <= |s|
    ensures forall x, k :: x in multiset(s) - multiset(s[..n]) && 0 <= k < n ==> DateKey(x) <= DateKey(s[..n][k])
  {
    var r := s[..n];
    var rest := s[n..];
    assert s == r + rest;
    assert multiset(s) == multiset(r) + multiset(rest);
    forall x, k | x in multiset(s) - multiset(r) && 0 <= k < n
      ensures DateKey(x) <= DateKey(r[k])
    {
      assert x in multiset(rest);
      var j :| 0 <= j < |rest| && rest[j] == x;
      assert s[n + j] == x && s[k] == r[k];
    }
  }
}
