/**
 * The history screen's view of past uploads: the `reduce` that groups the uploads of the
 * server's answer by calendar date, and the tap on a date heading that opens or closes
 * that date's list. The locale's date rendering is the parameter `dateOf`.
 */
module History {
  import opened Wrappers

  /** The uploads of `uploads` that fall on `date`, in their original order. */
  function OnDate<U>(uploads: seq<U>, dateOf: U -> string, date: string): seq<U> {
    if uploads == [] then []
    else
      var n := |uploads| - 1;
      OnDate(uploads[..n], dateOf, date) + (if dateOf(uploads[n]) == date then [uploads[n]] else [])
  }

  /** Taking the uploads of one date commutes with concatenation: uploads that came earlier
      stay earlier inside their group. */
  lemma {:induction false} OnDateAppend<U>(a: seq<U>, b: seq<U>, dateOf: U -> string, date: string)
    ensures OnDate(a + b, dateOf, date) == OnDate(a, dateOf, date) + OnDate(b, dateOf, date)
  {
    if b == [] {
      assert a + b == a;
    } else {
      var n := |b| - 1;
      assert (a + b)[..|a + b| - 1] == a + b[..n];
      OnDateAppend(a, b[..n], dateOf, date);
    }
  }

  /** The uploads of one date are exactly the uploads whose date it is. */
  lemma {:induction false} OnDateMembers<U>(uploads: seq<U>, dateOf: U -> string, date: string)
    ensures forall x :: x in OnDate(uploads, dateOf, date) <==> x in uploads && dateOf(x) == date
  {
    if uploads != [] {
      var n := |uploads| - 1;
      OnDateMembers(uploads[..n], dateOf, date);
      assert uploads == uploads[..n] + [uploads[n]];
    }
  }

  /** A date no upload falls on has no uploads. */
  lemma {:induction false} OnDateNone<U>(uploads: seq<U>, dateOf: U -> string, date: string)
    requires forall x :: x in uploads ==> dateOf(x) != date
    ensures OnDate(uploads, dateOf, date) == []
  {
    if uploads != [] {
      OnDateNone(uploads[..|uploads| - 1], dateOf, date);
    }
  }

  /** Total size of the groups listed in `dates`. */
  function SumSizes<U>(dates: seq<string>, groups: map<string, seq<U>>): nat
    requires forall d :: d in dates ==> d in groups
  {
    if dates == [] then 0 else |groups[dates[0]]| + SumSizes(dates[1..], groups)
  }

  predicate Distinct(dates: seq<string>) {
    forall i, j :: 0 <= i < j < |dates| ==> dates[i] != dates[j]
  }

  /** Appending one upload to the group of a date already listed adds one to the total. */
  lemma {:induction false} SumSizesPush<U>(dates: seq<string>, groups: map<string, seq<U>>, date: string, u: U)
    requires forall d :: d in dates ==> d in groups
    requires Distinct(dates) && date in dates
    ensures SumSizes(dates, groups[date := groups[date] + [u]]) == SumSizes(dates, groups) + 1
  {
    if dates[0] == date {
      assert date !in dates[1..];
      SumSizesUnlisted(dates[1..], groups, date, groups[date] + [u]);
    } else {
      SumSizesPush(dates[1..], groups, date, u);
    }
  }

  /** Changing the group of a date that is not listed leaves the total alone. */
  lemma {:induction false} SumSizesUnlisted<U>(dates: seq<string>, groups: map<string, seq<U>>, date: string, group: seq<U>)
    requires forall d :: d in dates ==> d in groups
    requires date !in dates
    ensures SumSizes(dates, groups[date := group]) == SumSizes(dates, groups)
  {
    if dates != [] {
      SumSizesUnlisted(dates[1..], groups, date, group);
    }
  }

  /** Listing one more date adds the size of its group to the total. */
  lemma {:induction false} SumSizesSnoc<U>(dates: seq<string>, groups: map<string, seq<U>>, date: string)
    requires forall d :: d in dates ==> d in groups
    requires date in groups
    ensures SumSizes(dates + [date], groups) == SumSizes(dates, groups) + |groups[date]|
  {
    if dates != [] {
      assert (dates + [date])[1..] == dates[1..] + [date];
      SumSizesSnoc(dates[1..], groups, date);
    }
  }

  /** `response.data.uploads || []`. */
  function UploadsOf<U>(response: Option<seq<U>>): seq<U> {
    if response.Some? then response.value else []
  }

  /** The dates some upload falls on. */
  ghost function DatesOf<U>(uploads: seq<U>, dateOf: U -> string): set<string> {
    set u | u in uploads :: dateOf(u)
  }

  /** The dates of `uploads` in the order they are first met, each listed once. */
  function FirstSeen<U>(uploads: seq<U>, dateOf: U -> string): (r: seq<string>)
    ensures Distinct(r)
  {
    if uploads == [] then []
    else
      var p := FirstSeen(uploads[..|uploads| - 1], dateOf);
      var d := dateOf(uploads[|uploads| - 1]);
      if d in p then p else p + [d]
  }

  /** The first-seen list holds exactly the dates some upload falls on. */
  lemma {:induction false} FirstSeenMembers<U>(uploads: seq<U>, dateOf: U -> string)
    ensures forall d :: d in FirstSeen(uploads, dateOf) <==> exists j :: 0 <= j < |uploads| && dateOf(uploads[j]) == d
  {
    if uploads != [] {
      var prefix := uploads[..|uploads| - 1];
      FirstSeenMembers(prefix, dateOf);
      assert forall j :: 0 <= j < |prefix| ==> prefix[j] == uploads[j];
    }
  }

  /** Whenever a date comes before another in `r`, some upload on the earlier date precedes
      every upload on the later one. */
  ghost predicate FirstMetOrder<U>(uploads: seq<U>, dateOf: U -> string, r: seq<string>) {
    forall i, j, k :: 0 <= i < j < |r| && 0 <= k < |uploads| && dateOf(uploads[k]) == r[j] ==>
      exists m :: 0 <= m < k && dateOf(uploads[m]) == r[i]
  }

  /** The first-seen list is in first-met order: whenever a date comes before another in the list,
      some upload on the earlier date precedes every upload on the later one. */
  lemma {:induction false} FirstSeenOrder<U>(uploads: seq<U>, dateOf: U -> string)
    ensures FirstMetOrder(uploads, dateOf, FirstSeen(uploads, dateOf))
  {
    if uploads != [] {
      var n := |uploads| - 1;
      var prefix := uploads[..n];
      var p := FirstSeen(prefix, dateOf);
      var d := dateOf(uploads[n]);
      var r := FirstSeen(uploads, dateOf);
      FirstSeenOrder(prefix, dateOf);
      FirstSeenMembers(prefix, dateOf);
      assert forall x :: 0 <= x < n ==> prefix[x] == uploads[x];
      forall i, j, k | 0 <= i < j < |r| && 0 <= k < |uploads| && dateOf(uploads[k]) == r[j]
        ensures exists m :: 0 <= m < k && dateOf(uploads[m]) == r[i]
      {
        if j < |p| {
          // r[j] is in p, so some upload of the prefix falls on it; take one no later than k
          assert r[i] == p[i] && r[j] == p[j];
          assert p[j] in p;
          var k' :| 0 <= k' < n && dateOf(prefix[k']) == p[j];
          var k'' := if k < n then k else k';
          assert dateOf(prefix[k'']) == p[j];
          assert 0 <= i < j < |p| && 0 <= k'' < |prefix|;
          assert FirstMetOrder(prefix, dateOf, p);
          var m :| 0 <= m < k'' && dateOf(prefix[m]) == p[i];
          assert dateOf(uploads[m]) == r[i];
        } else {
          // r[j] is the new date d, met for the first time at position n
          assert r[j] == d && d !in p;
          assert k == n;
          assert r[i] == p[i] && p[i] in p;
          var m :| 0 <= m < n && dateOf(prefix[m]) == p[i];
          assert dateOf(uploads[m]) == r[i];
        }
      }
    }
  }

  /** One more upload appends its date to the first-seen list unless the date is already there. */
  lemma FirstSeenStep<U>(prefix: seq<U>, u: U, dateOf: U -> string)
    ensures FirstSeen(prefix + [u], dateOf) ==
      (if dateOf(u) in FirstSeen(prefix, dateOf) then FirstSeen(prefix, dateOf) else FirstSeen(prefix, dateOf) + [dateOf(u)])
  {
    assert (prefix + [u])[..|prefix|] == prefix;
  }

  /** The reduce's date list stays the first-seen list: a date gets a group exactly when it is
      met for the first time. */
  lemma FirstSeenNext<U>(prefix: seq<U>, u: U, dateOf: U -> string, dates: seq<string>, groups: map<string, seq<U>>)
    requires forall d :: d in dates <==> d in groups
    requires dates == FirstSeen(prefix, dateOf)
    ensures NextDates(dates, groups, dateOf(u)) == FirstSeen(prefix + [u], dateOf)
  {
    FirstSeenStep(prefix, u, dateOf);
  }

  /** The reduce's state after one more upload: the upload's date gets a list if it had none,
      and the upload is pushed onto that list. */
  lemma GroupStep<U>(prefix: seq<U>, u: U, dateOf: U -> string)
    ensures DatesOf(prefix + [u], dateOf) == DatesOf(prefix, dateOf) + {dateOf(u)}
    ensures forall d :: OnDate(prefix + [u], dateOf, d) == OnDate(prefix, dateOf, d) + (if dateOf(u) == d then [u] else [])
  {
    assert (prefix + [u])[..|prefix|] == prefix;
    forall d | d in DatesOf(prefix + [u], dateOf) ensures d in DatesOf(prefix, dateOf) + {dateOf(u)} {
      var v :| v in prefix + [u] && dateOf(v) == d;
      if v != u { assert v in prefix; }
    }
  }

  /** `dates` and `groups` are the date grouping of `uploads`: the dates are listed once each, in
      the order first met, they are exactly the dates some upload falls on, each date's group holds that date's uploads
      in order and is not empty, and the groups hold all uploads between them. */
  ghost predicate GroupingOf<U>(uploads: seq<U>, dateOf: U -> string, dates: seq<string>, groups: map<string, seq<U>>) {
    && Distinct(dates)
    && (forall d :: d in dates <==> d in groups)
    && groups.Keys == DatesOf(uploads, dateOf)
    && (forall d :: d in groups ==> groups[d] == OnDate(uploads, dateOf, d) && groups[d] != [])
    && SumSizes(dates, groups) == |uploads|
    && dates == FirstSeen(uploads, dateOf)
  }

  /** The date list after the reduce meets `date`: appended when new. */
  function NextDates<U>(dates: seq<string>, groups: map<string, seq<U>>, date: string): seq<string> {
    if date in groups then dates else dates + [date]
  }

  /** The groups after the reduce meets `u` on `date`: a list is created if needed and `u` is pushed. */
  function NextGroups<U>(groups: map<string, seq<U>>, date: string, u: U): map<string, seq<U>> {
    groups[date := (if date in groups then groups[date] else []) + [u]]
  }

  lemma StepGroups<U>(prefix: seq<U>, u: U, dateOf: U -> string, groups: map<string, seq<U>>)
    requires groups.Keys == DatesOf(prefix, dateOf)
    requires forall d :: d in groups ==> groups[d] == OnDate(prefix, dateOf, d) && groups[d] != []
    ensures var groups' := NextGroups(groups, dateOf(u), u);
      && groups'.Keys == DatesOf(prefix + [u], dateOf)
      && forall d :: d in groups' ==> groups'[d] == OnDate(prefix + [u], dateOf, d) && groups'[d] != []
  {
    var date := dateOf(u);
    GroupStep(prefix, u, dateOf);
    if date !in groups {
      assert forall x :: x in prefix ==> dateOf(x) in DatesOf(prefix, dateOf);
      OnDateNone(prefix, dateOf, date);
    }
  }

  lemma StepSum<U>(dates: seq<string>, groups: map<string, seq<U>>, date: string, u: U)
    requires Distinct(dates)
    requires forall d :: d in dates <==> d in groups
    ensures var dates' := NextDates(dates, groups, date);
      var groups' := NextGroups(groups, date, u);
      && Distinct(dates')
      && (forall d :: d in dates' <==> d in groups')
      && SumSizes(dates', groups') == SumSizes(dates, groups) + 1
  {
    if date !in groups {
      assert [] + [u] == [u];
      assert NextGroups(groups, date, u) == groups[date := [u]];
      SumSizesUnlisted(dates, groups, date, [u]);
      SumSizesSnoc(dates, groups[date := [u]], date);
    } else {
      SumSizesPush(dates, groups, date, u);
    }
  }

  /** One step of the reduce keeps the grouping: the date of the next upload gets an empty list if
      it has none (and is listed last), then the upload is pushed onto that list. */
  lemma GroupingStep<U>(prefix: seq<U>, u: U, dateOf: U -> string, dates: seq<string>, groups: map<string, seq<U>>)
    requires GroupingOf(prefix, dateOf, dates, groups)
    ensures GroupingOf(prefix + [u], dateOf, NextDates(dates, groups, dateOf(u)), NextGroups(groups, dateOf(u), u))
  {
    StepGroups(prefix, u, dateOf, groups);
    StepSum(dates, groups, dateOf(u), u);
    FirstSeenNext(prefix, u, dateOf, dates, groups);
  }

  /** `GroupingStep` at position `i` of the upload list. */
  lemma GroupingAdvance<U>(uploads: seq<U>, i: nat, dateOf: U -> string, dates: seq<string>, groups: map<string, seq<U>>)
    requires i < |uploads| && GroupingOf(uploads[..i], dateOf, dates, groups)
    ensures GroupingOf(uploads[..i + 1], dateOf, NextDates(dates, groups, dateOf(uploads[i])),
                       NextGroups(groups, dateOf(uploads[i]), uploads[i]))
  {
    assert uploads[..i + 1] == uploads[..i] + [uploads[i]];
    GroupingStep(uploads[..i], uploads[i], dateOf, dates, groups);
  }

  /** The `reduce` of `fetchHistory`: every upload is pushed onto the list of its date, a date's
      list being created the first time the date is met. `dates` is the order in which the dates
      were first met, which is the order the screen lists them in. */
  method GroupByDate<U(==)>(response: Option<seq<U>>, dateOf: U -> string)
    returns (dates: seq<string>, groups: map<string, seq<U>>)
    ensures Distinct(dates)
    ensures forall d :: d in dates <==> d in groups
    ensures groups.Keys == DatesOf(UploadsOf(response), dateOf)
    ensures forall d :: d in groups ==> groups[d] == OnDate(UploadsOf(response), dateOf, d) && groups[d] != []
    ensures SumSizes(dates, groups) == |UploadsOf(response)|
    ensures dates == FirstSeen(UploadsOf(response), dateOf)
  {
    var uploads := UploadsOf(response);
    dates, groups := [], map[];
    for i := 0 to |uploads|
      invariant GroupingOf(uploads[..i], dateOf, dates, groups)
    {
      var upload := uploads[i];
      var date := dateOf(upload);
      ghost var dates', groups' := NextDates(dates, groups, date), NextGroups(groups, date, upload);
      GroupingAdvance(uploads, i, dateOf, dates, groups);
      var list := if date in groups then groups[date] else [];
      if date !in groups {
        dates := dates + [date];
      }
      groups := groups[date := list + [upload]];
      assert dates == dates' && groups == groups';
    }
    assert uploads[..|uploads|] == uploads;
  }

  /** Every upload is listed under its own date, and a response without an upload list gives
      no groups at all. */
  lemma EveryUploadListed<U>(response: Option<seq<U>>, dateOf: U -> string, groups: map<string, seq<U>>)
    requires groups.Keys == DatesOf(UploadsOf(response), dateOf)
    requires forall d :: d in groups ==> groups[d] == OnDate(UploadsOf(response), dateOf, d)
    ensures forall u :: u in UploadsOf(response) ==> dateOf(u) in groups && u in groups[dateOf(u)]
    ensures response.None? ==> groups == map[]
  {
    forall u | u in UploadsOf(response) ensures dateOf(u) in groups && u in groups[dateOf(u)] {
      OnDateMembers(UploadsOf(response), dateOf, dateOf(u));
    }
  }

  /** Tapping a date heading: the open date closes, any other date opens. */
  function ToggleDate(selected: Option<string>, date: string): (r: Option<string>)
    ensures r.None? <==> selected == Some(date)
    ensures r.Some? ==> r == Some(date)
  {
    if selected == Some(date) then None else Some(date)
  }

  /** Two taps on one heading restore the earlier state exactly when nothing or that same date
      was open before; when another date was open, the two taps leave everything closed. */
  lemma ToggleTwice(selected: Option<string>, date: string)
    ensures ToggleDate(ToggleDate(selected, date), date) == selected <==> selected.None? || selected == Some(date)
    ensures selected.Some? && selected != Some(date) ==> ToggleDate(ToggleDate(selected, date), date).None?
  {
  }
}
