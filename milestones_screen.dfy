/** app/screens/onboarding/milestonesScreen.tsx: the milestone form, whose add handler
    guards on the entered fields, appends to the store and resets the form, and the
    list of milestones shown sorted by date. */
module MilestonesScreen {
  import opened Wrappers
  import opened Lists
  import opened Types
  import opened StoreModel
  import AppStore

  /** The milestone the form adds: it carries no `completed` flag. */
  function NewMilestone(name: string, metric: string, date: Date): Milestone {
    Milestone(name, Some(metric), date, None)
  }

  /** The form's local state. */
  class MilestoneForm {
    var milestoneName: string
    var milestoneMetric: string
    var milestoneDate: Date

    /** A blank form dated at the instant `now` it is opened. */
    constructor (now: Date)
      ensures milestoneName == "" && milestoneMetric == "" && milestoneDate == now
    {
      milestoneName, milestoneMetric, milestoneDate := "", "", now;
    }

    /** `handleAddMilestone`: with a name and a metric entered, appends the milestone
        to the store and clears the form, dating it at `now`; otherwise does nothing.
        The date is a `Date` object and never blocks the guard. */
    method HandleAddMilestone(store: AppStore.Store, now: Date)
      modifies this, store
      ensures old(milestoneName) != "" && old(milestoneMetric) != "" ==>
        store.State() == AddMilestone(old(store.State()),
          NewMilestone(old(milestoneName), old(milestoneMetric), old(milestoneDate))) &&
        milestoneName == "" && milestoneMetric == "" && milestoneDate == now
      ensures old(milestoneName) == "" || old(milestoneMetric) == "" ==>
        store.State() == old(store.State()) && unchanged(this)
    {
      if milestoneName != "" && milestoneMetric != "" {
        store.AddMilestone(NewMilestone(milestoneName, milestoneMetric, milestoneDate));
        milestoneName, milestoneMetric, milestoneDate := "", "", now;
      }
    }
  }

  /** Continue calls `completeMilestones` with no minimum number of milestones. */
  method Continue(store: AppStore.Store)
    modifies store
    ensures store.State() == CompleteMilestones(old(store.State()))
  {
    store.CompleteMilestones();
  }

  predicate SortedByDate(ms: seq<Milestone>) {
    forall i, j :: 0 <= i < j < |ms| ==> ms[i].date <= ms[j].date
  }

  /** No milestone of `ms` is dated before `d`. */
  predicate NotBefore(d: Date, ms: seq<Milestone>) {
    forall k :: 0 <= k < |ms| ==> d <= ms[k].date
  }

  /** Reordering a list keeps every milestone on or after a given date. */
  lemma ReorderedNotBefore(d: Date, a: seq<Milestone>, b: seq<Milestone>)
    requires multiset(a) == multiset(b) && NotBefore(d, b)
    ensures NotBefore(d, a)
  {
    forall k | 0 <= k < |a| ensures d <= a[k].date {
      assert a[k] in multiset(b);
      var j :| 0 <= j < |b| && b[j] == a[k];
    }
  }

  /** A sorted list, then a milestone dated no earlier than its head, lies on or after
      its head's date past the head. */
  lemma TailNotBefore(m: Milestone, sorted: seq<Milestone>)
    requires SortedByDate(sorted) && sorted != [] && sorted[0].date < m.date
    ensures NotBefore(sorted[0].date, sorted[1..] + [m])
    ensures multiset(sorted[1..] + [m]) == multiset(sorted[1..]) + multiset{m}
  {
  }

  /** A milestone dated no later than a sorted list goes in front of it. */
  lemma ConsSorted(x: Milestone, rest: seq<Milestone>)
    requires SortedByDate(rest) && NotBefore(x.date, rest)
    ensures SortedByDate([x] + rest)
  {
    var r := [x] + rest;
    forall i, j | 0 <= i < j < |r| ensures r[i].date <= r[j].date {
      assert r[j] == rest[j - 1];
      if i > 0 { assert r[i] == rest[i - 1]; }
    }
  }

  /** Inserts `m` in front of the first milestone not dated before it, so that `m`
      stays ahead of the milestones with the same date. */
  function InsertByDate(m: Milestone, sorted: seq<Milestone>): (r: seq<Milestone>)
    requires SortedByDate(sorted)
    ensures SortedByDate(r)
    ensures multiset(r) == multiset(sorted) + multiset{m}
    ensures |r| == |sorted| + 1
  {
    if sorted == [] || m.date <= sorted[0].date then
      assert NotBefore(m.date, sorted) by {
        if sorted != [] {
          assert forall k :: 0 <= k < |sorted| ==> sorted[0].date <= sorted[k].date;
        }
      }
      ConsSorted(m, sorted);
      [m] + sorted
    else
      var rest := InsertByDate(m, sorted[1..]);
      TailNotBefore(m, sorted);
      ReorderedNotBefore(sorted[0].date, rest, sorted[1..] + [m]);
      ConsSorted(sorted[0], rest);
      assert sorted == [sorted[0]] + sorted[1..];
      [sorted[0]] + rest
  }

  /** `[...milestones].sort((a, b) => a.date - b.date)`: a sorted copy of the list, the
      list in the store keeping its order. */
  function SortedMilestones(ms: seq<Milestone>): (r: seq<Milestone>)
    ensures SortedByDate(r)
    ensures multiset(r) == multiset(ms)
    ensures |r| == |ms|
  {
    if ms == [] then []
    else
      assert ms == [ms[0]] + ms[1..];
      InsertByDate(ms[0], SortedMilestones(ms[1..]))
  }

  /** The milestones dated at instant `d`. */
  function DatedOn(d: Date): Milestone -> bool {
    (m: Milestone) => m.date == d
  }

  /** Inserting `m` puts it ahead of the milestones with its date and leaves the
      others of each date in their order. */
  lemma {:induction false} InsertByDateStable(m: Milestone, sorted: seq<Milestone>, d: Date)
    requires SortedByDate(sorted)
    ensures Filter(InsertByDate(m, sorted), DatedOn(d)) ==
      (if m.date == d then [m] else []) + Filter(sorted, DatedOn(d))
  {
    if sorted == [] || m.date <= sorted[0].date {
      assert InsertByDate(m, sorted) == [m] + sorted;
      FilterCons(m, sorted, DatedOn(d));
    } else {
      var h, t := sorted[0], sorted[1..];
      InsertByDateStable(m, t, d);
      assert InsertByDate(m, sorted) == [h] + InsertByDate(m, t);
      assert sorted == [h] + t;
      BehindStable(m, h, t, InsertByDate(m, t), d);
    }
  }

  /** Putting a milestone `h` dated before `m` in front of both sides keeps the
      milestones of each date in order. */
  lemma BehindStable(m: Milestone, h: Milestone, t: seq<Milestone>, rest: seq<Milestone>, d: Date)
    requires h.date < m.date
    requires Filter(rest, DatedOn(d)) == (if m.date == d then [m] else []) + Filter(t, DatedOn(d))
    ensures Filter([h] + rest, DatedOn(d)) == (if m.date == d then [m] else []) + Filter([h] + t, DatedOn(d))
  {
    FilterCons(h, rest, DatedOn(d));
    FilterCons(h, t, DatedOn(d));
  }

  /** Filtering a list with a given first element. */
  lemma FilterCons(x: Milestone, s: seq<Milestone>, p: Milestone -> bool)
    ensures Filter([x] + s, p) == (if p(x) then [x] else []) + Filter(s, p)
  {
    assert ([x] + s)[1..] == s;
  }

  /** The sort is stable, like `Array.prototype.sort`: the milestones of any one date
      are shown in the order the store holds them. */
  lemma {:induction false} SortedMilestonesStable(ms: seq<Milestone>, d: Date)
    ensures Filter(SortedMilestones(ms), DatedOn(d)) == Filter(ms, DatedOn(d))
  {
    if ms != [] {
      SortedMilestonesStable(ms[1..], d);
      InsertByDateStable(ms[0], SortedMilestones(ms[1..]), d);
    }
  }

  /** A list already in date order is shown as it is. */
  lemma {:induction false} SortedMilestonesKeepsSorted(ms: seq<Milestone>)
    requires SortedByDate(ms)
    ensures SortedMilestones(ms) == ms
  {
    if ms != [] {
      assert SortedByDate(ms[1..]);
      SortedMilestonesKeepsSorted(ms[1..]);
    }
  }
}
