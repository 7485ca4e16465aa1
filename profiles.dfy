/**
 * The profile shapes the dashboard reads from the proxy's JSON body, and the
 * "today's accepted submissions, one per problem" filter applied to each profile.
 */
module Profiles {
  import opened Wrappers
  import opened Sequences

  datatype SubmissionStats = SubmissionStats(count: int, difficulty: string)

  datatype Submission = Submission(
    title: string,
    titleSlug: string,
    statusDisplay: string,
    timestamp: int,   // seconds since the epoch
    lang: string)

  datatype UserProfile = UserProfile(userAvatar: string)

  /** `matchedUser`; its `submitStats` object is flattened to the `acSubmissionNum` list it holds. */
  datatype MatchedUser = MatchedUser(
    username: string,
    profile: Option<UserProfile>,
    acSubmissionNum: seq<SubmissionStats>,
    submissionCalendar: string)

  /**
   * A parsed response body. Every part the client tests or dereferences may be
   * missing at run time, so those are options; `error` is the body's error text,
   * with "" standing for an absent field (both are falsy to the client).
   */
  datatype ProfileData = ProfileData(
    error: string,
    matchedUser: Option<MatchedUser>,
    recentSubmissionList: Option<seq<Submission>>)

  const Accepted := "Accepted"

  /** A submission that survives the first two filters. */
  predicate Qualifies(s: Submission, startOfDay: int)
  {
    s.timestamp >= startOfDay && s.statusDisplay == Accepted
  }

  /** The first two filters: made since the start of the day, then accepted. */
  function Qualifying(subs: seq<Submission>, startOfDay: int): seq<Submission>
  {
    Filter(Filter(subs, (s: Submission) => s.timestamp >= startOfDay),
           (s: Submission) => s.statusDisplay == Accepted)
  }

  /** `arr.findIndex(s => s.titleSlug === slug)`: the first index with that slug, or -1. */
  function FindSlug(arr: seq<Submission>, slug: string): (r: int)
    ensures -1 <= r < |arr|
    ensures r == -1 ==> forall j :: 0 <= j < |arr| ==> arr[j].titleSlug != slug
    ensures 0 <= r ==> arr[r].titleSlug == slug && forall j :: 0 <= j < r ==> arr[j].titleSlug != slug
  {
    if arr == [] then -1
    else if arr[0].titleSlug == slug then 0
    else
      var k := FindSlug(arr[1..], slug);
      if k == -1 then -1 else k + 1
  }

  /** An entry whose slug no earlier entry has is where `findIndex` finds that slug. */
  lemma FindSlugAt(arr: seq<Submission>, k: nat)
    requires k < |arr|
    requires forall j :: 0 <= j < k ==> arr[j].titleSlug != arr[k].titleSlug
    ensures FindSlug(arr, arr[k].titleSlug) == k
  {
  }

  /** Every entry of `arr` has a slug of its own. */
  ghost predicate UniqueSlugs(arr: seq<Submission>)
  {
    forall a, b :: 0 <= a < b < |arr| ==> arr[a].titleSlug != arr[b].titleSlug
  }

  /**
   * The third filter, from index `i` on: keeps `arr[k]` exactly when `findIndex`
   * over the whole of `arr` finds its slug at `k`, i.e. when it is the first
   * entry of `arr` with that slug.
   */
  function KeepFirstFrom(arr: seq<Submission>, i: nat): (r: seq<Submission>)
    requires i <= |arr|
    ensures IsSubsequence(r, arr[i..])
    decreases |arr| - i
  {
    if i == |arr| then []
    else if FindSlug(arr, arr[i].titleSlug) == i then
      var tail := KeepFirstFrom(arr, i + 1);
      assert arr[i..][1..] == arr[i + 1..];
      assert ([arr[i]] + tail)[1..] == tail;
      [arr[i]] + tail
    else
      assert arr[i..][1..] == arr[i + 1..];
      KeepFirstFrom(arr, i + 1)
  }

  /**
   * What the third filter keeps from index `i` on: only entries that `findIndex`
   * finds at their own index (at or after `i`), and every such entry.
   */
  lemma {:induction false} KeepFirstMembers(arr: seq<Submission>, i: nat)
    requires i <= |arr|
    ensures forall x :: x in KeepFirstFrom(arr, i) ==>
              i <= FindSlug(arr, x.titleSlug) && arr[FindSlug(arr, x.titleSlug)] == x
    ensures forall k :: i <= k < |arr| && FindSlug(arr, arr[k].titleSlug) == k ==> arr[k] in KeepFirstFrom(arr, i)
    decreases |arr| - i
  {
    if i < |arr| {
      KeepFirstMembers(arr, i + 1);
    }
  }

  /** An entry the third filter keeps shares its slug with nothing it keeps later. */
  lemma KeepFirstLaterSlugsDiffer(arr: seq<Submission>, i: nat)
    requires i < |arr| && FindSlug(arr, arr[i].titleSlug) == i
    ensures forall x :: x in KeepFirstFrom(arr, i + 1) ==> x.titleSlug != arr[i].titleSlug
  {
    KeepFirstMembers(arr, i + 1);
  }

  /** The entries of `r` come in the order in which their slugs first occur in `arr`. */
  ghost predicate InFirstOccurrenceOrder(arr: seq<Submission>, r: seq<Submission>)
  {
    forall a, b :: 0 <= a < b < |r| ==> FindSlug(arr, r[a].titleSlug) < FindSlug(arr, r[b].titleSlug)
  }

  /** What the third filter keeps from index `i` on has its slug's first occurrence at or after `i`. */
  lemma {:induction false} KeepFirstFromAfter(arr: seq<Submission>, i: nat)
    requires i <= |arr|
    ensures forall j :: 0 <= j < |KeepFirstFrom(arr, i)| ==> i <= FindSlug(arr, KeepFirstFrom(arr, i)[j].titleSlug)
    decreases |arr| - i
  {
    if i < |arr| {
      KeepFirstFromAfter(arr, i + 1);
      var tail := KeepFirstFrom(arr, i + 1);
      if FindSlug(arr, arr[i].titleSlug) == i {
        var r := [arr[i]] + tail;
        assert KeepFirstFrom(arr, i) == r;
        forall j | 0 < j < |r|
          ensures i <= FindSlug(arr, r[j].titleSlug)
        {
          assert r[j] == tail[j - 1];
        }
      }
    }
  }

  /** An entry whose slug occurs before every slug of an ordered list can lead it. */
  lemma PrependInOrder(arr: seq<Submission>, x: Submission, tail: seq<Submission>)
    requires InFirstOccurrenceOrder(arr, tail)
    requires forall j :: 0 <= j < |tail| ==> FindSlug(arr, x.titleSlug) < FindSlug(arr, tail[j].titleSlug)
    ensures InFirstOccurrenceOrder(arr, [x] + tail)
  {
    var r := [x] + tail;
    forall a, b | 0 <= a < b < |r|
      ensures FindSlug(arr, r[a].titleSlug) < FindSlug(arr, r[b].titleSlug)
    {
      assert r[b] == tail[b - 1];
      if a > 0 {
        assert r[a] == tail[a - 1];
        assert FindSlug(arr, tail[a - 1].titleSlug) < FindSlug(arr, tail[b - 1].titleSlug);
      } else {
        assert FindSlug(arr, x.titleSlug) < FindSlug(arr, tail[b - 1].titleSlug);
      }
    }
  }

  /** The third filter keeps its survivors in the order of their slugs' first occurrences. */
  lemma {:induction false} KeepFirstOrdered(arr: seq<Submission>, i: nat)
    requires i <= |arr|
    ensures InFirstOccurrenceOrder(arr, KeepFirstFrom(arr, i))
    decreases |arr| - i
  {
    if i < |arr| {
      KeepFirstOrdered(arr, i + 1);
      var tail := KeepFirstFrom(arr, i + 1);
      if FindSlug(arr, arr[i].titleSlug) == i {
        assert KeepFirstFrom(arr, i) == [arr[i]] + tail;
        KeepFirstFromAfter(arr, i + 1);
        PrependInOrder(arr, arr[i], tail);
      } else {
        assert KeepFirstFrom(arr, i) == tail;
      }
    }
  }

  /** The third filter leaves one entry per slug. */
  lemma {:induction false} KeepFirstUniqueSlugs(arr: seq<Submission>, i: nat)
    requires i <= |arr|
    ensures UniqueSlugs(KeepFirstFrom(arr, i))
    decreases |arr| - i
  {
    if i < |arr| {
      KeepFirstUniqueSlugs(arr, i + 1);
      var tail := KeepFirstFrom(arr, i + 1);
      if FindSlug(arr, arr[i].titleSlug) == i {
        KeepFirstLaterSlugsDiffer(arr, i);
        var r := [arr[i]] + tail;
        assert KeepFirstFrom(arr, i) == r;
        forall a, b | 0 <= a < b < |r| ensures r[a].titleSlug != r[b].titleSlug {
          assert r[b] == tail[b - 1] && r[b] in tail;
          if a > 0 {
            assert r[a] == tail[a - 1];
          }
        }
      }
    }
  }

  /** The first entry of `subs` that qualifies and has the given slug, if any. */
  function FirstQualifying(subs: seq<Submission>, startOfDay: int, slug: string): Option<Submission>
  {
    if subs == [] then None
    else if Qualifies(subs[0], startOfDay) && subs[0].titleSlug == slug then Some(subs[0])
    else FirstQualifying(subs[1..], startOfDay, slug)
  }

  /** One step of the first two filters: the head survives exactly when it qualifies. */
  lemma QualifyingStep(subs: seq<Submission>, startOfDay: int)
    requires subs != []
    ensures Qualifying(subs, startOfDay) ==
      (if Qualifies(subs[0], startOfDay) then [subs[0]] else []) + Qualifying(subs[1..], startOfDay)
  {
    var since := (s: Submission) => s.timestamp >= startOfDay;
    var accepted := (s: Submission) => s.statusDisplay == Accepted;
    if since(subs[0]) {
      var f := Filter(subs, since);
      assert f == [subs[0]] + Filter(subs[1..], since);
      assert f[0] == subs[0] && f[1..] == Filter(subs[1..], since);
    }
  }

  /**
   * Over the qualifying entries, `findIndex` lands on the first qualifying entry
   * of the input with that slug.
   */
  lemma {:induction false} FindSlugInQualifying(subs: seq<Submission>, startOfDay: int, slug: string)
    ensures var arr := Qualifying(subs, startOfDay);
            var k := FindSlug(arr, slug);
            FirstQualifying(subs, startOfDay, slug) == if k < 0 then None else Some(arr[k])
  {
    if subs != [] {
      QualifyingStep(subs, startOfDay);
      FindSlugInQualifying(subs[1..], startOfDay, slug);
      var arr := Qualifying(subs, startOfDay);
      if Qualifies(subs[0], startOfDay) {
        assert arr[0] == subs[0];
        assert arr[1..] == Qualifying(subs[1..], startOfDay);
      }
    }
  }

  /** The whole chain of the dashboard: since `startOfDay`, then accepted, then the first of each slug. */
  function TodaysAccepted(subs: seq<Submission>, startOfDay: int): seq<Submission>
  {
    KeepFirstFrom(Qualifying(subs, startOfDay), 0)
  }

  /**
   * The result keeps the input order and holds only entries made since the start
   * of the day whose status is "Accepted".
   */
  lemma TodaysAcceptedQualifies(subs: seq<Submission>, startOfDay: int)
    ensures IsSubsequence(TodaysAccepted(subs, startOfDay), subs)
    ensures forall x :: x in TodaysAccepted(subs, startOfDay) ==>
              x.timestamp >= startOfDay && x.statusDisplay == Accepted
  {
    var since := Filter(subs, (s: Submission) => s.timestamp >= startOfDay);
    var arr := Filter(since, (s: Submission) => s.statusDisplay == Accepted);
    var r := KeepFirstFrom(arr, 0);
    assert arr[0..] == arr;
    SubsequenceTransitive(arr, since, subs);
    SubsequenceTransitive(r, arr, subs);
    KeepFirstMembers(arr, 0);
    assert forall x :: x in r ==> x in arr;
  }

  /**
   * One entry per problem: the result has unique slugs, in the order in which they
   * first qualify; each entry is the first qualifying entry of the input for its
   * slug, and every slug that has a qualifying entry is represented.
   */
  lemma TodaysAcceptedFirstPerSlug(subs: seq<Submission>, startOfDay: int)
    ensures UniqueSlugs(TodaysAccepted(subs, startOfDay))
    ensures InFirstOccurrenceOrder(Qualifying(subs, startOfDay), TodaysAccepted(subs, startOfDay))
    ensures forall x :: x in TodaysAccepted(subs, startOfDay) ==>
              FirstQualifying(subs, startOfDay, x.titleSlug) == Some(x)
    ensures forall x :: x in subs && Qualifies(x, startOfDay) ==>
              FirstQualifying(subs, startOfDay, x.titleSlug).Some? &&
              FirstQualifying(subs, startOfDay, x.titleSlug).value in TodaysAccepted(subs, startOfDay)
  {
    var arr := Qualifying(subs, startOfDay);
    var r := KeepFirstFrom(arr, 0);
    KeepFirstUniqueSlugs(arr, 0);
    KeepFirstOrdered(arr, 0);
    KeepFirstMembers(arr, 0);
    forall slug
      ensures FirstQualifying(subs, startOfDay, slug) ==
        (if FindSlug(arr, slug) < 0 then None else Some(arr[FindSlug(arr, slug)]))
    {
      FindSlugInQualifying(subs, startOfDay, slug);
    }
    forall x | x in subs && Qualifies(x, startOfDay)
      ensures FirstQualifying(subs, startOfDay, x.titleSlug).Some? &&
              FirstQualifying(subs, startOfDay, x.titleSlug).value in r
    {
      assert x in arr;
      var k := FindSlug(arr, x.titleSlug);
      assert FindSlug(arr, arr[k].titleSlug) == k;
    }
  }

  /** With unique slugs every entry is its slug's first, so the third filter keeps all. */
  lemma {:induction false} KeepFirstOfUniqueSlugs(arr: seq<Submission>, i: nat)
    requires i <= |arr|
    requires UniqueSlugs(arr)
    ensures KeepFirstFrom(arr, i) == arr[i..]
    decreases |arr| - i
  {
    if i < |arr| {
      KeepFirstOfUniqueSlugs(arr, i + 1);
      FindSlugAt(arr, i);
      assert KeepFirstFrom(arr, i) == [arr[i]] + KeepFirstFrom(arr, i + 1);
      assert arr[i..] == [arr[i]] + arr[i + 1..];
    }
  }

  /** Filtering an already filtered list with the same start of day changes nothing. */
  lemma TodaysAcceptedIdempotent(subs: seq<Submission>, startOfDay: int)
    ensures TodaysAccepted(TodaysAccepted(subs, startOfDay), startOfDay) == TodaysAccepted(subs, startOfDay)
  {
    var r := TodaysAccepted(subs, startOfDay);
    TodaysAcceptedQualifies(subs, startOfDay);
    TodaysAcceptedFirstPerSlug(subs, startOfDay);
    FilterKeepsAll(r, (s: Submission) => s.timestamp >= startOfDay);
    FilterKeepsAll(r, (s: Submission) => s.statusDisplay == Accepted);
    KeepFirstOfUniqueSlugs(r, 0);
    assert r[0..] == r;
  }
}
