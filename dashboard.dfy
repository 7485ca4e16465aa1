/**
 * The dashboard component: the tracked usernames, the profiles shown for them,
 * the error line, the loading flag and the input draft, with the operations that
 * add a user, remove a user and refetch every profile.
 */
module Dashboard {
  import opened Wrappers
  import opened Sequences
  import opened Text
  import opened Profiles
  import opened Fetch

  /** `userList.filter(u => u !== name)`: every occurrence of `name` removed, the rest in order. */
  function WithoutUser(list: seq<string>, name: string): (r: seq<string>)
    ensures name !in r
    ensures forall u :: u != name ==> (u in r <==> u in list)
    ensures multiset(r) == multiset(list)[name := 0]
    ensures IsSubsequence(r, list)
  {
    FilterCounts(list, (u: string) => u != name);
    Filter(list, (u: string) => u != name)
  }

  /** The profile carries a `matchedUser` whose username is `name`. */
  predicate NamedAs(p: ProfileData, name: string)
  {
    p.matchedUser.Some? && p.matchedUser.value.username == name
  }

  /** Every profile carries a `matchedUser`. */
  predicate AllMatched(data: seq<ProfileData>)
  {
    forall p :: p in data ==> p.matchedUser.Some?
  }

  /**
   * `data.filter(profile => profile.matchedUser.username !== name)`: the profiles of
   * other users, in order; `None` when some profile has no `matchedUser`, where
   * reading its username throws.
   */
  function WithoutProfilesOf(data: seq<ProfileData>, name: string): (r: Option<seq<ProfileData>>)
    ensures r.Some? <==> AllMatched(data)
    ensures r.Some? ==> IsSubsequence(r.value, data)
    ensures r.Some? ==> forall p :: p in r.value <==> p in data && p.matchedUser.value.username != name
    ensures r.Some? ==> forall p :: multiset(r.value)[p] == if NamedAs(p, name) then 0 else multiset(data)[p]
  {
    FilterCounts(data, (p: ProfileData) => !NamedAs(p, name));
    if AllMatched(data) then Some(Filter(data, (p: ProfileData) => !NamedAs(p, name)))
    else None
  }

  lemma WithoutUserSnoc(list: seq<string>, x: string, name: string)
    ensures WithoutUser(list + [x], name) == WithoutUser(list, name) + (if x != name then [x] else [])
  {
    FilterSnoc(list, x, (u: string) => u != name);
  }

  lemma WithoutProfilesSnoc(data: seq<ProfileData>, p: ProfileData, name: string)
    ensures Filter(data + [p], (q: ProfileData) => !NamedAs(q, name)) ==
            Filter(data, (q: ProfileData) => !NamedAs(q, name)) + (if !NamedAs(p, name) then [p] else [])
  {
    FilterSnoc(data, p, (q: ProfileData) => !NamedAs(q, name));
  }

  /** The shown profiles are exactly what refetching the tracked list would show. */
  predicate Synced(list: seq<string>, data: seq<ProfileData>, fetch: string -> Reply, startOfDay: int)
  {
    FetchAll(list, fetch, startOfDay) == Success(data)
  }

  /** The proxy answers for `u` with a profile whose `matchedUser.username` is `u` itself. */
  predicate FetchedAs(u: string, fetch: string -> Reply, startOfDay: int)
  {
    match FetchStep(u, fetch(u), startOfDay)
    case Success(p) => NamedAs(p, u)
    case Failure(_) => true
  }

  /** A synced list that ends in `x` splits into a synced prefix and the profile fetched for `x`. */
  lemma SyncedSplit(init: seq<string>, x: string, data: seq<ProfileData>, fetch: string -> Reply, startOfDay: int)
    requires Synced(init + [x], data, fetch, startOfDay)
    ensures FetchAll(init, fetch, startOfDay).Success? && FetchStep(x, fetch(x), startOfDay).Success?
    ensures data == FetchAll(init, fetch, startOfDay).value + [FetchStep(x, fetch(x), startOfDay).value]
  {
    var list := init + [x];
    assert list[..|list| - 1] == init;
  }

  /** A synced pair stays synced when one more user and the profile fetched for it are appended. */
  lemma SyncedExtend(list: seq<string>, data: seq<ProfileData>, x: string, p: ProfileData, fetch: string -> Reply, startOfDay: int)
    requires Synced(list, data, fetch, startOfDay)
    requires FetchStep(x, fetch(x), startOfDay) == Success(p)
    ensures Synced(list + [x], data + [p], fetch, startOfDay)
  {
    var longer := list + [x];
    assert longer[..|longer| - 1] == list;
  }

  /**
   * Appending the new profile instead of refetching keeps the two lists in lockstep:
   * after a successful add, the shown profiles are what a refetch of the longer list
   * would give.
   */
  lemma SyncedAfterAdd(list: seq<string>, data: seq<ProfileData>, fetch: string -> Reply, startOfDay: int, name: string)
    requires Synced(list, data, fetch, startOfDay)
    requires AddStep(name, fetch(name), startOfDay).Added?
    ensures Synced(list + [name], data + [AddStep(name, fetch(name), startOfDay).entry], fetch, startOfDay)
  {
    AddStepSpec(name, fetch(name), startOfDay);
    SyncedExtend(list, data, name, AddStep(name, fetch(name), startOfDay).entry, fetch, startOfDay);
  }

  /**
   * Removing a user keeps the two lists in lockstep, provided the proxy reports each
   * user under the name it was asked for: removal by username then deletes exactly
   * the profiles a refetch of the shorter list would no longer produce.
   */
  lemma {:induction false} SyncedAfterRemove(list: seq<string>, data: seq<ProfileData>, fetch: string -> Reply, startOfDay: int, name: string)
    requires Synced(list, data, fetch, startOfDay)
    requires forall u :: u in list ==> FetchedAs(u, fetch, startOfDay)
    ensures WithoutProfilesOf(data, name).Some?
    ensures Synced(WithoutUser(list, name), WithoutProfilesOf(data, name).value, fetch, startOfDay)
    decreases |list|
  {
    if list == [] {
      assert data == [];
    } else {
      var init, x := list[..|list| - 1], list[|list| - 1];
      assert list == init + [x];
      SyncedSplit(init, x, data, fetch, startOfDay);
      var ps := FetchAll(init, fetch, startOfDay).value;
      var p := FetchStep(x, fetch(x), startOfDay).value;
      assert forall u :: u in init ==> FetchedAs(u, fetch, startOfDay) by {
        forall u | u in init ensures FetchedAs(u, fetch, startOfDay) {
          assert u in list;
        }
      }
      SyncedAfterRemove(init, ps, fetch, startOfDay, name);
      assert NamedAs(p, x) by {
        assert x in list;
      }
      assert AllMatched(data) by {
        forall q | q in data ensures q.matchedUser.Some? {
          if q != p { assert q in ps; }
        }
      }
      WithoutUserSnoc(init, x, name);
      WithoutProfilesSnoc(ps, p, name);
      var users, shown := WithoutUser(init, name), WithoutProfilesOf(ps, name).value;
      if x != name {
        assert WithoutUser(list, name) == users + [x];
        assert WithoutProfilesOf(data, name).value == shown + [p];
        SyncedExtend(users, shown, x, p, fetch, startOfDay);
      } else {
        assert NamedAs(p, name);
        assert WithoutUser(list, name) == users;
        assert WithoutProfilesOf(data, name).value == shown;
      }
    }
  }

  /**
   * One pass of `fetchProfiles`' loop body once the reply for `name` is in, the
   * statement form of `FetchStep`: the profile it pushes, or the message it throws.
   * It succeeds on any ok body that has a submission list, whether or not
   * `matchedUser` is present, and pushes that body with its list filtered to today's
   * accepted submissions.
   */
  method ReadProfile(name: string, reply: Reply, startOfDay: int) returns (step: Result<ProfileData, string>)
    ensures step.Success? <==> reply.Response? && reply.ok && reply.body.recentSubmissionList.Some?
    ensures reply.Thrown? ==> step == Failure(reply.message)
    ensures reply.Response? && !reply.ok ==>
      step == Failure(if reply.body.error != "" then reply.body.error else "Failed to fetch for " + name)
    ensures reply.Response? && reply.ok && reply.body.recentSubmissionList.None? ==>
      step == Failure(MissingListMessage)
    ensures step.Success? ==>
      step.value.error == reply.body.error && step.value.matchedUser == reply.body.matchedUser &&
      step.value.recentSubmissionList == Some(TodaysAccepted(reply.body.recentSubmissionList.value, startOfDay))
    ensures step == FetchStep(name, reply, startOfDay)
  {
    match reply {
      case Thrown(m) =>
        step := Failure(m);
      case Response(ok, body) =>
        if !ok {
          step := Failure(ErrorOr(body, "Failed to fetch for " + name));
        } else {
          match body.recentSubmissionList {
            case None =>
              step := Failure(MissingListMessage);
            case Some(subs) =>
              step := Success(WithTodaysSubmissions(body, subs, startOfDay));
          }
        }
    }
  }

  /**
   * The `Home` component's state between two user actions. `stored` is the list kept
   * in local storage; `requests` records every username sent to the proxy.
   */
  class Home {
    var username: string
    var userList: seq<string>
    var data: seq<ProfileData>
    var error: string
    var loading: bool
    var stored: seq<string>
    ghost var requests: seq<string>

    /** Local storage mirrors the tracked list, and no fetch is in flight. */
    ghost predicate Valid()
      reads this
    {
      stored == userList && !loading
    }

    /** First render: the list restored from local storage, everything else empty. */
    constructor (saved: seq<string>)
      ensures Valid()
      ensures userList == saved && username == "" && data == [] && error == ""
      ensures requests == []
    {
      username := "";
      userList := saved;
      stored := saved;
      data := [];
      error := "";
      loading := false;
      requests := [];
    }

    /** The input's `onChange`: the draft becomes what was typed. */
    method SetUsername(text: string)
      requires Valid()
      modifies this`username
      ensures Valid() && username == text
    {
      username := text;
    }

    /**
     * The body of `addUser`'s `try` once the reply for `trimmed` is in, the statement
     * form of `AddStep`: list, draft, profiles and error change as `AddStep` says, and
     * nothing else does.
     */
    method ApplyAddReply(trimmed: string, reply: Reply, startOfDay: int)
      requires stored == userList
      modifies this`userList, this`stored, this`username, this`data, this`error
      ensures stored == userList
      ensures match AddStep(trimmed, reply, startOfDay)
        case Rejected(m) =>
          userList == old(userList) && data == old(data) && username == old(username) && error == m
        case Added(p) =>
          userList == old(userList) + [trimmed] && data == old(data) + [p] && username == "" && error == old(error)
        case AddedThenThrew(m) =>
          userList == old(userList) + [trimmed] && data == old(data) && username == "" && error == m
    {
      match reply {
        case Thrown(m) =>
          error := m;
        case Response(ok, body) =>
          if !ok || body.matchedUser.None? || body.matchedUser.value.profile.None? {
            error := ErrorOr(body, "Invalid username: " + trimmed);
          } else {
            userList := userList + [trimmed];
            stored := userList;
            username := "";
            match body.recentSubmissionList {
              case None =>
                error := MissingListMessage;
              case Some(subs) =>
                data := data + [WithTodaysSubmissions(body, subs, startOfDay)];
            }
          }
      }
    }

    /**
     * `addUser`: a no-op, without any request, when the trimmed draft is empty or
     * already tracked; otherwise one request for the trimmed name, after which the
     * list, the draft, the profiles and the error change as `AddStep` says.
     */
    method AddUser(fetch: string -> Reply, startOfDay: int)
      requires Valid()
      modifies this
      ensures Valid()
      ensures var trimmed := Trim(old(username));
        if trimmed == "" || trimmed in old(userList) then
          userList == old(userList) && data == old(data) && error == old(error) &&
          username == old(username) && requests == old(requests)
        else
          requests == old(requests) + [trimmed] &&
          match AddStep(trimmed, fetch(trimmed), startOfDay)
          case Rejected(m) =>
            userList == old(userList) && data == old(data) && username == old(username) && error == m
          case Added(p) =>
            userList == old(userList) + [trimmed] && data == old(data) + [p] && username == "" && error == ""
          case AddedThenThrew(m) =>
            userList == old(userList) + [trimmed] && data == old(data) && username == "" && error == m
      ensures NoDuplicates(old(userList)) ==> NoDuplicates(userList)
      ensures var trimmed := Trim(old(username));
        Synced(old(userList), old(data), fetch, startOfDay) &&
        (trimmed == "" || trimmed in old(userList) || !AddStep(trimmed, fetch(trimmed), startOfDay).AddedThenThrew?) ==>
        Synced(userList, data, fetch, startOfDay)
    {
      var trimmed := Trim(username);
      if trimmed != "" && trimmed !in userList {
        loading := true;
        error := "";
        requests := requests + [trimmed];
        var reply := fetch(trimmed);
        ApplyAddReply(trimmed, reply, startOfDay);
        loading := false;
        match AddStep(trimmed, reply, startOfDay) {
          case Rejected(_) =>
          case Added(_) =>
            if NoDuplicates(old(userList)) {
              AppendFreshNoDuplicates(old(userList), trimmed);
            }
            if Synced(old(userList), old(data), fetch, startOfDay) {
              SyncedAfterAdd(old(userList), old(data), fetch, startOfDay, trimmed);
            }
          case AddedThenThrew(_) =>
            if NoDuplicates(old(userList)) {
              AppendFreshNoDuplicates(old(userList), trimmed);
            }
        }
      }
    }

    /**
     * `removeUser`: every occurrence of `name` leaves the list and every profile of
     * `name` leaves the shown profiles, the rest keep their order; no request is made.
     * When a shown profile has no `matchedUser` the profile filter throws after the
     * list update was issued, and the profiles stay as they were.
     */
    method RemoveUser(name: string)
      requires Valid()
      modifies this
      ensures Valid()
      ensures userList == WithoutUser(old(userList), name)
      ensures data == match WithoutProfilesOf(old(data), name)
                      case Some(kept) => kept
                      case None => old(data)
      ensures username == old(username) && error == old(error) && requests == old(requests)
      ensures NoDuplicates(old(userList)) ==> NoDuplicates(userList)
    {
      userList := WithoutUser(userList, name);
      stored := userList;
      var kept := WithoutProfilesOf(data, name);
      if kept.Some? {
        data := kept.value;
      }
      if NoDuplicates(old(userList)) {
        FilterNoDuplicates(old(userList), (u: string) => u != name);
      }
    }
  
    /**
     * `fetchProfiles(list)`: clears the error and the shown profiles, then requests the
     * names one after another. When every request succeeds the shown profiles are all
     * of them in list order; otherwise the loop stops at the first failure, nothing is
     * shown and the error is that failure's message. No request follows a failure.
     */
    method FetchProfiles(list: seq<string>, fetch: string -> Reply, startOfDay: int)
      requires Valid()
      modifies this
      ensures Valid()
      ensures userList == old(userList) && username == old(username)
      ensures match FetchAll(list, fetch, startOfDay)
              case Success(ps) => data == ps && error == ""
              case Failure(m) => data == [] && error == m
      ensures requests == old(requests) + list[..Attempted(list, fetch, startOfDay)]
    {
      error := "";
      loading := true;
      data := [];
      var results: seq<ProfileData> := [];
      var failure: Option<string> := None;
      var i := 0;
      while i < |list| && failure.None?
        invariant 0 <= i <= |list|
        invariant userList == old(userList) && stored == old(stored) && username == old(username)
        invariant data == [] && error == "" && loading
        invariant failure.None? ==>
          FetchAll(list[..i], fetch, startOfDay) == Success(results) && requests == old(requests) + list[..i]
        invariant failure.Some? ==>
          FetchAll(list, fetch, startOfDay) == Failure(failure.value) &&
          requests == old(requests) + list[..Attempted(list, fetch, startOfDay)]
      {
        var name := list[i];
        requests := requests + [name];
        var step := ReadProfile(name, fetch(name), startOfDay);
        FetchLoopStep(list, fetch, startOfDay, i, results);
        match step {
          case Failure(m) =>
            failure := Some(m);
          case Success(p) =>
            results := results + [p];
        }
        i := i + 1;
      }
      match failure {
        case None =>
          assert list[..i] == list;
          data := results;
        case Some(m) =>
          error := m;
      }
      loading := false;
    }

    /** The mount effect: refetch every tracked user when the restored list is not empty. */
    method Mount(fetch: string -> Reply, startOfDay: int)
      requires Valid()
      modifies this
      ensures Valid()
      ensures userList == old(userList) && username == old(username)
      ensures old(userList) == [] ==> data == old(data) && error == old(error) && requests == old(requests)
      ensures old(userList) != [] ==>
        requests == old(requests) + userList[..Attempted(userList, fetch, startOfDay)] &&
        match FetchAll(userList, fetch, startOfDay)
        case Success(ps) => data == ps && error == ""
        case Failure(m) => data == [] && error == m
    {
      if |userList| > 0 {
        FetchProfiles(userList, fetch, startOfDay);
      }
    }
  }
}
