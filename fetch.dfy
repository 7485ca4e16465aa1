/**
 * One request to the profile proxy, seen from the dashboard: what `fetch` and
 * `res.json()` produce, and what the dashboard makes of it when adding one user
 * and when refetching the whole list.
 */
module Fetch {
  import opened Wrappers
  import opened Profiles

  /**
   * The oracle's answer for one username: either an `Error` was thrown (the request
   * failed, or the body was not JSON) with its message, or a response arrived with
   * its `ok` flag and parsed body.
   */
  datatype Reply = Thrown(message: string) | Response(ok: bool, body: ProfileData)

  /**
   * The message of the `TypeError` thrown by `.filter` when an ok body has no
   * `recentSubmissionList`. The exact text is the browser's; this is V8's.
   */
  const MissingListMessage := "Cannot read properties of null (reading 'filter')"

  /** `json.error || fallback`: the body's error text unless it is absent or empty. */
  function ErrorOr(body: ProfileData, fallback: string): string
  {
    if body.error != "" then body.error else fallback
  }

  /** The body with its submission list replaced by today's accepted ones. */
  function WithTodaysSubmissions(body: ProfileData, subs: seq<Submission>, startOfDay: int): ProfileData
  {
    body.(recentSubmissionList := Some(TodaysAccepted(subs, startOfDay)))
  }

  /** One iteration of the refetch loop: the profile it pushes, or the message it throws. */
  function FetchStep(name: string, reply: Reply, startOfDay: int): Result<ProfileData, string>
  {
    match reply
    case Thrown(m) => Failure(m)
    case Response(ok, body) =>
      if !ok then Failure(ErrorOr(body, "Failed to fetch for " + name))
      else match body.recentSubmissionList
        case None => Failure(MissingListMessage)
        case Some(subs) => Success(WithTodaysSubmissions(body, subs, startOfDay))
  }

  /**
   * What one turn of the refetch loop promises. Unlike `addUser` it never looks at
   * `matchedUser`: it succeeds exactly on an ok response whose body has a submission
   * list. It fails with the thrown message; with the body's error, or "Failed to
   * fetch for " and the name when that is empty, on a response that is not ok; and
   * with the `TypeError` on an ok body without a list. The profile it pushes is the
   * body with only its submission list replaced by today's accepted submissions.
   */
  lemma FetchStepSpec(name: string, reply: Reply, startOfDay: int)
    ensures FetchStep(name, reply, startOfDay).Success? <==>
      reply.Response? && reply.ok && reply.body.recentSubmissionList.Some?
    ensures reply.Thrown? ==> FetchStep(name, reply, startOfDay) == Failure(reply.message)
    ensures reply.Response? && !reply.ok ==>
      FetchStep(name, reply, startOfDay) ==
        Failure(if reply.body.error != "" then reply.body.error else "Failed to fetch for " + name)
    ensures reply.Response? && reply.ok && reply.body.recentSubmissionList.None? ==>
      FetchStep(name, reply, startOfDay) == Failure(MissingListMessage)
    ensures FetchStep(name, reply, startOfDay).Success? ==>
      var p := FetchStep(name, reply, startOfDay).value;
      p.error == reply.body.error && p.matchedUser == reply.body.matchedUser &&
      p.recentSubmissionList == Some(TodaysAccepted(reply.body.recentSubmissionList.value, startOfDay))
  {
  }

  /**
   * The refetch loop over `list`, one name after another: every profile in list
   * order, or the message of the first step that throws.
   */
  function FetchAll(list: seq<string>, fetch: string -> Reply, startOfDay: int): Result<seq<ProfileData>, string>
    decreases |list|
  {
    if list == [] then Success([])
    else
      var last := list[|list| - 1];
      match FetchAll(list[..|list| - 1], fetch, startOfDay)
      case Failure(m) => Failure(m)
      case Success(ps) =>
        match FetchStep(last, fetch(last), startOfDay)
        case Failure(m) => Failure(m)
        case Success(p) => Success(ps + [p])
  }

  /** One more name at the end: the refetch so far, then that name's step. */
  lemma FetchAllSnoc(list: seq<string>, x: string, fetch: string -> Reply, startOfDay: int)
    ensures FetchAll(list + [x], fetch, startOfDay) ==
      match FetchAll(list, fetch, startOfDay)
      case Failure(m) => Failure(m)
      case Success(ps) =>
        match FetchStep(x, fetch(x), startOfDay)
        case Failure(m) => Failure(m)
        case Success(p) => Success(ps + [p])
    ensures Attempted(list + [x], fetch, startOfDay) ==
      if FetchAll(list, fetch, startOfDay).Failure? then Attempted(list, fetch, startOfDay) else |list| + 1
  {
    var longer := list + [x];
    assert longer[..|longer| - 1] == list;
  }

  /** How many requests the refetch loop makes before it finishes or throws. */
  function Attempted(list: seq<string>, fetch: string -> Reply, startOfDay: int): (n: nat)
    ensures n <= |list|
    ensures FetchAll(list, fetch, startOfDay).Success? ==> n == |list|
    ensures FetchAll(list, fetch, startOfDay).Failure? ==> 1 <= n
    decreases |list|
  {
    if list == [] then 0
    else if FetchAll(list[..|list| - 1], fetch, startOfDay).Failure? then
      Attempted(list[..|list| - 1], fetch, startOfDay)
    else |list|
  }

  /**
   * All or nothing: the refetch succeeds exactly when every step does, and then it
   * holds one profile per name, each the one its own step produced, in list order.
   */
  lemma {:induction false} FetchAllAllOrNothing(list: seq<string>, fetch: string -> Reply, startOfDay: int)
    ensures FetchAll(list, fetch, startOfDay).Success? <==>
            forall i :: 0 <= i < |list| ==> FetchStep(list[i], fetch(list[i]), startOfDay).Success?
    ensures FetchAll(list, fetch, startOfDay).Success? ==>
            var ps := FetchAll(list, fetch, startOfDay).value;
            |ps| == |list| &&
            forall i :: 0 <= i < |list| ==> FetchStep(list[i], fetch(list[i]), startOfDay) == Success(ps[i])
    decreases |list|
  {
    if list != [] {
      var init, last := list[..|list| - 1], list[|list| - 1];
      assert list == init + [last];
      FetchAllAllOrNothing(init, fetch, startOfDay);
      assert forall i :: 0 <= i < |init| ==> init[i] == list[i];
      var step := FetchStep(last, fetch(last), startOfDay);
      match FetchAll(init, fetch, startOfDay)
      case Failure(_) =>
        var i :| 0 <= i < |init| && FetchStep(init[i], fetch(init[i]), startOfDay).Failure?;
        assert FetchStep(list[i], fetch(list[i]), startOfDay).Failure?;
      case Success(ps) =>
        if step.Failure? {
          assert FetchStep(list[|list| - 1], fetch(list[|list| - 1]), startOfDay).Failure?;
        } else {
          var r := ps + [step.value];
          assert FetchAll(list, fetch, startOfDay) == Success(r);
          forall i | 0 <= i < |list|
            ensures FetchStep(list[i], fetch(list[i]), startOfDay) == Success(r[i])
          {
            if i < |init| { assert r[i] == ps[i]; }
          }
        }
    }
  }

  /**
   * The loop stops at the first step that throws: the refetch fails with that step's
   * message, and that step is the last request made.
   */
  lemma {:induction false} FetchAllFirstFailure(list: seq<string>, fetch: string -> Reply, startOfDay: int, i: nat)
    requires i < |list|
    requires forall j :: 0 <= j < i ==> FetchStep(list[j], fetch(list[j]), startOfDay).Success?
    requires FetchStep(list[i], fetch(list[i]), startOfDay).Failure?
    ensures FetchAll(list, fetch, startOfDay) == Failure(FetchStep(list[i], fetch(list[i]), startOfDay).error)
    ensures Attempted(list, fetch, startOfDay) == i + 1
    decreases |list|
  {
    var init := list[..|list| - 1];
    if i < |list| - 1 {
      assert forall j :: 0 <= j < |init| ==> init[j] == list[j];
      FetchAllFirstFailure(init, fetch, startOfDay, i);
    } else {
      FetchAllAllOrNothing(init, fetch, startOfDay);
      assert forall j :: 0 <= j < |init| ==> init[j] == list[j];
    }
  }

  /** Once a prefix of the list has failed, the rest of the list changes nothing. */
  lemma {:induction false} FetchAllFailedPrefix(list: seq<string>, fetch: string -> Reply, startOfDay: int, k: nat)
    requires k <= |list|
    requires FetchAll(list[..k], fetch, startOfDay).Failure?
    ensures FetchAll(list, fetch, startOfDay) == FetchAll(list[..k], fetch, startOfDay)
    ensures Attempted(list, fetch, startOfDay) == Attempted(list[..k], fetch, startOfDay)
    decreases |list|
  {
    if k < |list| {
      var init := list[..|list| - 1];
      assert init[..k] == list[..k];
      FetchAllFailedPrefix(init, fetch, startOfDay, k);
    } else {
      assert list[..k] == list;
    }
  }

  /**
   * One turn of the refetch loop at index `i`, after the names before it all succeeded:
   * a success extends the profiles; a failure is the outcome of the whole refetch, and
   * it is the last request made.
   */
  lemma FetchLoopStep(list: seq<string>, fetch: string -> Reply, startOfDay: int, i: nat, ps: seq<ProfileData>)
    requires i < |list|
    requires FetchAll(list[..i], fetch, startOfDay) == Success(ps)
    ensures list[..i + 1] == list[..i] + [list[i]]
    ensures match FetchStep(list[i], fetch(list[i]), startOfDay)
            case Success(p) => FetchAll(list[..i + 1], fetch, startOfDay) == Success(ps + [p])
            case Failure(m) => FetchAll(list, fetch, startOfDay) == Failure(m) && Attempted(list, fetch, startOfDay) == i + 1
  {
    assert list[..i + 1] == list[..i] + [list[i]];
    FetchAllSnoc(list[..i], list[i], fetch, startOfDay);
    if FetchStep(list[i], fetch(list[i]), startOfDay).Failure? {
      FetchAllFailedPrefix(list, fetch, startOfDay, i + 1);
    }
  }

  /** How adding one user ends. */
  datatype AddOutcome =
    | Rejected(message: string)         // thrown before the list was touched
    | Added(entry: ProfileData)         // the name is tracked and its profile appended
    | AddedThenThrew(message: string)   // the name is tracked, then `.filter` threw

  /** What `addUser` makes of the reply for `trimmed`. */
  function AddStep(trimmed: string, reply: Reply, startOfDay: int): AddOutcome
  {
    match reply
    case Thrown(m) => Rejected(m)
    case Response(ok, body) =>
      if !ok || body.matchedUser.None? || body.matchedUser.value.profile.None? then
        Rejected(ErrorOr(body, "Invalid username: " + trimmed))
      else match body.recentSubmissionList
        case None => AddedThenThrew(MissingListMessage)
        case Some(subs) => Added(WithTodaysSubmissions(body, subs, startOfDay))
  }

  /**
   * `addUser` refuses exactly what it should: a thrown error, a response that is not
   * ok, or a body without `matchedUser` or without `matchedUser.profile`; its message
   * is then the thrown one, or the body's error, or "Invalid username: " and the name.
   * Whatever it accepts is exactly what the refetch loop would have produced.
   */
  lemma AddStepSpec(trimmed: string, reply: Reply, startOfDay: int)
    ensures AddStep(trimmed, reply, startOfDay).Rejected? <==>
      (reply.Thrown? || !reply.ok || reply.body.matchedUser.None? || reply.body.matchedUser.value.profile.None?)
    ensures reply.Thrown? ==> AddStep(trimmed, reply, startOfDay) == Rejected(reply.message)
    ensures reply.Response? && AddStep(trimmed, reply, startOfDay).Rejected? ==>
      AddStep(trimmed, reply, startOfDay).message ==
        (if reply.body.error != "" then reply.body.error else "Invalid username: " + trimmed)
    ensures AddStep(trimmed, reply, startOfDay).Added? ==>
      FetchStep(trimmed, reply, startOfDay) == Success(AddStep(trimmed, reply, startOfDay).entry)
    ensures AddStep(trimmed, reply, startOfDay).AddedThenThrew? ==>
      FetchStep(trimmed, reply, startOfDay) == Failure(AddStep(trimmed, reply, startOfDay).message)
  {
  }
}
