/** Concrete runs of the dashboard, as a user would see them. */
module Scenarios {
  import opened Wrappers
  import opened Sequences
  import Text
  import opened Profiles
  import opened Fetch
  import opened Dashboard

  /** An accepted submission made a minute after the start of the day. */
  function Today(startOfDay: int): Submission
  {
    Submission("Two Sum", "two-sum", "Accepted", startOfDay + 60, "python3")
  }

  /** An accepted submission made a minute before the start of the day. */
  function Yesterday(startOfDay: int): Submission
  {
    Submission("Add Two Numbers", "add-two-numbers", "Accepted", startOfDay - 60, "cpp")
  }

  /** The proxy's ok body for "alice", listing both submissions. */
  function AliceBody(startOfDay: int): ProfileData
  {
    ProfileData("", Some(MatchedUser("alice", Some(UserProfile("avatar.png")), [], "{}")),
                Some([Today(startOfDay), Yesterday(startOfDay)]))
  }

  /** Today's accepted submission survives; yesterday's accepted one does not. */
  lemma OnlyTodaySurvives(startOfDay: int)
    ensures TodaysAccepted([Today(startOfDay), Yesterday(startOfDay)], startOfDay) == [Today(startOfDay)]
  {
    var today, yesterday := Today(startOfDay), Yesterday(startOfDay);
    var since := Filter([today, yesterday], (s: Submission) => s.timestamp >= startOfDay);
    assert [today, yesterday][1..] == [yesterday] && [yesterday][1..] == [];
    assert Filter([yesterday], (s: Submission) => s.timestamp >= startOfDay) == [];
    assert since == [today];
    assert [today][1..] == [];
    var arr := Filter(since, (s: Submission) => s.statusDisplay == Accepted);
    assert arr == [today];
    assert FindSlug(arr, today.titleSlug) == 0;
  }

  /** Adding "alice" with that body tracks her and shows only today's submission. */
  lemma AliceAdded(startOfDay: int)
    ensures AddStep("alice", Response(true, AliceBody(startOfDay)), startOfDay) ==
            Added(AliceBody(startOfDay).(recentSubmissionList := Some([Today(startOfDay)])))
  {
    OnlyTodaySurvives(startOfDay);
  }

  /** "alice" has no whitespace to trim. */
  lemma AliceTrimmed()
    ensures Text.Trim("alice") == "alice"
  {
    assert !Text.IsWhitespace('a') && !Text.IsWhitespace('e');
    assert Text.TrimStart("alice") == "alice";
    assert Text.TrimEnd("alice") == "alice";
  }

  /** A first user added to an empty dashboard is tracked and shown with today's submissions. */
  method AddFirstUser(startOfDay: int)
  {
    var body := AliceBody(startOfDay);
    var fetch := (name: string) => Response(true, body);
    var home := new Home([]);
    home.SetUsername("alice");
    AliceTrimmed();
    AliceAdded(startOfDay);
    assert AddStep("alice", fetch("alice"), startOfDay).Added?;
    home.AddUser(fetch, startOfDay);
    assert home.userList == ["alice"];
    assert home.data[0].recentSubmissionList == Some([Today(startOfDay)]);
  }

  /** A refetch where the second user fails shows nothing, not the first user's profile. */
  method RefetchWithFailure(startOfDay: int)
  {
    var user := MatchedUser("alice", Some(UserProfile("avatar.png")), [], "{}");
    var ok := ProfileData("", Some(user), Some([]));
    var fetch := (name: string) =>
      if name == "bob" then Response(false, ProfileData("Failed to fetch profile", None, None))
      else Response(true, ok);
    var home := new Home(["alice", "bob"]);
    home.FetchProfiles(["alice", "bob"], fetch, startOfDay);
    FetchAllFirstFailure(["alice", "bob"], fetch, startOfDay, 1);
    assert home.data == [] && home.error == "Failed to fetch profile";
  }
}
