/** The activity records of the server and the two edits made to their
    participant lists: `append` on sign-up and `list.remove` on unregister. */
module Enrollment {

  /** One entry of the activity table; `participants` is ordered. */
  datatype Activity = Activity(
    description: string,
    schedule: string,
    maxParticipants: int,
    participants: seq<string>)

  /** No email occurs twice in a participant list. */
  predicate NoDuplicates(s: seq<string>) {
    forall i, j :: 0 <= i < j < |s| ==> s[i] != s[j]
  }

  /** Every participant list of the table is free of duplicates. */
  predicate AllDistinct(activities: map<string, Activity>) {
    forall name :: name in activities ==> NoDuplicates(activities[name].participants)
  }

  /** The position of the first occurrence of `x`, as `list.index` finds it. */
  function IndexOf(s: seq<string>, x: string): (i: nat)
    requires x in s
    ensures i < |s| && s[i] == x
    ensures x !in s[..i]
  {
    if s[0] == x then 0
    else
      var j := IndexOf(s[1..], x);
      assert s[..j + 1] == [s[0]] + s[1..][..j];
      j + 1
  }

  /** `list.remove(x)` on a list that holds `x` (the callers check first):
      the first occurrence is dropped and the rest keep their order. */
  function Remove(s: seq<string>, x: string): (r: seq<string>)
    requires x in s
    ensures |r| == |s| - 1
    ensures multiset(r) == multiset(s) - multiset{x}
    ensures forall k :: 0 <= k < IndexOf(s, x) ==> r[k] == s[k]
    ensures forall k :: IndexOf(s, x) <= k < |r| ==> r[k] == s[k + 1]
  {
    var i := IndexOf(s, x);
    assert s == s[..i] + [x] + s[i + 1..];
    s[..i] + s[i + 1..]
  }

  /** Removing an email from a list without duplicates leaves no trace of it
      and no duplicates. */
  lemma RemoveKeepsDistinct(s: seq<string>, x: string)
    requires x in s && NoDuplicates(s)
    ensures NoDuplicates(Remove(s, x))
    ensures x !in Remove(s, x)
  {
  }

  /** Appending an email that is not yet listed keeps the list distinct. */
  lemma AppendKeepsDistinct(s: seq<string>, x: string)
    requires x !in s && NoDuplicates(s)
    ensures NoDuplicates(s + [x])
  {
  }

  /** `remove` undoes `append` of an email that was not listed. */
  lemma RemoveAppended(s: seq<string>, x: string)
    requires x !in s
    ensures Remove(s + [x], x) == s
  {
  }

  /** The table after sign-up: `email` appended to `name`'s participants. */
  function Enroll(activities: map<string, Activity>, name: string, email: string): (r: map<string, Activity>)
    requires name in activities
    ensures r.Keys == activities.Keys
    ensures r[name] == activities[name].(participants := activities[name].participants + [email])
    ensures forall n :: n in activities && n != name ==> r[n] == activities[n]
  {
    activities[name := activities[name].(participants := activities[name].participants + [email])]
  }

  /** The table after unregister: the first occurrence of `email` removed
      from `name`'s participants. */
  function Withdraw(activities: map<string, Activity>, name: string, email: string): (r: map<string, Activity>)
    requires name in activities && email in activities[name].participants
    ensures r.Keys == activities.Keys
    ensures r[name] == activities[name].(participants := Remove(activities[name].participants, email))
    ensures forall n :: n in activities && n != name ==> r[n] == activities[n]
  {
    activities[name := activities[name].(participants := Remove(activities[name].participants, email))]
  }

  /** Sign-up of an email not yet listed keeps every list distinct. */
  lemma EnrollKeepsDistinct(activities: map<string, Activity>, name: string, email: string)
    requires AllDistinct(activities)
    requires name in activities && email !in activities[name].participants
    ensures AllDistinct(Enroll(activities, name, email))
  {
    AppendKeepsDistinct(activities[name].participants, email);
  }

  /** Unregister keeps every list distinct, and the email is then gone from
      the activity. */
  lemma WithdrawKeepsDistinct(activities: map<string, Activity>, name: string, email: string)
    requires AllDistinct(activities)
    requires name in activities && email in activities[name].participants
    ensures AllDistinct(Withdraw(activities, name, email))
    ensures email !in Withdraw(activities, name, email)[name].participants
  {
    RemoveKeepsDistinct(activities[name].participants, email);
  }

  /** A sign-up followed by an unregister of the same email restores the
      table exactly, order of the other participants included. */
  lemma EnrollWithdrawRoundTrip(activities: map<string, Activity>, name: string, email: string)
    requires name in activities && email !in activities[name].participants
    ensures email in Enroll(activities, name, email)[name].participants
    ensures Withdraw(Enroll(activities, name, email), name, email) == activities
  {
    var a := activities[name];
    assert (a.participants + [email])[|a.participants|] == email;
    RemoveAppended(a.participants, email);
    assert a.(participants := a.participants) == a;
  }

}
