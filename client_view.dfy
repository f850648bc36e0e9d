/** The decisions the browser script makes when it shows results: which
    message a sign-up or unregister ends with and whether the roster is
    re-fetched, how many spots an activity has left, and which controls an
    authenticated session sees. The markup itself is not modelled. */
module ClientView {
  import opened Optional
  import opened Enrollment
  import Client

  /** The two enrollment changes the page can ask for. */
  datatype Mutation = Signup | Unregister

  /** How a sign-up or unregister exchange ended: a 2xx body with its
      `message`, a non-2xx body with an optional `detail`, or an exception. */
  datatype MutationOutcome =
    | MutationAccepted(message: string)
    | MutationRejected(detail: Option<string>)
    | MutationThrew

  /** The class given to the message box. */
  datatype MessageClass = Success | Error

  /** What the page shows after the exchange, and whether it re-fetches the
      activity list. */
  datatype Feedback = Feedback(cls: MessageClass, text: string, refresh: bool)

  const AnErrorOccurred := "An error occurred"

  /** The fixed text shown when the request throws. */
  function ThrewText(m: Mutation): string {
    match m
    case Signup => "Failed to sign up. Please try again."
    case Unregister => "Failed to unregister. Please try again."
  }

  /** The outcome rule shared by the sign-up form and the delete buttons. */
  function MutationFeedback(m: Mutation, outcome: MutationOutcome): (f: Feedback)
    ensures f.refresh <==> outcome.MutationAccepted?
    ensures f.cls == Success <==> outcome.MutationAccepted?
    ensures outcome.MutationAccepted? ==> f.text == outcome.message
    ensures outcome.MutationRejected? ==> f.text == Client.DetailOr(outcome.detail, AnErrorOccurred)
    ensures outcome.MutationThrew? ==> f.text == ThrewText(m)
    ensures f.cls == Error ==> f.text != ""
  {
    match outcome
    case MutationAccepted(message) => Feedback(Success, message, true)
    case MutationRejected(detail) => Feedback(Error, Client.DetailOr(detail, AnErrorOccurred), false)
    case MutationThrew => Feedback(Error, ThrewText(m), false)
  }

  /** Sign-up and unregister treat every reply alike; they differ only in
      the text shown when the request throws. */
  lemma SameRuleForReplies(outcome: MutationOutcome)
    requires !outcome.MutationThrew?
    ensures MutationFeedback(Signup, outcome) == MutationFeedback(Unregister, outcome)
  {
  }

  /** `max_participants - participants.length`, shown as is: never clamped. */
  function SpotsLeft(a: Activity): (spots: int)
    ensures spots <= a.maxParticipants
    ensures spots <= 0 <==> |a.participants| >= a.maxParticipants
    ensures spots < 0 <==> |a.participants| > a.maxParticipants
  {
    a.maxParticipants - |a.participants|
  }

  /** A sign-up takes one spot, with no floor at zero: the server never
      checks capacity, so a full activity can end with a negative count. */
  lemma SpotsLeftAfterEnroll(activities: map<string, Activity>, name: string, email: string)
    requires name in activities
    ensures SpotsLeft(Enroll(activities, name, email)[name]) == SpotsLeft(activities[name]) - 1
    ensures SpotsLeft(activities[name]) <= 0 ==> SpotsLeft(Enroll(activities, name, email)[name]) < 0
  {
  }

  /** An unregister frees one spot. */
  lemma SpotsLeftAfterWithdraw(activities: map<string, Activity>, name: string, email: string)
    requires name in activities && email in activities[name].participants
    ensures SpotsLeft(Withdraw(activities, name, email)[name]) == SpotsLeft(activities[name]) + 1
  {
  }

  /** The data attributes of a participant's delete button. */
  datatype DeleteButton = DeleteButton(activity: string, email: string)

  /** One line of an activity's participant list. */
  datatype ParticipantRow = ParticipantRow(email: string, delete: Option<DeleteButton>)

  /** The participant list of activity `name`: one row per participant, in
      order, each with a delete button exactly when authenticated. */
  function ParticipantRows(name: string, participants: seq<string>, isAuthenticated: bool): (rows: seq<ParticipantRow>)
    ensures |rows| == |participants|
    ensures forall i :: 0 <= i < |rows| ==> rows[i].email == participants[i]
    ensures forall i :: 0 <= i < |rows| ==> (rows[i].delete.Some? <==> isAuthenticated)
    ensures forall i :: 0 <= i < |rows| && rows[i].delete.Some? ==>
      rows[i].delete.value == DeleteButton(name, participants[i])
  {
    seq(|participants|, i requires 0 <= i < |participants| =>
      ParticipantRow(participants[i], if isAuthenticated then Some(DeleteButton(name, participants[i])) else None))
  }

  /** The `display` style of the sign-up container. */
  function SignupContainerDisplay(isAuthenticated: bool): (display: string)
    ensures display == "block" <==> isAuthenticated
    ensures display == "none" <==> !isAuthenticated
  {
    if isAuthenticated then "block" else "none"
  }

  /** Every delete button of the rows drawn from the table names an activity
      that exists and an email listed in it. This is about the rows as values:
      the page writes them into markup and reads the attributes back, which
      is the identity only for names and emails without `"` or `&`. */
  lemma DeleteButtonsTargetListed(activities: map<string, Activity>, name: string, isAuthenticated: bool, i: nat)
    requires name in activities
    requires i < |activities[name].participants|
    ensures var row := ParticipantRows(name, activities[name].participants, isAuthenticated)[i];
      row.delete.Some? ==> (
        && row.delete.value.activity in activities
        && row.delete.value.email in activities[row.delete.value.activity].participants)
  {
  }

}
