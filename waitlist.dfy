/**
 * The waitlist submission of the email popup (`EmailPopup` in
 * app/components/CollegeChatLanding.tsx): validation, the ordered fallback
 * over three endpoint mirrors, and the four pieces of UI state it drives.
 *
 * The network is an input: `outcomes[n]` is what a POST to endpoint `n` would
 * produce. Every POST the popup makes is appended to its `sent` log.
 */
module Waitlist {
  import opened Wrappers
  import opened EmailShape

  /** The mirrors, tried in this order. */
  const ApiUrls: seq<string> := [
    "https://sheet.best/api/sheets/0678406a-c5ea-446a-bf4b-f1b4ed2109a8",
    "https://api.sheet.best/api/sheets/0678406a-c5ea-446a-bf4b-f1b4ed2109a8",
    "https://api.sheetbest.com/sheets/0678406a-c5ea-446a-bf4b-f1b4ed2109a8"
  ]

  const EmptyMessage := "Please enter your email"
  const InvalidMessage := "Please enter a valid email address"
  const FailedMessage := "Failed to join waitlist. Please try again."

  /** What one call to `fetch` produced: a response with its status, or a thrown error. */
  datatype Response = Status(code: int) | Thrown

  /** The value kept in `lastError`. */
  datatype Failure = HttpError(status: int) | NetworkError

  /** One POST: the endpoint and the email carried in its body. */
  datatype Request = Request(url: string, email: string)

  predicate Succeeds(r: Response) { r.Status? && r.code < 400 }

  function FailureOf(r: Response): Failure {
    match r
    case Status(code) => HttpError(code)
    case Thrown => NetworkError
  }

  /** Index of the first endpoint whose response counts as success. */
  function FirstSuccess(outcomes: seq<Response>): (r: Option<nat>)
    ensures r.Some? ==> r.value < |outcomes| && Succeeds(outcomes[r.value])
    ensures r.Some? ==> forall m :: 0 <= m < r.value ==> !Succeeds(outcomes[m])
    ensures r.None? ==> forall m :: 0 <= m < |outcomes| ==> !Succeeds(outcomes[m])
  {
    if |outcomes| == 0 then None
    else if Succeeds(outcomes[0]) then Some(0)
    else match FirstSuccess(outcomes[1..])
      case None => None
      case Some(k) => Some(k + 1)
  }

  /** Number of endpoints that answered with a failure before the loop stopped. */
  function FailedCount(outcomes: seq<Response>): nat {
    match FirstSuccess(outcomes)
    case Some(k) => k
    case None => |outcomes|
  }

  /** Number of POSTs one pass over the endpoints makes. */
  function AttemptCount(outcomes: seq<Response>): nat {
    match FirstSuccess(outcomes)
    case Some(k) => k + 1
    case None => |outcomes|
  }

  /** `lastError` after the pass: the failure of the last endpoint that failed, if any did. */
  function LastFailure(outcomes: seq<Response>): Option<Failure> {
    var n := FailedCount(outcomes);
    if n == 0 then None else Some(FailureOf(outcomes[n - 1]))
  }

  /**
   * The `for` loop over the endpoints: POST to each in order, stop at the first
   * status below 400, and otherwise remember the failure and move on.
   */
  method TryEndpoints(urls: seq<string>, email: string, outcomes: seq<Response>)
    returns (succeeded: bool, requests: seq<Request>, lastError: Option<Failure>)
    requires |outcomes| == |urls|
    ensures succeeded <==> FirstSuccess(outcomes).Some?
    ensures |requests| == AttemptCount(outcomes) <= |urls|
    ensures forall n :: 0 <= n < |requests| ==> requests[n] == Request(urls[n], email)
    ensures lastError == LastFailure(outcomes)
  {
    succeeded, requests, lastError := false, [], None;
    var n := 0;
    while n < |urls|
      invariant 0 <= n <= |urls|
      invariant !succeeded
      invariant forall m :: 0 <= m < n ==> !Succeeds(outcomes[m])
      invariant |requests| == n
      invariant forall m :: 0 <= m < n ==> requests[m] == Request(urls[m], email)
      invariant lastError == if n == 0 then None else Some(FailureOf(outcomes[n - 1]))
    {
      requests := requests + [Request(urls[n], email)];
      match outcomes[n] {
        case Status(code) =>
          if code < 400 {
            succeeded := true;
            break;
          }
          lastError := Some(HttpError(code));
        case Thrown =>
          lastError := Some(NetworkError);
      }
      n := n + 1;
    }
  }

  /**
   * The popup's state: the four React state values of the form, the
   * session-storage flag `emailSubmitted`, and the log of POSTs made so far.
   */
  datatype Popup = Popup(
    email: string,
    emailError: string,
    isLoading: bool,
    isSubmitted: bool,
    sessionSubmitted: bool,
    sent: seq<Request>)

  const Initial := Popup("", "", false, false, false, [])

  /** The message validation leaves in `emailError`, or None when the email may be sent. */
  function ValidationError(email: string): (r: Option<string>)
    ensures r.None? <==> IsValidEmail(email)
  {
    if email == "" then Some(EmptyMessage)
    else if !IsValidEmail(email) then Some(InvalidMessage)
    else None
  }

  /** The input's onChange handler. */
  function ChangeSpec(p: Popup, value: string): Popup {
    p.(email := value, emailError := "")
  }

  /** handleSubmit up to its first await: reset the error, validate, and start loading. */
  function BeginSpec(p: Popup): Popup {
    match ValidationError(p.email)
    case Some(msg) => p.(emailError := msg)
    case None => p.(emailError := "", isLoading := true)
  }

  /** handleSubmit after the pass over the endpoints with the email it captured. */
  function FinishSpec(p: Popup, submitted: string, outcomes: seq<Response>): Popup
    requires |outcomes| == |ApiUrls|
  {
    var sent := p.sent + seq(AttemptCount(outcomes), n requires 0 <= n < |ApiUrls| => Request(ApiUrls[n], submitted));
    if FirstSuccess(outcomes).Some? then
      p.(isLoading := false, isSubmitted := true, email := "", sessionSubmitted := true, sent := sent)
    else
      p.(isLoading := false, emailError := FailedMessage, sent := sent)
  }

  /** The whole of handleSubmit. */
  function SubmitSpec(p: Popup, outcomes: seq<Response>): Popup
    requires |outcomes| == |ApiUrls|
  {
    if IsValidEmail(p.email) then FinishSpec(BeginSpec(p), p.email, outcomes) else BeginSpec(p)
  }

  /** The submit button's onClick: ignored while a submission is loading. */
  function ClickSpec(p: Popup, outcomes: seq<Response>): Popup
    requires |outcomes| == |ApiUrls|
  {
    if p.isLoading then p else SubmitSpec(p, outcomes)
  }

  /**
   * What every reachable state satisfies: each POST carried an email the
   * pattern accepts, and the confirmation view implies the session flag.
   */
  ghost predicate Valid(p: Popup) {
    (p.isSubmitted ==> p.sessionSubmitted) &&
    forall n :: 0 <= n < |p.sent| ==> MatchesPattern(p.sent[n].email)
  }

  lemma InitialValid()
    ensures Valid(Initial)
  {
  }

  /** An empty field gives "Please enter your email", contacts no endpoint and does not start loading. */
  lemma EmptyEmailRejected(p: Popup, outcomes: seq<Response>)
    requires |outcomes| == |ApiUrls|
    requires p.email == ""
    ensures SubmitSpec(p, outcomes) == p.(emailError := EmptyMessage)
  {
    EmptyIsNotValid();
  }

  /** A non-empty email outside the pattern gives "Please enter a valid email address" and nothing else changes. */
  lemma MalformedEmailRejected(p: Popup, outcomes: seq<Response>)
    requires |outcomes| == |ApiUrls|
    requires p.email != "" && !MatchesPattern(p.email)
    ensures SubmitSpec(p, outcomes) == p.(emailError := InvalidMessage)
  {
    ValidEmailIffPattern(p.email);
  }

  /**
   * A submission that passed validation POSTs the email to the endpoints in
   * list order, one more than the index of the first success; success shows
   * the confirmation, clears the field and sets the session flag.
   */
  lemma SubmitSucceeds(p: Popup, outcomes: seq<Response>, k: nat)
    requires |outcomes| == |ApiUrls|
    requires MatchesPattern(p.email)
    requires k < |outcomes| && Succeeds(outcomes[k])
    requires forall m :: 0 <= m < k ==> !Succeeds(outcomes[m])
    ensures var q := SubmitSpec(p, outcomes);
      q.isSubmitted && q.email == "" && q.sessionSubmitted && !q.isLoading &&
      q.emailError == "" && |q.sent| == |p.sent| + k + 1 && q.sent[..|p.sent|] == p.sent &&
      forall m :: 0 <= m <= k ==> q.sent[|p.sent| + m] == Request(ApiUrls[m], p.email)
  {
    ValidEmailIffPattern(p.email);
  }

  /**
   * When every endpoint fails, all three are tried, the generic retry message
   * is shown, the field keeps its value and the confirmation stays off.
   */
  lemma SubmitAllFail(p: Popup, outcomes: seq<Response>)
    requires |outcomes| == |ApiUrls|
    requires MatchesPattern(p.email)
    requires forall m :: 0 <= m < |outcomes| ==> !Succeeds(outcomes[m])
    ensures var q := SubmitSpec(p, outcomes);
      q.email == p.email && q.isSubmitted == p.isSubmitted && !q.isLoading &&
      q.emailError == FailedMessage && q.sessionSubmitted == p.sessionSubmitted &&
      q.sent == p.sent + [Request(ApiUrls[0], p.email), Request(ApiUrls[1], p.email), Request(ApiUrls[2], p.email)]
    ensures LastFailure(outcomes) == Some(FailureOf(outcomes[2]))
  {
    ValidEmailIffPattern(p.email);
    var q := SubmitSpec(p, outcomes);
    assert q.sent[|p.sent|..] == [Request(ApiUrls[0], p.email), Request(ApiUrls[1], p.email), Request(ApiUrls[2], p.email)];
  }

  /** A pass makes exactly one attempt per failure before the first success, plus that success. */
  lemma AttemptsAreFirstSuccessPlusOne(outcomes: seq<Response>, k: nat)
    requires k < |outcomes| && Succeeds(outcomes[k])
    requires forall m :: 0 <= m < k ==> !Succeeds(outcomes[m])
    ensures FirstSuccess(outcomes) == Some(k)
    ensures AttemptCount(outcomes) == k + 1
    ensures LastFailure(outcomes) == if k == 0 then None else Some(FailureOf(outcomes[k - 1]))
  {
  }

  /** Three endpoint scenarios: 200 first, 500-500-201, and 500 throughout. */
  lemma EndpointScenarios()
    ensures AttemptCount([Status(200), Status(200), Status(200)]) == 1
    ensures FirstSuccess([Status(500), Status(500), Status(201)]) == Some(2)
    ensures AttemptCount([Status(500), Status(500), Status(201)]) == 3
    ensures FirstSuccess([Status(500), Status(500), Status(500)]).None?
    ensures LastFailure([Status(500), Thrown, Status(503)]) == Some(HttpError(503))
  {
    AttemptsAreFirstSuccessPlusOne([Status(200), Status(200), Status(200)], 0);
    AttemptsAreFirstSuccessPlusOne([Status(500), Status(500), Status(201)], 2);
  }

  /** After any submission that passed validation, loading is over. */
  lemma SubmitEndsLoading(p: Popup, outcomes: seq<Response>)
    requires |outcomes| == |ApiUrls|
    requires MatchesPattern(p.email)
    ensures !SubmitSpec(p, outcomes).isLoading
  {
    ValidEmailIffPattern(p.email);
  }

  /** A click while loading changes nothing, and in particular POSTs nothing. */
  lemma ClickWhileLoadingIgnored(p: Popup, outcomes: seq<Response>)
    requires |outcomes| == |ApiUrls|
    requires p.isLoading
    ensures ClickSpec(p, outcomes) == p
  {
  }

  /** Typing sets the field to the new value and clears any error. */
  lemma ChangeClearsError(p: Popup, value: string)
    ensures ChangeSpec(p, value).email == value && ChangeSpec(p, value).emailError == ""
    ensures ChangeSpec(p, value).sent == p.sent && ChangeSpec(p, value).isSubmitted == p.isSubmitted
  {
  }

  lemma ChangePreservesValid(p: Popup, value: string)
    requires Valid(p)
    ensures Valid(ChangeSpec(p, value))
  {
  }

  lemma FinishPreservesValid(p: Popup, submitted: string, outcomes: seq<Response>)
    requires |outcomes| == |ApiUrls|
    requires Valid(p) && IsValidEmail(submitted)
    ensures Valid(FinishSpec(p, submitted, outcomes))
  {
    ValidEmailIffPattern(submitted);
    var q := FinishSpec(p, submitted, outcomes);
    forall n | 0 <= n < |q.sent| ensures MatchesPattern(q.sent[n].email) {
      if n >= |p.sent| { assert q.sent[n].email == submitted; }
    }
  }

  lemma SubmitPreservesValid(p: Popup, outcomes: seq<Response>)
    requires |outcomes| == |ApiUrls|
    requires Valid(p)
    ensures Valid(SubmitSpec(p, outcomes))
  {
    if IsValidEmail(p.email) {
      FinishPreservesValid(BeginSpec(p), p.email, outcomes);
    }
  }

  lemma BeginPreservesValid(p: Popup)
    requires Valid(p)
    ensures Valid(BeginSpec(p))
  {
  }

  lemma ClickPreservesValid(p: Popup, outcomes: seq<Response>)
    requires |outcomes| == |ApiUrls|
    requires Valid(p)
    ensures Valid(ClickSpec(p, outcomes))
  {
    if !p.isLoading {
      SubmitPreservesValid(p, outcomes);
    }
  }

  /** The popup component; each handler's new state is given by the functions above. */
  class EmailPopup {
    var email: string
    var emailError: string
    var isLoading: bool
    var isSubmitted: bool
    var sessionSubmitted: bool
    var sent: seq<Request>

    function State(): Popup
      reads this
    {
      Popup(email, emailError, isLoading, isSubmitted, sessionSubmitted, sent)
    }

    constructor ()
      ensures State() == Initial
    {
      email, emailError, isLoading, isSubmitted := "", "", false, false;
      sessionSubmitted, sent := false, [];
    }

    /** The input's onChange. */
    method OnChange(value: string)
      modifies this
      ensures State() == ChangeSpec(old(State()), value)
    {
      email := value;
      if emailError != "" {
        emailError := "";
      }
    }

    /** handleSubmit up to its first await; `proceed` says whether it goes on to the endpoints. */
    method BeginSubmit() returns (proceed: bool)
      modifies this
      ensures proceed == MatchesPattern(old(email))
      ensures State() == BeginSpec(old(State()))
    {
      ValidEmailIffPattern(email);
      emailError := "";
      if email == "" {
        emailError := EmptyMessage;
        return false;
      }
      if !IsValidEmail(email) {
        emailError := InvalidMessage;
        return false;
      }
      isLoading := true;
      return true;
    }

    /** handleSubmit from the endpoint loop on, for the email captured when it started. */
    method FinishSubmit(submitted: string, outcomes: seq<Response>) returns (lastError: Option<Failure>)
      requires IsValidEmail(submitted)
      requires |outcomes| == |ApiUrls|
      modifies this
      ensures State() == FinishSpec(old(State()), submitted, outcomes)
      ensures lastError == LastFailure(outcomes)
    {
      var succeeded, requests;
      succeeded, requests, lastError := TryEndpoints(ApiUrls, submitted, outcomes);
      sent := sent + requests;
      if succeeded {
        isLoading := false;
        isSubmitted := true;
        email := "";
        sessionSubmitted := true;
      } else {
        isLoading := false;
        emailError := FailedMessage;
      }
    }

    /** The form's onSubmit: handleSubmit run to completion. */
    method Submit(outcomes: seq<Response>) returns (lastError: Option<Failure>)
      requires |outcomes| == |ApiUrls|
      modifies this
      ensures State() == SubmitSpec(old(State()), outcomes)
      ensures lastError == if MatchesPattern(old(email)) then LastFailure(outcomes) else None
    {
      var captured := email;
      ValidEmailIffPattern(captured);
      var proceed := BeginSubmit();
      lastError := None;
      if proceed {
        lastError := FinishSubmit(captured, outcomes);
      }
    }

    /** The submit button's onClick (its repeated validation is the one in BeginSubmit). */
    method Click(outcomes: seq<Response>) returns (lastError: Option<Failure>)
      requires |outcomes| == |ApiUrls|
      modifies this
      ensures State() == ClickSpec(old(State()), outcomes)
      ensures lastError == if !old(isLoading) && MatchesPattern(old(email)) then LastFailure(outcomes) else None
    {
      lastError := None;
      if isLoading {
        return;
      }
      lastError := Submit(outcomes);
    }
  }

  /** A pass where the first endpoint answers 500 and the second 201 POSTs twice and succeeds. */
  lemma PendingPassSends(p: Popup, address: string)
    requires p.sent == []
    ensures FinishSpec(p, address, [Status(500), Status(201), Status(200)])
      == p.(isLoading := false, isSubmitted := true, email := "", sessionSubmitted := true,
            sent := [Request(ApiUrls[0], address), Request(ApiUrls[1], address)])
  {
    var outcomes := [Status(500), Status(201), Status(200)];
    assert FirstSuccess(outcomes) == Some(1) && AttemptCount(outcomes) == 2 by {
      AttemptsAreFirstSuccessPlusOne(outcomes, 1);
    }
    assert [] + seq(2, n requires 0 <= n < |ApiUrls| => Request(ApiUrls[n], address))
      == [Request(ApiUrls[0], address), Request(ApiUrls[1], address)];
  }

  /**
   * A client: a click that arrives while the first submission is waiting on
   * the network is ignored, and the submission then completes on its own.
   */
  method ClickDuringSubmission(address: string) returns (started: Popup, afterClick: Popup, finished: Popup)
    requires MatchesPattern(address)
    ensures started.isLoading && started.email == address && started.sent == []
    ensures afterClick == started
    ensures finished.isSubmitted && finished.email == "" && !finished.isLoading && finished.sessionSubmitted
    ensures finished.sent == [Request(ApiUrls[0], address), Request(ApiUrls[1], address)]
  {
    var popup := new EmailPopup();
    popup.OnChange(address);
    ValidEmailIffPattern(address);
    var proceed := popup.BeginSubmit();
    started := popup.State();
    var _ := popup.Click([Status(200), Status(200), Status(200)]);
    afterClick := popup.State();
    PendingPassSends(started, address);
    var _ := popup.FinishSubmit(address, [Status(500), Status(201), Status(200)]);
    finished := popup.State();
  }

}
