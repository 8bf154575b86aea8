/**
 * The contact form in the footer: three text fields and two independent
 * flags, `isSubmitting` and `isSubmitted`. They change on field edits, on
 * the form's submit event, and when one of two timers fires: the 1500 ms
 * simulated submission delay that `handleSubmit` awaits, and the 5000 ms
 * timeout that hides the success message. The timers are explicit events
 * here, not wall-clock time.
 */
module FooterSection {

  /** The `name` attribute of an input of the form. */
  datatype Field = Name | Email | Message

  /** The `formData` state. */
  datatype FormData = FormData(name: string, email: string, message: string)
  {
    function Get(f: Field): string
    {
      match f
      case Name => name
      case Email => email
      case Message => message
    }

    /** `{ ...prev, [f]: v }` */
    function Set(f: Field, v: string): FormData
    {
      match f
      case Name => this.(name := v)
      case Email => this.(email := v)
      case Message => this.(message := v)
    }
  }

  const EmptyForm := FormData("", "", "")

  /**
   * The footer's state: the form, the two flags, and the timers started by
   * `handleSubmit` that have not fired yet (submission delays still awaited,
   * reset timeouts still pending).
   */
  datatype FooterState = FooterState(
    form: FormData,
    isSubmitting: bool,
    isSubmitted: bool,
    pendingDelays: nat,
    pendingResets: nat)

  const Initial := FooterState(EmptyForm, false, false, 0, 0)

  /** What can happen to the footer. */
  datatype Event =
    | Change(field: Field, value: string)  // handleChange for the input named `field`
    | Submit                               // the form's submit event reaches handleSubmit
    | DelayElapsed                         // the awaited 1500 ms delay resolves
    | ResetElapsed                         // the 5000 ms reset timeout fires

  /** A timer can fire only when one is pending; edits and submit events can always arrive. */
  predicate CanOccur(s: FooterState, e: Event)
  {
    match e
    case DelayElapsed => s.pendingDelays > 0
    case ResetElapsed => s.pendingResets > 0
    case _ => true
  }

  /** The effect of one event. */
  function Apply(s: FooterState, e: Event): FooterState
    requires CanOccur(s, e)
  {
    match e
    case Change(f, v) => s.(form := s.form.Set(f, v))
    case Submit => s.(isSubmitting := true, pendingDelays := s.pendingDelays + 1)
    case DelayElapsed =>
      s.(isSubmitting := false, isSubmitted := true, form := EmptyForm,
         pendingDelays := s.pendingDelays - 1, pendingResets := s.pendingResets + 1)
    case ResetElapsed => s.(isSubmitted := false, pendingResets := s.pendingResets - 1)
  }

  /** The submit button's `disabled` attribute. */
  predicate ButtonDisabled(s: FooterState)
  {
    s.isSubmitting
  }

  /**
   * The browser dispatches the submit event only while the submit button is
   * enabled and every `required` field is filled in.
   */
  predicate SubmitAllowed(s: FooterState)
  {
    !ButtonDisabled(s) && s.form.name != "" && s.form.email != "" && s.form.message != ""
  }

  /** An event the page can produce: anything that can occur, and a submit only when the browser lets it through. */
  predicate Allowed(s: FooterState, e: Event)
  {
    CanOccur(s, e) && (e.Submit? ==> SubmitAllowed(s))
  }

  const SendingLabel := "Sending..."
  const SentLabel := "Message Sent!"
  const SendLabel := "Send Message"

  /** The submit button's text: submitting wins over submitted, which wins over idle. */
  function ButtonLabel(isSubmitting: bool, isSubmitted: bool): (text: string)
    ensures text == SendingLabel <==> isSubmitting
    ensures text == SentLabel <==> !isSubmitting && isSubmitted
    ensures text == SendLabel <==> !isSubmitting && !isSubmitted
  {
    if isSubmitting then SendingLabel
    else if isSubmitted then SentLabel
    else SendLabel
  }

  /** A sequence of events each of which can occur in the state the previous ones left. */
  predicate Feasible(s: FooterState, events: seq<Event>)
    decreases |events|
  {
    events == [] || (CanOccur(s, events[0]) && Feasible(Apply(s, events[0]), events[1..]))
  }

  /** A feasible sequence in which every submit is one the browser lets through. */
  predicate Gated(s: FooterState, events: seq<Event>)
    decreases |events|
  {
    events == [] || (Allowed(s, events[0]) && Gated(Apply(s, events[0]), events[1..]))
  }

  /** The state after a feasible sequence of events. */
  function Run(s: FooterState, events: seq<Event>): FooterState
    requires Feasible(s, events)
    decreases |events|
  {
    if events == [] then s else Run(Apply(s, events[0]), events[1..])
  }

  lemma {:induction false} GatedIsFeasible(s: FooterState, events: seq<Event>)
    requires Gated(s, events)
    ensures Feasible(s, events)
    decreases |events|
  {
    if events != [] {
      GatedIsFeasible(Apply(s, events[0]), events[1..]);
    }
  }

  /** An edit overwrites the field it names and nothing else. */
  lemma ChangeOverwritesOneField(s: FooterState, f: Field, v: string)
    ensures var t := Apply(s, Change(f, v));
      && t.form.Get(f) == v
      && (forall g :: g != f ==> t.form.Get(g) == s.form.Get(g))
      && t.(form := s.form) == s
  {
  }

  /**
   * What the page guarantees as long as submits go through the button: at
   * most one submission is in flight, `isSubmitting` is set exactly while it
   * is, and "Message Sent!" is only shown while a reset timeout is pending.
   */
  ghost predicate Inv(s: FooterState)
  {
    && s.pendingDelays <= 1
    && (s.isSubmitting <==> s.pendingDelays == 1)
    && (s.isSubmitted ==> s.pendingResets > 0)
  }

  lemma {:induction false} InvHoldsOnGatedRuns(s: FooterState, events: seq<Event>)
    requires Inv(s) && Gated(s, events)
    ensures Feasible(s, events) && Inv(Run(s, events))
    decreases |events|
  {
    GatedIsFeasible(s, events);
    if events != [] {
      InvHoldsOnGatedRuns(Apply(s, events[0]), events[1..]);
    }
  }

  /** From mount, as long as submits go through the button, the invariant holds in every reachable state. */
  lemma GatedRunsFromMountKeepInv(events: seq<Event>)
    requires Gated(Initial, events)
    ensures Feasible(Initial, events)
    ensures var s := Run(Initial, events);
      && s.pendingDelays <= 1
      && (s.isSubmitting <==> s.pendingDelays == 1)
      && (s.isSubmitted ==> s.pendingResets > 0)
  {
    InvHoldsOnGatedRuns(Initial, events);
  }

  /**
   * The form's fields change only through edits and the end of the
   * submission delay: a run without either leaves them as they were.
   */
  lemma {:induction false} FieldsChangeOnlyByEditOrDelay(s: FooterState, events: seq<Event>)
    requires Feasible(s, events)
    requires forall i :: 0 <= i < |events| ==> !events[i].Change? && !events[i].DelayElapsed?
    ensures Run(s, events).form == s.form
    decreases |events|
  {
    if events != [] {
      FieldsChangeOnlyByEditOrDelay(Apply(s, events[0]), events[1..]);
    }
  }

  /**
   * One full round from the idle form: submitting, then submitted with the
   * fields cleared, then back to exactly the initial state.
   */
  lemma SubmitCycle(form: FormData)
    ensures var idle := FooterState(form, false, false, 0, 0);
      var submitting := Apply(idle, Submit);
      var submitted := Apply(submitting, DelayElapsed);
      && submitting == idle.(isSubmitting := true, pendingDelays := 1)
      && ButtonLabel(submitting.isSubmitting, submitting.isSubmitted) == SendingLabel
      && submitted == FooterState(EmptyForm, false, true, 0, 1)
      && ButtonLabel(submitted.isSubmitting, submitted.isSubmitted) == SentLabel
      && Apply(submitted, ResetElapsed) == Initial
  {
  }

  /** Running two gated sequences one after the other is running their concatenation. */
  lemma {:induction false} GatedConcat(s: FooterState, a: seq<Event>, b: seq<Event>)
    requires Gated(s, a)
    ensures Feasible(s, a)
    ensures Gated(Run(s, a), b) ==> Feasible(Run(s, a), b)
    ensures Gated(Run(s, a), b) ==>
      && Gated(s, a + b)
      && Feasible(s, a + b)
      && Run(s, a + b) == Run(Run(s, a), b)
    decreases |a|
  {
    GatedIsFeasible(s, a);
    if a == [] {
      assert a + b == b;
    } else {
      assert (a + b)[0] == a[0];
      assert (a + b)[1..] == a[1..] + b;
      GatedConcat(Apply(s, a[0]), a[1..], b);
    }
    if Gated(Run(s, a), b) {
      GatedIsFeasible(Run(s, a), b);
      GatedIsFeasible(s, a + b);
    }
  }

  /** Typing `n`, `e` and `m` into the three fields, then pressing the button. */
  function FillAndSubmit(n: string, e: string, m: string): seq<Event>
  {
    [Change(Name, n), Change(Email, e), Change(Message, m), Submit]
  }

  /**
   * From any state where the button is enabled, filling in all three fields
   * with non-empty text gets the submit through the browser's gate.
   */
  lemma FillAndSubmitStartsSubmission(s: FooterState, n: string, e: string, m: string)
    requires !s.isSubmitting && n != "" && e != "" && m != ""
    ensures Gated(s, FillAndSubmit(n, e, m))
    ensures Feasible(s, FillAndSubmit(n, e, m))
    ensures Run(s, FillAndSubmit(n, e, m))
      == s.(form := FormData(n, e, m), isSubmitting := true, pendingDelays := s.pendingDelays + 1)
  {
    var events := FillAndSubmit(n, e, m);
    var s1 := Apply(s, Change(Name, n));
    var s2 := Apply(s1, Change(Email, e));
    var s3 := Apply(s2, Change(Message, m));
    var s4 := Apply(s3, Submit);
    assert events[1..] == [Change(Email, e), Change(Message, m), Submit];
    assert events[1..][1..] == [Change(Message, m), Submit];
    assert events[1..][1..][1..] == [Submit];
    assert Gated(s3, [Submit]) && Run(s3, [Submit]) == s4;
    assert Gated(s2, [Change(Message, m), Submit]);
    assert Gated(s1, [Change(Email, e), Change(Message, m), Submit]);
    GatedIsFeasible(s, events);
    assert Run(s2, [Change(Message, m), Submit]) == s4;
    assert Run(s1, [Change(Email, e), Change(Message, m), Submit]) == s4;
    assert s4 == s.(form := FormData(n, e, m), isSubmitting := true, pendingDelays := s.pendingDelays + 1);
  }

  /**
   * `handleSubmit` has no guard of its own: once the success message shows
   * the button is enabled again, so a second submit through the button
   * reaches a state with both flags set, and the label says "Sending...".
   */
  lemma BothFlagsReachable()
    ensures var events := FillAndSubmit("a", "b@c", "c") + [DelayElapsed] + FillAndSubmit("a", "b@c", "c");
      && Gated(Initial, events)
      && Feasible(Initial, events)
      && Run(Initial, events) == FooterState(FormData("a", "b@c", "c"), true, true, 1, 1)
      && ButtonLabel(true, true) == SendingLabel
  {
    var first := FillAndSubmit("a", "b@c", "c") + [DelayElapsed];
    FillAndSubmitStartsSubmission(Initial, "a", "b@c", "c");
    var s1 := Run(Initial, FillAndSubmit("a", "b@c", "c"));
    assert Gated(s1, [DelayElapsed]);
    GatedConcat(Initial, FillAndSubmit("a", "b@c", "c"), [DelayElapsed]);
    var s2 := Run(Initial, first);
    assert s2 == FooterState(EmptyForm, false, true, 0, 1);
    FillAndSubmitStartsSubmission(s2, "a", "b@c", "c");
    GatedConcat(Initial, first, FillAndSubmit("a", "b@c", "c"));
  }

  /**
   * Each reset timeout clears `isSubmitted` whichever submission set it: when
   * a second submission completes before the first one's timeout fires, that
   * timeout hides "Message Sent!" while the second one's is still pending.
   */
  lemma EarlierResetHidesLaterSuccess()
    ensures var events := FillAndSubmit("a", "b@c", "c") + [DelayElapsed] + FillAndSubmit("a", "b@c", "c") + [DelayElapsed, ResetElapsed];
      && Gated(Initial, events)
      && Feasible(Initial, events)
      && !Run(Initial, events).isSubmitted
      && Run(Initial, events).pendingResets == 1
  {
    var first := FillAndSubmit("a", "b@c", "c") + [DelayElapsed];
    var second := first + FillAndSubmit("a", "b@c", "c");
    BothFlagsReachable();
    var s3 := Run(Initial, second);
    assert s3 == FooterState(FormData("a", "b@c", "c"), true, true, 1, 1);
    var tail := [DelayElapsed, ResetElapsed];
    assert tail[1..] == [ResetElapsed];
    assert Gated(s3, tail);
    GatedConcat(Initial, second, tail);
  }

  /**
   * Without the disabled button, two submits would put two submissions in
   * flight, and the first to finish would clear `isSubmitting` while the
   * second is still pending.
   */
  lemma DoubleSubmitWithoutButtonGuard()
    ensures Feasible(Initial, [Submit, Submit, DelayElapsed])
    ensures var s := Run(Initial, [Submit, Submit, DelayElapsed]);
      !s.isSubmitting && s.pendingDelays == 1 && !Inv(s)
    ensures !Gated(Initial, [Submit, Submit, DelayElapsed])
  {
  }

  /** The footer component with its state hooks and the timers it has started. */
  class Footer {
    var formData: FormData
    var isSubmitting: bool
    var isSubmitted: bool
    var pendingDelays: nat
    var pendingResets: nat

    function State(): FooterState
      reads this
    {
      FooterState(formData, isSubmitting, isSubmitted, pendingDelays, pendingResets)
    }

    /** Mounting: all three fields empty, neither flag set, no timer pending. */
    constructor ()
      ensures State() == Initial
    {
      formData := EmptyForm;
      isSubmitting := false;
      isSubmitted := false;
      pendingDelays := 0;
      pendingResets := 0;
    }

    /** `handleChange`: overwrites the field the input names; the other fields and both flags stay. */
    method HandleChange(field: Field, value: string)
      modifies this
      ensures State() == Apply(old(State()), Change(field, value))
      ensures formData.Get(field) == value
      ensures forall g :: g != field ==> formData.Get(g) == old(formData.Get(g))
      ensures isSubmitting == old(isSubmitting) && isSubmitted == old(isSubmitted)
    {
      formData := formData.Set(field, value);
    }

    /**
     * `handleSubmit` up to its await: prevents the browser's own form
     * submission, sets `isSubmitting` and starts the delay; fields and
     * `isSubmitted` stay.
     */
    method HandleSubmit() returns (defaultPrevented: bool)
      modifies this
      ensures defaultPrevented
      ensures State() == Apply(old(State()), Submit)
      ensures isSubmitting && isSubmitted == old(isSubmitted) && formData == old(formData)
    {
      defaultPrevented := true;
      isSubmitting := true;
      pendingDelays := pendingDelays + 1;
    }

    /**
     * The awaited delay resolves: `isSubmitting` off, `isSubmitted` on, all
     * fields cleared, and the reset timeout started.
     */
    method SubmissionDelayElapsed()
      requires pendingDelays > 0
      modifies this
      ensures State() == Apply(old(State()), DelayElapsed)
      ensures !isSubmitting && isSubmitted && formData == EmptyForm
    {
      isSubmitting := false;
      isSubmitted := true;
      formData := EmptyForm;
      pendingDelays := pendingDelays - 1;
      pendingResets := pendingResets + 1;
    }

    /** The reset timeout fires: `isSubmitted` off, nothing else changes. */
    method ResetTimeoutElapsed()
      requires pendingResets > 0
      modifies this
      ensures State() == Apply(old(State()), ResetElapsed)
      ensures !isSubmitted && isSubmitting == old(isSubmitting) && formData == old(formData)
    {
      isSubmitted := false;
      pendingResets := pendingResets - 1;
    }

    /**
     * The user presses the submit button: the browser runs `handleSubmit`
     * only if the button is enabled and the required fields are filled in.
     */
    method PressSubmitButton() returns (dispatched: bool)
      modifies this
      ensures dispatched == SubmitAllowed(old(State()))
      ensures State() == if dispatched then Apply(old(State()), Submit) else old(State())
      ensures old(isSubmitting) ==> !dispatched && State() == old(State())
    {
      dispatched := SubmitAllowed(State());
      if dispatched {
        var _ := HandleSubmit();
      }
    }
  }
}
