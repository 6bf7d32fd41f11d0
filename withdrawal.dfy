/** The withdrawal wizard of the Salary page as a state machine: amount entry
    (step 1), payment details (step 2), a processing spinner and an error
    panel, driven by the page's handlers and by the two `setTimeout`
    callbacks, which appear here as explicit timer events. No state of the
    machine stands for a successful withdrawal. */
module Withdrawal {
  import opened Wrappers

  datatype PayoutMethod = Bank | Upi | Card

  /** `withdrawalData`: the amount, the payout `method` and the method-specific
      details typed so far. */
  datatype Request = Request(
    amount: int,
    payout: PayoutMethod,
    accountNumber: Option<string>,
    ifscCode: Option<string>,
    accountHolderName: Option<string>,
    upiId: Option<string>,
    cardNumber: Option<string>)

  /** `{ amount: 0, method: 'bank' }`. */
  function EmptyRequest(): Request {
    Request(0, Bank, None, None, None, None, None)
  }

  /** One keystroke or selection in the payment-detail inputs. */
  datatype DetailEdit =
    | AccountNumber(text: string)
    | IfscCode(text: string)
    | AccountHolderName(text: string)
    | UpiId(text: string)
    | CardNumber(text: string)

  /** `{ ...withdrawalData, [detail]: text }`. */
  function WithDetail(r: Request, e: DetailEdit): (q: Request)
    ensures q.amount == r.amount && q.payout == r.payout
    ensures q.accountNumber == if e.AccountNumber? then Some(e.text) else r.accountNumber
    ensures q.ifscCode == if e.IfscCode? then Some(e.text) else r.ifscCode
    ensures q.accountHolderName == if e.AccountHolderName? then Some(e.text) else r.accountHolderName
    ensures q.upiId == if e.UpiId? then Some(e.text) else r.upiId
    ensures q.cardNumber == if e.CardNumber? then Some(e.text) else r.cardNumber
  {
    match e
    case AccountNumber(t) => r.(accountNumber := Some(t))
    case IfscCode(t) => r.(ifscCode := Some(t))
    case AccountHolderName(t) => r.(accountHolderName := Some(t))
    case UpiId(t) => r.(upiId := Some(t))
    case CardNumber(t) => r.(cardNumber := Some(t))
  }

  /** `withdrawalStep`: 1 is the amount form, 2 the payment-details form. */
  datatype Step = AmountStep | DetailsStep

  /** The two scheduled callbacks: the 10-second processing delay and the
      5-second error display. */
  datatype Timer = ProcessingTimer | ErrorTimer

  /** `showWithdrawal`, `withdrawalStep`, `withdrawalData`, `isLoading`,
      `showError`, and the callback waiting to fire. */
  datatype Wizard = Wizard(
    open: bool,
    step: Step,
    request: Request,
    loading: bool,
    error: bool,
    pending: Option<Timer>)

  /** The state of a closed wizard, as mounted and as reset. */
  function Closed(): Wizard {
    Wizard(false, AmountStep, EmptyRequest(), false, false, None)
  }

  /** The invariant every reachable state keeps: the spinner is up exactly
      while the processing callback waits, the error panel exactly while the
      error callback waits, and both happen only on an open step 2 whose
      amount passed the step-1 check. */
  predicate Consistent(w: Wizard) {
    && (w.loading <==> w.pending == Some(ProcessingTimer))
    && (w.error <==> w.pending == Some(ErrorTimer))
    && (w.pending.Some? ==> w.open && w.step == DetailsStep)
    && (w.step == DetailsStep ==> w.request.amount > 0)
  }

  /** The modal shows its forms (rather than the spinner or the error panel):
      the close button, both submit buttons and all inputs exist only then. */
  predicate FormShown(w: Wizard) {
    w.open && !w.loading && !w.error
  }

  /** While a form is shown no callback is waiting. */
  lemma FormShownHasNoTimer(w: Wizard)
    requires Consistent(w) && FormShown(w)
    ensures w.pending == None
  {
    if w.pending.Some? {
      match w.pending.value
      case ProcessingTimer =>
      case ErrorTimer =>
    }
  }

  /** "Withdraw Salary" on the page: the modal becomes visible and nothing
      else changes. A consistent closed wizard has no callback pending, so
      opening it puts its form on screen. */
  function Open(w: Wizard): (r: Wizard)
    ensures r.open && r.(open := w.open) == w
    ensures Consistent(w) ==> Consistent(r)
    ensures Consistent(w) && !w.open ==> FormShown(r)
  {
    w.(open := true)
  }

  /** The amount input of step 1. */
  function EnterAmount(w: Wizard, amount: int): (r: Wizard)
    requires FormShown(w) && w.step == AmountStep
    ensures r.request.amount == amount && r.request.(amount := w.request.amount) == w.request
    ensures r.(request := w.request) == w
    ensures FormShown(r) && (Consistent(w) ==> Consistent(r))
  {
    w.(request := w.request.(amount := amount))
  }

  /** The method buttons of step 2. */
  function ChooseMethod(w: Wizard, m: PayoutMethod): (r: Wizard)
    requires FormShown(w) && w.step == DetailsStep
    ensures r.request.payout == m && r.request.(payout := w.request.payout) == w.request
    ensures r.(request := w.request) == w
    ensures FormShown(r) && (Consistent(w) ==> Consistent(r))
  {
    w.(request := w.request.(payout := m))
  }

  /** The detail inputs of step 2. */
  function FillDetail(w: Wizard, e: DetailEdit): (r: Wizard)
    requires FormShown(w) && w.step == DetailsStep
    ensures r.request == WithDetail(w.request, e)
    ensures r.(request := w.request) == w
    ensures FormShown(r) && (Consistent(w) ==> Consistent(r))
  {
    w.(request := WithDetail(w.request, e))
  }

  /** `disabled={!amount || amount > totalEarnings}` negated: when the
      "Continue" button can be clicked. */
  predicate ContinueEnabled(w: Wizard, totalEarnings: int) {
    !(w.request.amount == 0 || w.request.amount > totalEarnings)
  }

  /** `handleWithdrawalSubmit`: on step 1 move to step 2 when
      `0 < amount <= totalEarnings` and otherwise do nothing; on step 2 show
      the spinner and start the processing delay. */
  function Submit(w: Wizard, totalEarnings: int): (r: Wizard)
    requires FormShown(w)
    ensures r.open && !r.error && r.request == w.request
    ensures w.step == AmountStep ==>
      && (r.step == DetailsStep <==> 0 < w.request.amount <= totalEarnings)
      && FormShown(r) && r.pending == w.pending
    ensures w.step == DetailsStep ==>
      r.step == DetailsStep && r.loading && r.pending == Some(ProcessingTimer)
  {
    match w.step
    case AmountStep =>
      if w.request.amount > 0 && w.request.amount <= totalEarnings then w.(step := DetailsStep) else w
    case DetailsStep =>
      w.(loading := true, pending := Some(ProcessingTimer))
  }

  /** The pending callback fires: after processing, the spinner gives way to
      the error panel and the error delay starts; after the error delay, the
      wizard closes and is reset. */
  function TimerFires(w: Wizard): (r: Wizard)
    requires w.pending.Some?
    ensures Consistent(w) ==> Consistent(r)
    ensures w.pending == Some(ProcessingTimer) ==>
      && !r.loading && r.error && r.pending == Some(ErrorTimer)
      && r.open == w.open && r.step == w.step && r.request == w.request
    ensures Consistent(w) && w.pending == Some(ErrorTimer) ==> r == Closed()
  {
    match w.pending.value
    case ProcessingTimer =>
      w.(loading := false, error := true, pending := Some(ErrorTimer))
    case ErrorTimer =>
      w.(error := false, open := false, step := AmountStep, request := EmptyRequest(), pending := None)
  }

  /** The close button: hide the modal and reset step and request. */
  function Close(w: Wizard): (r: Wizard)
    requires FormShown(w)
    ensures !r.open && !r.loading && !r.error && r.pending == w.pending
    ensures r.step == AmountStep && r.request == EmptyRequest()
  {
    w.(open := false, step := AmountStep, request := EmptyRequest())
  }

  /** "Back" on step 2: return to step 1, keeping what was entered. */
  function Back(w: Wizard): (r: Wizard)
    requires FormShown(w) && w.step == DetailsStep
    ensures FormShown(r) && r.step == AmountStep
    ensures r.request == w.request && r.pending == w.pending
  {
    w.(step := AmountStep)
  }

  /** Everything that can happen to the wizard. */
  datatype Event =
    | OpenEvent
    | AmountEvent(amount: int)
    | MethodEvent(m: PayoutMethod)
    | DetailEvent(e: DetailEdit)
    | SubmitEvent
    | CloseEvent
    | BackEvent
    | TimerEvent

  /** The event's control is on screen, or its callback is scheduled. */
  predicate Available(w: Wizard, ev: Event) {
    match ev
    case OpenEvent => true
    case AmountEvent(_) => FormShown(w) && w.step == AmountStep
    case MethodEvent(_) => FormShown(w) && w.step == DetailsStep
    case DetailEvent(_) => FormShown(w) && w.step == DetailsStep
    case SubmitEvent => FormShown(w)
    case CloseEvent => FormShown(w)
    case BackEvent => FormShown(w) && w.step == DetailsStep
    case TimerEvent => w.pending.Some?
  }

  function Apply(w: Wizard, totalEarnings: int, ev: Event): Wizard
    requires Available(w, ev)
  {
    match ev
    case OpenEvent => Open(w)
    case AmountEvent(a) => EnterAmount(w, a)
    case MethodEvent(m) => ChooseMethod(w, m)
    case DetailEvent(e) => FillDetail(w, e)
    case SubmitEvent => Submit(w, totalEarnings)
    case CloseEvent => Close(w)
    case BackEvent => Back(w)
    case TimerEvent => TimerFires(w)
  }

  /** Every event keeps the wizard consistent. */
  lemma ApplyKeepsConsistent(w: Wizard, totalEarnings: int, ev: Event)
    requires Consistent(w) && Available(w, ev)
    ensures Consistent(Apply(w, totalEarnings, ev))
  {
    if FormShown(w) {
      FormShownHasNoTimer(w);
    }
  }

  /** The events of `evs` can happen one after another from `w`. */
  predicate Feasible(w: Wizard, totalEarnings: int, evs: seq<Event>)
    decreases |evs|
  {
    evs == [] || (Available(w, evs[0]) && Feasible(Apply(w, totalEarnings, evs[0]), totalEarnings, evs[1..]))
  }

  function Run(w: Wizard, totalEarnings: int, evs: seq<Event>): Wizard
    requires Feasible(w, totalEarnings, evs)
    decreases |evs|
  {
    if evs == [] then w else Run(Apply(w, totalEarnings, evs[0]), totalEarnings, evs[1..])
  }

  /** Whatever happens from a consistent state (the closed wizard among them)
      leaves the wizard consistent. */
  lemma {:induction false} RunKeepsConsistent(w: Wizard, totalEarnings: int, evs: seq<Event>)
    requires Consistent(w) && Feasible(w, totalEarnings, evs)
    ensures Consistent(Run(w, totalEarnings, evs))
    decreases |evs|
  {
    if evs != [] {
      ApplyKeepsConsistent(w, totalEarnings, evs[0]);
      RunKeepsConsistent(Apply(w, totalEarnings, evs[0]), totalEarnings, evs[1..]);
    }
  }

  /** Step 1's submit moves on exactly when `0 < amount <= totalEarnings` and
      otherwise leaves the wizard as it was. */
  lemma SubmitAmountGuard(w: Wizard, totalEarnings: int)
    requires FormShown(w) && w.step == AmountStep
    ensures Submit(w, totalEarnings).step == DetailsStep <==> 0 < w.request.amount <= totalEarnings
    ensures Submit(w, totalEarnings).step == AmountStep ==> Submit(w, totalEarnings) == w
    ensures Submit(w, totalEarnings).request == w.request
  {}

  /** The button and the handler disagree only on negative amounts: such an
      amount leaves "Continue" enabled, yet the handler rejects it. Every
      positive enabled amount is accepted, and a disabled button would be
      rejected by the handler too. */
  lemma ContinueButtonVersusHandler(w: Wizard, totalEarnings: int)
    requires FormShown(w) && w.step == AmountStep
    ensures ContinueEnabled(w, totalEarnings) && w.request.amount > 0 ==> Submit(w, totalEarnings).step == DetailsStep
    ensures !ContinueEnabled(w, totalEarnings) ==> Submit(w, totalEarnings) == w
    ensures w.request.amount < 0 && w.request.amount <= totalEarnings ==>
      ContinueEnabled(w, totalEarnings) && Submit(w, totalEarnings) == w
  {}

  /** There is no success path: from a consistent step 2, submitting and
      letting both callbacks fire shows the spinner, then the error panel, and
      ends in the closed, reset wizard. */
  lemma SubmitDetailsAlwaysFails(w: Wizard, totalEarnings: int)
    requires Consistent(w) && FormShown(w) && w.step == DetailsStep
    ensures var w1 := Submit(w, totalEarnings);
      && w1.loading && !w1.error && w1.pending == Some(ProcessingTimer)
      && var w2 := TimerFires(w1);
      && !w2.loading && w2.error && w2.open && w2.pending == Some(ErrorTimer)
      && TimerFires(w2) == Closed()
  {}

  /** Closing from a shown form resets the wizard completely; "Back" returns
      to step 1 and keeps the amount and the details. */
  lemma CloseResetsBackKeeps(w: Wizard)
    requires Consistent(w) && FormShown(w)
    ensures Close(w) == Closed()
    ensures w.step == DetailsStep ==> Back(w).step == AmountStep && Back(w).request == w.request && Back(w).open
  {
    FormShownHasNoTimer(w);
  }
}
