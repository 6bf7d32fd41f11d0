/** The Salary page component: the salary record with its mount effect and
    its one-field edit buffer, and the withdrawal wizard. The record shown is
    always the record stored under `shippy_salary`; nothing the wizard does
    touches either. */
module SalaryPage {
  import opened Wrappers
  import opened Calendar
  import opened SalaryRecords
  import opened Withdrawal
  import opened Storage

  class Salary {
    const store: LocalStore
    var salaryData: SalaryData
    var editingField: Option<SalaryField>
    /** `tempValues`, the partial record being edited, keyed by field. */
    var tempValues: map<SalaryField, SalaryEdit>
    var showWithdrawal: bool
    var withdrawalStep: Step
    var withdrawalData: Request
    var isLoading: bool
    var showError: bool
    /** The `setTimeout` callback waiting to fire, if any. */
    var pendingTimer: Option<Timer>

    function WizardState(): Wizard
      reads this
    {
      Wizard(showWithdrawal, withdrawalStep, withdrawalData, isLoading, showError, pendingTimer)
    }

    /** The edit buffer holds at most one field, the one being edited, under
      its own key; it is empty when no field is being edited. */
    ghost predicate BufferValid()
      reads this
    {
      && (forall f :: f in tempValues ==> tempValues[f].Field() == f && tempValues[f].WellFormed())
      && (editingField == None ==> tempValues == map[])
      && (editingField.Some? ==> forall f :: f in tempValues ==> f == editingField.value)
    }

    ghost predicate Valid()
      reads this, store
    {
      && SalaryKey in store.entries && store.entries[SalaryKey] == SalaryRecord(salaryData)
      && WellFormed(salaryData)
      && BufferValid()
      && Consistent(WizardState())
    }

    /** Mounting at the instant `now`: the initial state, built around the
      default record, then the effect, which stores the default record when
      the key is absent and, when the default record's salary date has
      passed, stores and shows that record with the next salary date moved on. */
    constructor Mount(store: LocalStore, now: Instant)
      requires ValidInstant(now)
      requires SalaryKey in store.entries ==>
        store.entries[SalaryKey].SalaryRecord? && WellFormed(store.entries[SalaryKey].salary)
      modifies store
      ensures this.store == store && Valid()
      ensures salaryData == LoadedSalary(
        if SalaryKey in old(store.entries) then Some(old(store.entries)[SalaryKey].salary) else None,
        InitialSalary(now.date), now)
      ensures store.entries == old(store.entries)[SalaryKey := SalaryRecord(salaryData)]
      ensures editingField == None && tempValues == map[] && WizardState() == Closed()
    {
      this.store := store;
      var initial := InitialSalary(now.date);
      salaryData := initial;
      editingField := None;
      tempValues := map[];
      showWithdrawal := false;
      withdrawalStep := AmountStep;
      withdrawalData := EmptyRequest();
      isLoading := false;
      showError := false;
      pendingTimer := None;
      new;
      var saved := store.GetItem(SalaryKey);
      if saved.Some? {
        salaryData := saved.value.salary;
      } else {
        store.SetItem(SalaryKey, SalaryRecord(salaryData));
      }
      // the effect's closure still sees the record of the first render
      if Passed(now, initial.nextSalaryDate) {
        var updated := initial.(nextSalaryDate := NextPayday(now.date));
        salaryData := updated;
        store.SetItem(SalaryKey, SalaryRecord(updated));
      }
    }

    /** `saveSalaryData`: show the record and store it. */
    method SaveSalaryData(updated: SalaryData)
      modifies this, store
      ensures salaryData == updated
      ensures store.entries == old(store.entries)[SalaryKey := SalaryRecord(updated)]
      ensures editingField == old(editingField) && tempValues == old(tempValues)
      ensures WizardState() == old(WizardState())
    {
      salaryData := updated;
      store.SetItem(SalaryKey, SalaryRecord(updated));
    }

    /** `handleEdit`: edit `f`, the buffer holding exactly its current value;
      whatever was buffered for another field is dropped. */
    method HandleEdit(f: SalaryField)
      requires Valid()
      modifies this
      ensures Valid()
      ensures editingField == Some(f) && tempValues == map[f := Current(salaryData, f)]
      ensures salaryData == old(salaryData) && WizardState() == old(WizardState())
    {
      editingField := Some(f);
      tempValues := map[f := Current(salaryData, f)];
    }

    /** The input of the field being edited: replace its buffered value. */
    method UpdateBuffer(e: SalaryEdit)
      requires Valid() && editingField == Some(e.Field()) && e.WellFormed()
      modifies this
      ensures Valid()
      ensures tempValues == old(tempValues)[e.Field() := e] && editingField == old(editingField)
      ensures salaryData == old(salaryData) && WizardState() == old(WizardState())
    {
      tempValues := tempValues[e.Field() := e];
    }

    /** `handleSave`: when the buffer holds `f`, write that field, stamp
      `lastUpdate` with `today` and store the record; in every case stop
      editing and empty the buffer. */
    method HandleSave(f: SalaryField, today: Date)
      requires Valid() && ValidDate(today)
      modifies this, store
      ensures Valid()
      ensures f in old(tempValues) ==>
        && salaryData == Saved(old(salaryData), old(tempValues)[f], today)
        && store.entries == old(store.entries)[SalaryKey := SalaryRecord(salaryData)]
      ensures f !in old(tempValues) ==> salaryData == old(salaryData) && store.entries == old(store.entries)
      ensures editingField == None && tempValues == map[]
      ensures WizardState() == old(WizardState())
    {
      if f in tempValues {
        SaveSalaryData(Saved(salaryData, tempValues[f], today));
      }
      editingField := None;
      tempValues := map[];
    }

    /** `handleCancel`: stop editing and empty the buffer; the record and the
      store are left alone. */
    method HandleCancel()
      requires Valid()
      modifies this
      ensures Valid()
      ensures editingField == None && tempValues == map[]
      ensures salaryData == old(salaryData) && WizardState() == old(WizardState())
    {
      editingField := None;
      tempValues := map[];
    }

    /** "Withdraw Salary": open the modal. */
    method OpenWithdrawal()
      requires Valid()
      modifies this
      ensures Valid() && WizardState() == Open(old(WizardState()))
      ensures salaryData == old(salaryData) && editingField == old(editingField) && tempValues == old(tempValues)
    {
      ApplyKeepsConsistent(WizardState(), salaryData.totalEarnings, OpenEvent);
      showWithdrawal := true;
    }

    /** The amount input of step 1. */
    method EnterAmount(amount: int)
      requires Valid() && FormShown(WizardState()) && withdrawalStep == AmountStep
      modifies this
      ensures Valid() && WizardState() == Withdrawal.EnterAmount(old(WizardState()), amount)
      ensures salaryData == old(salaryData) && editingField == old(editingField) && tempValues == old(tempValues)
    {
      ApplyKeepsConsistent(WizardState(), salaryData.totalEarnings, AmountEvent(amount));
      withdrawalData := withdrawalData.(amount := amount);
    }

    /** The method buttons of step 2. */
    method ChooseMethod(m: PayoutMethod)
      requires Valid() && FormShown(WizardState()) && withdrawalStep == DetailsStep
      modifies this
      ensures Valid() && WizardState() == Withdrawal.ChooseMethod(old(WizardState()), m)
      ensures salaryData == old(salaryData) && editingField == old(editingField) && tempValues == old(tempValues)
    {
      ApplyKeepsConsistent(WizardState(), salaryData.totalEarnings, MethodEvent(m));
      withdrawalData := withdrawalData.(payout := m);
    }

    /** The detail inputs of step 2. */
    method FillDetail(e: DetailEdit)
      requires Valid() && FormShown(WizardState()) && withdrawalStep == DetailsStep
      modifies this
      ensures Valid() && WizardState() == Withdrawal.FillDetail(old(WizardState()), e)
      ensures salaryData == old(salaryData) && editingField == old(editingField) && tempValues == old(tempValues)
    {
      ApplyKeepsConsistent(WizardState(), salaryData.totalEarnings, DetailEvent(e));
      withdrawalData := WithDetail(withdrawalData, e);
    }

    /** `handleWithdrawalSubmit`: step 1 moves on only for
      `0 < amount <= totalEarnings`; step 2 shows the spinner and schedules
      the processing callback. The salary record and the store never change. */
    method HandleWithdrawalSubmit()
      requires Valid() && FormShown(WizardState())
      modifies this
      ensures Valid() && WizardState() == Submit(old(WizardState()), old(salaryData).totalEarnings)
      ensures salaryData == old(salaryData) && editingField == old(editingField) && tempValues == old(tempValues)
    {
      ApplyKeepsConsistent(WizardState(), salaryData.totalEarnings, SubmitEvent);
      if withdrawalStep == AmountStep {
        if withdrawalData.amount > 0 && withdrawalData.amount <= salaryData.totalEarnings {
          withdrawalStep := DetailsStep;
        }
      } else {
        isLoading := true;
        pendingTimer := Some(ProcessingTimer);
      }
    }

    /** The scheduled callback fires: the processing delay ends in the error
      panel, the error delay in the closed, reset wizard. */
    method TimerElapsed()
      requires Valid() && pendingTimer.Some?
      modifies this
      ensures Valid() && WizardState() == TimerFires(old(WizardState()))
      ensures salaryData == old(salaryData) && editingField == old(editingField) && tempValues == old(tempValues)
    {
      ApplyKeepsConsistent(WizardState(), salaryData.totalEarnings, TimerEvent);
      match pendingTimer.value
      case ProcessingTimer =>
        isLoading := false;
        showError := true;
        pendingTimer := Some(ErrorTimer);
      case ErrorTimer =>
        showError := false;
        showWithdrawal := false;
        withdrawalStep := AmountStep;
        withdrawalData := EmptyRequest();
        pendingTimer := None;
    }

    /** The close button of the modal: hide it and reset step and request. */
    method CloseWithdrawal()
      requires Valid() && FormShown(WizardState())
      modifies this
      ensures Valid() && WizardState() == Close(old(WizardState()))
      ensures salaryData == old(salaryData) && editingField == old(editingField) && tempValues == old(tempValues)
    {
      ApplyKeepsConsistent(WizardState(), salaryData.totalEarnings, CloseEvent);
      showWithdrawal := false;
      withdrawalStep := AmountStep;
      withdrawalData := EmptyRequest();
    }

    /** "Back" on step 2: return to step 1, keeping amount and details. */
    method BackToAmount()
      requires Valid() && FormShown(WizardState()) && withdrawalStep == DetailsStep
      modifies this
      ensures Valid() && WizardState() == Back(old(WizardState()))
      ensures salaryData == old(salaryData) && editingField == old(editingField) && tempValues == old(tempValues)
    {
      ApplyKeepsConsistent(WizardState(), salaryData.totalEarnings, BackEvent);
      withdrawalStep := AmountStep;
    }
  }
}
