/** The admin appointments page: two tabs over a fixed list of appointments,
    the actions each tab offers, and three modals (reject with a reason,
    reschedule to a date, assign technicians) whose confirm handlers act only
    when their input is filled in. */
module AdminAppointments {
  import opened Wrappers
  import opened Seqs

  datatype AppointmentStatus = Pending | Accepted | Completed | Rejected

  datatype Technician = Technician(id: string, name: string)

  datatype Appointment = Appointment(
    id: string, customerName: string, date: string, service: string,
    acType: string, status: AppointmentStatus, technicians: seq<Technician>)

  datatype Tab = PendingTab | AcceptedTab

  /** The list the page shows. */
  function SampleAppointments(): seq<Appointment> {
    [ Appointment("1", "John Doe", "2025-08-15", "Cleaning", "Split", Pending, []),
      Appointment("2", "Jane Smith", "2025-08-20", "Repair", "Window", Accepted, [Technician("1", "Tech 1")]) ]
  }

  /** The technicians offered in the assignment modal. */
  function AvailableTechnicians(): seq<Technician> {
    [Technician("1", "Tech 1"), Technician("2", "Tech 2"), Technician("3", "Tech 3")]
  }

  // ---------------------------------------------------------------------------
  // tabs

  /** The filter callback of `filteredAppointments` for one tab. */
  function InTab(tab: Tab): Appointment -> bool {
    (a: Appointment) => if tab == PendingTab then a.status == Pending else a.status == Accepted
  }

  /** `filteredAppointments`: the pending tab lists exactly the pending
      appointments, the accepted tab exactly the accepted ones. */
  function FilteredAppointments(appointments: seq<Appointment>, tab: Tab): (r: seq<Appointment>)
    ensures tab == PendingTab ==> forall a :: a in r <==> a in appointments && a.status == Pending
    ensures tab == AcceptedTab ==> forall a :: a in r <==> a in appointments && a.status == Accepted
  {
    Filter(appointments, InTab(tab))
  }

  /** Completed and rejected appointments are listed under neither tab, and no
      appointment is listed under both. */
  lemma TabsShowOnlyOpenWork(appointments: seq<Appointment>, a: Appointment)
    ensures a.status == Completed || a.status == Rejected ==>
      a !in FilteredAppointments(appointments, PendingTab) && a !in FilteredAppointments(appointments, AcceptedTab)
    ensures !(a in FilteredAppointments(appointments, PendingTab) && a in FilteredAppointments(appointments, AcceptedTab))
  {
  }

  /** On the sample data each tab holds one appointment. */
  lemma SampleTabs()
    ensures FilteredAppointments(SampleAppointments(), PendingTab) == [SampleAppointments()[0]]
    ensures FilteredAppointments(SampleAppointments(), AcceptedTab) == [SampleAppointments()[1]]
  {
    var s := SampleAppointments();
    assert s[1..][1..] == [];
  }

  /** The buttons of an appointment's row. */
  datatype Action = Accept | Reject | Complete | Reschedule

  /** Accept and Reject on the pending tab, Complete on the accepted tab, and
      Reschedule on both. */
  function Actions(tab: Tab): (r: set<Action>)
    ensures Reschedule in r
    ensures Accept in r <==> tab == PendingTab
    ensures Reject in r <==> tab == PendingTab
    ensures Complete in r <==> tab == AcceptedTab
  {
    match tab
    case PendingTab => {Accept, Reject, Reschedule}
    case AcceptedTab => {Complete, Reschedule}
  }

  // ---------------------------------------------------------------------------
  // the technician checkboxes

  /** The `onChange` of technician `id`'s checkbox: checking appends the id,
      unchecking removes every occurrence of it. */
  function ToggleTechnician(selected: seq<string>, id: string, checked: bool): (r: seq<string>)
    ensures id in r <==> checked
    ensures forall x :: x != id ==> (x in r <==> x in selected)
  {
    if checked then selected + [id] else RemoveAll(selected, id)
  }

  /** The other ids keep their order and number: with `id` removed, the list
      before and after are the same. */
  lemma ToggleTechnicianKeepsOthers(selected: seq<string>, id: string, checked: bool)
    ensures RemoveAll(ToggleTechnician(selected, id, checked), id) == RemoveAll(selected, id)
  {
    if checked {
      FilterAppend(selected, [id], NotEqual(id));
      assert Filter([id], NotEqual(id)) == [];
    } else {
      RemoveAllAbsent(RemoveAll(selected, id), id);
    }
  }

  // ---------------------------------------------------------------------------
  // status labels

  /** The status as the data spells it. */
  function StatusName(s: AppointmentStatus): string {
    match s
    case Pending => "pending"
    case Accepted => "accepted"
    case Completed => "completed"
    case Rejected => "rejected"
  }

  /** `toUpperCase` on one character, for the ASCII letters. */
  function UpperChar(c: char): (u: char)
    ensures 'a' <= c <= 'z' ==> 'A' <= u <= 'Z' && u as int == c as int - 32
    ensures !('a' <= c <= 'z') ==> u == c
  {
    if 'a' <= c <= 'z' then (c as int - 32) as char else c
  }

  /** `s.charAt(0).toUpperCase() + s.slice(1)`. */
  function Capitalize(s: string): (r: string)
    ensures |r| == |s|
    ensures |s| > 0 ==> r[0] == UpperChar(s[0]) && r[1..] == s[1..]
  {
    if s == [] then "" else [UpperChar(s[0])] + s[1..]
  }

  /** The label in the status badge. */
  function StatusLabel(s: AppointmentStatus): string {
    Capitalize(StatusName(s))
  }

  /** The four labels are the capitalised status names, and they differ. */
  lemma StatusLabels()
    ensures StatusLabel(Pending) == "Pending" && StatusLabel(Accepted) == "Accepted"
    ensures StatusLabel(Completed) == "Completed" && StatusLabel(Rejected) == "Rejected"
    ensures forall s, t :: StatusLabel(s) == StatusLabel(t) ==> s == t
  {
    assert StatusLabel(Pending) == "Pending";
    assert StatusLabel(Accepted) == "Accepted";
    assert StatusLabel(Completed) == "Completed";
    assert StatusLabel(Rejected) == "Rejected";
    forall s, t | StatusLabel(s) == StatusLabel(t) ensures s == t {
      assert StatusLabel(s)[..2] == StatusLabel(t)[..2];
    }
  }

  // ---------------------------------------------------------------------------
  // the page state

  /** The page: the tab shown, the appointment a modal acts on, the three modals
      and their inputs. The appointments are a constant: no handler changes
      any appointment's status or technicians. */
  class AdminAppointmentsView {
    const appointments: seq<Appointment>
    var activeTab: Tab
    var selectedAppointment: Option<Appointment>
    var isRejectModalOpen: bool
    var isRescheduleModalOpen: bool
    var isTechnicianModalOpen: bool
    var rejectReason: string
    var newDate: string
    var selectedTechnicians: seq<string>

    /** The rows of the table. */
    function Rows(): seq<Appointment>
      reads this
    {
      FilteredAppointments(appointments, activeTab)
    }

    /** The initial state: the pending tab, no selection, every modal closed and
        every input empty. */
    constructor (appointments: seq<Appointment>)
      ensures this.appointments == appointments && activeTab == PendingTab
      ensures selectedAppointment == None
      ensures !isRejectModalOpen && !isRescheduleModalOpen && !isTechnicianModalOpen
      ensures rejectReason == "" && newDate == "" && selectedTechnicians == []
    {
      this.appointments := appointments;
      activeTab := PendingTab;
      selectedAppointment := None;
      isRejectModalOpen, isRescheduleModalOpen, isTechnicianModalOpen := false, false, false;
      rejectReason, newDate := "", "";
      selectedTechnicians := [];
    }

    /** The tab buttons. */
    method SelectTab(tab: Tab)
      modifies this`activeTab
      ensures activeTab == tab
    {
      activeTab := tab;
    }

    /** The row's Reject button. */
    method OpenRejectModal(a: Appointment)
      modifies this`selectedAppointment, this`isRejectModalOpen
      ensures selectedAppointment == Some(a) && isRejectModalOpen
    {
      selectedAppointment := Some(a);
      isRejectModalOpen := true;
    }

    /** The row's Reschedule button. */
    method OpenRescheduleModal(a: Appointment)
      modifies this`selectedAppointment, this`isRescheduleModalOpen
      ensures selectedAppointment == Some(a) && isRescheduleModalOpen
    {
      selectedAppointment := Some(a);
      isRescheduleModalOpen := true;
    }

    /** The row's technician button. */
    method OpenTechnicianModal(a: Appointment)
      modifies this`selectedAppointment, this`isTechnicianModalOpen
      ensures selectedAppointment == Some(a) && isTechnicianModalOpen
    {
      selectedAppointment := Some(a);
      isTechnicianModalOpen := true;
    }

    /** The inputs' `onChange` handlers. */
    method SetRejectReason(reason: string)
      modifies this`rejectReason
      ensures rejectReason == reason
    {
      rejectReason := reason;
    }

    method SetNewDate(date: string)
      modifies this`newDate
      ensures newDate == date
    {
      newDate := date;
    }

    /** Checking or unchecking technician `id`. */
    method CheckTechnician(id: string, checked: bool)
      modifies this`selectedTechnicians
      ensures selectedTechnicians == ToggleTechnician(old(selectedTechnicians), id, checked)
    {
      if checked {
        selectedTechnicians := selectedTechnicians + [id];
      } else {
        selectedTechnicians := RemoveAll(selectedTechnicians, id);
      }
    }

    /** `handleReject`: with an appointment selected and a reason given, the modal
        closes and the reason is cleared; otherwise nothing happens. */
    method HandleReject()
      modifies this`isRejectModalOpen, this`rejectReason
      ensures if old(selectedAppointment).None? || old(rejectReason) == ""
        then isRejectModalOpen == old(isRejectModalOpen) && rejectReason == old(rejectReason)
        else !isRejectModalOpen && rejectReason == ""
    {
      if selectedAppointment.None? || rejectReason == "" {
        return;
      }
      isRejectModalOpen := false;
      rejectReason := "";
    }

    /** `handleReschedule`: with an appointment selected and a date given, the
        modal closes and the date is cleared; otherwise nothing happens. */
    method HandleReschedule()
      modifies this`isRescheduleModalOpen, this`newDate
      ensures if old(selectedAppointment).None? || old(newDate) == ""
        then isRescheduleModalOpen == old(isRescheduleModalOpen) && newDate == old(newDate)
        else !isRescheduleModalOpen && newDate == ""
    {
      if selectedAppointment.None? || newDate == "" {
        return;
      }
      isRescheduleModalOpen := false;
      newDate := "";
    }

    /** `handleAssignTechnicians`: with an appointment selected and at least one
        technician checked, the modal closes and the selection is cleared;
        otherwise nothing happens. */
    method HandleAssignTechnicians()
      modifies this`isTechnicianModalOpen, this`selectedTechnicians
      ensures if old(selectedAppointment).None? || |old(selectedTechnicians)| == 0
        then isTechnicianModalOpen == old(isTechnicianModalOpen) && selectedTechnicians == old(selectedTechnicians)
        else !isTechnicianModalOpen && selectedTechnicians == []
    {
      if selectedAppointment.None? || |selectedTechnicians| == 0 {
        return;
      }
      isTechnicianModalOpen := false;
      selectedTechnicians := [];
    }

    /** The Cancel buttons of the three modals: close it and clear its input. */
    method CancelReject()
      modifies this`isRejectModalOpen, this`rejectReason
      ensures !isRejectModalOpen && rejectReason == ""
    {
      isRejectModalOpen := false;
      rejectReason := "";
    }

    method CancelReschedule()
      modifies this`isRescheduleModalOpen, this`newDate
      ensures !isRescheduleModalOpen && newDate == ""
    {
      isRescheduleModalOpen := false;
      newDate := "";
    }

    method CancelTechnicians()
      modifies this`isTechnicianModalOpen, this`selectedTechnicians
      ensures !isTechnicianModalOpen && selectedTechnicians == []
    {
      isTechnicianModalOpen := false;
      selectedTechnicians := [];
    }
  }
}
