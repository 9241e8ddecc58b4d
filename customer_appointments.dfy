/** The customer's appointments page: an upcoming tab for scheduled visits and
    a past tab for the rest, with reschedule and cancel offered on scheduled
    visits only. */
module CustomerAppointments {
  import opened Wrappers
  import opened Seqs

  datatype AppointmentStatus = Scheduled | Completed | Cancelled

  datatype Appointment = Appointment(
    id: string, date: string, service: string, acType: string, status: AppointmentStatus)

  datatype Tab = Upcoming | Past

  /** The list the page shows. */
  function SampleAppointments(): seq<Appointment> {
    [ Appointment("1", "2025-08-15", "Cleaning", "Split", Scheduled),
      Appointment("2", "2025-07-20", "Repair", "Window", Completed) ]
  }

  /** The filter callback of `filteredAppointments` for one tab. */
  function InTab(tab: Tab): Appointment -> bool {
    (a: Appointment) => if tab == Upcoming then a.status == Scheduled else a.status != Scheduled
  }

  /** `filteredAppointments`: upcoming lists exactly the scheduled visits, past
      exactly the others. */
  function FilteredAppointments(appointments: seq<Appointment>, tab: Tab): (r: seq<Appointment>)
    ensures tab == Upcoming ==> forall a :: a in r <==> a in appointments && a.status == Scheduled
    ensures tab == Past ==> forall a :: a in r <==> a in appointments && a.status != Scheduled
    ensures forall i :: 0 <= i < |r| ==> (r[i].status == Scheduled <==> tab == Upcoming)
  {
    Filter(appointments, InTab(tab))
  }

  /** The two tabs split the list: each appointment is listed under exactly one,
      as many times as it occurs, and each tab keeps the list's order (a filter
      of a concatenation is the concatenation of the filters). */
  lemma TabsPartition(appointments: seq<Appointment>)
    ensures |FilteredAppointments(appointments, Upcoming)| + |FilteredAppointments(appointments, Past)| == |appointments|
    ensures multiset(FilteredAppointments(appointments, Upcoming)) + multiset(FilteredAppointments(appointments, Past))
      == multiset(appointments)
    ensures forall a :: a in appointments ==>
      (a in FilteredAppointments(appointments, Upcoming) <==> a !in FilteredAppointments(appointments, Past))
  {
    FilterPartition(appointments, InTab(Upcoming), InTab(Past));
  }

  /** On the sample data one visit is upcoming and one is past. */
  lemma SampleTabs()
    ensures FilteredAppointments(SampleAppointments(), Upcoming) == [SampleAppointments()[0]]
    ensures FilteredAppointments(SampleAppointments(), Past) == [SampleAppointments()[1]]
  {
    var s := SampleAppointments();
    assert s[1..][1..] == [];
  }

  /** The buttons of a row. */
  datatype Action = Reschedule | Cancel

  /** Reschedule and Cancel for a scheduled visit, nothing otherwise. */
  function Actions(status: AppointmentStatus): (r: set<Action>)
    ensures status == Scheduled ==> r == {Reschedule, Cancel}
    ensures status != Scheduled ==> r == {}
  {
    if status == Scheduled then {Reschedule, Cancel} else {}
  }

  /** Actions appear only on the upcoming tab: a past row never offers one. */
  lemma PastRowsOfferNoAction(appointments: seq<Appointment>, a: Appointment)
    requires a in FilteredAppointments(appointments, Past)
    ensures Actions(a.status) == {}
  {
  }

  /** `getStatusColor`: the badge classes of each status. */
  function StatusColor(status: AppointmentStatus): string {
    match status
    case Scheduled => "bg-blue-100 text-blue-700"
    case Completed => "bg-green-100 text-green-700"
    case Cancelled => "bg-red-100 text-red-700"
  }

  /** Each status has its own colour. */
  lemma StatusColorsDiffer(s: AppointmentStatus, t: AppointmentStatus)
    requires s != t
    ensures StatusColor(s) != StatusColor(t)
  {
    assert StatusColor(s)[3] != StatusColor(t)[3];
  }

  /** The page: the tab shown, the two modals and the visit they act on. */
  class CustomerAppointmentsView {
    const appointments: seq<Appointment>
    var activeTab: Tab
    var isRescheduleModalOpen: bool
    var isCancelModalOpen: bool
    var selectedAppointment: Option<Appointment>

    constructor (appointments: seq<Appointment>)
      ensures this.appointments == appointments && activeTab == Upcoming
      ensures !isRescheduleModalOpen && !isCancelModalOpen && selectedAppointment == None
    {
      this.appointments := appointments;
      activeTab := Upcoming;
      isRescheduleModalOpen, isCancelModalOpen := false, false;
      selectedAppointment := None;
    }

    /** The tab buttons. */
    method SelectTab(tab: Tab)
      modifies this`activeTab
      ensures activeTab == tab
    {
      activeTab := tab;
    }

    /** `handleReschedule`: select the visit and open the reschedule modal. */
    method HandleReschedule(a: Appointment)
      modifies this`selectedAppointment, this`isRescheduleModalOpen
      ensures selectedAppointment == Some(a) && isRescheduleModalOpen
    {
      selectedAppointment := Some(a);
      isRescheduleModalOpen := true;
    }

    /** `handleCancel`: select the visit and open the cancel modal. */
    method HandleCancel(a: Appointment)
      modifies this`selectedAppointment, this`isCancelModalOpen
      ensures selectedAppointment == Some(a) && isCancelModalOpen
    {
      selectedAppointment := Some(a);
      isCancelModalOpen := true;
    }

    /** The modals' dismiss buttons close them and keep the selection. */
    method CloseRescheduleModal()
      modifies this`isRescheduleModalOpen
      ensures !isRescheduleModalOpen
    {
      isRescheduleModalOpen := false;
    }

    method CloseCancelModal()
      modifies this`isCancelModalOpen
      ensures !isCancelModalOpen
    {
      isCancelModalOpen := false;
    }
  }
}
