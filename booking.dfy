/** The customer booking form: four contact fields and a list of requested
    services, edited one field or one service at a time. Each React updater
    the page passes to `setFormData` is a pure function here; the form object
    applies it to its state. */
module Booking {
  import opened Text

  datatype ServiceType = Cleaning | Repair | Installation | Maintenance
  datatype AcType = Central | Window | Split

  datatype Service = Service(id: string, serviceType: ServiceType, acType: AcType, date: string)

  /** The contact inputs, by their `name` attribute. */
  datatype CustomerField = Name | Email | Phone | Address

  /** `handleServiceChange(index, field, value)`: a field of a service and its new value. */
  datatype ServiceEdit =
    | SetId(id: string)
    | SetServiceType(serviceType: ServiceType)
    | SetAcType(acType: AcType)
    | SetDate(date: string)

  /** The service a new row starts with. */
  function DefaultService(id: string): Service {
    Service(id, Cleaning, Split, "")
  }

  /** `{ ...service, [field]: value }`: the edit sets its own field and leaves
      the other three as they were. */
  function ApplyEdit(s: Service, e: ServiceEdit): (r: Service)
    ensures if e.SetId? then r.id == e.id else r.id == s.id
    ensures if e.SetServiceType? then r.serviceType == e.serviceType else r.serviceType == s.serviceType
    ensures if e.SetAcType? then r.acType == e.acType else r.acType == s.acType
    ensures if e.SetDate? then r.date == e.date else r.date == s.date
  {
    match e
    case SetId(v) => s.(id := v)
    case SetServiceType(v) => s.(serviceType := v)
    case SetAcType(v) => s.(acType := v)
    case SetDate(v) => s.(date := v)
  }

  /** The updater of `handleServiceChange`: the list is copied and service
      `index` replaced by its edited copy. */
  function ChangeService(services: seq<Service>, index: nat, e: ServiceEdit): (r: seq<Service>)
    requires index < |services|
    ensures |r| == |services|
    ensures r[index] == ApplyEdit(services[index], e)
    ensures forall j :: 0 <= j < |r| && j != index ==> r[j] == services[j]
  {
    services[index := ApplyEdit(services[index], e)]
  }

  /** The updater of `addService`: a default service appended, numbered one past
      the old length. */
  function WithAddedService(services: seq<Service>): (r: seq<Service>)
    ensures |r| == |services| + 1
    ensures r[..|services|] == services
    ensures r[|services|] == DefaultService(NatToString(|services| + 1))
  {
    services + [DefaultService(NatToString(|services| + 1))]
  }

  /** The updater of `removeService`: `services.filter((_, i) => i !== index)`,
      written as a filter on positions. */
  function WithoutService(services: seq<Service>, index: int): (r: seq<Service>)
    ensures 0 <= index < |services| ==> r == services[..index] + services[index + 1..]
    ensures !(0 <= index < |services|) ==> r == services
  {
    if services == [] then []
    else
      var last := |services| - 1;
      WithoutService(services[..last], index) + (if index == last then [] else [services[last]])
  }

  /** Removing an in-range service shortens the list by one and keeps the others
      in order; the remove control appears only with more than one service, so
      edits made through it never empty the list. */
  lemma RemoveKeepsOthers(services: seq<Service>, index: int)
    requires 0 <= index < |services|
    ensures |WithoutService(services, index)| == |services| - 1
    ensures forall j :: 0 <= j < |services| - 1 ==>
      WithoutService(services, index)[j] == (if j < index then services[j] else services[j + 1])
    ensures |services| > 1 ==> |WithoutService(services, index)| >= 1
  {
  }

  /** Ids need not stay distinct: when the last service carries the id of the
      list's length, removing an earlier one and adding a new service gives the
      new service that same id. */
  lemma AddAfterRemoveRepeatsId(services: seq<Service>, index: nat)
    requires index < |services| - 1
    requires services[|services| - 1].id == NatToString(|services|)
    ensures var r := WithAddedService(WithoutService(services, index));
      |r| == |services| && r[|r| - 2].id == r[|r| - 1].id
  {
    var shorter := WithoutService(services, index);
    assert shorter[|shorter| - 1] == services[|services| - 1];
  }

  /** The form as first shown: one service and the other ids follow from it, so
      add, remove, add from the start already repeats an id. */
  lemma InitialFormRepeatsIdAfterEdits()
    ensures var s := WithAddedService(WithoutService(WithAddedService([DefaultService("1")]), 0));
      |s| == 2 && s[0].id == s[1].id == "2"
  {
    var s1 := WithAddedService([DefaultService("1")]);
    assert NatToString(2) == "2";
    AddAfterRemoveRepeatsId(s1, 0);
  }

  /** The booking page's form state. */
  class BookingForm {
    var name: string
    var email: string
    var phone: string
    var address: string
    var services: seq<Service>

    /** The list the page renders is never empty. */
    ghost predicate Valid()
      reads this
    {
      |services| >= 1
    }

    /** The initial state: empty contact fields and one default service with id "1". */
    constructor ()
      ensures name == "" && email == "" && phone == "" && address == ""
      ensures services == [Service("1", Cleaning, Split, "")]
      ensures Valid()
    {
      name, email, phone, address := "", "", "", "";
      services := [DefaultService("1")];
    }

    /** `handleInputChange`: the named contact field takes the value; nothing else changes. */
    method HandleInputChange(field: CustomerField, value: string)
      modifies this
      ensures services == old(services)
      ensures name == (if field == Name then value else old(name))
      ensures email == (if field == Email then value else old(email))
      ensures phone == (if field == Phone then value else old(phone))
      ensures address == (if field == Address then value else old(address))
    {
      match field
      case Name => name := value;
      case Email => email := value;
      case Phone => phone := value;
      case Address => address := value;
    }

    /** `handleServiceChange`, called from the row of service `index`. */
    method HandleServiceChange(index: nat, e: ServiceEdit)
      requires index < |services|
      modifies this`services
      ensures services == ChangeService(old(services), index, e)
      ensures old(Valid()) ==> Valid()
    {
      var newServices := services;
      newServices := newServices[index := ApplyEdit(newServices[index], e)];
      services := newServices;
    }

    /** `addService`, the "Add Another Service" button. */
    method AddService()
      modifies this`services
      ensures services == WithAddedService(old(services))
      ensures Valid()
    {
      services := WithAddedService(services);
    }

    /** `removeService`, the trash button of row `index`; the button is drawn only
        while more than one service is listed. */
    method RemoveService(index: int)
      modifies this`services
      ensures services == WithoutService(old(services), index)
      ensures old(|services|) > 1 ==> Valid()
    {
      services := WithoutService(services, index);
    }
  }
}
