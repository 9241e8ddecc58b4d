/** The customer login page: an email and a password; submitting a form with
    both filled in marks the customer as signed in and stores a stub user
    record. No credential is checked. */
module CustomerLogin {
  import opened Wrappers
  import opened Storage
  import opened ProtectedRoute

  datatype LoginForm = LoginForm(email: string, password: string)

  /** The inputs, by their `name` attribute. */
  datatype Field = Email | Password

  /** The guard of `handleSubmit`: both fields non-empty. */
  predicate CanSubmit(form: LoginForm) {
    form.email != "" && form.password != ""
  }

  /** The store after `handleSubmit`: on a filled-in form the customer flag is
      "true" and the user record holds the name "Jane" and the entered email;
      no other key changes, and an incomplete form changes nothing. */
  function SubmitStore(store: Store, form: LoginForm): (r: Store)
    ensures !CanSubmit(form) ==> r == store
    ensures CanSubmit(form) ==> GetItem(r, CustomerFlagKey) == Some(Text("true"))
    ensures CanSubmit(form) ==> GetItem(r, CustomerUserKey) == Some(CustomerUser("Jane", form.email))
    ensures forall k :: k != CustomerFlagKey && k != CustomerUserKey ==> GetItem(r, k) == GetItem(store, k)
  {
    if CanSubmit(form) then
      WithItem(WithItem(store, CustomerFlagKey, Text("true")), CustomerUserKey, CustomerUser("Jane", form.email))
    else store
  }

  /** Where `handleSubmit` navigates: the dashboard, only on a filled-in form. */
  function SubmitNavigation(form: LoginForm): (r: Option<string>)
    ensures r.Some? <==> CanSubmit(form)
    ensures r.Some? ==> r.value == "/customer/dashboard"
  {
    if CanSubmit(form) then Some("/customer/dashboard") else None
  }

  /** A customer login opens the customer pages and leaves the admin pages
      exactly as open or closed as they were. */
  lemma LoginGrantsOnlyCustomer(store: Store, form: LoginForm)
    ensures CanSubmit(form) ==> Decide(SubmitStore(store, form), Customer) == RenderChildren
    ensures Decide(SubmitStore(store, form), Admin) == Decide(store, Admin)
  {
    DecisionReadsOnlyOwnFlag(SubmitStore(store, form), store, Admin);
  }

  /** The login page's form state. */
  class CustomerLoginPage {
    var formData: LoginForm

    constructor ()
      ensures formData == LoginForm("", "")
    {
      formData := LoginForm("", "");
    }

    /** `handleInputChange`: the named field takes the value. */
    method HandleInputChange(field: Field, value: string)
      modifies this
      ensures field == Email ==> formData == old(formData).(email := value)
      ensures field == Password ==> formData == old(formData).(password := value)
    {
      match field
      case Email => formData := formData.(email := value);
      case Password => formData := formData.(password := value);
    }

    /** `handleSubmit`: the writes to the store, and the page to go to, if any. */
    method HandleSubmit(storage: LocalStorage) returns (navigateTo: Option<string>)
      modifies storage
      ensures storage.items == SubmitStore(old(storage.items), formData)
      ensures navigateTo == SubmitNavigation(formData)
    {
      navigateTo := None;
      if formData.email != "" && formData.password != "" {
        storage.SetItem(CustomerFlagKey, Text("true"));
        storage.SetItem(CustomerUserKey, CustomerUser("Jane", formData.email));
        navigateTo := Some("/customer/dashboard");
      }
    }
  }
}
