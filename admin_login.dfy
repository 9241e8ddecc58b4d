/** The admin login page: a username and a password; submitting a form with
    both filled in marks the admin as signed in and stores an admin user
    record. No credential is checked. */
module AdminLogin {
  import opened Wrappers
  import opened Storage
  import opened ProtectedRoute

  datatype LoginForm = LoginForm(username: string, password: string)

  /** The inputs, by their `name` attribute. */
  datatype Field = Username | Password

  /** The guard of `handleSubmit`: both fields non-empty. */
  predicate CanSubmit(form: LoginForm) {
    form.username != "" && form.password != ""
  }

  /** The store after `handleSubmit`: on a filled-in form the admin flag is
      "true" and the admin record holds the entered username and the role
      "admin"; no other key changes, and an incomplete form changes nothing. */
  function SubmitStore(store: Store, form: LoginForm): (r: Store)
    ensures !CanSubmit(form) ==> r == store
    ensures CanSubmit(form) ==> GetItem(r, AdminFlagKey) == Some(Text("true"))
    ensures CanSubmit(form) ==> GetItem(r, AdminUserKey) == Some(AdminUser(form.username, "admin"))
    ensures forall k :: k != AdminFlagKey && k != AdminUserKey ==> GetItem(r, k) == GetItem(store, k)
  {
    if CanSubmit(form) then
      WithItem(WithItem(store, AdminFlagKey, Text("true")), AdminUserKey, AdminUser(form.username, "admin"))
    else store
  }

  /** Where `handleSubmit` navigates: the dashboard, only on a filled-in form. */
  function SubmitNavigation(form: LoginForm): (r: Option<string>)
    ensures r.Some? <==> CanSubmit(form)
    ensures r.Some? ==> r.value == "/admin/dashboard"
  {
    if CanSubmit(form) then Some("/admin/dashboard") else None
  }

  /** An admin login opens the admin pages and leaves the customer pages
      exactly as open or closed as they were. */
  lemma LoginGrantsOnlyAdmin(store: Store, form: LoginForm)
    ensures CanSubmit(form) ==> Decide(SubmitStore(store, form), Admin) == RenderChildren
    ensures Decide(SubmitStore(store, form), Customer) == Decide(store, Customer)
  {
    DecisionReadsOnlyOwnFlag(SubmitStore(store, form), store, Customer);
  }

  /** The login page's form state. */
  class AdminLoginPage {
    var formData: LoginForm

    constructor ()
      ensures formData == LoginForm("", "")
    {
      formData := LoginForm("", "");
    }

    /** `handleInputChange`: the named field takes the value. */
    method HandleInputChange(field: Field, value: string)
      modifies this
      ensures field == Username ==> formData == old(formData).(username := value)
      ensures field == Password ==> formData == old(formData).(password := value)
    {
      match field
      case Username => formData := formData.(username := value);
      case Password => formData := formData.(password := value);
    }

    /** `handleSubmit`: the writes to the store, and the page to go to, if any. */
    method HandleSubmit(storage: LocalStorage) returns (navigateTo: Option<string>)
      modifies storage
      ensures storage.items == SubmitStore(old(storage.items), formData)
      ensures navigateTo == SubmitNavigation(formData)
    {
      navigateTo := None;
      if formData.username != "" && formData.password != "" {
        storage.SetItem(AdminFlagKey, Text("true"));
        storage.SetItem(AdminUserKey, AdminUser(formData.username, "admin"));
        navigateTo := Some("/admin/dashboard");
      }
    }
  }
}
