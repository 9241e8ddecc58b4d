/** The layout around the admin pages (calendar, appointments, reports,
    revenue, dashboard) and its logout handler: it removes the customer's two
    keys and goes to the customer login page, though every page it wraps is an
    admin page. */
module AuthLayout {
  import opened Storage
  import opened ProtectedRoute
  import CustomerLogin
  import AdminLogin

  /** Where logout navigates. */
  const LogoutTarget: string := "/customer/login"

  /** The store after `handleLogout`: the customer flag and user record are
      gone and every other key, the admin ones included, is as it was. */
  function LogoutStore(store: Store): (r: Store)
    ensures CustomerFlagKey !in r && CustomerUserKey !in r
    ensures forall k :: k != CustomerFlagKey && k != CustomerUserKey ==> GetItem(r, k) == GetItem(store, k)
  {
    WithoutItem(WithoutItem(store, CustomerFlagKey), CustomerUserKey)
  }

  /** Logging out twice is logging out once. */
  lemma LogoutIdempotent(store: Store)
    ensures LogoutStore(LogoutStore(store)) == LogoutStore(store)
  {
  }

  /** After logout the customer pages redirect to the customer login. */
  lemma LogoutEndsCustomerSession(store: Store)
    ensures Decide(LogoutStore(store), Customer) == Redirect("/customer/login")
  {
  }

  /** Logging in as a customer and then out leaves the store as logging out
      alone would. */
  lemma CustomerLoginThenLogout(store: Store, form: CustomerLogin.LoginForm)
    ensures LogoutStore(CustomerLogin.SubmitStore(store, form)) == LogoutStore(store)
  {
    var a, b := LogoutStore(CustomerLogin.SubmitStore(store, form)), LogoutStore(store);
    assert forall k :: k in a <==> k in b by {
      forall k ensures k in a <==> k in b {
        assert GetItem(a, k) == GetItem(b, k);
      }
    }
    assert forall k :: k in a ==> a[k] == b[k] by {
      forall k | k in a ensures a[k] == b[k] {
        assert GetItem(a, k) == GetItem(b, k);
      }
    }
  }

  /** As written, logout does not end an admin session: the admin pages
      decide exactly as before it. */
  lemma LogoutKeepsAdminSession(store: Store)
    ensures Decide(LogoutStore(store), Admin) == Decide(store, Admin)
  {
    DecisionReadsOnlyOwnFlag(LogoutStore(store), store, Admin);
  }

  /** So an admin who signs in and presses Logout, which only the admin pages
      offer, can still open every admin page. */
  lemma AdminStillSignedInAfterLogout(store: Store, form: AdminLogin.LoginForm)
    requires AdminLogin.CanSubmit(form)
    ensures Decide(LogoutStore(AdminLogin.SubmitStore(store, form)), Admin) == RenderChildren
  {
    AdminLogin.LoginGrantsOnlyAdmin(store, form);
    LogoutKeepsAdminSession(AdminLogin.SubmitStore(store, form));
  }

  /** The four keys the two logins write. */
  predicate IsSessionKey(k: string) {
    k == CustomerFlagKey || k == CustomerUserKey || k == AdminFlagKey || k == AdminUserKey
  }

  /** The logout the layout evidently intends: it ends the admin session of the
      pages it wraps as well as any customer session, so every session key of
      both roles is removed and every other key kept. */
  function LogoutAllRoles(store: Store): (r: Store)
    ensures forall k :: IsSessionKey(k) ==> k !in r
    ensures forall k :: !IsSessionKey(k) ==> GetItem(r, k) == GetItem(store, k)
  {
    WithoutItem(WithoutItem(LogoutStore(store), AdminFlagKey), AdminUserKey)
  }

  /** After the corrected logout every protected page of either role redirects
      to its login page, whoever was signed in before. */
  lemma LogoutAllRolesEndsEverySession(store: Store, role: Role)
    ensures Decide(LogoutAllRoles(store), role) == Redirect(LoginPath(role))
  {
  }

  /** `handleLogout`: the two removals, then the customer login page. */
  method HandleLogout(storage: LocalStorage) returns (navigateTo: string)
    modifies storage
    ensures storage.items == LogoutStore(old(storage.items))
    ensures navigateTo == LogoutTarget
  {
    storage.RemoveItem(CustomerFlagKey);
    storage.RemoveItem(CustomerUserKey);
    navigateTo := LogoutTarget;
  }
}
