/** The route guard: a page of a role is rendered only when that role's flag in
    the store is the string "true"; otherwise the visitor is sent to that
    role's login page. */
module ProtectedRoute {
  import opened Storage

  datatype Role = Customer | Admin

  /** What the guard returns. */
  datatype Outcome = RenderChildren | Redirect(to: string)

  /** The flag the guard reads for a role. */
  function FlagKey(role: Role): string {
    if role == Admin then AdminFlagKey else CustomerFlagKey
  }

  /** `localStorage.getItem(key) === "true"`. */
  predicate FlagSet(store: Store, key: string) {
    key in store && store[key] == Text("true")
  }

  /** `loginPath`. */
  function LoginPath(role: Role): string {
    if role == Admin then "/admin/login" else "/customer/login"
  }

  /** `ProtectedRoute` for `role`: the children when the role's flag is
      exactly "true", and a redirect to the role's login page otherwise. */
  function Decide(store: Store, role: Role): (o: Outcome)
    ensures o == RenderChildren <==> FlagSet(store, FlagKey(role))
    ensures o != RenderChildren ==> o == Redirect(LoginPath(role))
  {
    var isCustomerAuthenticated := FlagSet(store, CustomerFlagKey);
    var isAdminAuthenticated := FlagSet(store, AdminFlagKey);
    var isAuthenticated := if role == Admin then isAdminAuthenticated else isCustomerAuthenticated;
    if !isAuthenticated then Redirect(LoginPath(role)) else RenderChildren
  }

  /** Each role's decision depends on its own flag only: stores that agree on
      the admin flag decide admin routes alike, whatever the customer keys
      hold, and the other way round. */
  lemma DecisionReadsOnlyOwnFlag(s: Store, t: Store, role: Role)
    requires AgreeOn(s, t, FlagKey(role))
    ensures Decide(s, role) == Decide(t, role)
  {
    assert GetItem(s, FlagKey(role)) == GetItem(t, FlagKey(role));
  }

  /** Only the exact string "true" counts: no other value of the flag, and no
      absent flag, lets the visitor in. */
  lemma OnlyTrueCounts(store: Store, role: Role)
    requires FlagKey(role) !in store || store[FlagKey(role)] != Text("true")
    ensures Decide(store, role) == Redirect(LoginPath(role))
  {
  }

  /** The two login pages differ. */
  lemma LoginPathsDiffer()
    ensures LoginPath(Admin) != LoginPath(Customer)
  {
    assert LoginPath(Admin)[1] != LoginPath(Customer)[1];
  }
}
