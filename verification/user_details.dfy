/** `UserDetailsServiceImpl`: resolving the principal of a login from the
    customer table. */
module UserDetails {
  import opened Results
  import opened Domain
  import ClienteService

  /** `loadUserByUsername`: fails with the email when no customer has it,
      otherwise copies id, email, stored hash and roles into a principal. */
  function LoadUserByUsername(t: Table, email: string): (r: Result<Principal, Error>)
    ensures r.Failure? <==> forall j :: 0 <= j < |t| ==> t[j].email != email
    ensures r.Failure? ==> r.error == UsernameNotFound(email)
    ensures r.Success? ==> exists c :: c in t && c.email == email && r.value == Principal(c.id, c.email, c.senha, c.perfis)
    ensures r.Success? ==> r.value.username == email
  {
    match IndexOfEmail(t, email)
    case None => Failure(UsernameNotFound(email))
    case Some(i) =>
      var c := t[i];
      Success(Principal(c.id, c.email, c.senha, c.perfis))
  }

  /** A principal resolved for an email may read that customer's record
      through `findByEmail`, and through `find` by its own id. */
  lemma ResolvedPrincipalReadsOwnRecord(t: Table, email: string)
    requires WellFormed(t)
    requires LoadUserByUsername(t, email).Success?
    ensures var p := LoadUserByUsername(t, email).value;
            && ClienteService.FindByEmail(Some(p), t, email).Success?
            && p.id.Some?
            && ClienteService.Find(Some(p), t, p.id.value) == ClienteService.FindByEmail(Some(p), t, email)
  {
    var p := LoadUserByUsername(t, email).value;
    var i := IndexOfEmail(t, email).value;
    IndexOfIdUnique(t, i);
  }

  /** A customer who signs up with an email no one else uses resolves, at
      login, to a principal carrying the new key, that email, the encoding
      of the chosen password and the initial roles. */
  lemma SignUpThenResolve(t: Table, f: ClienteService.NewCustomerForm,
                          encode: string -> string, newId: int)
    requires WellFormed(t)
    requires forall j :: 0 <= j < |t| ==> t[j].id != Some(newId)
    requires forall j :: 0 <= j < |t| ==> t[j].email != f.email
    ensures var u := ClienteService.Insert(t, ClienteService.FromNewForm(f, encode), newId).table;
            LoadUserByUsername(u, f.email)
              == Success(Principal(Some(newId), f.email, Some(encode(f.senha)), InitialRoles))
  {
  }
}
