/** The entities the access-control and account services work on: roles,
    the authenticated principal, customers with their addresses, the
    customer table, and the errors the services raise. */
module Domain {
  import opened Results

  /** `Perfil`: the role tags a customer or principal may hold. */
  datatype Role = Admin | Client

  /** `UserSpringSecurity`: the authenticated principal of a request. */
  datatype Principal = Principal(
    id: Option<int>,
    username: string,
    password: Option<string>,
    roles: set<Role>)

  /** `hasHole`: role membership of a principal. */
  predicate HasRole(p: Principal, r: Role) {
    r in p.roles
  }

  /** `Endereco`. The city is kept by its key only; the owning customer is
      the one whose address list holds this value. */
  datatype Address = Address(
    id: Option<int>,
    logradouro: string,
    numero: string,
    complemento: string,
    bairro: string,
    cep: string,
    cidadeId: int)

  /** `Cliente`. The customer type is kept as the raw code it was built from. */
  datatype Customer = Customer(
    id: Option<int>,
    nome: string,
    email: string,
    cpfOuCnpj: Option<string>,
    tipo: Option<int>,
    senha: Option<string>,
    perfis: set<Role>,
    telefones: seq<string>,
    enderecos: seq<Address>)

  /** Roles the `Cliente` constructor gives every new customer. */
  const InitialRoles: set<Role> := {Client}

  /** The `Cliente` constructor: no phones, no addresses, the initial roles. */
  function NewCustomer(id: Option<int>, nome: string, email: string, cpfOuCnpj: Option<string>,
                       tipo: Option<int>, senha: Option<string>): (c: Customer)
    ensures c.id == id && c.nome == nome && c.email == email
    ensures c.cpfOuCnpj == cpfOuCnpj && c.tipo == tipo && c.senha == senha
    ensures c.perfis == InitialRoles && c.telefones == [] && c.enderecos == []
  {
    Customer(id, nome, email, cpfOuCnpj, tipo, senha, InitialRoles, [], [])
  }

  /** The exceptions the services throw. `NullId` stands for the crash a
      null identifier causes (a null dereference or the repository's
      rejection of a null key). */
  datatype Error =
    | AccessDenied
    | ObjectNotFound(message: string)
    | UsernameNotFound(email: string)
    | NullId

  /** The customer table behind `ClienteRepository`. */
  type Table = seq<Customer>

  /** The primary-key guarantee of the table: every row carries an id, and
      no two rows carry the same one. */
  predicate WellFormed(t: Table) {
    && (forall i :: 0 <= i < |t| ==> t[i].id.Some?)
    && (forall i, j :: 0 <= i < j < |t| ==> t[i].id != t[j].id)
  }

  /** Position of the first element satisfying `p`. */
  function FirstIndex<T>(s: seq<T>, p: T -> bool): (r: Option<nat>)
    ensures r.Some? ==> r.value < |s| && p(s[r.value])
    ensures r.Some? ==> forall j :: 0 <= j < r.value ==> !p(s[j])
    ensures r.None? ==> forall j :: 0 <= j < |s| ==> !p(s[j])
  {
    if |s| == 0 then None
    else if p(s[0]) then Some(0)
    else match FirstIndex(s[1..], p)
      case None => None
      case Some(k) => Some(k + 1)
  }

  /** Row position of `findOne(id)`. */
  function IndexOfId(t: Table, id: int): (r: Option<nat>)
    ensures r.Some? ==> r.value < |t| && t[r.value].id == Some(id)
    ensures r.None? <==> forall j :: 0 <= j < |t| ==> t[j].id != Some(id)
  {
    FirstIndex(t, (c: Customer) => c.id == Some(id))
  }

  /** Row position of `findByEmail(email)`. */
  function IndexOfEmail(t: Table, email: string): (r: Option<nat>)
    ensures r.Some? ==> r.value < |t| && t[r.value].email == email
    ensures r.None? <==> forall j :: 0 <= j < |t| ==> t[j].email != email
  {
    FirstIndex(t, (c: Customer) => c.email == email)
  }

  /** In a well-formed table the row holding an id is the only one. */
  lemma IndexOfIdUnique(t: Table, i: nat)
    requires WellFormed(t)
    requires i < |t|
    ensures IndexOfId(t, t[i].id.value) == Some(i)
  {
  }

  /** `ClienteRepository.save` of a customer that already has a row:
      the row with that id is overwritten in place. */
  function Save(t: Table, c: Customer, i: nat): (r: Table)
    requires WellFormed(t)
    requires i < |t| && t[i].id == c.id
    ensures WellFormed(r)
    ensures |r| == |t| && r[i] == c
    ensures forall j :: 0 <= j < |t| && j != i ==> r[j] == t[j]
    ensures forall k :: k != c.id.value ==> IndexOfId(r, k) == IndexOfId(t, k)
    ensures IndexOfId(r, c.id.value) == Some(i)
  {
    var r := t[i := c];
    assert forall j :: 0 <= j < |r| ==> r[j].id == t[j].id;
    IndexOfIdUnique(r, i);
    r
  }

  /** `ClienteRepository.save` of a customer without an id: a new row under
      the key the database generates, `newId`, which no row uses yet. */
  function Persist(t: Table, c: Customer, newId: int): (r: Table)
    requires WellFormed(t)
    requires c.id.None?
    requires forall j :: 0 <= j < |t| ==> t[j].id != Some(newId)
    ensures WellFormed(r)
    ensures |r| == |t| + 1 && r[..|t|] == t
    ensures r[|t|] == c.(id := Some(newId))
    ensures IndexOfId(r, newId) == Some(|t|)
  {
    var r := t + [c.(id := Some(newId))];
    IndexOfIdUnique(r, |t|);
    r
  }
}
