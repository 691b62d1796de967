/** `ClienteService`: self-or-admin access to customer records, the
    customer builders used by the REST layer, updates and inserts, and the
    profile-picture file name. The authenticated principal is passed in
    explicitly instead of being read from the ambient security context. */
module ClienteService {
  import opened Results
  import opened Text
  import opened Domain

  const CustomerClassName: string := "com.lucasoliveira.cursomc.domain.Cliente"

  function NotFoundByIdMessage(id: int): string {
    "Objeto não encontrado id: " + ShowInt(id) + " Tipo: " + CustomerClassName
  }

  /** The message `findByEmail` reports: it names the principal's id, not
      the requested email. */
  function NotFoundByEmailMessage(user: Principal): string {
    "Objeto não encontrado! Id: " + ShowOptInt(user.id) + ", Tipo: " + CustomerClassName
  }

  /** The negation of the guard of `find`, written with Java's precedence:
      `user == null || (!admin && !id.equals(user.getId()))` refuses. */
  function MayReadId(user: Option<Principal>, id: int): (ok: bool)
    ensures ok <==> user.Some? && (HasRole(user.value, Admin) || user.value.id == Some(id))
  {
    !(user.None? || (!HasRole(user.value, Admin) && !(Some(id) == user.value.id)))
  }

  /** The negation of the guard of `findByEmail`; ownership compares the
      requested email with the principal's username. */
  function MayReadEmail(user: Option<Principal>, email: string): (ok: bool)
    ensures ok <==> user.Some? && (HasRole(user.value, Admin) || user.value.username == email)
  {
    !(user.None? || (!HasRole(user.value, Admin) && !(email == user.value.username)))
  }

  /** A principal without ADMIN may read at most one id: its own. */
  lemma NonAdminReadsOnlyOwnId(u: Principal, a: int, b: int)
    requires !HasRole(u, Admin)
    requires MayReadId(Some(u), a) && MayReadId(Some(u), b)
    ensures a == b && u.id == Some(a)
  {
  }

  /** `find`: authorization first, then the lookup. */
  function Find(user: Option<Principal>, t: Table, id: int): (r: Result<Customer, Error>)
    ensures user.None? ==> r == Failure(AccessDenied)
    ensures r == Failure(AccessDenied) <==> !MayReadId(user, id)
    ensures r.Success? <==> MayReadId(user, id) && IndexOfId(t, id).Some?
    ensures r.Success? ==> r.value in t && r.value.id == Some(id)
    ensures MayReadId(user, id) && IndexOfId(t, id).None? ==>
              r == Failure(ObjectNotFound(NotFoundByIdMessage(id)))
  {
    if !MayReadId(user, id) then Failure(AccessDenied)
    else match IndexOfId(t, id)
      case None => Failure(ObjectNotFound(NotFoundByIdMessage(id)))
      case Some(i) => Success(t[i])
  }

  /** A refused `find` does not depend on the table: the repository is
      never consulted before the access decision. */
  lemma FindDeniesBeforeLookup(user: Option<Principal>, t1: Table, t2: Table, id: int)
    requires !MayReadId(user, id)
    ensures Find(user, t1, id) == Find(user, t2, id) == Failure(AccessDenied)
  {
  }

  /** `findByEmail`: the same self-or-admin rule keyed by email. */
  function FindByEmail(user: Option<Principal>, t: Table, email: string): (r: Result<Customer, Error>)
    ensures user.None? ==> r == Failure(AccessDenied)
    ensures r == Failure(AccessDenied) <==> !MayReadEmail(user, email)
    ensures r.Success? <==> MayReadEmail(user, email) && IndexOfEmail(t, email).Some?
    ensures r.Success? ==> r.value in t && r.value.email == email
    ensures MayReadEmail(user, email) && IndexOfEmail(t, email).None? ==>
              r == Failure(ObjectNotFound(NotFoundByEmailMessage(user.value)))
  {
    if !MayReadEmail(user, email) then Failure(AccessDenied)
    else match IndexOfEmail(t, email)
      case None => Failure(ObjectNotFound(NotFoundByEmailMessage(user.value)))
      case Some(i) => Success(t[i])
  }

  /** The result of an operation that writes the table: the new table and
      the record it saved. */
  datatype Written = Written(table: Table, customer: Customer)

  /** `insert`: the incoming id is discarded, so the save always creates a
      new row and never overwrites an existing customer. */
  function Insert(t: Table, c: Customer, newId: int): (r: Written)
    requires WellFormed(t)
    requires forall j :: 0 <= j < |t| ==> t[j].id != Some(newId)
    ensures WellFormed(r.table)
    ensures |r.table| == |t| + 1 && r.table[..|t|] == t
    ensures r.table[|t|] == r.customer
    ensures r.customer.id == Some(newId)
    ensures r.customer.(id := c.id) == c
  {
    var cleared := c.(id := None);
    var table := Persist(t, cleared, newId);
    Written(table, table[|t|])
  }

  /** Every field except the two `updateData` copies. */
  predicate SameBesidesNameAndEmail(a: Customer, b: Customer) {
    && a.id == b.id
    && a.cpfOuCnpj == b.cpfOuCnpj
    && a.tipo == b.tipo
    && a.senha == b.senha
    && a.perfis == b.perfis
    && a.telefones == b.telefones
    && a.enderecos == b.enderecos
  }

  /** `updateData`: only `nome` and `email` are taken from the request. */
  function UpdateData(stored: Customer, incoming: Customer): (r: Customer)
    ensures r.nome == incoming.nome && r.email == incoming.email
    ensures SameBesidesNameAndEmail(r, stored)
  {
    stored.(nome := incoming.nome, email := incoming.email)
  }

  /** `update`: goes through `find` (and so through its authorization),
      merges the two editable fields into the stored record and saves it.
      A null id fails: with no principal the access check refuses first,
      otherwise the source dies on the null. */
  function Update(user: Option<Principal>, t: Table, c: Customer): (r: Result<Written, Error>)
    requires WellFormed(t)
    ensures c.id.None? ==> r == Failure(if user.None? then AccessDenied else NullId)
    ensures c.id.Some? && r.Failure? ==> Find(user, t, c.id.value) == Failure(r.error)
    ensures r.Success? <==> c.id.Some? && MayReadId(user, c.id.value) && IndexOfId(t, c.id.value).Some?
    ensures r.Success? ==>
              var i := IndexOfId(t, c.id.value).value;
              && r.value.customer.nome == c.nome
              && r.value.customer.email == c.email
              && SameBesidesNameAndEmail(r.value.customer, t[i])
              && r.value.table == t[i := r.value.customer]
    ensures r.Success? ==> WellFormed(r.value.table)
  {
    match c.id
    case None => if user.None? then Failure(AccessDenied) else Failure(NullId)
    case Some(id) =>
      match Find(user, t, id)
      case Failure(e) => Failure(e)
      case Success(stored) =>
        var i := IndexOfId(t, id).value;
        var merged := UpdateData(stored, c);
        Success(Written(Save(t, merged, i), merged))
  }

  /** `ClienteNewDTO`: the sign-up form. */
  datatype NewCustomerForm = NewCustomerForm(
    nome: string,
    email: string,
    cpfOuCnpj: string,
    tipoCliente: int,
    senha: string,
    logradouro: string,
    numero: string,
    complemento: string,
    bairro: string,
    cep: string,
    telefone1: string,
    telefone2: Option<string>,
    telefone3: Option<string>,
    cidadeId: int)

  /** The phone list `fromDTO` assembles: the first phone always, the other
      two only when present, in form order. */
  function Phones(f: NewCustomerForm): (r: seq<string>)
    ensures 1 <= |r| <= 3 && r[0] == f.telefone1
    ensures |r| == 1 + (if f.telefone2.Some? then 1 else 0) + (if f.telefone3.Some? then 1 else 0)
    ensures forall p :: p in r <==> p == f.telefone1 || Some(p) == f.telefone2 || Some(p) == f.telefone3
    ensures f.telefone2.Some? ==> r[1] == f.telefone2.value
  {
    [f.telefone1]
    + (if f.telefone2.Some? then [f.telefone2.value] else [])
    + (if f.telefone3.Some? then [f.telefone3.value] else [])
  }

  /** `fromDTO(ClienteNewDTO)`: a customer without id whose stored password
      is the encoder's output, with exactly one address built from the form. */
  function FromNewForm(f: NewCustomerForm, encode: string -> string): (r: Customer)
    ensures r.id.None?
    ensures r.nome == f.nome && r.email == f.email
    ensures r.cpfOuCnpj == Some(f.cpfOuCnpj) && r.tipo == Some(f.tipoCliente)
    ensures r.senha == Some(encode(f.senha))
    ensures r.perfis == InitialRoles
    ensures r.telefones == Phones(f)
    ensures |r.enderecos| == 1
    ensures r.enderecos[0].id.None? && r.enderecos[0].cidadeId == f.cidadeId
    ensures r.enderecos[0].logradouro == f.logradouro && r.enderecos[0].numero == f.numero
    ensures r.enderecos[0].complemento == f.complemento
    ensures r.enderecos[0].bairro == f.bairro && r.enderecos[0].cep == f.cep
  {
    var c := NewCustomer(None, f.nome, f.email, Some(f.cpfOuCnpj), Some(f.tipoCliente), Some(encode(f.senha)));
    var a := Address(None, f.logradouro, f.numero, f.complemento, f.bairro, f.cep, f.cidadeId);
    c.(enderecos := c.enderecos + [a], telefones := c.telefones + Phones(f))
  }

  /** `ClienteDTO`: the edit form. */
  datatype CustomerForm = CustomerForm(id: Option<int>, nome: string, email: string)

  /** `fromDTO(ClienteDTO)`: document, type and password are left null. */
  function FromForm(f: CustomerForm): (r: Customer)
    ensures r.id == f.id && r.nome == f.nome && r.email == f.email
    ensures r.cpfOuCnpj.None? && r.tipo.None? && r.senha.None?
  {
    NewCustomer(f.id, f.nome, f.email, None, None, None)
  }

  /** Updating from the edit form never lets its null fields reach the
      table: the saved record keeps the stored password, document, type,
      roles, phones and addresses. */
  lemma UpdateFromFormKeepsStoredFields(user: Option<Principal>, t: Table, f: CustomerForm)
    requires WellFormed(t)
    requires Update(user, t, FromForm(f)).Success?
    ensures f.id.Some? && IndexOfId(t, f.id.value).Some?
    ensures var saved := Update(user, t, FromForm(f)).value.customer;
            var stored := t[IndexOfId(t, f.id.value).value];
            && saved.senha == stored.senha
            && saved.cpfOuCnpj == stored.cpfOuCnpj
            && saved.tipo == stored.tipo
            && saved.perfis == stored.perfis
            && saved.telefones == stored.telefones
            && saved.enderecos == stored.enderecos
            && saved.nome == f.nome && saved.email == f.email
  {
  }

  /** The file name part of `uploadProfilePicture`: refused without a
      principal, otherwise the prefix, the principal's id and ".jpg". */
  function ProfilePictureName(user: Option<Principal>, prefix: string): (r: Result<string, Error>)
    ensures user.None? <==> r == Failure(AccessDenied)
    ensures user.Some? ==> r.Success?
    ensures r.Success? ==>
              && |r.value| == |prefix| + |ShowOptInt(user.value.id)| + 4
              && r.value[..|prefix|] == prefix
              && r.value[|prefix|..|r.value| - 4] == ShowOptInt(user.value.id)
              && r.value[|r.value| - 4..] == ".jpg"
  {
    match user
    case None => Failure(AccessDenied)
    case Some(u) => Success(prefix + ShowOptInt(u.id) + ".jpg")
  }

  /** Principals with different ids get different picture names, so one
      customer's upload never replaces another's. */
  lemma ProfilePictureNamesDistinct(u1: Principal, u2: Principal, prefix: string)
    requires u1.id != u2.id
    ensures ProfilePictureName(Some(u1), prefix).value != ProfilePictureName(Some(u2), prefix).value
  {
    ShowOptIntInjective(u1.id, u2.id);
  }
}
