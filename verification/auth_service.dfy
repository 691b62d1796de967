/** `AuthService`: the forgotten-password flow and the temporary password
    generator. The random source is replaced by the draws it would return,
    and the password encoder by a function given by the caller. */
module AuthService {
  import opened Results
  import opened Domain
  import opened Text
  import UserDetails

  const PasswordLength: nat := 10

  /** Upper bound of the second draw of `randomChar` for a given first draw. */
  function IndexBound(opt: nat): nat {
    if opt == 0 then 10 else 26
  }

  /** The two `nextInt` results one `randomChar` call consumes: the kind of
      character (`nextInt(3)`) and its position within that kind. */
  datatype RawDraw = RawDraw(opt: nat, index: nat)

  type Draw = d: RawDraw | d.opt < 3 && d.index < IndexBound(d.opt) witness RawDraw(0, 0)

  predicate IsAsciiUpper(c: char) { 'A' <= c <= 'Z' }
  predicate IsAsciiLower(c: char) { 'a' <= c <= 'z' }

  predicate IsAsciiAlnum(c: char) {
    IsDigit(c) || IsAsciiUpper(c) || IsAsciiLower(c)
  }

  /** `randomChar`: a digit, an upper-case or a lower-case letter. */
  function RandomChar(d: Draw): (c: char)
    ensures d.opt == 0 <==> IsDigit(c)
    ensures d.opt == 1 <==> IsAsciiUpper(c)
    ensures d.opt == 2 <==> IsAsciiLower(c)
    ensures IsAsciiAlnum(c)
  {
    if d.opt == 0 then (d.index + 48) as char
    else if d.opt == 1 then (d.index + 65) as char
    else (d.index + 97) as char
  }

  /** The draw that produces a given letter or digit. */
  function DrawFor(c: char): (d: Draw)
    requires IsAsciiAlnum(c)
  {
    if IsDigit(c) then RawDraw(0, c as int - 48)
    else if IsAsciiUpper(c) then RawDraw(1, c as int - 65)
    else RawDraw(2, c as int - 97)
  }

  /** Every ASCII letter and digit can be generated, by exactly one draw. */
  lemma RandomCharBijective(c: char, d: Draw)
    ensures IsAsciiAlnum(c) ==> RandomChar(DrawFor(c)) == c
    ensures DrawFor(RandomChar(d)) == d
  {
  }

  /** `newPassword`: one character per draw. */
  method NewPassword(draws: seq<Draw>) returns (password: string)
    requires |draws| == PasswordLength
    ensures |password| == PasswordLength
    ensures forall i :: 0 <= i < PasswordLength ==> password[i] == RandomChar(draws[i])
    ensures forall i :: 0 <= i < |password| ==> IsAsciiAlnum(password[i])
  {
    var vet: seq<char> := [];
    var i := 0;
    while i < PasswordLength
      invariant 0 <= i <= PasswordLength
      invariant |vet| == i
      invariant forall j :: 0 <= j < i ==> vet[j] == RandomChar(draws[j])
    {
      vet := vet + [RandomChar(draws[i])];
      i := i + 1;
    }
    password := vet;
  }

  /** What the reset does to the outside world, in order. */
  datatype Effect =
    | Saved(row: Customer)
    | Mailed(to: Customer, plaintext: string)

  /** A completed reset: the table after the save, and the effects. */
  datatype Reset = Reset(table: Table, effects: seq<Effect>)

  const EmailNotFound: string := "Email não encontrado"

  /** `sendNewPassword`. An unknown email fails with nothing written and
      nothing sent. Otherwise the customer's stored password becomes the
      encoding of a fresh temporary password, the row is saved, and then
      the same plaintext is mailed to that customer. */
  method SendNewPassword(t: Table, email: string, draws: seq<Draw>, encode: string -> string)
    returns (r: Result<Reset, Error>)
    requires WellFormed(t)
    requires |draws| == PasswordLength
    ensures r.Failure? <==> IndexOfEmail(t, email).None?
    ensures r.Failure? ==> r.error == ObjectNotFound(EmailNotFound)
    ensures r.Success? ==>
              var i := IndexOfEmail(t, email).value;
              && |r.value.effects| == 2
              && r.value.effects[0].Saved?
              && r.value.effects[1].Mailed?
              && r.value.effects[1].to == r.value.effects[0].row
              && r.value.table == t[i := r.value.effects[0].row]
              && r.value.effects[0].row == t[i].(senha := Some(encode(r.value.effects[1].plaintext)))
    ensures r.Success? ==>
              var pass := r.value.effects[1].plaintext;
              && |pass| == PasswordLength
              && (forall k :: 0 <= k < PasswordLength ==> pass[k] == RandomChar(draws[k]))
    ensures r.Success? ==> WellFormed(r.value.table)
    ensures r.Success? ==>
              var before := t[IndexOfEmail(t, email).value];
              UserDetails.LoadUserByUsername(r.value.table, email)
                == Success(Principal(before.id, email, Some(encode(r.value.effects[1].plaintext)), before.perfis))
  {
    var found := IndexOfEmail(t, email);
    if found.None? {
      return Failure(ObjectNotFound(EmailNotFound));
    }
    var i := found.value;
    var newPass := NewPassword(draws);
    var cliente := t[i].(senha := Some(encode(newPass)));
    var table := Save(t, cliente, i);
    SameEmailsSameLookup(t, table, email);
    r := Success(Reset(table, [Saved(cliente), Mailed(cliente, newPass)]));
  }

  /** Tables that agree on every row's email agree on every email lookup. */
  lemma SameEmailsSameLookup(t: Table, u: Table, email: string)
    requires |t| == |u|
    requires forall j :: 0 <= j < |t| ==> t[j].email == u[j].email
    ensures IndexOfEmail(t, email) == IndexOfEmail(u, email)
  {
  }
}
