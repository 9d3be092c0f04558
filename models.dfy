/** The `Usuario` record of the administration backend (Django model
    `Usuario`, table `usuarios`) and the ORM lookup the login view runs on it. */
module Models {

  import opened Options

  /** The two user kinds, as (stored value, display label) pairs. */
  const TipoChoices: seq<(string, string)> := [("ADMIN", "Administrador"), ("USUARIO", "Usuario")]

  /** Declared column widths. `EmailField` declares none, so Django's default
      of 254 applies to it. */
  const EmailMaxLength := 254
  const PasswordMaxLength := 255
  const NombreMaxLength := 100
  const ApellidoMaxLength := 100
  const TipoMaxLength := 20

  /** One row of `usuarios`. `id` is the primary key Django adds; the
      creation and update timestamps are not modelled. */
  datatype Usuario = Usuario(
    id: nat,
    email: string,
    password: string,
    nombre: string,
    apellido: string,
    tipoUsuario: string)

  /** A value listed in `TipoChoices`. */
  predicate ValidTipo(t: string)
  {
    exists i :: 0 <= i < |TipoChoices| && TipoChoices[i].0 == t
  }

  /** A row that passes form and serializer validation: the declared widths
      and the choices of `tipo_usuario`. No database constraint backs the
      choices; the widths become the `varchar` sizes of the columns. */
  predicate WellFormed(u: Usuario)
  {
    && |u.email| <= EmailMaxLength
    && |u.password| <= PasswordMaxLength
    && |u.nombre| <= NombreMaxLength
    && |u.apellido| <= ApellidoMaxLength
    && |u.tipoUsuario| <= TipoMaxLength
    && ValidTipo(u.tipoUsuario)
  }

  /** The unique constraint on `email`. */
  predicate UniqueEmails(table: seq<Usuario>)
  {
    forall i, j :: 0 <= i < j < |table| ==> table[i].email != table[j].email
  }

  /** A value the `choices` admit is one of exactly two, and each fits the
      column's declared width. */
  lemma TipoIsAdminOrUsuario(t: string)
    ensures ValidTipo(t) <==> t == "ADMIN" || t == "USUARIO"
    ensures ValidTipo(t) ==> |t| <= TipoMaxLength
  {
    if t == "ADMIN" {
      assert TipoChoices[0].0 == t;
    } else if t == "USUARIO" {
      assert TipoChoices[1].0 == t;
    }
  }

  /** `__str__`: the first name, a space, the last name. */
  function Str(u: Usuario): (r: string)
    ensures |r| == |u.nombre| + 1 + |u.apellido|
    ensures r[..|u.nombre|] == u.nombre && r[|u.nombre|] == ' ' && r[|u.nombre| + 1..] == u.apellido
  {
    u.nombre + " " + u.apellido
  }

  /** The string form of a well-formed row fits in 201 characters. */
  lemma StrBound(u: Usuario)
    requires WellFormed(u)
    ensures |Str(u)| <= NombreMaxLength + 1 + ApellidoMaxLength
  {
  }

  /** `Usuario.objects.filter(email=email)`: the rows whose email is exactly
      `email`, in table order. */
  function Filter(table: seq<Usuario>, email: string): (rows: seq<Usuario>)
    ensures |rows| <= |table|
    ensures forall u :: u in rows <==> u in table && u.email == email
  {
    if table == [] then []
    else
      var rest := Filter(table[1..], email);
      assert forall u :: u in table <==> u == table[0] || u in table[1..];
      if table[0].email == email then [table[0]] + rest else rest
  }

  /** What `Usuario.objects.get(...)` does: return the single match, or raise. */
  datatype GetResult = Found(user: Usuario) | DoesNotExist | MultipleObjectsReturned

  /** `Usuario.objects.get(email=email)`. A missing email (`None`) becomes
      `email IS NULL`, which no row satisfies since the column is NOT NULL.
      It finds a row of the table with that email, or raises DoesNotExist
      exactly when no row has it; under the unique constraint it never
      raises MultipleObjectsReturned. */
  function Get(table: seq<Usuario>, email: Option<string>): (g: GetResult)
    ensures g.Found? ==> email.Some? && g.user in table && g.user.email == email.value
    ensures g.DoesNotExist? <==> email.None? || forall u :: u in table ==> u.email != email.value
    ensures UniqueEmails(table) ==> !g.MultipleObjectsReturned?
  {
    if email.None? then DoesNotExist
    else
      var rows := Filter(table, email.value);
      assert |rows| == 0 || rows[0] in rows;
      assert UniqueEmails(table) ==> |rows| <= 1 by {
        if UniqueEmails(table) {
          FilterAtMostOne(table, email.value);
        }
      }
      if |rows| == 0 then DoesNotExist
      else if |rows| == 1 then Found(rows[0])
      else MultipleObjectsReturned
  }

  /** Under the unique constraint a lookup by email yields at most one row. */
  lemma {:induction false} FilterAtMostOne(table: seq<Usuario>, email: string)
    requires UniqueEmails(table)
    ensures |Filter(table, email)| <= 1
  {
    if table != [] {
      FilterAtMostOne(table[1..], email);
      if table[0].email == email {
        forall u | u in table[1..]
          ensures u.email != email
        {
          var j :| 0 <= j < |table[1..]| && table[1..][j] == u;
          assert table[j + 1] == u;
        }
        FilterNone(table[1..], email);
      }
    }
  }

  lemma {:induction false} FilterNone(table: seq<Usuario>, email: string)
    requires forall u :: u in table ==> u.email != email
    ensures Filter(table, email) == []
  {
    if table != [] {
      assert table[0] in table;
      FilterNone(table[1..], email);
    }
  }
}
