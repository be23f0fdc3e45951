/** Form listing of `src/lib/forms.ts`: a copy of the form catalogue,
    scoped by the admin flag or the user's discipline and ordered newest
    first. The catalogue (`mockFormularios`) is a parameter. */
module Forms {
  import opened Common

  datatype EstadoFormulario = Borrador | Publicado | Cerrado

  /** One form. `fechaCreacion` is the creation instant in milliseconds. */
  datatype Formulario = Formulario(
    id: int,
    usuarioId: int,
    disciplinaId: int,
    titulo: string,
    descripcion: string,
    fechaCreacion: int,
    fechaModificacion: int,
    estado: EstadoFormulario,
    disciplina: string,
    creador: string)

  function Creacion(f: Formulario): int
  {
    f.fechaCreacion
  }

  function DeDisciplina(d: int): Formulario -> bool
  {
    (f: Formulario) => f.disciplinaId == d
  }

  /** `getFormularios(userId, esAdmin, disciplinaId)` over the catalogue
      `forms`. The admin flag wins over the discipline; `userId` is unused. */
  function GetFormularios(forms: seq<Formulario>, userId: int, esAdmin: bool, disciplinaId: Option<int>): (r: seq<Formulario>)
    ensures esAdmin ==> |r| == |forms| && multiset(r) == multiset(forms)
    ensures !esAdmin && TruthyInt(disciplinaId) ==>
              multiset(r) == multiset(Filter(forms, DeDisciplina(disciplinaId.value))) &&
              forall f :: f in r <==> f in forms && f.disciplinaId == disciplinaId.value
    ensures !esAdmin && !TruthyInt(disciplinaId) ==> r == []
    ensures SortedDesc(r, Creacion)
  {
    if esAdmin then
      SortDescFacts(forms, Creacion);
      SortDesc(forms, Creacion)
    else if TruthyInt(disciplinaId) then
      var mine := Filter(forms, DeDisciplina(disciplinaId.value));
      SortDescFacts(mine, Creacion);
      FilterMembership(forms, DeDisciplina(disciplinaId.value));
      var r := SortDesc(mine, Creacion);
      forall f ensures f in r <==> f in forms && f.disciplinaId == disciplinaId.value {
        assert f in r <==> f in multiset(r);
        assert f in mine <==> f in multiset(mine);
        assert DeDisciplina(disciplinaId.value)(f) <==> f.disciplinaId == disciplinaId.value;
      }
      r
    else []
  }

  /** The user id has no influence on the listing, and an administrator's
      listing does not depend on the discipline passed. */
  lemma GetFormulariosIgnoresUserAndDiscipline(forms: seq<Formulario>, u1: int, u2: int, d1: Option<int>, d2: Option<int>)
    ensures GetFormularios(forms, u1, true, d1) == GetFormularios(forms, u2, true, d2)
    ensures GetFormularios(forms, u1, false, d1) == GetFormularios(forms, u2, false, d1)
  {
  }

  /** A non-administrator of a discipline that has forms sees exactly as many
      forms as that discipline holds, and nothing when it holds none. */
  lemma {:induction false} DisciplineListingSize(forms: seq<Formulario>, u: int, d: int)
    requires d != 0
    ensures |GetFormularios(forms, u, false, Some(d))| == |Filter(forms, DeDisciplina(d))|
    ensures (forall i :: 0 <= i < |forms| ==> forms[i].disciplinaId != d) ==> GetFormularios(forms, u, false, Some(d)) == []
  {
    var mine := Filter(forms, DeDisciplina(d));
    SortDescFacts(mine, Creacion);
    if forall i :: 0 <= i < |forms| ==> forms[i].disciplinaId != d {
      FilterNone(forms, DeDisciplina(d));
    }
  }
}
