/** The four tables of the store (models.py): the shape of each row, the
    column defaults, and the constraints the schema declares, gathered in
    the predicate `Valid`. */
module Models {
  import opened Queries

  /** A row of `usuarios`. `id` is the generated primary key; `email` is
      declared unique and non-null. */
  datatype Usuario = Usuario(id: nat, email: string, password: string)

  /** A row of `favoritos`. `usuarioId` is the non-null foreign key. */
  datatype Favorito = Favorito(usuarioId: nat, claseId: string, nombreClase: string, imagenPath: string)

  /** A row of `visitas`: a per-user, per-class visit counter. */
  datatype Visita = Visita(usuarioId: nat, claseId: string, count: int)

  /** A row of `puntajes`: a user's best result, as a fraction and a level. */
  datatype Puntaje = Puntaje(usuarioId: nat, puntajeObtenido: int, puntajeTotal: int, nivel: string)

  /** The default of the `nivel` column. */
  const NivelBasico: string := "Básico"

  /** A visit row built with the column default `count = 1`. */
  function VisitaNueva(usuarioId: nat, claseId: string): Visita
  {
    Visita(usuarioId, claseId, 1)
  }

  /** A score row built with the column defaults 0 / 20 / "Básico". */
  function PuntajeInicial(usuarioId: nat): Puntaje
  {
    Puntaje(usuarioId, 0, 20, NivelBasico)
  }

  /** The whole store. Rows are kept in insertion order; `nextId` is the
      next primary key the `usuarios` table hands out. */
  datatype Tables = Tables(
    usuarios: seq<Usuario>,
    favoritos: seq<Favorito>,
    visitas: seq<Visita>,
    puntajes: seq<Puntaje>,
    nextId: nat)

  /** The empty store, as created at start-up. */
  function Empty(): Tables
  {
    Tables([], [], [], [], 1)
  }

  /** The relations the uniqueness rules require of every two rows. */
  predicate EmailsDiffer(a: Usuario, b: Usuario) { a.email != b.email }
  predicate IdsDiffer(a: Usuario, b: Usuario) { a.id != b.id }
  predicate FavoritoKeysDiffer(f: Favorito, g: Favorito) { f.usuarioId != g.usuarioId || f.claseId != g.claseId }
  predicate VisitaKeysDiffer(v: Visita, w: Visita) { v.usuarioId != w.usuarioId || v.claseId != w.claseId }
  predicate PuntajeKeysDiffer(p: Puntaje, q: Puntaje) { p.usuarioId != q.usuarioId }

  /** `unique=True` on `usuarios.email`. */
  ghost predicate EmailsUnique(us: seq<Usuario>)
  {
    Pairwise(us, EmailsDiffer)
  }

  /** Primary keys of `usuarios` are distinct and all below `nextId`. */
  ghost predicate IdsFresh(us: seq<Usuario>, nextId: nat)
  {
    && (forall u :: u in us ==> u.id < nextId)
    && Pairwise(us, IdsDiffer)
  }

  /** Some user row has primary key `id`. */
  ghost predicate HasUser(us: seq<Usuario>, id: nat)
  {
    exists u :: u in us && u.id == id
  }

  /** At most one favorite per (usuarioId, claseId). */
  ghost predicate FavoritosUnique(fs: seq<Favorito>)
  {
    Pairwise(fs, FavoritoKeysDiffer)
  }

  /** At most one visit counter per (usuarioId, claseId). */
  ghost predicate VisitasUnique(vs: seq<Visita>)
  {
    Pairwise(vs, VisitaKeysDiffer)
  }

  /** Every visit counter has been bumped at least once. */
  ghost predicate VisitasCounted(vs: seq<Visita>)
  {
    forall v :: v in vs ==> v.count >= 1
  }

  /** At most one score per user. */
  ghost predicate PuntajesUnique(ps: seq<Puntaje>)
  {
    Pairwise(ps, PuntajeKeysDiffer)
  }

  /** Non-null foreign keys: every child row references an existing user. */
  ghost predicate ReferencesUsers(t: Tables)
  {
    && (forall f :: f in t.favoritos ==> HasUser(t.usuarios, f.usuarioId))
    && (forall v :: v in t.visitas ==> HasUser(t.usuarios, v.usuarioId))
    && (forall p :: p in t.puntajes ==> HasUser(t.usuarios, p.usuarioId))
  }

  /** The constraints of the schema, plus the uniqueness rules the handlers
      enforce by checking before inserting. */
  ghost predicate Valid(t: Tables)
  {
    && EmailsUnique(t.usuarios)
    && IdsFresh(t.usuarios, t.nextId)
    && FavoritosUnique(t.favoritos)
    && VisitasUnique(t.visitas)
    && VisitasCounted(t.visitas)
    && PuntajesUnique(t.puntajes)
    && ReferencesUsers(t)
  }
}
