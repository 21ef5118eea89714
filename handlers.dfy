/** The endpoints of main.py. Each handler is a function from the store as
    the request finds it to the HTTP outcome and, for the handlers that
    write, the store the request leaves behind. A failed request leaves the
    store as it was: every error is raised before anything is committed. */
module Handlers {
  import opened Models
  import opened Queries

  /** The statuses the handlers answer with: `BadRequest` is 400,
      `Unauthorized` 401 and `NotFound` 404, each raised with HTTPException;
      `InternalError` is the 500 that a ZeroDivisionError in the score
      comparison surfaces as. */
  datatype HttpError = BadRequest | Unauthorized | NotFound | InternalError

  datatype Result<T> = Ok(value: T) | Err(error: HttpError)

  /** What a writing handler produces: its response and the store after it. */
  datatype Step<T> = Step(response: Result<T>, after: Tables)

  /** Request and response bodies (the JSON shapes of schemas.py). */
  datatype Credenciales = Credenciales(email: string, password: string)
  datatype FavoritoDatos = FavoritoDatos(claseId: string, nombreClase: string, imagenPath: string)
  datatype FavoritosUsuario = FavoritosUsuario(email: string, favoritos: seq<FavoritoDatos>, total: int)
  datatype VisitaDatos = VisitaDatos(claseId: string, count: int)
  datatype VisitasUsuario = VisitasUsuario(email: string, visitas: seq<VisitaDatos>, totalVisitas: int)
  datatype PuntajeDatos = PuntajeDatos(puntajeObtenido: int, puntajeTotal: int, nivel: string)
  datatype PuntajeUsuario = PuntajeUsuario(email: string, puntajeObtenido: int, puntajeTotal: int, nivel: string)
  datatype PuntajeActualizado = PuntajeActualizado(isNewBest: bool, puntajeObtenido: int, puntajeTotal: int, nivel: string)
  datatype Salud = Salud(usuariosRegistrados: nat, totalFavoritos: nat, totalVisitas: nat, totalPuntajes: nat)

  // ----- Lookups: `.filter(...).first()` on one table -----

  /** `get_user_by_email`: the first user row with this email. */
  function GetUserByEmail(us: seq<Usuario>, email: string): (r: Option<nat>)
    ensures r.Some? ==> r.value < |us| && us[r.value].email == email
    ensures r.None? <==> forall j :: 0 <= j < |us| ==> us[j].email != email
  {
    First(us, (u: Usuario) => u.email == email)
  }

  /** The favorite a user holds for a class, if any. */
  function FindFavorito(fs: seq<Favorito>, uid: nat, claseId: string): (r: Option<nat>)
    ensures r.Some? ==> r.value < |fs| && fs[r.value].usuarioId == uid && fs[r.value].claseId == claseId
    ensures r.None? <==> forall j :: 0 <= j < |fs| ==> fs[j].usuarioId != uid || fs[j].claseId != claseId
  {
    First(fs, (f: Favorito) => f.usuarioId == uid && f.claseId == claseId)
  }

  /** The visit counter a user has for a class, if any. */
  function FindVisita(vs: seq<Visita>, uid: nat, claseId: string): (r: Option<nat>)
    ensures r.Some? ==> r.value < |vs| && vs[r.value].usuarioId == uid && vs[r.value].claseId == claseId
    ensures r.None? <==> forall j :: 0 <= j < |vs| ==> vs[j].usuarioId != uid || vs[j].claseId != claseId
  {
    First(vs, (v: Visita) => v.usuarioId == uid && v.claseId == claseId)
  }

  /** The score row of a user, if any. */
  function FindPuntaje(ps: seq<Puntaje>, uid: nat): (r: Option<nat>)
    ensures r.Some? ==> r.value < |ps| && ps[r.value].usuarioId == uid
    ensures r.None? <==> forall j :: 0 <= j < |ps| ==> ps[j].usuarioId != uid
  {
    First(ps, (p: Puntaje) => p.usuarioId == uid)
  }

  // ----- Selections: `.filter(...).all()` and the rows a cascade keeps -----

  /** The favorites of a user, in table order. */
  function FavoritosDe(fs: seq<Favorito>, uid: nat): (r: seq<Favorito>)
    ensures forall f :: f in r <==> f in fs && f.usuarioId == uid
  {
    Filter(fs, (f: Favorito) => f.usuarioId == uid)
  }

  /** The visit counters of a user, in table order. */
  function VisitasDe(vs: seq<Visita>, uid: nat): (r: seq<Visita>)
    ensures forall v :: v in r <==> v in vs && v.usuarioId == uid
  {
    Filter(vs, (v: Visita) => v.usuarioId == uid)
  }

  /** The favorites that survive deleting user `uid`. */
  function FavoritosSin(fs: seq<Favorito>, uid: nat): (r: seq<Favorito>)
    ensures forall f :: f in r <==> f in fs && f.usuarioId != uid
  {
    Filter(fs, (f: Favorito) => f.usuarioId != uid)
  }

  /** The visit counters that survive deleting user `uid`. */
  function VisitasSin(vs: seq<Visita>, uid: nat): (r: seq<Visita>)
    ensures forall v :: v in r <==> v in vs && v.usuarioId != uid
  {
    Filter(vs, (v: Visita) => v.usuarioId != uid)
  }

  /** The score rows that survive deleting user `uid`. */
  function PuntajesSin(ps: seq<Puntaje>, uid: nat): (r: seq<Puntaje>)
    ensures forall p :: p in r <==> p in ps && p.usuarioId != uid
  {
    Filter(ps, (p: Puntaje) => p.usuarioId != uid)
  }

  /** `sum(visita.count for visita in visitas)`. */
  function SumCounts(vs: seq<Visita>): int
  {
    if |vs| == 0 then 0 else SumCounts(vs[..|vs| - 1]) + vs[|vs| - 1].count
  }

  /** The JSON view of one favorite row. */
  function VistaFavorito(f: Favorito): FavoritoDatos
  {
    FavoritoDatos(f.claseId, f.nombreClase, f.imagenPath)
  }

  /** The JSON view of one visit row. */
  function VistaVisita(v: Visita): VisitaDatos
  {
    VisitaDatos(v.claseId, v.count)
  }

  /** A score as a percentage: `(obtenido / total) * 100`, on exact reals. */
  function Porcentaje(obtenido: int, total: int): real
    requires total != 0
  {
    (obtenido as real) / (total as real) * 100.0
  }

  // ----- Users -----

  /** `get_usuarios`: every user's email and password, in table order. */
  function GetUsuarios(t: Tables): (r: seq<Credenciales>)
    ensures |r| == |t.usuarios|
    ensures forall i :: 0 <= i < |r| ==>
      r[i].email == t.usuarios[i].email && r[i].password == t.usuarios[i].password
  {
    seq(|t.usuarios|, i requires 0 <= i < |t.usuarios| =>
      Credenciales(t.usuarios[i].email, t.usuarios[i].password))
  }

  /** `create_user`: the user row and its initial score, in one step. */
  function CreateUser(t: Tables, email: string, password: string): Tables
  {
    t.(usuarios := t.usuarios + [Usuario(t.nextId, email, password)],
       puntajes := t.puntajes + [PuntajeInicial(t.nextId)],
       nextId := t.nextId + 1)
  }

  /** `registrar_usuario`. */
  function RegistrarUsuario(t: Tables, email: string, password: string): Step<string>
  {
    if GetUserByEmail(t.usuarios, email).Some? then Step(Err(BadRequest), t)
    else Step(Ok(email), CreateUser(t, email, password))
  }

  /** `login_usuario`: reads only. */
  function LoginUsuario(t: Tables, email: string, password: string): Result<string>
  {
    match GetUserByEmail(t.usuarios, email)
    case None => Err(NotFound)
    case Some(i) => if t.usuarios[i].password != password then Err(Unauthorized) else Ok(email)
  }

  /** `obtener_usuario`: reads only. */
  function ObtenerUsuario(t: Tables, email: string): Result<string>
  {
    match GetUserByEmail(t.usuarios, email)
    case None => Err(NotFound)
    case Some(i) => Ok(t.usuarios[i].email)
  }

  /** Deleting the user row at `i` together with every row that references
      it (`cascade="all, delete-orphan"` on the three relationships). */
  function DeleteCascade(t: Tables, i: nat): Tables
    requires i < |t.usuarios|
  {
    var uid := t.usuarios[i].id;
    t.(usuarios := RemoveAt(t.usuarios, i),
       favoritos := FavoritosSin(t.favoritos, uid),
       visitas := VisitasSin(t.visitas, uid),
       puntajes := PuntajesSin(t.puntajes, uid))
  }

  /** `eliminar_usuario`. */
  function EliminarUsuario(t: Tables, email: string): Step<()>
  {
    match GetUserByEmail(t.usuarios, email)
    case None => Step(Err(NotFound), t)
    case Some(i) => Step(Ok(()), DeleteCascade(t, i))
  }

  // ----- Favorites -----

  /** `agregar_favorito`. */
  function AgregarFavorito(t: Tables, email: string, req: FavoritoDatos): Step<FavoritoDatos>
  {
    match GetUserByEmail(t.usuarios, email)
    case None => Step(Err(NotFound), t)
    case Some(i) =>
      var uid := t.usuarios[i].id;
      if FindFavorito(t.favoritos, uid, req.claseId).Some? then Step(Err(BadRequest), t)
      else
        var nuevo := Favorito(uid, req.claseId, req.nombreClase, req.imagenPath);
        Step(Ok(VistaFavorito(nuevo)), t.(favoritos := t.favoritos + [nuevo]))
  }

  /** `remover_favorito`. */
  function RemoverFavorito(t: Tables, email: string, claseId: string): Step<()>
  {
    match GetUserByEmail(t.usuarios, email)
    case None => Step(Err(NotFound), t)
    case Some(i) =>
      match FindFavorito(t.favoritos, t.usuarios[i].id, claseId)
      case None => Step(Err(NotFound), t)
      case Some(k) => Step(Ok(()), t.(favoritos := RemoveAt(t.favoritos, k)))
  }

  /** `obtener_favoritos_usuario`: reads only. */
  function ObtenerFavoritosUsuario(t: Tables, email: string): Result<FavoritosUsuario>
  {
    match GetUserByEmail(t.usuarios, email)
    case None => Err(NotFound)
    case Some(i) =>
      var favs := FavoritosDe(t.favoritos, t.usuarios[i].id);
      var lista := seq(|favs|, k requires 0 <= k < |favs| => VistaFavorito(favs[k]));
      Ok(FavoritosUsuario(email, lista, |lista|))
  }

  /** The three columns `actualizar_favorito` overwrites. */
  function Sobrescribir(f: Favorito, req: FavoritoDatos): Favorito
  {
    f.(claseId := req.claseId, nombreClase := req.nombreClase, imagenPath := req.imagenPath)
  }

  /** `actualizar_favorito` as written: it never checks that the new
      `clase_id` is free, so it can leave two favorites with one class. */
  function ActualizarFavoritoAsWritten(t: Tables, email: string, claseId: string, req: FavoritoDatos): Step<()>
  {
    match GetUserByEmail(t.usuarios, email)
    case None => Step(Err(NotFound), t)
    case Some(i) =>
      match FindFavorito(t.favoritos, t.usuarios[i].id, claseId)
      case None => Step(Err(NotFound), t)
      case Some(k) =>
        Step(Ok(()), t.(favoritos := t.favoritos[k := Sobrescribir(t.favoritos[k], req)]))
  }

  /** `actualizar_favorito` with the missing check: moving a favorite onto a
      class the user already holds is refused with 400, as adding it is. */
  function ActualizarFavorito(t: Tables, email: string, claseId: string, req: FavoritoDatos): Step<()>
  {
    match GetUserByEmail(t.usuarios, email)
    case None => Step(Err(NotFound), t)
    case Some(i) =>
      var uid := t.usuarios[i].id;
      match FindFavorito(t.favoritos, uid, claseId)
      case None => Step(Err(NotFound), t)
      case Some(k) =>
        if req.claseId != claseId && FindFavorito(t.favoritos, uid, req.claseId).Some? then
          Step(Err(BadRequest), t)
        else
          Step(Ok(()), t.(favoritos := t.favoritos[k := Sobrescribir(t.favoritos[k], req)]))
  }

  // ----- Visits -----

  /** The visit table after one more visit of user `uid` to a class: the
      counter goes up by one, or a new counter starts at 1. */
  function ContarVisita(vs: seq<Visita>, uid: nat, claseId: string): seq<Visita>
  {
    match FindVisita(vs, uid, claseId)
    case Some(k) => vs[k := vs[k].(count := vs[k].count + 1)]
    case None => vs + [VisitaNueva(uid, claseId)]
  }

  /** `registrar_visita`. */
  function RegistrarVisita(t: Tables, email: string, claseId: string): Step<()>
  {
    match GetUserByEmail(t.usuarios, email)
    case None => Step(Err(NotFound), t)
    case Some(i) => Step(Ok(()), t.(visitas := ContarVisita(t.visitas, t.usuarios[i].id, claseId)))
  }

  /** `obtener_visitas_usuario`: reads only. */
  function ObtenerVisitasUsuario(t: Tables, email: string): Result<VisitasUsuario>
  {
    match GetUserByEmail(t.usuarios, email)
    case None => Err(NotFound)
    case Some(i) =>
      var visitas := VisitasDe(t.visitas, t.usuarios[i].id);
      var lista := seq(|visitas|, k requires 0 <= k < |visitas| => VistaVisita(visitas[k]));
      Ok(VisitasUsuario(email, lista, SumCounts(visitas)))
  }

  // ----- Scores -----

  /** `obtener_puntajes_usuario`: creates the default score when none exists. */
  function ObtenerPuntajesUsuario(t: Tables, email: string): Step<PuntajeUsuario>
  {
    match GetUserByEmail(t.usuarios, email)
    case None => Step(Err(NotFound), t)
    case Some(i) =>
      var uid := t.usuarios[i].id;
      match FindPuntaje(t.puntajes, uid)
      case Some(k) =>
        var p := t.puntajes[k];
        Step(Ok(PuntajeUsuario(email, p.puntajeObtenido, p.puntajeTotal, p.nivel)), t)
      case None =>
        var p := PuntajeInicial(uid);
        Step(Ok(PuntajeUsuario(email, p.puntajeObtenido, p.puntajeTotal, p.nivel)),
             t.(puntajes := t.puntajes + [p]))
  }

  /** `actualizar_puntajes_usuario`: keeps the better of the stored and the
      submitted score, and echoes the submitted one. A zero total in the
      comparison is the ZeroDivisionError of the source, a 500 that commits
      nothing. */
  function ActualizarPuntajesUsuario(t: Tables, email: string, req: PuntajeDatos): Step<PuntajeActualizado>
  {
    match GetUserByEmail(t.usuarios, email)
    case None => Step(Err(NotFound), t)
    case Some(i) =>
      var uid := t.usuarios[i].id;
      var enviado := Puntaje(uid, req.puntajeObtenido, req.puntajeTotal, req.nivel);
      match FindPuntaje(t.puntajes, uid)
      case None =>
        Step(Ok(PuntajeActualizado(true, req.puntajeObtenido, req.puntajeTotal, req.nivel)),
             t.(puntajes := t.puntajes + [enviado]))
      case Some(k) =>
        var actual := t.puntajes[k];
        if actual.puntajeTotal == 0 || req.puntajeTotal == 0 then Step(Err(InternalError), t)
        else if Porcentaje(req.puntajeObtenido, req.puntajeTotal) > Porcentaje(actual.puntajeObtenido, actual.puntajeTotal) then
          Step(Ok(PuntajeActualizado(true, req.puntajeObtenido, req.puntajeTotal, req.nivel)),
               t.(puntajes := t.puntajes[k := enviado]))
        else
          Step(Ok(PuntajeActualizado(false, req.puntajeObtenido, req.puntajeTotal, req.nivel)), t)
  }

  // ----- Health -----

  /** `health_check` on its success path: the row count of every table. */
  function HealthCheck(t: Tables): Salud
  {
    Salud(|t.usuarios|, |t.favoritos|, |t.visitas|, |t.puntajes|)
  }
}
