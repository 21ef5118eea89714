/** The database session as the write handlers of main.py use it: four
    tables that the handlers change in place, row by row. Each method does
    what its handler does to the tables and answers what it answers; its
    contract ties the new tables and the answer to the handler function of
    the same name and keeps the invariants of the schema. */
module Store {
  import opened Models
  import opened Queries
  import opened Handlers
  import opened UserProperties
  import opened FavoritoProperties
  import opened VisitaProperties
  import opened PuntajeProperties

  class Store {
    var usuarios: seq<Usuario>
    var favoritos: seq<Favorito>
    var visitas: seq<Visita>
    var puntajes: seq<Puntaje>
    var nextId: nat

    /** The tables as they stand. */
    function Snapshot(): Tables
      reads this
    {
      Tables(usuarios, favoritos, visitas, puntajes, nextId)
    }

    ghost predicate Valid()
      reads this
    {
      Models.Valid(Snapshot())
    }

    /** The empty database that `create_all` sets up. */
    constructor ()
      ensures Snapshot() == Empty()
      ensures Valid()
    {
      usuarios := [];
      favoritos := [];
      visitas := [];
      puntajes := [];
      nextId := 1;
    }

    /** `create_user`: adds the user and its default score in one step. The
        caller has checked that the email is free; the unique constraint on
        `email` would reject the insert otherwise. */
    method CreateUser(email: string, password: string) returns (u: Usuario)
      requires Valid()
      requires GetUserByEmail(usuarios, email).None?
      modifies this
      ensures Valid()
      ensures Snapshot() == Handlers.CreateUser(old(Snapshot()), email, password)
      ensures u == Usuario(old(nextId), email, password) && u in usuarios
      ensures !HasUser(old(usuarios), u.id)
    {
      ghost var t := Snapshot();
      RegistrarUsuarioPreservesValid(t, email, password);
      NextIdUnused(t);
      u := Usuario(nextId, email, password);
      usuarios := usuarios + [u];
      puntajes := puntajes + [PuntajeInicial(u.id)];
      nextId := nextId + 1;
    }

    /** `registrar_usuario`. */
    method RegistrarUsuario(email: string, password: string) returns (r: Result<string>)
      requires Valid()
      modifies this
      ensures Valid()
      ensures Step(r, Snapshot()) == Handlers.RegistrarUsuario(old(Snapshot()), email, password)
    {
      if GetUserByEmail(usuarios, email).Some? {
        return Err(BadRequest);
      }
      var u := CreateUser(email, password);
      r := Ok(u.email);
    }

    /** `db.delete(usuario)` under `cascade="all, delete-orphan"`: the user
        row at `i` goes, and with it every favorite, visit and score it owns. */
    method DeleteCascade(i: nat)
      requires i < |usuarios|
      modifies this
      ensures Snapshot() == Handlers.DeleteCascade(old(Snapshot()), i)
    {
      var before := Snapshot();
      var after := Handlers.DeleteCascade(before, i);
      usuarios, favoritos, visitas, puntajes := after.usuarios, after.favoritos, after.visitas, after.puntajes;
      assert Snapshot() == after;
    }

    /** `eliminar_usuario`. */
    method EliminarUsuario(email: string) returns (r: Result<()>)
      requires Valid()
      modifies this
      ensures Valid()
      ensures Step(r, Snapshot()) == Handlers.EliminarUsuario(old(Snapshot()), email)
    {
      ghost var t := Snapshot();
      EliminarUsuarioPreservesValid(t, email);
      var found := GetUserByEmail(usuarios, email);
      if found.None? {
        return Err(NotFound);
      }
      DeleteCascade(found.value);
      r := Ok(());
    }

    /** `agregar_favorito`. */
    method AgregarFavorito(email: string, req: FavoritoDatos) returns (r: Result<FavoritoDatos>)
      requires Valid()
      modifies this
      ensures Valid()
      ensures Step(r, Snapshot()) == Handlers.AgregarFavorito(old(Snapshot()), email, req)
    {
      ghost var t := Snapshot();
      AgregarFavoritoPreservesValid(t, email, req);
      var found := GetUserByEmail(usuarios, email);
      if found.None? {
        return Err(NotFound);
      }
      var uid := usuarios[found.value].id;
      if FindFavorito(favoritos, uid, req.claseId).Some? {
        return Err(BadRequest);
      }
      var nuevo := Favorito(uid, req.claseId, req.nombreClase, req.imagenPath);
      favoritos := favoritos + [nuevo];
      r := Ok(FavoritoDatos(nuevo.claseId, nuevo.nombreClase, nuevo.imagenPath));
    }

    /** `remover_favorito`. */
    method RemoverFavorito(email: string, claseId: string) returns (r: Result<()>)
      requires Valid()
      modifies this
      ensures Valid()
      ensures Step(r, Snapshot()) == Handlers.RemoverFavorito(old(Snapshot()), email, claseId)
    {
      ghost var t := Snapshot();
      RemoverFavoritoPreservesValid(t, email, claseId);
      var found := GetUserByEmail(usuarios, email);
      if found.None? {
        return Err(NotFound);
      }
      var favorito := FindFavorito(favoritos, usuarios[found.value].id, claseId);
      if favorito.None? {
        return Err(NotFound);
      }
      favoritos := RemoveAt(favoritos, favorito.value);
      r := Ok(());
    }

    /** `actualizar_favorito`, with the check that the new `clase_id` is not
        already another favorite of the user. */
    method ActualizarFavorito(email: string, claseId: string, req: FavoritoDatos) returns (r: Result<()>)
      requires Valid()
      modifies this
      ensures Valid()
      ensures Step(r, Snapshot()) == Handlers.ActualizarFavorito(old(Snapshot()), email, claseId, req)
    {
      ghost var t := Snapshot();
      ActualizarFavoritoPreservesValid(t, email, claseId, req);
      var found := GetUserByEmail(usuarios, email);
      if found.None? {
        return Err(NotFound);
      }
      var uid := usuarios[found.value].id;
      var favorito := FindFavorito(favoritos, uid, claseId);
      if favorito.None? {
        return Err(NotFound);
      }
      if req.claseId != claseId && FindFavorito(favoritos, uid, req.claseId).Some? {
        return Err(BadRequest);
      }
      var k := favorito.value;
      favoritos := favoritos[k := favoritos[k].(claseId := req.claseId,
                                                nombreClase := req.nombreClase,
                                                imagenPath := req.imagenPath)];
      r := Ok(());
    }

    /** `visita_existente.count += 1`, or `db.add` of a new counter at 1. */
    method ContarVisita(uid: nat, claseId: string)
      modifies this
      ensures Snapshot() == old(Snapshot()).(visitas := Handlers.ContarVisita(old(visitas), uid, claseId))
    {
      var existente := FindVisita(visitas, uid, claseId);
      if existente.Some? {
        var k := existente.value;
        visitas := visitas[k := visitas[k].(count := visitas[k].count + 1)];
      } else {
        visitas := visitas + [VisitaNueva(uid, claseId)];
      }
    }

    /** `registrar_visita`. */
    method RegistrarVisita(email: string, claseId: string) returns (r: Result<()>)
      requires Valid()
      modifies this
      ensures Valid()
      ensures Step(r, Snapshot()) == Handlers.RegistrarVisita(old(Snapshot()), email, claseId)
    {
      ghost var t := Snapshot();
      RegistrarVisitaPreservesValid(t, email, claseId);
      var found := GetUserByEmail(usuarios, email);
      if found.None? {
        return Err(NotFound);
      }
      ContarVisita(usuarios[found.value].id, claseId);
      r := Ok(());
    }

    /** `obtener_puntajes_usuario`: stores the default score first when the
        user has none. */
    method ObtenerPuntajesUsuario(email: string) returns (r: Result<PuntajeUsuario>)
      requires Valid()
      modifies this
      ensures Valid()
      ensures Step(r, Snapshot()) == Handlers.ObtenerPuntajesUsuario(old(Snapshot()), email)
    {
      ghost var t := Snapshot();
      ObtenerPuntajesUsuarioPreservesValid(t, email);
      var found := GetUserByEmail(usuarios, email);
      if found.None? {
        return Err(NotFound);
      }
      var uid := usuarios[found.value].id;
      var k := FindPuntaje(puntajes, uid);
      var puntaje: Puntaje;
      if k.None? {
        puntaje := PuntajeInicial(uid);
        puntajes := puntajes + [puntaje];
      } else {
        puntaje := puntajes[k.value];
      }
      r := Ok(PuntajeUsuario(email, puntaje.puntajeObtenido, puntaje.puntajeTotal, puntaje.nivel));
    }

    /** `actualizar_puntajes_usuario`: overwrites the stored score in place
        only when the submitted percentage is strictly higher. */
    method ActualizarPuntajesUsuario(email: string, req: PuntajeDatos) returns (r: Result<PuntajeActualizado>)
      requires Valid()
      modifies this
      ensures Valid()
      ensures Step(r, Snapshot()) == Handlers.ActualizarPuntajesUsuario(old(Snapshot()), email, req)
    {
      ghost var t := Snapshot();
      ActualizarPuntajesUsuarioPreservesValid(t, email, req);
      var found := GetUserByEmail(usuarios, email);
      if found.None? {
        return Err(NotFound);
      }
      var uid := usuarios[found.value].id;
      var enviado := Puntaje(uid, req.puntajeObtenido, req.puntajeTotal, req.nivel);
      var k := FindPuntaje(puntajes, uid);
      var isNewBest := false;
      if k.None? {
        puntajes := puntajes + [enviado];
        isNewBest := true;
      } else {
        var actual := puntajes[k.value];
        if actual.puntajeTotal == 0 || req.puntajeTotal == 0 {
          return Err(InternalError);
        }
        var porcentajeActual := Porcentaje(actual.puntajeObtenido, actual.puntajeTotal);
        var porcentajeNuevo := Porcentaje(req.puntajeObtenido, req.puntajeTotal);
        if porcentajeNuevo > porcentajeActual {
          puntajes := puntajes[k.value := enviado];
          isNewBest := true;
        }
      }
      r := Ok(PuntajeActualizado(isNewBest, req.puntajeObtenido, req.puntajeTotal, req.nivel));
    }
  }
}
