/** What the favorite endpoints promise (main.py:112-214), and the defect
    of `actualizar_favorito` as written. */
module FavoritoProperties {
  import opened Models
  import opened Queries
  import opened Handlers
  import opened UserProperties

  /** The user's favorites after one more row was appended. */
  lemma FavoritosDeAppend(fs: seq<Favorito>, x: Favorito, uid: nat)
    ensures FavoritosDe(fs + [x], uid) == FavoritosDe(fs, uid) + (if x.usuarioId == uid then [x] else [])
  {
    FilterAppend(fs, x, (f: Favorito) => f.usuarioId == uid);
  }

  /** With unique favorites, the row found for a (user, class) pair is the
      only row with that pair. */
  lemma FindFavoritoUnique(fs: seq<Favorito>, k: nat)
    requires FavoritosUnique(fs) && k < |fs|
    ensures FindFavorito(fs, fs[k].usuarioId, fs[k].claseId) == Some(k)
    ensures forall j :: 0 <= j < |fs| && j != k ==>
      fs[j].usuarioId != fs[k].usuarioId || fs[j].claseId != fs[k].claseId
  {
    forall j | 0 <= j < |fs| && j != k
      ensures fs[j].usuarioId != fs[k].usuarioId || fs[j].claseId != fs[k].claseId
    {
      if j < k {
        assert FavoritoKeysDiffer(fs[j], fs[k]);
      } else {
        assert FavoritoKeysDiffer(fs[k], fs[j]);
      }
    }
  }

  /** Adding a favorite for an unknown email answers 404 and changes nothing. */
  lemma AgregarFavoritoUnknownUser(t: Tables, email: string, req: FavoritoDatos)
    ensures var s := AgregarFavorito(t, email, req);
      (s.response == Err(NotFound) <==> forall j :: 0 <= j < |t.usuarios| ==> t.usuarios[j].email != email)
      && (s.response.Err? ==> s.after == t)
  {
  }

  /** Adding a favorite for a registered user answers 400 exactly when the
      user already holds that class; otherwise it appends exactly that row,
      echoes it, and the user's listed total grows by exactly one. */
  lemma AgregarFavoritoGrows(t: Tables, i: nat, req: FavoritoDatos)
    requires Valid(t) && i < |t.usuarios|
    ensures var email := t.usuarios[i].email;
      var uid := t.usuarios[i].id;
      var s := AgregarFavorito(t, email, req);
      && (s.response == Err(BadRequest) <==>
            exists j :: 0 <= j < |t.favoritos| && t.favoritos[j].usuarioId == uid && t.favoritos[j].claseId == req.claseId)
      && (s.response.Err? ==> s.response.error == BadRequest && s.after == t)
      && (s.response.Ok? ==>
            && s.response.value == req
            && s.after.favoritos == t.favoritos + [Favorito(uid, req.claseId, req.nombreClase, req.imagenPath)]
            && s.after.usuarios == t.usuarios
            && s.after.visitas == t.visitas
            && s.after.puntajes == t.puntajes
            && ObtenerFavoritosUsuario(s.after, email).Ok?
            && ObtenerFavoritosUsuario(s.after, email).value.total == ObtenerFavoritosUsuario(t, email).value.total + 1)
  {
    var email := t.usuarios[i].email;
    var uid := t.usuarios[i].id;
    GetUserByEmailUnique(t.usuarios, i);
    FavoritosDeAppend(t.favoritos, Favorito(uid, req.claseId, req.nombreClase, req.imagenPath), uid);
  }

  /** Adding a favorite keeps every invariant; in particular a user never
      holds one class twice. */
  lemma AgregarFavoritoPreservesValid(t: Tables, email: string, req: FavoritoDatos)
    requires Valid(t)
    ensures Valid(AgregarFavorito(t, email, req).after)
  {
    var s := AgregarFavorito(t, email, req);
    if s.response.Ok? {
      var i := GetUserByEmail(t.usuarios, email).value;
      var uid := t.usuarios[i].id;
      var nuevo := Favorito(uid, req.claseId, req.nombreClase, req.imagenPath);
      forall j | 0 <= j < |t.favoritos| ensures FavoritoKeysDiffer(t.favoritos[j], nuevo) {
      }
      AppendPairwise(t.favoritos, nuevo, FavoritoKeysDiffer);
      assert t.usuarios[i] in t.usuarios;
    }
  }

  /** Removing a favorite answers 404 when the user or the favorite is
      missing and then changes nothing; otherwise it deletes exactly the
      row of that (user, class) pair and keeps every other row. */
  lemma RemoverFavoritoExact(t: Tables, i: nat, claseId: string)
    requires EmailsUnique(t.usuarios) && FavoritosUnique(t.favoritos) && i < |t.usuarios|
    ensures var email := t.usuarios[i].email;
      var uid := t.usuarios[i].id;
      var s := RemoverFavorito(t, email, claseId);
      && (s.response == Err(NotFound) <==>
            forall j :: 0 <= j < |t.favoritos| ==> t.favoritos[j].usuarioId != uid || t.favoritos[j].claseId != claseId)
      && (s.response.Err? ==> s.response.error == NotFound && s.after == t)
      && (s.response.Ok? ==>
            && |s.after.favoritos| == |t.favoritos| - 1
            && (forall f :: f in s.after.favoritos <==>
                  f in t.favoritos && (f.usuarioId != uid || f.claseId != claseId))
            && s.after.usuarios == t.usuarios
            && s.after.visitas == t.visitas
            && s.after.puntajes == t.puntajes)
  {
    var email := t.usuarios[i].email;
    var uid := t.usuarios[i].id;
    GetUserByEmailUnique(t.usuarios, i);
    var s := RemoverFavorito(t, email, claseId);
    if s.response.Ok? {
      var fs := t.favoritos;
      var k := FindFavorito(fs, uid, claseId).value;
      FindFavoritoUnique(fs, k);
      var rest := RemoveAt(fs, k);
      assert s.after.favoritos == rest;
      forall f ensures f in rest <==> f in fs && (f.usuarioId != uid || f.claseId != claseId) {
        if f in fs && (f.usuarioId != uid || f.claseId != claseId) {
          assert f != fs[k];
          assert multiset(rest)[f] == multiset(fs)[f];
          assert f in multiset(rest);
        }
        if f in rest {
          var j :| 0 <= j < |rest| && rest[j] == f;
          var j' := if j < k then j else j + 1;
          assert rest[j] == fs[j'];
        }
      }
    }
  }

  /** Removing a favorite for an unknown email answers 404 and changes
      nothing. */
  lemma RemoverFavoritoUnknownUser(t: Tables, email: string, claseId: string)
    ensures (forall j :: 0 <= j < |t.usuarios| ==> t.usuarios[j].email != email) ==>
      RemoverFavorito(t, email, claseId) == Step(Err(NotFound), t)
  {
  }

  /** Removing a favorite keeps every invariant. */
  lemma RemoverFavoritoPreservesValid(t: Tables, email: string, claseId: string)
    requires Valid(t)
    ensures Valid(RemoverFavorito(t, email, claseId).after)
  {
    var s := RemoverFavorito(t, email, claseId);
    if s.response.Ok? {
      var i := GetUserByEmail(t.usuarios, email).value;
      var k := FindFavorito(t.favoritos, t.usuarios[i].id, claseId).value;
      RemoveAtPairwise(t.favoritos, k, FavoritoKeysDiffer);
      assert multiset(s.after.favoritos) <= multiset(t.favoritos);
      forall f | f in s.after.favoritos ensures f in t.favoritos {
        assert f in multiset(s.after.favoritos);
      }
    }
  }

  /** Listing favorites answers 404 exactly when no user has the email;
      404 is its only error. */
  lemma ObtenerFavoritosUsuarioUnknownUser(t: Tables, email: string)
    ensures var r := ObtenerFavoritosUsuario(t, email);
      && (r == Err(NotFound) <==> forall j :: 0 <= j < |t.usuarios| ==> t.usuarios[j].email != email)
      && (r.Err? ==> r.error == NotFound)
  {
  }

  /** Listing the favorites of a registered user: `total` is the length of
      the list, and the list shows exactly the user's rows. */
  lemma ObtenerFavoritosUsuarioLists(t: Tables, i: nat)
    requires EmailsUnique(t.usuarios) && i < |t.usuarios|
    ensures var email := t.usuarios[i].email;
      var uid := t.usuarios[i].id;
      var r := ObtenerFavoritosUsuario(t, email);
      && r.Ok?
      && r.value.email == email
      && r.value.total == |r.value.favoritos|
      && (forall f :: f in t.favoritos && f.usuarioId == uid ==> VistaFavorito(f) in r.value.favoritos)
      && (forall k :: 0 <= k < |r.value.favoritos| ==>
            exists f :: f in t.favoritos && f.usuarioId == uid && VistaFavorito(f) == r.value.favoritos[k])
  {
    var uid := t.usuarios[i].id;
    GetUserByEmailUnique(t.usuarios, i);
    var favs := FavoritosDe(t.favoritos, uid);
    var lista := ObtenerFavoritosUsuario(t, t.usuarios[i].email).value.favoritos;
    forall f | f in t.favoritos && f.usuarioId == uid ensures VistaFavorito(f) in lista {
      var m :| 0 <= m < |favs| && favs[m] == f;
      assert lista[m] == VistaFavorito(f);
    }
    forall k | 0 <= k < |lista|
      ensures exists f :: f in t.favoritos && f.usuarioId == uid && VistaFavorito(f) == lista[k]
    {
      assert favs[k] in favs;
    }
    var r := ObtenerFavoritosUsuario(t, t.usuarios[i].email);
    assert forall f :: f in t.favoritos && f.usuarioId == uid ==> VistaFavorito(f) in r.value.favoritos;
    assert (forall k :: 0 <= k < |r.value.favoritos| ==>
            exists f :: f in t.favoritos && f.usuarioId == uid && VistaFavorito(f) == r.value.favoritos[k]);
  }

  /** The defect: when the new class is one the user already holds under
      another favorite, the update as written succeeds and leaves two
      favorites of that user for the same class. */
  lemma ActualizarFavoritoAsWrittenBreaksUniqueness(t: Tables, i: nat, claseId: string, req: FavoritoDatos)
    requires Valid(t) && i < |t.usuarios|
    requires req.claseId != claseId
    requires exists j :: 0 <= j < |t.favoritos| && t.favoritos[j].usuarioId == t.usuarios[i].id && t.favoritos[j].claseId == claseId
    requires exists j :: 0 <= j < |t.favoritos| && t.favoritos[j].usuarioId == t.usuarios[i].id && t.favoritos[j].claseId == req.claseId
    ensures var s := ActualizarFavoritoAsWritten(t, t.usuarios[i].email, claseId, req);
      s.response.Ok? && !FavoritosUnique(s.after.favoritos)
  {
    var uid := t.usuarios[i].id;
    GetUserByEmailUnique(t.usuarios, i);
    var fs := t.favoritos;
    var k := FindFavorito(fs, uid, claseId).value;
    var m := FindFavorito(fs, uid, req.claseId).value;
    var fs' := ActualizarFavoritoAsWritten(t, t.usuarios[i].email, claseId, req).after.favoritos;
    assert fs'[k].usuarioId == uid && fs'[k].claseId == req.claseId;
    assert fs'[m] == fs[m];
    if k < m {
      assert !FavoritoKeysDiffer(fs'[k], fs'[m]);
    } else {
      assert !FavoritoKeysDiffer(fs'[m], fs'[k]);
    }
  }

  /** A concrete instance: a user holding classes "c1" and "c2" renames
      favorite "c1" to "c2"; the update succeeds and the table then holds
      two favorites (user 1, "c2"). */
  lemma ActualizarFavoritoAsWrittenCounterexample()
    ensures var t := Tables([Usuario(1, "a@x.com", "pw")],
                            [Favorito(1, "c1", "Uno", "uno.png"), Favorito(1, "c2", "Dos", "dos.png")],
                            [], [PuntajeInicial(1)], 2);
      var s := ActualizarFavoritoAsWritten(t, "a@x.com", "c1", FavoritoDatos("c2", "Dos", "dos.png"));
      && Valid(t)
      && s.response == Ok(())
      && s.after.favoritos == [Favorito(1, "c2", "Dos", "dos.png"), Favorito(1, "c2", "Dos", "dos.png")]
      && !FavoritosUnique(s.after.favoritos)
  {
    var t := Tables([Usuario(1, "a@x.com", "pw")],
                    [Favorito(1, "c1", "Uno", "uno.png"), Favorito(1, "c2", "Dos", "dos.png")],
                    [], [PuntajeInicial(1)], 2);
    assert t.usuarios[0] in t.usuarios;
    assert FavoritoKeysDiffer(t.favoritos[0], t.favoritos[1]);
    assert Valid(t);
    assert t.favoritos[0].claseId == "c1" && t.favoritos[1].claseId == "c2";
    ActualizarFavoritoAsWrittenBreaksUniqueness(t, 0, "c1", FavoritoDatos("c2", "Dos", "dos.png"));
  }

  /** Updating a favorite for an unknown email answers 404 and changes
      nothing, in the update as written and in the corrected one. */
  lemma ActualizarFavoritoUnknownUser(t: Tables, email: string, claseId: string, req: FavoritoDatos)
    ensures (forall j :: 0 <= j < |t.usuarios| ==> t.usuarios[j].email != email) ==>
      && ActualizarFavorito(t, email, claseId, req) == Step(Err(NotFound), t)
      && ActualizarFavoritoAsWritten(t, email, claseId, req) == Step(Err(NotFound), t)
  {
  }

  /** For a registered user, the corrected update answers 404 when the
      favorite is missing, 400 when it would move the favorite onto a class
      the user already holds, and otherwise overwrites class, name and image
      of exactly the row of the old class and of no other row. */
  lemma ActualizarFavoritoOutcome(t: Tables, i: nat, claseId: string, req: FavoritoDatos)
    requires Valid(t) && i < |t.usuarios|
    ensures var email := t.usuarios[i].email;
      var uid := t.usuarios[i].id;
      var fs := t.favoritos;
      var s := ActualizarFavorito(t, email, claseId, req);
      && (s.response == Err(NotFound) <==>
            forall j :: 0 <= j < |fs| ==> fs[j].usuarioId != uid || fs[j].claseId != claseId)
      && (s.response == Err(BadRequest) <==>
            && req.claseId != claseId
            && (exists j :: 0 <= j < |fs| && fs[j].usuarioId == uid && fs[j].claseId == claseId)
            && (exists j :: 0 <= j < |fs| && fs[j].usuarioId == uid && fs[j].claseId == req.claseId))
      && (s.response.Err? ==> s.after == t)
      && (s.response.Ok? ==>
            && |s.after.favoritos| == |fs|
            && (forall j :: 0 <= j < |fs| ==>
                  s.after.favoritos[j] ==
                    if fs[j].usuarioId == uid && fs[j].claseId == claseId then Sobrescribir(fs[j], req) else fs[j])
            && s.after.usuarios == t.usuarios
            && s.after.visitas == t.visitas
            && s.after.puntajes == t.puntajes)
  {
    var uid := t.usuarios[i].id;
    GetUserByEmailUnique(t.usuarios, i);
    var r := FindFavorito(t.favoritos, uid, claseId);
    if r.Some? {
      FindFavoritoUnique(t.favoritos, r.value);
    }
  }

  /** The corrected update keeps every invariant, favorite uniqueness
      included. */
  lemma ActualizarFavoritoPreservesValid(t: Tables, email: string, claseId: string, req: FavoritoDatos)
    requires Valid(t)
    ensures Valid(ActualizarFavorito(t, email, claseId, req).after)
  {
    var s := ActualizarFavorito(t, email, claseId, req);
    if s.response.Ok? {
      var i := GetUserByEmail(t.usuarios, email).value;
      var uid := t.usuarios[i].id;
      var fs := t.favoritos;
      var k := FindFavorito(fs, uid, claseId).value;
      var x := Sobrescribir(fs[k], req);
      FindFavoritoUnique(fs, k);
      forall j | 0 <= j < |fs| && j != k ensures FavoritoKeysDiffer(fs[j], x) && FavoritoKeysDiffer(x, fs[j]) {
      }
      UpdatePairwise(fs, k, x, FavoritoKeysDiffer);
      forall f | f in s.after.favoritos ensures HasUser(t.usuarios, f.usuarioId) {
        var j :| 0 <= j < |fs| && s.after.favoritos[j] == f;
        assert fs[j] in fs;
      }
    }
  }
}
