/** What registration, login, lookup and deletion of users promise
    (main.py:33-109 over the tables of models.py). */
module UserProperties {
  import opened Models
  import opened Queries
  import opened Handlers

  /** A user row that was there is still there after the table grows. */
  lemma HasUserAppend(us: seq<Usuario>, u: Usuario, id: nat)
    requires HasUser(us, id)
    ensures HasUser(us + [u], id)
  {
    var w :| w in us && w.id == id;
    assert w in us + [u];
  }

  /** Deleting one user row keeps every other user's primary key. */
  lemma HasUserRemoveAt(us: seq<Usuario>, i: nat, id: nat)
    requires i < |us| && HasUser(us, id) && us[i].id != id
    ensures HasUser(RemoveAt(us, i), id)
  {
    var w :| w in us && w.id == id;
    assert w != us[i];
    assert multiset(RemoveAt(us, i))[w] == multiset(us)[w];
    assert w in multiset(RemoveAt(us, i));
  }

  /** In a valid store no row references the id the next user will get. */
  lemma NextIdUnused(t: Tables)
    requires Valid(t)
    ensures !HasUser(t.usuarios, t.nextId)
    ensures forall p :: p in t.puntajes ==> p.usuarioId != t.nextId
    ensures forall f :: f in t.favoritos ==> f.usuarioId != t.nextId
    ensures forall v :: v in t.visitas ==> v.usuarioId != t.nextId
  {
  }

  /** With unique emails, the user found by an email is the only one with it. */
  lemma GetUserByEmailUnique(us: seq<Usuario>, i: nat)
    requires EmailsUnique(us) && i < |us|
    ensures GetUserByEmail(us, us[i].email) == Some(i)
  {
    forall j | 0 <= j < |us| && j != i ensures us[j].email != us[i].email {
      if j < i {
        assert EmailsDiffer(us[j], us[i]);
      } else {
        assert EmailsDiffer(us[i], us[j]);
      }
    }
  }

  /** Registration answers 400 exactly when the email is taken, and then
      changes nothing; otherwise it adds exactly one user row and exactly
      one score row, 0 / 20 / "Básico", for that user, and touches nothing
      else. */
  lemma RegistrarUsuarioOutcome(t: Tables, email: string, password: string)
    ensures var s := RegistrarUsuario(t, email, password);
      && (s.response == Err(BadRequest) <==> exists j :: 0 <= j < |t.usuarios| && t.usuarios[j].email == email)
      && (s.response.Err? ==> s.response.error == BadRequest && s.after == t)
      && (s.response.Ok? ==>
            && s.response.value == email
            && s.after.usuarios == t.usuarios + [Usuario(t.nextId, email, password)]
            && s.after.puntajes == t.puntajes + [Puntaje(t.nextId, 0, 20, "Básico")]
            && s.after.favoritos == t.favoritos
            && s.after.visitas == t.visitas)
  {
  }

  /** Registration keeps every invariant of the store. */
  lemma RegistrarUsuarioPreservesValid(t: Tables, email: string, password: string)
    requires Valid(t)
    ensures Valid(RegistrarUsuario(t, email, password).after)
  {
    var s := RegistrarUsuario(t, email, password);
    if s.response.Ok? {
      var t' := s.after;
      var u := Usuario(t.nextId, email, password);
      NextIdUnused(t);
      AppendPairwise(t.usuarios, u, EmailsDiffer);
      AppendPairwise(t.usuarios, u, IdsDiffer);
      AppendPairwise(t.puntajes, PuntajeInicial(t.nextId), PuntajeKeysDiffer);
      forall f | f in t'.favoritos ensures HasUser(t'.usuarios, f.usuarioId) {
        HasUserAppend(t.usuarios, u, f.usuarioId);
      }
      forall v | v in t'.visitas ensures HasUser(t'.usuarios, v.usuarioId) {
        HasUserAppend(t.usuarios, u, v.usuarioId);
      }
      forall p | p in t'.puntajes ensures HasUser(t'.usuarios, p.usuarioId) {
        if p in t.puntajes {
          HasUserAppend(t.usuarios, u, p.usuarioId);
        } else {
          assert u in t'.usuarios;
        }
      }
    }
  }

  /** Registering the same email twice: the second attempt is a conflict. */
  lemma RegistrarUsuarioTwice(t: Tables, email: string, p1: string, p2: string)
    ensures var t1 := RegistrarUsuario(t, email, p1).after;
      RegistrarUsuario(t1, email, p2) == Step(Err(BadRequest), t1)
  {
    var t1 := RegistrarUsuario(t, email, p1).after;
    if GetUserByEmail(t.usuarios, email).None? {
      assert t1.usuarios[|t.usuarios|].email == email;
    }
  }

  /** Round trip: a fresh registration logs in with its password, and with
      any other password is refused with 401. */
  lemma RegistrarThenLogin(t: Tables, email: string, password: string, other: string)
    requires RegistrarUsuario(t, email, password).response.Ok?
    requires other != password
    ensures var t1 := RegistrarUsuario(t, email, password).after;
      && LoginUsuario(t1, email, password) == Ok(email)
      && LoginUsuario(t1, email, other) == Err(Unauthorized)
  {
    var t1 := RegistrarUsuario(t, email, password).after;
    assert t1.usuarios[|t.usuarios|].email == email;
    assert forall j :: 0 <= j < |t.usuarios| ==> t1.usuarios[j] == t.usuarios[j];
  }

  /** Right after registration the user's score is the default one, already
      stored: reading it creates nothing. */
  lemma RegistrarThenPuntajeInicial(t: Tables, email: string, password: string)
    requires Valid(t)
    requires RegistrarUsuario(t, email, password).response.Ok?
    ensures var t1 := RegistrarUsuario(t, email, password).after;
      ObtenerPuntajesUsuario(t1, email) == Step(Ok(PuntajeUsuario(email, 0, 20, "Básico")), t1)
  {
    var t1 := RegistrarUsuario(t, email, password).after;
    NextIdUnused(t);
    RegistrarThenLogin(t, email, password, password + "x");
    assert t1.puntajes[|t.puntajes|].usuarioId == t.nextId;
    assert forall j :: 0 <= j < |t.puntajes| ==> t1.puntajes[j] in t.puntajes;
  }

  /** Login answers 404 exactly when no user has the email, 401 exactly
      when the user with that email has another password, and succeeds
      exactly when email and password match a stored user. */
  lemma LoginUsuarioOutcome(t: Tables, email: string, password: string)
    requires EmailsUnique(t.usuarios)
    ensures var r := LoginUsuario(t, email, password);
      && (r == Err(NotFound) <==> forall j :: 0 <= j < |t.usuarios| ==> t.usuarios[j].email != email)
      && (r == Err(Unauthorized) <==>
            exists j :: 0 <= j < |t.usuarios| && t.usuarios[j].email == email && t.usuarios[j].password != password)
      && (r == Ok(email) <==>
            exists j :: 0 <= j < |t.usuarios| && t.usuarios[j].email == email && t.usuarios[j].password == password)
      && (r.Err? ==> r.error == NotFound || r.error == Unauthorized)
  {
    var r := LoginUsuario(t, email, password);
    forall j | 0 <= j < |t.usuarios| && t.usuarios[j].email == email
      ensures GetUserByEmail(t.usuarios, email) == Some(j)
    {
      GetUserByEmailUnique(t.usuarios, j);
    }
  }

  /** Looking a user up answers with its email exactly when it is registered. */
  lemma ObtenerUsuarioOutcome(t: Tables, email: string)
    ensures var r := ObtenerUsuario(t, email);
      && (r == Ok(email) <==> exists j :: 0 <= j < |t.usuarios| && t.usuarios[j].email == email)
      && (r.Err? ==> r.error == NotFound)
  {
  }

  /** Deleting answers 404 exactly when no user has the email, and then
      deletes nothing; 404 is its only error. */
  lemma EliminarUsuarioUnknownUser(t: Tables, email: string)
    ensures var s := EliminarUsuario(t, email);
      && (s.response == Err(NotFound) <==> forall j :: 0 <= j < |t.usuarios| ==> t.usuarios[j].email != email)
      && (s.response.Err? ==> s.response.error == NotFound && s.after == t)
  {
  }

  /** Deleting a registered user removes that user and every favorite,
      visit and score row it owns, and keeps every row of every other user. */
  lemma EliminarUsuarioCascades(t: Tables, i: nat)
    requires Valid(t) && i < |t.usuarios|
    ensures var email := t.usuarios[i].email;
      var uid := t.usuarios[i].id;
      var s := EliminarUsuario(t, email);
      && s.response.Ok?
      && (forall u :: u in s.after.usuarios <==> u in t.usuarios && u.email != email)
      && (forall f :: f in s.after.favoritos <==> f in t.favoritos && f.usuarioId != uid)
      && (forall v :: v in s.after.visitas <==> v in t.visitas && v.usuarioId != uid)
      && (forall p :: p in s.after.puntajes <==> p in t.puntajes && p.usuarioId != uid)
  {
    var email := t.usuarios[i].email;
    var us := t.usuarios;
    GetUserByEmailUnique(us, i);
    var rest := RemoveAt(us, i);
    assert EliminarUsuario(t, email).after.usuarios == rest;
    forall u ensures u in rest <==> u in us && u.email != email {
      if u in us && u.email != email {
        assert u != us[i];
        assert multiset(rest)[u] == multiset(us)[u];
        assert u in multiset(rest);
      }
      if u in rest {
        var j :| 0 <= j < |rest| && rest[j] == u;
        var j' := if j < i then j else j + 1;
        assert rest[j] == us[j'];
        if j' < i {
          assert EmailsDiffer(us[j'], us[i]);
        } else {
          assert EmailsDiffer(us[i], us[j']);
        }
      }
    }
  }

  /** After deleting a user every query about that email answers 404. */
  lemma EliminarUsuarioThenNotFound(t: Tables, i: nat)
    requires Valid(t) && i < |t.usuarios|
    ensures var email := t.usuarios[i].email;
      var after := EliminarUsuario(t, email).after;
      && ObtenerUsuario(after, email) == Err(NotFound)
      && LoginUsuario(after, email, t.usuarios[i].password) == Err(NotFound)
      && ObtenerFavoritosUsuario(after, email) == Err(NotFound)
      && ObtenerVisitasUsuario(after, email) == Err(NotFound)
      && ObtenerPuntajesUsuario(after, email).response == Err(NotFound)
  {
    var email := t.usuarios[i].email;
    var after := EliminarUsuario(t, email).after;
    EliminarUsuarioCascades(t, i);
    assert forall j :: 0 <= j < |after.usuarios| ==> after.usuarios[j] in after.usuarios;
    assert GetUserByEmail(after.usuarios, email).None?;
  }

  /** Deleting a user keeps every invariant of the store; in particular no
      row is left referencing the deleted user. */
  lemma EliminarUsuarioPreservesValid(t: Tables, email: string)
    requires Valid(t)
    ensures Valid(EliminarUsuario(t, email).after)
  {
    var r := GetUserByEmail(t.usuarios, email);
    if r.Some? {
      var i := r.value;
      var uid := t.usuarios[i].id;
      var t' := EliminarUsuario(t, email).after;
      RemoveAtPairwise(t.usuarios, i, EmailsDiffer);
      RemoveAtPairwise(t.usuarios, i, IdsDiffer);
      FilterPairwise(t.favoritos, (f: Favorito) => f.usuarioId != uid, FavoritoKeysDiffer);
      FilterPairwise(t.visitas, (v: Visita) => v.usuarioId != uid, VisitaKeysDiffer);
      FilterPairwise(t.puntajes, (p: Puntaje) => p.usuarioId != uid, PuntajeKeysDiffer);
      assert forall u :: u in t'.usuarios ==> u in t.usuarios;
      forall f | f in t'.favoritos ensures HasUser(t'.usuarios, f.usuarioId) {
        HasUserRemoveAt(t.usuarios, i, f.usuarioId);
      }
      forall v | v in t'.visitas ensures HasUser(t'.usuarios, v.usuarioId) {
        HasUserRemoveAt(t.usuarios, i, v.usuarioId);
      }
      forall p | p in t'.puntajes ensures HasUser(t'.usuarios, p.usuarioId) {
        HasUserRemoveAt(t.usuarios, i, p.usuarioId);
      }
    }
  }
}
