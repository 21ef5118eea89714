/** What reading and submitting scores promise (main.py:272-341). */
module PuntajeProperties {
  import opened Models
  import opened Queries
  import opened Handlers
  import opened UserProperties

  /** With positive totals, comparing the two percentages is comparing the
      cross products of the fractions: no rounding decides the outcome. */
  lemma PorcentajeCrossMultiplication(a: int, b: int, c: int, d: int)
    requires b > 0 && d > 0
    ensures Porcentaje(a, b) > Porcentaje(c, d) <==> a * d > c * b
  {
    var x := (a as real) / (b as real);
    var y := (c as real) / (d as real);
    var bd := (b as real) * (d as real);
    assert x * (b as real) == a as real;
    assert y * (d as real) == c as real;
    assert bd > 0.0;
    assert x * bd == (a * d) as real;
    assert y * bd == (c * b) as real;
    assert x > y <==> x * bd > y * bd;
  }

  /** With at most one score per user, the score found for a user is the
      only one that user has. */
  lemma FindPuntajeUnique(ps: seq<Puntaje>, k: nat)
    requires PuntajesUnique(ps) && k < |ps|
    ensures FindPuntaje(ps, ps[k].usuarioId) == Some(k)
    ensures forall j :: 0 <= j < |ps| && j != k ==> ps[j].usuarioId != ps[k].usuarioId
  {
    forall j | 0 <= j < |ps| && j != k ensures ps[j].usuarioId != ps[k].usuarioId {
      if j < k {
        assert PuntajeKeysDiffer(ps[j], ps[k]);
      } else {
        assert PuntajeKeysDiffer(ps[k], ps[j]);
      }
    }
  }

  /** Reading a score: 404 and no change for an unknown email; otherwise
      the stored score is returned untouched, or, when the user has none,
      the default 0 / 20 / "Básico" is stored and returned. */
  lemma ObtenerPuntajesUsuarioOutcome(t: Tables, email: string)
    ensures var s := ObtenerPuntajesUsuario(t, email);
      && (s.response == Err(NotFound) <==> forall j :: 0 <= j < |t.usuarios| ==> t.usuarios[j].email != email)
      && (s.response.Err? ==> s.response.error == NotFound && s.after == t)
      && (s.response.Ok? ==>
            var uid := t.usuarios[GetUserByEmail(t.usuarios, email).value].id;
            && s.response.value.email == email
            && s.after.usuarios == t.usuarios
            && s.after.favoritos == t.favoritos
            && s.after.visitas == t.visitas
            && match FindPuntaje(t.puntajes, uid)
               case Some(k) =>
                 && s.after == t
                 && s.response.value == PuntajeUsuario(email, t.puntajes[k].puntajeObtenido,
                                                       t.puntajes[k].puntajeTotal, t.puntajes[k].nivel)
               case None =>
                 && s.after.puntajes == t.puntajes + [Puntaje(uid, 0, 20, "Básico")]
                 && s.response.value == PuntajeUsuario(email, 0, 20, "Básico"))
  {
  }

  /** Reading a score twice: the second read finds what the first one
      returned and stores nothing more. */
  lemma ObtenerPuntajesUsuarioIdempotent(t: Tables, email: string)
    requires Valid(t)
    ensures var s1 := ObtenerPuntajesUsuario(t, email);
      ObtenerPuntajesUsuario(s1.after, email) == s1
  {
    var s1 := ObtenerPuntajesUsuario(t, email);
    var r := GetUserByEmail(t.usuarios, email);
    if r.Some? {
      var uid := t.usuarios[r.value].id;
      if FindPuntaje(t.puntajes, uid).None? {
        var ps := s1.after.puntajes;
        assert ps[|t.puntajes|] == PuntajeInicial(uid);
        assert forall j :: 0 <= j < |t.puntajes| ==> ps[j] == t.puntajes[j];
        assert FindPuntaje(ps, uid) == Some(|t.puntajes|);
      }
    }
  }

  /** Adding a score for a registered user who has none keeps every
      invariant. */
  lemma PuntajeAppendValid(t: Tables, x: Puntaje)
    requires Valid(t) && HasUser(t.usuarios, x.usuarioId) && FindPuntaje(t.puntajes, x.usuarioId).None?
    ensures Valid(t.(puntajes := t.puntajes + [x]))
  {
    AppendPairwise(t.puntajes, x, PuntajeKeysDiffer);
  }

  /** Overwriting a user's score with another score of the same user keeps
      every invariant. */
  lemma PuntajeReplaceValid(t: Tables, k: nat, x: Puntaje)
    requires Valid(t) && k < |t.puntajes| && t.puntajes[k].usuarioId == x.usuarioId
    ensures Valid(t.(puntajes := t.puntajes[k := x]))
  {
    var ps := t.puntajes[k := x];
    FindPuntajeUnique(t.puntajes, k);
    UpdatePairwise(t.puntajes, k, x, PuntajeKeysDiffer);
    assert t.puntajes[k] in t.puntajes;
    forall p | p in ps ensures HasUser(t.usuarios, p.usuarioId) {
      var j :| 0 <= j < |ps| && ps[j] == p;
      assert t.puntajes[j] in t.puntajes;
    }
  }

  /** Reading a score keeps every invariant; in particular the lazily
      created score is the user's only one. */
  lemma ObtenerPuntajesUsuarioPreservesValid(t: Tables, email: string)
    requires Valid(t)
    ensures Valid(ObtenerPuntajesUsuario(t, email).after)
  {
    var r := GetUserByEmail(t.usuarios, email);
    if r.Some? {
      var uid := t.usuarios[r.value].id;
      if FindPuntaje(t.puntajes, uid).None? {
        assert t.usuarios[r.value] in t.usuarios;
        PuntajeAppendValid(t, PuntajeInicial(uid));
      }
    }
  }

  /** Submitting a score: 404 and no change for an unknown email. For a
      registered user the response always echoes the submitted values, and
      - with no score stored, the submission is stored and is a new best;
      - with a zero total on either side, the comparison divides by zero:
        500 and no change;
      - otherwise the submission replaces the stored score, and is a new
        best, exactly when its percentage is strictly higher; a tie keeps
        the stored score.
      No other table changes. */
  lemma ActualizarPuntajesUsuarioOutcome(t: Tables, email: string, req: PuntajeDatos)
    ensures var s := ActualizarPuntajesUsuario(t, email, req);
      && (s.response == Err(NotFound) <==> forall j :: 0 <= j < |t.usuarios| ==> t.usuarios[j].email != email)
      && (s.response.Err? ==> s.after == t)
      && (s.response.Ok? ==>
            && s.response.value.puntajeObtenido == req.puntajeObtenido
            && s.response.value.puntajeTotal == req.puntajeTotal
            && s.response.value.nivel == req.nivel)
      && s.after.usuarios == t.usuarios
      && s.after.favoritos == t.favoritos
      && s.after.visitas == t.visitas
      && (GetUserByEmail(t.usuarios, email).Some? ==>
            var uid := t.usuarios[GetUserByEmail(t.usuarios, email).value].id;
            var enviado := Puntaje(uid, req.puntajeObtenido, req.puntajeTotal, req.nivel);
            match FindPuntaje(t.puntajes, uid)
            case None =>
              && s.response.Ok? && s.response.value.isNewBest
              && s.after.puntajes == t.puntajes + [enviado]
            case Some(k) =>
              var actual := t.puntajes[k];
              && (s.response == Err(InternalError) <==> actual.puntajeTotal == 0 || req.puntajeTotal == 0)
              && (s.response.Ok? ==>
                    && (s.response.value.isNewBest <==>
                          Porcentaje(req.puntajeObtenido, req.puntajeTotal) > Porcentaje(actual.puntajeObtenido, actual.puntajeTotal))
                    && s.after.puntajes == (if s.response.value.isNewBest then t.puntajes[k := enviado] else t.puntajes)))
  {
  }

  /** With positive totals the decision needs no division: the submission
      wins exactly when its cross product is larger. */
  lemma ActualizarPuntajesUsuarioCompares(t: Tables, email: string, req: PuntajeDatos)
    requires GetUserByEmail(t.usuarios, email).Some?
    requires var uid := t.usuarios[GetUserByEmail(t.usuarios, email).value].id;
      var k := FindPuntaje(t.puntajes, uid);
      k.Some? && t.puntajes[k.value].puntajeTotal > 0 && req.puntajeTotal > 0
    ensures var uid := t.usuarios[GetUserByEmail(t.usuarios, email).value].id;
      var actual := t.puntajes[FindPuntaje(t.puntajes, uid).value];
      var s := ActualizarPuntajesUsuario(t, email, req);
      && s.response.Ok?
      && (s.response.value.isNewBest <==>
            req.puntajeObtenido * actual.puntajeTotal > actual.puntajeObtenido * req.puntajeTotal)
  {
    var uid := t.usuarios[GetUserByEmail(t.usuarios, email).value].id;
    var actual := t.puntajes[FindPuntaje(t.puntajes, uid).value];
    PorcentajeCrossMultiplication(req.puntajeObtenido, req.puntajeTotal, actual.puntajeObtenido, actual.puntajeTotal);
  }

  /** A stored score never gets worse: after a successful submission the
      user's score sits where it was, and is the better of the stored and
      the submitted one; a submission that does not beat it, a tie
      included, leaves the stored one. */
  lemma PuntajeNeverDecreases(t: Tables, email: string, req: PuntajeDatos)
    requires Valid(t)
    requires GetUserByEmail(t.usuarios, email).Some?
    requires FindPuntaje(t.puntajes, t.usuarios[GetUserByEmail(t.usuarios, email).value].id).Some?
    ensures var uid := t.usuarios[GetUserByEmail(t.usuarios, email).value].id;
      var k := FindPuntaje(t.puntajes, uid).value;
      var actual := t.puntajes[k];
      var s := ActualizarPuntajesUsuario(t, email, req);
      s.response.Ok? ==>
        && FindPuntaje(s.after.puntajes, uid) == Some(k)
        && var nuevo := s.after.puntajes[k];
        && nuevo.puntajeTotal != 0
        && (nuevo == actual || nuevo == Puntaje(uid, req.puntajeObtenido, req.puntajeTotal, req.nivel))
        && (Porcentaje(req.puntajeObtenido, req.puntajeTotal) <= Porcentaje(actual.puntajeObtenido, actual.puntajeTotal) ==>
              nuevo == actual)
        && Porcentaje(nuevo.puntajeObtenido, nuevo.puntajeTotal) >= Porcentaje(actual.puntajeObtenido, actual.puntajeTotal)
        && Porcentaje(nuevo.puntajeObtenido, nuevo.puntajeTotal) >= Porcentaje(req.puntajeObtenido, req.puntajeTotal)
  {
    var uid := t.usuarios[GetUserByEmail(t.usuarios, email).value].id;
    var k := FindPuntaje(t.puntajes, uid).value;
    var s := ActualizarPuntajesUsuario(t, email, req);
    if s.response.Ok? {
      var enviado := Puntaje(uid, req.puntajeObtenido, req.puntajeTotal, req.nivel);
      FindPuntajeUnique(t.puntajes, k);
      if s.response.value.isNewBest {
        UpdatePairwise(t.puntajes, k, enviado, PuntajeKeysDiffer);
        FindPuntajeUnique(s.after.puntajes, k);
      }
    }
  }

  /** Submitting a score keeps every invariant; in particular a user never
      has two scores. */
  lemma ActualizarPuntajesUsuarioPreservesValid(t: Tables, email: string, req: PuntajeDatos)
    requires Valid(t)
    ensures Valid(ActualizarPuntajesUsuario(t, email, req).after)
  {
    var s := ActualizarPuntajesUsuario(t, email, req);
    var r := GetUserByEmail(t.usuarios, email);
    if r.Some? && s.after != t {
      var uid := t.usuarios[r.value].id;
      var enviado := Puntaje(uid, req.puntajeObtenido, req.puntajeTotal, req.nivel);
      match FindPuntaje(t.puntajes, uid)
      case None =>
        assert s.after == t.(puntajes := t.puntajes + [enviado]);
        assert t.usuarios[r.value] in t.usuarios;
        PuntajeAppendValid(t, enviado);
      case Some(k) =>
        assert s.after == t.(puntajes := t.puntajes[k := enviado]);
        PuntajeReplaceValid(t, k, enviado);
    }
  }

  /** Every score belongs to a distinct registered user, so the health
      check never counts more scores than users. */
  lemma HealthCheckPuntajes(t: Tables)
    requires Valid(t)
    ensures HealthCheck(t).totalPuntajes <= HealthCheck(t).usuariosRegistrados
  {
    PuntajesAtMostUsuarios(t.puntajes, t.usuarios);
  }

  lemma PuntajesAtMostUsuarios(ps: seq<Puntaje>, us: seq<Usuario>)
    requires PuntajesUnique(ps) && Pairwise(us, IdsDiffer)
    requires forall p :: p in ps ==> HasUser(us, p.usuarioId)
    ensures |ps| <= |us|
  {
    var owner := (p: Puntaje) => p.usuarioId;
    var id := (u: Usuario) => u.id;
    forall a, b | 0 <= a < b < |ps| ensures owner(ps[a]) != owner(ps[b]) {
      assert PuntajeKeysDiffer(ps[a], ps[b]);
    }
    forall a, b | 0 <= a < b < |us| ensures id(us[a]) != id(us[b]) {
      assert IdsDiffer(us[a], us[b]);
    }
    DistinctKeysCount(ps, owner);
    DistinctKeysCount(us, id);
    var owners := KeysOf(ps, owner);
    var ids := KeysOf(us, id);
    forall o | o in owners ensures o in ids {
      var p :| p in ps && owner(p) == o;
      var u :| u in us && u.id == p.usuarioId;
      assert id(u) == o;
    }
    SubsetSize(owners, ids);
  }

  lemma SubsetSize(a: set<nat>, b: set<nat>)
    requires a <= b
    ensures |a| <= |b|
  {
    assert b == a + (b - a);
  }

  /** The keys the rows of `s` carry. */
  ghost function KeysOf<T>(s: seq<T>, key: T -> nat): set<nat>
  {
    set x | x in s :: key(x)
  }

  /** Rows whose keys are pairwise distinct have as many keys as rows. */
  lemma {:induction false} DistinctKeysCount<T>(s: seq<T>, key: T -> nat)
    requires forall a, b :: 0 <= a < b < |s| ==> key(s[a]) != key(s[b])
    ensures |KeysOf(s, key)| == |s|
  {
    if |s| > 0 {
      var n := |s| - 1;
      var front := s[..n];
      DistinctKeysCount(front, key);
      var keys := KeysOf(front, key);
      assert key(s[n]) !in keys by {
        forall x | x in front ensures key(x) != key(s[n]) {
          var j :| 0 <= j < n && front[j] == x;
        }
      }
      assert KeysOf(s, key) == keys + {key(s[n])} by {
        assert s == front + [s[n]];
      }
    }
  }

  /** A sequence of submissions: registered with the default 0/20, a
      submission of 10/20 is a new best, then 12/20 is a new best and is
      stored, then 11/20 is not, and 12/20 stays. */
  lemma PuntajeScenario()
    ensures var t0 := RegistrarUsuario(Empty(), "a@x.com", "pw").after;
      var s1 := ActualizarPuntajesUsuario(t0, "a@x.com", PuntajeDatos(10, 20, "Basico"));
      var s2 := ActualizarPuntajesUsuario(s1.after, "a@x.com", PuntajeDatos(12, 20, "Intermedio"));
      var s3 := ActualizarPuntajesUsuario(s2.after, "a@x.com", PuntajeDatos(11, 20, "X"));
      && s1.response == Ok(PuntajeActualizado(true, 10, 20, "Basico"))
      && s2.response == Ok(PuntajeActualizado(true, 12, 20, "Intermedio"))
      && s3.response == Ok(PuntajeActualizado(false, 11, 20, "X"))
      && ObtenerPuntajesUsuario(s3.after, "a@x.com").response == Ok(PuntajeUsuario("a@x.com", 12, 20, "Intermedio"))
  {
    var t0 := RegistrarUsuario(Empty(), "a@x.com", "pw").after;
    assert t0.usuarios == [Usuario(1, "a@x.com", "pw")];
    assert t0.puntajes == [Puntaje(1, 0, 20, "Básico")];
    var s1 := ActualizarPuntajesUsuario(t0, "a@x.com", PuntajeDatos(10, 20, "Basico"));
    assert s1.after.puntajes == [Puntaje(1, 10, 20, "Basico")];
    var s2 := ActualizarPuntajesUsuario(s1.after, "a@x.com", PuntajeDatos(12, 20, "Intermedio"));
    assert s2.after.puntajes == [Puntaje(1, 12, 20, "Intermedio")];
    var s3 := ActualizarPuntajesUsuario(s2.after, "a@x.com", PuntajeDatos(11, 20, "X"));
    assert s3.after == s2.after;
  }
}
