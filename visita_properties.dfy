/** What recording and listing visits promise (main.py:217-269). */
module VisitaProperties {
  import opened Models
  import opened Queries
  import opened Handlers
  import opened UserProperties

  /** The counter a user has for a class, 0 when there is no row yet. */
  function CountOf(vs: seq<Visita>, uid: nat, claseId: string): int
  {
    match FindVisita(vs, uid, claseId)
    case Some(k) => vs[k].count
    case None => 0
  }

  /** The visits of a user after one more row was appended. */
  lemma VisitasDeAppend(vs: seq<Visita>, x: Visita, uid: nat)
    ensures VisitasDe(vs + [x], uid) == VisitasDe(vs, uid) + (if x.usuarioId == uid then [x] else [])
  {
    FilterAppend(vs, x, (v: Visita) => v.usuarioId == uid);
  }

  lemma SumCountsAppend(vs: seq<Visita>, x: Visita)
    ensures SumCounts(vs + [x]) == SumCounts(vs) + x.count
  {
    assert (vs + [x])[..|vs|] == vs;
  }

  /** Bumping one counter of user `uid` raises that user's visit total by
      exactly one. */
  lemma {:induction false} VisitasDeBumpTotal(vs: seq<Visita>, k: nat, uid: nat)
    requires k < |vs| && vs[k].usuarioId == uid
    ensures SumCounts(VisitasDe(vs[k := vs[k].(count := vs[k].count + 1)], uid)) == SumCounts(VisitasDe(vs, uid)) + 1
  {
    var n := |vs| - 1;
    var x := vs[k].(count := vs[k].count + 1);
    var vs' := vs[k := x];
    assert vs == vs[..n] + [vs[n]];
    assert vs' == vs'[..n] + [vs'[n]];
    var a := VisitasDe(vs[..n], uid);
    var a' := VisitasDe(vs'[..n], uid);
    VisitasDeAppend(vs[..n], vs[n], uid);
    VisitasDeAppend(vs'[..n], vs'[n], uid);
    if k == n {
      assert vs'[..n] == vs[..n];
      assert VisitasDe(vs, uid) == a + [vs[n]];
      assert VisitasDe(vs', uid) == a + [x];
      SumCountsAppend(a, vs[n]);
      SumCountsAppend(a, x);
    } else {
      assert vs'[..n] == vs[..n][k := x];
      assert vs'[n] == vs[n];
      VisitasDeBumpTotal(vs[..n], k, uid);
      assert SumCounts(a') == SumCounts(a) + 1;
      if vs[n].usuarioId == uid {
        assert VisitasDe(vs, uid) == a + [vs[n]];
        assert VisitasDe(vs', uid) == a' + [vs[n]];
        SumCountsAppend(a, vs[n]);
        SumCountsAppend(a', vs[n]);
      } else {
        assert VisitasDe(vs, uid) == a;
        assert VisitasDe(vs', uid) == a';
      }
    }
  }

  /** Bumping one counter of user `uid` leaves the visit list of every
      other user as it was. */
  lemma {:induction false} VisitasDeBumpOthers(vs: seq<Visita>, k: nat, uid: nat, other: nat)
    requires k < |vs| && vs[k].usuarioId == uid && other != uid
    ensures VisitasDe(vs[k := vs[k].(count := vs[k].count + 1)], other) == VisitasDe(vs, other)
  {
    var n := |vs| - 1;
    var x := vs[k].(count := vs[k].count + 1);
    var vs' := vs[k := x];
    assert vs == vs[..n] + [vs[n]];
    assert vs' == vs'[..n] + [vs'[n]];
    VisitasDeAppend(vs[..n], vs[n], other);
    VisitasDeAppend(vs'[..n], vs'[n], other);
    if k == n {
      assert vs'[..n] == vs[..n];
    } else {
      assert vs'[..n] == vs[..n][k := x];
      VisitasDeBumpOthers(vs[..n], k, uid, other);
    }
  }

  /** Counters that are each at least one add up to at least their number. */
  lemma {:induction false} SumCountsAtLeastLength(vs: seq<Visita>)
    requires VisitasCounted(vs)
    ensures SumCounts(vs) >= |vs|
  {
    if |vs| > 0 {
      assert vs[|vs| - 1] in vs;
      assert VisitasCounted(vs[..|vs| - 1]) by {
        forall v | v in vs[..|vs| - 1] ensures v in vs {
        }
      }
      SumCountsAtLeastLength(vs[..|vs| - 1]);
    }
  }

  /** With unique counters, the row found for a (user, class) pair is the
      only row with that pair. */
  lemma FindVisitaUnique(vs: seq<Visita>, k: nat)
    requires VisitasUnique(vs) && k < |vs|
    ensures FindVisita(vs, vs[k].usuarioId, vs[k].claseId) == Some(k)
    ensures forall j :: 0 <= j < |vs| && j != k ==>
      vs[j].usuarioId != vs[k].usuarioId || vs[j].claseId != vs[k].claseId
  {
    forall j | 0 <= j < |vs| && j != k
      ensures vs[j].usuarioId != vs[k].usuarioId || vs[j].claseId != vs[k].claseId
    {
      if j < k {
        assert VisitaKeysDiffer(vs[j], vs[k]);
      } else {
        assert VisitaKeysDiffer(vs[k], vs[j]);
      }
    }
  }

  /** Listing visits answers 404 exactly when no user has the email; 404 is
      its only error. */
  lemma ObtenerVisitasUsuarioUnknownUser(t: Tables, email: string)
    ensures var r := ObtenerVisitasUsuario(t, email);
      && (r == Err(NotFound) <==> forall j :: 0 <= j < |t.usuarios| ==> t.usuarios[j].email != email)
      && (r.Err? ==> r.error == NotFound)
  {
  }

  /** Recording a visit for an unknown email answers 404 and changes nothing. */
  lemma RegistrarVisitaUnknownUser(t: Tables, email: string, claseId: string)
    ensures var s := RegistrarVisita(t, email, claseId);
      (s.response == Err(NotFound) <==> forall j :: 0 <= j < |t.usuarios| ==> t.usuarios[j].email != email)
      && (s.response.Err? ==> s.after == t)
  {
  }

  /** Bumping the counter found for a (user, class) pair: it is still the
      one found, one higher. */
  lemma CountOfBump(vs: seq<Visita>, k: nat, uid: nat, claseId: string)
    requires VisitasUnique(vs) && FindVisita(vs, uid, claseId) == Some(k)
    ensures CountOf(vs[k := vs[k].(count := vs[k].count + 1)], uid, claseId) == vs[k].count + 1
  {
    var x := vs[k].(count := vs[k].count + 1);
    FindVisitaUnique(vs, k);
    UpdatePairwise(vs, k, x, VisitaKeysDiffer);
    FindVisitaUnique(vs[k := x], k);
  }

  /** A new counter for a pair that had none is the one found, at 1. */
  lemma CountOfInsert(vs: seq<Visita>, uid: nat, claseId: string)
    requires FindVisita(vs, uid, claseId).None?
    ensures CountOf(vs + [VisitaNueva(uid, claseId)], uid, claseId) == 1
  {
    var grown := vs + [VisitaNueva(uid, claseId)];
    assert grown[|vs|] == VisitaNueva(uid, claseId);
    assert forall j :: 0 <= j < |vs| ==> grown[j] == vs[j];
    assert FindVisita(grown, uid, claseId) == Some(|vs|);
  }

  /** Lookups by (user, class) see only the key columns: two tables with the
      same keys row by row find the same row. */
  lemma FindVisitaSameKeys(vs: seq<Visita>, ws: seq<Visita>, uid: nat, claseId: string)
    requires |ws| == |vs|
    requires forall j :: 0 <= j < |vs| ==> ws[j].usuarioId == vs[j].usuarioId && ws[j].claseId == vs[j].claseId
    ensures FindVisita(ws, uid, claseId) == FindVisita(vs, uid, claseId)
  {
    var a := FindVisita(vs, uid, claseId);
    if a.Some? {
      assert ws[a.value].usuarioId == uid && ws[a.value].claseId == claseId;
    }
  }

  /** One more visit to one (user, class) pair leaves the counter of every
      other pair as it was. */
  lemma CountOfOthers(vs: seq<Visita>, uid: nat, claseId: string, u2: nat, c2: string)
    requires u2 != uid || c2 != claseId
    ensures CountOf(ContarVisita(vs, uid, claseId), u2, c2) == CountOf(vs, u2, c2)
  {
    var r := FindVisita(vs, uid, claseId);
    if r.Some? {
      var k := r.value;
      var bumped := vs[k := vs[k].(count := vs[k].count + 1)];
      assert ContarVisita(vs, uid, claseId) == bumped;
      FindVisitaSameKeys(vs, bumped, u2, c2);
    } else {
      var x := VisitaNueva(uid, claseId);
      var grown := vs + [x];
      assert ContarVisita(vs, uid, claseId) == grown;
      var f := FindVisita(vs, u2, c2);
      if f.Some? {
        assert grown[f.value] == vs[f.value];
        assert forall j :: 0 <= j < f.value ==> grown[j] == vs[j];
        assert FindVisita(grown, u2, c2) == f;
      } else {
        assert forall j :: 0 <= j < |vs| ==> grown[j] == vs[j];
        assert FindVisita(grown, u2, c2).None?;
      }
    }
  }

  /** One more visit raises the (user, class) counter by exactly one, a
      missing counter counting as 0, leaves every other counter as it was,
      and adds a row only when there was none. */
  lemma ContarVisitaCounts(vs: seq<Visita>, uid: nat, claseId: string)
    requires VisitasUnique(vs)
    ensures CountOf(ContarVisita(vs, uid, claseId), uid, claseId) == CountOf(vs, uid, claseId) + 1
    ensures forall u2, c2 :: u2 != uid || c2 != claseId ==>
      CountOf(ContarVisita(vs, uid, claseId), u2, c2) == CountOf(vs, u2, c2)
    ensures |ContarVisita(vs, uid, claseId)| == |vs| + (if FindVisita(vs, uid, claseId).Some? then 0 else 1)
  {
    forall u2, c2 | u2 != uid || c2 != claseId
      ensures CountOf(ContarVisita(vs, uid, claseId), u2, c2) == CountOf(vs, u2, c2)
    {
      CountOfOthers(vs, uid, claseId, u2, c2);
    }
    var r := FindVisita(vs, uid, claseId);
    if r.Some? {
      var k := r.value;
      assert ContarVisita(vs, uid, claseId) == vs[k := vs[k].(count := vs[k].count + 1)];
      CountOfBump(vs, k, uid, claseId);
    } else {
      assert ContarVisita(vs, uid, claseId) == vs + [VisitaNueva(uid, claseId)];
      CountOfInsert(vs, uid, claseId);
    }
  }

  /** Recording a visit for a registered user raises its counter for the
      class by exactly one (a missing counter counts as 0 and is created
      with 1), leaves every other counter as it was, inserts a row only
      when there was none, and leaves the other tables as they were. */
  lemma RegistrarVisitaCounts(t: Tables, i: nat, claseId: string)
    requires EmailsUnique(t.usuarios) && VisitasUnique(t.visitas) && i < |t.usuarios|
    ensures var uid := t.usuarios[i].id;
      var s := RegistrarVisita(t, t.usuarios[i].email, claseId);
      && s.response == Ok(())
      && CountOf(s.after.visitas, uid, claseId) == CountOf(t.visitas, uid, claseId) + 1
      && (forall u2, c2 :: u2 != uid || c2 != claseId ==>
            CountOf(s.after.visitas, u2, c2) == CountOf(t.visitas, u2, c2))
      && |s.after.visitas| == |t.visitas| + (if FindVisita(t.visitas, uid, claseId).Some? then 0 else 1)
      && s.after.usuarios == t.usuarios
      && s.after.favoritos == t.favoritos
      && s.after.puntajes == t.puntajes
  {
    GetUserByEmailUnique(t.usuarios, i);
    ContarVisitaCounts(t.visitas, t.usuarios[i].id, claseId);
  }

  /** A new counter of user `uid` adds its count to the user's sum. */
  lemma VisitasDeInsertTotal(vs: seq<Visita>, x: Visita, uid: nat)
    requires x.usuarioId == uid
    ensures SumCounts(VisitasDe(vs + [x], uid)) == SumCounts(VisitasDe(vs, uid)) + x.count
  {
    VisitasDeAppend(vs, x, uid);
    SumCountsAppend(VisitasDe(vs, uid), x);
  }

  /** One more visit adds exactly one to the sum of the user's counters. */
  lemma ContarVisitaTotal(vs: seq<Visita>, uid: nat, claseId: string)
    ensures SumCounts(VisitasDe(ContarVisita(vs, uid, claseId), uid)) == SumCounts(VisitasDe(vs, uid)) + 1
  {
    var r := FindVisita(vs, uid, claseId);
    if r.Some? {
      var k := r.value;
      var bumped := vs[k := vs[k].(count := vs[k].count + 1)];
      assert ContarVisita(vs, uid, claseId) == bumped;
      VisitasDeBumpTotal(vs, k, uid);
      assert SumCounts(VisitasDe(bumped, uid)) == SumCounts(VisitasDe(vs, uid)) + 1;
    } else {
      var x := VisitaNueva(uid, claseId);
      assert ContarVisita(vs, uid, claseId) == vs + [x];
      VisitasDeInsertTotal(vs, x, uid);
      assert SumCounts(VisitasDe(vs + [x], uid)) == SumCounts(VisitasDe(vs, uid)) + 1;
    }
  }

  /** The `total_visitas` the listing reports for a registered user. */
  lemma TotalVisitasIs(t: Tables, i: nat)
    requires i < |t.usuarios| && GetUserByEmail(t.usuarios, t.usuarios[i].email) == Some(i)
    ensures ObtenerVisitasUsuario(t, t.usuarios[i].email).Ok?
    ensures ObtenerVisitasUsuario(t, t.usuarios[i].email).value.totalVisitas
      == SumCounts(VisitasDe(t.visitas, t.usuarios[i].id))
  {
  }

  /** Recording a visit raises the user's `total_visitas` by exactly one. */
  lemma RegistrarVisitaTotal(t: Tables, i: nat, claseId: string)
    requires EmailsUnique(t.usuarios) && i < |t.usuarios|
    ensures var email := t.usuarios[i].email;
      var after := RegistrarVisita(t, email, claseId).after;
      && ObtenerVisitasUsuario(after, email).Ok?
      && ObtenerVisitasUsuario(after, email).value.totalVisitas
           == ObtenerVisitasUsuario(t, email).value.totalVisitas + 1
  {
    var email := t.usuarios[i].email;
    GetUserByEmailUnique(t.usuarios, i);
    var after := RegistrarVisita(t, email, claseId).after;
    assert after == t.(visitas := ContarVisita(t.visitas, t.usuarios[i].id, claseId));
    TotalVisitasIs(t, i);
    TotalVisitasIs(after, i);
    ContarVisitaTotal(t.visitas, t.usuarios[i].id, claseId);
  }

  /** Recording a visit leaves every other user's visits as they were. */
  lemma RegistrarVisitaOthers(t: Tables, email: string, claseId: string, other: nat)
    requires GetUserByEmail(t.usuarios, email).Some?
    requires other != t.usuarios[GetUserByEmail(t.usuarios, email).value].id
    ensures VisitasDe(RegistrarVisita(t, email, claseId).after.visitas, other) == VisitasDe(t.visitas, other)
  {
    var uid := t.usuarios[GetUserByEmail(t.usuarios, email).value].id;
    var vs := t.visitas;
    var after := RegistrarVisita(t, email, claseId).after;
    match FindVisita(vs, uid, claseId)
    case Some(k) =>
      assert after.visitas == vs[k := vs[k].(count := vs[k].count + 1)];
      VisitasDeBumpOthers(vs, k, uid, other);
    case None =>
      assert after.visitas == vs + [VisitaNueva(uid, claseId)];
      VisitasDeAppend(vs, VisitaNueva(uid, claseId), other);
  }

  /** Recording a visit keeps every invariant; in particular a user never
      has two counters for one class. */
  lemma RegistrarVisitaPreservesValid(t: Tables, email: string, claseId: string)
    requires Valid(t)
    ensures Valid(RegistrarVisita(t, email, claseId).after)
  {
    var s := RegistrarVisita(t, email, claseId);
    if s.response.Ok? {
      var i := GetUserByEmail(t.usuarios, email).value;
      var uid := t.usuarios[i].id;
      var vs := t.visitas;
      match FindVisita(vs, uid, claseId)
      case Some(k) =>
        var x := vs[k].(count := vs[k].count + 1);
        FindVisitaUnique(vs, k);
        UpdatePairwise(vs, k, x, VisitaKeysDiffer);
        assert vs[k] in vs;
        forall v | v in s.after.visitas ensures v.count >= 1 && HasUser(t.usuarios, v.usuarioId) {
          var j :| 0 <= j < |vs| && s.after.visitas[j] == v;
          assert vs[j] in vs;
        }
      case None =>
        var x := VisitaNueva(uid, claseId);
        AppendPairwise(vs, x, VisitaKeysDiffer);
        assert t.usuarios[i] in t.usuarios;
    }
  }

  /** The sum of the counts a visit listing shows. */
  function SumDatos(ds: seq<VisitaDatos>): int
  {
    if |ds| == 0 then 0 else SumDatos(ds[..|ds| - 1]) + ds[|ds| - 1].count
  }

  /** Showing the counters as JSON keeps their sum. */
  lemma {:induction false} SumDatosOfVista(vs: seq<Visita>)
    ensures SumDatos(seq(|vs|, k requires 0 <= k < |vs| => VistaVisita(vs[k]))) == SumCounts(vs)
  {
    if |vs| > 0 {
      var n := |vs| - 1;
      var lista := seq(|vs|, k requires 0 <= k < |vs| => VistaVisita(vs[k]));
      var init := vs[..n];
      SumDatosOfVista(init);
      assert lista[..n] == seq(|init|, k requires 0 <= k < |init| => VistaVisita(init[k]));
    }
  }

  /** Listing visits: for a registered user the list shows exactly the
      user's counters, `total_visitas` is the sum of the counts listed, and
      it is at least the number of classes listed. */
  lemma ObtenerVisitasUsuarioTotal(t: Tables, i: nat)
    requires Valid(t) && i < |t.usuarios|
    ensures var email := t.usuarios[i].email;
      var uid := t.usuarios[i].id;
      var r := ObtenerVisitasUsuario(t, email);
      && r.Ok?
      && r.value.email == email
      && r.value.totalVisitas == SumDatos(r.value.visitas)
      && r.value.totalVisitas >= |r.value.visitas|
      && (forall v :: v in t.visitas && v.usuarioId == uid ==> VistaVisita(v) in r.value.visitas)
      && (forall k :: 0 <= k < |r.value.visitas| ==>
            exists v :: v in t.visitas && v.usuarioId == uid && VistaVisita(v) == r.value.visitas[k])
  {
    var uid := t.usuarios[i].id;
    GetUserByEmailUnique(t.usuarios, i);
    var visitas := VisitasDe(t.visitas, uid);
    var r := ObtenerVisitasUsuario(t, t.usuarios[i].email);
    SumCountsAtLeastLength(visitas);
    SumDatosOfVista(visitas);
    forall v | v in t.visitas && v.usuarioId == uid ensures VistaVisita(v) in r.value.visitas {
      var m :| 0 <= m < |visitas| && visitas[m] == v;
      assert r.value.visitas[m] == VistaVisita(v);
    }
    forall k | 0 <= k < |r.value.visitas|
      ensures exists v :: v in t.visitas && v.usuarioId == uid && VistaVisita(v) == r.value.visitas[k]
    {
      assert visitas[k] in visitas;
    }
  }
}
