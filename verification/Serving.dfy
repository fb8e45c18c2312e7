/** What requests are served from: the published snapshots, loaded into the registry
    and the binding table, against the current tables. */
module Serving {
  import opened Tables
  import opened Publish
  import Registry
  import Egress
  import Routing
  import opened Platforms
  import opened Injectors
  import opened Text

  /** Whenever no writer is between its commit and the end of its reload, a lookup hits
      exactly if a current row holds the fingerprint, and the binding table binds an account
      to exactly its current exits, all of them live plain ones, and only accounts that have
      a row. */
  lemma {:induction false} QuietServesTables(t: Tables, actions: seq<Action>, s: State, entries: seq<Registry.Entry>,
                                             rows: seq<Egress.Row>, fp: string, a: Egress.Account, id: int)
    requires Inv(t) && Reaches(Start(t), actions, s) && forall w: nat :: PcOf(s, w).Idle?
    requires Registry.Loaded(s.registry, entries) && Egress.Loaded(s.bindings, rows)
    ensures |s.history| > 0
    ensures var found := Registry.Find(Registry.IndexOf(entries), fp);
      && (found.Some? <==> exists k :: k in Current(s).acct && Registry.RowMatches(Current(s).acct, k, fp))
      && (found.Some? ==> Registry.KeyOf(found.value) in Current(s).acct
                          && Registry.RowMatches(Current(s).acct, Registry.KeyOf(found.value), fp))
    ensures var bound := Egress.Expected(rows, a).Some? && id in Egress.Expected(rows, a).value.egressIds;
      && (bound <==> EgressKey(a.platform, a.account, id) in Current(s).egress)
      && (bound ==> IsPlain(Current(s), id) && AcctLive(Current(s).acct, a.platform, a.account))
  {
    QuietMeansCurrent(t, actions, s);
    StartOk(t);
    ReachesOk(Start(t), actions, s);
    Registry.ReloadServesTable(s.registry, entries, fp);
    Egress.TableServesRows(s.bindings, rows, a, id);
  }

  /** A current row binds the account to the exit. */
  predicate BoundNow(t: Tables, ident: Routing.Identity, u: Exit) {
    EgressKey(ident.platform, ident.account, u.id) in t.egress
  }

  ghost predicate HasBinding(t: Tables, ident: Routing.Identity) {
    exists id :: EgressKey(ident.platform, ident.account, id) in t.egress
  }

  /** Whenever no writer is between its commit and the end of its reload, a mapped request that
      needs an exit leaves through an enabled plain exit its account is bound to in the current
      tables, or is refused when no such exit is there; without any current binding it is
      routed as an unbound one. */
  lemma {:induction false} MappedRequestLeavesByCurrentExit(
      t: Tables, actions: seq<Action>, s: State, rows: seq<Egress.Row>, table: map<Egress.Account, Egress.Binding>,
      snap: Routing.Snapshot, ident: Routing.Identity, items: seq<Exit>, score: int -> nat, r: Routing.Route)
    requires Inv(t) && Reaches(Start(t), actions, s) && forall w: nat :: PcOf(s, w).Idle?
    requires Egress.Loaded(s.bindings, rows)
    requires forall a: Egress.Account :: Egress.LookupIn(table, a) == Egress.Expected(rows, a)
    requires ident.mapped && Routing.Routed(r, snap, ident, items, Some(table), score)
    ensures |s.history| > 0
    ensures HasBinding(Current(s), ident) ==>
      (r.url.Some? ==> exists u :: u in items && u.enabled && u.platform == PLAIN && BoundNow(Current(s), ident, u)
                                   && r.url == Some(Routing.Dialable(u.base)) && r.name == u.name)
    ensures HasBinding(Current(s), ident) ==>
      (r.url.None? ==> r.error == Some(Routing.UpstreamConfig)
                       && forall u :: u in items && u.enabled && u.platform == PLAIN ==>
                            !BoundNow(Current(s), ident, u))
    ensures !HasBinding(Current(s), ident) ==>
      Routing.DefaultRoute(r, snap.defaultUpstream, InjectParams(r.account, snap.ttlMin, ""), items)
  {
    QuietMeansCurrent(t, actions, s);
    var a := Egress.Account(ident.platform, ident.account);
    assert Egress.LookupIn(table, a) == Egress.Expected(rows, a) == Routing.BindingFor(Some(table), ident);
    BindingNow(Current(s), rows, a);
    if Routing.IsBound(Some(table), ident) {
      AllowedNow(items, Egress.Expected(rows, a).value, Current(s), ident);
    }
  }

  /** The loaded binding of an account is that of its current rows. */
  lemma {:induction false} BindingNow(t: Tables, rows: seq<Egress.Row>, a: Egress.Account)
    requires Egress.Loaded(t.egress, rows)
    ensures forall id :: EgressKey(a.platform, a.account, id) in t.egress
                         <==> Egress.Expected(rows, a).Some? && id in Egress.Expected(rows, a).value.egressIds
    ensures (exists id :: EgressKey(a.platform, a.account, id) in t.egress)
            <==> Egress.Expected(rows, a).Some? && Egress.Expected(rows, a).value.egressIds != []
  {
    var b := Egress.Expected(rows, a);
    forall id ensures EgressKey(a.platform, a.account, id) in t.egress <==> b.Some? && id in b.value.egressIds {
      Egress.TableServesRows(t.egress, rows, a, id);
    }
    if b.Some? && b.value.egressIds != [] {
      assert b.value.egressIds[0] in b.value.egressIds;
    }
  }

  lemma {:induction false} AllowedNow(items: seq<Exit>, b: Egress.Binding, t: Tables, ident: Routing.Identity)
    requires forall id :: EgressKey(ident.platform, ident.account, id) in t.egress <==> id in b.egressIds
    ensures forall u :: u in Egress.Allowed(items, b.egressIds)
                        <==> u in items && u.enabled && u.platform == PLAIN && BoundNow(t, ident, u)
  {
  }
}
