/** Anti-entropy and key agreement together (crates/cfr-core/src/member.rs). */
module Reunion {
  import opened Ops
  import opened Topological
  import opened Replica
  import opened Keys
  import opened Contribution
  import opened Agreement
  import Exchange

  /** In every state of every run: two participants whose graphs are what a full exchange left them, and
    * who can both derive the group key, derive the same one. */
  lemma ExchangeThenSameKey(k: Kdf, s: System, founder: Id, steps: seq<Step>, t: System, p: Id, q: Id,
                            env: Env, a: Replica, b: Replica, order: seq<Oid>, env': Env, order': seq<Oid>)
    requires Founding(s, founder) && Agreement.Reaches(k, s, steps, t) && p in t.peers && q in t.peers
    requires Binding(k, t.world.secrets)
    requires Exchange.Meeting(a, b, order) && Exchange.Steady(env, a, b) && Exchange.Steady(env', a, b)
    requires var x := Exchange.Leg(env, a, b, order);
      var y := Exchange.Leg(env', b, x.r, order');
      !x.full && IsTopological(Deps(x.r.ops), order') && !y.full && t.peers[p].r == x.r && t.peers[q].r == y.r
    requires CurrentKey(k, t.peers[p]).Some? && CurrentKey(k, t.peers[q]).Some?
    ensures CurrentKey(k, t.peers[p]) == CurrentKey(k, t.peers[q])
  {
    Exchange.SyncConverges(env, a, b, order, env', order');
    KeysAgree(k, s, founder, steps, t, p, q);
  }
}
