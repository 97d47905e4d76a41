/** The alias edges of retired templates, and what a live template keeps through them. */
module Aliases {
  import opened Registries
  import opened Sets

  /** A retired template is kept exactly when the one it forwards to is. */
  ghost predicate AliasClosed(aliasOf: map<nat, nat>, live: set<nat>) {
    forall id :: id in aliasOf ==> (id in live <==> aliasOf[id] in live)
  }

  function AliasesInto(aliasOf: map<nat, nat>, to: nat): set<nat> { set id | id in aliasOf && aliasOf[id] == to }

  /** What one template reaches in one step, in either direction. */
  function Linked(aliasOf: map<nat, nat>, id: nat): set<nat> {
    AliasesInto(aliasOf, id) + if id in aliasOf then {aliasOf[id]} else {}
  }

  /** Follows the edges both ways from every live template: the least alias-closed set that holds
      them all. */
  method MarkAliasClosure(aliasOf: map<nat, nat>, live: set<nat>) returns (closed: set<nat>)
    ensures live <= closed && AliasClosed(aliasOf, closed)
    ensures forall kept: set<nat> :: live <= kept && AliasClosed(aliasOf, kept) ==> closed <= kept
  {
    closed := live;
    var queue := live;
    ghost var all := live + aliasOf.Keys + aliasOf.Values;
    while queue != {}
      invariant queue <= closed <= all && live <= closed
      invariant forall id :: id in closed - queue ==> Linked(aliasOf, id) <= closed
      invariant forall kept: set<nat> :: live <= kept && AliasClosed(aliasOf, kept) ==> closed <= kept
      decreases all - closed, queue
    {
      var id := PickOne(queue);
      var found := Linked(aliasOf, id) - closed;
      LinkedIsKnown(aliasOf, id);
      LinkedIsKept(aliasOf, id);
      queue := queue - {id} + found;
      closed := closed + found;
    }
    assert closed - queue == closed;
    ClosedWhenLinked(aliasOf, closed);
  }

  lemma LinkedIsKnown(aliasOf: map<nat, nat>, id: nat)
    ensures Linked(aliasOf, id) <= aliasOf.Keys + aliasOf.Values
  {
  }

  lemma LinkedIsKept(aliasOf: map<nat, nat>, id: nat)
    ensures forall kept: set<nat> :: AliasClosed(aliasOf, kept) && id in kept ==> Linked(aliasOf, id) <= kept
  {
  }

  lemma ClosedWhenLinked(aliasOf: map<nat, nat>, closed: set<nat>)
    requires forall id :: id in closed ==> Linked(aliasOf, id) <= closed
    ensures AliasClosed(aliasOf, closed)
  {
    forall id | id in aliasOf ensures id in closed <==> aliasOf[id] in closed {
      assert aliasOf[id] in Linked(aliasOf, id);
      assert id in Linked(aliasOf, aliasOf[id]);
    }
  }
}
