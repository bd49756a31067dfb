/**
 * The filterable-collection mixin: `filtered(criteria)` derives from a source
 * collection a second collection holding exactly the source models that satisfy
 * `criteria`, and keeps it so through three callbacks bound on the source
 * ("change", "add", "remove"). `refilter` swaps the criteria and resets the
 * derived collection from the source; `teardown` unbinds the three callbacks.
 *
 * What the mixin relies on from the collection library is taken as given:
 * `add` ignores a model already present and appends otherwise, `remove`
 * ignores an absent model, `reset` replaces the contents and triggers one
 * "reset", `select` keeps source order, and a source collection relays a
 * member's "change" to the callbacks bound on it.
 */
module FilterableCollectionMixin {
  import opened Seqs

  /** A model's identity; collections hold models by identity. */
  type Id = nat

  /** The events triggered on the filtered collection. */
  datatype Event = Add(model: Id) | Remove(model: Id) | Change(model: Id) | Reset(models: seq<Id>)

  /** A callback bound on the source: one of the mixin's three closures, or someone else's. */
  datatype Callback = ChangeFiltered | AddToFiltered | RemoveFromFiltered | Foreign(tag: nat)

  /** One `bind(name, callback)` registration on the source collection. */
  datatype Binding = Binding(name: string, callback: Callback)

  /** The three registrations `filtered` makes on the source. */
  function OwnBindings(): seq<Binding>
  {
    [Binding("change", ChangeFiltered), Binding("add", AddToFiltered), Binding("remove", RemoveFromFiltered)]
  }

  /** `unbind` of the mixin's three registrations, in the order `teardown` does them. */
  function UnbindOwn(bindings: seq<Binding>): seq<Binding>
  {
    Without(Without(Without(bindings, OwnBindings()[0]), OwnBindings()[1]), OwnBindings()[2])
  }

  /**
   * `teardown` removes exactly what `filtered` bound: whatever else was bound
   * on the source stays, in its order, and nothing of the mixin's remains.
   */
  lemma TeardownUndoesFiltered(bindings: seq<Binding>)
    requires forall b <- bindings :: b.callback.Foreign?
    ensures UnbindOwn(bindings + OwnBindings()) == bindings
    ensures |UnbindOwn(bindings + OwnBindings())| == |bindings + OwnBindings()| - 3
  {
    var own := OwnBindings();
    WithoutConcat(bindings, own, own[0]);
    WithoutConcat(bindings, Without(own, own[0]), own[1]);
    WithoutConcat(bindings, Without(Without(own, own[0]), own[1]), own[2]);
    assert UnbindOwn(own) == [];
  }

  /**
   * `source.select(criteria)`: the source models satisfying `criteria`, in
   * source order.
   */
  function Select<A>(source: seq<Id>, models: map<Id, A>, criteria: A -> bool): (r: seq<Id>)
    requires forall m <- source :: m in models
    ensures forall m <- r :: m in source && criteria(models[m])
    ensures forall m <- source :: criteria(models[m]) ==> m in r
    ensures NoDup(source) ==> NoDup(r)
    ensures |r| <= |source|
  {
    if source == [] then []
    else
      var rest := Select(source[1..], models, criteria);
      assert NoDup(source) ==> NoDup(source[1..]) && source[0] !in source[1..];
      if criteria(models[source[0]]) then [source[0]] + rest else rest
  }

  /** Selecting with a criteria that accepts everything gives the whole source. */
  lemma {:induction false} SelectAll<A>(source: seq<Id>, models: map<Id, A>, criteria: A -> bool)
    requires forall m <- source :: m in models
    requires forall a :: criteria(a)
    ensures Select(source, models, criteria) == source
  {
    if source != [] {
      SelectAll(source[1..], models, criteria);
    }
  }

  /**
   * The membership invariant of a filtered collection: its members are
   * exactly the source models that satisfy the criteria.
   */
  ghost predicate Tracks<A>(members: seq<Id>, source: seq<Id>, models: map<Id, A>, criteria: A -> bool)
    requires forall m <- source :: m in models
  {
    (forall m <- members :: m in source && criteria(models[m])) &&
    (forall m <- source :: criteria(models[m]) ==> m in members)
  }

  /** The observable state of the filtered collection: its members and the events it triggered. */
  datatype Derived = Derived(members: seq<Id>, events: seq<Event>)

  /** `add` on the filtered collection: a model already present is ignored. */
  function Added(d: Derived, m: Id): Derived
  {
    if m in d.members then d else Derived(d.members + [m], d.events + [Add(m)])
  }

  /** `remove` on the filtered collection: an absent model is ignored. */
  function Removed(d: Derived, m: Id): Derived
  {
    if m in d.members then Derived(Without(d.members, m), d.events + [Remove(m)]) else d
  }

  /** `addToFiltered`, given whether the model satisfies the current criteria. */
  function OnAdd(d: Derived, matches: bool, m: Id): Derived
  {
    if matches then Added(d, m) else d
  }

  /** `removeFromFiltered`. */
  function OnRemove(d: Derived, m: Id): Derived
  {
    Removed(d, m)
  }

  /** `changeFiltered`, given whether the changed model satisfies the current criteria. */
  function OnChange(d: Derived, matches: bool, m: Id): Derived
  {
    if matches then
      if m in d.members then Derived(d.members, d.events + [Change(m)]) else OnAdd(d, matches, m)
    else OnRemove(d, m)
  }

  /**
   * The outcome of a source "change" on the filtered collection: a member that
   * still matches gives exactly one "change"; a non-member that now matches is
   * added with exactly one "add" and no "change"; a member that no longer
   * matches is removed with one "remove"; a non-member that does not match
   * changes nothing.
   */
  lemma ChangeOutcome(d: Derived, matches: bool, m: Id)
    ensures matches && m in d.members ==>
      OnChange(d, matches, m) == Derived(d.members, d.events + [Change(m)])
    ensures matches && m !in d.members ==>
      OnChange(d, matches, m) == Derived(d.members + [m], d.events + [Add(m)])
    ensures !matches && m in d.members ==>
      OnChange(d, matches, m) == Derived(Without(d.members, m), d.events + [Remove(m)])
    ensures !matches && m !in d.members ==> OnChange(d, matches, m) == d
  {
  }

  /**
   * The outcome of a source "add": a matching model is added with one "add";
   * a non-matching one triggers nothing.
   */
  lemma AddOutcome(d: Derived, matches: bool, m: Id)
    ensures matches && m !in d.members ==>
      OnAdd(d, matches, m) == Derived(d.members + [m], d.events + [Add(m)])
    ensures !matches || m in d.members ==> OnAdd(d, matches, m) == d
  {
  }

  /**
   * The outcome of a source "remove": a member is removed with one "remove";
   * a model that was not a member triggers nothing.
   */
  lemma RemoveOutcome(d: Derived, m: Id)
    ensures m in d.members ==>
      OnRemove(d, m) == Derived(Without(d.members, m), d.events + [Remove(m)])
    ensures m !in d.members ==> OnRemove(d, m) == d
  {
  }

  /** "add" of a model new to the source keeps the membership invariant. */
  lemma AddKeepsTracking<A>(d: Derived, source: seq<Id>, models: map<Id, A>, criteria: A -> bool, m: Id)
    requires forall x <- source :: x in models
    requires m in models && m !in source
    requires Tracks(d.members, source, models, criteria) && NoDup(d.members)
    ensures Tracks(OnAdd(d, criteria(models[m]), m).members, source + [m], models, criteria)
    ensures NoDup(OnAdd(d, criteria(models[m]), m).members)
  {
  }

  /** "remove" of a source model keeps the membership invariant. */
  lemma RemoveKeepsTracking<A>(d: Derived, source: seq<Id>, models: map<Id, A>, criteria: A -> bool, m: Id)
    requires forall x <- source :: x in models
    requires NoDup(source) && m in source
    requires Tracks(d.members, source, models, criteria) && NoDup(d.members)
    ensures Tracks(OnRemove(d, m).members, Without(source, m), models, criteria)
    ensures NoDup(OnRemove(d, m).members)
  {
  }

  /** "change" of a source model's attributes to `a` keeps the membership invariant. */
  lemma ChangeKeepsTracking<A>(d: Derived, source: seq<Id>, models: map<Id, A>, criteria: A -> bool, m: Id, a: A)
    requires forall x <- source :: x in models
    requires m in source
    requires Tracks(d.members, source, models, criteria) && NoDup(d.members)
    ensures Tracks(OnChange(d, criteria(a), m).members, source, models[m := a], criteria)
    ensures NoDup(OnChange(d, criteria(a), m).members)
  {
  }

  /**
   * A change to a model outside the source does not disturb the invariant
   * (the source does not relay it).
   */
  lemma OutsideChangeKeepsTracking<A>(members: seq<Id>, source: seq<Id>, models: map<Id, A>, criteria: A -> bool, m: Id, a: A)
    requires forall x <- source :: x in models
    requires m !in source
    requires Tracks(members, source, models, criteria)
    ensures Tracks(members, source, models[m := a], criteria)
  {
  }

  /**
   * A filtered collection over a source. The source's own state (its models in
   * order, every model's current attributes, the callbacks bound on it) lives
   * here too, because the mixin's callbacks run inside the source's `add`,
   * `remove` and model `set`.
   */
  class FilteredCollection<A(==)> {
    /** The source collection's models, in order. */
    var source: seq<Id>
    /** The current attributes of every model. */
    var models: map<Id, A>
    /** The registrations on the source collection, in binding order. */
    var sourceBindings: seq<Binding>
    /** The criteria the callbacks consult: shared by them and reassigned by `refilter`. */
    var criteria: A -> bool
    /** The filtered collection's models, in order. */
    var members: seq<Id>
    /** The events triggered on the filtered collection, oldest first. */
    var events: seq<Event>

    function State(): Derived
      reads this
    {
      Derived(members, events)
    }

    /** The mixin's callbacks are bound on the source. */
    predicate Subscribed()
      reads this
    {
      Binding("add", AddToFiltered) in sourceBindings
    }

    ghost predicate Valid()
      reads this
    {
      NoDup(source) && (forall m <- source :: m in models) && NoDup(members) &&
      (forall b <- OwnBindings() :: b in sourceBindings <==> Subscribed()) &&
      (Subscribed() ==> Tracks(members, source, models, criteria))
    }

    /**
     * `source.filtered(initialCriteria)`: bind the three callbacks, then reset
     * the new collection to the source models that satisfy the criteria.
     */
    constructor (source: seq<Id>, models: map<Id, A>, bindings: seq<Binding>, initialCriteria: A -> bool)
      requires NoDup(source) && forall m <- source :: m in models
      requires forall b <- bindings :: b.callback.Foreign?
      ensures Valid() && Subscribed()
      ensures this.source == source && this.models == models && criteria == initialCriteria
      ensures sourceBindings == bindings + OwnBindings()
      ensures members == Select(source, models, initialCriteria)
      ensures events == [Reset(members)]
    {
      this.source := source;
      this.models := models;
      criteria := initialCriteria;
      members := [];
      events := [];
      sourceBindings := bindings + OwnBindings();
      new;
      ResetMembers(Select(source, models, initialCriteria));
    }

    /** `reset` on the filtered collection. */
    method ResetMembers(ms: seq<Id>)
      modifies this`members, this`events
      ensures members == ms && events == old(events) + [Reset(ms)]
    {
      members := ms;
      events := events + [Reset(ms)];
    }

    /** `add` on the filtered collection. */
    method AddMember(m: Id)
      modifies this`members, this`events
      ensures State() == Added(old(State()), m)
    {
      if m !in members {
        members := members + [m];
        events := events + [Add(m)];
      }
    }

    /** `remove` on the filtered collection. */
    method RemoveMember(m: Id)
      modifies this`members, this`events
      ensures State() == Removed(old(State()), m)
    {
      if m in members {
        members := Without(members, m);
        events := events + [Remove(m)];
      }
    }

    /** The `addToFiltered` closure. */
    method AddToFilteredCallback(m: Id)
      requires m in models
      modifies this`members, this`events
      ensures State() == OnAdd(old(State()), criteria(models[m]), m)
    {
      if criteria(models[m]) {
        AddMember(m);
      }
    }

    /** The `removeFromFiltered` closure. */
    method RemoveFromFilteredCallback(m: Id)
      modifies this`members, this`events
      ensures State() == OnRemove(old(State()), m)
    {
      RemoveMember(m);
    }

    /** The `changeFiltered` closure. */
    method ChangeFilteredCallback(m: Id)
      requires m in models
      modifies this`members, this`events
      ensures State() == OnChange(old(State()), criteria(models[m]), m)
    {
      if criteria(models[m]) {
        if m in members {
          events := events + [Change(m)];
        } else {
          AddToFilteredCallback(m);
        }
      } else {
        RemoveFromFilteredCallback(m);
      }
    }

    /**
     * `add` on the source, then its "add" dispatch: the source ignores a model
     * it already holds; otherwise it appends the model and, while subscribed,
     * runs `addToFiltered`.
     */
    method SourceAdd(m: Id)
      requires Valid() && m in models
      modifies this
      ensures Valid()
      ensures source == if m in old(source) then old(source) else old(source) + [m]
      ensures models == old(models) && criteria == old(criteria) && sourceBindings == old(sourceBindings)
      ensures State() ==
        if m !in old(source) && Subscribed() then OnAdd(old(State()), criteria(models[m]), m)
        else old(State())
    {
      if m !in source {
        if Subscribed() {
          AddKeepsTracking(State(), source, models, criteria, m);
        }
        source := source + [m];
        if Subscribed() {
          AddToFilteredCallback(m);
        }
      }
    }

    /**
     * `remove` on the source, then its "remove" dispatch: an absent model is
     * ignored; otherwise it is dropped and, while subscribed,
     * `removeFromFiltered` runs.
     */
    method SourceRemove(m: Id)
      requires Valid()
      modifies this
      ensures Valid()
      ensures source == Without(old(source), m)
      ensures models == old(models) && criteria == old(criteria) && sourceBindings == old(sourceBindings)
      ensures State() ==
        if m in old(source) && Subscribed() then OnRemove(old(State()), m)
        else old(State())
    {
      if m in source {
        if Subscribed() {
          RemoveKeepsTracking(State(), source, models, criteria, m);
        }
        source := Without(source, m);
        if Subscribed() {
          RemoveFromFilteredCallback(m);
        }
      }
    }

    /**
     * `set` on a model: when the attributes actually change, the model's
     * "change" reaches the source if the source holds it, and, while
     * subscribed, `changeFiltered` runs. An unchanged `set` triggers nothing.
     */
    method Set(m: Id, a: A)
      requires Valid() && m in models
      modifies this
      ensures Valid()
      ensures models == old(models)[m := a]
      ensures source == old(source) && criteria == old(criteria) && sourceBindings == old(sourceBindings)
      ensures State() ==
        if old(models[m]) != a && m in source && Subscribed() then OnChange(old(State()), criteria(a), m)
        else old(State())
    {
      if models[m] != a {
        if Subscribed() {
          if m in source {
            ChangeKeepsTracking(State(), source, models, criteria, m, a);
          } else {
            OutsideChangeKeepsTracking(members, source, models, criteria, m, a);
          }
        }
        models := models[m := a];
        if m in source && Subscribed() {
          ChangeFilteredCallback(m);
        }
      }
    }

    /**
     * `refilter(newCriteria)`: the callbacks use the new criteria from now on,
     * and the filtered collection is reset to the source models it selects.
     */
    method Refilter(newCriteria: A -> bool)
      requires Valid()
      modifies this`criteria, this`members, this`events
      ensures Valid()
      ensures criteria == newCriteria
      ensures members == Select(source, models, newCriteria)
      ensures events == old(events) + [Reset(members)]
    {
      criteria := newCriteria;
      ResetMembers(Select(source, models, criteria));
    }

    /**
     * `teardown`: unbind the three callbacks from the source. The filtered
     * collection keeps its members but no longer follows the source.
     */
    method Teardown()
      requires Valid()
      modifies this`sourceBindings
      ensures Valid() && !Subscribed()
      ensures sourceBindings == UnbindOwn(old(sourceBindings))
      ensures forall b <- sourceBindings :: b in old(sourceBindings) && b !in OwnBindings()
      ensures forall b <- old(sourceBindings) :: b !in OwnBindings() ==> b in sourceBindings
    {
      sourceBindings := Without(sourceBindings, Binding("change", ChangeFiltered));
      sourceBindings := Without(sourceBindings, Binding("add", AddToFiltered));
      sourceBindings := Without(sourceBindings, Binding("remove", RemoveFromFiltered));
    }
  }
}
