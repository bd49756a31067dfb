/**
 * The behaviour the mixin's own test suite describes, replayed on the model:
 * a source holding models numbered 1 and 2, filtered to the odd-numbered ones.
 * Each method is one test case; the assertions are what the test expects.
 */
module FilterableCollectionMixinSpec {
  import opened FilterableCollectionMixin

  /** The attributes the test models carry. */
  datatype Attrs = Attrs(number: int, other: string)

  /** `number % 2 === 1` with JavaScript's truncating `%`: no negative number passes. */
  function IsOdd(a: Attrs): bool
  {
    a.number > 0 && a.number % 2 == 1
  }

  /** The shared setup: m1..m4 numbered 1..4, a source [m1, m2], filtered by oddness. */
  method Setup() returns (c: FilteredCollection<Attrs>)
    ensures fresh(c) && c.Valid() && c.Subscribed()
    ensures c.source == [1, 2] && c.criteria == IsOdd
    ensures c.models == map[1 := Attrs(1, ""), 2 := Attrs(2, ""), 3 := Attrs(3, ""), 4 := Attrs(4, "")]
    ensures c.members == [1] && c.events == [Reset([1])]
    ensures c.sourceBindings == OwnBindings()
  {
    var models := map[1 := Attrs(1, ""), 2 := Attrs(2, ""), 3 := Attrs(3, ""), 4 := Attrs(4, "")];
    assert Select([1, 2], models, IsOdd) == [1];
    c := new FilteredCollection([1, 2], models, [], IsOdd);
  }

  method AddingMatchingTriggersAdd()
  {
    var c := Setup();
    c.SourceAdd(3);
    assert c.members == [1, 3] && c.events == [Reset([1]), Add(3)];
  }

  method AddingNonMatchingTriggersNothing()
  {
    var c := Setup();
    c.SourceAdd(4);
    assert c.members == [1] && c.events == [Reset([1])];
  }

  method RemovingMatchingTriggersRemove()
  {
    var c := Setup();
    c.SourceRemove(1);
    assert c.members == [] && c.events == [Reset([1]), Remove(1)];
  }

  method RemovingNonMatchingTriggersNothing()
  {
    var c := Setup();
    c.SourceRemove(2);
    assert c.members == [1] && c.events == [Reset([1])];
  }

  method ChangeToMatchingTriggersAdd()
  {
    var c := Setup();
    c.Set(2, Attrs(3, ""));
    assert c.members == [1, 2] && c.events == [Reset([1]), Add(2)];
  }

  method ChangeToNonMatchingTriggersRemove()
  {
    var c := Setup();
    c.Set(1, Attrs(2, ""));
    assert c.members == [] && c.events == [Reset([1]), Remove(1)];
  }

  method ChangeStillMatchingTriggersChange()
  {
    var c := Setup();
    c.Set(1, Attrs(1, "thing"));
    assert c.members == [1] && c.events == [Reset([1]), Change(1)];
  }

  method ChangeStillNotMatchingTriggersNothing()
  {
    var c := Setup();
    c.Set(2, Attrs(2, "thing"));
    assert c.members == [1] && c.events == [Reset([1])];
  }

  method TeardownUnbindsAllThree()
  {
    var c := Setup();
    assert |c.sourceBindings| == 3;
    c.Teardown();
    TeardownUndoesFiltered([]);
    assert c.sourceBindings == [];
    c.SourceAdd(3);
    assert c.members == [1];
  }

  method RefilterResets()
  {
    var c := Setup();
    var isTwo := (a: Attrs) => a.number == 2;
    c.Refilter(isTwo);
    assert c.members == [2];
  }
}
