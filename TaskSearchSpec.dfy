/**
 * The task-search examples of the repository's test suite, checked on the
 * model: two tasks, "Anchors away" (id 1, complete, assigned to alice) and
 * "Batten down the hatches" (id 2, incomplete, assigned to bob and bilbo).
 */
module TaskSearchSpec {
  import opened Wrappers
  import opened Seqs
  import opened Strings
  import opened FilterableCollectionMixin
  import opened TaskSearch

  function Anchors(): Task
  {
    Task("Anchors away", true, ["alice@example.com"])
  }

  function Batten(): Task
  {
    Task("Batten down the hatches", false, ["bob@example.com", "bilbo@example.com"])
  }

  function ExampleTasks(): map<Id, Task>
  {
    map[1 := Anchors(), 2 := Batten()]
  }

  /** The ids a one-term search leaves in the view. */
  function Found(category: string, value: string): seq<Id>
  {
    Select([1, 2], ExampleTasks(), SearchCriteria([SearchTerm(category, value)]))
  }

  /**
   * `needle` does not occur in `hay` when its `k`-th character is nowhere in
   * `hay` from position `k` on (every occurrence would put it there).
   */
  lemma AbsentChar(needle: string, hay: string, k: nat)
    requires k < |needle| && forall j :: k <= j < |hay| ==> hay[j] != needle[k]
    ensures !Occurs(needle, hay)
  {
    forall i | 0 <= i && i + |needle| <= |hay| ensures !OccursAt(needle, hay, i) {
      assert hay[i..i + |needle|][k] == hay[i + k];
    }
  }

  /** `needle` occurs in `hay` at `i` when their characters agree there. */
  lemma PresentAt(needle: string, hay: string, i: nat)
    requires i + |needle| <= |hay| && forall j :: 0 <= j < |needle| ==> hay[i + j] == needle[j]
    ensures Occurs(needle, hay)
  {
    assert hay[i..i + |needle|] == needle;
    assert OccursAt(needle, hay, i);
  }

  /** Filtering two tasks keeps, in order, the ids of those the criteria accepts. */
  lemma SelectTwo<A>(x: A, y: A, criteria: A -> bool)
    ensures Select([1, 2], map[1 := x, 2 := y], criteria) ==
      (if criteria(x) then [1] else []) + (if criteria(y) then [2] else [])
  {
    var source: seq<Id> := [1, 2];
    assert source[1..] == [2] && source[1..][1..] == [];
  }

  /** A one-term search over the two example tasks keeps the tasks the term is satisfied by. */
  lemma FoundBySatisfies(term: SearchTerm)
    requires IsFacet(term.category)
    ensures Found(term.category, term.value) ==
      (if Satisfies(Anchors(), term) then [1] else []) + (if Satisfies(Batten(), term) then [2] else [])
  {
    var same := SearchTerm(term.category, term.value);
    assert same == term;
    SelectTwo(Anchors(), Batten(), SearchCriteria([term]));
    SearchCriteriaMeaning([term], Anchors());
    SearchCriteriaMeaning([term], Batten());
  }

  lemma TitleSearchExample()
    ensures Found("title", "a") == [1, 2]
  {
    PresentAt("a", Anchors().title, 8);
    PresentAt("a", Batten().title, 1);
    FoundBySatisfies(SearchTerm("title", "a"));
  }

  /** "Anchors" begins the first title and is not in the second. */
  lemma AnchorsInTitles()
    ensures Occurs("Anchors", Anchors().title) && !Occurs("Anchors", Batten().title)
  {
    PresentAt("Anchors", Anchors().title, 0);
    AbsentChar("Anchors", Batten().title, 0);
  }

  lemma AnchorsSearchExample()
    ensures Found("title", "Anchors") == [1]
  {
    AnchorsInTitles();
    FoundBySatisfies(SearchTerm("title", "Anchors"));
  }

  lemma CompletedSearchExamples()
    ensures Found("completed", "true") == [1]
    ensures Found("completed", "false") == [2]
  {
    FoundBySatisfies(SearchTerm("completed", "true"));
    FoundBySatisfies(SearchTerm("completed", "false"));
  }

  /** "alice" is in neither of Batten's e-mails. */
  lemma NoAliceInBatten()
    ensures !Occurs("alice", "bob@example.com") && !Occurs("alice", "bilbo@example.com")
  {
    AbsentChar("alice", "bob@example.com", 2);
    AbsentChar("alice", "bilbo@example.com", 2);
  }

  lemma AliceSearchExample()
    ensures Found("assignees", "alice") == [1]
  {
    PresentAt("alice", "alice@example.com", 0);
    NoAliceInBatten();
    FoundBySatisfies(SearchTerm("assignees", "alice"));
  }

  /** "example" is in every assignee e-mail of both tasks' first users. */
  lemma ExampleInEmails()
    ensures Occurs("example", "alice@example.com") && Occurs("example", "bob@example.com")
  {
    PresentAt("example", "alice@example.com", 6);
    PresentAt("example", "bob@example.com", 4);
  }

  lemma ExampleSearchExample()
    ensures Found("assignees", "example") == [1, 2]
  {
    ExampleInEmails();
    var term := SearchTerm("assignees", "example");
    assert Anchors().assignees[0] == "alice@example.com";
    assert Batten().assignees[0] == "bob@example.com";
    FoundBySatisfies(term);
  }

  /** Two distinct values are already their own `Uniq`. */
  lemma UniqTwo<T>(x: T, y: T)
    requires x != y
    ensures Uniq([x, y]) == [x, y]
  {
    var one, two := [x], [x, y];
    assert one[..0] == [];
    assert Uniq(one) == [x];
    assert two[..1] == one;
  }

  /** Three distinct values are already their own `Uniq`. */
  lemma UniqThree<T>(x: T, y: T, z: T)
    requires x != y && y != z && x != z
    ensures Uniq([x, y, z]) == [x, y, z]
  {
    var three := [x, y, z];
    UniqTwo(x, y);
    assert three[..2] == [x, y];
  }

  /** Plucking from the two example tasks. */
  lemma Plucked(a: Task, b: Task)
    ensures Titles([a, b]) == [a.title, b.title]
    ensures AssigneeLists([a, b]) == [a.assignees, b.assignees]
  {
    var tasks := [a, b];
    assert tasks[1..] == [b] && tasks[1..][1..] == [];
  }

  /** Flattening two lists of one and two elements. */
  lemma FlattenTwo<T>(x: T, y: T, z: T)
    ensures Flatten([[x], [y, z]]) == [x, y, z]
  {
    var lists := [[x], [y, z]];
    assert lists[1..] == [[y, z]] && lists[1..][1..] == [];
    assert Flatten(lists[1..][1..]) == [];
    assert Flatten(lists[1..]) == [y, z];
  }

  lemma ValueMatchExamples()
    ensures ValueMatches([Anchors(), Batten()], "title") == Some(["Anchors away", "Batten down the hatches"])
    ensures ValueMatches([Anchors(), Batten()], "assignees") ==
      Some(["alice@example.com", "bob@example.com", "bilbo@example.com"])
    ensures ValueMatches([Anchors(), Batten()], "completed") == Some(["true", "false"])
    ensures FacetMatches() == ["title", "assignees", "completed"]
  {
    var anchors, batten := "Anchors away", "Batten down the hatches";
    var alice, bob, bilbo := "alice@example.com", "bob@example.com", "bilbo@example.com";
    assert anchors[0] != batten[0] && alice[0] != bob[0] && bob[1] != bilbo[1] && alice[0] != bilbo[0];
    Plucked(Anchors(), Batten());
    UniqTwo(anchors, batten);
    FlattenTwo(alice, bob, bilbo);
    UniqThree(alice, bob, bilbo);
  }

  /** The terms `title: zzz, foo: x`: a title no task has, then an unknown facet. */
  function RejectThenUnknown(): seq<SearchTerm>
  {
    [SearchTerm("title", "zzz"), SearchTerm("foo", "x")]
  }

  /**
   * `all` stops at the first term, which rejects both example tasks, so the
   * unknown facet is never reached: the search completes and finds nothing.
   */
  lemma RejectedBeforeUnknownFacet()
    ensures AllOf(Anchors(), RejectThenUnknown()) == Some(false)
    ensures AllOf(Batten(), RejectThenUnknown()) == Some(false)
    ensures Select([1, 2], ExampleTasks(), SearchCriteria(RejectThenUnknown())) == []
  {
    AbsentChar("zzz", Anchors().title, 0);
    AbsentChar("zzz", Batten().title, 0);
    var terms := RejectThenUnknown();
    assert terms[1..] == [SearchTerm("foo", "x")];
    SelectTwo(Anchors(), Batten(), SearchCriteria(terms));
  }
}
