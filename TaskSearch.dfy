/**
 * Task search: compiles structured search terms (a facet and a value each)
 * into the criteria of a filtered view over the tasks collection, and supplies
 * the facet and value lists for autocompletion.
 */
module TaskSearch {
  import opened Wrappers
  import opened Seqs
  import opened Strings
  import opened FilterableCollectionMixin

  /** A task as the search sees it: its title, completion flag and assigned users' e-mails, in order. */
  datatype Task = Task(title: string, complete: bool, assignees: seq<string>)

  /** One search term: the facet (`category`) and the text typed for it (`value`). */
  datatype SearchTerm = SearchTerm(category: string, value: string)

  /** `isComplete().toString()`. */
  function BoolString(b: bool): string
  {
    if b then "true" else "false"
  }

  /** The facets `matchSearch` can evaluate: the ones it special-cases and the task's text field. */
  predicate IsFacet(category: string)
  {
    category in {"completed", "assignees", "title"}
  }

  /** `task.get(field)` for a text field: only the title is one. */
  function TextField(task: Task, field: string): Option<string>
  {
    if field == "title" then Some(task.title) else None
  }

  /** `_.any(emails, e => e.indexOf(value) > -1)`. */
  function AnyContains(emails: seq<string>, value: string): (b: bool)
    ensures b <==> exists e <- emails :: Occurs(value, e)
  {
    if emails == [] then false
    else
      assert forall e <- emails[1..] :: e in emails;
      IndexOf(emails[0], value) > -1 || AnyContains(emails[1..], value)
  }

  /**
   * What a term means, independently of how `matchSearch` computes it.
   * "completed: true" and "completed: false" select by the flag (any other
   * value selects nothing); "assignees: v" selects tasks with an assigned
   * user whose e-mail contains v; "title: v" selects titles containing v.
   */
  ghost predicate Satisfies(task: Task, term: SearchTerm)
    requires IsFacet(term.category)
  {
    match term.category
    case "completed" => (term.value == "true" && task.complete) || (term.value == "false" && !task.complete)
    case "assignees" => exists e <- task.assignees :: Occurs(term.value, e)
    case _ => Occurs(term.value, task.title)
  }

  /**
   * `matchSearch(task, search)`. For a facet the task has no text field for,
   * the source calls `indexOf` on `undefined` and throws; that is `None`.
   */
  function MatchSearch(task: Task, term: SearchTerm): (r: Option<bool>)
    ensures r.Some? <==> IsFacet(term.category)
    ensures r.Some? ==> (r.value <==> Satisfies(task, term))
  {
    match term.category
    case "completed" => Some(term.value == BoolString(task.complete))
    case "assignees" => Some(AnyContains(task.assignees, term.value))
    case _ =>
      match TextField(task, term.category)
      case Some(text) => Some(IndexOf(text, term.value) > -1)
      case None => None
  }

  /**
   * `searches.all(search => matchSearch(task, search))` as a truth value:
   * every term matches. A term on an unknown facet counts as not matching;
   * `AllOf` says when `all` throws instead, and `TaskSearch.Search` is only
   * called where it does not.
   */
  function MatchAll(task: Task, terms: seq<SearchTerm>): (b: bool)
    ensures b <==> forall t <- terms :: MatchSearch(task, t) == Some(true)
  {
    if terms == [] then true
    else
      assert forall t <- terms[1..] :: t in terms;
      MatchSearch(task, terms[0]) == Some(true) && MatchAll(task, terms[1..])
  }

  /**
   * `searches.all(...)` as the source runs it: the terms are tried left to
   * right and `all` stops at the first that does not match; reaching a term
   * on an unknown facet throws, which is `None`.
   */
  function AllOf(task: Task, terms: seq<SearchTerm>): (r: Option<bool>)
    ensures r.Some? ==> (r.value <==> MatchAll(task, terms))
    ensures (forall t <- terms :: IsFacet(t.category)) ==> r.Some?
  {
    if terms == [] then Some(true)
    else
      assert forall t <- terms[1..] :: t in terms;
      match MatchSearch(task, terms[0])
      case None => None
      case Some(false) => Some(false)
      case Some(true) => AllOf(task, terms[1..])
  }

  /** `all` reaches term `k` of `terms` for `task` and that term is on an unknown facet. */
  predicate ThrowsAt(task: Task, terms: seq<SearchTerm>, k: int)
  {
    0 <= k < |terms| && !IsFacet(terms[k].category) &&
    forall j :: 0 <= j < k ==> MatchSearch(task, terms[j]) == Some(true)
  }

  /**
   * `all` throws exactly when every term before some unknown-facet term
   * matches: an earlier term that rejects the task stops it first.
   */
  lemma {:induction false} AllOfThrows(task: Task, terms: seq<SearchTerm>)
    ensures AllOf(task, terms).None? <==> exists k :: ThrowsAt(task, terms, k)
  {
    if terms != [] {
      var tail := terms[1..];
      AllOfThrows(task, tail);
      if MatchSearch(task, terms[0]) == Some(true) {
        if AllOf(task, tail).None? {
          var k :| ThrowsAt(task, tail, k);
          assert ThrowsAt(task, terms, k + 1) by {
            forall j | 0 <= j < k + 1 ensures MatchSearch(task, terms[j]) == Some(true) {
              if j > 0 { assert terms[j] == tail[j - 1]; }
            }
          }
        }
        if exists k :: ThrowsAt(task, terms, k) {
          var k :| ThrowsAt(task, terms, k);
          assert k > 0;
          assert ThrowsAt(task, tail, k - 1) by {
            forall j | 0 <= j < k - 1 ensures MatchSearch(task, tail[j]) == Some(true) {
              assert tail[j] == terms[j + 1];
            }
          }
        }
      } else if MatchSearch(task, terms[0]) == None {
        assert ThrowsAt(task, terms, 0);
      } else {
        forall k | 0 <= k < |terms| ensures !ThrowsAt(task, terms, k) {
          assert k == 0 || MatchSearch(task, terms[0]) != Some(true);
        }
      }
    }
  }

  /** The criteria `search` hands to `refilter`. */
  function SearchCriteria(terms: seq<SearchTerm>): Task -> bool
  {
    task => MatchAll(task, terms)
  }

  /**
   * The compiled criteria is the conjunction of the terms' meanings, so no
   * terms at all accept every task.
   */
  lemma SearchCriteriaMeaning(terms: seq<SearchTerm>, task: Task)
    requires forall t <- terms :: IsFacet(t.category)
    ensures SearchCriteria(terms)(task) <==> forall t <- terms :: Satisfies(task, t)
    ensures terms == [] ==> SearchCriteria(terms)(task)
  {
  }

  /** `facetMatches`: the facets offered for autocompletion. */
  function FacetMatches(): (r: seq<string>)
    ensures |r| == 3 && NoDup(r)
    ensures forall f <- r :: IsFacet(f)
    ensures forall f :: IsFacet(f) ==> f in r
  {
    ["title", "assignees", "completed"]
  }

  /** The titles of `tasks`, in order (`pluck('title')`). */
  function Titles(tasks: seq<Task>): (r: seq<string>)
    ensures |r| == |tasks| && forall i :: 0 <= i < |tasks| ==> r[i] == tasks[i].title
  {
    if tasks == [] then [] else [tasks[0].title] + Titles(tasks[1..])
  }

  /** Each task's assignee e-mails, in task order (`map(task => assignedUsers.pluck('email'))`). */
  function AssigneeLists(tasks: seq<Task>): (r: seq<seq<string>>)
    ensures |r| == |tasks| && forall i :: 0 <= i < |tasks| ==> r[i] == tasks[i].assignees
  {
    if tasks == [] then [] else [tasks[0].assignees] + AssigneeLists(tasks[1..])
  }

  /**
   * `valueMatches(facet, term, callback)`: the list handed to `callback`, or
   * `None` when `callback` is not invoked (a facet other than the three).
   */
  function ValueMatches(tasks: seq<Task>, facet: string): (r: Option<seq<string>>)
    ensures r.Some? <==> IsFacet(facet)
    ensures facet == "completed" ==> r == Some(["true", "false"])
  {
    match facet
    case "title" => Some(Uniq(Titles(tasks)))
    case "assignees" => Some(Uniq(Flatten(AssigneeLists(tasks))))
    case "completed" => Some(["true", "false"])
    case _ => None
  }

  /**
   * Title suggestions: every title once, nothing else, in the order in which
   * each title first appears in the collection.
   */
  lemma TitleMatches(tasks: seq<Task>)
    ensures ValueMatches(tasks, "title").Some?
    ensures NoDup(ValueMatches(tasks, "title").value)
    ensures forall s <- ValueMatches(tasks, "title").value :: exists i :: 0 <= i < |tasks| && tasks[i].title == s
    ensures forall i :: 0 <= i < |tasks| ==> tasks[i].title in ValueMatches(tasks, "title").value
    ensures var r, titles := ValueMatches(tasks, "title").value, Titles(tasks);
      forall i, j :: 0 <= i < j < |r| ==> FirstIndex(titles, r[i]) < FirstIndex(titles, r[j])
  {
    var titles := Titles(tasks);
    UniqOrder(titles);
    forall s <- Uniq(titles) ensures exists i :: 0 <= i < |tasks| && tasks[i].title == s {
      var i := FirstIndex(titles, s);
      assert tasks[i].title == s;
    }
  }

  /**
   * Assignee suggestions: every e-mail of every task's assigned users once,
   * nothing else, in task-then-user order of first appearance.
   */
  lemma AssigneeMatches(tasks: seq<Task>)
    ensures ValueMatches(tasks, "assignees").Some?
    ensures NoDup(ValueMatches(tasks, "assignees").value)
    ensures forall e <- ValueMatches(tasks, "assignees").value :: exists i :: 0 <= i < |tasks| && e in tasks[i].assignees
    ensures forall i, e :: 0 <= i < |tasks| && e in tasks[i].assignees ==> e in ValueMatches(tasks, "assignees").value
    ensures var r, emails := ValueMatches(tasks, "assignees").value, Flatten(AssigneeLists(tasks));
      forall i, j :: 0 <= i < j < |r| ==> FirstIndex(emails, r[i]) < FirstIndex(emails, r[j])
  {
    var lists := AssigneeLists(tasks);
    UniqOrder(Flatten(lists));
    forall e <- Uniq(Flatten(lists)) ensures exists i :: 0 <= i < |tasks| && e in tasks[i].assignees {
      var i :| 0 <= i < |lists| && e in lists[i];
      assert e in tasks[i].assignees;
    }
  }

  /** Every facet offered for autocompletion has value suggestions and can be searched. */
  lemma FacetsAreServed(tasks: seq<Task>)
    ensures forall f <- FacetMatches() :: ValueMatches(tasks, f).Some?
    ensures forall f <- FacetMatches(), task, v :: MatchSearch(task, SearchTerm(f, v)).Some?
  {
  }

  /**
   * The search widget's controller: the tasks collection, made filterable,
   * and the filtered view the task list shows.
   */
  class TaskSearch {
    const filteredCollection: FilteredCollection<Task>

    ghost predicate Valid()
      reads this, filteredCollection
    {
      filteredCollection.Valid() && filteredCollection.Subscribed()
    }

    /**
     * `new TaskSearch(collection)`: filter the collection with a criteria
     * that accepts every task, so the view starts as the whole collection.
     */
    constructor (source: seq<Id>, tasks: map<Id, Task>, bindings: seq<Binding>)
      requires NoDup(source) && forall m <- source :: m in tasks
      requires forall b <- bindings :: b.callback.Foreign?
      ensures Valid() && fresh(filteredCollection)
      ensures filteredCollection.source == source && filteredCollection.models == tasks
      ensures filteredCollection.sourceBindings == bindings + OwnBindings()
      ensures filteredCollection.members == source
      ensures forall t :: filteredCollection.criteria(t)
    {
      var all := (t: Task) => true;
      SelectAll(source, tasks, all);
      filteredCollection := new FilteredCollection(source, tasks, bindings, all);
    }

    /**
     * `search(query, searches)`: refilter the view with the conjunction of
     * the terms. The source's criteria throws for a task whose `all` reaches
     * a term on an unknown facet (`AllOfThrows`); `search` is called here
     * only when that happens for no task of the collection.
     */
    method Search(terms: seq<SearchTerm>)
      requires Valid()
      requires forall m <- filteredCollection.source :: AllOf(filteredCollection.models[m], terms).Some?
      modifies filteredCollection`criteria, filteredCollection`members, filteredCollection`events
      ensures Valid()
      ensures filteredCollection.criteria == SearchCriteria(terms)
      ensures filteredCollection.source == old(filteredCollection.source)
      ensures filteredCollection.models == old(filteredCollection.models)
      ensures filteredCollection.sourceBindings == old(filteredCollection.sourceBindings)
      ensures filteredCollection.members == Select(filteredCollection.source, filteredCollection.models, SearchCriteria(terms))
      ensures filteredCollection.events == old(filteredCollection.events) + [Reset(filteredCollection.members)]
    {
      filteredCollection.Refilter(SearchCriteria(terms));
    }
  }
}
