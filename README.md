# Filtered collections, task search and the EPUB contents injector

A Dafny model of four pieces of the backbone-js-on-rails example application and its book tooling:

- **The filterable collection mixin** (`FilterableCollectionMixin.dfy`). `filtered(criteria)` derives a live view from a source collection. The view holds exactly the source models that satisfy the criteria. Three callbacks bound on the source keep it that way: "add", "remove" and "change". `refilter` swaps the criteria and resets the view. `teardown` unbinds the three callbacks.
  - The source, the model attributes, the source's bindings, the criteria, the view's members and the view's event log are fields of the class `FilteredCollection`.
  - Its methods are the callbacks and the source operations that fire them.
  - Pure step functions (`OnAdd`, `OnRemove`, `OnChange`) specify the callbacks. Lemmas prove two things about them: the event outcome of every case, and that each case keeps the membership invariant `Tracks`.
  - `FilterableCollectionMixinSpec.dfy` replays the mixin's own test cases on the model.
- **Task search** (`TaskSearch.dfy`). Structured search terms (facet, value) are compiled into the criteria of a filtered view over the tasks collection. The autocompletion lists are built from the tasks.
  - `MatchSearch` is proved equivalent to an independent meaning `Satisfies` of each facet.
  - `Search` is a `refilter` with the conjunction of the terms.
  - The suggestion lists are proved duplicate-free, complete and in first-appearance order.
  - `TaskSearchSpec.dfy` checks the search and suggestion examples of the repository's test suite.
- **The EPUB contents injector** (`InjectEpubToc.dfy`).
  - `insert_lines` rewrites the package document, writing after each line the line paired with every marker it contains. Its nested loop is proved against the rewrite `Inserted`. Lemmas give the rewrite's layout, length and order, and the placement of the `contents` entries for the fixed marker table.
  - `contents_xhtml_links` keeps the chapter files that match `/ch\d/` and appends one link paragraph and one list per chapter. Its loops are proved against the line list `TocLines`.
- **`findByEmail`** (`Users.dfy`): the first user whose e-mail equals the one asked for.

`Wrappers.dfy`, `Seqs.dfy` and `Strings.dfy` hold the option/result types and the library behaviour the code relies on: `uniq`, `flatten`, `indexOf` and `include?`, and `Without`, which stands for the collection's `remove` and the source's `unbind` of one registration.

Assumptions taken from the collection library and not modelled:
- `add` ignores a model already present and appends otherwise. The callbacks pass the source collection as the second argument of the view's `add` and `remove` (lines 12 and 17 of the mixin), where the library expects an options object; the model takes it that the library ignores it.
- `remove` ignores an absent model.
- `reset` replaces the contents and triggers one "reset".
- `select` keeps source order.
- A source relays its members' "change" to the callbacks bound on it.

## Model

| member | source | states |
|---|---|---|
| Users.FindByEmail | example_app/app/assets/javascripts/collections/users.js:4-8 | a result has the queried e-mail and is the first user with it in collection order; there is no result exactly when no user has that e-mail; being a function it changes nothing |
| Seqs.Without | example_app/app/assets/javascripts/filterable_collection_mixin.js:16-18 | removing a model keeps every other element and drops the removed one; removing an absent one changes nothing; no duplicates are introduced |
| Seqs.WithoutCutsOut | example_app/app/assets/javascripts/filterable_collection_mixin.js:17 | removing a member held once cuts it out where it stands, keeping the members before and after it in order |
| Seqs.Uniq | example_app/app/assets/javascripts/task_search.js:63 | `_.uniq` yields no duplicates and exactly the elements of its input |
| Seqs.UniqOrder | example_app/app/assets/javascripts/task_search.js:63 | `_.uniq` keeps elements in the order of their first occurrence |
| Seqs.Flatten | example_app/app/assets/javascripts/task_search.js:66-68 | `_.flatten` holds exactly the elements of the inner lists |
| Strings.IndexOf | example_app/app/assets/javascripts/task_search.js:49 | `indexOf` is the first position, counted in characters, where the needle occurs, and is greater than -1 exactly when it occurs |
| Strings.Includes | inject_epub_toc.rb:50 | `include?` holds exactly when the marker occurs in the line |
| FilterableCollectionMixin.TeardownUndoesFiltered | example_app/app/assets/javascripts/filterable_collection_mixin.js:32-40 | unbinding the three callbacks after binding them restores the other bindings exactly, in order, and removes three registrations |
| FilterableCollectionMixin.Select | example_app/app/assets/javascripts/filterable_collection_mixin.js:46 | `select` keeps exactly the source models that satisfy the criteria, without duplicates |
| FilterableCollectionMixin.SelectAll | example_app/app/assets/javascripts/task_search.js:8-10 | selecting with a criteria that accepts everything yields the whole source |
| FilterableCollectionMixin.ChangeOutcome | example_app/app/assets/javascripts/filterable_collection_mixin.js:20-30 | a source "change" gives one "change" for a member that still matches, one "add" and no "change" for a non-member that now matches, one "remove" for a member that no longer matches, nothing otherwise |
| FilterableCollectionMixin.AddOutcome | example_app/app/assets/javascripts/filterable_collection_mixin.js:10-14 | a source "add" of a matching model appends it with one "add"; a non-matching one triggers nothing |
| FilterableCollectionMixin.RemoveOutcome | example_app/app/assets/javascripts/filterable_collection_mixin.js:16-18 | a source "remove" of a member drops it with one "remove"; of a non-member triggers nothing |
| FilterableCollectionMixin.AddKeepsTracking | example_app/app/assets/javascripts/filterable_collection_mixin.js:10-14 | after a source "add" the view is still exactly the matching source models, without duplicates |
| FilterableCollectionMixin.RemoveKeepsTracking | example_app/app/assets/javascripts/filterable_collection_mixin.js:16-18 | after a source "remove" the view is still exactly the matching source models, without duplicates |
| FilterableCollectionMixin.ChangeKeepsTracking | example_app/app/assets/javascripts/filterable_collection_mixin.js:20-30 | after a source model changes its attributes the view is still exactly the matching source models, without duplicates |
| FilterableCollectionMixin.OutsideChangeKeepsTracking | example_app/app/assets/javascripts/filterable_collection_mixin.js:32 | a change to a model outside the source leaves the invariant intact |
| FilterableCollectionMixin.FilteredCollection.constructor | example_app/app/assets/javascripts/filterable_collection_mixin.js:5-52 | `filtered` binds the three callbacks after the existing bindings and resets the view to `source.select(criteria)` with one "reset" |
| FilterableCollectionMixin.FilteredCollection.ResetMembers | example_app/app/assets/javascripts/filterable_collection_mixin.js:49 | `reset` replaces the members and logs one "reset" |
| FilterableCollectionMixin.FilteredCollection.AddMember | example_app/app/assets/javascripts/filterable_collection_mixin.js:12 | the view's `add` appends with one "add" unless the model is present |
| FilterableCollectionMixin.FilteredCollection.RemoveMember | example_app/app/assets/javascripts/filterable_collection_mixin.js:17 | the view's `remove` drops a member with one "remove", ignores a non-member |
| FilterableCollectionMixin.FilteredCollection.AddToFilteredCallback | example_app/app/assets/javascripts/filterable_collection_mixin.js:10-14 | `addToFiltered` moves the view as `OnAdd` under the current criteria |
| FilterableCollectionMixin.FilteredCollection.RemoveFromFilteredCallback | example_app/app/assets/javascripts/filterable_collection_mixin.js:16-18 | `removeFromFiltered` moves the view as `OnRemove` |
| FilterableCollectionMixin.FilteredCollection.ChangeFilteredCallback | example_app/app/assets/javascripts/filterable_collection_mixin.js:20-30 | `changeFiltered` moves the view as `OnChange` under the current criteria |
| FilterableCollectionMixin.FilteredCollection.SourceAdd | example_app/app/assets/javascripts/filterable_collection_mixin.js:33 | adding to the source runs `addToFiltered` while subscribed and keeps the invariant; after teardown the view does not move |
| FilterableCollectionMixin.FilteredCollection.SourceRemove | example_app/app/assets/javascripts/filterable_collection_mixin.js:34 | removing from the source runs `removeFromFiltered` while subscribed and keeps the invariant; after teardown the view does not move |
| FilterableCollectionMixin.FilteredCollection.Set | example_app/app/assets/javascripts/filterable_collection_mixin.js:32 | a real attribute change of a source model runs `changeFiltered` while subscribed and keeps the invariant |
| FilterableCollectionMixin.FilteredCollection.Refilter | example_app/app/assets/javascripts/filterable_collection_mixin.js:42-47 | `refilter` makes later callbacks use the new criteria and resets the view to `source.select(newCriteria)` with one "reset" |
| FilterableCollectionMixin.FilteredCollection.Teardown | example_app/app/assets/javascripts/filterable_collection_mixin.js:36-40 | `teardown` removes exactly the three callbacks, keeps every other binding, and leaves the view unsubscribed |
| FilterableCollectionMixinSpec.Setup | example_app/spec/javascripts/filterable_collection_mixin_spec.js:4-31 | the tests' fixture: source [m1, m2] filtered by oddness holds [m1], after one "reset", with exactly three bindings on the source |
| TaskSearch.AnyContains | example_app/app/assets/javascripts/task_search.js:48-50 | `any` of the e-mails holds exactly when one of them contains the value |
| TaskSearch.MatchSearch | example_app/app/assets/javascripts/task_search.js:39-54 | a term on "completed", "assignees" or "title" yields a verdict equal to its meaning `Satisfies`; any other facet throws |
| TaskSearch.MatchAll | example_app/app/assets/javascripts/task_search.js:33-35 | `searches.all` holds exactly when every term matches |
| TaskSearch.AllOf | example_app/app/assets/javascripts/task_search.js:33-35 | `all` as run left to right: when it completes its verdict is `MatchAll`; with every term on a known facet it always completes |
| TaskSearch.AllOfThrows | example_app/app/assets/javascripts/task_search.js:33-35 | `all` throws for a task exactly when some term on an unknown facet is preceded only by terms the task matches |
| TaskSearch.SearchCriteriaMeaning | example_app/app/assets/javascripts/task_search.js:32-36 | the compiled criteria accepts a task exactly when it satisfies every term; no terms accept every task |
| TaskSearch.FacetMatches | example_app/app/assets/javascripts/task_search.js:56-58 | the offered facets are exactly the three `matchSearch` can evaluate, each once |
| TaskSearch.Titles | example_app/app/assets/javascripts/task_search.js:63 | `pluck('title')` is the tasks' titles in order |
| TaskSearch.AssigneeLists | example_app/app/assets/javascripts/task_search.js:66-68 | the mapped lists are each task's assignee e-mails, in task order |
| TaskSearch.ValueMatches | example_app/app/assets/javascripts/task_search.js:60-74 | the callback runs exactly for the three facets; "completed" yields ["true", "false"] |
| TaskSearch.TitleMatches | example_app/app/assets/javascripts/task_search.js:62-64 | title suggestions hold every title once and nothing else, in first-appearance order |
| TaskSearch.AssigneeMatches | example_app/app/assets/javascripts/task_search.js:65-69 | assignee suggestions hold every assigned e-mail once and nothing else, in task-then-user first-appearance order |
| TaskSearch.FacetsAreServed | example_app/app/assets/javascripts/task_search.js:56-74 | every offered facet has value suggestions and can be searched without throwing |
| TaskSearch.TaskSearch.constructor | example_app/app/assets/javascripts/task_search.js:2-13 | the view starts as the whole collection, with a criteria that accepts every task |
| TaskSearch.TaskSearch.Search | example_app/app/assets/javascripts/task_search.js:29-37 | `search` refilters the view with the conjunction of the terms: its members become the tasks selected by it, with one "reset"; the source, its models and its bindings are left as they were; it is called whenever `all` throws for no task of the collection |
| TaskSearchSpec.FoundBySatisfies | example_app/spec/javascripts/task_search_spec.js:57-61 | a one-term search over the two example tasks keeps, in order, those satisfying the term |
| TaskSearchSpec.TitleSearchExample | example_app/spec/javascripts/task_search_spec.js:47 | "title: a" finds tasks 1 and 2 |
| TaskSearchSpec.AnchorsSearchExample | example_app/spec/javascripts/task_search_spec.js:48 | "title: Anchors" finds task 1 only |
| TaskSearchSpec.CompletedSearchExamples | example_app/spec/javascripts/task_search_spec.js:49-50 | "completed: true" finds task 1, "completed: false" task 2 |
| TaskSearchSpec.AliceSearchExample | example_app/spec/javascripts/task_search_spec.js:51 | "assignees: alice" finds task 1 only |
| TaskSearchSpec.ExampleSearchExample | example_app/spec/javascripts/task_search_spec.js:52 | "assignees: example" finds tasks 1 and 2 |
| TaskSearchSpec.RejectedBeforeUnknownFacet | example_app/app/assets/javascripts/task_search.js:33-35 | "title: zzz, foo: x" over the two example tasks completes without reaching the unknown facet and finds nothing |
| TaskSearchSpec.ValueMatchExamples | example_app/spec/javascripts/task_search_spec.js:71-93 | the suggestion lists for "title", "assignees" and "completed" are the ones the tests expect |
| InjectEpubToc.InsertionsAfter | inject_epub_toc.rb:49-53 | at most one line is written after a line per table entry |
| InjectEpubToc.InsertionsAfterMeaning | inject_epub_toc.rb:49-53 | every line written after a line belongs to an entry whose marker it contains; a line with no marker gets nothing after it |
| InjectEpubToc.InsertionsAfterCount | inject_epub_toc.rb:49-53 | exactly one line is written after a line per entry whose marker it contains |
| InjectEpubToc.InsertLines | inject_epub_toc.rb:42-56 | the nested loop writes the rewrite `Inserted`: each original line followed by its insertions in table order |
| InjectEpubToc.InsertedAppend | inject_epub_toc.rb:46-54 | the rewrite works line by line: rewriting a concatenation concatenates the rewrites |
| InjectEpubToc.InsertedLayout | inject_epub_toc.rb:46-53 | original line i is written at its offset, followed by its insertions, right before original line i + 1 |
| InjectEpubToc.InsertionWritten | inject_epub_toc.rb:49-53 | the j-th insertion after original line i sits j + 1 places after it |
| InjectEpubToc.SplitAt | inject_epub_toc.rb:46-54 | the rewrite is the rewrite of the lines before i, line i, its insertions, and the rewrite of the lines after i |
| InjectEpubToc.OffsetsIncrease | inject_epub_toc.rb:46-47 | original lines keep their order in the output |
| InjectEpubToc.InsertedLength | inject_epub_toc.rb:46-54 | the output has one line per original line plus one per marker each line contains |
| InjectEpubToc.TwoInsertionsAfter | inject_epub_toc.rb:49-53 | with a two-entry table, the lines written after a line are the first entry's then the second's, each if its marker is contained |
| InjectEpubToc.FirstFollowsMarker | inject_epub_toc.rb:49-53 | with a two-entry table, the first entry's line directly follows a line holding its marker |
| InjectEpubToc.SecondFollowsMarker | inject_epub_toc.rb:49-53 | with a two-entry table, the second entry's line follows a line holding its marker, one place later when the first marker is there too |
| InjectEpubToc.ContentsFollowTitlePage | inject_epub_toc.rb:24-33 | the `contents` item follows the `title_page` item line, and the `contents` itemref follows the `title_page` itemref line |
| InjectEpubToc.IsChapterFile | inject_epub_toc.rb:78 | the scan holds exactly when "ch" followed by a digit occurs in the name |
| InjectEpubToc.ChapterFiles | inject_epub_toc.rb:78 | every kept `src` value matches `/ch\d/` and every matching one is kept |
| InjectEpubToc.ChapterFilesAppend | inject_epub_toc.rb:78 | the filter works name by name: the chapter files of a concatenation are those of each part in turn, so document order and repeated names are kept |
| InjectEpubToc.ChapterFilesOne | inject_epub_toc.rb:78 | a single `src` value is kept exactly when it matches `/ch\d/` |
| InjectEpubToc.ItemLines | inject_epub_toc.rb:88-90 | one list item per `h2`, in order, linking `file#id` with the heading's text |
| InjectEpubToc.ChapterLines | inject_epub_toc.rb:85-91 | a chapter contributes its link paragraph, `<ul>`, one item per `h2`, and `</ul>` |
| InjectEpubToc.TocFailureSticks | inject_epub_toc.rb:80-83 | a chapter that cannot be read, or has no `h1`, makes the whole call fail on that chapter |
| InjectEpubToc.TocLineCount | inject_epub_toc.rb:80-92 | successful contents have three lines per chapter plus one per `h2` |
| InjectEpubToc.ItemLinks | inject_epub_toc.rb:88-90 | the inner loop appends exactly the list items of the chapter's `h2`s, one per line |
| InjectEpubToc.ContentsXhtmlLinks | inject_epub_toc.rb:74-95 | the loops build the contents lines of every chapter file joined by newlines, or fail on the first chapter missing from the archive or without an `h1` |

## Left out

- Collection-library internals are not modelled; their behaviour is taken as the assumptions listed above. These are id/cid de-duplication, the event bus and `_events`.
- The view does not relay its own members' "change" events to its listeners. Only the events the mixin's code triggers are logged.
- The set of models is fixed when the view is built (`models`). Creating a model is not an operation of the core.
- A source `reset` is not modelled, because the mixin does not subscribe to it.
- TaskSearch.TaskSearch.Search: the exception is not modelled. `search` throws a TypeError while filtering when, for some task, `all` reaches a term on an unknown facet (`AllOfThrows`); the model's `Search` requires that this happens for no task and says nothing about the throwing case.
- TaskSearch.MatchAll: a term on an unknown facet counts as not matching, where the source throws once `all` reaches it. `AllOf` tells the two apart, and `Search` uses `MatchAll` only where `AllOf` completes.
- The Task record holds only a title, a completion flag and the assignees' e-mails. These are the fields the search reads; the other fields would go through the same substring branch as the title, and other fields are not modelled.
- `facetMatches` and `valueMatches` are modelled as functions of the tasks collection's tasks in order, not as methods reading `this.collection`; the callback they invoke is their result.
- `attach` and the VisualSearch widget are not modelled (user interface and a foreign library).
- The zip reads and writes and the XML parsing are not modelled. They are inputs instead:
  - the package document as its lines;
  - the navigation document as the `src` values of its `content` nodes in order;
  - each chapter as its first `h1` text and its `h2` headings.
- The details of splitting the package document on "\n" (Ruby drops trailing empty fields) are not modelled.
- The page envelope `contents_xhtml` (inject_epub_toc.rb:58-72), `add_zipfile_entry`, `add_contents_file` and the script's entry point are not modelled. They are a fixed text template and archive I/O.
- A `content` node without `src` is not modelled; every node is taken to have one.
- An `h2` without an `id` is modelled with an empty id. That is what Ruby's interpolation of `nil` produces.
- Heading text and file names are interpolated as given, without escaping, as the source does.
- The two proofs that original lines are kept in order are per line: `InsertedLayout` gives each line's position and `OffsetsIncrease` orders each pair of lines. No single subsequence predicate is stated.
