/** The list view of `src/index.tsx`: the `filteredKeys` pipeline (search,
    then category, then a stable sort by last use) and the per-row
    visibility toggles. Everything here is a pure function of the loaded
    records and the view's state. */
module KeyList {
  import opened Wrappers
  import opened Seqs
  import opened Text
  import opened ApiKeyStorage

  /** The category dropdown's sentinel for "no category filter". */
  const AllCategories: string := "All"

  // ------------------------------------------------------------- search

  /** The search test against an already lower-cased query: name, service,
      any category, or the notes contain it, compared lower-cased. */
  predicate MatchesSearch(k: ApiKey, search: string) {
    || Includes(Lower(k.name), search)
    || Includes(Lower(k.service), search)
    || (k.categories.Some? &&
        exists i :: 0 <= i < |k.categories.value| && Includes(Lower(k.categories.value[i]), search))
    || (k.notes.Some? && Includes(Lower(k.notes.value), search))
  }

  /** The same test stated by positions: the query occurs somewhere in one
      of the four lower-cased fields. */
  ghost predicate ContainsQuery(k: ApiKey, q: string) {
    || (exists p :: OccursAt(Lower(k.name), q, p))
    || (exists p :: OccursAt(Lower(k.service), q, p))
    || (k.categories.Some? &&
        exists i, p :: 0 <= i < |k.categories.value| && OccursAt(Lower(k.categories.value[i]), q, p))
    || (k.notes.Some? && exists p :: OccursAt(Lower(k.notes.value), q, p))
  }

  lemma MatchesSearchIffContains(k: ApiKey, q: string)
    ensures MatchesSearch(k, q) <==> ContainsQuery(k, q)
  {
    IncludesIffOccurs(Lower(k.name), q);
    IncludesIffOccurs(Lower(k.service), q);
    if k.notes.Some? {
      IncludesIffOccurs(Lower(k.notes.value), q);
    }
    if k.categories.Some? {
      var cs := k.categories.value;
      forall i | 0 <= i < |cs| ensures Includes(Lower(cs[i]), q) <==> exists p :: OccursAt(Lower(cs[i]), q, p) {
        IncludesIffOccurs(Lower(cs[i]), q);
      }
    }
  }

  function SearchTest(searchText: string): ApiKey -> bool {
    (k: ApiKey) => MatchesSearch(k, Lower(searchText))
  }

  function CategoryTest(category: string): ApiKey -> bool {
    (k: ApiKey) => HasCategory(k, category)
  }

  /** The first step: only when the search text is not empty. */
  function SearchFilter(ks: seq<ApiKey>, searchText: string): seq<ApiKey> {
    if searchText != "" then Filter(ks, SearchTest(searchText)) else ks
  }

  /** The second step: only when a category other than "All" is selected. */
  function CategoryFilter(ks: seq<ApiKey>, category: string): seq<ApiKey> {
    if category != AllCategories then Filter(ks, CategoryTest(category)) else ks
  }

  /** A record survives both filters. */
  predicate Passes(k: ApiKey, searchText: string, category: string) {
    (searchText == "" || MatchesSearch(k, Lower(searchText))) &&
    (category == AllCategories || HasCategory(k, category))
  }

  // --------------------------------------------------------------- sort

  /** `a.lastUsed ? new Date(a.lastUsed).getTime() : 0`. */
  function SortTime(k: ApiKey): int {
    if k.lastUsed.Some? then k.lastUsed.value else 0
  }

  function TimeIs(t: int): ApiKey -> bool {
    (k: ApiKey) => SortTime(k) == t
  }

  /** Most recently used first. */
  predicate SortedByTime(s: seq<ApiKey>) {
    forall i, j :: 0 <= i < j < |s| ==> SortTime(s[i]) >= SortTime(s[j])
  }

  /** Places `x` before the first record that is not more recent than it. */
  function InsertByTime(x: ApiKey, s: seq<ApiKey>): (r: seq<ApiKey>)
    requires SortedByTime(s)
    ensures SortedByTime(r)
    ensures multiset(r) == multiset{x} + multiset(s)
    ensures forall i :: 0 <= i < |r| ==> SortTime(r[i]) <= SortTime(x) || (s != [] && SortTime(r[i]) <= SortTime(s[0]))
    decreases |s|
  {
    if s == [] then [x]
    else if SortTime(s[0]) <= SortTime(x) then [x] + s
    else
      assert s == [s[0]] + s[1..];
      var rest := InsertByTime(x, s[1..]);
      assert forall i :: 0 <= i < |rest| ==> SortTime(rest[i]) <= SortTime(s[0]);
      [s[0]] + rest
  }

  /** The comparator `(a, b) => bTime - aTime` under a stable sort. */
  function SortByLastUsed(s: seq<ApiKey>): (r: seq<ApiKey>)
    ensures SortedByTime(r)
    ensures multiset(r) == multiset(s)
    decreases |s|
  {
    if s == [] then []
    else
      assert s == [s[0]] + s[1..];
      InsertByTime(s[0], SortByLastUsed(s[1..]))
  }

  /** Inserting keeps, for every time value, the records of that time in
      the order they had, with `x` in front of the equal ones. */
  lemma {:induction false} InsertByTimeStable(x: ApiKey, s: seq<ApiKey>, t: int)
    requires SortedByTime(s)
    ensures Filter(InsertByTime(x, s), TimeIs(t)) == (if SortTime(x) == t then [x] else []) + Filter(s, TimeIs(t))
    decreases |s|
  {
    if s == [] {
      FilterCons(x, [], TimeIs(t));
    } else if SortTime(s[0]) <= SortTime(x) {
      FilterCons(x, s, TimeIs(t));
    } else {
      var tail := s[1..];
      TailSorted(s);
      InsertByTimeStable(x, tail, t);
      assert s == [s[0]] + tail;
      assert InsertByTime(x, s) == [s[0]] + InsertByTime(x, tail);
      InsertBehindStable(x, s[0], InsertByTime(x, tail), tail, t);
    }
  }

  lemma TailSorted(s: seq<ApiKey>)
    requires SortedByTime(s) && s != []
    ensures SortedByTime(s[1..])
  {
    var tail := s[1..];
    forall i, j | 0 <= i < j < |tail| ensures SortTime(tail[i]) >= SortTime(tail[j]) {
      assert tail[i] == s[i + 1] && tail[j] == s[j + 1];
    }
  }

  /** The step of `InsertByTimeStable` where `x` goes behind a more recent
      head `h`. */
  lemma InsertBehindStable(x: ApiKey, h: ApiKey, rest: seq<ApiKey>, tail: seq<ApiKey>, t: int)
    requires SortTime(h) > SortTime(x)
    requires Filter(rest, TimeIs(t)) == (if SortTime(x) == t then [x] else []) + Filter(tail, TimeIs(t))
    ensures Filter([h] + rest, TimeIs(t)) == (if SortTime(x) == t then [x] else []) + Filter([h] + tail, TimeIs(t))
  {
    var p := TimeIs(t);
    FilterCons(h, rest, p);
    FilterCons(h, tail, p);
    if SortTime(h) == t {
      assert Filter([h] + rest, p) == [h] + Filter(rest, p);
      assert Filter([h] + tail, p) == [h] + Filter(tail, p);
    } else {
      assert Filter([h] + rest, p) == Filter(rest, p);
      assert Filter([h] + tail, p) == Filter(tail, p);
    }
  }

  /** The sort is stable: records with equal times keep their relative
      order. */
  lemma {:induction false} SortByLastUsedStable(s: seq<ApiKey>, t: int)
    ensures Filter(SortByLastUsed(s), TimeIs(t)) == Filter(s, TimeIs(t))
    decreases |s|
  {
    if s != [] {
      SortByLastUsedStable(s[1..], t);
      InsertByTimeStable(s[0], SortByLastUsed(s[1..]), t);
    }
  }

  // ------------------------------------------------------- the pipeline

  /** `filteredKeys`. */
  function FilteredKeys(apiKeys: seq<ApiKey>, searchText: string, category: string): seq<ApiKey> {
    SortByLastUsed(CategoryFilter(SearchFilter(apiKeys, searchText), category))
  }

  /** The records the two filters keep, before sorting. */
  lemma {:induction false} FilterStepsSpec(apiKeys: seq<ApiKey>, searchText: string, category: string, x: ApiKey)
    ensures var f := CategoryFilter(SearchFilter(apiKeys, searchText), category);
            && IsSubsequence(f, apiKeys)
            && multiset(f)[x] == if Passes(x, searchText, category) then multiset(apiKeys)[x] else 0
  {
    var s := SearchFilter(apiKeys, searchText);
    if searchText != "" {
      FilterMultiset(apiKeys, SearchTest(searchText), x);
      FilterIsSubsequence(apiKeys, SearchTest(searchText));
    } else {
      SubsequenceReflexive(apiKeys);
    }
    if category != AllCategories {
      FilterMultiset(s, CategoryTest(category), x);
      FilterIsSubsequence(s, CategoryTest(category));
      SubsequenceTransitive(Filter(s, CategoryTest(category)), s, apiKeys);
    }
  }

  /** The list shows exactly the loaded records that pass both filters, each
      as often as it was loaded, most recently used first, ties in load
      order. */
  lemma FilteredKeysSpec(apiKeys: seq<ApiKey>, searchText: string, category: string)
    ensures var r := FilteredKeys(apiKeys, searchText, category);
            && (forall x :: multiset(r)[x] == if Passes(x, searchText, category) then multiset(apiKeys)[x] else 0)
            && (forall x :: x in r <==> x in apiKeys && Passes(x, searchText, category))
            && SortedByTime(r)
            && (forall t :: Filter(r, TimeIs(t)) == Filter(CategoryFilter(SearchFilter(apiKeys, searchText), category), TimeIs(t)))
  {
    var f := CategoryFilter(SearchFilter(apiKeys, searchText), category);
    var r := FilteredKeys(apiKeys, searchText, category);
    forall x ensures multiset(r)[x] == if Passes(x, searchText, category) then multiset(apiKeys)[x] else 0 {
      FilterStepsSpec(apiKeys, searchText, category, x);
    }
    forall x ensures x in r <==> x in apiKeys && Passes(x, searchText, category) {
      FilterStepsSpec(apiKeys, searchText, category, x);
      assert x in r <==> multiset(r)[x] > 0;
      assert x in apiKeys <==> multiset(apiKeys)[x] > 0;
    }
    forall t ensures Filter(r, TimeIs(t)) == Filter(f, TimeIs(t)) {
      SortByLastUsedStable(f, t);
    }
  }

  /** With no search text and "All" selected the list is a reordering of
      every loaded record. */
  lemma UnfilteredIsPermutation(apiKeys: seq<ApiKey>)
    ensures multiset(FilteredKeys(apiKeys, "", AllCategories)) == multiset(apiKeys)
  {
  }

  /** Every listed record matches the search in one of its four fields and
      carries the selected category exactly (case-sensitively). */
  lemma FilteredKeysSound(apiKeys: seq<ApiKey>, searchText: string, category: string, x: ApiKey)
    requires x in FilteredKeys(apiKeys, searchText, category)
    ensures x in apiKeys
    ensures searchText != "" ==> ContainsQuery(x, Lower(searchText))
    ensures category != AllCategories ==> x.categories.Some? && category in x.categories.value
  {
    FilteredKeysSpec(apiKeys, searchText, category);
    MatchesSearchIffContains(x, Lower(searchText));
  }

  /** A never-used record is listed after every record used at a positive
      time. */
  lemma NeverUsedLast(apiKeys: seq<ApiKey>, searchText: string, category: string)
    ensures var r := FilteredKeys(apiKeys, searchText, category);
            forall i, j :: 0 <= i < j < |r| && r[i].lastUsed.None? ==> SortTime(r[j]) <= 0
  {
  }

  // --------------------------------------------------------- visibility

  /** The React key of a row: `${apiKey.name}-${apiKey.service}`. */
  function KeyId(k: ApiKey): string {
    k.name + "-" + k.service
  }

  /** Different (name, service) pairs can share a row key, and then share
      one visibility entry. */
  lemma KeyIdCollision()
    ensures var a := ApiKey("1", "c", "a-b", "k", None, None, None, 0, 0);
            var b := ApiKey("2", "b-c", "a", "k", None, None, None, 0, 0);
            (a.name, a.service) != (b.name, b.service) && KeyId(a) == KeyId(b)
  {
    var a := ApiKey("1", "c", "a-b", "k", None, None, None, 0, 0);
    var b := ApiKey("2", "b-c", "a", "k", None, None, None, 0, 0);
    assert KeyId(a) == "a-b" + "-" + "c";
    assert KeyId(b) == "a" + "-" + "b-c";
  }

  /** `!!prev[keyId]`: an absent entry reads as hidden. */
  function IsShown(m: map<string, bool>, keyId: string): bool {
    keyId in m && m[keyId]
  }

  /** `prev => ({ ...prev, [keyId]: !prev[keyId] })`. */
  function ToggleKeyVisibility(m: map<string, bool>, keyId: string): (r: map<string, bool>)
    ensures keyId in r && IsShown(r, keyId) == !IsShown(m, keyId)
    ensures forall other :: other != keyId ==> (other in r <==> other in m)
    ensures forall other :: other != keyId && other in m ==> r[other] == m[other]
  {
    m[keyId := !IsShown(m, keyId)]
  }

  /** Toggling twice shows the same rows as before; the map itself comes back
      unchanged when the row already had an entry (otherwise it gains an
      explicit `false`). */
  lemma ToggleTwice(m: map<string, bool>, keyId: string)
    ensures forall k :: IsShown(ToggleKeyVisibility(ToggleKeyVisibility(m, keyId), keyId), k) == IsShown(m, k)
    ensures keyId in m ==> ToggleKeyVisibility(ToggleKeyVisibility(m, keyId), keyId) == m
    ensures keyId !in m ==> ToggleKeyVisibility(ToggleKeyVisibility(m, keyId), keyId) == m[keyId := false]
  {
  }
}
