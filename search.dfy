/**
 * Recipe search, tag filtering and sorting (lib/search.ts). Everything is
 * pure: each operation returns a new sequence and leaves its argument as it
 * was. Lowercasing is a parameter, since case mapping is not modelled.
 */
module Search {
  import opened Wrappers
  import opened Types
  import opened Seqs

  // ---------------------------------------------------------------------
  // String helpers: `trim` and `includes`
  // ---------------------------------------------------------------------

  /** The characters `String.prototype.trim` removes: white space and line terminators. */
  predicate IsWhitespace(c: char)
  {
    || c == '\t' || c == '\n' || c == '\U{000B}' || c == '\U{000C}' || c == '\r' || c == ' '
    || c == '\U{00A0}' || c == '\U{1680}' || ('\U{2000}' <= c <= '\U{200A}')
    || c == '\U{2028}' || c == '\U{2029}' || c == '\U{202F}' || c == '\U{205F}'
    || c == '\U{3000}' || c == '\U{FEFF}'
  }

  predicate AllWhitespace(s: string)
  {
    forall i :: 0 <= i < |s| ==> IsWhitespace(s[i])
  }

  /** `trimStart`: a suffix of `s`, preceded only by white space and not starting with any. */
  function TrimStart(s: string): (r: string)
    ensures |r| <= |s| && r == s[|s| - |r|..]
    ensures AllWhitespace(s[..|s| - |r|])
    ensures r == [] || !IsWhitespace(r[0])
  {
    if s != [] && IsWhitespace(s[0]) then
      var t := s[1..];
      var r := TrimStart(t);
      assert r == s[|s| - |r|..] by {
        assert t[|t| - |r|..] == s[|s| - |r|..];
      }
      var pre := s[..|s| - |r|];
      assert AllWhitespace(pre) by {
        forall i | 0 <= i < |pre| ensures IsWhitespace(pre[i]) {
          assert pre[i] == s[i];
          if i > 0 {
            assert s[i] == t[i - 1] == t[..|t| - |r|][i - 1];
          }
        }
      }
      r
    else s
  }

  /** `trimEnd`: a prefix of `s`, followed only by white space and not ending with any. */
  function TrimEnd(s: string): (r: string)
    ensures |r| <= |s| && r == s[..|r|]
    ensures AllWhitespace(s[|r|..])
    ensures r == [] || !IsWhitespace(r[|r| - 1])
  {
    if s != [] && IsWhitespace(s[|s| - 1]) then
      var t := s[..|s| - 1];
      var r := TrimEnd(t);
      assert r == s[..|r|] by {
        assert t[..|r|] == s[..|r|];
      }
      var post := s[|r|..];
      assert AllWhitespace(post) by {
        forall i | 0 <= i < |post| ensures IsWhitespace(post[i]) {
          assert post[i] == s[|r| + i];
          if |r| + i < |t| {
            assert s[|r| + i] == t[|r| + i] == t[|r|..][i];
          }
        }
      }
      r
    else s
  }

  /** `trim` */
  function Trim(s: string): (r: string)
    ensures |r| <= |s|
    ensures r != [] ==> !IsWhitespace(r[0]) && !IsWhitespace(r[|r| - 1])
  {
    TrimEnd(TrimStart(s))
  }

  /** A string trims to nothing exactly when it is all white space (`!s.trim()`). */
  lemma TrimBlank(s: string)
    ensures Trim(s) == [] <==> AllWhitespace(s)
  {
    var t := TrimStart(s);
    assert t[0..] == t;
  }

  /** Trimming twice is trimming once. */
  lemma TrimIdempotent(s: string)
    ensures Trim(Trim(s)) == Trim(s)
  {
  }

  predicate StartsWith(s: string, t: string)
  {
    |t| <= |s| && s[..|t|] == t
  }

  /** `s.includes(t)` */
  predicate Includes(s: string, t: string)
    decreases |s|
  {
    StartsWith(s, t) || (s != [] && Includes(s[1..], t))
  }

  /** `t` occurs in `s` starting at index `i`. */
  predicate OccursAt(s: string, t: string, i: int)
  {
    0 <= i <= |s| - |t| && s[i..i + |t|] == t
  }

  /** `includes` holds exactly when `t` occurs in `s` at some position. */
  lemma {:induction false} IncludesSpec(s: string, t: string)
    ensures Includes(s, t) <==> exists i :: OccursAt(s, t, i)
    decreases |s|
  {
    if StartsWith(s, t) {
      assert OccursAt(s, t, 0);
    }
    if s != [] {
      IncludesSpec(s[1..], t);
      if Includes(s[1..], t) {
        var i :| OccursAt(s[1..], t, i);
        assert s[i + 1..i + 1 + |t|] == s[1..][i..i + |t|];
        assert OccursAt(s, t, i + 1);
      }
      if exists i :: OccursAt(s, t, i) {
        var i :| OccursAt(s, t, i);
        if i > 0 {
          assert s[1..][i - 1..i - 1 + |t|] == s[i..i + |t|];
          assert OccursAt(s[1..], t, i - 1);
        } else {
          assert StartsWith(s, t);
        }
      }
    } else {
      if exists i :: OccursAt(s, t, i) {
        var i :| OccursAt(s, t, i);
        assert t == [];
        assert StartsWith(s, t);
      }
    }
  }

  // ---------------------------------------------------------------------
  // searchRecipes
  // ---------------------------------------------------------------------

  /** The lowercased title, description, some ingredient or some tag contains the term. */
  predicate Matches(recipe: Recipe, term: string, lower: string -> string)
  {
    || Includes(lower(recipe.title), term)
    || Includes(lower(recipe.description), term)
    || (exists ingredient :: ingredient in recipe.ingredients && Includes(lower(ingredient), term))
    || (exists tag :: tag in recipe.tags && Includes(lower(tag), term))
  }

  function MatchesTerm(term: string, lower: string -> string): Recipe -> bool
  {
    (recipe: Recipe) => Matches(recipe, term, lower)
  }

  /** The term a search compares against: lowercased, then trimmed. */
  function SearchTerm(searchTerm: string, lower: string -> string): string
  {
    Trim(lower(searchTerm))
  }

  /**
   * `searchRecipes`: everything when the term is blank; otherwise the
   * recipes that match the term, in their original order.
   */
  function SearchRecipes(recipes: seq<Recipe>, searchTerm: string, lower: string -> string): (r: seq<Recipe>)
    ensures AllWhitespace(searchTerm) ==> r == recipes
    ensures !AllWhitespace(searchTerm) ==>
      forall x :: x in r <==> x in recipes && Matches(x, SearchTerm(searchTerm, lower), lower)
    ensures !AllWhitespace(searchTerm) ==>
      forall x :: multiset(r)[x] ==
        if Matches(x, SearchTerm(searchTerm, lower), lower) then multiset(recipes)[x] else 0
    ensures IsSubsequence(r, recipes)
  {
    TrimBlank(searchTerm);
    if Trim(searchTerm) == [] then
      SubsequenceRefl(recipes);
      recipes
    else
      var p := MatchesTerm(SearchTerm(searchTerm, lower), lower);
      FilterMembers(recipes, p);
      FilterMultiset(recipes, p);
      FilterIsSubsequence(recipes, p);
      Filter(recipes, p)
  }

  // ---------------------------------------------------------------------
  // filterRecipesByTags
  // ---------------------------------------------------------------------

  /** The recipe has every tag (`requireAll`) or at least one of them. */
  predicate HasTags(recipe: Recipe, tags: seq<string>, requireAll: bool)
  {
    if requireAll then forall tag :: tag in tags ==> tag in recipe.tags
    else exists tag :: tag in tags && tag in recipe.tags
  }

  function HasTagsTest(tags: seq<string>, requireAll: bool): Recipe -> bool
  {
    (recipe: Recipe) => HasTags(recipe, tags, requireAll)
  }

  /** `filterRecipesByTags`: everything for no tags; otherwise the recipes with the tags, in order. */
  function FilterRecipesByTags(recipes: seq<Recipe>, tags: seq<string>, requireAll: bool): (r: seq<Recipe>)
    ensures tags == [] ==> r == recipes
    ensures tags != [] ==> forall x :: x in r <==> x in recipes && HasTags(x, tags, requireAll)
    ensures tags != [] ==>
      forall x :: multiset(r)[x] == if HasTags(x, tags, requireAll) then multiset(recipes)[x] else 0
    ensures IsSubsequence(r, recipes)
  {
    if |tags| == 0 then
      SubsequenceRefl(recipes);
      recipes
    else
      var p := HasTagsTest(tags, requireAll);
      FilterMembers(recipes, p);
      FilterMultiset(recipes, p);
      FilterIsSubsequence(recipes, p);
      Filter(recipes, p)
  }

  /** Requiring all tags keeps a subsequence of what requiring any one keeps. */
  lemma AllTagsWithinAnyTag(recipes: seq<Recipe>, tags: seq<string>)
    ensures IsSubsequence(FilterRecipesByTags(recipes, tags, true), FilterRecipesByTags(recipes, tags, false))
  {
    if tags == [] {
      SubsequenceRefl(recipes);
    } else {
      forall x | x in recipes && HasTagsTest(tags, true)(x) ensures HasTagsTest(tags, false)(x) {
        assert tags[0] in tags;
      }
      FilterWeaker(recipes, HasTagsTest(tags, true), HasTagsTest(tags, false));
    }
  }

  // ---------------------------------------------------------------------
  // sortRecipes
  // ---------------------------------------------------------------------

  datatype SortBy = LastUsed | Created
  datatype SortOrder = Asc | Desc

  /** The date a recipe is sorted by: `lastUsed || createdAt`, or `createdAt`. */
  function SortKey(recipe: Recipe, sortBy: SortBy): Timestamp
  {
    if sortBy == LastUsed && recipe.lastUsed.Some? then recipe.lastUsed.value else recipe.createdAt
  }

  /** The comparator: negative when `a` goes first, zero when the two are tied. */
  function Compare(a: Recipe, b: Recipe, sortBy: SortBy, order: SortOrder): int
  {
    if order == Desc then SortKey(b, sortBy) - SortKey(a, sortBy) else SortKey(a, sortBy) - SortKey(b, sortBy)
  }

  /** `a` may stand before `b`: the comparator does not put `b` first. */
  predicate InOrder(a: Recipe, b: Recipe, sortBy: SortBy, order: SortOrder)
  {
    Compare(a, b, sortBy, order) <= 0
  }

  /** No pair is out of order: non-decreasing keys for Asc, non-increasing for Desc. */
  predicate Sorted(s: seq<Recipe>, sortBy: SortBy, order: SortOrder)
  {
    forall i, j :: 0 <= i < j < |s| ==> InOrder(s[i], s[j], sortBy, order)
  }

  /** Inserts `x` before the first element it strictly precedes. */
  function Insert(x: Recipe, s: seq<Recipe>, sortBy: SortBy, order: SortOrder): (r: seq<Recipe>)
    ensures multiset(r) == multiset(s) + multiset{x}
  {
    if s == [] then [x]
    else if Compare(x, s[0], sortBy, order) < 0 then [x] + s
    else
      assert s == [s[0]] + s[1..];
      [s[0]] + Insert(x, s[1..], sortBy, order)
  }

  lemma SortedCons(a: Recipe, t: seq<Recipe>, sortBy: SortBy, order: SortOrder)
    requires Sorted(t, sortBy, order)
    requires forall y :: y in t ==> InOrder(a, y, sortBy, order)
    ensures Sorted([a] + t, sortBy, order)
  {
    var r := [a] + t;
    forall i, j | 0 <= i < j < |r| ensures InOrder(r[i], r[j], sortBy, order) {
      assert r[j] == t[j - 1];
      if i > 0 {
        assert r[i] == t[i - 1];
      }
    }
  }

  lemma SortedTail(s: seq<Recipe>, sortBy: SortBy, order: SortOrder)
    requires s != [] && Sorted(s, sortBy, order)
    ensures Sorted(s[1..], sortBy, order)
  {
    var t := s[1..];
    forall i, j | 0 <= i < j < |t| ensures InOrder(t[i], t[j], sortBy, order) {
      assert t[i] == s[i + 1] && t[j] == s[j + 1];
    }
  }

  /** Inserting into a sorted sequence keeps it sorted. */
  lemma {:induction false} InsertSorted(x: Recipe, s: seq<Recipe>, sortBy: SortBy, order: SortOrder)
    requires Sorted(s, sortBy, order)
    ensures Sorted(Insert(x, s, sortBy, order), sortBy, order)
  {
    if s == [] {
    } else if Compare(x, s[0], sortBy, order) < 0 {
      forall y | y in s ensures InOrder(x, y, sortBy, order) {
        var j :| 0 <= j < |s| && s[j] == y;
        if j > 0 {
          assert InOrder(s[0], s[j], sortBy, order);
        }
      }
      SortedCons(x, s, sortBy, order);
    } else {
      var t := s[1..];
      SortedTail(s, sortBy, order);
      InsertSorted(x, t, sortBy, order);
      var rest := Insert(x, t, sortBy, order);
      forall y | y in rest ensures InOrder(s[0], y, sortBy, order) {
        assert y in multiset(rest);
        if y != x {
          var j :| 0 <= j < |t| && t[j] == y;
          assert s[j + 1] == y;
        }
      }
      SortedCons(s[0], rest, sortBy, order);
    }
  }

  /**
   * `sortRecipes`: a sorted permutation of the recipes. `Array.prototype.sort`
   * is stable, so recipes with equal keys keep their order (SortStable).
   */
  function SortRecipes(recipes: seq<Recipe>, sortBy: SortBy, order: SortOrder): (r: seq<Recipe>)
    ensures Sorted(r, sortBy, order)
    ensures multiset(r) == multiset(recipes)
    ensures forall x :: x in r <==> x in recipes
  {
    if recipes == [] then []
    else
      var init := recipes[..|recipes| - 1];
      assert recipes == init + [recipes[|recipes| - 1]];
      var sorted := SortRecipes(init, sortBy, order);
      InsertSorted(recipes[|recipes| - 1], sorted, sortBy, order);
      var r := Insert(recipes[|recipes| - 1], sorted, sortBy, order);
      assert forall x :: x in r <==> x in multiset(r);
      assert forall x :: x in recipes <==> x in multiset(recipes);
      r
  }

  function KeyIs(key: Timestamp, sortBy: SortBy): Recipe -> bool
  {
    (recipe: Recipe) => SortKey(recipe, sortBy) == key
  }

  /** What `x` strictly precedes the head of a sorted sequence, it strictly precedes throughout. */
  lemma StrictlyBeforeAll(x: Recipe, s: seq<Recipe>, sortBy: SortBy, order: SortOrder)
    requires Sorted(s, sortBy, order)
    requires s != [] && Compare(x, s[0], sortBy, order) < 0
    ensures forall y :: y in s ==> SortKey(y, sortBy) != SortKey(x, sortBy)
  {
    forall y | y in s ensures SortKey(y, sortBy) != SortKey(x, sortBy) {
      var j :| 0 <= j < |s| && s[j] == y;
      if j > 0 {
        assert InOrder(s[0], s[j], sortBy, order);
      }
    }
  }

  /** The tied recipes `x` would join, as a sequence: `[x]` when `x` has the key, else nothing. */
  function TieOf(x: Recipe, sortBy: SortBy, key: Timestamp): seq<Recipe>
  {
    if SortKey(x, sortBy) == key then [x] else []
  }

  lemma FilterSingleton(x: Recipe, sortBy: SortBy, key: Timestamp)
    ensures Filter([x], KeyIs(key, sortBy)) == TieOf(x, sortBy, key)
  {
    assert [x][1..] == [];
  }

  /** Placed in front, `x` has a key no element has, so it cannot overtake a tie. */
  lemma InsertFrontTies(x: Recipe, s: seq<Recipe>, sortBy: SortBy, order: SortOrder, key: Timestamp)
    requires Sorted(s, sortBy, order)
    requires s != [] && Compare(x, s[0], sortBy, order) < 0
    ensures Filter([x] + s, KeyIs(key, sortBy)) == Filter(s, KeyIs(key, sortBy)) + TieOf(x, sortBy, key)
  {
    var p := KeyIs(key, sortBy);
    FilterConcat([x], s, p);
    FilterSingleton(x, sortBy, key);
    if SortKey(x, sortBy) == key {
      StrictlyBeforeAll(x, s, sortBy, order);
      FilterNone(s, p);
    }
  }

  /** Inserting `x` adds it behind every element with the same key. */
  lemma {:induction false} InsertKeepsTies(x: Recipe, s: seq<Recipe>, sortBy: SortBy, order: SortOrder, key: Timestamp)
    requires Sorted(s, sortBy, order)
    ensures Filter(Insert(x, s, sortBy, order), KeyIs(key, sortBy)) ==
      Filter(s, KeyIs(key, sortBy)) + TieOf(x, sortBy, key)
  {
    var p := KeyIs(key, sortBy);
    if s == [] {
      FilterSingleton(x, sortBy, key);
    } else if Compare(x, s[0], sortBy, order) < 0 {
      InsertFrontTies(x, s, sortBy, order, key);
    } else {
      var t := s[1..];
      var rest := Insert(x, t, sortBy, order);
      SortedTail(s, sortBy, order);
      calc {
        Filter(Insert(x, s, sortBy, order), p);
        Filter([s[0]] + rest, p);
        { FilterConcat([s[0]], rest, p); }
        Filter([s[0]], p) + Filter(rest, p);
        { InsertKeepsTies(x, t, sortBy, order, key); }
        Filter([s[0]], p) + (Filter(t, p) + TieOf(x, sortBy, key));
        (Filter([s[0]], p) + Filter(t, p)) + TieOf(x, sortBy, key);
        { FilterConcat([s[0]], t, p); assert [s[0]] + t == s; }
        Filter(s, p) + TieOf(x, sortBy, key);
      }
    }
  }

  /** Stability: the recipes that share a sort key appear in the result in their original order. */
  lemma {:induction false} SortStable(recipes: seq<Recipe>, sortBy: SortBy, order: SortOrder, key: Timestamp)
    ensures Filter(SortRecipes(recipes, sortBy, order), KeyIs(key, sortBy)) == Filter(recipes, KeyIs(key, sortBy))
  {
    if recipes != [] {
      var p := KeyIs(key, sortBy);
      var init := recipes[..|recipes| - 1];
      var last := recipes[|recipes| - 1];
      var sorted := SortRecipes(init, sortBy, order);
      FilterSingleton(last, sortBy, key);
      calc {
        Filter(SortRecipes(recipes, sortBy, order), p);
        Filter(Insert(last, sorted, sortBy, order), p);
        { InsertKeepsTies(last, sorted, sortBy, order, key); }
        Filter(sorted, p) + TieOf(last, sortBy, key);
        { SortStable(init, sortBy, order, key); }
        Filter(init, p) + Filter([last], p);
        { FilterConcat(init, [last], p); }
        Filter(init + [last], p);
        { assert init + [last] == recipes; }
        Filter(recipes, p);
      }
    }
  }

  // ---------------------------------------------------------------------
  // processRecipes
  // ---------------------------------------------------------------------

  /** The options object; an absent property takes the default. */
  datatype ProcessOptions = ProcessOptions(
    searchTerm: Option<string>,
    tags: Option<seq<string>>,
    requireAllTags: Option<bool>,
    sortBy: Option<SortBy>,
    sortOrder: Option<SortOrder>)

  /** `processRecipes`: search when there is a term, filter when there are tags, then sort. */
  function ProcessRecipes(recipes: seq<Recipe>, options: ProcessOptions, lower: string -> string): (r: seq<Recipe>)
    ensures Sorted(r, options.sortBy.GetOr(LastUsed), options.sortOrder.GetOr(Desc))
    ensures var term := options.searchTerm.GetOr("");
      var tags := options.tags.GetOr([]);
      forall x :: x in r <==>
        && x in recipes
        && (!AllWhitespace(term) ==> Matches(x, SearchTerm(term, lower), lower))
        && (tags != [] ==> HasTags(x, tags, options.requireAllTags.GetOr(true)))
    ensures var term := options.searchTerm.GetOr("");
      var tags := options.tags.GetOr([]);
      forall x :: multiset(r)[x] ==
        if && (!AllWhitespace(term) ==> Matches(x, SearchTerm(term, lower), lower))
           && (tags != [] ==> HasTags(x, tags, options.requireAllTags.GetOr(true)))
        then multiset(recipes)[x] else 0
  {
    var term := options.searchTerm.GetOr("");
    var tags := options.tags.GetOr([]);
    var searched := if term != "" then SearchRecipes(recipes, term, lower) else recipes;
    var filtered := if |tags| > 0 then FilterRecipesByTags(searched, tags, options.requireAllTags.GetOr(true)) else searched;
    SortRecipes(filtered, options.sortBy.GetOr(LastUsed), options.sortOrder.GetOr(Desc))
  }

  /** The guards only skip stages that would change nothing: the result is sort(filter(search(recipes))). */
  lemma ProcessRecipesIsPipeline(recipes: seq<Recipe>, options: ProcessOptions, lower: string -> string)
    ensures ProcessRecipes(recipes, options, lower) ==
      SortRecipes(
        FilterRecipesByTags(
          SearchRecipes(recipes, options.searchTerm.GetOr(""), lower),
          options.tags.GetOr([]), options.requireAllTags.GetOr(true)),
        options.sortBy.GetOr(LastUsed), options.sortOrder.GetOr(Desc))
  {
    assert AllWhitespace("");
  }
}
